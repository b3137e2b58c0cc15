/** Facts about lists that several parts of the system use. */
module Sequences {

  predicate Distinct<T(==)>(s: seq<T>) {
    forall i, j :: 0 <= i < j < |s| ==> s[i] != s[j]
  }

  /** Where `x` stands first, or the length of the list. */
  function Position<T(==)>(s: seq<T>, x: T): nat {
    if s == [] || s[0] == x then 0 else 1 + Position(s[1..], x)
  }

  lemma {:induction false} PositionMeaning<T>(s: seq<T>, x: T)
    ensures Position(s, x) <= |s| && (Position(s, x) == |s| <==> x !in s)
    ensures Position(s, x) < |s| ==> s[Position(s, x)] == x
    ensures x !in s[..Position(s, x)]
  {
    if s == [] || s[0] == x {
      assert s[..0] == [];
    } else {
      PositionMeaning(s[1..], x);
      assert s[..Position(s, x)] == [s[0]] + s[1..][..Position(s[1..], x)];
    }
  }
}
