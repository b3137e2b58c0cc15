/** Chains of views, and the choice of the primary along them. */
module Primaries {
  import opened Names
  import opened Sequences
  import opened Views

  ghost predicate GoodView(v: seq<string>) {
    v != [] && Distinct(v) && AllNames(v)
  }

  /** A chain of views: `v(1)` is the first node alone and each later view is a legal change. */
  ghost predicate IsChain(v: nat -> seq<string>, last: nat, first: string) {
    && (last >= 1 ==> v(1) == [first] && IsName(first))
    && (forall i {:trigger LegalAt(v, i)} :: 1 < i <= last ==> LegalAt(v, i))
  }

  /** View `i` is a legal change of the one before. */
  ghost predicate LegalAt(v: nat -> seq<string>, i: int) {
    i > 0 && LegalNext(v(i - 1), v(i))
  }

  /** Every view of a chain is non-empty, free of duplicates, made of names, and shares a
      member with the view before it. */
  lemma {:induction false} ChainViewsAreGood(v: nat -> seq<string>, last: nat, first: string, i: nat)
    requires IsChain(v, last, first) && 1 <= i <= last
    ensures GoodView(v(i))
    ensures i > 1 ==> v(i)[0] in v(i - 1)
  {
    if i == 1 {
      assert v(1) == [first];
    } else {
      ChainViewsAreGood(v, last, first, i - 1);
      assert LegalAt(v, i);
      LegalNextProperties(v(i - 1), v(i));
    }
  }

  // ----- the primary -----

  /** `set_primary`: stay if still a member, else the first member of the previous view
      that is in the new one. None is the final VERIFY(0). */
  function FirstIn(p: seq<string>, c: seq<string>): Option<string> {
    if p == [] then None else if p[0] in c then Some(p[0]) else FirstIn(p[1..], c)
  }

  function SetPrimary(primary: string, p: seq<string>, c: seq<string>): Option<string> {
    if c == [] then None
    else if primary in c then Some(primary)
    else FirstIn(p, c)
  }

  /** Along a chain `set_primary` never fails, and a stale primary is replaced by the head
      of the new view unless it is still a member. So its answer is the head exactly when
      the old primary is gone or already is the head. */
  lemma SetPrimaryFindsHead(v: nat -> seq<string>, last: nat, first: string, i: nat, primary: string)
    requires IsChain(v, last, first) && 1 < i <= last
    ensures v(i) != [] && SetPrimary(primary, v(i - 1), v(i)).Some?
    ensures SetPrimary(primary, v(i - 1), v(i)).value in v(i)
    ensures SetPrimary(primary, v(i - 1), v(i)) == Some(v(i)[0]) <==> (primary !in v(i) || primary == v(i)[0])
  {
    var p, c := v(i - 1), v(i);
    ChainViewsAreGood(v, last, first, i - 1);
    ChainViewsAreGood(v, last, first, i);
    assert LegalAt(v, i);
    LegalNextProperties(p, c);
    if p[0] in c {
      assert FirstIn(p, c) == Some(p[0]);
    } else {
      assert p[1..][0] == p[1] && FirstIn(p, c) == FirstIn(p[1..], c) == Some(p[1]);
    }
  }

  /** The primary a node has at view `i` after taking over view `from` with `start` as its
      primary and then applying every view up to `i` in order. */
  function PrimaryAt(v: nat -> seq<string>, from: nat, start: string, i: nat): string
    requires from <= i
    decreases i
  {
    if i == from then start
    else
      var before := PrimaryAt(v, from, start, i - 1);
      var next := SetPrimary(before, v(i - 1), v(i));
      if next.Some? then next.value else before
  }

  /** Primary agreement: a node that has the head of one view as its primary and applies
      every later view in order always has the head of its current view, so two such nodes
      at the same view name the same primary, which was a member of the view before. */
  lemma {:induction false} PrimaryIsHead(v: nat -> seq<string>, last: nat, first: string, from: nat, i: nat)
    requires IsChain(v, last, first) && 1 <= from <= i <= last
    requires v(from) != []
    ensures v(i) != [] && PrimaryAt(v, from, v(from)[0], i) == v(i)[0]
    ensures i > 1 ==> PrimaryAt(v, from, v(from)[0], i) in v(i - 1)
    decreases i - from
  {
    ChainViewsAreGood(v, last, first, i);
    if i == from {
    } else {
      PrimaryIsHead(v, last, first, from, i - 1);
      SetPrimaryFindsHead(v, last, first, i, v(i - 1)[0]);
      ChainViewsAreGood(v, last, first, i - 1);
      assert LegalAt(v, i);
      LegalNextProperties(v(i - 1), v(i));
    }
  }

  /** A node that joins at view `i` starts from the first node's name. It picks the right
      primary exactly when the first node is not a member of that view or heads it, which
      fails once the first node was removed and came back. */
  lemma JoinerFindsHead(v: nat -> seq<string>, last: nat, first: string, i: nat)
    requires IsChain(v, last, first) && 1 < i <= last
    ensures v(i) != []
    ensures SetPrimary(first, v(i - 1), v(i)) == Some(v(i)[0]) <==> (first !in v(i) || v(i)[0] == first)
  {
    SetPrimaryFindsHead(v, last, first, i, first);
  }

  function ComeBack(i: nat): seq<string> {
    if i == 1 then ["1"] else if i == 2 then ["1", "2"] else if i == 3 then ["2"] else if i == 4 then ["2", "1"]
    else ["2", "1", "3"]
  }

  /** The failing case is real: the first node leaves in view 3 and is back in view 4, and the
      node that joins with view 5 takes it for the primary while the members follow node 2. */
  lemma JoinerCanPickAnother()
    ensures IsChain(ComeBack, 5, "1")
    ensures SetPrimary("1", ComeBack(4), ComeBack(5)) == Some("1")
    ensures PrimaryAt(ComeBack, 1, "1", 5) == "2"
  {
    assert Without(["1", "2"], "1") == ["2"] by {
      assert ["1", "2"][1..] == ["2"] && ["2"][1..] == [];
    }
    assert "1" in ["1", "2"] && "2" in ["1", "2"];
    assert IsName("1") && IsName("2") && IsName("3");
    assert ComeBack(2) == ["1"] + ["2"] && ComeBack(4) == ["2"] + ["1"] && ComeBack(5) == ["2", "1"] + ["3"];
    assert LegalAt(ComeBack, 2) && LegalAt(ComeBack, 3) && LegalAt(ComeBack, 4) && LegalAt(ComeBack, 5);
    PrimaryIsHead(ComeBack, 5, "1", 1, 5);
  }

  // ----- whatever a node takes for the primary, the head of a view takes itself -----

  /** The primary a node has right after it entered with view `from`. */
  function EntryPrimary(v: nat -> seq<string>, first: string, from: nat): string {
    var next := if from == 0 then None else SetPrimary(first, v(from - 1), v(from));
    if next.Some? then next.value else first
  }

  /** The node `n` is added by view `from`. */
  predicate EntersAt(v: nat -> seq<string>, n: string, from: nat) {
    1 <= from && n in v(from) && (from > 1 ==> n !in v(from - 1))
  }

  predicate Precedes(q: seq<string>, a: string, b: string) {
    a != b && forall i, j :: 0 <= i < |q| && 0 <= j < |q| && q[i] == a && q[j] == b ==> i < j
  }

  lemma {:induction false} WithoutKeepsOrder(q: seq<string>, x: string, a: string, b: string)
    requires Precedes(q, a, b)
    ensures Precedes(Without(q, x), a, b)
  {
    if q == [] {
    } else {
      var rest := q[1..];
      assert Precedes(rest, a, b) by {
        forall i, j | 0 <= i < |rest| && 0 <= j < |rest| && rest[i] == a && rest[j] == b
          ensures i < j
        {
          assert q[i + 1] == a && q[j + 1] == b;
        }
      }
      WithoutKeepsOrder(rest, x, a, b);
      if q[0] == b {
        assert forall i :: 0 <= i < |rest| ==> q[i + 1] == rest[i];
        assert a !in rest;
        WithoutKeepsRest(rest, x);
      }
    }
  }

  /** A legal change never lets anybody overtake a member that stays. */
  lemma LegalKeepsOrder(p: seq<string>, c: seq<string>, a: string, b: string)
    requires LegalNext(p, c) && Precedes(p, a, b) && a in p
    ensures Precedes(c, a, b)
  {
    if x :| IsName(x) && x !in p && c == p + [x] {
    } else {
      var x, who :| x in p && who in p && who != x && c == Without(p, x);
      WithoutKeepsOrder(p, x, a, b);
    }
  }

  /** A node that does not have the head as its primary has the first node, which then has
      been a member all along and is the node itself or stands before it. */
  lemma {:induction false} WrongPrimaryIsAhead(v: nat -> seq<string>, last: nat, first: string, n: string, from: nat,
          i: nat)
    requires IsChain(v, last, first) && EntersAt(v, n, from) && from <= i <= last
    ensures v(i) != []
    ensures
      var p := PrimaryAt(v, from, EntryPrimary(v, first, from), i);
      p == v(i)[0] || (p == first && first in v(i) && (n == first || Precedes(v(i), first, n)))
    decreases i - from
  {
    ChainViewsAreGood(v, last, first, i);
    if i == 1 {
      assert v(1) == [first];
    } else if i == from {
      EntersLast(v, last, first, n, from);
      SetPrimaryFindsHead(v, last, first, i, first);
    } else {
      WrongPrimaryIsAhead(v, last, first, n, from, i - 1);
      ChainViewsAreGood(v, last, first, i - 1);
      var p := PrimaryAt(v, from, EntryPrimary(v, first, from), i - 1);
      SetPrimaryFindsHead(v, last, first, i, p);
      assert LegalAt(v, i);
      LegalNextProperties(v(i - 1), v(i));
      if first in v(i - 1) && Precedes(v(i - 1), first, n) {
        LegalKeepsOrder(v(i - 1), v(i), first, n);
      }
    }
  }

  lemma EntersLast(v: nat -> seq<string>, last: nat, first: string, n: string, from: nat)
    requires IsChain(v, last, first) && EntersAt(v, n, from) && 1 < from <= last
    ensures v(from) == v(from - 1) + [n]
    ensures first in v(from) && first != n ==> Precedes(v(from), first, n)
  {
    var p, c := v(from - 1), v(from);
    assert LegalAt(v, from);
    if x :| IsName(x) && x !in p && c == p + [x] {
      assert x == n;
    } else {
      var x, who :| x in p && who in p && who != x && c == Without(p, x);
      WithoutKeepsRest(p, x);
      assert false;
    }
  }

  /** Whatever it entered with, a node that heads a view takes itself for its primary. */
  lemma HeadTakesItself(v: nat -> seq<string>, last: nat, first: string, n: string, from: nat, i: nat)
    requires IsChain(v, last, first) && EntersAt(v, n, from) && from <= i <= last && v(i) != [] && v(i)[0] == n
    ensures PrimaryAt(v, from, EntryPrimary(v, first, from), i) == n
  {
    WrongPrimaryIsAhead(v, last, first, n, from, i);
  }
}
