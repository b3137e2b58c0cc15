/** Views as the values Paxos agrees on: member lists printed as words, and what one
    view may look like after another. */
module Views {
  import opened Names
  import opened Sequences

  /** `config::members`: the words of a value. */
  function Members(v: string): seq<string>
    decreases |v|
  {
    match ReadWord(v)
    case None => []
    case Some((w, rest)) => [w] + Members(rest)
  }

  /** `config::value`: every name followed by a space. */
  function Value(m: seq<string>): string {
    if m == [] then "" else m[0] + " " + Value(m[1..])
  }

  predicate AllNames(m: seq<string>) {
    forall i :: 0 <= i < |m| ==> IsName(m[i])
  }

  lemma {:induction false} MembersAreNames(v: string)
    ensures AllNames(Members(v))
    decreases |v|
  {
    match ReadWord(v)
    case None =>
    case Some((w, rest)) => MembersAreNames(rest);
  }

  lemma SpaceBeforeWord(v: string)
    ensures ReadWord(" " + v) == ReadWord(v)
  {
    assert (" " + v)[1..] == v;
  }

  /** Printing a member list and reading it back gives the same list. */
  lemma {:induction false} MembersOfValue(m: seq<string>)
    requires AllNames(m)
    ensures Members(Value(m)) == m
  {
    if m == [] {
    } else {
      var rest := Value(m[1..]);
      MembersOfValue(m[1..]);
      ReadWordBack(m[0], " " + rest);
      assert m[0] + " " + rest == m[0] + (" " + rest);
      SpaceBeforeWord(rest);
      assert Members(" " + rest) == Members(rest);
      assert m == [m[0]] + m[1..];
    }
  }

  /** The first view is the first node's bare name, without the trailing space. */
  lemma MembersOfName(w: string)
    requires IsName(w)
    ensures Members(w) == [w]
  {
    assert w + "" == w;
    ReadWordBack(w, "");
    assert Members("") == [];
  }

  /** A printed view is one non-empty line, so Paxos can log it and never mistakes it for "no value". */
  lemma {:induction false} ValueIsLine(m: seq<string>)
    requires AllNames(m)
    ensures IsLine(Value(m))
    ensures m != [] ==> Value(m) != ""
  {
    if m == [] {
    } else {
      ValueIsLine(m[1..]);
    }
  }

  function Without(m: seq<string>, x: string): seq<string> {
    if m == [] then []
    else (if m[0] != x then [m[0]] else []) + Without(m[1..], x)
  }

  /** A view anyone may propose after view `p`: one new name appended by a primary,
      or one member other than the proposer removed by a member. */
  ghost predicate LegalNext(p: seq<string>, c: seq<string>) {
    (exists x :: IsName(x) && x !in p && c == p + [x])
    || (exists x, who :: x in p && who in p && who != x && c == Without(p, x))
  }

  /** What a join proposes: the view with a new name appended. */
  predicate JoinProposes(view: seq<string>, m: string, newv: string) {
    IsName(m) && m !in view && newv == Value(view + [m])
  }

  /** What a failed heartbeat proposes: the view without another member that did not answer. */
  predicate RemovalProposes(me: string, view: seq<string>, m: string, newv: string) {
    me in view && m in view && m != me && newv == Value(Without(view, m))
  }

  lemma JoinIsLegal(view: seq<string>, m: string, newv: string)
    requires AllNames(view) && JoinProposes(view, m, newv)
    ensures Members(newv) == view + [m] && LegalNext(view, Members(newv))
  {
    MembersOfValue(view + [m]);
  }

  lemma RemovalIsLegal(me: string, view: seq<string>, m: string, newv: string)
    requires AllNames(view) && RemovalProposes(me, view, m, newv)
    ensures Members(newv) == Without(view, m) && LegalNext(view, Members(newv))
  {
    WithoutKeepsRest(view, m);
    MembersOfValue(Without(view, m));
  }

  lemma {:induction false} WithoutKeepsRest(m: seq<string>, x: string)
    ensures forall y :: y in Without(m, x) <==> y in m && y != x
    ensures |Without(m, x)| <= |m|
    ensures Distinct(m) ==> Distinct(Without(m, x))
    ensures AllNames(m) ==> AllNames(Without(m, x))
  {
    if m == [] {
    } else {
      WithoutKeepsRest(m[1..], x);
      var rest := Without(m[1..], x);
      if m[0] == x {
        assert Without(m, x) == rest;
      } else {
        assert Without(m, x) == [m[0]] + rest;
      }
      assert forall y :: y in m <==> y == m[0] || y in m[1..];
      if Distinct(m) {
        assert Distinct(m[1..]);
        assert m[0] !in m[1..];
      }
    }
  }

  lemma {:induction false} WithoutAbsent(m: seq<string>, x: string)
    requires x !in m
    ensures Without(m, x) == m
  {
    if m == [] {
    } else {
      WithoutAbsent(m[1..], x);
      assert m == [m[0]] + m[1..];
    }
  }

  /** A well-formed view keeps its first name first, unless that name is the one removed;
      then the second member moves up. Either way the new head was a member before. */
  lemma LegalNextProperties(p: seq<string>, c: seq<string>)
    requires LegalNext(p, c) && Distinct(p) && AllNames(p) && p != []
    ensures c != [] && Distinct(c) && AllNames(c)
    ensures c[0] in p
    ensures p[0] in c ==> c[0] == p[0]
    ensures p[0] !in c ==> |p| >= 2 && c[0] == p[1]
  {
    if x :| IsName(x) && x !in p && c == p + [x] {
      assert Distinct(c);
    } else {
      var x, who :| x in p && who in p && who != x && c == Without(p, x);
      WithoutKeepsRest(p, x);
      assert who in c;
      if p[0] == x {
        WithoutAbsent(p[1..], x);
        assert c == p[1..];
      }
    }
  }
}
