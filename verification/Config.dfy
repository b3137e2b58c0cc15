/** The configuration object: the current view, what it proposes when a node joins
    or stops answering, and how it takes over a decided view. */
module Config {
  import opened Names
  import opened Sequences
  import opened Views

  /** What `add` and `remove_wo` hand to the proposer. */
  datatype Proposal = Proposal(nextvid: nat, members: seq<string>, value: string)

  method ComputeMembers(v: string) returns (view: seq<string>)
    ensures view == Members(v)
  {
    view := [];
    var rest := v;
    while true
      invariant view + Members(rest) == Members(v)
      decreases |rest|
    {
      match ReadWord(rest) {
        case None =>
          return view;
        case Some((w, left)) =>
          assert Members(rest) == [w] + Members(left);
          assert view + Members(rest) == view + [w] + Members(left);
          view := view + [w];
          rest := left;
      }
    }
  }

  lemma {:induction false} ValueAppends(a: seq<string>, b: seq<string>)
    ensures Value(a + b) == Value(a) + Value(b)
  {
    if a == [] {
      assert a + b == b;
    } else {
      assert (a + b)[1..] == a[1..] + b;
      ValueAppends(a[1..], b);
    }
  }

  method ComputeValue(m: seq<string>) returns (v: string)
    ensures v == Value(m)
  {
    v := "";
    for i := 0 to |m|
      invariant v == Value(m[..i])
    {
      ValueAppends(m[..i], [m[i]]);
      assert m[..i + 1] == m[..i] + [m[i]];
      assert Value([m[i]]) == m[i] + " " + "";
      v := v + m[i];
      v := v + " ";
    }
    assert m[..|m|] == m;
  }

  lemma {:induction false} WithoutAppends(a: seq<string>, b: seq<string>, x: string)
    ensures Without(a + b, x) == Without(a, x) + Without(b, x)
  {
    if a == [] {
      assert a + b == b;
    } else {
      assert (a + b)[1..] == a[1..] + b;
      WithoutAppends(a[1..], b, x);
    }
  }

  /** Nothing in `m` comes before `x` in the order of names. */
  predicate Smallest(x: string, m: seq<string>) {
    forall i :: 0 <= i < |m| ==> !Below(m[i], x)
  }

  /** One round of the heartbeat loop: the member with the smallest name pings all the
      others and picks the first that does not answer; everyone else pings only that member.
      `answers(m)` says whether `m` answers. */
  method HeartbeatRound(me: string, view: seq<string>, answers: string -> bool) returns (victim: Option<string>)
    ensures victim.Some? ==> me in view && victim.value in view && victim.value != me && !answers(victim.value)
    ensures me !in view ==> victim == None
    ensures me in view && Smallest(me, view) ==>
      (victim == None <==> forall m :: m in view && m != me ==> answers(m))
    ensures me in view && Smallest(me, view) && victim.Some? ==>
      forall j :: 0 <= j < |view| && j < Position(view, victim.value) && view[j] != me ==> answers(view[j])
    ensures me in view && !Smallest(me, view) ==>
      forall m :: m in view && Smallest(m, view) ==> victim == if answers(m) then None else Some(m)
  {
    if me !in view {
      return None;
    }
    var m := me;
    for i := 0 to |view|
      invariant m in view
      invariant forall j :: 0 <= j < i ==> !Below(view[j], m)
      invariant m == me || Below(m, me)
    {
      if Below(view[i], m) {
        LowerStaysLowest(view, i, m);
        if m != me {
          BelowIsTransitive(view[i], m, me);
        }
        m := view[i];
      }
      BelowIsStrictAndTotal(view[i], m);
    }
    BelowIsStrictAndTotal(m, me);
    if m == me {
      for i := 0 to |view|
        invariant forall j :: 0 <= j < i && view[j] != me ==> answers(view[j])
      {
        if view[i] != me && !answers(view[i]) {
          PositionMeaning(view, view[i]);
          assert view[i] in view;
          return Some(view[i]);
        }
      }
      return None;
    } else {
      assert m in view && Below(m, me);
      assert !Smallest(me, view);
      forall n | n in view && Smallest(n, view) ensures n == m {
        BelowIsStrictAndTotal(m, n);
      }
      return if answers(m) then None else Some(m);
    }
  }

  lemma LowerStaysLowest(view: seq<string>, i: nat, m: string)
    requires i < |view| && Below(view[i], m)
    requires forall j :: 0 <= j < i ==> !Below(view[j], m)
    ensures forall j :: 0 <= j < i ==> !Below(view[j], view[i])
  {
    forall j | 0 <= j < i ensures !Below(view[j], view[i]) {
      if Below(view[j], view[i]) {
        BelowIsTransitive(view[j], view[i], m);
      }
    }
  }

  /** What `joinreq` does: send the log to a member, refuse, or propose to add the node. */
  datatype JoinResult = SendLog | Busy | NotCurrent | Proposed(p: Proposal)

  function ValueIn(log: map<nat, string>, vid: nat): string {
    if vid in log then log[vid] else ""
  }

  class Config {
    const me: string
    var myvid: nat
    var mems: seq<string>
    /** The decided values of this node's acceptor, by instance. */
    var log: map<nat, string>

    ghost function View(vid: nat): seq<string>
      reads this
    {
      Members(ValueIn(log, vid))
    }

    /** The current member list is that of the decided value it was taken from. */
    ghost predicate Valid()
      reads this
    {
      mems == View(myvid)
    }

    /** `reconstruct`: start from the last instance the acceptor has. */
    constructor (me: string, instance: nat, log: map<nat, string>)
      requires 0 !in log
      ensures Valid() && this.me == me && this.log == log && myvid == instance
    {
      this.me := me;
      this.log := log;
      myvid, mems := 0, [];
      new;
      if instance > 0 {
        myvid := instance;
        mems := ComputeMembers(ValueIn(log, instance));
      }
      assert instance == 0 ==> View(0) == [];
    }

    /** Called by the acceptor, which has recorded the value. */
    method PaxosCommit(instance: nat, value: string)
      requires ValueIn(log, instance) == value
      modifies this`myvid, this`mems
      ensures Valid() && myvid == instance
    {
      mems := ComputeMembers(value);
      myvid := instance;
    }

    /** Membership in any decided view. */
    method IsMember(m: string, vid: nat) returns (r: bool)
      ensures r <==> m in View(vid)
    {
      var v := ComputeMembers(ValueIn(log, vid));
      r := m in v;
    }

    /** A join: refused unless the caller still has the current view in mind. The new
        name is not checked here. */
    method Add(newName: string, vid: nat) returns (p: Option<Proposal>)
      requires Valid()
      ensures p == None <==> vid != myvid
      ensures p.Some? ==> p.value == Proposal(myvid + 1, View(myvid), Value(View(myvid) + [newName]))
    {
      if vid != myvid {
        return None;
      }
      var m := mems + [newName];
      var v := ComputeValue(m);
      p := Some(Proposal(myvid + 1, mems, v));
    }

    /** `rsm::joinreq`: the node is looked up in the committed view `vid`, and that number goes
        along to `add`, which refuses it if the view is no longer current. So a proposal always
        appends a name that the current view does not have. */
    method JoinReq(m: string, vid: nat, primary: string) returns (r: JoinResult)
      requires Valid() && IsName(m)
      ensures r == SendLog <==> m in View(vid)
      ensures r == Busy <==> m !in View(vid) && me != primary
      ensures r.Proposed? <==> m !in View(vid) && me == primary && vid == myvid
      ensures r.Proposed? ==>
        && r.p.nextvid == myvid + 1 && r.p.members == View(myvid)
        && JoinProposes(View(myvid), m, r.p.value) && LegalNext(View(myvid), Members(r.p.value))
    {
      var member := IsMember(m, vid);
      if member {
        return SendLog;
      } else if me != primary {
        return Busy;
      }
      var p := Add(m, vid);
      match p {
        case None => return NotCurrent;
        case Some(q) =>
          MembersAreNames(ValueIn(log, myvid));
          JoinIsLegal(View(myvid), m, q.value);
          return Proposed(q);
      }
    }

    method Remove(m: string) returns (p: Proposal)
      requires Valid()
      ensures p == Proposal(myvid + 1, View(myvid), Value(Without(View(myvid), m)))
    {
      var n := [];
      for i := 0 to |mems|
        invariant n == Without(mems[..i], m)
      {
        WithoutAppends(mems[..i], [mems[i]], m);
        assert mems[..i + 1] == mems[..i] + [mems[i]];
        assert Without([mems[i]], m) == if mems[i] != m then [mems[i]] else [];
        if mems[i] != m {
          n := n + [mems[i]];
        }
      }
      assert mems[..|mems|] == mems;
      var v := ComputeValue(n);
      p := Proposal(myvid + 1, mems, v);
    }

    /** One turn of the heartbeat loop that began at view `vid`: the round runs without the
        mutex, and its victim is proposed for removal only if that view is still current. */
    method HeartbeatTurn(vid: nat, answers: string -> bool) returns (p: Option<Proposal>)
      requires Valid()
      ensures p.Some? ==> vid == myvid && p.value.nextvid == myvid + 1 && p.value.members == View(myvid)
      ensures p.Some? ==> exists m ::
        !answers(m) && RemovalProposes(me, View(myvid), m, p.value.value)
            && LegalNext(View(myvid), Members(p.value.value))
      ensures vid == myvid && me in View(vid) && Smallest(me, View(vid)) ==>
        (p == None <==> forall m :: m in View(vid) && m != me ==> answers(m))
      ensures vid == myvid && me in View(vid) && !Smallest(me, View(vid)) ==>
        forall m :: m in View(vid) && Smallest(m, View(vid)) ==>
          if answers(m) then p == None else p.Some? && RemovalProposes(me, View(vid), m, p.value.value)
    {
      var view := ComputeMembers(ValueIn(log, vid));
      var victim := HeartbeatRound(me, view, answers);
      p := None;
      if victim.Some? && vid == myvid {
        var q := Remove(victim.value);
        MembersAreNames(ValueIn(log, myvid));
        RemovalIsLegal(me, View(myvid), victim.value, q.value);
        p := Some(q);
      }
    }
  }
}
