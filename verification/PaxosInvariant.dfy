/** The invariant of the Paxos system and what follows from it in any single state:
    agreement, validity and the safety of the acceptor that does not raise `nh`. */
module PaxosInvariant {
  import opened Names
  import opened Proposals
  import opened Acceptors
  import opened PaxosLog
  import opened Proposers
  import opened Views
  import opened PaxosSystem

  // ----- votes and decisions -----

  predicate SentAs(s: System, r: nat, inst: nat, n: Prop, v: string) {
    r < |s.runs| && s.runs[r].sent && s.runs[r].inst == inst && s.runs[r].num == n && s.runs[r].val == v
  }

  /** Some run asked for votes on `v` under the number `n`. */
  ghost predicate Backed(s: System, inst: nat, n: Prop, v: string) {
    exists r: nat :: SentAs(s, r, inst, n, v)
  }

  ghost predicate VoteOk(s: System, inst: nat, n: Prop, v: string) {
    HonestVote(n, v) && (n.n > 0 ==> Backed(s, inst, n, v))
  }

  /** The run collected an accept majority. */
  predicate Chosen(s: System, r: nat) {
    r < |s.runs| && s.runs[r].sent && Majority(s.runs[r].nodes, s.runs[r].acks)
  }

  predicate ChosenAs(s: System, r: nat, inst: nat, v: string) {
    Chosen(s, r) && s.runs[r].inst == inst && s.runs[r].val == v
  }

  ghost predicate Decided(s: System, inst: nat, v: string) {
    (inst == 1 && v == s.genesis) || exists r: nat :: ChosenAs(s, r, inst, v)
  }

  // ----- the invariant -----

  ghost predicate HostOk(s: System, a: string)
    requires a in s.hosts
  {
    var x := s.hosts[a].acc;
    && x.me == a && IsName(a) && Dense(x) && Tracks(x, s.hosts[a].recs)
    && VoteOk(s, x.inst + 1, x.na, x.va)
    && (x.na.n > 0 ==> Geq(x.nh, x.na))
    && (forall i: nat :: 1 <= i <= x.inst ==> Decided(s, i, x.vals[i]))
  }

  /** Node `a` promised to this run, and its report is counted in the tally. */
  ghost predicate Counted(s: System, r: nat, a: string)
    requires r < |s.runs|
  {
    exists na, va :: Promise(r, a, na, va) in s.msgs && Geq(s.runs[r].tally.max, na)
  }

  ghost predicate RunOrigin(s: System, run: Run) {
    && run.owner in s.hosts && IsName(run.owner) && run.num.n > 0 && run.num.m == run.owner
    && 1 <= run.inst <= s.hosts[run.owner].acc.inst + 1
    && run.nodes == Members(run.base) && run.newv != "" && IsLine(run.newv)
    && (run.inst == 1 ==> run.base == "")
    && (run.inst > 1 ==> Decided(s, run.inst - 1, run.base))
  }

  ghost predicate RunOk(s: System, r: nat)
    requires r < |s.runs|
  {
    var run := s.runs[r];
    && RunOrigin(s, run)
    && VoteOk(s, run.inst, run.tally.max, run.tally.v)
    && (run.tally.max.n > 0 ==> Gt(run.num, run.tally.max))
    && (forall a {:trigger Counted(s, r, a)} :: a in run.tally.accepts ==> Counted(s, r, a))
    && (run.phase.Accepting? || run.phase.Deciding? ==> run.sent)
    && (run.phase.Preparing? ==> !run.sent)
    && (run.sent ==> Majority(run.nodes, run.tally.accepts) && IsLine(run.val)
                     && run.val == if run.tally.v == "" then run.newv else run.tally.v)
    && (run.phase.Deciding? ==> Majority(run.nodes, run.acks))
    && (forall a :: a in run.acks ==> AcceptOk(r, a) in s.msgs)
  }

  /** A promise binds its sender, and reports a real vote below the promised number. */
  ghost predicate MsgOk(s: System, m: Msg) {
    && m.run < |s.runs|
    && match m
       case Prepare(r, a) => true
       case Promise(r, a, na, va) =>
         && a in s.hosts
         && s.runs[r].inst <= s.hosts[a].acc.inst + 1
         && (s.runs[r].inst == s.hosts[a].acc.inst + 1 ==> Geq(s.hosts[a].acc.nh, s.runs[r].num))
         && VoteOk(s, s.runs[r].inst, na, va)
         && (na.n > 0 ==> Gt(s.runs[r].num, na))
       case OldReply(r, a, v) => Decided(s, s.runs[r].inst, v)
       case AcceptReq(r, a) => s.runs[r].sent && a in s.runs[r].tally.accepts
       case AcceptOk(r, a) =>
         && a in s.hosts && s.runs[r].sent && a in s.runs[r].tally.accepts
         && s.runs[r].inst <= s.hosts[a].acc.inst + 1
         && (s.runs[r].inst == s.hosts[a].acc.inst + 1 ==> Geq(s.hosts[a].acc.na, s.runs[r].num))
       case Decide(r, a) => Chosen(s, r) && AcceptOk(r, a) in s.msgs
  }

  /** One node promises a number to at most one run of an instance. */
  predicate OnePromise(s: System, p: Msg, q: Msg) {
    p.run < |s.runs| && q.run < |s.runs| && p.Promise? && q.Promise? && p.src == q.src
    && s.runs[p.run].inst == s.runs[q.run].inst && s.runs[p.run].num == s.runs[q.run].num
    ==> p.run == q.run
  }

  /** A promise reports every vote its sender casts below it, before or after. */
  predicate Reported(s: System, p: Msg, q: Msg) {
    p.run < |s.runs| && q.run < |s.runs| && p.Promise? && q.AcceptOk? && p.src == q.src
    && s.runs[p.run].inst == s.runs[q.run].inst && Gt(s.runs[p.run].num, s.runs[q.run].num)
    ==> Geq(p.na, s.runs[q.run].num)
  }

  ghost predicate HostsInv(s: System) {
    s.genesis != "" && IsLine(s.genesis) && forall a {:trigger HostOk(s, a)} :: a in s.hosts ==> HostOk(s, a)
  }

  ghost predicate RunsInv(s: System) {
    forall r: nat :: r < |s.runs| ==> RunOk(s, r)
  }

  ghost predicate MsgsInv(s: System) {
    forall m {:trigger MsgOk(s, m)} :: m in s.msgs ==> MsgOk(s, m)
  }

  predicate PairsInv(s: System) {
    forall p, q {:trigger OnePromise(s, p, q)} {:trigger Reported(s, p, q)} ::
      p in s.msgs && q in s.msgs ==> OnePromise(s, p, q) && Reported(s, p, q)
  }

  ghost predicate Inv(s: System) {
    HostsInv(s) && RunsInv(s) && MsgsInv(s) && PairsInv(s)
  }

  // ----- consequences in one state -----

  /** Runs with a smaller number; their count is what the agreement proof descends on,
      because names are not well ordered. */
  ghost function Smaller(s: System, n: Prop): set<int> {
    set j | 0 <= j < |s.runs| && Gt(n, s.runs[j].num)
  }

  lemma SmallerShrinks(s: System, k: nat, j: nat)
    requires k < |s.runs| && j < |s.runs| && Gt(s.runs[k].num, s.runs[j].num)
    ensures Smaller(s, s.runs[j].num) < Smaller(s, s.runs[k].num)
  {
    var a, b := Smaller(s, s.runs[j].num), Smaller(s, s.runs[k].num);
    forall i | i in a ensures i in b {
      PropOrder(s.runs[k].num, s.runs[j].num);
      PropOrder(s.runs[j].num, s.runs[i].num);
      PropTransitive(s.runs[k].num, s.runs[j].num, s.runs[i].num);
    }
    PropOrder(s.runs[j].num, s.runs[j].num);
    assert j in b && j !in a;
  }

  /** A run's value comes from somewhere: it is its own, or that of a run with a smaller
      number in the same instance. */
  lemma ValueSource(s: System, k: nat) returns (j: nat)
    requires Inv(s) && k < |s.runs| && s.runs[k].sent
    ensures s.runs[k].val != ""
    ensures s.runs[k].tally.v == "" ==> j == k && s.runs[k].val == s.runs[k].newv
    ensures s.runs[k].tally.v != "" ==>
      SentAs(s, j, s.runs[k].inst, s.runs[k].tally.max, s.runs[k].val) && Gt(s.runs[k].num, s.runs[j].num)
    ensures j < |s.runs|
  {
    assert RunOk(s, k);
    var run := s.runs[k];
    if run.tally.v == "" {
      j := k;
    } else {
      j :| SentAs(s, j, run.inst, run.tally.max, run.tally.v);
    }
  }

  /** Validity: what a run asks votes for was given to some run of the same instance. */
  lemma {:induction false} ValueWasProposed(s: System, k: nat) returns (p: nat)
    requires Inv(s) && k < |s.runs| && s.runs[k].sent
    ensures p < |s.runs| && s.runs[p].inst == s.runs[k].inst && s.runs[p].newv == s.runs[k].val
    decreases Smaller(s, s.runs[k].num)
  {
    var j := ValueSource(s, k);
    if s.runs[k].tally.v == "" {
      p := k;
    } else {
      SmallerShrinks(s, k, j);
      p := ValueWasProposed(s, j);
    }
  }

  /** One number gains at most one promise majority: two runs of an instance that reach
      the accept phase with equal numbers are the same run, even if a rebooted proposer
      reused the number. */
  lemma OneRunPerNumber(s: System, r: nat, k: nat)
    requires Inv(s) && r < |s.runs| && k < |s.runs| && s.runs[r].sent && s.runs[k].sent
    requires s.runs[r].inst == s.runs[k].inst && s.runs[r].num == s.runs[k].num && s.runs[r].nodes == s.runs[k].nodes
    ensures r == k
  {
    assert RunOk(s, r) && RunOk(s, k);
    MajoritiesMeet(s.runs[r].nodes, s.runs[r].tally.accepts, s.runs[k].tally.accepts);
    var a :| a in s.runs[r].nodes && a in s.runs[r].tally.accepts && a in s.runs[k].tally.accepts;
    assert Counted(s, r, a) && Counted(s, k, a);
    var na, va :| Promise(r, a, na, va) in s.msgs;
    var nb, vb :| Promise(k, a, nb, vb) in s.msgs;
    assert OnePromise(s, Promise(r, a, na, va), Promise(k, a, nb, vb));
  }

  /** A run with a larger number saw the vote majority: its own best reported vote is
      at least the chosen number. */
  lemma LaterRunSawChosen(s: System, r: nat, k: nat)
    requires Inv(s) && Chosen(s, r) && k < |s.runs| && s.runs[k].sent
    requires s.runs[r].inst == s.runs[k].inst && s.runs[r].nodes == s.runs[k].nodes
    requires Gt(s.runs[k].num, s.runs[r].num)
    ensures Geq(s.runs[k].tally.max, s.runs[r].num) && s.runs[k].tally.max.n > 0
  {
    assert RunOk(s, r) && RunOk(s, k);
    MajoritiesMeet(s.runs[r].nodes, s.runs[r].acks, s.runs[k].tally.accepts);
    var a :| a in s.runs[r].nodes && a in s.runs[r].acks && a in s.runs[k].tally.accepts;
    assert Counted(s, k, a);
    var na, va :| Promise(k, a, na, va) in s.msgs && Geq(s.runs[k].tally.max, na);
    assert AcceptOk(r, a) in s.msgs;
    assert Reported(s, Promise(k, a, na, va), AcceptOk(r, a));
    PropTransitive(s.runs[k].tally.max, na, s.runs[r].num);
  }

  /** Once a run is chosen, every run with the same or a larger number asks for the same value. */
  lemma {:induction false} LaterRunsFollow(s: System, r: nat, k: nat)
    requires Inv(s) && Chosen(s, r) && k < |s.runs| && s.runs[k].sent
    requires s.runs[r].inst == s.runs[k].inst
    requires Geq(s.runs[k].num, s.runs[r].num)
    ensures s.runs[k].val == s.runs[r].val
    decreases s.runs[r].inst, 1, Smaller(s, s.runs[k].num)
  {
    SameMembers(s, r, k);
    PropOrder(s.runs[k].num, s.runs[r].num);
    if s.runs[k].num == s.runs[r].num {
      OneRunPerNumber(s, r, k);
    } else {
      LaterRunSawChosen(s, r, k);
      assert RunOk(s, k);
      var j: nat :| SentAs(s, j, s.runs[k].inst, s.runs[k].tally.max, s.runs[k].tally.v);
      var _ := ValueSource(s, j);
      SmallerShrinks(s, k, j);
      LaterRunsFollow(s, r, j);
    }
  }

  /** All runs of one instance are started from the same view. */
  lemma {:induction false} SameMembers(s: System, r: nat, k: nat)
    requires Inv(s) && r < |s.runs| && k < |s.runs| && s.runs[r].inst == s.runs[k].inst
    ensures s.runs[r].nodes == s.runs[k].nodes && s.runs[r].base == s.runs[k].base
    decreases s.runs[r].inst, 0
  {
    assert RunOk(s, r) && RunOk(s, k);
    if s.runs[r].inst > 1 {
      DecisionIsUnique(s, s.runs[r].inst - 1, s.runs[r].base, s.runs[k].base);
    }
  }

  /** Agreement: an instance has one decided value. */
  lemma {:induction false} DecisionIsUnique(s: System, inst: nat, v: string, w: string)
    requires Inv(s) && Decided(s, inst, v) && Decided(s, inst, w)
    ensures v == w
    decreases inst, 2
  {
    if inst == 1 {
      if v != s.genesis {
        var r: nat :| ChosenAs(s, r, 1, v);
        FirstInstanceNotRun(s, r);
      }
      if w != s.genesis {
        var r: nat :| ChosenAs(s, r, 1, w);
        FirstInstanceNotRun(s, r);
      }
    } else {
      var r: nat :| ChosenAs(s, r, inst, v);
      var k: nat :| ChosenAs(s, k, inst, w);
      PropOrder(s.runs[r].num, s.runs[k].num);
      if Geq(s.runs[k].num, s.runs[r].num) {
        LaterRunsFollow(s, r, k);
      } else {
        PropOrder(s.runs[k].num, s.runs[r].num);
        LaterRunsFollow(s, k, r);
      }
    }
  }

  /** View 1 is not voted on: a run started from view 0 has no members and no majority. */
  lemma FirstInstanceNotRun(s: System, r: nat)
    requires Inv(s) && r < |s.runs| && s.runs[r].inst == 1
    ensures !s.runs[r].sent
  {
    assert RunOk(s, r);
    assert s.runs[r].nodes == Members("") == [];
    NoMajorityOfNobody(s.runs[r].tally.accepts);
  }

  /** Why leaving `nh` alone in the accept handler is sound: in step, a vote is cast only
      for the very number that was promised last. */
  lemma VotesOnlyForLastPromise(s: System, r: nat, a: string)
    requires Inv(s) && Enabled(s, DeliverAccept(r, a)) && Timely(s, DeliverAccept(r, a))
    ensures Geq(s.hosts[a].acc.nh, s.runs[r].num)
    ensures AcceptTakes(s.hosts[a].acc, s.runs[r].num) <==> s.hosts[a].acc.nh == s.runs[r].num
  {
    assert MsgOk(s, AcceptReq(r, a));
    assert RunOk(s, r);
    assert Counted(s, r, a);
    var na, va :| Promise(r, a, na, va) in s.msgs;
    assert MsgOk(s, Promise(r, a, na, va));
    PropOrder(s.hosts[a].acc.nh, s.runs[r].num);
    PropOrder(s.runs[r].num, s.hosts[a].acc.nh);
  }

  /** Neither VERIFY of the decide handler can fail. */
  lemma DecideNeverAborts(s: System, r: nat, a: string)
    requires Inv(s) && Enabled(s, DeliverDecide(r, a))
    ensures !DecideAborts(s.hosts[a].acc, s.runs[r].inst, s.runs[r].val)
  {
    var x := s.hosts[a].acc;
    assert MsgOk(s, Decide(r, a));
    assert MsgOk(s, AcceptOk(r, a));
    if s.runs[r].inst == x.inst + 1 {
      assert RunOk(s, r);
      assert HostOk(s, a);
      assert x.na.n > 0;
      var k: nat :| SentAs(s, k, x.inst + 1, x.na, x.va);
      LaterRunsFollow(s, r, k);
    }
  }
}
