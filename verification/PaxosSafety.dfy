/** Every step of the Paxos system keeps the invariant, so its consequences hold in
    every state of every history. */
module PaxosSafety {
  import opened Names
  import opened Proposals
  import opened Acceptors
  import opened PaxosLog
  import opened Proposers
  import opened Views
  import opened PaxosSystem
  import opened Paths
  import opened PaxosInvariant

  // ----- what never changes and what only grows -----

  predicate RunGrows(x: Run, y: Run) {
    && x.owner == y.owner && x.inst == y.inst && x.base == y.base && x.nodes == y.nodes
    && x.num == y.num && x.newv == y.newv
    && (x.sent ==> y.sent && y.val == x.val && y.tally == x.tally)
    && (forall a :: a in x.acks ==> a in y.acks)
  }

  /** `q` stands above everything real that `p` stands above. */
  predicate PropUp(p: Prop, q: Prop) {
    (p.n == 0 && q.n == 0) || Geq(q, p)
  }

  /** An acceptor moves to a later instance, or keeps its instance and only raises its numbers. */
  predicate AccAdvances(x: AccState, y: AccState) {
    y.inst > x.inst || (y.inst == x.inst && PropUp(x.nh, y.nh) && PropUp(x.na, y.na))
  }

  predicate Grows(s: System, t: System) {
    && t.genesis == s.genesis && s.msgs <= t.msgs && t.hosts.Keys == s.hosts.Keys
    && |s.runs| <= |t.runs| && (forall r :: 0 <= r < |s.runs| ==> RunGrows(s.runs[r], t.runs[r]))
    && (forall a :: a in s.hosts ==> AccAdvances(s.hosts[a].acc, t.hosts[a].acc))
  }

  lemma PropUpBinds(p: Prop, q: Prop, n: Prop)
    requires PropUp(p, q) && n.n > 0 && Geq(p, n)
    ensures Geq(q, n)
  {
    if Geq(q, p) {
      PropTransitive(q, p, n);
    }
  }

  lemma {:induction false} SupportGrows(l: seq<string>, a: seq<string>, b: seq<string>)
    requires forall x :: x in a ==> x in b
    ensures Support(l, a) <= Support(l, b)
  {
    if l == [] {
    } else {
      SupportGrows(l[..|l| - 1], a, b);
    }
  }

  lemma BackedGrows(s: System, t: System, inst: nat, n: Prop, v: string)
    requires Grows(s, t) && Backed(s, inst, n, v)
    ensures Backed(t, inst, n, v)
  {
    var r: nat :| SentAs(s, r, inst, n, v);
    assert RunGrows(s.runs[r], t.runs[r]);
    assert SentAs(t, r, inst, n, v);
  }

  lemma VoteOkGrows(s: System, t: System, inst: nat, n: Prop, v: string)
    requires Grows(s, t) && VoteOk(s, inst, n, v)
    ensures VoteOk(t, inst, n, v)
  {
    if n.n > 0 {
      BackedGrows(s, t, inst, n, v);
    }
  }

  lemma ChosenGrows(s: System, t: System, r: nat)
    requires Grows(s, t) && Chosen(s, r)
    ensures Chosen(t, r) && t.runs[r].val == s.runs[r].val && t.runs[r].inst == s.runs[r].inst
  {
    assert RunGrows(s.runs[r], t.runs[r]);
    SupportGrows(s.runs[r].nodes, s.runs[r].acks, t.runs[r].acks);
  }

  lemma DecidedGrows(s: System, t: System, inst: nat, v: string)
    requires Grows(s, t) && Decided(s, inst, v)
    ensures Decided(t, inst, v)
  {
    if !(inst == 1 && v == s.genesis) {
      var r: nat :| ChosenAs(s, r, inst, v);
      ChosenGrows(s, t, r);
      assert ChosenAs(t, r, inst, v);
    }
  }

  // ----- carrying the invariant over a step -----

  lemma HostCarries(s: System, t: System, a: string)
    requires Inv(s) && Grows(s, t) && a in s.hosts
    requires t.hosts[a].acc == s.hosts[a].acc && t.hosts[a].recs == s.hosts[a].recs
    ensures HostOk(t, a)
  {
    assert HostOk(s, a);
    var x := s.hosts[a].acc;
    VoteOkGrows(s, t, x.inst + 1, x.na, x.va);
    DecisionsCarry(s, t, x);
  }

  lemma DecisionsCarry(s: System, t: System, x: AccState)
    requires Grows(s, t) && Dense(x) && forall i: nat :: 1 <= i <= x.inst ==> Decided(s, i, x.vals[i])
    ensures forall i: nat :: 1 <= i <= x.inst ==> Decided(t, i, x.vals[i])
  {
    forall i: nat | 1 <= i <= x.inst ensures Decided(t, i, x.vals[i]) {
      DecidedGrows(s, t, i, x.vals[i]);
    }
  }

  lemma OriginCarries(s: System, t: System, run: Run)
    requires Grows(s, t) && RunOrigin(s, run)
    ensures RunOrigin(t, run)
  {
    if run.inst > 1 {
      DecidedGrows(s, t, run.inst - 1, run.base);
    }
  }

  lemma RunCarries(s: System, t: System, r: nat)
    requires Inv(s) && Grows(s, t) && r < |s.runs| && t.runs[r] == s.runs[r]
    ensures RunOk(t, r)
  {
    assert RunOk(s, r);
    var run := s.runs[r];
    OriginCarries(s, t, run);
    VoteOkGrows(s, t, run.inst, run.tally.max, run.tally.v);
    CountedCarries(s, t, r);
  }

  lemma CountedCarries(s: System, t: System, r: nat)
    requires s.msgs <= t.msgs && r < |s.runs| && r < |t.runs| && t.runs[r].tally == s.runs[r].tally
    requires forall a :: a in s.runs[r].tally.accepts ==> Counted(s, r, a)
    ensures forall a :: a in t.runs[r].tally.accepts ==> Counted(t, r, a)
  {
    forall a | a in t.runs[r].tally.accepts ensures Counted(t, r, a) {
      assert Counted(s, r, a);
      var na, va :| Promise(r, a, na, va) in s.msgs && Geq(s.runs[r].tally.max, na);
      assert Promise(r, a, na, va) in t.msgs;
    }
  }

  lemma MsgCarries(s: System, t: System, m: Msg)
    requires Inv(s) && Grows(s, t) && m in s.msgs
    ensures MsgOk(t, m)
  {
    assert MsgOk(s, m);
    assert RunGrows(s.runs[m.run], t.runs[m.run]);
    assert RunOk(s, m.run);
    match m {
      case Prepare(r, a) =>
      case Promise(r, a, na, va) =>
        VoteOkGrows(s, t, s.runs[r].inst, na, va);
        if s.runs[r].inst == t.hosts[a].acc.inst + 1 {
          PropUpBinds(s.hosts[a].acc.nh, t.hosts[a].acc.nh, s.runs[r].num);
        }
      case OldReply(r, a, v) => DecidedGrows(s, t, s.runs[r].inst, v);
      case AcceptReq(r, a) =>
      case AcceptOk(r, a) =>
        if s.runs[r].inst == t.hosts[a].acc.inst + 1 {
          PropUpBinds(s.hosts[a].acc.na, t.hosts[a].acc.na, s.runs[r].num);
        }
      case Decide(r, a) => ChosenGrows(s, t, r);
    }
  }

  lemma MsgsCarry(s: System, t: System)
    requires Inv(s) && Grows(s, t)
    ensures forall m :: m in s.msgs ==> MsgOk(t, m)
  {
    forall m | m in s.msgs ensures MsgOk(t, m) {
      MsgCarries(s, t, m);
    }
  }

  /** Nothing new about pairs of messages if no promise and no vote was sent. */
  lemma PairsCarry(s: System, t: System)
    requires Inv(s) && Grows(s, t)
    requires forall m :: m in t.msgs && m !in s.msgs ==> !m.Promise? && !m.AcceptOk?
    ensures PairsInv(t)
  {
    forall p, q | p in t.msgs && q in t.msgs ensures OnePromise(t, p, q) && Reported(t, p, q) {
      if p.Promise? && (q.Promise? || q.AcceptOk?) {
        assert p in s.msgs && q in s.msgs;
        PairCarries(s, t, p, q);
      }
    }
  }

  lemma PairCarries(s: System, t: System, p: Msg, q: Msg)
    requires Inv(s) && Grows(s, t) && p in s.msgs && q in s.msgs
    ensures OnePromise(t, p, q) && Reported(t, p, q)
  {
    assert MsgOk(s, p) && MsgOk(s, q);
    assert RunGrows(s.runs[p.run], t.runs[p.run]) && RunGrows(s.runs[q.run], t.runs[q.run]);
    assert OnePromise(s, p, q) && Reported(s, p, q);
  }

  lemma AccStays(s: System)
    ensures forall a :: a in s.hosts ==> AccAdvances(s.hosts[a].acc, s.hosts[a].acc)
  {
    forall a | a in s.hosts ensures AccAdvances(s.hosts[a].acc, s.hosts[a].acc) {
      PropOrder(s.hosts[a].acc.nh, s.hosts[a].acc.nh);
      PropOrder(s.hosts[a].acc.na, s.hosts[a].acc.na);
    }
  }

  // ----- proposer steps: one run changes, acceptors do not -----

  /** Acceptors and logs are untouched, and only run `r` may have moved on. */
  predicate OnlyRun(s: System, t: System, r: nat) {
    && t.genesis == s.genesis && s.msgs <= t.msgs && t.hosts.Keys == s.hosts.Keys
    && (forall a :: a in s.hosts ==> t.hosts[a].acc == s.hosts[a].acc && t.hosts[a].recs == s.hosts[a].recs)
    && r < |s.runs| == |t.runs| && RunGrows(s.runs[r], t.runs[r])
    && (forall k :: 0 <= k < |s.runs| && k != r ==> t.runs[k] == s.runs[k])
    && (forall m :: m in t.msgs && m !in s.msgs ==> m.run == r && !m.Promise? && !m.AcceptOk?)
  }

  lemma OnlyRunGrows(s: System, t: System, r: nat)
    requires OnlyRun(s, t, r)
    ensures Grows(s, t)
  {
    AccStays(s);
  }

  lemma OnlyRunKeepsInv(s: System, t: System, r: nat)
    requires Inv(s) && OnlyRun(s, t, r) && RunOk(t, r)
    requires forall m :: m in t.msgs && m !in s.msgs ==> MsgOk(t, m)
    ensures Inv(t)
  {
    OnlyRunGrows(s, t, r);
    forall a | a in t.hosts ensures HostOk(t, a) {
      HostCarries(s, t, a);
    }
    forall k: nat | k < |t.runs| ensures RunOk(t, k) {
      if k != r {
        RunCarries(s, t, k);
      }
    }
    MsgsCarry(s, t);
    PairsCarry(s, t);
  }

  lemma RunRefl(x: Run)
    ensures RunGrows(x, x)
  {
  }

  /** A run that moves on without changing its tally is in order if the facts about its
      new phase are. */
  lemma RunMoves(s: System, t: System, r: nat)
    requires Inv(s) && Grows(s, t) && r < |s.runs|
    requires
      var y := t.runs[r];
      && y.tally == s.runs[r].tally
      && (y.phase.Accepting? || y.phase.Deciding? ==> y.sent)
      && (y.phase.Preparing? ==> !y.sent)
      && (y.sent ==> Majority(y.nodes, y.tally.accepts) && IsLine(y.val)
                     && y.val == if y.tally.v == "" then y.newv else y.tally.v)
      && (y.phase.Deciding? ==> Majority(y.nodes, y.acks))
      && (forall a :: a in y.acks ==> AcceptOk(r, a) in t.msgs)
    ensures RunOk(t, r)
  {
    assert RunOk(s, r);
    var x := s.runs[r];
    assert RunGrows(x, t.runs[r]);
    OriginCarries(s, t, x);
    assert RunOrigin(t, t.runs[r]);
    VoteOkGrows(s, t, x.inst, x.tally.max, x.tally.v);
    CountedCarries(s, t, r);
  }

  lemma SendPrepareKeeps(s: System, r: nat)
    requires Inv(s) && Enabled(s, SendPrepare(r))
    ensures Inv(Apply(s, SendPrepare(r)))
  {
    var t := Apply(s, SendPrepare(r));
    RunRefl(s.runs[r]);
    OnlyRunGrows(s, t, r);
    RunCarries(s, t, r);
    OnlyRunKeepsInv(s, t, r);
  }

  lemma SendAcceptKeeps(s: System, r: nat)
    requires Inv(s) && Enabled(s, SendAccept(r))
    ensures Inv(Apply(s, SendAccept(r)))
  {
    var t := Apply(s, SendAccept(r));
    RunRefl(s.runs[r]);
    OnlyRunGrows(s, t, r);
    assert RunOk(s, r);
    RunCarries(s, t, r);
    OnlyRunKeepsInv(s, t, r);
  }

  lemma TakePromiseKeeps(s: System, r: nat, na: Prop, va: string)
    requires Inv(s) && Enabled(s, TakePromise(r, na, va))
    ensures Inv(Apply(s, TakePromise(r, na, va)))
  {
    var t := Apply(s, TakePromise(r, na, va));
    TakePromiseRunOk(s, r, na, va);
    OnlyRunKeepsInv(s, t, r);
  }

  lemma TakePromiseTallyOk(s: System, r: nat, na: Prop, va: string)
    requires Inv(s) && Enabled(s, TakePromise(r, na, va))
    ensures
      var t := Apply(s, TakePromise(r, na, va));
      var run := t.runs[r];
      VoteOk(t, run.inst, run.tally.max, run.tally.v) && (run.tally.max.n > 0 ==> Gt(run.num, run.tally.max))
  {
    var t := Apply(s, TakePromise(r, na, va));
    var run := s.runs[r];
    var a := run.nodes[run.idx];
    assert RunOk(s, r) && MsgOk(s, Promise(r, a, na, va));
    OnlyRunGrows(s, t, r);
    CountKeepsTally(run.tally, a, na, va);
    VoteOkGrows(s, t, run.inst, run.tally.max, run.tally.v);
    VoteOkGrows(s, t, run.inst, na, va);
  }

  lemma TakePromiseOrigin(s: System, r: nat, na: Prop, va: string)
    requires Inv(s) && Enabled(s, TakePromise(r, na, va))
    ensures RunOrigin(Apply(s, TakePromise(r, na, va)), Apply(s, TakePromise(r, na, va)).runs[r])
  {
    var t := Apply(s, TakePromise(r, na, va));
    assert RunOk(s, r);
    OnlyRunGrows(s, t, r);
    OriginCarries(s, t, s.runs[r]);
  }

  lemma TakePromiseRunOk(s: System, r: nat, na: Prop, va: string)
    requires Inv(s) && Enabled(s, TakePromise(r, na, va))
    ensures var t := Apply(s, TakePromise(r, na, va)); OnlyRun(s, t, r) && t.msgs == s.msgs && RunOk(t, r)
  {
    var t := Apply(s, TakePromise(r, na, va));
    assert RunOk(s, r);
    TakePromiseTallyOk(s, r, na, va);
    TakePromiseOrigin(s, r, na, va);
    forall b | b in t.runs[r].tally.accepts ensures Counted(t, r, b) {
      CountedAfterCount(s, r, b, na, va);
    }
  }

  lemma CountedAfterCount(s: System, r: nat, b: string, na: Prop, va: string)
    requires Inv(s) && Enabled(s, TakePromise(r, na, va))
    requires b in Apply(s, TakePromise(r, na, va)).runs[r].tally.accepts
    ensures Counted(Apply(s, TakePromise(r, na, va)), r, b)
  {
    var t := Apply(s, TakePromise(r, na, va));
    var run, run' := s.runs[r], t.runs[r];
    var a := run.nodes[run.idx];
    assert RunOk(s, r) && MsgOk(s, Promise(r, a, na, va));
    CountKeepsTally(run.tally, a, na, va);
    if b == a {
      assert Promise(r, b, na, va) in t.msgs && Geq(run'.tally.max, na);
    } else {
      assert Counted(s, r, b);
      var nb, vb :| Promise(r, b, nb, vb) in s.msgs && Geq(run.tally.max, nb);
      PropTransitive(run'.tally.max, run.tally.max, nb);
      assert Promise(r, b, nb, vb) in t.msgs && Geq(run'.tally.max, nb);
    }
  }

  /** A run changes only its phase and its loop counter. */
  lemma QuietRunStep(s: System, t: System, r: nat)
    requires Inv(s) && OnlyRun(s, t, r) && t.msgs == s.msgs
    requires var x, y := s.runs[r], t.runs[r];
      y == x.(phase := y.phase, idx := y.idx)
      && (y.phase == x.phase || y.phase == Ended
        || (x.phase == Accepting && y.phase == Deciding && Majority(x.nodes, x.acks)))
    ensures Inv(t)
  {
    assert RunOk(s, r);
    OnlyRunGrows(s, t, r);
    RunMoves(s, t, r);
    OnlyRunKeepsInv(s, t, r);
  }

  lemma SkipKeeps(s: System, step: Step)
    requires Inv(s) && Enabled(s, step) && (step.SkipPrepare? || step.SkipAccept?)
    ensures Inv(Apply(s, step))
  {
    QuietRunStep(s, Apply(s, step), step.r);
  }

  lemma EndAcceptKeeps(s: System, r: nat)
    requires Inv(s) && Enabled(s, EndAccept(r))
    ensures Inv(Apply(s, EndAccept(r)))
  {
    QuietRunStep(s, Apply(s, EndAccept(r)), r);
  }

  lemma EndDecideKeeps(s: System, r: nat)
    requires Inv(s) && Enabled(s, EndDecide(r))
    ensures Inv(Apply(s, EndDecide(r)))
  {
    QuietRunStep(s, Apply(s, EndDecide(r)), r);
  }

  lemma EndPrepareKeeps(s: System, r: nat)
    requires Inv(s) && Enabled(s, EndPrepare(r))
    ensures Inv(Apply(s, EndPrepare(r)))
  {
    var t := Apply(s, EndPrepare(r));
    if Majority(s.runs[r].nodes, s.runs[r].tally.accepts) {
      EnterAcceptOk(s, r);
      OnlyRunKeepsInv(s, t, r);
    } else {
      QuietRunStep(s, t, r);
    }
  }

  lemma EnterAcceptOk(s: System, r: nat)
    requires Inv(s) && Enabled(s, EndPrepare(r)) && Majority(s.runs[r].nodes, s.runs[r].tally.accepts)
    ensures var t := Apply(s, EndPrepare(r)); OnlyRun(s, t, r) && t.msgs == s.msgs && RunOk(t, r)
  {
    var t := Apply(s, EndPrepare(r));
    assert RunOk(s, r);
    OnlyRunGrows(s, t, r);
    TallyValueIsLine(s, r);
    RunMoves(s, t, r);
  }

  lemma TallyValueIsLine(s: System, r: nat)
    requires Inv(s) && r < |s.runs|
    ensures IsLine(s.runs[r].tally.v)
  {
    assert RunOk(s, r);
    var run := s.runs[r];
    if run.tally.max.n > 0 {
      var j: nat :| SentAs(s, j, run.inst, run.tally.max, run.tally.v);
      assert RunOk(s, j);
    }
  }

  lemma TakeAckKeeps(s: System, r: nat)
    requires Inv(s) && Enabled(s, TakeAck(r))
    ensures Inv(Apply(s, TakeAck(r)))
  {
    TakeAckRunOk(s, r);
    OnlyRunKeepsInv(s, Apply(s, TakeAck(r)), r);
  }

  lemma TakeAckRunOk(s: System, r: nat)
    requires Inv(s) && Enabled(s, TakeAck(r))
    ensures var t := Apply(s, TakeAck(r)); OnlyRun(s, t, r) && t.msgs == s.msgs && RunOk(t, r)
  {
    var t := Apply(s, TakeAck(r));
    assert RunOk(s, r);
    OnlyRunGrows(s, t, r);
    RunMoves(s, t, r);
  }

  lemma SendDecideKeeps(s: System, r: nat)
    requires Inv(s) && Enabled(s, SendDecide(r))
    ensures Inv(Apply(s, SendDecide(r)))
  {
    SendDecideRunOk(s, r);
    OnlyRunKeepsInv(s, Apply(s, SendDecide(r)), r);
  }

  lemma SendDecideRunOk(s: System, r: nat)
    requires Inv(s) && Enabled(s, SendDecide(r))
    ensures
      var t := Apply(s, SendDecide(r));
      var m := Decide(r, s.runs[r].acks[s.runs[r].idx]);
      OnlyRun(s, t, r) && RunOk(t, r) && t.msgs == s.msgs + {m} && MsgOk(t, m)
  {
    var t := Apply(s, SendDecide(r));
    assert RunOk(s, r);
    OnlyRunGrows(s, t, r);
    RunMoves(s, t, r);
  }

  lemma StartRunKeeps(s: System, owner: string, vid: nat, newv: string)
    requires Inv(s) && Enabled(s, StartRun(owner, vid, newv))
    ensures Inv(Apply(s, StartRun(owner, vid, newv)))
  {
    var t := Apply(s, StartRun(owner, vid, newv));
    StartRunGrows(s, owner, vid, newv);
    NewRunOk(s, owner, vid, newv);
    forall a | a in t.hosts ensures HostOk(t, a) {
      HostCarries(s, t, a);
    }
    forall k: nat | k < |t.runs| ensures RunOk(t, k) {
      if k < |s.runs| {
        RunCarries(s, t, k);
      }
    }
    MsgsCarry(s, t);
    PairsCarry(s, t);
  }

  lemma StartRunGrows(s: System, owner: string, vid: nat, newv: string)
    requires Enabled(s, StartRun(owner, vid, newv))
    ensures Grows(s, Apply(s, StartRun(owner, vid, newv)))
  {
    AccStays(s);
  }

  lemma NewRunOk(s: System, owner: string, vid: nat, newv: string)
    requires Inv(s) && Enabled(s, StartRun(owner, vid, newv))
    ensures RunOk(Apply(s, StartRun(owner, vid, newv)), |s.runs|)
  {
    var t := Apply(s, StartRun(owner, vid, newv));
    StartRunGrows(s, owner, vid, newv);
    assert HostOk(s, owner);
    if vid > 0 {
      DecidedGrows(s, t, vid, t.runs[|s.runs|].base);
    }
  }

  // ----- handler steps: one acceptor changes, runs do not -----

  /** Runs are untouched, only host `a` changed, and every new message is from run `r` and node `a`. */
  predicate OnlyHost(s: System, t: System, a: string) {
    && t.genesis == s.genesis && s.msgs <= t.msgs && t.runs == s.runs
    && a in s.hosts && a in t.hosts && t.hosts == s.hosts[a := t.hosts[a]]
  }

  lemma OnlyHostGrows(s: System, t: System, a: string)
    requires OnlyHost(s, t, a) && AccAdvances(s.hosts[a].acc, t.hosts[a].acc)
    ensures Grows(s, t)
  {
    AccStays(s);
    forall r | 0 <= r < |s.runs| ensures RunGrows(s.runs[r], t.runs[r]) {
      RunRefl(s.runs[r]);
    }
  }

  lemma OnlyHostKeepsInv(s: System, t: System, a: string)
    requires Inv(s) && OnlyHost(s, t, a) && AccAdvances(s.hosts[a].acc, t.hosts[a].acc) && HostOk(t, a)
    requires forall m :: m in t.msgs && m !in s.msgs ==> MsgOk(t, m)
    requires forall m, q :: m in t.msgs && m !in s.msgs && q in t.msgs ==>
      OnePromise(t, m, q) && OnePromise(t, q, m) && Reported(t, m, q) && Reported(t, q, m)
    ensures Inv(t)
  {
    OnlyHostGrows(s, t, a);
    forall b | b in t.hosts ensures HostOk(t, b) {
      if b != a {
        HostCarries(s, t, b);
      }
    }
    forall k: nat | k < |t.runs| ensures RunOk(t, k) {
      RunCarries(s, t, k);
    }
    MsgsCarry(s, t);
    forall p, q | p in t.msgs && q in t.msgs ensures OnePromise(t, p, q) && Reported(t, p, q) {
      if p in s.msgs && q in s.msgs {
        PairCarries(s, t, p, q);
      }
    }
  }

  lemma DeliverPrepareKeeps(s: System, r: nat, a: string)
    requires Inv(s) && Enabled(s, DeliverPrepare(r, a)) && Timely(s, DeliverPrepare(r, a))
    ensures Inv(Apply(s, DeliverPrepare(r, a)))
  {
    var t := Apply(s, DeliverPrepare(r, a));
    var x, run := s.hosts[a].acc, s.runs[r];
    PrepareHostOk(s, r, a);
    match PrepareReply(x, run.inst, run.num) {
      case OldInstance(v) =>
        OldReplyOk(s, r, a);
      case Promised(na, va) =>
        NewPromiseOk(s, r, a);
      case Rejected =>
    }
    OnlyHostKeepsInv(s, t, a);
  }

  lemma PrepareHostOk(s: System, r: nat, a: string)
    requires Inv(s) && Enabled(s, DeliverPrepare(r, a)) && Timely(s, DeliverPrepare(r, a))
    ensures
      var t := Apply(s, DeliverPrepare(r, a));
      OnlyHost(s, t, a) && AccAdvances(s.hosts[a].acc, t.hosts[a].acc) && HostOk(t, a)
  {
    var t := Apply(s, DeliverPrepare(r, a));
    var x, run := s.hosts[a].acc, s.runs[r];
    assert HostOk(s, a) && RunOk(s, r);
    PropOrder(run.num, x.nh);
    PropOrder(x.nh, x.nh);
    PropOrder(x.na, x.na);
    OnlyHostGrows(s, t, a);
    HandlersKeepLogComplete(x, s.hosts[a].recs, PrepareOp(run.inst, run.num));
    HostCarriesVotes(s, t, a);
  }

  lemma OldReplyOk(s: System, r: nat, a: string)
    requires Inv(s) && Enabled(s, DeliverPrepare(r, a)) && s.runs[r].inst <= s.hosts[a].acc.inst
    ensures
      var t := Apply(s, DeliverPrepare(r, a));
      var m := OldReply(r, a, ValueAt(s.hosts[a].acc, s.runs[r].inst));
      t.msgs == s.msgs + {m} && MsgOk(t, m)
  {
    var t := Apply(s, DeliverPrepare(r, a));
    var x, run := s.hosts[a].acc, s.runs[r];
    assert HostOk(s, a) && RunOk(s, r);
    PropOrder(x.nh, x.nh);
    PropOrder(x.na, x.na);
    OnlyHostGrows(s, t, a);
    DecidedGrows(s, t, run.inst, x.vals[run.inst]);
  }

  /** The vote of a host that only raised its promise is still in order. */
  lemma HostCarriesVotes(s: System, t: System, a: string)
    requires Inv(s) && Grows(s, t) && a in s.hosts
    requires var x, y := s.hosts[a].acc, t.hosts[a].acc;
      y == x.(nh := y.nh) && PropUp(x.nh, y.nh) && Tracks(y, t.hosts[a].recs)
    ensures HostOk(t, a)
  {
    assert HostOk(s, a);
    var x, y := s.hosts[a].acc, t.hosts[a].acc;
    VoteOkGrows(s, t, x.inst + 1, x.na, x.va);
    DecisionsCarry(s, t, x);
    if x.na.n > 0 {
      PropUpBinds(x.nh, y.nh, x.na);
    }
  }

  /** A new promise reports the vote the acceptor holds, goes to a run nobody with that
      number was promised before, and covers every vote cast so far. */
  lemma NewPromiseOk(s: System, r: nat, a: string)
    requires Inv(s) && Enabled(s, DeliverPrepare(r, a)) && Timely(s, DeliverPrepare(r, a))
    requires PrepareReply(s.hosts[a].acc, s.runs[r].inst, s.runs[r].num).Promised?
    ensures
      var t := Apply(s, DeliverPrepare(r, a));
      var m := Promise(r, a, s.hosts[a].acc.na, s.hosts[a].acc.va);
      && MsgOk(t, m)
      && forall q :: q in t.msgs ==>
           OnePromise(t, m, q) && OnePromise(t, q, m) && Reported(t, m, q) && Reported(t, q, m)
  {
    var t := Apply(s, DeliverPrepare(r, a));
    var m := Promise(r, a, s.hosts[a].acc.na, s.hosts[a].acc.va);
    NewPromiseMsgOk(s, r, a);
    forall q | q in t.msgs
      ensures OnePromise(t, m, q) && OnePromise(t, q, m) && Reported(t, m, q) && Reported(t, q, m)
    {
      NewPromiseAgainst(s, r, a, q);
    }
  }

  lemma NewPromiseMsgOk(s: System, r: nat, a: string)
    requires Inv(s) && Enabled(s, DeliverPrepare(r, a)) && Timely(s, DeliverPrepare(r, a))
    requires PrepareReply(s.hosts[a].acc, s.runs[r].inst, s.runs[r].num).Promised?
    ensures MsgOk(Apply(s, DeliverPrepare(r, a)), Promise(r, a, s.hosts[a].acc.na, s.hosts[a].acc.va))
  {
    var t := Apply(s, DeliverPrepare(r, a));
    var x, run := s.hosts[a].acc, s.runs[r];
    assert HostOk(s, a) && RunOk(s, r);
    PropOrder(run.num, run.num);
    PromisingGrows(s, r, a);
    VoteOkGrows(s, t, run.inst, x.na, x.va);
    if x.na.n > 0 {
      PropTransitive(run.num, x.nh, x.na);
    }
  }

  lemma PromisingGrows(s: System, r: nat, a: string)
    requires Enabled(s, DeliverPrepare(r, a)) && PrepareReply(s.hosts[a].acc, s.runs[r].inst, s.runs[r].num).Promised?
    ensures Grows(s, Apply(s, DeliverPrepare(r, a)))
  {
    var x, run := s.hosts[a].acc, s.runs[r];
    PropOrder(run.num, x.nh);
    PropOrder(x.na, x.na);
    OnlyHostGrows(s, Apply(s, DeliverPrepare(r, a)), a);
  }

  lemma NewPromiseAgainst(s: System, r: nat, a: string, q: Msg)
    requires Inv(s) && Enabled(s, DeliverPrepare(r, a)) && Timely(s, DeliverPrepare(r, a))
    requires PrepareReply(s.hosts[a].acc, s.runs[r].inst, s.runs[r].num).Promised?
    requires q in Apply(s, DeliverPrepare(r, a)).msgs
    ensures
      var t := Apply(s, DeliverPrepare(r, a));
      var m := Promise(r, a, s.hosts[a].acc.na, s.hosts[a].acc.va);
      OnePromise(t, m, q) && OnePromise(t, q, m) && Reported(t, m, q) && Reported(t, q, m)
  {
    var x, run := s.hosts[a].acc, s.runs[r];
    PropOrder(run.num, x.nh);
    PropOrder(run.num, run.num);
    if q in s.msgs {
      assert MsgOk(s, q);
      if q.Promise? && q.src == a && s.runs[q.run].inst == run.inst {
        PropOrder(x.nh, s.runs[q.run].num);
        PropTransitive(run.num, x.nh, s.runs[q.run].num);
        PropOrder(run.num, s.runs[q.run].num);
      }
    }
  }

  lemma DeliverAcceptKeeps(s: System, r: nat, a: string)
    requires Inv(s) && Enabled(s, DeliverAccept(r, a)) && Timely(s, DeliverAccept(r, a))
    ensures Inv(Apply(s, DeliverAccept(r, a)))
  {
    var t := Apply(s, DeliverAccept(r, a));
    AcceptHostOk(s, r, a);
    if AcceptTakes(s.hosts[a].acc, s.runs[r].num) {
      NewVoteOk(s, r, a);
    }
    OnlyHostKeepsInv(s, t, a);
  }

  lemma AcceptHostOk(s: System, r: nat, a: string)
    requires Inv(s) && Enabled(s, DeliverAccept(r, a)) && Timely(s, DeliverAccept(r, a))
    ensures
      var t := Apply(s, DeliverAccept(r, a));
      OnlyHost(s, t, a) && AccAdvances(s.hosts[a].acc, t.hosts[a].acc) && HostOk(t, a)
  {
    var t := Apply(s, DeliverAccept(r, a));
    var x, run := s.hosts[a].acc, s.runs[r];
    assert HostOk(s, a) && RunOk(s, r) && MsgOk(s, AcceptReq(r, a));
    VotesOnlyForLastPromise(s, r, a);
    HandlersKeepLogComplete(x, s.hosts[a].recs, AcceptOp(run.inst, run.num, run.val));
    if AcceptTakes(x, run.num) {
      VotedHostOk(s, t, r, a);
    } else {
      PropOrder(x.nh, x.nh);
      PropOrder(x.na, x.na);
      OnlyHostGrows(s, t, a);
      HostCarriesVotes(s, t, a);
    }
  }

  lemma VotedHostOk(s: System, t: System, r: nat, a: string)
    requires Inv(s) && OnlyHost(s, t, a) && r < |s.runs| && s.runs[r].sent
    requires
      var x, y := s.hosts[a].acc, t.hosts[a].acc;
      && x.nh == s.runs[r].num && s.runs[r].inst == x.inst + 1
      && y == x.(na := s.runs[r].num, va := s.runs[r].val) && Tracks(y, t.hosts[a].recs)
    ensures AccAdvances(s.hosts[a].acc, t.hosts[a].acc) && HostOk(t, a)
  {
    var x, run := s.hosts[a].acc, s.runs[r];
    assert HostOk(s, a) && RunOk(s, r);
    PropOrder(x.nh, x.nh);
    OnlyHostGrows(s, t, a);
    assert SentAs(t, r, x.inst + 1, run.num, run.val);
    DecisionsCarry(s, t, x);
  }

  /** A new vote is for the number promised last, so it lies above every earlier vote and
      below no promise. */
  lemma NewVoteOk(s: System, r: nat, a: string)
    requires Inv(s) && Enabled(s, DeliverAccept(r, a)) && Timely(s, DeliverAccept(r, a))
    requires AcceptTakes(s.hosts[a].acc, s.runs[r].num)
    ensures
      var t := Apply(s, DeliverAccept(r, a));
      var m := AcceptOk(r, a);
      && MsgOk(t, m)
      && forall q :: q in t.msgs ==>
           OnePromise(t, m, q) && OnePromise(t, q, m) && Reported(t, m, q) && Reported(t, q, m)
  {
    var t := Apply(s, DeliverAccept(r, a));
    var x, run := s.hosts[a].acc, s.runs[r];
    var m := AcceptOk(r, a);
    assert MsgOk(s, AcceptReq(r, a));
    VotesOnlyForLastPromise(s, r, a);
    PropOrder(run.num, run.num);
    forall q | q in t.msgs
      ensures OnePromise(t, m, q) && OnePromise(t, q, m) && Reported(t, m, q) && Reported(t, q, m)
    {
      if q.Promise? {
        assert MsgOk(s, q);
        PropOrder(x.nh, s.runs[q.run].num);
      }
    }
  }

  /** A host that decides one more instance: it has a new last value and no votes. */
  lemma CommitKeeps(s: System, a: string, v: string)
    requires Inv(s) && a in s.hosts && Decided(s, s.hosts[a].acc.inst + 1, v)
    ensures Inv(Handle(s, a, CommitOp(s.hosts[a].acc.inst + 1, v)))
  {
    CommitHostOk(s, a, v);
    OnlyHostKeepsInv(s, Handle(s, a, CommitOp(s.hosts[a].acc.inst + 1, v)), a);
  }

  lemma CommitHostOk(s: System, a: string, v: string)
    requires Inv(s) && a in s.hosts && Decided(s, s.hosts[a].acc.inst + 1, v)
    ensures
      var t := Handle(s, a, CommitOp(s.hosts[a].acc.inst + 1, v));
      OnlyHost(s, t, a) && t.msgs == s.msgs && AccAdvances(s.hosts[a].acc, t.hosts[a].acc) && HostOk(t, a)
  {
    var x := s.hosts[a].acc;
    var t := Handle(s, a, CommitOp(x.inst + 1, v));
    assert HostOk(s, a);
    DecidedIsLine(s, x.inst + 1, v);
    HandlersKeepLogComplete(x, s.hosts[a].recs, CommitOp(x.inst + 1, v));
    OnlyHostGrows(s, t, a);
    DecidedGrows(s, t, x.inst + 1, v);
    DecisionsCarry(s, t, x);
  }

  lemma DecidedIsLine(s: System, inst: nat, v: string)
    requires Inv(s) && Decided(s, inst, v)
    ensures IsLine(v) && v != ""
  {
    if !(inst == 1 && v == s.genesis) {
      var r: nat :| ChosenAs(s, r, inst, v);
      assert RunOk(s, r);
    }
  }

  lemma DeliverDecideKeeps(s: System, r: nat, a: string)
    requires Inv(s) && Enabled(s, DeliverDecide(r, a))
    ensures Inv(Apply(s, DeliverDecide(r, a)))
  {
    var x, run := s.hosts[a].acc, s.runs[r];
    DecideNeverAborts(s, r, a);
    assert MsgOk(s, Decide(r, a));
    if run.inst == x.inst + 1 {
      assert ChosenAs(s, r, run.inst, run.val);
      CommitKeeps(s, a, run.val);
    } else {
      var h := s.hosts[a];
      assert h.recs + [] == h.recs;
      assert Apply(s, DeliverDecide(r, a)) == s;
    }
  }

  lemma TakeOldKeeps(s: System, r: nat, v: string)
    requires Inv(s) && Enabled(s, TakeOld(r, v))
    ensures Inv(Apply(s, TakeOld(r, v)))
  {
    var run := s.runs[r];
    var a := run.owner;
    var x := s.hosts[a].acc;
    assert RunOk(s, r) && MsgOk(s, OldReply(r, run.nodes[run.idx], v));
    var t := Handle(s, a, CommitOp(run.inst, v));
    if run.inst == x.inst + 1 {
      CommitKeeps(s, a, v);
    } else {
      assert s.hosts[a].recs + [] == s.hosts[a].recs;
      assert t == s;
    }
    QuietRunStep(t, Finish(t, r), r);
  }

  /** A host is replaced by one with the same votes and decisions, up to lost names. */
  lemma SameAccKeeps(s: System, t: System, a: string)
    requires Inv(s) && OnlyHost(s, t, a) && t.msgs == s.msgs
    requires Same(t.hosts[a].acc, s.hosts[a].acc) && Tracks(t.hosts[a].acc, t.hosts[a].recs)
    ensures Inv(t)
  {
    var x, y := s.hosts[a].acc, t.hosts[a].acc;
    assert HostOk(s, a);
    PropOrder(x.nh, x.nh);
    PropOrder(x.na, x.na);
    OnlyHostGrows(s, t, a);
    VoteOkGrows(s, t, x.inst + 1, x.na, x.va);
    DecisionsCarry(s, t, x);
    OnlyHostKeepsInv(s, t, a);
  }

  lemma CrashKeeps(s: System, a: string)
    requires Inv(s) && a in s.hosts
    ensures Inv(SetHost(s, a, Reboot(s.hosts[a], a)))
  {
    var h := s.hosts[a];
    assert HostOk(s, a);
    PrintedLogReplays(h.recs, Fresh(a));
    SameAccKeeps(s, SetHost(s, a, Reboot(h, a)), a);
  }

  lemma RestoreKeeps(s: System, a: string, peer: string)
    requires Inv(s) && Enabled(s, Restore(a, peer))
    ensures Inv(Apply(s, Restore(a, peer)))
  {
    RestoreHostOk(s, a, peer);
    OnlyHostKeepsInv(s, Apply(s, Restore(a, peer)), a);
  }

  /** The restored acceptor is the peer's under another name: votes it never cast itself,
      but real ones, in an instance it has not voted in. */
  lemma RestoredAcc(s: System, a: string, peer: string)
    requires Inv(s) && Enabled(s, Restore(a, peer))
    ensures
      var y, z := Apply(s, Restore(a, peer)).hosts[a].acc, s.hosts[peer].acc;
      y.me == a && y.vals == z.vals && SameVotes(y, z) && Tracks(y, s.hosts[peer].recs)
  {
    assert HostOk(s, a) && HostOk(s, peer);
    RestoredState(s.hosts[a].acc, s.hosts[peer].acc, s.hosts[peer].recs);
  }

  lemma DenseCovers(x: AccState, z: AccState)
    requires Dense(x) && Dense(z) && x.inst <= z.inst
    ensures x.vals + z.vals == z.vals
  {
  }

  /** A node that is behind ends up with exactly its peer's state under its own name. */
  lemma RestoredState(x: AccState, z: AccState, recs: seq<Record>)
    requires Dense(x) && Dense(z) && Tracks(z, recs) && x.inst < z.inst
    ensures LogRead(PrintAll(recs), x).Some?
    ensures
      var y := LogRead(PrintAll(recs), x).value;
      y.me == x.me && y.vals == z.vals && SameVotes(y, z) && Tracks(y, recs)
  {
    RestoreTakesOverPeer(x, z, recs);
    RestoreTakesOverPeer(Fresh(x.me), z, recs);
    DenseCovers(x, z);
    DenseCovers(Fresh(x.me), z);
  }

  lemma RestoreHostOk(s: System, a: string, peer: string)
    requires Inv(s) && Enabled(s, Restore(a, peer))
    ensures
      var t := Apply(s, Restore(a, peer));
      OnlyHost(s, t, a) && t.msgs == s.msgs && AccAdvances(s.hosts[a].acc, t.hosts[a].acc) && HostOk(t, a)
  {
    RestoredAcc(s, a, peer);
    TakenOverHostOk(s, Apply(s, Restore(a, peer)), a, peer);
  }

  lemma TakenOverHostOk(s: System, t: System, a: string, peer: string)
    requires Inv(s) && OnlyHost(s, t, a) && peer in s.hosts && s.hosts[a].acc.inst < s.hosts[peer].acc.inst
    requires
      var y, z := t.hosts[a].acc, s.hosts[peer].acc;
      y.me == a && y.vals == z.vals && SameVotes(y, z) && Tracks(y, t.hosts[a].recs)
    ensures AccAdvances(s.hosts[a].acc, t.hosts[a].acc) && HostOk(t, a)
  {
    var z := s.hosts[peer].acc;
    assert HostOk(s, a) && HostOk(s, peer);
    OnlyHostGrows(s, t, a);
    VoteOkGrows(s, t, z.inst + 1, z.na, z.va);
    DecisionsCarry(s, t, z);
  }

  // ----- the theorems -----

  lemma ProposerStepKeepsInv(s: System, step: Step)
    requires Inv(s) && Enabled(s, step)
    requires !step.DeliverPrepare? && !step.DeliverAccept? && !step.DeliverDecide? && !step.Crash? && !step.Restore?
    ensures Inv(Apply(s, step))
  {
    match step {
      case StartRun(owner, vid, newv) => StartRunKeeps(s, owner, vid, newv);
      case SendPrepare(r) => SendPrepareKeeps(s, r);
      case TakePromise(r, na, va) => TakePromiseKeeps(s, r, na, va);
      case TakeOld(r, v) => TakeOldKeeps(s, r, v);
      case SkipPrepare(r) => SkipKeeps(s, step);
      case EndPrepare(r) => EndPrepareKeeps(s, r);
      case SendAccept(r) => SendAcceptKeeps(s, r);
      case TakeAck(r) => TakeAckKeeps(s, r);
      case SkipAccept(r) => SkipKeeps(s, step);
      case EndAccept(r) => EndAcceptKeeps(s, r);
      case SendDecide(r) => SendDecideKeeps(s, r);
      case EndDecide(r) => EndDecideKeeps(s, r);
    }
  }

  lemma RefusedChangesNothing(s: System, step: Step)
    requires Enabled(s, step) && Refused(s, step)
    ensures Apply(s, step) == s
  {
    var h := s.hosts[step.a];
    assert h.recs + [] == h.recs;
    assert s.msgs + {} == s.msgs;
  }

  /** Every step of the system, in step, keeps the invariant. */
  lemma StepKeepsInv(s: System, t: System, step: Step)
    requires Inv(s) && Next(s, t, step)
    ensures Inv(t)
  {
    if !Timely(s, step) {
      RefusedChangesNothing(s, step);
      return;
    }
    match step {
      case DeliverPrepare(r, a) => DeliverPrepareKeeps(s, r, a);
      case DeliverAccept(r, a) => DeliverAcceptKeeps(s, r, a);
      case DeliverDecide(r, a) => DeliverDecideKeeps(s, r, a);
      case Crash(a) => CrashKeeps(s, a);
      case Restore(a, peer) => RestoreKeeps(s, a, peer);
      case _ => ProposerStepKeepsInv(s, step);
    }
  }

  lemma InitInv(s: System, first: string)
    requires Init(s, first)
    ensures Inv(s)
  {
    forall a | a in s.hosts ensures HostOk(s, a) {
      var x := s.hosts[a].acc;
      var recs := s.hosts[a].recs;
      if a == first {
        assert recs == [Done(1, s.genesis)] && recs[1..] == [];
        assert ReplayAll(Fresh(a), recs) == Replay(Fresh(a), recs[0]);
      }
    }
  }

  ghost predicate StepsTo(s: System, t: System) {
    exists step :: Next(s, t, step)
  }

  lemma LinkKeepsInv(s: System, t: System)
    requires Inv(s) && StepsTo(s, t)
    ensures Inv(t)
  {
    var step :| Next(s, t, step);
    StepKeepsInv(s, t, step);
  }

  lemma HistoryIsPath(states: seq<System>, steps: seq<Step>, first: string)
    requires IsHistory(states, steps, first)
    ensures IsPath(StepsTo, states)
  {
    forall i: nat | 0 < i < |states|
      ensures Linked(StepsTo, states, i)
    {
      assert StepAt(states, steps, i - 1);
    }
  }

  lemma PathKeepsInv(states: seq<System>, i: nat)
    requires IsPath(StepsTo, states) && i < |states| && Inv(states[0])
    ensures Inv(states[i])
  {
    forall s, t | Inv(s) && StepsTo(s, t)
      ensures Inv(t)
    {
      LinkKeepsInv(s, t);
    }
    PathKeeps(StepsTo, Inv, states, i);
  }

  lemma HistoryKeepsInv(states: seq<System>, steps: seq<Step>, first: string, i: nat)
    requires IsHistory(states, steps, first) && i < |states|
    ensures Inv(states[i])
  {
    InitInv(states[0], first);
    HistoryIsPath(states, steps, first);
    PathKeepsInv(states, i);
  }

  lemma ReachableInv(s: System, first: string)
    requires Reachable(s, first)
    ensures Inv(s)
  {
    var states, steps :| IsHistory(states, steps, first) && states[|steps|] == s;
    HistoryKeepsInv(states, steps, first, |steps|);
  }

  /** Paxos agreement and validity: in any history, any two runs of one instance that
      collect an accept majority carry the same value, and some run was started with it. */
  lemma PaxosAgreement(s: System, first: string, r: nat, k: nat)
    requires Reachable(s, first) && Chosen(s, r) && Chosen(s, k) && s.runs[r].inst == s.runs[k].inst
    ensures s.runs[r].val == s.runs[k].val
    ensures exists p :: 0 <= p < |s.runs| && s.runs[p].inst == s.runs[r].inst && s.runs[p].newv == s.runs[r].val
  {
    ReachableInv(s, first);
    assert ChosenAs(s, r, s.runs[r].inst, s.runs[r].val) && ChosenAs(s, k, s.runs[r].inst, s.runs[k].val);
    DecisionIsUnique(s, s.runs[r].inst, s.runs[r].val, s.runs[k].val);
    var p := ValueWasProposed(s, r);
  }

  /** Log agreement: any two nodes hold the same value for every instance both have decided,
      however each of them learned it. */
  lemma LogAgreement(s: System, first: string, a: string, b: string, i: nat)
    requires Reachable(s, first) && a in s.hosts && b in s.hosts
    requires 1 <= i <= s.hosts[a].acc.inst && i <= s.hosts[b].acc.inst
    ensures i in s.hosts[a].acc.vals && i in s.hosts[b].acc.vals
    ensures s.hosts[a].acc.vals[i] == s.hosts[b].acc.vals[i]
  {
    ReachableInv(s, first);
    assert HostOk(s, a) && HostOk(s, b);
    DecisionIsUnique(s, i, s.hosts[a].acc.vals[i], s.hosts[b].acc.vals[i]);
  }

  /** No decide message ever makes an acceptor fail a VERIFY. */
  lemma NoDecideAborts(s: System, first: string, r: nat, a: string)
    requires Reachable(s, first) && Enabled(s, DeliverDecide(r, a))
    ensures !DecideAborts(s.hosts[a].acc, s.runs[r].inst, s.runs[r].val)
  {
    ReachableInv(s, first);
    DecideNeverAborts(s, r, a);
  }

  /** The accept handler leaves `nh` alone and that is sound: every vote is for the number
      promised last, and in one instance votes only go up. */
  lemma VotesFollowPromises(s: System, first: string, r: nat, a: string)
    requires Reachable(s, first) && Enabled(s, DeliverAccept(r, a)) && InStep(s, DeliverAccept(r, a))
    ensures
      var x, y := s.hosts[a].acc, Apply(s, DeliverAccept(r, a)).hosts[a].acc;
      && (AcceptTakes(x, s.runs[r].num) <==> x.nh == s.runs[r].num)
      && y.inst == x.inst && y.nh == x.nh && PropUp(x.na, y.na) && (y.na.n > 0 ==> Geq(y.nh, y.na))
  {
    ReachableInv(s, first);
    if Timely(s, DeliverAccept(r, a)) {
      VotesOnlyForLastPromise(s, r, a);
    }
    assert HostOk(s, a);
    PropOrder(s.hosts[a].acc.na, s.hosts[a].acc.na);
    PropOrder(s.hosts[a].acc.nh, s.hosts[a].acc.nh);
  }

  lemma HandlerAdvances(x: AccState, op: Op)
    requires x.na.n > 0 ==> Geq(x.nh, x.na)
    requires op.AcceptOp? ==> op.n.n > 0
    ensures AccAdvances(x, After(x, op))
  {
    PropOrder(x.nh, x.nh);
    PropOrder(x.na, x.na);
    match op {
      case PrepareOp(_, n) => PropOrder(n, x.nh);
      case AcceptOp(_, n, _) =>
        if AcceptTakes(x, n) {
          if x.na.n > 0 {
            PropTransitive(n, x.nh, x.na);
          }
        }
      case _ =>
    }
  }

  lemma RebootAdvances(s: System, a: string)
    requires Inv(s) && a in s.hosts
    ensures AccAdvances(s.hosts[a].acc, Reboot(s.hosts[a], a).acc)
  {
    var x := s.hosts[a].acc;
    assert HostOk(s, a);
    PrintedLogReplays(s.hosts[a].recs, Fresh(a));
    PropOrder(x.nh, x.nh);
    PropOrder(x.na, x.na);
  }

  /** No step, restarts and restores included, ever lowers what an acceptor promised or voted
      for within an instance, and no acceptor goes back to an earlier instance. */
  lemma NumbersOnlyRise(s: System, t: System, first: string, step: Step, a: string)
    requires Reachable(s, first) && Next(s, t, step) && a in s.hosts
    ensures a in t.hosts && AccAdvances(s.hosts[a].acc, t.hosts[a].acc)
  {
    ReachableInv(s, first);
    StepAdvances(s, t, step, a);
  }

  lemma HandleAdvances(s: System, b: string, op: Op, a: string)
    requires Inv(s) && a in s.hosts && b in s.hosts && (op.AcceptOp? ==> op.n.n > 0)
    ensures AccAdvances(s.hosts[a].acc, Handle(s, b, op).hosts[a].acc)
  {
    AccStays(s);
    assert HostOk(s, a);
    HandlerAdvances(s.hosts[a].acc, op);
  }

  lemma DeliverAdvances(s: System, step: Step, a: string)
    requires Inv(s) && Enabled(s, step) && a in s.hosts && (step.DeliverPrepare? || step.DeliverAccept?)
    ensures a in Apply(s, step).hosts && AccAdvances(s.hosts[a].acc, Apply(s, step).hosts[a].acc)
  {
    var run := s.runs[step.r];
    assert run.num.n > 0 by {
      assert RunOk(s, step.r);
    }
    var op := if step.DeliverPrepare? then PrepareOp(run.inst, run.num) else AcceptOp(run.inst, run.num, run.val);
    HandleAdvances(s, step.a, op, a);
  }

  lemma StepAdvances(s: System, t: System, step: Step, a: string)
    requires Inv(s) && Next(s, t, step) && a in s.hosts
    ensures a in t.hosts && AccAdvances(s.hosts[a].acc, t.hosts[a].acc)
  {
    AccStays(s);
    if step.DeliverPrepare? || step.DeliverAccept? {
      DeliverAdvances(s, step, a);
    } else if step.TakeOld? {
      HandleAdvances(s, s.runs[step.r].owner, CommitOp(s.runs[step.r].inst, step.v), a);
    } else if step.DeliverDecide? {
      RebootAdvances(s, step.a);
      HandleAdvances(s, step.a, DecideOp(s.runs[step.r].inst, s.runs[step.r].val), a);
    } else if step.Crash? {
      RebootAdvances(s, step.a);
    } else if step.Restore? {
      RestoreHostOk(s, step.a, step.peer);
    }
  }

  /** One number, one promise majority: two runs of an instance that reach the accept phase
      under one number are the same run, even if a restarted proposer used the number again. */
  lemma NumberHasOneMajority(s: System, first: string, r: nat, k: nat)
    requires Reachable(s, first) && r < |s.runs| && k < |s.runs| && s.runs[r].sent && s.runs[k].sent
    requires s.runs[r].inst == s.runs[k].inst && s.runs[r].num == s.runs[k].num
    ensures r == k
  {
    ReachableInv(s, first);
    SameMembers(s, r, k);
    OneRunPerNumber(s, r, k);
  }
}
