/** What in-step delivery is needed for: a history of the configuration object, grown from one
    name, in which a single accept request that arrives again one instance too late makes a
    majority choose a second value. */
module LateAccept {
  import opened Names
  import opened Paths
  import opened Proposals
  import opened Acceptors
  import opened PaxosLog
  import opened Proposers
  import opened Views
  import opened PaxosSystem
  import opened PaxosInvariant
  import opened PaxosSafety
  import opened ViewChain

  // ----- runs of the system from one state to another, all steps sanctioned and in step -----

  ghost predicate Leads(s: System, t: System) {
    exists states :: IsPath(ConfigStepsTo, states) && states[0] == s && states[|states| - 1] == t
  }

  lemma OneStep(s: System, step: Step)
    requires Enabled(s, step) && InStep(s, step) && Sanctioned(s, step)
    ensures Leads(s, Apply(s, step))
  {
    var t := Apply(s, step);
    assert Next(s, t, step);
    OneStepIsPath(ConfigStepsTo, s, t);
  }

  lemma Further(s: System, t: System, u: System)
    requires Leads(s, t) && Leads(t, u)
    ensures Leads(s, u)
  {
    var xs :| IsPath(ConfigStepsTo, xs) && xs[0] == s && xs[|xs| - 1] == t;
    var ys :| IsPath(ConfigStepsTo, ys) && ys[0] == t && ys[|ys| - 1] == u;
    PathsJoin(ConfigStepsTo, xs, ys);
  }

  lemma Further3(s: System, t: System, u: System, v: System)
    requires Leads(s, t) && Leads(t, u) && Leads(u, v)
    ensures Leads(s, v)
  {
    Further(s, t, u);
    Further(s, u, v);
  }

  lemma LeadsKeepsInv(s: System, t: System)
    requires Inv(s) && Leads(s, t)
    ensures Inv(t)
  {
    var states :| IsPath(ConfigStepsTo, states) && states[0] == s && states[|states| - 1] == t;
    forall i: nat | 0 < i < |states|
      ensures Linked(StepsTo, states, i)
    {
      assert Linked(ConfigStepsTo, states, i);
    }
    PathKeepsInv(states, |states| - 1);
  }

  // ----- an exchange with one node -----

  function Promising(h: Host, num: Prop): Host {
    h.(acc := h.acc.(nh := num), recs := h.recs + [PropSeen(num)])
  }

  function Voting(h: Host, num: Prop, v: string): Host {
    h.(acc := h.acc.(na := num, va := v), recs := h.recs + [Accepted(num, v)])
  }

  predicate AtNode(s: System, r: nat, phase: Phase, list: seq<string>, a: string) {
    && Active(s, r, phase) && s.runs[r].idx < |list| && list[s.runs[r].idx] == a
    && a in s.hosts && s.runs[r].inst == s.hosts[a].acc.inst + 1
  }

  /** Prepare request, promise and its count. */
  lemma AskPromise(s: System, r: nat, a: string) returns (t: System)
    requires r < |s.runs| && AtNode(s, r, Preparing, s.runs[r].nodes, a) && Gt(s.runs[r].num, s.hosts[a].acc.nh)
    ensures Leads(s, t) && s.msgs <= t.msgs
    ensures t.hosts == s.hosts[a := Promising(s.hosts[a], s.runs[r].num)]
    ensures
      var run, x := s.runs[r], s.hosts[a].acc;
      t.runs == s.runs[r := run.(tally := Count(run.tally, a, x.na, x.va), idx := run.idx + 1)]
  {
    var x := s.hosts[a].acc;
    var s1 := Apply(s, SendPrepare(r));
    var s2 := Apply(s1, DeliverPrepare(r, a));
    OneStep(s, SendPrepare(r));
    OneStep(s1, DeliverPrepare(r, a));
    OneStep(s2, TakePromise(r, x.na, x.va));
    t := Apply(s2, TakePromise(r, x.na, x.va));
    Further3(s, s1, s2, t);
  }

  /** Accept request, vote and its count. */
  lemma AskVote(s: System, r: nat, a: string) returns (t: System)
    requires r < |s.runs| && AtNode(s, r, Accepting, s.runs[r].tally.accepts, a)
    requires Geq(s.runs[r].num, s.hosts[a].acc.nh)
    ensures Leads(s, t) && s.msgs <= t.msgs && AcceptReq(r, a) in t.msgs
    ensures t.hosts == s.hosts[a := Voting(s.hosts[a], s.runs[r].num, s.runs[r].val)]
    ensures t.runs == s.runs[r := s.runs[r].(acks := s.runs[r].acks + [a], idx := s.runs[r].idx + 1)]
  {
    var s2 := GetVote(s, r, a);
    OneStep(s2, TakeAck(r));
    t := Apply(s2, TakeAck(r));
    Further(s, s2, t);
  }

  lemma GetVote(s: System, r: nat, a: string) returns (t: System)
    requires r < |s.runs| && AtNode(s, r, Accepting, s.runs[r].tally.accepts, a)
    requires Geq(s.runs[r].num, s.hosts[a].acc.nh)
    ensures Leads(s, t) && s.msgs <= t.msgs && AcceptReq(r, a) in t.msgs && AcceptOk(r, a) in t.msgs
    ensures t.hosts == s.hosts[a := Voting(s.hosts[a], s.runs[r].num, s.runs[r].val)] && t.runs == s.runs
  {
    var s1 := Apply(s, SendAccept(r));
    OneStep(s, SendAccept(r));
    OneStep(s1, DeliverAccept(r, a));
    t := Apply(s1, DeliverAccept(r, a));
    Further(s, s1, t);
  }

  // ----- starting a run and ending its phases -----

  predicate Sound(v: string) {
    v != "" && IsLine(v)
  }

  /** The run that node `n` starts from the value `base` of instance `k`, to add a node. */
  function FirstOf(h: Host, n: string, k: nat, base: string, newv: string): Run {
    Run(n, h.epoch, k + 1, base, Members(base), Prop(NextNumber(h.acc.nh.n, h.myn), n), newv, Preparing, 0, EMPTY,
        false, "", [])
  }

  lemma Begin(s: System, n: string, k: nat, m: string, newv: string) returns (t: System)
    requires n in s.hosts && s.hosts[n].stable && s.hosts[n].acc.inst == k && Sound(newv)
    requires JoinProposes(ViewAt(s.hosts[n].acc, k), m, newv)
    ensures
      var h := s.hosts[n];
      var run := FirstOf(h, n, k, ValueAt(h.acc, k), newv);
      && Leads(s, t) && t.msgs == s.msgs && t.runs == s.runs + [run]
      && t.hosts == s.hosts[n := h.(myn := run.num.n, stable := false)]
  {
    OneStep(s, StartRun(n, k, newv));
    t := Apply(s, StartRun(n, k, newv));
  }

  /** Enough promises: the accept phase begins with the best value reported, or the run's own. */
  lemma Enough(s: System, r: nat) returns (t: System)
    requires Active(s, r, Preparing) && s.runs[r].idx == |s.runs[r].nodes|
    requires Majority(s.runs[r].nodes, s.runs[r].tally.accepts)
    ensures Leads(s, t) && t.msgs == s.msgs && t.hosts == s.hosts
    ensures
      var run := s.runs[r];
      var val := if run.tally.v == "" then run.newv else run.tally.v;
      t.runs == s.runs[r := run.(phase := Accepting, idx := 0, sent := true, val := val)]
  {
    OneStep(s, EndPrepare(r));
    t := Apply(s, EndPrepare(r));
  }

  lemma AllOfThem(m: string, n: string)
    ensures Majority([m], [m]) && Majority([m, n], [m, n])
  {
    assert [m][..0] == [] && [m, n][..1] == [m];
    assert Support([m], [m]) == 1 && Support([m], [m, n]) == 1;
  }

  // ----- the first run: the first node alone adds the second -----

  /** The node has decided `k` instances and has no votes in the next. */
  predicate Clear(h: Host, k: nat, v: string) {
    h.acc.inst == k && h.acc.nh.n == 0 && h.acc.na.n == 0 && h.acc.va == "" && ValueAt(h.acc, k) == v && h.stable
  }

  predicate Both(s: System, f: string, g: string) {
    f in s.hosts && g in s.hosts
  }

  /** Two nodes; the number of the first beats the same number of the second. */
  predicate Pair(f: string, g: string) {
    IsName(f) && IsName(g) && f != g && Below(g, f)
  }

  function Two(f: string, g: string): string {
    Value([f, g])
  }

  lemma TwoMeaning(f: string, g: string)
    requires Pair(f, g)
    ensures Members(f) == [f] && Members(Two(f, g)) == [f, g] && Sound(Two(f, g)) && JoinProposes([f], g, Two(f, g))
  {
    MembersOfName(f);
    MembersOfValue([f, g]);
    ValueIsLine([f, g]);
    assert [f] + [g] == [f, g];
  }

  lemma FirstVote(s: System, f: string, g: string) returns (t: System)
    requires Pair(f, g) && Both(s, f, g) && s.runs == [] && Clear(s.hosts[f], 1, f) && s.hosts[f].myn == 0
    ensures Leads(s, t) && Both(t, f, g) && t.hosts[g] == s.hosts[g] && |t.runs| == 1 && Active(t, 0, Accepting)
    ensures AcceptReq(0, f) in t.msgs
    ensures
      var run, x := t.runs[0], t.hosts[f].acc;
      && run.owner == f && run.inst == 2 && run.num == Prop(1, f) && run.val == Two(f, g) && run.nodes == [f]
      && run.acks == [f] && run.idx == 1 && run.tally.accepts == [f]
      && x.inst == 1 && x.va == Two(f, g) && t.hosts[f].myn == 1
  {
    TwoMeaning(f, g);
    AllOfThem(f, g);
    PropOrder(Prop(1, f), Prop(1, f));
    var s1 := Begin(s, f, 1, g, Two(f, g));
    var s2 := AskPromise(s1, 0, f);
    assert [] + [f] == [f];
    var s3 := Enough(s2, 0);
    t := AskVote(s3, 0, f);
    Further3(s, s1, s2, s3);
    Further(s, s3, t);
  }

  /** The decision is taken in, and the run ends. */
  lemma FirstDecision(s: System, f: string, g: string) returns (t: System)
    requires Both(s, f, g) && f != g && |s.runs| == 1 && Active(s, 0, Accepting) && AcceptReq(0, f) in s.msgs
    requires
      var run, x := s.runs[0], s.hosts[f].acc;
      && run.owner == f && run.inst == 2 && run.num == Prop(1, f) && run.val == Two(f, g) && run.nodes == [f]
      && run.acks == [f] && run.idx == 1 && run.tally.accepts == [f]
      && x.inst == 1 && x.va == Two(f, g) && s.hosts[f].myn == 1
    ensures Leads(s, t) && Both(t, f, g) && t.hosts[g] == s.hosts[g] && |t.runs| == 1 && AcceptReq(0, f) in t.msgs
    ensures t.runs[0].inst == 2 && t.runs[0].num == Prop(1, f) && t.runs[0].val == Two(f, g)
    ensures Clear(t.hosts[f], 2, Two(f, g)) && t.hosts[f].myn == 1
  {
    AllOfThem(f, g);
    OneStep(s, EndAccept(0));
    var s1 := Apply(s, EndAccept(0));
    OneStep(s1, SendDecide(0));
    var s2 := Apply(s1, SendDecide(0));
    OneStep(s2, DeliverDecide(0, f));
    var s3 := Apply(s2, DeliverDecide(0, f));
    OneStep(s3, EndDecide(0));
    t := Apply(s3, EndDecide(0));
    Further3(s, s1, s2, s3);
    Further(s, s3, t);
  }

  /** The second node reads the log of the first. */
  lemma CatchUp(s: System, n: string, peer: string, k: nat, v: string) returns (t: System)
    requires Inv(s) && n in s.hosts && peer in s.hosts && s.hosts[n].acc.inst < k && Clear(s.hosts[peer], k, v)
    requires s.hosts[n].stable
    ensures Leads(s, t) && n in t.hosts && t.hosts == s.hosts[n := t.hosts[n]] && t.runs == s.runs && t.msgs == s.msgs
    ensures Clear(t.hosts[n], k, v) && t.hosts[n].myn == s.hosts[n].myn
  {
    OneStep(s, Restore(n, peer));
    RestoredAcc(s, n, peer);
    t := Apply(s, Restore(n, peer));
  }

  /** View 2 is in force on both nodes, and the accept request of run 0 is still around. */
  lemma BothInViewTwo(f: string, g: string) returns (s0: System, t: System)
    requires Pair(f, g)
    ensures Init(s0, f) && s0.genesis == f && Leads(s0, t) && Both(t, f, g) && |t.runs| == 1
      && AcceptReq(0, f) in t.msgs
    ensures t.runs[0].inst == 2 && t.runs[0].num == Prop(1, f) && t.runs[0].val == Two(f, g)
    ensures Clear(t.hosts[f], 2, Two(f, g)) && t.hosts[f].myn == 1
    ensures Clear(t.hosts[g], 2, Two(f, g)) && t.hosts[g].myn == 0
  {
    s0 := System(f, map[f := FirstHost(f, true, f), g := FirstHost(g, false, f)], [], {});
    InitInv(s0, f);
    var s1 := FirstVote(s0, f, g);
    var s2 := FirstDecision(s1, f, g);
    Further(s0, s1, s2);
    LeadsKeepsInv(s0, s2);
    t := CatchUp(s2, g, f, 2, Two(f, g));
    Further(s0, s2, t);
  }

  // ----- two runs of instance 3 -----

  /** Both nodes promise to run `r`, the first one before the second. */
  lemma BothPromise(s: System, r: nat, f: string, g: string) returns (t: System)
    requires f != g && Active(s, r, Preparing) && s.runs[r].nodes == [f, g] && s.runs[r].idx == 0 && Both(s, f, g)
    requires s.runs[r].tally == EMPTY && s.runs[r].acks == []
    requires s.runs[r].inst == s.hosts[f].acc.inst + 1 == s.hosts[g].acc.inst + 1
    requires Gt(s.runs[r].num, s.hosts[f].acc.nh) && Gt(s.runs[r].num, s.hosts[g].acc.nh)
    ensures Leads(s, t) && s.msgs <= t.msgs
    ensures
      var run, num, x, y := s.runs[r], s.runs[r].num, s.hosts[f].acc, s.hosts[g].acc;
      var tally := Count(Count(EMPTY, f, x.na, x.va), g, y.na, y.va);
      var val := if tally.v == "" then run.newv else tally.v;
      && tally.accepts == [f, g]
      && t.hosts == s.hosts[f := Promising(s.hosts[f], num)][g := Promising(s.hosts[g], num)]
      && t.runs == s.runs[r := run.(tally := tally, phase := Accepting, idx := 0, sent := true, val := val)]
  {
    AllOfThem(f, g);
    assert [] + [f] + [g] == [f, g];
    var s1 := AskPromise(s, r, f);
    var s2 := AskPromise(s1, r, g);
    t := Enough(s2, r);
    Further3(s, s1, s2, t);
  }

  /** Both nodes vote for what run `r` asks, and a majority has chosen. */
  lemma BothVote(s: System, r: nat, f: string, g: string) returns (t: System)
    requires f != g && Active(s, r, Accepting) && s.runs[r].nodes == [f, g] && s.runs[r].idx == 0 && Both(s, f, g)
    requires s.runs[r].tally.accepts == [f, g] && s.runs[r].acks == [] && s.runs[r].sent
    requires s.runs[r].inst == s.hosts[f].acc.inst + 1 == s.hosts[g].acc.inst + 1
    requires s.hosts[f].acc.nh == s.runs[r].num == s.hosts[g].acc.nh
    ensures Leads(s, t) && s.msgs <= t.msgs && Chosen(t, r)
    ensures t.runs == s.runs[r := t.runs[r]] && t.runs[r].inst == s.runs[r].inst && t.runs[r].val == s.runs[r].val
    ensures
      var num, val := s.runs[r].num, s.runs[r].val;
      t.hosts == s.hosts[f := Voting(s.hosts[f], num, val)][g := Voting(s.hosts[g], num, val)]
  {
    AllOfThem(f, g);
    PropOrder(s.runs[r].num, s.runs[r].num);
    var s1 := AskVote(s, r, f);
    t := AskVote(s1, r, g);
    Further(s, s1, t);
    assert [] + [f] + [g] == [f, g];
  }

  /** The second node's run: both vote for the view with `h` added. */
  lemma SecondRun(s: System, f: string, g: string, h: string, x: string) returns (t: System)
    requires Pair(f, g) && Both(s, f, g) && |s.runs| == 1 && JoinProposes([f, g], h, x) && Sound(x)
    requires Clear(s.hosts[f], 2, Two(f, g)) && s.hosts[f].myn == 1
    requires Clear(s.hosts[g], 2, Two(f, g)) && s.hosts[g].myn == 0
    ensures Leads(s, t) && s.msgs <= t.msgs && Both(t, f, g) && |t.runs| == 2 && t.runs[0] == s.runs[0]
    ensures Chosen(t, 1) && t.runs[1].inst == 3 && t.runs[1].val == x
    ensures
      var y, z := t.hosts[f], t.hosts[g];
      && y.acc.inst == 2 && y.acc.nh == Prop(1, g) && ValueAt(y.acc, 2) == Two(f, g) && y.stable && y.myn == 1
      && z.acc.inst == 2 && z.acc.nh == Prop(1, g) && z.acc.na == Prop(1, g) && z.acc.va == x
  {
    TwoMeaning(f, g);
    var s1 := Begin(s, g, 2, h, x);
    var s2 := BothPromise(s1, 1, f, g);
    t := BothVote(s2, 1, f, g);
    Further3(s, s1, s2, t);
  }

  /** The first node's run: it is told its own late vote, which has the larger number. */
  lemma ThirdRun(s: System, f: string, g: string, h: string, x: string) returns (t: System)
    requires Pair(f, g) && Both(s, f, g) && |s.runs| == 2 && JoinProposes([f, g], h, x) && Sound(x)
    requires
      var y, z := s.hosts[f], s.hosts[g];
      && y.acc.inst == 2 && y.acc.nh == Prop(1, g) && ValueAt(y.acc, 2) == Two(f, g) && y.stable && y.myn == 1
      && y.acc.na == Prop(1, f) && y.acc.va == Two(f, g)
      && z.acc.inst == 2 && z.acc.nh == Prop(1, g) && z.acc.na == Prop(1, g) && z.acc.va == x
    ensures Leads(s, t) && |t.runs| == 3 && t.runs[1] == s.runs[1]
    ensures Chosen(t, 2) && t.runs[2].inst == 3 && t.runs[2].val == Two(f, g)
  {
    TwoMeaning(f, g);
    BelowIsStrictAndTotal(g, f);
    var s1 := Begin(s, f, 2, h, x);
    var s2 := BothPromise(s1, 2, f, g);
    t := BothVote(s2, 2, f, g);
    Further3(s, s1, s2, t);
  }

  lemma ThirdName(f: string, g: string, h: string, x: string)
    requires Pair(f, g) && IsName(h) && h != f && h != g && x == Value([f, g] + [h])
    ensures JoinProposes([f, g], h, x) && Sound(x) && x != Two(f, g)
  {
    MembersOfValue([f, g] + [h]);
    ValueIsLine([f, g] + [h]);
    TwoMeaning(f, g);
  }

  /** The accept request of run 0 comes again, and nothing tells the handler that it is old. */
  lemma LateVote(s: System, f: string, g: string) returns (t: System)
    requires Pair(f, g) && f in s.hosts && |s.runs| == 2 && AcceptReq(0, f) in s.msgs
    requires s.runs[0].inst == 2 && s.runs[0].num == Prop(1, f)
    requires s.hosts[f].acc.inst == 2 && s.hosts[f].acc.nh == Prop(1, g)
    ensures Enabled(s, DeliverAccept(0, f)) && !InStep(s, DeliverAccept(0, f)) && t == Apply(s, DeliverAccept(0, f))
    ensures t.runs == s.runs && t.hosts == s.hosts[f := Voting(s.hosts[f], Prop(1, f), s.runs[0].val)]
  {
    BelowIsStrictAndTotal(g, f);
    t := Apply(s, DeliverAccept(0, f));
  }

  /** Agreement fails without in-step delivery. For any first node and any node added next there
      is a history of the configuration object, in step but for one accept request that the
      first node handles again with the next instance open, that ends with two majorities that
      chose two values in one instance. */
  lemma LateAcceptBreaksAgreement(f: string, g: string, h: string)
    returns (s0: System, s: System, late: Step, t: System)
    requires Pair(f, g) && IsName(h) && h != f && h != g
    ensures Init(s0, f) && s0.genesis == f && Leads(s0, s)
    ensures Enabled(s, late) && !InStep(s, late) && Leads(Apply(s, late), t)
    ensures Chosen(t, 1) && Chosen(t, 2) && t.runs[1].inst == t.runs[2].inst && t.runs[1].val != t.runs[2].val
  {
    var x := Value([f, g] + [h]);
    ThirdName(f, g, h, x);
    var s1, s2;
    s0, s1 := BothInViewTwo(f, g);
    s := SecondRun(s1, f, g, h, x);
    Further(s0, s1, s);
    late := DeliverAccept(0, f);
    s2 := LateVote(s, f, g);
    t := ThirdRun(s2, f, g, h, x);
  }
}
