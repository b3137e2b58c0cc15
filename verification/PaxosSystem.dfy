/** The running system: hosts that each have an acceptor with its durable log and a
    proposer, and a network that may lose, delay, reorder and duplicate messages. */
module PaxosSystem {
  import opened Names
  import opened Proposals
  import opened Acceptors
  import opened PaxosLog
  import opened Proposers
  import opened Views

  /** One node. `recs` is what its log file holds, `myn` the proposer's last number,
      `epoch` counts its restarts. */
  datatype Host = Host(acc: AccState, recs: seq<Record>, myn: nat, stable: bool, epoch: nat)

  datatype Phase = Preparing | Accepting | Deciding | Ended

  /** One call of `proposer::run`. `base` is the value of the view it starts from and
      `nodes` its members. `idx` is the loop counter of the current phase. `sent` says
      the accept phase was reached, and then `val` is the value it asks votes for. */
  datatype Run = Run(owner: string, epoch: nat, inst: nat, base: string, nodes: seq<string>, num: Prop, newv: string,
                     phase: Phase, idx: nat, tally: Tally, sent: bool, val: string, acks: seq<string>)

  /** Messages. Requests carry the arguments of their run; replies go back to that run only. */
  datatype Msg =
    | Prepare(run: nat, dst: string)
    | Promise(run: nat, src: string, na: Prop, va: string)
    | OldReply(run: nat, src: string, v: string)
    | AcceptReq(run: nat, dst: string)
    | AcceptOk(run: nat, src: string)
    | Decide(run: nat, dst: string)

  datatype System = System(genesis: string, hosts: map<string, Host>, runs: seq<Run>, msgs: set<Msg>)

  datatype Step =
    | StartRun(owner: string, vid: nat, newv: string)
    | SendPrepare(r: nat)
    | TakePromise(r: nat, na: Prop, va: string)
    | TakeOld(r: nat, v: string)
    | SkipPrepare(r: nat)
    | EndPrepare(r: nat)
    | SendAccept(r: nat)
    | TakeAck(r: nat)
    | SkipAccept(r: nat)
    | EndAccept(r: nat)
    | SendDecide(r: nat)
    | EndDecide(r: nat)
    | DeliverPrepare(r: nat, a: string)
    | DeliverAccept(r: nat, a: string)
    | DeliverDecide(r: nat, a: string)
    | Crash(a: string)
    | Restore(a: string, peer: string)

  // ----- pieces -----

  /** The process that started the run is still up and still in that phase. */
  predicate Active(s: System, r: nat, phase: Phase) {
    r < |s.runs| && s.runs[r].phase == phase && s.runs[r].owner in s.hosts
    && s.runs[r].epoch == s.hosts[s.runs[r].owner].epoch
  }

  function SetRun(s: System, r: nat, run: Run): System
    requires r < |s.runs|
  {
    s.(runs := s.runs[r := run])
  }

  function SetHost(s: System, a: string, h: Host): System {
    s.(hosts := s.hosts[a := h])
  }

  /** `run` returns: the proposer is free again. */
  function Finish(s: System, r: nat): System
    requires r < |s.runs| && s.runs[r].owner in s.hosts
  {
    var a := s.runs[r].owner;
    SetHost(SetRun(s, r, s.runs[r].(phase := Ended)), a, s.hosts[a].(stable := true))
  }

  /** A handler runs on host `a` and appends to its log what it logs. */
  function Handle(s: System, a: string, op: Op): System
    requires a in s.hosts
  {
    var h := s.hosts[a];
    SetHost(s, a, h.(acc := After(h.acc, op), recs := h.recs + Logged(h.acc, op)))
  }

  /** A process starts with nothing but its log file. */
  function Reboot(h: Host, me: string): Host {
    var read := LogRead(PrintAll(h.recs), Fresh(me));
    Host(if read.Some? then read.value else h.acc, h.recs, 0, true, h.epoch + 1)
  }

  // ----- steps -----

  /** The request is for an instance that its handler can tell: a prepare not for a later
      instance than the open one, an accept for exactly the open one. */
  predicate Timely(s: System, step: Step) {
    match step
    case DeliverPrepare(r, a) => r < |s.runs| && a in s.hosts && s.runs[r].inst <= s.hosts[a].acc.inst + 1
    case DeliverAccept(r, a) => r < |s.runs| && a in s.hosts && s.runs[r].inst == s.hosts[a].acc.inst + 1
    case _ => true
  }

  /** The handler turns the request down because of its number. */
  predicate Refused(s: System, step: Step) {
    match step
    case DeliverPrepare(r, a) =>
      r < |s.runs| && a in s.hosts && PrepareReply(s.hosts[a].acc, s.runs[r].inst, s.runs[r].num).Rejected?
    case DeliverAccept(r, a) => r < |s.runs| && a in s.hosts && !AcceptTakes(s.hosts[a].acc, s.runs[r].num)
    case _ => false
  }

  /** In-step delivery: the handlers do not check the instance of a request, so the system is
      only claimed to behave when no promise is given and no vote cast for a request that is
      out of time. Requests that are turned down may come at any time. */
  predicate InStep(s: System, step: Step) {
    Timely(s, step) || Refused(s, step)
  }

  predicate Enabled(s: System, step: Step) {
    match step
    case StartRun(owner, vid, newv) =>
      owner in s.hosts && s.hosts[owner].stable && vid <= s.hosts[owner].acc.inst && newv != "" && IsLine(newv)
    case SendPrepare(r) => Active(s, r, Preparing) && s.runs[r].idx < |s.runs[r].nodes|
    case TakePromise(r, na, va) =>
      Active(s, r, Preparing) && s.runs[r].idx < |s.runs[r].nodes|
      && Promise(r, s.runs[r].nodes[s.runs[r].idx], na, va) in s.msgs
    case TakeOld(r, v) =>
      Active(s, r, Preparing) && s.runs[r].idx < |s.runs[r].nodes|
      && OldReply(r, s.runs[r].nodes[s.runs[r].idx], v) in s.msgs
    case SkipPrepare(r) => Active(s, r, Preparing) && s.runs[r].idx < |s.runs[r].nodes|
    case EndPrepare(r) => Active(s, r, Preparing) && s.runs[r].idx == |s.runs[r].nodes|
    case SendAccept(r) => Active(s, r, Accepting) && s.runs[r].idx < |s.runs[r].tally.accepts|
    case TakeAck(r) =>
      Active(s, r, Accepting) && s.runs[r].idx < |s.runs[r].tally.accepts|
      && AcceptOk(r, s.runs[r].tally.accepts[s.runs[r].idx]) in s.msgs
    case SkipAccept(r) => Active(s, r, Accepting) && s.runs[r].idx < |s.runs[r].tally.accepts|
    case EndAccept(r) => Active(s, r, Accepting) && s.runs[r].idx == |s.runs[r].tally.accepts|
    case SendDecide(r) => Active(s, r, Deciding) && s.runs[r].idx < |s.runs[r].acks|
    case EndDecide(r) => Active(s, r, Deciding) && s.runs[r].idx == |s.runs[r].acks|
    case DeliverPrepare(r, a) => r < |s.runs| && Prepare(r, a) in s.msgs && a in s.hosts
    case DeliverAccept(r, a) => r < |s.runs| && AcceptReq(r, a) in s.msgs && a in s.hosts
    case DeliverDecide(r, a) => r < |s.runs| && Decide(r, a) in s.msgs && a in s.hosts
    case Crash(a) => a in s.hosts
    case Restore(a, peer) => a in s.hosts && peer in s.hosts && s.hosts[a].acc.inst < s.hosts[peer].acc.inst
  }

  function NewRun(h: Host, owner: string, vid: nat, newv: string): Run {
    var base := ValueAt(h.acc, vid);
    Run(owner, h.epoch, vid + 1, base, Members(base), Prop(NextNumber(h.acc.nh.n, h.myn), owner), newv,
        Preparing, 0, EMPTY, false, "", [])
  }

  function PromiseMsg(r: nat, a: string, res: PrepareRes): set<Msg> {
    match res
    case OldInstance(v) => {OldReply(r, a, v)}
    case Promised(na, va) => {Promise(r, a, na, va)}
    case Rejected => {}
  }

  function Apply(s: System, step: Step): System
    requires Enabled(s, step)
  {
    match step
    case StartRun(owner, vid, newv) =>
      var h := s.hosts[owner];
      var run := NewRun(h, owner, vid, newv);
      SetHost(s.(runs := s.runs + [run]), owner, h.(myn := run.num.n, stable := false))
    case SendPrepare(r) => s.(msgs := s.msgs + {Prepare(r, s.runs[r].nodes[s.runs[r].idx])})
    case TakePromise(r, na, va) =>
      var run := s.runs[r];
      SetRun(s, r, run.(tally := Count(run.tally, run.nodes[run.idx], na, va), idx := run.idx + 1))
    case TakeOld(r, v) =>
      Finish(Handle(s, s.runs[r].owner, CommitOp(s.runs[r].inst, v)), r)
    case SkipPrepare(r) => SetRun(s, r, s.runs[r].(idx := s.runs[r].idx + 1))
    case EndPrepare(r) =>
      var run := s.runs[r];
      if Majority(run.nodes, run.tally.accepts) then
        SetRun(s, r, run.(phase := Accepting, idx := 0, sent := true,
                          val := if run.tally.v == "" then run.newv else run.tally.v))
      else Finish(s, r)
    case SendAccept(r) => s.(msgs := s.msgs + {AcceptReq(r, s.runs[r].tally.accepts[s.runs[r].idx])})
    case TakeAck(r) =>
      var run := s.runs[r];
      SetRun(s, r, run.(acks := run.acks + [run.tally.accepts[run.idx]], idx := run.idx + 1))
    case SkipAccept(r) => SetRun(s, r, s.runs[r].(idx := s.runs[r].idx + 1))
    case EndAccept(r) =>
      var run := s.runs[r];
      if Majority(run.nodes, run.acks) then SetRun(s, r, run.(phase := Deciding, idx := 0)) else Finish(s, r)
    case SendDecide(r) =>
      var run := s.runs[r];
      SetRun(s, r, run.(idx := run.idx + 1)).(msgs := s.msgs + {Decide(r, run.acks[run.idx])})
    case EndDecide(r) => Finish(s, r)
    case DeliverPrepare(r, a) =>
      var res := PrepareReply(s.hosts[a].acc, s.runs[r].inst, s.runs[r].num);
      Handle(s, a, PrepareOp(s.runs[r].inst, s.runs[r].num)).(msgs := s.msgs + PromiseMsg(r, a, res))
    case DeliverAccept(r, a) =>
      var ok := AcceptTakes(s.hosts[a].acc, s.runs[r].num);
      Handle(s, a, AcceptOp(s.runs[r].inst, s.runs[r].num, s.runs[r].val))
        .(msgs := s.msgs + if ok then {AcceptOk(r, a)} else {})
    case DeliverDecide(r, a) =>
      if DecideAborts(s.hosts[a].acc, s.runs[r].inst, s.runs[r].val)
      then SetHost(s, a, Reboot(s.hosts[a], a))
      else Handle(s, a, DecideOp(s.runs[r].inst, s.runs[r].val))
    case Crash(a) => SetHost(s, a, Reboot(s.hosts[a], a))
    case Restore(a, peer) =>
      var h := s.hosts[a];
      var read := LogRead(PrintAll(s.hosts[peer].recs), h.acc);
      SetHost(s, a, h.(acc := if read.Some? then read.value else h.acc, recs := s.hosts[peer].recs))
  }

  // ----- runs of the system -----

  function FirstHost(a: string, first: bool, genesis: string): Host {
    if first then Host(AfterCommit(Fresh(a), 1, genesis), [Done(1, genesis)], 0, true, 0)
    else Host(Fresh(a), [], 0, true, 0)
  }

  /** One node has created view 1 and logged it; all the others know nothing. */
  predicate Init(s: System, first: string) {
    && first in s.hosts && s.genesis != "" && IsLine(s.genesis)
    && (forall a :: a in s.hosts ==> IsName(a) && s.hosts[a] == FirstHost(a, a == first, s.genesis))
    && s.runs == [] && s.msgs == {}
  }

  predicate Next(s: System, s': System, step: Step) {
    Enabled(s, step) && InStep(s, step) && s' == Apply(s, step)
  }

  predicate StepAt(states: seq<System>, steps: seq<Step>, i: nat) {
    i < |steps| && i + 1 < |states| && Next(states[i], states[i + 1], steps[i])
  }

  /** A history: the states passed through and the steps between them. */
  predicate IsHistory(states: seq<System>, steps: seq<Step>, first: string) {
    && |states| == |steps| + 1
    && Init(states[0], first)
    && forall i {:trigger StepAt(states, steps, i)} :: 0 <= i < |steps| ==> StepAt(states, steps, i)
  }

  /** Every state in any history of the system. */
  ghost predicate Reachable(s: System, first: string) {
    exists states, steps :: IsHistory(states, steps, first) && states[|steps|] == s
  }
}
