/** Replicas over one chain of views: what an acknowledged request guarantees to the
    primary of the next view. */
module RsmSystem {
  import opened Names
  import opened Sequences
  import opened Views
  import opened Primaries
  import opened Rsm

  datatype Msg =
    | TransferOk(vid: nat, n: string, primary: string)
    | Carried(vid: nat, n: string, primary: string, last: Stamp, state: set<(nat, nat)>)
    | DoneReq(vid: nat, n: string, primary: string)
    | DoneOk(vid: nat, n: string, primary: string)
    | Invoke(req: nat, vs: Stamp, dst: string)
    | InvokeOk(req: nat, vid: nat, src: string)

  /** All messages ever sent, and the requests acknowledged with the view they were stamped with. */
  datatype System = System(nodes: map<string, Node>, msgs: set<Msg>, acked: set<(nat, nat)>, used: set<nat>)

  /** The views Paxos agreed on, the number of the last one, and the first node. */
  datatype Config = Config(view: nat -> seq<string>, last: nat, first: string)

  datatype Step =
    | Begin(n: string, vid: nat)
    | Commit(n: string)
    | RecoveryTop(n: string)
    | PassInvoke(n: string)
    | OpenBackups(n: string)
    | CloseBackups(n: string)
    | TransferHandled(p: string, n: string, vid: nat)
    | TransferTaken(n: string, last: Stamp, state: set<(nat, nat)>)
    | SendDone(n: string)
    | DoneHandled(p: string, n: string, vid: nat)
    | DoneTaken(n: string)
    | SyncFails(n: string)
    | Wake(n: string)
    | ClientStarts(n: string, req: nat)
    | Forward(n: string)
    | ForwardedOk(n: string)
    | SkipSelf(n: string)
    | GiveUp(n: string)
    | Acknowledge(n: string)
    | InvokeStarts(n: string, req: nat, vs: Stamp)
    | InvokeRuns(n: string)

  function Set(s: System, n: string, x: Node): System {
    s.(nodes := s.nodes[n := x])
  }

  function Add(s: System, m: Msg): System {
    s.(msgs := s.msgs + {m})
  }

  /** A node enters with the view that adds it (or with view 1) and then takes views one by
      one. Nodes do not restart. */
  ghost predicate Enabled(cf: Config, s: System, step: Step) {
    step.n in s.nodes &&
    var x := s.nodes[step.n];
    match step
    case Begin(n, vid) =>
      x.vidCommit == 0 && 1 <= vid <= cf.last && n in cf.view(vid) && (vid > 1 ==> n !in cf.view(vid - 1))
    case Commit(n) => 1 <= x.vidCommit < cf.last
    case RecoveryTop(n) => x.pc == Top && x.vidCommit >= 1 && n in cf.view(x.vidCommit)
    case PassInvoke(n) => x.pc == AwaitInvoke && x.busy == Idle
    case OpenBackups(n) => x.pc == Passed
    case CloseBackups(n) => x.pc == WaitBackups && SyncOver(x)
    case TransferHandled(p, n, vid) => p in s.nodes && TransferAllowed(s.nodes[p], vid)
    case TransferTaken(n, last, state) =>
      && x.pc == Transfer && TransferOk(x.vidInsync, n, x.syncFrom) in s.msgs
      && Carried(x.vidInsync, n, x.syncFrom, last, state) in s.msgs
    case SendDone(n) => x.pc == TransferDone
    case DoneHandled(p, n, vid) => p in s.nodes && DoneReq(vid, n, p) in s.msgs && TransferAllowed(s.nodes[p], vid)
    case DoneTaken(n) => x.pc == TransferDone && DoneOk(x.vidInsync, n, x.syncFrom) in s.msgs
    case SyncFails(n) => x.pc == Transfer || x.pc == TransferDone
    case Wake(n) => x.pc == Asleep && x.vidCommit >= 1
    case ClientStarts(n, req) => MayServe(x, n) && req !in s.used
    case Forward(n) => x.busy.Serving? && x.busy.idx < |x.busy.members| && x.busy.members[x.busy.idx] != n
    case ForwardedOk(n) =>
      x.busy.Serving? && x.busy.idx < |x.busy.members|
          && InvokeOk(x.busy.req, x.busy.vs.vid, x.busy.members[x.busy.idx]) in s.msgs
    case SkipSelf(n) => x.busy.Serving? && x.busy.idx < |x.busy.members| && x.busy.members[x.busy.idx] == n
    case GiveUp(n) => x.busy.Serving?
    case Acknowledge(n) => x.busy.Serving? && x.busy.idx == |x.busy.members|
    case InvokeStarts(n, req, vs) => Invoke(req, vs, n) in s.msgs && MayExecute(x, n, vs)
    case InvokeRuns(n) => x.busy.Executing?
  }

  ghost function Apply(cf: Config, s: System, step: Step): System
    requires Enabled(cf, s, step)
  {
    var x := s.nodes[step.n];
    match step
    case Begin(n, vid) =>
      var y := Committed(x, vid, cf.view(vid - 1), cf.view(vid));
      Set(s, n, y.(pc := Top, from := vid, start := y.primary))
    case Commit(n) => Set(s, n, Committed(x, x.vidCommit + 1, cf.view(x.vidCommit), cf.view(x.vidCommit + 1)))
    case RecoveryTop(n) => Set(s, n, StartSync(x, n))
    case PassInvoke(n) => Set(s, n, x.(pc := Passed))
    case OpenBackups(n) => Set(s, n, OpenSync(x, n, cf.view(x.vidInsync)))
    case CloseBackups(n) => Set(s, n, Settle(x, n))
    case TransferHandled(p, n, vid) =>
      var y := s.nodes[p];
      Add(Add(s, TransferOk(vid, n, p)), Carried(vid, n, p, y.last, Sent(y, x.last)))
    case TransferTaken(n, last, state) => Set(s, n, Received(x, last, state))
    case SendDone(n) => Add(s, DoneReq(x.vidInsync, n, x.syncFrom))
    case DoneHandled(p, n, vid) =>
      Add(Set(s, p, s.nodes[p].(backups := Erased(s.nodes[p].backups, n))), DoneOk(vid, n, p))
    case DoneTaken(n) => Set(s, n, Settle(x, n))
    case SyncFails(n) => Set(s, n, x.(pc := Top))
    case Wake(n) => Set(s, n, x.(pc := Top))
    case ClientStarts(n, req) =>
      Set(s, n, x.(busy := Serving(req, x.myvs, cf.view(x.vidCommit), 0))).(used := s.used + {req})
    case Forward(n) => Add(s, Invoke(x.busy.req, x.busy.vs, x.busy.members[x.busy.idx]))
    case ForwardedOk(n) => Set(s, n, x.(busy := x.busy.(idx := x.busy.idx + 1)))
    case SkipSelf(n) => Set(s, n, x.(busy := x.busy.(idx := x.busy.idx + 1)))
    case GiveUp(n) => Set(s, n, x.(busy := Idle))
    case Acknowledge(n) =>
      Set(s, n, Execute(x, x.busy.req, x.busy.vs.vid)).(acked := s.acked + {(x.busy.req, x.busy.vs.vid)})
    case InvokeStarts(n, req, vs) => Set(s, n, x.(busy := Executing(req, vs)))
    case InvokeRuns(n) =>
      Add(Set(s, n, Execute(x, x.busy.req, x.busy.vs.vid)), InvokeOk(x.busy.req, x.busy.vs.vid, n))
  }

  ghost predicate Init(cf: Config, s: System) {
    && s.msgs == {} && s.acked == {} && s.used == {}
    && forall n :: n in s.nodes ==> s.nodes[n] == Fresh(cf.first)
  }

  ghost predicate StepAt(cf: Config, states: seq<System>, steps: seq<Step>, i: nat) {
    i < |steps| && i + 1 < |states| && Enabled(cf, states[i], steps[i])
    && states[i + 1] == Apply(cf, states[i], steps[i])
  }

  ghost predicate IsHistory(cf: Config, states: seq<System>, steps: seq<Step>) {
    && |states| == |steps| + 1 && Init(cf, states[0]) && cf.view(0) == []
    && IsChain(cf.view, cf.last, cf.first)
    && forall i {:trigger StepAt(cf, states, steps, i)} :: 0 <= i < |steps| ==> StepAt(cf, states, steps, i)
  }

  // ----- the invariant of one node -----

  function StampOf(b: Busy): nat
    requires b != Idle
  {
    b.vs.vid
  }

  /** Outside a view change the node's stamp is its committed view, and a view change that
      the primary has taken past the invoke mutex leaves no request running. */
  predicate ViewOk(x: Node) {
    && (!x.inviewchange ==> x.myvs == Stamp(x.vidCommit, 1) && x.vidCommit >= 1)
    && x.vidInsync <= x.vidCommit
    && (x.insync ==> x.pc == WaitBackups)
    && ((x.pc == Passed || x.pc == WaitBackups) && x.inviewchange && x.vidInsync == x.vidCommit ==> x.busy == Idle)
    && (x.busy != Idle ==> StampOf(x.busy) <= x.vidCommit)
  }

  /** What a node had executed when it began to serve view `w` includes everything it ever
      executes under an earlier stamp. */
  ghost predicate ServedOk(x: Node, me: string) {
    && (forall w :: w in x.served ==> w <= x.vidCommit && (x.busy != Idle ==> StampOf(x.busy) >= w))
    && (forall w, e :: w in x.served && e in x.executed && e.1 < w ==> e in x.served[w])
    && (forall w, e :: w in x.served && e in x.served[w] ==> e in x.executed)
    && (AmIPrimary(x, me) ==> x.vidCommit in x.served)
    && ((x.pc == AwaitInvoke || x.pc == Passed || x.pc == WaitBackups) && x.vidInsync == x.vidCommit ==>
          x.primary == me)
    && ((x.pc == Transfer || x.pc == TransferDone) && x.vidInsync == x.vidCommit ==> x.primary != me)
  }

  ghost predicate GateOk(cf: Config, s: System, n: string)
    requires n in s.nodes
  {
    var x := s.nodes[n];
    && (x.pc == WaitBackups ==>
          forall m :: m in cf.view(x.vidInsync) && m != n ==> m in x.backups || DoneOk(x.vidInsync, m, n) in s.msgs)
    && (forall w, m :: w in x.served && m in cf.view(w) && m != n ==> DoneOk(w, m, n) in s.msgs)
  }

  ghost predicate ServingOk(cf: Config, s: System, n: string)
    requires n in s.nodes
  {
    var b := s.nodes[n].busy;
    b.Serving? ==>
      && b.members == cf.view(b.vs.vid) && b.idx <= |b.members| && b.vs.seqno == 1
      && (forall j :: 0 <= j < b.idx && b.members[j] != n ==> InvokeOk(b.req, b.vs.vid, b.members[j]) in s.msgs)
  }

  predicate PrimaryOk(cf: Config, x: Node) {
    if x.vidCommit == 0 then x.primary == cf.first
    else 1 <= x.from <= x.vidCommit && x.primary == PrimaryAt(cf.view, x.from, x.start, x.vidCommit)
  }

  /** The node came by view `w` and took `p` for its primary there. */
  predicate TookAt(cf: Config, x: Node, w: nat, p: string) {
    1 <= x.from <= w <= x.vidCommit && PrimaryAt(cf.view, x.from, x.start, w) == p
  }

  /** How the node entered, whom it synchronises with, and which views it served. */
  ghost predicate FollowsOk(cf: Config, x: Node, n: string) {
    && (x.vidCommit >= 1 ==> EntersAt(cf.view, n, x.from) && x.start == EntryPrimary(cf.view, cf.first, x.from))
    && (x.pc == Transfer || x.pc == TransferDone ==> TookAt(cf, x, x.vidInsync, x.syncFrom))
    && (forall w :: w in x.served ==> TookAt(cf, x, w, n))
  }

  /** `last_myvs` never moves, so the state is what the node executed itself. */
  predicate LastOk(x: Node) {
    x.last == Stamp(0, 0) && x.state == x.executed
  }

  /** A node takes part only in views it is a member of. */
  ghost predicate MemberOk(cf: Config, x: Node, n: string) {
    && (x.pc != Top && x.pc != Asleep ==> n in cf.view(x.vidInsync))
    && (!x.inviewchange ==> n in cf.view(x.vidCommit))
    && (x.busy != Idle ==> n in cf.view(StampOf(x.busy)))
    && (forall e :: e in x.executed ==> n in cf.view(e.1))
  }

  ghost predicate NodeOk(cf: Config, s: System, n: string)
    requires n in s.nodes
  {
    var x := s.nodes[n];
    ViewOk(x) && ServedOk(x, n) && GateOk(cf, s, n) && ServingOk(cf, s, n) && PrimaryOk(cf, x) && FollowsOk(cf, x, n)
    && LastOk(x) && MemberOk(cf, x, n)
    && x.vidCommit <= cf.last
    && (x.vidCommit == 0 ==> x == Fresh(cf.first))
  }

  predicate Did(s: System, n: string, req: nat, vid: nat) {
    n in s.nodes && (req, vid) in s.nodes[n].executed
  }

  ghost predicate NodesOk(cf: Config, s: System) {
    forall n {:trigger NodeOk(cf, s, n)} :: n in s.nodes ==> NodeOk(cf, s, n)
  }

  /** An OK was sent after executing; a transfer was finished before it was reported done,
      and reported to whom the sender took for the primary of that view. */
  predicate MsgOk(cf: Config, s: System, m: Msg) {
    match m
    case Invoke(req, vs, dst) => vs.seqno == 1
    case InvokeOk(req, vid, src) => Did(s, src, req, vid)
    case Carried(vid, n, p, last, state) => last == Stamp(0, 0) && state == {}
    case DoneReq(vid, n, p) => TransferOk(vid, n, p) in s.msgs && n in s.nodes && TookAt(cf, s.nodes[n], vid, p)
    case DoneOk(vid, n, p) => TransferOk(vid, n, p) in s.msgs && n in s.nodes && TookAt(cf, s.nodes[n], vid, p)
    case _ => true
  }

  ghost predicate MsgsOk(cf: Config, s: System) {
    forall m {:trigger MsgOk(cf, s, m)} :: m in s.msgs ==> MsgOk(cf, s, m)
  }

  ghost predicate EverybodyDid(cf: Config, s: System, a: (nat, nat)) {
    forall m :: m in cf.view(a.1) ==> Did(s, m, a.0, a.1)
  }

  ghost predicate AckedOk(cf: Config, s: System) {
    forall a {:trigger EverybodyDid(cf, s, a)} :: a in s.acked ==> EverybodyDid(cf, s, a)
  }

  /** A backup that reports done has the transfer behind it. */
  predicate HasTransferred(s: System, n: string)
    requires n in s.nodes
  {
    s.nodes[n].pc == TransferDone ==> TransferOk(s.nodes[n].vidInsync, n, s.nodes[n].syncFrom) in s.msgs
  }

  ghost predicate TransfersOk(s: System) {
    forall n {:trigger HasTransferred(s, n)} :: n in s.nodes ==> HasTransferred(s, n)
  }

  ghost predicate Inv(cf: Config, s: System) {
    NodesOk(cf, s) && MsgsOk(cf, s) && AckedOk(cf, s) && TransfersOk(s)
  }

  // ----- carrying it over a step -----

  /** Node `n` may change, and executes no less; messages and acknowledgements are only added. */
  predicate OnlyNode(s: System, t: System, n: string) {
    && n in s.nodes && n in t.nodes && t.nodes == s.nodes[n := t.nodes[n]]
    && s.nodes[n].executed <= t.nodes[n].executed && s.msgs <= t.msgs && s.acked <= t.acked
    && s.nodes[n].vidCommit <= t.nodes[n].vidCommit
    && (s.nodes[n].vidCommit >= 1 ==> t.nodes[n].from == s.nodes[n].from && t.nodes[n].start == s.nodes[n].start)
  }

  lemma OthersCarry(cf: Config, s: System, t: System, n: string)
    requires Inv(cf, s) && OnlyNode(s, t, n)
    ensures forall k :: k in t.nodes && k != n ==> NodeOk(cf, t, k) && HasTransferred(t, k)
    ensures forall m :: m in s.msgs ==> MsgOk(cf, t, m)
    ensures forall a :: a in s.acked ==> EverybodyDid(cf, t, a)
  {
    forall k | k in t.nodes && k != n ensures NodeOk(cf, t, k) && HasTransferred(t, k) {
      assert NodeOk(cf, s, k) && HasTransferred(s, k);
    }
    forall m | m in s.msgs ensures MsgOk(cf, t, m) {
      assert MsgOk(cf, s, m);
    }
    forall a | a in s.acked ensures EverybodyDid(cf, t, a) {
      assert EverybodyDid(cf, s, a);
    }
  }

  lemma NodeStepKeepsInv(cf: Config, s: System, t: System, n: string)
    requires Inv(cf, s) && OnlyNode(s, t, n) && NodeOk(cf, t, n) && HasTransferred(t, n)
    requires forall m :: m in t.msgs && m !in s.msgs ==> MsgOk(cf, t, m)
    requires forall a :: a in t.acked && a !in s.acked ==> EverybodyDid(cf, t, a)
    ensures Inv(cf, t)
  {
    OthersCarry(cf, s, t, n);
  }

  lemma {:induction false} ErasedKeeps(l: seq<string>, x: string)
    ensures forall y :: y in l && y != x ==> y in Erased(l, x)
    ensures forall y :: y in Erased(l, x) ==> y in l
    ensures Distinct(l) ==> Distinct(Erased(l, x)) && x !in Erased(l, x)
  {
    if l == [] {
    } else if l[0] == x {
      assert forall y :: y in l <==> y == l[0] || y in l[1..];
    } else {
      var rest := Erased(l[1..], x);
      ErasedKeeps(l[1..], x);
      assert forall y :: y in l <==> y == l[0] || y in l[1..];
      if Distinct(l) {
        assert l[0] !in l[1..];
        assert Distinct([l[0]] + rest);
      }
    }
  }

  /** Erasing from a list without duplicates leaves exactly the others. */
  lemma ErasedExactly(l: seq<string>, x: string, y: string)
    requires Distinct(l)
    ensures y in Erased(l, x) <==> y in l && y != x
  {
    ErasedKeeps(l, x);
  }

  lemma BeginKeeps(cf: Config, s: System, n: string, vid: nat)
    requires Inv(cf, s) && Enabled(cf, s, Begin(n, vid))
    ensures Inv(cf, Apply(cf, s, Begin(n, vid)))
  {
    assert NodeOk(cf, s, n);
    NodeStepKeepsInv(cf, s, Apply(cf, s, Begin(n, vid)), n);
  }

  lemma CommitKeeps(cf: Config, s: System, n: string)
    requires Inv(cf, s) && Enabled(cf, s, Commit(n))
    ensures Inv(cf, Apply(cf, s, Commit(n)))
  {
    assert NodeOk(cf, s, n) && HasTransferred(s, n);
    NodeStepKeepsInv(cf, s, Apply(cf, s, Commit(n)), n);
  }

  lemma RecoveryTopKeeps(cf: Config, s: System, n: string)
    requires Inv(cf, s) && Enabled(cf, s, RecoveryTop(n))
    ensures Inv(cf, Apply(cf, s, RecoveryTop(n)))
  {
    assert NodeOk(cf, s, n) && HasTransferred(s, n);
    NodeStepKeepsInv(cf, s, Apply(cf, s, RecoveryTop(n)), n);
  }

  /** Other steps of the recovery thread that neither open nor close a sync. */
  lemma RecoveryKeeps(cf: Config, s: System, step: Step)
    requires Inv(cf, s) && Enabled(cf, s, step)
    requires step.PassInvoke? || step.SyncFails? || step.Wake?
    ensures Inv(cf, Apply(cf, s, step))
  {
    assert NodeOk(cf, s, step.n) && HasTransferred(s, step.n);
    NodeStepKeepsInv(cf, s, Apply(cf, s, step), step.n);
  }

  lemma TransferTakenKeeps(cf: Config, s: System, step: Step)
    requires Inv(cf, s) && Enabled(cf, s, step) && step.TransferTaken?
    ensures Inv(cf, Apply(cf, s, step))
  {
    var x := s.nodes[step.n];
    assert NodeOk(cf, s, step.n) && HasTransferred(s, step.n);
    assert MsgOk(cf, s, Carried(x.vidInsync, step.n, x.syncFrom, step.last, step.state));
    NodeStepKeepsInv(cf, s, Apply(cf, s, step), step.n);
  }

  lemma OpenKeeps(cf: Config, s: System, n: string)
    requires Inv(cf, s) && Enabled(cf, s, OpenBackups(n))
    ensures Inv(cf, Apply(cf, s, OpenBackups(n)))
  {
    assert NodeOk(cf, s, n) && HasTransferred(s, n);
    ErasedKeeps(cf.view(s.nodes[n].vidInsync), n);
    NodeStepKeepsInv(cf, s, Apply(cf, s, OpenBackups(n)), n);
  }

  lemma SettledNode(x: Node, n: string)
    requires ViewOk(x) && ServedOk(x, n) && (x.pc == WaitBackups || x.pc == TransferDone) && x.state == x.executed
    requires x.pc == WaitBackups && x.inviewchange && x.vidInsync == x.vidCommit ==> x.busy == Idle
    requires x.vidCommit >= 1
    ensures ViewOk(Settle(x, n)) && ServedOk(Settle(x, n), n)
  {
  }

  /** The end of a sync, on the primary and on a backup. */
  lemma SettleKeeps(cf: Config, s: System, step: Step)
    requires Inv(cf, s) && Enabled(cf, s, step) && (step.CloseBackups? || step.DoneTaken?)
    ensures Inv(cf, Apply(cf, s, step))
  {
    var t := Apply(cf, s, step);
    var n := step.n;
    assert NodeOk(cf, s, n) && HasTransferred(s, n);
    SettledNode(s.nodes[n], n);
    NodeStepKeepsInv(cf, s, t, n);
  }

  /** A message is added and no node changes. */
  lemma MessageKeeps(cf: Config, s: System, step: Step)
    requires Inv(cf, s) && Enabled(cf, s, step) && (step.SendDone? || step.Forward?)
    ensures Inv(cf, Apply(cf, s, step))
  {
    assert NodeOk(cf, s, step.n) && HasTransferred(s, step.n);
    NodeStepKeepsInv(cf, s, Apply(cf, s, step), step.n);
  }

  lemma TransferHandledKeeps(cf: Config, s: System, step: Step)
    requires Inv(cf, s) && Enabled(cf, s, step) && step.TransferHandled?
    ensures Inv(cf, Apply(cf, s, step))
  {
    assert NodeOk(cf, s, step.n) && HasTransferred(s, step.n) && NodeOk(cf, s, step.p);
    NodeStepKeepsInv(cf, s, Apply(cf, s, step), step.n);
  }

  lemma DoneHandledKeeps(cf: Config, s: System, p: string, n: string, vid: nat)
    requires Inv(cf, s) && Enabled(cf, s, DoneHandled(p, n, vid))
    ensures Inv(cf, Apply(cf, s, DoneHandled(p, n, vid)))
  {
    assert NodeOk(cf, s, p) && HasTransferred(s, p);
    assert MsgOk(cf, s, DoneReq(vid, n, p));
    ErasedKeeps(s.nodes[p].backups, n);
    NodeStepKeepsInv(cf, s, Apply(cf, s, DoneHandled(p, n, vid)), p);
  }

  lemma ClientStartsKeeps(cf: Config, s: System, n: string, req: nat)
    requires Inv(cf, s) && Enabled(cf, s, ClientStarts(n, req))
    ensures Inv(cf, Apply(cf, s, ClientStarts(n, req)))
  {
    assert NodeOk(cf, s, n) && HasTransferred(s, n);
    NodeStepKeepsInv(cf, s, Apply(cf, s, ClientStarts(n, req)), n);
  }

  lemma InvokeStartsKeeps(cf: Config, s: System, step: Step)
    requires Inv(cf, s) && Enabled(cf, s, step) && step.InvokeStarts?
    ensures Inv(cf, Apply(cf, s, step))
  {
    assert NodeOk(cf, s, step.n) && HasTransferred(s, step.n);
    NodeStepKeepsInv(cf, s, Apply(cf, s, step), step.n);
  }

  /** Requests move on and are given up. */
  lemma RequestKeeps(cf: Config, s: System, step: Step)
    requires Inv(cf, s) && Enabled(cf, s, step)
    requires step.ForwardedOk? || step.SkipSelf? || step.GiveUp?
    ensures Inv(cf, Apply(cf, s, step))
  {
    assert NodeOk(cf, s, step.n) && HasTransferred(s, step.n);
    NodeStepKeepsInv(cf, s, Apply(cf, s, step), step.n);
  }

  /** Executing under a stamp adds nothing to an earlier view's account. */
  lemma ExecuteKeepsNode(cf: Config, s: System, t: System, n: string)
    requires Inv(cf, s) && OnlyNode(s, t, n) && s.nodes[n].busy != Idle
    requires t.nodes[n] == Execute(s.nodes[n], s.nodes[n].busy.req, s.nodes[n].busy.vs.vid)
    ensures NodeOk(cf, t, n) && HasTransferred(t, n)
  {
    assert NodeOk(cf, s, n) && HasTransferred(s, n);
  }

  lemma AcknowledgeKeeps(cf: Config, s: System, n: string)
    requires Inv(cf, s) && Enabled(cf, s, Acknowledge(n))
    ensures Inv(cf, Apply(cf, s, Acknowledge(n)))
  {
    var t := Apply(cf, s, Acknowledge(n));
    var b := s.nodes[n].busy;
    ExecuteKeepsNode(cf, s, t, n);
    assert NodeOk(cf, s, n);
    forall m | m in cf.view(b.vs.vid) ensures Did(t, m, b.req, b.vs.vid) {
      var j :| 0 <= j < |b.members| && b.members[j] == m;
      if m != n {
        assert MsgOk(cf, s, InvokeOk(b.req, b.vs.vid, m));
      }
    }
    assert EverybodyDid(cf, t, (b.req, b.vs.vid));
    NodeStepKeepsInv(cf, s, t, n);
  }

  lemma InvokeRunsKeeps(cf: Config, s: System, n: string)
    requires Inv(cf, s) && Enabled(cf, s, InvokeRuns(n))
    ensures Inv(cf, Apply(cf, s, InvokeRuns(n)))
  {
    var t := Apply(cf, s, InvokeRuns(n));
    ExecuteKeepsNode(cf, s, t, n);
    NodeStepKeepsInv(cf, s, t, n);
  }

  lemma StepKeepsInv(cf: Config, s: System, step: Step)
    requires Inv(cf, s) && Enabled(cf, s, step)
    ensures Inv(cf, Apply(cf, s, step))
  {
    match step {
      case Begin(n, vid) => BeginKeeps(cf, s, n, vid);
      case Commit(n) => CommitKeeps(cf, s, n);
      case RecoveryTop(n) => RecoveryTopKeeps(cf, s, n);
      case PassInvoke(_) => RecoveryKeeps(cf, s, step);
      case OpenBackups(n) => OpenKeeps(cf, s, n);
      case CloseBackups(_) => SettleKeeps(cf, s, step);
      case TransferHandled(_, _, _) => TransferHandledKeeps(cf, s, step);
      case TransferTaken(_, _, _) => TransferTakenKeeps(cf, s, step);
      case SendDone(_) => MessageKeeps(cf, s, step);
      case DoneHandled(p, n, vid) => DoneHandledKeeps(cf, s, p, n, vid);
      case DoneTaken(_) => SettleKeeps(cf, s, step);
      case SyncFails(_) => RecoveryKeeps(cf, s, step);
      case Wake(_) => RecoveryKeeps(cf, s, step);
      case ClientStarts(n, req) => ClientStartsKeeps(cf, s, n, req);
      case Forward(_) => MessageKeeps(cf, s, step);
      case ForwardedOk(_) => RequestKeeps(cf, s, step);
      case SkipSelf(_) => RequestKeeps(cf, s, step);
      case GiveUp(_) => RequestKeeps(cf, s, step);
      case Acknowledge(n) => AcknowledgeKeeps(cf, s, n);
      case InvokeStarts(_, _, _) => InvokeStartsKeeps(cf, s, step);
      case InvokeRuns(n) => InvokeRunsKeeps(cf, s, n);
    }
  }

  lemma {:induction false} HistoryKeepsInv(cf: Config, states: seq<System>, steps: seq<Step>, i: nat)
    requires IsHistory(cf, states, steps) && i < |states|
    ensures Inv(cf, states[i])
  {
    if i == 0 {
    } else {
      HistoryKeepsInv(cf, states, steps, i - 1);
      assert StepAt(cf, states, steps, i - 1);
      StepKeepsInv(cf, states[i - 1], steps[i - 1]);
    }
  }

  // ----- the theorems -----

  /** A node that serves a view heads it: every other member had reported to that node, and
      the head of a view reports to nobody but itself. So although a node that joins may
      take another node for the primary, nobody else ever gets to serve. */
  lemma OnlyHeadServes(cf: Config, states: seq<System>, steps: seq<Step>, i: nat, n: string, w: nat)
    requires IsHistory(cf, states, steps) && i < |states| && n in states[i].nodes && w in states[i].nodes[n].served
    ensures 1 <= w <= cf.last && cf.view(w) != [] && cf.view(w)[0] == n
  {
    var s := states[i];
    HistoryKeepsInv(cf, states, steps, i);
    assert NodeOk(cf, s, n) && TookAt(cf, s.nodes[n], w, n);
    ChainViewsAreGood(cf.view, cf.last, cf.first, w);
    var h := cf.view(w)[0];
    if h != n {
      assert MsgOk(cf, s, DoneOk(w, h, n));
      assert NodeOk(cf, s, h);
      HeadTakesItself(cf.view, cf.last, cf.first, h, s.nodes[h].from, w);
    }
  }

  /** Exactly which acknowledged requests a node has when it begins to serve a later view: those
      of the views it was a member of. */
  lemma AcknowledgedExactly(cf: Config, states: seq<System>, steps: seq<Step>, i: nat, req: nat, vid: nat, n: string,
          w: nat)
    requires IsHistory(cf, states, steps) && i < |states| && (req, vid) in states[i].acked
    requires n in states[i].nodes && w in states[i].nodes[n].served && vid < w
    ensures (req, vid) in states[i].nodes[n].served[w] <==> n in cf.view(vid)
  {
    var s := states[i];
    HistoryKeepsInv(cf, states, steps, i);
    assert NodeOk(cf, s, n) && EverybodyDid(cf, s, (req, vid));
    if n in cf.view(vid) {
      assert Did(s, n, req, vid);
    }
  }

  /** Acknowledged requests survive a view change: whatever was ever acknowledged under view
      `vid`, any node that ever serves view `vid + 1` had executed before it started to. There
      is one such node at most, the head of that view, and it has executed the request. */
  lemma AcknowledgedSurvives(cf: Config, states: seq<System>, steps: seq<Step>, i: nat, req: nat, vid: nat)
    requires IsHistory(cf, states, steps) && i < |states| && (req, vid) in states[i].acked
    requires 1 <= vid < cf.last
    ensures forall n :: n in states[i].nodes && vid + 1 in states[i].nodes[n].served ==>
      cf.view(vid + 1) != [] && n == cf.view(vid + 1)[0] && (req, vid) in states[i].nodes[n].served[vid + 1]
    ensures cf.view(vid + 1) != [] && Did(states[i], cf.view(vid + 1)[0], req, vid)
  {
    var s := states[i];
    HistoryKeepsInv(cf, states, steps, i);
    ChainViewsAreGood(cf.view, cf.last, cf.first, vid + 1);
    assert EverybodyDid(cf, s, (req, vid));
    assert Did(s, cf.view(vid + 1)[0], req, vid);
    forall n | n in s.nodes && vid + 1 in s.nodes[n].served
      ensures n == cf.view(vid + 1)[0] && (req, vid) in s.nodes[n].served[vid + 1]
    {
      OnlyHeadServes(cf, states, steps, i, n, vid + 1);
      AcknowledgedExactly(cf, states, steps, i, req, vid, n, vid + 1);
    }
  }

  /** State transfer carries nothing: `last_myvs` is never moved, so the stamps always compare
      equal, and every node has exactly the effects of what it executed itself. */
  lemma TransferCarriesNothing(cf: Config, states: seq<System>, steps: seq<Step>, i: nat)
    requires IsHistory(cf, states, steps) && i < |states|
    ensures forall n :: n in states[i].nodes ==> states[i].nodes[n].state == states[i].nodes[n].executed
    ensures forall m :: m in states[i].msgs && m.Carried? ==> m.state == {}
  {
    var s := states[i];
    HistoryKeepsInv(cf, states, steps, i);
    forall n | n in s.nodes
      ensures s.nodes[n].state == s.nodes[n].executed
    {
      assert NodeOk(cf, s, n);
    }
    forall m | m in s.msgs && m.Carried?
      ensures m.state == {}
    {
      assert MsgOk(cf, s, m);
    }
  }

  /** A forwarded request is never turned down without need: a backup that is idle, outside a
      view change and at the view of the request's stamp can execute it. */
  lemma BackupsExecute(cf: Config, states: seq<System>, steps: seq<Step>, i: nat, req: nat, vs: Stamp, n: string)
    requires IsHistory(cf, states, steps) && i < |states| && n in states[i].nodes
    requires Invoke(req, vs, n) in states[i].msgs
    requires
      var x := states[i].nodes[n];
      x.busy == Idle && !x.inviewchange && x.primary != n && x.vidCommit == vs.vid
    ensures Enabled(cf, states[i], InvokeStarts(n, req, vs))
  {
    var s := states[i];
    HistoryKeepsInv(cf, states, steps, i);
    assert NodeOk(cf, s, n) && MsgOk(cf, s, Invoke(req, vs, n));
  }

  /** The view-change gate. On every node, outside a view change the stamp is the committed
      view. A primary is outside a view change only after every other member of its view had
      taken its state and had its `transferdonereq` for that very view accepted by it. */
  lemma ViewChangeGate(cf: Config, states: seq<System>, steps: seq<Step>, i: nat, n: string)
    requires IsHistory(cf, states, steps) && i < |states| && n in states[i].nodes
    ensures
      var x := states[i].nodes[n];
      && (!x.inviewchange ==> x.myvs.vid == x.vidCommit)
      && (AmIPrimary(x, n) ==> forall m :: m in cf.view(x.vidCommit) && m != n ==>
            DoneOk(x.vidCommit, m, n) in states[i].msgs && TransferOk(x.vidCommit, m, n) in states[i].msgs)
  {
    var s := states[i];
    var x := s.nodes[n];
    HistoryKeepsInv(cf, states, steps, i);
    assert NodeOk(cf, s, n);
    if AmIPrimary(x, n) {
      forall m | m in cf.view(x.vidCommit) && m != n
        ensures DoneOk(x.vidCommit, m, n) in s.msgs && TransferOk(x.vidCommit, m, n) in s.msgs
      {
        assert MsgOk(cf, s, DoneOk(x.vidCommit, m, n));
      }
    }
  }

  /** Nodes that entered with the head of their first view as primary agree on the primary
      whenever they are at the same view. */
  lemma PrimariesAgree(cf: Config, states: seq<System>, steps: seq<Step>, i: nat, a: string, b: string)
    requires IsHistory(cf, states, steps) && i < |states| && a in states[i].nodes && b in states[i].nodes
    requires
      var x, y := states[i].nodes[a], states[i].nodes[b];
      && x.vidCommit == y.vidCommit >= 1
      && cf.view(x.from) != [] && x.start == cf.view(x.from)[0] && cf.view(y.from) != []
            && y.start == cf.view(y.from)[0]
    ensures states[i].nodes[a].primary == states[i].nodes[b].primary
    ensures cf.view(states[i].nodes[a].vidCommit) != []
    ensures states[i].nodes[a].primary == cf.view(states[i].nodes[a].vidCommit)[0]
  {
    var s := states[i];
    HistoryKeepsInv(cf, states, steps, i);
    assert NodeOk(cf, s, a) && NodeOk(cf, s, b);
    PrimaryIsHead(cf.view, cf.last, cf.first, s.nodes[a].from, s.nodes[a].vidCommit);
    PrimaryIsHead(cf.view, cf.last, cf.first, s.nodes[b].from, s.nodes[b].vidCommit);
  }
}
