/** Any number of lock clients with any number of threads, and one logical server that may
    execute any request late and any number of times. */
module LockSystem {
  import S = LockServer
  import opened LockClient

  /** The server's answer to the acquire numbered `xid`, or that a release was executed. */
  datatype Rep = Acquired(dst: string, lid: nat, xid: nat, ok: bool) | Released(dst: string, lid: nat, xid: nat)

  /** Clients are known by their address. `reqs` and `reps` are all messages ever sent. */
  datatype System = System(srv: S.Server, clients: map<string, Client>, reqs: set<S.Req>, reps: set<Rep>)

  datatype Step =
    | EnterAcquire(d: string, t: nat, lid: nat)
    | ProceedAcquire(d: string, t: nat, lid: nat)
    | SendAcquire(d: string, t: nat, lid: nat)
    | TakeAcquire(d: string, t: nat, lid: nat, x: nat, ok: bool)
    | ReleaseLock(d: string, t: nat, lid: nat)
    | ReleaserStart(d: string, lid: nat)
    | ReleaserSend(d: string, lid: nat)
    | ReleaserTake(d: string, lid: nat, x: nat)
    | RetryArrives(d: string, lid: nat)
    | ServerExecutes(r: S.Req)

  /** A retry may arrive at any time, so nothing depends on when the server sends one. Only
      a thread that owns a lock releases it. */
  predicate Enabled(s: System, step: Step) {
    match step
    case EnterAcquire(d, t, lid) => d in s.clients && (t, lid) !in s.clients[d].threads
    case ProceedAcquire(d, t, lid) =>
      d in s.clients && At(s.clients[d], t, lid, Waiting) && CanProceed(s.clients[d], lid)
    case SendAcquire(d, t, lid) =>
      d in s.clients && (At(s.clients[d], t, lid, Ready)
                         || (At(s.clients[d], t, lid, AwaitRetry) && StatusOf(s.clients[d], lid) == RETRY))
    case TakeAcquire(d, t, lid, x, ok) =>
      d in s.clients && At(s.clients[d], t, lid, Calling(x)) && Acquired(d, lid, x, ok) in s.reps
    case ReleaseLock(d, t, lid) => d in s.clients && At(s.clients[d], t, lid, Owner)
    case ReleaserStart(d, lid) =>
      d in s.clients && StatusOf(s.clients[d], lid) == FREE && RelOf(s.clients[d], lid) == NoRelease
    case ReleaserSend(d, lid) => d in s.clients && RelOf(s.clients[d], lid) == RelReady
    case ReleaserTake(d, lid, x) =>
      d in s.clients && RelOf(s.clients[d], lid) == RelCalling(x) && Released(d, lid, x) in s.reps
    case RetryArrives(d, lid) => d in s.clients
    case ServerExecutes(r) => r in s.reqs
  }

  function SetClient(s: System, d: string, c: Client): System {
    s.(clients := s.clients[d := c])
  }

  function ReplyTo(s: S.Server, r: S.Req): Rep {
    match r
    case Acquire(clt, lid, dst, xid) => Acquired(dst, lid, xid, S.AcquireStatus(s, clt, lid, dst, xid) == S.OK)
    case Release(clt, lid, dst, xid) => Released(dst, lid, xid)
  }

  function Apply(s: System, step: Step): System
    requires Enabled(s, step)
  {
    match step
    case EnterAcquire(d, t, lid) => SetClient(s, d, Enter(s.clients[d], t, lid))
    case ProceedAcquire(d, t, lid) => SetClient(s, d, Proceed(s.clients[d], t, lid))
    case SendAcquire(d, t, lid) =>
      var c := CallAcquire(s.clients[d], t, lid);
      SetClient(s, d, c).(reqs := s.reqs + {S.Acquire(c.clt, lid, d, c.xid)})
    case TakeAcquire(d, t, lid, x, ok) => SetClient(s, d, TakeReply(s.clients[d], t, lid, ok))
    case ReleaseLock(d, t, lid) => SetClient(s, d, GiveBack(s.clients[d], t, lid))
    case ReleaserStart(d, lid) => SetClient(s, d, StartRelease(s.clients[d], lid))
    case ReleaserSend(d, lid) =>
      var c := CallRelease(s.clients[d], lid);
      SetClient(s, d, c).(reqs := s.reqs + {S.Release(c.clt, lid, d, c.xid)})
    case ReleaserTake(d, lid, x) => SetClient(s, d, EndRelease(s.clients[d], lid))
    case RetryArrives(d, lid) => SetClient(s, d, Retried(s.clients[d], lid))
    case ServerExecutes(r) => s.(srv := S.Execute(s.srv, r), reps := s.reps + {ReplyTo(s.srv, r)})
  }

  /** Clients start with nothing cached and with different numbers at the server. */
  predicate Init(s: System) {
    && s.srv == S.EMPTY && s.reqs == {} && s.reps == {}
    && (forall d :: d in s.clients ==> s.clients[d] == Client(s.clients[d].clt, 0, map[], map[], map[]))
    && (forall d, e :: d in s.clients && e in s.clients && d != e ==> s.clients[d].clt != s.clients[e].clt)
  }

  predicate StepAt(states: seq<System>, steps: seq<Step>, i: nat) {
    i < |steps| && i + 1 < |states| && Enabled(states[i], steps[i]) && states[i + 1] == Apply(states[i], steps[i])
  }

  predicate IsHistory(states: seq<System>, steps: seq<Step>) {
    && |states| == |steps| + 1 && Init(states[0])
    && forall i {:trigger StepAt(states, steps, i)} :: 0 <= i < |steps| ==> StepAt(states, steps, i)
  }

  // ----- invariant: client against server -----

  /** The client believes it has the lock: cached, in use, or given back but not yet
      taken back by the server. */
  predicate HasLock(s: System, d: string, lid: nat)
    requires d in s.clients
  {
    var c := s.clients[d];
    || StatusOf(c, lid) == FREE || StatusOf(c, lid) == LOCKED
    || RelOf(c, lid) == RelReady
    || (RelOf(c, lid).RelCalling? && RelOf(c, lid).xid > S.LastRelease(s.srv, c.clt, lid))
  }

  predicate AtHead(s: System, d: string, lid: nat) {
    S.Queue(s.srv, lid) != [] && S.Queue(s.srv, lid)[0] == d && S.Locked(s.srv, lid)
  }

  /** A client that has the lock, owns it in some thread, or has an OK on its way heads the queue. */
  ghost predicate HolderOk(s: System, d: string, lid: nat)
    requires d in s.clients
  {
    var c := s.clients[d];
    && (HasLock(s, d, lid) ==> AtHead(s, d, lid))
    && (forall t: nat :: At(c, t, lid, Owner) ==> AtHead(s, d, lid))
    && (forall t: nat, x: nat :: At(c, t, lid, Calling(x)) ==>
          x > S.LastRelease(s.srv, c.clt, lid) && (Acquired(d, lid, x, true) in s.reps ==> AtHead(s, d, lid)))
    && S.LastRelease(s.srv, c.clt, lid) <= c.xid
  }

  ghost predicate HoldersOk(s: System) {
    forall d, lid: nat {:trigger HolderOk(s, d, lid)} :: d in s.clients ==> HolderOk(s, d, lid)
  }

  /** Requests were issued by their sender; a release was executed or is still waited for. */
  predicate ReqOk(s: System, r: S.Req) {
    && r.dst in s.clients && r.clt == s.clients[r.dst].clt && 0 < r.xid <= s.clients[r.dst].xid
    && (r.Release? ==>
          r.xid <= S.LastRelease(s.srv, r.clt, r.lid) || RelOf(s.clients[r.dst], r.lid) == RelCalling(r.xid))
  }

  predicate RepOk(s: System, r: Rep) {
    && r.dst in s.clients && r.xid <= s.clients[r.dst].xid
    && (r.Released? ==> r.xid <= S.LastRelease(s.srv, s.clients[r.dst].clt, r.lid))
  }

  ghost predicate MsgsOk(s: System) {
    && (forall r {:trigger ReqOk(s, r)} :: r in s.reqs ==> ReqOk(s, r))
    && (forall r {:trigger RepOk(s, r)} :: r in s.reps ==> RepOk(s, r))
    && (forall d, e :: d in s.clients && e in s.clients && d != e ==> s.clients[d].clt != s.clients[e].clt)
  }

  ghost predicate ClientsOk(s: System) {
    forall d {:trigger ClientOk(s.clients[d])} :: d in s.clients ==> ClientOk(s.clients[d])
  }

  ghost predicate Inv(s: System) {
    ClientsOk(s) && HoldersOk(s) && MsgsOk(s)
  }

  // ----- what the server's functions do to one lock -----

  lemma AcquireEffect(s: S.Server, r: S.Req, clt: int, lid: nat)
    requires r.Acquire?
    ensures
      var t := S.Execute(s, r);
      && S.LastRelease(t, clt, lid) == S.LastRelease(s, clt, lid)
      && (S.Queue(s, lid) != [] ==> S.Queue(t, lid) != [] && S.Queue(t, lid)[0] == S.Queue(s, lid)[0])
      && (S.Locked(s, lid) ==> S.Locked(t, lid))
  {
  }

  /** An acquire that is not outdated is answered OK only to the head of the queue, and then
      the lock is marked taken. */
  lemma OkMeansHead(s: S.Server, r: S.Req)
    requires r.Acquire? && r.xid > S.LastRelease(s, r.clt, r.lid)
    requires S.AcquireStatus(s, r.clt, r.lid, r.dst, r.xid) == S.OK
    ensures
      var t := S.Execute(s, r);
      S.Queue(t, r.lid) != [] && S.Queue(t, r.lid)[0] == r.dst && S.Locked(t, r.lid)
  {
  }

  /** A release disturbs only a lock whose head is its sender, and only with a fresh number. */
  lemma ReleaseEffect(s: S.Server, r: S.Req, clt: int, lid: nat)
    requires r.Release?
    ensures
      var t := S.Execute(s, r);
      && S.LastRelease(t, clt, lid) ==
           (if clt == r.clt && lid == r.lid && r.xid > S.LastRelease(s, clt, lid)
            then r.xid else S.LastRelease(s, clt, lid))
      && ((lid != r.lid || r.xid <= S.LastRelease(s, r.clt, lid) || S.Queue(s, lid) == []
           || S.Queue(s, lid)[0] != r.dst) ==>
            S.Queue(t, lid) == S.Queue(s, lid) && S.Locked(t, lid) == S.Locked(s, lid))
  {
  }

  // ----- server steps -----

  lemma ExecuteAcquireKeepsHolder(s: System, r: S.Req, d: string, lid: nat)
    requires Inv(s) && r in s.reqs && r.Acquire? && d in s.clients
    ensures HolderOk(Apply(s, ServerExecutes(r)), d, lid)
  {
    var s' := Apply(s, ServerExecutes(r));
    var c := s.clients[d];
    assert HolderOk(s, d, lid) && ReqOk(s, r);
    AcquireEffect(s.srv, r, c.clt, lid);
    forall t: nat, x: nat | At(c, t, lid, Calling(x)) && Acquired(d, lid, x, true) in s'.reps
      ensures AtHead(s', d, lid)
    {
      if Acquired(d, lid, x, true) !in s.reps {
        assert r == S.Acquire(c.clt, lid, d, x);
        OkMeansHead(s.srv, r);
      }
    }
  }

  lemma ExecuteReleaseKeepsHolder(s: System, r: S.Req, d: string, lid: nat)
    requires Inv(s) && r in s.reqs && r.Release? && d in s.clients
    ensures HolderOk(Apply(s, ServerExecutes(r)), d, lid)
  {
    var s' := Apply(s, ServerExecutes(r));
    var c := s.clients[d];
    assert HolderOk(s, d, lid) && ReqOk(s, r);
    assert ClientOk(c) && LockOk(c, lid);
    ReleaseEffect(s.srv, r, c.clt, lid);
    if lid == r.lid && r.xid > S.LastRelease(s.srv, r.clt, lid) {
      if d == r.dst {
        assert RelOf(c, lid) == RelCalling(r.xid);
        assert S.LastRelease(s'.srv, c.clt, lid) == r.xid;
        assert forall t: nat, pc :: At(c, t, lid, pc) && pc != Waiting ==> Active(c, t, lid);
        assert !HasLock(s', d, lid);
      } else {
        assert c.clt != r.clt;
        if AtHead(s, d, lid) {
          assert S.Queue(s.srv, lid)[0] != r.dst;
        }
      }
    }
  }

  lemma ExecuteKeepsMsgs(s: System, r: S.Req)
    requires Inv(s) && r in s.reqs
    ensures MsgsOk(Apply(s, ServerExecutes(r)))
  {
    var s' := Apply(s, ServerExecutes(r));
    assert ReqOk(s, r);
    forall q | q in s.reqs ensures ReqOk(s', q) {
      assert ReqOk(s, q);
      if r.Acquire? { AcquireEffect(s.srv, r, q.clt, q.lid); } else { ReleaseEffect(s.srv, r, q.clt, q.lid); }
    }
    forall p | p in s'.reps ensures RepOk(s', p) {
      var clt := s.clients[if p in s.reps then (assert RepOk(s, p); p.dst) else r.dst].clt;
      if r.Acquire? { AcquireEffect(s.srv, r, clt, p.lid); } else { ReleaseEffect(s.srv, r, clt, p.lid); }
    }
  }

  lemma ExecuteKeepsInv(s: System, r: S.Req)
    requires Inv(s) && r in s.reqs
    ensures Inv(Apply(s, ServerExecutes(r)))
  {
    var s' := Apply(s, ServerExecutes(r));
    ExecuteKeepsMsgs(s, r);
    forall d, lid: nat | d in s'.clients ensures HolderOk(s', d, lid) {
      if r.Acquire? { ExecuteAcquireKeepsHolder(s, r, d, lid); } else { ExecuteReleaseKeepsHolder(s, r, d, lid); }
    }
    forall d | d in s'.clients ensures ClientOk(s'.clients[d]) {
      assert ClientOk(s.clients[d]);
    }
  }

  // ----- client steps -----

  lemma SameAtKeeps(s: System, s': System, d: string, l: nat)
    requires d in s.clients && d in s'.clients && s'.srv == s.srv && s'.reps == s.reps
    requires SameAt(s.clients[d], s'.clients[d], l) && HolderOk(s, d, l)
    ensures HolderOk(s', d, l)
  {
    var c, c' := s.clients[d], s'.clients[d];
    forall t: nat, pc ensures At(c', t, l, pc) <==> At(c, t, l, pc) {
      assert (t, l) in c'.threads <==> (t, l) in c.threads;
    }
  }

  /** Client `d` does something about lock `lid`. */
  ghost predicate ClientMoves(s: System, s': System, d: string, lid: nat) {
    && d in s.clients && d in s'.clients && s'.clients == s.clients[d := s'.clients[d]]
    && s'.srv == s.srv && s'.reps == s.reps && s.reqs <= s'.reqs
    && s'.clients[d].clt == s.clients[d].clt && s.clients[d].xid <= s'.clients[d].xid
    && (forall l: nat {:trigger SameAt(s.clients[d], s'.clients[d], l)} :: l != lid ==>
      SameAt(s.clients[d], s'.clients[d], l))
  }

  lemma ClientMoveKeepsInv(s: System, s': System, d: string, lid: nat)
    requires Inv(s) && ClientMoves(s, s', d, lid)
    requires ClientOk(s'.clients[d]) && HolderOk(s', d, lid)
    requires forall r :: r in s'.reqs && (r !in s.reqs || (r.dst == d && r.lid == lid)) ==> ReqOk(s', r)
    ensures Inv(s')
  {
    forall l: nat ensures HolderOk(s', d, l) {
      if l != lid {
        assert SameAt(s.clients[d], s'.clients[d], l) && HolderOk(s, d, l);
        SameAtKeeps(s, s', d, l);
      }
    }
    forall e | e in s'.clients ensures ClientOk(s'.clients[e]) {
      if e != d {
        assert ClientOk(s.clients[e]);
      }
    }
    forall e, l: nat | e in s'.clients ensures HolderOk(s', e, l) {
      if e != d {
        assert HolderOk(s, e, l);
      }
    }
    MsgsAfterClientMove(s, s', d, lid);
  }

  lemma MsgsAfterClientMove(s: System, s': System, d: string, lid: nat)
    requires Inv(s) && ClientMoves(s, s', d, lid)
    requires forall r :: r in s'.reqs && (r !in s.reqs || (r.dst == d && r.lid == lid)) ==> ReqOk(s', r)
    ensures MsgsOk(s')
  {
    forall r | r in s'.reqs ensures ReqOk(s', r) {
      if r in s.reqs && (r.dst != d || r.lid != lid) {
        assert ReqOk(s, r);
        assert SameAt(s.clients[d], s'.clients[d], r.lid) || r.dst != d;
      }
    }
    forall r | r in s'.reps ensures RepOk(s', r) {
      assert RepOk(s, r);
    }
  }

  /** A client step that sends nothing and does not touch the releaser. */
  lemma QuietMove(s: System, s': System, d: string, lid: nat)
    requires Inv(s) && ClientMoves(s, s', d, lid) && s'.reqs == s.reqs
    requires RelOf(s'.clients[d], lid) == RelOf(s.clients[d], lid)
    requires ClientOk(s'.clients[d]) && HolderOk(s', d, lid)
    ensures Inv(s')
  {
    forall r | r in s'.reqs && (r !in s.reqs || (r.dst == d && r.lid == lid)) ensures ReqOk(s', r) {
      assert ReqOk(s, r);
    }
    ClientMoveKeepsInv(s, s', d, lid);
  }

  lemma MoveShape(s: System, step: Step)
    requires Enabled(s, step) && !step.ServerExecutes?
    ensures ClientMoves(s, Apply(s, step), step.d, step.lid)
  {
    var s' := Apply(s, step);
    var c, c' := s.clients[step.d], s'.clients[step.d];
    forall l: nat | l != step.lid ensures SameAt(c, c', l) {
    }
  }

  lemma EnterKeepsInv(s: System, d: string, t: nat, lid: nat)
    requires Inv(s) && Enabled(s, EnterAcquire(d, t, lid))
    ensures Inv(Apply(s, EnterAcquire(d, t, lid)))
  {
    var s' := Apply(s, EnterAcquire(d, t, lid));
    var c, c' := s.clients[d], s'.clients[d];
    MoveShape(s, EnterAcquire(d, t, lid));
    assert ClientOk(c) && LockOk(c, lid) && HolderOk(s, d, lid);
    assert forall u: nat, pc :: pc != Waiting ==> (At(c', u, lid, pc) <==> At(c, u, lid, pc));
    EnterKeeps(c, t, lid);
    QuietMove(s, s', d, lid);
  }

  lemma ProceedKeepsInv(s: System, d: string, t: nat, lid: nat)
    requires Inv(s) && Enabled(s, ProceedAcquire(d, t, lid))
    ensures Inv(Apply(s, ProceedAcquire(d, t, lid)))
  {
    var s' := Apply(s, ProceedAcquire(d, t, lid));
    var c, c' := s.clients[d], s'.clients[d];
    MoveShape(s, ProceedAcquire(d, t, lid));
    assert ClientOk(c) && LockOk(c, lid) && HolderOk(s, d, lid);
    OnlyThreadActive(c, c', t, lid, if StatusOf(c, lid) == NONE then Ready else Owner);
    ProceedKeeps(c, t, lid);
    QuietMove(s, s', d, lid);
  }

  lemma SendAcquireKeepsInv(s: System, d: string, t: nat, lid: nat)
    requires Inv(s) && Enabled(s, SendAcquire(d, t, lid))
    ensures Inv(Apply(s, SendAcquire(d, t, lid)))
  {
    var s' := Apply(s, SendAcquire(d, t, lid));
    var c, c' := s.clients[d], s'.clients[d];
    MoveShape(s, SendAcquire(d, t, lid));
    assert ClientOk(c) && LockOk(c, lid) && HolderOk(s, d, lid);
    assert Active(c, t, lid);
    OnlyThreadActive(c, c', t, lid, Calling(c.xid + 1));
    CallAcquireKeeps(c, t, lid);
    NoReplyYet(s, d, lid, c.xid + 1);
    forall r | r in s'.reqs && (r !in s.reqs || (r.dst == d && r.lid == lid)) ensures ReqOk(s', r) {
      if r in s.reqs {
        assert ReqOk(s, r);
      }
    }
    ClientMoveKeepsInv(s, s', d, lid);
  }

  /** No answer exists to a number that was never used. */
  lemma NoReplyYet(s: System, d: string, lid: nat, x: nat)
    requires Inv(s) && d in s.clients && x > s.clients[d].xid
    ensures Acquired(d, lid, x, true) !in s.reps
  {
    assert Acquired(d, lid, x, true) in s.reps ==> RepOk(s, Acquired(d, lid, x, true));
  }

  lemma TakeAcquireKeepsInv(s: System, d: string, t: nat, lid: nat, x: nat, ok: bool)
    requires Inv(s) && Enabled(s, TakeAcquire(d, t, lid, x, ok))
    ensures Inv(Apply(s, TakeAcquire(d, t, lid, x, ok)))
  {
    var s' := Apply(s, TakeAcquire(d, t, lid, x, ok));
    var c, c' := s.clients[d], s'.clients[d];
    MoveShape(s, TakeAcquire(d, t, lid, x, ok));
    assert ClientOk(c) && LockOk(c, lid) && HolderOk(s, d, lid);
    assert Active(c, t, lid);
    OnlyThreadActive(c, c', t, lid, if ok then Owner else AwaitRetry);
    TakeReplyKeeps(c, t, lid, ok);
    QuietMove(s, s', d, lid);
  }

  lemma ReleaseKeepsInv(s: System, d: string, t: nat, lid: nat)
    requires Inv(s) && Enabled(s, ReleaseLock(d, t, lid))
    ensures Inv(Apply(s, ReleaseLock(d, t, lid)))
  {
    var s' := Apply(s, ReleaseLock(d, t, lid));
    var c, c' := s.clients[d], s'.clients[d];
    MoveShape(s, ReleaseLock(d, t, lid));
    assert ClientOk(c) && LockOk(c, lid) && HolderOk(s, d, lid);
    GiveBackKeeps(c, t, lid);
    assert forall u: nat, pc :: At(c', u, lid, pc) && pc != Waiting ==> Active(c', u, lid);
    QuietMove(s, s', d, lid);
  }

  lemma ReleaserStartKeepsInv(s: System, d: string, lid: nat)
    requires Inv(s) && Enabled(s, ReleaserStart(d, lid))
    ensures Inv(Apply(s, ReleaserStart(d, lid)))
  {
    var s' := Apply(s, ReleaserStart(d, lid));
    var c, c' := s.clients[d], s'.clients[d];
    MoveShape(s, ReleaserStart(d, lid));
    assert ClientOk(c) && LockOk(c, lid) && HolderOk(s, d, lid);
    StartReleaseKeeps(c, lid);
    assert forall u: nat, pc :: At(c', u, lid, pc) && pc != Waiting ==> Active(c', u, lid);
    forall r | r in s'.reqs && (r !in s.reqs || (r.dst == d && r.lid == lid)) ensures ReqOk(s', r) {
      assert ReqOk(s, r);
    }
    ClientMoveKeepsInv(s, s', d, lid);
  }

  lemma ReleaserSendKeepsInv(s: System, d: string, lid: nat)
    requires Inv(s) && Enabled(s, ReleaserSend(d, lid))
    ensures Inv(Apply(s, ReleaserSend(d, lid)))
  {
    var s' := Apply(s, ReleaserSend(d, lid));
    var c, c' := s.clients[d], s'.clients[d];
    MoveShape(s, ReleaserSend(d, lid));
    assert ClientOk(c) && LockOk(c, lid) && HolderOk(s, d, lid);
    CallReleaseKeeps(c, lid);
    assert forall u: nat, pc :: At(c', u, lid, pc) <==> At(c, u, lid, pc);
    forall r | r in s'.reqs && (r !in s.reqs || (r.dst == d && r.lid == lid)) ensures ReqOk(s', r) {
      if r in s.reqs {
        assert ReqOk(s, r);
      }
    }
    ClientMoveKeepsInv(s, s', d, lid);
  }

  lemma ReleaserTakeKeepsInv(s: System, d: string, lid: nat, x: nat)
    requires Inv(s) && Enabled(s, ReleaserTake(d, lid, x))
    ensures Inv(Apply(s, ReleaserTake(d, lid, x)))
  {
    var s' := Apply(s, ReleaserTake(d, lid, x));
    var c, c' := s.clients[d], s'.clients[d];
    MoveShape(s, ReleaserTake(d, lid, x));
    assert ClientOk(c) && LockOk(c, lid) && HolderOk(s, d, lid);
    assert RepOk(s, Released(d, lid, x));
    EndReleaseKeeps(c, lid);
    assert forall u: nat, pc :: At(c', u, lid, pc) && pc != Waiting ==> Active(c', u, lid);
    forall r | r in s'.reqs && (r !in s.reqs || (r.dst == d && r.lid == lid)) ensures ReqOk(s', r) {
      assert ReqOk(s, r);
    }
    ClientMoveKeepsInv(s, s', d, lid);
  }

  lemma RetryKeepsInv(s: System, d: string, lid: nat)
    requires Inv(s) && Enabled(s, RetryArrives(d, lid))
    ensures Inv(Apply(s, RetryArrives(d, lid)))
  {
    var s' := Apply(s, RetryArrives(d, lid));
    var c, c' := s.clients[d], s'.clients[d];
    MoveShape(s, RetryArrives(d, lid));
    assert ClientOk(c) && LockOk(c, lid) && HolderOk(s, d, lid);
    RetriedKeeps(c, lid);
    assert forall u: nat, pc :: At(c', u, lid, pc) <==> At(c, u, lid, pc);
    QuietMove(s, s', d, lid);
  }

  // ----- the theorem -----

  lemma StepKeepsInv(s: System, step: Step)
    requires Inv(s) && Enabled(s, step)
    ensures Inv(Apply(s, step))
  {
    match step {
      case EnterAcquire(d, t, lid) => EnterKeepsInv(s, d, t, lid);
      case ProceedAcquire(d, t, lid) => ProceedKeepsInv(s, d, t, lid);
      case SendAcquire(d, t, lid) => SendAcquireKeepsInv(s, d, t, lid);
      case TakeAcquire(d, t, lid, x, ok) => TakeAcquireKeepsInv(s, d, t, lid, x, ok);
      case ReleaseLock(d, t, lid) => ReleaseKeepsInv(s, d, t, lid);
      case ReleaserStart(d, lid) => ReleaserStartKeepsInv(s, d, lid);
      case ReleaserSend(d, lid) => ReleaserSendKeepsInv(s, d, lid);
      case ReleaserTake(d, lid, x) => ReleaserTakeKeepsInv(s, d, lid, x);
      case RetryArrives(d, lid) => RetryKeepsInv(s, d, lid);
      case ServerExecutes(r) => ExecuteKeepsInv(s, r);
    }
  }

  lemma {:induction false} HistoryKeepsInv(states: seq<System>, steps: seq<Step>, i: nat)
    requires IsHistory(states, steps) && i < |states|
    ensures Inv(states[i])
  {
    if i == 0 {
    } else {
      HistoryKeepsInv(states, steps, i - 1);
      assert StepAt(states, steps, i - 1);
      StepKeepsInv(states[i - 1], steps[i - 1]);
    }
  }

  /** Mutual exclusion, end to end: at any time at most one client has a lock cached, in use
      or not yet taken back; it heads the server's queue with the lock marked taken; and at
      most one thread of all clients owns it. */
  lemma MutualExclusion(states: seq<System>, steps: seq<Step>, i: nat, lid: nat, d: string, e: string, t: nat, u: nat)
    requires IsHistory(states, steps) && i < |states| && d in states[i].clients && e in states[i].clients
    ensures HasLock(states[i], d, lid) || At(states[i].clients[d], t, lid, Owner) ==> AtHead(states[i], d, lid)
    ensures HasLock(states[i], d, lid) && HasLock(states[i], e, lid) ==> d == e
    ensures At(states[i].clients[d], t, lid, Owner) && At(states[i].clients[e], u, lid, Owner) ==> d == e && t == u
    ensures At(states[i].clients[d], t, lid, Owner) && HasLock(states[i], e, lid) ==> d == e
  {
    var s := states[i];
    HistoryKeepsInv(states, steps, i);
    assert HolderOk(s, d, lid) && HolderOk(s, e, lid);
    assert ClientOk(s.clients[d]) && LockOk(s.clients[d], lid);
    if At(s.clients[d], t, lid, Owner) && At(s.clients[e], u, lid, Owner) {
      assert d == e;
      assert Active(s.clients[d], t, lid) && Active(s.clients[d], u, lid);
    }
  }
}
