/** The lock protocol does hand out locks: when a waiting thread may go on, that a grant stays a
    grant, and a history in which a lock is passed from one client to another. */
module LockProgress {
  import S = LockServer
  import opened LockClient
  import opened LockSystem

  // ----- a waiting thread is kept out only for a reason -----

  ghost predicate InUse(c: Client, lid: nat) {
    exists t: nat :: Active(c, t, lid)
  }

  /** A status that keeps threads waiting has a thread or the releaser behind it, or is RETRY. */
  ghost predicate Reasoned(c: Client, lid: nat) {
    CanProceed(c, lid) || StatusOf(c, lid) == RETRY || RelOf(c, lid) != NoRelease || InUse(c, lid)
  }

  ghost predicate AllReasoned(s: System) {
    forall d, lid: nat {:trigger Reasoned(s.clients[d], lid)} :: d in s.clients ==> Reasoned(s.clients[d], lid)
  }

  lemma SameReason(c: Client, c': Client, l: nat)
    requires SameAt(c, c', l) && Reasoned(c, l)
    ensures Reasoned(c', l)
  {
    if t: nat :| Active(c, t, l) {
      assert (t, l) in c'.threads;
      assert Active(c', t, l);
    }
  }

  lemma StepLeavesReason(s: System, step: Step)
    requires Enabled(s, step) && !step.ServerExecutes? && Reasoned(s.clients[step.d], step.lid)
    ensures Reasoned(Apply(s, step).clients[step.d], step.lid)
  {
    var d, lid := step.d, step.lid;
    var c, c' := s.clients[d], Apply(s, step).clients[d];
    match step {
      case EnterAcquire(_, t, _) =>
        if u: nat :| Active(c, u, lid) {
          assert (u, lid) != (t, lid) && Active(c', u, lid);
        }
      case ProceedAcquire(_, t, _) => assert Active(c', t, lid);
      case SendAcquire(_, t, _) => assert Active(c', t, lid);
      case TakeAcquire(_, t, _, _, _) => assert Active(c', t, lid);
      case _ =>
    }
  }

  lemma StepKeepsReason(s: System, step: Step)
    requires AllReasoned(s) && Enabled(s, step)
    ensures AllReasoned(Apply(s, step))
  {
    var t := Apply(s, step);
    forall d, l: nat | d in t.clients
      ensures Reasoned(t.clients[d], l)
    {
      assert Reasoned(s.clients[d], l);
      if !step.ServerExecutes? && d == step.d {
        if l == step.lid {
          StepLeavesReason(s, step);
        } else {
          MoveShape(s, step);
          assert SameAt(s.clients[d], t.clients[d], l);
          SameReason(s.clients[d], t.clients[d], l);
        }
      }
    }
  }

  lemma {:induction false} HistoryKeepsReason(states: seq<System>, steps: seq<Step>, i: nat)
    requires IsHistory(states, steps) && i < |states|
    ensures AllReasoned(states[i])
  {
    if i == 0 {
    } else {
      HistoryKeepsReason(states, steps, i - 1);
      assert StepAt(states, steps, i - 1);
      StepKeepsReason(states[i - 1], steps[i - 1]);
    }
  }

  /** Exactly when a thread that waits in `acquire` can go on, in every history: no other thread
      of its client is busy with the lock or has it, the releaser is not at work on it, and no
      retry has overwritten the status. */
  lemma WaiterGoesOnExactly(states: seq<System>, steps: seq<Step>, i: nat, d: string, t: nat, lid: nat)
    requires IsHistory(states, steps) && i < |states| && d in states[i].clients
    requires At(states[i].clients[d], t, lid, Waiting)
    ensures
      var c := states[i].clients[d];
      Enabled(states[i], ProceedAcquire(d, t, lid)) <==>
        !InUse(c, lid) && RelOf(c, lid) == NoRelease && StatusOf(c, lid) != RETRY
  {
    var c := states[i].clients[d];
    HistoryKeepsReason(states, steps, i);
    HistoryKeepsInv(states, steps, i);
    assert Reasoned(c, lid) && ClientOk(c) && LockOk(c, lid);
  }

  // ----- a retry that nobody waits for -----

  /** The status is RETRY and nothing is left that would change it. */
  ghost predicate Shut(c: Client, lid: nat) {
    StatusOf(c, lid) == RETRY && !InUse(c, lid) && RelOf(c, lid) == NoRelease
  }

  /** The retry handler overwrites any status. */
  lemma LateRetryShuts(s: System, d: string, lid: nat)
    requires d in s.clients && !InUse(s.clients[d], lid) && RelOf(s.clients[d], lid) == NoRelease
    ensures Shut(Apply(s, RetryArrives(d, lid)).clients[d], lid)
  {
    var c, c' := s.clients[d], Apply(s, RetryArrives(d, lid)).clients[d];
    assert forall t: nat :: Active(c', t, lid) <==> Active(c, t, lid);
  }

  lemma StepLeavesShut(s: System, step: Step, d: string, lid: nat)
    requires Enabled(s, step) && d in s.clients && Shut(s.clients[d], lid)
    ensures d in Apply(s, step).clients && Shut(Apply(s, step).clients[d], lid)
  {
    var c, c' := s.clients[d], Apply(s, step).clients[d];
    if !step.ServerExecutes? && step.d == d {
      if step.lid == lid {
        assert !step.EnterAcquire? ==> step.RetryArrives? by {
          assert step.SendAcquire? || step.TakeAcquire? || step.ReleaseLock? ==> Active(c, step.t, lid);
        }
        assert forall t: nat :: Active(c', t, lid) ==> Active(c, t, lid);
      } else {
        MoveShape(s, step);
        assert SameAt(c, c', lid);
        forall t: nat ensures Active(c', t, lid) ==> Active(c, t, lid) {
          assert (t, lid) in c'.threads <==> (t, lid) in c.threads;
        }
      }
    }
  }

  /** A retry that arrives while no thread is busy with the lock and the releaser is not at work on
      it shuts the lock on that client for good: in every continuation nobody gets past the wait,
      neither a thread nor the releaser. */
  lemma {:induction false} ShutForGood(states: seq<System>, steps: seq<Step>, i: nat, j: nat, d: string, lid: nat)
    requires IsHistory(states, steps) && i <= j < |states| && d in states[i].clients && Shut(states[i].clients[d], lid)
    ensures d in states[j].clients && Shut(states[j].clients[d], lid)
    ensures forall t: nat :: !Enabled(states[j], ProceedAcquire(d, t, lid))
    ensures !Enabled(states[j], ReleaserStart(d, lid))
    decreases j
  {
    if j == i {
    } else {
      ShutForGood(states, steps, i, j - 1, d, lid);
      assert StepAt(states, steps, j - 1);
      StepLeavesShut(states[j - 1], steps[j - 1], d, lid);
    }
  }

  // ----- a grant stays a grant -----

  /** No acquire of a client has a number above the release that is under way. */
  predicate BeforeRelease(s: System, r: S.Req) {
    r.Acquire? && r.dst in s.clients && RelOf(s.clients[r.dst], r.lid).RelCalling? ==>
      r.xid <= RelOf(s.clients[r.dst], r.lid).xid
  }

  /** What was answered OK once was released since, or its client heads the queue. */
  predicate StillGranted(s: System, r: S.Req) {
    r.Acquire? && Acquired(r.dst, r.lid, r.xid, true) in s.reps ==>
      || r.xid <= S.LastRelease(s.srv, r.clt, r.lid)
      || (S.Queue(s.srv, r.lid) != [] && S.Queue(s.srv, r.lid)[0] == r.dst)
  }

  ghost predicate GrantsOk(s: System) {
    && (forall r {:trigger BeforeRelease(s, r)} :: r in s.reqs ==> BeforeRelease(s, r))
    && (forall r {:trigger StillGranted(s, r)} :: r in s.reqs ==> StillGranted(s, r))
  }

  lemma ExecutionKeepsGrant(s: System, q: S.Req, r: S.Req)
    requires Inv(s) && GrantsOk(s) && q in s.reqs && r in s.reqs
    ensures StillGranted(Apply(s, ServerExecutes(q)), r)
  {
    var t := Apply(s, ServerExecutes(q));
    assert ReqOk(s, q) && ReqOk(s, r) && StillGranted(s, r) && BeforeRelease(s, r);
    if q.Acquire? {
      S.JoinedKeeps(S.Queue(s.srv, q.lid), q.dst);
      AcquireEffect(s.srv, q, r.clt, r.lid);
      if r.Acquire? && Acquired(r.dst, r.lid, r.xid, true) in t.reps && Acquired(r.dst, r.lid, r.xid, true) !in s.reps {
        assert q.dst == r.dst && q.lid == r.lid && q.xid == r.xid && q.clt == r.clt;
        if q.xid > S.LastRelease(s.srv, q.clt, q.lid) {
          OkMeansHead(s.srv, q);
        }
      }
    } else {
      ReleaseEffect(s.srv, q, r.clt, r.lid);
    }
  }

  lemma ClientStepKeepsGrants(s: System, step: Step, r: S.Req)
    requires Inv(s) && GrantsOk(s) && Enabled(s, step) && !step.ServerExecutes? && r in Apply(s, step).reqs
    ensures StillGranted(Apply(s, step), r) && BeforeRelease(Apply(s, step), r)
  {
    var d, lid := step.d, step.lid;
    var c := s.clients[d];
    assert ClientOk(c) && LockOk(c, lid);
    if r in s.reqs {
      assert ReqOk(s, r) && StillGranted(s, r) && BeforeRelease(s, r);
    } else {
      NoReplyYet(s, d, lid, c.xid + 1);
      if step.SendAcquire? {
        assert Active(c, step.t, lid);
      }
    }
  }

  lemma StepKeepsGrants(s: System, step: Step)
    requires Inv(s) && GrantsOk(s) && Enabled(s, step)
    ensures GrantsOk(Apply(s, step))
  {
    var t := Apply(s, step);
    forall r | r in t.reqs
      ensures StillGranted(t, r) && BeforeRelease(t, r)
    {
      if step.ServerExecutes? {
        ExecutionKeepsGrant(s, step.r, r);
        assert BeforeRelease(s, r);
      } else {
        ClientStepKeepsGrants(s, step, r);
      }
    }
  }

  lemma {:induction false} HistoryKeepsGrants(states: seq<System>, steps: seq<Step>, i: nat)
    requires IsHistory(states, steps) && i < |states|
    ensures GrantsOk(states[i])
  {
    if i == 0 {
    } else {
      HistoryKeepsGrants(states, steps, i - 1);
      HistoryKeepsInv(states, steps, i - 1);
      assert StepAt(states, steps, i - 1);
      StepKeepsGrants(states[i - 1], steps[i - 1]);
    }
  }

  /** An acquire that was answered OK once is answered OK whenever it is executed again, also
      after the lock was given back. */
  lemma GrantIsStable(states: seq<System>, steps: seq<Step>, i: nat, r: S.Req)
    requires IsHistory(states, steps) && i < |states| && r in states[i].reqs
    requires r.Acquire? && Acquired(r.dst, r.lid, r.xid, true) in states[i].reps
    ensures S.AcquireStatus(states[i].srv, r.clt, r.lid, r.dst, r.xid) == S.OK
  {
    HistoryKeepsGrants(states, steps, i);
    assert StillGranted(states[i], r);
  }
}
