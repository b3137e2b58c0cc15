/** The earlier protocol does hand out locks: when a waiting thread and a revoke may go on, and a
    history in which the lock is passed on. */
module OldHandover {
  import opened OldLocks

  ghost predicate InUse(c: Client) {
    exists t: nat :: t in c.threads && c.threads[t] != Waiting
  }

  /** A status that keeps threads waiting has a thread behind it, or a revoke, or a retry. */
  ghost predicate Reasoned(c: Client) {
    WaitOver(c.st) || c.st == RELEASING || c.st == RETRY || InUse(c)
  }

  ghost predicate AllReasoned(s: System) {
    forall d {:trigger Reasoned(s.clients[d])} :: d in s.clients ==> Reasoned(s.clients[d])
  }

  lemma ThreadMoved(c: Client, c': Client, t: nat, pc: Pc)
    requires c'.threads == c.threads[t := pc] && (pc != Waiting || t !in c.threads)
    ensures InUse(c') <==> InUse(c) || pc != Waiting
  {
    if u: nat :| u in c.threads && c.threads[u] != Waiting && u != t {
      assert c'.threads[u] != Waiting;
    }
    assert t in c'.threads;
  }

  lemma StepKeepsReason(s: System, step: Step)
    requires AllReasoned(s) && Enabled(s, step)
    ensures AllReasoned(Apply(s, step))
  {
    var u := Apply(s, step);
    var c, c' := s.clients[step.d], u.clients[step.d];
    match step {
      case Enter(_, t) => ThreadMoved(c, c', t, Waiting);
      case Proceed(_, t) => ThreadMoved(c, c', t, c'.threads[t]);
      case TakeAnswer(_, t) => ThreadMoved(c, c', t, c'.threads[t]);
      case AskAgain(_, t) => ThreadMoved(c, c', t, AskingAgain);
      case _ =>
    }
    forall d | d in u.clients
      ensures Reasoned(u.clients[d])
    {
      assert Reasoned(s.clients[d]);
    }
  }

  lemma {:induction false} HistoryKeepsReason(states: seq<System>, steps: seq<Step>, i: nat)
    requires IsHistory(states, steps) && i < |states|
    ensures AllReasoned(states[i])
  {
    if i == 0 {
    } else {
      HistoryKeepsReason(states, steps, i - 1);
      assert StepAt(states, steps, i - 1);
      StepKeepsReason(states[i - 1], steps[i - 1]);
    }
  }

  /** Exactly when a thread that waits in `acquire` can go on, in every history: no other thread
      of its client is busy with the lock or has it, and the lock is not being revoked. */
  lemma OldWaiterGoesOnExactly(states: seq<System>, steps: seq<Step>, n: nat, d: string, t: nat)
    requires IsHistory(states, steps) && n <= |steps| && d in states[n].clients
    requires At(states[n].clients[d], t, Waiting)
    ensures Enabled(states[n], Proceed(d, t)) <==> !InUse(states[n].clients[d]) && states[n].clients[d].st != RELEASING
  {
    HistoryKeepsReason(states, steps, n);
    HistoryKeepsLine(states, steps, n);
    RetryIsUnreachable(states, steps, n, d);
    assert Reasoned(states[n].clients[d]) && ClientOk(states[n], Line(steps[..n]), d);
  }

  /** Exactly when an outstanding revoke can go on: when its target has the lock cached and no
      thread uses it. */
  lemma RevokeGoesOnExactly(states: seq<System>, steps: seq<Step>, n: nat, d: string)
    requires IsHistory(states, steps) && n <= |steps| && TargetIs(states[n], d, Asked)
    ensures Enabled(states[n], RevokeBegins(d)) <==> states[n].clients[states[n].clients[d].call.target].st == FREE
  {
    RevokeNeverFindsNone(states, steps, n, d);
  }

  // ----- the lock is passed on -----

  lemma Extended(states: seq<System>, steps: seq<Step>, step: Step) returns (states': seq<System>, steps': seq<Step>)
    requires IsHistory(states, steps) && Enabled(states[|steps|], step)
    ensures IsHistory(states', steps') && states' == states + [Apply(states[|steps|], step)]
    ensures steps' == steps + [step]
  {
    states', steps' := states + [Apply(states[|steps|], step)], steps + [step];
    forall i: nat | i < |steps'|
      ensures StepAt(states', steps', i)
    {
      assert i < |steps| ==> StepAt(states, steps, i);
    }
  }

  /** A thread of the first client gets the lock, which nobody has. */
  lemma FirstGetsIt(d: string, e: string, t: nat) returns (states: seq<System>, steps: seq<Step>)
    requires d != e
    ensures IsHistory(states, steps)
    ensures
      var s := states[|steps|];
      && s.list == [d] && d in s.clients && e in s.clients
      && s.clients[d] == Client(LOCKED, NoCall, map[t := Owner]) && s.clients[e] == Client(NONE, NoCall, map[])
  {
    states, steps := [System([], map[d := Client(NONE, NoCall, map[]), e := Client(NONE, NoCall, map[])])], [];
    states, steps := Extended(states, steps, Enter(d, t));
    states, steps := Extended(states, steps, Proceed(d, t));
    states, steps := Extended(states, steps, Serve(d));
    states, steps := Extended(states, steps, TakeAnswer(d, t));
  }

  /** A thread of the second client asks, and the server has to revoke the first. */
  lemma SecondAsks(states: seq<System>, steps: seq<Step>, d: string, e: string, u: nat)
    returns (states': seq<System>, steps': seq<Step>)
    requires IsHistory(states, steps) && d != e
    requires
      var s := states[|steps|];
      s.list == [d] && d in s.clients && e in s.clients && s.clients[e] == Client(NONE, NoCall, map[])
    ensures IsHistory(states', steps') && states <= states'
    ensures
      var s, s' := states[|steps|], states'[|steps'|];
      && s'.list == [e] && d in s'.clients && s'.clients[d] == s.clients[d]
      && e in s'.clients && s'.clients[e] == Client(ACQUIRING, Revoking(d, Asked), map[u := Asking])
  {
    states', steps' := Extended(states, steps, Enter(e, u));
    states', steps' := Extended(states', steps', Proceed(e, u));
    assert states'[|steps'|].clients[e].threads == map[u := Asking];
    VerdictMeaning([d], e);
    assert Pushed([d], e) == [d, e] && [d, e][1..] == [e];
    states', steps' := Extended(states', steps', Serve(e));
  }

  /** The first client is done; the revoke goes through, and the second client has the lock. */
  lemma LockMovesOver(states: seq<System>, steps: seq<Step>, d: string, e: string, t: nat, u: nat)
    returns (states': seq<System>, steps': seq<Step>)
    requires IsHistory(states, steps) && d != e
    requires
      var s := states[|steps|];
      && s.list == [e] && d in s.clients && e in s.clients && s.clients[d] == Client(LOCKED, NoCall, map[t := Owner])
      && s.clients[e] == Client(ACQUIRING, Revoking(d, Asked), map[u := Asking])
    ensures IsHistory(states', steps') && states <= states'
    ensures e in states'[|steps'|].clients && At(states'[|steps'|].clients[e], u, Owner)
  {
    states', steps' := Extended(states, steps, ReleaseLock(d, t));
    states', steps' := Extended(states', steps', RevokeBegins(e));
    states', steps' := Extended(states', steps', RevokeEnds(e));
    states', steps' := Extended(states', steps', ServeAgain(e));
    states', steps' := Extended(states', steps', TakeAnswer(e, u));
  }

  /** For any two clients and any threads there is a history in which a thread of the first owns
      the lock, the second asks for it meanwhile, and gets it when the first is done. */
  lemma OldLockIsPassedOn(d: string, e: string, t: nat, u: nat)
    returns (states: seq<System>, steps: seq<Step>, k: nat)
    requires d != e
    ensures IsHistory(states, steps) && k < |steps|
    ensures d in states[k].clients && At(states[k].clients[d], t, Owner)
    ensures e in states[k].clients && At(states[k].clients[e], u, Asking)
    ensures e in states[|steps|].clients && At(states[|steps|].clients[e], u, Owner)
  {
    states, steps := FirstGetsIt(d, e, t);
    states, steps := SecondAsks(states, steps, d, e, u);
    k := |steps|;
    states, steps := LockMovesOver(states, steps, d, e, t, u);
  }
}
