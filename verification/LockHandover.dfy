/** A history in which two clients compete for a lock and both get it. */
module LockHandover {
  import S = LockServer
  import opened LockClient
  import opened LockSystem

  /** One more step after a history. */
  lemma Extended(states: seq<System>, steps: seq<Step>, step: Step) returns (states': seq<System>, steps': seq<Step>)
    requires IsHistory(states, steps) && Enabled(states[|steps|], step)
    ensures IsHistory(states', steps') && steps' == steps + [step]
    ensures states' == states + [Apply(states[|steps|], step)]
  {
    states', steps' := states + [Apply(states[|steps|], step)], steps + [step];
    forall i: nat | i < |steps'|
      ensures StepAt(states', steps', i)
    {
      assert i < |steps| ==> StepAt(states, steps, i);
    }
  }

  /** Everything but client `d` is as it was; requests and replies are only added. */
  predicate OnlyClient(s: System, t: System, d: string) {
    && d in s.clients && d in t.clients && t.clients == s.clients[d := t.clients[d]]
    && t.clients[d].clt == s.clients[d].clt && s.reqs <= t.reqs && s.reps <= t.reps
  }

  /** A thread comes in and its acquire goes out. */
  lemma Asks(states: seq<System>, steps: seq<Step>, d: string, t: nat, lid: nat)
    returns (states': seq<System>, steps': seq<Step>)
    requires IsHistory(states, steps) && d in states[|steps|].clients
    requires
      var c := states[|steps|].clients[d];
      (t, lid) !in c.threads && StatusOf(c, lid) == NONE && RelOf(c, lid) == NoRelease
    ensures IsHistory(states', steps') && states <= states'
    ensures
      var s, s' := states[|steps|], states'[|steps'|];
      && OnlyClient(s, s', d) && s'.srv == s.srv
      && var c, c' := s.clients[d], s'.clients[d];
         && c'.xid == c.xid + 1 && At(c', t, lid, Calling(c'.xid)) && RelOf(c', lid) == NoRelease
         && S.Acquire(c.clt, lid, d, c'.xid) in s'.reqs
  {
    states', steps' := Extended(states, steps, EnterAcquire(d, t, lid));
    states', steps' := Extended(states', steps', ProceedAcquire(d, t, lid));
    states', steps' := Extended(states', steps', SendAcquire(d, t, lid));
  }

  /** The server executes the acquire, and the thread takes the answer. */
  lemma IsAnswered(states: seq<System>, steps: seq<Step>, d: string, t: nat, lid: nat, x: nat)
    returns (states': seq<System>, steps': seq<Step>)
    requires IsHistory(states, steps) && d in states[|steps|].clients
    requires At(states[|steps|].clients[d], t, lid, Calling(x))
    requires S.Acquire(states[|steps|].clients[d].clt, lid, d, x) in states[|steps|].reqs
    ensures IsHistory(states', steps') && states <= states'
    ensures
      var s, s' := states[|steps|], states'[|steps'|];
      && OnlyClient(s, s', d)
      && var c, c' := s.clients[d], s'.clients[d];
         var ok := S.AcquireStatus(s.srv, c.clt, lid, d, x) == S.OK;
         && s'.srv == S.AfterAcquire(s.srv, c.clt, lid, d, x)
         && c' == TakeReply(c, t, lid, ok)
  {
    var s := states[|steps|];
    var c := s.clients[d];
    var r := S.Acquire(c.clt, lid, d, x);
    var ok := S.AcquireStatus(s.srv, c.clt, lid, d, x) == S.OK;
    states', steps' := Extended(states, steps, ServerExecutes(r));
    states', steps' := Extended(states', steps', TakeAcquire(d, t, lid, x, ok));
  }

  /** The owner is done with the lock, and the releaser gives it back to the server. */
  lemma GivesBack(states: seq<System>, steps: seq<Step>, d: string, t: nat, lid: nat)
    returns (states': seq<System>, steps': seq<Step>)
    requires IsHistory(states, steps) && d in states[|steps|].clients
    requires At(states[|steps|].clients[d], t, lid, Owner) && RelOf(states[|steps|].clients[d], lid) == NoRelease
    ensures IsHistory(states', steps') && states <= states'
    ensures
      var s, s' := states[|steps|], states'[|steps'|];
      && OnlyClient(s, s', d)
      && s'.srv == S.AfterRelease(s.srv, s.clients[d].clt, lid, d, s.clients[d].xid + 1)
  {
    var c := states[|steps|].clients[d];
    states', steps' := SendsRelease(states, steps, d, t, lid);
    states', steps' := Extended(states', steps', ServerExecutes(S.Release(c.clt, lid, d, c.xid + 1)));
    states', steps' := Extended(states', steps', ReleaserTake(d, lid, c.xid + 1));
  }

  lemma SendsRelease(states: seq<System>, steps: seq<Step>, d: string, t: nat, lid: nat)
    returns (states': seq<System>, steps': seq<Step>)
    requires IsHistory(states, steps) && d in states[|steps|].clients
    requires At(states[|steps|].clients[d], t, lid, Owner) && RelOf(states[|steps|].clients[d], lid) == NoRelease
    ensures IsHistory(states', steps') && states <= states'
    ensures
      var s, s' := states[|steps|], states'[|steps'|];
      && OnlyClient(s, s', d) && s'.srv == s.srv
      && var c, c' := s.clients[d], s'.clients[d];
         RelOf(c', lid) == RelCalling(c.xid + 1) && S.Release(c.clt, lid, d, c.xid + 1) in s'.reqs
  {
    states', steps' := Extended(states, steps, ReleaseLock(d, t, lid));
    states', steps' := Extended(states', steps', ReleaserStart(d, lid));
    states', steps' := Extended(states', steps', ReleaserSend(d, lid));
  }

  /** A thread that was told RETRY gets a retry and asks again. */
  lemma AsksAgain(states: seq<System>, steps: seq<Step>, d: string, t: nat, lid: nat)
    returns (states': seq<System>, steps': seq<Step>)
    requires IsHistory(states, steps) && d in states[|steps|].clients
    requires At(states[|steps|].clients[d], t, lid, AwaitRetry)
    ensures IsHistory(states', steps') && states <= states'
    ensures
      var s, s' := states[|steps|], states'[|steps'|];
      && OnlyClient(s, s', d) && s'.srv == s.srv
      && var c, c' := s.clients[d], s'.clients[d];
         c'.xid == c.xid + 1 && At(c', t, lid, Calling(c'.xid)) && S.Acquire(c.clt, lid, d, c'.xid) in s'.reqs
  {
    states', steps' := Extended(states, steps, RetryArrives(d, lid));
    states', steps' := Extended(states', steps', SendAcquire(d, t, lid));
  }

  // ----- what the server makes of it -----

  function First(m: int, lid: nat, d: string): S.Server {
    S.AfterAcquire(S.EMPTY, m, lid, d, 1)
  }

  function Second(m: int, n: int, lid: nat, d: string, e: string): S.Server {
    S.AfterAcquire(First(m, lid, d), n, lid, e, 1)
  }

  lemma ServerTakesTurns(m: int, n: int, lid: nat, d: string, e: string)
    requires m != n && d != e
    ensures S.AcquireStatus(S.EMPTY, m, lid, d, 1) == S.OK
    ensures S.AcquireStatus(First(m, lid, d), n, lid, e, 1) == S.RETRY
    ensures
      var s := S.AfterRelease(Second(m, n, lid, d, e), m, lid, d, 2);
      S.RetryTargets(s, lid) == [e] && S.AcquireStatus(s, n, lid, e, 2) == S.OK
  {
    assert S.Queue(First(m, lid, d), lid) == [d];
    assert S.Queue(Second(m, n, lid, d, e), lid) == [d, e];
    var r, again := S.Release(m, lid, d, 2), S.Acquire(n, lid, e, 2);
    S.NextIsTold(Second(m, n, lid, d, e), r, again);
  }

  /** Client `d` gets the lock; client `e` asks for it and is told to retry. */
  lemma OneHasItOneWaits(d: string, e: string, m: int, n: int, lid: nat, t: nat, u: nat)
    returns (states: seq<System>, steps: seq<Step>)
    requires d != e && m != n
    ensures IsHistory(states, steps)
    ensures
      var s := states[|steps|];
      && d in s.clients && e in s.clients && s.srv == Second(m, n, lid, d, e)
      && var c, b := s.clients[d], s.clients[e];
         && c.clt == m && c.xid == 1 && At(c, t, lid, Owner) && RelOf(c, lid) == NoRelease
         && b.clt == n && b.xid == 1 && At(b, u, lid, AwaitRetry)
  {
    ServerTakesTurns(m, n, lid, d, e);
    var clients := map[d := Client(m, 0, map[], map[], map[]), e := Client(n, 0, map[], map[], map[])];
    var s0 := System(S.EMPTY, clients, {}, {});
    states, steps := [s0], [];
    states, steps := Asks(states, steps, d, t, lid);
    states, steps := IsAnswered(states, steps, d, t, lid, 1);
    states, steps := Asks(states, steps, e, u, lid);
    states, steps := IsAnswered(states, steps, e, u, lid, 1);
  }

  /** For any two clients, any lock and any threads there is a history in which a thread of the
      first client owns the lock at step `k` while the second client waits for it, the first
      gives it back, the server names the second to be told, and its thread owns the lock. */
  lemma LockIsPassedOn(d: string, e: string, m: int, n: int, lid: nat, t: nat, u: nat)
    returns (states: seq<System>, steps: seq<Step>, k: nat, l: nat)
    requires d != e && m != n
    ensures IsHistory(states, steps) && k < l < |states|
    ensures d in states[k].clients && At(states[k].clients[d], t, lid, Owner)
    ensures e in states[k].clients && At(states[k].clients[e], u, lid, AwaitRetry)
    ensures S.RetryTargets(states[l].srv, lid) == [e]
    ensures e in states[|steps|].clients && At(states[|steps|].clients[e], u, lid, Owner)
  {
    ServerTakesTurns(m, n, lid, d, e);
    states, steps := OneHasItOneWaits(d, e, m, n, lid, t, u);
    k := |steps|;
    states, steps := GivesBack(states, steps, d, t, lid);
    l := |steps|;
    states, steps := AsksAgain(states, steps, e, u, lid);
    states, steps := IsAnswered(states, steps, e, u, lid, 2);
  }
}
