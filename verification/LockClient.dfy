/** The caching lock client: one status per lock, changed under the client's mutex by
    acquiring and releasing threads, the releaser and the two handlers. */
module LockClient {

  datatype Status = NONE | FREE | LOCKED | ACQUIRING | RELEASING | RETRY

  /** Where a thread is inside `acquire(lid)`, or that it came back with the lock. */
  datatype Pc =
    | Waiting            // for the status to become FREE or NONE
    | Ready              // set ACQUIRING, about to call the server
    | Calling(xid: nat)  // the acquire with this number is outstanding
    | AwaitRetry         // was told RETRY, waits for the retry handler
    | Owner              // returned from acquire

  /** Where the releaser is with one lock. */
  datatype Rel = NoRelease | RelReady | RelCalling(xid: nat)

  /** A client: its number and address at the server, its request counter, the status of
      each lock, and where its threads and its releaser are. */
  datatype Client = Client(clt: int, xid: nat, st: map<nat, Status>, threads: map<(nat, nat), Pc>, rel: map<nat, Rel>)

  function StatusOf(c: Client, lid: nat): Status {
    if lid in c.st then c.st[lid] else NONE
  }

  function RelOf(c: Client, lid: nat): Rel {
    if lid in c.rel then c.rel[lid] else NoRelease
  }

  predicate At(c: Client, t: nat, lid: nat, pc: Pc) {
    (t, lid) in c.threads && c.threads[(t, lid)] == pc
  }

  function Move(c: Client, t: nat, lid: nat, pc: Pc): Client {
    c.(threads := c.threads[(t, lid) := pc])
  }

  function SetStatus(c: Client, lid: nat, s: Status): Client {
    c.(st := c.st[lid := s])
  }

  // ----- the critical sections of acquire, release, releaser and retry_handler -----

  /** A thread enters `acquire`. */
  function Enter(c: Client, t: nat, lid: nat): Client {
    Move(SetStatus(c, lid, StatusOf(c, lid)), t, lid, Waiting)
  }

  predicate CanProceed(c: Client, lid: nat) {
    StatusOf(c, lid) == FREE || StatusOf(c, lid) == NONE
  }

  /** The wait ends: a cached lock is taken at once, an absent one is asked for. */
  function Proceed(c: Client, t: nat, lid: nat): Client {
    if StatusOf(c, lid) == NONE
    then Move(SetStatus(c, lid, ACQUIRING), t, lid, Ready)
    else Move(SetStatus(c, lid, LOCKED), t, lid, Owner)
  }

  /** `++xid` and the call. */
  function CallAcquire(c: Client, t: nat, lid: nat): Client {
    Move(c, t, lid, Calling(c.xid + 1)).(xid := c.xid + 1)
  }

  function TakeReply(c: Client, t: nat, lid: nat, ok: bool): Client {
    if ok then Move(SetStatus(c, lid, LOCKED), t, lid, Owner) else Move(c, t, lid, AwaitRetry)
  }

  function GiveBack(c: Client, t: nat, lid: nat): Client {
    SetStatus(c, lid, FREE).(threads := c.threads - {(t, lid)})
  }

  function StartRelease(c: Client, lid: nat): Client {
    SetStatus(c, lid, RELEASING).(rel := c.rel[lid := RelReady])
  }

  function CallRelease(c: Client, lid: nat): Client {
    c.(xid := c.xid + 1, rel := c.rel[lid := RelCalling(c.xid + 1)])
  }

  function EndRelease(c: Client, lid: nat): Client {
    SetStatus(c, lid, NONE).(rel := c.rel[lid := NoRelease])
  }

  /** `retry_handler` overwrites whatever status the lock has. */
  function Retried(c: Client, lid: nat): Client {
    SetStatus(c, lid, RETRY)
  }

  // ----- what every section keeps -----

  /** The thread that is busy getting the lock or has it. */
  predicate Active(c: Client, t: nat, lid: nat) {
    (t, lid) in c.threads && c.threads[(t, lid)] != Waiting
  }

  /** At most one thread is active on a lock; while one is, or while the releaser is at work,
      the status keeps everybody else out. */
  ghost predicate LockOk(c: Client, lid: nat) {
    && (forall t: nat, u: nat :: Active(c, t, lid) && Active(c, u, lid) ==> t == u)
    && (forall t: nat :: Active(c, t, lid) ==> !CanProceed(c, lid) && RelOf(c, lid) == NoRelease)
    && (RelOf(c, lid) != NoRelease ==> StatusOf(c, lid) == RELEASING || StatusOf(c, lid) == RETRY)
    && (forall t: nat, x: nat :: At(c, t, lid, Calling(x)) ==> x <= c.xid)
  }

  ghost predicate ClientOk(c: Client) {
    forall lid: nat {:trigger LockOk(c, lid)} :: LockOk(c, lid)
  }

  /** Nothing about lock `l` changed except that more numbers may have been used. */
  ghost predicate SameAt(c: Client, c': Client, l: nat) {
    && c'.clt == c.clt && c.xid <= c'.xid && StatusOf(c', l) == StatusOf(c, l) && RelOf(c', l) == RelOf(c, l)
    && (forall t: nat {:trigger (t, l) in c'.threads} ::
          ((t, l) in c'.threads <==> (t, l) in c.threads)
          && ((t, l) in c.threads ==> c'.threads[(t, l)] == c.threads[(t, l)]))
  }

  lemma SameLockOk(c: Client, c': Client, l: nat)
    requires SameAt(c, c', l) && LockOk(c, l)
    ensures LockOk(c', l)
  {
    forall t: nat ensures Active(c', t, l) <==> Active(c, t, l) {
      assert (t, l) in c'.threads <==> (t, l) in c.threads;
    }
    forall t: nat, pc ensures At(c', t, l, pc) <==> At(c, t, l, pc) {
      assert (t, l) in c'.threads <==> (t, l) in c.threads;
    }
  }

  lemma OneLockKeeps(c: Client, c': Client, lid: nat)
    requires ClientOk(c) && LockOk(c', lid)
    requires forall l: nat {:trigger SameAt(c, c', l)} :: l != lid ==> SameAt(c, c', l)
    ensures ClientOk(c')
  {
    forall l: nat ensures LockOk(c', l) {
      if l != lid {
        assert LockOk(c, l) && SameAt(c, c', l);
        SameLockOk(c, c', l);
      }
    }
  }

  lemma OnlyThreadActive(c: Client, c': Client, t: nat, lid: nat, pc: Pc)
    requires c'.threads == c.threads[(t, lid) := pc] && pc != Waiting
    requires forall u: nat :: Active(c, u, lid) ==> u == t
    ensures forall u: nat :: Active(c', u, lid) <==> u == t
    ensures forall u: nat, p :: At(c', u, lid, p) && p != Waiting ==> u == t && p == pc
  {
    forall u: nat ensures Active(c', u, lid) <==> u == t {
      if u != t {
        assert (u, lid) != (t, lid);
        assert (u, lid) in c'.threads <==> (u, lid) in c.threads;
        assert Active(c', u, lid) == Active(c, u, lid);
      } else {
        assert c'.threads[(t, lid)] == pc;
      }
    }
    forall u: nat, p | At(c', u, lid, p) && p != Waiting ensures u == t && p == pc {
      assert Active(c', u, lid);
    }
  }

  lemma EnterKeeps(c: Client, t: nat, lid: nat)
    requires ClientOk(c) && (t, lid) !in c.threads
    ensures ClientOk(Enter(c, t, lid))
  {
    var c' := Enter(c, t, lid);
    assert LockOk(c, lid);
    assert forall u: nat :: Active(c', u, lid) <==> Active(c, u, lid);
    assert forall u: nat, pc :: pc != Waiting ==> (At(c', u, lid, pc) <==> At(c, u, lid, pc));
    OneLockKeeps(c, c', lid);
  }

  lemma ProceedKeeps(c: Client, t: nat, lid: nat)
    requires ClientOk(c) && At(c, t, lid, Waiting) && CanProceed(c, lid)
    ensures ClientOk(Proceed(c, t, lid))
  {
    var c' := Proceed(c, t, lid);
    assert LockOk(c, lid);
    OnlyThreadActive(c, c', t, lid, if StatusOf(c, lid) == NONE then Ready else Owner);
    OneLockKeeps(c, c', lid);
  }

  lemma CallAcquireKeeps(c: Client, t: nat, lid: nat)
    requires ClientOk(c) && Active(c, t, lid)
    ensures ClientOk(CallAcquire(c, t, lid))
  {
    var c' := CallAcquire(c, t, lid);
    assert LockOk(c, lid);
    OnlyThreadActive(c, c', t, lid, Calling(c.xid + 1));
    OneLockKeeps(c, c', lid);
  }

  lemma TakeReplyKeeps(c: Client, t: nat, lid: nat, ok: bool)
    requires ClientOk(c) && Active(c, t, lid)
    ensures ClientOk(TakeReply(c, t, lid, ok))
  {
    var c' := TakeReply(c, t, lid, ok);
    assert LockOk(c, lid);
    OnlyThreadActive(c, c', t, lid, if ok then Owner else AwaitRetry);
    OneLockKeeps(c, c', lid);
  }

  lemma GiveBackKeeps(c: Client, t: nat, lid: nat)
    requires ClientOk(c) && Active(c, t, lid)
    ensures ClientOk(GiveBack(c, t, lid)) && forall u: nat :: !Active(GiveBack(c, t, lid), u, lid)
  {
    var c' := GiveBack(c, t, lid);
    assert LockOk(c, lid);
    forall u: nat ensures !Active(c', u, lid) {
      assert (u, lid) in c'.threads ==> u != t && Active(c, u, lid) == Active(c', u, lid);
    }
    assert forall u: nat, pc :: At(c', u, lid, pc) && pc != Waiting ==> Active(c', u, lid);
    OneLockKeeps(c, c', lid);
  }

  lemma StartReleaseKeeps(c: Client, lid: nat)
    requires ClientOk(c) && StatusOf(c, lid) == FREE
    ensures ClientOk(StartRelease(c, lid)) && forall u: nat :: !Active(StartRelease(c, lid), u, lid)
  {
    var c' := StartRelease(c, lid);
    assert LockOk(c, lid);
    assert forall u: nat :: Active(c', u, lid) ==> Active(c, u, lid);
    assert forall u: nat, pc :: At(c', u, lid, pc) && pc != Waiting ==> Active(c', u, lid);
    OneLockKeeps(c, c', lid);
  }

  lemma CallReleaseKeeps(c: Client, lid: nat)
    requires ClientOk(c) && RelOf(c, lid) == RelReady
    ensures ClientOk(CallRelease(c, lid))
  {
    var c' := CallRelease(c, lid);
    assert LockOk(c, lid);
    assert forall u: nat :: Active(c', u, lid) <==> Active(c, u, lid);
    assert forall u: nat, pc :: At(c', u, lid, pc) <==> At(c, u, lid, pc);
    OneLockKeeps(c, c', lid);
  }

  lemma EndReleaseKeeps(c: Client, lid: nat)
    requires ClientOk(c) && RelOf(c, lid) != NoRelease
    ensures ClientOk(EndRelease(c, lid)) && forall u: nat :: !Active(EndRelease(c, lid), u, lid)
  {
    var c' := EndRelease(c, lid);
    assert LockOk(c, lid);
    assert forall u: nat :: Active(c', u, lid) ==> Active(c, u, lid);
    assert forall u: nat, pc :: At(c', u, lid, pc) && pc != Waiting ==> Active(c', u, lid);
    OneLockKeeps(c, c', lid);
  }

  lemma RetriedKeeps(c: Client, lid: nat)
    requires ClientOk(c)
    ensures ClientOk(Retried(c, lid))
  {
    var c' := Retried(c, lid);
    assert LockOk(c, lid);
    assert forall u: nat :: Active(c', u, lid) <==> Active(c, u, lid);
    assert forall u: nat, pc :: At(c', u, lid, pc) <==> At(c, u, lid, pc);
    OneLockKeeps(c, c', lid);
  }

  // ----- the object -----

  class LockClient {
    const clt: int
    var xid: nat
    var st: map<nat, Status>
    ghost var threads: map<(nat, nat), Pc>
    ghost var rel: map<nat, Rel>

    ghost function State(): Client
      reads this
    {
      Client(clt, xid, st, threads, rel)
    }

    /** For every lock at most one thread is past the wait, nobody else can get past it, and
        the releaser works only on locks no thread has. */
    ghost predicate Valid()
      reads this
    {
      ClientOk(State())
    }

    constructor (clt: int)
      ensures Valid() && State() == Client(clt, 0, map[], map[], map[])
    {
      this.clt := clt;
      xid, st, threads, rel := 0, map[], map[], map[];
    }

    method AcquireEnter(ghost t: nat, lid: nat)
      requires Valid() && (t, lid) !in threads
      modifies this
      ensures Valid() && State() == Enter(old(State()), t, lid)
    {
      if lid !in st {
        st := st[lid := NONE];
      }
      threads := threads[(t, lid) := Waiting];
      assert st == old(st)[lid := StatusOf(old(State()), lid)];
      EnterKeeps(old(State()), t, lid);
    }

    /** `go` is false while the thread has to wait; `call` says it must ask the server. */
    method AcquireProceed(ghost t: nat, lid: nat) returns (go: bool, call: bool)
      requires Valid() && lid in st && At(State(), t, lid, Waiting)
      modifies this
      ensures Valid()
      ensures go == CanProceed(old(State()), lid)
      ensures call == (old(StatusOf(State(), lid)) == NONE)
      ensures State() == if go then Proceed(old(State()), t, lid) else old(State())
    {
      go := st[lid] == FREE || st[lid] == NONE;
      call := st[lid] == NONE;
      if go {
        ProceedKeeps(State(), t, lid);
        if call {
          st := st[lid := ACQUIRING];
          threads := threads[(t, lid) := Ready];
        } else {
          st := st[lid := LOCKED];
          threads := threads[(t, lid) := Owner];
        }
      }
    }

    /** The number the next acquire carries. After a RETRY the thread waits for the status
        RETRY before it calls again. */
    method AcquireCall(ghost t: nat, lid: nat) returns (x: nat)
      requires Valid() && lid in st
      requires At(State(), t, lid, Ready) || (At(State(), t, lid, AwaitRetry) && st[lid] == RETRY)
      modifies this
      ensures Valid() && State() == CallAcquire(old(State()), t, lid)
      ensures x == xid
    {
      CallAcquireKeeps(State(), t, lid);
      xid := xid + 1;
      threads := threads[(t, lid) := Calling(xid)];
      x := xid;
    }

    /** The reply to the call that is outstanding. */
    method AcquireReply(ghost t: nat, ghost x: nat, lid: nat, ok: bool)
      requires Valid() && At(State(), t, lid, Calling(x))
      modifies this
      ensures Valid() && State() == TakeReply(old(State()), t, lid, ok)
    {
      TakeReplyKeeps(State(), t, lid, ok);
      if ok {
        st := st[lid := LOCKED];
        threads := threads[(t, lid) := Owner];
      } else {
        threads := threads[(t, lid) := AwaitRetry];
      }
    }

    /** Callers release only what they hold. */
    method Release(ghost t: nat, lid: nat)
      requires Valid() && At(State(), t, lid, Owner)
      modifies this
      ensures Valid() && State() == GiveBack(old(State()), t, lid)
    {
      GiveBackKeeps(State(), t, lid);
      st := st[lid := FREE];
      threads := threads - {(t, lid)};
    }

    /** The releaser's turn at one lock: it starts a release only of a cached, unused lock. */
    method ReleaserVisit(lid: nat) returns (start: bool)
      requires Valid() && lid in st
      modifies this
      ensures Valid()
      ensures start == (old(StatusOf(State(), lid)) == FREE)
      ensures State() == if start then StartRelease(old(State()), lid) else old(State())
    {
      start := st[lid] == FREE;
      if start {
        StartReleaseKeeps(State(), lid);
        st := st[lid := RELEASING];
        rel := rel[lid := RelReady];
      }
    }

    method ReleaserCall(lid: nat) returns (x: nat)
      requires Valid() && RelOf(State(), lid) == RelReady
      modifies this
      ensures Valid() && State() == CallRelease(old(State()), lid) && x == xid
    {
      CallReleaseKeeps(State(), lid);
      xid := xid + 1;
      rel := rel[lid := RelCalling(xid)];
      x := xid;
    }

    method ReleaserEnd(lid: nat)
      requires Valid() && RelOf(State(), lid).RelCalling?
      modifies this
      ensures Valid() && State() == EndRelease(old(State()), lid)
    {
      EndReleaseKeeps(State(), lid);
      st := st[lid := NONE];
      rel := rel[lid := NoRelease];
    }

    /** A retry may come at any time, also when nobody waits for it. */
    method RetryHandler(lid: nat)
      requires Valid()
      modifies this
      ensures Valid() && State() == Retried(old(State()), lid)
    {
      RetriedKeeps(State(), lid);
      st := st[lid := RETRY];
    }
  }
}
