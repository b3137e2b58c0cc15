/** The caching lock server kept by the replicated state machine. */
module LockServer {
  import opened Sequences

  datatype Status = OK | RETRY

  /** `queues[lid]` is who waits, holder first; `locks[lid]` says the head was granted;
      `released[clt][lid]` is the largest release number executed for that client. */
  datatype Server = Server(locks: map<nat, bool>, queues: map<nat, seq<string>>, released: map<int, map<nat, nat>>)

  const EMPTY: Server := Server(map[], map[], map[])

  // `operator[]` on a std::map: a missing entry reads as the default value.

  function Queue(s: Server, lid: nat): seq<string> {
    if lid in s.queues then s.queues[lid] else []
  }

  predicate Locked(s: Server, lid: nat) {
    lid in s.locks && s.locks[lid]
  }

  function LastRelease(s: Server, clt: int, lid: nat): nat {
    if clt in s.released && lid in s.released[clt] then s.released[clt][lid] else 0
  }

  /** Reading the release number creates its entry. */
  function Touch(s: Server, clt: int, lid: nat): Server {
    SetRelease(s, clt, lid, LastRelease(s, clt, lid))
  }

  function SetRelease(s: Server, clt: int, lid: nat, xid: nat): Server {
    s.(released := s.released[clt := (if clt in s.released then s.released[clt] else map[])[lid := xid]])
  }

  function Joined(q: seq<string>, dst: string): seq<string> {
    if dst in q then q else q + [dst]
  }

  function AfterAcquire(s: Server, clt: int, lid: nat, dst: string, xid: nat): Server {
    var t := Touch(s, clt, lid);
    if xid <= LastRelease(s, clt, lid) then t
    else
      var q := Joined(Queue(s, lid), dst);
      t.(queues := t.queues[lid := q], locks := if q[0] == dst then t.locks[lid := true] else t.locks)
  }

  function AcquireStatus(s: Server, clt: int, lid: nat, dst: string, xid: nat): Status {
    if xid <= LastRelease(s, clt, lid) || Joined(Queue(s, lid), dst)[0] == dst then OK else RETRY
  }

  function AfterRelease(s: Server, clt: int, lid: nat, dst: string, xid: nat): Server {
    if xid <= LastRelease(s, clt, lid) then Touch(s, clt, lid)
    else
      var t := SetRelease(s, clt, lid, xid);
      var q := Queue(s, lid);
      if q != [] && q[0] == dst
      then t.(queues := t.queues[lid := q[1..]], locks := t.locks[lid := false])
      else t.(queues := t.queues[lid := q])
  }

  /** Whom the revoker asks for the lock back. */
  function RevokeTargets(s: Server, lid: nat): seq<string> {
    if Locked(s, lid) && |Queue(s, lid)| > 1 then [Queue(s, lid)[0]] else []
  }

  /** Whom the retryer tells that the lock is free. It goes over the entries of `locks`. */
  function RetryTargets(s: Server, lid: nat): seq<string> {
    if lid in s.locks && !s.locks[lid] && Queue(s, lid) != [] then [Queue(s, lid)[0]] else []
  }

  // ----- the object -----

  class LockServer {
    var locks: map<nat, bool>
    var queues: map<nat, seq<string>>
    var released: map<int, map<nat, nat>>

    ghost function State(): Server
      reads this
    {
      Server(locks, queues, released)
    }

    constructor ()
      ensures State() == EMPTY
    {
      locks, queues, released := map[], map[], map[];
    }

    /** `client_lock_id[clt][lid]`, creating the entry if there is none. */
    method ReleaseNumber(clt: int, lid: nat) returns (x: nat)
      modifies this`released
      ensures x == LastRelease(old(State()), clt, lid)
      ensures State() == Touch(old(State()), clt, lid)
    {
      var inner: map<nat, nat> := if clt in released then released[clt] else map[];
      x := if lid in inner then inner[lid] else 0;
      inner := inner[lid := x];
      released := released[clt := inner];
    }

    method Acquire(clt: int, lid: nat, dst: string, xid: nat) returns (r: Status)
      modifies this
      ensures r == AcquireStatus(old(State()), clt, lid, dst, xid)
      ensures State() == AfterAcquire(old(State()), clt, lid, dst, xid)
    {
      var last := ReleaseNumber(clt, lid);
      if xid < last {
        return OK;
      }
      if xid == last {
        return OK;
      }
      if lid !in queues {
        queues := queues[lid := []];
      }
      var q := queues[lid];
      var position := -1;
      for i := 0 to |q|
        invariant position == -1 && dst !in q[..i]
      {
        if q[i] == dst {
          position := i;
          break;
        }
      }
      assert position < 0 ==> q[..|q|] == q && dst !in q;
      if position < 0 {
        q := q + [dst];
        queues := queues[lid := q];
        position := |q| - 1;
      }
      if position == 0 {
        locks := locks[lid := true];
        return OK;
      }
      return RETRY;
    }

    method Release(clt: int, lid: nat, dst: string, xid: nat) returns (r: Status)
      modifies this
      ensures r == OK
      ensures State() == AfterRelease(old(State()), clt, lid, dst, xid)
    {
      var last := ReleaseNumber(clt, lid);
      if xid < last {
        return OK;
      }
      if xid == last {
        return OK;
      }
      var inner: map<nat, nat> := released[clt];
      inner := inner[lid := xid];
      released := released[clt := inner];
      assert released == SetRelease(old(State()), clt, lid, xid).released by {
        ghost var was: map<nat, nat> := if clt in old(released) then old(released)[clt] else map[];
        assert inner == was[lid := xid];
      }
      if lid !in queues {
        queues := queues[lid := []];
      }
      if |queues[lid]| > 0 && queues[lid][0] == dst {
        locks := locks[lid := false];
        queues := queues[lid := queues[lid][1..]];
      }
      return OK;
    }

    /** The revoker's and the retryer's scan for one lock: whom to ask for the lock back,
        and whom to tell that it is free. Neither changes the server. */
    method Notices(lid: nat) returns (revoke: seq<string>, retry: seq<string>)
      ensures revoke == RevokeTargets(State(), lid) && retry == RetryTargets(State(), lid)
    {
      revoke, retry := [], [];
      if lid in locks {
        var q := if lid in queues then queues[lid] else [];
        if locks[lid] && |q| > 1 {
          revoke := [q[0]];
        }
        if !locks[lid] && |q| > 0 {
          retry := [q[0]];
        }
      }
    }
  }

  // ----- queue discipline -----

  datatype Req =
    | Acquire(clt: int, lid: nat, dst: string, xid: nat)
    | Release(clt: int, lid: nat, dst: string, xid: nat)

  function Execute(s: Server, r: Req): Server {
    match r
    case Acquire(clt, lid, dst, xid) => AfterAcquire(s, clt, lid, dst, xid)
    case Release(clt, lid, dst, xid) => AfterRelease(s, clt, lid, dst, xid)
  }

  /** A request with a number at or below the recorded release changes no queue and no lock. */
  lemma OldRequestsChangeNothing(s: Server, r: Req)
    requires r.xid <= LastRelease(s, r.clt, r.lid)
    ensures Execute(s, r).queues == s.queues && Execute(s, r).locks == s.locks
    ensures forall c, l :: LastRelease(Execute(s, r), c, l) == LastRelease(s, c, l)
  {
  }

  /** Executing a pending acquire again changes no queue, and no other lock. */
  lemma RepeatedAcquireKeepsQueue(s: Server, r: Req)
    requires r.Acquire?
    ensures
      var t := Execute(s, r);
      Execute(t, r).queues == t.queues && Execute(t, r).locks == t.locks
      && AcquireStatus(t, r.clt, r.lid, r.dst, r.xid) == AcquireStatus(s, r.clt, r.lid, r.dst, r.xid)
  {
    var t := Execute(s, r);
    if r.xid > LastRelease(s, r.clt, r.lid) {
      assert Joined(Queue(t, r.lid), r.dst) == Queue(t, r.lid);
      assert t.queues[r.lid := Queue(t, r.lid)] == t.queues;
    }
  }

  /** What happened to one lock so far: everyone who ever joined its queue, in order; how
      many of them have left; and who was told OK by a request that was not outdated, with
      the turn this client had. */
  datatype Turns = Turns(joined: seq<string>, left: nat, granted: set<(nat, string)>)

  /** The turn of a client in the queue: how many joined before it. */
  function TurnOf(t: Turns, q: seq<string>, dst: string): nat {
    t.left + Position(q, dst)
  }

  function Account(s: Server, t: Turns, lid: nat, r: Req): Turns {
    if r.lid != lid || r.xid <= LastRelease(s, r.clt, lid) then t
    else
      var q := Queue(s, lid);
      match r
      case Acquire(clt, _, dst, xid) =>
        var j := if dst in q then t.joined else t.joined + [dst];
        Turns(j, t.left,
              if AcquireStatus(s, clt, lid, dst, xid) == OK then t.granted + {(TurnOf(t, q, dst), dst)} else t.granted)
      case Release(clt, _, dst, xid) =>
        if q != [] && q[0] == dst then t.(left := t.left + 1) else t
  }

  /** A grant went to a client that joined, for the turn at which it joined, and not before
      everybody who joined earlier had left. */
  predicate InTurn(t: Turns, g: (nat, string)) {
    g.0 < |t.joined| && t.joined[g.0] == g.1 && g.0 <= t.left
  }

  /** First come, first served: the queue is what joined minus what left; a lock that is
      taken was granted to the client now at the head; and every grant was in turn. */
  predicate InOrder(s: Server, t: Turns, lid: nat) {
    && t.left <= |t.joined| && Queue(s, lid) == t.joined[t.left..]
    && Distinct(Queue(s, lid))
    && (Locked(s, lid) ==> t.left < |t.joined| && (t.left, t.joined[t.left]) in t.granted)
    && (forall g :: g in t.granted ==> InTurn(t, g))
  }

  lemma JoinedKeeps(q: seq<string>, dst: string)
    ensures Distinct(q) ==> Distinct(Joined(q, dst))
    ensures q != [] ==> Joined(q, dst)[0] == q[0]
    ensures Joined(q, dst) != []
  {
  }

  /** An OK that is not to an outdated request goes to whoever has the turn. */
  lemma GrantIsInTurn(s: Server, t: Turns, lid: nat, r: Req)
    requires InOrder(s, t, lid) && r.Acquire? && r.lid == lid && r.xid > LastRelease(s, r.clt, lid)
    requires AcquireStatus(s, r.clt, lid, r.dst, r.xid) == OK
    ensures
      var u := Account(s, t, lid, r);
      TurnOf(t, Queue(s, lid), r.dst) == t.left && u.left == t.left < |u.joined| && u.joined[t.left] == r.dst
  {
    var q := Queue(s, lid);
    JoinedKeeps(q, r.dst);
    PositionMeaning(q, r.dst);
    assert q != [] ==> q[0] == t.joined[t.left];
  }

  lemma ExecuteKeepsOrder(s: Server, t: Turns, lid: nat, r: Req)
    requires InOrder(s, t, lid)
    ensures InOrder(Execute(s, r), Account(s, t, lid, r), lid)
  {
    if r.lid == lid && r.xid > LastRelease(s, r.clt, lid) {
      if r.Acquire? {
        AcquireKeepsOrder(s, t, lid, r);
      } else {
        ReleaseKeepsOrder(s, t, lid, r);
      }
    }
  }

  lemma AcquireKeepsOrder(s: Server, t: Turns, lid: nat, r: Req)
    requires InOrder(s, t, lid) && r.Acquire? && r.lid == lid && r.xid > LastRelease(s, r.clt, lid)
    ensures InOrder(Execute(s, r), Account(s, t, lid, r), lid)
  {
    var u := Account(s, t, lid, r);
    JoinedKeeps(Queue(s, lid), r.dst);
    assert u.joined[u.left..] == Joined(Queue(s, lid), r.dst);
    if AcquireStatus(s, r.clt, lid, r.dst, r.xid) == OK {
      GrantIsInTurn(s, t, lid, r);
    }
    forall g | g in u.granted
      ensures InTurn(u, g)
    {
      assert g in t.granted ==> InTurn(t, g);
    }
  }

  lemma ReleaseKeepsOrder(s: Server, t: Turns, lid: nat, r: Req)
    requires InOrder(s, t, lid) && r.Release? && r.lid == lid && r.xid > LastRelease(s, r.clt, lid)
    ensures InOrder(Execute(s, r), Account(s, t, lid, r), lid)
  {
    var q, u := Queue(s, lid), Account(s, t, lid, r);
    if q != [] && q[0] == r.dst {
      assert t.joined[t.left + 1..] == q[1..];
      assert !Locked(Execute(s, r), lid);
    }
    forall g | g in u.granted
      ensures InTurn(u, g)
    {
      assert InTurn(t, g);
    }
  }

  function ExecuteAll(s: Server, rs: seq<Req>): Server
    decreases rs
  {
    if rs == [] then s else ExecuteAll(Execute(s, rs[0]), rs[1..])
  }

  function AccountAll(s: Server, t: Turns, lid: nat, rs: seq<Req>): Turns
    decreases rs
  {
    if rs == [] then t else AccountAll(Execute(s, rs[0]), Account(s, t, lid, rs[0]), lid, rs[1..])
  }

  lemma {:induction false} ExecuteAllKeepsOrder(s: Server, t: Turns, lid: nat, rs: seq<Req>)
    requires InOrder(s, t, lid)
    ensures InOrder(ExecuteAll(s, rs), AccountAll(s, t, lid, rs), lid)
    decreases rs
  {
    if rs == [] {
    } else {
      ExecuteKeepsOrder(s, t, lid, rs[0]);
      ExecuteAllKeepsOrder(Execute(s, rs[0]), Account(s, t, lid, rs[0]), lid, rs[1..]);
    }
  }

  /** Queue discipline of every reachable server: whatever requests were executed, in
      whatever order and however often, each lock has been passed on in order of joining. */
  lemma QueueDiscipline(rs: seq<Req>, lid: nat)
    ensures InOrder(ExecuteAll(EMPTY, rs), AccountAll(EMPTY, Turns([], 0, {}), lid, rs), lid)
  {
    ExecuteAllKeepsOrder(EMPTY, Turns([], 0, {}), lid, rs);
  }

  // ----- nobody who waits is overlooked -----

  /** A lock with a queue has an entry, so the scans come by it. */
  predicate Listed(s: Server, lid: nat) {
    Queue(s, lid) != [] ==> lid in s.locks
  }

  lemma ExecuteKeepsListed(s: Server, r: Req, lid: nat)
    requires Listed(s, lid)
    ensures Listed(Execute(s, r), lid)
  {
  }

  lemma {:induction false} ExecuteAllKeepsListed(s: Server, rs: seq<Req>, lid: nat)
    requires Listed(s, lid)
    ensures Listed(ExecuteAll(s, rs), lid)
    decreases rs
  {
    if rs == [] {
    } else {
      ExecuteKeepsListed(s, rs[0], lid);
      ExecuteAllKeepsListed(Execute(s, rs[0]), rs[1..], lid);
    }
  }

  /** Of every reachable server: as long as somebody waits for a lock, its head is told. If the
      lock is free the head is told to retry, and if it is taken and others wait behind, the
      head is asked to give it back; never both. */
  lemma HeadIsNotified(rs: seq<Req>, lid: nat)
    ensures
      var s := ExecuteAll(EMPTY, rs);
      var q := Queue(s, lid);
      && (RetryTargets(s, lid) != [] <==> q != [] && !Locked(s, lid))
      && (RevokeTargets(s, lid) != [] <==> |q| > 1 && Locked(s, lid))
      && (|q| > 1 ==> RetryTargets(s, lid) + RevokeTargets(s, lid) == [q[0]])
  {
    ExecuteAllKeepsListed(EMPTY, rs, lid);
  }

  /** When the head of a queue releases the lock, the next in line is told to retry, and its
      retry is granted. */
  lemma NextIsTold(s: Server, r: Req, again: Req)
    requires r.Release? && r.xid > LastRelease(s, r.clt, r.lid) && |Queue(s, r.lid)| > 1 && Queue(s, r.lid)[0] == r.dst
    requires again.Acquire? && again.lid == r.lid && again.dst == Queue(s, r.lid)[1]
    ensures
      var t := Execute(s, r);
      && RetryTargets(t, r.lid) == [Queue(s, r.lid)[1]]
      && AcquireStatus(t, again.clt, again.lid, again.dst, again.xid) == OK
  {
    var t, q := Execute(s, r), Queue(s, r.lid);
    assert Queue(t, r.lid) == q[1..];
    JoinedKeeps(q[1..], again.dst);
  }
}
