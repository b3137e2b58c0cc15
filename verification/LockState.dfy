/** The lock server's state as one string, for state transfer between replicas. */
module LockState {
  import opened LockServer
  import opened Sequences
  import opened Wire

  // ----- std::map iteration goes in ascending key order -----

  ghost predicate IsLeast(k: int, s: set<int>) {
    k in s && forall x :: x in s ==> k <= x
  }

  lemma {:induction false} LeastExists(s: set<int>, y: int)
    requires y in s
    ensures exists k :: IsLeast(k, s)
  {
    if x :| x in s && x != y {
      var t := s - {y};
      LeastExists(t, x);
      var k :| IsLeast(k, t);
      assert forall z :: z in s ==> z == y || z in t;
      assert IsLeast(if y < k then y else k, s);
    } else {
      assert IsLeast(y, s);
    }
  }

  lemma Pick<T>(s: set<T>) returns (x: T)
    requires s != {}
    ensures x in s
  {
    x :| x in s;
  }

  lemma SomeLeast(s: set<int>)
    requires s != {}
    ensures exists k :: IsLeast(k, s)
  {
    var y := Pick(s);
    LeastExists(s, y);
  }

  ghost function Least(s: set<int>): (k: int)
    requires s != {}
    ensures IsLeast(k, s)
  {
    SomeLeast(s);
    var k :| IsLeast(k, s);
    k
  }

  ghost function Ascending(s: set<int>): seq<int> {
    if s == {} then [] else [Least(s)] + Ascending(s - {Least(s)})
  }

  lemma {:induction false} AscendingKeys(s: set<int>)
    ensures |Ascending(s)| == |s|
    ensures forall k :: k in Ascending(s) <==> k in s
  {
    if s == {} {
    } else {
      AscendingKeys(s - {Least(s)});
    }
  }

  // ----- one map -----

  ghost predicate KeysOf<V>(ks: seq<nat>, m: map<nat, V>) {
    forall k {:trigger k in m} :: k in ks ==> k in m
  }

  ghost function Keys<V>(m: map<nat, V>): (ks: seq<nat>)
    ensures KeysOf(ks, m) && |ks| == |m|
  {
    AscendingKeys(m.Keys);
    var ks := Ascending(m.Keys);
    assert forall i :: 0 <= i < |ks| ==> ks[i] in ks;
    ks
  }

  function PutEntries<V>(m: map<nat, V>, ks: seq<nat>, put: V -> string): string
    requires KeysOf(ks, m)
  {
    if ks == [] then "" else Put64(ks[0]) + (put(m[ks[0]]) + PutEntries(m, ks[1..], put))
  }

  ghost function PutMap<V>(m: map<nat, V>, put: V -> string): string {
    Put32(|m|) + PutEntries(m, Keys(m), put)
  }

  /** The loop that reads `n` more entries into `m`. */
  function GetEntries<V>(n: nat, i: In, m: map<nat, V>, get: In -> (V, In)): (map<nat, V>, In) {
    if n == 0 then (m, i)
    else
      var (k, j) := Get64(i);
      var (v, l) := get(j);
      GetEntries(n - 1, l, m[k := v], get)
  }

  ghost predicate Restores<V>(put: V -> string, get: In -> (V, In), v: V) {
    forall rest {:trigger put(v) + rest} :: get(In(put(v) + rest, true)) == (v, In(rest, true))
  }

  function Lay<V>(onto: map<nat, V>, m: map<nat, V>, ks: seq<nat>): map<nat, V>
    requires KeysOf(ks, m)
    decreases |ks|
  {
    if ks == [] then onto else Lay(onto[ks[0] := m[ks[0]]], m, ks[1..])
  }

  lemma {:induction false} LayAt<V>(onto: map<nat, V>, m: map<nat, V>, ks: seq<nat>, k: nat)
    requires KeysOf(ks, m)
    ensures k in Lay(onto, m, ks) <==> k in onto || k in ks
    ensures k in Lay(onto, m, ks) ==> Lay(onto, m, ks)[k] == if k in ks then m[k] else onto[k]
    decreases |ks|
  {
    if ks == [] {
    } else {
      LayAt(onto[ks[0] := m[ks[0]]], m, ks[1..], k);
    }
  }

  lemma LayAll<V>(onto: map<nat, V>, m: map<nat, V>)
    ensures Lay(onto, m, Keys(m)) == onto + m
  {
    AscendingKeys(m.Keys);
    forall k: nat
      ensures k in Lay(onto, m, Keys(m)) <==> k in onto + m
      ensures k in onto + m ==> Lay(onto, m, Keys(m))[k] == (onto + m)[k]
    {
      LayAt(onto, m, Keys(m), k);
    }
  }

  lemma EntryBack<V>(n: nat, k: nat, v: V, put: V -> string, get: In -> (V, In), onto: map<nat, V>, more: string)
    requires k < B64 && Restores(put, get, v)
    ensures GetEntries(n + 1, In(Put64(k) + (put(v) + more), true), onto, get)
      == GetEntries(n, In(more, true), onto[k := v], get)
  {
    Back64(k, put(v) + more);
  }

  ghost predicate Sendable<V>(m: map<nat, V>, put: V -> string, get: In -> (V, In)) {
    forall k :: k in m ==> k < B64 && Restores(put, get, m[k])
  }

  lemma {:induction false} EntriesBack<V>(m: map<nat, V>, ks: seq<nat>, put: V -> string, get: In -> (V, In),
          onto: map<nat, V>, rest: string)
    requires KeysOf(ks, m) && Sendable(m, put, get)
    ensures GetEntries(|ks|, In(PutEntries(m, ks, put) + rest, true), onto, get) == (Lay(onto, m, ks), In(rest, true))
    decreases |ks|
  {
    if ks == [] {
      assert PutEntries(m, ks, put) + rest == rest;
    } else {
      var k, left := ks[0], ks[1..];
      var tail := PutEntries(m, left, put);
      Assoc(Put64(k), put(m[k]) + tail, rest);
      Assoc(put(m[k]), tail, rest);
      EntryBack(|left|, k, m[k], put, get, onto, tail + rest);
      EntriesBack(m, left, put, get, onto[k := m[k]], rest);
    }
  }

  lemma MapBack<V>(m: map<nat, V>, put: V -> string, get: In -> (V, In), onto: map<nat, V>, rest: string)
    requires |m| < B32 && Sendable(m, put, get)
    ensures
      var (n, j) := Get32(In(PutMap(m, put) + rest, true));
      n == |m| && GetEntries(n, j, onto, get) == (onto + m, In(rest, true))
  {
    AscendingKeys(m.Keys);
    var ks := Keys(m);
    Assoc(Put32(|m|), PutEntries(m, ks, put), rest);
    Back32(|m|, PutEntries(m, ks, put) + rest);
    EntriesBack(m, ks, put, get, onto, rest);
    LayAll(onto, m);
    assert |m| == |m.Keys|;
  }

  // ----- the table of release numbers, a map of maps -----

  type Table = map<nat, nat>
  type Tables = map<int, Table>

  ghost predicate ClientsOf(ks: seq<int>, m: Tables) {
    forall c {:trigger c in m} :: c in ks ==> c in m
  }

  ghost function PutClients(m: Tables, cs: seq<int>): string
    requires ClientsOf(cs, m)
  {
    if cs == [] then "" else Put32(cs[0]) + (PutMap(m[cs[0]], Put64) + PutClients(m, cs[1..]))
  }

  ghost function PutTables(m: Tables): string {
    AscendingKeys(m.Keys);
    Put32(|m|) + PutClients(m, Ascending(m.Keys))
  }

  function Inner(m: Tables, c: int): Table {
    if c in m then m[c] else map[]
  }

  /** The inner map is reached only by writing an entry, so a client with none is not entered. */
  function GetClients(n: nat, i: In, m: Tables): (Tables, In) {
    if n == 0 then (m, i)
    else
      var (c, j) := GetInt(i);
      var (size, k) := Get32(j);
      var (inner, l) := GetEntries(size, k, Inner(m, c), Get64);
      GetClients(n - 1, l, if size == 0 then m else m[c := inner])
  }

  /** One client's table laid over the others. */
  function Laid(onto: Tables, c: int, inner: Table): Tables {
    if |inner| == 0 then onto else onto[c := Inner(onto, c) + inner]
  }

  function LayClients(onto: Tables, m: Tables, cs: seq<int>): Tables
    requires ClientsOf(cs, m)
    decreases |cs|
  {
    if cs == [] then onto else LayClients(Laid(onto, cs[0], m[cs[0]]), m, cs[1..])
  }

  ghost predicate Entered(a: Tables, b: Tables, c: int) {
    c in a || (c in b && b[c] != map[])
  }

  /** `b` laid over `a`, entry by entry; clients of `b` without entries are lost. */
  ghost function OverlayTables(a: Tables, b: Tables): Tables {
    map c | c in a.Keys + b.Keys && Entered(a, b, c) :: Inner(a, c) + Inner(b, c)
  }

  lemma {:induction false} OthersKept(onto: Tables, m: Tables, cs: seq<int>, c: int)
    requires ClientsOf(cs, m) && c !in cs
    ensures c in LayClients(onto, m, cs) <==> c in onto
    ensures c in onto ==> LayClients(onto, m, cs)[c] == onto[c]
    decreases |cs|
  {
    if cs == [] {
    } else {
      OthersKept(Laid(onto, cs[0], m[cs[0]]), m, cs[1..], c);
    }
  }

  lemma {:induction false} AscendingIsDistinct(s: set<int>)
    ensures Distinct(Ascending(s))
  {
    if s == {} {
    } else {
      AscendingIsDistinct(s - {Least(s)});
      AscendingKeys(s - {Least(s)});
    }
  }

  lemma {:induction false} LaidOnce(onto: Tables, m: Tables, cs: seq<int>, c: int)
    requires ClientsOf(cs, m) && Distinct(cs) && c in cs
    ensures c in LayClients(onto, m, cs) <==> Entered(onto, m, c)
    ensures c in LayClients(onto, m, cs) ==> LayClients(onto, m, cs)[c] == Inner(onto, c) + m[c]
    decreases |cs|
  {
    var next := Laid(onto, cs[0], m[cs[0]]);
    if cs[0] == c {
      OthersKept(next, m, cs[1..], c);
      assert |m[c]| == 0 <==> m[c] == map[];
      assert m[c] == map[] ==> Inner(onto, c) + m[c] == Inner(onto, c);
    } else {
      LaidOnce(next, m, cs[1..], c);
    }
  }

  lemma LayClientsAt(onto: Tables, m: Tables, cs: seq<int>, c: int)
    requires ClientsOf(cs, m) && Distinct(cs) && (c in cs <==> c in m)
    ensures c in LayClients(onto, m, cs) <==> Entered(onto, m, c)
    ensures c in LayClients(onto, m, cs) ==> LayClients(onto, m, cs)[c] == Inner(onto, c) + Inner(m, c)
  {
    if c in cs {
      LaidOnce(onto, m, cs, c);
    } else {
      OthersKept(onto, m, cs, c);
      assert Inner(onto, c) + map[] == Inner(onto, c);
    }
  }

  ghost predicate OverlaidAt(l: Tables, a: Tables, b: Tables, c: int) {
    (c in l <==> Entered(a, b, c)) && (c in l ==> l[c] == Inner(a, c) + Inner(b, c))
  }

  lemma OverlaidEverywhere(l: Tables, a: Tables, b: Tables)
    requires forall c {:trigger OverlaidAt(l, a, b, c)} :: OverlaidAt(l, a, b, c)
    ensures l == OverlayTables(a, b)
  {
    var o := OverlayTables(a, b);
    forall c: int
      ensures c in l <==> c in o
    {
      assert OverlaidAt(l, a, b, c);
    }
    forall c | c in l
      ensures l[c] == o[c]
    {
      assert OverlaidAt(l, a, b, c);
    }
    assert l.Keys == o.Keys;
  }

  lemma LayAllClients(onto: Tables, m: Tables)
    requires ClientsOf(Ascending(m.Keys), m)
    ensures LayClients(onto, m, Ascending(m.Keys)) == OverlayTables(onto, m)
  {
    var cs := Ascending(m.Keys);
    var l := LayClients(onto, m, cs);
    AscendingKeys(m.Keys);
    AscendingIsDistinct(m.Keys);
    forall c: int
      ensures OverlaidAt(l, onto, m, c)
    {
      LayClientsAt(onto, m, cs, c);
    }
    OverlaidEverywhere(l, onto, m);
  }

  ghost predicate FitsTable(m: Table) {
    |m| < B32 && forall k :: k in m ==> k < B64 && m[k] < B64
  }

  ghost predicate FitsTables(m: Tables) {
    |m| < B32 && forall c :: c in m ==> -0x8000_0000 <= c < 0x8000_0000 && FitsTable(m[c])
  }

  lemma TableBack(m: Table, onto: Table, rest: string)
    requires FitsTable(m)
    ensures
      var (n, j) := Get32(In(PutMap(m, Put64) + rest, true));
      n == |m| && GetEntries(n, j, onto, Get64) == (onto + m, In(rest, true))
  {
    forall k | k in m
      ensures Restores(Put64, Get64, m[k])
    {
      forall more
        ensures Get64(In(Put64(m[k]) + more, true)) == (m[k], In(more, true))
      {
        Back64(m[k], more);
      }
    }
    MapBack(m, Put64, Get64, onto, rest);
  }

  lemma ClientBack(n: nat, c: int, inner: Table, onto: Tables, more: string)
    requires -0x8000_0000 <= c < 0x8000_0000 && FitsTable(inner)
    ensures GetClients(n + 1, In(Put32(c) + (PutMap(inner, Put64) + more), true), onto)
      == GetClients(n, In(more, true), Laid(onto, c, inner))
  {
    BackInt(c, PutMap(inner, Put64) + more);
    TableBack(inner, Inner(onto, c), more);
  }

  lemma {:induction false} ClientsBack(m: Tables, cs: seq<int>, onto: Tables, rest: string)
    requires FitsTables(m) && ClientsOf(cs, m)
    ensures GetClients(|cs|, In(PutClients(m, cs) + rest, true), onto) == (LayClients(onto, m, cs), In(rest, true))
    decreases |cs|
  {
    if cs == [] {
      assert PutClients(m, cs) + rest == rest;
    } else {
      var c, left := cs[0], cs[1..];
      var tail := PutClients(m, left);
      Assoc(Put32(c), PutMap(m[c], Put64) + tail, rest);
      Assoc(PutMap(m[c], Put64), tail, rest);
      ClientBack(|left|, c, m[c], onto, tail + rest);
      ClientsBack(m, left, Laid(onto, c, m[c]), rest);
    }
  }

  lemma TablesBack(m: Tables, onto: Tables)
    requires FitsTables(m)
    ensures
      var (n, j) := Get32(In(PutTables(m), true));
      GetClients(n, j, onto) == (OverlayTables(onto, m), In("", true))
  {
    AscendingKeys(m.Keys);
    var cs := Ascending(m.Keys);
    Back32(|m|, PutClients(m, cs));
    ClientsBack(m, cs, onto, "");
    LayAllClients(onto, m);
    assert PutClients(m, cs) + "" == PutClients(m, cs) && |m| == |m.Keys|;
  }

  // ----- the whole state -----

  ghost function Marshal(s: Server): string {
    PutMap(s.queues, PutVector) + (PutMap(s.locks, PutBool) + PutTables(s.released))
  }

  function Unmarshal(t: Server, i: In): (Server, In) {
    var (n, i1) := Get32(i);
    var (queues, i2) := GetEntries(n, i1, t.queues, GetVector);
    var (n2, i3) := Get32(i2);
    var (locks, i4) := GetEntries(n2, i3, t.locks, GetBool);
    var (n3, i5) := Get32(i4);
    var (released, i6) := GetClients(n3, i5, t.released);
    (Server(locks, queues, released), i6)
  }

  ghost function Overlay(t: Server, s: Server): Server {
    Server(t.locks + s.locks, t.queues + s.queues, OverlayTables(t.released, s.released))
  }

  /** Sizes, identifiers and names fit their fields on the wire. */
  ghost predicate Fits(s: Server) {
    && |s.queues| < B32 && (forall k :: k in s.queues ==> k < B64 && ShortStrings(s.queues[k]))
    && |s.locks| < B32 && (forall k :: k in s.locks ==> k < B64)
    && FitsTables(s.released)
  }

  lemma QueuesBack(m: map<nat, seq<string>>, onto: map<nat, seq<string>>, rest: string)
    requires |m| < B32 && forall k :: k in m ==> k < B64 && ShortStrings(m[k])
    ensures
      var (n, j) := Get32(In(PutMap(m, PutVector) + rest, true));
      GetEntries(n, j, onto, GetVector) == (onto + m, In(rest, true))
  {
    forall k | k in m
      ensures Restores(PutVector, GetVector, m[k])
    {
      forall more
        ensures GetVector(In(PutVector(m[k]) + more, true)) == (m[k], In(more, true))
      {
        BackVector(m[k], more);
      }
    }
    MapBack(m, PutVector, GetVector, onto, rest);
  }

  lemma LocksBack(m: map<nat, bool>, onto: map<nat, bool>, rest: string)
    requires |m| < B32 && forall k :: k in m ==> k < B64
    ensures
      var (n, j) := Get32(In(PutMap(m, PutBool) + rest, true));
      GetEntries(n, j, onto, GetBool) == (onto + m, In(rest, true))
  {
    forall k | k in m
      ensures Restores(PutBool, GetBool, m[k])
    {
      forall more
        ensures GetBool(In(PutBool(m[k]) + more, true)) == (m[k], In(more, true))
      {
        BackBool(m[k], more);
      }
    }
    MapBack(m, PutBool, GetBool, onto, rest);
  }

  /** Into any server, unmarshalling lays the sent state over what is there, and it
      consumes the string exactly. */
  lemma UnmarshalOverlays(t: Server, s: Server)
    requires Fits(s)
    ensures Unmarshal(t, In(Marshal(s), true)) == (Overlay(t, s), In("", true))
  {
    QueuesBack(s.queues, t.queues, PutMap(s.locks, PutBool) + PutTables(s.released));
    LocksBack(s.locks, t.locks, PutTables(s.released));
    TablesBack(s.released, t.released);
  }

  lemma LaidOnNothing(b: Tables)
    ensures OverlayTables(map[], b) == b <==> forall c :: c in b ==> b[c] != map[]
  {
    var o := OverlayTables(map[], b);
    forall c | c in b
      ensures c in o <==> b[c] != map[]
      ensures c in o ==> o[c] == b[c]
    {
      assert Entered(map[], b, c) <==> b[c] != map[];
      assert map[] + b[c] == b[c];
    }
    if forall c :: c in b ==> b[c] != map[] {
      assert o.Keys == b.Keys;
    } else {
      var c :| c in b && b[c] == map[];
      assert c !in o;
    }
  }

  ghost predicate NoEmptyTable(m: Tables) {
    forall c :: c in m ==> m[c] != map[]
  }

  lemma OverlayNothing(s: Server)
    ensures Overlay(EMPTY, s) == s <==> NoEmptyTable(s.released)
  {
    LaidOnNothing(s.released);
    assert map[] + s.locks == s.locks;
    assert map[] + s.queues == s.queues;
  }

  /** Into a fresh server the state comes back exactly if and only if no client has an
      empty table of release numbers. */
  lemma FreshRestores(s: Server)
    requires Fits(s)
    ensures Unmarshal(EMPTY, In(Marshal(s), true)) == (s, In("", true)) <==> NoEmptyTable(s.released)
  {
    UnmarshalOverlays(EMPTY, s);
    OverlayNothing(s);
  }

  // ----- every reachable server fits, and has no empty table -----

  ghost predicate FitsReq(r: Req) {
    -0x8000_0000 <= r.clt < 0x8000_0000 && r.lid < B64 && r.xid < B64 && |r.dst| < B32
  }

  ghost predicate SmallTable(m: Table, n: nat) {
    0 < |m| <= n && forall k :: k in m ==> k < B64 && m[k] < B64
  }

  ghost predicate SmallTables(m: Tables, n: nat) {
    |m| <= n && forall c {:trigger m[c]} :: c in m ==> -0x8000_0000 <= c < 0x8000_0000 && SmallTable(m[c], n)
  }

  ghost predicate SmallQueue(q: seq<string>, n: nat) {
    |q| <= n && forall i :: 0 <= i < |q| ==> |q[i]| < B32
  }

  ghost predicate SmallQueues(m: map<nat, seq<string>>, n: nat) {
    |m| <= n && forall k {:trigger m[k]} :: k in m ==> k < B64 && SmallQueue(m[k], n)
  }

  ghost predicate SmallLocks(m: map<nat, bool>, n: nat) {
    |m| <= n && forall k :: k in m ==> k < B64
  }

  /** What `n` requests can have built. */
  ghost predicate Small(s: Server, n: nat) {
    SmallQueues(s.queues, n) && SmallLocks(s.locks, n) && SmallTables(s.released, n)
  }

  lemma GrownQueues(m: map<nat, seq<string>>, lid: nat, q: seq<string>, n: nat)
    requires SmallQueues(m, n) && lid < B64 && SmallQueue(q, n + 1)
    ensures SmallQueues(m[lid := q], n + 1) && SmallQueues(m, n + 1)
  {
  }

  lemma GrownTables(m: Tables, clt: int, lid: nat, xid: nat, n: nat)
    requires SmallTables(m, n) && lid < B64 && xid < B64 && -0x8000_0000 <= clt < 0x8000_0000
    ensures SmallTables(m[clt := Inner(m, clt)[lid := xid]], n + 1)
  {
    var t := Inner(m, clt)[lid := xid];
    assert lid in t;
    assert clt in m ==> SmallTable(m[clt], n);
  }

  lemma TablesSmall(s: Server, r: Req, n: nat)
    requires SmallTables(s.released, n) && FitsReq(r)
    ensures SmallTables(Execute(s, r).released, n + 1)
  {
    var last := LastRelease(s, r.clt, r.lid);
    assert last < B64 by {
      assert r.clt in s.released ==> SmallTable(s.released[r.clt], n);
    }
    var xid := if r.Release? && last < r.xid then r.xid else last;
    GrownTables(s.released, r.clt, r.lid, xid, n);
    assert Execute(s, r).released == s.released[r.clt := Inner(s.released, r.clt)[r.lid := xid]];
  }

  lemma ExecuteSmall(s: Server, r: Req, n: nat)
    requires Small(s, n) && FitsReq(r)
    ensures Small(Execute(s, r), n + 1)
  {
    TablesSmall(s, r, n);
    if LastRelease(s, r.clt, r.lid) < r.xid {
      QueueSmall(s, r, n);
    } else {
      OldRequestsChangeNothing(s, r);
    }
  }

  lemma QueueSmall(s: Server, r: Req, n: nat)
    requires SmallQueues(s.queues, n) && FitsReq(r) && LastRelease(s, r.clt, r.lid) < r.xid
    ensures SmallQueues(Execute(s, r).queues, n + 1)
  {
    var q := Queue(s, r.lid);
    var q' := if r.Acquire? then Joined(q, r.dst) else if q != [] && q[0] == r.dst then q[1..] else q;
    assert SmallQueue(q', n + 1) by {
      assert SmallQueue(q, n);
    }
    GrownQueues(s.queues, r.lid, q', n);
    assert Execute(s, r).queues == s.queues[r.lid := q'];
  }

  lemma {:induction false} ExecuteAllSmall(s: Server, rs: seq<Req>, n: nat)
    requires Small(s, n) && forall r :: r in rs ==> FitsReq(r)
    ensures Small(ExecuteAll(s, rs), n + |rs|)
    decreases rs
  {
    if rs == [] {
    } else {
      ExecuteSmall(s, rs[0], n);
      ExecuteAllSmall(Execute(s, rs[0]), rs[1..], n + 1);
    }
  }

  lemma SmallFits(s: Server, n: nat)
    requires Small(s, n) && n < B32
    ensures Fits(s) && NoEmptyTable(s.released)
  {
    forall c | c in s.released
      ensures s.released[c] != map[] && FitsTable(s.released[c])
    {
      assert SmallTable(s.released[c], n);
    }
  }

  /** State transfer is exact: whatever fewer than 2^32 well-sized requests a server has
      executed, sending its state to a fresh server reproduces it and leaves nothing unread. */
  lemma ReachableStateRestored(rs: seq<Req>)
    requires |rs| < B32 && forall r :: r in rs ==> FitsReq(r)
    ensures Unmarshal(EMPTY, In(Marshal(ExecuteAll(EMPTY, rs)), true)) == (ExecuteAll(EMPTY, rs), In("", true))
  {
    ExecuteAllSmall(EMPTY, rs, 0);
    SmallFits(ExecuteAll(EMPTY, rs), |rs|);
    FreshRestores(ExecuteAll(EMPTY, rs));
  }
}
