/** `marshal_state` and `unmarshal_state`, loop by loop. */
module LockTransfer {
  import opened LockServer
  import opened LockState
  import opened Wire

  /** The next key of a std::map iterator. */
  method NextKey(todo: set<int>) returns (k: int)
    requires todo != {}
    ensures k == Least(todo)
  {
    SomeLeast(todo);
    assert IsLeast(Least(todo), todo);
    k :| k in todo && forall x :: x in todo ==> k <= x;
  }

  method MarshalQueues(rep: Marshall, m: map<nat, seq<string>>)
    requires rep.Valid()
    modifies rep, rep.buf
    ensures rep.Valid() && (rep.buf == old(rep.buf) || fresh(rep.buf))
    ensures rep.Content() == old(rep.Content()) + PutMap(m, PutVector)
  {
    ghost var start, ks, i := rep.Content(), Keys(m), 0;
    rep.Int32(|m|);
    Assoc(start, Put32(|m|), PutEntries(m, ks, PutVector));
    var todo := m.Keys;
    while todo != {}
      invariant rep.Valid() && (rep.buf == old(rep.buf) || fresh(rep.buf))
      invariant todo <= m.Keys && i <= |ks| && Ascending(todo) == ks[i..]
      invariant rep.Content() + PutEntries(m, ks[i..], PutVector) == start + PutMap(m, PutVector)
    {
      var name := NextKey(todo);
      ghost var done, tail := rep.Content(), PutEntries(m, ks[i + 1..], PutVector);
      assert ks[i..][1..] == ks[i + 1..] && ks[i] == name;
      Assoc(done, Put64(name), PutVector(m[name]) + tail);
      Assoc(done + Put64(name), PutVector(m[name]), tail);
      rep.Int64(name);
      rep.Vector(m[name]);
      todo := todo - {name};
      i := i + 1;
    }
  }

  method MarshalLocks(rep: Marshall, m: map<nat, bool>)
    requires rep.Valid()
    modifies rep, rep.buf
    ensures rep.Valid() && (rep.buf == old(rep.buf) || fresh(rep.buf))
    ensures rep.Content() == old(rep.Content()) + PutMap(m, PutBool)
  {
    ghost var start, ks, i := rep.Content(), Keys(m), 0;
    rep.Int32(|m|);
    Assoc(start, Put32(|m|), PutEntries(m, ks, PutBool));
    var todo := m.Keys;
    while todo != {}
      invariant rep.Valid() && (rep.buf == old(rep.buf) || fresh(rep.buf))
      invariant todo <= m.Keys && i <= |ks| && Ascending(todo) == ks[i..]
      invariant rep.Content() + PutEntries(m, ks[i..], PutBool) == start + PutMap(m, PutBool)
    {
      var name := NextKey(todo);
      ghost var done, tail := rep.Content(), PutEntries(m, ks[i + 1..], PutBool);
      assert ks[i..][1..] == ks[i + 1..] && ks[i] == name;
      Assoc(done, Put64(name), PutBool(m[name]) + tail);
      Assoc(done + Put64(name), PutBool(m[name]), tail);
      rep.Int64(name);
      rep.Flag(m[name]);
      todo := todo - {name};
      i := i + 1;
    }
  }

  method MarshalTable(rep: Marshall, m: map<nat, nat>)
    requires rep.Valid()
    modifies rep, rep.buf
    ensures rep.Valid() && (rep.buf == old(rep.buf) || fresh(rep.buf))
    ensures rep.Content() == old(rep.Content()) + PutMap(m, Put64)
  {
    ghost var start, ks, i := rep.Content(), Keys(m), 0;
    rep.Int32(|m|);
    Assoc(start, Put32(|m|), PutEntries(m, ks, Put64));
    var todo := m.Keys;
    while todo != {}
      invariant rep.Valid() && (rep.buf == old(rep.buf) || fresh(rep.buf))
      invariant todo <= m.Keys && i <= |ks| && Ascending(todo) == ks[i..]
      invariant rep.Content() + PutEntries(m, ks[i..], Put64) == start + PutMap(m, Put64)
    {
      var name := NextKey(todo);
      ghost var done, tail := rep.Content(), PutEntries(m, ks[i + 1..], Put64);
      assert ks[i..][1..] == ks[i + 1..] && ks[i] == name;
      Assoc(done, Put64(name), Put64(m[name]) + tail);
      Assoc(done + Put64(name), Put64(m[name]), tail);
      rep.Int64(name);
      rep.Int64(m[name]);
      todo := todo - {name};
      i := i + 1;
    }
  }

  method MarshalTables(rep: Marshall, m: Tables)
    requires rep.Valid()
    modifies rep, rep.buf
    ensures rep.Valid() && (rep.buf == old(rep.buf) || fresh(rep.buf))
    ensures rep.Content() == old(rep.Content()) + PutTables(m)
  {
    ghost var start, cs, i := rep.Content(), Ascending(m.Keys), 0;
    AscendingKeys(m.Keys);
    rep.Int32(|m|);
    Assoc(start, Put32(|m|), PutClients(m, cs));
    var todo := m.Keys;
    while todo != {}
      invariant rep.Valid() && (rep.buf == old(rep.buf) || fresh(rep.buf))
      invariant todo <= m.Keys && i <= |cs| && Ascending(todo) == cs[i..]
      invariant rep.Content() + PutClients(m, cs[i..]) == start + PutTables(m)
    {
      var clt := NextKey(todo);
      ghost var done, tail := rep.Content(), PutClients(m, cs[i + 1..]);
      assert cs[i..][1..] == cs[i + 1..] && cs[i] == clt;
      Assoc(done, Put32(clt), PutMap(m[clt], Put64) + tail);
      Assoc(done + Put32(clt), PutMap(m[clt], Put64), tail);
      rep.Int32(clt);
      MarshalTable(rep, m[clt]);
      todo := todo - {clt};
      i := i + 1;
    }
  }

  lemma Joined3(a: string, b: string, c: string)
    ensures "" + a + b + c == a + (b + c)
  {
  }

  method MarshalState(s: LockServer) returns (r: string)
    ensures r == Marshal(s.State())
  {
    var rep := new Marshall();
    MarshalQueues(rep, s.queues);
    MarshalLocks(rep, s.locks);
    MarshalTables(rep, s.released);
    Joined3(PutMap(s.queues, PutVector), PutMap(s.locks, PutBool), PutTables(s.released));
    r := rep.buf[HEADER_SZ..rep.ind];
  }

  lemma OneEntry<V>(n: nat, i: In, m: map<nat, V>, get: In -> (V, In), k: nat, j: In, v: V, l: In)
    requires n > 0 && (k, j) == Get64(i) && (v, l) == get(j)
    ensures GetEntries(n, i, m, get) == GetEntries(n - 1, l, m[k := v], get)
  {
  }

  method UnmarshalQueues(rep: Unmarshall, s: LockServer, n: nat)
    modifies rep, s`queues
    ensures (s.queues, rep.State()) == GetEntries(n, old(rep.State()), old(s.queues), GetVector)
  {
    ghost var whole := GetEntries(n, rep.State(), s.queues, GetVector);
    for i := 0 to n
      invariant GetEntries(n - i, rep.State(), s.queues, GetVector) == whole
    {
      ghost var before := rep.State();
      var name := rep.Int64();
      ghost var between := rep.State();
      var vec := rep.Vector();
      OneEntry(n - i, before, s.queues, GetVector, name, between, vec, rep.State());
      s.queues := s.queues[name := vec];
    }
  }

  method UnmarshalLocks(rep: Unmarshall, s: LockServer, n: nat)
    modifies rep, s`locks
    ensures (s.locks, rep.State()) == GetEntries(n, old(rep.State()), old(s.locks), GetBool)
  {
    ghost var whole := GetEntries(n, rep.State(), s.locks, GetBool);
    for i := 0 to n
      invariant GetEntries(n - i, rep.State(), s.locks, GetBool) == whole
    {
      ghost var before := rep.State();
      var name := rep.Int64();
      ghost var between := rep.State();
      var value := rep.Flag();
      OneEntry(n - i, before, s.locks, GetBool, name, between, value, rep.State());
      s.locks := s.locks[name := value];
    }
  }

  /** Entries are written one by one; the first one creates the client's table. */
  method UnmarshalTable(rep: Unmarshall, s: LockServer, clt: int, n: nat)
    modifies rep, s`released
    ensures
      var (table, k) := GetEntries(n, old(rep.State()), Inner(old(s.released), clt), Get64);
      rep.State() == k && s.released == if n == 0 then old(s.released) else old(s.released)[clt := table]
  {
    ghost var whole := GetEntries(n, rep.State(), Inner(s.released, clt), Get64);
    for i := 0 to n
      invariant GetEntries(n - i, rep.State(), Inner(s.released, clt), Get64) == whole
      invariant s.released == if i == 0 then old(s.released) else old(s.released)[clt := Inner(s.released, clt)]
    {
      ghost var before := rep.State();
      var name := rep.Int64();
      ghost var between := rep.State();
      var value := rep.Int64();
      OneEntry(n - i, before, Inner(s.released, clt), Get64, name, between, value, rep.State());
      var table: Table := Inner(s.released, clt);
      table := table[name := value];
      s.released := s.released[clt := table];
    }
  }

  lemma OneClient(n: nat, i: In, m: Tables, c: int, j: In, size: nat, k: In)
    requires n > 0 && (c, j) == GetInt(i) && (size, k) == Get32(j)
    ensures
      var (table, l) := GetEntries(size, k, Inner(m, c), Get64);
      GetClients(n, i, m) == GetClients(n - 1, l, if size == 0 then m else m[c := table])
  {
  }

  method UnmarshalTables(rep: Unmarshall, s: LockServer, n: nat)
    modifies rep, s`released
    ensures (s.released, rep.State()) == GetClients(n, old(rep.State()), old(s.released))
  {
    ghost var whole := GetClients(n, rep.State(), s.released);
    for i := 0 to n
      invariant GetClients(n - i, rep.State(), s.released) == whole
    {
      ghost var before := rep.State();
      var clt := rep.SignedInt32();
      ghost var between := rep.State();
      var size := rep.Int32();
      OneClient(n - i, before, s.released, clt, between, size, rep.State());
      UnmarshalTable(rep, s, clt, size);
    }
  }

  method UnmarshalState(s: LockServer, state: string)
    modifies s
    ensures s.State() == Unmarshal(old(s.State()), In(state, true)).0
  {
    var rep := new Unmarshall(state);
    var size := rep.Int32();
    UnmarshalQueues(rep, s, size);
    size := rep.Int32();
    UnmarshalLocks(rep, s, size);
    size := rep.Int32();
    UnmarshalTables(rep, s, size);
  }
}
