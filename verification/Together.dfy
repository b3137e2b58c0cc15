/** Histories in which the replicas work together: a second node joins, takes part in the
    synchronisation, and executes a request before it is acknowledged. */
module Together {
  import opened Names
  import opened Views
  import opened Primaries
  import opened Rsm
  import opened RsmSystem
  import opened Newcomer

  /** Both nodes have committed view 2 and follow `a`. */
  predicate BothAtTwo(cf: Config, s: System, a: string, b: string) {
    && a != b && a in s.nodes && b in s.nodes && cf.view(2) == [a, b]
    && var x, y := s.nodes[a], s.nodes[b];
       && x.vidCommit == 2 && x.primary == a && x.busy == Idle
       && y.vidCommit == 2 && y.primary == a && y.busy == Idle
  }

  lemma SecondJoins(a: string, b: string) returns (cf: Config, states: seq<System>, steps: seq<Step>)
    requires IsName(a) && IsName(b) && a != b
    ensures IsHistory(cf, states, steps) && BothAtTwo(cf, states[|steps|], a, b)
    ensures
      var s := states[|steps|];
      s.nodes[a].pc == Top && s.nodes[b].pc == Top && s.used == {}
  {
    cf := Config(ThreeViews(a, b), 3, a);
    ThreeViewsAreChain(a, b);
    states, steps := [System(map[a := Fresh(a), b := Fresh(a)], {}, {}, {})], [];
    states, steps := Extended(cf, states, steps, Begin(a, 1));
    states, steps := RecoverAlone(cf, states, steps, a, 1);
    states, steps := Extended(cf, states, steps, Commit(a));
    states, steps := Extended(cf, states, steps, Wake(a));
    states, steps := Extended(cf, states, steps, Begin(b, 2));
  }

  /** The primary opens the gate and waits for the other node. */
  lemma GateOpens(cf: Config, states: seq<System>, steps: seq<Step>, a: string, b: string)
    returns (states': seq<System>, steps': seq<Step>)
    requires IsHistory(cf, states, steps) && BothAtTwo(cf, states[|steps|], a, b)
    requires states[|steps|].nodes[a].pc == Top && states[|steps|].nodes[b].pc == Top
    ensures IsHistory(cf, states', steps') && BothAtTwo(cf, states'[|steps'|], a, b)
    ensures
      var s := states'[|steps'|];
      var x, y := s.nodes[a], s.nodes[b];
      && x.pc == WaitBackups && x.insync && x.vidInsync == 2 && x.backups == [b] && s.used == states[|steps|].used
      && y.pc == Transfer && y.vidInsync == 2 && y.syncFrom == a
  {
    states', steps' := Extended(cf, states, steps, RecoveryTop(a));
    states', steps' := Extended(cf, states', steps', PassInvoke(a));
    assert Erased([a, b], a) == [b] by {
      assert [a, b][1..] == [b];
    }
    states', steps' := Extended(cf, states', steps', OpenBackups(a));
    states', steps' := Extended(cf, states', steps', RecoveryTop(b));
  }

  /** Transfer, report, and both are done with the view change. */
  lemma GateCloses(cf: Config, states: seq<System>, steps: seq<Step>, a: string, b: string)
    returns (states': seq<System>, steps': seq<Step>)
    requires IsHistory(cf, states, steps) && BothAtTwo(cf, states[|steps|], a, b)
    requires
      var x, y := states[|steps|].nodes[a], states[|steps|].nodes[b];
      && x.pc == WaitBackups && x.insync && x.vidInsync == 2 && x.backups == [b]
      && y.pc == Transfer && y.vidInsync == 2 && y.syncFrom == a
    ensures IsHistory(cf, states', steps') && Ready(cf, states'[|steps'|], a, b)
    ensures states'[|steps'|].used == states[|steps|].used
  {
    var x, y := states[|steps|].nodes[a], states[|steps|].nodes[b];
    states', steps' := Extended(cf, states, steps, TransferHandled(a, b, 2));
    states', steps' := Extended(cf, states', steps', TransferTaken(b, x.last, Sent(x, y.last)));
    states', steps' := Extended(cf, states', steps', SendDone(b));
    assert Erased([b], b) == [] by {
      assert [b][1..] == [];
    }
    states', steps' := Extended(cf, states', steps', DoneHandled(a, b, 2));
    states', steps' := Extended(cf, states', steps', CloseBackups(a));
    states', steps' := Extended(cf, states', steps', DoneTaken(b));
  }

  /** View 2 is in force on both. */
  predicate Ready(cf: Config, s: System, a: string, b: string) {
    && a != b && a in s.nodes && b in s.nodes && cf.view(2) == [a, b]
    && var x, y := s.nodes[a], s.nodes[b];
       && x.vidCommit == 2 && x.primary == a && x.busy == Idle && !x.inviewchange && x.myvs == Stamp(2, 1)
       && y.vidCommit == 2 && y.primary == a && y.busy == Idle && !y.inviewchange && y.myvs == Stamp(2, 1)
  }

  lemma RequestForwarded(cf: Config, states: seq<System>, steps: seq<Step>, a: string, b: string, req: nat)
    returns (states': seq<System>, steps': seq<Step>)
    requires IsHistory(cf, states, steps) && Ready(cf, states[|steps|], a, b) && req !in states[|steps|].used
    ensures IsHistory(cf, states', steps')
    ensures
      var s, t := states[|steps|], states'[|steps'|];
      && t.nodes == s.nodes[a := s.nodes[a].(busy := Serving(req, Stamp(2, 1), [a, b], 1))]
      && Invoke(req, Stamp(2, 1), b) in t.msgs
  {
    states', steps' := Extended(cf, states, steps, ClientStarts(a, req));
    states', steps' := Extended(cf, states', steps', SkipSelf(a));
    states', steps' := Extended(cf, states', steps', Forward(a));
  }

  /** The request is forwarded to the backup, which executes it. */
  lemma BackupExecutes(cf: Config, states: seq<System>, steps: seq<Step>, a: string, b: string, req: nat)
    returns (states': seq<System>, steps': seq<Step>)
    requires IsHistory(cf, states, steps) && Ready(cf, states[|steps|], a, b) && req !in states[|steps|].used
    ensures IsHistory(cf, states', steps')
    ensures
      var s, t := states[|steps|], states'[|steps'|];
      && a in t.nodes && t.nodes[a] == s.nodes[a].(busy := Serving(req, Stamp(2, 1), [a, b], 1))
      && b in t.nodes && t.nodes[b] == Execute(s.nodes[b], req, 2) && InvokeOk(req, 2, b) in t.msgs
  {
    states', steps' := RequestForwarded(cf, states, steps, a, b, req);
    states', steps' := Extended(cf, states', steps', InvokeStarts(b, req, Stamp(2, 1)));
    states', steps' := Extended(cf, states', steps', InvokeRuns(b));
  }

  /** A request is forwarded, executed by the backup, then by the primary, and acknowledged. */
  lemma RequestServed(cf: Config, states: seq<System>, steps: seq<Step>, a: string, b: string, req: nat)
    returns (states': seq<System>, steps': seq<Step>)
    requires IsHistory(cf, states, steps) && Ready(cf, states[|steps|], a, b) && req !in states[|steps|].used
    ensures IsHistory(cf, states', steps') && Ready(cf, states'[|steps'|], a, b)
    ensures
      var s := states'[|steps'|];
      (req, 2) in s.acked && (req, 2) in s.nodes[a].executed && (req, 2) in s.nodes[b].executed
  {
    states', steps' := BackupExecutes(cf, states, steps, a, b, req);
    states', steps' := Extended(cf, states', steps', ForwardedOk(a));
    states', steps' := Extended(cf, states', steps', Acknowledge(a));
  }

  /** For any two nodes and any request: the first node alone makes up view 1, the second joins
      with view 2, both go through the view change, and the request is executed by both and
      acknowledged. */
  lemma TwoMembersServe(a: string, b: string, req: nat)
    returns (cf: Config, states: seq<System>, steps: seq<Step>)
    requires IsName(a) && IsName(b) && a != b
    ensures IsHistory(cf, states, steps) && cf.view(2) == [a, b]
    ensures
      var s := states[|steps|];
      && a in s.nodes && b in s.nodes && (req, 2) in s.acked
      && (req, 2) in s.nodes[a].executed && (req, 2) in s.nodes[b].executed
  {
    cf, states, steps := SecondJoins(a, b);
    states, steps := GateOpens(cf, states, steps, a, b);
    states, steps := GateCloses(cf, states, steps, a, b);
    states, steps := RequestServed(cf, states, steps, a, b, req);
  }
}
