/** The chain of views that Paxos decides when the configuration object is its only
    client. */
module ViewChain {
  import opened Names
  import opened Acceptors
  import opened Views
  import opened PaxosSystem
  import opened Paths
  import opened PaxosInvariant
  import opened PaxosSafety
  import opened Primaries

  /** View `i` as a node has it in its Paxos log. */
  function ViewAt(x: AccState, i: nat): seq<string> {
    Members(ValueAt(x, i))
  }

  function ViewsOf(x: AccState): nat -> seq<string> {
    (i: nat) => ViewAt(x, i)
  }

  /** Runs are started only with what a join request or a turn of the heartbeat loop proposes
      for the view the run starts from, as that node has it. */
  ghost predicate Sanctioned(s: System, step: Step) {
    step.StartRun? && step.owner in s.hosts ==>
      var view := ViewAt(s.hosts[step.owner].acc, step.vid);
      || (exists m :: JoinProposes(view, m, step.newv))
      || (exists m :: RemovalProposes(step.owner, view, m, step.newv))
  }

  lemma SanctionedIsLegal(s: System, step: Step)
    requires Sanctioned(s, step) && step.StartRun? && step.owner in s.hosts
    ensures LegalNext(ViewAt(s.hosts[step.owner].acc, step.vid), Members(step.newv))
  {
    var view := ViewAt(s.hosts[step.owner].acc, step.vid);
    MembersAreNames(ValueAt(s.hosts[step.owner].acc, step.vid));
    if m :| JoinProposes(view, m, step.newv) {
      JoinIsLegal(view, m, step.newv);
    } else {
      var m :| RemovalProposes(step.owner, view, m, step.newv);
      RemovalIsLegal(step.owner, view, m, step.newv);
    }
  }

  ghost predicate SanctionedAt(states: seq<System>, steps: seq<Step>, i: nat) {
    i < |steps| && i < |states| && Sanctioned(states[i], steps[i])
  }

  ghost predicate IsConfigHistory(states: seq<System>, steps: seq<Step>, first: string) {
    && IsHistory(states, steps, first)
    && states[0].genesis == first
    && forall i {:trigger SanctionedAt(states, steps, i)} :: 0 <= i < |steps| ==> SanctionedAt(states, steps, i)
  }

  ghost predicate LegalRun(s: System, r: nat) {
    r < |s.runs| ==> LegalNext(s.runs[r].nodes, Members(s.runs[r].newv))
  }

  ghost predicate LegalRuns(s: System, first: string) {
    s.genesis == first && IsName(first) && forall r: nat :: LegalRun(s, r)
  }

  predicate SameProposal(x: Run, y: Run) {
    y.nodes == x.nodes && y.newv == x.newv
  }

  /** No step changes the members or the proposal of a run, and only `StartRun` adds one. */
  lemma StepKeepsProposals(s: System, step: Step, r: nat)
    requires Enabled(s, step) && r < |Apply(s, step).runs|
    ensures r < |s.runs| ==> SameProposal(s.runs[r], Apply(s, step).runs[r])
    ensures r >= |s.runs| ==>
      step.StartRun? && Apply(s, step).runs[r] == NewRun(s.hosts[step.owner], step.owner, step.vid, step.newv)
  {
    match step
    case StartRun(_, _, _) =>
    case SendPrepare(_) =>
    case TakePromise(_, _, _) =>
    case TakeOld(_, _) =>
    case _ =>
  }

  lemma StepKeepsLegalRuns(s: System, step: Step, first: string)
    requires Enabled(s, step) && Sanctioned(s, step) && LegalRuns(s, first)
    ensures LegalRuns(Apply(s, step), first)
  {
    var t := Apply(s, step);
    if step.StartRun? {
      SanctionedIsLegal(s, step);
    }
    forall r: nat ensures LegalRun(t, r) {
      if r < |t.runs| {
        StepKeepsProposals(s, step, r);
        assert LegalRun(s, r);
      }
    }
  }

  lemma NextKeepsLegalRuns(s: System, t: System, step: Step, first: string)
    requires Next(s, t, step) && Sanctioned(s, step) && LegalRuns(s, first)
    ensures LegalRuns(t, first)
  {
    StepKeepsLegalRuns(s, step, first);
  }

  ghost predicate ConfigStepsTo(s: System, t: System) {
    exists step :: Next(s, t, step) && Sanctioned(s, step)
  }

  lemma HistoryKeepsLegalRuns(states: seq<System>, steps: seq<Step>, first: string, i: nat)
    requires IsConfigHistory(states, steps, first) && i < |states|
    ensures LegalRuns(states[i], first)
  {
    forall j: nat | 0 < j < |states|
      ensures Linked(ConfigStepsTo, states, j)
    {
      assert StepAt(states, steps, j - 1) && SanctionedAt(states, steps, j - 1);
    }
    PathKeepsLegalRuns(states, first, i);
  }

  lemma PathKeepsLegalRuns(states: seq<System>, first: string, i: nat)
    requires IsPath(ConfigStepsTo, states) && i < |states| && LegalRuns(states[0], first)
    ensures LegalRuns(states[i], first)
  {
    var inv := (s: System) => LegalRuns(s, first);
    forall s, t | inv(s) && ConfigStepsTo(s, t)
      ensures inv(t)
    {
      var step :| Next(s, t, step) && Sanctioned(s, step);
      NextKeepsLegalRuns(s, t, step, first);
    }
    PathKeeps(ConfigStepsTo, inv, states, i);
  }

  /** The decided value of an instance after the first is a legal change of the one before. */
  lemma DecidedViewsFollow(s: System, first: string, i: nat, p: string, c: string)
    requires Inv(s) && LegalRuns(s, first) && i > 1 && Decided(s, i - 1, p) && Decided(s, i, c)
    ensures LegalNext(Members(p), Members(c))
  {
    var r: nat :| ChosenAs(s, r, i, c);
    var k := ValueWasProposed(s, r);
    assert LegalRun(s, k);
    assert RunOk(s, k);
    DecisionIsUnique(s, i - 1, p, s.runs[k].base);
  }

  /** The view chain: in every state of a history driven by the configuration object, every
      node's decided views are such a chain. */
  lemma ViewsFormChain(states: seq<System>, steps: seq<Step>, first: string, k: nat, a: string)
    requires IsConfigHistory(states, steps, first) && k < |states| && a in states[k].hosts
    ensures IsChain(ViewsOf(states[k].hosts[a].acc), states[k].hosts[a].acc.inst, first)
  {
    var s := states[k];
    var x := s.hosts[a].acc;
    HistoryKeepsInv(states, steps, first, k);
    HistoryKeepsLegalRuns(states, steps, first, k);
    assert HostOk(s, a);
    if x.inst >= 1 {
      assert Decided(s, 1, s.genesis);
      DecisionIsUnique(s, 1, x.vals[1], s.genesis);
      MembersOfName(first);
    }
    var v := ViewsOf(x);
    forall i | 1 < i <= x.inst ensures LegalAt(v, i) {
      DecidedViewsFollow(s, first, i, x.vals[i - 1], x.vals[i]);
    }
  }
}
