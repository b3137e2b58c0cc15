/** A history in which a node that joined later serves a view without a request that was
    acknowledged before it joined. */
module Newcomer {
  import opened Names
  import opened Views
  import opened Primaries
  import opened Rsm
  import opened RsmSystem

  /** Node `a` alone, then both, then node `b` alone. */
  function ThreeViews(a: string, b: string): nat -> seq<string> {
    (i: nat) => if i == 1 then [a] else if i == 2 then [a, b] else if i == 3 then [b] else []
  }

  lemma ThreeViewsAreChain(a: string, b: string)
    requires IsName(a) && IsName(b) && a != b
    ensures IsChain(ThreeViews(a, b), 3, a)
  {
    var v := ThreeViews(a, b);
    assert v(2) == v(1) + [b];
    assert LegalAt(v, 2);
    SecondAlone(a, b);
    assert a in v(2) && b in v(2);
    assert LegalAt(v, 3);
  }

  lemma SecondAlone(a: string, b: string)
    requires a != b
    ensures Without([a, b], a) == [b] && SetPrimary(a, [a, b], [b]) == Some(b)
  {
    var q := [a, b];
    assert q[1..] == [b];
    WithoutAbsent(q[1..], a);
    assert Without(q, a) == [] + Without(q[1..], a);
    assert FirstIn(q, [b]) == FirstIn(q[1..], [b]) == Some(b);
  }

  /** One more step after a history. */
  lemma Extended(cf: Config, states: seq<System>, steps: seq<Step>, step: Step)
    returns (states': seq<System>, steps': seq<Step>)
    requires IsHistory(cf, states, steps) && Enabled(cf, states[|steps|], step)
    ensures IsHistory(cf, states', steps') && states'[|steps'|] == Apply(cf, states[|steps|], step)
  {
    states', steps' := states + [Apply(cf, states[|steps|], step)], steps + [step];
    forall i: nat | i < |steps'|
      ensures StepAt(cf, states', steps', i)
    {
      assert i < |steps| ==> StepAt(cf, states, steps, i);
    }
  }

  /** Ready to recover as the only member and primary of its view. */
  predicate Lonely(cf: Config, s: System, n: string, k: nat) {
    && n in s.nodes && k >= 1 && cf.view(k) == [n]
    && var x := s.nodes[n];
       x.pc == Top && x.vidCommit == k && x.primary == n && x.busy == Idle && k !in x.served
  }

  /** It has settled and serves the view with what it had. */
  predicate Settled(s: System, n: string, k: nat, state: set<(nat, nat)>) {
    && n in s.nodes
    && var x := s.nodes[n];
       && x.pc == Asleep && x.vidCommit == k && x.primary == n && x.busy == Idle && !x.inviewchange
       && x.myvs == Stamp(k, 1) && k in x.served && x.served[k] == state
  }

  /** A recovery with nobody to wait for. */
  lemma RecoverAlone(cf: Config, states: seq<System>, steps: seq<Step>, n: string, k: nat)
    returns (states': seq<System>, steps': seq<Step>)
    requires IsHistory(cf, states, steps) && Lonely(cf, states[|steps|], n, k)
    ensures IsHistory(cf, states', steps')
    ensures
      var s, t := states[|steps|], states'[|steps'|];
      && Settled(t, n, k, s.nodes[n].state) && t.acked == s.acked && t.used == s.used
      && t.nodes == s.nodes[n := t.nodes[n]]
  {
    states', steps' := Extended(cf, states, steps, RecoveryTop(n));
    states', steps' := Extended(cf, states', steps', PassInvoke(n));
    assert [n][1..] == [];
    states', steps' := Extended(cf, states', steps', OpenBackups(n));
    states', steps' := Extended(cf, states', steps', CloseBackups(n));
  }

  /** A request with nobody to forward it to. */
  lemma ServeAlone(cf: Config, states: seq<System>, steps: seq<Step>, n: string, k: nat, req: nat,
          state: set<(nat, nat)>)
    returns (states': seq<System>, steps': seq<Step>)
    requires IsHistory(cf, states, steps) && Settled(states[|steps|], n, k, state) && cf.view(k) == [n]
    requires req !in states[|steps|].used
    ensures IsHistory(cf, states', steps')
    ensures
      var s, t := states[|steps|], states'[|steps'|];
      n in t.nodes && (req, k) in t.acked && t.nodes == s.nodes[n := t.nodes[n]]
  {
    states', steps' := Extended(cf, states, steps, ClientStarts(n, req));
    states', steps' := Extended(cf, states', steps', SkipSelf(n));
    states', steps' := Extended(cf, states', steps', Acknowledge(n));
  }

  /** Node `a` serves view 1 alone and acknowledges a request. */
  lemma FirstServes(a: string, b: string, req: nat) returns (cf: Config, states: seq<System>, steps: seq<Step>)
    requires IsName(a) && IsName(b) && a != b
    ensures cf == Config(ThreeViews(a, b), 3, a) && IsHistory(cf, states, steps)
    ensures
      var s := states[|steps|];
      (req, 1) in s.acked && b in s.nodes && s.nodes[b] == Fresh(a)
  {
    cf := Config(ThreeViews(a, b), 3, a);
    ThreeViewsAreChain(a, b);
    states, steps := [System(map[a := Fresh(a), b := Fresh(a)], {}, {}, {})], [];
    states, steps := Extended(cf, states, steps, Begin(a, 1));
    states, steps := RecoverAlone(cf, states, steps, a, 1);
    states, steps := ServeAlone(cf, states, steps, a, 1, req, {});
  }

  /** For any two nodes and any request: the request is acknowledged in view 1, node `b` joins
      with view 2, and when it alone makes up view 3 it serves that view without the request. */
  lemma NewcomerServesWithout(a: string, b: string, req: nat)
    returns (cf: Config, states: seq<System>, steps: seq<Step>)
    requires IsName(a) && IsName(b) && a != b
    ensures IsHistory(cf, states, steps)
    ensures
      var s := states[|steps|];
      (req, 1) in s.acked && b in s.nodes && 3 in s.nodes[b].served && (req, 1) !in s.nodes[b].served[3]
  {
    cf, states, steps := FirstServes(a, b, req);
    states, steps := Extended(cf, states, steps, Begin(b, 2));
    SecondAlone(a, b);
    states, steps := Extended(cf, states, steps, Commit(b));
    states, steps := RecoverAlone(cf, states, steps, b, 3);
  }
}
