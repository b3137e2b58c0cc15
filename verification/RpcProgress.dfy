/** A call that is waited for can always be answered: from every state of a history in which no
    call is given up, a few more steps complete any outstanding call with the result of its
    only execution. */
module RpcProgress {
  import opened RpcClient
  import opened RpcServer
  import opened RpcSystem
  import opened RpcPatience

  // ----- what an outstanding call has to go by -----

  ghost predicate AllReported(s: System, rep: nat) {
    forall k: nat :: 1 <= k <= rep ==> k in s.c.reported
  }

  ghost predicate HasRequest(s: System, x: nat) {
    exists h :: h in s.reqs && h.xid == x
  }

  /** An outstanding call has sent its request, and was not reported unless it was answered.
      Only reported numbers are acknowledged. */
  ghost predicate CallsInv(s: System) {
    && (forall x {:trigger HasRequest(s, x)} :: x in s.c.calls ==> HasRequest(s, x))
    && (forall x :: x in s.c.calls && x in s.c.reported ==> x in s.c.answered)
    && (forall h {:trigger AllReported(s, h.rep)} :: h in s.reqs ==> AllReported(s, h.rep))
    && AllReported(s, s.v.maxRep)
  }

  lemma RequestsStay(s: System, t: System)
    requires CallsInv(s) && s.reqs <= t.reqs && s.c.reported <= t.c.reported
    ensures forall x :: x in s.c.calls ==> HasRequest(t, x)
    ensures forall h :: h in s.reqs ==> AllReported(t, h.rep)
    ensures AllReported(t, s.v.maxRep)
  {
    forall x | x in s.c.calls ensures HasRequest(t, x) {
      assert HasRequest(s, x);
    }
    forall h | h in s.reqs ensures AllReported(t, h.rep) {
      assert AllReported(s, h.rep);
    }
  }

  lemma SendKeepsCalls(s: System, step: Step)
    requires Inv(s) && CallsInv(s) && Enabled(s, step) && (step.Bind? || step.Issue?)
    ensures CallsInv(Apply(s, step))
  {
    var t := Apply(s, step);
    RequestsStay(s, t);
    assert Header(s.c.nextXid, s.c.window[0]) in t.reqs;
    assert AllReported(t, s.c.window[0]);
    assert HasRequest(t, s.c.nextXid);
  }

  lemma StepKeepsCalls(s: System, step: Step)
    requires Inv(s) && CallsInv(s) && Enabled(s, step) && Patient(s, step)
    ensures CallsInv(Apply(s, step))
  {
    var t := Apply(s, step);
    RequestsStay(s, t);
    if step.Bind? || step.Issue? {
      SendKeepsCalls(s, step);
    } else if step.Deliver? {
      assert AllReported(s, step.h.rep);
    }
  }

  lemma {:induction false} HistoryKeepsCalls(states: seq<System>, steps: seq<Step>, i: nat)
    requires IsPatientHistory(states, steps) && i < |states|
    ensures CallsInv(states[i])
  {
    if i == 0 {
    } else {
      HistoryKeepsCalls(states, steps, i - 1);
      HistoryKeepsInv(states, steps, i - 1);
      assert StepAt(states, steps, i - 1) && PatientAt(states, steps, i - 1);
      StepKeepsCalls(states[i - 1], steps[i - 1]);
    }
  }

  // ----- going on -----

  lemma GoesOn(states: seq<System>, steps: seq<Step>, step: Step) returns (states': seq<System>, steps': seq<Step>)
    requires IsPatientHistory(states, steps) && Enabled(states[|steps|], step) && Patient(states[|steps|], step)
    ensures IsPatientHistory(states', steps') && steps' == steps + [step]
    ensures states' == states + [Apply(states[|steps|], step)]
  {
    states', steps' := states + [Apply(states[|steps|], step)], steps + [step];
    forall i: nat | i < |steps'|
      ensures StepAt(states', steps', i) && PatientAt(states', steps', i)
    {
      assert i < |steps| ==> StepAt(states, steps, i) && PatientAt(states, steps, i);
    }
  }

  predicate Outstanding(s: System, x: nat) {
    x in s.c.calls && x !in s.c.answered
  }

  /** The request of an outstanding call is above everything acknowledged. */
  lemma NotOvertaken(states: seq<System>, steps: seq<Step>, x: nat) returns (h: Header)
    requires IsPatientHistory(states, steps) && Outstanding(states[|steps|], x)
    ensures h in states[|steps|].reqs && h.xid == x && x >= Max(states[|steps|].v.maxRep, h.rep)
  {
    var s := states[|steps|];
    HistoryKeepsCalls(states, steps, |steps|);
    HistoryKeepsInv(states, steps, |steps|);
    assert HasRequest(s, x);
    h :| h in s.reqs && h.xid == x;
    assert AllReported(s, h.rep) && AllReported(s, s.v.maxRep);
  }

  /** Its handler is made to run, unless it has. */
  lemma Started(states: seq<System>, steps: seq<Step>, x: nat) returns (states': seq<System>, steps': seq<Step>)
    requires IsPatientHistory(states, steps) && Outstanding(states[|steps|], x)
    ensures IsPatientHistory(states', steps') && steps <= steps' && Outstanding(states'[|steps'|], x)
    ensures states'[|steps'|].c.binds == states[|steps|].c.binds
    ensures x in states'[|steps'|].v.news
  {
    var s := states[|steps|];
    states', steps' := states, steps;
    if x !in s.v.news {
      var h := NotOvertaken(states, steps, x);
      PatientHistoryKeepsInv(states, steps, |steps|);
      NoFalseForgotten(states, steps, |steps|);
      CheckAdmitsOnce(s.v.win, AsSet(s.v.news), s.v.maxRep, h.xid, h.rep);
      assert x !in AsSet(s.v.news) && x !in s.v.results;
      states', steps' := GoesOn(states, steps, Deliver(h));
    }
  }

  /** It finishes, unless it has, and its reply is on the way. */
  lemma Replied(states: seq<System>, steps: seq<Step>, x: nat) returns (states': seq<System>, steps': seq<Step>)
    requires IsPatientHistory(states, steps) && Outstanding(states[|steps|], x) && x in states[|steps|].v.news
    ensures IsPatientHistory(states', steps') && steps <= steps' && Outstanding(states'[|steps'|], x)
    ensures states'[|steps'|].c.binds == states[|steps|].c.binds
    ensures
      var t := states'[|steps'|];
      x in t.v.results && Answer(x, t.v.results[x]) in t.reps
  {
    var s := states[|steps|];
    HistoryKeepsFull(states, steps, |steps|);
    if x in s.v.results {
      var h := NotOvertaken(states, steps, x);
      RepeatAnsweredExactly(states, steps, |steps|, h);
      states', steps' := GoesOn(states, steps, Deliver(h));
    } else {
      states', steps' := GoesOn(states, steps, Finish(x, ""));
    }
  }

  /** Any outstanding call can be completed, and gets the result of its execution. */
  lemma CallCanComplete(states: seq<System>, steps: seq<Step>, x: nat)
    returns (states': seq<System>, steps': seq<Step>)
    requires IsPatientHistory(states, steps) && Outstanding(states[|steps|], x)
    ensures IsPatientHistory(states', steps') && steps <= steps'
    ensures
      var t := states'[|steps'|];
      x !in t.c.calls && x in t.c.answered && x in t.v.results && t.c.answered[x] == Answer(x, t.v.results[x])
    ensures x in states[|steps|].c.binds ==> states'[|steps'|].c.bound
  {
    states', steps' := Started(states, steps, x);
    states', steps' := Replied(states', steps', x);
    var t := states'[|steps'|];
    HistoryKeepsInv(states', steps', |steps'|);
    states', steps' := GoesOn(states', steps', Receive(Answer(x, t.v.results[x])));
    HistoryKeepsInv(states', steps', |steps'|);
    states', steps' := GoesOn(states', steps', EndCall(x));
  }
}
