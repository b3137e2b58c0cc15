/** Histories in which one bind is the only call before `bind_done_` and no call is given up:
    there acknowledgements are only of finished requests, so no reply is lost and no
    unfinished request is answered FORGOTTEN. */
module RpcPatience {
  import opened RpcClient
  import opened RpcServer
  import opened RpcSystem

  /** One bind is the only call before `bind_done_`, and no call ends without a reply. */
  predicate Patient(s: System, step: Step) {
    !step.Timeout? && (step.Bind? ==> s.c.nextXid == 1)
  }

  predicate PatientAt(states: seq<System>, steps: seq<Step>, i: nat) {
    i < |steps| && i < |states| && Patient(states[i], steps[i])
  }

  predicate IsPatientHistory(states: seq<System>, steps: seq<Step>) {
    && IsHistory(states, steps)
    && forall i {:trigger PatientAt(states, steps, i)} :: 0 <= i < |steps| ==> PatientAt(states, steps, i)
  }

  function Front(s: System): nat {
    if s.v.maxRep > 1 then s.v.maxRep else 1
  }

  /** A request that was answered, if only with the failure, is finished. */
  predicate RepDone(s: System, r: Rep) {
    r.xid in s.v.results
  }

  /** Acknowledged means finished: every number up to `rep` has its result recorded. */
  ghost predicate AllDone(s: System, rep: nat) {
    forall k: nat :: 1 <= k <= rep ==> k in s.v.results
  }

  ghost predicate RepsInv(s: System) {
    forall r {:trigger RepDone(s, r)} :: r in s.reps ==> RepDone(s, r)
  }

  ghost predicate AcksInv(s: System) {
    && AllDone(s, s.v.maxRep)
    && (forall h {:trigger AllDone(s, h.rep)} :: h in s.reqs ==> AllDone(s, h.rep))
    && (forall x :: x in s.c.reported ==> x in s.v.results || x == 0)
    && (forall x :: x in s.c.answered ==> s.c.answered[x] in s.reps && s.c.answered[x].xid == x)
  }

  ghost predicate FrontInv(s: System) {
    && (if s.v.win == [] then s.v.maxRep == 0 else s.v.win[0].xid == Front(s))
    && s.c.binds <= {1}
    && (s.c.bound ==> 1 in s.v.results)
    && (forall h :: h in s.reqs && h.xid > 1 ==> 1 in s.v.results)
  }

  ghost predicate PatientInv(s: System) {
    FullInv(s) && RepsInv(s) && AcksInv(s) && FrontInv(s) && !s.v.lost
  }

  /** Replies and acknowledgements stay in order while results are only added. */
  lemma ResultsGrow(s: System, t: System)
    requires RepsInv(s) && AcksInv(s)
    requires forall x :: x in s.v.results ==> x in t.v.results
    ensures forall r :: r in s.reps ==> RepDone(t, r)
    ensures forall h :: h in s.reqs ==> AllDone(t, h.rep)
    ensures AllDone(t, s.v.maxRep)
  {
    forall r | r in s.reps ensures RepDone(t, r) {
      assert RepDone(s, r);
    }
    forall h | h in s.reqs ensures AllDone(t, h.rep) {
      assert AllDone(s, h.rep);
    }
  }

  /** After trimming, the front of the window is the largest acknowledgement received, or 1. */
  lemma TrimmedFront(s: System, h: Header)
    requires PatientInv(s) && h in s.reqs
    ensures
      var t := Trim(s.v.win, h.rep);
      var front := if h.rep > Front(s) then h.rep else Front(s);
      && (s.v.win == [] ==> h == Header(1, 0))
      && Ordered(t) && (s.v.win != [] ==> t != [] && t[0].xid == front && Holds(t, front))
      && (forall e :: e in s.v.win && e !in t ==> e.xid in s.v.results)
      && (forall e :: e in t ==> e in s.v.win)
  {
    TrimMeaning(s.v.win, h.rep);
    TrimDrops(s.v.win, h.rep);
    assert AllDone(s, h.rep);
    if s.v.win == [] {
      assert 1 !in AsSet(s.v.news);
    } else {
      if h.rep > Front(s) {
        assert h.rep in s.v.results;
        assert h.rep in AsSet(s.v.news);
        assert Holds(s.v.win, h.rep);
        FrontIsLeast(Trim(s.v.win, h.rep), h.rep);
      } else {
        assert Holds(s.v.win, Front(s));
      }
    }
  }

  lemma FrontIsLeast(t: seq<Entry>, rep: nat)
    requires Ordered(t) && Holds(t, rep) && forall x: nat :: Holds(t, x) ==> x >= rep
    ensures t != [] && t[0].xid == rep
  {
    var i :| 0 <= i < |t| && t[i].xid == rep;
    assert Holds(t, t[0].xid);
  }

  /** A forgotten request was finished: no unfinished one is ever turned away. */
  lemma ForgottenWasDone(s: System, h: Header)
    requires PatientInv(s) && h in s.reqs && Check(s.v.win, h.xid, h.rep).1 == Forgotten
    ensures h.xid in s.v.results
  {
    var t := Trim(s.v.win, h.rep);
    TrimmedFront(s, h);
    TrimMeaning(s.v.win, h.rep);
    JudgeNew(t, h.xid);
    assert AllDone(s, h.rep) && AllDone(s, s.v.maxRep);
  }

  lemma ServeKeepsReplies(s: System, h: Header)
    requires PatientInv(s) && h in s.reqs
    ensures RepsInv(Serve(s, h)) && AcksInv(Serve(s, h))
  {
    var u := Serve(s, h);
    var v := Check(s.v.win, h.xid, h.rep).1;
    ResultsGrow(s, u);
    if v == Forgotten {
      ForgottenWasDone(s, h);
    }
    if v.Done? {
      DoneAnswersResult(s, h);
    }
  }

  lemma ServeKeepsFront(s: System, h: Header)
    requires PatientInv(s) && h in s.reqs
    ensures FrontInv(Serve(s, h))
  {
    var t := Trim(s.v.win, h.rep);
    var u := Serve(s, h);
    TrimmedFront(s, h);
    assert u.c.binds == s.c.binds && u.c.bound == s.c.bound && u.reqs == s.reqs && u.v.results == s.v.results;
    if s.v.win == [] {
      assert u.v.win == [Entry(1, false, "")];
    } else if Judge(t, h.xid) == New {
      AdmitKeepsFront(t, h.xid);
    }
  }

  lemma DeliverKeepsPatient(s: System, h: Header)
    requires PatientInv(s) && h in s.reqs
    ensures PatientInv(Serve(s, h))
  {
    DeliverKeepsFull(s, h);
    ServeKeepsReplies(s, h);
    ServeKeepsFront(s, h);
  }

  /** An unfinished request is above everything acknowledged, so `add_reply` finds its entry. */
  lemma RunningIsHeld(s: System, x: nat)
    requires PatientInv(s) && x in s.v.running
    ensures Holds(s.v.win, x)
  {
    assert x in AsSet(s.v.news);
    assert AllDone(s, s.v.maxRep);
  }

  lemma FinishKeepsPatient(s: System, x: nat, buf: string)
    requires PatientInv(s) && x in s.v.running
    ensures PatientInv(Apply(s, Finish(x, buf)))
  {
    var u := Apply(s, Finish(x, buf));
    RunningIsHeld(s, x);
    FinishKeepsFull(s, x, buf);
    RecordedMeaning(s.v.win, x, buf);
    ResultsGrow(s, u);
  }

  lemma SendKeepsPatient(s: System, step: Step)
    requires PatientInv(s) && Enabled(s, step) && Patient(s, step) && (step.Bind? || step.Issue?)
    ensures PatientInv(Apply(s, step))
  {
    var u := Apply(s, step);
    ClientStepKeepsFull(s, step);
    ResultsGrow(s, u);
    assert AllDone(u, s.c.window[0]) by {
      assert forall k: nat :: 1 <= k <= s.c.window[0] ==> k in s.c.reported;
    }
  }

  lemma ReplyKeepsPatient(s: System, step: Step)
    requires PatientInv(s) && Enabled(s, step) && (step.Receive? || step.EndCall?)
    ensures PatientInv(Apply(s, step))
  {
    var u := Apply(s, step);
    ClientStepKeepsFull(s, step);
    ResultsGrow(s, u);
    assert RepDone(s, if step.Receive? then step.r else s.c.answered[step.x]);
    if step.EndCall? {
      assert s.c.answered[step.x] in s.reps && AnswerOk(s, s.c.answered[step.x]);
    }
  }

  lemma {:induction false} PatientHistoryKeepsInv(states: seq<System>, steps: seq<Step>, i: nat)
    requires IsPatientHistory(states, steps) && i < |states|
    ensures PatientInv(states[i])
  {
    if i == 0 {
      HistoryKeepsFull(states, steps, 0);
    } else {
      var s, step := states[i - 1], steps[i - 1];
      PatientHistoryKeepsInv(states, steps, i - 1);
      assert StepAt(states, steps, i - 1) && PatientAt(states, steps, i - 1);
      match step {
        case Bind => SendKeepsPatient(s, step);
        case Issue => SendKeepsPatient(s, step);
        case Deliver(h) => DeliverKeepsPatient(s, h);
        case Finish(x, buf) => FinishKeepsPatient(s, x, buf);
        case Receive(r) => ReplyKeepsPatient(s, step);
        case EndCall(x) => ReplyKeepsPatient(s, step);
      }
    }
  }

  /** No reply is lost: `add_reply` never misses its entry, and a handler still at work has
      its entry in the window. */
  lemma PatientRepliesKept(states: seq<System>, steps: seq<Step>, i: nat)
    requires IsPatientHistory(states, steps) && i < |states|
    ensures !states[i].v.lost && !exists j: nat :: j < i && Misses(steps, j)
    ensures forall x :: x in states[i].v.running ==> Holds(states[i].v.win, x)
  {
    PatientHistoryKeepsInv(states, steps, i);
    LostExactly(states, steps, i);
    forall x | x in states[i].v.running ensures Holds(states[i].v.win, x) {
      RunningIsHeld(states[i], x);
    }
  }

  /** No false FORGOTTEN: the front of a non-empty window is the largest acknowledgement
      received so far, or 1, and only finished requests are answered FORGOTTEN. */
  lemma NoFalseForgotten(states: seq<System>, steps: seq<Step>, i: nat)
    requires IsPatientHistory(states, steps) && i < |states|
    ensures states[i].v.win != [] ==> states[i].v.win[0].xid == Front(states[i])
    ensures forall h :: h in states[i].reqs && h.xid !in states[i].v.results ==>
      Check(states[i].v.win, h.xid, h.rep).1 != Forgotten
  {
    var s := states[i];
    PatientHistoryKeepsInv(states, steps, i);
    forall h | h in s.reqs && h.xid !in s.v.results ensures Check(s.v.win, h.xid, h.rep).1 != Forgotten {
      if Check(s.v.win, h.xid, h.rep).1 == Forgotten {
        ForgottenWasDone(s, h);
      }
    }
  }
}
