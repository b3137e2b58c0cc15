/** One RPC client and one server instance over a network that may lose, delay, reorder
    and duplicate packets: the two windows together give at-most-once execution. */
module RpcSystem {
  import opened RpcClient
  import opened RpcServer
  import opened Sequences

  /** A reply packet: the recorded reply, or the at-most-once failure for a forgotten request. */
  datatype Rep = Answer(xid: nat, buf: string) | Failure(xid: nat)

  /** `nextXid`, the acknowledgement window, outstanding calls, the replies they got, which
      numbers were binds, whether a bind is done; and, as history, the numbers reported. */
  datatype Client = Client(nextXid: nat, window: seq<nat>, calls: set<nat>, answered: map<nat, Rep>,
                           binds: set<nat>, bound: bool, reported: set<nat>)

  /** The reply window and the handlers now running; and, as history, the requests let in
      as NEW in order, what each execution returned, the largest acknowledgement received,
      and whether `add_reply` ever missed its entry. */
  datatype Server = Server(win: seq<Entry>, running: set<nat>,
                           news: seq<nat>, results: map<nat, string>, maxRep: nat, lost: bool)

  /** `reqs` and `reps` are all the packets ever sent; any of them may arrive at any time. */
  datatype System = System(c: Client, v: Server, reqs: set<Header>, reps: set<Rep>)

  datatype Step =
    | Bind
    | Issue
    | Deliver(h: Header)
    | Finish(x: nat, buf: string)
    | Receive(r: Rep)
    | EndCall(x: nat)
    | Timeout(x: nat)

  predicate Init(s: System) {
    s == System(Client(1, [0], {}, map[], {}, false, {}), Server([], {}, [], map[], 0, false), {}, {})
  }

  /** `call1` refuses everything but a bind before the first bind is done, and a bind after. */
  predicate Enabled(s: System, step: Step) {
    match step
    case Bind => !s.c.bound && s.c.window != []
    case Issue => s.c.bound && s.c.window != []
    case Deliver(h) => h in s.reqs
    case Finish(x, buf) => x in s.v.running
    case Receive(r) => r in s.reps && s.c.window != []
    case EndCall(x) => x in s.c.calls && x in s.c.answered && s.c.window != []
    case Timeout(x) => x in s.c.calls && s.c.window != []
  }

  function Report(c: Client, x: nat): Client
    requires c.window != []
  {
    c.(window := Updated(c.window, x), reported := c.reported + {x})
  }

  function Send(s: System): System
    requires s.c.window != []
  {
    s.(c := s.c.(nextXid := s.c.nextXid + 1, calls := s.c.calls + {s.c.nextXid}),
       reqs := s.reqs + {Header(s.c.nextXid, s.c.window[0])})
  }

  /** The server's side of a request that was judged `d` and left the window `win`. */
  function Judged(v: Server, h: Header, win: seq<Entry>, d: Verdict): Server {
    var u := v.(win := win, maxRep := Max(v.maxRep, h.rep));
    if d == New then u.(running := v.running + {h.xid}, news := v.news + [h.xid]) else u
  }

  function Replies(h: Header, d: Verdict): set<Rep> {
    match d
    case New => {}
    case InProgress => {}
    case Done(buf) => {Answer(h.xid, buf)}
    case Forgotten => {Failure(h.xid)}
  }

  function Serve(s: System, h: Header): System {
    var (win, d) := Check(s.v.win, h.xid, h.rep);
    s.(v := Judged(s.v, h, win, d), reps := s.reps + Replies(h, d))
  }

  function Complete(v: Server, x: nat, buf: string): Server {
    v.(win := Recorded(v.win, x, buf), lost := v.lost || !Holds(v.win, x), running := v.running - {x},
       results := v.results[x := buf])
  }

  function Apply(s: System, step: Step): System
    requires Enabled(s, step)
  {
    match step
    case Bind => var t := Send(s); t.(c := t.c.(binds := s.c.binds + {s.c.nextXid}))
    case Issue => Send(s)
    case Deliver(h) => Serve(s, h)
    case Finish(x, buf) => s.(v := Complete(s.v, x, buf), reps := s.reps + {Answer(x, buf)})
    case Receive(r) =>
      var c := Report(s.c, r.xid);
      s.(c := if r.xid in c.calls && r.xid !in c.answered then c.(answered := c.answered[r.xid := r]) else c)
    case EndCall(x) =>
      var c := Report(s.c, x);
      s.(c := c.(calls := c.calls - {x}, bound := c.bound || (x in c.binds && c.answered[x].Answer?)))
    case Timeout(x) => var c := Report(s.c, x); s.(c := c.(calls := c.calls - {x}))
  }

  predicate StepAt(states: seq<System>, steps: seq<Step>, i: nat) {
    i < |steps| && i + 1 < |states| && Enabled(states[i], steps[i]) && states[i + 1] == Apply(states[i], steps[i])
  }

  predicate IsHistory(states: seq<System>, steps: seq<Step>) {
    && |states| == |steps| + 1 && Init(states[0])
    && forall i {:trigger StepAt(states, steps, i)} :: 0 <= i < |steps| ==> StepAt(states, steps, i)
  }

  // ----- at most once, in every history -----

  ghost predicate ClientOk(c: Client) {
    && c.nextXid > 0 && Acks(c.window, c.reported)
    && (forall x :: x in c.reported ==> x < c.nextXid)
    && (forall x :: x in c.calls ==> 0 < x < c.nextXid)
  }

  /** Requests acknowledge only smaller numbers, and everything on the wire was issued. */
  ghost predicate NetOk(s: System) {
    && (forall h :: h in s.reqs ==> h.rep < h.xid < s.c.nextXid)
    && (forall r :: r in s.reps ==> 0 < r.xid < s.c.nextXid)
    && (forall x :: x in s.v.running ==> 0 < x < s.c.nextXid)
  }

  ghost predicate ServerOk(v: Server) {
    Exact(v.win, AsSet(v.news), v.maxRep) && Distinct(v.news)
  }

  ghost predicate Inv(s: System) {
    ClientOk(s.c) && NetOk(s) && ServerOk(s.v)
  }

  lemma ReportKeepsClientOk(c: Client, x: nat)
    requires ClientOk(c) && x < c.nextXid
    ensures ClientOk(Report(c, x))
  {
    UpdateReports(c.window, c.reported, x);
  }

  lemma AckBelowNext(c: Client)
    requires ClientOk(c)
    ensures c.window[0] < c.nextXid
  {
    if c.window[0] > 0 {
      assert c.window[0] in c.reported;
    }
  }

  lemma AppendDistinct(xs: seq<nat>, x: nat)
    requires Distinct(xs) && x !in AsSet(xs)
    ensures Distinct(xs + [x]) && AsSet(xs + [x]) == AsSet(xs) + {x}
  {
  }

  lemma ServeKeepsServerOk(s: System, h: Header)
    requires ServerOk(s.v) && h.rep < h.xid
    ensures ServerOk(Serve(s, h).v)
  {
    CheckAdmitsOnce(s.v.win, AsSet(s.v.news), s.v.maxRep, h.xid, h.rep);
    if Check(s.v.win, h.xid, h.rep).1 == New {
      AppendDistinct(s.v.news, h.xid);
    }
  }

  lemma RepliesAreFor(s: System, h: Header, win: seq<Entry>, d: Verdict)
    requires NetOk(s) && h in s.reqs
    ensures NetOk(s.(v := Judged(s.v, h, win, d), reps := s.reps + Replies(h, d)))
  {
  }

  lemma StepKeepsInv(s: System, step: Step)
    requires Inv(s) && Enabled(s, step)
    ensures Inv(Apply(s, step))
  {
    match step {
      case Bind => AckBelowNext(s.c);
      case Issue => AckBelowNext(s.c);
      case Deliver(h) => ServeKeepsInv(s, h);
      case Finish(x, buf) => RecordedMeaning(s.v.win, x, buf);
      case Receive(r) => ReportKeepsClientOk(s.c, r.xid);
      case EndCall(x) => ReportKeepsClientOk(s.c, x);
      case Timeout(x) => ReportKeepsClientOk(s.c, x);
    }
  }

  lemma ServeKeepsInv(s: System, h: Header)
    requires Inv(s) && h in s.reqs
    ensures Inv(Serve(s, h))
  {
    ServeKeepsServerOk(s, h);
    RepliesAreFor(s, h, Check(s.v.win, h.xid, h.rep).0, Check(s.v.win, h.xid, h.rep).1);
  }

  lemma {:induction false} HistoryKeepsInv(states: seq<System>, steps: seq<Step>, i: nat)
    requires IsHistory(states, steps) && i < |states|
    ensures Inv(states[i])
  {
    if i == 0 {
    } else {
      HistoryKeepsInv(states, steps, i - 1);
      assert StepAt(states, steps, i - 1);
      StepKeepsInv(states[i - 1], steps[i - 1]);
    }
  }

  /** At most once: in every history, timeouts, losses and duplicates included, no request
      number is let in as NEW twice, so no handler runs twice for one call. */
  lemma AtMostOnce(states: seq<System>, steps: seq<Step>, i: nat)
    requires IsHistory(states, steps) && i < |states|
    ensures Distinct(states[i].v.news)
    ensures forall h :: h in states[i].reqs && h.xid in states[i].v.news ==>
      Check(states[i].v.win, h.xid, h.rep).1 != New
  {
    var s := states[i];
    HistoryKeepsInv(states, steps, i);
    forall h | h in s.reqs && h.xid in s.v.news ensures Check(s.v.win, h.xid, h.rep).1 != New {
      CheckAdmitsOnce(s.v.win, AsSet(s.v.news), s.v.maxRep, h.xid, h.rep);
    }
  }

  // ----- what the window holds, and when add_reply misses -----

  predicate AcksAbove(step: Step, x: nat) {
    step.Deliver? && step.h.rep > x
  }

  /** Before step `i` the server received a request that acknowledges more than `x`. */
  ghost predicate Overtaken(steps: seq<Step>, i: nat, x: nat) {
    exists j :: 0 <= j < i && j < |steps| && AcksAbove(steps[j], x)
  }

  lemma {:induction false} LargestAck(states: seq<System>, steps: seq<Step>, i: nat, x: nat)
    requires IsHistory(states, steps) && i < |states|
    ensures states[i].v.maxRep > x <==> Overtaken(steps, i, x)
  {
    if i == 0 {
      assert states[0].v.maxRep == 0;
    } else {
      LargestAck(states, steps, i - 1, x);
      assert StepAt(states, steps, i - 1);
      assert Overtaken(steps, i, x) <==> Overtaken(steps, i - 1, x) || AcksAbove(steps[i - 1], x);
    }
  }

  /** In every history, timeouts included: the entry of a request that was let in is in the
      window exactly until a request arrives that acknowledges a larger number. */
  lemma EntryKeptExactly(states: seq<System>, steps: seq<Step>, i: nat, x: nat)
    requires IsHistory(states, steps) && i < |states|
    ensures Holds(states[i].v.win, x) <==> x in states[i].v.news && !Overtaken(steps, i, x)
  {
    HistoryKeepsInv(states, steps, i);
    LargestAck(states, steps, i, x);
  }

  /** A handler finishes after a request arrived that acknowledges more than its own number. */
  ghost predicate Misses(steps: seq<Step>, i: nat) {
    i < |steps| && steps[i].Finish? && Overtaken(steps, i, steps[i].x)
  }

  ghost predicate HandlersInv(s: System) {
    && (forall x :: x in s.v.results ==> x in s.v.news)
    && (forall x :: x in s.v.running <==> x in s.v.news && x !in s.v.results)
  }

  predicate EntryOk(s: System, e: Entry) {
    (e.present <==> e.xid in s.v.results) && (e.present ==> e.buf == s.v.results[e.xid])
  }

  ghost predicate EntriesInv(s: System) {
    forall e {:trigger EntryOk(s, e)} :: e in s.v.win ==> EntryOk(s, e)
  }

  predicate AnswerOk(s: System, r: Rep) {
    r.Answer? ==> r.xid in s.v.results && r.buf == s.v.results[r.xid]
  }

  ghost predicate AnswersInv(s: System) {
    forall r {:trigger AnswerOk(s, r)} :: r in s.reps ==> AnswerOk(s, r)
  }

  ghost predicate FullInv(s: System) {
    Inv(s) && HandlersInv(s) && EntriesInv(s) && AnswersInv(s)
  }

  lemma {:induction false} TrimDrops(w: seq<Entry>, rep: nat)
    ensures forall e :: e in Trim(w, rep) ==> e in w
    ensures forall e :: e in w && e !in Trim(w, rep) ==> e.xid < rep
  {
    if w == [] || w[0].xid >= rep {
    } else {
      TrimDrops(w[1..], rep);
      assert forall e :: e in w <==> e == w[0] || e in w[1..];
    }
  }

  lemma DoneAnswersResult(s: System, h: Header)
    requires EntriesInv(s) && Check(s.v.win, h.xid, h.rep).1.Done?
    ensures h.xid in s.v.results && Check(s.v.win, h.xid, h.rep).1 == Done(s.v.results[h.xid])
  {
    var t := Trim(s.v.win, h.rep);
    TrimDrops(s.v.win, h.rep);
    var i := Place(t, h.xid);
    assert t[i] in t;
    assert EntryOk(s, t[i]);
  }

  lemma ServeKeepsEntries(s: System, h: Header)
    requires FullInv(s) && h in s.reqs
    ensures EntriesInv(Serve(s, h))
  {
    var t := Trim(s.v.win, h.rep);
    var u := Serve(s, h);
    TrimDrops(s.v.win, h.rep);
    AdmitAddsOne(t, h.xid);
    assert Judge(t, h.xid) == New ==> h.xid !in AsSet(s.v.news) by {
      CheckAdmitsOnce(s.v.win, AsSet(s.v.news), s.v.maxRep, h.xid, h.rep);
    }
    forall e | e in u.v.win ensures EntryOk(u, e) {
      if e in t {
        assert EntryOk(s, e);
      }
    }
  }

  lemma ServeKeepsHandlers(s: System, h: Header)
    requires FullInv(s) && h in s.reqs
    ensures HandlersInv(Serve(s, h))
  {
    var u := Serve(s, h);
    CheckAdmitsOnce(s.v.win, AsSet(s.v.news), s.v.maxRep, h.xid, h.rep);
    if Check(s.v.win, h.xid, h.rep).1 == New {
      assert h.xid !in AsSet(s.v.news);
      assert forall x :: x in u.v.news <==> x in s.v.news || x == h.xid;
    }
  }

  lemma DeliverKeepsFull(s: System, h: Header)
    requires FullInv(s) && h in s.reqs
    ensures FullInv(Serve(s, h))
  {
    var u := Serve(s, h);
    ServeKeepsInv(s, h);
    ServeKeepsEntries(s, h);
    ServeKeepsHandlers(s, h);
    if Check(s.v.win, h.xid, h.rep).1.Done? {
      DoneAnswersResult(s, h);
    }
    forall r | r in u.reps ensures AnswerOk(u, r) {
      assert r in s.reps ==> AnswerOk(s, r);
    }
  }

  lemma FinishKeepsFull(s: System, x: nat, buf: string)
    requires FullInv(s) && x in s.v.running
    ensures FullInv(Apply(s, Finish(x, buf)))
  {
    var u := Apply(s, Finish(x, buf));
    StepKeepsInv(s, Finish(x, buf));
    RecordedMeaning(s.v.win, x, buf);
    forall e | e in u.v.win ensures EntryOk(u, e) {
      var i :| 0 <= i < |u.v.win| && u.v.win[i] == e;
      assert EntryOk(s, s.v.win[i]);
    }
    forall r | r in u.reps ensures AnswerOk(u, r) {
      assert r in s.reps ==> AnswerOk(s, r);
    }
  }

  lemma ClientStepKeepsFull(s: System, step: Step)
    requires FullInv(s) && Enabled(s, step) && !step.Deliver? && !step.Finish?
    ensures FullInv(Apply(s, step))
  {
    var u := Apply(s, step);
    StepKeepsInv(s, step);
    forall e | e in u.v.win ensures EntryOk(u, e) {
      assert EntryOk(s, e);
    }
    forall r | r in u.reps ensures AnswerOk(u, r) {
      assert AnswerOk(s, r);
    }
  }

  lemma {:induction false} HistoryKeepsFull(states: seq<System>, steps: seq<Step>, i: nat)
    requires IsHistory(states, steps) && i < |states|
    ensures FullInv(states[i])
  {
    if i == 0 {
      HistoryKeepsInv(states, steps, 0);
    } else {
      var s, step := states[i - 1], steps[i - 1];
      HistoryKeepsFull(states, steps, i - 1);
      assert StepAt(states, steps, i - 1);
      match step {
        case Deliver(h) => DeliverKeepsFull(s, h);
        case Finish(x, buf) => FinishKeepsFull(s, x, buf);
        case _ => ClientStepKeepsFull(s, step);
      }
    }
  }

  /** Exactly when a reply is lost: `add_reply` ever missed its entry if and only if some
      handler finished after a request arrived that acknowledges more than its number. */
  lemma {:induction false} LostExactly(states: seq<System>, steps: seq<Step>, n: nat)
    requires IsHistory(states, steps) && n < |states|
    ensures states[n].v.lost <==> exists i: nat :: i < n && Misses(steps, i)
  {
    if n == 0 {
      assert !states[0].v.lost;
    } else {
      var s := states[n - 1];
      LostExactly(states, steps, n - 1);
      HistoryKeepsFull(states, steps, n - 1);
      assert StepAt(states, steps, n - 1);
      assert (exists i: nat :: i < n && Misses(steps, i)) <==>
          (exists i: nat :: i < n - 1 && Misses(steps, i)) || Misses(steps, n - 1);
      if steps[n - 1].Finish? {
        EntryKeptExactly(states, steps, n - 1, steps[n - 1].x);
      }
    }
  }

  /** Reply fidelity, in every history, timeouts included: every reply packet, first or
      repeated, carries exactly what the only execution of that request returned, and a
      handler still at work has its entry exactly until it is overtaken. When `add_reply` misses
      its entry the source writes through the end of its list, which has no defined meaning; here
      the window stays as it is and `lost` is set, so what follows speaks of the source only up
      to the first miss, whose exact condition is `LostExactly`. */
  lemma ReplyFidelity(states: seq<System>, steps: seq<Step>, i: nat)
    requires IsHistory(states, steps) && i < |states|
    ensures forall r :: r in states[i].reps && r.Answer? ==>
      r.xid in states[i].v.results && r.buf == states[i].v.results[r.xid]
    ensures forall h :: h in states[i].reqs && Check(states[i].v.win, h.xid, h.rep).1.Done? ==>
      h.xid in states[i].v.results && Check(states[i].v.win, h.xid, h.rep).1.buf == states[i].v.results[h.xid]
    ensures forall x :: x in states[i].v.running ==> (Holds(states[i].v.win, x) <==> !Overtaken(steps, i, x))
  {
    var s := states[i];
    HistoryKeepsFull(states, steps, i);
    forall r | r in s.reps ensures AnswerOk(s, r) {
    }
    forall h | h in s.reqs && Check(s.v.win, h.xid, h.rep).1.Done?
      ensures h.xid in s.v.results && Check(s.v.win, h.xid, h.rep).1.buf == s.v.results[h.xid]
    {
      DoneAnswersResult(s, h);
    }
    forall x | x in s.v.running
      ensures Holds(s.v.win, x) <==> !Overtaken(steps, i, x)
    {
      EntryKeptExactly(states, steps, i, x);
    }
  }

  lemma HeldSaysResult(s: System, h: Header)
    requires FullInv(s) && h in s.reqs && h.xid in s.v.news && h.xid >= Max(s.v.maxRep, h.rep)
    ensures Check(s.v.win, h.xid, h.rep).1 ==
      if h.xid in s.v.results then Done(s.v.results[h.xid]) else InProgress
  {
    var t := Trim(s.v.win, h.rep);
    TrimIsExact(s.v.win, AsSet(s.v.news), s.v.maxRep, h.rep);
    assert h.xid in AsSet(s.v.news) && Holds(t, h.xid);
    var i :| 0 <= i < |t| && t[i].xid == h.xid;
    JudgeHeld(t, i);
    TrimDrops(s.v.win, h.rep);
    assert t[i] in t && EntryOk(s, t[i]);
  }

  /** Exactly what a request that is not acknowledged yet is answered, in every history: DONE with
      the result if and only if its handler has finished, INPROGRESS if and only if it is at
      work. */
  lemma RepeatAnsweredExactly(states: seq<System>, steps: seq<Step>, i: nat, h: Header)
    requires IsHistory(states, steps) && i < |states| && h in states[i].reqs
    requires h.xid >= Max(states[i].v.maxRep, h.rep)
    ensures
      var s := states[i];
      var d := Check(s.v.win, h.xid, h.rep).1;
      && (d.Done? <==> h.xid in s.v.results) && (d.Done? ==> d.buf == s.v.results[h.xid])
      && (d == InProgress <==> h.xid in s.v.running)
  {
    var s := states[i];
    HistoryKeepsFull(states, steps, i);
    CheckAdmitsOnce(s.v.win, AsSet(s.v.news), s.v.maxRep, h.xid, h.rep);
    if h.xid in s.v.news {
      HeldSaysResult(s, h);
    } else {
      assert h.xid !in AsSet(s.v.news);
    }
  }

  /** What the delivery of a request does: a finished request that was not acknowledged is
      answered again with its result, one never let in starts its handler unless it is
      forgotten, and a forgotten one is told so. */
  lemma DeliveryAnswers(states: seq<System>, steps: seq<Step>, i: nat, h: Header)
    requires IsHistory(states, steps) && i < |steps| && steps[i] == Deliver(h)
    ensures
      var s, t := states[i], states[i + 1];
      && (h.xid >= Max(s.v.maxRep, h.rep) && h.xid in s.v.results ==> Answer(h.xid, s.v.results[h.xid]) in t.reps)
      && (h.xid !in s.v.news ==> h.xid in t.v.running || Failure(h.xid) in t.reps)
      && (h.xid !in s.v.news && h.xid >= Max(s.v.maxRep, h.rep) && (forall y :: y in s.v.news ==> y < h.xid) ==>
            h.xid in t.v.running)
  {
    var s := states[i];
    assert StepAt(states, steps, i);
    HistoryKeepsFull(states, steps, i);
    CheckAdmitsOnce(s.v.win, AsSet(s.v.news), s.v.maxRep, h.xid, h.rep);
    if h.xid >= Max(s.v.maxRep, h.rep) {
      RepeatAnsweredExactly(states, steps, i, h);
    }
    if h.xid !in s.v.news {
      assert h.xid !in AsSet(s.v.news);
    }
    ForgottenExactly(states, steps, i, h);
  }

  /** Exactly when a request is answered FORGOTTEN: something was let in that is not below the
      largest acknowledgement, this request's included, and all of that is larger. */
  lemma ForgottenExactly(states: seq<System>, steps: seq<Step>, i: nat, h: Header)
    requires IsHistory(states, steps) && i < |states| && h in states[i].reqs
    ensures
      var s, top := states[i], Max(states[i].v.maxRep, h.rep);
      Check(s.v.win, h.xid, h.rep).1 == Forgotten <==>
        (exists y :: y in s.v.news && y >= top) && (forall y :: y in s.v.news && y >= top ==> h.xid < y)
  {
    var s := states[i];
    var t, seen := Trim(s.v.win, h.rep), AsSet(s.v.news);
    HistoryKeepsInv(states, steps, i);
    CheckAdmitsOnce(s.v.win, seen, s.v.maxRep, h.xid, h.rep);
    TrimIsExact(s.v.win, seen, s.v.maxRep, h.rep);
    assert forall y :: y in s.v.news <==> y in seen;
    if t != [] {
      FrontIsFirst(t);
    } else {
      assert forall y: nat :: !Holds(t, y);
    }
  }

  // ----- the failing history -----

  lemma NextReported(f: nat)
    ensures Updated([f], f + 1) == [f + 1]
  {
    assert Compress([f + 1], 1) == [f + 1];
    assert Compress([f + 1], 0) == [f + 1];
    assert [f, f + 1][1..] == [f + 1];
    assert Compress([f, f + 1], 1) == [f + 1];
    assert Insert([f], f + 1) == [f, f + 1] by {
      assert [f][1..] == [];
    }
  }

  /** A request for which the window is empty after trimming is let in. */
  lemma CheckEmpty(w: seq<Entry>, x: nat, rep: nat)
    requires w == [] || (|w| == 1 && w[0].xid < rep)
    ensures Check(w, x, rep) == ([Entry(x, false, "")], New)
  {
    var t := Trim(w, rep);
    if w == [] {
      assert t == w;
    } else {
      assert t == Trim(w[1..], rep) == w[1..];
    }
    assert |t| == 0;
    var u := Admit(t, x);
    assert |u| == 1 && u[0] == Entry(x, false, "");
    assert u == [Entry(x, false, "")];
    assert Judge(t, x) == New;
  }

  /** The step that lets it in. */
  lemma DeliverEmpty(s: System, h: Header) returns (t: System)
    requires h in s.reqs && (s.v.win == [] || (|s.v.win| == 1 && s.v.win[0].xid < h.rep))
    ensures Enabled(s, Deliver(h)) && t == Apply(s, Deliver(h))
    ensures t.c == s.c && t.reqs == s.reqs && t.v.win == [Entry(h.xid, false, "")]
      && t.v.running == s.v.running + {h.xid}
  {
    CheckEmpty(s.v.win, h.xid, h.rep);
    t := Apply(s, Deliver(h));
  }

  /** A caller whose calls up to `f` are all reported makes a call and gives it up. */
  lemma CallAndGiveUp(s: System, f: nat) returns (t: System, u: System)
    requires s.c.window == [f] && s.c.nextXid == f + 1 && !s.c.bound
    ensures Enabled(s, Bind) && t == Apply(s, Bind) && Enabled(t, Timeout(f + 1)) && u == Apply(t, Timeout(f + 1))
    ensures u.c.window == [f + 1] && u.c.nextXid == f + 2 && !u.c.bound && u.v == s.v && s.reqs <= u.reqs
  {
    t := Apply(s, Bind);
    u := Apply(t, Timeout(f + 1));
    NextReported(f);
  }

  /** The same, but the server takes the call up before it is given up. */
  lemma CallTakenUpAndGivenUp(s: System, f: nat) returns (states: seq<System>, u: System)
    requires s.c.window == [f] && s.c.nextXid == f + 1 && !s.c.bound && s.v.win == []
    ensures |states| == 3 && states[0] == s
    ensures Enabled(s, Bind) && states[1] == Apply(s, Bind)
    ensures Enabled(states[1], Deliver(Header(f + 1, f))) && states[2] == Apply(states[1], Deliver(Header(f + 1, f)))
    ensures Enabled(states[2], Timeout(f + 1)) && u == Apply(states[2], Timeout(f + 1))
    ensures u.c.window == [f + 1] && u.c.nextXid == f + 2 && !u.c.bound
    ensures u.v.win == [Entry(f + 1, false, "")] && f + 1 in u.v.running
  {
    var t := Apply(s, Bind);
    var t' := DeliverEmpty(t, Header(f + 1, f));
    u := Apply(t', Timeout(f + 1));
    states := [s, t, t'];
    NextReported(f);
  }

  /** The third call acknowledges the second, so the entry of the first goes; its handler ends. */
  lemma CallAndLose(s: System, f: nat, x: nat) returns (states: seq<System>, u: System)
    requires s.c.window == [f] && s.c.nextXid == f + 1 && !s.c.bound
    requires s.v.win == [Entry(x, false, "")] && x < f && x in s.v.running
    ensures |states| == 3 && states[0] == s
    ensures Enabled(s, Bind) && states[1] == Apply(s, Bind)
    ensures Enabled(states[1], Deliver(Header(f + 1, f))) && states[2] == Apply(states[1], Deliver(Header(f + 1, f)))
    ensures Enabled(states[2], Finish(x, "")) && u == Apply(states[2], Finish(x, "")) && u.v.lost
  {
    var t := Apply(s, Bind);
    var t' := DeliverEmpty(t, Header(f + 1, f));
    u := Apply(t', Finish(x, ""));
    states := [s, t, t'];
  }

  /** One more step after a history. */
  lemma Extended(states: seq<System>, steps: seq<Step>, step: Step, t: System)
    returns (states': seq<System>, steps': seq<Step>)
    requires IsHistory(states, steps) && Enabled(states[|steps|], step) && t == Apply(states[|steps|], step)
    ensures IsHistory(states', steps') && |steps'| == |steps| + 1 && states'[|steps'|] == t
  {
    states', steps' := states + [t], steps + [step];
    forall i: nat | i < |steps'|
      ensures StepAt(states', steps', i)
    {
      assert i < |steps| ==> StepAt(states, steps, i);
    }
  }

  lemma LosingRun(s: System, f: nat) returns (states: seq<System>, steps: seq<Step>)
    requires Init(s) && s.c.window == [f] && s.c.nextXid == f + 1
    ensures IsHistory(states, steps) && |steps| == 8 && states[8].v.lost
  {
    var first, s3 := CallTakenUpAndGivenUp(s, f);
    var s4, s5 := CallAndGiveUp(s3, f + 1);
    var last, s8 := CallAndLose(s5, f + 2, f + 1);
    states, steps := [s], [];
    states, steps := Extended(states, steps, Bind, first[1]);
    states, steps := Extended(states, steps, Deliver(Header(f + 1, f)), first[2]);
    states, steps := Extended(states, steps, Timeout(f + 1), s3);
    states, steps := Extended(states, steps, Bind, s4);
    states, steps := Extended(states, steps, Timeout(f + 2), s5);
    states, steps := Extended(states, steps, Bind, last[1]);
    states, steps := Extended(states, steps, Deliver(Header(f + 3, f + 2)), last[2]);
    states, steps := Extended(states, steps, Finish(f + 1, ""), s8);
  }

  /** A history that loses a reply: the caller gives up two calls while the handler of the
      first is still at work, and the third call acknowledges both. */
  lemma GivenUpCallsLoseReply() returns (states: seq<System>, steps: seq<Step>)
    ensures IsHistory(states, steps) && |steps| == 8 && states[8].v.lost
  {
    var s := System(Client(1, [0], {}, map[], {}, false, {}), Server([], {}, [], map[], 0, false), {}, {});
    states, steps := LosingRun(s, 0);
  }
}
