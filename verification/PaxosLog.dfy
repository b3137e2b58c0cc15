/** Crash and replay: what an acceptor prints to its log, read back by a fresh
    process, is an acceptor that answers every later request the same way. */
module PaxosLog {
  import opened Names
  import opened Proposals
  import opened Acceptors

  /** Names are words and values are single lines, so records can be read back. */
  predicate Printable(r: Record) {
    match r
    case Done(i, v) => IsLine(v)
    case PropSeen(n) => IsName(n.m)
    case Accepted(n, v) => IsName(n.m) && IsLine(v)
  }

  predicate AllPrintable(recs: seq<Record>) {
    forall i :: 0 <= i < |recs| ==> Printable(recs[i])
  }

  // ----- print, then parse -----

  lemma SpacesSkipped(text: string)
    ensures ReadRecord("\n" + text) == ReadRecord(text)
    ensures SkipSpaces("\n" + text) == SkipSpaces(text)
  {
    assert ("\n" + text)[1..] == text;
  }

  lemma DoneReadBack(i: nat, v: string, rest: string)
    requires IsLine(v)
    ensures ReadRecord(Print(Done(i, v)) + rest) == Some((Done(i, v), rest))
  {
    var t1 := " " + v + "\n" + rest;
    var t0 := " " + Decimal(i) + t1;
    assert Print(Done(i, v)) + rest == "done" + t0;
    ReadWordBack("done", t0);
    ReadNumberBack(i, t1);
    assert Tail(t1) == v + "\n" + rest;
    GetLineBack(v, rest);
  }

  lemma PropSeenReadBack(n: Prop, rest: string)
    requires IsName(n.m)
    ensures ReadRecord(Print(PropSeen(n)) + rest) == Some((PropSeen(n), "\n" + rest))
  {
    var t1 := " " + n.m + ("\n" + rest);
    var t0 := " " + Decimal(n.n) + t1;
    assert Print(PropSeen(n)) + rest == "propseen" + t0;
    ReadWordBack("propseen", t0);
    ReadNumberBack(n.n, t1);
    ReadWordBack(n.m, "\n" + rest);
  }

  lemma AcceptedText(n: Prop, v: string, rest: string)
    ensures Print(Accepted(n, v)) + rest
         == "accepted" + (" " + Decimal(n.n) + (" " + n.m + (" " + v + "\n" + rest)))
  {
    var t2 := " " + v + "\n" + rest;
    assert n.m + " " + v + "\n" + rest == n.m + t2;
  }

  lemma AcceptedParts(text: string, t0: string, n: nat, t1: string, m: string, t2: string, v: string, rest: string)
    requires ReadWord(text) == Some(("accepted", t0)) && ReadNumber(t0) == Some((n, t1))
    requires ReadWord(t1) == Some((m, t2)) && GetLine(Tail(t2)) == (v, rest)
    ensures ReadRecord(text) == Some((Accepted(Prop(n, m), v), rest))
  {
  }

  lemma AcceptedWords(n: Prop, v: string, rest: string) returns (t0: string, t1: string, t2: string)
    requires IsName(n.m) && IsLine(v)
    ensures ReadWord(Print(Accepted(n, v)) + rest) == Some(("accepted", t0)) && ReadNumber(t0) == Some((n.n, t1))
    ensures ReadWord(t1) == Some((n.m, t2)) && t2 == " " + v + "\n" + rest
  {
    t2 := " " + v + "\n" + rest;
    t1 := " " + n.m + t2;
    t0 := " " + Decimal(n.n) + t1;
    AcceptedText(n, v, rest);
    ReadWordBack("accepted", t0);
    ReadNumberBack(n.n, t1);
    ReadWordBack(n.m, t2);
  }

  lemma AcceptedReadBack(n: Prop, v: string, rest: string)
    requires IsName(n.m) && IsLine(v)
    ensures ReadRecord(Print(Accepted(n, v)) + rest) == Some((Accepted(n, v), rest))
  {
    var t0, t1, t2 := AcceptedWords(n, v, rest);
    assert Tail(t2) == v + "\n" + rest;
    GetLineBack(v, rest);
    AcceptedParts(Print(Accepted(n, v)) + rest, t0, n.n, t1, n.m, t2, v, rest);
  }

  /** A printed record is read back as itself; only a `propseen` leaves its newline
      to be skipped by the next read. */
  lemma RecordReadBack(r: Record, rest: string)
    requires Printable(r)
    ensures ReadRecord(Print(r) + rest) == Some((r, if r.PropSeen? then "\n" + rest else rest))
  {
    match r {
      case Done(i, v) => DoneReadBack(i, v, rest);
      case PropSeen(n) => PropSeenReadBack(n, rest);
      case Accepted(n, v) => AcceptedReadBack(n, v, rest);
    }
  }

  /** Reading a printed log replays exactly the records that were appended. */
  lemma {:induction false} PrintedLogReplays(recs: seq<Record>, s: AccState)
    requires AllPrintable(recs)
    ensures LogRead(PrintAll(recs), s) == Some(ReplayAll(s, recs))
    decreases |recs|
  {
    if recs == [] {
    } else {
      var rest := PrintAll(recs[1..]);
      RecordReadBack(recs[0], rest);
      assert SkipSpaces(PrintAll(recs)) != [];
      PrintedLogReplays(recs[1..], Replay(s, recs[0]));
      SpacesSkipped(rest);
      assert LogRead("\n" + rest, Replay(s, recs[0])) == LogRead(rest, Replay(s, recs[0]));
    }
  }

  lemma {:induction false} PrintAllAppends(a: seq<Record>, b: seq<Record>)
    ensures PrintAll(a + b) == PrintAll(a) + PrintAll(b)
  {
    if a == [] {
      assert a + b == b;
    } else {
      assert (a + b)[1..] == a[1..] + b;
      PrintAllAppends(a[1..], b);
    }
  }

  lemma {:induction false} ReplayAppends(s: AccState, a: seq<Record>, b: seq<Record>)
    ensures ReplayAll(s, a + b) == ReplayAll(ReplayAll(s, a), b)
    decreases |a|
  {
    if a == [] {
      assert a + b == b;
    } else {
      assert (a + b)[1..] == a[1..] + b;
      ReplayAppends(Replay(s, a[0]), a[1..], b);
    }
  }

  // ----- replayed state against the state in memory -----

  predicate SameProp(a: Prop, b: Prop) {
    a.n == b.n && (a.n > 0 ==> a.m == b.m)
  }

  /** Equal, except that the names attached to the number 0 may differ. */
  predicate Same(s: AccState, t: AccState) {
    s.me == t.me && s.inst == t.inst && s.vals == t.vals && s.va == t.va
    && SameProp(s.nh, t.nh) && SameProp(s.na, t.na)
  }

  /** The log `recs` is an account of the state `s`. */
  predicate Tracks(s: AccState, recs: seq<Record>) {
    AllPrintable(recs) && Same(ReplayAll(Fresh(s.me), recs), s)
  }

  /** Requests as proposers make them: numbers start at 1, names are words, values are lines. */
  predicate Proper(op: Op) {
    match op
    case PrepareOp(i, n) => n.n > 0 && IsName(n.m)
    case AcceptOp(i, n, v) => n.n > 0 && IsName(n.m) && IsLine(v)
    case DecideOp(i, v) => IsLine(v)
    case CommitOp(i, v) => IsLine(v)
  }

  lemma HandlersKeepLogComplete(s: AccState, recs: seq<Record>, op: Op)
    requires Tracks(s, recs) && Proper(op)
    ensures Tracks(After(s, op), recs + Logged(s, op))
  {
    ReplayAppends(Fresh(s.me), recs, Logged(s, op));
    var t := ReplayAll(Fresh(s.me), recs);
    assert recs + [] == recs;
    forall r ensures ReplayAll(t, [r]) == Replay(t, r) {
      assert [r][1..] == [];
    }
  }

  datatype Outcome = Prepared(res: PrepareRes) | Voted(ok: bool) | DecideRan(aborted: bool) | Committed

  function Answer(s: AccState, op: Op): Outcome {
    match op
    case PrepareOp(i, n) => Prepared(PrepareReply(s, i, n))
    case AcceptOp(i, n, v) => Voted(AcceptTakes(s, n))
    case DecideOp(i, v) => DecideRan(DecideAborts(s, i, v))
    case CommitOp(i, v) => Committed
  }

  predicate SamePrepareRes(a: PrepareRes, b: PrepareRes) {
    match (a, b)
    case (Promised(na, va), Promised(nb, vb)) => SameProp(na, nb) && va == vb
    case _ => a == b
  }

  predicate SameAnswer(a: Outcome, b: Outcome) {
    match (a, b)
    case (Prepared(x), Prepared(y)) => SamePrepareRes(x, y)
    case _ => a == b
  }

  lemma SameStatesStepAlike(s: AccState, t: AccState, op: Op)
    requires Same(s, t) && Proper(op)
    ensures SameAnswer(Answer(s, op), Answer(t, op))
    ensures Same(After(s, op), After(t, op))
  {
  }

  function RunOps(s: AccState, ops: seq<Op>): AccState
    decreases ops
  {
    if ops == [] then s else RunOps(After(s, ops[0]), ops[1..])
  }

  function Answers(s: AccState, ops: seq<Op>): seq<Outcome>
    decreases ops
  {
    if ops == [] then [] else [Answer(s, ops[0])] + Answers(After(s, ops[0]), ops[1..])
  }

  function LogOf(s: AccState, ops: seq<Op>): seq<Record>
    decreases ops
  {
    if ops == [] then [] else Logged(s, ops[0]) + LogOf(After(s, ops[0]), ops[1..])
  }

  predicate AllProper(ops: seq<Op>) {
    forall i :: 0 <= i < |ops| ==> Proper(ops[i])
  }

  lemma {:induction false} RunKeepsLogComplete(s: AccState, recs: seq<Record>, ops: seq<Op>)
    requires Tracks(s, recs) && AllProper(ops)
    ensures Tracks(RunOps(s, ops), recs + LogOf(s, ops))
    decreases |ops|
  {
    if ops == [] {
      assert recs + LogOf(s, ops) == recs;
    } else {
      HandlersKeepLogComplete(s, recs, ops[0]);
      RunKeepsLogComplete(After(s, ops[0]), recs + Logged(s, ops[0]), ops[1..]);
      assert recs + LogOf(s, ops) == recs + Logged(s, ops[0]) + LogOf(After(s, ops[0]), ops[1..]);
    }
  }

  lemma FreshLogIsComplete(me: string, ops: seq<Op>)
    requires AllProper(ops)
    ensures Tracks(RunOps(Fresh(me), ops), LogOf(Fresh(me), ops))
    ensures RunOps(Fresh(me), ops).me == me
  {
    RunKeepsLogComplete(Fresh(me), [], ops);
    assert [] + LogOf(Fresh(me), ops) == LogOf(Fresh(me), ops);
    RunKeepsName(Fresh(me), ops);
  }

  lemma {:induction false} RunKeepsName(s: AccState, ops: seq<Op>)
    ensures RunOps(s, ops).me == s.me
    decreases |ops|
  {
    if ops == [] {
    } else {
      RunKeepsName(After(s, ops[0]), ops[1..]);
    }
  }

  lemma {:induction false} SameStatesRunAlike(s: AccState, t: AccState, ops: seq<Op>)
    requires Same(s, t) && AllProper(ops)
    ensures |Answers(s, ops)| == |Answers(t, ops)| == |ops|
    ensures forall i :: 0 <= i < |ops| ==> SameAnswer(Answers(s, ops)[i], Answers(t, ops)[i])
    ensures Same(RunOps(s, ops), RunOps(t, ops))
    decreases |ops|
  {
    if ops == [] {
    } else {
      SameStatesStepAlike(s, t, ops[0]);
      SameStatesRunAlike(After(s, ops[0]), After(t, ops[0]), ops[1..]);
    }
  }

  /** The main result: run any requests, crash, parse the log text, and go on with
      any further requests. The recovered acceptor holds the same decided values,
      promise and vote, and gives the same answers as if it had never stopped. */
  lemma CrashReplayRefinesMemory(me: string, before: seq<Op>, later: seq<Op>)
    requires AllProper(before) && AllProper(later)
    ensures
      var kept := RunOps(Fresh(me), before);
      var read := LogRead(PrintAll(LogOf(Fresh(me), before)), Fresh(me));
      && read.Some? && Same(read.value, kept)
      && |Answers(read.value, later)| == |Answers(kept, later)| == |later|
      && forall i :: 0 <= i < |later| ==> SameAnswer(Answers(read.value, later)[i], Answers(kept, later)[i])
  {
    var recs := LogOf(Fresh(me), before);
    var kept := RunOps(Fresh(me), before);
    FreshLogIsComplete(me, before);
    PrintedLogReplays(recs, Fresh(me));
    SameStatesRunAlike(ReplayAll(Fresh(me), recs), kept, later);
  }

  // ----- a peer's log -----

  predicate HasDone(recs: seq<Record>) {
    exists i :: 0 <= i < |recs| && recs[i].Done?
  }

  predicate SameVotes(s: AccState, t: AccState) {
    s.va == t.va && s.inst == t.inst && SameProp(s.nh, t.nh) && SameProp(s.na, t.na)
  }

  /** As soon as a log holds one decision, the instance, promise and vote it leaves
      do not depend on the state it is read over. */
  lemma {:induction false} ReplayForgetsVotes(s: AccState, t: AccState, recs: seq<Record>)
    requires SameVotes(s, t) || HasDone(recs)
    ensures SameVotes(ReplayAll(s, recs), ReplayAll(t, recs))
    ensures ReplayAll(s, recs).me == s.me
    decreases |recs|
  {
    if recs == [] {
    } else {
      if !SameVotes(s, t) && !recs[0].Done? {
        var i :| 0 <= i < |recs| && recs[i].Done?;
        assert recs[1..][i - 1].Done?;
      }
      ReplayForgetsVotes(Replay(s, recs[0]), Replay(t, recs[0]), recs[1..]);
    }
  }

  /** The decisions a log holds, a later one replacing an earlier one. */
  function DoneValues(recs: seq<Record>): map<nat, string> {
    if recs == [] then map[]
    else
      var last := recs[|recs| - 1];
      var m := DoneValues(recs[..|recs| - 1]);
      if last.Done? then m[last.inst := last.v] else m
  }

  lemma {:induction false} ReplayOverlaysValues(s: AccState, recs: seq<Record>)
    ensures ReplayAll(s, recs).vals == s.vals + DoneValues(recs)
    decreases |recs|
  {
    if recs == [] {
    } else {
      var n := |recs| - 1;
      assert recs == recs[..n] + [recs[n]];
      ReplayAppends(s, recs[..n], [recs[n]]);
      assert [recs[n]][1..] == [];
      ReplayOverlaysValues(s, recs[..n]);
    }
  }

  lemma {:induction false} NoDoneNoInstance(s: AccState, recs: seq<Record>)
    requires !HasDone(recs)
    ensures ReplayAll(s, recs).inst == s.inst
    decreases |recs|
  {
    if recs == [] {
    } else {
      assert !recs[0].Done?;
      forall i | 0 <= i < |recs[1..]| ensures !recs[1..][i].Done? {
        assert recs[1..][i] == recs[i + 1];
      }
      NoDoneNoInstance(Replay(s, recs[0]), recs[1..]);
    }
  }

  /** `restore`: reading the log of a peer that has decided something. The result has
      the peer's instance, promise and vote, and the peer's values laid over the old ones. */
  lemma RestoreTakesOverPeer(s: AccState, peer: AccState, recs: seq<Record>)
    requires Tracks(peer, recs) && peer.inst > 0
    ensures LogRead(PrintAll(recs), s) == Some(ReplayAll(s, recs))
    ensures SameVotes(ReplayAll(s, recs), peer)
    ensures ReplayAll(s, recs).me == s.me
    ensures ReplayAll(s, recs).vals == s.vals + peer.vals
  {
    PrintedLogReplays(recs, s);
    if !HasDone(recs) {
      NoDoneNoInstance(Fresh(peer.me), recs);
    }
    ReplayForgetsVotes(s, Fresh(peer.me), recs);
    ReplayOverlaysValues(s, recs);
    ReplayOverlaysValues(Fresh(peer.me), recs);
    assert map[] + DoneValues(recs) == DoneValues(recs);
  }
}
