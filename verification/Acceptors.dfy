/** The Paxos acceptor: its state, its three handlers and `commit`, first as
    functions on a value and then as the class whose fields the handlers update. */
module Acceptors {
  import opened Names
  import opened Proposals

  /** Acceptor state. `nh` is the highest number promised, `na`/`va` the vote,
      `inst` the highest decided instance and `vals` the decided values. */
  datatype AccState = AccState(me: string, nh: Prop, na: Prop, va: string, inst: nat, vals: map<nat, string>)

  datatype PrepareRes = OldInstance(v: string) | Promised(na: Prop, va: string) | Rejected

  /** What the durable log holds: a decided instance, a promise, a vote. */
  datatype Record = Done(inst: nat, v: string) | PropSeen(n: Prop) | Accepted(n: Prop, v: string)

  datatype Op =
    | PrepareOp(inst: nat, n: Prop)
    | AcceptOp(inst: nat, n: Prop, v: string)
    | DecideOp(inst: nat, v: string)
    | CommitOp(inst: nat, v: string)

  function Fresh(me: string): AccState {
    AccState(me, Prop(0, me), Prop(0, me), "", 0, map[])
  }

  /** `values[i]` on a std::map: a missing key reads as the empty string. */
  function ValueAt(s: AccState, i: nat): string {
    if i in s.vals then s.vals[i] else ""
  }

  function PrepareReply(s: AccState, inst: nat, n: Prop): PrepareRes {
    if inst <= s.inst then OldInstance(ValueAt(s, inst))
    else if Gt(n, s.nh) then Promised(s.na, s.va)
    else Rejected
  }

  function AfterPrepare(s: AccState, inst: nat, n: Prop): AccState {
    if PrepareReply(s, inst, n).Promised? then s.(nh := n) else s
  }

  /** The accept handler compares numbers only; it never looks at the instance
      the request was made for, and it does not raise `nh`. */
  predicate AcceptTakes(s: AccState, n: Prop) {
    Geq(n, s.nh)
  }

  function AfterAccept(s: AccState, n: Prop, v: string): AccState {
    if AcceptTakes(s, n) then s.(na := n, va := v) else s
  }

  function AfterCommit(s: AccState, inst: nat, v: string): AccState {
    if inst > s.inst then
      s.(vals := s.vals[inst := v], inst := inst, nh := Prop(0, s.me), na := Prop(0, s.me), va := "")
    else s
  }

  /** The two VERIFYs of the decide handler. */
  predicate DecideAborts(s: AccState, inst: nat, v: string) {
    inst > s.inst + 1 || (inst == s.inst + 1 && s.va != v)
  }

  function AfterDecide(s: AccState, inst: nat, v: string): AccState {
    if inst == s.inst + 1 && s.va == v then AfterCommit(s, inst, s.va) else s
  }

  function After(s: AccState, op: Op): AccState {
    match op
    case PrepareOp(i, n) => AfterPrepare(s, i, n)
    case AcceptOp(i, n, v) => AfterAccept(s, n, v)
    case DecideOp(i, v) => AfterDecide(s, i, v)
    case CommitOp(i, v) => AfterCommit(s, i, v)
  }

  /** The records the handler appends to the log while it makes that change. */
  function Logged(s: AccState, op: Op): seq<Record> {
    match op
    case PrepareOp(i, n) => if PrepareReply(s, i, n).Promised? then [PropSeen(n)] else []
    case AcceptOp(i, n, v) => if AcceptTakes(s, n) then [Accepted(n, v)] else []
    case DecideOp(i, v) => if i == s.inst + 1 && s.va == v then [Done(i, v)] else []
    case CommitOp(i, v) => if i > s.inst then [Done(i, v)] else []
  }

  /** Decided values have no gaps. */
  ghost predicate Dense(s: AccState) {
    forall i: nat :: i in s.vals <==> 1 <= i <= s.inst
  }

  // ----- the printed log -----

  function Print(r: Record): string {
    match r
    case Done(i, v) => "done" + " " + Decimal(i) + " " + v + "\n"
    case PropSeen(n) => "propseen" + " " + Decimal(n.n) + " " + n.m + "\n"
    case Accepted(n, v) => "accepted" + " " + Decimal(n.n) + " " + n.m + " " + v + "\n"
  }

  function PrintAll(recs: seq<Record>): string {
    if recs == [] then "" else Print(recs[0]) + PrintAll(recs[1..])
  }

  /** What `logread` does with one record. A `done` record clears the numbers but
      leaves the names that earlier records put there. */
  function Replay(s: AccState, r: Record): AccState {
    match r
    case Done(i, v) =>
      s.(vals := s.vals[i := v], inst := i, va := "", nh := Prop(0, s.nh.m), na := Prop(0, s.na.m))
    case PropSeen(n) => s.(nh := n)
    case Accepted(n, v) => s.(na := n, va := v)
  }

  function ReplayAll(s: AccState, recs: seq<Record>): AccState
    decreases recs
  {
    if recs == [] then s else ReplayAll(Replay(s, recs[0]), recs[1..])
  }

  function Tail(s: string): (t: string)
    ensures |t| <= |s|
  {
    if s == [] then [] else s[1..]
  }

  /** One record off the front of a log text: the record and what follows it. */
  function ReadRecord(text: string): (r: Option<(Record, string)>)
    ensures r.Some? ==> |r.value.1| < |text|
  {
    match ReadWord(text)
    case None => None
    case Some((kind, t0)) =>
      if kind == "done" then
        match ReadNumber(t0)
        case None => None
        case Some((i, t1)) => var (v, t2) := GetLine(Tail(t1)); Some((Done(i, v), t2))
      else if kind == "propseen" then
        match ReadNumber(t0)
        case None => None
        case Some((n, t1)) =>
          match ReadWord(t1)
          case None => None
          case Some((m, t2)) => Some((PropSeen(Prop(n, m)), t2))
      else if kind == "accepted" then
        match ReadNumber(t0)
        case None => None
        case Some((n, t1)) =>
          match ReadWord(t1)
          case None => None
          case Some((m, t2)) => var (v, t3) := GetLine(Tail(t2)); Some((Accepted(Prop(n, m), v), t3))
      else None
  }

  /** `logread` over a whole text; None is the VERIFY(0) on a record it does not know, and
      also a record that is cut short. */
  function LogRead(text: string, s: AccState): Option<AccState>
    decreases |text|
  {
    if SkipSpaces(text) == [] then Some(s)
    else
      match ReadRecord(text)
      case None => None
      case Some((r, rest)) => LogRead(rest, Replay(s, r))
  }

  // ----- the object -----

  class Acceptor {
    const me: string
    var nh: Prop
    var na: Prop
    var va: string
    var inst: nat
    var vals: map<nat, string>
    var file: string

    ghost function State(): AccState
      reads this
    {
      AccState(me, nh, na, va, inst, vals)
    }

    /** A node that starts: read what the log holds, then create view 1 if this is
        the first node and it never had one. Nothing is promised of a log that is not a
        sequence of whole records. */
    constructor (me: string, first: bool, value: string, logfile: string)
      ensures this.me == me
      ensures LogRead(logfile, Fresh(me)).Some? ==>
        var s := LogRead(logfile, Fresh(me)).value;
        if s.inst == 0 && first
        then inst == 1 && vals == s.vals[1 := value] && State() == s.(inst := 1, vals := vals)
             && file == logfile + Print(Done(1, value))
        else State() == s && file == logfile
    {
      this.me := me;
      nh, na, va, inst, vals := Prop(0, me), Prop(0, me), "", 0, map[];
      file := logfile;
      new;
      var ok := ReadLog();
      if inst == 0 && first {
        vals := vals[1 := value];
        file := file + Print(Done(1, value));
        inst := 1;
      }
    }

    method ReadLog() returns (ok: bool)
      modifies this
      ensures file == old(file)
      ensures ok <==> LogRead(file, old(State())).Some?
      ensures ok ==> State() == LogRead(file, old(State())).value
    {
      var rest := file;
      while SkipSpaces(rest) != []
        invariant file == old(file)
        invariant LogRead(file, old(State())) == LogRead(rest, State())
        decreases |rest|
      {
        var r := ReadRecord(rest);
        match r {
          case None => return false;
          case Some((rec, left)) =>
            match rec {
              case Done(i, v) =>
                vals := vals[i := v];
                inst := i;
                va := "";
                nh := nh.(n := 0);
                na := na.(n := 0);
              case PropSeen(n) =>
                nh := n;
              case Accepted(n, v) =>
                na := n;
                va := v;
            }
            rest := left;
        }
      }
      return true;
    }

    method PrepareReq(instance: nat, n: Prop) returns (r: PrepareRes)
      modifies this
      ensures r == PrepareReply(old(State()), instance, n)
      ensures State() == After(old(State()), PrepareOp(instance, n))
      ensures file == old(file) + PrintAll(Logged(old(State()), PrepareOp(instance, n)))
    {
      r := Rejected;
      if instance <= inst {
        r := OldInstance(if instance in vals then vals[instance] else "");
      } else if Gt(n, nh) {
        nh := n;
        r := Promised(na, va);
        file := file + Print(PropSeen(nh));
      }
    }

    method AcceptReq(instance: nat, n: Prop, v: string) returns (r: bool)
      modifies this
      ensures r == AcceptTakes(old(State()), n)
      ensures State() == After(old(State()), AcceptOp(instance, n, v))
      ensures file == old(file) + PrintAll(Logged(old(State()), AcceptOp(instance, n, v)))
    {
      if Geq(n, nh) {
        na := n;
        va := v;
        r := true;
        file := file + Print(Accepted(na, va));
      } else {
        r := false;
      }
    }

    /** `aborted` is a failed VERIFY; the process stops there with nothing changed. */
    method DecideReq(instance: nat, v: string) returns (aborted: bool)
      modifies this
      ensures aborted == DecideAborts(old(State()), instance, v)
      ensures State() == After(old(State()), DecideOp(instance, v))
      ensures file == old(file) + PrintAll(Logged(old(State()), DecideOp(instance, v)))
    {
      aborted := false;
      if instance == inst + 1 {
        if va != v {
          return true;
        }
        Commit(instance, va);
      } else if instance > inst {
        return true;
      }
    }

    method Commit(instance: nat, value: string)
      modifies this
      ensures State() == After(old(State()), CommitOp(instance, value))
      ensures file == old(file) + PrintAll(Logged(old(State()), CommitOp(instance, value)))
    {
      if instance > inst {
        vals := vals[instance := value];
        file := file + Print(Done(instance, value));
        inst := instance;
        nh := Prop(0, me);
        na := Prop(0, me);
        va := "";
      }
    }
  }
}
