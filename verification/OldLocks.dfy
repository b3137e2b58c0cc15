/** The earlier caching lock protocol: the server pops the client that has the lock or
    will get it, revokes it synchronously, and then grants. */
module OldLocks {
  import opened Sequences

  datatype Status = NONE | FREE | LOCKED | ACQUIRING | RELEASING | RETRY

  /** How the first critical section of the server's `acquire` ends. */
  datatype Verdict = Grant | Revoke(target: string) | TellRetry

  function Pushed(q: seq<string>, dst: string): seq<string> {
    if dst in q then q else q + [dst]
  }

  function AcquireVerdict(q: seq<string>, dst: string): Verdict {
    match Position(q, dst)
    case 0 => Grant
    case 1 => Revoke(Pushed(q, dst)[0])
    case _ => TellRetry
  }

  function ListAfter(q: seq<string>, dst: string): seq<string> {
    if Position(q, dst) == 1 then Pushed(q, dst)[1..] else Pushed(q, dst)
  }

  /** Who gets which answer: the first in the list the lock, the second after a revoke of the
      first, everybody else RETRY; only a revoked client leaves the list. */
  lemma VerdictMeaning(q: seq<string>, dst: string)
    ensures
      var p, v := Pushed(q, dst), AcquireVerdict(q, dst);
      && dst in p
      && (v == Grant <==> p[0] == dst)
      && (v.Revoke? <==> |p| > 1 && p[0] != dst && p[1] == dst) && (v.Revoke? ==> v.target == p[0])
      && ListAfter(q, dst) == if v.Revoke? then p[1..] else p
  {
    PositionMeaning(q, dst);
    var k := Position(q, dst);
    assert Pushed(q, dst)[k] == dst;
    assert k > 0 ==> q[..k][0] == q[0] && q[0] in q[..k];
    assert k > 1 ==> q[..k][1] == q[1] && q[1] in q[..k];
  }

  class OldServer {
    var lists: map<nat, seq<string>>

    ghost function List(lid: nat): seq<string>
      reads this
    {
      if lid in lists then lists[lid] else []
    }

    constructor ()
      ensures lists == map[]
    {
      lists := map[];
    }

    /** Up to the point where the server's mutex is given up. */
    method Acquire(lid: nat, dst: string) returns (v: Verdict)
      modifies this
      ensures v == AcquireVerdict(old(List(lid)), dst)
      ensures lists == old(lists)[lid := ListAfter(old(List(lid)), dst)]
    {
      if lid !in lists {
        lists := lists[lid := []];
      }
      var q := lists[lid];
      PositionMeaning(q, dst);
      var position := -1;
      for i := 0 to |q|
        invariant position == -1 && dst !in q[..i]
      {
        if q[i] == dst {
          position := i;
          break;
        }
      }
      assert position < 0 ==> q[..|q|] == q && dst !in q;
      if position < 0 {
        q := q + [dst];
        lists := lists[lid := q];
        position := |q| - 1;
      }
      if position == 0 {
        return Grant;
      } else if position == 1 {
        v := Revoke(q[0]);
        lists := lists[lid := q[1..]];
      } else {
        return TellRetry;
      }
    }
  }

  /** Whom the server still has to tell to retry when a revoke came back. */
  function RetryTargets(q: seq<string>): seq<string> {
    if |q| > 1 then [q[1]] else []
  }

  // ----- one client's status of a lock -----

  /** The wait loops of `acquire` and of `revoke_handler` end. */
  predicate WaitOver(st: Status) {
    st == FREE || st == NONE
  }

  /** What `acquire` makes of the status after its wait. */
  function Taken(st: Status): Status {
    if st == NONE then ACQUIRING else if st == FREE then LOCKED else st
  }

  /** What `revoke_handler` makes of it after its wait. */
  function Revoked(st: Status): Status {
    if st == FREE then RELEASING else st
  }

  class OldClient {
    var st: map<nat, Status>

    /** A missing entry reads as NONE. */
    ghost function StatusOf(lid: nat): Status
      reads this
    {
      if lid in st then st[lid] else NONE
    }

    constructor ()
      ensures st == map[]
    {
      st := map[];
    }

    /** The test of `acquire`'s wait loop, and the section after it. */
    method AcquireTest(lid: nat) returns (go: bool, call: bool)
      modifies this
      ensures go == WaitOver(old(StatusOf(lid))) && call == (old(StatusOf(lid)) == NONE)
      ensures st == old(st)[lid := Taken(old(StatusOf(lid)))]
    {
      if lid !in st {
        st := st[lid := NONE];
      }
      go := !(st[lid] != FREE && st[lid] != NONE);
      call := st[lid] == NONE;
      if call {
        st := st[lid := ACQUIRING];
      } else if go {
        st := st[lid := LOCKED];
      }
      assert !go ==> st == old(st)[lid := old(StatusOf(lid))];
    }

    /** The test of `revoke_handler`'s wait loop, and the section after it. */
    method RevokeTest(lid: nat) returns (go: bool, ok: bool)
      modifies this
      ensures go == WaitOver(old(StatusOf(lid))) && ok == (old(StatusOf(lid)) == FREE)
      ensures st == old(st)[lid := Revoked(old(StatusOf(lid)))]
    {
      if lid !in st {
        st := st[lid := NONE];
      }
      go := !(st[lid] != FREE && st[lid] != NONE);
      ok := st[lid] == FREE;
      if ok {
        st := st[lid := RELEASING];
      }
      assert !ok ==> st == old(st)[lid := old(StatusOf(lid))];
    }
  }

  // ----- the system around one lock -----

  /** How far the revoke that an acquire waits for has come. */
  datatype Phase = Asked | Releasing | Returned(ok: bool)

  /** A client's outstanding acquire call. */
  datatype Call = NoCall | Sent | Revoking(target: string, phase: Phase) | Retrying(target: string) | Answered(ok: bool)

  datatype Pc = Waiting | Asking | AwaitRetry | AskingAgain | Owner

  datatype Client = Client(st: Status, call: Call, threads: map<nat, Pc>)

  datatype System = System(list: seq<string>, clients: map<string, Client>)

  datatype Step =
    | Enter(d: string, t: nat)
    | Proceed(d: string, t: nat)
    | Serve(d: string)
    | RevokeBegins(d: string)
    | RevokeEnds(d: string)
    | ServeAgain(d: string)
    | RetryArrives(d: string)
    | TakeAnswer(d: string, t: nat)
    | AskAgain(d: string, t: nat)
    | ReleaseLock(d: string, t: nat)

  predicate At(c: Client, t: nat, pc: Pc) {
    t in c.threads && c.threads[t] == pc
  }

  predicate TargetIs(s: System, d: string, phase: Phase) {
    d in s.clients && s.clients[d].call.Revoking? && s.clients[d].call.phase == phase
        && s.clients[d].call.target in s.clients
  }

  /** Each call is carried out once. The two failing `VERIFY` checks are steps that do not
      exist: a revoke that returned an error, and a second RETRY. */
  predicate Enabled(s: System, step: Step) {
    step.d in s.clients &&
    var c := s.clients[step.d];
    match step
    case Enter(d, t) => t !in c.threads
    case Proceed(d, t) => At(c, t, Waiting) && WaitOver(c.st)
    case Serve(d) => c.call == Sent
    case RevokeBegins(d) => TargetIs(s, d, Asked) && WaitOver(s.clients[c.call.target].st)
    case RevokeEnds(d) => TargetIs(s, d, Releasing)
    case ServeAgain(d) => TargetIs(s, d, Returned(true))
    case RetryArrives(d) => c.call.Retrying? && c.call.target in s.clients
    case TakeAnswer(d, t) =>
      c.call.Answered? && (At(c, t, Asking) || (At(c, t, AskingAgain) && c.call.ok))
    case AskAgain(d, t) => At(c, t, AwaitRetry) && c.st == RETRY
    case ReleaseLock(d, t) => At(c, t, Owner)
  }

  function SetClient(s: System, d: string, c: Client): System {
    s.(clients := s.clients[d := c])
  }

  function SetCall(s: System, d: string, call: Call): System
    requires d in s.clients
  {
    SetClient(s, d, s.clients[d].(call := call))
  }

  function SetStatus(s: System, d: string, st: Status): System
    requires d in s.clients
  {
    SetClient(s, d, s.clients[d].(st := st))
  }

  function Apply(s: System, step: Step): System
    requires Enabled(s, step)
  {
    var d, c := step.d, s.clients[step.d];
    match step
    case Enter(_, t) => SetClient(s, d, c.(threads := c.threads[t := Waiting]))
    case Proceed(_, t) =>
      if c.st == NONE then SetClient(s, d, Client(Taken(c.st), Sent, c.threads[t := Asking]))
      else SetClient(s, d, c.(st := Taken(c.st), threads := c.threads[t := Owner]))
    case Serve(_) =>
      var call := match AcquireVerdict(s.list, d)
                  case Grant => Answered(true)
                  case Revoke(target) => Revoking(target, Asked)
                  case TellRetry => Answered(false);
      SetCall(s, d, call).(list := ListAfter(s.list, d))
    case RevokeBegins(_) =>
      var target, st := c.call.target, s.clients[c.call.target].st;
      SetCall(SetStatus(s, target, Revoked(st)), d,
              Revoking(target, if st == FREE then Releasing else Returned(false)))
    case RevokeEnds(_) => SetCall(SetStatus(s, c.call.target, NONE), d, Revoking(c.call.target, Returned(true)))
    case ServeAgain(_) =>
      SetCall(s, d, if RetryTargets(s.list) != [] then Retrying(RetryTargets(s.list)[0]) else Answered(true))
    case RetryArrives(_) => SetCall(SetStatus(s, c.call.target, RETRY), d, Answered(true))
    case TakeAnswer(_, t) =>
      if c.call.ok then SetClient(s, d, Client(LOCKED, NoCall, c.threads[t := Owner]))
      else SetClient(s, d, c.(call := NoCall, threads := c.threads[t := AwaitRetry]))
    case AskAgain(_, t) => SetClient(s, d, c.(call := Sent, threads := c.threads[t := AskingAgain]))
    case ReleaseLock(_, t) => SetClient(s, d, c.(st := FREE, threads := c.threads - {t}))
  }

  predicate Init(s: System) {
    s.list == [] && forall d :: d in s.clients ==> s.clients[d] == Client(NONE, NoCall, map[])
  }

  predicate StepAt(states: seq<System>, steps: seq<Step>, i: nat) {
    i < |steps| && i + 1 < |states| && Enabled(states[i], steps[i]) && states[i + 1] == Apply(states[i], steps[i])
  }

  predicate IsHistory(states: seq<System>, steps: seq<Step>) {
    && |states| == |steps| + 1 && Init(states[0])
    && forall i {:trigger StepAt(states, steps, i)} :: 0 <= i < |steps| ==> StepAt(states, steps, i)
  }

  // ----- the line: who has the token, and who waits for it behind whom -----

  /** Who was served by the server and has not had the lock revoked again, in order. */
  function Line(steps: seq<Step>): seq<string> {
    if steps == [] then [] else NextLine(Line(steps[..|steps| - 1]), steps[|steps| - 1])
  }

  function NextLine(line: seq<string>, step: Step): seq<string> {
    if step.Serve? then line + [step.d]
    else if step.RevokeEnds? && line != [] then line[1..]
    else line
  }

  /** Not known to the server: nothing cached, or a call that has not been served. */
  predicate Outside(c: Client) {
    (c.st == NONE && c.call == NoCall) || (c.st == ACQUIRING && c.call == Sent)
  }

  /** Has the token: cached, in use or being given back, or granted and on its way. */
  predicate HasToken(c: Client) {
    || ((c.st == FREE || c.st == LOCKED || c.st == RELEASING) && c.call == NoCall)
    || (c.st == ACQUIRING && (c.call == Answered(true) || (c.call.Revoking? && c.call.phase == Returned(true))))
  }

  predicate PlaceOk(s: System, line: seq<string>, k: nat) {
    k < |line| && line[k] in s.clients &&
    var c := s.clients[line[k]];
    if k == 0 then
      HasToken(c) && (c.st == RELEASING ==> |line| > 1)
    else
      line[0] in s.clients && c.st == ACQUIRING
      && c.call == Revoking(line[k - 1], if k == 1 && s.clients[line[0]].st == RELEASING then Releasing else Asked)
  }

  /** At most one thread is past the wait, and then the status keeps the others out. */
  predicate ThreadsOk(c: Client) {
    && (forall t, u :: t in c.threads && u in c.threads && c.threads[t] != Waiting && c.threads[u] != Waiting ==>
      t == u)
    && (forall t :: t in c.threads ==>
          || c.threads[t] == Waiting
          || (c.threads[t] == Asking && c.st == ACQUIRING)
          || (c.threads[t] == Owner && c.st == LOCKED))
  }

  predicate ClientOk(s: System, line: seq<string>, d: string) {
    d in s.clients && ThreadsOk(s.clients[d]) && (d in line || Outside(s.clients[d]))
  }

  ghost predicate InLine(s: System, line: seq<string>) {
    && Distinct(line)
    && s.list == (if line == [] then [] else [line[|line| - 1]])
    && (forall k {:trigger PlaceOk(s, line, k)} :: 0 <= k < |line| ==> PlaceOk(s, line, k))
    && (forall d {:trigger ClientOk(s, line, d)} :: d in s.clients ==> ClientOk(s, line, d))
  }

  // ----- every step keeps the line -----

  /** Somebody in the line is where its status says. */
  lemma PlaceOf(s: System, line: seq<string>, d: string) returns (k: nat)
    requires InLine(s, line) && d in line
    ensures k < |line| && line[k] == d && PlaceOk(s, line, k)
  {
    k :| 0 <= k < |line| && line[k] == d;
  }

  /** A change to one client that the line does not see: only its threads change, or it has
      the token before and after, or it stays outside. */
  lemma OneClientKeepsLine(s: System, line: seq<string>, d: string, c: Client)
    requires InLine(s, line) && d in s.clients && ThreadsOk(c)
    requires
      var b := s.clients[d];
      || (c.call == b.call && c.st == b.st)
      || (HasToken(b) && HasToken(c) && b.st != RELEASING && c.st != RELEASING)
      || (d !in line && Outside(c))
    ensures InLine(SetClient(s, d, c), line)
  {
    var t := SetClient(s, d, c);
    assert ClientOk(s, line, d);
    forall k | 0 <= k < |line|
      ensures PlaceOk(t, line, k)
    {
      assert PlaceOk(s, line, k) && PlaceOk(s, line, 0);
    }
    forall e | e in t.clients
      ensures ClientOk(t, line, e)
    {
      assert ClientOk(s, line, e);
    }
  }

  lemma ThreadStepKeepsLine(s: System, line: seq<string>, step: Step)
    requires InLine(s, line) && Enabled(s, step) && (step.Enter? || step.Proceed? || step.ReleaseLock?)
    ensures InLine(Apply(s, step), line)
  {
    var d, b := step.d, s.clients[step.d];
    assert ClientOk(s, line, d);
    if d in line {
      var k := PlaceOf(s, line, d);
    }
    OneClientKeepsLine(s, line, d, Apply(s, step).clients[d]);
  }

  /** The call of a client in the line is a revoke, or a grant at the front. */
  lemma CallInLine(s: System, line: seq<string>, d: string)
    requires InLine(s, line) && d in s.clients && s.clients[d].call != NoCall && s.clients[d].call != Sent
    ensures d in line
    ensures !s.clients[d].call.Retrying? && (s.clients[d].call.Answered? ==> s.clients[d].call.ok)
    ensures s.clients[d].call.Answered? || TargetIs(s, d, Returned(true)) ==> HasToken(s.clients[d])
  {
    assert ClientOk(s, line, d);
    var k := PlaceOf(s, line, d);
  }

  lemma AnswerStepKeepsLine(s: System, line: seq<string>, step: Step)
    requires InLine(s, line) && Enabled(s, step) && (step.ServeAgain? || step.TakeAnswer?)
    ensures InLine(Apply(s, step), line)
  {
    var d := step.d;
    assert ClientOk(s, line, d);
    CallInLine(s, line, d);
    OneClientKeepsLine(s, line, d, Apply(s, step).clients[d]);
  }

  /** The server's list holds the end of the line, so the newcomer is granted the lock or
      waits behind exactly that client. */
  function Joining(s: System, line: seq<string>, d: string): System
    requires d in s.clients
  {
    SetCall(s, d, if line == [] then Answered(true) else Revoking(line[|line| - 1], Asked)).(list := [d])
  }

  lemma ServeJoins(s: System, line: seq<string>, d: string)
    requires Enabled(s, Serve(d)) && d !in line
    requires s.list == (if line == [] then [] else [line[|line| - 1]])
    ensures Apply(s, Serve(d)) == Joining(s, line, d)
  {
    if line != [] {
      assert line[|line| - 1] in line;
      assert s.list[1..] == [] && Position(s.list, d) == 1;
      assert (s.list + [d])[1..] == [d];
    }
  }

  lemma JoiningKeepsPlace(s: System, line: seq<string>, d: string, k: nat)
    requires InLine(s, line) && d in s.clients && d !in line && s.clients[d].st == ACQUIRING && k <= |line|
    ensures PlaceOk(Joining(s, line, d), line + [d], k)
  {
    if k < |line| {
      assert line[k] in line && line[0] in line;
      assert PlaceOk(s, line, k) && PlaceOk(s, line, 0);
    } else if line != [] {
      assert PlaceOk(s, line, 0);
    }
  }

  lemma ServeKeepsLine(s: System, line: seq<string>, step: Step)
    requires InLine(s, line) && Enabled(s, step) && step.Serve?
    ensures InLine(Apply(s, step), line + [step.d])
  {
    var d, next := step.d, line + [step.d];
    assert ClientOk(s, line, d);
    assert d !in line by {
      if d in line {
        var k := PlaceOf(s, line, d);
      }
    }
    ServeJoins(s, line, d);
    var t := Joining(s, line, d);
    forall k | 0 <= k < |next|
      ensures PlaceOk(t, next, k)
    {
      JoiningKeepsPlace(s, line, d, k);
    }
    forall e | e in t.clients
      ensures ClientOk(t, next, e)
    {
      assert ClientOk(s, line, e);
    }
  }

  /** An outstanding revoke is aimed at the client just before; only the front can give in. */
  lemma RevokeTarget(s: System, line: seq<string>, d: string) returns (k: nat)
    requires InLine(s, line) && (TargetIs(s, d, Asked) || TargetIs(s, d, Releasing))
    ensures 0 < k < |line| && line[k] == d && line[k - 1] == s.clients[d].call.target
    ensures PlaceOk(s, line, k) && PlaceOk(s, line, k - 1)
  {
    assert ClientOk(s, line, d);
    k := PlaceOf(s, line, d);
    assert k > 0 ==> PlaceOk(s, line, k - 1);
  }

  lemma RevokeBeginsKeepsLine(s: System, line: seq<string>, step: Step)
    requires InLine(s, line) && Enabled(s, step) && step.RevokeBegins?
    ensures InLine(Apply(s, step), line)
  {
    var d, t := step.d, Apply(s, step);
    var j := RevokeTarget(s, line, d);
    assert j == 1 && s.clients[line[0]].st == FREE;
    forall k | 0 <= k < |line|
      ensures PlaceOk(t, line, k)
    {
      assert PlaceOk(s, line, k);
    }
    forall e | e in t.clients
      ensures ClientOk(t, line, e)
    {
      assert ClientOk(s, line, e);
    }
  }

  lemma RevokeEndsKeepsLine(s: System, line: seq<string>, step: Step)
    requires InLine(s, line) && Enabled(s, step) && step.RevokeEnds?
    ensures line != [] && InLine(Apply(s, step), line[1..])
  {
    var d, t := step.d, Apply(s, step);
    var j := RevokeTarget(s, line, d);
    assert j == 1 && s.clients[line[0]].st == RELEASING;
    var next := line[1..];
    forall k | 0 <= k < |next|
      ensures PlaceOk(t, next, k)
    {
      assert PlaceOk(s, line, k + 1);
    }
    forall e | e in t.clients
      ensures ClientOk(t, next, e)
    {
      assert ClientOk(s, line, e);
      assert e in line && e !in next ==> e == line[0];
    }
  }

  lemma StepKeepsLine(s: System, line: seq<string>, step: Step)
    requires InLine(s, line) && Enabled(s, step)
    ensures InLine(Apply(s, step), NextLine(line, step))
  {
    assert ClientOk(s, line, step.d);
    match step
    case Enter(_, _) => ThreadStepKeepsLine(s, line, step);
    case Proceed(_, _) => ThreadStepKeepsLine(s, line, step);
    case ReleaseLock(_, _) => ThreadStepKeepsLine(s, line, step);
    case Serve(_) => ServeKeepsLine(s, line, step);
    case RevokeBegins(_) => RevokeBeginsKeepsLine(s, line, step);
    case RevokeEnds(_) => RevokeEndsKeepsLine(s, line, step);
    case ServeAgain(_) => AnswerStepKeepsLine(s, line, step);
    case TakeAnswer(_, _) => AnswerStepKeepsLine(s, line, step);
    case RetryArrives(d) => CallInLine(s, line, d);
    case AskAgain(_, _) => assert false;
  }

  lemma {:induction false} HistoryKeepsLine(states: seq<System>, steps: seq<Step>, n: nat)
    requires IsHistory(states, steps) && n <= |steps|
    ensures InLine(states[n], Line(steps[..n]))
  {
    if n == 0 {
      assert forall d {:trigger ClientOk(states[0], [], d)} :: d in states[0].clients ==> ClientOk(states[0], [], d);
    } else {
      HistoryKeepsLine(states, steps, n - 1);
      assert StepAt(states, steps, n - 1);
      StepKeepsLine(states[n - 1], Line(steps[..n - 1]), steps[n - 1]);
      assert steps[..n][..n - 1] == steps[..n - 1];
    }
  }

  // ----- what every run keeps -----

  /** The server's list never has two clients outside its mutex, so nobody is ever told to
      retry, nobody gets a retry call, and no client waits for one. */
  lemma RetryIsUnreachable(states: seq<System>, steps: seq<Step>, n: nat, d: string)
    requires IsHistory(states, steps) && n <= |steps| && d in states[n].clients
    ensures |states[n].list| <= 1
    ensures
      var c := states[n].clients[d];
      && !c.call.Retrying? && c.call != Answered(false) && c.st != RETRY
      && (forall t :: t in c.threads ==> c.threads[t] != AwaitRetry && c.threads[t] != AskingAgain)
  {
    var line := Line(steps[..n]);
    HistoryKeepsLine(states, steps, n);
    assert ClientOk(states[n], line, d);
    if d in line {
      var k := PlaceOf(states[n], line, d);
    }
  }

  /** No revoke ever finds status NONE: its target has, or will get, what it is asked for. */
  lemma RevokeNeverFindsNone(states: seq<System>, steps: seq<Step>, n: nat, d: string)
    requires IsHistory(states, steps) && n <= |steps| && d in states[n].clients
    ensures states[n].clients[d].call.Revoking? ==>
              var call := states[n].clients[d].call;
              && call.phase != Returned(false)
              && (call.phase == Asked ==> call.target in states[n].clients && states[n].clients[call.target].st != NONE)
  {
    var line := Line(steps[..n]);
    HistoryKeepsLine(states, steps, n);
    assert ClientOk(states[n], line, d);
    if d in line {
      var k := PlaceOf(states[n], line, d);
      if k > 0 {
        assert PlaceOk(states[n], line, k - 1);
      }
    }
  }

  /** One token: at most one client has the lock cached, in use or on its way back, and it
      is the one at the front of the line. */
  lemma OneTokenHolder(states: seq<System>, steps: seq<Step>, n: nat, d: string)
    requires IsHistory(states, steps) && n <= |steps| && d in states[n].clients
    requires HasToken(states[n].clients[d]) || states[n].clients[d].st in {FREE, LOCKED, RELEASING}
    ensures Line(steps[..n]) != [] && Line(steps[..n])[0] == d
  {
    HistoryKeepsLine(states, steps, n);
    assert ClientOk(states[n], Line(steps[..n]), d);
    var k := PlaceOf(states[n], Line(steps[..n]), d);
  }

  /** Mutual exclusion: at most one thread of one client owns the lock. */
  lemma OldMutualExclusion(states: seq<System>, steps: seq<Step>, n: nat, d: string, t: nat, e: string, u: nat)
    requires IsHistory(states, steps) && n <= |steps| && d in states[n].clients && e in states[n].clients
    requires At(states[n].clients[d], t, Owner) && At(states[n].clients[e], u, Owner)
    ensures d == e && t == u
  {
    HistoryKeepsLine(states, steps, n);
    assert ClientOk(states[n], Line(steps[..n]), d) && ClientOk(states[n], Line(steps[..n]), e);
    OneTokenHolder(states, steps, n, d);
    OneTokenHolder(states, steps, n, e);
  }

  // ----- first come, first served -----

  function Served(steps: seq<Step>): seq<string> {
    if steps == [] then []
    else
      var last := steps[|steps| - 1];
      Served(steps[..|steps| - 1]) + (if last.Serve? then [last.d] else [])
  }

  function PassedOn(steps: seq<Step>): nat {
    if steps == [] then 0
    else PassedOn(steps[..|steps| - 1]) + (if steps[|steps| - 1].RevokeEnds? then 1 else 0)
  }

  /** The token is passed on in the order in which the server took up the calls: the line is
      always everybody served so far, without as many as gave the token up. */
  lemma {:induction false} TokenFollowsArrivals(states: seq<System>, steps: seq<Step>, n: nat)
    requires IsHistory(states, steps) && n <= |steps|
    ensures PassedOn(steps[..n]) <= |Served(steps[..n])|
    ensures Line(steps[..n]) == Served(steps[..n])[PassedOn(steps[..n])..]
  {
    if n == 0 {
    } else {
      TokenFollowsArrivals(states, steps, n - 1);
      assert steps[..n][..n - 1] == steps[..n - 1];
      assert StepAt(states, steps, n - 1);
      HistoryKeepsLine(states, steps, n - 1);
      if steps[n - 1].RevokeEnds? {
        RevokeEndsKeepsLine(states[n - 1], Line(steps[..n - 1]), steps[n - 1]);
      }
    }
  }
}
