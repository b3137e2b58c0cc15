/** The Paxos proposer: majorities, the prepare, accept and decide loops, and one
    whole `run`. What the network answers to the i-th call is a parameter. */
module Proposers {
  import opened Names
  import opened Proposals
  import opened Acceptors
  import opened PaxosLog
  import opened Sequences

  /** How a call ends at the caller: no connection, no usable reply, or an answer. */
  datatype Call<+T> = NoBind | NoReply | Answered(res: T)

  // ----- majorities -----

  function Support(l1: seq<string>, l2: seq<string>): (n: nat)
    ensures n <= |l1|
  {
    if l1 == [] then 0
    else Support(l1[..|l1| - 1], l2) + if l1[|l1| - 1] in l2 then 1 else 0
  }

  predicate Majority(l1: seq<string>, l2: seq<string>) {
    Support(l1, l2) >= |l1| / 2 + 1
  }

  method IsAMember(m: string, nodes: seq<string>) returns (r: bool)
    ensures r <==> m in nodes
  {
    for i := 0 to |nodes|
      invariant m !in nodes[..i]
    {
      if nodes[i] == m {
        return true;
      }
    }
    return false;
  }

  method ComputeMajority(l1: seq<string>, l2: seq<string>) returns (r: bool)
    ensures r <==> Majority(l1, l2)
  {
    var n := 0;
    for i := 0 to |l1|
      invariant n == Support(l1[..i], l2)
    {
      assert l1[..i + 1][..i] == l1[..i];
      var yes := IsAMember(l1[i], l2);
      if yes {
        n := n + 1;
      }
    }
    assert l1[..|l1|] == l1;
    return n >= |l1| / 2 + 1;
  }

  lemma {:induction false} SupportsOverlap(l: seq<string>, a: seq<string>, b: seq<string>)
    requires Support(l, a) + Support(l, b) > |l|
    ensures exists x :: x in l && x in a && x in b
  {
    var n := |l| - 1;
    if !(l[n] in a && l[n] in b) {
      SupportsOverlap(l[..n], a, b);
      var x :| x in l[..n] && x in a && x in b;
      assert x in l;
    }
  }

  /** Two majorities of one member list share a member, even if the list repeats names. */
  lemma MajoritiesMeet(l: seq<string>, a: seq<string>, b: seq<string>)
    requires Majority(l, a) && Majority(l, b)
    ensures exists x :: x in l && x in a && x in b
  {
    SupportsOverlap(l, a, b);
  }

  /** The places in `l` whose name is in `a`. */
  function Places(l: seq<string>, a: seq<string>): set<int> {
    set j | 0 <= j < |l| && l[j] in a
  }

  lemma {:induction false} SupportCounts(l: seq<string>, a: seq<string>)
    ensures Support(l, a) == |Places(l, a)|
  {
    if l == [] {
      assert Places(l, a) == {};
    } else {
      var n := |l| - 1;
      SupportCounts(l[..n], a);
      if l[n] in a {
        assert Places(l, a) == Places(l[..n], a) + {n};
      } else {
        assert Places(l, a) == Places(l[..n], a);
      }
    }
  }

  /** A majority is more than half of the places of the member list, no more and no less. */
  lemma MajorityExactly(l: seq<string>, a: seq<string>)
    ensures Majority(l, a) <==> 2 * |Places(l, a)| > |l|
  {
    SupportCounts(l, a);
  }

  function Common(l: seq<string>, a: seq<string>): set<string> {
    set x | x in l && x in a
  }

  lemma {:induction false} PlacesAreNames(l: seq<string>, a: seq<string>)
    requires Distinct(l)
    ensures |Places(l, a)| == |Common(l, a)|
  {
    if l == [] {
      assert Places(l, a) == {} && Common(l, a) == {};
    } else {
      var n := |l| - 1;
      var k, x := l[..n], l[n];
      PlacesAreNames(k, a);
      LastPlace(l, a);
      CommonLast(k, x, a);
      assert l == k + [x] && x !in k;
    }
  }

  lemma LastPlace(l: seq<string>, a: seq<string>)
    requires l != []
    ensures |Places(l, a)| == |Places(l[..|l| - 1], a)| + if l[|l| - 1] in a then 1 else 0
  {
    SupportCounts(l, a);
    SupportCounts(l[..|l| - 1], a);
  }

  lemma CommonLast(k: seq<string>, x: string, a: seq<string>)
    requires x !in k
    ensures |Common(k + [x], a)| == |Common(k, a)| + if x in a then 1 else 0
  {
    if x in a {
      assert Common(k + [x], a) == Common(k, a) + {x};
    } else {
      assert Common(k + [x], a) == Common(k, a);
    }
  }

  /** On a list without duplicates: any more than half of the names are a majority. */
  lemma MoreThanHalfIsMajority(l: seq<string>, a: seq<string>)
    requires Distinct(l)
    ensures Majority(l, a) <==> 2 * |Common(l, a)| > |l|
  {
    MajorityExactly(l, a);
    PlacesAreNames(l, a);
  }

  lemma NoMajorityOfNobody(l: seq<string>)
    ensures !Majority([], l)
  {
  }

  // ----- the prepare phase -----

  /** The locals of `prepare`: who promised, the highest vote reported, its value. */
  datatype Tally = Tally(accepts: seq<string>, max: Prop, v: string)

  const EMPTY: Tally := Tally([], Prop(0, ""), "")

  function Count(t: Tally, node: string, na: Prop, va: string): Tally {
    Tally(t.accepts + [node],
          if Gt(na, t.max) then na else t.max,
          if Gt(na, t.max) then va else t.v)
  }

  /** No vote is the number 0 with the empty value, whatever name comes with it. */
  predicate HonestVote(na: Prop, va: string) {
    na.n == 0 ==> va == ""
  }

  /** A tally that holds the best of the votes it counted. */
  predicate TallyOk(t: Tally) {
    HonestVote(t.max, t.v)
  }

  lemma CountKeepsTally(t: Tally, node: string, na: Prop, va: string)
    requires TallyOk(t) && HonestVote(na, va)
    ensures
      var u := Count(t, node, na, va);
      && TallyOk(u)
      && Geq(u.max, t.max) && Geq(u.max, na)
      && ((u.max == t.max && u.v == t.v) || (u.max == na && u.v == va))
  {
    PropOrder(na, t.max);
    PropOrder(t.max, na);
    PropOrder(t.max, t.max);
    PropOrder(na, na);
  }

  predicate Promises(o: Call<PrepareRes>) {
    o.Answered? && o.res.Promised?
  }

  predicate SaysOld(o: Call<PrepareRes>) {
    o.Answered? && o.res.OldInstance?
  }

  predicate Honest(o: Call<PrepareRes>) {
    Promises(o) ==> HonestVote(o.res.na, o.res.va)
  }

  /** One answer taken into account. */
  function Take(t: Tally, node: string, o: Call<PrepareRes>): Tally {
    if Promises(o) then Count(t, node, o.res.na, o.res.va) else t
  }

  /** The tally of a whole prepare phase in which no node says the instance is old. */
  function TallyOf(nodes: seq<string>, answer: nat -> Call<PrepareRes>): Tally {
    if nodes == [] then EMPTY
    else
      var n := |nodes| - 1;
      Take(TallyOf(nodes[..n], answer), nodes[n], answer(n))
  }

  /** `ks` are the numbers below `n` with `yes`, in order. */
  ghost predicate Picks(ks: seq<nat>, n: nat, yes: nat -> bool) {
    && (forall i, j :: 0 <= i < j < |ks| ==> ks[i] < ks[j])
    && (forall k: nat :: k in ks <==> k < n && yes(k))
  }

  /** The names at the places `ks`. */
  ghost predicate NamesAt(names: seq<string>, nodes: seq<string>, ks: seq<nat>) {
    |names| == |ks| && forall j :: 0 <= j < |ks| ==> ks[j] < |nodes| && names[j] == nodes[ks[j]]
  }

  lemma PickOneMore(ks: seq<nat>, n: nat, yes: nat -> bool) returns (more: seq<nat>)
    requires Picks(ks, n, yes)
    ensures Picks(more, n + 1, yes) && more == if yes(n) then ks + [n] else ks
  {
    more := if yes(n) then ks + [n] else ks;
    assert forall j :: 0 <= j < |ks| ==> ks[j] in ks;
    assert forall k: nat :: k in more <==> k in ks || (k == n && yes(n));
  }

  function HasPromised(answer: nat -> Call<PrepareRes>): nat -> bool {
    (i: nat) => answer(i).Answered? && answer(i).res.Promised?
  }

  /** Who is counted in a prepare phase: exactly the nodes that promised, in order. */
  lemma {:induction false} TallyCountsPromises(nodes: seq<string>, answer: nat -> Call<PrepareRes>)
    returns (ks: seq<nat>)
    ensures Picks(ks, |nodes|, HasPromised(answer))
    ensures NamesAt(TallyOf(nodes, answer).accepts, nodes, ks)
  {
    if nodes == [] {
      ks := [];
    } else {
      var n := |nodes| - 1;
      ks := TallyCountsPromises(nodes[..n], answer);
      ks := PickOneMore(ks, n, HasPromised(answer));
    }
  }

  /** `proposer::prepare`. The loop stops at the first node that has already decided
      the instance; `decided` is the value it reports. */
  method Prepare(nodes: seq<string>, answer: nat -> Call<PrepareRes>)
    returns (ok: bool, accepts: seq<string>, v: string, decided: Option<string>)
    ensures ok <==> forall i: nat :: i < |nodes| ==> !SaysOld(answer(i))
    ensures ok ==> accepts == TallyOf(nodes, answer).accepts && v == TallyOf(nodes, answer).v && decided == None
    ensures !ok ==>
      exists k: nat :: k < |nodes| && SaysOld(answer(k)) && decided == Some(answer(k).res.v)
        && forall i: nat :: i < k ==> !SaysOld(answer(i))
  {
    var max := Prop(0, "");
    accepts, v, decided := [], "", None;
    for i := 0 to |nodes|
      invariant decided == None
      invariant forall j: nat :: j < i ==> !SaysOld(answer(j))
      invariant Tally(accepts, max, v) == TallyOf(nodes[..i], answer)
    {
      assert nodes[..i + 1][..i] == nodes[..i];
      var o := answer(i);
      if o.Answered? {
        if o.res.OldInstance? {
          return false, accepts, v, Some(o.res.v);
        }
        if o.res.Promised? {
          accepts := accepts + [nodes[i]];
          if Gt(o.res.na, max) {
            max := o.res.na;
            v := o.res.va;
          }
        }
      }
    }
    assert nodes[..|nodes|] == nodes;
    ok := true;
  }

  /** `v` is the value of the highest-numbered vote among the first `n` answers, and
      is empty exactly when none of them reports a vote. */
  ghost predicate BestVote(n: nat, answer: nat -> Call<PrepareRes>, v: string) {
    (v == "" && forall i: nat :: i < n && Promises(answer(i)) ==> answer(i).res.va == "")
    || (exists k: nat :: k < n && Best(n, answer, k) && answer(k).res.va == v)
  }

  ghost predicate Best(n: nat, answer: nat -> Call<PrepareRes>, k: nat) {
    Promises(answer(k)) && forall i: nat :: i < n && Promises(answer(i)) ==> Geq(answer(k).res.na, answer(i).res.na)
  }

  /** The tally's vote is nobody's yet, or one of the answers counted, and lies above them all. */
  ghost predicate Tops(t: Tally, n: nat, answer: nat -> Call<PrepareRes>) {
    && ((t.max == Prop(0, "") && t.v == "")
        || exists k: nat :: k < n && Promises(answer(k)) && t.max == answer(k).res.na && t.v == answer(k).res.va)
    && (forall i: nat :: i < n && Promises(answer(i)) ==> Geq(t.max, answer(i).res.na))
  }

  lemma TakeTops(t: Tally, node: string, n: nat, answer: nat -> Call<PrepareRes>)
    requires Tops(t, n, answer)
    ensures Tops(Take(t, node, answer(n)), n + 1, answer)
  {
    var u := Take(t, node, answer(n));
    if Promises(answer(n)) {
      var na := answer(n).res.na;
      PropOrder(t.max, na);
      PropOrder(na, t.max);
      PropOrder(na, na);
      forall i: nat | i < n + 1 && Promises(answer(i))
        ensures Geq(u.max, answer(i).res.na)
      {
        if i < n && Gt(na, t.max) {
          PropTransitive(na, t.max, answer(i).res.na);
        }
      }
    }
  }

  lemma {:induction false} TallyTops(nodes: seq<string>, answer: nat -> Call<PrepareRes>)
    ensures Tops(TallyOf(nodes, answer), |nodes|, answer)
  {
    if nodes == [] {
    } else {
      var n := |nodes| - 1;
      TallyTops(nodes[..n], answer);
      TakeTops(TallyOf(nodes[..n], answer), nodes[n], n, answer);
    }
  }

  /** What a prepare phase picks is the value of the highest-numbered vote reported. */
  lemma TallyIsBest(nodes: seq<string>, answer: nat -> Call<PrepareRes>)
    requires forall i: nat :: i < |nodes| ==> Honest(answer(i))
    ensures BestVote(|nodes|, answer, TallyOf(nodes, answer).v)
  {
    var t := TallyOf(nodes, answer);
    TallyTops(nodes, answer);
    if t.max == Prop(0, "") && t.v == "" {
      forall i: nat | i < |nodes| && Promises(answer(i))
        ensures answer(i).res.va == ""
      {
        assert Honest(answer(i)) && Geq(t.max, answer(i).res.na);
      }
    } else {
      var k: nat :| k < |nodes| && Promises(answer(k)) && t.max == answer(k).res.na && t.v == answer(k).res.va;
      assert Best(|nodes|, answer, k);
    }
  }

  // ----- crashed acceptors -----

  /** Two answers that differ at most in a name attached to the number 0. */
  predicate SameCall(a: Call<PrepareRes>, b: Call<PrepareRes>) {
    if a.Answered? && b.Answered? then SamePrepareRes(a.res, b.res) else a == b
  }

  predicate SameTally(t: Tally, u: Tally) {
    t.accepts == u.accepts && SameProp(t.max, u.max) && t.v == u.v && TallyOk(t)
  }

  /** A prepare phase counts the same nodes and picks the same value whether or not names
      attached to the number 0 were lost. */
  lemma {:induction false} TallyIgnoresLostNames(nodes: seq<string>, answer: nat -> Call<PrepareRes>,
          other: nat -> Call<PrepareRes>)
    requires forall i: nat :: i < |nodes| ==> Honest(answer(i)) && SameCall(answer(i), other(i))
    ensures SameTally(TallyOf(nodes, answer), TallyOf(nodes, other))
  {
    if nodes == [] {
    } else {
      var n := |nodes| - 1;
      TallyIgnoresLostNames(nodes[..n], answer, other);
      assert Honest(answer(n)) && SameCall(answer(n), other(n));
    }
  }

  predicate NoEmptyVote(s: AccState) {
    HonestVote(s.na, s.va)
  }

  lemma {:induction false} RunsAreHonest(s: AccState, ops: seq<Op>)
    requires NoEmptyVote(s) && AllProper(ops)
    ensures NoEmptyVote(RunOps(s, ops))
    decreases ops
  {
    if ops == [] {
    } else {
      assert Proper(ops[0]);
      RunsAreHonest(After(s, ops[0]), ops[1..]);
    }
  }

  /** The acceptor `me` after the requests `ops`, as it is in memory. */
  function InMemory(me: string, ops: seq<Op>): AccState {
    RunOps(Fresh(me), ops)
  }

  /** The same acceptor after a crash: what its printed log reads as. */
  function FromLog(me: string, ops: seq<Op>): AccState {
    var read := LogRead(PrintAll(LogOf(Fresh(me), ops)), Fresh(me));
    if read.Some? then read.value else Fresh(me)
  }

  /** What the nodes answer to a prepare after their histories, if some of them crashed since. */
  function AnswersAfter(nodes: seq<string>, history: nat -> seq<Op>, crashed: nat -> bool, inst: nat, num: Prop)
    : nat -> Call<PrepareRes>
  {
    (i: nat) =>
      if i >= |nodes| then NoBind
      else
        var x := if crashed(i) then FromLog(nodes[i], history(i)) else InMemory(nodes[i], history(i));
        Answered(PrepareReply(x, inst, num))
  }

  /** One acceptor answers alike from memory and from its log. */
  lemma AnswersAlike(me: string, ops: seq<Op>, inst: nat, num: Prop)
    requires AllProper(ops) && num.n > 0 && IsName(num.m)
    ensures
      var kept := PrepareReply(InMemory(me, ops), inst, num);
      Honest(Answered(kept)) && SamePrepareRes(kept, PrepareReply(FromLog(me, ops), inst, num))
  {
    RunsAreHonest(Fresh(me), ops);
    CrashReplayRefinesMemory(me, ops, []);
    SameStatesStepAlike(InMemory(me, ops), FromLog(me, ops), PrepareOp(inst, num));
  }

  lemma TallyAfterCrashes(nodes: seq<string>, history: nat -> seq<Op>, none: nat -> bool, crashed: nat -> bool,
                          inst: nat, num: Prop)
    requires forall i: nat :: i < |nodes| ==> AllProper(history(i)) && !none(i)
    requires num.n > 0 && IsName(num.m)
    ensures SameTally(TallyOf(nodes, AnswersAfter(nodes, history, none, inst, num)),
                      TallyOf(nodes, AnswersAfter(nodes, history, crashed, inst, num)))
  {
    var kept := AnswersAfter(nodes, history, none, inst, num);
    var read := AnswersAfter(nodes, history, crashed, inst, num);
    forall i: nat | i < |nodes|
      ensures Honest(kept(i)) && SameCall(kept(i), read(i))
    {
      AnswersAlike(nodes[i], history(i), inst, num);
    }
    TallyIgnoresLostNames(nodes, kept, read);
  }

  /** The value a proposer picks does not depend on which of the nodes it asks crashed and
      read their logs before, whatever each of them had been asked until then. */
  lemma CrashesDoNotChangeChoice(nodes: seq<string>, history: nat -> seq<Op>, crashed: nat -> bool,
                                 others: nat -> bool, inst: nat, num: Prop)
    requires forall i: nat :: i < |nodes| ==> AllProper(history(i))
    requires num.n > 0 && IsName(num.m)
    ensures
      var t := TallyOf(nodes, AnswersAfter(nodes, history, crashed, inst, num));
      var u := TallyOf(nodes, AnswersAfter(nodes, history, others, inst, num));
      t.v == u.v && t.accepts == u.accepts
  {
    var none: nat -> bool := i => false;
    TallyAfterCrashes(nodes, history, none, crashed, inst, num);
    TallyAfterCrashes(nodes, history, none, others, inst, num);
  }

  // ----- the accept phase and a whole run -----

  predicate SaysYes(o: Call<bool>) {
    o.Answered? && o.res
  }

  function Voters(nodes: seq<string>, answer: nat -> Call<bool>): seq<string> {
    if nodes == [] then []
    else
      var n := |nodes| - 1;
      Voters(nodes[..n], answer) + if SaysYes(answer(n)) then [nodes[n]] else []
  }

  function HasVoted(answer: nat -> Call<bool>): nat -> bool {
    (i: nat) => answer(i) == Answered(true)
  }

  /** Who is counted in an accept phase: exactly the nodes that answered yes, in order. */
  lemma {:induction false} VotersSaidYes(nodes: seq<string>, answer: nat -> Call<bool>) returns (ks: seq<nat>)
    ensures Picks(ks, |nodes|, HasVoted(answer))
    ensures NamesAt(Voters(nodes, answer), nodes, ks)
  {
    if nodes == [] {
      ks := [];
    } else {
      var n := |nodes| - 1;
      ks := VotersSaidYes(nodes[..n], answer);
      ks := PickOneMore(ks, n, HasVoted(answer));
    }
  }

  ghost predicate Promised(x: string, nodes: seq<string>, prepares: nat -> Call<PrepareRes>) {
    exists i: nat :: i < |nodes| && nodes[i] == x && prepares(i).Answered? && prepares(i).res.Promised?
  }

  ghost predicate VotedYes(x: string, asked: seq<string>, votes: nat -> Call<bool>) {
    exists i: nat :: i < |asked| && asked[i] == x && votes(i) == Answered(true)
  }

  lemma PromisersExactly(nodes: seq<string>, prepares: nat -> Call<PrepareRes>, x: string)
    ensures x in TallyOf(nodes, prepares).accepts <==> Promised(x, nodes, prepares)
  {
    var names := TallyOf(nodes, prepares).accepts;
    var ks := TallyCountsPromises(nodes, prepares);
    if x in names {
      var j :| 0 <= j < |names| && names[j] == x;
      assert ks[j] in ks;
    }
    if Promised(x, nodes, prepares) {
      var i: nat :| i < |nodes| && nodes[i] == x && prepares(i).Answered? && prepares(i).res.Promised?;
      assert i in ks;
      var j :| 0 <= j < |ks| && ks[j] == i;
      assert names[j] == x;
    }
  }

  lemma VotersExactly(asked: seq<string>, votes: nat -> Call<bool>, x: string)
    ensures x in Voters(asked, votes) <==> VotedYes(x, asked, votes)
  {
    var names := Voters(asked, votes);
    var ks := VotersSaidYes(asked, votes);
    if x in names {
      var j :| 0 <= j < |names| && names[j] == x;
      assert ks[j] in ks;
    }
    if VotedYes(x, asked, votes) {
      var i: nat :| i < |asked| && asked[i] == x && votes(i) == Answered(true);
      assert i in ks;
      var j :| 0 <= j < |ks| && ks[j] == i;
      assert names[j] == x;
    }
  }

  /** The places of the member list whose node promised. */
  ghost function PromisedPlaces(nodes: seq<string>, prepares: nat -> Call<PrepareRes>): set<int> {
    set j | 0 <= j < |nodes| && Promised(nodes[j], nodes, prepares)
  }

  /** The places of the member list whose node answered yes to the accept request. */
  ghost function VotedPlaces(nodes: seq<string>, asked: seq<string>, votes: nat -> Call<bool>): set<int> {
    set j | 0 <= j < |nodes| && VotedYes(nodes[j], asked, votes)
  }

  lemma PromiseMajority(nodes: seq<string>, prepares: nat -> Call<PrepareRes>)
    ensures Majority(nodes, TallyOf(nodes, prepares).accepts) <==> 2 * |PromisedPlaces(nodes, prepares)| > |nodes|
  {
    forall j | 0 <= j < |nodes|
      ensures nodes[j] in TallyOf(nodes, prepares).accepts <==> Promised(nodes[j], nodes, prepares)
    {
      PromisersExactly(nodes, prepares, nodes[j]);
    }
    assert Places(nodes, TallyOf(nodes, prepares).accepts) == PromisedPlaces(nodes, prepares);
    MajorityExactly(nodes, TallyOf(nodes, prepares).accepts);
  }

  lemma VoteMajority(nodes: seq<string>, asked: seq<string>, votes: nat -> Call<bool>)
    ensures Majority(nodes, Voters(asked, votes)) <==> 2 * |VotedPlaces(nodes, asked, votes)| > |nodes|
  {
    forall j | 0 <= j < |nodes|
      ensures nodes[j] in Voters(asked, votes) <==> VotedYes(nodes[j], asked, votes)
    {
      VotersExactly(asked, votes, nodes[j]);
    }
    assert Places(nodes, Voters(asked, votes)) == VotedPlaces(nodes, asked, votes);
    MajorityExactly(nodes, Voters(asked, votes));
  }

  /** `proposer::accept`: the nodes, in order, that took the value. */
  method Accept(nodes: seq<string>, answer: nat -> Call<bool>) returns (accepts: seq<string>)
    ensures accepts == Voters(nodes, answer)
  {
    accepts := [];
    for i := 0 to |nodes|
      invariant accepts == Voters(nodes[..i], answer)
    {
      assert nodes[..i + 1][..i] == nodes[..i];
      var o := answer(i);
      if o.Answered? && o.res {
        accepts := accepts + [nodes[i]];
      }
    }
    assert nodes[..|nodes|] == nodes;
  }

  /** `setn`: above everything this node promised and everything it proposed. */
  function NextNumber(promised: nat, mine: nat): (n: nat)
    ensures n > promised && n > mine && (n == promised + 1 || n == mine + 1)
  {
    if promised + 1 > mine + 1 then promised + 1 else mine + 1
  }

  datatype RunResult =
    | AlreadyRunning
    | LearnedOld(v: string)
    | NoPromises
    | NoVotes(v: string)
    | DecidedOn(v: string, voters: seq<string>)

  class Proposer {
    const me: string
    var n: nat
    var stable: bool

    constructor (me: string)
      ensures this.me == me && n == 0 && stable
    {
      this.me := me;
      n := 0;
      stable := true;
    }

    /** `proposer::run`. A run that is let in uses a number above all earlier ones,
        asks only the nodes that promised to vote, and decides only what a majority
        of the member list promised to hear about and a majority voted for. */
    method Run(nodes: seq<string>, newv: string, promised: nat,
               prepares: nat -> Call<PrepareRes>, votes: nat -> Call<bool>) returns (r: RunResult)
      modifies this
      ensures stable == old(stable)
      ensures r.AlreadyRunning? <==> !old(stable)
      ensures n == if old(stable) then NextNumber(promised, old(n)) else old(n)
      ensures old(stable) ==> (r.LearnedOld? <==> exists i: nat :: i < |nodes| && SaysOld(prepares(i)))
      ensures r.LearnedOld? ==> exists i: nat ::
        && i < |nodes| && SaysOld(prepares(i)) && r.v == prepares(i).res.v
        && forall j: nat :: j < i ==> !SaysOld(prepares(j))
      ensures r.NoPromises? ==> 2 * |PromisedPlaces(nodes, prepares)| <= |nodes|
      ensures r.NoVotes? || r.DecidedOn? ==>
        && 2 * |PromisedPlaces(nodes, prepares)| > |nodes|
        && r.v == if TallyOf(nodes, prepares).v == "" then newv else TallyOf(nodes, prepares).v
      ensures r.NoVotes? ==> 2 * |VotedPlaces(nodes, TallyOf(nodes, prepares).accepts, votes)| <= |nodes|
      ensures r.DecidedOn? ==>
        && 2 * |VotedPlaces(nodes, TallyOf(nodes, prepares).accepts, votes)| > |nodes|
        && forall x :: x in r.voters <==> VotedYes(x, TallyOf(nodes, prepares).accepts, votes)
    {
      if !stable {
        return AlreadyRunning;
      }
      stable := false;
      n := NextNumber(promised, n);
      var ok, accepts, v, decided := Prepare(nodes, prepares);
      if ok {
        PromiseMajority(nodes, prepares);
        VoteMajority(nodes, accepts, votes);
        var most := ComputeMajority(nodes, accepts);
        if most {
          if |v| == 0 {
            v := newv;
          }
          var voters := Accept(accepts, votes);
          forall x ensures x in voters <==> VotedYes(x, accepts, votes) {
            VotersExactly(accepts, votes, x);
          }
          most := ComputeMajority(nodes, voters);
          r := if most then DecidedOn(v, voters) else NoVotes(v);
        } else {
          r := NoPromises;
        }
      } else {
        r := LearnedOld(decided.value);
      }
      stable := true;
    }
  }
}
