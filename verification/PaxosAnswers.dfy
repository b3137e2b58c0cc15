/** What the requests of the Paxos system are answered in every reachable state, and what a
    restarted node has. */
module PaxosAnswers {
  import opened Names
  import opened Proposals
  import opened Acceptors
  import opened PaxosLog
  import opened PaxosSystem
  import opened PaxosInvariant
  import opened PaxosSafety

  /** A prepare for an instance that the node has decided is answered with the decided value. */
  lemma OldPrepareIsAnswered(s: System, first: string, r: nat, a: string)
    requires Reachable(s, first) && Enabled(s, DeliverPrepare(r, a)) && s.runs[r].inst <= s.hosts[a].acc.inst
    ensures
      var t, i, vals := Apply(s, DeliverPrepare(r, a)), s.runs[r].inst, s.hosts[a].acc.vals;
      && i in vals && Decided(s, i, vals[i]) && OldReply(r, a, vals[i]) in t.msgs
      && t.hosts[a].acc == s.hosts[a].acc
  {
    ReachableInv(s, first);
    assert HostOk(s, a) && RunOk(s, r);
  }

  /** A prepare for the open instance is promised if and only if its number is above the promise;
      the promise reports the node's vote, and otherwise nothing changes. */
  lemma PrepareIsAnswered(s: System, r: nat, a: string)
    requires Enabled(s, DeliverPrepare(r, a)) && s.runs[r].inst == s.hosts[a].acc.inst + 1
    ensures
      var t, num, x := Apply(s, DeliverPrepare(r, a)), s.runs[r].num, s.hosts[a].acc;
      if num.n > x.nh.n || (num.n == x.nh.n && Below(x.nh.m, num.m))
      then t.hosts[a].acc == x.(nh := num) && Promise(r, a, x.na, x.va) in t.msgs
      else t == s
  {
    BelowIsStrictAndTotal(s.runs[r].num.m, s.hosts[a].acc.nh.m);
    var h := s.hosts[a];
    assert h.recs + [] == h.recs && s.msgs + {} == s.msgs;
  }

  /** An accept for the open instance is voted for if and only if it carries the number promised
      last; otherwise nothing changes. */
  lemma AcceptIsAnswered(s: System, first: string, r: nat, a: string)
    requires Reachable(s, first) && Enabled(s, DeliverAccept(r, a)) && s.runs[r].inst == s.hosts[a].acc.inst + 1
    ensures
      var t, run, x := Apply(s, DeliverAccept(r, a)), s.runs[r], s.hosts[a].acc;
      if x.nh == run.num
      then t.hosts[a].acc == x.(na := run.num, va := run.val) && AcceptOk(r, a) in t.msgs
      else t == s
  {
    VotesFollowPromises(s, first, r, a);
    var h := s.hosts[a];
    assert h.recs + [] == h.recs && s.msgs + {} == s.msgs;
  }

  /** A decide brings a node that has the instance open the decided value, and clears its votes. */
  lemma DecideIsTakenIn(s: System, first: string, r: nat, a: string)
    requires Reachable(s, first) && Enabled(s, DeliverDecide(r, a)) && s.runs[r].inst == s.hosts[a].acc.inst + 1
    ensures
      var x, run := Apply(s, DeliverDecide(r, a)).hosts[a].acc, s.runs[r];
      && x.inst == run.inst && run.inst in x.vals && x.vals[run.inst] == run.val && Decided(s, run.inst, run.val)
      && x.nh.n == 0 && x.na.n == 0 && x.va == ""
  {
    ReachableInv(s, first);
    NoDecideAborts(s, first, r, a);
    assert MsgOk(s, Decide(r, a)) && ChosenAs(s, r, s.runs[r].inst, s.runs[r].val);
  }

  /** A proposer that learns of a decision takes it over. */
  lemma OldReplyTeaches(s: System, first: string, r: nat, v: string)
    requires Reachable(s, first) && Enabled(s, TakeOld(r, v))
    ensures
      var a, i := s.runs[r].owner, s.runs[r].inst;
      var x := Apply(s, TakeOld(r, v)).hosts[a].acc;
      Decided(s, i, v) && x.inst >= i && i in x.vals && x.vals[i] == v
  {
    ReachableInv(s, first);
    var run := s.runs[r];
    var x := s.hosts[run.owner].acc;
    assert RunOk(s, r) && HostOk(s, run.owner);
    assert MsgOk(s, OldReply(r, run.nodes[run.idx], v));
    if run.inst <= x.inst {
      DecisionIsUnique(s, run.inst, v, x.vals[run.inst]);
    }
  }

  /** The host `g` is `h` after a restart: it has exactly what its log says, which is what it had
      but for names at the number 0, and its proposer counts from 0 again. */
  predicate Restarted(g: Host, h: Host, a: string) {
    && g.acc == ReplayAll(Fresh(a), h.recs) && Same(g.acc, h.acc)
    && g.recs == h.recs && g.myn == 0 && g.stable && g.epoch != h.epoch
  }

  lemma RebootedHost(h: Host, a: string)
    requires h.acc.me == a && Tracks(h.acc, h.recs)
    ensures Restarted(Reboot(h, a), h, a)
  {
    PrintedLogReplays(h.recs, Fresh(a));
  }

  lemma HostTracks(s: System, first: string, a: string)
    requires Reachable(s, first) && a in s.hosts
    ensures s.hosts[a].acc.me == a && Tracks(s.hosts[a].acc, s.hosts[a].recs)
  {
    ReachableInv(s, first);
    assert HostOk(s, a);
  }

  /** A crash of any node in any reachable state is such a restart, and nothing else changes. */
  lemma RestartHasLog(s: System, first: string, a: string, t: System)
    requires Reachable(s, first) && a in s.hosts && t == Apply(s, Crash(a))
    ensures a in t.hosts && Restarted(t.hosts[a], s.hosts[a], a)
    ensures t == SetHost(s, a, t.hosts[a])
  {
    HostTracks(s, first, a);
    RebootedHost(s.hosts[a], a);
  }

  /** No run that a node had under way goes on after its restart. */
  lemma RestartEndsRuns(s: System, a: string, r: nat, phase: Phase)
    requires a in s.hosts && Active(s, r, phase) && s.runs[r].owner == a
    ensures !Active(Apply(s, Crash(a)), r, phase)
  {
  }
}
