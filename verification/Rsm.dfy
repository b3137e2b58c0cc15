/** One node of the replicated state machine: view changes, synchronisation and the
    execution of requests. Each function is one section run under the node's mutexes. */
module Rsm {
  import opened Names
  import opened Primaries

  datatype Stamp = Stamp(vid: nat, seqno: nat)

  /** Where the recovery thread is. */
  datatype Recovery =
    | Top           // about to look at the committed view
    | AwaitInvoke   // primary: waits for the invoke mutex
    | Passed        // primary: had the invoke mutex once
    | WaitBackups   // primary: `insync`, waits until `backups` is empty
    | Transfer      // backup: asks the primary for its state
    | TransferDone  // backup: tells the primary it has it
    | Asleep

  /** Who holds the invoke mutex: nobody, a client request being forwarded to `members`, or
      a forwarded request that passed its checks and is about to be executed. */
  datatype Busy =
    | Idle
    | Serving(req: nat, vs: Stamp, members: seq<string>, idx: nat)
    | Executing(req: nat, vs: Stamp)

  /** `last` is `last_myvs`, and `state` stands for the replicated state: the requests, with the
      view they were stamped with, whose effects this node has. History besides: the requests it
      executed itself; for each view it served as primary, its state when it started to; and
      the view and primary it entered with. */
  datatype Node = Node(
    vidCommit: nat, vidInsync: nat, insync: bool, inviewchange: bool, myvs: Stamp, last: Stamp,
    primary: string, backups: seq<string>, pc: Recovery, syncFrom: string, busy: Busy,
    state: set<(nat, nat)>, executed: set<(nat, nat)>, served: map<nat, set<(nat, nat)>>, from: nat, start: string)

  function Fresh(first: string): Node {
    Node(0, 0, false, true, Stamp(0, 1), Stamp(0, 0), first, [], Asleep, "", Idle, {}, {}, map[], 0, first)
  }

  /** The first occurrence goes. */
  function Erased(l: seq<string>, x: string): seq<string> {
    if l == [] then [] else if l[0] == x then l[1..] else [l[0]] + Erased(l[1..], x)
  }

  /** `commit_change_wo` for a later view, given the previous and the new member list. */
  function Committed(n: Node, vid: nat, p: seq<string>, c: seq<string>): Node {
    var next := SetPrimary(n.primary, p, c);
    n.(vidCommit := vid, inviewchange := true, primary := if next.Some? then next.value else n.primary)
  }

  /** The top of the recovery loop for a member of the committed view. */
  function StartSync(n: Node, me: string): Node {
    n.(vidInsync := n.vidCommit, pc := if n.primary == me then AwaitInvoke else Transfer, syncFrom := n.primary)
  }

  /** The primary starts accepting synchronisation requests. */
  function OpenSync(n: Node, me: string, view: seq<string>): Node {
    n.(insync := true, backups := Erased(view, me), pc := WaitBackups)
  }

  predicate SyncOver(n: Node) {
    n.backups == [] || n.vidInsync != n.vidCommit
  }

  /** After a sync: start again if a view was committed meanwhile, else the view change is over. */
  function Settle(n: Node, me: string): Node {
    if n.vidInsync != n.vidCommit then n.(insync := false, pc := Top)
    else
      n.(insync := false, myvs := Stamp(n.vidCommit, 1), inviewchange := false, pc := Asleep,
         served := if n.primary == me && n.vidCommit !in n.served then n.served[n.vidCommit := n.state] else n.served)
  }

  predicate TransferAllowed(n: Node, vid: nat) {
    n.insync && vid == n.vidInsync
  }

  predicate AmIPrimary(n: Node, me: string) {
    n.primary == me && !n.inviewchange
  }

  /** A client request is let in, stamped with the current view. */
  predicate MayServe(n: Node, me: string) {
    n.busy == Idle && !n.inviewchange && AmIPrimary(n, me)
  }

  predicate MayExecute(n: Node, me: string, vs: Stamp) {
    n.busy == Idle && !n.inviewchange && !AmIPrimary(n, me) && vs == n.myvs
  }

  function Execute(n: Node, req: nat, vid: nat): Node {
    n.(state := n.state + {(req, vid)}, executed := n.executed + {(req, vid)}, busy := Idle)
  }

  /** What `transferreq` sends: the state goes along only to a node with another `last_myvs`. */
  function Sent(p: Node, last: Stamp): set<(nat, nat)> {
    if last != p.last then p.state else {}
  }

  /** `statetransfer`: what was sent is laid over the own state, if the stamps differ. */
  function Received(n: Node, last: Stamp, state: set<(nat, nat)>): Node {
    n.(pc := TransferDone, last := last, state := if n.last != last then n.state + state else n.state)
  }

  datatype InvokeResult = Acknowledged | TryLater | NotPrimary

  // ----- the object -----

  class RsmNode {
    const me: string
    var vidCommit: nat
    var vidInsync: nat
    var insync: bool
    var inviewchange: bool
    var myvs: Stamp
    var last: Stamp
    var primary: string
    var backups: seq<string>
    ghost var model: Node

    /** The fields agree with the model node. */
    ghost predicate Valid()
      reads this
    {
      model.vidCommit == vidCommit && model.vidInsync == vidInsync && model.insync == insync
      && model.inviewchange == inviewchange && model.myvs == myvs && model.last == last && model.primary == primary
      && model.backups == backups
    }

    constructor (first: string, me: string)
      ensures Valid() && model == Fresh(first) && this.me == me
    {
      this.me := me;
      vidCommit, vidInsync, insync, inviewchange := 0, 0, false, true;
      myvs, last, primary, backups := Stamp(0, 1), Stamp(0, 0), first, [];
      model := Fresh(first);
    }

    /** The loops of `set_primary`; `ok` is false where a VERIFY fails. */
    static method ChoosePrimary(primary: string, p: seq<string>, c: seq<string>) returns (ok: bool, next: string)
      ensures ok <==> SetPrimary(primary, p, c).Some?
      ensures ok ==> next == SetPrimary(primary, p, c).value
      ensures !ok ==> next == primary
    {
      if |c| == 0 {
        return false, primary;
      }
      if primary in c {
        return true, primary;
      }
      for i := 0 to |p|
        invariant FirstIn(p, c) == FirstIn(p[i..], c)
      {
        if p[i] in c {
          return true, p[i];
        }
        assert p[i..][1..] == p[i + 1..];
      }
      return false, primary;
    }

    method CommitChange(vid: nat, p: seq<string>, c: seq<string>) returns (ok: bool)
      requires Valid()
      modifies this
      ensures Valid()
      ensures model == if vid <= old(vidCommit) then old(model) else Committed(old(model), vid, p, c)
      ensures ok <==> vid <= old(vidCommit) || SetPrimary(old(primary), p, c).Some?
    {
      if vid <= vidCommit {
        return true;
      }
      vidCommit := vid;
      inviewchange := true;
      ok, primary := ChoosePrimary(primary, p, c);
      model := Committed(model, vid, p, c);
    }

    static method Erase(l: seq<string>, x: string) returns (r: seq<string>)
      ensures r == Erased(l, x)
    {
      for i := 0 to |l|
        invariant Erased(l, x) == l[..i] + Erased(l[i..], x)
      {
        if l[i] == x {
          assert l[i..][1..] == l[i + 1..];
          return l[..i] + l[i + 1..];
        }
        assert l[i..][1..] == l[i + 1..];
        assert l[..i] + ([l[i]] + Erased(l[i + 1..], x)) == l[..i + 1] + Erased(l[i + 1..], x);
      }
      assert l[..|l|] == l && l[|l|..] == [];
      return l;
    }

    /** The section of `sync_with_backups` after the pass through the invoke mutex, up to the
        wait: from here on every other member of the view is outstanding. */
    method OpenBackups(view: seq<string>)
      requires Valid()
      modifies this
      ensures Valid() && model == OpenSync(old(model), me, view)
    {
      insync := true;
      backups := Erase(view, me);
      model := OpenSync(model, me, view);
    }

    method EndSync() returns (settled: bool)
      requires Valid()
      modifies this
      ensures Valid() && model == Settle(old(model), me) && settled == (old(vidInsync) == old(vidCommit))
    {
      insync := false;
      settled := vidInsync == vidCommit;
      if settled {
        myvs := Stamp(vidCommit, 1);
        inviewchange := false;
      }
      model := Settle(model, me);
    }

    /** `transferreq`: `carries` says whether the state is sent along. */
    method TransferReq(theirs: Stamp, vid: nat) returns (ok: bool, carries: bool, mine: Stamp)
      requires Valid()
      ensures ok == TransferAllowed(model, vid) && mine == last
      ensures carries <==> ok && theirs != last
      ensures ok && !carries ==> Sent(model, theirs) == {}
    {
      ok := !(!insync || vid != vidInsync);
      carries := ok && theirs != last;
      mine := last;
    }

    method TransferDoneReq(m: string, vid: nat) returns (ok: bool)
      requires Valid()
      modifies this
      ensures Valid() && ok == TransferAllowed(old(model), vid)
      ensures model == if ok then old(model).(backups := Erased(old(backups), m)) else old(model)
    {
      if !insync || vid != vidInsync {
        return false;
      }
      backups := Erase(backups, m);
      model := model.(backups := backups);
      return true;
    }

    /** `client_invoke`: `answers(i)` says whether the i-th member executed the forwarded
        request. The request is executed here, and acknowledged, only after all of them did. */
    method ClientInvoke(req: nat, view: seq<string>, answers: nat -> bool) returns (r: InvokeResult)
      requires Valid() && model.busy == Idle
      modifies this`model
      ensures Valid()
      ensures model == if r == Acknowledged then Execute(old(model), req, myvs.vid) else old(model)
      ensures r == NotPrimary <==> !inviewchange && primary != me
      ensures r == Acknowledged <==>
        AmIPrimary(old(model), me) && forall i: nat :: i < |view| && view[i] != me ==> answers(i)
    {
      if inviewchange {
        return TryLater;
      }
      if primary != me {
        return NotPrimary;
      }
      for i := 0 to |view|
        invariant forall j: nat :: j < i && view[j] != me ==> answers(j)
      {
        if view[i] != me && !answers(i) {
          return TryLater;
        }
      }
      model := Execute(model, req, myvs.vid);
      return Acknowledged;
    }

    /** `invoke`: a forwarded request is executed exactly by a backup outside a view change that
        has the sender's stamp. */
    method Invoke(req: nat, vs: Stamp) returns (ok: bool)
      requires Valid() && model.busy == Idle
      modifies this`model
      ensures Valid() && ok == MayExecute(old(model), me, vs)
      ensures model == if ok then Execute(old(model), req, vs.vid) else old(model)
    {
      if inviewchange || primary == me || vs != myvs {
        return false;
      }
      model := Execute(model, req, vs.vid);
      return true;
    }
  }
}
