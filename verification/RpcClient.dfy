/** The client half of at-most-once RPC: request numbers and the window of
    acknowledged ones. */
module RpcClient {

  // ----- update_xid_rep as a function -----

  function Insert(w: seq<nat>, xid: nat): seq<nat> {
    if w == [] then [xid]
    else if w[0] > xid then [xid] + w
    else [w[0]] + Insert(w[1..], xid)
  }

  /** The compress loop with its iterator at position `i`. Popping the front moves the
      iterator's element one place forward. */
  function Compress(w: seq<nat>, i: nat): (u: seq<nat>)
    requires i <= |w|
    ensures w != [] ==> u != []
    decreases |w| - i, i
  {
    if i == |w| then w
    else if w[0] + 1 == w[i] then Compress(w[1..], i - 1)
    else Compress(w, i + 1)
  }

  function Updated(w: seq<nat>, xid: nat): (u: seq<nat>)
    requires w != []
    ensures u != []
  {
    if xid <= w[0] then w else InsertKeeps(w, xid); Compress(Insert(w, xid), 1)
  }

  // ----- what the window means -----

  predicate Sorted(w: seq<nat>) {
    forall i, j :: 0 <= i < j < |w| ==> w[i] <= w[j]
  }

  /** `w` stands for the set `done` of reported requests: its front is the end of the
      unbroken run of reported numbers from 1 on, and above the front it holds exactly
      the other reported numbers, some of them possibly twice. */
  ghost predicate Acks(w: seq<nat>, done: set<nat>) {
    && w != [] && Sorted(w)
    && (forall k: nat :: 1 <= k <= w[0] ==> k in done)
    && w[0] + 1 !in done
    && (forall x :: x in w <==> x == w[0] || (x in done && x > w[0]))
  }

  /** The front is determined by the set: it is the largest `f` with all of 1..f reported. */
  lemma FrontIsLargest(w: seq<nat>, done: set<nat>, f: nat)
    requires Acks(w, done)
    ensures (forall k: nat :: 1 <= k <= f ==> k in done) <==> f <= w[0]
  {
    if f > w[0] {
      assert 1 <= w[0] + 1 <= f && w[0] + 1 !in done;
    }
  }

  lemma {:induction false} InsertKeeps(w: seq<nat>, xid: nat)
    ensures |Insert(w, xid)| == |w| + 1
    ensures forall x :: x in Insert(w, xid) <==> x in w || x == xid
    ensures Sorted(w) ==> Sorted(Insert(w, xid))
    ensures w != [] && w[0] <= xid ==> Insert(w, xid)[0] == w[0]
  {
    if w == [] || w[0] > xid {
    } else {
      InsertKeeps(w[1..], xid);
      assert forall x :: x in w <==> x == w[0] || x in w[1..];
      if Sorted(w) {
        assert forall x :: x in w[1..] ==> w[0] <= x;
      }
    }
  }

  /** The state of the compress loop: everything before the iterator differs from front + 1. */
  ghost predicate Compressing(w: seq<nat>, i: nat, done: set<nat>) {
    && w != [] && Sorted(w) && i <= |w|
    && (forall k: nat :: 1 <= k <= w[0] ==> k in done)
    && (forall x :: x in w <==> x == w[0] || (x in done && x > w[0]))
    && (forall j :: 0 <= j < i ==> w[j] != w[0] + 1)
  }

  /** One pop: the iterator is beyond the element that goes, and the new front is reported. */
  lemma PopKeeps(w: seq<nat>, i: nat, done: set<nat>)
    requires Compressing(w, i, done) && i < |w| && w[0] + 1 == w[i]
    ensures i > 0
    ensures Compressing(w[1..], i - 1, done)
  {
    var u := w[1..];
    forall j | 0 <= j < i ensures w[j] == w[0] {
      assert w[j] <= w[i];
      assert j > 0 ==> w[0] <= w[j];
    }
    assert w[i] in w;
    if i == 1 {
      assert u[0] == w[0] + 1;
      forall x ensures x in u <==> x == u[0] || (x in done && x > u[0]) {
        assert x in w <==> x == w[0] || x in u;
        if x in u { assert x >= u[0]; }
      }
    } else {
      assert u[0] == w[1] == w[0];
      assert forall x :: x in w <==> x == w[0] || x in u;
    }
  }

  lemma {:induction false} CompressFinishes(w: seq<nat>, i: nat, done: set<nat>)
    requires Compressing(w, i, done)
    ensures Acks(Compress(w, i), done)
    decreases |w| - i, i
  {
    if i == |w| {
      var next := w[0] + 1;
      assert next in w <==> next in done;
    } else if w[0] + 1 == w[i] {
      PopKeeps(w, i, done);
      CompressFinishes(w[1..], i - 1, done);
    } else {
      CompressFinishes(w, i + 1, done);
    }
  }

  /** Reporting any number, new or not, keeps the meaning of the window. */
  lemma UpdateReports(w: seq<nat>, done: set<nat>, xid: nat)
    requires Acks(w, done)
    ensures Acks(Updated(w, xid), done + {xid})
  {
    if xid <= w[0] {
      if xid > 0 {
        assert xid in done;
      }
    } else {
      InsertKeeps(w, xid);
      CompressFinishes(Insert(w, xid), 1, done + {xid});
    }
  }

  /** Over whole runs: after any sequence of reports the window stands for the set of
      numbers reported. */
  function UpdatedAll(w: seq<nat>, xids: seq<nat>): (u: seq<nat>)
    requires w != []
    ensures u != []
    decreases xids
  {
    if xids == [] then w
    else Updated(UpdatedAll(w, xids[..|xids| - 1]), xids[|xids| - 1])
  }

  function AsSet(xids: seq<nat>): set<nat> {
    set x | x in xids
  }

  lemma {:induction false} WindowAfterAnyReports(xids: seq<nat>)
    ensures Acks(UpdatedAll([0], xids), AsSet(xids))
    decreases xids
  {
    if xids == [] {
      assert UpdatedAll([0], xids) == [0];
      assert Acks([0], {});
      assert AsSet(xids) == {};
    } else {
      var n := |xids| - 1;
      WindowAfterAnyReports(xids[..n]);
      UpdateReports(UpdatedAll([0], xids[..n]), AsSet(xids[..n]), xids[n]);
      assert xids == xids[..n] + [xids[n]];
      assert AsSet(xids) == AsSet(xids[..n]) + {xids[n]};
    }
  }

  // ----- the object -----

  datatype Header = Header(xid: nat, rep: nat)

  class RpcClient {
    var nextXid: nat
    var window: seq<nat>
    var calls: set<nat>
    ghost var reported: set<nat>

    ghost predicate Valid()
      reads this
    {
      nextXid > 0 && Acks(window, reported) && forall x :: x in calls ==> x < nextXid
    }

    /** Only replies to requests that were issued have come in. */
    ghost predicate OnlyIssued()
      reads this
    {
      forall x :: x in reported ==> x < nextXid
    }

    constructor ()
      ensures Valid() && nextXid == 1 && window == [0] && calls == {} && reported == {}
    {
      nextXid, window, calls, reported := 1, [0], {}, {};
    }

    /** The locked part of `call1`: take a number and put the acknowledgement into the
        header. The acknowledged number is below the new one if no reply came that was never
        asked for. */
    method Issue() returns (h: Header)
      requires Valid()
      modifies this
      ensures Valid() && window == old(window) && reported == old(reported)
      ensures h.xid == old(nextXid) && nextXid == old(nextXid) + 1 && calls == old(calls) + {h.xid}
      ensures old(OnlyIssued()) ==> OnlyIssued() && h.rep < h.xid
      ensures (forall k: nat :: 1 <= k <= h.rep ==> k in reported) && h.rep + 1 !in reported
    {
      assert window[0] > 0 ==> window[0] in reported;
      h := Header(nextXid, window[0]);
      calls := calls + {nextXid};
      nextXid := nextXid + 1;
    }

    method UpdateXidRep(xid: nat)
      requires Valid()
      modifies this`window, this`reported
      ensures Valid() && reported == old(reported) + {xid}
      ensures old(OnlyIssued()) && xid < nextXid ==> OnlyIssued()
      ensures window == Updated(old(window), xid)
    {
      ghost var w0 := window;
      UpdateReports(w0, reported, xid);
      reported := reported + {xid};
      ghost var now := reported;
      if xid <= window[0] {
        return;
      }
      InsertKeeps(window, xid);
      window := InsertSorted(window, xid);
      var it := 1;
      while it < |window|
        invariant 0 < |window| && 0 <= it <= |window| && reported == now
        invariant Compress(window, it) == Compress(Insert(w0, xid), 1)
        decreases |window| - it
      {
        ghost var left := |window| - it;
        while window[0] + 1 == window[it]
          invariant 0 <= it < |window| && |window| - it == left && reported == now
          invariant Compress(window, it) == Compress(Insert(w0, xid), 1)
          decreases it
        {
          window := window[1..];
          it := it - 1;
        }
        it := it + 1;
      }
    }

    static method InsertSorted(w: seq<nat>, xid: nat) returns (u: seq<nat>)
      ensures u == Insert(w, xid)
    {
      for i := 0 to |w|
        invariant Insert(w, xid) == w[..i] + Insert(w[i..], xid)
      {
        if w[i] > xid {
          return w[..i] + [xid] + w[i..];
        }
        assert w[..i + 1] == w[..i] + [w[i]] && w[i..][1..] == w[i + 1..];
        assert w[..i] + ([w[i]] + Insert(w[i + 1..], xid)) == w[..i + 1] + Insert(w[i + 1..], xid);
      }
      assert w[..|w|] == w && w[|w|..] == [];
      return w + [xid];
    }

    /** `got_pdu`: a reply is reported whether or not anybody still waits for it. */
    method GotReply(xid: nat) returns (pending: bool)
      requires Valid()
      modifies this`window, this`reported
      ensures Valid() && reported == old(reported) + {xid}
      ensures old(OnlyIssued()) && xid < nextXid ==> OnlyIssued()
      ensures window == Updated(old(window), xid)
      ensures pending <==> xid in calls
    {
      UpdateXidRep(xid);
      pending := xid in calls;
    }

    /** The end of `call1`, also after a timeout: the number is reported once more. */
    method EndCall(xid: nat)
      requires Valid() && xid in calls
      modifies this`window, this`reported, this`calls
      ensures Valid() && calls == old(calls) - {xid} && (old(OnlyIssued()) ==> OnlyIssued())
      ensures reported == old(reported) + {xid} && window == Updated(old(window), xid)
    {
      UpdateXidRep(xid);
      calls := calls - {xid};
    }
  }
}
