/** The server half of at-most-once RPC: one window of remembered requests per client. */
module RpcServer {

  /** A remembered request: `present` once its reply is recorded in `buf`. */
  datatype Entry = Entry(xid: nat, present: bool, buf: string)

  datatype Verdict = New | InProgress | Done(buf: string) | Forgotten

  // ----- checkduplicate_and_update and add_reply as functions -----

  /** Entries below the acknowledged number go; the entry at that number stays. */
  function Trim(w: seq<Entry>, rep: nat): seq<Entry> {
    if w != [] && w[0].xid < rep then Trim(w[1..], rep) else w
  }

  /** The first position whose number is not below `xid`. */
  function Place(w: seq<Entry>, xid: nat): (i: nat)
    ensures i <= |w|
  {
    if w == [] || w[0].xid >= xid then 0 else 1 + Place(w[1..], xid)
  }

  lemma {:induction false} PlaceMeaning(w: seq<Entry>, xid: nat)
    ensures forall j :: 0 <= j < Place(w, xid) ==> w[j].xid < xid
    ensures Place(w, xid) < |w| ==> w[Place(w, xid)].xid >= xid
  {
    if w == [] || w[0].xid >= xid {
    } else {
      PlaceMeaning(w[1..], xid);
      forall j | 0 <= j < Place(w, xid) ensures w[j].xid < xid {
        if j > 0 {
          assert w[j] == w[1..][j - 1];
        }
      }
    }
  }

  function Judge(t: seq<Entry>, xid: nat): Verdict {
    if t == [] || t[|t| - 1].xid < xid then New
    else if t[0].xid > xid then Forgotten
    else
      var i := Place(t, xid);
      if i < |t| && t[i].xid == xid then if t[i].present then Done(t[i].buf) else InProgress
      else New
  }

  /** A new request goes to the end if it is the largest, else before the first larger one. */
  function Admit(t: seq<Entry>, xid: nat): seq<Entry> {
    var i := if t == [] || t[|t| - 1].xid < xid then |t| else Place(t, xid);
    t[..i] + [Entry(xid, false, "")] + t[i..]
  }

  function Check(w: seq<Entry>, xid: nat, rep: nat): (seq<Entry>, Verdict) {
    var t := Trim(w, rep);
    var v := Judge(t, xid);
    (if v == New then Admit(t, xid) else t, v)
  }

  /** Position of the entry for `xid`, or the length of the window. */
  function Find(w: seq<Entry>, xid: nat): (i: nat)
    ensures i <= |w|
  {
    if w == [] || w[0].xid == xid then 0 else 1 + Find(w[1..], xid)
  }

  lemma {:induction false} FindMeaning(w: seq<Entry>, xid: nat)
    ensures Find(w, xid) < |w| ==> w[Find(w, xid)].xid == xid
    ensures forall j :: 0 <= j < Find(w, xid) ==> w[j].xid != xid
    ensures Find(w, xid) < |w| <==> Holds(w, xid)
  {
    if w == [] || w[0].xid == xid {
    } else {
      FindMeaning(w[1..], xid);
      forall j | 0 <= j < Find(w, xid) ensures w[j].xid != xid {
        if j > 0 {
          assert w[j] == w[1..][j - 1];
        }
      }
    }
  }

  function Recorded(w: seq<Entry>, xid: nat, buf: string): seq<Entry> {
    var i := Find(w, xid);
    if i < |w| then w[i := Entry(xid, true, buf)] else w
  }

  // ----- what the window guarantees -----

  predicate Ordered(w: seq<Entry>) {
    forall i, j :: 0 <= i < j < |w| ==> w[i].xid < w[j].xid
  }

  predicate Holds(w: seq<Entry>, xid: nat) {
    exists i :: 0 <= i < |w| && w[i].xid == xid
  }

  /** Exactly what the window holds: of the requests `seen` that were ever let in, those not
      below `top`, the largest acknowledgement received. It is empty only before the first. */
  ghost predicate Exact(w: seq<Entry>, seen: set<nat>, top: nat) {
    && Ordered(w)
    && (w == [] ==> seen == {} && top == 0)
    && (forall x: nat {:trigger Holds(w, x)} :: Holds(w, x) <==> x in seen && x >= top)
  }

  lemma {:induction false} TrimMeaning(w: seq<Entry>, rep: nat)
    requires Ordered(w)
    ensures Ordered(Trim(w, rep))
    ensures forall x: nat :: Holds(Trim(w, rep), x) <==> Holds(w, x) && x >= rep
    ensures Trim(w, rep) != [] ==> w[0].xid <= Trim(w, rep)[0].xid
  {
    if w == [] {
    } else if w[0].xid < rep {
      TrimMeaning(w[1..], rep);
      forall x: nat ensures Holds(w, x) <==> x == w[0].xid || Holds(w[1..], x) {
        if Holds(w[1..], x) {
          var i :| 0 <= i < |w[1..]| && w[1..][i].xid == x;
          assert w[i + 1].xid == x;
        }
        if Holds(w, x) && x != w[0].xid {
          var i :| 0 <= i < |w| && w[i].xid == x;
          assert w[1..][i - 1].xid == x;
        }
      }
      if Trim(w, rep) != [] {
        assert w[1..][0].xid <= Trim(w, rep)[0].xid;
      }
    } else {
      forall x: nat | Holds(w, x) ensures x >= rep {
        var i :| 0 <= i < |w| && w[i].xid == x;
        assert w[0].xid <= w[i].xid;
      }
    }
  }

  /** Admitting a number keeps the order; its position is the number of smaller entries. */
  lemma AdmitShape(t: seq<Entry>, xid: nat, i: nat)
    requires Ordered(t) && i <= |t|
    requires forall j :: 0 <= j < i ==> t[j].xid < xid
    requires forall j :: i <= j < |t| ==> t[j].xid > xid
    ensures Ordered(t[..i] + [Entry(xid, false, "")] + t[i..])
  {
    var u := t[..i] + [Entry(xid, false, "")] + t[i..];
    forall a, b | 0 <= a < b < |u| ensures u[a].xid < u[b].xid {
      assert u[a] == if a < i then t[a] else if a == i then Entry(xid, false, "") else t[a - 1];
      assert u[b] == if b < i then t[b] else if b == i then Entry(xid, false, "") else t[b - 1];
    }
  }

  lemma AdmitHolds(t: seq<Entry>, e: Entry, i: nat, x: nat)
    requires i <= |t|
    ensures Holds(t[..i] + [e] + t[i..], x) <==> Holds(t, x) || x == e.xid
  {
    var u := t[..i] + [e] + t[i..];
    if Holds(t, x) {
      var j :| 0 <= j < |t| && t[j].xid == x;
      assert u[if j < i then j else j + 1] == t[j];
    }
    if x == e.xid {
      assert u[i].xid == x;
    }
    if Holds(u, x) && x != e.xid {
      var j :| 0 <= j < |u| && u[j].xid == x;
      assert u[j] == t[if j < i then j else j - 1];
    }
  }

  lemma AdmitMeaning(t: seq<Entry>, xid: nat)
    requires Ordered(t) && !Holds(t, xid)
    ensures Ordered(Admit(t, xid))
    ensures forall x: nat :: Holds(Admit(t, xid), x) <==> Holds(t, x) || x == xid
    ensures t != [] && t[0].xid <= xid ==> Admit(t, xid)[0] == t[0]
  {
    var i := if t == [] || t[|t| - 1].xid < xid then |t| else Place(t, xid);
    PlaceMeaning(t, xid);
    forall j | 0 <= j < i ensures t[j].xid < xid {
      if i == |t| && t[|t| - 1].xid < xid {
        assert t[j].xid <= t[|t| - 1].xid;
      }
    }
    forall j | i <= j < |t| ensures t[j].xid > xid {
      assert t[i].xid <= t[j].xid && t[j].xid != xid;
    }
    AdmitShape(t, xid, i);
    forall x: nat ensures Holds(Admit(t, xid), x) <==> Holds(t, x) || x == xid {
      AdmitHolds(t, Entry(xid, false, ""), i, x);
    }
    if t != [] && t[0].xid <= xid {
      assert i > 0;
    }
  }

  lemma AdmitAddsOne(t: seq<Entry>, xid: nat)
    ensures forall e :: e in Admit(t, xid) <==> e in t || e == Entry(xid, false, "")
  {
    var i := if t == [] || t[|t| - 1].xid < xid then |t| else Place(t, xid);
    assert t == t[..i] + t[i..];
  }

  lemma JudgeNew(t: seq<Entry>, xid: nat)
    requires Ordered(t)
    ensures Judge(t, xid) == New <==> !Holds(t, xid) && (t == [] || t[0].xid <= xid)
    ensures Judge(t, xid) == Forgotten <==> t != [] && xid < t[0].xid
    ensures Judge(t, xid).InProgress? || Judge(t, xid).Done? ==> Holds(t, xid)
  {
    var i := Place(t, xid);
    PlaceMeaning(t, xid);
    if t != [] && t[|t| - 1].xid < xid {
      assert forall j :: 0 <= j < |t| ==> t[j].xid <= t[|t| - 1].xid;
    } else if t != [] && t[0].xid <= xid {
      assert forall j :: 0 <= j < |t| ==> t[0].xid <= t[j].xid;
      if i < |t| && t[i].xid > xid {
        assert forall j :: i <= j < |t| ==> t[j].xid >= t[i].xid;
      }
    } else if t != [] {
      assert forall j :: 0 <= j < |t| ==> t[0].xid <= t[j].xid;
    }
  }

  /** Letting a request in does not move the front of a non-empty window. */
  lemma AdmitKeepsFront(t: seq<Entry>, xid: nat)
    requires Ordered(t) && t != [] && Judge(t, xid) == New
    ensures Admit(t, xid) != [] && Admit(t, xid)[0] == t[0]
  {
    JudgeNew(t, xid);
    AdmitMeaning(t, xid);
  }

  /** The answer for a number the window holds is what its entry says. */
  lemma JudgeHeld(t: seq<Entry>, i: nat)
    requires Ordered(t) && i < |t|
    ensures Judge(t, t[i].xid) == if t[i].present then Done(t[i].buf) else InProgress
  {
    var x := t[i].xid;
    var k := Place(t, x);
    PlaceMeaning(t, x);
    assert i <= |t| - 1 ==> t[i].xid <= t[|t| - 1].xid;
    assert t[0].xid <= x;
    assert k == i;
  }

  function Max(a: nat, b: nat): nat {
    if a > b then a else b
  }

  lemma TrimIsExact(w: seq<Entry>, seen: set<nat>, top: nat, rep: nat)
    requires Exact(w, seen, top)
    ensures Ordered(Trim(w, rep))
    ensures forall x: nat :: Holds(Trim(w, rep), x) <==> x in seen && x >= Max(top, rep)
    ensures w != [] && Trim(w, rep) == [] ==> top < rep
  {
    TrimMeaning(w, rep);
    if w != [] {
      assert Holds(w, w[0].xid) && !Holds([], w[0].xid);
    }
  }

  lemma FrontIsFirst(t: seq<Entry>)
    requires Ordered(t) && t != []
    ensures Holds(t, t[0].xid) && forall x: nat :: Holds(t, x) ==> t[0].xid <= x
  {
    assert t[0].xid == t[0].xid;
    forall x: nat | Holds(t, x)
      ensures t[0].xid <= x
    {
      var i :| 0 <= i < |t| && t[i].xid == x;
    }
  }

  /** The heart of at-most-once: when requests acknowledge only smaller numbers, NEW is
      answered exactly for a number never let in that is not below the front, FORGOTTEN
      exactly below the front, and the window goes on holding exactly what was let in and
      is not below the largest acknowledgement. */
  lemma CheckAdmitsOnce(w: seq<Entry>, seen: set<nat>, top: nat, xid: nat, rep: nat)
    requires Exact(w, seen, top) && rep < xid
    ensures
      var t := Trim(w, rep);
      var (u, v) := Check(w, xid, rep);
      && (v == New <==> xid !in seen && (t == [] || t[0].xid <= xid))
      && (v == Forgotten <==> t != [] && xid < t[0].xid)
      && (v == InProgress || v.Done? <==> xid in seen && xid >= Max(top, rep))
      && Exact(u, if v == New then seen + {xid} else seen, Max(top, rep))
  {
    var t := Trim(w, rep);
    TrimIsExact(w, seen, top, rep);
    JudgeNew(t, xid);
    if t != [] {
      FrontIsFirst(t);
    }
    if xid in seen && xid < top {
      BelowTop(w, seen, top, xid, rep);
    }
    if Judge(t, xid) == New {
      AdmitMeaning(t, xid);
    }
  }

  /** A number let in and acknowledged since stays below the front when it is sent again: its
      own request cannot trim the entry it is compared with. */
  lemma BelowTop(w: seq<Entry>, seen: set<nat>, top: nat, xid: nat, rep: nat)
    requires Exact(w, seen, top) && rep < xid < top && xid in seen
    ensures Trim(w, rep) == w && w != [] && xid < w[0].xid
  {
    FrontIsFirst(w);
  }

  /** What trimming would be if the entry at the acknowledged number went as well. */
  function TrimThrough(w: seq<Entry>, rep: nat): seq<Entry> {
    if w != [] && w[0].xid <= rep then TrimThrough(w[1..], rep) else w
  }

  /** What the retained entry is for: request `x + 2` overtakes request `x + 1`, both
      acknowledging `x`. With the entry of `x` in front the late request is let in; without
      it the late request, never let in, is answered FORGOTTEN. */
  lemma RetainedEntryAdmitsLate(x: nat, e: Entry)
    requires e.xid == x
    ensures Check(Check([e], x + 2, x).0, x + 1, x).1 == New
    ensures Judge(TrimThrough(Admit(TrimThrough([e], x), x + 2), x), x + 1) == Forgotten
  {
    var f := Entry(x + 2, false, "");
    assert Check([e], x + 2, x).0 == [e, f];
    assert Trim([e, f], x) == [e, f];
    JudgeNew([e, f], x + 1);
    assert TrimThrough([e], x) == [] by {
      assert [e][1..] == [];
    }
    assert Admit([], x + 2) == [f];
    assert TrimThrough([f], x) == [f];
  }

  lemma RecordedMeaning(w: seq<Entry>, xid: nat, buf: string)
    ensures |Recorded(w, xid, buf)| == |w|
    ensures forall i :: 0 <= i < |w| ==> Recorded(w, xid, buf)[i].xid == w[i].xid
    ensures forall x: nat :: Holds(Recorded(w, xid, buf), x) <==> Holds(w, x)
    ensures Ordered(w) ==> forall i :: 0 <= i < |w| ==>
      Recorded(w, xid, buf)[i] == if w[i].xid == xid then Entry(xid, true, buf) else w[i]
  {
    var u := Recorded(w, xid, buf);
    FindMeaning(w, xid);
    forall x: nat ensures Holds(u, x) <==> Holds(w, x) {
      if Holds(w, x) {
        var i :| 0 <= i < |w| && w[i].xid == x;
        assert u[i].xid == x;
      }
      if Holds(u, x) {
        var i :| 0 <= i < |u| && u[i].xid == x;
        assert w[i].xid == x;
      }
    }
  }

  // ----- the object -----

  class RpcServer {
    var windows: map<nat, seq<Entry>>

    constructor ()
      ensures windows == map[]
    {
      windows := map[];
    }

    ghost function Window(clt: nat): seq<Entry>
      reads this
    {
      if clt in windows then windows[clt] else []
    }

    method CheckDuplicateAndUpdate(clt: nat, xid: nat, rep: nat) returns (v: Verdict)
      modifies this
      ensures v == Check(old(Window(clt)), xid, rep).1
      ensures Window(clt) == Check(old(Window(clt)), xid, rep).0
      ensures windows == old(windows)[clt := Window(clt)]
    {
      var w := if clt in windows then windows[clt] else [];
      ghost var w0 := w;
      while |w| != 0 && w[0].xid < rep
        invariant Trim(w, rep) == Trim(w0, rep)
        decreases |w|
      {
        w := w[1..];
      }
      assert Trim(w0, rep) == w;
      w, v := Answer(w, xid);
      windows := windows[clt := w];
    }

    /** The part after trimming: look the number up, and remember it if it is new. */
    static method Answer(w: seq<Entry>, xid: nat) returns (u: seq<Entry>, v: Verdict)
      ensures v == Judge(w, xid)
      ensures u == if v == New then Admit(w, xid) else w
    {
      if |w| == 0 || w[|w| - 1].xid < xid {
        assert w[..|w|] == w && w[|w|..] == [];
        return w + [Entry(xid, false, "")], New;
      } else if w[0].xid > xid {
        return w, Forgotten;
      }
      var it := 0;
      while w[it].xid < xid
        invariant 0 <= it < |w|
        invariant it + Place(w[it..], xid) == Place(w, xid)
        decreases |w| - it
      {
        assert w[it..][1..] == w[it + 1..];
        it := it + 1;
      }
      if w[it].xid == xid {
        return w, if w[it].present then Done(w[it].buf) else InProgress;
      }
      return w[..it] + [Entry(xid, false, "")] + w[it..], New;
    }

    /** `found` is false where the source would write through the end of the list. */
    method AddReply(clt: nat, xid: nat, buf: string) returns (found: bool)
      modifies this
      ensures found <==> Holds(old(Window(clt)), xid)
      ensures Window(clt) == Recorded(old(Window(clt)), xid, buf)
      ensures windows == old(windows)[clt := Window(clt)]
    {
      var w := if clt in windows then windows[clt] else [];
      var it := 0;
      while it < |w| && w[it].xid != xid
        invariant 0 <= it <= |w|
        invariant it + Find(w[it..], xid) == Find(w, xid)
        decreases |w| - it
      {
        assert w[it..][1..] == w[it + 1..];
        it := it + 1;
      }
      FindMeaning(w, xid);
      found := it < |w|;
      if found {
        w := w[it := Entry(xid, true, buf)];
      }
      windows := windows[clt := w];
    }
  }
}
