/** Marshalling: the byte formats, the growing write buffer and the read cursor.
    A byte is a character with a code below 256. */
module Wire {

  const B32: nat := 0x1_0000_0000
  const B64: nat := 0x1_0000_0000_0000_0000

  function Byte(n: int): (c: char)
    ensures c as int == n % 256
  {
    (n % 256) as char
  }

  /** Big-endian; a negative int is written as its two's complement. */
  function Put32(x: int): string {
    [Byte(x / 0x100_0000), Byte(x / 0x1_0000), Byte(x / 0x100), Byte(x)]
  }

  function Put64(x: nat): string {
    Put32(x / B32) + Put32(x % B32)
  }

  function PutBool(b: bool): string {
    [if b then 1 as char else 0 as char]
  }

  function PutString(s: string): string {
    Put32(|s|) + s
  }

  function PutStrings(v: seq<string>): string {
    if v == [] then "" else PutString(v[0]) + PutStrings(v[1..])
  }

  function PutVector(v: seq<string>): string {
    Put32(|v|) + PutStrings(v)
  }

  function PutInts(v: seq<int>): string {
    if v == [] then "" else Put32(v[0]) + PutInts(v[1..])
  }

  // ----- reading -----

  /** What is left to read; `ok` is cleared for good by a read past the end. */
  datatype In = In(rest: string, ok: bool)

  function GetByte(i: In): (nat, In) {
    if i.rest == "" then (0, i.(ok := false)) else (i.rest[0] as int % 256, i.(rest := i.rest[1..]))
  }

  function Get32(i: In): (nat, In) {
    var (a, i1) := GetByte(i);
    var (b, i2) := GetByte(i1);
    var (c, i3) := GetByte(i2);
    var (d, i4) := GetByte(i3);
    (a * 0x100_0000 + b * 0x1_0000 + c * 0x100 + d, i4)
  }

  /** The same bytes read as a signed int. */
  function GetInt(i: In): (int, In) {
    var (x, j) := Get32(i);
    (if x >= 0x8000_0000 then x - B32 else x, j)
  }

  function Get64(i: In): (nat, In) {
    var (h, j) := Get32(i);
    var (l, k) := Get32(j);
    (h * B32 + l, k)
  }

  function GetBool(i: In): (bool, In) {
    var (x, j) := GetByte(i);
    (x != 0, j)
  }

  function GetString(i: In): (string, In) {
    var (n, j) := Get32(i);
    if !j.ok then ("", j)
    else if n > |j.rest| then ("", j.(ok := false))
    else (j.rest[..n], j.(rest := j.rest[n..]))
  }

  /** The loop that reads `n` more items onto `v`. */
  function GetStrings(n: nat, i: In, v: seq<string>): (seq<string>, In) {
    if n == 0 then (v, i)
    else
      var (s, j) := GetString(i);
      GetStrings(n - 1, j, v + [s])
  }

  function GetVector(i: In): (seq<string>, In) {
    var (n, j) := Get32(i);
    GetStrings(n, j, [])
  }

  /** The loop that reads `n` more items onto `v`. */
  function GetInts(n: nat, i: In, v: seq<int>): (seq<int>, In) {
    if n == 0 then (v, i)
    else
      var (x, j) := GetInt(i);
      GetInts(n - 1, j, v + [x])
  }

  // ----- round trips: what was written is read back, and nothing more is consumed -----

  lemma Assoc<T>(a: seq<T>, b: seq<T>, c: seq<T>)
    ensures a + b + c == a + (b + c)
  {
  }

  lemma ByteBack(x: int, rest: string)
    ensures GetByte(In([Byte(x)] + rest, true)) == (x % 256, In(rest, true))
  {
    assert ([Byte(x)] + rest)[1..] == rest;
  }

  lemma Digits256(x: nat)
    requires x < B32
    ensures (x / 0x100_0000 % 256) * 0x100_0000 + (x / 0x1_0000 % 256) * 0x1_0000 + (x / 0x100 % 256) * 0x100
      + x % 256 == x
  {
    var a, b, c := x / 0x100, x / 0x1_0000, x / 0x100_0000;
    assert b == a / 0x100 && c == b / 0x100;
    assert x == a * 0x100 + x % 256 && a == b * 0x100 + a % 256 && b == c * 0x100 + b % 256 && c == c % 256;
  }

  lemma RawBack(x: int, rest: string)
    ensures Get32(In(Put32(x) + rest, true)) ==
      ((x / 0x100_0000 % 256) * 0x100_0000 + (x / 0x1_0000 % 256) * 0x1_0000 + (x / 0x100 % 256) * 0x100
          + x % 256, In(rest, true))
  {
    var r3 := [Byte(x)] + rest;
    var r2 := [Byte(x / 0x100)] + r3;
    var r1 := [Byte(x / 0x1_0000)] + r2;
    assert Put32(x) + rest == [Byte(x / 0x100_0000)] + r1;
    ByteBack(x / 0x100_0000, r1);
    ByteBack(x / 0x1_0000, r2);
    ByteBack(x / 0x100, r3);
    ByteBack(x, rest);
  }

  lemma Back32(x: nat, rest: string)
    requires x < B32
    ensures Get32(In(Put32(x) + rest, true)) == (x, In(rest, true))
  {
    RawBack(x, rest);
    Digits256(x);
  }

  /** Two's complement: a negative number has the bytes of its value plus 2^32. */
  lemma NegativeBytes(x: int)
    ensures Put32(x) == Put32(x + B32)
  {
    SameByte(x / 0x100_0000, (x + B32) / 0x100_0000, 0x100) by {
      assert (x + B32) / 0x100_0000 == x / 0x100_0000 + 0x100;
    }
    SameByte(x / 0x1_0000, (x + B32) / 0x1_0000, 0x1_0000) by {
      assert (x + B32) / 0x1_0000 == x / 0x1_0000 + 0x1_0000;
    }
    SameByte(x / 0x100, (x + B32) / 0x100, 0x100_0000) by {
      assert (x + B32) / 0x100 == x / 0x100 + 0x100_0000;
    }
    SameByte(x, x + B32, B32);
  }

  lemma SameByte(a: int, b: int, d: int)
    requires b == a + d && d % 256 == 0
    ensures Byte(a) == Byte(b)
  {
    assert b % 256 == a % 256;
  }

  lemma BackInt(x: int, rest: string)
    requires -0x8000_0000 <= x < 0x8000_0000
    ensures GetInt(In(Put32(x) + rest, true)) == (x, In(rest, true))
  {
    if x < 0 {
      NegativeBytes(x);
      Back32(x + B32, rest);
    } else {
      Back32(x, rest);
    }
  }

  /** Headers: a row of ints is read back. */
  lemma {:induction false} BackInts(v: seq<int>, rest: string, sofar: seq<int>)
    requires forall i :: 0 <= i < |v| ==> -0x8000_0000 <= v[i] < 0x8000_0000
    ensures GetInts(|v|, In(PutInts(v) + rest, true), sofar) == (sofar + v, In(rest, true))
  {
    if v == [] {
      assert PutInts(v) + rest == rest && sofar + v == sofar;
    } else {
      var more := PutInts(v[1..]) + rest;
      Assoc(Put32(v[0]), PutInts(v[1..]), rest);
      BackInt(v[0], more);
      BackInts(v[1..], rest, sofar + [v[0]]);
      assert v == [v[0]] + v[1..];
      Assoc(sofar, [v[0]], v[1..]);
    }
  }

  lemma DropFront(a: string, b: string, c: string)
    ensures (a + b + c)[|a|..] == b + c
  {
    Assoc(a, b, c);
  }

  /** Unpacking a packet with the header that was packed into it gives that header. */
  lemma HeaderBack(front: string, h: seq<int>, after: string)
    requires |front| == 4
    requires forall i :: 0 <= i < |h| ==> -0x8000_0000 <= h[i] < 0x8000_0000
    ensures GetInts(|h|, In((front + PutInts(h) + after)[4..], true), []).0 == h
  {
    DropFront(front, PutInts(h), after);
    BackInts(h, after, []);
    assert [] + h == h;
  }

  lemma Back64(x: nat, rest: string)
    requires x < B64
    ensures Get64(In(Put64(x) + rest, true)) == (x, In(rest, true))
  {
    assert Put64(x) + rest == Put32(x / B32) + (Put32(x % B32) + rest);
    Back32(x / B32, Put32(x % B32) + rest);
    Back32(x % B32, rest);
  }

  lemma BackBool(b: bool, rest: string)
    ensures GetBool(In(PutBool(b) + rest, true)) == (b, In(rest, true))
  {
    assert (PutBool(b) + rest)[1..] == rest;
  }

  lemma BackString(s: string, rest: string)
    requires |s| < B32
    ensures GetString(In(PutString(s) + rest, true)) == (s, In(rest, true))
  {
    assert PutString(s) + rest == Put32(|s|) + (s + rest);
    Back32(|s|, s + rest);
    assert (s + rest)[..|s|] == s && (s + rest)[|s|..] == rest;
  }

  predicate ShortStrings(v: seq<string>) {
    |v| < B32 && forall i :: 0 <= i < |v| ==> |v[i]| < B32
  }

  lemma OneMore(n: nat, s: string, more: string, sofar: seq<string>)
    requires |s| < B32
    ensures GetStrings(n + 1, In(PutString(s) + more, true), sofar) == GetStrings(n, In(more, true), sofar + [s])
  {
    BackString(s, more);
  }

  predicate AllShort(w: seq<string>) {
    forall k :: 0 <= k < |w| ==> |w[k]| < B32
  }

  lemma Prepended(s: string, u: seq<string>, v: seq<string>, r: string)
    ensures v + ([s] + u) == (v + [s]) + u
    ensures PutStrings([s] + u) + r == PutString(s) + (PutStrings(u) + r)
    ensures |s| < B32 && AllShort(u) ==> AllShort([s] + u)
  {
    var w := [s] + u;
    assert w[1..] == u && w[0] == s;
    Assoc(PutString(s), PutStrings(u), r);
  }

  lemma {:induction false} BackStrings(v: seq<string>, rest: string, sofar: seq<string>)
    requires AllShort(v)
    ensures GetStrings(|v|, In(PutStrings(v) + rest, true), sofar) == (sofar + v, In(rest, true))
  {
    if v == [] {
      assert PutStrings(v) + rest == rest && sofar + v == sofar;
    } else {
      var s, w := v[0], v[1..];
      assert v == [s] + w;
      Prepended(s, w, sofar, rest);
      OneMore(|w|, s, PutStrings(w) + rest, sofar);
      BackStrings(w, rest, sofar + [s]);
    }
  }

  lemma BackVector(v: seq<string>, rest: string)
    requires ShortStrings(v)
    ensures GetVector(In(PutVector(v) + rest, true)) == (v, In(rest, true))
  {
    assert PutVector(v) + rest == Put32(|v|) + (PutStrings(v) + rest);
    Back32(|v|, PutStrings(v) + rest);
    BackStrings(v, rest, []);
    assert [] + v == v;
  }

  // ----- and nothing else is read: a read succeeds exactly on what was written -----

  predicate IsBytes(s: string) {
    forall i :: 0 <= i < |s| ==> s[i] as int < 256
  }

  lemma DigitsBack(a: nat, b: nat, c: nat, d: nat)
    requires a < 256 && b < 256 && c < 256 && d < 256
    ensures
      var x := a * 0x100_0000 + b * 0x1_0000 + c * 0x100 + d;
      && 0 <= x < B32 && x / 0x100_0000 % 256 == a && x / 0x1_0000 % 256 == b && x / 0x100 % 256 == c && x % 256 == d
  {
    var x := a * 0x100_0000 + b * 0x1_0000 + c * 0x100 + d;
    assert x / 0x100 == a * 0x1_0000 + b * 0x100 + c;
    assert x / 0x1_0000 == a * 0x100 + b;
    assert x / 0x100_0000 == a;
  }

  /** Four bytes and no fewer; they are the encoding of the number read. */
  lemma Read32Exactly(i: In)
    requires i.ok && IsBytes(i.rest)
    ensures Get32(i).1.ok <==> |i.rest| >= 4
    ensures |i.rest| >= 4 ==> Get32(i).0 < B32 && i.rest == Put32(Get32(i).0) + Get32(i).1.rest
    ensures |i.rest| >= 4 ==> Get32(i).1.rest == i.rest[4..]
  {
    if |i.rest| >= 4 {
      var r := i.rest;
      var a, b, c, d := r[0] as int, r[1] as int, r[2] as int, r[3] as int;
      assert r[1..][1..] == r[2..] && r[2..][1..] == r[3..] && r[3..][1..] == r[4..];
      assert Get32(i) == (a * 0x100_0000 + b * 0x1_0000 + c * 0x100 + d, In(r[4..], true));
      DigitsBack(a, b, c, d);
      var x := Get32(i).0;
      assert Put32(x) == r[..4];
    } else {
      ShortFails(i);
    }
  }

  lemma ShortFails(i: In)
    requires |i.rest| < 4
    ensures !Get32(i).1.ok
  {
  }

  ghost predicate StartsWithString(r: string) {
    exists s, more :: |s| < B32 && r == PutString(s) + more
  }

  /** A string is read if and only if the input begins with the encoding of one. */
  lemma StringReadExactly(i: In)
    requires i.ok && IsBytes(i.rest)
    ensures GetString(i).1.ok <==> StartsWithString(i.rest)
    ensures GetString(i).1.ok ==>
      |GetString(i).0| < B32 && i.rest == PutString(GetString(i).0) + GetString(i).1.rest
  {
    Read32Exactly(i);
    var (s, j) := GetString(i);
    if j.ok {
      var k := Get32(i).1;
      assert k.rest == s + j.rest;
      Assoc(Put32(|s|), s, j.rest);
      assert |s| < B32 && i.rest == PutString(s) + j.rest;
    }
    if StartsWithString(i.rest) {
      var s, more :| |s| < B32 && i.rest == PutString(s) + more;
      BackString(s, more);
    }
  }

  lemma {:induction false} FailureStays(n: nat, i: In, v: seq<string>)
    requires !i.ok
    ensures !GetStrings(n, i, v).1.ok
    decreases n
  {
    if n == 0 {
    } else {
      FailureStays(n - 1, GetString(i).1, v + [GetString(i).0]);
    }
  }

  /** One string off the front, and how the loop goes on. */
  lemma StringFront(n: nat, i: In, v: seq<string>) returns (s: string, j: In)
    requires n > 0 && i.ok && IsBytes(i.rest)
    ensures GetStrings(n, i, v) == GetStrings(n - 1, j, v + [s])
    ensures j.ok ==> |s| < B32 && i.rest == PutString(s) + j.rest && IsBytes(j.rest)
  {
    s, j := GetString(i).0, GetString(i).1;
    StringReadExactly(i);
    if j.ok {
      RestIsBytes(PutString(s), j.rest);
    }
  }

  lemma RestIsBytes(a: string, b: string)
    requires IsBytes(a + b)
    ensures IsBytes(b)
  {
    assert forall k :: 0 <= k < |b| ==> b[k] == (a + b)[|a| + k];
  }

  /** `n` strings read from `i` onto `v` come out as `out`, with `end` left. */
  predicate ReadsTo(n: nat, i: In, v: seq<string>, out: seq<string>, end: In) {
    GetStrings(n, i, v) == (out, end)
  }

  /** `w` is what was read. */
  predicate WasRead(w: seq<string>, n: nat, r: string, v: seq<string>, out: seq<string>, end: string) {
    |w| == n && out == v + w && AllShort(w) && r == PutStrings(w) + end
  }

  lemma NothingRead(i: In, v: seq<string>, out: seq<string>, end: In)
    requires ReadsTo(0, i, v, out, end)
    ensures WasRead([], 0, i.rest, v, out, end.rest)
  {
    assert v + [] == v;
  }

  /** One string off the front, if all of them could be read. */
  lemma FirstRead(n: nat, i: In, v: seq<string>, out: seq<string>, end: In) returns (s: string, j: In)
    requires n > 0 && i.ok && IsBytes(i.rest) && ReadsTo(n, i, v, out, end) && end.ok
    ensures j.ok && IsBytes(j.rest) && ReadsTo(n - 1, j, v + [s], out, end)
    ensures |s| < B32 && i.rest == PutString(s) + j.rest
  {
    s, j := StringFront(n, i, v);
    if !j.ok {
      FailureStays(n - 1, j, v + [s]);
    }
  }

  lemma OneMoreRead(s: string, u: seq<string>, n: nat, r: string, j: string, v: seq<string>, out: seq<string>,
                    end: string)
    requires n > 0 && WasRead(u, n - 1, j, v + [s], out, end) && r == PutString(s) + j && |s| < B32
    ensures WasRead([s] + u, n, r, v, out, end)
  {
    Prepended(s, u, v, end);
  }

  lemma {:induction false} StringsReadBack(n: nat, i: In, v: seq<string>, out: seq<string>, end: In)
    returns (w: seq<string>)
    requires i.ok && IsBytes(i.rest) && ReadsTo(n, i, v, out, end) && end.ok
    ensures WasRead(w, n, i.rest, v, out, end.rest)
    decreases n
  {
    if n == 0 {
      w := [];
      NothingRead(i, v, out, end);
    } else {
      var s, j := FirstRead(n, i, v, out, end);
      var u := StringsReadBack(n - 1, j, v + [s], out, end);
      w := [s] + u;
      OneMoreRead(s, u, n, i.rest, j.rest, v, out, end.rest);
    }
  }

  ghost predicate StartsWithVector(r: string) {
    exists v, more :: ShortStrings(v) && r == PutVector(v) + more
  }

  /** A vector of strings is read if and only if the input begins with the encoding of one; a
      packet that is cut short or says too large a count is never taken for another vector. */
  lemma VectorReadExactly(i: In)
    requires i.ok && IsBytes(i.rest)
    ensures GetVector(i).1.ok <==> StartsWithVector(i.rest)
    ensures GetVector(i).1.ok ==>
      ShortStrings(GetVector(i).0) && i.rest == PutVector(GetVector(i).0) + GetVector(i).1.rest
  {
    if GetVector(i).1.ok {
      VectorReadBack(i);
    }
    if StartsWithVector(i.rest) {
      var v, more :| ShortStrings(v) && i.rest == PutVector(v) + more;
      BackVector(v, more);
    }
  }

  lemma VectorReadBack(i: In)
    requires i.ok && IsBytes(i.rest) && GetVector(i).1.ok
    ensures ShortStrings(GetVector(i).0) && i.rest == PutVector(GetVector(i).0) + GetVector(i).1.rest
  {
    var n, j := Get32(i).0, Get32(i).1;
    var v, k := GetVector(i).0, GetVector(i).1;
    assert (v, k) == GetStrings(n, j, []);
    if !j.ok {
      FailureStays(n, j, []);
    }
    Count32(i, n, j);
    var w := StringsReadBack(n, j, [], v, k);
    assert [] + w == w;
    Assoc(Put32(n), PutStrings(w), k.rest);
  }

  lemma Count32(i: In, n: nat, j: In)
    requires i.ok && IsBytes(i.rest) && (n, j) == Get32(i) && j.ok
    ensures n < B32 && i.rest == Put32(n) + j.rest && IsBytes(j.rest)
  {
    Read32Exactly(i);
    RestIsBytes(Put32(n), j.rest);
  }

  // ----- the write buffer -----

  const DEFAULT_SZ: nat := 1024
  const HEADER_SZ: nat := 24

  lemma SameSlice(a: string, b: string, k: nat, i: nat, j: nat)
    requires k <= i <= j <= |a| == |b| && a[k..] == b[k..]
    ensures a[i..j] == b[i..j]
  {
    forall x | i <= x < j
      ensures a[x] == b[x]
    {
      assert a[x] == a[k..][x - k] && b[x] == b[k..][x - k];
    }
  }

  class Marshall {
    var buf: array<char>
    var capa: nat
    var ind: nat

    /** The write head never passes the capacity, which is the size of the buffer. */
    ghost predicate Valid()
      reads this
    {
      capa == buf.Length && HEADER_SZ <= ind <= capa
    }

    /** What has been written after the room for the header. */
    ghost function Content(): string
      requires Valid()
      reads this, buf
    {
      buf[HEADER_SZ..ind]
    }

    constructor ()
      ensures Valid() && fresh(buf) && Content() == ""
    {
      buf := new char[DEFAULT_SZ];
      capa := DEFAULT_SZ;
      ind := HEADER_SZ;
    }

    /** `realloc`: a larger buffer with the same beginning. */
    method Grow(size: nat)
      requires Valid() && capa <= size
      modifies this`buf, this`capa
      ensures Valid() && capa == size && fresh(buf)
      ensures Content() == old(Content())
    {
      var bigger := new char[size];
      var small := buf;
      for i := 0 to small.Length
        modifies bigger
        invariant forall j :: 0 <= j < i ==> bigger[j] == small[j]
      {
        bigger[i] := small[i];
      }
      assert bigger[HEADER_SZ..ind] == small[HEADER_SZ..ind];
      buf := bigger;
      capa := size;
    }

    method RawByte(x: int)
      requires Valid()
      modifies this, buf
      ensures Valid() && (buf == old(buf) || fresh(buf))
      ensures Content() == old(Content()) + [Byte(x)]
    {
      if ind >= capa {
        Grow(2 * capa);
      }
      CopyIn([Byte(x)]);
    }

    /** The new capacity covers the head plus the new bytes in both cases of the growth rule. */
    method RawBytes(p: string)
      requires Valid()
      modifies this, buf
      ensures Valid() && (buf == old(buf) || fresh(buf))
      ensures Content() == old(Content()) + p
    {
      if ind + |p| > capa {
        Grow(if capa > |p| then 2 * capa else capa + |p|);
      }
      CopyIn(p);
    }

    /** Bytes stored at the write head, into room that is already there. */
    method CopyIn(p: string)
      requires Valid() && ind + |p| <= capa
      modifies this`ind, buf
      ensures Valid()
      ensures Content() == old(Content()) + p
    {
      var b, at := buf, ind;
      ghost var was := Content();
      for i := 0 to |p|
        modifies b
        invariant forall j :: 0 <= j < |was| ==> b[HEADER_SZ + j] == was[j]
        invariant forall j :: 0 <= j < i ==> b[at + j] == p[j]
      {
        b[at + i] := p[i];
      }
      ind := at + |p|;
      ghost var now := Content();
      assert |was| == at - HEADER_SZ;
      forall j | 0 <= j < |was| + |p|
        ensures now[j] == (was + p)[j]
      {
        if j < |was| {
          assert b[HEADER_SZ + j] == was[j];
        } else {
          assert b[at + (j - |was|)] == p[j - |was|];
        }
      }
    }

    /** `pack`: four bytes at the head. Inside the header room no growth is needed. */
    method Pack(x: int)
      requires capa == buf.Length && ind + 4 <= HEADER_SZ <= capa
      modifies this`ind, buf
      ensures ind == old(ind) + 4
      ensures buf[..ind] == old(buf[..ind]) + Put32(x)
      ensures buf[ind..] == old(buf[ind + 4..])
    {
      buf[ind] := Byte(x / 0x100_0000);
      buf[ind + 1] := Byte(x / 0x1_0000);
      buf[ind + 2] := Byte(x / 0x100);
      buf[ind + 3] := Byte(x);
      ind := ind + 4;
    }

    /** Both headers: the head is moved into the reserved room, the numbers are written
        there, and the head is put back. Only those bytes change, so the content does not.
        A request header is xid, proc, clt_nonce, srv_nonce, xid_rep; a reply's is xid, ret. */
    method PackHeader(h: seq<int>)
      requires Valid() && |h| <= 5
      modifies this`ind, buf
      ensures Valid() && ind == old(ind) && |PutInts(h)| == 4 * |h|
      ensures buf[..] == old(buf[..4]) + PutInts(h) + old(buf[4 + 4 * |h|..])
      ensures Content() == old(Content())
    {
      var saved := ind;
      ind := 4;
      ghost var front, all := buf[..4], buf[..];
      for i := 0 to |h|
        invariant ind == 4 + 4 * i
        invariant buf[..ind] + PutInts(h[i..]) == front + PutInts(h)
        invariant buf[ind..] == all[ind..]
      {
        ghost var done, after := buf[..ind], buf[ind..];
        Pack(h[i]);
        assert h[i..][1..] == h[i + 1..];
        assert done + (Put32(h[i]) + PutInts(h[i + 1..])) == done + Put32(h[i]) + PutInts(h[i + 1..]);
        assert all[ind - 4..][4..] == all[ind..];
        assert buf[ind..] == after[4..];
      }
      assert buf[..ind] == front + PutInts(h);
      assert buf[..] == buf[..ind] + buf[ind..];
      SameSlice(buf[..], all, ind, HEADER_SZ, saved);
      ind := saved;
    }

    // the `<<` operators

    method Int32(x: int)
      requires Valid()
      modifies this, buf
      ensures Valid() && (buf == old(buf) || fresh(buf))
      ensures Content() == old(Content()) + Put32(x)
    {
      ghost var was := Content();
      RawByte(x / 0x100_0000);
      RawByte(x / 0x1_0000);
      RawByte(x / 0x100);
      RawByte(x);
      assert was + Put32(x) == was + [Byte(x / 0x100_0000)] + [Byte(x / 0x1_0000)] + [Byte(x / 0x100)] + [Byte(x)];
    }

    method Flag(b: bool)
      requires Valid()
      modifies this, buf
      ensures Valid() && (buf == old(buf) || fresh(buf))
      ensures Content() == old(Content()) + PutBool(b)
    {
      RawByte(if b then 1 else 0);
    }

    method Int64(x: nat)
      requires Valid()
      modifies this, buf
      ensures Valid() && (buf == old(buf) || fresh(buf))
      ensures Content() == old(Content()) + Put64(x)
    {
      ghost var was := Content();
      Int32(x / B32);
      Int32(x % B32);
      assert was + Put64(x) == was + Put32(x / B32) + Put32(x % B32);
    }

    method Text(s: string)
      requires Valid()
      modifies this, buf
      ensures Valid() && (buf == old(buf) || fresh(buf))
      ensures Content() == old(Content()) + PutString(s)
    {
      ghost var was := Content();
      Int32(|s|);
      RawBytes(s);
      assert was + PutString(s) == was + Put32(|s|) + s;
    }

    method Vector(v: seq<string>)
      requires Valid()
      modifies this, buf
      ensures Valid() && (buf == old(buf) || fresh(buf))
      ensures Content() == old(Content()) + PutVector(v)
    {
      ghost var was := Content();
      Int32(|v|);
      for i := 0 to |v|
        invariant Valid() && (buf == old(buf) || fresh(buf))
        invariant Content() + PutStrings(v[i..]) == was + PutVector(v)
      {
        ghost var done := Content();
        Text(v[i]);
        assert v[i..][1..] == v[i + 1..];
        assert done + (PutString(v[i]) + PutStrings(v[i + 1..])) == done + PutString(v[i]) + PutStrings(v[i + 1..]);
      }
    }
  }

  // ----- the read cursor -----

  class Unmarshall {
    var buf: string
    var ind: nat
    var ok: bool

    ghost function State(): In
      reads this
    {
      In(if ind <= |buf| then buf[ind..] else "", ok)
    }

    /** `take_content`: the string goes after room for a header. */
    constructor (s: string)
      ensures State() == In(s, true)
    {
      buf := seq(HEADER_SZ, i => 0 as char) + s;
      ind := HEADER_SZ;
      ok := true;
    }

    method RawByte() returns (x: nat)
      modifies this
      ensures buf == old(buf) && (x, State()) == GetByte(old(State()))
      ensures ok ==> ind <= |buf|
    {
      if ind >= |buf| {
        ok := false;
        return 0;
      }
      x := buf[ind] as int % 256;
      ind := ind + 1;
    }

    method Int32() returns (x: nat)
      modifies this
      ensures buf == old(buf) && (x, State()) == Get32(old(State()))
      ensures ok ==> ind <= |buf|
    {
      var a := RawByte();
      var b := RawByte();
      var c := RawByte();
      var d := RawByte();
      x := a * 0x100_0000 + b * 0x1_0000 + c * 0x100 + d;
    }

    method SignedInt32() returns (x: int)
      modifies this
      ensures buf == old(buf) && (x, State()) == GetInt(old(State()))
    {
      x := Int32();
      if x >= 0x8000_0000 {
        x := x - B32;
      }
    }

    method Int64() returns (x: nat)
      modifies this
      ensures buf == old(buf) && (x, State()) == Get64(old(State()))
    {
      var h := Int32();
      var l := Int32();
      x := h * B32 + l;
    }

    method Flag() returns (b: bool)
      modifies this
      ensures buf == old(buf) && (b, State()) == GetBool(old(State()))
    {
      var x := RawByte();
      b := x != 0;
    }

    method RawBytes(n: nat) returns (s: string)
      requires ok && ind <= |buf|
      modifies this
      ensures buf == old(buf)
      ensures
        var i := old(State());
        (s, State()) == if n > |i.rest| then ("", i.(ok := false)) else (i.rest[..n], i.(rest := i.rest[n..]))
    {
      s := "";
      if ind + n > |buf| {
        ok := false;
      } else {
        s := buf[ind..ind + n];
        assert buf[ind..][..n] == s && buf[ind..][n..] == buf[ind + n..];
        ind := ind + n;
      }
    }

    method Text() returns (s: string)
      modifies this
      ensures buf == old(buf) && (s, State()) == GetString(old(State()))
    {
      var n := Int32();
      s := "";
      if ok {
        s := RawBytes(n);
      }
    }

    method Vector() returns (v: seq<string>)
      modifies this
      ensures buf == old(buf) && (v, State()) == GetVector(old(State()))
    {
      var n := Int32();
      v := [];
      ghost var whole := GetStrings(n, State(), []);
      for i := 0 to n
        invariant buf == old(buf) && GetStrings(n - i, State(), v) == whole
      {
        var z := Text();
        v := v + [z];
      }
    }

    /** The headers are read at offset 4; the cursor is then put after the header room. */
    method UnpackHeader(n: nat) returns (h: seq<int>)
      modifies this
      ensures buf == old(buf) && ind == HEADER_SZ
      ensures
        var (g, j) := GetInts(n, In(if 4 <= |buf| then buf[4..] else "", old(ok)), []);
        h == g && ok == j.ok
    {
      ind := 4;
      h := [];
      ghost var whole := GetInts(n, State(), []);
      for i := 0 to n
        invariant buf == old(buf) && GetInts(n - i, State(), h) == whole
      {
        var x := SignedInt32();
        h := h + [x];
      }
      ind := HEADER_SZ;
    }
  }
}
