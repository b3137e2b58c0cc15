/** Text primitives shared by the Paxos log and the view encoding: the order of
    `std::string`, whitespace-separated words as `istream >> word` reads them,
    decimal numbers, and lines as `getline` reads them. */
module Names {

  datatype Option<+T> = None | Some(value: T)

  /** `a < b` on std::string: lexicographic by character. */
  predicate Below(a: string, b: string) {
    if b == [] then false
    else if a == [] then true
    else a[0] < b[0] || (a[0] == b[0] && Below(a[1..], b[1..]))
  }

  lemma {:induction false} BelowIsStrictAndTotal(a: string, b: string)
    ensures Below(a, b) || Below(b, a) || a == b
    ensures !(Below(a, b) && Below(b, a))
    ensures a == b ==> !Below(a, b)
  {
    if a == [] || b == [] || a[0] != b[0] {
    } else {
      BelowIsStrictAndTotal(a[1..], b[1..]);
      assert a == [a[0]] + a[1..] && b == [b[0]] + b[1..];
    }
  }

  lemma {:induction false} BelowIsTransitive(a: string, b: string, c: string)
    requires Below(a, b) && Below(b, c)
    ensures Below(a, c)
  {
    if a == [] || a[0] != b[0] || b[0] != c[0] {
    } else {
      BelowIsTransitive(a[1..], b[1..], c[1..]);
    }
  }

  predicate Space(c: char) {
    c == ' ' || c == '\t' || c == '\n' || c == '\r' || c as int == 11 || c as int == 12
  }

  predicate SpaceFree(w: string) {
    forall i :: 0 <= i < |w| ==> !Space(w[i])
  }

  /** What the program uses as node names and host addresses. */
  predicate IsName(w: string) {
    w != [] && SpaceFree(w)
  }

  /** A value that `getline` reads back whole. */
  predicate IsLine(v: string) {
    forall i :: 0 <= i < |v| ==> v[i] != '\n'
  }

  function SkipSpaces(s: string): (t: string)
    ensures |t| <= |s|
    ensures t == [] || !Space(t[0])
  {
    if s != [] && Space(s[0]) then SkipSpaces(s[1..]) else s
  }

  /** The longest space-free prefix. */
  function Word(s: string): (w: string)
    ensures |w| <= |s|
    ensures w == s[..|w|]
    ensures SpaceFree(w)
    ensures |w| < |s| ==> Space(s[|w|])
    ensures s != [] && !Space(s[0]) ==> w != []
  {
    if s == [] || Space(s[0]) then [] else [s[0]] + Word(s[1..])
  }

  lemma {:induction false} WordStopsAtSpace(w: string, rest: string)
    requires SpaceFree(w)
    requires rest == [] || Space(rest[0])
    ensures Word(w + rest) == w
  {
    if w == [] {
      assert w + rest == rest;
    } else {
      assert (w + rest)[1..] == w[1..] + rest;
      WordStopsAtSpace(w[1..], rest);
    }
  }

  lemma SkipNothing(w: string, rest: string)
    requires IsName(w)
    ensures SkipSpaces(w + rest) == w + rest
  {
    assert (w + rest)[0] == w[0];
  }

  // ----- decimal numbers -----

  predicate IsDigit(c: char) {
    '0' <= c <= '9'
  }

  function Decimal(n: nat): (s: string)
    ensures s != []
    ensures forall i :: 0 <= i < |s| ==> IsDigit(s[i])
  {
    var last := ['0' + (n % 10) as char];
    if n < 10 then last else Decimal(n / 10) + last
  }

  function DigitPrefix(s: string): (d: string)
    ensures |d| <= |s|
    ensures forall i :: 0 <= i < |d| ==> IsDigit(d[i])
  {
    if s == [] || !IsDigit(s[0]) then [] else [s[0]] + DigitPrefix(s[1..])
  }

  function NumberOf(d: string): (n: nat)
    requires forall i :: 0 <= i < |d| ==> IsDigit(d[i])
  {
    if d == [] then 0
    else
      assert IsDigit(d[|d| - 1]);
      NumberOf(d[..|d| - 1]) * 10 + (d[|d| - 1] as int - '0' as int)
  }

  /** `in >> unsigned`: the number and what is left, or nothing when the stream fails. */
  function ReadNumber(s: string): (r: Option<(nat, string)>)
    ensures r.Some? ==> |r.value.1| < |s|
  {
    var t := SkipSpaces(s);
    var d := DigitPrefix(t);
    if d == [] then None else Some((NumberOf(d), t[|d|..]))
  }

  /** `in >> string`: the word and what is left. */
  function ReadWord(s: string): (r: Option<(string, string)>)
    ensures r.Some? ==> |r.value.1| < |s| && r.value.0 != []
  {
    var t := SkipSpaces(s);
    if t == [] then None else Some((Word(t), t[|Word(t)|..]))
  }

  lemma {:induction false} DecimalRoundTrip(n: nat)
    ensures NumberOf(Decimal(n)) == n
  {
    var s := Decimal(n);
    if n >= 10 {
      DecimalRoundTrip(n / 10);
      assert s[..|s| - 1] == Decimal(n / 10);
    }
    assert s[|s| - 1] == '0' + (n % 10) as char;
  }

  lemma {:induction false} DigitPrefixStops(d: string, rest: string)
    requires forall i :: 0 <= i < |d| ==> IsDigit(d[i])
    requires rest == [] || !IsDigit(rest[0])
    ensures DigitPrefix(d + rest) == d
  {
    if d == [] {
      assert d + rest == rest;
    } else {
      assert (d + rest)[1..] == d[1..] + rest;
      DigitPrefixStops(d[1..], rest);
    }
  }

  lemma ReadNumberBack(n: nat, rest: string)
    requires rest == [] || !IsDigit(rest[0])
    ensures ReadNumber(" " + Decimal(n) + rest) == Some((n, rest))
  {
    var d := Decimal(n);
    var s := " " + d + rest;
    assert s[1..] == d + rest;
    assert (d + rest)[0] == d[0] && IsDigit(d[0]);
    assert SkipSpaces(s) == SkipSpaces(d + rest) == d + rest;
    DigitPrefixStops(d, rest);
    DecimalRoundTrip(n);
    assert (d + rest)[|d|..] == rest;
  }

  lemma ReadWordBack(w: string, rest: string)
    requires IsName(w)
    requires rest == [] || Space(rest[0])
    ensures ReadWord(w + rest) == Some((w, rest))
    ensures ReadWord(" " + w + rest) == Some((w, rest))
  {
    SkipNothing(w, rest);
    WordStopsAtSpace(w, rest);
    assert (w + rest)[|w|..] == rest;
    assert (" " + w + rest)[1..] == w + rest;
  }

  // ----- lines -----

  /** `getline`: the line and what follows its newline. */
  function GetLine(s: string): (r: (string, string))
    ensures |r.1| <= |s|
  {
    if s == [] then ([], [])
    else if s[0] == '\n' then ([], s[1..])
    else var r := GetLine(s[1..]); ([s[0]] + r.0, r.1)
  }

  lemma {:induction false} GetLineBack(v: string, rest: string)
    requires IsLine(v)
    ensures GetLine(v + "\n" + rest) == (v, rest)
  {
    var s := v + "\n" + rest;
    if v == [] {
      assert s == "\n" + rest;
      assert s[1..] == rest;
    } else {
      assert s[1..] == v[1..] + "\n" + rest;
      GetLineBack(v[1..], rest);
      assert s[0] == v[0] && v == [v[0]] + v[1..];
    }
  }
}
