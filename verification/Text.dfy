/** Splitting, joining and decimal numbers, as the printers and readers of the run files use them. */
module Text {
  import opened Collections

  predicate IsSpace(c: char) {
    c == ' ' || c == '\t' || c == '\n' || c == '\r'
  }

  /** A non-empty word without white space. */
  predicate IsToken(s: string) {
    s != "" && forall i :: 0 <= i < |s| ==> !IsSpace(s[i])
  }

  function Join(parts: seq<string>, separator: string): string {
    if parts == [] then "" else if |parts| == 1 then parts[0] else parts[0] + separator + Join(parts[1..], separator)
  }

  function WordLength(s: string): (n: nat)
    ensures n <= |s|
  {
    if s == "" || IsSpace(s[0]) then 0 else 1 + WordLength(s[1..])
  }

  /** Words separated by runs of white space. */
  function Split(s: string): seq<string>
    decreases |s|
  {
    if s == "" then [] else if IsSpace(s[0]) then Split(s[1..]) else
      [s[..WordLength(s)]] + Split(s[WordLength(s)..])
  }

  lemma {:induction false} WordEnds(t: string, rest: string)
    requires (forall i :: 0 <= i < |t| ==> !IsSpace(t[i])) && (rest == "" || IsSpace(rest[0]))
    ensures WordLength(t + rest) == |t|
  {
    if t == "" {
      assert t + rest == rest;
    } else {
      assert (t + rest)[1..] == t[1..] + rest;
      WordEnds(t[1..], rest);
    }
  }

  /** Splitting undoes joining tokens with a space. */
  lemma {:induction false} SplitJoined(ts: seq<string>)
    requires forall i :: 0 <= i < |ts| ==> IsToken(ts[i])
    ensures Split(Join(ts, " ")) == ts
  {
    if ts != [] {
      var rest := if |ts| == 1 then "" else " " + Join(ts[1..], " ");
      assert Join(ts, " ") == ts[0] + rest;
      WordEnds(ts[0], rest);
      assert (ts[0] + rest)[|ts[0]|..] == rest && (ts[0] + rest)[..|ts[0]|] == ts[0];
      assert IsToken(ts[0]);
      if |ts| > 1 {
        assert rest[1..] == Join(ts[1..], " ");
        SplitJoined(ts[1..]);
      }
    }
  }

  // ---------------------------------------------------------------------------
  // Trimming white space at both ends

  function TrimLeft(s: string): string {
    if s != "" && IsSpace(s[0]) then TrimLeft(s[1..]) else s
  }

  function TrimRight(s: string): string {
    if s != "" && IsSpace(s[|s| - 1]) then TrimRight(s[..|s| - 1]) else s
  }

  function Trim(s: string): string {
    TrimRight(TrimLeft(s))
  }

  ghost predicate Blank(s: string) {
    forall i :: 0 <= i < |s| ==> IsSpace(s[i])
  }

  lemma {:induction false} TrimLeftBlank(a: string, t: string)
    requires Blank(a) && (t == "" || !IsSpace(t[0]))
    ensures TrimLeft(a + t) == t
  {
    if a == "" {
      assert a + t == t;
    } else {
      assert (a + t)[1..] == a[1..] + t;
      TrimLeftBlank(a[1..], t);
    }
  }

  lemma {:induction false} TrimRightBlank(t: string, b: string)
    requires Blank(b) && (t == "" || !IsSpace(t[|t| - 1]))
    ensures TrimRight(t + b) == t
  {
    if b == "" {
      assert t + b == t;
    } else {
      assert (t + b)[..|t + b| - 1] == t + b[..|b| - 1];
      TrimRightBlank(t, b[..|b| - 1]);
    }
  }

  /** Trimming takes away the white space at both ends, and nothing else. */
  lemma TrimIs(a: string, t: string, b: string)
    requires Blank(a) && Blank(b) && t != "" && !IsSpace(t[0]) && !IsSpace(t[|t| - 1])
    ensures Trim(a + t + b) == t
  {
    assert a + t + b == a + (t + b);
    TrimLeftBlank(a, t + b);
    TrimRightBlank(t, b);
  }

  /** Splitting takes away white space in front, and after a word. */
  lemma {:induction false} SplitIs(a: string, t: string, rest: string)
    requires Blank(a) && IsToken(t) && (rest == "" || IsSpace(rest[0]))
    ensures Split(a + t + rest) == [t] + Split(rest) && Split(a) == []
    decreases |a|
  {
    if a == "" {
      assert a + t + rest == t + rest;
      WordEnds(t, rest);
      assert (t + rest)[..|t|] == t && (t + rest)[|t|..] == rest;
    } else {
      assert (a + t + rest)[1..] == a[1..] + t + rest;
      SplitIs(a[1..], t, rest);
    }
  }

  // ---------------------------------------------------------------------------
  // Looking for a character

  predicate Without(s: string, c: char) {
    forall i :: 0 <= i < |s| ==> s[i] != c
  }

  /** The place of the first `c`, or the length. */
  function Find(s: string, c: char): (n: nat)
    ensures n <= |s| && (n < |s| ==> s[n] == c) && Without(s[..n], c)
  {
    if s == "" || s[0] == c then 0 else
      assert forall i :: 1 <= i <= Find(s[1..], c) ==> s[i] == s[1..][..Find(s[1..], c)][i - 1];
      1 + Find(s[1..], c)
  }

  lemma {:induction false} FindFirst(a: string, b: string, c: char)
    requires Without(a, c) && b != "" && b[0] == c
    ensures Find(a + b, c) == |a|
  {
    if a == "" {
      assert a + b == b;
    } else {
      assert (a + b)[1..] == a[1..] + b;
      FindFirst(a[1..], b, c);
    }
  }

  // ---------------------------------------------------------------------------
  // Decimal numbers

  predicate IsDigit(c: char) {
    '0' <= c <= '9'
  }

  predicate AllDigits(s: string) {
    forall i :: 0 <= i < |s| ==> IsDigit(s[i])
  }

  function Digit(d: nat): (c: char)
    requires d < 10
    ensures IsDigit(c) && c as int - '0' as int == d
  {
    '0' + d as char
  }

  function Decimal(n: nat): (s: string)
    ensures s != "" && AllDigits(s)
  {
    if n < 10 then [Digit(n)] else Decimal(n / 10) + [Digit(n % 10)]
  }

  function Value(s: string): nat
    requires AllDigits(s)
  {
    if s == "" then 0 else 10 * Value(s[..|s| - 1]) + (s[|s| - 1] as int - '0' as int)
  }

  /** Reading an unsigned decimal number; anything else raises. */
  function ParseDecimal(s: string): Option<nat> {
    if s != "" && AllDigits(s) then Some(Value(s)) else None
  }

  lemma {:induction false} DecimalRoundTrip(n: nat)
    ensures ParseDecimal(Decimal(n)) == Some(n)
  {
    if n >= 10 {
      DecimalRoundTrip(n / 10);
      assert Decimal(n)[..|Decimal(n)| - 1] == Decimal(n / 10);
    } else {
      assert Decimal(n) == [Digit(n)] && Decimal(n)[..0] == "";
      assert Value([Digit(n)][..0]) == 0;
    }
  }

  lemma DecimalInjective(m: nat, n: nat)
    requires Decimal(m) == Decimal(n)
    ensures m == n
  {
    DecimalRoundTrip(m);
    DecimalRoundTrip(n);
  }

  /** An integer with its sign. */
  function IntegerText(n: int): (s: string)
    ensures s != ""
  {
    if n >= 0 then Decimal(n) else "-" + Decimal(-n)
  }

  function ParseInteger(s: string): Option<int> {
    var signed := s != "" && (s[0] == '-' || s[0] == '+');
    match ParseDecimal(if signed then s[1..] else s)
    case None => None
    case Some(n) => Some(if signed && s[0] == '-' then 0 - n else n as int)
  }

  lemma IntegerRoundTrip(n: int)
    ensures ParseInteger(IntegerText(n)) == Some(n)
  {
    var s := IntegerText(n);
    if n >= 0 {
      DecimalRoundTrip(n);
      assert IsDigit(s[0]);
    } else {
      DecimalRoundTrip(-n);
      assert s[1..] == Decimal(-n);
    }
  }

  /** A plus sign is accepted and means nothing. */
  lemma PlusRoundTrip(n: nat)
    ensures ParseInteger("+" + Decimal(n)) == Some(n)
  {
    DecimalRoundTrip(n);
    assert ("+" + Decimal(n))[1..] == Decimal(n);
  }
}
