/** The few JavaScript string operations the simulator relies on: printing an
    integer, `split`, `join`, `trim` and decimal `parseInt`. */
module Text {
  import opened Types

  predicate IsDigit(c: char)
  {
    '0' <= c <= '9'
  }

  predicate AllDigits(s: string)
  {
    forall i :: 0 <= i < |s| ==> IsDigit(s[i])
  }

  function DigitChar(d: nat): (c: char)
    requires d < 10
    ensures IsDigit(c)
  {
    (48 + d) as char
  }

  function DigitValue(c: char): (d: nat)
    requires IsDigit(c)
    ensures d < 10 && DigitChar(d) == c
  {
    c as int - 48
  }

  /** Decimal rendering of a natural number, most significant digit first,
      without leading zeros; JavaScript prints integral numbers this way. */
  function NatToString(n: nat): (s: string)
    ensures 0 < |s| && AllDigits(s)
  {
    if n < 10 then [DigitChar(n)] else NatToString(n / 10) + [DigitChar(n % 10)]
  }

  /** `${i}` for an integer `i`. */
  function IntToString(i: int): (s: string)
    ensures 0 < |s|
    ensures i >= 0 ==> AllDigits(s)
  {
    if i < 0 then "-" + NatToString(-i) else NatToString(i)
  }

  /** The number a string of decimal digits denotes. */
  function DigitsValue(s: string): nat
    requires AllDigits(s)
  {
    if s == [] then 0 else DigitsValue(s[..|s| - 1]) * 10 + DigitValue(s[|s| - 1])
  }

  /** Reading back a printed natural number gives the number. */
  lemma {:induction false} NatToStringRoundTrip(n: nat)
    ensures DigitsValue(NatToString(n)) == n
  {
    if n >= 10 {
      var s := NatToString(n);
      assert s[..|s| - 1] == NatToString(n / 10);
      NatToStringRoundTrip(n / 10);
    }
  }

  /** Printing is injective on natural numbers. */
  lemma NatToStringInjective(m: nat, n: nat)
    requires NatToString(m) == NatToString(n)
    ensures m == n
  {
    NatToStringRoundTrip(m);
    NatToStringRoundTrip(n);
  }

  /** The characters that JavaScript's `trim` removes and `parseInt` skips:
      white space and line terminators. */
  predicate IsWhitespace(c: char)
  {
    || c == ' ' || c == '\t' || c == '\n' || c == '\r'
    || c == '\U{B}' || c == '\U{C}' || c == '\U{A0}' || c == '\U{FEFF}'
    || c == '\U{1680}' || ('\U{2000}' <= c <= '\U{200A}')
    || c == '\U{2028}' || c == '\U{2029}' || c == '\U{202F}' || c == '\U{205F}'
    || c == '\U{3000}'
  }

  function TrimStart(s: string): (r: string)
    ensures |r| <= |s| && r == s[|s| - |r|..]
    ensures r == [] || !IsWhitespace(r[0])
  {
    if s != [] && IsWhitespace(s[0]) then TrimStart(s[1..]) else s
  }

  function TrimEnd(s: string): (r: string)
    ensures |r| <= |s| && r == s[..|r|]
    ensures r == [] || !IsWhitespace(r[|r| - 1])
  {
    if s != [] && IsWhitespace(s[|s| - 1]) then TrimEnd(s[..|s| - 1]) else s
  }

  /** `s.trim()`. */
  function Trim(s: string): string
  {
    TrimEnd(TrimStart(s))
  }

  /** The longest prefix of `s` made of decimal digits. */
  function DigitPrefix(s: string): (r: string)
    ensures AllDigits(r) && r <= s
    ensures |r| < |s| ==> !IsDigit(s[|r|])
  {
    if s != [] && IsDigit(s[0]) then [s[0]] + DigitPrefix(s[1..]) else []
  }

  /** `parseInt(s)` for decimal input: leading white space is skipped, one
      optional sign is read, then the longest run of digits; the result is
      NaN (here `None`) when that run is empty. */
  function ParseInt(s: string): Option<int>
  {
    var t := TrimStart(s);
    var negative := t != [] && t[0] == '-';
    var body := if t != [] && (t[0] == '-' || t[0] == '+') then t[1..] else t;
    var digits := DigitPrefix(body);
    if digits == [] then None
    else Some(if negative then -(DigitsValue(digits) as int) else DigitsValue(digits))
  }

  /** Parsing the printed form of a natural number, with or without leading
      white space, gives the number back. */
  lemma ParseIntOfNatToString(n: nat, pad: string)
    requires forall i :: 0 <= i < |pad| ==> IsWhitespace(pad[i])
    ensures ParseInt(Trim(pad + NatToString(n))) == Some(n)
  {
    var d := NatToString(n);
    TrimPaddedDigits(pad, d);
    ParseIntOfDigits(d);
    NatToStringRoundTrip(n);
  }

  /** Trimming white space off the front of a run of digits leaves the digits. */
  lemma TrimPaddedDigits(pad: string, d: string)
    requires forall i :: 0 <= i < |pad| ==> IsWhitespace(pad[i])
    requires d != [] && AllDigits(d)
    ensures Trim(pad + d) == d
  {
    assert !IsWhitespace(d[0]) && !IsWhitespace(d[|d| - 1]);
    TrimStartOverWhitespace(pad, d);
  }

  /** A non-empty run of digits parses to the number it denotes. */
  lemma ParseIntOfDigits(d: string)
    requires d != [] && AllDigits(d)
    ensures ParseInt(d) == Some(DigitsValue(d))
  {
    assert !IsWhitespace(d[0]) && !(d[0] == '-' || d[0] == '+');
    assert TrimStart(d) == d;
    AllDigitsPrefix(d);
  }

  lemma {:induction false} TrimStartOverWhitespace(pad: string, d: string)
    requires forall i :: 0 <= i < |pad| ==> IsWhitespace(pad[i])
    requires d != [] && !IsWhitespace(d[0])
    ensures TrimStart(pad + d) == d
  {
    if pad != [] {
      assert (pad + d)[1..] == pad[1..] + d;
      TrimStartOverWhitespace(pad[1..], d);
    }
  }

  lemma {:induction false} AllDigitsPrefix(d: string)
    requires AllDigits(d)
    ensures DigitPrefix(d) == d
  {
    if d != [] {
      AllDigitsPrefix(d[1..]);
    }
  }

  /** `s.split(sep)`: the pieces between separators, at least one (possibly
      empty) piece, none containing the separator. */
  function Split(s: string, sep: char): (parts: seq<string>)
    ensures 0 < |parts|
    ensures forall i :: 0 <= i < |parts| ==> sep !in parts[i]
  {
    if s == [] then [[]]
    else
      var rest := Split(s[1..], sep);
      if s[0] == sep then [[]] + rest
      else [[s[0]] + rest[0]] + rest[1..]
  }

  /** `parts.join(sep)`. */
  function Join(parts: seq<string>, sep: string): string
  {
    if parts == [] then ""
    else if |parts| == 1 then parts[0]
    else parts[0] + sep + Join(parts[1..], sep)
  }

  /** Splitting and joining back with the same separator gives the input. */
  lemma {:induction false} JoinSplit(s: string, sep: char)
    ensures Join(Split(s, sep), [sep]) == s
  {
    if s != [] {
      JoinSplit(s[1..], sep);
      var rest := Split(s[1..], sep);
      if s[0] == sep {
        assert Split(s, sep) == [[]] + rest;
      } else {
        var parts := Split(s, sep);
        assert parts[1..] == rest[1..];
        if |rest| == 1 {
          assert Join(parts, [sep]) == [s[0]] + rest[0];
        } else {
          assert Join(rest, [sep]) == rest[0] + [sep] + Join(rest[1..], [sep]);
          assert Join(parts, [sep]) == [s[0]] + rest[0] + [sep] + Join(rest[1..], [sep]);
        }
      }
    }
  }

  /** A piece without the separator followed by the separator splits off as
      one part. */
  lemma {:induction false} SplitAfterPiece(a: string, sep: char, b: string)
    requires sep !in a
    ensures Split(a + [sep] + b, sep) == [a] + Split(b, sep)
  {
    if a != [] {
      assert (a + [sep] + b)[1..] == a[1..] + [sep] + b;
      SplitAfterPiece(a[1..], sep, b);
      var rest := Split(a[1..] + [sep] + b, sep);
      assert rest[0] == a[1..] && rest[1..] == Split(b, sep);
      assert [a[0]] + a[1..] == a;
    } else {
      assert a + [sep] + b == [sep] + b;
    }
  }

  /** A string without the separator is one part. */
  lemma {:induction false} SplitWhole(a: string, sep: char)
    requires sep !in a
    ensures Split(a, sep) == [a]
  {
    if a != [] {
      SplitWhole(a[1..], sep);
      assert [a[0]] + a[1..] == a;
    }
  }

  /** The printed forms of a list of integers, `ids.map(String)`. */
  function Render(ids: seq<int>): (r: seq<string>)
    ensures |r| == |ids|
    ensures forall i :: 0 <= i < |ids| ==> r[i] == IntToString(ids[i])
  {
    seq(|ids|, i requires 0 <= i < |ids| => IntToString(ids[i]))
  }

  /** `ids.join(', ')`. */
  function JoinIds(ids: seq<int>): string
  {
    Join(Render(ids), ", ")
  }
}
