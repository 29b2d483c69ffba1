/** Character classes, case lowering, trimming, decimal printing, splitting and joining. */
module Text {
  import opened Wrappers
  import Seqs

  /** ASCII lowering: the model's stand-in for String.prototype.toLowerCase. */
  function LowerChar(c: char): char {
    if 'A' <= c <= 'Z' then (c as int + 32) as char else c
  }

  function Lower(s: string): (r: string)
    ensures |r| == |s|
    ensures forall i :: 0 <= i < |s| ==> r[i] == LowerChar(s[i])
  {
    Seqs.Map(s, LowerChar)
  }

  /** `\s` of a C++ std::regex and isspace in the "C" locale. */
  predicate IsCSpace(c: char) {
    c == ' ' || c == '\t' || c == '\n' || c == '\U{000B}' || c == '\U{000C}' || c == '\r'
  }

  /** ECMAScript WhiteSpace and LineTerminator: what String.prototype.trim removes and `\s` matches. */
  predicate IsJsSpace(c: char) {
    c == '\t' || c == '\n' || c == '\U{000B}' || c == '\U{000C}' || c == '\r' || c == ' '
    || c == '\U{00A0}' || c == '\U{1680}' || ('\U{2000}' <= c <= '\U{200A}')
    || c == '\U{2028}' || c == '\U{2029}' || c == '\U{202F}' || c == '\U{205F}'
    || c == '\U{3000}' || c == '\U{FEFF}'
  }

  /** Number of leading characters satisfying ws. */
  function LeadingCount(s: string, ws: char -> bool): (n: nat)
    ensures n <= |s|
    ensures forall i :: 0 <= i < n ==> ws(s[i])
    ensures n < |s| ==> !ws(s[n])
  {
    if s == [] || !ws(s[0]) then 0 else 1 + LeadingCount(s[1..], ws)
  }

  /** Start of the maximal suffix whose characters satisfy ws. */
  function TrailingStart(s: string, ws: char -> bool): (m: nat)
    ensures m <= |s|
    ensures forall i :: m <= i < |s| ==> ws(s[i])
    ensures m > 0 ==> !ws(s[m - 1])
  {
    if s == [] || !ws(s[|s| - 1]) then |s| else TrailingStart(s[..|s| - 1], ws)
  }

  /** s with the leading and trailing characters satisfying ws removed. */
  function Trim(s: string, ws: char -> bool): (r: string)
    ensures exists i, j :: 0 <= i <= j <= |s| && r == s[i..j]
                        && (forall k :: 0 <= k < i ==> ws(s[k]))
                        && (forall k :: j <= k < |s| ==> ws(s[k]))
    ensures r != [] ==> !ws(r[0]) && !ws(r[|r| - 1])
    ensures r == [] <==> forall k :: 0 <= k < |s| ==> ws(s[k])
  {
    var n := LeadingCount(s, ws);
    if n == |s| then
      assert s[n..n] == [];
      []
    else
      var m := TrailingStart(s, ws);
      assert n < m;
      s[n..m]
  }

  /** String.prototype.trim. */
  function JsTrim(s: string): string {
    Trim(s, IsJsSpace)
  }

  predicate IsDigit(c: char) {
    '0' <= c <= '9'
  }

  function DigitChar(d: nat): (c: char)
    requires d < 10
    ensures IsDigit(c) && c as int - '0' as int == d
  {
    ('0' as int + d) as char
  }

  predicate AllDigits(s: string) {
    forall i :: 0 <= i < |s| ==> IsDigit(s[i])
  }

  /** Decimal rendering of a natural number, as std::format("{}") and std::to_string give it. */
  function NatToString(n: nat): (r: string)
    ensures |r| > 0 && AllDigits(r)
    decreases n
  {
    if n < 10 then [DigitChar(n)] else NatToString(n / 10) + [DigitChar(n % 10)]
  }

  /** The value of a string of decimal digits. */
  function DigitsValue(s: string): nat
    requires AllDigits(s)
  {
    if s == [] then 0 else 10 * DigitsValue(s[..|s| - 1]) + (s[|s| - 1] as int - '0' as int)
  }

  /** Reading the rendered digits back gives the number. */
  lemma {:induction false} NatToStringValue(n: nat)
    ensures DigitsValue(NatToString(n)) == n
    decreases n
  {
    if n >= 10 {
      NatToStringValue(n / 10);
      var s := NatToString(n);
      assert s[..|s| - 1] == NatToString(n / 10);
    }
  }

  /** Decimal rendering of an integer with a leading '-' when negative. */
  function IntToString(i: int): (r: string)
    ensures |r| > 0
    ensures i >= 0 ==> AllDigits(r)
    ensures i < 0 ==> r[0] == '-' && AllDigits(r[1..])
  {
    if i < 0 then "-" + NatToString(-i) else NatToString(i)
  }

  /** Only digits and the minus sign appear in a rendered integer. */
  lemma IntToStringChars(i: int)
    ensures forall c :: c in IntToString(i) ==> IsDigit(c) || c == '-'
  {
    var r := IntToString(i);
    forall c | c in r ensures IsDigit(c) || c == '-' {
      var k :| 0 <= k < |r| && r[k] == c;
      if i < 0 && k > 0 {
        assert r[k] == r[1..][k - 1];
      }
    }
  }

  /** Length of the longest prefix made of decimal digits. */
  function DigitRun(s: string): (n: nat)
    ensures n <= |s| && AllDigits(s[..n])
    ensures n < |s| ==> !IsDigit(s[n])
  {
    if s == [] || !IsDigit(s[0]) then 0
    else
      var n := 1 + DigitRun(s[1..]);
      assert s[..n] == [s[0]] + s[1..][..n - 1];
      n
  }

  const IntMin: int := -0x8000_0000
  const IntMax: int := 0x7FFF_FFFF

  /**
   * std::stoi in base 10: leading isspace characters are skipped, then an optional sign
   * and the longest run of digits are read and the rest is ignored. No digits, or a value
   * outside the range of int, is an error (std::invalid_argument, std::out_of_range).
   */
  function Stoi(s: string): (r: Option<int>)
    ensures r.Some? ==> IntMin <= r.value <= IntMax
  {
    SignedDigits(s[LeadingCount(s, IsCSpace)..])
  }

  /** The part of stoi after the leading whitespace: an optional sign, then digits. */
  function SignedDigits(t: string): (r: Option<int>)
    ensures r.Some? ==> IntMin <= r.value <= IntMax
  {
    if |t| > 0 && t[0] == '-' then Magnitude(t[1..], true)
    else if |t| > 0 && t[0] == '+' then Magnitude(t[1..], false)
    else Magnitude(t, false)
  }

  /** The magnitude with its sign applied. */
  function Signed(magnitude: nat, negative: bool): int {
    if negative then -(magnitude as int) else magnitude
  }

  /** v when it fits in an int, else std::out_of_range. */
  function InRange(v: int): (r: Option<int>)
    ensures r.Some? <==> IntMin <= v <= IntMax
    ensures r.Some? ==> r.value == v
  {
    if IntMin <= v <= IntMax then Some(v) else None
  }

  function Magnitude(u: string, negative: bool): (r: Option<int>)
    ensures r.Some? ==> IntMin <= r.value <= IntMax
  {
    var n := DigitRun(u);
    if n == 0 then None else InRange(Signed(DigitsValue(u[..n]), negative))
  }

  lemma {:induction false} DigitRunOf(d: string, tail: string)
    requires AllDigits(d) && (tail == [] || !IsDigit(tail[0]))
    ensures DigitRun(d + tail) == |d|
    decreases |d|
  {
    if d != [] {
      assert (d + tail)[1..] == d[1..] + tail;
      DigitRunOf(d[1..], tail);
    }
  }

  /** Text that starts with a digit or a sign has no leading whitespace to skip. */
  lemma StoiNoSpace(s: string)
    requires |s| > 0 && (IsDigit(s[0]) || s[0] == '-')
    ensures Stoi(s) == SignedDigits(s)
  {
    assert LeadingCount(s, IsCSpace) == 0;
    assert s[0..] == s;
  }

  lemma MagnitudeOf(d: string, tail: string, negative: bool)
    requires |d| > 0 && AllDigits(d) && (tail == [] || !IsDigit(tail[0]))
    ensures Magnitude(d + tail, negative) == InRange(Signed(DigitsValue(d), negative))
  {
    DigitRunOf(d, tail);
    assert (d + tail)[..|d|] == d;
  }

  lemma SignedMinus(u: string)
    ensures Stoi(['-'] + u) == Magnitude(u, true)
  {
    var s := ['-'] + u;
    StoiNoSpace(s);
    assert s[0] == '-';
    assert s[1..] == u;
  }

  /** A minus sign, digits and non-digit text: the negated digits, if in range. */
  lemma StoiNegative(d: string, tail: string)
    requires |d| > 0 && AllDigits(d) && (tail == [] || !IsDigit(tail[0]))
    ensures Stoi(['-'] + (d + tail)) == InRange(Signed(DigitsValue(d), true))
  {
    SignedMinus(d + tail);
    MagnitudeOf(d, tail, true);
  }

  /** Digits and non-digit text: the digits' value, if in range. */
  lemma StoiNonNegative(d: string, tail: string)
    requires |d| > 0 && AllDigits(d) && (tail == [] || !IsDigit(tail[0]))
    ensures Stoi(d + tail) == InRange(Signed(DigitsValue(d), false))
  {
    var s := d + tail;
    assert s[0] == d[0];
    StoiNoSpace(s);
    MagnitudeOf(d, tail, false);
  }

  lemma StoiNegativeText(i: int, tail: string)
    requires i < 0
    ensures IntToString(i) + tail == ['-'] + (NatToString(-i) + tail)
  {
  }

  lemma StoiNegativeInt(i: int, tail: string)
    requires IntMin <= i < 0
    requires tail == [] || !IsDigit(tail[0])
    ensures Stoi(IntToString(i) + tail) == Some(i)
  {
    var d := NatToString(-i);
    NatToStringValue(-i);
    StoiNegativeText(i, tail);
    StoiNegative(d, tail);
    assert Signed(DigitsValue(d), true) == i;
  }

  lemma StoiNonNegativeInt(i: int, tail: string)
    requires 0 <= i <= IntMax
    requires tail == [] || !IsDigit(tail[0])
    ensures Stoi(IntToString(i) + tail) == Some(i)
  {
    var d := NatToString(i);
    NatToStringValue(i);
    assert IntToString(i) == d;
    StoiNonNegative(d, tail);
    assert Signed(DigitsValue(d), false) == i;
  }

  /** stoi reads back what IntToString printed, whatever non-digit text follows it. */
  lemma StoiIntToString(i: int, tail: string)
    requires IntMin <= i <= IntMax
    requires tail == [] || !IsDigit(tail[0])
    ensures Stoi(IntToString(i) + tail) == Some(i)
  {
    if i < 0 {
      StoiNegativeInt(i, tail);
    } else {
      StoiNonNegativeInt(i, tail);
    }
  }

  /** The parts with sep between consecutive ones. */
  function Join(parts: seq<string>, sep: string): string {
    if |parts| == 0 then ""
    else if |parts| == 1 then parts[0]
    else parts[0] + sep + Join(parts[1..], sep)
  }

  lemma JoinSnoc(parts: seq<string>, x: string, sep: string)
    requires |parts| > 0
    ensures Join(parts + [x], sep) == Join(parts, sep) + sep + x
  {
    if |parts| > 1 {
      assert (parts + [x])[1..] == parts[1..] + [x];
      JoinSnoc(parts[1..], x, sep);
    } else {
      assert (parts + [x])[1..] == [x];
    }
  }

  /** Joining one more mapped element: the separator only after the first. */
  lemma JoinMapStep<T>(xs: seq<T>, i: nat, f: T -> string, sep: string)
    requires i < |xs|
    ensures Join(Seqs.Map(xs[..i + 1], f), sep) ==
      if i == 0 then f(xs[0]) else Join(Seqs.Map(xs[..i], f), sep) + sep + f(xs[i])
  {
    var parts := Seqs.Map(xs[..i], f);
    assert Seqs.Map(xs[..i + 1], f) == parts + [f(xs[i])];
    if i > 0 {
      JoinSnoc(parts, f(xs[i]), sep);
    } else {
      assert parts + [f(xs[i])] == [f(xs[0])];
    }
  }

  /**
   * The builder loop of shops_to_json and users_to_json: each rendered element is
   * appended to prefix, with sep before every element but the first.
   */
  method AppendJoined<T>(prefix: string, xs: seq<T>, render: T -> string, sep: string) returns (s: string)
    ensures s == prefix + Join(Seqs.Map(xs, render), sep)
  {
    s := prefix;
    var i := 0;
    while i < |xs|
      invariant 0 <= i <= |xs|
      invariant s == prefix + Join(Seqs.Map(xs[..i], render), sep)
    {
      JoinMapStep(xs, i, render, sep);
      if i > 0 {
        s := s + sep;
      }
      s := s + render(xs[i]);
      i := i + 1;
    }
    assert xs[..i] == xs;
  }

  /** Index of the first c in s. */
  function CharIndex(s: string, c: char): (r: Option<nat>)
    ensures r.Some? ==> r.value < |s| && s[r.value] == c && c !in s[..r.value]
    ensures r.None? <==> c !in s
  {
    if s == [] then None
    else if s[0] == c then Some(0)
    else match CharIndex(s[1..], c)
      case None => None
      case Some(k) =>
        assert s[..k + 1] == [s[0]] + s[1..][..k];
        Some(k + 1)
  }

  /** The first c is found where it was put. */
  lemma {:induction false} CharIndexAfter(a: string, c: char, rest: string)
    requires c !in a
    ensures CharIndex(a + [c] + rest, c) == Some(|a|)
    decreases |a|
  {
    var s := a + [c] + rest;
    if a != [] {
      assert s[0] == a[0];
      assert s[1..] == a[1..] + [c] + rest;
      CharIndexAfter(a[1..], c, rest);
    }
  }

  /** The pieces of s between occurrences of c. */
  function Split(s: string, c: char): (r: seq<string>)
    ensures |r| > 0
    ensures forall k :: 0 <= k < |r| ==> c !in r[k]
    decreases |s|
  {
    match CharIndex(s, c)
    case None => [s]
    case Some(i) => [s[..i]] + Split(s[i + 1..], c)
  }

  /** Splitting and rejoining with the same separator gives the string back. */
  lemma {:induction false} SplitJoin(s: string, c: char)
    ensures Join(Split(s, c), [c]) == s
    decreases |s|
  {
    match CharIndex(s, c)
    case None =>
    case Some(i) =>
      SplitJoin(s[i + 1..], c);
      var rest := Split(s[i + 1..], c);
      assert Split(s, c) == [s[..i]] + rest;
      assert Split(s, c)[1..] == rest;
      assert s == s[..i] + [c] + s[i + 1..];
  }

  function StartsWith(s: string, prefix: string): bool {
    prefix <= s
  }
}
