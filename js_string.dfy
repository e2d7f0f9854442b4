/**
 * The pieces of JavaScript's string semantics that `getPosition` relies on:
 * `String.prototype.split` with a one-character separator, the global
 * `parseInt` with no radix argument, and the decimal text of an integer.
 */
module JsString {
  import opened Wrappers

  // ---------------------------------------------------------------------------
  // split
  // ---------------------------------------------------------------------------

  /** Index of the first `c` in `s`, or `|s|` when `s` has none. */
  function FirstIndex(s: string, c: char): (k: nat)
    ensures k <= |s|
    ensures c !in s[..k]
    ensures k < |s| ==> s[k] == c
    ensures k == |s| <==> c !in s
  {
    if s == [] then 0
    else if s[0] == c then 0
    else
      var k' := FirstIndex(s[1..], c);
      assert s[..1 + k'] == [s[0]] + s[1..][..k'];
      1 + k'
  }

  /** The text before the first `c` (all of `s` when there is none). */
  function Before(s: string, c: char): (r: string)
    ensures |r| <= |s| && r == s[..|r|]
    ensures c !in r
    ensures |r| < |s| ==> s[|r|] == c
  {
    s[..FirstIndex(s, c)]
  }

  /** The text after the first `c`. */
  function After(s: string, c: char): (r: string)
    requires c in s
    ensures s == Before(s, c) + [c] + r
  {
    var k := FirstIndex(s, c);
    assert s == s[..k] + [c] + s[k + 1..];
    s[k + 1..]
  }

  /** Number of occurrences of `c` in `s`. */
  function Occurrences(s: string, c: char): nat {
    multiset(s)[c]
  }

  lemma AfterDropsOneOccurrence(s: string, c: char)
    requires c in s
    ensures Occurrences(After(s, c), c) + 1 == Occurrences(s, c)
  {
    var b, a := Before(s, c), After(s, c);
    assert s == b + [c] + a;
    assert multiset(s) == multiset(b) + multiset{c} + multiset(a);
    assert multiset(b)[c] == 0;
  }

  /**
   * Element `k` of `s.split(sep)`: `None` where JavaScript yields `undefined`.
   * The piece never holds `sep`, and it exists exactly when `s` holds at least
   * `k` separators.
   */
  function SplitAt(s: string, sep: char, k: nat): (r: Option<string>)
    ensures r.Some? <==> Occurrences(s, sep) >= k
    ensures r.Some? ==> sep !in r.value
    decreases k
  {
    if k == 0 then Some(Before(s, sep))
    else if sep in s then
      AfterDropsOneOccurrence(s, sep);
      SplitAt(After(s, sep), sep, k - 1)
    else None
  }

  lemma {:induction false} FirstIndexAppend(a: string, b: string, c: char)
    requires c !in a
    ensures FirstIndex(a + b, c) == |a| + FirstIndex(b, c)
  {
    if a == [] {
      assert a + b == b;
    } else {
      assert (a + b)[0] == a[0] && (a + b)[1..] == a[1..] + b;
      FirstIndexAppend(a[1..], b, c);
    }
  }

  lemma BeforeAppend(a: string, b: string, c: char)
    requires c !in a
    ensures Before(a + b, c) == a + Before(b, c)
  {
    FirstIndexAppend(a, b, c);
    assert (a + b)[..|a| + FirstIndex(b, c)] == a + b[..FirstIndex(b, c)];
  }

  lemma AfterAppend(a: string, c: char, b: string)
    requires c !in a
    ensures c in a + [c] + b
    ensures After(a + [c] + b, c) == b
  {
    assert (a + [c] + b)[|a|] == c;
    BeforeAppend(a, [c] + b, c);
    assert Before([c] + b, c) == [];
    assert a + [c] + b == a + ([c] + b);
  }

  // ---------------------------------------------------------------------------
  // parseInt
  // ---------------------------------------------------------------------------

  /** ECMAScript's StrWhiteSpaceChar: white space and line terminators. */
  predicate IsJsSpace(c: char) {
    var n := c as int;
    n == 0x09 || n == 0x0A || n == 0x0B || n == 0x0C || n == 0x0D || n == 0x20 ||
    n == 0xA0 || n == 0x1680 || (0x2000 <= n <= 0x200A) || n == 0x2028 ||
    n == 0x2029 || n == 0x202F || n == 0x205F || n == 0x3000 || n == 0xFEFF
  }

  predicate AllSpace(s: string) {
    forall i :: 0 <= i < |s| ==> IsJsSpace(s[i])
  }

  predicate IsDecimalDigit(c: char) {
    '0' <= c <= '9'
  }

  predicate HasDecimalDigit(s: string) {
    exists i :: 0 <= i < |s| && IsDecimalDigit(s[i])
  }

  /** The value of `c` as a digit in radix 36; 36 for a character that is no digit at all. */
  function DigitValue(c: char): (d: nat)
    ensures d < 10 <==> IsDecimalDigit(c)
    ensures d <= 36
  {
    if '0' <= c <= '9' then (c as int) - ('0' as int)
    else if 'a' <= c <= 'z' then (c as int) - ('a' as int) + 10
    else if 'A' <= c <= 'Z' then (c as int) - ('A' as int) + 10
    else 36
  }

  /** Leading whitespace removed, as `parseInt` does first. */
  function TrimStart(s: string): (r: string)
    ensures |r| <= |s| && r == s[|s| - |r|..]
    ensures AllSpace(s[..|s| - |r|])
    ensures r == [] || !IsJsSpace(r[0])
  {
    if s != [] && IsJsSpace(s[0]) then
      var r := TrimStart(s[1..]);
      assert s[..|s| - |r|] == [s[0]] + s[1..][..|s| - 1 - |r|];
      r
    else s
  }

  /** Length of the longest prefix of `s` made of digits of `radix`. */
  function DigitRun(s: string, radix: nat): (n: nat)
    ensures n <= |s|
    ensures forall i :: 0 <= i < n ==> DigitValue(s[i]) < radix
    ensures n < |s| ==> DigitValue(s[n]) >= radix
  {
    if s == [] || DigitValue(s[0]) >= radix then 0
    else 1 + DigitRun(s[1..], radix)
  }

  /** The number that the digit string `ds` denotes in `radix`, read most significant first. */
  function DigitsValue(ds: string, radix: nat): nat {
    if ds == [] then 0
    else DigitsValue(ds[..|ds| - 1], radix) * radix + DigitValue(ds[|ds| - 1])
  }

  /**
   * The digits part of `parseInt`, after whitespace and sign: radix 16 after
   * `0x` or `0X`, radix 10 otherwise, then the longest run of digits; no digit
   * at all gives `None`.
   */
  function ParseMagnitude(u: string): Option<nat> {
    var hex := |u| >= 2 && u[0] == '0' && (u[1] == 'x' || u[1] == 'X');
    var radix := if hex then 16 else 10;
    var digits := if hex then u[2..] else u;
    var n := DigitRun(digits, radix);
    if n == 0 then None else Some(DigitsValue(digits[..n], radix))
  }

  /** `parseInt` after the whitespace: an optional sign, then the magnitude. */
  function ParseSigned(t: string): Option<int> {
    var signed := t != [] && (t[0] == '-' || t[0] == '+');
    match ParseMagnitude(if signed then t[1..] else t)
    case None => None
    case Some(m) => Some(if signed && t[0] == '-' then -(m as int) else m as int)
  }

  /** The text after an optional leading `-` or `+`. */
  function AfterSign(t: string): (u: string)
    ensures u == t || (t != [] && (t[0] == '-' || t[0] == '+') && u == t[1..])
  {
    if t != [] && (t[0] == '-' || t[0] == '+') then t[1..] else t
  }

  /** `0x` or `0X`, which switches `parseInt` to hexadecimal. */
  predicate HexPrefixed(u: string) {
    |u| >= 2 && u[0] == '0' && (u[1] == 'x' || u[1] == 'X')
  }

  /**
   * The text after the sign begins an integer: a decimal digit, or after
   * `0x` a hexadecimal digit.
   */
  predicate BeginsInteger(u: string) {
    if HexPrefixed(u) then |u| > 2 && DigitValue(u[2]) < 16
    else u != [] && IsDecimalDigit(u[0])
  }

  /** After the whitespace, a number is read exactly when an integer begins after the optional sign. */
  lemma SignedIff(t: string)
    ensures ParseSigned(t).Some? <==> BeginsInteger(AfterSign(t))
  {
    var u := AfterSign(t);
    if HexPrefixed(u) {
      assert u[2..] == [] || u[2..][0] == u[2];
    }
  }

  /** After the whitespace, a number needs a leading decimal digit, or a sign followed by one. */
  lemma SignedNeedsDigit(t: string)
    ensures ParseSigned(t).Some? ==>
              t != [] && (IsDecimalDigit(t[0]) || t[0] == '-' || t[0] == '+') && HasDecimalDigit(t)
  {
    SignedIff(t);
    if ParseSigned(t).Some? {
      var u := AfterSign(t);
      var i := if u == t then 0 else 1;
      assert u[0] == t[i];
    }
  }

  /**
   * JavaScript's `parseInt(s)` with no radix; `None` stands for `NaN`. A
   * number is read exactly when, after the whitespace and an optional sign,
   * an integer begins; in particular the text then holds a decimal digit.
   */
  function ParseInt(s: string): (r: Option<int>)
    ensures r.Some? <==> BeginsInteger(AfterSign(TrimStart(s)))
    ensures r.Some? ==> var t := TrimStart(s);
              t != [] && (IsDecimalDigit(t[0]) || t[0] == '-' || t[0] == '+')
    ensures r.Some? ==> HasDecimalDigit(s)
  {
    var t := TrimStart(s);
    SignedIff(t);
    SignedNeedsDigit(t);
    SuffixDigit(s, t);
    ParseSigned(t)
  }

  /** A digit of a suffix is a digit of the whole text. */
  lemma SuffixDigit(s: string, t: string)
    requires |t| <= |s| && t == s[|s| - |t|..]
    ensures HasDecimalDigit(t) ==> HasDecimalDigit(s)
  {
    if HasDecimalDigit(t) {
      var i :| 0 <= i < |t| && IsDecimalDigit(t[i]);
      assert s[|s| - |t| + i] == t[i];
    }
  }

  /** Text starting with something other than whitespace, a sign or a digit parses to `NaN`. */
  lemma LetterIsNaN(s: string)
    requires s != [] && !IsJsSpace(s[0]) && !IsDecimalDigit(s[0]) && s[0] != '-' && s[0] != '+'
    ensures ParseInt(s) == None
  {
    assert TrimStart(s) == s;
  }

  /** A sign must be followed by a digit: `-x5` holds a sign and a digit, yet parses to `NaN`. */
  lemma SignThenLetterIsNaN()
    ensures HasDecimalDigit("-x5") && ParseInt("-x5") == None
  {
    assert IsDecimalDigit("-x5"[2]);
    assert TrimStart("-x5") == "-x5";
    assert AfterSign("-x5") == "x5";
  }

  // ---------------------------------------------------------------------------
  // Number to string
  // ---------------------------------------------------------------------------

  function DigitChar(d: nat): (c: char)
    requires d < 10
    ensures IsDecimalDigit(c) && DigitValue(c) == d
  {
    ('0' as int + d) as char
  }

  /** Decimal digits of `n`, most significant first, without leading zeros. */
  function NatToString(n: nat): (s: string)
    ensures s != []
    ensures forall i :: 0 <= i < |s| ==> IsDecimalDigit(s[i])
    ensures s[0] == '0' <==> n == 0
  {
    if n < 10 then [DigitChar(n)]
    else NatToString(n / 10) + [DigitChar(n % 10)]
  }

  /** What JavaScript prints for an integral number (below 10^21 in magnitude). */
  function IntToString(n: int): (s: string)
    ensures s != [] && !IsJsSpace(s[0])
    ensures forall i :: 0 <= i < |s| ==> s[i] == '-' || IsDecimalDigit(s[i])
  {
    if n < 0 then "-" + NatToString(-n) else NatToString(n)
  }

  lemma {:induction false} NatToStringValue(n: nat)
    ensures DigitsValue(NatToString(n), 10) == n
  {
    var s := NatToString(n);
    if n >= 10 {
      NatToStringValue(n / 10);
      assert s[..|s| - 1] == NatToString(n / 10);
    }
  }

  lemma {:induction false} DigitRunOfDigits(ds: string, rest: string, radix: nat)
    requires forall i :: 0 <= i < |ds| ==> DigitValue(ds[i]) < radix
    requires rest == [] || DigitValue(rest[0]) >= radix
    ensures DigitRun(ds + rest, radix) == |ds|
  {
    if ds != [] {
      assert (ds + rest)[1..] == ds[1..] + rest;
      DigitRunOfDigits(ds[1..], rest, radix);
    } else {
      assert ds + rest == rest;
    }
  }

  lemma {:induction false} TrimStartSkipsSpace(ws: string, t: string)
    requires AllSpace(ws)
    requires t == [] || !IsJsSpace(t[0])
    ensures TrimStart(ws + t) == t
  {
    if ws == [] {
      assert ws + t == t;
    } else {
      assert (ws + t)[1..] == ws[1..] + t;
      TrimStartSkipsSpace(ws[1..], t);
    }
  }

  /**
   * `rest` does not continue the printed form of `n`: it does not start with
   * a digit, nor, after a lone `0`, with the `x` or `X` of a hexadecimal prefix.
   */
  predicate EndsNumber(n: int, rest: string) {
    rest == [] || (!IsDecimalDigit(rest[0]) && (n == 0 ==> rest[0] != 'x' && rest[0] != 'X'))
  }

  lemma ParseMagnitudeOfString(m: nat, rest: string)
    requires EndsNumber(m, rest)
    ensures ParseMagnitude(NatToString(m) + rest) == Some(m)
  {
    var ds := NatToString(m);
    var u := ds + rest;
    assert u[0] == ds[0];
    if |u| >= 2 && u[0] == '0' {
      assert |ds| == 1;
      assert u[1] == rest[0];
    }
    DigitRunOfDigits(ds, rest, 10);
    assert u[..|ds|] == ds;
    NatToStringValue(m);
  }

  /**
   * Round trip: `parseInt` reads back the printed form of `n` after any
   * whitespace, whatever text follows that does not continue the number.
   */
  lemma ParseIntOfString(ws: string, n: int, rest: string)
    requires AllSpace(ws)
    requires EndsNumber(n, rest)
    ensures ParseInt(ws + IntToString(n) + rest) == Some(n)
  {
    var t := IntToString(n) + rest;
    assert ws + IntToString(n) + rest == ws + t;
    TrimStartSkipsSpace(ws, t);
    ParseSignedOfString(n, rest);
  }

  /** The same round trip with nothing before the number. */
  lemma ParseIntOfNumber(n: int, rest: string)
    requires EndsNumber(n, rest)
    ensures ParseInt(IntToString(n) + rest) == Some(n)
  {
    var t := IntToString(n) + rest;
    assert t[0] == IntToString(n)[0];
    assert TrimStart(t) == t;
    ParseSignedOfString(n, rest);
  }

  lemma ParseSignedOfString(n: int, rest: string)
    requires EndsNumber(n, rest)
    ensures ParseSigned(IntToString(n) + rest) == Some(n)
  {
    if n < 0 {
      NegativeParse(-n, rest);
    } else {
      NonNegativeParse(n, rest);
    }
  }

  lemma NegativeParse(m: nat, rest: string)
    requires m > 0
    requires EndsNumber(m, rest)
    ensures ParseSigned(IntToString(-(m as int)) + rest) == Some(-(m as int))
  {
    var u := NatToString(m) + rest;
    ParseMagnitudeOfString(m, rest);
    MinusParse(u, m);
    NegativeText(m, rest);
  }

  lemma NegativeText(m: nat, rest: string)
    requires m > 0
    ensures IntToString(-(m as int)) + rest == ['-'] + (NatToString(m) + rest)
  {
  }

  lemma NonNegativeParse(m: nat, rest: string)
    requires EndsNumber(m, rest)
    ensures ParseSigned(NatToString(m) + rest) == Some(m)
  {
    var u := NatToString(m) + rest;
    assert u[0] == NatToString(m)[0];
    ParseMagnitudeOfString(m, rest);
    UnsignedParse(u, m);
  }

  /** Text starting with a digit is read without a sign. */
  lemma UnsignedParse(u: string, m: nat)
    requires u != [] && IsDecimalDigit(u[0])
    requires ParseMagnitude(u) == Some(m)
    ensures ParseSigned(u) == Some(m)
  {
  }

  /** A leading `-` negates the magnitude that follows. */
  lemma MinusParse(u: string, m: nat)
    requires ParseMagnitude(u) == Some(m)
    ensures ParseSigned(['-'] + u) == Some(-(m as int))
  {
    assert (['-'] + u)[1..] == u;
  }
}
