/** The parts of the JavaScript built-ins the backend leans on for text:
    `parseInt` (ECMAScript section 19.2.5, "parseInt ( string, radix )"),
    the rendering of an integer in a template literal, and
    `String.prototype.replace` with a string pattern, which replaces only the
    first occurrence. Numbers are unbounded integers here: the loss of
    precision of IEEE doubles above 2^53 is not modelled. */
module JsText {
  import opened Wrappers

  /** StrWhiteSpaceChar: the white space and line terminators that `parseInt`
      skips before the number. */
  predicate IsJsWhitespace(c: char) {
    c == '\t' || c == '\U{B}' || c == '\U{C}' || c == ' ' || c == '\U{A0}' || c == '\U{FEFF}'
    || c == '\U{1680}' || ('\U{2000}' <= c <= '\U{200A}') || c == '\U{202F}' || c == '\U{205F}'
    || c == '\U{3000}' || c == '\n' || c == '\r' || c == '\U{2028}' || c == '\U{2029}'
  }

  /** Drops the leading white space. */
  function TrimStart(s: string): (r: string)
    ensures |r| <= |s| && r == s[|s| - |r|..]
    ensures r == [] || !IsJsWhitespace(r[0])
  {
    if s != [] && IsJsWhitespace(s[0]) then TrimStart(s[1..]) else s
  }

  /** The value of a digit in any radix up to 36 ('0'-'9', then 'a'-'z' in
      either case); 36 for a character that is no digit at all. */
  function DigitValue(c: char): (d: nat)
    ensures d <= 36
  {
    if '0' <= c <= '9' then c as int - '0' as int
    else if 'a' <= c <= 'z' then c as int - 'a' as int + 10
    else if 'A' <= c <= 'Z' then c as int - 'A' as int + 10
    else 36
  }

  predicate IsDigitIn(c: char, radix: nat) {
    DigitValue(c) < radix
  }

  /** The end of the longest run of `radix` digits starting at `from`. */
  function DigitRun(s: string, radix: nat, from: nat): (end: nat)
    requires from <= |s|
    ensures from <= end <= |s|
    ensures forall i :: from <= i < end ==> IsDigitIn(s[i], radix)
    ensures end < |s| ==> !IsDigitIn(s[end], radix)
    decreases |s| - from
  {
    if from < |s| && IsDigitIn(s[from], radix) then DigitRun(s, radix, from + 1) else from
  }

  /** The number a string of digits denotes, most significant digit first. */
  function DigitsValue(ds: string, radix: nat): nat {
    if ds == [] then 0
    else DigitsValue(ds[..|ds| - 1], radix) * radix + DigitValue(ds[|ds| - 1])
  }

  /** `parseInt(s)` lets a "0x" prefix select radix 16; `parseInt(s, 10)` does not. */
  datatype Radix = AutoRadix | Radix10

  /** The digits after the sign: an optional "0x"/"0X" prefix (in
      `AutoRadix` mode) selects radix 16, then the longest run of digits is
      read and whatever follows is ignored. `None` when no digit is found. */
  function ParseUnsigned(u: string, radix: Radix): Option<nat> {
    var hex := radix == AutoRadix && |u| >= 2 && u[0] == '0' && (u[1] == 'x' || u[1] == 'X');
    var v := if hex then u[2..] else u;
    var base := if hex then 16 else 10;
    var n := DigitRun(v, base, 0);
    if n == 0 then None else Some(DigitsValue(v[..n], base))
  }

  /** `parseInt`: skip white space, take an optional sign, then the unsigned
      part. `None` stands for `NaN`. */
  function ParseInt(s: string, radix: Radix): (r: Option<int>)
    ensures r.Some? ==> TrimStart(s) != []
    ensures r.Some? && r.value < 0 ==> TrimStart(s)[0] == '-'
  {
    var t := TrimStart(s);
    Signed(|t| > 0 && t[0] == '-', ParseUnsigned(Unsigned(t), radix))
  }

  /** The text after an optional leading sign. */
  function Unsigned(t: string): (u: string)
    ensures u == t || (t != [] && u == t[1..])
  {
    if |t| > 0 && (t[0] == '-' || t[0] == '+') then t[1..] else t
  }

  function Signed(negative: bool, m: Option<nat>): Option<int> {
    match m
    case None => None
    case Some(v) => Some(if negative then -(v as int) else v)
  }

  function DigitChar(d: nat): (c: char)
    requires d < 10
    ensures DigitValue(c) == d
  {
    "0123456789"[d]
  }

  /** The decimal digits of a natural number, without leading zeros. */
  function NatDigits(n: nat): (r: string)
    ensures |r| >= 1
    decreases n
  {
    if n < 10 then [DigitChar(n)] else NatDigits(n / 10) + [DigitChar(n % 10)]
  }

  /** How a JavaScript integer is rendered by `String(n)` or `${n}`. */
  function DecimalString(n: int): string {
    if n < 0 then "-" + NatDigits(-n) else NatDigits(n)
  }

  lemma {:induction false} NatDigitsAreDecimal(n: nat)
    ensures forall i :: 0 <= i < |NatDigits(n)| ==> IsDigitIn(NatDigits(n)[i], 10)
    ensures DigitsValue(NatDigits(n), 10) == n
    ensures NatDigits(n)[0] == '0' ==> n == 0 && |NatDigits(n)| == 1
    decreases n
  {
    if n >= 10 {
      NatDigitsAreDecimal(n / 10);
      var r := NatDigits(n);
      var p := NatDigits(n / 10);
      assert r == p + [DigitChar(n % 10)];
      assert r[..|r| - 1] == p;
      assert r[0] == p[0];
    }
  }

  /** The digit run of a string of decimal digits followed by a non-digit
      (or nothing) covers exactly those digits. */
  lemma DigitRunOfDigits(ds: string, rest: string)
    requires forall i :: 0 <= i < |ds| ==> IsDigitIn(ds[i], 10)
    requires rest == [] || !IsDigitIn(rest[0], 10)
    ensures DigitRun(ds + rest, 10, 0) == |ds|
  {
    var u := ds + rest;
    assert forall i :: 0 <= i < |ds| ==> IsDigitIn(u[i], 10);
    assert |ds| < |u| ==> !IsDigitIn(u[|ds|], 10);
  }

  /** The unsigned part of a rendered natural number reads back as that number. */
  lemma ParseUnsignedOfDigits(m: nat, rest: string, radix: Radix)
    requires rest == [] || (!IsDigitIn(rest[0], 10) && rest[0] != 'x' && rest[0] != 'X')
    ensures ParseUnsigned(NatDigits(m) + rest, radix) == Some(m)
  {
    var ds := NatDigits(m);
    NatDigitsAreDecimal(m);
    var u := ds + rest;
    assert |u| >= 2 && u[0] == '0' ==> u[1] == rest[0];
    DigitRunOfDigits(ds, rest);
    assert u[..|ds|] == ds;
  }

  /** `parseInt` reads back the integer a template literal rendered, even
      with trailing text that starts with neither a digit nor "x"/"X" (so
      "2abc" gives 2), in both radix modes. */
  lemma ParseIntOfDecimalString(n: int, rest: string, radix: Radix)
    requires rest == [] || (!IsDigitIn(rest[0], 10) && rest[0] != 'x' && rest[0] != 'X')
    ensures ParseInt(DecimalString(n) + rest, radix) == Some(n)
  {
    if n < 0 {
      var m: nat := -n;
      ParseUnsignedOfDigits(m, rest, radix);
      var u := NatDigits(m) + rest;
      DecimalStringOfNegative(n, m, rest);
      var t := "-" + u;
      assert t[1..] == u;
      ParseIntOfMinus(t, radix);
    } else {
      var m: nat := n;
      ParseUnsignedOfDigits(m, rest, radix);
      NatDigitsAreDecimal(m);
      var u := NatDigits(m) + rest;
      assert DecimalString(n) + rest == u;
      assert u[0] == NatDigits(m)[0];
      ParseIntOfUnsignedText(u, radix);
    }
  }

  /** Text that starts with a digit is read without a sign. */
  lemma ParseIntOfUnsignedText(s: string, radix: Radix)
    requires s != [] && IsDigitIn(s[0], 10)
    ensures ParseInt(s, radix) == Signed(false, ParseUnsigned(s, radix))
  {
    NoLeadingWhitespace(s);
    assert s[0] != '-' && s[0] != '+';
  }

  lemma DecimalStringOfNegative(n: int, m: nat, rest: string)
    requires n < 0 && m == -n
    ensures DecimalString(n) + rest == "-" + (NatDigits(m) + rest)
  {
  }

  /** A leading minus sign negates what follows it. */
  lemma ParseIntOfMinus(s: string, radix: Radix)
    requires s != [] && s[0] == '-'
    ensures ParseInt(s, radix) == Signed(true, ParseUnsigned(s[1..], radix))
  {
    NoLeadingWhitespace(s);
    assert Unsigned(s) == s[1..];
  }

  lemma NoLeadingWhitespace(s: string)
    requires s != [] && (s[0] == '-' || IsDigitIn(s[0], 10))
    ensures TrimStart(s) == s
  {
    assert !IsJsWhitespace(s[0]);
  }

  /** A string with no decimal digit at all (the missing query value,
      rendered as "undefined", say) parses to `NaN`. */
  lemma ParseIntWithoutDigits(s: string, radix: Radix)
    requires forall i :: 0 <= i < |s| ==> !IsDigitIn(s[i], 10)
    ensures ParseInt(s, radix) == None
  {
    var t := TrimStart(s);
    var u := Unsigned(t);
    if u != [] {
      assert u[0] == t[|t| - |u|] == s[|s| - |u|];
    }
    ParseUnsignedWithoutDigit(u, radix);
  }

  lemma ParseUnsignedWithoutDigit(u: string, radix: Radix)
    requires u == [] || !IsDigitIn(u[0], 10)
    ensures ParseUnsigned(u, radix) == None
  {
    assert !(|u| >= 2 && u[0] == '0');
  }

  /** `s` holds `p` at index `i`. */
  predicate MatchAt(s: string, p: string, i: nat) {
    i + |p| <= |s| && s[i..i + |p|] == p
  }

  /** The first index at or after `from` where `p` occurs in `s`. */
  function IndexFrom(s: string, p: string, from: nat): (r: Option<nat>)
    requires from <= |s|
    ensures r.Some? ==> from <= r.value && MatchAt(s, p, r.value)
    ensures r.Some? ==> forall i :: from <= i < r.value ==> !MatchAt(s, p, i)
    ensures r.None? ==> forall i :: from <= i ==> !MatchAt(s, p, i)
    decreases |s| - from
  {
    if from + |p| > |s| then None
    else if s[from..from + |p|] == p then Some(from)
    else IndexFrom(s, p, from + 1)
  }

  /** `s.replace(p, replacement)` for a string pattern `p` and a replacement
      without `$` patterns: the first occurrence of `p`, if any, is replaced. */
  function ReplaceFirst(s: string, p: string, replacement: string): (r: string)
    ensures (forall i: nat :: !MatchAt(s, p, i)) ==> r == s
    ensures forall i: nat :: MatchAt(s, p, i) && (forall j: nat :: j < i ==> !MatchAt(s, p, j)) ==>
      r == s[..i] + replacement + s[i + |p|..]
    ensures r == s || |r| == |s| - |p| + |replacement|
  {
    match IndexFrom(s, p, 0)
    case None => s
    case Some(i) => s[..i] + replacement + s[i + |p|..]
  }

  /** Removing a prefix with `replace(prefix, "")` gives back the rest, even
      when the rest contains the prefix again: only the first occurrence goes. */
  lemma ReplacePrefixWithEmpty(prefix: string, rest: string)
    ensures ReplaceFirst(prefix + rest, prefix, "") == rest
  {
    var s := prefix + rest;
    assert s[..|prefix|] == prefix;
    assert MatchAt(s, prefix, 0);
    assert s[|prefix|..] == rest;
  }
}
