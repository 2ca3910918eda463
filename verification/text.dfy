/** The JavaScript string and number primitives the controllers rely on:
    `includes`, `indexOf`, `startsWith`, `split`, `parseInt`, `toLowerCase`,
    `Number.prototype.toString` on integers, `toFixed(2)` on an amount in
    paise divided by 100, and the two regular expressions `/(\d+)/` and
    `/(\w+)\sPlan/`.  Each is written out character by character, with the
    edge cases of the ECMAScript definitions kept (leading white space and
    the `0x` prefix in `parseInt`, the leftmost-match rule of regular
    expressions).
 */
module JsText {
  import opened Wrappers

  // ---------------------------------------------------------------------
  // Character classes

  /** `\w`: ASCII letters, digits and the underscore. */
  predicate IsWordChar(c: char) {
    ('a' <= c <= 'z') || ('A' <= c <= 'Z') || ('0' <= c <= '9') || c == '_'
  }

  /** `\s`: the ECMAScript WhiteSpace and LineTerminator code points, which
      are also what `parseInt` skips before the number. */
  predicate IsJsSpace(c: char) {
    var n := c as int;
    n == 9 || n == 10 || n == 11 || n == 12 || n == 13 || n == 32
    || n == 0xA0 || n == 0x1680 || (0x2000 <= n <= 0x200A)
    || n == 0x2028 || n == 0x2029 || n == 0x202F || n == 0x205F
    || n == 0x3000 || n == 0xFEFF
  }

  predicate IsDecimalDigit(c: char) {
    '0' <= c <= '9'
  }

  /** The value of `c` as a digit of radix up to 36; 36 when it is no digit. */
  function DigitVal(c: char): (d: nat)
    ensures d <= 36
    ensures IsDecimalDigit(c) <==> d < 10
  {
    if '0' <= c <= '9' then (c as int) - ('0' as int)
    else if 'a' <= c <= 'z' then (c as int) - ('a' as int) + 10
    else if 'A' <= c <= 'Z' then (c as int) - ('A' as int) + 10
    else 36
  }

  predicate IsRadixDigit(c: char, radix: nat) {
    DigitVal(c) < radix
  }

  predicate AllRadixDigits(s: string, radix: nat) {
    forall i :: 0 <= i < |s| ==> IsRadixDigit(s[i], radix)
  }

  // ---------------------------------------------------------------------
  // Searching

  predicate StartsWith(s: string, prefix: string) {
    |prefix| <= |s| && s[..|prefix|] == prefix
  }

  predicate OccursAt(s: string, pat: string, i: nat) {
    i + |pat| <= |s| && s[i..i + |pat|] == pat
  }

  /** `s.indexOf(pat, from)`: the first occurrence of `pat` at or after `from`. */
  function IndexOf(s: string, pat: string, from: nat): (r: Option<nat>)
    ensures r.Some? ==> from <= r.value && OccursAt(s, pat, r.value)
    ensures r.Some? ==> forall j :: from <= j < r.value ==> !OccursAt(s, pat, j)
    ensures r.None? ==> forall j :: from <= j ==> !OccursAt(s, pat, j)
    decreases |s| - from
  {
    if from + |pat| > |s| then None
    else if s[from..from + |pat|] == pat then Some(from)
    else IndexOf(s, pat, from + 1)
  }

  /** `s.includes(pat)`. */
  predicate Contains(s: string, pat: string) {
    IndexOf(s, pat, 0).Some?
  }

  /** `s.split(sep)[0]` for a non-empty separator: the text before the first
      occurrence of `sep`, or all of `s`. */
  function SplitHead(s: string, sep: string): (r: string)
    requires |sep| > 0
    ensures StartsWith(s, r)
    // the head stops at the first separator, or runs to the end
    ensures forall j :: 0 <= j < |r| ==> !OccursAt(s, sep, j)
    ensures r == s || OccursAt(s, sep, |r|)
  {
    match IndexOf(s, sep, 0)
    case None => s
    case Some(i) => s[..i]
  }

  // ---------------------------------------------------------------------
  // Integers as text

  function DecimalChar(d: nat): (c: char)
    requires d < 10
    ensures IsDecimalDigit(c) && DigitVal(c) == d
  {
    (('0' as int) + d) as char
  }

  /** The value of a run of digits in `radix`, most significant first. */
  function DigitsValue(ds: string, radix: nat): nat
    requires AllRadixDigits(ds, radix)
  {
    if |ds| == 0 then 0
    else DigitsValue(ds[..|ds| - 1], radix) * radix + DigitVal(ds[|ds| - 1])
  }

  /** `String(n)` for a non-negative integer below 1e21. */
  function NatToString(n: nat): (s: string)
    ensures |s| > 0 && AllRadixDigits(s, 10)
  {
    if n < 10 then [DecimalChar(n)] else NatToString(n / 10) + [DecimalChar(n % 10)]
  }

  /** `String(n)` for an integer of magnitude below 1e21. */
  function IntToString(n: int): (s: string)
    ensures |s| > 0
  {
    if n < 0 then "-" + NatToString(-n) else NatToString(n)
  }

  lemma {:induction false} NatToStringValue(n: nat)
    ensures DigitsValue(NatToString(n), 10) == n
    ensures NatToString(n)[0] == '0' ==> n == 0 && |NatToString(n)| == 1
  {
    if n >= 10 {
      var s := NatToString(n);
      var p := NatToString(n / 10);
      assert s == p + [DecimalChar(n % 10)];
      assert s[..|s| - 1] == p;
      NatToStringValue(n / 10);
      assert s[0] == p[0];
    }
  }

  /** The longest prefix of `s` made of digits of `radix`. */
  function LeadingDigits(s: string, radix: nat): (r: string)
    ensures StartsWith(s, r) && AllRadixDigits(r, radix)
    ensures |r| < |s| ==> !IsRadixDigit(s[|r|], radix)
  {
    if |s| == 0 || !IsRadixDigit(s[0], radix) then []
    else [s[0]] + LeadingDigits(s[1..], radix)
  }

  lemma {:induction false} LeadingDigitsOfDigits(s: string, radix: nat)
    requires AllRadixDigits(s, radix)
    ensures LeadingDigits(s, radix) == s
  {
    if |s| > 0 {
      LeadingDigitsOfDigits(s[1..], radix);
    }
  }

  /** A digit run followed by a non-digit (or nothing) is read up to the
      non-digit. */
  lemma {:induction false} LeadingDigitsOfPrefix(ds: string, rest: string, radix: nat)
    requires AllRadixDigits(ds, radix)
    requires |rest| > 0 ==> !IsRadixDigit(rest[0], radix)
    ensures LeadingDigits(ds + rest, radix) == ds
  {
    if |ds| > 0 {
      assert (ds + rest)[1..] == ds[1..] + rest;
      LeadingDigitsOfPrefix(ds[1..], rest, radix);
    } else {
      assert ds + rest == rest;
    }
  }

  /** The text after the leading white space `parseInt` skips. */
  function TrimStart(s: string): (r: string)
    ensures |r| <= |s| && r == s[|s| - |r|..]
    ensures |r| > 0 ==> !IsJsSpace(r[0])
    // only white space is dropped
    ensures forall i :: 0 <= i < |s| - |r| ==> IsJsSpace(s[i])
  {
    if |s| > 0 && IsJsSpace(s[0]) then TrimStart(s[1..]) else s
  }

  /** The radix argument of `parseInt`: absent (so that a `0x` prefix selects
      16) or 10. */
  datatype Radix = AutoRadix | Radix10

  /** The unsigned part of `parseInt`: an optional `0x`/`0X` prefix that
      selects radix 16 when no radix is given, then the longest run of
      digits; `None` when that run is empty. */
  function ParseMagnitude(u: string, radix: Radix): (r: Option<nat>)
  {
    var hex := radix == AutoRadix && |u| >= 2 && u[0] == '0' && (u[1] == 'x' || u[1] == 'X');
    var base := if hex then 16 else 10;
    var ds := LeadingDigits(if hex then u[2..] else u, base);
    if |ds| == 0 then None else Some(DigitsValue(ds, base))
  }

  /** `parseInt(s)` or `parseInt(s, 10)`; `None` stands for `NaN`. */
  function ParseInt(s: string, radix: Radix): (r: Option<int>)
  {
    var t := TrimStart(s);
    var signed := |t| > 0 && (t[0] == '-' || t[0] == '+');
    match ParseMagnitude(if signed then t[1..] else t, radix)
    case None => None
    case Some(v) => Some(if signed && t[0] == '-' then 0 - v else v)
  }

  /** Text that starts with a digit is read with no sign. */
  lemma ParseIntUnsigned(s: string, radix: Radix)
    requires |s| > 0 && IsDecimalDigit(s[0])
    ensures ParseInt(s, radix) == ParseMagnitude(s, radix)
  {
    assert !IsJsSpace(s[0]);
    assert TrimStart(s) == s;
  }

  /** A `-` followed by digits of magnitude `v` is read as `-v`. */
  lemma ParseIntNegative(u: string, v: nat, radix: Radix)
    requires |u| > 0 && IsDecimalDigit(u[0]) && ParseMagnitude(u, radix) == Some(v)
    ensures ParseInt("-" + u, radix) == Some(0 - v)
  {
    var s := "-" + u;
    assert s[0] == '-' && !IsJsSpace(s[0]);
    assert TrimStart(s) == s;
    assert s[1..] == u;
  }

  lemma ParseMagnitudeOfNat(m: nat, radix: Radix)
    ensures ParseMagnitude(NatToString(m), radix) == Some(m)
  {
    var digits := NatToString(m);
    NatToStringValue(m);
    LeadingDigitsOfDigits(digits, 10);
  }

  lemma ParseMagnitudeOfDigits(ds: string)
    requires |ds| > 0 && AllRadixDigits(ds, 10)
    ensures ParseMagnitude(ds, Radix10) == Some(DigitsValue(ds, 10))
  {
    LeadingDigitsOfDigits(ds, 10);
  }

  /** `parseInt(ds, 10)` of a non-empty run of decimal digits is its value. */
  lemma ParseIntOfDigits(ds: string)
    requires |ds| > 0 && AllRadixDigits(ds, 10)
    ensures ParseInt(ds, Radix10) == Some(DigitsValue(ds, 10))
  {
    assert IsRadixDigit(ds[0], 10);
    ParseIntUnsigned(ds, Radix10);
    ParseMagnitudeOfDigits(ds);
  }

  /** `parseInt` reads back what `String` wrote, with or without a radix. */
  lemma ParseIntOfNatString(m: nat, radix: Radix)
    ensures ParseInt(NatToString(m), radix) == Some(m)
  {
    var digits := NatToString(m);
    ParseMagnitudeOfNat(m, radix);
    assert IsRadixDigit(digits[0], 10);
    ParseIntUnsigned(digits, radix);
  }

  lemma ParseIntOfNegatedString(m: nat, radix: Radix)
    ensures ParseInt("-" + NatToString(m), radix) == Some(0 - m)
  {
    var digits := NatToString(m);
    ParseMagnitudeOfNat(m, radix);
    ParseIntNegative(digits, m, radix);
  }

  lemma ParseIntOfIntToString(n: int, radix: Radix)
    ensures ParseInt(IntToString(n), radix) == Some(n)
  {
    if n < 0 {
      var m: nat := -n;
      assert IntToString(n) == "-" + NatToString(m);
      ParseIntOfNegatedString(m, radix);
    } else {
      assert IntToString(n) == NatToString(n);
      ParseIntOfNatString(n, radix);
    }
  }



  // ---------------------------------------------------------------------
  // Regular expressions

  /** The match of `/(\d+)/`: the first maximal run of decimal digits. */
  function FirstDigitRun(s: string): (r: Option<string>)
    ensures r.Some? ==> |r.value| > 0 && AllRadixDigits(r.value, 10)
    ensures r.None? <==> forall i :: 0 <= i < |s| ==> !IsDecimalDigit(s[i])
    // the run starts at the first digit of `s` and is maximal
    ensures r.Some? ==> exists k :: (0 <= k < |s| && r.value == LeadingDigits(s[k..], 10)
      && forall j :: 0 <= j < k ==> !IsDecimalDigit(s[j]))
  {
    if |s| == 0 then None
    else if IsDecimalDigit(s[0]) then assert s[0..] == s; Some(LeadingDigits(s, 10))
    else FirstDigitRun(s[1..])
  }

  /** Where the run of `\w` characters starting at `i` ends. */
  function WordRunEnd(s: string, i: nat): (k: nat)
    requires i <= |s|
    ensures i <= k <= |s|
    ensures forall j :: i <= j < k ==> IsWordChar(s[j])
    ensures k < |s| ==> !IsWordChar(s[k])
    decreases |s| - i
  {
    if i < |s| && IsWordChar(s[i]) then WordRunEnd(s, i + 1) else i
  }

  /** Whether `/(\w+)\sPlan/` matches at position `i`.  A `\w+` starting at
      `i` can only be followed by `\s` where its run of word characters ends,
      so the greedy capture is the whole run. */
  predicate PlanWordAt(s: string, i: nat)
    requires i <= |s|
  {
    var k := WordRunEnd(s, i);
    i < k && k < |s| && IsJsSpace(s[k]) && OccursAt(s, "Plan", k + 1)
  }

  /** The capture group of the leftmost match of `/(\w+)\sPlan/` at or after
      position `i`. */
  function PlanWordFrom(s: string, i: nat): (r: Option<string>)
    requires i <= |s|
    ensures r.Some? ==> exists j :: (i <= j <= |s| && PlanWordAt(s, j) && r.value == s[j..WordRunEnd(s, j)]
      && forall j' :: i <= j' < j ==> !PlanWordAt(s, j'))
    ensures r.None? ==> forall j :: i <= j <= |s| ==> !PlanWordAt(s, j)
    decreases |s| - i
  {
    if PlanWordAt(s, i) then Some(s[i..WordRunEnd(s, i)])
    else if i == |s| then None
    else PlanWordFrom(s, i + 1)
  }

  /** `s.match(/(\w+)\sPlan/)?.[1]`. */
  function PlanWord(s: string): Option<string> {
    PlanWordFrom(s, 0)
  }

  /** `toLowerCase` on ASCII text (a `\w` capture is ASCII). */
  function ToLowerAscii(s: string): (r: string)
    ensures |r| == |s|
    ensures forall i :: 0 <= i < |s| && 'A' <= s[i] <= 'Z' ==> r[i] == ((s[i] as int) + 32) as char
    ensures forall i :: 0 <= i < |s| && !('A' <= s[i] <= 'Z') ==> r[i] == s[i]
  {
    seq(|s|, i requires 0 <= i < |s| => if 'A' <= s[i] <= 'Z' then ((s[i] as int) + 32) as char else s[i])
  }

  // ---------------------------------------------------------------------
  // Amounts: paise rendered as rupees with two decimals

  /** `whole.ff`: the rupees and exactly two digits of paise of `m`. */
  function UnsignedRupees(m: nat): string {
    var frac := m % 100;
    NatToString(m / 100) + "." + [DecimalChar(frac / 10), DecimalChar(frac % 10)]
  }

  /** `(n / 100).toFixed(2)` for an integer amount `n` in paise: an optional
      minus sign, the rupees, a point and exactly two digits of paise. */
  function FormatPaise(n: int): string {
    if n < 0 then "-" + UnsignedRupees(-n) else UnsignedRupees(n)
  }

  /** Reads an unsigned `whole.ff` back into paise. */
  function UnsignedPaise(body: string): (r: Option<nat>)
  {
    if |body| < 4 || body[|body| - 3] != '.' then None
    else
      var whole := body[..|body| - 3];
      var frac := body[|body| - 2..];
      if !AllRadixDigits(whole, 10) || !AllRadixDigits(frac, 10) then None
      else Some(DigitsValue(whole, 10) * 100 + DigitsValue(frac, 10))
  }

  /** Reads a rendered amount back into paise: the inverse of `FormatPaise`. */
  function ParsePaise(s: string): (r: Option<int>)
  {
    if |s| > 0 && s[0] == '-' then
      match UnsignedPaise(s[1..])
      case None => None
      case Some(v) => Some(0 - v)
    else UnsignedPaise(s)
  }

  /** Two digits read as their decimal value. */
  lemma TwoDigitsValue(hi: nat, lo: nat)
    requires hi < 10 && lo < 10
    ensures AllRadixDigits([DecimalChar(hi), DecimalChar(lo)], 10)
    ensures DigitsValue([DecimalChar(hi), DecimalChar(lo)], 10) == hi * 10 + lo
  {
    var f := [DecimalChar(hi), DecimalChar(lo)];
    assert f[..1] == [DecimalChar(hi)];
    assert f[..1][..0] == [];
    assert DigitsValue(f[..1], 10) == hi;
    assert f[..|f| - 1] == f[..1] && f[|f| - 1] == DecimalChar(lo);
  }

  /** The point of `whole.ff` is third from the end, between the parts. */
  lemma PointSplit(whole: string, f: string)
    requires |f| == 2
    ensures var body := whole + "." + f;
      |body| == |whole| + 3 && body[|body| - 3] == '.'
      && body[..|body| - 3] == whole && body[|body| - 2..] == f
  {
    var body := whole + "." + f;
    assert body[..|body| - 3] == whole;
    assert body[|body| - 2..] == f;
  }

  /** `whole.ff` reads back as `whole * 100 + ff`. */
  lemma UnsignedPaiseOf(whole: string, f: string)
    requires |whole| > 0 && AllRadixDigits(whole, 10)
    requires |f| == 2 && AllRadixDigits(f, 10)
    ensures UnsignedPaise(whole + "." + f) == Some(DigitsValue(whole, 10) * 100 + DigitsValue(f, 10))
  {
    PointSplit(whole, f);
  }

  /** The unsigned rendering starts with a digit and reads back to `m`. */
  lemma UnsignedRupeesRoundTrip(m: nat)
    ensures IsDecimalDigit(UnsignedRupees(m)[0])
    ensures UnsignedPaise(UnsignedRupees(m)) == Some(m)
  {
    var frac := m % 100;
    var whole := NatToString(m / 100);
    var f := [DecimalChar(frac / 10), DecimalChar(frac % 10)];
    NatToStringValue(m / 100);
    TwoDigitsValue(frac / 10, frac % 10);
    UnsignedPaiseOf(whole, f);
    assert IsRadixDigit(whole[0], 10);
    assert UnsignedRupees(m)[0] == whole[0];
    assert (m / 100) * 100 + (frac / 10) * 10 + frac % 10 == m;
  }

  /** A leading minus sign negates what the rest reads as. */
  lemma ParsePaiseNegated(body: string, v: nat)
    requires UnsignedPaise(body) == Some(v)
    ensures ParsePaise("-" + body) == Some(0 - v)
  {
    assert ("-" + body)[1..] == body;
  }

  lemma FormatPaiseRoundTrip(n: int)
    ensures ParsePaise(FormatPaise(n)) == Some(n)
  {
    if n < 0 {
      UnsignedRupeesRoundTrip(-n);
      ParsePaiseNegated(UnsignedRupees(-n), -n);
    } else {
      UnsignedRupeesRoundTrip(n);
    }
  }



}
