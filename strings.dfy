/**
  The Python string built-ins the screening tool leans on: `str.strip`,
  `str.startswith`, `str.replace`, `str(int)`, `int(str)` and `float(str)`.

  `float` is restricted to an optional sign, ASCII digits and at most one
  decimal point, and yields an exact `real`; `int` to an optional sign and
  ASCII digits. Both accept surrounding whitespace, as Python does.
 */
module Strings {

  datatype Option<+T> = None | Some(value: T)

  /** The characters Python's `str.isspace` accepts (and `str.strip` removes). */
  predicate IsSpace(c: char) {
    c == ' ' || ('\t' <= c <= '\r') || ('\U{1c}' <= c <= '\U{1f}') ||
    c == '\U{85}' || c == '\U{a0}' || c == '\U{1680}' || ('\U{2000}' <= c <= '\U{200a}') ||
    c == '\U{2028}' || c == '\U{2029}' || c == '\U{202f}' || c == '\U{205f}' || c == '\U{3000}'
  }

  /** `str.lstrip()`. */
  function TrimLeft(s: string): (r: string)
    ensures |r| <= |s|
    ensures r == [] || !IsSpace(r[0])
  {
    if s == [] || !IsSpace(s[0]) then s else TrimLeft(s[1..])
  }

  /** `lstrip` drops a prefix made of whitespace only. */
  lemma {:induction false} TrimLeftDrops(s: string)
    ensures var r := TrimLeft(s);
            r == s[|s| - |r|..] && forall i :: 0 <= i < |s| - |r| ==> IsSpace(s[i])
  {
    if s != [] && IsSpace(s[0]) {
      TrimLeftDrops(s[1..]);
    }
  }

  /** `str.rstrip()`. */
  function TrimRight(s: string): (r: string)
    ensures |r| <= |s|
    ensures r == [] || !IsSpace(r[|r| - 1])
  {
    if s == [] || !IsSpace(s[|s| - 1]) then s else TrimRight(s[..|s| - 1])
  }

  /** `rstrip` drops a suffix made of whitespace only. */
  lemma {:induction false} TrimRightDrops(s: string)
    ensures var r := TrimRight(s);
            r == s[..|r|] && forall i :: |r| <= i < |s| ==> IsSpace(s[i])
  {
    if s != [] && IsSpace(s[|s| - 1]) {
      TrimRightDrops(s[..|s| - 1]);
    }
  }

  /** Python's `s.strip()`: drop leading and trailing whitespace. */
  function Strip(s: string): (r: string)
    ensures r == [] || (!IsSpace(r[0]) && !IsSpace(r[|r| - 1]))
  {
    var l := TrimLeft(s);
    TrimRightDrops(l);
    TrimRight(l)
  }

  /** `not s.strip()`: the text is empty or whitespace only. */
  predicate IsBlank(s: string) {
    Strip(s) == []
  }

  lemma BlankIffAllSpace(s: string)
    ensures IsBlank(s) <==> forall i :: 0 <= i < |s| ==> IsSpace(s[i])
  {
    var l := TrimLeft(s);
    TrimLeftDrops(s);
    TrimRightDrops(l);
    if IsBlank(s) {
      assert TrimRight(l) == [];
      assert l == [];
    }
  }

  /** Text without whitespace at either end is left alone by `strip`. */
  lemma StripUntrimmed(s: string)
    requires s == [] || (!IsSpace(s[0]) && !IsSpace(s[|s| - 1]))
    ensures Strip(s) == s
  {
  }

  predicate StartsWith(s: string, p: string) {
    |p| <= |s| && s[..|p|] == p
  }

  /** `s.replace(a, b)` for single characters. */
  function ReplaceChar(s: string, a: char, b: char): (r: string)
    ensures |r| == |s|
    ensures forall i :: 0 <= i < |s| ==> r[i] == if s[i] == a then b else s[i]
  {
    if s == [] then [] else [if s[0] == a then b else s[0]] + ReplaceChar(s[1..], a, b)
  }

  /** An occurrence of `p` starts at index `i` of `s`. */
  predicate OccursAt(s: string, p: string, i: nat) {
    i + |p| <= |s| && s[i..i + |p|] == p
  }

  /** Python's `s.replace(old, new)`: every non-overlapping occurrence, left to right. */
  function ReplaceAll(s: string, pat: string, rep: string): string
    requires pat != []
    decreases |s|
  {
    if |s| < |pat| then s
    else if s[..|pat|] == pat then rep + ReplaceAll(s[|pat|..], pat, rep)
    else [s[0]] + ReplaceAll(s[1..], pat, rep)
  }

  /** With no occurrence of the pattern the text is returned unchanged. */
  lemma {:induction false} ReplaceAllAbsent(s: string, pat: string, rep: string)
    requires pat != []
    requires forall i: nat :: !OccursAt(s, pat, i)
    ensures ReplaceAll(s, pat, rep) == s
    decreases |s|
  {
    if |s| >= |pat| {
      assert !OccursAt(s, pat, 0);
      assert s[..|pat|] == s[0..0 + |pat|];
      forall i: nat ensures !OccursAt(s[1..], pat, i) {
        assert !OccursAt(s, pat, i + 1);
        if i + |pat| <= |s[1..]| {
          assert s[1..][i..i + |pat|] == s[i + 1..i + 1 + |pat|];
        }
      }
      ReplaceAllAbsent(s[1..], pat, rep);
    }
  }

  /** Where no occurrence starts at the front, the first character is kept. */
  lemma ReplaceAllKeep(s: string, pat: string, rep: string)
    requires pat != [] && |s| >= |pat| && !OccursAt(s, pat, 0)
    ensures ReplaceAll(s, pat, rep) == [s[0]] + ReplaceAll(s[1..], pat, rep)
  {
    assert s[..|pat|] == s[0..0 + |pat|];
  }

  /** Dropping the first character of the prefix keeps the occurrence-free prefix occurrence-free. */
  lemma ShiftFree(a: string, pat: string, b: string)
    requires a != []
    requires forall i: nat :: i < |a| ==> !OccursAt(a + pat + b, pat, i)
    ensures (a + pat + b)[1..] == a[1..] + pat + b
    ensures forall i: nat :: i < |a[1..]| ==> !OccursAt(a[1..] + pat + b, pat, i)
  {
    var s := a + pat + b;
    assert s[1..] == a[1..] + pat + b;
    forall i: nat | i < |a[1..]| ensures !OccursAt(a[1..] + pat + b, pat, i) {
      assert s[1..][i..i + |pat|] == s[i + 1..i + 1 + |pat|];
      assert !OccursAt(s, pat, i + 1);
    }
  }

  /** The replacement is made at the first occurrence, and scanning resumes after it. */
  lemma {:induction false} ReplaceAllFirst(a: string, pat: string, b: string, rep: string)
    requires pat != []
    requires forall i: nat :: i < |a| ==> !OccursAt(a + pat + b, pat, i)
    ensures ReplaceAll(a + pat + b, pat, rep) == a + rep + ReplaceAll(b, pat, rep)
    decreases |a|
  {
    var s := a + pat + b;
    if a == [] {
      assert s == pat + b && s[..|pat|] == pat && s[|pat|..] == b;
    } else {
      assert !OccursAt(s, pat, 0);
      ReplaceAllKeep(s, pat, rep);
      ShiftFree(a, pat, b);
      ReplaceAllFirst(a[1..], pat, b, rep);
      assert s[0] == a[0];
      Recons(a, rep, ReplaceAll(b, pat, rep));
    }
  }

  /** Putting the first character back in front of the rest. */
  lemma Recons(a: string, x: string, y: string)
    requires a != []
    ensures [a[0]] + (a[1..] + x + y) == a + x + y
  {
    assert a == [a[0]] + a[1..];
  }

  // ---------------------------------------------------------------- digits

  predicate IsDigit(c: char) {
    '0' <= c <= '9'
  }

  predicate AllDigits(s: string) {
    forall i :: 0 <= i < |s| ==> IsDigit(s[i])
  }

  function DigitValue(c: char): nat
    requires IsDigit(c)
  {
    (c as int - '0' as int) as nat
  }

  function Digit(d: nat): (c: char)
    requires d < 10
    ensures IsDigit(c) && DigitValue(c) == d
  {
    (d + '0' as int) as char
  }

  /** The number spelt by a string of decimal digits (most significant first). */
  function DigitsValue(s: string): nat
    requires AllDigits(s)
  {
    if s == [] then 0 else 10 * DigitsValue(s[..|s| - 1]) + DigitValue(s[|s| - 1])
  }

  function Pow10(n: nat): (r: nat)
    ensures r >= 1
  {
    if n == 0 then 1 else 10 * Pow10(n - 1)
  }

  /** `str(n)` for a natural number. */
  function NatToString(n: nat): (r: string)
    ensures r != [] && AllDigits(r)
    ensures DigitsValue(r) == n
    decreases n
  {
    if n < 10 then [Digit(n)]
    else
      var r := NatToString(n / 10) + [Digit(n % 10)];
      assert r[..|r| - 1] == NatToString(n / 10);
      r
  }

  /** `str(n)` for any integer. */
  function IntToString(n: int): (r: string)
    ensures r != [] && !IsSpace(r[0]) && !IsSpace(r[|r| - 1])
  {
    if n < 0 then "-" + NatToString(-n) else NatToString(n)
  }

  /** The sign-and-digits grammar shared by `int` and `float` (after stripping). */
  function ParseSigned(t: string, unsigned: string -> Option<real>): Option<real> {
    if |t| > 0 && (t[0] == '+' || t[0] == '-') then
      match unsigned(t[1..])
      case Some(v) => Some(if t[0] == '-' then -v else v)
      case None => None
    else unsigned(t)
  }

  function UnsignedInt(t: string): (r: Option<real>)
    ensures r.Some? <==> (t != [] && AllDigits(t))
  {
    if t != [] && AllDigits(t) then Some(DigitsValue(t) as real) else None
  }

  /** Python's `int(s)` on text (ASCII digits only); `None` where it raises `ValueError`. */
  function ParseInt(s: string): (r: Option<int>)
  {
    match ParseSigned(Strip(s), UnsignedInt)
    case Some(v) => Some(v.Floor)
    case None => None
  }

  lemma ParseIntOfIntToString(n: int)
    ensures ParseInt(IntToString(n)) == Some(n)
  {
    var t := IntToString(n);
    StripUntrimmed(t);
    if n < 0 {
      assert t[1..] == NatToString(-n);
    }
  }

  /** Index of the first `c` in `s`, or `|s|` when there is none. */
  function IndexOf(s: string, c: char): (k: nat)
    ensures k <= |s|
    ensures forall i :: 0 <= i < k ==> s[i] != c
    ensures k < |s| ==> s[k] == c
  {
    if s == [] then 0 else if s[0] == c then 0 else 1 + IndexOf(s[1..], c)
  }

  /**
    Digits with at most one decimal point and at least one digit,
    as `"7"`, `"7.2"`, `"7."` and `".2"`.
   */
  function UnsignedDecimal(t: string): Option<real> {
    var k := IndexOf(t, '.');
    var whole := t[..k];
    var frac := if k < |t| then t[k + 1..] else [];
    if AllDigits(whole) && AllDigits(frac) && |whole| + |frac| > 0 then
      Some(DecimalValue(whole, frac))
    else None
  }

  /** The value of the decimal `whole.frac`. */
  function DecimalValue(whole: string, frac: string): real
    requires AllDigits(whole) && AllDigits(frac)
  {
    DigitsValue(whole) as real + DigitsValue(frac) as real / Pow10(|frac|) as real
  }

  /** Python's `float(s)` restricted to signed decimals; `None` where it raises `ValueError`. */
  function ParseFloat(s: string): Option<real> {
    ParseSigned(Strip(s), UnsignedDecimal)
  }

  /** Text that does not start with a sign goes straight to the unsigned grammar. */
  lemma ParseSignedUnsigned(t: string, unsigned: string -> Option<real>)
    requires t != [] && IsDigit(t[0])
    ensures ParseSigned(t, unsigned) == unsigned(t)
  {
  }

  /** The first `c` lies just after a prefix free of `c`. */
  lemma {:induction false} IndexOfAfter(pre: string, c: char, rest: string)
    requires forall i :: 0 <= i < |pre| ==> pre[i] != c
    ensures IndexOf(pre + [c] + rest, c) == |pre|
  {
    if pre != [] {
      assert (pre + [c] + rest)[1..] == pre[1..] + [c] + rest;
      IndexOfAfter(pre[1..], c, rest);
    }
  }

  lemma {:induction false} IndexOfAbsent(s: string, c: char)
    requires forall i :: 0 <= i < |s| ==> s[i] != c
    ensures IndexOf(s, c) == |s|
  {
    if s != [] {
      IndexOfAbsent(s[1..], c);
    }
  }

  lemma UnsignedDecimalParts(whole: string, frac: string)
    requires whole != [] && AllDigits(whole) && AllDigits(frac)
    ensures UnsignedDecimal(whole + "." + frac) == Some(DecimalValue(whole, frac))
  {
    var t := whole + "." + frac;
    IndexOfAfter(whole, '.', frac);
    assert t[..|whole|] == whole;
    assert t[|whole| + 1..] == frac;
  }

  lemma UnsignedDecimalWhole(whole: string)
    requires whole != [] && AllDigits(whole)
    ensures UnsignedDecimal(whole) == Some(DigitsValue(whole) as real)
  {
    IndexOfAbsent(whole, '.');
    assert whole[..|whole|] == whole;
    assert DecimalValue(whole, []) == DigitsValue(whole) as real;
  }

  /** A plain decimal `whole.frac` reads back as its value. */
  lemma ParseFloatDecimal(whole: string, frac: string)
    requires whole != [] && AllDigits(whole) && AllDigits(frac)
    ensures ParseFloat(whole + "." + frac) == Some(DecimalValue(whole, frac))
  {
    var t := whole + "." + frac;
    StripUntrimmedDecimal(whole, frac);
    assert t[0] == whole[0];
    ParseSignedUnsigned(t, UnsignedDecimal);
    UnsignedDecimalParts(whole, frac);
  }

  lemma StripUntrimmedDecimal(whole: string, frac: string)
    requires whole != [] && AllDigits(whole) && AllDigits(frac)
    ensures Strip(whole + "." + frac) == whole + "." + frac
  {
    var t := whole + "." + frac;
    assert t[0] == whole[0];
    assert IsDigit(t[0]);
    assert t[|t| - 1] == '.' || IsDigit(t[|t| - 1]) by {
      if frac != [] {
        assert t[|t| - 1] == frac[|frac| - 1];
      }
    }
    StripUntrimmed(t);
  }

  /** A whole number reads back as itself. */
  lemma ParseFloatNat(n: nat)
    ensures ParseFloat(NatToString(n)) == Some(n as real)
  {
    var t := NatToString(n);
    assert IsDigit(t[0]) && IsDigit(t[|t| - 1]);
    StripUntrimmed(t);
    ParseSignedUnsigned(t, UnsignedDecimal);
    UnsignedDecimalWhole(t);
  }
}
