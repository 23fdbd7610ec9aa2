/**
 * The handful of JavaScript string and number built-ins that the admin
 * application's rules lean on: `trim`, the regular-expression class `\s`,
 * `toLowerCase`, `startsWith`, `includes`, `split(c)[0]`, `split(c).pop()`,
 * `parseInt` (no radix) and the decimal rendering of an integer.
 * Strings are sequences of Unicode scalar values.
 */
module JsText {

  datatype Option<+T> = None | Some(value: T)

  /** JavaScript WhiteSpace and LineTerminator code points: what `trim` removes and `\s` matches. */
  const WhiteSpace: set<char> := {
    ' ', '\t', '\n', '\r', '\U{B}', '\U{C}', '\U{A0}', '\U{1680}',
    '\U{2000}', '\U{2001}', '\U{2002}', '\U{2003}', '\U{2004}', '\U{2005}',
    '\U{2006}', '\U{2007}', '\U{2008}', '\U{2009}', '\U{200A}',
    '\U{2028}', '\U{2029}', '\U{202F}', '\U{205F}', '\U{3000}', '\U{FEFF}'
  }

  predicate IsSpace(c: char) {
    c in WhiteSpace
  }

  predicate AllSpace(s: string) {
    forall i :: 0 <= i < |s| ==> IsSpace(s[i])
  }

  /** The number of white-space characters at the start of s. */
  function LeadingSpaces(s: string): (n: nat)
    ensures n <= |s|
  {
    if s != [] && IsSpace(s[0]) then 1 + LeadingSpaces(s[1..]) else 0
  }

  lemma {:induction false} LeadingSpacesShape(s: string)
    ensures forall i :: 0 <= i < LeadingSpaces(s) ==> IsSpace(s[i])
    ensures LeadingSpaces(s) < |s| ==> !IsSpace(s[LeadingSpaces(s)])
  {
    if s != [] && IsSpace(s[0]) {
      LeadingSpacesShape(s[1..]);
      assert forall i :: 1 <= i < |s| ==> s[i] == s[1..][i - 1];
    }
  }

  /** The number of white-space characters at the end of s. */
  function TrailingSpaces(s: string): (n: nat)
    ensures n <= |s|
  {
    if s != [] && IsSpace(s[|s| - 1]) then 1 + TrailingSpaces(s[..|s| - 1]) else 0
  }

  lemma {:induction false} TrailingSpacesShape(s: string)
    ensures forall i :: |s| - TrailingSpaces(s) <= i < |s| ==> IsSpace(s[i])
    ensures TrailingSpaces(s) < |s| ==> !IsSpace(s[|s| - TrailingSpaces(s) - 1])
  {
    if s != [] && IsSpace(s[|s| - 1]) {
      TrailingSpacesShape(s[..|s| - 1]);
      assert forall i :: 0 <= i < |s| - 1 ==> s[i] == s[..|s| - 1][i];
    }
  }

  /** Leading white space removed. */
  function TrimStart(s: string): (r: string)
    ensures |r| <= |s| && r == s[|s| - |r|..]
  {
    s[LeadingSpaces(s)..]
  }

  /** Trailing white space removed. */
  function TrimEnd(s: string): (r: string)
    ensures |r| <= |s| && r == s[..|r|]
  {
    s[..|s| - TrailingSpaces(s)]
  }

  /** What `TrimStart` removed is white space, and what it kept does not start with any. */
  lemma TrimStartShape(s: string)
    ensures var r := TrimStart(s);
      && (r == [] || !IsSpace(r[0]))
      && forall i :: 0 <= i < |s| - |r| ==> IsSpace(s[i])
  {
    LeadingSpacesShape(s);
  }

  /** What `TrimEnd` removed is white space, and what it kept does not end with any. */
  lemma TrimEndShape(s: string)
    ensures var r := TrimEnd(s);
      && (r == [] || !IsSpace(r[|r| - 1]))
      && forall i :: |r| <= i < |s| ==> IsSpace(s[i])
  {
    TrailingSpacesShape(s);
  }

  /** `String.prototype.trim`. */
  function Trim(s: string): (r: string)
  {
    TrimEnd(TrimStart(s))
  }

  /** `Boolean(s.trim())`: a string is blank exactly when every character is white space. */
  lemma TrimEmptyIffAllSpace(s: string)
    ensures Trim(s) == [] <==> AllSpace(s)
  {
    var t := TrimStart(s);
    TrimStartShape(s);
    TrimEndShape(t);
    if t == [] {
      assert Trim(s) == [];
      assert AllSpace(s);
    } else {
      assert t[0] == s[|s| - |t|];
      assert !AllSpace(s);
      assert !IsSpace(t[0]);
      assert TrimEnd(t) != [];
    }
  }

  /** p occurs in s starting at index k. */
  predicate OccursAt(s: string, p: string, k: int) {
    0 <= k <= |s| - |p| && s[k..k + |p|] == p
  }

  lemma SliceOfSuffix(s: string, k: int, n: int)
    requires 0 <= k <= |s| && 0 <= n <= |s| - k
    ensures s[k..k + n] == s[k..][..n]
  {
    var x, y := s[k..k + n], s[k..][..n];
    forall j | 0 <= j < n ensures x[j] == y[j] {
      assert x[j] == s[k + j] && y[j] == s[k..][j];
    }
    assert x == y;
  }

  /** A trimmed string neither starts nor ends with white space. */
  lemma TrimShape(s: string)
    ensures var r := Trim(s);
      r == [] || (!IsSpace(r[0]) && !IsSpace(r[|r| - 1]))
  {
    var t := TrimStart(s);
    var r := TrimEnd(t);
    TrimStartShape(s);
    TrimEndShape(t);
    if r != [] {
      assert r[0] == t[0];
    }
  }

  /** A trimmed string is the contiguous part of the input after its leading white space. */
  lemma TrimIsPart(s: string)
    ensures OccursAt(s, Trim(s), |s| - |TrimStart(s)|)
  {
    var t := TrimStart(s);
    var r := TrimEnd(t);
    var k := |s| - |t|;
    assert t == s[k..] && r == t[..|r|];
    SliceOfSuffix(s, k, |r|);
  }

  /** `s.replace(/\s+/g, '')`: every white-space character removed. */
  function StripSpaces(s: string): (r: string)
    ensures forall i :: 0 <= i < |r| ==> !IsSpace(r[i])
    ensures |r| <= |s|
    ensures (forall i :: 0 <= i < |s| ==> !IsSpace(s[i])) ==> r == s
  {
    if s == [] then []
    else if IsSpace(s[0]) then StripSpaces(s[1..])
    else [s[0]] + StripSpaces(s[1..])
  }

  /**
   * `toLowerCase` on the letters this system stores: Latin A-Z, the Russian
   * Cyrillic block (including Ё and the other U+0400..U+040F capitals) and the
   * three Kyrgyz letters Ң, Ү, Ө. Every other character is left as it is.
   */
  function LowerChar(c: char): char
  {
    if 'A' <= c <= 'Z' then (c as int + 32) as char
    else if '\U{410}' <= c <= '\U{42F}' then (c as int + 32) as char
    else if '\U{400}' <= c <= '\U{40F}' then (c as int + 80) as char
    else if c == '\U{4A2}' || c == '\U{4AE}' || c == '\U{4E8}' then (c as int + 1) as char
    else c
  }

  function Lower(s: string): (r: string)
    ensures |r| == |s| && forall i :: 0 <= i < |s| ==> r[i] == LowerChar(s[i])
  {
    seq(|s|, i requires 0 <= i < |s| => LowerChar(s[i]))
  }

  /** Lower-casing twice changes nothing more than lower-casing once. */
  lemma LowerIdempotent(s: string)
    ensures Lower(Lower(s)) == Lower(s)
  {
  }

  predicate StartsWith(s: string, prefix: string) {
    |prefix| <= |s| && s[..|prefix|] == prefix
  }

  lemma OccursAtTail(s: string, p: string, k: int)
    requires s != [] && 1 <= k
    ensures OccursAt(s, p, k) == OccursAt(s[1..], p, k - 1)
  {
    if k <= |s| - |p| {
      var x, y := s[k..k + |p|], s[1..][k - 1..k - 1 + |p|];
      forall j | 0 <= j < |p| ensures x[j] == y[j] {
        assert x[j] == s[k + j] && y[j] == s[1..][k - 1 + j];
      }
      assert x == y;
    }
  }

  /** `s.includes(p)`: p occurs somewhere in s as a contiguous block. */
  function Includes(s: string, p: string): (b: bool)
    ensures b <==> exists k :: OccursAt(s, p, k)
  {
    if StartsWith(s, p) then
      assert s[0..|p|] == s[..|p|];
      assert OccursAt(s, p, 0);
      true
    else if s == [] then
      false
    else
      var b := Includes(s[1..], p);
      if b then
        var k :| OccursAt(s[1..], p, k);
        assert s[k + 1..k + 1 + |p|] == s[1..][k..k + |p|];
        assert OccursAt(s, p, k + 1);
        true
      else
        assert forall k :: 1 <= k ==> OccursAt(s, p, k) == OccursAt(s[1..], p, k - 1) by {
          forall k | 1 <= k ensures OccursAt(s, p, k) == OccursAt(s[1..], p, k - 1) {
            OccursAtTail(s, p, k);
          }
        }
        assert !OccursAt(s, p, 0);
        false
  }

  /** `s.split(c)[0]`: the text before the first c, or all of s. */
  function BeforeFirst(s: string, c: char): (r: string)
    ensures |r| <= |s| && r == s[..|r|] && c !in r
    ensures |r| < |s| ==> s[|r|] == c
  {
    if s == [] || s[0] == c then [] else [s[0]] + BeforeFirst(s[1..], c)
  }

  /** `s.split(c).pop()`: the text after the last c, or all of s. */
  function AfterLast(s: string, c: char): (r: string)
    ensures |r| <= |s| && r == s[|s| - |r|..] && c !in r
    ensures |r| < |s| ==> s[|s| - |r| - 1] == c
  {
    if s == [] || s[|s| - 1] == c then [] else AfterLast(s[..|s| - 1], c) + [s[|s| - 1]]
  }

  lemma {:induction false} BeforeFirstOf(a: string, c: char, b: string)
    requires c !in a
    ensures BeforeFirst(a + [c] + b, c) == a
  {
    if a != [] {
      assert (a + [c] + b)[1..] == a[1..] + [c] + b;
      BeforeFirstOf(a[1..], c, b);
    }
  }

  lemma {:induction false} AfterLastOf(a: string, c: char, b: string)
    requires c !in b
    ensures AfterLast(a + [c] + b, c) == b
  {
    var s := a + [c] + b;
    if b != [] {
      assert s[..|s| - 1] == a + [c] + b[..|b| - 1];
      AfterLastOf(a, c, b[..|b| - 1]);
      assert b == b[..|b| - 1] + [b[|b| - 1]];
    } else {
      assert s[|s| - 1] == c;
    }
  }

  // ---------------------------------------------------------------------------
  // Decimal and hexadecimal digits

  predicate IsDigit(c: char) { '0' <= c <= '9' }

  predicate IsHexDigit(c: char) { IsDigit(c) || 'a' <= c <= 'f' || 'A' <= c <= 'F' }

  predicate AllDigits(s: string) { forall i :: 0 <= i < |s| ==> IsDigit(s[i]) }

  function DigitChar(d: nat): (c: char)
    requires d < 10
    ensures IsDigit(c)
  {
    ('0' as int + d) as char
  }

  function HexDigitValue(c: char): (v: nat)
    requires IsHexDigit(c)
    ensures v < 16
  {
    if IsDigit(c) then c as int - '0' as int
    else if 'a' <= c <= 'f' then c as int - 'a' as int + 10
    else c as int - 'A' as int + 10
  }

  /** The value of a string of decimal digits, most significant first. */
  function DigitsValue(s: string): nat
    requires AllDigits(s)
  {
    if s == [] then 0 else 10 * DigitsValue(s[..|s| - 1]) + HexDigitValue(s[|s| - 1])
  }

  function HexValue(s: string): nat
    requires forall i :: 0 <= i < |s| ==> IsHexDigit(s[i])
  {
    if s == [] then 0 else 16 * HexValue(s[..|s| - 1]) + HexDigitValue(s[|s| - 1])
  }

  /** The longest prefix made of decimal digits. */
  function DigitPrefix(s: string): (r: string)
    ensures AllDigits(r) && |r| <= |s| && r == s[..|r|]
    ensures |r| < |s| ==> !IsDigit(s[|r|])
  {
    if s != [] && IsDigit(s[0]) then [s[0]] + DigitPrefix(s[1..]) else []
  }

  /** The longest prefix made of hexadecimal digits. */
  function HexPrefix(s: string): (r: string)
    ensures (forall i :: 0 <= i < |r| ==> IsHexDigit(r[i])) && |r| <= |s| && r == s[..|r|]
  {
    if s != [] && IsHexDigit(s[0]) then [s[0]] + HexPrefix(s[1..]) else []
  }

  /** `String(n)` for a natural number. */
  function NatToDecimal(n: nat): (r: string)
    ensures |r| >= 1 && AllDigits(r)
  {
    if n < 10 then [DigitChar(n)] else NatToDecimal(n / 10) + [DigitChar(n % 10)]
  }

  /** `String(i)` for an integer. */
  function IntToDecimal(i: int): string
  {
    if i < 0 then "-" + NatToDecimal(-i) else NatToDecimal(i)
  }

  /**
   * `parseInt(s)` without a radix: leading white space skipped, an optional
   * sign, then a "0x"/"0X" hexadecimal literal or the longest run of decimal
   * digits; the rest of the string is ignored. None stands for NaN.
   */
  function JsParseInt(s: string): Option<int>
  {
    var t := TrimStart(s);
    var negative := t != [] && t[0] == '-';
    match Magnitude(Unsigned(s))
    case None => None
    case Some(v) => var w: int := v; Some(if negative then -w else w)
  }

  /** The text `parseInt` reads a magnitude from: leading white space and one sign removed. */
  function Unsigned(s: string): string
  {
    var t := TrimStart(s);
    if t != [] && (t[0] == '-' || t[0] == '+') then t[1..] else t
  }

  /**
   * The texts `parseInt` reads as NaN: after the white space and sign nothing
   * is left, or no decimal digit follows, or "0x"/"0X" follows without a
   * hexadecimal digit after it.
   */
  predicate NotANumber(s: string) {
    var u := Unsigned(s);
    || u == []
    || !IsDigit(u[0])
    || (|u| >= 2 && u[0] == '0' && (u[1] == 'x' || u[1] == 'X') && (|u| == 2 || !IsHexDigit(u[2])))
  }

  /** `parseInt` gives NaN exactly on the texts `NotANumber` describes. */
  lemma ParseIntNaNIff(s: string)
    ensures JsParseInt(s).None? <==> NotANumber(s)
  {
    var u := Unsigned(s);
    if |u| >= 2 && u[0] == '0' && (u[1] == 'x' || u[1] == 'X') {
      assert HexPrefix(u[2..]) == [] <==> (|u| == 2 || !IsHexDigit(u[2]));
    } else if u != [] && IsDigit(u[0]) {
      assert DigitPrefix(u) != [];
    }
  }

  /** The unsigned part of `parseInt`: a "0x"/"0X" literal or a run of decimal digits. */
  function Magnitude(u: string): Option<nat>
  {
    if |u| >= 2 && u[0] == '0' && (u[1] == 'x' || u[1] == 'X') then
      var h := HexPrefix(u[2..]);
      if h == [] then None else Some(HexValue(h))
    else
      var d := DigitPrefix(u);
      if d == [] then None else Some(DigitsValue(d))
  }

  lemma {:induction false} DigitsValueOfDecimal(n: nat)
    ensures DigitsValue(NatToDecimal(n)) == n
  {
    if n >= 10 {
      var s := NatToDecimal(n);
      assert s[..|s| - 1] == NatToDecimal(n / 10);
      DigitsValueOfDecimal(n / 10);
    }
  }

  lemma {:induction false} DigitPrefixOfDigits(s: string)
    requires AllDigits(s)
    ensures DigitPrefix(s) == s
  {
    if s != [] {
      DigitPrefixOfDigits(s[1..]);
    }
  }

  lemma MagnitudeOfDigits(d: string)
    requires AllDigits(d) && d != []
    ensures Magnitude(d) == Some(DigitsValue(d))
  {
    DigitPrefixOfDigits(d);
    assert |d| >= 2 ==> IsDigit(d[1]);
  }

  lemma TrimStartUnchanged(s: string)
    requires s != [] && !IsSpace(s[0])
    ensures TrimStart(s) == s
  {
    assert LeadingSpaces(s) == 0;
    assert s[0..] == s;
  }

  /** An unsigned literal that starts with neither a sign nor white space reads as its magnitude. */
  lemma ParseIntOfMagnitude(d: string, v: nat)
    requires d != [] && d[0] != '-' && d[0] != '+' && !IsSpace(d[0])
    requires Magnitude(d) == Some(v)
    ensures JsParseInt(d) == Some(v)
  {
    TrimStartUnchanged(d);
  }

  lemma ParseIntOfNegated(d: string, v: nat)
    requires Magnitude(d) == Some(v)
    ensures JsParseInt("-" + d) == Some(-(v as int))
  {
    var n := "-" + d;
    assert n[0] == '-' && !IsSpace(n[0]);
    TrimStartUnchanged(n);
    assert n[1..] == d;
  }

  /** `parseInt(String(i)) === i`: rendering an integer and reading it back is the identity. */
  lemma ParseIntOfDecimal(i: int)
    ensures JsParseInt(IntToDecimal(i)) == Some(i)
  {
    var m: nat := if i < 0 then -i else i;
    var d := NatToDecimal(m);
    DigitsValueOfDecimal(m);
    MagnitudeOfDigits(d);
    if i < 0 {
      ParseIntOfNegated(d, m);
    } else {
      assert IsDigit(d[0]);
      ParseIntOfMagnitude(d, m);
    }
  }

  /** Reading the text before the first '-' of "<n>-<rest>" gives back n. */
  lemma ParseIntBeforeDash(n: nat, rest: string)
    ensures JsParseInt(BeforeFirst(NatToDecimal(n) + "-" + rest, '-')) == Some(n)
  {
    var d := NatToDecimal(n);
    assert '-' !in d;
    BeforeFirstOf(d, '-', rest);
    ParseIntOfDecimal(n);
  }
}
