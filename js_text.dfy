/**
 * The JavaScript string and number built-ins the core relies on:
 * String.prototype.trim / toUpperCase / includes, parseInt with no radix,
 * and the decimal rendering of an integer Number in a template literal.
 * Strings are sequences of characters; code units beyond the Basic
 * Multilingual Plane are not distinguished.
 */
module JsText {
  import opened Wrappers

  predicate IsDigit(c: char) { '0' <= c <= '9' }
  predicate IsUpper(c: char) { 'A' <= c <= 'Z' }
  predicate IsLower(c: char) { 'a' <= c <= 'z' }

  /** ECMAScript WhiteSpace and LineTerminator: what trim() and parseInt strip. */
  predicate IsJsWhiteSpace(c: char) {
    || c == '\t' || c == '\n' || c == '\U{000B}' || c == '\U{000C}' || c == '\r'
    || c == ' ' || c == '\U{00A0}' || c == '\U{1680}'
    || ('\U{2000}' <= c <= '\U{200A}')
    || c == '\U{2028}' || c == '\U{2029}' || c == '\U{202F}' || c == '\U{205F}'
    || c == '\U{3000}' || c == '\U{FEFF}'
  }

  /** The end of the run of white space that starts at offset i. */
  function SpaceRunFrom(s: string, i: nat): (j: nat)
    requires i <= |s|
    ensures i <= j <= |s|
    ensures forall k :: i <= k < j ==> IsJsWhiteSpace(s[k])
    ensures j < |s| ==> !IsJsWhiteSpace(s[j])
    decreases |s| - i
  {
    if i < |s| && IsJsWhiteSpace(s[i]) then SpaceRunFrom(s, i + 1) else i
  }

  /** The start of the run of white space that ends at offset j, looking no further left than lo. */
  function SpaceRunBefore(s: string, lo: nat, j: nat): (i: nat)
    requires lo <= j <= |s|
    ensures lo <= i <= j
    ensures forall k :: i <= k < j ==> IsJsWhiteSpace(s[k])
    ensures i > lo ==> !IsJsWhiteSpace(s[i - 1])
    decreases j
  {
    if j > lo && IsJsWhiteSpace(s[j - 1]) then SpaceRunBefore(s, lo, j - 1) else j
  }

  /** The string with its leading white space removed. */
  function TrimStart(s: string): (r: string)
    ensures |r| <= |s| && r == s[|s| - |r|..]
    ensures forall k :: 0 <= k < |s| - |r| ==> IsJsWhiteSpace(s[k])
    ensures r == [] || !IsJsWhiteSpace(r[0])
  {
    s[SpaceRunFrom(s, 0)..]
  }

  /** r is s with the characters before offset k and after k + |r| removed, all of them white space. */
  predicate TrimmedAt(s: string, r: string, k: int) {
    && 0 <= k <= |s| - |r| && s[k..k + |r|] == r
    && (forall m :: 0 <= m < k ==> IsJsWhiteSpace(s[m]))
    && (forall m :: k + |r| <= m < |s| ==> IsJsWhiteSpace(s[m]))
  }

  /** String.prototype.trim. */
  function Trim(s: string): (r: string)
    ensures r == [] || (!IsJsWhiteSpace(r[0]) && !IsJsWhiteSpace(r[|r| - 1]))
    ensures exists k :: TrimmedAt(s, r, k)
  {
    var a := SpaceRunFrom(s, 0);
    var b := SpaceRunBefore(s, a, |s|);
    assert TrimmedAt(s, s[a..b], a);
    s[a..b]
  }

  /** A string that neither starts nor ends with white space is its own trim. */
  lemma TrimOfTrimmed(s: string)
    requires s == [] || (!IsJsWhiteSpace(s[0]) && !IsJsWhiteSpace(s[|s| - 1]))
    ensures Trim(s) == s
  {
    if s != [] {
      assert SpaceRunFrom(s, 0) == 0;
      assert SpaceRunBefore(s, 0, |s|) == |s|;
    }
  }

  lemma TrimIsIdempotent(s: string)
    ensures Trim(Trim(s)) == Trim(s)
  {
    TrimOfTrimmed(Trim(s));
  }

  /** A string that consists of white space only trims to the empty string. */
  lemma TrimAllWhiteSpace(s: string)
    requires forall k :: 0 <= k < |s| ==> IsJsWhiteSpace(s[k])
    ensures Trim(s) == ""
  {
    assert SpaceRunFrom(s, 0) == |s|;
  }

  function UpperChar(c: char): char {
    if IsLower(c) then (c as int - 32) as char else c
  }

  /** String.prototype.toUpperCase on the ASCII letters. */
  function ToUpperAscii(s: string): (r: string)
    ensures |r| == |s|
    ensures forall k :: 0 <= k < |s| ==> !IsLower(r[k])
    ensures forall k :: 0 <= k < |s| && !IsLower(s[k]) ==> r[k] == s[k]
    ensures forall k :: 0 <= k < |s| && IsLower(s[k]) ==> r[k] as int == s[k] as int - 32
  {
    seq(|s|, k requires 0 <= k < |s| => UpperChar(s[k]))
  }

  lemma UpperIdempotent(s: string)
    ensures ToUpperAscii(ToUpperAscii(s)) == ToUpperAscii(s)
  {
  }

  /** needle occurs in hay at offset k. */
  predicate OccursAt(hay: string, needle: string, k: int) {
    0 <= k <= |hay| - |needle| && hay[k..k + |needle|] == needle
  }

  /** String.prototype.includes: needle occurs in hay at some offset. */
  function Includes(hay: string, needle: string): (b: bool)
    ensures b <==> exists k :: OccursAt(hay, needle, k)
    decreases |hay|
  {
    if |needle| > |hay| then false
    else if hay[..|needle|] == needle then
      assert OccursAt(hay, needle, 0);
      true
    else
      var rest := Includes(hay[1..], needle);
      assert rest ==> exists k :: OccursAt(hay, needle, k) by {
        if rest {
          var j :| OccursAt(hay[1..], needle, j);
          assert OccursAt(hay, needle, j + 1);
        }
      }
      assert (exists k :: OccursAt(hay, needle, k)) ==> rest by {
        if k :| OccursAt(hay, needle, k) {
          assert k != 0;
          assert OccursAt(hay[1..], needle, k - 1);
        }
      }
      rest
  }

  /** A one-character needle is included exactly when the character occurs. */
  lemma IncludesChar(hay: string, c: char)
    ensures Includes(hay, [c]) <==> c in hay
  {
    if c in hay {
      var k :| 0 <= k < |hay| && hay[k] == c;
      assert OccursAt(hay, [c], k);
    }
    if Includes(hay, [c]) {
      var k :| OccursAt(hay, [c], k);
      assert hay[k] == c;
    }
  }

  /** Between strings of one length, includes is equality. */
  lemma IncludesSameLength(hay: string, needle: string)
    requires |hay| == |needle|
    ensures Includes(hay, needle) <==> hay == needle
  {
    if Includes(hay, needle) {
      var k :| OccursAt(hay, needle, k);
      assert hay[k..k + |needle|] == hay;
    }
  }

  // ---------------------------------------------------------------- parseInt

  predicate IsHexLetter(c: char) { ('a' <= c <= 'f') || ('A' <= c <= 'F') }

  predicate IsRadixDigit(c: char, radix: int) {
    IsDigit(c) || (radix == 16 && IsHexLetter(c))
  }

  function DigitValue(c: char): (v: nat)
    ensures IsDigit(c) ==> v == c as int - '0' as int && v < 10
    ensures IsHexLetter(c) ==> 10 <= v < 16
  {
    if IsDigit(c) then c as int - '0' as int
    else if 'a' <= c <= 'f' then c as int - 'a' as int + 10
    else if 'A' <= c <= 'F' then c as int - 'A' as int + 10
    else 0
  }

  /** The longest prefix of s made of digits of the radix. */
  function DigitPrefix(s: string, radix: int): (r: string)
    ensures |r| <= |s| && r == s[..|r|]
    ensures forall k :: 0 <= k < |r| ==> IsRadixDigit(r[k], radix)
    ensures |r| < |s| ==> !IsRadixDigit(s[|r|], radix)
  {
    if s != [] && IsRadixDigit(s[0], radix) then [s[0]] + DigitPrefix(s[1..], radix) else []
  }

  /** The value of a digit string, most significant digit first. */
  function DigitsValue(z: string, radix: nat): nat
  {
    if z == [] then 0 else DigitsValue(z[..|z| - 1], radix) * radix + DigitValue(z[|z| - 1])
  }

  /**
   * parseInt(s) with no radix argument: skip leading white space, read an
   * optional sign, switch to base 16 after "0x"/"0X", then read the longest
   * run of digits. None stands for NaN (no digit was read). Values beyond
   * 2^53, which a Number cannot hold exactly, are not rounded here.
   * Text that starts with a decimal digit, and not with "0x", reads as its
   * longest run of decimal digits in base 10.
   */
  function ParseInt(s: string): (r: Option<int>)
    ensures s != [] && IsDigit(s[0]) && !(|s| >= 2 && s[0] == '0' && (s[1] == 'x' || s[1] == 'X'))
            ==> r == Some(DigitsValue(DigitPrefix(s, 10), 10))
  {
    var (negative, u) := SplitSign(TrimStart(s));
    var (radix, v) := SplitRadixPrefix(u);
    var z := DigitPrefix(v, radix);
    var n: int := DigitsValue(z, radix);
    var r := if z == [] then None else if negative then Some(-n) else Some(n);
    assert s != [] && IsDigit(s[0]) && !(|s| >= 2 && s[0] == '0' && (s[1] == 'x' || s[1] == 'X'))
           ==> r == Some(DigitsValue(DigitPrefix(s, 10), 10)) by {
      if s != [] && IsDigit(s[0]) && !(|s| >= 2 && s[0] == '0' && (s[1] == 'x' || s[1] == 'X')) {
        TrimStartOfNonSpace(s);
        assert SplitSign(s) == (false, s);
        assert SplitRadixPrefix(s) == (10, s);
      }
    }
    r
  }

  /** The optional leading '+' or '-': the sign and what follows it. */
  function SplitSign(t: string): (r: (bool, string))
    ensures r.1 == t || (t != [] && r.1 == t[1..] && (t[0] == '-' || t[0] == '+'))
  {
    if t != [] && t[0] == '-' then (true, t[1..])
    else if t != [] && t[0] == '+' then (false, t[1..])
    else (false, t)
  }

  /** The "0x" or "0X" prefix selects base 16; anything else is base 10. */
  function SplitRadixPrefix(u: string): (r: (int, string))
  {
    if |u| >= 2 && u[0] == '0' && (u[1] == 'x' || u[1] == 'X') then (16, u[2..]) else (10, u)
  }

  // ------------------------------------------------ Number to decimal string

  function DigitChar(d: nat): (c: char)
    requires d < 10
    ensures IsDigit(c) && DigitValue(c) == d
  {
    ('0' as int + d) as char
  }

  /** The decimal digits of n, without leading zeros. */
  function NatToDecimal(n: nat): (r: string)
    ensures |r| >= 1
    ensures forall k :: 0 <= k < |r| ==> IsDigit(r[k])
    ensures r[0] == '0' ==> n == 0
  {
    if n < 10 then [DigitChar(n)] else NatToDecimal(n / 10) + [DigitChar(n % 10)]
  }

  /** How a template literal renders an integer Number. */
  function IntToString(i: int): (r: string)
    ensures |r| >= 1
    ensures forall k :: 0 <= k < |r| ==> IsDigit(r[k]) || (k == 0 && r[k] == '-')
  {
    if i < 0 then "-" + NatToDecimal(-i) else NatToDecimal(i)
  }

  /** Reading back the digits of n gives n. */
  lemma {:induction false} DecimalRoundTrip(n: nat)
    ensures DigitsValue(NatToDecimal(n), 10) == n
  {
    if n >= 10 {
      DecimalRoundTrip(n / 10);
      var r := NatToDecimal(n);
      assert r[..|r| - 1] == NatToDecimal(n / 10);
    }
  }

  lemma {:induction false} DigitPrefixOfDigits(z: string, rest: string, radix: int)
    requires forall k :: 0 <= k < |z| ==> IsRadixDigit(z[k], radix)
    requires rest == [] || !IsRadixDigit(rest[0], radix)
    ensures DigitPrefix(z + rest, radix) == z
  {
    if z != [] {
      assert (z + rest)[1..] == z[1..] + rest;
      DigitPrefixOfDigits(z[1..], rest, radix);
    }
  }

  /**
   * parseInt reads the leading run of decimal digits and ignores the rest,
   * unless the digits are the "0" of a "0x" prefix.
   */
  lemma ParseIntReadsDigitPrefix(d: string, rest: string)
    requires d != [] && forall k :: 0 <= k < |d| ==> IsDigit(d[k])
    requires rest == [] || !IsDigit(rest[0])
    requires d == "0" ==> rest == [] || (rest[0] != 'x' && rest[0] != 'X')
    ensures ParseInt(d + rest) == Some(DigitsValue(d, 10))
  {
    var s := d + rest;
    assert IsDigit(s[0]) && !(|s| >= 2 && s[0] == '0' && (s[1] == 'x' || s[1] == 'X')) by {
      assert s[0] == d[0];
      assert |s| >= 2 ==> s[1] == if |d| >= 2 then d[1] else rest[0];
    }
    assert DigitPrefix(s, 10) == d by {
      DigitPrefixOfDigits(d, rest, 10);
    }
  }

  lemma TrimStartOfNonSpace(s: string)
    requires s != [] && !IsJsWhiteSpace(s[0])
    ensures TrimStart(s) == s
  {
  }

  /** A leading '-' negates what follows it. */
  lemma ParseIntOfNegative(t: string)
    requires |t| >= 2 && t[0] == '-' && IsDigit(t[1])
    requires !(|t| >= 3 && t[1] == '0' && (t[2] == 'x' || t[2] == 'X'))
    ensures ParseInt(t) == Some(0 - DigitsValue(DigitPrefix(t[1..], 10), 10))
  {
    var s := t[1..];
    assert SplitSign(TrimStart(t)) == (true, s) by {
      TrimStartOfNonSpace(t);
    }
    assert SplitRadixPrefix(s) == (10, s);
  }

  /** parseInt undoes the template-literal rendering of an integer. */
  lemma ParseIntOfIntToString(i: int)
    ensures ParseInt(IntToString(i)) == Some(i)
  {
    var n := if i < 0 then -i else i;
    var d := NatToDecimal(n);
    DecimalRoundTrip(n);
    assert d + [] == d;
    DigitPrefixOfDigits(d, [], 10);
    assert |d| >= 2 ==> IsDigit(d[1]);
    if i < 0 {
      assert ("-" + d)[1..] == d;
      ParseIntOfNegative("-" + d);
    }
  }

  /** The decimal text of a number reads back as that number, so "400000" reads as 400000. */
  lemma ParseIntOfDecimal(n: nat, text: string)
    requires text == NatToDecimal(n)
    ensures ParseInt(text) == Some(n)
  {
    assert IntToString(n) == NatToDecimal(n);
    ParseIntOfIntToString(n);
  }

  /** A number's decimal text followed by a non-digit, non-'x' tail reads back as the number. */
  lemma DecimalThenTextReadsBack(n: nat, rest: string)
    requires rest == [] || (!IsDigit(rest[0]) && rest[0] != 'x' && rest[0] != 'X')
    ensures ParseInt(NatToDecimal(n) + rest) == Some(n)
  {
    DecimalRoundTrip(n);
    ParseIntReadsDigitPrefix(NatToDecimal(n), rest);
  }

  /** The same, for a number's text set between a prefix and such a tail. */
  lemma DecimalBetweenReadsBack(prefix: string, n: nat, rest: string)
    requires rest == [] || (!IsDigit(rest[0]) && rest[0] != 'x' && rest[0] != 'X')
    ensures var t := prefix + NatToDecimal(n) + rest;
            |t| > |prefix| && t[..|prefix|] == prefix && ParseInt(t[|prefix|..]) == Some(n)
  {
    var d := NatToDecimal(n);
    var t := prefix + d + rest;
    assert t[|prefix|..] == d + rest;
    assert t[..|prefix|] == prefix;
    DecimalThenTextReadsBack(n, rest);
  }

  /** A string without any decimal digit parses to NaN. */
  lemma ParseIntWithoutDigits(s: string)
    requires forall k :: 0 <= k < |s| ==> !IsDigit(s[k])
    ensures ParseInt(s) == None
  {
    var t := TrimStart(s);
    assert forall k :: 0 <= k < |t| ==> !IsDigit(t[k]);
    var u := SplitSign(t).1;
    assert forall k :: 0 <= k < |u| ==> !IsDigit(u[k]);
    assert SplitRadixPrefix(u) == (10, u);
    assert DigitPrefix(u, 10) == [];
  }

  /** Leading white space does not change what parseInt reads. */
  lemma {:induction false} ParseIntSkipsWhiteSpace(w: string, s: string)
    requires forall k :: 0 <= k < |w| ==> IsJsWhiteSpace(w[k])
    ensures ParseInt(w + s) == ParseInt(s)
  {
    TrimStartSkips(w, s);
  }

  lemma {:induction false} TrimStartSkips(w: string, s: string)
    requires forall k :: 0 <= k < |w| ==> IsJsWhiteSpace(w[k])
    ensures TrimStart(w + s) == TrimStart(s)
  {
    if w != [] {
      assert (w + s)[1..] == w[1..] + s;
      TrimStartSkips(w[1..], s);
    } else {
      assert w + s == s;
    }
  }
}
