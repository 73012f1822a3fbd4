/** Character and string helpers: the small part of JavaScript string
    semantics the handlers rely on (lower-casing, whitespace, prefix and
    substring tests, decimal rendering, `Number.parseInt`). Case mapping
    is modelled for ASCII letters only. */
module Text {
  import opened Common

  predicate IsUpper(c: char) { 'A' <= c <= 'Z' }
  predicate IsLower(c: char) { 'a' <= c <= 'z' }
  predicate IsDigit(c: char) { '0' <= c <= '9' }

  /** `String.prototype.toLowerCase` restricted to ASCII letters. */
  function Lower(c: char): (r: char)
    ensures !IsUpper(r)
    ensures IsUpper(c) ==> IsLower(r)
    ensures !IsUpper(c) ==> r == c
  {
    if IsUpper(c) then (c as int + 32) as char else c
  }

  function LowerStr(s: string): (r: string)
    ensures |r| == |s|
    ensures forall i :: 0 <= i < |s| ==> r[i] == Lower(s[i])
  {
    seq(|s|, i requires 0 <= i < |s| => Lower(s[i]))
  }

  /** The characters matched by `\s` in a JavaScript regular expression:
      ASCII whitespace, line terminators and the Unicode space separators. */
  predicate IsSpace(c: char) {
    var n := c as int;
    (9 <= n <= 13) || n == 32 || n == 0xA0 || n == 0x1680 ||
    (0x2000 <= n <= 0x200A) || n == 0x2028 || n == 0x2029 ||
    n == 0x202F || n == 0x205F || n == 0x3000 || n == 0xFEFF
  }

  predicate StartsWith(s: string, prefix: string) {
    |prefix| <= |s| && s[..|prefix|] == prefix
  }

  /** `needle` occurs in `hay` as a contiguous substring. */
  predicate Contains(hay: string, needle: string)
    decreases |hay|
  {
    StartsWith(hay, needle) || (|hay| > 0 && Contains(hay[1..], needle))
  }

  /** A regular expression built from `needle` with the "i" flag, when the
      needle has no metacharacters: case-insensitive substring search. */
  predicate ContainsCI(hay: string, needle: string) {
    Contains(LowerStr(hay), LowerStr(needle))
  }

  lemma {:induction false} ContainsAt(hay: string, needle: string, i: nat)
    requires i + |needle| <= |hay| && hay[i..i + |needle|] == needle
    ensures Contains(hay, needle)
    decreases i
  {
    if i > 0 {
      assert hay[1..][i - 1..i - 1 + |needle|] == hay[i..i + |needle|];
      ContainsAt(hay[1..], needle, i - 1);
    } else {
      assert hay[..|needle|] == needle;
    }
  }

  /** Every string contains the empty string. */
  lemma ContainsEmpty(hay: string)
    ensures Contains(hay, "")
  {
    assert StartsWith(hay, "");
  }

  /** A string contains itself. */
  lemma ContainsSelf(s: string)
    ensures Contains(s, s)
  {
    ContainsAt(s, s, 0);
  }

  function Digit(d: nat): (c: char)
    requires d < 10
    ensures IsDigit(c) && c as int - '0' as int == d
  {
    ('0' as int + d) as char
  }

  predicate AllDigits(s: string) {
    forall i :: 0 <= i < |s| ==> IsDigit(s[i])
  }

  /** The decimal rendering of a non-negative integer, as a template literal
      `${n}` produces it. */
  function NatToString(n: nat): (s: string)
    ensures |s| >= 1 && AllDigits(s)
  {
    if n < 10 then [Digit(n)] else NatToString(n / 10) + [Digit(n % 10)]
  }

  /** The value of a string of decimal digits. */
  function DigitsValue(s: string): nat
    requires AllDigits(s)
  {
    if s == [] then 0
    else DigitsValue(s[..|s| - 1]) * 10 + (s[|s| - 1] as int - '0' as int)
  }

  /** Reading back the decimal rendering gives the number: `${n}` loses nothing. */
  lemma {:induction false} DigitsValueOfNatToString(n: nat)
    ensures DigitsValue(NatToString(n)) == n
  {
    if n >= 10 {
      var s := NatToString(n);
      assert s[..|s| - 1] == NatToString(n / 10);
      DigitsValueOfNatToString(n / 10);
    }
  }

  /** Distinct numbers render as distinct strings. */
  lemma NatToStringInjective(a: nat, b: nat)
    requires NatToString(a) == NatToString(b)
    ensures a == b
  {
    DigitsValueOfNatToString(a);
    DigitsValueOfNatToString(b);
  }

  /** The longest prefix of `s` made of decimal digits. */
  function LeadingDigits(s: string): (r: string)
    ensures StartsWith(s, r) && AllDigits(r)
    ensures |r| < |s| ==> !IsDigit(s[|r|])
  {
    if s != [] && IsDigit(s[0]) then [s[0]] + LeadingDigits(s[1..]) else []
  }

  function TrimStartSpaces(s: string): (r: string)
    ensures |r| <= |s|
    ensures r != [] ==> !IsSpace(r[0])
  {
    if s != [] && IsSpace(s[0]) then TrimStartSpaces(s[1..]) else s
  }

  predicate IsHexDigit(c: char) { IsDigit(c) || 'a' <= c <= 'f' || 'A' <= c <= 'F' }

  function HexDigitValue(c: char): (v: nat)
    requires IsHexDigit(c)
    ensures v < 16
    ensures IsDigit(c) ==> v == c as int - '0' as int
  {
    if IsDigit(c) then c as int - '0' as int
    else if 'a' <= c <= 'f' then c as int - 'a' as int + 10
    else c as int - 'A' as int + 10
  }

  predicate AllHexDigits(s: string) {
    forall i :: 0 <= i < |s| ==> IsHexDigit(s[i])
  }

  /** The value of a string of hexadecimal digits, either case. */
  function HexValue(s: string): nat
    requires AllHexDigits(s)
  {
    if s == [] then 0
    else HexValue(s[..|s| - 1]) * 16 + HexDigitValue(s[|s| - 1])
  }

  /** The longest prefix of `s` made of hexadecimal digits. */
  function LeadingHexDigits(s: string): (r: string)
    ensures StartsWith(s, r) && AllHexDigits(r)
    ensures |r| < |s| ==> !IsHexDigit(s[|r|])
  {
    if s != [] && IsHexDigit(s[0]) then [s[0]] + LeadingHexDigits(s[1..]) else []
  }

  /** A `0x` or `0X` prefix, which switches `Number.parseInt` without a
      radix to base 16. */
  predicate HexPrefixed(u: string) {
    |u| >= 2 && u[0] == '0' && (u[1] == 'x' || u[1] == 'X')
  }

  /** The unsigned part of `Number.parseInt`: after a hex prefix as many
      hexadecimal digits as follow, otherwise as many decimal digits as
      follow; None (NaN) when no digit follows. */
  function Magnitude(u: string): (m: Option<nat>)
    ensures HexPrefixed(u) ==> (m.Some? <==> |u| > 2 && IsHexDigit(u[2]))
    ensures !HexPrefixed(u) ==> (m.Some? <==> u != [] && IsDigit(u[0]))
  {
    if HexPrefixed(u) then
      var h := LeadingHexDigits(u[2..]);
      if h == [] then None else Some(HexValue(h))
    else
      var d := LeadingDigits(u);
      if d == [] then None else Some(DigitsValue(d))
  }

  /** `Number.parseInt(s)` with no radix: leading whitespace, an optional
      sign, then the magnitude (hexadecimal after `0x`/`0X`, decimal
      otherwise); None stands for NaN. */
  function ParseInt(s: string): (r: Option<int>)
    ensures var u := SignStripped(TrimStartSpaces(s));
      r.Some? <==> Magnitude(u).Some?
    ensures r.Some? && TrimStartSpaces(s)[0] != '-' ==> r.value >= 0
    ensures r.Some? && TrimStartSpaces(s)[0] == '-' ==> r.value <= 0
  {
    SignedParse(TrimStartSpaces(s))
  }

  /** The part of `Number.parseInt` after the whitespace: an optional sign
      and the magnitude. */
  function SignedParse(t: string): (r: Option<int>)
    ensures r.Some? <==> Magnitude(SignStripped(t)).Some?
    ensures r.Some? && t[0] != '-' ==> r.value >= 0
    ensures r.Some? && t[0] == '-' ==> r.value <= 0
  {
    var m := Magnitude(SignStripped(t));
    if m.None? then None
    else if t[0] == '-' then Some(-(m.value as int))
    else Some(m.value)
  }

  function SignStripped(t: string): string {
    if t != [] && (t[0] == '-' || t[0] == '+') then t[1..] else t
  }

  /** A plain run of digits parses to its decimal value. */
  lemma ParseIntOfDigits(s: string)
    requires AllDigits(s) && s != []
    ensures ParseInt(s) == Some(DigitsValue(s))
  {
    assert IsDigit(s[0]);
    assert TrimStartSpaces(s) == s;
    assert SignStripped(s) == s;
    assert !HexPrefixed(s) by {
      if |s| >= 2 { assert IsDigit(s[1]); }
    }
    LeadingDigitsOfDigits(s);
  }

  /** After `0x` the digits are read in base 16. */
  lemma ParseIntOfHex(h: string)
    requires AllHexDigits(h) && h != []
    ensures ParseInt("0x" + h) == Some(HexValue(h))
  {
    var s := "0x" + h;
    assert TrimStartSpaces(s) == s;
    assert SignStripped(s) == s;
    assert HexPrefixed(s) && s[2..] == h;
    LeadingHexDigitsOfHex(h);
  }

  /** Decimal digits followed by anything that does not continue them (a
      `.`, a letter, the end) are read up to the first non-digit. */
  lemma ParseIntStopsAtNonDigit(d: string, j: string)
    requires AllDigits(d) && d != [] && (j == [] || !IsDigit(j[0]))
    requires !HexPrefixed(d + j)
    ensures ParseInt(d + j) == Some(DigitsValue(d))
  {
    MagnitudeOfDigits(d, j);
    ParseIntUnsigned(d + j, DigitsValue(d));
  }

  /** A leading `-` negates what the rest reads as. */
  lemma ParseIntNegates(s: string)
    requires s == [] || (!IsSpace(s[0]) && s[0] != '-' && s[0] != '+')
    ensures ParseInt("-" + s) == if ParseInt(s).Some? then Some(-ParseInt(s).value) else None
  {
    assert TrimStartSpaces("-" + s) == "-" + s;
    assert SignStripped("-" + s) == s;
    assert ParseInt("-" + s) == SignedParse("-" + s);
    assert TrimStartSpaces(s) == s;
    assert SignStripped(s) == s;
    assert ParseInt(s) == SignedParse(s);
  }

  /** Leading whitespace is skipped. */
  lemma ParseIntSkipsSpaces(w: string, s: string)
    requires forall i :: 0 <= i < |w| ==> IsSpace(w[i])
    ensures ParseInt(w + s) == ParseInt(s)
  {
    TrimStartSpacesOfSpaces(w, s);
    assert ParseInt(w + s) == SignedParse(TrimStartSpaces(s));
  }

  /** The fraction and any trailing letters are ignored. */
  lemma ParseIntTrailing()
    ensures ParseInt("3.7") == Some(3) && ParseInt("3abc") == Some(3)
  {
    assert DigitsValue("3") == 3;
    assert "3" + ".7" == "3.7";
    ParseIntStopsAtNonDigit("3", ".7");
    assert "3" + "abc" == "3abc";
    ParseIntStopsAtNonDigit("3", "abc");
  }

  /** No digit, no number: NaN, also after a bare `0x`. */
  lemma ParseIntNaN()
    ensures ParseInt("abc") == None && ParseInt("0x") == None
  {
    ParseIntUnsigned("abc", 0);
    ParseIntUnsigned("0x", 0);
  }

  /** Whitespace and a sign before the digits. */
  lemma ParseIntSpaceExample()
    ensures ParseInt(" -3") == Some(-3)
  {
    assert ParseInt("3") == Some(3) by {
      assert DigitsValue("3") == 3;
      assert "3" + "" == "3";
      ParseIntStopsAtNonDigit("3", "");
    }
    ParseIntNegates("3");
    assert "-" + "3" == "-3";
    assert " " + "-3" == " -3";
    ParseIntSkipsSpaces(" ", "-3");
  }
  /** Without leading whitespace or sign, the result is the magnitude. */
  lemma ParseIntUnsigned(s: string, n: nat)
    requires s != [] && !IsSpace(s[0]) && s[0] != '-' && s[0] != '+'
    ensures Magnitude(s) == Some(n) ==> ParseInt(s) == Some(n)
    ensures Magnitude(s).None? ==> ParseInt(s).None?
  {
    assert TrimStartSpaces(s) == s;
    assert SignStripped(s) == s;
    assert ParseInt(s) == SignedParse(s);
  }

  lemma MagnitudeOfDigits(d: string, j: string)
    requires AllDigits(d) && d != [] && (j == [] || !IsDigit(j[0]))
    requires !HexPrefixed(d + j)
    ensures Magnitude(d + j) == Some(DigitsValue(d))
  {
    LeadingDigitsStop(d, j);
  }

  lemma {:induction false} LeadingDigitsStop(d: string, j: string)
    requires AllDigits(d) && (j == [] || !IsDigit(j[0]))
    ensures LeadingDigits(d + j) == d
  {
    if d == [] {
      assert d + j == j;
    } else {
      assert (d + j)[0] == d[0] && (d + j)[1..] == d[1..] + j;
      LeadingDigitsStop(d[1..], j);
    }
  }

  lemma {:induction false} TrimStartSpacesOfSpaces(w: string, s: string)
    requires forall i :: 0 <= i < |w| ==> IsSpace(w[i])
    ensures TrimStartSpaces(w + s) == TrimStartSpaces(s)
  {
    if w == [] {
      assert w + s == s;
    } else {
      assert (w + s)[0] == w[0] && (w + s)[1..] == w[1..] + s;
      TrimStartSpacesOfSpaces(w[1..], s);
    }
  }

  lemma {:induction false} LeadingDigitsOfDigits(s: string)
    requires AllDigits(s)
    ensures LeadingDigits(s) == s
  {
    if s != [] {
      LeadingDigitsOfDigits(s[1..]);
    }
  }

  lemma {:induction false} LeadingHexDigitsOfHex(s: string)
    requires AllHexDigits(s)
    ensures LeadingHexDigits(s) == s
  {
    if s != [] {
      LeadingHexDigitsOfHex(s[1..]);
    }
  }
}
