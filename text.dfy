/**
 * Character and string helpers shared by the .NET and JavaScript parts of the model:
 * ASCII case folding, ordinal substring search, the two platforms' whitespace sets,
 * trimming, and the decimal text of an integer together with `int.TryParse`.
 */
module Text {
  import opened Wrappers

  /** The range of a C# `int`. */
  const Int32Min: int := -0x8000_0000
  const Int32Max: int := 0x7FFF_FFFF
  type Int32 = x: int | Int32Min <= x <= Int32Max

  // ---------------------------------------------------------------- case folding

  /** `char.ToLower`, `ToLowerInvariant` and JavaScript `toLowerCase`, restricted to ASCII letters. */
  function LowerChar(c: char): char {
    if 'A' <= c <= 'Z' then (c as int + 32) as char else c
  }

  /** The string with every ASCII capital replaced by its small letter. */
  function Lower(s: string): (r: string)
    ensures |r| == |s| && forall i :: 0 <= i < |s| ==> r[i] == LowerChar(s[i])
    ensures forall i :: 0 <= i < |r| ==> !('A' <= r[i] <= 'Z')
  {
    seq(|s|, i requires 0 <= i < |s| => LowerChar(s[i]))
  }

  lemma LowerCharIdempotent(c: char)
    ensures LowerChar(LowerChar(c)) == LowerChar(c)
  {
  }

  /** Lowering twice is lowering once. */
  lemma LowerIdempotent(s: string)
    ensures Lower(Lower(s)) == Lower(s)
  {
    forall i | 0 <= i < |s| ensures Lower(Lower(s))[i] == Lower(s)[i] {
      LowerCharIdempotent(s[i]);
    }
  }

  /** A string without capitals is its own lower-case form. */
  lemma LowerNoCapitals(s: string)
    requires forall i :: 0 <= i < |s| ==> !('A' <= s[i] <= 'Z')
    ensures Lower(s) == s
  {
  }

  /** Lowering distributes over concatenation. */
  lemma LowerAppend(a: string, b: string)
    ensures Lower(a + b) == Lower(a) + Lower(b)
  {
  }

  // ---------------------------------------------------------------- substring search

  /** `sub` occurs in `s` starting at index `i`. */
  predicate OccursAt(s: string, sub: string, i: int) {
    0 <= i <= |s| - |sub| && s[i..i + |sub|] == sub
  }

  /** Ordinal `string.Contains` / JavaScript `indexOf(sub) !== -1`. */
  predicate Contains(s: string, sub: string) {
    exists i :: 0 <= i <= |s| && OccursAt(s, sub, i)
  }

  /** Every string contains the empty string. */
  lemma ContainsEmpty(s: string)
    ensures Contains(s, "")
  {
    assert OccursAt(s, "", 0);
  }

  /** A string contains itself. */
  lemma ContainsSelf(s: string)
    ensures Contains(s, s)
  {
    assert OccursAt(s, s, 0);
  }

  /** Containment survives lowering both sides. */
  lemma ContainsLower(s: string, sub: string)
    requires Contains(s, sub)
    ensures Contains(Lower(s), Lower(sub))
  {
    var i :| 0 <= i <= |s| && OccursAt(s, sub, i);
    assert s[i..i + |sub|] == sub;
    assert Lower(s)[i..i + |sub|] == Lower(sub);
    assert OccursAt(Lower(s), Lower(sub), i);
  }

  // ---------------------------------------------------------------- whitespace

  /** .NET `char.IsWhiteSpace`: the Unicode space separators, line and paragraph separators, U+0009..U+000D, U+0085 and U+00A0. */
  predicate IsWhiteSpace(c: char) {
    || c == ' ' || '\t' <= c <= '\r' || c == '\U{85}' || c == '\U{A0}' || c == '\U{1680}'
    || '\U{2000}' <= c <= '\U{200A}' || c == '\U{2028}' || c == '\U{2029}' || c == '\U{202F}'
    || c == '\U{205F}' || c == '\U{3000}'
  }

  /** .NET `string.IsNullOrWhiteSpace`: null, empty, or whitespace only. */
  predicate IsNullOrWhiteSpace(s: Option<string>) {
    s.None? || forall i :: 0 <= i < |s.value| ==> IsWhiteSpace(s.value[i])
  }

  /** The whitespace and line terminators that JavaScript `String.prototype.trim` removes (U+0085 is not among them, U+FEFF is). */
  predicate IsJsWhiteSpace(c: char) {
    || c == ' ' || '\t' <= c <= '\r' || c == '\U{A0}' || c == '\U{1680}'
    || '\U{2000}' <= c <= '\U{200A}' || c == '\U{2028}' || c == '\U{2029}' || c == '\U{202F}'
    || c == '\U{205F}' || c == '\U{3000}' || c == '\U{FEFF}'
  }

  /** The whitespace `int.TryParse` skips under `NumberStyles.Integer`: U+0009..U+000D and U+0020. */
  predicate IsNumberWhiteSpace(c: char) {
    c == ' ' || '\t' <= c <= '\r'
  }

  function TrimStart(s: string, white: char -> bool): (r: string)
    ensures |r| <= |s| && r == s[|s| - |r|..]
    ensures r != [] ==> !white(r[0])
    ensures forall i :: 0 <= i < |s| - |r| ==> white(s[i])
  {
    if s != [] && white(s[0]) then
      var r := TrimStart(s[1..], white);
      assert s[|s| - |r|..] == s[1..][|s| - 1 - |r|..];
      r
    else s
  }

  function TrimEnd(s: string, white: char -> bool): (r: string)
    ensures |r| <= |s| && r == s[..|r|]
    ensures r != [] ==> !white(r[|r| - 1])
    ensures forall i :: |r| <= i < |s| ==> white(s[i])
  {
    if s != [] && white(s[|s| - 1]) then TrimEnd(s[..|s| - 1], white) else s
  }

  /**
   * `Trim`: drop the leading and trailing characters that satisfy `white`. What is left
   * neither starts nor ends with whitespace, and nothing is left exactly when every
   * character is whitespace.
   */
  function Trim(s: string, white: char -> bool): (r: string)
    ensures |r| <= |s|
    ensures r != [] ==> !white(r[0]) && !white(r[|r| - 1])
    ensures r == [] <==> forall i :: 0 <= i < |s| ==> white(s[i])
  {
    var t := TrimStart(s, white);
    var r := TrimEnd(t, white);
    assert r != [] ==> r[0] == t[0];
    r
  }

  /** Each character of a trim is the character of the input after the leading whitespace. */
  lemma TrimCharAt(s: string, white: char -> bool, j: nat)
    requires j < |Trim(s, white)|
    ensures |s| - |TrimStart(s, white)| + j < |s|
    ensures Trim(s, white)[j] == s[|s| - |TrimStart(s, white)| + j]
  {
  }

  /** A digit in the trim is a digit of the input. */
  lemma TrimKeepsDigit(s: string, white: char -> bool, j: nat)
    requires j < |Trim(s, white)| && IsDigit(Trim(s, white)[j])
    ensures exists i :: 0 <= i < |s| && IsDigit(s[i])
  {
    TrimCharAt(s, white, j);
  }

  /** A string whose first and last characters are not whitespace is its own trim. */
  lemma TrimUnchanged(s: string, white: char -> bool)
    requires s != [] && !white(s[0]) && !white(s[|s| - 1])
    ensures Trim(s, white) == s
  {
  }

  /** .NET defines `IsNullOrWhiteSpace(s)` as `s == null || s.Trim().Length == 0`; the two agree. */
  lemma NullOrWhiteSpaceIsTrimEmpty(s: string)
    ensures IsNullOrWhiteSpace(Some(s)) <==> Trim(s, IsWhiteSpace) == ""
  {
  }

  // ---------------------------------------------------------------- decimal text of integers

  predicate IsDigit(c: char) {
    '0' <= c <= '9'
  }

  predicate AllDigits(s: string) {
    forall i :: 0 <= i < |s| ==> IsDigit(s[i])
  }

  function DigitChar(d: nat): char
    requires d < 10
  {
    ('0' as int + d) as char
  }

  function DigitValue(c: char): nat
    requires IsDigit(c)
  {
    c as int - '0' as int
  }

  /** The decimal digits of `n`, most significant first, without leading zeros. */
  function NatToString(n: nat): (r: string)
    ensures r != [] && AllDigits(r)
  {
    if n < 10 then [DigitChar(n)] else NatToString(n / 10) + [DigitChar(n % 10)]
  }

  /** `Int32.ToString()` / JavaScript `String(n)` for an integer: a minus sign for negatives, then the digits. */
  function IntToString(n: int): string {
    if n < 0 then "-" + NatToString(-n) else NatToString(n)
  }

  /** The number a string of decimal digits denotes. */
  function DigitsValue(s: string): nat
    requires AllDigits(s)
  {
    if s == [] then 0 else DigitsValue(s[..|s| - 1]) * 10 + DigitValue(s[|s| - 1])
  }

  lemma {:induction false} DigitsValueOfNatToString(n: nat)
    ensures DigitsValue(NatToString(n)) == n
  {
    var s := NatToString(n);
    if n >= 10 {
      DigitsValueOfNatToString(n / 10);
      assert s[..|s| - 1] == NatToString(n / 10);
    }
  }

  /**
   * `int.TryParse(s, out result)` with the default `NumberStyles.Integer`: optional
   * surrounding whitespace, an optional leading `+` or `-`, then one or more decimal
   * digits whose value fits in an `int`. A null string or anything else fails.
   */
  function TryParseInt32(s: Option<string>): (r: Option<Int32>)
    ensures s.None? ==> r.None?
    ensures r.Some? ==> exists i :: 0 <= i < |s.value| && IsDigit(s.value[i])
  {
    if s.None? then None
    else
      var t := Trim(s.value, IsNumberWhiteSpace);
      var signed := |t| > 0 && (t[0] == '-' || t[0] == '+');
      var digits := if signed then t[1..] else t;
      if digits == [] || !AllDigits(digits) then None
      else
        var k := if signed then 1 else 0;
        assert IsDigit(digits[0]) && digits[0] == t[k];
        TrimKeepsDigit(s.value, IsNumberWhiteSpace, k);
        var v: int := if signed && t[0] == '-' then -(DigitsValue(digits) as int) else DigitsValue(digits);
        if Int32Min <= v <= Int32Max then Some(v) else None
  }

  /** The decimal text of a natural number parses back to it, as long as it fits in an `int`. */
  lemma ParseNatToString(m: nat)
    requires m <= Int32Max
    ensures TryParseInt32(Some(NatToString(m))) == Some(m)
  {
    var d := NatToString(m);
    assert IsDigit(d[0]) && IsDigit(d[|d| - 1]);
    TrimUnchanged(d, IsNumberWhiteSpace);
    DigitsValueOfNatToString(m);
  }

  /** The text of a negative number: the minus sign, then the digits of its magnitude. */
  lemma ParseNegative(m: nat)
    requires 0 < m <= -Int32Min
    ensures TryParseInt32(Some("-" + NatToString(m))) == Some(-(m as int))
  {
    var d := NatToString(m);
    var s := "-" + d;
    assert IsDigit(d[|d| - 1]) && s[|s| - 1] == d[|d| - 1];
    TrimUnchanged(s, IsNumberWhiteSpace);
    assert s[1..] == d;
    DigitsValueOfNatToString(m);
  }

  /** Parsing an `int`'s own text gives that `int` back. */
  lemma ParseIntToString(n: Int32)
    ensures TryParseInt32(Some(IntToString(n))) == Some(n)
  {
    if n < 0 {
      ParseNegative(-(n as int));
    } else {
      ParseNatToString(n);
    }
  }

  /** A value that is not all digits after the optional sign does not parse: "notanumber" is refused. */
  lemma ParseRejectsLetters()
    ensures TryParseInt32(Some("notanumber")) == None
  {
    LettersAreTrimmed();
    assert !IsDigit("notanumber"[0]);
  }

  lemma LettersAreTrimmed()
    ensures Trim("notanumber", IsNumberWhiteSpace) == "notanumber"
  {
    TrimUnchanged("notanumber", IsNumberWhiteSpace);
  }

  /** A null string never parses. */
  lemma ParseNull()
    ensures TryParseInt32(None) == None
  {
  }
}
