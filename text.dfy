/** The string operations the rule engine applies before comparing text:
    Python's `str.lower()`, `str.strip()`, the substring test `a in b`,
    `s.split(",")[0]` and `str()` of an integer. */
module Text {

  /** The characters Python's `str.isspace()` accepts, which `str.strip()`
      with no argument removes. */
  predicate IsSpace(c: char) {
    || c == ' '
    || ('\t' <= c <= '\r')
    || ('\U{1C}' <= c <= '\U{1F}')
    || c == '\U{85}' || c == '\U{A0}' || c == '\U{1680}'
    || ('\U{2000}' <= c <= '\U{200A}')
    || c == '\U{2028}' || c == '\U{2029}' || c == '\U{202F}' || c == '\U{205F}' || c == '\U{3000}'
  }

  predicate IsUpper(c: char) {
    'A' <= c <= 'Z'
  }

  /** `c.lower()` on ASCII letters; every other character is kept. */
  function LowerChar(c: char): (r: char)
    ensures !IsUpper(r)
    ensures IsUpper(c) ==> r as int == c as int + 32
    ensures !IsUpper(c) ==> r == c
  {
    if IsUpper(c) then (c as int + 32) as char else c
  }

  /** `s.lower()`, letter by letter. */
  function Lower(s: string): (r: string)
    ensures |r| == |s|
    ensures forall i :: 0 <= i < |s| ==> r[i] == LowerChar(s[i])
  {
    if s == [] then [] else [LowerChar(s[0])] + Lower(s[1..])
  }

  /** Lower-casing twice changes nothing more than lower-casing once. */
  lemma LowerIdempotent(s: string)
    ensures Lower(Lower(s)) == Lower(s)
  {
  }

  /** Lower-casing leaves no ASCII capital behind. */
  lemma LowerHasNoCapitals(s: string)
    ensures forall i :: 0 <= i < |Lower(s)| ==> !IsUpper(Lower(s)[i])
  {
  }

  /** `needle in hay` for strings: `needle` occurs as a contiguous infix.
      The empty string occurs in every string. */
  predicate Contains(hay: string, needle: string) {
    exists i :: 0 <= i <= |hay| - |needle| && OccursAt(hay, needle, i)
  }

  /** `any(needle in hay for needle in needles)`. */
  predicate AnyIn(needles: seq<string>, hay: string) {
    exists i :: 0 <= i < |needles| && Contains(hay, needles[i])
  }

  /** `needle` occurs in `hay` starting at position `i`. */
  predicate OccursAt(hay: string, needle: string, i: int) {
    0 <= i <= |hay| - |needle| && hay[i..i + |needle|] == needle
  }

  /** A needle that contains an ASCII capital never occurs in a lower-cased
      string, so a keyword stored with a capital never matches a lower-cased
      product description. */
  lemma CapitalNeverInLowered(hay: string, needle: string, k: int)
    requires 0 <= k < |needle| && IsUpper(needle[k])
    ensures !Contains(Lower(hay), needle)
  {
    var h := Lower(hay);
    forall i | 0 <= i <= |h| - |needle| ensures !OccursAt(h, needle, i) {
      assert h[i..i + |needle|][k] == h[i + k];
    }
  }

  /** `s.lstrip()`: the suffix left after dropping leading whitespace. */
  function StripStart(s: string): (r: string)
    ensures |r| <= |s| && r == s[|s| - |r|..]
    ensures forall i :: 0 <= i < |s| - |r| ==> IsSpace(s[i])
    ensures r == [] || !IsSpace(r[0])
  {
    if s != [] && IsSpace(s[0]) then StripStart(s[1..]) else s
  }

  /** `s.rstrip()`: the prefix left after dropping trailing whitespace. */
  function StripEnd(s: string): (r: string)
    ensures |r| <= |s| && r == s[..|r|]
    ensures forall i :: |r| <= i < |s| ==> IsSpace(s[i])
    ensures r == [] || !IsSpace(r[|r| - 1])
  {
    if s != [] && IsSpace(s[|s| - 1]) then StripEnd(s[..|s| - 1]) else s
  }

  /** `s.strip()`. */
  function Strip(s: string): string {
    StripEnd(StripStart(s))
  }

  /** `r` is `s[i..j]`, and everything of `s` outside it is whitespace. */
  predicate TrimmedInfix(s: string, r: string, i: int, j: int) {
    && 0 <= i <= j <= |s| && r == s[i..j]
    && (forall k :: 0 <= k < i ==> IsSpace(s[k]))
    && (forall k :: j <= k < |s| ==> IsSpace(s[k]))
  }

  /** What `strip` keeps: one contiguous run of `s`, with only whitespace
      cut off on either side. */
  lemma StripIsTrimmedInfix(s: string)
    ensures exists i, j :: TrimmedInfix(s, Strip(s), i, j)
  {
    var t := StripStart(s);
    var i := |s| - |t|;
    var r := StripEnd(t);
    PrefixOfSuffix(s, i, t, r);
    assert TrimmedInfix(s, Strip(s), i, i + |r|);
  }

  /** A prefix `r` of the suffix `s[i..]`, followed there only by
      whitespace, is `s[i..i + |r|]`, followed in `s` only by whitespace. */
  lemma PrefixOfSuffix(s: string, i: int, t: string, r: string)
    requires 0 <= i <= |s| && t == s[i..] && |r| <= |t| && r == t[..|r|]
    requires forall k :: |r| <= k < |t| ==> IsSpace(t[k])
    ensures r == s[i..i + |r|]
    ensures forall k :: i + |r| <= k < |s| ==> IsSpace(s[k])
  {
    forall k | i + |r| <= k < |s| ensures IsSpace(s[k]) {
      assert s[k] == t[k - i];
    }
  }

  /** What `strip` keeps neither starts nor ends with whitespace. */
  lemma StripEndsNotSpace(s: string)
    ensures Strip(s) == [] || (!IsSpace(Strip(s)[0]) && !IsSpace(Strip(s)[|Strip(s)| - 1]))
  {
    var t := StripStart(s);
    var r := StripEnd(t);
    if r != [] {
      assert r[0] == t[0];
    }
  }

  /** Stripping twice changes nothing more than stripping once. */
  lemma StripIdempotent(s: string)
    ensures Strip(Strip(s)) == Strip(s)
  {
    StripEndsNotSpace(s);
  }

  /** `s.split(",")[0]`: everything before the first comma (all of `s` when
      there is none). */
  function FirstSegment(s: string): (r: string)
    ensures r <= s
    ensures ',' !in r
    ensures |r| < |s| ==> s[|r|] == ','
  {
    if s == [] || s[0] == ',' then [] else [s[0]] + FirstSegment(s[1..])
  }

  function DigitChar(d: int): (c: char)
    requires 0 <= d < 10
    ensures '0' <= c <= '9'
  {
    ('0' as int + d) as char
  }

  predicate AllDigits(s: string) {
    forall i :: 0 <= i < |s| ==> '0' <= s[i] <= '9'
  }

  /** The number a string of decimal digits denotes, most significant
      digit first. */
  function DigitsValue(s: string): nat
    requires AllDigits(s)
  {
    if s == [] then 0 else 10 * DigitsValue(s[..|s| - 1]) + (s[|s| - 1] as int - '0' as int)
  }

  /** The decimal digits of a natural number, most significant first, with
      no leading zero. */
  function NatDecimal(n: nat): (r: string)
    ensures |r| > 0 && AllDigits(r)
    ensures DigitsValue(r) == n
    ensures r[0] == '0' ==> n == 0
  {
    if n < 10 then [DigitChar(n)]
    else
      var front := NatDecimal(n / 10);
      var r := front + [DigitChar(n % 10)];
      assert r[..|r| - 1] == front;
      r
  }

  /** `str(n)` for a Python integer: a minus sign for a negative number,
      then the digits of its magnitude, which read back as that magnitude. */
  function Decimal(n: int): (r: string)
    ensures |r| > 0
    ensures n < 0 <==> r[0] == '-'
    ensures n < 0 ==> AllDigits(r[1..]) && DigitsValue(r[1..]) == -n
    ensures n >= 0 ==> AllDigits(r) && DigitsValue(r) == n
    ensures n >= 0 && r[0] == '0' ==> n == 0
    ensures n < 0 ==> |r| >= 2 && r[1] != '0'
  {
    if n < 0 then
      var r := "-" + NatDecimal(-n);
      assert r[1..] == NatDecimal(-n);
      r
    else NatDecimal(n)
  }

  /** A digit string without a leading zero denotes a positive number. */
  lemma {:induction false} LeadingDigitPositive(s: string)
    requires s != [] && AllDigits(s) && s[0] != '0'
    ensures DigitsValue(s) >= 1
  {
    if |s| > 1 {
      LeadingDigitPositive(s[..|s| - 1]);
    }
  }

  /** The text form is canonical: every digit string without a leading
      zero is the text of the number it denotes. */
  lemma {:induction false} CanonicalDigits(s: string)
    requires s != [] && AllDigits(s) && (s[0] == '0' ==> |s| == 1)
    ensures NatDecimal(DigitsValue(s)) == s
  {
    if |s| > 1 {
      var front := s[..|s| - 1];
      var d := s[|s| - 1] as int - '0' as int;
      var a := DigitsValue(front);
      assert DigitsValue(s) == 10 * a + d;
      LeadingDigitPositive(front);
      NatDecimalSnoc(a, d);
      CanonicalDigits(front);
      calc {
        NatDecimal(DigitsValue(s));
        NatDecimal(a) + [DigitChar(d)];
        front + [s[|s| - 1]];
        s;
      }
    }
  }

  /** Appending a digit to a positive number appends it to its text. */
  lemma NatDecimalSnoc(a: nat, d: int)
    requires a >= 1 && 0 <= d < 10
    ensures NatDecimal(10 * a + d) == NatDecimal(a) + [DigitChar(d)]
  {
    assert (10 * a + d) / 10 == a && (10 * a + d) % 10 == d;
  }

  /** Different integers never show as the same text. */
  lemma DecimalInjective(a: int, b: int)
    requires Decimal(a) == Decimal(b)
    ensures a == b
  {
  }
}
