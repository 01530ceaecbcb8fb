/**
 * The parts of the .NET string library that the core relies on, written out:
 * `String.Replace(char, char)`, the decimal rendering of an `int` by
 * `string.Format`, and `Char.IsWhiteSpace`. `LastIndexOf` is not used by the
 * code; it serves the model's own reading of a qualified name into its parts.
 */
module Text {
  import opened Wrappers

  /** `s` with every occurrence of `from` replaced by `to` (String.Replace(char, char)). */
  function Replace(s: string, from: char, to: char): (r: string)
    ensures |r| == |s|
    ensures forall i :: 0 <= i < |s| ==> r[i] == if s[i] == from then to else s[i]
    ensures from != to ==> from !in r
  {
    if s == [] then [] else [if s[0] == from then to else s[0]] + Replace(s[1..], from, to)
  }

  /** The position of the last `c` in `s`, or `None` when `s` has no `c`. */
  function LastIndexOf(s: string, c: char): (r: Option<nat>)
    ensures r.None? <==> c !in s
    ensures r.Some? ==> r.value < |s| && s[r.value] == c && c !in s[r.value + 1..]
  {
    if s == [] then None
    else if s[|s| - 1] == c then Some(|s| - 1)
    else
      var r := LastIndexOf(s[..|s| - 1], c);
      assert r.Some? ==> s[r.value + 1..] == s[..|s| - 1][r.value + 1..] + [s[|s| - 1]];
      assert s == s[..|s| - 1] + [s[|s| - 1]];
      r
  }

  /** When `c` does not occur after position `|a|`, that position is the last `c`. */
  lemma {:induction false} LastIndexOfSplit(a: string, c: char, b: string)
    requires c !in b
    ensures LastIndexOf(a + [c] + b, c) == Some(|a|)
  {
    var s := a + [c] + b;
    if b != [] {
      assert s[|s| - 1] == b[|b| - 1];
      assert s[..|s| - 1] == a + [c] + b[..|b| - 1];
      LastIndexOfSplit(a, c, b[..|b| - 1]);
    }
  }

  predicate IsDigit(c: char) { '0' <= c <= '9' }

  predicate IsDigits(s: string) { |s| > 0 && forall i :: 0 <= i < |s| ==> IsDigit(s[i]) }

  function DigitChar(d: nat): (c: char)
    requires d < 10
    ensures IsDigit(c) && c as int - '0' as int == d
  {
    (d + '0' as int) as char
  }

  /** The decimal digits of `n`, most significant first, as Int32.ToString() prints them. */
  function NatToDecimal(n: nat): (r: string)
    ensures IsDigits(r)
    ensures r[0] == '0' ==> n == 0
  {
    if n < 10 then [DigitChar(n)] else NatToDecimal(n / 10) + [DigitChar(n % 10)]
  }

  /** The number a non-empty string of decimal digits denotes. */
  function DecimalValue(s: string): (n: nat)
    requires forall i :: 0 <= i < |s| ==> IsDigit(s[i])
  {
    if s == [] then 0 else DecimalValue(s[..|s| - 1]) * 10 + DigitValue(s[|s| - 1])
  }

  function DigitValue(c: char): (d: nat)
    requires IsDigit(c)
  {
    c as int - '0' as int
  }

  lemma {:induction false} DecimalRoundTrip(n: nat)
    ensures DecimalValue(NatToDecimal(n)) == n
  {
    if n >= 10 {
      var s := NatToDecimal(n);
      assert s[..|s| - 1] == NatToDecimal(n / 10);
      DecimalRoundTrip(n / 10);
    }
  }

  /** How `string.Format` renders an `int?`: the empty string for null, else the decimal number with a leading '-' when negative. */
  function FormatNullableInt(i: Option<int>): (r: string)
    ensures r == [] <==> i.None?
    ensures forall k :: 0 <= k < |r| ==> r[k] == '-' || IsDigit(r[k])
  {
    match i
    case None => ""
    case Some(n) => if n < 0 then "-" + NatToDecimal(-n) else NatToDecimal(n)
  }

  /** Reads back what FormatNullableInt writes; `None` for a string it cannot have written. */
  function ParseNullableInt(s: string): (r: Option<Option<int>>)
  {
    if s == [] then Some(None)
    else if s[0] == '-' && IsDigits(s[1..]) then Some(Some(0 - DecimalValue(s[1..]) as int))
    else if IsDigits(s) then Some(Some(DecimalValue(s)))
    else None
  }

  /** Rendering a nullable integer loses nothing: parsing the text gives the value back. */
  lemma FormatNullableIntRoundTrip(i: Option<int>)
    ensures ParseNullableInt(FormatNullableInt(i)) == Some(i)
  {
    match i
    case None =>
    case Some(n) =>
      if n < 0 {
        var s := "-" + NatToDecimal(-n);
        assert s[1..] == NatToDecimal(-n);
        DecimalRoundTrip(-n);
      } else {
        DecimalRoundTrip(n);
      }
  }

  /** Char.IsWhiteSpace: the Unicode space, line and paragraph separators, U+0009 to U+000D and U+0085. */
  predicate IsWhiteSpace(c: char)
  {
    c == ' ' || '\t' <= c <= '\r' || c == '\U{0085}' || c == '\U{00A0}' || c == '\U{1680}'
    || '\U{2000}' <= c <= '\U{200A}' || c == '\U{2028}' || c == '\U{2029}' || c == '\U{202F}'
    || c == '\U{205F}' || c == '\U{3000}'
  }

  /** String.IsNullOrWhiteSpace: null, empty, or made only of white space. */
  predicate IsNullOrWhiteSpace(s: Option<string>)
  {
    s.None? || forall i :: 0 <= i < |s.value| ==> IsWhiteSpace(s.value[i])
  }
}
