/**
 * The string operations of the .NET base library that the launcher relies on:
 * null-aware interpolation, ordinal case-insensitive comparison (as ASCII case
 * folding), IsNullOrEmpty, IsNullOrWhiteSpace and the decimal formatting of a
 * non-negative int.
 */
module Text {
  import opened Wrappers

  /** A C# string reference; `None` stands for null. */
  type NullableString = Option<string>

  /** What `$"{s}"` prints: null interpolates as the empty string. */
  function Show(s: NullableString): (r: string)
    ensures s.Some? ==> r == s.value
    ensures s.None? ==> r == ""
  {
    s.GetOr("")
  }

  // ---------------------------------------------------------------------
  // Case folding

  /** ASCII lower-casing of one character; every other character is kept. */
  function LowerChar(c: char): char {
    if 'A' <= c <= 'Z' then (c as int + 32) as char else c
  }

  /** `ToLower()`, restricted to ASCII letters. */
  function Lower(s: string): (r: string)
    ensures |r| == |s|
    ensures forall i :: 0 <= i < |s| ==> r[i] == LowerChar(s[i])
  {
    if s == [] then [] else [LowerChar(s[0])] + Lower(s[1..])
  }

  /** Folding distributes over concatenation. */
  lemma LowerAppend(a: string, b: string)
    ensures Lower(a + b) == Lower(a) + Lower(b)
  {
    assert forall i :: 0 <= i < |a + b| ==> Lower(a + b)[i] == (Lower(a) + Lower(b))[i];
  }

  /** `string.Equals(a, b, StringComparison.OrdinalIgnoreCase)`: two nulls are
      equal, a null never equals a string, and two strings are compared after
      case folding. */
  predicate EqualsIgnoreCase(a: NullableString, b: NullableString) {
    match (a, b)
    case (None, None) => true
    case (Some(x), Some(y)) => Lower(x) == Lower(y)
    case _ => false
  }

  /** The comparison is an equivalence: it is symmetric and transitive. */
  lemma EqualsIgnoreCaseIsEquivalence(a: NullableString, b: NullableString, c: NullableString)
    ensures EqualsIgnoreCase(a, a)
    ensures EqualsIgnoreCase(a, b) ==> EqualsIgnoreCase(b, a)
    ensures EqualsIgnoreCase(a, b) && EqualsIgnoreCase(b, c) ==> EqualsIgnoreCase(a, c)
  {
  }

  // ---------------------------------------------------------------------
  // Blank strings

  /** `char.IsWhiteSpace`: the Unicode space separators, the line and
      paragraph separators, and the control characters U+0009 to U+000D and
      U+0085. */
  predicate IsWhiteSpace(c: char) {
    || c == ' '
    || '\U{9}' <= c <= '\U{D}'
    || c == '\U{85}' || c == '\U{A0}' || c == '\U{1680}'
    || '\U{2000}' <= c <= '\U{200A}'
    || c == '\U{2028}' || c == '\U{2029}' || c == '\U{202F}' || c == '\U{205F}' || c == '\U{3000}'
  }

  /** `string.IsNullOrWhiteSpace`. */
  predicate IsNullOrWhiteSpace(s: NullableString) {
    s.None? || forall i :: 0 <= i < |s.value| ==> IsWhiteSpace(s.value[i])
  }

  /** `string.IsNullOrEmpty`. */
  predicate IsNullOrEmpty(s: NullableString) {
    s.None? || s.value == ""
  }

  /** Every null-or-empty string is blank, but not every blank string is
      empty: blankness is the weaker test. */
  lemma EmptyIsBlank(s: NullableString)
    ensures IsNullOrEmpty(s) ==> IsNullOrWhiteSpace(s)
    ensures IsNullOrWhiteSpace(Some(" ")) && !IsNullOrEmpty(Some(" "))
  {
  }

  // ---------------------------------------------------------------------
  // Decimal formatting

  /** The decimal digit for `d`. */
  function DigitChar(d: nat): (c: char)
    requires d < 10
    ensures '0' <= c <= '9'
    ensures c as int - '0' as int == d
  {
    ('0' as int + d) as char
  }

  /** `n.ToString()` for a non-negative int: its decimal digits, most
      significant first, without leading zeros. */
  function NatToString(n: nat): (r: string)
    ensures 1 <= |r|
    ensures n >= 10 ==> 2 <= |r|
    ensures forall i :: 0 <= i < |r| ==> '0' <= r[i] <= '9'
    ensures r[|r| - 1] == DigitChar(n % 10)
    decreases n
  {
    if n < 10 then [DigitChar(n)] else NatToString(n / 10) + [DigitChar(n % 10)]
  }

  /** Distinct numbers print differently. */
  lemma {:induction false} NatToStringInjective(a: nat, b: nat)
    requires NatToString(a) == NatToString(b)
    ensures a == b
  {
    var s := NatToString(a);
    assert DigitChar(a % 10) == s[|s| - 1] == DigitChar(b % 10);
    if a >= 10 && b >= 10 {
      var pa, pb := NatToString(a / 10), NatToString(b / 10);
      assert s == pa + [DigitChar(a % 10)] == pb + [DigitChar(b % 10)];
      assert pa == s[..|s| - 1] == pb;
      NatToStringInjective(a / 10, b / 10);
    }
  }

  /** Digits are not letters, so folding leaves a printed number alone. */
  lemma LowerOfDigits(n: nat)
    ensures Lower(NatToString(n)) == NatToString(n)
  {
  }
}
