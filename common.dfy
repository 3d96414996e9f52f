/** Vocabulary shared by both services: optional values and results, the
    32-bit integers of the C# code, identifiers and timestamps, and the small
    string operations the handlers and validators rely on. */
module Common {

  datatype Option<T> = None | Some(value: T)

  /** The outcome of an operation that can throw: `Failure` carries the
      exception the C# code would raise. */
  datatype Result<T, E> = Success(value: T) | Failure(error: E)

  /** `Guid` values are opaque identities; only equality is used. */
  type Guid = nat

  /** `DateTime.UtcNow` is never read by the model: each operation that
      stamps a time receives the clock reading as a parameter. */
  type DateTime = int

  // ---------------------------------------------------------------------
  // C# `int` (System.Int32) with unchecked, wrapping arithmetic
  // ---------------------------------------------------------------------

  const INT32_MIN: int := -0x8000_0000
  const INT32_MAX: int := 0x7fff_ffff

  type Int32 = x: int | INT32_MIN <= x <= INT32_MAX

  /** `a + b` in an unchecked C# context: the exact sum when it fits, and the
      sum reduced modulo 2^32 into the Int32 range otherwise. */
  function AddInt32(a: Int32, b: Int32): (r: Int32)
    ensures INT32_MIN <= a + b <= INT32_MAX ==> r == a + b
    ensures a + b > INT32_MAX ==> r == a + b - 0x1_0000_0000
    ensures a + b < INT32_MIN ==> r == a + b + 0x1_0000_0000
  {
    var s := a + b;
    if s > INT32_MAX then s - 0x1_0000_0000
    else if s < INT32_MIN then s + 0x1_0000_0000
    else s
  }

  // ---------------------------------------------------------------------
  // Characters. .NET classifies characters by Unicode category; the model
  // uses the ASCII subset of each class (an approximation).
  // ---------------------------------------------------------------------

  /** `char.IsDigit` and the regex class `\d`, restricted to ASCII. */
  predicate IsAsciiDigit(c: char) { '0' <= c <= '9' }

  /** The regex class `[a-zA-Z]`. */
  predicate IsAsciiLetter(c: char) { 'a' <= c <= 'z' || 'A' <= c <= 'Z' }

  predicate IsHexDigit(c: char) { '0' <= c <= '9' || 'a' <= c <= 'f' || 'A' <= c <= 'F' }

  /** `char.IsWhiteSpace`, restricted to ASCII: space, tab, line feed,
      vertical tab, form feed and carriage return. */
  predicate IsWhiteSpace(c: char) { c == ' ' || 9 <= c as int <= 13 }

  /** `char.ToLowerInvariant`, restricted to ASCII. */
  function ToLowerAscii(c: char): (r: char)
    ensures IsAsciiLetter(c) <==> IsAsciiLetter(r)
    ensures 'A' <= c <= 'Z' ==> 'a' <= r <= 'z'
    ensures !('A' <= c <= 'Z') ==> r == c
  {
    if 'A' <= c <= 'Z' then (c as int + 32) as char else c
  }

  // ---------------------------------------------------------------------
  // Strings
  // ---------------------------------------------------------------------

  /** `string.IsNullOrWhiteSpace`, the test behind FluentValidation's
      `NotEmpty()` for strings: true of "" and of all-blank strings. */
  predicate IsBlank(s: string) {
    forall i | 0 <= i < |s| :: IsWhiteSpace(s[i])
  }

  predicate AllDigits(s: string) {
    forall i | 0 <= i < |s| :: IsAsciiDigit(s[i])
  }

  /** Case folding of a whole string. `StringComparison.OrdinalIgnoreCase`
      is modelled as ASCII case folding; this is an approximation of the
      .NET comparison, which folds every Unicode letter. */
  function Fold(s: string): (r: string)
    ensures |r| == |s|
    ensures forall i | 0 <= i < |s| :: r[i] == ToLowerAscii(s[i])
  {
    seq(|s|, i requires 0 <= i < |s| => ToLowerAscii(s[i]))
  }

  /** `a.Equals(b, StringComparison.OrdinalIgnoreCase)` (ASCII folding). */
  predicate EqualsIgnoreCase(a: string, b: string) {
    Fold(a) == Fold(b)
  }

  /** `needle` occurs in `hay` at position `i`. */
  predicate OccursAt(needle: string, hay: string, i: int) {
    0 <= i && i + |needle| <= |hay| && hay[i..i + |needle|] == needle
  }

  /** `hay.Contains(needle)` (ordinal). */
  predicate Contains(hay: string, needle: string) {
    exists i | 0 <= i <= |hay| - |needle| :: OccursAt(needle, hay, i)
  }

  /** `hay.Contains(needle, StringComparison.OrdinalIgnoreCase)` (ASCII folding). */
  predicate ContainsIgnoreCase(hay: string, needle: string) {
    Contains(Fold(hay), Fold(needle))
  }

  /** `s.StartsWith(prefix)`. The .NET overload without a comparison
      argument is culture-sensitive; the model compares ordinally. */
  predicate StartsWith(s: string, prefix: string) {
    |prefix| <= |s| && s[..|prefix|] == prefix
  }

  lemma {:induction false} FoldIdempotent(s: string)
    ensures Fold(Fold(s)) == Fold(s)
  {
    forall i | 0 <= i < |s| ensures Fold(Fold(s))[i] == Fold(s)[i] {
      var c := s[i];
      assert Fold(s)[i] == ToLowerAscii(c);
      assert ToLowerAscii(ToLowerAscii(c)) == ToLowerAscii(c);
    }
  }

  /** Case-insensitive equality is an equivalence relation. */
  lemma EqualsIgnoreCaseIsEquivalence(a: string, b: string, c: string)
    ensures EqualsIgnoreCase(a, a)
    ensures EqualsIgnoreCase(a, b) ==> EqualsIgnoreCase(b, a)
    ensures EqualsIgnoreCase(a, b) && EqualsIgnoreCase(b, c) ==> EqualsIgnoreCase(a, c)
  {
  }

  // ---------------------------------------------------------------------
  // Decimal numerals: `int.Parse` of a digit string and `{n}` in an
  // interpolated string.
  // ---------------------------------------------------------------------

  function DigitValue(c: char): (d: nat)
    requires IsAsciiDigit(c)
    ensures d < 10
  {
    c as int - '0' as int
  }

  function DigitChar(d: nat): (c: char)
    requires d < 10
    ensures IsAsciiDigit(c) && DigitValue(c) == d
  {
    ('0' as int + d) as char
  }

  /** The value of a string of decimal digits, most significant first. */
  function DecimalValue(s: string): nat
    requires AllDigits(s)
  {
    if s == [] then 0
    else DecimalValue(s[..|s| - 1]) * 10 + DigitValue(s[|s| - 1])
  }

  /** The shortest decimal numeral of `n`, as `n.ToString()` writes it. */
  function NatToString(n: nat): (s: string)
    ensures |s| > 0 && AllDigits(s)
  {
    if n < 10 then [DigitChar(n)]
    else NatToString(n / 10) + [DigitChar(n % 10)]
  }

  /** `n.ToString()` for any integer: a minus sign before negative values. */
  function IntToString(n: int): (s: string)
    ensures |s| > 0
    ensures n >= 0 <==> s[0] != '-'
  {
    if n < 0 then "-" + NatToString(-n) else NatToString(n)
  }

  /** Reading back a formatted natural number gives the number. */
  lemma {:induction false} DecimalValueOfNatToString(n: nat)
    ensures DecimalValue(NatToString(n)) == n
  {
    if n >= 10 {
      var s := NatToString(n / 10);
      var t := s + [DigitChar(n % 10)];
      assert t[..|t| - 1] == s;
      DecimalValueOfNatToString(n / 10);
    }
  }

  /** Appending a digit multiplies the value by ten and adds the digit. */
  lemma DecimalValueAppend(s: string, c: char)
    requires AllDigits(s) && IsAsciiDigit(c)
    ensures AllDigits(s + [c])
    ensures DecimalValue(s + [c]) == DecimalValue(s) * 10 + DigitValue(c)
  {
    assert (s + [c])[..|s|] == s;
  }

  /** A LINQ `Where` result: `a` is `b` with some elements left out, order kept. */
  predicate IsSubsequence<T(==)>(a: seq<T>, b: seq<T>)
    decreases |b|
  {
    if a == [] then true
    else if b == [] then false
    else (a[0] == b[0] && IsSubsequence(a[1..], b[1..])) || IsSubsequence(a, b[1..])
  }

  /** Validation results of FluentValidation: one entry per violated rule,
      naming the property and carrying the rule's message. */
  datatype ValidationFailure = ValidationFailure(propertyName: string, errorMessage: string)

  function PropertyNames(errors: seq<ValidationFailure>): (names: seq<string>)
    ensures |names| == |errors|
    ensures forall i | 0 <= i < |errors| :: names[i] == errors[i].propertyName
  {
    seq(|errors|, i requires 0 <= i < |errors| => errors[i].propertyName)
  }
}
