/**
 * The small part of the Java platform the plugin leans on: nullable values,
 * results that may carry a thrown exception, the exception types the plugin
 * raises, `int`, `String.valueOf(int)`, and the string helpers
 * Plexus `StringUtils.isBlank`, `String.lastIndexOf` and `String.startsWith`.
 */
module JavaLang {

  datatype Option<+T> = None | Some(value: T)

  /** A call that either returns a value or throws. */
  datatype Result<+R, +E> = Success(value: R) | Failure(error: E)

  /** A Java `String` reference: `None` is `null`. */
  type JString = Option<string>

  /** `File.separator`, fixed to the POSIX value. */
  const Separator: char := '/'

  /** Java's 32-bit `int`. */
  newtype Int32 = x: int | -0x8000_0000 <= x < 0x8000_0000

  /**
   * The exceptions the plugin throws or lets escape. `RuntimeException(cause)`
   * is `new RuntimeException(cause)`; `ScriptError` is an error raised by the
   * JavaScript engine itself (a `TypeError`, say), which is an unchecked
   * exception without a cause.
   */
  datatype Exception =
    | IllegalArgumentException(message: string)
    | NullPointerException
    | MojoExecutionException(message: string)
    | MojoFailureException(message: string)
    | RuntimeException(cause: Exception)
    | ScriptError(message: string)

  /** The frequent `new RuntimeException(new MojoExecutionException(message))`. */
  function WrappedMojo(message: string): Exception {
    RuntimeException(MojoExecutionException(message))
  }

  /**
   * `Character.isWhitespace(c)`: the space, line and paragraph separators
   * other than the non-breaking ones (U+00A0, U+2007, U+202F), and the
   * controls U+0009 to U+000D and U+001C to U+001F.
   */
  predicate IsJavaWhitespace(c: char) {
    ('\U{0009}' <= c <= '\U{000D}') || ('\U{001C}' <= c <= '\U{0020}') || c == '\U{1680}' ||
    ('\U{2000}' <= c <= '\U{2006}') || ('\U{2008}' <= c <= '\U{200A}') ||
    c == '\U{2028}' || c == '\U{2029}' || c == '\U{205F}' || c == '\U{3000}'
  }

  /** Every character is whitespace in the sense of `Character.isWhitespace`. */
  predicate IsWhitespaceOnly(s: string) {
    forall i :: 0 <= i < |s| ==> IsJavaWhitespace(s[i])
  }

  /** Plexus `StringUtils.isBlank`: null, empty, or nothing but whitespace. */
  predicate IsBlank(s: JString) {
    s.None? || IsWhitespaceOnly(s.value)
  }

  /** `s.lastIndexOf(c)`: the last position of `c`, or -1. */
  function LastIndexOf(s: string, c: char): (r: int)
    ensures -1 <= r < |s|
    ensures r >= 0 ==> s[r] == c
    ensures forall j :: r < j < |s| ==> s[j] != c
  {
    if |s| == 0 then -1
    else if s[|s| - 1] == c then |s| - 1
    else LastIndexOf(s[..|s| - 1], c)
  }

  /** `s.contains(String.valueOf(c))`. */
  predicate Contains(s: string, c: char) {
    exists j :: 0 <= j < |s| && s[j] == c
  }

  /** `s.startsWith(prefix)`. */
  predicate StartsWith(s: string, prefix: string) {
    |prefix| <= |s| && s[..|prefix|] == prefix
  }

  function DigitChar(d: nat): char
    requires d < 10
  {
    "0123456789"[d]
  }

  function DigitValue(c: char): nat
  {
    if '0' <= c <= '9' then (c as int - '0' as int) as nat else 0
  }

  /** The decimal digits of a natural number, most significant first. */
  function NatDigits(n: nat): string
    decreases n
  {
    if n < 10 then [DigitChar(n)] else NatDigits(n / 10) + [DigitChar(n % 10)]
  }

  /** `String.valueOf(int)`. */
  function DecimalString(n: int): string {
    if n < 0 then "-" + NatDigits(-n) else NatDigits(n)
  }

  /** Reads a string of decimal digits back as a number (the inverse of `NatDigits`). */
  function ParseNat(s: string): nat
    decreases |s|
  {
    if |s| == 0 then 0 else ParseNat(s[..|s| - 1]) * 10 + DigitValue(s[|s| - 1])
  }

  /** `Integer.parseInt` on what `DecimalString` produces. */
  function ParseDecimal(s: string): int {
    if |s| > 0 && s[0] == '-' then var m: int := ParseNat(s[1..]); -m else ParseNat(s)
  }

  predicate AllDigits(s: string) {
    forall i :: 0 <= i < |s| ==> '0' <= s[i] <= '9'
  }

  lemma DigitRoundTrip(d: nat)
    requires d < 10
    ensures '0' <= DigitChar(d) <= '9' && DigitValue(DigitChar(d)) == d
  {
  }

  lemma {:induction false} NatDigitsRoundTrip(n: nat)
    ensures |NatDigits(n)| > 0 && AllDigits(NatDigits(n))
    ensures NatDigits(n)[0] == '0' ==> n == 0
    ensures ParseNat(NatDigits(n)) == n
    decreases n
  {
    var s := NatDigits(n);
    if n < 10 {
      DigitRoundTrip(n);
      assert s == [DigitChar(n)] && s[..0] == [];
    } else {
      var init, d := NatDigits(n / 10), DigitChar(n % 10);
      NatDigitsRoundTrip(n / 10);
      DigitRoundTrip(n % 10);
      assert s == init + [d];
      assert s[..|s| - 1] == init && s[|s| - 1] == d && s[0] == init[0];
      assert ParseNat(s) == ParseNat(init) * 10 + DigitValue(d);
      assert n == (n / 10) * 10 + n % 10;
    }
  }

  /** `String.valueOf(int)` is decimal notation: a minus exactly for negative numbers, then digits, and it reads back. */
  lemma DecimalStringRoundTrip(n: int)
    ensures ParseDecimal(DecimalString(n)) == n
    ensures var s := DecimalString(n);
      |s| > 0 && (s[0] == '-' <==> n < 0) && AllDigits(if n < 0 then s[1..] else s)
  {
    var s := DecimalString(n);
    if n < 0 {
      NatDigitsRoundTrip(-n);
      assert s == "-" + NatDigits(-n);
      assert s[1..] == NatDigits(-n);
    } else {
      NatDigitsRoundTrip(n);
      assert s == NatDigits(n);
      assert s[0] != '-';
    }
  }
}
