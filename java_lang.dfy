/**
 * The slice of the Java platform the host application's model needs:
 * 32-bit `int`, UTF-16 `char` and `String` as a sequence of code units,
 * decimal formatting of an `int`, and the ASCII part of the character
 * classification functions.
 */
module JavaLang {
  /** A Java `char`: one UTF-16 code unit. */
  type jchar = x: int | 0 <= x < 0x1_0000
  /** A Java `String`, as its code units. */
  type JString = seq<jchar>
  /** A Java `int`. */
  type i32 = x: int | -0x8000_0000 <= x < 0x8000_0000

  /** Two's-complement wrap-around of a mathematical integer into an `int`. */
  function Wrap32(x: int): (r: i32)
    ensures -0x8000_0000 <= x < 0x8000_0000 ==> r == x
    ensures (r - x) % 0x1_0000_0000 == 0
  {
    var m := x % 0x1_0000_0000;
    if m < 0x8000_0000 then m else m - 0x1_0000_0000
  }

  /** Adding one after wrapping is wrapping after adding one. */
  lemma WrapSucc(x: int)
    ensures Wrap32(Wrap32(x) + 1) == Wrap32(x + 1)
  {
    var m := x % 0x1_0000_0000;
    assert (x + 1) % 0x1_0000_0000 == if m == 0xFFFF_FFFF then 0 else m + 1;
  }

  /** A string literal of the source; every literal modelled is in the Basic Multilingual Plane. */
  function Lit(s: string): (j: JString)
    ensures |j| == |s|
  {
    seq(|s|, i requires 0 <= i < |s| => (s[i] as int) % 0x1_0000)
  }

  const MINUS: jchar := 0x2D
  const ZERO: jchar := 0x30

  /** The decimal digits of a natural number, most significant first, with no leading zero. */
  function Digits(n: nat): (d: JString)
    ensures |d| >= 1 && forall k :: 0 <= k < |d| ==> ZERO <= d[k] <= ZERO + 9
    ensures n < 10 <==> |d| == 1
    decreases n
  {
    if n < 10 then [ZERO + n] else Digits(n / 10) + [ZERO + n % 10]
  }

  /** `Integer.toString` / `String.valueOf(int)`: a minus sign for a negative value, then the digits. */
  function Decimal(n: int): JString {
    if n < 0 then [MINUS] + Digits(-n) else Digits(n)
  }

  /** The value the digits stand for. */
  function DigitsValue(d: JString): int
    decreases |d|
  {
    if |d| == 0 then 0 else DigitsValue(d[..|d| - 1]) * 10 + (d[|d| - 1] - ZERO)
  }

  /** Reading the digits back gives the number. */
  lemma {:induction false} DigitsRoundTrip(n: nat)
    ensures DigitsValue(Digits(n)) == n
    decreases n
  {
    if n >= 10 {
      DigitsRoundTrip(n / 10);
      var d := Digits(n / 10) + [ZERO + n % 10];
      assert d[..|d| - 1] == Digits(n / 10);
    }
  }

  /** `Boolean.toString`. */
  function BoolString(b: bool): JString {
    if b then Lit("true") else Lit("false")
  }

  /** The case mapping shared by `Character.toLowerCase` and `String.toLowerCase` on ASCII. */
  function AsciiLower(c: jchar): (r: jchar)
    ensures 0x41 <= c <= 0x5A ==> r == c + 0x20
    ensures !(0x41 <= c <= 0x5A) ==> r == c
  {
    if 0x41 <= c <= 0x5A then c + 0x20 else c
  }

  predicate IsAscii(s: JString) {
    forall k :: 0 <= k < |s| ==> s[k] < 0x80
  }

  /**
   * `Character.isWhitespace` for a code unit: the ASCII controls from tab
   * to carriage return and from file to unit separator, and the Unicode
   * space, line and paragraph separators except the non-breaking ones.
   */
  predicate IsWhitespace(c: jchar) {
    (0x09 <= c <= 0x0D) || (0x1C <= c <= 0x20) || c == 0x1680
    || (0x2000 <= c <= 0x2006) || (0x2008 <= c <= 0x200A)
    || c == 0x2028 || c == 0x2029 || c == 0x205F || c == 0x3000
  }

  /** `String.isBlank`: empty or whitespace only. */
  predicate IsBlank(s: JString) {
    forall k :: 0 <= k < |s| ==> IsWhitespace(s[k])
  }
}
