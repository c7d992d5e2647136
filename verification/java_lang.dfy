/** The few pieces of Java (and database) behaviour the backend relies on:
    32-bit `int` arithmetic, `Long.toString`, Hibernate's blank test, and
    case-insensitive substring matching. */
module JavaLang {

  const TWO_TO_32: int := 0x1_0000_0000
  const INT_MIN: int := -0x8000_0000
  const INT_MAX: int := 0x7fff_ffff

  /** The values of a Java `int` (and of an unboxed `Integer`). */
  type Int32 = x: int | -0x8000_0000 <= x <= 0x7fff_ffff

  predicate InInt32Range(x: int) {
    INT_MIN <= x <= INT_MAX
  }

  /** The result of Java `int` addition or subtraction whose exact value is `x`:
      two's-complement wrap-around into 32 bits. */
  function Wrap32(x: int): (r: Int32)
    ensures InInt32Range(x) ==> r == x
    ensures INT_MAX < x <= INT_MAX + TWO_TO_32 ==> r == x - TWO_TO_32
    ensures INT_MIN - TWO_TO_32 <= x < INT_MIN ==> r == x + TWO_TO_32
  {
    (x - INT_MIN) % TWO_TO_32 + INT_MIN
  }

  function DigitChar(d: int): char
    requires 0 <= d < 10
  {
    "0123456789"[d]
  }

  function NatToString(n: nat): string
    decreases n
  {
    if n < 10 then [DigitChar(n)] else NatToString(n / 10) + [DigitChar(n % 10)]
  }

  /** Decimal rendering of an integer, as Java's string concatenation prints a `Long`. */
  function IntToString(n: int): string {
    if n < 0 then "-" + NatToString(-n) else NatToString(n)
  }

  /** Hibernate's `@NotBlank` rejects a string whose `trim()` is empty, and
      `String.trim` strips every character up to and including U+0020. */
  predicate IsBlank(s: string) {
    forall i :: 0 <= i < |s| ==> s[i] <= ' '
  }

  /** Lower-casing of the letters A-Z. */
  function LowerChar(c: char): char {
    if 'A' <= c <= 'Z' then (c as int + 32) as char else c
  }

  function ToLower(s: string): string {
    seq(|s|, i requires 0 <= i < |s| => LowerChar(s[i]))
  }

  /** `needle` occurs in `hay` as a contiguous block. */
  predicate IsSubstring(needle: string, hay: string) {
    exists i :: 0 <= i <= |hay| - |needle| && needle <= hay[i..]
  }

  /** `hay ILIKE '%' || needle || '%'` for a needle without wildcards. */
  predicate ContainsIgnoreCase(hay: string, needle: string) {
    IsSubstring(ToLower(needle), ToLower(hay))
  }

  /** The empty needle occurs in every string. */
  lemma EmptyIsSubstring(hay: string)
    ensures IsSubstring("", hay)
  {
    assert "" <= hay[0..];
  }
}
