/**
 * Character and number-text helpers shared by the stages: the C locale's
 * character classes, `%d` formatting and the whole-string `strtol` acceptance
 * the code generator relies on.
 */
module Text {
  import opened Wrappers

  /** `tolower` in the C locale: only ASCII upper-case letters change. */
  function Lower(c: char): (r: char)
    ensures 'A' <= c <= 'Z' ==> 'a' <= r <= 'z'
    ensures !('A' <= c <= 'Z') ==> r == c
  {
    if 'A' <= c <= 'Z' then (c as int + 32) as char else c
  }

  function LowerString(s: string): (r: string)
    ensures |r| == |s| && forall i :: 0 <= i < |s| ==> r[i] == Lower(s[i])
  {
    if s == [] then [] else LowerString(s[..|s| - 1]) + [Lower(s[|s| - 1])]
  }

  predicate IsAlpha(c: char) { 'a' <= c <= 'z' || 'A' <= c <= 'Z' }

  predicate IsDecimalDigit(c: char) { '0' <= c <= '9' }

  predicate IsAlnum(c: char) { IsAlpha(c) || IsDecimalDigit(c) }

  /** Value of `c` as a digit of `base` (10 or 16), if it is one. */
  function DigitValue(c: char, base: nat): (r: Option<nat>)
    requires base == 10 || base == 16
    ensures r.Some? ==> r.value < base
  {
    if '0' <= c <= '9' then Some(c as int - '0' as int)
    else if base == 16 && 'a' <= c <= 'f' then Some(c as int - 'a' as int + 10)
    else if base == 16 && 'A' <= c <= 'F' then Some(c as int - 'A' as int + 10)
    else None
  }

  predicate AllDigits(s: string, base: nat)
    requires base == 10 || base == 16
  {
    forall i :: 0 <= i < |s| ==> DigitValue(s[i], base).Some?
  }

  /** Positional value of a digit string, most significant digit first. */
  function DigitsValue(s: string, base: nat): nat
    requires base == 10 || base == 16
    requires AllDigits(s, base)
  {
    if s == [] then 0
    else DigitsValue(s[..|s| - 1], base) * base + DigitValue(s[|s| - 1], base).value
  }

  /**
   * Whether `strtol(s, &end, base)` leaves `*end == '\0'`, and with which value.
   * An optional sign is followed by digits; with no digit at all `strtol` leaves
   * `end` at the start of `s`, so only the empty string is then accepted (as 0).
   */
  function StrtolWhole(s: string, base: nat): (r: Option<int>)
    requires base == 10 || base == 16
    ensures s == [] ==> r == Some(0)
    ensures r.Some? && s != [] ==> exists i :: 0 <= i < |s| && DigitValue(s[i], base).Some?
    ensures s != [] && AllDigits(s, base) ==> r == Some(DigitsValue(s, base))
    ensures |s| >= 2 && s[0] == '-' && AllDigits(s[1..], base) ==> r == Some(-(DigitsValue(s[1..], base) as int))
    ensures |s| >= 2 && s[0] == '+' && AllDigits(s[1..], base) ==> r == Some(DigitsValue(s[1..], base))
    ensures s != [] && !AllDigits(s, base) && !(|s| >= 2 && (s[0] == '-' || s[0] == '+') && AllDigits(s[1..], base)) ==> r.None?
  {
    if s == [] then Some(0)
    else if s[0] == '-' || s[0] == '+' then
      if |s| >= 2 && AllDigits(s[1..], base) then
        var v: int := DigitsValue(s[1..], base);
        assert DigitValue(s[1], base).Some?;
        Some(if s[0] == '-' then -v else v)
      else None
    else if AllDigits(s, base) then Some(DigitsValue(s, base))
    else None
  }

  /** Decimal text of a natural number, without leading zeros. */
  function NatToString(n: nat): (r: string)
    ensures |r| >= 1 && AllDigits(r, 10)
    ensures r[0] != '0' || n == 0
  {
    if n < 10 then ['0' + n as char]
    else NatToString(n / 10) + ['0' + (n % 10) as char]
  }

  /** `snprintf(buffer, size, "%d", value)`. */
  function FormatInt(n: int): (r: string)
    ensures |r| >= 1
    ensures n >= 0 ==> AllDigits(r, 10)
    ensures n < 0 ==> r[0] == '-' && |r| >= 2 && AllDigits(r[1..], 10)
  {
    if n >= 0 then NatToString(n) else "-" + NatToString(-n)
  }

  lemma {:induction false} NatToStringValue(n: nat)
    ensures DigitsValue(NatToString(n), 10) == n
  {
    if n >= 10 {
      var s := NatToString(n);
      assert s[..|s| - 1] == NatToString(n / 10);
      NatToStringValue(n / 10);
    }
  }

  /** Reading back what `%d` wrote gives the number again. */
  lemma FormatIntRoundTrip(n: int)
    ensures StrtolWhole(FormatInt(n), 10) == Some(n)
  {
    if n >= 0 {
      NatToStringValue(n);
    } else {
      var s := FormatInt(n);
      assert s[1..] == NatToString(-n);
      NatToStringValue(-n);
    }
  }

  /** `%d` is injective, so decimal labels and operands name numbers unambiguously. */
  lemma FormatIntInjective(m: int, n: int)
    requires FormatInt(m) == FormatInt(n)
    ensures m == n
  {
    FormatIntRoundTrip(m);
    FormatIntRoundTrip(n);
  }
}
