/**
 * The settings panel's integer logic: the amplitude clamp applied when an
 * entry loses focus (validate_horizontal / validate_vertical), the decimal
 * text written back into the entry, and the "Apply" update (update_settings).
 */
module Settings {
  import opened Wrappers

  const MinAmplitude: int := 1
  const MaxAmplitude: int := 25

  function Min(a: int, b: int): int { if a <= b then a else b }
  function Max(a: int, b: int): int { if a >= b then a else b }

  /** `min(25, max(1, n))`. */
  function Clamp(n: int): (r: int)
    ensures MinAmplitude <= r <= MaxAmplitude
    ensures MinAmplitude <= n <= MaxAmplitude ==> r == n
    ensures n < MinAmplitude ==> r == MinAmplitude
    ensures n > MaxAmplitude ==> r == MaxAmplitude
  {
    Min(MaxAmplitude, Max(MinAmplitude, n))
  }

  lemma ClampIdempotent(n: int)
    ensures Clamp(Clamp(n)) == Clamp(n)
  {
  }

  lemma ClampMonotone(m: int, n: int)
    requires m <= n
    ensures Clamp(m) <= Clamp(n)
  {
  }

  // ---------------------------------------------------------------------
  // Decimal text: `str(n)` and the subset of `int(s)` that reads it back.

  predicate IsDigit(c: char) { '0' <= c <= '9' }

  predicate AllDigits(s: string) {
    forall i :: 0 <= i < |s| ==> IsDigit(s[i])
  }

  function DigitChar(d: nat): (c: char)
    requires d < 10
    ensures IsDigit(c) && c as int - '0' as int == d
  {
    ('0' as int + d) as char
  }

  /** Decimal digits of `n`, most significant first, no leading zero. */
  function NatStr(n: nat): (s: string)
    decreases n
  {
    if n < 10 then [DigitChar(n)] else NatStr(n / 10) + [DigitChar(n % 10)]
  }

  /** Python's `str(n)` for an integer. */
  function Str(n: int): string {
    if n < 0 then "-" + NatStr(-n) else NatStr(n)
  }

  /** The value of a string of decimal digits, read left to right. */
  function DigitsValue(s: string): nat
    requires AllDigits(s)
    decreases |s|
  {
    if s == [] then 0
    else DigitsValue(s[..|s| - 1]) * 10 + (s[|s| - 1] as int - '0' as int)
  }

  /**
   * CPython's default limit on the number of digits `int()` converts
   * (`sys.int_info.default_max_str_digits`, since 3.11): longer decimal
   * text raises ValueError.
   */
  const MaxStrDigits: nat := 4300

  /**
   * Reads an optionally negative decimal integer of at most `MaxStrDigits`
   * digits; `None` is a parse failure (the `except:` branch of the handlers).
   */
  function ParseDecimal(s: string): Option<int> {
    if |s| > 1 && s[0] == '-' && AllDigits(s[1..]) && |s| - 1 <= MaxStrDigits then
      Some(-(DigitsValue(s[1..]) as int))
    else if |s| > 0 && AllDigits(s) && |s| <= MaxStrDigits then Some(DigitsValue(s))
    else None
  }

  /** Digit text longer than the limit is a parse failure, signed or not. */
  lemma ParseRejectsLongText(s: string)
    requires AllDigits(s) && |s| > MaxStrDigits
    ensures ParseDecimal(s) == None
    ensures ParseDecimal("-" + s) == None
  {
  }

  /** The number of digits `Str` writes, the sign not counted. */
  function DigitCount(n: int): nat {
    |NatStr(if n < 0 then -n else n)|
  }

  function Pow10(k: nat): nat {
    if k == 0 then 1 else 10 * Pow10(k - 1)
  }

  /** A number below 10^k has at most k digits. */
  lemma {:induction false} NatStrLength(n: nat, k: nat)
    requires 0 < k && n < Pow10(k)
    ensures |NatStr(n)| <= k
    decreases k
  {
    if n >= 10 {
      assert k > 1;
      NatStrLength(n / 10, k - 1);
    }
  }

  lemma {:induction false} NatStrDigits(n: nat)
    ensures |NatStr(n)| > 0
    ensures AllDigits(NatStr(n))
    ensures DigitsValue(NatStr(n)) == n
    decreases n
  {
    var s := NatStr(n);
    if n >= 10 {
      NatStrDigits(n / 10);
      assert s[..|s| - 1] == NatStr(n / 10);
    }
  }

  /** Reading back what `Str` wrote gives the same integer, within the digit limit. */
  lemma ParseStr(n: int)
    requires DigitCount(n) <= MaxStrDigits
    ensures ParseDecimal(Str(n)) == Some(n)
  {
    if n < 0 {
      NatStrDigits(-n);
      assert Str(n)[1..] == NatStr(-n);
    } else {
      NatStrDigits(n);
    }
  }

  /**
   * The entry text after focus loss: the clamped value when the text
   * parses, otherwise the stored configuration value.
   */
  function ValidatedText(text: string, stored: int): string {
    match ParseDecimal(text)
    case Some(n) => Str(Clamp(n))
    case None => Str(stored)
  }

  /** An amplitude in 1..25 has at most two digits. */
  lemma ClampedDigits(n: int)
    requires MinAmplitude <= n <= MaxAmplitude
    ensures DigitCount(n) <= 2
  {
    NatStrLength(n, 2);
  }

  /**
   * What the entry reads as after validation. A stored value comes from a
   * successful parse or the default 15, so it is within the digit limit.
   */
  lemma ValidatedTextParses(text: string, stored: int)
    ensures ParseDecimal(text).Some? ==>
      ParseDecimal(ValidatedText(text, stored)) == Some(Clamp(ParseDecimal(text).value))
    ensures ParseDecimal(text).None? && DigitCount(stored) <= MaxStrDigits ==>
      ParseDecimal(ValidatedText(text, stored)) == Some(stored)
  {
    match ParseDecimal(text)
    case Some(n) =>
      ClampedDigits(Clamp(n));
      ParseStr(Clamp(n));
    case None =>
      if DigitCount(stored) <= MaxStrDigits {
        ParseStr(stored);
      }
  }

  /**
   * Validating a second time changes nothing, unless the first time fell
   * back to a stored value outside 1..25, which the second time clamps.
   */
  lemma ValidatedTextIdempotent(text: string, stored: int)
    requires ParseDecimal(text).Some? || MinAmplitude <= stored <= MaxAmplitude
    ensures ValidatedText(ValidatedText(text, stored), stored) == ValidatedText(text, stored)
  {
    if MinAmplitude <= stored <= MaxAmplitude {
      ClampedDigits(stored);
    }
    ValidatedTextParses(text, stored);
  }

  /** A stored value outside 1..25 and an unparsable entry break idempotence. */
  lemma ValidatedTextNotIdempotent()
    ensures ValidatedText(ValidatedText("x", 30), 30) != ValidatedText("x", 30)
  {
  }

  // ---------------------------------------------------------------------
  // Apply.

  /** The fields of the configuration that "Apply" writes. */
  datatype Fields = Fields(horizontal: int, vertical: int, speed: real)

  /**
   * The three assignments in order, stopping at the first parse failure:
   * a later failure leaves the earlier assignments in place.
   */
  function Apply(f: Fields, h: Option<int>, v: Option<int>, s: Option<real>): Fields {
    if h.None? then f
    else if v.None? then f.(horizontal := h.value)
    else if s.None? then f.(horizontal := h.value, vertical := v.value)
    else Fields(h.value, v.value, s.value)
  }

  lemma ApplyHorizontalFails(f: Fields, v: Option<int>, s: Option<real>)
    ensures Apply(f, None, v, s) == f
  {
  }

  lemma ApplyVerticalFails(f: Fields, h: int, s: Option<real>)
    ensures Apply(f, Some(h), None, s) == Fields(h, f.vertical, f.speed)
  {
  }

  lemma ApplySpeedFails(f: Fields, h: int, v: int)
    ensures Apply(f, Some(h), Some(v), None) == Fields(h, v, f.speed)
  {
  }

  /** Every parse succeeds: the values are stored exactly, with no clamping. */
  lemma ApplyStoresExactly(f: Fields, h: int, v: int, s: real)
    ensures Apply(f, Some(h), Some(v), Some(s)) == Fields(h, v, s)
    ensures Apply(f, Some(100), Some(0), Some(s)) == Fields(100, 0, s)
  {
  }

  /** A field that was written holds what was parsed; one that was not keeps its value. */
  lemma ApplyFieldwise(f: Fields, h: Option<int>, v: Option<int>, s: Option<real>)
    ensures Apply(f, h, v, s).horizontal == (if h.Some? then h.value else f.horizontal)
    ensures Apply(f, h, v, s).vertical == (if h.Some? && v.Some? then v.value else f.vertical)
    ensures Apply(f, h, v, s).speed
            == (if h.Some? && v.Some? && s.Some? then s.value else f.speed)
  {
  }

  /** Applying the same entries twice is the same as applying them once. */
  lemma ApplyIdempotent(f: Fields, h: Option<int>, v: Option<int>, s: Option<real>)
    ensures Apply(Apply(f, h, v, s), h, v, s) == Apply(f, h, v, s)
  {
  }
}
