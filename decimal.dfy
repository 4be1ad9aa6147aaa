/**
 * Decimal integers in text: `strconv.Atoi` on a 64-bit platform and the
 * `%d` verb of `fmt.Sprintf`, for the `lines` query parameter and the
 * `-n` argument of journalctl.
 */
module Decimal {
  import opened Wrappers

  /** The range of Go's `int` on a 64-bit platform. */
  const IntMin: int := -0x8000_0000_0000_0000
  const IntMax: int := 0x7FFF_FFFF_FFFF_FFFF

  predicate IsDigit(c: char) {
    '0' <= c <= '9'
  }

  predicate AllDigits(s: string) {
    forall i :: 0 <= i < |s| ==> IsDigit(s[i])
  }

  /** The value of a string of decimal digits, most significant first. */
  function DigitsValue(s: string): nat
    requires AllDigits(s)
  {
    if s == [] then 0 else DigitsValue(s[..|s| - 1]) * 10 + (s[|s| - 1] as int - '0' as int)
  }

  /**
   * `strconv.Atoi`: an optional `+` or `-`, then one or more decimal digits,
   * whose value must fit in a 64-bit `int`; anything else is an error (`None`).
   */
  function Atoi(s: string): (r: Option<int>)
    ensures r.Some? ==> IntMin <= r.value <= IntMax
    ensures s == [] ==> r.None?
    ensures r.Some? ==> (s != [] && AllDigits(s)) || (|s| >= 2 && (s[0] == '+' || s[0] == '-') && AllDigits(s[1..]))
  {
    var signed := |s| > 0 && (s[0] == '-' || s[0] == '+');
    var body := if signed then s[1..] else s;
    if body == [] || !AllDigits(body) then None
    else
      var v: int := if signed && s[0] == '-' then 0 - (DigitsValue(body) as int) else DigitsValue(body);
      if IntMin <= v <= IntMax then Some(v) else None
  }

  /**
   * What `strconv.Atoi` gives for each text it accepts: the digits' value,
   * unchanged by a `+` and negated by a `-`, or an error once that value
   * leaves the range of `int`.
   */
  lemma AtoiForms(d: string)
    requires d != [] && AllDigits(d)
    ensures Atoi(d) == (if DigitsValue(d) <= IntMax then Some(DigitsValue(d) as int) else None)
    ensures Atoi("+" + d) == Atoi(d)
    ensures Atoi("-" + d) == (if IntMin <= 0 - DigitsValue(d) as int then Some(0 - DigitsValue(d) as int) else None)
  {
    assert ("+" + d)[1..] == d;
    assert ("-" + d)[1..] == d;
  }

  function DigitChar(d: nat): char
    requires d < 10
  {
    ('0' as int + d) as char
  }

  /** `fmt.Sprintf("%d", n)` for a non-negative `n`: no sign, no leading zeros. */
  function FormatNat(n: nat): (s: string)
    ensures s != [] && AllDigits(s)
    ensures s[0] != '0' || n == 0
  {
    if n < 10 then [DigitChar(n)] else FormatNat(n / 10) + [DigitChar(n % 10)]
  }

  /** Reading back what `FormatNat` wrote gives the number. */
  lemma {:induction false} DigitsValueFormat(n: nat)
    ensures DigitsValue(FormatNat(n)) == n
  {
    if n >= 10 {
      DigitsValueFormat(n / 10);
      var s := FormatNat(n);
      assert s[..|s| - 1] == FormatNat(n / 10);
    }
  }

  /** `strconv.Atoi` parses the text `%d` produced for any non-negative `int`. */
  lemma AtoiFormat(n: nat)
    requires n <= IntMax
    ensures Atoi(FormatNat(n)) == Some(n)
  {
    DigitsValueFormat(n);
  }
}
