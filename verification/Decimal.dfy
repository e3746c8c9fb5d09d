/** Whole numbers as decimal text, and unsigned 64-bit parsing of it. */
module Decimal {
  import opened Wrappers

  const U64_LIMIT := 0x1_0000_0000_0000_0000

  predicate IsDigit(c: char) { '0' <= c <= '9' }

  predicate AllDigits(s: string) { forall i :: 0 <= i < |s| ==> IsDigit(s[i]) }

  function DigitValue(c: char): (v: nat)
    requires IsDigit(c)
    ensures v < 10
  {
    c as int - '0' as int
  }

  function DigitChar(v: nat): (c: char)
    requires v < 10
    ensures IsDigit(c) && DigitValue(c) == v
  {
    ('0' as int + v) as char
  }

  /** The value of a run of digits. */
  function ValueOf(s: string): nat
    requires AllDigits(s)
  {
    if s == "" then 0 else 10 * ValueOf(s[..|s| - 1]) + DigitValue(s[|s| - 1])
  }

  /** A number as it prints: no leading zero, `0` for zero. */
  function Printed(n: nat): (s: string)
    ensures s != "" && AllDigits(s)
  {
    if n < 10 then [DigitChar(n)] else Printed(n / 10) + [DigitChar(n % 10)]
  }

  lemma {:induction false} PrintedReadsBack(n: nat)
    ensures ValueOf(Printed(n)) == n
  {
    var s := Printed(n);
    if n < 10 {
      assert s[..0] == "";
    } else {
      PrintedReadsBack(n / 10);
      assert s[..|s| - 1] == Printed(n / 10);
    }
  }

  /** The digits of an unsigned number, which one `+` may come before. */
  function UnsignedDigits(s: string): string {
    if s != "" && s[0] == '+' then s[1..] else s
  }

  /** How a 64-bit unsigned number is read: decimal digits that fit, and nothing else. */
  function ParseU64(s: string): (r: Option<nat>)
    ensures r.Some? <==>
      var d := UnsignedDigits(s); d != "" && AllDigits(d) && ValueOf(d) <= 0xFFFF_FFFF_FFFF_FFFF
    ensures r.Some? ==> r.value == ValueOf(UnsignedDigits(s))
  {
    var d := UnsignedDigits(s);
    if d != "" && AllDigits(d) && ValueOf(d) < U64_LIMIT then Some(ValueOf(d)) else None
  }
}
