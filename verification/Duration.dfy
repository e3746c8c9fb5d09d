/** Durations as text (`chocofactory-core/src/duration.rs`, lines 8 to 49).
  * A duration is its whole seconds, an unsigned 64-bit number.
  */
module Duration {
  import opened Wrappers
  import opened Decimal

  function UnitSeconds(unit: char): Option<nat> {
    if unit == 's' then Some(1) else if unit == 'm' then Some(60) else if unit == 'h' then Some(3600) else None
  }

  function ParseDuration(s: string): Result<nat, string> {
    if s == "" then Err(s)
    else
      match (ParseU64(s[..|s| - 1]), UnitSeconds(s[|s| - 1]))
      case (Some(amount), Some(seconds)) =>
        if amount * seconds >= U64_LIMIT || amount * seconds == 0 then Err(s) else Ok(amount * seconds)
      case _ => Err(s)
  }

  /** Digits and a unit are a duration exactly when there is a digit, the unit is one, and
    * the seconds are at least 1 and fit 64 bits.
    */
  lemma DigitsAndUnit(digits: string, unit: char)
    requires AllDigits(digits)
    ensures ParseDuration(digits + [unit]).Ok? <==>
      digits != "" && UnitSeconds(unit).Some? && 1 <= ValueOf(digits) * UnitSeconds(unit).value < U64_LIMIT
    ensures ParseDuration(digits + [unit]).Ok? ==>
      ParseDuration(digits + [unit]).value == ValueOf(digits) * UnitSeconds(unit).value
  {
    var s := digits + [unit];
    assert s[..|s| - 1] == digits && s[|s| - 1] == unit;
    assert UnsignedDigits(digits) == digits;
    if UnitSeconds(unit).Some? {
      TimesUnit(ValueOf(digits), UnitSeconds(unit).value);
    }
  }

  /** The units, and what a duration comes to. */
  lemma DurationsSpelled(digits: string, unit: char, seconds: nat)
    requires AllDigits(digits)
    ensures ParseDuration(digits + [unit]) == Ok(seconds) <==>
      && digits != "" && 1 <= seconds <= 0xFFFF_FFFF_FFFF_FFFF
      && ((unit == 's' && seconds == ValueOf(digits)) || (unit == 'm' && seconds == 60 * ValueOf(digits))
          || (unit == 'h' && seconds == 3600 * ValueOf(digits)))
  {
    DigitsAndUnit(digits, unit);
  }

  lemma TimesUnit(a: nat, m: nat)
    requires m >= 1
    ensures a <= a * m
  {
    assert a * m == a + a * (m - 1);
  }

  /** Nothing else is one, but for a `+` before the digits. */
  lemma NothingElse(s: string)
    ensures ParseDuration(s).Ok? ==>
      exists digits, unit :: AllDigits(digits) && (s == digits + [unit] || s == "+" + digits + [unit])
  {
    if ParseDuration(s).Ok? {
      var amount, unit := s[..|s| - 1], s[|s| - 1];
      var digits := UnsignedDigits(amount);
      assert s == amount + [unit];
      assert amount == digits || amount == "+" + digits;
      assert AllDigits(digits) && (s == digits + [unit] || s == "+" + digits + [unit]);
    }
  }

  // ---- As text ------------------------------------------------------------------------------

  function Hours(total: nat): nat { total / 3600 }
  function Minutes(total: nat): nat { total % 3600 / 60 }
  function Seconds(total: nat): nat { total % 60 }

  function Part(amount: nat, unit: char): string {
    if amount > 0 then Printed(amount) + [unit] else ""
  }

  /** The non-zero parts, or `0s`. */
  function Formatted(total: nat): string {
    if total == 0 then "0s" else Part(Hours(total), 'h') + Part(Minutes(total), 'm') + Part(Seconds(total), 's')
  }

  lemma PartsAddUp(total: nat)
    ensures total == 3600 * Hours(total) + 60 * Minutes(total) + Seconds(total)
  {
  }

  method AddPart(out: string, amount: nat, unit: char) returns (more: string)
    ensures more == out + Part(amount, unit)
  {
    more := out;
    if amount > 0 {
      more := more + (Printed(amount) + [unit]);
    }
  }

  lemma SomePart(h: nat, m: nat)
    ensures Part(h, 'h') + Part(m, 'm') == "" <==> h == 0 && m == 0
  {
  }

  method FormatDuration(total: nat) returns (out: string)
    ensures out == Formatted(total)
  {
    var h, m, s := total / 3600, total % 3600 / 60, total % 60;
    PartsAddUp(total);
    out := AddPart("", h, 'h');
    out := AddPart(out, m, 'm');
    SomePart(h, m);
    assert out == Part(h, 'h') + Part(m, 'm');
    if s == 0 && out == "" {
      return "0s";
    }
    out := AddPart(out, s, 's');
  }

  // ---- Back again ------------------------------------------------------------------------------

  /** One part, hours, minutes or seconds, and no other. */
  predicate SinglePart(total: nat) {
    || (Hours(total) > 0 && Minutes(total) == 0 && Seconds(total) == 0)
    || (Hours(total) == 0 && Minutes(total) > 0 && Seconds(total) == 0)
    || (Hours(total) == 0 && Minutes(total) == 0 && Seconds(total) > 0)
  }

  lemma PartReadsBack(amount: nat, unit: char)
    requires amount > 0 && UnitSeconds(unit).Some? && amount * UnitSeconds(unit).value < U64_LIMIT
    ensures ParseDuration(Part(amount, unit)) == Ok(amount * UnitSeconds(unit).value)
  {
    PrintedReadsBack(amount);
    TimesUnit(amount, UnitSeconds(unit).value);
    DigitsAndUnit(Printed(amount), unit);
  }

  /** Two parts or more are not read: a unit stands among the digits. */
  lemma TwoPartsAreNotRead(amount: nat, unit: char, rest: string)
    requires amount > 0 && UnitSeconds(unit).Some? && rest != ""
    ensures ParseDuration(Part(amount, unit) + rest).Err?
  {
    var s := Part(amount, unit) + rest;
    var n := |Printed(amount)|;
    var digits := s[..|s| - 1];
    assert digits[n] == unit && digits[0] == Printed(amount)[0];
    assert IsDigit(digits[0]) && !IsDigit(unit);
    assert UnsignedDigits(digits) == digits;
  }

  lemma ZeroIsNotRead()
    ensures ParseDuration("0s").Err?
  {
    assert "0s" == "0" + ['s'];
    DigitsAndUnit("0", 's');
    assert ValueOf("0") == 0;
  }

  lemma LeadingPartDecides(amount: nat, unit: char, rest: string, total: nat)
    requires amount > 0 && UnitSeconds(unit).Some? && amount * UnitSeconds(unit).value < U64_LIMIT
    requires rest == "" <==> total == amount * UnitSeconds(unit).value
    ensures if rest == "" then ParseDuration(Part(amount, unit) + rest) == Ok(total)
            else ParseDuration(Part(amount, unit) + rest).Err?
  {
    if rest == "" {
      assert Part(amount, unit) + rest == Part(amount, unit);
      PartReadsBack(amount, unit);
    } else {
      TwoPartsAreNotRead(amount, unit, rest);
    }
  }

  /** A duration that prints is read back exactly when it is one non-zero part. */
  lemma ReadsBackIffSinglePart(total: nat)
    requires total < U64_LIMIT
    ensures ParseDuration(Formatted(total)) == Ok(total) <==> SinglePart(total)
    ensures !SinglePart(total) ==> ParseDuration(Formatted(total)).Err?
  {
    PartsAddUp(total);
    if total == 0 {
      ZeroIsNotRead();
    } else {
      PartsReadBack(Hours(total), Minutes(total), Seconds(total), total);
    }
  }

  lemma PartsReadBack(h: nat, m: nat, s: nat, total: nat)
    requires 0 < total < U64_LIMIT && total == 3600 * h + 60 * m + s
    ensures var r, single := ParseDuration(Part(h, 'h') + Part(m, 'm') + Part(s, 's')),
                             (if h > 0 then 1 else 0) + (if m > 0 then 1 else 0) + (if s > 0 then 1 else 0) == 1;
      if single then r == Ok(total) else r.Err?
  {
    var a, b, c := Part(h, 'h'), Part(m, 'm'), Part(s, 's');
    assert a + b + c == a + (b + c) && (a == "" ==> a + b + c == b + c) && (b == "" ==> b + c == c);
    NoPart(h, 'h');
    NoPart(m, 'm');
    NoPart(s, 's');
    if h > 0 {
      assert b + c == "" <==> b == "" && c == "";
      LeadingPartDecides(h, 'h', b + c, total);
    } else if m > 0 {
      LeadingPartDecides(m, 'm', c, total);
    } else {
      assert c == c + "";
      LeadingPartDecides(s, 's', "", total);
    }
  }

  lemma NoPart(amount: nat, unit: char)
    ensures Part(amount, unit) == "" <==> amount == 0
  {
  }

  /** Reads parts from left to right, `acc` being the number so far. */
  function Decode(s: string, acc: nat): nat {
    if s == "" then 0
    else if IsDigit(s[0]) then Decode(s[1..], 10 * acc + DigitValue(s[0]))
    else (match UnitSeconds(s[0]) case None => 0 case Some(m) => acc * m) + Decode(s[1..], 0)
  }

  /** `acc` with more digits after it. */
  function Shifted(acc: nat, digits: string): nat
    requires AllDigits(digits)
  {
    if digits == "" then acc else 10 * Shifted(acc, digits[..|digits| - 1]) + DigitValue(digits[|digits| - 1])
  }

  lemma {:induction false} ShiftedFromZero(digits: string)
    requires AllDigits(digits)
    ensures Shifted(0, digits) == ValueOf(digits)
  {
    if digits != "" {
      ShiftedFromZero(digits[..|digits| - 1]);
    }
  }

  lemma {:induction false} DecodeDigits(digits: string, rest: string, acc: nat)
    requires AllDigits(digits)
    ensures Decode(digits + rest, acc) == Decode(rest, Shifted(acc, digits))
    decreases |digits|
  {
    if digits == "" {
      assert digits + rest == rest;
    } else {
      var before, last := digits[..|digits| - 1], digits[|digits| - 1];
      assert digits + rest == before + ([last] + rest);
      DecodeDigits(before, [last] + rest, acc);
      assert ([last] + rest)[1..] == rest;
    }
  }

  lemma DecodePart(amount: nat, unit: char, rest: string)
    requires UnitSeconds(unit).Some?
    ensures Decode(Part(amount, unit) + rest, 0) == amount * UnitSeconds(unit).value + Decode(rest, 0)
  {
    if amount == 0 {
      assert Part(amount, unit) + rest == rest;
    } else {
      var digits := Printed(amount);
      assert Part(amount, unit) + rest == digits + ([unit] + rest);
      DecodeDigits(digits, [unit] + rest, 0);
      ShiftedFromZero(digits);
      PrintedReadsBack(amount);
      assert ([unit] + rest)[1..] == rest;
    }
  }

  lemma DecodesBack(total: nat)
    ensures Decode(Formatted(total), 0) == total
  {
    var h, m, s := Hours(total), Minutes(total), Seconds(total);
    PartsAddUp(total);
    if total == 0 {
      assert "0s" == "0" + "s";
      DecodeDigits("0", "s", 0);
      assert "s"[1..] == "";
    } else {
      var a, b, c := Part(h, 'h'), Part(m, 'm'), Part(s, 's');
      assert a + b + c == a + (b + (c + ""));
      DecodePart(h, 'h', b + (c + ""));
      DecodePart(m, 'm', c + "");
      DecodePart(s, 's', "");
    }
  }

  /** Different durations never print alike. */
  lemma FormattedIsInjective(a: nat, b: nat)
    requires Formatted(a) == Formatted(b)
    ensures a == b
  {
    DecodesBack(a);
    DecodesBack(b);
  }
}
