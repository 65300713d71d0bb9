/** Durations on the command line: how long to share, and how many days to keep a Snapshot. */
module Durations {
  import opened Characters
  import opened Sequences
  import opened Wrappers

  const U32_MAX: nat := 0xFFFF_FFFF
  const U64_MAX: nat := 0xFFFF_FFFF_FFFF_FFFF
  const MAX_SECONDS: nat := 604_800
  const DAY: nat := 86_400

  /** How many digits the text starts with. */
  function Digits(s: string): (n: nat)
    ensures n <= |s| && AllDigits(s[..n])
    ensures n < |s| ==> !IsDigit(s[n])
  {
    if s != "" && IsDigit(s[0]) then
      assert s[..1 + Digits(s[1..])] == [s[0]] + s[1..][..Digits(s[1..])];
      1 + Digits(s[1..])
    else 0
  }

  predicate AllDigits(s: string) {
    forall i :: 0 <= i < |s| ==> IsDigit(s[i])
  }

  /** The number a string of digits writes in base ten. */
  function Value(s: string): nat
    requires AllDigits(s)
  {
    if s == "" then 0 else 10 * Value(s[..|s| - 1]) + (s[|s| - 1] as int - '0' as int)
  }

  /** Parsing as the standard library does: one optional plus sign, at least one digit, no more
      than the largest value. */
  function Parse(s: string, max: nat): Option<nat> {
    var digits := if s != "" && s[0] == '+' then s[1..] else s;
    if digits != "" && AllDigits(digits) && Value(digits) <= max then Some(Value(digits)) else None
  }

  function Saturated(n: nat): nat {
    if n > U64_MAX then U64_MAX else n
  }

  /** The length of a unit; a bare number counts minutes. */
  function Unit(unit: string): Option<nat> {
    if unit == "s" then Some(1) else if unit == "" || unit == "m" then Some(60) else if unit == "h" then Some(3600) else None
  }

  /** Seconds, or None when the text is refused. */
  function ParseDuration(text: string): Option<nat> {
    var input := Trim(text);
    var split := Digits(input);
    var value, unit := Parse(input[..split], U64_MAX), Unit(input[split..]);
    if value.None? || unit.None? then None
    else
      var seconds := if unit.value == 1 then value.value else Saturated(value.value * unit.value);
      if seconds == 0 || seconds > MAX_SECONDS then None else Some(seconds)
  }

  function CeilDays(seconds: nat): nat {
    seconds / DAY + if seconds % DAY == 0 then 0 else 1
  }

  /** Whole days: `7d`, a bare number of days, or any duration rounded up. */
  function ParseDays(text: string): Option<nat> {
    var input := Trim(text);
    var days :=
      if input != "" && input[|input| - 1] == 'd' then Parse(input[..|input| - 1], U32_MAX)
      else if AllDigits(input) then Parse(input, U32_MAX)
      else
        var seconds := ParseDuration(input);
        if seconds.None? then None
        else Some(if CeilDays(seconds.value) > U32_MAX then U32_MAX else CeilDays(seconds.value));
    if days.None? || days.value == 0 || days.value > 365 then None else days
  }

  /** An accepted duration is the exact product of its number and its unit: saturation never
      shows, and exactly the products between one second and seven days are accepted. */
  lemma AcceptedIsExact(text: string)
    ensures var input := Trim(text);
            var split := Digits(input);
            var number, unit := input[..split], Unit(input[split..]);
            ParseDuration(text)
            == if split > 0 && unit.Some? && 1 <= Value(number) * unit.value <= MAX_SECONDS
               then Some(Value(number) * unit.value) else None
  {
    var input := Trim(text);
    var split := Digits(input);
    if split > 0 {
      assert IsDigit(input[..split][0]);
    }
  }

  // ----- Decimal notation -----

  function Decimal(n: nat): (s: string)
    ensures s != "" && AllDigits(s)
  {
    var digit := ('0' as int + n % 10) as char;
    if n < 10 then [digit] else Decimal(n / 10) + [digit]
  }

  lemma {:induction false} DecimalValue(n: nat)
    ensures Value(Decimal(n)) == n
  {
    var s := Decimal(n);
    if n < 10 {
      assert s[..|s| - 1] == "";
    } else {
      DecimalValue(n / 10);
      assert s[..|s| - 1] == Decimal(n / 10);
    }
  }

  lemma {:induction false} DigitsThen(digits: string, rest: string)
    requires AllDigits(digits) && (rest != "" ==> !IsDigit(rest[0]))
    ensures Digits(digits + rest) == |digits|
  {
    if digits == "" {
      assert digits + rest == rest;
    } else {
      Tail(digits, rest);
      DigitsThen(digits[1..], rest);
    }
  }

  lemma TrimNothing(s: string)
    requires s != "" && !IsWhitespace(s[0]) && !IsWhitespace(s[|s| - 1])
    ensures Trim(s) == s
  {
  }

  /** Every decimal rendering of an allowed duration, in any unit, is accepted as that duration. */
  lemma RenderedIsAccepted(n: nat, unit: string)
    requires Unit(unit).Some? && 1 <= n * Unit(unit).value <= MAX_SECONDS
    ensures ParseDuration(Decimal(n) + unit) == Some(n * Unit(unit).value)
  {
    var text := Decimal(n) + unit;
    assert IsDigit(Decimal(n)[0]) && IsDigit(Decimal(n)[|Decimal(n)| - 1]);
    TrimNothing(text);
    DigitsThen(Decimal(n), unit);
    DecimalValue(n);
    assert text[..|Decimal(n)|] == Decimal(n) && text[|Decimal(n)|..] == unit;
    AcceptedIsExact(text);
  }

  lemma {:induction false} TrimStartTwice(s: string)
    ensures TrimStart(TrimStart(s)) == TrimStart(s)
    ensures TrimStart(s) != "" ==> !IsWhitespace(TrimStart(s)[0])
  {
    if s != "" && IsWhitespace(s[0]) {
      TrimStartTwice(s[1..]);
    }
  }

  /** A Snapshot kept by a duration is kept for the smallest number of whole days covering it. */
  lemma DaysCoverDuration(text: string)
    requires var input := Trim(text); input != "" && input[|input| - 1] != 'd' && !AllDigits(input)
    ensures ParseDays(text).Some? <==> ParseDuration(text).Some?
    ensures ParseDays(text).Some? ==>
              (ParseDays(text).value - 1) * DAY < ParseDuration(text).value <= ParseDays(text).value * DAY
  {
    var input := Trim(text);
    TrimStartTwice(text);
    assert input[0] == TrimStart(text)[0];
    TrimNothing(input);
  }

  /** A number written out and a unit are read as the number and the unit. */
  lemma RenderedParts(n: nat, unit: string)
    requires unit == "" || (!IsDigit(unit[0]) && !IsWhitespace(unit[|unit| - 1]))
    ensures var text := Decimal(n) + unit;
            Trim(text) == text && Digits(text) == |Decimal(n)| && text[..|Decimal(n)|] == Decimal(n) && text[|Decimal(n)|..] == unit
  {
    var text := Decimal(n) + unit;
    assert IsDigit(Decimal(n)[0]) && IsDigit(Decimal(n)[|Decimal(n)| - 1]);
    TrimNothing(text);
    DigitsThen(Decimal(n), unit);
  }

  /** Seconds, minutes and hours, and minutes for a bare number; anything from one second to seven days
      is accepted, and nothing else. */
  lemma UnitsAre(n: nat)
    ensures ParseDuration(Decimal(n) + "s") == if 1 <= n <= 604_800 then Some(n) else None
    ensures ParseDuration(Decimal(n) + "m") == if 60 <= n * 60 <= 604_800 then Some(n * 60) else None
    ensures ParseDuration(Decimal(n) + "") == if 60 <= n * 60 <= 604_800 then Some(n * 60) else None
    ensures ParseDuration(Decimal(n) + "h") == if 3600 <= n * 3600 <= 604_800 then Some(n * 3600) else None
  {
    DecimalValue(n);
    hide ParseDuration, Decimal, Trim, Digits, Value;
    RenderedParts(n, "s");
    AcceptedIsExact(Decimal(n) + "s");
    RenderedParts(n, "m");
    AcceptedIsExact(Decimal(n) + "m");
    RenderedParts(n, "");
    AcceptedIsExact(Decimal(n) + "");
    RenderedParts(n, "h");
    AcceptedIsExact(Decimal(n) + "h");
  }

  predicate InDays(input: string) {
    (input != "" && input[|input| - 1] == 'd') || AllDigits(input)
  }

  /** The days written before a `d`, or alone: digits, after a plus sign if one is there. */
  function DaysWritten(input: string): string {
    var number := if input != "" && input[|input| - 1] == 'd' then input[..|input| - 1] else input;
    if number != "" && number[0] == '+' then number[1..] else number
  }

  /** For every text: days in digits are accepted from 1 to 365, as that number; any other text is accepted
      exactly if it is a duration, as the smallest number of whole days that covers it, which is at most
      seven. */
  lemma DaysAre(text: string)
    ensures var input := Trim(text);
            if InDays(input) then
              var number := DaysWritten(input);
              ParseDays(text)
              == if number != "" && AllDigits(number) && 1 <= Value(number) <= 365 then Some(Value(number)) else None
            else
              && (ParseDays(text).Some? <==> ParseDuration(text).Some?)
              && (ParseDays(text).Some? ==>
                    && (ParseDays(text).value - 1) * 86_400 < ParseDuration(text).value <= ParseDays(text).value * 86_400
                    && 1 <= ParseDays(text).value <= 7)
  {
    var input := Trim(text);
    if !InDays(input) {
      DaysCoverDuration(text);
      if ParseDuration(text).Some? {
        AcceptedIsExact(text);
      }
    }
  }

  /** A number of days written out, with or without the `d`. */
  lemma DaysRendered(n: nat)
    ensures ParseDays(Decimal(n) + "d") == if 1 <= n <= 365 then Some(n) else None
    ensures ParseDays(Decimal(n)) == if 1 <= n <= 365 then Some(n) else None
  {
    DecimalValue(n);
    RenderedParts(n, "d");
    RenderedParts(n, "");
    assert Decimal(n) + "" == Decimal(n);
    assert IsDigit(Decimal(n)[0]);
    assert DaysWritten(Decimal(n) + "d") == Decimal(n) by {
      assert (Decimal(n) + "d")[..|Decimal(n)|] == Decimal(n);
    }
    hide ParseDays, Decimal, Trim, Digits;
    DaysAre(Decimal(n) + "d");
    DaysAre(Decimal(n));
  }
}
