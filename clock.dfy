/** Python's naive `datetime` values and the text `isoformat()` writes and
    `datetime.fromisoformat()` reads back. The clock itself (`datetime.now()`)
    is not modelled: operations that read it take the current time as a
    parameter. */
module Clock {
  import opened Outcomes

  datatype Moment = Moment(year: int, month: int, day: int,
                           hour: int, minute: int, second: int, microsecond: int)

  predicate IsLeapYear(y: int) {
    y % 4 == 0 && (y % 100 != 0 || y % 400 == 0)
  }

  function DaysInMonth(year: int, month: int): int {
    if month == 2 then (if IsLeapYear(year) then 29 else 28)
    else if month == 4 || month == 6 || month == 9 || month == 11 then 30
    else 31
  }

  /** The ranges the `datetime` constructor enforces (years 1 to 9999). */
  predicate IsValid(m: Moment) {
    && 1 <= m.year <= 9999
    && 1 <= m.month <= 12
    && 1 <= m.day <= DaysInMonth(m.year, m.month)
    && 0 <= m.hour < 24
    && 0 <= m.minute < 60
    && 0 <= m.second < 60
    && 0 <= m.microsecond < 1000000
  }

  type DateTime = m: Moment | IsValid(m) witness Moment(1, 1, 1, 0, 0, 0, 0)

  function Pow10(n: nat): nat {
    if n == 0 then 1 else 10 * Pow10(n - 1)
  }

  predicate IsDigit(c: char) { '0' <= c <= '9' }

  predicate AllDigits(s: string) {
    forall i :: 0 <= i < |s| ==> IsDigit(s[i])
  }

  /** `n` written in decimal with exactly `width` digits, zero-padded on the
      left (the `%04d` / `%02d` / `%06d` fields of `isoformat`). */
  function Digits(n: nat, width: nat): (s: string)
    ensures |s| == width && AllDigits(s)
  {
    if width == 0 then "" else Digits(n / 10, width - 1) + [('0' as int + n % 10) as char]
  }

  /** The number a string of decimal digits denotes. */
  function DigitsValue(s: string): nat
    requires AllDigits(s)
  {
    if s == "" then 0 else DigitsValue(s[..|s| - 1]) * 10 + (s[|s| - 1] as int - '0' as int)
  }

  function ParseDigits(s: string): (r: Option<nat>)
    ensures r.Some? <==> AllDigits(s)
  {
    if AllDigits(s) then Some(DigitsValue(s)) else None
  }

  lemma {:induction false} DigitsRoundTrip(n: nat, width: nat)
    requires n < Pow10(width)
    ensures ParseDigits(Digits(n, width)) == Some(n)
  {
    if width > 0 {
      DigitsRoundTrip(n / 10, width - 1);
      var s := Digits(n, width);
      assert s[..|s| - 1] == Digits(n / 10, width - 1);
    }
  }

  /** `d.isoformat()`: `YYYY-MM-DDTHH:MM:SS`, followed by `.ffffff` only when
      the microsecond is not zero. */
  function IsoFormat(d: DateTime): (s: string)
    ensures |s| == (if d.microsecond == 0 then 19 else 26)
  {
    Digits(d.year, 4) + "-" + Digits(d.month, 2) + "-" + Digits(d.day, 2) + "T"
    + Digits(d.hour, 2) + ":" + Digits(d.minute, 2) + ":" + Digits(d.second, 2)
    + (if d.microsecond == 0 then "" else "." + Digits(d.microsecond, 6))
  }

  /** The separators and length of the two layouts `isoformat` writes. */
  predicate IsIsoLayout(s: string) {
    && (|s| == 19 || (|s| == 26 && s[19] == '.'))
    && s[4] == '-' && s[7] == '-' && s[10] == 'T' && s[13] == ':' && s[16] == ':'
  }

  /** `datetime.fromisoformat(s)` for the two layouts `isoformat` writes; any
      other text, and any out-of-range field, is refused (`None`, which the
      callers raise as `ValueError`). */
  function FromIsoFormat(s: string): (r: Option<DateTime>)
    ensures r.Some? ==> IsIsoLayout(s)
    ensures r.Some? <==> && IsIsoLayout(s)
                         && FromFields(s[0..4], s[5..7], s[8..10], s[11..13], s[14..16], s[17..19],
                                       if |s| == 26 then Some(s[20..26]) else None).Some?
  {
    if !IsIsoLayout(s) then None
    else FromFields(s[0..4], s[5..7], s[8..10], s[11..13], s[14..16], s[17..19],
                    if |s| == 26 then Some(s[20..26]) else None)
  }

  /** The fields of an ISO timestamp, read and range-checked; a missing
      fraction reads as zero microseconds. */
  function FromFields(year: string, month: string, day: string, hour: string, minute: string, second: string,
                      fraction: Option<string>): (r: Option<DateTime>)
    ensures r.Some? <==> && AllDigits(year) && AllDigits(month) && AllDigits(day)
                         && AllDigits(hour) && AllDigits(minute) && AllDigits(second)
                         && (fraction.Some? ==> AllDigits(fraction.value))
                         && IsValid(Moment(DigitsValue(year), DigitsValue(month), DigitsValue(day),
                                           DigitsValue(hour), DigitsValue(minute), DigitsValue(second),
                                           if fraction.Some? then DigitsValue(fraction.value) else 0))
    ensures r.Some? ==> && r.value.year == DigitsValue(year) && r.value.month == DigitsValue(month)
                        && r.value.day == DigitsValue(day) && r.value.hour == DigitsValue(hour)
                        && r.value.minute == DigitsValue(minute) && r.value.second == DigitsValue(second)
                        && r.value.microsecond == (if fraction.Some? then DigitsValue(fraction.value) else 0)
  {
    var y :- ParseDigits(year);
    var mo :- ParseDigits(month);
    var d :- ParseDigits(day);
    var h :- ParseDigits(hour);
    var mi :- ParseDigits(minute);
    var se :- ParseDigits(second);
    var micro :- if fraction.Some? then ParseDigits(fraction.value) else Some(0);
    var m := Moment(y, mo, d, h, mi, se, micro);
    if IsValid(m) then Some(m) else None
  }

  /** The fields `isoformat` writes for `d` read back as `d`. */
  lemma FieldsRoundTrip(d: DateTime, year: string, month: string, day: string, hour: string, minute: string,
                        second: string, fraction: Option<string>)
    requires year == Digits(d.year, 4) && month == Digits(d.month, 2) && day == Digits(d.day, 2)
    requires hour == Digits(d.hour, 2) && minute == Digits(d.minute, 2) && second == Digits(d.second, 2)
    requires fraction == if d.microsecond == 0 then None else Some(Digits(d.microsecond, 6))
    ensures FromFields(year, month, day, hour, minute, second, fraction) == Some(d)
  {
    DigitsRoundTrip(d.year, 4);
    DigitsRoundTrip(d.month, 2);
    DigitsRoundTrip(d.day, 2);
    DigitsRoundTrip(d.hour, 2);
    DigitsRoundTrip(d.minute, 2);
    DigitsRoundTrip(d.second, 2);
    if d.microsecond != 0 {
      DigitsRoundTrip(d.microsecond, 6);
    }
  }

  /** Reading back what `isoformat` wrote gives the same `datetime`. */
  lemma IsoRoundTrip(d: DateTime)
    ensures FromIsoFormat(IsoFormat(d)) == Some(d)
  {
    var s := IsoFormat(d);
    assert s[0..4] == Digits(d.year, 4);
    assert s[5..7] == Digits(d.month, 2);
    assert s[8..10] == Digits(d.day, 2);
    assert s[11..13] == Digits(d.hour, 2);
    assert s[14..16] == Digits(d.minute, 2);
    assert s[17..19] == Digits(d.second, 2);
    if d.microsecond != 0 {
      assert s[20..26] == Digits(d.microsecond, 6);
    }
    assert IsIsoLayout(s);
    FieldsRoundTrip(d, s[0..4], s[5..7], s[8..10], s[11..13], s[14..16], s[17..19],
                    if |s| == 26 then Some(s[20..26]) else None);
  }
}
