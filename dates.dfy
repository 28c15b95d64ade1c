/**
 * Calendar dates as the dashboard handles them: the date picker hands over
 * `YYYY-MM-DD` strings, which are read with `datetime.strptime(s, '%Y-%m-%d')`,
 * written back with `strftime('%Y.%m.%d')`, and finally read again by pandas
 * as a day-resolution label bound.
 */
module Dates {
  import opened Common

  datatype Date = Date(year: int, month: int, day: int)

  predicate IsLeapYear(y: int) {
    y % 4 == 0 && (y % 100 != 0 || y % 400 == 0)
  }

  function DaysInMonth(y: int, m: int): (n: int)
    ensures 28 <= n <= 31
  {
    if m == 2 then (if IsLeapYear(y) then 29 else 28)
    else if m == 4 || m == 6 || m == 9 || m == 11 then 30
    else 31
  }

  /** A date `datetime` accepts: years 1..9999 and a day that exists in its month. */
  predicate IsValid(d: Date) {
    1 <= d.year <= 9999 && 1 <= d.month <= 12 && 1 <= d.day <= DaysInMonth(d.year, d.month)
  }

  predicate IsDigit(c: char) { '0' <= c <= '9' }

  function DigitValue(c: char): (n: nat)
    requires IsDigit(c)
    ensures n <= 9
  {
    c as int - '0' as int
  }

  function DigitChar(n: nat): (c: char)
    requires n <= 9
    ensures IsDigit(c) && DigitValue(c) == n
  {
    ('0' as int + n) as char
  }

  predicate AllDigits(s: string) {
    forall i :: 0 <= i < |s| ==> IsDigit(s[i])
  }

  /** Decimal value of a run of digits. */
  function DigitsValue(s: string): (n: nat)
    requires AllDigits(s)
  {
    if s == [] then 0 else DigitsValue(s[..|s| - 1]) * 10 + DigitValue(s[|s| - 1])
  }

  /**
   * The `%m` alternatives of strptime: `1[0-2]|0[1-9]|[1-9]`, that is one or
   * two digits whose value is a month.
   */
  function MonthToken(t: string): (m: Option<int>)
    ensures m.Some? ==> 1 <= |t| <= 2 && AllDigits(t) && m.value == DigitsValue(t) && 1 <= m.value <= 12
    ensures |t| == 2 && AllDigits(t) && 1 <= DigitsValue(t) <= 12 ==> m.Some?
    ensures |t| == 1 && AllDigits(t) && 1 <= DigitsValue(t) ==> m.Some?
  {
    ShortDigitsValue(t);
    if |t| == 2 && t[0] == '1' && '0' <= t[1] <= '2' then Some(10 + DigitValue(t[1]))
    else if |t| == 2 && t[0] == '0' && '1' <= t[1] <= '9' then Some(DigitValue(t[1]))
    else if |t| == 1 && '1' <= t[0] <= '9' then Some(DigitValue(t[0]))
    else None
  }

  /**
   * The `%d` alternatives of strptime: `3[01]|[12]\d|0[1-9]|[1-9]| [1-9]`,
   * that is one or two digits whose value is 1..31, or a space and a digit 1..9.
   */
  function DayToken(t: string): (d: Option<int>)
    ensures d.Some? ==> 1 <= d.value <= 31
    ensures d.Some? && AllDigits(t) ==> 1 <= |t| <= 2 && d.value == DigitsValue(t)
    ensures d.Some? && !AllDigits(t) ==> |t| == 2 && t[0] == ' ' && IsDigit(t[1]) && d.value == DigitValue(t[1])
    ensures |t| == 2 && AllDigits(t) && 1 <= DigitsValue(t) <= 31 ==> d.Some?
    ensures |t| == 1 && AllDigits(t) && 1 <= DigitsValue(t) ==> d.Some?
    ensures |t| == 2 && t[0] == ' ' && '1' <= t[1] <= '9' ==> d.Some?
  {
    ShortDigitsValue(t);
    if |t| == 2 && t[0] == '3' && (t[1] == '0' || t[1] == '1') then Some(30 + DigitValue(t[1]))
    else if |t| == 2 && (t[0] == '1' || t[0] == '2') && IsDigit(t[1]) then Some(DigitValue(t[0]) * 10 + DigitValue(t[1]))
    else if |t| == 2 && (t[0] == '0' || t[0] == ' ') && '1' <= t[1] <= '9' then Some(DigitValue(t[1]))
    else if |t| == 1 && '1' <= t[0] <= '9' then Some(DigitValue(t[0]))
    else None
  }

  /** The value of a one- or two-digit run, digit by digit. */
  lemma ShortDigitsValue(t: string)
    ensures |t| == 1 && AllDigits(t) ==> DigitsValue(t) == DigitValue(t[0])
    ensures |t| == 2 && AllDigits(t) ==> DigitsValue(t) == DigitValue(t[0]) * 10 + DigitValue(t[1])
  {
    if |t| == 1 && AllDigits(t) {
      assert t[..0] == [];
    }
    if |t| == 2 && AllDigits(t) {
      TwoDigitsValue(t);
    }
  }

  /** Position of the first occurrence of `c` in `s`. */
  function IndexOf(s: string, c: char): (k: Option<nat>)
    ensures k.Some? ==> k.value < |s| && s[k.value] == c && c !in s[..k.value]
    ensures k.None? ==> c !in s
  {
    if s == [] then None
    else if s[0] == c then Some(0)
    else match IndexOf(s[1..], c)
      case None => None
      case Some(k) =>
        assert s[..k + 1] == [s[0]] + s[1..][..k];
        Some(k + 1)
  }

  /**
   * `datetime.strptime(s, '%Y-%m-%d')`: four digits, a dash, a month token,
   * a dash, a day token, nothing left over, and an existing date; None stands
   * for the ValueError strptime raises otherwise.
   */
  function ParseDashed(s: string): (r: Option<Date>)
    ensures r.Some? ==> IsValid(r.value)
    ensures r.Some? ==> |s| >= 5 && AllDigits(s[..4]) && s[4] == '-' && r.value.year == DigitsValue(s[..4])
  {
    if |s| < 5 || !AllDigits(s[..4]) || s[4] != '-' then None
    else
      var rest := s[5..];
      match IndexOf(rest, '-')
      case None => None
      case Some(k) =>
        var m := MonthToken(rest[..k]);
        var d := DayToken(rest[k + 1..]);
        if m.None? || d.None? then None
        else
          var date := Date(DigitsValue(s[..4]), m.value, d.value);
          if IsValid(date) then Some(date) else None
  }

  /** Zero-padded two-digit field (`%m`, `%d`). */
  function Pad2(n: nat): (s: string)
    requires n < 100
    ensures |s| == 2 && AllDigits(s) && DigitsValue(s) == n
  {
    var s := [DigitChar(n / 10), DigitChar(n % 10)];
    TwoDigitsValue(s);
    s
  }

  /** Zero-padded four-digit year (`%Y`). */
  function Pad4(n: nat): (s: string)
    requires n < 10000
    ensures |s| == 4 && AllDigits(s) && DigitsValue(s) == n
  {
    var s := Pad2(n / 100) + Pad2(n % 100);
    FourDigitsValue(s);
    assert s[..2] == Pad2(n / 100) && s[2..] == Pad2(n % 100);
    s
  }

  lemma TwoDigitsValue(t: string)
    requires |t| == 2 && AllDigits(t)
    ensures DigitsValue(t) == DigitValue(t[0]) * 10 + DigitValue(t[1])
  {
    var head := t[..1];
    assert head[..|head| - 1] == [];
    assert DigitsValue(head) == DigitValue(t[0]);
    assert t[..|t| - 1] == head;
  }

  lemma FourDigitsValue(t: string)
    requires |t| == 4 && AllDigits(t)
    ensures DigitsValue(t) == DigitsValue(t[..2]) * 100 + DigitsValue(t[2..])
  {
    TwoDigitsValue(t[..2]);
    TwoDigitsValue(t[2..]);
    var three := t[..3];
    assert three[..|three| - 1] == t[..2];
    assert DigitsValue(three) == DigitsValue(t[..2]) * 10 + DigitValue(t[2]);
    assert t[..|t| - 1] == three;
  }

  /** `strftime('%Y.%m.%d')` of a valid date. */
  function FormatDotted(d: Date): (s: string)
    requires IsValid(d)
    ensures |s| == 10 && s[4] == '.' && s[7] == '.'
  {
    Pad4(d.year) + "." + Pad2(d.month) + "." + Pad2(d.day)
  }

  /**
   * The day-resolution label pandas reads from a `YYYY.MM.DD` bound; only the
   * shape `FormatDotted` produces is recognised.
   */
  function ParseDotted(s: string): (r: Option<Date>)
    ensures r.Some? ==> IsValid(r.value)
  {
    if |s| == 10 && AllDigits(s[..4]) && s[4] == '.' && AllDigits(s[5..7]) && s[7] == '.' && AllDigits(s[8..]) then
      var date := Date(DigitsValue(s[..4]), DigitsValue(s[5..7]), DigitsValue(s[8..]));
      if IsValid(date) then Some(date) else None
    else None
  }

  /**
   * Days since 1970-01-01 of a proleptic Gregorian date (timestamps are
   * naive, so a day starts at a multiple of 86400 seconds). Years are
   * counted from March, so that the leap day closes the year.
   */
  function DayNumber(d: Date): (n: int)
    requires IsValid(d)
    ensures d == Date(1970, 1, 1) ==> n == 0
  {
    var y := if d.month <= 2 then d.year - 1 else d.year;
    var mp := if d.month > 2 then d.month - 3 else d.month + 9;
    MarchYearStart(y) + MonthStart(mp) + d.day - 1 - 719468
  }

  /** Days from 0000-03-01 to the first of March of year `y + 1`'s March-based year `y`. */
  function MarchYearStart(y: int): int {
    var era := y / 400;
    var yoe := y - era * 400;
    era * 146097 + yoe * 365 + yoe / 4 - yoe / 100
  }

  /** Days from the first of March to the first day of the `mp`-th month after it. */
  function MonthStart(mp: int): int {
    (153 * mp + 2) / 5
  }

  /** The calendar day after `d`. */
  function NextDay(d: Date): (n: Date)
    requires IsValid(d)
    ensures d.year < 9999 || d.month < 12 || d.day < 31 ==> IsValid(n)
    ensures n.year == d.year || (n == Date(d.year + 1, 1, 1) && d.month == 12 && d.day == 31)
  {
    if d.day < DaysInMonth(d.year, d.month) then Date(d.year, d.month, d.day + 1)
    else if d.month < 12 then Date(d.year, d.month + 1, 1)
    else Date(d.year + 1, 1, 1)
  }

  /** Day numbers count calendar days: the next date is the next number, across month and year ends. */
  lemma DayNumberNext(d: Date)
    requires IsValid(d) && IsValid(NextDay(d))
    ensures DayNumber(NextDay(d)) == DayNumber(d) + 1
  {
    if d.day < DaysInMonth(d.year, d.month) {
    } else if d.month == 2 {
      MarchYearLength(d.year - 1);
      MonthStartValues(11);
    } else if d.month < 12 {
      var mp := if d.month > 2 then d.month - 3 else d.month + 9;
      MonthStartValues(mp);
      MonthStartValues(mp + 1);
    } else {
      MonthStartValues(9);
      MonthStartValues(10);
    }
  }

  /** The March-based year `y` has 366 days iff February of the calendar year `y + 1` has 29. */
  lemma MarchYearLength(y: int)
    ensures MarchYearStart(y + 1) - MarchYearStart(y) == if IsLeapYear(y + 1) then 366 else 365
  {
    var era := y / 400;
    var yoe := y - era * 400;
    assert 0 <= yoe < 400;
    LeapInEra(era, yoe + 1);
    if yoe < 399 {
      assert (y + 1) / 400 == era;
      StepQuarter(yoe);
      StepCentury(yoe);
    } else {
      assert (y + 1) / 400 == era + 1;
    }
  }

  /** Leap years repeat every 400 years. */
  lemma LeapInEra(era: int, o: int)
    ensures IsLeapYear(era * 400 + o) == IsLeapYear(o)
  {
    ShiftMod4(era * 100, o);
    ShiftMod100(era * 4, o);
    ShiftMod400(era, o);
  }

  lemma ShiftMod4(q: int, o: int)
    ensures (4 * q + o) % 4 == o % 4
  {
  }

  lemma ShiftMod100(q: int, o: int)
    ensures (100 * q + o) % 100 == o % 100
  {
  }

  lemma ShiftMod400(q: int, o: int)
    ensures (400 * q + o) % 400 == o % 400
  {
  }

  lemma StepQuarter(o: int)
    ensures (o + 1) / 4 - o / 4 == if (o + 1) % 4 == 0 then 1 else 0
  {
  }

  lemma StepCentury(o: int)
    ensures (o + 1) / 100 - o / 100 == if (o + 1) % 100 == 0 then 1 else 0
  {
  }

  /** The month starts 0, 31, 61, ... of the March-based year, and how long each month is. */
  lemma MonthStartValues(mp: int)
    requires 0 <= mp < 12
    ensures mp < 11 ==> MonthStart(mp + 1) - MonthStart(mp) == DaysInMonth(2001, if mp < 10 then mp + 3 else mp - 9)
    ensures mp == 11 ==> MonthStart(mp) == 337
    ensures mp == 9 ==> MonthStart(mp) == 275
    ensures mp == 10 ==> MonthStart(mp) == 306
  {
  }

  /** Reformatting keeps the date: pandas reads back exactly the date strptime produced. */
  lemma {:induction false} DottedRoundTrip(d: Date)
    requires IsValid(d)
    ensures ParseDotted(FormatDotted(d)) == Some(d)
  {
    var s := FormatDotted(d);
    assert s[..4] == Pad4(d.year);
    assert s[5..7] == Pad2(d.month);
    assert s[8..] == Pad2(d.day);
  }

  /** The canonical picker shape `YYYY-MM-DD`: digits with dashes at positions 4 and 7. */
  predicate IsCanonicalDashed(s: string) {
    |s| == 10 && AllDigits(s[..4]) && s[4] == '-' && AllDigits(s[5..7]) && s[7] == '-' && AllDigits(s[8..])
  }

  /**
   * The reformatting of lines 211-212 and 258-259 on a canonical date: the
   * same year, month and day digits, dots in place of dashes.
   */
  lemma {:induction false} ReformatKeepsDigits(s: string)
    requires IsCanonicalDashed(s) && ParseDashed(s).Some?
    ensures FormatDotted(ParseDashed(s).value) == s[..4] + "." + s[5..7] + "." + s[8..]
  {
    CanonicalFields(s);
    Pad4Inverse(s[..4]);
    Pad2Inverse(s[5..7]);
    Pad2Inverse(s[8..]);
  }

  /** On the canonical shape the parsed fields are the decimal values of the three digit groups. */
  lemma CanonicalFields(s: string)
    requires IsCanonicalDashed(s) && ParseDashed(s).Some?
    ensures ParseDashed(s).value == Date(DigitsValue(s[..4]), DigitsValue(s[5..7]), DigitsValue(s[8..]))
  {
    var rest := s[5..];
    assert IndexOf(rest, '-') == Some(2) by {
      assert rest[2] == '-' && '-' !in rest[..2];
    }
    assert rest[..2] == s[5..7] && rest[3..] == s[8..];
  }

  /** Every canonical `YYYY-MM-DD` naming an existing date is accepted, as that date. */
  lemma CanonicalAccepted(s: string)
    requires IsCanonicalDashed(s)
    requires IsValid(Date(DigitsValue(s[..4]), DigitsValue(s[5..7]), DigitsValue(s[8..])))
    ensures ParseDashed(s) == Some(Date(DigitsValue(s[..4]), DigitsValue(s[5..7]), DigitsValue(s[8..])))
  {
    var rest := s[5..];
    assert IndexOf(rest, '-') == Some(2) by {
      assert rest[2] == '-' && '-' !in rest[..2];
    }
    assert rest[..2] == s[5..7] && rest[3..] == s[8..];
  }

  lemma Pad2Inverse(t: string)
    requires |t| == 2 && AllDigits(t)
    ensures DigitsValue(t) < 100 && Pad2(DigitsValue(t)) == t
  {
    TwoDigitsValue(t);
  }

  lemma Pad4Inverse(t: string)
    requires |t| == 4 && AllDigits(t)
    ensures DigitsValue(t) < 10000 && Pad4(DigitsValue(t)) == t
  {
    FourDigitsValue(t);
    Pad2Inverse(t[..2]);
    Pad2Inverse(t[2..]);
    var hi, lo := DigitsValue(t[..2]), DigitsValue(t[2..]);
    var n := DigitsValue(t);
    assert n == hi * 100 + lo && lo < 100;
    assert n / 100 == hi && n % 100 == lo;
    assert Pad4(n) == Pad2(hi) + Pad2(lo);
    assert t == t[..2] + t[2..];
  }
}
