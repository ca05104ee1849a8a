/**
  UTC timestamps as the stores write them: ISO 8601 strings that are compared as plain text.
  The fraction of a second is left out when it is zero, so the strings differ in length.
 */
module Timestamps {
  import opened Text

  /******* The calendar *******/

  predicate IsLeap(year: nat) {
    year % 4 == 0 && (year % 100 != 0 || year % 400 == 0)
  }

  function DaysInMonth(year: nat, month: nat): (days: nat)
    requires 1 <= month <= 12
    ensures 28 <= days <= 31
  {
    if month == 2 then (if IsLeap(year) then 29 else 28)
    else if month in {4, 6, 9, 11} then 30
    else 31
  }

  datatype RawDateTime = RawDateTime(
    year: nat, month: nat, day: nat, hour: nat, minute: nat, second: nat, micro: nat)
  {
    predicate Valid() {
      && 1 <= year <= 9999 && 1 <= month <= 12 && 1 <= day <= DaysInMonth(year, month)
      && hour < 24 && minute < 60 && second < 60 && micro < 1_000_000
    }
  }

  type DateTime = d: RawDateTime | d.Valid() witness RawDateTime(1, 1, 1, 0, 0, 0, 0)

  function DaysBeforeYear(year: nat): nat
    requires year >= 1
  {
    (year - 1) * 365 + (year - 1) / 4 - (year - 1) / 100 + (year - 1) / 400
  }

  function DaysBeforeMonth(year: nat, month: nat): nat
    requires 1 <= month <= 12
  {
    if month == 1 then 0 else DaysBeforeMonth(year, month - 1) + DaysInMonth(year, month - 1)
  }

  /** The number of a day in the proleptic Gregorian calendar; day 1 is 0001-01-01. */
  function Ordinal(d: DateTime): nat {
    DaysBeforeYear(d.year) + DaysBeforeMonth(d.year, d.month) + d.day
  }

  const MICROS_PER_DAY := 86_400_000_000

  function MicrosOfDay(d: DateTime): (m: nat)
    ensures m < MICROS_PER_DAY
  {
    ((d.hour * 60 + d.minute) * 60 + d.second) * 1_000_000 + d.micro
  }

  /** The moment a timestamp denotes, in microseconds. */
  function Instant(d: DateTime): nat {
    Ordinal(d) * MICROS_PER_DAY + MicrosOfDay(d)
  }

  /******* The text form *******/

  /** The last `width` decimal digits of `n`, zeros included. */
  function Pad(n: nat, width: nat): (s: string)
    ensures |s| == width && AllDigits(s)
  {
    if width == 0 then "" else Pad(n / 10, width - 1) + [DigitChar(n % 10)]
  }

  const UTC_OFFSET := "+00:00"

  function Fraction(micro: nat): string {
    if micro == 0 then UTC_OFFSET else "." + Pad(micro, 6) + UTC_OFFSET
  }

  function IsoFormat(d: DateTime): string {
    Pad(d.year, 4) + ("-" + (Pad(d.month, 2) + ("-" + (Pad(d.day, 2) + ("T" + (Pad(d.hour, 2) + (":"
      + (Pad(d.minute, 2) + (":" + (Pad(d.second, 2) + Fraction(d.micro)))))))))))
  }

  /** Comparison of texts character by character, a proper prefix being less. */
  predicate TextLess(s: string, t: string) {
    t != "" && (s == "" || s[0] < t[0] || (s[0] == t[0] && TextLess(s[1..], t[1..])))
  }

  /******* Comparing texts *******/

  lemma {:induction false} TextLessIrreflexive(s: string)
    ensures !TextLess(s, s)
  {
    if s == "" {
    } else {
      TextLessIrreflexive(s[1..]);
    }
  }

  /** Behind heads of equal length, the heads decide unless they are equal. */
  lemma {:induction false} HeadsDecide(a: string, b: string, s: string, t: string)
    requires |a| == |b|
    ensures TextLess(a + s, b + t) <==> TextLess(a, b) || (a == b && TextLess(s, t))
  {
    if a == "" {
      assert a + s == s && b + t == t;
    } else {
      HeadsDecide(a[1..], b[1..], s, t);
      assert (a + s)[1..] == a[1..] + s && (b + t)[1..] == b[1..] + t;
      assert a == b <==> a[0] == b[0] && a[1..] == b[1..] by {
        assert a == [a[0]] + a[1..] && b == [b[0]] + b[1..];
      }
    }
  }

  lemma CommonHead(a: string, s: string, t: string)
    ensures TextLess(a + s, a + t) <==> TextLess(s, t)
  {
    HeadsDecide(a, a, s, t);
    TextLessIrreflexive(a);
  }

  function Pow10(k: nat): (p: nat)
    ensures p >= 1
  {
    if k == 0 then 1 else 10 * Pow10(k - 1)
  }

  lemma SameSplit(a: string, b: string, s: string, t: string)
    requires |a| == |b|
    ensures a + s == b + t <==> a == b && s == t
  {
    if a + s == b + t {
      assert a == (a + s)[..|a|] == (b + t)[..|b|] == b;
      assert s == (a + s)[|a|..] == (b + t)[|b|..] == t;
    }
  }

  /** Numerals of the same width are ordered like their numbers. */
  lemma {:induction false} PadOrder(m: nat, n: nat, width: nat)
    requires m < Pow10(width) && n < Pow10(width)
    ensures TextLess(Pad(m, width), Pad(n, width)) <==> m < n
    ensures Pad(m, width) == Pad(n, width) <==> m == n
  {
    if width == 0 {
    } else {
      PadOrder(m / 10, n / 10, width - 1);
      var a, b := Pad(m / 10, width - 1), Pad(n / 10, width - 1);
      HeadsDecide(a, b, [DigitChar(m % 10)], [DigitChar(n % 10)]);
      SameSplit(a, b, [DigitChar(m % 10)], [DigitChar(n % 10)]);
    }
  }

  /** One field of the text form: the numeral decides, and on a tie the rest does. */
  lemma FieldDecides(m: nat, n: nat, width: nat, separator: string, s: string, t: string)
    requires m < Pow10(width) && n < Pow10(width)
    ensures TextLess(Pad(m, width) + (separator + s), Pad(n, width) + (separator + t)) <==>
              m < n || (m == n && TextLess(s, t))
  {
    PadOrder(m, n, width);
    HeadsDecide(Pad(m, width), Pad(n, width), separator + s, separator + t);
    CommonHead(separator, s, t);
  }

  /** A missing fraction sorts before every fraction, because '+' is before '.'. */
  lemma FractionOrder(m: nat, n: nat)
    requires m < 1_000_000 && n < 1_000_000
    ensures TextLess(Fraction(m), Fraction(n)) <==> m < n
  {
    hide Pad;
    if m == 0 || n == 0 {
      TextLessIrreflexive(UTC_OFFSET);
      assert UTC_OFFSET[0] == '+' && '+' < '.';
    } else {
      assert Pow10(6) == 1_000_000;
      PadOrder(m, n, 6);
      assert Fraction(m) == "." + (Pad(m, 6) + UTC_OFFSET) && Fraction(n) == "." + (Pad(n, 6) + UTC_OFFSET);
      CommonHead(".", Pad(m, 6) + UTC_OFFSET, Pad(n, 6) + UTC_OFFSET);
      HeadsDecide(Pad(m, 6), Pad(n, 6), UTC_OFFSET, UTC_OFFSET);
      TextLessIrreflexive(UTC_OFFSET);
    }
  }

  /******* Comparing moments *******/

  predicate TimeEarlier(d: DateTime, e: DateTime) {
    d.hour < e.hour || (d.hour == e.hour &&
      (d.minute < e.minute || (d.minute == e.minute &&
        (d.second < e.second || (d.second == e.second && d.micro < e.micro)))))
  }

  predicate DateEarlier(d: DateTime, e: DateTime) {
    d.year < e.year || (d.year == e.year &&
      (d.month < e.month || (d.month == e.month && d.day < e.day)))
  }

  predicate SameDate(d: DateTime, e: DateTime) {
    d.year == e.year && d.month == e.month && d.day == e.day
  }

  predicate FieldsEarlier(d: DateTime, e: DateTime) {
    DateEarlier(d, e) || (SameDate(d, e) && TimeEarlier(d, e))
  }

  lemma YearLength(y: nat)
    requires y >= 1
    ensures DaysBeforeYear(y + 1) == DaysBeforeYear(y) + 365 + (if IsLeap(y) then 1 else 0)
  {
    var q4, q100, q400 := (y - 1) / 4, (y - 1) / 100, (y - 1) / 400;
    assert y / 4 == if y % 4 == 0 then q4 + 1 else q4;
    assert y / 100 == if y % 100 == 0 then q100 + 1 else q100;
    assert y / 400 == if y % 400 == 0 then q400 + 1 else q400;
    assert y % 100 == 0 ==> y % 4 == 0;
    assert y % 400 == 0 ==> y % 100 == 0;
  }

  lemma {:induction false} YearOrder(y: nat, z: nat)
    requires 1 <= y < z
    ensures DaysBeforeYear(y) + 365 + (if IsLeap(y) then 1 else 0) <= DaysBeforeYear(z)
    decreases z
  {
    if y + 1 < z {
      YearOrder(y, z - 1);
      YearLength(z - 1);
    } else {
      YearLength(y);
    }
  }

  lemma {:induction false} MonthOrder(year: nat, m: nat, n: nat)
    requires 1 <= m < n <= 12
    ensures DaysBeforeMonth(year, m) + DaysInMonth(year, m) <= DaysBeforeMonth(year, n)
    decreases n
  {
    if m + 1 < n {
      MonthOrder(year, m, n - 1);
    }
  }

  /** The whole year has as many days as its months. */
  lemma MonthsFillYear(year: nat)
    ensures DaysBeforeMonth(year, 12) + DaysInMonth(year, 12) == 365 + (if IsLeap(year) then 1 else 0)
  {
    var f := DaysInMonth(year, 2);
    assert DaysBeforeMonth(year, 2) == 31;
    assert DaysBeforeMonth(year, 3) == 31 + f;
    assert DaysBeforeMonth(year, 4) == 62 + f;
    assert DaysBeforeMonth(year, 5) == 92 + f;
    assert DaysBeforeMonth(year, 6) == 123 + f;
    assert DaysBeforeMonth(year, 7) == 153 + f;
    assert DaysBeforeMonth(year, 8) == 184 + f;
    assert DaysBeforeMonth(year, 9) == 215 + f;
    assert DaysBeforeMonth(year, 10) == 245 + f;
    assert DaysBeforeMonth(year, 11) == 276 + f;
    assert DaysBeforeMonth(year, 12) == 306 + f;
  }

  lemma EarlierDateLessOrdinal(d: DateTime, e: DateTime)
    requires DateEarlier(d, e)
    ensures Ordinal(d) < Ordinal(e)
  {
    if d.year < e.year {
      YearOrder(d.year, e.year);
      MonthsFillYear(d.year);
      if d.month < 12 {
        MonthOrder(d.year, d.month, 12);
      }
    } else if d.month < e.month {
      MonthOrder(d.year, d.month, e.month);
    }
  }

  lemma DateOrder(d: DateTime, e: DateTime)
    ensures Ordinal(d) < Ordinal(e) <==> DateEarlier(d, e)
    ensures Ordinal(d) == Ordinal(e) <==> SameDate(d, e)
  {
    if DateEarlier(d, e) {
      EarlierDateLessOrdinal(d, e);
    } else if DateEarlier(e, d) {
      EarlierDateLessOrdinal(e, d);
    }
  }

  /** Four centuries have 146097 days, their leap days falling on years like 2000 and 2024 but not on 1900, and
      1 March 2000 and the last day that can be written have the numbers they should. */
  lemma CalendarIsGregorian(y: nat)
    requires y >= 1
    ensures DaysBeforeYear(y + 400) == DaysBeforeYear(y) + 146_097
    ensures DaysInMonth(1900, 2) == 28 && DaysInMonth(2000, 2) == DaysInMonth(2024, 2) == 29
    ensures Ordinal(RawDateTime(2000, 3, 1, 0, 0, 0, 0)) == 730_180
    ensures Ordinal(RawDateTime(9999, 12, 31, 0, 0, 0, 0)) == 3_652_059
  {
    assert (y + 399) / 4 == (y - 1) / 4 + 100 && (y + 399) / 100 == (y - 1) / 100 + 4;
    assert DaysBeforeMonth(2000, 2) == 31;
    assert DaysBeforeMonth(2000, 3) == 60;
    MonthsFillYear(9999);
  }

  lemma InstantOrder(d: DateTime, e: DateTime)
    ensures Instant(d) < Instant(e) <==> FieldsEarlier(d, e)
  {
    DateOrder(d, e);
    if Ordinal(d) != Ordinal(e) {
      assert Ordinal(d) < Ordinal(e) ==> Ordinal(d) * MICROS_PER_DAY + MICROS_PER_DAY <= Ordinal(e) * MICROS_PER_DAY;
      assert Ordinal(e) < Ordinal(d) ==> Ordinal(e) * MICROS_PER_DAY + MICROS_PER_DAY <= Ordinal(d) * MICROS_PER_DAY;
    }
  }

  lemma TextOrder(d: DateTime, e: DateTime)
    ensures TextLess(IsoFormat(d), IsoFormat(e)) <==> FieldsEarlier(d, e)
  {
    hide TextLess, Fraction, Pad;
    assert Pow10(2) == 100;
    assert Pow10(4) == 10000;
    FractionOrder(d.micro, e.micro);
    PadOrder(d.second, e.second, 2);
    var d1, e1 := Pad(d.second, 2) + Fraction(d.micro), Pad(e.second, 2) + Fraction(e.micro);
    HeadsDecide(Pad(d.second, 2), Pad(e.second, 2), Fraction(d.micro), Fraction(e.micro));
    var d2, e2 := Pad(d.minute, 2) + (":" + d1), Pad(e.minute, 2) + (":" + e1);
    FieldDecides(d.minute, e.minute, 2, ":", d1, e1);
    var d3, e3 := Pad(d.hour, 2) + (":" + d2), Pad(e.hour, 2) + (":" + e2);
    FieldDecides(d.hour, e.hour, 2, ":", d2, e2);
    var d4, e4 := Pad(d.day, 2) + ("T" + d3), Pad(e.day, 2) + ("T" + e3);
    FieldDecides(d.day, e.day, 2, "T", d3, e3);
    var d5, e5 := Pad(d.month, 2) + ("-" + d4), Pad(e.month, 2) + ("-" + e4);
    FieldDecides(d.month, e.month, 2, "-", d4, e4);
    FieldDecides(d.year, e.year, 4, "-", d5, e5);
  }

  /** Comparing two stored timestamps as texts is comparing the moments they denote. */
  lemma TextOrderIsTimeOrder(d: DateTime, e: DateTime)
    ensures TextLess(IsoFormat(d), IsoFormat(e)) <==> Instant(d) < Instant(e)
  {
    TextOrder(d, e);
    InstantOrder(d, e);
  }

  /** No two timestamps are written alike. */
  lemma IsoFormatInjective(d: DateTime, e: DateTime)
    requires IsoFormat(d) == IsoFormat(e)
    ensures d == e
  {
    TextOrder(d, e);
    TextOrder(e, d);
    TextLessIrreflexive(IsoFormat(d));
  }

  /******* Adding a duration *******/

  const MAX_ORDINAL: nat := DaysBeforeYear(10000)

  lemma OrdinalInRange(d: DateTime)
    ensures 1 <= Ordinal(d) <= MAX_ORDINAL
  {
    MonthsFillYear(d.year);
    if d.month < 12 {
      MonthOrder(d.year, d.month, 12);
    }
    YearOrder(d.year, 10000);
  }

  /** The year a day falls in, searched from `year` on. */
  function YearOf(ordinal: nat, year: nat): (y: nat)
    requires 1 <= year <= 9999 && DaysBeforeYear(year) < ordinal <= MAX_ORDINAL
    ensures 1 <= y <= 9999 && DaysBeforeYear(y) < ordinal <= DaysBeforeYear(y + 1)
    decreases 9999 - year
  {
    if ordinal <= DaysBeforeYear(year + 1) then year
    else
      assert year < 9999;
      YearOf(ordinal, year + 1)
  }

  /** The month that the `day`-th day of a year falls in, searched from `month` on. */
  function MonthOf(year: nat, day: nat, month: nat): (m: nat)
    requires 1 <= month <= 12 && DaysBeforeMonth(year, month) < day
    requires day <= DaysBeforeMonth(year, 12) + DaysInMonth(year, 12)
    ensures 1 <= m <= 12 && DaysBeforeMonth(year, m) < day <= DaysBeforeMonth(year, m) + DaysInMonth(year, m)
    decreases 12 - month
  {
    if day <= DaysBeforeMonth(year, month) + DaysInMonth(year, month) then month
    else MonthOf(year, day, month + 1)
  }

  lemma SplitTime(rest: nat)
    requires rest < MICROS_PER_DAY
    ensures var seconds := rest / 1_000_000;
            && seconds / 3600 < 24
            && ((seconds / 3600 * 60 + seconds / 60 % 60) * 60 + seconds % 60) * 1_000_000 + rest % 1_000_000 == rest
  {
    var seconds := rest / 1_000_000;
    var minutes := seconds / 60;
    assert seconds == minutes * 60 + seconds % 60;
    assert minutes == minutes / 60 * 60 + minutes % 60;
    assert seconds / 3600 == minutes / 60;
    assert rest == seconds * 1_000_000 + rest % 1_000_000;
  }

  /** The timestamp of an instant; the inverse of `Instant`. */
  function FromInstant(instant: nat): (d: DateTime)
    requires MICROS_PER_DAY <= instant < (MAX_ORDINAL + 1) * MICROS_PER_DAY
    ensures Instant(d) == instant
  {
    var ordinal, rest := instant / MICROS_PER_DAY, instant % MICROS_PER_DAY;
    assert 1 <= ordinal <= MAX_ORDINAL;
    assert DaysBeforeYear(1) == 0;
    var year := YearOf(ordinal, 1);
    var dayOfYear := ordinal - DaysBeforeYear(year);
    MonthsFillYear(year);
    YearLength(year);
    var month := MonthOf(year, dayOfYear, 1);
    var seconds := rest / 1_000_000;
    var d: RawDateTime := RawDateTime(year, month, dayOfYear - DaysBeforeMonth(year, month),
      seconds / 3600, seconds / 60 % 60, seconds % 60, rest % 1_000_000);
    SplitTime(rest);
    d
  }

  /** A timestamp some microseconds later; nothing when that is after the year 9999. */
  function Later(d: DateTime, micros: nat): (r: Option<DateTime>)
    ensures r.Some? ==> Instant(r.value) == Instant(d) + micros
    ensures r.None? <==> Instant(d) + micros >= (MAX_ORDINAL + 1) * MICROS_PER_DAY
  {
    OrdinalInRange(d);
    if Instant(d) + micros >= (MAX_ORDINAL + 1) * MICROS_PER_DAY then None
    else Some(FromInstant(Instant(d) + micros))
  }
}
