/**
 * Due times as the program keeps them: text with a UTC offset. The program orders them by their text;
 * the instant that a text stands for is another matter.
 */
module DueTimes {
  import opened Common

  /** A time as text, such as "2026-07-14T12:00:00+05:30". */
  type Stamp = string

  // ---------------------------------------------------------------- the instant of a text

  predicate IsDigit(c: char) {
    '0' <= c <= '9'
  }

  function Digit(c: char): int {
    c as int - 48
  }

  function Two(s: Stamp, i: nat): int
    requires i + 2 <= |s|
  {
    10 * Digit(s[i]) + Digit(s[i + 1])
  }

  predicate Leap(year: int) {
    year % 4 == 0 && (year % 100 != 0 || year % 400 == 0)
  }

  function DaysInYear(year: int): nat {
    if Leap(year) then 366 else 365
  }

  function DaysInMonth(year: int, month: int): nat {
    if month == 2 then if Leap(year) then 29 else 28
    else if month == 4 || month == 6 || month == 9 || month == 11 then 30 else 31
  }

  /** The days before the year, counted from the year 0. */
  function DaysBeforeYear(year: int): nat {
    if year <= 0 then 0 else DaysBeforeYear(year - 1) + DaysInYear(year - 1)
  }

  function DaysBeforeMonth(year: int, month: int): nat {
    if month <= 1 then 0 else DaysBeforeMonth(year, month - 1) + DaysInMonth(year, month - 1)
  }

  function Year(s: Stamp): int
    requires |s| >= 19
  {
    100 * Two(s, 0) + Two(s, 2)
  }

  function Day(s: Stamp): int
    requires |s| >= 19
  {
    DaysBeforeYear(Year(s)) + DaysBeforeMonth(Year(s), Two(s, 5)) + Two(s, 8) - 1
  }

  /** The seconds of date and clock, as written. */
  function Seconds(s: Stamp): int
    requires |s| >= 19
  {
    ((Day(s) * 24 + Two(s, 11)) * 60 + Two(s, 14)) * 60 + Two(s, 17)
  }

  /** The length of the fraction that follows the seconds, without its point. */
  function FractionLength(t: Stamp): (n: nat)
    ensures n <= |t|
  {
    if t == "" || !IsDigit(t[0]) then 0 else 1 + FractionLength(t[1..])
  }

  /** Milliseconds from the first three digits of a fraction; further digits are dropped. */
  function Fraction(t: Stamp): int {
    (if |t| > 0 then 100 * Digit(t[0]) else 0) + (if |t| > 1 then 10 * Digit(t[1]) else 0) +
    (if |t| > 2 then Digit(t[2]) else 0)
  }

  /** The minutes of an offset such as "+05:30"; "Z" is none. */
  function Offset(t: Stamp): int {
    if |t| < 6 then 0
    else (if t[0] == '-' then -1 else 1) * (60 * Two(t, 1) + Two(t, 4))
  }

  /** The instant that a text stands for, in milliseconds from the beginning of the year 0. */
  function Instant(s: Stamp): int {
    if |s| < 20 then 0
    else
      var fraction := if s[19] == '.' then s[20..20 + FractionLength(s[20..])] else "";
      var zone := if s[19] == '.' then s[20 + |fraction|..] else s[19..];
      1000 * (Seconds(s) - 60 * Offset(zone)) + Fraction(fraction)
  }

  // ---------------------------------------------------------------- the order of texts

  /** The order of strings by their code units. */
  predicate Before(a: Stamp, b: Stamp) {
    if b == "" then false
    else if a == "" then true
    else if a[0] != b[0] then a[0] < b[0]
    else Before(a[1..], b[1..])
  }

  /** The texts agree up to place `p`, where `a` has the lesser character. */
  predicate DiffersAt(a: Stamp, b: Stamp, p: nat) {
    p < |a| && p < |b| && a[..p] == b[..p] && a[p] < b[p]
  }

  /** Of two different texts of one length, one comes first, at the place where they part. */
  lemma {:induction false} OneComesFirst(a: Stamp, b: Stamp) returns (p: nat)
    requires |a| == |b| && a != b
    ensures Before(a, b) <==> DiffersAt(a, b, p)
    ensures Before(b, a) <==> DiffersAt(b, a, p)
    ensures Before(a, b) <==> !Before(b, a)
  {
    if a[0] != b[0] {
      p := 0;
    } else {
      assert a == [a[0]] + a[1..] && b == [b[0]] + b[1..];
      var q := OneComesFirst(a[1..], b[1..]);
      p := q + 1;
      assert a[..p] == [a[0]] + a[1..][..q] && b[..p] == [b[0]] + b[1..][..q];
      assert a[1..][..q] == a[..p][1..] && b[1..][..q] == b[..p][1..];
    }
  }

  lemma {:induction false} NotBeforeItself(a: Stamp)
    ensures !Before(a, a)
  {
    if a == "" {
    } else {
      NotBeforeItself(a[1..]);
    }
  }

  // ---------------------------------------------------------------- canonical texts

  /** The places of the digits in "2026-07-14T11:00:00.000Z". */
  predicate DigitPlace(i: int) {
    0 <= i < 23 && i != 4 && i != 7 && i != 10 && i != 13 && i != 16 && i != 19
  }

  predicate Layout(s: Stamp) {
    && |s| == 24 && s[4] == '-' && s[7] == '-' && s[10] == 'T' && s[13] == ':' && s[16] == ':' && s[19] == '.' &&
       s[23] == 'Z'
    && forall i :: 0 <= i < 23 && DigitPlace(i) ==> IsDigit(s[i])
  }

  /** The form that `toISOString` gives every time of the years 0 to 9999. */
  predicate Canonical(s: Stamp) {
    && Layout(s)
    && 1 <= Two(s, 5) <= 12 && 1 <= Two(s, 8) <= DaysInMonth(Year(s), Two(s, 5))
    && Two(s, 11) <= 23 && Two(s, 14) <= 59 && Two(s, 17) <= 59
  }

  function Millis(s: Stamp): int
    requires |s| == 24
  {
    100 * Digit(s[20]) + 10 * Digit(s[21]) + Digit(s[22])
  }

  lemma CanonicalInstant(s: Stamp)
    requires Layout(s)
    ensures Instant(s) == 1000 * Seconds(s) + Millis(s)
  {
    var t := s[20..];
    assert DigitPlace(20) && DigitPlace(21) && DigitPlace(22);
    assert IsDigit(s[20]) && IsDigit(s[21]) && IsDigit(s[22]) && !IsDigit(s[23]);
    assert t[1..] == s[21..] && t[1..][1..] == s[22..] && t[1..][1..][1..] == s[23..];
    assert FractionLength(s[23..]) == 0;
    assert FractionLength(s[22..]) == 1;
    assert FractionLength(s[21..]) == 2;
    assert FractionLength(t) == 3;
    hide Seconds;
    assert s[23..] == "Z";
  }

  lemma {:induction false} YearsGrow(a: int, b: int)
    requires 0 <= a < b
    ensures DaysBeforeYear(a) + DaysInYear(a) <= DaysBeforeYear(b)
    decreases b
  {
    if a == b - 1 {
    } else {
      YearsGrow(a, b - 1);
    }
  }

  lemma {:induction false} MonthsGrow(year: int, a: int, b: int)
    requires 1 <= a < b
    ensures DaysBeforeMonth(year, a) + DaysInMonth(year, a) <= DaysBeforeMonth(year, b)
    decreases b
  {
    if a == b - 1 {
    } else {
      MonthsGrow(year, a, b - 1);
    }
  }

  lemma YearHolds(year: int, month: int)
    requires 1 <= month <= 12
    ensures DaysBeforeMonth(year, month) + DaysInMonth(year, month) <= DaysInYear(year)
  {
    assert DaysBeforeMonth(year, 1) == 0;
    assert DaysBeforeMonth(year, 3) == DaysBeforeMonth(year, 2) + DaysInMonth(year, 2) == 31 + DaysInMonth(year, 2);
    assert DaysBeforeMonth(year, 5) == DaysBeforeMonth(year, 4) + 30 == DaysBeforeMonth(year, 3) + 61;
    assert DaysBeforeMonth(year, 7) == DaysBeforeMonth(year, 6) + 30 == DaysBeforeMonth(year, 5) + 61;
    assert DaysBeforeMonth(year, 9) == DaysBeforeMonth(year, 8) + 31 == DaysBeforeMonth(year, 7) + 62;
    assert DaysBeforeMonth(year, 11) == DaysBeforeMonth(year, 10) + 31 == DaysBeforeMonth(year, 9) + 61;
    assert DaysBeforeMonth(year, 12) == DaysBeforeMonth(year, 11) + 30;
    if month < 12 {
      MonthsGrow(year, month, 12);
    }
  }

  /** An earlier date, field by field, is an earlier day. */
  lemma DaysGrow(a: Stamp, b: Stamp)
    requires Canonical(a) && Canonical(b)
    requires Year(a) < Year(b) || (Year(a) == Year(b) && Two(a, 5) < Two(b, 5)) ||
             (Year(a) == Year(b) && Two(a, 5) == Two(b, 5) && Two(a, 8) < Two(b, 8))
    ensures Day(a) < Day(b)
  {
    YearHolds(Year(a), Two(a, 5));
    if Year(a) < Year(b) {
      YearsGrow(Year(a), Year(b));
    } else if Two(a, 5) < Two(b, 5) {
      MonthsGrow(Year(a), Two(a, 5), Two(b, 5));
    }
  }

  /** The milliseconds of the clock, within the day. */
  function Clock(s: Stamp): int
    requires |s| == 24
  {
    1000 * ((Two(s, 11) * 60 + Two(s, 14)) * 60 + Two(s, 17)) + Millis(s)
  }

  lemma ClockWithinDay(s: Stamp)
    requires Canonical(s)
    ensures 0 <= Clock(s) < 86_400_000 && Instant(s) == 86_400_000 * Day(s) + Clock(s)
  {
    CanonicalInstant(s);
    Digits(s);
  }

  lemma Digits(s: Stamp)
    requires Layout(s)
    ensures forall i {:trigger s[i]} :: 0 <= i < 23 && DigitPlace(i) ==> 0 <= Digit(s[i]) <= 9
  {
    assert forall i {:trigger s[i]} :: 0 <= i < 23 && DigitPlace(i) ==> IsDigit(s[i]);
  }

  /** The texts part within the date: the year, the month or the day is less. */
  lemma DateFirst(a: Stamp, b: Stamp, p: nat)
    requires Canonical(a) && Canonical(b) && DiffersAt(a, b, p) && p < 10
    ensures Day(a) < Day(b)
  {
    SameUpTo(a, b, p);
    Digits(a);
    Digits(b);
    hide DaysBeforeYear, DaysBeforeMonth, DaysInMonth, Day;
    DaysGrow(a, b);
  }

  lemma SameUpTo(a: Stamp, b: Stamp, p: nat)
    requires DiffersAt(a, b, p)
    ensures forall i {:trigger a[i]} {:trigger b[i]} :: 0 <= i < p ==> a[i] == b[i]
    ensures Digit(a[p]) < Digit(b[p])
  {
    assert forall i :: 0 <= i < p ==> a[..p][i] == b[..p][i];
  }

  lemma SameDay(a: Stamp, b: Stamp)
    requires |a| >= 19 && |b| >= 19 && forall i :: 0 <= i < 10 ==> a[i] == b[i]
    ensures Year(a) == Year(b) && Two(a, 5) == Two(b, 5) && Two(a, 8) == Two(b, 8) && Day(a) == Day(b)
  {
    hide DaysBeforeYear, DaysBeforeMonth;
  }

  lemma ClockLess(a: Stamp, b: Stamp, p: nat)
    requires |a| == |b| == 24 && 10 <= p < 23 && DigitPlace(p) && Digit(a[p]) < Digit(b[p])
    requires forall i {:trigger a[i]} {:trigger b[i]} :: 0 <= i < p ==> a[i] == b[i]
    requires forall i {:trigger a[i]} :: 0 <= i < 23 && DigitPlace(i) ==> 0 <= Digit(a[i]) <= 9
    requires forall i {:trigger b[i]} :: 0 <= i < 23 && DigitPlace(i) ==> 0 <= Digit(b[i]) <= 9
    requires Two(a, 14) <= 59 && Two(a, 17) <= 59
    ensures Clock(a) < Clock(b)
  {
    hide Digit;
    if p < 13 {
      assert Two(a, 11) < Two(b, 11);
    } else if p < 16 {
      assert Two(a, 11) == Two(b, 11) && Two(a, 14) < Two(b, 14);
    } else if p < 19 {
      assert Two(a, 11) == Two(b, 11) && Two(a, 14) == Two(b, 14) && Two(a, 17) < Two(b, 17);
    } else {
      assert Two(a, 11) == Two(b, 11) && Two(a, 14) == Two(b, 14) && Two(a, 17) == Two(b, 17);
      assert Millis(a) < Millis(b);
    }
  }

  /** The texts part within the clock: the day is the same and the clock is less. */
  lemma ClockFirst(a: Stamp, b: Stamp, p: nat)
    requires Canonical(a) && Canonical(b) && DiffersAt(a, b, p) && p >= 10
    ensures Day(a) == Day(b) && Clock(a) < Clock(b)
  {
    SameUpTo(a, b, p);
    Digits(a);
    Digits(b);
    hide Day, Clock, DaysInMonth;
    SameDay(a, b);
    assert p < 23 && DigitPlace(p);
    ClockLess(a, b, p);
  }

  /** Canonical texts are ordered as their instants are. */
  lemma CanonicalOrder(a: Stamp, b: Stamp)
    requires Canonical(a) && Canonical(b)
    ensures Before(a, b) <==> Instant(a) < Instant(b)
    ensures Instant(a) == Instant(b) <==> a == b
  {
    if a == b {
      NotBeforeItself(a);
    } else {
      var p := OneComesFirst(a, b);
      ClockWithinDay(a);
      ClockWithinDay(b);
      if Before(a, b) {
        CanonicalFirst(a, b, p);
      } else {
        CanonicalFirst(b, a, p);
      }
    }
    hide Instant, Before, Canonical;
  }

  lemma CanonicalFirst(a: Stamp, b: Stamp, p: nat)
    requires Canonical(a) && Canonical(b) && DiffersAt(a, b, p)
    ensures Instant(a) < Instant(b)
  {
    hide Instant, Day, Clock;
    ClockWithinDay(a);
    ClockWithinDay(b);
    if p < 10 {
      DateFirst(a, b, p);
    } else {
      ClockFirst(a, b, p);
    }
  }

  /** One text comes before another if it is a proper beginning of it, or has the lesser character where they part. */
  lemma {:induction false} BeforeExactly(a: Stamp, b: Stamp)
    ensures Before(a, b) <==>
              (|a| < |b| && b[..|a|] == a) || exists p: nat {:trigger DiffersAt(a, b, p)} :: DiffersAt(a, b, p)
  {
    if a == "" || b == "" {
    } else {
      var (c, d) := (a[1..], b[1..]);
      BeforeExactly(c, d);
      assert a == [a[0]] + c && b == [b[0]] + d;
      if a[0] < b[0] {
        assert DiffersAt(a, b, 0);
      }
      if a[0] == b[0] {
        if |c| < |d| && d[..|c|] == c {
          assert b[..|a|] == [b[0]] + d[..|c|];
        }
        if |a| < |b| && b[..|a|] == a {
          assert d[..|c|] == b[..|a|][1..];
        }
        if p: nat :| DiffersAt(c, d, p) {
          assert a[..p + 1] == [a[0]] + c[..p] && b[..p + 1] == [b[0]] + d[..p];
          assert DiffersAt(a, b, p + 1);
        }
        if p: nat :| DiffersAt(a, b, p) {
          assert c[..p - 1] == a[..p][1..] && d[..p - 1] == b[..p][1..];
          assert DiffersAt(c, d, p - 1);
        }
      }
    }
  }

  // ---------------------------------------------------------------- the calendar

  /** The Gregorian calendar: a leap day every four years, but not in three of four full centuries. */
  lemma {:induction false} DaysClosed(year: nat)
    ensures DaysBeforeYear(year) == 365 * year + (year + 3) / 4 - (year + 99) / 100 + (year + 399) / 400
  {
    if year == 0 {
    } else {
      DaysClosed(year - 1);
      LeapDays(year - 1);
      OneMoreYear(year - 1);
      hide DaysBeforeYear, DaysInYear;
    }
  }

  lemma OneMoreYear(year: nat)
    ensures DaysBeforeYear(year + 1) == DaysBeforeYear(year) + DaysInYear(year)
  {
  }

  lemma LeapDays(year: nat)
    ensures DaysInYear(year) == 365 + ((year + 4) / 4 - (year + 3) / 4) - ((year + 100) / 100 - (year + 99) / 100) +
              ((year + 400) / 400 - (year + 399) / 400)
  {
    FourthYear(year);
    HundredthYear(year);
    FourHundredthYear(year);
  }

  /** Every fourth year begins a new group of four, and so for a hundred and four hundred. */
  lemma FourthYear(year: nat)
    ensures (year + 4) / 4 - (year + 3) / 4 == if year % 4 == 0 then 1 else 0
  {
  }

  lemma HundredthYear(year: nat)
    ensures (year + 100) / 100 - (year + 99) / 100 == if year % 100 == 0 then 1 else 0
    ensures year % 100 == 0 ==> year % 4 == 0
  {
    if year % 100 == 0 {
      assert year == 4 * (25 * (year / 100));
    }
  }

  lemma FourHundredthYear(year: nat)
    ensures (year + 400) / 400 - (year + 399) / 400 == if year % 400 == 0 then 1 else 0
    ensures year % 400 == 0 ==> year % 100 == 0
  {
    if year % 400 == 0 {
      assert year == 100 * (4 * (year / 400));
    }
  }

  /** The days before each month, and that the months fill the year. */
  lemma MonthStarts(year: int)
    ensures var leap := if year % 4 == 0 && (year % 100 != 0 || year % 400 == 0) then 1 else 0;
            var starts := [0, 31, 59 + leap, 90 + leap, 120 + leap, 151 + leap, 181 + leap, 212 + leap, 243 + leap,
                           273 + leap, 304 + leap, 334 + leap, 365 + leap];
            (forall month :: 1 <= month <= 13 ==> DaysBeforeMonth(year, month) == starts[month - 1]) &&
            DaysInYear(year) == starts[12]
  {
    var leap := if Leap(year) then 1 else 0;
    assert DaysBeforeMonth(year, 1) == 0;
    assert DaysBeforeMonth(year, 3) == DaysBeforeMonth(year, 2) + DaysInMonth(year, 2) == 59 + leap;
    assert DaysBeforeMonth(year, 5) == DaysBeforeMonth(year, 4) + 30 == 120 + leap;
    assert DaysBeforeMonth(year, 7) == DaysBeforeMonth(year, 6) + 30 == 181 + leap;
    assert DaysBeforeMonth(year, 9) == DaysBeforeMonth(year, 8) + 31 == 243 + leap;
    assert DaysBeforeMonth(year, 11) == DaysBeforeMonth(year, 10) + 31 == 304 + leap;
    assert DaysBeforeMonth(year, 13) == DaysBeforeMonth(year, 12) + 31 == 365 + leap;
    hide DaysInMonth;
  }

  /** The epoch of the program's clock is 719,528 days into the calendar. */
  lemma EpochInstant()
    ensures Instant("1970-01-01T00:00:00.000Z") == 719_528 * 86_400_000
  {
    hide *;
    var s := "1970-01-01T00:00:00.000Z";
    EpochReadings();
    CanonicalInstant(s);
    EpochSeconds(s);
  }

  lemma EpochSeconds(s: Stamp)
    requires |s| == 24 && Year(s) == 1970 && Two(s, 8) == 1 && DaysBeforeMonth(1970, Two(s, 5)) == 0
    requires Two(s, 11) == 0 && Two(s, 14) == 0 && Two(s, 17) == 0
    ensures Seconds(s) == 719_528 * 86_400
  {
    hide DaysBeforeYear, DaysBeforeMonth, Year, Two;
    DaysClosed(1970);
  }

  lemma EpochReadings()
    ensures var s := "1970-01-01T00:00:00.000Z";
            |s| == 24 && Layout(s) && Year(s) == 1970 && Two(s, 5) == 1 && Two(s, 8) == 1 && Two(s, 11) == 0 &&
            Two(s, 14) == 0 && Two(s, 17) == 0 && Millis(s) == 0 && DaysBeforeMonth(1970, Two(s, 5)) == 0
  {
    hide DaysBeforeYear;
    var s := "1970-01-01T00:00:00.000Z";
    assert |s| == 24 && s[4] == '-' && s[7] == '-' && s[10] == 'T' && s[13] == ':' && s[16] == ':' && s[19] == '.' &&
        s[23] == 'Z';
  }

  lemma SameSeconds(base: string, x: string, y: string)
    requires |base| == 19
    ensures Seconds(base + x) == Seconds(base + y)
  {
    var (s, t) := (base + x, base + y);
    assert forall i :: 0 <= i < 19 ==> s[i] == t[i];
    SameDay(s, t);
    hide Day;
  }

  /** A text with the offset "+hh:mm" stands for an instant that much earlier, one with "-hh:mm" for a later one. */
  lemma ZoneShifts(base: string, hours: string, minutes: string)
    requires |base| == 19 && |hours| == 2 && |minutes| == 2
    ensures var shift := 3_600_000 * Two(hours, 0) + 60_000 * Two(minutes, 0);
            Instant(base + ("+" + hours + ":" + minutes)) == Instant(base + "Z") - shift &&
            Instant(base + ("-" + hours + ":" + minutes)) == Instant(base + "Z") + shift
  {
    WholeInstant(base, "Z");
    WholeInstant(base, "+" + hours + ":" + minutes);
    WholeInstant(base, "-" + hours + ":" + minutes);
    SameSeconds(base, "Z", "+" + hours + ":" + minutes);
    SameSeconds(base, "Z", "-" + hours + ":" + minutes);
    hide Seconds, Instant;
  }

  lemma WholeInstant(base: string, zone: string)
    requires |base| == 19 && zone != "" && zone[0] != '.'
    ensures Instant(base + zone) == 1000 * (Seconds(base + zone) - 60 * Offset(zone))
  {
    assert (base + zone)[19..] == zone;
    hide Seconds, Offset;
    assert Fraction("") == 0;
  }

  /** The digits of a fraction are tenths, hundredths and thousandths of a second; any more are dropped. */
  lemma FractionReads(base: string, digits: string, zone: string)
    requires |base| == 19 && zone != "" && zone[0] != '.' && !IsDigit(zone[0])
    requires digits != "" && forall i :: 0 <= i < |digits| ==> IsDigit(digits[i])
    ensures Instant(base + ("." + digits + zone)) == Instant(base + zone) + 100 * Digit(digits[0]) +
              (if |digits| >= 2 then 10 * Digit(digits[1]) else 0) + (if |digits| >= 3 then Digit(digits[2]) else 0)
  {
    var s := base + ("." + digits + zone);
    WholeInstant(base, zone);
    SameSeconds(base, zone, "." + digits + zone);
    FractionEnds(digits, zone);
    assert s[20..] == digits + zone && s[19] == '.';
    assert s[20..20 + |digits|] == digits && s[20 + |digits|..] == zone;
    hide Seconds, Offset, FractionLength;
  }

  lemma {:induction false} FractionEnds(digits: string, zone: string)
    requires zone != "" && !IsDigit(zone[0]) && forall i :: 0 <= i < |digits| ==> IsDigit(digits[i])
    ensures FractionLength(digits + zone) == |digits|
  {
    if digits == "" {
      assert digits + zone == zone;
    } else {
      assert (digits + zone)[1..] == digits[1..] + zone;
      FractionEnds(digits[1..], zone);
    }
  }

  // ---------------------------------------------------------------- text order is not time order

  const NOON_WITH_OFFSET: Stamp := "2026-07-14T12:00:00+05:30"
  const ELEVEN_UTC: Stamp := "2026-07-14T11:00:00.000Z"

  /** The text of eleven o'clock comes first, and noon five and a half hours east is earlier. */
  lemma OffsetsMislead()
    ensures Before(ELEVEN_UTC, NOON_WITH_OFFSET) && Instant(NOON_WITH_OFFSET) < Instant(ELEVEN_UTC)
    ensures Canonical(ELEVEN_UTC)
  {
    ElevenCanonical();
    ElevenFirst();
    CanonicalInstant(ELEVEN_UTC);
    NoonInstant();
    ClockReadings();
    hide Day, Before, Instant, Canonical, Layout;
  }

  lemma ElevenFirst()
    ensures Before(ELEVEN_UTC, NOON_WITH_OFFSET) && Day(ELEVEN_UTC) == Day(NOON_WITH_OFFSET)
  {
    var a, b := ELEVEN_UTC, NOON_WITH_OFFSET;
    assert forall i :: 0 <= i < 12 ==> a[i] == b[i];
    assert a[..12] == b[..12];
    hide Day;
    CommonStart(a, b, 12);
    SameDay(a, b);
  }

  lemma ClockReadings()
    ensures Seconds(ELEVEN_UTC) == 86_400 * Day(ELEVEN_UTC) + 39_600 && Millis(ELEVEN_UTC) == 0
    ensures Seconds(NOON_WITH_OFFSET) == 86_400 * Day(NOON_WITH_OFFSET) + 43_200
  {
    hide Day;
    var a, b := ELEVEN_UTC, NOON_WITH_OFFSET;
    assert Two(a, 11) == 11 && Two(a, 14) == 0 && Two(a, 17) == 0;
    assert Two(b, 11) == 12 && Two(b, 14) == 0 && Two(b, 17) == 0;
  }

  lemma ElevenCanonical()
    ensures Canonical(ELEVEN_UTC)
  {
    var a := ELEVEN_UTC;
    assert |a| == 24 && a[4] == '-' && a[7] == '-' && a[10] == 'T' && a[13] == ':' && a[16] == ':' && a[19] == '.' &&
        a[23] == 'Z';
    assert Layout(a);
    assert Two(a, 5) == 7 && Two(a, 8) == 14 && Two(a, 11) == 11 && Two(a, 14) == 0 && Two(a, 17) == 0;
  }

  lemma NoonInstant()
    ensures Instant(NOON_WITH_OFFSET) == 1000 * (Seconds(NOON_WITH_OFFSET) - 60 * 330)
  {
    var b := NOON_WITH_OFFSET;
    var zone := b[19..];
    assert b[19] == '+' && |zone| == 6;
    assert zone[0] == b[19] && zone[1] == b[20] && zone[2] == b[21] && zone[4] == b[23] && zone[5] == b[24];
    assert Two(zone, 1) == 5 && Two(zone, 4) == 30;
    hide Seconds;
    assert Fraction("") == 0;
  }

  lemma {:induction false} CommonStart(a: Stamp, b: Stamp, p: nat)
    requires DiffersAt(a, b, p)
    ensures Before(a, b)
    decreases p
  {
    if p == 0 {
    } else {
      assert a[0] == a[..p][0] == b[..p][0] == b[0];
      assert a[1..][..p - 1] == a[..p][1..] && b[1..][..p - 1] == b[..p][1..];
      CommonStart(a[1..], b[1..], p - 1);
    }
  }
}
