/** Timestamp columns hold text (section 5.6 of RFC 3339, always UTC and "Z") and are
    compared as text. An instant is a number of whole seconds since the start of year 0
    of the proleptic Gregorian calendar; sub-second digits are not printed. */
module Timestamps {

  const SECONDS_PER_DAY: nat := 86400

  // ----- Calendar -----

  predicate LeapYear(y: nat) {
    y % 4 == 0 && (y % 100 != 0 || y % 400 == 0)
  }

  function DaysInYear(y: nat): nat {
    if LeapYear(y) then 366 else 365
  }

  /** Days in month m (0 = January); 0 when there is no such month. */
  function DaysInMonth(y: nat, m: nat): nat {
    if m == 1 then (if LeapYear(y) then 29 else 28)
    else if m == 3 || m == 5 || m == 8 || m == 10 then 30
    else if m < 12 then 31
    else 0
  }

  function DaysBeforeYear(y: nat): nat {
    if y == 0 then 0 else DaysBeforeYear(y - 1) + DaysInYear(y - 1)
  }

  function DaysBeforeMonth(y: nat, m: nat): nat {
    if m == 0 then 0 else DaysBeforeMonth(y, m - 1) + DaysInMonth(y, m - 1)
  }

  /** A civil date and time; month and day count from zero. */
  datatype Civil = Civil(year: nat, month: nat, day: nat, hour: nat, minute: nat, second: nat) {
    predicate Valid() {
      month < 12 && day < DaysInMonth(year, month) && hour < 24 && minute < 60 && second < 60
    }

    function DayNumber(): nat {
      DaysBeforeYear(year) + DaysBeforeMonth(year, month) + day
    }

    function Seconds(): nat {
      ((DayNumber() * 24 + hour) * 60 + minute) * 60 + second
    }

    /** The order of calendar fields, most significant first. */
    predicate Before(c: Civil) {
      year < c.year || (year == c.year && (
      month < c.month || (month == c.month && (
      day < c.day || (day == c.day && (
      hour < c.hour || (hour == c.hour && (
      minute < c.minute || (minute == c.minute && second < c.second)))))))))
    }
  }

  lemma YearIsItsMonths(y: nat)
    ensures DaysBeforeMonth(y, 12) == DaysInYear(y)
  {
    assert DaysBeforeMonth(y, 1) == 31;
    assert DaysBeforeMonth(y, 2) == 31 + DaysInMonth(y, 1);
    assert DaysBeforeMonth(y, 4) == DaysBeforeMonth(y, 2) + 61;
    assert DaysBeforeMonth(y, 6) == DaysBeforeMonth(y, 4) + 61;
    assert DaysBeforeMonth(y, 8) == DaysBeforeMonth(y, 6) + 62;
    assert DaysBeforeMonth(y, 10) == DaysBeforeMonth(y, 8) + 61;
    assert DaysBeforeMonth(y, 12) == DaysBeforeMonth(y, 10) + 61;
  }

  lemma {:induction false} MonthsMonotone(y: nat, m: nat, n: nat)
    requires m < n
    ensures DaysBeforeMonth(y, m) + DaysInMonth(y, m) <= DaysBeforeMonth(y, n)
  {
    if m + 1 < n { MonthsMonotone(y, m, n - 1); }
  }

  lemma {:induction false} YearsMonotone(y: nat, z: nat)
    requires y < z
    ensures DaysBeforeYear(y) + DaysInYear(y) <= DaysBeforeYear(z)
  {
    if y + 1 < z { YearsMonotone(y, z - 1); }
  }

  lemma DayWithinYear(c: Civil)
    requires c.Valid()
    ensures DaysBeforeMonth(c.year, c.month) + c.day < DaysInYear(c.year)
  {
    MonthsMonotone(c.year, c.month, 12);
    YearIsItsMonths(c.year);
  }

  lemma EarlierDay(a: Civil, b: Civil)
    requires a.Valid() && b.Valid()
    requires a.year < b.year || (a.year == b.year && (a.month < b.month || (a.month == b.month && a.day < b.day)))
    ensures a.DayNumber() < b.DayNumber()
  {
    if a.year < b.year {
      DayWithinYear(a);
      YearsMonotone(a.year, b.year);
    } else if a.month < b.month {
      MonthsMonotone(a.year, a.month, b.month);
    }
  }

  /** Calendar order is time order. */
  lemma CivilOrderIsTimeOrder(a: Civil, b: Civil)
    requires a.Valid() && b.Valid()
    ensures a.Before(b) <==> a.Seconds() < b.Seconds()
    ensures a == b <==> a.Seconds() == b.Seconds()
  {
    if a.Before(b) {
      EarlierSeconds(a, b);
    } else if b.Before(a) {
      EarlierSeconds(b, a);
    }
  }

  lemma EarlierSeconds(a: Civil, b: Civil)
    requires a.Valid() && b.Valid() && a.Before(b)
    ensures a.Seconds() < b.Seconds()
  {
    if a.year == b.year && a.month == b.month && a.day == b.day {
      assert a.DayNumber() == b.DayNumber();
    } else {
      EarlierDay(a, b);
    }
  }

  // ----- From seconds to a calendar date -----

  function YearOf(days: nat, y: nat): (r: (nat, nat))
    ensures r.1 < DaysInYear(r.0)
    ensures DaysBeforeYear(r.0) + r.1 == DaysBeforeYear(y) + days
    decreases days
  {
    if days < DaysInYear(y) then (y, days) else YearOf(days - DaysInYear(y), y + 1)
  }

  function MonthOf(y: nat, days: nat, m: nat): (r: (nat, nat))
    requires m <= 12 && DaysBeforeMonth(y, m) + days < DaysBeforeMonth(y, 12)
    ensures r.0 < 12 && r.1 < DaysInMonth(y, r.0)
    ensures DaysBeforeMonth(y, r.0) + r.1 == DaysBeforeMonth(y, m) + days
    decreases 12 - m
  {
    if days < DaysInMonth(y, m) then (m, days) else MonthOf(y, days - DaysInMonth(y, m), m + 1)
  }

  /** The civil date and time of an instant; with Seconds a round trip. */
  function CivilOf(instant: nat): (c: Civil)
    ensures c.Valid() && c.Seconds() == instant
  {
    var (year, dayOfYear) := YearOf(instant / SECONDS_PER_DAY, 0);
    YearIsItsMonths(year);
    var (month, day) := MonthOf(year, dayOfYear, 0);
    var rest := instant % SECONDS_PER_DAY;
    Civil(year, month, day, rest / 3600, rest / 60 % 60, rest % 60)
  }

  /** The first instant of year 10000: texts have a fixed width before it. */
  function EndOfYear9999(): nat {
    DaysBeforeYear(10000) * SECONDS_PER_DAY
  }

  predicate FourDigitYear(instant: nat) {
    CivilOf(instant).year < 10000
  }

  lemma FourDigitYearIsBeforeTheEnd(instant: nat)
    ensures FourDigitYear(instant) <==> instant < EndOfYear9999()
  {
    var c := CivilOf(instant);
    DayWithinYear(c);
    if c.year < 10000 {
      YearsMonotone(c.year, 10000);
    } else if c.year > 10000 {
      YearsMonotone(10000, c.year);
    }
  }

  // ----- Text -----

  /** Byte-wise text order, as the database's default collation and Go's string
      comparison have it on ASCII text. */
  predicate TextLess(a: string, b: string) {
    if a == "" then b != ""
    else if b == "" then false
    else a[0] < b[0] || (a[0] == b[0] && TextLess(a[1..], b[1..]))
  }

  predicate TextAtMost(a: string, b: string) {
    a == b || TextLess(a, b)
  }

  function DigitChar(d: nat): char
    requires d < 10
  {
    '0' + d as char
  }

  /** n in decimal, padded with zeros to at least width digits. */
  function Padded(n: nat, width: nat): string
    decreases n + width
  {
    if n < 10 && width <= 1 then [DigitChar(n)]
    else Padded(n / 10, if width == 0 then 0 else width - 1) + [DigitChar(n % 10)]
  }

  function PowerOfTen(w: nat): nat {
    if w == 0 then 1 else 10 * PowerOfTen(w - 1)
  }

  function ClockText(c: Civil): string {
    Padded(c.hour, 2) + ([':'] + (Padded(c.minute, 2) + ([':'] + (Padded(c.second, 2) + ['Z']))))
  }

  function MonthText(c: Civil): string {
    Padded(c.month + 1, 2) + (['-'] + (Padded(c.day + 1, 2) + (['T'] + ClockText(c))))
  }

  function CivilText(c: Civil): string {
    Padded(c.year, 4) + (['-'] + MonthText(c))
  }

  /** The text the code stores for an instant. */
  function Format(instant: nat): string {
    CivilText(CivilOf(instant))
  }

  lemma ConsLess(x: char, a: string, y: char, b: string)
    ensures TextLess([x] + a, [y] + b) <==> x < y || (x == y && TextLess(a, b))
  {}

  /** Same-width decimals compare as the numbers do, then by what follows them. */
  lemma {:induction false} PaddedLess(m: nat, n: nat, w: nat, a: string, b: string)
    requires 0 < w && m < PowerOfTen(w) && n < PowerOfTen(w)
    ensures TextLess(Padded(m, w) + a, Padded(n, w) + b) <==> m < n || (m == n && TextLess(a, b))
    decreases w
  {
    if w == 1 {
      ConsLess(DigitChar(m), a, DigitChar(n), b);
    } else {
      var x, y := [DigitChar(m % 10)], [DigitChar(n % 10)];
      assert Padded(m, w) + a == Padded(m / 10, w - 1) + (x + a);
      assert Padded(n, w) + b == Padded(n / 10, w - 1) + (y + b);
      PaddedLess(m / 10, n / 10, w - 1, x + a, y + b);
      ConsLess(x[0], a, y[0], b);
    }
  }

  lemma SmallPowers()
    ensures PowerOfTen(2) == 100 && PowerOfTen(4) == 10000
  {}

  lemma MonthIsShort(y: nat, m: nat)
    ensures DaysInMonth(y, m) <= 31
  {}

  /** A field, its separator and the text after it. */
  lemma FieldLess(m: nat, n: nat, w: nat, separator: char, a: string, b: string)
    requires 0 < w && m < PowerOfTen(w) && n < PowerOfTen(w)
    ensures TextLess(Padded(m, w) + ([separator] + a), Padded(n, w) + ([separator] + b))
            <==> m < n || (m == n && TextLess(a, b))
  {
    PaddedLess(m, n, w, [separator] + a, [separator] + b);
    ConsLess(separator, a, separator, b);
  }

  lemma ClockTextLess(a: Civil, b: Civil)
    requires a.Valid() && b.Valid()
    ensures TextLess(ClockText(a), ClockText(b)) <==>
            a.hour < b.hour || (a.hour == b.hour && (a.minute < b.minute || (a.minute == b.minute && a.second < b.second)))
  {
    hide Padded, TextLess, PowerOfTen;
    SmallPowers();
    var sa, sb := Padded(a.second, 2) + ['Z'], Padded(b.second, 2) + ['Z'];
    FieldLess(a.hour, b.hour, 2, ':', Padded(a.minute, 2) + ([':'] + sa), Padded(b.minute, 2) + ([':'] + sb));
    FieldLess(a.minute, b.minute, 2, ':', sa, sb);
    PaddedLess(a.second, b.second, 2, ['Z'], ['Z']);
    TextNotLessThanItself(['Z']);
  }

  lemma MonthTextLess(a: Civil, b: Civil)
    requires a.Valid() && b.Valid()
    ensures TextLess(MonthText(a), MonthText(b)) <==>
            a.month < b.month || (a.month == b.month && (a.day < b.day || (a.day == b.day && TextLess(ClockText(a), ClockText(b)))))
  {
    hide Padded, TextLess, PowerOfTen, ClockText;
    SmallPowers();
    MonthIsShort(a.year, a.month);
    MonthIsShort(b.year, b.month);
    var da, db := Padded(a.day + 1, 2) + (['T'] + ClockText(a)), Padded(b.day + 1, 2) + (['T'] + ClockText(b));
    FieldLess(a.month + 1, b.month + 1, 2, '-', da, db);
    FieldLess(a.day + 1, b.day + 1, 2, 'T', ClockText(a), ClockText(b));
  }

  lemma CivilTextLess(a: Civil, b: Civil)
    requires a.Valid() && b.Valid() && a.year < 10000 && b.year < 10000
    ensures TextLess(CivilText(a), CivilText(b)) <==> a.Before(b)
  {
    hide Padded, TextLess, PowerOfTen, ClockText, MonthText;
    SmallPowers();
    FieldLess(a.year, b.year, 4, '-', MonthText(a), MonthText(b));
    MonthTextLess(a, b);
    ClockTextLess(a, b);
  }

  lemma TextNotLessThanItself(a: string)
    ensures !TextLess(a, a)
  {}

  /** The empty text sorts at or before every instant, of any year. */
  lemma BlankComesFirst(s: nat)
    ensures TextLess("", Format(s)) && TextAtMost("", Format(s))
  {}

  /** Text order is time order for every pair of instants of years 0000 to 9999, and the
      empty text sorts before all of them. */
  lemma TextOrderIsTimeOrder(s: nat, t: nat)
    requires s < EndOfYear9999() && t < EndOfYear9999()
    ensures TextLess(Format(s), Format(t)) <==> s < t
    ensures Format(s) == Format(t) <==> s == t
    ensures TextAtMost(Format(s), Format(t)) <==> s <= t
    ensures TextLess("", Format(s))
  {
    FourDigitYearIsBeforeTheEnd(s);
    FourDigitYearIsBeforeTheEnd(t);
    var a, b := CivilOf(s), CivilOf(t);
    CivilTextLess(a, b);
    CivilTextLess(b, a);
    CivilOrderIsTimeOrder(a, b);
    CivilOrderIsTimeOrder(b, a);
    TextNotLessThanItself(Format(s));
    BlankComesFirst(s);
  }

  lemma DigitsOfYears()
    ensures Padded(10000, 4) == "10000" && Padded(9999, 4) == "9999"
  {
    assert Padded(10000, 4) == Padded(1000, 3) + ['0'];
    assert Padded(1000, 3) == Padded(100, 2) + ['0'];
    assert Padded(100, 2) == Padded(10, 1) + ['0'];
    assert Padded(10, 1) == Padded(1, 0) + ['0'];
    assert Padded(9999, 4) == Padded(999, 3) + ['9'];
    assert Padded(999, 3) == Padded(99, 2) + ['9'];
    assert Padded(99, 2) == Padded(9, 1) + ['9'];
  }

  /** The fixed width stops at year 9999: the texts of year 10000 sort before those of
      year 9999. */
  lemma TextOrderEndsWithYear9999(early: Civil, late: Civil)
    requires early.year == 9999 && late.year == 10000
    ensures early.Before(late) && TextLess(CivilText(late), CivilText(early))
  {
    hide Padded, MonthText;
    DigitsOfYears();
    assert CivilText(late)[0] == '1' && CivilText(early)[0] == '9';
  }

  // ----- The layout of the text -----

  function Number(digits: string): int {
    if digits == "" then 0
    else 10 * Number(digits[..|digits| - 1]) + (digits[|digits| - 1] as int - '0' as int)
  }

  lemma {:induction false} NumberOfPadded(n: nat, width: nat)
    requires 0 < width && n < PowerOfTen(width)
    ensures |Padded(n, width)| == width && Number(Padded(n, width)) == n
    decreases width
  {
    if width == 1 {
      assert Number([DigitChar(n)][..0]) == 0;
    } else {
      var front := Padded(n / 10, width - 1);
      NumberOfPadded(n / 10, width - 1);
      assert Padded(n, width) == front + [DigitChar(n % 10)];
      assert (front + [DigitChar(n % 10)])[..|front|] == front;
    }
  }

  lemma ClockLayout(c: Civil)
    requires c.Valid()
    ensures
      var f := ClockText(c);
      |f| == 9 && f[2] == ':' && f[5] == ':' && f[8] == 'Z'
      && Number(f[..2]) == c.hour && Number(f[3..5]) == c.minute && Number(f[6..8]) == c.second
  {
    hide Padded, Number, PowerOfTen;
    SmallPowers();
    NumberOfPadded(c.hour, 2);
    NumberOfPadded(c.minute, 2);
    NumberOfPadded(c.second, 2);
    var f := ClockText(c);
    assert f[..2] == Padded(c.hour, 2) && f[3..5] == Padded(c.minute, 2) && f[6..8] == Padded(c.second, 2);
  }

  lemma MonthLayout(c: Civil)
    requires c.Valid()
    ensures
      var f := MonthText(c);
      |f| == 15 && f[2] == '-' && f[5] == 'T' && f[6..] == ClockText(c)
      && Number(f[..2]) == c.month + 1 && Number(f[3..5]) == c.day + 1
  {
    hide Padded, Number, PowerOfTen, ClockText;
    SmallPowers();
    MonthIsShort(c.year, c.month);
    ClockLayout(c);
    NumberOfPadded(c.month + 1, 2);
    NumberOfPadded(c.day + 1, 2);
    var f := MonthText(c);
    assert f[..2] == Padded(c.month + 1, 2) && f[3..5] == Padded(c.day + 1, 2);
  }

  lemma CivilLayout(c: Civil)
    requires c.Valid() && c.year < 10000
    ensures
      var f := CivilText(c);
      |f| == 20 && f[4] == '-' && f[5..] == MonthText(c) && Number(f[..4]) == c.year
  {
    hide Padded, Number, PowerOfTen, MonthText;
    SmallPowers();
    MonthLayout(c);
    NumberOfPadded(c.year, 4);
    var f := CivilText(c);
    assert f[..4] == Padded(c.year, 4);
  }

  /** The text is a full date, "T", a full time and "Z" (section 5.6 of RFC 3339), and its
      numbers are the instant's: reading it back gives the instant. */
  lemma TextReadsBack(instant: nat)
    requires instant < EndOfYear9999()
    ensures
      var f := Format(instant);
      |f| == 20 && f[4] == '-' && f[7] == '-' && f[10] == 'T' && f[13] == ':' && f[16] == ':' && f[19] == 'Z'
      && Number(f[5..7]) >= 1 && Number(f[8..10]) >= 1
      && Number(f[..4]) >= 0 && Number(f[11..13]) >= 0 && Number(f[14..16]) >= 0 && Number(f[17..19]) >= 0
      && Civil(Number(f[..4]), Number(f[5..7]) - 1, Number(f[8..10]) - 1,
               Number(f[11..13]), Number(f[14..16]), Number(f[17..19])).Seconds() == instant
  {
    hide CivilText, MonthText, ClockText, Number, EndOfYear9999;
    FourDigitYearIsBeforeTheEnd(instant);
    var c := CivilOf(instant);
    CivilLayout(c);
    MonthLayout(c);
    ClockLayout(c);
    var f := Format(instant);
    assert f[5..7] == f[5..][..2] && f[8..10] == f[5..][3..5];
    assert f[11..] == f[5..][6..];
    assert f[11..13] == f[11..][..2] && f[14..16] == f[11..][3..5] && f[17..19] == f[11..][6..8];
    assert f[7] == f[5..][2] && f[10] == f[5..][5];
    assert f[13] == f[11..][2] && f[16] == f[11..][5] && f[19] == f[11..][8];
  }

  lemma FoursBefore(y: nat)
    ensures (y + 4) / 4 == (y + 3) / 4 + if y % 4 == 0 then 1 else 0
  {}

  lemma HundredsIn(q: nat, r: nat)
    requires r < 100
    ensures (100 * q + r) / 100 == q
  {}

  lemma HundredsBefore(y: nat)
    ensures (y + 100) / 100 == (y + 99) / 100 + if y % 100 == 0 then 1 else 0
  {
    var q, r := y / 100, y % 100;
    HundredsIn(q + 1, r);
    if r == 0 { HundredsIn(q, 99); } else { HundredsIn(q + 1, r - 1); }
  }

  lemma FoursIn(q: nat)
    ensures 4 * q % 4 == 0
  {}

  lemma HundredsAreFours(y: nat)
    requires y % 100 == 0
    ensures y % 4 == 0
  {
    FoursIn(25 * (y / 100));
  }

  lemma FourHundredsBefore(y: nat)
    ensures (y + 400) / 400 == (y + 399) / 400 + if y % 400 == 0 then 1 else 0
    ensures y % 400 == 0 ==> y % 100 == 0
  {
    assert y == 400 * (y / 400) + y % 400;
  }

  function LeapDaysBefore(y: nat): int {
    (y + 3) / 4 - (y + 99) / 100 + (y + 399) / 400
  }

  lemma OneYearOn(y: nat)
    ensures LeapDaysBefore(y + 1) == LeapDaysBefore(y) + if LeapYear(y) then 1 else 0
  {
    FoursBefore(y);
    HundredsBefore(y);
    FourHundredsBefore(y);
    if y % 100 == 0 { HundredsAreFours(y); }
  }

  /** The calendar is the Gregorian one: year y begins after 365 days a year and a leap day
      for each earlier year that is a multiple of 4, but of 100 only if of 400. */
  lemma {:induction false} GregorianYears(y: nat)
    ensures DaysBeforeYear(y) == 365 * y + LeapDaysBefore(y)
  {
    hide LeapDaysBefore, LeapYear;
    if y > 0 {
      GregorianYears(y - 1);
      OneYearOn(y - 1);
    } else {
      YearZero();
    }
  }

  lemma YearZero()
    ensures LeapDaysBefore(0) == 0
  {}
}
