/**
calculatePlannedPaymentDate of apps/web/app/lib/business-rules.ts over JavaScript dates (ECMA-262,
section 21.4.1), in UTC. Months are counted from January of year 0: month 12 * y + m is month m,
from 0 to 11, of year y.
*/
module PaymentDate {
  import opened Wrappers

  // ---------- Calendars ----------

  /** The length of each month, and the days from 1 January 1970 to its first day. */
  datatype Calendar = Calendar(length: int -> int, start: int -> int)

  /** The months follow one another without gaps from January 1970, before it as after it. */
  ghost predicate IsCalendar(c: Calendar) {
    && c.start(EPOCH) == 0
    && (forall month :: 28 <= c.length(month) <= 31)
    && (forall month {:trigger c.length(month)} :: c.start(month + 1) == c.start(month) + c.length(month))
  }

  predicate IsLeap(year: int) {
    year % 4 == 0 && (year % 100 != 0 || year % 400 == 0)
  }

  datatype Civil = Civil(month: int, day: int)

  predicate Valid(c: Calendar, d: Civil) {
    1 <= d.day <= c.length(d.month)
  }

  predicate Earlier(d: Civil, e: Civil) {
    d.month < e.month || (d.month == e.month && d.day < e.day)
  }

  /** January 1970. */
  const EPOCH := 12 * 1970

  function DayNumber(c: Calendar, d: Civil): int {
    c.start(d.month) + d.day - 1
  }

  lemma {:induction false} MonthsBetween(c: Calendar, i: int, j: int)
    requires IsCalendar(c) && i <= j
    ensures 28 * (j - i) <= c.start(j) - c.start(i) <= 31 * (j - i)
    decreases j - i
  {
    if i < j {
      assert 28 <= c.length(i) <= 31;
      MonthsBetween(c, i + 1, j);
    }
  }

  lemma EarlierIsLess(c: Calendar, d: Civil, e: Civil)
    requires IsCalendar(c) && Valid(c, d) && Valid(c, e) && Earlier(d, e)
    ensures DayNumber(c, d) < DayNumber(c, e)
  {
    if d.month < e.month {
      assert c.length(d.month) > 0;
      MonthsBetween(c, d.month + 1, e.month);
    }
  }

  /** Day numbers follow the calendar, and no two dates share one. */
  lemma DayNumbersAreOrdered(c: Calendar, d: Civil, e: Civil)
    requires IsCalendar(c) && Valid(c, d) && Valid(c, e)
    ensures DayNumber(c, d) < DayNumber(c, e) <==> Earlier(d, e)
    ensures DayNumber(c, d) == DayNumber(c, e) <==> d == e
  {
    if Earlier(d, e) {
      EarlierIsLess(c, d, e);
    } else if Earlier(e, d) {
      EarlierIsLess(c, e, d);
    } else {
      assert d == e;
    }
  }

  function DayAfter(c: Calendar, d: Civil): Civil {
    if d.day < c.length(d.month) then Civil(d.month, d.day + 1) else Civil(d.month + 1, 1)
  }

  function DayBefore(c: Calendar, d: Civil): Civil {
    if d.day > 1 then Civil(d.month, d.day - 1) else Civil(d.month - 1, c.length(d.month - 1))
  }

  /** The date of a day number, as the getters of a Date and toISOString see it. */
  function CivilOf(c: Calendar, day: int): Civil
    decreases if day < 0 then -day else day
  {
    if day == 0 then Civil(EPOCH, 1)
    else if day > 0 then DayAfter(c, CivilOf(c, day - 1))
    else DayBefore(c, CivilOf(c, day + 1))
  }

  /** Every day number is that of a date. */
  lemma {:induction false} CivilOfDay(c: Calendar, day: int)
    requires IsCalendar(c)
    ensures Valid(c, CivilOf(c, day)) && DayNumber(c, CivilOf(c, day)) == day
    decreases if day < 0 then -day else day
  {
    assert 28 <= c.length(EPOCH);
    if day > 0 {
      var before := CivilOf(c, day - 1);
      CivilOfDay(c, day - 1);
      assert 28 <= c.length(before.month) && 28 <= c.length(before.month + 1);
    } else if day < 0 {
      var after := CivilOf(c, day + 1);
      CivilOfDay(c, day + 1);
      assert 28 <= c.length(after.month - 1);
    }
  }

  lemma DayOfCivil(c: Calendar, d: Civil)
    requires IsCalendar(c) && Valid(c, d)
    ensures CivilOf(c, DayNumber(c, d)) == d
  {
    CivilOfDay(c, DayNumber(c, d));
    DayNumbersAreOrdered(c, CivilOf(c, DayNumber(c, d)), d);
  }

  // ---------- JavaScript dates ----------

  const MS_PER_DAY := 86_400_000
  const LAST_DAY := 100_000_000

  /** TimeClip: a time at most 100 million days from the epoch, or NaN. */
  function Clip(day: int, ms: nat): Option<(int, nat)> {
    if -LAST_DAY <= day && (day < LAST_DAY || (day == LAST_DAY && ms == 0)) then Some((day, ms)) else None
  }

  /** Date.UTC takes the years 0 to 99 for 1900 to 1999. */
  function UtcMonth(month: int): int {
    if 0 <= month < 1200 then 22_800 + month else month
  }

  /** A Date object: a day number and the milliseconds within the day, or NaN. */
  class UtcDate {
    const calendar: Calendar
    var time: Option<(int, nat)>

    /** new Date(Date.UTC(year, month + offset, day)), given the month 12 * year + month. */
    constructor FromUtc(c: Calendar, month: int, offset: int, day: int)
      ensures this.calendar == c && time == Clip(c.start(UtcMonth(month) + offset) + day - 1, 0)
    {
      this.calendar := c;
      time := Clip(c.start(UtcMonth(month) + offset) + day - 1, 0);
    }

    /** new Date(text) of a text that names this instant. */
    constructor FromText(c: Calendar, date: Civil, ms: nat)
      ensures this.calendar == c && time == Clip(DayNumber(c, date), ms)
    {
      this.calendar := c;
      time := Clip(DayNumber(c, date), ms);
    }

    /** The calendar date of a time. */
    function Fields(): Civil
      requires time.Some?
      reads this
    {
      CivilOf(calendar, time.value.0)
    }

    /** setUTCDate: the day counted on from the first of the current month. None stands for NaN. */
    method SetUTCDate(day: Option<int>)
      modifies this`time
      ensures time == if old(time).None? || day.None? then None
                      else Clip(
                        calendar.start(CivilOf(calendar, old(time).value.0).month) + day.value - 1, old(time).value.1)
    {
      if time.Some? && day.Some? {
        time := Clip(calendar.start(Fields().month) + day.value - 1, time.value.1);
      } else {
        time := None;
      }
    }
  }

  // ---------- The planned payment date ----------

  datatype DateError = BadShipment | BadDays | BadTerms | OutOfRange

  /** Days are None where the number is not an integer; an absent monthly term is None. */
  datatype Mode = PlusDays(days: Option<int>) | Monthly(cutoffDay: Option<int>, paymentDay: Option<int>)

  /** A shipment is a date with a time of day, or text that is no date. */
  datatype Shipment = At(date: Civil, ms: nat) | NotADate

  predicate ShipmentOk(c: Calendar, shipped: Shipment) {
    shipped.At? && Valid(c, shipped.date) && shipped.ms < MS_PER_DAY
    && Clip(DayNumber(c, shipped.date), shipped.ms).Some?
  }

  function TermOf(term: Option<int>): int {
    if term.None? then 25 else term.value
  }

  predicate TermsOk(cutoffDay: int, paymentDay: int) {
    1 <= cutoffDay <= 31 && 1 <= paymentDay <= 31
  }

  /** The month after the shipment, or the one after that once the cutoff is past. */
  function TargetMonth(shipped: Civil, cutoffDay: int): int {
    UtcMonth(shipped.month) + if shipped.day <= cutoffDay then 1 else 2
  }

  function Min(a: int, b: int): int { if a < b then a else b }

  /** The length of the target month is looked up through Date.UTC once more. */
  function PlannedMonthly(c: Calendar, shipped: Civil, cutoffDay: int, paymentDay: int): Civil {
    var target := TargetMonth(shipped, cutoffDay);
    Civil(target, Min(paymentDay, c.length(UtcMonth(target))))
  }

  /** The first day of the target month, and the last day that is looked up, are times. */
  predicate TargetInRange(c: Calendar, target: int) {
    && Clip(c.start(target), 0).Some?
    && Clip(c.start(UtcMonth(target) + 1) - 1, 0).Some?
  }

  function Planned(c: Calendar, shipped: Shipment, mode: Mode): Result<Civil, DateError> {
    if !ShipmentOk(c, shipped) then Failure(BadShipment)
    else match mode
      case PlusDays(days) =>
        if days.None? || days.value < 0 then Failure(BadDays)
        else if Clip(DayNumber(c, shipped.date) + days.value, shipped.ms).None? then Failure(OutOfRange)
        else Success(CivilOf(c, DayNumber(c, shipped.date) + days.value))
      case Monthly(cutoff, payment) =>
        if !TermsOk(TermOf(cutoff), TermOf(payment)) then Failure(BadTerms)
        else if !TargetInRange(c, TargetMonth(shipped.date, TermOf(cutoff))) then Failure(OutOfRange)
        else Success(PlannedMonthly(c, shipped.date, TermOf(cutoff), TermOf(payment)))
  }

  /**
  The cutoff day ends the period: shipments up to and on it are due in the next month, like one on the
  first, and later ones are due like one on the first of the next month. Only from one side of the years
  0 to 99 to the other the next month is another one.
  */
  lemma CutoffEndsThePeriod(c: Calendar, month: int, day: int, cutoffDay: int, paymentDay: int)
    requires 1 <= cutoffDay <= 31 && 1 <= day <= 31 && month != -1 && month != 1199
    ensures PlannedMonthly(c, Civil(month, day), cutoffDay, paymentDay)
         == PlannedMonthly(c, Civil(if day <= cutoffDay then month else month + 1, 1), cutoffDay, paymentDay)
    ensures !(0 <= month < 1200) && day == cutoffDay ==>
              PlannedMonthly(c, Civil(month, day), cutoffDay, paymentDay).month == month + 1
  {
  }

  /** Date.UTC looks up a month of the same length, except that February of year 0 may have been longer. */
  ghost predicate LookupFits(c: Calendar) {
    forall month {:trigger UtcMonth(month)} ::
      c.length(UtcMonth(month)) <= c.length(month) && (month != 1 ==> c.length(UtcMonth(month)) == c.length(month))
  }

  lemma DayWithin(c: Calendar, month: int, day: int)
    requires IsCalendar(c) && 1 <= day <= c.length(month)
    ensures CivilOf(c, c.start(month) + day - 1) == Civil(month, day)
  {
    DayOfCivil(c, Civil(month, day));
  }

  lemma LastDayOf(c: Calendar, month: int)
    requires IsCalendar(c)
    ensures CivilOf(c, c.start(month + 1) - 1) == Civil(month, c.length(month))
  {
    assert 28 <= c.length(month);
    DayWithin(c, month, c.length(month));
  }

  /** A day of the target month, as far as the one looked up, is a time if the first and the last are. */
  lemma TargetDayInRange(c: Calendar, month: int, day: int)
    requires IsCalendar(c) && TargetInRange(c, month) && 1 <= day <= c.length(UtcMonth(month))
    ensures Clip(c.start(month) + day - 1, 0).Some?
  {
    if UtcMonth(month) != month {
      MonthsBetween(c, month, EPOCH);
      assert c.length(UtcMonth(month)) <= 31;
    }
  }

  /** setUTCDate on the first of a month. */
  method MoveWithinMonth(target: UtcDate, ghost month: int, day: int)
    requires IsCalendar(target.calendar) && TargetInRange(target.calendar, month)
    requires 1 <= day <= target.calendar.length(UtcMonth(month)) <= target.calendar.length(month)
    requires target.time == Some((target.calendar.start(month), 0))
    modifies target
    ensures target.time.Some? && target.Fields() == Civil(month, day)
  {
    DayWithin(target.calendar, month, 1);
    DayWithin(target.calendar, month, day);
    TargetDayInRange(target.calendar, month, day);
    target.SetUTCDate(Some(day));
  }

  /** The day of a Date for day 0 of the month after the target month; None if that is no time. */
  method LastOfMonth(target: UtcDate, ghost month: int) returns (day: Option<int>)
    requires IsCalendar(target.calendar) && target.time == Some((target.calendar.start(month), 0))
    ensures var last := Clip(target.calendar.start(UtcMonth(month) + 1) - 1, 0);
            day == if last.Some? then Some(target.calendar.length(UtcMonth(month))) else None
  {
    var c := target.calendar;
    assert 28 <= c.length(month);
    DayWithin(c, month, 1);
    LastDayOf(c, UtcMonth(month));
    var last := new UtcDate.FromUtc(c, target.Fields().month, 1, 0);
    day := if last.time.Some? then Some(last.Fields().day) else None;
  }

  /** The monthly mode: a Date for the first of the target month, one for its last day, then setUTCDate. */
  method MonthlyDate(c: Calendar, shipped: Civil, cutoffDay: int, paymentDay: int)
    returns (result: Result<Civil, DateError>)
    requires IsCalendar(c) && LookupFits(c) && TermsOk(cutoffDay, paymentDay)
    ensures result == if TargetInRange(c, TargetMonth(shipped, cutoffDay))
                      then Success(PlannedMonthly(c, shipped, cutoffDay, paymentDay)) else Failure(OutOfRange)
  {
    ghost var month := TargetMonth(shipped, cutoffDay);
    var monthOffset := if shipped.day <= cutoffDay then 1 else 2;
    var target := new UtcDate.FromUtc(c, shipped.month, monthOffset, 1);
    if target.time.None? {
      return Failure(OutOfRange);
    }
    var last := LastOfMonth(target, month);
    if last.None? {
      target.SetUTCDate(None);
      return Failure(OutOfRange);
    }
    assert 28 <= c.length(UtcMonth(month)) <= c.length(month);
    MoveWithinMonth(target, month, Min(paymentDay, last.value));
    result := Success(target.Fields());
  }

  /** calculatePlannedPaymentDate. */
  method CalculatePlannedPaymentDate(c: Calendar, shippedAt: Shipment, mode: Mode)
    returns (result: Result<Civil, DateError>)
    requires IsCalendar(c) && LookupFits(c)
    ensures result == Planned(c, shippedAt, mode)
  {
    if !ShipmentOk(c, shippedAt) {
      return Failure(BadShipment);
    }
    if mode.PlusDays? {
      if mode.days.None? || mode.days.value < 0 {
        return Failure(BadDays);
      }
      DayOfCivil(c, shippedAt.date);
      var shipped := new UtcDate.FromText(c, shippedAt.date, shippedAt.ms);
      shipped.SetUTCDate(Some(shipped.Fields().day + mode.days.value));
      if shipped.time.None? {
        return Failure(OutOfRange);
      }
      return Success(shipped.Fields());
    }
    var cutoffDay, paymentDay := TermOf(mode.cutoffDay), TermOf(mode.paymentDay);
    if cutoffDay < 1 || cutoffDay > 31 || paymentDay < 1 || paymentDay > 31 {
      return Failure(BadTerms);
    }
    result := MonthlyDate(c, shippedAt.date, cutoffDay, paymentDay);
  }

  // ---------- The Gregorian calendar ----------

  function GregorianLength(month: int): int {
    var m := month % 12;
    if m == 1 then (if IsLeap(month / 12) then 29 else 28)
    else if m == 3 || m == 5 || m == 8 || m == 10 then 30
    else 31
  }

  function GregorianStart(month: int): int
    decreases if month < EPOCH then EPOCH - month else month - EPOCH
  {
    if month == EPOCH then 0
    else if month > EPOCH then GregorianStart(month - 1) + GregorianLength(month - 1)
    else GregorianStart(month + 1) - GregorianLength(month)
  }

  /** The proleptic Gregorian calendar of ECMA-262. */
  function Gregorian(): Calendar {
    Calendar(GregorianLength, GregorianStart)
  }

  function Quarter(c: Calendar, month: int): int {
    c.length(month) + c.length(month + 1) + c.length(month + 2)
  }

  /** No three months in a row have more than 92 days. */
  ghost predicate ShortQuarters(c: Calendar) {
    forall month :: Quarter(c, month) <= 92
  }

  lemma NextStart(month: int)
    ensures GregorianStart(month + 1) == GregorianStart(month) + GregorianLength(month)
  {
  }

  lemma QuarterAtMost92(month: int)
    ensures GregorianLength(month) + GregorianLength(month + 1) + GregorianLength(month + 2) <= 92
  {
  }

  lemma LookupLength(month: int)
    ensures GregorianLength(UtcMonth(month)) <= GregorianLength(month)
    ensures month != 1 ==> GregorianLength(UtcMonth(month)) == GregorianLength(month)
  {
  }

  lemma GregorianIsCalendar()
    ensures IsCalendar(Gregorian()) && LookupFits(Gregorian()) && ShortQuarters(Gregorian())
  {
    forall month ensures GregorianStart(month + 1) == GregorianStart(month) + GregorianLength(month) {
      NextStart(month);
    }
    forall month
      ensures GregorianLength(UtcMonth(month)) <= GregorianLength(month)
      ensures month != 1 ==> GregorianLength(UtcMonth(month)) == GregorianLength(month)
    {
      LookupLength(month);
    }
    forall month
      ensures GregorianLength(month) + GregorianLength(month + 1) + GregorianLength(month + 2) <= 92
    {
      QuarterAtMost92(month);
    }
  }

  /** The leap days of the years up to n. */
  function LeapDays(n: int): int {
    n / 4 - n / 100 + n / 400
  }

  /** The days from 1 January 1970 to 1 January of a year. */
  function DaysToYear(year: int): int {
    365 * (year - 1970) + LeapDays(year - 1) - LeapDays(1969)
  }

  lemma Fourths(n: int)
    ensures n / 4 - (n - 1) / 4 == if n % 4 == 0 then 1 else 0
  {
  }

  lemma Hundredths(n: int)
    ensures n / 100 - (n - 1) / 100 == if n % 100 == 0 then 1 else 0
  {
  }

  lemma FourHundredths(n: int)
    ensures n / 400 - (n - 1) / 400 == if n % 400 == 0 then 1 else 0
  {
  }

  lemma HundredthsAreFourths(n: int)
    requires n % 100 == 0
    ensures n % 4 == 0
  {
    var q := n / 100;
    assert n == 100 * q == 4 * (25 * q);
  }

  lemma FourHundredthsAreHundredths(n: int)
    requires n % 400 == 0
    ensures n % 100 == 0
  {
    var q := n / 400;
    assert n == 400 * q == 100 * (4 * q);
  }

  lemma LeapDaysOfYear(year: int)
    ensures LeapDays(year) - LeapDays(year - 1) == if IsLeap(year) then 1 else 0
  {
    Fourths(year);
    Hundredths(year);
    FourHundredths(year);
    if year % 100 == 0 {
      HundredthsAreFourths(year);
    }
    if year % 400 == 0 {
      FourHundredthsAreHundredths(year);
    }
  }

  /** Thirty days hath September ... */
  lemma MonthLengths(year: int, month: nat)
    requires month < 12
    ensures GregorianLength(12 * year + month)
         == [31, if IsLeap(year) then 29 else 28, 31, 30, 31, 30, 31, 31, 30, 31, 30, 31][month]
  {
    assert (12 * year + month) % 12 == month && (12 * year + month) / 12 == year;
  }

  lemma ThreeMonths(c: Calendar, month: int, days: int)
    requires IsCalendar(c) && Quarter(c, month) == days
    ensures c.start(month + 3) == c.start(month) + days
  {
    var second, third := month + 1, month + 2;
    assert c.start(month + 1) == c.start(month) + c.length(month);
    assert c.start(second + 1) == c.start(second) + c.length(second);
    assert c.start(third + 1) == c.start(third) + c.length(third);
  }

  /** A calendar with these lengths of months. */
  ghost predicate HasLengths(c: Calendar) {
    forall month {:trigger c.length(month)} :: c.length(month) == GregorianLength(month)
  }

  lemma QuarterLength(c: Calendar, year: int, quarter: nat)
    requires HasLengths(c) && quarter < 4
    ensures Quarter(c, 12 * year + 3 * quarter) == [if IsLeap(year) then 91 else 90, 91, 92, 92][quarter]
  {
    MonthLengths(year, 3 * quarter);
    MonthLengths(year, 3 * quarter + 1);
    MonthLengths(year, 3 * quarter + 2);
  }

  lemma TwelveMonths(c: Calendar, first: int, days: int)
    requires IsCalendar(c) && Quarter(c, first) == days && Quarter(c, first + 3) == 91
    requires Quarter(c, first + 6) == Quarter(c, first + 9) == 92
    ensures c.start(first + 12) == c.start(first) + days + 275
  {
    ThreeMonths(c, first, days);
    ThreeMonths(c, first + 3, 91);
    ThreeMonths(c, first + 6, 92);
    ThreeMonths(c, first + 9, 92);
  }

  lemma QuartersOfYear(c: Calendar, year: int)
    requires HasLengths(c)
    ensures Quarter(c, 12 * year) == (if IsLeap(year) then 91 else 90) && Quarter(c, 12 * year + 3) == 91
    ensures Quarter(c, 12 * year + 6) == Quarter(c, 12 * year + 9) == 92
  {
    QuarterLength(c, year, 0);
    QuarterLength(c, year, 1);
    QuarterLength(c, year, 2);
    QuarterLength(c, year, 3);
  }

  lemma YearLength(c: Calendar, year: int)
    requires IsCalendar(c) && HasLengths(c)
    ensures c.start(12 * (year + 1)) - c.start(12 * year) == 365 + if IsLeap(year) then 1 else 0
  {
    QuartersOfYear(c, year);
    TwelveMonths(c, 12 * year, if IsLeap(year) then 91 else 90);
  }

  lemma DaysToNextYear(year: int)
    ensures DaysToYear(year + 1) - DaysToYear(year) == 365 + if IsLeap(year) then 1 else 0
  {
    LeapDaysOfYear(year);
  }

  lemma {:induction false} YearsOfCalendar(c: Calendar, year: int)
    requires IsCalendar(c) && HasLengths(c)
    ensures c.start(12 * year) == DaysToYear(year)
    decreases if year < 1970 then 1970 - year else year - 1970
  {
    if year > 1970 {
      YearsOfCalendar(c, year - 1);
      YearLength(c, year - 1);
      DaysToNextYear(year - 1);
    } else if year < 1970 {
      YearsOfCalendar(c, year + 1);
      YearLength(c, year);
      DaysToNextYear(year);
    }
  }

  /** Years have 365 days, and one more every fourth, but not every hundredth, but every four hundredth. */
  lemma YearStarts(year: int)
    ensures GregorianStart(12 * year) == DaysToYear(year)
  {
    GregorianIsCalendar();
    YearsOfCalendar(Gregorian(), year);
  }

  // ---------- What the planned date promises ----------

  /** A Date holds the times up to 8.64e15 milliseconds from the epoch. */
  lemma ClipMeaning(day: int, ms: nat)
    requires ms < 86_400_000
    ensures Clip(day, ms) == if -8_640_000_000_000_000 <= 86_400_000 * day + ms <= 8_640_000_000_000_000
                             then Some((day, ms)) else None
  {
  }

  /** The terms of a monthly mode: a missing one is 25. */
  ghost predicate TermIs(term: Option<int>, day: int) {
    1 <= day <= 31 && (term == Some(day) || (term == None && day == 25))
  }

  /**
  What is planned: counted days that are not negative, or a monthly date for terms from 1 to 31, after a
  shipment that is a date and a time of day; and only if every date on the way is a time.
  */
  lemma PlannedExactly(c: Calendar, shipped: Shipment, mode: Mode)
    ensures Planned(c, shipped, mode).Success? <==>
              && shipped.At? && 1 <= shipped.date.day <= c.length(shipped.date.month) && shipped.ms < 86_400_000
              && Clip(DayNumber(c, shipped.date), shipped.ms).Some?
              && match mode
                 case PlusDays(days) =>
                   && days.Some? && days.value >= 0
                   && Clip(DayNumber(c, shipped.date) + days.value, shipped.ms).Some?
                 case Monthly(cutoff, payment) =>
                   exists cutoffDay, paymentDay ::
                     && TermIs(cutoff, cutoffDay) && TermIs(payment, paymentDay)
                     && TargetInRange(c, TargetMonth(shipped.date, cutoffDay))
                     && Planned(c, shipped, mode) == Success(PlannedMonthly(c, shipped.date, cutoffDay, paymentDay))
  {
    if mode.Monthly? {
      var cutoffDay, paymentDay := TermOf(mode.cutoffDay), TermOf(mode.paymentDay);
      assert TermIs(mode.cutoffDay, cutoffDay) <==> 1 <= cutoffDay <= 31;
      assert TermIs(mode.paymentDay, paymentDay) <==> 1 <= paymentDay <= 31;
    }
  }

  /** Counting days: exactly that many days later. */
  lemma PlusDaysIsExact(c: Calendar, shipped: Shipment, days: int)
    requires IsCalendar(c) && Planned(c, shipped, PlusDays(Some(days))).Success?
    ensures var planned := Planned(c, shipped, PlusDays(Some(days))).value;
            Valid(c, planned) && DayNumber(c, planned) == DayNumber(c, shipped.date) + days
  {
    CivilOfDay(c, DayNumber(c, shipped.date) + days);
  }

  /** The monthly mode gives a date of the calendar: the payment day, or the last day of a shorter month. */
  lemma MonthlyIsValid(c: Calendar, shipped: Civil, cutoffDay: int, paymentDay: int)
    requires IsCalendar(c) && LookupFits(c) && TermsOk(cutoffDay, paymentDay)
    ensures var planned := PlannedMonthly(c, shipped, cutoffDay, paymentDay);
            && Valid(c, planned) && planned.month == TargetMonth(shipped, cutoffDay)
            && (planned.month != 1 ==> planned.day == Min(paymentDay, c.length(planned.month)))
  {
    assert 28 <= c.length(UtcMonth(TargetMonth(shipped, cutoffDay)));
  }

  predicate InFirstCentury(d: Civil) {
    0 <= d.month < 1200
  }

  lemma TargetIsLater(c: Calendar, d: Civil, target: int, day: int)
    requires IsCalendar(c) && Valid(c, d) && d.month < target && 1 <= day
    ensures DayNumber(c, d) < DayNumber(c, Civil(target, day))
    ensures target - d.month > 20_000 ==> DayNumber(c, Civil(target, day)) - DayNumber(c, d) > 90
  {
    assert c.length(d.month) <= 31;
    MonthsBetween(c, d.month + 1, target);
  }

  lemma TargetIsNear(c: Calendar, d: Civil, offset: int, day: int)
    requires IsCalendar(c) && ShortQuarters(c) && 1 <= offset <= 2 && Valid(c, d) && day <= c.length(d.month + offset)
    requires offset == 2 ==> d.day > 1
    ensures DayNumber(c, Civil(d.month + offset, day)) - DayNumber(c, d) <= 90
  {
    assert Quarter(c, d.month) <= 92;
    assert c.start(d.month + 1) == c.start(d.month) + c.length(d.month);
    assert c.start(d.month + 1 + 1) == c.start(d.month + 1) + c.length(d.month + 1);
  }

  /**
  The monthly payment is due strictly after the shipment, and at most 90 days after it exactly when
  the shipment is not in the years 0 to 99: those are taken for 1900 to 1999.
  */
  lemma DueWithinNinetyDays(c: Calendar, shipped: Civil, cutoffDay: int, paymentDay: int)
    requires IsCalendar(c) && LookupFits(c) && ShortQuarters(c)
    requires Valid(c, shipped) && TermsOk(cutoffDay, paymentDay)
    ensures var planned := PlannedMonthly(c, shipped, cutoffDay, paymentDay);
            && DayNumber(c, shipped) < DayNumber(c, planned)
            && (DayNumber(c, planned) - DayNumber(c, shipped) <= 90 <==> !InFirstCentury(shipped))
  {
    var planned := PlannedMonthly(c, shipped, cutoffDay, paymentDay);
    MonthlyIsValid(c, shipped, cutoffDay, paymentDay);
    TargetIsLater(c, shipped, planned.month, planned.day);
    if !InFirstCentury(shipped) {
      TargetIsNear(c, shipped, planned.month - shipped.month, planned.day);
    }
  }

  lemma TwoLongMonths(c: Calendar, month: int)
    requires IsCalendar(c) && UtcMonth(month) == month && UtcMonth(month + 2) == month + 2
    requires c.length(month) == c.length(month + 1) == 31 && c.length(month + 2) == 30
    ensures DayNumber(c, PlannedMonthly(c, Civil(month, 2), 1, 31)) - DayNumber(c, Civil(month, 2)) == 90
  {
    assert c.start(month + 1 + 1) == c.start(month + 1) + c.length(month + 1);
  }

  lemma JulyToSeptember(year: int)
    ensures var july := 12 * year + 6;
            GregorianLength(july) == GregorianLength(july + 1) == 31 && GregorianLength(july + 2) == 30
  {
    var july := 12 * year + 6;
    assert july % 12 == 6 && (july + 1) % 12 == 7 && (july + 2) % 12 == 8;
  }

  /** The bound is tight: a shipment on 2 July after a cutoff on the first, paid on the 31st, takes 90 days. */
  lemma NinetyDaysHappen(year: int)
    requires year < 0 || year > 99
    ensures var c, shipped := Gregorian(), Civil(12 * year + 6, 2);
            DayNumber(c, PlannedMonthly(c, shipped, 1, 31)) - DayNumber(c, shipped) == 90
  {
    GregorianIsCalendar();
    JulyToSeptember(year);
    TwoLongMonths(Gregorian(), 12 * year + 6);
  }

  /** The planned dates of two shipments are in the order of their target months. */
  lemma OrderFollowsTarget(c: Calendar, d: Civil, e: Civil, cutoffDay: int, paymentDay: int)
    requires IsCalendar(c) && LookupFits(c) && TermsOk(cutoffDay, paymentDay)
    ensures var p, q := PlannedMonthly(c, d, cutoffDay, paymentDay), PlannedMonthly(c, e, cutoffDay, paymentDay);
            DayNumber(c, p) <= DayNumber(c, q) <==> TargetMonth(d, cutoffDay) <= TargetMonth(e, cutoffDay)
  {
    var p, q := PlannedMonthly(c, d, cutoffDay, paymentDay), PlannedMonthly(c, e, cutoffDay, paymentDay);
    MonthlyIsValid(c, d, cutoffDay, paymentDay);
    MonthlyIsValid(c, e, cutoffDay, paymentDay);
    DayNumbersAreOrdered(c, p, q);
  }

  /** A later shipment is never paid earlier, unless it is the first of the two that lies in the years 0 to 99. */
  lemma MonthlyIsMonotone(c: Calendar, d: Civil, e: Civil, cutoffDay: int, paymentDay: int)
    requires IsCalendar(c) && LookupFits(c) && TermsOk(cutoffDay, paymentDay) && (d == e || Earlier(d, e))
    requires InFirstCentury(d) ==> InFirstCentury(e)
    ensures DayNumber(c, PlannedMonthly(c, d, cutoffDay, paymentDay))
         <= DayNumber(c, PlannedMonthly(c, e, cutoffDay, paymentDay))
  {
    OrderFollowsTarget(c, d, e, cutoffDay, paymentDay);
  }

  /** Across the end of the year 99 it is: December 99 is paid in January 2000, January 100 in February 100. */
  lemma CenturyBreaksOrder(c: Calendar)
    requires IsCalendar(c) && LookupFits(c)
    ensures var d, e := Civil(12 * 99 + 11, 1), Civil(12 * 100, 1);
            && Earlier(d, e) && Valid(c, d) && Valid(c, e)
            && DayNumber(c, PlannedMonthly(c, d, 25, 25)) > DayNumber(c, PlannedMonthly(c, e, 25, 25))
  {
    var d, e := Civil(12 * 99 + 11, 1), Civil(12 * 100, 1);
    assert 28 <= c.length(d.month) && 28 <= c.length(e.month);
    OrderFollowsTarget(c, d, e, 25, 25);
  }

  /** All of this holds of the Gregorian calendar. */
  lemma GregorianDueDates(shipped: Civil, cutoffDay: int, paymentDay: int)
    requires Valid(Gregorian(), shipped) && TermsOk(cutoffDay, paymentDay) && !InFirstCentury(shipped)
    ensures var planned := PlannedMonthly(Gregorian(), shipped, cutoffDay, paymentDay);
            0 < DayNumber(Gregorian(), planned) - DayNumber(Gregorian(), shipped) <= 90
  {
    GregorianIsCalendar();
    DueWithinNinetyDays(Gregorian(), shipped, cutoffDay, paymentDay);
  }
}
