/** The day-to-month loop of the chart's axis formatter; day 1 is 1 January 2016. */
module DayAxis {

  /** Days in a month counted from 0, with the leap years of the Julian and Gregorian calendars. */
  function DaysForMonth(month: int, year: int): (days: int)
    ensures 28 <= days <= 31
  {
    if month == 1 then
      var is29Feb :=
        if year < 1582 then (if year < 1 then year + 1 else year) % 4 == 0
        else if year > 1582 then year % 4 == 0 && (year % 100 != 0 || year % 400 == 0)
        else false;
      if is29Feb then 29 else 28
    else if month == 3 || month == 5 || month == 8 || month == 10 then 30
    else 31
  }

  function DetermineYear(days: int): int {
    if days <= 366 then 2016
    else if days <= 730 then 2017
    else if days <= 1094 then 2018
    else if days <= 1458 then 2019
    else 2020
  }

  /** The days passed before month `k`, as the loop counts them: each year is looked up from the sum itself. */
  function Start(k: nat): nat {
    if k == 0 then 0 else Start(k - 1) + DaysForMonth((k - 1) % 12, DetermineYear(Start(k - 1)))
  }

  /** Day `day` lies in month `k`. */
  ghost predicate InMonth(day: int, k: nat) {
    Start(k) < day <= Start(k + 1)
  }

  method DetermineMonth(dayOfYear: int) returns (r: int)
    ensures dayOfYear <= 0 ==> r == 0
    ensures dayOfYear >= 1 ==> exists k: nat :: InMonth(dayOfYear, k) && r == k % 12
    ensures dayOfYear >= 1 ==> forall c: nat :: InCalendarMonth(dayOfYear, c) ==>
              (r == c % 12 <==> |Missed(dayOfYear)| % 12 == 0)
  {
    hide DaysForMonth, DetermineYear, InCalendarMonth, Missed;
    var month, days := -1, 0;
    ghost var k := 0;  // the months begun
    while days < dayOfYear
      invariant days == Start(k)
      invariant if k == 0 then month == -1 else 0 <= month < 12 && month == (k - 1) % 12
      invariant k > 0 ==> Start(k - 1) < dayOfYear
      decreases dayOfYear - days
    {
      month := month + 1;
      if month >= 12 {
        month := 0;
      }
      NextInYear(k, month);
      var year := DetermineYear(days);
      days := days + DaysForMonth(month, year);
      k := k + 1;
    }
    if k > 0 {
      assert InMonth(dayOfYear, k - 1);
      forall c: nat | InCalendarMonth(dayOfYear, c)
        ensures (k - 1) % 12 == c % 12 <==> |Missed(dayOfYear)| % 12 == 0
      {
        ReturnedMonthIff(dayOfYear, k - 1, c);
      }
    }
    return if month < 0 then 0 else month;
  }

  /** Counting up to 12 and starting over keeps step with the remainder. */
  lemma NextInYear(k: nat, month: int)
    requires 0 <= month < 12
    requires k == 0 ==> month == 0
    requires k > 0 ==> month == if (k - 1) % 12 == 11 then 0 else (k - 1) % 12 + 1
    ensures month == k % 12
  {
  }

  // One month for every day.

  lemma {:induction false} StartsRise(j: nat, k: nat)
    requires j <= k
    ensures Start(k) >= Start(j) + 28 * (k - j)
  {
    if j < k {
      StartsRise(j, k - 1);
    }
  }

  /** No day lies in two months, so the loop's answer is the only one. */
  lemma MonthUnique(day: int, j: nat, k: nat)
    requires InMonth(day, j) && InMonth(day, k)
    ensures j == k
  {
    if j < k {
      StartsRise(j + 1, k);
    } else if k < j {
      StartsRise(k + 1, j);
    }
  }

  // The years of the loop.

  /** The days of a year before its `m`-th month, when February has `feb` days. */
  function BeforeMonth(m: nat, feb: int): int
    requires m <= 12
  {
    [0, 31, 31, 62, 92, 123, 153, 184, 215, 245, 276, 306, 337][m] + if m <= 1 then 0 else feb
  }

  lemma MonthInYear(y: nat, m: nat)
    requires m < 12
    ensures (12 * y + m) % 12 == m && (12 * y + m) / 12 == y
  {
  }

  lemma BeforeNextMonth(m: nat, feb: int, year: int)
    requires m < 12 && (m == 1 ==> feb == DaysForMonth(1, year))
    ensures BeforeMonth(m + 1, feb) == BeforeMonth(m, feb) + DaysForMonth(m, year)
  {
  }

  lemma LoopStep(y: nat, m: nat)
    requires m < 12
    ensures Start(12 * y + m + 1) == Start(12 * y + m) + DaysForMonth(m, DetermineYear(Start(12 * y + m)))
  {
    hide DaysForMonth, DetermineYear;
    MonthInYear(y, m);
  }

  lemma {:induction false} InYear(y: nat, m: nat, feb: int)
    requires m <= 12 && feb == DaysForMonth(1, DetermineYear(Start(12 * y) + 31))
    ensures Start(12 * y + m) == Start(12 * y) + BeforeMonth(m, feb)
  {
    if m > 0 {
      hide Start, DaysForMonth, DetermineYear;
      InYear(y, m - 1, feb);
      LoopStep(y, m - 1);
      BeforeNextMonth(m - 1, feb, DetermineYear(Start(12 * y + m - 1)));
      hide BeforeMonth;
    } else {
      hide Start, DaysForMonth;
    }
  }

  lemma WholeYear(y: nat, feb: int)
    requires feb == DaysForMonth(1, DetermineYear(Start(12 * y) + 31))
    ensures Start(12 * (y + 1)) == Start(12 * y) + 337 + feb
  {
    hide Start, DaysForMonth, DetermineYear;
    InYear(y, 12, feb);
    assert 12 * (y + 1) == 12 * y + 12;
  }

  lemma Februaries()
    ensures DaysForMonth(1, 2016) == 29 && DaysForMonth(1, 2017) == 28 && DaysForMonth(1, 2018) == 28
    ensures DaysForMonth(1, 2019) == 28 && DaysForMonth(1, 2020) == 29 && DaysForMonth(1, 2021) == 28
  {
  }

  /** The first four years begin where they should. */
  lemma {:induction false} YearStarts(y: nat)
    requires y <= 4
    ensures Start(12 * y) == [0, 366, 731, 1096, 1461][y]
  {
    if y > 0 {
      Februaries();
      hide Start, DaysForMonth;
      YearStarts(y - 1);
      WholeYear(y - 1, if y == 1 then 29 else 28);
    }
  }

  /** From day 1462 on every year is taken for 2020 and has 366 days. */
  lemma {:induction false} LaterYears(j: nat)
    ensures Start(48 + 12 * j) == 1461 + 366 * j
  {
    Februaries();
    hide Start, DaysForMonth;
    if j == 0 {
      YearStarts(4);
    } else {
      LaterYears(j - 1);
      InYear(j + 3, 12, 29);
    }
  }

  lemma {:induction false} StartShift(k: nat)
    requires k >= 48
    ensures Start(k) >= 1461 && Start(k + 12) == Start(k) + 366
  {
    if k == 48 {
      LaterYears(0);
      LaterYears(1);
    } else {
      StartShift(k - 1);
      assert (k - 1) % 12 == (k + 11) % 12;
    }
  }

  /** Beyond day 1461 the months repeat every 366 days. */
  lemma MonthsRepeat(day: int, k: nat)
    requires day > 1461
    ensures InMonth(day, k) ==> InMonth(day + 366, k + 12)
  {
    if InMonth(day, k) {
      if k < 48 {
        LaterYears(0);
        StartsRise(k + 1, 48);
      }
      StartShift(k);
      StartShift(k + 1);
    }
  }

  // Against the calendar.

  /** The days before month `k` when every year is its own. */
  function CalendarStart(k: nat): nat {
    if k == 0 then 0 else CalendarStart(k - 1) + DaysForMonth((k - 1) % 12, 2016 + (k - 1) / 12)
  }

  lemma CalendarStep(y: nat, m: nat)
    requires m < 12
    ensures CalendarStart(12 * y + m + 1) == CalendarStart(12 * y + m) + DaysForMonth(m, 2016 + y)
  {
    hide DaysForMonth;
    MonthInYear(y, m);
  }

  lemma {:induction false} CalendarInYear(y: nat, m: nat)
    requires m <= 12
    ensures CalendarStart(12 * y + m) == CalendarStart(12 * y) + BeforeMonth(m, DaysForMonth(1, 2016 + y))
  {
    hide CalendarStart, DaysForMonth;
    if m > 0 {
      CalendarInYear(y, m - 1);
      CalendarStep(y, m - 1);
      BeforeNextMonth(m - 1, DaysForMonth(1, 2016 + y), 2016 + y);
      hide BeforeMonth;
    }
  }

  /** The leap days of the first `y` years from 2016 on, by the Gregorian rule. */
  function LeapDays(y: nat): int {
    (2015 + y) / 4 - (2015 + y) / 100 + (2015 + y) / 400 - 488
  }

  /** The calendar's years, in closed form. */
  lemma {:induction false} CalendarYear(y: nat)
    ensures CalendarStart(12 * y) == 365 * y + LeapDays(y)
  {
    if y > 0 {
      hide CalendarStart, LeapDays, DaysForMonth;
      CalendarYear(y - 1);
      CalendarWholeYear(y - 1);
      LeapDaysStep(y - 1);
    }
  }

  lemma CalendarWholeYear(y: nat)
    ensures CalendarStart(12 * (y + 1)) == CalendarStart(12 * y) + 337 + DaysForMonth(1, 2016 + y)
  {
    hide CalendarStart, DaysForMonth;
    CalendarInYear(y, 12);
    assert 12 * (y + 1) == 12 * y + 12;
  }

  lemma LeapDaysStep(y: nat)
    ensures LeapDays(y + 1) == LeapDays(y) + DaysForMonth(1, 2016 + y) - 28
  {
    var n := 2016 + y;
    Multiples(n, 4);
    Multiples(n, 100);
    Multiples(n, 400);
    MultipleOfMultiple(n);
    GregorianFebruary(n);
    hide DaysForMonth;
  }

  lemma GregorianFebruary(year: int)
    requires year > 1582
    ensures DaysForMonth(1, year) == if year % 4 == 0 && (year % 100 != 0 || year % 400 == 0) then 29 else 28
  {
  }

  lemma MultipleOfMultiple(n: nat)
    ensures n % 400 == 0 ==> n % 100 == 0
    ensures n % 100 == 0 ==> n % 4 == 0
  {
    if n % 400 == 0 {
      assert n == 100 * (4 * (n / 400));
      Multiple100(4 * (n / 400));
    }
    if n % 100 == 0 {
      assert n == 4 * (25 * (n / 100));
      Multiple4(25 * (n / 100));
    }
  }

  lemma Multiple100(a: nat)
    ensures 100 * a % 100 == 0
  {
  }

  lemma Multiple4(a: nat)
    ensures 4 * a % 4 == 0
  {
  }

  /** Division by `d` steps at the multiples of `d`. */
  lemma Multiples(n: nat, d: nat)
    requires n > 0 && (d == 4 || d == 100 || d == 400)
    ensures n / d == (n - 1) / d + if n % d == 0 then 1 else 0
  {
  }

  /** In each of the first five Februaries the loop looks up the right year. */
  lemma FebruaryAgrees(y: nat)
    requires y <= 4
    ensures DetermineYear(Start(12 * y + 1)) == 2016 + y
  {
    YearStarts(y);
    InYear(y, 1, DaysForMonth(1, DetermineYear(Start(12 * y) + 31)));
    hide Start;
  }

  lemma {:induction false} AgreeUntilFebruary(k: nat)
    requires k <= 61
    ensures Start(k) == CalendarStart(k)
  {
    if k > 0 {
      AgreeUntilFebruary(k - 1);
      var y := (k - 1) / 12;
      if (k - 1) % 12 == 1 {
        assert k - 1 == 12 * y + 1;
        FebruaryAgrees(y);
      }
    }
  }

  lemma FebruaryLags()
    ensures CalendarStart(62) == CalendarStart(61) + 28 && Start(62) == Start(61) + 29
  {
    Februaries();
    LaterYears(1);
    InYear(5, 1, 29);
    assert 61 % 12 == 1 && 61 / 12 == 5;
    hide DaysForMonth;
  }

  /** February 2021 gets a 29th day that the calendar does not have; the gap never closes. */
  lemma {:induction false} CalendarLags(k: nat)
    requires k >= 62
    ensures CalendarStart(k) < Start(k)
  {
    if k == 62 {
      AgreeUntilFebruary(61);
      FebruaryLags();
    } else {
      CalendarLags(k - 1);
      StartShift(k - 1);
    }
  }

  /** The loop's months begin when the calendar's do exactly up to February 2021. */
  lemma CalendarAgreesIff(k: nat)
    ensures Start(k) == CalendarStart(k) <==> k <= 61
  {
    if k >= 62 {
      CalendarLags(k);
    } else {
      AgreeUntilFebruary(k);
    }
  }

  /** The loop's months never begin before the calendar's. */
  lemma StartsNotEarly(k: nat)
    ensures CalendarStart(k) <= Start(k)
  {
    CalendarAgreesIff(k);
    if k >= 62 {
      CalendarLags(k);
    }
  }

  lemma {:induction false} CalendarStartsRise(j: nat, k: nat)
    requires j <= k
    ensures CalendarStart(j) <= CalendarStart(k)
  {
    if j < k {
      CalendarStartsRise(j, k - 1);
    }
  }

  /** Day `day` lies in month `k` of the calendar, months being counted from January 2016. */
  ghost predicate InCalendarMonth(day: int, k: nat) {
    CalendarStart(k) < day <= CalendarStart(k + 1)
  }

  /** The loop puts a day into its calendar month exactly when that month has not ended before the day. */
  lemma CalendarMonthIff(day: int, k: nat)
    requires InMonth(day, k)
    ensures InCalendarMonth(day, k) <==> day <= CalendarStart(k + 1)
  {
    StartsNotEarly(k);
    hide Start, CalendarStart;
  }

  /** The day falls between the calendar's beginning of a month and the loop's. */
  ghost predicate Between(day: int, j: nat) {
    j >= 62 && CalendarStart(j) < day <= Start(j)
  }

  /** The beginnings of months that a day lies between are those the loop has still to reach. */
  lemma BetweenIff(day: int, k: nat, c: nat, j: nat)
    requires InMonth(day, k) && InCalendarMonth(day, c)
    ensures k <= c
    ensures Between(day, j) <==> k < j <= c
  {
    hide Start, CalendarStart;
    NotAhead(day, k, c);
    CalendarAgreesIff(j);
    if j <= k {
      StartsRise(j, k);
    } else {
      StartsRise(k + 1, j);
    }
    if j <= c {
      CalendarStartsRise(j, c);
    } else {
      CalendarStartsRise(c + 1, j);
    }
  }

  lemma NotAhead(day: int, k: nat, c: nat)
    requires InMonth(day, k) && InCalendarMonth(day, c)
    ensures k <= c
  {
    hide Start, CalendarStart;
    StartsNotEarly(k);
    if c < k {
      CalendarStartsRise(c + 1, k);
    }
  }

  /** The months whose beginning the day lies between. */
  ghost function Missed(day: int): (r: set<nat>)
    ensures forall j: nat :: j in r <==> Between(day, j)
  {
    forall j: nat ensures Between(day, j) ==> j < day {
      CalendarMonthsAreLong(j);
    }
    set j: nat | j < day && Between(day, j)
  }

  lemma {:induction false} CalendarMonthsAreLong(k: nat)
    ensures CalendarStart(k) >= 28 * k
  {
    if k > 0 {
      CalendarMonthsAreLong(k - 1);
    }
  }

  ghost function Interval(k: nat, c: nat): (r: set<nat>)
    requires k <= c
    ensures |r| == c - k && forall j: nat :: j in r <==> k < j <= c
  {
    if k == c then {} else Interval(k, c - 1) + {c}
  }

  /** How many months the loop is behind the calendar on that day. */
  lemma MissedSize(day: int, k: nat, c: nat)
    requires InMonth(day, k) && InCalendarMonth(day, c)
    ensures k <= c && |Missed(day)| == c - k
  {
    BetweenIff(day, k, c, 0);
    forall j: nat ensures j in Missed(day) <==> j in Interval(k, c) {
      BetweenIff(day, k, c, j);
    }
    assert Missed(day) == Interval(k, c);
  }

  /** The month that is returned is the calendar's exactly when the loop is behind by whole years. */
  lemma ReturnedMonthIff(day: int, k: nat, c: nat)
    requires InMonth(day, k) && InCalendarMonth(day, c)
    ensures k % 12 == c % 12 <==> |Missed(day)| % 12 == 0
  {
    MissedSize(day, k, c);
    SameRemainder(k, c);
  }

  lemma SameRemainder(k: nat, c: nat)
    requires k <= c
    ensures k % 12 == c % 12 <==> (c - k) % 12 == 0
  {
  }

  /** Counted since January 2016, the loop's month is the calendar's exactly when it misses no beginning of a month. */
  lemma MisplacedIff(day: int, k: nat)
    requires InMonth(day, k)
    ensures InCalendarMonth(day, k) <==> Missed(day) == {}
  {
    CalendarMonthIff(day, k);
    if day > CalendarStart(k + 1) {
      CalendarAgreesIff(k + 1);
      hide Start, CalendarStart;
      assert Between(day, k + 1);
      assert k + 1 in Missed(day);
    } else {
      MissedSize(day, k, k);
    }
  }

  /** No day up to 28 February 2021 is misplaced; 1 March still gets February, and 2 March is right again. */
  lemma FirstMisplacedDay(day: int, k: nat)
    requires InMonth(day, k) && day <= 1888
    ensures InCalendarMonth(day, k) <==> day != 1887
  {
    hide Start, CalendarStart;
    EndOfFebruary2021();
    CalendarMonthIff(day, k);
    if k <= 60 {
      StartsRise(k + 1, 61);
      CalendarAgreesIff(k + 1);
    } else if k >= 62 {
      CalendarStartsRise(63, k + 1);
      if k >= 63 {
        StartsRise(63, k);
      }
    }
  }

  // The gap grows until no day is right any more.

  function Lag(k: nat): (r: nat)
  {
    StartsNotEarly(k);
    Start(k) - CalendarStart(k)
  }

  /** From 2020 on every February of the loop has 29 days; all other months are right. */
  lemma LagStep(k: nat)
    requires k >= 48
    ensures Lag(k + 1) == Lag(k) + if k % 12 == 1 then 29 - DaysForMonth(1, 2016 + k / 12) else 0
    ensures Lag(k + 1) >= Lag(k)
  {
    Februaries();
    StartShift(k);
    assert CalendarStart(k + 1) == CalendarStart(k) + DaysForMonth(k % 12, 2016 + k / 12);
    assert Start(k + 1) == Start(k) + DaysForMonth(k % 12, 2020);
  }

  lemma {:induction false} LagRises(j: nat, k: nat)
    requires 48 <= j <= k
    ensures Lag(k) >= Lag(j)
  {
    if j < k {
      LagRises(j, k - 1);
      hide Lag, DaysForMonth;
      LagStep(k - 1);
    }
  }

  /** The loop's years from 2020 on, in closed form. */
  lemma LoopYear(y: nat, m: nat)
    requires y >= 4 && m <= 12
    ensures Start(12 * y + m) == 1461 + 366 * (y - 4) + BeforeMonth(m, 29)
  {
    LaterYears(y - 4);
    Februaries();
    hide Start, DaysForMonth;
    InYear(y, m, 29);
  }

  /** The gap in closed form: a day for every common year since 2020. */
  lemma LagOf(y: nat, m: nat)
    requires y >= 4 && m <= 12
    ensures Lag(12 * y + m) == y - 3 - LeapDays(y) + if m <= 1 then 0 else 29 - DaysForMonth(1, 2016 + y)
  {
    hide Start, CalendarStart, DaysForMonth, LeapDays;
    LoopYear(y, m);
    CalendarYear(y);
    CalendarInYear(y, m);
  }

  /** The gap is a month of 31 days wide from March 2061 on; January 2061 still begins 30 days late. */
  lemma January2061()
    ensures Start(540) == 16467 && CalendarStart(541) == 16468 && Start(541) == 16498
    ensures CalendarStart(542) <= Start(541) && Lag(542) == 31
  {
    hide Start, CalendarStart;
    LoopYear(45, 0);
    LoopYear(45, 1);
    LoopYear(45, 2);
    CalendarYear(45);
    CalendarInYear(45, 1);
    CalendarInYear(45, 2);
  }

  lemma CalendarMonthsAreShort(k: nat)
    ensures CalendarStart(k + 1) <= CalendarStart(k) + 31
  {
  }

  lemma MonthsAfterMarch2061(k: nat)
    requires k >= 542
    ensures CalendarStart(k + 1) <= Start(k)
  {
    hide Start, CalendarStart;
    January2061();
    LagRises(542, k);
    CalendarMonthsAreShort(k);
  }

  /**
   31 January 2061, day 16468, is the last day that gets its calendar month and year.  The
   month that is returned comes right again, because it does not tell the years apart.
   */
  lemma LastRightDay(day: int, k: nat)
    requires InMonth(day, k) && day >= 16468
    ensures InCalendarMonth(day, k) <==> day == 16468
  {
    hide Start, CalendarStart;
    January2061();
    CalendarMonthIff(day, k);
    if k < 540 {
      StartsRise(k + 1, 540);
    } else if k >= 542 {
      MonthsAfterMarch2061(k);
      StartsRise(541, k);
    }
  }

  lemma TwelveMonths(y: nat, m: nat)
    requires m < 12
    ensures CalendarStart(12 * (y + 1) + m) >= CalendarStart(12 * y + m) + 365
  {
    hide CalendarStart, DaysForMonth, LeapDays;
    CalendarInYear(y, m);
    CalendarInYear(y + 1, m);
    CalendarYear(y);
    CalendarYear(y + 1);
    LeapDaysStep(y);
    FebruaryBounds(2016 + y);
    FebruaryBounds(2017 + y);
  }

  /** Eleven months, whatever the first, have at least 334 days. */
  lemma ElevenMonths(k: nat)
    ensures CalendarStart(k + 12) >= CalendarStart(k + 1) + 334
  {
    hide CalendarStart;
    TwelveMonths(k / 12, k % 12);
    assert k == 12 * (k / 12) + k % 12 && k + 12 == 12 * (k / 12 + 1) + k % 12;
    CalendarMonthsAreShort(k);
  }

  lemma FebruaryBounds(year: int)
    ensures 28 <= DaysForMonth(1, year) <= 29
  {
  }

  /** The months around March 2463, when the loop is almost a year behind. */
  lemma March2463()
    ensures Start(5354) == 163293 && Start(5355) == 163324 && Lag(5353) == 334
    ensures CalendarStart(5365) == 163295 && CalendarStart(5366) == 163323 && CalendarStart(5367) == 163354
  {
    hide Start, CalendarStart;
    LoopYear(446, 2);
    LoopYear(446, 3);
    LagOf(446, 1);
    CalendarYear(447);
    CalendarInYear(447, 1);
    CalendarInYear(447, 2);
    CalendarInYear(447, 3);
  }

  /** 1 March 2463, day 163324, is the first day after January 2061 for which the month returned is right again. */
  lemma RightAgainIn2463(day: int, k: nat, c: nat)
    requires InMonth(day, k) && InCalendarMonth(day, c) && 16468 < day <= 163324
    ensures k % 12 == c % 12 <==> day == 163324
  {
    hide Start, CalendarStart;
    BetweenIff(day, k, c, 0);
    LastRightDay(day, k);
    assert k < c;
    March2463();
    if day == 163324 {
      MonthUnique(day, k, 5354);
      CalendarMonthUnique(day, c, 5366);
    } else {
      LessThanAYear(day, k, c);
      SameRemainder(k, c);
    }
  }

  /** Every day from 1 on has a calendar month. */
  lemma HasCalendarMonth(day: int) returns (c: nat)
    requires day >= 1
    ensures InCalendarMonth(day, c)
  {
    CalendarMonthsAreLong(day);
    c := FindCalendarMonth(day, day);
  }

  lemma {:induction false} FindCalendarMonth(day: int, limit: nat) returns (c: nat)
    requires 1 <= day <= CalendarStart(limit)
    ensures InCalendarMonth(day, c)
  {
    if limit > 0 && day <= CalendarStart(limit - 1) {
      c := FindCalendarMonth(day, limit - 1);
    } else {
      c := limit - 1;
    }
  }

  lemma CalendarMonthUnique(day: int, j: nat, k: nat)
    requires InCalendarMonth(day, j) && InCalendarMonth(day, k)
    ensures j == k
  {
    if j < k {
      CalendarStartsRise(j + 1, k);
    } else if k < j {
      CalendarStartsRise(k + 1, j);
    }
  }

  /** Until then the loop is less than a year behind. */
  lemma LessThanAYear(day: int, k: nat, c: nat)
    requires InMonth(day, k) && InCalendarMonth(day, c) && 16468 < day < 163324
    ensures c < k + 12
  {
    hide Start, CalendarStart;
    March2463();
    January2061();
    if k < 540 {
      StartsRise(k + 1, 540);
    } else if k > 5354 {
      StartsRise(5355, k);
    } else {
      if k <= 5352 {
        LagRises(k + 1, 5353);
        ElevenMonths(k);
      }
      if c >= k + 12 {
        CalendarStartsRise(k + 12, c);
      }
    }
  }

  // The year and the lengths of the months on their own.

  /** Day `day` lies in the calendar's year 2016 + `y`. */
  ghost predicate InCalendarYear(day: int, y: nat) {
    CalendarStart(12 * y) < day <= CalendarStart(12 * (y + 1))
  }

  /**
   The year that is shown with a day is the calendar's exactly from day 1 until the end of
   2020, but for the last days of 2017, 2018 and 2019, which each threshold gives away too early.
   */
  lemma YearRightIff(day: int)
    ensures DetermineYear(day) >= 2016
    ensures InCalendarYear(day, DetermineYear(day) - 2016)
            <==> 1 <= day <= 1827 && day !in {731, 1095, 1096, 1459, 1460, 1461}
  {
    hide CalendarStart;
    var y := DetermineYear(day) - 2016;
    FirstYears(y);
    FirstYears(y + 1);
  }

  /** It never falls from one day to the next, and from 2020 on it stays. */
  lemma YearRises(d: int, e: int)
    requires d <= e
    ensures 2016 <= DetermineYear(d) <= DetermineYear(e) <= 2020
  {
  }

  lemma FirstYears(y: nat)
    requires y <= 5
    ensures CalendarStart(12 * y) == 365 * y + (y + 3) / 4
  {
    hide CalendarStart;
    CalendarYear(y);
  }

  /** The year of the reform, and a year 0, have no leap day. */
  lemma NoLeapDay()
    ensures DaysForMonth(1, 1582) == DaysForMonth(1, 0) == 28
  {
  }

  /** There is no year 0. */
  function YearAfter(year: int): int {
    if year == -1 then 1 else year + 1
  }

  /** Before 1582 every fourth year is a leap year, counted without a year 0; the year 4 is one. */
  lemma JulianLeapYears(year: int)
    requires year < 1578 && year != 0
    ensures DaysForMonth(1, 4) == 29
    ensures DaysForMonth(1, year) == DaysForMonth(1, YearAfter(YearAfter(YearAfter(YearAfter(year)))))
    ensures DaysForMonth(1, year) == 29 ==> DaysForMonth(1, YearAfter(year))
                                            == DaysForMonth(1, YearAfter(YearAfter(year)))
                                            == DaysForMonth(1, YearAfter(YearAfter(YearAfter(year)))) == 28
  {
  }

  /** From 1583 on the Februaries of any run of years follow the Gregorian rule, in closed form. */
  lemma {:induction false} GregorianLeapDays(year: int, n: nat)
    requires year > 1582
    ensures FebruaryDays(year, n) == 28 * n + LeapDaysBefore(year + n) - LeapDaysBefore(year)
  {
    if n > 0 {
      GregorianLeapDays(year, n - 1);
      var last := year + n - 1;
      Multiples(last, 4);
      Multiples(last, 100);
      Multiples(last, 400);
      MultipleOfMultiple(last);
      GregorianFebruary(last);
      hide DaysForMonth;
    }
  }

  /** The days of the Februaries of `n` years. */
  function FebruaryDays(year: int, n: nat): int {
    if n == 0 then 0 else FebruaryDays(year, n - 1) + DaysForMonth(1, year + n - 1)
  }

  /** The years before `year` that the Gregorian rule makes leap years. */
  function LeapDaysBefore(year: int): int {
    (year - 1) / 4 - (year - 1) / 100 + (year - 1) / 400
  }

  lemma EndOfFebruary2021()
    ensures Start(61) == 1858 && Start(62) == 1887 && Start(63) == 1918
    ensures CalendarStart(62) == 1886 && CalendarStart(63) == 1917
  {
    hide Start, CalendarStart;
    LoopYear(5, 1);
    LoopYear(5, 2);
    LoopYear(5, 3);
    CalendarYear(5);
    CalendarInYear(5, 2);
    CalendarInYear(5, 3);
  }
}
