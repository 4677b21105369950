/** What the calendar GetCalendarDays builds says about each day of the
    year: the statutory holidays win over every other rule, every day of a
    break's range carries its label unless a named holiday or day off holds
    it, the ordinary days next to the breaks are plain, and the 2020
    amendment moves the ends of the breaks. The lemmas
    hold for any anchors in their ranges, so in particular for YearAnchors. */
module CalendarProperties {
  import opened Dates
  import opened CalendarYear

  // ---------------------------------------------------------------------
  // Reading the first-write-wins table

  /** Rules that all miss day `n` only move the first rule covering it
      further back. */
  lemma {:induction false} FirstCoveringAfter(pre: seq<Rule>, post: seq<Rule>, n: int)
    requires forall j :: 0 <= j < |pre| ==> !Covers(pre[j], n)
    ensures FirstCovering(pre + post, n) == |pre| + FirstCovering(post, n)
  {
    if pre != [] {
      assert (pre + post)[1..] == pre[1..] + post;
      FirstCoveringAfter(pre[1..], post, n);
    } else {
      assert pre + post == post;
    }
  }

  /** A day that is not one of the thirteen statutory dates is covered by
      none of the first thirteen rules. */
  lemma NotStatutory(year: int, a: Anchors, n: int)
    requires ValidYear(year) && AnchorsInRange(year, a)
    requires n !in StatutoryDays(year, a.easterSunday)
    ensures forall j :: 0 <= j < 13 ==> !Covers(Rules(year, a)[j], n)
  {
    var rules := Rules(year, a);
    var days := StatutoryDays(year, a.easterSunday);
    forall j | 0 <= j < 13
      ensures !Covers(rules[j], n)
    {
      assert rules[j] == StatutoryRules(year, a.easterSunday)[j];
      assert rules[j].day == days[j];
    }
  }

  /** The statutory dates in table order are increasing, except that
      Ascension (Easter + 39, from April 30th to June 3rd) may fall before,
      on or after May 1st. */
  lemma StatutoryOrder(year: int, easterSunday: int)
    requires ValidYear(year) && GetDate(year, 3, 22) <= easterSunday <= GetDate(year, 4, 25)
    ensures var days := StatutoryDays(year, easterSunday);
      && days[0] < days[1] < days[2] < days[3] < days[5]
      && days[2] < days[4] < days[5] < days[6] < days[7]
      && days[7] < days[8] < days[9] < days[10] < days[11] < days[12]
  {
  }

  /** The i-th statutory date, unless an earlier statutory date is the same
      day, carries the i-th statutory name. */
  lemma StatutoryEntry(year: int, a: Anchors, i: int)
    requires ValidYear(year) && AnchorsInRange(year, a) && 0 <= i < 13
    requires forall j :: 0 <= j < i ==> StatutoryDays(year, a.easterSunday)[j] != StatutoryDays(year, a.easterSunday)[i]
    ensures var n := StatutoryDays(year, a.easterSunday)[i];
      DayEntry(year, a, n) == Entry(year, n, Holiday(StatutoryNames[i]))
  {
    var rules := Rules(year, a);
    var statutory := StatutoryRules(year, a.easterSunday);
    var n := StatutoryDays(year, a.easterSunday)[i];
    assert rules[i] == statutory[i];
    forall j | 0 <= j < i
      ensures !Covers(rules[j], n)
    {
      assert rules[j] == statutory[j];
    }
    assert FirstCovering(rules, n) == i;
  }

  /** The rules after the thirteen statutory ones: the two Sundays, then
      the breaks. */
  function LaterRules(year: int, a: Anchors): (rules: seq<Rule>)
    requires ValidYear(year) && AnchorsInRange(year, a)
  {
    SundayRules(year, a.easterSunday) + BreakRules(year, a)
  }

  /** On a day that is not a statutory date, the first of the later rules
      that covers it decides the entry, and with none covering it the
      catch-all leaves a plain working day. */
  lemma LaterEntry(year: int, a: Anchors, n: int, k: int)
    requires ValidYear(year) && AnchorsInRange(year, a) && 1 <= n <= DaysInYear(year)
    requires n !in StatutoryDays(year, a.easterSunday)
    requires 0 <= k <= |LaterRules(year, a)|
    requires k < |LaterRules(year, a)| ==> Covers(LaterRules(year, a)[k], n)
    requires forall j :: 0 <= j < k ==> !Covers(LaterRules(year, a)[j], n)
    ensures DayEntry(year, a, n) ==
      if k < |LaterRules(year, a)| then Entry(year, n, LaterRules(year, a)[k].mark)
      else Entry(year, n, Plain)
  {
    var statutory := StatutoryRules(year, a.easterSunday);
    var later := LaterRules(year, a);
    assert Rules(year, a) == statutory + later;
    forall j | 0 <= j < 13
      ensures !Covers(statutory[j], n)
    {
      assert statutory[j].day == StatutoryDays(year, a.easterSunday)[j];
    }
    FirstCoveringAfter(statutory, later, n);
    assert FirstCovering(later, n) == k;
  }

  // ---------------------------------------------------------------------
  // Statutory holidays

  /** A day carries the public-holiday flag exactly when it is one of the
      thirteen statutory dates, and then its text is one of the thirteen
      names: those rules run first, and no later rule sets the flag. */
  lemma HolidayIffStatutory(year: int, a: Anchors, n: int)
    requires ValidYear(year) && AnchorsInRange(year, a) && 1 <= n <= DaysInYear(year)
    ensures DayEntry(year, a, n).isPublicHoliday <==> n in StatutoryDays(year, a.easterSunday)
    ensures DayEntry(year, a, n).isPublicHoliday ==> DayEntry(year, a, n).text.value in StatutoryNames
  {
    var rules := Rules(year, a);
    var days := StatutoryDays(year, a.easterSunday);
    var k := FirstCovering(rules, n);
    if n in days {
      var i :| 0 <= i < 13 && days[i] == n;
      assert rules[i] == StatutoryRules(year, a.easterSunday)[i];
      assert k <= i;
      assert rules[k] == StatutoryRules(year, a.easterSunday)[k];
    } else {
      NotStatutory(year, a, n);
      assert k >= 13;
      if k < |rules| {
        if k < 15 {
          assert rules[k] == SundayRules(year, a.easterSunday)[k - 13];
        } else {
          assert rules[k] == BreakRules(year, a)[k - 15];
        }
      }
    }
  }

  // ---------------------------------------------------------------------
  // Easter break and the 2020 amendment

  /** Osterferien run from the Saturday eight days before Easter Sunday up
      to, not including, Easter + 3 before 2020 and Easter + 2 from 2020 on;
      Easter Sunday and Easter Monday inside them keep their own entries. */
  lemma EasterBreak(year: int, a: Anchors, n: int)
    requires ValidYear(year) && AnchorsInRange(year, a)
    requires a.easterSunday - 8 <= n < a.easterSunday + (if year < 2020 then 3 else 2)
    requires n != a.easterSunday && n != a.easterSunday + 1
    ensures 1 <= n <= DaysInYear(year)
    ensures DayEntry(year, a, n) == Entry(year, n, DayOff("Osterferien"))
  {
    LaterEntry(year, a, n, 4);
  }

  /** Easter Sunday is a named day off, not a public holiday. */
  lemma EasterSundayEntry(year: int, a: Anchors)
    requires ValidYear(year) && AnchorsInRange(year, a)
    ensures DayEntry(year, a, a.easterSunday) == Entry(year, a.easterSunday, DayOff("Ostersonntag"))
  {
    LaterEntry(year, a, a.easterSunday, 0);
  }

  /** Easter Monday is a public holiday. */
  lemma EasterMondayEntry(year: int, a: Anchors)
    requires ValidYear(year) && AnchorsInRange(year, a)
    ensures DayEntry(year, a, a.easterSunday + 1) == Entry(year, a.easterSunday + 1, Holiday("Ostermontag"))
  {
    StatutoryOrder(year, a.easterSunday);
    StatutoryEntry(year, a, 2);
  }

  /** The day after the Osterferien is an ordinary day: before 2020 the
      Wednesday, from 2020 on the Tuesday after Easter. */
  lemma AfterEasterBreak(year: int, a: Anchors)
    requires ValidYear(year) && AnchorsInRange(year, a)
    ensures var n := a.easterSunday + (if year < 2020 then 3 else 2);
      1 <= n <= DaysInYear(year) && DayEntry(year, a, n) == Entry(year, n, Plain)
  {
    var n := a.easterSunday + (if year < 2020 then 3 else 2);
    LaterEntry(year, a, n, |LaterRules(year, a)|);
  }

  /** The day before the Osterferien, a Friday, is an ordinary day. */
  lemma BeforeEasterBreak(year: int, a: Anchors)
    requires ValidYear(year) && AnchorsInRange(year, a)
    ensures var n := a.easterSunday - 9;
      1 <= n <= DaysInYear(year) && DayEntry(year, a, n) == Entry(year, n, Plain)
  {
    var n := a.easterSunday - 9;
    LaterEntry(year, a, n, |LaterRules(year, a)|);
  }

  /** Pfingstferien run from the Saturday before Whit Sunday up to, not
      including, Easter + 52 before 2020 and Easter + 51 from 2020 on; Whit
      Sunday and Whit Monday inside them keep their own entries. */
  lemma WhitsunBreak(year: int, a: Anchors, n: int)
    requires ValidYear(year) && AnchorsInRange(year, a)
    requires a.easterSunday + 48 <= n < a.easterSunday + (if year < 2020 then 52 else 51)
    requires n != a.easterSunday + 49 && n != a.easterSunday + 50
    ensures 1 <= n <= DaysInYear(year)
    ensures DayEntry(year, a, n) == Entry(year, n, DayOff("Pfingstferien"))
  {
    LaterEntry(year, a, n, 5);
  }

  /** Whit Sunday is a named day off, not a public holiday. */
  lemma WhitSundayEntry(year: int, a: Anchors)
    requires ValidYear(year) && AnchorsInRange(year, a)
    ensures DayEntry(year, a, a.easterSunday + 49) == Entry(year, a.easterSunday + 49, DayOff("Pfingstsonntag"))
  {
    LaterEntry(year, a, a.easterSunday + 49, 1);
  }

  /** Whit Monday is a public holiday. */
  lemma WhitMondayEntry(year: int, a: Anchors)
    requires ValidYear(year) && AnchorsInRange(year, a)
    ensures DayEntry(year, a, a.easterSunday + 50) == Entry(year, a.easterSunday + 50, Holiday("Pfingstmontag"))
  {
    StatutoryOrder(year, a.easterSunday);
    StatutoryEntry(year, a, 5);
  }

  /** The day before the Pfingstferien, the Friday before Whit Sunday, is an
      ordinary day. */
  lemma BeforeWhitsunBreak(year: int, a: Anchors)
    requires ValidYear(year) && AnchorsInRange(year, a)
    ensures var n := a.easterSunday + 47;
      1 <= n <= DaysInYear(year) && DayEntry(year, a, n) == Entry(year, n, Plain)
  {
    LaterEntry(year, a, a.easterSunday + 47, |LaterRules(year, a)|);
  }

  /** The day after the Pfingstferien is an ordinary day: before 2020 the
      Wednesday, from 2020 on the Tuesday after Whit Monday. */
  lemma AfterWhitsunBreak(year: int, a: Anchors)
    requires ValidYear(year) && AnchorsInRange(year, a)
    ensures var n := a.easterSunday + (if year < 2020 then 52 else 51);
      1 <= n <= DaysInYear(year) && DayEntry(year, a, n) == Entry(year, n, Plain)
  {
    var n := a.easterSunday + (if year < 2020 then 52 else 51);
    LaterEntry(year, a, n, |LaterRules(year, a)|);
  }

  /** October 27th to 31st are Herbstferien from 2020 on and ordinary days before. */
  lemma AutumnBreak(year: int, a: Anchors, n: int)
    requires ValidYear(year) && AnchorsInRange(year, a)
    requires GetDate(year, 10, 27) <= n <= GetDate(year, 10, 31)
    ensures 1 <= n <= DaysInYear(year)
    ensures DayEntry(year, a, n) ==
      if year >= 2020 then Entry(year, n, DayOff("Herbstferien")) else Entry(year, n, Plain)
  {
    if year >= 2020 {
      LaterEntry(year, a, n, 10);
    } else {
      LaterEntry(year, a, n, |LaterRules(year, a)|);
    }
  }

  // ---------------------------------------------------------------------
  // The other breaks and days off

  /** January 2nd to 5th are the first part of the Weihnachtsferien. */
  lemma JanuaryBreak(year: int, a: Anchors, n: int)
    requires ValidYear(year) && AnchorsInRange(year, a)
    requires GetDate(year, 1, 2) <= n <= GetDate(year, 1, 5)
    ensures 1 <= n <= DaysInYear(year)
    ensures DayEntry(year, a, n) == Entry(year, n, DayOff("Weihnachtsferien"))
  {
    LaterEntry(year, a, n, 2);
  }

  /** Semesterferien are exactly the six days from the Monday that starts
      them: the day before and the day after are ordinary days. */
  lemma SemesterBreak(year: int, a: Anchors, n: int)
    requires ValidYear(year) && AnchorsInRange(year, a)
    requires a.semesterHolidayBegin - 1 <= n <= a.semesterHolidayBegin + 6
    ensures 1 <= n <= DaysInYear(year)
    ensures DayEntry(year, a, n) ==
      if a.semesterHolidayBegin <= n < a.semesterHolidayBegin + 6 then Entry(year, n, DayOff("Semesterferien"))
      else Entry(year, n, Plain)
  {
    if a.semesterHolidayBegin <= n < a.semesterHolidayBegin + 6 {
      LaterEntry(year, a, n, 3);
    } else {
      LaterEntry(year, a, n, |LaterRules(year, a)|);
    }
  }

  /** Sommerferien fill [mainHolidayBegin, schoolyearBegin), except August
      15th, which stays a public holiday. AssumptionDay shows the range is
      never empty. */
  lemma SummerBreak(year: int, a: Anchors, n: int)
    requires ValidYear(year) && AnchorsInRange(year, a)
    requires a.mainHolidayBegin <= n < a.schoolyearBegin && n != GetDate(year, 8, 15)
    ensures 1 <= n <= DaysInYear(year)
    ensures DayEntry(year, a, n) == Entry(year, n, DayOff("Sommerferien"))
  {
    LaterEntry(year, a, n, 6);
  }

  /** August 15th, inside the Sommerferien, keeps its statutory entry. */
  lemma AssumptionDay(year: int, a: Anchors)
    requires ValidYear(year) && AnchorsInRange(year, a)
    ensures a.mainHolidayBegin < GetDate(year, 8, 15) < a.schoolyearBegin
    ensures DayEntry(year, a, GetDate(year, 8, 15)) == Entry(year, GetDate(year, 8, 15), Holiday("Mariä Himmelfahrt"))
  {
    StatutoryOrder(year, a.easterSunday);
    StatutoryEntry(year, a, 7);
  }

  /** The day before the Sommerferien is an ordinary day. */
  lemma BeforeSummerBreak(year: int, a: Anchors)
    requires ValidYear(year) && AnchorsInRange(year, a)
    ensures DayEntry(year, a, a.mainHolidayBegin - 1) == Entry(year, a.mainHolidayBegin - 1, Plain)
  {
    LaterEntry(year, a, a.mainHolidayBegin - 1, |LaterRules(year, a)|);
  }

  /** The first school day, the Monday that ends the Sommerferien, is an
      ordinary day. */
  lemma FirstSchoolDay(year: int, a: Anchors)
    requires ValidYear(year) && AnchorsInRange(year, a)
    ensures DayEntry(year, a, a.schoolyearBegin) == Entry(year, a.schoolyearBegin, Plain)
  {
    LaterEntry(year, a, a.schoolyearBegin, |LaterRules(year, a)|);
  }

  /** The second part of the Weihnachtsferien runs from its start to the end
      of the year, except Christmas Day and St. Stephen's Day. */
  lemma ChristmasBreak(year: int, a: Anchors, n: int)
    requires ValidYear(year) && AnchorsInRange(year, a)
    requires a.xmasHolidayBegin <= n <= DaysInYear(year)
    requires n != GetDate(year, 12, 25) && n != GetDate(year, 12, 26)
    ensures DayEntry(year, a, n) == Entry(year, n, DayOff("Weihnachtsferien"))
  {
    LaterEntry(year, a, n, 9);
  }

  /** Christmas Day, inside the Weihnachtsferien, keeps its statutory entry. */
  lemma ChristmasDay(year: int, a: Anchors)
    requires ValidYear(year) && AnchorsInRange(year, a)
    ensures a.xmasHolidayBegin < GetDate(year, 12, 25)
    ensures DayEntry(year, a, GetDate(year, 12, 25)) == Entry(year, GetDate(year, 12, 25), Holiday("Weihnachten"))
  {
    StatutoryOrder(year, a.easterSunday);
    StatutoryEntry(year, a, 11);
  }

  /** St. Stephen's Day, inside the Weihnachtsferien, keeps its statutory entry. */
  lemma SaintStephensDay(year: int, a: Anchors)
    requires ValidYear(year) && AnchorsInRange(year, a)
    ensures DayEntry(year, a, GetDate(year, 12, 26)) == Entry(year, GetDate(year, 12, 26), Holiday("Stephanstag"))
  {
    StatutoryOrder(year, a.easterSunday);
    StatutoryEntry(year, a, 12);
  }

  /** The day before the Weihnachtsferien start is an ordinary day. */
  lemma BeforeChristmasBreak(year: int, a: Anchors)
    requires ValidYear(year) && AnchorsInRange(year, a)
    ensures DayEntry(year, a, a.xmasHolidayBegin - 1) == Entry(year, a.xmasHolidayBegin - 1, Plain)
  {
    LaterEntry(year, a, a.xmasHolidayBegin - 1, |LaterRules(year, a)|);
  }

  /** November 2nd is Allerseelen, a named day off. */
  lemma AllSouls(year: int, a: Anchors)
    requires ValidYear(year) && AnchorsInRange(year, a)
    ensures DayEntry(year, a, GetDate(year, 11, 2)) == Entry(year, GetDate(year, 11, 2), DayOff("Allerseelen"))
  {
    LaterEntry(year, a, GetDate(year, 11, 2), 7);
  }

  /** November 15th, St. Leopold's Day, is a named day off (the text keeps
      the source's spelling). */
  lemma SaintLeopold(year: int, a: Anchors)
    requires ValidYear(year) && AnchorsInRange(year, a)
    ensures DayEntry(year, a, GetDate(year, 11, 15)) == Entry(year, GetDate(year, 11, 15), DayOff("Heiliger Lepopld"))
  {
    LaterEntry(year, a, GetDate(year, 11, 15), 8);
  }

  /** May 1st is Staatsfeiertag in every year, even when Ascension falls on
      it: its rule comes before Ascension's. */
  lemma MayDay(year: int, a: Anchors)
    requires ValidYear(year) && AnchorsInRange(year, a)
    ensures DayEntry(year, a, GetDate(year, 5, 1)) == Entry(year, GetDate(year, 5, 1), Holiday("Staatsfeiertag"))
  {
    StatutoryOrder(year, a.easterSunday);
    StatutoryEntry(year, a, 3);
  }

  // ---------------------------------------------------------------------
  // Particular years

  /** With the anchors GetCalendarDays computes (YearAnchors), the
      Weihnachtsferien include December 23rd exactly when that day is a
      Monday. */
  lemma ChristmasBreakStart(year: int, a: Anchors)
    requires ValidYear(year) && AnchorsInRange(year, a)
    requires a.xmasHolidayBegin == XmasHolidayBegin(year)
    ensures DayEntry(year, a, GetDate(year, 12, 23)).text == Some("Weihnachtsferien")
      <==> DayOfWeekAt(year, GetDate(year, 12, 23)) == Monday
  {
    if DayOfWeekAt(year, GetDate(year, 12, 23)) == Monday {
      ChristmasBreak(year, a, GetDate(year, 12, 23));
    } else {
      BeforeChristmasBreak(year, a);
    }
  }

  // Easter Sunday in particular years, with the algorithm's intermediate
  // values spelled out.

  lemma EasterIn2008()
    ensures CalcEasterSunday(2008) == Date(2008, 3, 23)
  {
    assert 2008 % 19 == 13 && 2008 / 100 == 20 && 2008 % 100 == 8;
    assert 20 / 4 == 5 && 20 % 4 == 0 && (20 + 8) / 25 == 1 && (20 - 1 + 1) / 3 == 6;
    assert (19 * 13 + 20 - 5 - 6 + 15) % 30 == 1;
    assert 8 / 4 == 2 && 8 % 4 == 0;
    assert (32 + 2 * 0 + 2 * 2 - 1 - 0) % 7 == 0;
    assert (13 + 11 * 1 + 22 * 0) / 451 == 0;
    assert (1 + 0 - 7 * 0 + 114) / 31 == 3 && (1 + 0 - 7 * 0 + 114) % 31 == 22;
  }

  lemma EasterIn2019()
    ensures CalcEasterSunday(2019) == Date(2019, 4, 21)
  {
    assert 2019 % 19 == 5 && 2019 / 100 == 20 && 2019 % 100 == 19;
    assert 20 / 4 == 5 && 20 % 4 == 0 && (20 + 8) / 25 == 1 && (20 - 1 + 1) / 3 == 6;
    assert (19 * 5 + 20 - 5 - 6 + 15) % 30 == 29;
    assert 19 / 4 == 4 && 19 % 4 == 3;
    assert (32 + 2 * 0 + 2 * 4 - 29 - 3) % 7 == 1;
    assert (5 + 11 * 29 + 22 * 1) / 451 == 0;
    assert (29 + 1 - 7 * 0 + 114) / 31 == 4 && (29 + 1 - 7 * 0 + 114) % 31 == 20;
  }

  lemma EasterIn2020()
    ensures CalcEasterSunday(2020) == Date(2020, 4, 12)
  {
    assert 2020 % 19 == 6 && 2020 / 100 == 20 && 2020 % 100 == 20;
    assert 20 / 4 == 5 && 20 % 4 == 0 && (20 + 8) / 25 == 1 && (20 - 1 + 1) / 3 == 6;
    assert (19 * 6 + 20 - 5 - 6 + 15) % 30 == 18;
    assert 20 / 4 == 5 && 20 % 4 == 0;
    assert (32 + 2 * 0 + 2 * 5 - 18 - 0) % 7 == 3;
    assert (6 + 11 * 18 + 22 * 3) / 451 == 0;
    assert (18 + 3 - 7 * 0 + 114) / 31 == 4 && (18 + 3 - 7 * 0 + 114) % 31 == 11;
  }

  lemma EasterIn2023()
    ensures CalcEasterSunday(2023) == Date(2023, 4, 9)
  {
    assert 2023 % 19 == 9 && 2023 / 100 == 20 && 2023 % 100 == 23;
    assert 20 / 4 == 5 && 20 % 4 == 0 && (20 + 8) / 25 == 1 && (20 - 1 + 1) / 3 == 6;
    assert (19 * 9 + 20 - 5 - 6 + 15) % 30 == 15;
    assert 23 / 4 == 5 && 23 % 4 == 3;
    assert (32 + 2 * 0 + 2 * 5 - 15 - 3) % 7 == 3;
    assert (9 + 11 * 15 + 22 * 3) / 451 == 0;
    assert (15 + 3 - 7 * 0 + 114) / 31 == 4 && (15 + 3 - 7 * 0 + 114) % 31 == 8;
  }

  lemma EasterIn2024()
    ensures CalcEasterSunday(2024) == Date(2024, 3, 31)
  {
    assert 2024 % 19 == 10 && 2024 / 100 == 20 && 2024 % 100 == 24;
    assert 20 / 4 == 5 && 20 % 4 == 0 && (20 + 8) / 25 == 1 && (20 - 1 + 1) / 3 == 6;
    assert (19 * 10 + 20 - 5 - 6 + 15) % 30 == 4;
    assert 24 / 4 == 6 && 24 % 4 == 0;
    assert (32 + 2 * 0 + 2 * 6 - 4 - 0) % 7 == 5;
    assert (10 + 11 * 4 + 22 * 5) / 451 == 0;
    assert (4 + 5 - 7 * 0 + 114) / 31 == 3 && (4 + 5 - 7 * 0 + 114) % 31 == 30;
  }

  /** Tuesday, November 15th 2022, is its own next Tuesday. */
  lemma NextTuesdayFromTuesday()
    ensures CalcDateOnNextWeekday(2022, GetDate(2022, 11, 15), Tuesday) == GetDate(2022, 11, 15)
  {
    assert GetDate(2022, 11, 15) == 319;
    assert DaysBeforeYear(2022) == 738155;
    assert DayOfWeekAt(2022, 319) == Tuesday;
  }

  /** From Wednesday, November 16th 2022, the next Tuesday is November 22nd. */
  lemma NextTuesdayFromWednesday()
    ensures CalcDateOnNextWeekday(2022, GetDate(2022, 11, 16), Tuesday) == GetDate(2022, 11, 22)
  {
    assert GetDate(2022, 11, 16) == 320;
    assert GetDate(2022, 11, 22) == 326;
    assert DaysBeforeYear(2022) == 738155;
    assert DayOfWeekAt(2022, 326) == Tuesday;
  }

  /** In 2008 Ascension falls on May 1st, where MayDay keeps Staatsfeiertag. */
  lemma AscensionOnMayDay2008()
    ensures ChristiHimmelfahrt(2008) == GetDate(2008, 5, 1)
  {
    EasterIn2008();
    assert EasterSunday(2008) == 83;
  }
}
