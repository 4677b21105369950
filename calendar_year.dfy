/** The CalendarYear class: for one year, the Austrian public holidays and
    school breaks as an array with one entry per day of the year.

    The class holds only its readonly year, so every property and helper is a
    function of `year` here. Dates inside the year are their day of the year
    (1 for January 1st); `DaysInYear(year) + 1` is "December 31st + 1", the
    exclusive end of the last ranges. */
module CalendarYear {
  import opened Dates

  datatype Option<+T> = None | Some(value: T)

  /** One entry of the result: the date, the public-holiday flag and the text. */
  datatype CalendarDay = CalendarDay(date: Date, isPublicHoliday: bool, text: Option<string>)

  /** What a converter passed to AddDays makes of each day it is given. */
  datatype Mark = Mark(isPublicHoliday: bool, text: Option<string>)

  /** `new CalendarDay(d)`: no flag, no text. */
  const Plain := Mark(false, None)

  function Holiday(name: string): (m: Mark) {
    Mark(true, Some(name))
  }

  function DayOff(name: string): (m: Mark) {
    Mark(false, Some(name))
  }

  /** The entry a converter builds for day `n` of the year. */
  function Entry(year: int, n: int, mark: Mark): (c: CalendarDay)
    requires 1 <= n <= DaysInYear(year)
  {
    CalendarDay(DateAt(year, n), mark.isPublicHoliday, mark.text)
  }

  // ---------------------------------------------------------------------
  // Easter

  /** Easter Sunday by the anonymous Gregorian algorithm (Spencer Jones, as
      given by Meeus). It falls between March 22nd and April 25th, so the
      final date is always valid. */
  function CalcEasterSunday(year: int): (r: Date)
    requires ValidYear(year)
    ensures ValidDate(r) && r.year == year
    ensures (r.month == 3 && 22 <= r.day <= 31) || (r.month == 4 && 1 <= r.day <= 25)
  {
    var a := year % 19;
    var b := year / 100;
    var c := year % 100;
    var d := b / 4;
    var e := b % 4;
    var f := (b + 8) / 25;
    var g := (b - f + 1) / 3;
    // every dividend is non-negative, so C#'s truncating / and % agree with Dafny's
    assert b - f + 1 >= 0 && 19 * a + b - d - g + 15 >= 0;
    var h := (19 * a + b - d - g + 15) % 30;
    var i := c / 4;
    var k := c % 4;
    assert 32 + 2 * e + 2 * i - h - k >= 0;
    var l := (32 + 2 * e + 2 * i - h - k) % 7;
    var m := (a + 11 * h + 22 * l) / 451;
    assert m == 0 ==> h + l <= 34;
    assert m == 1 ==> h + l >= 7;
    var x := h + l - 7 * m + 114;
    var n := x / 31;
    var p := x % 31;
    Date(year, n, p + 1)
  }

  /** The computed date is a Sunday for every year DateTime can hold. */
  lemma EasterIsSunday(year: int)
    requires ValidYear(year)
    ensures DayOfWeekOf(CalcEasterSunday(year)) == Sunday
  {
    var y := year;
    var a := y % 19;
    var b := y / 100;
    var c := y % 100;
    var d := b / 4;
    var e := b % 4;
    var f := (b + 8) / 25;
    var g := (b - f + 1) / 3;
    var h := (19 * a + b - d - g + 15) % 30;
    var i := c / 4;
    var k := c % 4;
    var l := (32 + 2 * e + 2 * i - h - k) % 7;
    var q := (32 + 2 * e + 2 * i - h - k) / 7;
    var m := (a + 11 * h + 22 * l) / 451;
    var x := h + l - 7 * m + 114;
    var easter := CalcEasterSunday(y);
    assert easter == Date(y, x / 31, x % 31 + 1);
    EasterCount(y, x);
    CenturyDigits(y);
    SundayCongruence(y, b, c, d, e, i, k, h, l, q, m, DaysBeforeYear(y) + DayOfYear(easter));
  }

  /** Days from 0001-01-01 up to and including the date x / 31, x % 31 + 1
      of the last step, when it falls in March or April. */
  lemma EasterCount(y: int, x: int)
    requires 93 <= x < 155
    requires ValidDate(Date(y, x / 31, x % 31 + 1))
    ensures DaysBeforeYear(y) + DayOfYear(Date(y, x / 31, x % 31 + 1))
      == 365 * (y - 1) + y / 4 - y / 100 + y / 400 + x - 33
  {
    EasterDayOfYear(y, x);
    LeapDaysBefore(y);
  }

  /** The date x / 31, x % 31 + 1 of the last step is day x - 33 of the year
      (one more in a leap year) when it falls in March or April. */
  lemma EasterDayOfYear(y: int, x: int)
    requires 93 <= x < 155
    requires ValidDate(Date(y, x / 31, x % 31 + 1))
    ensures DayOfYear(Date(y, x / 31, x % 31 + 1)) == x - 33 + (if IsLeapYear(y) then 1 else 0)
  {
  }

  /** The year split into century and year of the century, each split into
      quotient and remainder by 4, as the algorithm does. */
  lemma CenturyDigits(y: int)
    requires y >= 0
    ensures y == 100 * (y / 100) + y % 100
    ensures y % 100 == 4 * ((y % 100) / 4) + (y % 100) % 4
    ensures y / 100 == 4 * ((y / 100) / 4) + (y / 100) % 4
    ensures y / 4 == 25 * (y / 100) + (y % 100) / 4
    ensures y / 400 == (y / 100) / 4
  {
  }

  /** The weekday congruence behind the algorithm: with l chosen as it is,
      the day count up to Easter is a multiple of 7, i.e. Easter is a Sunday. */
  lemma SundayCongruence(y: int, b: int, c: int, d: int, e: int, i: int, k: int, h: int, l: int, q: int, m: int, sum: int)
    requires y == 100 * b + c && c == 4 * i + k && b == 4 * d + e
    requires 32 + 2 * e + 2 * i - h - k == 7 * q + l
    requires sum == 365 * (y - 1) + 25 * b + i - b + d + h + l - 7 * m + 81
    ensures sum % 7 == 0
  {
    assert sum == 7 * (52 * (y - 1) + 71 * d + 18 * e + i + 16 - q - m);
  }

  /** Leap days before January 1st of `y`, plus the leap day of `y` itself,
      equal the leap days up to the end of `y`. */
  lemma LeapDaysBefore(y: int)
    ensures var p := y - 1;
      p / 4 - p / 100 + p / 400 + (if IsLeapYear(y) then 1 else 0) == y / 4 - y / 100 + y / 400
  {
    DaysBeforeNextYear(y);
  }

  // ---------------------------------------------------------------------
  // Dates of the year and weekday alignment

  /** `new DateTime(_year, month, day)` as a day of the year. */
  function GetDate(year: int, month: int, day: int): (r: int)
    requires ValidYear(year) && ValidDate(Date(year, month, day))
    ensures 1 <= r <= DaysInYear(year)
  {
    DayOfYear(Date(year, month, day))
  }

  /** The day of the year GetDate gives back leads back to the date asked for. */
  lemma GetDateRoundTrip(year: int, month: int, day: int)
    requires ValidYear(year) && ValidDate(Date(year, month, day))
    ensures DateAt(year, GetDate(year, month, day)) == Date(year, month, day)
  {
    DateAtDayOfYear(Date(year, month, day));
  }

  /** The weekday numbered from Monday (0) to Sunday (6). */
  function MondayFirst(w: DayOfWeek): (r: int)
    ensures 0 <= r < 7
  {
    if w == Sunday then 6 else DayOfWeekNumber(w) - 1
  }

  lemma MondayFirstAt(year: int, n: int)
    ensures MondayFirst(DayOfWeekAt(year, n)) == (DaysBeforeYear(year) + n + 6) % 7
  {
  }

  /** The day `date` itself if it falls on weekday `w`, else the next day
      after it that does. */
  function CalcDateOnNextWeekday(year: int, date: int, w: DayOfWeek): (r: int)
    ensures date <= r <= date + 6
    ensures DayOfWeekAt(year, r) == w
    ensures r == date <==> DayOfWeekAt(year, date) == w
    ensures forall n :: date <= n < r ==> DayOfWeekAt(year, n) != w
  {
    var target := MondayFirst(w);
    var current := MondayFirst(DayOfWeekAt(year, date));
    var r := date + (target - current + 7) % 7;
    MondayFirstAt(year, date);
    MondayFirstAt(year, r);
    assert MondayFirst(DayOfWeekAt(year, r)) == target;
    forall n | date <= n < r
      ensures DayOfWeekAt(year, n) != w
    {
      MondayFirstAt(year, n);
    }
    r
  }

  /** The first Monday on or after September 1st. */
  function SchoolyearBegin(year: int): (r: int)
    requires ValidYear(year)
    ensures GetDate(year, 9, 1) <= r <= GetDate(year, 9, 7)
    ensures DayOfWeekAt(year, r) == Monday
    ensures forall n :: GetDate(year, 9, 1) <= n < r ==> DayOfWeekAt(year, n) != Monday
  {
    CalcDateOnNextWeekday(year, GetDate(year, 9, 1), Monday)
  }

  /** The first Monday on or after February 1st. */
  function SemesterHolidayBegin(year: int): (r: int)
    requires ValidYear(year)
    ensures GetDate(year, 2, 1) <= r <= GetDate(year, 2, 7)
    ensures DayOfWeekAt(year, r) == Monday
    ensures forall n :: GetDate(year, 2, 1) <= n < r ==> DayOfWeekAt(year, n) != Monday
  {
    CalcDateOnNextWeekday(year, GetDate(year, 2, 1), Monday)
  }

  /** The first Saturday on or after June 28th. */
  function MainHolidayBegin(year: int): (r: int)
    requires ValidYear(year)
    ensures GetDate(year, 6, 28) <= r <= GetDate(year, 7, 4)
    ensures DayOfWeekAt(year, r) == Saturday
    ensures forall n :: GetDate(year, 6, 28) <= n < r ==> DayOfWeekAt(year, n) != Saturday
  {
    CalcDateOnNextWeekday(year, GetDate(year, 6, 28), Saturday)
  }

  /** Easter Sunday as a day of the year: a Sunday from March 22nd to April 25th. */
  function EasterSunday(year: int): (r: int)
    requires ValidYear(year)
    ensures GetDate(year, 3, 22) <= r <= GetDate(year, 4, 25)
    ensures DayOfWeekAt(year, r) == Sunday
  {
    EasterIsSunday(year);
    DayOfYear(CalcEasterSunday(year))
  }

  /** Ascension, 39 days after Easter: a Thursday from April 30th to June 3rd. */
  function ChristiHimmelfahrt(year: int): (r: int)
    requires ValidYear(year)
    ensures GetDate(year, 4, 30) <= r <= GetDate(year, 6, 3)
    ensures DayOfWeekAt(year, r) == Thursday
  {
    var easter := EasterSunday(year);
    DayOfWeekShift(year, easter, 39);
    assert DayOfWeekNumber(DayOfWeekAt(year, easter)) == 0;
    assert DayOfWeekNumber(DayOfWeekAt(year, easter + 39)) == 4;
    assert DayOfWeekAt(year, easter + 39) == Thursday;
    assert GetDate(year, 4, 30) <= easter + 39;
    easter + 39
  }

  /** Whit Sunday, 49 days after Easter: a Sunday from May 10th to June 13th. */
  function PfingstSunday(year: int): (r: int)
    requires ValidYear(year)
    ensures GetDate(year, 5, 10) <= r <= GetDate(year, 6, 13)
    ensures DayOfWeekAt(year, r) == Sunday
  {
    DayOfWeekShift(year, EasterSunday(year), 49);
    EasterSunday(year) + 49
  }

  /** Corpus Christi, 60 days after Easter: a Thursday from May 21st to June 24th. */
  function Fronleichnam(year: int): (r: int)
    requires ValidYear(year)
    ensures GetDate(year, 5, 21) <= r <= GetDate(year, 6, 24)
    ensures DayOfWeekAt(year, r) == Thursday
  {
    var easter := EasterSunday(year);
    DayOfWeekShift(year, easter, 60);
    assert DayOfWeekNumber(DayOfWeekAt(year, easter)) == 0;
    assert DayOfWeekNumber(DayOfWeekAt(year, easter + 60)) == 4;
    assert DayOfWeekAt(year, easter + 60) == Thursday;
    assert GetDate(year, 5, 21) <= easter + 60;
    easter + 60
  }

  /** Start of the Christmas break: December 23rd when that is a Monday, else December 24th. */
  function XmasHolidayBegin(year: int): (r: int)
    requires ValidYear(year)
    ensures r == GetDate(year, 12, 23) || r == GetDate(year, 12, 24)
    ensures r == GetDate(year, 12, 23) <==> DayOfWeekAt(year, GetDate(year, 12, 23)) == Monday
  {
    if DayOfWeekAt(year, GetDate(year, 12, 23)) == Monday then GetDate(year, 12, 23) else GetDate(year, 12, 24)
  }

  // ---------------------------------------------------------------------
  // Rules and the first-write-wins fill

  /** One call of AddDays in GetCalendarDays: a single day, or the days of
      [begin, end), with what the converter makes of them. */
  datatype Rule = Single(day: int, mark: Mark) | Range(begin: int, end: int, mark: Mark)

  predicate Covers(rule: Rule, n: int) {
    match rule
    case Single(day, _) => n == day
    case Range(begin, end, _) => begin <= n < end
  }

  /** The days a rule names lie in the year; a range may end at "December 31st + 1". */
  predicate InYear(rule: Rule, year: int) {
    match rule
    case Single(day, _) => 1 <= day <= DaysInYear(year)
    case Range(begin, end, _) => 1 <= begin < end <= DaysInYear(year) + 1
  }

  /** The dates GetCalendarDays computes before it applies any rule. */
  datatype Anchors = Anchors(
    semesterHolidayBegin: int,
    easterSunday: int,
    mainHolidayBegin: int,
    schoolyearBegin: int,
    xmasHolidayBegin: int)

  /** Where the anchors of a year can fall. */
  predicate AnchorsInRange(year: int, a: Anchors)
    requires ValidYear(year)
  {
    && GetDate(year, 2, 1) <= a.semesterHolidayBegin <= GetDate(year, 2, 7)
    && GetDate(year, 3, 22) <= a.easterSunday <= GetDate(year, 4, 25)
    && GetDate(year, 6, 28) <= a.mainHolidayBegin <= GetDate(year, 7, 4)
    && GetDate(year, 9, 1) <= a.schoolyearBegin <= GetDate(year, 9, 7)
    && (a.xmasHolidayBegin == GetDate(year, 12, 23) || a.xmasHolidayBegin == GetDate(year, 12, 24))
  }

  function YearAnchors(year: int): (a: Anchors)
    requires ValidYear(year)
    ensures AnchorsInRange(year, a)
  {
    Anchors(SemesterHolidayBegin(year), EasterSunday(year), MainHolidayBegin(year),
            SchoolyearBegin(year), XmasHolidayBegin(year))
  }

  /** The rules of GetCalendarDays in the order it applies them: the
      thirteen statutory holidays, Easter Sunday and Whit Sunday, then the
      school breaks and the two extra days off. Every day they name lies in
      the year. */
  function Rules(year: int, a: Anchors): (rules: seq<Rule>)
    requires ValidYear(year) && AnchorsInRange(year, a)
    ensures |rules| == 15 + |BreakRules(year, a)|
    ensures forall i :: 0 <= i < |rules| ==> InYear(rules[i], year) && NamedIfHoliday(rules[i].mark)
  {
    StatutoryRules(year, a.easterSunday) + SundayRules(year, a.easterSunday) + BreakRules(year, a)
  }

  /** A converter's output fits the CalendarDay invariant: a public
      holiday always carries a non-empty text. */
  predicate NamedIfHoliday(mark: Mark) {
    mark.isPublicHoliday ==> mark.text.Some? && |mark.text.value| > 0
  }

  /** The names of the thirteen statutory public holidays (Arbeitsruhegesetz),
      in the order GetCalendarDays applies them. */
  const StatutoryNames: seq<string> := [
    "Neujahr", "Heilige 3 Könige", "Ostermontag", "Staatsfeiertag",
    "Christi Himmelfahrt", "Pfingstmontag", "Fronleichnam", "Mariä Himmelfahrt",
    "Nationalfeiertag", "Allerheiligen", "Mariä Empfängnis", "Weihnachten", "Stephanstag"]

  /** The days of the thirteen statutory public holidays, in the same order. */
  function StatutoryDays(year: int, easterSunday: int): (days: seq<int>)
    requires ValidYear(year) && GetDate(year, 3, 22) <= easterSunday <= GetDate(year, 4, 25)
    ensures |days| == |StatutoryNames| == 13
    ensures forall i :: 0 <= i < |days| ==> 1 <= days[i] <= DaysInYear(year)
  {
    [ GetDate(year, 1, 1), GetDate(year, 1, 6), easterSunday + 1, GetDate(year, 5, 1),
      easterSunday + 39, easterSunday + 50, easterSunday + 60, GetDate(year, 8, 15),
      GetDate(year, 10, 26), GetDate(year, 11, 1), GetDate(year, 12, 8), GetDate(year, 12, 25),
      GetDate(year, 12, 26) ]
  }

  /** The statutory holidays as single-day rules with the holiday flag. */
  function StatutoryRules(year: int, easterSunday: int): (rules: seq<Rule>)
    requires ValidYear(year) && GetDate(year, 3, 22) <= easterSunday <= GetDate(year, 4, 25)
    ensures |rules| == 13
    ensures forall i :: 0 <= i < |rules| ==>
      rules[i] == Single(StatutoryDays(year, easterSunday)[i], Holiday(StatutoryNames[i]))
    ensures forall i :: 0 <= i < |rules| ==> InYear(rules[i], year) && NamedIfHoliday(rules[i].mark)
  {
    var days := StatutoryDays(year, easterSunday);
    assert forall i :: 0 <= i < |StatutoryNames| ==> |StatutoryNames[i]| > 0;
    seq(13, i requires 0 <= i < 13 => Single(days[i], Holiday(StatutoryNames[i])))
  }

  /** Easter Sunday and Whit Sunday: always off, named, not public holidays. */
  function SundayRules(year: int, easterSunday: int): (rules: seq<Rule>)
    requires ValidYear(year) && GetDate(year, 3, 22) <= easterSunday <= GetDate(year, 4, 25)
    ensures |rules| == 2
    ensures forall i :: 0 <= i < |rules| ==> InYear(rules[i], year) && !rules[i].mark.isPublicHoliday
    ensures forall i :: 0 <= i < |rules| ==> NamedIfHoliday(rules[i].mark)
  {
    [ Single(easterSunday, DayOff("Ostersonntag")),
      Single(easterSunday + 49, DayOff("Pfingstsonntag"))
    ]
  }

  /** The school breaks and the two extra days off, none a public holiday.
      Herbstferien exist from 2020 on, and from 2020 on the Tuesday after
      Easter Monday and after Whit Monday is no longer part of the break
      (amendment BGBl. I Nr. 49/2019). Every range is non-empty and lies in
      the year, the last ending at "December 31st + 1". */
  function BreakRules(year: int, a: Anchors): (rules: seq<Rule>)
    requires ValidYear(year) && AnchorsInRange(year, a)
    ensures |rules| == if year >= 2020 then 9 else 8
    ensures forall i :: 0 <= i < |rules| ==> InYear(rules[i], year) && !rules[i].mark.isPublicHoliday
    ensures forall i :: 0 <= i < |rules| ==> NamedIfHoliday(rules[i].mark)
  {
    [ Range(GetDate(year, 1, 2), GetDate(year, 1, 6), DayOff("Weihnachtsferien")),
      Range(a.semesterHolidayBegin, a.semesterHolidayBegin + 6, DayOff("Semesterferien")),
      Range(a.easterSunday - 8, a.easterSunday + (if year < 2020 then 3 else 2), DayOff("Osterferien")),
      Range(a.easterSunday + 48, a.easterSunday + (if year < 2020 then 52 else 51), DayOff("Pfingstferien")),
      Range(a.mainHolidayBegin, a.schoolyearBegin, DayOff("Sommerferien")),
      Single(GetDate(year, 11, 2), DayOff("Allerseelen")),
      Single(GetDate(year, 11, 15), DayOff("Heiliger Lepopld")),
      Range(a.xmasHolidayBegin, GetDate(year, 12, 31) + 1, DayOff("Weihnachtsferien"))
    ]
    + (if year >= 2020 then [Range(GetDate(year, 10, 27), GetDate(year, 11, 1), DayOff("Herbstferien"))] else [])
  }

  /** The position of the first rule of `rules` that covers day `n`, or
      |rules| when none does. */
  function FirstCovering(rules: seq<Rule>, n: int): (k: int)
    ensures 0 <= k <= |rules|
    ensures k < |rules| ==> Covers(rules[k], n)
    ensures forall j :: 0 <= j < k ==> !Covers(rules[j], n)
  {
    if rules == [] then 0
    else if Covers(rules[0], n) then 0
    else 1 + FirstCovering(rules[1..], n)
  }

  /** What the first rule of `rules` that covers day `n` writes there; None
      (a null slot) when no rule covers it. */
  function FirstMatch(rules: seq<Rule>, year: int, n: int): (c: Option<CalendarDay>)
    requires 1 <= n <= DaysInYear(year)
  {
    var k := FirstCovering(rules, n);
    if k < |rules| then Some(Entry(year, n, rules[k].mark)) else None
  }

  /** The entry GetCalendarDays leaves at day `n`: the first rule's, or a
      plain day from the closing catch-all. */
  function DayEntry(year: int, a: Anchors, n: int): (c: CalendarDay)
    requires ValidYear(year) && AnchorsInRange(year, a) && 1 <= n <= DaysInYear(year)
    ensures c.date == DateAt(year, n)
    ensures c.isPublicHoliday ==> c.text.Some? && c.text.value != ""
  {
    match FirstMatch(Rules(year, a), year, n)
    case Some(c) => c
    case None => Entry(year, n, Plain)
  }

  /** The single-day AddDays: writes day `n` unless its slot is already taken. */
  method AddDay(days: array<Option<CalendarDay>>, year: int, n: int, mark: Mark)
    requires days.Length == DaysInYear(year)
    requires 1 <= n <= days.Length
    modifies days
    ensures forall i :: 0 <= i < days.Length ==>
      days[i] == if i == n - 1 && old(days[i]).None? then Some(Entry(year, n, mark)) else old(days[i])
  {
    var dayOfYear := n - 1;
    if days[dayOfYear].None? {
      days[dayOfYear] := Some(Entry(year, n, mark));
    }
  }

  /** The range AddDays: writes each day of [begin, end) whose slot is still
      free, and nothing else; an empty range changes nothing. */
  method AddDays(days: array<Option<CalendarDay>>, year: int, begin: int, end: int, mark: Mark)
    requires days.Length == DaysInYear(year)
    requires begin < end ==> 1 <= begin && end <= days.Length + 1
    modifies days
    ensures forall i :: 0 <= i < days.Length ==>
      days[i] == if begin <= i + 1 < end && old(days[i]).None? then Some(Entry(year, i + 1, mark)) else old(days[i])
  {
    var day := begin;
    while day < end
      invariant begin <= day && (day <= end || day == begin)
      invariant forall i :: 0 <= i < days.Length ==>
        days[i] == if begin <= i + 1 < day && old(days[i]).None? then Some(Entry(year, i + 1, mark)) else old(days[i])
    {
      var dayOfYear := day - 1;
      if days[dayOfYear].None? {
        days[dayOfYear] := Some(Entry(year, day, mark));
      }
      day := day + 1;
    }
  }

  /** The AddDays without a converter: every free slot of [begin, end)
      becomes a plain day. */
  method AddPlainDays(days: array<Option<CalendarDay>>, year: int, begin: int, end: int)
    requires days.Length == DaysInYear(year)
    requires begin < end ==> 1 <= begin && end <= days.Length + 1
    modifies days
    ensures forall i :: 0 <= i < days.Length ==>
      days[i] == if begin <= i + 1 < end && old(days[i]).None? then Some(Entry(year, i + 1, Plain)) else old(days[i])
  {
    AddDays(days, year, begin, end, Plain);
  }

  /** What a rule leaves in the slot of day `n`: its entry when it covers
      the day and the slot is still free, else the slot as it was. */
  function AfterRule(slot: Option<CalendarDay>, rule: Rule, year: int, n: int): (c: Option<CalendarDay>)
    requires 1 <= n <= DaysInYear(year)
  {
    if slot.None? && Covers(rule, n) then Some(Entry(year, n, rule.mark)) else slot
  }

  /** Applies one rule: the single-day or the range AddDays. */
  method ApplyRule(days: array<Option<CalendarDay>>, year: int, rule: Rule)
    requires days.Length == DaysInYear(year) && InYear(rule, year)
    modifies days
    ensures forall i :: 0 <= i < days.Length ==> days[i] == AfterRule(old(days[i]), rule, year, i + 1)
  {
    match rule
    case Single(n, mark) => AddDay(days, year, n, mark);
    case Range(begin, end, mark) => AddDays(days, year, begin, end, mark);
  }

  /** Appending a rule moves the first covering position only for days no
      earlier rule covers. */
  lemma {:induction false} FirstCoveringSnoc(rules: seq<Rule>, rule: Rule, n: int)
    ensures FirstCovering(rules + [rule], n) ==
      if FirstCovering(rules, n) < |rules| || Covers(rule, n) then FirstCovering(rules, n)
      else |rules| + 1
  {
    if rules != [] && !Covers(rules[0], n) {
      assert (rules + [rule])[1..] == rules[1..] + [rule];
      FirstCoveringSnoc(rules[1..], rule, n);
    }
  }

  /** Applying one more rule after `rules` changes exactly the days it
      covers that no earlier rule covers: first-write-wins, one rule at a
      time. */
  lemma FirstMatchSnoc(rules: seq<Rule>, rule: Rule, year: int, n: int)
    requires 1 <= n <= DaysInYear(year)
    ensures FirstMatch(rules + [rule], year, n) == AfterRule(FirstMatch(rules, year, n), rule, year, n)
  {
    FirstCoveringSnoc(rules, rule, n);
    var k := FirstCovering(rules, n);
    if k < |rules| {
      assert (rules + [rule])[k] == rules[k];
    }
  }

  /** Applies `rules` in order to a fresh array, each writing only the
      slots still free: afterwards slot i holds what the first rule covering
      day i + 1 writes, and stays free when no rule covers it. */
  method ApplyRules(days: array<Option<CalendarDay>>, year: int, rules: seq<Rule>)
    requires days.Length == DaysInYear(year)
    requires forall i :: 0 <= i < |rules| ==> InYear(rules[i], year)
    requires forall i :: 0 <= i < days.Length ==> days[i].None?
    modifies days
    ensures forall i :: 0 <= i < days.Length ==> days[i] == FirstMatch(rules, year, i + 1)
  {
    for k := 0 to |rules|
      invariant forall i :: 0 <= i < days.Length ==> days[i] == FirstMatch(rules[..k], year, i + 1)
    {
      ApplyRule(days, year, rules[k]);
      assert rules[..k + 1] == rules[..k] + [rules[k]];
      forall i | 0 <= i < days.Length
        ensures days[i] == FirstMatch(rules[..k + 1], year, i + 1)
      {
        FirstMatchSnoc(rules[..k], rules[k], year, i + 1);
      }
    }
    assert rules[..|rules|] == rules;
  }

  /** The whole year, in a new array: slot i holds the entry for day i + 1,
      and no slot is left empty. In year 9999 "December 31st + 1" is past the last date
      DateTime can hold, so GetCalendarDays throws there. */
  method GetCalendarDays(year: int) returns (days: array<Option<CalendarDay>>)
    requires ValidYear(year) && year < 9999
    ensures fresh(days)
    ensures days.Length == DaysInYear(year) == GetDate(year, 12, 31)
    ensures forall i :: 0 <= i < days.Length ==> days[i].Some? && days[i].value == DayEntry(year, YearAnchors(year), i + 1)
  {
    var anchors := YearAnchors(year);
    days := new Option<CalendarDay>[GetDate(year, 12, 31)](_ => None);
    ApplyRules(days, year, Rules(year, anchors));
    AddPlainDays(days, year, GetDate(year, 1, 1), GetDate(year, 12, 31) + 1);
  }
}
