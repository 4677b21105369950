# Austrian holiday calendar — a verified model of `CalendarYear`

`CalendarYear` computes the calendar of one year for Austria. It returns an
array with one `CalendarDay` per day of the year. Each entry records its
date, whether it is a public holiday, and an optional text: the holiday's
name, the school break's name, or nothing for an ordinary working day.

To build the array, the class first computes a few anchor dates:
- Easter Sunday, by the Spencer Jones / Meeus algorithm, and the feasts 39,
  49 and 60 days after it;
- the first Monday on or after September 1st (start of the school year);
- the first Monday on or after February 1st (start of the Semesterferien);
- the first Saturday on or after June 28th (start of the Sommerferien);
- December 23rd or 24th (start of the Weihnachtsferien).

It then fills the array rule by rule. First come the thirteen statutory
holidays, then Easter Sunday and Whit Sunday, then the school breaks and two
extra days off. A rule writes a day only while that day's slot is still
empty ("first write wins"). A final catch-all turns every remaining day into
an ordinary working day. The amendment BGBl. I Nr. 49/2019 makes three
changes from 2020 on:
- the Osterferien end one day earlier;
- the Pfingstferien end one day earlier;
- the Herbstferien (October 27th to 31st) are new.

The model has three modules:

- `Dates` (`dates.dfy`) stands in for `System.DateTime`. It is a proleptic
  Gregorian calendar with:
  - leap years and month lengths;
  - the day of the year, counted from 1, and its inverse `DateAt`;
  - the weekday in .NET's numbering, where Sunday is 0 and 0001-01-01 is a
    Monday.
- `CalendarYear` (`calendar_year.dfy`) is the class itself:
  - `CalcEasterSunday` is computed exactly as the source computes it.
  - The weekday alignment and the anchors are functions of the year.
  - The two `AddDays` primitives are methods on an
    `array<Option<CalendarDay>>`, where `None` is C#'s `null`.
  - `GetCalendarDays` allocates that array and fills it.
  - The rules it applies are the data table `Rules`, kept in the order of
    the source.
  - The first-write-wins result is specified by `FirstCovering`, the first
    rule covering a day, and by `DayEntry`, the entry that day ends up with.
- `CalendarProperties` (`calendar_properties.dfy`) proves what the finished
  calendar says, day by day:
  - the holiday flag is set exactly on the statutory dates;
  - every day of a break's range, apart from the named holidays and days
    off inside it, carries the break's label, including the 2020 changes;
  - holidays inside a break keep their own entries;
  - the ordinary days next to the Oster-, Pfingst-, Semester-, Sommer- and
    Christmas breaks are plain working days;
  - particular years: Easter reference dates, the weekday examples of the
    source's documentation, and the 2008 coincidence of Ascension with
    May 1st.

Inside a year a date is its day of the year, so `date.AddDays(k)` is `+ k`.
"December 31st + 1", the exclusive end of the last range, is
`DaysInYear(year) + 1`.

In 2008, two of the thirteen statutory dates coincide: Ascension falls on
May 1st. That year therefore has twelve public holidays, not thirteen, and
the slot keeps Staatsfeiertag, the entry written first
(`AscensionOnMayDay2008`, `MayDay`). `StatutoryOrder` proves that this is
the only pair of statutory dates that can coincide.

## Model

| member | source | states |
|---|---|---|
| Dates.DaysInMonth | HolidayCalendar/CalendarYear.cs:93 | a month of a valid date has 28 to 31 days |
| Dates.DayOfYear | HolidayCalendar/CalendarYear.cs:99 | `DateTime.DayOfYear`: from 1 to the length of the year, and after the days of the months before the date's month but not past the end of that month |
| Dates.DateAt | HolidayCalendar/CalendarYear.cs:115-119 | the date that is day n of the year is a valid date of that year whose day of the year is n (the `begin` passed to a converter) |
| Dates.DateAtDayOfYear | HolidayCalendar/CalendarYear.cs:117-119 | round trip: every valid date is recovered from its day of the year |
| Dates.MonthsFillYear | HolidayCalendar/CalendarYear.cs:48 | the month lengths add up month by month, and December 31st is day `DaysInYear` |
| Dates.DaysBeforeNextYear | HolidayCalendar/CalendarYear.cs:78 | the next year starts right after the last day of this one |
| Dates.DayOfWeekOf | HolidayCalendar/CalendarYear.cs:131 | `DateTime.DayOfWeek`: (ordinal + 1) mod 7 with Sunday as 0 |
| Dates.DayOfWeekShift | HolidayCalendar/CalendarYear.cs:132 | adding j days moves the weekday j places on, modulo 7 |
| Dates.FirstDayIsMonday | HolidayCalendar/CalendarYear.cs:131 | 0001-01-01 is ordinal 0 and a Monday, as in .NET |
| CalendarYear.CalcEasterSunday | HolidayCalendar/CalendarYear.cs:139-157 | for every year 1..9999 the result is a valid date of that year, from March 22nd to April 25th, so `new DateTime(_year, n, p + 1)` never fails |
| CalendarYear.EasterIsSunday | HolidayCalendar/CalendarYear.cs:135-157 | the computed Easter date is a Sunday in every year 1..9999 |
| CalendarYear.EasterCount | HolidayCalendar/CalendarYear.cs:153-156 | days from 0001-01-01 up to the date x / 31, x % 31 + 1, as a closed formula in x |
| CalendarYear.SundayCongruence | HolidayCalendar/CalendarYear.cs:141-153 | with h, l and m as the algorithm computes them, the day count up to Easter is a multiple of 7 |
| CalendarYear.GetDate | HolidayCalendar/CalendarYear.cs:93 | `new DateTime(_year, month, day)` as a day of the year, between 1 and the length of the year |
| CalendarYear.GetDateRoundTrip | HolidayCalendar/CalendarYear.cs:93 | the day GetDate gives leads back to the date (year, month, day) asked for |
| CalendarYear.MondayFirst | HolidayCalendar/CalendarYear.cs:130-131 | the Monday-first weekday number lies in 0..6 |
| CalendarYear.MondayFirstAt | HolidayCalendar/CalendarYear.cs:130-131 | the Monday-first number of a day, in terms of its ordinal |
| CalendarYear.CalcDateOnNextWeekday | HolidayCalendar/CalendarYear.cs:122-133 | the result lies within 0 to 6 days of `date` and falls on the wanted weekday; it is `date` itself exactly when `date` already falls on it; and no earlier day of that stretch falls on it |
| CalendarYear.SchoolyearBegin | HolidayCalendar/CalendarYear.cs:19 | the first Monday on or after September 1st, hence from September 1st to 7th |
| CalendarYear.SemesterHolidayBegin | HolidayCalendar/CalendarYear.cs:20 | the first Monday on or after February 1st, hence from February 1st to 7th |
| CalendarYear.MainHolidayBegin | HolidayCalendar/CalendarYear.cs:21 | the first Saturday on or after June 28th, hence from June 28th to July 4th |
| CalendarYear.EasterSunday | HolidayCalendar/CalendarYear.cs:22 | Easter as a day of the year: from March 22nd to April 25th, and a Sunday |
| CalendarYear.ChristiHimmelfahrt | HolidayCalendar/CalendarYear.cs:23 | Easter + 39: a Thursday from April 30th to June 3rd |
| CalendarYear.PfingstSunday | HolidayCalendar/CalendarYear.cs:24 | Easter + 49: a Sunday from May 10th to June 13th |
| CalendarYear.Fronleichnam | HolidayCalendar/CalendarYear.cs:25 | Easter + 60: a Thursday from May 21st to June 24th |
| CalendarYear.XmasHolidayBegin | HolidayCalendar/CalendarYear.cs:46 | December 23rd or 24th, and December 23rd exactly when that day is a Monday |
| CalendarYear.YearAnchors | HolidayCalendar/CalendarYear.cs:42-46 | the five anchors of the year lie in the ranges every property lemma assumes |
| CalendarYear.StatutoryDays | HolidayCalendar/CalendarYear.cs:51-63 | thirteen statutory dates, one per name, all inside the year |
| CalendarYear.StatutoryRules | HolidayCalendar/CalendarYear.cs:51-63 | rule i is the single day `StatutoryDays[i]`, with the holiday flag and the name `StatutoryNames[i]` |
| CalendarYear.SundayRules | HolidayCalendar/CalendarYear.cs:65-67 | Easter Sunday and Whit Sunday: days off, inside the year, without the holiday flag |
| CalendarYear.BreakRules | HolidayCalendar/CalendarYear.cs:69-83 | eight rules, nine from 2020 on, all inside the year and none with the holiday flag |
| CalendarYear.Rules | HolidayCalendar/CalendarYear.cs:50-83 | the whole table in source order: every rule lies in the year, and a holiday always carries a non-empty name |
| CalendarYear.FirstCovering | HolidayCalendar/CalendarYear.cs:100-101 | the position of the first rule covering a day: that rule covers it and none before it does, or no rule does |
| CalendarYear.DayEntry | HolidayCalendar/CalendarYear.cs:31-88 | the final entry of day n is for the date `DateAt(year, n)`, and a public holiday has a non-empty text |
| CalendarYear.AddDay | HolidayCalendar/CalendarYear.cs:97-102 | writes the entry of day n only if its slot was empty; every other slot is unchanged |
| CalendarYear.AddDays | HolidayCalendar/CalendarYear.cs:113-121 | writes exactly the empty slots of [begin, end); filled slots and slots outside the range are unchanged, and an empty range changes nothing |
| CalendarYear.AddPlainDays | HolidayCalendar/CalendarYear.cs:107-108 | the same range fill with the bare `CalendarDay(d)`: no flag, no text |
| CalendarYear.ApplyRule | HolidayCalendar/CalendarYear.cs:51-83 | one rule application leaves each slot as `AfterRule` says: written only where the rule covers the day and the slot was empty |
| CalendarYear.FirstCoveringSnoc | HolidayCalendar/CalendarYear.cs:100-101 | appending a rule changes the first covering position only for days no earlier rule covers |
| CalendarYear.FirstMatchSnoc | HolidayCalendar/CalendarYear.cs:118-119 | first-write-wins over n + 1 rules is one more first-write-wins step over the first n |
| CalendarYear.ApplyRules | HolidayCalendar/CalendarYear.cs:50-83 | after the rules run in order on an empty array, each slot holds the entry of the first rule covering its day, or is still empty |
| CalendarYear.GetCalendarDays | HolidayCalendar/CalendarYear.cs:31-88 | for years 1..9998, a newly allocated array on every call, with the length of the year, the day-of-year of December 31st; no slot is empty; slot i is `DayEntry` for day i + 1 |
| CalendarProperties.FirstCoveringAfter | HolidayCalendar/CalendarYear.cs:65-83 | rules that all miss a day only push its first covering rule further back |
| CalendarProperties.NotStatutory | HolidayCalendar/CalendarYear.cs:51-63 | a day that is not a statutory date is covered by none of the first thirteen rules |
| CalendarProperties.StatutoryOrder | HolidayCalendar/CalendarYear.cs:51-63 | the statutory dates increase in table order, except that Ascension may fall before, on or after May 1st |
| CalendarProperties.StatutoryEntry | HolidayCalendar/CalendarYear.cs:51-63 | a statutory date that no earlier statutory date equals carries its own name and the holiday flag |
| CalendarProperties.LaterEntry | HolidayCalendar/CalendarYear.cs:65-86 | on a non-statutory day the first covering later rule decides the entry, and with none covering it the day is a plain working day |
| CalendarProperties.HolidayIffStatutory | HolidayCalendar/CalendarYear.cs:51-83 | a day has the holiday flag if and only if it is one of the thirteen statutory dates, and then its text is one of the thirteen names |
| CalendarProperties.MayDay | HolidayCalendar/CalendarYear.cs:54-55 | May 1st is Staatsfeiertag in every year, even when Ascension falls on it |
| CalendarProperties.EasterBreak | HolidayCalendar/CalendarYear.cs:72-73 | the days of [Easter − 8, Easter + 3) before 2020 and of [Easter − 8, Easter + 2) from 2020 on are Osterferien, apart from Easter Sunday and Monday |
| CalendarProperties.EasterSundayEntry | HolidayCalendar/CalendarYear.cs:66 | Easter Sunday is the day off Ostersonntag, not a public holiday |
| CalendarProperties.EasterMondayEntry | HolidayCalendar/CalendarYear.cs:53 | Easter Monday is the public holiday Ostermontag |
| CalendarProperties.BeforeEasterBreak | HolidayCalendar/CalendarYear.cs:73 | the day before the Osterferien is an ordinary day |
| CalendarProperties.AfterEasterBreak | HolidayCalendar/CalendarYear.cs:72-73 | the first day after the Osterferien is an ordinary day: Easter + 3 before 2020, Easter + 2 from 2020 on |
| CalendarProperties.WhitsunBreak | HolidayCalendar/CalendarYear.cs:72-74 | the days of [Easter + 48, Easter + 52) before 2020 and of [Easter + 48, Easter + 51) from 2020 on are Pfingstferien, apart from Whit Sunday and Monday |
| CalendarProperties.WhitSundayEntry | HolidayCalendar/CalendarYear.cs:67 | Whit Sunday is the day off Pfingstsonntag, not a public holiday |
| CalendarProperties.WhitMondayEntry | HolidayCalendar/CalendarYear.cs:56 | Whit Monday is the public holiday Pfingstmontag |
| CalendarProperties.BeforeWhitsunBreak | HolidayCalendar/CalendarYear.cs:74 | the day before the Pfingstferien (Easter + 47, the Friday before Whit Sunday) is an ordinary day |
| CalendarProperties.AfterWhitsunBreak | HolidayCalendar/CalendarYear.cs:72-74 | the first day after the Pfingstferien is an ordinary day: Easter + 52 before 2020, Easter + 51 from 2020 on |
| CalendarProperties.AutumnBreak | HolidayCalendar/CalendarYear.cs:79-83 | October 27th to 31st are Herbstferien from 2020 on and ordinary days before |
| CalendarProperties.JanuaryBreak | HolidayCalendar/CalendarYear.cs:70 | January 2nd to 5th are Weihnachtsferien |
| CalendarProperties.SemesterBreak | HolidayCalendar/CalendarYear.cs:71 | the six days from the Semesterferien Monday are Semesterferien; the day before and the day after are ordinary days |
| CalendarProperties.SummerBreak | HolidayCalendar/CalendarYear.cs:75 | the days of [MainHolidayBegin, SchoolyearBegin) are Sommerferien except August 15th |
| CalendarProperties.AssumptionDay | HolidayCalendar/CalendarYear.cs:58 | August 15th lies strictly inside [MainHolidayBegin, SchoolyearBegin), so the Sommerferien are never empty, and stays the public holiday Mariä Himmelfahrt |
| CalendarProperties.BeforeSummerBreak | HolidayCalendar/CalendarYear.cs:75 | the day before the Sommerferien is an ordinary day |
| CalendarProperties.FirstSchoolDay | HolidayCalendar/CalendarYear.cs:75 | the first school day, which ends the Sommerferien, is an ordinary day |
| CalendarProperties.ChristmasBreak | HolidayCalendar/CalendarYear.cs:78 | from the Christmas break's start to December 31st every day is Weihnachtsferien, except December 25th and 26th |
| CalendarProperties.ChristmasDay | HolidayCalendar/CalendarYear.cs:62 | December 25th lies inside the break and stays the public holiday Weihnachten |
| CalendarProperties.SaintStephensDay | HolidayCalendar/CalendarYear.cs:63 | December 26th stays the public holiday Stephanstag |
| CalendarProperties.BeforeChristmasBreak | HolidayCalendar/CalendarYear.cs:46 | the day before the Christmas break starts is an ordinary day |
| CalendarProperties.ChristmasBreakStart | HolidayCalendar/CalendarYear.cs:46 | with the computed anchors, December 23rd is Weihnachtsferien if and only if it is a Monday |
| CalendarProperties.AllSouls | HolidayCalendar/CalendarYear.cs:76 | November 2nd is the day off Allerseelen |
| CalendarProperties.SaintLeopold | HolidayCalendar/CalendarYear.cs:77 | November 15th is the day off "Heiliger Lepopld" |
| CalendarProperties.EasterIn2008 | HolidayCalendar/CalendarYear.cs:139-157 | Easter 2008 is March 23rd |
| CalendarProperties.EasterIn2019 | HolidayCalendar/CalendarYear.cs:139-157 | Easter 2019 is April 21st |
| CalendarProperties.EasterIn2020 | HolidayCalendar/CalendarYear.cs:139-157 | Easter 2020 is April 12th |
| CalendarProperties.EasterIn2023 | HolidayCalendar/CalendarYear.cs:139-157 | Easter 2023 is April 9th |
| CalendarProperties.EasterIn2024 | HolidayCalendar/CalendarYear.cs:139-157 | Easter 2024 is March 31st |
| CalendarProperties.NextTuesdayFromTuesday | HolidayCalendar/CalendarYear.cs:125 | from Tuesday, November 15th 2022, the next Tuesday is that same day |
| CalendarProperties.NextTuesdayFromWednesday | HolidayCalendar/CalendarYear.cs:126 | from Wednesday, November 16th 2022, the next Tuesday is November 22nd |
| CalendarProperties.AscensionOnMayDay2008 | HolidayCalendar/CalendarYear.cs:23 | Ascension 2008 falls on May 1st |

## Left out

- `System.DateTime` is not part of this model. The `Dates` module replaces
  it with integer calendar arithmetic.
- DateTime throws `ArgumentOutOfRangeException` for years outside 1..9999.
  In the model, that limit is the precondition `ValidYear`; the exception
  itself is not modelled.
- CalendarYear.GetCalendarDays: requires `year < 9999` besides `ValidYear`.
  For year 9999 the source throws at lines 78 and 86, because "December
  31st + 1" is past `DateTime.MaxValue`; that exception is not modelled.
- The `CalendarDay` class is not part of this model. It is the datatype
  `CalendarDay(date, isPublicHoliday, text)`. The bare constructor
  `new CalendarDay(d)` (line 108) is modelled as an entry with no flag and
  no text.
- The `Func<DateTime, CalendarDay>` converters are not higher-order values
  here. Each one is the data `Mark(isPublicHoliday, text)` that it attaches
  to the date.
- The `CalendarYear` object holds only the read-only `_year` (lines 13-18).
  Every member is therefore a function or method taking `year`, and there
  is no Dafny class.
- `GetCalendarDays` writes out one `AddDays` call per rule. The model keeps
  these calls as the table `Rules`, in the same order, and runs it with the
  loop in `ApplyRules`. The catch-all of line 86 runs last, as in the
  source.
- The array the source returns has element type `CalendarDay` and may
  contain null. Here it is `array<Option<CalendarDay>>`, and
  `GetCalendarDays` proves that every slot is `Some`.
- The unused `using` directives (lines 1-6) carry no behaviour.
- CalendarYear.GetDate: its contract states only the range of the result.
  The date that the result denotes is stated by `GetDateRoundTrip`.
- CalendarProperties.ChristmasBreakStart is stated for any anchors whose
  Christmas start is `XmasHolidayBegin(year)`, the value `YearAnchors(year)`
  computes, rather than for `YearAnchors(year)` by name.
- The number of public holidays in a year is not counted over the array.
  `HolidayIffStatutory` states which days they are: exactly the distinct
  statutory dates. That is thirteen days, or twelve in a year such as 2008
  where Ascension falls on May 1st.
- Easter reference values are proved for 2008, 2019, 2020, 2023 and 2024
  only. Other years are covered by the general range and Sunday lemmas.
- The label "Heiliger Lepopld" is kept exactly as `CalendarYear.cs:77`
  spells it. The saint is Leopold.
- Several rules in the source are interleaved: Allerseelen and Heiliger
  Lepopld come between the Sommerferien and the Christmas range, and the
  Herbstferien come after the Christmas range. The model keeps the
  source's order.
