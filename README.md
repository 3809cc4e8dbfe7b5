# Leave accounting of a home-help employer, in Dafny

This project models the core of a small Java application that manages the
paid leave of home-help employees (`SalarieAideADomicile`) on behalf of a
company (`Entreprise`). It proves properties of that model.

- `Dates.dfy` models the part of `java.time.LocalDate` the core relies on:
  valid (year, month, day) triples, the epoch-day number, `plusDays`,
  `isBefore`/`isAfter` and the ISO day of the week. It proves that the
  calendar order is the order of day numbers.
- `Entreprise.dfy` models the company calendar:
  - the Easter table for 2012 to 2035;
  - the eleven French public holidays of a year;
  - the company's digit-based leap-year test and the holiday test that uses it;
  - the seasonal weight of a leave month;
  - the first day of the leave year (June 1);
  - the inclusive date-range test.
- `Salarie.dfy` models the employee as a class with the fields the Java
  entity updates in place:
  - the set of leave days taken is a `seq` without duplicates, standing for a `LinkedHashSet`;
  - the counters are `real`s standing for `double`s.
  It models the entitlement test, the workable-day and habitually-worked-day
  tests, and the method that computes which days a leave request is charged.
  That method keeps the Java loop. It is proved equal to a reference rule,
  `CountedDays`, and lemmas characterise that rule day by day. They also
  state, day by day, what is charged for each of the ten July/August 2022
  requests of the parameterized test's data provider, and for a request of
  a day already recorded.

## Model

| member | source | states |
|---|---|---|
| Entreprise.DatePaque | src/main/java/com/ipi/jva350/model/Entreprise.java:8-39 | the Easter lookup has an entry exactly for the years 2012 to 2035, and the entry for year y is dated in year y |
| Entreprise.EasterEntry | src/main/java/com/ipi/jva350/model/Entreprise.java:14-39 | every table entry is a real calendar date, is a Sunday, and falls between March 25 and April 21 |
| Entreprise.Paque | src/main/java/com/ipi/jva350/model/Entreprise.java:47 | the Easter date that `datePaque.get(year)` returns for a table year is a Sunday of that year, in the Easter range |
| Entreprise.JoursFeries | src/main/java/com/ipi/jva350/model/Entreprise.java:41-69 | the holiday list of a table year has eleven entries |
| Entreprise.HolidayList | src/main/java/com/ipi/jva350/model/Entreprise.java:43-68 | the list built around the three movable feasts has eleven entries |
| Entreprise.HolidaysOfYear | src/main/java/com/ipi/jva350/model/Entreprise.java:41-69 | every holiday of the list lies in the year asked for, and no date appears twice |
| Entreprise.HolidayListShape | src/main/java/com/ipi/jva350/model/Entreprise.java:43-68 | the fixed dates and the three movable feasts never coincide, and all lie in the year |
| Entreprise.HolidaysFromEaster | src/main/java/com/ipi/jva350/model/Entreprise.java:47-56 | Easter + 1 falls in March or April, Easter + 40 in May (neither the 1st nor the 8th), and Easter + 50 in May from the 14th or in June, all in Easter's year |
| Entreprise.MovableHolidayWeekdays | src/main/java/com/ipi/jva350/model/Entreprise.java:46-56 | Easter Monday and Whit Monday fall on Mondays; the Ascension holiday as computed (Easter + 40) falls on a Friday, not on the Thursday |
| Entreprise.WeekdaysAfterSunday | src/main/java/com/ipi/jva350/model/Entreprise.java:47-56 | from a Sunday, +1 is a Monday, +40 is a Friday and +50 is a Monday |
| Entreprise.Bissextile | src/main/java/com/ipi/jva350/model/Entreprise.java:71-84 | a year the test calls leap always ends in an even digit, whatever its tens digit |
| Entreprise.FourDigitYear | src/main/java/com/ipi/jva350/model/Entreprise.java:72 | a year from 1000 to 9999 is written with exactly its four decimal digits |
| Entreprise.BissextileDigitRule | src/main/java/com/ipi/jva350/model/Entreprise.java:71-84 | on four-digit years the test depends only on the tens and units digits. Tens digit 1, 3, 7 or 9: leap iff the units digit is 2 or 6. Any other tens digit, 5 included: leap iff the units digit is 0, 4 or 8, except "00" |
| Entreprise.BissextileIsGregorianFrom2001To2049 | src/main/java/com/ipi/jva350/model/Entreprise.java:71-84 | from 2001 to 2049 the company's test agrees with the Gregorian rule |
| Entreprise.GregorianByDigits | src/main/java/com/ipi/jva350/model/Entreprise.java:73-81 | for 2000 + 10t + u in 2001..2049, the Gregorian rule is the digit rule the code writes |
| Entreprise.BissextileMissesYear2000 | src/main/java/com/ipi/jva350/model/Entreprise.java:77-79 | the test rejects 2000, a Gregorian leap year |
| Entreprise.BissextileTensDigitFive | src/main/java/com/ipi/jva350/model/Entreprise.java:73 | the comparison with the number 5 makes 2050 leap and 2052 common, the reverse of the calendar |
| Entreprise.BissextileLeapExamples | src/test/java/com/ipi/jva350/model/unit_test/EntrepriseBissextileTest.java:19-24 | 2020 and 2024 are leap under the company's test |
| Entreprise.BissextileCommonExamples | src/test/java/com/ipi/jva350/model/unit_test/EntrepriseBissextileTest.java:20-25 | 2100, 1900, 2023 and 1500 are not leap under the company's test |
| Entreprise.LeapCorrectedCount | src/main/java/com/ipi/jva350/model/Entreprise.java:132-136 | for a common year (flag 0) the comparison is "the count differs from 0" |
| Entreprise.LeapCorrectionIsInert | src/main/java/com/ipi/jva350/model/Entreprise.java:132-136 | the leap-year correction never changes the holiday verdict: for every match count and either flag, the result is "at least one match" |
| Entreprise.CountEqual | src/main/java/com/ipi/jva350/model/Entreprise.java:131 | the count of list entries equal to the day is at most the list's length, and positive exactly when the day is in the list |
| Entreprise.EstJourFerie | src/main/java/com/ipi/jva350/model/Entreprise.java:130-137 | a day is a holiday exactly when it is one of the eleven holidays of its year |
| Entreprise.MoisIndice | src/main/java/com/ipi/jva350/model/Entreprise.java:92 | the season index runs from 1 to 12: June is 1, December is 7, January is 8 and May is 12 |
| Entreprise.ProportionPondereeDuMois | src/main/java/com/ipi/jva350/model/Entreprise.java:86-111 | a missing month (null) weighs 0; a month weighs its points out of 120 (June 8, July 28, August 48, then 8 more per month up to May's 120), so always between 8/120 and 1 |
| Entreprise.ProportionIncreasesThroughLeaveYear | src/main/java/com/ipi/jva350/model/Entreprise.java:92-110 | the weight strictly increases from June to May |
| Entreprise.SummerWeighsMore | src/test/java/com/ipi/jva350/model/unit_test/EntrepriseProportionPondereeDuMoisTest.java:38-55 | July and August weigh more than June and more than 0.1 |
| Entreprise.GetPremierJourAnneeDeConges | src/main/java/com/ipi/jva350/model/Entreprise.java:113-128 | null gives null; otherwise the result is the June 1 on or before the date, with the date before the following June 1 |
| Entreprise.EstDansPlage | src/main/java/com/ipi/jva350/model/Entreprise.java:147-153 | true exactly when all three dates are present and the date's day number lies between the bounds', inclusive; true implies the bounds are ordered |
| Dates.Before | src/main/java/com/ipi/jva350/model/SalarieAideADomicile.java:143 | `isBefore` never holds between equal dates or towards an earlier year, and always holds towards a later year |
| Dates.After | src/main/java/com/ipi/jva350/model/SalarieAideADomicile.java:128 | `isAfter` excludes both `isBefore` and equality |
| Dates.DayOfWeek | src/main/java/com/ipi/jva350/model/SalarieAideADomicile.java:139 | the ISO day-of-week value lies from 1 (Monday) to 7 (Sunday) |
| Dates.PlusDays | src/main/java/com/ipi/jva350/model/SalarieAideADomicile.java:136 | `plusDays(n)` moves the epoch-day number by exactly n |
| Dates.EpochOrder | src/main/java/com/ipi/jva350/model/SalarieAideADomicile.java:135 | `isBefore` holds exactly when the day number is smaller, and dates are equal exactly when their day numbers are |
| Dates.DayOfWeekPlusDays | src/main/java/com/ipi/jva350/model/SalarieAideADomicile.java:143-146 | adding n days moves the day of the week n steps forward, modulo 7 |
| Salarie.AddToSet | src/main/java/com/ipi/jva350/model/SalarieAideADomicile.java:141 | `LinkedHashSet.add`: the date is present afterwards, nothing else is added, a new date goes at the end, and a date already present leaves the set unchanged |
| Salarie.CountingStart | src/main/java/com/ipi/jva350/model/SalarieAideADomicile.java:132-136 | counting starts the day after dateDebut exactly when leave was recorded and the last recorded day is not after dateDebut |
| Salarie.IsCounted | src/main/java/com/ipi/jva350/model/SalarieAideADomicile.java:139-149 | a charged day is never a Sunday; the first day is charged only on a Monday to Friday, and a day after dateFin only on a Saturday |
| Salarie.Continues | src/main/java/com/ipi/jva350/model/SalarieAideADomicile.java:143-144 | the loop goes on exactly while the day is on or before dateFin, or is a Saturday that is not a holiday |
| Salarie.CountedDays | src/main/java/com/ipi/jva350/model/SalarieAideADomicile.java:125-152 | a request that ends before it starts is charged nothing |
| Salarie.CountedAmong | src/main/java/com/ipi/jva350/model/SalarieAideADomicile.java:139-150 | the days charged among the first k days from the start lie within those k days |
| Salarie.Span | src/main/java/com/ipi/jva350/model/SalarieAideADomicile.java:143-145 | the loop examines at least two days: the start and the day after it |
| Salarie.CountedAmongIsFilter | src/main/java/com/ipi/jva350/model/SalarieAideADomicile.java:139-150 | the days charged among the first k are the k-day window from the start, filtered on the charging rule |
| Salarie.CountedDaysMembers | src/main/java/com/ipi/jva350/model/SalarieAideADomicile.java:125-152 | a day is charged exactly when it is in the examined span and the charging rule accepts it |
| Salarie.CountedDaysChronological | src/main/java/com/ipi/jva350/model/SalarieAideADomicile.java:123-152 | the charged days come in strictly increasing date order, so no day twice |
| Salarie.CountedDaysFirstDay | src/main/java/com/ipi/jva350/model/SalarieAideADomicile.java:139-142 | the first day is charged exactly when it is a Monday to Friday and not a holiday |
| Salarie.CountedDaysInRange | src/main/java/com/ipi/jva350/model/SalarieAideADomicile.java:143-149 | a later day up to dateFin is charged exactly when it is neither a Sunday nor a holiday, Saturdays included |
| Salarie.CountedDaysAfterRange | src/main/java/com/ipi/jva350/model/SalarieAideADomicile.java:143-149 | a day after dateFin (other than the start) is charged exactly when it is the day right after the range, a Saturday, and not a holiday |
| Salarie.CountedDaysBeforeStart | src/main/java/com/ipi/jva350/model/SalarieAideADomicile.java:135-138 | no day before the start of counting is charged |
| Salarie.CountedDaysBounds | src/main/java/com/ipi/jva350/model/SalarieAideADomicile.java:125-152 | every charged day lies from dateDebut to dateFin + 2, and to dateFin + 1 when no leave was recorded |
| Salarie.ChargedDaysAreWorkable | src/test/java/com/ipi/jva350/service/SalarieAideADomicileParameterizedTest.java:140-142 | every day charged for any request is a Monday to Saturday, so never a Sunday, and is no public holiday |
| Salarie.TableYearsAreContiguous | src/main/java/com/ipi/jva350/model/Entreprise.java:8-39 | a date between two table-year dates is in a table year |
| Salarie.DayAfterTableDate | src/main/java/com/ipi/jva350/model/Entreprise.java:38 | the day after a table-year date is in the table unless it is 2036-01-01, a Tuesday |
| Salarie.LookupDefined | src/main/java/com/ipi/jva350/model/SalarieAideADomicile.java:139-149 | every holiday lookup the count makes falls in the Easter table, and the only day examined after dateFin is the day after the range |
| Salarie.DayBeforeIsBefore | src/main/java/com/ipi/jva350/model/SalarieAideADomicile.java:143 | `jour.minusDays(1).isBefore(fin)` means jour is on or before fin |
| Salarie.Examined | src/main/java/com/ipi/jva350/model/SalarieAideADomicile.java:143-144 | only the last two days of the span lie after dateFin, and those two always do |
| Salarie.LoopStep | src/main/java/com/ipi/jva350/model/SalarieAideADomicile.java:146-149 | one loop turn adds the day exactly when it is neither a Sunday nor a holiday, and the day was not charged before |
| Salarie.FirstDay | src/main/java/com/ipi/jva350/model/SalarieAideADomicile.java:139-142 | the first day's verdict is the Java condition on the start |
| Salarie.LastOfSpan | src/main/java/com/ipi/jva350/model/SalarieAideADomicile.java:143-144 | a day of the span after dateFin that is not the last is the one before last |
| Salarie.LoopEnd | src/main/java/com/ipi/jva350/model/SalarieAideADomicile.java:143-144 | when the guard fails before the end of the span, the remaining day is not charged, so the days charged so far are the whole answer |
| Salarie.NextDay | src/main/java/com/ipi/jva350/model/SalarieAideADomicile.java:145 | stepping one day from the k-th day gives the (k+1)-th, and Saturday is followed by Sunday |
| Salarie.LoopEntry | src/main/java/com/ipi/jva350/model/SalarieAideADomicile.java:143 | the loop invariant holds on the day after the start, with the first day judged |
| Salarie.LoopAdvance | src/main/java/com/ipi/jva350/model/SalarieAideADomicile.java:143-150 | a loop turn entered because the guard held keeps the invariant, whether or not the day is charged |
| Salarie.LoopExit | src/main/java/com/ipi/jva350/model/SalarieAideADomicile.java:143-151 | when the guard fails, the set built is exactly the reference rule's answer |
| Salarie.Holidays2022List | src/main/java/com/ipi/jva350/model/Entreprise.java:43-68 | the 2022 holiday list has eleven entries |
| Salarie.Holidays2022 | src/main/java/com/ipi/jva350/model/Entreprise.java:25 | with Easter 2022 on April 17, the holidays of 2022 are January 1, April 18, May 1, May 8, May 27, June 6, July 14, August 15, November 1, November 11 and December 25 |
| Salarie.Holiday2022 | src/main/java/com/ipi/jva350/model/Entreprise.java:130-137 | a day of 2022 is a holiday exactly when it is one of those eleven |
| Salarie.InHolidays2022List | src/main/java/com/ipi/jva350/model/Entreprise.java:43-68 | a 2022 date is in the 2022 list exactly on the eleven (month, day) pairs |
| Salarie.NoLeaveOffset | src/main/java/com/ipi/jva350/model/SalarieAideADomicile.java:138-150 | with no leave recorded, every charged day is the start moved by an offset within the span |
| Salarie.NoLeaveAt | src/main/java/com/ipi/jva350/model/SalarieAideADomicile.java:138-150 | with no leave recorded, the day at offset i of a request from d to d + m is charged exactly when it is not a holiday and: at i = 0 a Monday to Friday; up to m not a Sunday; at m + 1 a Saturday |
| Salarie.FridayAlone | src/main/java/com/ipi/jva350/model/SalarieAideADomicile.java:138-150 | a lone non-holiday Friday, with a non-holiday Saturday after it, charges that Friday and that Saturday and nothing else |
| Salarie.HolidayInsideRequest | src/main/java/com/ipi/jva350/model/SalarieAideADomicile.java:138-150 | Wednesday to Friday with a holiday Thursday charges the Wednesday, the Friday and the Saturday after, and nothing else |
| Salarie.FromWednesday | src/main/java/com/ipi/jva350/model/SalarieAideADomicile.java:143-146 | the three days after a Wednesday are Thursday, Friday and Saturday |
| Salarie.FromMonday | src/main/java/com/ipi/jva350/model/SalarieAideADomicile.java:143-146 | in the fortnight from a Monday, offsets 5 and 12 are Saturdays, 6 and 13 are Sundays, and the rest are Monday to Friday |
| Salarie.MondayRequestAt | src/main/java/com/ipi/jva350/model/SalarieAideADomicile.java:138-150 | a holiday-free request from a Monday to offset 5 or 13 charges a day exactly when it lies in the range and is not a Sunday |
| Salarie.MondayToSaturday | src/main/java/com/ipi/jva350/model/SalarieAideADomicile.java:138-150 | a holiday-free Monday-to-Saturday request charges exactly its six days |
| Salarie.TwoWeeksFromMonday | src/main/java/com/ipi/jva350/model/SalarieAideADomicile.java:138-150 | a holiday-free fortnight from a Monday to the second Sunday charges exactly the twelve days other than the Sundays |
| Salarie.LaterWeekday | src/main/java/com/ipi/jva350/model/SalarieAideADomicile.java:143-146 | i days after a date, without passing the next Monday, is the weekday i steps later, and Monday right after a Sunday |
| Salarie.WeekendAlone | src/main/java/com/ipi/jva350/model/SalarieAideADomicile.java:138-150 | a Saturday-to-Sunday request, no leave recorded, charges nothing, holidays or not |
| Salarie.SaturdayOffset | src/main/java/com/ipi/jva350/model/SalarieAideADomicile.java:143-146 | the four days from a Saturday are Saturday, Sunday, then two days from Monday to Friday |
| Salarie.SaturdayRequestAt | src/main/java/com/ipi/jva350/model/SalarieAideADomicile.java:138-150 | a request from a Saturday to the Monday after, the Monday no holiday, charges a day exactly when it is that Monday |
| Salarie.SaturdayToMonday | src/main/java/com/ipi/jva350/model/SalarieAideADomicile.java:138-150 | such a request charges only the Monday |
| Salarie.TuesdayRequestAt | src/main/java/com/ipi/jva350/model/SalarieAideADomicile.java:138-150 | a holiday-free request from a Tuesday to the Friday after, the Saturday after no holiday, charges a day exactly when it lies from the Tuesday to that Saturday |
| Salarie.TuesdayToFriday | src/main/java/com/ipi/jva350/model/SalarieAideADomicile.java:138-150 | such a request charges the four days and the Saturday after, and nothing else |
| Salarie.HolidayWeekAt | src/main/java/com/ipi/jva350/model/SalarieAideADomicile.java:138-150 | a Monday-to-Sunday request with a holiday on the Thursday only charges a day exactly when it is from the Monday to the Saturday and not the Thursday |
| Salarie.HolidayWeek | src/main/java/com/ipi/jva350/model/SalarieAideADomicile.java:138-150 | such a request charges five days: Monday to Saturday without the Thursday |
| Salarie.ThursdayOffset | src/main/java/com/ipi/jva350/model/SalarieAideADomicile.java:143-146 | in the week from a Thursday, offset 2 is the Saturday, offset 3 the Sunday, and the rest are Monday to Friday |
| Salarie.HolidayStartAt | src/main/java/com/ipi/jva350/model/SalarieAideADomicile.java:138-150 | a request from a holiday Thursday to the Tuesday after, the other days no holidays, charges a day exactly when it is the Friday, the Saturday, the Monday or the Tuesday |
| Salarie.HolidayStart | src/main/java/com/ipi/jva350/model/SalarieAideADomicile.java:138-150 | such a request charges those four days and nothing else: the holiday start is skipped |
| Salarie.NotHoliday2022 | src/main/java/com/ipi/jva350/model/Entreprise.java:130-137 | a 2022 day that is none of the eleven holidays is in the table and no holiday |
| Salarie.FridayExample | src/test/java/com/ipi/jva350/service/SalarieAideADomicileParameterizedTest.java:82-88 | requesting Friday 2022-07-22 alone charges the 22nd and the 23rd: 2 days |
| Salarie.BastilleDayExample | src/test/java/com/ipi/jva350/service/SalarieAideADomicileParameterizedTest.java:58-64 | 2022-07-13 to 07-15 charges the 13th, the 15th and the 16th: Bastille Day is skipped and the Saturday after is added |
| Salarie.WeekExample | src/test/java/com/ipi/jva350/service/SalarieAideADomicileParameterizedTest.java:50-56 | Monday 2022-07-04 to Saturday 07-09 charges exactly those six days |
| Salarie.TwoWeeksExample | src/test/java/com/ipi/jva350/service/SalarieAideADomicileParameterizedTest.java:98-104 | Monday 2022-08-01 to Sunday 08-14 charges twelve days, all but the 7th and the 14th |
| Salarie.WeekendExample | src/test/java/com/ipi/jva350/service/SalarieAideADomicileParameterizedTest.java:42-48 | Saturday 2022-07-02 to Sunday 07-03 charges nothing: 0 days |
| Salarie.HolidayWeekExample | src/test/java/com/ipi/jva350/service/SalarieAideADomicileParameterizedTest.java:66-72 | Monday 2022-07-11 to Sunday 07-17 charges the 11th, 12th, 13th, 15th and 16th: 5 days, Bastille Day and the Sunday skipped |
| Salarie.BastilleDay2022 | src/main/java/com/ipi/jva350/model/Entreprise.java:57-58 | 2022-07-14 is a public holiday and a Thursday |
| Salarie.HolidayStartExample | src/test/java/com/ipi/jva350/service/SalarieAideADomicileParameterizedTest.java:74-80 | Thursday 2022-07-14, a holiday, to Tuesday 07-19 charges the 15th, 16th, 18th and 19th: 4 days |
| Salarie.SaturdayToMondayExample | src/test/java/com/ipi/jva350/service/SalarieAideADomicileParameterizedTest.java:90-96 | Saturday 2022-07-23 to Monday 07-25 charges only the 25th: 1 day |
| Salarie.InvertedRangeExample | src/test/java/com/ipi/jva350/service/SalarieAideADomicileParameterizedTest.java:106-112 | 2022-07-15 to 07-14, an inverted range, charges nothing |
| Salarie.TuesdayToFridayExample | src/test/java/com/ipi/jva350/service/SalarieAideADomicileParameterizedTest.java:114-120 | Tuesday 2022-07-26 to Friday 07-29 charges those four days and Saturday the 30th: 5 days |
| Salarie.RecordedDayRequestExample | src/main/java/com/ipi/jva350/model/SalarieAideADomicile.java:132-149 | with Thursday 2022-07-21 already recorded, a request for 07-21 alone charges Friday the 22nd and Saturday the 23rd, and not the day requested |
| Salarie.SalarieAideADomicile.constructor | src/main/java/com/ipi/jva350/model/SalarieAideADomicile.java:35-47 | a new employee has no name or months, every counter at 0 and no leave recorded |
| Salarie.SalarieAideADomicile.Init | src/main/java/com/ipi/jva350/model/SalarieAideADomicile.java:60-72 | every counter and date takes the value given, and no leave is recorded |
| Salarie.SalarieAideADomicile.GetPremierJourAnneeDeConges | src/main/java/com/ipi/jva350/model/SalarieAideADomicile.java:79-94 | the employee's copy computes exactly what the company's does |
| Salarie.SalarieAideADomicile.GetCongesPayesRestantAnneeNMoins1 | src/main/java/com/ipi/jva350/model/SalarieAideADomicile.java:228-230 | what is left plus what was taken is what was acquired; nothing is overdrawn exactly when taken does not exceed acquired |
| Salarie.SalarieAideADomicile.EstHabituellementTravaille | src/main/java/com/ipi/jva350/model/SalarieAideADomicile.java:22-30 | a day is habitually worked exactly when it is a Monday to Friday |
| Salarie.SalarieAideADomicile.EstJourOuvrable | src/main/java/com/ipi/jva350/model/SalarieAideADomicile.java:159-162 | a day is workable exactly when it is not a Sunday and not a holiday |
| Salarie.SalarieAideADomicile.ALegalementDroitADesCongesPayes | src/main/java/com/ipi/jva350/model/SalarieAideADomicile.java:115-117 | entitled exactly when more than ten days were worked last year: 10 or fewer give none, and any count above 10, 10.5 included, does |
| Salarie.DroitAuxCongesSeuil | src/main/java/com/ipi/jva350/model/SalarieAideADomicile.java:115-117 | entitlement is a strict threshold above ten days worked last year: 10 gives none, 11 does, 0 or less gives none, and more days never lose it |
| Salarie.SalarieAideADomicile.SetNom | src/main/java/com/ipi/jva350/model/SalarieAideADomicile.java:191-194 | sets the name, changes nothing else and returns the same employee |
| Salarie.SalarieAideADomicile.SetJoursTravaillesAnneeN | src/main/java/com/ipi/jva350/model/SalarieAideADomicile.java:200-202 | sets that counter and nothing else |
| Salarie.SalarieAideADomicile.SetCongesPayesAcquisAnneeN | src/main/java/com/ipi/jva350/model/SalarieAideADomicile.java:208-210 | sets that counter and nothing else |
| Salarie.SalarieAideADomicile.SetCongesPayesPris | src/main/java/com/ipi/jva350/model/SalarieAideADomicile.java:216-218 | replaces the set of leave days taken and nothing else |
| Salarie.SalarieAideADomicile.SetJoursTravaillesAnneeNMoins1 | src/main/java/com/ipi/jva350/model/SalarieAideADomicile.java:224-226 | sets that counter and nothing else |
| Salarie.SalarieAideADomicile.SetCongesPayesAcquisAnneeNMoins1 | src/main/java/com/ipi/jva350/model/SalarieAideADomicile.java:236-238 | sets that counter and nothing else |
| Salarie.SalarieAideADomicile.SetCongesPayesPrisAnneeNMoins1 | src/main/java/com/ipi/jva350/model/SalarieAideADomicile.java:244-246 | sets that counter and nothing else |
| Salarie.SalarieAideADomicile.SetMoisEnCours | src/main/java/com/ipi/jva350/model/SalarieAideADomicile.java:252-254 | sets the current month and nothing else |
| Salarie.SalarieAideADomicile.SetMoisDebutContrat | src/main/java/com/ipi/jva350/model/SalarieAideADomicile.java:260-262 | sets the contract's start month and nothing else |
| Salarie.SalarieAideADomicile.CalculeJoursDeCongeDecomptesPourPlage | src/main/java/com/ipi/jva350/model/SalarieAideADomicile.java:125-152 | the set built is exactly the reference rule CountedDays for the leave already recorded, so every CountedDays lemma above holds of it |
| Salarie.SalarieAideADomicile.CountFollowingDays | src/main/java/com/ipi/jva350/model/SalarieAideADomicile.java:143-150 | the Java loop, started with the first day's verdict, ends with every day of the span judged by the reference rule |

## Left out

- The service layer, the repository, the JPA annotations, the `id` field, its accessors, and `equals`/`hashCode` are outside the leave computation and not modelled.
- The one-argument `estDansPlage(LocalDate)` (SalarieAideADomicile.java:102-104) only throws `UnsupportedOperationException`, so it has no behaviour to model.
- `CONGES_PAYES_ACQUIS_PAR_MOIS` is kept as a constant. No modelled operation reads it; only the monthly closing in the service uses it.
- The `double` counters and the `double` month weight (`Entreprise.ProportionPondereeDuMois`, the division by 120.0 at Entreprise.java:110) are modelled as exact `real`s. Floating-point rounding is not modelled.
- A `null` Java date is `None` where the code tests for null (`getPremierJourAnneeDeConges`, `proportionPondereeDuMois`, `estDansPlage`). Elsewhere the Java dereferences the date at once and throws `NullPointerException`, so the model takes a `Date`. This covers `dateDebut`/`dateFin`, `jour`, and a `null` set of leave days taken.
- `datePaque.get(year)` returns `null` outside 2012–2035, and `joursFeries`, `estJourFerie` and the counting method then throw `NullPointerException`. The model makes that a precondition (`HasHolidays`, `CountingDefined`) rather than an error value.
- The `datePaque` `HashMap` is modelled as the lookup function `DatePaque`.
- `bissextile` throws `StringIndexOutOfBoundsException` on years written with fewer than four characters. The model requires four characters (`|DecimalString(y)| >= 4`).
- `estJourOuvrable` and `estHabituellementTravaille` are instance methods in Java but read no field, so the model makes them `static`.
- The comment at Entreprise.java:52 calls the Ascension holiday a Thursday, 40 days after Easter. The code adds 40 days to Easter Sunday, which gives a Friday; the model follows the code (Entreprise.MovableHolidayWeekdays).
- The code advances the start of counting by one day when the last recorded day is not after `dateDebut` (SalarieAideADomicile.java:135-136); the model follows the code (Salarie.CountingStart).
- The comment at SalarieAideADomicileParameterizedTest.java:62 says July 14 is counted, but the code charges the 13th, the 15th and Saturday the 16th. The test expects 3, and the model states that (Salarie.BastilleDayExample).
- The parameterized tests check the number of days charged (SalarieAideADomicileParameterizedTest.java:137-138) and that no charged day is a Sunday and every one is a Monday to Saturday (lines 140-142 and 165-170). The ten examples are stated as exact membership, which determines that number; Salarie.ChargedDaysAreWorkable states the weekday property for every request.
- `getCongesPayesPris` and `setCongesPayesPris` (SalarieAideADomicile.java:212-218) hand the caller's `LinkedHashSet` over by reference, so the object and the caller share it. The model stores a value (a `seq`): aliasing, and changes made through the getter's result, are not modelled.
- Salarie.CountedDays: its own contract states only the empty result for an inverted range. What it charges is stated by CountedDaysMembers and the lemmas after it.
- Salarie.CountedAmong: its own contract bounds where the charged days lie; CountedAmongIsFilter states what they are.
- Entreprise.JoursFeries: its own contract states only the length; HolidaysOfYear, MovableHolidayWeekdays and Holidays2022 state the contents.

## Findings

| source | as written | input that shows it | evidently intended | confidence | as-written member | corrected member |
|---|---|---|---|---|---|---|
| src/main/java/com/ipi/jva350/model/Entreprise.java:77-79 | the digits "00" are never leap | 2000: `bissextile` says common, though 2000 is divisible by 400 | the Gregorian leap-year rule | not executed | Entreprise.BissextileMissesYear2000 | Dates.IsLeapYear (agreement from 2001 to 2049: Entreprise.BissextileIsGregorianFrom2001To2049) |
| src/main/java/com/ipi/jva350/model/Entreprise.java:73 | `tmp.charAt(2) == 5` compares with the character of code 5, so a tens digit 5 falls into the even-digit branch | 2050 says leap and 2052 says common, the reverse of the calendar | the digit '5' | not executed | Entreprise.BissextileTensDigitFive | Dates.IsLeapYear (agreement from 2001 to 2049: Entreprise.BissextileIsGregorianFrom2001To2049) |
