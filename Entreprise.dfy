/** The company calendar: the Easter table, the French public holidays of
    a year, the digit-based leap-year test, the seasonal weight of a month,
    the start of the June-to-May leave year and the inclusive date-range
    test. Every operation is a pure function of its arguments. */
module Entreprise {
  import opened Dates

  /** datePaque.get(y): the map the company's static initialiser fills
      holds the Easter Sunday of each year from 2012 to 2035, and nothing
      for any other year. */
  function DatePaque(y: int): (r: Option<LocalDate>)
    ensures r.Some? <==> 2012 <= y <= 2035
    ensures r.Some? ==> r.value.year == y
  {
    match y
    case 2012 => Some(LocalDate(2012, 4, 8))
    case 2013 => Some(LocalDate(2013, 3, 31))
    case 2014 => Some(LocalDate(2014, 4, 20))
    case 2015 => Some(LocalDate(2015, 4, 5))
    case 2016 => Some(LocalDate(2016, 3, 27))
    case 2017 => Some(LocalDate(2017, 4, 16))
    case 2018 => Some(LocalDate(2018, 4, 1))
    case 2019 => Some(LocalDate(2019, 4, 21))
    case 2020 => Some(LocalDate(2020, 4, 12))
    case 2021 => Some(LocalDate(2021, 4, 4))
    case 2022 => Some(LocalDate(2022, 4, 17))
    case 2023 => Some(LocalDate(2023, 4, 9))
    case 2024 => Some(LocalDate(2024, 3, 31))
    case 2025 => Some(LocalDate(2025, 4, 20))
    case 2026 => Some(LocalDate(2026, 4, 5))
    case 2027 => Some(LocalDate(2027, 3, 28))
    case 2028 => Some(LocalDate(2028, 4, 16))
    case 2029 => Some(LocalDate(2029, 4, 1))
    case 2030 => Some(LocalDate(2030, 4, 21))
    case 2031 => Some(LocalDate(2031, 4, 13))
    case 2032 => Some(LocalDate(2032, 3, 28))
    case 2033 => Some(LocalDate(2033, 4, 17))
    case 2034 => Some(LocalDate(2034, 4, 9))
    case 2035 => Some(LocalDate(2035, 3, 25))
    case _ => None
  }

  /** The holidays of d's year can be computed: datePaque has an entry for
      it, which holds for the years 2012 to 2035 (DatePaque). */
  predicate HasHolidays(d: Date)
  {
    2012 <= d.year <= 2035
  }

  /** What the proofs need of each entry: a valid date between March 25
      and April 21 that is not March 29 (so Ascension never meets May 8),
      and a Sunday. */
  lemma EasterEntry(y: int)
    requires 2012 <= y <= 2035
    ensures IsValid(DatePaque(y).value)
    ensures EasterInTableRange(DatePaque(y).value) && DayOfWeek(DatePaque(y).value) == SUNDAY
  {
    if y <= 2015 {
      EasterEntries2012To2015(y);
    } else if y <= 2019 {
      EasterEntries2016To2019(y);
    } else if y <= 2023 {
      EasterEntries2020To2023(y);
    } else if y <= 2027 {
      EasterEntries2024To2027(y);
    } else if y <= 2031 {
      EasterEntries2028To2031(y);
    } else {
      EasterEntries2032To2035(y);
    }
  }

  lemma EasterEntries2012To2015(y: int)
    requires 2012 <= y <= 2015
    ensures IsValid(DatePaque(y).value)
    ensures EasterInTableRange(DatePaque(y).value) && DayOfWeek(DatePaque(y).value) == SUNDAY
  {
    if y == 2012 {
      assert DayOfWeek(LocalDate(2012, 4, 8)) == SUNDAY;
    } else if y == 2013 {
      assert DayOfWeek(LocalDate(2013, 3, 31)) == SUNDAY;
    } else if y == 2014 {
      assert DayOfWeek(LocalDate(2014, 4, 20)) == SUNDAY;
    } else if y == 2015 {
      assert DayOfWeek(LocalDate(2015, 4, 5)) == SUNDAY;
    }
  }

  lemma EasterEntries2016To2019(y: int)
    requires 2016 <= y <= 2019
    ensures IsValid(DatePaque(y).value)
    ensures EasterInTableRange(DatePaque(y).value) && DayOfWeek(DatePaque(y).value) == SUNDAY
  {
    if y == 2016 {
      assert DayOfWeek(LocalDate(2016, 3, 27)) == SUNDAY;
    } else if y == 2017 {
      assert DayOfWeek(LocalDate(2017, 4, 16)) == SUNDAY;
    } else if y == 2018 {
      assert DayOfWeek(LocalDate(2018, 4, 1)) == SUNDAY;
    } else if y == 2019 {
      assert DayOfWeek(LocalDate(2019, 4, 21)) == SUNDAY;
    }
  }

  lemma EasterEntries2020To2023(y: int)
    requires 2020 <= y <= 2023
    ensures IsValid(DatePaque(y).value)
    ensures EasterInTableRange(DatePaque(y).value) && DayOfWeek(DatePaque(y).value) == SUNDAY
  {
    if y == 2020 {
      assert DayOfWeek(LocalDate(2020, 4, 12)) == SUNDAY;
    } else if y == 2021 {
      assert DayOfWeek(LocalDate(2021, 4, 4)) == SUNDAY;
    } else if y == 2022 {
      assert DayOfWeek(LocalDate(2022, 4, 17)) == SUNDAY;
    } else if y == 2023 {
      assert DayOfWeek(LocalDate(2023, 4, 9)) == SUNDAY;
    }
  }

  lemma EasterEntries2024To2027(y: int)
    requires 2024 <= y <= 2027
    ensures IsValid(DatePaque(y).value)
    ensures EasterInTableRange(DatePaque(y).value) && DayOfWeek(DatePaque(y).value) == SUNDAY
  {
    if y == 2024 {
      assert DayOfWeek(LocalDate(2024, 3, 31)) == SUNDAY;
    } else if y == 2025 {
      assert DayOfWeek(LocalDate(2025, 4, 20)) == SUNDAY;
    } else if y == 2026 {
      assert DayOfWeek(LocalDate(2026, 4, 5)) == SUNDAY;
    } else if y == 2027 {
      assert DayOfWeek(LocalDate(2027, 3, 28)) == SUNDAY;
    }
  }

  lemma EasterEntries2028To2031(y: int)
    requires 2028 <= y <= 2031
    ensures IsValid(DatePaque(y).value)
    ensures EasterInTableRange(DatePaque(y).value) && DayOfWeek(DatePaque(y).value) == SUNDAY
  {
    if y == 2028 {
      assert DayOfWeek(LocalDate(2028, 4, 16)) == SUNDAY;
    } else if y == 2029 {
      assert DayOfWeek(LocalDate(2029, 4, 1)) == SUNDAY;
    } else if y == 2030 {
      assert DayOfWeek(LocalDate(2030, 4, 21)) == SUNDAY;
    } else if y == 2031 {
      assert DayOfWeek(LocalDate(2031, 4, 13)) == SUNDAY;
    }
  }

  lemma EasterEntries2032To2035(y: int)
    requires 2032 <= y <= 2035
    ensures IsValid(DatePaque(y).value)
    ensures EasterInTableRange(DatePaque(y).value) && DayOfWeek(DatePaque(y).value) == SUNDAY
  {
    if y == 2032 {
      assert DayOfWeek(LocalDate(2032, 3, 28)) == SUNDAY;
    } else if y == 2033 {
      assert DayOfWeek(LocalDate(2033, 4, 17)) == SUNDAY;
    } else if y == 2034 {
      assert DayOfWeek(LocalDate(2034, 4, 9)) == SUNDAY;
    } else if y == 2035 {
      assert DayOfWeek(LocalDate(2035, 3, 25)) == SUNDAY;
    }
  }

  /** datePaque.get(y) for a year the table covers. */
  function Paque(y: int): (p: Date)
    requires 2012 <= y <= 2035
    ensures p.year == y && EasterInTableRange(p) && DayOfWeek(p) == SUNDAY
  {
    EasterEntry(y);
    DatePaque(y).value
  }

  /** The eleven public holidays of now's year, in the order the company lists them. */
  function JoursFeries(now: Date): (r: seq<Date>)
    requires HasHolidays(now)
    ensures |r| == 11
  {
    var paque := Paque(now.year);
    HolidaysFromEaster(paque);
    HolidayList(now.year, PlusDays(paque, 1), PlusDays(paque, 40), PlusDays(paque, 50))
  }

  /** The holiday list of year y around its three movable feasts, which
      fall in y where HolidaysFromEaster places them: eleven distinct dates
      of year y. */
  function HolidayList(y: int, lundiPaques: Date, ascension: Date, pentecote: Date): (r: seq<Date>)
    requires lundiPaques.year == y && (lundiPaques.month == 3 || lundiPaques.month == 4)
    requires ascension.year == y && ascension.month == 5 && ascension.day != 1 && ascension.day != 8
    requires pentecote.year == y && ((pentecote.month == 5 && 14 <= pentecote.day) || pentecote.month == 6)
    requires ascension != pentecote
    ensures |r| == 11
  {
    [ LocalDate(y, 1, 1),      // New Year's Day
      lundiPaques,             // Easter Monday
      LocalDate(y, 5, 1),      // Labour Day
      LocalDate(y, 5, 8),      // Victory in Europe Day
      ascension,               // Ascension, as the company computes it
      pentecote,               // Whit Monday
      LocalDate(y, 7, 14),     // Bastille Day
      LocalDate(y, 8, 15),     // Assumption
      LocalDate(y, 11, 1),     // All Saints' Day
      LocalDate(y, 11, 11),    // Armistice Day
      LocalDate(y, 12, 25) ]   // Christmas
  }

  /** The holidays of a table year all fall in that year and are eleven
      distinct dates. */
  lemma HolidaysOfYear(now: Date)
    requires HasHolidays(now)
    ensures forall i :: 0 <= i < 11 ==> JoursFeries(now)[i].year == now.year
    ensures forall i, j :: 0 <= i < j < 11 ==> JoursFeries(now)[i] != JoursFeries(now)[j]
  {
    var p := Paque(now.year);
    HolidaysFromEaster(p);
    HolidayListShape(now.year, PlusDays(p, 1), PlusDays(p, 40), PlusDays(p, 50));
  }

  /** The holiday list around three movable feasts of year y lies in y and
      has no date twice. */
  lemma HolidayListShape(y: int, lundiPaques: Date, ascension: Date, pentecote: Date)
    requires lundiPaques.year == y && (lundiPaques.month == 3 || lundiPaques.month == 4)
    requires ascension.year == y && ascension.month == 5 && ascension.day != 1 && ascension.day != 8
    requires pentecote.year == y && ((pentecote.month == 5 && 14 <= pentecote.day) || pentecote.month == 6)
    requires ascension != pentecote
    ensures forall i :: 0 <= i < 11 ==> HolidayList(y, lundiPaques, ascension, pentecote)[i].year == y
    ensures forall i, j :: 0 <= i < j < 11 ==>
              HolidayList(y, lundiPaques, ascension, pentecote)[i] != HolidayList(y, lundiPaques, ascension, pentecote)[j]
  {
  }

  /** An Easter Sunday as the table holds them: between March 25 and
      April 21 of its year, and not March 29. */
  predicate EasterInTableRange(p: Date)
  {
    (p.month == 3 && 25 <= p.day && p.day != 29) || (p.month == 4 && p.day <= 21)
  }

  /** The three movable holidays stay in Easter's year: Easter Monday in
      March or April, Ascension in May after the 1st and not on the 8th,
      Whit Monday in May from the 14th or in June. */
  lemma HolidaysFromEaster(p: Date)
    requires EasterInTableRange(p)
    ensures var m := PlusDays(p, 1); m.year == p.year && (m.month == 3 || m.month == 4)
    ensures var a := PlusDays(p, 40); a.year == p.year && a.month == 5 && a.day != 1 && a.day != 8
    ensures var w := PlusDays(p, 50); w.year == p.year && ((w.month == 5 && 14 <= w.day) || w.month == 6)
    ensures PlusDays(p, 40) != PlusDays(p, 50)
  {
    PlusDaysWithinYear(p, 1);
    PlusDaysWithinYear(p, 40);
    PlusDaysWithinYear(p, 50);
  }

  /** Easter Monday and Whit Monday fall on Mondays; the Ascension holiday
      the company computes (Easter + 40 days) falls on a Friday, one day
      after the Thursday the feast is celebrated on. */
  lemma MovableHolidayWeekdays(now: Date)
    requires HasHolidays(now)
    ensures DayOfWeek(JoursFeries(now)[1]) == MONDAY
    ensures DayOfWeek(JoursFeries(now)[4]) == FRIDAY
    ensures DayOfWeek(JoursFeries(now)[4]) != THURSDAY
    ensures DayOfWeek(JoursFeries(now)[5]) == MONDAY
  {
    var p := Paque(now.year);
    var feries := JoursFeries(now);
    assert feries[1] == PlusDays(p, 1) && feries[4] == PlusDays(p, 40) && feries[5] == PlusDays(p, 50);
    WeekdaysAfterSunday(p);
  }

  lemma WeekdaysAfterSunday(p: Date)
    requires DayOfWeek(p) == SUNDAY
    ensures DayOfWeek(PlusDays(p, 1)) == MONDAY
    ensures DayOfWeek(PlusDays(p, 40)) == FRIDAY
    ensures DayOfWeek(PlusDays(p, 50)) == MONDAY
  {
    var m, a, w := PlusDays(p, 1), PlusDays(p, 40), PlusDays(p, 50);
    DayOfWeekPlusDays(p, 1);
    DayOfWeekPlusDays(p, 40);
    DayOfWeekPlusDays(p, 50);
    assert DayOfWeek(m) == (7 - 1 + 1) % 7 + 1 == 1;
    assert DayOfWeek(a) == (7 - 1 + 40) % 7 + 1 == 5;
    assert DayOfWeek(w) == (7 - 1 + 50) % 7 + 1 == 1;
  }

  /** String.valueOf(int): the decimal digits of n, with a leading '-' when negative. */
  function DecimalString(n: int): (s: string)
    ensures |s| >= 1
  {
    if n < 0 then "-" + Digits(-n) else Digits(n)
  }

  function Digits(n: nat): (s: string)
    ensures |s| >= 1
  {
    if n < 10 then [DigitChar(n)] else Digits(n / 10) + [DigitChar(n % 10)]
  }

  function DigitChar(k: int): char
    requires 0 <= k < 10
  {
    ('0' as int + k) as char
  }

  /** A four-digit year is written with its four decimal digits. */
  lemma FourDigitYear(y: int)
    requires 1000 <= y <= 9999
    ensures DecimalString(y)
         == [DigitChar(y / 1000), DigitChar(y / 100 % 10), DigitChar(y / 10 % 10), DigitChar(y % 10)]
  {
    assert Digits(y / 1000) == [DigitChar(y / 1000)];
    assert Digits(y / 100) == Digits(y / 1000) + [DigitChar(y / 100 % 10)];
    assert Digits(y / 10) == Digits(y / 100) + [DigitChar(y / 10 % 10)];
  }

  /** The leap-year test the company wrote, reading the third and fourth
      characters of the year's decimal string. The third test of the first
      condition compares the character with the number 5 (a control
      character), not with the digit '5'. */
  predicate Bissextile(y: int)
    requires |DecimalString(y)| >= 4
    ensures Bissextile(y) ==> DecimalString(y)[3] in "02468"
  {
    var tmp := DecimalString(y);
    if tmp[2] == '1' || tmp[2] == '3' || tmp[2] as int == 5 || tmp[2] == '7' || tmp[2] == '9' then
      tmp[3] == '2' || tmp[3] == '6'
    else if tmp[2] == '0' && tmp[3] == '0' then
      false
    else
      tmp[3] == '0' || tmp[3] == '4' || tmp[3] == '8'
  }

  /** On four-digit years Bissextile is a rule on the tens digit t and the
      units digit u: for t in {1, 3, 7, 9} the year is leap iff u is 2 or 6;
      for every other t (5 included) it is leap iff u is 0, 4 or 8, except
      that "00" is not. */
  lemma BissextileDigitRule(y: int)
    requires 1000 <= y <= 9999
    ensures |DecimalString(y)| == 4
    ensures var t, u := y / 10 % 10, y % 10;
      Bissextile(y) == if t == 1 || t == 3 || t == 7 || t == 9 then u == 2 || u == 6
                       else !(t == 0 && u == 0) && (u == 0 || u == 4 || u == 8)
  {
    FourDigitYear(y);
  }

  /** From 2001 to 2049 the digit rule is the Gregorian rule. */
  lemma BissextileIsGregorianFrom2001To2049(y: int)
    requires 2001 <= y <= 2049
    ensures |DecimalString(y)| == 4
    ensures Bissextile(y) == IsLeapYear(y)
  {
    BissextileDigitRule(y);
    var t, u := y / 10 % 10, y % 10;
    assert y == 2000 + 10 * t + u;
    GregorianByDigits(t, u);
  }

  /** For the year 2000 + 10t + u, t and u being its tens and units digits
      and the year being 2001 to 2049, the Gregorian rule reads on t and u:
      for t in {1, 3} the year is leap iff u is 2 or 6, for any other t iff
      u is 0, 4 or 8. */
  lemma GregorianByDigits(t: int, u: int)
    requires 0 <= t <= 4 && 0 <= u <= 9 && 0 < 10 * t + u
    ensures IsLeapYear(2000 + 10 * t + u) == if t == 1 || t == 3 || t == 7 || t == 9 then u == 2 || u == 6
                                             else !(t == 0 && u == 0) && (u == 0 || u == 4 || u == 8)
  {
    var y := 2000 + 10 * t + u;
    assert y % 100 == 10 * t + u && y % 400 == 10 * t + u;
    if t == 0 || t == 2 || t == 4 {
      assert y % 4 == u % 4;
    } else {
      assert y % 4 == (u + 2) % 4;
    }
  }

  /** The digit rule misses the leap century 2000. */
  lemma BissextileMissesYear2000()
    ensures |DecimalString(2000)| == 4
    ensures !Bissextile(2000) && IsLeapYear(2000)
  {
    BissextileDigitRule(2000);
  }

  /** The digit rule treats a tens digit 5 as even: 2050 counts as leap and 2052 does not. */
  lemma BissextileTensDigitFive()
    ensures |DecimalString(2050)| == 4 && |DecimalString(2052)| == 4
    ensures Bissextile(2050) && !IsLeapYear(2050)
    ensures !Bissextile(2052) && IsLeapYear(2052)
  {
    BissextileDigitRule(2050);
    BissextileDigitRule(2052);
  }

  /** The years the company's tests check: 2020 and 2024 are leap ... */
  lemma BissextileLeapExamples()
    ensures |DecimalString(2020)| == 4 && Bissextile(2020)
    ensures |DecimalString(2024)| == 4 && Bissextile(2024)
  {
    BissextileDigitRule(2020);
    BissextileDigitRule(2024);
  }

  /** ... and 2100, 1900, 2023 and 1500 are not. */
  lemma BissextileCommonExamples()
    ensures |DecimalString(2100)| == 4 && !Bissextile(2100)
    ensures |DecimalString(1900)| == 4 && !Bissextile(1900)
    ensures |DecimalString(2023)| == 4 && !Bissextile(2023)
    ensures |DecimalString(1500)| == 4 && !Bissextile(1500)
  {
    assert |DecimalString(2100)| == 4 && !Bissextile(2100) by {
      BissextileDigitRule(2100);
    }
    assert |DecimalString(1900)| == 4 && !Bissextile(1900) by {
      BissextileDigitRule(1900);
    }
    assert |DecimalString(2023)| == 4 && !Bissextile(2023) by {
      BissextileDigitRule(2023);
    }
    BissextileDigitRule(1500);
  }

  /** The comparison at the end of the holiday test: the number of matches
      against a leap-year flag that is reset to 0 when there is at most one
      match. */
  predicate LeapCorrectedCount(monEntier: int, leap: bool)
    ensures !leap ==> (LeapCorrectedCount(monEntier, leap) <==> monEntier != 0)
  {
    var test := if leap then 1 else 0;
    var test' := if test != 0 && monEntier <= 1 then test - 1 else test;
    monEntier != test'
  }

  /** The leap-year flag never changes the outcome: for every count of
      matches and either flag, the test is "at least one match". */
  lemma LeapCorrectionIsInert(monEntier: nat, leap: bool)
    ensures LeapCorrectedCount(monEntier, leap) <==> monEntier >= 1
    ensures LeapCorrectedCount(monEntier, leap) == LeapCorrectedCount(monEntier, !leap)
  {
  }

  /** The number of elements of s equal to x (a stream filtered on
      equality, then counted): positive exactly when x occurs in s. */
  function CountEqual(s: seq<Date>, x: Date): (n: nat)
    ensures n <= |s|
    ensures n > 0 <==> x in s
  {
    if s == [] then 0
    else CountEqual(s[..|s| - 1], x) + (if s[|s| - 1] == x then 1 else 0)
  }

  /** The public-holiday test: exactly "jour is one of the holidays of its year". */
  function EstJourFerie(jour: Date): (r: bool)
    requires HasHolidays(jour)
    ensures r <==> jour in JoursFeries(jour)
  {
    var monEntier := CountEqual(JoursFeries(jour), jour);
    BissextileDigitRule(jour.year);
    LeapCorrectionIsInert(monEntier, Bissextile(jour.year));
    LeapCorrectedCount(monEntier, Bissextile(jour.year))
  }

  /** Position of a month in the leave year: 1 for June ... 12 for May. */
  function MoisIndice(month: int): (i: int)
    requires 1 <= month <= 12
    ensures 1 <= i <= 12
    ensures month >= 6 ==> i == month - 5
    ensures month < 6 ==> i == month + 7
  {
    1 + (month + 6) % 12
  }

  /** Weight points of each month of the leave year, June first. */
  const SeasonPoints: seq<int> := [8, 28, 48, 56, 64, 72, 80, 88, 96, 104, 112, 120]

  /** The seasonal weight of a month: 0 for no month, otherwise the month's
      points out of 120, from 8/120 in June up to 120/120 in May. */
  function ProportionPondereeDuMois(moisDuConge: Option<Date>): (r: real)
    ensures moisDuConge.None? ==> r == 0.0
    ensures moisDuConge.Some? ==>
      r == (SeasonPoints[MoisIndice(moisDuConge.value.month) - 1] as real) / 120.0
    ensures moisDuConge.Some? ==> 8.0 / 120.0 <= r <= 1.0
  {
    if moisDuConge.None? then 0.0
    else
      var moisIndice := 1 + (moisDuConge.value.month + 6) % 12;
      var base := 8;
      var ete := if moisIndice >= 2 then base + (if moisIndice >= 3 then 40 else 20) else base;
      var points := if moisIndice >= 4 then ete + 8 * (moisIndice - 3) else ete;
      (points as real) / 120.0
  }

  /** The weight strictly increases along the leave year, from June to May. */
  lemma ProportionIncreasesThroughLeaveYear(a: Date, b: Date)
    requires MoisIndice(a.month) < MoisIndice(b.month)
    ensures ProportionPondereeDuMois(Some(a)) < ProportionPondereeDuMois(Some(b))
  {
    var i, j := MoisIndice(a.month) - 1, MoisIndice(b.month) - 1;
    assert SeasonPoints[i] < SeasonPoints[j];
  }

  /** The summer months weigh more than June and more than a tenth. */
  lemma SummerWeighsMore(june: Date, july: Date, august: Date)
    requires june.month == 6 && july.month == 7 && august.month == 8
    ensures ProportionPondereeDuMois(Some(july)) > ProportionPondereeDuMois(Some(june))
    ensures ProportionPondereeDuMois(Some(august)) > ProportionPondereeDuMois(Some(june))
    ensures ProportionPondereeDuMois(Some(july)) > 0.1 && ProportionPondereeDuMois(Some(august)) > 0.1
  {
    ProportionIncreasesThroughLeaveYear(june, july);
    ProportionIncreasesThroughLeaveYear(june, august);
  }

  /** The first day of the leave year containing d: the June 1 on or
      before d with d before the next June 1. No date gives no result. */
  function GetPremierJourAnneeDeConges(d: Option<Date>): (r: Option<Date>)
    ensures r.Some? <==> d.Some?
    ensures d.Some? ==> r.value.month == 6 && r.value.day == 1
    ensures d.Some? ==> !After(r.value, d.value)
    ensures d.Some? ==> Before(d.value, LocalDate(r.value.year + 1, 6, 1))
  {
    if d.None? then None
    else
      var month := d.value.month;
      if month >= 6 then Some(LocalDate(d.value.year, 6, 1))
      else Some(LocalDate(d.value.year - 1, 6, 1))
  }

  /** The inclusive range test: date lies between debut and fin, bounds
      included, in day-number terms; it fails when a date is missing and
      whenever debut is after fin. */
  function EstDansPlage(date: Option<Date>, debut: Option<Date>, fin: Option<Date>): (r: bool)
    ensures r <==> date.Some? && debut.Some? && fin.Some?
                   && ToEpoch(debut.value) <= ToEpoch(date.value) <= ToEpoch(fin.value)
    ensures r ==> !After(debut.value, fin.value)
  {
    if date.None? || debut.None? || fin.None? then false
    else
      EpochOrder(date.value, debut.value);
      EpochOrder(date.value, fin.value);
      EpochOrder(debut.value, fin.value);
      !Before(date.value, debut.value) && !After(date.value, fin.value)
  }
}
