/** A home-help employee and the count of leave days a requested range
    costs them: the first day counts only on Monday to Friday, later days
    of the range count unless they are Sundays or public holidays, and a
    non-holiday Saturday right after the range is counted as well. */
module Salarie {
  import opened Dates
  import opened Entreprise

  /** A LinkedHashSet of dates: insertion order kept, no date twice. */
  type DateSet = s: seq<Date> | NoDuplicates(s) witness []

  predicate NoDuplicates(s: seq<Date>)
  {
    forall i, j :: 0 <= i < j < |s| ==> s[i] != s[j]
  }

  /** LinkedHashSet.add: appends x unless it is already there. */
  function AddToSet(s: DateSet, x: Date): (r: DateSet)
    ensures x in r
    ensures forall d :: d in r <==> d in s || d == x
    ensures x !in s ==> r == s + [x]
    ensures x in s ==> r == s
  {
    if x in s then s else s + [x]
  }

  // ---------------------------------------------------------------------
  // The reference rule the counting loop is proved against.
  // ---------------------------------------------------------------------

  /** The day counting starts from: dateDebut, or the next day when the last
      leave day recorded is on or before dateDebut. */
  function CountingStart(taken: seq<Date>, dateDebut: Date): (r: Date)
    ensures r == dateDebut || r == PlusDays(dateDebut, 1)
    ensures r != dateDebut <==> |taken| > 0 && !After(taken[|taken| - 1], dateDebut)
  {
    EpochOrder(dateDebut, PlusDays(dateDebut, 1));
    if |taken| == 0 || After(taken[|taken| - 1], dateDebut) then dateDebut
    else PlusDays(dateDebut, 1)
  }

  /** The holiday lookups the count makes fall in the Easter table. Either
      the range is a single Sunday the loop never looks up, or its start and
      the later of its start and end lie in table years. */
  predicate CountingDefined(debut: Date, fin: Date)
  {
    (!Before(debut, fin) && DayOfWeek(debut) == SUNDAY)
    || (HasHolidays(debut) && HasHolidays(Latest(debut, fin)))
  }

  /** Number of days from debut to the day after the later of debut and fin,
      both included: the days the count examines. */
  function Span(debut: Date, fin: Date): (n: int)
    ensures n >= 2
  {
    EpochOrder(debut, Latest(debut, fin));
    ToEpoch(Latest(debut, fin)) + 2 - ToEpoch(debut)
  }

  /** Whether day d, one of the Span(debut, fin) days from debut on, is
      charged: the first day on Monday to Friday, the days up to fin on any
      day but Sunday, and the day after the range on a Saturday, always
      provided it is not a public holiday. */
  predicate IsCounted(debut: Date, fin: Date, d: Date)
    requires CountingDefined(debut, fin)
    requires ToEpoch(debut) <= ToEpoch(d) < ToEpoch(debut) + Span(debut, fin)
    ensures IsCounted(debut, fin, d) ==> DayOfWeek(d) != SUNDAY
    ensures IsCounted(debut, fin, d) && d == debut ==> DayOfWeek(d) <= FRIDAY
    ensures IsCounted(debut, fin, d) && d != debut && After(d, fin) ==> DayOfWeek(d) == SATURDAY
  {
    LookupDefined(debut, fin, d);
    if d == debut then
      DayOfWeek(d) != SUNDAY && d !in JoursFeries(d) && SalarieAideADomicile.EstHabituellementTravaille(d)
    else if !After(d, fin) then
      DayOfWeek(d) != SUNDAY && d !in JoursFeries(d)
    else
      DayOfWeek(d) == SATURDAY && d !in JoursFeries(d)
  }

  /** The days charged among the first k days from debut, in date order. */
  function CountedAmong(debut: Date, fin: Date, k: nat): (r: seq<Date>)
    requires CountingDefined(debut, fin) && k <= Span(debut, fin)
    ensures forall x :: x in r ==> ToEpoch(debut) <= ToEpoch(x) < ToEpoch(debut) + k
  {
    if k == 0 then []
    else
      var d := PlusDays(debut, k - 1);
      var rest := CountedAmong(debut, fin, k - 1);
      assert ToEpoch(d) == ToEpoch(debut) + k - 1;
      if IsCounted(debut, fin, d) then rest + [d] else rest
  }

  /** The days a leave request from dateDebut to dateFin is charged, given
      the leave days already recorded. */
  function CountedDays(taken: seq<Date>, dateDebut: Date, dateFin: Date): (r: seq<Date>)
    requires !After(dateDebut, dateFin) ==> CountingDefined(CountingStart(taken, dateDebut), dateFin)
    ensures After(dateDebut, dateFin) ==> r == []
  {
    if After(dateDebut, dateFin) then []
    else
      var debut := CountingStart(taken, dateDebut);
      CountedAmong(debut, dateFin, Span(debut, dateFin))
  }

  // ---------------------------------------------------------------------
  // Lemmas about the table range the lookups need.
  // ---------------------------------------------------------------------

  /** A date between two dates of table years is in a table year. */
  lemma TableYearsAreContiguous(a: Date, b: Date, x: Date)
    requires HasHolidays(a) && HasHolidays(b)
    requires ToEpoch(a) <= ToEpoch(x) <= ToEpoch(b)
    ensures HasHolidays(x)
  {
    EpochOrder(x, a);
    EpochOrder(b, x);
  }

  /** The day after a table date is in a table year unless it is
      2036-01-01, a Tuesday. */
  lemma DayAfterTableDate(m: Date)
    requires HasHolidays(m)
    ensures HasHolidays(PlusDays(m, 1)) || DayOfWeek(PlusDays(m, 1)) == TUESDAY
  {
    var n := PlusDays(m, 1);
    if m.month == 12 && m.day == 31 {
      assert n == LocalDate(m.year + 1, 1, 1);
      if m.year == 2035 {
        assert DayOfWeek(LocalDate(2036, 1, 1)) == TUESDAY;
      }
    } else {
      assert n.year == m.year;
    }
  }

  /** Every lookup IsCounted makes is inside the table, and the only day
      examined after fin is the day after the later of debut and fin. */
  lemma LookupDefined(debut: Date, fin: Date, d: Date)
    requires CountingDefined(debut, fin)
    requires ToEpoch(debut) <= ToEpoch(d) < ToEpoch(debut) + Span(debut, fin)
    ensures d == debut && DayOfWeek(d) != SUNDAY ==> HasHolidays(d)
    ensures d != debut && !After(d, fin) && DayOfWeek(d) != SUNDAY ==> HasHolidays(d)
    ensures d != debut && After(d, fin) ==> d == PlusDays(Latest(debut, fin), 1)
    ensures d != debut && After(d, fin) && DayOfWeek(d) == SATURDAY ==> HasHolidays(d)
  {
    var m := Latest(debut, fin);
    EpochOrder(debut, d);
    EpochOrder(d, fin);
    EpochOrder(fin, d);
    EpochOrder(m, fin);
    EpochOrder(d, PlusDays(m, 1));
    if HasHolidays(debut) && HasHolidays(m) {
      if ToEpoch(d) <= ToEpoch(m) {
        TableYearsAreContiguous(debut, m, d);
      } else {
        DayAfterTableDate(m);
      }
    } else {
      // A lone Sunday: the only other day examined is the Monday after it.
      DayOfWeekPlusDays(debut, 1);
    }
  }

  /** jour.minusDays(1).isBefore(fin) is "jour is on or before fin". */
  lemma DayBeforeIsBefore(jour: Date, fin: Date)
    ensures Before(PlusDays(jour, -1), fin) <==> !After(jour, fin)
  {
    EpochOrder(PlusDays(jour, -1), fin);
    EpochOrder(fin, jour);
  }

  /** Where the k-th day from debut, jour, lies against fin: only the
      last two days of the span can be after fin, and those two always are. */
  lemma Examined(debut: Date, fin: Date, k: int, jour: Date)
    requires CountingDefined(debut, fin)
    requires 1 <= k <= Span(debut, fin) && jour == PlusDays(debut, k)
    ensures k < Span(debut, fin) && After(jour, fin) ==> k == Span(debut, fin) - 1
    ensures k >= Span(debut, fin) - 1 ==> After(jour, fin)
  {
    EpochOrder(fin, jour);
    EpochOrder(Latest(debut, fin), fin);
  }

  /** One turn of the counting loop on the k-th day from debut, entered
      because the Java guard held: the day is charged exactly when it is
      neither a Sunday nor a holiday, and it is not among the days already
      charged. */
  lemma LoopStep(debut: Date, fin: Date, k: int, jour: Date)
    requires CountingDefined(debut, fin)
    requires 1 <= k < Span(debut, fin) && jour == PlusDays(debut, k)
    requires !After(jour, fin) || (DayOfWeek(jour) == SATURDAY && HasHolidays(jour) && jour !in JoursFeries(jour))
    ensures DayOfWeek(jour) != SUNDAY ==> HasHolidays(jour)
    ensures CountedAmong(debut, fin, k + 1)
      == CountedAmong(debut, fin, k) + (if DayOfWeek(jour) != SUNDAY && jour !in JoursFeries(jour) then [jour] else [])
    ensures jour !in CountedAmong(debut, fin, k)
  {
    LookupDefined(debut, fin, jour);
    assert jour != debut;
    assert PlusDays(debut, k + 1 - 1) == jour;
  }

  /** The first day examined is charged exactly when it is a Monday to
      Friday that is not a holiday. */
  lemma FirstDay(debut: Date, fin: Date)
    requires CountingDefined(debut, fin)
    ensures DayOfWeek(debut) != SUNDAY ==> HasHolidays(debut)
    ensures CountedAmong(debut, fin, 1)
      == if DayOfWeek(debut) != SUNDAY && debut !in JoursFeries(debut)
            && SalarieAideADomicile.EstHabituellementTravaille(debut) then [debut] else []
  {
    LookupDefined(debut, fin, debut);
    assert PlusDays(debut, 0) == debut;
  }

  /** A day of the span after fin, other than the last, is the one before last. */
  lemma LastOfSpan(debut: Date, fin: Date, k: int, jour: Date)
    requires CountingDefined(debut, fin)
    requires 1 <= k < Span(debut, fin) && jour == PlusDays(debut, k)
    requires After(jour, fin)
    ensures k + 1 == Span(debut, fin)
  {
    Examined(debut, fin, k, jour);
  }

  /** When the Java guard fails on a day jour before the end of the span,
      jour is the last day of the span and is not charged: the days charged
      so far are all the span's. */
  lemma LoopEnd(debut: Date, fin: Date, k: int, jour: Date)
    requires CountingDefined(debut, fin)
    requires 1 <= k < Span(debut, fin) && jour == PlusDays(debut, k)
    requires After(jour, fin)
    requires DayOfWeek(jour) == SATURDAY && HasHolidays(jour) ==> jour in JoursFeries(jour)
    ensures CountedAmong(debut, fin, k) == CountedAmong(debut, fin, Span(debut, fin))
  {
    LookupDefined(debut, fin, jour);
    assert !IsCounted(debut, fin, jour);
    assert PlusDays(debut, k + 1 - 1) == jour;
    LastOfSpan(debut, fin, k, jour);
  }

  /** Stepping one day from the k-th day after d gives the (k+1)-th, and
      the day after a Saturday is a Sunday. */
  lemma NextDay(d: Date, k: int)
    ensures PlusDays(PlusDays(d, k), 1) == PlusDays(d, k + 1)
    ensures DayOfWeek(PlusDays(d, k)) == SATURDAY ==> DayOfWeek(PlusDays(d, k + 1)) == SUNDAY
  {
    var jour, next := PlusDays(d, k), PlusDays(d, k + 1);
    EpochOrder(PlusDays(jour, 1), next);
    DayOfWeekPlusDays(jour, 1);
    if DayOfWeek(jour) == SATURDAY {
      assert DayOfWeek(next) == (6 - 1 + 1) % 7 + 1 == 7;
    }
  }

  /** The state of the counting loop on reaching jour, the k-th day from
      debut: acc holds the days charged among the first k, the Java guard's
      holiday lookup is in the table, and the last day of the span is only
      reached, as a Sunday after fin, once a Saturday was charged. */
  predicate LoopState(debut: Date, fin: Date, k: int, jour: Date, acc: seq<Date>)
  {
    CountingDefined(debut, fin)
    && 1 <= k <= Span(debut, fin)
    && jour == PlusDays(debut, k)
    && acc == CountedAmong(debut, fin, k)
    && (Before(PlusDays(jour, -1), fin) <==> !After(jour, fin))
    && (DayOfWeek(jour) == SATURDAY && After(jour, fin) ==> HasHolidays(jour))
    && (k == Span(debut, fin) ==> DayOfWeek(jour) == SUNDAY && After(jour, fin))
  }

  /** The loop starts on the day after debut with the first day judged. */
  lemma LoopEntry(debut: Date, fin: Date, acc: seq<Date>)
    requires CountingDefined(debut, fin)
    requires acc == CountedAmong(debut, fin, 1)
    ensures LoopState(debut, fin, 1, PlusDays(debut, 1), acc)
  {
    Examined(debut, fin, 1, PlusDays(debut, 1));
    LookupDefined(debut, fin, PlusDays(debut, 1));
    DayBeforeIsBefore(PlusDays(debut, 1), fin);
  }

  /** The guard of the counting loop: the day before jour is before fin,
      or jour is a day off that is workable (a non-holiday Saturday). The
      state of the loop guarantees the holiday lookup is in the table. */
  predicate Continues(fin: Date, jour: Date)
    requires Before(PlusDays(jour, -1), fin) <==> !After(jour, fin)
    requires DayOfWeek(jour) == SATURDAY && After(jour, fin) ==> HasHolidays(jour)
    ensures Continues(fin, jour) <==>
              !After(jour, fin) || (DayOfWeek(jour) == SATURDAY && jour !in JoursFeries(jour))
  {
    Before(PlusDays(jour, -1), fin)
    || (!SalarieAideADomicile.EstHabituellementTravaille(jour) && DayOfWeek(jour) != SUNDAY && jour !in JoursFeries(jour))
  }

  /** A turn of the loop, entered because the guard held (jour is on or
      before fin, or is a non-holiday Saturday): jour is inside the span,
      and adding it to the set when it is neither a Sunday nor a holiday
      gives the state on the next day. */
  lemma LoopAdvance(debut: Date, fin: Date, k: int, jour: Date, acc: DateSet)
    requires LoopState(debut, fin, k, jour, acc)
    requires Continues(fin, jour)
    ensures DayOfWeek(jour) != SUNDAY ==> HasHolidays(jour)
    ensures DayOfWeek(jour) != SUNDAY && jour !in JoursFeries(jour) ==>
              LoopState(debut, fin, k + 1, PlusDays(jour, 1), AddToSet(acc, jour))
    ensures !(DayOfWeek(jour) != SUNDAY && jour !in JoursFeries(jour)) ==>
              LoopState(debut, fin, k + 1, PlusDays(jour, 1), acc)
  {
    LoopStep(debut, fin, k, jour);
    NextDay(debut, k);
    Examined(debut, fin, k, jour);
    Examined(debut, fin, k + 1, PlusDays(jour, 1));
    if k + 1 < Span(debut, fin) {
      LookupDefined(debut, fin, PlusDays(jour, 1));
    }
    DayBeforeIsBefore(PlusDays(jour, 1), fin);
  }

  /** The loop stops on jour, after fin and not a non-holiday Saturday:
      every day of the span has been judged. */
  lemma LoopExit(debut: Date, fin: Date, k: int, jour: Date, acc: seq<Date>)
    requires LoopState(debut, fin, k, jour, acc)
    requires !Continues(fin, jour)
    ensures acc == CountedAmong(debut, fin, Span(debut, fin))
  {
    if k < Span(debut, fin) {
      LoopEnd(debut, fin, k, jour);
    } else {
      assert k == Span(debut, fin);
    }
  }

  // ---------------------------------------------------------------------
  // What the reference rule charges.
  // ---------------------------------------------------------------------

  /** The elements of s that keep retains, in their order in s (a stream
      filtered on keep, then collected). */
  function Filter(s: seq<Date>, keep: Date -> bool): (r: seq<Date>)
    ensures |r| <= |s|
  {
    if s == [] then []
    else Filter(s[..|s| - 1], keep) + (if keep(s[|s| - 1]) then [s[|s| - 1]] else [])
  }

  /** An element survives the filter exactly when it is in s and kept. */
  lemma {:induction false} FilterMembers(s: seq<Date>, keep: Date -> bool)
    ensures forall x :: x in Filter(s, keep) <==> x in s && keep(x)
  {
    if s != [] {
      FilterMembers(s[..|s| - 1], keep);
      assert s == s[..|s| - 1] + [s[|s| - 1]];
    }
  }

  /** Filtering keeps a sequence sorted on key strictly increasing. */
  lemma {:induction false} FilterIncreasing(s: seq<Date>, keep: Date -> bool, key: Date -> int)
    requires Increasing(s, key)
    ensures Increasing(Filter(s, keep), key)
  {
    if s != [] {
      var init, last := s[..|s| - 1], s[|s| - 1];
      FilterIncreasing(init, keep, key);
      FilterMembers(init, keep);
      forall n | 0 <= n < |Filter(init, keep)|
        ensures key(Filter(init, keep)[n]) < key(last)
      {
        assert Filter(init, keep)[n] in Filter(init, keep);
        var i :| 0 <= i < |init| && init[i] == Filter(init, keep)[n];
        assert s[i] == init[i];
      }
      if keep(last) {
        AppendIncreasing(Filter(init, keep), last, key);
      }
    }
  }

  /** A sequence strictly increasing on key. */
  predicate Increasing(s: seq<Date>, key: Date -> int)
  {
    forall i, j :: 0 <= i < j < |s| ==> key(s[i]) < key(s[j])
  }

  /** Appending an element above all others keeps a sequence increasing. */
  lemma AppendIncreasing(s: seq<Date>, x: Date, key: Date -> int)
    requires Increasing(s, key)
    requires forall n :: 0 <= n < |s| ==> key(s[n]) < key(x)
    ensures Increasing(s + [x], key)
  {
  }

  /** The k days from debut on, in order. */
  function Window(debut: Date, k: nat): (r: seq<Date>)
    ensures |r| == k
  {
    seq(k, i => PlusDays(debut, i))
  }

  /** A date is in the window exactly when its day number is among the k
      from debut's. */
  lemma WindowMembers(debut: Date, k: nat)
    ensures forall d :: d in Window(debut, k) <==> ToEpoch(debut) <= ToEpoch(d) < ToEpoch(debut) + k
  {
    forall d
      ensures d in Window(debut, k) <==> ToEpoch(debut) <= ToEpoch(d) < ToEpoch(debut) + k
    {
      if ToEpoch(debut) <= ToEpoch(d) < ToEpoch(debut) + k {
        var i := ToEpoch(d) - ToEpoch(debut);
        EpochOrder(d, PlusDays(debut, i));
        assert Window(debut, k)[i] == d;
      }
    }
  }

  /** The window is in increasing day-number order. */
  lemma WindowIncreasing(debut: Date, k: nat)
    ensures Increasing(Window(debut, k), ToEpoch)
  {
  }

  /** IsCounted as a test on every date, false outside the span. */
  function Charged(debut: Date, fin: Date): Date -> bool
  {
    (d: Date) =>
      CountingDefined(debut, fin) && ToEpoch(debut) <= ToEpoch(d) < ToEpoch(debut) + Span(debut, fin)
      && IsCounted(debut, fin, d)
  }

  /** The days charged among the first k are the window filtered on IsCounted. */
  lemma {:induction false} CountedAmongIsFilter(debut: Date, fin: Date, k: nat)
    requires CountingDefined(debut, fin) && k <= Span(debut, fin)
    ensures CountedAmong(debut, fin, k) == Filter(Window(debut, k), Charged(debut, fin))
  {
    if k > 0 {
      CountedAmongIsFilter(debut, fin, k - 1);
      WindowStep(debut, k - 1);
      FilterAppend(Window(debut, k - 1), PlusDays(debut, k - 1), Charged(debut, fin));
      ChargedAt(debut, fin, k - 1);
    }
  }

  lemma WindowStep(debut: Date, k: nat)
    ensures Window(debut, k + 1) == Window(debut, k) + [PlusDays(debut, k)]
  {
  }

  lemma FilterAppend(s: seq<Date>, x: Date, keep: Date -> bool)
    ensures Filter(s + [x], keep) == Filter(s, keep) + (if keep(x) then [x] else [])
  {
    assert (s + [x])[..|s|] == s;
  }

  lemma ChargedAt(debut: Date, fin: Date, k: nat)
    requires CountingDefined(debut, fin) && k < Span(debut, fin)
    ensures ToEpoch(debut) <= ToEpoch(PlusDays(debut, k)) < ToEpoch(debut) + Span(debut, fin)
    ensures Charged(debut, fin)(PlusDays(debut, k)) == IsCounted(debut, fin, PlusDays(debut, k))
  {
  }

  // ---------------------------------------------------------------------
  // What a leave request is charged.
  // ---------------------------------------------------------------------

  /** The days charged are exactly the days of the span that IsCounted
      charges. */
  lemma CountedDaysMembers(taken: seq<Date>, dateDebut: Date, dateFin: Date, debut: Date)
    requires !After(dateDebut, dateFin)
    requires debut == CountingStart(taken, dateDebut) && CountingDefined(debut, dateFin)
    ensures forall d :: d in CountedDays(taken, dateDebut, dateFin)
              <==> ToEpoch(debut) <= ToEpoch(d) < ToEpoch(debut) + Span(debut, dateFin)
                   && IsCounted(debut, dateFin, d)
  {
    CountedAmongIsFilter(debut, dateFin, Span(debut, dateFin));
    FilterMembers(Window(debut, Span(debut, dateFin)), Charged(debut, dateFin));
    WindowMembers(debut, Span(debut, dateFin));
  }

  /** The days charged come in chronological order, each once. */
  lemma CountedDaysChronological(taken: seq<Date>, dateDebut: Date, dateFin: Date)
    requires !After(dateDebut, dateFin) ==> CountingDefined(CountingStart(taken, dateDebut), dateFin)
    ensures forall i, j :: 0 <= i < j < |CountedDays(taken, dateDebut, dateFin)|
              ==> Before(CountedDays(taken, dateDebut, dateFin)[i], CountedDays(taken, dateDebut, dateFin)[j])
  {
    if !After(dateDebut, dateFin) {
      var debut := CountingStart(taken, dateDebut);
      var span := Span(debut, dateFin);
      CountedAmongIsFilter(debut, dateFin, span);
      WindowIncreasing(debut, span);
      FilterIncreasing(Window(debut, span), Charged(debut, dateFin), ToEpoch);
      var r := CountedDays(taken, dateDebut, dateFin);
      forall i, j | 0 <= i < j < |r|
        ensures Before(r[i], r[j])
      {
        EpochOrder(r[i], r[j]);
      }
    }
  }

  /** The first day counted from is charged exactly when it is a Monday to
      Friday that is not a public holiday. */
  lemma CountedDaysFirstDay(taken: seq<Date>, dateDebut: Date, dateFin: Date, debut: Date)
    requires !After(dateDebut, dateFin)
    requires debut == CountingStart(taken, dateDebut) && CountingDefined(debut, dateFin)
    ensures debut in CountedDays(taken, dateDebut, dateFin)
            <==> MONDAY <= DayOfWeek(debut) <= FRIDAY && debut !in JoursFeries(debut)
  {
    CountedDaysMembers(taken, dateDebut, dateFin, debut);
  }

  /** A later day up to dateFin is charged exactly when it is neither a
      Sunday nor a public holiday. */
  lemma CountedDaysInRange(taken: seq<Date>, dateDebut: Date, dateFin: Date, debut: Date, d: Date)
    requires !After(dateDebut, dateFin)
    requires debut == CountingStart(taken, dateDebut) && CountingDefined(debut, dateFin)
    requires Before(debut, d) && !After(d, dateFin)
    ensures d in CountedDays(taken, dateDebut, dateFin)
            <==> DayOfWeek(d) != SUNDAY && d !in JoursFeries(d)
  {
    CountedDaysMembers(taken, dateDebut, dateFin, debut);
    EpochOrder(debut, d);
    EpochOrder(d, dateFin);
    EpochOrder(Latest(debut, dateFin), dateFin);
  }

  /** A day after dateFin, other than the first day counted from, is
      charged exactly when it is the day after the later of that first day
      and dateFin, a Saturday, and not a public holiday. */
  lemma CountedDaysAfterRange(taken: seq<Date>, dateDebut: Date, dateFin: Date, debut: Date, d: Date)
    requires !After(dateDebut, dateFin)
    requires debut == CountingStart(taken, dateDebut) && CountingDefined(debut, dateFin)
    requires d != debut && After(d, dateFin)
    ensures d in CountedDays(taken, dateDebut, dateFin)
            <==> d == PlusDays(Latest(debut, dateFin), 1) && DayOfWeek(d) == SATURDAY
                 && HasHolidays(d) && d !in JoursFeries(d)
  {
    CountedDaysMembers(taken, dateDebut, dateFin, debut);
    var m := Latest(debut, dateFin);
    EpochOrder(debut, d);
    EpochOrder(d, PlusDays(m, 1));
    EpochOrder(m, d);
    if ToEpoch(debut) <= ToEpoch(d) < ToEpoch(debut) + Span(debut, dateFin) {
      LookupDefined(debut, dateFin, d);
    }
  }

  /** No day before the first day counted from is charged. */
  lemma CountedDaysBeforeStart(taken: seq<Date>, dateDebut: Date, dateFin: Date, debut: Date, d: Date)
    requires !After(dateDebut, dateFin)
    requires debut == CountingStart(taken, dateDebut) && CountingDefined(debut, dateFin)
    requires Before(d, debut)
    ensures d !in CountedDays(taken, dateDebut, dateFin)
  {
    CountedDaysMembers(taken, dateDebut, dateFin, debut);
    EpochOrder(d, debut);
  }

  /** Every day charged lies between dateDebut and two days after dateFin,
      and at most one day after dateFin when no leave was recorded before. */
  lemma CountedDaysBounds(taken: seq<Date>, dateDebut: Date, dateFin: Date, d: Date)
    requires !After(dateDebut, dateFin) ==> CountingDefined(CountingStart(taken, dateDebut), dateFin)
    requires d in CountedDays(taken, dateDebut, dateFin)
    ensures !Before(d, dateDebut) && ToEpoch(d) <= ToEpoch(dateFin) + 2
    ensures taken == [] ==> ToEpoch(d) <= ToEpoch(dateFin) + 1
  {
    var debut := CountingStart(taken, dateDebut);
    CountedDaysMembers(taken, dateDebut, dateFin, debut);
    EpochOrder(d, dateDebut);
    EpochOrder(dateDebut, dateFin);
    EpochOrder(Latest(debut, dateFin), dateFin);
  }

  /** No day charged is a Sunday or a public holiday: every one falls on
      Monday to Saturday and is outside its year's holiday list. */
  lemma ChargedDaysAreWorkable(taken: seq<Date>, dateDebut: Date, dateFin: Date, d: Date)
    requires !After(dateDebut, dateFin) ==> CountingDefined(CountingStart(taken, dateDebut), dateFin)
    requires d in CountedDays(taken, dateDebut, dateFin)
    ensures MONDAY <= DayOfWeek(d) <= SATURDAY
    ensures HasHolidays(d) && d !in JoursFeries(d)
  {
    var debut := CountingStart(taken, dateDebut);
    CountedDaysMembers(taken, dateDebut, dateFin, debut);
    LookupDefined(debut, dateFin, d);
  }

  /** The public holidays of 2022. */
  function Holidays2022List(): (r: seq<Date>)
    ensures |r| == 11
  {
    [LocalDate(2022, 1, 1), LocalDate(2022, 4, 18), LocalDate(2022, 5, 1), LocalDate(2022, 5, 8),
     LocalDate(2022, 5, 27), LocalDate(2022, 6, 6), LocalDate(2022, 7, 14), LocalDate(2022, 8, 15),
     LocalDate(2022, 11, 1), LocalDate(2022, 11, 11), LocalDate(2022, 12, 25)]
  }

  /** The public holidays of 2022, Easter being April 17. */
  lemma Holidays2022(d: Date)
    requires d.year == 2022
    ensures JoursFeries(d) == Holidays2022List()
  {
    var p := Paque(2022);

    assert p == LocalDate(2022, 4, 17);
    EpochOrder(PlusDays(p, 1), LocalDate(2022, 4, 18));
    EpochOrder(PlusDays(p, 40), LocalDate(2022, 5, 27));
    EpochOrder(PlusDays(p, 50), LocalDate(2022, 6, 6));
  }

  /** Adding days without leaving the month only moves the day of the month. */
  lemma PlusDaysInMonth(d: Date, n: nat)
    requires d.day + n <= DaysInMonth(d.year, d.month)
    ensures PlusDays(d, n) == LocalDate(d.year, d.month, d.day + n)
  {
    EpochOrder(PlusDays(d, n), LocalDate(d.year, d.month, d.day + n));
  }

  /** The day of the week of a day of 2022, January 1st being a Saturday. */
  lemma Weekday2022(d: Date)
    requires d.year == 2022
    ensures DayOfWeek(d) == (CommonDaysBeforeMonth(d.month) + d.day + 4) % 7 + 1
  {
    var c := CommonDaysBeforeMonth(d.month) + d.day + 4;
    assert DaysBeforeYear(2022) == 738521;
    assert DaysBeforeMonth(2022, d.month) == CommonDaysBeforeMonth(d.month);
    assert ToEpoch(d) + 3 == 7 * 2713 + c;
    ModSevenShift(2713, c);
  }

  /** The public holidays of 2022 by month and day. */
  predicate HolidayOf2022(month: int, day: int)
  {
    (month == 1 && day == 1) || (month == 4 && day == 18) || (month == 5 && day == 1)
    || (month == 5 && day == 8) || (month == 5 && day == 27) || (month == 6 && day == 6)
    || (month == 7 && day == 14) || (month == 8 && day == 15) || (month == 11 && day == 1)
    || (month == 11 && day == 11) || (month == 12 && day == 25)
  }

  /** A day of 2022 is a holiday exactly when HolidayOf2022 says so. */
  lemma Holiday2022(d: Date)
    requires d.year == 2022
    ensures d in JoursFeries(d) <==> HolidayOf2022(d.month, d.day)
  {
    Holidays2022(d);
    InHolidays2022List(d);
  }

  /** A date of 2022 is in the 2022 list exactly on the days HolidayOf2022 names. */
  lemma InHolidays2022List(d: Date)
    requires d.year == 2022
    ensures d in Holidays2022List() <==> HolidayOf2022(d.month, d.day)
  {
  }

  /** With no leave recorded before, every day charged for a request
      starting on d is d moved by its offset within the span. */
  lemma NoLeaveOffset(d: Date, fin: Date, x: Date)
    requires !After(d, fin) && CountingDefined(d, fin)
    requires x in CountedDays([], d, fin)
    ensures 0 <= ToEpoch(x) - ToEpoch(d) < Span(d, fin)
    ensures x == PlusDays(d, ToEpoch(x) - ToEpoch(d))
  {
    assert CountingStart([], d) == d;
    CountedDaysMembers([], d, fin, d);
    EpochOrder(x, PlusDays(d, ToEpoch(x) - ToEpoch(d)));
  }

  /** With no leave recorded before, a request from d to d + m charges the
      day at offset i, which falls on weekday w: the first day from Monday
      to Friday, the others up to d + m on any day but Sunday, the day after
      on a Saturday, and never a public holiday. */
  lemma NoLeaveAt(d: Date, m: nat, i: int, w: int)
    requires HasHolidays(d) && HasHolidays(PlusDays(d, m))
    requires 0 <= i <= m + 1 && HasHolidays(PlusDays(d, i)) && w == DayOfWeek(PlusDays(d, i))
    ensures PlusDays(d, i) in CountedDays([], d, PlusDays(d, m)) <==>
              PlusDays(d, i) !in JoursFeries(PlusDays(d, i))
              && if i == 0 then w <= FRIDAY else if i <= m then w != SUNDAY else w == SATURDAY
  {
    var fin, x := PlusDays(d, m), PlusDays(d, i);
    EpochOrder(d, fin);
    EpochOrder(d, x);
    EpochOrder(x, fin);
    EpochOrder(PlusDays(fin, 1), x);
    assert CountingStart([], d) == d;
    assert CountingDefined(d, fin);
    if i == 0 {
      CountedDaysFirstDay([], d, fin, d);
    } else if i <= m {
      CountedDaysInRange([], d, fin, d, x);
    } else {
      assert Latest(d, fin) == fin;
      CountedDaysAfterRange([], d, fin, d, x);
    }
  }

  /** x lies in a year of the Easter table and is not a public holiday. */
  predicate NotHolidayOn(x: Date)
  {
    HasHolidays(x) && x !in JoursFeries(x)
  }

  /** No day from offset lo to offset hi after d is a public holiday. */
  predicate NoHolidayBetween(d: Date, lo: int, hi: int)
  {
    forall i {:trigger NotHolidayOn(PlusDays(d, i))} :: lo <= i <= hi ==> NotHolidayOn(PlusDays(d, i))
  }

  /** Moving a date by zero days leaves it unchanged. */
  lemma PlusZero(d: Date)
    ensures PlusDays(d, 0) == d
  {
    EpochOrder(d, PlusDays(d, 0));
  }

  /** A Friday requested alone, no leave recorded before, neither it nor
      the Saturday after it a public holiday: those two days are charged,
      and nothing else. */
  lemma FridayAlone(d: Date)
    requires DayOfWeek(d) == FRIDAY && HasHolidays(d) && d !in JoursFeries(d)
    requires HasHolidays(PlusDays(d, 1)) && PlusDays(d, 1) !in JoursFeries(PlusDays(d, 1))
    ensures forall x :: x in CountedDays([], d, d) <==> x == d || x == PlusDays(d, 1)
  {
    DayOfWeekPlusDays(d, 1);
    LaterInWeek(FRIDAY, 1, DayOfWeek(PlusDays(d, 1)));
    PlusZero(d);
    NoLeaveAt(d, 0, 0, FRIDAY);
    NoLeaveAt(d, 0, 1, SATURDAY);
    forall x | x in CountedDays([], d, d)
      ensures x == d || x == PlusDays(d, 1)
    {
      NoLeaveOffset(d, d, x);
      EpochOrder(x, d);
      EpochOrder(x, PlusDays(d, 1));
    }
  }

  /** Wednesday to Friday with a public holiday on the Thursday, no leave
      recorded before, the other days and the Saturday after not holidays:
      the Wednesday, the Friday and the Saturday are charged, and nothing
      else. */
  lemma HolidayInsideRequest(d: Date)
    requires DayOfWeek(d) == WEDNESDAY && HasHolidays(d) && d !in JoursFeries(d)
    requires HasHolidays(PlusDays(d, 1)) && PlusDays(d, 1) in JoursFeries(PlusDays(d, 1))
    requires HasHolidays(PlusDays(d, 2)) && PlusDays(d, 2) !in JoursFeries(PlusDays(d, 2))
    requires HasHolidays(PlusDays(d, 3)) && PlusDays(d, 3) !in JoursFeries(PlusDays(d, 3))
    ensures forall x :: x in CountedDays([], d, PlusDays(d, 2)) <==>
              x == d || x == PlusDays(d, 2) || x == PlusDays(d, 3)
  {
    FromWednesday(d);
    PlusZero(d);
    EpochOrder(d, PlusDays(d, 2));
    NoLeaveAt(d, 2, 0, WEDNESDAY);
    NoLeaveAt(d, 2, 1, THURSDAY);
    NoLeaveAt(d, 2, 2, FRIDAY);
    NoLeaveAt(d, 2, 3, SATURDAY);
    forall x | x in CountedDays([], d, PlusDays(d, 2))
      ensures x == d || x == PlusDays(d, 2) || x == PlusDays(d, 3)
    {
      NoLeaveOffset(d, PlusDays(d, 2), x);
      EpochOrder(x, d);
      EpochOrder(x, PlusDays(d, 1));
      EpochOrder(x, PlusDays(d, 2));
      EpochOrder(x, PlusDays(d, 3));
    }
  }

  /** The three days after a Wednesday. */
  lemma FromWednesday(d: Date)
    requires DayOfWeek(d) == WEDNESDAY
    ensures DayOfWeek(PlusDays(d, 1)) == THURSDAY && DayOfWeek(PlusDays(d, 2)) == FRIDAY
    ensures DayOfWeek(PlusDays(d, 3)) == SATURDAY
  {
    DayOfWeekPlusDays(d, 1);
    LaterInWeek(WEDNESDAY, 1, DayOfWeek(PlusDays(d, 1)));
    DayOfWeekPlusDays(d, 2);
    LaterInWeek(WEDNESDAY, 2, DayOfWeek(PlusDays(d, 2)));
    DayOfWeekPlusDays(d, 3);
    LaterInWeek(WEDNESDAY, 3, DayOfWeek(PlusDays(d, 3)));
  }

  /** Moving i days forward from weekday w without passing Sunday. */
  lemma LaterInWeek(w: int, i: int, r: int)
    requires 1 <= w && 0 <= i && w + i <= SUNDAY && r == (w - 1 + i) % 7 + 1
    ensures r == w + i
  {
  }

  /** The weekdays of the first fortnight from a Monday. */
  lemma FromMonday(d: Date, i: int)
    requires DayOfWeek(d) == MONDAY && 0 <= i <= 14
    ensures DayOfWeek(PlusDays(d, i)) <= FRIDAY <==> i != 5 && i != 6 && i != 12 && i != 13
    ensures DayOfWeek(PlusDays(d, i)) == SATURDAY <==> i == 5 || i == 12
    ensures DayOfWeek(PlusDays(d, i)) == SUNDAY <==> i == 6 || i == 13
  {
    DayOfWeekPlusDays(d, i);
    MondayOffset(i, DayOfWeek(PlusDays(d, i)));
  }

  /** The weekday i days after a Monday, within a fortnight. */
  lemma MondayOffset(i: int, w: int)
    requires 0 <= i <= 14 && w == (MONDAY - 1 + i) % 7 + 1
    ensures w <= FRIDAY <==> i != 5 && i != 6 && i != 12 && i != 13
    ensures w == SATURDAY <==> i == 5 || i == 12
    ensures w == SUNDAY <==> i == 6 || i == 13
  {
    if i < 7 {
      assert w == i + 1;
    } else if i < 14 {
      ModSevenShift(1, i - 7);
      assert w == i - 6;
    } else {
      ModSevenShift(2, 0);
      assert w == MONDAY;
    }
  }

  /** A request from a Monday d to d + m, m being 5 (a Saturday) or 13 (a
      Sunday), no leave recorded before, none of its days a public holiday:
      x is charged exactly when it is one of those days and not a Sunday. */
  lemma MondayRequestAt(d: Date, m: int, x: Date)
    requires m == 5 || m == 13
    requires DayOfWeek(d) == MONDAY && HasHolidays(d) && NoHolidayBetween(d, 0, m)
    requires HasHolidays(PlusDays(d, m)) && HasHolidays(PlusDays(d, m + 1))
    ensures x in CountedDays([], d, PlusDays(d, m)) <==>
              0 <= ToEpoch(x) - ToEpoch(d) <= m && ToEpoch(x) - ToEpoch(d) != 6
              && ToEpoch(x) - ToEpoch(d) != 13
  {
    var fin := PlusDays(d, m);
    EpochOrder(d, fin);
    assert NotHolidayOn(fin);
    assert Latest(d, fin) == fin;
    assert CountingDefined(d, fin);
    var i := ToEpoch(x) - ToEpoch(d);
    if 0 <= i <= m + 1 {
      var y := PlusDays(d, i);
      FromMonday(d, i);
      assert i <= m ==> NotHolidayOn(y);
      assert HasHolidays(y);
      EpochOrder(x, y);
      NoLeaveAt(d, m, i, DayOfWeek(y));
    } else if x in CountedDays([], d, fin) {
      NoLeaveOffset(d, fin, x);
    }
  }

  /** Monday to Saturday, no leave recorded before, none of the six days a
      public holiday: exactly those six days are charged. */
  lemma MondayToSaturday(d: Date)
    requires DayOfWeek(d) == MONDAY && HasHolidays(d) && NoHolidayBetween(d, 0, 5)
    requires HasHolidays(PlusDays(d, 6))
    ensures forall x :: x in CountedDays([], d, PlusDays(d, 5)) <==>
              ToEpoch(d) <= ToEpoch(x) <= ToEpoch(d) + 5
  {
    assert NotHolidayOn(PlusDays(d, 5));
    forall x
      ensures x in CountedDays([], d, PlusDays(d, 5)) <==> ToEpoch(d) <= ToEpoch(x) <= ToEpoch(d) + 5
    {
      MondayRequestAt(d, 5, x);
    }
  }

  /** Two weeks from a Monday to the second Sunday, no leave recorded
      before, none of the fourteen days a public holiday: the twelve days
      other than the two Sundays are charged, and nothing else. */
  lemma TwoWeeksFromMonday(d: Date)
    requires DayOfWeek(d) == MONDAY && HasHolidays(d) && NoHolidayBetween(d, 0, 13)
    requires HasHolidays(PlusDays(d, 14))
    ensures forall x :: x in CountedDays([], d, PlusDays(d, 13)) <==>
              ToEpoch(d) <= ToEpoch(x) <= ToEpoch(d) + 12 && ToEpoch(x) != ToEpoch(d) + 6
  {
    assert NotHolidayOn(PlusDays(d, 13));
    forall x
      ensures x in CountedDays([], d, PlusDays(d, 13)) <==>
              ToEpoch(d) <= ToEpoch(x) <= ToEpoch(d) + 12 && ToEpoch(x) != ToEpoch(d) + 6
    {
      MondayRequestAt(d, 13, x);
    }
  }

  // ---------------------------------------------------------------------
  // The ten requests of July and August 2022 the parameterized tests check.
  // ---------------------------------------------------------------------

  /** A day of 2022 that HolidayOf2022 does not list is no public holiday. */
  lemma NotHoliday2022(x: Date)
    requires x.year == 2022 && !HolidayOf2022(x.month, x.day)
    ensures HasHolidays(x) && x !in JoursFeries(x)
  {
    Holiday2022(x);
  }

  /** The day of the week of a day of 2022, checked against an expected value. */
  lemma WeekdayIs2022(x: Date, dow: int)
    requires x.year == 2022 && dow == (CommonDaysBeforeMonth(x.month) + x.day + 4) % 7 + 1
    ensures DayOfWeek(x) == dow
  {
    Weekday2022(x);
  }

  /** No day from offset lo to hi after d, all in d's month of 2022, is a
      holiday that HolidayOf2022 lists. */
  lemma NoHolidayIn2022Month(d: Date, lo: nat, hi: nat)
    requires d.year == 2022 && d.day + hi <= DaysInMonth(2022, d.month)
    requires forall day :: d.day + lo <= day <= d.day + hi ==> !HolidayOf2022(d.month, day)
    ensures NoHolidayBetween(d, lo, hi)
  {
    forall i | lo <= i <= hi
      ensures NotHolidayOn(PlusDays(d, i))
    {
      PlusDaysInMonth(d, i);
      NotHoliday2022(PlusDays(d, i));
    }
  }

  /** Friday July 22nd, 2022 requested alone: the 22nd and the 23rd are charged. */
  lemma FridayExample(d22: Date)
    requires d22 == LocalDate(2022, 7, 22)
    ensures PlusDays(d22, 1) == LocalDate(2022, 7, 23)
    ensures forall x :: x in CountedDays([], d22, d22) <==> x == d22 || x == PlusDays(d22, 1)
  {
    PlusDaysInMonth(d22, 1);
    WeekdayIs2022(d22, FRIDAY);
    NotHoliday2022(d22);
    NotHoliday2022(PlusDays(d22, 1));
    FridayAlone(d22);
  }

  /** July 13th to 15th, 2022, around Bastille Day: the 13th, the 15th and
      the 16th are charged. */
  lemma BastilleDayExample(d13: Date)
    requires d13 == LocalDate(2022, 7, 13)
    ensures PlusDays(d13, 2) == LocalDate(2022, 7, 15) && PlusDays(d13, 3) == LocalDate(2022, 7, 16)
    ensures forall x :: x in CountedDays([], d13, PlusDays(d13, 2)) <==>
              x == d13 || x == PlusDays(d13, 2) || x == PlusDays(d13, 3)
  {
    PlusDaysInMonth(d13, 1);
    PlusDaysInMonth(d13, 2);
    PlusDaysInMonth(d13, 3);
    WeekdayIs2022(d13, WEDNESDAY);
    NotHoliday2022(d13);
    Holiday2022(PlusDays(d13, 1));
    NotHoliday2022(PlusDays(d13, 2));
    NotHoliday2022(PlusDays(d13, 3));
    HolidayInsideRequest(d13);
  }

  /** Monday July 4th to Saturday July 9th, 2022: the six days are charged. */
  lemma WeekExample(d4: Date)
    requires d4 == LocalDate(2022, 7, 4)
    ensures PlusDays(d4, 5) == LocalDate(2022, 7, 9)
    ensures forall x :: x in CountedDays([], d4, PlusDays(d4, 5)) <==>
              ToEpoch(d4) <= ToEpoch(x) <= ToEpoch(d4) + 5
  {
    PlusDaysInMonth(d4, 5);
    PlusDaysInMonth(d4, 6);
    WeekdayIs2022(d4, MONDAY);
    NoHolidayIn2022Month(d4, 0, 5);
    MondayToSaturday(d4);
  }

  /** Monday August 1st to Sunday August 14th, 2022: twelve days are
      charged, all but the 7th and the 14th. */
  lemma TwoWeeksExample(d1: Date)
    requires d1 == LocalDate(2022, 8, 1)
    ensures PlusDays(d1, 13) == LocalDate(2022, 8, 14)
    ensures forall x :: x in CountedDays([], d1, PlusDays(d1, 13)) <==>
              ToEpoch(d1) <= ToEpoch(x) <= ToEpoch(d1) + 12 && ToEpoch(x) != ToEpoch(d1) + 6
  {
    PlusDaysInMonth(d1, 13);
    PlusDaysInMonth(d1, 14);
    WeekdayIs2022(d1, MONDAY);
    NoHolidayIn2022Month(d1, 0, 13);
    TwoWeeksFromMonday(d1);
  }

  /** The weekday i days after a Saturday or a Tuesday, within the week. */
  lemma LaterWeekday(d: Date, i: int)
    requires 0 <= i && DayOfWeek(d) + i <= SUNDAY + 1
    ensures DayOfWeek(d) + i <= SUNDAY ==> DayOfWeek(PlusDays(d, i)) == DayOfWeek(d) + i
    ensures DayOfWeek(d) + i == SUNDAY + 1 ==> DayOfWeek(PlusDays(d, i)) == MONDAY
  {
    DayOfWeekPlusDays(d, i);
    if DayOfWeek(d) + i <= SUNDAY {
      LaterInWeek(DayOfWeek(d), i, DayOfWeek(PlusDays(d, i)));
    } else {
      ModSevenShift(1, 0);
    }
  }

  /** A Saturday and the Sunday after it, no leave recorded before: nothing
      is charged, the Monday after included, whatever the holidays. */
  lemma WeekendAlone(d: Date)
    requires DayOfWeek(d) == SATURDAY && HasHolidays(d) && HasHolidays(PlusDays(d, 2))
    ensures forall x :: x !in CountedDays([], d, PlusDays(d, 1))
  {
    var fin := PlusDays(d, 1);
    EpochOrder(d, fin);
    TableYearsAreContiguous(d, PlusDays(d, 2), fin);
    assert CountingDefined(d, fin);
    forall x | x in CountedDays([], d, fin)
      ensures false
    {
      NoLeaveOffset(d, fin, x);
      var i := ToEpoch(x) - ToEpoch(d);
      var y := PlusDays(d, i);
      TableYearsAreContiguous(d, PlusDays(d, 2), y);
      LaterWeekday(d, i);
      NoLeaveAt(d, 1, i, DayOfWeek(y));
    }
  }

  /** The weekdays of the four days from a Saturday. */
  lemma SaturdayOffset(d: Date, i: int)
    requires DayOfWeek(d) == SATURDAY && 0 <= i <= 3
    ensures DayOfWeek(PlusDays(d, i)) == SATURDAY <==> i == 0
    ensures DayOfWeek(PlusDays(d, i)) == SUNDAY <==> i == 1
    ensures DayOfWeek(PlusDays(d, i)) <= FRIDAY <==> i >= 2
  {
    DayOfWeekPlusDays(d, i);
    var w := DayOfWeek(PlusDays(d, i));
    if i == 0 {
      assert w == SATURDAY;
    } else if i == 1 {
      assert w == SUNDAY;
    } else if i == 2 {
      ModSevenShift(1, 0);
      assert w == MONDAY;
    } else {
      ModSevenShift(1, 1);
      assert w == TUESDAY;
    }
  }

  /** A request from a Saturday d to the Monday after, no leave recorded
      before, the Monday not a public holiday: x is charged exactly when it
      is that Monday. */
  lemma SaturdayRequestAt(d: Date, x: Date)
    requires DayOfWeek(d) == SATURDAY && HasHolidays(d) && HasHolidays(PlusDays(d, 3))
    requires PlusDays(d, 2) !in JoursFeries(PlusDays(d, 2))
    ensures x in CountedDays([], d, PlusDays(d, 2)) <==> x == PlusDays(d, 2)
  {
    var fin := PlusDays(d, 2);
    EpochOrder(d, fin);
    TableYearsAreContiguous(d, PlusDays(d, 3), fin);
    assert Latest(d, fin) == fin;
    assert CountingDefined(d, fin);
    if x == fin {
      SaturdayOffset(d, 2);
      NoLeaveAt(d, 2, 2, DayOfWeek(fin));
    } else if x in CountedDays([], d, fin) {
      NoLeaveOffset(d, fin, x);
      var i := ToEpoch(x) - ToEpoch(d);
      TableYearsAreContiguous(d, PlusDays(d, 3), x);
      SaturdayOffset(d, i);
      EpochOrder(x, fin);
      NoLeaveAt(d, 2, i, DayOfWeek(x));
    }
  }

  /** A Saturday to the Monday after, no leave recorded before, the Monday
      not a public holiday: only the Monday is charged. */
  lemma SaturdayToMonday(d: Date)
    requires DayOfWeek(d) == SATURDAY && HasHolidays(d) && HasHolidays(PlusDays(d, 3))
    requires PlusDays(d, 2) !in JoursFeries(PlusDays(d, 2))
    ensures forall x :: x in CountedDays([], d, PlusDays(d, 2)) <==> x == PlusDays(d, 2)
  {
    forall x
      ensures x in CountedDays([], d, PlusDays(d, 2)) <==> x == PlusDays(d, 2)
    {
      SaturdayRequestAt(d, x);
    }
  }

  /** A request from a Tuesday d to the Friday after, no leave recorded
      before, none of those days nor the Saturday after a public holiday: x
      is charged exactly when it is one of those five days. */
  lemma TuesdayRequestAt(d: Date, x: Date)
    requires DayOfWeek(d) == TUESDAY && HasHolidays(d) && NoHolidayBetween(d, 0, 4)
    ensures x in CountedDays([], d, PlusDays(d, 3)) <==> 0 <= ToEpoch(x) - ToEpoch(d) <= 4
  {
    var fin := PlusDays(d, 3);
    EpochOrder(d, fin);
    assert NotHolidayOn(fin);
    assert NotHolidayOn(PlusDays(d, 4));
    assert CountingDefined(d, fin);
    var i := ToEpoch(x) - ToEpoch(d);
    if 0 <= i <= 4 {
      var y := PlusDays(d, i);
      assert NotHolidayOn(y);
      EpochOrder(x, y);
      LaterWeekday(d, i);
      NoLeaveAt(d, 3, i, DayOfWeek(y));
    } else if x in CountedDays([], d, fin) {
      NoLeaveOffset(d, fin, x);
    }
  }

  /** A Tuesday to the Friday after, no leave recorded before, none of those
      days nor the Saturday after a public holiday: the four days and the
      Saturday are charged, and nothing else. */
  lemma TuesdayToFriday(d: Date)
    requires DayOfWeek(d) == TUESDAY && HasHolidays(d) && NoHolidayBetween(d, 0, 4)
    ensures forall x :: x in CountedDays([], d, PlusDays(d, 3)) <==>
              ToEpoch(d) <= ToEpoch(x) <= ToEpoch(d) + 4
  {
    EpochOrder(d, PlusDays(d, 3));
    assert NotHolidayOn(PlusDays(d, 3));
    assert CountingDefined(d, PlusDays(d, 3));
    forall x
      ensures x in CountedDays([], d, PlusDays(d, 3)) <==> ToEpoch(d) <= ToEpoch(x) <= ToEpoch(d) + 4
    {
      TuesdayRequestAt(d, x);
    }
  }

  /** A request from a Monday d to the Sunday after, no leave recorded
      before, the Thursday a public holiday and the other working days not:
      x is charged exactly when it is one of the six days to Saturday other
      than the Thursday. */
  lemma HolidayWeekAt(d: Date, x: Date)
    requires DayOfWeek(d) == MONDAY && HasHolidays(d) && HasHolidays(PlusDays(d, 7))
    requires NoHolidayBetween(d, 0, 2) && NoHolidayBetween(d, 4, 5)
    requires HasHolidays(PlusDays(d, 3)) && PlusDays(d, 3) in JoursFeries(PlusDays(d, 3))
    ensures x in CountedDays([], d, PlusDays(d, 6)) <==>
              0 <= ToEpoch(x) - ToEpoch(d) <= 5 && ToEpoch(x) - ToEpoch(d) != 3
  {
    var fin := PlusDays(d, 6);
    EpochOrder(d, fin);
    TableYearsAreContiguous(d, PlusDays(d, 7), fin);
    assert Latest(d, fin) == fin;
    assert CountingDefined(d, fin);
    var i := ToEpoch(x) - ToEpoch(d);
    if 0 <= i <= 7 {
      var y := PlusDays(d, i);
      TableYearsAreContiguous(d, PlusDays(d, 7), y);
      assert i <= 2 || 4 <= i <= 5 ==> NotHolidayOn(y);
      EpochOrder(x, y);
      FromMonday(d, i);
      NoLeaveAt(d, 6, i, DayOfWeek(y));
    } else if x in CountedDays([], d, fin) {
      NoLeaveOffset(d, fin, x);
    }
  }

  /** A Monday to the Sunday after with a public holiday on the Thursday,
      no leave recorded before, the other working days not holidays: the
      five other days to Saturday are charged, and nothing else. */
  lemma HolidayWeek(d: Date)
    requires DayOfWeek(d) == MONDAY && HasHolidays(d) && HasHolidays(PlusDays(d, 7))
    requires NoHolidayBetween(d, 0, 2) && NoHolidayBetween(d, 4, 5)
    requires HasHolidays(PlusDays(d, 3)) && PlusDays(d, 3) in JoursFeries(PlusDays(d, 3))
    ensures forall x :: x in CountedDays([], d, PlusDays(d, 6)) <==>
              ToEpoch(d) <= ToEpoch(x) <= ToEpoch(d) + 5 && ToEpoch(x) != ToEpoch(d) + 3
  {
    EpochOrder(d, PlusDays(d, 6));
    TableYearsAreContiguous(d, PlusDays(d, 7), PlusDays(d, 6));
    assert CountingDefined(d, PlusDays(d, 6));
    forall x
      ensures x in CountedDays([], d, PlusDays(d, 6)) <==>
              ToEpoch(d) <= ToEpoch(x) <= ToEpoch(d) + 5 && ToEpoch(x) != ToEpoch(d) + 3
    {
      HolidayWeekAt(d, x);
    }
  }

  /** The weekdays of the week from a Thursday. */
  lemma ThursdayOffset(d: Date, i: int)
    requires DayOfWeek(d) == THURSDAY && 0 <= i <= 6
    ensures DayOfWeek(PlusDays(d, i)) <= FRIDAY <==> i != 2 && i != 3
    ensures DayOfWeek(PlusDays(d, i)) == SATURDAY <==> i == 2
    ensures DayOfWeek(PlusDays(d, i)) == SUNDAY <==> i == 3
  {
    DayOfWeekPlusDays(d, i);
    var w := DayOfWeek(PlusDays(d, i));
    if i <= 3 {
      LaterInWeek(THURSDAY, i, w);
    } else {
      ModSevenShift(1, i - 4);
      assert w == i - 3;
    }
  }

  /** A request from a public holiday on a Thursday d to the Tuesday after,
      no leave recorded before, the days after it not holidays: x is charged
      exactly when it is the Friday, the Saturday, the Monday or the
      Tuesday. */
  lemma HolidayStartAt(d: Date, x: Date)
    requires DayOfWeek(d) == THURSDAY && HasHolidays(d) && d in JoursFeries(d)
    requires NoHolidayBetween(d, 1, 5) && HasHolidays(PlusDays(d, 6))
    ensures x in CountedDays([], d, PlusDays(d, 5)) <==>
              1 <= ToEpoch(x) - ToEpoch(d) <= 5 && ToEpoch(x) - ToEpoch(d) != 3
  {
    var fin := PlusDays(d, 5);
    EpochOrder(d, fin);
    assert NotHolidayOn(fin);
    assert Latest(d, fin) == fin;
    assert CountingDefined(d, fin);
    var i := ToEpoch(x) - ToEpoch(d);
    if 0 <= i <= 6 {
      var y := PlusDays(d, i);
      TableYearsAreContiguous(d, PlusDays(d, 6), y);
      assert 1 <= i <= 5 ==> NotHolidayOn(y);
      PlusZero(d);
      EpochOrder(x, y);
      ThursdayOffset(d, i);
      NoLeaveAt(d, 5, i, DayOfWeek(y));
    } else if x in CountedDays([], d, fin) {
      NoLeaveOffset(d, fin, x);
    }
  }

  /** From a public holiday on a Thursday to the Tuesday after, no leave
      recorded before, the days after it not holidays: the Friday, the
      Saturday, the Monday and the Tuesday are charged, and nothing else. */
  lemma HolidayStart(d: Date)
    requires DayOfWeek(d) == THURSDAY && HasHolidays(d) && d in JoursFeries(d)
    requires NoHolidayBetween(d, 1, 5) && HasHolidays(PlusDays(d, 6))
    ensures forall x :: x in CountedDays([], d, PlusDays(d, 5)) <==>
              ToEpoch(d) + 1 <= ToEpoch(x) <= ToEpoch(d) + 5 && ToEpoch(x) != ToEpoch(d) + 3
  {
    EpochOrder(d, PlusDays(d, 5));
    assert NotHolidayOn(PlusDays(d, 5));
    assert CountingDefined(d, PlusDays(d, 5));
    forall x
      ensures x in CountedDays([], d, PlusDays(d, 5)) <==>
              ToEpoch(d) + 1 <= ToEpoch(x) <= ToEpoch(d) + 5 && ToEpoch(x) != ToEpoch(d) + 3
    {
      HolidayStartAt(d, x);
    }
  }

  /** Saturday July 2nd to Sunday July 3rd, 2022: nothing is charged. */
  lemma WeekendExample(d2: Date)
    requires d2 == LocalDate(2022, 7, 2)
    ensures PlusDays(d2, 1) == LocalDate(2022, 7, 3)
    ensures forall x :: x !in CountedDays([], d2, PlusDays(d2, 1))
  {
    PlusDaysInMonth(d2, 1);
    PlusDaysInMonth(d2, 2);
    WeekdayIs2022(d2, SATURDAY);
    WeekendAlone(d2);
  }

  /** Saturday July 23rd to Monday July 25th, 2022: only the Monday is charged. */
  lemma SaturdayToMondayExample(d23: Date)
    requires d23 == LocalDate(2022, 7, 23)
    ensures PlusDays(d23, 2) == LocalDate(2022, 7, 25)
    ensures forall x :: x in CountedDays([], d23, PlusDays(d23, 2)) <==> x == LocalDate(2022, 7, 25)
  {
    PlusDaysInMonth(d23, 2);
    PlusDaysInMonth(d23, 3);
    WeekdayIs2022(d23, SATURDAY);
    NotHoliday2022(PlusDays(d23, 2));
    SaturdayToMonday(d23);
  }

  /** Friday July 15th to Thursday July 14th, 2022, an inverted range: nothing is charged. */
  lemma InvertedRangeExample(d15: Date, d14: Date)
    requires d15 == LocalDate(2022, 7, 15) && d14 == LocalDate(2022, 7, 14)
    ensures CountedDays([], d15, d14) == []
  {
    assert After(d15, d14);
  }

  /** Tuesday July 26th to Friday July 29th, 2022: the four days and the
      Saturday 30th are charged. */
  lemma TuesdayToFridayExample(d26: Date)
    requires d26 == LocalDate(2022, 7, 26)
    ensures PlusDays(d26, 3) == LocalDate(2022, 7, 29) && PlusDays(d26, 4) == LocalDate(2022, 7, 30)
    ensures forall x :: x in CountedDays([], d26, PlusDays(d26, 3)) <==>
              ToEpoch(d26) <= ToEpoch(x) <= ToEpoch(d26) + 4
  {
    PlusDaysInMonth(d26, 3);
    PlusDaysInMonth(d26, 4);
    WeekdayIs2022(d26, TUESDAY);
    NoHolidayIn2022Month(d26, 0, 4);
    TuesdayToFriday(d26);
  }

  /** Monday July 11th to Sunday July 17th, 2022, Bastille Day on the
      Thursday: the 11th, 12th, 13th, 15th and 16th are charged. */
  lemma HolidayWeekExample(d11: Date)
    requires d11 == LocalDate(2022, 7, 11)
    ensures PlusDays(d11, 6) == LocalDate(2022, 7, 17)
    ensures forall x :: x in CountedDays([], d11, PlusDays(d11, 6)) <==>
              ToEpoch(d11) <= ToEpoch(x) <= ToEpoch(d11) + 5 && ToEpoch(x) != ToEpoch(d11) + 3
  {
    PlusDaysInMonth(d11, 3);
    PlusDaysInMonth(d11, 6);
    PlusDaysInMonth(d11, 7);
    WeekdayIs2022(d11, MONDAY);
    NoHolidayIn2022Month(d11, 0, 2);
    NoHolidayIn2022Month(d11, 4, 5);
    Holiday2022(PlusDays(d11, 3));
    HolidayWeek(d11);
  }

  /** Bastille Day 2022 is a public holiday on a Thursday. */
  lemma BastilleDay2022(d14: Date)
    requires d14 == LocalDate(2022, 7, 14)
    ensures PlusDays(d14, 5) == LocalDate(2022, 7, 19) && HasHolidays(PlusDays(d14, 6))
    ensures DayOfWeek(d14) == THURSDAY && HasHolidays(d14) && d14 in JoursFeries(d14)
  {
    PlusDaysInMonth(d14, 5);
    PlusDaysInMonth(d14, 6);
    WeekdayIs2022(d14, THURSDAY);
    Holiday2022(d14);
  }

  /** Bastille Day, Thursday July 14th, to Tuesday July 19th, 2022: the
      15th, 16th, 18th and 19th are charged. */
  lemma HolidayStartExample(d14: Date)
    requires d14 == LocalDate(2022, 7, 14)
    ensures PlusDays(d14, 5) == LocalDate(2022, 7, 19)
    ensures forall x :: x in CountedDays([], d14, PlusDays(d14, 5)) <==>
              ToEpoch(d14) + 1 <= ToEpoch(x) <= ToEpoch(d14) + 5 && ToEpoch(x) != ToEpoch(d14) + 3
  {
    BastilleDay2022(d14);
    NoHolidayIn2022Month(d14, 1, 5);
    HolidayStart(d14);
  }

  /** With Thursday July 21st, 2022 already recorded, a request for that
      Thursday alone starts counting on Friday the 22nd: the Friday and the
      Saturday 23rd are charged, and the requested day is not. */
  lemma RecordedDayRequestExample(d21: Date)
    requires d21 == LocalDate(2022, 7, 21)
    ensures forall x :: x in CountedDays([d21], d21, d21) <==>
              x == LocalDate(2022, 7, 22) || x == LocalDate(2022, 7, 23)
  {
    var d22, d23 := LocalDate(2022, 7, 22), LocalDate(2022, 7, 23);
    PlusDaysInMonth(d21, 1);
    PlusDaysInMonth(d22, 1);
    assert CountingStart([d21], d21) == d22;
    assert Latest(d22, d21) == d22;
    WeekdayIs2022(d22, FRIDAY);
    WeekdayIs2022(d23, SATURDAY);
    NotHoliday2022(d22);
    NotHoliday2022(d23);
    CountedDaysMembers([d21], d21, d21, d22);
    forall x
      ensures x in CountedDays([d21], d21, d21) <==> x == d22 || x == d23
    {
      EpochOrder(x, d22);
      EpochOrder(x, d23);
    }
  }

  class SalarieAideADomicile {

    /** Paid leave earned per month worked; only the monthly closing uses it. */
    static const CongesPayesAcquisParMois: real := 2.5

    /** The days of the week the employee habitually works. */
    static const JoursHabituellementTravailles: seq<int> := [MONDAY, TUESDAY, WEDNESDAY, THURSDAY, FRIDAY]

    var nom: Option<string>
    var moisEnCours: Option<Date>
    var moisDebutContrat: Option<Date>
    var joursTravaillesAnneeN: real
    var congesPayesAcquisAnneeN: real
    /** The leave days taken on the previous year's entitlement, in the order recorded. */
    var congesPayesPris: DateSet
    var joursTravaillesAnneeNMoins1: real
    var congesPayesAcquisAnneeNMoins1: real
    var congesPayesPrisAnneeNMoins1: real

    /** A new employee: no name, no months, every counter 0, no leave taken. */
    constructor ()
      ensures nom.None? && moisEnCours.None? && moisDebutContrat.None?
      ensures joursTravaillesAnneeN == 0.0 && congesPayesAcquisAnneeN == 0.0
      ensures joursTravaillesAnneeNMoins1 == 0.0 && congesPayesAcquisAnneeNMoins1 == 0.0
      ensures congesPayesPrisAnneeNMoins1 == 0.0
      ensures congesPayesPris == []
    {
      nom := None;
      moisEnCours := None;
      moisDebutContrat := None;
      joursTravaillesAnneeN := 0.0;
      congesPayesAcquisAnneeN := 0.0;
      congesPayesPris := [];
      joursTravaillesAnneeNMoins1 := 0.0;
      congesPayesAcquisAnneeNMoins1 := 0.0;
      congesPayesPrisAnneeNMoins1 := 0.0;
    }

    /** An employee with every counter given; no leave day recorded yet. */
    constructor Init(nom: Option<string>, moisDebutContrat: Option<Date>, moisEnCours: Option<Date>,
                     joursTravaillesAnneeN: real, congesPayesAcquisAnneeN: real,
                     joursTravaillesAnneeNMoins1: real, congesPayesAcquisAnneeNMoins1: real,
                     congesPayesPrisAnneeNMoins1: real)
      ensures this.nom == nom && this.moisDebutContrat == moisDebutContrat && this.moisEnCours == moisEnCours
      ensures this.joursTravaillesAnneeN == joursTravaillesAnneeN
      ensures this.congesPayesAcquisAnneeN == congesPayesAcquisAnneeN
      ensures this.joursTravaillesAnneeNMoins1 == joursTravaillesAnneeNMoins1
      ensures this.congesPayesAcquisAnneeNMoins1 == congesPayesAcquisAnneeNMoins1
      ensures this.congesPayesPrisAnneeNMoins1 == congesPayesPrisAnneeNMoins1
      ensures congesPayesPris == []
    {
      this.nom := nom;
      this.moisDebutContrat := moisDebutContrat;
      this.moisEnCours := moisEnCours;
      this.joursTravaillesAnneeNMoins1 := joursTravaillesAnneeNMoins1;
      this.congesPayesAcquisAnneeNMoins1 := congesPayesAcquisAnneeNMoins1;
      this.congesPayesPrisAnneeNMoins1 := congesPayesPrisAnneeNMoins1;
      this.joursTravaillesAnneeN := joursTravaillesAnneeN;
      this.congesPayesAcquisAnneeN := congesPayesAcquisAnneeN;
      congesPayesPris := [];
    }

    /** The first day of the leave year containing d, exactly as the company computes it. */
    static function GetPremierJourAnneeDeConges(d: Option<Date>): (r: Option<Date>)
      ensures r == Entreprise.GetPremierJourAnneeDeConges(d)
    {
      if d.None? then None
      else if d.value.month >= 6 then Some(LocalDate(d.value.year, 6, 1))
      else Some(LocalDate(d.value.year - 1, 6, 1))
    }

    /** Entitled to paid leave: more than ten days worked in the previous year. */
    predicate ALegalementDroitADesCongesPayes()
      reads this
      ensures joursTravaillesAnneeNMoins1 <= 10.0 ==> !ALegalementDroitADesCongesPayes()
      ensures joursTravaillesAnneeNMoins1 > 10.0 ==> ALegalementDroitADesCongesPayes()
    {
      joursTravaillesAnneeNMoins1 > 10.0
    }

    /** What is left of last year's entitlement: acquired minus taken. */
    function GetCongesPayesRestantAnneeNMoins1(): (r: real)
      reads this
      ensures r + congesPayesPrisAnneeNMoins1 == congesPayesAcquisAnneeNMoins1
      ensures r >= 0.0 <==> congesPayesPrisAnneeNMoins1 <= congesPayesAcquisAnneeNMoins1
    {
      congesPayesAcquisAnneeNMoins1 - congesPayesPrisAnneeNMoins1
    }

    /** A day the employee habitually works: exactly Monday to Friday. */
    static function EstHabituellementTravaille(jour: Date): (r: bool)
      ensures r <==> MONDAY <= DayOfWeek(jour) <= FRIDAY
    {
      DayOfWeek(jour) in JoursHabituellementTravailles
    }

    /** A workable day: not a Sunday and not a public holiday. The holiday
        list is only consulted for a day that is not a Sunday. */
    static function EstJourOuvrable(jour: Date): (r: bool)
      requires DayOfWeek(jour) != SUNDAY ==> HasHolidays(jour)
      ensures r <==> DayOfWeek(jour) != SUNDAY && jour !in JoursFeries(jour)
    {
      DayOfWeek(jour) != SUNDAY && !EstJourFerie(jour)
    }

    method SetNom(nom: Option<string>) returns (self: SalarieAideADomicile)
      modifies this`nom
      ensures this.nom == nom && self == this
    {
      this.nom := nom;
      self := this;
    }

    method SetJoursTravaillesAnneeN(v: real)
      modifies this`joursTravaillesAnneeN
      ensures joursTravaillesAnneeN == v
    {
      joursTravaillesAnneeN := v;
    }

    method SetCongesPayesAcquisAnneeN(v: real)
      modifies this`congesPayesAcquisAnneeN
      ensures congesPayesAcquisAnneeN == v
    {
      congesPayesAcquisAnneeN := v;
    }

    method SetCongesPayesPris(v: DateSet)
      modifies this`congesPayesPris
      ensures congesPayesPris == v
    {
      congesPayesPris := v;
    }

    method SetJoursTravaillesAnneeNMoins1(v: real)
      modifies this`joursTravaillesAnneeNMoins1
      ensures joursTravaillesAnneeNMoins1 == v
    {
      joursTravaillesAnneeNMoins1 := v;
    }

    method SetCongesPayesAcquisAnneeNMoins1(v: real)
      modifies this`congesPayesAcquisAnneeNMoins1
      ensures congesPayesAcquisAnneeNMoins1 == v
    {
      congesPayesAcquisAnneeNMoins1 := v;
    }

    method SetCongesPayesPrisAnneeNMoins1(v: real)
      modifies this`congesPayesPrisAnneeNMoins1
      ensures congesPayesPrisAnneeNMoins1 == v
    {
      congesPayesPrisAnneeNMoins1 := v;
    }

    method SetMoisEnCours(v: Option<Date>)
      modifies this`moisEnCours
      ensures moisEnCours == v
    {
      moisEnCours := v;
    }

    method SetMoisDebutContrat(v: Option<Date>)
      modifies this`moisDebutContrat
      ensures moisDebutContrat == v
    {
      moisDebutContrat := v;
    }

    /** The days a leave request from dateDebut to dateFin is charged, in
        date order: the reference rule CountedDays applied to the leave days
        already recorded. */
    method CalculeJoursDeCongeDecomptesPourPlage(dateDebut: Date, dateFin: Date)
      returns (joursDeCongeDecomptes: DateSet)
      requires !After(dateDebut, dateFin) ==> CountingDefined(CountingStart(congesPayesPris, dateDebut), dateFin)
      ensures joursDeCongeDecomptes == CountedDays(congesPayesPris, dateDebut, dateFin)
    {
      joursDeCongeDecomptes := [];
      if After(dateDebut, dateFin) {
        return;
      }
      var debut := dateDebut;
      if |congesPayesPris| > 0 && !After(congesPayesPris[|congesPayesPris| - 1], dateDebut) {
        debut := PlusDays(dateDebut, 1);
      }
      assert debut == CountingStart(congesPayesPris, dateDebut);
      ghost var span := Span(debut, dateFin);

      FirstDay(debut, dateFin);
      if DayOfWeek(debut) != SUNDAY && !EstJourFerie(debut) && EstHabituellementTravaille(debut) {
        joursDeCongeDecomptes := AddToSet(joursDeCongeDecomptes, debut);
      }
      joursDeCongeDecomptes := CountFollowingDays(debut, dateFin, joursDeCongeDecomptes);
    }

    /** The loop of CalculeJoursDeCongeDecomptesPourPlage, from the day after
        debut on: it runs while the day is on or before dateFin, or is a
        Saturday (a day not habitually worked, yet workable), and charges
        every day that is neither a Sunday nor a holiday. Given the first
        day's verdict, it ends with every day of the span judged. */
    static method CountFollowingDays(debut: Date, dateFin: Date, premier: DateSet)
      returns (joursDeCongeDecomptes: DateSet)
      requires CountingDefined(debut, dateFin)
      requires premier == CountedAmong(debut, dateFin, 1)
      ensures joursDeCongeDecomptes == CountedAmong(debut, dateFin, Span(debut, dateFin))
    {
      joursDeCongeDecomptes := premier;
      var jour := PlusDays(debut, 1);
      ghost var k := 1;
      LoopEntry(debut, dateFin, joursDeCongeDecomptes);
      while Before(PlusDays(jour, -1), dateFin) || (!EstHabituellementTravaille(jour) && EstJourOuvrable(jour))
        invariant LoopState(debut, dateFin, k, jour, joursDeCongeDecomptes)
        decreases Span(debut, dateFin) - k
      {
        LoopAdvance(debut, dateFin, k, jour, joursDeCongeDecomptes);
        if DayOfWeek(jour) != SUNDAY && !EstJourFerie(jour) {
          joursDeCongeDecomptes := AddToSet(joursDeCongeDecomptes, jour);
        }
        jour := PlusDays(jour, 1);
        k := k + 1;
      }
      LoopExit(debut, dateFin, k, jour, joursDeCongeDecomptes);
    }
  }

  /** The entitlement test is a strict threshold at ten days worked last
      year: 10 gives no entitlement, 11 does, nor do 0 or a negative count,
      and working more days never loses it. */
  lemma DroitAuxCongesSeuil(s: SalarieAideADomicile, t: SalarieAideADomicile)
    ensures s.joursTravaillesAnneeNMoins1 == 10.0 ==> !s.ALegalementDroitADesCongesPayes()
    ensures s.joursTravaillesAnneeNMoins1 == 11.0 ==> s.ALegalementDroitADesCongesPayes()
    ensures s.joursTravaillesAnneeNMoins1 <= 0.0 ==> !s.ALegalementDroitADesCongesPayes()
    ensures s.ALegalementDroitADesCongesPayes() && s.joursTravaillesAnneeNMoins1 <= t.joursTravaillesAnneeNMoins1 ==>
              t.ALegalementDroitADesCongesPayes()
  {
  }
}
