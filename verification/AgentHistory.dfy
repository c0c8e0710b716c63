/**
 msdb's date and time integers, and the bounds a history search compares them
 with.
 */
module AgentHistory {
  import opened Wrappers
  import opened Calendar

  /** YYYYMMDD and HHMMSS. */
  datatype Stamp = Stamp(date: int, clock: int)

  /** sqlAgentDateTime: UTC fields as integers. */
  function ToStamp(c: Civil): Stamp {
    Stamp(c.year * 10000 + c.month * 100 + c.day, c.hour * 10000 + c.minute * 100 + c.second)
  }

  /** parseSQLAgentDate's fields. Go divides toward zero, as here for the
      non-negative columns. */
  function FromStamp(s: Stamp): Civil {
    Civil(s.date / 10000, s.date % 10000 / 100, s.date % 100,
          s.clock / 10000, s.clock % 10000 / 100, s.clock % 100)
  }

  /** Every valid instant comes back from its integers. */
  lemma StampRoundTrip(c: Civil)
    requires Valid(c)
    ensures FromStamp(ToStamp(c)) == c
  {
    Fields(c.year, c.month, c.day);
    Fields(c.hour, c.minute, c.second);
  }

  lemma Fields(a: int, b: int, c: int)
    requires a >= 0 && 0 <= b < 100 && 0 <= c < 100
    ensures var n := a * 10000 + b * 100 + c; n / 10000 == a && n % 10000 / 100 == b && n % 100 == c
  {
    var n := a * 10000 + b * 100 + c;
    assert n % 10000 == b * 100 + c;
    assert n == (a * 100 + b) * 100 + c;
  }

  /** Integers that decode to a valid instant are that instant's integers. */
  lemma StampOfInstant(s: Stamp)
    requires s.date >= 0 && s.clock >= 0
    ensures ToStamp(FromStamp(s)) == s
  {
  }

  /** The digits of the date are the year's and two each of the month and the day;
      those of the clock two each of the hour, the minute and the second. */
  lemma StampDigits(c: Civil, s: Stamp)
    requires Valid(c) && s == ToStamp(c)
    ensures s.date % 100 == c.day && s.date / 100 % 100 == c.month && s.date / 100 / 100 == c.year
    ensures s.clock % 100 == c.second && s.clock / 100 % 100 == c.minute && s.clock / 100 / 100 == c.hour
  {
    assert s.date == (c.year * 100 + c.month) * 100 + c.day;
    assert s.clock == (c.hour * 100 + c.minute) * 100 + c.second;
  }

  /** The order of the comparisons in the WHERE clause. */
  predicate AtOrBefore(a: Stamp, b: Stamp) {
    a.date < b.date || (a.date == b.date && a.clock <= b.clock)
  }

  /** The integers are ordered exactly as the instants they stand for. */
  lemma StampsFollowTime(a: Civil, b: Civil)
    requires Valid(a) && Valid(b)
    ensures AtOrBefore(ToStamp(a), ToStamp(b)) <==> Seconds(a) <= Seconds(b)
  {
    var x, y := ToStamp(a), ToStamp(b);
    if x.date < y.date {
      DaysFollowDates(a, b);
    } else if y.date < x.date {
      DaysFollowDates(b, a);
    } else {
      StampRoundTrip(a);
      StampRoundTrip(b);
      ClocksFollowTime(a, b);
    }
  }

  lemma ClocksFollowTime(a: Civil, b: Civil)
    requires Valid(a) && Valid(b)
    ensures ToStamp(a).clock <= ToStamp(b).clock <==>
              a.hour * 3600 + a.minute * 60 + a.second <= b.hour * 3600 + b.minute * 60 + b.second
  {
    Lexicographic(a.hour, a.minute * 100 + a.second, b.hour, b.minute * 100 + b.second, 10000);
    Lexicographic(a.minute, a.second, b.minute, b.second, 100);
    Lexicographic(a.hour, a.minute * 60 + a.second, b.hour, b.minute * 60 + b.second, 3600);
    Lexicographic(a.minute, a.second, b.minute, b.second, 60);
  }

  /** A number in two digits of a base compares digit by digit. */
  lemma Lexicographic(a: int, x: int, b: int, y: int, base: int)
    requires 0 <= x < base && 0 <= y < base
    ensures a * base + x <= b * base + y <==> a < b || (a == b && x <= y)
  {
    if a < b {
      assert (a + 1) * base <= b * base;
    } else if b < a {
      assert (b + 1) * base <= a * base;
    }
  }

  // ---- a search's bounds ----

  /** A time as a caller gives it: UTC fields and the nanoseconds past them. */
  datatype Time = Time(at: Civil, nanos: int)

  predicate ValidTime(t: Time) {
    Valid(t.at) && 0 <= t.nanos < 1_000_000_000
  }

  const ZERO_TIME := Time(Civil(1, 1, 1, 0, 0, 0), 0)

  datatype Filter = Filter(since: Time, until: Time)

  /** The conditions SearchJobHistory writes; a zero bound is left out. */
  predicate Keeps(f: Filter, run: Stamp) {
    && (f.since != ZERO_TIME ==> AtOrBefore(ToStamp(f.since.at), run))
    && (f.until != ZERO_TIME ==> AtOrBefore(run, ToStamp(f.until.at)))
  }

  /** run started at or after t, nanoseconds counted. */
  predicate StartedAtOrAfter(run: Civil, t: Time)
    requires Valid(run) && ValidTime(t)
  {
    Seconds(run) > Seconds(t.at) || (Seconds(run) == Seconds(t.at) && t.nanos == 0)
  }

  predicate StartedAtOrBefore(run: Civil, t: Time)
    requires Valid(run) && ValidTime(t)
  {
    Seconds(run) <= Seconds(t.at)
  }

  /** What the filter promises of one run. */
  predicate Wanted(f: Filter, run: Civil)
    requires Valid(run) && ValidTime(f.since) && ValidTime(f.until)
  {
    && (f.since != ZERO_TIME ==> StartedAtOrAfter(run, f.since))
    && (f.until != ZERO_TIME ==> StartedAtOrBefore(run, f.until))
  }

  lemma KeepsMeans(f: Filter, run: Civil)
    requires Valid(run) && ValidTime(f.since) && ValidTime(f.until)
    ensures Keeps(f, ToStamp(run)) <==>
              (f.since != ZERO_TIME ==> Seconds(f.since.at) <= Seconds(run))
              && (f.until != ZERO_TIME ==> Seconds(run) <= Seconds(f.until.at))
  {
    StampsFollowTime(f.since.at, run);
    StampsFollowTime(run, f.until.at);
  }

  predicate IsUnset(t: Time) {
    t == Time(Civil(1, 1, 1, 0, 0, 0), 0)
  }

  /** A bound left at the zero time keeps every run; any other keeps a run exactly if
      it started in the bound's second, or on the bound's side of it. */
  lemma BoundsCutIffSet(since: Time, until: Time, run: Civil)
    requires Valid(run) && ValidTime(since) && ValidTime(until)
    ensures IsUnset(since) && IsUnset(until) ==> Keeps(Filter(since, until), ToStamp(run))
    ensures IsUnset(until) && !IsUnset(since) ==>
              (Keeps(Filter(since, until), ToStamp(run)) <==> Seconds(since.at) <= Seconds(run))
    ensures IsUnset(since) && !IsUnset(until) ==>
              (Keeps(Filter(since, until), ToStamp(run)) <==> Seconds(run) <= Seconds(until.at))
  {
    KeepsMeans(Filter(since, until), run);
  }

  /** With a whole-second Since, exactly the runs between the bounds are kept,
      both bounds included, whatever part of a second Until has. */
  lemma WholeSecondsAreExact(f: Filter, run: Civil)
    requires Valid(run) && ValidTime(f.since) && ValidTime(f.until) && f.since.nanos == 0
    ensures Keeps(f, ToStamp(run)) <==> Wanted(f, run)
  {
    KeepsMeans(f, run);
  }

  /** A Since with a part of a second also keeps the run that started in that
      second, before it: the filter is exact for every run only if Since has
      none. */
  lemma ExactIffWholeSince(f: Filter)
    requires ValidTime(f.since) && ValidTime(f.until)
    requires f.until == ZERO_TIME || Seconds(f.since.at) <= Seconds(f.until.at)
    ensures (forall run: Civil :: Valid(run) ==> (Keeps(f, ToStamp(run)) <==> Wanted(f, run))) <==> f.since.nanos == 0
  {
    if f.since.nanos == 0 {
      forall run: Civil | Valid(run) ensures Keeps(f, ToStamp(run)) <==> Wanted(f, run) {
        WholeSecondsAreExact(f, run);
      }
    } else {
      KeepsMeans(f, f.since.at);
      assert Keeps(f, ToStamp(f.since.at)) && !Wanted(f, f.since.at);
    }
  }

  /** A search since half a second past noon keeps the run recorded at noon. */
  lemma FractionKeepsEarlier()
    ensures var noon := Civil(2024, 1, 1, 12, 0, 0);
            var f := Filter(Time(noon, 500_000_000), ZERO_TIME);
            && Valid(noon) && ValidTime(f.since) && ValidTime(f.until)
            && Keeps(f, ToStamp(noon)) && !Wanted(f, noon)
  {
    var noon := Civil(2024, 1, 1, 12, 0, 0);
    KeepsMeans(Filter(Time(noon, 500_000_000), ZERO_TIME), noon);
  }
}
