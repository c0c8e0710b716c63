/** The date and time converters of a bulk load, on times in a location. An
    instant, like a clock reading, is counted in nanoseconds since the start of
    year 1. */
module TimeConverters {
  import opened Wrappers
  import opened Calendar
  import opened NumberConverters

  const NANOS_PER_MILLI := 1_000_000
  const MINUTE := 60_000_000_000
  const DAY := 86_400_000_000_000

  function Midnight(y: int, m: int, d: int): int
    requires y >= 1 && 1 <= m <= 12
  {
    DayNumber(y, m, d) * DAY
  }

  /** A location: the offset from UTC in force at an instant, and time.Date's
      instant for a clock reading there. */
  datatype Zone = Zone(offset: int -> int, instant: int -> int)

  /** time.FixedZone. */
  function FixedZone(offset: int): Zone {
    Zone(t => offset, clock => clock - offset)
  }

  /** Milliseconds past the minute, as Second()*1000 + Nanosecond()/1e6. */
  function MillisInMinute(t: int): int {
    t % MINUTE / NANOS_PER_MILLI
  }

  /** smalldatetime's rounding, 29.998 seconds down, 29.999 up: the seconds are
      those of the clock where the time is, the minute one of absolute time. */
  function RoundToMinute(t: int, offset: int): int {
    var r := if MillisInMinute(t + offset) >= 29_999 then t + MINUTE else t;
    r - r % MINUTE
  }

  function SmallDateTime(z: Zone, t: int): Result<int, Reason> {
    var r := RoundToMinute(t, z.offset(t));
    if r < z.instant(Midnight(1900, 1, 1)) || r > z.instant(Midnight(2079, 6, 6) + DAY - MINUTE)
    then Err(OutOfRange) else Ok(r)
  }

  datatype Kind = AnyYear | LegacyDateTime

  /** date, datetime2 and datetimeoffset, and datetime: a range of the clock where
      the time is, nothing changed. */
  function DateInRange(k: Kind, t: int, offset: int): Result<int, Reason> {
    var clock := t + offset;
    match k
    case AnyYear => if 0 <= clock < Midnight(10000, 1, 1) then Ok(t) else Err(OutOfRange)
    case LegacyDateTime =>
      // From .9985 on the last day's last second rounds past the type's end.
      if Midnight(1753, 1, 1) <= clock < Midnight(10000, 1, 1) - 1_500_000 then Ok(t) else Err(OutOfRange)
  }

  // ---- the ranges ----

  /** What a clock reads: its fields and the nanoseconds past them. */
  function Reading(c: Civil, nanos: int): int
    requires Valid(c)
  {
    Seconds(c) * 1_000_000_000 + nanos
  }

  lemma ReadingInDay(c: Civil, nanos: int)
    requires Valid(c) && 0 <= nanos < 1_000_000_000
    ensures var day := DayNumber(c.year, c.month, c.day);
            day * DAY <= Reading(c, nanos) < (day + 1) * DAY
  {
  }

  /** A reading is before a year's first midnight exactly when its year is. */
  lemma YearsSplit(c: Civil, nanos: int, y: int)
    requires Valid(c) && 0 <= nanos < 1_000_000_000 && y >= 2
    ensures Reading(c, nanos) < Midnight(y, 1, 1) <==> c.year < y
  {
    var day := DayNumber(c.year, c.month, c.day);
    ReadingInDay(c, nanos);
    MonthsGrow(c.year, c.month, 13);
    if c.month < 12 { MonthsGrow(c.year, c.month, 12); }
    if c.year < y { YearsGrow(c.year, y); } else if c.year > y { YearsGrow(y, c.year); }
  }

  const LAST_SECOND := Civil(9999, 12, 31, 23, 59, 59)

  lemma OnlyOneLastSecond(c: Civil)
    requires Valid(c) && c.year == 9999
    ensures Seconds(c) <= Seconds(LAST_SECOND) && (Seconds(c) == Seconds(LAST_SECOND) <==> c == LAST_SECOND)
  {
    if c.month < 12 || c.day < 31 { DaysFollowDates(c, LAST_SECOND); }
  }

  lemma LastSecondEnds()
    ensures (Seconds(LAST_SECOND) + 1) * 1_000_000_000 == Midnight(10000, 1, 1)
  {
    YearLength(9999);
    assert DaysBeforeMonth(9999, 13) == DaysBeforeMonth(9999, 12) + 31;
  }

  lemma YearsEnd(c: Civil, nanos: int, end: int)
    requires Valid(c) && c.year == 9999 && 0 <= nanos < 1_000_000_000 && end == Midnight(10000, 1, 1)
    ensures Reading(c, nanos) < end - 1_500_000 <==>
            !(c == Civil(9999, 12, 31, 23, 59, 59) && nanos >= 998_500_000)
  {
    LastSecondEnds();
    OnlyOneLastSecond(c);
    var at, last := Seconds(c), Seconds(LAST_SECOND);
    assert end == last * 1_000_000_000 + 1_000_000_000;
    assert at < last ==> at * 1_000_000_000 + nanos < last * 1_000_000_000;
  }

  /** date, datetime2 and datetimeoffset take the clock readings of the years 1 to
      9999, and change none. */
  lemma DatesTaken(c: Civil, nanos: int, t: int, offset: int)
    requires Valid(c) && 0 <= nanos < 1_000_000_000 && t + offset == Reading(c, nanos)
    ensures DateInRange(AnyYear, t, offset) == if 1 <= c.year <= 9999 then Ok(t) else Err(OutOfRange)
  {
    FirstOfJanuary(c.year);
    YearsSplit(c, nanos, 10000);
  }

  /** datetime takes those of 1753 to 9999 but for what would round past its end:
      the last second, from its nanosecond 998,500,000 on. */
  lemma DateTimesTaken(c: Civil, nanos: int, t: int, offset: int)
    requires Valid(c) && 0 <= nanos < 1_000_000_000 && t + offset == Reading(c, nanos)
    ensures DateInRange(LegacyDateTime, t, offset) ==
            if 1753 <= c.year <= 9999 && !(c == Civil(9999, 12, 31, 23, 59, 59) && nanos >= 998_500_000)
            then Ok(t) else Err(OutOfRange)
  {
    YearsSplit(c, nanos, 1753);
    YearsSplit(c, nanos, 10000);
    RangeInDays();
    YearsSplit(c, nanos, 9999);
    FirstOfJanuary(9999);
    if c.year == 9999 { YearsEnd(c, nanos, Midnight(10000, 1, 1)); }
  }

  /** Before year 1 neither takes any. */
  lemma NothingBeforeYearOne(k: Kind, t: int, offset: int)
    requires t + offset < 0
    ensures DateInRange(k, t, offset) == Err(OutOfRange)
  {
    RangeInDays();
  }

  lemma LastMinute()
    ensures Reading(Civil(1900, 1, 1, 0, 0, 0), 0) == Midnight(1900, 1, 1)
    ensures Reading(Civil(2079, 6, 6, 23, 59, 0), 0) == Midnight(2079, 6, 6) + DAY - MINUTE
  {
  }

  /** smalldatetime takes what rounds to a minute from the first of 1900 to the
      last of 6 June 2079, as the location's clock shows them, and sends that
      minute. */
  lemma SmallDateTimesTaken(z: Zone, t: int)
    ensures var r := RoundToMinute(t, z.offset(t));
            var first := z.instant(Reading(Civil(1900, 1, 1, 0, 0, 0), 0));
            var last := z.instant(Reading(Civil(2079, 6, 6, 23, 59, 0), 0));
            SmallDateTime(z, t) == if first <= r <= last then Ok(r) else Err(OutOfRange)
  {
    LastMinute();
  }

  // ---- the rounding ----

  lemma Remainder(q: int, s: int)
    requires 0 <= s < MINUTE
    ensures (q * MINUTE + s) % MINUTE == s && (q * MINUTE + s) / MINUTE == q
    ensures (q * MINUTE) % MINUTE == 0
  {
  }

  /** The clock's seconds are the time's and the offset's together. */
  lemma ClockSeconds(t: int, offset: int)
    ensures var s := t % MINUTE + offset % MINUTE;
            (t + offset) % MINUTE == if s < MINUTE then s else s - MINUTE
  {
    var p, q, s := t / MINUTE, offset / MINUTE, t % MINUTE + offset % MINUTE;
    assert t == p * MINUTE + t % MINUTE && offset == q * MINUTE + offset % MINUTE;
    if s < MINUTE { Remainder(p + q, s); } else { Remainder(p + q + 1, s - MINUTE); }
  }

  lemma RoundsTo(t: int, offset: int)
    ensures RoundToMinute(t, offset) ==
            (t / MINUTE + if MillisInMinute(t + offset) >= 29_999 then 1 else 0) * MINUTE
    ensures RoundToMinute(t, offset) % MINUTE == 0
  {
    var q, s := t / MINUTE, t % MINUTE;
    assert t == q * MINUTE + s;
    Remainder(q, s);
    Remainder(q + 1, s);
  }

  /** Where a time in minute q with s past it goes, under an offset o past the
      minute: up exactly when the clock shows 29.999 seconds or more. */
  lemma RoundsAt(q: int, s: int, offset: int)
    requires 0 <= s < MINUTE
    ensures var o := offset % MINUTE;
            var clock := if s + o < MINUTE then s + o else s + o - MINUTE;
            RoundToMinute(q * MINUTE + s, offset) ==
            (q + if clock / NANOS_PER_MILLI >= 29_999 then 1 else 0) * MINUTE
  {
    Remainder(q, s);
    ClockSeconds(q * MINUTE + s, offset);
    RoundsTo(q * MINUTE + s, offset);
  }

  /** Never further than 30.001 seconds. */
  predicate IsClose(r: int, t: int) {
    -30_001 * NANOS_PER_MILLI <= r - t <= 30_001 * NANOS_PER_MILLI
  }

  lemma WholeMinutesAreClose(t: int, offset: int)
    requires offset % MINUTE == 0
    ensures -29_999 * NANOS_PER_MILLI < RoundToMinute(t, offset) - t <= 30_001 * NANOS_PER_MILLI
  {
    RoundsTo(t, offset);
    ClockSeconds(t, offset);
  }

  /** Where the clock turns a minute inside one of UTC, a time just before the
      turn goes up and one just after it down; and some time goes too far. */
  lemma PartMinutesCross(offset: int) returns (early: int, late: int)
    requires offset % MINUTE != 0
    ensures early < late && RoundToMinute(late, offset) < RoundToMinute(early, offset)
    ensures exists t :: !IsClose(RoundToMinute(t, offset), t)
  {
    var o := offset % MINUTE;
    late, early := MINUTE - o, MINUTE - o - 1;
    RoundsAt(0, late, offset);
    RoundsAt(0, early, offset);
    var up := 29_999 * NANOS_PER_MILLI;
    var t := if o <= up then up - o else 0;
    RoundsAt(0, t, offset);
    assert !IsClose(RoundToMinute(t, offset), t);
  }

  /** Rounding lands within 30.001 seconds of every time exactly where the clock
      keeps the minutes of UTC. */
  lemma RoundingIsCloseIff(offset: int)
    ensures (forall t :: IsClose(RoundToMinute(t, offset), t)) <==> offset % MINUTE == 0
  {
    if offset % MINUTE == 0 {
      forall t ensures IsClose(RoundToMinute(t, offset), t) { WholeMinutesAreClose(t, offset); }
    } else {
      var early, late := PartMinutesCross(offset);
    }
  }

  lemma WholeMinutesAreMonotone(a: int, b: int, offset: int)
    requires a <= b && offset % MINUTE == 0
    ensures RoundToMinute(a, offset) <= RoundToMinute(b, offset)
  {
    RoundsTo(a, offset);
    RoundsTo(b, offset);
    ClockSeconds(a, offset);
    ClockSeconds(b, offset);
    var p, q := a / MINUTE, b / MINUTE;
    assert a == p * MINUTE + a % MINUTE && b == q * MINUTE + b % MINUTE;
    if p >= q {
      assert p == q;
      assert a % MINUTE <= b % MINUTE;
    }
  }

  ghost predicate IsMonotone(offset: int) {
    forall a, b :: a <= b ==> InOrder(a, b, offset)
  }

  predicate InOrder(a: int, b: int, offset: int) {
    RoundToMinute(a, offset) <= RoundToMinute(b, offset)
  }

  /** A later time never rounds to an earlier minute, exactly there too. */
  lemma RoundingIsMonotoneIff(offset: int)
    ensures IsMonotone(offset) <==> offset % MINUTE == 0
  {
    if offset % MINUTE == 0 {
      forall a, b | a <= b ensures InOrder(a, b, offset) { WholeMinutesAreMonotone(a, b, offset); }
    } else {
      var early, late := PartMinutesCross(offset);
      assert !InOrder(early, late, offset);
    }
  }

  /** A rounded time rounds to itself exactly where the clock then shows less
      than 29.999 seconds. */
  lemma RoundsAgainIff(t: int, offset: int, later: int)
    ensures var r := RoundToMinute(t, offset);
            RoundToMinute(r, later) == r <==> MillisInMinute(later) < 29_999
  {
    var r := RoundToMinute(t, offset);
    RoundsTo(t, offset);
    RoundsTo(r, later);
    ClockSeconds(r, later);
    assert r == r / MINUTE * MINUTE;
  }

  /** What is returned, converted again, comes back unchanged exactly where the
      offset then in force is less than 29.999 seconds past a minute. */
  lemma SmallDateTimeAgainIff(z: Zone, t: int)
    requires SmallDateTime(z, t).Ok?
    ensures var r := SmallDateTime(z, t).value;
            SmallDateTime(z, r) == Ok(r) <==> MillisInMinute(z.offset(r)) < 29_999
  {
    RoundsAgainIff(t, z.offset(t), z.offset(SmallDateTime(z, t).value));
  }

  /** What it returns for a time comes back unchanged. */
  predicate ComesBack(z: Zone, t: int) {
    var r := SmallDateTime(z, t);
    r.Ok? ==> SmallDateTime(z, r.value) == r
  }

  /** In a location with one offset every time does, or some time does not. */
  lemma FixedZoneComesBackIff(offset: int)
    ensures (forall t :: ComesBack(FixedZone(offset), t)) <==> MillisInMinute(offset) < 29_999
  {
    var z := FixedZone(offset);
    forall t | SmallDateTime(z, t).Ok?
      ensures ComesBack(z, t) <==> MillisInMinute(offset) < 29_999
    {
      SmallDateTimeAgainIff(z, t);
    }
    var t := EPOCH - offset;
    RoundsTo(t, offset);
    RangeInDays();
    assert SmallDateTime(z, t).Ok?;
    assert ComesBack(z, t) <==> MillisInMinute(offset) < 29_999;
  }

  /** Midnight of 1 January 1970. */
  const EPOCH := 719_162 * DAY

  lemma EpochIsMidnight()
    ensures EPOCH == Midnight(1970, 1, 1)
  {
    FirstOfJanuary(1970);
  }

  /** Times about 1970 are in range wherever they are. */
  lemma InRangeIn1970(t: int, offset: int)
    requires -DAY <= t - EPOCH <= DAY && -DAY <= offset <= DAY
    ensures SmallDateTime(FixedZone(offset), t) == Ok(RoundToMinute(t, offset))
  {
    RoundsTo(t, offset);
    RangeInDays();
  }

  /** 44 minutes 30 seconds behind UTC, as in Monrovia until 1972. */
  const MONROVIA := -2_670 * 1_000 * NANOS_PER_MILLI

  lemma MonroviaRounds(q: int)
    ensures RoundToMinute(q * MINUTE + MINUTE / 2, MONROVIA) == q * MINUTE
    ensures RoundToMinute(q * MINUTE, MONROVIA) == q * MINUTE + MINUTE
  {
    RoundsAt(q, MINUTE / 2, MONROVIA);
    RoundsAt(q, 0, MONROVIA);
  }

  lemma MonroviaMidnight(day: int)
    ensures var t := day * DAY - MONROVIA;
            && RoundToMinute(t, MONROVIA) == t - MINUTE / 2
            && RoundToMinute(t - MINUTE / 2, MONROVIA) == t + MINUTE / 2
            && RoundToMinute(t + MINUTE / 2, MONROVIA) == t + MINUTE + MINUTE / 2
  {
    var t, q := day * DAY - MONROVIA, day * 1440 + 44;
    assert t == q * MINUTE + MINUTE / 2;
    MonroviaRounds(q);
    MonroviaRounds(q + 1);
  }

  /** Midnight of 1 January 1970 there goes half a minute back, and then a minute
      on each time. */
  lemma MonroviaDrifts()
    ensures EPOCH == Midnight(1970, 1, 1)
    ensures var z, t := FixedZone(MONROVIA), EPOCH - MONROVIA;
            && SmallDateTime(z, t) == Ok(t - MINUTE / 2)
            && SmallDateTime(z, t - MINUTE / 2) == Ok(t + MINUTE / 2)
            && SmallDateTime(z, t + MINUTE / 2) == Ok(t + MINUTE + MINUTE / 2)
  {
    var t := EPOCH - MONROVIA;
    EpochIsMidnight();
    MonroviaMidnight(719_162);
    InRangeIn1970(t, MONROVIA);
    InRangeIn1970(t - MINUTE / 2, MONROVIA);
    InRangeIn1970(t + MINUTE / 2, MONROVIA);
  }

  lemma FirstOfJanuary(y: int)
    requires y >= 1
    ensures DayNumber(y, 1, 1) == 365 * (y - 1) + (y - 1) / 4 - (y - 1) / 100 + (y - 1) / 400
  {
    DaysBeforeYearIs(y);
  }

  /** The types' ranges, in days since the start of year 1. */
  lemma RangeInDays()
    ensures DayNumber(1753, 1, 1) == 639_905
    ensures DayNumber(1900, 1, 1) == 693_595
    ensures DayNumber(2079, 6, 6) == 759_130
    ensures DayNumber(10000, 1, 1) == 3_652_059
  {
    FirstOfJanuary(1753);
    FirstOfJanuary(1900);
    FirstOfJanuary(2079);
    FirstOfJanuary(10000);
    SixthOfJune(2079);
  }

  lemma SixthOfJune(y: int)
    requires y >= 1 && !IsLeap(y)
    ensures DaysBeforeMonth(y, 6) == 151
  {
    assert DaysBeforeMonth(y, 4) == 31 + 28 + 31;
  }
}
