/** When a periodic digest is due and what window it covers. Times are UTC milliseconds since
    1970-01-01, a Thursday. */
module DigestSchedule {
  import opened Wrappers

  const HOUR_MS: int := 60 * 60 * 1000
  const DAY_MS: int := 24 * HOUR_MS
  const MAX_WINDOW_MS: int := 31 * DAY_MS

  /** A stored cadence; a field that is missing or not an integer is `None`. */
  datatype Cadence = Cadence(weekly: bool, hour: Option<int>, dayOfWeek: Option<int>)

  datatype Schedule = Schedule(weekly: bool, hour: int, dayOfWeek: int)

  predicate Sane(s: Schedule) { 0 <= s.hour <= 23 && 0 <= s.dayOfWeek <= 6 }

  /** Nonsense falls back to 08:00 and Monday. */
  function Normalize(c: Cadence): (s: Schedule)
    ensures Sane(s)
    ensures s.weekly == c.weekly
    ensures c.hour == Some(s.hour) || (s.hour == 8 && (c.hour.Some? ==> !(0 <= c.hour.value <= 23)))
    ensures c.dayOfWeek == Some(s.dayOfWeek)
            || (s.dayOfWeek == 1 && (c.dayOfWeek.Some? ==> !(0 <= c.dayOfWeek.value <= 6)))
  {
    Schedule(
      c.weekly,
      if c.hour.Some? && 0 <= c.hour.value <= 23 then c.hour.value else 8,
      if c.dayOfWeek.Some? && 0 <= c.dayOfWeek.value <= 6 then c.dayOfWeek.value else 1)
  }

  function DayOf(t: int): int { t / DAY_MS }

  /** 0 is Sunday. */
  function Weekday(day: int): int { (day + 4) % 7 }

  /** 1970-01-04 was a Sunday, and each weekday comes back every seven days, and only then. */
  lemma WeekdayIff(day: int, w: int)
    requires 0 <= w <= 6
    ensures Weekday(day) == w <==> exists k :: day == 3 + w + 7 * k
  {
    if Weekday(day) == w {
      assert day == 3 + w + 7 * ((day + 4) / 7 - 1);
    }
  }

  function SlotOn(s: Schedule, day: int): int { day * DAY_MS + s.hour * HOUR_MS }

  /** The instants a schedule names. */
  predicate IsSlot(s: Schedule, t: int) {
    t == SlotOn(s, DayOf(t)) && (s.weekly ==> Weekday(DayOf(t)) == s.dayOfWeek)
  }

  lemma SlotDay(s: Schedule, day: int)
    requires Sane(s)
    ensures DayOf(SlotOn(s, day)) == day
  {
    DivideBack(day, s.hour * HOUR_MS);
  }

  lemma DivideBack(day: int, rest: int)
    requires 0 <= rest < DAY_MS
    ensures (day * DAY_MS + rest) / DAY_MS == day
  {
  }

  /** A slot is the full hour of the schedule on some day, and on its weekday if it is weekly. */
  lemma SlotIff(s: Schedule, t: int)
    requires Sane(s)
    ensures IsSlot(s, t) <==>
            exists day :: t == (24 * day + s.hour) * 3600000
                          && (s.weekly ==> exists k :: day == 3 + s.dayOfWeek + 7 * k)
  {
    WeekdayIff(DayOf(t), s.dayOfWeek);
    if IsSlot(s, t) {
      assert t == (24 * DayOf(t) + s.hour) * 3600000;
    }
    if day :| t == (24 * day + s.hour) * 3600000 && (s.weekly ==> exists k :: day == 3 + s.dayOfWeek + 7 * k) {
      SlotDay(s, day);
      assert t == SlotOn(s, day);
    }
  }

  /** The latest day whose slot has arrived by `t`. */
  function DailyDay(s: Schedule, t: int): int {
    if SlotOn(s, DayOf(t)) <= t then DayOf(t) else DayOf(t) - 1
  }

  /** The most recent scheduled instant at or before `t`. */
  function PreviousOccurrence(s: Schedule, t: int): int {
    var d := DailyDay(s, t);
    SlotOn(s, if s.weekly then d - (Weekday(d) - s.dayOfWeek) % 7 else d)
  }

  lemma DailyDayLatest(s: Schedule, t: int, day: int)
    requires Sane(s)
    ensures SlotOn(s, DailyDay(s, t)) <= t
    ensures SlotOn(s, day) <= t <==> day <= DailyDay(s, t)
  {
    var today := DayOf(t);
    assert today * DAY_MS <= t < (today + 1) * DAY_MS;
    if day <= DailyDay(s, t) {
      assert day * DAY_MS <= DailyDay(s, t) * DAY_MS;
    } else {
      assert (DailyDay(s, t) + 1) * DAY_MS <= day * DAY_MS;
    }
  }

  /** It is a slot of the schedule, it has arrived, no later slot has, and the wait for one is
      never longer than a day or a week. */
  lemma PreviousOccurrenceIsLatest(s: Schedule, t: int)
    requires Sane(s)
    ensures var p := PreviousOccurrence(s, t);
            && IsSlot(s, p) && p <= t
            && t - p < (if s.weekly then 7 * DAY_MS else DAY_MS)
            && forall q :: IsSlot(s, q) && q <= t ==> q <= p
  {
    var d, p := DailyDay(s, t), PreviousOccurrence(s, t);
    var day := if s.weekly then d - (Weekday(d) - s.dayOfWeek) % 7 else d;
    StepBack(d, s.dayOfWeek);
    DailyDayLatest(s, t, day);
    DailyDayLatest(s, t, d + 1);
    SlotDay(s, day);
    hide Weekday, DayOf, DailyDay;
    forall q | IsSlot(s, q) && q <= t ensures q <= p {
      NoLaterSlot(s, t, q);
    }
  }

  /** Stepping back to the wanted weekday takes fewer than seven days and lands on it. */
  lemma StepBack(d: int, dayOfWeek: int)
    requires 0 <= dayOfWeek <= 6
    ensures var back := (Weekday(d) - dayOfWeek) % 7;
            0 <= back < 7 && Weekday(d - back) == dayOfWeek
  {
  }

  lemma NoLaterSlot(s: Schedule, t: int, q: int)
    requires Sane(s) && IsSlot(s, q) && q <= t
    ensures q <= PreviousOccurrence(s, t)
  {
    var d := DailyDay(s, t);
    DailyDayLatest(s, t, DayOf(q));
    if s.weekly {
      SameWeekday(DayOf(q), d, s.dayOfWeek);
    }
  }

  lemma SameWeekday(day: int, d: int, dayOfWeek: int)
    requires day <= d && Weekday(day) == dayOfWeek && 0 <= dayOfWeek <= 6
    ensures day <= d - (Weekday(d) - dayOfWeek) % 7
  {
  }

  /** `previousOccurrence` as the source computes it: today's slot, then up to a week back. The
      fallback after its loop is unreachable. */
  method FindPreviousOccurrence(s: Schedule, t: int) returns (p: int)
    requires Sane(s)
    ensures p == PreviousOccurrence(s, t)
  {
    var todayAtHour := DayOf(t) * DAY_MS + s.hour * HOUR_MS;
    if !s.weekly {
      return if todayAtHour <= t then todayAtHour else todayAtHour - DAY_MS;
    }
    hide Weekday, DayOf;
    ghost var d := DailyDay(s, t);
    ghost var want := d - (Weekday(d) - s.dayOfWeek) % 7;
    StepBack(d, s.dayOfWeek);
    DailyDayLatest(s, t, want);
    var back := 0;
    while back <= 7
      invariant 0 <= back <= 8
      invariant want <= DayOf(t) - back
      decreases 8 - back
    {
      var candidate := todayAtHour - back * DAY_MS;
      assert candidate == SlotOn(s, DayOf(t) - back);
      SlotDay(s, DayOf(t) - back);
      DailyDayLatest(s, t, DayOf(t) - back);
      if candidate <= t && Weekday(DayOf(candidate)) == s.dayOfWeek {
        SameWeekday(DayOf(t) - back, d, s.dayOfWeek);
        return candidate;
      }
      back := back + 1;
    }
    assert false;
    return todayAtHour - 7 * DAY_MS;
  }

  datatype Window = NotDue | Due(from: int, to: int)

  /** `anchor` is the last run, or the creation of the row before its first run. */
  function DigestDue(c: Cadence, anchor: int, now: int): Window {
    if anchor > now || PreviousOccurrence(Normalize(c), now) <= anchor then NotDue
    else if now - anchor > MAX_WINDOW_MS then Due(now - MAX_WINDOW_MS, now)
    else Due(anchor, now)
  }

  function WindowStart(anchor: int, now: int): int {
    if anchor >= now - 31 * 24 * 60 * 60 * 1000 then anchor else now - 31 * 24 * 60 * 60 * 1000
  }

  /** Due exactly when a scheduled instant has arrived since the anchor. The window then ends now,
      is not empty, and starts at the anchor, or 31 days back when the anchor is further back. */
  lemma DueMeansSlotPassed(c: Cadence, anchor: int, now: int)
    ensures var w := DigestDue(c, anchor, now);
            && (w.Due? <==> exists q :: IsSlot(Normalize(c), q) && anchor < q <= now)
            && (w.Due? ==>
                  && w.to == now && anchor <= w.from < w.to
                  && (w.from == anchor <==> now - anchor <= MAX_WINDOW_MS)
                  && w.from == WindowStart(anchor, now))
  {
    var p := PreviousOccurrence(Normalize(c), now);
    PreviousOccurrenceIsLatest(Normalize(c), now);
    if DigestDue(c, anchor, now).Due? {
      assert IsSlot(Normalize(c), p) && anchor < p <= now;
    }
  }

  /** A row without an anchor, or with one that is no date, counts as run one day before the most
      recent scheduled instant. */
  function Anchored(c: Cadence, anchor: Option<int>, now: int): int {
    if anchor.Some? then anchor.value else PreviousOccurrence(Normalize(c), now) - DAY_MS
  }

  /** Such a row is due at once, for a window of a day and what has passed since that instant,
      which is never so long that it is clamped. */
  lemma MissingAnchorIsDue(c: Cadence, now: int)
    ensures var p := PreviousOccurrence(Normalize(c), now);
            && DigestDue(c, Anchored(c, None, now), now) == Due(p - DAY_MS, now)
            && (forall q :: IsSlot(Normalize(c), q) && p - DAY_MS < q <= now ==> q <= p)
            && now - (p - DAY_MS) < 8 * DAY_MS < MAX_WINDOW_MS
  {
    PreviousOccurrenceIsLatest(Normalize(c), now);
  }
}
