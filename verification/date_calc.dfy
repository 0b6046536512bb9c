/** The calendar-distance calculation: from the current Cosrin date and
    day-chunk to the window of real time in which a target date begins.

    The real clock is not read here: the caller passes the instant "now"
    (in seconds), and the window is returned as instants on that clock.
 */
module DateCalc {
  import opened Cosrin

  /** Target minus current, each field subtracted on its own: a negative day
      difference is not borrowed from the months, nor months from years. */
  datatype Deltas = Deltas(years: int, months: int, days: int)

  function FieldDeltas(cur: Date, target: Date): (d: Deltas)
    ensures Date(cur.day + d.days, cur.month + d.months, cur.year + d.years) == target
  {
    Deltas(target.year - cur.year, target.month - cur.month, target.day - cur.day)
  }

  /** Signed distance in minutes from the start of the current date to the
      start of the target date, ignoring the day-chunk. */
  function Distance(cur: Date, target: Date): (total: int)
    ensures total == MinutesPerDay * (DayOrdinal(target) - DayOrdinal(cur))
    ensures total > 0 ==> total >= MinutesPerDay
  {
    var d := FieldDeltas(cur, target);
    d.years * MinutesPerYear + d.months * MinutesPerMonth + d.days * MinutesPerDay
  }

  /** The distance is always a whole number of Cosrin days. */
  lemma DistanceIsWholeDays(cur: Date, target: Date)
    ensures Distance(cur, target) % MinutesPerDay == 0
  {
  }

  /** On well-formed dates the distance is positive exactly when the target
      comes later in the calendar, and zero exactly when the dates are equal. */
  lemma DistanceSignIsCalendarOrder(cur: Date, target: Date)
    requires WellFormed(cur) && WellFormed(target)
    ensures Distance(cur, target) > 0 <==> Before(cur, target)
    ensures Distance(cur, target) == 0 <==> cur == target
  {
    OrdinalOrderIsCalendarOrder(cur, target);
  }

  /** Minutes from now until the target date begins, when `elapsed` minutes of
      the current day have already gone by: the target day starts at minute
      `DayOrdinal(target) * MinutesPerDay` of the running count, and now is at
      minute `DayOrdinal(cur) * MinutesPerDay + elapsed`. */
  function MinutesUntilTarget(cur: Date, target: Date, elapsed: int): int {
    DayOrdinal(target) * MinutesPerDay - (DayOrdinal(cur) * MinutesPerDay + elapsed)
  }

  /** The chunk is consistent with `elapsed` minutes of the day having gone
      by: one of the chunk's own minutes, or the instant it ends (`low` minutes
      left). The window's earliest bound is computed from `low`, so the window
      takes in that closing instant as well. */
  predicate MayHaveElapsed(chunk: DayChunk, elapsed: int) {
    var left := MinutesPerDay - elapsed;
    chunk.Covers(left) || left == chunk.Low()
  }

  /** Earliest and latest minutes until the target begins, given only that
      the current day is somewhere inside `chunk`. */
  function MinuteWindow(total: int, chunk: DayChunk): (w: (int, int))
    ensures w.1 - w.0 == MinutesPerChunk
    ensures total - MinutesPerDay <= w.0 && w.1 <= total
  {
    (total - MinutesPerDay + chunk.Low(), total - MinutesPerDay + chunk.High())
  }

  /** The minute window holds exactly the arrival times that some moment
      of the chunk would give. */
  lemma MinuteWindowIsArrivalRange(cur: Date, target: Date, chunk: DayChunk, x: int)
    ensures var w := MinuteWindow(Distance(cur, target), chunk);
      w.0 <= x <= w.1
      <==> exists elapsed :: MayHaveElapsed(chunk, elapsed) && MinutesUntilTarget(cur, target, elapsed) == x
  {
    var w := MinuteWindow(Distance(cur, target), chunk);
    if w.0 <= x <= w.1 {
      var elapsed := Distance(cur, target) - x;
      assert MayHaveElapsed(chunk, elapsed);
      assert MinutesUntilTarget(cur, target, elapsed) == x;
    }
  }

  /** What one calculation produces. */
  datatype Outcome =
    | RangeError
      // the target is not after the current date
    | DayError
      // a day field is above 30
    | Success(now: int, earliest: int, latest: int)
      // the target date begins between `earliest` and `latest` (seconds on the clock that read `now`)

  /** The calculation. `chunk` is the submitted day-chunk selector, `now` the
      clock reading in seconds. The range check comes first; only when the
      target is later are the day fields checked, and only from above. */
  function Calculate(cur: Date, chunk: int, target: Date, now: int): (r: Outcome)
    requires 1 <= chunk <= 4
    requires SelectableMonth(cur.month) && SelectableMonth(target.month)
    ensures r.RangeError? <==> Distance(cur, target) <= 0
    ensures r.DayError? <==> Distance(cur, target) > 0 && (cur.day > DaysPerMonth || target.day > DaysPerMonth)
    ensures r.Success? <==> Distance(cur, target) > 0 && cur.day <= DaysPerMonth && target.day <= DaysPerMonth
    ensures r.Success? ==>
      && r.now == now
      && now <= r.earliest <= r.latest
      && r.latest - r.earliest == MinutesPerChunk * SecondsPerMinute
      && r.latest <= now + Distance(cur, target) * SecondsPerMinute
  {
    var total := Distance(cur, target);
    var w := MinuteWindow(total, ChunkOfSelector(chunk));
    if total <= 0 then RangeError
    else if cur.day > DaysPerMonth || target.day > DaysPerMonth then DayError
    else Success(now, now + w.0 * SecondsPerMinute, now + w.1 * SecondsPerMinute)
  }

  /** On success, the instant the target date begins lies in the window
      exactly when the elapsed part of the current day fits the chunk. */
  lemma WindowHoldsArrival(cur: Date, chunk: int, target: Date, now: int, elapsed: int)
    requires 1 <= chunk <= 4
    requires SelectableMonth(cur.month) && SelectableMonth(target.month)
    requires Calculate(cur, chunk, target, now).Success?
    ensures var r := Calculate(cur, chunk, target, now);
      var arrival := now + MinutesUntilTarget(cur, target, elapsed) * SecondsPerMinute;
      r.earliest <= arrival <= r.latest <==> MayHaveElapsed(ChunkOfSelector(chunk), elapsed)
  {
  }

  /** For well-formed dates the outcome is success exactly when the target is
      later in the calendar, and the range error otherwise. */
  lemma SuccessIffLater(cur: Date, chunk: int, target: Date, now: int)
    requires 1 <= chunk <= 4
    requires WellFormed(cur) && WellFormed(target)
    ensures Calculate(cur, chunk, target, now).Success? <==> Before(cur, target)
    ensures Calculate(cur, chunk, target, now).RangeError? <==> !Before(cur, target)
  {
    DistanceSignIsCalendarOrder(cur, target);
  }

  /** The clock only shifts the window: the outcome kind and the offsets
      from now do not depend on when the calculation runs. */
  lemma OffsetsIndependentOfNow(cur: Date, chunk: int, target: Date, now: int, now': int)
    requires 1 <= chunk <= 4
    requires SelectableMonth(cur.month) && SelectableMonth(target.month)
    ensures var r := Calculate(cur, chunk, target, now);
      var r' := Calculate(cur, chunk, target, now');
      && (r.Success? <==> r'.Success?)
      && (!r.Success? ==> r == r')
      && (r.Success? ==> r.earliest - now == r'.earliest - now' && r.latest - now == r'.latest - now')
  {
  }

  /** Worked cases: one month ahead from Night, identical dates, a day of 35
      with a later and with an earlier target, and a day of 0. */
  lemma Examples(now: int)
    ensures Calculate(Date(1, 1, 100), 4, Date(1, 2, 100), now)
      == Success(now, now + 2784 * 60, now + 2808 * 60)
    ensures Calculate(Date(1, 1, 100), 1, Date(1, 1, 100), now) == RangeError
    ensures Calculate(Date(35, 1, 100), 2, Date(1, 1, 101), now) == DayError
    ensures Calculate(Date(35, 1, 100), 2, Date(1, 1, 99), now) == RangeError
    ensures Calculate(Date(0, 1, 100), 4, Date(1, 1, 100), now) == Success(now, now, now + 24 * 60)
  {
  }
}
