/** The Cosrin calendar: its fixed ratios, dates, day-chunks and month names.

    A Cosrin year has 10 months, a month has 30 days and a day lasts 96
    real (out-of-character) minutes, split into four 24-minute day-chunks.
 */
module Cosrin {

  const MonthsPerYear: int := 10
  const DaysPerMonth: int := 30
  const MinutesPerDay: int := 96
  const MinutesPerChunk: int := 24
  const MinutesPerMonth: int := DaysPerMonth * MinutesPerDay
  const MinutesPerYear: int := MonthsPerYear * MinutesPerMonth
  const SecondsPerMinute: int := 60

  /** A date as typed into the form. The fields are plain integers: nothing
      stops a day of 0 or 35, or a negative year; only `month` comes from a
      fixed list (see `SelectableMonth`). */
  datatype Date = Date(day: int, month: int, year: int)

  /** The month selector offers exactly the months 1 (Awakenings) to 10 (Winter Cloak). */
  predicate SelectableMonth(month: int) {
    1 <= month <= MonthsPerYear
  }

  /** A date whose fields are all inside the calendar's ranges. */
  predicate WellFormed(d: Date) {
    1 <= d.day <= DaysPerMonth && SelectableMonth(d.month)
  }

  /** Display names of the months in calendar order; month `m` is at index `m - 1`. */
  const MonthNames: seq<string> := [
    "Awakenings", "Frost Fall", "First Growth", "Weeping Skies", "Cherrin",
    "Deori's Pleasure", "Longing", "First Harvest", "Hallow Month", "Winter Cloak"
  ]

  function MonthName(month: int): (name: string)
    requires SelectableMonth(month)
    ensures name in MonthNames && |name| > 0
  {
    MonthNames[month - 1]
  }

  /** The position of a date's day on one running count of Cosrin days.
      It weights the fields linearly and does not normalise them, so a day
      field of 35 lands on the same count as day 5 of the next month. */
  function DayOrdinal(d: Date): int {
    d.year * MonthsPerYear * DaysPerMonth + d.month * DaysPerMonth + d.day
  }

  /** Calendar order: `a` comes strictly before `b`, comparing year, then month, then day. */
  predicate Before(a: Date, b: Date) {
    a.year < b.year
    || (a.year == b.year && a.month < b.month)
    || (a.year == b.year && a.month == b.month && a.day < b.day)
  }

  /** On well-formed dates the running day count orders dates exactly as the
      calendar does, and two dates share a count only when they are equal. */
  lemma OrdinalOrderIsCalendarOrder(a: Date, b: Date)
    requires WellFormed(a) && WellFormed(b)
    ensures DayOrdinal(a) < DayOrdinal(b) <==> Before(a, b)
    ensures DayOrdinal(a) == DayOrdinal(b) <==> a == b
  {
  }

  /** The four quarters of a Cosrin day, in the order the selector lists them
      (and the order in which they occur during the day). */
  datatype DayChunk = Morning | Noon | Evening | Night {

    function Low(): int { ChunkBounds(this).0 }

    function High(): int { ChunkBounds(this).1 }

    function Name(): (name: string)
      ensures name == ChunkNames[SelectorOf(this) - 1]
    {
      match this
      case Morning => "Morning"
      case Noon => "Noon"
      case Evening => "Evening"
      case Night => "Night"
    }

    /** The chunk is running when `left` minutes of the day remain. A day
        starts with all 96 minutes left, in Morning, and its last minute has
        1 left, in Night; so `high` is included and `low` belongs to the next
        chunk (at 72 left, 24 minutes have elapsed and it is Noon). */
    predicate Covers(left: int) {
      Low() < left <= High()
    }
  }

  /** Display names of the chunks in selector order; selector `k` is at index `k - 1`. */
  const ChunkNames: seq<string> := ["Morning", "Noon", "Evening", "Night"]

  /** The selector value the form submits for a chunk. */
  function SelectorOf(c: DayChunk): (k: int)
    ensures 1 <= k <= 4
  {
    match c
    case Morning => 1
    case Noon => 2
    case Evening => 3
    case Night => 4
  }

  /** The `(low, high)` pair of a chunk: while the chunk is running, the
      current day has between `low` and `high` minutes left. */
  function ChunkBounds(c: DayChunk): (b: (int, int))
    ensures 0 <= b.0 < b.1 <= MinutesPerDay
    ensures b.1 - b.0 == MinutesPerChunk
    ensures b.0 % MinutesPerChunk == 0
  {
    match c
    case Morning => (72, 96)
    case Noon => (48, 72)
    case Evening => (24, 48)
    case Night => (0, 24)
  }

  /** The chunk a selector value picks; the selector has no value 0, the
      table's unused first slot. */
  function ChunkOfSelector(k: int): (c: DayChunk)
    requires 1 <= k <= 4
    ensures SelectorOf(c) == k
  {
    if k == 1 then Morning
    else if k == 2 then Noon
    else if k == 3 then Evening
    else Night
  }

  lemma SelectorRoundTrip(c: DayChunk)
    ensures ChunkOfSelector(SelectorOf(c)) == c
  {
  }

  /** A chunk listed later in the selector leaves fewer minutes of the day. */
  lemma SelectorOrderIsDayOrder(c: DayChunk, c': DayChunk)
    ensures SelectorOf(c) < SelectorOf(c') <==> c'.High() <= c.Low()
  {
  }

  /** The chunk running when `left` minutes of the day remain. */
  function ChunkWithMinutesLeft(left: int): (c: DayChunk)
    requires 0 < left <= MinutesPerDay
    ensures c.Covers(left)
  {
    if left > 72 then Morning
    else if left > 48 then Noon
    else if left > 24 then Evening
    else Night
  }

  /** The four chunks tile the day: every minute of it lies in some chunk ... */
  lemma SomeChunkCovers(left: int)
    requires 0 < left <= MinutesPerDay
    ensures exists c: DayChunk :: c.Covers(left)
  {
    assert ChunkWithMinutesLeft(left).Covers(left);
  }

  /** ... and in no more than one. */
  lemma AtMostOneChunkCovers(c: DayChunk, c': DayChunk, left: int)
    requires c.Covers(left) && c'.Covers(left)
    ensures c == c'
  {
  }

  /** Outside the day no chunk runs: not at 0 minutes left (that is the next
      day's start) and not beyond 96. */
  lemma NoChunkOutsideTheDay(c: DayChunk, left: int)
    requires left <= 0 || left > MinutesPerDay
    ensures !c.Covers(left)
  {
  }
}
