# Cosrin date calculator — Dafny model

This project models the calendar-distance calculation of the Cosrin Date
Calculator. The page takes a current in-character ("Cosrin") date with a
day-chunk (Morning, Noon, Evening or Night) and a target Cosrin date. It then
reports the window of real (out-of-character) time in which the target date
will begin.

The Cosrin calendar has 10 months a year and 30 days a month. A day lasts 96
real minutes and is split into four 24-minute day-chunks. One year is
therefore 28800 minutes (20 real days), one month 2880 minutes (2 real days),
and 15 Cosrin days make one real day.

Two modules:

- `Cosrin` (`calendar.dfy`): the constants, the `Date` record, the
  `DayChunk` enumeration with its selector values and `(low, high)` pairs,
  the month names, and a running day count (`DayOrdinal`) used as the
  reference for what a distance means.
- `DateCalc` (`date_calc.dfy`): the field-wise deltas, the distance in
  minutes, the minute window, and `Calculate`. `Calculate` is a pure
  function returning `RangeError`, `DayError` or `Success(now, earliest, latest)`.
  The real clock is the parameter `now`, in seconds.

The calculation works as follows:

- Each field is subtracted on its own, with no borrow or carry.
- The deltas are weighted by 28800, 2880 and 96 minutes.
- The chunk's pair gives the window `total - 96 + low` to `total - 96 + high`.
- A non-positive total is the range error.
- Only after that check, a day field above 30 is the day error.
- Otherwise the window is converted to seconds and added to `now`.

The chunk pairs are "minutes left in the current day": Morning (72, 96),
Noon (48, 72), Evening (24, 48), Night (0, 24). This is how the header comment
of the source reads them (date_calc.php:10-13). It is also the only reading
under which the code's arithmetic gives the time until the target day starts.
Reading them as "minutes elapsed" would put Night first in the day; the model
does not.

The code has no error for an out-of-range selector and none for non-numeric
input. A chunk selector outside 1–4 and a month outside 1–10 are preconditions
here, because the form's option lists supply only those values. Day and year get no check other than "day above 30".
A day of 0 or a negative day is accepted (see `DateCalc.Examples`).

Distances are exact integers. PHP would turn a product too large for its
integer into a float; the model does not represent that. The field-wise
subtraction never goes wrong even though it does not borrow. The weights are
linear, so the total is always 96 times the difference of the two dates' day
counts (`DateCalc.Distance`). On well-formed dates that difference has the sign
of calendar order (`Cosrin.OrdinalOrderIsCalendarOrder`).

## Model

| member | source | states |
|---|---|---|
| `Cosrin.MonthName` | date_calc.php:55-67 | each of the ten selectable months has a non-empty display name from the month table |
| `Cosrin.DayChunk.Name` | date_calc.php:50-53 | the chunk with selector k carries the k-th name of Morning, Noon, Evening, Night, as in the table rows |
| `Cosrin.SelectorOf` | date_calc.php:49-53 | every chunk has a selector value between 1 and 4; slot 0 of the table is unused |
| `Cosrin.ChunkBounds` | date_calc.php:49-53 | every chunk's pair satisfies `0 <= low < high <= 96` and `high - low == 24`, and `low` is a multiple of 24 |
| `Cosrin.ChunkOfSelector` | date_calc.php:49-53 | selector values 1–4 pick a chunk, and that chunk's selector is the value given |
| `Cosrin.SelectorRoundTrip` | date_calc.php:49-53 | picking a chunk by its own selector value gives back that chunk |
| `Cosrin.SelectorOrderIsDayOrder` | date_calc.php:10-13 | a chunk listed later in the selector leaves fewer minutes of the day, and only such a chunk does |
| `Cosrin.ChunkWithMinutesLeft` | date_calc.php:10-13 | for every 0 < left <= 96, the chunk returned is running when `left` minutes of the day remain: Morning from 96 down to 73 left, Noon 72–49, Evening 48–25, Night 24–1 |
| `Cosrin.SomeChunkCovers` | date_calc.php:10-13 | the four chunks cover the whole day, from 96 minutes left (nothing elapsed) down to 1 left: some chunk runs at every minute |
| `Cosrin.NoChunkOutsideTheDay` | date_calc.php:10-13 | no chunk runs at 0 minutes left or fewer, nor at more than 96 |
| `Cosrin.AtMostOneChunkCovers` | date_calc.php:10-13 | the chunks do not overlap: two chunks running at the same minute are the same chunk |
| `Cosrin.OrdinalOrderIsCalendarOrder` | date_calc.php:99-101 | on dates with day 1–30 and month 1–10, the running day count is smaller exactly when the date is earlier (year, then month, then day), and equal exactly when the dates are equal |
| `DateCalc.FieldDeltas` | date_calc.php:77-80 | adding the three deltas back to the current date's fields gives the target date, field by field |
| `DateCalc.Distance` | date_calc.php:82-89 | the weighted sum `28800*dy + 2880*dm + 96*dd` is 96 times the difference of the two dates' day counts, so a positive distance is at least 96 |
| `DateCalc.DistanceIsWholeDays` | date_calc.php:82-89 | the distance is always a multiple of 96 minutes |
| `DateCalc.DistanceSignIsCalendarOrder` | date_calc.php:99-101 | on well-formed dates the distance is positive exactly when the target is later in the calendar, and zero exactly when the dates are equal |
| `DateCalc.MinuteWindow` | date_calc.php:92-95 | the window is exactly 24 minutes wide, starts no earlier than `total - 96` and ends no later than `total` |
| `DateCalc.MinuteWindowIsArrivalRange` | date_calc.php:92-95 | a minute count lies in the window exactly when some elapsed part of the day consistent with the chunk makes it the time until the target day starts |
| `DateCalc.Calculate` | date_calc.php:77-118 | range error exactly when the distance is <= 0, whatever the days hold; day error exactly when the distance is > 0 and a day field is above 30; success exactly when the distance is > 0 and both days are <= 30; on success `now <= earliest <= latest`, the window is 24*60 seconds wide, and `latest <= now + 60*distance` |
| `DateCalc.WindowHoldsArrival` | date_calc.php:108-115 | on success the real instant the target day starts lies between `earliest` and `latest` exactly when the elapsed part of the current day fits the chunk |
| `DateCalc.SuccessIffLater` | date_calc.php:99-106 | for well-formed dates the outcome is success exactly when the target is later in the calendar, and the range error exactly when it is not |
| `DateCalc.OffsetsIndependentOfNow` | date_calc.php:113-115 | the outcome kind, and the offsets of `earliest` and `latest` from `now`, are the same for any clock reading |
| `DateCalc.Examples` | date_calc.php:77-118 | one month ahead from Night gives `now + 2784*60` to `now + 2808*60`; equal dates give the range error; a day of 35 gives the day error for a later target and the range error for an earlier one; a day of 0 is accepted |

## Left out

- Reading and trimming the POST fields (date_calc.php:69-75): this is input handling. PHP's coercion of strings to numbers is not modelled; fields are integers. The source also takes numeric strings that are not whole numbers, such as "1.5" or "1e2"; those give totals that are not a multiple of 96. `DateCalc.DistanceIsWholeDays` and the bound "a positive distance is at least 96" in `DateCalc.Distance` hold only because the model's fields are integers.
- The clock and date formatting (date_calc.php:113-117): `time()` and `date()` are replaced by the parameter `now`, and instants stay integers. The source reads the clock three times: `date()` with no timestamp at line 113 for the "now" shown, then `time()` once per bound at lines 114 and 115. The model uses one reading for all three; `Success.now` stands for the reading at line 113.
- The output heading (date_calc.php:121-124): it prints the range message for both error kinds. The model returns a typed error and no text. The two error strings (date_calc.php:101, 105) are never displayed and are not modelled.
- The HTML result table, the CSS and the form with its selected options (date_calc.php:125-273): presentation only.
- `Cosrin.MonthName`: states only that the name is a non-empty entry of the month table, not which entry. The names are display-only.
- Chunk selectors outside 1–4 and months outside 1–10 are preconditions. The source does not check them. Selector 0 reads the table's sentinel row `(0, 0, null)` (date_calc.php:49), so the window is `total - 96` to `total - 96`: a success with a window of zero width whenever the total is positive and both days are at most 30. A selector above 4 reads an undefined key, whose null counts as 0 in the arithmetic (PHP warns), with the same result. An unknown month only affects the displayed name.
- PHP integer overflow into floating point for very large years is not modelled; arithmetic is unbounded.
