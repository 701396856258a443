# Day view: time axis, current-time line, scrolling and event text

A model of the pure computations inside the `DayView` component of
react-native-event-calendar (`src/DayView.js`). The component shows one day as a
vertical time axis from hour `start` to hour `end`, 100 pixels per hour, with the
day's events laid over it. The model covers:

- `range(from, to)`, which yields `to` integers starting at `from` (module `Ranges`);
- the label of each hour mark on the 12-hour or 24-hour clock (module `HourLabels`),
  with the decimal text of an integer that the labels use (module `Decimal`);
- the grid of `_renderLines`: the calendar height, the distance between hour marks, and
  where each label, hour line and half-hour line sits (module `Grid`);
- the "now" line, the initial scroll position, and `fetchEventsAndPositions`
  (module `NowLine`). The clock is passed in as an hour and a minute;
- the number of 17-pixel text lines in an event box, which rows it shows, and the default
  title and summary (module `EventText`).

All of these are total functions, so the model has functions and lemmas only. Pixel
positions are exact `real`s.

Some source behaviours are modelled as the code has them:

- `_renderLines` walks `range(start, end + 1)`, which has `end + 1` elements and not
  `end - start + 1`. When `start > 0` the axis therefore runs `start` hours past `end`, and
  those hours take the last branch of the label chain, so hour 25 reads "13 PM".
  `Grid.LinesOvershootEnd` and `HourLabels.PastOneDayText` state this.
- `this.calendarHeight` is computed once, in the constructor (line 46).
  `UNSAFE_componentWillReceiveProps` does not recompute it. So the grid and the
  scroll-to-first offset are the calendar height divided by the current number of hours.
  This is 100 only while the number of hours is unchanged (`Grid.StaleOffset`). The
  functions take the calendar height as a parameter for this reason.
- `Array(to)` throws a RangeError unless `to` is a valid array length, in [0, 2^32).
  `Ranges.Range` and `Grid.Lines` return that error as a value (`Outcome.RangeError`).

## Model

| member | source | states |
|---|---|---|
| `Ranges.Range` | src/DayView.js:12-14 | `range(from, to)` succeeds exactly when `0 <= to < 2^32`, a valid array length; it then has length `to`, not `to - from`, and element `k` is `from + k` |
| `Ranges.RangeMembers` | src/DayView.js:12-14 | an integer is in `range(from, to)` exactly when `from <= x < from + to` |
| `Decimal.Digits` | src/DayView.js:100-106 | the digits of a natural number are non-empty decimal digits, with a leading zero only for 0 itself |
| `Decimal.Show` | src/DayView.js:100-106 | the text `${n}` of an integer is a minus sign exactly for negatives, followed by digits without a leading zero (a lone "0" only for 0) |
| `Decimal.DigitsRoundTrip` | src/DayView.js:100-106 | reading the digits of `n` back gives `n` |
| `Decimal.ShowRoundTrip` | src/DayView.js:100-106 | reading the text of any integer back gives the integer |
| `Decimal.ShowInjective` | src/DayView.js:100-106 | distinct integers have distinct texts |
| `HourLabels.HourLabel` | src/DayView.js:96-107 | the label is blank exactly at the start hour, in both formats; otherwise it is a 12-hour reading exactly when `format24h` is off |
| `HourLabels.TwentyFourHourCases` | src/DayView.js:99-106 | in 24-hour mode any hour but the start reads as itself, except that 24 reads 0 |
| `HourLabels.FormatsAgree` | src/DayView.js:96-107 | for every hour but the start, reading the 12-hour label on a 24-hour clock gives the number the 24-hour label shows |
| `HourLabels.WithinOneDay` | src/DayView.js:96-107 | for hours 1..24 other than the start, the 12-hour label is the conventional reading `i mod 12` (12 for 0), AM exactly when `i mod 24 < 12`, so 12 reads "12 PM" and 24 reads "12 AM"; the 24-hour label is `i mod 24` |
| `HourLabels.ClockNumberOnlyWithinOneDay` | src/DayView.js:99-107 | for hours other than the start, the 12-hour number lies in 1..12 exactly when the hour is in 1..24, so no hour outside one day reads as a clock time |
| `HourLabels.LabelsDistinct` | src/DayView.js:95-107 | on an axis starting at a non-negative hour, distinct hours at or after the start get distinct labels in either format |
| `HourLabels.Text` | src/DayView.js:98-106 | a label renders as the empty text exactly when it is blank |
| `HourLabels.TextInjective` | src/DayView.js:98-106 | distinct labels render as distinct texts, so a label can be read back from its text |
| `HourLabels.PastOneDayText` | src/DayView.js:105-106 | every hour `i > 24` other than the start, which the axis reaches when it overshoots, reads `${i-12} PM` with a number past 12 (hour 25 reads "13 PM") |
| `Grid.CalendarHeight` | src/DayView.js:46 | the calendar height is 100 pixels per hour shown, positive exactly when `end > start` |
| `Grid.Offset` | src/DayView.js:93 | the distance between hour marks is finite exactly when `end != start`, and that distance times the number of hours is the calendar height |
| `Grid.OffsetIsHourHeight` | src/DayView.js:93 | with the calendar height of line 46 for the current props, hour marks are exactly 100 pixels apart |
| `Grid.StaleOffset` | src/DayView.js:46-56 | with the calendar height of the props the component was built with, the marks are 100 pixels apart exactly when the number of hours is unchanged |
| `Grid.Row` | src/DayView.js:95-129 | one row of `_renderLines`: the row of hour `i` carries `i`'s label; it lacks an hour line exactly when its label is blank; its label sits 6 pixels above its mark, its hour line on the mark, its half-hour line half an hour mark below it |
| `Grid.Lines` | src/DayView.js:91-130 | `_renderLines` fails exactly when `end + 1` is not in [0, 2^32); otherwise there are `end + 1` rows; row `k` is hour `start + k` with its label; its label is 6 pixels above `offset*k`; only row 0 has no hour line, and the others have one at `offset*k`; its half-hour line is at `offset*(k+0.5)` |
| `Grid.LinesGeometry` | src/DayView.js:109-128 | with a current calendar height: label at `100k - 6`, hour line at `100k` except in row 0, half-hour line at `100k + 50`, and the lines run strictly downwards |
| `Grid.LinesOvershootEnd` | src/DayView.js:95 | for `0 < start < end`: the first `end - start + 1` rows are the hours `start..end`; the further `start` rows are hours past `end`; the last hour line is at `100*end`, below the calendar height |
| `NowLine.RedLinePosition` | src/DayView.js:16-22 | the now line is 100/60 pixels per minute since `start`; at minute 0 it is at `100*(hour-start)`; for minutes 0..59 it lies in `[100*(hour-start), 100*(hour-start+1))` |
| `NowLine.ClockAtRoundTrip` | src/DayView.js:16-22 | the hour and minute can be recovered from the line's position |
| `NowLine.RedLineMonotone` | src/DayView.js:16-22 | a later time of day puts the line strictly lower |
| `NowLine.RedLineOnGrid` | src/DayView.js:116-127 | on a grid with a current calendar height, the line at h:00 lies on hour h's line and at h:30 on its half-hour line |
| `NowLine.MinOf` | src/DayView.js:28 | `_.min` of a non-empty sequence is one of its elements and is at most every element |
| `NowLine.InitPosition` | src/DayView.js:24-32 | the initial scroll position is never negative. It is `max(0, redLine - 10)` unless there are packed events and `scrollToFirst` is set. In that case it is `max(0, min(tops) - offset)`, where `offset` is `Grid.Offset`'s distance between hour marks |
| `NowLine.FirstEventOneHourBelow` | src/DayView.js:27-31 | when scrolling to the first event with a current calendar height, every event is at least 100 pixels below the view's top, and the highest exactly 100 pixels unless the view is at its top |
| `NowLine.RedLineTenBelow` | src/DayView.js:25-31 | otherwise the view opens with the now line exactly 10 pixels below its top, or at the top when the line is within 10 pixels of it |
| `NowLine.FetchPositions` | src/DayView.js:34-41 | the scroll position is never negative; the clock reading (minutes 0..59) can be read back from the now-line position; without scrolling to the first event the view opens exactly 10 pixels above the now line, and at its top only when the line is within 10 pixels of it; scrolling to the first event with a current calendar height, every event is at least 100 pixels below the view's top, the highest exactly 100 pixels, and the view opens at its top only when that event is within 100 pixels of it; with any calendar height, including a stale one left by a props change, the view opens at `min(tops) - calendarHeight/(end-start)` when that is positive and at its top otherwise |
| `EventText.NumberOfLines` | src/DayView.js:164 | `numberOfLines` is the largest `n` with `17*n <= height` |
| `EventText.OrDefault` | src/DayView.js:187-194 | `attr || fallback` is the attribute when it is a non-empty string and the fallback otherwise, so with a non-empty fallback it is never empty |
| `EventText.DefaultBody` | src/DayView.js:180-196 | the time row shows exactly when the box is at least 34 pixels high. The summary shows exactly when it is at least 51 pixels high, with `numberOfLines - 1` (at least 2) lines. An absent or empty title becomes "Event" and an absent or empty summary becomes " "; otherwise they are passed through |
| `EventText.SummaryOverrunsBox` | src/DayView.js:189-195 | as written, a box showing a summary asks for `numberOfLines + 1` lines, more than its height holds |
| `EventText.FittedBody` | src/DayView.js:189-195 | the corrected body has the same time row, title, summary presence and summary text, and gives the summary `numberOfLines - 2` (at least 1) lines |
| `EventText.FittedBodyFits` | src/DayView.js:180-196 | every box at least one line high holds all lines of its corrected body |

## Left out

- `populateEvents`, the event packer imported from `./Packer` at line 3, is not part of this model. Packed events enter only through their `top` offsets, which `NowLine.InitPosition` takes as a parameter.
- The React component itself: the constructor, `UNSAFE_componentWillReceiveProps`, `componentDidMount`, `setState`, the `setTimeout`/`scrollTo` of `scrollToInitPosition` (including that it skips a scroll position of 0), `render`, and every style and width (`width - 20`). This is UI plumbing and asynchronous scheduling.
- The clock reads `moment().hour()` and `moment().minutes()` are replaced by the `hour` and `minute` parameters.
- The event time row's text, `moment(...).format(...)` at lines 182-183, is a foreign library call; only whether the row appears is modelled.
- The custom `renderEvent` override, the per-event style merges, and tap dispatch (`events[event.index]`, line 172) are callbacks and lookups into caller data.
- `_renderTimeLabels` (lines 133-141) is never called by `render`.
- The unused `width` at line 35 is dead code.
- Floating point: positions are exact reals, and `Math.floor` is the real floor. NaN and Infinity appear only as `Grid.Offset`'s `NotFinite`.
- Grid.Lines: requires `end != start`. With `end == start` the offset is a division by zero: NaN when the calendar height is 0, +Infinity or -Infinity when a stale calendar height is positive or negative. The positions follow from it (row 0's `offset*0` is then NaN, the others NaN or infinite). That is not modelled.
- NowLine.InitPosition: requires `end != start` when it scrolls to the first event. There the source subtracts `calendarHeight / 0`: +Infinity for a positive stale height (result 0), -Infinity for a negative one, left by a component built with `end < start` (result +Infinity), or NaN for a zero height (result NaN).
- NowLine.FetchPositions: has the same requirement as `NowLine.InitPosition`.
- NowLine.MinOf: is over reals only. lodash's handling of NaN and of non-numbers is not modelled.
- EventText.DefaultBody: the title and summary are absent or strings. JavaScript's other falsy values act like absent, and non-string truthy values are not modelled.
- Decimal.Show: writes plain digits for every integer. JavaScript switches to exponent notation from 1e21 on, but hours that large cannot occur: a range that reaches them would need more than 2^32 elements or a start prop of that size.
- The props `start` and `end` are integers. A fractional `end` would make `Array(end + 1)` throw, and that is not modelled.

## Findings

| source | as written | input that shows it | evidently intended | confidence | as-written member | corrected member |
|---|---|---|---|---|---|---|
| src/DayView.js:189-195 | the summary may take `numberOfLines - 1` lines, below a time row and a title row that already take two of the `numberOfLines` lines | a box 51 pixels high: 3 lines fit, and 1 + 1 + 2 = 4 lines (68 pixels) are asked for | the summary takes the `numberOfLines - 2` lines left over | medium, not executed | `EventText.SummaryOverrunsBox` | `EventText.FittedBody` |
