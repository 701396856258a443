/**
 * The grid of the time axis drawn by `_renderLines` (src/DayView.js): one row per
 * element of `range(start, end + 1)`, each with a label, a full-hour line (except
 * at the start hour) and a half-hour line, spaced `calendarHeight / (end - start)`
 * pixels apart.
 */
module Grid {
  import opened Ranges
  import opened HourLabels

  /** Pixels per hour of the time axis. */
  const HourHeight: int := 100

  /** `this.calendarHeight`: the component computes it once, in its constructor, from the props it is built with. */
  function CalendarHeight(start: int, end: int): (h: int)
    ensures h == HourHeight * (end - start)
    ensures h > 0 <==> end > start
  {
    (end - start) * HourHeight
  }

  /** A JavaScript quotient: a finite number, or NaN / an infinity when the divisor is zero. */
  datatype Quotient = Finite(value: real) | NotFinite

  /** `calendarHeight / (end - start)`, the pixel distance between two hour marks. */
  function Offset(calendarHeight: real, start: int, end: int): (q: Quotient)
    ensures q.Finite? <==> end != start
    ensures q.Finite? ==> q.value * (end - start) as real == calendarHeight
  {
    if end == start then NotFinite else Finite(calendarHeight / (end - start) as real)
  }

  /** With a calendar height computed from the current props, hour marks are HourHeight pixels apart. */
  lemma OffsetIsHourHeight(start: int, end: int)
    requires end != start
    ensures Offset(CalendarHeight(start, end) as real, start, end) == Finite(HourHeight as real)
  {
    var d := (end - start) as real;
    assert (100.0 * d) / d == 100.0;
  }

  /**
   * The calendar height is not recomputed when the props change, so the marks are
   * HourHeight pixels apart exactly when the number of hours shown is still the one
   * the component was built with.
   */
  lemma StaleOffset(start0: int, end0: int, start: int, end: int)
    requires end != start
    ensures Offset(CalendarHeight(start0, end0) as real, start, end) == Finite(HourHeight as real)
            <==> end0 - start0 == end - start
  {
    var d := (end - start) as real;
    assert (100.0 * d) / d == 100.0;
  }

  /** A row's full-hour line: none at the start hour. */
  datatype Line = NoLine | LineAt(top: real)

  /** One hour mark of the axis: its label and where its label, its hour line and its half-hour line sit. */
  datatype HourRow = HourRow(hour: int, timeText: Label, labelTop: real, line: Line, halfLine: real)

  /** The row `_renderLines` draws for hour `i` at position `index` of the range. */
  function Row(i: int, index: nat, start: int, format24h: bool, offset: real): (r: HourRow)
    ensures r.hour == i && r.timeText == HourLabel(i, start, format24h)
    ensures r.line.NoLine? <==> r.timeText.Blank?
    ensures r.labelTop + 6.0 == offset * index as real
    ensures r.line.LineAt? ==> r.line.top == offset * index as real
    ensures r.halfLine - offset * index as real == offset / 2.0
  {
    HourRow(
      i,
      HourLabel(i, start, format24h),
      offset * index as real - 6.0,
      if i == start then NoLine else LineAt(offset * index as real),
      offset * (index as real + 0.5))
  }

  /** `_renderLines`: the rows of the axis, or the RangeError `range` throws when `end + 1` is not an array length. */
  function Lines(start: int, end: int, format24h: bool, calendarHeight: real): (r: Outcome<seq<HourRow>>)
    requires end != start
    ensures r.Ok? <==> 0 <= end + 1 < ArrayLengthLimit
    ensures r.Ok? ==> |r.value| == end + 1
    ensures r.Ok? ==> forall k :: 0 <= k < |r.value| ==>
      var offset := Offset(calendarHeight, start, end).value;
      && r.value[k].hour == start + k
      && r.value[k].timeText == HourLabel(start + k, start, format24h)
      && r.value[k].labelTop == offset * k as real - 6.0
      && (r.value[k].line.NoLine? <==> k == 0)
      && (k > 0 ==> r.value[k].line.top == offset * k as real)
      && r.value[k].halfLine == offset * (k as real + 0.5)
  {
    var offset := Offset(calendarHeight, start, end).value;
    match Range(start, end + 1)
    case RangeError => RangeError
    case Ok(hours) =>
      Ok(seq(|hours|, index requires 0 <= index < |hours| => Row(hours[index], index, start, format24h, offset)))
  }

  /**
   * With a current calendar height: the k-th label sits 6 pixels above the k-th
   * mark at 100 * k pixels, every row but the first has its hour line there, and
   * every row has a half-hour line 50 pixels further down, so the lines run
   * strictly downwards 50 pixels apart.
   */
  lemma LinesGeometry(start: int, end: int, format24h: bool, k: nat)
    requires end != start && 0 <= k <= end && end + 1 < ArrayLengthLimit
    ensures Lines(start, end, format24h, CalendarHeight(start, end) as real).Ok?
    ensures var rows := Lines(start, end, format24h, CalendarHeight(start, end) as real).value;
      && rows[k].labelTop == (HourHeight * k - 6) as real
      && (k > 0 ==> rows[k].line == LineAt((HourHeight * k) as real))
      && rows[k].halfLine == (HourHeight * k + HourHeight / 2) as real
      && (k > 0 ==> rows[k - 1].halfLine < rows[k].line.top < rows[k].halfLine)
  {
    OffsetIsHourHeight(start, end);
  }

  /**
   * `range(start, end + 1)` has `end + 1` elements, not `end - start + 1`: when
   * `start > 0` the axis goes on for `start` rows past the end hour, down to
   * 100 * end pixels, below the calendar height.
   */
  lemma LinesOvershootEnd(start: int, end: int, format24h: bool)
    requires 0 < start < end && end + 1 < ArrayLengthLimit
    ensures Lines(start, end, format24h, CalendarHeight(start, end) as real).Ok?
    ensures var rows := Lines(start, end, format24h, CalendarHeight(start, end) as real).value;
      && |rows| == (end - start + 1) + start
      && (forall k :: 0 <= k <= end - start ==> start <= rows[k].hour <= end)
      && (forall k :: end - start < k < |rows| ==> rows[k].hour > end)
      && rows[|rows| - 1].hour == start + end
      && rows[|rows| - 1].line == LineAt((HourHeight * end) as real)
      && (HourHeight * end) as real > CalendarHeight(start, end) as real
  {
    OffsetIsHourHeight(start, end);
  }
}
