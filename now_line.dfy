/**
 * The "current time" line and the initial scroll position of the day view
 * (src/DayView.js, `calculateRedLinePosition`, `calculateInitPosition` and
 * `fetchEventsAndPositions`). The clock reading is passed in as an hour and a
 * minute; the packed events enter only through their `top` pixel offsets.
 */
module NowLine {
  import Grid
  import Ranges

  /** `calculateRedLinePosition`: 100 pixels per hour since `start`, plus the minutes' share of an hour. */
  function RedLinePosition(hour: int, minute: int, start: int): (p: real)
    ensures p == 100.0 * ((hour - start) * 60 + minute) as real / 60.0
    ensures minute == 0 ==> p == (100 * (hour - start)) as real
    ensures 0 <= minute < 60 ==> (100 * (hour - start)) as real <= p < (100 * (hour - start + 1)) as real
  {
    var offset := 100.0;
    offset * (hour - start) as real + (offset * minute as real) / 60.0
  }

  /** The clock time a position of the line stands for: the hour, and the minutes into that hour. */
  function ClockAt(p: real, start: int): (int, real) {
    var h := (p / 100.0).Floor;
    (start + h, (p - 100.0 * h as real) * 60.0 / 100.0)
  }

  /** The line's position determines the time it shows. */
  lemma ClockAtRoundTrip(hour: int, minute: int, start: int)
    requires 0 <= minute < 60
    ensures ClockAt(RedLinePosition(hour, minute, start), start) == (hour, minute as real)
  {
    var p := RedLinePosition(hour, minute, start);
    var x := p / 100.0;
    assert x == (hour - start) as real + minute as real / 60.0;
    assert (hour - start) as real <= x < (hour - start) as real + 1.0;
    assert x.Floor == hour - start;
  }

  /** A later time of day puts the line further down. */
  lemma RedLineMonotone(h1: int, m1: int, h2: int, m2: int, start: int)
    requires 0 <= m1 < 60 && 0 <= m2 < 60
    requires h1 < h2 || (h1 == h2 && m1 < m2)
    ensures RedLinePosition(h1, m1, start) < RedLinePosition(h2, m2, start)
  {
  }

  /** On the grid drawn with a current calendar height, the line at h:00 lies on h's hour line and at h:30 on its half-hour line. */
  lemma RedLineOnGrid(start: int, end: int, format24h: bool, k: nat)
    requires end != start && 0 < k <= end && end + 1 < Ranges.ArrayLengthLimit
    ensures Grid.Lines(start, end, format24h, Grid.CalendarHeight(start, end) as real).Ok?
    ensures var rows := Grid.Lines(start, end, format24h, Grid.CalendarHeight(start, end) as real).value;
      && rows[k].line == Grid.LineAt(RedLinePosition(start + k, 0, start))
      && rows[k].halfLine == RedLinePosition(start + k, 30, start)
  {
    Grid.LinesGeometry(start, end, format24h, k);
  }

  /** lodash's `_.min`: scans left to right and keeps the smallest value seen. */
  function MinOf(s: seq<real>): (m: real)
    requires |s| > 0
    ensures m in s
    ensures forall k :: 0 <= k < |s| ==> m <= s[k]
  {
    if |s| == 1 then s[0]
    else
      var init := s[..|s| - 1];
      var m := MinOf(init);
      assert forall k :: 0 <= k < |s| - 1 ==> s[k] == init[k];
      if s[|s| - 1] < m then s[|s| - 1] else m
  }

  /**
   * `calculateInitPosition`: 10 pixels above the red line or, when asked to scroll
   * to the first event and there is one, one hour mark (`calendarHeight / (end - start)`)
   * above the highest event; never above the top of the view.
   */
  function InitPosition(redLine: real, tops: seq<real>, scrollToFirst: bool,
                        calendarHeight: real, start: int, end: int): (y: real)
    requires |tops| > 0 && scrollToFirst ==> end != start
    ensures y >= 0.0
    ensures !(|tops| > 0 && scrollToFirst) ==>
      y >= redLine - 10.0 && (y == 0.0 || y == redLine - 10.0)
    ensures |tops| > 0 && scrollToFirst ==>
      var target := MinOf(tops) - Grid.Offset(calendarHeight, start, end).value;
      y >= target && (y == 0.0 || y == target)
  {
    var initPosition :=
      if |tops| > 0 && scrollToFirst then MinOf(tops) - Grid.Offset(calendarHeight, start, end).value
      else redLine - 10.0;
    if initPosition < 0.0 then 0.0 else initPosition
  }

  /**
   * Scrolling to the first event with a current calendar height leaves every event
   * at least one hour (100 pixels) below the top of the view, and the highest one
   * exactly one hour below unless the view is at its very top.
   */
  lemma FirstEventOneHourBelow(redLine: real, tops: seq<real>, start: int, end: int)
    requires |tops| > 0 && end != start
    ensures var y := InitPosition(redLine, tops, true, Grid.CalendarHeight(start, end) as real, start, end);
      && (forall k :: 0 <= k < |tops| ==> y == 0.0 || y + 100.0 <= tops[k])
      && (y > 0.0 ==> y + 100.0 == MinOf(tops))
      && (y == 0.0 ==> MinOf(tops) <= 100.0)
  {
    Grid.OffsetIsHourHeight(start, end);
  }

  /** Otherwise the view opens with the red line 10 pixels below its top, or at the top if the line is higher than that. */
  lemma RedLineTenBelow(redLine: real, tops: seq<real>, scrollToFirst: bool, calendarHeight: real, start: int, end: int)
    requires !(|tops| > 0 && scrollToFirst)
    ensures var y := InitPosition(redLine, tops, scrollToFirst, calendarHeight, start, end);
      && (y > 0.0 ==> redLine == y + 10.0)
      && (y == 0.0 ==> redLine <= 10.0)
  {
  }

  /** The state `fetchEventsAndPositions` computes besides the packed events. */
  datatype Positions = Positions(scrollY: real, redLinePosition: real)

  /**
   * `fetchEventsAndPositions`, given the tops of the packed events and the clock reading:
   * the state gives the clock reading back, and the view opens either 10 pixels above
   * the now line or, scrolling to the first event with a current calendar height,
   * exactly an hour above the highest event; it opens at its top only when the line
   * (or that event) is that close to the top. With any calendar height, stale ones
   * included, it opens one hour mark (`calendarHeight / (end - start)`) above the
   * highest event, or at the top when that would be above it.
   */
  function FetchPositions(start: int, end: int, scrollToFirst: bool, hour: int, minute: int,
                          tops: seq<real>, calendarHeight: real): (r: Positions)
    requires |tops| > 0 && scrollToFirst ==> end != start
    ensures r.scrollY >= 0.0
    ensures 0 <= minute < 60 ==> ClockAt(r.redLinePosition, start) == (hour, minute as real)
    ensures !(|tops| > 0 && scrollToFirst) ==>
      && (r.scrollY > 0.0 ==> r.scrollY + 10.0 == r.redLinePosition)
      && (r.scrollY == 0.0 ==> r.redLinePosition <= 10.0)
    ensures |tops| > 0 && scrollToFirst && calendarHeight == Grid.CalendarHeight(start, end) as real ==>
      && (forall k :: 0 <= k < |tops| ==> r.scrollY == 0.0 || r.scrollY + 100.0 <= tops[k])
      && (r.scrollY > 0.0 ==> r.scrollY + 100.0 == MinOf(tops))
      && (r.scrollY == 0.0 ==> MinOf(tops) <= 100.0)
    ensures |tops| > 0 && scrollToFirst ==>
      var target := MinOf(tops) - Grid.Offset(calendarHeight, start, end).value;
      && (r.scrollY > 0.0 ==> r.scrollY == target)
      && (r.scrollY == 0.0 ==> target <= 0.0)
  {
    var redLinePosition := RedLinePosition(hour, minute, start);
    var scrollY := InitPosition(redLinePosition, tops, scrollToFirst, calendarHeight, start, end);
    assert 0 <= minute < 60 ==> ClockAt(redLinePosition, start) == (hour, minute as real) by {
      if 0 <= minute < 60 {
        ClockAtRoundTrip(hour, minute, start);
      }
    }
    assert |tops| > 0 && scrollToFirst && calendarHeight == Grid.CalendarHeight(start, end) as real ==>
      && (forall k :: 0 <= k < |tops| ==> scrollY == 0.0 || scrollY + 100.0 <= tops[k])
      && (scrollY > 0.0 ==> scrollY + 100.0 == MinOf(tops))
      && (scrollY == 0.0 ==> MinOf(tops) <= 100.0) by {
      if |tops| > 0 && scrollToFirst && calendarHeight == Grid.CalendarHeight(start, end) as real {
        FirstEventOneHourBelow(redLinePosition, tops, start, end);
      }
    }
    Positions(scrollY, redLinePosition)
  }
}
