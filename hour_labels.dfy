/**
 * The label written beside each hour mark of the time axis (src/DayView.js,
 * inside `_renderLines`). The first mark, at the view's `start` hour, is blank;
 * the others read as a 12-hour clock ("9 AM", "12 PM", "12 AM") or, with
 * `format24h`, as the bare hour number, where hour 24 reads 0.
 */
module HourLabels {
  import Decimal

  datatype Meridiem = AM | PM

  /** What one hour mark shows. */
  datatype Label =
    | Blank
    | Twelve(n: int, m: Meridiem)   // `${n} AM` or `${n} PM`
    | TwentyFour(n: int)            // the number n itself

  /** The label of hour `i` on an axis that starts at hour `start`. */
  function HourLabel(i: int, start: int, format24h: bool): (l: Label)
    ensures l.Blank? <==> i == start
    ensures i != start ==> (l.Twelve? <==> !format24h)
  {
    if i == start then Blank
    else if i < 12 then (if !format24h then Twelve(i, AM) else TwentyFour(i))
    else if i == 12 then (if !format24h then Twelve(i, PM) else TwentyFour(i))
    else if i == 24 then (if !format24h then Twelve(12, AM) else TwentyFour(0))
    else (if !format24h then Twelve(i - 12, PM) else TwentyFour(i))
  }

  /** The text the label renders as. */
  function Text(l: Label): (s: string)
    ensures s == "" <==> l.Blank?
  {
    match l
    case Blank => ""
    case Twelve(n, AM) => Decimal.Show(n) + " AM"
    case Twelve(n, PM) => Decimal.Show(n) + " PM"
    case TwentyFour(n) => Decimal.Show(n)
  }

  /** The hour of a 24-hour clock that a 12-hour reading names. */
  function HourOfDay(n: int, m: Meridiem): int {
    match m
    case AM => if n == 12 then 0 else n
    case PM => if n == 12 then 12 else n + 12
  }

  /** The 24-hour cases: the hour itself, except that hour 24 reads 0. */
  lemma TwentyFourHourCases(i: int, start: int)
    requires i != start
    ensures HourLabel(i, start, true) == TwentyFour(if i == 24 then 0 else i)
  {
  }

  /** Both formats name the same hour: reading the 12-hour label on a 24-hour clock gives the 24-hour label. */
  lemma FormatsAgree(i: int, start: int)
    requires i != start
    ensures HourLabel(i, start, false).Twelve? && HourLabel(i, start, true).TwentyFour?
    ensures HourOfDay(HourLabel(i, start, false).n, HourLabel(i, start, false).m) == HourLabel(i, start, true).n
  {
  }

  /**
   * Over one day (hours 1 through 24) the 12-hour label is the conventional clock
   * reading: the hour modulo 12, with 12 for 0, AM exactly for the hours before
   * noon (and for midnight at hour 24); the 24-hour label is the hour modulo 24.
   */
  lemma WithinOneDay(i: int, start: int)
    requires 1 <= i <= 24 && i != start
    ensures HourLabel(i, start, false) == Twelve(if i % 12 == 0 then 12 else i % 12, if i % 24 < 12 then AM else PM)
    ensures HourLabel(i, start, true) == TwentyFour(i % 24)
  {
  }

  /** The 12-hour label shows a clock number 1..12 exactly for the hours of one day, 1 through 24. */
  lemma ClockNumberOnlyWithinOneDay(i: int, start: int)
    requires i != start
    ensures 1 <= HourLabel(i, start, false).n <= 12 <==> 1 <= i <= 24
  {
  }

  /**
   * On an axis starting at a non-negative hour, distinct hours at or after the
   * start get distinct labels, in either format.
   */
  lemma LabelsDistinct(i: int, j: int, start: int, format24h: bool)
    requires 0 <= start <= i && start <= j && i != j
    ensures HourLabel(i, start, format24h) != HourLabel(j, start, format24h)
  {
  }

  /** A 12-hour text ends in the letter M, a 24-hour text in a digit. */
  lemma TextEnd(l: Label)
    requires !l.Blank?
    ensures Text(l)[|Text(l)| - 1] == 'M' <==> l.Twelve?
  {
  }

  /** A label can be read back from its text, so distinct labels render as distinct texts. */
  lemma TextInjective(a: Label, b: Label)
    requires Text(a) == Text(b)
    ensures a == b
  {
    if !a.Blank? {
      TextEnd(a);
      TextEnd(b);
      var t := Text(a);
      if a.Twelve? {
        assert t[|t| - 2] == if a.m == AM then 'A' else 'P';
        assert Text(b)[|t| - 2] == if b.m == AM then 'A' else 'P';
        assert Decimal.Show(a.n) == t[..|t| - 3] == Decimal.Show(b.n);
      }
      Decimal.ShowInjective(a.n, b.n);
    }
  }

  /**
   * The hours past a day, which the axis reaches when it overshoots its end (see
   * Grid.LinesOvershootEnd), read as `i - 12` PM, a number past 12: hour 25 reads "13 PM".
   */
  lemma PastOneDayText(i: int, start: int)
    requires i > 24 && i != start
    ensures HourLabel(i, start, false) == Twelve(i - 12, PM) && i - 12 > 12
    ensures Text(HourLabel(i, start, false)) == Decimal.Show(i - 12) + " PM"
  {
  }
}
