/**
 * The text rows of an event box in the day view's default event rendering
 * (src/DayView.js, `_renderEvents`): how many 17-pixel text lines fit in the box,
 * which rows are shown, and the default title and summary.
 */
module EventText {

  /** `TEXT_LINE_HEIGHT`: pixels per line of text. */
  const TextLineHeight: int := 17

  /** `Math.floor(height / TEXT_LINE_HEIGHT)`: the number of whole text lines that fit in the box. */
  function NumberOfLines(height: real): (n: int)
    ensures (TextLineHeight * n) as real <= height < (TextLineHeight * (n + 1)) as real
  {
    (height / TextLineHeight as real).Floor
  }

  /** A display attribute of an event: absent, or given as a string (where the empty string is falsy). */
  datatype Attr = Absent | Given(s: string)

  /** `attr || fallback`: the attribute when it is a non-empty string, the fallback otherwise. */
  function OrDefault(a: Attr, fallback: string): (s: string)
    ensures fallback != "" ==> s != ""
    ensures a.Given? && a.s != "" ==> s == a.s
    ensures !(a.Given? && a.s != "") ==> s == fallback
  {
    if a.Given? && a.s != "" then a.s else fallback
  }

  /** The summary row: its text and the most lines it may take. */
  datatype SummaryRow = NoSummary | Summary(text: string, lines: int)

  /** What the default rendering of an event box shows: a time row or not, the title, and a summary row or not. */
  datatype Body = Body(timeRow: bool, title: string, summary: SummaryRow)

  /** The default body of an event box `height` pixels high. */
  function DefaultBody(height: real, title: Attr, summary: Attr): (b: Body)
    ensures b.timeRow <==> height >= 34.0
    ensures b.summary.Summary? <==> height >= 51.0
    ensures b.summary.Summary? ==> b.summary.lines == NumberOfLines(height) - 1 >= 2
    ensures title.Given? && title.s != "" ==> b.title == title.s
    ensures !(title.Given? && title.s != "") ==> b.title == "Event"
    ensures b.summary.Summary? && summary.Given? && summary.s != "" ==> b.summary.text == summary.s
    ensures b.summary.Summary? && !(summary.Given? && summary.s != "") ==> b.summary.text == " "
  {
    var numberOfLines := NumberOfLines(height);
    Body(
      numberOfLines > 1,
      OrDefault(title, "Event"),
      if numberOfLines > 2 then Summary(OrDefault(summary, " "), numberOfLines - 1) else NoSummary)
  }

  /** The number of text lines a body asks for: the time row, the title row and the summary's lines. */
  function RowsRequested(b: Body): int {
    (if b.timeRow then 1 else 0) + 1 + (if b.summary.Summary? then b.summary.lines else 0)
  }

  /**
   * As written, once the summary row appears the body asks for one line more than
   * fits: the time and title rows take two of the `numberOfLines` lines, yet the
   * summary may take `numberOfLines - 1`. A box 51 pixels high (3 lines) asks for
   * 4 lines, 68 pixels.
   */
  lemma SummaryOverrunsBox(height: real, title: Attr, summary: Attr)
    requires height >= 51.0
    ensures RowsRequested(DefaultBody(height, title, summary)) == NumberOfLines(height) + 1
    ensures (TextLineHeight * RowsRequested(DefaultBody(height, title, summary))) as real > height
  {
  }

  /** The body with the summary limited to the lines the time and title rows leave. */
  function FittedBody(height: real, title: Attr, summary: Attr): (b: Body)
    ensures b.timeRow == DefaultBody(height, title, summary).timeRow
    ensures b.title == DefaultBody(height, title, summary).title
    ensures b.summary.Summary? <==> DefaultBody(height, title, summary).summary.Summary?
    ensures b.summary.Summary? ==> b.summary.text == DefaultBody(height, title, summary).summary.text
    ensures b.summary.Summary? ==> b.summary.lines == NumberOfLines(height) - 2 >= 1
  {
    var b := DefaultBody(height, title, summary);
    match b.summary
    case NoSummary => b
    case Summary(text, lines) => b.(summary := Summary(text, lines - 1))
  }

  /** Every box with room for at least one line holds all the lines its fitted body asks for. */
  lemma FittedBodyFits(height: real, title: Attr, summary: Attr)
    requires height >= TextLineHeight as real
    ensures (TextLineHeight * RowsRequested(FittedBody(height, title, summary))) as real <= height
  {
  }
}
