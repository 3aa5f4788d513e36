/**
 * What the HTML selectors of the scraper hand back, as already-extracted
 * text. A schedule page is the sequence of its `div.groupe` elements in
 * document order; a group is the sequence of its `div.ligne` lines; a line
 * holds the inner HTML of its `h3`, `span` and `td>ul>li` elements and its
 * table rows; a row is the sequence of its `td` cells. Inner HTML keeps
 * markup such as `<br>` and `&nbsp;` verbatim.
 */
module Markup {

  /** A `td` cell: its own inner HTML and the inner HTML of each `a` inside it. */
  datatype Cell = Cell(text: string, links: seq<string>)

  /** The `td` cells of one `tr`, in document order. */
  type Row = seq<Cell>

  /** One `div.ligne`: the inner HTML of its `h3`, `span` and `td>ul>li` elements, and its `tr` rows. */
  datatype Line = Line(headings: seq<string>, spans: seq<string>, listItems: seq<string>, rows: seq<Row>)

  /** The `div.ligne` elements of one `div.groupe`. */
  type GroupFragment = seq<Line>

  /** The `div.groupe` elements of a page. */
  type Page = seq<GroupFragment>

  /** The text a cell contributes: its first link's text when it has a link, its own text otherwise. */
  function CellText(c: Cell): string {
    if |c.links| == 0 then c.text else c.links[0]
  }

  /** The text of every cell of a row, in order. */
  function CellTexts(row: Row): seq<string> {
    seq(|row|, i requires 0 <= i < |row| => CellText(row[i]))
  }
}
