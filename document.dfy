/**
 * A parsed HTML page, reduced to what the scraper asks of it: its hyperlinks in
 * document order and its table rows. Texts are already stripped of surrounding
 * whitespace, as `get_text(strip=True)` returns them.
 */
module Document {
  import opened Results

  /** An `<a>` element: its text, its `href` attribute if it has one, and the
      text of the first `<td>` that follows it in the document, if any. */
  datatype Link = Link(text: string, href: Option<string>, nextCell: Option<string>)

  /** A `<td>` element: the tokens of its `headers` attribute and its text. */
  datatype Cell = Cell(headers: seq<string>, text: string)

  /** A `<tr>` element: its `<td>` cells in order. */
  type TableRow = seq<Cell>

  datatype Page = Page(links: seq<Link>, rows: seq<TableRow>)

  /** Every `<td>` of the page, in document order. */
  function AllCells(rows: seq<TableRow>): (cells: seq<Cell>)
    ensures forall i, c :: 0 <= i < |rows| && c in rows[i] ==> c in cells
  {
    if |rows| == 0 then [] else rows[0] + AllCells(rows[1..])
  }
}
