/** The table markup `Style.line` produces for two-dimensional arrays and
    DataFrames: Markdown pipe tables, HTML `<table>`s, and the plain
    cell-per-line fallback. */
module Tables {
  import opened Text

  /** `'| ' + ' | '.join(fields) + ' |\n'`: one pipe-table line. */
  function PipeLine(fields: seq<string>): string {
    "| " + Join(fields, " | ") + " |\n"
  }

  /** `" | :----" * n + ' |\n'`: the alignment line under the header. */
  function AlignLine(n: nat): string {
    Repeat(" | :----", n) + " |\n"
  }

  /** One pipe-table line per row, in order. */
  function PipeLines(rows: seq<seq<string>>): string {
    if rows == [] then "" else PipeLine(rows[0]) + PipeLines(rows[1..])
  }

  /** The header a 2-D array gets: `"Column " + str(i)` for each column index. */
  function ColumnLabels(n: nat): (r: seq<string>)
    ensures |r| == n
  {
    seq(n, i requires 0 <= i < n => "Column " + Decimal(i))
  }

  /** Markdown for a 2-D array of `n` columns: cells are stripped. */
  function MarkdownMatrix(n: nat, cells: seq<seq<string>>): string {
    "  \n" + PipeLine(ColumnLabels(n)) + AlignLine(n) + PipeLines(StripRows(cells))
  }

  /** Markdown for a DataFrame: the column names head the table and the
      values are written as `str(value)`, without stripping. */
  function MarkdownFrame(columns: seq<string>, rows: seq<seq<string>>): string {
    "  \n" + PipeLine(columns) + AlignLine(|columns|) + PipeLines(rows)
  }

  /** `"<tag>%s</tag>\n"` for every value, in order. */
  function HtmlCells(tag: string, values: seq<string>): string {
    if values == [] then ""
    else "<" + tag + ">" + values[0] + "</" + tag + ">\n" + HtmlCells(tag, values[1..])
  }

  /** One `<tr>` block of `<td>` cells per row. */
  function HtmlRows(rows: seq<seq<string>>): string {
    if rows == [] then ""
    else "<tr>\n" + HtmlCells("td", rows[0]) + "</tr>\n" + HtmlRows(rows[1..])
  }

  /** HTML for a 2-D array: no header row. */
  function HtmlMatrix(cells: seq<seq<string>>): string {
    "<table>\n" + HtmlRows(cells) + "</table>\n"
  }

  /** HTML for a DataFrame: a `<th>` row of column names, then the records. */
  function HtmlFrame(columns: seq<string>, rows: seq<seq<string>>): string {
    "<table>\n" + "<tr>\n" + HtmlCells("th", columns) + "</tr>\n" + HtmlRows(rows) + "</table>\n"
  }

  /** `str(item).strip() + EOL` for every cell of one row. */
  function PlainCells(row: seq<string>, eol: string): string {
    if row == [] then "" else Strip(row[0]) + eol + PlainCells(row[1..], eol)
  }

  /** The plain fallback for a 2-D array: every cell on its own line, row
      boundaries not marked. */
  function PlainMatrix(cells: seq<seq<string>>, eol: string): string {
    if cells == [] then "" else PlainCells(cells[0], eol) + PlainMatrix(cells[1..], eol)
  }
}
