/** Readers for the table markup of `Tables`: each recovers the header and
    the cells a renderer laid out, which shows that the markup loses nothing
    as long as no cell contains the characters the layout is built from. */
module TableReading {
  import opened Results
  import opened Text
  import opened Splitting
  import opened Tables
  import opened Payloads
  import opened Styles

  /** No string of any row of `rows` contains `c`. */
  predicate GridFree(rows: seq<seq<string>>, c: char) {
    forall k :: 0 <= k < |rows| ==> Free(rows[k], c)
  }

  lemma FreeAppend(a: seq<string>, b: seq<string>, c: char)
    ensures Free(a + b, c) <==> Free(a, c) && Free(b, c)
  {
    if Free(a, c) && Free(b, c) {
      forall k | 0 <= k < |a + b| ensures c !in (a + b)[k] {
        if k >= |a| { assert (a + b)[k] == b[k - |a|]; }
      }
    }
    if Free(a + b, c) {
      forall k | 0 <= k < |a| ensures c !in a[k] {
        assert (a + b)[k] == a[k];
      }
      forall k | 0 <= k < |b| ensures c !in b[k] {
        assert (a + b)[|a| + k] == b[k];
      }
    }
  }

  /** Terminating delimiter-free strings by `d` introduces no other character. */
  lemma {:induction false} TerminatedExcludes(ls: seq<string>, d: char, c: char)
    requires c != d && Free(ls, c)
    ensures c !in Terminated(ls, d)
    decreases |ls|
  {
    if ls != [] {
      assert Free(ls[1..], c) by {
        forall k | 0 <= k < |ls[1..]| ensures c !in ls[1..][k] {
          assert ls[1..][k] == ls[k + 1];
        }
      }
      TerminatedExcludes(ls[1..], d, c);
    }
  }

  lemma {:induction false} RepeatExcludes(s: string, n: nat, c: char)
    requires c !in s
    ensures c !in Repeat(s, n)
  {
    if n > 0 {
      RepeatExcludes(s, n - 1, c);
    }
  }

  // ---------------------------------------------------------------- Markdown

  /** A pipe-table line without its line break. */
  function PipeBody(fields: seq<string>): string {
    "| " + Join(fields, " | ") + " |"
  }

  /** The alignment line without its line break. */
  function AlignBody(n: nat): string {
    Repeat(" | :----", n) + " |"
  }

  /** Every field with one blank on either side, as it sits between pipes. */
  function Pad(fields: seq<string>): (r: seq<string>)
    ensures |r| == |fields|
  {
    seq(|fields|, k requires 0 <= k < |fields| => " " + fields[k] + " ")
  }

  predicate Padded(s: string) {
    |s| >= 2 && s[0] == ' ' && s[|s| - 1] == ' '
  }

  /** Reads one pipe-table line back into its fields: the text between
      consecutive pipes, less the blank on either side. `None` when the line
      does not start and end with a pipe or a field is not padded. */
  function ReadPipe(line: string): Option<seq<string>> {
    var parts := Split(line, '|');
    if |parts| >= 3 && parts[0] == [] && parts[|parts| - 1] == []
       && forall k :: 1 <= k < |parts| - 1 ==> Padded(parts[k])
    then Some(seq(|parts| - 2, k requires 0 <= k < |parts| - 2 => parts[k + 1][1..|parts[k + 1]| - 1]))
    else None
  }

  /** Reads consecutive pipe-table lines; `None` when one of them is malformed. */
  function ReadPipes(lines: seq<string>): Option<seq<seq<string>>> {
    if lines == [] then Some([])
    else match ReadPipe(lines[0])
      case None => None
      case Some(fields) =>
        match ReadPipes(lines[1..])
        case None => None
        case Some(rows) => Some([fields] + rows)
  }

  /** Reads a Markdown table as `Style.line` writes it: an empty line ending
      in two blanks, the header, the alignment line for as many columns as
      the header has, then the rows, each line ending in a line break. */
  function ReadMarkdown(text: string): Option<(seq<string>, seq<seq<string>>)> {
    var lines := Split(text, '\n');
    if |lines| < 4 || lines[0] != "  " || lines[|lines| - 1] != [] then None
    else match ReadPipe(lines[1])
      case None => None
      case Some(header) =>
        if lines[2] != AlignBody(|header|) then None
        else match ReadPipes(lines[3..|lines| - 1])
          case None => None
          case Some(rows) => Some((header, rows))
  }

  /** The pipe-table lines of `rows`, without line breaks. */
  function Bodies(rows: seq<seq<string>>): (r: seq<string>)
    ensures |r| == |rows|
  {
    seq(|rows|, k requires 0 <= k < |rows| => PipeBody(rows[k]))
  }

  /** A pipe line is a leading pipe followed by every padded field
      terminated by a pipe. */
  lemma {:induction false} PipeBodyShape(fields: seq<string>)
    requires |fields| >= 1
    ensures PipeBody(fields) == ['|'] + Terminated(Pad(fields), '|')
    decreases |fields|
  {
    var f := fields[0];
    var p := Pad(fields);
    assert p[0] == " " + f + " ";
    if |fields| == 1 {
      assert Terminated(p, '|') == p[0] + ['|'] + Terminated([], '|');
    } else {
      var rest := fields[1..];
      var j := Join(rest, " | ");
      PipeBodyShape(rest);
      assert p[1..] == Pad(rest);
      PipeCons(f, j);
      calc {
        PipeBody(fields);
        "| " + (f + " | " + j) + " |";
        ['|'] + (" " + f + " ") + ("| " + j + " |");
        ['|'] + (" " + f + " ") + (['|'] + Terminated(Pad(rest), '|'));
        ['|'] + (p[0] + ['|'] + Terminated(p[1..], '|'));
        ['|'] + Terminated(p, '|');
      }
    }
  }

  lemma PipeCons(f: string, j: string)
    ensures "| " + (f + " | " + j) + " |" == ['|'] + (" " + f + " ") + ("| " + j + " |")
  {
    assert "| " == ['|'] + " ";
    assert " | " == " " + ['|'] + " ";
  }

  /** Padded delimiter-free fields stay delimiter-free. */
  lemma PadFree(fields: seq<string>, c: char)
    requires c != ' ' && Free(fields, c)
    ensures Free(Pad(fields), c)
  {
    forall k | 0 <= k < |fields| ensures c !in Pad(fields)[k] {
      assert Pad(fields)[k] == " " + fields[k] + " ";
    }
  }

  /** A pipe line of fields without pipes reads back as those fields. */
  lemma ReadPipeBody(fields: seq<string>)
    requires |fields| >= 1 && Free(fields, '|')
    ensures ReadPipe(PipeBody(fields)) == Some(fields)
  {
    var p := Pad(fields);
    PipeBodyShape(fields);
    PadFree(fields, '|');
    SplitLeading('|', Terminated(p, '|'));
    SplitTerminated(p, '|');
    var parts := Split(PipeBody(fields), '|');
    assert parts == [[]] + p + [[]];
    forall k | 1 <= k < |parts| - 1 ensures Padded(parts[k]) && parts[k][1..|parts[k]| - 1] == fields[k - 1] {
      assert parts[k] == p[k - 1] == " " + fields[k - 1] + " ";
    }
    assert seq(|parts| - 2, k requires 0 <= k < |parts| - 2 => parts[k + 1][1..|parts[k + 1]| - 1]) == fields;
  }

  lemma {:induction false} ReadPipesBodies(rows: seq<seq<string>>)
    requires forall k :: 0 <= k < |rows| ==> |rows[k]| >= 1 && Free(rows[k], '|')
    ensures ReadPipes(Bodies(rows)) == Some(rows)
    decreases |rows|
  {
    if rows != [] {
      ReadPipeBody(rows[0]);
      assert Bodies(rows)[1..] == Bodies(rows[1..]);
      ReadPipesBodies(rows[1..]);
      assert [rows[0]] + rows[1..] == rows;
    }
  }

  lemma {:induction false} PipeLinesTerminated(rows: seq<seq<string>>)
    ensures PipeLines(rows) == Terminated(Bodies(rows), '\n')
    decreases |rows|
  {
    if rows != [] {
      assert Bodies(rows)[1..] == Bodies(rows[1..]);
      PipeLinesTerminated(rows[1..]);
      assert PipeLine(rows[0]) == PipeBody(rows[0]) + ['\n'];
    }
  }

  /** Fields free of `c` give a pipe line free of `c`, for a `c` that is
      neither a pipe nor a blank. */
  lemma PipeBodyExcludes(fields: seq<string>, c: char)
    requires |fields| >= 1 && c != '|' && c != ' ' && Free(fields, c)
    ensures c !in PipeBody(fields)
  {
    PipeBodyShape(fields);
    PadFree(fields, c);
    TerminatedExcludes(Pad(fields), '|', c);
  }

  lemma TerminatedThree(a: string, b: string, c: string, d: char)
    ensures Terminated([a, b, c], d) == a + [d] + b + [d] + c + [d]
  {
    assert [a, b, c][1..] == [b, c];
    assert [b, c][1..] == [c];
    assert [c][1..] == [];
    assert Terminated([c], d) == c + [d];
    assert Terminated([b, c], d) == b + [d] + (c + [d]);
  }

  /** The lines of a Markdown table, each without its line break. */
  function MarkdownLines(columns: seq<string>, rows: seq<seq<string>>): seq<string> {
    ["  ", PipeBody(columns), AlignBody(|columns|)] + Bodies(rows)
  }

  lemma MarkdownFrameLines(columns: seq<string>, rows: seq<seq<string>>)
    ensures MarkdownFrame(columns, rows) == Terminated(MarkdownLines(columns, rows), '\n')
  {
    var head := ["  ", PipeBody(columns), AlignBody(|columns|)];
    TerminatedAppend(head, Bodies(rows), '\n');
    PipeLinesTerminated(rows);
    TerminatedThree("  ", PipeBody(columns), AlignBody(|columns|), '\n');
    assert "  \n" == "  " + ['\n'];
    assert PipeLine(columns) == PipeBody(columns) + ['\n'];
    assert AlignLine(|columns|) == AlignBody(|columns|) + ['\n'];
  }

  /** The Markdown a DataFrame renders to reads back as its columns and
      records, provided there is at least one column, every record has a
      value, and no name or value holds a pipe or a line break. */
  lemma ReadMarkdownFrame(columns: seq<string>, rows: seq<seq<string>>)
    requires |columns| >= 1 && Free(columns, '|') && Free(columns, '\n')
    requires forall k :: 0 <= k < |rows| ==> |rows[k]| >= 1
    requires GridFree(rows, '|') && GridFree(rows, '\n')
    ensures ReadMarkdown(MarkdownFrame(columns, rows)) == Some((columns, rows))
  {
    var lines := MarkdownLines(columns, rows);
    assert Free(lines, '\n') by {
      PipeBodyExcludes(columns, '\n');
      RepeatExcludes(" | :----", |columns|, '\n');
      forall k | 0 <= k < |rows| ensures '\n' !in Bodies(rows)[k] {
        PipeBodyExcludes(rows[k], '\n');
      }
    }
    MarkdownFrameLines(columns, rows);
    SplitTerminated(lines, '\n');
    var split := lines + [[]];
    ReadPipeBody(columns);
    assert split[3..|split| - 1] == Bodies(rows);
    ReadPipesBodies(rows);
  }

  /** Column labels hold only letters, a blank and digits. */
  lemma ColumnLabelsExclude(n: nat, c: char)
    requires c == '|' || c == '\n'
    ensures Free(ColumnLabels(n), c)
  {
    forall i | 0 <= i < n ensures c !in ColumnLabels(n)[i] {
      var d := Decimal(i);
      assert ColumnLabels(n)[i] == "Column " + d;
      forall k | 0 <= k < |d| ensures d[k] != c {
        assert IsDigit(d[k]);
      }
    }
  }

  /** Stripping introduces no character. */
  lemma StripRowsExclude(cells: seq<seq<string>>, c: char)
    requires GridFree(cells, c)
    ensures GridFree(StripRows(cells), c)
  {
    forall k, j | 0 <= k < |cells| && 0 <= j < |cells[k]| ensures c !in StripRows(cells)[k][j] {
      if c in Strip(cells[k][j]) {
        StripChars(cells[k][j], c);
      }
    }
  }

  /** The Markdown a two-dimensional array renders to reads back as the
      "Column i" labels and the stripped cells, provided there is at least
      one column, every row has a cell, and no cell holds a pipe or a line
      break. */
  lemma ReadMarkdownMatrix(n: nat, cells: seq<seq<string>>)
    requires n >= 1
    requires forall k :: 0 <= k < |cells| ==> |cells[k]| >= 1
    requires GridFree(cells, '|') && GridFree(cells, '\n')
    ensures ReadMarkdown(MarkdownMatrix(n, cells)) == Some((ColumnLabels(n), StripRows(cells)))
  {
    ColumnLabelsExclude(n, '|');
    ColumnLabelsExclude(n, '\n');
    StripRowsExclude(cells, '|');
    StripRowsExclude(cells, '\n');
    ReadMarkdownFrame(ColumnLabels(n), StripRows(cells));
  }

  // -------------------------------------------------------------------- HTML

  const TableOpen := "<table>"
  const TableClose := "</table>"
  const RowOpen := "<tr>"
  const RowClose := "</tr>"

  function Open(tag: string): string { "<" + tag + ">" }

  function Close(tag: string): string { "</" + tag + ">" }

  /** One cell line, `<tag>value</tag>`, without its line break. */
  function Wrap(tag: string, value: string): string {
    Open(tag) + value + Close(tag)
  }

  /** The value inside a `<tag>...</tag>` line; `None` for any other line. */
  function Unwrap(tag: string, line: string): Option<string> {
    var o := Open(tag);
    var c := Close(tag);
    if |line| >= |o| + |c| && line[..|o|] == o && line[|line| - |c|..] == c
    then Some(line[|o|..|line| - |c|])
    else None
  }

  lemma UnwrapWrap(tag: string, value: string)
    ensures Unwrap(tag, Wrap(tag, value)) == Some(value)
  {
    var line := Wrap(tag, value);
    var o := Open(tag);
    var c := Close(tag);
    assert line[..|o|] == o;
    assert line[|line| - |c|..] == c;
    assert line[|o|..|line| - |c|] == value;
  }

  /** The cell lines of `values`, without line breaks. */
  function CellLines(tag: string, values: seq<string>): (r: seq<string>)
    ensures |r| == |values|
  {
    seq(|values|, k requires 0 <= k < |values| => Wrap(tag, values[k]))
  }

  /** The lines of the `<tr>` blocks of `rows`, without line breaks. */
  function RowLines(rows: seq<seq<string>>): seq<string> {
    if rows == [] then []
    else [RowOpen] + CellLines("td", rows[0]) + [RowClose] + RowLines(rows[1..])
  }

  /** Reads the values of the leading `<tag>` lines; returns them with the
      lines that follow. */
  function ReadCells(tag: string, lines: seq<string>): (r: (seq<string>, seq<string>))
    ensures |r.1| <= |lines|
  {
    if lines == [] then ([], [])
    else match Unwrap(tag, lines[0])
      case None => ([], lines)
      case Some(v) =>
        var (vs, rest) := ReadCells(tag, lines[1..]);
        ([v] + vs, rest)
  }

  /** Reads the leading `<tr>` blocks of `<td>` cells; returns their values
      with the lines that follow. `None` when a block is not closed by
      `</tr>` right after its cells. */
  function ReadRows(lines: seq<string>): (r: Option<(seq<seq<string>>, seq<string>)>)
    ensures r.Some? ==> |r.value.1| <= |lines|
    decreases |lines|
  {
    if lines != [] && lines[0] == RowOpen then
      var (cells, after) := ReadCells("td", lines[1..]);
      if after != [] && after[0] == RowClose then
        match ReadRows(after[1..])
        case None => None
        case Some((rows, rest)) => Some(([cells] + rows, rest))
      else None
    else Some(([], lines))
  }

  /** Reads an HTML table as `Style.line` writes a two-dimensional array. */
  function ReadHtmlMatrix(text: string): Option<seq<seq<string>>> {
    var lines := Split(text, '\n');
    if lines[0] != TableOpen then None
    else match ReadRows(lines[1..])
      case None => None
      case Some((rows, rest)) => if rest == [TableClose, []] then Some(rows) else None
  }

  /** Reads an HTML table as `Style.line` writes a DataFrame: a `<th>` row
      of column names, then the records. */
  function ReadHtmlFrame(text: string): Option<(seq<string>, seq<seq<string>>)> {
    var lines := Split(text, '\n');
    if |lines| < 2 || lines[0] != TableOpen || lines[1] != RowOpen then None
    else
      var (columns, after) := ReadCells("th", lines[2..]);
      if after == [] || after[0] != RowClose then None
      else match ReadRows(after[1..])
        case None => None
        case Some((rows, rest)) => if rest == [TableClose, []] then Some((columns, rows)) else None
  }

  /** The row and table tag lines are too short to be cell lines. */
  lemma TagLinesAreNotCells(tag: string)
    requires |tag| == 2
    ensures Unwrap(tag, RowClose).None? && Unwrap(tag, TableClose).None?
  {
  }

  lemma {:induction false} ReadCellsBack(tag: string, values: seq<string>, rest: seq<string>)
    requires rest == [] || Unwrap(tag, rest[0]).None?
    ensures ReadCells(tag, CellLines(tag, values) + rest) == (values, rest)
    decreases |values|
  {
    var lines := CellLines(tag, values) + rest;
    if values != [] {
      UnwrapWrap(tag, values[0]);
      assert lines[0] == Wrap(tag, values[0]);
      assert lines[1..] == CellLines(tag, values[1..]) + rest;
      ReadCellsBack(tag, values[1..], rest);
      assert [values[0]] + values[1..] == values;
    } else {
      assert lines == rest;
    }
  }

  lemma {:induction false} ReadRowsBack(rows: seq<seq<string>>, rest: seq<string>)
    requires rest == [] || rest[0] != RowOpen
    ensures ReadRows(RowLines(rows) + rest) == Some((rows, rest))
    decreases |rows|
  {
    if rows == [] {
      assert RowLines(rows) + rest == rest;
    } else {
      var tail := [RowClose] + (RowLines(rows[1..]) + rest);
      var lines := RowLines(rows) + rest;
      assert RowLines(rows) == [RowOpen] + CellLines("td", rows[0]) + [RowClose] + RowLines(rows[1..]);
      Regroup(RowOpen, CellLines("td", rows[0]), RowClose, RowLines(rows[1..]), rest);
      assert lines == [RowOpen] + (CellLines("td", rows[0]) + tail);
      assert lines[1..] == CellLines("td", rows[0]) + tail;
      TagLinesAreNotCells("td");
      ReadCellsBack("td", rows[0], tail);
      ReadRowsBack(rows[1..], rest);
      assert tail[1..] == RowLines(rows[1..]) + rest;
      ReadRowsOpen(lines, rows[0], tail);
      assert [rows[0]] + rows[1..] == rows;
    }
  }

  lemma Regroup(a: string, b: seq<string>, c: string, d: seq<string>, e: seq<string>)
    ensures [a] + b + [c] + d + e == [a] + (b + ([c] + (d + e)))
  {
  }

  /** One step of `ReadRows`: a `<tr>` line, cells, and a `</tr>` line. */
  lemma ReadRowsOpen(lines: seq<string>, cells: seq<string>, tail: seq<string>)
    requires lines != [] && lines[0] == RowOpen
    requires ReadCells("td", lines[1..]) == (cells, tail)
    requires tail != [] && tail[0] == RowClose
    ensures ReadRows(lines) ==
              match ReadRows(tail[1..])
              case None => None
              case Some((rows, rest)) => Some(([cells] + rows, rest))
  {
  }

  lemma {:induction false} HtmlCellsTerminated(tag: string, values: seq<string>)
    ensures HtmlCells(tag, values) == Terminated(CellLines(tag, values), '\n')
    decreases |values|
  {
    if values != [] {
      assert CellLines(tag, values)[1..] == CellLines(tag, values[1..]);
      HtmlCellsTerminated(tag, values[1..]);
      assert ">\n" == ">" + ['\n'];
    }
  }

  lemma {:induction false} HtmlRowsTerminated(rows: seq<seq<string>>)
    ensures HtmlRows(rows) == Terminated(RowLines(rows), '\n')
    decreases |rows|
  {
    if rows != [] {
      var cells := CellLines("td", rows[0]);
      HtmlCellsTerminated("td", rows[0]);
      HtmlRowsTerminated(rows[1..]);
      TerminatedAppend([RowOpen] + cells, [RowClose] + RowLines(rows[1..]), '\n');
      TerminatedAppend([RowOpen], cells, '\n');
      TerminatedAppend([RowClose], RowLines(rows[1..]), '\n');
      assert [RowOpen] + cells + [RowClose] + RowLines(rows[1..])
          == ([RowOpen] + cells) + ([RowClose] + RowLines(rows[1..]));
      assert "<tr>\n" == RowOpen + ['\n'];
      assert "</tr>\n" == RowClose + ['\n'];
    }
  }

  /** Cell lines of values without `c` hold no `c`, for a `c` that occurs in
      no tag. */
  lemma CellLinesExclude(tag: string, values: seq<string>, c: char)
    requires c !in tag && c != '<' && c != '>' && c != '/' && Free(values, c)
    ensures Free(CellLines(tag, values), c)
  {
    forall k | 0 <= k < |values| ensures c !in CellLines(tag, values)[k] {
      assert CellLines(tag, values)[k] == "<" + tag + ">" + values[k] + ("</" + tag + ">");
    }
  }

  lemma {:induction false} RowLinesExclude(rows: seq<seq<string>>)
    requires GridFree(rows, '\n')
    ensures Free(RowLines(rows), '\n')
    decreases |rows|
  {
    if rows != [] {
      CellLinesExclude("td", rows[0], '\n');
      RowLinesExclude(rows[1..]);
      FreeAppend([RowOpen], CellLines("td", rows[0]), '\n');
      FreeAppend([RowOpen] + CellLines("td", rows[0]), [RowClose], '\n');
      FreeAppend([RowOpen] + CellLines("td", rows[0]) + [RowClose], RowLines(rows[1..]), '\n');
    }
  }

  /** The lines of the HTML for a two-dimensional array. */
  function MatrixLines(cells: seq<seq<string>>): seq<string> {
    [TableOpen] + RowLines(cells) + [TableClose]
  }

  /** The lines of the HTML for a DataFrame. */
  function FrameLines(columns: seq<string>, rows: seq<seq<string>>): seq<string> {
    [TableOpen, RowOpen] + CellLines("th", columns) + [RowClose] + RowLines(rows) + [TableClose]
  }

  lemma TerminatedOne(x: string, d: char)
    ensures Terminated([x], d) == x + [d]
  {
    assert [x][1..] == [];
  }

  lemma HtmlMatrixLines(cells: seq<seq<string>>)
    ensures HtmlMatrix(cells) == Terminated(MatrixLines(cells), '\n')
  {
    HtmlRowsTerminated(cells);
    TerminatedAppend([TableOpen] + RowLines(cells), [TableClose], '\n');
    TerminatedAppend([TableOpen], RowLines(cells), '\n');
    TerminatedOne(TableOpen, '\n');
    TerminatedOne(TableClose, '\n');
    assert "<table>\n" == TableOpen + ['\n'];
    assert "</table>\n" == TableClose + ['\n'];
  }

  lemma HtmlFrameLines(columns: seq<string>, rows: seq<seq<string>>)
    ensures HtmlFrame(columns, rows) == Terminated(FrameLines(columns, rows), '\n')
  {
    var a := [TableOpen, RowOpen] + CellLines("th", columns);
    var b := [RowClose] + RowLines(rows) + [TableClose];
    assert FrameLines(columns, rows) == a + b;
    TerminatedAppend(a, b, '\n');
    FrameHeadLines(columns);
    FrameBodyLines(rows);
  }

  lemma FrameHeadLines(columns: seq<string>)
    ensures Terminated([TableOpen, RowOpen] + CellLines("th", columns), '\n')
            == "<table>\n" + "<tr>\n" + HtmlCells("th", columns)
  {
    HtmlCellsTerminated("th", columns);
    TerminatedAppend([TableOpen, RowOpen], CellLines("th", columns), '\n');
    TerminatedAppend([TableOpen], [RowOpen], '\n');
    assert [TableOpen] + [RowOpen] == [TableOpen, RowOpen];
    TerminatedOne(TableOpen, '\n');
    TerminatedOne(RowOpen, '\n');
    assert "<table>\n" == TableOpen + ['\n'];
    assert "<tr>\n" == RowOpen + ['\n'];
  }

  lemma FrameBodyLines(rows: seq<seq<string>>)
    ensures Terminated([RowClose] + RowLines(rows) + [TableClose], '\n')
            == "</tr>\n" + HtmlRows(rows) + "</table>\n"
  {
    HtmlRowsTerminated(rows);
    TerminatedAppend([RowClose] + RowLines(rows), [TableClose], '\n');
    TerminatedAppend([RowClose], RowLines(rows), '\n');
    TerminatedOne(RowClose, '\n');
    TerminatedOne(TableClose, '\n');
    assert "</tr>\n" == RowClose + ['\n'];
    assert "</table>\n" == TableClose + ['\n'];
  }

  lemma MatrixLinesExclude(cells: seq<seq<string>>)
    requires GridFree(cells, '\n')
    ensures Free(MatrixLines(cells), '\n')
  {
    RowLinesExclude(cells);
    FreeAppend([TableOpen], RowLines(cells), '\n');
    FreeAppend([TableOpen] + RowLines(cells), [TableClose], '\n');
  }

  lemma FrameLinesExclude(columns: seq<string>, rows: seq<seq<string>>)
    requires Free(columns, '\n') && GridFree(rows, '\n')
    ensures Free(FrameLines(columns, rows), '\n')
  {
    var head := CellLines("th", columns);
    CellLinesExclude("th", columns, '\n');
    RowLinesExclude(rows);
    FreeAppend([TableOpen, RowOpen], head, '\n');
    FreeAppend([TableOpen, RowOpen] + head, [RowClose], '\n');
    FreeAppend([TableOpen, RowOpen] + head + [RowClose], RowLines(rows), '\n');
    FreeAppend([TableOpen, RowOpen] + head + [RowClose] + RowLines(rows), [TableClose], '\n');
  }

  /** The HTML a two-dimensional array renders to reads back as its cells,
      provided no cell holds a line break. */
  lemma ReadHtmlMatrixBack(cells: seq<seq<string>>)
    requires GridFree(cells, '\n')
    ensures ReadHtmlMatrix(HtmlMatrix(cells)) == Some(cells)
  {
    var lines := MatrixLines(cells);
    HtmlMatrixLines(cells);
    MatrixLinesExclude(cells);
    SplitTerminated(lines, '\n');
    var split := lines + [[]];
    assert split == [TableOpen] + (RowLines(cells) + [TableClose, []]);
    ReadRowsBack(cells, [TableClose, []]);
  }

  /** The HTML a DataFrame renders to reads back as its columns and records,
      provided no name or value holds a line break. */
  lemma ReadHtmlFrameBack(columns: seq<string>, rows: seq<seq<string>>)
    requires Free(columns, '\n') && GridFree(rows, '\n')
    ensures ReadHtmlFrame(HtmlFrame(columns, rows)) == Some((columns, rows))
  {
    var lines := FrameLines(columns, rows);
    HtmlFrameLines(columns, rows);
    FrameLinesExclude(columns, rows);
    SplitTerminated(lines, '\n');
    var split := lines + [[]];
    var after := [RowClose] + (RowLines(rows) + [TableClose, []]);
    assert split == [TableOpen, RowOpen] + (CellLines("th", columns) + after);
    assert split[2..] == CellLines("th", columns) + after;
    TagLinesAreNotCells("th");
    ReadCellsBack("th", columns, after);
    assert after[1..] == RowLines(rows) + [TableClose, []];
    ReadRowsBack(rows, [TableClose, []]);
  }

  // ------------------------------------------------------------------- plain

  /** The cells of a grid in row-major order. */
  function Flatten(rows: seq<seq<string>>): seq<string> {
    if rows == [] then [] else rows[0] + Flatten(rows[1..])
  }

  lemma {:induction false} PlainCellsTerminated(row: seq<string>, d: char)
    ensures PlainCells(row, [d]) == Terminated(StripAll(row), d)
    decreases |row|
  {
    if row != [] {
      assert StripAll(row)[1..] == StripAll(row[1..]);
      PlainCellsTerminated(row[1..], d);
    }
  }

  /** With a one-character line ending, the plain rendering of an array is
      its stripped cells, row by row, each followed by the line ending. */
  lemma {:induction false} PlainMatrixTerminated(cells: seq<seq<string>>, d: char)
    ensures PlainMatrix(cells, [d]) == Terminated(Flatten(StripRows(cells)), d)
    decreases |cells|
  {
    if cells != [] {
      var s := StripRows(cells);
      assert s[0] == StripAll(cells[0]);
      assert s[1..] == StripRows(cells[1..]);
      PlainCellsTerminated(cells[0], d);
      PlainMatrixTerminated(cells[1..], d);
      TerminatedAppend(s[0], Flatten(s[1..]), d);
    }
  }

  lemma {:induction false} FlattenExcludes(rows: seq<seq<string>>, c: char)
    requires GridFree(rows, c)
    ensures Free(Flatten(rows), c)
    decreases |rows|
  {
    if rows != [] {
      FlattenExcludes(rows[1..], c);
      FreeAppend(rows[0], Flatten(rows[1..]), c);
    }
  }

  /** The plain rendering of an array with line breaks as line endings
      splits into its stripped cells in row-major order, one per line,
      provided no cell holds a line break. */
  lemma ReadPlainMatrix(cells: seq<seq<string>>)
    requires GridFree(cells, '\n')
    ensures Split(PlainMatrix(cells, "\n"), '\n') == Flatten(StripRows(cells)) + [[]]
  {
    PlainMatrixTerminated(cells, '\n');
    StripRowsExclude(cells, '\n');
    FlattenExcludes(StripRows(cells), '\n');
    SplitTerminated(Flatten(StripRows(cells)), '\n');
  }

  // ------------------------------------------------------------ Style.line

  /** Under a Markdown style, a DataFrame whose column names are `str`s
      renders as its pipe table, and that table reads back as the names and
      the cells, provided no name or cell holds a pipe or a line break. */
  lemma MarkdownLineReadsBack(st: Style, columns: seq<ColumnName>, rows: seq<seq<string>>, repr: string)
    requires st.fmt == Some("md") && TextLabels(Frame(columns, rows, repr))
    requires |columns| >= 1 && Free(NameTexts(columns), '|') && Free(NameTexts(columns), '\n')
    requires forall k :: 0 <= k < |rows| ==> |rows[k]| >= 1
    requires GridFree(rows, '|') && GridFree(rows, '\n')
    ensures Line(st, Elem(Frame(columns, rows, repr))).Ok?
    ensures ReadMarkdown(Line(st, Elem(Frame(columns, rows, repr))).value) == Some((NameTexts(columns), rows))
  {
    ReadMarkdownFrame(NameTexts(columns), rows);
  }

  /** Under an HTML style, any DataFrame (with distinct column names, as
      `Payloads.Frame` assumes) renders as its `<table>`, whose
      header reads back as `str()` of every column name and whose body reads
      back as the cells, provided none of them holds a line break. */
  lemma HtmlLineReadsBack(st: Style, columns: seq<ColumnName>, rows: seq<seq<string>>, repr: string)
    requires st.fmt == Some("html")
    requires Free(NameTexts(columns), '\n') && GridFree(rows, '\n')
    ensures Line(st, Elem(Frame(columns, rows, repr))).Ok?
    ensures ReadHtmlFrame(Line(st, Elem(Frame(columns, rows, repr))).value) == Some((NameTexts(columns), rows))
  {
    ReadHtmlFrameBack(NameTexts(columns), rows);
  }
}
