# logstyle in Dafny

A model of `logstyle`, a small Python logger. It retains every message logged through it and renders a styled report from them, in Markdown or HTML.

A `LogStyle` object has one method per level: `debug`, `info`, `warning`, `error` and `critical`. Each call does three things:
- it stamps the payload with the time;
- it appends a `LogEntry` to the object's list;
- it forwards the unstyled payload to a Python `logging` logger.

`report` then works in four steps:
- it filters the retained entries by level rank;
- it looks up the requested format in the style registry;
- it sorts the survivors by one of their attributes;
- it writes the format's header, the `output` of every entry, and the footer.

Each `output` is decorated by the `Style` registered for the entry's format and level. A payload may be a `str`, another object, a numpy array, a pandas DataFrame or a list of these. Two-dimensional arrays and DataFrames become pipe tables in Markdown and `<table>`s in HTML.

The model is functional. The object's state is a value that each operation takes and returns:
- a call returns the new state and the record of what the logger received;
- a report returns the document (or the Python exception it raises) and the list of entries as the report left it.

That second part is visible because `output` overwrites element 0 of a list payload in place.

Modules, in dependency order:
- `Results`: `Option`, `Result`, and the `Error` values. Each names the exception the Python code raises.
- `Text`: `str.strip` (Python whitespace), `upper`, `join`, `*` and `str(n)`.
- `Levels`: the five levels and the `LEVELS` table.
- `Clock`: the time stamp `strftime("%Y-%m-%d_%H:%M:%S")`.
- `LexOrder`: Python's string comparison.
- `Sorting`: the stable sort `sorted` performs.
- `Distinctness`: repetition-free sequences.
- `Payloads`: the payload shapes, and `LogEntry`.
- `Tables`: the table markup.
- `Styles`: `Style` with `line`, `message` and `output`.
- `Registry`: the registry `set_style` installs.
- `Engine`: `LogStyle` with the logging calls, `filter` and `report`.
- `Splitting` and `TableReading`: readers that recover the cells from the table markup. They invert the renderers (see the round-trip lemmas).

## Model

| member | source | states |
|---|---|---|
| Text.Strip | logstyle/src/logstyle.py:83 | `str(x).strip()` has no whitespace at either end. It is the slice of `x` left after dropping the maximal leading and trailing whitespace runs. |
| Text.StripIdempotent | logstyle/src/logstyle.py:62 | Stripping an already stripped cell changes nothing. |
| Text.StripChars | logstyle/src/logstyle.py:62 | Every character of a stripped cell occurs in the cell, so stripping never introduces a pipe or a line break. |
| Text.Decimal | logstyle/src/logstyle.py:59 | `str(i)` of a column index is a non-empty run of decimal digits. |
| Tables.ColumnLabels | logstyle/src/logstyle.py:59 | An array of `shape[1]` columns gets exactly `shape[1]` header labels. |
| Tables.MarkdownFrame | logstyle/src/logstyle.py:26-32 | The pipe table of a DataFrame. `TableReading.ReadMarkdownFrame` reads it back as the column names and the unstripped values. |
| Tables.MarkdownMatrix | logstyle/src/logstyle.py:57-63 | The pipe table of a 2-D array. `TableReading.ReadMarkdownMatrix` reads it back as the "Column i" labels and the stripped cells. |
| Tables.HtmlFrame | logstyle/src/logstyle.py:33-50 | The `<table>` of a DataFrame with distinct column names. `TableReading.ReadHtmlFrameBack` reads it back as the column names and the values. |
| Tables.HtmlMatrix | logstyle/src/logstyle.py:64-73 | The `<table>` of a 2-D array, with no header row. `TableReading.ReadHtmlMatrixBack` reads it back as the cells. |
| Tables.PlainMatrix | logstyle/src/logstyle.py:74-78 | One stripped cell per terminated line. `TableReading.ReadPlainMatrix` splits it back into the cells. |
| Levels.Rank | logstyle/src/logstyle.py:7 | A level's rank is its value in `LEVELS`. |
| Levels.ParseLevel | logstyle/src/logstyle.py:7 | A name resolves exactly when it is a key of `LEVELS`, and it resolves to the level with that name and rank. |
| Levels.NameRoundTrip | logstyle/src/logstyle.py:7 | Every level's name resolves back to that level. |
| Levels.RankTotalOrder | logstyle/src/logstyle.py:7 | Ranks separate the five levels and order them totally, from debug (0) to critical (4). |
| Clock.Strftime | logstyle/src/logstyle.py:12 | The time stamp is 19 characters wide. |
| Clock.TimeOrder | logstyle/src/logstyle.py:12 | One time stamp is less than another as a string exactly when its clock reading is earlier. Two stamps are equal exactly when the readings are. |
| LexOrder.Trichotomy | logstyle/src/logstyle.py:183 | Python's string `<` makes exactly one of `a < b`, `a == b`, `b < a` hold. |
| LexOrder.Transitive | logstyle/src/logstyle.py:183 | Python's string `<` is transitive. |
| Sorting.Sort | logstyle/src/logstyle.py:183 | `sorted` returns a permutation of its input, ordered by key. Elements with equal keys keep their input order. |
| Styles.NullStyle | logstyle/src/logstyle.py:17-21 | `Style()` has no format, no title, no prefix and a newline terminator. `Engine.SinkText` relies on it having no format, so the logger's text never fails to render. |
| Styles.Line | logstyle/src/logstyle.py:23-83 | `line` fails exactly on a DataFrame rendered as Markdown with a column name that is not a `str`, and then with TypeError. Its tables read back as their cells (`TableReading.MarkdownLineReadsBack`, `TableReading.HtmlLineReadsBack`). |
| Styles.Lines | logstyle/src/logstyle.py:87 | The elements of a list render left to right. The list renders exactly when every element does, and otherwise fails with TypeError. |
| Styles.Message | logstyle/src/logstyle.py:85-89 | `message` fails exactly when a Markdown style meets a DataFrame, alone or in the list, whose column names are not all `str`s. |
| Styles.Stored | logstyle/src/logstyle.py:92-96 | After `output` has merged the heading, a list headed by a `str` has element 0 replaced by the heading and keeps its other elements, whether or not rendering then fails. Every other payload is left alone. |
| Styles.Output | logstyle/src/logstyle.py:91-97 | `output` succeeds exactly when the payload is a `str` or a non-empty list headed by a `str`, and the style can render it. Otherwise it fails with IndexError for `[]`, with TypeError from the heading's join, or with TypeError from a Markdown DataFrame header. A `str` entry is left unchanged. A list has element 0 replaced by `time \| LEVEL \| text` and keeps its other elements. The title precedes the rendered message. |
| Styles.LinesAppend | logstyle/src/logstyle.py:85-89 | A list payload renders as the concatenation of its elements' renderings, and fails where its first failing element fails. |
| Styles.OutputHeadsFirstOnly | logstyle/src/logstyle.py:91-97 | For a list, the title and heading go with element 0 only. Every later element renders as `message` renders it. |
| Styles.OutputTwiceRepeatsHeading | logstyle/src/logstyle.py:93-94 | Writing a list entry twice stacks a second heading onto element 0, because the first `output` rewrote the stored list. |
| Styles.OutputSingleIsStable | logstyle/src/logstyle.py:95-96 | A `str` entry is never modified, so writing it again gives the same text. |
| Styles.VectorIgnoresFormat | logstyle/src/logstyle.py:53-55 | A one-dimensional array renders as its stripped `str()` plus the terminator, whatever the format, title or prefix, and never fails. |
| Styles.TablesIgnoreDecoration | logstyle/src/logstyle.py:23-78 | Markdown and HTML tables depend only on the format tag. The title, prefix and terminator do not affect them. |
| Styles.IntegerLabelsFailInMarkdown | logstyle/src/logstyle.py:28 | A DataFrame with the integer column names 0 and 1, logged after a `str`, fails in Markdown with TypeError once element 0 is rewritten. It renders in HTML, where each name goes through `%s`. |
| Registry.SetStyle | logstyle/src/logstyle.py:115-164 | The registry of `set_style`. `Registry.RegistryComplete` states that it holds exactly "md" and "html", each with a style for every level, tagged with its own format. |
| Registry.RegistryComplete | logstyle/src/logstyle.py:115-133 | Only "md" and "html" are registered. Each has a style for all five levels, tagged with its own format. |
| Registry.MarkdownTerminator | logstyle/src/logstyle.py:119-123 | In Markdown, each level's terminator closes the emphasis its prefix opens and ends in a hard line break. |
| Registry.HtmlTerminator | logstyle/src/logstyle.py:129-133 | In HTML, no level has a prefix, and every line ends in `<br>`. |
| Engine.Init | logstyle/src/logstyle.py:100-110 | A new object retains nothing and has the registry of `set_style`. `Engine.FreshReportIsEmpty` states what it reports. |
| Engine.Log | logstyle/src/logstyle.py:166-170 | A logging call appends exactly one entry to the end of the list, with the call's level, payload and time stamp. It leaves the registry alone and forwards the call's level and payload to the logger. |
| Engine.SinkText | logstyle/src/logstyle.py:170 | The logger receives the payload as the null style renders it. That style has no format, so this rendering never fails (`Styles.Message`). |
| Engine.SinkGetsRawText | logstyle/src/logstyle.py:170 | For a `str` payload, the logger receives the stripped text and a newline, with no time stamp or level tag. |
| Engine.LogAll | logstyle/src/logstyle.py:166-171 | A sequence of calls extends the list by one entry per call, in call order. The logger receives one line per call, in the same order. |
| Engine.SelectFrom | logstyle/src/logstyle.py:173-175 | The positions kept are ascending, and they are exactly those whose rank reaches the threshold. |
| Engine.Filter | logstyle/src/logstyle.py:173-175 | `filter` raises KeyError exactly when the level name is unknown and there is an entry to compare. Otherwise it returns the selected entries in retention order. |
| Engine.FilterKeepsExactly | logstyle/src/logstyle.py:174-175 | An entry is kept exactly when its rank is at least the threshold's, and the survivors stay in order. |
| Engine.FilterDefault | logstyle/src/logstyle.py:173-175 | `filter()` with its default `level='info'` never fails. It keeps exactly the entries above debug. |
| Engine.ParseSortKey | logstyle/src/logstyle.py:183 | `getattr(entry, order)` resolves exactly for "time", "level" and "msg". |
| Engine.Arrange | logstyle/src/logstyle.py:183 | Sorting the selected positions gives the same positions, ordered by key. Ties stay in retention order. |
| Engine.Plan | logstyle/src/logstyle.py:180-183 | The positions a report writes are every entry that passes the filter, each once, ordered by the sort key, with ties in retention order. |
| Engine.Write | logstyle/src/logstyle.py:184 | Writing an entry fails with KeyError when the format has no style for its level. Otherwise it is that style's `output`. It succeeds exactly when the style exists, the payload starts with a `str`, and the style can render the payload. |
| Engine.Emit | logstyle/src/logstyle.py:183-184 | The write loop keeps the list's length and every entry's time and level. It does not touch a position it does not write. |
| Engine.Outputs | logstyle/src/logstyle.py:183-184 | Writing a list of entries succeeds exactly when each entry can be written. |
| Engine.EmitIsSnapshot | logstyle/src/logstyle.py:183-184 | No position is written twice, so the loop writes exactly the outputs of the entries as they stood. Each written entry is left as its `output` left it. |
| Engine.EmitKeepsSingles | logstyle/src/logstyle.py:183-184 | When no payload is a list, the loop leaves the list of entries unchanged. |
| Engine.Report | logstyle/src/logstyle.py:177-185 | `report` keeps the registry, the number of entries and each entry's time and level. An unknown level name with entries present fails with KeyError before the format is looked up, and so does an unregistered format. Neither failure changes anything. |
| Engine.SelectionPasses | logstyle/src/logstyle.py:174-175 | The selection holds exactly the passing entries. It is non-empty exactly when one passes, and has two members exactly when two do. |
| Engine.ReportSucceedsExactly | logstyle/src/logstyle.py:177-185 | A report succeeds exactly under these conditions. The level name is known, or there are no entries. The format is registered. For the passing entries, the sort key is an attribute and compared `msg` payloads are `str`s. Each passing entry has a style, starts with a `str`, and can be rendered by that style: in Markdown, every DataFrame it holds has `str` column names. |
| Engine.WritableExactly | logstyle/src/logstyle.py:183-184 | Once sorted, the loop writes everything exactly when every passing entry can be written. |
| Engine.ReportDocument | logstyle/src/logstyle.py:180-185 | A report is the header, then the outputs of the passing entries in the sorted order, then the footer. Each written entry is left as its `output` left it. |
| Engine.NothingPassesReportsFrame | logstyle/src/logstyle.py:180-185 | With no entries, or none reaching the level, a report is exactly the header and the footer, under any registry and sort key, and the list is untouched. |
| Engine.ReportFramed | logstyle/src/logstyle.py:182-185 | Every successful report starts with the format's header and ends with its footer. |
| Engine.ReportIdempotentOnSingles | logstyle/src/logstyle.py:177-185 | When no payload is a list, a report changes nothing, and a second report gives the same document. |
| Engine.LevelKeyIsAlphabetical | logstyle/src/logstyle.py:183 | Sorting by `level` compares the names as strings, which disagrees with the `LEVELS` rank order. |
| Engine.TimeKeyIsChronological | logstyle/src/logstyle.py:183 | Sorting by `time` writes entries in chronological order. Entries from the same second keep their retention order. |
| Engine.ReportRewritesHead | logstyle/src/logstyle.py:94 | A report overwrites element 0 of every listed payload it writes with its heading, in the stored list, and leaves the other elements alone. |
| Engine.ReportTwiceRepeatsHeading | logstyle/src/logstyle.py:94 | A second report of the same list entry stacks a second heading onto element 0. |
| Engine.DefaultReportSucceedsExactly | logstyle/src/logstyle.py:115-133 | With the registry `set_style` installs, the conditions for a report to succeed reduce as follows. The format must be "md" or "html". Passing entries only need a sort key that resolves, `str` payloads where they are compared, payloads starting with a `str`, and, in Markdown, `str` column names on every DataFrame. No level ever lacks a style. |
| Engine.PlainFormatFails | logstyle/src/logstyle.py:182 | With the default registry, a report in any format other than "md" and "html", "plain" included, fails with KeyError and changes nothing, whenever the level check passes. |
| Engine.FreshReportIsEmpty | logstyle/src/logstyle.py:100-110 | A new object reports only the header and the footer, in both formats, whatever the level and sort key. |
| Engine.ReportDefault | logstyle/src/logstyle.py:177 | `report(fname)` with its defaults: Markdown, from `info` up, sorted by time. |
| Engine.ReportDefaultSucceedsExactly | logstyle/src/logstyle.py:177-185 | With the registry of `set_style`, `report(fname)` succeeds exactly when every entry above debug starts with a `str` and has `str` column names on every DataFrame. The document then opens with the Markdown header and closes with the Markdown footer. |
| TableReading.ReadMarkdownFrame | logstyle/src/logstyle.py:26-32 | The Markdown for a DataFrame reads back as its column names and records. This holds when there is at least one column, every record has a value, and no name or value holds a pipe or a line break. |
| TableReading.ReadMarkdownMatrix | logstyle/src/logstyle.py:57-63 | The Markdown for a 2-D array reads back as the "Column i" labels and the stripped cells. This holds when there is at least one column, every row has a cell, and no cell holds a pipe or a line break. |
| TableReading.ReadPipeBody | logstyle/src/logstyle.py:28 | A pipe-table line of pipe-free fields reads back as those fields. |
| TableReading.ReadHtmlFrameBack | logstyle/src/logstyle.py:33-50 | The HTML for a DataFrame reads back as its column names and records, when none of them holds a line break. |
| TableReading.ReadHtmlMatrixBack | logstyle/src/logstyle.py:64-73 | The HTML for a 2-D array reads back as its cells, row by row, when no cell holds a line break. |
| TableReading.ReadPlainMatrix | logstyle/src/logstyle.py:74-78 | The plain rendering of a 2-D array, with newline as terminator, splits into its stripped cells in row-major order, one per line. |
| TableReading.MarkdownLineReadsBack | logstyle/src/logstyle.py:25-32 | Under a Markdown style, `line` renders a DataFrame with `str` column names, and its output reads back as the names and the values. This holds when there is at least one column, every record has a value, and no name or value holds a pipe or a line break. |
| TableReading.HtmlLineReadsBack | logstyle/src/logstyle.py:33-50 | Under an HTML style, `line` renders any DataFrame with distinct column names, and its output reads back as `str()` of every column name and the values, when none of them holds a line break. |

Two behaviours of the code are worth stating on their own:
- The registry has only "md" and "html", so `report(..., fmt='plain')` raises KeyError (`Engine.PlainFormatFails`).
- The logger receives `null_style.message(msg)`, with no time stamp or level. A `str` payload goes out stripped, with a newline (`Engine.SinkGetsRawText`).

## Left out

- Writing the report file: `open(fname, 'w')` and the writes are replaced by the returned document. A report that fails part-way leaves a partly written file in Python; the model returns only the error.
- The `logging` logger (`logging.getLogger`, `setLevel`, `set_log`): the model records the level and payload each call forwards, and `Engine.SinkText` gives the text.
- `datetime.now()`: the clock reading is a parameter of every logging call.
- Years before 1000: `Clock.Valid` requires a four-digit year, because `%Y` padding of small years is platform-dependent.
- `str()` of numbers, numpy arrays and DataFrames: payloads carry the text `str()` produces, so numpy and pandas printing is not modelled. DataFrame column names are the exception: each also records whether it is a `str`, because Markdown joins them without `str()`.
- Tuples as DataFrame column names or values (a `MultiIndex`, say): `"%s" % k` would spread a tuple over the format, so names and values are taken to be single objects.
- Tables.HtmlFrame: column names are taken to be distinct. With a repeated name, `row[k]` at line 47 is a Series, and `"%s" % row[k]` writes its text into each `<td>` of that name; the model writes the single values instead, so HTML for such frames is not modelled.
- Arrays of rank three or more: only one- and two-dimensional arrays are modelled.
- The `group` argument of `report`: the code never uses it.
- Engine.Report: sorting by `msg` when some compared payload is not a `str` yields `UnorderedPayloads`, instead of modelling Python's mixed-type comparisons (some succeed, some raise TypeError).
- Engine.ParseSortKey: attributes of a `LogEntry` other than `time`, `level` and `msg` (such as `__class__`) are treated as missing.
- `add_level` with a name outside `LEVELS`: only the five levels the constructor installs are modelled.
- Aliasing: the caller keeps a reference to a list payload and sees the in-place rewrite. The model shows the rewrite in the returned entries only.
- Engine.EmitIsSnapshot: entries are values, so two retained entries never share one list object. In Python, `m = ["x"]; log.info(m); log.info(m)` retains one list twice, and a single report stacks the heading once on the first write and twice on the second. That case is not modelled.
- Engine.ReportDocument: the same limit applies. A list object logged twice is rendered here as two independent lists, each with one heading per report.
- The `__main__` demonstration block.
- macrospin_demo/spinanimation.py and h5utix.py are not part of this model.
