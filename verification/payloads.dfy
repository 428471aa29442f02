/** What a logging call records: the payload shapes the renderer dispatches
    on, and the retained entry. Anything Python would pass through `str()`
    (numbers, numpy scalars, the repr of an array or a DataFrame) is held as
    the text `str()` already produced. A DataFrame's column names are the
    exception: Markdown joins them without `str()`, so whether each one is a
    `str` is kept as well. */
module Payloads {
  import opened Levels

  /** A DataFrame column name: a `str`, or any other object (the integer
      labels `pd.DataFrame(np.eye(2))` gets, say), as `str(name)`. */
  datatype ColumnName = StrName(text: string) | OtherName(repr: string)

  /** `str(name)`, which is what `"%s" % name` writes. */
  function NameText(c: ColumnName): string {
    match c
    case StrName(s) => s
    case OtherName(s) => s
  }

  /** `str()` of every column name, in order. */
  function NameTexts(cs: seq<ColumnName>): (r: seq<string>)
    ensures |r| == |cs|
    ensures forall k :: 0 <= k < |cs| ==> r[k] == NameText(cs[k])
  {
    seq(|cs|, k requires 0 <= k < |cs| => NameText(cs[k]))
  }

  datatype Value =
    /** A Python `str`. */
    | Str(text: string)
    /** Any other object outside the shapes below (a number, say), as `str(obj)`. */
    | Scalar(repr: string)
    /** A one-dimensional numpy array, as `str(array)`. */
    | Vector(repr: string)
    /** A two-dimensional numpy array: `shape[1]` and `str()` of every cell, row by row. */
    | Matrix(ncols: nat, cells: seq<seq<string>>)
    /** A pandas DataFrame: its column names, taken to be distinct, `str()` of
        every value row by row in column order, and `str(frame)`. */
    | Frame(columns: seq<ColumnName>, rows: seq<seq<string>>, repr: string)

  /** The value is not a DataFrame, or every column name of it is a `str`. */
  predicate TextLabels(v: Value) {
    v.Frame? ==> forall k :: 0 <= k < |v.columns| ==> v.columns[k].StrName?
  }

  /** One element of a list payload; a list nested inside it keeps only the
      `str()` of its own elements. */
  datatype Item = Elem(value: Value) | Nested(reprs: seq<string>)

  /** The `msg` a logging call receives: a list, or a single value. */
  datatype Payload = Single(value: Value) | Items(items: seq<Item>)

  /** `LogEntry`: capture time as `%Y-%m-%d_%H:%M:%S` text, level and payload. */
  datatype Entry = Entry(time: string, level: Level, msg: Payload)
}
