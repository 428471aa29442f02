/** Failure-carrying results for the operations of the log engine.
    Each error names the Python exception that `logstyle` raises. */
module Results {

  datatype Option<+T> = None | Some(value: T)

  /** Why an operation of the engine fails. */
  datatype Error =
    /** KeyError on `LEVELS[level]`: the level name is not one of the five. */
    | UnknownLevel(name: string)
    /** KeyError on `self.style[fmt]`: the format is not registered. */
    | UnknownFormat(name: string)
    /** KeyError on `self.style[fmt][entry.level]`: the format has no style
        for the entry's level. */
    | MissingStyle(name: string)
    /** AttributeError on `getattr(entry, order)`: the entry has no such sort key. */
    | UnknownSortKey(name: string)
    /** Sorting by `msg` when some payload to be compared is not a `str`:
        Python's comparisons between mixed payloads are not modelled. */
    | UnorderedPayloads
    /** TypeError from `" | ".join(...)`: the payload (or its first element) is not a str. */
    | HeaderNotText
    /** IndexError from `msg[0]` on an empty list payload. */
    | EmptyList
    /** TypeError from `' | '.join(...)` over the column names of a
        DataFrame rendered as Markdown: some name is not a str. */
    | LabelNotText

  datatype Result<+T> = Ok(value: T) | Err(error: Error)
}
