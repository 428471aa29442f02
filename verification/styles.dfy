/** `Style`: the per-(format, level) decoration rule and the three rendering
    steps built on it: `line` (one value), `message` (a whole payload) and
    `output` (an entry, with its `time | LEVEL |` header merged in). */
module Styles {
  import opened Text
  import opened Results
  import opened Levels
  import opened Payloads
  import opened Tables

  /** `fmt` selects the table markup ("md", "html", anything else plain);
      `title` precedes an entry once; `prefix` opens and `EOL` closes every
      text line (there is no separate suffix: closing markup lives in `EOL`). */
  datatype Style = Style(fmt: Option<string>, title: string, prefix: string, EOL: string)

  /** `Style()` with its defaults: no format, no title, no prefix, newline. */
  function NullStyle(): Style {
    Style(None, "", "", "\n")
  }

  /** `prefix + str(x).strip() + EOL`. */
  function TextLine(st: Style, s: string): string {
    st.prefix + Strip(s) + st.EOL
  }

  /** A text line for every element of a nested list, in order. */
  function TextLines(st: Style, xs: seq<string>): string {
    if xs == [] then "" else TextLine(st, xs[0]) + TextLines(st, xs[1..])
  }

  /** The first failure of two renderings in turn, or their texts joined. */
  function Concat(x: Result<string>, y: Result<string>): Result<string> {
    match x
    case Err(e) => Err(e)
    case Ok(s) =>
      match y
      case Err(e) => Err(e)
      case Ok(u) => Ok(s + u)
  }

  /** `line` raises no TypeError on the item: it is not a DataFrame rendered
      as Markdown with a column name that is not a `str`. */
  predicate Renders(st: Style, item: Item) {
    st.fmt == Some("md") && item.Elem? ==> TextLabels(item.value)
  }

  /** `Style.line`: dispatch on the shape of one value, DataFrame first, then
      numpy array, then list, then anything else. Only the Markdown header
      of a DataFrame can fail: it joins the column names as they are, where
      every other cell and the HTML header go through `str()`. */
  function Line(st: Style, item: Item): (r: Result<string>)
    ensures r.Ok? <==> Renders(st, item)
    ensures r.Err? ==> r.error == LabelNotText
  {
    match item
    case Nested(xs) => Ok(TextLines(st, xs))
    case Elem(v) =>
      match v
      case Frame(columns, rows, repr) =>
        if st.fmt == Some("md") then
          if TextLabels(v) then Ok(MarkdownFrame(NameTexts(columns), rows)) else Err(LabelNotText)
        else if st.fmt == Some("html") then Ok(HtmlFrame(NameTexts(columns), rows))
        else Ok(Strip(repr) + st.EOL)
      case Vector(repr) => Ok(Strip(repr) + st.EOL)
      case Matrix(n, cells) =>
        if st.fmt == Some("md") then Ok(MarkdownMatrix(n, cells))
        else if st.fmt == Some("html") then Ok(HtmlMatrix(cells))
        else Ok(PlainMatrix(cells, st.EOL))
      case Str(s) => Ok(TextLine(st, s))
      case Scalar(repr) => Ok(TextLine(st, repr))
  }

  /** `"".join([self.line(item) for item in msg])`: the items are rendered
      left to right, and the first one that fails fails the whole list. */
  function Lines(st: Style, items: seq<Item>): (r: Result<string>)
    ensures r.Ok? <==> forall k :: 0 <= k < |items| ==> Renders(st, items[k])
    ensures r.Err? ==> r.error == LabelNotText
    decreases |items|
  {
    if items == [] then Ok("")
    else
      var rest := Lines(st, items[1..]);
      assert rest.Ok? <==> forall k :: 1 <= k < |items| ==> Renders(st, items[k]) by {
        forall k | 1 <= k < |items| ensures items[k] == items[1..][k - 1] {}
      }
      Concat(Line(st, items[0]), rest)
  }

  /** Every DataFrame the payload holds, on its own or as a list element,
      has `str` column names. */
  predicate TextLabelled(msg: Payload) {
    match msg
    case Single(v) => TextLabels(v)
    case Items(items) => forall k :: 0 <= k < |items| && items[k].Elem? ==> TextLabels(items[k].value)
  }

  /** `message` raises no TypeError under the style: only Markdown joins
      column names without `str()`. */
  predicate Renderable(st: Style, msg: Payload) {
    st.fmt == Some("md") ==> TextLabelled(msg)
  }

  /** `Style.message`: a list renders element by element, anything else as one line. */
  function Message(st: Style, msg: Payload): (r: Result<string>)
    ensures r.Ok? <==> Renderable(st, msg)
    ensures r.Err? ==> r.error == LabelNotText
  {
    match msg
    case Single(v) => Line(st, Elem(v))
    case Items(items) => Lines(st, items)
  }

  /** `" | ".join([entry.time, entry.level.upper(), s])`. */
  function Heading(e: Entry, s: string): string {
    e.time + " | " + Label(e.level) + " | " + s
  }

  /** The join in `output` succeeds exactly when the payload is a `str`, or a
      non-empty list whose first element is a `str`. */
  predicate HasTextHead(msg: Payload) {
    match msg
    case Single(v) => v.Str?
    case Items(items) => |items| > 0 && items[0].Elem? && items[0].value.Str?
  }

  /** What `output` writes, and the entry as it stands afterwards. */
  datatype Emitted = Emitted(text: string, entry: Entry)

  /** The entry as `output` leaves it, whether or not the rendering that
      follows the heading then fails: a list headed by a `str` has element 0
      overwritten in place with the heading, and any other payload is left
      alone (a single `str` is only replaced in a local variable). */
  function Stored(e: Entry): (r: Entry)
    ensures r.time == e.time && r.level == e.level
    ensures e.msg.Single? || !HasTextHead(e.msg) ==> r == e
    ensures e.msg.Items? && HasTextHead(e.msg) ==>
              && r.msg.Items?
              && |r.msg.items| == |e.msg.items|
              && r.msg.items[0] == Elem(Str(Heading(e, e.msg.items[0].value.text)))
              && r.msg.items[1..] == e.msg.items[1..]
    ensures HasTextHead(e.msg) ==> HasTextHead(r.msg) && (TextLabelled(r.msg) <==> TextLabelled(e.msg))
  {
    if e.msg.Items? && HasTextHead(e.msg) then
      var items := e.msg.items;
      var merged := items[0 := Elem(Str(Heading(e, items[0].value.text)))];
      assert forall k :: 1 <= k < |items| ==> merged[k] == items[k];
      e.(msg := Items(merged))
    else e
  }

  /** `self.title + self.message(msg)`, paired with the entry as it stands. */
  function Titled(st: Style, msg: Payload, e: Entry): (r: Result<Emitted>)
    ensures r.Ok? <==> Renderable(st, msg)
  {
    match Message(st, msg)
    case Err(x) => Err(x)
    case Ok(s) => Ok(Emitted(st.title + s, e))
  }

  /** `Style.output`. A single `str` is replaced, locally, by its heading; a
      list has element 0 overwritten in place with the heading. The
      heading's join fails first on a payload not headed by a `str`; then
      `message` can fail on a Markdown DataFrame header. */
  function Output(st: Style, e: Entry): (r: Result<Emitted>)
    ensures r.Ok? <==> HasTextHead(e.msg) && Renderable(st, e.msg)
    ensures r.Err? ==> r.error == (if e.msg == Items([]) then EmptyList
                                   else if !HasTextHead(e.msg) then HeaderNotText
                                   else LabelNotText)
    ensures r.Ok? ==> r.value.entry == Stored(e)
    ensures r.Ok? && e.msg.Items? ==> r.value.text == st.title + Message(st, r.value.entry.msg).value
    ensures r.Ok? && e.msg.Single? ==> r.value.text == st.title + TextLine(st, Heading(e, e.msg.value.text))
  {
    match e.msg
    case Single(v) =>
      if v.Str? then Titled(st, Single(Str(Heading(e, v.text))), e)
      else Err(HeaderNotText)
    case Items(items) =>
      if |items| == 0 then Err(EmptyList)
      else if items[0].Elem? && items[0].value.Str? then
        var e' := Stored(e);
        Titled(st, e'.msg, e')
      else Err(HeaderNotText)
  }

  /** A list renders as the concatenation of its parts: splitting a list
      payload anywhere splits its rendering at the same place, and the
      first failure comes from the first part when that part fails. */
  lemma {:induction false} LinesAppend(st: Style, a: seq<Item>, b: seq<Item>)
    ensures Lines(st, a + b) == Concat(Lines(st, a), Lines(st, b))
    decreases |a|
  {
    if a == [] {
      assert a + b == b;
      if Lines(st, b).Ok? {
        assert "" + Lines(st, b).value == Lines(st, b).value;
      }
    } else {
      var ab := a + b;
      assert ab[0] == a[0];
      assert ab[1..] == a[1..] + b;
      calc {
        Lines(st, ab);
        Concat(Line(st, a[0]), Lines(st, a[1..] + b));
        { LinesAppend(st, a[1..], b); }
        Concat(Line(st, a[0]), Concat(Lines(st, a[1..]), Lines(st, b)));
        { ConcatAssoc(Line(st, a[0]), Lines(st, a[1..]), Lines(st, b)); }
        Concat(Concat(Line(st, a[0]), Lines(st, a[1..])), Lines(st, b));
      }
    }
  }

  lemma ConcatAssoc(x: Result<string>, y: Result<string>, z: Result<string>)
    ensures Concat(x, Concat(y, z)) == Concat(Concat(x, y), z)
  {
    if x.Ok? && y.Ok? && z.Ok? {
      assert x.value + (y.value + z.value) == (x.value + y.value) + z.value;
    }
  }

  /** The title is written once, the heading goes into the first element
      only, and every later element renders exactly as `message` renders it
      without a heading. */
  lemma {:induction false} OutputHeadsFirstOnly(st: Style, e: Entry)
    requires e.msg.Items? && HasTextHead(e.msg) && Renderable(st, e.msg)
    ensures Output(st, e).Ok? && Lines(st, e.msg.items[1..]).Ok?
    ensures Output(st, e).value.text
            == st.title + TextLine(st, Heading(e, e.msg.items[0].value.text)) + Lines(st, e.msg.items[1..]).value
    ensures Message(st, e.msg) == Ok(TextLine(st, e.msg.items[0].value.text) + Lines(st, e.msg.items[1..]).value)
  {
    var items := e.msg.items;
    var merged := Stored(e).msg.items;
    var rest := Lines(st, items[1..]);
    RestRenders(st, items);
    var head := TextLine(st, Heading(e, items[0].value.text));
    LinesCons(st, merged);
    TextLineOk(st, Heading(e, items[0].value.text));
    assert merged[1..] == items[1..];
    assert Lines(st, merged) == Ok(head + rest.value);
    OutputOfList(st, e, head + rest.value);
    Assoc3(st.title, head, rest.value);
    LinesCons(st, items);
    TextLineOk(st, items[0].value.text);
  }

  /** `output` of a list headed by a `str` is the title and the rendering
      of the rewritten list. */
  lemma OutputOfList(st: Style, e: Entry, s: string)
    requires e.msg.Items? && HasTextHead(e.msg)
    requires Lines(st, Stored(e).msg.items) == Ok(s)
    ensures Output(st, e) == Ok(Emitted(st.title + s, Stored(e)))
  {
  }

  lemma Assoc3(a: string, b: string, c: string)
    ensures a + (b + c) == a + b + c
  {
  }

  /** When a Markdown style can render a list, it can render the list's tail. */
  lemma RestRenders(st: Style, items: seq<Item>)
    requires |items| > 0 && Renderable(st, Items(items))
    ensures Lines(st, items[1..]).Ok?
  {
    forall k | 0 <= k < |items[1..]| ensures Renders(st, items[1..][k]) {
      assert items[1..][k] == items[k + 1];
    }
  }

  lemma LinesCons(st: Style, items: seq<Item>)
    requires |items| > 0
    ensures Lines(st, items) == Concat(Line(st, items[0]), Lines(st, items[1..]))
  {
  }

  lemma TextLineOk(st: Style, s: string)
    ensures Line(st, Elem(Str(s))) == Ok(TextLine(st, s))
  {
  }

  /** Writing the same list entry twice stacks a second heading onto element
      0, because the first `output` rewrote the stored list. */
  lemma OutputTwiceRepeatsHeading(st: Style, st': Style, e: Entry)
    requires e.msg.Items? && HasTextHead(e.msg) && Renderable(st, e.msg) && Renderable(st', e.msg)
    ensures Output(st, e).Ok?
    ensures var e1 := Output(st, e).value.entry;
            Output(st', e1).Ok?
            && Output(st', e1).value.entry.msg.items[0]
               == Elem(Str(Heading(e, Heading(e, e.msg.items[0].value.text))))
  {
    var e1 := Output(st, e).value.entry;
    assert HasTextHead(e1.msg);
    assert Heading(e1, e1.msg.items[0].value.text) == Heading(e, Heading(e, e.msg.items[0].value.text));
  }

  /** A single `str` entry is never modified, so writing it again gives the
      same text. */
  lemma OutputSingleIsStable(st: Style, e: Entry)
    requires e.msg.Single? && HasTextHead(e.msg)
    ensures Output(st, e).Ok? && Output(st, e).value.entry == e
    ensures Output(st, Output(st, e).value.entry) == Output(st, e)
  {
  }

  /** A one-dimensional array renders the same under every style with the
      same line terminator: no prefix, no table markup. */
  lemma VectorIgnoresFormat(st: Style, st': Style, repr: string)
    requires st.EOL == st'.EOL
    ensures Line(st, Elem(Vector(repr))) == Line(st', Elem(Vector(repr)))
    ensures Line(st, Elem(Vector(repr))) == Ok(Strip(repr) + st.EOL)
  {
  }

  /** Markdown and HTML tables ignore the style's title, prefix and line
      terminator: only the format tag matters. */
  lemma TablesIgnoreDecoration(st: Style, st': Style, v: Value)
    requires v.Matrix? || v.Frame?
    requires st.fmt == st'.fmt && st.fmt in {Some("md"), Some("html")}
    ensures Line(st, Elem(v)) == Line(st', Elem(v))
  {
  }

  /** `pd.DataFrame(np.eye(2))` has the integers 0 and 1 as column names:
      logged after a `str`, it fails in Markdown with a TypeError, once the
      heading has been merged into the stored list, and renders in HTML. */
  lemma IntegerLabelsFailInMarkdown(md: Style, html: Style, e: Entry)
    requires md.fmt == Some("md") && html.fmt == Some("html")
    requires e.msg == Items([Elem(Str("t")),
                             Elem(Frame([OtherName("0"), OtherName("1")], [["1.0", "0.0"], ["0.0", "1.0"]], "eye"))])
    ensures Output(md, e) == Err(LabelNotText)
    ensures Stored(e).msg.items[0] == Elem(Str(Heading(e, "t")))
    ensures Output(html, e).Ok?
  {
    assert !e.msg.items[1].value.columns[0].StrName?;
  }
}
