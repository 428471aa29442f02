/** `LogStyle`: the retention list, the per-level logging methods that
    `add_level` installs, `filter` and `report`. The object's state is a
    value threaded through explicitly; `report` returns the document instead
    of writing a file, and returns the state as `output` leaves it. */
module Engine {
  import opened Results
  import opened Levels
  import opened Clock
  import opened Payloads
  import opened Styles
  import opened Registry
  import opened LexOrder
  import opened Sorting
  import opened Distinctness

  /** The state of a `LogStyle` object: the retention list and the style
      registry, keyed by format name. */
  datatype LogStyle = LogStyle(data: seq<Entry>, style: map<string, Bucket>)

  /** `LogStyle()`: nothing retained, and the registry of `set_style`. */
  function Init(): LogStyle {
    LogStyle([], SetStyle())
  }

  /** One call on the injected logger: the method named after `level`,
      given the payload `msg` as the null style renders it. */
  datatype SinkCall = SinkCall(level: Level, msg: Payload)

  /** The text the logger receives. The null style has no format, so its
      `message` never fails. */
  function SinkText(c: SinkCall): string {
    Message(NullStyle(), c.msg).value
  }

  /** The state after a logging call, and what the logger was sent. */
  datatype Logged = Logged(state: LogStyle, sink: SinkCall)

  /** The method `add_level(level)` installs: stamp the payload with the
      clock reading, append the entry, and forward the payload rendered by
      the null style to the logger method of the same level. */
  function Log(ls: LogStyle, level: Level, msg: Payload, now: DateTime): (r: Logged)
    requires Valid(now)
    ensures r.state.style == ls.style
    ensures r.state.data == ls.data + [Entry(Strftime(now), level, msg)]
    ensures r.sink == SinkCall(level, msg)
  {
    var e := Entry(Strftime(now), level, msg);
    Logged(ls.(data := ls.data + [e]), SinkCall(level, msg))
  }

  /** The unstyled line forwarded to the logger carries the stripped payload
      only: no timestamp, no level tag. */
  lemma SinkGetsRawText(ls: LogStyle, level: Level, s: string, now: DateTime)
    requires Valid(now)
    ensures SinkText(Log(ls, level, Single(Str(s)), now).sink) == Text.Strip(s) + "\n"
  {
  }

  /** One logging call: which level method, what payload, what the clock read. */
  datatype Call = Call(level: Level, msg: Payload, now: DateTime)

  datatype Session = Session(state: LogStyle, sink: seq<SinkCall>)

  /** The entry a call appends. */
  function Record(c: Call): Entry
    requires Valid(c.now)
  {
    Entry(Strftime(c.now), c.level, c.msg)
  }

  /** A sequence of logging calls, in order: the list keeps the earlier
      entries and gains one entry per call, in call order, each with the
      call's level, payload and time; the logger gets one line per call. */
  function LogAll(ls: LogStyle, calls: seq<Call>): (r: Session)
    requires forall k :: 0 <= k < |calls| ==> Valid(calls[k].now)
    ensures r.state.style == ls.style
    ensures r.state.data == ls.data + seq(|calls|, k requires 0 <= k < |calls| => Record(calls[k]))
    ensures r.sink == seq(|calls|, k requires 0 <= k < |calls| => SinkCall(calls[k].level, calls[k].msg))
    decreases |calls|
  {
    if calls == [] then Session(ls, [])
    else
      var c := calls[0];
      var one := Log(ls, c.level, c.msg, c.now);
      var tail := calls[1..];
      var rest := LogAll(one.state, tail);
      CallsCons(calls);
      Session(rest.state, [one.sink] + rest.sink)
  }

  /** The per-call records and logger lines of `calls` are those of its
      first call followed by those of the rest. */
  lemma CallsCons(calls: seq<Call>)
    requires |calls| > 0
    requires forall k :: 0 <= k < |calls| ==> Valid(calls[k].now)
    ensures seq(|calls|, k requires 0 <= k < |calls| => Record(calls[k]))
            == [Record(calls[0])] + seq(|calls| - 1, k requires 0 <= k < |calls| - 1 => Record(calls[1..][k]))
    ensures seq(|calls|, k requires 0 <= k < |calls| => SinkCall(calls[k].level, calls[k].msg))
            == [SinkCall(calls[0].level, calls[0].msg)]
               + seq(|calls| - 1, k requires 0 <= k < |calls| - 1 => SinkCall(calls[1..][k].level, calls[1..][k].msg))
  {
  }

  /** Indices `i >= from` of the entries ranked at least `min`, ascending. */
  function SelectFrom(data: seq<Entry>, min: Level, from: nat): (r: seq<nat>)
    ensures forall k :: 0 <= k < |r| ==> from <= r[k] < |data|
    ensures forall i, j :: 0 <= i < j < |r| ==> r[i] < r[j]
    ensures forall i :: i in r <==> from <= i < |data| && Rank(data[i].level) >= Rank(min)
    decreases |data| - from
  {
    if from >= |data| then []
    else
      var rest := SelectFrom(data, min, from + 1);
      if Rank(data[from].level) >= Rank(min) then [from] + rest else rest
  }

  /** The positions `filter` keeps, in retention order. */
  function Selection(data: seq<Entry>, min: Level): seq<nat> {
    SelectFrom(data, min, 0)
  }

  /** The entries at the given positions. */
  function Pick(data: seq<Entry>, idx: seq<nat>): (r: seq<Entry>)
    requires forall k :: 0 <= k < |idx| ==> idx[k] < |data|
    ensures |r| == |idx|
  {
    seq(|idx|, k requires 0 <= k < |idx| => data[idx[k]])
  }

  /** `LogStyle.filter(level)`. The level name is looked up once per entry, so
      an unknown name fails only when there is an entry to compare. */
  function Filter(ls: LogStyle, level: string): (r: Result<seq<Entry>>)
    ensures r.Err? <==> |ls.data| > 0 && level !in LEVELS
    ensures r.Err? ==> r.error == UnknownLevel(level)
    ensures r.Ok? && |ls.data| > 0 ==>
              var sel := Selection(ls.data, ParseLevel(level).value);
              (forall k :: 0 <= k < |sel| ==> sel[k] < |ls.data|) && r.value == Pick(ls.data, sel)
    ensures r.Ok? && |ls.data| == 0 ==> r.value == []
  {
    var data := ls.data;
    if |data| == 0 then Ok([])
    else match ParseLevel(level)
      case None => Err(UnknownLevel(level))
      case Some(min) =>
        var sel := Selection(data, min);
        assert forall k :: 0 <= k < |sel| ==> sel[k] < |data| by {
          forall k | 0 <= k < |sel| ensures sel[k] < |data| {
            assert sel[k] in sel;
          }
        }
        Ok(Pick(data, sel))
  }

  /** `filter` keeps an entry exactly when its rank reaches the threshold,
      and keeps the survivors in retention order. */
  lemma FilterKeepsExactly(data: seq<Entry>, min: Level)
    ensures var sel := Selection(data, min);
            && (forall i, j :: 0 <= i < j < |sel| ==> sel[i] < sel[j])
            && (forall i :: 0 <= i < |data| ==> (i in sel <==> Rank(data[i].level) >= Rank(min)))
            && (forall k :: 0 <= k < |sel| ==> sel[k] < |data|)
  {
    var sel := Selection(data, min);
    forall k | 0 <= k < |sel| ensures sel[k] < |data| {
      assert sel[k] in sel;
    }
  }


  /** The attribute `report` sorts by: `'time'`, `'level'` or `'msg'`. */
  datatype SortKey = ByTime | ByLevel | ByMessage

  /** `getattr(entry, order)`: the attributes a `LogEntry` has. */
  function ParseSortKey(s: string): (r: Option<SortKey>)
    ensures r.Some? <==> s == "time" || s == "level" || s == "msg"
    ensures r == Some(ByTime) <==> s == "time"
    ensures r == Some(ByLevel) <==> s == "level"
  {
    if s == "time" then Some(ByTime)
    else if s == "level" then Some(ByLevel)
    else if s == "msg" then Some(ByMessage)
    else None
  }

  /** The payload is a single `str`. */
  predicate IsText(msg: Payload) {
    msg.Single? && msg.value.Str?
  }

  /** The sort key of an entry: its time text, its level NAME (so levels
      sort alphabetically, not by rank), or its text when the payload is a
      `str`. */
  function KeyOf(e: Entry, k: SortKey): string {
    match k
    case ByTime => e.time
    case ByLevel => Name(e.level)
    case ByMessage => if IsText(e.msg) then e.msg.value.text else ""
  }

  /** The sort compares no two payloads of the modelled kinds other than
      `str`s: a key other than `msg`, at most one entry, or only `str`
      payloads. */
  predicate Comparable(data: seq<Entry>, sel: seq<nat>, k: SortKey) {
    k != ByMessage || |sel| <= 1 || forall i :: i in sel ==> i < |data| && IsText(data[i].msg)
  }

  /** Positions strictly increase. */
  predicate Ascending(s: seq<nat>) {
    forall i, j :: 0 <= i < j < |s| ==> s[i] < s[j]
  }

  /** `sorted(entries, key=lambda x: getattr(x, order))`, on positions. */
  function Arrange(data: seq<Entry>, sel: seq<nat>, k: SortKey): (r: seq<nat>)
    requires forall m :: 0 <= m < |sel| ==> sel[m] < |data|
    ensures |r| == |sel|
    ensures forall x :: x in r <==> x in sel
    ensures forall m :: 0 <= m < |r| ==> r[m] < |data|
    ensures forall i, j :: 0 <= i < j < |r| ==> LessEq(KeyOf(data[r[i]], k), KeyOf(data[r[j]], k))
    ensures Ascending(sel) ==> Distinct(r)
    ensures Ascending(sel) ==>
              forall i, j :: 0 <= i < j < |r| && KeyOf(data[r[i]], k) == KeyOf(data[r[j]], k) ==> r[i] < r[j]
  {
    var keyed := seq(|sel|, m requires 0 <= m < |sel| => Keyed(KeyOf(data[sel[m]], k), sel[m]));
    var sorted := Sort(keyed);
    ArrangeFacts(data, sel, k, keyed, sorted);
    var r := seq(|sorted|, m requires 0 <= m < |sorted| => sorted[m].pos);
    assert forall x :: x in r <==> x in sel by {
      forall x ensures x in r <==> x in sel {
        if x in r {
          var m :| 0 <= m < |r| && r[m] == x;
          assert sorted[m].pos == x;
        }
        if x in sel {
          var m :| 0 <= m < |sorted| && sorted[m].pos == x;
          assert r[m] == x;
        }
      }
    }
    r
  }

  lemma ArrangeFacts(data: seq<Entry>, sel: seq<nat>, k: SortKey, keyed: seq<Keyed>, sorted: seq<Keyed>)
    requires forall m :: 0 <= m < |sel| ==> sel[m] < |data|
    requires keyed == seq(|sel|, m requires 0 <= m < |sel| => Keyed(KeyOf(data[sel[m]], k), sel[m]))
    requires multiset(sorted) == multiset(keyed) && Sorted(sorted)
    requires Increasing(keyed) ==> Stable(sorted)
    ensures |sorted| == |sel|
    ensures forall m :: 0 <= m < |sorted| ==> sorted[m].pos < |data| && sorted[m].key == KeyOf(data[sorted[m].pos], k)
    ensures forall x :: (exists m :: 0 <= m < |sorted| && sorted[m].pos == x) <==> x in sel
    ensures Ascending(sel) ==> Increasing(keyed) && Distinct(sorted)
  {
    assert |sorted| == |multiset(sorted)| == |multiset(keyed)| == |keyed|;
    forall m | 0 <= m < |sorted|
      ensures sorted[m].pos < |data| && sorted[m].key == KeyOf(data[sorted[m].pos], k)
      ensures sorted[m].pos in sel
    {
      assert sorted[m] in multiset(keyed);
      var n :| 0 <= n < |keyed| && keyed[n] == sorted[m];
    }
    forall x | x in sel ensures exists m :: 0 <= m < |sorted| && sorted[m].pos == x {
      var n :| 0 <= n < |sel| && sel[n] == x;
      assert keyed[n] in multiset(sorted);
      var m :| 0 <= m < |sorted| && sorted[m] == keyed[n];
    }
    if Ascending(sel) {
      assert Distinct(keyed);
      DistinctPermutation(keyed, sorted);
    }
  }

  /** The positions `report` writes, in the order it writes them, once the
      level and the sort key are known: every entry that passed, once each,
      ordered by key, ties in retention order. */
  function Plan(data: seq<Entry>, min: Level, k: SortKey): (r: seq<nat>)
    ensures |r| == |Selection(data, min)|
    ensures forall m :: 0 <= m < |r| ==> r[m] < |data|
    ensures Distinct(r)
    ensures forall x :: x in r <==> 0 <= x < |data| && Rank(data[x].level) >= Rank(min)
    ensures forall i, j :: 0 <= i < j < |r| ==> LessEq(KeyOf(data[r[i]], k), KeyOf(data[r[j]], k))
    ensures forall i, j :: 0 <= i < j < |r| && KeyOf(data[r[i]], k) == KeyOf(data[r[j]], k) ==> r[i] < r[j]
  {
    FilterKeepsExactly(data, min);
    Arrange(data, Selection(data, min), k)
  }

  /** The lookup and the `output` of an entry both succeed: the format has
      a style for the entry's level, the payload starts with a `str`, and
      that style can render the payload. */
  predicate Writes(b: Bucket, e: Entry) {
    e.level in b.styles && HasTextHead(e.msg) && Renderable(b.styles[e.level], e.msg)
  }

  /** The entry as writing it leaves it, whether or not the write succeeds:
      a failed lookup happens before `output` can touch it. */
  function Touched(b: Bucket, e: Entry): (r: Entry)
    ensures r.time == e.time && r.level == e.level
  {
    if e.level in b.styles then Stored(e) else e
  }

  /** `self.style[fmt][entry.level].output(entry)`. */
  function Write(b: Bucket, e: Entry): (r: Result<Emitted>)
    ensures r.Ok? <==> Writes(b, e)
    ensures e.level !in b.styles ==> r == Err(MissingStyle(Name(e.level)))
    ensures e.level in b.styles ==> r == Output(b.styles[e.level], e)
    ensures r.Ok? ==> r.value.entry == Touched(b, e)
    ensures r.Ok? ==> r.value.entry.time == e.time && r.value.entry.level == e.level
    ensures r.Ok? && e.msg.Single? ==> r.value.entry == e
  {
    if e.level in b.styles then Output(b.styles[e.level], e) else Err(MissingStyle(Name(e.level)))
  }

  /** The outcome of a report: the document or the first error, and the
      state as the rendering left it. */
  datatype Run = Run(doc: Result<string>, state: LogStyle)

  /** What the loop of `report` yields: the text written, or the first
      error, and the list as the writes left it. */
  datatype Pass = Pass(text: Result<string>, data: seq<Entry>)

  /** The loop of `report`: write each position in turn, each `output`
      seeing the list as the earlier ones left it. A failing write stops the
      loop, with the list as that write left it. */
  function Emit(b: Bucket, data: seq<Entry>, order: seq<nat>): (r: Pass)
    requires forall k :: 0 <= k < |order| ==> order[k] < |data|
    ensures |r.data| == |data|
    ensures forall i :: 0 <= i < |data| ==> r.data[i].time == data[i].time && r.data[i].level == data[i].level
    ensures forall i :: 0 <= i < |data| && i !in order ==> r.data[i] == data[i]
    decreases |order|
  {
    if order == [] then Pass(Ok(""), data)
    else
      var i := order[0];
      var data' := data[i := Touched(b, data[i])];
      match Write(b, data[i])
      case Err(e) => Pass(Err(e), data')
      case Ok(w) =>
        var rest := Emit(b, data', order[1..]);
        match rest.text
        case Err(e) => Pass(Err(e), rest.data)
        case Ok(s) => Pass(Ok(w.text + s), rest.data)
  }

  /** The outputs of a list of entries taken as they are, concatenated; the
      first failing entry's error otherwise. */
  function Outputs(b: Bucket, es: seq<Entry>): (r: Result<string>)
    ensures r.Ok? <==> forall k :: 0 <= k < |es| ==> Write(b, es[k]).Ok?
    decreases |es|
  {
    if es == [] then Ok("")
    else
      match Write(b, es[0])
      case Err(e) => Err(e)
      case Ok(w) =>
        match Outputs(b, es[1..])
        case Err(e) => Err(e)
        case Ok(s) => Ok(w.text + s)
  }

  /** Since no position is written twice, the in-place rewrites of earlier
      entries never reach a later one: the loop writes exactly the outputs of
      the entries as they stood, and leaves each written entry as its own
      `output` left it. */
  lemma {:induction false} EmitIsSnapshot(b: Bucket, data: seq<Entry>, order: seq<nat>)
    requires forall k :: 0 <= k < |order| ==> order[k] < |data|
    requires Distinct(order)
    ensures Emit(b, data, order).text == Outputs(b, Pick(data, order))
    ensures Emit(b, data, order).text.Ok? ==>
              forall k :: 0 <= k < |order| ==>
                Write(b, data[order[k]]).Ok?
                && Emit(b, data, order).data[order[k]] == Write(b, data[order[k]]).value.entry
    decreases |order|
  {
    if order != [] {
      var i := order[0];
      var es := Pick(data, order);
      assert es[0] == data[i] && es[1..] == Pick(data, order[1..]);
      var o := Write(b, data[i]);
      if o.Ok? {
        var data' := data[i := o.value.entry];
        var rest := order[1..];
        assert i !in rest by {
          forall k | 0 <= k < |rest| ensures rest[k] != i {
            assert rest[k] == order[k + 1];
          }
        }
        assert Distinct(rest) by {
          forall a, c | 0 <= a < c < |rest| ensures rest[a] != rest[c] {
            assert rest[a] == order[a + 1] && rest[c] == order[c + 1];
          }
        }
        assert Pick(data', rest) == Pick(data, rest) by {
          forall k | 0 <= k < |rest| ensures data'[rest[k]] == data[rest[k]] {
            assert rest[k] in rest;
          }
        }
        EmitIsSnapshot(b, data', rest);
        var r := Emit(b, data, order);
        assert r.data == Emit(b, data', rest).data;
        if r.text.Ok? {
          forall k | 0 <= k < |order|
            ensures Write(b, data[order[k]]).Ok?
            ensures r.data[order[k]] == Write(b, data[order[k]]).value.entry
          {
            if k == 0 {
              assert r.data[i] == data'[i];
            } else {
              assert order[k] == rest[k - 1];
              assert data'[order[k]] == data[order[k]];
            }
          }
        }
      }
    }
  }

  /** The loop leaves the list untouched when no entry holds a list. */
  lemma {:induction false} EmitKeepsSingles(b: Bucket, data: seq<Entry>, order: seq<nat>)
    requires forall k :: 0 <= k < |order| ==> order[k] < |data|
    requires forall i :: 0 <= i < |data| ==> data[i].msg.Single?
    ensures Emit(b, data, order).data == data
    decreases |order|
  {
    if order != [] {
      var i := order[0];
      assert Touched(b, data[i]) == data[i];
      UpdateSame(data, i, Touched(b, data[i]));
      if Write(b, data[i]).Ok? {
        EmitKeepsSingles(b, data, order[1..]);
        EmitWritten(b, data, order);
      }
    }
  }

  /** After a successful first write, the loop leaves the list as the rest
      of the loop leaves the updated list. */
  lemma EmitWritten(b: Bucket, data: seq<Entry>, order: seq<nat>)
    requires forall k :: 0 <= k < |order| ==> order[k] < |data|
    requires order != [] && Write(b, data[order[0]]).Ok?
    ensures Emit(b, data, order).data
            == Emit(b, data[order[0] := Write(b, data[order[0]]).value.entry], order[1..]).data
  {
  }

  lemma UpdateSame(data: seq<Entry>, i: nat, x: Entry)
    requires i < |data| && x == data[i]
    ensures data[i := x] == data
  {
  }

  /** `LogStyle.report(fname, fmt, level, order)`, less the file: filter by
      `level`, look the format up, sort by `order`, then write the header,
      each entry's `output` and the footer. */
  function Report(ls: LogStyle, fmt: string, level: string, order: string): (r: Run)
    ensures r.state.style == ls.style && |r.state.data| == |ls.data|
    ensures forall i :: 0 <= i < |ls.data| ==>
              r.state.data[i].time == ls.data[i].time && r.state.data[i].level == ls.data[i].level
    ensures |ls.data| > 0 && level !in LEVELS ==> r == Run(Err(UnknownLevel(level)), ls)
    ensures (|ls.data| == 0 || level in LEVELS) && fmt !in ls.style ==> r == Run(Err(UnknownFormat(fmt)), ls)
  {
    var data := ls.data;
    if |data| > 0 && ParseLevel(level).None? then Run(Err(UnknownLevel(level)), ls)
    else if fmt !in ls.style then Run(Err(UnknownFormat(fmt)), ls)
    else
      var b := ls.style[fmt];
      if |data| == 0 then Run(Ok(b.header + b.footer), ls)
      else
        var min := ParseLevel(level).value;
        var sel := Selection(data, min);
        if |sel| == 0 then Run(Ok(b.header + b.footer), ls)
        else match ParseSortKey(order)
          case None => Run(Err(UnknownSortKey(order)), ls)
          case Some(k) =>
            if !Comparable(data, sel, k) then Run(Err(UnorderedPayloads), ls)
            else
              var body := Emit(b, data, Plan(data, min, k));
              match body.text
              case Err(e) => Run(Err(e), ls.(data := body.data))
              case Ok(s) => Run(Ok(b.header + s + b.footer), ls.(data := body.data))
  }

  /** Entry `i` is ranked at least `min`. */
  predicate Passes(data: seq<Entry>, i: int, min: Level) {
    0 <= i < |data| && Rank(data[i].level) >= Rank(min)
  }

  /** Some entry passes the threshold. */
  ghost predicate AnyPasses(data: seq<Entry>, min: Level) {
    exists i :: Passes(data, i, min)
  }

  /** Two different entries pass the threshold. */
  ghost predicate TwoPass(data: seq<Entry>, min: Level) {
    exists i, j :: i != j && Passes(data, i, min) && Passes(data, j, min)
  }

  /** The selection holds exactly the entries that pass, and it has two
      members exactly when two different entries pass. */
  lemma SelectionPasses(data: seq<Entry>, min: Level)
    ensures var sel := Selection(data, min);
            && (forall i :: i in sel <==> Passes(data, i, min))
            && (|sel| > 0 <==> AnyPasses(data, min))
            && (|sel| > 1 <==> TwoPass(data, min))
  {
    var sel := Selection(data, min);
    FilterKeepsExactly(data, min);
    if |sel| > 0 {
      assert sel[0] in sel;
    }
    if |sel| > 1 {
      assert sel[0] in sel && sel[1] in sel && sel[0] < sel[1];
    }
    if i, j :| i != j && Passes(data, i, min) && Passes(data, j, min) {
      assert i in sel && j in sel;
      var a :| 0 <= a < |sel| && sel[a] == i;
      var c :| 0 <= c < |sel| && sel[c] == j;
      assert a != c;
    }
    if i :| Passes(data, i, min) {
      assert i in sel;
    }
  }

  /** Sorting by `msg` compares only `str` payloads. */
  ghost predicate TextsCompared(data: seq<Entry>, min: Level, k: SortKey) {
    k == ByMessage && TwoPass(data, min) ==> forall i :: Passes(data, i, min) ==> IsText(data[i].msg)
  }

  /** Every entry that passes has a style in the bucket, starts with a
      `str`, and can be rendered by that style. */
  ghost predicate Writable(b: Bucket, data: seq<Entry>, min: Level) {
    forall i :: Passes(data, i, min) ==> Writes(b, data[i])
  }

  /** `report` succeeds exactly when the level name is known (or there is no
      entry to compare it with), the format is registered, and, for the
      entries that pass: the sort key is an attribute, `msg` payloads
      compared by the sort are `str`s, and each entry has a style in the
      format, starts with a `str`, and can be rendered by that style. */
  lemma ReportSucceedsExactly(ls: LogStyle, fmt: string, level: string, order: string)
    ensures Report(ls, fmt, level, order).doc.Ok? <==>
              && (|ls.data| == 0 || level in LEVELS)
              && fmt in ls.style
              && (level in LEVELS ==>
                    var min := ParseLevel(level).value;
                    && (AnyPasses(ls.data, min) ==> ParseSortKey(order).Some?)
                    && (ParseSortKey(order).Some? ==> TextsCompared(ls.data, min, ParseSortKey(order).value))
                    && Writable(ls.style[fmt], ls.data, min))
  {
    var data := ls.data;
    if level in LEVELS {
      var min := ParseLevel(level).value;
      SelectionPasses(data, min);
      if |data| > 0 && fmt in ls.style {
        var sel := Selection(data, min);
        if |sel| > 0 && ParseSortKey(order).Some? {
          var k := ParseSortKey(order).value;
          if Comparable(data, sel, k) {
            WritableExactly(ls.style[fmt], data, min, Plan(data, min, k));
          }
        }
      }
    }
  }

  /** Once sorted, the loop writes everything exactly when every entry that
      passed can be written. */
  lemma WritableExactly(b: Bucket, data: seq<Entry>, min: Level, plan: seq<nat>)
    requires forall m :: 0 <= m < |plan| ==> plan[m] < |data|
    requires Distinct(plan)
    requires forall x :: x in plan <==> Passes(data, x, min)
    ensures Emit(b, data, plan).text.Ok? <==> Writable(b, data, min)
  {
    EmitIsSnapshot(b, data, plan);
    var es := Pick(data, plan);
    assert forall m :: 0 <= m < |es| ==> es[m] == data[plan[m]];
    PlanWritable(b, data, min, plan);
  }

  /** Writing the planned positions covers exactly the entries that pass. */
  lemma PlanWritable(b: Bucket, data: seq<Entry>, min: Level, plan: seq<nat>)
    requires forall m :: 0 <= m < |plan| ==> plan[m] < |data|
    requires forall x :: x in plan <==> Passes(data, x, min)
    ensures (forall m :: 0 <= m < |plan| ==> Writes(b, data[plan[m]])) <==> Writable(b, data, min)
  {
    if forall m :: 0 <= m < |plan| ==> Writes(b, data[plan[m]]) {
      forall i | Passes(data, i, min) ensures Writes(b, data[i]) {
        assert i in plan;
        var m :| 0 <= m < |plan| && plan[m] == i;
      }
    }
    if Writable(b, data, min) {
      forall m | 0 <= m < |plan| ensures Writes(b, data[plan[m]]) {
        assert plan[m] in plan;
      }
    }
  }

  /** A successful report is the format's header, then the `output` of every
      entry that passed the filter, taken as the entries stood, in the
      stable order of `Plan`, then the footer; each written entry is left as
      its `output` left it. */
  lemma ReportDocument(ls: LogStyle, fmt: string, level: string, order: string)
    requires |ls.data| > 0 && level in LEVELS && fmt in ls.style && ParseSortKey(order).Some?
    requires Comparable(ls.data, Selection(ls.data, ParseLevel(level).value), ParseSortKey(order).value)
    ensures var b := ls.style[fmt];
            var plan := Plan(ls.data, ParseLevel(level).value, ParseSortKey(order).value);
            var r := Report(ls, fmt, level, order);
            && r.doc == (match Outputs(b, Pick(ls.data, plan))
                         case Ok(s) => Ok(b.header + s + b.footer)
                         case Err(e) => Err(e))
            && (r.doc.Ok? ==>
                  forall k :: 0 <= k < |plan| ==>
                    Write(b, ls.data[plan[k]]).Ok?
                    && r.state.data[plan[k]] == Write(b, ls.data[plan[k]]).value.entry)
  {
    var data := ls.data;
    var b := ls.style[fmt];
    var min := ParseLevel(level).value;
    var plan := Plan(data, min, ParseSortKey(order).value);
    EmitIsSnapshot(b, data, plan);
    FilterKeepsExactly(data, min);
    if |Selection(data, min)| == 0 {
      assert Pick(data, plan) == [];
      assert b.header + "" + b.footer == b.header + b.footer;
    }
  }

  /** When nothing is retained, or no entry reaches the level, the report
      is just the format's header and footer, under any registry and any
      sort key, and the list is not touched. */
  lemma NothingPassesReportsFrame(ls: LogStyle, fmt: string, level: string, order: string)
    requires |ls.data| == 0 || level in LEVELS
    requires fmt in ls.style
    requires level in LEVELS ==> !AnyPasses(ls.data, ParseLevel(level).value)
    ensures Report(ls, fmt, level, order).doc == Ok(ls.style[fmt].header + ls.style[fmt].footer)
    ensures Report(ls, fmt, level, order).state.data == ls.data
  {
    if |ls.data| > 0 {
      SelectionPasses(ls.data, ParseLevel(level).value);
    }
  }

  /** Every successful report opens with the format's header and closes with
      its footer. */
  lemma ReportFramed(ls: LogStyle, fmt: string, level: string, order: string)
    requires Report(ls, fmt, level, order).doc.Ok?
    ensures fmt in ls.style
    ensures var b := ls.style[fmt];
            var d := Report(ls, fmt, level, order).doc.value;
            && |d| >= |b.header| + |b.footer|
            && d[..|b.header|] == b.header
            && d[|d| - |b.footer|..] == b.footer
  {
    var b := ls.style[fmt];
    var d := Report(ls, fmt, level, order).doc.value;
    var body :| d == b.header + body + b.footer;
    assert d[..|b.header|] == b.header;
    assert d[|d| - |b.footer|..] == b.footer;
  }

  /** When every payload is a single value, a report changes nothing, so
      reporting again with the same arguments gives the same document. */
  lemma ReportIdempotentOnSingles(ls: LogStyle, fmt: string, level: string, order: string)
    requires forall i :: 0 <= i < |ls.data| ==> ls.data[i].msg.Single?
    ensures Report(ls, fmt, level, order).state == ls
    ensures Report(Report(ls, fmt, level, order).state, fmt, level, order) == Report(ls, fmt, level, order)
  {
    var data := ls.data;
    if |data| > 0 && level in LEVELS && fmt in ls.style {
      var min := ParseLevel(level).value;
      var sel := Selection(data, min);
      if |sel| > 0 && ParseSortKey(order).Some? && Comparable(data, sel, ParseSortKey(order).value) {
        EmitKeepsSingles(ls.style[fmt], data, Plan(data, min, ParseSortKey(order).value));
      }
    }
  }

  /** Sorting by `level` compares level names as strings, which is not the
      rank order: alphabetically critical < debug < error < info < warning. */
  lemma LevelKeyIsAlphabetical()
    ensures Less(Name(Critical), Name(Debug)) && Rank(Debug) < Rank(Critical)
    ensures Less(Name(Debug), Name(Error)) && Less(Name(Error), Name(Info)) && Less(Name(Info), Name(Warning))
    ensures Less(Name(Error), Name(Warning)) && Rank(Warning) < Rank(Error)
  {
  }

  /** When every time text is the rendering of a clock reading, sorting by
      `time` writes the entries in chronological order, and entries logged
      in the same second keep their retention order. */
  lemma TimeKeyIsChronological(data: seq<Entry>, clock: seq<DateTime>, min: Level, plan: seq<nat>)
    requires |clock| == |data|
    requires forall i :: 0 <= i < |data| ==> Valid(clock[i]) && data[i].time == Strftime(clock[i])
    requires plan == Plan(data, min, ByTime)
    ensures forall a, c :: 0 <= a < c < |plan| ==> !Before(clock[plan[c]], clock[plan[a]])
    ensures forall a, c :: 0 <= a < c < |plan| && clock[plan[a]] == clock[plan[c]] ==> plan[a] < plan[c]
  {
    forall a, c | 0 <= a < c < |plan| ensures !Before(clock[plan[c]], clock[plan[a]]) {
      var x, y := plan[a], plan[c];
      assert LessEq(data[x].time, data[y].time);
      TimeOrder(clock[y], clock[x]);
      Trichotomy(data[x].time, data[y].time);
    }
  }

  /** A report rewrites element 0 of every listed payload it writes into
      its heading, in the stored list, and leaves the other elements alone. */
  lemma ReportRewritesHead(ls: LogStyle, fmt: string, level: string, order: string, i: nat)
    requires Report(ls, fmt, level, order).doc.Ok?
    requires level in LEVELS && Passes(ls.data, i, ParseLevel(level).value) && ls.data[i].msg.Items?
    ensures var e := ls.data[i];
            var e' := Report(ls, fmt, level, order).state.data[i];
            && e'.msg.Items? && |e'.msg.items| == |e.msg.items| > 0
            && e.msg.items[0].Elem? && e.msg.items[0].value.Str?
            && e'.msg.items[0] == Elem(Str(Heading(e, e.msg.items[0].value.text)))
            && e'.msg.items[1..] == e.msg.items[1..]
  {
    var data := ls.data;
    var min := ParseLevel(level).value;
    SelectionPasses(data, min);
    ReportSucceedsExactly(ls, fmt, level, order);
    var k := ParseSortKey(order).value;
    var b := ls.style[fmt];
    ReportDocument(ls, fmt, level, order);
    var plan := Plan(data, min, k);
    assert i in plan;
    var m :| 0 <= m < |plan| && plan[m] == i;
  }

  /** Reporting twice stacks a second heading onto element 0 of a listed
      payload, because the first report rewrote the stored list. */
  lemma ReportTwiceRepeatsHeading(ls: LogStyle, fmt: string, level: string, order: string, i: nat)
    requires Report(ls, fmt, level, order).doc.Ok?
    requires Report(Report(ls, fmt, level, order).state, fmt, level, order).doc.Ok?
    requires level in LEVELS && Passes(ls.data, i, ParseLevel(level).value) && ls.data[i].msg.Items?
    ensures var e := ls.data[i];
            var once := Report(ls, fmt, level, order).state;
            var twice := Report(once, fmt, level, order).state;
            && |e.msg.items| > 0 && e.msg.items[0].Elem? && e.msg.items[0].value.Str?
            && twice.data[i].msg.Items? && |twice.data[i].msg.items| > 0
            && twice.data[i].msg.items[0] == Elem(Str(Heading(e, Heading(e, e.msg.items[0].value.text))))
  {
    var once := Report(ls, fmt, level, order).state;
    ReportRewritesHead(ls, fmt, level, order, i);
    assert Passes(once.data, i, ParseLevel(level).value);
    ReportRewritesHead(once, fmt, level, order, i);
    assert Heading(once.data[i], once.data[i].msg.items[0].value.text)
           == Heading(ls.data[i], Heading(ls.data[i], ls.data[i].msg.items[0].value.text));
  }

  /** With the registry `set_style` installs, a report succeeds exactly
      when the level name is known (or nothing is retained), the format is
      "md" or "html", and, for the entries that pass, the sort key is an
      attribute, compared `msg` payloads are `str`s, every payload starts
      with a `str`, and in Markdown every DataFrame has `str` column names:
      no level lacks a style. */
  lemma DefaultReportSucceedsExactly(ls: LogStyle, fmt: string, level: string, order: string)
    requires ls.style == SetStyle()
    ensures Report(ls, fmt, level, order).doc.Ok? <==>
              && (|ls.data| == 0 || level in LEVELS)
              && (fmt == "md" || fmt == "html")
              && (level in LEVELS ==>
                    var min := ParseLevel(level).value;
                    && (AnyPasses(ls.data, min) ==> ParseSortKey(order).Some?)
                    && (ParseSortKey(order).Some? ==> TextsCompared(ls.data, min, ParseSortKey(order).value))
                    && (forall i :: Passes(ls.data, i, min) ==>
                          HasTextHead(ls.data[i].msg) && (fmt == "md" ==> TextLabelled(ls.data[i].msg))))
  {
    ReportSucceedsExactly(ls, fmt, level, order);
    RegistryComplete(fmt, Debug);
    if fmt in ls.style && level in LEVELS {
      var min := ParseLevel(level).value;
      forall i | Passes(ls.data, i, min)
        ensures Writes(ls.style[fmt], ls.data[i])
                <==> HasTextHead(ls.data[i].msg) && (fmt == "md" ==> TextLabelled(ls.data[i].msg))
      {
        RegistryComplete(fmt, ls.data[i].level);
      }
    }
  }

  /** Any format other than "md" and "html", "plain" included, fails on the
      registry lookup and leaves the object as it was. */
  lemma PlainFormatFails(ls: LogStyle, fmt: string, level: string, order: string)
    requires ls.style == SetStyle()
    requires fmt != "md" && fmt != "html"
    requires |ls.data| == 0 || level in LEVELS
    ensures Report(ls, fmt, level, order) == Run(Err(UnknownFormat(fmt)), ls)
  {
    RegistryComplete(fmt, Debug);
  }

  /** A fresh object reports just the header and the footer, whatever the
      level and the sort key. */
  lemma FreshReportIsEmpty(level: string, order: string)
    ensures Report(Init(), "md", level, order).doc == Ok(MarkdownHeader + MarkdownFooter)
    ensures Report(Init(), "html", level, order).doc == Ok(HtmlHeader + HtmlFooter)
  {
  }

  /** `filter()`, with its default `level='info'`: it never fails, and it
      keeps exactly the entries above debug, in retention order. */
  function FilterDefault(ls: LogStyle): (r: seq<Entry>)
    ensures Filter(ls, "info") == Ok(r)
    ensures forall e :: e in r ==> e in ls.data && e.level != Debug
    ensures forall i :: 0 <= i < |ls.data| && ls.data[i].level != Debug ==> ls.data[i] in r
  {
    FilterInfo(ls);
    Filter(ls, "info").value
  }

  lemma FilterInfo(ls: LogStyle)
    ensures Filter(ls, "info").Ok?
    ensures forall e :: e in Filter(ls, "info").value ==> e in ls.data && e.level != Debug
    ensures forall i :: 0 <= i < |ls.data| && ls.data[i].level != Debug ==> ls.data[i] in Filter(ls, "info").value
  {
    var r := Filter(ls, "info").value;
    if |ls.data| > 0 {
      var sel := Selection(ls.data, Info);
      FilterKeepsExactly(ls.data, Info);
      forall i | 0 <= i < |ls.data| && ls.data[i].level != Debug ensures ls.data[i] in r {
        var m :| 0 <= m < |sel| && sel[m] == i;
        assert r[m] == ls.data[i];
      }
    }
  }

  /** `report(fname)`, with its defaults `fmt='md'`, `level='info'` and
      `order='time'`. */
  function ReportDefault(ls: LogStyle): Run {
    Report(ls, "md", "info", "time")
  }

  /** With the registry `set_style` installs, `report(fname)` succeeds
      exactly when every entry above debug starts with a `str` and holds
      only DataFrames with `str` column names; it then opens with the
      Markdown header and closes with the Markdown footer. */
  lemma ReportDefaultSucceedsExactly(ls: LogStyle)
    requires ls.style == SetStyle()
    ensures ReportDefault(ls).doc.Ok? <==>
              forall i :: 0 <= i < |ls.data| && ls.data[i].level != Debug ==>
                HasTextHead(ls.data[i].msg) && TextLabelled(ls.data[i].msg)
    ensures ReportDefault(ls).doc.Ok? ==>
              var d := ReportDefault(ls).doc.value;
              && |d| >= |MarkdownHeader| + |MarkdownFooter|
              && d[..|MarkdownHeader|] == MarkdownHeader
              && d[|d| - |MarkdownFooter|..] == MarkdownFooter
  {
    DefaultReportSucceedsExactly(ls, "md", "info", "time");
    assert forall i :: Passes(ls.data, i, Info) <==> 0 <= i < |ls.data| && ls.data[i].level != Debug;
    if ReportDefault(ls).doc.Ok? {
      ReportFramed(ls, "md", "info", "time");
    }
  }
}
