/** The capture time of an entry: a calendar time of second resolution and its
    rendering through `strftime("%Y-%m-%d_%H:%M:%S")`. The clock itself
    (`datetime.now()`) is an input of the model. */
module Clock {
  import opened Text
  import opened LexOrder

  datatype DateTime = DateTime(year: int, month: int, day: int, hour: int, minute: int, second: int)

  /** The field ranges `datetime` guarantees; years below 1000 are excluded
      because their `%Y` padding depends on the C library. */
  predicate Valid(t: DateTime) {
    && 1000 <= t.year <= 9999
    && 1 <= t.month <= 12
    && 1 <= t.day <= 31
    && 0 <= t.hour <= 23
    && 0 <= t.minute <= 59
    && 0 <= t.second <= 59
  }

  /** A zero-padded two-digit field (`%m`, `%d`, `%H`, `%M`, `%S`). */
  function Digits2(n: nat): (r: string)
    requires n < 100
    ensures |r| == 2
  {
    [Digit(n / 10), Digit(n % 10)]
  }

  /** A four-digit year (`%Y`). */
  function Digits4(n: nat): (r: string)
    requires n < 10000
    ensures |r| == 4
  {
    Digits2(n / 100) + Digits2(n % 100)
  }

  /** `now.strftime("%Y-%m-%d_%H:%M:%S")`. */
  function Strftime(t: DateTime): (r: string)
    requires Valid(t)
    ensures |r| == 19
  {
    Digits4(t.year) + "-" + Digits2(t.month) + "-" + Digits2(t.day)
    + "_" + Digits2(t.hour) + ":" + Digits2(t.minute) + ":" + Digits2(t.second)
  }

  /** Strictly earlier in calendar order. */
  predicate Before(a: DateTime, b: DateTime) {
    if a.year != b.year then a.year < b.year
    else if a.month != b.month then a.month < b.month
    else if a.day != b.day then a.day < b.day
    else if a.hour != b.hour then a.hour < b.hour
    else if a.minute != b.minute then a.minute < b.minute
    else a.second < b.second
  }

  lemma Digits2Order(a: nat, b: nat)
    requires a < 100 && b < 100
    ensures Less(Digits2(a), Digits2(b)) <==> a < b
    ensures Digits2(a) == Digits2(b) <==> a == b
  {
    var x, y := Digits2(a), Digits2(b);
    assert x[0] as int == '0' as int + a / 10 && y[0] as int == '0' as int + b / 10;
    assert x[1] as int == '0' as int + a % 10 && y[1] as int == '0' as int + b % 10;
    assert x[1..][1..] == [] && y[1..][1..] == [];
    assert Less(x[1..], y[1..]) <==> x[1] < y[1];
    assert Less(x, y) <==> x[0] < y[0] || (x[0] == y[0] && x[1] < y[1]);
    assert a == 10 * (a / 10) + a % 10 && b == 10 * (b / 10) + b % 10;
    if x == y {
      assert x[0] == y[0] && x[1] == y[1];
    }
  }

  lemma Digits4Order(a: nat, b: nat)
    requires a < 10000 && b < 10000
    ensures Less(Digits4(a), Digits4(b)) <==> a < b
    ensures Digits4(a) == Digits4(b) <==> a == b
  {
    Digits2Order(a / 100, b / 100);
    Digits2Order(a % 100, b % 100);
    LessBlocks(Digits2(a / 100), Digits2(a % 100), Digits2(b / 100), Digits2(b % 100));
    EqualBlocks(Digits2(a / 100), Digits2(a % 100), Digits2(b / 100), Digits2(b % 100));
    assert a == 100 * (a / 100) + a % 100 && b == 100 * (b / 100) + b % 100;
  }

  lemma EqualBlocks(a1: string, a2: string, b1: string, b2: string)
    requires |a1| == |b1|
    ensures a1 + a2 == b1 + b2 <==> a1 == b1 && a2 == b2
  {
    if a1 + a2 == b1 + b2 {
      assert a1 == (a1 + a2)[..|a1|] && b1 == (b1 + b2)[..|b1|];
      assert a2 == (a1 + a2)[|a1|..] && b2 == (b1 + b2)[|b1|..];
    }
  }

  /** Appending a separator and a two-digit field to two equal-width
      prefixes orders them by prefix first and field second. */
  lemma Extend(x: string, y: string, sep: string, u: nat, v: nat)
    requires |x| == |y| && u < 100 && v < 100
    ensures Less(x + sep + Digits2(u), y + sep + Digits2(v)) <==> Less(x, y) || (x == y && u < v)
    ensures x + sep + Digits2(u) == y + sep + Digits2(v) <==> x == y && u == v
  {
    Digits2Order(u, v);
    LessBlocks(x, sep, y, sep);
    Irreflexive(sep);
    EqualBlocks(x, sep, y, sep);
    LessBlocks(x + sep, Digits2(u), y + sep, Digits2(v));
    EqualBlocks(x + sep, Digits2(u), y + sep, Digits2(v));
  }

  /** Because every field is zero-padded to a fixed width, ordering entries
      by their time strings is ordering them by capture time. */
  lemma TimeOrder(a: DateTime, b: DateTime)
    requires Valid(a) && Valid(b)
    ensures Less(Strftime(a), Strftime(b)) <==> Before(a, b)
    ensures Strftime(a) == Strftime(b) <==> a == b
  {
    var ya, yb := Digits4(a.year), Digits4(b.year);
    Digits4Order(a.year, b.year);
    var a2, b2 := ya + "-" + Digits2(a.month), yb + "-" + Digits2(b.month);
    Extend(ya, yb, "-", a.month, b.month);
    var a3, b3 := a2 + "-" + Digits2(a.day), b2 + "-" + Digits2(b.day);
    Extend(a2, b2, "-", a.day, b.day);
    var a4, b4 := a3 + "_" + Digits2(a.hour), b3 + "_" + Digits2(b.hour);
    Extend(a3, b3, "_", a.hour, b.hour);
    var a5, b5 := a4 + ":" + Digits2(a.minute), b4 + ":" + Digits2(b.minute);
    Extend(a4, b4, ":", a.minute, b.minute);
    Extend(a5, b5, ":", a.second, b.second);
    assert Strftime(a) == a5 + ":" + Digits2(a.second);
    assert Strftime(b) == b5 + ":" + Digits2(b.second);
  }
}
