/** `sorted(entries, key=...)` on string keys: a stable insertion sort. Each
    element carries its key and its position in the retention list, so that
    stability (ties keep retention order) can be stated. */
module Sorting {
  import opened LexOrder

  datatype Keyed = Keyed(key: string, pos: nat)

  /** Keys never decrease along `s`. */
  predicate Sorted(s: seq<Keyed>) {
    forall i, j :: 0 <= i < j < |s| ==> LessEq(s[i].key, s[j].key)
  }

  /** Elements with equal keys appear in increasing position order. */
  predicate Stable(s: seq<Keyed>) {
    forall i, j :: 0 <= i < j < |s| && s[i].key == s[j].key ==> s[i].pos < s[j].pos
  }

  /** Positions strictly increase along `s`: the order of the retention list. */
  predicate Increasing(s: seq<Keyed>) {
    forall i, j :: 0 <= i < j < |s| ==> s[i].pos < s[j].pos
  }

  /** Places `x` after every element whose key is strictly smaller and before
      the rest, so `x` precedes the elements with an equal key. */
  function Insert(x: Keyed, ys: seq<Keyed>): (r: seq<Keyed>)
    requires Sorted(ys)
    ensures multiset(r) == multiset(ys) + multiset{x}
    ensures Sorted(r)
    ensures Stable(ys) && (forall k :: 0 <= k < |ys| ==> x.pos < ys[k].pos) ==> Stable(r)
    decreases |ys|
  {
    if ys == [] then [x]
    else if Less(ys[0].key, x.key) then
      var rest := Insert(x, ys[1..]);
      InsertAfterHead(x, ys, rest);
      [ys[0]] + rest
    else
      InsertBeforeHead(x, ys);
      [x] + ys
  }

  /** Elements of a sequence built from `ys` and `x` come from one of the two. */
  lemma MemberOf(z: Keyed, r: seq<Keyed>, ys: seq<Keyed>, x: Keyed)
    requires multiset(r) == multiset(ys) + multiset{x}
    requires z in r
    ensures z == x || z in ys
  {
    assert z in multiset(r);
  }

  lemma InsertAfterHead(x: Keyed, ys: seq<Keyed>, rest: seq<Keyed>)
    requires ys != [] && Sorted(ys) && Less(ys[0].key, x.key)
    requires multiset(rest) == multiset(ys[1..]) + multiset{x}
    requires Sorted(rest)
    requires Stable(ys) && (forall k :: 0 <= k < |ys| ==> x.pos < ys[k].pos) ==> Stable(rest)
    ensures multiset([ys[0]] + rest) == multiset(ys) + multiset{x}
    ensures Sorted([ys[0]] + rest)
    ensures Stable(ys) && (forall k :: 0 <= k < |ys| ==> x.pos < ys[k].pos) ==> Stable([ys[0]] + rest)
  {
    assert ys == [ys[0]] + ys[1..];
    var r := [ys[0]] + rest;
    forall j | 0 < j < |r|
      ensures LessEq(ys[0].key, r[j].key)
      ensures Stable(ys) && r[j].key == ys[0].key ==> ys[0].pos < r[j].pos
    {
      assert r[j] == rest[j - 1];
      HeadBelow(x, ys, rest, r[j]);
    }
    if Stable(ys) && (forall k :: 0 <= k < |ys| ==> x.pos < ys[k].pos) {
      StableTail(ys);
    }
  }

  /** Every element of the insertion into the tail sits at or above the head. */
  lemma HeadBelow(x: Keyed, ys: seq<Keyed>, rest: seq<Keyed>, z: Keyed)
    requires ys != [] && Sorted(ys) && Less(ys[0].key, x.key)
    requires multiset(rest) == multiset(ys[1..]) + multiset{x}
    requires z in rest
    ensures LessEq(ys[0].key, z.key)
    ensures Stable(ys) && z.key == ys[0].key ==> ys[0].pos < z.pos
  {
    MemberOf(z, rest, ys[1..], x);
    if z == x {
      Trichotomy(ys[0].key, x.key);
    } else {
      var k :| 0 <= k < |ys[1..]| && ys[1..][k] == z;
      assert ys[k + 1] == z;
    }
  }

  /** A tail of a stable sequence is stable. */
  lemma StableTail(ys: seq<Keyed>)
    requires ys != [] && Stable(ys)
    ensures Stable(ys[1..])
  {
    forall i, j | 0 <= i < j < |ys[1..]| && ys[1..][i].key == ys[1..][j].key
      ensures ys[1..][i].pos < ys[1..][j].pos
    {
      assert ys[1..][i] == ys[i + 1] && ys[1..][j] == ys[j + 1];
    }
  }

  lemma InsertBeforeHead(x: Keyed, ys: seq<Keyed>)
    requires ys != [] && Sorted(ys) && !Less(ys[0].key, x.key)
    ensures Sorted([x] + ys)
    ensures Stable(ys) && (forall k :: 0 <= k < |ys| ==> x.pos < ys[k].pos) ==> Stable([x] + ys)
  {
    Trichotomy(ys[0].key, x.key);
    var r := [x] + ys;
    forall j | 0 < j < |r|
      ensures LessEq(x.key, r[j].key)
    {
      assert r[j] == ys[j - 1];
      LessEqTransitive(x.key, ys[0].key, ys[j - 1].key);
    }
  }

  /** The stable sort `sorted(...)` performs, keyed by string comparison. */
  function Sort(xs: seq<Keyed>): (r: seq<Keyed>)
    ensures multiset(r) == multiset(xs)
    ensures Sorted(r)
    ensures Increasing(xs) ==> Stable(r)
    decreases |xs|
  {
    if xs == [] then []
    else
      var rest := Sort(xs[1..]);
      SortStep(xs, rest);
      Insert(xs[0], rest)
  }

  lemma SortStep(xs: seq<Keyed>, rest: seq<Keyed>)
    requires xs != []
    requires multiset(rest) == multiset(xs[1..])
    requires Increasing(xs[1..]) ==> Stable(rest)
    ensures Increasing(xs) ==> Stable(rest) && forall k :: 0 <= k < |rest| ==> xs[0].pos < rest[k].pos
    ensures multiset(xs[1..]) + multiset{xs[0]} == multiset(xs)
  {
    assert xs == [xs[0]] + xs[1..];
    if Increasing(xs) {
      assert Increasing(xs[1..]) by {
        forall i, j | 0 <= i < j < |xs[1..]| ensures xs[1..][i].pos < xs[1..][j].pos {
          assert xs[1..][i] == xs[i + 1] && xs[1..][j] == xs[j + 1];
        }
      }
      forall k | 0 <= k < |rest| ensures xs[0].pos < rest[k].pos {
        assert rest[k] in multiset(xs[1..]);
        var m :| 0 <= m < |xs[1..]| && xs[1..][m] == rest[k];
        assert xs[m + 1] == rest[k];
      }
    }
  }
}

