/** Splitting a string at a delimiter character, and its inverse for
    delimiter-free fields. These are the tools the table readers use to
    recover the cells a renderer laid out. */
module Splitting {

  /** Python's `s.split(d)` for a one-character delimiter: the fields between
      consecutive delimiters, always at least one. */
  function Split(s: string, d: char): (r: seq<string>)
    ensures |r| >= 1
  {
    if s == [] then [[]]
    else
      var rest := Split(s[1..], d);
      if s[0] == d then [[]] + rest else [[s[0]] + rest[0]] + rest[1..]
  }

  /** Each string of `ls` followed by the delimiter, concatenated: the shape
      of text built by repeated `out += line + "\n"`. */
  function Terminated(ls: seq<string>, d: char): string {
    if ls == [] then "" else ls[0] + [d] + Terminated(ls[1..], d)
  }

  /** No string of `ls` contains `d`. */
  predicate Free(ls: seq<string>, d: char) {
    forall k :: 0 <= k < |ls| ==> d !in ls[k]
  }

  /** A delimiter-free field followed by the delimiter splits off as one field. */
  lemma {:induction false} SplitAfter(p: string, d: char, rest: string)
    requires d !in p
    ensures Split(p + [d] + rest, d) == [p] + Split(rest, d)
    decreases |p|
  {
    var s := p + [d] + rest;
    if p == [] {
      assert s[0] == d && s[1..] == rest;
    } else {
      assert s[0] == p[0];
      assert s[1..] == p[1..] + [d] + rest;
      SplitAfter(p[1..], d, rest);
      assert [p[0]] + p[1..] == p;
    }
  }

  /** Splitting terminated lines gives the lines back, plus the empty field
      after the last delimiter. */
  lemma {:induction false} SplitTerminated(ls: seq<string>, d: char)
    requires Free(ls, d)
    ensures Split(Terminated(ls, d), d) == ls + [[]]
    decreases |ls|
  {
    if ls != [] {
      assert Free(ls[1..], d) by {
        forall k | 0 <= k < |ls[1..]| ensures d !in ls[1..][k] {
          assert ls[1..][k] == ls[k + 1];
        }
      }
      SplitAfter(ls[0], d, Terminated(ls[1..], d));
      SplitTerminated(ls[1..], d);
      assert [ls[0]] + (ls[1..] + [[]]) == ls + [[]];
    }
  }

  lemma {:induction false} TerminatedAppend(a: seq<string>, b: seq<string>, d: char)
    ensures Terminated(a + b, d) == Terminated(a, d) + Terminated(b, d)
    decreases |a|
  {
    if a == [] {
      assert a + b == b;
    } else {
      assert (a + b)[0] == a[0];
      assert (a + b)[1..] == a[1..] + b;
      TerminatedAppend(a[1..], b, d);
    }
  }

  /** A leading delimiter contributes one empty field. */
  lemma SplitLeading(d: char, rest: string)
    ensures Split([d] + rest, d) == [[]] + Split(rest, d)
  {
    assert ([d] + rest)[1..] == rest;
  }
}
