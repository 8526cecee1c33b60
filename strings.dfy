/** `Array.prototype.join` and `String.prototype.split` on a one-character
    separator, and the facts that relate them. */
module Strings {

  /** `xs.join(sep)`: the empty list joins to "", one element to itself. */
  function Join(xs: seq<string>, sep: string): string
  {
    if |xs| == 0 then "" else if |xs| == 1 then xs[0] else xs[0] + sep + Join(xs[1..], sep)
  }

  /** `s.split(c)`: the pieces between occurrences of c; there is always one
      more piece than there are occurrences. */
  function Split(s: string, c: char): (r: seq<string>)
    ensures |r| >= 1
    decreases |s|
  {
    if |s| == 0 then [""]
    else
      var rest := Split(s[1..], c);
      if s[0] == c then [""] + rest else [[s[0]] + rest[0]] + rest[1..]
  }

  predicate NoneContains(xs: seq<string>, c: char) {
    forall i :: 0 <= i < |xs| ==> c !in xs[i]
  }

  lemma {:induction false} JoinAppend(xs: seq<string>, ys: seq<string>, sep: string)
    requires |xs| >= 1 && |ys| >= 1
    ensures Join(xs + ys, sep) == Join(xs, sep) + sep + Join(ys, sep)
    decreases |xs|
  {
    if |xs| == 1 {
      assert (xs + ys)[1..] == ys;
    } else {
      assert (xs + ys)[1..] == xs[1..] + ys;
      JoinAppend(xs[1..], ys, sep);
    }
  }

  lemma {:induction false} SplitWithout(x: string, c: char)
    requires c !in x
    ensures Split(x, c) == [x]
    decreases |x|
  {
    if |x| > 0 {
      SplitWithout(x[1..], c);
      assert [x[0]] + x[1..] == x;
    }
  }

  /** A piece free of the separator, followed by the separator, splits off as
      the first piece. */
  lemma {:induction false} SplitPiece(x: string, c: char, tail: string)
    requires c !in x
    ensures Split(x + [c] + tail, c) == [x] + Split(tail, c)
    decreases |x|
  {
    var s := x + [c] + tail;
    if |x| == 0 {
      assert s[1..] == tail;
    } else {
      assert s[1..] == x[1..] + [c] + tail;
      SplitPiece(x[1..], c, tail);
      assert [x[0]] + x[1..] == x;
    }
  }

  /** Splitting a join recovers the pieces when none of them holds the
      separator. */
  lemma {:induction false} SplitJoin(xs: seq<string>, c: char)
    requires |xs| >= 1 && NoneContains(xs, c)
    ensures Split(Join(xs, [c]), c) == xs
    decreases |xs|
  {
    if |xs| == 1 {
      SplitWithout(xs[0], c);
    } else {
      SplitPiece(xs[0], c, Join(xs[1..], [c]));
      SplitJoin(xs[1..], c);
      assert [xs[0]] + xs[1..] == xs;
    }
  }

  /** Joining the pieces of a split with the same separator gives the string
      back. */
  lemma {:induction false} JoinSplit(s: string, c: char)
    ensures Join(Split(s, c), [c]) == s
    decreases |s|
  {
    if |s| > 0 {
      var rest := Split(s[1..], c);
      JoinSplit(s[1..], c);
      if s[0] == c {
        assert ([""] + rest)[1..] == rest;
      } else if |rest| == 1 {
        assert [s[0]] + s[1..] == s;
      } else {
        var r := [[s[0]] + rest[0]] + rest[1..];
        assert r[1..] == rest[1..];
        assert [s[0]] + s[1..] == s;
      }
    }
  }

  /** A character that is in no piece and not in the separator is not in the
      join. */
  lemma {:induction false} JoinAvoids(xs: seq<string>, sep: string, c: char)
    requires NoneContains(xs, c) && c !in sep
    ensures c !in Join(xs, sep)
    decreases |xs|
  {
    if |xs| > 1 {
      JoinAvoids(xs[1..], sep, c);
    }
  }
}
