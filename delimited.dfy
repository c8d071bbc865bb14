/**
 * Delimited text: a list of pieces written with a separator between them,
 * and the split that cuts such a text apart again. The interest form joins
 * each selection list with `", "` and the profile page splits it again; the
 * offer table writes its weekdays as `SEG-QUA-SEX`.
 */
module Delimited {

  /** `Array.prototype.join(sep)` and Python's `sep.join`: the empty list gives the empty string. */
  function Join(xs: seq<string>, sep: string): string
    decreases |xs|
  {
    if |xs| == 0 then ""
    else if |xs| == 1 then xs[0]
    else xs[0] + sep + Join(xs[1..], sep)
  }

  /**
   * `String.prototype.split(sep)` and Python's `str.split(sep)`: the pieces
   * between the leftmost non-overlapping occurrences of `sep`; a text
   * without `sep`, the empty text included, is one piece.
   */
  function Split(s: string, sep: string): (r: seq<string>)
    requires |sep| >= 1
    ensures |r| >= 1
    decreases |s|
  {
    if |s| < |sep| then [s]
    else if s[..|sep|] == sep then [""] + Split(s[|sep|..], sep)
    else
      var rest := Split(s[1..], sep);
      [[s[0]] + rest[0]] + rest[1..]
  }

  /** A text in which the separator's first character never occurs is not cut. */
  lemma {:induction false} SplitWithoutSeparator(s: string, sep: string)
    requires |sep| >= 1 && sep[0] !in s
    ensures Split(s, sep) == [s]
    decreases |s|
  {
    if |s| >= |sep| {
      assert s[..|sep|][0] == s[0] != sep[0];
      SplitWithoutSeparator(s[1..], sep);
      assert [s[0]] + s[1..] == s;
    }
  }

  /** The first separator after a piece free of its first character is where the cut happens. */
  lemma {:induction false} SplitAfterPiece(x: string, t: string, sep: string)
    requires |sep| >= 1 && sep[0] !in x
    ensures Split(x + sep + t, sep) == [x] + Split(t, sep)
    decreases |x|
  {
    var s := x + sep + t;
    if x == [] {
      assert s == sep + t;
      assert s[..|sep|] == sep;
      assert s[|sep|..] == t;
    } else {
      assert x[0] != sep[0];
      SplitAfterPiece(x[1..], t, sep);
      assert s[1..] == x[1..] + sep + t;
      assert s[..|sep|][0] == x[0];
      assert [x[0]] + x[1..] == x;
    }
  }

  /**
   * Round trip: splitting a join recovers the list exactly, provided the
   * list is non-empty and no piece contains the separator's first character.
   */
  lemma {:induction false} SplitJoin(xs: seq<string>, sep: string)
    requires |xs| >= 1 && |sep| >= 1
    requires forall i :: 0 <= i < |xs| ==> sep[0] !in xs[i]
    ensures Split(Join(xs, sep), sep) == xs
    decreases |xs|
  {
    if |xs| == 1 {
      SplitWithoutSeparator(xs[0], sep);
    } else {
      SplitJoin(xs[1..], sep);
      SplitAfterPiece(xs[0], Join(xs[1..], sep), sep);
      assert [xs[0]] + xs[1..] == xs;
    }
  }

  /** The empty list does not survive the round trip: it comes back as one empty piece. */
  lemma SplitJoinEmpty(sep: string)
    requires |sep| >= 1
    ensures Split(Join([], sep), sep) == [""]
  {
  }
}
