/**
 * String helpers shared by the model: prefix tests, `Array.prototype.join`
 * and `String.prototype.split` with a one-character separator.
 */
module Strings {

  /** `t.startsWith(p)` */
  predicate StartsWith(t: string, p: string) {
    |p| <= |t| && t[..|p|] == p
  }

  /** A string that differs from `p` at some position inside both does not start with `p`. */
  lemma NotPrefixed(t: string, p: string, k: nat)
    requires k < |t| && k < |p| && t[k] != p[k]
    ensures !StartsWith(t, p)
  {
  }

  /** `xs.join(sep)`: the elements with `sep` between neighbours. */
  function Join(xs: seq<string>, sep: string): string {
    if |xs| == 0 then ""
    else if |xs| == 1 then xs[0]
    else xs[0] + sep + Join(xs[1..], sep)
  }

  /**
   * `s.split(sep)` for a one-character separator: the maximal pieces between
   * separators, so there is always at least one piece and `"".split(".")`
   * is `[""]`.
   */
  function Split(s: string, sep: char): (r: seq<string>)
    ensures |r| >= 1
    ensures forall i :: 0 <= i < |r| ==> sep !in r[i]
    decreases |s|
  {
    if |s| == 0 then [""]
    else if s[0] == sep then [""] + Split(s[1..], sep)
    else
      var rest := Split(s[1..], sep);
      [[s[0]] + rest[0]] + rest[1..]
  }

  /** Joining the pieces of a split with the separator gives back the string. */
  lemma {:induction false} JoinSplit(s: string, sep: char)
    ensures Join(Split(s, sep), [sep]) == s
    decreases |s|
  {
    if |s| == 0 {
    } else if s[0] == sep {
      JoinSplit(s[1..], sep);
      assert s == [sep] + s[1..];
    } else {
      var rest := Split(s[1..], sep);
      JoinSplit(s[1..], sep);
      if |rest| == 1 {
        assert Split(s, sep) == [[s[0]] + rest[0]];
        assert s == [s[0]] + s[1..];
      } else {
        var r := Split(s, sep);
        assert r[1..] == rest[1..];
        assert Join(rest, [sep]) == rest[0] + [sep] + Join(rest[1..], [sep]);
        assert Join(r, [sep]) == r[0] + [sep] + Join(r[1..], [sep]);
        assert s == [s[0]] + s[1..];
      }
    }
  }

  /** Splitting a string that starts with a separator-free word `w`. */
  lemma {:induction false} SplitAfterWord(w: string, tail: string, sep: char)
    requires sep !in w
    ensures Split(w + tail, sep) == [w + Split(tail, sep)[0]] + Split(tail, sep)[1..]
    decreases |w|
  {
    if |w| > 0 {
      SplitAfterWord(w[1..], tail, sep);
      assert (w + tail)[1..] == w[1..] + tail;
      assert (w + tail)[0] == w[0];
      assert [w[0]] + (w[1..] + Split(tail, sep)[0]) == w + Split(tail, sep)[0];
    } else {
      var r := Split(tail, sep);
      assert w + tail == tail;
      assert w + r[0] == r[0];
      assert r == [r[0]] + r[1..];
    }
  }

  /** Splitting a join of separator-free words gives back the words. */
  lemma {:induction false} SplitJoin(xs: seq<string>, sep: char)
    requires |xs| >= 1
    requires forall i :: 0 <= i < |xs| ==> sep !in xs[i]
    ensures Split(Join(xs, [sep]), sep) == xs
    decreases |xs|
  {
    if |xs| == 1 {
      SplitAfterWord(xs[0], "", sep);
      assert xs[0] + "" == xs[0];
    } else {
      var tail := [sep] + Join(xs[1..], [sep]);
      SplitJoin(xs[1..], sep);
      assert tail[0] == sep && tail[1..] == Join(xs[1..], [sep]);
      assert Split(tail, sep) == [""] + xs[1..];
      SplitAfterWord(xs[0], tail, sep);
      assert Join(xs, [sep]) == xs[0] + tail;
      assert xs[0] + "" == xs[0];
      assert xs == [xs[0]] + xs[1..];
    }
  }
}
