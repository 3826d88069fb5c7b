/**
 * The Python string operations the loader uses, with the semantics CPython
 * gives them: `sep.join(parts)`, `s.endswith(t)` and the slice `s[:-n]`.
 * `IndexOf` (`s.find(c)`) and `Split` (`s.split(c)`) are not used by the
 * loader: they serve the parsers that read the model's query texts back.
 */
module Text {

  /** Python's `sep.join(parts)`. */
  function Join(parts: seq<string>, sep: string): (r: string)
    ensures |parts| == 0 ==> r == ""
    ensures |parts| > 0 ==> |r| >= |parts[0]|
  {
    if |parts| == 0 then ""
    else if |parts| == 1 then parts[0]
    else parts[0] + sep + Join(parts[1..], sep)
  }

  /** `p + x` for every `x` of `xs`, in order. */
  function Prefixed(p: string, xs: seq<string>): (r: seq<string>)
  {
    seq(|xs|, i requires 0 <= i < |xs| => p + xs[i])
  }

  /**
   * The position of the first `c` in `s`, or `|s|` when `s` has none
   * (Python's `s.find(c)` with its -1 read as the length).
   */
  function IndexOf(s: string, c: char): (i: nat)
    ensures i <= |s|
    ensures i < |s| ==> s[i] == c
    ensures forall k :: 0 <= k < i ==> s[k] != c
  {
    if |s| == 0 then 0
    else if s[0] == c then 0
    else 1 + IndexOf(s[1..], c)
  }

  /** Python's `s.split(c)` for a one-character separator. */
  function Split(s: string, c: char): (r: seq<string>)
    ensures |r| >= 1
    ensures forall k :: 0 <= k < |r| ==> c !in r[k]
    decreases |s|
  {
    var i := IndexOf(s, c);
    if i == |s| then [s] else [s[..i]] + Split(s[i + 1..], c)
  }

  /** Python's `s.endswith(suffix)`; every string ends with "". */
  predicate EndsWith(s: string, suffix: string)
  {
    |suffix| <= |s| && s[|s| - |suffix|..] == suffix
  }

  /** Python's `s.startswith(prefix)`. */
  predicate StartsWith(s: string, prefix: string)
  {
    |prefix| <= |s| && s[..|prefix|] == prefix
  }

  /**
   * Python's slice `s[:-n]` for a positive `n`: everything but the last `n`
   * characters, and "" when `s` has no more than `n`.
   */
  function DropLast(s: string, n: nat): (r: string)
    requires n > 0
    ensures |s| <= n ==> r == ""
    ensures |s| > n ==> |r| == |s| - n
  {
    if |s| <= n then "" else s[..|s| - n]
  }

  /** Joining what `Split` cut, with the character it cut at, gives the string back. */
  lemma {:induction false} JoinSplit(s: string, c: char)
    ensures Join(Split(s, c), [c]) == s
    decreases |s|
  {
    var i := IndexOf(s, c);
    if i < |s| {
      var head, tail := s[..i], s[i + 1..];
      JoinSplit(tail, c);
      var rest := Split(tail, c);
      var parts := [head] + rest;
      assert Split(s, c) == parts;
      assert |parts| >= 2 && parts[0] == head && parts[1..] == rest;
      assert Join(parts, [c]) == head + [c] + Join(rest, [c]);
      assert s == s[..i] + [s[i]] + s[i + 1..];
    }
  }

  /** Splitting at the first separator: the part before it, then the rest split. */
  lemma SplitAtFirst(head: string, tail: string, c: char)
    requires c !in head
    ensures Split(head + [c] + tail, c) == [head] + Split(tail, c)
  {
    var s := head + [c] + tail;
    assert s[|head|] == c;
    assert forall k :: 0 <= k < |head| ==> s[k] == head[k];
    assert IndexOf(s, c) == |head|;
    assert s[..|head|] == head;
    assert s[|head| + 1..] == tail;
  }

  /** `Split` undoes `Join` when no part contains the separator. */
  lemma {:induction false} SplitJoin(xs: seq<string>, c: char)
    requires |xs| >= 1
    requires forall k :: 0 <= k < |xs| ==> c !in xs[k]
    ensures Split(Join(xs, [c]), c) == xs
    decreases |xs|
  {
    if |xs| == 1 {
      var s := xs[0];
      assert IndexOf(s, c) == |s|;
    } else {
      var tail := Join(xs[1..], [c]);
      assert Join(xs, [c]) == xs[0] + [c] + tail;
      SplitAtFirst(xs[0], tail, c);
      SplitJoin(xs[1..], c);
      assert xs == [xs[0]] + xs[1..];
    }
  }

  /**
   * `Join(xs, ", ")` is the comma-joined list whose every part but the
   * first gained a leading space.
   */
  lemma {:induction false} JoinCommaSpace(xs: seq<string>)
    requires |xs| >= 1
    ensures Join(xs, ", ") == Join([xs[0]] + Prefixed(" ", xs[1..]), ",")
    decreases |xs|
  {
    if |xs| > 1 {
      var ys := [xs[0]] + Prefixed(" ", xs[1..]);
      JoinCommaSpace(xs[1..]);
      var zs := [xs[1]] + Prefixed(" ", xs[2..]);
      assert ys[1..] == Prefixed(" ", xs[1..]);
      if |xs| == 2 {
        assert Join(ys, ",") == xs[0] + "," + (" " + xs[1]);
      } else {
        assert ys[1..] == [" " + xs[1]] + Prefixed(" ", xs[2..]);
        assert Join(ys[1..], ",") == " " + xs[1] + "," + Join(ys[2..], ",");
        assert ys[2..] == zs[1..];
        assert Join(zs, ",") == xs[1] + "," + Join(zs[1..], ",");
      }
    }
  }
}
