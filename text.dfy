/**
 * The few Python string built-ins the pipeline relies on: `"/" in s`,
 * `s.split("/", 1)` and `s.split(".")[-1]`.
 */
module Text {
  import opened Wrappers

  /** Index of the first occurrence of `c` in `s`, if any (Python's `str.find`). */
  function FirstIndexOf(s: string, c: char): (r: Option<nat>)
    ensures r.Some? ==> r.value < |s| && s[r.value] == c && c !in s[..r.value]
    ensures r.None? <==> c !in s
  {
    if s == [] then None
    else if s[0] == c then Some(0)
    else
      match FirstIndexOf(s[1..], c)
      case None => None
      case Some(i) =>
        assert s[..i + 1] == [s[0]] + s[1..][..i];
        Some(i + 1)
  }

  /**
   * `s.split(c, 1)` once the caller has checked `c in s`: the text before the
   * first `c` and everything after it, further `c`s included.
   */
  function SplitOnce(s: string, c: char): (r: Option<(string, string)>)
    ensures r.None? <==> c !in s
    ensures r.Some? ==> s == r.value.0 + [c] + r.value.1 && c !in r.value.0
  {
    match FirstIndexOf(s, c)
    case None => None
    case Some(i) =>
      assert s == s[..i] + [c] + s[i + 1..];
      Some((s[..i], s[i + 1..]))
  }

  /**
   * `s.split(c)[-1]`: the longest suffix of `s` free of `c`, which is the text
   * after the last `c`, or all of `s` when it holds no `c`.
   */
  function AfterLast(s: string, c: char): (r: string)
    ensures c !in r
    ensures |r| <= |s| && r == s[|s| - |r|..]
    ensures |r| < |s| ==> s[|s| - |r| - 1] == c
  {
    if s == [] then []
    else if s[|s| - 1] == c then []
    else AfterLast(s[..|s| - 1], c) + [s[|s| - 1]]
  }

  /** A split at the first `c` is the unique one whose left part holds no `c`. */
  lemma {:induction false} SplitOnceUnique(left: string, c: char, right: string)
    requires c !in left
    ensures SplitOnce(left + [c] + right, c) == Some((left, right))
  {
    var s := left + [c] + right;
    var r := SplitOnce(s, c);
    assert s[|left|] == c;
    assert r.Some?;
    var (l, rt) := r.value;
    assert l == s[..|left|] == left;
    assert rt == s[|left| + 1..] == right;
  }

  /** The suffix after the last `c` of `p + [c] + r` is `r` whenever `r` holds no `c`. */
  lemma {:induction false} AfterLastOfJoin(p: string, c: char, r: string)
    requires c !in r
    ensures AfterLast(p + [c] + r, c) == r
  {
    var s := p + [c] + r;
    var a := AfterLast(s, c);
    // Only the last `c` of `s`, at index |s| - |r| - 1, can bound the answer.
    assert s[|s| - |r| - 1] == c;
    assert forall k :: |s| - |r| <= k < |s| ==> s[k] == r[k - (|s| - |r|)];
    assert forall k :: |s| - |a| <= k < |s| ==> s[k] == a[k - (|s| - |a|)];
    assert a == s[|s| - |r|..] == r;
  }
}
