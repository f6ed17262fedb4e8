/** The two string helpers of Go's `strings` package the core relies on:
    `TrimSpace` (each line of the remote version list) and `Split` (the
    comma-separated candidate list), together with the `Join` that Split
    inverts. */
module Strings {

  /** White space as Go's `unicode.IsSpace` defines it: the Latin-1 spaces
      plus every other code point with the Unicode White_Space property. */
  predicate IsSpace(c: char) {
    c in LatinSpaces || c in UnicodeSpaces || '\U{2000}' <= c <= '\U{200A}'
  }

  const LatinSpaces: set<char> := {' ', '\t', '\n', '\U{000B}', '\U{000C}', '\r', '\U{0085}', '\U{00A0}'}
  const UnicodeSpaces: set<char> := {'\U{1680}', '\U{2028}', '\U{2029}', '\U{202F}', '\U{205F}', '\U{3000}'}

  predicate AllSpace(s: string) {
    forall i :: 0 <= i < |s| ==> IsSpace(s[i])
  }

  /** Neither the first nor the last character is white space. */
  predicate Trimmed(s: string) {
    |s| == 0 || (!IsSpace(s[0]) && !IsSpace(s[|s| - 1]))
  }

  /** The first position at or after `i` that is not white space. */
  function SkipLeading(s: string, i: nat): (j: nat)
    requires i <= |s|
    ensures i <= j <= |s|
    decreases |s| - i
  {
    if i < |s| && IsSpace(s[i]) then SkipLeading(s, i + 1) else i
  }

  /** The end left once the white space before `j` is dropped, never going
      below `lo`. */
  function SkipTrailing(s: string, lo: nat, j: nat): (k: nat)
    requires lo <= j <= |s|
    ensures lo <= k <= j
    decreases j - lo
  {
    if lo < j && IsSpace(s[j - 1]) then SkipTrailing(s, lo, j - 1) else j
  }

  /** `SkipLeading` stops at `j` exactly when everything from `i` to `j` is
      white space and `s[j]` is not. */
  lemma {:induction false} SkipLeadingAt(s: string, i: nat, j: nat)
    requires i <= j <= |s|
    ensures SkipLeading(s, i) == j <==>
              (forall k :: i <= k < j ==> IsSpace(s[k])) && (j == |s| || !IsSpace(s[j]))
    decreases |s| - i
  {
    if i < |s| && IsSpace(s[i]) {
      if i < j {
        SkipLeadingAt(s, i + 1, j);
      } else {
        assert SkipLeading(s, i) != j by {
          assert SkipLeading(s, i) >= i + 1;
        }
      }
    }
  }

  /** `SkipTrailing` stops at `k` exactly when everything from `k` to `j` is
      white space and `s[k - 1]` is not (or `k` is the floor `lo`). */
  lemma {:induction false} SkipTrailingAt(s: string, lo: nat, j: nat, k: nat)
    requires lo <= k <= j <= |s|
    ensures SkipTrailing(s, lo, j) == k <==>
              (forall m :: k <= m < j ==> IsSpace(s[m])) && (k == lo || !IsSpace(s[k - 1]))
    decreases j - lo
  {
    if lo < j && IsSpace(s[j - 1]) {
      if k < j {
        SkipTrailingAt(s, lo, j - 1, k);
      } else {
        assert SkipTrailing(s, lo, j) != k by {
          assert SkipTrailing(s, lo, j) <= j - 1;
        }
      }
    }
  }

  /** Go's `strings.TrimSpace`: neither end of the result is white space. */
  function TrimSpace(s: string): (r: string)
    ensures Trimmed(r) && |r| <= |s|
  {
    var a := SkipLeading(s, 0);
    var b := SkipTrailing(s, a, |s|);
    assert Trimmed(s[a..b]) by {
      SkipLeadingAt(s, 0, a);
      SkipTrailingAt(s, a, |s|, b);
    }
    s[a..b]
  }

  /** `s` is `r` with the white space `s[..i]` before it and `s[i + |r|..]` after it. */
  predicate PaddedAt(s: string, r: string, i: int) {
    && 0 <= i <= |s| - |r|
    && r == s[i..i + |r|]
    && AllSpace(s[..i]) && AllSpace(s[i + |r|..])
  }

  /** What `TrimSpace` removes is white space, from the two ends only. */
  lemma TrimSpaceIsPadding(s: string)
    ensures exists i :: PaddedAt(s, TrimSpace(s), i)
  {
    var a := SkipLeading(s, 0);
    var b := SkipTrailing(s, a, |s|);
    SkipLeadingAt(s, 0, a);
    SkipTrailingAt(s, a, |s|, b);
    assert PaddedAt(s, TrimSpace(s), a);
  }

  /** Trimming recovers the text between any white-space padding, so the
      decomposition `TrimSpaceIsPadding` promises is unique. */
  lemma TrimSpaceOfPadded(pre: string, mid: string, post: string)
    requires AllSpace(pre) && AllSpace(post) && Trimmed(mid)
    ensures TrimSpace(pre + mid + post) == mid
  {
    var s := pre + mid + post;
    if |mid| == 0 {
      SkipLeadingAt(s, 0, |s|);
      SkipTrailingAt(s, |s|, |s|, |s|);
    } else {
      SkipLeadingAt(s, 0, |pre|);
      SkipTrailingAt(s, |pre|, |s|, |pre| + |mid|);
      assert s[|pre|..|pre| + |mid|] == mid;
    }
  }

  /** Trimming empties an all-space string and leaves a trimmed one as it
      is. */
  lemma TrimSpaceFixes(s: string)
    ensures AllSpace(s) ==> TrimSpace(s) == ""
    ensures Trimmed(s) ==> TrimSpace(s) == s
  {
    if AllSpace(s) {
      TrimSpaceOfPadded(s, "", "");
      assert s + "" + "" == s;
    }
    if Trimmed(s) {
      TrimSpaceOfPadded("", s, "");
      assert "" + s + "" == s;
    }
  }

  /** Go's `strings.Join`: the parts with one separator between neighbours. */
  function Join(parts: seq<string>, sep: char): string {
    if |parts| == 0 then ""
    else if |parts| == 1 then parts[0]
    else parts[0] + [sep] + Join(parts[1..], sep)
  }

  /** Go's `strings.Split` with a one-character separator: the pieces
      between separators, never an empty list (`Split("", sep) == [""]`).
      Joining the pieces gives back `s`, and no piece holds a separator. */
  function Split(s: string, sep: char): (r: seq<string>)
    ensures |r| >= 1
    ensures Join(r, sep) == s
    ensures forall i :: 0 <= i < |r| ==> sep !in r[i]
    decreases |s|
  {
    if |s| == 0 then [""]
    else
      var rest := Split(s[1..], sep);
      if s[0] == sep then
        assert s == [sep] + s[1..];
        [""] + rest
      else
        var r := [[s[0]] + rest[0]] + rest[1..];
        assert r[1..] == rest[1..];
        assert s == [s[0]] + s[1..];
        r
  }

  /** The other round trip: splitting a join of separator-free parts
      returns exactly those parts, in order. */
  lemma {:induction false} SplitJoin(parts: seq<string>, sep: char)
    requires |parts| >= 1
    requires forall i :: 0 <= i < |parts| ==> sep !in parts[i]
    ensures Split(Join(parts, sep), sep) == parts
  {
    if |parts| == 1 {
      SplitPlain(parts[0], [], sep);
      assert parts[0] + [] == parts[0];
    } else {
      var tail := Join(parts[1..], sep);
      SplitJoin(parts[1..], sep);
      SplitAfterSeparator(tail, sep);
      var rest := [sep] + tail;
      assert Join(parts, sep) == parts[0] + rest;
      SplitPlain(parts[0], rest, sep);
      assert parts[0] + "" == parts[0];
      assert parts == [parts[0]] + parts[1..];
    }
  }

  /** A leading separator splits off an empty first piece. */
  lemma SplitAfterSeparator(tail: string, sep: char)
    ensures Split([sep] + tail, sep) == [""] + Split(tail, sep)
  {
    assert ([sep] + tail)[1..] == tail;
  }

  /** A separator-free head glues onto the first piece of what follows. */
  lemma {:induction false} SplitPlain(a: string, b: string, sep: char)
    requires sep !in a
    ensures Split(a + b, sep) == [a + Split(b, sep)[0]] + Split(b, sep)[1..]
    decreases |a|
  {
    if |a| > 0 {
      assert (a + b)[1..] == a[1..] + b;
      SplitPlain(a[1..], b, sep);
      assert [a[0]] + (a[1..] + Split(b, sep)[0]) == a + Split(b, sep)[0];
    } else {
      var r := Split(b, sep);
      assert a + b == b;
      assert a + r[0] == r[0];
      assert [r[0]] + r[1..] == r;
    }
  }
}
