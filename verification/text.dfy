/**
 * The handful of Python `str` operations the core relies on, stated over
 * `seq<char>`: `strip()`, `split(sep)`, `splitlines()`, `sep.join(parts)`,
 * `s * n`, and the first-occurrence search behind `s.split(sep)[0]`.
 */
module Text {

  /** The characters Python's `str.isspace` accepts, which `str.strip()` removes. */
  const Whitespace: set<char> := {
    ' ', '\t', '\n', '\U{000B}', '\U{000C}', '\r',
    '\U{001C}', '\U{001D}', '\U{001E}', '\U{001F}',
    '\U{0085}', '\U{00A0}', '\U{1680}',
    '\U{2000}', '\U{2001}', '\U{2002}', '\U{2003}', '\U{2004}', '\U{2005}',
    '\U{2006}', '\U{2007}', '\U{2008}', '\U{2009}', '\U{200A}',
    '\U{2028}', '\U{2029}', '\U{202F}', '\U{205F}', '\U{3000}'
  }

  predicate IsSpace(c: char) {
    c in Whitespace
  }

  predicate AllSpace(s: string) {
    forall k :: 0 <= k < |s| ==> IsSpace(s[k])
  }

  /** Neither end of `s` is whitespace. */
  predicate Stripped(s: string) {
    s == [] || (!IsSpace(s[0]) && !IsSpace(s[|s| - 1]))
  }

  /** Length of the whitespace run at the start of `s`. */
  function LeadingSpace(s: string): (n: nat)
    ensures n <= |s|
    ensures AllSpace(s[..n])
    ensures n < |s| ==> !IsSpace(s[n])
  {
    if s == [] || !IsSpace(s[0]) then 0
    else
      var m := LeadingSpace(s[1..]);
      assert s[..m + 1] == [s[0]] + s[1..][..m];
      m + 1
  }

  lemma AllSpaceSnoc(t: string, c: char)
    requires AllSpace(t) && IsSpace(c)
    ensures AllSpace(t + [c])
  {
  }

  /** Length of the whitespace run at the end of `s`. */
  function TrailingSpace(s: string): (n: nat)
    ensures n <= |s|
    ensures AllSpace(s[|s| - n..])
    ensures n < |s| ==> !IsSpace(s[|s| - n - 1])
  {
    if s == [] || !IsSpace(s[|s| - 1]) then 0
    else
      var init := s[..|s| - 1];
      var m := TrailingSpace(init);
      AllSpaceSnoc(init[|init| - m..], s[|s| - 1]);
      assert s[|s| - (m + 1)..] == init[|init| - m..] + [s[|s| - 1]];
      m + 1
  }

  /** Python's `s.strip()`: `s` with the whitespace at both ends removed. */
  function Strip(s: string): (r: string)
    ensures Stripped(r)
    ensures |r| <= |s|
  {
    var t := s[LeadingSpace(s)..];
    t[..|t| - TrailingSpace(t)]
  }

  /** `s[i..j]` is `s` with nothing but whitespace cut from either end. */
  predicate TrimmedTo(s: string, i: nat, j: nat) {
    i <= j <= |s| && AllSpace(s[..i]) && AllSpace(s[j..])
  }

  lemma SliceOfSuffix<T>(s: seq<T>, i: nat, n: nat)
    requires i + n <= |s|
    ensures s[i..][..n] == s[i..i + n]
  {
  }

  /** Cutting the trailing whitespace of `s[i..]` leaves only whitespace behind the cut. */
  lemma TrailingCut(s: string, i: nat)
    requires i <= |s|
    ensures var t := s[i..];
            AllSpace(s[i + (|t| - TrailingSpace(t))..])
  {
    var t := s[i..];
    var k := TrailingSpace(t);
    assert s[i + (|t| - k)..] == t[|t| - k..];
  }

  /** What `strip()` keeps is a slice of `s` with only whitespace on either side of it. */
  lemma StripSlice(s: string)
    ensures exists i: nat, j: nat :: TrimmedTo(s, i, j) && Strip(s) == s[i..j]
  {
    var i := LeadingSpace(s);
    var t := s[i..];
    var j := i + (|t| - TrailingSpace(t));
    TrailingCut(s, i);
    SliceOfSuffix(s, i, |t| - TrailingSpace(t));
    assert TrimmedTo(s, i, j) && Strip(s) == s[i..j];
  }

  /** `strip()` leaves nothing exactly when the whole string is whitespace. */
  lemma StripEmpty(s: string)
    ensures Strip(s) == "" <==> AllSpace(s)
  {
    var i := LeadingSpace(s);
    if AllSpace(s) {
      assert i == |s|;
    } else {
      assert i < |s|;
    }
  }

  /** Python's `s * n` for `n >= 0`. */
  function Repeat(s: string, n: nat): (r: string)
    ensures |r| == |s| * n
  {
    if n == 0 then "" else s + Repeat(s, n - 1)
  }

  /** Python's `sep.join(parts)`. */
  function Join(parts: seq<string>, sep: string): string {
    if |parts| == 0 then ""
    else if |parts| == 1 then parts[0]
    else parts[0] + sep + Join(parts[1..], sep)
  }

  /** The texts `f` gives the elements of `xs`, one after another. */
  function ConcatMap<T>(f: T -> string, xs: seq<T>): string {
    if xs == [] then "" else f(xs[0]) + ConcatMap(f, xs[1..])
  }

  lemma {:induction false} ConcatMapAppend<T>(f: T -> string, a: seq<T>, b: seq<T>)
    ensures ConcatMap(f, a + b) == ConcatMap(f, a) + ConcatMap(f, b)
    decreases |a|
  {
    if a == [] {
      assert a + b == b;
    } else {
      assert (a + b)[0] == a[0];
      assert (a + b)[1..] == a[1..] + b;
      ConcatMapAppend(f, a[1..], b);
    }
  }

  lemma ConcatMapOne<T>(f: T -> string, x: T)
    ensures ConcatMap(f, [x]) == f(x)
  {
    assert [x][1..] == [];
  }

  /** The images under `f` of the elements of `xs` that `keep` accepts, in order. */
  function FilterMap<T, U>(keep: T -> bool, f: T -> U, xs: seq<T>): (ys: seq<U>)
    ensures |ys| <= |xs|
  {
    if xs == [] then []
    else if keep(xs[0]) then [f(xs[0])] + FilterMap(keep, f, xs[1..])
    else FilterMap(keep, f, xs[1..])
  }

  /** `y` comes out of `FilterMap` exactly when some accepted element maps to it. */
  lemma {:induction false} FilterMapMembers<T, U>(keep: T -> bool, f: T -> U, xs: seq<T>, y: U)
    ensures y in FilterMap(keep, f, xs) <==> exists k :: 0 <= k < |xs| && keep(xs[k]) && f(xs[k]) == y
    decreases |xs|
  {
    if xs != [] {
      var tail := xs[1..];
      FilterMapMembers(keep, f, tail, y);
      if exists k :: 0 <= k < |tail| && keep(tail[k]) && f(tail[k]) == y {
        var k :| 0 <= k < |tail| && keep(tail[k]) && f(tail[k]) == y;
        assert xs[k + 1] == tail[k];
      }
      if exists k :: 1 <= k < |xs| && keep(xs[k]) && f(xs[k]) == y {
        var k :| 1 <= k < |xs| && keep(xs[k]) && f(xs[k]) == y;
        assert tail[k - 1] == xs[k];
      }
    }
  }

  /** Index of the first `c` in `s`, or `|s|` when there is none. */
  function IndexOf(s: string, c: char): (i: nat)
    ensures i <= |s|
    ensures i < |s| ==> s[i] == c
    ensures forall k :: 0 <= k < i ==> s[k] != c
  {
    if s == [] || s[0] == c then 0 else 1 + IndexOf(s[1..], c)
  }

  /** Python's `s.split(c)` for a one-character separator: every separator cuts. */
  function Split(s: string, c: char): (parts: seq<string>)
    ensures |parts| >= 1
    ensures forall k :: 0 <= k < |parts| ==> c !in parts[k]
    decreases |s|
  {
    var i := IndexOf(s, c);
    if i == |s| then [s] else [s[..i]] + Split(s[i + 1..], c)
  }

  /** Splitting and re-joining with the same separator gives the string back. */
  lemma {:induction false} SplitJoin(s: string, c: char)
    ensures Join(Split(s, c), [c]) == s
    decreases |s|
  {
    var i := IndexOf(s, c);
    if i < |s| {
      var rest := Split(s[i + 1..], c);
      assert Split(s, c) == [s[..i]] + rest;
      SplitJoin(s[i + 1..], c);
      assert Join(Split(s, c), [c]) == s[..i] + [c] + Join(rest, [c]);
      assert s == s[..i] + [c] + s[i + 1..];
    }
  }

  lemma IndexOfAfter(a: string, c: char, b: string)
    requires c !in a
    ensures IndexOf(a + [c] + b, c) == |a|
  {
    var s := a + [c] + b;
    assert s[|a|] == c;
  }

  /** Joining separator-free parts and splitting again gives the parts back. */
  lemma {:induction false} JoinSplit(parts: seq<string>, c: char)
    requires |parts| >= 1
    requires forall k :: 0 <= k < |parts| ==> c !in parts[k]
    ensures Split(Join(parts, [c]), c) == parts
    decreases |parts|
  {
    if |parts| == 1 {
      assert IndexOf(parts[0], c) == |parts[0]|;
    } else {
      var tail := Join(parts[1..], [c]);
      var s := parts[0] + [c] + tail;
      assert Join(parts, [c]) == s;
      IndexOfAfter(parts[0], c, tail);
      assert s[..|parts[0]|] == parts[0];
      assert s[|parts[0]| + 1..] == tail;
      assert Split(s, c) == [parts[0]] + Split(tail, c);
      JoinSplit(parts[1..], c);
      assert parts == [parts[0]] + parts[1..];
    }
  }

  /** The characters at which Python's `str.splitlines()` ends a line. */
  const LineBreaks: set<char> := {
    '\n', '\r', '\U{000B}', '\U{000C}', '\U{001C}', '\U{001D}', '\U{001E}',
    '\U{0085}', '\U{2028}', '\U{2029}'
  }

  predicate IsLineBreak(c: char) {
    c in LineBreaks
  }

  predicate NoLineBreak(s: string) {
    forall k :: 0 <= k < |s| ==> !IsLineBreak(s[k])
  }

  /** Index of the first line break in `s`, or `|s|` when there is none. */
  function FirstBreak(s: string): (i: nat)
    ensures i <= |s|
    ensures i < |s| ==> IsLineBreak(s[i])
    ensures NoLineBreak(s[..i])
  {
    if s == [] || IsLineBreak(s[0]) then 0
    else
      var m := FirstBreak(s[1..]);
      assert s[..m + 1] == [s[0]] + s[1..][..m];
      m + 1
  }

  /**
   * Python's `s.splitlines()`: the lines of `s` without their terminators,
   * where `"\r\n"` is one terminator and a final terminator opens no new line.
   */
  function SplitLines(s: string): (lines: seq<string>)
    ensures |lines| == 0 <==> s == ""
    ensures forall k :: 0 <= k < |lines| ==> NoLineBreak(lines[k])
    decreases |s|
  {
    if s == "" then []
    else
      var i := FirstBreak(s);
      if i == |s| then [s]
      else
        var next := if s[i] == '\r' && i + 1 < |s| && s[i + 1] == '\n' then i + 2 else i + 1;
        [s[..i]] + SplitLines(s[next..])
  }

  /** The text of `lines`, each followed by `"\n"`: how git prints a list. */
  function Terminated(lines: seq<string>): string {
    if lines == [] then "" else lines[0] + "\n" + Terminated(lines[1..])
  }

  lemma FirstBreakAfter(a: string, b: string)
    requires NoLineBreak(a)
    ensures FirstBreak(a + "\n" + b) == |a|
  {
    var s := a + "\n" + b;
    assert s[|a|] == '\n';
  }

  /** `splitlines()` undoes writing lines out one per `"\n"`-terminated row. */
  lemma {:induction false} SplitLinesTerminated(lines: seq<string>)
    requires forall k :: 0 <= k < |lines| ==> NoLineBreak(lines[k])
    ensures SplitLines(Terminated(lines)) == lines
    decreases |lines|
  {
    if lines != [] {
      var a := lines[0];
      var tail := Terminated(lines[1..]);
      var s := a + "\n" + tail;
      FirstBreakAfter(a, tail);
      assert s[..|a|] == a;
      assert s[|a|] == '\n';
      assert s[|a| + 1..] == tail;
      SplitLinesTerminated(lines[1..]);
      assert lines == [a] + lines[1..];
    }
  }

  /** Index of the first occurrence of `pat` in `s`, or `|s|` when there is none. */
  function Find(s: string, pat: string): (i: nat)
    requires pat != ""
    ensures i <= |s|
    ensures i < |s| ==> pat <= s[i..]
    ensures forall k :: 0 <= k < i ==> !(pat <= s[k..])
  {
    if s == [] || pat <= s then 0
    else
      var m := Find(s[1..], pat);
      assert forall k :: 1 <= k <= m ==> s[k..] == s[1..][k - 1..];
      m + 1
  }

  /** `s` contains `pat` somewhere. */
  predicate Contains(s: string, pat: string) {
    exists k :: 0 <= k <= |s| && pat <= s[k..]
  }
}
