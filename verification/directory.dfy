/**
 * `Coder.generate_directory_structure`: a recursive listing of a directory
 * tree, one tagged and indented line per entry, that prunes every entry whose
 * name matches an ignore pattern and picks up `.gitignore` patterns on the way
 * down.  The file system is a `Entry` tree, a snapshot of what `iterdir`,
 * `is_dir` and reading `.gitignore` would report.
 */
module DirectoryTree {
  import opened Wrappers
  import opened Text

  /**
   * One path of the snapshot.  A directory carries the raw lines of its
   * `.gitignore` (as iterating over the open file yields them, terminators
   * included) when it has one, and its children in `iterdir` order.
   */
  datatype Entry =
    | File(name: string)
    | Directory(name: string, gitignore: Option<seq<string>>, children: seq<Entry>)

  // ---------------------------------------------------------------------
  // Glob matching (`fnmatch.fnmatch` on a POSIX system: case-sensitive)
  // ---------------------------------------------------------------------

  /** The number of characters of `pattern` that must each match one character of the name. */
  function FixedCount(pattern: string): nat {
    if pattern == [] then 0 else (if pattern[0] == '*' then 0 else 1) + FixedCount(pattern[1..])
  }

  /**
   * `name` matches `pattern`, where `*` stands for any run and `?` for any
   * one character.  A match needs a name character for every non-`*`
   * character of the pattern, and without `*` the lengths agree.
   */
  predicate Glob(name: string, pattern: string)
    ensures Glob(name, pattern) ==> FixedCount(pattern) <= |name|
    ensures Glob(name, pattern) && '*' !in pattern ==> |name| == |pattern|
    decreases |name| + |pattern|
  {
    if pattern == [] then name == []
    else if pattern[0] == '*' then Glob(name, pattern[1..]) || (name != [] && Glob(name[1..], pattern))
    else name != [] && (pattern[0] == '?' || pattern[0] == name[0]) && Glob(name[1..], pattern[1..])
  }

  predicate Literal(pattern: string) {
    forall k :: 0 <= k < |pattern| ==> pattern[k] != '*' && pattern[k] != '?'
  }

  /** A lone `*` matches every name, the empty one included. */
  lemma {:induction false} StarMatchesAll(name: string)
    ensures Glob(name, "*")
    decreases |name|
  {
    if name != [] {
      StarMatchesAll(name[1..]);
    }
  }

  /** A pattern without wildcards matches exactly the name spelled the same way. */
  lemma {:induction false} LiteralMatchesItself(name: string, pattern: string)
    requires Literal(pattern)
    ensures Glob(name, pattern) <==> name == pattern
    decreases |pattern|
  {
    if pattern != [] && name != [] {
      LiteralMatchesItself(name[1..], pattern[1..]);
      if name[1..] == pattern[1..] && name[0] == pattern[0] {
        assert name == [name[0]] + name[1..];
        assert pattern == [pattern[0]] + pattern[1..];
      }
    }
  }

  /** Some pattern of `patterns` matches `name`: `any(fnmatch(name, p) for p in patterns)`. */
  predicate Ignored(name: string, patterns: seq<string>) {
    patterns != [] && (Glob(name, patterns[0]) || Ignored(name, patterns[1..]))
  }

  /** `Ignored` holds exactly when some pattern of the list matches. */
  lemma {:induction false} IgnoredIff(name: string, patterns: seq<string>)
    ensures Ignored(name, patterns) <==> exists k :: 0 <= k < |patterns| && Glob(name, patterns[k])
    decreases |patterns|
  {
    if patterns != [] {
      var tail := patterns[1..];
      IgnoredIff(name, tail);
      if exists k :: 0 <= k < |tail| && Glob(name, tail[k]) {
        var k :| 0 <= k < |tail| && Glob(name, tail[k]);
        assert patterns[k + 1] == tail[k];
      }
      if exists k :: 1 <= k < |patterns| && Glob(name, patterns[k]) {
        var k :| 1 <= k < |patterns| && Glob(name, patterns[k]);
        assert tail[k - 1] == patterns[k];
      }
    }
  }

  // ---------------------------------------------------------------------
  // .gitignore lines
  // ---------------------------------------------------------------------

  /**
   * A raw `.gitignore` line becomes a pattern when its stripped text is not
   * blank and the line itself, before stripping, does not start with `#`.
   */
  predicate KeepsLine(line: string) {
    Strip(line) != "" && !("#" <= line)
  }

  /** The patterns a `.gitignore` contributes: its kept lines, stripped, in file order. */
  function IgnoreLines(raw: seq<string>): seq<string> {
    FilterMap(KeepsLine, Strip, raw)
  }

  /** The raw line `line` yields the pattern `p`. */
  predicate Yields(line: string, p: string) {
    KeepsLine(line) && Strip(line) == p
  }

  /** A pattern comes out of a `.gitignore` exactly when some kept line strips to it. */
  lemma IgnoreLinesMembers(raw: seq<string>, p: string)
    ensures p in IgnoreLines(raw) <==> exists k :: 0 <= k < |raw| && Yields(raw[k], p)
  {
    FilterMapMembers(KeepsLine, Strip, raw, p);
  }

  /** Every pattern a `.gitignore` contributes is non-blank and has no whitespace at either end. */
  lemma IgnoreLinesClean(raw: seq<string>)
    ensures forall p :: p in IgnoreLines(raw) ==> p != "" && Stripped(p)
  {
    forall p | p in IgnoreLines(raw)
      ensures p != "" && Stripped(p)
    {
      IgnoreLinesMembers(raw, p);
    }
  }

  /**
   * The patterns in force at `e`: the inherited ones plus, for a directory with
   * a `.gitignore` and `useGitignore` set, that file's patterns.  They apply to
   * `e`'s own name as well as to everything below it.
   */
  function Effective(e: Entry, inherited: seq<string>, useGitignore: bool): (patterns: seq<string>)
    ensures inherited <= patterns
    ensures !useGitignore || e.File? ==> patterns == inherited
  {
    if useGitignore && e.Directory? && e.gitignore.Some? then inherited + IgnoreLines(e.gitignore.value)
    else inherited
  }

  /** `e` and its whole subtree are left out of the listing. */
  predicate Pruned(e: Entry, inherited: seq<string>, useGitignore: bool) {
    Ignored(e.name, Effective(e, inherited, useGitignore))
  }

  // ---------------------------------------------------------------------
  // Rendering
  // ---------------------------------------------------------------------

  function Indent(depth: nat): string {
    Repeat("  ", depth)
  }

  function Tag(e: Entry): string {
    if e.Directory? then "- [Directory] " else "- [File] "
  }

  /** The line `e` contributes at nesting depth `depth`. */
  function Header(e: Entry, depth: nat): string {
    Indent(depth) + Tag(e) + e.name + "\n"
  }

  /**
   * `generate_directory_structure(e, inherited, useGitignore, depth)`.
   * The result is empty exactly when `e` is pruned; otherwise it opens with
   * `e`'s own line.
   */
  function Render(e: Entry, inherited: seq<string>, useGitignore: bool, depth: nat): (r: string)
    ensures r == "" <==> Pruned(e, inherited, useGitignore)
    ensures !Pruned(e, inherited, useGitignore) ==> Header(e, depth) <= r
  {
    var patterns := Effective(e, inherited, useGitignore);
    if Ignored(e.name, patterns) then ""
    else match e
      case File(_) => Header(e, depth)
      case Directory(_, _, children) => Header(e, depth) + RenderAll(children, patterns, useGitignore, depth + 1)
  }

  /** The children of one directory, each rendered with the same pattern list. */
  function RenderAll(es: seq<Entry>, patterns: seq<string>, useGitignore: bool, depth: nat): string {
    if es == [] then "" else Render(es[0], patterns, useGitignore, depth) + RenderAll(es[1..], patterns, useGitignore, depth)
  }

  // ---------------------------------------------------------------------
  // Reference listing: the rendered text as a sequence of structured lines
  // ---------------------------------------------------------------------

  datatype Line = Line(depth: nat, isDirectory: bool, name: string)

  function Format(l: Line): string {
    Indent(l.depth) + (if l.isDirectory then "- [Directory] " else "- [File] ") + l.name + "\n"
  }

  function FormatAll(ls: seq<Line>): string {
    ConcatMap(Format, ls)
  }

  /**
   * The entries that survive pruning, in pre-order.  The first line is `e`
   * itself at `depth`; every other line lies strictly deeper.
   */
  function Listing(e: Entry, inherited: seq<string>, useGitignore: bool, depth: nat): (ls: seq<Line>)
    ensures ls == [] <==> Pruned(e, inherited, useGitignore)
    ensures ls != [] ==> ls[0] == Line(depth, e.Directory?, e.name)
    ensures forall k :: 1 <= k < |ls| ==> ls[k].depth > depth
    ensures e.File? ==> |ls| <= 1
  {
    var patterns := Effective(e, inherited, useGitignore);
    if Ignored(e.name, patterns) then []
    else match e
      case File(_) => [Line(depth, false, e.name)]
      case Directory(_, _, children) => [Line(depth, true, e.name)] + ListingAll(children, patterns, useGitignore, depth + 1)
  }

  function ListingAll(es: seq<Entry>, patterns: seq<string>, useGitignore: bool, depth: nat): (ls: seq<Line>)
    ensures forall k :: 0 <= k < |ls| ==> ls[k].depth >= depth
  {
    if es == [] then [] else Listing(es[0], patterns, useGitignore, depth) + ListingAll(es[1..], patterns, useGitignore, depth)
  }

  lemma FormatAllAppend(a: seq<Line>, b: seq<Line>)
    ensures FormatAll(a + b) == FormatAll(a) + FormatAll(b)
  {
    ConcatMapAppend(Format, a, b);
  }

  /**
   * Every emitted line is `"  " * depth + "- [Directory] name\n"` or
   * `"  " * depth + "- [File] name\n"`: the rendered text is exactly the
   * formatted listing.
   */
  lemma {:induction false} RenderIsListing(e: Entry, inherited: seq<string>, useGitignore: bool, depth: nat)
    ensures Render(e, inherited, useGitignore, depth) == FormatAll(Listing(e, inherited, useGitignore, depth))
    decreases e
  {
    var patterns := Effective(e, inherited, useGitignore);
    if !Ignored(e.name, patterns) {
      match e
      case File(_) =>
        ConcatMapOne(Format, Line(depth, false, e.name));
      case Directory(_, _, children) =>
        var head := [Line(depth, true, e.name)];
        RenderAllIsListing(children, patterns, useGitignore, depth + 1);
        FormatAllAppend(head, ListingAll(children, patterns, useGitignore, depth + 1));
        ConcatMapOne(Format, head[0]);
    }
  }

  lemma {:induction false} RenderAllIsListing(es: seq<Entry>, patterns: seq<string>, useGitignore: bool, depth: nat)
    ensures RenderAll(es, patterns, useGitignore, depth) == FormatAll(ListingAll(es, patterns, useGitignore, depth))
    decreases es
  {
    if es != [] {
      RenderIsListing(es[0], patterns, useGitignore, depth);
      RenderAllIsListing(es[1..], patterns, useGitignore, depth);
      FormatAllAppend(Listing(es[0], patterns, useGitignore, depth), ListingAll(es[1..], patterns, useGitignore, depth));
    }
  }

  // ---------------------------------------------------------------------
  // Properties of the pattern threading
  // ---------------------------------------------------------------------

  /** `RenderAll` is the concatenation of the children's renderings. */
  lemma {:induction false} RenderAllIsConcat(es: seq<Entry>, patterns: seq<string>, useGitignore: bool, depth: nat)
    ensures RenderAll(es, patterns, useGitignore, depth)
         == ConcatMap(e => Render(e, patterns, useGitignore, depth), es)
    decreases |es|
  {
    if es != [] {
      RenderAllIsConcat(es[1..], patterns, useGitignore, depth);
    }
  }

  lemma RenderAllAppend(a: seq<Entry>, b: seq<Entry>, patterns: seq<string>, useGitignore: bool, depth: nat)
    ensures RenderAll(a + b, patterns, useGitignore, depth)
         == RenderAll(a, patterns, useGitignore, depth) + RenderAll(b, patterns, useGitignore, depth)
  {
    RenderAllIsConcat(a + b, patterns, useGitignore, depth);
    RenderAllIsConcat(a, patterns, useGitignore, depth);
    RenderAllIsConcat(b, patterns, useGitignore, depth);
    ConcatMapAppend(e => Render(e, patterns, useGitignore, depth), a, b);
  }

  /** A directory that is not pruned renders as its own line followed by its children. */
  lemma RenderDirectory(d: Entry, inherited: seq<string>, useGitignore: bool, depth: nat)
    requires d.Directory? && !Pruned(d, inherited, useGitignore)
    ensures Render(d, inherited, useGitignore, depth)
         == Header(d, depth) + RenderAll(d.children, Effective(d, inherited, useGitignore), useGitignore, depth + 1)
  {
  }

  /**
   * Sibling isolation: inside a directory that is not pruned, child `i` is
   * rendered with exactly the directory's own pattern list, whatever the
   * `.gitignore` files of its siblings say, and its text sits between the
   * text of the siblings before it and the text of those after it.
   */
  lemma SiblingIsolation(d: Entry, inherited: seq<string>, useGitignore: bool, depth: nat, i: nat)
    requires d.Directory? && i < |d.children|
    requires !Pruned(d, inherited, useGitignore)
    ensures var p := Effective(d, inherited, useGitignore);
            Render(d, inherited, useGitignore, depth)
            == Header(d, depth)
               + RenderAll(d.children[..i], p, useGitignore, depth + 1)
               + RenderAll(d.children[i..], p, useGitignore, depth + 1)
    ensures var p := Effective(d, inherited, useGitignore);
            RenderAll(d.children[i..], p, useGitignore, depth + 1)
            == Render(d.children[i], p, useGitignore, depth + 1)
               + RenderAll(d.children[i + 1..], p, useGitignore, depth + 1)
  {
    var p := Effective(d, inherited, useGitignore);
    var cs := d.children;
    RenderDirectory(d, inherited, useGitignore, depth);
    RenderAllSplit(cs, i, p, useGitignore, depth + 1);
    Regroup(Render(d, inherited, useGitignore, depth), Header(d, depth),
            RenderAll(cs[..i], p, useGitignore, depth + 1), RenderAll(cs[i..], p, useGitignore, depth + 1));
    RenderAllFrom(cs, i, p, useGitignore, depth + 1);
  }

  lemma Regroup(x: string, header: string, before: string, after: string)
    requires x == header + (before + after)
    ensures x == header + before + after
  {
  }

  /** Cutting the children at `i` cuts their text between child `i - 1` and child `i`. */
  lemma RenderAllSplit(es: seq<Entry>, i: nat, patterns: seq<string>, useGitignore: bool, depth: nat)
    requires i <= |es|
    ensures RenderAll(es, patterns, useGitignore, depth)
         == RenderAll(es[..i], patterns, useGitignore, depth) + RenderAll(es[i..], patterns, useGitignore, depth)
  {
    assert es[..i] + es[i..] == es;
    RenderAllAppend(es[..i], es[i..], patterns, useGitignore, depth);
  }

  /** From position `i` on, the children render as child `i` followed by the rest. */
  lemma RenderAllFrom(es: seq<Entry>, i: nat, patterns: seq<string>, useGitignore: bool, depth: nat)
    requires i < |es|
    ensures RenderAll(es[i..], patterns, useGitignore, depth)
         == Render(es[i], patterns, useGitignore, depth) + RenderAll(es[i + 1..], patterns, useGitignore, depth)
  {
    assert es[i..][0] == es[i];
    assert es[i..][1..] == es[i + 1..];
  }

  /** A `*` anywhere in the patterns in force prunes the entry and its subtree. */
  lemma StarPrunes(e: Entry, inherited: seq<string>, useGitignore: bool, depth: nat)
    requires "*" in Effective(e, inherited, useGitignore)
    ensures Render(e, inherited, useGitignore, depth) == ""
  {
    var patterns := Effective(e, inherited, useGitignore);
    var k :| 0 <= k < |patterns| && patterns[k] == "*";
    StarMatchesAll(e.name);
    IgnoredIff(e.name, patterns);
  }

  /**
   * A directory's own `.gitignore` already applies to the directory's name,
   * so a `__pycache__` holding a `.gitignore` with the line `*` vanishes.
   */
  lemma SelfIgnoringDirectory(name: string, raw: seq<string>, children: seq<Entry>, inherited: seq<string>, depth: nat)
    requires exists k :: 0 <= k < |raw| && Yields(raw[k], "*")
    ensures Render(Directory(name, Some(raw), children), inherited, true, depth) == ""
  {
    IgnoreLinesMembers(raw, "*");
    StarPrunes(Directory(name, Some(raw), children), inherited, true, depth);
  }

  /** The tree with every `.gitignore`'s patterns dropped; the children, `.gitignore` files included, are kept. */
  function WithoutGitignores(e: Entry): (r: Entry)
    ensures r.name == e.name && r.Directory? == e.Directory?
  {
    match e
    case File(n) => File(n)
    case Directory(n, _, children) => Directory(n, None, WithoutGitignoresAll(children))
  }

  function WithoutGitignoresAll(es: seq<Entry>): (rs: seq<Entry>)
    ensures |rs| == |es|
  {
    if es == [] then [] else [WithoutGitignores(es[0])] + WithoutGitignoresAll(es[1..])
  }

  /**
   * With `use_gitignore=False` no pattern is ever added: the listing is the
   * one of the same tree without any `.gitignore` content.
   */
  lemma {:induction false} NoGitignoreAddsNothing(e: Entry, inherited: seq<string>, depth: nat)
    ensures Render(e, inherited, false, depth) == Render(WithoutGitignores(e), inherited, true, depth)
    decreases e
  {
    match e
    case File(_) =>
    case Directory(n, _, children) =>
      NoGitignoreAddsNothingAll(children, inherited, depth + 1);
  }

  lemma {:induction false} NoGitignoreAddsNothingAll(es: seq<Entry>, patterns: seq<string>, depth: nat)
    ensures RenderAll(es, patterns, false, depth) == RenderAll(WithoutGitignoresAll(es), patterns, true, depth)
    decreases es
  {
    if es != [] {
      NoGitignoreAddsNothing(es[0], patterns, depth);
      NoGitignoreAddsNothingAll(es[1..], patterns, depth);
      assert WithoutGitignoresAll(es)[1..] == WithoutGitignoresAll(es[1..]);
    }
  }
}
