/**
 * `Coder.git_diff_context` and `Coder.git_staged_files`: the text handed to
 * the model as a description of the pending change.  Every git command and
 * file read is a field of `Repo`, holding what that command would print for
 * the snapshot at hand; what remains is the choice of diff base, the parse of
 * `git diff --name-status` rows and the layout of the result.
 */
module GitContext {
  import opened Wrappers
  import opened Text

  /** The revision the working state is compared against: `--cached` or `HEAD`. */
  datatype DiffBase = Cached | Head

  /** One row of `git diff --name-status`, classified by its first status character. */
  datatype Change =
    | Added(path: string)
    | Renamed(oldPath: string, newPath: string)
    | Deleted(path: string)
    | Changed(code: char, path: string)
  {
    /** The path whose current state the change is reported under. */
    function Reported(): string {
      match this
      case Added(p) => p
      case Renamed(_, n) => n
      case Deleted(p) => p
      case Changed(_, p) => p
    }
  }

  /**
   * Why the context cannot be built: a status row whose status field is
   * empty, or that has fewer tab-separated fields than its status needs (the
   * `IndexError` that `git_diff_context` would raise), or an added file that cannot be
   * read (the path is gone from the working tree or is a directory).
   */
  datatype ContextError = EmptyStatus(line: string) | MissingField(line: string) | Unreadable(path: string)

  /** What the versioning backend and the file system report for one snapshot. */
  datatype Repo = Repo(
    stagedOutput: string,                            // git diff --cached --name-only
    nameStatus: (DiffBase, seq<string>) -> string,   // git diff <base> --name-status [files]
    diff: (DiffBase, string) -> string,              // git diff -U10 <base> -- <path>
    readText: string -> Option<string>,              // Path(path).read_text(); None when it raises
    show: string -> string                           // git show --format=%B <commit>
  )

  /** `git_staged_files`: the lines of the staged-name listing. */
  function StagedFiles(repo: Repo): (staged: seq<string>)
    ensures staged == [] <==> repo.stagedOutput == ""
    ensures forall k :: 0 <= k < |staged| ==> NoLineBreak(staged[k])
  {
    SplitLines(repo.stagedOutput)
  }

  /** `--cached` when anything is staged, `HEAD` otherwise. */
  function BaseFor(repo: Repo): DiffBase {
    if StagedFiles(repo) != [] then Cached else Head
  }

  /** The diff base is `--cached` exactly when git listed at least one staged name. */
  lemma BaseIsCachedIffStaged(repo: Repo)
    ensures BaseFor(repo) == Cached <==> repo.stagedOutput != ""
    ensures BaseFor(repo) == Head <==> repo.stagedOutput == ""
  {
  }

  /** Reads one `--name-status` row: status field, a tab, then one or two paths. */
  function ParseStatus(line: string): (r: Result<Change, ContextError>)
    ensures r.Ok? ==> Printable(r.value)
    ensures var parts := Split(line, '\t');
            r.Err? <==> parts[0] == "" || |parts| < (if parts[0][0] == 'R' then 3 else 2)
  {
    var parts := Split(line, '\t');
    if parts[0] == "" then Err(EmptyStatus(line))
    else
      var code := parts[0][0];
      if code == 'R' then
        if |parts| < 3 then Err(MissingField(line)) else Ok(Renamed(parts[1], parts[2]))
      else if |parts| < 2 then Err(MissingField(line))
      else if code == 'A' then Ok(Added(parts[1]))
      else if code == 'D' then Ok(Deleted(parts[1]))
      else Ok(Changed(code, parts[1]))
  }

  predicate TabFree(s: string) {
    '\t' !in s
  }

  /** A change git could print: tab-free paths, and a non-A/R/D code for a plain change. */
  predicate Printable(c: Change) {
    match c
    case Added(p) => TabFree(p)
    case Renamed(o, n) => TabFree(o) && TabFree(n)
    case Deleted(p) => TabFree(p)
    case Changed(code, p) => TabFree(p) && code != 'A' && code != 'R' && code != 'D' && code != '\t'
  }

  /**
   * How git prints a change in a `--name-status` row.  A rename carries a
   * similarity score after its `R`.
   */
  function FormatStatus(c: Change, score: string): string {
    match c
    case Added(p) => "A\t" + p
    case Renamed(o, n) => "R" + score + "\t" + o + "\t" + n
    case Deleted(p) => "D\t" + p
    case Changed(code, p) => [code] + "\t" + p
  }

  lemma SplitTwo(a: string, b: string)
    requires TabFree(a) && TabFree(b)
    ensures Split(a + "\t" + b, '\t') == [a, b]
  {
    assert Join([a, b], "\t") == a + "\t" + b;
    JoinSplit([a, b], '\t');
  }

  lemma SplitThree(a: string, b: string, c: string)
    requires TabFree(a) && TabFree(b) && TabFree(c)
    ensures Split(a + "\t" + b + "\t" + c, '\t') == [a, b, c]
  {
    var parts := [a, b, c];
    var tail := b + "\t" + c;
    assert parts[1..] == [b, c];
    assert Join(parts[1..], "\t") == tail;
    assert Join(parts, "\t") == a + "\t" + tail;
    assert a + "\t" + tail == a + "\t" + b + "\t" + c;
    JoinSplit(parts, '\t');
  }

  /** Reading back a row git printed gives the change it describes, whatever the rename score. */
  lemma ParseFormat(c: Change, score: string)
    requires Printable(c) && TabFree(score)
    ensures ParseStatus(FormatStatus(c, score)) == Ok(c)
  {
    match c
    case Added(p) => SplitTwo("A", p);
    case Renamed(o, n) => SplitThree("R" + score, o, n);
    case Deleted(p) => SplitTwo("D", p);
    case Changed(code, p) => SplitTwo([code], p);
  }

  /**
   * The pieces one change contributes: a header, then the full contents for
   * an added file, the diff of the new path for a rename, nothing for a
   * deletion, and the diff for anything else.  Reading an added file can
   * fail.
   */
  function Pieces(repo: Repo, base: DiffBase, c: Change): (r: Result<seq<string>, ContextError>)
    ensures r.Err? <==> c.Added? && repo.readText(c.path).None?
    ensures r.Ok? ==> 1 <= |r.value| <= 2 && (|r.value| == 1 <==> c.Deleted?)
  {
    match c
    case Added(p) =>
      if repo.readText(p).None? then Err(Unreadable(p)) else Ok(["## New file added: " + p, repo.readText(p).value])
    case Renamed(o, n) => Ok(["## File renamed: " + o + " -> " + n, repo.diff(base, n)])
    case Deleted(p) => Ok(["## File deleted: " + p])
    case Changed(_, p) => Ok(["## File changed: " + p, repo.diff(base, p)])
  }

  /**
   * What each kind of change draws on: a deletion reads no content and runs
   * no diff; an addition runs no diff; a rename and a plain change read no
   * file and diff only the path the change is reported under.
   */
  lemma PiecesDependOnlyOn(r1: Repo, r2: Repo, base: DiffBase, c: Change)
    ensures c.Deleted? ==> Pieces(r1, base, c) == Pieces(r2, base, c) == Ok(["## File deleted: " + c.Reported()])
    ensures c.Added? && r1.readText(c.Reported()) == r2.readText(c.Reported()) ==> Pieces(r1, base, c) == Pieces(r2, base, c)
    ensures (c.Renamed? || c.Changed?) && r1.diff(base, c.Reported()) == r2.diff(base, c.Reported())
            ==> Pieces(r1, base, c) == Pieces(r2, base, c)
    ensures c.Renamed? ==> Pieces(r1, base, c).value[1] == r1.diff(base, c.newPath)
  {
  }

  /** `diffs` followed by the outcome of the remaining rows. */
  function Prepend(diffs: seq<string>, rest: Result<seq<string>, ContextError>): Result<seq<string>, ContextError> {
    match rest
    case Ok(v) => Ok(diffs + v)
    case Err(e) => Err(e)
  }

  /** The pieces of one status row: it fails when the row cannot be parsed or its added file cannot be read. */
  function RowPieces(repo: Repo, base: DiffBase, line: string): (r: Result<seq<string>, ContextError>)
    ensures r.Err? <==> ParseStatus(line).Err? || (ParseStatus(line).value.Added? && repo.readText(ParseStatus(line).value.path).None?)
    ensures ParseStatus(line).Err? ==> r == Err(ParseStatus(line).error)
  {
    match ParseStatus(line)
    case Err(e) => Err(e)
    case Ok(c) => Pieces(repo, base, c)
  }

  /**
   * The pieces of all rows in order, or the error of the first row that
   * fails, as the loop of `git_diff_context` raises at the first failing row.
   */
  function AllPieces(repo: Repo, base: DiffBase, lines: seq<string>): (r: Result<seq<string>, ContextError>)
    ensures r.Ok? ==> |lines| <= |r.value| <= 2 * |lines|
  {
    if lines == [] then Ok([])
    else
      match RowPieces(repo, base, lines[0])
      case Err(e) => Err(e)
      case Ok(ps) => Prepend(ps, AllPieces(repo, base, lines[1..]))
  }

  /** Building fails exactly when some row cannot be parsed or names an added file that cannot be read. */
  lemma {:induction false} AllPiecesFails(repo: Repo, base: DiffBase, lines: seq<string>)
    ensures AllPieces(repo, base, lines).Err? <==> exists k :: 0 <= k < |lines| && RowPieces(repo, base, lines[k]).Err?
    decreases |lines|
  {
    if lines != [] {
      AllPiecesFails(repo, base, lines[1..]);
      if exists k :: 0 <= k < |lines[1..]| && RowPieces(repo, base, lines[1..][k]).Err? {
        var k :| 0 <= k < |lines[1..]| && RowPieces(repo, base, lines[1..][k]).Err?;
        assert lines[k + 1] == lines[1..][k];
      }
      if exists k :: 0 <= k < |lines| && RowPieces(repo, base, lines[k]).Err? {
        var k :| 0 <= k < |lines| && RowPieces(repo, base, lines[k]).Err?;
        if k > 0 {
          assert lines[1..][k - 1] == lines[k];
        }
      }
    }
  }

  /** The rows of `git diff <base> --name-status [files]` for the chosen base. */
  function StatusRows(repo: Repo, files: seq<string>): seq<string> {
    SplitLines(repo.nameStatus(BaseFor(repo), files))
  }

  /**
   * `git_diff_context(commit, files)`.  A non-empty commit gives the
   * `git show` text alone; otherwise the pieces of every status row, in the
   * order git lists them, joined by newlines.
   */
  function DiffContext(repo: Repo, commit: Option<string>, files: seq<string>): (r: Result<string, ContextError>)
    ensures commit.Some? && commit.value != "" ==> r == Ok(repo.show(commit.value))
    ensures r.Err? ==> commit.None? || commit.value == ""
  {
    if commit.Some? && commit.value != "" then Ok(repo.show(commit.value))
    else
      match AllPieces(repo, BaseFor(repo), StatusRows(repo, files))
      case Err(e) => Err(e)
      case Ok(pieces) => Ok(Join(pieces, "\n"))
  }

  /**
   * With a commit, the output is exactly what `git show --format=%B` prints
   * for it, whatever the staged state, the file filter or the working tree.
   */
  lemma CommitShowsOnly(r1: Repo, r2: Repo, commit: string, f1: seq<string>, f2: seq<string>)
    requires commit != "" && r1.show(commit) == r2.show(commit)
    ensures DiffContext(r1, Some(commit), f1) == DiffContext(r2, Some(commit), f2) == Ok(r1.show(commit))
  {
  }

  /** An empty commit string is falsy and behaves like no commit at all. */
  lemma EmptyCommitIsNoCommit(repo: Repo, files: seq<string>)
    ensures DiffContext(repo, Some(""), files) == DiffContext(repo, None, files)
  {
  }

  /**
   * Without a commit, the result fails exactly when some row of the status
   * listing cannot be parsed, or is an addition whose file cannot be read.
   */
  lemma DiffContextFails(repo: Repo, files: seq<string>)
    ensures var rows := StatusRows(repo, files);
            DiffContext(repo, None, files).Err?
            <==> exists k :: 0 <= k < |rows| && (ParseStatus(rows[k]).Err? ||
                   (ParseStatus(rows[k]).value.Added? && repo.readText(ParseStatus(rows[k]).value.path).None?))
  {
    var base := BaseFor(repo);
    var lines := StatusRows(repo, files);
    AllPiecesFails(repo, base, lines);
    match AllPieces(repo, base, lines)
    case Err(e) =>
      assert DiffContext(repo, None, files) == Err(e);
    case Ok(pieces) =>
      assert DiffContext(repo, None, files) == Ok(Join(pieces, "\n"));
  }

  /** How `AllPieces` treats the row at `i` of `lines`. */
  lemma AllPiecesAt(repo: Repo, base: DiffBase, lines: seq<string>, i: nat)
    requires i < |lines|
    ensures RowPieces(repo, base, lines[i]).Err? ==> AllPieces(repo, base, lines[i..]) == Err(RowPieces(repo, base, lines[i]).error)
    ensures RowPieces(repo, base, lines[i]).Ok? ==>
              AllPieces(repo, base, lines[i..])
              == Prepend(RowPieces(repo, base, lines[i]).value, AllPieces(repo, base, lines[i + 1..]))
  {
    assert lines[i..][0] == lines[i];
    assert lines[i..][1..] == lines[i + 1..];
  }

  lemma PrependNothing(rest: Result<seq<string>, ContextError>)
    ensures Prepend([], rest) == rest
  {
    if rest.Ok? {
      assert [] + rest.value == rest.value;
    }
  }

  lemma PrependTwice(a: seq<string>, b: seq<string>, rest: Result<seq<string>, ContextError>)
    ensures Prepend(a, Prepend(b, rest)) == Prepend(a + b, rest)
  {
    if rest.Ok? {
      assert a + (b + rest.value) == (a + b) + rest.value;
    }
  }

  /**
   * The loop of `git_diff_context`: it appends to a list of pieces row by row and joins
   * them at the end.  It computes the same text as `DiffContext`.
   */
  method BuildContext(repo: Repo, commit: Option<string>, files: seq<string>) returns (r: Result<string, ContextError>)
    ensures r == DiffContext(repo, commit, files)
  {
    if commit.Some? && commit.value != "" {
      return Ok(repo.show(commit.value));
    }
    var staged := SplitLines(repo.stagedOutput);
    var base := if staged != [] then Cached else Head;
    var lines := SplitLines(repo.nameStatus(base, files));
    assert base == BaseFor(repo) && lines == StatusRows(repo, files);
    var diffs: seq<string> := [];
    var i := 0;
    PrependNothing(AllPieces(repo, base, lines));
    assert lines[i..] == lines;
    while i < |lines|
      invariant 0 <= i <= |lines|
      invariant AllPieces(repo, base, lines) == Prepend(diffs, AllPieces(repo, base, lines[i..]))
    {
      AllPiecesAt(repo, base, lines, i);
      var parsed := ParseStatus(lines[i]);
      if parsed.Err? {
        return Err(parsed.error);
      }
      var row := Pieces(repo, base, parsed.value);
      if row.Err? {
        return Err(row.error);
      }
      var ps := row.value;
      PrependTwice(diffs, ps, AllPieces(repo, base, lines[i + 1..]));
      diffs := diffs + ps;
      i := i + 1;
    }
    assert lines[i..] == [];
    assert diffs + [] == diffs;
    return Ok(Join(diffs, "\n"));
  }

  /** Two `"\n"`-terminated status rows split back into those two rows. */
  lemma TwoRows(l1: string, l2: string)
    requires NoLineBreak(l1) && NoLineBreak(l2)
    ensures SplitLines(l1 + "\n" + l2 + "\n") == [l1, l2]
  {
    var lines := [l1, l2];
    assert lines[1..] == [l2];
    assert Terminated([l2]) == l2 + "\n" + Terminated([]);
    assert Terminated(lines) == l1 + "\n" + l2 + "\n";
    SplitLinesTerminated(lines);
  }

  lemma PrefixedNoLineBreak(prefix: string, s: string)
    requires NoLineBreak(prefix) && NoLineBreak(s)
    ensures NoLineBreak(prefix + s)
  {
    var t := prefix + s;
    forall k | 0 <= k < |t| ensures !IsLineBreak(t[k]) {
      if k >= |prefix| { assert t[k] == s[k - |prefix|]; }
    }
  }

  /** The pieces of two rows that can be built are those of the first, then those of the second. */
  lemma TwoRowPieces(repo: Repo, base: DiffBase, l1: string, l2: string, p1: seq<string>, p2: seq<string>)
    requires RowPieces(repo, base, l1) == Ok(p1) && RowPieces(repo, base, l2) == Ok(p2)
    ensures AllPieces(repo, base, [l1, l2]) == Ok(p1 + p2)
  {
    assert [l1, l2][1..] == [l2];
    assert [l2][1..] == [];
    assert p2 + [] == p2;
    assert AllPieces(repo, base, [l2]) == Ok(p2);
  }

  lemma ParseChangedRow(a: string)
    requires TabFree(a)
    ensures ParseStatus("M\t" + a) == Ok(Changed('M', a))
  {
    ParseFormat(Changed('M', a), "");
    assert FormatStatus(Changed('M', a), "") == "M\t" + a;
  }

  lemma ParseAddedRow(b: string)
    requires TabFree(b)
    ensures ParseStatus("A\t" + b) == Ok(Added(b))
  {
    ParseFormat(Added(b), "");
  }

  lemma ScenarioRows(repo: Repo, files: seq<string>, a: string, b: string)
    requires TabFree(a) && TabFree(b) && NoLineBreak(a) && NoLineBreak(b)
    requires repo.nameStatus(Cached, files) == "M\t" + a + "\nA\t" + b + "\n"
    requires repo.readText(b).Some?
    ensures AllPieces(repo, Cached, SplitLines(repo.nameStatus(Cached, files)))
            == Ok(["## File changed: " + a, repo.diff(Cached, a)] + ["## New file added: " + b, repo.readText(b).value])
  {
    var l1, l2 := "M\t" + a, "A\t" + b;
    PrefixedNoLineBreak("M\t", a);
    PrefixedNoLineBreak("A\t", b);
    assert repo.nameStatus(Cached, files) == l1 + "\n" + l2 + "\n";
    TwoRows(l1, l2);
    ParseChangedRow(a);
    ParseAddedRow(b);
    TwoRowPieces(repo, Cached, l1, l2, ["## File changed: " + a, repo.diff(Cached, a)],
                 ["## New file added: " + b, repo.readText(b).value]);
  }

  /**
   * A staged modified file `a` and an added file `b` whose contents can be
   * read: a changed-file entry carrying the staged diff of `a`, then a
   * new-file entry carrying all of `b`.
   */
  lemma ModifiedThenAddedScenario(repo: Repo, files: seq<string>, a: string, b: string)
    requires TabFree(a) && TabFree(b) && NoLineBreak(a) && NoLineBreak(b)
    requires repo.stagedOutput != ""
    requires repo.nameStatus(Cached, files) == "M\t" + a + "\nA\t" + b + "\n"
    requires repo.readText(b).Some?
    ensures DiffContext(repo, None, files)
            == Ok(Join(["## File changed: " + a, repo.diff(Cached, a), "## New file added: " + b, repo.readText(b).value], "\n"))
  {
    ScenarioRows(repo, files, a, b);
    assert BaseFor(repo) == Cached;
    assert ["## File changed: " + a, repo.diff(Cached, a)] + ["## New file added: " + b, repo.readText(b).value]
        == ["## File changed: " + a, repo.diff(Cached, a), "## New file added: " + b, repo.readText(b).value];
  }

  /**
   * A file that was staged as new and then removed from the working tree
   * (`git add b; rm b`) makes the whole context fail, even after rows that
   * were fine.
   */
  lemma RemovedAddedFileFails(repo: Repo, files: seq<string>, a: string, b: string)
    requires TabFree(a) && TabFree(b) && NoLineBreak(a) && NoLineBreak(b)
    requires repo.stagedOutput != ""
    requires repo.nameStatus(Cached, files) == "M\t" + a + "\nA\t" + b + "\n"
    requires repo.readText(b).None?
    ensures DiffContext(repo, None, files) == Err(Unreadable(b))
  {
    var l1, l2 := "M\t" + a, "A\t" + b;
    PrefixedNoLineBreak("M\t", a);
    PrefixedNoLineBreak("A\t", b);
    assert repo.nameStatus(Cached, files) == l1 + "\n" + l2 + "\n";
    TwoRows(l1, l2);
    ParseChangedRow(a);
    ParseAddedRow(b);
    assert BaseFor(repo) == Cached;
    assert [l1, l2][1..] == [l2];
    assert AllPieces(repo, Cached, [l2]) == Err(Unreadable(b));
  }
}
