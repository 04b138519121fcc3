/**
 * What `workspace.py` reads out of git's output: the `git diff --name-status` listing parsed by
 * `_get_changed_files_from_branch`, and the conflict list `_check_git_conflicts` builds from `git merge-tree`
 * (with its fallback to the files both branches changed).  Every git command is an input: its exit code and
 * output, or `None` when running it raised.
 */
module GitOutput {
  import opened Wrappers
  import opened PyText
  import opened Lists

  /** What `subprocess.run(..., capture_output=True, text=True)` gives back. */
  datatype Proc = Proc(returncode: int, stdout: string, stderr: string)

  // ---------------------------------------------------------------------
  // `git diff --name-status`

  /** One changed file: `(file_path, status)`. */
  datatype Change = Change(path: string, status: string)

  /** One line of the listing: a non-empty line split at its first tab into status and path, or nothing. */
  function ParseChangeLine(line: string): (r: Option<Change>)
    ensures r.None? <==> line == "" || '\t' !in line
    ensures r.Some? ==> '\t' !in r.value.status && r.value.status + "\t" + r.value.path == line
  {
    if line == "" then None
    else
      var parts := SplitOnce(line, '\t');
      if |parts| == 2 then Some(Change(parts[1], parts[0])) else None
  }

  /** The parsed lines that yield a change, in input order. */
  function ParseChangeLines(lines: seq<string>): (r: seq<Change>)
    ensures |r| <= |lines|
  {
    if |lines| == 0 then []
    else
      var prev := ParseChangeLines(lines[..|lines| - 1]);
      match ParseChangeLine(lines[|lines| - 1])
      case None => prev
      case Some(c) => prev + [c]
  }

  /** `_get_changed_files_from_branch` once the command has run: nothing unless it succeeded. */
  function ChangedFiles(p: Proc): (r: seq<Change>)
    ensures p.returncode != 0 ==> r == []
  {
    if p.returncode == 0 then ParseChangeLines(Split(Strip(p.stdout), '\n')) else []
  }

  /** The parsing loop of `_get_changed_files_from_branch`. */
  method GetChangedFiles(p: Proc) returns (files: seq<Change>)
    ensures files == ChangedFiles(p)
  {
    files := [];
    if p.returncode == 0 {
      var lines := Split(Strip(p.stdout), '\n');
      var i := 0;
      while i < |lines|
        invariant 0 <= i <= |lines|
        invariant files == ParseChangeLines(lines[..i])
      {
        assert lines[..i + 1][..i] == lines[..i];
        var line := lines[i];
        if line != "" {
          var parts := SplitOnce(line, '\t');
          if |parts| == 2 {
            files := files + [Change(parts[1], parts[0])];
          }
        }
        i := i + 1;
      }
      assert lines[..|lines|] == lines;
    }
  }

  /** Parsing line by line: the changes of two runs of lines are the changes of each, in order. */
  lemma {:induction false} ParseChangeLinesAppend(a: seq<string>, b: seq<string>)
    ensures ParseChangeLines(a + b) == ParseChangeLines(a) + ParseChangeLines(b)
    decreases |b|
  {
    if |b| == 0 {
      assert a + b == a;
    } else {
      var b' := b[..|b| - 1];
      assert (a + b)[..|a + b| - 1] == a + b';
      ParseChangeLinesAppend(a, b');
    }
  }

  /** Lines without a tab (and empty lines) are dropped. */
  lemma {:induction false} UntabbedLinesDropped(a: seq<string>, line: string, b: seq<string>)
    requires '\t' !in line
    ensures ParseChangeLines(a + [line] + b) == ParseChangeLines(a + b)
  {
    ParseChangeLinesAppend(a + [line], b);
    ParseChangeLinesAppend(a, [line]);
    assert [line][..0] == [];
    ParseChangeLinesAppend(a, b);
  }

  /** A line of the listing as git writes it: status, tab, path. */
  function ChangeLine(c: Change): string {
    c.status + "\t" + c.path
  }

  function ChangeLines(cs: seq<Change>): (r: seq<string>)
    ensures |r| == |cs|
    ensures forall k :: 0 <= k < |cs| ==> r[k] == ChangeLine(cs[k])
  {
    seq(|cs|, k requires 0 <= k < |cs| => ChangeLine(cs[k]))
  }

  /** Splitting at the first separator of a text made of a separator-free head, the separator and a tail. */
  lemma {:induction false} SplitOnceAt(p: string, sep: char, t: string)
    requires sep !in p
    ensures SplitOnce(p + [sep] + t, sep) == [p, t]
  {
    if |p| == 0 {
      assert p + [sep] + t == [sep] + t;
      assert ([sep] + t)[1..] == t;
    } else {
      var s := p + [sep] + t;
      assert s[0] == p[0];
      assert s[1..] == p[1..] + [sep] + t;
      SplitOnceAt(p[1..], sep, t);
      assert [p[0]] + p[1..] == p;
    }
  }

  /** A change whose status and path fit on one line, with a non-empty, tab-free status. */
  predicate Writable(c: Change) {
    c.status != "" && '\t' !in c.status && '\n' !in c.status && '\n' !in c.path
  }

  /** Parsing undoes writing, line by line. */
  lemma {:induction false} ParseChangeLinesOfWritten(cs: seq<Change>)
    requires forall k :: 0 <= k < |cs| ==> Writable(cs[k])
    ensures ParseChangeLines(ChangeLines(cs)) == cs
  {
    if |cs| > 0 {
      var init := cs[..|cs| - 1];
      var c := cs[|cs| - 1];
      assert ChangeLines(cs)[..|cs| - 1] == ChangeLines(init);
      ParseChangeLinesOfWritten(init);
      SplitOnceAt(c.status, '\t', c.path);
      assert ChangeLine(c) == c.status + ['\t'] + c.path;
      assert cs == init + [c];
    }
  }

  lemma NoNewlineInLine(c: Change)
    requires Writable(c)
    ensures '\n' !in ChangeLine(c)
  {
    var l := ChangeLine(c);
    forall k | 0 <= k < |l| ensures l[k] != '\n' {
      if k < |c.status| {
        assert l[k] == c.status[k];
      } else if k > |c.status| {
        assert l[k] == c.path[k - |c.status| - 1];
      }
    }
  }

  /**
   * Round trip: the listing git prints for a list of changes (one line each, newline-terminated) parses back to
   * that list, in order, provided the first status starts and the last path ends with a non-blank character.
   */
  lemma ChangedFilesRoundTrip(cs: seq<Change>)
    requires forall k :: 0 <= k < |cs| ==> Writable(cs[k])
    requires |cs| > 0 ==> (cs[0].status != "" && !IsSpace(cs[0].status[0]) && cs[|cs| - 1].path != ""
                           && !IsSpace(cs[|cs| - 1].path[|cs[|cs| - 1].path| - 1]))
    ensures ChangedFiles(Proc(0, Join(ChangeLines(cs), '\n') + "\n", "")) == cs
  {
    var lines := ChangeLines(cs);
    var text := Join(lines, '\n');
    StripPadded("", text, "\n");
    assert "" + text + "\n" == text + "\n";
    if |cs| == 0 {
      assert Split("", '\n') == [""];
      assert [""][..0] == [];
    } else {
      WrittenListing(cs);
      StripStripped(text);
      ParseChangeLinesOfWritten(cs);
    }
  }

  /** The lines of a non-empty listing join into a text without outer blanks that splits back into those lines. */
  lemma WrittenListing(cs: seq<Change>)
    requires forall k :: 0 <= k < |cs| ==> Writable(cs[k])
    requires |cs| > 0 && cs[0].status != "" && !IsSpace(cs[0].status[0]) && cs[|cs| - 1].path != ""
    requires !IsSpace(cs[|cs| - 1].path[|cs[|cs| - 1].path| - 1])
    ensures Stripped(Join(ChangeLines(cs), '\n'))
    ensures Split(Join(ChangeLines(cs), '\n'), '\n') == ChangeLines(cs)
  {
    var lines := ChangeLines(cs);
    forall k | 0 <= k < |lines| ensures '\n' !in lines[k] && lines[k] != "" {
      NoNewlineInLine(cs[k]);
    }
    JoinStartsAndEnds(lines, '\n');
    SplitJoin(lines, '\n');
  }

  /** A join of non-empty pieces starts with the first piece's first character and ends with the last's last one. */
  lemma {:induction false} JoinStartsAndEnds(pieces: seq<string>, sep: char)
    requires |pieces| > 0 && forall k :: 0 <= k < |pieces| ==> pieces[k] != ""
    ensures var j := Join(pieces, sep);
      |j| > 0 && j[0] == pieces[0][0] && j[|j| - 1] == pieces[|pieces| - 1][|pieces[|pieces| - 1]| - 1]
  {
    if |pieces| > 1 {
      var rest := pieces[1..];
      assert forall k :: 0 <= k < |rest| ==> rest[k] == pieces[k + 1];
      JoinStartsAndEnds(rest, sep);
      var tail := Join(rest, sep);
      var head := pieces[0] + [sep];
      assert Join(pieces, sep) == head + tail;
      assert (head + tail)[0] == head[0];
      assert (head + tail)[|head + tail| - 1] == tail[|tail| - 1];
      assert rest[|rest| - 1] == pieces[|pieces| - 1];
    }
  }

  // ---------------------------------------------------------------------
  // Conflict collection

  /**
   * The path the regular expression of `_check_git_conflicts` extracts from a merge-tree line (its first group),
   * or `None` when it does not match.  The expression itself is not part of this model.
   */
  type Extract = string -> Option<string>

  /** What one merge-tree line contributes: the stripped path of a matching `CONFLICT` line, unless empty. */
  function ConflictCandidate(line: string, extract: Extract): (r: Option<string>)
    ensures r.Some? ==> Contains(line, "CONFLICT") && r.value != ""
  {
    if Contains(line, "CONFLICT") && extract(line).Some? && Strip(extract(line).value) != "" then
      Some(Strip(extract(line).value))
    else None
  }

  /** Every line's contribution, in order, duplicates included. */
  function ConflictCandidates(lines: seq<string>, extract: Extract): (r: seq<string>)
    ensures forall k :: 0 <= k < |r| ==> r[k] != ""
  {
    if |lines| == 0 then []
    else
      var prev := ConflictCandidates(lines[..|lines| - 1], extract);
      match ConflictCandidate(lines[|lines| - 1], extract)
      case None => prev
      case Some(p) => prev + [p]
  }

  /** The conflicting files parsed from merge-tree output: each candidate once, in first-seen order. */
  function ParsedConflicts(output: string, extract: Extract): (r: seq<string>)
    ensures NoDup(r)
    ensures forall k :: 0 <= k < |r| ==> r[k] != ""
  {
    Dedupe(ConflictCandidates(Split(output, '\n'), extract))
  }

  /** Some line names `x` as a conflicting path. */
  predicate NamedByLine(lines: seq<string>, extract: Extract, x: string) {
    exists k :: 0 <= k < |lines| && ConflictCandidate(lines[k], extract) == Some(x)
  }

  /** Only lines containing `CONFLICT` contribute, and each contributes its own extracted path. */
  lemma {:induction false} ConflictCandidatesFrom(lines: seq<string>, extract: Extract, x: string)
    ensures x in ConflictCandidates(lines, extract) <==> NamedByLine(lines, extract, x)
  {
    if |lines| > 0 {
      var init := lines[..|lines| - 1];
      ConflictCandidatesFrom(init, extract, x);
      if exists k :: 0 <= k < |lines| && ConflictCandidate(lines[k], extract) == Some(x) {
        var k :| 0 <= k < |lines| && ConflictCandidate(lines[k], extract) == Some(x);
        if k < |init| {
          assert init[k] == lines[k];
        }
      }
      if exists k :: 0 <= k < |init| && ConflictCandidate(init[k], extract) == Some(x) {
        var k :| 0 <= k < |init| && ConflictCandidate(init[k], extract) == Some(x);
        assert lines[k] == init[k];
      }
    }
  }

  /** The paths listed are exactly the paths of the `CONFLICT` lines. */
  lemma ParsedConflictsMembers(output: string, extract: Extract, x: string)
    ensures x in ParsedConflicts(output, extract) <==> NamedByLine(Split(output, '\n'), extract, x)
  {
    var lines := Split(output, '\n');
    var cs := ConflictCandidates(lines, extract);
    assert ParsedConflicts(output, extract) == Dedupe(cs);
    assert x in Dedupe(cs) <==> x in cs;
    ConflictCandidatesFrom(lines, extract, x);
  }

  /** The paths are listed in the order the lines first name them. */
  lemma ParsedConflictsOrder(output: string, extract: Extract)
    ensures var cs := ConflictCandidates(Split(output, '\n'), extract);
      var r := ParsedConflicts(output, extract);
      forall i, j :: 0 <= i < j < |r| ==> FirstIndex(cs, r[i]) < FirstIndex(cs, r[j])
  {
    DedupeOrder(ConflictCandidates(Split(output, '\n'), extract));
  }

  /** The parsing loop of `_check_git_conflicts`: append each stripped match not already listed. */
  method CollectConflicts(output: string, extract: Extract) returns (files: seq<string>)
    ensures files == ParsedConflicts(output, extract)
  {
    var lines := Split(output, '\n');
    files := [];
    var i := 0;
    while i < |lines|
      invariant 0 <= i <= |lines|
      invariant files == Dedupe(ConflictCandidates(lines[..i], extract))
    {
      assert lines[..i + 1][..i] == lines[..i];
      var line := lines[i];
      if Contains(line, "CONFLICT") {
        var m := extract(line);
        if m.Some? {
          var path := Strip(m.value);
          if path != "" && path !in files {
            files := files + [path];
          }
        }
      }
      i := i + 1;
    }
    assert lines[..|lines|] == lines;
  }

  /** `set(out.strip().split("\n")) if out.strip() else set()`: the names a `git diff --name-only` printed. */
  function DiffNames(p: Proc): (r: set<string>)
    ensures Strip(p.stdout) == "" ==> r == {}
  {
    var s := Strip(p.stdout);
    if s == "" then {} else Elems(Split(s, '\n'))
  }

  /** `list(s)`: the elements of a set in some order, each once. */
  method ListOfSet(s: set<string>) returns (xs: seq<string>)
    ensures NoDup(xs) && Elems(xs) == s
  {
    xs := [];
    var rest := s;
    while rest != {}
      invariant rest <= s
      invariant NoDup(xs) && Elems(xs) == s - rest
      decreases |rest|
    {
      var x :| x in rest;
      assert x !in xs by {
        assert x !in Elems(xs);
      }
      assert Elems(xs + [x]) == Elems(xs) + {x};
      xs := xs + [x];
      rest := rest - {x};
    }
  }

  /** The result dict of `_check_git_conflicts`. */
  datatype ConflictCheck = ConflictCheck(hasConflicts: bool, conflictingFiles: seq<string>, baseBranch: string,
                                         specBranch: string)

  /** `spec_branch`: the branch a spec's build lives on. */
  function SpecBranch(specName: string): string {
    "auto-claude/" + specName
  }

  /** Did every command before `git merge-tree` run and succeed, so that merge-tree itself was run? */
  predicate ReachesMergeTree(head: Option<Proc>, mergeBase: Option<Proc>, mainCommit: Option<Proc>,
                             specCommit: Option<Proc>)
  {
    && head.Some? && mergeBase.Some? && mergeBase.value.returncode == 0
    && mainCommit.Some? && specCommit.Some?
    && mainCommit.value.returncode == 0 && specCommit.value.returncode == 0
  }

  /**
   * `_check_git_conflicts` over the results of its git commands, in the order it runs them: `git rev-parse
   * --abbrev-ref HEAD`, `git merge-base`, `git rev-parse` of each branch, `git merge-tree`, and the two
   * `git diff --name-only` of the fallback.  Any failure ends the check with the result built so far; a command
   * that raises (`None`) does the same, the exception being caught.
   */
  method CheckGitConflicts(specName: string, head: Option<Proc>, mergeBase: Option<Proc>,
                           mainCommit: Option<Proc>, specCommit: Option<Proc>, mergeTree: Option<Proc>,
                           mainDiff: Option<Proc>, specDiff: Option<Proc>, extract: Extract)
    returns (r: ConflictCheck)
    ensures r.specBranch == SpecBranch(specName)
    ensures r.baseBranch == if head.Some? && head.value.returncode == 0 then Strip(head.value.stdout) else "main"
    ensures r.hasConflicts <==>
      ReachesMergeTree(head, mergeBase, mainCommit, specCommit) && mergeTree.Some? && mergeTree.value.returncode != 0
    ensures NoDup(r.conflictingFiles)
    ensures !r.hasConflicts ==> r.conflictingFiles == []
    ensures r.hasConflicts ==>
      var parsed := ParsedConflicts(mergeTree.value.stdout + mergeTree.value.stderr, extract);
      && (parsed != [] ==> r.conflictingFiles == parsed)
      && (parsed == [] && mainDiff.Some? && specDiff.Some? ==>
            Elems(r.conflictingFiles) == DiffNames(mainDiff.value) * DiffNames(specDiff.value))
      && (parsed == [] && (mainDiff.None? || specDiff.None?) ==> r.conflictingFiles == [])
  {
    r := ConflictCheck(false, [], "main", SpecBranch(specName));
    if head.None? {
      return;
    }
    if head.value.returncode == 0 {
      r := r.(baseBranch := Strip(head.value.stdout));
    }
    if mergeBase.None? || mergeBase.value.returncode != 0 {
      return;
    }
    if mainCommit.None? || specCommit.None? {
      return;
    }
    if mainCommit.value.returncode != 0 || specCommit.value.returncode != 0 {
      return;
    }
    if mergeTree.None? {
      return;
    }
    if mergeTree.value.returncode != 0 {
      r := r.(hasConflicts := true);
      var files := CollectConflicts(mergeTree.value.stdout + mergeTree.value.stderr, extract);
      r := r.(conflictingFiles := files);
      if files == [] {
        if mainDiff.None? || specDiff.None? {
          return;
        }
        var both := ListOfSet(DiffNames(mainDiff.value) * DiffNames(specDiff.value));
        r := r.(conflictingFiles := both);
      }
    }
  }
}
