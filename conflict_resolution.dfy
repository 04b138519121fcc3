/**
 * `_resolve_git_conflicts_with_ai`: each conflicting file is skipped, taken from the worktree, deleted, merged or
 * left unresolved; when none is left unresolved, the files the spec branch changed are copied over as well.
 * What git and the AI merge answer for each file is an input, and so is whether processing a file raises.
 */
module ConflictResolution {
  import opened Wrappers
  import opened PyText
  import opened Lists
  import opened GitOutput
  import opened MergeHeuristics

  /** What processing one conflicting file finds. */
  datatype ConflictFile = ConflictFile(
    main: Option<string>,       // the file on the base branch, `None` when `git show` fails
    worktree: Option<string>,   // the file on the spec branch
    base: Option<string>,       // the file at the merge base
    aiAvailable: bool,          // whether the AI resolver has a call function
    attempt: AiAttempt,         // how the AI merge ends when it is tried
    failure: Option<string>)    // the message of an exception raised while processing the file

  /** What happens to one file. */
  datatype FileOutcome = Skipped | Written(content: string) | Deleted | Unresolved(reason: string)

  /** An entry of `remaining_conflicts`. */
  datatype Remaining = Remaining(file: string, reason: string, severity: string)

  /** A change made to the project's working tree. */
  datatype Action = Write(path: string, content: string) | Delete(path: string)

  const CouldNotResolve: string := "AI could not resolve the conflict"

  /** The merge base is used only when `git merge-base` succeeded with a non-empty answer. */
  predicate HasMergeBase(mergeBase: Proc) {
    mergeBase.returncode == 0 && Strip(mergeBase.stdout) != ""
  }

  /** The per-file classification of `_resolve_git_conflicts_with_ai`. */
  function ConflictOutcome(path: string, f: ConflictFile, hasBase: bool): (o: FileOutcome)
    ensures f.failure.Some? ==> o == Unresolved(f.failure.value)
    ensures f.failure.None? && f.main.None? && f.worktree.None? ==> o == Skipped
    ensures f.failure.None? && f.main.None? && f.worktree.Some? ==> o == Written(f.worktree.value)
    ensures f.failure.None? && f.main.Some? && f.worktree.None? ==> o == Deleted
    ensures f.failure.None? && f.main.Some? && f.worktree.Some? ==>
      var merged := MergeFileWithAi(path, f.main.value, f.worktree.value, if hasBase then f.base else None,
                                    f.aiAvailable, f.attempt);
      o == if merged.Some? then Written(merged.value) else Unresolved(CouldNotResolve)
  {
    if f.failure.Some? then Unresolved(f.failure.value)
    else if f.main.None? && f.worktree.None? then Skipped
    else if f.main.None? then Written(f.worktree.value)
    else if f.worktree.None? then Deleted
    else
      match MergeFileWithAi(path, f.main.value, f.worktree.value, if hasBase then f.base else None,
                            f.aiAvailable, f.attempt)
      case None => Unresolved(CouldNotResolve)
      case Some(m) => Written(m)
  }

  /** What the loops have accumulated: `resolved_files`, `remaining_conflicts` and the changes made. */
  datatype Pass = Pass(resolved: seq<string>, remaining: seq<Remaining>, actions: seq<Action>)

  /** Recording one conflicting file's outcome. */
  function Record(p: Pass, path: string, o: FileOutcome): Pass {
    match o
    case Skipped => p
    case Written(c) => Pass(p.resolved + [path], p.remaining, p.actions + [Write(path, c)])
    case Deleted => Pass(p.resolved + [path], p.remaining, p.actions + [Delete(path)])
    case Unresolved(reason) => Pass(p.resolved, p.remaining + [Remaining(path, reason, "high")], p.actions)
  }

  /** The first loop, over the conflicting files in order. */
  function ConflictPass(paths: seq<string>, facts: string -> ConflictFile, hasBase: bool): Pass {
    if |paths| == 0 then Pass([], [], [])
    else
      var path := paths[|paths| - 1];
      Record(ConflictPass(paths[..|paths| - 1], facts, hasBase), path, ConflictOutcome(path, facts(path), hasBase))
  }

  /** The files named in `remaining_conflicts`. */
  function RemainingFiles(rs: seq<Remaining>): (r: seq<string>)
    ensures |r| == |rs|
    ensures forall k :: 0 <= k < |rs| ==> r[k] == rs[k].file
  {
    seq(|rs|, k requires 0 <= k < |rs| => rs[k].file)
  }

  /** Whether an outcome counts the file as resolved. */
  predicate Resolves(o: FileOutcome) {
    o.Written? || o.Deleted?
  }

  /** A conflicting file is listed as resolved exactly when it was written or deleted. */
  lemma {:induction false} ConflictPassResolved(paths: seq<string>, facts: string -> ConflictFile, hasBase: bool,
                                                x: string)
    ensures x in ConflictPass(paths, facts, hasBase).resolved <==>
      x in paths && Resolves(ConflictOutcome(x, facts(x), hasBase))
  {
    if |paths| > 0 {
      var init := paths[..|paths| - 1];
      assert paths == init + [paths[|paths| - 1]];
      ConflictPassResolved(init, facts, hasBase, x);
    }
  }

  /** A conflicting file remains exactly when it could not be resolved. */
  lemma {:induction false} ConflictPassRemaining(paths: seq<string>, facts: string -> ConflictFile, hasBase: bool,
                                                 x: string)
    ensures x in RemainingFiles(ConflictPass(paths, facts, hasBase).remaining) <==>
      x in paths && ConflictOutcome(x, facts(x), hasBase).Unresolved?
  {
    if |paths| > 0 {
      var init := paths[..|paths| - 1];
      assert paths == init + [paths[|paths| - 1]];
      ConflictPassRemaining(init, facts, hasBase, x);
      var prev := ConflictPass(init, facts, hasBase).remaining;
      var cur := ConflictPass(paths, facts, hasBase).remaining;
      if cur != prev {
        assert RemainingFiles(cur) == RemainingFiles(prev) + [paths[|paths| - 1]];
      }
    }
  }

  /** The working tree gets `x`'s merged or new content, or loses `x`, exactly as `x`'s outcome says. */
  lemma {:induction false} ConflictPassActions(paths: seq<string>, facts: string -> ConflictFile, hasBase: bool,
                                               x: string, content: string)
    ensures var acts := ConflictPass(paths, facts, hasBase).actions;
      var o := ConflictOutcome(x, facts(x), hasBase);
      && (Write(x, content) in acts <==> x in paths && o == Written(content))
      && (Delete(x) in acts <==> x in paths && o == Deleted)
  {
    if |paths| > 0 {
      var init := paths[..|paths| - 1];
      assert paths == init + [paths[|paths| - 1]];
      ConflictPassActions(init, facts, hasBase, x, content);
    }
  }

  /** The conflict pass only lists a file as resolved or remaining once per time it is named. */
  lemma {:induction false} ConflictPassSizes(paths: seq<string>, facts: string -> ConflictFile, hasBase: bool)
    ensures var p := ConflictPass(paths, facts, hasBase); |p.resolved| + |p.remaining| <= |paths|
  {
    if |paths| > 0 {
      ConflictPassSizes(paths[..|paths| - 1], facts, hasBase);
    }
  }

  /** A conflicting file named once is resolved at most once. */
  lemma {:induction false} ConflictPassNoDup(paths: seq<string>, facts: string -> ConflictFile, hasBase: bool)
    requires NoDup(paths)
    ensures NoDup(ConflictPass(paths, facts, hasBase).resolved)
  {
    if |paths| > 0 {
      var init := paths[..|paths| - 1];
      var x := paths[|paths| - 1];
      ConflictPassNoDup(init, facts, hasBase);
      ConflictPassResolved(init, facts, hasBase, x);
      assert x !in init by {
        assert paths == init + [x];
      }
    }
  }

  // ---------------------------------------------------------------------
  // The non-conflicting files

  /** The Python values the `not in` filter compares: a path string or a `(path, status)` tuple. */
  datatype PyVal = PyText(text: string) | PyPair(first: string, second: string)

  function PyTexts(xs: seq<string>): (r: seq<PyVal>)
    ensures |r| == |xs|
    ensures forall k :: 0 <= k < |xs| ==> r[k] == PyText(xs[k])
  {
    seq(|xs|, k requires 0 <= k < |xs| => PyText(xs[k]))
  }

  /**
   * `[f for f in changed_files if f not in conflicting_files]` as written: each `f` is a `(path, status)` tuple
   * and `conflicting_files` a list of strings.
   */
  function NonConflictingAsWritten(changed: seq<Change>, conflicting: seq<string>): seq<Change> {
    if |changed| == 0 then []
    else
      var c := changed[|changed| - 1];
      var prev := NonConflictingAsWritten(changed[..|changed| - 1], conflicting);
      if PyPair(c.path, c.status) !in PyTexts(conflicting) then prev + [c] else prev
  }

  /** A tuple never equals a string, so the filter as written removes nothing. */
  lemma {:induction false} NonConflictingAsWrittenKeepsAll(changed: seq<Change>, conflicting: seq<string>)
    ensures NonConflictingAsWritten(changed, conflicting) == changed
  {
    if |changed| > 0 {
      NonConflictingAsWrittenKeepsAll(changed[..|changed| - 1], conflicting);
      var c := changed[|changed| - 1];
      assert PyPair(c.path, c.status) !in PyTexts(conflicting);
      assert changed[..|changed| - 1] + [c] == changed;
    }
  }

  /** The filter as intended: the changes whose path is not a conflicting file, in order. */
  function NonConflicting(changed: seq<Change>, conflicting: seq<string>): (r: seq<Change>)
    ensures forall c :: c in r <==> c in changed && c.path !in conflicting
  {
    if |changed| == 0 then []
    else
      var c := changed[|changed| - 1];
      var prev := NonConflicting(changed[..|changed| - 1], conflicting);
      assert changed == changed[..|changed| - 1] + [c];
      if c.path !in conflicting then prev + [c] else prev
  }

  /** The second loop, over the non-conflicting changes: deletions are made but not listed, copies are listed. */
  function CopyPass(p: Pass, changes: seq<Change>, specContent: string -> Option<string>, fails: string -> bool)
    : Pass
  {
    if |changes| == 0 then p
    else
      var prev := CopyPass(p, changes[..|changes| - 1], specContent, fails);
      var c := changes[|changes| - 1];
      if fails(c.path) then prev
      else if c.status == "D" then prev.(actions := prev.actions + [Delete(c.path)])
      else match specContent(c.path)
        case None => prev
        case Some(content) => Pass(prev.resolved + [c.path], prev.remaining, prev.actions + [Write(c.path, content)])
  }

  /** The paths a copy pass adds to `resolved_files`: the non-deleted changes whose content could be read. */
  lemma {:induction false} CopyPassResolved(p: Pass, changes: seq<Change>, specContent: string -> Option<string>,
                                            fails: string -> bool, x: string)
    ensures var q := CopyPass(p, changes, specContent, fails);
      && q.remaining == p.remaining
      && |q.resolved| >= |p.resolved| && q.resolved[..|p.resolved|] == p.resolved
      && (x in q.resolved[|p.resolved|..] <==>
            exists c :: c in changes && c.path == x && !fails(x) && c.status != "D" && specContent(x).Some?)
  {
    if |changes| > 0 {
      var init := changes[..|changes| - 1];
      var c := changes[|changes| - 1];
      assert changes == init + [c];
      CopyPassResolved(p, init, specContent, fails, x);
      var prev := CopyPass(p, init, specContent, fails);
      var q := CopyPass(p, changes, specContent, fails);
      if !fails(c.path) && c.status != "D" && specContent(c.path).Some? {
        assert q.resolved == prev.resolved + [c.path];
        assert q.resolved[|p.resolved|..] == prev.resolved[|p.resolved|..] + [c.path];
      }
    }
  }

  /** A copy pass over changes naming distinct paths, none already resolved, keeps the resolved list duplicate-free. */
  lemma {:induction false} CopyPassNoDup(p: Pass, changes: seq<Change>, specContent: string -> Option<string>,
                                         fails: string -> bool)
    requires NoDup(p.resolved)
    requires DistinctPaths(changes)
    requires forall c :: c in changes ==> c.path !in p.resolved
    ensures NoDup(CopyPass(p, changes, specContent, fails).resolved)
  {
    if |changes| > 0 {
      var init := changes[..|changes| - 1];
      var c := changes[|changes| - 1];
      CopyPassNoDup(p, init, specContent, fails);
      var prev := CopyPass(p, init, specContent, fails);
      CopyPassResolved(p, init, specContent, fails, c.path);
      assert c.path !in prev.resolved by {
        assert prev.resolved == p.resolved + prev.resolved[|p.resolved|..];
      }
    }
  }

  // ---------------------------------------------------------------------
  // The whole resolution

  /** The `stats` of a successful resolution. */
  datatype Stats = Stats(filesMerged: nat, conflictsResolved: nat, aiAssisted: nat)

  /** The dict `_resolve_git_conflicts_with_ai` returns, with the changes it made to the working tree. */
  datatype Resolution = Resolution(success: bool, resolved: seq<string>, remaining: seq<Remaining>,
                                   stats: Option<Stats>, actions: seq<Action>)

  /** The resolution, given the list of non-conflicting changes the second loop walks. */
  function Resolve(conflicting: seq<string>, facts: string -> ConflictFile, hasBase: bool, others: seq<Change>,
                   specContent: string -> Option<string>, fails: string -> bool): (r: Resolution)
    ensures r.success <==> r.remaining == []
    ensures r.success <==> r.stats.Some?
    ensures r.success ==> r.stats == Some(Stats(|r.resolved|, |conflicting|, |conflicting|))
  {
    var p := ConflictPass(conflicting, facts, hasBase);
    if p.remaining != [] then Resolution(false, p.resolved, p.remaining, None, p.actions)
    else
      var q := CopyPass(p, others, specContent, fails);
      CopyPassResolved(p, others, specContent, fails, "");
      Resolution(true, q.resolved, [], Some(Stats(|q.resolved|, |conflicting|, |conflicting|)), q.actions)
  }

  /** The resolution as the source computes it, with the filter that keeps every change. */
  function ResolveAsWritten(conflicting: seq<string>, facts: string -> ConflictFile, mergeBase: Proc, changed: Proc,
                            specContent: string -> Option<string>, fails: string -> bool): Resolution
  {
    Resolve(conflicting, facts, HasMergeBase(mergeBase),
            NonConflictingAsWritten(ChangedFiles(changed), conflicting), specContent, fails)
  }

  /** The resolution with the filter as intended. */
  function ResolveIntended(conflicting: seq<string>, facts: string -> ConflictFile, mergeBase: Proc, changed: Proc,
                           specContent: string -> Option<string>, fails: string -> bool): Resolution
  {
    Resolve(conflicting, facts, HasMergeBase(mergeBase),
            NonConflicting(ChangedFiles(changed), conflicting), specContent, fails)
  }

  /** The resolution succeeds exactly when no conflicting file ends unresolved. */
  lemma ResolveSucceeds(conflicting: seq<string>, facts: string -> ConflictFile, hasBase: bool, others: seq<Change>,
                        specContent: string -> Option<string>, fails: string -> bool)
    ensures Resolve(conflicting, facts, hasBase, others, specContent, fails).success <==>
      forall x :: x in conflicting ==> !ConflictOutcome(x, facts(x), hasBase).Unresolved?
  {
    var p := ConflictPass(conflicting, facts, hasBase);
    if p.remaining != [] {
      var x := p.remaining[0].file;
      assert x == RemainingFiles(p.remaining)[0];
      ConflictPassRemaining(conflicting, facts, hasBase, x);
    } else {
      forall x | x in conflicting ensures !ConflictOutcome(x, facts(x), hasBase).Unresolved? {
        ConflictPassRemaining(conflicting, facts, hasBase, x);
      }
    }
  }

  /**
   * With the intended filter, a resolution over distinct conflicting files and a listing naming each path once
   * lists every resolved file once.
   */
  lemma ResolveIntendedNoDup(conflicting: seq<string>, facts: string -> ConflictFile, mergeBase: Proc,
                             changed: Proc, specContent: string -> Option<string>, fails: string -> bool)
    requires NoDup(conflicting)
    requires DistinctPaths(ChangedFiles(changed))
    ensures NoDup(ResolveIntended(conflicting, facts, mergeBase, changed, specContent, fails).resolved)
  {
    var hasBase := HasMergeBase(mergeBase);
    var p := ConflictPass(conflicting, facts, hasBase);
    ConflictPassNoDup(conflicting, facts, hasBase);
    if p.remaining == [] {
      var cs := ChangedFiles(changed);
      var others := NonConflicting(cs, conflicting);
      NonConflictingDistinct(cs, conflicting);
      forall c | c in others ensures c.path !in p.resolved {
        ConflictPassResolved(conflicting, facts, hasBase, c.path);
      }
      CopyPassNoDup(p, others, specContent, fails);
    }
  }

  /** No path is named by two changes, as in a `git diff --name-status` listing. */
  predicate DistinctPaths(cs: seq<Change>) {
    forall i, j :: 0 <= i < j < |cs| ==> cs[i].path != cs[j].path
  }

  /** Filtering keeps paths distinct. */
  lemma {:induction false} NonConflictingDistinct(changed: seq<Change>, conflicting: seq<string>)
    requires DistinctPaths(changed)
    ensures DistinctPaths(NonConflicting(changed, conflicting))
  {
    if |changed| > 0 {
      var init := changed[..|changed| - 1];
      var c := changed[|changed| - 1];
      NonConflictingDistinct(init, conflicting);
      var prev := NonConflicting(init, conflicting);
      forall d | d in prev ensures d.path != c.path {
        var i :| 0 <= i < |init| && init[i] == d;
        assert changed[i] == d;
      }
      if c.path !in conflicting {
        var r := prev + [c];
        forall i, j | 0 <= i < j < |r| ensures r[i].path != r[j].path {
          assert r[i] == prev[i] && prev[i] in prev;
          if j < |prev| {
            assert r[j] == prev[j];
          } else {
            assert r[j] == c;
          }
        }
      }
    }
  }

  /**
   * As written, a conflicting file the spec branch changed is resolved twice: once by the conflict loop and once
   * more by the second loop, whose copy from the spec branch overwrites the merged text.  With the intended filter
   * it is resolved once and the merged text stays.
   */
  lemma ConflictingFileCopiedTwice(path: string, facts: string -> ConflictFile, mergeBase: Proc, changed: Proc,
                                   specContent: string -> Option<string>, fails: string -> bool)
    requires ConflictOutcome(path, facts(path), HasMergeBase(mergeBase)).Written?
    requires ChangedFiles(changed) == [Change(path, "M")]
    requires specContent(path).Some? && !fails(path)
    ensures ResolveAsWritten([path], facts, mergeBase, changed, specContent, fails).resolved == [path, path]
    ensures ResolveAsWritten([path], facts, mergeBase, changed, specContent, fails).actions ==
      [Write(path, ConflictOutcome(path, facts(path), HasMergeBase(mergeBase)).content), Write(path, specContent(path).value)]
    ensures ResolveIntended([path], facts, mergeBase, changed, specContent, fails).resolved == [path]
    ensures ResolveIntended([path], facts, mergeBase, changed, specContent, fails).actions ==
      [Write(path, ConflictOutcome(path, facts(path), HasMergeBase(mergeBase)).content)]
  {
    var hasBase := HasMergeBase(mergeBase);
    var o := ConflictOutcome(path, facts(path), hasBase);
    var p := Pass([path], [], [Write(path, o.content)]);
    SingleWrittenConflict(path, facts, hasBase);
    var kept := [Change(path, "M")];
    NonConflictingAsWrittenKeepsAll(kept, [path]);
    CopyOneChange(p, path, "M", specContent, fails);
    assert NonConflicting(kept, [path]) == [] by {
      assert kept[..0] == [];
    }
  }

  /** The conflict loop over one file the AI merged: that file is resolved and its merged text written. */
  lemma SingleWrittenConflict(path: string, facts: string -> ConflictFile, hasBase: bool)
    requires ConflictOutcome(path, facts(path), hasBase).Written?
    ensures ConflictPass([path], facts, hasBase) ==
      Pass([path], [], [Write(path, ConflictOutcome(path, facts(path), hasBase).content)])
  {
    assert [path][..0] == [];
  }

  /** The copy loop over one readable, non-deleted change: its path is resolved once more and its content written. */
  lemma CopyOneChange(p: Pass, path: string, status: string, specContent: string -> Option<string>,
                      fails: string -> bool)
    requires specContent(path).Some? && !fails(path) && status != "D"
    ensures CopyPass(p, [Change(path, status)], specContent, fails) ==
      Pass(p.resolved + [path], p.remaining, p.actions + [Write(path, specContent(path).value)])
  {
    assert [Change(path, status)][..0] == [];
  }

  /** The listing `M<tab>a.py` names one modified file, so `a.py` merged by the AI gives the duplicate. */
  lemma OneModifiedFileListing()
    ensures ChangedFiles(Proc(0, "M\ta.py\n", "")) == [Change("a.py", "M")]
  {
    var change := Change("a.py", "M");
    ChangedFilesRoundTrip([change]);
    assert Join(ChangeLines([change]), '\n') + "\n" == "M\ta.py\n";
  }

  /** The loop over the conflicting files, recording each file's outcome as it goes. */
  method ResolveConflictingFiles(conflicting: seq<string>, facts: string -> ConflictFile, hasBase: bool)
    returns (p: Pass)
    ensures p == ConflictPass(conflicting, facts, hasBase)
  {
    var resolved: seq<string> := [];
    var remaining: seq<Remaining> := [];
    var actions: seq<Action> := [];
    var i := 0;
    while i < |conflicting|
      invariant 0 <= i <= |conflicting|
      invariant Pass(resolved, remaining, actions) == ConflictPass(conflicting[..i], facts, hasBase)
    {
      var path := conflicting[i];
      var f := facts(path);
      ghost var next := Record(Pass(resolved, remaining, actions), path, ConflictOutcome(path, f, hasBase));
      assert ConflictPass(conflicting[..i + 1], facts, hasBase) == next by {
        assert conflicting[..i + 1][..i] == conflicting[..i];
      }
      if f.failure.Some? {
        remaining := remaining + [Remaining(path, f.failure.value, "high")];
      } else if f.main.None? && f.worktree.None? {
      } else if f.main.None? {
        resolved := resolved + [path];
        actions := actions + [Write(path, f.worktree.value)];
      } else if f.worktree.None? {
        resolved := resolved + [path];
        actions := actions + [Delete(path)];
      } else {
        var merged := MergeFileWithAi(path, f.main.value, f.worktree.value, if hasBase then f.base else None,
                                      f.aiAvailable, f.attempt);
        if merged.None? {
          remaining := remaining + [Remaining(path, CouldNotResolve, "high")];
        } else {
          resolved := resolved + [path];
          actions := actions + [Write(path, merged.value)];
        }
      }
      assert Pass(resolved, remaining, actions) == next;
      i := i + 1;
    }
    assert conflicting[..|conflicting|] == conflicting;
    p := Pass(resolved, remaining, actions);
  }

  /** The loop over the non-conflicting changes: deletions are made, readable files are copied and listed. */
  method CopyChanges(p: Pass, others: seq<Change>, specContent: string -> Option<string>, fails: string -> bool)
    returns (q: Pass)
    ensures q == CopyPass(p, others, specContent, fails)
  {
    var resolved, remaining, actions := p.resolved, p.remaining, p.actions;
    var j := 0;
    while j < |others|
      invariant 0 <= j <= |others|
      invariant Pass(resolved, remaining, actions) == CopyPass(p, others[..j], specContent, fails)
    {
      assert others[..j + 1][..j] == others[..j];
      var c := others[j];
      if !fails(c.path) {
        if c.status == "D" {
          actions := actions + [Delete(c.path)];
        } else {
          var content := specContent(c.path);
          if content.Some? {
            resolved := resolved + [c.path];
            actions := actions + [Write(c.path, content.value)];
          }
        }
      }
      j := j + 1;
    }
    assert others[..|others|] == others;
    q := Pass(resolved, remaining, actions);
  }

  /**
   * `_resolve_git_conflicts_with_ai` over what git and the AI answer: `mergeBase` is the `git merge-base` run,
   * `changed` the `git diff --name-status` run, `specContent` what `git show` gives on the spec branch and
   * `fails` which copies of the second loop raise.
   */
  method ResolveGitConflictsWithAi(conflicting: seq<string>, facts: string -> ConflictFile, mergeBase: Proc,
                                   changed: Proc, specContent: string -> Option<string>, fails: string -> bool)
    returns (r: Resolution)
    ensures r == ResolveAsWritten(conflicting, facts, mergeBase, changed, specContent, fails)
  {
    var hasBase := mergeBase.returncode == 0 && Strip(mergeBase.stdout) != "";
    var p := ResolveConflictingFiles(conflicting, facts, hasBase);
    if p.remaining != [] {
      return Resolution(false, p.resolved, p.remaining, None, p.actions);
    }
    var changes := GetChangedFiles(changed);
    var others := NonConflictingFilter(changes, conflicting);
    var q := CopyChanges(p, others, specContent, fails);
    CopyPassResolved(p, others, specContent, fails, "");
    r := Resolution(true, q.resolved, [], Some(Stats(|q.resolved|, |conflicting|, |conflicting|)), q.actions);
  }

  /** The list comprehension of the second loop, as written. */
  method NonConflictingFilter(changed: seq<Change>, conflicting: seq<string>) returns (kept: seq<Change>)
    ensures kept == NonConflictingAsWritten(changed, conflicting)
  {
    kept := [];
    var texts := PyTexts(conflicting);
    var i := 0;
    while i < |changed|
      invariant 0 <= i <= |changed|
      invariant kept == NonConflictingAsWritten(changed[..i], conflicting)
    {
      assert changed[..i + 1][..i] == changed[..i];
      if PyPair(changed[i].path, changed[i].status) !in texts {
        kept := kept + [changed[i]];
      }
      i := i + 1;
    }
    assert changed[..|changed|] == changed;
  }
}
