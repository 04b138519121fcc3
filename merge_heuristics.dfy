/**
 * The checks `workspace.py` makes around a three-way file merge: the heuristic merge used when no AI is available,
 * the binary-extension test and the guards `_merge_file_with_ai` applies before calling the AI.
 */
module MergeHeuristics {
  import opened Wrappers
  import opened PyText

  // ---------------------------------------------------------------------
  // Lines

  /** The characters `str.splitlines` breaks a line after. */
  predicate IsLineBreak(c: char) {
    c == '\n' || c == '\r' || c == '\U{0B}' || c == '\U{0C}' || ('\U{1C}' <= c <= '\U{1E}')
    || c == '\U{85}' || c == '\U{2028}' || c == '\U{2029}'
  }

  /** Where the first line of a non-empty text ends, its terminator included (`\r\n` counts as one). */
  function LineEnd(s: string): (k: nat)
    requires |s| > 0
    ensures 0 < k <= |s|
    decreases |s|
  {
    if IsLineBreak(s[0]) then (if s[0] == '\r' && |s| > 1 && s[1] == '\n' then 2 else 1)
    else if |s| == 1 then 1
    else 1 + LineEnd(s[1..])
  }

  /** `s.splitlines(keepends=True)`. */
  function Lines(s: string): (r: seq<string>)
    ensures forall k :: 0 <= k < |r| ==> |r[k]| > 0
    decreases |s|
  {
    if |s| == 0 then [] else [s[..LineEnd(s)]] + Lines(s[LineEnd(s)..])
  }

  function Concat(xs: seq<string>): string {
    if |xs| == 0 then "" else xs[0] + Concat(xs[1..])
  }

  /** With their terminators kept, the lines of a text make up the text. */
  lemma {:induction false} ConcatLines(s: string)
    ensures Concat(Lines(s)) == s
    decreases |s|
  {
    if |s| > 0 {
      var k := LineEnd(s);
      ConcatLines(s[k..]);
      assert s[..k] + s[k..] == s;
    }
  }

  /** So two texts have the same lines exactly when they are the same text. */
  lemma SameLines(a: string, b: string)
    ensures Lines(a) == Lines(b) <==> a == b
  {
    ConcatLines(a);
    ConcatLines(b);
  }

  // ---------------------------------------------------------------------
  // The heuristic merge

  /**
   * `_heuristic_merge`: without a base the worktree wins; otherwise a side whose lines equal the base's (an empty
   * unified diff) gives way to the other side, and when both sides changed there is no result.
   */
  function HeuristicMerge(main: string, worktree: string, base: Option<string>): Option<string> {
    match base
    case None => Some(worktree)
    case Some(b) =>
      if Lines(b) == Lines(main) then Some(worktree)
      else if Lines(b) == Lines(worktree) then Some(main)
      else None
  }

  /**
   * The heuristic merge never invents text: it yields one of the two sides, keeps the change of the one side that
   * changed, and fails exactly when a base is known and both sides differ from it.
   */
  lemma HeuristicMergeOutcome(main: string, worktree: string, base: Option<string>)
    ensures var r := HeuristicMerge(main, worktree, base);
      && (r == None <==> base.Some? && main != base.value && worktree != base.value)
      && (r.Some? ==> r.value == main || r.value == worktree)
      && (base.Some? && r.Some? && main != base.value ==> r == Some(main))
      && (base.Some? && r.Some? && worktree != base.value ==> r == Some(worktree))
      && (base == None ==> r == Some(worktree))
  {
    if base.Some? {
      SameLines(base.value, main);
      SameLines(base.value, worktree);
    }
  }

  /** Identical edits on both sides still defeat the heuristic. */
  lemma HeuristicMergeSameEdit(s: string, b: string)
    requires s != b
    ensures HeuristicMerge(s, s, Some(b)) == None
  {
    HeuristicMergeOutcome(s, s, Some(b));
  }

  // ---------------------------------------------------------------------
  // Binary files

  /** `BINARY_EXTENSIONS`. */
  const BinaryExtensions: set<string> := {
    ".png", ".jpg", ".jpeg", ".gif", ".ico", ".webp", ".bmp", ".svg",
    ".pdf", ".doc", ".docx", ".xls", ".xlsx", ".ppt", ".pptx",
    ".zip", ".tar", ".gz", ".rar", ".7z",
    ".exe", ".dll", ".so", ".dylib", ".bin",
    ".mp3", ".mp4", ".wav", ".avi", ".mov", ".mkv",
    ".woff", ".woff2", ".ttf", ".otf", ".eot",
    ".pyc", ".pyo", ".class", ".o", ".obj"
  }

  /** The path's components once `pathlib` has dropped empty and `.` components. */
  function Components(path: string): (r: seq<string>)
    ensures forall k :: 0 <= k < |r| ==> r[k] != "" && r[k] != "." && '/' !in r[k]
  {
    var pieces := Split(path, '/');
    KeptComponents(pieces)
  }

  function KeptComponents(pieces: seq<string>): (r: seq<string>)
    requires forall k :: 0 <= k < |pieces| ==> '/' !in pieces[k]
    ensures forall k :: 0 <= k < |r| ==> r[k] != "" && r[k] != "." && '/' !in r[k]
  {
    if |pieces| == 0 then []
    else (if pieces[0] == "" || pieces[0] == "." then [] else [pieces[0]]) + KeptComponents(pieces[1..])
  }

  /** `Path(path).name`: the last component, or the empty text. */
  function Name(path: string): (r: string)
    ensures '/' !in r
  {
    var cs := Components(path);
    if |cs| == 0 then "" else cs[|cs| - 1]
  }

  /** The index of the last `.` in `s`, as `str.rfind` gives it. */
  function LastDot(s: string): (r: int)
    ensures -1 <= r < |s|
    ensures r >= 0 ==> s[r] == '.'
    ensures forall k :: r < k < |s| ==> s[k] != '.'
  {
    if |s| == 0 then -1 else if s[|s| - 1] == '.' then |s| - 1 else LastDot(s[..|s| - 1])
  }

  /** `PurePath.suffix` of a name: from its last dot on, unless that dot leads or ends the name. */
  function Suffix(name: string): (r: string)
    ensures r == "" || (r[0] == '.' && |r| >= 2 && '.' !in r[1..])
  {
    var i := LastDot(name);
    if 0 < i < |name| - 1 then name[i..] else ""
  }

  /** `_is_binary_file`: the lower-cased suffix of the path's name is a binary extension. */
  predicate IsBinaryFile(path: string) {
    Lower(Suffix(Name(path))) in BinaryExtensions
  }

  /** Lower-casing a text keeps its dots and slashes where they were. */
  lemma LowerKeepsChar(s: string, c: char, k: nat)
    requires k < |s| && !('A' <= c <= 'Z') && !('a' <= c <= 'z')
    ensures (Lower(s)[k] == c) == (s[k] == c)
  {
  }

  lemma {:induction false} LastDotLower(s: string)
    ensures LastDot(Lower(s)) == LastDot(s)
    decreases |s|
  {
    if |s| > 0 {
      assert Lower(s)[..|s| - 1] == Lower(s[..|s| - 1]);
      LastDotLower(s[..|s| - 1]);
    }
  }

  lemma SuffixLower(name: string)
    ensures Suffix(Lower(name)) == Lower(Suffix(name))
  {
    LastDotLower(name);
    var i := LastDot(name);
    if 0 < i < |name| - 1 {
      assert Lower(name)[i..] == Lower(name[i..]);
    }
  }

  /** Every text of a list lower-cased. */
  function LowerEach(xs: seq<string>): (r: seq<string>)
    ensures |r| == |xs|
    ensures forall k {:trigger r[k]} :: 0 <= k < |xs| ==> r[k] == Lower(xs[k])
  {
    seq(|xs|, k requires 0 <= k < |xs| => Lower(xs[k]))
  }

  lemma {:induction false} SplitLower(s: string)
    ensures Split(Lower(s), '/') == LowerEach(Split(s, '/'))
    decreases |s|
  {
    if |s| > 0 {
      assert Lower(s)[1..] == Lower(s[1..]);
      SplitLower(s[1..]);
      if s[0] != '/' {
        assert Lower([s[0]] + Split(s[1..], '/')[0]) == [Lower(s)[0]] + Lower(Split(s[1..], '/')[0]);
      }
    }
  }

  lemma {:induction false} KeptComponentsLower(pieces: seq<string>)
    requires forall k :: 0 <= k < |pieces| ==> '/' !in pieces[k]
    ensures forall k :: 0 <= k < |pieces| ==> '/' !in LowerEach(pieces)[k]
    ensures KeptComponents(LowerEach(pieces)) == LowerEach(KeptComponents(pieces))
  {
    var lowered := LowerEach(pieces);
    forall k | 0 <= k < |pieces| ensures '/' !in lowered[k] {
      if '/' in lowered[k] {
        var m :| 0 <= m < |lowered[k]| && lowered[k][m] == '/';
        LowerKeepsChar(pieces[k], '/', m);
      }
    }
    if |pieces| > 0 {
      assert lowered[1..] == LowerEach(pieces[1..]);
      KeptComponentsLower(pieces[1..]);
      assert (Lower(pieces[0]) == "" || Lower(pieces[0]) == ".") <==> (pieces[0] == "" || pieces[0] == ".");
    }
  }

  /** The name of a lower-cased path is the lower-cased name. */
  lemma NameLower(path: string)
    ensures Name(Lower(path)) == Lower(Name(path))
  {
    var pieces := Split(path, '/');
    SplitLower(path);
    KeptComponentsLower(pieces);
  }

  /** The binary test ignores case: `IMAGE.PNG` is as binary as `image.png`. */
  lemma BinaryIgnoresCase(path: string)
    ensures IsBinaryFile(Lower(path)) == IsBinaryFile(path)
  {
    NameLower(path);
    SuffixLower(Name(path));
    LowerLower(Suffix(Name(path)));
  }

  /** A name without a dot, or whose only dot leads it (a hidden file such as `.png`), has no suffix and is not binary. */
  lemma NoSuffixNotBinary(path: string)
    requires LastDot(Name(path)) <= 0
    ensures !IsBinaryFile(path)
  {
    var n := Name(path);
    assert Suffix(n) == "";
    EmptyNotBinary();
  }

  lemma EmptyNotBinary()
    ensures Lower("") !in BinaryExtensions
  {
    assert Lower("") == "";
  }

  /** A single-component path is its own name. */
  lemma NameOfPlainName(name: string)
    requires '/' !in name && name != "" && name != "."
    ensures Name(name) == name
  {
    SplitNoSep(name, '/');
    assert KeptComponents([name]) == [name] + KeptComponents([]);
  }

  /**
   * Only the last dot counts: a name `stem` + `ext`, with `ext` a dot and a dot-free rest, is binary exactly when
   * the lower-cased `ext` is a binary extension (so `archive.png.txt` is not binary while `Photo.PNG` is).
   */
  lemma LastSuffixDecides(stem: string, ext: string)
    requires stem != "" && '/' !in stem
    requires |ext| >= 2 && ext[0] == '.' && '.' !in ext[1..] && '/' !in ext
    ensures IsBinaryFile(stem + ext) <==> Lower(ext) in BinaryExtensions
  {
    var name := stem + ext;
    assert '/' !in name by {
      forall k | 0 <= k < |name| ensures name[k] != '/' {
        if k < |stem| { assert name[k] == stem[k]; } else { assert name[k] == ext[k - |stem|]; }
      }
    }
    assert name != "." by { assert |name| >= 3; }
    NameOfPlainName(name);
    var i := LastDot(name);
    assert name[|stem|] == '.';
    assert i == |stem| by {
      forall k | |stem| < k < |name| ensures name[k] != '.' {
        assert name[k] == ext[1..][k - |stem| - 1];
      }
    }
    assert name[i..] == ext;
  }

  // ---------------------------------------------------------------------
  // The guards of the AI merge

  /** `MAX_FILE_LINES_FOR_AI`. */
  const MaxFileLinesForAi: nat := 5000

  /** `s.count(c)`. */
  function Count(s: string, c: char): (r: nat)
    ensures r <= |s|
  {
    if |s| == 0 then 0 else (if s[0] == c then 1 else 0) + Count(s[1..], c)
  }

  /** What the AI part of `_merge_file_with_ai` ends with, whose prompts and calls are not part of this model. */
  datatype AiAttempt =
    | AiMerged(content: string)   // a merge came back (and passed its syntax checks)
    | AiGaveUp                    // no usable merge: nothing extracted, or the syntax retry failed
    | AiRaised                    // the full-file AI call raised

  /**
   * `_merge_file_with_ai` (workspace.py lines 1858-2101): binary files and files over the line limit get no merge,
   * without an AI the heuristic merge decides, and an AI call that raises falls back to it too.
   */
  function MergeFileWithAi(path: string, main: string, worktree: string, base: Option<string>,
                           aiAvailable: bool, attempt: AiAttempt): (r: Option<string>)
    ensures IsBinaryFile(path) ==> r == None
    ensures Count(main, '\n') > MaxFileLinesForAi || Count(worktree, '\n') > MaxFileLinesForAi ==> r == None
    ensures (!aiAvailable && !IsBinaryFile(path) && Count(main, '\n') <= MaxFileLinesForAi
             && Count(worktree, '\n') <= MaxFileLinesForAi) ==> r == HeuristicMerge(main, worktree, base)
    ensures (aiAvailable && !IsBinaryFile(path) && Count(main, '\n') <= MaxFileLinesForAi
             && Count(worktree, '\n') <= MaxFileLinesForAi) ==>
      r == match attempt
           case AiMerged(content) => Some(content)
           case AiGaveUp => None
           case AiRaised => HeuristicMerge(main, worktree, base)
  {
    if IsBinaryFile(path) then None
    else
      var maxLines := if Count(main, '\n') >= Count(worktree, '\n') then Count(main, '\n') else Count(worktree, '\n');
      if maxLines > MaxFileLinesForAi then None
      else if !aiAvailable then HeuristicMerge(main, worktree, base)
      else
        match attempt
        case AiMerged(content) => Some(content)
        case AiGaveUp => None
        case AiRaised => HeuristicMerge(main, worktree, base)
  }

  /** A merge that stays on the heuristic path keeps the change of the one side that changed. */
  lemma MergeWithoutAiKeepsChange(path: string, main: string, worktree: string, b: string, attempt: AiAttempt)
    requires !IsBinaryFile(path)
    requires Count(main, '\n') <= MaxFileLinesForAi && Count(worktree, '\n') <= MaxFileLinesForAi
    requires main == b && worktree != b
    ensures MergeFileWithAi(path, main, worktree, Some(b), false, attempt) == Some(worktree)
  {
    HeuristicMergeOutcome(main, worktree, Some(b));
  }
}
