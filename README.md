# Plan fixing and merge decisions, modelled in Dafny

This project models two pieces of the Auto Claude build tool.

**The plan fixer** is `apps/backend/spec/validate_pkg/auto_fix.py`. `_normalize_status` maps any status
value onto the five statuses of the plan schema. `auto_fix_plan` repairs an `implementation_plan.json` in
place:

- older plans with top-level subtasks become one phase;
- missing plan, phase and subtask fields are filled in;
- phase numbers are taken from `phase_id`;
- `depends_on` lists are normalised;
- subtask statuses are normalised;
- a `fixed` flag decides whether the plan is written back.

**The merge decisions** come from `auto-claude/workspace.py`:

- the heuristic three-way merge;
- the binary-file and size guards in front of the AI merge;
- the parser for `git diff --name-status`;
- the conflict-list logic of `_check_git_conflicts`;
- the per-file classification and the result of `_resolve_git_conflicts_with_ai`;
- the `MergeLock` lock-file state machine;
- the decision tables of `choose_workspace` and `finalize_workspace`.

Some inputs come from code outside the model. Each becomes a parameter:

- what git prints (`Proc` values);
- what the AI merge returns (`AiAttempt`);
- the path extracted from a merge-tree line (`Extract`);
- the subtask alias normaliser (`Aliases`);
- menu answers, the clock and process liveness.

Modules:

| file | module | contents |
|---|---|---|
| `wrappers.dfy` | `Wrappers` | `Option` |
| `pytext.dfy` | `PyText` | the Python string methods the code uses: `strip`, `lower`, `isdigit`, `split`, `str(int)`, `repr(str)` |
| `json.dfy` | `JsonValue` | parsed JSON values; a dict is its key-to-value map plus its keys in insertion order |
| `auto_fix.dfy` | `AutoFix` | `_normalize_status` and `auto_fix_plan`. Each level (subtask, subtask list, phase, phase list, plan) has a reference function and a method that repairs the value in place, proved equal to that function |
| `lists.dfy` | `Lists` | ordered de-duplication (`if x not in xs: xs.append(x)`) |
| `git_output.dfy` | `GitOutput` | `_get_changed_files_from_branch` parsing and `_check_git_conflicts` |
| `merge_heuristics.dfy` | `MergeHeuristics` | `_heuristic_merge`, `_is_binary_file`, the guards of `_merge_file_with_ai` |
| `conflict_resolution.dfy` | `ConflictResolution` | `_resolve_git_conflicts_with_ai` |
| `merge_lock.dfy` | `MergeLocking` | `MergeLock`, a class over a shared lock-file object |
| `workspace_choice.dfy` | `WorkspaceChoices` | `choose_workspace`, `finalize_workspace` |

Where the code and its description disagree, the model follows the code:

- **`depends_on`.** A phase without `depends_on` keeps no `depends_on`. The default `[]` equals the
  normalised `[]`, so nothing is written.
- **Spurious `fixed` flag.** The flag can be raised without any change, in two cases:
  - the `chunks` fallback fires on falsy subtasks and puts back an equal value;
  - the alias normaliser reports a change.
  The lemmas state the flag as "changed, or one of those two cases".
- **Whole-plan idempotence.** This holds only under the conditions `RepairedPlanIsClean` names.
- **Non-dict plan.** A plan that is not a dict raises; it does not return `False`.
- **Failed write.** A failed write returns `False`. When `json.dump` fails partway, the file has already been
  truncated and is left damaged.
- **Undecodable file.** A plan file that is not UTF-8 raises `UnicodeDecodeError`, which the `except` clause does
  not catch.

## Model

| member | source | states |
|---|---|---|
| PyText.ReprQuote | apps/backend/spec/validate_pkg/auto_fix.py:96 | `repr` quotes with `"` exactly when the text has a `'` and no `"`, so the chosen quote occurs in the text only when both do |
| PyText.EscapeChar | apps/backend/spec/validate_pkg/auto_fix.py:96 | a written character starts with a backslash exactly when it is a backslash, the quote, tab, newline, carriage return or a non-printable character below U+0100 |
| PyText.StrRepr | apps/backend/spec/validate_pkg/auto_fix.py:96 | `repr` of a string begins and ends with its chosen quote |
| PyText.UnescapeEscaped | apps/backend/spec/validate_pkg/auto_fix.py:125-131 | the escapes `repr` writes read back as the original characters |
| PyText.StrReprRoundTrip | apps/backend/spec/validate_pkg/auto_fix.py:125-131 | the text between the quotes of `repr(s)` reads back as `s` |
| PyText.StrReprPlain | apps/backend/spec/validate_pkg/auto_fix.py:125-131 | a text without quotes, backslashes or non-printable characters is written between single quotes as it is |
| JsonValue.ApostropheInList | apps/backend/spec/validate_pkg/auto_fix.py:96 | `str(["it's"])` is `["it's"]` |
| AutoFix.StatusFor | apps/backend/spec/validate_pkg/auto_fix.py:19-32 | the status of a normalised text is always canonical, and a canonical text is its own status |
| AutoFix.NormalizeStatus | apps/backend/spec/validate_pkg/auto_fix.py:14-32 | every value maps to one of the five statuses; a non-string maps to `pending` |
| AutoFix.StatusForAliases | apps/backend/spec/validate_pkg/auto_fix.py:20-32 | for each of the five statuses, exactly which texts map to it; every unknown text maps to `pending` |
| AutoFix.NormalizeCanonical | apps/backend/spec/validate_pkg/auto_fix.py:19-21 | a canonical status maps to itself |
| AutoFix.NormalizeStatusIdempotent | apps/backend/spec/validate_pkg/auto_fix.py:14-32 | normalising a normalised status changes nothing |
| AutoFix.NormalizeStatusIgnoresCase | apps/backend/spec/validate_pkg/auto_fix.py:19 | lower-casing the input does not change the status |
| AutoFix.NormalizeStatusIgnoresPadding | apps/backend/spec/validate_pkg/auto_fix.py:19 | surrounding whitespace does not change the status |
| AutoFix.WithStatus | apps/backend/spec/validate_pkg/auto_fix.py:163-170 | a missing status becomes `pending`, a present one its normalised form; no other field changes |
| AutoFix.RepairedSubtaskFields | apps/backend/spec/validate_pkg/auto_fix.py:149-170 | a repaired subtask has the alias-normalised fields, an id (default `subtask-{i+1}-{j+1}`), a description (default `No description`) and a normalised status |
| AutoFix.RepairKeepsCleanSubtask | apps/backend/spec/validate_pkg/auto_fix.py:149-170 | a subtask with nothing to repair is left unchanged |
| AutoFix.RepairedSubtaskIsClean | apps/backend/spec/validate_pkg/auto_fix.py:149-170 | unless the alias normaliser still reports a change, a repaired subtask is clean and a second repair does nothing |
| AutoFix.FixSubtask | apps/backend/spec/validate_pkg/auto_fix.py:150-170 | the in-place subtask repair gives the reference subtask, and it is flagged exactly when the subtask was not clean |
| AutoFix.SubtaskFixReported | apps/backend/spec/validate_pkg/auto_fix.py:150-170 | a subtask is flagged exactly when the repair changes it or the alias normaliser reports a change |
| AutoFix.RepairSubtaskList | apps/backend/spec/validate_pkg/auto_fix.py:149-170 | the subtask loop raises exactly when some item is not a dict; a list keeps its length, and any other value is left unchanged and unflagged |
| AutoFix.SubtaskListReported | apps/backend/spec/validate_pkg/auto_fix.py:149-170 | the loop's flag is set exactly when the list changed or an alias report occurred |
| AutoFix.RepairKeepsCleanList | apps/backend/spec/validate_pkg/auto_fix.py:149-170 | a list of clean subtasks is returned unchanged and unflagged |
| AutoFix.RepairedListIsClean | apps/backend/spec/validate_pkg/auto_fix.py:149-170 | when the alias normaliser finds nothing more in it, a repaired list is clean and repairing it again gives no change and no flag |
| AutoFix.FixSubtaskList | apps/backend/spec/validate_pkg/auto_fix.py:149-170 | the loop that mutates each subtask computes the reference subtask-list repair |
| AutoFix.PhaseNumber | apps/backend/spec/validate_pkg/auto_fix.py:95-107 | an int `phase_id` is its own number; a digit string gives a non-negative number; null, booleans, lists and dicts give none |
| AutoFix.PhaseIdText | apps/backend/spec/validate_pkg/auto_fix.py:96 | the text form of a phase id is stripped, and a string id is its stripped self |
| AutoFix.PhaseNumberOfText | apps/backend/spec/validate_pkg/auto_fix.py:106-107 | the decimal text of n reads back as n |
| AutoFix.WithPhaseName | apps/backend/spec/validate_pkg/auto_fix.py:90-92 | `name` becomes `title` only when `name` is absent; no other field changes |
| AutoFix.WithPhaseNumber | apps/backend/spec/validate_pkg/auto_fix.py:94-117 | a phase without `phase` takes its number from `phase_id`, and `id` as the code sets it; only `phase` and `id` change |
| AutoFix.FixPhaseNumber | apps/backend/spec/validate_pkg/auto_fix.py:94-117 | the in-place `phase_id` step gives the reference result, and it raises the flag exactly when the phase changes |
| AutoFix.DependsOnEntries | apps/backend/spec/validate_pkg/auto_fix.py:125-127 | every entry of the comprehension is stripped, and there are no more entries than inputs |
| AutoFix.DependsOnEntriesMembers | apps/backend/spec/validate_pkg/auto_fix.py:125-127 | a text is kept exactly when it is the stripped `str` of some non-null entry |
| AutoFix.NormalizeDependsOn | apps/backend/spec/validate_pkg/auto_fix.py:123-131 | `None` gives `[]`, a non-list gives a one-element list, and every entry is stripped |
| AutoFix.WithDependsOn | apps/backend/spec/validate_pkg/auto_fix.py:123-134 | a present `depends_on` is replaced by its normalised list; an absent one stays absent; no other field changes |
| AutoFix.DependsOnEntriesStable | apps/backend/spec/validate_pkg/auto_fix.py:125-127 | a list of stripped strings normalises to itself |
| AutoFix.NormalizeDependsOnIdempotent | apps/backend/spec/validate_pkg/auto_fix.py:123-134 | normalising a normalised dependency list changes nothing |
| AutoFix.WithSubtaskSource | apps/backend/spec/validate_pkg/auto_fix.py:140-146 | `subtasks` comes from `chunks` (default `[]`) when missing, or when falsy and `chunks` is present; no other field changes |
| AutoFix.PhaseFields | apps/backend/spec/validate_pkg/auto_fix.py:90-138 | the phase steps before the subtasks step change no field but `name`, `phase`, `id` and `depends_on` |
| AutoFix.PhaseHeadName | apps/backend/spec/validate_pkg/auto_fix.py:90-138 | a phase ends with its `name`, else its `title`, else `Phase {i+1}` |
| AutoFix.PhaseHeadNumber | apps/backend/spec/validate_pkg/auto_fix.py:94-121 | a phase ends with its own `phase`, else the `phase_id` number, else `i+1` |
| AutoFix.PhaseHeadNamed | apps/backend/spec/validate_pkg/auto_fix.py:90-138 | after the phase-level steps every phase has a `name` and a `phase` |
| AutoFix.PhaseHeadDependsOn | apps/backend/spec/validate_pkg/auto_fix.py:123-134 | `depends_on` is normalised when present and stays missing when missing |
| AutoFix.PhaseHeadSubtasks | apps/backend/spec/validate_pkg/auto_fix.py:140-146 | a phase ends with its own subtasks or, under the fallback, its `chunks`; `chunks` is kept |
| AutoFix.PhaseHeadKeeps | apps/backend/spec/validate_pkg/auto_fix.py:89-146 | phase fields other than name, phase, id, depends_on and subtasks are untouched |
| AutoFix.PhaseHeadReported | apps/backend/spec/validate_pkg/auto_fix.py:89-146 | the phase-level flag is set exactly when the phase changed or the chunks fallback fired |
| AutoFix.FixPhaseHead | apps/backend/spec/validate_pkg/auto_fix.py:89-146 | the in-place phase-level steps compute the reference phase head and flag |
| AutoFix.RepairPhase | apps/backend/spec/validate_pkg/auto_fix.py:88-170 | a phase raises exactly when its selected subtasks contain a non-dict; otherwise its subtasks are the repaired list |
| AutoFix.WithRepairedSubtasks | apps/backend/spec/validate_pkg/auto_fix.py:140-170 | the repaired list is stored under `subtasks`, and under `chunks` too when it was taken from `chunks`; nothing else changes |
| AutoFix.FixPhase | apps/backend/spec/validate_pkg/auto_fix.py:88-170 | the in-place phase repair, subtasks included, computes the reference phase repair |
| AutoFix.PhaseFixReported | apps/backend/spec/validate_pkg/auto_fix.py:88-170 | a phase is flagged exactly when it changed, the chunks fallback fired, or an alias report occurred |
| AutoFix.KeyChangeSurvives | apps/backend/spec/validate_pkg/auto_fix.py:89-170 | a change to `name`, `phase`, `id` or `depends_on` made by the phase-level steps is still there after the subtasks are stored |
| AutoFix.RepairKeepsCleanPhase | apps/backend/spec/validate_pkg/auto_fix.py:88-170 | a clean phase is returned unchanged and unflagged |
| AutoFix.RepairedPhaseClean | apps/backend/spec/validate_pkg/auto_fix.py:88-170 | outside the chunks fallback and alias reports, a repaired phase has a name, a number, a normalised `depends_on` and clean subtasks |
| AutoFix.RepairedPhaseIsClean | apps/backend/spec/validate_pkg/auto_fix.py:88-170 | outside the chunks fallback and alias reports, a repaired phase is clean and a second repair does nothing |
| AutoFix.RepairItems | apps/backend/spec/validate_pkg/auto_fix.py:88 | the loop over a list raises exactly when some item is not a dict or its repair raises; otherwise each item is repaired in position and the flag is the OR of the item flags |
| AutoFix.RepairPhaseList | apps/backend/spec/validate_pkg/auto_fix.py:88-170 | the phases loop keeps a list's length; a non-list iterates as Python would |
| AutoFix.FixPhaseList | apps/backend/spec/validate_pkg/auto_fix.py:88-170 | the loop that mutates each phase computes the reference phase-list repair |
| AutoFix.PhaseListReported | apps/backend/spec/validate_pkg/auto_fix.py:88-170 | the loop's flag is set exactly when the list changed or some phase hit a spurious-report case |
| AutoFix.RepairKeepsCleanPhaseList | apps/backend/spec/validate_pkg/auto_fix.py:88-170 | a list of clean phases is returned unchanged and unflagged |
| AutoFix.RepairedPhaseListIsClean | apps/backend/spec/validate_pkg/auto_fix.py:88-170 | once its phases are settled, a repaired list is clean and repairing it again gives no change and no flag |
| AutoFix.LegacyPhase | apps/backend/spec/validate_pkg/auto_fix.py:62-69 | the single phase is `{id:"1", phase:1, name:"Phase 1", subtasks}` |
| AutoFix.WithLegacyLayout | apps/backend/spec/validate_pkg/auto_fix.py:57-72 | an old layout gets exactly that one phase and loses `subtasks` and `chunks`; any other plan is unchanged |
| AutoFix.PlanHeadFields | apps/backend/spec/validate_pkg/auto_fix.py:57-85 | `feature` (title, else spec_id, else `Unnamed Feature`), `workflow_type` and `phases` are filled when missing; present keys are untouched |
| AutoFix.PlanHeadDefaults | apps/backend/spec/validate_pkg/auto_fix.py:74-81 | `feature` defaults to title, else spec_id, else `Unnamed Feature`, and `workflow_type` to `feature`, only when missing |
| AutoFix.DefaultFeatureKept | apps/backend/spec/validate_pkg/auto_fix.py:57-76 | moving an older plan's subtasks into a phase does not change whether `feature` is present or what it defaults to |
| AutoFix.PlanHeadPhases | apps/backend/spec/validate_pkg/auto_fix.py:57-85 | `phases` is kept when present, becomes the one legacy phase for an older plan, and is `[]` otherwise |
| AutoFix.PlanHeadRest | apps/backend/spec/validate_pkg/auto_fix.py:57-85 | `subtasks` and `chunks` are dropped from an older plan only; every other key is untouched |
| AutoFix.PlanHeadReported | apps/backend/spec/validate_pkg/auto_fix.py:57-85 | the plan-level flag is set exactly when the plan-level steps change the plan |
| AutoFix.RepairPlan | apps/backend/spec/validate_pkg/auto_fix.py:55-170 | a non-dict plan raises; otherwise the plan raises exactly when its phases loop does, and its `phases` is the repaired list |
| AutoFix.FixPlan | apps/backend/spec/validate_pkg/auto_fix.py:55-170 | the in-place plan repair computes the reference plan repair |
| AutoFix.PlanFixReported | apps/backend/spec/validate_pkg/auto_fix.py:55-172 | the plan is flagged exactly when it changed or some phase hit a spurious-report case |
| AutoFix.RepairKeepsCleanPlan | apps/backend/spec/validate_pkg/auto_fix.py:55-170 | a clean plan is returned unchanged and unflagged |
| AutoFix.RepairedPlanClean | apps/backend/spec/validate_pkg/auto_fix.py:55-170 | a repaired plan whose phases are settled has a `feature`, a `workflow_type` and clean phases |
| AutoFix.RepairedPlanIsClean | apps/backend/spec/validate_pkg/auto_fix.py:55-170 | a repaired plan whose phases are settled is clean, and fixing it again reports nothing |
| AutoFix.AutoFixPlan | apps/backend/spec/validate_pkg/auto_fix.py:35-180 | a missing file, or one whose reading raises `OSError` or `JSONDecodeError`, gives `False` and leaves the file untouched; a file that is not UTF-8 raises; it returns `True` exactly when a fix is flagged and the write succeeds, and then the repaired plan is written; a failed `open` leaves the file untouched and a failed `json.dump` leaves it damaged |
| MergeHeuristics.SameLines | auto-claude/workspace.py:2123-2135 | the `splitlines(keepends=True)` lists of two texts are equal exactly when the texts are |
| MergeHeuristics.HeuristicMergeOutcome | auto-claude/workspace.py:2116-2142 | no base gives the worktree side; main equal to base gives the worktree side; only the worktree equal to base gives main; both sides different from base gives `None` |
| MergeHeuristics.HeuristicMergeSameEdit | auto-claude/workspace.py:2131-2142 | the same edit on both sides still gives `None` |
| MergeHeuristics.Name | auto-claude/workspace.py:1455 | the last path component has no `/` |
| MergeHeuristics.Suffix | auto-claude/workspace.py:1455 | a suffix is empty or starts with its name's last `.` |
| MergeHeuristics.BinaryIgnoresCase | auto-claude/workspace.py:1452-1455 | case does not affect the binary-file test |
| MergeHeuristics.NoSuffixNotBinary | auto-claude/workspace.py:1452-1455 | a path whose last component has no suffix is not binary |
| MergeHeuristics.LastSuffixDecides | auto-claude/workspace.py:1452-1455 | for `stem + ext`, the file is binary exactly when the lower-cased last extension is in `BINARY_EXTENSIONS` |
| MergeHeuristics.MergeFileWithAi | auto-claude/workspace.py:1858-2101 | binary files and files over 5000 lines get no merge; without an AI the heuristic merge decides; with one, an AI merge is taken, an AI that gives up gives no merge, and an AI call that raises falls back to the heuristic merge |
| MergeHeuristics.MergeWithoutAiKeepsChange | auto-claude/workspace.py:1858-1882 | a small text file changed only on the worktree side merges to the worktree version when no AI is available |
| GitOutput.ParseChangeLine | auto-claude/workspace.py:1348-1351 | a line yields nothing exactly when it is empty or has no tab; otherwise status, tab and path give back the line, split at the first tab |
| GitOutput.ChangedFiles | auto-claude/workspace.py:1345-1352 | a non-zero exit code gives no changes |
| GitOutput.GetChangedFiles | auto-claude/workspace.py:1345-1352 | the appending loop computes the reference parse |
| GitOutput.ParseChangeLinesAppend | auto-claude/workspace.py:1347-1351 | the parse is line by line and keeps input order |
| GitOutput.UntabbedLinesDropped | auto-claude/workspace.py:1348-1350 | lines without a tab contribute nothing |
| GitOutput.ChangedFilesRoundTrip | auto-claude/workspace.py:1345-1352 | parsing the listing git writes for a list of changes gives back that list |
| GitOutput.WrittenListing | auto-claude/workspace.py:1345-1352 | the lines of a non-empty listing join into a text with no outer blanks that splits back into those lines |
| GitOutput.ConflictCandidate | auto-claude/workspace.py:1093-1097 | a line contributes only if it contains `CONFLICT`, and only a non-empty path |
| GitOutput.ParsedConflicts | auto-claude/workspace.py:1091-1098 | the parsed conflict list has no duplicates and no empty entries |
| GitOutput.ConflictCandidatesFrom | auto-claude/workspace.py:1092-1097 | a path is a candidate exactly when some `CONFLICT` line names it |
| GitOutput.ParsedConflictsMembers | auto-claude/workspace.py:1091-1098 | the listed paths are exactly those named by `CONFLICT` lines |
| GitOutput.ParsedConflictsOrder | auto-claude/workspace.py:1091-1098 | the paths appear in the order the lines first name them |
| GitOutput.CollectConflicts | auto-claude/workspace.py:1091-1098 | the appending loop computes the reference conflict list |
| GitOutput.DiffNames | auto-claude/workspace.py:1108 | blank `git diff --name-only` output gives the empty set |
| GitOutput.ListOfSet | auto-claude/workspace.py:1119-1120 | `list(set)` lists each element once and nothing else |
| GitOutput.CheckGitConflicts | auto-claude/workspace.py:1012-1125 | the spec branch is `auto-claude/<spec>` and the base branch defaults to `main`; `has_conflicts` is set exactly when merge-tree ran and exited non-zero; the list has no duplicates and is empty without conflicts; it is the parsed list when that is non-empty, else the intersection of the two `git diff` name sets |
| Lists.Dedupe | auto-claude/workspace.py:1097-1098 | the result has no duplicates and has the same members as the input |
| Lists.DedupeDistinct | auto-claude/workspace.py:1097-1098 | a duplicate-free list is unchanged |
| Lists.DedupeOrder | auto-claude/workspace.py:1097-1098 | elements keep their first-seen order |
| ConflictResolution.ConflictOutcome | auto-claude/workspace.py:1185-1264 | exception: unresolved with its message; absent from both: skipped; absent from main: written from the worktree; absent from the worktree: deleted; otherwise the merged text, or unresolved with `AI could not resolve the conflict` |
| ConflictResolution.ConflictPassResolved | auto-claude/workspace.py:1181-1264 | a conflicting file is listed as resolved exactly when it was written or deleted |
| ConflictResolution.ConflictPassRemaining | auto-claude/workspace.py:1181-1264 | a file is listed as remaining exactly when its outcome is unresolved |
| ConflictResolution.ConflictPassActions | auto-claude/workspace.py:1230-1256 | a file is written or deleted in the project exactly as its outcome says |
| ConflictResolution.ConflictPassSizes | auto-claude/workspace.py:1181-1264 | `resolved_files` and `remaining_conflicts` together hold no more entries than there are conflicting files |
| ConflictResolution.ConflictPassNoDup | auto-claude/workspace.py:1181-1264 | distinct conflicting files are resolved at most once each |
| ConflictResolution.ResolveConflictingFiles | auto-claude/workspace.py:1181-1264 | the loop over conflicting files computes the reference first pass |
| ConflictResolution.NonConflictingAsWrittenKeepsAll | auto-claude/workspace.py:1278 | as written, the filter keeps every change |
| ConflictResolution.NonConflicting | auto-claude/workspace.py:1278 | the intended filter keeps exactly the changes whose path is not conflicting |
| ConflictResolution.CopyPassResolved | auto-claude/workspace.py:1280-1298 | the second loop keeps what the first listed and adds exactly the copied files: not deleted, content present, no exception |
| ConflictResolution.CopyPassNoDup | auto-claude/workspace.py:1280-1298 | copying changes with new distinct paths keeps `resolved_files` duplicate-free |
| ConflictResolution.CopyChanges | auto-claude/workspace.py:1280-1298 | the loop over the other changed files computes the reference second pass, starting from the first pass |
| ConflictResolution.Resolve | auto-claude/workspace.py:1266-1312 | `success` holds exactly when nothing remains, and exactly when there are stats; the stats count resolved and conflicting files |
| ConflictResolution.ResolveSucceeds | auto-claude/workspace.py:1266-1271 | the resolution succeeds exactly when no conflicting file ends unresolved |
| ConflictResolution.ResolveIntendedNoDup | auto-claude/workspace.py:1266-1298 | with the intended filter, every file is listed as resolved at most once |
| ConflictResolution.ConflictingFileCopiedTwice | auto-claude/workspace.py:1277-1296 | as written, a merged conflicting file the spec branch modified is resolved twice and the spec-branch copy overwrites the merged text; with the intended filter it is resolved once and only the merged text is written |
| ConflictResolution.SingleWrittenConflict | auto-claude/workspace.py:1181-1264 | the conflict loop over one file the AI merged resolves it and writes the merged text |
| ConflictResolution.CopyOneChange | auto-claude/workspace.py:1280-1298 | the second loop over one readable, non-deleted change lists its path again and writes the spec-branch content |
| ConflictResolution.OneModifiedFileListing | auto-claude/workspace.py:1345-1351 | the listing `M<tab>a.py` parses to one modified `a.py` |
| ConflictResolution.ResolveGitConflictsWithAi | auto-claude/workspace.py:1128-1312 | both loops together compute the reference resolution, with the filter as written |
| ConflictResolution.NonConflictingFilter | auto-claude/workspace.py:1278 | the comprehension computes the as-written filter |
| MergeLocking.EnterResultOf | auto-claude/workspace.py:1393-1416 | entering fails with another error exactly when the lock's JSON is unusable |
| MergeLocking.AcquiresExactly | auto-claude/workspace.py:1393-1424 | the lock is acquired exactly when there is no lock file, it is corrupt, it is older than 300 s, or it names a non-zero pid that is not running; otherwise `MergeLockError` |
| MergeLocking.HeldLockExcludes | auto-claude/workspace.py:1400-1412 | a recent lock whose process still runs refuses every later entry that reads it |
| MergeLocking.PidlessLockWaitsForTimeout | auto-claude/workspace.py:1401-1407 | a lock with pid 0 is given up only after the timeout |
| MergeLocking.MergeLock.constructor | auto-claude/workspace.py:1379-1384 | a new lock is not acquired |
| MergeLocking.MergeLock.Enter | auto-claude/workspace.py:1386-1425 | the result is the decision on the old lock file; on success a fresh lock with this time and pid is written and `acquired` set; otherwise nothing changes |
| MergeLocking.MergeLock.Exit | auto-claude/workspace.py:1427-1434 | the lock file is removed only if this object acquired it and the removal succeeds; otherwise it is untouched |
| MergeLocking.SecondMergeRefused | auto-claude/workspace.py:1386-1425 | after one merge has acquired the lock, a second entry within the timeout is refused and the first lock stays |
| WorkspaceChoices.ChooseWorkspace | auto-claude/workspace.py:154-226 | `choose_workspace` exits only with code 0 |
| WorkspaceChoices.DirectOnlyWhenAsked | auto-claude/workspace.py:154-226 | direct mode comes exactly from `force_direct` without `force_isolated`, or from the menu answer `direct` |
| WorkspaceChoices.ChooseExitsOnlyOnCancel | auto-claude/workspace.py:154-226 | it exits exactly when the user cancels a prompt it showed |
| WorkspaceChoices.UnsavedWorkIsolated | auto-claude/workspace.py:168-190 | unsaved work never gets direct mode unless direct mode is forced |
| WorkspaceChoices.FinalizeWorkspace | auto-claude/workspace.py:521-531 | without a worktree manager the choice is `MERGE` |
| WorkspaceChoices.FinalizeChoices | auto-claude/workspace.py:521-600 | exactly which inputs give each of `MERGE`, `TEST`, `REVIEW` and `LATER` |

## Left out

- File I/O, subprocesses and other external calls are not modelled. This covers reading and writing
  `implementation_plan.json`, every `git` call, `git add`, directory creation and console output. Their
  results are inputs: `PlanFile`, `Proc`, `specContent`, the `WriteOutcome` of the write-back and the `unlinkSucceeds` flag.
- A dict keeps its insertion order as part of its value, so two Python-equal dicts with different key orders
  are different here. The order shapes only `str()` of a dict and the order of keys in the written plan. No
  comparison in the modelled code sees two dicts that differ only in order.
- JSON decoding and encoding are not modelled. The plan arrives parsed. Floats appear only where
  `phase_id` is concerned, as integral or non-integral values.
- `normalize_subtask_aliases` is not part of this model. It is an opaque function returning the
  normalised fields and a changed flag.
- The AI merge is not modelled. This covers the resolver, prompts, code-block extraction, the syntax
  checks and the conflict-marker path. Its outcome is the `AiAttempt` input.
- The merge-tree regular expression is an opaque `Extract` function. Only the `CONFLICT` filter,
  stripping, dropping empty paths and de-duplication are modelled.
- `difflib.unified_diff` is not modelled. An empty diff is taken to mean equal `splitlines(keepends=True)`
  lists, which `SameLines` proves means equal texts.
- `PyText.StrRepr`: non-printable characters from U+0100 up, such as U+2028, are written as they are. Python writes
  them as `\uXXXX` or `\UXXXXXXXX`. A float nested in a list is written as its given source text.
- `lower()` and `isdigit()` are ASCII-only. Non-ASCII letters are not lower-cased and non-ASCII digits are not
  digits. For example, a suffix spelled with the Kelvin sign (U+212A) for `k` is not recognised as `.mkv`.
- Path normalisation is simplified. `pathlib` is reduced to splitting on `/` and dropping empty and `.`
  components; Windows separators are not modelled.
- `ConflictResolution.ResolveGitConflictsWithAi`: exceptions are per-file inputs. In the conflict loop an
  exception is the `failure` of a file. In the second loop it is the `fails` oracle, and a copy that raises
  has no effect at all. A failure halfway through a write is not modelled. An exception from
  `git merge-base` is not modelled either.
- `_record_merge_completion` and the evolution tracker are not modelled. They are libraries whose code is
  not part of this model.
- `MergeLocking.MergeLock.Enter`: `__enter__` is one atomic step here, but the code checks, reads, removes and
  writes the lock file in four separate calls. Interleavings of two merges entering together are not modelled:
  both can find no lock file and both acquire. Neither is a lock removed by another merge's `__exit__` between
  `exists()` and `read_text()`, whose `FileNotFoundError` escapes.
- `MergeLocking.MergeLock.Enter`: time is an integer clock and liveness a `running` oracle. The lock file's
  JSON is abstracted to `Entry(timestamp, pid)`, `Corrupt` or `Unusable`. The `spec_name` stored in the
  file and the creation of the lock directory are not modelled.
- `WorkspaceChoices.ChooseWorkspace`: the menus, prompts and `sys.exit` are parameters.
  - Unsaved work: the Enter prompt is an `interrupted` flag.
  - The menu answer is an `Option<string>`.
  - Output of `show_*` helpers is not modelled.
- `WorkspaceChoices.FinalizeWorkspace`: the informational output and the existing-worktree message are not
  modelled.

## Findings

| source | as written | input that shows it | evidently intended | confidence | as-written member | corrected member |
|---|---|---|---|---|---|---|
| auto-claude/workspace.py:1278 | `[f for f in changed_files if f not in conflicting_files]` compares `(path, status)` tuples with path strings, so nothing is ever removed | conflicting files `["a.py"]` merged by the AI, and `git diff --name-status` printing `M<tab>a.py`: the second loop copies the spec-branch `a.py` over the merged file, and `resolved_files` is `["a.py", "a.py"]` | drop the changes whose path is a conflicting file | not executed | ConflictResolution.ConflictingFileCopiedTwice | ConflictResolution.ResolveIntendedNoDup |
