/**
 * The implementation-plan auto-fixer: status normalisation and the in-place
 * repair of a parsed `implementation_plan.json` (legacy layouts, missing
 * top-level fields, phase fields, subtask fields).
 */
module AutoFix {
  import opened Wrappers
  import opened PyText
  import opened JsonValue

  /** How a fix ends: an exception escapes, or the repaired value comes back with the `fixed` flag. */
  datatype Outcome<T> = Raised | Done(value: T, fixed: bool)

  /** The status vocabulary of the plan schema. */
  const CanonicalStatuses: set<string> := {"pending", "in_progress", "completed", "blocked", "failed"}
  const PendingAliases: set<string> := {"not_started", "not started", "todo", "to_do", "backlog"}
  const InProgressAliases: set<string> := {"in-progress", "inprogress", "working"}
  const CompletedAliases: set<string> := {"done", "complete", "completed_successfully"}

  /** The status a stripped, lower-cased text stands for: itself when canonical, else by the alias table, else `pending`. */
  function StatusFor(normalized: string): (r: string)
    ensures r in CanonicalStatuses
    ensures normalized in CanonicalStatuses ==> r == normalized
  {
    if normalized in CanonicalStatuses then normalized
    else if normalized in PendingAliases then "pending"
    else if normalized in InProgressAliases then "in_progress"
    else if normalized in CompletedAliases then "completed"
    else "pending"
  }

  /** `_normalize_status`: maps any value onto the status vocabulary; a non-string becomes `pending`. */
  function NormalizeStatus(v: Json): (r: string)
    ensures r in CanonicalStatuses
    ensures !v.JStr? ==> r == "pending"
  {
    if !v.JStr? then "pending" else StatusFor(Lower(Strip(v.s)))
  }

  /** Which texts land on which status; everything not listed, known or not, becomes `pending`. */
  lemma StatusForAliases(t: string)
    ensures StatusFor(t) == "completed" <==> t in {"completed"} + CompletedAliases
    ensures StatusFor(t) == "in_progress" <==> t in {"in_progress"} + InProgressAliases
    ensures StatusFor(t) == "blocked" <==> t == "blocked"
    ensures StatusFor(t) == "failed" <==> t == "failed"
    ensures StatusFor(t) == "pending" <==>
      t !in {"completed", "in_progress", "blocked", "failed"} + CompletedAliases + InProgressAliases
  {
  }

  /** A status that is already canonical maps to itself. */
  lemma NormalizeCanonical(c: string)
    requires c in CanonicalStatuses
    ensures NormalizeStatus(JStr(c)) == c
  {
    assert Stripped(c) && HasNoUpper(c);
    StripStripped(c);
    LowerNoUpper(c);
  }

  /** Normalising twice is normalising once. */
  lemma NormalizeStatusIdempotent(v: Json)
    ensures NormalizeStatus(JStr(NormalizeStatus(v))) == NormalizeStatus(v)
  {
    NormalizeCanonical(NormalizeStatus(v));
  }

  /** Case does not matter. */
  lemma NormalizeStatusIgnoresCase(s: string)
    ensures NormalizeStatus(JStr(Lower(s))) == NormalizeStatus(JStr(s))
  {
    StripLower(s);
    LowerLower(Strip(s));
  }

  /** Surrounding whitespace does not matter. */
  lemma NormalizeStatusIgnoresPadding(pre: string, s: string, post: string)
    requires AllSpace(pre) && AllSpace(post)
    ensures NormalizeStatus(JStr(pre + s + post)) == NormalizeStatus(JStr(s))
  {
    StripPadded(pre, s, post);
  }

  // ---------------------------------------------------------------------
  // Subtasks

  /** `normalize_subtask_aliases`, whose code is not part of this model: the normalised fields and whether it changed anything. */
  type Aliases = Obj -> (Obj, bool)

  /** A subtask once the alias normaliser's result has been merged in (only when it reports a change). */
  function AfterAliases(aliases: Aliases, st: Obj): Obj {
    var (normalized, changed) := aliases(st);
    if changed then Update(st, normalized) else st
  }

  /** The id given to the `j`-th subtask of the `i`-th phase (both 0-based) that has none. */
  function DefaultSubtaskId(i: nat, j: nat): string {
    "subtask-" + IntToString(i + 1) + "-" + IntToString(j + 1)
  }

  /** The status step: a missing status becomes `pending`, a present one is normalised, and nothing else moves. */
  function WithStatus(st: Obj): (r: Obj)
    ensures Get(r, "status") ==
      Some(JStr(if Has(st, "status") then NormalizeStatus(GetOr(st, "status", JNull)) else "pending"))
    ensures forall k {:trigger Get(r, k)} :: k != "status" ==> Get(r, k) == Get(st, k)
  {
    if !Has(st, "status") then Put(st, "status", JStr("pending"))
    else
      var normalized := NormalizeStatus(GetOr(st, "status", JNull));
      if GetOr(st, "status", JNull) != JStr(normalized) then Put(st, "status", JStr(normalized)) else st
  }

  /** The `j`-th subtask of the `i`-th phase once repaired (auto_fix.py lines 150-170). */
  function RepairedSubtask(st: Obj, i: nat, j: nat, aliases: Aliases): Obj {
    var a := AfterAliases(aliases, st);
    WithStatus(WithDefault(WithDefault(a, "id", JStr(DefaultSubtaskId(i, j))), "description", JStr("No description")))
  }

  /**
   * Every repaired subtask has an id (its own, else `subtask-<i+1>-<j+1>`), a description (its own, else
   * `No description`) and a normalised status (`pending` when it had none); every other field is as the
   * alias normaliser left it.
   */
  lemma RepairedSubtaskFields(st: Obj, i: nat, j: nat, aliases: Aliases)
    ensures var r, a := RepairedSubtask(st, i, j, aliases), AfterAliases(aliases, st);
      && Get(r, "id") == (if Has(a, "id") then Get(a, "id") else Some(JStr(DefaultSubtaskId(i, j))))
      && Get(r, "description") == (if Has(a, "description") then Get(a, "description") else Some(JStr("No description")))
      && Get(r, "status") == Some(JStr(if Has(a, "status") then NormalizeStatus(GetOr(a, "status", JNull)) else "pending"))
      && forall k :: k != "id" && k != "description" && k != "status" ==> Get(r, k) == Get(a, k)
  {
  }

  /** A subtask the repair leaves alone: no alias to normalise, an id, a description and a canonical status. */
  predicate SubtaskClean(st: Obj, aliases: Aliases) {
    && !aliases(st).1
    && Has(st, "id") && Has(st, "description")
    && GetOr(st, "status", JNull).JStr? && GetOr(st, "status", JNull).s in CanonicalStatuses
  }

  /** A clean subtask comes out of the repair unchanged. */
  lemma RepairKeepsCleanSubtask(st: Obj, i: nat, j: nat, aliases: Aliases)
    requires SubtaskClean(st, aliases)
    ensures RepairedSubtask(st, i, j, aliases) == st
  {
    NormalizeCanonical(GetOr(st, "status", JNull).s);
  }

  /** A repaired subtask is clean unless the alias normaliser still finds something in it, and repairing it again changes nothing. */
  lemma RepairedSubtaskIsClean(st: Obj, i: nat, j: nat, j': nat, aliases: Aliases)
    requires !aliases(RepairedSubtask(st, i, j, aliases)).1
    ensures SubtaskClean(RepairedSubtask(st, i, j, aliases), aliases)
    ensures RepairedSubtask(RepairedSubtask(st, i, j, aliases), i, j', aliases) == RepairedSubtask(st, i, j, aliases)
  {
    var r := RepairedSubtask(st, i, j, aliases);
    RepairedSubtaskFields(st, i, j, aliases);
    assert SubtaskClean(r, aliases);
    RepairKeepsCleanSubtask(r, i, j', aliases);
  }

  /** Repairs one subtask in place and reports whether anything was done (auto_fix.py lines 150-170). */
  method FixSubtask(subtask: Obj, i: nat, j: nat, aliases: Aliases) returns (st: Obj, fixed: bool)
    ensures st == RepairedSubtask(subtask, i, j, aliases)
    ensures fixed == !SubtaskClean(subtask, aliases)
  {
    var status := GetOr(subtask, "status", JNull);
    if status.JStr? && status.s in CanonicalStatuses {
      NormalizeCanonical(status.s);
    }
    st := subtask;
    fixed := false;
    var (normalized, changed) := aliases(st);
    if changed {
      st := Update(st, normalized);
      fixed := true;
    }
    if !Has(st, "id") {
      st := Put(st, "id", JStr(DefaultSubtaskId(i, j)));
      fixed := true;
    }
    if !Has(st, "description") {
      st := Put(st, "description", JStr("No description"));
      fixed := true;
    }
    if !Has(st, "status") {
      st := Put(st, "status", JStr("pending"));
      fixed := true;
    } else {
      var normalizedStatus := NormalizeStatus(GetOr(st, "status", JNull));
      if GetOr(st, "status", JNull) != JStr(normalizedStatus) {
        st := Put(st, "status", JStr(normalizedStatus));
        fixed := true;
      }
    }
  }

  /** A subtask is reported fixed exactly when the repair changes it, or when the alias normaliser reported a change. */
  lemma SubtaskFixReported(st: Obj, i: nat, j: nat, aliases: Aliases)
    ensures !SubtaskClean(st, aliases) <==> RepairedSubtask(st, i, j, aliases) != st || aliases(st).1
  {
    var r := RepairedSubtask(st, i, j, aliases);
    if SubtaskClean(st, aliases) {
      RepairKeepsCleanSubtask(st, i, j, aliases);
    } else if !aliases(st).1 {
      RepairedSubtaskFields(st, i, j, aliases);
      if Has(st, "id") && Has(st, "description") {
        assert Get(r, "status") != Get(st, "status");
      }
    }
  }

  /** Python iterates over the value and every item it yields is a dict; anything else raises in the loop body. */
  predicate DictsOnly(v: Json) {
    match v
    case JArr(xs) => forall x :: x in xs ==> x.JObj?
    case JStr(s) => s == ""
    case JObj(fs) => |fs.vals| == 0
    case _ => false
  }

  /** The alias normaliser reports a change for some subtask of the list. */
  predicate AnyAliasReport(v: Json, aliases: Aliases) {
    v.JArr? && exists j :: 0 <= j < |v.items| && v.items[j].JObj? && aliases(v.items[j].fields).1
  }

  /** Every subtask of a list of dicts, repaired. */
  function RepairedItems(xs: seq<Json>, i: nat, aliases: Aliases): seq<Json>
    requires forall x :: x in xs ==> x.JObj?
  {
    seq(|xs|, j requires 0 <= j < |xs| => JObj(RepairedSubtask(xs[j].fields, i, j, aliases)))
  }

  lemma RepairedItemsSnoc(xs: seq<Json>, j: nat, i: nat, aliases: Aliases)
    requires j < |xs| && forall m :: 0 <= m <= j ==> xs[m].JObj?
    ensures RepairedItems(xs[..j + 1], i, aliases) ==
      RepairedItems(xs[..j], i, aliases) + [JObj(RepairedSubtask(xs[j].fields, i, j, aliases))]
  {
    var a := RepairedItems(xs[..j + 1], i, aliases);
    var b := RepairedItems(xs[..j], i, aliases) + [JObj(RepairedSubtask(xs[j].fields, i, j, aliases))];
    forall m | 0 <= m < j + 1
      ensures a[m] == b[m]
    {
      assert xs[..j + 1][m] == xs[m];
      if m < j {
        assert xs[..j][m] == xs[m];
      }
    }
  }

  /** Every item is a dict holding a clean subtask. */
  predicate AllClean(xs: seq<Json>, aliases: Aliases)
    decreases |xs|
  {
    |xs| == 0 || (AllClean(xs[..|xs| - 1], aliases) && xs[|xs| - 1].JObj? && SubtaskClean(xs[|xs| - 1].fields, aliases))
  }

  /** `AllClean`, item by item. */
  lemma {:induction false} AllCleanAt(xs: seq<Json>, aliases: Aliases)
    ensures AllClean(xs, aliases) <==> forall m :: 0 <= m < |xs| ==> xs[m].JObj? && SubtaskClean(xs[m].fields, aliases)
    decreases |xs|
  {
    if |xs| > 0 {
      var n := |xs| - 1;
      AllCleanAt(xs[..n], aliases);
      assert forall m :: 0 <= m < n ==> xs[..n][m] == xs[m];
    }
  }

  /** Every subtask of the list is clean. */
  predicate SubtasksClean(v: Json, aliases: Aliases) {
    DictsOnly(v) && (v.JArr? ==> AllClean(v.items, aliases))
  }

  /** The subtask loop of phase `i` over the value `v` (auto_fix.py lines 149-170). */
  function RepairSubtaskList(v: Json, i: nat, aliases: Aliases): (r: Outcome<Json>)
    ensures r.Raised? <==> !DictsOnly(v)
    ensures r.Done? && v.JArr? ==> r.value.JArr? && |r.value.items| == |v.items|
    ensures r.Done? && !v.JArr? ==> r == Done(v, false)
  {
    if !DictsOnly(v) then Raised
    else if !v.JArr? then Done(v, false)
    else
      Done(JArr(RepairedItems(v.items, i, aliases)), !SubtasksClean(v, aliases))
  }

  /** A subtask list is reported fixed exactly when the repair changes it, or the alias normaliser reported a change in it. */
  lemma SubtaskListReported(v: Json, i: nat, aliases: Aliases)
    requires RepairSubtaskList(v, i, aliases).Done?
    ensures RepairSubtaskList(v, i, aliases).fixed <==> RepairSubtaskList(v, i, aliases).value != v || AnyAliasReport(v, aliases)
  {
    if v.JArr? {
      var w := RepairedItems(v.items, i, aliases);
      AllCleanAt(v.items, aliases);
      if !AllClean(v.items, aliases) {
        var m :| 0 <= m < |v.items| && !SubtaskClean(v.items[m].fields, aliases);
        assert v.items[m] in v.items;
        SubtaskFixReported(v.items[m].fields, i, m, aliases);
        if !aliases(v.items[m].fields).1 {
          assert w[m] != v.items[m];
        }
      } else {
        forall m | 0 <= m < |v.items| ensures w[m] == v.items[m] && !aliases(v.items[m].fields).1 {
          RepairKeepsCleanSubtask(v.items[m].fields, i, m, aliases);
        }
        assert w == v.items;
      }
    }
  }

  /** The alias normaliser reports no change on any subtask of the list. */
  predicate AliasesQuiet(v: Json, aliases: Aliases) {
    v.JArr? ==> forall x :: x in v.items && x.JObj? ==> !aliases(x.fields).1
  }

  /** A list of clean subtasks is left alone and no fix is reported. */
  lemma RepairKeepsCleanList(v: Json, i: nat, aliases: Aliases)
    requires SubtasksClean(v, aliases)
    ensures RepairSubtaskList(v, i, aliases) == Done(v, false)
  {
    if v.JArr? {
      AllCleanAt(v.items, aliases);
      forall j | 0 <= j < |v.items|
        ensures RepairedItems(v.items, i, aliases)[j] == v.items[j]
      {
        RepairKeepsCleanSubtask(v.items[j].fields, i, j, aliases);
      }
      assert RepairedItems(v.items, i, aliases) == v.items;
    }
  }

  /** Once repaired, a list whose subtasks the alias normaliser leaves alone is clean: repairing it again reports nothing. */
  lemma RepairedListIsClean(v: Json, i: nat, aliases: Aliases)
    requires RepairSubtaskList(v, i, aliases).Done?
    requires AliasesQuiet(RepairSubtaskList(v, i, aliases).value, aliases)
    ensures SubtasksClean(RepairSubtaskList(v, i, aliases).value, aliases)
    ensures RepairSubtaskList(RepairSubtaskList(v, i, aliases).value, i, aliases) ==
      Done(RepairSubtaskList(v, i, aliases).value, false)
  {
    var w := RepairSubtaskList(v, i, aliases).value;
    if v.JArr? {
      forall j | 0 <= j < |w.items| ensures w.items[j].JObj? && SubtaskClean(w.items[j].fields, aliases) {
        assert w.items[j] in w.items;
        RepairedSubtaskIsClean(v.items[j].fields, i, j, j, aliases);
      }
      AllCleanAt(w.items, aliases);
    }
    RepairKeepsCleanList(w, i, aliases);
  }

  /** The subtask loop of phase `i`, repairing each subtask in place (auto_fix.py lines 149-170). */
  method FixSubtaskList(v: Json, i: nat, aliases: Aliases) returns (out: Outcome<Json>)
    ensures out == RepairSubtaskList(v, i, aliases)
  {
    if !v.JArr? {
      return if DictsOnly(v) then Done(v, false) else Raised;
    }
    var items := v.items;
    var result: seq<Json> := [];
    var fixed := false;
    for j := 0 to |items|
      invariant |result| == j
      invariant forall m :: 0 <= m < j ==> items[m].JObj?
      invariant result == RepairedItems(items[..j], i, aliases)
      invariant fixed == !AllClean(items[..j], aliases)
    {
      if !items[j].JObj? {
        return Raised;
      }
      var st, f := FixSubtask(items[j].fields, i, j, aliases);
      RepairedItemsSnoc(items, j, i, aliases);
      result := result + [JObj(st)];
      assert items[..j + 1][..j] == items[..j];
      fixed := fixed || f;
    }
    TakeAll(items);
    out := Done(JArr(result), fixed);
  }

  // ---------------------------------------------------------------------
  // Phases

  /** The phase number a `phase_id` stands for: an int, an integral float, or digits once stripped (booleans never). */
  function PhaseNumber(pid: Json): (r: Option<int>)
    ensures pid.JInt? ==> r == Some(pid.n)
    ensures pid.JStr? && r.Some? ==> r.value >= 0
    ensures pid.JNull? || pid.JBool? || pid.JArr? || pid.JObj? ==> r == None
  {
    match pid
    case JInt(n) => Some(n)
    case JFloat(_, whole) => whole
    case JStr(s) => if IsDigits(Strip(s)) then Some(DigitsValue(Strip(s))) else None
    case _ => None
  }

  /** `str(phase_id).strip()`, or the empty text for `None`. */
  function PhaseIdText(pid: Json): (r: string)
    ensures pid.JStr? ==> r == Strip(pid.s)
    ensures Stripped(r)
  {
    StripIsStripped(PyStr(pid));
    if pid == JNull then "" else Strip(PyStr(pid))
  }

  /** Reading the number back from a numeric phase id gives the number. */
  lemma PhaseNumberOfText(n: nat)
    ensures PhaseNumber(JStr(IntToString(n))) == Some(n)
  {
    var t := IntToString(n);
    assert Stripped(t);
    StripStripped(t);
    DigitsRoundTrip(n);
  }

  /** Step one (auto_fix.py lines 90-92): a phase with a `title` but no `name` takes its title as name. */
  function WithPhaseName(p: Obj): (r: Obj)
    ensures Get(r, "name") == if Has(p, "name") then Get(p, "name") else Get(p, "title")
    ensures forall k {:trigger Get(r, k)} :: k != "name" ==> Get(r, k) == Get(p, k)
  {
    if !Has(p, "name") && Has(p, "title") then Put(p, "name", GetOr(p, "title", JNull)) else p
  }

  /** Whether step two consults `phase_id`: only when `phase` is missing. */
  predicate UsesPhaseId(p: Obj) {
    !Has(p, "phase") && Has(p, "phase_id")
  }

  /**
   * Step two (auto_fix.py lines 94-117): a phase without `phase` number derives it from `phase_id`; the id, when
   * missing, becomes the number's text, or the id's own stripped text when no number can be read from it.
   */
  function WithPhaseNumber(p: Obj): (r: Obj)
    ensures var pid, num := GetOr(p, "phase_id", JNull), PhaseNumber(GetOr(p, "phase_id", JNull));
      && Get(r, "phase") == (if UsesPhaseId(p) && num.Some? then Some(JInt(num.value)) else Get(p, "phase"))
      && Get(r, "id") ==
        if Has(p, "id") || !UsesPhaseId(p) then Get(p, "id")
        else if num.Some? then Some(JStr(IntToString(num.value)))
        else if pid != JNull then Some(JStr(PhaseIdText(pid)))
        else None
    ensures forall k {:trigger Get(r, k)} :: k != "phase" && k != "id" ==> Get(r, k) == Get(p, k)
  {
    if !UsesPhaseId(p) then p
    else
      var pid := GetOr(p, "phase_id", JNull);
      match PhaseNumber(pid)
      case Some(n) => Put(WithDefault(p, "id", JStr(IntToString(n))), "phase", JInt(n))
      case None => if !Has(p, "id") && pid != JNull then Put(p, "id", JStr(PhaseIdText(pid))) else p
  }

  /** `[str(d).strip() for d in xs if d is not None]`. */
  function DependsOnEntries(xs: seq<Json>): (r: seq<string>)
    ensures |r| <= |xs|
    ensures forall k :: 0 <= k < |r| ==> Stripped(r[k])
  {
    if |xs| == 0 then []
    else
      StripIsStripped(PyStr(xs[0]));
      (if xs[0] == JNull then [] else [Strip(PyStr(xs[0]))]) + DependsOnEntries(xs[1..])
  }

  /** Which texts survive in the dependency list: the stripped text of every non-null entry, and nothing else. */
  lemma {:induction false} DependsOnEntriesMembers(xs: seq<Json>, t: string)
    ensures t in DependsOnEntries(xs) <==> exists x :: x in xs && x != JNull && Strip(PyStr(x)) == t
  {
    if |xs| > 0 {
      DependsOnEntriesMembers(xs[1..], t);
      assert forall x :: x in xs <==> x == xs[0] || x in xs[1..];
    }
  }

  /** `depends_on` as a list of stripped texts: a list loses its `None`s, `None` is empty, any other value a singleton. */
  function NormalizeDependsOn(raw: Json): (r: seq<string>)
    ensures raw == JNull ==> r == []
    ensures !raw.JArr? && raw != JNull ==> r == [Strip(PyStr(raw))]
    ensures forall k :: 0 <= k < |r| ==> Stripped(r[k])
  {
    StripIsStripped(PyStr(raw));
    match raw
    case JArr(xs) => DependsOnEntries(xs)
    case JNull => []
    case _ => [Strip(PyStr(raw))]
  }

  /** A Python list of strings. */
  function StrList(ts: seq<string>): (r: seq<Json>)
    ensures |r| == |ts| && forall k :: 0 <= k < |ts| ==> r[k] == JStr(ts[k])
  {
    seq(|ts|, k requires 0 <= k < |ts| => JStr(ts[k]))
  }

  /** The dependency list is stored back only when it differs from what was there (a missing list stays missing). */
  function WithDependsOn(p: Obj): (r: Obj)
    ensures Has(p, "depends_on") ==>
      Get(r, "depends_on") == Some(JArr(StrList(NormalizeDependsOn(GetOr(p, "depends_on", JNull)))))
    ensures !Has(p, "depends_on") ==> Get(r, "depends_on") == None
    ensures forall k {:trigger Get(r, k)} :: k != "depends_on" ==> Get(r, k) == Get(p, k)
  {
    var raw := GetOr(p, "depends_on", JArr([]));
    var normalized := JArr(StrList(NormalizeDependsOn(raw)));
    assert !Has(p, "depends_on") ==> normalized == raw;
    if normalized != raw then Put(p, "depends_on", normalized) else p
  }

  /** A normalised dependency list is left as it is. */
  lemma {:induction false} DependsOnEntriesStable(ts: seq<string>)
    requires forall k :: 0 <= k < |ts| ==> Stripped(ts[k])
    ensures DependsOnEntries(StrList(ts)) == ts
  {
    if |ts| > 0 {
      StripStripped(ts[0]);
      assert StrList(ts)[1..] == StrList(ts[1..]);
      DependsOnEntriesStable(ts[1..]);
    }
  }

  /** Normalising `depends_on` twice is normalising it once. */
  lemma NormalizeDependsOnIdempotent(raw: Json)
    ensures NormalizeDependsOn(JArr(StrList(NormalizeDependsOn(raw)))) == NormalizeDependsOn(raw)
  {
    DependsOnEntriesStable(NormalizeDependsOn(raw));
  }

  /** The name a phase without `name` or `title` gets. */
  function DefaultPhaseName(i: nat): string {
    "Phase " + IntToString(i + 1)
  }

  /** Step six (auto_fix.py lines 140-146): the subtasks are taken from `chunks` when missing, or when falsy and `chunks` exists. */
  predicate TakesChunks(p: Obj) {
    !Has(p, "subtasks") || (Has(p, "chunks") && !Truthy(GetOr(p, "subtasks", JNull)))
  }

  /** The one case where the fixer reports a fix it may not make: falsy subtasks replaced by a `chunks` value that may be equal. */
  predicate ChunksFallback(p: Obj) {
    Has(p, "subtasks") && Has(p, "chunks") && !Truthy(GetOr(p, "subtasks", JNull))
  }

  function WithSubtaskSource(p: Obj): (r: Obj)
    ensures Get(r, "subtasks") == if TakesChunks(p) then Some(GetOr(p, "chunks", JArr([]))) else Get(p, "subtasks")
    ensures forall k {:trigger Get(r, k)} :: k != "subtasks" ==> Get(r, k) == Get(p, k)
  {
    if TakesChunks(p) then Put(p, "subtasks", GetOr(p, "chunks", JArr([]))) else p
  }

  /** The phase-level steps before the subtasks step: only `name`, `phase`, `id` and `depends_on` can change. */
  function PhaseFields(p: Obj, i: nat): (r: Obj)
    ensures forall k {:trigger Get(r, k)} :: k != "name" && k != "phase" && k != "id" && k != "depends_on" ==>
      Get(r, k) == Get(p, k)
  {
    WithDefault(WithDependsOn(WithDefault(WithPhaseNumber(WithPhaseName(p)), "phase", JInt(i + 1))), "name",
                JStr(DefaultPhaseName(i)))
  }

  /**
   * The phase-level steps in order (auto_fix.py lines 90-146): the repaired fields, and the flag the code raises,
   * one term per step that sets it.
   */
  function PhaseHead(p: Obj, i: nat): (Obj, bool) {
    var p1 := WithPhaseName(p);
    var p2 := WithPhaseNumber(p1);
    var p3 := WithDefault(p2, "phase", JInt(i + 1));
    var p4 := WithDependsOn(p3);
    var p5 := WithDefault(p4, "name", JStr(DefaultPhaseName(i)));
    (WithSubtaskSource(p5), p1 != p || p2 != p1 || p3 != p2 || p4 != p3 || p5 != p4 || TakesChunks(p5))
  }

  /** `name` comes from the phase's name, else its title, else `Phase <i+1>`. */
  lemma PhaseHeadName(p: Obj, i: nat)
    ensures Get(PhaseHead(p, i).0, "name") ==
      if Has(p, "name") then Get(p, "name") else if Has(p, "title") then Get(p, "title") else Some(JStr(DefaultPhaseName(i)))
  {
    var p1 := WithPhaseName(p);
    var p2 := WithPhaseNumber(p1);
    var p3 := WithDefault(p2, "phase", JInt(i + 1));
    var p4 := WithDependsOn(p3);
    assert Get(p4, "name") == Get(p3, "name") == Get(p2, "name") == Get(p1, "name");
  }

  /** `phase` comes from the phase's own number, else the number in `phase_id`, else `i+1`; `id` as step two leaves it. */
  lemma PhaseHeadNumber(p: Obj, i: nat)
    ensures var h, num := PhaseHead(p, i).0, PhaseNumber(GetOr(p, "phase_id", JNull));
      && Get(h, "phase") ==
        (if Has(p, "phase") then Get(p, "phase") else if Has(p, "phase_id") && num.Some? then Some(JInt(num.value))
         else Some(JInt(i + 1)))
      && Get(h, "id") == Get(WithPhaseNumber(p), "id")
  {
    var p1 := WithPhaseName(p);
    var p2 := WithPhaseNumber(p1);
    var p3 := WithDefault(p2, "phase", JInt(i + 1));
    var p4 := WithDependsOn(p3);
    var p5 := WithDefault(p4, "name", JStr(DefaultPhaseName(i)));
    assert Get(p1, "phase_id") == Get(p, "phase_id") && Get(p1, "phase") == Get(p, "phase") && Get(p1, "id") == Get(p, "id");
    assert Get(p5, "phase") == Get(p4, "phase") == Get(p3, "phase");
    assert Get(p5, "id") == Get(p4, "id") == Get(p3, "id") == Get(p2, "id");
  }

  /** After the phase-level steps a phase always has a name and a number. */
  lemma PhaseHeadNamed(p: Obj, i: nat)
    ensures Has(PhaseHead(p, i).0, "name") && Has(PhaseHead(p, i).0, "phase")
  {
    PhaseHeadName(p, i);
    PhaseHeadNumber(p, i);
  }

  /** `depends_on` is normalised when present and stays missing when missing. */
  lemma PhaseHeadDependsOn(p: Obj, i: nat)
    ensures Get(PhaseHead(p, i).0, "depends_on") ==
      if Has(p, "depends_on") then Some(JArr(StrList(NormalizeDependsOn(GetOr(p, "depends_on", JNull))))) else None
  {
    var p1 := WithPhaseName(p);
    var p2 := WithPhaseNumber(p1);
    var p3 := WithDefault(p2, "phase", JInt(i + 1));
    var p4 := WithDependsOn(p3);
    var p5 := WithDefault(p4, "name", JStr(DefaultPhaseName(i)));
    assert Get(p3, "depends_on") == Get(p2, "depends_on") == Get(p1, "depends_on") == Get(p, "depends_on");
    assert Get(p5, "depends_on") == Get(p4, "depends_on");
  }

  /** The subtasks are the phase's own, or its `chunks` (an empty list without them) when the fallback applies. */
  lemma PhaseHeadSubtasks(p: Obj, i: nat)
    ensures Get(PhaseHead(p, i).0, "subtasks") ==
      if TakesChunks(p) then Some(GetOr(p, "chunks", JArr([]))) else Get(p, "subtasks")
    ensures Get(PhaseHead(p, i).0, "chunks") == Get(p, "chunks")
  {
    var p5 := PhaseFields(p, i);
    assert PhaseHead(p, i).0 == WithSubtaskSource(p5);
    assert Get(p5, "subtasks") == Get(p, "subtasks") && Get(p5, "chunks") == Get(p, "chunks");
    assert TakesChunks(p5) == TakesChunks(p);
  }

  /** No other field of the phase changes. */
  lemma PhaseHeadKeeps(p: Obj, i: nat, k: string)
    requires k !in {"name", "phase", "id", "depends_on", "subtasks"}
    ensures Get(PhaseHead(p, i).0, k) == Get(p, k)
  {
    var p1 := WithPhaseName(p);
    var p2 := WithPhaseNumber(p1);
    var p3 := WithDefault(p2, "phase", JInt(i + 1));
    var p4 := WithDependsOn(p3);
    var p5 := WithDefault(p4, "name", JStr(DefaultPhaseName(i)));
    assert Get(WithSubtaskSource(p5), k) == Get(p5, k) == Get(p4, k) == Get(p3, k) == Get(p2, k) == Get(p1, k);
  }

  /** The phase-level flag is raised exactly when the phase changed, or when the chunks fallback fired. */
  lemma PhaseHeadReported(p: Obj, i: nat)
    ensures PhaseHead(p, i).1 == (PhaseHead(p, i).0 != p || ChunksFallback(p))
  {
    var h := PhaseHead(p, i).0;
    PhaseHeadName(p, i);
    PhaseHeadNumber(p, i);
    PhaseHeadDependsOn(p, i);
    PhaseHeadSubtasks(p, i);
    var p1 := WithPhaseName(p);
    var p2 := WithPhaseNumber(p1);
    var p3 := WithDefault(p2, "phase", JInt(i + 1));
    var p4 := WithDependsOn(p3);
    var p5 := WithDefault(p4, "name", JStr(DefaultPhaseName(i)));
    if p1 != p {
      assert Get(h, "name") != Get(p, "name");
    } else if p2 != p1 {
      assert Get(h, "phase") != Get(p, "phase") || Get(h, "id") != Get(p, "id");
    } else if p3 != p2 {
      assert Get(h, "phase") != Get(p, "phase");
    } else if p4 != p3 {
      assert Get(h, "depends_on") != Get(p, "depends_on");
    } else if p5 != p4 {
      assert Get(h, "name") != Get(p, "name");
    } else if !Has(p, "subtasks") {
      assert Get(h, "subtasks") != Get(p, "subtasks");
    }
  }

  /** Step two in place (auto_fix.py lines 94-117); the flag is raised exactly when the phase changes. */
  method FixPhaseNumber(phase: Obj) returns (out: (Obj, bool))
    ensures out.0 == WithPhaseNumber(phase) && out.1 == (out.0 != phase)
  {
    var p := phase;
    var fixed := false;
    if !Has(p, "phase") && Has(p, "phase_id") {
      var phaseId := GetOr(p, "phase_id", JNull);
      var phaseIdText := PhaseIdText(phaseId);
      var phaseNum := PhaseNumber(phaseId);
      if phaseNum.Some? {
        if !Has(p, "id") {
          p := Put(p, "id", JStr(IntToString(phaseNum.value)));
          fixed := true;
        }
        p := Put(p, "phase", JInt(phaseNum.value));
        assert Get(p, "phase") != Get(phase, "phase");
        fixed := true;
      } else if !Has(p, "id") && phaseId != JNull {
        p := Put(p, "id", JStr(phaseIdText));
        assert Get(p, "id") != Get(phase, "id");
        fixed := true;
      }
    }
    out := (p, fixed);
  }

  /** The phase-level steps run in place (auto_fix.py lines 90-146). */
  method FixPhaseHead(phase: Obj, i: nat) returns (p: Obj, fixed: bool)
    ensures (p, fixed) == PhaseHead(phase, i)
  {
    p := phase;
    fixed := false;
    if !Has(p, "name") && Has(p, "title") {
      p := Put(p, "name", GetOr(p, "title", JNull));
      assert Get(p, "name") != Get(phase, "name");
      fixed := true;
    }
    ghost var p1 := p;
    assert p1 == WithPhaseName(phase) && fixed == (p1 != phase);
    var numbered := FixPhaseNumber(p);
    p := numbered.0;
    fixed := fixed || numbered.1;
    ghost var p2 := p;
    assert p2 == WithPhaseNumber(p1) && fixed == (p1 != phase || p2 != p1);
    if !Has(p, "phase") {
      p := Put(p, "phase", JInt(i + 1));
      assert Get(p, "phase") != Get(p2, "phase");
      fixed := true;
    }
    ghost var p3 := p;
    assert p3 == WithDefault(p2, "phase", JInt(i + 1)) && fixed == (p1 != phase || p2 != p1 || p3 != p2);
    var dependsOnRaw := GetOr(p, "depends_on", JArr([]));
    var normalizedDependsOn := JArr(StrList(NormalizeDependsOn(dependsOnRaw)));
    if normalizedDependsOn != dependsOnRaw {
      p := Put(p, "depends_on", normalizedDependsOn);
      assert Get(p, "depends_on") != Get(p3, "depends_on");
      fixed := true;
    }
    ghost var p4 := p;
    assert p4 == WithDependsOn(p3) && fixed == (p1 != phase || p2 != p1 || p3 != p2 || p4 != p3);
    if !Has(p, "name") {
      p := Put(p, "name", JStr(DefaultPhaseName(i)));
      assert Get(p, "name") != Get(p4, "name");
      fixed := true;
    }
    if !Has(p, "subtasks") {
      p := Put(p, "subtasks", GetOr(p, "chunks", JArr([])));
      fixed := true;
    } else if Has(p, "chunks") && !Truthy(GetOr(p, "subtasks", JNull)) {
      p := Put(p, "subtasks", GetOr(p, "chunks", JArr([])));
      fixed := true;
    }
  }

  /** The value the subtask loop of a phase runs over: its own subtasks, or its `chunks` when the fallback applies. */
  function SelectedSubtasks(p: Obj): Json {
    if TakesChunks(p) then GetOr(p, "chunks", JArr([])) else GetOr(p, "subtasks", JNull)
  }

  /**
   * Storing the repaired subtask list back: under `subtasks`, and under `chunks` too when the list was taken from
   * `chunks` (the two keys then name the same Python list).
   */
  function WithRepairedSubtasks(h: Obj, sharesChunks: bool, sub: Json): (r: Obj)
    ensures Get(r, "subtasks") == Some(sub)
    ensures Get(r, "chunks") == if sharesChunks then Some(sub) else Get(h, "chunks")
    ensures forall k {:trigger Get(r, k)} :: k != "subtasks" && k != "chunks" ==> Get(r, k) == Get(h, k)
  {
    var q := Put(h, "subtasks", sub);
    if sharesChunks then Put(q, "chunks", sub) else q
  }

  /**
   * The `i`-th phase once repaired (auto_fix.py lines 89-170).  The subtask list taken from `chunks` is the same
   * Python list as `chunks`, so the subtasks repaired in place show up under both keys.
   */
  function RepairPhase(p: Obj, i: nat, aliases: Aliases): (r: Outcome<Obj>)
    ensures r.Raised? <==> !DictsOnly(SelectedSubtasks(p))
    ensures r.Done? ==> Get(r.value, "subtasks") == Some(RepairSubtaskList(SelectedSubtasks(p), i, aliases).value)
    ensures r.Done? ==>
      Get(r.value, "chunks") == (if TakesChunks(p) && Has(p, "chunks") then Get(r.value, "subtasks") else Get(p, "chunks"))
    ensures r.Done? ==>
      forall k {:trigger Get(r.value, k)} :: k != "subtasks" && k != "chunks" ==> Get(r.value, k) == Get(PhaseHead(p, i).0, k)
  {
    var (h, headFixed) := PhaseHead(p, i);
    var subtasks := RepairSubtaskList(SelectedSubtasks(p), i, aliases);
    if subtasks.Raised? then Raised
    else
      PhaseHeadSubtasks(p, i);
      Done(WithRepairedSubtasks(h, TakesChunks(p) && Has(p, "chunks"), subtasks.value), headFixed || subtasks.fixed)
  }

  /** The `i`-th phase repaired in place, its subtasks included (auto_fix.py lines 89-170). */
  method FixPhase(phase: Obj, i: nat, aliases: Aliases) returns (out: Outcome<Obj>)
    ensures out == RepairPhase(phase, i, aliases)
  {
    var p, fixed := FixPhaseHead(phase, i);
    PhaseHeadSubtasks(phase, i);
    var sharesChunks := TakesChunks(phase) && Has(phase, "chunks");
    var subtasks := FixSubtaskList(GetOr(p, "subtasks", JArr([])), i, aliases);
    if subtasks.Raised? {
      return Raised;
    }
    var head := p;
    p := Put(p, "subtasks", subtasks.value);
    if sharesChunks {
      p := Put(p, "chunks", subtasks.value);
    }
    assert p == WithRepairedSubtasks(head, sharesChunks, subtasks.value);
    out := Done(p, fixed || subtasks.fixed);
  }

  /**
   * A phase is reported fixed exactly when the repair changes it, or the chunks fallback fired, or the alias
   * normaliser reported a change in one of its subtasks.
   */
  lemma PhaseFixReported(p: Obj, i: nat, aliases: Aliases)
    requires RepairPhase(p, i, aliases).Done?
    ensures var r := RepairPhase(p, i, aliases);
      r.fixed <==> r.value != p || ChunksFallback(p) || AnyAliasReport(SelectedSubtasks(p), aliases)
  {
    var r := RepairPhase(p, i, aliases);
    var (h, headFixed) := PhaseHead(p, i);
    var v := SelectedSubtasks(p);
    var sub := RepairSubtaskList(v, i, aliases);
    PhaseHeadSubtasks(p, i);
    PhaseHeadReported(p, i);
    SubtaskListReported(v, i, aliases);
    if !r.fixed {
      assert h == p && !TakesChunks(p);
      assert sub.value == v;
      PutSame(p, "subtasks", v);
    } else if !ChunksFallback(p) && !AnyAliasReport(v, aliases) {
      if !Has(p, "subtasks") {
        assert Has(r.value, "subtasks");
      } else if h != p {
        PhaseHeadChangedKey(p, i);
        KeyChangeSurvives(p, h, r.value);
      } else {
        assert Get(r.value, "subtasks") != Get(p, "subtasks");
      }
    }
  }

  /** Without the chunks fallback, the phase-level steps change the phase only through its name, number, id or dependencies. */
  lemma PhaseHeadChangedKey(p: Obj, i: nat)
    requires !TakesChunks(p) && PhaseHead(p, i).0 != p
    ensures var h := PhaseHead(p, i).0;
      || Get(h, "name") != Get(p, "name") || Get(h, "phase") != Get(p, "phase")
      || Get(h, "id") != Get(p, "id") || Get(h, "depends_on") != Get(p, "depends_on")
  {
    var h := PhaseHead(p, i).0;
    var p1 := WithPhaseName(p);
    var p2 := WithPhaseNumber(p1);
    var p3 := WithDefault(p2, "phase", JInt(i + 1));
    var p4 := WithDependsOn(p3);
    var p5 := WithDefault(p4, "name", JStr(DefaultPhaseName(i)));
    if p1 != p || p5 != p4 {
      PhaseHeadName(p, i);
      assert Get(h, "name") != Get(p, "name");
    } else if p2 != p1 || p3 != p2 {
      PhaseHeadNumber(p, i);
      assert Get(h, "phase") != Get(p, "phase") || Get(h, "id") != Get(p, "id");
    } else if p4 != p3 {
      PhaseHeadDependsOn(p, i);
      assert Get(h, "depends_on") != Get(p, "depends_on");
    }
  }

  /** A change to the name, number, id or dependencies of a phase survives a loop that only touches `subtasks` and `chunks`. */
  lemma KeyChangeSurvives(p: Obj, h: Obj, o: Obj)
    requires || Get(h, "name") != Get(p, "name") || Get(h, "phase") != Get(p, "phase")
             || Get(h, "id") != Get(p, "id") || Get(h, "depends_on") != Get(p, "depends_on")
    requires forall k {:trigger Get(o, k)} :: k != "subtasks" && k != "chunks" ==> Get(o, k) == Get(h, k)
    ensures o != p
  {
    if Get(h, "name") != Get(p, "name") {
      assert Get(o, "name") == Get(h, "name");
    } else if Get(h, "phase") != Get(p, "phase") {
      assert Get(o, "phase") == Get(h, "phase");
    } else if Get(h, "id") != Get(p, "id") {
      assert Get(o, "id") == Get(h, "id");
    } else {
      assert Get(o, "depends_on") == Get(h, "depends_on");
    }
  }

  /** A phase the repair leaves alone: named, numbered, with its own subtasks (no chunks fallback), normalised dependencies and clean subtasks. */
  predicate PhaseClean(p: Obj, aliases: Aliases) {
    && Has(p, "name") && Has(p, "phase") && !TakesChunks(p)
    && (Has(p, "depends_on") ==>
          GetOr(p, "depends_on", JNull) == JArr(StrList(NormalizeDependsOn(GetOr(p, "depends_on", JNull)))))
    && SubtasksClean(GetOr(p, "subtasks", JNull), aliases)
  }

  /** A clean phase comes out of the repair unchanged and no fix is reported. */
  lemma RepairKeepsCleanPhase(p: Obj, i: nat, aliases: Aliases)
    requires PhaseClean(p, aliases)
    ensures RepairPhase(p, i, aliases) == Done(p, false)
  {
    assert WithDependsOn(p) == p;
    assert PhaseHead(p, i) == (p, false);
    var v := GetOr(p, "subtasks", JNull);
    RepairKeepsCleanList(v, i, aliases);
    PutSame(p, "subtasks", v);
  }

  /** A repaired phase is clean unless its subtasks are still falsy beside `chunks` or the alias normaliser still finds something in them. */
  lemma RepairedPhaseClean(p: Obj, i: nat, aliases: Aliases)
    requires RepairPhase(p, i, aliases).Done?
    requires !ChunksFallback(RepairPhase(p, i, aliases).value)
    requires AliasesQuiet(GetOr(RepairPhase(p, i, aliases).value, "subtasks", JNull), aliases)
    ensures PhaseClean(RepairPhase(p, i, aliases).value, aliases)
  {
    var r := RepairPhase(p, i, aliases).value;
    var h := PhaseHead(p, i).0;
    PhaseHeadNamed(p, i);
    assert Get(r, "name") == Get(h, "name") && Get(r, "phase") == Get(h, "phase");
    assert Has(r, "depends_on") ==>
             GetOr(r, "depends_on", JNull) == JArr(StrList(NormalizeDependsOn(GetOr(r, "depends_on", JNull)))) by {
      PhaseHeadDependsOn(p, i);
      if Has(p, "depends_on") {
        NormalizeDependsOnIdempotent(GetOr(p, "depends_on", JNull));
      }
    }
    RepairedListIsClean(SelectedSubtasks(p), i, aliases);
  }

  /**
   * A repaired phase is clean, so that repairing it again changes nothing and reports nothing, unless its subtasks
   * are still falsy beside `chunks` or the alias normaliser still finds something in them.
   */
  lemma RepairedPhaseIsClean(p: Obj, i: nat, aliases: Aliases)
    requires RepairPhase(p, i, aliases).Done?
    requires !ChunksFallback(RepairPhase(p, i, aliases).value)
    requires AliasesQuiet(GetOr(RepairPhase(p, i, aliases).value, "subtasks", JNull), aliases)
    ensures PhaseClean(RepairPhase(p, i, aliases).value, aliases)
    ensures RepairPhase(RepairPhase(p, i, aliases).value, i, aliases) == Done(RepairPhase(p, i, aliases).value, false)
  {
    RepairedPhaseClean(p, i, aliases);
    RepairKeepsCleanPhase(RepairPhase(p, i, aliases).value, i, aliases);
  }

  // ---------------------------------------------------------------------
  // The phase list and the plan

  /** The repair of the `m`-th item of a list, given its fields and its position. */
  type ItemRepair = (Obj, nat) -> Outcome<Obj>

  /**
   * A loop over the items of a list that repairs each dict in place: it raises at the first item that is not a dict or
   * whose repair raises, and reports a fix when any item's repair does.
   */
  function RepairItems(xs: seq<Json>, repair: ItemRepair): (r: Outcome<seq<Json>>)
    ensures r.Raised? <==> exists m :: 0 <= m < |xs| && (!xs[m].JObj? || repair(xs[m].fields, m).Raised?)
    ensures r.Done? ==> |r.value| == |xs|
    ensures r.Done? ==> forall m :: 0 <= m < |xs| ==> r.value[m] == JObj(repair(xs[m].fields, m).value)
    ensures r.Done? ==> (r.fixed <==> exists m :: 0 <= m < |xs| && repair(xs[m].fields, m).fixed)
    decreases |xs|
  {
    if |xs| == 0 then Done([], false)
    else
      var n := |xs| - 1;
      assert forall m :: 0 <= m < n ==> xs[..n][m] == xs[m];
      match RepairItems(xs[..n], repair)
      case Raised => Raised
      case Done(ys, f) =>
        if !xs[n].JObj? then Raised
        else
          match repair(xs[n].fields, n)
          case Raised => Raised
          case Done(q, g) => Done(ys + [JObj(q)], f || g)
  }

  /** One more round of the loop. */
  lemma RepairItemsStep(xs: seq<Json>, n: nat, repair: ItemRepair)
    requires n < |xs| && RepairItems(xs[..n], repair).Done?
    ensures RepairItems(xs[..n + 1], repair) ==
      if !xs[n].JObj? || repair(xs[n].fields, n).Raised? then Raised
      else Done(RepairItems(xs[..n], repair).value + [JObj(repair(xs[n].fields, n).value)],
                RepairItems(xs[..n], repair).fixed || repair(xs[n].fields, n).fixed)
  {
    assert xs[..n + 1][..n] == xs[..n];
  }

  /** The repair of the `m`-th phase. */
  function PhaseRepair(aliases: Aliases): ItemRepair {
    (p: Obj, m: nat) => RepairPhase(p, m, aliases)
  }

  /** The phases loop over the value `v` (auto_fix.py lines 88-170); a value other than a list iterates as Python would. */
  function RepairPhaseList(v: Json, aliases: Aliases): (r: Outcome<Json>)
    ensures !v.JArr? ==> r == if DictsOnly(v) then Done(v, false) else Raised
    ensures v.JArr? && r.Done? ==> r.value.JArr? && |r.value.items| == |v.items|
  {
    if !v.JArr? then (if DictsOnly(v) then Done(v, false) else Raised)
    else
      match RepairItems(v.items, PhaseRepair(aliases))
      case Raised => Raised
      case Done(ys, f) => Done(JArr(ys), f)
  }

  /** The phases loop, repairing each phase in place (auto_fix.py lines 88-170). */
  method FixPhaseList(v: Json, aliases: Aliases) returns (out: Outcome<Json>)
    ensures out == RepairPhaseList(v, aliases)
  {
    if !v.JArr? {
      return if DictsOnly(v) then Done(v, false) else Raised;
    }
    var items := v.items;
    var result: seq<Json> := [];
    var fixed := false;
    for i := 0 to |items|
      invariant RepairItems(items[..i], PhaseRepair(aliases)) == Done(result, fixed)
    {
      RepairItemsStep(items, i, PhaseRepair(aliases));
      if !items[i].JObj? {
        return Raised;
      }
      var phase := FixPhase(items[i].fields, i, aliases);
      assert PhaseRepair(aliases)(items[i].fields, i) == phase;
      if phase.Raised? {
        return Raised;
      }
      result := result + [JObj(phase.value)];
      fixed := fixed || phase.fixed;
    }
    TakeAll(items);
    out := Done(JArr(result), fixed);
  }

  /** The cases where a phase may be reported fixed without changing: the chunks fallback, or an alias report on a subtask. */
  predicate PhaseSpurious(p: Obj, aliases: Aliases) {
    ChunksFallback(p) || AnyAliasReport(SelectedSubtasks(p), aliases)
  }

  /** The phases loop reports a fix exactly when the list changes, or some phase may be reported fixed without changing. */
  lemma PhaseListReported(v: Json, aliases: Aliases)
    requires v.JArr? && RepairPhaseList(v, aliases).Done?
    ensures var r := RepairPhaseList(v, aliases);
      r.fixed <==> r.value != v || exists m :: 0 <= m < |v.items| && PhaseSpurious(v.items[m].fields, aliases)
  {
    var r := RepairPhaseList(v, aliases);
    var xs := v.items;
    forall m | 0 <= m < |xs|
      ensures RepairPhase(xs[m].fields, m, aliases).Done?
      ensures RepairPhase(xs[m].fields, m, aliases).fixed <==>
        r.value.items[m] != xs[m] || PhaseSpurious(xs[m].fields, aliases)
    {
      PhaseFixReported(xs[m].fields, m, aliases);
    }
    if r.value != v {
      var m :| 0 <= m < |xs| && r.value.items[m] != xs[m];
    }
  }

  /** Every item is a dict holding a clean phase. */
  predicate PhasesClean(v: Json, aliases: Aliases) {
    DictsOnly(v) && (v.JArr? ==> forall m :: 0 <= m < |v.items| ==> PhaseClean(v.items[m].fields, aliases))
  }

  /** A list of clean phases is left alone and no fix is reported. */
  lemma RepairKeepsCleanPhaseList(v: Json, aliases: Aliases)
    requires PhasesClean(v, aliases)
    ensures RepairPhaseList(v, aliases) == Done(v, false)
  {
    if v.JArr? {
      forall m | 0 <= m < |v.items| ensures RepairPhase(v.items[m].fields, m, aliases) == Done(v.items[m].fields, false) {
        assert v.items[m] in v.items;
        RepairKeepsCleanPhase(v.items[m].fields, m, aliases);
      }
      assert RepairItems(v.items, PhaseRepair(aliases)).value == v.items;
    }
  }

  /** Every phase's subtasks are truthy or without `chunks`, and the alias normaliser finds nothing in them. */
  predicate PhasesSettled(v: Json, aliases: Aliases) {
    v.JArr? ==> forall m :: 0 <= m < |v.items| && v.items[m].JObj? ==>
      !ChunksFallback(v.items[m].fields) && AliasesQuiet(GetOr(v.items[m].fields, "subtasks", JNull), aliases)
  }

  /** Repairing a repaired phase list again changes nothing and reports nothing, once its phases are settled. */
  lemma RepairedPhaseListIsClean(v: Json, aliases: Aliases)
    requires RepairPhaseList(v, aliases).Done?
    requires PhasesSettled(RepairPhaseList(v, aliases).value, aliases)
    ensures PhasesClean(RepairPhaseList(v, aliases).value, aliases)
    ensures RepairPhaseList(RepairPhaseList(v, aliases).value, aliases) == Done(RepairPhaseList(v, aliases).value, false)
  {
    var w := RepairPhaseList(v, aliases).value;
    if v.JArr? {
      forall m | 0 <= m < |w.items| ensures w.items[m].JObj? && PhaseClean(w.items[m].fields, aliases) {
        RepairedPhaseIsClean(v.items[m].fields, m, aliases);
      }
      forall x | x in w.items ensures x.JObj? {
        var m :| 0 <= m < |w.items| && w.items[m] == x;
      }
    }
    RepairKeepsCleanPhaseList(w, aliases);
  }

  /** An older plan: no `phases`, but a list under `subtasks` or `chunks` (auto_fix.py lines 58-60). */
  predicate LegacyLayout(o: Obj) {
    !Has(o, "phases") && (GetOr(o, "subtasks", JNull).JArr? || GetOr(o, "chunks", JNull).JArr?)
  }

  /** `plan.get("subtasks") or plan.get("chunks") or []`. */
  function LegacySubtasks(o: Obj): Json {
    Or(Or(GetOr(o, "subtasks", JNull), GetOr(o, "chunks", JNull)), JArr([]))
  }

  /** The single phase an older plan's subtasks move into. */
  function LegacyPhase(subtasks: Json): (r: Obj)
    ensures Get(r, "id") == Some(JStr("1")) && Get(r, "phase") == Some(JInt(1))
    ensures Get(r, "name") == Some(JStr("Phase 1")) && Get(r, "subtasks") == Some(subtasks)
  {
    Put(Put(Put(Put(EmptyObj, "id", JStr("1")), "phase", JInt(1)), "name", JStr("Phase 1")), "subtasks", subtasks)
  }

  /** Step one of the plan (auto_fix.py lines 58-72): an older plan's subtasks become one phase, and the old keys go. */
  function WithLegacyLayout(o: Obj): (r: Obj)
    ensures LegacyLayout(o) ==> Get(r, "phases") == Some(JArr([JObj(LegacyPhase(LegacySubtasks(o)))]))
    ensures LegacyLayout(o) ==> !Has(r, "subtasks") && !Has(r, "chunks")
    ensures !LegacyLayout(o) ==> r == o
    ensures forall k {:trigger Get(r, k)} :: k != "phases" && k != "subtasks" && k != "chunks" ==> Get(r, k) == Get(o, k)
  {
    if LegacyLayout(o) then
      Pop(Pop(Put(o, "phases", JArr([JObj(LegacyPhase(LegacySubtasks(o)))])), "subtasks"), "chunks")
    else o
  }

  /** `plan.get("title") or plan.get("spec_id") or "Unnamed Feature"`. */
  function DefaultFeature(o: Obj): Json {
    Or(Or(GetOr(o, "title", JNull), GetOr(o, "spec_id", JNull)), JStr("Unnamed Feature"))
  }

  /** The plan-level steps in order (auto_fix.py lines 58-85): the repaired fields, and the flag the code raises. */
  function PlanHead(o: Obj): (Obj, bool) {
    var o1 := WithLegacyLayout(o);
    var o2 := WithDefault(o1, "feature", DefaultFeature(o1));
    var o3 := WithDefault(o2, "workflow_type", JStr("feature"));
    var o4 := WithDefault(o3, "phases", JArr([]));
    (o4, LegacyLayout(o) || o2 != o1 || o3 != o2 || o4 != o3)
  }

  /**
   * What the plan-level steps leave: `feature` and `workflow_type` as they were or defaulted, `phases` as it was, or
   * the one phase made of an older plan's subtasks, or empty; `subtasks` and `chunks` gone from an older plan; the
   * rest untouched.
   */
  lemma PlanHeadFields(o: Obj, k: string)
    ensures var h := PlanHead(o).0;
      && Get(h, "feature") == (if Has(o, "feature") then Get(o, "feature") else Some(DefaultFeature(o)))
      && Get(h, "workflow_type") == (if Has(o, "workflow_type") then Get(o, "workflow_type") else Some(JStr("feature")))
      && Get(h, "phases") ==
        (if Has(o, "phases") then Get(o, "phases")
         else if LegacyLayout(o) then Some(JArr([JObj(LegacyPhase(LegacySubtasks(o)))]))
         else Some(JArr([])))
      && (k in {"subtasks", "chunks"} ==> Get(h, k) == if LegacyLayout(o) then None else Get(o, k))
      && (k !in {"feature", "workflow_type", "phases", "subtasks", "chunks"} ==> Get(h, k) == Get(o, k))
  {
    PlanHeadDefaults(o);
    PlanHeadPhases(o);
    PlanHeadRest(o, k);
  }

  /** `feature` and `workflow_type` after the plan-level steps. */
  lemma PlanHeadDefaults(o: Obj)
    ensures Get(PlanHead(o).0, "feature") == (if Has(o, "feature") then Get(o, "feature") else Some(DefaultFeature(o)))
    ensures Get(PlanHead(o).0, "workflow_type") ==
      (if Has(o, "workflow_type") then Get(o, "workflow_type") else Some(JStr("feature")))
  {
    var o1 := WithLegacyLayout(o);
    var o2 := WithDefault(o1, "feature", DefaultFeature(o1));
    var o3 := WithDefault(o2, "workflow_type", JStr("feature"));
    assert PlanHead(o).0 == WithDefault(o3, "phases", JArr([]));
    DefaultFeatureKept(o);
    assert Get(o2, "workflow_type") == Get(o, "workflow_type");
  }

  /** The legacy-layout step leaves what `feature` defaults to as it was. */
  lemma DefaultFeatureKept(o: Obj)
    ensures Has(WithLegacyLayout(o), "feature") == Has(o, "feature")
    ensures DefaultFeature(WithLegacyLayout(o)) == DefaultFeature(o)
  {
    var o1 := WithLegacyLayout(o);
    assert Get(o1, "feature") == Get(o, "feature");
    assert Get(o1, "title") == Get(o, "title") && Get(o1, "spec_id") == Get(o, "spec_id");
  }

  /** `phases` after the plan-level steps. */
  lemma PlanHeadPhases(o: Obj)
    ensures Get(PlanHead(o).0, "phases") ==
      (if Has(o, "phases") then Get(o, "phases")
       else if LegacyLayout(o) then Some(JArr([JObj(LegacyPhase(LegacySubtasks(o)))]))
       else Some(JArr([])))
  {
    var o1 := WithLegacyLayout(o);
    var o2 := WithDefault(o1, "feature", DefaultFeature(o1));
    var o3 := WithDefault(o2, "workflow_type", JStr("feature"));
    assert Get(o3, "phases") == Get(o1, "phases");
  }

  /** Every other key after the plan-level steps. */
  lemma PlanHeadRest(o: Obj, k: string)
    ensures k in {"subtasks", "chunks"} ==> Get(PlanHead(o).0, k) == if LegacyLayout(o) then None else Get(o, k)
    ensures k !in {"feature", "workflow_type", "phases", "subtasks", "chunks"} ==> Get(PlanHead(o).0, k) == Get(o, k)
  {
    var o1 := WithLegacyLayout(o);
    var o2 := WithDefault(o1, "feature", DefaultFeature(o1));
    var o3 := WithDefault(o2, "workflow_type", JStr("feature"));
    if k !in {"feature", "workflow_type", "phases"} {
      assert Get(o3, k) == Get(o1, k);
    }
  }

  /** The plan-level flag is raised exactly when the plan-level steps change the plan. */
  lemma PlanHeadReported(o: Obj)
    ensures PlanHead(o).1 == (PlanHead(o).0 != o)
  {
    var h := PlanHead(o).0;
    PlanHeadFields(o, "");
    if LegacyLayout(o) {
      assert Get(h, "phases") != Get(o, "phases");
    } else if !Has(o, "feature") {
      assert Get(h, "feature") != Get(o, "feature");
    } else if !Has(o, "workflow_type") {
      assert Get(h, "workflow_type") != Get(o, "workflow_type");
    } else if !Has(o, "phases") {
      assert Get(h, "phases") != Get(o, "phases");
    }
  }

  /** The phases value the phases loop runs over. */
  function PhasesToFix(o: Obj): Json {
    GetOr(PlanHead(o).0, "phases", JArr([]))
  }

  /** `auto_fix_plan` on a parsed plan (auto_fix.py lines 55-170): the repaired plan and whether a fix was reported. */
  function RepairPlan(plan: Json, aliases: Aliases): (r: Outcome<Json>)
    ensures !plan.JObj? ==> r.Raised?
    ensures plan.JObj? ==> (r.Raised? <==> RepairPhaseList(PhasesToFix(plan.fields), aliases).Raised?)
    ensures r.Done? ==> r.value.JObj? && Get(r.value.fields, "phases") == Some(RepairPhaseList(PhasesToFix(plan.fields), aliases).value)
  {
    if !plan.JObj? then Raised
    else
      var (h, headFixed) := PlanHead(plan.fields);
      var phases := RepairPhaseList(GetOr(h, "phases", JArr([])), aliases);
      if phases.Raised? then Raised
      else Done(JObj(Put(h, "phases", phases.value)), headFixed || phases.fixed)
  }

  /** `auto_fix_plan` on a parsed plan, repairing it in place (auto_fix.py lines 55-170). */
  method FixPlan(plan: Json, aliases: Aliases) returns (out: Outcome<Json>)
    ensures out == RepairPlan(plan, aliases)
  {
    if !plan.JObj? {
      return Raised;
    }
    var o := plan.fields;
    var fixed := false;
    if !Has(o, "phases") && (GetOr(o, "subtasks", JNull).JArr? || GetOr(o, "chunks", JNull).JArr?) {
      var subtasks := Or(Or(GetOr(o, "subtasks", JNull), GetOr(o, "chunks", JNull)), JArr([]));
      o := Put(o, "phases", JArr([JObj(LegacyPhase(subtasks))]));
      o := Pop(o, "subtasks");
      o := Pop(o, "chunks");
      fixed := true;
    }
    ghost var o1 := o;
    if !Has(o, "feature") {
      o := Put(o, "feature", Or(Or(GetOr(o, "title", JNull), GetOr(o, "spec_id", JNull)), JStr("Unnamed Feature")));
      assert Get(o, "feature") != Get(o1, "feature");
      fixed := true;
    }
    ghost var o2 := o;
    if !Has(o, "workflow_type") {
      o := Put(o, "workflow_type", JStr("feature"));
      assert Get(o, "workflow_type") != Get(o2, "workflow_type");
      fixed := true;
    }
    ghost var o3 := o;
    if !Has(o, "phases") {
      o := Put(o, "phases", JArr([]));
      assert Get(o, "phases") != Get(o3, "phases");
      fixed := true;
    }
    assert (o, fixed) == PlanHead(plan.fields);
    var phases := FixPhaseList(GetOr(o, "phases", JArr([])), aliases);
    if phases.Raised? {
      return Raised;
    }
    o := Put(o, "phases", phases.value);
    out := Done(JObj(o), fixed || phases.fixed);
  }

  /** Some phase of the list may be reported fixed without changing. */
  predicate AnyPhaseSpurious(v: Json, aliases: Aliases) {
    v.JArr? && exists m :: 0 <= m < |v.items| && v.items[m].JObj? && PhaseSpurious(v.items[m].fields, aliases)
  }

  /**
   * `auto_fix_plan` reports a fix exactly when the plan changes, or some phase may be reported fixed without
   * changing (the chunks fallback, or an alias report on a subtask).
   */
  lemma PlanFixReported(plan: Json, aliases: Aliases)
    requires RepairPlan(plan, aliases).Done?
    ensures var r := RepairPlan(plan, aliases);
      r.fixed <==> r.value != plan || AnyPhaseSpurious(PhasesToFix(plan.fields), aliases)
  {
    var o := plan.fields;
    var r := RepairPlan(plan, aliases);
    var h := PlanHead(o).0;
    var v := PhasesToFix(o);
    var phases := RepairPhaseList(v, aliases);
    PlanHeadReported(o);
    PlanHeadFields(o, "");
    if v.JArr? {
      PhaseListReported(v, aliases);
      if AnyPhaseSpurious(v, aliases) {
        var m :| 0 <= m < |v.items| && v.items[m].JObj? && PhaseSpurious(v.items[m].fields, aliases);
      }
    }
    if !r.fixed {
      assert h == o;
      PutSame(o, "phases", v);
    } else if !AnyPhaseSpurious(v, aliases) {
      if !Has(o, "phases") {
        assert Has(r.value.fields, "phases");
      } else if h != o {
        PlanHeadDiffers(o, r.value.fields);
      } else {
        assert Get(r.value.fields, "phases") != Get(o, "phases");
      }
    }
  }

  /** A change the plan-level steps make to a plan that has `phases` survives the phases loop. */
  lemma PlanHeadDiffers(o: Obj, q: Obj)
    requires Has(o, "phases") && PlanHead(o).0 != o
    requires forall k {:trigger Get(q, k)} :: k != "phases" ==> Get(q, k) == Get(PlanHead(o).0, k)
    ensures q != o
  {
    PlanHeadReported(o);
    PlanHeadFields(o, "");
    if !Has(o, "feature") {
      assert Get(q, "feature") != Get(o, "feature");
    } else {
      assert Get(q, "workflow_type") != Get(o, "workflow_type");
    }
  }

  /** A plan the repair leaves alone: it has a feature, a workflow type, and a list of clean phases. */
  predicate PlanClean(o: Obj, aliases: Aliases) {
    Has(o, "feature") && Has(o, "workflow_type") && Has(o, "phases") && PhasesClean(GetOr(o, "phases", JNull), aliases)
  }

  /** A clean plan comes out of `auto_fix_plan` unchanged and no fix is reported. */
  lemma RepairKeepsCleanPlan(o: Obj, aliases: Aliases)
    requires PlanClean(o, aliases)
    ensures RepairPlan(JObj(o), aliases) == Done(JObj(o), false)
  {
    var v := GetOr(o, "phases", JNull);
    assert PlanHead(o) == (o, false);
    RepairKeepsCleanPhaseList(v, aliases);
    PutSame(o, "phases", v);
  }

  /** A repaired plan is clean once every phase's subtasks are truthy or without `chunks` and the alias normaliser finds nothing in them. */
  lemma RepairedPlanClean(plan: Json, aliases: Aliases)
    requires RepairPlan(plan, aliases).Done?
    requires PhasesSettled(GetOr(RepairPlan(plan, aliases).value.fields, "phases", JNull), aliases)
    ensures PlanClean(RepairPlan(plan, aliases).value.fields, aliases)
  {
    var o := plan.fields;
    var q := RepairPlan(plan, aliases).value.fields;
    assert Has(q, "feature") && Has(q, "workflow_type") by {
      PlanHeadFields(o, "");
      assert Get(q, "feature") == Get(PlanHead(o).0, "feature");
      assert Get(q, "workflow_type") == Get(PlanHead(o).0, "workflow_type");
    }
    RepairedPhaseListIsClean(PhasesToFix(o), aliases);
  }

  /**
   * Running `auto_fix_plan` on its own output changes nothing and reports nothing, once every phase's subtasks are
   * truthy or without `chunks` and the alias normaliser finds nothing in them.
   */
  lemma RepairedPlanIsClean(plan: Json, aliases: Aliases)
    requires RepairPlan(plan, aliases).Done?
    requires PhasesSettled(GetOr(RepairPlan(plan, aliases).value.fields, "phases", JNull), aliases)
    ensures PlanClean(RepairPlan(plan, aliases).value.fields, aliases)
    ensures RepairPlan(RepairPlan(plan, aliases).value, aliases) == Done(RepairPlan(plan, aliases).value, false)
  {
    RepairedPlanClean(plan, aliases);
    RepairKeepsCleanPlan(RepairPlan(plan, aliases).value.fields, aliases);
  }

  // ---------------------------------------------------------------------
  // The plan file

  /**
   * What reading `implementation_plan.json` gives: no file, an `OSError` or `JSONDecodeError` (both caught), bytes
   * that are not UTF-8 (a `UnicodeDecodeError`, which is not caught), or the parsed plan.
   */
  datatype PlanFile = Missing | Unreadable | Undecodable | Parsed(plan: Json)

  /** How writing the plan back goes: written, `open` fails (the file is untouched), or `json.dump` fails partway. */
  datatype WriteOutcome = WriteOk | OpenFails | DumpFails

  /** What is left in the plan file: the old text, the repaired plan, or a truncated, partly written file. */
  datatype FileEffect = Untouched | Rewritten(plan: Json) | Damaged

  /** How `auto_fix_plan` ends: an exception escapes, or it returns its flag along with what became of the file. */
  datatype Run = Raises | Returns(fixed: bool, effect: FileEffect)

  /**
   * `auto_fix_plan` (auto_fix.py lines 35-180), with the file read and the outcome of writing the file back as
   * parameters: the plan is written back only when a fix was reported, and a failed write returns `False`.
   */
  function AutoFixPlan(file: PlanFile, aliases: Aliases, write: WriteOutcome): (r: Run)
    ensures file.Missing? || file.Unreadable? ==> r == Returns(false, Untouched)
    ensures file.Undecodable? ==> r.Raises?
    ensures file.Parsed? ==> (r.Raises? <==> RepairPlan(file.plan, aliases).Raised?)
    ensures r.Returns? && r.fixed <==>
      file.Parsed? && RepairPlan(file.plan, aliases).Done? && RepairPlan(file.plan, aliases).fixed && write == WriteOk
    ensures r.Returns? && r.fixed ==> r.effect == Rewritten(RepairPlan(file.plan, aliases).value)
    ensures r.Returns? && !r.fixed ==>
      r.effect == if file.Parsed? && RepairPlan(file.plan, aliases).fixed && write == DumpFails then Damaged else Untouched
  {
    match file
    case Missing => Returns(false, Untouched)
    case Unreadable => Returns(false, Untouched)
    case Undecodable => Raises
    case Parsed(plan) =>
      match RepairPlan(plan, aliases)
      case Raised => Raises
      case Done(fixedPlan, fixed) =>
        if !fixed then Returns(false, Untouched)
        else
          match write
          case WriteOk => Returns(true, Rewritten(fixedPlan))
          case OpenFails => Returns(false, Untouched)
          case DumpFails => Returns(false, Damaged)
  }
}
