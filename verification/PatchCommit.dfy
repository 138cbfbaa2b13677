/** Applying a whole patch: every file is checked before the first write, and a failed write is
    followed by restores in reverse order. */
module PatchCommit {
  import opened Basics
  import opened PatchParser
  import opened PatchText
  import PatchHunks

  const MAX_PATCH_FILE_BYTES: nat := 2_000_000
  const MAX_PATCH_CHANGED_CHARS: nat := 500_000

  type Target = nat

  datatype Entry = Regular(bytes: Bytes, mode: nat) | Other

  type Tree = map<Target, Entry>

  /** What the project does not decide itself: where a path text leads (nowhere, if it leaves the
      project or meets a symbolic link), UTF-8, and the mode of a new file. Different path texts may
      lead to the same target. */
  datatype Env = Env(resolve: string -> Option<Target>,
                     decode: Bytes -> Option<string>,
                     encode: string -> Bytes,
                     newMode: nat)

  datatype Change = Change(target: Target, before: Option<Bytes>, after: Option<Bytes>, mode: Option<nat>)

  datatype Rejection =
    | Unresolvable
    | NotRegular
    | FileTooLarge
    | AddExists
    | DeleteMissing
    | UpdateMissing
    | NotText
    | HunkFailed(error: PatchHunks.HunkError)
    | ResultTooLarge
    | BudgetExceeded

  datatype PatchFailure =
    | Malformed(parse: ParseError)
    | Rejected(reason: Rejection)
    | WriteFailed(index: nat, recovered: bool)

  // ---------- Planning ----------

  function AddedText(lines: seq<string>): string {
    if lines == [] then "" else lines[0] + "\n" + AddedText(lines[1..])
  }

  function After(env: Env, f: FilePatch, before: Option<Bytes>): Result<Option<Bytes>, Rejection>
    requires WellFormedFile(f)
  {
    match f
    case Add(_, lines) =>
      if before.Some? then Err(AddExists) else Ok(Some(env.encode(AddedText(lines))))
    case Delete(_) =>
      if before.None? then Err(DeleteMissing) else Ok(None)
    case Update(_, hunks) =>
      if before.None? then Err(UpdateMissing)
      else match env.decode(before.value)
        case None => Err(NotText)
        case Some(original) =>
          match PatchHunks.UpdateText(original, hunks)
          case Err(e) => Err(HunkFailed(e))
          case Ok(updated) => Ok(Some(env.encode(updated)))
  }

  function Size(bytes: Option<Bytes>): nat {
    if bytes.Some? then |bytes.value| else 0
  }

  function PlanFile(tree: Tree, env: Env, f: FilePatch): Result<Change, Rejection>
    requires WellFormedFile(f)
  {
    match env.resolve(f.path)
    case None => Err(Unresolvable)
    case Some(target) =>
      if target in tree && tree[target].Other? then Err(NotRegular)
      else
        var before := if target in tree then Some(tree[target].bytes) else None;
        var mode := if target in tree then Some(tree[target].mode) else None;
        if Size(before) > MAX_PATCH_FILE_BYTES then Err(FileTooLarge)
        else match After(env, f, before)
          case Err(e) => Err(e)
          case Ok(after) =>
            if Size(after) > MAX_PATCH_FILE_BYTES then Err(ResultTooLarge)
            else Ok(Change(target, before, after, mode))
  }

  /** Plans the files after those already in `done`, which have used `spent` of the change budget. */
  function PlanFrom(tree: Tree, env: Env, files: seq<FilePatch>, done: seq<Change>, spent: nat)
    : Result<seq<Change>, Rejection>
    requires |done| <= |files| && forall i :: 0 <= i < |files| ==> WellFormedFile(files[i])
    decreases |files| - |done|
  {
    if |done| == |files| then Ok(done)
    else match PlanFile(tree, env, files[|done|])
      case Err(e) => Err(e)
      case Ok(change) =>
        var total := spent + Max(Size(change.before), Size(change.after));
        if total > MAX_PATCH_CHANGED_CHARS then Err(BudgetExceeded)
        else PlanFrom(tree, env, files, done + [change], total)
  }

  // ---------- Writing ----------

  /** The writes and restores that fail, and what each leaves at its own target. */
  datatype Faults = Faults(write: map<nat, Option<Entry>>, restore: map<nat, Option<Entry>>)

  function Look(tree: Tree, target: Target): Option<Entry> {
    if target in tree then Some(tree[target]) else None
  }

  function Put(tree: Tree, target: Target, entry: Option<Entry>): (r: Tree)
    ensures Look(r, target) == entry
    ensures forall t :: t != target ==> Look(r, t) == Look(tree, t)
  {
    if entry.Some? then tree[target := entry.value] else tree - {target}
  }

  /** What a completed write leaves: an updated file keeps its mode. */
  function Written(env: Env, change: Change): Option<Entry> {
    if change.after.None? then None
    else Some(Regular(change.after.value, if change.mode.Some? then change.mode.value else env.newMode))
  }

  predicate WriteFails(tree: Tree, change: Change, i: nat, faults: Faults) {
    i in faults.write || (change.after.None? && change.target !in tree)
  }

  function WriteOne(tree: Tree, env: Env, change: Change, i: nat, faults: Faults): Tree {
    if i in faults.write then Put(tree, change.target, faults.write[i])
    else if WriteFails(tree, change, i, faults) then tree
    else Put(tree, change.target, Written(env, change))
  }

  function Original(change: Change): Option<Entry> {
    if change.before.None? then None
    else Some(Regular(change.before.value, if change.mode.Some? then change.mode.value else 0))
  }

  function RestoreOne(tree: Tree, change: Change, i: nat, faults: Faults): Tree {
    Put(tree, change.target, if i in faults.restore then faults.restore[i] else Original(change))
  }

  /** Restores changes `n - 1` down to `0`. */
  function RestoreDown(tree: Tree, changes: seq<Change>, n: nat, faults: Faults): Tree
    requires n <= |changes|
    decreases n
  {
    if n == 0 then tree
    else RestoreDown(RestoreOne(tree, changes[n - 1], n - 1, faults), changes, n - 1, faults)
  }

  predicate RestoresSucceed(n: nat, faults: Faults) { forall i :: 0 <= i < n ==> i !in faults.restore }

  /** Writes the changes from number `i` on; at the first failure restores it and all earlier ones. */
  function CommitFrom(tree: Tree, env: Env, changes: seq<Change>, i: nat, faults: Faults)
    : (Tree, Result<nat, PatchFailure>)
    requires i <= |changes|
    decreases |changes| - i
  {
    if i == |changes| then (tree, Ok(i))
    else
      var next := WriteOne(tree, env, changes[i], i, faults);
      if WriteFails(tree, changes[i], i, faults) then
        (RestoreDown(next, changes, i + 1, faults), Err(WriteFailed(i, RestoresSucceed(i + 1, faults))))
      else CommitFrom(next, env, changes, i + 1, faults)
  }

  lemma {:induction false} ParsedFilesAreWellFormed(files: seq<FilePatch>, seen: set<string>)
    requires WellFormedFrom(files, seen)
    ensures forall i :: 0 <= i < |files| ==> WellFormedFile(files[i])
    decreases |files|
  {
    if files != [] {
      ParsedFilesAreWellFormed(files[1..], seen + {Canonical(files[0].path)});
      forall i | 0 <= i < |files| ensures WellFormedFile(files[i]) {
        if i > 0 { assert files[i] == files[1..][i - 1]; }
      }
    }
  }

  lemma ParseGivesWellFormedFiles(text: string)
    ensures Parse(text).Ok? ==>
              forall i :: 0 <= i < |Parse(text).value| ==> WellFormedFile(Parse(text).value[i])
  {
    if Parse(text).Ok? {
      ParseIsExact(text, Parse(text).value);
      ParsedFilesAreWellFormed(Parse(text).value, {});
    }
  }

  function Plan(tree: Tree, env: Env, text: string): Result<seq<Change>, PatchFailure> {
    match Parse(text)
    case Err(e) => Err(Malformed(e))
    case Ok(files) =>
      ParseGivesWellFormedFiles(text);
      match PlanFrom(tree, env, files, [], 0)
      case Err(e) => Err(Rejected(e))
      case Ok(changes) => Ok(changes)
  }

  function ApplyPatch(tree: Tree, env: Env, text: string, faults: Faults): (Tree, Result<nat, PatchFailure>) {
    match Plan(tree, env, text)
    case Err(e) => (tree, Err(e))
    case Ok(changes) => CommitFrom(tree, env, changes, 0, faults)
  }

  // ---------- The same on a project changed in place ----------

  class Project {
    var tree: Tree

    constructor (tree: Tree)
      ensures this.tree == tree
    {
      this.tree := tree;
    }

    method PlanChanges(env: Env, files: seq<FilePatch>) returns (result: Result<seq<Change>, Rejection>)
      requires forall i :: 0 <= i < |files| ==> WellFormedFile(files[i])
      ensures result == PlanFrom(tree, env, files, [], 0)
    {
      var changes: seq<Change> := [];
      var spent: nat := 0;
      while |changes| < |files|
        invariant |changes| <= |files|
        invariant PlanFrom(tree, env, files, [], 0) == PlanFrom(tree, env, files, changes, spent)
        decreases |files| - |changes|
      {
        var change := PlanFile(tree, env, files[|changes|]);
        if change.Err? {
          return Err(change.error);
        }
        spent := spent + Max(Size(change.value.before), Size(change.value.after));
        if spent > MAX_PATCH_CHANGED_CHARS {
          return Err(BudgetExceeded);
        }
        changes := changes + [change.value];
      }
      return Ok(changes);
    }

    method Restore(changes: seq<Change>, count: nat, faults: Faults) returns (complete: bool)
      requires count <= |changes|
      modifies this
      ensures tree == RestoreDown(old(tree), changes, count, faults)
      ensures complete == RestoresSucceed(count, faults)
    {
      var n := count;
      complete := true;
      while n > 0
        invariant 0 <= n <= count
        invariant RestoreDown(tree, changes, n, faults) == RestoreDown(old(tree), changes, count, faults)
        invariant complete == forall i :: n <= i < count ==> i !in faults.restore
      {
        n := n - 1;
        tree := RestoreOne(tree, changes[n], n, faults);
        if n in faults.restore {
          complete := false;
        }
      }
    }

    method Apply(env: Env, text: string, faults: Faults) returns (result: Result<nat, PatchFailure>)
      modifies this
      ensures (tree, result) == ApplyPatch(old(tree), env, text, faults)
    {
      var parsed := ParsePatch(text);
      if parsed.Err? {
        return Err(Malformed(parsed.error));
      }
      ParseGivesWellFormedFiles(text);
      var planned := PlanChanges(env, parsed.value);
      if planned.Err? {
        return Err(Rejected(planned.error));
      }
      var changes := planned.value;
      var completed: nat := 0;
      while completed < |changes|
        invariant completed <= |changes|
        invariant CommitFrom(tree, env, changes, completed, faults) == ApplyPatch(old(tree), env, text, faults)
      {
        var change := changes[completed];
        var failed := WriteFails(tree, change, completed, faults);
        tree := WriteOne(tree, env, change, completed, faults);
        if failed {
          var complete := Restore(changes, completed + 1, faults);
          return Err(WriteFailed(completed, complete));
        }
        completed := completed + 1;
      }
      return Ok(completed);
    }
  }

  // ---------- What is planned ----------

  /** The bytes the changes from number `k` on count against the budget. */
  function ChangedFrom(changes: seq<Change>, k: nat): nat
    requires k <= |changes|
    decreases |changes| - k
  {
    if k == |changes| then 0
    else Max(Size(changes[k].before), Size(changes[k].after)) + ChangedFrom(changes, k + 1)
  }

  /** Every file from number `k` on has its change. */
  ghost predicate PlannedFrom(tree: Tree, env: Env, files: seq<FilePatch>, changes: seq<Change>, k: nat)
    requires forall i :: 0 <= i < |files| ==> WellFormedFile(files[i])
  {
    && |changes| == |files|
    && forall i :: k <= i < |files| ==> PlanFile(tree, env, files[i]) == Ok(changes[i])
  }

  lemma OneMoreDone(done: seq<Change>, change: Change, changes: seq<Change>)
    requires done <= changes && |done| < |changes|
    ensures done + [change] <= changes <==> change == changes[|done|]
  {
    if done + [change] <= changes {
      assert (done + [change])[|done|] == changes[|done|];
    }
    assert changes[..|done| + 1] == done + [changes[|done|]];
  }

  lemma {:induction false} PlanFromIsExact(tree: Tree, env: Env, files: seq<FilePatch>, done: seq<Change>, spent: nat,
                                           changes: seq<Change>)
    requires |done| <= |files| && forall i :: 0 <= i < |files| ==> WellFormedFile(files[i])
    requires done <= changes && |changes| == |files| && spent <= MAX_PATCH_CHANGED_CHARS
    ensures PlanFrom(tree, env, files, done, spent) == Ok(changes) <==>
            && PlannedFrom(tree, env, files, changes, |done|)
            && spent + ChangedFrom(changes, |done|) <= MAX_PATCH_CHANGED_CHARS
    decreases |files| - |done|
  {
    hide PlanFile;
    var k := |done|;
    if k == |files| {
      assert done == changes;
    } else if PlanFile(tree, env, files[k]).Ok? {
      var change := PlanFile(tree, env, files[k]).value;
      var total := spent + Max(Size(change.before), Size(change.after));
      if total <= MAX_PATCH_CHANGED_CHARS {
        PlanKeepsDone(tree, env, files, done + [change], total);
        OneMoreDone(done, change, changes);
        if change == changes[k] {
          PlanFromIsExact(tree, env, files, done + [change], total, changes);
        }
      }
    }
  }

  lemma {:induction false} PlanKeepsDone(tree: Tree, env: Env, files: seq<FilePatch>, done: seq<Change>, spent: nat)
    requires |done| <= |files| && forall i :: 0 <= i < |files| ==> WellFormedFile(files[i])
    ensures var plan := PlanFrom(tree, env, files, done, spent);
            plan.Ok? ==> done <= plan.value && |plan.value| == |files|
    decreases |files| - |done|
  {
    hide PlanFile, WellFormedFile, Size;
    if |done| < |files| && PlanFile(tree, env, files[|done|]).Ok? {
      var change := PlanFile(tree, env, files[|done|]).value;
      PlanKeepsDone(tree, env, files, done + [change], spent + Max(Size(change.before), Size(change.after)));
    }
  }

  /** A patch is planned if and only if it parses, every file can be planned on its own, against the
      tree as it is before any write, and all changes together stay within the budget. */
  lemma PlanIsExact(tree: Tree, env: Env, text: string, files: seq<FilePatch>, changes: seq<Change>)
    requires Parse(text) == Ok(files) && |changes| == |files|
    ensures forall i :: 0 <= i < |files| ==> WellFormedFile(files[i])
    ensures Plan(tree, env, text) == Ok(changes) <==>
            PlannedFrom(tree, env, files, changes, 0) && ChangedFrom(changes, 0) <= MAX_PATCH_CHANGED_CHARS
  {
    ParseGivesWellFormedFiles(text);
    PlanFromIsExact(tree, env, files, [], 0, changes);
  }

  // ---------- All or nothing ----------

  /** Each change remembers what `tree` held at its target. */
  predicate Remembers(tree: Tree, changes: seq<Change>) {
    forall i :: 0 <= i < |changes| ==> Original(changes[i]) == Look(tree, changes[i].target)
  }

  lemma {:induction false} PlanRemembers(tree: Tree, env: Env, files: seq<FilePatch>, done: seq<Change>, spent: nat)
    requires |done| <= |files| && forall i :: 0 <= i < |files| ==> WellFormedFile(files[i])
    requires Remembers(tree, done) && PlanFrom(tree, env, files, done, spent).Ok?
    ensures Remembers(tree, PlanFrom(tree, env, files, done, spent).value)
    decreases |files| - |done|
  {
    if |done| < |files| {
      var change := PlanFile(tree, env, files[|done|]).value;
      PlanRemembers(tree, env, files, done + [change], spent + Max(Size(change.before), Size(change.after)));
    }
  }

  predicate TouchedBefore(changes: seq<Change>, i: nat, t: Target) {
    exists j :: 0 <= j < i <= |changes| && changes[j].target == t
  }

  lemma RestoredOnce(tree: Tree, first: Tree, changes: seq<Change>, n: nat, faults: Faults, t: Target)
    requires 0 < n <= |changes| && Remembers(first, changes)
    requires changes[n - 1].target == t ==> n - 1 !in faults.restore
    requires Look(tree, t) == Look(first, t) || TouchedBefore(changes, n, t)
    ensures var next := RestoreOne(tree, changes[n - 1], n - 1, faults);
            Look(next, t) == Look(first, t) || TouchedBefore(changes, n - 1, t)
  {
    hide Original;
  }

  /** Restoring puts back every target of the first `n` changes at which no restore fails, and leaves
      the other targets alone. */
  lemma {:induction false} RestoredTarget(tree: Tree, first: Tree, changes: seq<Change>, n: nat, faults: Faults,
                                          t: Target)
    requires n <= |changes| && Remembers(first, changes)
    requires forall i :: 0 <= i < n && changes[i].target == t ==> i !in faults.restore
    requires Look(tree, t) == Look(first, t) || TouchedBefore(changes, n, t)
    ensures Look(RestoreDown(tree, changes, n, faults), t) == Look(first, t)
    decreases n
  {
    if n > 0 {
      hide RestoreOne, Look, TouchedBefore, Remembers;
      var next := RestoreOne(tree, changes[n - 1], n - 1, faults);
      RestoredOnce(tree, first, changes, n, faults, t);
      RestoredTarget(next, first, changes, n - 1, faults, t);
    }
  }

  lemma {:induction false} FailureNamesTheWrite(tree: Tree, env: Env, changes: seq<Change>, i: nat, faults: Faults)
    requires i <= |changes| && CommitFrom(tree, env, changes, i, faults).1.Err?
    ensures var e := CommitFrom(tree, env, changes, i, faults).1.error;
            && e.WriteFailed? && i <= e.index < |changes|
            && (e.recovered <==> RestoresSucceed(e.index + 1, faults))
    decreases |changes| - i
  {
    if !WriteFails(tree, changes[i], i, faults) {
      FailureNamesTheWrite(WriteOne(tree, env, changes[i], i, faults), env, changes, i + 1, faults);
    }
  }

  /** Targets at which a restore fails when write number `index` has failed. */
  predicate RestoreFailedAt(changes: seq<Change>, index: nat, faults: Faults, t: Target) {
    exists j :: 0 <= j <= index < |changes| && changes[j].target == t && j in faults.restore
  }

  lemma {:induction false} FailedCommitRestores(tree: Tree, first: Tree, env: Env, changes: seq<Change>, i: nat,
                                                faults: Faults, t: Target)
    requires i <= |changes| && Remembers(first, changes)
    requires Look(tree, t) == Look(first, t) || TouchedBefore(changes, i, t)
    requires CommitFrom(tree, env, changes, i, faults).1.Err?
    requires CommitFrom(tree, env, changes, i, faults).1.error.WriteFailed?
    requires !RestoreFailedAt(changes, CommitFrom(tree, env, changes, i, faults).1.error.index, faults, t)
    ensures Look(CommitFrom(tree, env, changes, i, faults).0, t) == Look(first, t)
    decreases |changes| - i
  {
    var next := WriteOne(tree, env, changes[i], i, faults);
    if changes[i].target == t {
      assert TouchedBefore(changes, i + 1, t);
    } else {
      assert Look(next, t) == Look(tree, t);
    }
    if WriteFails(tree, changes[i], i, faults) {
      RestoredTarget(next, first, changes, i + 1, faults, t);
    } else {
      FailedCommitRestores(next, first, env, changes, i + 1, faults, t);
    }
  }

  /** A failed write changes nothing except at targets whose own restore failed, whatever the write
      did to its target and even when several path texts lead to one target. */
  lemma FailedPatchTouchesOnlyFailedRestores(tree: Tree, env: Env, text: string, faults: Faults, t: Target)
    requires ApplyPatch(tree, env, text, faults).1.Err?
    ensures var e := ApplyPatch(tree, env, text, faults).1.error;
            var plan := Plan(tree, env, text);
            (plan.Err? || (e.WriteFailed? && !RestoreFailedAt(plan.value, e.index, faults, t))) ==>
              Look(ApplyPatch(tree, env, text, faults).0, t) == Look(tree, t)
  {
    var plan := Plan(tree, env, text);
    if plan.Ok? {
      ParseGivesWellFormedFiles(text);
      PlanRemembers(tree, env, Parse(text).value, [], 0);
      FailureNamesTheWrite(tree, env, plan.value, 0, faults);
      var e := ApplyPatch(tree, env, text, faults).1.error;
      if !RestoreFailedAt(plan.value, e.index, faults, t) {
        FailedCommitRestores(tree, tree, env, plan.value, 0, faults, t);
      }
    }
  }

  /** The first of the first `n` changes that goes to `t`. */
  function FirstChange(changes: seq<Change>, n: nat, t: Target): (first: Option<nat>)
    requires n <= |changes|
    ensures first.Some? ==> first.value < n && changes[first.value].target == t
    ensures first.Some? ==> forall i :: 0 <= i < first.value ==> changes[i].target != t
    ensures first.None? ==> forall i :: 0 <= i < n ==> changes[i].target != t
  {
    if n == 0 then None
    else
      var earlier := FirstChange(changes, n - 1, t);
      if earlier.Some? then earlier else if changes[n - 1].target == t then Some(n - 1) else None
  }

  lemma {:induction false} LastRestoreStays(tree: Tree, changes: seq<Change>, n: nat, faults: Faults, t: Target)
    requires n <= |changes|
    ensures Look(RestoreDown(tree, changes, n, faults), t) ==
            match FirstChange(changes, n, t)
            case None => Look(tree, t)
            case Some(j) => if j in faults.restore then faults.restore[j] else Original(changes[j])
    decreases n
  {
    if n > 0 {
      LastRestoreStays(RestoreOne(tree, changes[n - 1], n - 1, faults), changes, n - 1, faults, t);
    }
  }

  lemma {:induction false} FailedCommitEndsInRestore(tree: Tree, env: Env, changes: seq<Change>, i: nat, faults: Faults)
    returns (next: Tree)
    requires i <= |changes| && CommitFrom(tree, env, changes, i, faults).1.Err?
    ensures var (left, result) := CommitFrom(tree, env, changes, i, faults);
            && result.error.WriteFailed? && i <= result.error.index < |changes|
            && left == RestoreDown(next, changes, result.error.index + 1, faults)
    decreases |changes| - i
  {
    next := WriteOne(tree, env, changes[i], i, faults);
    if !WriteFails(tree, changes[i], i, faults) {
      next := FailedCommitEndsInRestore(next, env, changes, i + 1, faults);
    }
  }

  /** The exact tree after any failed write: since the restores run backwards, a target shows what the
      restore of the first change to it left, its entry before the patch unless that restore failed, and
      a target no attempted change leads to is untouched. Recovery is reported as complete exactly if no
      restore failed. */
  lemma FailedPatchIsExact(tree: Tree, env: Env, text: string, faults: Faults, t: Target)
    requires Plan(tree, env, text).Ok? && ApplyPatch(tree, env, text, faults).1.Err?
    ensures var (left, result) := ApplyPatch(tree, env, text, faults);
            var changes := Plan(tree, env, text).value;
            && result.error.WriteFailed? && result.error.index < |changes|
            && (result.error.recovered <==> forall i :: 0 <= i <= result.error.index ==> i !in faults.restore)
            && Look(left, t) == match FirstChange(changes, result.error.index + 1, t)
                                case None => Look(tree, t)
                                case Some(j) => if j in faults.restore then faults.restore[j] else Look(tree, t)
  {
    hide CommitFrom, Parse, PlanFrom, RestoreDown, FirstChange;
    var changes := Plan(tree, env, text).value;
    ParseGivesWellFormedFiles(text);
    PlanRemembers(tree, env, Parse(text).value, [], 0);
    FailureNamesTheWrite(tree, env, changes, 0, faults);
    var index := ApplyPatch(tree, env, text, faults).1.error.index;
    var next := FailedCommitEndsInRestore(tree, env, changes, 0, faults);
    LastRestoreStays(next, changes, index + 1, faults, t);
    if FirstChange(changes, index + 1, t).None? {
      FailedPatchTouchesOnlyFailedRestores(tree, env, text, faults, t);
    }
  }

  lemma SameLooks(a: Tree, b: Tree)
    requires forall t :: Look(a, t) == Look(b, t)
    ensures a == b
  {
    forall t ensures t in a <==> t in b {
      assert Look(a, t) == Look(b, t);
    }
    assert a.Keys == b.Keys;
    forall t | t in a ensures a[t] == b[t] {
      assert Look(a, t) == Look(b, t);
    }
  }

  /** A patch that fails to parse or to plan writes nothing; one that reports a complete recovery has
      left every file as it was. */
  lemma AllOrNothing(tree: Tree, env: Env, text: string, faults: Faults)
    ensures var (left, result) := ApplyPatch(tree, env, text, faults);
            result.Err? && (result.error.WriteFailed? ==> result.error.recovered) ==> left == tree
  {
    var result := ApplyPatch(tree, env, text, faults).1;
    if result.Err? && (result.error.WriteFailed? ==> result.error.recovered) {
      var plan := Plan(tree, env, text);
      if plan.Ok? {
        FailureNamesTheWrite(tree, env, plan.value, 0, faults);
      }
      forall t ensures Look(ApplyPatch(tree, env, text, faults).0, t) == Look(tree, t) {
        FailedPatchTouchesOnlyFailedRestores(tree, env, text, faults, t);
      }
      SameLooks(ApplyPatch(tree, env, text, faults).0, tree);
    }
  }

  // ---------- What a completed patch leaves ----------

  /** The last change from number `i` on that goes to `t`. */
  function LastChange(changes: seq<Change>, i: nat, t: Target): (last: Option<nat>)
    requires i <= |changes|
    ensures last.Some? ==> i <= last.value < |changes| && changes[last.value].target == t
    ensures last.Some? ==> forall j :: last.value < j < |changes| ==> changes[j].target != t
    ensures last.None? ==> forall j :: i <= j < |changes| ==> changes[j].target != t
    decreases |changes| - i
  {
    if i == |changes| then None
    else
      var later := LastChange(changes, i + 1, t);
      if later.Some? then later else if changes[i].target == t then Some(i) else None
  }

  lemma {:induction false} LastWriteStays(tree: Tree, env: Env, changes: seq<Change>, i: nat, faults: Faults, t: Target)
    requires i <= |changes| && CommitFrom(tree, env, changes, i, faults).1.Ok?
    ensures Look(CommitFrom(tree, env, changes, i, faults).0, t) ==
            match LastChange(changes, i, t)
            case None => Look(tree, t)
            case Some(j) => Written(env, changes[j])
    decreases |changes| - i
  {
    if i < |changes| {
      LastWriteStays(WriteOne(tree, env, changes[i], i, faults), env, changes, i + 1, faults, t);
    }
  }

  /** After a completed patch a file shows its change if and only if no later path text led to the same
      target with another result; files no change leads to are untouched. */
  lemma CompletedPatchShowsChangeIff(tree: Tree, env: Env, text: string, faults: Faults, k: nat, t: Target)
    requires ApplyPatch(tree, env, text, faults).1.Ok? && k < |Plan(tree, env, text).value|
    ensures var changes := Plan(tree, env, text).value;
            var left := ApplyPatch(tree, env, text, faults).0;
            var last := LastChange(changes, 0, changes[k].target);
            && last.Some? && k <= last.value
            && (Look(left, changes[k].target) == Written(env, changes[k]) <==>
                Written(env, changes[last.value]) == Written(env, changes[k]))
            && ((forall j :: 0 <= j < |changes| ==> changes[j].target != t) ==> Look(left, t) == Look(tree, t))
  {
    var changes := Plan(tree, env, text).value;
    LastWriteStays(tree, env, changes, 0, faults, changes[k].target);
    LastWriteStays(tree, env, changes, 0, faults, t);
  }

  function TwoNames(): seq<FilePatch> { [Add("a", ["x"]), Add("./a", ["y"])] }

  lemma TwoNamesAreValid()
    ensures ValidPath("a") && ValidPath("./a")
  {
    SplitJoin(["a"], '/');
    SplitJoin([".", "a"], '/');
    assert Join([".", "a"], '/') == "./a" && Join(["a"], '/') == "a";
  }

  lemma TwoNamesParse()
    ensures Parse(Print(TwoNames())) == Ok(TwoNames())
  {
    hide Parse, Join;
    var files := TwoNames();
    TwoNamesAreValid();
    assert |Canonical("a")| == 1 && |Canonical("./a")| == 3;
    assert files[1..] == [files[1]] && files[1..][1..] == [];
    assert WellFormedFrom(files[1..], {} + {Canonical("a")});
    assert WellFormed(files);
    assert PrintableFile(files[0]) && PrintableFile(files[1]);
    TwoNamesAreShort();
    PrintThenParse(files);
  }

  lemma TwoNamesAreShort()
    ensures |Print(TwoNames())| <= MAX_PATCH_CHARS
  {
    var files := TwoNames();
    assert files[1..] == [files[1]] && files[1..][1..] == [];
    assert "+" + "x" == "+x" && "+" + "y" == "+y";
    assert PrintFiles([]) == [END] && PrintBody(files[0]) == ["+x"] && PrintBody(files[1]) == ["+y"];
    assert PrintFiles(files[1..]) == [ADD + "./a", "+y", END];
    assert PrintFiles(files) == [ADD + "a", "+x", ADD + "./a", "+y", END];
    JoinIsShort([BEGIN] + PrintFiles(files), '\n', 30);
  }

  lemma {:induction false} JoinIsShort(pieces: seq<string>, sep: char, n: nat)
    requires forall i :: 0 <= i < |pieces| ==> |pieces[i]| <= n
    ensures |Join(pieces, sep)| <= |pieces| * (n + 1)
  {
    if |pieces| > 1 {
      JoinIsShort(pieces[1..], sep, n);
      assert |pieces| * (n + 1) == |pieces[1..]| * (n + 1) + (n + 1);
    }
  }

  /** The witness: two path texts for one file pass the parser's test for duplicates, the patch reports
      two changes, and the first one is lost. */
  lemma SecondNameOverwritesFirst(env: Env, t: Target)
    requires env.resolve("a") == env.resolve("./a") == Some(t)
    requires |env.encode("x\n")| <= 1_000 && |env.encode("y\n")| <= 1_000
    ensures var text := Print([Add("a", ["x"]), Add("./a", ["y"])]);
            ApplyPatch(map[], env, text, Faults(map[], map[]))
            == (map[t := Regular(env.encode("y\n"), env.newMode)], Ok(2))
  {
    hide Parse, Print;
    var files, none := TwoNames(), Faults(map[], map[]);
    TwoNamesParse();
    TwoNamesAreValid();
    assert AddedText(["x"]) == "x\n" && AddedText(["y"]) == "y\n";
    var x, y := Change(t, None, Some(env.encode("x\n")), None), Change(t, None, Some(env.encode("y\n")), None);
    assert PlanFile(map[], env, files[0]) == Ok(x) && PlanFile(map[], env, files[1]) == Ok(y);
    assert [] + [x] == [x] && [x] + [y] == [x, y];
    assert PlanFrom(map[], env, files, [x, y], Size(x.after) + Size(y.after)) == Ok([x, y]);
    assert PlanFrom(map[], env, files, [x], Size(x.after)) == Ok([x, y]);
    assert PlanFrom(map[], env, files, [], 0) == Ok([x, y]);
    assert Plan(map[], env, Print(files)) == Ok([x, y]);
    var first := WriteOne(map[], env, x, 0, none);
    var second := WriteOne(first, env, y, 1, none);
    assert second == map[t := Regular(env.encode("y\n"), env.newMode)];
    assert CommitFrom(second, env, [x, y], 2, none) == (second, Ok(2));
    assert CommitFrom(first, env, [x, y], 1, none) == (second, Ok(2));
  }

  predicate DistinctTargets(changes: seq<Change>) {
    forall i, j :: 0 <= i < j < |changes| ==> changes[i].target != changes[j].target
  }

  lemma {:induction false} CommitSucceeds(tree: Tree, first: Tree, env: Env, changes: seq<Change>, i: nat,
                                          faults: Faults)
    requires i <= |changes| && Remembers(first, changes) && DistinctTargets(changes)
    requires forall j :: i <= j < |changes| ==> Look(tree, changes[j].target) == Look(first, changes[j].target)
    requires forall j :: 0 <= j < |changes| && changes[j].after.None? ==> changes[j].before.Some?
    ensures CommitFrom(tree, env, changes, i, faults).1.Ok? <==>
            forall j :: i <= j < |changes| ==> j !in faults.write
    decreases |changes| - i
  {
    if i < |changes| && i !in faults.write {
      assert Look(tree, changes[i].target) == Original(changes[i]);
      CommitSucceeds(WriteOne(tree, env, changes[i], i, faults), first, env, changes, i + 1, faults);
    }
  }

  lemma {:induction false} PlannedDeletesExist(tree: Tree, env: Env, files: seq<FilePatch>, done: seq<Change>,
                                               spent: nat)
    requires |done| <= |files| && forall i :: 0 <= i < |files| ==> WellFormedFile(files[i])
    requires forall i :: 0 <= i < |done| && done[i].after.None? ==> done[i].before.Some?
    requires PlanFrom(tree, env, files, done, spent).Ok?
    ensures var changes := PlanFrom(tree, env, files, done, spent).value;
            && |changes| == |files|
            && forall i :: 0 <= i < |changes| && changes[i].after.None? ==> changes[i].before.Some?
    decreases |files| - |done|
  {
    if |done| < |files| {
      var change := PlanFile(tree, env, files[|done|]).value;
      PlannedDeletesExist(tree, env, files, done + [change], spent + Max(Size(change.before), Size(change.after)));
    }
  }

  /** With distinct targets a planned patch completes if and only if no write is made to fail. */
  lemma PlannedPatchCompletesIff(tree: Tree, env: Env, text: string, faults: Faults)
    requires Plan(tree, env, text).Ok? && DistinctTargets(Plan(tree, env, text).value)
    ensures ApplyPatch(tree, env, text, faults).1.Ok? <==>
            forall j :: 0 <= j < |Plan(tree, env, text).value| ==> j !in faults.write
  {
    ParseGivesWellFormedFiles(text);
    PlanRemembers(tree, env, Parse(text).value, [], 0);
    PlannedDeletesExist(tree, env, Parse(text).value, [], 0);
    CommitSucceeds(tree, tree, env, Plan(tree, env, text).value, 0, faults);
  }

  // ---------- What a completed patch leaves in each file ----------

  /** The change one file of a patch asks for, by kind: an added file did not exist and holds its lines,
      each with its newline; a deleted one existed; an updated one existed as text and becomes the
      patched text. */
  ghost predicate Becomes(env: Env, f: FilePatch, before: Option<Bytes>, after: Option<Bytes>)
    requires WellFormedFile(f)
  {
    match f
    case Add(_, lines) => before == None && after == Some(env.encode(Join(lines + [""], '\n')))
    case Delete(_) => before.Some? && after == None
    case Update(_, hunks) =>
      && before.Some? && after.Some? && env.decode(before.value).Some?
      && PatchHunks.UpdateText(env.decode(before.value).value, hunks).Ok?
      && after.value == env.encode(PatchHunks.UpdateText(env.decode(before.value).value, hunks).value)
  }

  function BytesAt(tree: Tree, t: Target): Option<Bytes> {
    if t in tree && tree[t].Regular? then Some(tree[t].bytes) else None
  }

  lemma {:induction false} AddedTextIsJoined(lines: seq<string>)
    ensures AddedText(lines) == Join(lines + [""], '\n')
  {
    if lines != [] {
      AddedTextIsJoined(lines[1..]);
      assert (lines + [""])[1..] == lines[1..] + [""];
      assert lines[0] + ['\n'] + AddedText(lines[1..]) == lines[0] + "\n" + AddedText(lines[1..]);
    }
  }

  /** A file is planned exactly if its path leads into the project, nothing but a regular file is there,
      its kind fits what is there, and both contents are within the limit. */
  lemma PlanFileIff(tree: Tree, env: Env, f: FilePatch, change: Change)
    requires WellFormedFile(f)
    ensures PlanFile(tree, env, f) == Ok(change) <==>
            && env.resolve(f.path) == Some(change.target)
            && (change.target in tree ==> tree[change.target].Regular?)
            && change.before == BytesAt(tree, change.target)
            && change.mode == (if change.target in tree then Some(tree[change.target].mode) else None)
            && Becomes(env, f, change.before, change.after)
            && (change.before.Some? ==> |change.before.value| <= 2_000_000)
            && (change.after.Some? ==> |change.after.value| <= 2_000_000)
  {
    if f.Add? { AddedTextIsJoined(f.lines); }
  }

  predicate DistinctFiles(env: Env, files: seq<FilePatch>) {
    forall i, j :: 0 <= i < j < |files| ==> env.resolve(files[i].path) != env.resolve(files[j].path)
  }

  /** A file of a completed patch: it met the demands of its kind before, and shows its new content now,
      an updated file with its old mode. */
  ghost predicate Shows(tree: Tree, left: Tree, env: Env, f: FilePatch)
    requires WellFormedFile(f)
  {
    && env.resolve(f.path).Some?
    && var t := env.resolve(f.path).value;
    && (t in tree ==> tree[t].Regular?)
    && Becomes(env, f, BytesAt(tree, t), BytesAt(left, t))
    && (t in left ==> left[t].Regular? && left[t].mode == if t in tree then tree[t].mode else env.newMode)
  }

  /** A completed patch met the demands of all its files, reports their number, and, when they lead to
      different targets, leaves each of them as its file asks. */
  lemma CompletedPatchShowsFiles(tree: Tree, env: Env, text: string, faults: Faults, files: seq<FilePatch>)
    requires Parse(text) == Ok(files) && ApplyPatch(tree, env, text, faults).1.Ok?
    ensures forall i :: 0 <= i < |files| ==> WellFormedFile(files[i])
    ensures ApplyPatch(tree, env, text, faults).1 == Ok(|files|)
    ensures DistinctFiles(env, files) ==>
              forall i :: 0 <= i < |files| ==> Shows(tree, ApplyPatch(tree, env, text, faults).0, env, files[i])
  {
    hide Parse, PlanFrom, CommitFrom, PlanFile, Becomes, LastChange;
    ParseGivesWellFormedFiles(text);
    var changes := Plan(tree, env, text).value;
    PlanKeepsDone(tree, env, files, [], 0);
    PlanIsExact(tree, env, text, files, changes);
    CommitCounts(tree, env, changes, 0, faults);
    if DistinctFiles(env, files) {
      forall i | 0 <= i < |files| ensures Shows(tree, ApplyPatch(tree, env, text, faults).0, env, files[i]) {
        forall j | 0 <= j < |files| ensures env.resolve(files[j].path) == Some(changes[j].target) {
          PlanFileIff(tree, env, files[j], changes[j]);
        }
        PlanFileIff(tree, env, files[i], changes[i]);
        CompletedPatchShowsChangeIff(tree, env, text, faults, i, changes[i].target);
        OnlyChange(changes, 0, i);
        WrittenShows(tree, ApplyPatch(tree, env, text, faults).0, env, files[i], changes[i]);
      }
    }
  }

  lemma WrittenShows(tree: Tree, left: Tree, env: Env, f: FilePatch, change: Change)
    requires WellFormedFile(f) && PlanFile(tree, env, f) == Ok(change)
    requires Look(left, change.target) == Written(env, change)
    ensures Shows(tree, left, env, f)
  {
    hide PlanFile;
    PlanFileIff(tree, env, f, change);
  }

  lemma {:induction false} CommitCounts(tree: Tree, env: Env, changes: seq<Change>, i: nat, faults: Faults)
    requires i <= |changes| && CommitFrom(tree, env, changes, i, faults).1.Ok?
    ensures CommitFrom(tree, env, changes, i, faults).1 == Ok(|changes|)
    decreases |changes| - i
  {
    hide WriteOne, WriteFails;
    if i < |changes| {
      CommitCounts(WriteOne(tree, env, changes[i], i, faults), env, changes, i + 1, faults);
    }
  }

  lemma {:induction false} OnlyChange(changes: seq<Change>, from: nat, k: nat)
    requires from <= k < |changes|
    requires forall j :: 0 <= j < |changes| && j != k ==> changes[j].target != changes[k].target
    ensures LastChange(changes, from, changes[k].target) == Some(k)
    decreases |changes| - from
  {
  }

  /** A patch is refused before anything is written if one of its files does not meet the demands of its
      kind: an added file exists, a deleted or updated one does not, or an updated one is not text or does
      not take its hunks. */
  lemma UnfitFileRefusesPatch(tree: Tree, env: Env, text: string, faults: Faults, files: seq<FilePatch>, k: nat)
    requires Parse(text) == Ok(files) && k < |files|
    ensures WellFormedFile(files[k])
    ensures (env.resolve(files[k].path).Some? ==>
               var before := BytesAt(tree, env.resolve(files[k].path).value);
               forall after :: !Becomes(env, files[k], before, after)) ==>
              && ApplyPatch(tree, env, text, faults).0 == tree
              && ApplyPatch(tree, env, text, faults).1.Err? && ApplyPatch(tree, env, text, faults).1.error.Rejected?
  {
    hide Parse, PlanFrom, PlanFile, Becomes;
    ParseGivesWellFormedFiles(text);
    if Plan(tree, env, text).Ok? {
      var changes := Plan(tree, env, text).value;
      PlanKeepsDone(tree, env, files, [], 0);
      PlanIsExact(tree, env, text, files, changes);
      PlanFileIff(tree, env, files[k], changes[k]);
    }
  }
}
