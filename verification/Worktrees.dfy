/** Isolated Agent workspaces: their status machine, the loops run when a stage is accepted or rolled
    back, and the stage around an integration. */
module Worktrees {
  import opened Basics
  import K = Checkpoints

  datatype Status = Active | Ready | Conflicted | IntegratedPending | Integrated | Discarded | Orphaned

  datatype Workspace = Workspace(
    path: string,
    baseline: string,
    head: string,
    status: Status,
    changed: nat,
    conflicts: seq<string>)

  /** The saved manifests, by Agent id. */
  type Spaces = map<string, Workspace>

  datatype WorktreeError =
    | AlreadyExists
    | NotFound
    | WrongStatus
    | Unconfirmed
    | CaptureFailed
    | CreateFailed
    | RootMoved
    | IdentityLost
    | CheckFailed
    | DeltaConflicts
    | ReplayFailed

  /** What Git answers while a child delta is committed. */
  datatype CommitGit = CommitGit(identity: bool, conflicts: seq<string>, clean: bool, head: string, changed: nat)

  /** What Git answers while a delta is applied to the root. */
  datatype ApplyGit = ApplyGit(identity: bool, delta: bool, applies: bool, changed: nat)

  /** What Git answers while a delta is replayed over a new baseline. */
  datatype ReplayGit = ReplayGit(
    captured: bool,
    commit: Option<string>,
    delta: bool,
    applied: bool,
    conflicts: seq<string>,
    changed: nat,
    finalize: CommitGit)

  /** A replay that ends in an active workspace: there was nothing to replay, or all of it applied but
      the result could not be committed. */
  predicate LeavesActive(git: ReplayGit) {
    && git.captured && git.commit.Some?
    && (git.delta ==>
          && git.applied && git.conflicts == []
          && !(git.finalize.identity && (git.finalize.conflicts != [] || git.finalize.clean)))
  }

  function WorkspacePath(id: string): string { "workspaces/" + id }

  function NewWorkspace(id: string, commit: string): Workspace {
    Workspace(WorkspacePath(id), commit, commit, Active, 0, [])
  }

  type Outcome = (Spaces, Result<Workspace, WorktreeError>)

  function Save(s: Spaces, id: string, w: Workspace): Outcome { (s[id := w], Ok(w)) }

  // ---------- Operations ----------

  /** `commit` is the baseline commit, if the worktree could be made; `stable` says that the root did
      not change meanwhile. */
  function Create(s: Spaces, id: string, captured: bool, commit: Option<string>, stable: bool): Outcome {
    if id in s then (s, Err(AlreadyExists))
    else if !captured then (s, Err(CaptureFailed))
    else if commit.None? then (s, Err(CreateFailed))
    else if !stable then (s, Err(RootMoved))
    else Save(s, id, NewWorkspace(id, commit.value))
  }

  function Activate(s: Spaces, id: string): Outcome {
    if id !in s then (s, Err(NotFound))
    else if s[id].status !in {Ready, Conflicted, Orphaned} then (s, Err(WrongStatus))
    else Save(s, id, s[id].(status := Active, conflicts := []))
  }

  function Finalize(s: Spaces, id: string, git: CommitGit): Outcome {
    if id !in s then (s, Err(NotFound))
    else if s[id].status != Active then (s, Err(WrongStatus))
    else if !git.identity then (s, Err(IdentityLost))
    else if git.conflicts != [] then Save(s, id, s[id].(status := Conflicted, conflicts := git.conflicts))
    else if !git.clean then (s, Err(CheckFailed))
    else Save(s, id, s[id].(head := git.head, changed := git.changed, status := Ready, conflicts := []))
  }

  function Fail(s: Spaces, id: string, changed: nat): Outcome {
    if id !in s then (s, Err(NotFound))
    else if s[id].status == Active then Save(s, id, s[id].(status := Orphaned, changed := changed))
    else (s, Ok(s[id]))
  }

  function Integrate(s: Spaces, id: string, git: ApplyGit): Outcome {
    if id !in s then (s, Err(NotFound))
    else if s[id].status !in {Ready, Orphaned} then (s, Err(WrongStatus))
    else if !git.identity then (s, Err(IdentityLost))
    else if git.delta && !git.applies then (s, Err(DeltaConflicts))
    else Save(s, id, s[id].(status := IntegratedPending, changed := git.changed))
  }

  /** The old workspace is removed before the replacement is made. */
  function Reconcile(s: Spaces, id: string, git: ReplayGit): Outcome {
    if id !in s then (s, Err(NotFound))
    else if s[id].status !in {Ready, Orphaned} then (s, Err(WrongStatus))
    else if !git.captured then (s, Err(CaptureFailed))
    else if git.commit.None? then (s - {id}, Err(CreateFailed))
    else
      var w := NewWorkspace(id, git.commit.value);
      if !git.delta then Save(s, id, w)
      else if !git.applied && git.conflicts == [] then (s[id := w.(status := Orphaned)], Err(ReplayFailed))
      else if git.conflicts != [] then
        Save(s, id, w.(status := Conflicted, conflicts := git.conflicts, changed := git.changed))
      else Finalize(s[id := w], id, git.finalize)
  }

  function Discard(s: Spaces, id: string, confirmed: bool): Outcome {
    if id !in s then (s, Err(NotFound))
    else if !confirmed then (s, Err(Unconfirmed))
    else if s[id].status in {Active, IntegratedPending} then (s, Err(WrongStatus))
    else Save(s, id, s[id].(status := Discarded, path := ""))
  }

  function Accepted(w: Workspace): Workspace {
    if w.status == IntegratedPending then w.(status := Integrated, path := "") else w
  }

  function RolledBack(w: Workspace): Workspace {
    if w.status == IntegratedPending then w.(status := Ready) else w
  }

  function Restarted(w: Workspace): Workspace {
    if w.status == Active then w.(status := Orphaned) else w
  }

  function AcceptAll(s: Spaces): Spaces { map id | id in s :: Accepted(s[id]) }

  function RollBackAll(s: Spaces): Spaces { map id | id in s :: RolledBack(s[id]) }

  function RestartAll(s: Spaces): Spaces { map id | id in s :: Restarted(s[id]) }

  datatype Step =
    | CreateStep(id: string, captured: bool, commit: Option<string>, stable: bool)
    | ActivateStep(id: string)
    | FinalizeStep(id: string, commitGit: CommitGit)
    | FailStep(id: string, changed: nat)
    | IntegrateStep(id: string, applyGit: ApplyGit)
    | ReconcileStep(id: string, replayGit: ReplayGit)
    | DiscardStep(id: string, confirmed: bool)
    | AcceptStep
    | RollBackStep
    | RestartStep

  function Next(s: Spaces, step: Step): Spaces {
    match step
    case CreateStep(id, captured, commit, stable) => Create(s, id, captured, commit, stable).0
    case ActivateStep(id) => Activate(s, id).0
    case FinalizeStep(id, git) => Finalize(s, id, git).0
    case FailStep(id, changed) => Fail(s, id, changed).0
    case IntegrateStep(id, git) => Integrate(s, id, git).0
    case ReconcileStep(id, git) => Reconcile(s, id, git).0
    case DiscardStep(id, confirmed) => Discard(s, id, confirmed).0
    case AcceptStep => AcceptAll(s)
    case RollBackStep => RollBackAll(s)
    case RestartStep => RestartAll(s)
  }

  function Run(s: Spaces, steps: seq<Step>): Spaces
    decreases |steps|
  {
    if steps == [] then s else Run(Next(s, steps[0]), steps[1..])
  }

  // ---------- The mutable manager ----------

  class WorktreeManager {
    var spaces: Spaces

    constructor ()
      ensures spaces == map[]
    {
      spaces := map[];
    }

    method CreateWorkspace(id: string, captured: bool, commit: Option<string>, stable: bool)
      returns (result: Result<Workspace, WorktreeError>)
      modifies this
      ensures (spaces, result) == Create(old(spaces), id, captured, commit, stable)
      ensures result.Ok? <==> id !in old(spaces) && captured && commit.Some? && stable
      ensures result.Err? ==> spaces == old(spaces)
      ensures result.Ok? ==>
                && spaces == old(spaces)[id := result.value]
                && result.value == Workspace("workspaces/" + id, commit.value, commit.value, Active, 0, [])
    {
      if id in spaces {
        return Err(AlreadyExists);
      }
      if !captured {
        return Err(CaptureFailed);
      }
      if commit.None? {
        return Err(CreateFailed);
      }
      var record := NewWorkspace(id, commit.value);
      spaces := spaces[id := record];
      if !stable {
        spaces := spaces - {id};
        assert spaces == old(spaces);
        return Err(RootMoved);
      }
      return Ok(record);
    }

    method ActivateWorkspace(id: string) returns (result: Result<Workspace, WorktreeError>)
      modifies this
      ensures (spaces, result) == Activate(old(spaces), id)
      ensures result.Ok? <==> id in old(spaces) && old(spaces)[id].status in {Ready, Conflicted, Orphaned}
      ensures result.Err? ==> spaces == old(spaces)
      ensures result.Ok? ==> spaces == old(spaces)[id := result.value]
      ensures result.Ok? ==>
                var was, now := old(spaces)[id], result.value;
                && now.status == Active && now.conflicts == [] && now.changed == was.changed
                && now.path == was.path && now.baseline == was.baseline && now.head == was.head
    {
      if id !in spaces {
        return Err(NotFound);
      }
      var record := spaces[id];
      if record.status !in {Ready, Conflicted, Orphaned} {
        return Err(WrongStatus);
      }
      record := record.(status := Active, conflicts := []);
      spaces := spaces[id := record];
      return Ok(record);
    }

    method FinalizeWorkspace(id: string, git: CommitGit) returns (result: Result<Workspace, WorktreeError>)
      modifies this
      ensures (spaces, result) == Finalize(old(spaces), id, git)
      ensures result.Ok? <==>
                && id in old(spaces) && old(spaces)[id].status == Active
                && git.identity && (git.conflicts != [] || git.clean)
      ensures result.Err? ==> spaces == old(spaces)
      ensures result.Ok? ==> spaces == old(spaces)[id := result.value]
      ensures result.Ok? ==>
                var was, now := old(spaces)[id], result.value;
                && now.path == was.path && now.baseline == was.baseline && now.conflicts == git.conflicts
                && (if git.conflicts == []
                    then now.status == Ready && now.head == git.head && now.changed == git.changed
                    else now.status == Conflicted && now.head == was.head && now.changed == was.changed)
    {
      if id !in spaces {
        return Err(NotFound);
      }
      var record := spaces[id];
      if record.status != Active {
        return Err(WrongStatus);
      }
      if !git.identity {
        return Err(IdentityLost);
      }
      if git.conflicts != [] {
        record := record.(status := Conflicted, conflicts := git.conflicts);
      } else if !git.clean {
        return Err(CheckFailed);
      } else {
        record := record.(head := git.head, changed := git.changed, status := Ready, conflicts := []);
      }
      spaces := spaces[id := record];
      return Ok(record);
    }

    method FailWorkspace(id: string, changed: nat) returns (result: Result<Workspace, WorktreeError>)
      modifies this
      ensures (spaces, result) == Fail(old(spaces), id, changed)
      ensures result.Ok? <==> id in old(spaces)
      ensures result.Err? ==> spaces == old(spaces)
      ensures result.Ok? ==> spaces == old(spaces)[id := result.value]
      ensures result.Ok? ==>
                var was, now := old(spaces)[id], result.value;
                if was.status != Active then now == was
                else
                  && now.status == Orphaned && now.changed == changed && now.conflicts == was.conflicts
                  && now.path == was.path && now.baseline == was.baseline && now.head == was.head
    {
      if id !in spaces {
        return Err(NotFound);
      }
      var record := spaces[id];
      if record.status == Active {
        record := record.(status := Orphaned, changed := changed);
        spaces := spaces[id := record];
      }
      return Ok(record);
    }

    method DiscardWorkspace(id: string, confirmed: bool) returns (result: Result<Workspace, WorktreeError>)
      modifies this
      ensures (spaces, result) == Discard(old(spaces), id, confirmed)
      ensures result.Ok? <==>
                id in old(spaces) && confirmed && old(spaces)[id].status !in {Active, IntegratedPending}
      ensures result.Err? ==> spaces == old(spaces)
      ensures result.Ok? ==> spaces == old(spaces)[id := result.value]
      ensures result.Ok? ==>
                var was, now := old(spaces)[id], result.value;
                && now.status == Discarded && now.path == ""
                && now.baseline == was.baseline && now.head == was.head
                && now.changed == was.changed && now.conflicts == was.conflicts
    {
      if id !in spaces {
        return Err(NotFound);
      }
      if !confirmed {
        return Err(Unconfirmed);
      }
      var record := spaces[id];
      if record.status in {Active, IntegratedPending} {
        return Err(WrongStatus);
      }
      record := record.(status := Discarded, path := "");
      spaces := spaces[id := record];
      return Ok(record);
    }

    method IntegrateWorkspace(id: string, git: ApplyGit) returns (result: Result<Workspace, WorktreeError>)
      modifies this
      ensures (spaces, result) == Integrate(old(spaces), id, git)
      ensures result.Ok? <==>
                && id in old(spaces) && old(spaces)[id].status in {Ready, Orphaned}
                && git.identity && (git.delta ==> git.applies)
      ensures result.Err? ==> spaces == old(spaces)
      ensures result.Ok? ==> spaces == old(spaces)[id := result.value]
      ensures result.Ok? ==>
                var was, now := old(spaces)[id], result.value;
                && now.status == IntegratedPending && now.changed == git.changed && now.conflicts == was.conflicts
                && now.path == was.path && now.baseline == was.baseline && now.head == was.head
    {
      if id !in spaces {
        return Err(NotFound);
      }
      var record := spaces[id];
      if record.status !in {Ready, Orphaned} {
        return Err(WrongStatus);
      }
      if !git.identity {
        return Err(IdentityLost);
      }
      if git.delta && !git.applies {
        return Err(DeltaConflicts);
      }
      record := record.(status := IntegratedPending, changed := git.changed);
      spaces := spaces[id := record];
      return Ok(record);
    }

    method ReconcileWorkspace(id: string, git: ReplayGit) returns (result: Result<Workspace, WorktreeError>)
      modifies this
      ensures (spaces, result) == Reconcile(old(spaces), id, git)
      ensures spaces - {id} == old(spaces) - {id}
      ensures id in old(spaces) && id !in spaces <==>
                && id in old(spaces) && old(spaces)[id].status in {Ready, Orphaned}
                && git.captured && git.commit.None?
      ensures result.Ok? ==>
                && id in spaces && spaces[id] == result.value && git.commit.Some?
                && result.value.baseline == git.commit.value && result.value.path == WorkspacePath(id)
                && (result.value.status == Active <==> !git.delta)
                && result.value.conflicts == (if git.delta && git.conflicts == [] then git.finalize.conflicts
                                              else if git.delta then git.conflicts else [])
                && (git.delta && git.conflicts != [] ==>
                      result.value.status == Conflicted && result.value.changed == git.changed)
                && (result.value.status == Ready ==>
                      result.value.head == git.finalize.head && result.value.changed == git.finalize.changed)
      ensures result.Ok? <==>
                && id in old(spaces) && old(spaces)[id].status in {Ready, Orphaned}
                && git.captured && git.commit.Some?
                && (git.delta && git.conflicts == [] ==>
                      && git.applied && git.finalize.identity && (git.finalize.conflicts != [] || git.finalize.clean))
      ensures id in old(spaces) && old(spaces)[id].status in {Ready, Orphaned} ==>
                (id in spaces && spaces[id].status == Active <==> LeavesActive(git))
    {
      if id !in spaces {
        return Err(NotFound);
      }
      if spaces[id].status !in {Ready, Orphaned} {
        return Err(WrongStatus);
      }
      if !git.captured {
        return Err(CaptureFailed);
      }
      spaces := spaces - {id};
      if git.commit.None? {
        return Err(CreateFailed);
      }
      var replacement := NewWorkspace(id, git.commit.value);
      spaces := spaces[id := replacement];
      assert spaces == old(spaces)[id := replacement];
      if git.delta {
        if !git.applied && git.conflicts == [] {
          spaces := spaces[id := replacement.(status := Orphaned)];
          assert spaces == old(spaces)[id := replacement.(status := Orphaned)];
          return Err(ReplayFailed);
        }
        if git.conflicts != [] {
          replacement := replacement.(status := Conflicted, conflicts := git.conflicts, changed := git.changed);
          spaces := spaces[id := replacement];
          assert spaces == old(spaces)[id := replacement];
          return Ok(replacement);
        }
        result := FinalizeWorkspace(id, git.finalize);
        return;
      }
      return Ok(replacement);
    }

    /** The loop over the sorted manifests. */
    method AcceptIntegrated(ids: seq<string>)
      requires forall id :: id in spaces <==> id in ids
      modifies this
      ensures spaces == AcceptAll(old(spaces))
      ensures spaces.Keys == old(spaces).Keys
      ensures forall id :: id in spaces ==>
                var was := old(spaces)[id];
                spaces[id] == if was.status != IntegratedPending then was
                              else Workspace("", was.baseline, was.head, Integrated, was.changed, was.conflicts)
    {
      var i := 0;
      while i < |ids|
        invariant 0 <= i <= |ids| && spaces.Keys == old(spaces).Keys
        invariant forall id :: id in spaces ==>
                    spaces[id] == if id in ids[..i] then Accepted(old(spaces)[id]) else old(spaces)[id]
      {
        assert ids[i] in ids;
        var record := spaces[ids[i]];
        if record.status == IntegratedPending {
          spaces := spaces[ids[i] := record.(status := Integrated, path := "")];
        }
        assert ids[..i + 1] == ids[..i] + [ids[i]];
        i := i + 1;
      }
      assert ids[..i] == ids;
    }

    method MarkActiveAsOrphaned(ids: seq<string>)
      requires forall id :: id in spaces <==> id in ids
      modifies this
      ensures spaces == RestartAll(old(spaces))
      ensures spaces.Keys == old(spaces).Keys
      ensures forall id :: id in spaces ==>
                var was := old(spaces)[id];
                spaces[id] == if was.status != Active then was
                              else Workspace(was.path, was.baseline, was.head, Orphaned, was.changed, was.conflicts)
    {
      var i := 0;
      while i < |ids|
        invariant 0 <= i <= |ids| && spaces.Keys == old(spaces).Keys
        invariant forall id :: id in spaces ==>
                    spaces[id] == if id in ids[..i] then Restarted(old(spaces)[id]) else old(spaces)[id]
      {
        assert ids[i] in ids;
        var record := spaces[ids[i]];
        if record.status == Active {
          spaces := spaces[ids[i] := record.(status := Orphaned)];
        }
        assert ids[..i + 1] == ids[..i] + [ids[i]];
        i := i + 1;
      }
      assert ids[..i] == ids;
    }

    method RollBackIntegrated(ids: seq<string>)
      requires forall id :: id in spaces <==> id in ids
      modifies this
      ensures spaces == RollBackAll(old(spaces))
      ensures spaces.Keys == old(spaces).Keys
      ensures forall id :: id in spaces ==>
                var was := old(spaces)[id];
                spaces[id] == if was.status != IntegratedPending then was
                              else Workspace(was.path, was.baseline, was.head, Ready, was.changed, was.conflicts)
    {
      var i := 0;
      while i < |ids|
        invariant 0 <= i <= |ids| && spaces.Keys == old(spaces).Keys
        invariant forall id :: id in spaces ==>
                    spaces[id] == if id in ids[..i] then RolledBack(old(spaces)[id]) else old(spaces)[id]
      {
        assert ids[i] in ids;
        var record := spaces[ids[i]];
        if record.status == IntegratedPending {
          spaces := spaces[ids[i] := record.(status := Ready)];
        }
        assert ids[..i + 1] == ids[..i] + [ids[i]];
        i := i + 1;
      }
      assert ids[..i] == ids;
    }
  }

  // ---------- The status machine ----------

  predicate Retired(status: Status) { status == Integrated || status == Discarded }

  /** A workspace has no path exactly when it is retired. */
  predicate PathsMatch(s: Spaces) {
    forall id :: id in s ==> (s[id].path == "" <==> Retired(s[id].status))
  }

  lemma StepKeepsPaths(s: Spaces, step: Step)
    requires PathsMatch(s)
    ensures PathsMatch(Next(s, step))
  {
  }

  /** What one step may do to one saved workspace: retired ones stay retired, and a pending one changes
      only when a stage is accepted or rolled back, keeping its commits. */
  predicate Evolves(s: Spaces, after: Spaces, id: string, step: Step)
    requires id in s
  {
    && (Retired(s[id].status) ==> id in after && Retired(after[id].status))
    && (s[id].status == IntegratedPending ==>
          && id in after
          && (after[id] == s[id]
              || (step == AcceptStep && after[id] == s[id].(status := Integrated, path := ""))
              || (step == RollBackStep && after[id] == s[id].(status := Ready))))
  }

  lemma StepEvolves(s: Spaces, step: Step, id: string)
    requires id in s
    ensures Evolves(s, Next(s, step), id, step)
  {
  }

  lemma {:induction false} RunKeepsPaths(s: Spaces, steps: seq<Step>)
    requires PathsMatch(s)
    ensures PathsMatch(Run(s, steps))
    decreases |steps|
  {
    if steps != [] {
      StepKeepsPaths(s, steps[0]);
      RunKeepsPaths(Next(s, steps[0]), steps[1..]);
    }
  }

  lemma {:induction false} RetiredStaysRetired(s: Spaces, steps: seq<Step>, id: string)
    requires id in s && Retired(s[id].status)
    ensures id in Run(s, steps) && Retired(Run(s, steps)[id].status)
    decreases |steps|
  {
    if steps != [] {
      hide Next;
      StepEvolves(s, steps[0], id);
      RetiredStaysRetired(Next(s, steps[0]), steps[1..], id);
    }
  }

  /** In every run a workspace path is empty exactly when the workspace is integrated or discarded, and
      such a workspace can never again be activated, integrated, reconciled or made anew. */
  lemma WorkspaceLifecycle(steps: seq<Step>, more: seq<Step>, id: string)
    requires id in Run(map[], steps)
    ensures var s := Run(map[], steps);
            && (s[id].path == "" <==> Retired(s[id].status))
            && (Retired(s[id].status) ==>
                  var later := Run(s, more);
                  && id in later && later[id].path == ""
                  && Activate(later, id).1 == Err(WrongStatus)
                  && (forall git :: Integrate(later, id, git).1 == Err(WrongStatus))
                  && (forall git :: Reconcile(later, id, git).1 == Err(WrongStatus))
                  && forall captured, commit, stable ::
                       Create(later, id, captured, commit, stable).1 == Err(AlreadyExists))
  {
    var s := Run(map[], steps);
    RunKeepsPaths(map[], steps);
    if Retired(s[id].status) {
      RetiredStaysRetired(s, more, id);
      RunKeepsPaths(s, more);
    }
  }

  /** A pending integration is untouched until its stage is accepted or rolled back. */
  lemma {:induction false} PendingUntilStageEnds(s: Spaces, steps: seq<Step>, id: string)
    requires id in s && s[id].status == IntegratedPending
    requires forall i :: 0 <= i < |steps| ==> steps[i] != AcceptStep && steps[i] != RollBackStep
    ensures id in Run(s, steps) && Run(s, steps)[id] == s[id]
    decreases |steps|
  {
    if steps != [] {
      hide Next;
      StepEvolves(s, steps[0], id);
      assert steps[0] != AcceptStep && steps[0] != RollBackStep;
      PendingUntilStageEnds(Next(s, steps[0]), steps[1..], id);
    }
  }

  // ---------- Ways out of an active workspace ----------

  /** The steps that take workspace `id` out of `Active`: a commit of its delta that Git lets through, a
      failure of its Agent, and a restart of the application. */
  predicate Leaves(id: string, step: Step) {
    match step
    case FinalizeStep(other, git) => other == id && git.identity && (git.conflicts != [] || git.clean)
    case FailStep(other, _) => other == id
    case RestartStep => true
    case _ => false
  }

  lemma ActiveStep(s: Spaces, step: Step, id: string)
    requires id in s && s[id].status == Active
    ensures id in Next(s, step)
    ensures Leaves(id, step) ==> Next(s, step)[id].status in {Ready, Conflicted, Orphaned}
    ensures !Leaves(id, step) ==> Next(s, step)[id] == s[id]
  {
  }

  lemma {:induction false} RunOneMore(s: Spaces, steps: seq<Step>, k: nat)
    requires k < |steps|
    ensures Run(s, steps[..k + 1]) == Next(Run(s, steps[..k]), steps[k])
    decreases k
  {
    hide Next;
    if k == 0 {
      assert steps[..1][1..] == [];
    } else {
      RunOneMore(Next(s, steps[0]), steps[1..], k - 1);
      assert steps[..k + 1][1..] == steps[1..][..k] && steps[..k][1..] == steps[1..][..k - 1];
    }
  }

  lemma {:induction false} ActivePrefix(s: Spaces, steps: seq<Step>, id: string, k: nat)
    requires id in s && s[id].status == Active && k <= |steps|
    requires forall i :: 0 <= i < k ==> !Leaves(id, steps[i])
    ensures id in Run(s, steps[..k]) && Run(s, steps[..k])[id] == s[id]
    decreases k
  {
    hide Next, Leaves;
    if k != 0 {
      ActivePrefix(s, steps, id, k - 1);
      RunOneMore(s, steps, k - 1);
      ActiveStep(Run(s, steps[..k - 1]), steps[k - 1], id);
    }
  }

  /** An active workspace keeps its record at every point of a run if and only if no step of the run is
      one of those; the first one makes it reviewable again. */
  lemma ActiveUntilIff(s: Spaces, steps: seq<Step>, id: string)
    requires id in s && s[id].status == Active
    ensures (forall k :: 0 <= k <= |steps| ==> id in Run(s, steps[..k]) && Run(s, steps[..k])[id] == s[id])
            <==> (forall k :: 0 <= k < |steps| ==> !Leaves(id, steps[k]))
  {
    hide Next, Leaves;
    if forall k :: 0 <= k < |steps| ==> !Leaves(id, steps[k]) {
      forall k | 0 <= k <= |steps| ensures id in Run(s, steps[..k]) && Run(s, steps[..k])[id] == s[id] {
        ActivePrefix(s, steps, id, k);
      }
    } else {
      var k :| 0 <= k < |steps| && Leaves(id, steps[k]);
      if id in Run(s, steps[..k]) && Run(s, steps[..k])[id] == s[id] {
        RunOneMore(s, steps, k);
        ActiveStep(Run(s, steps[..k]), steps[k], id);
        assert Run(s, steps[..k + 1])[id] != s[id];
      }
    }
  }

  /** Reconciling leaves an active workspace at the new baseline exactly if there was nothing to replay,
      which it reports as a success, or the replayed delta could not be committed, which it reports as
      an error. From then on, until a step that takes the workspace out of `Active`, it can be neither
      activated, integrated, reconciled nor discarded; after the first such step it can be activated. */
  lemma ReconciledStaysActiveIff(s: Spaces, id: string, git: ReplayGit, steps: seq<Step>)
    requires id in s && s[id].status in {Ready, Orphaned}
    ensures var (after, result) := Reconcile(s, id, git);
            && (id in after && after[id].status == Active <==> LeavesActive(git))
            && (LeavesActive(git) ==>
                  && after[id] == NewWorkspace(id, git.commit.value) && (result.Ok? <==> !git.delta)
                  && ((forall k :: 0 <= k <= |steps| ==>
                         id in Run(after, steps[..k]) && Run(after, steps[..k])[id] == after[id])
                      <==> (forall k :: 0 <= k < |steps| ==> !Leaves(id, steps[k]))))
    ensures LeavesActive(git) && (forall k :: 0 <= k < |steps| ==> !Leaves(id, steps[k])) ==>
              var later := Run(Reconcile(s, id, git).0, steps);
              && Activate(later, id).1 == Err(WrongStatus)
              && (forall apply :: Integrate(later, id, apply).1 == Err(WrongStatus))
              && (forall replay :: Reconcile(later, id, replay).1 == Err(WrongStatus))
              && Discard(later, id, true).1 == Err(WrongStatus)
              && forall out :: Leaves(id, out) ==> Activate(Next(later, out), id).1.Ok?
  {
    if LeavesActive(git) {
      var after := Reconcile(s, id, git).0;
      ActiveUntilIff(after, steps, id);
      if forall k :: 0 <= k < |steps| ==> !Leaves(id, steps[k]) {
        ActivePrefix(after, steps, id, |steps|);
        assert steps[..|steps|] == steps;
        var later := Run(after, steps);
        forall out | Leaves(id, out) ensures Activate(Next(later, out), id).1.Ok? {
          ActiveStep(later, out, id);
        }
      }
    }
  }

  // ---------- The stage around an integration ----------

  /** The manifests together with the stage that is under way in the root. */
  datatype Project = Project(spaces: Spaces, work: K.Work)

  datatype ProjectStep =
    | WorkspaceStep(step: Step)
    | StageStep(stageStep: K.Step)
    | IntegrateWindow(id: string, git: ApplyGit, patched: K.Tree)

  /** Integration runs inside an effect window; without a window it is not run. Git changes the root
      completely or not at all. */
  function NextProject(cfg: K.Config, p: Project, step: ProjectStep): Project {
    match step
    case WorkspaceStep(s) => if s.RollBackStep? || s.AcceptStep? then p else p.(spaces := Next(p.spaces, s))
    case StageStep(s) => p.(work := K.Next(cfg, p.work, s))
    case IntegrateWindow(id, git, patched) =>
      var begun := K.Next(cfg, p.work, K.OpenWindow(None, "agent:edit"));
      if p.work.open || !begun.open then p.(work := begun)
      else
        var (spaces, result) := Integrate(p.spaces, id, git);
        var tree := if result.Ok? && git.delta then patched else begun.tree;
        Project(spaces, K.Next(cfg, K.Next(cfg, begun, K.Effect(tree)), K.CloseWindow))
  }

  function RunProject(cfg: K.Config, p: Project, steps: seq<ProjectStep>): Project
    decreases |steps|
  {
    if steps == [] then p else RunProject(cfg, NextProject(cfg, p, steps[0]), steps[1..])
  }

  /** Stage rollback: the checkpoint first, then the listener, and neither if the checkpoint refuses. */
  function RollBackStage(cfg: K.Config, p: Project, allowPartial: bool, busy: bool)
    : (Project, Option<K.CheckpointError>)
    requires cfg.SortsAll()
  {
    var (tree, stage, error) := K.Rollback(cfg, p.work.tree, p.work.stage, allowPartial, busy);
    if error.Some? then (p.(work := p.work.(tree := tree)), error)
    else (Project(RollBackAll(p.spaces), p.work.(tree := tree, stage := stage)), None)
  }

  /** The window of an integration opens. */
  predicate Opens(cfg: K.Config, w: K.Work) {
    !w.open && K.Next(cfg, w, K.OpenWindow(None, "agent:edit")).open
  }

  /** What a project step does to the workspaces alone. */
  function SpacePart(cfg: K.Config, p: Project, step: ProjectStep): seq<Step> {
    match step
    case WorkspaceStep(s) => if s in {AcceptStep, RollBackStep} then [] else [s]
    case StageStep(_) => []
    case IntegrateWindow(id, git, _) => if Opens(cfg, p.work) then [IntegrateStep(id, git)] else []
  }

  /** What it does to the stage alone: an integration is one effect without known paths, which changes the
      root to the patched one exactly if there is a delta and the workspace becomes pending. */
  function StagePart(cfg: K.Config, p: Project, step: ProjectStep): seq<K.Step> {
    match step
    case WorkspaceStep(_) => []
    case StageStep(s) => [s]
    case IntegrateWindow(id, git, patched) =>
      var after := Next(p.spaces, IntegrateStep(id, git));
      var applied := git.delta && git.identity && git.applies && id in p.spaces
                     && p.spaces[id].status in {Ready, Orphaned} && after[id].status == IntegratedPending;
      if Opens(cfg, p.work)
      then [K.OpenWindow(None, "agent:edit"), K.Effect(if applied then patched else p.work.tree), K.CloseWindow]
      else [K.OpenWindow(None, "agent:edit")]
  }

  function SpaceParts(cfg: K.Config, p: Project, steps: seq<ProjectStep>): seq<Step>
    decreases |steps|
  {
    if steps == [] then []
    else SpacePart(cfg, p, steps[0]) + SpaceParts(cfg, NextProject(cfg, p, steps[0]), steps[1..])
  }

  function StageParts(cfg: K.Config, p: Project, steps: seq<ProjectStep>): seq<K.Step>
    decreases |steps|
  {
    if steps == [] then []
    else StagePart(cfg, p, steps[0]) + StageParts(cfg, NextProject(cfg, p, steps[0]), steps[1..])
  }

  lemma {:induction false} RunsJoin(s: Spaces, a: seq<Step>, b: seq<Step>)
    ensures Run(Run(s, a), b) == Run(s, a + b)
    decreases |a|
  {
    hide Next;
    if a == [] {
      assert a + b == b;
    } else {
      assert (a + b)[1..] == a[1..] + b;
      RunsJoin(Next(s, a[0]), a[1..], b);
    }
  }

  lemma {:induction false} StageRunsJoin(cfg: K.Config, w: K.Work, a: seq<K.Step>, b: seq<K.Step>)
    ensures K.Run(cfg, K.Run(cfg, w, a), b) == K.Run(cfg, w, a + b)
    decreases |a|
  {
    hide K.Next;
    if a == [] {
      assert a + b == b;
    } else {
      assert (a + b)[1..] == a[1..] + b;
      StageRunsJoin(cfg, K.Next(cfg, w, a[0]), a[1..], b);
    }
  }

  lemma StageRunOne(cfg: K.Config, w: K.Work, a: K.Step)
    ensures K.Run(cfg, w, [a]) == K.Next(cfg, w, a)
  {
    assert [a][1..] == [];
  }

  lemma StageRunThree(cfg: K.Config, w: K.Work, a: K.Step, b: K.Step, c: K.Step)
    ensures K.Run(cfg, w, [a, b, c]) == K.Next(cfg, K.Next(cfg, K.Next(cfg, w, a), b), c)
  {
    hide K.Next;
    StageRunOne(cfg, w, a);
    StageRunOne(cfg, K.Next(cfg, w, a), b);
    StageRunOne(cfg, K.Next(cfg, K.Next(cfg, w, a), b), c);
    StageRunsJoin(cfg, w, [a], [b]);
    StageRunsJoin(cfg, w, [a, b], [c]);
    assert [a] + [b] == [a, b] && [a, b] + [c] == [a, b, c];
  }

  lemma OpeningKeepsTree(cfg: K.Config, w: K.Work)
    ensures K.Next(cfg, w, K.OpenWindow(None, "agent:edit")).tree == w.tree
  {
    hide K.Prepare;
  }

  lemma StepRunsBoth(cfg: K.Config, p: Project, step: ProjectStep)
    ensures var next := NextProject(cfg, p, step);
            && next.spaces == Run(p.spaces, SpacePart(cfg, p, step))
            && next.work == K.Run(cfg, p.work, StagePart(cfg, p, step))
  {
    hide K.Next, K.Run;
    assert forall s: Step :: [s][1..] == [];
    match step
    case WorkspaceStep(_) => StageRunNone(cfg, p.work);
    case StageStep(s) => StageRunOne(cfg, p.work, s);
    case IntegrateWindow(id, git, patched) =>
      var begin := K.OpenWindow(None, "agent:edit");
      OpeningKeepsTree(cfg, p.work);
      StageRunOne(cfg, p.work, begin);
      var tree := if Integrate(p.spaces, id, git).1.Ok? && git.delta then patched else p.work.tree;
      StageRunThree(cfg, p.work, begin, K.Effect(tree), K.CloseWindow);
  }

  lemma StageRunNone(cfg: K.Config, w: K.Work)
    ensures K.Run(cfg, w, []) == w
  {
  }

  /** A project run is at once a run of its workspaces and a run of its stage, so what holds over all runs
      of either holds over all project runs; an integration is the one step they share, in which the root
      is patched exactly if the workspace becomes pending with a delta. */
  lemma {:induction false} ProjectRunsBoth(cfg: K.Config, p: Project, steps: seq<ProjectStep>)
    ensures var after := RunProject(cfg, p, steps);
            && after.spaces == Run(p.spaces, SpaceParts(cfg, p, steps))
            && after.work == K.Run(cfg, p.work, StageParts(cfg, p, steps))
    decreases |steps|
  {
    hide NextProject, SpacePart, StagePart, Run, K.Run;
    if steps == [] {
      RunNone(p.spaces);
      StageRunNone(cfg, p.work);
    } else {
      var next := NextProject(cfg, p, steps[0]);
      StepRunsBoth(cfg, p, steps[0]);
      ProjectRunsBoth(cfg, next, steps[1..]);
      RunsJoin(p.spaces, SpacePart(cfg, p, steps[0]), SpaceParts(cfg, next, steps[1..]));
      StageRunsJoin(cfg, p.work, StagePart(cfg, p, steps[0]), StageParts(cfg, next, steps[1..]));
    }
  }

  lemma RunNone(s: Spaces)
    ensures Run(s, []) == s
  {
  }

  lemma ProjectStepKeepsFullInv(cfg: K.Config, p: Project, original: K.Tree, step: ProjectStep)
    requires cfg.SortsAll() && K.FullInv(cfg, p.work, original)
    ensures K.FullInv(cfg, NextProject(cfg, p, step).work, original)
  {
    hide K.FullInv, K.Next, Integrate, Next;
    match step
    case WorkspaceStep(_) =>
    case StageStep(s) => K.FullStepKeepsInv(cfg, p.work, original, s);
    case IntegrateWindow(id, git, patched) =>
      var begun := K.Next(cfg, p.work, K.OpenWindow(None, "agent:edit"));
      K.FullStepKeepsInv(cfg, p.work, original, K.OpenWindow(None, "agent:edit"));
      var tree := if Integrate(p.spaces, id, git).1.Ok? && git.delta then patched else begun.tree;
      K.FullStepKeepsInv(cfg, begun, original, K.Effect(tree));
      K.FullStepKeepsInv(cfg, K.Next(cfg, begun, K.Effect(tree)), original, K.CloseWindow);
  }

  lemma {:induction false} ProjectRunKeepsFullInv(cfg: K.Config, p: Project, original: K.Tree, steps: seq<ProjectStep>)
    requires cfg.SortsAll() && K.FullInv(cfg, p.work, original)
    ensures K.FullInv(cfg, RunProject(cfg, p, steps).work, original)
    decreases |steps|
  {
    if steps != [] {
      hide K.FullInv, NextProject;
      ProjectStepKeepsFullInv(cfg, p, original, steps[0]);
      ProjectRunKeepsFullInv(cfg, NextProject(cfg, p, steps[0]), original, steps[1..]);
    }
  }

  /** After any run of a fully covered stage with any number of integrations: a rollback that succeeds
      makes every listed path what it was when the stage began and turns every pending workspace back
      into a ready one with the same baseline and head; a refused one changes nothing. */
  lemma RollbackUndoesIntegrations(cfg: K.Config, spaces: Spaces, original: K.Tree, steps: seq<ProjectStep>,
                                   allowPartial: bool, busy: bool)
    requires cfg.InjectiveDigest() && cfg.SortsAll() && K.CreateFull(cfg, original).Ok?
    ensures var start := Project(spaces, K.Work(original, K.CreateFull(cfg, original).value, false, original));
            var p := RunProject(cfg, start, steps);
            var (after, error) := RollBackStage(cfg, p, allowPartial, busy);
            if error.Some? then after == p
            else
              && (forall path :: cfg.listed(path) ==> K.SameAt(after.work.tree, original, path))
              && (forall path :: !cfg.listed(path) ==> K.SameAt(after.work.tree, p.work.tree, path))
              && after.spaces.Keys == p.spaces.Keys
              && forall id :: id in p.spaces ==>
                   && after.spaces[id].status != IntegratedPending
                   && after.spaces[id].baseline == p.spaces[id].baseline
                   && after.spaces[id].head == p.spaces[id].head
                   && (p.spaces[id].status == IntegratedPending ==> after.spaces[id].status == Ready)
                   && (p.spaces[id].status != IntegratedPending ==> after.spaces[id] == p.spaces[id])
  {
    var start := Project(spaces, K.Work(original, K.CreateFull(cfg, original).value, false, original));
    K.CreateFullDescribes(cfg, original);
    ProjectRunKeepsFullInv(cfg, start, original, steps);
    var p := RunProject(cfg, start, steps);
    K.FullRollbackFromInv(cfg, original, p.work, allowPartial, busy);
  }

  /** Integrating as the only effect of a stage and rolling back: the rollback succeeds, the listed
      root is as before, and the workspace is ready with its old baseline and head. It is exactly the
      old record if it had been ready and its change count was up to date. */
  lemma IntegrateThenRollback(cfg: K.Config, spaces: Spaces, original: K.Tree, id: string, git: ApplyGit,
                              patched: K.Tree)
    requires cfg.InjectiveDigest() && cfg.SortsAll() && K.CreateFull(cfg, original).Ok?
    requires K.Fits(cfg, patched)
    requires Integrate(spaces, id, git).1.Ok?
    ensures var start := Project(spaces, K.Work(original, K.CreateFull(cfg, original).value, false, original));
            var p := NextProject(cfg, start, IntegrateWindow(id, git, patched));
            && p.work.tree == (if git.delta then patched else original)
            && p.spaces[id].status == IntegratedPending
            && var (after, error) := RollBackStage(cfg, p, false, false);
            && error.None?
            && (forall path :: cfg.listed(path) ==> K.SameAt(after.work.tree, original, path))
            && after.spaces[id] == spaces[id].(status := Ready, changed := git.changed)
  {
    var stage := K.CreateFull(cfg, original).value;
    var start := Project(spaces, K.Work(original, stage, false, original));
    var window := IntegrateWindow(id, git, patched);
    K.CreateFullDescribes(cfg, original);
    K.CreatedIsUpToDate(cfg, original);
    K.LookIsStates(cfg, original, K.ListedPaths(cfg, original));
    K.NoDifferencesIff(stage.manifest.observed, K.States(cfg, original, K.ListedPaths(cfg, original)));
    K.LookIsStates(cfg, patched, K.ListedPaths(cfg, patched));
    var p := NextProject(cfg, start, window);
    K.NoDifferencesIff(p.work.stage.manifest.observed, K.States(cfg, p.work.tree, K.ListedPaths(cfg, p.work.tree)));
    ProjectStepKeepsFullInv(cfg, start, original, window);
    K.FullRollbackFromInv(cfg, original, p.work, false, false);
  }
}
