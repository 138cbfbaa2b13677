/** Stage checkpoints: a content-addressed baseline of the project tree, conflict detection against
    the last observed tree, and rollback, with full or copy-on-first-touch coverage. */
module Checkpoints {
  import opened Basics

  type Path = string

  datatype Entry = File(bytes: Bytes) | Symlink(bytes: Bytes)

  type Tree = map<Path, Entry>

  datatype FileState = FileState(isLink: bool, digest: Bytes, size: nat)

  type Listing = map<Path, FileState>

  type Blobs = map<Bytes, Bytes>

  const MAX_UNCOVERED_EFFECTS: nat := 256

  /** The environment of one project: which paths Git lists, the content hash, the order in which
      a set of paths is visited, and the size limits. */
  datatype Config = Config(
    listed: Path -> bool,
    digest: Bytes -> Bytes,
    sorted: set<Path> -> seq<Path>,
    maxFiles: nat,
    maxBytes: nat)
  {
    ghost predicate Distinguishes(a: Bytes, b: Bytes) {
      digest(a) == digest(b) ==> a == b
    }

    ghost predicate InjectiveDigest() {
      forall a: Bytes, b: Bytes :: Distinguishes(a, b)
    }

    ghost predicate SortsAll() {
      forall s: set<Path> :: PathSet(sorted(s)) == s
    }
  }

  ghost function SomeOrder(s: set<Path>): seq<Path> {
    if s == {} then []
    else
      var p :| p in s;
      [p] + SomeOrder(s - {p})
  }

  lemma {:induction false} SomeOrderIsComplete(s: set<Path>)
    ensures PathSet(SomeOrder(s)) == s
  {
    if s != {} {
      var p := SomeOrder(s)[0];
      SomeOrderIsComplete(s - {p});
      assert SomeOrder(s) == [p] + SomeOrder(s - {p});
      assert PathSet([p] + SomeOrder(s - {p})) == {p} + PathSet(SomeOrder(s - {p}));
    }
  }

  /** The assumptions on the environment can be met for every listing rule and all limits. */
  lemma SuitableConfig(listed: Path -> bool, maxFiles: nat, maxBytes: nat) returns (cfg: Config)
    ensures cfg.InjectiveDigest() && cfg.SortsAll()
    ensures cfg.listed == listed && cfg.maxFiles == maxFiles && cfg.maxBytes == maxBytes
  {
    cfg := Config(listed, (b: Bytes) => b, SomeOrder, maxFiles, maxBytes);
    forall s: set<Path> ensures PathSet(cfg.sorted(s)) == s {
      SomeOrderIsComplete(s);
      assert cfg.sorted(s) == SomeOrder(s);
    }
  }

  datatype Policy = RequiredPolicy | BestEffort | Off

  datatype Coverage = Full | Scoped | NoCoverage

  datatype Manifest = Manifest(
    baseline: Listing,
    observed: Listing,
    coverage: Coverage,
    scoped: set<Path>,
    uncovered: seq<string>)

  datatype Stage = Stage(manifest: Manifest, blobs: Blobs)

  datatype CheckpointError =
    | TooManyFiles
    | TooManyBytes
    | Conflict(paths: set<Path>)
    | Unavailable
    | Partial
    | Busy
    | MissingBlob

  // ---------- Reading the tree ----------

  function PathSet(paths: seq<Path>): set<Path> { set p | p in paths }

  function ListedPaths(cfg: Config, tree: Tree): set<Path> { set p | p in tree && cfg.listed(p) }

  function StateOf(cfg: Config, e: Entry): FileState {
    FileState(e.Symlink?, cfg.digest(e.bytes), |e.bytes|)
  }

  function States(cfg: Config, tree: Tree, paths: set<Path>): Listing {
    map p | p in paths && p in tree :: StateOf(cfg, tree[p])
  }

  function SaveBlob(cfg: Config, blobs: Blobs, data: Bytes): Blobs {
    if cfg.digest(data) in blobs then blobs else blobs[cfg.digest(data) := data]
  }

  /** Reading the paths one after the other, stopping when the byte limit is passed; blobs saved
      before the limit was hit stay on disk. */
  function Capture(cfg: Config, tree: Tree, paths: seq<Path>, done: Listing, total: nat,
                   blobs: Blobs, save: bool): (Result<Listing, CheckpointError>, Blobs)
    decreases |paths|
  {
    if paths == [] then (Ok(done), blobs)
    else if paths[0] !in tree then Capture(cfg, tree, paths[1..], done, total, blobs, save)
    else
      var data := tree[paths[0]].bytes;
      if total + |data| > cfg.maxBytes then (Err(TooManyBytes), blobs)
      else
        Capture(cfg, tree, paths[1..], done[paths[0] := StateOf(cfg, tree[paths[0]])], total + |data|,
                if save then SaveBlob(cfg, blobs, data) else blobs, save)
  }

  function Look(cfg: Config, tree: Tree, paths: set<Path>): Result<Listing, CheckpointError> {
    Capture(cfg, tree, cfg.sorted(paths), map[], 0, map[], false).0
  }

  function Differences(expected: Listing, actual: Listing): set<Path> {
    set p | p in expected.Keys + actual.Keys &&
            !(p in expected && p in actual && expected[p] == actual[p])
  }

  function TotalSize(cfg: Config, listing: Listing, paths: seq<Path>): nat
    decreases |paths|
  {
    if paths == [] then 0
    else (if paths[0] in listing then listing[paths[0]].size else 0) + TotalSize(cfg, listing, paths[1..])
  }

  // ---------- Stage operations, on values ----------

  function EmptyStage(coverage: Coverage): Stage {
    Stage(Manifest(map[], map[], coverage, {}, []), map[])
  }

  function CreateFull(cfg: Config, tree: Tree): Result<Stage, CheckpointError> {
    var paths := ListedPaths(cfg, tree);
    if |paths| > cfg.maxFiles then Err(TooManyFiles)
    else
      var (captured, blobs) := Capture(cfg, tree, cfg.sorted(paths), map[], 0, map[], true);
      match captured
      case Err(e) => Err(e)
      case Ok(baseline) => Ok(Stage(Manifest(baseline, baseline, Full, {}, []), blobs))
  }

  function Create(cfg: Config, tree: Tree, policy: Policy, isGit: bool): Result<Stage, CheckpointError> {
    match policy
    case Off => Ok(EmptyStage(NoCoverage))
    case BestEffort =>
      if !isGit || CreateFull(cfg, tree).Err? then Ok(EmptyStage(Scoped)) else CreateFull(cfg, tree)
    case RequiredPolicy => CreateFull(cfg, tree)
  }

  function AddUncovered(effects: seq<string>, effectLabel: string): seq<string> {
    if |effects| >= MAX_UNCOVERED_EFFECTS
    then effects[..|effects| - 1] + ["additional-uncovered-effects"]
    else effects + [effectLabel]
  }

  /** What the conflict check of a stage looks at. */
  function Watched(cfg: Config, tree: Tree, m: Manifest): set<Path> {
    if m.coverage.Full? then ListedPaths(cfg, tree) else m.scoped
  }

  function CheckConflicts(cfg: Config, tree: Tree, m: Manifest): Result<Listing, CheckpointError> {
    match Look(cfg, tree, Watched(cfg, tree, m))
    case Err(e) => Err(e)
    case Ok(current) =>
      if Differences(m.observed, current) != {} then Err(Conflict(Differences(m.observed, current)))
      else Ok(current)
  }

  /** Copy-on-first-touch: capture the paths not protected yet and add them to the baseline. */
  function Protect(cfg: Config, tree: Tree, s: Stage, paths: set<Path>): (Stage, Result<bool, CheckpointError>) {
    var m := s.manifest;
    var scoped := m.scoped + paths;
    if |scoped| > cfg.maxFiles then (s, Err(TooManyFiles))
    else
      var (captured, blobs) := Capture(cfg, tree, cfg.sorted(scoped - m.scoped), map[], 0, s.blobs, true);
      match captured
      case Err(e) => (s.(blobs := blobs), Err(e))
      case Ok(added) =>
        var baseline := m.baseline + added;
        if TotalSize(cfg, baseline, cfg.sorted(baseline.Keys)) > cfg.maxBytes then
          (s.(blobs := blobs), Err(TooManyBytes))
        else
          (Stage(m.(baseline := baseline, observed := m.observed + added, scoped := scoped), blobs), Ok(true))
  }

  /** `paths` is `None` for an effect without predictable project files. The flag says whether the
      effect is covered by rollback. */
  function Prepare(cfg: Config, tree: Tree, s: Stage, paths: Option<set<Path>>, effectLabel: string)
    : (Stage, Result<bool, CheckpointError>)
  {
    var m := s.manifest;
    if m.coverage.NoCoverage? || (m.coverage.Scoped? && paths.None?) then
      (s.(manifest := m.(uncovered := AddUncovered(m.uncovered, effectLabel))), Ok(false))
    else
      match CheckConflicts(cfg, tree, m)
      case Err(e) => (s, Err(e))
      case Ok(_) => if m.coverage.Full? then (s, Ok(true)) else Protect(cfg, tree, s, paths.value)
  }

  function Record(cfg: Config, tree: Tree, s: Stage): (Stage, Option<CheckpointError>) {
    var m := s.manifest;
    if m.coverage.NoCoverage? then (s, None)
    else match Look(cfg, tree, Watched(cfg, tree, m))
      case Err(e) => (s, Some(e))
      case Ok(current) => (s.(manifest := m.(observed := current)), None)
  }

  function Rebuilt(state: FileState, data: Bytes): Entry {
    if state.isLink then Symlink(data) else File(data)
  }

  predicate HasBlobs(m: Manifest, blobs: Blobs) {
    forall p :: p in m.baseline ==> m.baseline[p].digest in blobs
  }

  /** The baseline entries of `paths`, rebuilt from their blobs. */
  function BaselineEntries(m: Manifest, blobs: Blobs, paths: set<Path>): Tree
    requires HasBlobs(m, blobs)
  {
    map p | p in paths && p in m.baseline :: Rebuilt(m.baseline[p], blobs[m.baseline[p].digest])
  }

  /** Remove what appeared since the baseline, then write every baseline entry back. */
  function Restored(tree: Tree, m: Manifest, blobs: Blobs): Tree
    requires HasBlobs(m, blobs)
  {
    (tree - (m.observed.Keys - m.baseline.Keys)) + BaselineEntries(m, blobs, m.baseline.Keys)
  }

  /** The checks a rollback makes before it touches a file. */
  function RollbackRefusal(cfg: Config, tree: Tree, s: Stage, allowPartial: bool, busy: bool)
    : Option<CheckpointError>
  {
    var m := s.manifest;
    if busy then Some(Busy)
    else if m.coverage.NoCoverage? then Some(Unavailable)
    else if m.coverage.Scoped? && m.uncovered != [] && !allowPartial then Some(Partial)
    else match CheckConflicts(cfg, tree, m)
      case Err(e) => Some(e)
      case Ok(_) => None
  }

  /** Baseline entries are written back one after the other. The old file goes before the blob is
      read, so a missing blob stops the work midway with that path removed. */
  function WriteBack(tree: Tree, m: Manifest, blobs: Blobs, paths: seq<Path>): (Tree, Option<CheckpointError>)
    requires PathSet(paths) <= m.baseline.Keys
    decreases |paths|
  {
    if paths == [] then (tree, None)
    else
      assert paths[0] in PathSet(paths) && PathSet(paths[1..]) <= PathSet(paths);
      var state := m.baseline[paths[0]];
      if state.digest !in blobs then (tree - {paths[0]}, Some(MissingBlob))
      else WriteBack(tree[paths[0] := Rebuilt(state, blobs[state.digest])], m, blobs, paths[1..])
  }

  function Rollback(cfg: Config, tree: Tree, s: Stage, allowPartial: bool, busy: bool)
    : (Tree, Stage, Option<CheckpointError>)
    requires cfg.SortsAll()
  {
    var m := s.manifest;
    var refusal := RollbackRefusal(cfg, tree, s, allowPartial, busy);
    if refusal.Some? then (tree, s, refusal)
    else
      var (written, error) :=
        WriteBack(tree - (m.observed.Keys - m.baseline.Keys), m, s.blobs, cfg.sorted(m.baseline.Keys));
      (written, if error.None? then s.(manifest := m.(observed := m.baseline)) else s, error)
  }

  // ---------- The manager, changing files and manifests in place ----------

  class CheckpointManager {
    const cfg: Config
    var project: Tree
    var manifest: Manifest
    var blobs: Blobs

    constructor (cfg: Config, project: Tree)
      ensures this.cfg == cfg && this.project == project && CurrentStage() == EmptyStage(NoCoverage)
    {
      this.cfg := cfg;
      this.project := project;
      this.manifest := Manifest(map[], map[], NoCoverage, {}, []);
      this.blobs := map[];
    }

    ghost function CurrentStage(): Stage
      reads this
    {
      Stage(manifest, blobs)
    }

    method CapturePaths(paths: seq<Path>, save: bool) returns (result: Result<Listing, CheckpointError>)
      modifies this`blobs
      ensures (result, if save then blobs else map[])
              == Capture(cfg, project, paths, map[], 0, if save then old(blobs) else map[], save)
      ensures !save ==> blobs == old(blobs)
    {
      var captured: Listing := map[];
      var total: nat := 0;
      var i := 0;
      assert paths[0..] == paths;
      while i < |paths|
        invariant 0 <= i <= |paths|
        invariant !save ==> blobs == old(blobs)
        invariant Capture(cfg, project, paths, map[], 0, if save then old(blobs) else map[], save)
                  == Capture(cfg, project, paths[i..], captured, total, if save then blobs else map[], save)
      {
        var relative := paths[i];
        assert paths[i..][0] == relative && paths[i..][1..] == paths[i + 1..];
        i := i + 1;
        if relative !in project {
          continue;
        }
        var data := project[relative].bytes;
        total := total + |data|;
        if total > cfg.maxBytes {
          return Err(TooManyBytes);
        }
        captured := captured[relative := StateOf(cfg, project[relative])];
        if save && cfg.digest(data) !in blobs {
          blobs := blobs[cfg.digest(data) := data];
        }
      }
      return Ok(captured);
    }

    method CreateFullStage() returns (error: Option<CheckpointError>)
      modifies this`manifest, this`blobs
      ensures match CreateFull(cfg, project)
              case Err(e) => error == Some(e) && manifest == old(manifest) && blobs == old(blobs)
              case Ok(stage) => error == None && CurrentStage() == stage
    {
      var paths := ListedPaths(cfg, project);
      if |paths| > cfg.maxFiles {
        return Some(TooManyFiles);
      }
      var previous := blobs;
      blobs := map[];
      var captured := CapturePaths(cfg.sorted(paths), true);
      if captured.Err? {
        blobs := previous;
        return Some(captured.error);
      }
      manifest := Manifest(captured.value, captured.value, Full, {}, []);
      return None;
    }

    method CreateStage(policy: Policy, isGit: bool) returns (error: Option<CheckpointError>)
      modifies this`manifest, this`blobs
      ensures match Create(cfg, project, policy, isGit)
              case Err(e) => error == Some(e) && manifest == old(manifest) && blobs == old(blobs)
              case Ok(stage) => error == None && CurrentStage() == stage
    {
      if policy.Off? {
        manifest, blobs := EmptyStage(NoCoverage).manifest, map[];
        return None;
      }
      if policy.BestEffort? && !isGit {
        manifest, blobs := EmptyStage(Scoped).manifest, map[];
        return None;
      }
      error := CreateFullStage();
      if error.Some? && policy.BestEffort? {
        manifest, blobs := EmptyStage(Scoped).manifest, map[];
        error := None;
      }
    }

    method PrepareEffect(paths: Option<set<Path>>, effectLabel: string)
      returns (result: Result<bool, CheckpointError>)
      modifies this`manifest, this`blobs
      ensures (CurrentStage(), result) == Prepare(cfg, project, old(CurrentStage()), paths, effectLabel)
    {
      if manifest.coverage.NoCoverage? || (manifest.coverage.Scoped? && paths.None?) {
        manifest := manifest.(uncovered := AddUncovered(manifest.uncovered, effectLabel));
        return Ok(false);
      }
      var current := CapturePaths(cfg.sorted(Watched(cfg, project, manifest)), false);
      if current.Err? {
        return Err(current.error);
      }
      var conflicts := Differences(manifest.observed, current.value);
      if conflicts != {} {
        return Err(Conflict(conflicts));
      }
      if manifest.coverage.Full? {
        return Ok(true);
      }
      result := ProtectPaths(paths.value);
    }

    method ProtectPaths(paths: set<Path>) returns (result: Result<bool, CheckpointError>)
      modifies this`manifest, this`blobs
      ensures (CurrentStage(), result) == Protect(cfg, project, old(CurrentStage()), paths)
    {
      var scoped := manifest.scoped + paths;
      if |scoped| > cfg.maxFiles {
        return Err(TooManyFiles);
      }
      var captured := CapturePaths(cfg.sorted(scoped - manifest.scoped), true);
      if captured.Err? {
        return Err(captured.error);
      }
      var baseline := manifest.baseline + captured.value;
      if TotalSize(cfg, baseline, cfg.sorted(baseline.Keys)) > cfg.maxBytes {
        return Err(TooManyBytes);
      }
      manifest := manifest.(baseline := baseline, observed := manifest.observed + captured.value, scoped := scoped);
      return Ok(true);
    }

    method RecordEffect() returns (error: Option<CheckpointError>)
      modifies this`manifest, this`blobs
      ensures (CurrentStage(), error) == Record(cfg, project, old(CurrentStage()))
    {
      if manifest.coverage.NoCoverage? {
        return None;
      }
      var current := CapturePaths(cfg.sorted(Watched(cfg, project, manifest)), false);
      if current.Err? {
        return Some(current.error);
      }
      manifest := manifest.(observed := current.value);
      return None;
    }

    method RemoveCreated(paths: seq<Path>)
      modifies this`project
      ensures project == old(project) - PathSet(paths)
    {
      for i := 0 to |paths|
        invariant project == old(project) - PathSet(paths[..i])
      {
        assert PathSet(paths[..i + 1]) == PathSet(paths[..i]) + {paths[i]};
        if paths[i] in project {
          project := project - {paths[i]};
        }
      }
      assert paths[..|paths|] == paths;
    }

    method WriteBaseline(paths: seq<Path>) returns (error: Option<CheckpointError>)
      requires PathSet(paths) <= manifest.baseline.Keys
      modifies this`project
      ensures (project, error) == WriteBack(old(project), manifest, blobs, paths)
    {
      assert paths[0..] == paths;
      for i := 0 to |paths|
        invariant PathSet(paths[i..]) <= manifest.baseline.Keys
        invariant WriteBack(old(project), manifest, blobs, paths) == WriteBack(project, manifest, blobs, paths[i..])
      {
        assert paths[i..][0] == paths[i] && paths[i..][1..] == paths[i + 1..];
        assert paths[i] in PathSet(paths[i..]) && PathSet(paths[i + 1..]) <= PathSet(paths[i..]);
        var state := manifest.baseline[paths[i]];
        ghost var before := project;
        project := project - {paths[i]};
        if state.digest !in blobs {
          return Some(MissingBlob);
        }
        project := project[paths[i] := Rebuilt(state, blobs[state.digest])];
        assert project == before[paths[i] := Rebuilt(state, blobs[state.digest])];
      }
      return None;
    }

    method RollbackStage(allowPartial: bool, runningTasks: nat, runningAgents: nat)
      returns (error: Option<CheckpointError>)
      requires cfg.SortsAll()
      modifies this
      ensures (project, CurrentStage(), error)
              == Rollback(cfg, old(project), old(CurrentStage()), allowPartial,
                          runningTasks != 0 || runningAgents != 0)
    {
      if runningTasks != 0 || runningAgents != 0 {
        return Some(Busy);
      }
      if manifest.coverage.NoCoverage? {
        return Some(Unavailable);
      }
      if manifest.coverage.Scoped? && manifest.uncovered != [] && !allowPartial {
        return Some(Partial);
      }
      var current := CapturePaths(cfg.sorted(Watched(cfg, project, manifest)), false);
      if current.Err? {
        return Some(current.error);
      }
      var conflicts := Differences(manifest.observed, current.value);
      if conflicts != {} {
        return Some(Conflict(conflicts));
      }
      RemoveCreated(cfg.sorted(manifest.observed.Keys - manifest.baseline.Keys));
      error := WriteBaseline(cfg.sorted(manifest.baseline.Keys));
      if error.None? {
        manifest := manifest.(observed := manifest.baseline);
      }
    }
  }

  // ---------- What a capture finds ----------

  ghost predicate ValidBlobs(cfg: Config, blobs: Blobs) {
    forall d :: d in blobs ==> cfg.digest(blobs[d]) == d
  }

  /** Every entry of `tree` at a path of `listing` has its bytes among the blobs. */
  ghost predicate Holds(cfg: Config, blobs: Blobs, tree: Tree, paths: set<Path>) {
    forall p :: p in paths && p in tree ==>
      cfg.digest(tree[p].bytes) in blobs && blobs[cfg.digest(tree[p].bytes)] == tree[p].bytes
  }

  lemma SaveBlobHolds(cfg: Config, blobs: Blobs, data: Bytes)
    requires cfg.InjectiveDigest() && ValidBlobs(cfg, blobs)
    ensures var saved := SaveBlob(cfg, blobs, data);
            && ValidBlobs(cfg, saved)
            && cfg.digest(data) in saved && saved[cfg.digest(data)] == data
            && forall d :: d in blobs ==> d in saved && saved[d] == blobs[d]
  {
    if cfg.digest(data) in blobs {
      assert cfg.Distinguishes(data, blobs[cfg.digest(data)]);
    }
  }

  lemma StatesOneMore(cfg: Config, tree: Tree, done: Listing, p: Path, rest: set<Path>)
    ensures p !in tree ==> done + States(cfg, tree, {p} + rest) == done + States(cfg, tree, rest)
    ensures p in tree ==>
              done + States(cfg, tree, {p} + rest) == done[p := StateOf(cfg, tree[p])] + States(cfg, tree, rest)
  {
  }

  /** A capture that fits the limit is exactly the states of the existing paths. */
  lemma {:induction false} CaptureIsStates(cfg: Config, tree: Tree, paths: seq<Path>, done: Listing,
                                           total: nat, blobs: Blobs, save: bool)
    requires Capture(cfg, tree, paths, done, total, blobs, save).0.Ok?
    ensures Capture(cfg, tree, paths, done, total, blobs, save).0
            == Ok(done + States(cfg, tree, PathSet(paths)))
    decreases |paths|
  {
    if paths == [] {
      assert done + States(cfg, tree, PathSet(paths)) == done;
    } else {
      var p, rest := paths[0], paths[1..];
      assert PathSet(paths) == {p} + PathSet(rest);
      StatesOneMore(cfg, tree, done, p, PathSet(rest));
      if p !in tree {
        CaptureIsStates(cfg, tree, rest, done, total, blobs, save);
      } else {
        var data := tree[p].bytes;
        CaptureIsStates(cfg, tree, rest, done[p := StateOf(cfg, tree[p])], total + |data|,
                        if save then SaveBlob(cfg, blobs, data) else blobs, save);
      }
    }
  }

  /** A saving capture keeps the old blobs and, when it succeeds, holds the bytes it read. */
  lemma {:induction false} CaptureHolds(cfg: Config, tree: Tree, paths: seq<Path>, done: Listing,
                                        total: nat, blobs: Blobs)
    requires cfg.InjectiveDigest() && ValidBlobs(cfg, blobs)
    ensures var (captured, saved) := Capture(cfg, tree, paths, done, total, blobs, true);
            && ValidBlobs(cfg, saved)
            && (forall d :: d in blobs ==> d in saved && saved[d] == blobs[d])
            && (captured.Ok? ==> Holds(cfg, saved, tree, PathSet(paths)))
    decreases |paths|
  {
    if paths != [] {
      var p, rest := paths[0], paths[1..];
      assert PathSet(paths) == {p} + PathSet(rest);
      if p !in tree {
        CaptureHolds(cfg, tree, rest, done, total, blobs);
      } else if total + |tree[p].bytes| <= cfg.maxBytes {
        var data := tree[p].bytes;
        SaveBlobHolds(cfg, blobs, data);
        CaptureHolds(cfg, tree, rest, done[p := StateOf(cfg, tree[p])], total + |data|, SaveBlob(cfg, blobs, data));
      }
    }
  }

  lemma LookIsStates(cfg: Config, tree: Tree, paths: set<Path>)
    requires cfg.SortsAll() && Look(cfg, tree, paths).Ok?
    ensures Look(cfg, tree, paths).value == States(cfg, tree, paths)
  {
    CaptureIsStates(cfg, tree, cfg.sorted(paths), map[], 0, map[], false);
    assert map[] + States(cfg, tree, paths) == States(cfg, tree, paths);
  }

  lemma NoDifferencesIff(expected: Listing, actual: Listing)
    ensures Differences(expected, actual) == {} <==> expected == actual
  {
    if Differences(expected, actual) == {} {
      forall p | p in expected.Keys + actual.Keys
        ensures p in expected && p in actual && expected[p] == actual[p]
      {
        assert p !in Differences(expected, actual);
      }
    }
  }

  /** The number of bytes at these paths. */
  function TotalBytes(tree: Tree, paths: seq<Path>): nat
    decreases |paths|
  {
    if paths == [] then 0
    else (if paths[0] in tree then |tree[paths[0]].bytes| else 0) + TotalBytes(tree, paths[1..])
  }

  /** Reading fails exactly if there are more bytes than the limit allows. */
  lemma {:induction false} CaptureFitsIff(cfg: Config, tree: Tree, paths: seq<Path>, done: Listing, total: nat,
                                          blobs: Blobs, save: bool)
    requires total <= cfg.maxBytes
    ensures var captured := Capture(cfg, tree, paths, done, total, blobs, save).0;
            && (captured.Ok? <==> total + TotalBytes(tree, paths) <= cfg.maxBytes)
            && (captured.Err? ==> captured.error == TooManyBytes)
    decreases |paths|
  {
    if paths != [] {
      var p, rest := paths[0], paths[1..];
      if p !in tree {
        CaptureFitsIff(cfg, tree, rest, done, total, blobs, save);
      } else if total + |tree[p].bytes| <= cfg.maxBytes {
        CaptureFitsIff(cfg, tree, rest, done[p := StateOf(cfg, tree[p])], total + |tree[p].bytes|,
                       if save then SaveBlob(cfg, blobs, tree[p].bytes) else blobs, save);
      }
    }
  }

  /** The sizes a listing notes are those of the files it was made from. */
  lemma {:induction false} SizesAreBytes(cfg: Config, tree: Tree, paths: set<Path>, order: seq<Path>)
    requires PathSet(order) <= paths
    ensures TotalSize(cfg, States(cfg, tree, paths), order) == TotalBytes(tree, order)
    decreases |order|
  {
    if order != [] {
      assert order[0] in PathSet(order);
      assert PathSet(order[1..]) <= PathSet(order);
      SizesAreBytes(cfg, tree, paths, order[1..]);
    }
  }

  /** The files at these paths can be read, and are as `observed` says. */
  predicate AsObserved(cfg: Config, tree: Tree, paths: set<Path>, observed: Listing) {
    TotalBytes(tree, cfg.sorted(paths)) <= cfg.maxBytes && observed == States(cfg, tree, paths)
  }

  lemma NoConflictIff(cfg: Config, tree: Tree, m: Manifest)
    requires cfg.SortsAll()
    ensures CheckConflicts(cfg, tree, m).Ok? <==> AsObserved(cfg, tree, Watched(cfg, tree, m), m.observed)
  {
    hide Capture, States, Differences;
    var watched := Watched(cfg, tree, m);
    CaptureFitsIff(cfg, tree, cfg.sorted(watched), map[], 0, map[], false);
    if Look(cfg, tree, watched).Ok? {
      LookIsStates(cfg, tree, watched);
      NoDifferencesIff(m.observed, Look(cfg, tree, watched).value);
    }
  }

  /** What a preparation decides. An effect is uncovered without checkpoints, or without known paths in a
      scoped stage. Otherwise it may go on exactly if what the stage watches can be read and is as last
      observed and, in a scoped stage, the paths it adds fit the limits alone and with all others; then
      precisely these are added, as they are now. A refusal changes no manifest. */
  lemma PrepareCoversIff(cfg: Config, tree: Tree, s: Stage, paths: Option<set<Path>>, effectLabel: string)
    requires cfg.SortsAll()
    ensures var m := s.manifest;
            var (after, result) := Prepare(cfg, tree, s, paths, effectLabel);
            var uncovered := m.coverage.NoCoverage? || (m.coverage.Scoped? && paths.None?);
            && (result == Ok(false) <==> uncovered)
            && (result.Err? ==> after.manifest == m)
            && (m.coverage.Full? ==>
                  after == s && (result == Ok(true) <==> AsObserved(cfg, tree, ListedPaths(cfg, tree), m.observed)))
            && (m.coverage.Scoped? && paths.Some? ==>
                  var added := paths.value - m.scoped;
                  var now := States(cfg, tree, added);
                  var baseline := m.baseline + now;
                  && (result == Ok(true) <==>
                        && AsObserved(cfg, tree, m.scoped, m.observed)
                        && |m.scoped + paths.value| <= cfg.maxFiles
                        && TotalBytes(tree, cfg.sorted(added)) <= cfg.maxBytes
                        && TotalSize(cfg, baseline, cfg.sorted(baseline.Keys)) <= cfg.maxBytes)
                  && (result.Ok? ==>
                        after.manifest == m.(baseline := baseline, observed := m.observed + now,
                                             scoped := m.scoped + paths.value)))
  {
    hide Capture, States, CheckConflicts, AsObserved, TotalSize, TotalBytes, AddUncovered;
    var m := s.manifest;
    NoConflictIff(cfg, tree, m);
    if m.coverage.Scoped? && paths.Some? {
      var added := paths.value - m.scoped;
      assert m.scoped + paths.value - m.scoped == added;
      CaptureFitsIff(cfg, tree, cfg.sorted(added), map[], 0, s.blobs, true);
      var captured := Capture(cfg, tree, cfg.sorted(added), map[], 0, s.blobs, true).0;
      if captured.Ok? {
        CaptureIsStates(cfg, tree, cfg.sorted(added), map[], 0, s.blobs, true);
        assert captured.value == States(cfg, tree, added);
      }
    }
  }

  /** Whether the listed files fit both limits. */
  predicate Snapshots(cfg: Config, tree: Tree) {
    |ListedPaths(cfg, tree)| <= cfg.maxFiles && TotalBytes(tree, cfg.sorted(ListedPaths(cfg, tree))) <= cfg.maxBytes
  }

  lemma CreateFullIff(cfg: Config, tree: Tree)
    requires cfg.SortsAll()
    ensures CreateFull(cfg, tree).Ok? <==> Snapshots(cfg, tree)
    ensures CreateFull(cfg, tree).Ok? ==>
              var m := CreateFull(cfg, tree).value.manifest;
              && m.coverage.Full? && m.scoped == {} && m.uncovered == []
              && m.baseline == m.observed == States(cfg, tree, ListedPaths(cfg, tree))
  {
    var paths := ListedPaths(cfg, tree);
    CaptureFitsIff(cfg, tree, cfg.sorted(paths), map[], 0, map[], true);
    if CreateFull(cfg, tree).Ok? {
      CaptureIsStates(cfg, tree, cfg.sorted(paths), map[], 0, map[], true);
      assert map[] + States(cfg, tree, paths) == States(cfg, tree, paths);
    }
  }

  /** The coverage a policy leads to. A required stage is full or fails, a best-effort one is full exactly
      in a Git project whose listed files fit and starts empty and scoped otherwise, and without
      checkpoints nothing is kept. */
  lemma CoverageByPolicy(cfg: Config, tree: Tree, policy: Policy, isGit: bool)
    requires cfg.SortsAll()
    ensures var created := Create(cfg, tree, policy, isGit);
            && (created.Ok? <==> !policy.RequiredPolicy? || Snapshots(cfg, tree))
            && (created.Ok? ==>
                  var stage, m := created.value, created.value.manifest;
                  && (m.coverage.Full? <==>
                        policy.RequiredPolicy? || (policy.BestEffort? && isGit && Snapshots(cfg, tree)))
                  && (m.coverage.NoCoverage? <==> policy.Off?)
                  && m.uncovered == [] && m.scoped == {}
                  && (m.coverage.Full? ==> m.baseline == m.observed == States(cfg, tree, ListedPaths(cfg, tree)))
                  && (!m.coverage.Full? ==> m.baseline == m.observed == map[] && stage.blobs == map[]))
  {
    hide CreateFull, Snapshots;
    CreateFullIff(cfg, tree);
  }

  // ---------- The rollback itself ----------

  /** `tree` and `other` agree on whether `p` exists and on its entry. */
  predicate SameAt(tree: Tree, other: Tree, p: Path) {
    (p in tree <==> p in other) && (p in tree ==> tree[p] == other[p])
  }

  /** The stage still describes `original` on `paths`, and holds its bytes. */
  ghost predicate Describes(cfg: Config, s: Stage, original: Tree, paths: set<Path>) {
    && s.manifest.baseline == States(cfg, original, paths)
    && ValidBlobs(cfg, s.blobs)
    && Holds(cfg, s.blobs, original, paths)
  }

  lemma DescribedStageHasBlobs(cfg: Config, s: Stage, original: Tree, paths: set<Path>)
    requires Describes(cfg, s, original, paths)
    ensures HasBlobs(s.manifest, s.blobs)
  {
  }

  /** Restoring puts every described path back to its original entry, provided the observed
      listing is true of the current tree there, and leaves all other paths alone. */
  lemma RestoredIsOriginal(cfg: Config, s: Stage, original: Tree, tree: Tree, paths: set<Path>)
    requires Describes(cfg, s, original, paths)
    requires s.manifest.observed == States(cfg, tree, paths)
    requires HasBlobs(s.manifest, s.blobs)
    ensures forall p :: p in paths ==> SameAt(Restored(tree, s.manifest, s.blobs), original, p)
    ensures forall p :: p !in paths ==> SameAt(Restored(tree, s.manifest, s.blobs), tree, p)
  {
    var result := Restored(tree, s.manifest, s.blobs);
    forall p | p in paths ensures SameAt(result, original, p) {
      if p in original {
        assert s.manifest.baseline[p] == StateOf(cfg, original[p]);
        assert result[p] == Rebuilt(StateOf(cfg, original[p]), original[p].bytes) == original[p];
      }
    }
  }

  lemma WriteOneMore(tree: Tree, m: Manifest, blobs: Blobs, paths: set<Path>, p: Path)
    requires HasBlobs(m, blobs) && p in m.baseline
    ensures tree[p := Rebuilt(m.baseline[p], blobs[m.baseline[p].digest])] + BaselineEntries(m, blobs, paths)
            == tree + BaselineEntries(m, blobs, {p} + paths)
  {
  }

  lemma {:induction false} WriteBackIsBaseline(tree: Tree, m: Manifest, blobs: Blobs, paths: seq<Path>)
    requires PathSet(paths) <= m.baseline.Keys && HasBlobs(m, blobs)
    ensures WriteBack(tree, m, blobs, paths) == (tree + BaselineEntries(m, blobs, PathSet(paths)), None)
    decreases |paths|
  {
    if paths == [] {
      assert PathSet(paths) == {} && BaselineEntries(m, blobs, {}) == map[];
      assert tree + map[] == tree;
    } else {
      hide BaselineEntries;
      var p, rest := paths[0], paths[1..];
      assert PathSet(paths) == {p} + PathSet(rest);
      var entry := Rebuilt(m.baseline[p], blobs[m.baseline[p].digest]);
      WriteBackIsBaseline(tree[p := entry], m, blobs, rest);
      WriteOneMore(tree, m, blobs, PathSet(rest), p);
    }
  }

  /** Writing back stops exactly if a blob is missing, and in either case touches `paths` only. */
  lemma {:induction false} WriteBackStopsIff(tree: Tree, m: Manifest, blobs: Blobs, paths: seq<Path>)
    requires PathSet(paths) <= m.baseline.Keys
    ensures var (written, error) := WriteBack(tree, m, blobs, paths);
            && (error.Some? <==> exists p :: p in PathSet(paths) && m.baseline[p].digest !in blobs)
            && (error.Some? ==> error.value == MissingBlob)
            && forall p :: p !in PathSet(paths) ==> SameAt(written, tree, p)
    decreases |paths|
  {
    if paths != [] {
      var p, rest := paths[0], paths[1..];
      assert PathSet(paths) == {p} + PathSet(rest);
      if m.baseline[p].digest in blobs {
        WriteBackStopsIff(tree[p := Rebuilt(m.baseline[p], blobs[m.baseline[p].digest])], m, blobs, rest);
      }
    }
  }

  /** A rollback completes exactly if nothing refuses it and no blob is missing. A refusal changes
      nothing; a missing blob leaves the stage as it was and touches no path outside the baseline and
      the observed listing; a completed one has written the whole baseline. */
  lemma RollbackCompletesIff(cfg: Config, tree: Tree, s: Stage, allowPartial: bool, busy: bool)
    requires cfg.SortsAll()
    ensures var (tree', s', error) := Rollback(cfg, tree, s, allowPartial, busy);
            var refusal := RollbackRefusal(cfg, tree, s, allowPartial, busy);
            && (error.None? <==> refusal.None? && HasBlobs(s.manifest, s.blobs))
            && (refusal.Some? ==> error == refusal && tree' == tree)
            && (error.Some? ==> s' == s && (error == refusal || error == Some(MissingBlob)))
            && (error.None? ==> tree' == Restored(tree, s.manifest, s.blobs)
                                && s' == s.(manifest := s.manifest.(observed := s.manifest.baseline)))
            && forall p :: p !in s.manifest.baseline && p !in s.manifest.observed ==> SameAt(tree', tree, p)
  {
    var m := s.manifest;
    var cleared := tree - (m.observed.Keys - m.baseline.Keys);
    var paths := cfg.sorted(m.baseline.Keys);
    assert PathSet(paths) == m.baseline.Keys;
    WriteBackStopsIff(cleared, m, s.blobs, paths);
    if HasBlobs(m, s.blobs) {
      WriteBackIsBaseline(cleared, m, s.blobs, paths);
    }
  }

  /** What a rollback leaves when the blob of the path at place `k` is the first one missing. */
  ghost predicate StoppedAt(tree: Tree, m: Manifest, blobs: Blobs, paths: seq<Path>, k: nat, left: Tree)
    requires PathSet(paths) <= m.baseline.Keys && k < |paths|
  {
    && (forall p :: p in paths[..k] && m.baseline[p].digest in blobs ==>
          p in left && left[p] == Rebuilt(m.baseline[p], blobs[m.baseline[p].digest]))
    && paths[k] !in left
    && forall p :: p !in paths[..k + 1] ==> SameAt(left, tree, p)
  }

  lemma {:induction false} WriteBackStopsAt(tree: Tree, m: Manifest, blobs: Blobs, paths: seq<Path>, k: nat)
    requires PathSet(paths) <= m.baseline.Keys && k < |paths|
    requires forall i :: 0 <= i < k ==> paths[i] in m.baseline && m.baseline[paths[i]].digest in blobs
    requires paths[k] in m.baseline && m.baseline[paths[k]].digest !in blobs
    ensures WriteBack(tree, m, blobs, paths).1 == Some(MissingBlob)
    ensures StoppedAt(tree, m, blobs, paths, k, WriteBack(tree, m, blobs, paths).0)
    decreases |paths|
  {
    if k > 0 {
      var p, rest := paths[0], paths[1..];
      var next := tree[p := Rebuilt(m.baseline[p], blobs[m.baseline[p].digest])];
      assert PathSet(rest) <= PathSet(paths);
      WriteBackStopsAt(next, m, blobs, rest, k - 1);
      assert paths[..k] == [p] + rest[..k - 1] && paths[..k + 1] == [p] + rest[..k];
      var left := WriteBack(next, m, blobs, rest).0;
      assert p in rest[..k] || SameAt(left, next, p);
      forall q | q !in paths[..k + 1] ensures SameAt(left, tree, q) {
        assert q !in rest[..k] && SameAt(left, next, q) && SameAt(next, tree, q);
      }
    }
  }

  lemma FirstMissing(m: Manifest, blobs: Blobs, paths: seq<Path>) returns (k: nat)
    requires PathSet(paths) == m.baseline.Keys && !HasBlobs(m, blobs)
    ensures k < |paths| && paths[k] in m.baseline && m.baseline[paths[k]].digest !in blobs
    ensures forall i :: 0 <= i < k ==> paths[i] in m.baseline && m.baseline[paths[i]].digest in blobs
  {
    var p :| p in m.baseline && m.baseline[p].digest !in blobs;
    assert p in PathSet(paths);
    k := 0;
    while m.baseline[paths[k]].digest in blobs
      invariant k < |paths| && p in paths[k..]
      invariant forall i :: 0 <= i <= k ==> paths[i] in PathSet(paths)
      invariant forall i :: 0 <= i < k ==> m.baseline[paths[i]].digest in blobs
      decreases |paths| - k
    {
      assert p in paths[k + 1..];
      assert paths[k + 1] in PathSet(paths);
      k := k + 1;
    }
  }

  /** A rollback that no check refuses but that misses a blob stops at the first such path: what came
      before it is written, that path is gone, and what comes after it is as if only the created files
      had been removed. */
  lemma MissingBlobStopsMidway(cfg: Config, tree: Tree, s: Stage, allowPartial: bool, busy: bool) returns (k: nat)
    requires cfg.SortsAll()
    requires RollbackRefusal(cfg, tree, s, allowPartial, busy).None? && !HasBlobs(s.manifest, s.blobs)
    ensures var m, paths := s.manifest, cfg.sorted(s.manifest.baseline.Keys);
            && PathSet(paths) <= m.baseline.Keys && k < |paths|
            && m.baseline[paths[k]].digest !in s.blobs
            && (forall i :: 0 <= i < k ==> m.baseline[paths[i]].digest in s.blobs)
            && var (left, stage, error) := Rollback(cfg, tree, s, allowPartial, busy);
            && stage == s && error == Some(MissingBlob)
            && StoppedAt(tree - (m.observed.Keys - m.baseline.Keys), m, s.blobs, paths, k, left)
  {
    var m, paths := s.manifest, cfg.sorted(s.manifest.baseline.Keys);
    assert PathSet(paths) == m.baseline.Keys;
    k := FirstMissing(m, s.blobs, paths);
    WriteBackStopsAt(tree - (m.observed.Keys - m.baseline.Keys), m, s.blobs, paths, k);
  }

  /** The witness: a stage has just been created and its blobs are lost. Rolling back the unchanged tree
      fails and removes its first listed file. */
  lemma LostBlobsLoseAFile(cfg: Config, tree: Tree)
    requires cfg.InjectiveDigest() && cfg.SortsAll() && CreateFull(cfg, tree).Ok? && ListedPaths(cfg, tree) != {}
    ensures var s := CreateFull(cfg, tree).value.(blobs := map[]);
            var first := cfg.sorted(ListedPaths(cfg, tree))[..1];
            && first != [] && first[0] in tree
            && Rollback(cfg, tree, s, false, false) == (tree - {first[0]}, s, Some(MissingBlob))
  {
    var listed := ListedPaths(cfg, tree);
    var s := CreateFull(cfg, tree).value.(blobs := map[]);
    CreateFullDescribes(cfg, tree);
    CreatedIsUpToDate(cfg, tree);
    LookIsStates(cfg, tree, listed);
    FullCheckPassesIff(cfg, tree, s, false, false);
    hide RollbackRefusal, Capture, CreateFull, Look;
    assert s.manifest.baseline.Keys == listed == PathSet(cfg.sorted(listed));
    var p :| p in listed;
    assert p in PathSet(cfg.sorted(listed));
    assert cfg.sorted(listed)[0] in PathSet(cfg.sorted(listed));
    assert tree - (s.manifest.observed.Keys - s.manifest.baseline.Keys) == tree;
  }

  // ---------- Full coverage: whole runs ----------

  /** A stage under way: the tree, the stage, and whether an effect window is open. `before` is the
      tree at the moment the open window was opened. */
  datatype Work = Work(tree: Tree, stage: Stage, open: bool, before: Tree)

  datatype Step =
    | Outside(tree: Tree)                                        // somebody edits the project
    | OpenWindow(paths: Option<set<Path>>, effectLabel: string)  // before_effect
    | Effect(tree: Tree)                                         // the tool changes the project
    | CloseWindow                                                // after_effect

  /** The effect lock admits one window at a time; a refused preparation opens none. */
  function Next(cfg: Config, w: Work, step: Step): Work {
    match step
    case Outside(tree) => w.(tree := tree)
    case OpenWindow(paths, effectLabel) =>
      if w.open then w
      else
        var (stage, result) := Prepare(cfg, w.tree, w.stage, paths, effectLabel);
        w.(stage := stage, open := result.Ok?, before := if result.Ok? then w.tree else w.before)
    case Effect(tree) => if w.open then w.(tree := tree) else w
    case CloseWindow =>
      if !w.open then w else w.(stage := Record(cfg, w.tree, w.stage).0, open := false)
  }

  function Run(cfg: Config, w: Work, steps: seq<Step>): Work
    decreases |steps|
  {
    if steps == [] then w else Run(cfg, Next(cfg, w, steps[0]), steps[1..])
  }

  /** All listed paths of either tree. */
  function ListedInEither(cfg: Config, a: Tree, b: Tree): set<Path> {
    ListedPaths(cfg, a) + ListedPaths(cfg, b)
  }

  ghost predicate FullInv(cfg: Config, w: Work, original: Tree) {
    && w.stage.manifest.coverage.Full?
    && Describes(cfg, w.stage, original, ListedPaths(cfg, original))
    && (w.open ==> w.stage.manifest.observed == States(cfg, w.before, ListedPaths(cfg, w.before)))
  }

  lemma CreateFullDescribes(cfg: Config, tree: Tree)
    requires cfg.InjectiveDigest() && cfg.SortsAll() && CreateFull(cfg, tree).Ok?
    ensures FullInv(cfg, Work(tree, CreateFull(cfg, tree).value, false, tree), tree)
    ensures CreateFull(cfg, tree).value.manifest.observed == CreateFull(cfg, tree).value.manifest.baseline
  {
    var paths := ListedPaths(cfg, tree);
    CaptureIsStates(cfg, tree, cfg.sorted(paths), map[], 0, map[], true);
    CaptureHolds(cfg, tree, cfg.sorted(paths), map[], 0, map[]);
    assert map[] + States(cfg, tree, paths) == States(cfg, tree, paths);
  }

  /** A check that finds no conflict has compared the observed listing with the watched paths. */
  lemma NoConflictMeansObserved(cfg: Config, tree: Tree, m: Manifest)
    requires cfg.SortsAll()
    ensures CheckConflicts(cfg, tree, m).Ok? ==> m.observed == States(cfg, tree, Watched(cfg, tree, m))
    ensures m.observed != States(cfg, tree, Watched(cfg, tree, m)) ==> CheckConflicts(cfg, tree, m).Err?
  {
    var look := Look(cfg, tree, Watched(cfg, tree, m));
    if look.Ok? {
      LookIsStates(cfg, tree, Watched(cfg, tree, m));
      NoDifferencesIff(m.observed, look.value);
    }
  }

  lemma FullStepKeepsInv(cfg: Config, w: Work, original: Tree, step: Step)
    requires cfg.SortsAll() && FullInv(cfg, w, original)
    ensures FullInv(cfg, Next(cfg, w, step), original)
  {
    NoConflictMeansObserved(cfg, w.tree, w.stage.manifest);
  }

  lemma {:induction false} FullRunKeepsInv(cfg: Config, w: Work, original: Tree, steps: seq<Step>)
    requires cfg.SortsAll() && FullInv(cfg, w, original)
    ensures FullInv(cfg, Run(cfg, w, steps), original)
    decreases |steps|
  {
    if steps != [] {
      FullStepKeepsInv(cfg, w, original, steps[0]);
      FullRunKeepsInv(cfg, Next(cfg, w, steps[0]), original, steps[1..]);
    }
  }

  /** What a full rollback does after any run. It succeeds exactly if nothing is running, the tree
      fits the limits and the observed listing is true of it; then every listed path of either tree
      has its original entry and nothing else changed. Otherwise tree and stage are untouched. */
  ghost predicate FullRollbackExact(cfg: Config, original: Tree, w: Work, allowPartial: bool, busy: bool)
    requires cfg.SortsAll()
  {
    var (tree, stage, error) := Rollback(cfg, w.tree, w.stage, allowPartial, busy);
    var listed := ListedPaths(cfg, w.tree);
    && (error.None? <==>
          && !busy
          && Look(cfg, w.tree, listed).Ok?
          && w.stage.manifest.observed == States(cfg, w.tree, listed))
    && (error.Some? ==> tree == w.tree && stage == w.stage)
    && (error.None? ==>
          && (forall p :: cfg.listed(p) ==> SameAt(tree, original, p))
          && (forall p :: !cfg.listed(p) ==> SameAt(tree, w.tree, p))
          && stage.manifest.observed == stage.manifest.baseline)
  }

  lemma FullCheckPassesIff(cfg: Config, tree: Tree, s: Stage, allowPartial: bool, busy: bool)
    requires cfg.SortsAll() && s.manifest.coverage.Full?
    ensures RollbackRefusal(cfg, tree, s, allowPartial, busy).None? <==>
              && !busy
              && Look(cfg, tree, ListedPaths(cfg, tree)).Ok?
              && s.manifest.observed == States(cfg, tree, ListedPaths(cfg, tree))
  {
    var listed := ListedPaths(cfg, tree);
    if Look(cfg, tree, listed).Ok? {
      LookIsStates(cfg, tree, listed);
      NoDifferencesIff(s.manifest.observed, Look(cfg, tree, listed).value);
    }
  }

  lemma FullRollbackFromInv(cfg: Config, original: Tree, w: Work, allowPartial: bool, busy: bool)
    requires cfg.SortsAll() && FullInv(cfg, w, original)
    ensures FullRollbackExact(cfg, original, w, allowPartial, busy)
  {
    hide Rollback, RollbackRefusal, Restored, HasBlobs;
    DescribedStageHasBlobs(cfg, w.stage, original, ListedPaths(cfg, original));
    RollbackCompletesIff(cfg, w.tree, w.stage, allowPartial, busy);
    FullCheckPassesIff(cfg, w.tree, w.stage, allowPartial, busy);
    if Rollback(cfg, w.tree, w.stage, allowPartial, busy).2.None? {
      var both := ListedInEither(cfg, original, w.tree);
      assert States(cfg, original, both) == States(cfg, original, ListedPaths(cfg, original));
      assert States(cfg, w.tree, both) == States(cfg, w.tree, ListedPaths(cfg, w.tree));
      RestoredIsOriginal(cfg, w.stage, original, w.tree, both);
      var tree := Restored(w.tree, w.stage.manifest, w.stage.blobs);
      forall p | cfg.listed(p) ensures SameAt(tree, original, p) {
        assert p !in both ==> p !in original && p !in w.tree;
      }
    }
  }

  /** Full rollback is exact and refuses otherwise, after any interleaving of effects and outside
      edits. */
  lemma FullRollbackIsExact(cfg: Config, original: Tree, steps: seq<Step>, allowPartial: bool, busy: bool)
    requires cfg.InjectiveDigest() && cfg.SortsAll() && CreateFull(cfg, original).Ok?
    ensures var w := Run(cfg, Work(original, CreateFull(cfg, original).value, false, original), steps);
            FullRollbackExact(cfg, original, w, allowPartial, busy)
  {
    var start := Work(original, CreateFull(cfg, original).value, false, original);
    CreateFullDescribes(cfg, original);
    FullRunKeepsInv(cfg, start, original, steps);
    FullRollbackFromInv(cfg, original, Run(cfg, start, steps), allowPartial, busy);
  }

  /** After any run: an edit of a listed path made outside a window blocks the next window and the
      rollback, and whenever a window closes, every path whose observed state changes was changed
      between the opening and the closing of that very window. */
  lemma OutsideEditsNeverEnterObservedTree(cfg: Config, original: Tree, steps: seq<Step>, next: Step)
    requires cfg.InjectiveDigest() && cfg.SortsAll() && CreateFull(cfg, original).Ok?
    ensures var w := Run(cfg, Work(original, CreateFull(cfg, original).value, false, original), steps);
            var w' := Next(cfg, w, next);
            var observed, observed' := w.stage.manifest.observed, w'.stage.manifest.observed;
            && (!w.open && observed != States(cfg, w.tree, ListedPaths(cfg, w.tree)) && next.OpenWindow? ==>
                  w' == w)
            && (observed' != observed ==>
                  && w.open && next.CloseWindow?
                  && observed == States(cfg, w.before, ListedPaths(cfg, w.before))
                  && observed' == States(cfg, w.tree, ListedPaths(cfg, w.tree)))
  {
    var start := Work(original, CreateFull(cfg, original).value, false, original);
    CreateFullDescribes(cfg, original);
    FullRunKeepsInv(cfg, start, original, steps);
    var w := Run(cfg, start, steps);
    NoConflictMeansObserved(cfg, w.tree, w.stage.manifest);
    if Look(cfg, w.tree, ListedPaths(cfg, w.tree)).Ok? {
      LookIsStates(cfg, w.tree, ListedPaths(cfg, w.tree));
    }
  }

  // ---------- Scoped coverage: whole runs ----------

  /** One covered effect: the paths it names and the tree it leaves. */
  datatype CoveredEffect = CoveredEffect(paths: set<Path>, tree: Tree)

  /** The effect runs only if it was prepared, and it changes only the paths it named. */
  ghost predicate KeepsToItsPaths(tree: Tree, e: CoveredEffect) {
    forall p :: p !in e.paths ==> SameAt(e.tree, tree, p)
  }

  /** Tree and stage after one covered effect; a refused effect changes nothing but saved blobs. */
  function RunEffect(cfg: Config, tree: Tree, s: Stage, e: CoveredEffect): (Tree, Stage) {
    var (prepared, result) := Prepare(cfg, tree, s, Some(e.paths), "effect");
    if result.Err? then (tree, prepared) else (e.tree, Record(cfg, e.tree, prepared).0)
  }

  ghost predicate UndisturbedRun(cfg: Config, tree: Tree, s: Stage, effects: seq<CoveredEffect>)
    decreases |effects|
  {
    effects == [] ||
    (KeepsToItsPaths(tree, effects[0]) &&
     var (tree', s') := RunEffect(cfg, tree, s, effects[0]);
     UndisturbedRun(cfg, tree', s', effects[1..]))
  }

  function RunEffects(cfg: Config, tree: Tree, s: Stage, effects: seq<CoveredEffect>): (Tree, Stage)
    decreases |effects|
  {
    if effects == [] then (tree, s)
    else
      var (tree', s') := RunEffect(cfg, tree, s, effects[0]);
      RunEffects(cfg, tree', s', effects[1..])
  }

  /** Copy-on-first-touch: the baseline holds the original entries of exactly the touched paths, and
      no other path differs from the original tree. */
  ghost predicate ScopedInv(cfg: Config, original: Tree, tree: Tree, s: Stage) {
    && s.manifest.coverage.Scoped? && s.manifest.uncovered == []
    && Describes(cfg, s, original, s.manifest.scoped)
    && forall p :: p !in s.manifest.scoped ==> SameAt(tree, original, p)
  }

  /** The first capture of untouched paths extends the description of the original tree. */
  lemma FirstTouchExtends(cfg: Config, original: Tree, tree: Tree, s: Stage, added: set<Path>, blobs: Blobs)
    requires Describes(cfg, s, original, s.manifest.scoped)
    requires forall p :: p in added ==> p !in s.manifest.scoped && SameAt(tree, original, p)
    requires ValidBlobs(cfg, blobs) && Holds(cfg, blobs, tree, added)
    requires forall d :: d in s.blobs ==> d in blobs && blobs[d] == s.blobs[d]
    ensures s.manifest.baseline + States(cfg, tree, added) == States(cfg, original, s.manifest.scoped + added)
    ensures Holds(cfg, blobs, original, s.manifest.scoped + added)
  {
    forall p | p in s.manifest.scoped + added && p in original
      ensures cfg.digest(original[p].bytes) in blobs && blobs[cfg.digest(original[p].bytes)] == original[p].bytes
    {
      if p in added { assert SameAt(tree, original, p); }
    }
    assert forall p :: p in added ==> SameAt(tree, original, p);
  }

  lemma MoreBlobsKeepScopedInv(cfg: Config, original: Tree, tree: Tree, s: Stage, blobs: Blobs)
    requires ScopedInv(cfg, original, tree, s) && ValidBlobs(cfg, blobs)
    requires forall d :: d in s.blobs ==> d in blobs && blobs[d] == s.blobs[d]
    ensures ScopedInv(cfg, original, tree, s.(blobs := blobs))
  {
  }

  lemma ExtendedStageKeepsScopedInv(cfg: Config, original: Tree, tree: Tree, s: Stage, paths: set<Path>, blobs: Blobs)
    requires ScopedInv(cfg, original, tree, s)
    requires ValidBlobs(cfg, blobs) && Holds(cfg, blobs, tree, paths - s.manifest.scoped)
    requires forall d :: d in s.blobs ==> d in blobs && blobs[d] == s.blobs[d]
    ensures var added := States(cfg, tree, s.manifest.scoped + paths - s.manifest.scoped);
            ScopedInv(cfg, original, tree,
                      Stage(s.manifest.(baseline := s.manifest.baseline + added,
                                        observed := s.manifest.observed + added,
                                        scoped := s.manifest.scoped + paths), blobs))
  {
    var added := s.manifest.scoped + paths - s.manifest.scoped;
    assert added == paths - s.manifest.scoped;
    FirstTouchExtends(cfg, original, tree, s, added, blobs);
    assert s.manifest.scoped + added == s.manifest.scoped + paths;
  }

  lemma ScopedInvHasBlobs(cfg: Config, original: Tree, tree: Tree, s: Stage)
    requires ScopedInv(cfg, original, tree, s)
    ensures ValidBlobs(cfg, s.blobs)
  {
  }

  lemma ProtectKeepsScopedInv(cfg: Config, original: Tree, tree: Tree, s: Stage, paths: set<Path>)
    requires cfg.InjectiveDigest() && cfg.SortsAll() && ScopedInv(cfg, original, tree, s)
    ensures var (s', result) := Protect(cfg, tree, s, paths);
            && ScopedInv(cfg, original, tree, s')
            && (result.Ok? ==> s'.manifest.scoped == s.manifest.scoped + paths)
            && (result.Err? ==> s'.manifest == s.manifest)
  {
    hide Capture, TotalSize, ScopedInv, ValidBlobs, Holds, States, SaveBlob;
    ScopedInvHasBlobs(cfg, original, tree, s);
    var added := s.manifest.scoped + paths - s.manifest.scoped;
    var (captured, blobs) := Capture(cfg, tree, cfg.sorted(added), map[], 0, s.blobs, true);
    CaptureHolds(cfg, tree, cfg.sorted(added), map[], 0, s.blobs);
    MoreBlobsKeepScopedInv(cfg, original, tree, s, blobs);
    if captured.Ok? {
      assert PathSet(cfg.sorted(added)) == added == paths - s.manifest.scoped;
      CaptureIsStates(cfg, tree, cfg.sorted(added), map[], 0, s.blobs, true);
      assert map[] + States(cfg, tree, added) == States(cfg, tree, added);
      ExtendedStageKeepsScopedInv(cfg, original, tree, s, paths, blobs);
    }
  }

  lemma PrepareKeepsScopedInv(cfg: Config, original: Tree, tree: Tree, s: Stage, paths: set<Path>, effectLabel: string)
    requires cfg.InjectiveDigest() && cfg.SortsAll() && ScopedInv(cfg, original, tree, s)
    ensures var (s', result) := Prepare(cfg, tree, s, Some(paths), effectLabel);
            && ScopedInv(cfg, original, tree, s')
            && (result.Ok? ==> s'.manifest.scoped == s.manifest.scoped + paths)
            && (result.Err? ==> s'.manifest == s.manifest)
  {
    ProtectKeepsScopedInv(cfg, original, tree, s, paths);
  }

  lemma EffectKeepsScopedInv(cfg: Config, original: Tree, tree: Tree, s: Stage, e: CoveredEffect)
    requires cfg.InjectiveDigest() && cfg.SortsAll()
    requires ScopedInv(cfg, original, tree, s) && KeepsToItsPaths(tree, e)
    ensures var (tree', s') := RunEffect(cfg, tree, s, e);
            ScopedInv(cfg, original, tree', s')
  {
    PrepareKeepsScopedInv(cfg, original, tree, s, e.paths, "effect");
    var (prepared, result) := Prepare(cfg, tree, s, Some(e.paths), "effect");
    if result.Ok? {
      forall p | p !in prepared.manifest.scoped ensures SameAt(e.tree, original, p) {
        assert SameAt(e.tree, tree, p) && SameAt(tree, original, p);
      }
    }
  }

  lemma {:induction false} EffectsKeepScopedInv(cfg: Config, original: Tree, tree: Tree, s: Stage,
                                                effects: seq<CoveredEffect>)
    requires cfg.InjectiveDigest() && cfg.SortsAll()
    requires ScopedInv(cfg, original, tree, s) && UndisturbedRun(cfg, tree, s, effects)
    ensures var (tree', s') := RunEffects(cfg, tree, s, effects);
            ScopedInv(cfg, original, tree', s')
    decreases |effects|
  {
    if effects != [] {
      EffectKeepsScopedInv(cfg, original, tree, s, effects[0]);
      var (tree', s') := RunEffect(cfg, tree, s, effects[0]);
      EffectsKeepScopedInv(cfg, original, tree', s', effects[1..]);
    }
  }

  lemma ScopedRollbackFromInv(cfg: Config, original: Tree, tree: Tree, s: Stage, allowPartial: bool, busy: bool)
    requires cfg.SortsAll() && ScopedInv(cfg, original, tree, s)
    ensures var (tree', _, error) := Rollback(cfg, tree, s, allowPartial, busy);
            && tree' == (if error.None? then original else tree)
            && error == RollbackRefusal(cfg, tree, s, allowPartial, busy)
  {
    hide Rollback, Restored, HasBlobs;
    DescribedStageHasBlobs(cfg, s, original, s.manifest.scoped);
    RollbackCompletesIff(cfg, tree, s, allowPartial, busy);
    NoConflictMeansObserved(cfg, tree, s.manifest);
    var (tree', _, error) := Rollback(cfg, tree, s, allowPartial, busy);
    if error.None? {
      RestoredIsOriginal(cfg, s, original, tree, s.manifest.scoped);
      assert forall p :: SameAt(tree', original, p);
      SameTreeIff(tree', original);
    }
  }

  /** Rollback of a scoped stage gives back the whole original tree after any undisturbed run of
      covered effects, however they repeat, create or delete paths; a refusal changes nothing. */
  lemma ScopedRollbackRestoresWholeTree(cfg: Config, original: Tree, effects: seq<CoveredEffect>,
                                        allowPartial: bool, busy: bool)
    requires cfg.InjectiveDigest() && cfg.SortsAll()
    requires UndisturbedRun(cfg, original, EmptyStage(Scoped), effects)
    ensures var (tree, s) := RunEffects(cfg, original, EmptyStage(Scoped), effects);
            var (tree', _, error) := Rollback(cfg, tree, s, allowPartial, busy);
            tree' == if error.None? then original else tree
  {
    assert States(cfg, original, {}) == map[];
    EffectsKeepScopedInv(cfg, original, original, EmptyStage(Scoped), effects);
    var (tree, s) := RunEffects(cfg, original, EmptyStage(Scoped), effects);
    ScopedRollbackFromInv(cfg, original, tree, s, allowPartial, busy);
  }

  lemma SameTreeIff(tree: Tree, other: Tree)
    ensures tree == other <==> forall p :: SameAt(tree, other, p)
  {
    if forall p :: SameAt(tree, other, p) {
      forall p ensures p in tree <==> p in other { assert SameAt(tree, other, p); }
      assert tree.Keys == other.Keys;
      forall p | p in tree ensures tree[p] == other[p] { assert SameAt(tree, other, p); }
      assert tree == other;
    }
  }

  lemma FullRollbackWholeTreeIff(cfg: Config, original: Tree, w: Work)
    requires cfg.SortsAll() && FullInv(cfg, w, original)
    ensures var (tree, _, error) := Rollback(cfg, w.tree, w.stage, false, false);
            error.None? ==>
              (tree == original <==> forall p :: !cfg.listed(p) ==> SameAt(w.tree, original, p))
  {
    FullRollbackFromInv(cfg, original, w, false, false);
    var (tree, _, error) := Rollback(cfg, w.tree, w.stage, false, false);
    SameTreeIff(tree, original);
    if error.None? {
      assert forall p :: !cfg.listed(p) ==> SameAt(tree, w.tree, p);
      assert forall p :: cfg.listed(p) ==> SameAt(tree, original, p);
    }
  }

  /** Paths no effect names keep their original entry, so that condition holds whenever the effects
      name listed paths only. */
  lemma {:induction false} UnnamedPathsKeep(cfg: Config, tree: Tree, s: Stage, effects: seq<CoveredEffect>, p: Path)
    requires UndisturbedRun(cfg, tree, s, effects)
    requires forall i :: 0 <= i < |effects| ==> p !in effects[i].paths
    ensures SameAt(RunEffects(cfg, tree, s, effects).0, tree, p)
    decreases |effects|
  {
    if effects != [] {
      var (tree', s') := RunEffect(cfg, tree, s, effects[0]);
      assert SameAt(tree', tree, p) by {
        assert p !in effects[0].paths && SameAt(effects[0].tree, tree, p);
      }
      UnnamedPathsKeep(cfg, tree', s', effects[1..], p);
    }
  }

  // ---------- Scoped rollback goes through ----------

  /** No effect left the protected files too large to record. */
  predicate AllRecorded(cfg: Config, tree: Tree, s: Stage, effects: seq<CoveredEffect>)
    decreases |effects|
  {
    effects == [] ||
    (var (prepared, result) := Prepare(cfg, tree, s, Some(effects[0].paths), "effect");
     (result.Ok? ==> Record(cfg, effects[0].tree, prepared).1.None?)
     && var (tree', s') := RunEffect(cfg, tree, s, effects[0]);
        AllRecorded(cfg, tree', s', effects[1..]))
  }

  predicate Observed(cfg: Config, tree: Tree, s: Stage) {
    Look(cfg, tree, s.manifest.scoped) == Ok(s.manifest.observed)
  }

  lemma EffectKeepsObserved(cfg: Config, original: Tree, tree: Tree, s: Stage, e: CoveredEffect)
    requires cfg.InjectiveDigest() && cfg.SortsAll() && ScopedInv(cfg, original, tree, s)
    requires Observed(cfg, tree, s) && AllRecorded(cfg, tree, s, [e])
    ensures var (tree', s') := RunEffect(cfg, tree, s, e);
            Observed(cfg, tree', s')
  {
    hide Describes, SameAt, Capture, CheckConflicts, TotalSize;
    PrepareKeepsScopedInv(cfg, original, tree, s, e.paths, "effect");
  }

  lemma {:induction false} EffectsKeepObserved(cfg: Config, original: Tree, tree: Tree, s: Stage,
                                               effects: seq<CoveredEffect>)
    requires cfg.InjectiveDigest() && cfg.SortsAll()
    requires ScopedInv(cfg, original, tree, s) && UndisturbedRun(cfg, tree, s, effects)
    requires Observed(cfg, tree, s) && AllRecorded(cfg, tree, s, effects)
    ensures var (tree', s') := RunEffects(cfg, tree, s, effects);
            Observed(cfg, tree', s')
    decreases |effects|
  {
    if effects != [] {
      var e := effects[0];
      EffectKeepsScopedInv(cfg, original, tree, s, e);
      assert [e][0] == e;
      EffectKeepsObserved(cfg, original, tree, s, e);
      var (tree', s') := RunEffect(cfg, tree, s, e);
      EffectsKeepObserved(cfg, original, tree', s', effects[1..]);
    }
  }

  lemma ObservedPassesCheck(cfg: Config, original: Tree, tree: Tree, s: Stage)
    requires ScopedInv(cfg, original, tree, s) && Observed(cfg, tree, s)
    ensures RollbackRefusal(cfg, tree, s, false, false).None?
  {
    NoDifferencesIff(s.manifest.observed, s.manifest.observed);
  }

  lemma NonEmptyPathSet(paths: seq<Path>)
    requires paths != []
    ensures PathSet(paths) != {}
  {
    assert paths[0] in PathSet(paths);
  }

  /** An undisturbed run whose effects could all be recorded never meets a conflict: its rollback
      succeeds and restores the whole original tree. */
  lemma ScopedRollbackSucceeds(cfg: Config, original: Tree, effects: seq<CoveredEffect>)
    requires cfg.InjectiveDigest() && cfg.SortsAll()
    requires UndisturbedRun(cfg, original, EmptyStage(Scoped), effects)
    requires AllRecorded(cfg, original, EmptyStage(Scoped), effects)
    ensures var (tree, s) := RunEffects(cfg, original, EmptyStage(Scoped), effects);
            && Rollback(cfg, tree, s, false, false).2 == None
            && Rollback(cfg, tree, s, false, false).0 == original
  {
    assert States(cfg, original, {}) == map[];
    assert PathSet(cfg.sorted({})) == {};
    if cfg.sorted({}) != [] {
      NonEmptyPathSet(cfg.sorted({}));
    }
    EffectsKeepScopedInv(cfg, original, original, EmptyStage(Scoped), effects);
    EffectsKeepObserved(cfg, original, original, EmptyStage(Scoped), effects);
    var (tree, s) := RunEffects(cfg, original, EmptyStage(Scoped), effects);
    ScopedRollbackFromInv(cfg, original, tree, s, false, false);
    ObservedPassesCheck(cfg, original, tree, s);
  }

  // ---------- The two coverages side by side ----------

  /** Every effect could be prepared: its paths fit the file and byte limits. */
  predicate AllPrepared(cfg: Config, tree: Tree, s: Stage, effects: seq<CoveredEffect>)
    decreases |effects|
  {
    effects == [] ||
    (Prepare(cfg, tree, s, Some(effects[0].paths), "effect").1.Ok?
     && var (tree', s') := RunEffect(cfg, tree, s, effects[0]);
        AllPrepared(cfg, tree', s', effects[1..]))
  }

  /** The listed files an effect leaves fit the byte limit. */
  predicate Fits(cfg: Config, tree: Tree) {
    Look(cfg, tree, ListedPaths(cfg, tree)).Ok?
  }

  /** The same effects as a full stage sees them, each in a window of its own. */
  function Windows(effects: seq<CoveredEffect>): seq<Step> {
    if effects == [] then []
    else [OpenWindow(Some(effects[0].paths), "effect"), Effect(effects[0].tree), CloseWindow]
         + Windows(effects[1..])
  }

  /** Between windows, with an observed listing that is true of the tree. */
  ghost predicate UpToDate(cfg: Config, w: Work) {
    && w.stage.manifest.coverage.Full? && !w.open
    && Look(cfg, w.tree, ListedPaths(cfg, w.tree)) == Ok(w.stage.manifest.observed)
  }

  lemma WindowKeepsUpToDate(cfg: Config, w: Work, e: CoveredEffect)
    requires UpToDate(cfg, w) && Fits(cfg, e.tree)
    ensures var opened' := Next(cfg, w, OpenWindow(Some(e.paths), "effect"));
            var w' := Next(cfg, Next(cfg, opened', Effect(e.tree)), CloseWindow);
            UpToDate(cfg, w') && w'.tree == e.tree
  {
    NoDifferencesIff(w.stage.manifest.observed, w.stage.manifest.observed);
  }

  lemma RunThree(cfg: Config, w: Work, a: Step, b: Step, c: Step, rest: seq<Step>)
    ensures Run(cfg, w, [a, b, c] + rest) == Run(cfg, Next(cfg, Next(cfg, Next(cfg, w, a), b), c), rest)
  {
    var steps := [a, b, c] + rest;
    assert steps[1..] == [b, c] + rest && ([b, c] + rest)[1..] == [c] + rest && ([c] + rest)[1..] == rest;
    assert Run(cfg, w, steps) == Run(cfg, Next(cfg, w, a), [b, c] + rest);
    assert Run(cfg, Next(cfg, w, a), [b, c] + rest) == Run(cfg, Next(cfg, Next(cfg, w, a), b), [c] + rest);
  }

  lemma {:induction false} WindowsReachSameTree(cfg: Config, w: Work, s: Stage, effects: seq<CoveredEffect>)
    requires UpToDate(cfg, w) && forall i :: 0 <= i < |effects| ==> Fits(cfg, effects[i].tree)
    requires AllPrepared(cfg, w.tree, s, effects)
    ensures var full := Run(cfg, w, Windows(effects));
            UpToDate(cfg, full) && full.tree == RunEffects(cfg, w.tree, s, effects).0
    decreases |effects|
  {
    hide Fits, UpToDate, Prepare, Record;
    if effects != [] {
      var e := effects[0];
      WindowKeepsUpToDate(cfg, w, e);
      RunThree(cfg, w, OpenWindow(Some(e.paths), "effect"), Effect(e.tree), CloseWindow, Windows(effects[1..]));
      var w' := Next(cfg, Next(cfg, Next(cfg, w, OpenWindow(Some(e.paths), "effect")), Effect(e.tree)), CloseWindow);
      assert forall i :: 0 <= i < |effects[1..]| ==> effects[1..][i] == effects[i + 1];
      WindowsReachSameTree(cfg, w', RunEffect(cfg, w.tree, s, e).1, effects[1..]);
    }
  }

  /** Whether a capture fits the limits does not depend on the blobs. */
  lemma {:induction false} CaptureIgnoresBlobs(cfg: Config, tree: Tree, paths: seq<Path>, done: Listing, total: nat,
                                               blobs: Blobs, save: bool, blobs': Blobs, save': bool)
    ensures Capture(cfg, tree, paths, done, total, blobs, save).0
            == Capture(cfg, tree, paths, done, total, blobs', save').0
    decreases |paths|
  {
    if paths != [] {
      var p, rest := paths[0], paths[1..];
      if p !in tree {
        CaptureIgnoresBlobs(cfg, tree, rest, done, total, blobs, save, blobs', save');
      } else {
        var data := tree[p].bytes;
        CaptureIgnoresBlobs(cfg, tree, rest, done[p := StateOf(cfg, tree[p])], total + |data|,
                            if save then SaveBlob(cfg, blobs, data) else blobs, save,
                            if save' then SaveBlob(cfg, blobs', data) else blobs', save');
      }
    }
  }

  lemma CreatedIsUpToDate(cfg: Config, tree: Tree)
    requires CreateFull(cfg, tree).Ok?
    ensures UpToDate(cfg, Work(tree, CreateFull(cfg, tree).value, false, tree))
  {
    CaptureIgnoresBlobs(cfg, tree, cfg.sorted(ListedPaths(cfg, tree)), map[], 0, map[], true, map[], false);
  }

  /** The cheap stage agrees with the expensive one. Driven by the same undisturbed effects from the
      same tree, both reach the same tree and both roll back; the scoped stage gives back the original,
      and the full one the same tree exactly if no unlisted path was changed. */
  lemma ScopedAgreesWithFull(cfg: Config, original: Tree, effects: seq<CoveredEffect>)
    requires cfg.InjectiveDigest() && cfg.SortsAll() && CreateFull(cfg, original).Ok?
    requires UndisturbedRun(cfg, original, EmptyStage(Scoped), effects)
    requires AllPrepared(cfg, original, EmptyStage(Scoped), effects)
    requires AllRecorded(cfg, original, EmptyStage(Scoped), effects)
    requires forall i :: 0 <= i < |effects| ==> Fits(cfg, effects[i].tree)
    ensures var (tree, s) := RunEffects(cfg, original, EmptyStage(Scoped), effects);
            var start := Work(original, CreateFull(cfg, original).value, false, original);
            var full := Run(cfg, start, Windows(effects));
            var (cheap, _, cheapError) := Rollback(cfg, tree, s, false, false);
            var (whole, _, wholeError) := Rollback(cfg, full.tree, full.stage, false, false);
            && full.tree == tree
            && cheapError.None? && wholeError.None?
            && cheap == original
            && (whole == cheap <==> forall p :: !cfg.listed(p) ==> SameAt(tree, original, p))
  {
    hide Rollback, RunEffects, Run, CreateFull, FullInv, UndisturbedRun, AllPrepared, AllRecorded, Fits;
    var start := Work(original, CreateFull(cfg, original).value, false, original);
    var full := Run(cfg, start, Windows(effects));
    ScopedRollbackSucceeds(cfg, original, effects);
    CreatedIsUpToDate(cfg, original);
    WindowsReachSameTree(cfg, start, EmptyStage(Scoped), effects);
    CreateFullDescribes(cfg, original);
    FullRunKeepsInv(cfg, start, original, Windows(effects));
    FullRollbackFromInv(cfg, original, full, false, false);
    LookIsStates(cfg, full.tree, ListedPaths(cfg, full.tree));
    FullRollbackWholeTreeIff(cfg, original, full);
  }

  // ---------- Scoped coverage: any interleaving ----------

  function NewlyProtected(before: Stage, after: Stage): set<Path> {
    after.manifest.scoped - before.manifest.scoped
  }

  /** A run together with the entries each protected path had when it was first protected. */
  function RunFirst(cfg: Config, w: Work, first: Tree, steps: seq<Step>): (Work, Tree)
    decreases |steps|
  {
    if steps == [] then (w, first)
    else
      var next := Next(cfg, w, steps[0]);
      RunFirst(cfg, next, first + At(w.tree, NewlyProtected(w.stage, next.stage)), steps[1..])
  }

  function At(tree: Tree, paths: set<Path>): Tree {
    map p | p in paths && p in tree :: tree[p]
  }

  /** The stage describes exactly the entries at first protection. */
  ghost predicate FirstInv(cfg: Config, w: Work, first: Tree) {
    && w.stage.manifest.coverage.Scoped?
    && first.Keys <= w.stage.manifest.scoped
    && Describes(cfg, w.stage, first, w.stage.manifest.scoped)
  }

  lemma DescribesFirst(cfg: Config, s: Stage, first: Tree, tree: Tree, added: set<Path>)
    requires Describes(cfg, s, first, s.manifest.scoped) && first.Keys <= s.manifest.scoped
    requires added !! s.manifest.scoped
    ensures Describes(cfg, s, first + At(tree, added), s.manifest.scoped)
    ensures forall p :: p in added ==> SameAt(tree, first + At(tree, added), p)
    ensures (first + At(tree, added)).Keys <= s.manifest.scoped + added
  {
    var more := first + At(tree, added);
    assert forall p :: p in s.manifest.scoped ==> SameAt(more, first, p);
    assert States(cfg, more, s.manifest.scoped) == States(cfg, first, s.manifest.scoped);
  }

  lemma MoreBlobsDescribe(cfg: Config, s: Stage, first: Tree, blobs: Blobs)
    requires Describes(cfg, s, first, s.manifest.scoped) && ValidBlobs(cfg, blobs)
    requires forall d :: d in s.blobs ==> d in blobs && blobs[d] == s.blobs[d]
    ensures Describes(cfg, s.(blobs := blobs), first, s.manifest.scoped)
  {
  }

  lemma ExtendedStageKeepsFirst(cfg: Config, w: Work, first: Tree, paths: set<Path>, blobs: Blobs)
    requires FirstInv(cfg, w, first)
    requires var added := w.stage.manifest.scoped + paths - w.stage.manifest.scoped;
             ValidBlobs(cfg, blobs) && Holds(cfg, blobs, w.tree, added)
    requires forall d :: d in w.stage.blobs ==> d in blobs && blobs[d] == w.stage.blobs[d]
    ensures var m := w.stage.manifest;
            var added := States(cfg, w.tree, m.scoped + paths - m.scoped);
            var after := Stage(m.(baseline := m.baseline + added, observed := m.observed + added,
                                  scoped := m.scoped + paths), blobs);
            FirstInv(cfg, w.(stage := after), first + At(w.tree, NewlyProtected(w.stage, after)))
  {
    hide States, Holds, ValidBlobs;
    var s := w.stage;
    var added := s.manifest.scoped + paths - s.manifest.scoped;
    DescribesFirst(cfg, s, first, w.tree, added);
    FirstTouchExtends(cfg, first + At(w.tree, added), w.tree, s, added, blobs);
    assert s.manifest.scoped + added == s.manifest.scoped + paths;
  }

  lemma ProtectKeepsFirst(cfg: Config, w: Work, first: Tree, paths: set<Path>)
    requires cfg.InjectiveDigest() && cfg.SortsAll() && FirstInv(cfg, w, first)
    ensures var after := Protect(cfg, w.tree, w.stage, paths).0;
            var more := first + At(w.tree, NewlyProtected(w.stage, after));
            FirstInv(cfg, w.(stage := after), more)
  {
    hide Capture, TotalSize, States, Holds, ValidBlobs;
    var s := w.stage;
    var added := s.manifest.scoped + paths - s.manifest.scoped;
    var (captured, blobs) := Capture(cfg, w.tree, cfg.sorted(added), map[], 0, s.blobs, true);
    CaptureHolds(cfg, w.tree, cfg.sorted(added), map[], 0, s.blobs);
    MoreBlobsDescribe(cfg, s, first, blobs);
    assert first + At(w.tree, {}) == first;
    assert NewlyProtected(s, s) == NewlyProtected(s, s.(blobs := blobs)) == {};
    if captured.Ok? {
      assert PathSet(cfg.sorted(added)) == added;
      CaptureIsStates(cfg, w.tree, cfg.sorted(added), map[], 0, s.blobs, true);
      assert map[] + States(cfg, w.tree, added) == States(cfg, w.tree, added);
      ExtendedStageKeepsFirst(cfg, w, first, paths, blobs);
    }
  }

  lemma StepKeepsFirst(cfg: Config, w: Work, first: Tree, step: Step)
    requires cfg.InjectiveDigest() && cfg.SortsAll() && FirstInv(cfg, w, first)
    ensures var next := Next(cfg, w, step);
            FirstInv(cfg, next, first + At(w.tree, NewlyProtected(w.stage, next.stage)))
  {
    hide Protect, CheckConflicts, Look, ValidBlobs, Holds, States;
    assert first + At(w.tree, {}) == first;
    assert NewlyProtected(w.stage, w.stage) == {};
    if step.OpenWindow? && step.paths.Some? {
      ProtectKeepsFirst(cfg, w, first, step.paths.value);
    }
  }

  lemma {:induction false} RunKeepsFirst(cfg: Config, w: Work, first: Tree, steps: seq<Step>)
    requires cfg.InjectiveDigest() && cfg.SortsAll() && FirstInv(cfg, w, first)
    ensures var (after, more) := RunFirst(cfg, w, first, steps);
            after == Run(cfg, w, steps) && FirstInv(cfg, after, more)
    decreases |steps|
  {
    if steps != [] {
      hide Next, FirstInv;
      var next := Next(cfg, w, steps[0]);
      StepKeepsFirst(cfg, w, first, steps[0]);
      RunKeepsFirst(cfg, next, first + At(w.tree, NewlyProtected(w.stage, next.stage)), steps[1..]);
    }
  }

  lemma ScopedCheckPassesIff(cfg: Config, tree: Tree, s: Stage, allowPartial: bool, busy: bool)
    requires cfg.SortsAll() && s.manifest.coverage.Scoped?
    ensures RollbackRefusal(cfg, tree, s, allowPartial, busy).None? <==>
              && !busy && (s.manifest.uncovered == [] || allowPartial)
              && Look(cfg, tree, s.manifest.scoped).Ok?
              && s.manifest.observed == States(cfg, tree, s.manifest.scoped)
  {
    if Look(cfg, tree, s.manifest.scoped).Ok? {
      LookIsStates(cfg, tree, s.manifest.scoped);
      NoDifferencesIff(s.manifest.observed, Look(cfg, tree, s.manifest.scoped).value);
    }
  }

  /** The labels of the uncovered effects of a run, in order: windows that were opened without known paths
      while no other window was open. */
  function UncoveredLabels(cfg: Config, w: Work, steps: seq<Step>): seq<string>
    decreases |steps|
  {
    if steps == [] then []
    else
      (if steps[0].OpenWindow? && steps[0].paths.None? && !w.open then [steps[0].effectLabel] else [])
      + UncoveredLabels(cfg, Next(cfg, w, steps[0]), steps[1..])
  }

  /** All labels, or the first 255 and a mark for the rest. */
  function Noted(labels: seq<string>): seq<string> {
    if |labels| <= 256 then labels else labels[..255] + ["additional-uncovered-effects"]
  }

  lemma NotedOneMore(labels: seq<string>, more: string)
    ensures AddUncovered(Noted(labels), more) == Noted(labels + [more])
  {
    if |labels| >= 256 {
      assert (labels + [more])[..255] == labels[..255];
      assert Noted(labels)[..255] == labels[..255];
    }
  }

  lemma StepNotesUncovered(cfg: Config, w: Work, step: Step, labels: seq<string>)
    requires w.stage.manifest.coverage.Scoped? && w.stage.manifest.uncovered == Noted(labels)
    ensures var now := if step.OpenWindow? && step.paths.None? && !w.open then [step.effectLabel] else [];
            var after := Next(cfg, w, step).stage.manifest;
            after.coverage.Scoped? && after.uncovered == Noted(labels + now)
  {
    hide Capture, CheckConflicts, Look, Noted, AddUncovered;
    assert labels + [] == labels;
    if step.OpenWindow? { NotedOneMore(labels, step.effectLabel); }
  }

  /** A scoped stage notes exactly its uncovered effects, up to 256 of them by name. */
  lemma {:induction false} RunNotesUncovered(cfg: Config, w: Work, steps: seq<Step>, labels: seq<string>)
    requires w.stage.manifest.coverage.Scoped? && w.stage.manifest.uncovered == Noted(labels)
    ensures Run(cfg, w, steps).stage.manifest.uncovered == Noted(labels + UncoveredLabels(cfg, w, steps))
    decreases |steps|
  {
    if steps == [] {
      assert labels + [] == labels;
    } else {
      hide Next, Noted;
      var now := if steps[0].OpenWindow? && steps[0].paths.None? && !w.open then [steps[0].effectLabel] else [];
      StepNotesUncovered(cfg, w, steps[0], labels);
      RunNotesUncovered(cfg, Next(cfg, w, steps[0]), steps[1..], labels + now);
      assert labels + now + UncoveredLabels(cfg, Next(cfg, w, steps[0]), steps[1..])
             == labels + UncoveredLabels(cfg, w, steps);
    }
  }

  /** Over every run of a new scoped stage: all labels of the uncovered effects up to 256 of them, and beyond
      that the first 255 and a mark. */
  lemma StageNotesUncovered(cfg: Config, original: Tree, steps: seq<Step>)
    ensures var start := Work(original, EmptyStage(Scoped), false, original);
            var labels := UncoveredLabels(cfg, start, steps);
            var uncovered := Run(cfg, start, steps).stage.manifest.uncovered;
            && (uncovered == [] <==> labels == [])
            && (|labels| <= 256 ==> uncovered == labels)
            && (|labels| > 256 ==>
                  |uncovered| == 256 && uncovered[..255] == labels[..255]
                  && uncovered[255] == "additional-uncovered-effects")
  {
    var start := Work(original, EmptyStage(Scoped), false, original);
    RunNotesUncovered(cfg, start, steps, []);
    assert [] + UncoveredLabels(cfg, start, steps) == UncoveredLabels(cfg, start, steps);
  }

  /** Scoped rollback over any interleaving of outside edits, effects with and without known paths, and
      refused preparations. It succeeds if and only if nothing is running, no effect was uncovered or the
      caller accepts a partial one, the protected files fit the limits and are as last observed. Then
      every protected path has the entry it had when it was first protected and no other path is touched;
      a refusal changes nothing. */
  lemma ScopedRollbackIsExact(cfg: Config, original: Tree, steps: seq<Step>, allowPartial: bool, busy: bool)
    requires cfg.InjectiveDigest() && cfg.SortsAll()
    ensures var start := Work(original, EmptyStage(Scoped), false, original);
            var (w, first) := RunFirst(cfg, start, map[], steps);
            var (tree, stage, error) := Rollback(cfg, w.tree, w.stage, allowPartial, busy);
            var m := w.stage.manifest;
            && w == Run(cfg, start, steps)
            && (error.None? <==>
                  && !busy && (UncoveredLabels(cfg, start, steps) == [] || allowPartial)
                  && Look(cfg, w.tree, m.scoped).Ok?
                  && m.observed == States(cfg, w.tree, m.scoped))
            && (error.None? ==>
                  && (forall p :: p in m.scoped ==> SameAt(tree, first, p))
                  && (forall p :: p !in m.scoped ==> SameAt(tree, w.tree, p)))
            && (error.Some? ==> tree == w.tree && stage == w.stage)
  {
    hide Rollback, RollbackRefusal, Restored, HasBlobs, RunFirst, Run, Look, ValidBlobs, Holds, UncoveredLabels;
    StageNotesUncovered(cfg, original, steps);
    var start := Work(original, EmptyStage(Scoped), false, original);
    EmptyDescribes(cfg, start);
    RunKeepsFirst(cfg, start, map[], steps);
    var (w, first) := RunFirst(cfg, start, map[], steps);
    DescribedStageHasBlobs(cfg, w.stage, first, w.stage.manifest.scoped);
    RollbackCompletesIff(cfg, w.tree, w.stage, allowPartial, busy);
    ScopedCheckPassesIff(cfg, w.tree, w.stage, allowPartial, busy);
    if RollbackRefusal(cfg, w.tree, w.stage, allowPartial, busy).None? {
      RestoredIsOriginal(cfg, w.stage, first, w.tree, w.stage.manifest.scoped);
    }
  }

  lemma EmptyDescribes(cfg: Config, w: Work)
    requires w.stage == EmptyStage(Scoped)
    ensures FirstInv(cfg, w, map[])
  {
    assert States(cfg, map[], {}) == map[];
  }
}
