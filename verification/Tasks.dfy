/** Background execution sessions: watcher, stop, interrupt, write and close threads interleaved at the
    regions they lock. */
module Tasks {
  import opened Basics
  import opened Registry

  const MAX_RUNNING_TASKS: nat := 8
  const MAX_RETAINED_TASKS: nat := 32

  datatype Status = Running | Completed | Failed | Interrupted | Stopped

  datatype Record = Record(
    id: string,
    interactive: bool,
    status: Status,
    exitCode: Option<int>,
    stopRequested: bool,
    interruptRequested: bool)

  datatype Event = Event(serial: nat, status: Status)

  /** Every record ever made, by serial number. `table` lists the retained ones in insertion order,
      `pending` those that have ended but whose event is still to be appended, and `history` every
      event ever appended, drained or not. */
  datatype State = State(
    records: seq<Record>,
    table: seq<nat>,
    events: seq<Event>,
    history: seq<Event>,
    pending: set<nat>,
    closed: bool)

  const INITIAL := State([], [], [], [], {}, false)

  datatype StartError = Closed | TooManyRunning | RecordLimit | NoFreshId | SpawnFailed

  // ---------- Starting ----------

  predicate IsRunning(records: seq<Record>, serial: nat) {
    serial < |records| && records[serial].status == Running
  }

  function RunningSet(records: seq<Record>): set<nat> {
    set serial: nat | serial < |records| && records[serial].status == Running
  }

  predicate IdTaken(s: State, id: string) {
    exists i :: 0 <= i < |s.table| && s.table[i] < |s.records| && s.records[s.table[i]].id == id
  }

  function Emit(s: State, e: Event): State {
    s.(events := Push(s.events, e), history := s.history + [e])
  }

  /** Starting is one region. `id` is what the id factory found, if anything. */
  function Start(s: State, id: Option<string>, interactive: bool, spawned: bool): (State, Result<nat, StartError>) {
    if s.closed then (s, Err(Closed))
    else if LiveCount(RunningSet(s.records), s.table) >= MAX_RUNNING_TASKS then (s, Err(TooManyRunning))
    else
      var (table, room) := Evict(RunningSet(s.records), s.table, MAX_RETAINED_TASKS);
      var cleared := s.(table := table);
      if !room then (cleared, Err(RecordLimit))
      else
        if id.None? || id.value == "" || IdTaken(cleared, id.value) then (cleared, Err(NoFreshId))
        else if !spawned then (cleared, Err(SpawnFailed))
        else
          var serial := |s.records|;
          var record := Record(id.value, interactive, Running, None, false, false);
          (Emit(cleared.(records := s.records + [record], table := table + [serial]), Event(serial, Running)),
           Ok(serial))
  }

  // ---------- Ending ----------

  function Verdict(r: Record, exitCode: Option<int>, forced: bool): Status {
    if forced || r.stopRequested then Stopped
    else if r.interruptRequested && exitCode != Some(0) && exitCode.Some? then Interrupted
    else if exitCode == Some(0) then Completed
    else Failed
  }

  function Update(s: State, serial: nat, r: Record): State
    requires serial < |s.records|
  {
    s.(records := s.records[serial := r])
  }

  /** The first region of finishing: whoever comes first decides the status. */
  function Finish(s: State, serial: nat, exitCode: Option<int>, forced: bool): State {
    if !IsRunning(s.records, serial) then s
    else
      var r := s.records[serial];
      Update(s, serial, r.(status := Verdict(r, exitCode, forced), exitCode := exitCode))
      .(pending := s.pending + {serial})
  }

  /** The second region: the terminal event. */
  function Announce(s: State, serial: nat): State {
    if serial in s.pending && serial < |s.records|
    then Emit(s, Event(serial, s.records[serial].status)).(pending := s.pending - {serial})
    else s
  }

  datatype Step =
    | StartStep(id: Option<string>, interactive: bool, spawned: bool)
    | WatchStep(serial: nat, exitCode: Option<int>)
    | AnnounceStep(serial: nat)
    | RequestStop(serial: nat)
    | ForceStop(serial: nat, exitCode: Option<int>)
    | WriteStep(serial: nat)
    | InterruptStep(serial: nat)
    | CloseStep
    | DrainStep

  function Next(s: State, step: Step): State {
    match step
    case StartStep(id, interactive, spawned) => Start(s, id, interactive, spawned).0
    case WatchStep(serial, exitCode) => Finish(s, serial, exitCode, false)
    case AnnounceStep(serial) => Announce(s, serial)
    case RequestStop(serial) =>
      if IsRunning(s.records, serial) then Update(s, serial, s.records[serial].(stopRequested := true)) else s
    case ForceStop(serial, exitCode) =>
      if IsRunning(s.records, serial) && s.records[serial].stopRequested then Finish(s, serial, exitCode, true) else s
    case WriteStep(serial) =>
      if IsRunning(s.records, serial) && s.records[serial].interactive
      then Update(s, serial, s.records[serial].(interruptRequested := false)) else s
    case InterruptStep(serial) =>
      if IsRunning(s.records, serial) && s.records[serial].interactive
      then Update(s, serial, s.records[serial].(interruptRequested := true)) else s
    case CloseStep => s.(closed := true)
    case DrainStep => s.(events := [])
  }

  function Run(s: State, steps: seq<Step>): State
    decreases |steps|
  {
    if steps == [] then s else Run(Next(s, steps[0]), steps[1..])
  }

  // ---------- The mutable manager ----------

  class BackgroundTaskManager {
    var records: seq<Record>
    var table: seq<nat>
    var events: seq<Event>
    ghost var history: seq<Event>
    ghost var pending: set<nat>
    var closed: bool

    constructor ()
      ensures Value() == INITIAL
    {
      records, table, events, history, pending, closed := [], [], [], [], {}, false;
    }

    ghost function Value(): State
      reads this
    {
      State(records, table, events, history, pending, closed)
    }

    method AddEvent(e: Event)
      modifies this`events, this`history
      ensures Value() == Emit(old(Value()), e)
    {
      events := Push(events, e);
      history := history + [e];
    }

    method StartTask(id: Option<string>, interactive: bool, spawned: bool) returns (result: Result<nat, StartError>)
      modifies this
      ensures (Value(), result) == Start(old(Value()), id, interactive, spawned)
    {
      if closed {
        return Err(Closed);
      }
      var running := CountLive(RunningSet(records), table);
      if running >= MAX_RUNNING_TASKS {
        return Err(TooManyRunning);
      }
      var room;
      table, room := MakeRoom(RunningSet(records), table, MAX_RETAINED_TASKS);
      if !room {
        return Err(RecordLimit);
      }
      if id.None? || id.value == "" || IdTaken(State(records, table, events, [], {}, closed), id.value) {
        return Err(NoFreshId);
      }
      if !spawned {
        return Err(SpawnFailed);
      }
      var serial := |records|;
      records := records + [Record(id.value, interactive, Running, None, false, false)];
      table := table + [serial];
      AddEvent(Event(serial, Running));
      return Ok(serial);
    }

    /** The first region of finishing. `won` says that the second one is still to come. */
    method FinishRecord(serial: nat, exitCode: Option<int>, forced: bool) returns (won: bool)
      modifies this`records, this`pending
      ensures Value() == Finish(old(Value()), serial, exitCode, forced)
      ensures won <==> old(IsRunning(records, serial))
    {
      if !IsRunning(records, serial) {
        return false;
      }
      var r := records[serial];
      records := records[serial := r.(status := Verdict(r, exitCode, forced), exitCode := exitCode)];
      pending := pending + {serial};
      return true;
    }

    /** The one terminal event of a record shows the status it ended with, as the newest event; the
        record is announced no second time. */
    method AnnounceEnd(serial: nat)
      requires serial in pending && serial < |records|
      modifies this`events, this`history, this`pending
      ensures Value() == Announce(old(Value()), serial)
      ensures history == old(history) + [Event(serial, records[serial].status)]
      ensures events != [] && events[|events| - 1] == Event(serial, records[serial].status)
      ensures events[..|events| - 1] == Drop(old(events), if |old(events)| >= MAX_EVENTS then 1 else 0)
      ensures serial !in pending && pending + {serial} == old(pending)
    {
      AddEvent(Event(serial, records[serial].status));
      pending := pending - {serial};
    }

    /** A stop is only a request: it marks a running record and changes neither its status nor any
        other record. */
    method Stop(serial: nat)
      modifies this`records
      ensures Value() == Next(old(Value()), RequestStop(serial))
      ensures |records| == |old(records)|
      ensures forall i :: 0 <= i < |records| && i != serial ==> records[i] == old(records)[i]
      ensures serial < |records| ==>
                var was, now := old(records)[serial], records[serial];
                && (now.stopRequested <==> was.stopRequested || was.status == Running)
                && now.id == was.id && now.interactive == was.interactive && now.status == was.status
                && now.exitCode == was.exitCode && now.interruptRequested == was.interruptRequested
    {
      if IsRunning(records, serial) {
        records := records[serial := records[serial].(stopRequested := true)];
      }
    }

    method Write(serial: nat) returns (accepted: bool)
      modifies this`records
      ensures Value() == Next(old(Value()), WriteStep(serial))
      ensures accepted <==> old(IsRunning(records, serial) && records[serial].interactive)
      ensures accepted ==> records == old(records)[serial := old(records)[serial].(interruptRequested := false)]
      ensures !accepted ==> records == old(records)
    {
      accepted := IsRunning(records, serial) && records[serial].interactive;
      if accepted {
        records := records[serial := records[serial].(interruptRequested := false)];
      }
    }

    method Interrupt(serial: nat) returns (accepted: bool)
      modifies this`records
      ensures Value() == Next(old(Value()), InterruptStep(serial))
      ensures accepted <==> old(IsRunning(records, serial) && records[serial].interactive)
      ensures accepted ==> records == old(records)[serial := old(records)[serial].(interruptRequested := true)]
      ensures !accepted ==> records == old(records)
    {
      accepted := IsRunning(records, serial) && records[serial].interactive;
      if accepted {
        records := records[serial := records[serial].(interruptRequested := true)];
      }
    }
  }

  // ---------- Limits ----------

  /** At most 8 tasks run and 32 are retained; every running task is retained; a serial is listed once. */
  predicate Limits(s: State) {
    Within(RunningSet(s.records), s.table, |s.records|, MAX_RUNNING_TASKS, MAX_RETAINED_TASKS)
  }

  lemma UpdateKeepsLimits(s: State, serial: nat, r: Record)
    requires Limits(s) && serial < |s.records|
    requires r.status == Running ==> s.records[serial].status == Running
    ensures Limits(Update(s, serial, r))
  {
    ShrinkingKeepsWithin(RunningSet(s.records), RunningSet(Update(s, serial, r).records), s.table, |s.records|,
                         MAX_RUNNING_TASKS, MAX_RETAINED_TASKS);
  }

  lemma StartKeepsLimits(s: State, id: Option<string>, interactive: bool, spawned: bool)
    requires Limits(s)
    ensures Limits(Start(s, id, interactive, spawned).0)
    ensures Start(s, id, interactive, spawned).1 != Err(RecordLimit)
  {
    hide Within, Evict, LiveCount, IdTaken, Push;
    var live := RunningSet(s.records);
    EvictionKeepsWithin(live, s.table, |s.records|, MAX_RUNNING_TASKS, MAX_RETAINED_TASKS, MAX_RETAINED_TASKS);
    var (after, result) := Start(s, id, interactive, spawned);
    if result.Ok? {
      AddingKeepsWithin(live, Evict(live, s.table, MAX_RETAINED_TASKS).0, |s.records|, MAX_RUNNING_TASKS,
                        MAX_RETAINED_TASKS);
      assert RunningSet(after.records) == live + {|s.records|};
    }
  }

  lemma StepKeepsLimits(s: State, step: Step)
    requires Limits(s)
    ensures Limits(Next(s, step))
  {
    match step
    case StartStep(id, interactive, spawned) => StartKeepsLimits(s, id, interactive, spawned);
    case WatchStep(serial, exitCode) => FinishKeepsLimits(s, serial, exitCode, false);
    case ForceStop(serial, exitCode) => FinishKeepsLimits(s, serial, exitCode, true);
    case RequestStop(serial) =>
      if IsRunning(s.records, serial) { UpdateKeepsLimits(s, serial, s.records[serial].(stopRequested := true)); }
    case WriteStep(serial) =>
      if IsRunning(s.records, serial) { UpdateKeepsLimits(s, serial, s.records[serial].(interruptRequested := false)); }
    case InterruptStep(serial) =>
      if IsRunning(s.records, serial) { UpdateKeepsLimits(s, serial, s.records[serial].(interruptRequested := true)); }
    case AnnounceStep(_) =>
    case CloseStep =>
    case DrainStep =>
  }

  lemma FinishKeepsLimits(s: State, serial: nat, exitCode: Option<int>, forced: bool)
    requires Limits(s)
    ensures Limits(Finish(s, serial, exitCode, forced))
  {
    if IsRunning(s.records, serial) {
      var r := s.records[serial];
      UpdateKeepsLimits(s, serial, r.(status := Verdict(r, exitCode, forced), exitCode := exitCode));
    }
  }

  // ---------- One terminal event ----------

  function TerminalEvents(history: seq<Event>, serial: nat): nat {
    if history == [] then 0
    else TerminalEvents(history[..|history| - 1], serial) +
         (if history[|history| - 1].serial == serial && history[|history| - 1].status != Running then 1 else 0)
  }

  /** A task has ended once exactly if one terminal event is in the history or about to be. */
  predicate Accounted(s: State, serial: nat) {
    TerminalEvents(s.history, serial) + (if serial in s.pending then 1 else 0) ==
    (if serial < |s.records| && s.records[serial].status != Running then 1 else 0)
  }

  lemma EmitCounts(s: State, e: Event, serial: nat)
    ensures TerminalEvents(Emit(s, e).history, serial) ==
            TerminalEvents(s.history, serial) + (if e.serial == serial && e.status != Running then 1 else 0)
  {
    assert (s.history + [e])[..|s.history|] == s.history;
  }

  lemma StartKeepsAccounted(s: State, id: Option<string>, interactive: bool, spawned: bool, serial: nat)
    requires Accounted(s, serial)
    ensures Accounted(Start(s, id, interactive, spawned).0, serial)
  {
    hide Evict, LiveCount, IdTaken, Push;
    if Start(s, id, interactive, spawned).1.Ok? {
      EmitCounts(s, Event(|s.records|, Running), serial);
    }
  }

  lemma FinishKeepsAccounted(s: State, other: nat, exitCode: Option<int>, forced: bool, serial: nat)
    requires Accounted(s, serial)
    ensures Accounted(Finish(s, other, exitCode, forced), serial)
  {
  }

  lemma AnnounceKeepsAccounted(s: State, other: nat, serial: nat)
    requires Accounted(s, serial)
    ensures Accounted(Announce(s, other), serial)
  {
    hide Push;
    if other in s.pending && other < |s.records| {
      EmitCounts(s, Event(other, s.records[other].status), serial);
    }
  }

  lemma StepKeepsAccounted(s: State, step: Step, serial: nat)
    requires Accounted(s, serial)
    ensures Accounted(Next(s, step), serial)
  {
    hide Start, Finish, Announce;
    match step
    case StartStep(id, interactive, spawned) => StartKeepsAccounted(s, id, interactive, spawned, serial);
    case WatchStep(other, exitCode) => FinishKeepsAccounted(s, other, exitCode, false, serial);
    case ForceStop(other, exitCode) => FinishKeepsAccounted(s, other, exitCode, true, serial);
    case AnnounceStep(other) => AnnounceKeepsAccounted(s, other, serial);
    case _ =>
  }

  // ---------- Whole runs ----------

  /** How one step can change one record: not at all once it has ended, and never its id or kind. */
  predicate Evolves(before: Record, after: Record, interrupted: bool) {
    && (before.status != Running ==> after == before)
    && after.id == before.id && after.interactive == before.interactive
    && (before.stopRequested ==> after.stopRequested)
    && (!before.interruptRequested && !interrupted ==> !after.interruptRequested)
    && (after.status == Interrupted ==> before.status == Interrupted || before.interruptRequested)
  }

  lemma RecordEvolves(s: State, step: Step, serial: nat)
    requires serial < |s.records|
    ensures serial < |Next(s, step).records|
    ensures Evolves(s.records[serial], Next(s, step).records[serial], step == InterruptStep(serial))
  {
    hide Evict, LiveCount, IdTaken, Push;
  }

  /** An ended task stays as it ended. */
  lemma {:induction false} EndedStaysEnded(s: State, steps: seq<Step>, serial: nat)
    requires serial < |s.records| && s.records[serial].status != Running
    ensures serial < |Run(s, steps).records| && Run(s, steps).records[serial] == s.records[serial]
    decreases |steps|
  {
    if steps != [] {
      hide Next;
      RecordEvolves(s, steps[0], serial);
      EndedStaysEnded(Next(s, steps[0]), steps[1..], serial);
    }
  }

  lemma {:induction false} RunKeeps(s: State, steps: seq<Step>, serial: nat)
    requires Limits(s) && Accounted(s, serial)
    ensures Limits(Run(s, steps)) && Accounted(Run(s, steps), serial)
    decreases |steps|
  {
    if steps != [] {
      hide Limits, Next, Accounted;
      StepKeepsLimits(s, steps[0]);
      StepKeepsAccounted(s, steps[0], serial);
      RunKeeps(Next(s, steps[0]), steps[1..], serial);
    }
  }

  /** In every interleaving at most 8 tasks run and 32 records are retained, a running task is always
      retained, starting never meets the record limit, and a task that has ended has exactly one
      terminal event, appended or about to be. */
  lemma TaskLifecycle(steps: seq<Step>, serial: nat, id: Option<string>, interactive: bool, spawned: bool)
    ensures var s := Run(INITIAL, steps);
            && LiveCount(RunningSet(s.records), s.table) <= MAX_RUNNING_TASKS
            && |s.table| <= MAX_RETAINED_TASKS
            && (IsRunning(s.records, serial) ==> serial in s.table)
            && Start(s, id, interactive, spawned).1 != Err(RecordLimit)
            && TerminalEvents(s.history, serial) + (if serial in s.pending then 1 else 0) ==
               (if serial < |s.records| && s.records[serial].status != Running then 1 else 0)
  {
    RunKeeps(INITIAL, steps, serial);
    StartKeepsLimits(Run(INITIAL, steps), id, interactive, spawned);
  }

  /** After closing, no task is ever started again. */
  lemma {:induction false} ClosedStaysClosed(s: State, steps: seq<Step>)
    requires s.closed
    ensures Run(s, steps).closed && |Run(s, steps).records| == |s.records|
    decreases |steps|
  {
    if steps != [] {
      ClosedStaysClosed(Next(s, steps[0]), steps[1..]);
    }
  }

  /** An accepted input clears an earlier interrupt: without another interrupt the session does not end
      as interrupted. */
  lemma {:induction false} InputClearsInterrupt(s: State, steps: seq<Step>, serial: nat)
    requires serial < |s.records| && !s.records[serial].interruptRequested && s.records[serial].status != Interrupted
    requires forall i :: 0 <= i < |steps| ==> steps[i] != InterruptStep(serial)
    ensures serial < |Run(s, steps).records| && Run(s, steps).records[serial].status != Interrupted
    decreases |steps|
  {
    if steps != [] {
      hide Next;
      assert steps[0] != InterruptStep(serial);
      RecordEvolves(s, steps[0], serial);
      InputClearsInterrupt(Next(s, steps[0]), steps[1..], serial);
    }
  }

  /** The manager is closed exactly if it was asked to. */
  lemma {:induction false} ClosedIff(s: State, steps: seq<Step>)
    ensures Run(s, steps).closed <==> s.closed || CloseStep in steps
    decreases |steps|
  {
    if steps != [] {
      hide Evict, LiveCount, IdTaken, Push, Announce, Finish;
      ClosedIff(Next(s, steps[0]), steps[1..]);
      assert steps == [steps[0]] + steps[1..];
    }
  }

  /** When a task can be started: the manager is open, fewer than 8 tasks run, the id is not that of a
      record still retained once room was made, and the process starts. The one new record runs and is
      announced; a refusal leaves records and events as they were, and drops ended records from a full
      table only after the first two checks. */
  predicate Admits(s: State, id: Option<string>, interactive: bool, spawned: bool, wasClosed: bool, after: State,
                   result: Result<nat, StartError>) {
    var running := set serial | serial in s.table && IsRunning(s.records, serial);
    var free := id.Some? && id.value != "" &&
                forall t :: t in after.table && t < |s.records| ==> s.records[t].id != id.value;
    var admitted := !wasClosed && |running| < 8;
    && (result == Err(Closed) <==> wasClosed)
    && (result == Err(TooManyRunning) <==> !wasClosed && |running| >= 8)
    && (result.Ok? <==> admitted && free && spawned)
    && (result == Err(SpawnFailed) <==> admitted && free && !spawned)
    && |after.table| == (if admitted then Min(|s.table|, 31) else |s.table|) + (if result.Ok? then 1 else 0)
    && (result.Err? ==> after == s.(table := after.table))
    && (result.Ok? ==>
          && result.value == |s.records|
          && after.records == s.records + [Record(id.value, interactive, Running, None, false, false)]
          && |s.records| in after.table
          && after.history == s.history + [Event(|s.records|, Running)])
  }

  lemma StartAdmits(s: State, id: Option<string>, interactive: bool, spawned: bool)
    requires Limits(s)
    ensures var (after, result) := Start(s, id, interactive, spawned);
            Admits(s, id, interactive, spawned, s.closed, after, result)
  {
    hide Evict, LiveCount, Push;
    var live := RunningSet(s.records);
    var running := set serial | serial in s.table && IsRunning(s.records, serial);
    LiveCountIsSize(live, s.table, running);
    EvictionKeepsWithin(live, s.table, |s.records|, MAX_RUNNING_TASKS, MAX_RETAINED_TASKS, MAX_RETAINED_TASKS);
    EvictionSize(live, s.table, MAX_RETAINED_TASKS);
  }

  /** So in every reachable state. */
  lemma StartSucceedsIff(steps: seq<Step>, id: Option<string>, interactive: bool, spawned: bool)
    ensures var s := Run(INITIAL, steps);
            var (after, result) := Start(s, id, interactive, spawned);
            Admits(s, id, interactive, spawned, CloseStep in steps, after, result)
  {
    hide Admits, Start;
    RunKeeps(INITIAL, steps, 0);
    ClosedIff(INITIAL, steps);
    StartAdmits(Run(INITIAL, steps), id, interactive, spawned);
  }

  /** The events of a run since it was last drained, after `told` before it. */
  function Undrained(s: State, steps: seq<Step>, told: seq<Event>): seq<Event>
    decreases |steps|
  {
    if steps == [] then told
    else
      var next := Next(s, steps[0]);
      Undrained(next, steps[1..], if steps[0].DrainStep? then [] else told + Drop(next.history, |s.history|))
  }

  lemma QueueStep(s: State, step: Step, told: seq<Event>)
    requires s.events == Latest(told)
    ensures var next := Next(s, step);
            next.events == Latest(if step.DrainStep? then [] else told + Drop(next.history, |s.history|))
  {
    hide Evict, LiveCount, IdTaken, Push;
    var next := Next(s, step);
    if |next.history| == |s.history| + 1 {
      var e := next.history[|s.history|];
      PushIsLatest(told, e);
      assert Drop(next.history, |s.history|) == [e];
    } else {
      assert next.history == s.history;
      assert told + [] == told;
    }
  }

  /** In every run the queue holds the latest 64 of the events since it was last drained, in order. */
  lemma {:induction false} QueueHoldsLatest(s: State, steps: seq<Step>, told: seq<Event>)
    requires s.events == Latest(told)
    ensures Run(s, steps).events == Latest(Undrained(s, steps, told))
    decreases |steps|
  {
    if steps != [] {
      hide Next, Latest;
      var next := Next(s, steps[0]);
      QueueStep(s, steps[0], told);
      QueueHoldsLatest(next, steps[1..], if steps[0].DrainStep? then [] else told + Drop(next.history, |s.history|));
    }
  }

  // ---------- How a task ends ----------

  predicate StopAsked(steps: seq<Step>, serial: nat) {
    exists i :: 0 <= i < |steps| && steps[i] == RequestStop(serial)
  }

  /** Whether the last signal to the task was an interrupt, if there was an input or an interrupt. */
  function LastSignal(steps: seq<Step>, serial: nat): Option<bool> {
    if steps == [] then None
    else
      var last := steps[|steps| - 1];
      if last == InterruptStep(serial) then Some(true)
      else if last == WriteStep(serial) then Some(false)
      else LastSignal(steps[..|steps| - 1], serial)
  }

  lemma {:induction false} LastSignalCons(step: Step, rest: seq<Step>, serial: nat)
    ensures LastSignal([step] + rest, serial) ==
            match LastSignal(rest, serial)
            case Some(interrupt) => Some(interrupt)
            case None => LastSignal([step], serial)
    decreases |rest|
  {
    var all := [step] + rest;
    if rest == [] {
      assert all == [step];
    } else {
      assert all[..|all| - 1] == [step] + rest[..|rest| - 1];
      LastSignalCons(step, rest[..|rest| - 1], serial);
    }
  }

  /** What one step does to the requests noted for a task it leaves running. */
  lemma RequestStep(s: State, step: Step, serial: nat)
    requires IsRunning(s.records, serial) && IsRunning(Next(s, step).records, serial)
    ensures var was, now := s.records[serial], Next(s, step).records[serial];
            && now.interactive == was.interactive
            && (now.stopRequested <==> was.stopRequested || step == RequestStop(serial))
            && now.interruptRequested == if !was.interactive || LastSignal([step], serial).None?
                                         then was.interruptRequested else LastSignal([step], serial).value
  {
    hide Evict, LiveCount, IdTaken, Push;
    assert [step][..0] == [];
  }

  lemma {:induction false} RequestsSince(s: State, steps: seq<Step>, serial: nat)
    requires IsRunning(s.records, serial) && IsRunning(Run(s, steps).records, serial)
    ensures var was, now := s.records[serial], Run(s, steps).records[serial];
            && now.interactive == was.interactive
            && (now.stopRequested <==> was.stopRequested || StopAsked(steps, serial))
            && now.interruptRequested == if !was.interactive || LastSignal(steps, serial).None?
                                         then was.interruptRequested else LastSignal(steps, serial).value
    decreases |steps|
  {
    if steps != [] {
      hide Next, LastSignal;
      var next, rest := Next(s, steps[0]), steps[1..];
      RecordEvolves(s, steps[0], serial);
      if next.records[serial].status != Running {
        EndedStaysEnded(next, rest, serial);
      }
      RequestStep(s, steps[0], serial);
      RequestsSince(next, rest, serial);
      assert steps == [steps[0]] + rest;
      LastSignalCons(steps[0], rest, serial);
    }
  }

  /** How a task that was started, went through any steps of all threads and then exits has ended: stopped
      exactly if a stop was asked for meanwhile; else interrupted exactly if it is interactive, its last
      signal was an interrupt and it exits with an error; else completed exactly if it exits with zero.
      The exit code is kept in every case. */
  lemma TaskEndsAs(s: State, id: Option<string>, interactive: bool, steps: seq<Step>, exitCode: Option<int>)
    requires var (started, result) := Start(s, id, interactive, true);
             result.Ok? && IsRunning(Run(started, steps).records, result.value)
    ensures var (started, result) := Start(s, id, interactive, true);
            var serial := result.value;
            var ended := Next(Run(started, steps), WatchStep(serial, exitCode));
            var stop := StopAsked(steps, serial);
            var interrupt := interactive && LastSignal(steps, serial) == Some(true)
                             && exitCode.Some? && exitCode != Some(0);
            && serial < |ended.records|
            && var r := ended.records[serial];
            && r.exitCode == exitCode && serial in ended.pending
            && (r.status == Stopped <==> stop)
            && (r.status == Interrupted <==> !stop && interrupt)
            && (r.status == Completed <==> !stop && exitCode == Some(0))
            && (r.status == Failed <==> !stop && !interrupt && exitCode != Some(0))
  {
    hide Evict, LiveCount, IdTaken, Push, Run, LastSignal, StopAsked;
    var (started, result) := Start(s, id, interactive, true);
    RequestsSince(started, steps, result.value);
  }

  /** A task is killed only after a stop was asked for, and has then been stopped. */
  lemma ForceNeedsStop(s: State, serial: nat, exitCode: Option<int>)
    requires IsRunning(s.records, serial)
    ensures var after := Next(s, ForceStop(serial, exitCode));
            && (after.records[serial].status == Stopped <==> s.records[serial].stopRequested)
            && (!s.records[serial].stopRequested ==> after == s)
  {
  }
}
