/** Child Agents: start, follow-up, stop, close and the child threads interleaved at the regions they
    lock, with a generation number for each prompt. */
module Agents {
  import opened Basics
  import opened Registry

  const MAX_RUNNING_AGENTS: nat := 4
  const MAX_RETAINED_AGENTS: nat := 16

  datatype Status = Starting | Running | Stopping | Completed | Failed | Stopped

  predicate Active(status: Status) { status.Starting? || status.Running? || status.Stopping? }

  /** `begun` says that the thread of the current generation has passed its first region. */
  datatype Record = Record(id: string, status: Status, generation: nat, cancelled: bool, begun: bool)

  /** `turn` is the turn number the event shows; `generation` is the one it belongs to. */
  datatype Event = Event(serial: nat, generation: nat, turn: nat, status: Status)

  /** One prompt of one Agent. */
  datatype Prompt = Prompt(serial: nat, generation: nat)

  /** Every record ever made, by serial number. `table` lists the retained ones, `pending` the prompts
      that have ended but whose event is still to be appended, with the status they ended in, and
      `history` every event that stayed. */
  datatype State = State(
    records: seq<Record>,
    table: seq<nat>,
    events: seq<Event>,
    history: seq<Event>,
    pending: map<Prompt, Status>,
    closed: bool)

  const INITIAL := State([], [], [], [], map[], false)

  datatype AgentError =
    | Closed
    | TooManyRunning
    | RecordLimit
    | NoFreshId
    | NoWorkspace
    | LaunchFailed
    | Unknown
    | StillRunning

  function ActiveSet(records: seq<Record>): set<nat> {
    set serial: nat | serial < |records| && Active(records[serial].status)
  }

  function Capacity(s: State): Option<AgentError> {
    if s.closed then Some(Closed)
    else if LiveCount(ActiveSet(s.records), s.table) >= MAX_RUNNING_AGENTS then Some(TooManyRunning)
    else None
  }

  predicate IdTaken(s: State, id: string) {
    exists i :: 0 <= i < |s.table| && s.table[i] < |s.records| && s.records[s.table[i]].id == id
  }

  function Emit(s: State, e: Event): State {
    s.(events := Push(s.events, e), history := s.history + [e])
  }

  /** A start event that is taken back: a full queue has lost its oldest event all the same. */
  function Retract(s: State, e: Event): State {
    var pushed := Push(s.events, e);
    s.(events := pushed[..|pushed| - 1])
  }

  /** Starting is one region. `prepared` says that the isolated workspace, if one was asked for, was
      created, and `launched` that the thread started. */
  function Start(s: State, id: Option<string>, prepared: bool, launched: bool): (State, Result<nat, AgentError>) {
    if Capacity(s).Some? then (s, Err(Capacity(s).value))
    else
      var (table, room) := Evict(ActiveSet(s.records), s.table, MAX_RETAINED_AGENTS);
      var cleared := s.(table := table);
      if !room then (cleared, Err(RecordLimit))
      else if id.None? || id.value == "" || IdTaken(cleared, id.value) then (cleared, Err(NoFreshId))
      else if !prepared then (cleared, Err(NoWorkspace))
      else
        var serial := |s.records|;
        var e := Event(serial, 1, 1, Starting);
        if !launched then (Retract(cleared, e), Err(LaunchFailed))
        else
          var record := Record(id.value, Starting, 1, false, false);
          (Emit(cleared.(records := s.records + [record], table := table + [serial]), e), Ok(serial))
  }

  function Update(s: State, serial: nat, r: Record): State
    requires serial < |s.records|
  {
    s.(records := s.records[serial := r])
  }

  /** The region of a follow-up, for a record that was looked up before. */
  function Activate(s: State, serial: nat, prepared: bool, launched: bool): (State, Result<nat, AgentError>)
    requires serial < |s.records|
  {
    var r := s.records[serial];
    if Active(r.status) then (s, Err(StillRunning))
    else if Capacity(s).Some? then (s, Err(Capacity(s).value))
    else if !prepared then (s, Err(NoWorkspace))
    else
      var e := Event(serial, r.generation + 1, r.generation + 1, Starting);
      if !launched then (Retract(s, e), Err(LaunchFailed))
      else (Emit(Update(s, serial, Record(r.id, Starting, r.generation + 1, false, false)), e), Ok(r.generation + 1))
  }

  /** Lookup and region together. */
  function Followup(s: State, serial: nat, prepared: bool, launched: bool): (State, Result<nat, AgentError>) {
    if serial !in s.table || serial >= |s.records| then (s, Err(Unknown)) else Activate(s, serial, prepared, launched)
  }

  predicate Current(s: State, serial: nat, generation: nat) {
    serial < |s.records| && s.records[serial].generation == generation && Active(s.records[serial].status)
  }

  /** The guarded region that ends a generation; stale or ended generations are ignored. */
  function Finish(s: State, serial: nat, generation: nat, status: Status): State {
    if Current(s, serial, generation) && !Active(status)
    then
      Update(s, serial, s.records[serial].(status := status))
      .(pending := s.pending[Prompt(serial, generation) := status])
    else s
  }

  /** The terminal event carries the status of its generation but the record's present turn number. */
  function Announce(s: State, p: Prompt): State {
    if p in s.pending && p.serial < |s.records|
    then
      Emit(s, Event(p.serial, p.generation, s.records[p.serial].generation, s.pending[p]))
      .(pending := s.pending - {p})
    else s
  }

  /** The first region of the thread of one generation. */
  function Begin(s: State, serial: nat, generation: nat): State {
    if !Current(s, serial, generation) || s.records[serial].begun then s
    else
      var r := s.records[serial].(begun := true);
      if r.cancelled then Finish(Update(s, serial, r), serial, generation, Stopped)
      else Update(s, serial, r.(status := Running))
  }

  function Stop(s: State, serial: nat): State {
    if serial < |s.records| && Active(s.records[serial].status)
    then Update(s, serial, s.records[serial].(status := Stopping, cancelled := true)) else s
  }

  function StopAll(s: State, serials: seq<nat>): State
    decreases |serials|
  {
    if serials == [] then s else StopAll(Stop(s, serials[0]), serials[1..])
  }

  function Close(s: State): State {
    if s.closed then s else StopAll(s.(closed := true), s.table)
  }

  datatype Step =
    | StartStep(id: Option<string>, prepared: bool, launched: bool)
    | FollowupStep(serial: nat, prepared: bool, launched: bool)
    | BeginStep(serial: nat, generation: nat)
    | FinishStep(serial: nat, generation: nat, status: Status)
    | AnnounceStep(p: Prompt)
    | StopStep(serial: nat)
    | CloseStep
    | DrainStep

  function Next(s: State, step: Step): State {
    match step
    case StartStep(id, prepared, launched) => Start(s, id, prepared, launched).0
    case FollowupStep(serial, prepared, launched) => Followup(s, serial, prepared, launched).0
    case BeginStep(serial, generation) => Begin(s, serial, generation)
    case FinishStep(serial, generation, status) =>
      if Current(s, serial, generation) && s.records[serial].begun then Finish(s, serial, generation, status) else s
    case AnnounceStep(p) => Announce(s, p)
    case StopStep(serial) => Stop(s, serial)
    case CloseStep => Close(s)
    case DrainStep => s.(events := [])
  }

  function Run(s: State, steps: seq<Step>): State
    decreases |steps|
  {
    if steps == [] then s else Run(Next(s, steps[0]), steps[1..])
  }

  // ---------- The mutable manager ----------

  class AgentManager {
    var records: seq<Record>
    var table: seq<nat>
    var events: seq<Event>
    ghost var history: seq<Event>
    ghost var pending: map<Prompt, Status>
    var closed: bool

    constructor ()
      ensures Value() == INITIAL
    {
      records, table, events, history, pending, closed := [], [], [], [], map[], false;
    }

    ghost function Value(): State
      reads this
    {
      State(records, table, events, history, pending, closed)
    }

    method RequireCapacity() returns (error: Option<AgentError>)
      ensures error == Capacity(Value())
    {
      if closed {
        return Some(Closed);
      }
      var running := CountLive(ActiveSet(records), table);
      return if running >= MAX_RUNNING_AGENTS then Some(TooManyRunning) else None;
    }

    method StartAgent(id: Option<string>, prepared: bool, launched: bool) returns (result: Result<nat, AgentError>)
      modifies this
      ensures (Value(), result) == Start(old(Value()), id, prepared, launched)
    {
      var error := RequireCapacity();
      if error.Some? {
        return Err(error.value);
      }
      var room;
      table, room := MakeRoom(ActiveSet(records), table, MAX_RETAINED_AGENTS);
      if !room {
        return Err(RecordLimit);
      }
      if id.None? || id.value == "" || IdTaken(State(records, table, events, [], map[], closed), id.value) {
        return Err(NoFreshId);
      }
      if !prepared {
        return Err(NoWorkspace);
      }
      var serial := |records|;
      events := Push(events, Event(serial, 1, 1, Starting));
      if !launched {
        events := events[..|events| - 1];
        return Err(LaunchFailed);
      }
      records := records + [Record(id.value, Starting, 1, false, false)];
      table := table + [serial];
      history := history + [Event(serial, 1, 1, Starting)];
      return Ok(serial);
    }

    /** The record is changed first and put back when the thread does not start. */
    method FollowUp(serial: nat, prepared: bool, launched: bool) returns (result: Result<nat, AgentError>)
      modifies this
      ensures (Value(), result) == Followup(old(Value()), serial, prepared, launched)
    {
      if serial !in table || serial >= |records| {
        return Err(Unknown);
      }
      var previous := records[serial];
      if Active(previous.status) {
        return Err(StillRunning);
      }
      var error := RequireCapacity();
      if error.Some? {
        return Err(error.value);
      }
      if !prepared {
        return Err(NoWorkspace);
      }
      var e := Event(serial, previous.generation + 1, previous.generation + 1, Starting);
      records := records[serial := Record(previous.id, Starting, previous.generation + 1, false, false)];
      events := Push(events, e);
      if !launched {
        records := records[serial := previous];
        assert records == old(records);
        events := events[..|events| - 1];
        return Err(LaunchFailed);
      }
      history := history + [e];
      return Ok(previous.generation + 1);
    }

    method FinishGeneration(serial: nat, generation: nat, status: Status) returns (won: bool)
      requires !Active(status)
      modifies this`records, this`pending
      ensures Value() == Finish(old(Value()), serial, generation, status)
      ensures won == old(serial < |records| && records[serial].generation == generation
                         && Active(records[serial].status))
    {
      if serial >= |records| || records[serial].generation != generation || !Active(records[serial].status) {
        return false;
      }
      records := records[serial := records[serial].(status := status)];
      pending := pending[Prompt(serial, generation) := status];
      return true;
    }

    /** The first region of the thread of one generation, which every thread passes once; `go` says
        that the child is to run. A thread whose generation is over returns at once. */
    method BeginGeneration(serial: nat, generation: nat) returns (go: bool)
      requires serial < |records|
      requires records[serial].generation == generation ==> Active(records[serial].status) && !records[serial].begun
      modifies this`records, this`pending
      ensures Value() == Begin(old(Value()), serial, generation)
      ensures go <==> old(records[serial].generation == generation && !records[serial].cancelled)
      ensures go ==> records[serial].status == Running
      ensures !go && records[serial].generation == generation ==>
                records[serial].status == Stopped && Prompt(serial, generation) in pending
    {
      if records[serial].generation != generation {
        return false;
      }
      records := records[serial := records[serial].(begun := true)];
      if records[serial].cancelled {
        var won := FinishGeneration(serial, generation, Stopped);
        return false;
      }
      records := records[serial := records[serial].(status := Running)];
      return true;
    }

    /** A stop is only a request: the record keeps its generation and its place in the table until the
        thread ends it. */
    method StopAgent(serial: nat)
      modifies this`records
      ensures Value() == Stop(old(Value()), serial)
      ensures |records| == |old(records)|
      ensures forall i :: 0 <= i < |records| && i != serial ==> records[i] == old(records)[i]
      ensures serial < |records| ==>
                var before := old(records)[serial];
                if !Active(before.status) then records[serial] == before
                else records[serial] == Record(before.id, Stopping, before.generation, true, before.begun)
    {
      if serial < |records| && Active(records[serial].status) {
        records := records[serial := records[serial].(status := Stopping, cancelled := true)];
      }
    }

    /** The loop over all retained records under the manager's lock. */
    method CloseAll()
      modifies this`records, this`closed
      ensures Value() == Close(old(Value()))
    {
      if closed {
        return;
      }
      closed := true;
      var i := 0;
      assert table[0..] == table;
      while i < |table|
        invariant 0 <= i <= |table| && closed
        invariant StopAll(Value(), table[i..]) == StopAll(old(Value()).(closed := true), old(table))
      {
        assert table[i..][1..] == table[i + 1..];
        StopAgent(table[i]);
        i := i + 1;
      }
    }
  }

  // ---------- Limits ----------

  /** At most 4 Agents are active and 16 retained; every active Agent is retained, once. */
  predicate Limits(s: State) {
    Within(ActiveSet(s.records), s.table, |s.records|, MAX_RUNNING_AGENTS, MAX_RETAINED_AGENTS)
  }

  lemma UpdateKeepsLimits(s: State, serial: nat, r: Record)
    requires Limits(s) && serial < |s.records|
    requires Active(r.status) ==> Active(s.records[serial].status)
    ensures Limits(Update(s, serial, r))
  {
    ShrinkingKeepsWithin(ActiveSet(s.records), ActiveSet(Update(s, serial, r).records), s.table, |s.records|,
                         MAX_RUNNING_AGENTS, MAX_RETAINED_AGENTS);
  }

  lemma StartKeepsLimits(s: State, id: Option<string>, prepared: bool, launched: bool)
    requires Limits(s)
    ensures Limits(Start(s, id, prepared, launched).0)
    ensures Start(s, id, prepared, launched).1 != Err(RecordLimit)
  {
    hide Within, Evict, LiveCount, IdTaken, Push;
    var live := ActiveSet(s.records);
    EvictionKeepsWithin(live, s.table, |s.records|, MAX_RUNNING_AGENTS, MAX_RETAINED_AGENTS, MAX_RETAINED_AGENTS);
    var (after, result) := Start(s, id, prepared, launched);
    if result.Ok? {
      AddingKeepsWithin(live, Evict(live, s.table, MAX_RETAINED_AGENTS).0, |s.records|, MAX_RUNNING_AGENTS,
                        MAX_RETAINED_AGENTS);
      assert ActiveSet(after.records) == live + {|s.records|};
    }
  }

  /** Activating a looked-up record keeps the limits exactly when one of the checks stops it or the
      record is still retained: lookup and activation must not be separated by an eviction. */
  lemma ActivateKeepsLimitsIff(s: State, serial: nat, prepared: bool, launched: bool)
    requires Limits(s) && serial < |s.records|
    ensures Limits(Activate(s, serial, prepared, launched).0) <==>
            || Active(s.records[serial].status) || s.closed
            || LiveCount(ActiveSet(s.records), s.table) >= MAX_RUNNING_AGENTS
            || !prepared || !launched
            || serial in s.table
  {
    hide LiveCount, Push;
    var live := ActiveSet(s.records);
    var (after, result) := Activate(s, serial, prepared, launched);
    if result.Ok? {
      assert ActiveSet(after.records) == live + {serial};
      if serial in s.table {
        hide Within;
        RevivingKeepsWithin(live, s.table, |s.records|, MAX_RUNNING_AGENTS, MAX_RETAINED_AGENTS, serial);
      } else {
        assert serial in ActiveSet(after.records);
      }
    }
  }

  // ---------- An activation that escapes ----------

  function LongId(n: nat): string { seq(n + 1, i => 'a') }

  /** Agent number `n` is started, runs and completes. */
  function Round(n: nat): seq<Step> {
    [StartStep(Some(LongId(n)), true, true), BeginStep(n, 1), FinishStep(n, 1, Completed)]
  }

  function Rounds(n: nat): seq<Step> { if n == 0 then [] else Rounds(n - 1) + Round(n - 1) }

  function Numbers(from: nat, to: nat): seq<nat>
    requires from <= to
  {
    seq(to - from, i requires 0 <= i < to - from => from + i)
  }

  /** `n` Agents have completed and the newest of them, 16 at most, are retained. */
  predicate Idle(s: State, n: nat) {
    && |s.records| == n && !s.closed
    && (forall i :: 0 <= i < n ==> s.records[i] == Record(LongId(i), Completed, 1, false, true))
    && s.table == Numbers(Max(0, n - MAX_RETAINED_AGENTS), n)
  }

  lemma {:induction false} NoneLive(table: seq<nat>)
    ensures LiveCount({}, table) == 0
  {
    if table != [] { NoneLive(table[..|table| - 1]); }
  }

  lemma EvictOldest(n: nat)
    ensures var first := Max(0, n - MAX_RETAINED_AGENTS);
            Evict({}, Numbers(first, n), MAX_RETAINED_AGENTS) == (Numbers(Max(0, n + 1 - MAX_RETAINED_AGENTS), n), true)
  {
    var table := Numbers(Max(0, n - MAX_RETAINED_AGENTS), n);
    if |table| == MAX_RETAINED_AGENTS {
      assert FirstEnded({}, table) == Some(0);
      assert RemoveAt(table, 0) == Numbers(n + 1 - MAX_RETAINED_AGENTS, n);
    }
  }

  lemma StartFromIdle(s: State, n: nat)
    requires Idle(s, n)
    ensures var after := Next(s, StartStep(Some(LongId(n)), true, true));
            && after.records == s.records + [Record(LongId(n), Starting, 1, false, false)] && !after.closed
            && after.table == Numbers(Max(0, n + 1 - MAX_RETAINED_AGENTS), n + 1)
  {
    hide Push;
    assert ActiveSet(s.records) == {};
    NoneLive(s.table);
    EvictOldest(n);
    var kept := Numbers(Max(0, n + 1 - MAX_RETAINED_AGENTS), n);
    assert |LongId(n)| == n + 1;
    forall i | 0 <= i < |kept| ensures s.records[kept[i]].id != LongId(n) {
      assert |LongId(kept[i])| == kept[i] + 1 < n + 1;
    }
    assert kept + [n] == Numbers(Max(0, n + 1 - MAX_RETAINED_AGENTS), n + 1);
  }

  lemma RunThree(s: State, a: Step, b: Step, c: Step)
    ensures Run(s, [a, b, c]) == Next(Next(Next(s, a), b), c)
  {
    hide Next;
    assert [a, b, c][1..] == [b, c] && [b, c][1..] == [c] && [c][1..] == [];
    assert Run(s, [a, b, c]) == Run(Next(s, a), [b, c]) == Run(Next(Next(s, a), b), [c]);
  }

  lemma RoundKeepsIdle(s: State, n: nat)
    requires Idle(s, n)
    ensures Idle(Run(s, Round(n)), n + 1)
  {
    hide Start, Push, Run, StopAll, Activate, LongId, Numbers;
    StartFromIdle(s, n);
    var steps := Round(n);
    var started := Next(s, steps[0]);
    var running := Next(started, steps[1]);
    assert running.records == s.records + [Record(LongId(n), Running, 1, false, true)];
    var ended := Next(running, steps[2]);
    assert ended.records == s.records + [Record(LongId(n), Completed, 1, false, true)];
    RunThree(s, steps[0], steps[1], steps[2]);
  }

  lemma {:induction false} RunInTwo(s: State, a: seq<Step>, b: seq<Step>)
    ensures Run(s, a + b) == Run(Run(s, a), b)
    decreases |a|
  {
    if a == [] {
      assert a + b == b;
    } else {
      assert (a + b)[1..] == a[1..] + b;
      RunInTwo(Next(s, a[0]), a[1..], b);
    }
  }

  lemma {:induction false} RoundsLeaveIdle(n: nat)
    ensures Idle(Run(INITIAL, Rounds(n)), n)
  {
    if n > 0 {
      RoundsLeaveIdle(n - 1);
      RunInTwo(INITIAL, Rounds(n - 1), Round(n - 1));
      RoundKeepsIdle(Run(INITIAL, Rounds(n - 1)), n - 1);
    }
  }

  lemma FirstOfSeventeenEscapes(s: State)
    requires Idle(s, 17) && Limits(s)
    ensures 0 < |s.records| && !Active(s.records[0].status) && 0 !in s.table
    ensures Activate(s, 0, true, true).1.Ok? && !Limits(Activate(s, 0, true, true).0)
  {
    hide Limits, Push;
    assert ActiveSet(s.records) == {};
    NoneLive(s.table);
    assert s.table == Numbers(1, 17);
    ActivateKeepsLimitsIff(s, 0, true, true);
  }

  /** The witness: after seventeen Agents have come and gone the first is no longer retained. Whoever
      had looked it up before can activate it, and then an active Agent is in no table. */
  lemma EvictedAgentCanBeActivated()
    ensures var s := Run(INITIAL, Rounds(17));
            && Limits(s) && 0 < |s.records| && !Active(s.records[0].status) && 0 !in s.table
            && Activate(s, 0, true, true).1.Ok?
            && !Limits(Activate(s, 0, true, true).0)
  {
    hide Run, Rounds, Idle, Activate;
    RoundsLeaveIdle(17);
    assert Limits(INITIAL);
    RunKeeps(INITIAL, Rounds(17));
    FirstOfSeventeenEscapes(Run(INITIAL, Rounds(17)));
  }

  lemma {:induction false} StopAllKeepsLimits(s: State, serials: seq<nat>)
    requires Limits(s)
    ensures Limits(StopAll(s, serials))
    decreases |serials|
  {
    if serials != [] {
      StopKeepsLimits(s, serials[0]);
      StopAllKeepsLimits(Stop(s, serials[0]), serials[1..]);
    }
  }

  lemma StopKeepsLimits(s: State, serial: nat)
    requires Limits(s)
    ensures Limits(Stop(s, serial))
  {
    if serial < |s.records| && Active(s.records[serial].status) {
      UpdateKeepsLimits(s, serial, s.records[serial].(status := Stopping, cancelled := true));
    }
  }

  lemma FinishKeepsLimits(s: State, serial: nat, generation: nat, status: Status)
    requires Limits(s)
    ensures Limits(Finish(s, serial, generation, status))
  {
    if Current(s, serial, generation) && !Active(status) {
      UpdateKeepsLimits(s, serial, s.records[serial].(status := status));
    }
  }

  lemma BeginKeepsLimits(s: State, serial: nat, generation: nat)
    requires Limits(s)
    ensures Limits(Begin(s, serial, generation))
  {
    hide Within;
    if Current(s, serial, generation) && !s.records[serial].begun {
      var r := s.records[serial].(begun := true);
      UpdateKeepsLimits(s, serial, r);
      FinishKeepsLimits(Update(s, serial, r), serial, generation, Stopped);
      UpdateKeepsLimits(s, serial, r.(status := Running));
    }
  }

  lemma StepKeepsLimits(s: State, step: Step)
    requires Limits(s)
    ensures Limits(Next(s, step))
  {
    hide Within, Start, Activate, Begin, Finish, Stop, Push;
    match step
    case StartStep(id, prepared, launched) => StartKeepsLimits(s, id, prepared, launched);
    case FollowupStep(serial, prepared, launched) =>
      if serial in s.table && serial < |s.records| { ActivateKeepsLimitsIff(s, serial, prepared, launched); }
    case BeginStep(serial, generation) => BeginKeepsLimits(s, serial, generation);
    case FinishStep(serial, generation, status) => FinishKeepsLimits(s, serial, generation, status);
    case StopStep(serial) => StopKeepsLimits(s, serial);
    case CloseStep => StopAllKeepsLimits(s.(closed := true), s.table);
    case AnnounceStep(_) =>
    case DrainStep =>
  }

  // ---------- One terminal event for each generation ----------

  function TerminalEvents(history: seq<Event>, p: Prompt): nat {
    if history == [] then 0
    else
      var last := history[|history| - 1];
      TerminalEvents(history[..|history| - 1], p) +
      (if last.serial == p.serial && last.generation == p.generation && !Active(last.status) then 1 else 0)
  }

  predicate Ended(s: State, p: Prompt) {
    && p.serial < |s.records| && 1 <= p.generation
    && (p.generation < s.records[p.serial].generation
        || (p.generation == s.records[p.serial].generation && !Active(s.records[p.serial].status)))
  }

  /** A generation has ended once exactly if one terminal event is in the history or about to be. */
  predicate Accounted(s: State, p: Prompt) {
    && TerminalEvents(s.history, p) + (if p in s.pending then 1 else 0) == (if Ended(s, p) then 1 else 0)
    && (p.serial < |s.records| ==> 1 <= s.records[p.serial].generation)
    && (p in s.pending ==> !Active(s.pending[p]))
  }

  lemma EmitCounts(s: State, e: Event, p: Prompt)
    ensures TerminalEvents(Emit(s, e).history, p) ==
            TerminalEvents(s.history, p) +
            (if e.serial == p.serial && e.generation == p.generation && !Active(e.status) then 1 else 0)
  {
    assert (s.history + [e])[..|s.history|] == s.history;
  }

  lemma StartKeepsAccounted(s: State, id: Option<string>, prepared: bool, launched: bool, p: Prompt)
    requires Accounted(s, p)
    ensures Accounted(Start(s, id, prepared, launched).0, p)
  {
    hide Evict, LiveCount, IdTaken, Push;
    var (after, result) := Start(s, id, prepared, launched);
    if result.Ok? {
      hide TerminalEvents;
      EmitCounts(s, Event(|s.records|, 1, 1, Starting), p);
    } else {
      assert after.history == s.history && after.records == s.records && after.pending == s.pending;
    }
  }

  lemma FollowupKeepsAccounted(s: State, serial: nat, prepared: bool, launched: bool, p: Prompt)
    requires Accounted(s, p)
    ensures Accounted(Followup(s, serial, prepared, launched).0, p)
  {
    hide LiveCount, Push;
    if serial < |s.records| {
      hide TerminalEvents;
      var turn := s.records[serial].generation + 1;
      EmitCounts(s, Event(serial, turn, turn, Starting), p);
    }
  }

  lemma FinishKeepsAccounted(s: State, serial: nat, generation: nat, status: Status, p: Prompt)
    requires Accounted(s, p)
    ensures Accounted(Finish(s, serial, generation, status), p)
  {
  }

  lemma BeginKeepsAccounted(s: State, serial: nat, generation: nat, p: Prompt)
    requires Accounted(s, p)
    ensures Accounted(Begin(s, serial, generation), p)
  {
    if Current(s, serial, generation) && !s.records[serial].begun {
      FinishKeepsAccounted(Update(s, serial, s.records[serial].(begun := true)), serial, generation, Stopped, p);
    }
  }

  lemma AnnounceKeepsAccounted(s: State, announced: Prompt, p: Prompt)
    requires Accounted(s, p) && Accounted(s, announced)
    ensures Accounted(Announce(s, announced), p)
  {
    hide Push;
    if announced in s.pending && announced.serial < |s.records| {
      hide TerminalEvents;
      EmitCounts(s, Event(announced.serial, announced.generation, s.records[announced.serial].generation,
                          s.pending[announced]), p);
    }
  }

  lemma StopKeepsAccounted(s: State, serial: nat, p: Prompt)
    requires Accounted(s, p)
    ensures Accounted(Stop(s, serial), p)
  {
    hide TerminalEvents;
  }

  lemma {:induction false} StopAllKeepsAccounted(s: State, serials: seq<nat>, p: Prompt)
    requires Accounted(s, p)
    ensures Accounted(StopAll(s, serials), p)
    decreases |serials|
  {
    hide Stop, Accounted;
    if serials != [] {
      StopKeepsAccounted(s, serials[0], p);
      StopAllKeepsAccounted(Stop(s, serials[0]), serials[1..], p);
    }
  }

  ghost predicate AllAccounted(s: State) { forall p :: Accounted(s, p) }

  lemma StepKeepsAccounted(s: State, step: Step, p: Prompt)
    requires AllAccounted(s)
    ensures Accounted(Next(s, step), p)
  {
    assert Accounted(s, p);
    hide Start, Followup, Begin, Finish, Stop, Announce, StopAll, AllAccounted, TerminalEvents, Ended;
    match step
    case StartStep(id, prepared, launched) => StartKeepsAccounted(s, id, prepared, launched, p);
    case FollowupStep(serial, prepared, launched) => FollowupKeepsAccounted(s, serial, prepared, launched, p);
    case BeginStep(serial, generation) => BeginKeepsAccounted(s, serial, generation, p);
    case FinishStep(serial, generation, status) => FinishKeepsAccounted(s, serial, generation, status, p);
    case AnnounceStep(announced) =>
      AccountedInstance(s, announced);
      AnnounceKeepsAccounted(s, announced, p);
    case StopStep(serial) => StopKeepsAccounted(s, serial, p);
    case CloseStep => StopAllKeepsAccounted(s.(closed := true), s.table, p);
    case DrainStep =>
  }

  lemma AccountedInstance(s: State, p: Prompt)
    requires AllAccounted(s)
    ensures Accounted(s, p)
  {
  }

  // ---------- Whole runs ----------

  lemma {:induction false} RunKeeps(s: State, steps: seq<Step>)
    requires Limits(s) && AllAccounted(s)
    ensures Limits(Run(s, steps)) && AllAccounted(Run(s, steps))
    decreases |steps|
  {
    if steps != [] {
      hide Limits, Next, Accounted;
      StepKeepsLimits(s, steps[0]);
      forall p ensures Accounted(Next(s, steps[0]), p) {
        StepKeepsAccounted(s, steps[0], p);
      }
      RunKeeps(Next(s, steps[0]), steps[1..]);
    }
  }

  /** In every interleaving at most 4 Agents are active and 16 records retained, an active Agent is
      always retained, starting never meets the record limit, and every generation that has ended has
      exactly one terminal event, appended or about to be. */
  lemma AgentLifecycle(steps: seq<Step>, p: Prompt, id: Option<string>, prepared: bool, launched: bool)
    ensures var s := Run(INITIAL, steps);
            && LiveCount(ActiveSet(s.records), s.table) <= MAX_RUNNING_AGENTS
            && |s.table| <= MAX_RETAINED_AGENTS
            && (p.serial in ActiveSet(s.records) ==> p.serial in s.table)
            && Start(s, id, prepared, launched).1 != Err(RecordLimit)
            && TerminalEvents(s.history, p) + (if p in s.pending then 1 else 0) == (if Ended(s, p) then 1 else 0)
  {
    RunKeeps(INITIAL, steps);
    AccountedInstance(Run(INITIAL, steps), p);
    StartKeepsLimits(Run(INITIAL, steps), id, prepared, launched);
  }

  /** The manager is closed exactly if it was asked to. */
  lemma {:induction false} ClosedIff(s: State, steps: seq<Step>)
    ensures Run(s, steps).closed <==> s.closed || CloseStep in steps
    decreases |steps|
  {
    if steps != [] {
      hide Next;
      ClosedStep(s, steps[0]);
      ClosedIff(Next(s, steps[0]), steps[1..]);
      assert steps == [steps[0]] + steps[1..];
    }
  }

  lemma ClosedStep(s: State, step: Step)
    ensures Next(s, step).closed <==> s.closed || step == CloseStep
  {
    hide Evict, LiveCount, IdTaken, Push, StopAll;
    if step.CloseStep? { StopAllMarks(s.(closed := true), s.table); }
  }

  /** Stopping some records marks exactly the active ones of them. */
  lemma {:induction false} StopAllMarks(s: State, serials: seq<nat>)
    ensures var after := StopAll(s, serials);
            && after == s.(records := after.records) && |after.records| == |s.records|
            && forall i :: 0 <= i < |s.records| ==>
                 var r := s.records[i];
                 after.records[i] == if i in serials && Active(r.status)
                                     then Record(r.id, Stopping, r.generation, true, r.begun) else r
    decreases |serials|
  {
    if serials != [] {
      StopAllMarks(Stop(s, serials[0]), serials[1..]);
    }
  }

  /** Who is active has been told to stop. */
  predicate AllTold(s: State) {
    forall i :: 0 <= i < |s.records| && Active(s.records[i].status) ==>
      s.records[i].status == Stopping && s.records[i].cancelled
  }

  lemma StepKeepsTold(s: State, step: Step)
    requires Limits(s) && (s.closed ==> AllTold(s))
    ensures Next(s, step).closed ==> AllTold(Next(s, step))
  {
    hide Evict, LiveCount, IdTaken, Push, StopAll;
    if step.CloseStep? {
      StopAllMarks(s.(closed := true), s.table);
      assert forall i :: 0 <= i < |s.records| && Active(s.records[i].status) ==> i in ActiveSet(s.records);
    }
  }

  lemma {:induction false} RunKeepsTold(s: State, steps: seq<Step>)
    requires Limits(s) && (s.closed ==> AllTold(s))
    ensures Run(s, steps).closed ==> AllTold(Run(s, steps))
    decreases |steps|
  {
    if steps != [] {
      hide Next, Limits, AllTold;
      StepKeepsTold(s, steps[0]);
      StepKeepsLimits(s, steps[0]);
      RunKeepsTold(Next(s, steps[0]), steps[1..]);
    }
  }

  /** Closing tells every active Agent to stop, and whatever all threads do afterwards, none is starting
      or running any more: a thread that had not begun ends its generation without running. */
  lemma ClosedManagerRunsNothing(steps: seq<Step>, serial: nat)
    requires CloseStep in steps && serial < |Run(INITIAL, steps).records|
    ensures var r := Run(INITIAL, steps).records[serial];
            r.status !in {Starting, Running} && (r.status == Stopping ==> r.cancelled)
  {
    ClosedIff(INITIAL, steps);
    RunKeepsTold(INITIAL, steps);
  }

  /** When an Agent can be started: the manager is open, fewer than 4 Agents are active, the id is not
      that of a record still retained once room was made, its workspace is ready and its thread starts.
      Each refusal leaves the records as they were; a thread that does not start leaves no event, but a
      full queue has lost its oldest. */
  predicate Admits(s: State, id: Option<string>, prepared: bool, launched: bool, wasClosed: bool, after: State,
                   result: Result<nat, AgentError>) {
    var active := set serial | serial in s.table && serial < |s.records| && Active(s.records[serial].status);
    var free := id.Some? && id.value != "" &&
                forall t :: t in after.table && t < |s.records| ==> s.records[t].id != id.value;
    var admitted := !wasClosed && |active| < 4;
    && (result == Err(Closed) <==> wasClosed)
    && (result == Err(TooManyRunning) <==> !wasClosed && |active| >= 4)
    && (result == Err(NoFreshId) <==> admitted && !free)
    && (result == Err(NoWorkspace) <==> admitted && free && !prepared)
    && (result == Err(LaunchFailed) <==> admitted && free && prepared && !launched)
    && (result.Ok? <==> admitted && free && prepared && launched)
    && |after.table| == (if admitted then Min(|s.table|, 15) else |s.table|) + (if result.Ok? then 1 else 0)
    && (result.Err? ==>
          after == s.(table := after.table,
                      events := Drop(s.events, if result.error.LaunchFailed? && |s.events| >= 64 then 1 else 0)))
    && (result.Ok? ==>
          && result.value == |s.records|
          && after.records == s.records + [Record(id.value, Starting, 1, false, false)]
          && |s.records| in after.table
          && after.history == s.history + [Event(|s.records|, 1, 1, Starting)])
  }

  lemma StartAdmits(s: State, id: Option<string>, prepared: bool, launched: bool)
    requires Limits(s) && |s.events| <= 64
    ensures var (after, result) := Start(s, id, prepared, launched);
            Admits(s, id, prepared, launched, s.closed, after, result)
  {
    hide Evict, LiveCount;
    var live := ActiveSet(s.records);
    var active := set serial | serial in s.table && serial < |s.records| && Active(s.records[serial].status);
    LiveCountIsSize(live, s.table, active);
    EvictionKeepsWithin(live, s.table, |s.records|, MAX_RUNNING_AGENTS, MAX_RETAINED_AGENTS, MAX_RETAINED_AGENTS);
    EvictionSize(live, s.table, MAX_RETAINED_AGENTS);
  }

  /** So in every reachable state. */
  lemma StartSucceedsIff(steps: seq<Step>, id: Option<string>, prepared: bool, launched: bool)
    ensures var s := Run(INITIAL, steps);
            var (after, result) := Start(s, id, prepared, launched);
            Admits(s, id, prepared, launched, CloseStep in steps, after, result)
  {
    hide Admits, Start;
    RunKeeps(INITIAL, steps);
    ClosedIff(INITIAL, steps);
    QueueHoldsLatest(INITIAL, steps, []);
    StartAdmits(Run(INITIAL, steps), id, prepared, launched);
  }

  /** When a retained Agent takes a follow-up: it has ended, the manager is open, fewer than 4 Agents are
      active, its workspace is ready and its thread starts. Then it starts its next generation, not
      cancelled, and that is announced; otherwise its record is as before. */
  predicate Follows(s: State, serial: nat, prepared: bool, launched: bool, wasClosed: bool, after: State,
                    result: Result<nat, AgentError>)
    requires serial < |s.records|
  {
    var active := set other | other in s.table && other < |s.records| && Active(s.records[other].status);
    var r := s.records[serial];
    var ready := !Active(r.status) && !wasClosed && |active| < 4;
    && (result == Err(StillRunning) <==> Active(r.status))
    && (result == Err(LaunchFailed) <==> ready && prepared && !launched)
    && (result.Ok? <==> ready && prepared && launched)
    && after.table == s.table
    && (result.Err? ==>
          after == s.(events := Drop(s.events, if result.error.LaunchFailed? && |s.events| >= 64 then 1 else 0)))
    && (result.Ok? ==>
          && result.value == r.generation + 1
          && after.records == s.records[serial := Record(r.id, Starting, r.generation + 1, false, false)]
          && after.history == s.history + [Event(serial, r.generation + 1, r.generation + 1, Starting)])
  }

  /** So for every retained Agent in every reachable state. */
  lemma FollowupSucceedsIff(steps: seq<Step>, serial: nat, prepared: bool, launched: bool)
    requires serial in Run(INITIAL, steps).table
    ensures serial < |Run(INITIAL, steps).records|
    ensures var s := Run(INITIAL, steps);
            var (after, result) := Followup(s, serial, prepared, launched);
            Follows(s, serial, prepared, launched, CloseStep in steps, after, result)
  {
    hide Run;
    var s := Run(INITIAL, steps);
    RunKeeps(INITIAL, steps);
    ClosedIff(INITIAL, steps);
    QueueHoldsLatest(INITIAL, steps, []);
    FollowupFollows(s, serial, prepared, launched);
  }

  lemma FollowupFollows(s: State, serial: nat, prepared: bool, launched: bool)
    requires Limits(s) && |s.events| <= 64 && serial in s.table
    ensures serial < |s.records|
    ensures var (after, result) := Followup(s, serial, prepared, launched);
            Follows(s, serial, prepared, launched, s.closed, after, result)
  {
    hide LiveCount;
    var active := set other | other in s.table && other < |s.records| && Active(s.records[other].status);
    LiveCountIsSize(ActiveSet(s.records), s.table, active);
  }

  // ---------- The event queue ----------

  /** A start or follow-up whose thread does not start. */
  predicate LaunchFails(s: State, step: Step) {
    || (step.StartStep? && Start(s, step.id, step.prepared, step.launched).1 == Err(LaunchFailed))
    || (step.FollowupStep? && Followup(s, step.serial, step.prepared, step.launched).1 == Err(LaunchFailed))
  }

  /** What the queue stands for after one step more: nothing after a drain, the events so far without
      the oldest queued one if a thread does not start while the queue is full, and otherwise the events
      so far and the new one. */
  function Told(s: State, step: Step, told: seq<Event>): seq<Event> {
    if step.DrainStep? then []
    else if LaunchFails(s, step) then (if |told| >= 64 then Latest(told)[1..] else told)
    else told + Drop(Next(s, step).history, |s.history|)
  }

  function ToldBy(s: State, steps: seq<Step>, told: seq<Event>): seq<Event>
    decreases |steps|
  {
    if steps == [] then told else ToldBy(Next(s, steps[0]), steps[1..], Told(s, steps[0], told))
  }

  lemma QueueShape(s: State, step: Step)
    requires |s.events| <= 64
    ensures var next := Next(s, step);
            if step.DrainStep? then next.events == []
            else if LaunchFails(s, step) then next.events == (if |s.events| >= 64 then s.events[1..] else s.events)
            else if next.history == s.history then next.events == s.events
            else && |next.history| == |s.history| + 1 && next.history[..|s.history|] == s.history
                 && next.events == Push(s.events, next.history[|s.history|])
  {
    hide Evict, LiveCount, IdTaken, StopAll;
    if step.CloseStep? { StopAllMarks(s.(closed := true), s.table); }
  }

  lemma QueueStep(s: State, step: Step, told: seq<Event>)
    requires s.events == Latest(told)
    ensures Next(s, step).events == Latest(Told(s, step, told))
  {
    hide Next, LaunchFails, Push;
    var next := Next(s, step);
    QueueShape(s, step);
    if next.history == s.history {
      assert told + Drop(next.history, |s.history|) == told;
    } else if !step.DrainStep? && !LaunchFails(s, step) {
      PushIsLatest(told, next.history[|s.history|]);
      assert Drop(next.history, |s.history|) == [next.history[|s.history|]];
    }
  }

  /** In every run the queue holds the latest 64 of the events it stands for, in order. */
  lemma {:induction false} QueueHoldsLatest(s: State, steps: seq<Step>, told: seq<Event>)
    requires s.events == Latest(told)
    ensures Run(s, steps).events == Latest(ToldBy(s, steps, told)) && |Run(s, steps).events| <= 64
    decreases |steps|
  {
    if steps != [] {
      hide Next, Told;
      QueueStep(s, steps[0], told);
      QueueHoldsLatest(Next(s, steps[0]), steps[1..], Told(s, steps[0], told));
    }
  }

  /** Cancelled without having run: its thread has not begun, or it has ended. */
  predicate Halted(r: Record) { r.cancelled && r.status != Running && (r.begun ==> !Active(r.status)) }

  /** How one step can change one record: generations only grow, a generation that has ended stays as
      it ended, and one that was cancelled before it began stays halted. */
  predicate Evolves(before: Record, after: Record) {
    && after.id == before.id && before.generation <= after.generation
    && (after.generation == before.generation ==>
          && (!Active(before.status) ==> after == before)
          && (Halted(before) ==> Halted(after)))
  }

  lemma {:induction false} StopAllEvolves(s: State, serials: seq<nat>, serial: nat)
    requires serial < |s.records|
    ensures |StopAll(s, serials).records| == |s.records|
    ensures Evolves(s.records[serial], StopAll(s, serials).records[serial])
    decreases |serials|
  {
    if serials != [] {
      StopAllEvolves(Stop(s, serials[0]), serials[1..], serial);
    }
  }

  lemma FollowupEvolves(s: State, i: nat, prepared: bool, launched: bool, serial: nat)
    requires serial < |s.records|
    ensures |Followup(s, i, prepared, launched).0.records| == |s.records|
    ensures Evolves(s.records[serial], Followup(s, i, prepared, launched).0.records[serial])
  {
    hide LiveCount, Push;
  }

  lemma FinishEvolves(s: State, i: nat, generation: nat, status: Status, serial: nat)
    requires serial < |s.records|
    ensures |Finish(s, i, generation, status).records| == |s.records|
    ensures Evolves(s.records[serial], Finish(s, i, generation, status).records[serial])
  {
  }

  lemma BeginEvolves(s: State, i: nat, generation: nat, serial: nat)
    requires serial < |s.records|
    ensures |Begin(s, i, generation).records| == |s.records|
    ensures Evolves(s.records[serial], Begin(s, i, generation).records[serial])
  {
  }

  lemma StartEvolves(s: State, id: Option<string>, prepared: bool, launched: bool, serial: nat)
    requires serial < |s.records|
    ensures |Start(s, id, prepared, launched).0.records| >= |s.records|
    ensures Evolves(s.records[serial], Start(s, id, prepared, launched).0.records[serial])
  {
    hide Evict, LiveCount, IdTaken, Push;
  }

  lemma RecordEvolves(s: State, step: Step, serial: nat)
    requires serial < |s.records|
    ensures serial < |Next(s, step).records|
    ensures Evolves(s.records[serial], Next(s, step).records[serial])
  {
    hide Start, Followup, Begin, Finish, StopAll, Push;
    match step
    case StartStep(id, prepared, launched) => StartEvolves(s, id, prepared, launched, serial);
    case FollowupStep(i, prepared, launched) => FollowupEvolves(s, i, prepared, launched, serial);
    case BeginStep(i, generation) => BeginEvolves(s, i, generation, serial);
    case FinishStep(i, generation, status) => FinishEvolves(s, i, generation, status, serial);
    case StopStep(_) =>
    case CloseStep => StopAllEvolves(s.(closed := true), s.table, serial);
    case AnnounceStep(_) =>
    case DrainStep =>
  }

  /** A generation reaches its end at most once, and one that was stopped before its thread began is
      never run: until the next follow-up the record stays ended or halted. */
  lemma {:induction false} EndedStaysEnded(s: State, steps: seq<Step>, serial: nat)
    requires serial < |s.records|
    ensures serial < |Run(s, steps).records|
    ensures Evolves(s.records[serial], Run(s, steps).records[serial])
    decreases |steps|
  {
    if steps != [] {
      hide Next;
      RecordEvolves(s, steps[0], serial);
      EndedStaysEnded(Next(s, steps[0]), steps[1..], serial);
    }
  }

  /** Some follow-up of this Agent goes through. */
  predicate FollowupGoesThrough(s: State, steps: seq<Step>, serial: nat)
    decreases |steps|
  {
    steps != [] &&
    (|| (&& steps[0].FollowupStep? && steps[0].serial == serial
         && Followup(s, serial, steps[0].prepared, steps[0].launched).1.Ok?)
     || FollowupGoesThrough(Next(s, steps[0]), steps[1..], serial))
  }

  lemma GenerationStep(s: State, step: Step, serial: nat)
    requires serial < |s.records|
    ensures serial < |Next(s, step).records|
    ensures var through := step.FollowupStep? && step.serial == serial
                           && Followup(s, serial, step.prepared, step.launched).1.Ok?;
            Next(s, step).records[serial].generation == s.records[serial].generation + if through then 1 else 0
  {
    hide Evict, LiveCount, IdTaken, Push;
    if step.CloseStep? {
      StopAllKeepsGeneration(s.(closed := true), s.table, serial);
    }
  }

  lemma {:induction false} StopAllKeepsGeneration(s: State, serials: seq<nat>, serial: nat)
    requires serial < |s.records|
    ensures |StopAll(s, serials).records| == |s.records|
    ensures StopAll(s, serials).records[serial].generation == s.records[serial].generation
    ensures StopAll(s, serials).pending == s.pending
    decreases |serials|
  {
    if serials != [] {
      StopAllKeepsGeneration(Stop(s, serials[0]), serials[1..], serial);
    }
  }

  /** The generation of an Agent moves exactly when a follow-up goes through. */
  lemma {:induction false} GenerationMovesIff(s: State, steps: seq<Step>, serial: nat)
    requires serial < |s.records|
    ensures serial < |Run(s, steps).records|
    ensures s.records[serial].generation <= Run(s, steps).records[serial].generation
    ensures Run(s, steps).records[serial].generation != s.records[serial].generation <==>
            FollowupGoesThrough(s, steps, serial)
    decreases |steps|
  {
    if steps != [] {
      hide Next;
      GenerationStep(s, steps[0], serial);
      GenerationMovesIff(Next(s, steps[0]), steps[1..], serial);
    }
  }

  /** The prompt is over: its generation has ended or been followed up. */
  predicate Over(s: State, p: Prompt) {
    && p.serial < |s.records|
    && (s.records[p.serial].generation > p.generation
        || (s.records[p.serial].generation == p.generation && !Active(s.records[p.serial].status)))
  }

  lemma PendingStep(s: State, step: Step, p: Prompt)
    requires Over(s, p) && p in s.pending && step != AnnounceStep(p)
    ensures Over(Next(s, step), p) && p in Next(s, step).pending && Next(s, step).pending[p] == s.pending[p]
  {
    hide Evict, LiveCount, IdTaken, Push;
    if step.CloseStep? {
      StopAllEvolves(s.(closed := true), s.table, p.serial);
      StopAllKeepsGeneration(s.(closed := true), s.table, p.serial);
    }
  }

  lemma {:induction false} PendingUntilAnnounced(s: State, steps: seq<Step>, p: Prompt)
    requires Over(s, p) && p in s.pending
    requires forall i :: 0 <= i < |steps| ==> steps[i] != AnnounceStep(p)
    ensures var after := Run(s, steps); Over(after, p) && p in after.pending && after.pending[p] == s.pending[p]
    decreases |steps|
  {
    if steps != [] {
      hide Next, Over;
      assert steps[0] != AnnounceStep(p);
      PendingStep(s, steps[0], p);
      PendingUntilAnnounced(Next(s, steps[0]), steps[1..], p);
    }
  }

  /** A generation has just ended, and any steps come before its terminal event is appended. The event
      carries the status the generation ended in, whatever happened since; the turn number it shows is
      its own if and only if none of the steps was a follow-up of this Agent that went through. */
  lemma {:induction false} TerminalEventShowsItsTurnIff(s: State, steps: seq<Step>, p: Prompt)
    requires p.serial < |s.records| && s.records[p.serial].generation == p.generation
    requires !Active(s.records[p.serial].status) && p in s.pending
    requires forall i :: 0 <= i < |steps| ==> steps[i] != AnnounceStep(p)
    ensures var later := Run(s, steps);
            var e := Last(Announce(later, p).history);
            && Announce(later, p).history == later.history + [e]
            && e.serial == p.serial && e.generation == p.generation && e.status == s.pending[p]
            && (e.turn == p.generation <==> !FollowupGoesThrough(s, steps, p.serial))
  {
    PendingUntilAnnounced(s, steps, p);
    GenerationMovesIff(s, steps, p.serial);
  }

  /** One Agent has completed and its event is still to come. */
  predicate OneOver(s: State) {
    && s.records == [Record("a", Completed, 1, false, true)] && s.table == [0] && !s.closed
    && Prompt(0, 1) in s.pending && s.pending[Prompt(0, 1)] == Completed
  }

  lemma OneAgentStarts()
    ensures var s := Next(INITIAL, StartStep(Some("a"), true, true));
            s.records == [Record("a", Starting, 1, false, false)] && s.table == [0] && !s.closed
  {
    hide Push, StopAll;
    assert ActiveSet([]) == {};
    NoneLive([]);
  }

  lemma OneAgentCompletes()
    ensures OneOver(Run(INITIAL, [StartStep(Some("a"), true, true), BeginStep(0, 1), FinishStep(0, 1, Completed)]))
  {
    hide Push, StopAll, Start, Run;
    OneAgentStarts();
    RunThree(INITIAL, StartStep(Some("a"), true, true), BeginStep(0, 1), FinishStep(0, 1, Completed));
  }

  lemma FollowupOvertakes(s: State)
    requires OneOver(s)
    ensures var p, followup := Prompt(0, 1), FollowupStep(0, true, true);
            && FollowupGoesThrough(s, [followup], 0)
            && Last(Announce(Run(s, [followup]), p).history) == Event(0, 1, 2, Completed)
  {
    hide Push, StopAll, Start;
    assert ActiveSet(s.records) == {};
    NoneLive(s.table);
    assert [FollowupStep(0, true, true)][1..] == [];
  }

  /** The witness: an Agent has completed and is followed up before its event is appended, which then
      shows the second turn for the first. */
  lemma OvertakenEventShowsLaterTurn()
    ensures var s := Run(INITIAL, [StartStep(Some("a"), true, true), BeginStep(0, 1), FinishStep(0, 1, Completed)]);
            var p, followup := Prompt(0, 1), FollowupStep(0, true, true);
            && 0 < |s.records| && !Active(s.records[0].status) && p in s.pending
            && FollowupGoesThrough(s, [followup], 0)
            && Last(Announce(Run(s, [followup]), p).history) == Event(0, 1, 2, Completed)
  {
    hide Run, Announce, FollowupGoesThrough;
    OneAgentCompletes();
    FollowupOvertakes(Run(INITIAL, [StartStep(Some("a"), true, true), BeginStep(0, 1), FinishStep(0, 1, Completed)]));
  }

  function Last(events: seq<Event>): Event {
    if events == [] then Event(0, 0, 0, Starting) else events[|events| - 1]
  }
}
