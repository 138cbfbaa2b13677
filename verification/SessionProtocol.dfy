/** Several processes around one session: creation, index rebuild, lease acquisition, replay,
    appends, expiry and deletion, interleaved at the granularity of single file reads and single
    index transactions. The log tail is always clean here; torn tails are the subject of
    SessionStore and SessionTears. */
module SessionProtocol {
  import opened Basics
  import opened SessionRecords
  import opened SessionLog
  import opened SessionStore

  /** What a process remembers of the log it has read. */
  datatype Seen = Seen(lastSeq: int, lastHash: Bytes, closed: bool)

  datatype State = State(
    log: seq<Record>,
    row: Option<Row>,
    now: int,
    nextOwner: Owner,
    creator: Option<Owner>,         // wrote the creation record, has not inserted the row yet
    acquired: set<Owner>,           // holds or held the lease, has not read the log yet
    replayed: map<Owner, Seen>,     // has read the log, has not refreshed the row yet
    handles: map<Owner, Bytes>,     // running handles and the last hash each one knows
    repairing: set<nat>,            // processes whose rebuild found no live lease
    scanned: map<nat, Seen>)        // processes whose rebuild has read the log

  datatype Step =
    | Tick(seconds: nat)
    | CreateLog(todos: seq<Todo>, workflow: Workflow)
    | InsertRow
    | BeginRepair(process: nat)
    | ScanLog(process: nat)
    | WriteRepair(process: nat)
    | Acquire
    | ReadForResume(owner: Owner)
    | FinishResume(owner: Owner)
    | AppendBy(owner: Owner, payload: Payload)
    | ReleaseAfterClose(owner: Owner)
    | ReleaseLease(owner: Owner)
    | SoftDelete

  function Initial(now: int): State {
    State([], None, now, 0, None, {}, map[], map[], {}, map[])
  }

  function SeenOf(log: seq<Record>): Seen
    requires log != []
  {
    var last := log[|log| - 1];
    Seen(last.body.sequence, last.hash, last.body.payload.Closed?)
  }

  predicate LeaseIsLive(s: State) {
    s.row.Some? && s.row.value.owner.Some? && s.row.value.expires > s.now
  }

  predicate HoldsLease(s: State, owner: Owner) {
    s.row.Some? && s.row.value.owner == Some(owner)
  }

  function Release(s: State, owner: Owner): State {
    if HoldsLease(s, owner) then s.(row := Some(s.row.value.(owner := None))) else s
  }

  /** Refresh the row under the lease guard and hand out a handle; a deleted session releases the
      lease instead. */
  function FinishReplay(s: State, o: Owner): State
    requires o in s.replayed && s.row.Some?
  {
    var seen := s.replayed[o];
    var row := s.row.value;
    var refreshed :=
      s.(replayed := s.replayed - {o},
         row := Some(if row.owner == Some(o)
                     then row.(lastSeq := seen.lastSeq, lastHash := seen.lastHash) else row));
    if row.status.DeletedRow? then Release(refreshed, o)
    else refreshed.(handles := s.handles[o := seen.lastHash])
  }

  /** The record an append by `owner` writes, when the lease and hash checks let it through. */
  function Appended(c: Codec, s: State, owner: Owner, payload: Payload): Option<Record> {
    if owner in s.handles && HoldsLease(s, owner) && s.row.value.lastHash == s.handles[owner] then
      Some(MakeRecord(c, s.row.value.lastSeq + 1, s.handles[owner], s.now, payload))
    else None
  }

  /** One step; a step that is not enabled changes nothing. */
  function Next(c: Codec, s: State, step: Step): State {
    match step
    case Tick(seconds) => s.(now := s.now + seconds)
    case CreateLog(todos, workflow) =>
      if s.log != [] then s
      else
        s.(log := [MakeRecord(c, 0, [], s.now, Created(todos, workflow))],
           creator := Some(s.nextOwner), nextOwner := s.nextOwner + 1)
    case InsertRow =>
      if s.creator.None? || s.log == [] then s
      else if s.row.Some? then s.(creator := None)
      else
        s.(row := Some(Row(0, s.log[0].hash, s.creator, s.now + LEASE_SECONDS, ActiveRow)),
           handles := s.handles[s.creator.value := s.log[0].hash],
           creator := None)
    case BeginRepair(p) =>
      if LeaseIsLive(s) then s else s.(repairing := s.repairing + {p})
    case ScanLog(p) =>
      if p !in s.repairing then s
      else if s.log == [] then s.(repairing := s.repairing - {p})
      else s.(repairing := s.repairing - {p}, scanned := s.scanned[p := SeenOf(s.log)])
    case WriteRepair(p) =>
      if p !in s.scanned then s
      else
        var seen := s.scanned[p];
        var expires := if s.row.Some? then s.row.value.expires else 0;
        s.(row := Some(Row(seen.lastSeq, seen.lastHash, None, expires,
                           if seen.closed then ClosedRow else ActiveRow)),
           scanned := s.scanned - {p})
    case Acquire =>
      if s.row.None? || s.row.value.status in {DeletedRow, DamagedRow} || LeaseIsLive(s) then s
      else
        s.(row := Some(s.row.value.(owner := Some(s.nextOwner), expires := s.now + LEASE_SECONDS,
                                    status := ActiveRow)),
           acquired := s.acquired + {s.nextOwner}, nextOwner := s.nextOwner + 1)
    case ReadForResume(o) =>
      if o !in s.acquired || s.log == [] then s
      else s.(acquired := s.acquired - {o}, replayed := s.replayed[o := SeenOf(s.log)])
    case FinishResume(o) =>
      if o !in s.replayed || s.row.None? then s else FinishReplay(s, o)
    case AppendBy(o, payload) =>
      var appended := Appended(c, s, o, payload);
      if appended.None? then s
      else
        var r := appended.value;
        s.(log := s.log + [r],
           row := Some(Row(r.body.sequence, r.hash, Some(o), s.now + LEASE_SECONDS, ActiveRow)),
           handles := s.handles[o := r.hash])
    case ReleaseAfterClose(o) =>
      if HoldsLease(s, o) then Release(s, o).(row := Some(Release(s, o).row.value.(status := ClosedRow))) else s
    case ReleaseLease(o) => Release(s, o)
    case SoftDelete =>
      if s.row.None? then s
      else s.(row := Some(s.row.value.(owner := None, status := DeletedRow)))
  }

  function Run(c: Codec, s: State, steps: seq<Step>): State
    decreases |steps|
  {
    if steps == [] then s else Run(c, Next(c, s, steps[0]), steps[1..])
  }

  // ---------- The invariant ----------

  /** A process that holds the lease knows the true end of the log: nobody else could append. */
  ghost predicate OwnerIsCurrent(s: State) {
    s.row.Some? && s.row.value.owner.Some? ==>
      var o := s.row.value.owner.value;
      && (o in s.handles ==>
            && s.handles[o] == LastHash(s.log)
            && s.row.value.lastHash == LastHash(s.log)
            && s.row.value.lastSeq == |s.log| - 1)
      && (o in s.replayed ==> s.replayed[o].lastHash == LastHash(s.log)
                              && s.replayed[o].lastSeq == |s.log| - 1)
  }

  /** Owner tokens are never reused and each process is in one phase of its life. */
  ghost predicate TokensAreFresh(s: State) {
    && (forall o :: o in s.acquired || o in s.replayed || o in s.handles ==> o < s.nextOwner)
    && (forall o :: o in s.acquired ==> o !in s.replayed && o !in s.handles)
    && (forall o :: o in s.replayed ==> o !in s.handles)
    && (s.row.Some? && s.row.value.owner.Some? ==> s.row.value.owner.value < s.nextOwner)
    && (s.creator.Some? ==>
          && s.creator.value < s.nextOwner
          && s.creator.value !in s.acquired && s.creator.value !in s.replayed && s.creator.value !in s.handles
          && !HoldsLease(s, s.creator.value))
  }

  ghost predicate Inv(c: Codec, s: State) {
    && (s.log == [] || ValidLog(c, s.log))
    && (s.row.Some? || s.scanned != map[] ==> s.log != [])
    && (s.creator.Some? ==> s.log != [] && (s.row.None? ==> |s.log| == 1))
    && (s.row.None? ==> s.acquired == {} && s.replayed == map[] && s.handles == map[])
    && OwnerIsCurrent(s)
    && TokensAreFresh(s)
  }

  lemma SeenIsEnd(c: Codec, log: seq<Record>)
    requires ValidLog(c, log)
    ensures SeenOf(log).lastHash == LastHash(log) && SeenOf(log).lastSeq == |log| - 1
  {
    ChainLink(c, log, |log| - 1);
  }

  lemma InvHoldsInitially(c: Codec, now: int)
    ensures Inv(c, Initial(now))
  {
  }

  lemma AppendKeepsInv(c: Codec, s: State, o: Owner, payload: Payload)
    requires Inv(c, s)
    ensures Inv(c, Next(c, s, AppendBy(o, payload)))
  {
    var appended := Appended(c, s, o, payload);
    if appended.Some? {
    }
  }

  lemma CreationRecordIsValidLog(c: Codec, timestamp: int, todos: seq<Todo>, workflow: Workflow)
    ensures ValidLog(c, [MakeRecord(c, 0, [], timestamp, Created(todos, workflow))])
  {
    var log := [MakeRecord(c, 0, [], timestamp, Created(todos, workflow))];
    assert log[..0] == [];
  }

  lemma CreationKeepsInv(c: Codec, s: State, step: Step)
    requires Inv(c, s) && (step.CreateLog? || step.InsertRow?)
    ensures Inv(c, Next(c, s, step))
  {
    if step.CreateLog? {
      CreationRecordIsValidLog(c, s.now, step.todos, step.workflow);
    }
  }

  lemma RepairKeepsInv(c: Codec, s: State, step: Step)
    requires Inv(c, s) && (step.BeginRepair? || step.ScanLog? || step.WriteRepair? || step.Tick?)
    ensures Inv(c, Next(c, s, step))
  {
  }

  lemma ReadForResumeKeepsInv(c: Codec, s: State, o: Owner)
    requires Inv(c, s)
    ensures Inv(c, Next(c, s, ReadForResume(o)))
  {
    if s.log != [] {
      SeenIsEnd(c, s.log);
    }
  }

  lemma FinishReplayKeepsTokens(s: State, o: Owner)
    requires TokensAreFresh(s) && o in s.replayed && s.row.Some?
    ensures TokensAreFresh(FinishReplay(s, o))
  {
  }

  lemma FinishReplayKeepsOwner(s: State, o: Owner)
    requires OwnerIsCurrent(s) && o in s.replayed && s.row.Some?
    ensures OwnerIsCurrent(FinishReplay(s, o))
  {
  }

  lemma FinishResumeKeepsInv(c: Codec, s: State, o: Owner)
    requires Inv(c, s)
    ensures Inv(c, Next(c, s, FinishResume(o)))
  {
    if o in s.replayed && s.row.Some? {
      FinishReplayKeepsTokens(s, o);
      FinishReplayKeepsOwner(s, o);
      var t := FinishReplay(s, o);
      assert t == Next(c, s, FinishResume(o));
      assert t.log == s.log && t.creator == s.creator && t.acquired == s.acquired && t.row.Some?;
    }
  }

  lemma LeaseStepKeepsInv(c: Codec, s: State, step: Step)
    requires Inv(c, s)
    requires step.Acquire? || step.ReleaseAfterClose? || step.ReleaseLease? || step.SoftDelete?
    ensures Inv(c, Next(c, s, step))
  {
  }

  lemma StepKeepsInv(c: Codec, s: State, step: Step)
    requires Inv(c, s)
    ensures Inv(c, Next(c, s, step))
  {
    match step
    case AppendBy(o, payload) => AppendKeepsInv(c, s, o, payload);
    case CreateLog(_, _) => CreationKeepsInv(c, s, step);
    case InsertRow => CreationKeepsInv(c, s, step);
    case ReadForResume(o) => ReadForResumeKeepsInv(c, s, o);
    case FinishResume(o) => FinishResumeKeepsInv(c, s, o);
    case Tick(_) => RepairKeepsInv(c, s, step);
    case BeginRepair(_) => RepairKeepsInv(c, s, step);
    case ScanLog(_) => RepairKeepsInv(c, s, step);
    case WriteRepair(_) => RepairKeepsInv(c, s, step);
    case _ => LeaseStepKeepsInv(c, s, step);
  }

  lemma {:induction false} RunKeepsInv(c: Codec, s: State, steps: seq<Step>)
    requires Inv(c, s)
    ensures Inv(c, Run(c, s, steps))
    decreases |steps|
  {
    if steps != [] {
      StepKeepsInv(c, s, steps[0]);
      RunKeepsInv(c, Next(c, s, steps[0]), steps[1..]);
    }
  }

  // ---------- Main results ----------

  /** In every reachable state the log is empty or one valid chain. */
  lemma LogIsAlwaysOneChain(c: Codec, now: int, steps: seq<Step>)
    ensures var s := Run(c, Initial(now), steps);
            s.log == [] || ValidLog(c, s.log)
  {
    InvHoldsInitially(c, now);
    RunKeepsInv(c, Initial(now), steps);
  }

  /** No step ever removes or rewrites a record. */
  lemma {:induction false} LogOnlyGrows(c: Codec, s: State, steps: seq<Step>)
    ensures s.log <= Run(c, s, steps).log
    decreases |steps|
  {
    if steps != [] {
      LogOnlyGrows(c, Next(c, s, steps[0]), steps[1..]);
    }
  }

  /** An append goes through exactly when its owner has a handle and holds the lease; it then
      extends the log by one record behind the last hash that owner saw, and that hash is the true
      end of the log. The changed-outside check never fires for a lease holder. */
  lemma AppendSucceedsOnlyForOwner(c: Codec, now: int, steps: seq<Step>, o: Owner, payload: Payload)
    ensures var s := Run(c, Initial(now), steps);
            var s' := Next(c, s, AppendBy(o, payload));
            if o in s.handles && HoldsLease(s, o)
            then
              && |s'.log| == |s.log| + 1 && s.log <= s'.log
              && var r := s'.log[|s.log|];
                 && r.body.payload == payload
                 && r.body.previous == s.handles[o] == LastHash(s.log)
                 && r.body.sequence == |s.log|
                 && s'.handles[o] == r.hash == s'.row.value.lastHash
                 && s'.row.value == Row(|s.log|, r.hash, Some(o), s.now + LEASE_SECONDS, ActiveRow)
            else s' == s
  {
    InvHoldsInitially(c, now);
    RunKeepsInv(c, Initial(now), steps);
  }

  /** `o` has been issued and is not, and can no longer become, the lease owner. */
  ghost predicate LeaseLostFor(s: State, o: Owner) {
    o < s.nextOwner && !HoldsLease(s, o) && s.creator != Some(o)
  }

  lemma LostLeaseStaysLost(c: Codec, s: State, step: Step, o: Owner)
    requires TokensAreFresh(s) && LeaseLostFor(s, o)
    ensures LeaseLostFor(Next(c, s, step), o)
  {
  }

  lemma {:induction false} LostLeaseIsNeverRegained(c: Codec, s: State, steps: seq<Step>, o: Owner)
    requires Inv(c, s) && LeaseLostFor(s, o)
    ensures LeaseLostFor(Run(c, s, steps), o)
    decreases |steps|
  {
    if steps != [] {
      StepKeepsInv(c, s, steps[0]);
      LostLeaseStaysLost(c, s, steps[0], o);
      LostLeaseIsNeverRegained(c, Next(c, s, steps[0]), steps[1..], o);
    }
  }

  /** Once a running handle has lost its lease, no later append of its own ever goes through,
      whatever all the processes do in between. */
  lemma LostHandleNeverAppendsAgain(c: Codec, now: int, before: seq<Step>, after: seq<Step>,
                                    o: Owner, payload: Payload)
    requires o in Run(c, Initial(now), before).handles
    requires !HoldsLease(Run(c, Initial(now), before), o)
    ensures Appended(c, Run(c, Run(c, Initial(now), before), after), o, payload) == None
  {
    InvHoldsInitially(c, now);
    RunKeepsInv(c, Initial(now), before);
    LostLeaseIsNeverRegained(c, Run(c, Initial(now), before), after, o);
  }

  // ---------- A live lease excludes every other process ----------

  /** A deleted session has no owner. */
  predicate DeletedIsFree(s: State) {
    s.row.Some? && s.row.value.status == DeletedRow ==> s.row.value.owner == None
  }

  lemma StepKeepsDeletedFree(c: Codec, s: State, step: Step)
    requires DeletedIsFree(s)
    ensures DeletedIsFree(Next(c, s, step))
  {
  }

  lemma {:induction false} RunKeepsDeletedFree(c: Codec, s: State, steps: seq<Step>)
    requires DeletedIsFree(s)
    ensures DeletedIsFree(Run(c, s, steps))
    decreases |steps|
  {
    if steps != [] {
      hide Next, DeletedIsFree;
      StepKeepsDeletedFree(c, s, steps[0]);
      RunKeepsDeletedFree(c, Next(c, s, steps[0]), steps[1..]);
    }
  }

  /** The owner gives the lease up itself, the session is deleted, or a rebuild that read the log before
      completes. */
  predicate TakesLease(s: State, step: Step, o: Owner) {
    || step == ReleaseLease(o) || step == ReleaseAfterClose(o) || step == SoftDelete
    || (step.WriteRepair? && step.process in s.scanned)
  }

  lemma LiveLeaseStep(c: Codec, s: State, step: Step, o: Owner)
    requires DeletedIsFree(s) && HoldsLease(s, o) && s.row.value.expires > s.now
    ensures HoldsLease(Next(c, s, step), o) <==> !TakesLease(s, step, o)
    ensures Next(c, s, Acquire) == s
    ensures forall p :: p in Next(c, s, step).repairing ==> p in s.repairing
    ensures forall p :: p in Next(c, s, step).scanned ==> p in s.scanned || p in s.repairing
  {
  }

  /** What one step of any process does to a reachable session whose lease is live: the owner loses the
      lease if and only if it gives it up itself, the session is deleted, or a rebuild that had found no
      live lease before now completes; nobody else acquires it, and no new rebuild begins. */
  lemma LiveLeaseIsExclusive(c: Codec, now: int, steps: seq<Step>, step: Step, o: Owner)
    requires HoldsLease(Run(c, Initial(now), steps), o)
    requires Run(c, Initial(now), steps).row.value.expires > Run(c, Initial(now), steps).now
    ensures var s := Run(c, Initial(now), steps);
            var s' := Next(c, s, step);
            && (HoldsLease(s', o) <==> !TakesLease(s, step, o))
            && (!HoldsLease(s', o) ==> s'.row.value.owner == None)
            && Next(c, s, Acquire) == s
            && s'.repairing <= s.repairing
            && (s.repairing == {} && s.scanned == map[] ==> s'.scanned == map[])
  {
    var s := Run(c, Initial(now), steps);
    RunKeepsDeletedFree(c, Initial(now), steps);
    LiveLeaseStep(c, s, step, o);
    var s' := Next(c, s, step);
    if s.repairing == {} && s.scanned == map[] {
      assert s'.scanned.Keys == {};
    }
  }

  /** On a session that is neither deleted nor damaged, a process that asks for the lease gets it if and
      only if nobody holds it or it has run out; then the lease lasts for its full time from now. */
  lemma AcquireGivesLeaseIff(c: Codec, now: int, steps: seq<Step>)
    requires var row := Run(c, Initial(now), steps).row; row.Some? && row.value.status !in {DeletedRow, DamagedRow}
    ensures var s := Run(c, Initial(now), steps);
            var s' := Next(c, s, Acquire);
            && (HoldsLease(s', s.nextOwner) <==> s.row.value.owner == None || s.row.value.expires <= s.now)
            && (HoldsLease(s', s.nextOwner) ==>
                  && s'.row.value.expires == s.now + LEASE_SECONDS && s'.row.value.status == ActiveRow
                  && s'.row.value.lastHash == s.row.value.lastHash && s'.row.value.lastSeq == s.row.value.lastSeq
                  && s.nextOwner in s'.acquired)
            && (!HoldsLease(s', s.nextOwner) ==> s' == s)
  {
    InvHoldsInitially(c, now);
    RunKeepsInv(c, Initial(now), steps);
  }

  /** The lease has not run out for `o` before any step of the run that finds it the owner. */
  predicate NeverExpires(c: Codec, s: State, steps: seq<Step>, o: Owner)
    decreases |steps|
  {
    && (HoldsLease(s, o) ==> s.row.value.expires > s.now)
    && (steps == [] || NeverExpires(c, Next(c, s, steps[0]), steps[1..], o))
  }

  predicate HeldThroughout(c: Codec, s: State, steps: seq<Step>, o: Owner)
    decreases |steps|
  {
    HoldsLease(s, o) && (steps == [] || HeldThroughout(c, Next(c, s, steps[0]), steps[1..], o))
  }

  predicate EverTaken(c: Codec, s: State, steps: seq<Step>, o: Owner)
    decreases |steps|
  {
    steps != [] && (TakesLease(s, steps[0], o) || EverTaken(c, Next(c, s, steps[0]), steps[1..], o))
  }

  lemma {:induction false} HeldWhileLiveIff(c: Codec, s: State, steps: seq<Step>, o: Owner)
    requires DeletedIsFree(s) && HoldsLease(s, o) && NeverExpires(c, s, steps, o)
    ensures HeldThroughout(c, s, steps, o) <==> !EverTaken(c, s, steps, o)
    decreases |steps|
  {
    if steps != [] {
      hide Next, DeletedIsFree, TakesLease;
      LiveLeaseStep(c, s, steps[0], o);
      StepKeepsDeletedFree(c, s, steps[0]);
      if HoldsLease(Next(c, s, steps[0]), o) {
        HeldWhileLiveIff(c, Next(c, s, steps[0]), steps[1..], o);
      }
    }
  }

  /** From any reachable session, through any steps of any processes before its lease runs out, an owner
      keeps the lease throughout if and only if none of the steps takes it in one of those ways. */
  lemma LeaseIsHeldUntilTaken(c: Codec, now: int, before: seq<Step>, after: seq<Step>, o: Owner)
    requires HoldsLease(Run(c, Initial(now), before), o)
    requires NeverExpires(c, Run(c, Initial(now), before), after, o)
    ensures var s := Run(c, Initial(now), before);
            HeldThroughout(c, s, after, o) <==> !EverTaken(c, s, after, o)
  {
    RunKeepsDeletedFree(c, Initial(now), before);
    HeldWhileLiveIff(c, Run(c, Initial(now), before), after, o);
  }

  // ---------- What a process can always achieve ----------

  /** A lease never runs out later than its full time from now. */
  predicate LeaseIsShort(s: State) {
    s.row.Some? && s.row.value.owner.Some? ==> s.row.value.expires <= s.now + LEASE_SECONDS
  }

  lemma StepKeepsLeaseShort(c: Codec, s: State, step: Step)
    requires LeaseIsShort(s)
    ensures LeaseIsShort(Next(c, s, step))
  {
  }

  lemma {:induction false} RunKeepsLeaseShort(c: Codec, s: State, steps: seq<Step>)
    requires LeaseIsShort(s)
    ensures LeaseIsShort(Run(c, s, steps))
    decreases |steps|
  {
    if steps != [] {
      hide Next, LeaseIsShort;
      StepKeepsLeaseShort(c, s, steps[0]);
      RunKeepsLeaseShort(c, Next(c, s, steps[0]), steps[1..]);
    }
  }

  /** No process can block a session for longer than one lease: waiting lets another one take it if and
      only if nobody held it or the lease has run out by then, and a full lease time is always enough. */
  lemma WaitingGivesLeaseIff(c: Codec, now: int, before: seq<Step>, seconds: nat)
    requires var row := Run(c, Initial(now), before).row; row.Some? && row.value.status !in {DeletedRow, DamagedRow}
    ensures var s := Run(c, Initial(now), before);
            var waited := Run(c, s, [Tick(seconds), Acquire]);
            && (HoldsLease(waited, s.nextOwner) <==>
                  s.row.value.owner == None || s.row.value.expires <= s.now + seconds)
            && (seconds >= LEASE_SECONDS ==> HoldsLease(waited, s.nextOwner))
  {
    InvHoldsInitially(c, now);
    RunKeepsInv(c, Initial(now), before);
    RunKeepsLeaseShort(c, Initial(now), before);
    RunTwo(c, Run(c, Initial(now), before), Tick(seconds), Acquire);
  }

  lemma RunTwo(c: Codec, s: State, first: Step, second: Step)
    ensures Run(c, s, [first, second]) == Next(c, Next(c, s, first), second)
  {
    var next := Next(c, s, first);
    assert [first, second][1..] == [second] && [second][1..] == [];
    assert Run(c, next, [second]) == Next(c, next, second);
  }

  lemma RunThree(c: Codec, s: State, first: Step, second: Step, third: Step)
    ensures Run(c, s, [first, second, third]) == Next(c, Next(c, Next(c, s, first), second), third)
  {
    assert [first, second, third][1..] == [second, third];
    RunTwo(c, Next(c, s, first), second, third);
  }

  /** A session that can be taken can be resumed, written and closed, whatever all processes did before and
      however far its row is behind the log: the three steps of a resume give a handle at the true end of
      the log, the next append adds one record there, and closing frees the session. */
  lemma FreeSessionCanBeResumed(c: Codec, now: int, before: seq<Step>, payload: Payload)
    requires var s := Run(c, Initial(now), before);
             s.row.Some? && s.row.value.status !in {DeletedRow, DamagedRow} && !LeaseIsLive(s)
    ensures var s := Run(c, Initial(now), before);
            var o := s.nextOwner;
            var resumed := Run(c, s, [Acquire, ReadForResume(o), FinishResume(o)]);
            var appended := Next(c, resumed, AppendBy(o, payload));
            var closed := Next(c, appended, ReleaseAfterClose(o));
            && resumed.log == s.log && HoldsLease(resumed, o)
            && o in resumed.handles && resumed.handles[o] == LastHash(s.log)
            && resumed.row.value.lastHash == LastHash(s.log) && resumed.row.value.lastSeq == |s.log| - 1
            && |appended.log| == |s.log| + 1 && s.log <= appended.log
            && appended.log[|s.log|].body.payload == payload
            && closed.log == appended.log && closed.row.value.owner == None
            && closed.row.value.status == ClosedRow && closed.row.value.lastHash == LastHash(appended.log)
  {
    hide Next, Inv, LeaseIsLive, HoldsLease;
    InvHoldsInitially(c, now);
    RunKeepsInv(c, Initial(now), before);
    var s := Run(c, Initial(now), before);
    ResumeGivesHandle(c, s);
    RunThree(c, s, Acquire, ReadForResume(s.nextOwner), FinishResume(s.nextOwner));
    OwnerAppendsAndCloses(c, Run(c, s, [Acquire, ReadForResume(s.nextOwner), FinishResume(s.nextOwner)]),
                          s.nextOwner, payload);
  }

  lemma ResumeGivesHandle(c: Codec, s: State)
    requires Inv(c, s) && s.row.Some? && s.row.value.status !in {DeletedRow, DamagedRow} && !LeaseIsLive(s)
    ensures var o := s.nextOwner;
            var resumed := Next(c, Next(c, Next(c, s, Acquire), ReadForResume(o)), FinishResume(o));
            && s.log != [] && resumed.log == s.log && HoldsLease(resumed, o)
            && o in resumed.handles && resumed.handles[o] == LastHash(s.log)
            && resumed.row.value.lastHash == LastHash(s.log) && resumed.row.value.lastSeq == |s.log| - 1
  {
    var o := s.nextOwner;
    SeenIsEnd(c, s.log);
    var taken := Next(c, s, Acquire);
    assert o in taken.acquired && taken.log == s.log && HoldsLease(taken, o) && taken.row.value.status == ActiveRow;
    var read := Next(c, taken, ReadForResume(o));
    assert read.replayed[o] == SeenOf(s.log) && read.row == taken.row && read.log == s.log;
  }

  lemma OwnerAppendsAndCloses(c: Codec, s: State, o: Owner, payload: Payload)
    requires HoldsLease(s, o) && o in s.handles && s.handles[o] == s.row.value.lastHash
    ensures var appended := Next(c, s, AppendBy(o, payload));
            var closed := Next(c, appended, ReleaseAfterClose(o));
            && |appended.log| == |s.log| + 1 && s.log <= appended.log
            && appended.log[|s.log|].body.payload == payload
            && closed.log == appended.log && closed.row.Some? && closed.row.value.owner == None
            && closed.row.value.status == ClosedRow && closed.row.value.lastHash == LastHash(appended.log)
  {
    var appended := Next(c, s, AppendBy(o, payload));
    assert HoldsLease(appended, o);
  }

  /** A rebuild that nobody disturbs makes the row agree with the log: its end, free, and closed exactly
      if the last record closes the session. Without a log it leaves everything as it is. */
  lemma RebuildAgreesWithLog(c: Codec, now: int, before: seq<Step>, p: nat)
    requires !LeaseIsLive(Run(c, Initial(now), before))
    ensures var s := Run(c, Initial(now), before);
            var rebuilt := Run(c, s, [BeginRepair(p), ScanLog(p), WriteRepair(p)]);
            && rebuilt.log == s.log && rebuilt.handles == s.handles
            && p !in rebuilt.scanned && p !in rebuilt.repairing
            && (s.log == [] ==> rebuilt.row == s.row)
            && (s.log != [] ==>
                  && rebuilt.row.Some? && rebuilt.row.value.owner == None
                  && rebuilt.row.value.lastHash == LastHash(s.log) && rebuilt.row.value.lastSeq == |s.log| - 1
                  && rebuilt.row.value.status ==
                     (if s.log[|s.log| - 1].body.payload.Closed? then ClosedRow else ActiveRow))
  {
    InvHoldsInitially(c, now);
    RunKeepsInv(c, Initial(now), before);
    var s := Run(c, Initial(now), before);
    if s.log != [] { SeenIsEnd(c, s.log); }
    RunThree(c, s, BeginRepair(p), ScanLog(p), WriteRepair(p));
  }

  /** Creating a session whose log does not exist yet: its creator holds it for a full lease and can
      append, unless a rebuild wrote the row before; then that row stays and the creator gets nothing. */
  lemma CreatorHoldsSessionIff(c: Codec, now: int, before: seq<Step>, todos: seq<Todo>, workflow: Workflow,
                               between: seq<Step>)
    requires Run(c, Initial(now), before).log == []
    requires forall step :: step in between ==> step.BeginRepair? || step.ScanLog? || step.WriteRepair?
    ensures var s := Run(c, Initial(now), before);
            var created := Next(c, s, CreateLog(todos, workflow));
            var rebuilt := Run(c, created, between);
            var done := Next(c, rebuilt, InsertRow);
            && done.log == created.log && |created.log| == 1
            && created.log[0].body.payload == Created(todos, workflow)
            && done.creator == None && done.row.Some?
            && (rebuilt.row == None ==>
                  && HoldsLease(done, s.nextOwner) && done.row.value.expires == s.now + LEASE_SECONDS
                  && s.nextOwner in done.handles && done.handles[s.nextOwner] == LastHash(created.log))
            && (rebuilt.row.Some? ==> done.row == rebuilt.row && done.row.value.owner == None
                                      && s.nextOwner !in done.handles)
  {
    InvHoldsInitially(c, now);
    RunKeepsInv(c, Initial(now), before);
    var s := Run(c, Initial(now), before);
    CreationKeepsInv(c, s, CreateLog(todos, workflow));
    RebuildsOnly(c, Next(c, s, CreateLog(todos, workflow)), between);
  }

  lemma {:induction false} RebuildsOnly(c: Codec, s: State, steps: seq<Step>)
    requires Inv(c, s) && s.creator.Some? && (s.row.Some? ==> s.row.value.owner == None)
    requires forall step :: step in steps ==> step.BeginRepair? || step.ScanLog? || step.WriteRepair?
    ensures var after := Run(c, s, steps);
            && Inv(c, after) && after.log == s.log && after.creator == s.creator && after.now == s.now
            && after.handles == s.handles && after.nextOwner == s.nextOwner
            && (after.row.Some? ==> after.row.value.owner == None)
    decreases |steps|
  {
    if steps != [] {
      RepairKeepsInv(c, s, steps[0]);
      RebuildsOnly(c, Next(c, s, steps[0]), steps[1..]);
    }
  }

  // ---------- Deletion ----------

  /** A session that was soft-deleted and that nobody holds. */
  predicate Deleted(s: State) {
    s.row.Some? && s.row.value.status == DeletedRow && s.row.value.owner == None
  }

  /** Some index rebuild that has read the log gets to write its row. */
  predicate RebuildCompletes(c: Codec, s: State, steps: seq<Step>)
    decreases |steps|
  {
    steps != [] &&
    (|| (steps[0].WriteRepair? && steps[0].process in s.scanned)
     || RebuildCompletes(c, Next(c, s, steps[0]), steps[1..]))
  }

  /** Deleted now and after every single step. */
  predicate StaysDeleted(c: Codec, s: State, steps: seq<Step>)
    decreases |steps|
  {
    Deleted(s) && (steps == [] || StaysDeleted(c, Next(c, s, steps[0]), steps[1..]))
  }

  /** What one step does to a deleted session: only a rebuild brings it back, as active or closed, and
      it can then be acquired like any other. */
  lemma DeletedStep(c: Codec, s: State, step: Step)
    requires Deleted(s)
    ensures Deleted(Next(c, s, step)) <==> !(step.WriteRepair? && step.process in s.scanned)
    ensures !Deleted(Next(c, s, step)) ==>
              var rebuilt := Next(c, s, step);
              && rebuilt.row.Some? && rebuilt.row.value.status in {ActiveRow, ClosedRow}
              && Next(c, rebuilt, Acquire).row.value.owner == Some(rebuilt.nextOwner)
  {
  }

  /** A soft deletion lasts through a continuation, of any steps of any processes, if and only if no
      index rebuild completes in it. */
  lemma {:induction false} DeletionLastsIff(c: Codec, s: State, steps: seq<Step>)
    requires Deleted(s)
    ensures StaysDeleted(c, s, steps) <==> !RebuildCompletes(c, s, steps)
    decreases |steps|
  {
    if steps != [] {
      DeletedStep(c, s, steps[0]);
      if Deleted(Next(c, s, steps[0])) {
        DeletionLastsIff(c, Next(c, s, steps[0]), steps[1..]);
      }
    }
  }

  /** From any reachable session: it is deleted by a soft deletion, stays so exactly until a rebuild
      completes, and three steps of one process are enough for that. */
  lemma SoftDeletionLastsIff(c: Codec, now: int, before: seq<Step>, after: seq<Step>, p: nat)
    ensures var s := Run(c, Initial(now), before);
            var deleted := Next(c, s, SoftDelete);
            && (s.row.Some? ==>
                  Deleted(deleted) && (StaysDeleted(c, deleted, after) <==> !RebuildCompletes(c, deleted, after)))
            && (s.row.Some? && s.log != [] ==>
                  RebuildCompletes(c, deleted, [BeginRepair(p), ScanLog(p), WriteRepair(p)]))
  {
    var s := Run(c, Initial(now), before);
    var deleted := Next(c, s, SoftDelete);
    if s.row.Some? {
      DeletionLastsIff(c, deleted, after);
      var steps := [BeginRepair(p), ScanLog(p), WriteRepair(p)];
      assert steps[1..] == [ScanLog(p), WriteRepair(p)] && steps[1..][1..] == [WriteRepair(p)];
    }
  }

  /** The record-level append step is the byte-level append of SessionStore. */
  lemma AppendStepIsStoreAppend(c: Codec, s: State, o: Owner, payload: Payload, m: Memory)
    requires o in s.handles && m.owner == o && m.lastHash == s.handles[o]
    ensures var s' := Next(c, s, AppendBy(o, payload));
            var (disk, result) := Append(c, Disk(EncodeLog(c, s.log), s.row), m, payload, s.now, NoFault);
            && disk == Disk(EncodeLog(c, s'.log), s'.row)
            && (result.Ok? <==> s'.log != s.log)
            && (result.Ok? ==> s'.log == s.log + [result.value])
  {
    if Appended(c, s, o, payload).Some? {
      var r := Appended(c, s, o, payload).value;
      assert (s.log + [r])[..|s.log|] == s.log;
    }
  }
}
