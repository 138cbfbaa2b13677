/** One writer of one session: committing a transition, failing part-way, and retrying until the
    log and its index row agree again. */
module SessionStore {
  import opened Basics
  import opened Conversation
  import opened SessionRecords
  import opened SessionLog

  /** A fresh random token per acquisition; numbers stand for the tokens. */
  type Owner = nat

  const LEASE_SECONDS: int := 3600

  datatype Status = ActiveRow | ClosedRow | DeletedRow | DamagedRow

  /** The chain and lease columns of one index row. */
  datatype Row = Row(
    lastSeq: int,
    lastHash: Bytes,
    owner: Option<Owner>,
    expires: int,
    status: Status)

  /** What survives a crash: the log bytes and the index row. */
  datatype Disk = Disk(log: Bytes, row: Option<Row>)

  /** The in-memory side of a session handle. */
  datatype Memory = Memory(
    owner: Owner,
    lastHash: Bytes,
    transcriptLength: nat,
    dirty: bool,
    transcript: seq<Segment>,
    view: View)

  datatype SessionError =
    | UnsavedTransition
    | RowMissing
    | LeaseLost
    | ChangedOutside
    | WriteFailed
    | Diverged
    | Unreadable(reason: LogError)

  /** Where a write goes wrong: after `written` bytes of the line reached the file, the attempt
      raises and the index transaction is lost. `written == |line|` is a flushed line whose index
      update was lost. */
  datatype Fault = NoFault | FailsAfter(written: nat)

  datatype Attempt = Attempt(disk: Disk, memory: Memory, error: Option<SessionError>)

  function CommitPayload(m: Memory, kind: CommitKind): Payload {
    StatePayload(kind, m.transcript, m.transcriptLength, m.view)
  }

  // ---------- The operations, on values ----------

  function Append(c: Codec, disk: Disk, m: Memory, payload: Payload, now: int, fault: Fault)
    : (Disk, Result<Record, SessionError>)
  {
    if disk.row.None? then (disk, Err(RowMissing))
    else
      var row := disk.row.value;
      if row.owner != Some(m.owner) then (disk, Err(LeaseLost))
      else if row.lastHash != m.lastHash then (disk, Err(ChangedOutside))
      else
        var r := MakeRecord(c, row.lastSeq + 1, m.lastHash, now, payload);
        match fault
        case FailsAfter(n) =>
          (disk.(log := disk.log + Line(c, r)[..Min(n, |Line(c, r)|)]), Err(WriteFailed))
        case NoFault =>
          (Disk(disk.log + Line(c, r),
                Some(Row(row.lastSeq + 1, r.hash, row.owner, now + LEASE_SECONDS, ActiveRow))),
           Ok(r))
  }

  function Commit(c: Codec, disk: Disk, m: Memory, kind: CommitKind, now: int, fault: Fault): Attempt {
    if m.dirty then Attempt(disk, m, Some(UnsavedTransition))
    else
      var (written, result) := Append(c, disk, m, CommitPayload(m, kind), now, fault);
      match result
      case Err(e) => Attempt(written, m.(dirty := true), Some(e))
      case Ok(r) => Attempt(written, m.(lastHash := r.hash, transcriptLength := |m.transcript|), None)
  }

  /** Reconcile a line flushed before its index update was lost. `Ok(true)` means the pending
      record was adopted, `Ok(false)` that nothing complete had been written. */
  function Recover(c: Codec, disk: Disk, m: Memory, now: int, indexFails: bool)
    : (Disk, Memory, Result<bool, SessionError>)
  {
    if disk.row.None? || disk.row.value.owner != Some(m.owner) then (disk, m, Err(LeaseLost))
    else
      var row := disk.row.value;
      var trimmed := disk.(log := TruncateTail(disk.log));
      match ReadLog(c, trimmed.log)
      case Err(e) => (trimmed, m, Err(Unreadable(e)))
      case Ok(records) =>
        if records == [] then (trimmed, m, Err(Diverged))
        else
          var last := records[|records| - 1];
          if last.body.sequence == row.lastSeq then (trimmed, m, Ok(false))
          else if last.body.sequence != row.lastSeq + 1 || last.body.previous != row.lastHash then
            (trimmed, m, Err(Diverged))
          else if indexFails then (trimmed, m, Err(WriteFailed))
          else
            (trimmed.(row := Some(row.(lastSeq := last.body.sequence, lastHash := last.hash,
                                       expires := now + LEASE_SECONDS))),
             m.(lastHash := last.hash),
             Ok(true))
  }

  function Retry(c: Codec, disk: Disk, m: Memory, kind: CommitKind, now: int,
                 indexFails: bool, fault: Fault): Attempt
  {
    if !m.dirty then Attempt(disk, m, None)
    else
      var (recovered, m', outcome) := Recover(c, disk, m, now, indexFails);
      match outcome
      case Err(e) => Attempt(recovered, m', Some(e))
      case Ok(adopted) =>
        if adopted then
          Attempt(recovered, m'.(dirty := false, transcriptLength := |m'.transcript|), None)
        else
          Commit(c, recovered, m'.(dirty := false), kind, now, fault)
  }

  /** Audit records do not set the dirty flag, whatever happens to the write. */
  function RecordAborted(c: Codec, disk: Disk, m: Memory, userText: string, reason: string,
                         now: int, fault: Fault): Attempt
  {
    if m.dirty then Attempt(disk, m, None)
    else
      var (written, result) := Append(c, disk, m, Aborted(userText, reason), now, fault);
      match result
      case Err(e) => Attempt(written, m, Some(e))
      case Ok(r) => Attempt(written, m.(lastHash := r.hash), None)
  }

  // ---------- The same operations, updating files and fields ----------

  class Store {
    var log: Bytes
    var row: Option<Row>

    constructor (log: Bytes, row: Option<Row>)
      ensures this.log == log && this.row == row
    {
      this.log := log;
      this.row := row;
    }

    ghost function Contents(): Disk
      reads this
    {
      Disk(log, row)
    }

    /** Append at most the bytes that reach the file, in one write. */
    method AppendLine(c: Codec, r: Record, fault: Fault) returns (failed: bool)
      modifies this`log
      ensures failed <==> fault.FailsAfter?
      ensures log == old(log) + (if failed then Line(c, r)[..Min(fault.written, |Line(c, r)|)] else Line(c, r))
    {
      var line := Line(c, r);
      match fault {
        case NoFault =>
          log := log + line;
          failed := false;
        case FailsAfter(n) =>
          log := log + line[..Min(n, |line|)];
          failed := true;
      }
    }

    method TruncateIncompleteTail()
      modifies this`log
      ensures log == TruncateTail(old(log))
    {
      if log == [] || log[|log| - 1] in {LF, CR} {
        return;
      }
      var boundary := |log|;
      assert log[..boundary] == log;
      while boundary > 0 && log[boundary - 1] != LF
        invariant 0 <= boundary <= |log| && log == old(log)
        invariant AfterLastLf(log) == AfterLastLf(log[..boundary])
      {
        assert log[..boundary][..boundary - 1] == log[..boundary - 1];
        boundary := boundary - 1;
      }
      log := log[..boundary];
    }
  }

  class Handle {
    const store: Store
    const owner: Owner
    var lastHash: Bytes
    var transcriptLength: nat
    var dirty: bool
    var transcript: seq<Segment>
    var view: View

    constructor (store: Store, owner: Owner, lastHash: Bytes, transcript: seq<Segment>, view: View)
      ensures this.store == store
      ensures State() == Memory(owner, lastHash, |transcript|, false, transcript, view)
    {
      this.store := store;
      this.owner := owner;
      this.lastHash := lastHash;
      this.transcriptLength := |transcript|;
      this.dirty := false;
      this.transcript := transcript;
      this.view := view;
    }

    ghost function State(): Memory
      reads this
    {
      Memory(owner, lastHash, transcriptLength, dirty, transcript, view)
    }

    method AppendRecord(c: Codec, payload: Payload, now: int, fault: Fault)
      returns (result: Result<Record, SessionError>)
      modifies store
      ensures (store.Contents(), result) == Append(c, old(store.Contents()), State(), payload, now, fault)
    {
      if store.row.None? {
        return Err(RowMissing);
      }
      var row := store.row.value;
      if row.owner != Some(owner) {
        return Err(LeaseLost);
      }
      if row.lastHash != lastHash {
        return Err(ChangedOutside);
      }
      var sequence := row.lastSeq + 1;
      var r := MakeRecord(c, sequence, lastHash, now, payload);
      var failed := store.AppendLine(c, r, fault);
      if failed {
        return Err(WriteFailed);
      }
      store.row := Some(Row(sequence, r.hash, row.owner, now + LEASE_SECONDS, ActiveRow));
      return Ok(r);
    }

    method CommitState(c: Codec, kind: CommitKind, now: int, fault: Fault)
      returns (error: Option<SessionError>)
      modifies this, store
      ensures Attempt(store.Contents(), State(), error)
              == Commit(c, old(store.Contents()), old(State()), kind, now, fault)
    {
      if dirty {
        return Some(UnsavedTransition);
      }
      var delta := Drop(transcript, transcriptLength);
      var payload := Committed(kind, delta, view);
      var result := AppendRecord(c, payload, now, fault);
      if result.Err? {
        dirty := true;
        return Some(result.error);
      }
      lastHash := result.value.hash;
      transcriptLength := |transcript|;
      return None;
    }

    method RecoverPending(c: Codec, now: int, indexFails: bool)
      returns (result: Result<bool, SessionError>)
      modifies this`lastHash, store
      ensures (store.Contents(), State(), result)
              == Recover(c, old(store.Contents()), old(State()), now, indexFails)
    {
      if store.row.None? || store.row.value.owner != Some(owner) {
        return Err(LeaseLost);
      }
      var row := store.row.value;
      store.TruncateIncompleteTail();
      var read := ReadRecords(c, store.log);
      if read.Err? {
        return Err(Unreadable(read.error));
      }
      var records := read.value;
      if records == [] {
        return Err(Diverged);
      }
      var last := records[|records| - 1];
      if last.body.sequence == row.lastSeq {
        return Ok(false);
      }
      if last.body.sequence != row.lastSeq + 1 || last.body.previous != row.lastHash {
        return Err(Diverged);
      }
      if indexFails {
        return Err(WriteFailed);
      }
      store.row := Some(row.(lastSeq := last.body.sequence, lastHash := last.hash,
                             expires := now + LEASE_SECONDS));
      lastHash := last.hash;
      return Ok(true);
    }

    method RetrySave(c: Codec, kind: CommitKind, now: int, indexFails: bool, fault: Fault)
      returns (error: Option<SessionError>)
      modifies this, store
      ensures Attempt(store.Contents(), State(), error)
              == Retry(c, old(store.Contents()), old(State()), kind, now, indexFails, fault)
    {
      if !dirty {
        return None;
      }
      var adopted := RecoverPending(c, now, indexFails);
      if adopted.Err? {
        return Some(adopted.error);
      }
      if adopted.value {
        dirty := false;
        transcriptLength := |transcript|;
        return None;
      }
      dirty := false;
      error := CommitState(c, kind, now, fault);
      if error.Some? {
        dirty := true;
      }
    }
  }

  // ---------- Invariants ----------

  /** The log holds exactly `records` and the row and the handle agree with its end. */
  ghost predicate Settled(c: Codec, disk: Disk, m: Memory, records: seq<Record>) {
    && ValidLog(c, records)
    && disk.log == EncodeLog(c, records)
    && IndexAgrees(disk, m, records)
    && !m.dirty
  }

  ghost predicate IndexAgrees(disk: Disk, m: Memory, records: seq<Record>) {
    && disk.row.Some?
    && disk.row.value.lastSeq == |records| - 1
    && disk.row.value.lastHash == LastHash(records)
    && disk.row.value.owner == Some(m.owner)
    && m.lastHash == LastHash(records)
  }

  /** A transition is pending: the log holds `records` plus the first `k` bytes of a line that
      carries the pending payload with one of the attempted kinds. */
  ghost predicate PendingAt(c: Codec, disk: Disk, m: Memory, records: seq<Record>,
                            kinds: set<CommitKind>, r: Record, k: nat)
  {
    && ValidLog(c, records)
    && Links(c, records, r)
    && (exists kind :: kind in kinds && r.body.payload == CommitPayload(m, kind))
    && k <= |Line(c, r)|
    && disk.log == EncodeLog(c, records) + Line(c, r)[..k]
    && IndexAgrees(disk, m, records)
    && m.dirty
  }

  ghost predicate Pending(c: Codec, disk: Disk, m: Memory, records: seq<Record>, kinds: set<CommitKind>) {
    exists r: Record, k: nat :: PendingAt(c, disk, m, records, kinds, r, k)
  }

  /** The transition held by `before` was stored as the one new record `r`, and the handle now
      counts its whole transcript as stored. */
  ghost predicate StoredAs(c: Codec, disk: Disk, m: Memory, before: Memory,
                           records: seq<Record>, r: Record, kind: CommitKind)
  {
    && r.body.payload == CommitPayload(before, kind)
    && Settled(c, disk, m, records + [r])
    && m == before.(lastHash := r.hash, dirty := false, transcriptLength := |before.transcript|)
  }

  ghost predicate StoredOnce(c: Codec, disk: Disk, m: Memory, before: Memory,
                             records: seq<Record>, kinds: set<CommitKind>)
  {
    exists r: Record, kind: CommitKind ::
      kind in kinds && StoredAs(c, disk, m, before, records, r, kind)
  }

  /** What attempts starting from the pending handle `m` may leave behind: the transition still
      pending and nothing else changed in memory, or stored exactly once. */
  ghost predicate Outcome(c: Codec, disk: Disk, after: Memory, m: Memory,
                          records: seq<Record>, kinds: set<CommitKind>)
  {
    if after.dirty then after == m.(dirty := true) && Pending(c, disk, after, records, kinds)
    else StoredOnce(c, disk, after, m, records, kinds)
  }

  lemma MoreKinds(c: Codec, disk: Disk, after: Memory, m: Memory, records: seq<Record>,
                  kinds: set<CommitKind>, more: set<CommitKind>)
    requires Outcome(c, disk, after, m, records, kinds) && kinds <= more
    ensures Outcome(c, disk, after, m, records, more)
  {
    if after.dirty {
      var r: Record, k: nat :| PendingAt(c, disk, after, records, kinds, r, k);
      assert PendingAt(c, disk, after, records, more, r, k);
    } else {
      var r: Record, kind: CommitKind :| kind in kinds && StoredAs(c, disk, after, m, records, r, kind);
      assert kind in more;
    }
  }

  lemma SettledAfter(c: Codec, disk: Disk, m: Memory, records: seq<Record>, r: Record)
    requires ValidLog(c, records) && Links(c, records, r)
    requires disk.log == EncodeLog(c, records) + Line(c, r)
    requires disk.row.Some? && disk.row.value.owner == Some(m.owner) && !m.dirty
    requires disk.row.value.lastSeq == |records| && disk.row.value.lastHash == r.hash == m.lastHash
    ensures Settled(c, disk, m, records + [r])
  {
    ChainExtend(c, records, r);
    assert (records + [r])[..|records|] == records;
  }

  /** Recovery adopts a record exactly if it is the one after the record the index knows, by number and by
      hash; then index and handle know it, with a full lease. A record out of step is reported, the same one
      leaves everything to a fresh commit, and the bytes of a torn line are gone in every case. */
  lemma RecoveryAdoptsIff(c: Codec, disk: Disk, m: Memory, now: int, indexFails: bool)
    requires disk.row.Some? && disk.row.value.owner == Some(m.owner)
    requires ReadLog(c, TruncateTail(disk.log)).Ok? && ReadLog(c, TruncateTail(disk.log)).value != []
    ensures var records := ReadLog(c, TruncateTail(disk.log)).value;
            var last, row := records[|records| - 1], disk.row.value;
            var (after, m', result) := Recover(c, disk, m, now, indexFails);
            var next := last.body.sequence == row.lastSeq + 1 && last.body.previous == row.lastHash;
            && after.log == TruncateTail(disk.log)
            && (result == Ok(true) <==> next && !indexFails)
            && (result == Ok(false) <==> last.body.sequence == row.lastSeq)
            && (result == Err(Diverged) <==> !next && last.body.sequence != row.lastSeq)
            && (result == Ok(true) ==>
                  && after.row == Some(Row(last.body.sequence, last.hash, row.owner, now + LEASE_SECONDS, row.status))
                  && m' == m.(lastHash := last.hash))
            && (result != Ok(true) ==> after.row == disk.row && m' == m)
  {
    hide ReadLog, TruncateTail;
  }

  /** An audit record that is stored leaves log, row and handle in agreement, with no segment counted as
      stored that is not. */
  lemma AuditKeepsSettled(c: Codec, disk: Disk, m: Memory, records: seq<Record>, userText: string, reason: string,
                          now: int)
    requires Settled(c, disk, m, records)
    ensures var a := RecordAborted(c, disk, m, userText, reason, now, NoFault);
            var r := MakeRecord(c, |records|, LastHash(records), now, Aborted(userText, reason));
            && a.error == None && Settled(c, a.disk, a.memory, records + [r])
            && a.memory == m.(lastHash := r.hash)
  {
    hide EncodeLog, Chain;
    var a := RecordAborted(c, disk, m, userText, reason, now, NoFault);
    var r := MakeRecord(c, |records|, LastHash(records), now, Aborted(userText, reason));
    SettledAfter(c, a.disk, a.memory, records, r);
  }

  /** One commit attempt, failing anywhere or not at all. */
  lemma CommitOutcome(c: Codec, disk: Disk, m: Memory, records: seq<Record>,
                      kind: CommitKind, now: int, fault: Fault)
    requires Settled(c, disk, m, records)
    ensures var a := Commit(c, disk, m, kind, now, fault);
            && (a.error.None? <==> fault.NoFault?) && (a.error.None? <==> !a.memory.dirty)
            && Outcome(c, a.disk, a.memory, m, records, {kind})
  {
    var a := Commit(c, disk, m, kind, now, fault);
    var r := MakeRecord(c, |records|, m.lastHash, now, CommitPayload(m, kind));
    if fault.NoFault? {
      SettledAfter(c, a.disk, a.memory, records, r);
      assert StoredAs(c, a.disk, a.memory, m, records, r, kind);
    } else {
      assert CommitPayload(a.memory, kind) == CommitPayload(m, kind);
      assert PendingAt(c, a.disk, a.memory, records, {kind}, r, Min(fault.written, |Line(c, r)|));
    }
  }

  /** Truncation leaves either the old log or the old log plus the whole pending line. */
  lemma RecoverPendingLog(c: Codec, records: seq<Record>, r: Record, k: nat)
    requires c.Faithful() && ValidLog(c, records) && Links(c, records, r) && k <= |Line(c, r)|
    ensures var log := TruncateTail(EncodeLog(c, records) + Line(c, r)[..k]);
            if k < |Line(c, r)|
            then log == EncodeLog(c, records) && ReadLog(c, log) == Ok(records)
            else log == EncodeLog(c, records) + Line(c, r) && ReadLog(c, log) == Ok(records + [r])
  {
    assert c.FaithfulFor(r);
    if k < |Line(c, r)| {
      var tail := Line(c, r)[..k];
      assert forall b :: b in tail ==> b in c.canonical(r);
      TruncateTornLog(c, records, tail);
      WrittenLogReadsBack(c, records);
    } else {
      assert Line(c, r)[..k] == Line(c, r);
      TornLogReadsBack(c, records, r, k);
    }
  }

  /** A retry that finds the whole line on disk adopts it, unless the index write fails again. */
  lemma RetryAdopts(c: Codec, disk: Disk, m: Memory, records: seq<Record>, kinds: set<CommitKind>,
                    r: Record, kind: CommitKind, now: int, indexFails: bool, fault: Fault)
    requires c.Faithful() && PendingAt(c, disk, m, records, kinds, r, |Line(c, r)|)
    ensures var a := Retry(c, disk, m, kind, now, indexFails, fault);
            if indexFails then a == Attempt(disk, m, Some(WriteFailed))
            else a.error.None? && StoredOnce(c, a.disk, a.memory, m, records, kinds)
  {
    var a := Retry(c, disk, m, kind, now, indexFails, fault);
    RecoverPendingLog(c, records, r, |Line(c, r)|);
    assert (records + [r])[|records|] == r;
    assert Line(c, r)[..|Line(c, r)|] == Line(c, r);
    if !indexFails {
      SettledAfter(c, a.disk, a.memory, records, r);
      var k :| k in kinds && r.body.payload == CommitPayload(m, k);
      assert StoredAs(c, a.disk, a.memory, m, records, r, k);
    }
  }

  /** A retry that finds less than the whole line removes it and commits afresh. */
  lemma RetryRewrites(c: Codec, disk: Disk, m: Memory, records: seq<Record>, kinds: set<CommitKind>,
                      r: Record, k: nat, kind: CommitKind, now: int, indexFails: bool, fault: Fault)
    requires c.Faithful() && PendingAt(c, disk, m, records, kinds, r, k) && k < |Line(c, r)|
    ensures var clean := disk.(log := EncodeLog(c, records));
            && Settled(c, clean, m.(dirty := false), records)
            && Retry(c, disk, m, kind, now, indexFails, fault)
               == Commit(c, clean, m.(dirty := false), kind, now, fault)
  {
    RecoverPendingLog(c, records, r, k);
    assert records[|records| - 1].body.sequence == |records| - 1;
  }

  /** One retry from a pending transition: it is stored exactly once, or it is still pending. */
  lemma RetryOutcome(c: Codec, disk: Disk, m: Memory, records: seq<Record>, kinds: set<CommitKind>,
                     kind: CommitKind, now: int, indexFails: bool, fault: Fault)
    requires c.Faithful() && Pending(c, disk, m, records, kinds)
    ensures var a := Retry(c, disk, m, kind, now, indexFails, fault);
            && Outcome(c, a.disk, a.memory, m, records, kinds + {kind})
            && (a.error.None? <==> !a.memory.dirty)
            && (fault.NoFault? && !indexFails ==> a.error.None?)
  {
    var a := Retry(c, disk, m, kind, now, indexFails, fault);
    var r: Record, k: nat :| PendingAt(c, disk, m, records, kinds, r, k);
    if k == |Line(c, r)| {
      RetryAdopts(c, disk, m, records, kinds, r, kind, now, indexFails, fault);
      MoreKinds(c, a.disk, a.memory, m, records, kinds, kinds + {kind});
    } else {
      var m0 := m.(dirty := false);
      RetryRewrites(c, disk, m, records, kinds, r, k, kind, now, indexFails, fault);
      CommitOutcome(c, disk.(log := EncodeLog(c, records)), m0, records, kind, now, fault);
      SamePayload(c, a.disk, a.memory, m0, m, records, {kind});
      MoreKinds(c, a.disk, a.memory, m, records, {kind}, kinds + {kind});
    }
  }

  /** The dirty flag is not part of the transition. */
  lemma SamePayload(c: Codec, disk: Disk, after: Memory, m: Memory, other: Memory,
                    records: seq<Record>, kinds: set<CommitKind>)
    requires Outcome(c, disk, after, m, records, kinds) && m.(dirty := true) == other.(dirty := true)
    ensures Outcome(c, disk, after, other, records, kinds)
  {
    assert forall kind :: CommitPayload(m, kind) == CommitPayload(other, kind);
    if !after.dirty {
      var r: Record, kind: CommitKind :| kind in kinds && StoredAs(c, disk, after, m, records, r, kind);
      assert StoredAs(c, disk, after, other, records, r, kind);
    }
  }

  // ---------- Whole runs of retries ----------

  datatype RetryCall = RetryCall(kind: CommitKind, now: int, indexFails: bool, fault: Fault)
  {
    predicate Clean() { !indexFails && fault.NoFault? }
  }

  function RetryAll(c: Codec, disk: Disk, m: Memory, calls: seq<RetryCall>): (Disk, Memory)
    decreases |calls|
  {
    if calls == [] then (disk, m)
    else
      var a := Retry(c, disk, m, calls[0].kind, calls[0].now, calls[0].indexFails, calls[0].fault);
      RetryAll(c, a.disk, a.memory, calls[1..])
  }

  function KindsOf(calls: seq<RetryCall>): set<CommitKind> {
    if calls == [] then {} else {calls[0].kind} + KindsOf(calls[1..])
  }

  lemma {:induction false} SavedRetryIsNoOp(c: Codec, disk: Disk, m: Memory, calls: seq<RetryCall>)
    requires !m.dirty
    ensures RetryAll(c, disk, m, calls) == (disk, m)
    decreases |calls|
  {
    if calls != [] {
      SavedRetryIsNoOp(c, disk, m, calls[1..]);
    }
  }

  lemma {:induction false} RetriesFromPending(c: Codec, disk: Disk, m: Memory, records: seq<Record>,
                                              kinds: set<CommitKind>, calls: seq<RetryCall>)
    requires c.Faithful() && Pending(c, disk, m, records, kinds)
    ensures var (disk', m') := RetryAll(c, disk, m, calls);
            && Outcome(c, disk', m', m, records, kinds + KindsOf(calls))
            && ((exists i :: 0 <= i < |calls| && calls[i].Clean()) ==> !m'.dirty)
    decreases |calls|, 0
  {
    if calls == [] {
      assert kinds + KindsOf(calls) == kinds;
      assert Outcome(c, disk, m, m, records, kinds);
    } else {
      var call, rest := calls[0], calls[1..];
      RetryOutcome(c, disk, m, records, kinds, call.kind, call.now, call.indexFails, call.fault);
      RetriesAfter(c, Retry(c, disk, m, call.kind, call.now, call.indexFails, call.fault),
                   m, records, kinds + {call.kind}, rest);
      assert kinds + {call.kind} + KindsOf(rest) == kinds + KindsOf(calls);
      if i :| 0 < i < |calls| && calls[i].Clean() {
        assert rest[i - 1].Clean();
      }
    }
  }

  /** The retries that follow one attempt `a` made from the pending handle `m`. */
  lemma {:induction false} RetriesAfter(c: Codec, a: Attempt, m: Memory, records: seq<Record>,
                                        kinds: set<CommitKind>, calls: seq<RetryCall>)
    requires c.Faithful() && Outcome(c, a.disk, a.memory, m, records, kinds)
    ensures var (disk', m') := RetryAll(c, a.disk, a.memory, calls);
            && Outcome(c, disk', m', m, records, kinds + KindsOf(calls))
            && (!a.memory.dirty || (exists i :: 0 <= i < |calls| && calls[i].Clean()) ==> !m'.dirty)
    decreases |calls|, 1
  {
    if a.memory.dirty {
      RetriesFromPending(c, a.disk, a.memory, records, kinds, calls);
      var (disk', m') := RetryAll(c, a.disk, a.memory, calls);
      SamePayload(c, disk', m', a.memory, m, records, kinds + KindsOf(calls));
    } else {
      SavedRetryIsNoOp(c, a.disk, a.memory, calls);
      MoreKinds(c, a.disk, a.memory, m, records, kinds, kinds + KindsOf(calls));
    }
  }

  /** A commit that fails anywhere, followed by any number of retries that may fail anywhere too:
      the transition is on disk at most once, it is there exactly once as soon as the handle is
      clean, and one undisturbed retry is enough. */
  lemma CommitAndRetriesStoreExactlyOnce(
      c: Codec, disk: Disk, m: Memory, records: seq<Record>,
      kind: CommitKind, now: int, fault: Fault, calls: seq<RetryCall>)
    requires c.Faithful() && Settled(c, disk, m, records)
    ensures var first := Commit(c, disk, m, kind, now, fault);
            var (disk', m') := RetryAll(c, first.disk, first.memory, calls);
            && Outcome(c, disk', m', m, records, {kind} + KindsOf(calls))
            && (fault.NoFault? || (exists i :: 0 <= i < |calls| && calls[i].Clean()) ==> !m'.dirty)
  {
    CommitOutcome(c, disk, m, records, kind, now, fault);
    RetriesAfter(c, Commit(c, disk, m, kind, now, fault), m, records, {kind}, calls);
  }

  // ---------- Where the guarantee stops ----------

  /** The first retry after a failed commit, in full: which kind the stored record carries. */
  lemma FirstRetryStores(c: Codec, disk: Disk, m: Memory, records: seq<Record>,
                         kind: CommitKind, retryKind: CommitKind, now: int, later: int, k: nat)
    requires c.Faithful() && m.dirty
    requires PendingAt(c, disk, m, records, {kind},
                       MakeRecord(c, |records|, m.lastHash, now, CommitPayload(m, kind)), k)
    ensures var line := Line(c, MakeRecord(c, |records|, m.lastHash, now, CommitPayload(m, kind)));
            var saved := Retry(c, disk, m, retryKind, later, false, NoFault);
            StoredOnce(c, saved.disk, saved.memory, m, records, {if k == |line| then kind else retryKind})
  {
    var r := MakeRecord(c, |records|, m.lastHash, now, CommitPayload(m, kind));
    if k == |Line(c, r)| {
      RetryAdopts(c, disk, m, records, {kind}, r, retryKind, later, false, NoFault);
    } else {
      var clean := disk.(log := EncodeLog(c, records));
      RetryRewrites(c, disk, m, records, {kind}, r, k, retryKind, later, false, NoFault);
      CommitOutcome(c, clean, m.(dirty := false), records, retryKind, later, NoFault);
      var saved := Commit(c, clean, m.(dirty := false), retryKind, later, NoFault);
      SamePayload(c, saved.disk, saved.memory, m.(dirty := false), m, records, {retryKind});
    }
  }

  /** A retry keeps the kind of the failed commit exactly when the whole line had reached the
      disk, or when the caller passes that kind again. */
  lemma RetryKeepsKindIff(c: Codec, disk: Disk, m: Memory, records: seq<Record>,
                          kind: CommitKind, retryKind: CommitKind, now: int, later: int, written: nat)
    requires c.Faithful() && Settled(c, disk, m, records)
    ensures var failed := Commit(c, disk, m, kind, now, FailsAfter(written));
            var saved := Retry(c, failed.disk, failed.memory, retryKind, later, false, NoFault);
            var line := Line(c, MakeRecord(c, |records|, m.lastHash, now, CommitPayload(m, kind)));
            && StoredOnce(c, saved.disk, saved.memory, m, records,
                          {if written >= |line| then kind else retryKind})
            && (CommitPayload(m, if written >= |line| then kind else retryKind) == CommitPayload(m, kind)
                <==> written >= |line| || retryKind == kind)
  {
    var failed := Commit(c, disk, m, kind, now, FailsAfter(written));
    var m1 := m.(dirty := true);
    var r := MakeRecord(c, |records|, m.lastHash, now, CommitPayload(m, kind));
    var k := Min(written, |Line(c, r)|);
    assert failed.memory == m1 && CommitPayload(m1, kind) == CommitPayload(m, kind);
    assert PendingAt(c, failed.disk, m1, records, {kind}, r, k);
    FirstRetryStores(c, failed.disk, m1, records, kind, retryKind, now, later, k);
    var saved := Retry(c, failed.disk, m1, retryKind, later, false, NoFault);
    SamePayload(c, saved.disk, saved.memory, m1, m, records,
                {if written >= |Line(c, r)| then kind else retryKind});
  }

  /** Appending a line to a log that ends on a line boundary. */
  lemma AppendToCleanLog(c: Codec, records: seq<Record>, s: Record)
    requires c.Faithful() && ValidLog(c, records)
    ensures ReadLog(c, EncodeLog(c, records) + Line(c, s))
            == if Links(c, records, s) then Ok(records + [s]) else Err(BrokenChain)
  {
    assert c.FaithfulFor(s);
    SingleLine(c.canonical(s));
    WrittenLogWithTail(c, records, Line(c, s));
  }

  /** Appending a line right behind a non-empty piece of another. */
  lemma AppendToTornLog(c: Codec, records: seq<Record>, r: Record, k: nat, s: Record)
    requires c.Faithful() && c.NoSplicing()
    requires ValidLog(c, records) && 0 < k <= |c.canonical(r)|
    ensures ReadLog(c, EncodeLog(c, records) + c.canonical(r)[..k] + Line(c, s)) == Err(InvalidJson)
  {
    assert c.FaithfulFor(r) && c.FaithfulFor(s) && c.NoSplicingFor(r, s);
    var piece := c.canonical(r)[..k];
    assert forall b :: b in piece ==> b in c.canonical(r);
    SingleLine(piece + c.canonical(s));
    assert EncodeLog(c, records) + piece + Line(c, s)
        == EncodeLog(c, records) + (piece + c.canonical(s) + [LF]);
    WrittenLogWithTail(c, records, piece + c.canonical(s) + [LF]);
  }

  /** Appending behind a piece of a line that was never truncated. */
  lemma AppendAfterTear(c: Codec, records: seq<Record>, r: Record, k: nat, s: Record)
    requires c.Faithful() && c.NoSplicing()
    requires ValidLog(c, records) && Links(c, records, r) && k <= |Line(c, r)|
    ensures ReadLog(c, EncodeLog(c, records) + Line(c, r)[..k] + Line(c, s)).Ok?
            <==> || (k == 0 && Links(c, records, s))
                 || (k == |Line(c, r)| && Links(c, records + [r], s))
  {
    var longer := records + [r];
    if k == |Line(c, r)| {
      ChainExtend(c, records, r);
      assert longer[..|records|] == records;
      assert EncodeLog(c, records) + Line(c, r)[..k] == EncodeLog(c, longer);
      AppendToCleanLog(c, longer, s);
    } else if k == 0 {
      assert EncodeLog(c, records) + Line(c, r)[..k] == EncodeLog(c, records);
      AppendToCleanLog(c, records, s);
    } else {
      assert Line(c, r)[..k] == c.canonical(r)[..k];
      AppendToTornLog(c, records, r, k, s);
    }
  }

  lemma SingleLine(text: Bytes)
    requires LF !in text && CR !in text
    ensures FirstLine(text + [LF]) == |text + [LF]|
  {
    FirstLineOfCleanLine(text, []);
    assert text + [LF] + [] == text + [LF];
  }

  /** A failed audit record leaves the handle clean, so the next commit is not preceded by a
      repair: it reports success, and the log can be read again exactly when the failed write had
      stored nothing. */
  lemma CommitAfterFailedAuditRecord(
      c: Codec, disk: Disk, m: Memory, records: seq<Record>, userText: string, reason: string,
      now: int, written: nat, kind: CommitKind, later: int)
    requires c.Faithful() && c.NoSplicing() && Settled(c, disk, m, records)
    ensures var failed := RecordAborted(c, disk, m, userText, reason, now, FailsAfter(written));
            var saved := Commit(c, failed.disk, failed.memory, kind, later, NoFault);
            && failed.error == Some(WriteFailed)
            && saved.error == None
            && (ReadLog(c, saved.disk.log).Ok? <==> written == 0)
  {
    var r := MakeRecord(c, |records|, m.lastHash, now, Aborted(userText, reason));
    var s := MakeRecord(c, |records|, m.lastHash, later, CommitPayload(m, kind));
    AppendAfterTear(c, records, r, Min(written, |Line(c, r)|), s);
  }

  /** Resume never truncates: a record appended by the resumed writer keeps the log readable
      exactly when the log it resumed from ended on a line boundary. */
  lemma AppendAfterResume(c: Codec, records: seq<Record>, r: Record, k: nat, timestamp: int, payload: Payload)
    requires c.Faithful() && c.NoSplicing()
    requires ValidLog(c, records) && Links(c, records, r) && k <= |Line(c, r)|
    ensures var log := EncodeLog(c, records) + Line(c, r)[..k];
            && ReadLog(c, log).Ok?
            && var resumed := ReadLog(c, log).value;
               var s := MakeRecord(c, |resumed|, LastHash(resumed), timestamp, payload);
               ReadLog(c, log + Line(c, s)).Ok? <==> k == 0 || k == |Line(c, r)|
  {
    TornLogReadsBack(c, records, r, k);
    var resumed := ReadLog(c, EncodeLog(c, records) + Line(c, r)[..k]).value;
    AppendAfterTear(c, records, r, k, MakeRecord(c, |resumed|, LastHash(resumed), timestamp, payload));
    assert c.FaithfulFor(r);
  }
}
