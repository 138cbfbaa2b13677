/** Several processes around one session at the level of bytes: writes that stop anywhere, retries by
    the holder of the lease, and resumes and index rebuilds, which read the log without truncating it. */
module SessionTears {
  import opened Basics
  import opened Conversation
  import opened SessionRecords
  import opened SessionLog
  import opened SessionStore

  /** The disk and the running handles. A resume or a rebuild is one step here. */
  datatype World = World(disk: Disk, handles: map<Owner, Memory>, nextOwner: Owner)

  datatype Step =
    | Work(owner: Owner, transcript: seq<Segment>, view: View)
    | CommitBy(owner: Owner, kind: CommitKind, now: int, fault: Fault)
    | AuditBy(owner: Owner, userText: string, reason: string, now: int, fault: Fault)
    | RetryBy(owner: Owner, kind: CommitKind, now: int, indexFails: bool, fault: Fault)
    | Resume(now: int, transcript: seq<Segment>, view: View)   // with what replay restores
    | Rebuild(now: int)
    | Release(owner: Owner)

  function Adopted(w: World, a: Attempt, o: Owner): World {
    w.(disk := a.disk, handles := w.handles[o := a.memory])
  }

  predicate Blocked(row: Row, now: int) { row.owner.Some? && row.expires > now }

  /** The row after its log was read as `records`, which is not empty. */
  function Refreshed(row: Row, records: seq<Record>): Row
    requires records != []
  {
    var last := records[|records| - 1];
    row.(lastSeq := last.body.sequence, lastHash := last.hash,
         status := if last.body.payload.Closed? then ClosedRow else ActiveRow)
  }

  /** The row after its log could not be read; the reader's own crash leaves it as it is. */
  function Marked(row: Row, e: LogError): Row {
    if e.ReaderCrash? then row else row.(status := DamagedRow, owner := None)
  }

  function ResumeBy(c: Codec, w: World, row: Row, now: int, transcript: seq<Segment>, view: View): World {
    var acquired := row.(owner := Some(w.nextOwner), expires := now + LEASE_SECONDS, status := ActiveRow);
    match ReadLog(c, w.disk.log)
    case Err(e) => World(w.disk.(row := Some(Marked(acquired, e).(owner := None))), w.handles, w.nextOwner + 1)
    case Ok(records) =>
      if records == [] then w
      else
        World(w.disk.(row := Some(Refreshed(acquired, records).(status := ActiveRow))),
              w.handles[w.nextOwner := Memory(w.nextOwner, LastHash(records), |transcript|, false, transcript, view)],
              w.nextOwner + 1)
  }

  function RebuildRow(c: Codec, disk: Disk, row: Row): Row {
    match ReadLog(c, disk.log)
    case Err(e) => Marked(row, e)
    case Ok(records) => if records == [] then row else Refreshed(row, records).(owner := None)
  }

  /** One step; a step that is not enabled changes nothing. */
  function Next(c: Codec, w: World, step: Step): World {
    match step
    case Work(o, transcript, view) =>
      if o !in w.handles then w
      else w.(handles := w.handles[o := w.handles[o].(transcript := transcript, view := view)])
    case CommitBy(o, kind, now, fault) =>
      if o !in w.handles then w else Adopted(w, Commit(c, w.disk, w.handles[o], kind, now, fault), o)
    case AuditBy(o, userText, reason, now, fault) =>
      if o !in w.handles then w
      else Adopted(w, RecordAborted(c, w.disk, w.handles[o], userText, reason, now, fault), o)
    case RetryBy(o, kind, now, indexFails, fault) =>
      if o !in w.handles then w else Adopted(w, Retry(c, w.disk, w.handles[o], kind, now, indexFails, fault), o)
    case Resume(now, transcript, view) =>
      if w.disk.row.None? || w.disk.row.value.status in {DeletedRow, DamagedRow} || Blocked(w.disk.row.value, now)
      then w
      else ResumeBy(c, w, w.disk.row.value, now, transcript, view)
    case Rebuild(now) =>
      if w.disk.row.None? || Blocked(w.disk.row.value, now) then w
      else w.(disk := w.disk.(row := Some(RebuildRow(c, w.disk, w.disk.row.value))))
    case Release(o) =>
      if w.disk.row.Some? && w.disk.row.value.owner == Some(o)
      then w.(disk := w.disk.(row := Some(w.disk.row.value.(owner := None)))) else w
  }

  function Run(c: Codec, w: World, steps: seq<Step>): World
    decreases |steps|
  {
    if steps == [] then w else Run(c, Next(c, w, steps[0]), steps[1..])
  }

  // ---------- Appends behind a piece ----------

  /** The log ends on a line boundary with the record the index knows as the last one. */
  predicate Clean(c: Codec, disk: Disk) {
    && disk.row.Some?
    && disk.log != [] && disk.log[|disk.log| - 1] == LF
    && ReadLog(c, disk.log).Ok?
    && var records := ReadLog(c, disk.log).value;
       records != [] && records[|records| - 1].body.sequence == disk.row.value.lastSeq
  }

  /** The checks of an append let this handle through. */
  predicate MayAppend(disk: Disk, m: Memory) {
    !m.dirty && disk.row.Some? && disk.row.value.owner == Some(m.owner) && disk.row.value.lastHash == m.lastHash
  }

  function FaultOf(step: Step): Fault {
    match step
    case CommitBy(_, _, _, fault) => fault
    case AuditBy(_, _, _, _, fault) => fault
    case _ => FailsAfter(0)
  }

  /** A commit or an audit record that puts bytes behind a log that is not clean. */
  predicate Glues(c: Codec, w: World, step: Step) {
    && (step.CommitBy? || step.AuditBy?)
    && step.owner in w.handles && MayAppend(w.disk, w.handles[step.owner])
    && FaultOf(step) != FailsAfter(0)
    && !Clean(c, w.disk)
  }

  predicate EverGlues(c: Codec, w: World, steps: seq<Step>)
    decreases |steps|
  {
    steps != [] && (Glues(c, w, steps[0]) || EverGlues(c, Next(c, w, steps[0]), steps[1..]))
  }

  /** No append that goes behind a piece is itself cut short. */
  predicate GluesWhole(c: Codec, w: World, steps: seq<Step>)
    decreases |steps|
  {
    steps == [] ||
    (&& (Glues(c, w, steps[0]) ==> FaultOf(steps[0]).NoFault?)
     && GluesWhole(c, Next(c, w, steps[0]), steps[1..]))
  }

  // ---------- One chain and at most one piece ----------

  /** How index and log stand to each other: the index does not know the piece, it knows the record of a
      line that only lacks its newline, or it knows a record that the log has lost. */
  datatype Form = Behind | Unterminated | Ahead

  predicate Agrees(row: Row, records: seq<Record>) {
    row.lastSeq == |records| - 1 && row.lastHash == LastHash(records)
  }

  ghost predicate Holds(c: Codec, disk: Disk, records: seq<Record>, r: Record, k: nat, form: Form) {
    && ValidLog(c, records) && Links(c, records, r) && k <= |Line(c, r)|
    && disk.row.Some?
    && disk.log == EncodeLog(c, records) + Line(c, r)[..k]
    && (form.Behind? ==> Agrees(disk.row.value, records))
    && (form.Unterminated? ==> k == |c.canonical(r)| && Agrees(disk.row.value, records + [r]))
    && (form.Ahead? ==> k == 0 && Agrees(disk.row.value, records + [r]))
  }

  ghost predicate Inv(c: Codec, disk: Disk) {
    exists records: seq<Record>, r: Record, k: nat, form: Form :: Holds(c, disk, records, r, k, form)
  }

  /** Some record that may come next. */
  function SomeNext(c: Codec, records: seq<Record>): (r: Record)
    ensures Links(c, records, r)
  {
    MakeRecord(c, |records|, LastHash(records), 0, Aborted("", ""))
  }

  lemma LongerLog(c: Codec, disk: Disk, records: seq<Record>, r: Record)
    requires ValidLog(c, records) && Links(c, records, r)
    requires disk.row.Some? && Agrees(disk.row.value, records + [r])
    requires disk.log == EncodeLog(c, records) + Line(c, r)
    ensures Holds(c, disk, records + [r], SomeNext(c, records + [r]), 0, Behind)
  {
    ChainExtend(c, records, r);
    assert (records + [r])[..|records|] == records;
    assert EncodeLog(c, records + [r]) == EncodeLog(c, records) + Line(c, r);
    var next := SomeNext(c, records + [r]);
    assert Line(c, next)[..0] == [];
  }

  /** What a reader finds. */
  lemma HeldLogReads(c: Codec, disk: Disk, records: seq<Record>, r: Record, k: nat, form: Form)
    requires c.Faithful() && Holds(c, disk, records, r, k, form)
    ensures ReadLog(c, disk.log) == if k < |c.canonical(r)| then Ok(records) else Ok(records + [r])
    ensures |c.canonical(r)| > 0
  {
    TornLogReadsBack(c, records, r, k);
    assert c.FaithfulFor(r);
  }

  lemma CleanIffNoPiece(c: Codec, disk: Disk, records: seq<Record>, r: Record, k: nat, form: Form)
    requires c.Faithful() && Holds(c, disk, records, r, k, form)
    ensures Clean(c, disk) <==> form.Behind? && k == 0
  {
    HeldLogReads(c, disk, records, r, k, form);
    assert c.FaithfulFor(r);
    assert records[|records| - 1].body.sequence == |records| - 1;
    assert (records + [r])[|records|] == r && r.body.sequence == |records|;
    if k == 0 {
      assert disk.log == EncodeLog(c, records);
    } else {
      assert disk.log[|disk.log| - 1] == Line(c, r)[k - 1];
      if k < |Line(c, r)| { assert Line(c, r)[k - 1] in c.canonical(r); }
    }
  }

  // ---------- Every step keeps it, unless it glues ----------

  lemma HoldsGivesInv(c: Codec, disk: Disk, records: seq<Record>, r: Record, k: nat, form: Form)
    requires Holds(c, disk, records, r, k, form)
    ensures Inv(c, disk)
  {
  }

  /** An append to a clean log leaves the new line or a piece of it. */
  lemma CleanAppendKeepsInv(c: Codec, disk: Disk, m: Memory, payload: Payload, now: int, fault: Fault,
                            records: seq<Record>)
    requires ValidLog(c, records) && disk.log == EncodeLog(c, records)
    requires disk.row.Some? && Agrees(disk.row.value, records)
    requires disk.row.value.owner == Some(m.owner) && disk.row.value.lastHash == m.lastHash
    ensures Inv(c, Append(c, disk, m, payload, now, fault).0)
  {
    hide EncodeLog, Chain, Line;
    var after := Append(c, disk, m, payload, now, fault).0;
    var next := MakeRecord(c, disk.row.value.lastSeq + 1, m.lastHash, now, payload);
    if fault.NoFault? {
      LongerLog(c, after, records, next);
      HoldsGivesInv(c, after, records + [next], SomeNext(c, records + [next]), 0, Behind);
    } else {
      HoldsGivesInv(c, after, records, next, Min(fault.written, |Line(c, next)|), Behind);
    }
  }

  lemma AppendKeepsInv(c: Codec, disk: Disk, m: Memory, payload: Payload, now: int, fault: Fault)
    requires c.Faithful() && Inv(c, disk)
    requires (&& disk.row.Some? && disk.row.value.owner == Some(m.owner) && disk.row.value.lastHash == m.lastHash
              && fault != FailsAfter(0)) ==> Clean(c, disk)
    ensures Inv(c, Append(c, disk, m, payload, now, fault).0)
  {
    hide EncodeLog, Chain, Inv, Clean, ReadLog;
    SomeHolds(c, disk);
    var records: seq<Record>, r: Record, k: nat, form: Form :| Holds(c, disk, records, r, k, form);
    var row := disk.row.value;
    if row.owner == Some(m.owner) && row.lastHash == m.lastHash {
      if fault == FailsAfter(0) {
        var line := Line(c, MakeRecord(c, row.lastSeq + 1, m.lastHash, now, payload));
        assert line[..0] == [] && disk.log + [] == disk.log;
      } else {
        CleanIffNoPiece(c, disk, records, r, k, form);
        assert Line(c, r)[..0] == [] && disk.log == EncodeLog(c, records);
        CleanAppendKeepsInv(c, disk, m, payload, now, fault, records);
      }
    }
  }

  lemma SomeHolds(c: Codec, disk: Disk)
    requires Inv(c, disk)
    ensures exists records: seq<Record>, r: Record, k: nat, form: Form :: Holds(c, disk, records, r, k, form)
  {
  }

  /** A retry by the holder of the lease never appends behind a piece. It ends in `Diverged` exactly if the
      index knows a record whose line lacks its newline, which it then removes, or one already removed. */
  lemma RetryKeepsInv(c: Codec, disk: Disk, m: Memory, kind: CommitKind, now: int, indexFails: bool, fault: Fault,
                      records: seq<Record>, r: Record, k: nat, form: Form)
    requires c.Faithful() && Holds(c, disk, records, r, k, form)
    ensures var a := Retry(c, disk, m, kind, now, indexFails, fault);
            && Inv(c, a.disk)
            && (m.dirty && disk.row.value.owner == Some(m.owner) ==>
                  && (a.error == Some(Diverged) <==> !form.Behind?)
                  && (!form.Behind? ==> a.disk == disk.(log := EncodeLog(c, records))))
  {
    var a := Retry(c, disk, m, kind, now, indexFails, fault);
    if m.dirty && disk.row.value.owner == Some(m.owner) {
      RecoverPendingLog(c, records, r, k);
      assert records[|records| - 1].body.sequence == |records| - 1 by { LastSequence(c, records); }
      if k == |Line(c, r)| {
        RecoveredWhole(c, disk, m, kind, now, indexFails, fault, records, r);
      } else if form.Behind? {
        RecoveredPiece(c, disk, m, kind, now, indexFails, fault, records, r, k);
      } else {
        assert Line(c, r)[..0] == [];
        assert Holds(c, a.disk, records, r, 0, Ahead);
      }
    } else {
      assert Holds(c, a.disk, records, r, k, form);
    }
  }

  lemma LastSequence(c: Codec, records: seq<Record>)
    requires ValidLog(c, records)
    ensures records[|records| - 1].body.sequence == |records| - 1
    ensures records[|records| - 1].hash == LastHash(records)
  {
  }

  lemma RecoveredWhole(c: Codec, disk: Disk, m: Memory, kind: CommitKind, now: int, indexFails: bool, fault: Fault,
                       records: seq<Record>, r: Record)
    requires c.Faithful() && Holds(c, disk, records, r, |Line(c, r)|, Behind)
    requires m.dirty && disk.row.value.owner == Some(m.owner)
    ensures var a := Retry(c, disk, m, kind, now, indexFails, fault); Inv(c, a.disk) && a.error != Some(Diverged)
  {
    var a := Retry(c, disk, m, kind, now, indexFails, fault);
    RecoverPendingLog(c, records, r, |Line(c, r)|);
    assert Line(c, r)[..|Line(c, r)|] == Line(c, r);
    assert (records + [r])[|records|] == r;
    if indexFails {
      assert Holds(c, a.disk, records, r, |Line(c, r)|, Behind);
    } else {
      LongerLog(c, a.disk, records, r);
    }
  }

  lemma RecoveredPiece(c: Codec, disk: Disk, m: Memory, kind: CommitKind, now: int, indexFails: bool, fault: Fault,
                       records: seq<Record>, r: Record, k: nat)
    requires c.Faithful() && Holds(c, disk, records, r, k, Behind) && k < |Line(c, r)|
    requires m.dirty && disk.row.value.owner == Some(m.owner)
    ensures var a := Retry(c, disk, m, kind, now, indexFails, fault); Inv(c, a.disk) && a.error != Some(Diverged)
  {
    hide EncodeLog, Chain, Inv, TruncateTail;
    RecoverPendingLog(c, records, r, k);
    LastSequence(c, records);
    var clean := disk.(log := EncodeLog(c, records));
    assert Line(c, r)[..0] == [];
    assert Holds(c, clean, records, r, 0, Behind);
    HoldsGivesInv(c, clean, records, r, 0, Behind);
    CleanIffNoPiece(c, clean, records, r, 0, Behind);
    AppendKeepsInv(c, clean, m.(dirty := false), CommitPayload(m.(dirty := false), kind), now, fault);
  }

  /** A row refreshed from the log agrees with it. */
  lemma RefreshKeepsInv(c: Codec, disk: Disk, row: Row)
    requires c.Faithful() && Inv(c, disk)
    requires ReadLog(c, disk.log).Ok? && ReadLog(c, disk.log).value != [] ==>
               Agrees(row, ReadLog(c, disk.log).value)
    ensures ReadLog(c, disk.log).Ok? && ReadLog(c, disk.log).value != []
    ensures ReadLog(c, disk.log).value[|ReadLog(c, disk.log).value| - 1].body.sequence
            == |ReadLog(c, disk.log).value| - 1
    ensures Inv(c, disk.(row := Some(row)))
  {
    var records: seq<Record>, r: Record, k: nat, form: Form :| Holds(c, disk, records, r, k, form);
    HeldLogReads(c, disk, records, r, k, form);
    LastSequence(c, records);
    assert (records + [r])[|records|] == r;
    var after := disk.(row := Some(row));
    if k < |c.canonical(r)| {
      assert Holds(c, after, records, r, k, Behind);
    } else if k == |c.canonical(r)| {
      assert Holds(c, after, records, r, k, Unterminated);
    } else {
      assert Line(c, r)[..k] == Line(c, r);
      LongerLog(c, after, records, r);
    }
  }

  lemma ReadHeldLog(c: Codec, disk: Disk)
    requires c.Faithful() && Inv(c, disk)
    ensures ReadLog(c, disk.log).Ok? && ReadLog(c, disk.log).value != []
    ensures var read := ReadLog(c, disk.log).value; read[|read| - 1].body.sequence == |read| - 1
  {
    var records: seq<Record>, r: Record, k: nat, form: Form :| Holds(c, disk, records, r, k, form);
    HeldLogReads(c, disk, records, r, k, form);
    LastSequence(c, records);
    assert (records + [r])[|records|] == r;
  }

  lemma OwnerKeepsInv(c: Codec, disk: Disk, owner: Option<Owner>)
    requires Inv(c, disk) && disk.row.Some?
    ensures Inv(c, disk.(row := Some(disk.row.value.(owner := owner))))
  {
    var records: seq<Record>, r: Record, k: nat, form: Form :| Holds(c, disk, records, r, k, form);
    assert Holds(c, disk.(row := Some(disk.row.value.(owner := owner))), records, r, k, form);
  }

  lemma StepKeepsInv(c: Codec, w: World, step: Step)
    requires c.Faithful() && Inv(c, w.disk) && !Glues(c, w, step)
    ensures Inv(c, Next(c, w, step).disk)
  {
    hide Append, Retry, ReadLog, Clean, Inv;
    match step
    case Work(_, _, _) =>
    case CommitBy(o, kind, now, fault) =>
      if o in w.handles && !w.handles[o].dirty {
        AppendKeepsInv(c, w.disk, w.handles[o], CommitPayload(w.handles[o], kind), now, fault);
      }
    case AuditBy(o, userText, reason, now, fault) =>
      if o in w.handles && !w.handles[o].dirty {
        AppendKeepsInv(c, w.disk, w.handles[o], Aborted(userText, reason), now, fault);
      }
    case RetryBy(o, kind, now, indexFails, fault) =>
      if o in w.handles { SomeRetryKeepsInv(c, w.disk, w.handles[o], kind, now, indexFails, fault); }
    case Resume(now, transcript, view) =>
      if w.disk.row.Some? {
        ReadHeldLog(c, w.disk);
        var acquired := w.disk.row.value.(owner := Some(w.nextOwner), expires := now + LEASE_SECONDS,
                                          status := ActiveRow);
        RefreshKeepsInv(c, w.disk, Refreshed(acquired, ReadLog(c, w.disk.log).value).(status := ActiveRow));
      }
    case Rebuild(now) =>
      if w.disk.row.Some? {
        ReadHeldLog(c, w.disk);
        RefreshKeepsInv(c, w.disk, Refreshed(w.disk.row.value, ReadLog(c, w.disk.log).value).(owner := None));
      }
    case Release(_) =>
      if w.disk.row.Some? { OwnerKeepsInv(c, w.disk, None); }
  }

  lemma SomeRetryKeepsInv(c: Codec, disk: Disk, m: Memory, kind: CommitKind, now: int, indexFails: bool, fault: Fault)
    requires c.Faithful() && Inv(c, disk)
    ensures Inv(c, Retry(c, disk, m, kind, now, indexFails, fault).disk)
  {
    var records: seq<Record>, r: Record, k: nat, form: Form :| Holds(c, disk, records, r, k, form);
    RetryKeepsInv(c, disk, m, kind, now, indexFails, fault, records, r, k, form);
  }

  // ---------- What a resume and a rebuild achieve ----------

  /** A resume of a session whose log can be read goes through exactly if nobody holds it or the lease has
      run out. Its handle is at the end of what was read, holds a full lease and may append. */
  lemma ResumeTakesSessionIff(c: Codec, w: World, now: int, transcript: seq<Segment>, view: View)
    requires c.Faithful() && Inv(c, w.disk) && w.nextOwner !in w.handles
    requires w.disk.row.Some? && w.disk.row.value.status !in {DeletedRow, DamagedRow}
    ensures var after := Next(c, w, Resume(now, transcript, view));
            var o, read := w.nextOwner, ReadLog(c, w.disk.log);
            && (o in after.handles <==> w.disk.row.value.owner == None || w.disk.row.value.expires <= now)
            && (o !in after.handles ==> after == w)
            && (o in after.handles ==>
                  && read.Ok? && after.disk.log == w.disk.log && after.disk.row.Some? && after.nextOwner == o + 1
                  && Agrees(after.disk.row.value, read.value)
                  && after.disk.row.value.owner == Some(o) && after.disk.row.value.status == ActiveRow
                  && after.disk.row.value.expires == now + LEASE_SECONDS
                  && after.handles ==
                     w.handles[o := Memory(o, LastHash(read.value), |transcript|, false, transcript, view)]
                  && MayAppend(after.disk, after.handles[o]))
  {
    hide ReadLog, Inv;
    ReadHeldLog(c, w.disk);
  }

  /** A rebuild leaves a session with a live lease alone and frees any other: its row agrees with the
      log, closed exactly if the last record closes the session. */
  lemma RebuildFreesSession(c: Codec, w: World, now: int)
    requires c.Faithful() && Inv(c, w.disk) && w.disk.row.Some?
    ensures var after := Next(c, w, Rebuild(now));
            var read := ReadLog(c, w.disk.log);
            if w.disk.row.value.owner.Some? && w.disk.row.value.expires > now then after == w
            else
              && read.Ok? && read.value != []
              && after == w.(disk := w.disk.(row := after.disk.row)) && after.disk.row.Some?
              && Agrees(after.disk.row.value, read.value) && after.disk.row.value.owner == None
              && after.disk.row.value.status ==
                 (if read.value[|read.value| - 1].body.payload.Closed? then ClosedRow else ActiveRow)
  {
    hide ReadLog, Inv;
    ReadHeldLog(c, w.disk);
  }

  /** A log that cannot be read: whoever resumes or rebuilds the session, if nobody holds it, gets no handle
      and leaves it free and marked as damaged, and then no resume touches it. If the reader itself crashes,
      a resume only gives its lease back and a rebuild changes nothing. */
  lemma UnreadableSessionIsMarked(c: Codec, w: World, now: int, transcript: seq<Segment>, view: View, later: Step)
    requires ReadLog(c, w.disk.log).Err? && w.disk.row.Some? && later.Resume?
    requires w.disk.row.value.owner == None || w.disk.row.value.expires <= now
    requires w.disk.row.value.status !in {DeletedRow, DamagedRow}
    ensures var crash := ReadLog(c, w.disk.log) == Err(ReaderCrash);
            var resumed := Next(c, w, Resume(now, transcript, view));
            var rebuilt := Next(c, w, Rebuild(now));
            && resumed.disk.row.Some? && rebuilt.disk.row.Some?
            && resumed.handles == rebuilt.handles == w.handles
            && resumed.disk.log == rebuilt.disk.log == w.disk.log
            && resumed.disk.row.value.owner == None
            && resumed.disk.row.value.status == (if crash then ActiveRow else DamagedRow)
            && (crash ==> rebuilt == w)
            && (!crash ==>
                  && rebuilt.disk.row.value.owner == None && rebuilt.disk.row.value.status == DamagedRow
                  && Next(c, resumed, later) == resumed && Next(c, rebuilt, later) == rebuilt)
            && resumed.nextOwner == w.nextOwner + 1
  {
    hide ReadLog;
  }

  /** An owner that releases its session lets the next resume through at any time; nobody else can. */
  lemma OnlyOwnerReleases(c: Codec, w: World, o: Owner, now: int, transcript: seq<Segment>, view: View)
    requires c.Faithful() && Inv(c, w.disk) && w.nextOwner !in w.handles
    requires w.disk.row.Some? && w.disk.row.value.owner.Some?
    requires w.disk.row.value.status !in {DeletedRow, DamagedRow}
    ensures var released := Next(c, w, Release(o));
            if w.disk.row.value.owner == Some(o)
            then w.nextOwner in Next(c, released, Resume(now, transcript, view)).handles
            else released == w
  {
    if w.disk.row.value.owner == Some(o) {
      OwnerKeepsInv(c, w.disk, None);
      hide Inv, ReadLog;
      ResumeTakesSessionIff(c, Next(c, w, Release(o)), now, transcript, view);
    }
  }

  // ---------- A whole append behind a piece spoils the log for good ----------

  /** The log begins with a chain and one whole line that cannot follow it. */
  ghost predicate SpoiledBy(c: Codec, log: Bytes, good: seq<Record>, text: Bytes) {
    var prefix := EncodeLog(c, good) + (text + [LF]);
    && Chain(c, good) && LF !in text && CR !in text
    && (c.parse(text + [LF]).Malformed?
        || (c.parse(text + [LF]).Object? && !Links(c, good, c.parse(text + [LF]).record)))
    && |prefix| <= |log| && log[..|prefix|] == prefix
  }

  ghost predicate Spoiled(c: Codec, log: Bytes) {
    exists good: seq<Record>, text: Bytes :: SpoiledBy(c, log, good, text)
  }

  lemma {:induction false} SplitBehindLog(c: Codec, records: seq<Record>, rest: Bytes)
    requires c.Faithful()
    ensures SplitLines(EncodeLog(c, records) + rest) == LinesOf(c, records) + SplitLines(rest)
    decreases |records|
  {
    hide SplitLines;
    if records == [] {
      assert EncodeLog(c, records) + rest == rest;
      assert LinesOf(c, records) + SplitLines(rest) == SplitLines(rest);
    } else {
      var text := c.canonical(records[0]);
      var behind := EncodeLog(c, records[1..]) + rest;
      EncodeLogCons(c, records);
      assert c.FaithfulFor(records[0]);
      assert EncodeLog(c, records) + rest == text + [LF] + behind;
      SplitFirstLine(text, behind);
      SplitBehindLog(c, records[1..], rest);
      assert LinesOf(c, records) == [Line(c, records[0])] + LinesOf(c, records[1..]);
    }
  }

  lemma SpoiledIsUnreadable(c: Codec, log: Bytes)
    requires c.Faithful() && Spoiled(c, log)
    ensures ReadLog(c, log) == Err(InvalidJson) || ReadLog(c, log) == Err(BrokenChain)
  {
    var good: seq<Record>, text: Bytes :| SpoiledBy(c, log, good, text);
    var bad := text + [LF];
    var prefix := EncodeLog(c, good) + bad;
    var more := log[|prefix|..];
    assert log == prefix + more == EncodeLog(c, good) + (bad + more);
    SplitBehindLog(c, good, bad + more);
    SplitFirstLine(text, more);
    var rest := [bad] + SplitLines(more);
    ReadWrittenLines(c, good, 0, rest);
    assert LinesOf(c, good)[0..] == LinesOf(c, good) && good[..0] == [];
    assert rest[0] == bad && bad[|bad| - 1] == LF;
  }

  lemma {:induction false} LastLfBehind(prefix: Bytes, more: Bytes)
    requires prefix != [] && prefix[|prefix| - 1] == LF
    ensures AfterLastLf(prefix + more) >= |prefix|
    decreases |more|
  {
    if more == [] {
      assert prefix + more == prefix;
    } else {
      assert (prefix + more)[..|prefix + more| - 1] == prefix + more[..|more| - 1];
      LastLfBehind(prefix, more[..|more| - 1]);
    }
  }

  /** Neither a truncation nor an append removes the bad line. */
  lemma SpoiledStays(c: Codec, log: Bytes, more: Bytes)
    requires Spoiled(c, log)
    ensures Spoiled(c, TruncateTail(log)) && Spoiled(c, log + more)
  {
    var good: seq<Record>, text: Bytes :| SpoiledBy(c, log, good, text);
    var prefix := EncodeLog(c, good) + (text + [LF]);
    assert prefix[|prefix| - 1] == LF;
    assert log == prefix + log[|prefix|..];
    LastLfBehind(prefix, log[|prefix|..]);
    assert TruncateTail(log)[..|prefix|] == prefix;
    assert SpoiledBy(c, TruncateTail(log), good, text);
    assert (log + more)[..|prefix|] == prefix;
    assert SpoiledBy(c, log + more, good, text);
  }

  lemma StepKeepsSpoiled(c: Codec, w: World, step: Step)
    requires c.Faithful() && Spoiled(c, w.disk.log)
    ensures Spoiled(c, Next(c, w, step).disk.log)
  {
    hide Spoiled, TruncateTail, ReadLog, Line;
    SpoiledIsUnreadable(c, w.disk.log);
    SpoiledStays(c, w.disk.log, []);
    SpoiledIsUnreadable(c, TruncateTail(w.disk.log));
    match step
    case CommitBy(o, kind, now, fault) =>
      if o in w.handles { AppendKeepsSpoiled(c, w.disk, w.handles[o], CommitPayload(w.handles[o], kind), now, fault); }
    case AuditBy(o, userText, reason, now, fault) =>
      if o in w.handles { AppendKeepsSpoiled(c, w.disk, w.handles[o], Aborted(userText, reason), now, fault); }
    case _ =>
  }

  lemma AppendKeepsSpoiled(c: Codec, disk: Disk, m: Memory, payload: Payload, now: int, fault: Fault)
    requires Spoiled(c, disk.log)
    ensures Spoiled(c, Append(c, disk, m, payload, now, fault).0.log)
  {
    hide Spoiled;
    if disk.row.Some? {
      var line := Line(c, MakeRecord(c, disk.row.value.lastSeq + 1, m.lastHash, now, payload));
      SpoiledStays(c, disk.log, line);
      if fault.FailsAfter? { SpoiledStays(c, disk.log, line[..Min(fault.written, |line|)]); }
    }
  }

  lemma SpoiledBehindPiece(c: Codec, log: Bytes, records: seq<Record>, r: Record, k: nat, next: Record)
    requires c.Faithful() && c.NoSplicing() && Chain(c, records) && 0 < k <= |c.canonical(r)|
    requires log == EncodeLog(c, records) + Line(c, r)[..k]
    ensures Spoiled(c, log + Line(c, next))
  {
    hide EncodeLog, Chain;
    assert c.FaithfulFor(r) && c.FaithfulFor(next) && c.NoSplicingFor(r, next);
    var piece := c.canonical(r)[..k];
    assert Line(c, r)[..k] == piece;
    assert forall b :: b in piece ==> b in c.canonical(r);
    assert log + Line(c, next) == EncodeLog(c, records) + (piece + c.canonical(next) + [LF]);
    assert SpoiledBy(c, log + Line(c, next), records, piece + c.canonical(next));
  }

  lemma SpoiledOutOfTurn(c: Codec, records: seq<Record>, next: Record)
    requires c.Faithful() && Chain(c, records) && !Links(c, records, next)
    ensures Spoiled(c, EncodeLog(c, records) + Line(c, next))
  {
    hide EncodeLog, Chain, Links;
    assert c.FaithfulFor(next);
    assert EncodeLog(c, records) + (c.canonical(next) + [LF]) == EncodeLog(c, records) + Line(c, next);
    assert SpoiledBy(c, EncodeLog(c, records) + Line(c, next), records, c.canonical(next));
  }

  lemma LongerText(c: Codec, records: seq<Record>, r: Record)
    requires Chain(c, records) && Links(c, records, r)
    ensures Chain(c, records + [r])
    ensures EncodeLog(c, records + [r]) == EncodeLog(c, records) + Line(c, r)[..|Line(c, r)|]
  {
    ChainExtend(c, records, r);
    assert (records + [r])[..|records|] == records && Line(c, r)[..|Line(c, r)|] == Line(c, r);
  }

  lemma WholeAppendSpoils(c: Codec, disk: Disk, m: Memory, payload: Payload, now: int)
    requires c.Faithful() && c.NoSplicing() && Inv(c, disk) && !Clean(c, disk)
    requires disk.row.Some? && disk.row.value.owner == Some(m.owner) && disk.row.value.lastHash == m.lastHash
    ensures Spoiled(c, Append(c, disk, m, payload, now, NoFault).0.log)
  {
    hide EncodeLog, Chain, Clean, Spoiled, ReadLog;
    var records: seq<Record>, r: Record, k: nat, form: Form :| Holds(c, disk, records, r, k, form);
    CleanIffNoPiece(c, disk, records, r, k, form);
    var next := MakeRecord(c, disk.row.value.lastSeq + 1, m.lastHash, now, payload);
    if k == |Line(c, r)| {
      LongerText(c, records, r);
      SpoiledOutOfTurn(c, records + [r], next);
    } else if k > 0 {
      SpoiledBehindPiece(c, disk.log, records, r, k, next);
    } else {
      assert Line(c, r)[..0] == [] && disk.log == EncodeLog(c, records);
      SpoiledOutOfTurn(c, records, next);
    }
  }

  lemma GlueSpoils(c: Codec, w: World, step: Step)
    requires c.Faithful() && c.NoSplicing() && Inv(c, w.disk) && Glues(c, w, step) && FaultOf(step).NoFault?
    ensures Spoiled(c, Next(c, w, step).disk.log)
  {
    var m := w.handles[step.owner];
    WholeAppendSpoils(c, w.disk, m, if step.CommitBy? then CommitPayload(m, step.kind)
                                    else Aborted(step.userText, step.reason), step.now);
  }

  // ---------- Whole runs ----------

  lemma {:induction false} SpoiledForGood(c: Codec, w: World, steps: seq<Step>)
    requires c.Faithful() && Spoiled(c, w.disk.log)
    ensures ReadLog(c, Run(c, w, steps).disk.log).Err?
    decreases |steps|
  {
    hide Next, ReadLog, Spoiled;
    if steps == [] {
      SpoiledIsUnreadable(c, w.disk.log);
    } else {
      StepKeepsSpoiled(c, w, steps[0]);
      SpoiledForGood(c, Next(c, w, steps[0]), steps[1..]);
    }
  }

  lemma {:induction false} RunKeepsInv(c: Codec, w: World, steps: seq<Step>)
    requires c.Faithful() && Inv(c, w.disk) && !EverGlues(c, w, steps)
    ensures Inv(c, Run(c, w, steps).disk)
    decreases |steps|
  {
    hide Next, Inv, Glues;
    if steps != [] {
      StepKeepsInv(c, w, steps[0]);
      RunKeepsInv(c, Next(c, w, steps[0]), steps[1..]);
    }
  }

  lemma {:induction false} FirstWholeGlueSpoils(c: Codec, w: World, steps: seq<Step>)
    requires c.Faithful() && c.NoSplicing() && Inv(c, w.disk) && GluesWhole(c, w, steps) && EverGlues(c, w, steps)
    ensures ReadLog(c, Run(c, w, steps).disk.log).Err?
    decreases |steps|
  {
    hide Next, ReadLog, Inv, Glues, FaultOf, Spoiled;
    if Glues(c, w, steps[0]) {
      GlueSpoils(c, w, steps[0]);
      SpoiledForGood(c, Next(c, w, steps[0]), steps[1..]);
    } else {
      StepKeepsInv(c, w, steps[0]);
      FirstWholeGlueSpoils(c, Next(c, w, steps[0]), steps[1..]);
    }
  }

  /** From a settled session, over any steps of any processes: as long as no record was appended behind a
      piece, the bytes are one chain and at most one piece of a line, and the log can be read. When such
      appends are whole lines, the first of them makes the log unreadable for good. */
  lemma LogIsReadableIffNeverGlued(c: Codec, w: World, owner: Owner, records: seq<Record>, steps: seq<Step>)
    requires c.Faithful() && c.NoSplicing()
    requires owner in w.handles && Settled(c, w.disk, w.handles[owner], records)
    ensures !EverGlues(c, w, steps) ==>
              && ReadLog(c, Run(c, w, steps).disk.log).Ok?
              && exists left: seq<Record>, r: Record, k: nat ::
                   && ValidLog(c, left) && Links(c, left, r) && k <= |Line(c, r)|
                   && Run(c, w, steps).disk.log == EncodeLog(c, left) + Line(c, r)[..k]
    ensures GluesWhole(c, w, steps) ==>
              (ReadLog(c, Run(c, w, steps).disk.log).Ok? <==> !EverGlues(c, w, steps))
  {
    hide Run, EverGlues, GluesWhole;
    var next := SomeNext(c, records);
    assert Line(c, next)[..0] == [];
    assert Holds(c, w.disk, records, next, 0, Behind);
    if !EverGlues(c, w, steps) {
      RunKeepsInv(c, w, steps);
      ReadHeldLog(c, Run(c, w, steps).disk);
      var left: seq<Record>, r: Record, k: nat, form: Form :| Holds(c, Run(c, w, steps).disk, left, r, k, form);
    } else if GluesWhole(c, w, steps) {
      FirstWholeGlueSpoils(c, w, steps);
    }
  }

  /** The witness: a commit stops just before its newline, another process resumes and takes the record as
      stored, and a later failed write of that process makes its retry remove the record again. Index and
      log then disagree, and every further retry fails. */
  lemma AdoptedRecordIsLost(c: Codec, w: World, o: Owner, records: seq<Record>, kind: CommitKind, now: int,
                            later: int, transcript: seq<Segment>, view: View)
    requires c.Faithful() && o in w.handles && Settled(c, w.disk, w.handles[o], records)
    requires w.disk.row.value.expires <= later && w.disk.row.value.status !in {DeletedRow, DamagedRow}
    ensures var r := MakeRecord(c, |records|, w.handles[o].lastHash, now, CommitPayload(w.handles[o], kind));
            var torn := Next(c, w, CommitBy(o, kind, now, FailsAfter(|c.canonical(r)|)));
            var resumed := Next(c, torn, Resume(later, transcript, view));
            var failed := Next(c, resumed, CommitBy(w.nextOwner, kind, later, FailsAfter(0)));
            var retried := Next(c, failed, RetryBy(w.nextOwner, kind, later, false, NoFault));
            && ReadLog(c, resumed.disk.log) == Ok(records + [r])
            && w.nextOwner in failed.handles && failed.handles[w.nextOwner].dirty
            && ReadLog(c, retried.disk.log) == Ok(records)
            && retried.disk.row == failed.disk.row && retried.disk.row.value.lastHash == r.hash
            && Retry(c, retried.disk, retried.handles[w.nextOwner], kind, later, false, NoFault).error == Some(Diverged)
  {
    hide ReadLog, Retry, EncodeLog, Line, Holds;
    var m, next := w.handles[o], w.nextOwner;
    var r := MakeRecord(c, |records|, m.lastHash, now, CommitPayload(m, kind));
    var torn := Next(c, w, CommitBy(o, kind, now, FailsAfter(|c.canonical(r)|)));
    TornBeforeNewline(c, w.disk, m, records, kind, now);
    var resumed := Next(c, torn, Resume(later, transcript, view));
    AdoptedUnterminated(c, torn.disk, resumed.disk, records, r);
    AdoptedThenFailed(c, resumed.disk, resumed.handles[next], kind, later);
    var failed := Next(c, resumed, CommitBy(next, kind, later, FailsAfter(0)));
    LosesUnterminated(c, failed.disk, failed.handles[next], kind, later, records, r);
  }

  lemma TornBeforeNewline(c: Codec, disk: Disk, m: Memory, records: seq<Record>, kind: CommitKind, now: int)
    requires c.Faithful() && Settled(c, disk, m, records)
    ensures var r := MakeRecord(c, |records|, m.lastHash, now, CommitPayload(m, kind));
            var k := |c.canonical(r)|;
            && ValidLog(c, records) && Links(c, records, r) && k <= |Line(c, r)|
            && Commit(c, disk, m, kind, now, FailsAfter(k)).disk
               == disk.(log := EncodeLog(c, records) + Line(c, r)[..k])
  {
    hide EncodeLog, Chain;
  }

  /** Whoever reads the log then finds the record, and a row refreshed from it knows it. */
  lemma AdoptedUnterminated(c: Codec, torn: Disk, after: Disk, records: seq<Record>, r: Record)
    requires c.Faithful() && ValidLog(c, records) && Links(c, records, r)
    requires |c.canonical(r)| <= |Line(c, r)| && torn.log == EncodeLog(c, records) + Line(c, r)[..|c.canonical(r)|]
    ensures ReadLog(c, torn.log) == Ok(records + [r])
    ensures after.log == torn.log && after.row.Some? && Agrees(after.row.value, records + [r]) ==>
              Holds(c, after, records, r, |c.canonical(r)|, Unterminated)
    ensures (records + [r])[|records|].body.sequence == |records| && LastHash(records + [r]) == r.hash
  {
    hide ReadLog, EncodeLog, Chain;
    TornLogReadsBack(c, records, r, |c.canonical(r)|);
  }

  lemma LosesUnterminated(c: Codec, disk: Disk, m: Memory, kind: CommitKind, now: int, records: seq<Record>, r: Record)
    requires c.Faithful() && Holds(c, disk, records, r, |c.canonical(r)|, Unterminated)
    requires m.dirty && disk.row.value.owner == Some(m.owner)
    ensures var a := Retry(c, disk, m, kind, now, false, NoFault);
            && a.disk.row == disk.row && a.memory == m && ReadLog(c, a.disk.log) == Ok(records)
            && Retry(c, a.disk, a.memory, kind, now, false, NoFault).error == Some(Diverged)
  {
    hide ReadLog, EncodeLog, Chain, Retry;
    var a := Retry(c, disk, m, kind, now, false, NoFault);
    RetryKeepsInv(c, disk, m, kind, now, false, NoFault, records, r, |c.canonical(r)|, Unterminated);
    DivergedKeepsMemory(c, disk, m, kind, now);
    WrittenLogReadsBack(c, records);
    assert Line(c, r)[..0] == [] && EncodeLog(c, records) + [] == EncodeLog(c, records);
    RetryKeepsInv(c, a.disk, a.memory, kind, now, false, NoFault, records, r, 0, Ahead);
  }

  lemma AdoptedThenFailed(c: Codec, disk: Disk, m: Memory, kind: CommitKind, now: int)
    requires !m.dirty && disk.row.Some? && disk.row.value.owner == Some(m.owner)
    ensures var a := Commit(c, disk, m, kind, now, FailsAfter(0));
            a.disk == disk && a.memory == m.(dirty := true)
  {
    var s := MakeRecord(c, disk.row.value.lastSeq + 1, m.lastHash, now, CommitPayload(m, kind));
    assert Line(c, s)[..0] == [] && disk.log + [] == disk.log;
  }

  lemma DivergedKeepsMemory(c: Codec, disk: Disk, m: Memory, kind: CommitKind, now: int)
    requires Retry(c, disk, m, kind, now, false, NoFault).error == Some(Diverged)
    ensures Retry(c, disk, m, kind, now, false, NoFault).memory == m
  {
  }
}
