/** Rebuilding the live state from the records of a session, over whole runs of work, commits,
    audit records and resumes. */
module SessionReplay {
  import opened Basics
  import opened Conversation
  import opened SessionRecords

  /** The state a process works on. */
  datatype Live = Live(transcript: seq<Segment>, view: View)

  const FRESH_ACCOUNTING := Accounting(Float(1, 0), None, None, 0, false)

  predicate HasModel(segments: seq<Segment>) {
    exists i :: 0 <= i < |segments| && segments[i].kind == Model
  }

  /** Records replay takes no state from: audit records, unknown kinds, and failed turns that never
      completed a model round. */
  predicate Skipped(payload: Payload) {
    || !payload.Committed?
    || payload.kind.OtherKind?
    || ((payload.kind.TurnFailed? || payload.kind.TurnInterrupted? || payload.kind.TurnSteered?)
        && !HasModel(payload.delta))
  }

  function Apply(live: Live, payload: Payload): Live {
    if Skipped(payload) then live else Live(live.transcript + payload.delta, payload.view)
  }

  function Header(payload: Payload): Live
    requires payload.Created?
  {
    Live([], View([], [], payload.todos, FRESH_ACCOUNTING, payload.workflow))
  }

  function Replay(records: seq<Payload>): Live
    requires records != [] && records[0].Created?
  {
    var last := |records| - 1;
    if last == 0 then Header(records[0]) else Apply(Replay(records[..last]), records[last])
  }

  /** A commit replay takes its state from: an ordinary one, or a failed, interrupted or steered turn with
      at least one completed model round. */
  ghost predicate Counts(kind: CommitKind, delta: seq<Segment>) {
    || kind in {StateCommitted, ContextCommitted, WorkflowCommitted}
    || (kind in {TurnFailed, TurnInterrupted, TurnSteered} && exists i :: 0 <= i < |delta| && delta[i].kind == Model)
  }

  /** What every kind of last record does to the restored state. */
  lemma ReplayOneMore(records: seq<Payload>, last: Payload)
    requires records != [] && records[0].Created?
    ensures var before, after := Replay(records), Replay(records + [last]);
            if last.Committed? && Counts(last.kind, last.delta)
            then after.transcript == before.transcript + last.delta && after.view == last.view
            else after == before
  {
    assert (records + [last])[..|records|] == records;
  }

  /** The state restored from a new session: nothing said yet, the given plan and workflow. */
  lemma FreshReplay(todos: seq<Todo>, workflow: Workflow)
    ensures var live := Replay([Created(todos, workflow)]);
            && live.transcript == [] && live.view.active == [] && live.view.checkpoints == []
            && live.view.todos == todos && live.view.workflow == workflow
            && live.view.accounting == Accounting(Float(1, 0), None, None, 0, false)
  {
  }

  method RestoreRecords(records: seq<Payload>) returns (live: Live)
    requires records != [] && records[0].Created?
    ensures live == Replay(records)
    ensures |records| > 1 ==>
              var earlier, last := Replay(records[..|records| - 1]), records[|records| - 1];
              live == if last.Committed? && Counts(last.kind, last.delta)
                      then Live(earlier.transcript + last.delta, last.view) else earlier
  {
    live := Header(records[0]);
    assert records[..1] == [records[0]];
    for i := 1 to |records|
      invariant live == Replay(records[..i])
    {
      var payload := records[i];
      assert records[..i + 1][..i] == records[..i];
      if payload.Committed? && !payload.kind.OtherKind? {
        var failed := payload.kind.TurnFailed? || payload.kind.TurnInterrupted? || payload.kind.TurnSteered?;
        if !failed || HasModel(payload.delta) {
          live := Live(live.transcript + payload.delta, payload.view);
        }
      }
    }
    assert records[..|records|] == records;
    if |records| > 1 {
      var last := |records| - 1;
      ReplayOneMore(records[..last], records[last]);
      assert records[..last] + [records[last]] == records;
    }
  }

  // ---------- Runs ----------

  /** A session over time. `saved` is the view held at the last commit replay does not skip,
      `base` the transcript found at the last resume and `epoch` the number of records then. */
  datatype Session = Session(
    records: seq<Payload>,
    live: Live,
    stored: nat,
    saved: View,
    base: seq<Segment>,
    epoch: nat)

  datatype Step =
    | Work(live: Live)
    | Commit(kind: CommitKind)
    | Audit(userText: string, reason: string)
    | Close
    | Resume

  function Start(todos: seq<Todo>, workflow: Workflow, live: Live): Session {
    var created := Created(todos, workflow);
    Session([created], live, 0, Header(created).view, [], 1)
  }

  /** Between commits the stored part of the transcript is only extended. */
  predicate Enabled(s: Session, step: Step) {
    step.Work? ==> s.stored <= |s.live.transcript| && s.live.transcript[..s.stored] <= step.live.transcript
  }

  function CommitRecord(s: Session, kind: CommitKind): Payload {
    StatePayload(kind, s.live.transcript, s.stored, s.live.view)
  }

  function Next(s: Session, step: Step): Session
    requires s.records != [] && s.records[0].Created?
  {
    match step
    case Work(live) => s.(live := live)
    case Commit(kind) =>
      var r := CommitRecord(s, kind);
      s.(records := s.records + [r], stored := |s.live.transcript|,
         saved := if Skipped(r) then s.saved else s.live.view)
    case Audit(userText, reason) => s.(records := s.records + [Aborted(userText, reason)])
    case Close => s.(records := s.records + [Closed])
    case Resume =>
      var live := Replay(s.records);
      s.(live := live, stored := |live.transcript|, base := live.transcript, epoch := |s.records|)
  }

  /** What the transcript gets from a record when it is written, and what when it is replayed. */
  function StoredPart(payload: Payload): seq<Segment> { if payload.Committed? then payload.delta else [] }

  function KeptPart(payload: Payload): seq<Segment> { if Skipped(payload) then [] else payload.delta }

  /** All stored deltas, and those replay keeps. */
  function AllDeltas(records: seq<Payload>): seq<Segment> {
    if records == [] then []
    else AllDeltas(records[..|records| - 1]) + StoredPart(records[|records| - 1])
  }

  function KeptDeltas(records: seq<Payload>): seq<Segment> {
    if records == [] then []
    else KeptDeltas(records[..|records| - 1]) + KeptPart(records[|records| - 1])
  }

  function SinceResume(s: Session): seq<Payload> {
    Drop(s.records, s.epoch)
  }

  ghost predicate Inv(s: Session) {
    && s.records != [] && s.records[0].Created?
    && s.epoch <= |s.records| && s.stored <= |s.live.transcript|
    && s.live.transcript[..s.stored] == s.base + AllDeltas(SinceResume(s))
    && Replay(s.records) == Live(s.base + KeptDeltas(SinceResume(s)), s.saved)
  }

  lemma RecordKeepsInv(s: Session, r: Payload)
    requires s.records != [] && s.records[0].Created? && s.epoch <= |s.records|
    ensures Replay(s.records + [r]) == Apply(Replay(s.records), r)
    ensures Drop(s.records + [r], s.epoch) == SinceResume(s) + [r]
    ensures AllDeltas(SinceResume(s) + [r])
            == AllDeltas(SinceResume(s)) + StoredPart(r)
    ensures KeptDeltas(SinceResume(s) + [r])
            == KeptDeltas(SinceResume(s)) + KeptPart(r)
  {
    assert (s.records + [r])[..|s.records|] == s.records;
    assert (SinceResume(s) + [r])[..|SinceResume(s)|] == SinceResume(s);
  }

  lemma CommitKeepsTranscripts(base: seq<Segment>, all: seq<Segment>, kept: seq<Segment>,
                               t: seq<Segment>, stored: nat, delta: seq<Segment>)
    requires stored <= |t| && t[..stored] == base + all && delta == t[stored..]
    ensures t[..|t|] == base + (all + delta)
    ensures base + kept + delta == base + (kept + delta)
  {
    assert t[..|t|] == t == t[..stored] + delta;
  }

  lemma CommitKeepsInv(s: Session, kind: CommitKind)
    requires Inv(s)
    ensures Inv(Next(s, Commit(kind)))
  {
    var r := CommitRecord(s, kind);
    var s' := Next(s, Commit(kind));
    var all, kept := AllDeltas(SinceResume(s)), KeptDeltas(SinceResume(s));
    RecordKeepsInv(s, r);
    CommitKeepsTranscripts(s.base, all, kept, s.live.transcript, s.stored, r.delta);
    assert SinceResume(s') == SinceResume(s) + [r];
    assert kept + [] == kept;
    assert Replay(s'.records) == Apply(Replay(s.records), r);
  }

  lemma SkippedRecordKeepsInv(s: Session, r: Payload)
    requires Inv(s) && !r.Committed?
    ensures Inv(s.(records := s.records + [r]))
  {
    RecordKeepsInv(s, r);
    assert AllDeltas(SinceResume(s)) + [] == AllDeltas(SinceResume(s));
    assert KeptDeltas(SinceResume(s)) + [] == KeptDeltas(SinceResume(s));
  }

  lemma StepKeepsInv(s: Session, step: Step)
    requires Inv(s) && Enabled(s, step)
    ensures Inv(Next(s, step))
  {
    match step
    case Work(live) =>
      assert live.transcript[..s.stored] == s.live.transcript[..s.stored];
    case Commit(kind) => CommitKeepsInv(s, kind);
    case Audit(userText, reason) => SkippedRecordKeepsInv(s, Aborted(userText, reason));
    case Close => SkippedRecordKeepsInv(s, Closed);
    case Resume =>
      var t := Replay(s.records).transcript;
      assert t[..|t|] == t && t + [] == t;
  }

  predicate EnabledRun(s: Session, steps: seq<Step>)
    requires s.records != [] && s.records[0].Created?
    decreases |steps|
  {
    steps == [] || (Enabled(s, steps[0]) && EnabledRun(Next(s, steps[0]), steps[1..]))
  }

  function Run(s: Session, steps: seq<Step>): (r: Session)
    requires s.records != [] && s.records[0].Created?
    ensures r.records != [] && r.records[0].Created?
    decreases |steps|
  {
    if steps == [] then s else Run(Next(s, steps[0]), steps[1..])
  }

  lemma {:induction false} RunKeepsInv(s: Session, steps: seq<Step>)
    requires Inv(s) && EnabledRun(s, steps)
    ensures Inv(Run(s, steps))
    decreases |steps|
  {
    if steps != [] {
      StepKeepsInv(s, steps[0]);
      RunKeepsInv(Next(s, steps[0]), steps[1..]);
    }
  }

  /** The kinds of records a run of steps writes, in order: one for each commit, audit record and close. */
  function Writes(steps: seq<Step>): seq<Step> {
    if steps == [] then []
    else (if steps[0].Work? || steps[0].Resume? then [] else [steps[0]]) + Writes(steps[1..])
  }

  predicate WrittenFor(payload: Payload, step: Step) {
    match step
    case Commit(kind) => payload.Committed? && payload.kind == kind
    case Audit(userText, reason) => payload == Aborted(userText, reason)
    case Close => payload == Closed
    case _ => false
  }

  /** A run leaves the earlier records as they were and one record for each of those steps behind them. */
  lemma {:induction false} RunWritesItsRecords(s: Session, steps: seq<Step>)
    requires s.records != [] && s.records[0].Created?
    ensures var after, writes := Run(s, steps).records, Writes(steps);
            && |after| == |s.records| + |writes| && s.records <= after
            && forall i :: 0 <= i < |writes| ==> WrittenFor(after[|s.records| + i], writes[i])
    decreases |steps|
  {
    if steps != [] {
      hide Replay, Skipped;
      var next := Next(s, steps[0]);
      RunWritesItsRecords(next, steps[1..]);
      var after, writes := Run(s, steps).records, Writes(steps);
      forall i | 0 <= i < |writes| ensures WrittenFor(after[|s.records| + i], writes[i]) {
        if |next.records| > |s.records| {
          if i == 0 { assert after[|s.records|] == next.records[|s.records|]; }
          else { assert writes[i] == Writes(steps[1..])[i - 1]; }
        }
      }
    }
  }

  /** Replaying this record drops no segment. */
  predicate LosesNothing(payload: Payload) {
    payload.Committed? && Skipped(payload) ==> payload.delta == []
  }

  lemma {:induction false} KeptIsNoLonger(records: seq<Payload>)
    ensures |KeptDeltas(records)| <= |AllDeltas(records)|
  {
    if records != [] {
      KeptIsNoLonger(records[..|records| - 1]);
    }
  }

  lemma PartsAreEqualIff(payload: Payload)
    ensures |KeptPart(payload)| <= |StoredPart(payload)|
    ensures KeptPart(payload) == StoredPart(payload) <==> LosesNothing(payload)
  {
  }

  lemma SameSums<T>(a: seq<T>, b: seq<T>, x: seq<T>, y: seq<T>)
    requires |a| <= |b| && |x| <= |y|
    ensures a + x == b + y <==> a == b && x == y
  {
    if a + x == b + y {
      assert |a + x| == |b + y|;
      assert a == (a + x)[..|a|] && b == (b + y)[..|b|];
      assert x == (a + x)[|a|..] && y == (b + y)[|b|..];
    }
  }

  lemma {:induction false} KeptIsAllIff(records: seq<Payload>)
    ensures |KeptDeltas(records)| <= |AllDeltas(records)|
    ensures KeptDeltas(records) == AllDeltas(records) <==>
            forall i :: 0 <= i < |records| ==> LosesNothing(records[i])
  {
    hide LosesNothing, KeptPart, StoredPart;
    KeptIsNoLonger(records);
    if records != [] {
      var init, last := records[..|records| - 1], records[|records| - 1];
      KeptIsNoLonger(init);
      KeptIsAllIff(init);
      PartsAreEqualIff(last);
      SameSums(KeptDeltas(init), AllDeltas(init), KeptPart(last), StoredPart(last));
      assert forall i :: 0 <= i < |init| ==> init[i] == records[i];
    }
  }

  /** No failed turn without a model round has stored a segment since the last resume. */
  predicate NothingLost(s: Session) {
    var since := SinceResume(s);
    forall i :: 0 <= i < |since| ==> LosesNothing(since[i])
  }

  lemma NothingLostReplay(s: Session)
    requires Inv(s) && NothingLost(s)
    ensures Replay(s.records) == Live(s.live.transcript[..s.stored], s.saved)
  {
    KeptIsAllIff(SinceResume(s));
  }

  lemma CommitThenReplay(s: Session, kind: CommitKind)
    requires Inv(s) && NothingLost(s) && !Skipped(CommitRecord(s, kind))
    ensures Replay(Next(s, Commit(kind)).records) == s.live
  {
    hide AllDeltas, KeptDeltas, SinceResume, NothingLost, Skipped;
    NothingLostReplay(s);
    RecordKeepsInv(s, CommitRecord(s, kind));
    var t := s.live.transcript;
    assert t == t[..s.stored] + t[s.stored..];
  }

  // ---------- Main results ----------

  /** Replay after any run, any number of resumes included: since the last resume the stored live
      transcript is `base` plus every committed delta, the replayed one is `base` plus exactly the
      deltas that are not skipped, and every other part of the state is the one held at the last
      commit that is not skipped. */
  lemma ReplayRecoversState(todos: seq<Todo>, workflow: Workflow, live: Live, steps: seq<Step>)
    requires EnabledRun(Start(todos, workflow, live), steps)
    ensures var s := Run(Start(todos, workflow, live), steps);
            && s.stored <= |s.live.transcript|
            && s.live.transcript[..s.stored] == s.base + AllDeltas(SinceResume(s))
            && Replay(s.records).transcript == s.base + KeptDeltas(SinceResume(s))
            && Replay(s.records).view == s.saved
  {
    RunKeepsInv(Start(todos, workflow, live), steps);
  }

  /** The replayed transcript is the stored live one exactly when nothing was lost. */
  lemma ReplayedTranscriptIsLiveIff(todos: seq<Todo>, workflow: Workflow, live: Live, steps: seq<Step>)
    requires EnabledRun(Start(todos, workflow, live), steps)
    ensures var s := Run(Start(todos, workflow, live), steps);
            && s.stored <= |s.live.transcript|
            && (Replay(s.records).transcript == s.live.transcript[..s.stored] <==> NothingLost(s))
  {
    var s := Run(Start(todos, workflow, live), steps);
    ReplayRecoversState(todos, workflow, live, steps);
    KeptIsAllIff(SinceResume(s));
    if Replay(s.records).transcript == s.live.transcript[..s.stored] {
      assert KeptDeltas(SinceResume(s)) == (s.base + KeptDeltas(SinceResume(s)))[|s.base|..];
      assert AllDeltas(SinceResume(s)) == (s.base + AllDeltas(SinceResume(s)))[|s.base|..];
    }
  }

  /** Resuming twice changes nothing: replay is stable. */
  lemma ResumeIsIdempotent(s: Session)
    requires s.records != [] && s.records[0].Created?
    ensures Next(Next(s, Resume), Resume) == Next(s, Resume)
  {
  }

  /** With nothing lost, a resume right after a kept commit gives the live state back unchanged. */
  lemma ResumeAfterCommitIsIdentity(todos: seq<Todo>, workflow: Workflow, live: Live,
                                    steps: seq<Step>, kind: CommitKind)
    requires EnabledRun(Start(todos, workflow, live), steps)
    requires NothingLost(Run(Start(todos, workflow, live), steps))
    requires !Skipped(CommitRecord(Run(Start(todos, workflow, live), steps), kind))
    ensures var s := Run(Start(todos, workflow, live), steps);
            Replay(Next(s, Commit(kind)).records) == s.live
  {
    RunKeepsInv(Start(todos, workflow, live), steps);
    CommitThenReplay(Run(Start(todos, workflow, live), steps), kind);
  }

  // ---------- What skipping costs ----------

  /** The state a resumed process starts from, as a conversation. */
  function AsConversation(live: Live): State {
    State(live.transcript, live.view.active, live.view.checkpoints)
  }

  /** Replay takes no state from any of the steps: nothing they commit is kept. */
  predicate NothingKept(s: Session, steps: seq<Step>)
    requires s.records != [] && s.records[0].Created?
    decreases |steps|
  {
    steps == [] ||
    (&& (steps[0].Commit? ==> Skipped(CommitRecord(s, steps[0].kind)))
     && NothingKept(Next(s, steps[0]), steps[1..]))
  }

  lemma {:induction false} NothingKeptKeepsReplay(s: Session, steps: seq<Step>)
    requires s.records != [] && s.records[0].Created? && NothingKept(s, steps)
    ensures Replay(Run(s, steps).records) == Replay(s.records)
    decreases |steps|
  {
    if steps != [] {
      var next := Next(s, steps[0]);
      if next.records != s.records {
        assert next.records[..|s.records|] == s.records;
      }
      NothingKeptKeepsReplay(next, steps[1..]);
    }
  }

  /** The commit is kept, and none of the steps after it commits anything that is. */
  predicate LastKept(s: Session, kind: CommitKind, after: seq<Step>)
    requires s.records != [] && s.records[0].Created?
  {
    !Skipped(CommitRecord(s, kind)) && NothingKept(Next(s, Commit(kind)), after)
  }

  /** What a resume finds after the commit and those steps. */
  function Resumed(s: Session, kind: CommitKind, after: seq<Step>): Live
    requires s.records != [] && s.records[0].Created?
  {
    Next(Run(Next(s, Commit(kind)), after), Resume).live
  }

  /** The committed view, and the committed transcript without the deltas lost since the last resume
      before the commit. */
  lemma ResumeFindsLastKeptCommit(s: Session, kind: CommitKind, after: seq<Step>)
    requires Inv(s) && LastKept(s, kind, after)
    ensures var delta := Drop(s.live.transcript, s.stored);
            && s.live.transcript == s.base + AllDeltas(SinceResume(s)) + delta
            && Resumed(s, kind, after) == Live(s.base + KeptDeltas(SinceResume(s)) + delta, s.live.view)
  {
    hide AllDeltas, KeptDeltas, NothingKept, HasModel;
    var r := CommitRecord(s, kind);
    NothingKeptKeepsReplay(Next(s, Commit(kind)), after);
    RecordKeepsInv(s, r);
    hide Skipped;
    assert s.live.transcript == s.live.transcript[..s.stored] + s.live.transcript[s.stored..];
    hide Run, NothingKept, SinceResume;
    assert Replay(Next(s, Commit(kind)).records) == Apply(Replay(s.records), r);
  }

  lemma {:induction false} SubsequenceIsNoLonger(a: seq<Segment>, b: seq<Segment>)
    requires Subsequence(a, b)
    ensures |a| <= |b| && (|a| == |b| ==> a == b)
    decreases |b|
  {
    if a != [] {
      if Subsequence(a, b[..|b| - 1]) {
        SubsequenceIsNoLonger(a, b[..|b| - 1]);
      } else {
        SubsequenceIsNoLonger(a[..|a| - 1], b[..|b| - 1]);
        if |a| == |b| {
          assert a == a[..|a| - 1] + [a[|a| - 1]] && b == b[..|b| - 1] + [b[|b| - 1]];
        }
      }
    }
  }

  lemma MiddleIsEqual(base: seq<Segment>, a: seq<Segment>, b: seq<Segment>, delta: seq<Segment>)
    requires |a| <= |b|
    ensures |base + a + delta| == |base + b + delta| ==> |a| == |b|
    ensures base + a + delta == base + b + delta ==> a == b
  {
    if base + a + delta == base + b + delta {
      assert |base + a + delta| == |base + b + delta|;
      assert a == (base + a + delta)[|base|..|base| + |a|];
      assert b == (base + b + delta)[|base|..|base| + |b|];
    }
  }

  lemma WholeViewIsWellFormed(s: State)
    requires s.active == s.transcript && NoSummary(s.transcript)
    ensures WellFormed(s)
  {
    SubsequenceExtend([], [], s.transcript);
    assert [] + s.transcript == s.transcript;
  }

  lemma ResumedWholeViewIff(s: Session, kind: CommitKind, after: seq<Step>)
    requires Inv(s) && LastKept(s, kind, after)
    requires NoSummary(s.live.transcript) && s.live.view.active == s.live.transcript
    ensures WellFormed(AsConversation(Resumed(s, kind, after))) <==> NothingLost(s)
  {
    hide AllDeltas, KeptDeltas, LastKept, Resumed;
    ResumeFindsLastKeptCommit(s, kind, after);
    KeptIsAllIff(SinceResume(s));
    var resumed := AsConversation(Resumed(s, kind, after));
    var kept, all := KeptDeltas(SinceResume(s)), AllDeltas(SinceResume(s));
    assert WithoutSummary(resumed.active) == s.live.transcript;
    MiddleIsEqual(s.base, kept, all, Drop(s.live.transcript, s.stored));
    if kept == all {
      WholeViewIsWellFormed(resumed);
    } else if WellFormed(resumed) {
      SubsequenceIsNoLonger(s.live.transcript, resumed.transcript);
    }
  }

  /** A conversation that shows its whole transcript resumes as a well-formed one if and only if no
      delta was lost before its last kept commit. */
  lemma WholeViewResumesWellFormedIff(todos: seq<Todo>, workflow: Workflow, live: Live, before: seq<Step>,
                                      kind: CommitKind, after: seq<Step>)
    requires EnabledRun(Start(todos, workflow, live), before)
    ensures var s := Run(Start(todos, workflow, live), before);
            LastKept(s, kind, after) && NoSummary(s.live.transcript) && s.live.view.active == s.live.transcript ==>
              (WellFormed(AsConversation(Resumed(s, kind, after))) <==> NothingLost(s))
  {
    var s := Run(Start(todos, workflow, live), before);
    RunKeepsInv(Start(todos, workflow, live), before);
    if LastKept(s, kind, after) && NoSummary(s.live.transcript) && s.live.view.active == s.live.transcript {
      ResumedWholeViewIff(s, kind, after);
    }
  }

  /** With nothing lost before it, a kept commit of a well-formed conversation is what every later
      resume finds, however its view was reset or compacted, until the next kept commit. */
  lemma NothingLostResumesWellFormed(todos: seq<Todo>, workflow: Workflow, live: Live, before: seq<Step>,
                                     kind: CommitKind, after: seq<Step>)
    requires EnabledRun(Start(todos, workflow, live), before)
    ensures var s := Run(Start(todos, workflow, live), before);
            LastKept(s, kind, after) && NothingLost(s) && WellFormed(AsConversation(s.live)) ==>
              Resumed(s, kind, after) == s.live && WellFormed(AsConversation(Resumed(s, kind, after)))
  {
    var s := Run(Start(todos, workflow, live), before);
    RunKeepsInv(Start(todos, workflow, live), before);
    hide WellFormed, AllDeltas, KeptDeltas, Resumed;
    if LastKept(s, kind, after) && NothingLost(s) {
      ResumeFindsLastKeptCommit(s, kind, after);
      KeptIsAllIff(SinceResume(s));
    }
  }

  // ---------- Views that do not show everything ----------

  predicate Distinct(t: seq<Segment>) {
    forall i, j :: 0 <= i < j < |t| ==> t[i] != t[j]
  }

  predicate Within(a: seq<Segment>, b: seq<Segment>) {
    forall x :: x in a ==> x in b
  }

  lemma SubsequenceLast(a: seq<Segment>, b: seq<Segment>, x: Segment)
    requires Subsequence(a, b + [x]) && x !in b
    ensures x in a ==> a[|a| - 1] == x && Subsequence(a[..|a| - 1], b)
    ensures x !in a ==> Subsequence(a, b)
  {
    assert (b + [x])[..|b|] == b;
    if Subsequence(a, b) {
      if x in a { SubsequenceMember(a, b, x); }
    } else if a != [] {
      assert x in a;
    }
  }

  function WithoutLast(a: seq<Segment>, x: Segment): seq<Segment> {
    if a != [] && a[|a| - 1] == x then a[..|a| - 1] else a
  }

  /** Taking the last of distinct segments out of a subsequence. */
  lemma StripLast(a: seq<Segment>, whole: seq<Segment>)
    requires whole != [] && Distinct(whole) && Subsequence(a, whole)
    ensures var b, x := whole[..|whole| - 1], whole[|whole| - 1];
            && Subsequence(WithoutLast(a, x), b)
            && (x in a ==> a == WithoutLast(a, x) + [x])
            && forall y :: y in WithoutLast(a, x) <==> y in a && y != x
  {
    var b, x := whole[..|whole| - 1], whole[|whole| - 1];
    assert whole == b + [x];
    SubsequenceLast(a, b, x);
    var rest := WithoutLast(a, x);
    forall y | y in rest ensures y != x {
      SubsequenceMember(rest, b, y);
    }
    if x in a { assert a == rest + [x]; }
  }

  /** Among distinct segments, what lies within a subsequence and in order is a subsequence of it. */
  lemma {:induction false} SubsequenceWithin(view: seq<Segment>, part: seq<Segment>, whole: seq<Segment>)
    requires Distinct(whole) && Subsequence(view, whole) && Subsequence(part, whole) && Within(view, part)
    ensures Subsequence(view, part)
    decreases |whole|
  {
    if view != [] {
      var x := whole[|whole| - 1];
      StripLast(view, whole);
      StripLast(part, whole);
      var view', part' := WithoutLast(view, x), WithoutLast(part, x);
      SubsequenceWithin(view', part', whole[..|whole| - 1]);
      if x in view {
      } else if x in part {
        assert view' == view;
      }
    }
  }

  /** A subsequence that has the latest request has it as its latest. */
  lemma {:induction false} LatestUserWithin(part: seq<Segment>, whole: seq<Segment>)
    requires Distinct(whole) && Subsequence(part, whole)
    requires LatestUser(whole).Some? ==> LatestUser(whole).value in part
    ensures LatestUser(part) == LatestUser(whole)
    decreases |whole|
  {
    if whole != [] {
      var b, x := whole[..|whole| - 1], whole[|whole| - 1];
      assert whole == b + [x];
      LatestUserAppend(b, x);
      StripLast(part, whole);
      if x in part {
        LatestUserAppend(WithoutLast(part, x), x);
      }
      if x.kind != User {
        LatestUserWithin(WithoutLast(part, x), b);
      }
    }
  }

  function LostDeltas(records: seq<Payload>): seq<Segment> {
    if records == [] then []
    else
      var last := records[|records| - 1];
      LostDeltas(records[..|records| - 1]) + (if last.Committed? && Skipped(last) then last.delta else [])
  }

  lemma {:induction false} DeltasSplit(records: seq<Payload>)
    ensures Subsequence(KeptDeltas(records), AllDeltas(records))
    ensures multiset(AllDeltas(records)) == multiset(KeptDeltas(records)) + multiset(LostDeltas(records))
  {
    if records != [] {
      var last := records[|records| - 1];
      var before := records[..|records| - 1];
      DeltasSplit(before);
      if Skipped(last) {
        assert KeptDeltas(records) == KeptDeltas(before);
        if last.Committed? {
          SubsequenceBefore(KeptDeltas(before), AllDeltas(before), last.delta);
        } else {
          assert AllDeltas(records) == AllDeltas(before) && LostDeltas(records) == LostDeltas(before);
        }
      } else {
        SubsequenceExtend(KeptDeltas(before), AllDeltas(before), last.delta);
        assert LostDeltas(records) == LostDeltas(before);
      }
    }
  }

  lemma {:induction false} SubsequenceBefore(a: seq<Segment>, b: seq<Segment>, c: seq<Segment>)
    requires Subsequence(a, b)
    ensures Subsequence(a, b + c)
    decreases |c|
  {
    if c == [] {
      assert b + c == b;
    } else {
      SubsequenceBefore(a, b, c[..|c| - 1]);
      assert (b + c)[..|b + c| - 1] == b + c[..|c| - 1];
    }
  }

  lemma {:induction false} SubsequenceBehind(base: seq<Segment>, a: seq<Segment>, b: seq<Segment>)
    requires Subsequence(a, b)
    ensures Subsequence(base + a, base + b)
    decreases |b|
  {
    if a == [] {
      SubsequenceExtend([], [], base);
      assert [] + base == base == base + a;
      SubsequenceBefore(base, base, b);
    } else {
      assert (base + b)[..|base + b| - 1] == base + b[..|b| - 1];
      if Subsequence(a, b[..|b| - 1]) {
        SubsequenceBehind(base, a, b[..|b| - 1]);
      } else {
        SubsequenceBehind(base, a[..|a| - 1], b[..|b| - 1]);
        assert (base + a)[..|base + a| - 1] == base + a[..|a| - 1];
      }
    }
  }

  lemma {:induction false} DistinctCounts(t: seq<Segment>, x: Segment)
    requires Distinct(t)
    ensures multiset(t)[x] <= 1
    decreases |t|
  {
    if t != [] {
      var b, y := t[..|t| - 1], t[|t| - 1];
      DistinctCounts(b, x);
      assert t == b + [y];
      if x == y { assert x !in b; }
    }
  }

  /** The committed view shows no segment of a delta that replay has lost. */
  predicate NoLostShown(s: Session) {
    forall x :: x in WithoutSummary(s.live.view.active) ==> x !in LostDeltas(SinceResume(s))
  }

  /** Which of the distinct committed segments a resumed transcript has. */
  lemma ResumedTranscriptHas(base: seq<Segment>, records: seq<Payload>, delta: seq<Segment>, x: Segment)
    requires Distinct(base + AllDeltas(records) + delta) && x in base + AllDeltas(records) + delta
    ensures x in base + KeptDeltas(records) + delta <==> x !in LostDeltas(records)
  {
    hide AllDeltas, KeptDeltas, LostDeltas, Distinct;
    DeltasSplit(records);
    var t := base + AllDeltas(records) + delta;
    DistinctCounts(t, x);
    assert multiset(t) == multiset(base) + multiset(KeptDeltas(records)) + multiset(LostDeltas(records))
                          + multiset(delta);
    assert multiset(t)[x] == 1;
  }

  lemma ResumedPartIff(s: Session, part: State)
    requires WellFormed(AsConversation(s.live)) && Distinct(s.live.transcript)
    requires Subsequence(part.transcript, s.live.transcript) && part.active == s.live.view.active
    ensures WellFormed(part) <==> Within(WithoutSummary(part.active), part.transcript)
  {
    var view := WithoutSummary(part.active);
    if WellFormed(part) {
      forall x | x in view ensures x in part.transcript {
        SubsequenceMember(view, part.transcript, x);
      }
    }
    if Within(view, part.transcript) {
      SubsequenceWithin(view, part.transcript, s.live.transcript);
      if LatestUser(view).Some? {
        assert LatestUser(view).value in view;
      }
      LatestUserWithin(part.transcript, s.live.transcript);
      forall i | 0 <= i < |part.transcript| ensures part.transcript[i].kind != Summary {
        SubsequenceMember(part.transcript, s.live.transcript, part.transcript[i]);
      }
    }
  }

  /** A well-formed conversation of distinct segments, its view reset, compacted or whole, resumes as
      a well-formed one if and only if its committed view shows no segment of a lost delta. */
  lemma DistinctResumesWellFormedIff(todos: seq<Todo>, workflow: Workflow, live: Live, before: seq<Step>,
                                     kind: CommitKind, after: seq<Step>)
    requires EnabledRun(Start(todos, workflow, live), before)
    ensures var s := Run(Start(todos, workflow, live), before);
            LastKept(s, kind, after) && WellFormed(AsConversation(s.live)) && Distinct(s.live.transcript) ==>
              (WellFormed(AsConversation(Resumed(s, kind, after))) <==> NoLostShown(s))
  {
    var s := Run(Start(todos, workflow, live), before);
    RunKeepsInv(Start(todos, workflow, live), before);
    if LastKept(s, kind, after) && WellFormed(AsConversation(s.live)) && Distinct(s.live.transcript) {
      ResumedDistinctIff(s, kind, after);
    }
  }

  lemma ResumedDistinctIff(s: Session, kind: CommitKind, after: seq<Step>)
    requires Inv(s) && LastKept(s, kind, after)
    requires WellFormed(AsConversation(s.live)) && Distinct(s.live.transcript)
    ensures WellFormed(AsConversation(Resumed(s, kind, after))) <==> NoLostShown(s)
  {
    hide AllDeltas, KeptDeltas, LostDeltas, LastKept, Resumed, Distinct;
    ResumeFindsLastKeptCommit(s, kind, after);
    var since, delta := SinceResume(s), Drop(s.live.transcript, s.stored);
    var part := AsConversation(Resumed(s, kind, after));
    DeltasSplit(since);
    SubsequenceBehind(s.base, KeptDeltas(since), AllDeltas(since));
    SubsequenceExtend(s.base + KeptDeltas(since), s.base + AllDeltas(since), delta);
    ResumedPartIff(s, part);
    forall x | x in WithoutSummary(part.active) ensures x in part.transcript <==> x !in LostDeltas(since) {
      SubsequenceMember(WithoutSummary(part.active), s.live.transcript, x);
      ResumedTranscriptHas(s.base, since, delta, x);
    }
  }

  /** Working on and then committing one turn. */
  function Turn(s: Session, live: Live, kind: CommitKind): Session
    requires s.records != [] && s.records[0].Created?
  {
    Next(Next(s, Work(live)), Commit(kind))
  }

  lemma TurnStores(s: Session, live: Live, kind: CommitKind, delta: seq<Segment>)
    requires s.records != [] && s.records[0].Created? && s.epoch <= |s.records|
    requires live.transcript == s.live.transcript[..Min(s.stored, |s.live.transcript|)] + delta
    requires s.stored <= |s.live.transcript|
    ensures Enabled(s, Work(live))
    ensures Turn(s, live, kind).live == live && Turn(s, live, kind).stored == |live.transcript|
    ensures Turn(s, live, kind).records == s.records + [Committed(kind, delta, live.view)]
    ensures Replay(Turn(s, live, kind).records) == Apply(Replay(s.records), Committed(kind, delta, live.view))
  {
    var r := Committed(kind, delta, live.view);
    assert CommitRecord(s.(live := live), kind) == r;
    RecordKeepsInv(s, r);
  }

  /** A turn that asks `u1` and fails before any model round, then one that asks `u2` and is
      answered by `m`. */
  function FailedTurn(view: View, u1: Segment): Live { Live([u1], view.(active := [u1])) }

  function AnsweredTurn(view: View, u1: Segment, u2: Segment, m: Segment): Live {
    Live([u1, u2, m], view.(active := [u1, u2, m]))
  }

  function TwoTurns(view: View, u1: Segment, u2: Segment, m: Segment): Session {
    Turn(Turn(Start([], view.workflow, Live([], view)), FailedTurn(view, u1), TurnFailed),
         AnsweredTurn(view, u1, u2, m), StateCommitted)
  }

  lemma TwoTurnsResume(view: View, u1: Segment, u2: Segment, m: Segment)
    requires u1.kind == User
    ensures Next(TwoTurns(view, u1, u2, m), Resume).live
            == Live([u2, m], AnsweredTurn(view, u1, u2, m).view)
  {
    var s0 := Start([], view.workflow, Live([], view));
    var failed, done := FailedTurn(view, u1), AnsweredTurn(view, u1, u2, m);
    TurnStores(s0, failed, TurnFailed, [u1]);
    var s1 := Turn(s0, failed, TurnFailed);
    assert Skipped(Committed(TurnFailed, [u1], failed.view));
    assert done.transcript == [u1] + [u2, m];
    TurnStores(s1, done, StateCommitted, [u2, m]);
  }

  lemma MissingRequestIsNotWellFormed(s: State, u1: Segment, u2: Segment, m: Segment)
    requires s.active == [u1, u2, m] && s.transcript == [u2, m]
    requires u1.kind == User && u1 != u2 && u1 != m
    ensures !WellFormed(s)
  {
    if Subsequence(WithoutSummary(s.active), s.transcript) {
      SubsequenceMember(WithoutSummary(s.active), s.transcript, u1);
    }
  }

  /** The live conversation is well-formed at both commits, yet the resumed one shows a request its
      transcript lacks. */
  lemma SkippedTurnBreaksReplayedConversation(view: View, u1: Segment, u2: Segment, m: Segment)
    requires view.active == [] && view.checkpoints == []
    requires u1.kind == User && u2.kind == User && m.kind == Model && u1 != u2
    ensures WellFormed(AsConversation(FailedTurn(view, u1)))
    ensures WellFormed(AsConversation(AnsweredTurn(view, u1, u2, m)))
    ensures !WellFormed(AsConversation(Next(TwoTurns(view, u1, u2, m), Resume).live))
  {
    LiveTurnsAreWellFormed(u1, u2, m);
    TwoTurnsResume(view, u1, u2, m);
    MissingRequestIsNotWellFormed(
      AsConversation(Live([u2, m], AnsweredTurn(view, u1, u2, m).view)), u1, u2, m);
  }

  lemma LiveTurnsAreWellFormed(u1: Segment, u2: Segment, m: Segment)
    requires u1.kind == User && u2.kind == User && m.kind == Model
    ensures WellFormed(State([u1], [u1], []))
    ensures WellFormed(State([u1, u2, m], [u1, u2, m], []))
  {
    AppendKeepsWellFormed(State([], [], []), u1);
    AppendKeepsWellFormed(State([u1], [u1], []), u2);
    AppendKeepsWellFormed(State([u1, u2], [u1, u2], []), m);
    assert [u1] + [u2] == [u1, u2] && [u1, u2] + [m] == [u1, u2, m] && [] + [u1] == [u1];
  }
}
