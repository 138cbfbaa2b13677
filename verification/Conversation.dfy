/** The transcript of one chat and the bounded active view sent to the model. */
module Conversation {
  import opened Basics

  datatype SegmentKind = User | Model | Summary

  datatype Item =
    | UserText(text: string)
    | Message(parts: seq<string>)
    | FunctionCall(callId: string, name: string)
    | FunctionOutput(callId: string, output: string)

  /** One protocol-safe unit of the conversation. */
  datatype Segment = Segment(kind: SegmentKind, items: seq<Item>)

  datatype Checkpoint = Checkpoint(
    summary: string, trigger: string, beforeTokens: int, afterTokens: int, dropped: nat)

  datatype State = State(transcript: seq<Segment>, active: seq<Segment>, checkpoints: seq<Checkpoint>)

  // ---------- Operations, on values ----------

  function UserSegment(text: string): Segment { Segment(User, [UserText(text)]) }

  /** Replay-safe items: messages without content are dropped. */
  function Normalize(items: seq<Item>): seq<Item> {
    if items == [] then []
    else Normalize(items[..|items| - 1])
         + (if items[|items| - 1] == Message([]) then [] else [items[|items| - 1]])
  }

  function AppendUser(s: State, text: string): State {
    s.(transcript := s.transcript + [UserSegment(text)], active := s.active + [UserSegment(text)])
  }

  function AppendModelRound(s: State, items: seq<Item>): State {
    var segment := Segment(Model, Normalize(items));
    s.(transcript := s.transcript + [segment], active := s.active + [segment])
  }

  function ResetActiveToUser(s: State, text: string): State {
    s.(transcript := s.transcript + [UserSegment(text)], active := [UserSegment(text)])
  }

  /** The segments at the kept indices, in order. */
  function Select(segments: seq<Segment>, keep: set<nat>): seq<Segment> {
    if segments == [] then []
    else
      var last := |segments| - 1;
      Select(segments[..last], keep) + (if last in keep then [segments[last]] else [])
  }

  function LatestUserIndex(segments: seq<Segment>): (r: Option<nat>)
    ensures r.Some? ==> r.value < |segments| && segments[r.value].kind == User
    ensures r.None? ==> forall i :: 0 <= i < |segments| ==> segments[i].kind != User
  {
    if segments == [] then None
    else if segments[|segments| - 1].kind == User then Some(|segments| - 1)
    else LatestUserIndex(segments[..|segments| - 1])
  }

  function LatestUser(segments: seq<Segment>): Option<Segment> {
    match LatestUserIndex(segments)
    case None => None
    case Some(i) => Some(segments[i])
  }

  /** A plan keeps the latest user segment and otherwise only model segments. */
  predicate KeepablePlan(active: seq<Segment>, keep: set<nat>) {
    && LatestUserIndex(active).Some?
    && LatestUserIndex(active).value in keep
    && forall i: nat :: i in keep ==>
         i < |active| && (i == LatestUserIndex(active).value || active[i].kind == Model)
  }

  function Compact(s: State, keep: set<nat>, summary: Segment, checkpoint: Checkpoint): State {
    s.(active := [summary] + Select(s.active, keep), checkpoints := s.checkpoints + [checkpoint])
  }

  function RestoreProjection(s: State, snapshot: State): State {
    State(s.transcript, snapshot.active + Drop(s.transcript, |snapshot.transcript|), snapshot.checkpoints)
  }

  // ---------- The mutable conversation ----------

  class ConversationState {
    var transcript: seq<Segment>
    var active: seq<Segment>
    var checkpoints: seq<Checkpoint>

    constructor ()
      ensures Value() == State([], [], [])
    {
      transcript, active, checkpoints := [], [], [];
    }

    ghost function Value(): State
      reads this
    {
      State(transcript, active, checkpoints)
    }

    method AddUser(content: string)
      modifies this
      ensures Value() == AppendUser(old(Value()), content)
      ensures transcript == old(transcript) + [Segment(User, [UserText(content)])]
      ensures active == old(active) + [Segment(User, [UserText(content)])] && checkpoints == old(checkpoints)
    {
      var segment := UserSegment(content);
      transcript := transcript + [segment];
      active := active + [segment];
    }

    method AddModelRound(items: seq<Item>)
      modifies this
      ensures Value() == AppendModelRound(old(Value()), items)
      ensures transcript == old(transcript) + [Segment(Model, Normalize(items))]
      ensures active == old(active) + [Segment(Model, Normalize(items))] && checkpoints == old(checkpoints)
    {
      var segment := Segment(Model, Normalize(items));
      transcript := transcript + [segment];
      active := active + [segment];
    }

    method ResetToUser(content: string)
      modifies this
      ensures Value() == ResetActiveToUser(old(Value()), content)
      ensures transcript == old(transcript) + [Segment(User, [UserText(content)])]
      ensures active == [Segment(User, [UserText(content)])] && checkpoints == old(checkpoints)
    {
      var segment := UserSegment(content);
      transcript := transcript + [segment];
      active := [segment];
    }

    method RestoreProjectionPreservingNewTranscript(snapshot: State)
      modifies this`active, this`checkpoints
      ensures Value() == RestoreProjection(old(Value()), snapshot)
    {
      var newSegments := Drop(transcript, |snapshot.transcript|);
      active := snapshot.active + newSegments;
      checkpoints := snapshot.checkpoints;
    }

    /** The search backwards from the newest segment. */
    method FindLatestUser() returns (index: Option<nat>)
      ensures index == LatestUserIndex(active)
    {
      var i := |active|;
      assert active[..i] == active;
      while i > 0
        invariant 0 <= i <= |active|
        invariant LatestUserIndex(active) == LatestUserIndex(active[..i])
      {
        i := i - 1;
        assert active[..i + 1][..i] == active[..i];
        if active[i].kind == User {
          return Some(i);
        }
      }
      return None;
    }
  }

  // ---------- Subsequences ----------

  ghost predicate Subsequence(a: seq<Segment>, b: seq<Segment>)
    decreases |b|
  {
    || a == []
    || (b != [] &&
         (|| Subsequence(a, b[..|b| - 1])
          || (a[|a| - 1] == b[|b| - 1] && Subsequence(a[..|a| - 1], b[..|b| - 1]))))
  }

  lemma {:induction false} SubsequenceTransitive(a: seq<Segment>, b: seq<Segment>, c: seq<Segment>)
    requires Subsequence(a, b) && Subsequence(b, c)
    ensures Subsequence(a, c)
    decreases |b| + |c|
  {
    if a != [] {
      var b', c' := b[..|b| - 1], c[..|c| - 1];
      if Subsequence(b, c') {
        SubsequenceTransitive(a, b, c');
      } else if Subsequence(a, b') {
        SubsequenceTransitive(a, b', c');
      } else {
        SubsequenceTransitive(a[..|a| - 1], b', c');
      }
    }
  }

  lemma SubsequenceAppend(a: seq<Segment>, b: seq<Segment>, x: Segment)
    requires Subsequence(a, b)
    ensures Subsequence(a + [x], b + [x])
    ensures Subsequence(a, b + [x])
  {
    assert (a + [x])[..|a|] == a && (b + [x])[..|b|] == b;
  }

  lemma {:induction false} SubsequenceExtend(a: seq<Segment>, b: seq<Segment>, c: seq<Segment>)
    requires Subsequence(a, b)
    ensures Subsequence(a + c, b + c)
    decreases |c|
  {
    if c == [] {
      assert a + c == a && b + c == b;
    } else {
      var c', x := c[..|c| - 1], c[|c| - 1];
      SubsequenceExtend(a, b, c');
      SubsequenceAppend(a + c', b + c', x);
      assert a + c == (a + c') + [x] && b + c == (b + c') + [x];
    }
  }

  lemma {:induction false} SubsequenceMember(a: seq<Segment>, b: seq<Segment>, x: Segment)
    requires Subsequence(a, b) && x in a
    ensures x in b
    decreases |b|
  {
    var b' := b[..|b| - 1];
    if Subsequence(a, b') {
      SubsequenceMember(a, b', x);
    } else if x != a[|a| - 1] {
      SubsequenceMember(a[..|a| - 1], b', x);
    }
  }

  // ---------- The invariant ----------

  /** The active view without the summary in front. */
  function WithoutSummary(active: seq<Segment>): seq<Segment> {
    if active != [] && active[0].kind == Summary then active[1..] else active
  }

  predicate NoSummary(segments: seq<Segment>) {
    forall i :: 0 <= i < |segments| ==> segments[i].kind != Summary
  }

  /** The active view is an optional summary followed by a subsequence of the transcript; the
      transcript holds no summary, and both views end in the same user request. */
  ghost predicate WellFormed(s: State) {
    && NoSummary(s.transcript)
    && NoSummary(WithoutSummary(s.active))
    && Subsequence(WithoutSummary(s.active), s.transcript)
    && LatestUser(WithoutSummary(s.active)) == LatestUser(s.transcript)
  }

  lemma LatestUserAppend(segments: seq<Segment>, x: Segment)
    ensures LatestUser(segments + [x]) == if x.kind == User then Some(x) else LatestUser(segments)
  {
    assert (segments + [x])[..|segments|] == segments;
  }

  lemma {:induction false} LatestUserConcat(a: seq<Segment>, b: seq<Segment>)
    ensures LatestUser(a + b) == if LatestUser(b).Some? then LatestUser(b) else LatestUser(a)
    decreases |b|
  {
    if b == [] {
      assert a + b == a;
    } else {
      var b', x := b[..|b| - 1], b[|b| - 1];
      LatestUserConcat(a, b');
      LatestUserAppend(b', x);
      LatestUserAppend(a + b', x);
      assert b == b' + [x] && a + b == (a + b') + [x];
    }
  }

  lemma AppendKeepsWellFormed(s: State, x: Segment)
    requires WellFormed(s) && x.kind != Summary
    ensures WellFormed(s.(transcript := s.transcript + [x], active := s.active + [x]))
  {
    assert WithoutSummary(s.active + [x]) == WithoutSummary(s.active) + [x];
    SubsequenceAppend(WithoutSummary(s.active), s.transcript, x);
    LatestUserAppend(WithoutSummary(s.active), x);
    LatestUserAppend(s.transcript, x);
  }

  lemma ResetKeepsWellFormed(s: State, text: string)
    requires WellFormed(s)
    ensures WellFormed(ResetActiveToUser(s, text))
  {
    var x := UserSegment(text);
    assert [] + [x] == [x];
    SubsequenceAppend([], s.transcript, x);
    LatestUserAppend([], x);
    LatestUserAppend(s.transcript, x);
  }

  lemma {:induction false} SelectIsSubsequence(segments: seq<Segment>, keep: set<nat>)
    ensures Subsequence(Select(segments, keep), segments)
  {
    if segments != [] {
      var last := |segments| - 1;
      SelectIsSubsequence(segments[..last], keep);
      SubsequenceAppend(Select(segments[..last], keep), segments[..last], segments[last]);
      assert segments == segments[..last] + [segments[last]];
      assert Select(segments[..last], keep) + [] == Select(segments[..last], keep);
    }
  }

  /** Selecting without index 0 selects from the rest. */
  lemma {:induction false} SelectSkipsFirst(segments: seq<Segment>, keep: set<nat>)
    requires segments != [] && 0 !in keep
    ensures Subsequence(Select(segments, keep), segments[1..])
  {
    var last := |segments| - 1;
    if last > 0 {
      SelectSkipsFirst(segments[..last], keep);
      assert segments[1..] == segments[..last][1..] + [segments[last]];
      SubsequenceAppend(Select(segments[..last], keep), segments[..last][1..], segments[last]);
      assert Select(segments[..last], keep) + [] == Select(segments[..last], keep);
    }
  }

  lemma {:induction false} SelectKeepsLatestUser(segments: seq<Segment>, keep: set<nat>)
    requires LatestUserIndex(segments).Some? && LatestUserIndex(segments).value in keep
    ensures LatestUser(Select(segments, keep)) == LatestUser(segments)
  {
    var last := |segments| - 1;
    var chosen := Select(segments[..last], keep);
    if segments[last].kind == User {
      LatestUserAppend(chosen, segments[last]);
    } else {
      SelectKeepsLatestUser(segments[..last], keep);
      LatestUserAppend(chosen, segments[last]);
      assert chosen + [] == chosen;
    }
  }

  lemma CompactionKeepsWellFormed(s: State, keep: set<nat>, summary: Segment, checkpoint: Checkpoint)
    requires WellFormed(s) && KeepablePlan(s.active, keep) && summary.kind == Summary
    ensures WellFormed(Compact(s, keep, summary, checkpoint))
    ensures Compact(s, keep, summary, checkpoint).transcript == s.transcript
  {
    var chosen := Select(s.active, keep);
    assert WithoutSummary([summary] + chosen) == chosen;
    if s.active[0].kind == Summary {
      SelectSkipsFirst(s.active, keep);
      LatestUserConcat(s.active[..1], s.active[1..]);
      assert s.active == s.active[..1] + s.active[1..];
    } else {
      SelectIsSubsequence(s.active, keep);
    }
    SelectKeepsLatestUser(s.active, keep);
    SubsequenceTransitive(chosen, WithoutSummary(s.active), s.transcript);
    forall i | 0 <= i < |chosen| ensures chosen[i].kind != Summary {
      SubsequenceMember(chosen, s.transcript, chosen[i]);
    }
  }

  lemma WithoutSummaryConcat(active: seq<Segment>, added: seq<Segment>)
    requires NoSummary(added)
    ensures WithoutSummary(active + added) == WithoutSummary(active) + added
  {
    if active == [] {
      assert active + added == added;
    }
  }

  lemma ProjectionKeepsWellFormed(s: State, snapshot: State)
    requires WellFormed(s) && WellFormed(snapshot) && snapshot.transcript <= s.transcript
    ensures WellFormed(RestoreProjection(s, snapshot))
  {
    var added := s.transcript[|snapshot.transcript|..];
    var body := WithoutSummary(snapshot.active);
    assert NoSummary(added);
    WithoutSummaryConcat(snapshot.active, added);
    assert s.transcript == snapshot.transcript + added;
    SubsequenceExtend(body, snapshot.transcript, added);
    LatestUserConcat(body, added);
    LatestUserConcat(snapshot.transcript, added);
  }

  // ---------- Tool calls and their outputs ----------

  function CallIds(items: seq<Item>): seq<string> {
    if items == [] then []
    else CallIds(items[..|items| - 1])
         + (if items[|items| - 1].FunctionCall? then [items[|items| - 1].callId] else [])
  }

  function OutputIds(items: seq<Item>): seq<string> {
    if items == [] then []
    else OutputIds(items[..|items| - 1])
         + (if items[|items| - 1].FunctionOutput? then [items[|items| - 1].callId] else [])
  }

  /** A round is the model's items followed by one output per call, in the requested order. */
  ghost predicate PairedAt(items: seq<Item>, n: nat) {
    && n <= |items|
    && OutputIds(items[..n]) == []
    && CallIds(items[n..]) == []
    && CallIds(items[..n]) == OutputIds(items[n..])
  }

  ghost predicate Paired(items: seq<Item>) {
    exists n: nat :: PairedAt(items, n)
  }

  ghost predicate AllPaired(segments: seq<Segment>) {
    forall i :: 0 <= i < |segments| && segments[i].kind == Model ==> Paired(segments[i].items)
  }

  lemma {:induction false} NormalizeKeepsIds(items: seq<Item>)
    ensures CallIds(Normalize(items)) == CallIds(items)
    ensures OutputIds(Normalize(items)) == OutputIds(items)
  {
    if items != [] {
      var front, last := items[..|items| - 1], items[|items| - 1];
      NormalizeKeepsIds(front);
      if last == Message([]) {
        assert Normalize(items) == Normalize(front);
      } else {
        assert Normalize(items)[..|Normalize(front)|] == Normalize(front);
      }
    }
  }

  lemma {:induction false} NormalizeConcat(a: seq<Item>, b: seq<Item>)
    ensures Normalize(a + b) == Normalize(a) + Normalize(b)
    decreases |b|
  {
    if b == [] {
      assert a + b == a;
    } else {
      var b' := b[..|b| - 1];
      assert (a + b)[..|a + b| - 1] == a + b';
      NormalizeConcat(a, b');
    }
  }

  lemma NormalizeKeepsPaired(items: seq<Item>)
    requires Paired(items)
    ensures Paired(Normalize(items))
  {
    var n: nat :| PairedAt(items, n);
    var a, b := items[..n], items[n..];
    assert items == a + b;
    NormalizeConcat(a, b);
    NormalizeKeepsIds(a);
    NormalizeKeepsIds(b);
    var whole, k := Normalize(items), |Normalize(a)|;
    assert whole[..k] == Normalize(a) && whole[k..] == Normalize(b);
    assert PairedAt(whole, k);
  }

  // ---------- Runs ----------

  datatype Step =
    | UserStep(text: string)
    | ModelStep(items: seq<Item>)
    | ResetStep(text: string)
    | CompactStep(keep: set<nat>, summary: Segment, checkpoint: Checkpoint)
    | SnapshotStep
    | RestoreStep(snapshot: nat)
    | ProjectionStep(snapshot: nat)

  /** The conversation and every snapshot taken so far. */
  datatype Chat = Chat(current: State, snapshots: seq<State>)

  /** What the callers guarantee for a step: rounds are paired, plans keep the latest user, and a
      projection is restored only from a snapshot of an earlier transcript. */
  ghost predicate Enabled(chat: Chat, step: Step) {
    match step
    case UserStep(_) => true
    case ModelStep(items) => Paired(items)
    case ResetStep(_) => true
    case CompactStep(keep, summary, _) => KeepablePlan(chat.current.active, keep) && summary.kind == Summary
    case SnapshotStep => true
    case RestoreStep(i) => i < |chat.snapshots|
    case ProjectionStep(i) =>
      i < |chat.snapshots| && chat.snapshots[i].transcript <= chat.current.transcript
  }

  ghost function Next(chat: Chat, step: Step): Chat
    requires Enabled(chat, step)
  {
    match step
    case UserStep(text) => chat.(current := AppendUser(chat.current, text))
    case ModelStep(items) => chat.(current := AppendModelRound(chat.current, items))
    case ResetStep(text) => chat.(current := ResetActiveToUser(chat.current, text))
    case CompactStep(keep, summary, checkpoint) =>
      chat.(current := Compact(chat.current, keep, summary, checkpoint))
    case SnapshotStep => chat.(snapshots := chat.snapshots + [chat.current])
    case RestoreStep(i) => chat.(current := chat.snapshots[i])
    case ProjectionStep(i) => chat.(current := RestoreProjection(chat.current, chat.snapshots[i]))
  }

  ghost predicate Good(s: State) {
    WellFormed(s) && AllPaired(s.transcript)
  }

  ghost predicate GoodChat(chat: Chat) {
    Good(chat.current) && forall i :: 0 <= i < |chat.snapshots| ==> Good(chat.snapshots[i])
  }

  lemma StepKeepsGood(chat: Chat, step: Step)
    requires GoodChat(chat) && Enabled(chat, step)
    ensures GoodChat(Next(chat, step))
  {
    var s := chat.current;
    match step
    case UserStep(text) =>
      AppendKeepsWellFormed(s, UserSegment(text));
    case ModelStep(items) =>
      NormalizeKeepsPaired(items);
      AppendKeepsWellFormed(s, Segment(Model, Normalize(items)));
    case ResetStep(text) =>
      ResetKeepsWellFormed(s, text);
    case CompactStep(keep, summary, checkpoint) =>
      CompactionKeepsWellFormed(s, keep, summary, checkpoint);
    case SnapshotStep =>
    case RestoreStep(_) =>
    case ProjectionStep(i) =>
      ProjectionKeepsWellFormed(s, chat.snapshots[i]);
  }

  ghost predicate EnabledRun(chat: Chat, steps: seq<Step>)
    decreases |steps|
  {
    steps == [] || (Enabled(chat, steps[0]) && EnabledRun(Next(chat, steps[0]), steps[1..]))
  }

  ghost function Run(chat: Chat, steps: seq<Step>): Chat
    requires EnabledRun(chat, steps)
    decreases |steps|
  {
    if steps == [] then chat else Run(Next(chat, steps[0]), steps[1..])
  }

  lemma {:induction false} RunKeepsGood(chat: Chat, steps: seq<Step>)
    requires GoodChat(chat) && EnabledRun(chat, steps)
    ensures GoodChat(Run(chat, steps))
    decreases |steps|
  {
    if steps != [] {
      StepKeepsGood(chat, steps[0]);
      RunKeepsGood(Next(chat, steps[0]), steps[1..]);
    }
  }

  /** In every run of appends, resets, compactions, snapshots and both kinds of restore: the active
      view without its summary is a subsequence of the transcript, the summary is at most one and
      only in front, the latest request is the same in both, and every model round in view has
      exactly its own outputs. */
  lemma ConversationInvariant(steps: seq<Step>)
    requires EnabledRun(Chat(State([], [], []), []), steps)
    ensures var s := Run(Chat(State([], [], []), []), steps).current;
            && NoSummary(s.transcript) && NoSummary(WithoutSummary(s.active))
            && Subsequence(WithoutSummary(s.active), s.transcript)
            && LatestUser(WithoutSummary(s.active)) == LatestUser(s.transcript)
            && AllPaired(WithoutSummary(s.active))
  {
    RunKeepsGood(Chat(State([], [], []), []), steps);
    var s := Run(Chat(State([], [], []), []), steps).current;
    forall i | 0 <= i < |WithoutSummary(s.active)| && WithoutSummary(s.active)[i].kind == Model
      ensures Paired(WithoutSummary(s.active)[i].items)
    {
      SubsequenceMember(WithoutSummary(s.active), s.transcript, WithoutSummary(s.active)[i]);
    }
  }
}
