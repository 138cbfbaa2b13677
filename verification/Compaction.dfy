/** Bounding the active view: token estimates, the greedy retention plan, the checks on a compacted
    view and the summary request with its bounded retries. */
module Compaction {
  import opened Basics
  import opened Conversation

  const MIN_CONTEXT_WINDOW: nat := 16_384
  const SUMMARY_RESERVE_TOKENS: nat := 8_192
  const ITEM_OVERHEAD_TOKENS: nat := 16
  const MAX_AUTO_FAILURES: nat := 3
  const MAX_SUMMARY_RETRIES: nat := 3

  // ---------- Estimates ----------

  /** Bytes and number of protocol items. */
  datatype Load = Load(bytes: nat, items: nat)

  /** The parts of a request around the conversation: `fixedBytes` for instructions, tools and the
      brackets, an optional project-context item in front, and the encoded size of a segment. */
  datatype Request = Request(fixedBytes: nat, context: Option<nat>, tools: nat, weigh: Segment -> Load)

  function Plus(a: Load, b: Load): Load { Load(a.bytes + b.bytes, a.items + b.items) }

  function LoadOf(req: Request, segments: seq<Segment>): Load {
    if segments == [] then Load(0, 0)
    else Plus(LoadOf(req, segments[..|segments| - 1]), req.weigh(segments[|segments| - 1]))
  }

  /** One token for three bytes, rounded up, and an overhead for every item. Items are separated by
      two bytes. */
  function LocalEstimate(req: Request, load: Load): nat {
    var items := load.items + if req.context.Some? then 1 else 0;
    var bytes := req.fixedBytes + load.bytes + (if req.context.Some? then req.context.value else 0)
                 + (if items > 0 then 2 * (items - 1) else 0);
    (bytes + 2) / 3 + ITEM_OVERHEAD_TOKENS * (1 + items + req.tools)
  }

  /** The estimate is the overhead of all items and tools and the least number of tokens that holds the
      bytes, with a separator of two bytes between any two items; the project context counts as one more. */
  lemma EstimateOfParts(req: Request, load: Load)
    ensures req.context.None? ==>
              var gaps := if load.items <= 1 then 0 else 2 * load.items - 2;
              var tokens := LocalEstimate(req, load) - 16 * (1 + load.items + req.tools);
              3 * (tokens - 1) < req.fixedBytes + load.bytes + gaps <= 3 * tokens
    ensures req.context.Some? ==>
              LocalEstimate(req, load)
              == LocalEstimate(req.(context := None), Load(load.bytes + req.context.value, load.items + 1))
  {
  }

  function Ceiling(x: real): int { -(-x).Floor }

  function Scaled(tokens: nat, calibration: real): int { Ceiling(tokens as real * calibration) }

  function Estimate(req: Request, calibration: real, load: Load): int {
    Scaled(LocalEstimate(req, load), calibration)
  }

  /** At most nine tenths of the window, and always room for a summary. */
  function Threshold(window: nat): int {
    if window * 9 / 10 < window - SUMMARY_RESERVE_TOKENS then window * 9 / 10 else window - SUMMARY_RESERVE_TOKENS
  }

  function Target(budget: Option<nat>, before: int): int {
    var half := (if budget.Some? then Threshold(budget.value) else before) / 2;
    if half < SUMMARY_RESERVE_TOKENS then SUMMARY_RESERVE_TOKENS else half
  }

  /** The encoded user message of the largest allowed summary: 12288 bytes of text in a 31 byte frame. */
  const PLACEHOLDER := Load(12_319, 1)

  // ---------- The manager ----------

  datatype Manager = Manager(
    conversation: State,
    budget: Option<nat>,
    calibration: real,
    lastActual: Option<nat>,
    lastEstimated: Option<nat>,
    failures: nat,
    disabled: bool)

  datatype Plan = Plan(keep: set<nat>, latestUser: nat, before: int)

  datatype CompactError =
    | NoUserMessage
    | NothingToCompact
    | NotReduced
    | StillTooLarge
    | Cancelled
    | ProviderFailed
    | AttemptedTool
    | EmptySummary
    | ContradictsEvidence

  /** What every captured or updated manager satisfies. */
  predicate ValidManager(m: Manager) {
    && (m.budget.Some? ==> m.budget.value >= MIN_CONTEXT_WINDOW)
    && m.calibration >= 1.0
    && (m.failures >= MAX_AUTO_FAILURES ==> m.disabled)
  }

  function ActiveEstimate(m: Manager, req: Request): int {
    Estimate(req, m.calibration, LoadOf(req, m.conversation.active))
  }

  function RecordRegularResponse(m: Manager, actual: Option<nat>, local: nat): Manager {
    var estimated := m.(lastEstimated := Some(local));
    if actual.None? then estimated
    else if local == 0 then estimated.(lastActual := actual)
    else
      var ratio := actual.value as real / local as real;
      estimated.(lastActual := actual, calibration := if ratio > 1.0 then ratio else 1.0)
  }

  function RecordAutoFailure(m: Manager): Manager {
    m.(failures := m.failures + 1, disabled := m.disabled || m.failures + 1 >= MAX_AUTO_FAILURES)
  }

  /** `proactive` compaction is due: over the threshold with something besides the latest request. */
  predicate ShouldAutoCompact(m: Manager, req: Request) {
    && m.budget.Some? && !m.disabled
    && ActiveEstimate(m, req) >= Threshold(m.budget.value)
    && LatestUserIndex(m.conversation.active).Some?
    && |m.conversation.active| > 1
  }

  // ---------- The plan ----------

  /** The estimate of a compacted view that keeps these segments. */
  function CandidateEstimate(m: Manager, req: Request, keep: set<nat>): int {
    Estimate(req, m.calibration, Plus(PLACEHOLDER, LoadOf(req, Select(m.conversation.active, keep))))
  }

  predicate Retains(m: Manager, req: Request, latest: nat, target: int, keep: set<nat>, i: nat)
    requires i < |m.conversation.active|
  {
    && i != latest && m.conversation.active[i].kind == Model
    && CandidateEstimate(m, req, keep + {i}) <= target
  }

  /** Decides the segments below `n`, newest first, after `keep` was chosen above. */
  function Retain(m: Manager, req: Request, latest: nat, target: int, keep: set<nat>, n: nat): set<nat>
    requires n <= |m.conversation.active|
    decreases n
  {
    if n == 0 then keep
    else
      var next := if Retains(m, req, latest, target, keep, n - 1) then keep + {n - 1} else keep;
      Retain(m, req, latest, target, next, n - 1)
  }

  predicate KeepsAll(active: seq<Segment>, keep: set<nat>) {
    forall i: nat :: i < |active| ==> i in keep
  }

  function PlanTarget(m: Manager, req: Request): int { Target(m.budget, ActiveEstimate(m, req)) }

  function PlanCompaction(m: Manager, req: Request): Result<Plan, CompactError> {
    match LatestUserIndex(m.conversation.active)
    case None => Err(NoUserMessage)
    case Some(latest) =>
      var keep := Retain(m, req, latest, PlanTarget(m, req), {latest}, |m.conversation.active|);
      if KeepsAll(m.conversation.active, keep) then Err(NothingToCompact)
      else Ok(Plan(keep, latest, ActiveEstimate(m, req)))
  }

  // ---------- Installing a summary ----------

  function AfterEstimate(m: Manager, req: Request, plan: Plan, summary: Segment): int {
    Estimate(req, m.calibration, LoadOf(req, [summary] + Select(m.conversation.active, plan.keep)))
  }

  function ApplyCompaction(m: Manager, req: Request, plan: Plan, summary: Segment, trigger: string, dropped: nat)
    : Result<Manager, CompactError>
  {
    var after := AfterEstimate(m, req, plan, summary);
    if after >= plan.before then Err(NotReduced)
    else if m.budget.Some? && after >= Threshold(m.budget.value) then Err(StillTooLarge)
    else
      var text := if |summary.items| == 1 && summary.items[0].UserText? then summary.items[0].text else "";
      Ok(m.(conversation := Compact(m.conversation, plan.keep, summary,
                                    Checkpoint(text, trigger, plan.before, after, dropped)),
            failures := 0, disabled := false))
  }

  // ---------- The summary request ----------

  datatype Reply =
    | Overflow
    | Broken
    | Stopped
    | Answer(text: string, callsTool: bool, deniesEvidence: bool)

  function FirstNonUser(segments: seq<Segment>): (index: Option<nat>)
    ensures index.Some? ==> index.value < |segments| && segments[index.value].kind != User
    ensures index.None? ==> forall i :: 0 <= i < |segments| ==> segments[i].kind == User
    ensures index.Some? ==> forall i :: 0 <= i < index.value ==> segments[i].kind == User
  {
    if segments == [] then None
    else if segments[0].kind != User then Some(0)
    else match FirstNonUser(segments[1..])
      case None => None
      case Some(i) => Some(i + 1)
  }

  /** The segments left for the summary, how many were dropped, the number of requests and the reply. */
  datatype Asked = Asked(segments: seq<Segment>, dropped: nat, calls: nat, reply: Result<Reply, CompactError>)

  /** Whether an overflow may be answered by dropping one more segment. */
  predicate CanDrop(segments: seq<Segment>, dropped: nat) {
    dropped < MAX_SUMMARY_RETRIES && |segments| > 1 && FirstNonUser(segments).Some?
  }

  function Verdict(reply: Reply): Result<Reply, CompactError> {
    match reply
    case Stopped => Err(Cancelled)
    case Answer(_, _, _) => Ok(reply)
    case _ => Err(ProviderFailed)
  }

  /** Asks for a summary, dropping the oldest non-user segment after each context overflow. */
  function Ask(segments: seq<Segment>, dropped: nat, calls: nat, replies: nat -> Reply): Asked
    requires dropped <= MAX_SUMMARY_RETRIES
    decreases MAX_SUMMARY_RETRIES - dropped
  {
    if replies(calls).Overflow? && CanDrop(segments, dropped) then
      Ask(RemoveAt(segments, FirstNonUser(segments).value), dropped + 1, calls + 1, replies)
    else Asked(segments, dropped, calls + 1, Verdict(replies(calls)))
  }

  predicate HasToolEvidence(segments: seq<Segment>) {
    exists i :: 0 <= i < |segments| && CallIds(segments[i].items) != []
  }

  function SummarySegments(active: seq<Segment>, plan: Plan): seq<Segment> {
    Select(active, (set i: nat | i < |active| && i !in plan.keep) + {plan.latestUser})
  }

  /** The segment that carries a summary; its fixed preamble is counted in `weigh`. */
  function SummarySegment(text: string): Segment { Segment(Summary, [UserText(text)]) }

  function Finish(m: Manager, req: Request, plan: Plan, asked: Asked, trigger: string): Result<Manager, CompactError> {
    match asked.reply
    case Err(e) => Err(e)
    case Ok(reply) =>
      if !reply.Answer? then Err(ProviderFailed)
      else if reply.callsTool then Err(AttemptedTool)
      else if reply.text == "" then Err(EmptySummary)
      else if reply.deniesEvidence && HasToolEvidence(asked.segments) then Err(ContradictsEvidence)
      else ApplyCompaction(m, req, plan, SummarySegment(reply.text), trigger, asked.dropped)
  }

  function CompactContext(m: Manager, req: Request, trigger: string, replies: nat -> Reply)
    : Result<Manager, CompactError>
  {
    match PlanCompaction(m, req)
    case Err(e) => Err(e)
    case Ok(plan) =>
      Finish(m, req, plan, Ask(SummarySegments(m.conversation.active, plan), 0, 0, replies), trigger)
  }

  /** The provider calls one compaction makes. */
  function CompactionCalls(m: Manager, req: Request, replies: nat -> Reply): nat {
    match PlanCompaction(m, req)
    case Err(_) => 0
    case Ok(plan) => Ask(SummarySegments(m.conversation.active, plan), 0, 0, replies).calls
  }

  // ---------- The mutable manager ----------

  class ContextManager {
    var conversation: State
    const budget: Option<nat>
    var calibration: real
    var lastActual: Option<nat>
    var lastEstimated: Option<nat>
    var failures: nat
    var disabled: bool

    constructor (budget: Option<nat>)
      requires budget.Some? ==> budget.value >= MIN_CONTEXT_WINDOW
      ensures Value() == Manager(State([], [], []), budget, 1.0, None, None, 0, false) && ValidManager(Value())
    {
      conversation := State([], [], []);
      this.budget := budget;
      calibration, lastActual, lastEstimated := 1.0, None, None;
      failures, disabled := 0, false;
    }

    function Value(): Manager
      reads this
    {
      Manager(conversation, budget, calibration, lastActual, lastEstimated, failures, disabled)
    }

    method RecordResponse(actual: Option<nat>, local: nat)
      modifies this`calibration, this`lastActual, this`lastEstimated
      ensures Value() == RecordRegularResponse(old(Value()), actual, local)
      ensures ValidManager(old(Value())) ==> ValidManager(Value())
      ensures lastEstimated == Some(local) && lastActual == if actual.Some? then actual else old(lastActual)
      ensures actual.Some? && local > 0 ==>
                if actual.value <= local then calibration == 1.0
                else calibration > 1.0 && calibration * local as real == actual.value as real
      ensures actual.None? || local == 0 ==> calibration == old(calibration)
    {
      lastEstimated := Some(local);
      if actual.None? {
        return;
      }
      lastActual := actual;
      if local > 0 {
        var ratio := actual.value as real / local as real;
        calibration := if ratio > 1.0 then ratio else 1.0;
      }
    }

    method RecordFailure()
      modifies this`failures, this`disabled
      ensures Value() == RecordAutoFailure(old(Value()))
      ensures ValidManager(old(Value())) ==> ValidManager(Value())
      ensures failures == old(failures) + 1 && (disabled <==> old(disabled) || old(failures) >= 2)
    {
      failures := failures + 1;
      if failures >= MAX_AUTO_FAILURES {
        disabled := true;
      }
    }

    method RestoreTo(snapshot: Manager)
      requires snapshot.budget == budget
      modifies this
      ensures Value() == snapshot
    {
      conversation, calibration := snapshot.conversation, snapshot.calibration;
      lastActual, lastEstimated := snapshot.lastActual, snapshot.lastEstimated;
      failures, disabled := snapshot.failures, snapshot.disabled;
    }

    /** The greedy loop over the active view, newest segment first. */
    method MakePlan(req: Request) returns (result: Result<Plan, CompactError>)
      ensures result == PlanCompaction(Value(), req)
    {
      var active := conversation.active;
      var latest := LatestUserIndex(active);
      if latest.None? {
        return Err(NoUserMessage);
      }
      var before := ActiveEstimate(Value(), req);
      var target := Target(budget, before);
      var retained: set<nat> := {latest.value};
      var index: nat := |active|;
      while index > 0
        invariant index <= |active|
        invariant Retain(Value(), req, latest.value, target, {latest.value}, |active|) ==
                  Retain(Value(), req, latest.value, target, retained, index)
      {
        index := index - 1;
        if Retains(Value(), req, latest.value, target, retained, index) {
          retained := retained + {index};
        }
      }
      if KeepsAll(active, retained) {
        return Err(NothingToCompact);
      }
      return Ok(Plan(retained, latest.value, before));
    }

    /** Installs the compacted view, looks at its estimate, and puts the old view back on rejection. */
    method Install(req: Request, plan: Plan, text: string, trigger: string, dropped: nat)
      returns (result: Result<Checkpoint, CompactError>)
      modifies this
      ensures result.Ok? ==>
                ApplyCompaction(old(Value()), req, plan, SummarySegment(text), trigger, dropped) == Ok(Value())
      ensures result.Err? ==>
                ApplyCompaction(old(Value()), req, plan, SummarySegment(text), trigger, dropped) == Err(result.error)
      ensures result.Err? ==> Value() == old(Value())
    {
      var retained := Select(conversation.active, plan.keep);
      var previous := conversation.active;
      conversation := conversation.(active := [SummarySegment(text)] + retained);
      var after := ActiveEstimate(Value(), req);
      if after >= plan.before {
        conversation := conversation.(active := previous);
        return Err(NotReduced);
      }
      if budget.Some? && after >= Threshold(budget.value) {
        conversation := conversation.(active := previous);
        return Err(StillTooLarge);
      }
      var checkpoint := Checkpoint(text, trigger, plan.before, after, dropped);
      conversation := conversation.(checkpoints := conversation.checkpoints + [checkpoint]);
      failures, disabled := 0, false;
      return Ok(checkpoint);
    }

    method Compact(req: Request, trigger: string, replies: nat -> Reply)
      returns (result: Result<Checkpoint, CompactError>, calls: nat)
      modifies this
      ensures result.Ok? ==> CompactContext(old(Value()), req, trigger, replies) == Ok(Value())
      ensures result.Err? ==> CompactContext(old(Value()), req, trigger, replies) == Err(result.error)
      ensures result.Err? ==> Value() == old(Value())
      ensures calls == CompactionCalls(old(Value()), req, replies)
    {
      var planned := MakePlan(req);
      if planned.Err? {
        return Err(planned.error), 0;
      }
      var asked := AskForSummary(SummarySegments(conversation.active, planned.value), replies);
      calls := asked.calls;
      if asked.reply.Err? {
        return Err(asked.reply.error), calls;
      }
      var answer := asked.reply.value;
      if !answer.Answer? {
        return Err(ProviderFailed), calls;
      }
      if answer.callsTool {
        return Err(AttemptedTool), calls;
      }
      if answer.text == "" {
        return Err(EmptySummary), calls;
      }
      if answer.deniesEvidence && HasToolEvidence(asked.segments) {
        return Err(ContradictsEvidence), calls;
      }
      result := Install(req, planned.value, answer.text, trigger, asked.dropped);
    }
  }

  /** The retry loop: at most four requests. */
  method AskForSummary(plan: seq<Segment>, replies: nat -> Reply) returns (asked: Asked)
    ensures asked == Ask(plan, 0, 0, replies)
    ensures asked.calls == asked.dropped + 1 <= 1 + MAX_SUMMARY_RETRIES
  {
    var segments := plan;
    var dropped: nat := 0;
    while replies(dropped).Overflow?
      invariant dropped <= MAX_SUMMARY_RETRIES
      invariant Ask(plan, 0, 0, replies) == Ask(segments, dropped, dropped, replies)
      decreases MAX_SUMMARY_RETRIES - dropped
    {
      var removable := FirstNonUser(segments);
      if dropped >= MAX_SUMMARY_RETRIES || |segments| <= 1 || removable.None? {
        return Asked(segments, dropped, dropped + 1, Err(ProviderFailed));
      }
      segments := RemoveAt(segments, removable.value);
      dropped := dropped + 1;
    }
    asked := Asked(segments, dropped, dropped + 1, Verdict(replies(dropped)));
  }

  // ---------- Estimates grow with the load ----------

  lemma ScaleMonotone(a: real, b: real, c: real)
    requires a <= b && 0.0 <= c
    ensures a * c <= b * c
  {
  }

  lemma CeilingMonotone(a: real, b: real)
    requires a <= b
    ensures Ceiling(a) <= Ceiling(b)
  {
  }

  lemma LocalMonotone(req: Request, a: Load, b: Load)
    requires a.bytes <= b.bytes && a.items <= b.items
    ensures LocalEstimate(req, a) <= LocalEstimate(req, b)
  {
  }

  lemma ScaledMonotone(a: nat, b: nat, calibration: real)
    requires a <= b && calibration >= 0.0
    ensures Scaled(a, calibration) <= Scaled(b, calibration)
  {
    ScaleMonotone(a as real, b as real, calibration);
    CeilingMonotone(a as real * calibration, b as real * calibration);
  }

  lemma EstimateMonotone(req: Request, calibration: real, a: Load, b: Load)
    requires a.bytes <= b.bytes && a.items <= b.items && calibration >= 0.0
    ensures Estimate(req, calibration, a) <= Estimate(req, calibration, b)
  {
    LocalMonotone(req, a, b);
    ScaledMonotone(LocalEstimate(req, a), LocalEstimate(req, b), calibration);
  }

  lemma {:induction false} LoadOfCons(req: Request, first: Segment, rest: seq<Segment>)
    ensures LoadOf(req, [first] + rest) == Plus(req.weigh(first), LoadOf(req, rest))
    decreases |rest|
  {
    var all := [first] + rest;
    if rest == [] {
      assert all == [first] && all[..0] == [];
    } else {
      LoadOfCons(req, first, rest[..|rest| - 1]);
      assert all[..|all| - 1] == [first] + rest[..|rest| - 1];
    }
  }

  // ---------- Properties of the plan ----------

  /** The kept segments newer than number `i`, with the latest request. */
  function KeptAbove(keep: set<nat>, latest: nat, i: nat): set<nat> {
    {latest} + set j: nat | j in keep && j > i
  }

  lemma {:induction false} RetainStays(m: Manager, req: Request, latest: nat, target: int, chosen: set<nat>, n: nat)
    requires n <= |m.conversation.active|
    ensures var keep := Retain(m, req, latest, target, chosen, n);
            && chosen <= keep
            && forall i: nat :: i in keep && i !in chosen ==> i < n && m.conversation.active[i].kind == Model
    decreases n
  {
    if n > 0 {
      var next := if Retains(m, req, latest, target, chosen, n - 1) then chosen + {n - 1} else chosen;
      RetainStays(m, req, latest, target, next, n - 1);
    }
  }

  lemma {:induction false} RetainIsGreedy(m: Manager, req: Request, latest: nat, target: int, chosen: set<nat>, n: nat,
                                          i: nat)
    requires i < n <= |m.conversation.active| && latest in chosen && i != latest
    requires forall j: nat :: j in chosen ==> j == latest || j >= n
    ensures var keep := Retain(m, req, latest, target, chosen, n);
            i in keep <==> Retains(m, req, latest, target, KeptAbove(keep, latest, i), i)
    decreases n
  {
    var kept := Retains(m, req, latest, target, chosen, n - 1);
    var next := if kept then chosen + {n - 1} else chosen;
    var keep := Retain(m, req, latest, target, chosen, n);
    if i == n - 1 {
      RetainStays(m, req, latest, target, next, n - 1);
      assert KeptAbove(keep, latest, i) == chosen;
    } else {
      RetainIsGreedy(m, req, latest, target, next, n - 1, i);
    }
  }

  /** A plan keeps the latest request and otherwise only model segments, so a compaction step of the
      conversation is enabled. Going from the newest segment to the oldest, a model segment is kept
      exactly when the view with it and everything kept so far still meets the target. */
  lemma PlanIsGreedy(m: Manager, req: Request, i: nat)
    requires PlanCompaction(m, req).Ok?
    ensures var plan := PlanCompaction(m, req).value;
            && KeepablePlan(m.conversation.active, plan.keep)
            && LatestUserIndex(m.conversation.active) == Some(plan.latestUser)
            && plan.before == ActiveEstimate(m, req)
            && (i < |m.conversation.active| && i != plan.latestUser && m.conversation.active[i].kind == Model ==>
                  (i in plan.keep <==>
                   CandidateEstimate(m, req, KeptAbove(plan.keep, plan.latestUser, i) + {i}) <= PlanTarget(m, req)))
  {
    var plan := PlanCompaction(m, req).value;
    var latest, n := plan.latestUser, |m.conversation.active|;
    RetainStays(m, req, latest, PlanTarget(m, req), {latest}, n);
    if i < n && i != latest {
      RetainIsGreedy(m, req, latest, PlanTarget(m, req), {latest}, n, i);
    }
  }

  /** If any segment was retained by the loop, the retained set as a whole meets the target. */
  lemma {:induction false} RetainMeetsTarget(m: Manager, req: Request, latest: nat, target: int, chosen: set<nat>,
                                             n: nat)
    requires n <= |m.conversation.active|
    ensures var keep := Retain(m, req, latest, target, chosen, n);
            keep == chosen || CandidateEstimate(m, req, keep) <= target
    decreases n
  {
    if n > 0 {
      var next := if Retains(m, req, latest, target, chosen, n - 1) then chosen + {n - 1} else chosen;
      RetainMeetsTarget(m, req, latest, target, next, n - 1);
    }
  }

  // ---------- What the summary request sees ----------

  function Users(segments: seq<Segment>): seq<Segment> {
    if segments == [] then []
    else (if segments[0].kind == User then [segments[0]] else []) + Users(segments[1..])
  }

  /** The oldest `k` segments that are not user messages are missing. */
  function WithoutOldest(segments: seq<Segment>, k: nat): seq<Segment> {
    if segments == [] || k == 0 then segments
    else if segments[0].kind == User then [segments[0]] + WithoutOldest(segments[1..], k)
    else WithoutOldest(segments[1..], k - 1)
  }

  lemma RemoveAtTail(segments: seq<Segment>, i: nat)
    requires i < |segments|
    ensures i == 0 ==> RemoveAt(segments, i) == segments[1..]
    ensures i > 0 ==> RemoveAt(segments, i) == [segments[0]] + RemoveAt(segments[1..], i - 1)
  {
    if i > 0 {
      assert segments[1..][..i - 1] == segments[1..i] && segments[1..][i..] == segments[i + 1..];
      assert segments[..i] == [segments[0]] + segments[1..i];
    }
  }

  lemma {:induction false} DropFirstNonUser(segments: seq<Segment>, k: nat)
    requires FirstNonUser(segments).Some?
    ensures WithoutOldest(RemoveAt(segments, FirstNonUser(segments).value), k) == WithoutOldest(segments, k + 1)
  {
    var i := FirstNonUser(segments).value;
    var rest := RemoveAt(segments, i);
    RemoveAtTail(segments, i);
    if segments[0].kind == User {
      DropFirstNonUser(segments[1..], k);
      assert rest[0] == segments[0] && rest[1..] == RemoveAt(segments[1..], i - 1);
    }
  }

  lemma {:induction false} AskDropsOldest(segments: seq<Segment>, dropped: nat, calls: nat, replies: nat -> Reply)
    requires dropped <= MAX_SUMMARY_RETRIES
    ensures var asked := Ask(segments, dropped, calls, replies);
            && dropped <= asked.dropped <= MAX_SUMMARY_RETRIES
            && asked.segments == WithoutOldest(segments, asked.dropped - dropped)
    decreases MAX_SUMMARY_RETRIES - dropped
  {
    hide RemoveAt, FirstNonUser, Verdict;
    if replies(calls).Overflow? && CanDrop(segments, dropped) {
      var rest := RemoveAt(segments, FirstNonUser(segments).value);
      AskDropsOldest(rest, dropped + 1, calls + 1, replies);
      DropFirstNonUser(segments, Ask(segments, dropped, calls, replies).dropped - dropped - 1);
    }
  }

  lemma {:induction false} AskCounts(segments: seq<Segment>, dropped: nat, calls: nat, replies: nat -> Reply)
    requires dropped <= MAX_SUMMARY_RETRIES
    ensures calls < Ask(segments, dropped, calls, replies).calls <= calls + MAX_SUMMARY_RETRIES - dropped + 1
    decreases MAX_SUMMARY_RETRIES - dropped
  {
    if replies(calls).Overflow? && CanDrop(segments, dropped) {
      AskCounts(RemoveAt(segments, FirstNonUser(segments).value), dropped + 1, calls + 1, replies);
    }
  }

  lemma {:induction false} DroppingKeepsUsers(segments: seq<Segment>, k: nat)
    ensures Users(WithoutOldest(segments, k)) == Users(segments)
    decreases |segments|
  {
    if segments != [] && k > 0 {
      if segments[0].kind == User {
        DroppingKeepsUsers(segments[1..], k);
        assert WithoutOldest(segments, k)[1..] == WithoutOldest(segments[1..], k);
      } else {
        DroppingKeepsUsers(segments[1..], k - 1);
      }
    }
  }

  lemma AskOnce(segments: seq<Segment>, dropped: nat, calls: nat, replies: nat -> Reply)
    requires dropped <= MAX_SUMMARY_RETRIES
    ensures Ask(segments, dropped, calls, replies) ==
            if replies(calls).Overflow? && CanDrop(segments, dropped)
            then Ask(RemoveAt(segments, FirstNonUser(segments).value), dropped + 1, calls + 1, replies)
            else Asked(segments, dropped, calls + 1, Verdict(replies(calls)))
  {
  }

  lemma RemovalCounts(segments: seq<Segment>, i: nat, x: Segment)
    requires i < |segments|
    ensures var rest := RemoveAt(segments, i);
            && |rest| == |segments| - 1
            && multiset(segments)[x] == multiset(rest)[x] + if segments[i] == x then 1 else 0
  {
    assert segments == segments[..i] + [segments[i]] + segments[i + 1..];
  }

  lemma {:induction false} AskKeepsUser(segments: seq<Segment>, dropped: nat, calls: nat, replies: nat -> Reply,
                                        x: Segment)
    requires dropped <= MAX_SUMMARY_RETRIES && x.kind == User
    ensures multiset(Ask(segments, dropped, calls, replies).segments)[x] == multiset(segments)[x]
    decreases MAX_SUMMARY_RETRIES - dropped
  {
    hide FirstNonUser, RemoveAt, Ask;
    AskOnce(segments, dropped, calls, replies);
    if replies(calls).Overflow? && CanDrop(segments, dropped) {
      var i := FirstNonUser(segments).value;
      RemovalCounts(segments, i, x);
      AskKeepsUser(RemoveAt(segments, i), dropped + 1, calls + 1, replies, x);
    }
  }

  /** When the request for a summary is repeated: after every context overflow while fewer than three
      segments were dropped, more than one is left and one of them is not a user message, and after nothing
      else; the last reply decides. */
  lemma {:induction false} AskStopsIff(segments: seq<Segment>, dropped: nat, calls: nat, replies: nat -> Reply)
    requires dropped <= MAX_SUMMARY_RETRIES
    ensures var asked := Ask(segments, dropped, calls, replies);
            && calls < asked.calls
            && asked.calls - calls - 1 == asked.dropped - dropped == |segments| - |asked.segments|
            && (forall i: nat :: calls <= i < asked.calls - 1 ==> replies(i).Overflow?)
            && var last := replies(asked.calls - 1);
               && (last.Overflow? ==>
                     || asked.dropped == 3 || |asked.segments| <= 1
                     || forall i :: 0 <= i < |asked.segments| ==> asked.segments[i].kind == User)
               && (last.Answer? ==> asked.reply == Ok(last))
               && (last.Stopped? ==> asked.reply == Err(Cancelled))
               && (last.Overflow? || last.Broken? ==> asked.reply == Err(ProviderFailed))
    decreases MAX_SUMMARY_RETRIES - dropped
  {
    hide FirstNonUser, RemoveAt, Ask;
    AskOnce(segments, dropped, calls, replies);
    if replies(calls).Overflow? && CanDrop(segments, dropped) {
      var rest := RemoveAt(segments, FirstNonUser(segments).value);
      RemovalCounts(segments, FirstNonUser(segments).value, segments[0]);
      AskStopsIff(rest, dropped + 1, calls + 1, replies);
    }
  }

  /** When a planned compaction succeeds: the last reply is a text that calls no tool and does not deny tool
      evidence that was asked about, and the view with it is smaller than before and below the threshold.
      Then the view is the summary with that text and the planned segments, and a new checkpoint notes it. */
  lemma CompactionSucceedsIff(m: Manager, req: Request, trigger: string, replies: nat -> Reply)
    requires PlanCompaction(m, req).Ok?
    ensures var plan := PlanCompaction(m, req).value;
            var asked := Ask(SummarySegments(m.conversation.active, plan), 0, 0, replies);
            var result := CompactContext(m, req, trigger, replies);
            var reply := replies(asked.calls - 1);
            var evidence := exists x :: x in asked.segments && CallIds(x.items) != [];
            && 0 < asked.calls
            && (!reply.Answer? ==> result == Err(if reply.Stopped? then Cancelled else ProviderFailed))
            && (reply.Answer? ==>
                  var summary := Segment(Summary, [UserText(reply.text)]);
                  var after := AfterEstimate(m, req, plan, summary);
                  && (result == Err(AttemptedTool) <==> reply.callsTool)
                  && (result == Err(EmptySummary) <==> !reply.callsTool && reply.text == "")
                  && (result == Err(ContradictsEvidence) <==>
                        !reply.callsTool && reply.text != "" && reply.deniesEvidence && evidence)
                  && (result.Ok? <==>
                        && !reply.callsTool && reply.text != "" && !(reply.deniesEvidence && evidence)
                        && after < ActiveEstimate(m, req)
                        && (m.budget.Some? ==> after < Threshold(m.budget.value)))
                  && (result.Ok? ==>
                        && result.value.conversation.active == [summary] + Select(m.conversation.active, plan.keep)
                        && result.value.conversation.checkpoints == m.conversation.checkpoints +
                             [Checkpoint(reply.text, trigger, ActiveEstimate(m, req), after, asked.dropped)]))
  {
    hide PlanCompaction, Ask, AfterEstimate, Threshold, Select, SummarySegments;
    PlanIsGreedy(m, req, 0);
    var plan := PlanCompaction(m, req).value;
    AskStopsIff(SummarySegments(m.conversation.active, plan), 0, 0, replies);
    EvidenceIff(Ask(SummarySegments(m.conversation.active, plan), 0, 0, replies).segments);
  }

  lemma EvidenceIff(segments: seq<Segment>)
    ensures HasToolEvidence(segments) <==> exists x :: x in segments && CallIds(x.items) != []
  {
    if x :| x in segments && CallIds(x.items) != [] {
      var i :| 0 <= i < |segments| && segments[i] == x;
    }
  }

  /** Overflow retries drop only the oldest segments that are not user messages, at most three of
      them, so every user message still reaches the summary. */
  lemma SummaryKeepsUserMessages(segments: seq<Segment>, replies: nat -> Reply)
    ensures var asked := Ask(segments, 0, 0, replies);
            && asked.dropped <= MAX_SUMMARY_RETRIES
            && asked.segments == WithoutOldest(segments, asked.dropped)
            && Users(asked.segments) == Users(segments)
            && forall x :: x in segments && x.kind == User ==> multiset(asked.segments)[x] == multiset(segments)[x]
  {
    forall x | x in segments && x.kind == User
      ensures multiset(Ask(segments, 0, 0, replies).segments)[x] == multiset(segments)[x]
    {
      AskKeepsUser(segments, 0, 0, replies, x);
    }
    AskDropsOldest(segments, 0, 0, replies);
    DroppingKeepsUsers(segments, Ask(segments, 0, 0, replies).dropped);
  }

  /** How often `x` is there, counted without the last segment. */
  lemma CountLast(segments: seq<Segment>, x: Segment)
    requires segments != []
    ensures multiset(segments)[x] ==
            multiset(segments[..|segments| - 1])[x] + if segments[|segments| - 1] == x then 1 else 0
  {
    assert segments == segments[..|segments| - 1] + [segments[|segments| - 1]];
  }

  lemma SelectLast(segments: seq<Segment>, keep: set<nat>, x: Segment)
    requires segments != []
    ensures var last := |segments| - 1;
            multiset(Select(segments, keep))[x] ==
            multiset(Select(segments[..last], keep))[x] + if last in keep && segments[last] == x then 1 else 0
  {
    var last := |segments| - 1;
    if last in keep {
      CountLast(Select(segments, keep), x);
      assert Select(segments, keep)[..|Select(segments, keep)| - 1] == Select(segments[..last], keep);
    } else {
      assert Select(segments, keep) == Select(segments[..last], keep);
    }
  }

  lemma {:induction false} SelectSplits(segments: seq<Segment>, keep: set<nat>, other: set<nat>, both: nat, x: Segment)
    requires forall i: nat :: i < |segments| ==> (i in other <==> i !in keep || i == both)
    requires both in keep
    ensures multiset(Select(segments, keep))[x] + multiset(Select(segments, other))[x] ==
            multiset(segments)[x] + if both < |segments| && segments[both] == x then 1 else 0
  {
    if segments == [] {
      assert Select(segments, keep) == Select(segments, other) == [];
    } else {
      hide Select;
      SelectSplits(segments[..|segments| - 1], keep, other, both, x);
      SelectLast(segments, keep, x);
      SelectLast(segments, other, x);
      CountLast(segments, x);
    }
  }

  lemma {:induction false} SelectCount(segments: seq<Segment>, keep: set<nat>, i: nat)
    requires i < |segments| && i in keep
    ensures segments[i] in Select(segments, keep)
  {
    var last := |segments| - 1;
    if i < last { SelectCount(segments[..last], keep, i); }
  }

  /** The summary is asked of exactly the segments the plan drops, together with the latest request: they
      come in order, each dropped segment is among them, and every segment is kept or asked about as often
      as it is in the view, the latest request once more. */
  lemma SummaryIsAskedOfDropped(m: Manager, req: Request, i: nat, x: Segment)
    requires PlanCompaction(m, req).Ok?
    ensures var active, plan := m.conversation.active, PlanCompaction(m, req).value;
            var asked := SummarySegments(active, plan);
            && plan.latestUser < |active|
            && Subsequence(asked, active)
            && active[plan.latestUser] in asked
            && (i < |active| && i !in plan.keep ==> active[i] in asked)
            && multiset(asked)[x] + multiset(Select(active, plan.keep))[x] ==
               multiset(active)[x] + if x == active[plan.latestUser] then 1 else 0
  {
    hide PlanCompaction, Select, Subsequence, Retain;
    PlanIsGreedy(m, req, 0);
    AskedOfDropped(m.conversation.active, PlanCompaction(m, req).value, i, x);
  }

  lemma AskedOfDropped(active: seq<Segment>, plan: Plan, i: nat, x: Segment)
    requires plan.latestUser < |active| && plan.latestUser in plan.keep
    ensures var asked := SummarySegments(active, plan);
            && Subsequence(asked, active)
            && active[plan.latestUser] in asked
            && (i < |active| && i !in plan.keep ==> active[i] in asked)
            && multiset(asked)[x] + multiset(Select(active, plan.keep))[x] ==
               multiset(active)[x] + if x == active[plan.latestUser] then 1 else 0
  {
    hide Select, Subsequence;
    var indices := (set j: nat | j < |active| && j !in plan.keep) + {plan.latestUser};
    SelectIsSubsequence(active, indices);
    SelectSplits(active, plan.keep, indices, plan.latestUser, x);
    SelectCount(active, indices, plan.latestUser);
    if i < |active| && i !in plan.keep { SelectCount(active, indices, i); }
  }

  /** One compaction makes at most four provider calls. */
  lemma CompactionCallsBounded(m: Manager, req: Request, replies: nat -> Reply)
    ensures CompactionCalls(m, req, replies) <= 1 + MAX_SUMMARY_RETRIES
  {
    if PlanCompaction(m, req).Ok? {
      AskCounts(SummarySegments(m.conversation.active, PlanCompaction(m, req).value), 0, 0, replies);
    }
  }

  /** Compaction either leaves the whole manager alone or replaces the active view by the summary and
      the planned segments; the transcript stays. */
  lemma CompactionIsAtomic(m: Manager, req: Request, trigger: string, replies: nat -> Reply)
    ensures match CompactContext(m, req, trigger, replies)
            case Err(_) => true
            case Ok(after) => PlanCompaction(m, req).Ok? && Compacted(m, req, PlanCompaction(m, req).value, after)
  {
    if CompactContext(m, req, trigger, replies).Ok? {
      var plan := PlanCompaction(m, req).value;
      PlanIsGreedy(m, req, 0);
      var after := CompactContext(m, req, trigger, replies).value.conversation;
      if WellFormed(m.conversation) {
        CompactionKeepsWellFormed(m.conversation, plan.keep, after.active[0],
                                  after.checkpoints[|after.checkpoints| - 1]);
      }
    }
  }

  /** What a compaction with this plan has changed. */
  ghost predicate Compacted(m: Manager, req: Request, plan: Plan, after: Manager) {
    && after.conversation.transcript == m.conversation.transcript
    && |after.conversation.active| == 1 + |Select(m.conversation.active, plan.keep)|
    && after.conversation.active[0].kind == Summary
    && after.conversation.active[1..] == Select(m.conversation.active, plan.keep)
    && ActiveEstimate(after, req) < ActiveEstimate(m, req)
    && (m.budget.Some? ==> ActiveEstimate(after, req) < Threshold(m.budget.value))
    && (WellFormed(m.conversation) ==> WellFormed(after.conversation))
    && (ValidManager(m) ==> ValidManager(after))
  }

  // ---------- When compaction is tried ----------

  function Failing(m: Manager, times: nat): Manager {
    if times == 0 then m else RecordAutoFailure(Failing(m, times - 1))
  }

  /** A compaction that succeeds switches the automatic one on again, and it stays on through two failures
      in a row and goes off with the third; failures change nothing else. */
  lemma {:induction false} ThreeFailuresSwitchOff(m: Manager, req: Request, trigger: string, replies: nat -> Reply,
                                                  times: nat)
    requires CompactContext(m, req, trigger, replies).Ok?
    ensures var done := CompactContext(m, req, trigger, replies).value;
            Failing(done, times) == done.(failures := times, disabled := times >= 3)
  {
    var done := CompactContext(m, req, trigger, replies).value;
    assert done.failures == 0 && !done.disabled;
    if times > 0 {
      hide CompactContext;
      ThreeFailuresSwitchOff(m, req, trigger, replies, times - 1);
    }
  }

  /** Automatic compaction is due exactly if it is on, the view has reached the threshold of a known window,
      and the view holds a request and something besides the latest one. */
  lemma CompactionIsDueIff(m: Manager, req: Request)
    ensures ShouldAutoCompact(m, req) <==>
            && m.budget.Some? && !m.disabled
            && ActiveEstimate(m, req) >= Threshold(m.budget.value)
            && exists i, j :: 0 <= i < |m.conversation.active| && 0 <= j < |m.conversation.active| && i != j
                              && m.conversation.active[i].kind == User
                              && (m.conversation.active[j].kind == User ==> j < i)
  {
    hide ActiveEstimate, Threshold;
    var active := m.conversation.active;
    if LatestUserIndex(active).Some? && |active| > 1 {
      var i := LatestUserIndex(active).value;
      var j := if i == 0 then 1 else 0;
      LatestUserIsLast(active, i);
      assert active[i].kind == User && active[j] == active[j];
    }
  }

  lemma {:induction false} LatestUserIsLast(segments: seq<Segment>, i: nat)
    requires LatestUserIndex(segments) == Some(i)
    ensures forall j :: i < j < |segments| ==> segments[j].kind != User
  {
    if segments[|segments| - 1].kind != User {
      LatestUserIsLast(segments[..|segments| - 1], i);
    }
  }

  // ---------- Automatic compaction fits ----------

  /** The target lies strictly below the threshold exactly when the window is larger than the minimum. */
  lemma TargetBelowThresholdIff(window: nat, before: int)
    requires window >= MIN_CONTEXT_WINDOW
    ensures Target(Some(window), before) <= Threshold(window)
    ensures Target(Some(window), before) < Threshold(window) <==> window > MIN_CONTEXT_WINDOW
  {
  }

  /** The threshold is the largest that leaves a tenth of the window and room for a summary, and the target
      half of it, or of the present estimate without a budget, but never less than the room for a summary. */
  lemma BudgetShares(budget: Option<nat>, before: int)
    requires budget.Some? ==> budget.value >= MIN_CONTEXT_WINDOW
    ensures budget.Some? ==>
              var window, most := budget.value, Threshold(budget.value);
              && 10 * most <= 9 * window && most <= window - 8_192
              && (10 * (most + 1) > 9 * window || most == window - 8_192)
    ensures var whole, target := if budget.Some? then Threshold(budget.value) else before, Target(budget, before);
            && target >= 8_192 && 2 * target + 2 > whole
            && (target > 8_192 ==> 2 * target <= whole)
  {
  }

  lemma SummaryWithinPlaceholder(m: Manager, req: Request, plan: Plan, summary: Segment)
    requires m.calibration >= 0.0
    requires req.weigh(summary).bytes <= PLACEHOLDER.bytes && req.weigh(summary).items <= PLACEHOLDER.items
    ensures AfterEstimate(m, req, plan, summary) <= CandidateEstimate(m, req, plan.keep)
  {
    var kept := Select(m.conversation.active, plan.keep);
    LoadOfCons(req, summary, kept);
    EstimateMonotone(req, m.calibration, LoadOf(req, [summary] + kept), Plus(PLACEHOLDER, LoadOf(req, kept)));
  }

  /** When automatic compaction was triggered in a window above the minimum, kept at least one model
      segment, and got a summary no larger than the placeholder, the new estimate meets the target,
      so neither rejection can happen. */
  lemma AutomaticCompactionFits(m: Manager, req: Request, summary: Segment, trigger: string, dropped: nat)
    requires ValidManager(m) && ShouldAutoCompact(m, req) && m.budget.value > MIN_CONTEXT_WINDOW
    requires PlanCompaction(m, req).Ok?
    requires PlanCompaction(m, req).value.keep != {PlanCompaction(m, req).value.latestUser}
    requires req.weigh(summary).bytes <= PLACEHOLDER.bytes && req.weigh(summary).items <= PLACEHOLDER.items
    ensures var plan := PlanCompaction(m, req).value;
            var after := AfterEstimate(m, req, plan, summary);
            && after <= PlanTarget(m, req) < Threshold(m.budget.value) <= plan.before
            && ApplyCompaction(m, req, plan, summary, trigger, dropped).Ok?
  {
    var plan := PlanCompaction(m, req).value;
    RetainMeetsTarget(m, req, plan.latestUser, PlanTarget(m, req), {plan.latestUser}, |m.conversation.active|);
    SummaryWithinPlaceholder(m, req, plan, summary);
    TargetBelowThresholdIff(m.budget.value, plan.before);
  }

  // ---------- The smallest window ----------

  lemma LoadOfThree(req: Request, a: Segment, b: Segment, c: Segment)
    ensures LoadOf(req, [a, b]) == Plus(req.weigh(a), req.weigh(b))
    ensures LoadOf(req, [a, b, c]) == Plus(Plus(req.weigh(a), req.weigh(b)), req.weigh(c))
  {
    assert [a, b, c][..2] == [a, b] && [a, b][..1] == [a] && [a][..0] == [];
    assert LoadOf(req, [a]) == req.weigh(a);
  }

  lemma SelectLastTwo(a: Segment, b: Segment, c: Segment)
    ensures Select([a, b, c], {1, 2}) == [b, c]
  {
    assert [a, b, c][..2] == [a, b] && [a, b][..1] == [a] && [a][..0] == [];
    assert Select([a], {1, 2}) == [];
    assert Select([a, b], {1, 2}) == [b];
  }

  lemma UnscaledEstimate(req: Request, load: Load)
    ensures Estimate(req, 1.0, load) == LocalEstimate(req, load)
  {
    assert LocalEstimate(req, load) as real * 1.0 == LocalEstimate(req, load) as real;
  }

  /** At the smallest window target and threshold coincide. Under the other conditions the new view
      still meets the target, and it is rejected exactly if it meets it with no token to spare. */
  lemma SmallestWindowRejectsIff(m: Manager, req: Request, summary: Segment, trigger: string, dropped: nat)
    requires ValidManager(m) && ShouldAutoCompact(m, req) && m.budget.value == MIN_CONTEXT_WINDOW
    requires PlanCompaction(m, req).Ok?
    requires PlanCompaction(m, req).value.keep != {PlanCompaction(m, req).value.latestUser}
    requires req.weigh(summary).bytes <= PLACEHOLDER.bytes && req.weigh(summary).items <= PLACEHOLDER.items
    ensures var plan := PlanCompaction(m, req).value;
            && AfterEstimate(m, req, plan, summary) <= 8_192
            && (ApplyCompaction(m, req, plan, summary, trigger, dropped).Err? <==>
                AfterEstimate(m, req, plan, summary) == 8_192)
  {
    var plan := PlanCompaction(m, req).value;
    RetainMeetsTarget(m, req, plan.latestUser, PlanTarget(m, req), {plan.latestUser}, |m.conversation.active|);
    SummaryWithinPlaceholder(m, req, plan, summary);
  }

  /** 2279 bytes when encoded in a message frame of 90. */
  const LONG_REPLY: string := seq(2_189, i => 'x')

  /** A conversation compacted once before. 9000 bytes of instructions and schemas for 15 tools, the
      largest summary, a user message of 62 bytes and a model round of 2279 make exactly 8192 tokens. */
  predicate Tight(m: Manager, req: Request, summary: Segment, user: Segment, model: Segment) {
    && summary.kind == Summary && user == UserSegment("and now the second part, please")
    && model == Segment(Model, [Message([LONG_REPLY])])
    && m == Manager(State([UserSegment("begin"), model, user, model], [summary, user, model],
                          [Checkpoint("", "auto", 8_192, 8_000, 0)]),
                    Some(MIN_CONTEXT_WINDOW), 1.0, None, None, 0, false)
    && req.fixedBytes == 9_000 && req.context.None? && req.tools == 15
    && req.weigh(summary) == PLACEHOLDER && req.weigh(user) == Load(62, 1) && req.weigh(model) == Load(2_279, 1)
  }

  lemma MessageIsPaired(text: string)
    ensures Paired([Message([text])])
  {
    var items := [Message([text])];
    assert items[..1] == items && items[..0] == [];
    assert CallIds(items[1..]) == [] && OutputIds(items[1..]) == [];
    assert CallIds(items) == [] && OutputIds(items) == [];
    assert PairedAt(items, 1);
  }

  lemma CompactedOnceIsWellFormed(earlier: Segment, summary: Segment, user: Segment, model: Segment,
                                  checkpoints: seq<Checkpoint>)
    requires summary.kind == Summary && earlier.kind == User && user.kind == User && model.kind == Model
    ensures WellFormed(State([earlier, model, user, model], [summary, user, model], checkpoints))
  {
    hide Subsequence;
    var transcript, active := [earlier, model, user, model], [summary, user, model];
    assert transcript == [earlier, model] + [user, model];
    assert WithoutSummary(active) == [] + [user, model];
    EmptyIsSubsequence([earlier, model]);
    SubsequenceExtend([], [earlier, model], [user, model]);
    LatestUserConcat([earlier, model], [user, model]);
    assert [user] + [model] == [user, model] && [] + [user] == [user];
    LatestUserAppend([user], model);
    LatestUserAppend([], user);
  }

  lemma EmptyIsSubsequence(b: seq<Segment>)
    ensures Subsequence([], b)
  {
  }

  lemma TightIsGood(m: Manager, req: Request, summary: Segment, user: Segment, model: Segment)
    requires Tight(m, req, summary, user, model)
    ensures Good(m.conversation)
  {
    hide WellFormed, Paired;
    MessageIsPaired(LONG_REPLY);
    CompactedOnceIsWellFormed(UserSegment("begin"), summary, user, model, m.conversation.checkpoints);
  }

  lemma TightEstimates(m: Manager, req: Request, summary: Segment, user: Segment, model: Segment)
    requires Tight(m, req, summary, user, model)
    ensures ActiveEstimate(m, req) == 8_192
    ensures CandidateEstimate(m, req, {1, 2}) == 8_192
    ensures AfterEstimate(m, req, Plan({1, 2}, 1, 8_192), summary) == 8_192
  {
    LoadOfThree(req, summary, user, model);
    LoadOfThree(req, user, model, model);
    SelectLastTwo(summary, user, model);
    LoadOfCons(req, summary, [user, model]);
    UnscaledEstimate(req, Load(14_660, 3));
  }

  lemma TightPlan(m: Manager, req: Request, summary: Segment, user: Segment, model: Segment)
    requires Tight(m, req, summary, user, model)
    ensures LatestUserIndex(m.conversation.active) == Some(1)
    ensures PlanCompaction(m, req) == Ok(Plan({1, 2}, 1, 8_192))
  {
    TightEstimates(m, req, summary, user, model);
    assert {1} + {2} == {1, 2};
    assert LatestUserIndex(m.conversation.active) == Some(1) by {
      assert m.conversation.active[..2][1] == user;
    }
    assert Retain(m, req, 1, 8_192, {1}, 3) == Retain(m, req, 1, 8_192, {1, 2}, 2);
    assert Retain(m, req, 1, 8_192, {1, 2}, 2) == Retain(m, req, 1, 8_192, {1, 2}, 1);
    assert Retain(m, req, 1, 8_192, {1, 2}, 1) == {1, 2};
    assert !KeepsAll(m.conversation.active, {1, 2}) by { assert 0 !in {1, 2}; }
  }

  /** Such a rejection happens to a well-formed conversation: compaction was due, kept a model round
      and got a summary within the placeholder. */
  lemma SmallestWindowCanReject(m: Manager, req: Request, summary: Segment, user: Segment, model: Segment,
                                trigger: string)
    requires Tight(m, req, summary, user, model)
    ensures Good(m.conversation)
    ensures ValidManager(m) && ShouldAutoCompact(m, req) && m.budget == Some(MIN_CONTEXT_WINDOW)
    ensures PlanCompaction(m, req).Ok?
    ensures PlanCompaction(m, req).value.keep != {PlanCompaction(m, req).value.latestUser}
    ensures ApplyCompaction(m, req, PlanCompaction(m, req).value, summary, trigger, 0).Err?
  {
    TightIsGood(m, req, summary, user, model);
    TightEstimates(m, req, summary, user, model);
    TightPlan(m, req, summary, user, model);
    assert 2 in {1, 2} && 2 !in {1};
  }
}
