/** One turn of the agent: model and tools in a bounded loop with recoveries, budgets and a stall
    latch, and the conversation it leaves behind on every way out. */
module TurnLoop {
  import opened Basics
  import opened Conversation
  import opened TurnTools
  import C = Compaction

  const MAX_PROVIDER_ATTEMPTS: nat := 3
  const MAX_EMPTY_RESPONSES: nat := 2
  const MAX_OUTPUT_LIMIT_RECOVERIES: nat := 2

  datatype Config = Config(
    maxSteps: nat,
    maxToolCalls: nat,
    maxRecoveries: nat,
    maxIdentical: nat,
    safe: string -> bool,
    texts: SkipTexts,
    rollbackOnCancel: bool)

  /** How the turn classifies a provider error, and whether it is cancelled in the pause before a retry. */
  datatype Failure = Failure(retryable: bool, overflow: bool, outputLimit: bool, protocol: bool, cancelledInPause: bool)

  datatype Parsed = Readable | Unreadable(protocol: bool)

  /** `text` is empty when the visible text is blank; `items` are the round's items as committed. */
  datatype Response =
    | Answer(items: seq<Item>, text: string, actual: Option<nat>, parsed: Parsed)
    | Failed(failure: Failure)
    | CancelledReply

  /** Everything the outside decides during one step. */
  datatype StepInput = StepInput(
    elapsed: bool,
    cancelledAtStart: bool,
    request: C.Request,
    autoReplies: nat -> C.Reply,
    responses: nat -> Response,
    localEstimate: nat,
    cancelledAfterResponse: bool,
    recoveryReplies: nat -> C.Reply,
    recoveryProtocol: bool,
    todoInProgress: bool,
    cancelledAtCall: nat -> bool,
    args: nat -> string,
    results: nat -> string,
    cancelledAfter: nat -> bool,
    freshPlan: Option<string>)

  datatype Action = Action(name: string, args: string, result: string)

  datatype Reason = ElapsedTime | StepLimit | RecoveryLimit | Stalled | EmptyResponses

  datatype TurnAnswer = Text(text: string) | Incomplete(reason: Reason)

  datatype TurnError = Boundary | Cancelled | Protocol | Other

  /** The last action seen, how often it was repeated, and the stall latch. */
  datatype Repeats = Repeats(last: Option<Action>, count: nat, stalled: bool)

  const NO_REPEATS := Repeats(None, 0, false)

  /** The locals of a running turn, with the provider calls made, the tools invoked and the actions
      finished so far. */
  datatype Turn = Turn(
    manager: C.Manager,
    empty: nat,
    reconciled: bool,
    executed: nat,
    reactive: bool,
    recoveries: nat,
    limitRecoveries: nat,
    repeats: Repeats,
    calls: nat,
    invoked: seq<string>,
    actions: seq<Action>)

  datatype Flow =
    | Continue(turn: Turn)
    | Finished(turn: Turn, answer: TurnAnswer)
    | Raised(turn: Turn, error: TurnError)

  // ---------- Parts of a step ----------

  function Say(turn: Turn, items: seq<Item>): Turn {
    turn.(manager := turn.manager.(conversation := AppendModelRound(turn.manager.conversation, items)))
  }

  /** The message committed when a limit ends the turn. */
  function Notice(reason: Reason): seq<Item> {
    [Message([match reason
              case ElapsedTime => "elapsed"
              case StepLimit => "steps"
              case RecoveryLimit => "recoveries"
              case Stalled => "stalled"
              case EmptyResponses => "empty"])]
  }

  function StopIncomplete(turn: Turn, reason: Reason): Flow {
    Finished(Say(turn, Notice(reason)), Incomplete(reason))
  }

  function Recover(turn: Turn, config: Config): Flow {
    var next := turn.(recoveries := turn.recoveries + 1);
    if next.recoveries > config.maxRecoveries then Raised(next, Boundary) else Continue(next)
  }

  function AutoCompact(turn: Turn, input: StepInput): Flow {
    if !C.ShouldAutoCompact(turn.manager, input.request) then Continue(turn)
    else
      var next := turn.(calls := turn.calls + C.CompactionCalls(turn.manager, input.request, input.autoReplies));
      match C.CompactContext(turn.manager, input.request, "auto", input.autoReplies)
      case Ok(m) => Continue(next.(manager := m))
      case Err(e) =>
        if e.Cancelled? then Raised(next, Cancelled)
        else Continue(next.(manager := C.RecordAutoFailure(turn.manager)))
  }

  datatype Reached = Reached(response: Response, attempts: nat)

  /** Up to three attempts; a retryable error pauses, and the pause may be cancelled. */
  function Request(responses: nat -> Response, made: nat): (r: Reached)
    requires made < MAX_PROVIDER_ATTEMPTS
    ensures made < r.attempts <= MAX_PROVIDER_ATTEMPTS
    decreases MAX_PROVIDER_ATTEMPTS - made
  {
    var response := responses(made);
    if !response.Failed? || !response.failure.retryable || made + 1 >= MAX_PROVIDER_ATTEMPTS then
      Reached(response, made + 1)
    else if response.failure.cancelledInPause then Reached(CancelledReply, made + 1)
    else Request(responses, made + 1)
  }

  predicate HasCompactableHistory(m: C.Manager) {
    LatestUserIndex(m.conversation.active).Some? && |m.conversation.active| > 1
  }

  function OnFailure(turn: Turn, input: StepInput, config: Config, failure: Failure): Flow {
    if failure.overflow && !turn.reactive && HasCompactableHistory(turn.manager) then
      var next := turn.(calls := turn.calls + C.CompactionCalls(turn.manager, input.request, input.recoveryReplies),
                        reactive := true);
      match C.CompactContext(turn.manager, input.request, "recovery", input.recoveryReplies)
      case Ok(m) => Recover(next.(manager := m), config)
      case Err(e) =>
        Raised(next, if e.Cancelled? then Cancelled else if input.recoveryProtocol then Protocol else Other)
    else if failure.outputLimit && turn.limitRecoveries < MAX_OUTPUT_LIMIT_RECOVERIES then
      Recover(turn.(limitRecoveries := turn.limitRecoveries + 1), config)
    else Raised(turn, if failure.protocol then Protocol else Other)
  }

  function OnText(turn: Turn, input: StepInput, config: Config, items: seq<Item>, text: string): Flow {
    var said := Say(turn, items);
    if text != "" then
      if input.todoInProgress && !turn.reconciled then Continue(said.(reconciled := true))
      else Finished(said, Text(text))
    else if turn.empty + 1 >= MAX_EMPTY_RESPONSES then
      StopIncomplete(said.(empty := turn.empty + 1), EmptyResponses)
    else Recover(said.(empty := turn.empty + 1), config)
  }

  function OnStalledCalls(turn: Turn, config: Config, items: seq<Item>, calls: seq<ToolCall>): Flow {
    var skipped := seq(|calls|, i requires 0 <= i < |calls| => config.texts.stalled);
    StopIncomplete(Say(turn, items + OutputItems(calls, skipped)), Stalled)
  }

  function ActionsOf(calls: seq<ToolCall>, args: nat -> string, outputs: seq<string>): seq<Action>
    requires |calls| == |outputs|
  {
    seq(|calls|, i requires 0 <= i < |calls| => Action(calls[i].name, args(i), outputs[i]))
  }

  /** Looks at the finished actions in order and sets the latch after enough equal ones in a row. */
  function Observe(repeats: Repeats, actions: seq<Action>, maxIdentical: nat): Repeats {
    if actions == [] then repeats
    else
      var before := Observe(repeats, actions[..|actions| - 1], maxIdentical);
      var action := actions[|actions| - 1];
      var count := if before.last == Some(action) then before.count + 1 else 1;
      Repeats(Some(action), count, before.stalled || count >= maxIdentical)
  }

  predicate CancelledWhileCounting(calls: seq<ToolCall>, cancelledAtCall: nat -> bool) {
    exists i: nat :: i < |calls| && cancelledAtCall(i)
  }

  function OnCalls(turn: Turn, input: StepInput, config: Config, items: seq<Item>, calls: seq<ToolCall>): Flow {
    if CancelledWhileCounting(calls, input.cancelledAtCall) then Raised(turn, Cancelled)
    else
      var round := RunTools(calls, turn.executed, config.maxToolCalls, config.safe, input.cancelledAfter,
                            input.results, config.texts);
      var said := Say(turn, items + OutputItems(calls, round.outputs))
                  .(empty := 0, executed := round.executed, invoked := turn.invoked + round.invoked);
      if round.cancelled then Raised(said, Cancelled)
      else
        var actions := ActionsOf(calls, input.args, round.outputs);
        var next := said.(repeats := Observe(turn.repeats, actions, config.maxIdentical),
                          actions := turn.actions + actions);
        if input.freshPlan.None? then Continue(next)
        else
          var renewed := ResetActiveToUser(next.manager.conversation, input.freshPlan.value);
          Continue(next.(manager := next.manager.(conversation := renewed)))
  }

  function OnAnswer(turn: Turn, input: StepInput, config: Config, response: Response): Flow
    requires response.Answer?
  {
    var heard := turn.(manager := C.RecordRegularResponse(turn.manager, response.actual, input.localEstimate));
    if response.parsed.Unreadable? then Raised(heard, if response.parsed.protocol then Protocol else Other)
    else
      var calls := CallsOf(response.items);
      if heard.repeats.stalled && calls != [] then OnStalledCalls(heard, config, response.items, calls)
      else if calls == [] then OnText(heard, input, config, response.items, response.text)
      else OnCalls(heard, input, config, response.items, calls)
  }

  function Converse(turn: Turn, input: StepInput, config: Config): Flow {
    var reached := Request(input.responses, 0);
    var next := turn.(calls := turn.calls + reached.attempts);
    if reached.response.CancelledReply? then Raised(next, Cancelled)
    else if reached.response.Failed? then OnFailure(next, input, config, reached.response.failure)
    else if input.cancelledAfterResponse then Raised(next, Cancelled)
    else OnAnswer(next, input, config, reached.response)
  }

  function StepOnce(turn: Turn, input: StepInput, config: Config): Flow {
    if input.elapsed then StopIncomplete(turn, ElapsedTime)
    else if input.cancelledAtStart then Raised(turn, Cancelled)
    else match AutoCompact(turn, input)
      case Continue(next) => Converse(next, input, config)
      case other => other
  }

  // ---------- A whole turn ----------

  /** The steps from number `k` on. */
  function Loop(turn: Turn, inputs: nat -> StepInput, config: Config, k: nat): Flow
    decreases config.maxSteps - k
  {
    if k >= config.maxSteps then StopIncomplete(turn, StepLimit)
    else match StepOnce(turn, inputs(k), config)
      case Continue(next) => Loop(next, inputs, config, k + 1)
      case other => other
  }

  function Start(m: C.Manager): Turn {
    Turn(m, 0, false, 0, false, 0, 0, NO_REPEATS, 0, [], [])
  }

  datatype Outcome = Returned(answer: TurnAnswer) | Interrupted | ProtocolFailed | TurnFailed

  datatype Ended = Ended(manager: C.Manager, outcome: Outcome, calls: nat, invoked: seq<string>)

  function WithProjection(m: C.Manager, snapshot: C.Manager): C.Manager {
    m.(conversation := RestoreProjection(m.conversation, snapshot.conversation))
  }

  /** The handlers around the loop: a recovery boundary is an ordinary answer, cancellation and errors
      restore the view of the snapshot but keep the completed rounds. */
  function Close(flow: Flow, snapshot: C.Manager, config: Config): Ended
    requires !flow.Continue?
  {
    var turn := flow.turn;
    match flow
    case Finished(_, answer) => Ended(turn.manager, Returned(answer), turn.calls, turn.invoked)
    case Raised(_, error) =>
      match error
      case Boundary =>
        Ended(Say(turn, Notice(RecoveryLimit)).manager, Returned(Incomplete(RecoveryLimit)), turn.calls, turn.invoked)
      case Cancelled =>
        Ended(if config.rollbackOnCancel then snapshot else WithProjection(turn.manager, snapshot),
              Interrupted, turn.calls, turn.invoked)
      case Protocol => Ended(WithProjection(turn.manager, snapshot), ProtocolFailed, turn.calls, turn.invoked)
      case Other => Ended(WithProjection(turn.manager, snapshot), TurnFailed, turn.calls, turn.invoked)
  }

  function TurnOnce(m: C.Manager, inputs: nat -> StepInput, config: Config): Ended {
    LoopEnds(Start(m), inputs, config, 0);
    Close(Loop(Start(m), inputs, config, 0), m, config)
  }

  lemma {:induction false} LoopEnds(turn: Turn, inputs: nat -> StepInput, config: Config, k: nat)
    ensures !Loop(turn, inputs, config, k).Continue?
    decreases config.maxSteps - k
  {
    hide StepOnce;
    if k < config.maxSteps && StepOnce(turn, inputs(k), config).Continue? {
      LoopEnds(StepOnce(turn, inputs(k), config).turn, inputs, config, k + 1);
    }
  }

  /** A turn that fails with a protocol error is run once more on what it left; the pause before that
      may be cancelled. */
  function RunTurn(m: C.Manager, attempts: nat -> (nat -> StepInput), pauseCancelled: bool, config: Config): Ended {
    var first := TurnOnce(m, attempts(0), config);
    if !first.outcome.ProtocolFailed? then first
    else if pauseCancelled then first.(outcome := Interrupted)
    else
      var second := TurnOnce(first.manager, attempts(1), config);
      second.(calls := first.calls + second.calls, invoked := first.invoked + second.invoked)
  }

  // ---------- Bounds ----------

  /** What one part of a step may add: `extra` provider calls, four more if it turns to recovery, and
      only tools that were counted. */
  predicate Bounded(before: Turn, after: Turn, extra: nat, config: Config) {
    && before.calls <= after.calls
    && (before.reactive ==> after.reactive)
    && after.calls <= before.calls + extra +
                      (if after.reactive && !before.reactive then 1 + C.MAX_SUMMARY_RETRIES else 0)
    && (WorkCount(before.invoked) <= before.executed <= config.maxToolCalls ==>
          WorkCount(after.invoked) <= after.executed <= config.maxToolCalls)
    && (before.repeats.stalled ==> after.invoked == before.invoked && after.repeats.stalled)
  }

  lemma AutoCompactBounded(turn: Turn, input: StepInput, config: Config)
    ensures Bounded(turn, AutoCompact(turn, input).turn, 1 + C.MAX_SUMMARY_RETRIES, config)
  {
    hide C.CompactContext, C.CompactionCalls, C.ShouldAutoCompact, C.RecordAutoFailure, WorkCount;
    C.CompactionCallsBounded(turn.manager, input.request, input.autoReplies);
  }

  lemma FailureBounded(turn: Turn, input: StepInput, config: Config, failure: Failure)
    ensures Bounded(turn, OnFailure(turn, input, config, failure).turn, 0, config)
  {
    hide C.CompactContext, C.CompactionCalls, HasCompactableHistory, WorkCount;
    C.CompactionCallsBounded(turn.manager, input.request, input.recoveryReplies);
  }

  lemma CallsBounded(turn: Turn, input: StepInput, config: Config, items: seq<Item>, calls: seq<ToolCall>)
    requires calls == CallsOf(items) && !turn.repeats.stalled
    ensures Bounded(turn, OnCalls(turn, input, config, items, calls).turn, 0, config)
  {
    hide RunTools, Observe, OutputItems, AppendModelRound, ResetActiveToUser, CallsOf, WorkCount;
    if turn.executed <= config.maxToolCalls {
      RoundStaysWithinBudget(calls, turn.executed, config.maxToolCalls, config.safe, input.cancelledAfter,
                             input.results, config.texts);
      var round := RunTools(calls, turn.executed, config.maxToolCalls, config.safe, input.cancelledAfter,
                            input.results, config.texts);
      WorkCountConcat(turn.invoked, round.invoked);
    }
  }

  lemma AnswerBounded(turn: Turn, input: StepInput, config: Config, response: Response)
    requires response.Answer?
    ensures Bounded(turn, OnAnswer(turn, input, config, response).turn, 0, config)
  {
    hide C.RecordRegularResponse, OnCalls, CallsOf, OutputItems, AppendModelRound, WorkCount;
    var heard := turn.(manager := C.RecordRegularResponse(turn.manager, response.actual, input.localEstimate));
    if response.parsed.Readable? && CallsOf(response.items) != [] && !turn.repeats.stalled {
      CallsBounded(heard, input, config, response.items, CallsOf(response.items));
    }
  }

  lemma BoundedChain(a: Turn, b: Turn, c: Turn, x: nat, y: nat, config: Config)
    requires Bounded(a, b, x, config) && Bounded(b, c, y, config)
    ensures Bounded(a, c, x + y, config)
  {
  }

  lemma CallsCounted(turn: Turn, attempts: nat, config: Config)
    requires attempts <= MAX_PROVIDER_ATTEMPTS
    ensures Bounded(turn, turn.(calls := turn.calls + attempts), MAX_PROVIDER_ATTEMPTS, config)
  {
  }

  lemma ConverseBounded(turn: Turn, input: StepInput, config: Config)
    ensures Bounded(turn, Converse(turn, input, config).turn, MAX_PROVIDER_ATTEMPTS, config)
  {
    hide Bounded, OnFailure, OnAnswer, Request;
    var reached := Request(input.responses, 0);
    var next := turn.(calls := turn.calls + reached.attempts);
    var flow := Converse(turn, input, config);
    CallsCounted(turn, reached.attempts, config);
    if reached.response.Failed? {
      FailureBounded(next, input, config, reached.response.failure);
      BoundedChain(turn, next, flow.turn, MAX_PROVIDER_ATTEMPTS, 0, config);
    } else if reached.response.Answer? && !input.cancelledAfterResponse {
      AnswerBounded(next, input, config, reached.response);
      BoundedChain(turn, next, flow.turn, MAX_PROVIDER_ATTEMPTS, 0, config);
    }
  }

  /** A step adds at most four calls for a compaction and three for the request. */
  const STEP_CALLS: nat := 1 + C.MAX_SUMMARY_RETRIES + MAX_PROVIDER_ATTEMPTS

  lemma StepBounded(turn: Turn, input: StepInput, config: Config)
    ensures Bounded(turn, StepOnce(turn, input, config).turn, STEP_CALLS, config)
  {
    AutoCompactBounded(turn, input, config);
    var flow := AutoCompact(turn, input);
    if !input.elapsed && !input.cancelledAtStart && flow.Continue? {
      ConverseBounded(flow.turn, input, config);
      BoundedChain(turn, flow.turn, Converse(flow.turn, input, config).turn, 1 + C.MAX_SUMMARY_RETRIES,
                   MAX_PROVIDER_ATTEMPTS, config);
    }
  }

  lemma {:induction false} LoopBounded(turn: Turn, inputs: nat -> StepInput, config: Config, k: nat)
    requires k <= config.maxSteps
    ensures Bounded(turn, Loop(turn, inputs, config, k).turn, 7 * (config.maxSteps - k), config)
    decreases config.maxSteps - k
  {
    if k < config.maxSteps {
      hide StepOnce, Bounded;
      StepBounded(turn, inputs(k), config);
      var flow := StepOnce(turn, inputs(k), config);
      if flow.Continue? {
        LoopBounded(flow.turn, inputs, config, k + 1);
        BoundedChain(turn, flow.turn, Loop(turn, inputs, config, k).turn, 7, 7 * (config.maxSteps - k - 1), config);
      } else {
        MoreRoom(turn, flow.turn, 7, 7 * (config.maxSteps - k), config);
      }
    }
  }

  lemma MoreRoom(a: Turn, b: Turn, x: nat, y: nat, config: Config)
    requires Bounded(a, b, x, config) && x <= y
    ensures Bounded(a, b, y, config)
  {
  }

  /** One attempt at a turn makes at most seven provider calls a step and four for the one recovery,
      and invokes at most `maxToolCalls` tools that count. */
  lemma TurnOnceBounded(m: C.Manager, inputs: nat -> StepInput, config: Config)
    ensures TurnOnce(m, inputs, config).calls <= 7 * config.maxSteps + 4
    ensures WorkCount(TurnOnce(m, inputs, config).invoked) <= config.maxToolCalls
  {
    LoopEnds(Start(m), inputs, config, 0);
    LoopBounded(Start(m), inputs, config, 0);
  }

  /** A whole turn makes at most twice as many. */
  lemma RunTurnBounded(m: C.Manager, attempts: nat -> (nat -> StepInput), pauseCancelled: bool, config: Config)
    ensures RunTurn(m, attempts, pauseCancelled, config).calls <= 2 * (7 * config.maxSteps + 4)
    ensures WorkCount(RunTurn(m, attempts, pauseCancelled, config).invoked) <= 2 * config.maxToolCalls
    ensures var first, turn := TurnOnce(m, attempts(0), config), RunTurn(m, attempts, pauseCancelled, config);
            var second := TurnOnce(first.manager, attempts(1), config);
            var again := first.outcome.ProtocolFailed? && !pauseCancelled;
            && turn.calls == first.calls + (if again then second.calls else 0)
            && turn.invoked == first.invoked + (if again then second.invoked else [])
            && turn.manager == (if again then second.manager else first.manager)
            && (turn.outcome.ProtocolFailed? <==> again && second.outcome.ProtocolFailed?)
            && (!first.outcome.ProtocolFailed? ==> turn.outcome == first.outcome)
            && (first.outcome.ProtocolFailed? && pauseCancelled ==> turn.outcome == Interrupted)
  {
    var first := TurnOnce(m, attempts(0), config);
    TurnOnceBounded(m, attempts(0), config);
    TurnOnceBounded(first.manager, attempts(1), config);
    WorkCountConcat(first.invoked, TurnOnce(first.manager, attempts(1), config).invoked);
  }

  /** Once the stall latch is set no tool is invoked for the rest of the attempt. */
  lemma NoToolAfterStall(turn: Turn, inputs: nat -> StepInput, config: Config, k: nat)
    requires turn.repeats.stalled && k <= config.maxSteps
    ensures Loop(turn, inputs, config, k).turn.invoked == turn.invoked
  {
    LoopBounded(turn, inputs, config, k);
  }

  // ---------- The stall latch ----------

  /** Actions `from` to `from + n` are all the same. */
  predicate RunAt(actions: seq<Action>, from: nat, n: nat) {
    from + n <= |actions| && forall i :: from <= i < from + n ==> actions[i] == actions[from]
  }

  ghost predicate HasRun(actions: seq<Action>, n: nat) { exists from: nat :: RunAt(actions, from, n) }

  lemma RunAtPrefix(actions: seq<Action>, k: nat, from: nat, n: nat)
    requires k <= |actions| && from + n <= k
    ensures RunAt(actions[..k], from, n) <==> RunAt(actions, from, n)
  {
    if n > 0 { assert actions[..k][from] == actions[from]; }
    forall i | from <= i < from + n ensures actions[..k][i] == actions[i] {}
  }

  /** The counter is the length of the run at the end. */
  lemma {:induction false} CountIsLastRun(actions: seq<Action>, maxIdentical: nat)
    requires actions != []
    ensures var r := Observe(NO_REPEATS, actions, maxIdentical);
            && r.last == Some(actions[|actions| - 1])
            && 1 <= r.count <= |actions|
            && RunAt(actions, |actions| - r.count, r.count)
            && (r.count < |actions| ==> actions[|actions| - r.count - 1] != actions[|actions| - 1])
  {
    var n := |actions| - 1;
    if n > 0 {
      CountIsLastRun(actions[..n], maxIdentical);
      var before := Observe(NO_REPEATS, actions[..n], maxIdentical);
      RunAtPrefix(actions, n, n - before.count, before.count);
      assert actions[n - before.count] == actions[n - 1];
    }
  }

  lemma {:induction false} LastRunIsCounted(actions: seq<Action>, n: nat, maxIdentical: nat)
    requires 0 < n <= |actions| && RunAt(actions, |actions| - n, n)
    ensures Observe(NO_REPEATS, actions, maxIdentical).count >= n
    decreases n
  {
    if n > 1 {
      var k := |actions| - 1;
      RunAtPrefix(actions, k, k - (n - 1), n - 1);
      LastRunIsCounted(actions[..k], n - 1, maxIdentical);
      CountIsLastRun(actions[..k], maxIdentical);
      assert actions[k] == actions[k - 1];
    }
  }

  /** Over the actions of a turn in order the latch is set if and only if some action was repeated,
      with the same arguments and the same result, `maxIdentical` times in a row. */
  lemma {:induction false} StallLatchIff(actions: seq<Action>, maxIdentical: nat)
    requires maxIdentical > 0
    ensures Observe(NO_REPEATS, actions, maxIdentical).stalled <==> HasRun(actions, maxIdentical)
  {
    if actions != [] {
      var n := |actions| - 1;
      var r := Observe(NO_REPEATS, actions, maxIdentical);
      StallLatchIff(actions[..n], maxIdentical);
      CountIsLastRun(actions, maxIdentical);
      if r.count >= maxIdentical {
        assert RunAt(actions, |actions| - maxIdentical, maxIdentical);
      }
      if from: nat :| RunAt(actions[..n], from, maxIdentical) {
        RunAtPrefix(actions, n, from, maxIdentical);
      }
      if from: nat :| RunAt(actions, from, maxIdentical) {
        if from + maxIdentical <= n {
          RunAtPrefix(actions, n, from, maxIdentical);
        } else {
          LastRunIsCounted(actions, maxIdentical, maxIdentical);
        }
      }
    }
  }

  /** The latch carries over from round to round. */
  lemma {:induction false} ObserveInTwoRounds(repeats: Repeats, a: seq<Action>, b: seq<Action>, maxIdentical: nat)
    ensures Observe(repeats, a + b, maxIdentical) == Observe(Observe(repeats, a, maxIdentical), b, maxIdentical)
    decreases |b|
  {
    if b == [] {
      assert a + b == a;
    } else {
      assert (a + b)[..|a + b| - 1] == a + b[..|b| - 1];
      ObserveInTwoRounds(repeats, a, b[..|b| - 1], maxIdentical);
    }
  }

  /** The counter and the latch of a turn are those of all its actions so far. */
  predicate Tracked(turn: Turn, maxIdentical: nat) {
    turn.repeats == Observe(NO_REPEATS, turn.actions, maxIdentical)
  }

  lemma AnswerKeepsTracked(turn: Turn, input: StepInput, config: Config, response: Response)
    requires response.Answer? && Tracked(turn, config.maxIdentical)
    ensures Tracked(OnAnswer(turn, input, config, response).turn, config.maxIdentical)
    ensures var flow := OnAnswer(turn, input, config, response);
            flow.Finished? && flow.answer == Incomplete(Stalled) ==> flow.turn.repeats.stalled
  {
    hide Observe, CallsOf, Normalize;
    var calls := CallsOf(response.items);
    var round := RunTools(calls, turn.executed, config.maxToolCalls, config.safe, input.cancelledAfter,
                          input.results, config.texts);
    ObserveInTwoRounds(NO_REPEATS, turn.actions, ActionsOf(calls, input.args, round.outputs), config.maxIdentical);
  }

  lemma ConverseKeepsTracked(turn: Turn, input: StepInput, config: Config)
    requires Tracked(turn, config.maxIdentical)
    ensures Tracked(Converse(turn, input, config).turn, config.maxIdentical)
    ensures var flow := Converse(turn, input, config);
            flow.Finished? && flow.answer == Incomplete(Stalled) ==> flow.turn.repeats.stalled
  {
    hide Observe, OnAnswer, C.CompactContext;
    var reached := Request(input.responses, 0);
    if reached.response.Answer? {
      AnswerKeepsTracked(turn.(calls := turn.calls + reached.attempts), input, config, reached.response);
    }
  }

  lemma StepKeepsTracked(turn: Turn, input: StepInput, config: Config)
    requires Tracked(turn, config.maxIdentical)
    ensures Tracked(StepOnce(turn, input, config).turn, config.maxIdentical)
    ensures var flow := StepOnce(turn, input, config);
            flow.Finished? && flow.answer == Incomplete(Stalled) ==> flow.turn.repeats.stalled
  {
    hide Observe, Converse, Normalize, C.CompactContext;
    if AutoCompact(turn, input).Continue? {
      ConverseKeepsTracked(AutoCompact(turn, input).turn, input, config);
    }
  }

  lemma {:induction false} LoopKeepsTracked(turn: Turn, inputs: nat -> StepInput, config: Config, k: nat)
    requires Tracked(turn, config.maxIdentical)
    ensures Tracked(Loop(turn, inputs, config, k).turn, config.maxIdentical)
    ensures var flow := Loop(turn, inputs, config, k);
            flow.Finished? && flow.answer == Incomplete(Stalled) ==> flow.turn.repeats.stalled
    decreases config.maxSteps - k
  {
    hide StepOnce;
    if k < config.maxSteps {
      StepKeepsTracked(turn, inputs(k), config);
      var flow := StepOnce(turn, inputs(k), config);
      if flow.Continue? {
        LoopKeepsTracked(flow.turn, inputs, config, k + 1);
      }
    }
  }

  /** However a turn ends, its latch is set if and only if `maxIdentical` of the actions it took in a row
      were the same, over all its rounds and recoveries; only such a turn ends as stalled. */
  lemma TurnStallsIff(m: C.Manager, inputs: nat -> StepInput, config: Config)
    requires config.maxIdentical > 0
    ensures var flow := Loop(Start(m), inputs, config, 0);
            && (flow.turn.repeats.stalled <==> HasRun(flow.turn.actions, config.maxIdentical))
            && (flow.Finished? && flow.answer == Incomplete(Stalled) ==>
                  HasRun(flow.turn.actions, config.maxIdentical))
  {
    LoopKeepsTracked(Start(m), inputs, config, 0);
    StallLatchIff(Loop(Start(m), inputs, config, 0).turn.actions, config.maxIdentical);
  }

  // ---------- The answer ----------

  predicate LastRoundIs(m: C.Manager, items: seq<Item>) {
    var transcript := m.conversation.transcript;
    transcript != [] && transcript[|transcript| - 1] == Segment(Model, Normalize(items))
  }

  /** The last committed round says what the turn returned: for a limit its notice, for a text the
      round of a response with that text and no calls. */
  ghost predicate AnswerIsLastRound(m: C.Manager, answer: TurnAnswer, inputs: nat -> StepInput) {
    match answer
    case Incomplete(reason) => LastRoundIs(m, Notice(reason))
    case Text(text) =>
      text != "" && exists k: nat, attempt: nat :: AnsweredBy(m, text, inputs(k).responses(attempt))
  }

  predicate AnsweredBy(m: C.Manager, text: string, response: Response) {
    response.Answer? && response.text == text && CallsOf(response.items) == [] && LastRoundIs(m, response.items)
  }

  lemma NoticeIsLast(turn: Turn, reason: Reason, inputs: nat -> StepInput)
    ensures AnswerIsLastRound(Say(turn, Notice(reason)).manager, Incomplete(reason), inputs)
  {
  }

  lemma AnswerStepIsLast(turn: Turn, input: StepInput, config: Config, response: Response)
    requires response.Answer? && OnAnswer(turn, input, config, response).Finished?
    ensures var flow := OnAnswer(turn, input, config, response);
            match flow.answer
            case Incomplete(reason) => LastRoundIs(flow.turn.manager, Notice(reason))
            case Text(text) => text != "" && AnsweredBy(flow.turn.manager, text, response)
  {
    hide RunTools, Observe, CallsOf, Normalize;
  }

  lemma {:induction false} ReachedBy(responses: nat -> Response, made: nat) returns (attempt: nat)
    requires made < MAX_PROVIDER_ATTEMPTS && Request(responses, made).response.Answer?
    ensures attempt < MAX_PROVIDER_ATTEMPTS && Request(responses, made).response == responses(attempt)
    decreases MAX_PROVIDER_ATTEMPTS - made
  {
    if Request(responses, made).attempts > made + 1 {
      attempt := ReachedBy(responses, made + 1);
    } else {
      attempt := made;
    }
  }

  lemma StepAnswerIsLast(turn: Turn, inputs: nat -> StepInput, config: Config, k: nat)
    requires StepOnce(turn, inputs(k), config).Finished?
    ensures var flow := StepOnce(turn, inputs(k), config); AnswerIsLastRound(flow.turn.manager, flow.answer, inputs)
  {
    hide OnAnswer, LastRoundIs, C.CompactContext;
    var flow := StepOnce(turn, inputs(k), config);
    if inputs(k).elapsed {
      NoticeIsLast(turn, ElapsedTime, inputs);
    } else {
      var next := AutoCompact(turn, inputs(k)).turn;
      var reached := Request(inputs(k).responses, 0);
      var response := reached.response;
      AnswerStepIsLast(next.(calls := next.calls + reached.attempts), inputs(k), config, response);
      var attempt := ReachedBy(inputs(k).responses, 0);
      assert flow.answer.Text? ==> AnsweredBy(flow.turn.manager, flow.answer.text, inputs(k).responses(attempt));
    }
  }

  lemma {:induction false} LoopAnswerIsLast(turn: Turn, inputs: nat -> StepInput, config: Config, k: nat)
    requires Loop(turn, inputs, config, k).Finished?
    ensures var flow := Loop(turn, inputs, config, k); AnswerIsLastRound(flow.turn.manager, flow.answer, inputs)
    decreases config.maxSteps - k
  {
    hide StepOnce, AnswerIsLastRound, Say;
    if k >= config.maxSteps {
      NoticeIsLast(turn, StepLimit, inputs);
    } else {
      var flow := StepOnce(turn, inputs(k), config);
      if flow.Continue? {
        LoopAnswerIsLast(flow.turn, inputs, config, k + 1);
      } else {
        StepAnswerIsLast(turn, inputs, config, k);
      }
    }
  }

  /** What an attempt returns is what its conversation ends in. */
  lemma ReturnedAnswerIsCommitted(m: C.Manager, inputs: nat -> StepInput, config: Config)
    ensures var ended := TurnOnce(m, inputs, config);
            ended.outcome.Returned? ==> AnswerIsLastRound(ended.manager, ended.outcome.answer, inputs)
  {
    LoopEnds(Start(m), inputs, config, 0);
    var flow := Loop(Start(m), inputs, config, 0);
    if flow.Finished? {
      LoopAnswerIsLast(Start(m), inputs, config, 0);
    } else if flow.error == Boundary {
      NoticeIsLast(flow.turn, RecoveryLimit, inputs);
    }
  }

  // ---------- The conversation ----------

  /** Model responses hold no tool outputs. */
  predicate OwnOutputsOnly(input: StepInput) {
    forall attempt: nat :: attempt < MAX_PROVIDER_ATTEMPTS && input.responses(attempt).Answer? ==>
                             OutputIds(input.responses(attempt).items) == []
  }

  /** Both views agree, every round is paired, and `first` is a prefix of the transcript. */
  ghost predicate Sound(m: C.Manager, first: C.Manager) {
    Good(m.conversation) && first.conversation.transcript <= m.conversation.transcript
  }

  lemma SayKeepsSound(turn: Turn, first: C.Manager, items: seq<Item>)
    requires Sound(turn.manager, first) && Paired(items)
    ensures Sound(Say(turn, items).manager, first)
  {
    NormalizeKeepsPaired(items);
    AppendKeepsWellFormed(turn.manager.conversation, Segment(Model, Normalize(items)));
  }

  lemma ResetKeepsSound(m: C.Manager, first: C.Manager, text: string)
    requires Sound(m, first)
    ensures Sound(m.(conversation := ResetActiveToUser(m.conversation, text)), first)
  {
    ResetKeepsWellFormed(m.conversation, text);
  }

  lemma ProjectionKeepsSound(m: C.Manager, first: C.Manager)
    requires Sound(m, first) && Good(first.conversation)
    ensures Sound(WithProjection(m, first), first)
  {
    ProjectionKeepsWellFormed(m.conversation, first.conversation);
  }

  lemma PlainRoundIsPaired(items: seq<Item>)
    requires OutputIds(items) == [] && CallsOf(items) == []
    ensures Paired(items)
  {
    CallItemIds(items);
    assert items[..|items|] == items && items[|items|..] == [];
    assert PairedAt(items, |items|);
  }

  lemma NoticeIsPaired(reason: Reason)
    ensures Paired(Notice(reason))
  {
    assert Notice(reason)[..0] == [];
    PlainRoundIsPaired(Notice(reason));
  }

  lemma CompactKeepsSound(m: C.Manager, first: C.Manager, req: C.Request, trigger: string, replies: nat -> C.Reply)
    requires Sound(m, first)
    ensures var r := C.CompactContext(m, req, trigger, replies); r.Ok? ==> Sound(r.value, first)
  {
    if C.CompactContext(m, req, trigger, replies).Ok? {
      C.CompactionIsAtomic(m, req, trigger, replies);
    }
  }

  lemma StopKeepsSound(turn: Turn, first: C.Manager, reason: Reason)
    requires Sound(turn.manager, first)
    ensures Sound(StopIncomplete(turn, reason).turn.manager, first)
  {
    hide Good;
    NoticeIsPaired(reason);
    SayKeepsSound(turn, first, Notice(reason));
  }

  lemma TextKeepsSound(turn: Turn, first: C.Manager, input: StepInput, config: Config, items: seq<Item>, text: string)
    requires Sound(turn.manager, first) && OutputIds(items) == [] && CallsOf(items) == []
    ensures Sound(OnText(turn, input, config, items, text).turn.manager, first)
  {
    hide Good;
    PlainRoundIsPaired(items);
    SayKeepsSound(turn, first, items);
    StopKeepsSound(Say(turn, items).(empty := turn.empty + 1), first, EmptyResponses);
  }

  lemma RoundKeepsSound(turn: Turn, first: C.Manager, items: seq<Item>, outputs: seq<string>)
    requires Sound(turn.manager, first) && OutputIds(items) == [] && |outputs| == |CallsOf(items)|
    ensures Sound(Say(turn, items + OutputItems(CallsOf(items), outputs)).manager, first)
  {
    hide Good;
    RoundIsPaired(items, outputs);
    SayKeepsSound(turn, first, items + OutputItems(CallsOf(items), outputs));
  }

  lemma CallsKeepSound(turn: Turn, first: C.Manager, input: StepInput, config: Config, items: seq<Item>)
    requires Sound(turn.manager, first) && OutputIds(items) == []
    ensures Sound(OnCalls(turn, input, config, items, CallsOf(items)).turn.manager, first)
    ensures Sound(OnStalledCalls(turn, config, items, CallsOf(items)).turn.manager, first)
  {
    hide Good;
    var calls := CallsOf(items);
    var skipped := seq(|calls|, i requires 0 <= i < |calls| => config.texts.stalled);
    RoundKeepsSound(turn, first, items, skipped);
    StopKeepsSound(Say(turn, items + OutputItems(calls, skipped)), first, Stalled);
    var round := RunTools(calls, turn.executed, config.maxToolCalls, config.safe, input.cancelledAfter,
                          input.results, config.texts);
    RoundKeepsSound(turn, first, items, round.outputs);
    if input.freshPlan.Some? {
      ResetKeepsSound(Say(turn, items + OutputItems(calls, round.outputs)).manager, first, input.freshPlan.value);
    }
  }

  lemma FailureKeepsSound(turn: Turn, first: C.Manager, input: StepInput, config: Config, failure: Failure)
    requires Sound(turn.manager, first)
    ensures Sound(OnFailure(turn, input, config, failure).turn.manager, first)
  {
    hide Good, C.CompactContext;
    CompactKeepsSound(turn.manager, first, input.request, "recovery", input.recoveryReplies);
  }

  lemma AnswerKeepsSound(turn: Turn, first: C.Manager, input: StepInput, config: Config, response: Response)
    requires Sound(turn.manager, first) && response.Answer? && OutputIds(response.items) == []
    ensures Sound(OnAnswer(turn, input, config, response).turn.manager, first)
  {
    hide Good, OnText, OnCalls, OnStalledCalls;
    var heard := turn.(manager := C.RecordRegularResponse(turn.manager, response.actual, input.localEstimate));
    CallsKeepSound(heard, first, input, config, response.items);
    if CallsOf(response.items) == [] {
      TextKeepsSound(heard, first, input, config, response.items, response.text);
    }
  }

  lemma ConverseKeepsSound(turn: Turn, first: C.Manager, input: StepInput, config: Config)
    requires Sound(turn.manager, first) && OwnOutputsOnly(input)
    ensures Sound(Converse(turn, input, config).turn.manager, first)
  {
    hide Sound, OnAnswer, OnFailure;
    var reached := Request(input.responses, 0);
    var next := turn.(calls := turn.calls + reached.attempts);
    if reached.response.Failed? {
      FailureKeepsSound(next, first, input, config, reached.response.failure);
    } else if reached.response.Answer? {
      var attempt := ReachedBy(input.responses, 0);
      AnswerKeepsSound(next, first, input, config, reached.response);
    }
  }

  lemma StepKeepsSound(turn: Turn, first: C.Manager, input: StepInput, config: Config)
    requires Sound(turn.manager, first) && OwnOutputsOnly(input)
    ensures Sound(StepOnce(turn, input, config).turn.manager, first)
  {
    hide Good;
    StopKeepsSound(turn, first, ElapsedTime);
    CompactKeepsSound(turn.manager, first, input.request, "auto", input.autoReplies);
    if AutoCompact(turn, input).Continue? {
      ConverseKeepsSound(AutoCompact(turn, input).turn, first, input, config);
    }
  }

  lemma {:induction false} LoopKeepsSound(turn: Turn, first: C.Manager, inputs: nat -> StepInput, config: Config,
                                          k: nat)
    requires Sound(turn.manager, first) && forall i :: OwnOutputsOnly(inputs(i))
    ensures Sound(Loop(turn, inputs, config, k).turn.manager, first)
    decreases config.maxSteps - k
  {
    hide Sound, StepOnce;
    StopKeepsSound(turn, first, StepLimit);
    if k < config.maxSteps {
      StepKeepsSound(turn, first, inputs(k), config);
      var flow := StepOnce(turn, inputs(k), config);
      if flow.Continue? {
        LoopKeepsSound(flow.turn, first, inputs, config, k + 1);
      }
    }
  }

  lemma CloseKeepsSound(flow: Flow, first: C.Manager, config: Config)
    requires !flow.Continue? && Sound(flow.turn.manager, first) && Good(first.conversation)
    ensures Sound(Close(flow, first, config).manager, first)
  {
    hide Good;
    NoticeIsPaired(RecoveryLimit);
    SayKeepsSound(flow.turn, first, Notice(RecoveryLimit));
    ProjectionKeepsSound(flow.turn.manager, first);
  }

  /** Whatever way a turn ends, by an answer, a limit, the stall latch, cancellation with or without
      rollback, a protocol failure or any other error, the conversation keeps its invariant: no round
      in view holds a call without its own output, and the earlier transcript is still there. */
  lemma TurnKeepsConversation(m: C.Manager, attempts: nat -> (nat -> StepInput), pauseCancelled: bool, config: Config)
    requires Good(m.conversation) && forall a, i :: OwnOutputsOnly(attempts(a)(i))
    ensures Sound(RunTurn(m, attempts, pauseCancelled, config).manager, m)
    ensures AllPaired(WithoutSummary(RunTurn(m, attempts, pauseCancelled, config).manager.conversation.active))
  {
    TurnOnceKeepsSound(m, attempts(0), config);
    var first := TurnOnce(m, attempts(0), config);
    TurnOnceKeepsSound(first.manager, attempts(1), config);
    var s := RunTurn(m, attempts, pauseCancelled, config).manager.conversation;
    forall i | 0 <= i < |WithoutSummary(s.active)| && WithoutSummary(s.active)[i].kind == Model
      ensures Paired(WithoutSummary(s.active)[i].items)
    {
      SubsequenceMember(WithoutSummary(s.active), s.transcript, WithoutSummary(s.active)[i]);
    }
  }

  lemma TurnOnceKeepsSound(m: C.Manager, inputs: nat -> StepInput, config: Config)
    requires Good(m.conversation) && forall i :: OwnOutputsOnly(inputs(i))
    ensures Sound(TurnOnce(m, inputs, config).manager, m)
  {
    hide Good;
    LoopEnds(Start(m), inputs, config, 0);
    LoopKeepsSound(Start(m), m, inputs, config, 0);
    CloseKeepsSound(Loop(Start(m), inputs, config, 0), m, config);
  }

  // ---------- What a failed turn leaves ----------

  /** The transcript of `a` is the beginning of that of `b`. */
  predicate Grows(a: C.Manager, b: C.Manager) { a.conversation.transcript <= b.conversation.transcript }

  lemma SayGrows(turn: Turn, items: seq<Item>)
    ensures Grows(turn.manager, Say(turn, items).manager)
  {
    hide Normalize;
  }

  lemma GrowsOn(a: C.Manager, b: C.Manager, d: C.Manager)
    requires Grows(a, b) && Grows(b, d)
    ensures Grows(a, d)
  {
  }

  lemma ResetGrows(m: C.Manager, text: string)
    ensures Grows(m, m.(conversation := ResetActiveToUser(m.conversation, text)))
  {
  }

  lemma TextGrows(turn: Turn, input: StepInput, config: Config, items: seq<Item>, text: string)
    ensures Grows(turn.manager, OnText(turn, input, config, items, text).turn.manager)
  {
    hide Say, Grows, Notice;
    var said := Say(turn, items).(empty := turn.empty + 1);
    SayGrows(turn, items);
    SayGrows(said, Notice(EmptyResponses));
    GrowsOn(turn.manager, said.manager, Say(said, Notice(EmptyResponses)).manager);
  }

  lemma StalledGrows(turn: Turn, config: Config, items: seq<Item>, calls: seq<ToolCall>)
    ensures Grows(turn.manager, OnStalledCalls(turn, config, items, calls).turn.manager)
  {
    hide Say, Grows, Notice, OutputItems;
    var skipped := seq(|calls|, i requires 0 <= i < |calls| => config.texts.stalled);
    var said := Say(turn, items + OutputItems(calls, skipped));
    SayGrows(turn, items + OutputItems(calls, skipped));
    SayGrows(said, Notice(Stalled));
    GrowsOn(turn.manager, said.manager, Say(said, Notice(Stalled)).manager);
  }

  lemma CallsGrow(turn: Turn, input: StepInput, config: Config, items: seq<Item>, calls: seq<ToolCall>)
    requires calls == CallsOf(items)
    ensures Grows(turn.manager, OnCalls(turn, input, config, items, calls).turn.manager)
  {
    hide Say, Grows, OutputItems, Observe, CancelledWhileCounting, ResetActiveToUser, CallsOf;
    var round := RunTools(calls, turn.executed, config.maxToolCalls, config.safe, input.cancelledAfter,
                          input.results, config.texts);
    var said := Say(turn, items + OutputItems(calls, round.outputs));
    SayGrows(turn, items + OutputItems(calls, round.outputs));
    if input.freshPlan.Some? {
      ResetGrows(said.manager, input.freshPlan.value);
      GrowsOn(turn.manager, said.manager,
              said.manager.(conversation := ResetActiveToUser(said.manager.conversation, input.freshPlan.value)));
    }
    SameGrows(turn.manager);
  }

  lemma SameGrows(m: C.Manager)
    ensures Grows(m, m)
  {
  }

  lemma AnswerGrows(turn: Turn, input: StepInput, config: Config, response: Response)
    requires response.Answer?
    ensures Grows(turn.manager, OnAnswer(turn, input, config, response).turn.manager)
  {
    hide CallsOf, OnText, OnCalls, OnStalledCalls;
    var heard := turn.(manager := C.RecordRegularResponse(turn.manager, response.actual, input.localEstimate));
    TextGrows(heard, input, config, response.items, response.text);
    StalledGrows(heard, config, response.items, CallsOf(response.items));
    CallsGrow(heard, input, config, response.items, CallsOf(response.items));
  }

  lemma FailureGrows(turn: Turn, input: StepInput, config: Config, failure: Failure)
    ensures Grows(turn.manager, OnFailure(turn, input, config, failure).turn.manager)
  {
    hide C.CompactContext, C.CompactionCalls, HasCompactableHistory;
    C.CompactionIsAtomic(turn.manager, input.request, "recovery", input.recoveryReplies);
  }

  lemma AutoCompactGrows(turn: Turn, input: StepInput)
    ensures Grows(turn.manager, AutoCompact(turn, input).turn.manager)
  {
    hide C.CompactContext, C.CompactionCalls, C.ShouldAutoCompact;
    C.CompactionIsAtomic(turn.manager, input.request, "auto", input.autoReplies);
  }

  lemma StepGrows(turn: Turn, input: StepInput, config: Config)
    ensures Grows(turn.manager, StepOnce(turn, input, config).turn.manager)
  {
    hide OnAnswer, OnFailure, AutoCompact, Normalize;
    AutoCompactGrows(turn, input);
    var next := AutoCompact(turn, input).turn;
    var reached := Request(input.responses, 0);
    var asked := next.(calls := next.calls + reached.attempts);
    if reached.response.Failed? {
      FailureGrows(asked, input, config, reached.response.failure);
    } else if reached.response.Answer? {
      AnswerGrows(asked, input, config, reached.response);
    }
  }

  lemma {:induction false} LoopGrows(turn: Turn, inputs: nat -> StepInput, config: Config, k: nat)
    ensures Grows(turn.manager, Loop(turn, inputs, config, k).turn.manager)
    decreases config.maxSteps - k
  {
    hide StepOnce, Normalize;
    if k < config.maxSteps {
      StepGrows(turn, inputs(k), config);
      var flow := StepOnce(turn, inputs(k), config);
      if flow.Continue? {
        LoopGrows(flow.turn, inputs, config, k + 1);
      }
    }
  }

  /** A failed attempt: the transcript of the loop when it was left, the old view followed by the segments
      added since, the old checkpoints, and everything else as it was when the loop was left. */
  predicate KeepsRounds(before: C.Manager, atRaise: C.Manager, after: C.Manager) {
    var was, now, left := before.conversation, atRaise.conversation, after.conversation;
    && was.transcript <= now.transcript && left.transcript == now.transcript
    && left.active == was.active + now.transcript[|was.transcript|..]
    && left.checkpoints == was.checkpoints
    && after == atRaise.(conversation := left)
  }

  /** What an attempt leaves behind, by the way its loop was left. */
  predicate LeavesBehind(before: C.Manager, flow: Flow, config: Config, ended: Ended) {
    && ended.calls == flow.turn.calls && ended.invoked == flow.turn.invoked
    && match flow
       case Continue(_) => false
       case Finished(turn, answer) => ended.outcome == Returned(answer) && ended.manager == turn.manager
       case Raised(turn, error) =>
         match error
         case Boundary =>
           && ended.outcome == Returned(Incomplete(RecoveryLimit))
           && ended.manager == Say(turn, Notice(RecoveryLimit)).manager
         case Cancelled =>
           && ended.outcome == Interrupted
           && if config.rollbackOnCancel then ended.manager == before
              else KeepsRounds(before, turn.manager, ended.manager)
         case Protocol => ended.outcome == ProtocolFailed && KeepsRounds(before, turn.manager, ended.manager)
         case Other => ended.outcome == TurnFailed && KeepsRounds(before, turn.manager, ended.manager)
  }

  lemma CloseLeaves(flow: Flow, before: C.Manager, config: Config)
    requires !flow.Continue? && Grows(before, flow.turn.manager)
    ensures LeavesBehind(before, flow, config, Close(flow, before, config))
  {
    hide Say, Notice;
  }

  /** An answer or a limit keeps everything. After a failure, or a cancellation without rollback, the rounds
      completed since stay in the transcript, and the view is the old one followed by exactly those rounds.
      A cancellation with rollback leaves the old manager as a whole. */
  lemma FailedTurnKeepsRounds(m: C.Manager, inputs: nat -> StepInput, config: Config)
    ensures LeavesBehind(m, Loop(Start(m), inputs, config, 0), config, TurnOnce(m, inputs, config))
  {
    hide Loop, LeavesBehind, Close;
    LoopEnds(Start(m), inputs, config, 0);
    LoopGrows(Start(m), inputs, config, 0);
    CloseLeaves(Loop(Start(m), inputs, config, 0), m, config);
  }

  // ---------- Why a turn goes on or ends ----------

  /** What a step did that the loop went on after. */
  datatype Did = Compacted | CutShort | Blank | Reminded | Worked

  /** What a step meets, without the counters of the turn. `recovery` is the error compaction would end in. */
  datatype Event =
    | TimeUp
    | CancelSeen
    | Refused(failure: Failure, compactable: bool, recovery: Option<C.CompactError>)
    | Garbled(protocol: bool)
    | Said(text: string)
    | Asked(cancelled: bool)

  datatype Verdict = GoesOn(did: Did) | Ends(answer: TurnAnswer) | Fails(error: TurnError)

  predicate AutoCancelled(m: C.Manager, input: StepInput) {
    C.ShouldAutoCompact(m, input.request) &&
    C.CompactContext(m, input.request, "auto", input.autoReplies) == Err(C.CompactError.Cancelled)
  }

  /** The manager the request is made from: compacted when that is due and works, with the failure counted
      when it does not. */
  function AfterAuto(m: C.Manager, input: StepInput): C.Manager {
    if !C.ShouldAutoCompact(m, input.request) then m
    else match C.CompactContext(m, input.request, "auto", input.autoReplies)
      case Ok(compacted) => compacted
      case Err(_) => C.RecordAutoFailure(m)
  }

  function EventOf(turn: Turn, input: StepInput, config: Config): Event {
    var reply := Request(input.responses, 0).response;
    var m := AfterAuto(turn.manager, input);
    if input.elapsed then TimeUp
    else if input.cancelledAtStart || AutoCancelled(turn.manager, input) || reply.CancelledReply? then CancelSeen
    else if reply.Failed? then
      Refused(reply.failure, LatestUserIndex(m.conversation.active).Some? && |m.conversation.active| > 1,
              match C.CompactContext(m, input.request, "recovery", input.recoveryReplies)
              case Ok(_) => None
              case Err(e) => Some(e))
    else if input.cancelledAfterResponse then CancelSeen
    else if reply.parsed.Unreadable? then Garbled(reply.parsed.protocol)
    else
      var calls := CallsOf(reply.items);
      if calls == [] then Said(reply.text)
      else
        Asked(|| (exists i: nat :: i < |calls| && input.cancelledAtCall(i))
              || RunTools(calls, turn.executed, config.maxToolCalls, config.safe, input.cancelledAfter, input.results,
                          config.texts).cancelled)
  }

  function Times(past: seq<Did>, did: Did): nat { multiset(past)[did] }

  function Recoveries(past: seq<Did>): nat { Times(past, Compacted) + Times(past, CutShort) + Times(past, Blank) }

  /** A blank answer, and no tool work since. */
  predicate BlankSinceWork(past: seq<Did>) {
    exists i :: 0 <= i < |past| && past[i] == Blank && forall j :: i < j < |past| ==> past[j] != Worked
  }

  function Recovering(past: seq<Did>, did: Did, config: Config): Verdict {
    if Recoveries(past) >= config.maxRecoveries then Fails(Boundary) else GoesOn(did)
  }

  /** What follows from an event, given only what the earlier steps did: one compaction, two continuations
      after the output limit and one reminder of the checklist in an attempt, no second blank answer without
      tool work in between, and no more recoveries than configured. */
  function Rule(past: seq<Did>, e: Event, input: StepInput, stalled: bool, config: Config): Verdict {
    match e
    case TimeUp => Ends(Incomplete(ElapsedTime))
    case CancelSeen => Fails(Cancelled)
    case Garbled(protocol) => Fails(if protocol then Protocol else Other)
    case Refused(failure, compactable, recovery) =>
      if failure.overflow && compactable && Compacted !in past then
        if recovery == None then Recovering(past, Compacted, config)
        else Fails(if recovery.value.Cancelled? then Cancelled else if input.recoveryProtocol then Protocol else Other)
      else if failure.outputLimit && Times(past, CutShort) < 2 then Recovering(past, CutShort, config)
      else Fails(if failure.protocol then Protocol else Other)
    case Said(text) =>
      if text == "" then
        if BlankSinceWork(past) then Ends(Incomplete(EmptyResponses)) else Recovering(past, Blank, config)
      else if input.todoInProgress && Reminded !in past then GoesOn(Reminded)
      else Ends(Text(text))
    case Asked(cancelled) =>
      if stalled then Ends(Incomplete(Stalled)) else if cancelled then Fails(Cancelled) else GoesOn(Worked)
  }

  /** The counters of the turn are what the past says. */
  ghost predicate Remembers(turn: Turn, past: seq<Did>) {
    && turn.empty == (if BlankSinceWork(past) then 1 else 0)
    && (turn.reconciled <==> Reminded in past)
    && (turn.reactive <==> Compacted in past)
    && turn.limitRecoveries == Times(past, CutShort)
    && turn.recoveries == Recoveries(past)
  }

  lemma DidOneMore(past: seq<Did>, did: Did)
    ensures forall d :: Times(past + [did], d) == Times(past, d) + if d == did then 1 else 0
    ensures forall d :: d in past + [did] <==> d in past || d == did
    ensures BlankSinceWork(past + [did]) <==> did == Blank || (did != Worked && BlankSinceWork(past))
  {
    var all := past + [did];
    assert all[|past|] == did;
    if did != Worked && BlankSinceWork(past) {
      var i :| 0 <= i < |past| && past[i] == Blank && forall j :: i < j < |past| ==> past[j] != Worked;
      assert all[i] == Blank;
    }
    if did != Blank && BlankSinceWork(all) {
      var i :| 0 <= i < |all| && all[i] == Blank && forall j :: i < j < |all| ==> all[j] != Worked;
      assert past[i] == Blank;
      assert forall j :: i < j < |past| ==> past[j] == all[j];
    }
  }

  /** A flow is what the rule says, and a turn that goes on remembers it. */
  ghost predicate Obeys(flow: Flow, verdict: Verdict, past: seq<Did>) {
    match verdict
    case GoesOn(did) => flow.Continue? && Remembers(flow.turn, past + [did])
    case Ends(answer) => flow.Finished? && flow.answer == answer
    case Fails(error) => flow.Raised? && flow.error == error
  }

  lemma RecoverObeys(turn: Turn, config: Config, past: seq<Did>, did: Did)
    requires did in {Compacted, CutShort, Blank} && turn.recoveries == Recoveries(past)
    requires Remembers(turn.(recoveries := turn.recoveries + 1), past + [did])
    ensures Obeys(Recover(turn, config), Recovering(past, did, config), past)
  {
    hide Remembers, Times, BlankSinceWork;
    DidOneMore(past, did);
  }

  /** A first context overflow with something to compact costs the calls of one compaction and leaves the
      compacted manager if that worked; any other failure leaves manager and calls alone. */
  lemma FailureLeaves(turn: Turn, input: StepInput, config: Config, failure: Failure)
    ensures var m, after := turn.manager, OnFailure(turn, input, config, failure).turn;
            var compacted := C.CompactContext(m, input.request, "recovery", input.recoveryReplies);
            var tried := failure.overflow && !turn.reactive
                         && LatestUserIndex(m.conversation.active).Some? && |m.conversation.active| > 1;
            && after.calls == turn.calls + (if tried then C.CompactionCalls(m, input.request, input.recoveryReplies)
                                            else 0)
            && after.manager == (if tried && compacted.Ok? then compacted.value else m)
            && after.invoked == turn.invoked && after.actions == turn.actions && after.repeats == turn.repeats
  {
    hide C.CompactContext, C.CompactionCalls, LatestUserIndex;
  }

  lemma FailureObeys(turn: Turn, input: StepInput, config: Config, failure: Failure, past: seq<Did>)
    requires Remembers(turn, past)
    ensures var m := turn.manager;
            var recovery := match C.CompactContext(m, input.request, "recovery", input.recoveryReplies)
                            case Ok(_) => None
                            case Err(e) => Some(e);
            var compactable := LatestUserIndex(m.conversation.active).Some? && |m.conversation.active| > 1;
            Obeys(OnFailure(turn, input, config, failure),
                  Rule(past, Refused(failure, compactable, recovery), input, turn.repeats.stalled, config), past)
  {
    hide C.CompactContext, C.CompactionCalls, Times, BlankSinceWork, Recover, Recovering;
    DidOneMore(past, Compacted);
    DidOneMore(past, CutShort);
    var next := turn.(calls := turn.calls + C.CompactionCalls(turn.manager, input.request, input.recoveryReplies),
                      reactive := true);
    var compacted := C.CompactContext(turn.manager, input.request, "recovery", input.recoveryReplies);
    if compacted.Ok? && !turn.reactive { RecoverObeys(next.(manager := compacted.value), config, past, Compacted); }
    RecoverObeys(turn.(limitRecoveries := turn.limitRecoveries + 1), config, past, CutShort);
  }

  lemma TextObeys(turn: Turn, input: StepInput, config: Config, items: seq<Item>, text: string, past: seq<Did>)
    requires Remembers(turn, past)
    ensures Obeys(OnText(turn, input, config, items, text),
                  Rule(past, Said(text), input, turn.repeats.stalled, config), past)
  {
    hide Times, BlankSinceWork, Recover, Recovering, AppendModelRound;
    DidOneMore(past, Reminded);
    DidOneMore(past, Blank);
    var said := Say(turn, items).(empty := turn.empty + 1);
    if text == "" && !BlankSinceWork(past) { RecoverObeys(said, config, past, Blank); }
  }

  lemma CallsObey(turn: Turn, input: StepInput, config: Config, items: seq<Item>, calls: seq<ToolCall>, past: seq<Did>)
    requires Remembers(turn, past) && !turn.repeats.stalled
    ensures var cancelled := CancelledWhileCounting(calls, input.cancelledAtCall)
                             || RunTools(calls, turn.executed, config.maxToolCalls, config.safe, input.cancelledAfter,
                                         input.results, config.texts).cancelled;
            Obeys(OnCalls(turn, input, config, items, calls), Rule(past, Asked(cancelled), input, false, config), past)
  {
    hide Times, BlankSinceWork, RunTools, Observe, AppendModelRound, ResetActiveToUser;
    DidOneMore(past, Worked);
  }

  lemma AnswerObeys(turn: Turn, input: StepInput, config: Config, response: Response, past: seq<Did>)
    requires Remembers(turn, past) && response.Answer?
    ensures var calls := CallsOf(response.items);
            var e := if response.parsed.Unreadable? then Garbled(response.parsed.protocol)
                     else if calls == [] then Said(response.text)
                     else
                       Asked(|| CancelledWhileCounting(calls, input.cancelledAtCall)
                             || RunTools(calls, turn.executed, config.maxToolCalls, config.safe, input.cancelledAfter,
                                         input.results, config.texts).cancelled);
            Obeys(OnAnswer(turn, input, config, response), Rule(past, e, input, turn.repeats.stalled, config), past)
  {
    hide OnText, OnCalls, Times, BlankSinceWork, C.RecordRegularResponse, RunTools, CallsOf, CancelledWhileCounting;
    var heard := turn.(manager := C.RecordRegularResponse(turn.manager, response.actual, input.localEstimate));
    var calls := CallsOf(response.items);
    if !response.parsed.Unreadable? && calls == [] {
      TextObeys(heard, input, config, response.items, response.text, past);
    } else if !response.parsed.Unreadable? && !turn.repeats.stalled {
      CallsObey(heard, input, config, response.items, calls, past);
    }
  }

  /** What automatic compaction leaves, cancelled or not, and the provider calls it costs. */
  lemma AutoCompactResult(turn: Turn, input: StepInput)
    ensures var flow := AutoCompact(turn, input);
            var used := if C.ShouldAutoCompact(turn.manager, input.request)
                        then C.CompactionCalls(turn.manager, input.request, input.autoReplies) else 0;
            if AutoCancelled(turn.manager, input) then flow == Raised(turn.(calls := turn.calls + used), Cancelled)
            else flow == Continue(turn.(manager := AfterAuto(turn.manager, input), calls := turn.calls + used))
  {
    hide C.CompactContext, C.CompactionCalls, C.ShouldAutoCompact, C.RecordAutoFailure;
  }

  /** One step of the loop, with its counters, does what the rule says of the past it remembers. */
  lemma StepObeys(turn: Turn, input: StepInput, config: Config, past: seq<Did>)
    requires Remembers(turn, past)
    ensures Obeys(StepOnce(turn, input, config),
                  Rule(past, EventOf(turn, input, config), input, turn.repeats.stalled, config), past)
  {
    hide AutoCompact, OnFailure, OnAnswer, AutoCancelled, AfterAuto, Request, Rule, Remembers, RunTools, CallsOf;
    hide C.CompactContext;
    AutoCompactResult(turn, input);
    if !input.elapsed && !input.cancelledAtStart && !AutoCancelled(turn.manager, input) {
      var next := AutoCompact(turn, input).turn;
      var reached := Request(input.responses, 0);
      var asked := next.(calls := next.calls + reached.attempts);
      assert Remembers(asked, past) by { SameMemory(turn, asked, past); }
      if reached.response.Failed? {
        FailureObeys(asked, input, config, reached.response.failure, past);
      } else if reached.response.Answer? && !input.cancelledAfterResponse {
        AnswerObeys(asked, input, config, reached.response, past);
      }
    }
    RuleOfCancel(past, input, turn.repeats.stalled, config);
  }

  lemma SameMemory(a: Turn, b: Turn, past: seq<Did>)
    requires Remembers(a, past)
    requires a.empty == b.empty && a.reconciled == b.reconciled && a.reactive == b.reactive
    requires a.limitRecoveries == b.limitRecoveries && a.recoveries == b.recoveries
    ensures Remembers(b, past)
  {
  }

  lemma RuleOfCancel(past: seq<Did>, input: StepInput, stalled: bool, config: Config)
    ensures Rule(past, CancelSeen, input, stalled, config) == Fails(Cancelled)
    ensures Rule(past, TimeUp, input, stalled, config) == Ends(Incomplete(ElapsedTime))
  {
  }

  /** The past of an attempt and how it ends, by the rule alone. */
  function Account(turn: Turn, inputs: nat -> StepInput, config: Config, k: nat, past: seq<Did>): (seq<Did>, Verdict)
    decreases config.maxSteps - k
  {
    if k >= config.maxSteps then (past, Ends(Incomplete(StepLimit)))
    else
      var verdict := Rule(past, EventOf(turn, inputs(k), config), inputs(k), turn.repeats.stalled, config);
      if verdict.GoesOn?
      then Account(StepOnce(turn, inputs(k), config).turn, inputs, config, k + 1, past + [verdict.did])
      else (past, verdict)
  }

  /** What every past keeps to. */
  ghost predicate Lawful(past: seq<Did>, config: Config) {
    && Times(past, Compacted) <= 1 && Times(past, CutShort) <= 2 && Times(past, Reminded) <= 1
    && Recoveries(past) <= config.maxRecoveries
    && forall i, j :: 0 <= i < j < |past| && past[i] == Blank && past[j] == Blank ==> Worked in past[i..j]
  }

  lemma WorkBehindBlank(past: seq<Did>, i: nat)
    requires i < |past| && past[i] == Blank && !BlankSinceWork(past)
    ensures Worked in past[i..]
  {
    var j :| i < j < |past| && past[j] == Worked;
    assert past[i..][j - i] == Worked;
  }

  lemma RuleKeepsLawful(past: seq<Did>, e: Event, input: StepInput, stalled: bool, config: Config)
    requires Lawful(past, config) && Rule(past, e, input, stalled, config).GoesOn?
    ensures Lawful(past + [Rule(past, e, input, stalled, config).did], config)
  {
    var did := Rule(past, e, input, stalled, config).did;
    var all := past + [did];
    DidOneMore(past, did);
    forall i, j | 0 <= i < j < |all| && all[i] == Blank && all[j] == Blank ensures Worked in all[i..j] {
      if j < |past| {
        assert past[i] == Blank && past[j] == Blank && all[i..j] == past[i..j];
      } else {
        assert past[i] == Blank && all[i..j] == past[i..];
        WorkBehindBlank(past, i);
      }
    }
  }

  lemma {:induction false} LoopObeys(turn: Turn, inputs: nat -> StepInput, config: Config, k: nat, past: seq<Did>)
    requires Remembers(turn, past) && Lawful(past, config) && |past| == k <= config.maxSteps
    ensures var (all, verdict) := Account(turn, inputs, config, k, past);
            && Lawful(all, config) && past <= all && |all| <= config.maxSteps && !verdict.GoesOn?
            && Obeys(Loop(turn, inputs, config, k), verdict, all)
    decreases config.maxSteps - k
  {
    hide StepOnce, Rule, EventOf, Remembers, Lawful;
    if k < config.maxSteps {
      var verdict := Rule(past, EventOf(turn, inputs(k), config), inputs(k), turn.repeats.stalled, config);
      StepObeys(turn, inputs(k), config, past);
      if verdict.GoesOn? {
        RuleKeepsLawful(past, EventOf(turn, inputs(k), config), inputs(k), turn.repeats.stalled, config);
        LoopObeys(StepOnce(turn, inputs(k), config).turn, inputs, config, k + 1, past + [verdict.did]);
      }
    }
  }

  function OutcomeOf(verdict: Verdict): Outcome
    requires !verdict.GoesOn?
  {
    match verdict
    case Ends(answer) => Returned(answer)
    case Fails(Boundary) => Returned(Incomplete(RecoveryLimit))
    case Fails(Cancelled) => Interrupted
    case Fails(Protocol) => ProtocolFailed
    case Fails(Other) => TurnFailed
  }

  /** How an attempt ends, for all inputs: exactly as the rule says of the steps it went on after, and these
      hold at most one compaction, two continuations after the output limit and one reminder, never two
      blank answers without tool work in between, and no more recoveries than configured. */
  lemma TurnEndsByRule(m: C.Manager, inputs: nat -> StepInput, config: Config)
    ensures var (past, verdict) := Account(Start(m), inputs, config, 0, []);
            && Lawful(past, config) && |past| <= config.maxSteps
            && !verdict.GoesOn? && TurnOnce(m, inputs, config).outcome == OutcomeOf(verdict)
  {
    hide Loop, Account, Rule, RestoreProjection, AppendModelRound;
    LoopEnds(Start(m), inputs, config, 0);
    LoopObeys(Start(m), inputs, config, 0, []);
  }

  // ---------- The mutable turn ----------

  /** A failure that is answered by one more attempt, if one is left. */
  predicate TriedAgain(response: Response) {
    response.Failed? && response.failure.retryable && !response.failure.cancelledInPause
  }

  /** Which attempts are made, and with what result: another one after every retryable failure whose pause
      is not cancelled, as long as one of the three is left, and none after anything else. */
  lemma {:induction false} RequestStopsIff(responses: nat -> Response, made: nat)
    requires made < MAX_PROVIDER_ATTEMPTS
    ensures var r := Request(responses, made);
            var last := responses(r.attempts - 1);
            && made < r.attempts <= 3
            && (forall i: nat :: made <= i < r.attempts - 1 ==> TriedAgain(responses(i)))
            && (r.attempts < 3 ==> !TriedAgain(last))
            && r.response == if r.attempts < 3 && last.Failed? && last.failure.retryable then CancelledReply else last
    decreases MAX_PROVIDER_ATTEMPTS - made
  {
    if made + 1 < MAX_PROVIDER_ATTEMPTS && TriedAgain(responses(made)) {
      RequestStopsIff(responses, made + 1);
    }
  }

  /** The retry loop around one provider request. */
  method RequestWithRetry(responses: nat -> Response) returns (reached: Reached)
    ensures reached == Request(responses, 0)
    ensures 1 <= reached.attempts <= 3
    ensures forall i: nat :: i < reached.attempts - 1 ==> TriedAgain(responses(i))
    ensures reached.attempts < 3 ==> !TriedAgain(responses(reached.attempts - 1))
  {
    RequestStopsIff(responses, 0);
    var attempt: nat := 1;
    while attempt < MAX_PROVIDER_ATTEMPTS
      invariant 1 <= attempt <= MAX_PROVIDER_ATTEMPTS
      invariant Request(responses, 0) == Request(responses, attempt - 1)
    {
      var response := responses(attempt - 1);
      if !response.Failed? || !response.failure.retryable {
        return Reached(response, attempt);
      }
      if response.failure.cancelledInPause {
        return Reached(CancelledReply, attempt);
      }
      attempt := attempt + 1;
    }
    return Reached(responses(attempt - 1), attempt);
  }

  /** The locals of one running turn around the shared manager. */
  class RunningTurn {
    const manager: C.ContextManager
    const config: Config
    var empty: nat
    var reconciled: bool
    var executed: nat
    var reactive: bool
    var recoveries: nat
    var limitRecoveries: nat
    var repeats: Repeats
    var calls: nat
    var invoked: seq<string>
    var actions: seq<Action>

    constructor (manager: C.ContextManager, config: Config)
      ensures this.manager == manager && this.config == config
      ensures Value() == Start(manager.Value())
    {
      this.manager, this.config := manager, config;
      empty, reconciled, executed, reactive := 0, false, 0, false;
      recoveries, limitRecoveries, repeats := 0, 0, NO_REPEATS;
      calls, invoked, actions := 0, [], [];
    }

    function Value(): Turn
      reads this, manager
    {
      Turn(manager.Value(), empty, reconciled, executed, reactive, recoveries, limitRecoveries, repeats, calls,
           invoked, actions)
    }

    method Append(items: seq<Item>)
      modifies manager
      ensures Value() == Say(old(Value()), items)
    {
      manager.conversation := AppendModelRound(manager.conversation, items);
    }

    method Stop(reason: Reason) returns (flow: Flow)
      modifies manager
      ensures flow == StopIncomplete(old(Value()), reason) && Value() == flow.turn
    {
      Append(Notice(reason));
      return Finished(Value(), Incomplete(reason));
    }

    method CountRecovery() returns (flow: Flow)
      modifies this
      ensures flow == Recover(old(Value()), config) && Value() == flow.turn
    {
      recoveries := recoveries + 1;
      if recoveries > config.maxRecoveries {
        return Raised(Value(), Boundary);
      }
      return Continue(Value());
    }

    method CompactWhenDue(input: StepInput) returns (flow: Flow)
      modifies this, manager
      ensures flow == AutoCompact(old(Value()), input) && Value() == flow.turn
    {
      hide C.CompactContext, C.CompactionCalls;
      if !C.ShouldAutoCompact(manager.Value(), input.request) {
        return Continue(Value());
      }
      var result, used := manager.Compact(input.request, "auto", input.autoReplies);
      calls := calls + used;
      if result.Err? {
        if result.error.Cancelled? {
          return Raised(Value(), Cancelled);
        }
        manager.RecordFailure();
      }
      return Continue(Value());
    }

    method HandleFailure(input: StepInput, failure: Failure) returns (flow: Flow)
      modifies this, manager
      ensures flow == OnFailure(old(Value()), input, config, failure) && Value() == flow.turn
    {
      hide C.CompactContext, C.CompactionCalls, HasCompactableHistory;
      if failure.overflow && !reactive && HasCompactableHistory(manager.Value()) {
        var result, used := manager.Compact(input.request, "recovery", input.recoveryReplies);
        calls, reactive := calls + used, true;
        if result.Err? {
          var error := if result.error.Cancelled? then Cancelled
                       else if input.recoveryProtocol then Protocol else Other;
          return Raised(Value(), error);
        }
        flow := CountRecovery();
      } else if failure.outputLimit && limitRecoveries < MAX_OUTPUT_LIMIT_RECOVERIES {
        limitRecoveries := limitRecoveries + 1;
        flow := CountRecovery();
      } else {
        return Raised(Value(), if failure.protocol then Protocol else Other);
      }
    }

    method HandleText(input: StepInput, items: seq<Item>, text: string) returns (flow: Flow)
      modifies this, manager
      ensures flow == OnText(old(Value()), input, config, items, text) && Value() == flow.turn
    {
      Append(items);
      if text != "" {
        if input.todoInProgress && !reconciled {
          reconciled := true;
          return Continue(Value());
        }
        return Finished(Value(), Text(text));
      }
      empty := empty + 1;
      if empty >= MAX_EMPTY_RESPONSES {
        flow := Stop(EmptyResponses);
      } else {
        flow := CountRecovery();
      }
    }

    /** The fingerprint loop over the finished actions. */
    method ObserveActions(toolCalls: seq<ToolCall>, args: nat -> string, outputs: seq<string>)
      requires |toolCalls| == |outputs|
      modifies this`repeats
      ensures repeats == Observe(old(repeats), ActionsOf(toolCalls, args, outputs), config.maxIdentical)
    {
      ghost var actions := ActionsOf(toolCalls, args, outputs);
      var i: nat := 0;
      while i < |toolCalls|
        invariant i <= |toolCalls|
        invariant repeats == Observe(old(repeats), actions[..i], config.maxIdentical)
      {
        var action := Action(toolCalls[i].name, args(i), outputs[i]);
        assert actions[..i + 1][..i] == actions[..i] && actions[..i + 1][i] == action;
        var count := if repeats.last == Some(action) then repeats.count + 1 else 1;
        repeats := Repeats(Some(action), count, repeats.stalled || count >= config.maxIdentical);
        i := i + 1;
      }
      assert actions[..i] == actions;
    }

    method HandleCalls(input: StepInput, items: seq<Item>, toolCalls: seq<ToolCall>) returns (flow: Flow)
      requires toolCalls == CallsOf(items)
      modifies this, manager
      ensures flow == OnCalls(old(Value()), input, config, items, toolCalls) && Value() == flow.turn
    {
      hide RunTools, Observe, ActionsOf, OutputItems, AppendModelRound, ResetActiveToUser, CallsOf,
           CancelledWhileCounting;
      if CancelledWhileCounting(toolCalls, input.cancelledAtCall) {
        return Raised(Value(), Cancelled);
      }
      empty := 0;
      var round := MakeCalls(toolCalls, executed, config.maxToolCalls, config.safe, input.cancelledAfter,
                             input.results, config.texts);
      executed, invoked := round.executed, invoked + round.invoked;
      Append(items + OutputItems(toolCalls, round.outputs));
      if round.cancelled {
        return Raised(Value(), Cancelled);
      }
      ObserveActions(toolCalls, input.args, round.outputs);
      actions := actions + ActionsOf(toolCalls, input.args, round.outputs);
      if input.freshPlan.Some? {
        manager.conversation := ResetActiveToUser(manager.conversation, input.freshPlan.value);
      }
      return Continue(Value());
    }

    method HandleAnswer(input: StepInput, response: Response) returns (flow: Flow)
      requires response.Answer?
      modifies this, manager
      ensures flow == OnAnswer(old(Value()), input, config, response) && Value() == flow.turn
    {
      manager.RecordResponse(response.actual, input.localEstimate);
      if response.parsed.Unreadable? {
        return Raised(Value(), if response.parsed.protocol then Protocol else Other);
      }
      var toolCalls := CallsOf(response.items);
      if repeats.stalled && toolCalls != [] {
        var skipped := seq(|toolCalls|, i requires 0 <= i < |toolCalls| => config.texts.stalled);
        Append(response.items + OutputItems(toolCalls, skipped));
        flow := Stop(Stalled);
      } else if toolCalls == [] {
        flow := HandleText(input, response.items, response.text);
      } else {
        flow := HandleCalls(input, response.items, toolCalls);
      }
    }

    method TakeStep(input: StepInput) returns (flow: Flow)
      modifies this, manager
      ensures flow == StepOnce(old(Value()), input, config) && Value() == flow.turn
    {
      if input.elapsed {
        flow := Stop(ElapsedTime);
        return;
      }
      if input.cancelledAtStart {
        return Raised(Value(), Cancelled);
      }
      flow := CompactWhenDue(input);
      if flow.Continue? {
        flow := AskModel(input);
      }
    }

    method AskModel(input: StepInput) returns (flow: Flow)
      modifies this, manager
      ensures flow == Converse(old(Value()), input, config) && Value() == flow.turn
    {
      hide OnAnswer, OnFailure;
      var reached := RequestWithRetry(input.responses);
      calls := calls + reached.attempts;
      if reached.response.CancelledReply? {
        return Raised(Value(), Cancelled);
      } else if reached.response.Failed? {
        flow := HandleFailure(input, reached.response.failure);
      } else if input.cancelledAfterResponse {
        return Raised(Value(), Cancelled);
      } else {
        flow := HandleAnswer(input, reached.response);
      }
    }
  }

  method RunTurnOnce(manager: C.ContextManager, inputs: nat -> StepInput, config: Config)
    returns (outcome: Outcome, calls: nat, invoked: seq<string>)
    modifies manager
    ensures Ended(manager.Value(), outcome, calls, invoked) == TurnOnce(old(manager.Value()), inputs, config)
  {
    var snapshot := manager.Value();
    var turn := new RunningTurn(manager, config);
    var flow := Continue(turn.Value());
    var step: nat := 0;
    while step < config.maxSteps && flow.Continue?
      invariant fresh(turn) && turn.manager == manager && turn.config == config
      invariant turn.Value() == flow.turn
      invariant Loop(Start(snapshot), inputs, config, 0) ==
                if flow.Continue? then Loop(flow.turn, inputs, config, step) else flow
      decreases config.maxSteps - step
    {
      flow := turn.TakeStep(inputs(step));
      step := step + 1;
    }
    if flow.Continue? {
      flow := turn.Stop(StepLimit);
    }
    calls, invoked := turn.calls, turn.invoked;
    match flow {
      case Finished(_, answer) =>
        outcome := Returned(answer);
      case Raised(_, Boundary) =>
        turn.Append(Notice(RecoveryLimit));
        outcome := Returned(Incomplete(RecoveryLimit));
      case Raised(_, Cancelled) =>
        manager.RestoreTo(if config.rollbackOnCancel then snapshot else WithProjection(manager.Value(), snapshot));
        outcome := Interrupted;
      case Raised(_, error) =>
        manager.RestoreTo(WithProjection(manager.Value(), snapshot));
        outcome := if error == Protocol then ProtocolFailed else TurnFailed;
    }
  }

  method RunWithRetry(manager: C.ContextManager, attempts: nat -> (nat -> StepInput), pauseCancelled: bool,
                      config: Config)
    returns (outcome: Outcome, calls: nat, invoked: seq<string>)
    modifies manager
    ensures Ended(manager.Value(), outcome, calls, invoked) ==
            RunTurn(old(manager.Value()), attempts, pauseCancelled, config)
  {
    outcome, calls, invoked := RunTurnOnce(manager, attempts(0), config);
    if outcome.ProtocolFailed? {
      if pauseCancelled {
        outcome := Interrupted;
      } else {
        var moreCalls, moreInvoked;
        outcome, moreCalls, moreInvoked := RunTurnOnce(manager, attempts(1), config);
        calls, invoked := calls + moreCalls, invoked + moreInvoked;
      }
    }
  }
}
