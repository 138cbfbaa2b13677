/** The tool calls of one model round: the per-turn budget, batches of parallel-safe calls,
    cancellation, and the outputs committed to the conversation. */
module TurnTools {
  import opened Basics
  import opened Conversation

  datatype ToolCall = ToolCall(callId: string, name: string)

  /** The texts of outputs that stand for a call that was not made. */
  datatype SkipTexts = SkipTexts(budget: string, cancelled: string, stalled: string)

  function CallsOf(items: seq<Item>): seq<ToolCall> {
    if items == [] then []
    else
      var last := items[|items| - 1];
      CallsOf(items[..|items| - 1]) + (if last.FunctionCall? then [ToolCall(last.callId, last.name)] else [])
  }

  /** `todo` and `skill` calls are not counted against the budget. */
  predicate Work(name: string) { name != "todo" && name != "skill" }

  // ---------- The budget ----------

  /** The number of counted calls after the first `i` calls of a round that began with `start`. */
  function Executed(calls: seq<ToolCall>, start: nat, max: nat, i: nat): nat
    requires i <= |calls|
  {
    if i == 0 then start
    else
      var before := Executed(calls, start, max, i - 1);
      if Work(calls[i - 1].name) && before < max then before + 1 else before
  }

  /** Whether the budget was used up when call number `i` was looked at. */
  predicate OverBudget(calls: seq<ToolCall>, start: nat, max: nat, i: nat)
    requires i < |calls|
  {
    Work(calls[i].name) && Executed(calls, start, max, i) >= max
  }

  function WorkCount(names: seq<string>): nat {
    if names == [] then 0
    else WorkCount(names[..|names| - 1]) + if Work(names[|names| - 1]) then 1 else 0
  }

  function NamesOf(calls: seq<ToolCall>): seq<string> {
    seq(|calls|, i requires 0 <= i < |calls| => calls[i].name)
  }

  /** Within the budget every counted call is made; beyond it none is. */
  lemma {:induction false} ExecutedIsCapped(calls: seq<ToolCall>, start: nat, max: nat, i: nat)
    requires i <= |calls| && start <= max
    ensures var wanted := start + WorkCount(NamesOf(calls)[..i]);
            Executed(calls, start, max, i) == if wanted < max then wanted else max
  {
    if i > 0 {
      ExecutedIsCapped(calls, start, max, i - 1);
      assert NamesOf(calls)[..i][..i - 1] == NamesOf(calls)[..i - 1];
    }
  }

  // ---------- Batches ----------

  /** The end of the run of parallel-safe calls within the budget that starts at `i`. */
  function BatchEnd(calls: seq<ToolCall>, skip: seq<bool>, safe: string -> bool, i: nat): (end: nat)
    requires i <= |calls| == |skip|
    ensures i <= end <= |calls|
    decreases |calls| - i
  {
    if i == |calls| || skip[i] || !safe(calls[i].name) then i else BatchEnd(calls, skip, safe, i + 1)
  }

  /** The end of the next batch or single call. */
  function GroupEnd(calls: seq<ToolCall>, skip: seq<bool>, safe: string -> bool, i: nat): (end: nat)
    requires i < |calls| == |skip|
    ensures i < end <= |calls|
  {
    if safe(calls[i].name) then BatchEnd(calls, skip, safe, i + 1) else i + 1
  }

  datatype Progress = Progress(made: nat, cancelled: bool)

  /** How far the calls from `i` on get: cancellation is seen after each batch or single call. */
  function MakeFrom(calls: seq<ToolCall>, skip: seq<bool>, safe: string -> bool, cancelledAt: nat -> bool, i: nat)
    : (p: Progress)
    requires i <= |calls| == |skip|
    ensures i <= p.made <= |calls|
    ensures !p.cancelled ==> p.made == |calls|
    decreases |calls| - i
  {
    if i == |calls| then Progress(i, false)
    else if skip[i] then MakeFrom(calls, skip, safe, cancelledAt, i + 1)
    else
      var end := GroupEnd(calls, skip, safe, i);
      if cancelledAt(end) then Progress(end, true) else MakeFrom(calls, skip, safe, cancelledAt, end)
  }

  function Skips(calls: seq<ToolCall>, start: nat, max: nat): seq<bool> {
    seq(|calls|, i requires 0 <= i < |calls| => OverBudget(calls, start, max, i))
  }

  /** One output for each call: the budget text, the tool's result, or the cancellation text. */
  function Outputs(calls: seq<ToolCall>, skip: seq<bool>, made: nat, results: nat -> string, texts: SkipTexts)
    : seq<string>
    requires |calls| == |skip|
  {
    seq(|calls|, i requires 0 <= i < |calls| =>
      if skip[i] then texts.budget else if i < made then results(i) else texts.cancelled)
  }

  /** The names of the tools invoked among the first `n` calls. */
  function Invoked(calls: seq<ToolCall>, skip: seq<bool>, n: nat): seq<string>
    requires n <= |calls| == |skip|
  {
    if n == 0 then []
    else Invoked(calls, skip, n - 1) + if skip[n - 1] then [] else [calls[n - 1].name]
  }

  datatype ToolRound = ToolRound(outputs: seq<string>, invoked: seq<string>, executed: nat, cancelled: bool)

  function RunTools(calls: seq<ToolCall>, start: nat, max: nat, safe: string -> bool, cancelledAt: nat -> bool,
                    results: nat -> string, texts: SkipTexts): ToolRound
  {
    var skip := Skips(calls, start, max);
    var p := MakeFrom(calls, skip, safe, cancelledAt, 0);
    ToolRound(Outputs(calls, skip, p.made, results, texts), Invoked(calls, skip, p.made),
              Executed(calls, start, max, |calls|), p.cancelled)
  }

  // ---------- The loops ----------

  /** What the slots hold when the first `n` unskipped calls have been made. */
  predicate Filled(slots: seq<Option<string>>, skip: seq<bool>, n: nat, results: nat -> string, texts: SkipTexts) {
    && |slots| == |skip|
    && forall i :: 0 <= i < |slots| ==>
         slots[i] == if skip[i] then Some(texts.budget) else if i < n then Some(results(i)) else None
  }

  method CountCalls(calls: seq<ToolCall>, start: nat, max: nat, texts: SkipTexts)
    returns (slots: seq<Option<string>>, executed: nat, ghost skip: seq<bool>)
    ensures skip == Skips(calls, start, max)
    ensures forall results :: Filled(slots, skip, 0, results, texts)
    ensures executed == Executed(calls, start, max, |calls|)
  {
    slots := [];
    executed := start;
    skip := Skips(calls, start, max);
    while |slots| < |calls|
      invariant |slots| <= |calls|
      invariant executed == Executed(calls, start, max, |slots|)
      invariant forall i :: 0 <= i < |slots| ==> slots[i] == if skip[i] then Some(texts.budget) else None
      decreases |calls| - |slots|
    {
      var name := calls[|slots|].name;
      if executed >= max && Work(name) {
        slots := slots + [Some(texts.budget)];
      } else {
        if Work(name) {
          executed := executed + 1;
        }
        slots := slots + [None];
      }
    }
  }

  /** Invokes one batch of parallel-safe calls, or a single call. */
  method MakeGroup(calls: seq<ToolCall>, ghost skip: seq<bool>, safe: string -> bool, results: nat -> string,
                   ghost texts: SkipTexts, slots: seq<Option<string>>, invoked: seq<string>, first: nat)
    returns (newSlots: seq<Option<string>>, newInvoked: seq<string>, index: nat)
    requires first < |calls| == |skip| && !skip[first]
    requires Filled(slots, skip, first, results, texts) && invoked == Invoked(calls, skip, first)
    ensures index == GroupEnd(calls, skip, safe, first)
    ensures Filled(newSlots, skip, index, results, texts) && newInvoked == Invoked(calls, skip, index)
  {
    newSlots := slots[first := Some(results(first))];
    newInvoked := invoked + [calls[first].name];
    index := first + 1;
    if safe(calls[first].name) {
      while index < |calls| && newSlots[index].None? && safe(calls[index].name)
        invariant first < index <= |calls|
        invariant Filled(newSlots, skip, index, results, texts)
        invariant newInvoked == Invoked(calls, skip, index)
        invariant BatchEnd(calls, skip, safe, first + 1) == BatchEnd(calls, skip, safe, index)
      {
        newSlots := newSlots[index := Some(results(index))];
        newInvoked := newInvoked + [calls[index].name];
        index := index + 1;
      }
    }
  }

  method MakeCalls(calls: seq<ToolCall>, start: nat, max: nat, safe: string -> bool, cancelledAt: nat -> bool,
                   results: nat -> string, texts: SkipTexts)
    returns (round: ToolRound)
    ensures round == RunTools(calls, start, max, safe, cancelledAt, results, texts)
    ensures |round.outputs| == |calls|
  {
    var slots, executed;
    ghost var skip;
    slots, executed, skip := CountCalls(calls, start, max, texts);
    assert Filled(slots, skip, 0, results, texts);
    var invoked: seq<string> := [];
    var index: nat := 0;
    var cancelled := false;
    while index < |calls| && !cancelled
      invariant index <= |calls| == |skip|
      invariant Filled(slots, skip, index, results, texts)
      invariant invoked == Invoked(calls, skip, index)
      invariant MakeFrom(calls, skip, safe, cancelledAt, 0) ==
                if cancelled then Progress(index, true) else MakeFrom(calls, skip, safe, cancelledAt, index)
      decreases |calls| - index
    {
      if slots[index].Some? {
        index := index + 1;
      } else {
        slots, invoked, index := MakeGroup(calls, skip, safe, results, texts, slots, invoked, index);
        cancelled := cancelledAt(index);
      }
    }
    var outputs := FillCancelled(slots, texts);
    assert outputs == Outputs(calls, skip, index, results, texts);
    return ToolRound(outputs, invoked, executed, cancelled);
  }

  /** Pending slots get the cancellation text. */
  method FillCancelled(slots: seq<Option<string>>, texts: SkipTexts) returns (outputs: seq<string>)
    ensures |outputs| == |slots|
    ensures forall i :: 0 <= i < |slots| ==>
              outputs[i] == if slots[i].Some? then slots[i].value else texts.cancelled
  {
    outputs := [];
    while |outputs| < |slots|
      invariant |outputs| <= |slots|
      invariant forall i :: 0 <= i < |outputs| ==>
                  outputs[i] == if slots[i].Some? then slots[i].value else texts.cancelled
      decreases |slots| - |outputs|
    {
      var slot := slots[|outputs|];
      outputs := outputs + [if slot.Some? then slot.value else texts.cancelled];
    }
  }

  // ---------- Counting and pairing ----------

  lemma {:induction false} WorkCountConcat(a: seq<string>, b: seq<string>)
    ensures WorkCount(a + b) == WorkCount(a) + WorkCount(b)
    decreases |b|
  {
    if b == [] {
      assert a + b == a;
    } else {
      assert (a + b)[..|a + b| - 1] == a + b[..|b| - 1];
      WorkCountConcat(a, b[..|b| - 1]);
    }
  }

  lemma {:induction false} InvokedWithinCount(calls: seq<ToolCall>, start: nat, max: nat, n: nat)
    requires n <= |calls|
    ensures start + WorkCount(Invoked(calls, Skips(calls, start, max), n)) == Executed(calls, start, max, n)
  {
    if n > 0 {
      InvokedWithinCount(calls, start, max, n - 1);
      var skip := Skips(calls, start, max);
      var names := Invoked(calls, skip, n - 1);
      if skip[n - 1] {
        assert names + [] == names;
      } else {
        assert (names + [calls[n - 1].name])[..|names|] == names;
      }
    }
  }

  lemma {:induction false} ExecutedGrows(calls: seq<ToolCall>, start: nat, max: nat, i: nat, j: nat)
    requires i <= j <= |calls|
    ensures Executed(calls, start, max, i) <= Executed(calls, start, max, j)
    ensures start <= max ==> Executed(calls, start, max, j) <= max
    decreases j
  {
    if i < j {
      ExecutedGrows(calls, start, max, i, j - 1);
    } else if j > 0 {
      ExecutedGrows(calls, start, max, j - 1, j - 1);
    }
  }

  /** A round invokes no more work tools than it adds to the count, and never exceeds the budget. */
  lemma RoundStaysWithinBudget(calls: seq<ToolCall>, start: nat, max: nat, safe: string -> bool,
                               cancelledAt: nat -> bool, results: nat -> string, texts: SkipTexts)
    requires start <= max
    ensures var round := RunTools(calls, start, max, safe, cancelledAt, results, texts);
            && start + WorkCount(round.invoked) <= round.executed <= max
            && (!round.cancelled ==> start + WorkCount(round.invoked) == round.executed)
  {
    var made := MakeFrom(calls, Skips(calls, start, max), safe, cancelledAt, 0).made;
    InvokedWithinCount(calls, start, max, made);
    ExecutedGrows(calls, start, max, made, |calls|);
  }

  // ---------- What each call of a round is answered with ----------

  lemma {:induction false} WorkCountIsRest(names: seq<string>)
    ensures WorkCount(names) == |names| - multiset(names)["todo"] - multiset(names)["skill"]
  {
    if names != [] {
      var rest := names[..|names| - 1];
      WorkCountIsRest(rest);
      assert names == rest + [names[|names| - 1]];
    }
  }

  /** A call is refused for the budget exactly if it is neither `todo` nor `skill` and the calls of other
      kinds before it, in this round and earlier ones, have used the budget up. */
  lemma OverBudgetIff(calls: seq<ToolCall>, start: nat, max: nat, i: nat)
    requires i < |calls| && start <= max
    ensures var before := multiset(NamesOf(calls)[..i]);
            OverBudget(calls, start, max, i) <==>
              calls[i].name !in {"todo", "skill"} && start + i - before["todo"] - before["skill"] >= max
  {
    ExecutedIsCapped(calls, start, max, i);
    WorkCountIsRest(NamesOf(calls)[..i]);
  }

  /** Where a cancellation is looked for: behind a call that was made, unless it and the next one are
      parallel-safe and made together. */
  predicate Boundary(calls: seq<ToolCall>, skip: seq<bool>, safe: string -> bool, n: nat)
    requires |calls| == |skip|
  {
    && 0 < n <= |calls| && !skip[n - 1]
    && (!safe(calls[n - 1].name) || n == |calls| || skip[n] || !safe(calls[n].name))
  }

  lemma {:induction false} BatchEndIsFirst(calls: seq<ToolCall>, skip: seq<bool>, safe: string -> bool, i: nat)
    requires i <= |calls| == |skip|
    ensures var end := BatchEnd(calls, skip, safe, i);
            && (forall k :: i <= k < end ==> !skip[k] && safe(calls[k].name))
            && (end == |calls| || skip[end] || !safe(calls[end].name))
    decreases |calls| - i
  {
    if i < |calls| && !skip[i] && safe(calls[i].name) { BatchEndIsFirst(calls, skip, safe, i + 1); }
  }

  lemma GroupEndIsBoundary(calls: seq<ToolCall>, skip: seq<bool>, safe: string -> bool, i: nat)
    requires i < |calls| == |skip| && !skip[i]
    ensures var end := GroupEnd(calls, skip, safe, i);
            Boundary(calls, skip, safe, end) && forall n: nat :: i < n < end ==> !Boundary(calls, skip, safe, n)
  {
    BatchEndIsFirst(calls, skip, safe, i + 1);
  }

  /** The calls are made up to the first boundary at which the turn is found cancelled, or all of them. */
  lemma {:induction false} MakeStopsAtFirstCancel(calls: seq<ToolCall>, skip: seq<bool>, safe: string -> bool,
                                                  cancelledAt: nat -> bool, i: nat)
    requires i <= |calls| == |skip|
    ensures var p := MakeFrom(calls, skip, safe, cancelledAt, i);
            && (p.cancelled ==> i < p.made && Boundary(calls, skip, safe, p.made) && cancelledAt(p.made))
            && forall n: nat :: i < n && Boundary(calls, skip, safe, n) && cancelledAt(n) ==>
                 p.cancelled && p.made <= n
    decreases |calls| - i
  {
    if i < |calls| {
      if skip[i] {
        MakeStopsAtFirstCancel(calls, skip, safe, cancelledAt, i + 1);
      } else {
        hide Boundary;
        GroupEndIsBoundary(calls, skip, safe, i);
        var end := GroupEnd(calls, skip, safe, i);
        if !cancelledAt(end) { MakeStopsAtFirstCancel(calls, skip, safe, cancelledAt, end); }
      }
    }
  }

  /** Every call of a round is answered once: with the budget text if it is over the budget, with the
      tool's result if it comes before the first boundary at which the turn is found cancelled, and with
      the cancellation text otherwise. */
  lemma RoundAnswersEachCall(calls: seq<ToolCall>, start: nat, max: nat, safe: string -> bool,
                             cancelledAt: nat -> bool, results: nat -> string, texts: SkipTexts)
    returns (made: nat)
    requires start <= max
    ensures var round := RunTools(calls, start, max, safe, cancelledAt, results, texts);
            var skip := Skips(calls, start, max);
            && made <= |calls| == |skip| == |round.outputs|
            && (round.cancelled <==>
                  exists n: nat :: Boundary(calls, skip, safe, n) && cancelledAt(n))
            && (!round.cancelled ==> made == |calls|)
            && (round.cancelled ==> Boundary(calls, skip, safe, made) && cancelledAt(made))
            && (forall n: nat :: n < made && Boundary(calls, skip, safe, n) ==> !cancelledAt(n))
            && forall i :: 0 <= i < |calls| ==>
                 round.outputs[i] == if OverBudget(calls, start, max, i) then texts.budget
                                     else if i < made then results(i) else texts.cancelled
  {
    var skip := Skips(calls, start, max);
    made := MakeFrom(calls, skip, safe, cancelledAt, 0).made;
    MakeStopsAtFirstCancel(calls, skip, safe, cancelledAt, 0);
  }

  function OutputItems(calls: seq<ToolCall>, outputs: seq<string>): seq<Item>
    requires |calls| == |outputs|
  {
    seq(|calls|, i requires 0 <= i < |calls| => FunctionOutput(calls[i].callId, outputs[i]))
  }

  lemma {:induction false} OutputItemIds(calls: seq<ToolCall>, outputs: seq<string>)
    requires |calls| == |outputs|
    ensures CallIds(OutputItems(calls, outputs)) == []
    ensures |OutputIds(OutputItems(calls, outputs))| == |calls|
    ensures forall i :: 0 <= i < |calls| ==> OutputIds(OutputItems(calls, outputs))[i] == calls[i].callId
  {
    if calls != [] {
      var n := |calls| - 1;
      OutputItemIds(calls[..n], outputs[..n]);
      assert OutputItems(calls, outputs)[..n] == OutputItems(calls[..n], outputs[..n]);
    }
  }

  lemma {:induction false} CallItemIds(items: seq<Item>)
    ensures |CallIds(items)| == |CallsOf(items)|
    ensures forall i :: 0 <= i < |CallsOf(items)| ==> CallIds(items)[i] == CallsOf(items)[i].callId
  {
    if items != [] {
      CallItemIds(items[..|items| - 1]);
    }
  }

  /** A committed round has one output for each call, in the requested order and with its call id,
      whatever the outputs say. */
  lemma RoundIsPaired(items: seq<Item>, outputs: seq<string>)
    requires OutputIds(items) == [] && |outputs| == |CallsOf(items)|
    ensures Paired(items + OutputItems(CallsOf(items), outputs))
  {
    var added := OutputItems(CallsOf(items), outputs);
    OutputItemIds(CallsOf(items), outputs);
    CallItemIds(items);
    assert CallIds(items) == OutputIds(added);
    assert (items + added)[..|items|] == items && (items + added)[|items|..] == added;
    assert PairedAt(items + added, |items|);
  }
}
