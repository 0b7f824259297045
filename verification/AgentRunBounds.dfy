/** How far a run can overshoot its tool budget, and how its prompts grow. */
module AgentRunBounds {
  import opened Wrappers
  import opened AgentTypes
  import opened StateMachines
  import opened ContextBuilders
  import opened AgentRuns

  // ----- tool calls

  /** How many tool calls the n-th answer of the model asks for. */
  function BatchSize(env: Environment, n: nat): nat {
    if env.chat(n).Answers? then |env.chat(n).response.toolCalls| else 0
  }

  /** The first n batches are too short for the 32-bit counter of tool calls to wrap around. */
  ghost predicate CounterFits(env: Environment, req: RunRequest, n: nat) {
    forall i :: 0 <= i < n ==> InitialBudget(req).maxToolCalls + BatchSize(env, i) <= 0x1_0000_0000
  }

  /** The counter has counted every dispatch, and passes the limit by less than the last batch. */
  ghost predicate Bounded(env: Environment, req: RunRequest, st: RunState) {
    var start := InitialBudget(req);
    && st.budget.maxToolCalls == start.maxToolCalls
    && st.budget.usedToolCalls == (start.usedToolCalls + st.dispatches) % 0x1_0000_0000
    && (CounterFits(env, req, st.chats) ==> st.budget.usedToolCalls == start.usedToolCalls + st.dispatches)
    && (if st.chats == 0 then st.dispatches == 0
        else st.budget.usedToolCalls < start.maxToolCalls + BatchSize(env, st.chats - 1)
             || (st.budget.usedToolCalls < start.maxToolCalls))
  }

  lemma AddWraps(a: nat, b: nat)
    ensures ((a % 0x1_0000_0000) + b) % 0x1_0000_0000 == (a + b) % 0x1_0000_0000
  {
  }

  /** The counters of a state. */
  datatype Counters = Counters(chats: nat, dispatches: nat, budget: Budget)

  function CountersOf(st: RunState): Counters { Counters(st.chats, st.dispatches, st.budget) }

  function OneMore(c: Counters): Counters {
    Counters(c.chats, c.dispatches + 1, c.budget.(usedToolCalls := Add32(c.budget.usedToolCalls, 1)))
  }

  /** However a dispatched call ends, it counts once. */
  lemma CallCounts(st: RunState, call: ToolCall, result: Option<ToolResult>, answer: string)
    ensures var counted, once := CountDispatch(st.(polls := st.polls + 1)), OneMore(CountersOf(st));
            && CountersOf(Observe(counted, call, result)) == once
            && CountersOf(Heard(counted, result)) == once
            && CountersOf(Move(counted, Failed).(answer := answer)) == once
    ensures CountersOf(Move(st, Observing)) == CountersOf(st)
    ensures CountersOf(st.(polls := st.polls + 1)) == CountersOf(st)
  {
    hide Next, IsValidTransition, Add32, Observation;
  }

  /** The counters after a batch. */
  lemma {:induction false} ToolsCount(env: Environment, st: RunState, calls: seq<ToolCall>)
    ensures var st' := RunTools(env, st, calls).st;
            && st'.chats == st.chats
            && st'.budget.maxToolCalls == st.budget.maxToolCalls
            && st.dispatches <= st'.dispatches <= st.dispatches + |calls|
            && st'.budget.usedToolCalls == (st.budget.usedToolCalls + (st'.dispatches - st.dispatches)) % 0x1_0000_0000
    decreases |calls|
  {
    hide Move, Observe, Heard, CountDispatch;
    if calls == [] || env.cancelled(st.polls) || env.dispatch(st.dispatches).ToolThrows? {
      CallCounts(st, ToolCall("", "", ""), None, "");
    } else {
      var o := env.dispatch(st.dispatches);
      var next := Observe(CountDispatch(st.(polls := st.polls + 1)), calls[0], o.result);
      CallCounts(st, calls[0], o.result, if IsDenial(o) then o.result.value.error.value.message else "");
      if !IsDenial(o) {
        ToolsCount(env, next, calls[1..]);
        AddWraps(st.budget.usedToolCalls + 1, RunTools(env, next, calls[1..]).st.dispatches - next.dispatches);
      }
    }
  }

  /** What asking the model does to the counters. */
  lemma AskingCounts(env: Environment, req: RunRequest, st: RunState)
    ensures var st' := AskModel(env, req, st).st;
            && st'.budget.maxToolCalls == st.budget.maxToolCalls
            && st.chats <= st'.chats <= st.chats + 1
            && st.dispatches <= st'.dispatches
            && st'.dispatches <= st.dispatches + (if st'.chats == st.chats then 0 else BatchSize(env, st.chats))
            && st'.budget.usedToolCalls == (st.budget.usedToolCalls + (st'.dispatches - st.dispatches)) % 0x1_0000_0000
  {
    hide CurrentContext, IsValidTransition, RunTools;
    if env.chat(st.chats).Answers? {
      var asked, response := Asked(env, req, st), env.chat(st.chats).response;
      ToolsCount(env, Move(Parsed(asked, response), ExecutingTools), response.toolCalls);
    }
  }

  /** No other step touches them. */
  lemma OtherStepsCountNothing(env: Environment, req: RunRequest, st: RunState)
    requires st.state != AwaitingModel || IsExhausted(st.budget)
    ensures var st' := Step(env, req, st).st;
            st'.chats == st.chats && st'.dispatches == st.dispatches && st'.budget == st.budget
  {
    hide CurrentContext, IsValidTransition, IsExhausted;
  }

  lemma CounterFitsNext(env: Environment, req: RunRequest, n: nat)
    ensures CounterFits(env, req, n + 1) <==>
            CounterFits(env, req, n) && InitialBudget(req).maxToolCalls + BatchSize(env, n) <= 0x1_0000_0000
  {
    hide InitialBudget, BatchSize;
  }

  lemma AskingIsBounded(env: Environment, req: RunRequest, st: RunState)
    requires Bounded(env, req, st) && st.budget.usedToolCalls < st.budget.maxToolCalls
    ensures Bounded(env, req, AskModel(env, req, st).st)
  {
    hide AskModel, CounterFits, InitialBudget, BatchSize;
    var st', start := AskModel(env, req, st).st, InitialBudget(req);
    AskingCounts(env, req, st);
    CounterFitsNext(env, req, st.chats);
    AddWraps(start.usedToolCalls + st.dispatches, st'.dispatches - st.dispatches);
  }

  lemma StepIsBounded(env: Environment, req: RunRequest, st: RunState)
    requires Bounded(env, req, st)
    ensures Bounded(env, req, Step(env, req, st).st)
  {
    hide CounterFits, InitialBudget, BatchSize, AskModel, BuildFirst, Verify, Move;
    if st.state != AwaitingModel || IsExhausted(st.budget) {
      OtherStepsCountNothing(env, req, st);
    } else {
      AskingIsBounded(env, req, st.(polls := st.polls + 1));
    }
  }

  lemma BoundedAtTheEnd(env: Environment, req: RunRequest, st: RunState)
    requires Bounded(env, req, st)
    ensures Bounded(env, req, End(env, st).st)
  {
    hide CounterFits, InitialBudget, BatchSize;
  }

  lemma {:induction false} LoopIsBounded(env: Environment, req: RunRequest, st: RunState)
    requires Bounded(env, req, st)
    ensures Bounded(env, req, RunFrom(env, req, st).st)
    decreases TurnsLeft(st.budget), Rank(st.state)
  {
    hide Step, Bounded, Settle;
    if IsTerminal(st.state) {
      BoundedAtTheEnd(env, req, st);
    } else {
      StepIsBounded(env, req, st);
      var st' := Step(env, req, st).st;
      if Step(env, req, st).Continue? {
        StepProgresses(env, req, st);
        LoopIsBounded(env, req, st');
      } else {
        BoundedAtTheEnd(env, req, st');
      }
    }
  }

  /**
   * In every run the counter passes the limit by less than the size of the last batch; an empty batch passes nothing.
   * It counts the tool calls modulo 2^32, and does not wrap around unless some batch that was asked for is very long.
   */
  lemma ToolOvershoot(env: Environment, req: RunRequest)
    ensures var st, start := Run(env, req).st, InitialBudget(req);
            && st.budget.usedToolCalls == (start.usedToolCalls + st.dispatches) % 0x1_0000_0000
            && (CounterFits(env, req, st.chats) ==> st.budget.usedToolCalls == start.usedToolCalls + st.dispatches)
            && (st.chats == 0 ==> st.dispatches == 0)
            && (0 < st.chats ==>
                  || st.budget.usedToolCalls < start.maxToolCalls
                  || st.budget.usedToolCalls - start.maxToolCalls < BatchSize(env, st.chats - 1))
  {
    hide CounterFits, RunFrom;
    LoopIsBounded(env, req, InitialState(req));
  }

  // ----- prompts

  /** Nothing changes on disk between the context builds. */
  ghost predicate FixedWorkspace(env: Environment, ws: Workspace) {
    forall n: nat :: env.workspace(n) == ws
  }

  /** Every prompt so far extends the ones before it, and the next context would extend them all. */
  ghost predicate Growing(req: RunRequest, ws: Workspace, st: RunState) {
    && (forall i, j :: 0 <= i <= j < |st.prompts| ==> st.prompts[i].items <= st.prompts[j].items)
    && (forall i :: 0 <= i < |st.prompts| ==> st.prompts[i].items <= BuildContext(ws, ContextRequest(req, st)).items)
  }

  lemma PrefixTransitive<T>(a: seq<T>, b: seq<T>, c: seq<T>)
    requires a <= b <= c
    ensures a <= c
  {
  }

  /** A longer conversation keeps the prompts growing. */
  lemma LongerConversation(req: RunRequest, ws: Workspace, st: RunState, st': RunState)
    requires Growing(req, ws, st)
    requires st'.prompts == st.prompts && st.conversation <= st'.conversation
    requires st'.budget.maxInputTokens == st.budget.maxInputTokens
    ensures Growing(req, ws, st')
  {
    hide BuildContext;
    var r := ContextRequest(req, st);
    var more := st'.conversation[|st.conversation|..];
    assert st'.conversation == st.conversation + more;
    ContextGrows(ws, r, more);
    assert ContextRequest(req, st') == r.(conversation := r.conversation + more);
    forall i | 0 <= i < |st.prompts| ensures st.prompts[i].items <= BuildContext(ws, ContextRequest(req, st')).items {
      PrefixTransitive(st.prompts[i].items, BuildContext(ws, r).items,
                       BuildContext(ws, ContextRequest(req, st')).items);
    }
  }

  lemma {:induction false} ToolsExtend(env: Environment, st: RunState, calls: seq<ToolCall>)
    ensures var st' := RunTools(env, st, calls).st;
            && st'.prompts == st.prompts && st.conversation <= st'.conversation
            && st'.budget.maxInputTokens == st.budget.maxInputTokens
    decreases |calls|
  {
    hide IsValidTransition;
    if calls != [] && !env.cancelled(st.polls) && env.dispatch(st.dispatches).Dispatched? {
      var o := env.dispatch(st.dispatches);
      if !IsDenial(o) {
        var observed := Observe(CountDispatch(st.(polls := st.polls + 1)), calls[0], o.result);
        ToolsExtend(env, observed, calls[1..]);
        PrefixTransitive(st.conversation, observed.conversation, RunTools(env, observed, calls[1..]).st.conversation);
      }
    }
  }

  lemma AskingGrows(env: Environment, req: RunRequest, ws: Workspace, st: RunState)
    requires FixedWorkspace(env, ws) && Growing(req, ws, st)
    ensures Growing(req, ws, AskModel(env, req, st).st)
  {
    hide BuildContext, IsValidTransition, RunTools;
    var asked := Asked(env, req, st);
    assert asked.prompts == st.prompts + [BuildContext(ws, ContextRequest(req, st))];
    assert ContextRequest(req, asked) == ContextRequest(req, st);
    assert Growing(req, ws, asked);
    if env.buildThrows(st.builds) || env.cancelled(st.polls) {
      LongerConversation(req, ws, st, AskModel(env, req, st).st);
    } else if env.chat(st.chats).Answers? {
      var response := env.chat(st.chats).response;
      ToolsExtend(env, Move(Parsed(asked, response), ExecutingTools), response.toolCalls);
      LongerConversation(req, ws, asked, AskModel(env, req, st).st);
    }
  }

  lemma StepGrows(env: Environment, req: RunRequest, ws: Workspace, st: RunState)
    requires FixedWorkspace(env, ws) && Growing(req, ws, st)
    ensures Growing(req, ws, Step(env, req, st).st)
  {
    hide BuildContext, IsValidTransition, AskModel, Growing, CurrentContext;
    var polled := st.(polls := st.polls + 1);
    LongerConversation(req, ws, st, polled);
    if st.state == AwaitingModel && !env.cancelled(st.polls) && !IsExhausted(st.budget) {
      AskingGrows(env, req, ws, polled);
    } else {
      LongerConversation(req, ws, polled, Step(env, req, st).st);
    }
  }

  lemma {:induction false} LoopGrows(env: Environment, req: RunRequest, ws: Workspace, st: RunState)
    requires FixedWorkspace(env, ws) && Growing(req, ws, st)
    ensures Growing(req, ws, RunFrom(env, req, st).st)
    decreases TurnsLeft(st.budget), Rank(st.state)
  {
    hide Step, Growing, FixedWorkspace;
    if IsTerminal(st.state) {
      LongerConversation(req, ws, st, End(env, st).st);
    } else {
      StepGrows(env, req, ws, st);
      var st' := Step(env, req, st).st;
      if Step(env, req, st).Continue? {
        StepProgresses(env, req, st);
        LoopGrows(env, req, ws, st');
      } else {
        LongerConversation(req, ws, st', RunFrom(env, req, st).st);
      }
    }
  }

  /** In a workspace that does not change, the model's context only ever grows from turn to turn. */
  lemma PromptsGrow(env: Environment, req: RunRequest, ws: Workspace, i: nat, j: nat)
    requires FixedWorkspace(env, ws) && i <= j < |Run(env, req).st.prompts|
    ensures Run(env, req).st.prompts[i].items <= Run(env, req).st.prompts[j].items
  {
    LoopGrows(env, req, ws, InitialState(req));
  }

  // ----- model calls

  /** Asking takes the turn it is charged for. */
  lemma AskingTakesTurn(env: Environment, req: RunRequest, st: RunState)
    requires st.budget.usedTurns < st.budget.maxTurns
    ensures |AskModel(env, req, st).st.prompts| <= |st.prompts| + 1
    ensures AskModel(env, req, st).Continue? ==> TurnsLeft(AskModel(env, req, st).st.budget) == TurnsLeft(st.budget) - 1
  {
    hide IsValidTransition, RunTools, CurrentContext;
    if env.chat(st.chats).Answers? {
      var response := env.chat(st.chats).response;
      ToolsExtend(env, Move(Parsed(Asked(env, req, st), response), ExecutingTools), response.toolCalls);
    }
    if AskModel(env, req, st).Continue? {
      AskingUsesTurn(env, req, st);
    }
  }

  lemma StepTakesTurn(env: Environment, req: RunRequest, st: RunState)
    ensures var r := Step(env, req, st);
            |r.st.prompts| + (if r.Continue? then TurnsLeft(r.st.budget) else 0) <= |st.prompts| + TurnsLeft(st.budget)
  {
    hide IsValidTransition, AskModel, CurrentContext;
    if st.state == AwaitingModel && !IsExhausted(st.budget) {
      AskingTakesTurn(env, req, st.(polls := st.polls + 1));
    }
  }

  lemma {:induction false} LoopTakesTurns(env: Environment, req: RunRequest, st: RunState)
    ensures |RunFrom(env, req, st).st.prompts| <= |st.prompts| + TurnsLeft(st.budget)
    decreases TurnsLeft(st.budget), Rank(st.state)
  {
    hide Step;
    if !IsTerminal(st.state) {
      StepTakesTurn(env, req, st);
      if Step(env, req, st).Continue? {
        StepProgresses(env, req, st);
        LoopTakesTurns(env, req, Step(env, req, st).st);
      }
    }
  }

  /**
   * No run calls the model more often than it has turns, even if the last call throws; without budget it never
   * does.
   */
  lemma ModelCallsAreBounded(env: Environment, req: RunRequest)
    ensures |Run(env, req).st.prompts| <= TurnsLeft(InitialBudget(req))
    ensures IsExhausted(InitialBudget(req)) ==> Run(env, req).st.prompts == []
  {
    hide Step;
    var first := InitialState(req);
    LoopTakesTurns(env, req, first);
    if IsExhausted(InitialBudget(req)) {
      NothingAsked(env, req, first);
    }
  }

  lemma NothingAsked(env: Environment, req: RunRequest, st: RunState)
    requires IsExhausted(st.budget)
    ensures !Step(env, req, st).Continue? && Step(env, req, st).st.prompts == st.prompts
  {
  }
}
