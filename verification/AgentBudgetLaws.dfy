/** What the budget means for a whole run, counter by counter. */
module AgentBudgetLaws {
  import opened Wrappers
  import opened AgentTypes
  import opened StateMachines
  import opened AgentRuns
  import opened AgentRunFacts
  import opened AgentRunAnswers
  import opened AgentRunHistory

  // ----- limits do not change

  /** Everything of a budget that a run only reads. */
  predicate SameLimits(a: Budget, b: Budget) {
    && a.maxTurns == b.maxTurns && a.maxToolCalls == b.maxToolCalls && a.maxSubagents == b.maxSubagents
    && a.maxInputTokens == b.maxInputTokens && a.maxOutputTokens == b.maxOutputTokens
    && a.usedSubagents == b.usedSubagents
  }

  lemma {:induction false} ToolsKeepLimits(env: Environment, st: RunState, calls: seq<ToolCall>)
    ensures SameLimits(RunTools(env, st, calls).st.budget, st.budget)
    ensures RunTools(env, st, calls).st.prompts == st.prompts
    decreases |calls|
  {
    hide IsValidTransition, Add32;
    if calls != [] && env.dispatch(st.dispatches).Dispatched? {
      var next := Observe(CountDispatch(st.(polls := st.polls + 1)), calls[0], env.dispatch(st.dispatches).result);
      ToolsKeepLimits(env, next, calls[1..]);
    }
  }

  lemma AskingKeepsLimits(env: Environment, req: RunRequest, st: RunState)
    ensures SameLimits(AskModel(env, req, st).st.budget, st.budget)
    ensures var prompts := AskModel(env, req, st).st.prompts;
            prompts == st.prompts || prompts == st.prompts + [CurrentContext(env, req, st)]
  {
    hide IsValidTransition, RunTools, CurrentContext, Add32, Add64;
    if env.chat(st.chats).Answers? {
      var response := env.chat(st.chats).response;
      ToolsKeepLimits(env, Move(Parsed(Asked(env, req, st), response), ExecutingTools), response.toolCalls);
    }
  }

  // ----- the model is only asked while nothing is used up

  /** Before the n-th question no limit has been reached. */
  ghost predicate SomethingLeft(env: Environment, req: RunRequest, n: nat) {
    var b := InitialBudget(req);
    && b.usedTurns + n < b.maxTurns
    && (b.usedToolCalls + CallsBefore(env, n)) % 0x1_0000_0000 < b.maxToolCalls
    && b.usedSubagents < b.maxSubagents
    && (b.usedInputTokens + PromptTokens(env, n)) % 0x1_0000_0000_0000_0000 < b.maxInputTokens
    && (b.usedOutputTokens + CompletionTokens(env, n)) % 0x1_0000_0000_0000_0000 < b.maxOutputTokens
  }

  ghost predicate AskedInBudget(env: Environment, req: RunRequest, st: RunState) {
    && SameLimits(st.budget, InitialBudget(req))
    && forall n :: 0 <= n < |st.prompts| ==> SomethingLeft(env, req, n)
  }

  lemma SomethingIsLeft(env: Environment, req: RunRequest, st: RunState)
    requires Sound(env, req, st) && UpToDate(env, req, st) && Charged(env, req, st) && AskedInBudget(env, req, st)
    requires st.state == AwaitingModel && !IsExhausted(st.budget)
    ensures SomethingLeft(env, req, |st.prompts|)
  {
    hide InitialBudget, Judged, Open, Denied, Remembers, CallsBefore, PromptTokens, CompletionTokens;
  }

  lemma StepAsksInBudget(env: Environment, req: RunRequest, st: RunState)
    requires Sound(env, req, st) && UpToDate(env, req, st) && Charged(env, req, st) && AskedInBudget(env, req, st)
    requires OnTheWay(st.state)
    ensures AskedInBudget(env, req, Step(env, req, st).st)
  {
    hide InitialBudget, Sound, UpToDate, Charged, SomethingLeft, AskModel, IsExhausted, CurrentContext, Next;
    if st.state == AwaitingModel && !IsExhausted(st.budget) {
      SomethingIsLeft(env, req, st);
      AskingKeepsLimits(env, req, st.(polls := st.polls + 1));
    }
  }

  lemma {:induction false} LoopAsksInBudget(env: Environment, req: RunRequest, st: RunState)
    requires Sound(env, req, st) && UpToDate(env, req, st) && Charged(env, req, st) && AskedInBudget(env, req, st)
    requires OnTheWay(st.state) || st.state in {Completed, Failed}
    ensures AskedInBudget(env, req, RunFrom(env, req, st).st)
    decreases TurnsLeft(st.budget), Rank(st.state)
  {
    hide Sound, UpToDate, Charged, Step, SomethingLeft, InitialBudget;
    if !IsTerminal(st.state) {
      StepKeeps(env, req, st);
      StepRemembers(env, req, st);
      StepIsCharged(env, req, st);
      StepAsksInBudget(env, req, st);
      if Step(env, req, st).Continue? {
        StepProgresses(env, req, st);
        LoopAsksInBudget(env, req, Step(env, req, st).st);
      }
    }
  }

  /**
   * In every run the model is asked for the n-th time only if turns, tool calls, subagents, input and output tokens are
   * all left, counting what the answers before it have used.
   */
  lemma AskedWhileSomethingIsLeft(env: Environment, req: RunRequest, n: nat)
    requires n < |Run(env, req).st.prompts|
    ensures SomethingLeft(env, req, n)
  {
    hide RunFrom, InitialBudget, SomethingLeft;
    if !env.appendThrows(0) {
      InitiallySound(env, req);
      LoopAsksInBudget(env, req, InitialState(req));
    }
  }

  /** A run that comes back failed has been denied a tool call, or one of the five counters has reached its limit. */
  lemma FailureHasReason(env: Environment, req: RunRequest)
    requires Run(env, req).Returned? && Run(env, req).st.state == Failed
    ensures var st := Run(env, req).st;
            var b := st.budget;
            || (0 < st.dispatches && env.dispatch(st.dispatches - 1).Dispatched?
                && env.dispatch(st.dispatches - 1).result.Some?
                && env.dispatch(st.dispatches - 1).result.value.error.Some?
                && env.dispatch(st.dispatches - 1).result.value.error.value == ToolError(true, st.answer))
            || (st.answer == "Budget exhausted"
                && (|| b.usedTurns >= b.maxTurns || b.usedToolCalls >= b.maxToolCalls
                    || b.usedSubagents >= b.maxSubagents || b.usedInputTokens >= b.maxInputTokens
                    || b.usedOutputTokens >= b.maxOutputTokens))
  {
    hide Run, CompletedWell;
    ReturnedRunTellsTruth(env, req);
  }

  /** The limits of a run are those of its request, or for one without turns those of its mode. */
  lemma InitialLimits(req: RunRequest)
    ensures Unstarted(req).budget == if req.budget.maxTurns > 0 then req.budget else DefaultBudget(req.mode)
  {
  }

  /** The limits of each mode. */
  lemma DefaultLimits(mode: AgentMode)
    ensures var b := DefaultBudget(mode);
            && b.usedTurns == b.usedToolCalls == b.usedSubagents == 0 && b.usedInputTokens == b.usedOutputTokens == 0
            && b.maxInputTokens == 128000 && b.maxOutputTokens == 16000
            && (mode == Chat ==> (b.maxTurns, b.maxToolCalls, b.maxSubagents) == (20, 0, 0))
            && (mode in {Ask, Plan, Review} ==> (b.maxTurns, b.maxToolCalls, b.maxSubagents) == (20, 40, 0))
            && (mode == Research ==> (b.maxTurns, b.maxToolCalls, b.maxSubagents) == (100, 200, 4))
            && (mode == Data ==> (b.maxTurns, b.maxToolCalls, b.maxSubagents) == (40, 80, 2))
            && (mode in {Agent, Debug} ==> (b.maxTurns, b.maxToolCalls, b.maxSubagents) == (40, 100, 2))
  {
  }
}
