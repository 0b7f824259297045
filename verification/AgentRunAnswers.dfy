/** What a run answers, why it failed, and what it has charged to the token budget. */
module AgentRunAnswers {
  import opened Wrappers
  import opened AgentTypes
  import opened StateMachines
  import opened AgentRuns
  import opened AgentRunFacts
  import opened AgentRunBounds

  const VERIFICATION_NOTE := "\n[verification failed]"

  /** The last answer of the model asked for no tools. */
  predicate HasLastWord(env: Environment, st: RunState) {
    0 < st.chats && env.chat(st.chats - 1).Answers? && env.chat(st.chats - 1).response.toolCalls == []
  }

  function LastWord(env: Environment, st: RunState): string
    requires HasLastWord(env, st)
  {
    env.chat(st.chats - 1).response.content
  }

  predicate MustVerify(req: RunRequest) { req.verify && req.mode == Agent }

  predicate VerifierAccepts(env: Environment) {
    env.verifier.Verified? && env.verifier.buildOk && env.verifier.testsOk
  }

  function DenialMessage(o: ToolOutcome): string
    requires IsDenial(o)
  {
    o.result.value.error.value.message
  }

  /** The completed run: its answer is the model's last word, with a note if tools were used and verification failed. */
  predicate CompletedWell(env: Environment, req: RunRequest, st: RunState) {
    && HasLastWord(env, st)
    && st.completion == (if MustVerify(req) && VerifierAccepts(env) then ImplementedVerified else CompletedUnverified)
    && st.answer == LastWord(env, st) +
                    if MustVerify(req) && !VerifierAccepts(env) && 0 < st.dispatches then VERIFICATION_NOTE else ""
  }

  /** The failed run: out of budget, or a tool was denied. */
  predicate FailedForReason(env: Environment, st: RunState) {
    || (st.answer == "Budget exhausted" && IsExhausted(st.budget))
    || (Denied(env, st) && st.answer == DenialMessage(env.dispatch(st.dispatches - 1)))
  }

  ghost predicate Told(env: Environment, req: RunRequest, st: RunState) {
    && (st.hadToolCalls <==> 0 < st.dispatches)
    && (st.state == Verifying ==> MustVerify(req) && HasLastWord(env, st) && st.answer == LastWord(env, st))
    && (st.state == Completed ==> CompletedWell(env, req, st))
    && (st.state == Failed ==> FailedForReason(env, st))
  }

  lemma {:induction false} ToolsTell(env: Environment, req: RunRequest, st: RunState, calls: seq<ToolCall>)
    requires st.state == ExecutingTools && (st.hadToolCalls <==> 0 < st.dispatches)
    requires RunTools(env, st, calls).Continue?
    ensures Told(env, req, RunTools(env, st, calls).st)
    decreases |calls|
  {
    hide IsValidTransition, IsExhausted, CompletedWell, MustVerify;
    AllowedMoves();
    if calls != [] {
      var polled := st.(polls := st.polls + 1);
      var o := env.dispatch(st.dispatches);
      if !IsDenial(o) {
        ToolsTell(env, req, Observe(CountDispatch(polled), calls[0], o.result), calls[1..]);
      }
    }
  }

  lemma AskingTells(env: Environment, req: RunRequest, st: RunState)
    requires st.state == AwaitingModel && (st.hadToolCalls <==> 0 < st.dispatches)
    requires AskModel(env, req, st).Continue?
    ensures Told(env, req, AskModel(env, req, st).st)
  {
    hide IsValidTransition, RunTools, CurrentContext, IsExhausted, FailedForReason;
    AllowedMoves();
    var asked, response := Asked(env, req, st), env.chat(st.chats).response;
    var parsed := Parsed(asked, response);
    if response.toolCalls != [] {
      ToolsTell(env, req, Move(parsed, ExecutingTools), response.toolCalls);
    } else {
      assert response.content + "" == response.content;
    }
  }

  lemma VerifyTells(env: Environment, req: RunRequest, st: RunState)
    requires Told(env, req, st) && st.state == Verifying && !Verify(env, st).Throw?
    ensures Told(env, req, Verify(env, st).st)
  {
    hide IsValidTransition;
    AllowedMoves();
    assert st.answer + "" == st.answer;
  }

  lemma StepTells(env: Environment, req: RunRequest, st: RunState)
    requires Told(env, req, st) && OnTheWay(st.state) && !Step(env, req, st).Throw?
    ensures Told(env, req, Step(env, req, st).st)
  {
    hide IsValidTransition, AskModel, Verify, CurrentContext, CompletedWell, MustVerify, HasLastWord;
    AllowedMoves();
    var polled := st.(polls := st.polls + 1);
    TellingIgnoresPolls(env, req, st, polled);
    if !IsExhausted(st.budget) {
      if st.state == AwaitingModel {
        AskingNeverLeaves(env, req, polled);
        AskingTells(env, req, polled);
      } else if st.state == Verifying {
        VerifyTells(env, req, polled);
      }
    }
  }

  lemma TellingIgnoresPolls(env: Environment, req: RunRequest, st: RunState, polled: RunState)
    requires Told(env, req, st) && polled == st.(polls := st.polls + 1)
    ensures Told(env, req, polled)
  {
  }

  lemma {:induction false} LoopTells(env: Environment, req: RunRequest, st: RunState)
    requires Sound(env, req, st) && (OnTheWay(st.state) || st.state in {Completed, Failed})
    requires Told(env, req, st) && RunFrom(env, req, st).Returned?
    ensures Told(env, req, RunFrom(env, req, st).st)
    decreases TurnsLeft(st.budget), Rank(st.state)
  {
    hide Sound, Told, Step, Finish;
    if st.state in {Completed, Failed} {
      FinishTells(env, req, st);
    } else {
      StepKeeps(env, req, st);
      StepTells(env, req, st);
      var next := Step(env, req, st).st;
      if Step(env, req, st).Continue? {
        StepProgresses(env, req, st);
        LoopTells(env, req, next);
      } else {
        FinishTells(env, req, next);
      }
    }
  }

  lemma FinishTells(env: Environment, req: RunRequest, st: RunState)
    requires Sound(env, req, st) && Told(env, req, st) && st.state in {Completed, Failed}
    ensures Told(env, req, Finish(st))
  {
    FinishOnlyLogs(env, req, st);
  }

  /**
   * Every run that comes back says what the model said last, or why it failed; verified means that the verifier
   * said so.
   */
  lemma ReturnedRunTellsTruth(env: Environment, req: RunRequest)
    requires Run(env, req).Returned?
    ensures var st := Run(env, req).st;
            && (st.state == Completed ==> CompletedWell(env, req, st))
            && (st.state == Failed ==> FailedForReason(env, st))
            && st.state in {Completed, Failed}
  {
    hide Sound, Finish, CompletedWell, FailedForReason;
    InitiallySound(env, req);
    LoopTells(env, req, InitialState(req));
    ReturnedRunIsJudged(env, req);
  }

  // ----- tokens

  /** What the first n answers report to have used. */
  function PromptTokens(env: Environment, n: nat): nat {
    if n == 0 then 0
    else
      PromptTokens(env, n - 1) +
      if env.chat(n - 1).Answers? && env.chat(n - 1).response.usage.Some?
      then env.chat(n - 1).response.usage.value.promptTokens else 0
  }

  function CompletionTokens(env: Environment, n: nat): nat {
    if n == 0 then 0
    else
      CompletionTokens(env, n - 1) +
      if env.chat(n - 1).Answers? && env.chat(n - 1).response.usage.Some?
      then env.chat(n - 1).response.usage.value.completionTokens else 0
  }

  /** The token counters have added up, in 64 bits, what all the answers so far have reported. */
  ghost predicate Charged(env: Environment, req: RunRequest, st: RunState) {
    var start := InitialBudget(req);
    && st.budget.usedInputTokens == (start.usedInputTokens + PromptTokens(env, st.chats)) % 0x1_0000_0000_0000_0000
    && st.budget.usedOutputTokens ==
       (start.usedOutputTokens + CompletionTokens(env, st.chats)) % 0x1_0000_0000_0000_0000
  }

  lemma TokensWrap(a: nat, b: nat)
    ensures ((a % 0x1_0000_0000_0000_0000) + b) % 0x1_0000_0000_0000_0000 == (a + b) % 0x1_0000_0000_0000_0000
  {
  }

  lemma {:induction false} ToolsChargeNothing(env: Environment, st: RunState, calls: seq<ToolCall>)
    ensures var st' := RunTools(env, st, calls).st;
            && st'.chats == st.chats
            && st'.budget.usedInputTokens == st.budget.usedInputTokens
            && st'.budget.usedOutputTokens == st.budget.usedOutputTokens
    decreases |calls|
  {
    hide IsValidTransition;
    if calls != [] && !env.cancelled(st.polls) && env.dispatch(st.dispatches).Dispatched? {
      var o := env.dispatch(st.dispatches);
      if !IsDenial(o) {
        ToolsChargeNothing(env, Observe(CountDispatch(st.(polls := st.polls + 1)), calls[0], o.result), calls[1..]);
      }
    }
  }

  lemma ParsedBudget(st: RunState, response: Response)
    ensures var b := Parsed(st, response).budget;
            && Parsed(st, response).chats == st.chats + 1
            && b.usedInputTokens ==
               (if response.usage.Some? then Add64(st.budget.usedInputTokens, response.usage.value.promptTokens)
                                     else st.budget.usedInputTokens)
            && b.usedOutputTokens ==
               (if response.usage.Some? then Add64(st.budget.usedOutputTokens, response.usage.value.completionTokens)
                                      else st.budget.usedOutputTokens)
  {
    hide Next, Add64;
  }

  lemma ParsedIsCharged(env: Environment, req: RunRequest, st: RunState, asked: RunState)
    requires Charged(env, req, st) && env.chat(st.chats).Answers?
    requires asked.budget == st.budget && asked.chats == st.chats
    ensures Charged(env, req, Parsed(asked, env.chat(st.chats).response))
  {
    hide Parsed, InitialBudget;
    var response, start := env.chat(st.chats).response, InitialBudget(req);
    ParsedBudget(asked, response);
    if response.usage.Some? {
      TokensWrap(start.usedInputTokens + PromptTokens(env, st.chats), response.usage.value.promptTokens);
      TokensWrap(start.usedOutputTokens + CompletionTokens(env, st.chats), response.usage.value.completionTokens);
    }
  }

  lemma AskingIsCharged(env: Environment, req: RunRequest, st: RunState)
    requires Charged(env, req, st)
    ensures Charged(env, req, AskModel(env, req, st).st)
  {
    hide CurrentContext, Next, RunTools, Charge, InitialBudget, PromptTokens, CompletionTokens;
    if env.chat(st.chats).Answers? {
      var asked, response := Asked(env, req, st), env.chat(st.chats).response;
      ParsedIsCharged(env, req, st, asked);
      ToolsChargeNothing(env, Move(Parsed(asked, response), ExecutingTools), response.toolCalls);
    }
  }

  lemma StepIsCharged(env: Environment, req: RunRequest, st: RunState)
    requires Charged(env, req, st)
    ensures Charged(env, req, Step(env, req, st).st)
  {
    hide AskModel, BuildFirst, Verify, Move, IsExhausted, InitialBudget, PromptTokens, CompletionTokens;
    if st.state == AwaitingModel && !IsExhausted(st.budget) {
      AskingIsCharged(env, req, st.(polls := st.polls + 1));
    } else {
      OtherStepsCountNothing(env, req, st);
    }
  }

  lemma ChargedAtTheEnd(env: Environment, req: RunRequest, st: RunState)
    requires Charged(env, req, st)
    ensures Charged(env, req, End(env, st).st)
  {
    hide InitialBudget, PromptTokens, CompletionTokens;
  }

  lemma {:induction false} LoopIsCharged(env: Environment, req: RunRequest, st: RunState)
    requires Charged(env, req, st)
    ensures Charged(env, req, RunFrom(env, req, st).st)
    decreases TurnsLeft(st.budget), Rank(st.state)
  {
    hide Step, Charged, Settle;
    if IsTerminal(st.state) {
      ChargedAtTheEnd(env, req, st);
    } else {
      StepIsCharged(env, req, st);
      var st' := Step(env, req, st).st;
      if Step(env, req, st).Continue? {
        StepProgresses(env, req, st);
        LoopIsCharged(env, req, st');
      } else {
        ChargedAtTheEnd(env, req, st');
      }
    }
  }

  /** Whether it comes back or throws, a run has charged exactly the tokens its answers reported. */
  lemma RunChargesTokens(env: Environment, req: RunRequest)
    ensures var st, start := Run(env, req).st, InitialBudget(req);
            && st.budget.usedInputTokens ==
               (start.usedInputTokens + PromptTokens(env, st.chats)) % 0x1_0000_0000_0000_0000
            && st.budget.usedOutputTokens ==
               (start.usedOutputTokens + CompletionTokens(env, st.chats)) % 0x1_0000_0000_0000_0000
  {
    hide RunFrom;
    LoopIsCharged(env, req, InitialState(req));
  }
}
