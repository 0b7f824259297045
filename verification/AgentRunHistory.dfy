/** What a run remembers and what it shows the model, told from what model and tools did. */
module AgentRunHistory {
  import opened Wrappers
  import opened StateMachines
  import opened ContextBuilders
  import opened ContextLaws
  import opened AgentRuns
  import opened AgentRunFacts
  import opened AgentRunBounds

  // ----- the conversation

  const CONTEXT_BUILT := ("assistant", "context built")

  /** What the first n dispatched calls leave in the conversation: their contents, and nothing for a denied one. */
  function ToolEntries(env: Environment, n: nat): seq<(string, string)> {
    if n == 0 then []
    else
      ToolEntries(env, n - 1) +
      match env.dispatch(n - 1)
      case ToolThrows => []
      case Dispatched(None) => [("tool", "tool failed")]
      case Dispatched(Some(ToolResult(_, content, None))) => [("tool", content)]
      case Dispatched(Some(ToolResult(_, content, Some(ToolError(isPermission, _))))) =>
        if isPermission then [] else [("tool", content)]
  }

  /** How many calls the first n answers ask for. */
  function CallsBefore(env: Environment, n: nat): nat {
    if n == 0 then 0 else CallsBefore(env, n - 1) + BatchSize(env, n - 1)
  }

  /** The request for the n-th context the model is asked with. */
  function PromptRequest(env: Environment, req: RunRequest, n: nat): BuildRequest {
    BuildRequest(req.goal, [CONTEXT_BUILT] + ToolEntries(env, CallsBefore(env, n)), [],
                 InitialBudget(req).maxInputTokens)
  }

  /** Conversation and prompts are those of the calls made so far. */
  ghost predicate Remembers(env: Environment, req: RunRequest, st: RunState) {
    && (st.conversation == [] ==> st.dispatches == 0 && st.prompts == [])
    && (st.conversation != [] ==> st.conversation == [CONTEXT_BUILT] + ToolEntries(env, st.dispatches))
    && (forall i :: 0 <= i < |st.prompts| ==>
                      st.prompts[i] == BuildContext(env.workspace(i + 1), PromptRequest(env, req, i)))
  }

  /** At the head of the loop: all calls that were asked for have been made. */
  ghost predicate UpToDate(env: Environment, req: RunRequest, st: RunState) {
    && Remembers(env, req, st)
    && st.budget.maxInputTokens == InitialBudget(req).maxInputTokens
    && (st.state in {Initializing, BuildingContext} ==> st.conversation == [] && st.builds == 0 && st.chats == 0)
    && (st.state in {AwaitingModel, Observing} ==>
          && st.conversation != [] && st.builds == st.chats + 1 && |st.prompts| == st.chats
          && st.dispatches == CallsBefore(env, st.chats))
  }

  lemma {:induction false} ToolsRemember(env: Environment, st: RunState, calls: seq<ToolCall>)
    requires st.conversation == [CONTEXT_BUILT] + ToolEntries(env, st.dispatches) && st.state == ExecutingTools
    ensures var r := RunTools(env, st, calls);
            && r.st.conversation == [CONTEXT_BUILT] + ToolEntries(env, r.st.dispatches)
            && (r.Continue? && r.st.state == Observing ==> r.st.dispatches == st.dispatches + |calls|)
            && (r.Continue? ==> r.st.state in {Observing, Failed})
            && r.st.prompts == st.prompts && r.st.builds == st.builds && r.st.chats == st.chats
            && r.st.budget.maxInputTokens == st.budget.maxInputTokens
    decreases |calls|
  {
    hide IsValidTransition;
    AllowedMoves();
    if calls != [] && !env.cancelled(st.polls) && env.dispatch(st.dispatches).Dispatched? {
      var o := env.dispatch(st.dispatches);
      assert ToolEntries(env, st.dispatches + 1) ==
             ToolEntries(env, st.dispatches) + if IsDenial(o) then [] else [("tool", Observation(o.result))];
      if !IsDenial(o) {
        ToolsRemember(env, Observe(CountDispatch(st.(polls := st.polls + 1)), calls[0], o.result), calls[1..]);
      }
    }
  }

  lemma AskedRemembers(env: Environment, req: RunRequest, st: RunState)
    requires UpToDate(env, req, st) && st.state == AwaitingModel
    ensures var asked := Asked(env, req, st);
            && Remembers(env, req, asked) && asked.conversation == st.conversation && asked.state == AwaitingModel
            && |asked.prompts| == st.chats + 1 && asked.builds == st.chats + 2 && asked.chats == st.chats
            && asked.dispatches == st.dispatches && asked.budget == st.budget
  {
    hide BuildContext, InitialBudget, ToolEntries, CallsBefore;
    assert ContextRequest(req, st) == PromptRequest(env, req, st.chats);
  }

  /** An answer is counted; nothing else changes but state and log. */
  lemma AnsweredKeeps(st: RunState, response: Response)
    requires st.state == AwaitingModel
    ensures forall st' :: st' in {Answered(st, response), Parsed(st, response)} ==>
              && st'.state == ParsingResponse && st'.chats == st.chats + 1 && st'.conversation == st.conversation
              && st'.prompts == st.prompts && st'.dispatches == st.dispatches && st'.builds == st.builds
              && st'.budget.maxInputTokens == st.budget.maxInputTokens
  {
    hide IsValidTransition;
    AllowedMoves();
  }

  /** What is remembered depends on nothing else. */
  lemma RemembersToo(env: Environment, req: RunRequest, st: RunState, st': RunState)
    requires Remembers(env, req, st)
    requires st'.conversation == st.conversation && st'.prompts == st.prompts && st'.dispatches == st.dispatches
    ensures Remembers(env, req, st')
  {
    hide BuildContext, InitialBudget, ToolEntries, PromptRequest;
  }

  lemma MovesFromParsing(st: RunState)
    requires st.state == ParsingResponse
    ensures Move(st, ExecutingTools) == st.(state := ExecutingTools)
    ensures Move(st, Verifying) == st.(state := Verifying) && Move(st, Completed) == st.(state := Completed)
  {
    hide IsValidTransition;
    AllowedMoves();
  }

  lemma AskingRemembers(env: Environment, req: RunRequest, st: RunState)
    requires UpToDate(env, req, st) && st.state == AwaitingModel
    ensures Remembers(env, req, AskModel(env, req, st).st)
    ensures AskModel(env, req, st).Continue? ==> UpToDate(env, req, AskModel(env, req, st).st)
  {
    hide Asked, Answered, Parsed, Move, RunTools, Remembers, InitialBudget, ToolEntries;
    var asked := Asked(env, req, st);
    AskedRemembers(env, req, st);
    if env.buildThrows(st.builds) || env.cancelled(st.polls) {
      RemembersToo(env, req, st, AskModel(env, req, st).st);
    } else if env.chat(st.chats).Answers? {
      AnswerRemembers(env, req, asked, env.chat(st.chats).response);
    }
  }

  lemma AnswerRemembers(env: Environment, req: RunRequest, asked: RunState, response: Response)
    requires Remembers(env, req, asked) && asked.conversation != [] && asked.state == AwaitingModel
    requires |asked.prompts| == asked.chats + 1 && asked.builds == asked.chats + 2
    requires asked.dispatches == CallsBefore(env, asked.chats) && env.chat(asked.chats) == Answers(response)
    requires asked.budget.maxInputTokens == InitialBudget(req).maxInputTokens
    ensures var r := HandleResponse(env, req, asked, response);
            Remembers(env, req, r.st) && (r.Continue? ==> UpToDate(env, req, r.st))
  {
    hide Answered, Parsed, Move, RunTools, Remembers, InitialBudget, ToolEntries;
    var parsed := Parsed(asked, response);
    AnsweredKeeps(asked, response);
    RemembersToo(env, req, asked, Answered(asked, response));
    RemembersToo(env, req, asked, parsed);
    MovesFromParsing(parsed);
    MovesFromParsing(parsed.(answer := response.content));
    if response.toolCalls != [] && !LogFails(env, asked) {
      RemembersToo(env, req, parsed, parsed.(state := ExecutingTools));
      CallsRemember(env, req, parsed.(state := ExecutingTools), response);
    } else {
      RemembersToo(env, req, parsed, TakeAnswer(req, parsed, response.content));
    }
  }

  lemma CallsRemember(env: Environment, req: RunRequest, st: RunState, response: Response)
    requires Remembers(env, req, st) && st.conversation != [] && st.state == ExecutingTools && 0 < st.chats
    requires |st.prompts| == st.chats && st.builds == st.chats + 1
    requires st.dispatches == CallsBefore(env, st.chats - 1) && env.chat(st.chats - 1) == Answers(response)
    requires st.budget.maxInputTokens == InitialBudget(req).maxInputTokens
    ensures var r := RunTools(env, st, response.toolCalls);
            Remembers(env, req, r.st) && (r.Continue? ==> UpToDate(env, req, r.st))
  {
    hide InitialBudget, ToolEntries, RunTools, BuildContext, PromptRequest;
    ToolsRemember(env, st, response.toolCalls);
  }

  lemma StepRemembers(env: Environment, req: RunRequest, st: RunState)
    requires UpToDate(env, req, st) && OnTheWay(st.state)
    ensures Remembers(env, req, Step(env, req, st).st)
    ensures Step(env, req, st).Continue? ==> UpToDate(env, req, Step(env, req, st).st)
  {
    hide IsValidTransition, AskModel, CurrentContext, InitialBudget, BuildContext;
    AllowedMoves();
    if st.state == AwaitingModel {
      AskingRemembers(env, req, st.(polls := st.polls + 1));
    }
  }

  lemma {:induction false} LoopRemembers(env: Environment, req: RunRequest, st: RunState)
    requires Sound(env, req, st) && UpToDate(env, req, st)
    requires OnTheWay(st.state) || st.state in {Completed, Failed}
    ensures Remembers(env, req, RunFrom(env, req, st).st)
    decreases TurnsLeft(st.budget), Rank(st.state)
  {
    hide Sound, Step, Remembers, Settle;
    if IsTerminal(st.state) {
      RemembersAtTheEnd(env, req, st);
    } else {
      StepKeeps(env, req, st);
      StepRemembers(env, req, st);
      var st' := Step(env, req, st).st;
      if Step(env, req, st).Continue? {
        StepProgresses(env, req, st);
        LoopRemembers(env, req, st');
      } else {
        RemembersAtTheEnd(env, req, st');
      }
    }
  }

  lemma RemembersAtTheEnd(env: Environment, req: RunRequest, st: RunState)
    requires Remembers(env, req, st)
    ensures Remembers(env, req, End(env, st).st)
  {
    hide BuildContext, InitialBudget, ToolEntries, PromptRequest;
  }

  /**
   * In every run, returned or thrown: the conversation is empty, or holds that the context was built and then what each
   * dispatched call yielded, in order; a denied call leaves nothing.
   */
  lemma ConversationTellsCalls(env: Environment, req: RunRequest)
    ensures var st := Run(env, req).st;
            && (st.conversation == [] ==> st.dispatches == 0 && st.prompts == [])
            && (st.conversation != [] ==> st.conversation == [CONTEXT_BUILT] + ToolEntries(env, st.dispatches))
  {
    hide RunFrom, ToolEntries, BuildContext;
    if !env.appendThrows(0) {
      InitiallySound(env, req);
      LoopRemembers(env, req, InitialState(req));
    }
  }

  /**
   * In every run the model is asked for the n-th time with a context built from the goal and from what all the calls
   * its earlier answers asked for have yielded, in the workspace of that moment.
   */
  lemma PromptsShowCalls(env: Environment, req: RunRequest, n: nat)
    requires n < |Run(env, req).st.prompts|
    ensures Run(env, req).st.prompts[n] == BuildContext(env.workspace(n + 1), PromptRequest(env, req, n))
  {
    hide RunFrom, ToolEntries, BuildContext, InitialBudget;
    if !env.appendThrows(0) {
      InitiallySound(env, req);
      LoopRemembers(env, req, InitialState(req));
    }
  }

  /** So the model sees the goal and, as far as they fit, the yields of all calls, each with its label. */
  lemma ModelSeesCalls(env: Environment, req: RunRequest, n: nat) returns (from: nat, count: nat)
    requires n < |Run(env, req).st.prompts|
    ensures var prompt, entries := Run(env, req).st.prompts[n], [CONTEXT_BUILT] + ToolEntries(env, CallsBefore(env, n));
            && from + count == |prompt.items| && count <= |entries|
            && (forall i :: 0 <= i < count ==>
                              IsItem(prompt.items[from + i], Conversation, entries[i].0, entries[i].1))
            && (count < |entries| ==> InitialBudget(req).maxInputTokens < Spent(prompt.items) + Price(entries[count].1))
            && (!prompt.truncated ==> count == |entries| && IsItem(prompt.items[0], Goal, "goal", req.goal))
  {
    hide Run, RunFrom, ToolEntries, BuildContext, InitialBudget, IsItem, Spent;
    PromptsShowCalls(env, req, n);
    var ws, r := env.workspace(n + 1), PromptRequest(env, req, n);
    var l := ContextIsLaidOut(ws, r);
    from, count := l.starts[4], l.counts[4];
    var items := BuildContext(ws, r).items;
    assert items[..|items|] == items && l.starts[5] == |items|;
    LastSection(items, r, l);
    if !BuildContext(ws, r).truncated {
      WholeContext(ws, r);
      assert l.counts[4] == |Candidates(ws, r)[4].1|;
    }
  }

  lemma LastSection(items: seq<ContextItem>, r: BuildRequest, l: Layout)
    requires |l.starts| == 6 && |l.counts| == 5 && l.starts[5] == |items|
    requires Stands(items, r.tokenBudget, l.starts[4], l.counts[4], |items|, (Conversation, r.conversation))
    ensures l.starts[4] + l.counts[4] == |items| && l.counts[4] <= |r.conversation|
    ensures forall i :: 0 <= i < l.counts[4] ==>
                          IsItem(items[l.starts[4] + i], Conversation, r.conversation[i].0, r.conversation[i].1)
    ensures l.counts[4] < |r.conversation| ==>
              r.tokenBudget < Spent(items) + Price(r.conversation[l.counts[4]].1)
  {
    hide IsItem, Spent;
    assert items[..|items|] == items;
    ItemsStand(items, l.starts[4], |items|, (Conversation, r.conversation[..l.counts[4]]));
  }
}
