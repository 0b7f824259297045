/** What holds of every run: counting, verdicts, transitions and the shape of its log. */
module AgentRunFacts {
  import opened Wrappers
  import opened AgentTypes
  import opened StateMachines
  import opened EventTypes
  import opened AgentRuns

  // ----- the invariant of the loop

  /** The last tool call was denied permission. */
  predicate Denied(env: Environment, st: RunState) {
    0 < st.dispatches && IsDenial(env.dispatch(st.dispatches - 1))
  }

  /** Events, counters and conversation agree. */
  ghost predicate Counted(env: Environment, req: RunRequest, st: RunState) {
    var start := InitialBudget(req);
    && st.turns == st.chats == |st.prompts| == Count(st.reports, AssistantMessage)
    && st.budget.maxTurns == start.maxTurns
    && st.budget.usedTurns == start.usedTurns + st.chats
    && (0 < st.chats ==> st.budget.usedTurns <= start.maxTurns)
    && st.budget.usedToolCalls == (start.usedToolCalls + st.dispatches) % 0x1_0000_0000
    && st.dispatches == Count(st.reports, ToolCompleted) + (if Denied(env, st) then 1 else 0)
    && |st.conversation| == Count(st.reports, ToolCompleted) + Count(st.reports, StateChanged)
  }

  /** The completion and the verification events agree with the state. */
  ghost predicate Judged(req: RunRequest, st: RunState) {
    var passed := 0 < Count(st.reports, VerificationPassed);
    && (st.completion == ImplementedVerified <==> passed)
    && (passed ==> st.state == Completed && req.verify && req.mode == Agent && st.budget.usedTurns < st.budget.maxTurns)
    && (st.state == Completed <==> st.completion != RunIsFailed)
    && st.completion != RunIsCancelled
    && (st.state == Verifying ==> req.verify && req.mode == Agent)
  }

  /** The log starts with the start of the run and has not ended. */
  ghost predicate Open(req: RunRequest, st: RunState) {
    && st.reports != [] && st.reports[0] == RunStarted(req.goal, req.mode)
    && Count(st.reports, SessionStarted) == 1
    && Count(st.reports, RunCompleted) == 0
  }

  predicate OnTheWay(s: AgentState) {
    s in {Initializing, BuildingContext, AwaitingModel, Observing, Verifying}
  }

  ghost predicate Sound(env: Environment, req: RunRequest, st: RunState) {
    && Counted(env, req, st) && Judged(req, st) && Open(req, st)
    && st.refused == 0
    && (Denied(env, st) ==> st.state == Failed)
  }

  // ----- the pieces of a round keep it

  /** The transitions a run makes are all allowed. */
  lemma AllowedMoves()
    ensures IsValidTransition(Initializing, BuildingContext) && IsValidTransition(BuildingContext, AwaitingModel)
    ensures IsValidTransition(AwaitingModel, ParsingResponse) && IsValidTransition(ParsingResponse, ExecutingTools)
    ensures IsValidTransition(ParsingResponse, Verifying) && IsValidTransition(ParsingResponse, Completed)
    ensures IsValidTransition(ExecutingTools, Observing) && IsValidTransition(Observing, AwaitingModel)
    ensures IsValidTransition(Verifying, Completed)
    ensures forall s :: s != Completed ==> IsValidTransition(s, Failed)
  {
  }

  lemma CountsAppend(reports: seq<Report>, r: Report)
    ensures forall t :: Count(reports + [r], t) == Count(reports, t) + if EventTypeOf(r) == t then 1 else 0
  {
    forall t ensures Count(reports + [r], t) == Count(reports, t) + if EventTypeOf(r) == t then 1 else 0 {
      CountAppend(reports, r, t);
    }
  }

  /** One more report that is neither a start, nor an end, nor a passed verification leaves the verdict open. */
  lemma StillOpen(req: RunRequest, st: RunState, st': RunState, r: Report)
    requires Judged(req, st) && Open(req, st) && st.state != Completed
    requires st'.reports == st.reports + [r] && st'.completion == st.completion
    requires st'.state != Completed && st'.state != Verifying
    requires EventTypeOf(r) !in {SessionStarted, RunCompleted, VerificationPassed}
    ensures Judged(req, st') && Open(req, st')
  {
    hide Count;
    CountsAppend(st.reports, r);
  }

  lemma ObserveCounts(env: Environment, req: RunRequest, st: RunState, call: ToolCall)
    requires Counted(env, req, st) && !Denied(env, st)
    requires env.dispatch(st.dispatches).Dispatched? && !IsDenial(env.dispatch(st.dispatches))
    ensures var st' := Observe(CountDispatch(st), call, env.dispatch(st.dispatches).result);
            Counted(env, req, st') && !Denied(env, st')
  {
    hide Count, InitialBudget, IsDenial;
    var result := env.dispatch(st.dispatches).result;
    CountsAppend(st.reports, ToolReport(call.name, result.Some? && result.value.success));
  }

  lemma ObserveKeeps(env: Environment, req: RunRequest, st: RunState, call: ToolCall)
    requires Sound(env, req, st) && st.state == ExecutingTools
    requires env.dispatch(st.dispatches).Dispatched? && !IsDenial(env.dispatch(st.dispatches))
    ensures Sound(env, req, Observe(CountDispatch(st), call, env.dispatch(st.dispatches).result))
  {
    hide Counted, Judged, Open, Denied;
    var result := env.dispatch(st.dispatches).result;
    ObserveCounts(env, req, st, call);
    StillOpen(req, st, Observe(CountDispatch(st), call, result),
              ToolReport(call.name, result.Some? && result.value.success));
  }

  lemma DenialKeeps(env: Environment, req: RunRequest, st: RunState, answer: string)
    requires Sound(env, req, st) && st.state == ExecutingTools
    requires IsDenial(env.dispatch(st.dispatches))
    ensures Sound(env, req, Move(CountDispatch(st), Failed).(answer := answer))
  {
    hide Count, IsValidTransition;
    AllowedMoves();
  }

  lemma {:induction false} ToolsKeep(env: Environment, req: RunRequest, st: RunState, calls: seq<ToolCall>)
    requires Sound(env, req, st) && st.state == ExecutingTools
    ensures var r := RunTools(env, st, calls);
            r.Continue? ==> Sound(env, req, r.st) && r.st.state in {Observing, Failed}
    decreases |calls|
  {
    hide IsValidTransition, Count;
    AllowedMoves();
    if calls != [] && !env.cancelled(st.polls) && env.dispatch(st.dispatches).Dispatched? {
      var polled := st.(polls := st.polls + 1);
      var o := env.dispatch(st.dispatches);
      if IsDenial(o) {
        DenialKeeps(env, req, polled, o.result.value.error.value.message);
      } else {
        ObserveKeeps(env, req, polled, calls[0]);
        ToolsKeep(env, req, Observe(CountDispatch(polled), calls[0], o.result), calls[1..]);
      }
    }
  }

  /** A move changes the state and nothing that is counted. */
  lemma MoveCountsNothing(st: RunState, to: AgentState)
    ensures var st' := Move(st, to);
            && st'.reports == st.reports && st'.conversation == st.conversation && st'.prompts == st.prompts
            && st'.budget == st.budget && st'.turns == st.turns && st'.chats == st.chats
            && st'.dispatches == st.dispatches
  {
    hide Next, IsValidTransition;
  }

  lemma ChargeCounts(b: Budget, usage: Option<Usage>)
    ensures Charge(b, usage).usedTurns == Add32(b.usedTurns, 1) && Charge(b, usage).maxTurns == b.maxTurns
    ensures Charge(b, usage).usedToolCalls == b.usedToolCalls
  {
    hide Add32, Add64;
  }

  lemma ParsedCounts(env: Environment, req: RunRequest, st: RunState, asked: RunState, response: Response)
    requires Counted(env, req, st) && st.budget.usedTurns < st.budget.maxTurns
    requires exists p, n, m :: asked == st.(prompts := st.prompts + [p], polls := n, builds := m)
    ensures Counted(env, req, Parsed(asked, response)) && (Denied(env, Parsed(asked, response)) <==> Denied(env, st))
  {
    hide Move, Charge, Count, InitialBudget, IsDenial;
    ChargeCounts(st.budget, response.usage);
    MoveCountsNothing(
      asked.(chats := st.chats + 1, turns := Add32(st.turns, 1), budget := Charge(st.budget, response.usage)),
      ParsingResponse);
    CountsAppend(st.reports, ModelResponse(response.content, |response.toolCalls|));
  }

  lemma ParsedKeeps(env: Environment, req: RunRequest, st: RunState, asked: RunState, response: Response)
    requires Sound(env, req, st) && st.state == AwaitingModel && st.budget.usedTurns < st.budget.maxTurns
    requires exists p, n, m :: asked == st.(prompts := st.prompts + [p], polls := n, builds := m)
    ensures Sound(env, req, Parsed(asked, response)) && Parsed(asked, response).state == ParsingResponse
  {
    hide IsValidTransition, Counted, Judged, Open, Denied;
    AllowedMoves();
    ParsedCounts(env, req, st, asked, response);
    StillOpen(req, st, Parsed(asked, response), ModelResponse(response.content, |response.toolCalls|));
  }

  lemma AnswerKeeps(env: Environment, req: RunRequest, st: RunState, content: string)
    requires Sound(env, req, st) && st.state == ParsingResponse
    ensures Sound(env, req, TakeAnswer(req, st, content)) &&
            TakeAnswer(req, st, content).state in {Verifying, Completed}
  {
    hide IsValidTransition, Count;
    AllowedMoves();
  }

  lemma ToolMoveKeeps(env: Environment, req: RunRequest, st: RunState)
    requires Sound(env, req, st) && st.state == ParsingResponse
    ensures Sound(env, req, Move(st, ExecutingTools)) && Move(st, ExecutingTools).state == ExecutingTools
  {
    hide IsValidTransition, Count;
    AllowedMoves();
  }

  lemma AskingKeeps(env: Environment, req: RunRequest, st: RunState)
    requires Sound(env, req, st) && st.state == AwaitingModel && st.budget.usedTurns < st.budget.maxTurns
    ensures var r := AskModel(env, req, st);
            && !r.Leave?
            && (r.Continue? ==> Sound(env, req, r.st) && r.st.state in {Observing, Failed, Verifying, Completed})
  {
    hide IsValidTransition, Sound, Parsed, RunTools, TakeAnswer, CurrentContext, Move;
    AskingNeverLeaves(env, req, st);
    if AskModel(env, req, st).Continue? {
      var asked, response := Asked(env, req, st), env.chat(st.chats).response;
      var parsed := Parsed(asked, response);
      assert asked == st.(prompts := st.prompts + [CurrentContext(env, req, st)], polls := st.polls + 1,
                          builds := st.builds + 1);
      ParsedKeeps(env, req, st, asked, response);
      if response.toolCalls != [] {
        ToolMoveKeeps(env, req, parsed);
        ToolsKeep(env, req, Move(parsed, ExecutingTools), response.toolCalls);
        ToolsKeepTurns(env, Move(parsed, ExecutingTools), response.toolCalls);
      } else {
        AnswerKeeps(env, req, parsed, response.content);
      }
    }
  }

  lemma FirstContextKeeps(env: Environment, req: RunRequest, st: RunState)
    requires Sound(env, req, st) && st.state == BuildingContext
    ensures Sound(env, req, WithContext(env, req, st)) && WithContext(env, req, st).state == AwaitingModel
  {
    hide IsValidTransition, Count, CurrentContext, InitialBudget, IsDenial;
    AllowedMoves();
    CountsAppend(st.reports, ContextBuilt(|CurrentContext(env, req, st).items|));
  }

  lemma NothingPassedYet(env: Environment, req: RunRequest, st: RunState)
    requires Sound(env, req, st) && st.state != Completed
    ensures Count(st.reports, VerificationPassed) == 0 && st.completion == RunIsFailed
  {
  }

  lemma OpenLater(req: RunRequest, st: RunState, st': RunState, r: Report)
    requires Open(req, st) && st'.reports == st.reports + [r]
    requires EventTypeOf(r) !in {SessionStarted, RunCompleted}
    ensures Open(req, st')
  {
    hide Count;
    CountsAppend(st.reports, r);
  }

  lemma VerifyCounts(env: Environment, req: RunRequest, st: RunState)
    requires Counted(env, req, st) && env.verifier.Verified?
    ensures Counted(env, req, Verify(env, st).st)
    ensures Denied(env, Verify(env, st).st) <==> Denied(env, st)
  {
    hide Move, Count, InitialBudget, IsDenial;
    var report := VerificationReport(env.verifier.buildOk, env.verifier.testsOk);
    MoveCountsNothing(Log(st, report), Completed);
    CountsAppend(st.reports, report);
  }

  lemma VerifyKeeps(env: Environment, req: RunRequest, st: RunState)
    requires Sound(env, req, st) && st.state == Verifying && st.budget.usedTurns < st.budget.maxTurns
    ensures var r := Verify(env, st);
            !r.Leave? && (r.Continue? ==> Sound(env, req, r.st) && r.st.state == Completed)
  {
    hide IsValidTransition, Count, Counted, Open, Denied;
    AllowedMoves();
    if env.verifier.Verified? && !LogFails(env, st) {
      VerifyCounts(env, req, st);
      OpenLater(req, st, Verify(env, st).st, VerificationReport(env.verifier.buildOk, env.verifier.testsOk));
      NothingPassedYet(env, req, st);
      CountsAppend(st.reports, VerificationReport(env.verifier.buildOk, env.verifier.testsOk));
    }
  }

  lemma StepKeeps(env: Environment, req: RunRequest, st: RunState)
    requires Sound(env, req, st) && OnTheWay(st.state)
    ensures var r := Step(env, req, st);
            && (r.Continue? ==> Sound(env, req, r.st) && (OnTheWay(r.st.state) || r.st.state in {Completed, Failed}))
            && (r.Leave? ==> Sound(env, req, r.st) && r.st.state == Failed)
  {
    hide IsValidTransition, Count, AskModel, Verify, WithContext, InitialBudget, IsDenial;
    AllowedMoves();
    var polled := st.(polls := st.polls + 1);
    assert Sound(env, req, polled);
    if !env.cancelled(st.polls) && !IsExhausted(st.budget) {
      match st.state
      case BuildingContext => FirstContextKeeps(env, req, polled);
      case AwaitingModel => AskingKeeps(env, req, polled);
      case Verifying => VerifyKeeps(env, req, polled);
      case _ =>
    }
  }

  // ----- whole runs

  /** A run that returns has left the loop in a sound final state. */
  lemma {:induction false} LoopEndsSound(env: Environment, req: RunRequest, st: RunState) returns (last: RunState)
    requires Sound(env, req, st) && (OnTheWay(st.state) || st.state in {Completed, Failed})
    requires RunFrom(env, req, st).Returned?
    ensures RunFrom(env, req, st).st == Finish(last) && Sound(env, req, last) && last.state in {Completed, Failed}
    decreases TurnsLeft(st.budget), Rank(st.state)
  {
    hide Sound, Step, Finish;
    if st.state in {Completed, Failed} {
      last := st;
    } else {
      StepKeeps(env, req, st);
      last := Step(env, req, st).st;
      if Step(env, req, st).Continue? {
        StepProgresses(env, req, st);
        last := LoopEndsSound(env, req, last);
      }
    }
  }

  lemma InitiallySound(env: Environment, req: RunRequest)
    ensures Sound(env, req, InitialState(req))
  {
    var start := RunStarted(req.goal, req.mode);
    assert Types([start]) == [SessionStarted];
  }

  /** Neither repair behind the loop changes anything: the end of the run is only logged. */
  lemma FinishOnlyLogs(env: Environment, req: RunRequest, st: RunState)
    requires Sound(env, req, st) && st.state in {Completed, Failed}
    ensures Finish(st) == Log(st, RunFinished(st.completion, st.answer))
  {
  }

  /** The last round of a returned run, and the one report that follows it. */
  lemma ReturnedRunEnds(env: Environment, req: RunRequest) returns (last: RunState)
    requires Run(env, req).Returned?
    ensures Sound(env, req, last) && last.state in {Completed, Failed}
    ensures Run(env, req).st == Log(last, RunFinished(last.completion, last.answer))
  {
    InitiallySound(env, req);
    last := LoopEndsSound(env, req, InitialState(req));
    FinishOnlyLogs(env, req, last);
  }

  /** How a run can come back, and when it counts as verified. */
  lemma ReturnedRunIsJudged(env: Environment, req: RunRequest)
    requires Run(env, req).Returned?
    ensures var st := Run(env, req).st;
            && st.state in {Completed, Failed}
            && st.completion in {ImplementedVerified, CompletedUnverified, RunIsFailed}
            && (st.state == Failed <==> st.completion == RunIsFailed)
            && (st.completion == ImplementedVerified <==> 0 < Count(st.reports, VerificationPassed))
            && (st.completion == ImplementedVerified ==>
                  req.verify && req.mode == Agent && st.budget.usedTurns < st.budget.maxTurns)
            && st.refused == 0
  {
    hide Count, Run, Counted, Open;
    var last := ReturnedRunEnds(env, req);
    CountsAppend(last.reports, RunFinished(last.completion, last.answer));
  }

  /** Events, counters and conversation of a run that came back account for each other. */
  lemma ReturnedRunIsCounted(env: Environment, req: RunRequest)
    requires Run(env, req).Returned?
    ensures var st, start := Run(env, req).st, InitialBudget(req);
            var completed := Count(st.reports, ToolCompleted);
            && st.turns == st.chats == |st.prompts| == Count(st.reports, AssistantMessage)
            && st.budget.usedTurns == start.usedTurns + st.turns
            && (0 < st.chats ==> st.chats <= start.maxTurns - start.usedTurns)
            && st.budget.usedToolCalls == (start.usedToolCalls + st.dispatches) % 0x1_0000_0000
            && st.dispatches == completed + (if Denied(env, st) then 1 else 0)
            && (Denied(env, st) ==> st.state == Failed)
            && |st.conversation| == completed + Count(st.reports, StateChanged)
  {
    hide Count, Run, Judged, Open, InitialBudget, IsDenial;
    var last := ReturnedRunEnds(env, req);
    CountsAppend(last.reports, RunFinished(last.completion, last.answer));
  }

  /** The log of a run that came back: the start first, one terminal event, and that one last. */
  lemma ReturnedRunLogs(env: Environment, req: RunRequest)
    requires Run(env, req).Returned?
    ensures var st := Run(env, req).st;
            var n := |st.reports|;
            && 2 <= n && st.reports[0] == RunStarted(req.goal, req.mode)
            && st.reports[n - 1] == RunFinished(st.completion, st.answer)
            && (forall i :: 0 <= i < n && IsTerminalEvent(EventTypeOf(st.reports[i])) ==> i == n - 1)
            && (forall i :: 0 <= i < n && EventTypeOf(st.reports[i]) == SessionStarted ==> i == 0)
  {
    hide Run, Sound, Count;
    var last := ReturnedRunEnds(env, req);
    assert Open(req, last) by { SoundIsOpen(env, req, last); }
    NoneOfType(last.reports, RunCompleted);
    OnlyTheFirst(last.reports, SessionStarted);
  }

  lemma SoundIsOpen(env: Environment, req: RunRequest, st: RunState)
    requires Sound(env, req, st)
    ensures Open(req, st)
  {
  }

  lemma NoneOfType(reports: seq<Report>, t: EventType)
    requires Count(reports, t) == 0
    ensures forall i :: 0 <= i < |reports| ==> EventTypeOf(reports[i]) != t
  {
    forall i | 0 <= i < |reports| ensures EventTypeOf(reports[i]) != t {
      assert Types(reports)[i] == EventTypeOf(reports[i]);
      assert Types(reports)[i] in multiset(Types(reports));
    }
  }

  lemma OnlyTheFirst(reports: seq<Report>, t: EventType)
    requires reports != [] && EventTypeOf(reports[0]) == t && Count(reports, t) == 1
    ensures forall i :: 0 < i < |reports| ==> EventTypeOf(reports[i]) != t
  {
    var rest := reports[1..];
    assert Types(reports) == [t] + Types(rest);
    NoneOfType(rest, t);
    forall i | 0 < i < |reports| ensures EventTypeOf(reports[i]) != t {
      assert reports[i] == rest[i - 1];
    }
  }

  // ----- aborted runs

  lemma {:induction false} ToolsStayOpen(env: Environment, req: RunRequest, st: RunState, calls: seq<ToolCall>)
    requires Open(req, st)
    ensures Open(req, RunTools(env, st, calls).st)
    decreases |calls|
  {
    hide Count, IsValidTransition;
    if calls != [] && !env.cancelled(st.polls) && env.dispatch(st.dispatches).Dispatched? {
      var o := env.dispatch(st.dispatches);
      if !IsDenial(o) {
        var counted := CountDispatch(st.(polls := st.polls + 1));
        CountsAppend(st.reports, ToolReport(calls[0].name, o.result.Some? && o.result.value.success));
        ToolsStayOpen(env, req, Observe(counted, calls[0], o.result), calls[1..]);
      }
    }
  }

  lemma StepStaysOpen(env: Environment, req: RunRequest, st: RunState)
    requires Open(req, st)
    ensures Open(req, Step(env, req, st).st)
  {
    hide Count, IsValidTransition, CurrentContext, RunTools, Charge, IsExhausted;
    var polled := st.(polls := st.polls + 1);
    match st.state
    case BuildingContext => CountsAppend(st.reports, ContextBuilt(|CurrentContext(env, req, polled).items|));
    case AwaitingModel =>
      if env.chat(st.chats).Answers? {
        var asked, response := Asked(env, req, polled), env.chat(st.chats).response;
        CountsAppend(st.reports, ModelResponse(response.content, |response.toolCalls|));
        ToolsStayOpen(env, req, Move(Parsed(asked, response), ExecutingTools), response.toolCalls);
      }
    case Verifying =>
      if env.verifier.Verified? {
        CountsAppend(st.reports, VerificationReport(env.verifier.buildOk, env.verifier.testsOk));
      }
    case _ =>
  }

  lemma OpenWhenSettled(req: RunRequest, st: RunState)
    requires Open(req, st)
    ensures Open(req, Settle(st))
  {
  }

  lemma {:induction false} LoopStaysOpen(env: Environment, req: RunRequest, st: RunState)
    requires Open(req, st) && RunFrom(env, req, st).Aborted?
    ensures Open(req, RunFrom(env, req, st).st)
    decreases TurnsLeft(st.budget), Rank(st.state)
  {
    hide Open, Step, Settle;
    if IsTerminal(st.state) {
      OpenWhenSettled(req, st);
    } else {
      StepStaysOpen(env, req, st);
      var st' := Step(env, req, st).st;
      if Step(env, req, st).Continue? {
        StepProgresses(env, req, st);
        LoopStaysOpen(env, req, st');
      } else {
        OpenWhenSettled(req, st');
      }
    }
  }

  /** The log of a run that threw: the start first, unless logging it is what threw, and no terminal event. */
  lemma AbortedRunLogs(env: Environment, req: RunRequest)
    requires Run(env, req).Aborted?
    ensures var reports := Run(env, req).st.reports;
            && (reports == [] <==> env.appendThrows(0))
            && (reports != [] ==> reports[0] == RunStarted(req.goal, req.mode))
            && forall i :: 0 <= i < |reports| ==> !IsTerminalEvent(EventTypeOf(reports[i]))
  {
    hide Count, RunFrom;
    if !env.appendThrows(0) {
      InitiallySound(env, req);
      LoopStaysOpen(env, req, InitialState(req));
      NoneOfType(Run(env, req).st.reports, RunCompleted);
    }
  }

  // ----- every round meets an expected state

  /** The states at the head of the loop, round after round. */
  ghost function Heads(env: Environment, req: RunRequest, st: RunState): seq<AgentState>
    decreases TurnsLeft(st.budget), Rank(st.state)
  {
    if IsTerminal(st.state) then []
    else if !Step(env, req, st).Continue? then [st.state]
    else StepProgresses(env, req, st); [st.state] + Heads(env, req, Step(env, req, st).st)
  }

  lemma {:induction false} HeadsAreExpected(env: Environment, req: RunRequest, st: RunState)
    requires Sound(env, req, st) && (OnTheWay(st.state) || st.state in {Completed, Failed})
    ensures forall i :: 0 <= i < |Heads(env, req, st)| ==> OnTheWay(Heads(env, req, st)[i])
    decreases TurnsLeft(st.budget), Rank(st.state)
  {
    hide Sound, Step;
    if !IsTerminal(st.state) {
      StepKeeps(env, req, st);
      if Step(env, req, st).Continue? {
        StepProgresses(env, req, st);
        HeadsAreExpected(env, req, Step(env, req, st).st);
      }
    }
  }

  /** The branch for an unexpected state is dead. */
  lemma NoUnexpectedState(env: Environment, req: RunRequest, k: nat)
    requires k < |Heads(env, req, InitialState(req))|
    ensures OnTheWay(Heads(env, req, InitialState(req))[k])
  {
    InitiallySound(env, req);
    HeadsAreExpected(env, req, InitialState(req));
  }

  // ----- no transition is refused

  lemma {:induction false} ToolsMoveFreely(env: Environment, st: RunState, calls: seq<ToolCall>)
    requires st.state == ExecutingTools
    ensures RunTools(env, st, calls).st.refused == st.refused
    decreases |calls|
  {
    hide IsDenial, Observation, IsValidTransition;
    AllowedMoves();
    if calls != [] && env.dispatch(st.dispatches).Dispatched? {
      var counted := CountDispatch(st.(polls := st.polls + 1));
      ToolsMoveFreely(env, Observe(counted, calls[0], env.dispatch(st.dispatches).result), calls[1..]);
    }
  }

  lemma AskingMovesFreely(env: Environment, req: RunRequest, st: RunState)
    requires st.state == AwaitingModel
    ensures AskModel(env, req, st).st.refused == st.refused
  {
    hide IsValidTransition, RunTools, CurrentContext, Charge;
    AllowedMoves();
    if env.chat(st.chats).Answers? {
      var response := env.chat(st.chats).response;
      ToolsMoveFreely(env, Move(Parsed(Asked(env, req, st), response), ExecutingTools), response.toolCalls);
    }
  }

  lemma StepMovesFreely(env: Environment, req: RunRequest, st: RunState)
    requires OnTheWay(st.state)
    ensures Step(env, req, st).st.refused == st.refused
  {
    hide IsValidTransition, AskModel, CurrentContext;
    AllowedMoves();
    if st.state == AwaitingModel {
      AskingMovesFreely(env, req, st.(polls := st.polls + 1));
    }
  }

  lemma {:induction false} LoopMovesFreely(env: Environment, req: RunRequest, st: RunState)
    requires Sound(env, req, st) && (OnTheWay(st.state) || st.state in {Completed, Failed})
    ensures RunFrom(env, req, st).st.refused == st.refused
    decreases TurnsLeft(st.budget), Rank(st.state)
  {
    hide Sound, Step;
    if !IsTerminal(st.state) {
      StepMovesFreely(env, req, st);
      StepKeeps(env, req, st);
      if Step(env, req, st).Continue? {
        StepProgresses(env, req, st);
        LoopMovesFreely(env, req, Step(env, req, st).st);
      }
    }
  }

  /** Every transition whose answer a run discards has succeeded, whether the run comes back or throws. */
  lemma NoTransitionRefused(env: Environment, req: RunRequest)
    ensures Run(env, req).st.refused == 0
  {
    hide RunFrom;
    InitiallySound(env, req);
    LoopMovesFreely(env, req, InitialState(req));
  }

  // ----- the budget

  /**
   * With an exhausted budget neither model nor tools are called. The run fails, unless it is cancelled or cannot log
   * its start or its end.
   */
  lemma ExhaustedBudgetFailsAtOnce(env: Environment, req: RunRequest)
    requires IsExhausted(InitialBudget(req))
    ensures var st := Run(env, req).st;
            && st.prompts == [] && st.chats == 0 && st.dispatches == 0
            && (Run(env, req).Returned? <==> !env.cancelled(0) && !env.appendThrows(0) && !env.appendThrows(1))
            && (Run(env, req).Returned? ==> st.state == Failed && st.answer == "Budget exhausted")
  {
    hide Step;
    FirstStep(env, req);
    AllowedMoves();
  }

  lemma FirstStep(env: Environment, req: RunRequest)
    requires IsExhausted(InitialBudget(req))
    ensures var polled := InitialState(req).(polls := 1);
            Step(env, req, InitialState(req)) ==
            if env.cancelled(0) then Throw(polled)
            else Leave(Move(polled, Failed).(answer := "Budget exhausted"))
  {
  }
}
