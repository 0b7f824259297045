/** What a run logs, report by report, told from what model, tools and verifier did. */
module AgentRunTrace {
  import opened Wrappers
  import opened Text
  import opened AgentTypes
  import opened StateMachines
  import opened ContextBuilders
  import opened AgentRuns
  import opened AgentRunFacts
  import opened AgentRunHistory

  // ----- what is to be logged

  function Succeeded(o: ToolOutcome): bool {
    match o
    case Dispatched(Some(ToolResult(success, _, _))) => success
    case _ => false
  }

  /** One report for each call of a batch whose first call is the d-th dispatched. */
  function CallReports(env: Environment, calls: seq<ToolCall>, d: nat): seq<Report> {
    if calls == [] then []
    else [ToolReport(calls[0].name, Succeeded(env.dispatch(d)))] + CallReports(env, calls[1..], d + 1)
  }

  function AnswerOf(env: Environment, n: nat): Response {
    if env.chat(n).Answers? then env.chat(n).response else Response("", [], None)
  }

  /** The reports of the first n turns: each answer, and the calls it asks for. */
  function TurnReports(env: Environment, n: nat): seq<Report> {
    if n == 0 then []
    else
      var answer := AnswerOf(env, n - 1);
      TurnReports(env, n - 1)
      + [ModelResponse(answer.content, |answer.toolCalls|)]
      + CallReports(env, answer.toolCalls, CallsBefore(env, n - 1))
  }

  function FirstReports(env: Environment, req: RunRequest): seq<Report> {
    var first := BuildContext(env.workspace(0), BuildRequest(req.goal, [], [], InitialBudget(req).maxInputTokens));
    [RunStarted(req.goal, req.mode), ContextBuilt(|first.items|)]
  }

  /** What a run of n turns logs before its end, if nothing cuts it short. */
  function FullTrace(env: Environment, req: RunRequest, n: nat): seq<Report> {
    FirstReports(env, req) + TurnReports(env, n) + Verdict(env, req)
  }

  function Verdict(env: Environment, req: RunRequest): seq<Report> {
    if req.verify && req.mode == Agent && env.verifier.Verified?
    then [VerificationReport(env.verifier.buildOk, env.verifier.testsOk)] else []
  }

  // ----- the invariant

  ghost predicate Traced(env: Environment, req: RunRequest, st: RunState) {
    st.reports <= FullTrace(env, req, st.chats)
  }

  /** At the head of the loop nothing is missing. */
  ghost predicate FullyTraced(env: Environment, req: RunRequest, st: RunState) {
    match st.state
    case Initializing | BuildingContext =>
      st.reports == FirstReports(env, req)[..1] && st.conversation == [] && st.builds == 0 && st.chats == 0
      && st.dispatches == 0 && st.budget.maxInputTokens == InitialBudget(req).maxInputTokens
    case AwaitingModel | Observing =>
      st.reports == FirstReports(env, req) + TurnReports(env, st.chats) && st.dispatches == CallsBefore(env, st.chats)
    case Verifying =>
      st.reports == FirstReports(env, req) + TurnReports(env, st.chats) && req.verify && req.mode == Agent
    case Completed =>
      st.reports == FirstReports(env, req) + TurnReports(env, st.chats) + Verdict(env, req)
      && (req.verify && req.mode == Agent ==> env.verifier.Verified?)
    case _ => Traced(env, req, st)
  }

  lemma {:induction false} ToolsAreTraced(env: Environment, st: RunState, calls: seq<ToolCall>)
    requires st.state == ExecutingTools
    ensures var r := RunTools(env, st, calls);
            && r.st.reports <= st.reports + CallReports(env, calls, st.dispatches)
            && r.st.chats == st.chats
            && (r.Continue? ==> r.st.state in {Observing, Failed})
            && (r.Continue? && r.st.state == Observing ==>
                  && r.st.reports == st.reports + CallReports(env, calls, st.dispatches)
                  && r.st.dispatches == st.dispatches + |calls|)
    decreases |calls|
  {
    hide Move, Observe, Heard, CountDispatch;
    if calls == [] || env.cancelled(st.polls) || env.dispatch(st.dispatches).ToolThrows? {
      CallLogs(st, ToolCall("", "", ""), None, "");
    } else {
      var o := env.dispatch(st.dispatches);
      CallLogs(st, calls[0], o.result, if IsDenial(o) then o.result.value.error.value.message else "");
      if !IsDenial(o) {
        var next := Observe(CountDispatch(st.(polls := st.polls + 1)), calls[0], o.result);
        var report := ToolReport(calls[0].name, Succeeded(o));
        ToolsAreTraced(env, next, calls[1..]);
        Regrouped(st.reports, [report], CallReports(env, calls[1..], st.dispatches + 1));
      }
    }
  }

  /** What one dispatched call does to log, counters and state. */
  lemma CallLogs(st: RunState, call: ToolCall, result: Option<ToolResult>, answer: string)
    requires st.state == ExecutingTools
    ensures var counted := CountDispatch(st.(polls := st.polls + 1));
            && (var next := Observe(counted, call, result);
                && next.reports == st.reports + [ToolReport(call.name, Succeeded(Dispatched(result)))]
                && next.chats == st.chats && next.dispatches == st.dispatches + 1 && next.state == ExecutingTools)
            && (var failed := Move(counted, Failed).(answer := answer);
                failed.reports == st.reports && failed.chats == st.chats && failed.state == Failed)
            && Heard(counted, result).reports == st.reports && Heard(counted, result).chats == st.chats
            && counted.reports == st.reports
    ensures Move(st, Observing) == st.(state := Observing)
  {
    hide IsValidTransition;
    AllowedMoves();
  }

  /** What has been logged up to some turn, and what follows it. */
  lemma LaterIsLonger(env: Environment, req: RunRequest, n: nat, some: seq<Report>)
    requires some <= FirstReports(env, req) + TurnReports(env, n)
    ensures some <= FullTrace(env, req, n)
  {
    hide FirstReports, TurnReports, Verdict;
  }

  lemma StartIsTraced(env: Environment, req: RunRequest, n: nat)
    ensures FirstReports(env, req)[..1] <= FullTrace(env, req, n)
  {
    hide TurnReports, Verdict;
  }

  lemma NextTurn(env: Environment, req: RunRequest, n: nat, response: Response)
    requires env.chat(n) == Answers(response)
    ensures FirstReports(env, req) + TurnReports(env, n + 1) ==
            FirstReports(env, req) + TurnReports(env, n) + [ModelResponse(response.content, |response.toolCalls|)]
            + CallReports(env, response.toolCalls, CallsBefore(env, n))
    ensures CallsBefore(env, n + 1) == CallsBefore(env, n) + |response.toolCalls|
  {
    hide FirstReports, CallReports;
    var mine := [ModelResponse(response.content, |response.toolCalls|)];
    var calls := CallReports(env, response.toolCalls, CallsBefore(env, n));
    assert FirstReports(env, req) + (TurnReports(env, n) + mine + calls) ==
           FirstReports(env, req) + TurnReports(env, n) + mine + calls;
  }

  lemma ParsedReports(st: RunState, response: Response)
    requires st.state == AwaitingModel
    ensures Answered(st, response).reports == st.reports && Answered(st, response).chats == st.chats + 1
    ensures var st' := Parsed(st, response);
            && st'.reports == st.reports + [ModelResponse(response.content, |response.toolCalls|)]
            && st'.chats == st.chats + 1 && st'.state == ParsingResponse && st'.dispatches == st.dispatches
  {
    hide IsValidTransition;
    AllowedMoves();
  }

  lemma AnswerIsTraced(env: Environment, req: RunRequest, st: RunState, response: Response)
    requires st.state == AwaitingModel && FullyTraced(env, req, st) && env.chat(st.chats) == Answers(response)
    ensures var r := HandleResponse(env, req, st, response);
            Traced(env, req, r.st) && (r.Continue? ==> FullyTraced(env, req, r.st))
  {
    hide Answered, Parsed, Move, RunTools, FirstReports, TurnReports, CallReports, CallsBefore, FullTrace;
    var n, parsed := st.chats, Parsed(st, response);
    ParsedReports(st, response);
    NextTurn(env, req, n, response);
    LaterIsLonger(env, req, n + 1, st.reports);
    if response.toolCalls != [] && !LogFails(env, st) {
      MovesFromParsing(parsed);
      var executing := parsed.(state := ExecutingTools);
      ToolsAreTraced(env, executing, response.toolCalls);
      LaterIsLonger(env, req, n + 1, RunTools(env, executing, response.toolCalls).st.reports);
    } else if !LogFails(env, st) {
      NoCalls(env, CallsBefore(env, n));
      MovesFromParsing(parsed.(answer := response.content));
      LaterIsLonger(env, req, n + 1, parsed.reports);
    }
  }

  lemma NoCalls(env: Environment, d: nat)
    ensures CallReports(env, [], d) == []
  {
  }

  lemma AskingIsTraced(env: Environment, req: RunRequest, st: RunState)
    requires st.state == AwaitingModel && FullyTraced(env, req, st)
    ensures Traced(env, req, AskModel(env, req, st).st)
    ensures AskModel(env, req, st).Continue? ==> FullyTraced(env, req, AskModel(env, req, st).st)
  {
    hide CurrentContext, HandleResponse, FirstReports, TurnReports, CallsBefore, FullTrace;
    LaterIsLonger(env, req, st.chats, st.reports);
    if env.chat(st.chats).Answers? {
      AnswerIsTraced(env, req, Asked(env, req, st), env.chat(st.chats).response);
    }
  }

  lemma FirstContextIsTraced(env: Environment, req: RunRequest, st: RunState)
    requires st.state == BuildingContext && FullyTraced(env, req, st)
    ensures var r := BuildFirst(env, req, st);
            Traced(env, req, r.st) && (r.Continue? ==> FullyTraced(env, req, r.st))
  {
    hide IsValidTransition, BuildContext, InitialBudget;
    AllowedMoves();
    assert TurnReports(env, 0) == [] && CallsBefore(env, 0) == 0;
    var first := FirstReports(env, req);
    assert ContextRequest(req, st) == BuildRequest(req.goal, [], [], InitialBudget(req).maxInputTokens);
    assert first == first[..1] + [ContextBuilt(|CurrentContext(env, req, st).items|)];
    assert first + [] == first;
    StartIsTraced(env, req, 0);
    LaterIsLonger(env, req, 0, first);
  }

  lemma VerdictIsTraced(env: Environment, req: RunRequest, st: RunState)
    requires st.state == Verifying && FullyTraced(env, req, st)
    ensures var r := Verify(env, st);
            Traced(env, req, r.st) && (r.Continue? ==> FullyTraced(env, req, r.st))
  {
    hide IsValidTransition, FirstReports, TurnReports;
    AllowedMoves();
    LaterIsLonger(env, req, st.chats, st.reports);
  }

  lemma StepIsTraced(env: Environment, req: RunRequest, st: RunState)
    requires OnTheWay(st.state) && FullyTraced(env, req, st)
    ensures var r := Step(env, req, st);
            && Traced(env, req, r.st) && (r.Continue? ==> FullyTraced(env, req, r.st))
            && (r.Leave? ==> r.st.state == Failed)
  {
    hide IsValidTransition, AskModel, BuildFirst, Verify, FirstReports, TurnReports, FullTrace, CallsBefore;
    AllowedMoves();
    AskingNeverLeaves(env, req, st.(polls := st.polls + 1));
    OthersNeverLeave(env, req, st.(polls := st.polls + 1));
    var polled := st.(polls := st.polls + 1);
    match st.state
    case Initializing => StartIsTraced(env, req, st.chats);
    case BuildingContext =>
      StartIsTraced(env, req, st.chats);
      FirstContextIsTraced(env, req, polled);
    case AwaitingModel =>
      LaterIsLonger(env, req, st.chats, st.reports);
      AskingIsTraced(env, req, polled);
    case Verifying =>
      LaterIsLonger(env, req, st.chats, st.reports);
      VerdictIsTraced(env, req, polled);
    case Observing => LaterIsLonger(env, req, st.chats, st.reports);
  }

  /** Before the end is logged nothing but a prefix of the full trace is; for a completed run, all of it. */
  ghost predicate TracedToTheEnd(env: Environment, req: RunRequest, o: Outcome) {
    match o
    case Aborted(st) => Traced(env, req, st)
    case Returned(st) =>
      && st.reports != []
      && st.reports[|st.reports| - 1] == RunFinished(st.completion, st.answer)
      && st.reports[..|st.reports| - 1] <= FullTrace(env, req, st.chats)
      && (st.state == Completed ==> st.reports[..|st.reports| - 1] == FullTrace(env, req, st.chats))
  }

  lemma EndIsTraced(env: Environment, req: RunRequest, st: RunState)
    requires st.state in {Completed, Failed} && FullyTraced(env, req, st)
    ensures TracedToTheEnd(env, req, End(env, st))
  {
    hide FirstReports, TurnReports, Verdict;
    assert Finish(st).reports[..|st.reports|] == st.reports;
  }

  lemma {:induction false} LoopIsTraced(env: Environment, req: RunRequest, st: RunState)
    requires Sound(env, req, st) && FullyTraced(env, req, st)
    requires OnTheWay(st.state) || st.state in {Completed, Failed}
    ensures TracedToTheEnd(env, req, RunFrom(env, req, st))
    decreases TurnsLeft(st.budget), Rank(st.state)
  {
    hide Sound, Step, FullyTraced, TracedToTheEnd, End;
    if st.state in {Completed, Failed} {
      EndIsTraced(env, req, st);
    } else {
      StepKeeps(env, req, st);
      StepIsTraced(env, req, st);
      var st' := Step(env, req, st).st;
      match Step(env, req, st)
      case Continue(_) =>
        StepProgresses(env, req, st);
        LoopIsTraced(env, req, st');
      case Leave(_) =>
        FailedIsTraced(env, req, st');
        EndIsTraced(env, req, st');
      case Throw(_) => AbortionIsTraced(env, req, st');
    }
  }

  lemma FailedIsTraced(env: Environment, req: RunRequest, st: RunState)
    requires st.state == Failed && Traced(env, req, st)
    ensures FullyTraced(env, req, st)
  {
  }

  lemma AbortionIsTraced(env: Environment, req: RunRequest, st: RunState)
    requires Traced(env, req, st)
    ensures TracedToTheEnd(env, req, Aborted(st))
  {
  }

  /**
   * What every run logs: its start, the size of its first context, each answer with the calls it asks for, and the
   * verdict, as far as it gets; a run that comes back logs its completion and answer behind that. A completed run
   * has logged all of it.
   */
  lemma LogTellsRun(env: Environment, req: RunRequest)
    ensures TracedToTheEnd(env, req, Run(env, req))
  {
    hide RunFrom, FullyTraced, TracedToTheEnd;
    if env.appendThrows(0) {
      AbortionIsTraced(env, req, Unstarted(req));
    } else {
      InitiallySound(env, req);
      StartIsFullyTraced(env, req);
      LoopIsTraced(env, req, InitialState(req));
    }
  }

  lemma StartIsFullyTraced(env: Environment, req: RunRequest)
    ensures FullyTraced(env, req, InitialState(req))
  {
    hide BuildContext, InitialBudget;
  }
}
