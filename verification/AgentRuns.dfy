/** One agent run, step by step, against a model, tools, a verifier and a user who may do anything. */
module AgentRuns {
  import opened Wrappers
  import opened AgentTypes
  import opened StateMachines
  import opened EventTypes
  import opened ContextBuilders

  // ----- what the run meets

  datatype Usage = Usage(promptTokens: U32, completionTokens: U32)

  datatype ToolCall = ToolCall(id: string, name: string, arguments: string)

  datatype Response = Response(content: string, toolCalls: seq<ToolCall>, usage: Option<Usage>)

  datatype ModelOutcome = ModelThrows | Answers(response: Response)

  datatype ToolError = ToolError(isPermission: bool, message: string)

  datatype ToolResult = ToolResult(success: bool, content: string, error: Option<ToolError>)

  datatype ToolOutcome = ToolThrows | Dispatched(result: Option<ToolResult>)

  datatype VerifierOutcome = VerifierThrows | Verified(buildOk: bool, testsOk: bool)

  /**
   * Everything the run does not decide: the n-th answer of the model, the n-th tool result, what the verifier
   * says, whether the user has cancelled at the n-th poll, what the n-th context build finds on disk and whether it
   * throws, and whether appending the n-th event of the run to the log throws.
   * Whatever these parties do in a run, however they react to it, some value of this type says it.
   */
  datatype Environment = Environment(
    chat: nat -> ModelOutcome,
    dispatch: nat -> ToolOutcome,
    verifier: VerifierOutcome,
    cancelled: nat -> bool,
    workspace: nat -> Workspace,
    buildThrows: nat -> bool,
    appendThrows: nat -> bool)

  datatype RunRequest = RunRequest(mode: AgentMode, goal: string, verify: bool, budget: Budget)

  datatype RunCompletion = ImplementedVerified | CompletedUnverified | RunIsFailed | RunIsCancelled

  // ----- what the run reports

  datatype Report =
    | RunStarted(goal: string, mode: AgentMode)
    | ContextBuilt(items: nat)
    | ModelResponse(content: string, toolCalls: nat)
    | ToolReport(tool: string, success: bool)
    | VerificationReport(buildOk: bool, testsOk: bool)
    | RunFinished(completion: RunCompletion, answer: string)

  /** log_event: a report that is none of the known ones is a state change. */
  function EventTypeOf(r: Report): EventType {
    match r
    case RunStarted(_, _) => SessionStarted
    case ModelResponse(_, _) => AssistantMessage
    case ToolReport(_, _) => ToolCompleted
    case VerificationReport(buildOk, testsOk) => if buildOk && testsOk then VerificationPassed else VerificationFailed
    case RunFinished(_, _) => RunCompleted
    case ContextBuilt(_) => StateChanged
  }

  /** What the log is given beside the type. */
  function PayloadOf(r: Report): Payload {
    match r
    case RunStarted(goal, mode) => map["goal" := Text(goal), "mode" := Text(ModeName(mode))]
    case ContextBuilt(items) => map["items" := Number(items)]
    case ModelResponse(content, toolCalls) => map["content" := Text(content), "tool_calls" := Number(toolCalls)]
    case ToolReport(tool, success) => map["tool" := Text(tool), "success" := Flag(success)]
    case VerificationReport(buildOk, testsOk) => map["build_ok" := Flag(buildOk), "tests_ok" := Flag(testsOk)]
    case RunFinished(completion, answer) =>
      map["completion" := Number(CompletionNumber(completion)), "answer" := Text(answer)]
  }

  function CompletionNumber(c: RunCompletion): nat {
    match c
    case ImplementedVerified => 0
    case CompletedUnverified => 1
    case RunIsFailed => 2
    case RunIsCancelled => 3
  }

  function Types(reports: seq<Report>): seq<EventType> {
    seq(|reports|, i requires 0 <= i < |reports| => EventTypeOf(reports[i]))
  }

  function Count(reports: seq<Report>, t: EventType): nat {
    multiset(Types(reports))[t]
  }

  lemma CountAppend(reports: seq<Report>, r: Report, t: EventType)
    ensures Count(reports + [r], t) == Count(reports, t) + if EventTypeOf(r) == t then 1 else 0
  {
    assert Types(reports + [r]) == Types(reports) + [EventTypeOf(r)];
  }

  // ----- the state of the loop

  datatype RunState = RunState(
    state: AgentState,
    budget: Budget,
    turns: U32,
    answer: string,
    completion: RunCompletion,
    hadToolCalls: bool,
    conversation: seq<(string, string)>,
    reports: seq<Report>,
    prompts: seq<BuiltContext>,  // the contexts the model was asked with
    refused: nat,                // transitions that were refused
    polls: nat,
    chats: nat,
    dispatches: nat,
    builds: nat)

  /** What one round of the loop leads to. */
  datatype Round = Continue(st: RunState) | Leave(st: RunState) | Throw(st: RunState)

  datatype Outcome = Returned(st: RunState) | Aborted(st: RunState)

  function InitialBudget(req: RunRequest): Budget {
    if req.budget.maxTurns != 0 then req.budget else DefaultBudget(req.mode)
  }

  /** Before the start of the run is logged. */
  function Unstarted(req: RunRequest): RunState {
    RunState(Initializing, InitialBudget(req), 0, "", RunIsFailed, false, [], [], [], 0, 0, 0, 0, 0)
  }

  function InitialState(req: RunRequest): RunState {
    Log(Unstarted(req), RunStarted(req.goal, req.mode))
  }

  function Move(st: RunState, to: AgentState): RunState {
    st.(state := Next(st.state, to), refused := st.refused + if IsValidTransition(st.state, to) then 0 else 1)
  }

  function Log(st: RunState, r: Report): RunState {
    st.(reports := st.reports + [r])
  }

  /** The next event does not reach the log. */
  predicate LogFails(env: Environment, st: RunState) { env.appendThrows(|st.reports|) }

  function ContextRequest(req: RunRequest, st: RunState): BuildRequest {
    BuildRequest(req.goal, st.conversation, [], st.budget.maxInputTokens)
  }

  function CurrentContext(env: Environment, req: RunRequest, st: RunState): BuiltContext {
    BuildContext(env.workspace(st.builds), ContextRequest(req, st))
  }

  /** The budget after one more turn. */
  function Charge(b: Budget, usage: Option<Usage>): Budget {
    var b' := b.(usedTurns := Add32(b.usedTurns, 1));
    if usage.Some? then
      b'.(usedInputTokens := Add64(b.usedInputTokens, usage.value.promptTokens),
          usedOutputTokens := Add64(b.usedOutputTokens, usage.value.completionTokens))
    else b'
  }

  predicate IsDenial(o: ToolOutcome) {
    o.Dispatched? && o.result.Some? && o.result.value.error.Some? && o.result.value.error.value.isPermission
  }

  function Observation(result: Option<ToolResult>): string {
    if result.Some? then result.value.content else "tool failed"
  }

  /** One dispatched tool call is counted, whatever came of it. */
  function CountDispatch(st: RunState): RunState {
    st.(dispatches := st.dispatches + 1, hadToolCalls := true,
        budget := st.budget.(usedToolCalls := Add32(st.budget.usedToolCalls, 1)))
  }

  function Heard(st: RunState, result: Option<ToolResult>): RunState {
    st.(conversation := st.conversation + [("tool", Observation(result))])
  }

  function Observe(st: RunState, call: ToolCall, result: Option<ToolResult>): RunState {
    Log(Heard(st, result), ToolReport(call.name, result.Some? && result.value.success))
  }

  /** The loop over the tool calls of a response. */
  function RunTools(env: Environment, st: RunState, calls: seq<ToolCall>): Round
    decreases |calls|
  {
    if calls == [] then Continue(Move(st, Observing))
    else
      var polled := st.(polls := st.polls + 1);
      if env.cancelled(st.polls) then Throw(polled)
      else if env.dispatch(st.dispatches).ToolThrows? then Throw(polled)
      else
        var o := env.dispatch(st.dispatches);
        var counted := CountDispatch(polled);
        if IsDenial(o) then Continue(Move(counted, Failed).(answer := o.result.value.error.value.message))
        else if LogFails(env, st) then Throw(Heard(counted, o.result))
        else RunTools(env, Observe(counted, calls[0], o.result), calls[1..])
  }

  /** The turn is counted. */
  function Answered(st: RunState, response: Response): RunState {
    var charged := st.(chats := st.chats + 1, turns := Add32(st.turns, 1), budget := Charge(st.budget, response.usage));
    Move(charged, ParsingResponse)
  }

  /** The turn is counted and the response logged. */
  function Parsed(st: RunState, response: Response): RunState {
    Log(Answered(st, response), ModelResponse(response.content, |response.toolCalls|))
  }

  function TakeAnswer(req: RunRequest, st: RunState, content: string): RunState {
    var answered := st.(answer := content);
    if req.verify && req.mode == Agent then Move(answered, Verifying)
    else Move(answered, Completed).(completion := CompletedUnverified)
  }

  /** What happens once the model has answered. */
  function HandleResponse(env: Environment, req: RunRequest, st: RunState, response: Response): Round {
    var parsed := Parsed(st, response);
    if LogFails(env, st) then Throw(Answered(st, response))
    else if response.toolCalls != [] then RunTools(env, Move(parsed, ExecutingTools), response.toolCalls)
    else Continue(TakeAnswer(req, parsed, response.content))
  }

  /** The model is asked with the context of this moment. */
  function Asked(env: Environment, req: RunRequest, st: RunState): RunState {
    st.(builds := st.builds + 1, polls := st.polls + 1, prompts := st.prompts + [CurrentContext(env, req, st)])
  }

  function AskModel(env: Environment, req: RunRequest, st: RunState): Round {
    if env.buildThrows(st.builds) then Throw(st.(builds := st.builds + 1))
    else if env.cancelled(st.polls) then Throw(st.(builds := st.builds + 1, polls := st.polls + 1))
    else if env.chat(st.chats).ModelThrows? then Throw(Asked(env, req, st))
    else HandleResponse(env, req, Asked(env, req, st), env.chat(st.chats).response)
  }

  function Ready(st: RunState): RunState {
    Move(st.(builds := st.builds + 1, conversation := st.conversation + [("assistant", "context built")]),
         AwaitingModel)
  }

  /** The first context is built, announced and logged. */
  function WithContext(env: Environment, req: RunRequest, st: RunState): RunState {
    Log(Ready(st), ContextBuilt(|CurrentContext(env, req, st).items|))
  }

  function BuildFirst(env: Environment, req: RunRequest, st: RunState): Round {
    if env.buildThrows(st.builds) then Throw(st.(builds := st.builds + 1))
    else if LogFails(env, st) then Throw(Ready(st))
    else Continue(WithContext(env, req, st))
  }

  function Verify(env: Environment, st: RunState): Round {
    if env.verifier.VerifierThrows? || LogFails(env, st) then Throw(st)
    else
      var verified := env.verifier.buildOk && env.verifier.testsOk;
      var logged := Log(st, VerificationReport(env.verifier.buildOk, env.verifier.testsOk));
      var done := Move(logged, Completed);
      if verified then Continue(done.(completion := ImplementedVerified))
      else if st.hadToolCalls then
        Continue(done.(completion := CompletedUnverified, answer := done.answer + "\n[verification failed]"))
      else Continue(done.(completion := CompletedUnverified))
  }

  /** One round of the loop. */
  function Step(env: Environment, req: RunRequest, st: RunState): Round {
    var polled := st.(polls := st.polls + 1);
    if env.cancelled(st.polls) then Throw(polled)
    else if IsExhausted(st.budget) then Leave(Move(polled, Failed).(answer := "Budget exhausted"))
    else
      match st.state
      case Initializing => Continue(Move(polled, BuildingContext))
      case BuildingContext => BuildFirst(env, req, polled)
      case AwaitingModel => AskModel(env, req, polled)
      case Verifying => Verify(env, polled)
      case Observing => Continue(Move(polled, AwaitingModel))
      case _ => Continue(Move(polled, Failed).(answer := "unexpected state"))
  }

  /** Behind the loop the completion is settled. */
  function Settle(st: RunState): RunState {
    var repaired :=
      if st.state == Completed && st.completion == RunIsFailed then st.(completion := CompletedUnverified) else st;
    if repaired.state == Failed then repaired.(completion := RunIsFailed) else repaired
  }

  function Finish(st: RunState): RunState {
    Log(Settle(st), RunFinished(Settle(st).completion, Settle(st).answer))
  }

  /** The end of run: it returns unless its last event cannot be logged. */
  function End(env: Environment, st: RunState): Outcome {
    if LogFails(env, st) then Aborted(Settle(st)) else Returned(Finish(st))
  }

  function TurnsLeft(b: Budget): nat {
    if b.usedTurns < b.maxTurns then b.maxTurns - b.usedTurns else 0
  }

  /** How far a state is from the next turn, or from the end. */
  function Rank(s: AgentState): nat {
    match s
    case Initializing => 3
    case BuildingContext => 2
    case Observing => 2
    case Completed | Failed | Cancelled => 0
    case _ => 1
  }

  lemma {:induction false} ToolsKeepTurns(env: Environment, st: RunState, calls: seq<ToolCall>)
    ensures RunTools(env, st, calls).st.budget.maxTurns == st.budget.maxTurns
    ensures RunTools(env, st, calls).st.budget.usedTurns == st.budget.usedTurns
    ensures !RunTools(env, st, calls).Leave?
    decreases |calls|
  {
    hide Next, IsValidTransition;
    if calls != [] && env.dispatch(st.dispatches).Dispatched? {
      var counted := CountDispatch(st.(polls := st.polls + 1));
      ToolsKeepTurns(env, Observe(counted, calls[0], env.dispatch(st.dispatches).result), calls[1..]);
    }
  }

  lemma ResponseUsesTurn(env: Environment, req: RunRequest, st: RunState, response: Response)
    requires st.budget.usedTurns < st.budget.maxTurns
    ensures var b := HandleResponse(env, req, st, response).st.budget;
            b.maxTurns == st.budget.maxTurns && b.usedTurns == st.budget.usedTurns + 1
    ensures !HandleResponse(env, req, st, response).Leave?
  {
    hide Next, IsValidTransition, RunTools;
    ToolsKeepTurns(env, Move(Parsed(st, response), ExecutingTools), response.toolCalls);
  }

  lemma AskingUsesTurn(env: Environment, req: RunRequest, st: RunState)
    requires st.budget.usedTurns < st.budget.maxTurns && AskModel(env, req, st).Continue?
    ensures var b := AskModel(env, req, st).st.budget;
            b.maxTurns == st.budget.maxTurns && b.usedTurns == st.budget.usedTurns + 1
  {
    ResponseUsesTurn(env, req, Asked(env, req, st), env.chat(st.chats).response);
  }

  /** Only an exhausted budget leaves the loop. */
  lemma AskingNeverLeaves(env: Environment, req: RunRequest, st: RunState)
    ensures !AskModel(env, req, st).Leave?
  {
    hide RunTools, CurrentContext, IsValidTransition;
    if env.chat(st.chats).Answers? {
      var asked, response := Asked(env, req, st), env.chat(st.chats).response;
      ToolsKeepTurns(env, Move(Parsed(asked, response), ExecutingTools), response.toolCalls);
    }
  }

  lemma OthersNeverLeave(env: Environment, req: RunRequest, st: RunState)
    ensures !Verify(env, st).Leave? && !BuildFirst(env, req, st).Leave?
  {
  }

  /** Every round that continues uses a turn or comes closer to using one or to the end. */
  lemma StepProgresses(env: Environment, req: RunRequest, st: RunState)
    requires !IsTerminal(st.state) && Step(env, req, st).Continue?
    ensures var st' := Step(env, req, st).st;
            || TurnsLeft(st'.budget) < TurnsLeft(st.budget)
            || (TurnsLeft(st'.budget) == TurnsLeft(st.budget) && Rank(st'.state) < Rank(st.state))
  {
    hide AskModel, CurrentContext;
    if st.state == AwaitingModel {
      AskingUsesTurn(env, req, st.(polls := st.polls + 1));
    }
  }

  /** The whole run from a state of the loop: it ends, whatever the environment does. */
  function RunFrom(env: Environment, req: RunRequest, st: RunState): Outcome
    decreases TurnsLeft(st.budget), Rank(st.state)
  {
    if IsTerminal(st.state) then End(env, st)
    else
      match Step(env, req, st)
      case Throw(st') => Aborted(st')
      case Leave(st') => End(env, st')
      case Continue(st') => StepProgresses(env, req, st); RunFrom(env, req, st')
  }

  function Run(env: Environment, req: RunRequest): Outcome {
    if LogFails(env, Unstarted(req)) then Aborted(Unstarted(req)) else RunFrom(env, req, InitialState(req))
  }
}
