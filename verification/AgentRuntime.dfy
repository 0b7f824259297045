/** AgentRuntime::run as the loop it is. */
module AgentRuntimes {
  import opened Wrappers
  import opened AgentTypes
  import opened StateMachines
  import opened EventTypes
  import opened EventLogs
  import opened ContextBuilders
  import opened AgentRuns
  import opened AgentRunFacts

  datatype AgentRun = AgentRun(
    id: string, mode: AgentMode, state: AgentState, completion: RunCompletion,
    finalAnswer: string, budget: Budget, turns: U32)

  /** The result, or the exception that ended the run early. */
  datatype RunResult = Finished(run: AgentRun) | Threw

  /** The events of a run as the log keeps them. */
  function Stamp(runId: string, reports: seq<Report>, redacted: Payload -> Payload): seq<Event> {
    seq(|reports|, i requires 0 <= i < |reports| => StampOne(runId, reports[i], redacted))
  }

  function StampOne(runId: string, r: Report, redacted: Payload -> Payload): Event {
    Event(runId, EventTypeOf(r), redacted(PayloadOf(r)))
  }

  /** What each report of a run becomes in the log. */
  lemma ReportsAsEvents(id: string, redacted: Payload -> Payload)
    ensures forall goal, mode ::
              StampOne(id, RunStarted(goal, mode), redacted) ==
              Event(id, SessionStarted, redacted(map["goal" := Text(goal), "mode" := Text(ModeName(mode))]))
    ensures forall n: nat ::
              StampOne(id, ContextBuilt(n), redacted) ==
              Event(id, StateChanged, redacted(map["items" := Number(n)]))
    ensures forall content, n: nat ::
              StampOne(id, ModelResponse(content, n), redacted) ==
              Event(id, AssistantMessage, redacted(map["content" := Text(content), "tool_calls" := Number(n)]))
    ensures forall tool, ok ::
              StampOne(id, ToolReport(tool, ok), redacted) ==
              Event(id, ToolCompleted, redacted(map["tool" := Text(tool), "success" := Flag(ok)]))
    ensures forall build, tests ::
              StampOne(id, VerificationReport(build, tests), redacted) ==
              Event(id, if build && tests then VerificationPassed else VerificationFailed,
                    redacted(map["build_ok" := Flag(build), "tests_ok" := Flag(tests)]))
    ensures forall completion, answer ::
              StampOne(id, RunFinished(completion, answer), redacted) ==
              Event(id, RunCompleted,
                    redacted(map["completion" := Number(match completion
                                                        case ImplementedVerified => 0
                                                        case CompletedUnverified => 1
                                                        case RunIsFailed => 2
                                                        case RunIsCancelled => 3),
                                 "answer" := Text(answer)]))
    ensures [ModeName(Agent), ModeName(Plan), ModeName(Ask), ModeName(Debug), ModeName(Review), ModeName(Chat),
             ModeName(Data), ModeName(Research)] ==
            ["agent", "plan", "ask", "debug", "review", "chat", "data", "research"]
  {
  }

  /** The local variables of run, and how often the world outside has been asked. */
  class ActiveRun {
    const env: Environment
    const req: RunRequest
    const id: string
    const eventLog: EventLog?
    const sm: StateMachine
    var budget: Budget
    var turns: U32
    var finalAnswer: string
    var completion: RunCompletion
    var hadToolCalls: bool
    var conversation: seq<(string, string)>
    var polls: nat
    var chats: nat
    var dispatches: nat
    var builds: nat
    var appends: nat
    ghost var reports: seq<Report>
    ghost var prompts: seq<BuiltContext>
    ghost var refused: nat
    ghost const before: seq<Event>

    constructor (env: Environment, req: RunRequest, id: string, eventLog: EventLog?)
      requires eventLog == null ==> NeverFails(env)
      ensures this.env == env && this.req == req && this.id == id && this.eventLog == eventLog
      ensures fresh(sm) && View() == Unstarted(req)
      ensures before == (if eventLog == null then [] else Events(eventLog.lines))
      ensures Logged()
    {
      this.env, this.req, this.id, this.eventLog := env, req, id, eventLog;
      sm := new StateMachine(Initializing);
      budget := if req.budget.maxTurns != 0 then req.budget else DefaultBudget(req.mode);
      turns, finalAnswer, completion, hadToolCalls := 0, "", RunIsFailed, false;
      conversation := [];
      polls, chats, dispatches, builds, appends := 0, 0, 0, 0, 0;
      reports, prompts, refused := [], [], 0;
      before := if eventLog == null then [] else Events(eventLog.lines);
      new;
      assert eventLog != null ==> Stamp(id, [], eventLog.redacted) == [];
    }

    /** The state of the run as the specification sees it. */
    ghost function View(): RunState
      reads this, sm
    {
      RunState(sm.state, budget, turns, finalAnswer, completion, hadToolCalls, conversation, reports, prompts, refused,
               polls, chats, dispatches, builds)
    }

    /** The log holds what it held before the run, and behind it all the run has reported. */
    ghost predicate Logged()
      reads this`reports, this`appends, if eventLog == null then {} else {eventLog}
    {
      && appends == |reports|
      && (if eventLog == null then NeverFails(env)
          else Events(eventLog.lines) == before + Stamp(id, reports, eventLog.redacted))
    }

    ghost function Footprint(): set<object> {
      {this, sm} + if eventLog == null then {} else {eventLog}
    }

    /** log_event: without a log nothing happens, and with one the event is appended or an exception thrown. */
    method LogEvent(report: Report) returns (threw: bool)
      requires Logged()
      modifies this`reports, this`appends, if eventLog == null then {} else {eventLog}
      ensures Logged() && threw == LogFails(env, old(View()))
      ensures View() == if threw then old(View()) else Log(old(View()), report)
    {
      if eventLog != null {
        if env.appendThrows(appends) {
          return true;
        }
        eventLog.Append(id, EventTypeOf(report), PayloadOf(report));
        assert Stamp(id, reports + [report], eventLog.redacted) ==
               Stamp(id, reports, eventLog.redacted) + [StampOne(id, report, eventLog.redacted)];
      }
      reports := reports + [report];
      appends := appends + 1;
      threw := false;
    }

    /** A transition whose answer is discarded. */
    method Transition(to: AgentState)
      modifies sm, this`refused
      ensures View() == Move(old(View()), to)
    {
      var ok := sm.Transition(to);
      refused := refused + if ok then 0 else 1;
    }

    /** throw_if_cancelled */
    method Poll() returns (threw: bool)
      modifies this`polls
      ensures threw == env.cancelled(old(polls)) && polls == old(polls) + 1
      ensures View() == old(View()).(polls := old(polls) + 1)
    {
      threw := env.cancelled(polls);
      polls := polls + 1;
    }

    /** builder.build, which may throw. */
    method BuildContextNow() returns (threw: bool, built: BuiltContext)
      modifies this`builds
      ensures threw == env.buildThrows(old(builds)) && builds == old(builds) + 1
      ensures !threw ==> built == CurrentContext(env, req, old(View()))
    {
      threw := env.buildThrows(builds);
      if threw {
        builds := builds + 1;
        built := EMPTY;
        return;
      }
      var builder := new ContextBuilder(env.workspace(builds));
      built := builder.Build(BuildRequest(req.goal, conversation, [], budget.maxInputTokens));
      builds := builds + 1;
    }

    /** A dispatched call is counted. */
    method CountTool()
      modifies this`dispatches, this`hadToolCalls, this`budget
      ensures View() == CountDispatch(old(View()))
    {
      dispatches := dispatches + 1;
      hadToolCalls := true;
      budget := budget.(usedToolCalls := Add32(budget.usedToolCalls, 1));
    }

    /** What a call yielded goes into the conversation and the log. */
    method ObserveTool(call: ToolCall, result: Option<ToolResult>) returns (threw: bool)
      requires Logged()
      modifies this`conversation, this`reports, this`appends, if eventLog == null then {} else {eventLog}
      ensures Logged() && threw == LogFails(env, old(View()))
      ensures View() == if threw then Heard(old(View()), result) else Observe(old(View()), call, result)
    {
      var observation := if result.Some? then result.value.content else "tool failed";
      conversation := conversation + [("tool", observation)];
      threw := LogEvent(ToolReport(call.name, result.Some? && result.value.success));
    }

    /** The run fails, with this answer. */
    method FailWith(message: string)
      modifies this`refused, this`finalAnswer, sm
      ensures View() == Move(old(View()), Failed).(answer := message)
    {
      Transition(Failed);
      finalAnswer := message;
    }

    lemma ViewTells()
      ensures View().state == sm.state && View().budget == budget
      ensures View().polls == polls && View().dispatches == dispatches
    {
    }

    /** The loop over the tool calls of one response. */
    method ExecuteTools(calls: seq<ToolCall>) returns (threw: bool)
      requires Logged() && sm.state == ExecutingTools
      modifies Footprint()
      ensures Logged()
      ensures var r := RunTools(env, old(View()), calls);
              threw == r.Throw? && View() == r.st
    {
      hide Next, IsDenial, Logged, CountDispatch, Observe, Heard, LogFails, RunTools, View, Move;
      ghost var goal := RunTools(env, View(), calls);
      var k := 0;
      assert calls[0..] == calls && calls[|calls|..] == [];
      while k < |calls|
        invariant k <= |calls| && Logged() && sm.state == ExecutingTools
        invariant RunTools(env, View(), calls[k..]) == goal
      {
        ghost var st := View();
        ViewTells();
        ToolsUnfold(env, st, calls, k);
        threw := Poll();
        if threw {
          return;
        }
        var outcome := env.dispatch(dispatches);
        if outcome.ToolThrows? {
          return true;
        }
        var result := outcome.result;
        CountTool();
        DenialMeans(outcome);
        ToolStates(st, calls[k], result);
        if result.Some? && result.value.error.Some? && result.value.error.value.isPermission {
          FailWith(result.value.error.value.message);
          ViewTells();
          break;
        }
        threw := ObserveTool(calls[k], result);
        if threw {
          return;
        }
        ViewTells();
        k := k + 1;
      }
      if sm.state != Failed {
        ToolsDone(env, View());
        Transition(Observing);
      }
      threw := false;
    }

    /** A response is counted, charged and logged. */
    method NoteResponse(response: Response) returns (threw: bool)
      requires Logged()
      modifies Footprint()
      ensures Logged() && threw == LogFails(env, old(View()))
      ensures View() == if threw then Answered(old(View()), response) else Parsed(old(View()), response)
    {
      hide IsValidTransition, EventTypeOf, Events;
      chats := chats + 1;
      budget := Charged(response.usage);
      turns := Add32(turns, 1);
      Transition(ParsingResponse);
      threw := LogEvent(ModelResponse(response.content, |response.toolCalls|));
    }

    function Charged(usage: Option<Usage>): (b: Budget)
      reads this`budget
      ensures b == Charge(budget, usage)
    {
      var b := budget.(usedTurns := Add32(budget.usedTurns, 1));
      if usage.Some? then
        b.(usedInputTokens := Add64(b.usedInputTokens, usage.value.promptTokens),
           usedOutputTokens := Add64(b.usedOutputTokens, usage.value.completionTokens))
      else b
    }

    method AcceptAnswer(content: string)
      modifies this`finalAnswer, this`completion, this`refused, sm
      ensures View() == TakeAnswer(req, old(View()), content)
    {
      finalAnswer := content;
      if req.verify && req.mode == Agent {
        Transition(Verifying);
      } else {
        Transition(Completed);
        completion := CompletedUnverified;
      }
    }

    /** What follows once the model has answered. */
    method HandleAnswer(response: Response) returns (threw: bool)
      requires Logged() && sm.state == AwaitingModel
      modifies Footprint()
      ensures Logged()
      ensures var r := HandleResponse(env, req, old(View()), response);
              threw == r.Throw? && View() == r.st
    {
      hide RunTools, Next, Parsed, Answered, Logged, TakeAnswer, Move, View;
      ViewTells();
      ghost var st := View();
      AnsweringNeverLeaves(env, req, st, response);
      ParsedState(st, response);
      threw := NoteResponse(response);
      if threw {
        return;
      }
      if response.toolCalls != [] {
        Transition(ExecutingTools);
        ViewTells();
        threw := ExecuteTools(response.toolCalls);
      } else {
        AcceptAnswer(response.content);
      }
    }

    /** The case AwaitingModel of the loop. */
    method AwaitModel() returns (threw: bool)
      requires Logged() && sm.state == AwaitingModel
      modifies Footprint()
      ensures Logged()
      ensures var r := AskModel(env, req, old(View()));
              threw == r.Throw? && View() == r.st
    {
      hide HandleResponse, CurrentContext, Logged;
      ghost var st := View();
      var built;
      threw, built := BuildContextNow();
      if threw {
        return;
      }
      threw := Poll();
      if threw {
        return;
      }
      prompts := prompts + [built];
      assert View() == Asked(env, req, st);
      var outcome := env.chat(chats);
      if outcome.ModelThrows? {
        return true;
      }
      threw := HandleAnswer(outcome.response);
    }

    /** The case BuildingContext of the loop. */
    method BuildContextFirst() returns (threw: bool)
      requires Logged()
      modifies Footprint()
      ensures Logged()
      ensures var r := BuildFirst(env, req, old(View()));
              threw == r.Throw? && View() == r.st
    {
      hide CurrentContext, Next, Logged;
      var built;
      threw, built := BuildContextNow();
      if threw {
        return;
      }
      conversation := conversation + [("assistant", "context built")];
      Transition(AwaitingModel);
      threw := LogEvent(ContextBuilt(|built.items|));
    }

    /** The case Verifying of the loop. */
    method RunVerifier() returns (threw: bool)
      requires Logged() && sm.state == Verifying
      modifies Footprint()
      ensures Logged()
      ensures var r := Verify(env, old(View()));
              threw == r.Throw? && View() == r.st
    {
      hide Next, IsValidTransition, Logged;
      if env.verifier.VerifierThrows? {
        return true;
      }
      var verified := env.verifier.buildOk && env.verifier.testsOk;
      threw := LogEvent(VerificationReport(env.verifier.buildOk, env.verifier.testsOk));
      if threw {
        return;
      }
      Transition(Completed);
      if verified {
        completion := ImplementedVerified;
      } else if hadToolCalls {
        completion := CompletedUnverified;
        finalAnswer := finalAnswer + "\n[verification failed]";
      } else {
        completion := CompletedUnverified;
      }
    }

    /** What follows the loop. */
    method EndRun() returns (threw: bool)
      requires Logged()
      modifies Footprint()
      ensures Logged()
      ensures threw == End(env, old(View())).Aborted? && View() == End(env, old(View())).st
    {
      hide EventTypeOf, Events;
      if sm.state == Completed && completion == RunIsFailed {
        completion := CompletedUnverified;
      }
      if sm.state == Failed {
        completion := RunIsFailed;
      }
      threw := LogEvent(RunFinished(completion, finalAnswer));
    }

    /** One round of the loop: whether it threw, and whether it left the loop. */
    method TakeStep() returns (threw: bool, left: bool)
      requires Logged()
      modifies Footprint()
      ensures Logged()
      ensures var r := Step(env, req, old(View()));
              threw == r.Throw? && left == r.Leave? && View() == r.st
    {
      hide AskModel, Verify, BuildFirst, Move, IsExhausted, Logged, View;
      ViewTells();
      left := false;
      threw := Poll();
      ViewTells();
      if threw {
        return;
      }
      if IsExhausted(budget) {
        FailWith("Budget exhausted");
        left := true;
        return;
      }
      match sm.state
      case Initializing => Transition(BuildingContext);
      case BuildingContext =>
        OthersNeverLeave(env, req, View());
        threw := BuildContextFirst();
      case AwaitingModel =>
        AskingNeverLeaves(env, req, View());
        threw := AwaitModel();
      case Verifying =>
        OthersNeverLeave(env, req, View());
        threw := RunVerifier();
      case Observing => Transition(AwaitingModel);
      case _ => FailWith("unexpected state");
    }
  }

  lemma AnsweringNeverLeaves(env: Environment, req: RunRequest, st: RunState, response: Response)
    ensures !HandleResponse(env, req, st, response).Leave?
  {
    hide RunTools, Parsed, Answered, Move;
    if response.toolCalls != [] {
      ToolsKeepTurns(env, Move(Parsed(st, response), ExecutingTools), response.toolCalls);
    }
  }

  /** One call of the batch. */
  lemma ToolsUnfold(env: Environment, st: RunState, calls: seq<ToolCall>, k: nat)
    requires k < |calls|
    ensures var polled := st.(polls := st.polls + 1);
            var o := env.dispatch(st.dispatches);
            RunTools(env, st, calls[k..]) ==
            if env.cancelled(st.polls) || o.ToolThrows? then Throw(polled)
            else if IsDenial(o) then
              Continue(Move(CountDispatch(polled), Failed).(answer := o.result.value.error.value.message))
            else if LogFails(env, CountDispatch(polled)) then Throw(Heard(CountDispatch(polled), o.result))
            else RunTools(env, Observe(CountDispatch(polled), calls[k], o.result), calls[k + 1..])
  {
    hide Observe, CountDispatch, Heard, Move, IsDenial;
    LogIndex(st);
    assert calls[k..][1..] == calls[k + 1..];
  }

  lemma LogIndex(st: RunState)
    ensures CountDispatch(st.(polls := st.polls + 1)).reports == st.reports
  {
  }

  lemma ToolStates(st: RunState, call: ToolCall, result: Option<ToolResult>)
    requires st.state == ExecutingTools
    ensures var counted := CountDispatch(st.(polls := st.polls + 1));
            Observe(counted, call, result).state == ExecutingTools && Move(counted, Failed).state == Failed
  {
  }

  lemma ToolsDone(env: Environment, st: RunState)
    ensures RunTools(env, st, []) == Continue(Move(st, Observing))
  {
  }

  lemma DenialMeans(o: ToolOutcome)
    ensures IsDenial(o) <==>
            o.Dispatched? && o.result.Some? && o.result.value.error.Some? && o.result.value.error.value.isPermission
  {
  }

  lemma ParsedState(st: RunState, response: Response)
    requires st.state == AwaitingModel
    ensures Move(Parsed(st, response), ExecutingTools).state == ExecutingTools
  {
    AllowedMoves();
  }

  ghost predicate NeverFails(env: Environment) { forall n: nat :: !env.appendThrows(n) }

  const Never: nat -> bool := n => false

  /** Without a log, no append throws. */
  function Around(env: Environment, hasLog: bool): Environment {
    if hasLog then env else env.(appendThrows := Never)
  }

  class AgentRuntime {
    const env: Environment
    const eventLog: EventLog?

    constructor (env: Environment, eventLog: EventLog?)
      ensures this.env == env && this.eventLog == eventLog
    {
      this.env, this.eventLog := env, eventLog;
    }

    /** run: the result is that of the specified run, and the log grows by exactly its trace. */
    method RunAgent(req: RunRequest, id: string) returns (result: RunResult)
      modifies if eventLog == null then {} else {eventLog}
      ensures match Run(Around(env, eventLog != null), req)
              case Returned(st) =>
                result == Finished(AgentRun(id, req.mode, st.state, st.completion, st.answer, st.budget, st.turns))
              case Aborted(_) => result == Threw
      ensures eventLog != null ==>
                Events(eventLog.lines) ==
                old(Events(eventLog.lines)) + Stamp(id, Run(env, req).st.reports, eventLog.redacted)
    {
      hide Step, Events, Stamp, EventTypeOf, End;
      var env := Around(env, eventLog != null);
      var run := new ActiveRun(env, req, id, eventLog);
      var threw := run.LogEvent(RunStarted(req.goal, req.mode));
      if threw {
        return Threw;
      }
      while !IsTerminal(run.sm.state)
        invariant fresh(run) && fresh(run.sm) && run.Logged()
        invariant RunFrom(env, req, run.View()) == Run(env, req)
        decreases TurnsLeft(run.budget), Rank(run.sm.state)
      {
        ghost var st := run.View();
        if Step(env, req, st).Continue? {
          StepProgresses(env, req, st);
        }
        var left;
        threw, left := run.TakeStep();
        if threw {
          return Threw;
        }
        if left {
          break;
        }
      }
      threw := run.EndRun();
      if threw {
        return Threw;
      }
      result := Finished(AgentRun(id, req.mode, run.sm.state, run.completion, run.finalAnswer, run.budget, run.turns));
    }
  }
}
