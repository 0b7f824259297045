/** Exactly when a run can pass its limit on tool calls. */
module AgentToolLimits {
  import opened Wrappers
  import opened AgentTypes
  import opened StateMachines
  import opened ContextBuilders
  import opened AgentRuns
  import opened AgentRunFacts
  import opened AgentRunBounds

  ghost predicate AtMost(env: Environment, k: nat) {
    forall n: nat :: BatchSize(env, n) <= k
  }

  function TurnsToGo(req: RunRequest): nat { TurnsLeft(InitialBudget(req)) }

  function CallsToGo(req: RunRequest): nat {
    var b := InitialBudget(req);
    if b.usedToolCalls < b.maxToolCalls then b.maxToolCalls - b.usedToolCalls else 0
  }

  // ----- short batches and few turns stay within the limit

  /** The dispatches so far and those the turns left can pay for, k each. */
  function Affordable(dispatches: nat, turns: nat, k: nat): nat { dispatches + k * turns }

  lemma TurnPays(dispatches: nat, turns: nat, k: nat, more: nat)
    requires 0 < turns && more <= k
    ensures Affordable(dispatches + more, turns - 1, k) <= Affordable(dispatches, turns, k)
    ensures dispatches + more <= Affordable(dispatches, turns, k)
  {
    assert k * (turns - 1) + k == k * turns;
  }

  lemma AffordsItself(dispatches: nat, turns: nat, k: nat)
    ensures dispatches <= Affordable(dispatches, turns, k)
  {
  }

  /** Every turn that is used up pays for one batch. */
  lemma StepSpends(env: Environment, req: RunRequest, st: RunState, k: nat)
    requires AtMost(env, k)
    ensures var r := Step(env, req, st);
            && (r.Continue? ==> Affordable(r.st.dispatches, TurnsLeft(r.st.budget), k)
                                <= Affordable(st.dispatches, TurnsLeft(st.budget), k))
            && r.st.dispatches <= Affordable(st.dispatches, TurnsLeft(st.budget), k)
  {
    hide AskModel, BatchSize, BuildFirst, Verify, Move, Affordable;
    AffordsItself(st.dispatches, TurnsLeft(st.budget), k);
    if st.state != AwaitingModel || IsExhausted(st.budget) {
      OtherStepsCountNothing(env, req, st);
    } else {
      var polled := st.(polls := st.polls + 1);
      AskingCounts(env, req, polled);
      AskingTakesTurn(env, req, polled);
      assert BatchSize(env, st.chats) <= k;
      TurnPays(st.dispatches, TurnsLeft(st.budget), k, AskModel(env, req, polled).st.dispatches - st.dispatches);
    }
  }

  lemma {:induction false} LoopSpends(env: Environment, req: RunRequest, st: RunState, k: nat)
    requires AtMost(env, k)
    ensures RunFrom(env, req, st).st.dispatches <= Affordable(st.dispatches, TurnsLeft(st.budget), k)
    decreases TurnsLeft(st.budget), Rank(st.state)
  {
    hide Step, AtMost, Affordable;
    AffordsItself(st.dispatches, TurnsLeft(st.budget), k);
    if !IsTerminal(st.state) {
      StepSpends(env, req, st, k);
      if Step(env, req, st).Continue? {
        StepProgresses(env, req, st);
        LoopSpends(env, req, Step(env, req, st).st, k);
      }
    }
  }

  lemma WithinLimit(env: Environment, req: RunRequest, k: nat)
    requires AtMost(env, k) && !IsExhausted(InitialBudget(req))
    requires k <= 1 || TurnsToGo(req) * k <= CallsToGo(req)
    ensures Run(env, req).st.dispatches <= CallsToGo(req)
  {
    hide Run, AtMost, TurnsToGo, CallsToGo, IsExhausted, InitialBudget;
    if k <= 1 {
      OneCallAtMost(env, req, k);
    } else {
      AllTurnsSpent(env, req, k);
    }
  }

  lemma OneCallAtMost(env: Environment, req: RunRequest, k: nat)
    requires AtMost(env, k) && !IsExhausted(InitialBudget(req)) && k <= 1
    ensures Run(env, req).st.dispatches <= CallsToGo(req)
  {
    hide Run, BatchSize, InitialBudget;
    ToolOvershoot(env, req);
    ShortBatchesFit(env, req, k, Run(env, req).st.chats);
  }

  lemma AllTurnsSpent(env: Environment, req: RunRequest, k: nat)
    requires AtMost(env, k)
    ensures Run(env, req).st.dispatches <= TurnsToGo(req) * k
  {
    hide RunFrom, AtMost, InitialBudget;
    LoopSpends(env, req, InitialState(req), k);
  }

  // ----- a model that asks for as much as it can

  function Calls(n: nat): (calls: seq<ToolCall>)
    ensures |calls| == n
  {
    seq(n, i => ToolCall("", "", ""))
  }

  function GreedyBatch(first: nat, k: nat, n: nat): nat { if n == 0 then first else k }

  function GreedyAnswer(first: nat, k: nat, n: nat): (o: ModelOutcome)
    ensures o.Answers? && |o.response.toolCalls| == GreedyBatch(first, k, n)
  {
    Answers(Response("", Calls(GreedyBatch(first, k, n)), None))
  }

  /** Every answer asks for k tool calls but the first, which asks for `first`; nothing else ever goes wrong. */
  function Greedy(first: nat, k: nat): Environment {
    Environment((n: nat) => GreedyAnswer(first, k, n), n => Dispatched(None),
                Verified(false, false), n => false, n => Workspace([], None, map[]), n => false, n => false)
  }

  lemma GreedyBatches(first: nat, k: nat)
    requires first <= k
    ensures AtMost(Greedy(first, k), k)
    ensures BatchSize(Greedy(first, k), 0) == first
  {
  }

  lemma GreedyIsKind(first: nat, k: nat)
    ensures forall n: nat :: Greedy(first, k).dispatch(n) == Dispatched(None)
    ensures forall n: nat :: !Greedy(first, k).cancelled(n) && !Greedy(first, k).appendThrows(n)
  {
  }

  lemma ObservingFollows(st: RunState)
    requires st.state == ExecutingTools
    ensures Move(st, Observing).state == Observing
  {
  }

  lemma StillExecuting(st: RunState, call: ToolCall)
    ensures Observe(CountDispatch(st.(polls := st.polls + 1)), call, None).state == st.state
  {
  }

  lemma {:induction false} GreedyTools(first: nat, k: nat, st: RunState, calls: seq<ToolCall>)
    requires st.state == ExecutingTools
    ensures var r := RunTools(Greedy(first, k), st, calls);
            && r.Continue? && r.st.state == Observing && r.st.chats == st.chats
            && r.st.dispatches == st.dispatches + |calls|
            && r.st.budget == st.budget.(usedToolCalls := (st.budget.usedToolCalls + |calls|) % 0x1_0000_0000)
    decreases |calls|
  {
    hide Observe, Heard, CountDispatch, Greedy, Move, Next;
    GreedyIsKind(first, k);
    if calls == [] {
      CallCounts(st, ToolCall("", "", ""), None, "");
      ObservingFollows(st);
    } else {
      var next := Observe(CountDispatch(st.(polls := st.polls + 1)), calls[0], None);
      CallCounts(st, calls[0], None, "");
      StillExecuting(st, calls[0]);
      GreedyTools(first, k, next, calls[1..]);
      AddWraps(st.budget.usedToolCalls + 1, |calls| - 1);
    }
  }

  /** An answer is counted, and its tools are about to be called. */
  lemma GreedyParsed(st: RunState, response: Response)
    requires st.state == AwaitingModel && response.usage == None && st.budget.usedTurns < st.budget.maxTurns
    ensures var st' := Move(Parsed(st, response), ExecutingTools);
            && st'.state == ExecutingTools && st'.chats == st.chats + 1 && st'.dispatches == st.dispatches
            && st'.budget == st.budget.(usedTurns := st.budget.usedTurns + 1)
  {
    hide IsValidTransition;
    AllowedMoves();
  }

  /** One turn of a greedy run. */
  lemma GreedyTurn(first: nat, k: nat, req: RunRequest, st: RunState)
    requires st.state == AwaitingModel && !IsExhausted(st.budget) && 0 < GreedyBatch(first, k, st.chats)
    ensures var r, batch := Step(Greedy(first, k), req, st), GreedyBatch(first, k, st.chats);
            && r.Continue? && r.st.state == Observing && r.st.chats == st.chats + 1
            && r.st.dispatches == st.dispatches + batch
            && r.st.budget == st.budget.(usedTurns := st.budget.usedTurns + 1,
                                         usedToolCalls := (st.budget.usedToolCalls + batch) % 0x1_0000_0000)
  {
    hide Move, CurrentContext, RunTools, Charge;
    var env, polled := Greedy(first, k), st.(polls := st.polls + 1);
    var asked, response := Asked(env, req, polled), env.chat(st.chats).response;
    assert response.usage == None && |response.toolCalls| == GreedyBatch(first, k, st.chats);
    GreedyParsed(asked, response);
    GreedyTools(first, k, Move(Parsed(asked, response), ExecutingTools), response.toolCalls);
  }

  /** The steps of a greedy run that ask nothing. */
  lemma GreedyStep(first: nat, k: nat, req: RunRequest, st: RunState)
    requires st.state in {Initializing, BuildingContext, Observing} && !IsExhausted(st.budget)
    ensures var r := Step(Greedy(first, k), req, st);
            && r.Continue? && r.st.chats == st.chats && r.st.dispatches == st.dispatches && r.st.budget == st.budget
            && r.st.state == if st.state == Initializing then BuildingContext else AwaitingModel
  {
    hide IsValidTransition, CurrentContext, IsExhausted;
    AllowedMoves();
  }

  lemma {:induction false} DispatchesStay(env: Environment, req: RunRequest, st: RunState)
    ensures st.dispatches <= RunFrom(env, req, st).st.dispatches
    decreases TurnsLeft(st.budget), Rank(st.state)
  {
    hide Step, IsExhausted;
    if !IsTerminal(st.state) {
      StepDispatches(env, req, st);
      if Step(env, req, st).Continue? {
        StepProgresses(env, req, st);
        DispatchesStay(env, req, Step(env, req, st).st);
      }
    }
  }

  lemma StepDispatches(env: Environment, req: RunRequest, st: RunState)
    ensures st.dispatches <= Step(env, req, st).st.dispatches
  {
    hide AskModel, BuildFirst, Verify, Move, IsExhausted;
    if st.state != AwaitingModel || IsExhausted(st.budget) {
      OtherStepsCountNothing(env, req, st);
    } else {
      AskingCounts(env, req, st.(polls := st.polls + 1));
    }
  }

  /** How many tool calls a state may still make. */
  function CallsLeft(b: Budget): int { b.maxToolCalls - b.usedToolCalls }

  /** q full batches of size k and a bit: full batches alone do not meet the limit exactly. */
  predicate Misses(calls: int, k: nat, q: nat, rest: nat) {
    0 < rest < k && calls == q * k + rest
  }

  lemma MissesNext(calls: int, k: nat, q: nat, rest: nat)
    requires Misses(calls, k, q, rest)
    ensures 0 < calls
    ensures q == 0 ==> calls < k
    ensures 0 < q ==> k < calls && Misses(calls - k, k, q - 1, rest)
  {
    if 0 < q {
      assert q * k == (q - 1) * k + k;
    }
  }

  /** After the first answer: if full batches miss the limit, and there are turns enough, it is passed. */
  lemma {:induction false} GreedyPasses(first: nat, k: nat, req: RunRequest, st: RunState, q: nat, rest: nat)
    requires st.state == AwaitingModel && !IsExhausted(st.budget) && (0 < st.chats || first == k) && 0 < k
    requires Misses(CallsLeft(st.budget), k, q, rest) && q < TurnsLeft(st.budget)
    ensures st.dispatches + CallsLeft(st.budget) < RunFrom(Greedy(first, k), req, st).st.dispatches
    decreases q
  {
    hide Step, Greedy, RunFrom, Misses;
    var env := Greedy(first, k);
    MissesNext(CallsLeft(st.budget), k, q, rest);
    GreedyTurn(first, k, req, st);
    var st1 := Step(env, req, st).st;
    GoesOn(env, req, st);
    if q == 0 {
      DispatchesStay(env, req, st1);
    } else {
      GreedyStep(first, k, req, st1);
      GoesOn(env, req, st1);
      GreedyPasses(first, k, req, Step(env, req, st1).st, q - 1, rest);
    }
  }

  /** If full batches would meet the limit exactly, a first batch with one call less makes them miss it. */
  lemma MissesAfterFirst(calls: int, k: nat, q: nat)
    requires 1 < k && 0 < q && calls == q * k
    ensures k - 1 < calls && Misses(calls - (k - 1), k, q - 1, 1)
  {
    assert q * k == (q - 1) * k + k;
  }

  /** The first turn of that kind. */
  lemma GreedyStarts(k: nat, req: RunRequest, st: RunState, q: nat)
    requires st.state == AwaitingModel && !IsExhausted(st.budget) && st.chats == 0 && 1 < k
    requires CallsLeft(st.budget) == q * k && 0 < q < TurnsLeft(st.budget)
    ensures st.dispatches + CallsLeft(st.budget) < RunFrom(Greedy(k - 1, k), req, st).st.dispatches
  {
    hide Step, Greedy, RunFrom, Misses;
    var env := Greedy(k - 1, k);
    MissesAfterFirst(CallsLeft(st.budget), k, q);
    GreedyTurn(k - 1, k, req, st);
    var st1 := Step(env, req, st).st;
    GoesOn(env, req, st);
    GreedyStep(k - 1, k, req, st1);
    GoesOn(env, req, st1);
    GreedyPasses(k - 1, k, req, Step(env, req, st1).st, q - 1, 1);
  }

  lemma GoesOn(env: Environment, req: RunRequest, st: RunState)
    requires !IsTerminal(st.state) && Step(env, req, st).Continue?
    ensures RunFrom(env, req, st) == RunFrom(env, req, Step(env, req, st).st)
  {
    StepProgresses(env, req, st);
  }

  /** A run that has not yet asked gets to its first question. */
  lemma GreedyRun(first: nat, k: nat, req: RunRequest) returns (st: RunState)
    requires !IsExhausted(InitialBudget(req))
    ensures Run(Greedy(first, k), req) == RunFrom(Greedy(first, k), req, st)
    ensures st.state == AwaitingModel && st.budget == InitialBudget(req) && st.chats == 0 && st.dispatches == 0
  {
    hide Step, RunFrom, InitialBudget, IsExhausted;
    var env, first' := Greedy(first, k), InitialState(req);
    GreedyStep(first, k, req, first');
    GoesOn(env, req, first');
    var second := Step(env, req, first').st;
    GreedyStep(first, k, req, second);
    GoesOn(env, req, second);
    st := Step(env, req, second).st;
  }

  /** What the model has to ask for at first in order to pass the limit. */
  function FirstBatch(req: RunRequest, k: nat): nat
    requires 0 < k
  {
    if CallsToGo(req) % k == 0 then k - 1 else k
  }

  lemma Monotone(a: nat, b: nat, k: nat)
    ensures a <= b ==> a * k <= b * k
  {
  }

  lemma FewerTurns(turns: nat, k: nat, calls: nat)
    requires 0 < k && calls < turns * k
    ensures calls == (calls / k) * k + calls % k && calls / k < turns
  {
    Monotone(turns, calls / k, k);
  }

  lemma PassesLimit(req: RunRequest, k: nat)
    requires !IsExhausted(InitialBudget(req)) && 1 < k && CallsToGo(req) < TurnsToGo(req) * k
    ensures CallsToGo(req) < Run(Greedy(FirstBatch(req, k), k), req).st.dispatches
  {
    hide Run, RunFrom, Greedy, InitialBudget;
    var st := GreedyRun(FirstBatch(req, k), k, req);
    FewerTurns(TurnsToGo(req), k, CallsToGo(req));
    if CallsToGo(req) % k == 0 {
      GreedyStarts(k, req, st, CallsToGo(req) / k);
    } else {
      GreedyPasses(k, k, req, st, CallsToGo(req) / k, CallsToGo(req) % k);
    }
  }

  /**
   * The limit on tool calls holds in every run whose answers ask for at most k calls each, exactly if the budget is
   * exhausted from the start, or k is one at most, or even k calls in every turn are within the limit.
   */
  lemma ToolLimitExactly(req: RunRequest, k: nat)
    ensures (forall env :: AtMost(env, k) ==> Run(env, req).st.dispatches <= CallsToGo(req)) <==>
            IsExhausted(InitialBudget(req)) || k <= 1 || TurnsToGo(req) * k <= CallsToGo(req)
  {
    hide Run, AtMost, InitialBudget, IsExhausted, TurnsToGo, CallsToGo;
    if IsExhausted(InitialBudget(req)) || k <= 1 || TurnsToGo(req) * k <= CallsToGo(req) {
      forall env | AtMost(env, k) ensures Run(env, req).st.dispatches <= CallsToGo(req) {
        if IsExhausted(InitialBudget(req)) {
          ExhaustedBudgetFailsAtOnce(env, req);
        } else {
          WithinLimit(env, req, k);
        }
      }
    } else {
      PassesLimit(req, k);
      GreedyBatches(FirstBatch(req, k), k);
      assert AtMost(Greedy(FirstBatch(req, k), k), k);
    }
  }

  const SMALL_REQUEST := RunRequest(Agent, "", false, Budget(5, 1, 1, 1, 1, 0, 0, 0, 0, 0))

  /** One tool call is allowed, and two are made. */
  lemma LimitIsPassed()
    ensures var st := Run(Greedy(2, 2), SMALL_REQUEST).st;
            st.budget.maxToolCalls == 1 && st.budget.usedToolCalls == 2 && st.dispatches == 2
  {
    hide Run, Greedy, BatchSize, CounterFits;
    PassesLimit(SMALL_REQUEST, 2);
    ToolOvershoot(Greedy(2, 2), SMALL_REQUEST);
    LimitStays(Greedy(2, 2), SMALL_REQUEST);
    GreedyBatches(2, 2);
    ShortBatchesFit(Greedy(2, 2), SMALL_REQUEST, 2, Run(Greedy(2, 2), SMALL_REQUEST).st.chats);
  }

  lemma ShortBatchesFit(env: Environment, req: RunRequest, k: nat, n: nat)
    requires AtMost(env, k) && InitialBudget(req).maxToolCalls + k <= 0x1_0000_0000
    ensures CounterFits(env, req, n)
    ensures 0 < n ==> BatchSize(env, n - 1) <= k
  {
    hide BatchSize, InitialBudget;
  }

  lemma LimitStays(env: Environment, req: RunRequest)
    ensures Run(env, req).st.budget.maxToolCalls == InitialBudget(req).maxToolCalls
  {
    hide RunFrom, CounterFits;
    LoopIsBounded(env, req, InitialState(req));
  }
}
