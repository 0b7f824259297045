/** The states of an agent run, the edges between them, and the object that walks along them. */
module StateMachines {

  datatype AgentState =
    | Initializing
    | Understanding
    | Planning
    | SelectingModel
    | BuildingContext
    | AwaitingModel
    | ParsingResponse
    | AwaitingPermission
    | ExecutingTools
    | Observing
    | Verifying
    | Recovering
    | Completed
    | Failed
    | Cancelled

  const EDGES: set<(AgentState, AgentState)> := {
    (Initializing, Understanding), (Initializing, BuildingContext),
    (Understanding, Planning), (Understanding, BuildingContext),
    (Planning, BuildingContext),
    (SelectingModel, BuildingContext),
    (BuildingContext, AwaitingModel),
    (AwaitingModel, ParsingResponse),
    (ParsingResponse, ExecutingTools), (ParsingResponse, Observing),
    (ParsingResponse, Verifying), (ParsingResponse, Completed),
    (AwaitingPermission, ExecutingTools), (AwaitingPermission, Failed),
    (ExecutingTools, Observing),
    (Observing, AwaitingModel), (Observing, Verifying), (Observing, Completed),
    (Verifying, Completed), (Verifying, Recovering),
    (Recovering, AwaitingModel), (Recovering, Failed)
  }

  predicate IsValidTransition(from: AgentState, to: AgentState) {
    if (from, to) in EDGES then true
    else if from == to then true
    else if to == Failed || to == Cancelled then from != Completed
    else false
  }

  predicate IsTerminal(s: AgentState) {
    s == Completed || s == Failed || s == Cancelled
  }

  /** What a call of transition does to the state. */
  function Next(s: AgentState, to: AgentState): AgentState {
    if IsValidTransition(s, to) then to else s
  }

  class StateMachine {
    var state: AgentState
    var lastError: string

    constructor (initial: AgentState)
      ensures state == initial && lastError == ""
    {
      state := initial;
      lastError := "";
    }

    /** A refused transition leaves the state and records an error; an accepted one clears it. */
    method Transition(to: AgentState) returns (ok: bool)
      modifies this
      ensures ok == IsValidTransition(old(state), to)
      ensures state == Next(old(state), to)
      ensures lastError == "" <==> ok
    {
      if !IsValidTransition(state, to) {
        lastError := "invalid transition";
        return false;
      }
      state := to;
      lastError := "";
      return true;
    }
  }

  // ----- every sequence of calls

  /** The states a machine is in when transition is called with these targets one after the other. */
  function Visited(s: AgentState, targets: seq<AgentState>): (path: seq<AgentState>)
    ensures |path| == |targets| + 1 && path[0] == s
    decreases |targets|
  {
    if targets == [] then [s] else [s] + Visited(Next(s, targets[0]), targets[1..])
  }

  function FinalState(s: AgentState, targets: seq<AgentState>): AgentState {
    Visited(s, targets)[|targets|]
  }

  /** Once terminal, always terminal, and Completed is never left. */
  lemma {:induction false} TerminalIsForGood(s: AgentState, targets: seq<AgentState>, k: nat)
    requires IsTerminal(s) && k <= |targets|
    ensures IsTerminal(Visited(s, targets)[k])
    ensures s == Completed <==> Visited(s, targets)[k] == Completed
    decreases |targets|
  {
    if 0 < k {
      TerminalIsForGood(Next(s, targets[0]), targets[1..], k - 1);
    }
  }

  /** Two states no call leads to. */
  lemma {:induction false} NeverVisited(s: AgentState, targets: seq<AgentState>, k: nat)
    requires s != SelectingModel && s != AwaitingPermission && k <= |targets|
    ensures Visited(s, targets)[k] != SelectingModel && Visited(s, targets)[k] != AwaitingPermission
    decreases |targets|
  {
    if 0 < k {
      NeverVisited(Next(s, targets[0]), targets[1..], k - 1);
    }
  }

  /** In s no model response has been parsed yet, and what is missing before that. */
  predicate BeforeContext(s: AgentState) {
    s in {Initializing, Understanding, Planning, SelectingModel, Failed, Cancelled}
  }

  predicate BeforeModel(s: AgentState) { BeforeContext(s) || s == BuildingContext }

  predicate BeforeParsing(s: AgentState) { BeforeModel(s) || s == AwaitingModel }

  /** The way from a state in `inside` to one outside leads over `gate`. */
  lemma {:induction false} PassesGate(s: AgentState, targets: seq<AgentState>, inside: AgentState -> bool,
                                      gate: AgentState)
    returns (k: nat)
    requires inside(s) && !inside(FinalState(s, targets))
    requires forall a, b {:trigger inside(a), inside(b)} :: inside(a) && IsValidTransition(a, b) && !inside(b) ==>
             b == gate
    ensures 0 < k <= |targets| && Visited(s, targets)[k] == gate
    ensures forall i :: 0 <= i < k ==> inside(Visited(s, targets)[i])
    decreases |targets|
  {
    var t := Next(s, targets[0]);
    if inside(t) {
      k := PassesGate(t, targets[1..], inside, gate);
      k := k + 1;
    } else {
      assert IsValidTransition(s, t);
      k := 1;
    }
  }

  /** Nothing is completed without building context, asking the model and parsing its response, in this order. */
  lemma CompletionTakesAllSteps(targets: seq<AgentState>)
    returns (context: nat, model: nat, parsing: nat)
    requires FinalState(Initializing, targets) == Completed
    ensures context < model < parsing <= |targets|
    ensures var path := Visited(Initializing, targets);
            path[context] == BuildingContext && path[model] == AwaitingModel && path[parsing] == ParsingResponse
  {
    context := PassesGate(Initializing, targets, BeforeContext, BuildingContext);
    model := PassesGate(Initializing, targets, BeforeModel, AwaitingModel);
    parsing := PassesGate(Initializing, targets, BeforeParsing, ParsingResponse);
    var path := Visited(Initializing, targets);
    assert BeforeModel(path[context]) && BeforeParsing(path[model]);
    assert !BeforeContext(path[context]) && !BeforeContext(path[model]) && !BeforeModel(path[parsing]);
  }

  // ----- the edges, state by state

  /** Where a transition may lead from each state, besides staying, failing and being cancelled. */
  function WaysOn(s: AgentState): seq<AgentState> {
    match s
    case Initializing => [Understanding, BuildingContext]
    case Understanding => [Planning, BuildingContext]
    case Planning => [BuildingContext]
    case SelectingModel => [BuildingContext]
    case BuildingContext => [AwaitingModel]
    case AwaitingModel => [ParsingResponse]
    case ParsingResponse => [ExecutingTools, Observing, Verifying, Completed]
    case AwaitingPermission => [ExecutingTools]
    case ExecutingTools => [Observing]
    case Observing => [AwaitingModel, Verifying, Completed]
    case Verifying => [Completed, Recovering]
    case Recovering => [AwaitingModel]
    case Completed | Failed | Cancelled => []
  }

  lemma EdgesByState(s: AgentState, to: AgentState)
    ensures IsValidTransition(s, to) <==>
            to == s || to in WaysOn(s) || (s != Completed && (to == Failed || to == Cancelled))
  {
  }

  lemma {:induction false} OneMoreCall(s: AgentState, targets: seq<AgentState>, to: AgentState)
    ensures FinalState(s, targets + [to]) == Next(FinalState(s, targets), to)
    decreases |targets|
  {
    hide Next;
    if targets == [] {
      assert [to][1..] == [];
      assert targets + [to] == [to];
    } else {
      assert (targets + [to])[1..] == targets[1..] + [to];
      OneMoreCall(Next(s, targets[0]), targets[1..], to);
    }
  }

  /** From where a state can be reached, and in how many calls. */
  function ReachedFrom(s: AgentState): (AgentState, nat) {
    match s
    case Understanding | BuildingContext | Failed | Cancelled => (Initializing, 1)
    case Planning => (Understanding, 2)
    case AwaitingModel => (BuildingContext, 2)
    case ParsingResponse => (AwaitingModel, 3)
    case ExecutingTools | Observing | Verifying | Completed => (ParsingResponse, 4)
    case Recovering => (Verifying, 5)
    case Initializing | SelectingModel | AwaitingPermission => (s, 0)
  }

  lemma {:induction false} Reached(s: AgentState) returns (targets: seq<AgentState>)
    requires s != SelectingModel && s != AwaitingPermission
    ensures FinalState(Initializing, targets) == s
    decreases ReachedFrom(s).1
  {
    if s == Initializing {
      targets := [];
    } else {
      var before := ReachedFrom(s).0;
      var way := Reached(before);
      OneMoreCall(Initializing, way, s);
      EdgesByState(before, s);
      targets := way + [s];
    }
  }

  /** Exactly two states are never reached. */
  lemma ReachedExactly(s: AgentState)
    ensures (exists targets :: FinalState(Initializing, targets) == s) <==>
            s != SelectingModel && s != AwaitingPermission
  {
    if s == SelectingModel || s == AwaitingPermission {
      forall targets ensures FinalState(Initializing, targets) != s {
        NeverVisited(Initializing, targets, |targets|);
      }
    } else {
      var targets := Reached(s);
    }
  }
}
