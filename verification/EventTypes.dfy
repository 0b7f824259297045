/** The kinds of events in the log. */
module EventTypes {
  import opened Wrappers

  datatype EventType =
    | SessionStarted
    | UserMessage
    | AssistantMessage
    | ModeChanged
    | ModelSelected
    | ToolRequested
    | ToolCompleted
    | VerificationFailed
    | VerificationPassed
    | RunCompleted
    | RunFailed
    | RunCancelled
    | StateChanged
    | BudgetWarning
    | ErrorOccurred

  /** The payload of an event: a JSON object with a few plain members. */
  datatype Value = Text(text: string) | Number(number: int) | Flag(flag: bool)

  type Payload = map<string, Value>

  function ToString(t: EventType): string {
    match t
    case SessionStarted => "SessionStarted"
    case UserMessage => "UserMessage"
    case AssistantMessage => "AssistantMessage"
    case ModeChanged => "ModeChanged"
    case ModelSelected => "ModelSelected"
    case ToolRequested => "ToolRequested"
    case ToolCompleted => "ToolCompleted"
    case VerificationFailed => "VerificationFailed"
    case VerificationPassed => "VerificationPassed"
    case RunCompleted => "RunCompleted"
    case RunFailed => "RunFailed"
    case RunCancelled => "RunCancelled"
    case StateChanged => "StateChanged"
    case BudgetWarning => "BudgetWarning"
    case ErrorOccurred => "ErrorOccurred"
  }

  const MAPPINGS: seq<(string, EventType)> := [
    ("SessionStarted", SessionStarted), ("UserMessage", UserMessage), ("AssistantMessage", AssistantMessage),
    ("ModeChanged", ModeChanged), ("ModelSelected", ModelSelected), ("ToolRequested", ToolRequested),
    ("ToolCompleted", ToolCompleted), ("VerificationFailed", VerificationFailed),
    ("VerificationPassed", VerificationPassed), ("RunCompleted", RunCompleted), ("RunFailed", RunFailed),
    ("RunCancelled", RunCancelled), ("StateChanged", StateChanged), ("BudgetWarning", BudgetWarning),
    ("ErrorOccurred", ErrorOccurred)
  ]

  /** parse_event_type: the first entry of that name. */
  function Lookup(mappings: seq<(string, EventType)>, text: string): Option<EventType> {
    if mappings == [] then None
    else if mappings[0].0 == text then Some(mappings[0].1)
    else Lookup(mappings[1..], text)
  }

  function Parse(text: string): Option<EventType> {
    Lookup(MAPPINGS, text)
  }

  predicate IsTerminalEvent(t: EventType) {
    t == RunCompleted || t == RunFailed || t == RunCancelled
  }

  lemma {:induction false} LookupFinds(mappings: seq<(string, EventType)>, k: nat)
    requires k < |mappings|
    requires forall i :: 0 <= i < k ==> mappings[i].0 != mappings[k].0
    ensures Lookup(mappings, mappings[k].0) == Some(mappings[k].1)
    decreases |mappings|
  {
    if 0 < k {
      assert forall i :: 0 <= i < k - 1 ==> mappings[1..][i].0 == mappings[i + 1].0;
      LookupFinds(mappings[1..], k - 1);
    }
  }

  /** The first letter and the fourth from the end tell the names apart. */
  function Signature(s: string): (char, char)
    requires 4 <= |s|
  {
    (s[0], s[|s| - 4])
  }

  lemma DifferentNames(k: nat)
    requires k < |MAPPINGS|
    ensures forall i :: 0 <= i < k ==> MAPPINGS[i].0 != MAPPINGS[k].0
  {
    assert forall i :: 0 <= i < |MAPPINGS| ==> 4 <= |MAPPINGS[i].0|;
    assert forall i :: 0 <= i < k ==> Signature(MAPPINGS[i].0) != Signature(MAPPINGS[k].0);
  }

  /** The names in the log file. */
  lemma NamesInLog()
    ensures [ToString(SessionStarted), ToString(UserMessage), ToString(AssistantMessage), ToString(ModeChanged),
             ToString(ModelSelected), ToString(ToolRequested), ToString(ToolCompleted)] ==
            ["SessionStarted", "UserMessage", "AssistantMessage", "ModeChanged",
             "ModelSelected", "ToolRequested", "ToolCompleted"]
    ensures [ToString(VerificationFailed), ToString(VerificationPassed), ToString(RunCompleted), ToString(RunFailed),
             ToString(RunCancelled), ToString(StateChanged), ToString(BudgetWarning), ToString(ErrorOccurred)] ==
            ["VerificationFailed", "VerificationPassed", "RunCompleted", "RunFailed",
             "RunCancelled", "StateChanged", "BudgetWarning", "ErrorOccurred"]
  {
  }

  /** What is printed is read back. */
  lemma ParsePrinted(t: EventType)
    ensures Parse(ToString(t)) == Some(t)
  {
    var k := match t
      case SessionStarted => 0
      case UserMessage => 1
      case AssistantMessage => 2
      case ModeChanged => 3
      case ModelSelected => 4
      case ToolRequested => 5
      case ToolCompleted => 6
      case VerificationFailed => 7
      case VerificationPassed => 8
      case RunCompleted => 9
      case RunFailed => 10
      case RunCancelled => 11
      case StateChanged => 12
      case BudgetWarning => 13
      case ErrorOccurred => 14;
    DifferentNames(k);
    LookupFinds(MAPPINGS, k);
  }
}
