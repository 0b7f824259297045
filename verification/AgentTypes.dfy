/** Modes and budgets of an agent run. */
module AgentTypes {
  import opened Wrappers

  datatype AgentMode = Agent | Plan | Ask | Debug | Review | Chat | Data | Research

  function ModeName(mode: AgentMode): string {
    match mode
    case Agent => "agent"
    case Plan => "plan"
    case Ask => "ask"
    case Debug => "debug"
    case Review => "review"
    case Chat => "chat"
    case Data => "data"
    case Research => "research"
  }

  datatype Budget = Budget(
    maxTurns: U32, maxToolCalls: U32, maxSubagents: U32, maxInputTokens: U64, maxOutputTokens: U64,
    usedTurns: U32, usedToolCalls: U32, usedSubagents: U32, usedInputTokens: U64, usedOutputTokens: U64)

  const FRESH_BUDGET := Budget(40, 100, 2, 128000, 16000, 0, 0, 0, 0, 0)

  function DefaultBudget(mode: AgentMode): Budget {
    match mode
    case Chat => FRESH_BUDGET.(maxTurns := 20, maxToolCalls := 0, maxSubagents := 0)
    case Ask | Plan | Review => FRESH_BUDGET.(maxTurns := 20, maxToolCalls := 40, maxSubagents := 0)
    case Research => FRESH_BUDGET.(maxTurns := 100, maxToolCalls := 200, maxSubagents := 4)
    case Data => FRESH_BUDGET.(maxTurns := 40, maxToolCalls := 80)
    case Debug | Agent => FRESH_BUDGET.(maxTurns := 40, maxToolCalls := 100, maxSubagents := 2)
  }

  predicate IsExhausted(b: Budget) {
    || b.maxTurns <= b.usedTurns
    || b.maxToolCalls <= b.usedToolCalls
    || b.maxSubagents <= b.usedSubagents
    || b.maxInputTokens <= b.usedInputTokens
    || b.maxOutputTokens <= b.usedOutputTokens
  }

  /** The default budgets of these modes allow no subagents, so they are exhausted from the start. */
  lemma DefaultExhausted(mode: AgentMode)
    ensures IsExhausted(DefaultBudget(mode)) <==> mode in {Chat, Ask, Plan, Review}
  {
  }
}
