# Verified model of the agent's text and run machinery

Flatwhite runs an unpredictable language model inside deterministic machinery: what goes into a prompt, what is
written to the log, what a run may do and how it ends, how a streamed answer is put together, how files are changed.
This project models that machinery and proves what it can be relied on for, whatever the model, the tools, the
verifier, the user and the operating system do.

- **The redactor.** Twelve scans of five kinds rewrite one text in place, one after the other. Each is the cursor loop
  it is in the program and is proved equal to leftmost rewriting by a rule (`RedactionRules.Rewrite`). Every scan
  establishes its guarantee, no other scan destroys it, and so the whole pipeline establishes all of them at once. The
  key is that every insertion is `[REDACTED]`: what stands in the output in front of the first bracket was copied from
  one place of the input. The pipeline is *not* idempotent (`a=token=b` shows it); it is proved exactly when redacting
  a redacted text changes nothing, and that redacting again and again comes to an end. Texts that differ only in
  hidden values are redacted to the same text.
- **Agent runs.** `AgentRuntime::run` is a class whose step method is proved equal to one step of a specified run,
  against an environment that may answer anything at any call: model answers or exceptions, tool results or
  exceptions, cancellation at every poll, a workspace that changes between context builds, builds and log appends that
  throw. Every run terminates; counters, events and conversation account for each other; verdicts mean what they say;
  the log tells exactly which runs have not come back, for every interleaving of many runs in one log.
- **Streaming.** The line buffer that is fed arbitrary fragments, the batch parser and the fold over chunks. Fragments
  do not matter. Streaming and batch parsing agree exactly under a stated condition: a response whose only JSON is an
  unterminated last line is dropped when it is streamed with an empty body.
- **Small compilers, printers and parsers.** Unified diffs, globs compiled to regular expression text,
  percent-encoding and URL templates, shell tokens: round trips and preservation of meaning, each with its exact side
  condition.
- **Context building and model routing.** Budget accounting, growth of the context over the turns of a run, the first
  best of the eligible models, and escalation.

The specification functions that the loops are proved equal to are themselves pinned down by laws that do not mention
them: by characters and literals (`RedactionLaws`, `ScanLaws`), by positions (`ContextLaws`), by what model, tools and
verifier did (`AgentRunHistory`, `AgentRunTrace`, `AgentBudgetLaws`), by cross-multiplied figures (`RouterLaws`).

Where an obvious claim is false, a concrete input is given or the exact condition is proved:

- `RedactionTwice.RedactingTwiceDiffers`: a second redaction can change a redacted text;
  `RedactionStability.SecondRedactionChangesNothing`: exactly when.
- `AgentTypes.DefaultExhausted`: the default budgets of Chat, Ask, Plan and Review allow no subagents and are
  therefore exhausted from the start, so such a run fails before the model is asked
  (`AgentRunFacts.ExhaustedBudgetFailsAtOnce`).
- `AgentToolLimits.LimitIsPassed`: the budget is not checked within a batch of tool calls, so its limit can be passed;
  `AgentToolLimits.ToolLimitExactly`: for which batch sizes it cannot.
- `ModelRouters.EscalationBelowFloor`: escalation can lead below the quality floor if two models share an id;
  `ModelRouters.FloorAfterEscalation`: exactly when it does not.
- `PatchFiles.LossGoesUnnoticed`, `PatchFiles.UnreadableIsOverwritten`: a loss when a file is closed, and a file that
  cannot be opened, go unnoticed; `PatchFiles.FileSystem.AtomicWrite` states the exact condition for all or nothing.
- `PatchText.UniqueExactlyWhenBorderFree`: an exact replacement counts later occurrences that do not overlap, so
  success means a unique occurrence only for a text without borders.
- `PatchText.HunkRoundTrip`: lines that end with a carriage return do not come back from a diff.
- `Globs.DotStopsAtNewline`, `Globs.PlainMeaningExactly`, `Globs.StarNeedsNoRetry`, `Globs.TranslatorsAgree`: line
  terminators and NUL.
- `Streaming.SoleLineIsDropped`, `Streaming.StreamingAgreesWithBatch`: the dropped last line.

How to read the model: the environment of a run is a value (`AgentRuns.Environment`) that fixes what happens at the
n-th call of each kind, and every theorem holds for all such values. What is random in the program (`make_uuid`) is a
parameter. Unsigned counters wrap around as they do in the program (`Wrappers.Add32`, `Wrappers.Add64`). Character
classes are those of the C locale. A text is a sequence of characters; the URL builder asks for characters below 256,
which is what a byte is. Regular expressions have the meaning of section 15.10 of ECMA-262 (3rd edition), JSON that of
RFC 8259, and percent-encoding that of RFC 3986. Figures of the router are reals, extended by what a division by zero
yields (IEEE 754-2019).

## Model

| member | source | states |
|---|---|---|
| Redactor.RedactSecrets | src/common/redactor.cpp:172-197 | the pipeline of in-place scans computes the composed rewriting, and its result meets every guarantee at once |
| Redactor.RedactedTextHoldsNoSecret | src/common/redactor.cpp:113-193 | nowhere in a redacted text is there a key of AKIA and 16 upper-case letters or digits, a ghp_, glpat- or sk- token of 24 characters, or a BEGIN marker with an END marker behind it, and every key= marker is followed by [REDACTED] and then white space or the end |
| Redactor.RedactedTextIsClean | src/common/redactor.cpp:172-197 | the result is clean for all eleven later scans, and every sensitive assignment in it starts its value with [REDACTED] |
| RedactionLaws.AssignmentLaw | src/common/redactor.cpp:43-90 | a line of blanks, an identifier, blanks, an equals sign, blanks, a value and a tail loses exactly its value if the key contains KEY, TOKEN or SECRET, or starts in any case like api, token, secret, password or passwd, or the value has eight characters and is no flag; otherwise it is kept |
| RedactionLaws.OtherLinesAreKept | src/common/redactor.cpp:91-93 | a line that has no such shape is kept |
| RedactionLaws.LinesOnTheirOwn | src/common/redactor.cpp:36-101 | the scan of a text is the scan of its lines, with the newlines between them |
| RedactionLaws.SecretsAreMasked | src/common/redactor.cpp:172-197 | wherever a line of a redacted text has the shape of an assignment to a key that names a secret, [REDACTED] stands where the value starts |
| RedactionLaws.ShortSecretIsHidden | src/common/redactor.cpp:73-84 | MY_KEY=abc123 is redacted to MY_KEY=[REDACTED] |
| ScanLaws.KeyLaw | src/common/redactor.cpp:113-134 | the first AKIA with sixteen upper-case letters or digits behind it is replaced as a whole, and the scan goes on behind it |
| ScanLaws.NoKeyLaw | src/common/redactor.cpp:113-134 | a text without such a key is kept |
| ScanLaws.TokenLaw | src/common/redactor.cpp:136-152 | the first prefix with letters, digits, underscores and hyphens up to the minimal length is replaced up to the end of the token |
| ScanLaws.NoTokenLaw | src/common/redactor.cpp:136-152 | a text without such a token is kept |
| ScanLaws.BlockLaw | src/common/redactor.cpp:154-168 | the first BEGIN marker with an END marker behind it is replaced up to the end of the line of the first such END marker |
| ScanLaws.NoBlockLaw | src/common/redactor.cpp:154-168 | a text without such a block is kept |
| ScanLaws.PairLaw | src/common/redactor.cpp:182-192 | behind the first marker everything up to the next white space is replaced |
| ScanLaws.NoPairLaw | src/common/redactor.cpp:182-192 | a text without the marker is kept |
| ScanLaws.ScansInOrder | src/common/redactor.cpp:172-193 | the eleven later scans with their prefixes, lengths and markers, one after the other on the text of the one before |
| RedactionGuarantees.ScanCleans | src/common/redactor.cpp:113-193 | after its scan, a rule has no match left, although insertions could have completed one |
| RedactionGuarantees.ScanKeepsClean | src/common/redactor.cpp:172-193 | no scan makes a text unclean for any rule it was clean for: later scans never re-create an earlier match |
| RedactionRules.HeadComesFromInput | src/common/redactor.cpp:9 | output in front of the first bracket was copied from the same place of the input, up to where an insertion starts |
| RedactionGuarantees.HitComesFromInput | src/common/redactor.cpp:9 | whatever matches at the head of the output of a scan matched at the head of its input, since an insertion in brackets completes no pattern |
| RedactionGuarantees.CleanIsFixed | src/common/redactor.cpp:113-193 | a scan leaves a clean text as it is |
| Redactor.ScanIdempotent | src/common/redactor.cpp:113-193 | every scan is idempotent on its own |
| RedactionLoops.RedactAwsKeys | src/common/redactor.cpp:113-134 | the cursor loop, which skips four characters behind a failed candidate, performs leftmost rewriting of every key |
| RedactionLoops.OverlappingKey | src/common/redactor.cpp:115-131 | a key starting three characters into a candidate makes the candidate itself a key, although AKIA overlaps itself |
| RedactionLoops.AwsMayJump | src/common/redactor.cpp:132 | none of the four places skipped by a failed candidate holds a key |
| RedactionLoops.RedactPrefixedTokens | src/common/redactor.cpp:136-152 | the loop performs leftmost rewriting of every token that is long enough |
| RedactionLoops.PrefixMayJump | src/common/redactor.cpp:145-150 | a token run that is too short holds no long enough token at any place the cursor skips |
| RedactionLoops.RedactPemBlocks | src/common/redactor.cpp:154-168 | the loop, with its early exit when no END marker is ahead, performs leftmost rewriting of every block |
| RedactionLoops.RedactKeyValues | src/common/redactor.cpp:182-192 | the loop for one marker keeps the marker and replaces everything up to the next white space, for every occurrence |
| Redactor.RedactMarkers | src/common/redactor.cpp:181-193 | the six marker loops in their order complete the pipeline |
| RedactionLoops.SkipRun | src/common/redactor.cpp:140-144 | the inner index loops stop exactly at the end of the run of the character class |
| Redactor.RedactEnvAssignments | src/common/redactor.cpp:32-103 | the index loops over the lines compute the line-by-line assignment scan |
| Redactor.RedactAssignment | src/common/redactor.cpp:43-93 | key, blanks, equals sign and value of one line are found, and the line is appended with or without its value |
| Redactor.HideValue | src/common/redactor.cpp:72-90 | the value is hidden if the key is sensitive or the value is long and no simple flag, and otherwise the line is kept |
| EnvAssignments.EnvDistributes | src/common/redactor.cpp:36-101 | the assignment scan distributes over a newline: it is a homomorphism on lines |
| EnvAssignments.EnvIdempotent | src/common/redactor.cpp:32-103 | the assignment scan is idempotent |
| EnvAssignments.EnvKeepsNewlines | src/common/redactor.cpp:95-100 | the number of newlines stays the same |
| EnvAssignments.EnvLineValue | src/common/redactor.cpp:84-87 | hiding changes only the value: same key, same place, value exactly [REDACTED], same text behind it |
| EnvProtection.EnvProtects | src/common/redactor.cpp:73-87 | after the assignment scan every assignment to a sensitive key has a value that starts with [REDACTED] |
| EnvProtection.ScanKeepsProtected | src/common/redactor.cpp:172-193 | no later scan uncovers or re-creates an unprotected sensitive assignment |
| RedactionTwice.RedactingTwiceDiffers | src/common/redactor.cpp:81-87 | a=token=b becomes a=token=[REDACTED], which redacted again becomes a=[REDACTED]: the pipeline is not idempotent |
| RedactionStability.EditsKeepNearlyClean | src/common/redactor.cpp:172-193 | when the assignment scan edits a redacted text, a marker is still followed by [REDACTED], with at most a comment sign stuck to it |
| RedactionStability.UncleanLosesHash | src/common/redactor.cpp:181-192 | where such a comment sign is stuck to a masked value, the marker scan takes it away for good |
| RedactionStability.NothingOrLess | src/common/redactor.cpp:174-193 | on such a text the scans do nothing or lose a comment sign, so they cannot undo an edit of the assignment scan |
| RedactionStability.StableWhenEnvIs | src/common/redactor.cpp:172-197 | redacting a fully redacted text changes nothing exactly when the assignment scan changes nothing |
| RedactionStability.SettledExactly | src/common/redactor.cpp:84-90 | the assignment scan changes nothing exactly when every value it would hide is [REDACTED] already |
| RedactionStability.SecondRedactionChangesNothing | src/common/redactor.cpp:172-197 | for every input: a second redaction changes nothing if and only if every value of the first result that the assignment scan would hide is [REDACTED] already |
| RedactionStability.StableOrLess | src/common/redactor.cpp:172-197 | one more redaction of a redacted text makes it stable for good or takes a comment sign away |
| RedactionStability.RedactionConverges | src/common/redactor.cpp:172-197 | for every input: from two redactions more than it has comment signs on, nothing changes any more |
| RedactionSecrecy.RedactionHidesValues | src/common/redactor.cpp:84-90 | texts that differ, on any number of lines, only in values that the assignment scan hides are redacted to the same text by the whole pipeline |
| RedactionSecrecy.SensitiveValueIsHidden | src/common/redactor.cpp:73-87 | behind an assignment head with a sensitive key every value is found and hidden, whatever it is |
| RedactionSecrecy.SecretsDoNotMatter | src/common/redactor.cpp:172-197 | non-interference: with any other value of a sensitive key, anywhere in the text, the redacted text is the same |
| RedactionSecrecy.ScanForgetsMatch | src/common/redactor.cpp:113-193 | a scan yields the same text for any other match in the same place |
| StateMachines.StateMachine.Transition | src/agent/state_machine/state_machine.cpp:86-94 | a transition is accepted exactly along an edge, a refused one leaves the state and records an error, an accepted one clears it |
| StateMachines.TerminalIsForGood | src/agent/state_machine/state_machine.cpp:51-57 | over any sequence of calls a terminal state never leads back, and Completed is neither left nor reached from another terminal state |
| StateMachines.NeverVisited | src/agent/state_machine/state_machine.cpp:12-46 | SelectingModel and AwaitingPermission are never reached by any sequence of calls |
| StateMachines.PassesGate | src/agent/state_machine/state_machine.cpp:11-58 | a walk that leaves a region whose edges outwards all lead to one state visits that state, and stays inside before |
| StateMachines.CompletionTakesAllSteps | src/agent/state_machine/state_machine.cpp:11-58 | any sequence of calls that completes visits BuildingContext, AwaitingModel and ParsingResponse in this order |
| StateMachines.EdgesByState | src/agent/state_machine/state_machine.cpp:11-58 | the transitions allowed from each state: its ways on, staying, and failing or being cancelled unless completed |
| StateMachines.ReachedExactly | src/agent/state_machine/state_machine.cpp:11-58 | every state can be reached from Initializing but exactly SelectingModel and AwaitingPermission |
| AgentTypes.DefaultExhausted | src/agent/types.cpp:195-237 | a default budget is exhausted from the start exactly for Chat, Ask, Plan and Review |
| AgentBudgetLaws.DefaultLimits | src/agent/types.cpp:195-229 | the limits of every mode, in numbers |
| AgentBudgetLaws.InitialLimits | src/agent/runtime/agent_runtime.cpp:68 | a request without turns gets the limits of its mode, any other its own |
| AgentRuns.StepProgresses | src/agent/runtime/agent_runtime.cpp:88-206 | every step that continues uses a turn or gets closer to one: turns left and rank of the state fall lexicographically, whatever model, tools and verifier do |
| AgentRuns.ToolsKeepTurns | src/agent/runtime/agent_runtime.cpp:132-157 | the tool loop spends no turn and never leaves the step loop |
| AgentRuntimes.AgentRuntime.RunAgent | src/agent/runtime/agent_runtime.cpp:63-220 | the run returns or throws as the specified run does, with its result, and appends exactly its trace to the log: kinds and redacted payloads under its id; without a log no append can throw |
| AgentRuntimes.ActiveRun.TakeStep | src/agent/runtime/agent_runtime.cpp:88-206 | one turn of the while loop is one step of the specified run |
| AgentRuntimes.ActiveRun.AwaitModel | src/agent/runtime/agent_runtime.cpp:110-115 | building, which may throw, polling and asking, in the order of the program |
| AgentRuntimes.ActiveRun.HandleAnswer | src/agent/runtime/agent_runtime.cpp:117-170 | charging, counting, the transition and logging, which may throw, and then tools or an answer |
| AgentRuntimes.ActiveRun.ExecuteTools | src/agent/runtime/agent_runtime.cpp:131-160 | the loop over one batch: poll, dispatch, count, and stop at a denied permission or observe and log |
| AgentRuntimes.ActiveRun.RunVerifier | src/agent/runtime/agent_runtime.cpp:174-194 | the verdict, its event, the completion and the note on the answer |
| AgentRuntimes.ActiveRun.LogEvent | src/agent/runtime/agent_runtime.cpp:17-37 | without a log nothing happens; with one an event of the mapped kind with the payload of the report is appended under the id of the run, or an exception thrown and nothing appended |
| AgentRuntimes.ActiveRun.EndRun | src/agent/runtime/agent_runtime.cpp:208-217 | the completion is settled and the end logged; the run throws if that cannot be done |
| AgentRunFacts.StepKeeps | src/agent/runtime/agent_runtime.cpp:88-206 | every step keeps the invariant of the loop: counters, verdict, log shape, no refused transition |
| AgentRunFacts.FinishOnlyLogs | src/agent/runtime/agent_runtime.cpp:208-217 | both repairs behind the loop are dead: only the end of the run is logged |
| AgentRunFacts.ReturnedRunIsJudged | src/agent/runtime/agent_runtime.cpp:161-214 | a run returns Completed or Failed, never Cancelled; it failed exactly if its completion says so; it is ImplementedVerified exactly if the log holds VerificationPassed, which takes verify, Agent mode and turns to spare |
| AgentRunFacts.ReturnedRunIsCounted | src/agent/runtime/agent_runtime.cpp:101-172 | turns, model calls and model_response events agree and stay within the turn budget; dispatches are the ToolCompleted events plus one exactly for a denial that ended the run; the conversation has one entry per ToolCompleted event and context build |
| AgentRunFacts.ReturnedRunLogs | src/agent/runtime/agent_runtime.cpp:77-219 | the log of a returned run starts with its only start and ends with its only terminal event |
| AgentRunFacts.AbortedRunLogs | src/agent/runtime/agent_runtime.cpp:77-115 | the log of a run that threw holds no terminal event and starts with its start, or holds nothing, exactly if logging the start is what threw |
| AgentRunFacts.NoTransitionRefused | src/agent/runtime/agent_runtime.cpp:91-202 | every transition whose answer is discarded succeeds, in every run, returned or thrown |
| AgentRunFacts.HeadsAreExpected | src/agent/runtime/agent_runtime.cpp:96-205 | from a state that meets the invariant, every later round of the loop starts in a state with a case of its own |
| AgentRunFacts.NoUnexpectedState | src/agent/runtime/agent_runtime.cpp:201-204 | the branch for an unexpected state is unreachable in every run |
| AgentRunFacts.ExhaustedBudgetFailsAtOnce | src/agent/runtime/agent_runtime.cpp:90-94 | a run that starts with an exhausted budget calls neither model nor tools; it returns exactly if it is not cancelled and can log its start and its end, and then it has failed |
| AgentBudgetLaws.AskedWhileSomethingIsLeft | src/agent/runtime/agent_runtime.cpp:88-115 | in every run the model is asked for the n-th time only if turns, tool calls, subagents, input and output tokens are all left, counting what the answers before it asked for and used |
| AgentBudgetLaws.FailureHasReason | src/agent/runtime/agent_runtime.cpp:90-94 | a run that comes back failed was denied its last tool call, with that message, or has reached one of the five limits |
| AgentRunHistory.ConversationTellsCalls | src/agent/runtime/agent_runtime.cpp:101-157 | in every run, returned or thrown, the conversation holds that the context was built and then, call by call, the content of each result, or tool failed if there is none, and nothing for a denial |
| AgentRunHistory.PromptsShowCalls | src/agent/runtime/agent_runtime.cpp:110-113 | the n-th context the model is asked with is built from the goal, the input limit and exactly the entries of all calls that its earlier answers asked for, in the workspace of that moment |
| AgentRunHistory.ModelSeesCalls | src/agent/runtime/agent_runtime.cpp:110-115 | so each of those entries stands in the context with its label and content, up to the first that costs more than what is left |
| AgentRunTrace.LogTellsRun | src/agent/runtime/agent_runtime.cpp:77-217 | report by report, told from the environment: every run logs a prefix of its start, the size of its first context, each answer with its content and number of calls, each call with name and success, and the verdict; a completed run logs all of it, and a returned run its completion and answer behind that |
| AgentRuntimes.ReportsAsEvents | src/agent/runtime/agent_runtime.cpp:17-37 | the event type and the payload of every kind of report, member by member |
| AgentRunBounds.ToolOvershoot | src/agent/runtime/agent_runtime.cpp:132-157 | in every run, returned or thrown, used tool calls pass their limit by less than the size of the last batch; they count the dispatches modulo 2^32, and do not wrap around if limit and batch together fit 32 bits for every batch that was asked for |
| AgentToolLimits.ToolLimitExactly | src/agent/runtime/agent_runtime.cpp:90-157 | all runs whose answers ask for at most k calls each dispatch no more calls than are left in the budget, if and only if the budget is exhausted on entry, k is at most one, or the turns left times k are within the calls left |
| AgentToolLimits.LimitIsPassed | src/agent/runtime/agent_runtime.cpp:132-157 | a run that is allowed one tool call and makes two |
| AgentRunBounds.ModelCallsAreBounded | src/agent/runtime/agent_runtime.cpp:88-121 | no run, returned or thrown, calls the model more often than max_turns minus the initial used_turns, counting a last call that throws; with a budget exhausted on entry it never does |
| AgentRunBounds.PromptsGrow | src/agent/runtime/agent_runtime.cpp:110-115 | in a fixed workspace the context of every model call is an extension of that of every earlier call |
| AgentRunAnswers.ReturnedRunTellsTruth | src/agent/runtime/agent_runtime.cpp:90-214 | a completed run answers with the last thing the model said, noted as unverified exactly after tools and a failed verification; a failed run names the denied permission or the exhausted budget |
| AgentRunAnswers.RunChargesTokens | src/agent/runtime/agent_runtime.cpp:117-121 | every run, returned or thrown, has charged exactly the tokens its answers reported, modulo 2^64 |
| EventTypes.ParsePrinted | src/persistence/event_log.cpp:58-118 | every printed event type is parsed back |
| EventTypes.NamesInLog | src/persistence/event_log.cpp:58-92 | the name of every event type in the log file |
| EventLogs.EventsAreLines | src/persistence/event_log.cpp:130-139 | a log is read line by line: nothing for a blank line, one event for any other, an unknown name as an error |
| EventLogs.EventLog.Append | src/persistence/event_log.cpp:181-211 | one line is appended, and reading the log yields one more event of that run and kind with the redacted payload |
| EventLogs.EventLog.ListForRun | src/persistence/event_log.cpp:222-245 | the events of one run with kinds and payloads, in the order of the log |
| EventLogs.ProjectFilters | src/persistence/event_log.cpp:233-243 | the events of a run in one log behind another are those in the first and then those in the second: filtered, and in order |
| EventLogs.EventLog.FindIncompleteRuns | src/persistence/event_log.cpp:247-287 | the loop over the log with its map and order vector computes the incomplete runs |
| EventLogs.IncompleteRunsExactly | src/persistence/event_log.cpp:247-287 | a run is reported exactly when it has an id, some event, and none of kind RunCompleted, RunFailed or RunCancelled; no duplicates; in order of first events |
| EventLogs.FirstSeenInOrder | src/persistence/event_log.cpp:270-273 | runs are collected in the order of their first events |
| SharedLog.TerminalMeansReturned | src/agent/runtime/agent_runtime.cpp:216-217 | a prefix of the trace of a run holds a terminal event exactly if the run returned and all of it is there |
| SharedLog.IncompleteRunsAreThoseThatDidNotComeBack | src/persistence/event_log.cpp:247-287 | for every interleaving of any number of returned, aborted and still running runs, exactly those are reported that logged a start and have not returned |
| SharedLog.FinishedLogReportsAborted | src/persistence/event_log.cpp:247-287 | when all runs are over, exactly the aborted ones are reported, but for those that could not log their start |
| Streaming.ParseStream | src/model/ollama/stream_parser.cpp:141-163 | the getline loop yields the chunks and errors of all lines in order |
| Streaming.LineIsDecoded | src/model/ollama/stream_parser.cpp:118-131 | blanks in front of a line do not matter, and a line of nothing else holds no chunk |
| Lines.GetUnterminated | src/model/ollama/stream_parser.cpp:143-146 | the getline loop yields the terminated lines and a last line without a newline |
| Streaming.LinesAreAccounted | src/model/ollama/stream_parser.cpp:146-160 | every line that is not empty becomes exactly one chunk or one error |
| Streaming.CrIsInsignificant | src/model/ollama/stream_parser.cpp:147-149 | dropping a carriage return changes no parsed line, so that the two parsers, of which one does not drop it, can agree |
| Streaming.AggregateChunks | src/model/ollama/stream_parser.cpp:165-183 | contents and tool calls concatenated in order, the last usage and the last model |
| Streaming.AggregatedNext | src/model/ollama/stream_parser.cpp:169-180 | one more chunk appends its delta and its calls, and overrides usage and model if it has them |
| Streaming.ContentsConcat | src/model/ollama/stream_parser.cpp:169-180 | aggregating content and tool calls distributes over concatenation of chunk lists |
| Streaming.StreamAssembly.OnData | src/model/ollama/ollama_backend.cpp:206-220 | one fragment moves buffer, chunks and callbacks exactly as splitting buffered text into lines says |
| Streaming.FragmentsDoNotMatter | src/model/ollama/ollama_backend.cpp:206-220 | feeding any fragments leaves the same chunks and the same leftover as feeding the whole text at once |
| Streaming.StreamAssembly.FinishStream | src/model/ollama/ollama_backend.cpp:234-249 | without chunks the body is parsed, otherwise the leftover line; the callback has been given each chunk once and in order |
| Streaming.StreamingAgreesWithBatch | src/model/ollama/ollama_backend.cpp:206-249 | with an empty body streaming equals parse_stream of the whole if and only if a terminated line parsed or the leftover does not |
| Streaming.StreamedLines | src/model/ollama/ollama_backend.cpp:206-249 | if a terminated line of the stream parses, the lines of the stream count and the body does not; otherwise only the lines of the body count |
| Streaming.SoleBodyIsRead | src/model/ollama/ollama_backend.cpp:234-235 | a body of one JSON line is read when nothing was streamed |
| Streaming.SoleLineIsDropped | src/model/ollama/ollama_backend.cpp:234-249 | a response of one JSON line without a newline, which the batch parser reads, is dropped when it is streamed |
| Streaming.Chat | src/model/ollama/ollama_backend.cpp:197-256 | for all fragments and bodies: content, calls, usage and model are those of the lines of the body if no terminated line of the stream parses (or nothing is streamed), and otherwise of the lines of the stream, whatever the body; the callback has had just those chunks; errors exactly on transport errors and statuses outside 200 to 299, and then the callback has had the chunks of all terminated lines |
| PatchText.ParseDiff | src/tools/filesystem/patch_engine.cpp:90-123 | the line loop with its hunk flag collects the specified old and new text |
| PatchText.ReadRenderedDiff | src/tools/filesystem/patch_engine.cpp:90-123 | a rendered diff with any prologue, any number of hunks and any ignored lines in them is read as the concatenated old and new texts, carriage returns at line ends dropped |
| PatchText.HunkRoundTrip | src/tools/filesystem/patch_engine.cpp:95-123 | a rendered hunk is read back as exactly its old and new text if and only if no line ends with a carriage return |
| PatchText.ReverseRestores | src/tools/filesystem/patch_engine.cpp:134-139 | exchanging back restores the content if and only if the new text first occurs where it was put |
| PatchText.SwappedDiffRestores | src/tools/filesystem/patch_engine.cpp:83-147 | applying a diff and then the one with plus and minus exchanged restores the file, under exactly that condition |
| PatchText.FirstIsReplaced | src/tools/filesystem/patch_engine.cpp:134-139 | the first occurrence of the old text gives way to the new one, and nothing else changes |
| PatchText.UniqueIsReplaced | src/tools/filesystem/patch_engine.cpp:45-56 | the first occurrence gives way to the new text unless the old one occurs again behind it |
| PatchText.WhatIsRefused | src/tools/filesystem/patch_engine.cpp:125-138 | no hunks, a context that is not found and a text that is not found, with their messages |
| PatchText.ExactReplaceSucceeds | src/tools/filesystem/patch_engine.cpp:45-54 | a replacement succeeds if and only if the old text is not empty, occurs, and does not occur twice without overlap |
| PatchText.UniqueExactlyWhenBorderFree | src/tools/filesystem/patch_engine.cpp:50 | success means a unique occurrence in every content if and only if the old text has no border |
| PatchText.ReplaceBackRestores | src/tools/filesystem/patch_engine.cpp:45-56 | replacing back restores the content if and only if the new text passes the same test in the same place |
| PatchFiles.FileSystem.AtomicWrite | src/tools/filesystem/patch_engine.cpp:8-28 | after every single step the target holds all of the old or all of the stored content and no other file but the temporary one has changed; it is all or nothing of the new content if and only if the write failed, or closing the file lost nothing, or what was kept is the old content; success exactly without noticed faults |
| PatchFiles.LossGoesUnnoticed | src/tools/filesystem/patch_engine.cpp:11-27 | a file whose end is lost when it is closed is renamed and reported as written |
| PatchFiles.FileSystem.ExactReplaceFile | src/tools/filesystem/patch_engine.cpp:30-64 | the file is changed as the replacement of its text says, or not at all, with the message of the branch taken |
| PatchFiles.FileSystem.ApplyUnifiedDiff | src/tools/filesystem/patch_engine.cpp:83-147 | the file is changed as applying the diff to what was read says, or not at all, with the message of the branch taken; a file that cannot be opened is read as empty |
| PatchFiles.UnreadableIsOverwritten | src/tools/filesystem/patch_engine.cpp:130-139 | a diff is applied to a file that cannot be opened if and only if it only adds, and then its additions replace the whole file |
| Globs.RulesToRegex | src/context/rules_loader.cpp:57-76 | the character loop emits the specified pattern text |
| Globs.RulesGlobMatches | src/context/rules_loader.cpp:56-86 | the result is the meaning of the glob on the path or on its last component; on one line wildcards stand for anything |
| Globs.FileGlobMatch | src/tools/filesystem/file_tools.cpp:65-98 | the result is the meaning of the glob on the text; on one line wildcards stand for anything |
| Globs.PatternsAreRead | src/context/rules_loader.cpp:57-76 | the emitted text, read as a regular expression, is the term list of the glob: every escape is read back as the character it stands for |
| Globs.TermsMeanGlob | src/context/rules_loader.cpp:60-66 | those terms match a text exactly when the glob does, with wildcards that stay within a line |
| Globs.StarBetween | src/context/rules_loader.cpp:61-63 | a star between two plain texts stands for the texts that start with the one and end with the other without overlap |
| Globs.MarkBetween | src/context/rules_loader.cpp:64-66 | a question mark between two plain texts stands for exactly one character |
| Globs.WildcardsStopAt | src/context/rules_loader.cpp:64-66 | the four characters the compiled wildcards do not match |
| Globs.CompilationPreservesMeaning | src/context/rules_loader.cpp:57-82 | compiling by either translator and matching is glob matching, on every text without line terminators and with the stated refinement on all others |
| Globs.PlainMeaningExactly | src/context/rules_loader.cpp:57-82 | all globs, compiled by either translator, mean on a text exactly what they are meant to if and only if the text holds no line terminator |
| Globs.DotStopsAtNewline | src/context/rules_loader.cpp:64-66 | across a line terminator the compiled glob is stricter than the glob |
| Globs.TranslatorsAgree | src/tools/filesystem/file_tools.cpp:68-95 | the two translators emit the same text if and only if the glob holds no NUL, which strchr finds in every string |
| Globs.StarNeedsNoRetry | src/context/rules_loader.cpp:82-85 | for a leading star, a file name that matches makes the whole path match if and only if its directory holds no line terminator, so that the retry adds nothing on one line |
| WebSearch.PercentEncode | src/tools/web/web_search_tool.cpp:25-39 | the byte loop computes the specified encoding |
| WebSearch.EncodedByte | src/tools/web/web_search_tool.cpp:29-37 | letters, digits, hyphen, underscore, dot and tilde stand for themselves; any other byte is a percent sign and two upper-case hexadecimal digits |
| WebSearch.EncodedConcat | src/tools/web/web_search_tool.cpp:29-37 | bytes are encoded one by one |
| WebSearch.DecodeEncoded | src/tools/web/web_search_tool.cpp:29-37 | percent-decoding that accepts only unreserved characters and upper-case triplets (sections 2.1 and 2.3 of RFC 3986) succeeds on what is encoded and gives it back |
| WebSearch.EncodingIsInjective | src/tools/web/web_search_tool.cpp:25-39 | different values have different encodings |
| WebSearch.FillStep | src/tools/web/web_search_tool.cpp:73-77 | one replacement behind the cursor keeps what the template, split at its placeholders and joined, amounts to, even if query or replacement spell a placeholder |
| WebSearch.BuildWebSearchUrl | src/tools/web/web_search_tool.cpp:67-83 | the URL is the endpoint split at its placeholders and joined with the encoded query, or has the query appended if there is none |
| WebSearch.DefaultUrl | src/tools/web/web_search_tool.cpp:69 | the URL for an empty endpoint |
| WebSearch.FilledOnce | src/tools/web/web_search_tool.cpp:73-77 | the first placeholder gives way to the encoded query, and what is behind it is filled in turn |
| WebSearch.AppendedParameter | src/tools/web/web_search_tool.cpp:78-81 | without a placeholder the query is appended behind ?q=, or behind &q= if the endpoint has a question mark |
| WebSearch.SearchUrlIsInjective | src/tools/web/web_search_tool.cpp:67-83 | for every fixed endpoint, different queries have different URLs |
| ShellTokens.Tokenize | src/tools/shell/shell_tool.cpp:13-49 | the loop with its two quote flags computes the specified tokens |
| ShellTokens.TokensAreNotEmpty | src/tools/shell/shell_tool.cpp:28-47 | no token is empty |
| ShellTokens.TokensHoldCommand | src/tools/shell/shell_tool.cpp:18-44 | the tokens concatenated are the command without active quotes and unquoted spaces: nothing is lost, invented or moved |
| ShellTokens.TokensCompose | src/tools/shell/shell_tool.cpp:28-42 | at an unquoted separator or space the command falls into two that are tokenized on their own |
| ShellTokens.TokensOfQuoted | src/tools/shell/shell_tool.cpp:20-47 | single-quoted words joined by spaces are tokenized to the words that are not empty |
| ShellTokens.TokensOfTyped | src/tools/shell/shell_tool.cpp:18-47 | words of plain, single-quoted and double-quoted pieces, ended by white space or by one of the four separators, are tokenized to the words without their quotes and the separators |
| ShellTokens.QuotingRoundTrip | src/tools/shell/shell_tool.cpp:20-47 | words without single quotes come back from their quoted form if and only if none of them is empty |
| ContextBuilders.EstimateCovers | src/context/context_builder.cpp:13-15 | four characters per estimated token cover the text if and only if the estimate does not wrap around in 32 bits |
| ContextBuilders.BuildIsAccounted | src/context/context_builder.cpp:31-99 | the total is the sum of the item estimates and within budget, the items are candidates in their order, and truncated holds exactly if one was left out |
| ContextLaws.ContextIsLaidOut | src/context/context_builder.cpp:46-96 | every context is goal, rules, project, files and conversation in this order, each item with kind, label, content and price; each section keeps a prefix, up to the first candidate that costs more than what is left; truncated exactly if one keeps less than all |
| ContextLaws.WholeContext | src/context/context_builder.cpp:46-98 | a context that is not truncated, position by position from the request and the workspace: labels, contents, files cut behind 8000 characters, and a quarter of the length as price |
| ContextBuilders.ContextIsShort | src/context/context_builder.cpp:40-42 | the content is at most four characters per counted token unless a chosen text is too long for its estimate; with fewer than 2^34 / 3 items exactly then |
| ContextBuilders.ContextGrows | src/context/context_builder.cpp:90-96 | appending to the conversation only extends the list of items |
| ContextBuilders.Assembly.AddItem | src/context/context_builder.cpp:35-44 | an item that fits is added and charged; one that does not sets the flag and changes nothing else |
| ContextBuilders.Assembly.AddItems | src/context/context_builder.cpp:54-60 | a section stops at its first item that does not fit, so it adds the longest prefix that fits |
| ContextBuilders.ContextBuilder.Build | src/context/context_builder.cpp:31-99 | the sections goal, rules, project, files and conversation in this order, with their break or no break |
| ModelRouters.MatchCapabilities | src/model/router/model_router.cpp:86-109 | the share of the required known capabilities that is offered, and one if none is required |
| ModelRouters.SensibleScore | src/model/router/model_router.cpp:111-136 | with positive quality and speed the score is positive if and only if the hard limits are met, also for a model without memory, whose score is infinite |
| RouterLaws.ShareLaw | src/model/router/model_router.cpp:86-109 | the share counts the six known capabilities |
| RouterLaws.ScoreLaw | src/model/router/model_router.cpp:111-136 | a score times memory and cost is share, quality and speed, weighted by the preference, to the scale of the request; zero for a model that does not fit |
| RouterLaws.OrderLaw | src/model/router/model_router.cpp:51-136 | cross-multiplied: under PreferQuality the larger share times squared quality times speed for its memory wins, whatever the cost; under PreferCheap share, quality and speed for memory and cost; balanced, half the sum of both |
| RouterLaws.WeightlessLaw | src/model/router/model_router.cpp:126-135 | the score of a model without memory is infinite or undefined, by the signs of its figures |
| RouterLaws.NoWorseNeverLoses | src/model/router/model_router.cpp:51-161 | a model that is at least as good and fast and at most as large and dear is never beaten, under any preference |
| ModelRouters.FirstBestIsFirstBest | src/model/router/model_router.cpp:144-160 | the scan finds an eligible model if there is one, none scores higher, and no earlier one as high |
| ModelRouters.RouteChoosesFirstBest | src/model/router/model_router.cpp:138-179 | without escalation the decision is the one first best model, and the fallback exactly if there is none or it has no id |
| RouterLaws.RouteLaw | src/model/router/model_router.cpp:138-179 | by figures: the request is routed to the first model that fits, is good enough and is beaten by no other such model, with its score; to main-reasoner with score zero if there is none |
| ModelRouters.RouteMeetsLimits | src/model/router/model_router.cpp:138-179 | every decision but the fallback names a model that offers something of what is required and meets the context and memory limits, escalated or not |
| ModelRouters.FloorAfterEscalation | src/model/router/model_router.cpp:150-172 | a model chosen without escalation meets the quality floor of cheap requests; one chosen by escalation does if and only if some candidate for escalation does |
| ModelRouters.UniqueIdsKeepFloor | src/model/router/model_router.cpp:150-172 | with unique ids every decision but the fallback meets the quality floor |
| ModelRouters.EscalationBelowFloor | src/model/router/model_router.cpp:197-213 | with two models of one id, escalation leads from a model above the floor to one below it |
| ModelRouters.EscalationExactly | src/model/router/model_router.cpp:181-217 | there is an escalation if and only if one is called for and a candidate of strictly higher quality fits |
| RouterLaws.EscalationLaw | src/model/router/model_router.cpp:183-217 | escalation takes a quality below 0.6, a complexity of 0.75 or more, or an explicit request without a retry, and a better model that fits |
| ModelRouters.EscalationImproves | src/model/router/model_router.cpp:201-224 | escalation picks the first of the highest quality among all candidates, strictly above the current one |
| ModelRouters.NoSecondEscalation | src/model/router/model_router.cpp:181-225 | with unique ids, escalating from the escalated model returns nothing, whatever the retry count |
| ModelRouters.ModelRouter.RouteRequest | src/model/router/model_router.cpp:138-179 | the loop with its best score so far computes that decision |
| ModelRouters.ModelRouter.CheckEscalation | src/model/router/model_router.cpp:181-225 | the loop with its best quality so far computes that escalation |
| ModelRouters.ModelRouter.Find | src/model/router/model_router.cpp:73-80 | the first model with the id |

## Left out

- JSON text: parse_stream_line is modelled down to an arbitrary decoder of which only two things are assumed, that the empty text is no JSON and that a trailing carriage return is insignificant (section 2 of RFC 8259); the chunk fields it reads, build_chat_payload and the dumps of the event log are not modelled.
- Event ids, timestamps and the JSON text of the log: a line of the modelled log keeps the id of the run, the printed event type and the payload. Redacting a payload (printing, redacting and parsing it) is an arbitrary function on payloads.
- The SQLite mirror, which can throw after the line has been written, writes to the log that fail without an exception, and an unreadable log file.
- The text of chat requests (build_chat_request), tool descriptors and tool arguments: a model call is modelled by the context it is given.
- max_duration and the subagent counter beyond the exhaustion test: the loop never changes or reads them.
- Single tools, the permission engine, the command classifier, process spawning, HTTP and curl: a tool call yields any result, with or without a permission error, or throws.
- FakeModelBackend, list_models, pull and embed: easy wrappers beside chat.
- The wording of last_error, of routing reasons and of exceptions.
- create_file, read, write and list tools, glob_recursive, rule file loading and project detection: file traversal and field copying.
- Failures when a temporary file is removed, and reads that fail half way.
- The rounding of floats in the router, and overflow of finite figures.
- std::regex beyond the subset both glob translators emit; a backslash in front of a syntax character or NUL stands for that character.
- Locales other than C, command line, configuration, sessions, planner and help text.
- AgentRunFacts.ReturnedRunIsCounted: is about runs that return; what a run that throws leaves behind is covered for its log, its tokens, its model calls, its tool budget and its transitions only.
