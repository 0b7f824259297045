/** Many runs in one log, in whatever order their events fall. */
module SharedLog {
  import opened EventTypes
  import opened EventLogs
  import opened AgentRuns
  import opened AgentRunFacts
  import opened AgentRuntimes

  datatype RunCase = RunCase(env: Environment, req: RunRequest)

  /** Everything the run logs under its id, from its start to its return or its abortion. */
  function Trace(c: RunCase, id: string, redacted: Payload -> Payload): seq<Event> {
    Stamp(id, Run(c.env, c.req).st.reports, redacted)
  }

  /** The run came back, and its last event has reached the log. */
  ghost predicate CameBack(c: RunCase, id: string, logged: seq<Event>, redacted: Payload -> Payload) {
    Run(c.env, c.req).Returned? && logged == Trace(c, id, redacted)
  }

  /** Only the complete trace of a returned run holds a terminal event. */
  lemma TerminalMeansReturned(c: RunCase, id: string, logged: seq<Event>, redacted: Payload -> Payload)
    requires logged <= Trace(c, id, redacted)
    ensures (exists i :: 0 <= i < |logged| && IsTerminalEvent(logged[i].kind)) <==> CameBack(c, id, logged, redacted)
  {
    hide Run;
    var reports := Run(c.env, c.req).st.reports;
    assert forall i :: 0 <= i < |logged| ==> logged[i].kind == EventTypeOf(reports[i]);
    if Run(c.env, c.req).Returned? {
      ReturnedRunLogs(c.env, c.req);
      var n := |reports|;
      if |logged| == n {
        assert IsTerminalEvent(logged[n - 1].kind);
      }
    } else {
      AbortedRunLogs(c.env, c.req);
    }
  }

  /**
   * A log in which every event belongs to one of the given runs, and which holds of each run what it has logged so far:
   * any interleaving of any number of runs that have returned, were aborted, are still going or were killed.
   */
  ghost predicate LogOf(events: seq<Event>, runs: map<string, RunCase>, redacted: Payload -> Payload) {
    && "" !in runs
    && (forall i :: 0 <= i < |events| ==> events[i].runId in runs)
    && (forall id :: id in runs ==> Project(events, id) <= Trace(runs[id], id, redacted))
  }

  /** find_incomplete_runs names exactly the runs that have started and have not come back, in order of their starts. */
  lemma IncompleteRunsAreThoseThatDidNotComeBack(
    events: seq<Event>, runs: map<string, RunCase>, redacted: Payload -> Payload)
    requires LogOf(events, runs, redacted)
    ensures forall id :: id in IncompleteRuns(events) <==>
              id in runs && Project(events, id) != [] && !CameBack(runs[id], id, Project(events, id), redacted)
    ensures InFirstOrder(events, IncompleteRuns(events)) && NoDuplicates(IncompleteRuns(events))
  {
    hide Trace, CameBack, IncompleteRuns, Project, InFirstOrder;
    IncompleteRunsExactly(events);
    forall id
      ensures id in IncompleteRuns(events) <==>
              id in runs && Project(events, id) != [] && !CameBack(runs[id], id, Project(events, id), redacted)
    {
      ProjectTells(events, id);
      if id in runs {
        TerminalMeansReturned(runs[id], id, Project(events, id), redacted);
      }
    }
  }

  /**
   * Once all the runs are over, what is reported are the aborted ones, but for those whose start could not be
   * logged.
   */
  lemma FinishedLogReportsAborted(events: seq<Event>, runs: map<string, RunCase>, redacted: Payload -> Payload)
    requires LogOf(events, runs, redacted)
    requires forall id :: id in runs ==> Project(events, id) == Trace(runs[id], id, redacted)
    ensures forall id :: id in IncompleteRuns(events) <==>
              id in runs && Run(runs[id].env, runs[id].req).Aborted? && !runs[id].env.appendThrows(0)
  {
    hide IncompleteRuns, Project, Run;
    IncompleteRunsAreThoseThatDidNotComeBack(events, runs, redacted);
    forall id | id in runs ensures Trace(runs[id], id, redacted) == [] <==> runs[id].env.appendThrows(0) {
      TraceStarts(runs[id]);
    }
  }

  /** Every run logs its start first, or nothing. */
  lemma TraceStarts(c: RunCase)
    ensures var reports := Run(c.env, c.req).st.reports;
            && (reports == [] <==> c.env.appendThrows(0))
            && (reports != [] ==> EventTypeOf(reports[0]) == SessionStarted)
  {
    if !c.env.appendThrows(0) {
      if Run(c.env, c.req).Returned? {
        ReturnedRunLogs(c.env, c.req);
      } else {
        AbortedRunLogs(c.env, c.req);
      }
    }
  }
}
