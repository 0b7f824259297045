/** The append-only log of all runs, and what it says about the runs that did not come back. */
module EventLogs {
  import opened Wrappers
  import opened EventTypes

  /** A line of the log file: blank, or an object with a run id, the printed name of an event type and a payload. */
  datatype Line = Blank | Record(runId: string, typeText: string, payload: Payload)

  datatype Event = Event(runId: string, kind: EventType, payload: Payload)

  /** Event::from_json: an unknown name reads as an error. */
  function ReadEvent(line: Line): Event
    requires line.Record?
  {
    var parsed := Parse(line.typeText);
    Event(line.runId, if parsed.Some? then parsed.value else ErrorOccurred, line.payload)
  }

  function Events(lines: seq<Line>): seq<Event> {
    if lines == [] then []
    else
      var front := Events(lines[..|lines| - 1]);
      var last := lines[|lines| - 1];
      if last.Blank? then front else front + [ReadEvent(last)]
  }

  // ----- what the log says

  /** The events logged for one run. */
  function Project(events: seq<Event>, id: string): seq<Event> {
    if events == [] then []
    else
      var front := Project(events[..|events| - 1], id);
      var last := events[|events| - 1];
      if last.runId == id then front + [last] else front
  }

  predicate HasEnded(events: seq<Event>, id: string) {
    exists i :: 0 <= i < |events| && events[i].runId == id && IsTerminalEvent(events[i].kind)
  }

  /** The runs that have an event, in the order of their first events; events without a run id are passed over. */
  function FirstSeen(events: seq<Event>): seq<string> {
    if events == [] then []
    else
      var front := FirstSeen(events[..|events| - 1]);
      var id := events[|events| - 1].runId;
      if id == "" || id in front then front else front + [id]
  }

  /** Those of the given runs that have no terminal event. */
  function StillOpen(events: seq<Event>, ids: seq<string>): seq<string> {
    if ids == [] then []
    else
      var front := StillOpen(events, ids[..|ids| - 1]);
      var id := ids[|ids| - 1];
      if HasEnded(events, id) then front else front + [id]
  }

  function IncompleteRuns(events: seq<Event>): seq<string> {
    StillOpen(events, FirstSeen(events))
  }

  // ----- reading the log

  /** A line that is not blank holds one event; a name that is none of an event type reads as an error. */
  lemma {:induction false} EventsAreLines(lines: seq<Line>, more: seq<Line>)
    ensures Events(lines + more) == Events(lines) + Events(more)
    ensures Events([Blank]) == []
    ensures forall id, text, payload :: Events([Record(id, text, payload)]) ==
              [Event(id, match Parse(text) case Some(t) => t case None => ErrorOccurred, payload)]
    decreases |more|
  {
    assert forall line: Line :: [line][..0] == [];
    if more == [] {
      assert lines + more == lines;
    } else {
      var n := |more| - 1;
      EventsAreLines(lines, more[..n]);
      assert (lines + more)[..|lines| + n] == lines + more[..n];
    }
  }

  /** The events of a run are those with its id, in the order of the log. */
  lemma {:induction false} ProjectFilters(events: seq<Event>, more: seq<Event>, id: string)
    ensures Project(events + more, id) == Project(events, id) + Project(more, id)
    decreases |more|
  {
    if more == [] {
      assert events + more == events;
    } else {
      var n := |more| - 1;
      ProjectFilters(events, more[..n], id);
      assert (events + more)[..|events| + n] == events + more[..n];
    }
  }

  lemma ProjectOne(e: Event, id: string)
    ensures Project([e], id) == if e.runId == id then [e] else []
  {
    assert [e][..0] == [];
  }

  // ----- properties of FirstSeen and StillOpen

  predicate Mentions(events: seq<Event>, id: string) {
    exists i :: 0 <= i < |events| && events[i].runId == id
  }

  lemma MentionsAppend(events: seq<Event>, e: Event, id: string)
    ensures Mentions(events + [e], id) <==> Mentions(events, id) || e.runId == id
    ensures HasEnded(events + [e], id) <==> HasEnded(events, id) || (e.runId == id && IsTerminalEvent(e.kind))
  {
    var more := events + [e];
    assert more[|events|] == e;
    assert forall i :: 0 <= i < |events| ==> more[i] == events[i];
  }

  lemma SplitLast(events: seq<Event>)
    requires events != []
    ensures events == events[..|events| - 1] + [events[|events| - 1]]
  {
  }

  lemma {:induction false} FirstSeenMentions(events: seq<Event>, id: string)
    ensures id in FirstSeen(events) <==> id != "" && Mentions(events, id)
    decreases |events|
  {
    if events != [] {
      FirstSeenMentions(events[..|events| - 1], id);
      SplitLast(events);
      MentionsAppend(events[..|events| - 1], events[|events| - 1], id);
    }
  }

  predicate NoDuplicates(ids: seq<string>) {
    forall i, j :: 0 <= i < j < |ids| ==> ids[i] != ids[j]
  }

  /** The index of a run's first event. */
  function FirstIndex(events: seq<Event>, id: string): (k: nat)
    requires Mentions(events, id)
    ensures k < |events| && events[k].runId == id && forall i :: 0 <= i < k ==> events[i].runId != id
  {
    if events[0].runId == id then 0
    else
      assert Mentions(events[1..], id) by {
        var i :| 0 <= i < |events| && events[i].runId == id;
        assert events[1..][i - 1] == events[i];
      }
      1 + FirstIndex(events[1..], id)
  }

  /** Without duplicates, and in the order of the first events. */
  ghost predicate InFirstOrder(events: seq<Event>, ids: seq<string>) {
    && (forall i :: 0 <= i < |ids| ==> Mentions(events, ids[i]))
    && forall i, j :: 0 <= i < j < |ids| ==> FirstIndex(events, ids[i]) < FirstIndex(events, ids[j])
  }

  lemma FirstIndexAppend(events: seq<Event>, e: Event, id: string)
    requires Mentions(events + [e], id)
    ensures Mentions(events, id) ==> FirstIndex(events + [e], id) == FirstIndex(events, id)
    ensures !Mentions(events, id) ==> FirstIndex(events + [e], id) == |events|
  {
    var more := events + [e];
    var k := FirstIndex(more, id);
    assert forall i :: 0 <= i < |events| ==> more[i] == events[i];
    assert k < |events| ==> Mentions(events, id);
  }

  /** Appending an event keeps the order of the runs that are mentioned already. */
  lemma InOrderAppend(events: seq<Event>, e: Event, ids: seq<string>)
    requires InFirstOrder(events, ids)
    ensures InFirstOrder(events + [e], ids)
    ensures e.runId !in ids && !Mentions(events, e.runId) ==> InFirstOrder(events + [e], ids + [e.runId])
  {
    hide FirstIndex, Mentions;
    var more := events + [e];
    forall k | 0 <= k < |ids|
      ensures Mentions(more, ids[k]) && FirstIndex(more, ids[k]) == FirstIndex(events, ids[k]) < |events|
    {
      MentionsAppend(events, e, ids[k]);
      FirstIndexAppend(events, e, ids[k]);
    }
    if !Mentions(events, e.runId) {
      MentionsAppend(events, e, e.runId);
      FirstIndexAppend(events, e, e.runId);
    }
  }

  lemma {:induction false} FirstSeenInOrder(events: seq<Event>)
    ensures InFirstOrder(events, FirstSeen(events))
    decreases |events|
  {
    hide InFirstOrder, Mentions;
    if events == [] {
      NothingInOrder();
    } else {
      var front, e := events[..|events| - 1], events[|events| - 1];
      SplitLast(events);
      FirstSeenInOrder(front);
      FirstSeenMentions(front, e.runId);
      InOrderAppend(front, e, FirstSeen(front));
    }
  }

  lemma NothingInOrder()
    ensures InFirstOrder([], [])
  {
  }

  lemma {:induction false} StillOpenFilters(events: seq<Event>, ids: seq<string>, id: string)
    ensures id in StillOpen(events, ids) <==> id in ids && !HasEnded(events, id)
    decreases |ids|
  {
    if ids != [] {
      StillOpenFilters(events, ids[..|ids| - 1], id);
      assert ids == ids[..|ids| - 1] + [ids[|ids| - 1]];
    }
  }

  lemma {:induction false} StillOpenInOrder(events: seq<Event>, ids: seq<string>)
    requires InFirstOrder(events, ids)
    ensures InFirstOrder(events, StillOpen(events, ids))
    decreases |ids|
  {
    hide InFirstOrder, HasEnded;
    if ids == [] {
      NothingIsInOrder(events);
    } else {
      var front, id := ids[..|ids| - 1], ids[|ids| - 1];
      assert ids == front + [id];
      PartIsInOrder(events, front, id);
      StillOpenInOrder(events, front);
      forall a | a in StillOpen(events, front) ensures a in front {
        StillOpenFilters(events, front, a);
      }
      OneMoreInOrder(events, front, StillOpen(events, front), id);
    }
  }

  lemma NothingIsInOrder(events: seq<Event>)
    ensures InFirstOrder(events, [])
  {
  }

  lemma PartIsInOrder(events: seq<Event>, front: seq<string>, id: string)
    requires InFirstOrder(events, front + [id])
    ensures InFirstOrder(events, front)
  {
    hide FirstIndex, Mentions;
    assert forall i :: 0 <= i < |front| ==> (front + [id])[i] == front[i];
  }

  /** The last of some runs may follow any selection of the others. */
  lemma OneMoreInOrder(events: seq<Event>, front: seq<string>, kept: seq<string>, id: string)
    requires InFirstOrder(events, front + [id]) && InFirstOrder(events, kept)
    requires forall a :: a in kept ==> a in front
    ensures InFirstOrder(events, kept + [id])
  {
    hide FirstIndex, Mentions;
    var all := front + [id];
    assert all[|front|] == id && Mentions(events, id);
    forall a | a in kept ensures Mentions(events, a) && FirstIndex(events, a) < FirstIndex(events, id) {
      var i :| 0 <= i < |front| && front[i] == a;
      assert all[i] == a;
    }
    var more := kept + [id];
    forall i, j | 0 <= i < j < |more| ensures FirstIndex(events, more[i]) < FirstIndex(events, more[j]) {
      assert more[i] in kept;
    }
  }

  /** A run is reported exactly when it is mentioned and has not ended; the order is that of the first events. */
  lemma IncompleteRunsExactly(events: seq<Event>)
    ensures forall id :: id in IncompleteRuns(events) <==>
              && id != ""
              && (exists i :: 0 <= i < |events| && events[i].runId == id)
              && forall i :: 0 <= i < |events| && events[i].runId == id ==>
                               events[i].kind != RunCompleted && events[i].kind != RunFailed
                               && events[i].kind != RunCancelled
    ensures forall id :: id in IncompleteRuns(events) <==> id != "" && Mentions(events, id) && !HasEnded(events, id)
    ensures InFirstOrder(events, IncompleteRuns(events)) && NoDuplicates(IncompleteRuns(events))
  {
    forall id ensures id in IncompleteRuns(events) <==> id != "" && Mentions(events, id) && !HasEnded(events, id) {
      FirstSeenMentions(events, id);
      StillOpenFilters(events, FirstSeen(events), id);
    }
    FirstSeenInOrder(events);
    StillOpenInOrder(events, FirstSeen(events));
  }

  lemma {:induction false} ProjectTells(events: seq<Event>, id: string)
    ensures Mentions(events, id) <==> Project(events, id) != []
    ensures HasEnded(events, id) <==>
            exists i :: 0 <= i < |Project(events, id)| && IsTerminalEvent(Project(events, id)[i].kind)
    decreases |events|
  {
    if events != [] {
      var front, e := events[..|events| - 1], events[|events| - 1];
      SplitLast(events);
      ProjectTells(front, id);
      MentionsAppend(front, e, id);
      var before, after := Project(front, id), Project(events, id);
      assert forall i :: 0 <= i < |before| ==> after[i] == before[i];
      if e.runId == id {
        assert after[|before|] == e;
      }
    }
  }

  // ----- the log itself

  class EventLog {
    const redacted: Payload -> Payload  // a payload, printed, redacted and parsed again
    var lines: seq<Line>

    constructor (redacted: Payload -> Payload)
      ensures lines == [] && this.redacted == redacted
    {
      this.redacted := redacted;
      lines := [];
    }

    /** What is appended is what will be read, but for what is redacted. */
    method Append(runId: string, kind: EventType, payload: Payload)
      modifies this
      ensures lines == old(lines) + [Record(runId, ToString(kind), redacted(payload))]
      ensures Events(lines) == Events(old(lines)) + [Event(runId, kind, redacted(payload))]
    {
      ParsePrinted(kind);
      lines := lines + [Record(runId, ToString(kind), redacted(payload))];
    }

    /** list_for_run */
    method ListForRun(runId: string) returns (events: seq<Event>)
      ensures events == Project(Events(lines), runId)
    {
      events := [];
      for k := 0 to |lines|
        invariant events == Project(Events(lines[..k]), runId)
      {
        assert lines[..k + 1][..k] == lines[..k];
        if lines[k].Blank? {
          continue;
        }
        var event := ReadEvent(lines[k]);
        if event.runId == runId {
          events := events + [event];
        }
      }
      assert lines[..|lines|] == lines;
    }

    /** find_incomplete_runs */
    method FindIncompleteRuns() returns (incomplete: seq<string>)
      ensures incomplete == IncompleteRuns(Events(lines))
    {
      hide FirstSeen, HasEnded, ReadEvent;
      var terminalByRun: map<string, bool> := map[];
      var order: seq<string> := [];
      NothingTracked();
      for k := 0 to |lines|
        invariant Tracks(terminalByRun, order, Events(lines[..k]))
      {
        assert lines[..k + 1][..k] == lines[..k];
        if lines[k].Blank? {
          continue;
        }
        var event := ReadEvent(lines[k]);
        TracksNext(terminalByRun, order, Events(lines[..k]), event);
        if event.runId == "" {
          continue;
        }
        if event.runId !in terminalByRun {
          terminalByRun := terminalByRun[event.runId := false];
          order := order + [event.runId];
        }
        if IsTerminalEvent(event.kind) {
          terminalByRun := terminalByRun[event.runId := true];
        }
      }
      assert lines[..|lines|] == lines;
      incomplete := [];
      for k := 0 to |order|
        invariant incomplete == StillOpen(Events(lines), order[..k])
      {
        assert order[..k + 1][..k] == order[..k];
        if order[k] in terminalByRun && !terminalByRun[order[k]] {
          incomplete := incomplete + [order[k]];
        }
      }
      assert order[..|order|] == order;
    }
  }

  lemma AppendFacts(events: seq<Event>, e: Event)
    ensures FirstSeen(events + [e]) ==
            if e.runId == "" || e.runId in FirstSeen(events) then FirstSeen(events) else FirstSeen(events) + [e.runId]
    ensures forall id ::
              HasEnded(events + [e], id) <==> HasEnded(events, id) || (e.runId == id && IsTerminalEvent(e.kind))
    ensures e.runId != "" && e.runId !in FirstSeen(events) ==> !HasEnded(events, e.runId)
  {
    assert (events + [e])[..|events|] == events;
    forall id
      ensures HasEnded(events + [e], id) <==> HasEnded(events, id) || (e.runId == id && IsTerminalEvent(e.kind))
    {
      MentionsAppend(events, e, id);
    }
    FirstSeenMentions(events, e.runId);
  }

  /** The map and the list of find_incomplete_runs after some events. */
  ghost predicate Tracks(terminalByRun: map<string, bool>, order: seq<string>, events: seq<Event>) {
    && order == FirstSeen(events)
    && (forall id :: id in terminalByRun <==> id in order)
    && (forall id :: id in terminalByRun ==> (terminalByRun[id] <==> HasEnded(events, id)))
  }

  lemma NothingTracked()
    ensures Tracks(map[], [], [])
  {
  }

  lemma TracksNext(terminalByRun: map<string, bool>, order: seq<string>, events: seq<Event>, e: Event)
    requires Tracks(terminalByRun, order, events)
    ensures var id := e.runId;
            if id == "" then Tracks(terminalByRun, order, events + [e])
            else
              var known := if id in terminalByRun then terminalByRun else terminalByRun[id := false];
              Tracks(if IsTerminalEvent(e.kind) then known[id := true] else known,
                     if id in terminalByRun then order else order + [id],
                     events + [e])
  {
    hide FirstSeen, HasEnded;
    AppendFacts(events, e);
    FirstSeenMentions(events, "");
  }
}
