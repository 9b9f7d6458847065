/**
 * Properties of ingestion over the log and the tables together: duplicates change nothing,
 * the combined state stays valid, and a rebuild from empty tables reproduces the tables,
 * locker hashes included, that incremental ingestion reached.
 */
module EngineFacts {
  import opened Wrappers
  import opened Events
  import opened FaultEntity
  import opened EventLog
  import opened Projection
  import opened Invariants
  import opened ReplayFacts

  /** Every stored fault is keyed by the id of a logged event. */
  predicate FaultIdsLogged(sys: Engine) {
    forall id | id in sys.tables.faults :: Logged(sys.log, id)
  }

  predicate EngineValid(sys: Engine) {
    Valid(sys.tables) && UniqueIds(sys.log) && FaultIdsLogged(sys)
  }

  lemma LoggedAppend(log: seq<Event>, e: Event, id: string)
    requires Logged(log, id) || id == e.eventId
    ensures Logged(log + [e], id)
  {
    if id == e.eventId {
      assert (log + [e])[|log|].eventId == id;
    } else {
      var i :| 0 <= i < |log| && log[i].eventId == id;
      assert (log + [e])[i].eventId == id;
    }
  }

  /** The faults table after each handler: one row more, one row cleared, or unchanged. */
  lemma ReportedFaults(t: Tables, e: Event)
    requires OnFaultReported(t, e).Success?
    ensures var cid := RequireStr(e.payload, "compartment_id").value;
      OnFaultReported(t, e).value.faults == t.faults[e.eventId := NewFault(e.eventId, e.lockerId, cid, RequireInt(e.payload, "severity").value)]
  {
  }

  lemma ClearedFaults(t: Tables, e: Event)
    requires KeysConsistent(t) && OnFaultCleared(t, e).Success?
    ensures var fid := RequireStr(e.payload, "fault_event_id").value;
      fid in t.faults && OnFaultCleared(t, e).value.faults == t.faults[fid := TryClear(t.faults[fid], e.eventId).value]
  {
  }

  lemma ReservationHandlersKeepFaults(t: Tables, e: Event)
    requires ParseType(e.eventType) in {Some(CompartmentRegistered), Some(ReservationCreated), Some(ParcelDeposited), Some(ParcelPickedUp), Some(ReservationExpired)}
    requires Project(t, e).Success?
    ensures Project(t, e).value.faults == t.faults
  {
  }

  /** A projection stores at most one new fault, under the id of the projected event. */
  lemma ProjectFaultIds(t: Tables, e: Event)
    requires KeysConsistent(t) && Project(t, e).Success?
    ensures forall id | id in Project(t, e).value.faults :: id in t.faults || id == e.eventId
  {
    match ParseType(e.eventType)
    case Some(FaultReported) => ReportedFaults(t, e);
    case Some(FaultCleared) => ClearedFaults(t, e);
    case Some(_) => ReservationHandlersKeepFaults(t, e);
  }

  /** A second submission under a logged id, whatever else it carries, is answered `false` and changes nothing. */
  lemma {:induction false} ResubmissionIgnored(sys: Engine, e: Event, resubmitted: Event)
    requires resubmitted.eventId == e.eventId
    ensures var first := Execute(sys, e).engine;
      Execute(first, resubmitted) == Ingested(first, Success(false))
  {
    if !Logged(sys.log, e.eventId) {
      LoggedAppend(sys.log, e, e.eventId);
    }
  }

  /** `execute` keeps the log free of repeated ids, the tables valid and every fault id logged. */
  lemma {:induction false} ExecuteKeepsValid(sys: Engine, e: Event)
    requires EngineValid(sys)
    ensures EngineValid(Execute(sys, e).engine)
  {
    var x := Execute(sys, e);
    if !Logged(sys.log, e.eventId) {
      var log := sys.log + [e];
      assert UniqueIds(log) by {
        forall i, j | 0 <= i < j < |log|
          ensures log[i].eventId != log[j].eventId
        {
          if j == |log| - 1 {
            assert log[i] == sys.log[i];
          }
        }
      }
      if Project(sys.tables, e).Success? {
        ProjectKeepsValid(sys.tables, e);
        ProjectFaultIds(sys.tables, e);
      }
      forall id | id in x.engine.tables.faults
        ensures Logged(log, id)
      {
        LoggedAppend(sys.log, e, id);
      }
    }
  }

  lemma {:induction false} IngestAllKeepsValid(sys: Engine, events: seq<Event>)
    requires EngineValid(sys)
    ensures EngineValid(IngestAll(sys, events).0)
  {
    if events != [] {
      IngestAllKeepsValid(sys, events[..|events| - 1]);
      ExecuteKeepsValid(IngestAll(sys, events[..|events| - 1]).0, events[|events| - 1]);
    }
  }

  /**
   * The tables are what replaying the log from `start` gives: true of the empty log over
   * the empty tables, and kept by every `execute` that raises nothing.
   */
  predicate ReplaysTo(start: Tables, sys: Engine) {
    Replay(start, sys.log) == Replayed(sys.tables, |sys.log|, None)
  }

  lemma {:induction false} ExecuteKeepsReplay(start: Tables, sys: Engine, e: Event)
    requires ReplaysTo(start, sys)
    requires Execute(sys, e).result.Success?
    ensures ReplaysTo(start, Execute(sys, e).engine)
  {
    if !Logged(sys.log, e.eventId) {
      var log := sys.log + [e];
      assert log[..|sys.log|] == sys.log;
      ReplayStep(start, log, |sys.log|);
      assert log[..|sys.log| + 1] == log;
    }
  }

  /** No submission of the sequence raised. */
  predicate NoneRaised(results: seq<Result<bool, Error>>) {
    forall i | 0 <= i < |results| :: results[i].Success?
  }

  /** The last submission of a sequence, and the results of the ones before it. */
  lemma IngestAllLast(sys: Engine, events: seq<Event>)
    requires events != []
    requires NoneRaised(IngestAll(sys, events).1)
    ensures var before := IngestAll(sys, events[..|events| - 1]);
      && NoneRaised(before.1)
      && Execute(before.0, events[|events| - 1]).result.Success?
      && IngestAll(sys, events).0 == Execute(before.0, events[|events| - 1]).engine
  {
    var before := IngestAll(sys, events[..|events| - 1]);
    var all := IngestAll(sys, events).1;
    assert all == before.1 + [Execute(before.0, events[|events| - 1]).result];
    assert all[|all| - 1] == Execute(before.0, events[|events| - 1]).result;
    forall i | 0 <= i < |before.1|
      ensures before.1[i].Success?
    {
      assert before.1[i] == all[i];
    }
  }

  lemma {:induction false} IngestAllReplays(start: Tables, sys: Engine, events: seq<Event>)
    requires ReplaysTo(start, sys)
    requires NoneRaised(IngestAll(sys, events).1)
    ensures ReplaysTo(start, IngestAll(sys, events).0)
  {
    if events != [] {
      var init := events[..|events| - 1];
      IngestAllLast(sys, events);
      IngestAllReplays(start, sys, init);
      ExecuteKeepsReplay(start, IngestAll(sys, init).0, events[|events| - 1]);
    }
  }

  /**
   * Rebuild equivalence: when a run of submissions from an empty store raised nothing, a
   * rebuild that empties every table replays the whole log and arrives at exactly the
   * incremental tables, so every locker hash agrees.
   */
  lemma RebuildMatchesIngestion(events: seq<Event>, current: Tables)
    requires NoneRaised(IngestAll(Engine([], EmptyTables), events).1)
    ensures var sys := IngestAll(Engine([], EmptyTables), events).0;
      && Replay(Reset(FullResetter, current), sys.log).tables == sys.tables
      && Rebuild(FullResetter, current, sys.log) == Success(|sys.log|)
  {
    IngestAllReplays(EmptyTables, Engine([], EmptyTables), events);
  }

  /**
   * The first submission of a run from an empty store that raises stays in the log, and
   * every later rebuild that empties all tables stops at it with the same error, however
   * many events were appended after it.
   */
  lemma FirstRaiseStopsRebuild(events: seq<Event>, i: nat, later: seq<Event>, current: Tables)
    requires i < |events|
    requires NoneRaised(IngestAll(Engine([], EmptyTables), events[..i]).1)
    requires IngestAll(Engine([], EmptyTables), events[..i + 1]).1[i].Failure?
    ensures var run := IngestAll(Engine([], EmptyTables), events[..i + 1]);
      Rebuild(FullResetter, current, run.0.log + later) == Failure(run.1[i].error)
  {
    var sys := IngestAll(Engine([], EmptyTables), events[..i]).0;
    assert events[..i + 1][..i] == events[..i];
    var x := Execute(sys, events[i]);
    IngestAllReplays(EmptyTables, Engine([], EmptyTables), events[..i]);
    var log := sys.log + [events[i]] + later;
    var n := |sys.log|;
    assert log[..n] == sys.log;
    assert log[n] == events[i];
    ReplayStep(EmptyTables, log, n);
    ReplayStopsAtError(EmptyTables, log, n + 1);
  }
}
