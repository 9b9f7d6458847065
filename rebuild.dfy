/**
 * `RebuildLockerProjectionUseCase`: empties the projection and projects every logged event
 * again, in log order. An event that raises stops the rebuild and the error propagates.
 */
module RebuildProjection {
  import opened Wrappers
  import opened Events
  import opened EventLog
  import opened Projection
  import opened IngestEvent
  import opened ReplayFacts

  class RebuildLockerProjectionUseCase {
    const eventLog: EventStore
    const projector: IngestEventUseCase
    const resetter: Resetter

    constructor (eventLog: EventStore, projector: IngestEventUseCase, resetter: Resetter)
      ensures this.eventLog == eventLog && this.projector == projector && this.resetter == resetter
    {
      this.eventLog, this.projector, this.resetter := eventLog, projector, resetter;
    }

    /** The resetter's `reset`: the SQL one deletes lockers, compartments and reservations only. */
    method ResetProjection()
      modifies projector, projector.faultRepo
      ensures projector.ReadModel() == Reset(resetter, old(projector.ReadModel()))
    {
      projector.lockers, projector.compartments, projector.reservations := map[], map[], map[];
      if resetter == FullResetter {
        projector.faultRepo.rows := map[];
      }
    }

    /**
     * One iteration of the replay loop: projects the next event of a clean prefix. Without
     * error the prefix grows by one; with one, the whole replay ends where the prefix did.
     */
    method ReplayNext(ghost start: Tables, events: seq<Event>, replayed: nat) returns (err: Option<Error>)
      requires replayed < |events|
      requires Replay(start, events[..replayed]) == Replayed(projector.ReadModel(), replayed, None)
      modifies projector, projector.faultRepo
      ensures err.None? ==> Replay(start, events[..replayed + 1]) == Replayed(projector.ReadModel(), replayed + 1, None)
      ensures err.Some? ==> Replay(start, events) == Replayed(projector.ReadModel(), replayed, err)
    {
      ghost var outcome := Projection.Project(projector.ReadModel(), events[replayed]);
      ReplayExtends(start, events, replayed, projector.ReadModel(), outcome);
      err := projector.Project(events[replayed]);
    }

    /**
     * `execute`: the number of events replayed, or the first error raised; the tables are
     * those the replay reached, which on an error are the tables before the failing event.
     */
    method Execute() returns (r: Result<nat, Error>)
      modifies projector, projector.faultRepo
      ensures r == Rebuild(resetter, old(projector.ReadModel()), old(eventLog.records))
      ensures projector.ReadModel() == Replay(Reset(resetter, old(projector.ReadModel())), old(eventLog.records)).tables
    {
      ResetProjection();
      ghost var start := projector.ReadModel();
      var events := eventLog.LoadAll();
      var replayed := 0;
      while replayed < |events|
        invariant replayed <= |events|
        invariant Replay(start, events[..replayed]) == Replayed(projector.ReadModel(), replayed, None)
      {
        var err := ReplayNext(start, events, replayed);
        if err.Some? {
          return Failure(err.value);
        }
        replayed := replayed + 1;
      }
      assert events[..replayed] == events;
      r := Success(replayed);
    }
  }
}
