/** The projection of one reported fault, keyed by the id of the event that reported it. */
module FaultEntity {
  import opened Wrappers

  datatype FaultRow = FaultRow(
    eventId: string,
    lockerId: string,
    compartmentId: string,
    severity: int,
    cleared: bool,
    clearedByEventId: Option<string>)

  /** A freshly reported fault: not cleared, no clearing event. */
  function NewFault(eventId: string, lockerId: string, compartmentId: string, severity: int): FaultRow {
    FaultRow(eventId, lockerId, compartmentId, severity, false, None)
  }

  /** The `ValueError` `clear` raises. */
  datatype ClearRefusal = AlreadyCleared

  /**
   * `clear` as a transition on the row: an uncleared fault becomes cleared by the given
   * event; a cleared one refuses. The identifying fields and the severity never change.
   */
  function TryClear(f: FaultRow, clearedByEventId: string): (r: Result<FaultRow, ClearRefusal>)
    ensures r.Success? <==> !f.cleared
    ensures r.Success? ==> r.value.cleared && r.value.clearedByEventId == Some(clearedByEventId)
    ensures r.Success? ==> r.value.eventId == f.eventId && r.value.lockerId == f.lockerId
    ensures r.Success? ==> r.value.compartmentId == f.compartmentId && r.value.severity == f.severity
  {
    if f.cleared then Failure(AlreadyCleared)
    else Success(f.(cleared := true, clearedByEventId := Some(clearedByEventId)))
  }

  /** At most one clear succeeds, so the first clearing event id is never overwritten. */
  lemma ClearAtMostOnce(f: FaultRow, first: string, second: string)
    requires TryClear(f, first).Success?
    ensures TryClear(TryClear(f, first).value, second) == Failure(AlreadyCleared)
    ensures TryClear(f, first).value.clearedByEventId == Some(first)
  {
  }

  class FaultReported {
    var eventId: string
    var lockerId: string
    var compartmentId: string
    var severity: int
    var cleared: bool
    var clearedByEventId: Option<string>

    function Row(): FaultRow
      reads this
    {
      FaultRow(eventId, lockerId, compartmentId, severity, cleared, clearedByEventId)
    }

    constructor (eventId: string, lockerId: string, compartmentId: string, severity: int)
      ensures Row() == NewFault(eventId, lockerId, compartmentId, severity)
    {
      this.eventId, this.lockerId, this.compartmentId := eventId, lockerId, compartmentId;
      this.severity := severity;
      cleared, clearedByEventId := false, None;
    }

    constructor FromRow(row: FaultRow)
      ensures Row() == row
    {
      eventId, lockerId, compartmentId := row.eventId, row.lockerId, row.compartmentId;
      severity, cleared, clearedByEventId := row.severity, row.cleared, row.clearedByEventId;
    }

    method Clear(clearedBy: string) returns (refusal: Option<ClearRefusal>)
      modifies this
      ensures match TryClear(old(Row()), clearedBy)
              case Success(row) => refusal == None && Row() == row
              case Failure(why) => refusal == Some(why) && Row() == old(Row())
    {
      if cleared {
        return Some(AlreadyCleared);
      }
      cleared := true;
      clearedByEventId := Some(clearedBy);
      refusal := None;
    }
  }
}
