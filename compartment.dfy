/**
 * The Compartment aggregate: the degraded and faulty flags and at most one active
 * reservation.
 */
module CompartmentEntity {
  import opened Wrappers

  /** One row of the compartments table, keyed by (locker id, compartment id). */
  datatype CompartmentRow = CompartmentRow(
    lockerId: string,
    compartmentId: string,
    degraded: bool,
    faulty: bool,
    activeReservationId: Option<string>)

  /** `Compartment(locker_id, compartment_id)` with the dataclass defaults. */
  function NewCompartment(lockerId: string, compartmentId: string): CompartmentRow {
    CompartmentRow(lockerId, compartmentId, false, false, None)
  }

  /** The two `ValueError`s `assign_reservation` raises. */
  datatype AssignRefusal = DegradedCompartment | AlreadyReserved

  /**
   * `assign_reservation` as a transition on the row: a degraded compartment refuses (this
   * check comes first), so does one that already holds a reservation; otherwise only the
   * reservation pointer changes.
   */
  function TryAssign(c: CompartmentRow, reservationId: string): (r: Result<CompartmentRow, AssignRefusal>)
    ensures r.Success? <==> !c.degraded && c.activeReservationId == None
    ensures c.degraded ==> r == Failure(DegradedCompartment)
    ensures r.Success? ==> r.value == c.(activeReservationId := Some(reservationId))
  {
    if c.degraded then Failure(DegradedCompartment)
    else if c.activeReservationId.Some? then Failure(AlreadyReserved)
    else Success(c.(activeReservationId := Some(reservationId)))
  }

  class Compartment {
    var lockerId: string
    var compartmentId: string
    var degraded: bool
    var faulty: bool
    var activeReservationId: Option<string>

    function Row(): CompartmentRow
      reads this
    {
      CompartmentRow(lockerId, compartmentId, degraded, faulty, activeReservationId)
    }

    constructor (lockerId: string, compartmentId: string)
      ensures Row() == NewCompartment(lockerId, compartmentId)
    {
      this.lockerId := lockerId;
      this.compartmentId := compartmentId;
      degraded, faulty := false, false;
      activeReservationId := None;
    }

    constructor FromRow(row: CompartmentRow)
      ensures Row() == row
    {
      lockerId, compartmentId := row.lockerId, row.compartmentId;
      degraded, faulty := row.degraded, row.faulty;
      activeReservationId := row.activeReservationId;
    }

    /** Returns the refusal the source raises, leaving the entity unchanged in that case. */
    method AssignReservation(reservationId: string) returns (refusal: Option<AssignRefusal>)
      modifies this
      ensures match TryAssign(old(Row()), reservationId)
              case Success(row) => refusal == None && Row() == row
              case Failure(why) => refusal == Some(why) && Row() == old(Row())
    {
      if degraded {
        return Some(DegradedCompartment);
      }
      if activeReservationId != None {
        return Some(AlreadyReserved);
      }
      activeReservationId := Some(reservationId);
      refusal := None;
    }

    method ClearReservation()
      modifies this
      ensures Row() == old(Row()).(activeReservationId := None)
    {
      activeReservationId := None;
    }

    method MarkFaulty()
      modifies this
      ensures Row() == old(Row()).(faulty := true)
    {
      faulty := true;
    }

    method MarkDegraded()
      modifies this
      ensures Row() == old(Row()).(degraded := true)
    {
      degraded := true;
    }

    method ClearDegraded()
      modifies this
      ensures Row() == old(Row()).(degraded := false)
    {
      degraded := false;
    }
  }
}
