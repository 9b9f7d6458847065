/** The Reservation aggregate and its four-valued status. */
module ReservationEntity {

  datatype ReservationStatus = Created | Deposited | PickedUp | Expired

  /** The text each status is stored and reported as. */
  function StatusName(s: ReservationStatus): string {
    match s
    case Created => "CREATED"
    case Deposited => "DEPOSITED"
    case PickedUp => "PICKED_UP"
    case Expired => "EXPIRED"
  }

  /** One row of the reservations table, keyed by reservation id. */
  datatype ReservationRow = ReservationRow(
    lockerId: string,
    reservationId: string,
    compartmentId: string,
    status: ReservationStatus)

  class Reservation {
    var lockerId: string
    var reservationId: string
    var compartmentId: string
    var status: ReservationStatus

    function Row(): ReservationRow
      reads this
    {
      ReservationRow(lockerId, reservationId, compartmentId, status)
    }

    constructor (lockerId: string, reservationId: string, compartmentId: string, status: ReservationStatus)
      ensures Row() == ReservationRow(lockerId, reservationId, compartmentId, status)
    {
      this.lockerId, this.reservationId, this.compartmentId := lockerId, reservationId, compartmentId;
      this.status := status;
    }

    constructor FromRow(row: ReservationRow)
      ensures Row() == row
    {
      lockerId, reservationId, compartmentId := row.lockerId, row.reservationId, row.compartmentId;
      status := row.status;
    }

    /** None of the three transitions checks the prior status; the handlers do. */
    method MarkDeposited()
      modifies this
      ensures Row() == old(Row()).(status := Deposited)
    {
      status := Deposited;
    }

    method MarkPickedUp()
      modifies this
      ensures Row() == old(Row()).(status := PickedUp)
    {
      status := PickedUp;
    }

    method MarkExpired()
      modifies this
      ensures Row() == old(Row()).(status := Expired)
    {
      status := Expired;
    }
  }
}
