/**
 * `IngestEventUseCase`: admits an event into the log and projects it into the read model.
 * Each handler loads entities through the repositories, changes them in place and writes
 * them back, in the source's order; each is proved to compute the corresponding function of
 * module Projection, and to write nothing when it raises.
 */
module IngestEvent {
  import opened Wrappers
  import opened Events
  import opened LockerEntity
  import opened CompartmentEntity
  import opened ReservationEntity
  import opened FaultEntity
  import opened FaultRepo
  import opened EventLog
  import opened Projection

  /**
   * A handler's outcome matches the specification: on success the tables are the specified
   * ones and nothing was raised; on failure the same error was raised and the tables are
   * exactly as before, so every rejection comes before the first write.
   */
  ghost predicate Agrees(spec: Result<Tables, Error>, err: Option<Error>, before: Tables, after: Tables) {
    match spec
    case Success(t) => err == None && after == t
    case Failure(e) => err == Some(e) && after == before
  }

  class IngestEventUseCase {
    const eventRepo: EventStore
    const faultRepo: FaultRepository
    // The locker, compartment and reservation repositories, as the tables they wrap.
    var lockers: map<string, LockerRow>
    var compartments: map<(string, string), CompartmentRow>
    var reservations: map<string, ReservationRow>

    function ReadModel(): Tables
      reads this, faultRepo
    {
      Tables(lockers, compartments, reservations, faultRepo.rows)
    }

    function State(): Engine
      reads this, eventRepo, faultRepo
    {
      Engine(eventRepo.records, ReadModel())
    }

    constructor (eventRepo: EventStore, faultRepo: FaultRepository,
                 lockers: map<string, LockerRow>,
                 compartments: map<(string, string), CompartmentRow>,
                 reservations: map<string, ReservationRow>)
      ensures this.eventRepo == eventRepo && this.faultRepo == faultRepo
      ensures ReadModel() == Tables(lockers, compartments, reservations, faultRepo.rows)
    {
      this.eventRepo, this.faultRepo := eventRepo, faultRepo;
      this.lockers, this.compartments, this.reservations := lockers, compartments, reservations;
    }

    /** `execute`: duplicate ids are answered `false`; a new event is logged, then projected. */
    method Execute(e: Event) returns (result: Result<bool, Error>)
      modifies this, eventRepo, faultRepo
      ensures State() == Projection.Execute(old(State()), e).engine
      ensures result == Projection.Execute(old(State()), e).result
    {
      var accepted := eventRepo.Append(e);
      if !accepted {
        return Success(false);
      }
      var err := Project(e);
      if err.Some? {
        return Failure(err.value);
      }
      return Success(true);
    }

    /** `project`: the handler table lookup and dispatch. */
    method Project(e: Event) returns (err: Option<Error>)
      modifies this, faultRepo
      ensures Agrees(Projection.Project(old(ReadModel()), e), err, old(ReadModel()), ReadModel())
    {
      match ParseType(e.eventType) {
        case None =>
          err := Some(ValueError(UnsupportedEventType(e.eventType)));
        case Some(CompartmentRegistered) =>
          err := OnCompartmentRegistered(e);
        case Some(ReservationCreated) =>
          err := OnReservationCreated(e);
        case Some(ParcelDeposited) =>
          err := OnParcelDeposited(e);
        case Some(ParcelPickedUp) =>
          err := OnParcelPickedUp(e);
        case Some(ReservationExpired) =>
          err := OnReservationExpired(e);
        case Some(FaultReported) =>
          err := OnFaultReported(e);
        case Some(FaultCleared) =>
          err := OnFaultCleared(e);
      }
    }

    // -------------------------------------------------------------------------------------
    // Repository access
    // -------------------------------------------------------------------------------------

    method GetOrCreateLocker(lockerId: string) returns (locker: Locker)
      ensures fresh(locker) && locker.Row() == LockerOrNew(ReadModel(), lockerId)
    {
      if lockerId in lockers {
        locker := new Locker.FromRow(lockers[lockerId]);
      } else {
        locker := new Locker(lockerId);
      }
    }

    method UpsertLockerWithStateHash(locker: Locker)
      modifies this, locker
      ensures ReadModel() == PutLocker(old(ReadModel()), old(locker.Row()))
    {
      var hash := locker.SetStateHash();
      lockers := lockers[locker.lockerId := locker.Row()];
    }

    method GetCompartment(lockerId: string, compartmentId: string) returns (c: Compartment?)
      ensures c == null <==> (lockerId, compartmentId) !in compartments
      ensures c != null ==> fresh(c) && c.Row() == compartments[(lockerId, compartmentId)]
    {
      c := null;
      if (lockerId, compartmentId) in compartments {
        c := new Compartment.FromRow(compartments[(lockerId, compartmentId)]);
      }
    }

    method UpsertCompartment(c: Compartment)
      modifies this
      ensures ReadModel() == PutCompartment(old(ReadModel()), c.Row())
    {
      compartments := compartments[(c.lockerId, c.compartmentId) := c.Row()];
    }

    method GetReservation(reservationId: string) returns (r: Reservation?)
      ensures r == null <==> reservationId !in reservations
      ensures r != null ==> fresh(r) && r.Row() == reservations[reservationId]
    {
      r := null;
      if reservationId in reservations {
        r := new Reservation.FromRow(reservations[reservationId]);
      }
    }

    method UpsertReservation(r: Reservation)
      modifies this
      ensures ReadModel() == PutReservation(old(ReadModel()), r.Row())
    {
      reservations := reservations[r.reservationId := r.Row()];
    }

    /** Clears the compartment's pointer if it still names this reservation. */
    method ReleaseCompartment(lockerId: string, compartmentId: string, reservationId: string)
      modifies this
      ensures ReadModel() == Projection.ReleaseCompartment(old(ReadModel()), (lockerId, compartmentId), reservationId)
    {
      var compartment := GetCompartment(lockerId, compartmentId);
      if compartment != null && compartment.activeReservationId == Some(reservationId) {
        compartment.ClearReservation();
        UpsertCompartment(compartment);
      }
    }

    /** Decrements the locker's active reservation counter, never below zero. */
    method ReleaseLockerReservation(lockerId: string)
      modifies this
      ensures ReadModel() == Projection.ReleaseLockerReservation(old(ReadModel()), lockerId)
    {
      var locker := GetOrCreateLocker(lockerId);
      locker.activeReservations := Floor0(locker.activeReservations - 1);
      UpsertLockerWithStateHash(locker);
    }

    /**
     * Stores the fault, then recomputes the compartment's flags from the active faults of
     * that compartment and stores the compartment; returns the flag it had before.
     */
    method WriteFaultAndRefresh(compartment: Compartment, lockerId: string, compartmentId: string, fault: FaultRow)
      returns (wasDegraded: bool)
      modifies this, faultRepo, compartment
      ensures wasDegraded == old(compartment.degraded)
      ensures var t1 := PutFault(old(ReadModel()), fault);
        && compartment.Row() == RefreshFlags(t1, old(compartment.Row()), lockerId, compartmentId)
        && ReadModel() == PutCompartment(t1, compartment.Row())
    {
      faultRepo.Upsert(fault);
      var summary := faultRepo.Summary(lockerId, compartmentId);
      wasDegraded := compartment.degraded;
      compartment.faulty := summary.activeCount > 0;
      compartment.degraded := summary.anyGeThreshold;
      UpsertCompartment(compartment);
    }

    /**
     * The second read of the compartment in `_on_reservation_created`: the stored row, or a
     * fresh one if none is stored, gets the pointer to the reservation.
     */
    method PointCompartmentAt(lockerId: string, compartmentId: string, reservationId: string)
      modifies this
      ensures var key := (lockerId, compartmentId);
        var c := if key in old(compartments) then old(compartments)[key] else NewCompartment(lockerId, compartmentId);
        ReadModel() == PutCompartment(old(ReadModel()), c.(activeReservationId := Some(reservationId)))
    {
      var stored := GetCompartment(lockerId, compartmentId);
      if stored == null {
        stored := new Compartment(lockerId, compartmentId);
      }
      stored.activeReservationId := Some(reservationId);
      UpsertCompartment(stored);
    }

    /** One more degraded compartment on the locker. */
    method CountDegraded(lockerId: string)
      modifies this
      ensures var l := LockerOrNew(old(ReadModel()), lockerId);
        ReadModel() == PutLocker(old(ReadModel()), l.(degradedCompartments := l.degradedCompartments + 1))
    {
      var locker := GetOrCreateLocker(lockerId);
      locker.degradedCompartments := locker.degradedCompartments + 1;
      UpsertLockerWithStateHash(locker);
    }

    /** One degraded compartment fewer on the locker, never below zero. */
    method UncountDegraded(lockerId: string)
      modifies this
      ensures var l := LockerOrNew(old(ReadModel()), lockerId);
        ReadModel() == PutLocker(old(ReadModel()), l.(degradedCompartments := Floor0(l.degradedCompartments - 1)))
    {
      var locker := GetOrCreateLocker(lockerId);
      locker.degradedCompartments := Floor0(locker.degradedCompartments - 1);
      UpsertLockerWithStateHash(locker);
    }

    /**
     * The writes of `_on_reservation_created` once the assignment is accepted: one more
     * active reservation on the locker, the new CREATED reservation, and the pointer on the
     * compartment, which the source reads again before setting it.
     */
    method RecordReservation(lockerId: string, compartmentId: string, reservationId: string)
      modifies this
      ensures var t0 := old(ReadModel());
        var l := LockerOrNew(t0, lockerId);
        var t1 := PutLocker(t0, l.(activeReservations := l.activeReservations + 1));
        var t2 := PutReservation(t1, ReservationRow(lockerId, reservationId, compartmentId, Created));
        var c := if (lockerId, compartmentId) in t0.compartments then t0.compartments[(lockerId, compartmentId)]
                 else NewCompartment(lockerId, compartmentId);
        ReadModel() == PutCompartment(t2, c.(activeReservationId := Some(reservationId)))
    {
      var locker := GetOrCreateLocker(lockerId);
      locker.activeReservations := locker.activeReservations + 1;
      UpsertLockerWithStateHash(locker);
      var reservation := new Reservation(lockerId, reservationId, compartmentId, Created);
      UpsertReservation(reservation);
      PointCompartmentAt(lockerId, compartmentId, reservationId);
    }

    /** `payload.get("compartment_id")`, with an absent key read as null. */
    static function PayloadCompartment(payload: Payload): Value {
      if "compartment_id" in payload then payload["compartment_id"] else Null
    }

    // -------------------------------------------------------------------------------------
    // The seven handlers
    // -------------------------------------------------------------------------------------

    method OnCompartmentRegistered(e: Event) returns (err: Option<Error>)
      modifies this
      ensures Agrees(Projection.OnCompartmentRegistered(old(ReadModel()), e), err, old(ReadModel()), ReadModel())
    {
      var compartmentId := RequireStr(e.payload, "compartment_id");
      if compartmentId.Failure? {
        return Some(compartmentId.error);
      }
      var locker := GetOrCreateLocker(e.lockerId);
      locker.compartments := locker.compartments + 1;
      UpsertLockerWithStateHash(locker);
      var compartment := new Compartment(e.lockerId, compartmentId.value);
      UpsertCompartment(compartment);
      err := None;
    }

    method OnReservationCreated(e: Event) returns (err: Option<Error>)
      modifies this
      ensures Agrees(Projection.OnReservationCreated(old(ReadModel()), e), err, old(ReadModel()), ReadModel())
    {
      var reservationId := RequireStr(e.payload, "reservation_id");
      if reservationId.Failure? {
        return Some(reservationId.error);
      }
      var compartmentId := RequireStr(e.payload, "compartment_id");
      if compartmentId.Failure? {
        return Some(compartmentId.error);
      }
      var rid, cid := reservationId.value, compartmentId.value;
      var compartment := GetCompartment(e.lockerId, cid);
      if compartment == null {
        return Some(ValidationError(UnregisteredCompartment(e.lockerId, cid)));
      }
      var refusal := compartment.AssignReservation(rid);
      if refusal.Some? {
        return Some(DomainRuleViolation(AssignmentRefused(refusal.value)));
      }
      RecordReservation(e.lockerId, cid, rid);
      err := None;
    }

    method OnParcelDeposited(e: Event) returns (err: Option<Error>)
      modifies this
      ensures Agrees(Projection.OnParcelDeposited(old(ReadModel()), e), err, old(ReadModel()), ReadModel())
    {
      var reservationId := RequireStr(e.payload, "reservation_id");
      if reservationId.Failure? {
        return Some(reservationId.error);
      }
      var reservation := GetReservation(reservationId.value);
      if reservation == null {
        return Some(ValidationError(ReservationNotFound(reservationId.value)));
      }
      var given := PayloadCompartment(e.payload);
      if given != Null && given != Str(reservation.compartmentId) {
        return Some(ValidationError(CompartmentMismatch(reservationId.value)));
      }
      if reservation.status != Created {
        return Some(DomainRuleViolation(NotCreated(reservation.status)));
      }
      reservation.MarkDeposited();
      UpsertReservation(reservation);
      err := None;
    }

    method OnParcelPickedUp(e: Event) returns (err: Option<Error>)
      modifies this
      ensures Agrees(Projection.OnParcelPickedUp(old(ReadModel()), e), err, old(ReadModel()), ReadModel())
    {
      var reservationId := RequireStr(e.payload, "reservation_id");
      if reservationId.Failure? {
        return Some(reservationId.error);
      }
      var reservation := GetReservation(reservationId.value);
      if reservation == null {
        return Some(ValidationError(ReservationNotFound(reservationId.value)));
      }
      var given := PayloadCompartment(e.payload);
      if given != Null && given != Str(reservation.compartmentId) {
        return Some(ValidationError(CompartmentMismatch(reservationId.value)));
      }
      if reservation.status == Expired {
        return Some(DomainRuleViolation(ReservationIsExpired));
      }
      if reservation.status != Deposited {
        return Some(DomainRuleViolation(NotDeposited(reservation.status)));
      }
      reservation.MarkPickedUp();
      UpsertReservation(reservation);
      ReleaseCompartment(e.lockerId, reservation.compartmentId, reservationId.value);
      ReleaseLockerReservation(e.lockerId);
      err := None;
    }

    method OnReservationExpired(e: Event) returns (err: Option<Error>)
      modifies this
      ensures Agrees(Projection.OnReservationExpired(old(ReadModel()), e), err, old(ReadModel()), ReadModel())
    {
      var reservationId := RequireStr(e.payload, "reservation_id");
      if reservationId.Failure? {
        return Some(reservationId.error);
      }
      var reservation := GetReservation(reservationId.value);
      if reservation != null {
        reservation.MarkExpired();
        UpsertReservation(reservation);
        ReleaseCompartment(e.lockerId, reservation.compartmentId, reservationId.value);
      }
      ReleaseLockerReservation(e.lockerId);
      err := None;
    }

    method OnFaultReported(e: Event) returns (err: Option<Error>)
      modifies this, faultRepo
      ensures Agrees(Projection.OnFaultReported(old(ReadModel()), e), err, old(ReadModel()), ReadModel())
    {
      var compartmentId := RequireStr(e.payload, "compartment_id");
      if compartmentId.Failure? {
        return Some(compartmentId.error);
      }
      var severity := RequireInt(e.payload, "severity");
      if severity.Failure? {
        return Some(severity.error);
      }
      var compartment := GetCompartment(e.lockerId, compartmentId.value);
      if compartment == null {
        return Some(ValidationError(UnregisteredCompartment(e.lockerId, compartmentId.value)));
      }
      var fault := new FaultReported(e.eventId, e.lockerId, compartmentId.value, severity.value);
      var wasDegraded := WriteFaultAndRefresh(compartment, e.lockerId, compartmentId.value, fault.Row());
      if !wasDegraded && compartment.degraded {
        CountDegraded(e.lockerId);
      }
      err := None;
    }

    method OnFaultCleared(e: Event) returns (err: Option<Error>)
      modifies this, faultRepo
      ensures Agrees(Projection.OnFaultCleared(old(ReadModel()), e), err, old(ReadModel()), ReadModel())
    {
      var compartmentId := RequireStr(e.payload, "compartment_id");
      if compartmentId.Failure? {
        return Some(compartmentId.error);
      }
      var faultEventId := RequireStr(e.payload, "fault_event_id");
      if faultEventId.Failure? {
        return Some(faultEventId.error);
      }
      var compartment := GetCompartment(e.lockerId, compartmentId.value);
      if compartment == null {
        return Some(ValidationError(UnregisteredCompartment(e.lockerId, compartmentId.value)));
      }
      var row := faultRepo.Get(faultEventId.value);
      if row.None? {
        return Some(DomainRuleViolation(UnknownFault(faultEventId.value)));
      }
      var fault := new FaultReported.FromRow(row.value);
      if fault.lockerId != e.lockerId || fault.compartmentId != compartmentId.value {
        return Some(DomainRuleViolation(FaultOfOtherCompartment));
      }
      var refusal := fault.Clear(e.eventId);
      if refusal.Some? {
        return Some(DomainRuleViolation(ClearRefused(refusal.value)));
      }
      var wasDegraded := WriteFaultAndRefresh(compartment, e.lockerId, compartmentId.value, fault.Row());
      if wasDegraded && !compartment.degraded {
        UncountDegraded(e.lockerId);
      }
      err := None;
    }
  }
}
