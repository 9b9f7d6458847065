/**
 * The projector as a function of the read-model tables and one event, the ingestion step
 * over the event log and the tables, and the rebuild that replays the log. The classes in
 * ingest_event.dfy and rebuild.dfy are proved to compute exactly these functions.
 */
module Projection {
  import opened Wrappers
  import opened Events
  import opened LockerEntity
  import opened CompartmentEntity
  import opened ReservationEntity
  import opened FaultEntity
  import opened FaultRepo
  import opened EventLog

  // ---------------------------------------------------------------------------------------
  // The three kinds of error a handler raises
  // ---------------------------------------------------------------------------------------

  /** What makes a payload or a type tag unusable (`ValueError`). */
  datatype PayloadProblem =
    | NotNonEmptyString(key: string)
    | NotAnInt(key: string)
    | UnsupportedEventType(tag: string)

  /** A reference to something that does not exist or does not match (`ValidationError`). */
  datatype Reference =
    | UnregisteredCompartment(lockerId: string, compartmentId: string)
    | ReservationNotFound(reservationId: string)
    | CompartmentMismatch(reservationId: string)

  /** A well-formed event the state machine refuses (`DomainRuleViolation`). */
  datatype Rule =
    | AssignmentRefused(why: AssignRefusal)
    | NotCreated(status: ReservationStatus)
    | ReservationIsExpired
    | NotDeposited(status: ReservationStatus)
    | UnknownFault(faultEventId: string)
    | FaultOfOtherCompartment
    | ClearRefused(refusal: ClearRefusal)

  datatype Error =
    | ValueError(problem: PayloadProblem)
    | ValidationError(reference: Reference)
    | DomainRuleViolation(rule: Rule)

  // ---------------------------------------------------------------------------------------
  // The read model
  // ---------------------------------------------------------------------------------------

  /** The four projection tables, each a map from its primary key to its row. */
  datatype Tables = Tables(
    lockers: map<string, LockerRow>,
    compartments: map<(string, string), CompartmentRow>,
    reservations: map<string, ReservationRow>,
    faults: map<string, FaultRow>)

  const EmptyTables := Tables(map[], map[], map[], map[])

  /** `_get_or_create_locker`: the stored row, or a new locker with zero counters. */
  function LockerOrNew(t: Tables, lockerId: string): LockerRow {
    if lockerId in t.lockers then t.lockers[lockerId] else NewLocker(lockerId)
  }

  /** `_upsert_locker_with_state_hash`: rehash, then overwrite the row under its own id. */
  function PutLocker(t: Tables, l: LockerRow): Tables {
    t.(lockers := t.lockers[l.lockerId := Rehash(l)])
  }

  function PutCompartment(t: Tables, c: CompartmentRow): Tables {
    t.(compartments := t.compartments[(c.lockerId, c.compartmentId) := c])
  }

  function PutReservation(t: Tables, r: ReservationRow): Tables {
    t.(reservations := t.reservations[r.reservationId := r])
  }

  function PutFault(t: Tables, f: FaultRow): Tables {
    t.(faults := t.faults[f.eventId := f])
  }

  /** `max(0, n)`. */
  function Floor0(n: int): int {
    if n > 0 then n else 0
  }

  // ---------------------------------------------------------------------------------------
  // Payload extraction
  // ---------------------------------------------------------------------------------------

  /** `_require_str`: the entry must be a non-empty string. */
  function RequireStr(payload: Payload, key: string): (r: Result<string, Error>)
    ensures r.Success? <==> key in payload && payload[key].Str? && payload[key].s != ""
    ensures r.Success? ==> r.value == payload[key].s
    ensures r.Failure? ==> r.error == ValueError(NotNonEmptyString(key))
  {
    if key in payload && payload[key].Str? && payload[key].s != "" then Success(payload[key].s)
    else Failure(ValueError(NotNonEmptyString(key)))
  }

  /** `_require_int`: the entry must be a whole number; a boolean is refused. */
  function RequireInt(payload: Payload, key: string): (r: Result<int, Error>)
    ensures r.Success? <==> key in payload && payload[key].Int?
    ensures r.Success? ==> r.value == payload[key].i
    ensures r.Failure? ==> r.error == ValueError(NotAnInt(key))
  {
    if key in payload && payload[key].Int? then Success(payload[key].i)
    else Failure(ValueError(NotAnInt(key)))
  }

  /** An optional `compartment_id` that is present, not null and not the reservation's. */
  predicate CompartmentMismatches(payload: Payload, compartmentId: string) {
    "compartment_id" in payload && payload["compartment_id"] != Null && payload["compartment_id"] != Str(compartmentId)
  }

  // ---------------------------------------------------------------------------------------
  // The seven handlers
  // ---------------------------------------------------------------------------------------

  /** Counts one more compartment and stores it fresh, even over an existing one. */
  function OnCompartmentRegistered(t: Tables, e: Event): Result<Tables, Error> {
    var compartmentId :- RequireStr(e.payload, "compartment_id");
    var locker := LockerOrNew(t, e.lockerId);
    var t1 := PutLocker(t, locker.(compartments := locker.compartments + 1));
    Success(PutCompartment(t1, NewCompartment(e.lockerId, compartmentId)))
  }

  function OnReservationCreated(t: Tables, e: Event): Result<Tables, Error> {
    var reservationId :- RequireStr(e.payload, "reservation_id");
    var compartmentId :- RequireStr(e.payload, "compartment_id");
    var key := (e.lockerId, compartmentId);
    if key !in t.compartments then Failure(ValidationError(UnregisteredCompartment(e.lockerId, compartmentId)))
    else
      match TryAssign(t.compartments[key], reservationId)
      case Failure(why) => Failure(DomainRuleViolation(AssignmentRefused(why)))
      case Success(reserved) =>
        var locker := LockerOrNew(t, e.lockerId);
        var t1 := PutLocker(t, locker.(activeReservations := locker.activeReservations + 1));
        var t2 := PutReservation(t1, ReservationRow(e.lockerId, reservationId, compartmentId, Created));
        Success(PutCompartment(t2, reserved))
  }

  function OnParcelDeposited(t: Tables, e: Event): Result<Tables, Error> {
    var reservationId :- RequireStr(e.payload, "reservation_id");
    if reservationId !in t.reservations then Failure(ValidationError(ReservationNotFound(reservationId)))
    else
      var r := t.reservations[reservationId];
      if CompartmentMismatches(e.payload, r.compartmentId) then Failure(ValidationError(CompartmentMismatch(reservationId)))
      else if r.status != Created then Failure(DomainRuleViolation(NotCreated(r.status)))
      else Success(PutReservation(t, r.(status := Deposited)))
  }

  /** Clears a compartment's pointer only while it still names this reservation. */
  function ReleaseCompartment(t: Tables, key: (string, string), reservationId: string): Tables {
    if key in t.compartments && t.compartments[key].activeReservationId == Some(reservationId)
    then PutCompartment(t, t.compartments[key].(activeReservationId := None))
    else t
  }

  /** One active reservation fewer, never below zero. */
  function ReleaseLockerReservation(t: Tables, lockerId: string): Tables {
    var locker := LockerOrNew(t, lockerId);
    PutLocker(t, locker.(activeReservations := Floor0(locker.activeReservations - 1)))
  }

  function OnParcelPickedUp(t: Tables, e: Event): Result<Tables, Error> {
    var reservationId :- RequireStr(e.payload, "reservation_id");
    if reservationId !in t.reservations then Failure(ValidationError(ReservationNotFound(reservationId)))
    else
      var r := t.reservations[reservationId];
      if CompartmentMismatches(e.payload, r.compartmentId) then Failure(ValidationError(CompartmentMismatch(reservationId)))
      else if r.status == Expired then Failure(DomainRuleViolation(ReservationIsExpired))
      else if r.status != Deposited then Failure(DomainRuleViolation(NotDeposited(r.status)))
      else
        var t1 := PutReservation(t, r.(status := PickedUp));
        var t2 := ReleaseCompartment(t1, (e.lockerId, r.compartmentId), reservationId);
        Success(ReleaseLockerReservation(t2, e.lockerId))
  }

  /** An unknown reservation is tolerated; the locker counter is decremented either way. */
  function OnReservationExpired(t: Tables, e: Event): Result<Tables, Error> {
    var reservationId :- RequireStr(e.payload, "reservation_id");
    var t2 :=
      if reservationId in t.reservations then
        var r := t.reservations[reservationId];
        ReleaseCompartment(PutReservation(t, r.(status := Expired)), (e.lockerId, r.compartmentId), reservationId)
      else t;
    Success(ReleaseLockerReservation(t2, e.lockerId))
  }

  /** The compartment's flags recomputed from the active faults in `t`. */
  function RefreshFlags(t: Tables, c: CompartmentRow, lockerId: string, compartmentId: string): CompartmentRow {
    var s := ActiveSummary(t.faults, lockerId, compartmentId);
    c.(faulty := s.activeCount > 0, degraded := s.anyGeThreshold)
  }

  function OnFaultReported(t: Tables, e: Event): Result<Tables, Error> {
    var compartmentId :- RequireStr(e.payload, "compartment_id");
    var severity :- RequireInt(e.payload, "severity");
    var key := (e.lockerId, compartmentId);
    if key !in t.compartments then Failure(ValidationError(UnregisteredCompartment(e.lockerId, compartmentId)))
    else
      var c := t.compartments[key];
      var t1 := PutFault(t, NewFault(e.eventId, e.lockerId, compartmentId, severity));
      var refreshed := RefreshFlags(t1, c, e.lockerId, compartmentId);
      var t2 := PutCompartment(t1, refreshed);
      if !c.degraded && refreshed.degraded then
        var locker := LockerOrNew(t2, e.lockerId);
        Success(PutLocker(t2, locker.(degradedCompartments := locker.degradedCompartments + 1)))
      else Success(t2)
  }

  function OnFaultCleared(t: Tables, e: Event): Result<Tables, Error> {
    var compartmentId :- RequireStr(e.payload, "compartment_id");
    var faultEventId :- RequireStr(e.payload, "fault_event_id");
    var key := (e.lockerId, compartmentId);
    if key !in t.compartments then Failure(ValidationError(UnregisteredCompartment(e.lockerId, compartmentId)))
    else if faultEventId !in t.faults then Failure(DomainRuleViolation(UnknownFault(faultEventId)))
    else
      var f := t.faults[faultEventId];
      if f.lockerId != e.lockerId || f.compartmentId != compartmentId then Failure(DomainRuleViolation(FaultOfOtherCompartment))
      else
        match TryClear(f, e.eventId)
        case Failure(why) => Failure(DomainRuleViolation(ClearRefused(why)))
        case Success(clearedFault) =>
          var c := t.compartments[key];
          var t1 := PutFault(t, clearedFault);
          var refreshed := RefreshFlags(t1, c, e.lockerId, compartmentId);
          var t2 := PutCompartment(t1, refreshed);
          if c.degraded && !refreshed.degraded then
            var locker := LockerOrNew(t2, e.lockerId);
            Success(PutLocker(t2, locker.(degradedCompartments := Floor0(locker.degradedCompartments - 1))))
          else Success(t2)
  }

  /** `project`: dispatch on the type tag; a tag outside the seven is a `ValueError`. */
  function Project(t: Tables, e: Event): Result<Tables, Error> {
    match ParseType(e.eventType)
    case None => Failure(ValueError(UnsupportedEventType(e.eventType)))
    case Some(CompartmentRegistered) => OnCompartmentRegistered(t, e)
    case Some(ReservationCreated) => OnReservationCreated(t, e)
    case Some(ParcelDeposited) => OnParcelDeposited(t, e)
    case Some(ParcelPickedUp) => OnParcelPickedUp(t, e)
    case Some(ReservationExpired) => OnReservationExpired(t, e)
    case Some(FaultReported) => OnFaultReported(t, e)
    case Some(FaultCleared) => OnFaultCleared(t, e)
  }

  // ---------------------------------------------------------------------------------------
  // Ingestion: the log and the tables together
  // ---------------------------------------------------------------------------------------

  /** The event log and the read model as one state. */
  datatype Engine = Engine(log: seq<Event>, tables: Tables)

  /** The state after one `execute`, and what it returned (`accepted`) or raised. */
  datatype Ingested = Ingested(engine: Engine, result: Result<bool, Error>)

  /**
   * `execute`: a logged id is answered with `accepted = false` and no change at all; a new
   * event is appended first and stays in the log even when its projection then fails, and a
   * failed projection writes nothing.
   */
  function Execute(sys: Engine, e: Event): (r: Ingested)
    ensures Logged(sys.log, e.eventId) ==> r == Ingested(sys, Success(false))
    ensures !Logged(sys.log, e.eventId) ==> r.engine.log == sys.log + [e] && r.result != Success(false)
    ensures r.result.Failure? ==> r.engine.tables == sys.tables
  {
    if Logged(sys.log, e.eventId) then Ingested(sys, Success(false))
    else
      var log := sys.log + [e];
      match Project(sys.tables, e)
      case Success(t) => Ingested(Engine(log, t), Success(true))
      case Failure(err) => Ingested(Engine(log, sys.tables), Failure(err))
  }

  /** A sequence of submissions, with what each returned or raised. */
  function IngestAll(sys: Engine, events: seq<Event>): (r: (Engine, seq<Result<bool, Error>>))
    ensures |r.1| == |events|
  {
    if events == [] then (sys, [])
    else
      var (before, results) := IngestAll(sys, events[..|events| - 1]);
      var x := Execute(before, events[|events| - 1]);
      (x.engine, results + [x.result])
  }

  // ---------------------------------------------------------------------------------------
  // Rebuild
  // ---------------------------------------------------------------------------------------

  /** The tables reached, how many events were projected, and the error that stopped the replay. */
  datatype Replayed = Replayed(tables: Tables, replayed: nat, error: Option<Error>)

  /** The rebuild loop: `project` each event in log order; the first error aborts. */
  function Replay(t: Tables, log: seq<Event>): (r: Replayed)
    ensures r.replayed <= |log|
    ensures r.error == None ==> r.replayed == |log|
  {
    if log == [] then Replayed(t, 0, None)
    else
      var prev := Replay(t, log[..|log| - 1]);
      if prev.error.Some? then prev
      else
        match Project(prev.tables, log[|log| - 1])
        case Success(t1) => Replayed(t1, prev.replayed + 1, None)
        case Failure(err) => prev.(error := Some(err))
  }

  /** Which tables a resetter empties: the source's SQL resetter leaves the faults table alone. */
  datatype Resetter = SqlProjectionResetter | FullResetter

  function Reset(resetter: Resetter, t: Tables): Tables {
    match resetter
    case SqlProjectionResetter => t.(lockers := map[], compartments := map[], reservations := map[])
    case FullResetter => EmptyTables
  }

  /** `RebuildLockerProjectionUseCase.execute` on the current tables and the log. */
  function Rebuild(resetter: Resetter, t: Tables, log: seq<Event>): Result<nat, Error> {
    var r := Replay(Reset(resetter, t), log);
    if r.error.None? then Success(r.replayed) else Failure(r.error.value)
  }
}
