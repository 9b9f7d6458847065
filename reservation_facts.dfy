/**
 * The reservation state machine as the projector enforces it: a projection deletes no
 * reservation and makes at most one status move, CREATED to DEPOSITED, DEPOSITED to
 * PICKED_UP, any status to EXPIRED, or any row (re)created as CREATED; a compartment holds
 * one active reservation, and expiry is tolerant of unknown reservations.
 */
module ReservationFacts {
  import opened Wrappers
  import opened Events
  import opened LockerEntity
  import opened CompartmentEntity
  import opened ReservationEntity
  import opened Projection
  import opened PayloadSchema
  import opened Invariants
  import opened Refusals

  function StatusOf(t: Tables, reservationId: string): Option<ReservationStatus> {
    if reservationId in t.reservations then Some(t.reservations[reservationId].status) else None
  }

  /**
   * The moves one event may make to a reservation's status: none, a (re)creation, a deposit
   * of a created one, a pickup of a deposited one, or an expiry of an existing one.
   */
  predicate Advances(before: Option<ReservationStatus>, after: ReservationStatus) {
    || before == Some(after)
    || after == Created
    || (before == Some(Created) && after == Deposited)
    || (before == Some(Deposited) && after == PickedUp)
    || (before.Some? && after == Expired)
  }

  /** Overwriting one row with an allowed move keeps every row and allows every move. */
  lemma OneRowAdvances(t: Tables, after: map<string, ReservationRow>, id: string, row: ReservationRow)
    requires after == t.reservations[id := row]
    requires Advances(StatusOf(t, id), row.status)
    ensures forall k | k in t.reservations :: k in after
    ensures forall k | k in after :: Advances(StatusOf(t, k), after[k].status)
  {
  }

  /** The reservations table after a successful projection differs in at most one row. */
  ghost predicate OneRowMoved(t: Tables, after: map<string, ReservationRow>) {
    || after == t.reservations
    || exists id, row | after == t.reservations[id := row] :: Advances(StatusOf(t, id), row.status)
  }

  lemma CreatedMovesOneRow(t: Tables, e: Event)
    requires KeysConsistent(t)
    requires ParseType(e.eventType) == Some(ReservationCreated) && Project(t, e).Success?
    ensures OneRowMoved(t, Project(t, e).value.reservations)
  {
    var rid := RequireStr(e.payload, "reservation_id").value;
    var cid := RequireStr(e.payload, "compartment_id").value;
    var row := ReservationRow(e.lockerId, rid, cid, Created);
    assert Project(t, e).value.reservations == t.reservations[rid := row];
    assert Advances(StatusOf(t, rid), row.status);
  }

  lemma DepositedMovesOneRow(t: Tables, e: Event)
    requires KeysConsistent(t)
    requires ParseType(e.eventType) == Some(ParcelDeposited) && Project(t, e).Success?
    ensures OneRowMoved(t, Project(t, e).value.reservations)
  {
    var rid := RequireStr(e.payload, "reservation_id").value;
    var row := t.reservations[rid].(status := Deposited);
    assert Project(t, e).value.reservations == t.reservations[rid := row];
    assert Advances(StatusOf(t, rid), row.status);
  }

  lemma PickedUpMovesOneRow(t: Tables, e: Event)
    requires KeysConsistent(t)
    requires ParseType(e.eventType) == Some(ParcelPickedUp) && Project(t, e).Success?
    ensures OneRowMoved(t, Project(t, e).value.reservations)
  {
    var rid := RequireStr(e.payload, "reservation_id").value;
    var row := t.reservations[rid].(status := PickedUp);
    assert Project(t, e).value.reservations == t.reservations[rid := row];
    assert Advances(StatusOf(t, rid), row.status);
  }

  lemma ExpiredMovesOneRow(t: Tables, e: Event)
    requires KeysConsistent(t)
    requires ParseType(e.eventType) == Some(ReservationExpired) && Project(t, e).Success?
    ensures OneRowMoved(t, Project(t, e).value.reservations)
  {
    var rid := RequireStr(e.payload, "reservation_id").value;
    if rid in t.reservations {
      var row := t.reservations[rid].(status := Expired);
      assert Project(t, e).value.reservations == t.reservations[rid := row];
      assert Advances(StatusOf(t, rid), row.status);
    } else {
      assert Project(t, e).value.reservations == t.reservations;
    }
  }

  /** The three handlers that do not touch reservations. */
  lemma OthersKeepReservations(t: Tables, e: Event)
    requires ParseType(e.eventType) in {Some(CompartmentRegistered), Some(FaultReported), Some(FaultCleared)}
    requires Project(t, e).Success?
    ensures OneRowMoved(t, Project(t, e).value.reservations)
  {
    assert Project(t, e).value.reservations == t.reservations;
  }

  /** No reservation is ever deleted, and each moves only as `Advances` allows. */
  lemma {:induction false} ProjectAdvancesStatuses(t: Tables, e: Event)
    requires KeysConsistent(t) && Project(t, e).Success?
    ensures forall id | id in t.reservations :: id in Project(t, e).value.reservations
    ensures forall id | id in Project(t, e).value.reservations ::
      Advances(StatusOf(t, id), Project(t, e).value.reservations[id].status)
  {
    var after := Project(t, e).value.reservations;
    match ParseType(e.eventType) {
      case Some(ReservationCreated) => CreatedMovesOneRow(t, e);
      case Some(ParcelDeposited) => DepositedMovesOneRow(t, e);
      case Some(ParcelPickedUp) => PickedUpMovesOneRow(t, e);
      case Some(ReservationExpired) => ExpiredMovesOneRow(t, e);
      case Some(_) => OthersKeepReservations(t, e);
    }
    if after != t.reservations {
      var id, row :| after == t.reservations[id := row] && Advances(StatusOf(t, id), row.status);
      OneRowAdvances(t, after, id, row);
    }
  }

  /** The reservation id and compartment id a well-formed ReservationCreated names. */
  function Target(e: Event): (string, string) {
    (e.lockerId, Field(e, "compartment_id"))
  }

  /** A compartment with a reservation refuses a second one; a degraded one is refused first. */
  lemma SecondReservationRefused(t: Tables, e: Event)
    requires ParseType(e.eventType) == Some(ReservationCreated) && WellFormed(e)
    requires Target(e) in t.compartments
    requires t.compartments[Target(e)].degraded || t.compartments[Target(e)].activeReservationId.Some?
    ensures Project(t, e) == Failure(DomainRuleViolation(AssignmentRefused(
      if t.compartments[Target(e)].degraded then DegradedCompartment else AlreadyReserved)))
  {
    assert {"reservation_id", "compartment_id"} == RequiredStrings(ReservationCreated);
  }

  /** After one reservation is made on a compartment, the next one for it is refused. */
  lemma {:induction false} ReservedCompartmentRefusesNext(t: Tables, first: Event, second: Event)
    requires ParseType(first.eventType) == Some(ReservationCreated) && WellFormed(first)
    requires ParseType(second.eventType) == Some(ReservationCreated) && WellFormed(second)
    requires Target(first) == Target(second)
    requires KeysConsistent(t) && Project(t, first).Success?
    ensures Project(Project(t, first).value, second).Failure?
    ensures Project(Project(t, first).value, second).error.DomainRuleViolation?
  {
    assert {"reservation_id", "compartment_id"} == RequiredStrings(ReservationCreated);
    ReservationCreatedEffect(t, first);
    SecondReservationRefused(Project(t, first).value, second);
  }

  /** A successful ReservationCreated reserves the compartment and counts one more active reservation. */
  lemma ReservationCreatedEffect(t: Tables, e: Event)
    requires KeysConsistent(t)
    requires ParseType(e.eventType) == Some(ReservationCreated) && WellFormed(e)
    requires Project(t, e).Success?
    ensures var t' := Project(t, e).value; var rid := Field(e, "reservation_id");
      && t'.compartments[Target(e)] == t.compartments[Target(e)].(activeReservationId := Some(rid))
      && t'.reservations[rid] == ReservationRow(e.lockerId, rid, Target(e).1, Created)
      && t'.lockers[e.lockerId].activeReservations == LockerOrNew(t, e.lockerId).activeReservations + 1
      && HashConsistent(t'.lockers[e.lockerId])
  {
    assert {"reservation_id", "compartment_id"} == RequiredStrings(ReservationCreated);
  }

  /**
   * PICKED_UP and EXPIRED are not final: a ReservationCreated that reuses the id of a
   * finished reservation on a free compartment succeeds and makes it CREATED again.
   */
  lemma FinishedReservationRecreated(t: Tables, e: Event)
    requires KeysConsistent(t)
    requires ParseType(e.eventType) == Some(ReservationCreated) && WellFormed(e)
    requires Field(e, "reservation_id") in t.reservations
    requires t.reservations[Field(e, "reservation_id")].status in {PickedUp, Expired}
    requires Target(e) in t.compartments
    requires !t.compartments[Target(e)].degraded && t.compartments[Target(e)].activeReservationId == None
    ensures Project(t, e).Success?
    ensures Project(t, e).value.reservations[Field(e, "reservation_id")].status == Created
  {
    CreatedRefusals(t, e);
    ReservationCreatedEffect(t, e);
  }

  /** Depositing into a reservation that was never created is a `ValidationError`. */
  lemma DepositNeedsReservation(t: Tables, e: Event)
    requires ParseType(e.eventType) == Some(ParcelDeposited) && WellFormed(e)
    requires Field(e, "reservation_id") !in t.reservations
    ensures Project(t, e) == Failure(ValidationError(ReservationNotFound(Field(e, "reservation_id"))))
  {
    assert "reservation_id" in RequiredStrings(ParcelDeposited);
  }

  /**
   * Picking up a parcel that is not deposited is a `DomainRuleViolation`: an expired
   * reservation has its own rule, and every other status (CREATED, or PICKED_UP on a second
   * pickup) names the status it is in.
   */
  lemma PickupNeedsDeposit(t: Tables, e: Event)
    requires ParseType(e.eventType) == Some(ParcelPickedUp) && WellFormed(e)
    requires Field(e, "reservation_id") in t.reservations
    requires !CompartmentMismatches(e.payload, t.reservations[Field(e, "reservation_id")].compartmentId)
    requires t.reservations[Field(e, "reservation_id")].status != Deposited
    ensures var status := t.reservations[Field(e, "reservation_id")].status;
      Project(t, e) == Failure(DomainRuleViolation(if status == Expired then ReservationIsExpired else NotDeposited(status)))
  {
    RequiredField(e, "reservation_id");
    assert Project(t, e) == OnParcelPickedUp(t, e);
  }

  /** The row with its pointer cleared if, and only if, it names the reservation. */
  function Released(c: CompartmentRow, rid: string): CompartmentRow {
    if c.activeReservationId == Some(rid) then c.(activeReservationId := None) else c
  }

  /** Releasing a compartment clears at most that one pointer and touches nothing else. */
  lemma ReleaseFacts(t: Tables, key: (string, string), rid: string)
    requires key in t.compartments ==> t.compartments[key].lockerId == key.0 && t.compartments[key].compartmentId == key.1
    ensures var t' := ReleaseCompartment(t, key, rid);
      && t'.reservations == t.reservations && t'.lockers == t.lockers
      && t'.compartments.Keys == t.compartments.Keys
      && (key in t.compartments ==> t'.compartments[key] == Released(t.compartments[key], rid))
      && (forall k | k in t.compartments && k != key :: t'.compartments[k] == t.compartments[k])
  {
  }

  /** The locker counter goes down by one, floored at zero; only the lockers table changes. */
  lemma ReleaseLockerFacts(t: Tables, lockerId: string)
    requires lockerId in t.lockers ==> t.lockers[lockerId].lockerId == lockerId
    ensures var t' := ReleaseLockerReservation(t, lockerId);
      && t'.reservations == t.reservations && t'.compartments == t.compartments
      && lockerId in t'.lockers
      && t'.lockers[lockerId].activeReservations == Floor0(LockerOrNew(t, lockerId).activeReservations - 1)
  {
  }

  /**
   * A pickup clears its compartment's pointer when it names the reservation, changes no
   * other compartment, and counts one active reservation fewer, never below zero.
   */
  lemma PickupReleases(t: Tables, e: Event)
    requires KeysConsistent(t)
    requires ParseType(e.eventType) == Some(ParcelPickedUp) && WellFormed(e)
    requires Project(t, e).Success?
    ensures Field(e, "reservation_id") in t.reservations
    ensures var t' := Project(t, e).value; var rid := Field(e, "reservation_id");
      var key := (e.lockerId, t.reservations[rid].compartmentId);
      && rid in t'.reservations && t'.reservations[rid].status == PickedUp
      && t'.compartments.Keys == t.compartments.Keys
      && (key in t.compartments ==> t'.compartments[key] == Released(t.compartments[key], rid))
      && (forall k | k in t.compartments && k != key :: t'.compartments[k] == t.compartments[k])
      && e.lockerId in t'.lockers
      && t'.lockers[e.lockerId].activeReservations == Floor0(LockerOrNew(t, e.lockerId).activeReservations - 1)
    ensures KeysConsistent(Project(t, e).value)
  {
    RequiredField(e, "reservation_id");
    var rid := Field(e, "reservation_id");
    assert Project(t, e) == OnParcelPickedUp(t, e);
    var r := t.reservations[rid];
    var t1 := PutReservation(t, r.(status := PickedUp));
    var key := (e.lockerId, r.compartmentId);
    var t2 := ReleaseCompartment(t1, key, rid);
    assert Project(t, e).value == ReleaseLockerReservation(t2, e.lockerId);
    ReleaseFacts(t1, key, rid);
    ReleaseLockerFacts(t2, e.lockerId);
  }

  /**
   * Expiry never raises on a well-formed event, even for a reservation that does not exist;
   * a known one is released as a pickup releases it.
   */
  lemma ExpiryTolerant(t: Tables, e: Event)
    requires KeysConsistent(t)
    requires ParseType(e.eventType) == Some(ReservationExpired) && WellFormed(e)
    ensures Project(t, e).Success?
    ensures var t' := Project(t, e).value; var rid := Field(e, "reservation_id");
      && (rid in t.reservations ==> rid in t'.reservations && t'.reservations[rid].status == Expired)
      && (rid in t.reservations ==> var key := (e.lockerId, t.reservations[rid].compartmentId);
          && t'.compartments.Keys == t.compartments.Keys
          && (key in t.compartments ==> t'.compartments[key] == Released(t.compartments[key], rid))
          && (forall k | k in t.compartments && k != key :: t'.compartments[k] == t.compartments[k]))
      && (rid !in t.reservations ==> t'.reservations == t.reservations && t'.compartments == t.compartments)
      && e.lockerId in t'.lockers
      && t'.lockers[e.lockerId].activeReservations == Floor0(LockerOrNew(t, e.lockerId).activeReservations - 1)
  {
    RequiredField(e, "reservation_id");
    var rid := Field(e, "reservation_id");
    assert Project(t, e) == OnReservationExpired(t, e);
    if rid in t.reservations {
      var r := t.reservations[rid];
      var t2 := ReleaseCompartment(PutReservation(t, r.(status := Expired)), (e.lockerId, r.compartmentId), rid);
      assert Project(t, e).value == ReleaseLockerReservation(t2, e.lockerId);
      ReleaseFacts(PutReservation(t, r.(status := Expired)), (e.lockerId, r.compartmentId), rid);
      ReleaseLockerFacts(t2, e.lockerId);
    } else {
      assert Project(t, e).value == ReleaseLockerReservation(t, e.lockerId);
      ReleaseLockerFacts(t, e.lockerId);
    }
  }

  /**
   * An expiry that arrives after the pickup of the same reservation still succeeds, turns
   * PICKED_UP into EXPIRED, and decrements the locker's counter a second time.
   */
  lemma {:induction false} ExpiryAfterPickupDecrementsAgain(t: Tables, pickup: Event, expiry: Event)
    requires Valid(t)
    requires ParseType(pickup.eventType) == Some(ParcelPickedUp) && WellFormed(pickup)
    requires ParseType(expiry.eventType) == Some(ReservationExpired) && WellFormed(expiry)
    requires expiry.lockerId == pickup.lockerId
    requires Field(expiry, "reservation_id") == Field(pickup, "reservation_id")
    requires Project(t, pickup).Success?
    ensures var t1 := Project(t, pickup).value; var rid := Field(pickup, "reservation_id");
      && Project(t1, expiry).Success?
      && rid in Project(t1, expiry).value.reservations
      && Project(t1, expiry).value.reservations[rid].status == Expired
      && pickup.lockerId in Project(t1, expiry).value.lockers
      && Project(t1, expiry).value.lockers[pickup.lockerId].activeReservations
         == Floor0(Floor0(LockerOrNew(t, pickup.lockerId).activeReservations - 1) - 1)
  {
    PickupReleases(t, pickup);
    var t1 := Project(t, pickup).value;
    ProjectKeepsValid(t, pickup);
    ExpiryTolerant(t1, expiry);
    assert LockerOrNew(t1, pickup.lockerId) == t1.lockers[pickup.lockerId];
  }
}
