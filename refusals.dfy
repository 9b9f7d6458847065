/**
 * The rejection ladder of each handler, for any tables and any well-formed event: which
 * check comes first, which rejections are a `ValidationError` (a reference to something
 * that is not there, or does not match) and which a `DomainRuleViolation` (a state that
 * forbids the move), and that an event passing every check is projected.
 */
module Refusals {
  import opened Wrappers
  import opened Events
  import opened CompartmentEntity
  import opened ReservationEntity
  import opened FaultEntity
  import opened Projection
  import opened PayloadSchema

  /** Registration checks nothing beyond its payload. */
  lemma RegisteredNeverRefuses(t: Tables, e: Event)
    requires ParseType(e.eventType) == Some(CompartmentRegistered) && WellFormed(e)
    ensures Project(t, e).Success?
  {
    RequiredField(e, "compartment_id");
  }

  /**
   * A reservation for an unregistered compartment is a `ValidationError`; a degraded
   * compartment, then one already holding a reservation, is a `DomainRuleViolation`.
   */
  lemma CreatedRefusals(t: Tables, e: Event)
    requires ParseType(e.eventType) == Some(ReservationCreated) && WellFormed(e)
    ensures var cid := Field(e, "compartment_id"); var key := (e.lockerId, cid);
      && (key !in t.compartments ==>
          Project(t, e) == Failure(ValidationError(UnregisteredCompartment(e.lockerId, cid))))
      && (key in t.compartments && t.compartments[key].degraded ==>
          Project(t, e) == Failure(DomainRuleViolation(AssignmentRefused(DegradedCompartment))))
      && (key in t.compartments && !t.compartments[key].degraded && t.compartments[key].activeReservationId.Some? ==>
          Project(t, e) == Failure(DomainRuleViolation(AssignmentRefused(AlreadyReserved))))
      && (Project(t, e).Success? <==>
          key in t.compartments && !t.compartments[key].degraded && t.compartments[key].activeReservationId == None)
  {
    RequiredField(e, "reservation_id");
    RequiredField(e, "compartment_id");
    assert Project(t, e) == OnReservationCreated(t, e);
  }

  /**
   * A deposit for an unknown reservation, or naming another compartment than the
   * reservation's, is a `ValidationError`; one for a reservation that is not CREATED is a
   * `DomainRuleViolation` naming its status.
   */
  lemma DepositRefusals(t: Tables, e: Event)
    requires ParseType(e.eventType) == Some(ParcelDeposited) && WellFormed(e)
    ensures var rid := Field(e, "reservation_id");
      && (rid !in t.reservations ==>
          Project(t, e) == Failure(ValidationError(ReservationNotFound(rid))))
      && (rid in t.reservations && CompartmentMismatches(e.payload, t.reservations[rid].compartmentId) ==>
          Project(t, e) == Failure(ValidationError(CompartmentMismatch(rid))))
      && (rid in t.reservations && !CompartmentMismatches(e.payload, t.reservations[rid].compartmentId)
          && t.reservations[rid].status != Created ==>
          Project(t, e) == Failure(DomainRuleViolation(NotCreated(t.reservations[rid].status))))
      && (Project(t, e).Success? <==>
          rid in t.reservations && !CompartmentMismatches(e.payload, t.reservations[rid].compartmentId)
          && t.reservations[rid].status == Created)
  {
    RequiredField(e, "reservation_id");
    assert Project(t, e) == OnParcelDeposited(t, e);
  }

  /**
   * A pickup for an unknown reservation, or naming another compartment, is a
   * `ValidationError`; an expired reservation, then any other that is not DEPOSITED, is a
   * `DomainRuleViolation`.
   */
  lemma PickupRefusals(t: Tables, e: Event)
    requires ParseType(e.eventType) == Some(ParcelPickedUp) && WellFormed(e)
    ensures var rid := Field(e, "reservation_id");
      && (rid !in t.reservations ==>
          Project(t, e) == Failure(ValidationError(ReservationNotFound(rid))))
      && (rid in t.reservations && CompartmentMismatches(e.payload, t.reservations[rid].compartmentId) ==>
          Project(t, e) == Failure(ValidationError(CompartmentMismatch(rid))))
      && (rid in t.reservations && !CompartmentMismatches(e.payload, t.reservations[rid].compartmentId)
          && t.reservations[rid].status == Expired ==>
          Project(t, e) == Failure(DomainRuleViolation(ReservationIsExpired)))
      && (rid in t.reservations && !CompartmentMismatches(e.payload, t.reservations[rid].compartmentId)
          && t.reservations[rid].status in {Created, PickedUp} ==>
          Project(t, e) == Failure(DomainRuleViolation(NotDeposited(t.reservations[rid].status))))
      && (Project(t, e).Success? <==>
          rid in t.reservations && !CompartmentMismatches(e.payload, t.reservations[rid].compartmentId)
          && t.reservations[rid].status == Deposited)
  {
    RequiredField(e, "reservation_id");
    assert Project(t, e) == OnParcelPickedUp(t, e);
  }

  /** Expiry checks nothing beyond its payload, whatever the reservation's state. */
  lemma ExpiredNeverRefuses(t: Tables, e: Event)
    requires ParseType(e.eventType) == Some(ReservationExpired) && WellFormed(e)
    ensures Project(t, e).Success?
  {
    RequiredField(e, "reservation_id");
  }

  /** A fault report for an unregistered compartment is a `ValidationError`, and the only refusal. */
  lemma ReportRefusals(t: Tables, e: Event)
    requires ParseType(e.eventType) == Some(FaultReported) && WellFormed(e)
    ensures var cid := Field(e, "compartment_id"); var key := (e.lockerId, cid);
      && (key !in t.compartments ==>
          Project(t, e) == Failure(ValidationError(UnregisteredCompartment(e.lockerId, cid))))
      && (Project(t, e).Success? <==> key in t.compartments)
  {
    RequiredField(e, "compartment_id");
    assert "severity" in RequiredInts(FaultReported);
    assert Project(t, e) == OnFaultReported(t, e);
  }

  /**
   * A clear for an unregistered compartment is a `ValidationError`; an unknown fault, a fault
   * of another compartment, and a fault already cleared are each a `DomainRuleViolation`,
   * checked in that order.
   */
  lemma ClearRefusals(t: Tables, e: Event)
    requires ParseType(e.eventType) == Some(FaultCleared) && WellFormed(e)
    ensures var cid := Field(e, "compartment_id"); var fid := Field(e, "fault_event_id");
      var key := (e.lockerId, cid);
      && (key !in t.compartments ==>
          Project(t, e) == Failure(ValidationError(UnregisteredCompartment(e.lockerId, cid))))
      && (key in t.compartments && fid !in t.faults ==>
          Project(t, e) == Failure(DomainRuleViolation(UnknownFault(fid))))
      && (key in t.compartments && fid in t.faults
          && (t.faults[fid].lockerId, t.faults[fid].compartmentId) != key ==>
          Project(t, e) == Failure(DomainRuleViolation(FaultOfOtherCompartment)))
      && (key in t.compartments && fid in t.faults
          && (t.faults[fid].lockerId, t.faults[fid].compartmentId) == key && t.faults[fid].cleared ==>
          Project(t, e) == Failure(DomainRuleViolation(ClearRefused(AlreadyCleared))))
      && (Project(t, e).Success? <==>
          key in t.compartments && fid in t.faults
          && (t.faults[fid].lockerId, t.faults[fid].compartmentId) == key && !t.faults[fid].cleared)
  {
    RequiredField(e, "compartment_id");
    RequiredField(e, "fault_event_id");
    assert Project(t, e) == OnFaultCleared(t, e);
  }
}
