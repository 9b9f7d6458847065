/**
 * Concrete runs of the projector on locker L1 and its compartment C1: the reservation and
 * fault walkthroughs the system is documented with, and what re-registering C1 does.
 */
module Scenarios {
  import opened Wrappers
  import opened Events
  import opened LockerEntity
  import opened CompartmentEntity
  import opened ReservationEntity
  import opened FaultEntity
  import opened FaultRepo
  import opened Projection

  const Key := ("L1", "C1")

  const Registered := Event("e1", "L1", TypeName(CompartmentRegistered), map["compartment_id" := Str("C1")])
  const MildFault := Event("e2", "L1", TypeName(FaultReported), map["compartment_id" := Str("C1"), "severity" := Int(1)])
  const Reserved := Event("e3", "L1", TypeName(ReservationCreated), map["reservation_id" := Str("R1"), "compartment_id" := Str("C1")])
  const SevereFault := Event("e4", "L1", TypeName(FaultReported), map["compartment_id" := Str("C1"), "severity" := Int(3)])

  /** Register C1, report a mild fault, reserve C1, then report a severe fault. */
  const FaultLog := [Registered, MildFault, Reserved, SevereFault]

  /** C1 is stored under its key with its own ids. */
  predicate HasC1(t: Tables) {
    Key in t.compartments && t.compartments[Key].lockerId == "L1" && t.compartments[Key].compartmentId == "C1"
  }

  /** Registering C1 stores it fresh, whatever the fault table holds, and L1 counts one more compartment. */
  lemma RegisterStep(t: Tables, e: Event)
    requires e.lockerId == "L1" && e.eventType == TypeName(CompartmentRegistered)
    requires e.payload == map["compartment_id" := Str("C1")]
    requires "L1" in t.lockers ==> t.lockers["L1"].lockerId == "L1"
    ensures Project(t, e).Success?
    ensures Project(t, e).value.compartments == t.compartments[Key := NewCompartment("L1", "C1")]
    ensures Project(t, e).value.faults == t.faults && Project(t, e).value.reservations == t.reservations
    ensures var l := LockerOrNew(t, "L1"); Project(t, e).value.lockers == t.lockers["L1" := Rehash(l.(compartments := l.compartments + 1))]
  {
    ParseTypeName(CompartmentRegistered);
    assert RequireStr(e.payload, "compartment_id") == Success("C1");
  }

  /** Registering C1 where L1 is unknown and no fault is stored: one healthy compartment. */
  lemma RegisterFresh(t: Tables)
    requires "L1" !in t.lockers && t.faults == map[]
    ensures Project(t, Registered).Success?
    ensures Degradation(Project(t, Registered).value, 0, false)
    ensures Project(t, Registered).value.lockers["L1"].compartments == 1
    ensures Project(t, Registered).value.faults == map[]
  {
    RegisterStep(t, Registered);
  }

  /** A fault report on a registered C1 stores the fault and recomputes C1's flags. */
  lemma FaultStep(t: Tables, e: Event, severity: int)
    requires e.lockerId == "L1" && e.eventType == TypeName(FaultReported)
    requires e.payload == map["compartment_id" := Str("C1"), "severity" := Int(severity)]
    requires HasC1(t)
    ensures Project(t, e).Success?
    ensures Project(t, e).value.faults == t.faults[e.eventId := NewFault(e.eventId, "L1", "C1", severity)]
    ensures Project(t, e).value.compartments ==
      t.compartments[Key := RefreshFlags(PutFault(t, NewFault(e.eventId, "L1", "C1", severity)), t.compartments[Key], "L1", "C1")]
  {
    ParseTypeName(FaultReported);
    assert "severity"[0] != "compartment_id"[0];
    assert RequireStr(e.payload, "compartment_id") == Success("C1");
    assert RequireInt(e.payload, "severity") == Success(severity);
  }

  lemma ReserveStep(t: Tables)
    requires HasC1(t) && !t.compartments[Key].degraded && t.compartments[Key].activeReservationId == None
    ensures Project(t, Reserved).Success?
    ensures HasC1(Project(t, Reserved).value) && Project(t, Reserved).value.faults == t.faults
  {
    ParseTypeName(ReservationCreated);
    assert "reservation_id"[0] != "compartment_id"[0];
    assert RequireStr(Reserved.payload, "reservation_id") == Success("R1");
    assert RequireStr(Reserved.payload, "compartment_id") == Success("C1");
  }

  lemma ReserveRefused(t: Tables)
    requires HasC1(t) && t.compartments[Key].degraded
    ensures Project(t, Reserved) == Failure(DomainRuleViolation(AssignmentRefused(DegradedCompartment)))
  {
    ParseTypeName(ReservationCreated);
    assert "reservation_id"[0] != "compartment_id"[0];
    assert RequireStr(Reserved.payload, "reservation_id") == Success("R1");
    assert RequireStr(Reserved.payload, "compartment_id") == Success("C1");
  }

  const Deposited1 := Event("e5", "L1", TypeName(ParcelDeposited), map["reservation_id" := Str("R1")])
  const PickedUp1 := Event("e6", "L1", TypeName(ParcelPickedUp), map["reservation_id" := Str("R1")])

  /** The fields of L1 and C1 and reservation R1 the walkthrough observes. */
  predicate Observed(t: Tables, compartments: int, active: int, pointer: Option<string>, status: ReservationStatus) {
    && HasC1(t) && "L1" in t.lockers && "R1" in t.reservations
    && t.lockers["L1"].lockerId == "L1"
    && t.lockers["L1"].compartments == compartments && t.lockers["L1"].activeReservations == active
    && t.compartments[Key].activeReservationId == pointer && !t.compartments[Key].degraded
    && t.reservations["R1"] == ReservationRow("L1", "R1", "C1", status)
  }

  lemma DepositStep(t: Tables)
    requires Observed(t, 1, 1, Some("R1"), Created)
    ensures Project(t, Deposited1).Success? && Observed(Project(t, Deposited1).value, 1, 1, Some("R1"), Deposited)
  {
    ParseTypeName(ParcelDeposited);
    assert RequireStr(Deposited1.payload, "reservation_id") == Success("R1");
  }

  lemma PickupStep(t: Tables)
    requires Observed(t, 1, 1, Some("R1"), Deposited)
    ensures Project(t, PickedUp1).Success? && Observed(Project(t, PickedUp1).value, 1, 0, None, PickedUp)
  {
    ParseTypeName(ParcelPickedUp);
    assert RequireStr(PickedUp1.payload, "reservation_id") == Success("R1");
  }

  /**
   * Register C1: one compartment. Reserve R1 on it: one active reservation and C1 points at
   * R1. Deposit: R1 is DEPOSITED. Pick up: R1 is PICKED_UP, no active reservation, no pointer.
   */
  lemma ReservationWalkthrough()
    ensures var r1 := Project(EmptyTables, Registered);
      r1.Success? && "L1" in r1.value.lockers && r1.value.lockers["L1"].compartments == 1 &&
      Key in r1.value.compartments && r1.value.compartments[Key] == NewCompartment("L1", "C1") &&
      (var r2 := Project(r1.value, Reserved);
       r2.Success? && Observed(r2.value, 1, 1, Some("R1"), Created) &&
       (var r3 := Project(r2.value, Deposited1);
        r3.Success? && Observed(r3.value, 1, 1, Some("R1"), Deposited) &&
        (var r4 := Project(r3.value, PickedUp1);
         r4.Success? && Observed(r4.value, 1, 0, None, PickedUp))))
  {
    RegisterFresh(EmptyTables);
    var t1 := Project(EmptyTables, Registered).value;
    ReserveStep(t1);
    ParseTypeName(ReservationCreated);
    assert "reservation_id"[0] != "compartment_id"[0];
    assert RequireStr(Reserved.payload, "reservation_id") == Success("R1");
    var t2 := Project(t1, Reserved).value;
    assert Observed(t2, 1, 1, Some("R1"), Created);
    DepositStep(t2);
    PickupStep(Project(t2, Deposited1).value);
  }

  const ReportF1 := Event("F1", "L1", TypeName(FaultReported), map["compartment_id" := Str("C1"), "severity" := Int(3)])
  const ClearF1 := Event("e7", "L1", TypeName(FaultCleared), map["compartment_id" := Str("C1"), "fault_event_id" := Str("F1")])
  const ClearF1Again := Event("e8", "L1", TypeName(FaultCleared), map["compartment_id" := Str("C1"), "fault_event_id" := Str("F1")])

  /** L1 counts `degraded` degraded compartments and C1's flag is `flag`. */
  predicate Degradation(t: Tables, degraded: int, flag: bool) {
    && HasC1(t) && "L1" in t.lockers && t.lockers["L1"].lockerId == "L1"
    && t.lockers["L1"].degradedCompartments == degraded && t.compartments[Key].degraded == flag
  }

  lemma ReportF1Step(t: Tables)
    requires Degradation(t, 0, false) && t.faults == map[]
    ensures Project(t, ReportF1).Success?
    ensures Degradation(Project(t, ReportF1).value, 1, true)
    ensures Project(t, ReportF1).value.lockers["L1"].compartments == t.lockers["L1"].compartments
    ensures Project(t, ReportF1).value.faults == map["F1" := NewFault("F1", "L1", "C1", 3)]
  {
    FaultStep(t, ReportF1, 3);
    var rows := map["F1" := NewFault("F1", "L1", "C1", 3)];
    assert "F1" in rows && ActiveFor(rows["F1"], "L1", "C1");
    assert SomeSevere(rows, "L1", "C1");
  }

  /** Clearing F1 on C1 while F1 is its only fault, with the locker counting `before`. */
  lemma ClearF1Step(t: Tables, e: Event, before: int, flag: bool)
    requires e.lockerId == "L1" && e.eventType == TypeName(FaultCleared)
    requires e.payload == map["compartment_id" := Str("C1"), "fault_event_id" := Str("F1")]
    requires Degradation(t, before, flag) && t.faults == map["F1" := NewFault("F1", "L1", "C1", 3)]
    ensures Project(t, e).Success?
    ensures Degradation(Project(t, e).value, if flag then Floor0(before - 1) else before, false)
    ensures Project(t, e).value.faults == map["F1" := NewFault("F1", "L1", "C1", 3).(cleared := true, clearedByEventId := Some(e.eventId))]
  {
    ParseTypeName(FaultCleared);
    assert Project(t, e) == OnFaultCleared(t, e);
    assert "fault_event_id"[0] != "compartment_id"[0];
    assert RequireStr(e.payload, "compartment_id") == Success("C1");
    assert RequireStr(e.payload, "fault_event_id") == Success("F1");
    var cleared := NewFault("F1", "L1", "C1", 3).(cleared := true, clearedByEventId := Some(e.eventId));
    assert TryClear(t.faults["F1"], e.eventId) == Success(cleared);
    var t1 := PutFault(t, cleared);
    assert ActiveIds(t1.faults, "L1", "C1") == {};
    var c := t.compartments[Key];
    var refreshed := c.(faulty := false, degraded := false);
    assert RefreshFlags(t1, c, "L1", "C1") == refreshed;
    var t2 := PutCompartment(t1, refreshed);
    if flag {
      var l := t2.lockers["L1"];
      assert OnFaultCleared(t, e) == Success(PutLocker(t2, l.(degradedCompartments := Floor0(l.degradedCompartments - 1))));
    } else {
      assert OnFaultCleared(t, e) == Success(t2);
    }
  }

  lemma ClearF1AgainRefused(t: Tables)
    requires HasC1(t) && "F1" in t.faults && t.faults["F1"].cleared
    requires t.faults["F1"].lockerId == "L1" && t.faults["F1"].compartmentId == "C1"
    ensures Project(t, ClearF1Again) == Failure(DomainRuleViolation(ClearRefused(AlreadyCleared)))
  {
    ParseTypeName(FaultCleared);
    assert "fault_event_id"[0] != "compartment_id"[0];
    assert RequireStr(ClearF1Again.payload, "compartment_id") == Success("C1");
    assert RequireStr(ClearF1Again.payload, "fault_event_id") == Success("F1");
  }

  /**
   * A severe fault F1 on C1 degrades it and L1 counts one degraded compartment; clearing F1
   * undegrades C1 and the count returns to zero; clearing F1 again is refused. This holds
   * from the empty tables and from any tables without locker L1 and without faults.
   */
  lemma FaultWalkthrough(t0: Tables)
    requires "L1" !in t0.lockers && t0.faults == map[]
    ensures var r1 := Project(t0, Registered);
      r1.Success? && Degradation(r1.value, 0, false) &&
      (var r2 := Project(r1.value, ReportF1);
       r2.Success? && Degradation(r2.value, 1, true) &&
       (var r3 := Project(r2.value, ClearF1);
        r3.Success? && Degradation(r3.value, 0, false) &&
        Project(r3.value, ClearF1Again) == Failure(DomainRuleViolation(ClearRefused(AlreadyCleared)))))
  {
    RegisterFresh(t0);
    var t1 := Project(t0, Registered).value;
    ReportF1Step(t1);
    var t2 := Project(t1, ReportF1).value;
    ClearF1Step(t2, ClearF1, 1, true);
    ClearF1AgainRefused(Project(t2, ClearF1).value);
  }

  const RegisteredAgain := Event("e9", "L1", TypeName(CompartmentRegistered), map["compartment_id" := Str("C1")])

  /**
   * Registering C1 again while F1 is active resets its flags, so C1 reads as healthy though
   * the fault table still holds a severe fault for it, and L1 still counts one degraded
   * compartment; clearing F1 then finds C1 not degraded and leaves that count at one.
   */
  lemma ReregistrationResetsFlags(t0: Tables)
    requires "L1" !in t0.lockers && t0.faults == map[]
    ensures var r1 := Project(t0, Registered);
      r1.Success? &&
      (var r2 := Project(r1.value, ReportF1);
       r2.Success? && Degradation(r2.value, 1, true) &&
       (var r3 := Project(r2.value, RegisteredAgain);
        r3.Success? && Degradation(r3.value, 1, false) &&
        ActiveSummary(r3.value.faults, "L1", "C1") == Summary(1, true) &&
        r3.value.lockers["L1"].compartments == 2 &&
        Project(r3.value, ClearF1).Success? &&
        Degradation(Project(r3.value, ClearF1).value, 1, false)))
  {
    RegisterFresh(t0);
    var t1 := Project(t0, Registered).value;
    ReportF1Step(t1);
    var t2 := Project(t1, ReportF1).value;
    RegisterStep(t2, RegisteredAgain);
    var t3 := Project(t2, RegisteredAgain).value;
    var rows := map["F1" := NewFault("F1", "L1", "C1", 3)];
    assert t3.faults == rows;
    assert ActiveIds(rows, "L1", "C1") == {"F1"};
    assert "F1" in rows && ActiveFor(rows["F1"], "L1", "C1");
    ClearF1Step(t3, ClearF1, 1, false);
  }

  const MildAfterReregistration := Event("F2", "L1", TypeName(FaultReported), map["compartment_id" := Str("C1"), "severity" := Int(1)])

  /** A severity-1 report on C1 while the severe F1 is still active for it. */
  lemma MildFaultOverSevereStep(t: Tables)
    requires Degradation(t, 1, false) && t.faults == map["F1" := NewFault("F1", "L1", "C1", 3)]
    ensures Project(t, MildAfterReregistration).Success?
    ensures Degradation(Project(t, MildAfterReregistration).value, 2, true)
  {
    FaultStep(t, MildAfterReregistration, 1);
    var rows := t.faults["F2" := NewFault("F2", "L1", "C1", 1)];
    assert "F1" in rows && ActiveFor(rows["F1"], "L1", "C1");
    assert SomeSevere(rows, "L1", "C1");
  }

  /**
   * After C1 is registered again while F1 is active, a fault below the severity threshold
   * sets C1 degraded and L1 counts a second degraded compartment, though L1 still has the
   * one compartment C1 counted twice: the recomputation from every active fault picks up F1.
   */
  lemma MildFaultDegradesAfterReregistration(t0: Tables)
    requires "L1" !in t0.lockers && t0.faults == map[]
    ensures var r1 := Project(t0, Registered);
      r1.Success? &&
      (var r2 := Project(r1.value, ReportF1);
       r2.Success? &&
       (var r3 := Project(r2.value, RegisteredAgain);
        r3.Success? && Degradation(r3.value, 1, false) &&
        (var r4 := Project(r3.value, MildAfterReregistration);
         r4.Success? && Degradation(r4.value, 2, true))))
  {
    RegisterFresh(t0);
    var t1 := Project(t0, Registered).value;
    ReportF1Step(t1);
    var t2 := Project(t1, ReportF1).value;
    RegisterStep(t2, RegisteredAgain);
    var t3 := Project(t2, RegisteredAgain).value;
    MildFaultOverSevereStep(t3);
  }
}
