/**
 * Invariants of the read model that every successful projection keeps: rows are stored
 * under their own keys, every stored locker carries the hash of its fields, counters never
 * go negative, faults belong to registered compartments, and reservation pointers resolve.
 */
module Invariants {
  import opened Wrappers
  import opened Events
  import opened LockerEntity
  import opened CompartmentEntity
  import opened ReservationEntity
  import opened FaultEntity
  import opened EventLog
  import opened Projection

  /** Each table holds every row under the key its own fields give. */
  predicate KeysConsistent(t: Tables) {
    && (forall id | id in t.lockers :: t.lockers[id].lockerId == id)
    && (forall k | k in t.compartments :: t.compartments[k].lockerId == k.0 && t.compartments[k].compartmentId == k.1)
    && (forall id | id in t.reservations :: t.reservations[id].reservationId == id)
    && (forall id | id in t.faults :: t.faults[id].eventId == id)
  }

  /** The stored hash of every locker is the hash of its stored fields. */
  predicate LockersHashed(t: Tables) {
    forall id | id in t.lockers :: HashConsistent(t.lockers[id])
  }

  predicate CountersNonNegative(t: Tables) {
    forall id | id in t.lockers ::
      t.lockers[id].compartments >= 0 && t.lockers[id].activeReservations >= 0 && t.lockers[id].degradedCompartments >= 0
  }

  /** A fault is stored only for a compartment that is registered. */
  predicate FaultsOnRegistered(t: Tables) {
    forall id | id in t.faults :: (t.faults[id].lockerId, t.faults[id].compartmentId) in t.compartments
  }

  /** A compartment's active reservation is a stored reservation. */
  predicate PointersResolve(t: Tables) {
    forall k | k in t.compartments && t.compartments[k].activeReservationId.Some? ::
      t.compartments[k].activeReservationId.value in t.reservations
  }

  predicate Valid(t: Tables) {
    KeysConsistent(t) && LockersHashed(t) && CountersNonNegative(t) && FaultsOnRegistered(t) && PointersResolve(t)
  }

  lemma EmptyTablesValid()
    ensures Valid(EmptyTables)
  {
  }

  lemma PutLockerKeys(t: Tables, l: LockerRow)
    requires KeysConsistent(t)
    ensures KeysConsistent(PutLocker(t, l))
  {
    assert PutLocker(t, l).lockers == t.lockers[l.lockerId := Rehash(l)];
  }

  lemma PutLockerHashed(t: Tables, l: LockerRow)
    requires LockersHashed(t)
    ensures LockersHashed(PutLocker(t, l))
  {
    assert PutLocker(t, l).lockers == t.lockers[l.lockerId := Rehash(l)];
  }

  lemma PutLockerCounters(t: Tables, l: LockerRow)
    requires CountersNonNegative(t)
    requires l.compartments >= 0 && l.activeReservations >= 0 && l.degradedCompartments >= 0
    ensures CountersNonNegative(PutLocker(t, l))
  {
    assert PutLocker(t, l).lockers == t.lockers[l.lockerId := Rehash(l)];
  }

  /** A locker row with non-negative counters, written through the hashing upsert. */
  lemma PutLockerValid(t: Tables, l: LockerRow)
    requires Valid(t)
    requires l.compartments >= 0 && l.activeReservations >= 0 && l.degradedCompartments >= 0
    ensures Valid(PutLocker(t, l))
  {
    PutLockerKeys(t, l);
    PutLockerHashed(t, l);
    PutLockerCounters(t, l);
    var t' := PutLocker(t, l);
    assert t'.compartments == t.compartments && t'.reservations == t.reservations && t'.faults == t.faults;
    assert FaultsOnRegistered(t') && PointersResolve(t');
  }

  /** A compartment row whose pointer, if any, resolves. */
  lemma PutCompartmentValid(t: Tables, c: CompartmentRow)
    requires Valid(t)
    requires c.activeReservationId.Some? ==> c.activeReservationId.value in t.reservations
    ensures Valid(PutCompartment(t, c))
  {
  }

  lemma PutReservationValid(t: Tables, r: ReservationRow)
    requires Valid(t)
    ensures Valid(PutReservation(t, r))
  {
  }

  /** A fault row of a registered compartment. */
  lemma PutFaultValid(t: Tables, f: FaultRow)
    requires Valid(t) && (f.lockerId, f.compartmentId) in t.compartments
    ensures Valid(PutFault(t, f))
  {
  }

  lemma LockerOrNewNonNegative(t: Tables, lockerId: string)
    requires Valid(t)
    ensures var l := LockerOrNew(t, lockerId);
      l.lockerId == lockerId && l.compartments >= 0 && l.activeReservations >= 0 && l.degradedCompartments >= 0
  {
  }

  lemma RegisteredKeepsValid(t: Tables, e: Event)
    requires Valid(t) && OnCompartmentRegistered(t, e).Success?
    ensures Valid(OnCompartmentRegistered(t, e).value)
  {
    var cid := RequireStr(e.payload, "compartment_id").value;
    var l := LockerOrNew(t, e.lockerId);
    LockerOrNewNonNegative(t, e.lockerId);
    var l1 := l.(compartments := l.compartments + 1);
    PutLockerValid(t, l1);
    PutCompartmentValid(PutLocker(t, l1), NewCompartment(e.lockerId, cid));
    assert OnCompartmentRegistered(t, e).value == PutCompartment(PutLocker(t, l1), NewCompartment(e.lockerId, cid));
  }

  lemma CreatedKeepsValid(t: Tables, e: Event)
    requires Valid(t) && OnReservationCreated(t, e).Success?
    ensures Valid(OnReservationCreated(t, e).value)
  {
    var rid := RequireStr(e.payload, "reservation_id").value;
    var cid := RequireStr(e.payload, "compartment_id").value;
    var l := LockerOrNew(t, e.lockerId);
    LockerOrNewNonNegative(t, e.lockerId);
    var l1 := l.(activeReservations := l.activeReservations + 1);
    PutLockerValid(t, l1);
    var t2 := PutReservation(PutLocker(t, l1), ReservationRow(e.lockerId, rid, cid, Created));
    PutReservationValid(PutLocker(t, l1), ReservationRow(e.lockerId, rid, cid, Created));
    var reserved := TryAssign(t.compartments[(e.lockerId, cid)], rid).value;
    PutCompartmentValid(t2, reserved);
    assert OnReservationCreated(t, e).value == PutCompartment(t2, reserved);
  }

  lemma DepositedKeepsValid(t: Tables, e: Event)
    requires Valid(t) && OnParcelDeposited(t, e).Success?
    ensures Valid(OnParcelDeposited(t, e).value)
  {
  }

  lemma ReleaseKeepsValid(t: Tables, key: (string, string), rid: string, lockerId: string)
    requires Valid(t)
    ensures Valid(ReleaseCompartment(t, key, rid))
    ensures Valid(ReleaseLockerReservation(ReleaseCompartment(t, key, rid), lockerId))
  {
    var t2 := ReleaseCompartment(t, key, rid);
    if key in t.compartments && t.compartments[key].activeReservationId == Some(rid) {
      PutCompartmentValid(t, t.compartments[key].(activeReservationId := None));
      assert t2 == PutCompartment(t, t.compartments[key].(activeReservationId := None));
    } else {
      assert t2 == t;
    }
    LockerOrNewNonNegative(t2, lockerId);
    var l := LockerOrNew(t2, lockerId);
    PutLockerValid(t2, l.(activeReservations := Floor0(l.activeReservations - 1)));
    assert ReleaseLockerReservation(t2, lockerId) == PutLocker(t2, l.(activeReservations := Floor0(l.activeReservations - 1)));
  }

  lemma PickedUpKeepsValid(t: Tables, e: Event)
    requires Valid(t) && OnParcelPickedUp(t, e).Success?
    ensures Valid(OnParcelPickedUp(t, e).value)
  {
    var rid := RequireStr(e.payload, "reservation_id").value;
    var r := t.reservations[rid];
    var t1 := PutReservation(t, r.(status := PickedUp));
    PutReservationValid(t, r.(status := PickedUp));
    ReleaseKeepsValid(t1, (e.lockerId, r.compartmentId), rid, e.lockerId);
    assert OnParcelPickedUp(t, e).value == ReleaseLockerReservation(ReleaseCompartment(t1, (e.lockerId, r.compartmentId), rid), e.lockerId);
  }

  lemma ExpiredKeepsValid(t: Tables, e: Event)
    requires Valid(t) && OnReservationExpired(t, e).Success?
    ensures Valid(OnReservationExpired(t, e).value)
  {
    var rid := RequireStr(e.payload, "reservation_id").value;
    if rid in t.reservations {
      var r := t.reservations[rid];
      ReleaseKeepsValid(PutReservation(t, r.(status := Expired)), (e.lockerId, r.compartmentId), rid, e.lockerId);
    } else {
      LockerOrNewNonNegative(t, e.lockerId);
      var l := LockerOrNew(t, e.lockerId);
      PutLockerValid(t, l.(activeReservations := Floor0(l.activeReservations - 1)));
    }
  }

  /** Writing a fault of a registered compartment and then its refreshed flags. */
  lemma FaultWriteKeepsValid(t: Tables, f: FaultRow, key: (string, string))
    requires Valid(t) && key in t.compartments && key == (f.lockerId, f.compartmentId)
    ensures Valid(PutCompartment(PutFault(t, f), RefreshFlags(PutFault(t, f), t.compartments[key], key.0, key.1)))
  {
    PutFaultValid(t, f);
    PutCompartmentValid(PutFault(t, f), RefreshFlags(PutFault(t, f), t.compartments[key], key.0, key.1));
  }

  lemma ReportedKeepsValid(t: Tables, e: Event)
    requires Valid(t) && OnFaultReported(t, e).Success?
    ensures Valid(OnFaultReported(t, e).value)
  {
    var cid := RequireStr(e.payload, "compartment_id").value;
    var sev := RequireInt(e.payload, "severity").value;
    var f := NewFault(e.eventId, e.lockerId, cid, sev);
    var key := (e.lockerId, cid);
    FaultWriteKeepsValid(t, f, key);
    var c := t.compartments[key];
    var refreshed := RefreshFlags(PutFault(t, f), c, key.0, key.1);
    var t2 := PutCompartment(PutFault(t, f), refreshed);
    if !c.degraded && refreshed.degraded {
      LockerOrNewNonNegative(t2, e.lockerId);
      var l := LockerOrNew(t2, e.lockerId);
      PutLockerValid(t2, l.(degradedCompartments := l.degradedCompartments + 1));
      assert OnFaultReported(t, e).value == PutLocker(t2, l.(degradedCompartments := l.degradedCompartments + 1));
    } else {
      assert OnFaultReported(t, e).value == t2;
    }
  }

  lemma ClearedKeepsValid(t: Tables, e: Event)
    requires Valid(t) && OnFaultCleared(t, e).Success?
    ensures Valid(OnFaultCleared(t, e).value)
  {
    var cid := RequireStr(e.payload, "compartment_id").value;
    var fid := RequireStr(e.payload, "fault_event_id").value;
    var f := TryClear(t.faults[fid], e.eventId).value;
    var key := (e.lockerId, cid);
    FaultWriteKeepsValid(t, f, key);
    var c := t.compartments[key];
    var refreshed := RefreshFlags(PutFault(t, f), c, key.0, key.1);
    var t2 := PutCompartment(PutFault(t, f), refreshed);
    if c.degraded && !refreshed.degraded {
      LockerOrNewNonNegative(t2, e.lockerId);
      var l := LockerOrNew(t2, e.lockerId);
      PutLockerValid(t2, l.(degradedCompartments := Floor0(l.degradedCompartments - 1)));
      assert OnFaultCleared(t, e).value == PutLocker(t2, l.(degradedCompartments := Floor0(l.degradedCompartments - 1)));
    } else {
      assert OnFaultCleared(t, e).value == t2;
    }
  }

  /** Every successful projection keeps the read model valid. */
  lemma ProjectKeepsValid(t: Tables, e: Event)
    requires Valid(t)
    requires Project(t, e).Success?
    ensures Valid(Project(t, e).value)
  {
    match ParseType(e.eventType)
    case Some(CompartmentRegistered) => RegisteredKeepsValid(t, e);
    case Some(ReservationCreated) => CreatedKeepsValid(t, e);
    case Some(ParcelDeposited) => DepositedKeepsValid(t, e);
    case Some(ParcelPickedUp) => PickedUpKeepsValid(t, e);
    case Some(ReservationExpired) => ExpiredKeepsValid(t, e);
    case Some(FaultReported) => ReportedKeepsValid(t, e);
    case Some(FaultCleared) => ClearedKeepsValid(t, e);
  }
}
