/**
 * The compartment flags as functions of the active faults. The projector recomputes them
 * after each fault write, so they stay derived from the fault table; a severity below the
 * threshold never degrades a compartment, one at the threshold always does, and the locker's
 * degraded counter moves only on a change of the flag.
 */
module FaultFacts {
  import opened Wrappers
  import opened Events
  import opened LockerEntity
  import opened CompartmentEntity
  import opened ReservationEntity
  import opened FaultEntity
  import opened FaultRepo
  import opened Projection
  import opened Invariants
  import opened PayloadSchema
  import opened EventLog
  import opened EngineFacts

  /** Every compartment's flags are those its active faults give. */
  predicate FlagsDerived(t: Tables) {
    forall k | k in t.compartments :: RefreshFlags(t, t.compartments[k], k.0, k.1) == t.compartments[k]
  }

  /** A CompartmentRegistered for a compartment that is already registered. */
  predicate Reregisters(t: Tables, e: Event) {
    ParseType(e.eventType) == Some(CompartmentRegistered) && (e.lockerId, Field(e, "compartment_id")) in t.compartments
  }

  /** Writing a row that is not active for a compartment, over one that was not either, leaves its summary alone. */
  lemma SummaryUnaffected(rows: map<string, FaultRow>, id: string, f: FaultRow, lockerId: string, compartmentId: string)
    requires !ActiveFor(f, lockerId, compartmentId)
    requires id in rows ==> !ActiveFor(rows[id], lockerId, compartmentId)
    ensures ActiveSummary(rows[id := f], lockerId, compartmentId) == ActiveSummary(rows, lockerId, compartmentId)
  {
    assert ActiveIds(rows[id := f], lockerId, compartmentId) == ActiveIds(rows, lockerId, compartmentId);
    assert SomeSevere(rows[id := f], lockerId, compartmentId) == SomeSevere(rows, lockerId, compartmentId) by {
      if SomeSevere(rows, lockerId, compartmentId) {
        var w :| w in rows && ActiveFor(rows[w], lockerId, compartmentId) && rows[w].severity >= SeverityThreshold;
        assert w != id;
        assert w in rows[id := f] && rows[id := f][w] == rows[w];
      }
      if SomeSevere(rows[id := f], lockerId, compartmentId) {
        var w :| w in rows[id := f] && ActiveFor(rows[id := f][w], lockerId, compartmentId) && rows[id := f][w].severity >= SeverityThreshold;
        assert w != id && w in rows;
      }
    }
  }

  /** Rewriting one fault row changes only the flags of the compartment that fault belongs to. */
  lemma FaultWriteKeepsOthers(t: Tables, f: FaultRow, key: (string, string))
    requires FlagsDerived(t) && key == (f.lockerId, f.compartmentId)
    requires f.eventId in t.faults ==> (t.faults[f.eventId].lockerId, t.faults[f.eventId].compartmentId) == key
    ensures forall k | k in t.compartments && k != key ::
      RefreshFlags(PutFault(t, f), t.compartments[k], k.0, k.1) == t.compartments[k]
  {
    forall k | k in t.compartments && k != key
      ensures RefreshFlags(PutFault(t, f), t.compartments[k], k.0, k.1) == t.compartments[k]
    {
      SummaryUnaffected(t.faults, f.eventId, f, k.0, k.1);
    }
  }

  /** Storing a compartment row whose flags are those the faults give keeps every flag derived. */
  lemma PutDerivedCompartment(t: Tables, c: CompartmentRow)
    requires FlagsDerived(t.(compartments := t.compartments - {(c.lockerId, c.compartmentId)}))
    requires RefreshFlags(t, c, c.lockerId, c.compartmentId) == c
    ensures FlagsDerived(PutCompartment(t, c))
  {
    var key := (c.lockerId, c.compartmentId);
    forall k | k in PutCompartment(t, c).compartments
      ensures RefreshFlags(t, PutCompartment(t, c).compartments[k], k.0, k.1) == PutCompartment(t, c).compartments[k]
    {
      if k != key {
        assert k in t.compartments - {key};
      }
    }
  }

  /** Same faults, and compartments that only changed their reservation pointer. */
  predicate OnlyPointersChanged(t: Tables, t': Tables) {
    && t'.faults == t.faults
    && forall k | k in t'.compartments ::
         k in t.compartments && t'.compartments[k].faulty == t.compartments[k].faulty
         && t'.compartments[k].degraded == t.compartments[k].degraded
  }

  lemma PointerChangeKeepsFlags(t: Tables, t': Tables)
    requires FlagsDerived(t) && OnlyPointersChanged(t, t')
    ensures FlagsDerived(t')
  {
    forall k | k in t'.compartments
      ensures RefreshFlags(t', t'.compartments[k], k.0, k.1) == t'.compartments[k]
    {
      assert RefreshFlags(t, t.compartments[k], k.0, k.1) == t.compartments[k];
    }
  }

  lemma ReleaseOnlyPointers(t: Tables, key: (string, string), rid: string, lockerId: string)
    requires KeysConsistent(t)
    ensures OnlyPointersChanged(t, ReleaseLockerReservation(ReleaseCompartment(t, key, rid), lockerId))
  {
  }

  lemma RegisteredKeepsFlags(t: Tables, e: Event)
    requires Valid(t) && FlagsDerived(t) && (e.lockerId, Field(e, "compartment_id")) !in t.compartments
    requires OnCompartmentRegistered(t, e).Success?
    ensures FlagsDerived(OnCompartmentRegistered(t, e).value)
  {
    var t' := OnCompartmentRegistered(t, e).value;
    var cid := RequireStr(e.payload, "compartment_id").value;
    assert cid == Field(e, "compartment_id");
    assert ActiveIds(t.faults, e.lockerId, cid) == {} by {
      forall id | id in t.faults
        ensures !ActiveFor(t.faults[id], e.lockerId, cid)
      {
        assert (t.faults[id].lockerId, t.faults[id].compartmentId) in t.compartments;
      }
    }
    forall k | k in t'.compartments
      ensures RefreshFlags(t', t'.compartments[k], k.0, k.1) == t'.compartments[k]
    {
      if k != (e.lockerId, cid) {
        assert k in t.compartments;
      }
    }
  }

  lemma CreatedKeepsFlags(t: Tables, e: Event)
    requires KeysConsistent(t) && FlagsDerived(t) && OnReservationCreated(t, e).Success?
    ensures FlagsDerived(OnReservationCreated(t, e).value)
  {
    PointerChangeKeepsFlags(t, OnReservationCreated(t, e).value);
  }

  lemma DepositedKeepsFlags(t: Tables, e: Event)
    requires FlagsDerived(t) && OnParcelDeposited(t, e).Success?
    ensures FlagsDerived(OnParcelDeposited(t, e).value)
  {
    PointerChangeKeepsFlags(t, OnParcelDeposited(t, e).value);
  }

  lemma PickedUpKeepsFlags(t: Tables, e: Event)
    requires KeysConsistent(t) && FlagsDerived(t) && OnParcelPickedUp(t, e).Success?
    ensures FlagsDerived(OnParcelPickedUp(t, e).value)
  {
    var rid := RequireStr(e.payload, "reservation_id").value;
    var r := t.reservations[rid];
    var t1 := PutReservation(t, r.(status := PickedUp));
    ReleaseOnlyPointers(t1, (e.lockerId, r.compartmentId), rid, e.lockerId);
    assert OnParcelPickedUp(t, e).value == ReleaseLockerReservation(ReleaseCompartment(t1, (e.lockerId, r.compartmentId), rid), e.lockerId);
    PointerChangeKeepsFlags(t, OnParcelPickedUp(t, e).value);
  }

  lemma ExpiredKeepsFlags(t: Tables, e: Event)
    requires KeysConsistent(t) && FlagsDerived(t) && OnReservationExpired(t, e).Success?
    ensures FlagsDerived(OnReservationExpired(t, e).value)
  {
    var rid := RequireStr(e.payload, "reservation_id").value;
    if rid in t.reservations {
      var r := t.reservations[rid];
      var t1 := PutReservation(t, r.(status := Expired));
      ReleaseOnlyPointers(t1, (e.lockerId, r.compartmentId), rid, e.lockerId);
      assert OnReservationExpired(t, e).value == ReleaseLockerReservation(ReleaseCompartment(t1, (e.lockerId, r.compartmentId), rid), e.lockerId);
    } else {
      assert OnReservationExpired(t, e).value == ReleaseLockerReservation(t, e.lockerId);
    }
    PointerChangeKeepsFlags(t, OnReservationExpired(t, e).value);
  }

  /** Writing a fault of compartment `key`, refreshing that compartment, and maybe its locker. */
  lemma FaultHandlerKeepsFlags(t: Tables, f: FaultRow, key: (string, string), t': Tables)
    requires KeysConsistent(t) && FlagsDerived(t) && key in t.compartments && key == (f.lockerId, f.compartmentId)
    requires f.eventId in t.faults ==> (t.faults[f.eventId].lockerId, t.faults[f.eventId].compartmentId) == key
    requires var t1 := PutFault(t, f); var t2 := PutCompartment(t1, RefreshFlags(t1, t.compartments[key], key.0, key.1));
      t'.faults == t2.faults && t'.compartments == t2.compartments
    ensures FlagsDerived(t')
  {
    FaultWriteKeepsOthers(t, f, key);
    var t1 := PutFault(t, f);
    PutDerivedCompartment(t1, RefreshFlags(t1, t.compartments[key], key.0, key.1));
    var t2 := PutCompartment(t1, RefreshFlags(t1, t.compartments[key], key.0, key.1));
    assert FlagsDerived(t2);
    forall k | k in t'.compartments
      ensures RefreshFlags(t', t'.compartments[k], k.0, k.1) == t'.compartments[k]
    {
      assert RefreshFlags(t2, t2.compartments[k], k.0, k.1) == t2.compartments[k];
    }
  }

  lemma ReportedKeepsFlags(t: Tables, e: Event)
    requires Valid(t) && FlagsDerived(t) && e.eventId !in t.faults
    requires OnFaultReported(t, e).Success?
    ensures FlagsDerived(OnFaultReported(t, e).value)
  {
    var cid := RequireStr(e.payload, "compartment_id").value;
    var f := NewFault(e.eventId, e.lockerId, cid, RequireInt(e.payload, "severity").value);
    FaultHandlerKeepsFlags(t, f, (e.lockerId, cid), OnFaultReported(t, e).value);
  }

  lemma ClearedKeepsFlags(t: Tables, e: Event)
    requires Valid(t) && FlagsDerived(t)
    requires OnFaultCleared(t, e).Success?
    ensures FlagsDerived(OnFaultCleared(t, e).value)
  {
    var cid := RequireStr(e.payload, "compartment_id").value;
    var fid := RequireStr(e.payload, "fault_event_id").value;
    var f := TryClear(t.faults[fid], e.eventId).value;
    FaultHandlerKeepsFlags(t, f, (e.lockerId, cid), OnFaultCleared(t, e).value);
  }

  /**
   * The flags stay derived across every successful projection, provided the event does not
   * re-register a compartment (which resets its flags) and its id is not already a fault's.
   */
  lemma ProjectKeepsFlagsDerived(t: Tables, e: Event)
    requires Valid(t) && FlagsDerived(t)
    requires !Reregisters(t, e) && e.eventId !in t.faults
    requires Project(t, e).Success?
    ensures FlagsDerived(Project(t, e).value)
  {
    match ParseType(e.eventType)
    case Some(CompartmentRegistered) => RegisteredKeepsFlags(t, e);
    case Some(FaultReported) => ReportedKeepsFlags(t, e);
    case Some(FaultCleared) => ClearedKeepsFlags(t, e);
    case Some(ReservationCreated) => CreatedKeepsFlags(t, e);
    case Some(ParcelDeposited) => DepositedKeepsFlags(t, e);
    case Some(ParcelPickedUp) => PickedUpKeepsFlags(t, e);
    case Some(ReservationExpired) => ExpiredKeepsFlags(t, e);
  }

  /** The compartment an event for `compartment_id` concerns. */
  function KeyOf(e: Event): (string, string) {
    (e.lockerId, Field(e, "compartment_id"))
  }

  /** A report below the threshold adds no severe fault under a new id. */
  lemma MildFaultKeepsSeverity(rows: map<string, FaultRow>, f: FaultRow, lockerId: string, compartmentId: string)
    requires f.eventId !in rows && f.severity < SeverityThreshold
    ensures SomeSevere(rows[f.eventId := f], lockerId, compartmentId) == SomeSevere(rows, lockerId, compartmentId)
  {
    if SomeSevere(rows, lockerId, compartmentId) {
      var w :| w in rows && ActiveFor(rows[w], lockerId, compartmentId) && rows[w].severity >= SeverityThreshold;
      assert rows[f.eventId := f][w] == rows[w];
    }
  }

  /**
   * A report below the threshold never sets the degraded flag nor touches a locker; with the
   * flags derived before, the flag keeps its value.
   */
  lemma MildFaultNeverDegrades(t: Tables, e: Event)
    requires KeysConsistent(t) && FlagsDerived(t) && e.eventId !in t.faults
    requires ParseType(e.eventType) == Some(FaultReported) && Project(t, e).Success?
    requires RequireInt(e.payload, "severity").value < SeverityThreshold
    ensures Project(t, e).value.compartments[KeyOf(e)].degraded == t.compartments[KeyOf(e)].degraded
    ensures Project(t, e).value.lockers == t.lockers
  {
    var cid := RequireStr(e.payload, "compartment_id").value;
    assert cid == Field(e, "compartment_id");
    var f := NewFault(e.eventId, e.lockerId, cid, RequireInt(e.payload, "severity").value);
    MildFaultKeepsSeverity(t.faults, f, e.lockerId, cid);
    assert RefreshFlags(t, t.compartments[KeyOf(e)], e.lockerId, cid) == t.compartments[KeyOf(e)];
  }

  /**
   * A report at or above the threshold always leaves its compartment faulty and degraded, and
   * counts one more degraded compartment on the locker exactly when it was not degraded before.
   */
  lemma SevereFaultDegrades(t: Tables, e: Event)
    requires KeysConsistent(t)
    requires ParseType(e.eventType) == Some(FaultReported) && Project(t, e).Success?
    requires RequireInt(e.payload, "severity").value >= SeverityThreshold
    ensures var t' := Project(t, e).value;
      && t'.compartments[KeyOf(e)].degraded && t'.compartments[KeyOf(e)].faulty
      && LockerOrNew(t', e.lockerId).degradedCompartments
         == LockerOrNew(t, e.lockerId).degradedCompartments + (if t.compartments[KeyOf(e)].degraded then 0 else 1)
  {
    var cid := RequireStr(e.payload, "compartment_id").value;
    assert cid == Field(e, "compartment_id");
    var t1 := PutFault(t, NewFault(e.eventId, e.lockerId, cid, RequireInt(e.payload, "severity").value));
    assert e.eventId in ActiveIds(t1.faults, e.lockerId, cid);
    assert SomeSevere(t1.faults, e.lockerId, cid);
  }

  /**
   * After a clear, the compartment is degraded exactly when another active fault of it still
   * reaches the threshold: clearing one of two severe faults leaves it degraded.
   */
  lemma ClearedDegradedIff(t: Tables, e: Event)
    requires KeysConsistent(t)
    requires ParseType(e.eventType) == Some(FaultCleared) && Project(t, e).Success?
    ensures Project(t, e).value.compartments[KeyOf(e)].degraded <==>
      exists id | id in t.faults && id != Field(e, "fault_event_id") ::
        ActiveFor(t.faults[id], e.lockerId, Field(e, "compartment_id")) && t.faults[id].severity >= SeverityThreshold
  {
    var cid := RequireStr(e.payload, "compartment_id").value;
    var fid := RequireStr(e.payload, "fault_event_id").value;
    assert cid == Field(e, "compartment_id") && fid == Field(e, "fault_event_id");
    var f := TryClear(t.faults[fid], e.eventId).value;
    var rows := t.faults[fid := f];
    assert PutFault(t, f).faults == rows;
    if SomeSevere(rows, e.lockerId, cid) {
      var w :| w in rows && ActiveFor(rows[w], e.lockerId, cid) && rows[w].severity >= SeverityThreshold;
      assert w != fid && t.faults[w] == rows[w];
    }
    if exists id | id in t.faults && id != fid :: ActiveFor(t.faults[id], e.lockerId, cid) && t.faults[id].severity >= SeverityThreshold {
      var w :| w in t.faults && w != fid && ActiveFor(t.faults[w], e.lockerId, cid) && t.faults[w].severity >= SeverityThreshold;
      assert rows[w] == t.faults[w];
    }
  }

  /** A clear decrements the locker's degraded counter only when the compartment was degraded just before. */
  lemma ClearDecrementsOnlyIfDegraded(t: Tables, e: Event)
    requires KeysConsistent(t)
    requires ParseType(e.eventType) == Some(FaultCleared) && Project(t, e).Success?
    ensures var t' := Project(t, e).value;
      && (t'.lockers != t.lockers ==> t.compartments[KeyOf(e)].degraded && !t'.compartments[KeyOf(e)].degraded)
      && LockerOrNew(t', e.lockerId).degradedCompartments ==
         if t.compartments[KeyOf(e)].degraded && !t'.compartments[KeyOf(e)].degraded
         then Floor0(LockerOrNew(t, e.lockerId).degradedCompartments - 1)
         else LockerOrNew(t, e.lockerId).degradedCompartments
  {
    var cid := RequireStr(e.payload, "compartment_id").value;
    assert cid == Field(e, "compartment_id");
  }

  /**
   * Across `execute` the flags stay derived unless the event re-registers a compartment: a
   * new event's id is never a stored fault's, since fault ids are ids of logged events.
   */
  lemma ExecuteKeepsFlagsDerived(sys: Engine, e: Event)
    requires EngineValid(sys) && FlagsDerived(sys.tables) && !Reregisters(sys.tables, e)
    ensures FlagsDerived(Execute(sys, e).engine.tables)
  {
    if !Logged(sys.log, e.eventId) && Project(sys.tables, e).Success? {
      assert e.eventId !in sys.tables.faults;
      ProjectKeepsFlagsDerived(sys.tables, e);
    }
  }
}
