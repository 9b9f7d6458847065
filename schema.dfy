/**
 * The payload each event type requires, stated as a table independent of the handlers, and
 * the proof that a handler raises `ValueError` exactly when an event does not fit it. Such an
 * error is raised before any table is consulted, so it does not depend on the state.
 */
module PayloadSchema {
  import opened Wrappers
  import opened Events
  import opened Projection

  /** Keys whose value must be a non-empty string. */
  function RequiredStrings(t: EventType): set<string> {
    match t
    case CompartmentRegistered => {"compartment_id"}
    case ReservationCreated => {"reservation_id", "compartment_id"}
    case ParcelDeposited => {"reservation_id"}
    case ParcelPickedUp => {"reservation_id"}
    case ReservationExpired => {"reservation_id"}
    case FaultReported => {"compartment_id"}
    case FaultCleared => {"compartment_id", "fault_event_id"}
  }

  /** Keys whose value must be an integer (a boolean does not qualify). */
  function RequiredInts(t: EventType): set<string> {
    if t == FaultReported then {"severity"} else {}
  }

  predicate NonEmptyString(payload: Payload, key: string) {
    key in payload && payload[key].Str? && payload[key].s != ""
  }

  predicate Integer(payload: Payload, key: string) {
    key in payload && payload[key].Int?
  }

  /** The string under `key`, or "" when there is none. */
  function Field(e: Event, key: string): string {
    if key in e.payload && e.payload[key].Str? then e.payload[key].s else ""
  }

  /** For a well-formed event, `_require_str` yields the field of every required key. */
  lemma RequiredField(e: Event, key: string)
    requires WellFormed(e) && key in RequiredStrings(ParseType(e.eventType).value)
    ensures RequireStr(e.payload, key) == Success(Field(e, key))
  {
  }

  predicate WellFormed(e: Event) {
    match ParseType(e.eventType)
    case None => false
    case Some(t) =>
      && (forall key | key in RequiredStrings(t) :: NonEmptyString(e.payload, key))
      && (forall key | key in RequiredInts(t) :: Integer(e.payload, key))
  }

  /** The key a `ValueError` names is one the schema requires and the payload lacks. */
  predicate NamesMissingKey(e: Event, p: PayloadProblem) {
    match p
    case NotNonEmptyString(key) =>
      ParseType(e.eventType).Some? && key in RequiredStrings(ParseType(e.eventType).value) && !NonEmptyString(e.payload, key)
    case NotAnInt(key) =>
      ParseType(e.eventType).Some? && key in RequiredInts(ParseType(e.eventType).value) && !Integer(e.payload, key)
    case UnsupportedEventType(tag) =>
      ParseType(e.eventType).None? && tag == e.eventType
  }

  /** `ValueError` is raised exactly for the events that do not fit the schema, and says why. */
  lemma {:induction false} ValueErrorExactlyWhenMalformed(t: Tables, e: Event)
    ensures (Project(t, e).Failure? && Project(t, e).error.ValueError?) <==> !WellFormed(e)
    ensures Project(t, e).Failure? && Project(t, e).error.ValueError? ==> NamesMissingKey(e, Project(t, e).error.problem)
  {
    match ParseType(e.eventType)
    case None =>
    case Some(CompartmentRegistered) =>
      assert "compartment_id" in RequiredStrings(CompartmentRegistered);
    case Some(ReservationCreated) =>
      assert {"reservation_id", "compartment_id"} == RequiredStrings(ReservationCreated);
    case Some(ParcelDeposited) =>
      assert "reservation_id" in RequiredStrings(ParcelDeposited);
    case Some(ParcelPickedUp) =>
      assert "reservation_id" in RequiredStrings(ParcelPickedUp);
    case Some(ReservationExpired) =>
      assert "reservation_id" in RequiredStrings(ReservationExpired);
    case Some(FaultReported) =>
      assert "compartment_id" in RequiredStrings(FaultReported) && "severity" in RequiredInts(FaultReported);
    case Some(FaultCleared) =>
      assert {"compartment_id", "fault_event_id"} == RequiredStrings(FaultCleared);
  }

  /** A malformed event is refused the same way whatever the tables hold. */
  lemma MalformedIgnoresState(t1: Tables, t2: Tables, e: Event)
    requires !WellFormed(e)
    ensures Project(t1, e) == Project(t2, e)
  {
    ValueErrorExactlyWhenMalformed(t1, e);
    ValueErrorExactlyWhenMalformed(t2, e);
  }
}
