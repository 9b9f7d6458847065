/**
 * The domain event as the projector receives it: an identifier, the locker it concerns,
 * a type tag and an open payload map. The occurrence timestamp is not part of the model:
 * no handler reads it.
 */
module Events {
  import opened Wrappers

  /** The seven event types of the locker domain. */
  datatype EventType =
    | CompartmentRegistered
    | ReservationCreated
    | ParcelDeposited
    | ParcelPickedUp
    | ReservationExpired
    | FaultReported
    | FaultCleared

  /** The string value of each member of the `str` enumeration. */
  function TypeName(t: EventType): string {
    match t
    case CompartmentRegistered => "CompartmentRegistered"
    case ReservationCreated => "ReservationCreated"
    case ParcelDeposited => "ParcelDeposited"
    case ParcelPickedUp => "ParcelPickedUp"
    case ReservationExpired => "ReservationExpired"
    case FaultReported => "FaultReported"
    case FaultCleared => "FaultCleared"
  }

  /** The handler-table lookup: a tag names a handler exactly when it is one of the seven names. */
  function ParseType(tag: string): (r: Option<EventType>)
    ensures r.Some? ==> TypeName(r.value) == tag
  {
    if tag == "CompartmentRegistered" then Some(CompartmentRegistered)
    else if tag == "ReservationCreated" then Some(ReservationCreated)
    else if tag == "ParcelDeposited" then Some(ParcelDeposited)
    else if tag == "ParcelPickedUp" then Some(ParcelPickedUp)
    else if tag == "ReservationExpired" then Some(ReservationExpired)
    else if tag == "FaultReported" then Some(FaultReported)
    else if tag == "FaultCleared" then Some(FaultCleared)
    else None
  }

  /** Every type's name is recognised as that type, so the seven names are pairwise distinct. */
  lemma ParseTypeName(t: EventType)
    ensures ParseType(TypeName(t)) == Some(t)
  {
    match t
    case CompartmentRegistered =>
    case ReservationCreated =>
      assert TypeName(t)[0] != "CompartmentRegistered"[0];
    case ParcelDeposited =>
      assert TypeName(t)[0] != "CompartmentRegistered"[0] && TypeName(t)[0] != "ReservationCreated"[0];
    case ParcelPickedUp =>
      assert TypeName(t)[0] != "CompartmentRegistered"[0] && TypeName(t)[0] != "ReservationCreated"[0];
      assert TypeName(t)[6] != "ParcelDeposited"[6];
    case ReservationExpired =>
      assert TypeName(t)[0] != "CompartmentRegistered"[0] && TypeName(t)[0] != "ParcelDeposited"[0];
      assert TypeName(t)[11] != "ReservationCreated"[11];
    case FaultReported =>
      assert TypeName(t)[0] != "CompartmentRegistered"[0] && TypeName(t)[0] != "ReservationCreated"[0];
      assert TypeName(t)[0] != "ParcelDeposited"[0];
    case FaultCleared =>
      assert TypeName(t)[0] != "CompartmentRegistered"[0] && TypeName(t)[0] != "ReservationCreated"[0];
      assert TypeName(t)[0] != "ParcelDeposited"[0] && TypeName(t)[5] != "FaultReported"[5];
  }

  /** The kinds of JSON value a payload entry can hold. */
  datatype Value =
    | Str(s: string)
    | Int(i: int)
    | Bool(b: bool)
    | Null
    | Other   // a float, list or object: never accepted where a string or an int is required

  type Payload = map<string, Value>

  /** `Event`; `eventType` is the tag as the handler table sees it. */
  datatype Event = Event(eventId: string, lockerId: string, eventType: string, payload: Payload)
}
