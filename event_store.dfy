/**
 * The append-only event log. Records are kept in append order; an id already present is
 * never admitted again, whatever the rest of the record holds.
 */
module EventLog {
  import opened Events

  /** `_exists`, as a property of the log: some record has this id. */
  predicate Logged(log: seq<Event>, eventId: string) {
    exists i | 0 <= i < |log| :: log[i].eventId == eventId
  }

  /** No two records share an id. */
  predicate UniqueIds(log: seq<Event>) {
    forall i, j | 0 <= i < j < |log| :: log[i].eventId != log[j].eventId
  }

  /** `load_by_locker`: the records of one locker, in log order. */
  function ByLocker(log: seq<Event>, lockerId: string): (r: seq<Event>)
    ensures |r| <= |log|
    ensures forall i | 0 <= i < |r| :: r[i].lockerId == lockerId
  {
    if log == [] then []
    else (if log[0].lockerId == lockerId then [log[0]] else []) + ByLocker(log[1..], lockerId)
  }

  /** Filtering commutes with concatenation: the filter keeps the log's order. */
  lemma {:induction false} ByLockerAppend(a: seq<Event>, b: seq<Event>, lockerId: string)
    ensures ByLocker(a + b, lockerId) == ByLocker(a, lockerId) + ByLocker(b, lockerId)
  {
    if a == [] {
      assert a + b == b;
    } else {
      var head := if a[0].lockerId == lockerId then [a[0]] else [];
      assert (a + b)[0] == a[0] && (a + b)[1..] == a[1..] + b;
      assert ByLocker(a + b, lockerId) == head + ByLocker(a[1..] + b, lockerId);
      ByLockerAppend(a[1..], b, lockerId);
      assert ByLocker(a, lockerId) == head + ByLocker(a[1..], lockerId);
    }
  }

  /** The filter keeps exactly the records of that locker. */
  lemma {:induction false} ByLockerMembers(log: seq<Event>, lockerId: string, e: Event)
    ensures e in ByLocker(log, lockerId) <==> e in log && e.lockerId == lockerId
  {
    if log != [] {
      ByLockerMembers(log[1..], lockerId, e);
      assert log == [log[0]] + log[1..];
    }
  }

  class EventStore {
    var records: seq<Event>

    /** A store over a log file that already holds `existing`. */
    constructor (existing: seq<Event>)
      ensures records == existing
    {
      records := existing;
    }

    /** Scans the records in order for the id. */
    method Exists(eventId: string) returns (found: bool)
      ensures found == Logged(records, eventId)
    {
      var i := 0;
      while i < |records|
        invariant 0 <= i <= |records|
        invariant forall j | 0 <= j < i :: records[j].eventId != eventId
      {
        if records[i].eventId == eventId {
          return true;
        }
        i := i + 1;
      }
      return false;
    }

    /** Writes the record at the end unless its id is already present. */
    method Append(e: Event) returns (added: bool)
      modifies this
      ensures added == !Logged(old(records), e.eventId)
      ensures records == if added then old(records) + [e] else old(records)
      ensures Logged(records, e.eventId) && old(records) <= records
      ensures UniqueIds(old(records)) ==> UniqueIds(records)
    {
      var present := Exists(e.eventId);
      if present {
        return false;
      }
      records := records + [e];
      assert records[|records| - 1] == e;
      added := true;
    }

    /** Streams every record in append order. */
    method LoadAll() returns (out: seq<Event>)
      ensures out == records
    {
      out := [];
      for i := 0 to |records|
        invariant out == records[..i]
      {
        out := out + [records[i]];
      }
      assert records[..|records|] == records;
    }

    function LoadByLocker(lockerId: string): seq<Event>
      reads this
    {
      ByLocker(records, lockerId)
    }
  }
}
