/**
 * The Locker aggregate: three counters and a summary hash that is a function of the
 * locker id and the counters alone.
 */
module LockerEntity {

  /** One row of the lockers table, and the value a repository `get` returns. */
  datatype LockerRow = LockerRow(
    lockerId: string,
    compartments: int,
    activeReservations: int,
    degradedCompartments: int,
    stateHash: string)

  /** `Locker(locker_id=...)`: every counter at zero and no hash yet. */
  function NewLocker(lockerId: string): LockerRow {
    LockerRow(lockerId, 0, 0, 0, "")
  }

  function DigitChar(d: nat): char
    requires d < 10
  {
    "0123456789"[d]
  }

  /** The decimal text `json.dumps` writes for a whole number. */
  function Decimal(n: int): (s: string)
    ensures |s| > 0
    decreases if n < 0 then 1 - n else n
  {
    if n < 0 then "-" + Decimal(-n)
    else if n < 10 then [DigitChar(n)]
    else Decimal(n / 10) + [DigitChar(n % 10)]
  }

  /**
   * The canonical JSON text the source hashes: keys sorted, no blanks.
   * The escaping `json.dumps` applies inside the locker id is not modelled.
   */
  function CanonicalJson(lockerId: string, compartments: int, activeReservations: int, degradedCompartments: int): string {
    "{\"active_reservations\":" + Decimal(activeReservations)
    + ",\"compartments\":" + Decimal(compartments)
    + ",\"degraded_compartments\":" + Decimal(degradedCompartments)
    + ",\"locker_id\":\"" + lockerId + "\"}"
  }

  /**
   * The state hash. SHA-256 is outside the model, so the digest is represented by the text it
   * digests; every fact proved here is an equality of hashes, which SHA-256 preserves.
   */
  function StateHash(lockerId: string, compartments: int, activeReservations: int, degradedCompartments: int): string {
    CanonicalJson(lockerId, compartments, activeReservations, degradedCompartments)
  }

  /** The stored hash is the hash of the row's own id and counters. */
  predicate HashConsistent(l: LockerRow) {
    l.stateHash == StateHash(l.lockerId, l.compartments, l.activeReservations, l.degradedCompartments)
  }

  /** `set_state_hash` on a row value: the hash becomes consistent and nothing else changes. */
  function Rehash(l: LockerRow): (r: LockerRow)
    ensures HashConsistent(r)
    ensures r.lockerId == l.lockerId && r.compartments == l.compartments
    ensures r.activeReservations == l.activeReservations && r.degradedCompartments == l.degradedCompartments
  {
    l.(stateHash := StateHash(l.lockerId, l.compartments, l.activeReservations, l.degradedCompartments))
  }

  /** The new hash does not depend on the previous one, and rehashing twice changes nothing more. */
  lemma RehashIgnoresPreviousHash(l: LockerRow, previous: string)
    ensures Rehash(l.(stateHash := previous)) == Rehash(l)
    ensures Rehash(Rehash(l)) == Rehash(l)
  {
  }

  /** The mutable entity a handler loads, updates in place and writes back. */
  class Locker {
    var lockerId: string
    var compartments: int
    var activeReservations: int
    var degradedCompartments: int
    var stateHash: string

    function Row(): LockerRow
      reads this
    {
      LockerRow(lockerId, compartments, activeReservations, degradedCompartments, stateHash)
    }

    /** `Locker(locker_id=lockerId)` with the dataclass defaults. */
    constructor (lockerId: string)
      ensures Row() == NewLocker(lockerId)
    {
      this.lockerId := lockerId;
      compartments, activeReservations, degradedCompartments := 0, 0, 0;
      stateHash := "";
    }

    /** The entity the repository's `get` builds from a stored row. */
    constructor FromRow(row: LockerRow)
      ensures Row() == row
    {
      lockerId := row.lockerId;
      compartments := row.compartments;
      activeReservations := row.activeReservations;
      degradedCompartments := row.degradedCompartments;
      stateHash := row.stateHash;
    }

    /** Stores the hash of the current id and counters and returns the same value. */
    method SetStateHash() returns (h: string)
      modifies this
      ensures h == stateHash
      ensures h == StateHash(old(lockerId), old(compartments), old(activeReservations), old(degradedCompartments))
      ensures Row() == Rehash(old(Row()))
    {
      stateHash := StateHash(lockerId, compartments, activeReservations, degradedCompartments);
      h := stateHash;
    }
  }
}
