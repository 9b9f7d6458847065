/**
 * The fault table: faults keyed by the id of the reporting event, and the aggregate the
 * projector derives the compartment flags from.
 */
module FaultRepo {
  import opened Wrappers
  import opened FaultEntity

  /** A fault of this severity or more degrades its compartment. */
  const SeverityThreshold := 3

  /** The filter of the summary query: same locker, same compartment, not cleared. */
  predicate ActiveFor(f: FaultRow, lockerId: string, compartmentId: string) {
    f.lockerId == lockerId && f.compartmentId == compartmentId && !f.cleared
  }

  /** The ids of the rows the summary query counts. */
  function ActiveIds(rows: map<string, FaultRow>, lockerId: string, compartmentId: string): set<string> {
    set id | id in rows && ActiveFor(rows[id], lockerId, compartmentId)
  }

  /** Some counted fault reaches the threshold. */
  predicate SomeSevere(rows: map<string, FaultRow>, lockerId: string, compartmentId: string) {
    exists id | id in rows :: ActiveFor(rows[id], lockerId, compartmentId) && rows[id].severity >= SeverityThreshold
  }

  /** The two values `active_summary` returns. */
  datatype Summary = Summary(activeCount: nat, anyGeThreshold: bool)

  /**
   * `active_summary`: how many faults of one compartment are still active, and whether the
   * largest of their severities reaches the threshold, which holds exactly when one of them
   * does (and never when there is none).
   */
  function ActiveSummary(rows: map<string, FaultRow>, lockerId: string, compartmentId: string): (s: Summary)
    ensures s.activeCount == |ActiveIds(rows, lockerId, compartmentId)|
    ensures s.activeCount > 0 <==> ActiveIds(rows, lockerId, compartmentId) != {}
    ensures s.anyGeThreshold <==> SomeSevere(rows, lockerId, compartmentId)
    ensures s.anyGeThreshold ==> s.activeCount > 0
    ensures ActiveIds(rows, lockerId, compartmentId) == {} ==> s == Summary(0, false)
  {
    var active := ActiveIds(rows, lockerId, compartmentId);
    var anySevere := exists id | id in active :: rows[id].severity >= SeverityThreshold;
    assert anySevere ==> active != {};
    Summary(|active|, anySevere)
  }

  class FaultRepository {
    var rows: map<string, FaultRow>

    constructor (rows: map<string, FaultRow>)
      ensures this.rows == rows
    {
      this.rows := rows;
    }

    /** None exactly when no fault is stored under that id. */
    function Get(faultEventId: string): (r: Option<FaultRow>)
      reads this
      ensures r == None <==> faultEventId !in rows
      ensures r.Some? ==> r.value == rows[faultEventId]
    {
      if faultEventId in rows then Some(rows[faultEventId]) else None
    }

    /** Overwrites every field of the row keyed by the fault's event id. */
    method Upsert(fault: FaultRow)
      modifies this
      ensures rows == old(rows)[fault.eventId := fault]
    {
      rows := rows[fault.eventId := fault];
    }

    function Summary(lockerId: string, compartmentId: string): Summary
      reads this
    {
      ActiveSummary(rows, lockerId, compartmentId)
    }
  }
}
