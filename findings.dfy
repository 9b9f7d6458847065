/**
 * A concrete log on which the service's rebuild departs from what it evidently intends: the
 * SQL resetter leaves the fault table in place, so a rebuild replays the log against faults
 * that have not happened yet at that point of the log.
 */
module Findings {
  import opened Wrappers
  import opened Events
  import opened CompartmentEntity
  import opened FaultEntity
  import opened FaultRepo
  import opened Projection
  import opened ReplayFacts
  import opened Scenarios

  /** The tables incremental ingestion of `FaultLog` reaches, step by step. */
  lemma IncrementalSteps()
    ensures Project(EmptyTables, Registered).Success?
    ensures var t1 := Project(EmptyTables, Registered).value;
      && Project(t1, MildFault).Success?
      && Project(Project(t1, MildFault).value, Reserved).Success?
      && Project(Project(Project(t1, MildFault).value, Reserved).value, SevereFault).Success?
      && Project(Project(Project(t1, MildFault).value, Reserved).value, SevereFault).value.faults
         == map["e2" := NewFault("e2", "L1", "C1", 1), "e4" := NewFault("e4", "L1", "C1", 3)]
  {
    RegisterStep(EmptyTables, Registered);
    var t1 := Project(EmptyTables, Registered).value;
    FaultStep(t1, MildFault, 1);
    var t2 := Project(t1, MildFault).value;
    var rows := map["e2" := NewFault("e2", "L1", "C1", 1)];
    assert t2.faults == rows;
    assert !SomeSevere(rows, "L1", "C1");
    ReserveStep(t2);
    var t3 := Project(t2, Reserved).value;
    FaultStep(t3, SevereFault, 3);
  }

  /** Over the faults the SQL resetter keeps, the mild report already degrades C1. */
  lemma StaleFaultsSteps(s: Tables)
    requires s.compartments == map[] && s.lockers == map[]
    requires s.faults == map["e2" := NewFault("e2", "L1", "C1", 1), "e4" := NewFault("e4", "L1", "C1", 3)]
    ensures Project(s, Registered).Success?
    ensures Project(Project(s, Registered).value, MildFault).Success?
    ensures Project(Project(Project(s, Registered).value, MildFault).value, Reserved)
      == Failure(DomainRuleViolation(AssignmentRefused(DegradedCompartment)))
  {
    RegisterStep(s, Registered);
    var s1 := Project(s, Registered).value;
    FaultStep(s1, MildFault, 1);
    var s2 := Project(s1, MildFault).value;
    assert s2.faults == s.faults;
    assert "e4" in s2.faults && ActiveFor(s2.faults["e4"], "L1", "C1") && s2.faults["e4"].severity >= SeverityThreshold;
    assert SomeSevere(s2.faults, "L1", "C1");
    ReserveRefused(s2);
  }

  /**
   * Projected one by one, the four events all succeed, and a rebuild that empties every
   * table reproduces that run. The SQL resetter keeps both faults, so on its rebuild the mild
   * report already degrades C1, the reservation is refused, and the rebuild raises where
   * incremental ingestion did not.
   */
  lemma SqlResetRebuildRaises()
    ensures Replay(EmptyTables, FaultLog).error == None
    ensures var incremental := Replay(EmptyTables, FaultLog).tables;
      && Rebuild(FullResetter, incremental, FaultLog) == Success(4)
      && Rebuild(SqlProjectionResetter, incremental, FaultLog)
         == Failure(DomainRuleViolation(AssignmentRefused(DegradedCompartment)))
  {
    IncrementalSteps();
    ReplayStep(EmptyTables, FaultLog, 0);
    ReplayStep(EmptyTables, FaultLog, 1);
    ReplayStep(EmptyTables, FaultLog, 2);
    ReplayStep(EmptyTables, FaultLog, 3);
    assert FaultLog[..4] == FaultLog;
    var incremental := Replay(EmptyTables, FaultLog).tables;
    assert Reset(FullResetter, incremental) == EmptyTables;
    var s := Reset(SqlProjectionResetter, incremental);
    StaleFaultsSteps(s);
    ReplayStep(s, FaultLog, 0);
    ReplayStep(s, FaultLog, 1);
    ReplayStep(s, FaultLog, 2);
    ReplayStopsAtError(s, FaultLog, 3);
  }
}
