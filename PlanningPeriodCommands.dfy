/**
 * Deleting a planning period and counting what would go with it
 * (src-tauri/src/commands/planning_periods.rs).
 */
module PlanningPeriodCommands {
  import opened Base
  import opened Tables

  /** The rows that refer to a planning period, as the delete dialog shows them. */
  datatype PeriodDependencies = PeriodDependencies(requirementCount: nat, assignmentCount: nat)

  /** `delete_planning_period`: clear the optimizer cache of the period's
      assignments, then delete the period; the schema's cascades remove its
      requirements, assignments and job assignments. `invalidateError` and
      `deleteError` are the failures the database may report for the two
      statements. */
  method DeletePlanningPeriod(db: Database, id: int, invalidateError: Option<string>,
                              deleteError: Option<string>) returns (r: Result<(), string>)
    modifies db
    ensures Effect(r, db.Snapshot()) == InvalidateThenDelete(old(db.Snapshot()), PeriodRef(id),
                                                            invalidateError, deleteError)
  {
    if invalidateError.Some? {
      return Err(invalidateError.value);
    }
    // UPDATE assignments SET the calculated columns = NULL WHERE planning_period_id = ?
    db.assignments := InvalidateFor(db.assignments, PeriodRef(id));
    if deleteError.Some? {
      return Err(deleteError.value);
    }
    // DELETE FROM planning_periods WHERE id = ?, with its cascades
    db.Store(CascadeDelete(db.Snapshot(), PeriodRef(id)));
    r := Ok(());
  }

  /** After a successful delete the period is gone, nothing refers to it,
      and every other row is still there, its optimizer cache intact. */
  lemma {:induction false} DeletedPeriodLeavesNoTrace(t: Tables, id: int, u: Tables)
    requires InvalidateThenDelete(t, PeriodRef(id), None, None) == Effect(Ok(()), u)
    ensures PeriodById(u.periods, id).None?
    ensures forall p :: p in u.periods <==> p in t.periods && p.id != id
    ensures forall q :: q in u.requirements <==> q in t.requirements && q.periodId != id
    ensures forall a :: a in u.assignments <==> a in t.assignments && a.periodId != id
    ensures forall j :: j in u.jobAssignments <==> j in t.jobAssignments && j.periodId != id
    ensures u.people == t.people && u.projects == t.projects && u.absences == t.absences
  {
    assert u == CascadeDelete(t, PeriodRef(id));
  }

  /** A failing invalidation changes nothing; a failing delete keeps the
      period and all its rows, with the cache of its assignments cleared. */
  lemma {:induction false} FailedDeleteKeepsPeriod(t: Tables, id: int, invalidateError: Option<string>,
                                deleteError: Option<string>)
    requires invalidateError.Some? || deleteError.Some?
    ensures var e := InvalidateThenDelete(t, PeriodRef(id), invalidateError, deleteError);
            e.result.Err? && e.tables.periods == t.periods && e.tables.requirements == t.requirements
            && |e.tables.assignments| == |t.assignments|
            && forall k :: 0 <= k < |t.assignments| ==>
                 e.tables.assignments[k] == (if t.assignments[k].periodId == id && invalidateError.None?
                                             then Cleared(t.assignments[k]) else t.assignments[k])
  {
  }

  /** `check_planning_period_dependencies`: how many requirements and
      assignments name the period. */
  function Dependencies(t: Tables, id: int): (d: PeriodDependencies)
    ensures d.requirementCount <= |t.requirements| && d.assignmentCount <= |t.assignments|
    ensures d.requirementCount == 0 <==> forall q :: q in t.requirements ==> q.periodId != id
    ensures d.assignmentCount == 0 <==> forall a :: a in t.assignments ==> a.periodId != id
  {
    PeriodDependencies(Count(t.requirements, (q: Requirement) => q.periodId == id),
                       Count(t.assignments, (a: Assignment) => a.periodId == id))
  }

  /** The counts are exactly the requirements and assignments a delete removes. */
  lemma {:induction false} DependenciesAreWhatDeleteRemoves(t: Tables, id: int)
    ensures var u := CascadeDelete(t, PeriodRef(id));
            Dependencies(t, id).requirementCount == |t.requirements| - |u.requirements|
            && Dependencies(t, id).assignmentCount == |t.assignments| - |u.assignments|
  {
    CountAndFilterSplit(t.requirements, (q: Requirement) => q.periodId == id,
                        (q: Requirement) => q.periodId != id);
    CountAndFilterSplit(t.assignments, (a: Assignment) => a.periodId == id,
                        (a: Assignment) => !Refers(a, PeriodRef(id)));
  }
}
