/**
 * Deleting a project and counting what would go with it
 * (src-tauri/src/commands/projects.rs).
 */
module ProjectCommands {
  import opened Base
  import opened Tables

  /** The rows that refer to a project, as the delete dialog shows them. */
  datatype ProjectDependencies = ProjectDependencies(requirementCount: nat, assignmentCount: nat)

  /** `delete_project`: clear the optimizer cache of the project's
      assignments, then delete the project; the schema's cascades remove its
      requirements and assignments. `invalidateError` and `deleteError` are
      the failures the database may report for the two statements. */
  method DeleteProject(db: Database, id: int, invalidateError: Option<string>,
                       deleteError: Option<string>) returns (r: Result<(), string>)
    modifies db
    ensures Effect(r, db.Snapshot()) == InvalidateThenDelete(old(db.Snapshot()), ProjectRef(id),
                                                            invalidateError, deleteError)
  {
    if invalidateError.Some? {
      return Err(invalidateError.value);
    }
    // UPDATE assignments SET the calculated columns = NULL WHERE project_id = ?
    db.assignments := InvalidateFor(db.assignments, ProjectRef(id));
    if deleteError.Some? {
      return Err(deleteError.value);
    }
    // DELETE FROM projects WHERE id = ?, with its cascades
    db.Store(CascadeDelete(db.Snapshot(), ProjectRef(id)));
    r := Ok(());
  }

  /** After a successful delete the project is gone, nothing refers to it,
      and every other row is still there, its optimizer cache intact. */
  lemma {:induction false} DeletedProjectLeavesNoTrace(t: Tables, id: int, u: Tables)
    requires InvalidateThenDelete(t, ProjectRef(id), None, None) == Effect(Ok(()), u)
    ensures ProjectById(u.projects, id).None?
    ensures forall p :: p in u.projects <==> p in t.projects && p.id != id
    ensures forall q :: q in u.requirements <==> q in t.requirements && q.projectId != id
    ensures forall a :: a in u.assignments <==> a in t.assignments && a.projectId != id
    ensures u.people == t.people && u.periods == t.periods && u.absences == t.absences
            && u.jobAssignments == t.jobAssignments
  {
    assert u == CascadeDelete(t, ProjectRef(id));
  }

  /** A failing invalidation changes nothing; a failing delete keeps the
      project and all its rows, with the cache of its assignments cleared. */
  lemma {:induction false} FailedDeleteKeepsProject(t: Tables, id: int, invalidateError: Option<string>,
                                 deleteError: Option<string>)
    requires invalidateError.Some? || deleteError.Some?
    ensures var e := InvalidateThenDelete(t, ProjectRef(id), invalidateError, deleteError);
            e.result.Err? && e.tables.projects == t.projects && e.tables.requirements == t.requirements
            && |e.tables.assignments| == |t.assignments|
            && forall k :: 0 <= k < |t.assignments| ==>
                 e.tables.assignments[k] == (if t.assignments[k].projectId == id && invalidateError.None?
                                             then Cleared(t.assignments[k]) else t.assignments[k])
  {
  }

  /** `check_project_dependencies`: how many requirements and assignments name the project. */
  function Dependencies(t: Tables, id: int): (d: ProjectDependencies)
    ensures d.requirementCount <= |t.requirements| && d.assignmentCount <= |t.assignments|
    ensures d.requirementCount == 0 <==> forall q :: q in t.requirements ==> q.projectId != id
    ensures d.assignmentCount == 0 <==> forall a :: a in t.assignments ==> a.projectId != id
  {
    ProjectDependencies(Count(t.requirements, (q: Requirement) => q.projectId == id),
                        Count(t.assignments, (a: Assignment) => a.projectId == id))
  }

  /** The counts are exactly the requirements and assignments a delete removes. */
  lemma {:induction false} DependenciesAreWhatDeleteRemoves(t: Tables, id: int)
    ensures var u := CascadeDelete(t, ProjectRef(id));
            Dependencies(t, id).requirementCount == |t.requirements| - |u.requirements|
            && Dependencies(t, id).assignmentCount == |t.assignments| - |u.assignments|
  {
    CountAndFilterSplit(t.requirements, (q: Requirement) => q.projectId == id,
                        (q: Requirement) => q.projectId != id);
    CountAndFilterSplit(t.assignments, (a: Assignment) => a.projectId == id,
                        (a: Assignment) => !Refers(a, ProjectRef(id)));
  }
}
