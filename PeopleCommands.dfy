/**
 * Deleting a person and counting what would go with them
 * (src-tauri/src/commands/people.rs).
 */
module PeopleCommands {
  import opened Base
  import opened Tables

  /** The rows that refer to a person, as the delete dialog shows them. */
  datatype PersonDependencies = PersonDependencies(assignmentCount: nat, absenceCount: nat)

  /** `delete_person`: clear the optimizer cache of the person's assignments,
      then delete the person; the schema's cascades remove their assignments,
      absences and job assignments. `invalidateError` and `deleteError` are
      the failures the database may report for the two statements. */
  method DeletePerson(db: Database, id: int, invalidateError: Option<string>,
                      deleteError: Option<string>) returns (r: Result<(), string>)
    modifies db
    ensures Effect(r, db.Snapshot()) == InvalidateThenDelete(old(db.Snapshot()), PersonRef(id),
                                                            invalidateError, deleteError)
  {
    if invalidateError.Some? {
      return Err(invalidateError.value);
    }
    // UPDATE assignments SET the calculated columns = NULL WHERE person_id = ?
    db.assignments := InvalidateFor(db.assignments, PersonRef(id));
    if deleteError.Some? {
      return Err(deleteError.value);
    }
    // DELETE FROM people WHERE id = ?, with its cascades
    db.Store(CascadeDelete(db.Snapshot(), PersonRef(id)));
    r := Ok(());
  }

  /** After a successful delete the person is gone, nothing refers to them,
      and every other row is still there, its optimizer cache intact. */
  lemma {:induction false} DeletedPersonLeavesNoTrace(t: Tables, id: int, u: Tables)
    requires InvalidateThenDelete(t, PersonRef(id), None, None) == Effect(Ok(()), u)
    ensures PersonById(u.people, id).None?
    ensures forall p :: p in u.people <==> p in t.people && p.id != id
    ensures forall a :: a in u.assignments <==> a in t.assignments && a.personId != id
    ensures forall a :: a in u.absences <==> a in t.absences && a.personId != id
    ensures forall j :: j in u.jobAssignments <==> j in t.jobAssignments && j.personId != id
    ensures u.projects == t.projects && u.periods == t.periods && u.requirements == t.requirements
  {
    assert u == CascadeDelete(t, PersonRef(id));
  }

  /** A failing invalidation changes nothing; a failing delete keeps the
      person and all their rows, with the cache of their assignments cleared. */
  lemma {:induction false} FailedDeleteKeepsPerson(t: Tables, id: int, invalidateError: Option<string>,
                                deleteError: Option<string>)
    requires invalidateError.Some? || deleteError.Some?
    ensures var e := InvalidateThenDelete(t, PersonRef(id), invalidateError, deleteError);
            e.result.Err? && e.tables.people == t.people && e.tables.absences == t.absences
            && |e.tables.assignments| == |t.assignments|
            && forall k :: 0 <= k < |t.assignments| ==>
                 e.tables.assignments[k] == (if t.assignments[k].personId == id && invalidateError.None?
                                             then Cleared(t.assignments[k]) else t.assignments[k])
  {
  }

  /** `check_person_dependencies`: how many assignments and absences name the person. */
  function Dependencies(t: Tables, id: int): (d: PersonDependencies)
    ensures d.assignmentCount <= |t.assignments| && d.absenceCount <= |t.absences|
    ensures d.assignmentCount == 0 <==> forall a :: a in t.assignments ==> a.personId != id
    ensures d.absenceCount == 0 <==> forall a :: a in t.absences ==> a.personId != id
  {
    PersonDependencies(Count(t.assignments, (a: Assignment) => a.personId == id),
                       Count(t.absences, (a: Absence) => a.personId == id))
  }

  /** The counts are exactly the assignments and absences a delete removes. */
  lemma {:induction false} DependenciesAreWhatDeleteRemoves(t: Tables, id: int)
    ensures var u := CascadeDelete(t, PersonRef(id));
            Dependencies(t, id).assignmentCount == |t.assignments| - |u.assignments|
            && Dependencies(t, id).absenceCount == |t.absences| - |u.absences|
  {
    CountAndFilterSplit(t.assignments, (a: Assignment) => a.personId == id,
                        (a: Assignment) => !Refers(a, PersonRef(id)));
    CountAndFilterSplit(t.absences, (a: Absence) => a.personId == id, (a: Absence) => a.personId != id);
  }
}
