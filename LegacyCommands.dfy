/**
 * The older application's commands that the current ones replaced
 * (capacity-planner/src-tauri/src/commands/mod.rs). They work on the same
 * database file. Creating and updating an assignment apply the same date
 * window checks as today but no requirement check; deleting a person
 * clears no optimizer cache first.
 */
module LegacyCommands {
  import opened Base
  import opened Tables
  import AssignmentCommands

  /** `delete_person` of the older application: a single DELETE with its cascades. */
  function DeletePersonSpec(t: Tables, id: int, deleteError: Option<string>): (e: Effect<()>)
    ensures deleteError.Some? ==> e == Effect(Err(deleteError.value), t)
    ensures deleteError.None? ==> e.result.Ok? && PersonById(e.tables.people, id).None?
  {
    if deleteError.Some? then Effect(Err(deleteError.value), t)
    else Effect(Ok(()), CascadeDelete(t, PersonRef(id)))
  }

  /** The older `create_assignment`. */
  method CreateAssignment(db: Database, input: AssignmentCommands.AssignmentInput)
    returns (r: Result<Assignment, string>)
    modifies db
    ensures Effect(r, db.Snapshot()) == AssignmentCommands.Insert(old(db.Snapshot()), input)
  {
    r := AssignmentCommands.InsertAssignment(db, input);
  }

  /** The older `update_assignment`. */
  method UpdateAssignment(db: Database, id: int, input: AssignmentCommands.AssignmentInput)
    returns (r: Result<Assignment, string>)
    modifies db
    ensures Effect(r, db.Snapshot()) == AssignmentCommands.Revise(old(db.Snapshot()), id, input)
  {
    r := AssignmentCommands.ReviseAssignment(db, id, input);
  }

  /** The older `delete_person` on the database. */
  method DeletePerson(db: Database, id: int, deleteError: Option<string>) returns (r: Result<(), string>)
    modifies db
    ensures Effect(r, db.Snapshot()) == DeletePersonSpec(old(db.Snapshot()), id, deleteError)
  {
    if deleteError.Some? {
      return Err(deleteError.value);
    }
    db.Store(CascadeDelete(db.Snapshot(), PersonRef(id)));
    r := Ok(());
  }

  /** Whatever the current application creates, the older one creates
      identically; the only inputs it accepts beyond those are pairs without
      a requirement, which the current one refuses. */
  lemma {:induction false} LegacyCreateSkipsRequirementCheck(t: Tables, input: AssignmentCommands.AssignmentInput)
    ensures AssignmentCommands.Create(t, input).result.Ok?
            ==> AssignmentCommands.Insert(t, input) == AssignmentCommands.Create(t, input)
    ensures AssignmentCommands.Insert(t, input).result.Ok? && AssignmentCommands.Create(t, input).result.Err?
            ==> RequirementFor(t.requirements, input.projectId, input.periodId).None?
                && AssignmentCommands.Create(t, input).result.error == AssignmentCommands.CreateNeedsRequirement
  {
    if RequirementFor(t.requirements, input.projectId, input.periodId).Some? {
      assert AssignmentCommands.Create(t, input) == AssignmentCommands.Insert(t, input);
    }
  }

  /** The same holds for update. */
  lemma {:induction false} LegacyUpdateSkipsRequirementCheck(t: Tables, id: int,
                                                            input: AssignmentCommands.AssignmentInput)
    ensures AssignmentCommands.Update(t, id, input).result.Ok?
            ==> AssignmentCommands.Revise(t, id, input) == AssignmentCommands.Update(t, id, input)
    ensures AssignmentCommands.Revise(t, id, input).result.Ok? && AssignmentCommands.Update(t, id, input).result.Err?
            ==> RequirementFor(t.requirements, input.projectId, input.periodId).None?
                && AssignmentCommands.Update(t, id, input).result.error == AssignmentCommands.UpdateNeedsRequirement
  {
    if RequirementFor(t.requirements, input.projectId, input.periodId).Some? {
      assert AssignmentCommands.Update(t, id, input) == AssignmentCommands.Revise(t, id, input);
    }
  }

  /** A successful delete leaves the same tables in both applications: the
      current one's cache invalidation only touches rows the cascade removes. */
  lemma {:induction false} DeletePersonAgreesWithCurrent(t: Tables, id: int)
    ensures DeletePersonSpec(t, id, None) == InvalidateThenDelete(t, PersonRef(id), None, None)
  {
    InvalidatedRowsAreCascaded(t.assignments, PersonRef(id));
    assert CascadeDelete(t.(assignments := InvalidateFor(t.assignments, PersonRef(id))), PersonRef(id))
        == CascadeDelete(t, PersonRef(id));
  }
}
