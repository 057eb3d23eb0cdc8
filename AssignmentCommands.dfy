/**
 * Creating, updating and deleting assignments (src-tauri/src/commands/assignments.rs).
 * Both create and update refuse a (project, period) pair without a
 * requirement, then resolve the date window against the planning period:
 * omitted dates default to the period's bounds, and the window must lie
 * inside the period with its start not after its end.
 */
module AssignmentCommands {
  import opened Base
  import opened Tables

  /** CreateAssignmentInput: the editable columns of an assignment. */
  datatype AssignmentInput = AssignmentInput(personId: int, projectId: int, periodId: int,
                                             productivityFactor: real,
                                             startDate: Option<int>, endDate: Option<int>)

  const CreateNeedsRequirement: string :=
    "Cannot create assignment: Project requirement must be defined for this planning period first. Please set the required hours in the Project Requirements tab."
  const UpdateNeedsRequirement: string :=
    "Cannot update assignment: Project requirement must be defined for this planning period first. Please set the required hours in the Project Requirements tab."
  const PeriodNotFound: string := "Planning period not found: " + RowNotFound
  const StartOutsidePeriod: string := "Start date must be within planning period"
  const EndOutsidePeriod: string := "End date must be within planning period"
  const StartAfterEnd: string := "Start date must be before end date"

  // ---------------------------------------------------------------------
  // The date window
  // ---------------------------------------------------------------------

  /** The window an assignment gets in `period`: each omitted date takes the
      period's bound, then the start, the end and their order are checked,
      in that order. */
  function AssignmentDates(period: PlanningPeriod, start: Option<int>, end: Option<int>)
    : (r: Result<(int, int), string>)
    ensures r.Ok? <==> period.startDate <= start.GetOr(period.startDate) <= end.GetOr(period.endDate)
                                        <= period.endDate
    ensures r.Ok? ==> r.value == (start.GetOr(period.startDate), end.GetOr(period.endDate))
    ensures r == Err(StartOutsidePeriod)
            <==> !(period.startDate <= start.GetOr(period.startDate) <= period.endDate)
    ensures r == Err(EndOutsidePeriod)
            <==> period.startDate <= start.GetOr(period.startDate) <= period.endDate
                 && !(period.startDate <= end.GetOr(period.endDate) <= period.endDate)
    ensures r == Err(StartAfterEnd)
            <==> period.startDate <= start.GetOr(period.startDate) <= period.endDate
                 && period.startDate <= end.GetOr(period.endDate) <= period.endDate
                 && start.GetOr(period.startDate) > end.GetOr(period.endDate)
  {
    var s := start.GetOr(period.startDate);
    var e := end.GetOr(period.endDate);
    if s < period.startDate || s > period.endDate then Err(StartOutsidePeriod)
    else if e < period.startDate || e > period.endDate then Err(EndOutsidePeriod)
    else if s > e then Err(StartAfterEnd)
    else Ok((s, e))
  }

  /** With both dates omitted, the assignment spans its whole (well-formed) period. */
  lemma {:induction false} OmittedDatesSpanPeriod(period: PlanningPeriod)
    requires period.startDate <= period.endDate
    ensures AssignmentDates(period, None, None) == Ok((period.startDate, period.endDate))
  {
  }

  // ---------------------------------------------------------------------
  // Rows
  // ---------------------------------------------------------------------

  /** The row an INSERT stores: the input's columns, the resolved window and
      an empty optimizer cache. */
  function NewRow(id: int, input: AssignmentInput, start: int, end: int): Assignment
  {
    Assignment(id, input.personId, input.projectId, input.periodId, input.productivityFactor,
               start, end, None, None, None)
  }

  /** The row an UPDATE leaves: the input's columns and the resolved window;
      the id and the optimizer cache stay as they were. */
  function Revised(a: Assignment, input: AssignmentInput, start: int, end: int): Assignment
  {
    a.(personId := input.personId, projectId := input.projectId, periodId := input.periodId,
       productivityFactor := input.productivityFactor, startDate := start, endDate := end)
  }

  /** UPDATE assignments SET … WHERE id = ? */
  function ReviseRows(rows: seq<Assignment>, id: int, input: AssignmentInput, start: int, end: int)
    : (out: seq<Assignment>)
    ensures |out| == |rows|
    ensures forall k :: 0 <= k < |rows| ==>
              out[k] == (if rows[k].id == id then Revised(rows[k], input, start, end) else rows[k])
  {
    seq(|rows|, k requires 0 <= k < |rows| =>
      if rows[k].id == id then Revised(rows[k], input, start, end) else rows[k])
  }

  /** SELECT * FROM assignments WHERE id = ?, the first such row. */
  function AssignmentById(rows: seq<Assignment>, id: int): (r: Option<Assignment>)
    ensures r.Some? ==> r.value in rows && r.value.id == id
    ensures r.None? ==> forall k :: 0 <= k < |rows| ==> rows[k].id != id
    decreases |rows|
  {
    if rows == [] then None
    else if rows[0].id == id then Some(rows[0])
    else AssignmentById(rows[1..], id)
  }

  /** The foreign keys an assignment's person and project columns must satisfy. */
  predicate ReferencesExist(t: Tables, input: AssignmentInput)
  {
    PersonById(t.people, input.personId).Some? && ProjectById(t.projects, input.projectId).Some?
  }

  // ---------------------------------------------------------------------
  // Specifications of the commands
  // ---------------------------------------------------------------------

  /** Everything `create_assignment` does after the requirement check:
      resolve the window in the period, insert the row under a fresh id and
      return it. */
  function Insert(t: Tables, input: AssignmentInput): (e: Effect<Assignment>)
    ensures e.result.Err? ==> e.tables == t
  {
    match PeriodById(t.periods, input.periodId)
    case None => Effect(Err(PeriodNotFound), t)
    case Some(period) =>
      match AssignmentDates(period, input.startDate, input.endDate)
      case Err(m) => Effect(Err(m), t)
      case Ok(window) =>
        if !ReferencesExist(t, input) then Effect(Err(ForeignKeyFailed), t)
        else
          var row := NewRow(t.nextId, input, window.0, window.1);
          Effect(Ok(row), t.(assignments := t.assignments + [row], nextId := t.nextId + 1))
  }

  /** `create_assignment`. */
  function Create(t: Tables, input: AssignmentInput): (e: Effect<Assignment>)
    ensures e.result.Err? ==> e.tables == t
  {
    if RequirementFor(t.requirements, input.projectId, input.periodId).None?
    then Effect(Err(CreateNeedsRequirement), t)
    else Insert(t, input)
  }

  /** Everything `update_assignment` does after the requirement check:
      resolve the window in the period, rewrite the row with the given id
      and fetch it back. An UPDATE that matches no row succeeds and the
      fetch then fails. */
  function Revise(t: Tables, id: int, input: AssignmentInput): (e: Effect<Assignment>)
    ensures e.result.Err? ==> e.tables == t
  {
    match PeriodById(t.periods, input.periodId)
    case None => Effect(Err(PeriodNotFound), t)
    case Some(period) =>
      match AssignmentDates(period, input.startDate, input.endDate)
      case Err(m) => Effect(Err(m), t)
      case Ok(window) =>
        if AssignmentById(t.assignments, id).None? then Effect(Err(RowNotFound), t)
        else if !ReferencesExist(t, input) then Effect(Err(ForeignKeyFailed), t)
        else
          var rows := ReviseRows(t.assignments, id, input, window.0, window.1);
          Effect(Ok(Revised(AssignmentById(t.assignments, id).value, input, window.0, window.1)),
                 t.(assignments := rows))
  }

  /** `update_assignment`. */
  function Update(t: Tables, id: int, input: AssignmentInput): (e: Effect<Assignment>)
    ensures e.result.Err? ==> e.tables == t
  {
    if RequirementFor(t.requirements, input.projectId, input.periodId).None?
    then Effect(Err(UpdateNeedsRequirement), t)
    else Revise(t, id, input)
  }

  /** `delete_assignment`: removing a missing id is not an error. */
  function Delete(t: Tables, id: int, deleteError: Option<string>): (e: Effect<()>)
    ensures deleteError.Some? ==> e == Effect(Err(deleteError.value), t)
    ensures deleteError.None? ==> e.result.Ok? && e.tables.(assignments := t.assignments) == t
    ensures deleteError.None? ==>
              forall a :: a in e.tables.assignments <==> a in t.assignments && a.id != id
  {
    if deleteError.Some? then Effect(Err(deleteError.value), t)
    else Effect(Ok(()), t.(assignments := Filter(t.assignments, (a: Assignment) => a.id != id)))
  }

  // ---------------------------------------------------------------------
  // What the checks guarantee
  // ---------------------------------------------------------------------

  /** The requirement check comes first: without a requirement for the pair,
      create fails with its message and changes nothing, whatever the dates. */
  lemma {:induction false} RequirementCheckedFirst(t: Tables, input: AssignmentInput)
    requires RequirementFor(t.requirements, input.projectId, input.periodId).None?
    ensures Create(t, input) == Effect(Err(CreateNeedsRequirement), t)
    ensures forall id :: Update(t, id, input) == Effect(Err(UpdateNeedsRequirement), t)
  {
  }

  /** A created assignment has a requirement for its pair, refers to an
      existing person and project, lies inside its planning period with its
      start not after its end, carries the input's columns and an empty
      cache, and is appended under a fresh id; a failed create changes nothing. */
  lemma {:induction false} CreatedAssignmentIsValid(t: Tables, input: AssignmentInput)
    ensures var e := Create(t, input);
            e.result.Err? ==> e.tables == t
    ensures var e := Create(t, input);
            e.result.Ok? ==>
              RequirementFor(t.requirements, input.projectId, input.periodId).Some?
              && ReferencesExist(t, input)
              && PeriodById(t.periods, input.periodId).Some?
              && var period := PeriodById(t.periods, input.periodId).value;
                 var a := e.result.value;
                 period.startDate <= a.startDate <= a.endDate <= period.endDate
                 && a.startDate == input.startDate.GetOr(period.startDate)
                 && a.endDate == input.endDate.GetOr(period.endDate)
                 && a == NewRow(t.nextId, input, a.startDate, a.endDate)
                 && e.tables == t.(assignments := t.assignments + [a], nextId := t.nextId + 1)
  {
    var e := Create(t, input);
    if e.result.Ok? {
      var period := PeriodById(t.periods, input.periodId).value;
      var window := AssignmentDates(period, input.startDate, input.endDate);
      assert window.Ok?;
    }
  }

  /** An updated assignment satisfies the same checks as a created one; the
      row keeps its id and optimizer cache, every other row is unchanged,
      and a failed update changes nothing. */
  lemma {:induction false} UpdatedAssignmentIsValid(t: Tables, id: int, input: AssignmentInput)
    ensures var e := Update(t, id, input);
            e.result.Err? ==> e.tables == t
    ensures var e := Update(t, id, input);
            e.result.Ok? ==>
              RequirementFor(t.requirements, input.projectId, input.periodId).Some?
              && ReferencesExist(t, input)
              && PeriodById(t.periods, input.periodId).Some?
              && AssignmentById(t.assignments, id).Some?
              && var period := PeriodById(t.periods, input.periodId).value;
                 var a := e.result.value;
                 var before := AssignmentById(t.assignments, id).value;
                 period.startDate <= a.startDate <= a.endDate <= period.endDate
                 && a == Revised(before, input, a.startDate, a.endDate)
                 && a.id == id && a.calcPct == before.calcPct && a.calcEffective == before.calcEffective
                 && |e.tables.assignments| == |t.assignments|
                 && (forall k :: 0 <= k < |t.assignments| && t.assignments[k].id != id ==>
                                 e.tables.assignments[k] == t.assignments[k])
                 && e.tables.people == t.people && e.tables.nextId == t.nextId
  {
    var e := Update(t, id, input);
    if e.result.Ok? {
      var period := PeriodById(t.periods, input.periodId).value;
      var window := AssignmentDates(period, input.startDate, input.endDate);
      assert window.Ok?;
    }
  }

  /** The fetch after an update returns the row as the table now holds it. */
  lemma {:induction false} UpdateReturnsStoredRow(t: Tables, id: int, input: AssignmentInput)
    ensures var e := Update(t, id, input);
            e.result.Ok? ==> AssignmentById(e.tables.assignments, id) == Some(e.result.value)
  {
    var e := Update(t, id, input);
    if e.result.Ok? {
      var period := PeriodById(t.periods, input.periodId).value;
      var window := AssignmentDates(period, input.startDate, input.endDate).value;
      RevisedFirstMatch(t.assignments, id, input, window.0, window.1);
    }
  }

  lemma {:induction false} RevisedFirstMatch(rows: seq<Assignment>, id: int, input: AssignmentInput,
                                             start: int, end: int)
    requires AssignmentById(rows, id).Some?
    ensures AssignmentById(ReviseRows(rows, id, input, start, end), id)
            == Some(Revised(AssignmentById(rows, id).value, input, start, end))
    decreases |rows|
  {
    var out := ReviseRows(rows, id, input, start, end);
    if rows[0].id != id {
      assert out[1..] == ReviseRows(rows[1..], id, input, start, end);
      RevisedFirstMatch(rows[1..], id, input, start, end);
    }
  }

  // ---------------------------------------------------------------------
  // The commands on the database
  // ---------------------------------------------------------------------

  /** Resolves the window, checks the foreign keys and inserts the row:
      the part of create the older application shares. */
  method InsertAssignment(db: Database, input: AssignmentInput) returns (r: Result<Assignment, string>)
    modifies db
    ensures Effect(r, db.Snapshot()) == Insert(old(db.Snapshot()), input)
  {
    var period := PeriodById(db.periods, input.periodId);
    if period.None? {
      return Err(PeriodNotFound);
    }
    var window := AssignmentDates(period.value, input.startDate, input.endDate);
    if window.Err? {
      return Err(window.error);
    }
    if !ReferencesExist(db.Snapshot(), input) {
      return Err(ForeignKeyFailed);
    }
    var row := NewRow(db.nextId, input, window.value.0, window.value.1);
    db.assignments := db.assignments + [row];
    db.nextId := db.nextId + 1;
    r := Ok(row);
  }

  /** `create_assignment` on the database. */
  method CreateAssignment(db: Database, input: AssignmentInput) returns (r: Result<Assignment, string>)
    modifies db
    ensures Effect(r, db.Snapshot()) == Create(old(db.Snapshot()), input)
  {
    if RequirementFor(db.requirements, input.projectId, input.periodId).None? {
      return Err(CreateNeedsRequirement);
    }
    r := InsertAssignment(db, input);
  }

  /** Resolves the window and rewrites the row: the part of update the older
      application shares. */
  method ReviseAssignment(db: Database, id: int, input: AssignmentInput) returns (r: Result<Assignment, string>)
    modifies db
    ensures Effect(r, db.Snapshot()) == Revise(old(db.Snapshot()), id, input)
  {
    var period := PeriodById(db.periods, input.periodId);
    if period.None? {
      return Err(PeriodNotFound);
    }
    var window := AssignmentDates(period.value, input.startDate, input.endDate);
    if window.Err? {
      return Err(window.error);
    }
    var current := AssignmentById(db.assignments, id);
    if current.None? {
      return Err(RowNotFound);
    }
    if !ReferencesExist(db.Snapshot(), input) {
      return Err(ForeignKeyFailed);
    }
    db.assignments := ReviseRows(db.assignments, id, input, window.value.0, window.value.1);
    r := Ok(Revised(current.value, input, window.value.0, window.value.1));
  }

  /** `update_assignment` on the database. */
  method UpdateAssignment(db: Database, id: int, input: AssignmentInput) returns (r: Result<Assignment, string>)
    modifies db
    ensures Effect(r, db.Snapshot()) == Update(old(db.Snapshot()), id, input)
  {
    if RequirementFor(db.requirements, input.projectId, input.periodId).None? {
      return Err(UpdateNeedsRequirement);
    }
    r := ReviseAssignment(db, id, input);
  }

  /** `delete_assignment` on the database. */
  method DeleteAssignment(db: Database, id: int, deleteError: Option<string>) returns (r: Result<(), string>)
    modifies db
    ensures Effect(r, db.Snapshot()) == Delete(old(db.Snapshot()), id, deleteError)
  {
    if deleteError.Some? {
      return Err(deleteError.value);
    }
    db.assignments := Filter(db.assignments, (a: Assignment) => a.id != id);
    r := Ok(());
  }
}
