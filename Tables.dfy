/**
 * The rows of the capacity planner's SQLite tables and the database that
 * holds them. Dates are day numbers (see Calendar); `created_at` columns and
 * other audit timestamps are not modelled. Every table is a sequence of rows
 * in insertion (rowid) order, which is the order an unordered SELECT returns.
 */
module Tables {
  import opened Base

  datatype PlanningPeriod = PlanningPeriod(id: int, name: Option<string>, startDate: int, endDate: int)

  datatype Person = Person(id: int, name: string, email: string,
                           availableHoursPerWeek: real, countryId: Option<int>,
                           workingDays: string)

  datatype Project = Project(id: int, name: string, description: Option<string>)

  /** A project's demand in one planning period; priority 0 = Low, 10 = Medium,
      20 = High, 30 = Blocker. */
  datatype Requirement = Requirement(id: int, projectId: int, periodId: int,
                                     requiredHours: real, priority: int)

  /** An assignment of a person to a project in a period. The three `calc`
      columns are a cache written by the optimizer and cleared on deletes. */
  datatype Assignment = Assignment(id: int, personId: int, projectId: int, periodId: int,
                                   productivityFactor: real, startDate: int, endDate: int,
                                   calcPct: Option<real>, calcEffective: Option<real>,
                                   lastCalculatedAt: Option<string>)

  datatype Absence = Absence(id: int, personId: int, startDate: int, endDate: int,
                             days: int, reason: Option<string>)

  datatype Country = Country(id: int, isoCode: string, name: string)

  datatype Holiday = Holiday(id: int, countryId: int, name: Option<string>,
                             startDate: int, endDate: int)

  datatype Job = Job(id: int, name: string, description: Option<string>)

  /** An overhead task of a job: `effortHours` per "daily" or "weekly" period;
      optional tasks are deducted only with their weight. */
  datatype OverheadTask = OverheadTask(id: int, jobId: int, name: string,
                                       effortHours: real, effortPeriod: string,
                                       isOptional: bool, optionalWeight: real)

  datatype PersonJobAssignment = PersonJobAssignment(id: int, personId: int, jobId: int, periodId: int)

  /** Column defaults of the schema. */
  const DefaultPriority: int := 10
  const DefaultProductivityFactor: real := 0.5
  const DefaultWorkingDays: string := "Mon,Tue,Wed,Thu,Fri"

  /** The whole database as a value; `nextId` stands for the AUTOINCREMENT
      counters (one shared counter hands out fresh row ids). */
  datatype Tables = Tables(
    periods: seq<PlanningPeriod>,
    people: seq<Person>,
    projects: seq<Project>,
    requirements: seq<Requirement>,
    assignments: seq<Assignment>,
    absences: seq<Absence>,
    countries: seq<Country>,
    holidays: seq<Holiday>,
    jobs: seq<Job>,
    tasks: seq<OverheadTask>,
    jobAssignments: seq<PersonJobAssignment>,
    nextId: int)

  /** The mutable database the commands work on. */
  class Database {
    var periods: seq<PlanningPeriod>
    var people: seq<Person>
    var projects: seq<Project>
    var requirements: seq<Requirement>
    var assignments: seq<Assignment>
    var absences: seq<Absence>
    var countries: seq<Country>
    var holidays: seq<Holiday>
    var jobs: seq<Job>
    var tasks: seq<OverheadTask>
    var jobAssignments: seq<PersonJobAssignment>
    var nextId: int

    function Snapshot(): Tables
      reads this
    {
      Tables(periods, people, projects, requirements, assignments, absences,
             countries, holidays, jobs, tasks, jobAssignments, nextId)
    }

    constructor (t: Tables)
      ensures Snapshot() == t
    {
      periods := t.periods;
      people := t.people;
      projects := t.projects;
      requirements := t.requirements;
      assignments := t.assignments;
      absences := t.absences;
      countries := t.countries;
      holidays := t.holidays;
      jobs := t.jobs;
      tasks := t.tasks;
      jobAssignments := t.jobAssignments;
      nextId := t.nextId;
    }

    /** Replaces every table at once (the effect of a committed transaction). */
    method Store(t: Tables)
      modifies this
      ensures Snapshot() == t
    {
      periods := t.periods;
      people := t.people;
      projects := t.projects;
      requirements := t.requirements;
      assignments := t.assignments;
      absences := t.absences;
      countries := t.countries;
      holidays := t.holidays;
      jobs := t.jobs;
      tasks := t.tasks;
      jobAssignments := t.jobAssignments;
      nextId := t.nextId;
    }
  }

  /** The planning period with the given id, if any. */
  function PeriodById(periods: seq<PlanningPeriod>, id: int): (r: Option<PlanningPeriod>)
    ensures r.Some? ==> r.value in periods && r.value.id == id
    ensures r.None? ==> forall k :: 0 <= k < |periods| ==> periods[k].id != id
    decreases |periods|
  {
    if periods == [] then None
    else if periods[0].id == id then Some(periods[0])
    else PeriodById(periods[1..], id)
  }

  /** The person with the given id, if any. */
  function PersonById(people: seq<Person>, id: int): (r: Option<Person>)
    ensures r.Some? ==> r.value in people && r.value.id == id
    ensures r.None? ==> forall k :: 0 <= k < |people| ==> people[k].id != id
    decreases |people|
  {
    if people == [] then None
    else if people[0].id == id then Some(people[0])
    else PersonById(people[1..], id)
  }

  /** The project with the given id, if any. */
  function ProjectById(projects: seq<Project>, id: int): (r: Option<Project>)
    ensures r.Some? ==> r.value in projects && r.value.id == id
    ensures r.None? ==> forall k :: 0 <= k < |projects| ==> projects[k].id != id
    decreases |projects|
  {
    if projects == [] then None
    else if projects[0].id == id then Some(projects[0])
    else ProjectById(projects[1..], id)
  }

  /** The country with the given id, if any. */
  function CountryById(countries: seq<Country>, id: int): (r: Option<Country>)
    ensures r.Some? ==> r.value in countries && r.value.id == id
    ensures r.None? ==> forall k :: 0 <= k < |countries| ==> countries[k].id != id
    decreases |countries|
  {
    if countries == [] then None
    else if countries[0].id == id then Some(countries[0])
    else CountryById(countries[1..], id)
  }

  /** The country with the given ISO code, if any. */
  function CountryByCode(countries: seq<Country>, code: string): (r: Option<Country>)
    ensures r.Some? ==> r.value in countries && r.value.isoCode == code
    ensures r.None? ==> forall k :: 0 <= k < |countries| ==> countries[k].isoCode != code
    decreases |countries|
  {
    if countries == [] then None
    else if countries[0].isoCode == code then Some(countries[0])
    else CountryByCode(countries[1..], code)
  }

  /** The requirement of a (project, period) pair, if any. */
  function RequirementFor(reqs: seq<Requirement>, projectId: int, periodId: int): (r: Option<Requirement>)
    ensures r.Some? ==> r.value in reqs && r.value.projectId == projectId && r.value.periodId == periodId
    ensures r.None? ==> forall k :: 0 <= k < |reqs| ==>
      !(reqs[k].projectId == projectId && reqs[k].periodId == periodId)
    decreases |reqs|
  {
    if reqs == [] then None
    else if reqs[0].projectId == projectId && reqs[0].periodId == periodId then Some(reqs[0])
    else RequirementFor(reqs[1..], projectId, periodId)
  }

  // ---------------------------------------------------------------------
  // Cache invalidation shared by the delete commands
  // ---------------------------------------------------------------------

  /** The entity a delete command removes, which assignments refer to. */
  datatype Ref = PersonRef(id: int) | ProjectRef(id: int) | PeriodRef(id: int)

  predicate Refers(a: Assignment, r: Ref)
  {
    match r
    case PersonRef(id) => a.personId == id
    case ProjectRef(id) => a.projectId == id
    case PeriodRef(id) => a.periodId == id
  }

  /** The assignment with its optimizer cache cleared. */
  function Cleared(a: Assignment): Assignment
  {
    a.(calcPct := None, calcEffective := None, lastCalculatedAt := None)
  }

  /** UPDATE assignments SET the three calculated columns = NULL WHERE the
      assignment refers to `r`. */
  function InvalidateFor(rows: seq<Assignment>, r: Ref): (out: seq<Assignment>)
    ensures |out| == |rows|
    ensures forall k :: 0 <= k < |rows| ==>
      out[k] == if Refers(rows[k], r) then Cleared(rows[k]) else rows[k]
    decreases |rows|
  {
    if rows == [] then []
    else
      InvalidateFor(rows[..|rows| - 1], r)
      + [if Refers(rows[|rows| - 1], r) then Cleared(rows[|rows| - 1]) else rows[|rows| - 1]]
  }

  /** Cache invalidation changes no row's references. */
  lemma {:induction false} InvalidateKeepsRefs(rows: seq<Assignment>, r: Ref, q: Ref)
    ensures forall k :: 0 <= k < |rows| ==> (Refers(InvalidateFor(rows, r)[k], q) <==> Refers(rows[k], q))
  {
  }

  // ---------------------------------------------------------------------
  // Deletes and the schema's ON DELETE rules
  // ---------------------------------------------------------------------

  /** What a command returns together with the tables it leaves behind. */
  datatype Effect<T> = Effect(result: Result<T, string>, tables: Tables)

  /** The message of a fetch_one that finds no row. */
  const RowNotFound: string := "no rows returned by a query that expected to return at least one row"

  /** The message of an insert or update that breaks a FOREIGN KEY. */
  const ForeignKeyFailed: string := "FOREIGN KEY constraint failed"

  /** The assignments that do not refer to `r`. */
  function AssignmentsKept(rows: seq<Assignment>, r: Ref): (out: seq<Assignment>)
    ensures forall a :: a in out <==> a in rows && !Refers(a, r)
  {
    Filter(rows, (a: Assignment) => !Refers(a, r))
  }

  /** Clearing the cache of the rows a cascade then removes leaves the
      surviving rows as they were. */
  lemma {:induction false} InvalidatedRowsAreCascaded(rows: seq<Assignment>, r: Ref)
    ensures AssignmentsKept(InvalidateFor(rows, r), r) == AssignmentsKept(rows, r)
    decreases |rows|
  {
    if rows != [] {
      var init := rows[..|rows| - 1];
      var last := rows[|rows| - 1];
      InvalidatedRowsAreCascaded(init, r);
      var inv := InvalidateFor(rows, r);
      assert inv == InvalidateFor(init, r) + [if Refers(last, r) then Cleared(last) else last];
      assert inv[..|inv| - 1] == InvalidateFor(init, r);
      assert rows == init + [last];
    }
  }

  /** DELETE FROM the table of `r` WHERE id = r.id, with the rows that the
      ON DELETE CASCADE foreign keys remove along with it: a person takes
      their assignments, absences and job assignments; a project its
      requirements and assignments; a planning period its requirements,
      assignments and job assignments. */
  function CascadeDelete(t: Tables, r: Ref): (u: Tables)
    ensures u.assignments == AssignmentsKept(t.assignments, r)
    ensures u.countries == t.countries && u.holidays == t.holidays && u.jobs == t.jobs
            && u.tasks == t.tasks && u.nextId == t.nextId
  {
    match r
    case PersonRef(id) =>
      t.(people := Filter(t.people, (p: Person) => p.id != id),
         assignments := AssignmentsKept(t.assignments, r),
         absences := Filter(t.absences, (a: Absence) => a.personId != id),
         jobAssignments := Filter(t.jobAssignments, (j: PersonJobAssignment) => j.personId != id))
    case ProjectRef(id) =>
      t.(projects := Filter(t.projects, (p: Project) => p.id != id),
         requirements := Filter(t.requirements, (q: Requirement) => q.projectId != id),
         assignments := AssignmentsKept(t.assignments, r))
    case PeriodRef(id) =>
      t.(periods := Filter(t.periods, (p: PlanningPeriod) => p.id != id),
         requirements := Filter(t.requirements, (q: Requirement) => q.periodId != id),
         assignments := AssignmentsKept(t.assignments, r),
         jobAssignments := Filter(t.jobAssignments, (j: PersonJobAssignment) => j.periodId != id))
  }

  /** The delete commands of people, projects and planning periods: clear
      the cache of the assignments that refer to the row, then delete the
      row. Each statement commits on its own, so a failing delete leaves the
      invalidation in place, and a failing invalidation deletes nothing. */
  function InvalidateThenDelete(t: Tables, r: Ref, invalidateError: Option<string>,
                                deleteError: Option<string>): (e: Effect<()>)
    ensures invalidateError.Some? ==> e == Effect(Err(invalidateError.value), t)
    ensures invalidateError.None? && deleteError.Some?
            ==> e == Effect(Err(deleteError.value), t.(assignments := InvalidateFor(t.assignments, r)))
    ensures invalidateError.None? && deleteError.None? ==> e == Effect(Ok(()), CascadeDelete(t, r))
  {
    if invalidateError.Some? then Effect(Err(invalidateError.value), t)
    else
      var invalidated := t.(assignments := InvalidateFor(t.assignments, r));
      if deleteError.Some? then Effect(Err(deleteError.value), invalidated)
      else
        InvalidatedRowsAreCascaded(t.assignments, r);
        Effect(Ok(()), CascadeDelete(invalidated, r))
  }
}
