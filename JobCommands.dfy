/**
 * Jobs, their overhead tasks and the assignment of jobs to people
 * (src-tauri/src/commands/jobs.rs). Job names are unique ignoring case:
 * create refuses a name any job already has, update one that a different
 * job has. Batch job assignment skips every (person, job, period) triple
 * that already exists, runs outside a transaction, and returns the rows it
 * inserted.
 */
module JobCommands {
  import opened Base
  import opened Tables

  /** CreateJobInput. */
  datatype JobInput = JobInput(name: string, description: Option<string>)

  /** CreateJobOverheadTaskInput (its description column is not modelled). */
  datatype TaskInput = TaskInput(jobId: int, name: string, effortHours: real, effortPeriod: string)

  /** What the delete dialog of a job shows. */
  datatype JobDependencies = JobDependencies(taskCount: nat, assignmentCount: nat)

  function DuplicateName(name: string): string
  {
    "A job with the name '" + name + "' already exists. Please use a different name."
  }

  /** SQLite's message for the effort_period CHECK constraint. */
  const BadEffortPeriod: string := "CHECK constraint failed: effort_period IN ('daily', 'weekly')"
  /** SQLite's message for the UNIQUE(person_id, job_id, planning_period_id) constraint. */
  const DuplicateTriple: string :=
    "UNIQUE constraint failed: person_job_assignments.person_id, person_job_assignments.job_id, person_job_assignments.planning_period_id"

  /** A task created through the command is required, with the default weight
      of optional overhead (DEFAULT_OPTIONAL_WEIGHT). */
  const NewTaskOptionalWeight: real := 0.5

  // ---------------------------------------------------------------------
  // Names ignoring case
  // ---------------------------------------------------------------------

  /** SQLite's LOWER() on one character: only ASCII capitals change. */
  function LowerChar(c: char): (l: char)
    ensures 'A' <= c <= 'Z' ==> l as int == c as int + 32
    ensures !('A' <= c <= 'Z') ==> l == c
  {
    if 'A' <= c <= 'Z' then (c as int + 32) as char else c
  }

  /** SQLite's LOWER() on a string. */
  function Lower(s: string): (l: string)
    ensures |l| == |s|
    ensures forall k :: 0 <= k < |s| ==> l[k] == LowerChar(s[k])
  {
    seq(|s|, k requires 0 <= k < |s| => LowerChar(s[k]))
  }

  /** `LOWER(a) = LOWER(b)`. */
  predicate SameNameIgnoringCase(a: string, b: string)
  {
    Lower(a) == Lower(b)
  }

  /** Names that differ only in the case of ASCII letters collide; a name
      collides with itself. */
  lemma {:induction false} CaseVariantsCollide(name: string, k: int)
    requires 0 <= k < |name| && 'a' <= name[k] <= 'z'
    ensures SameNameIgnoringCase(name, name[k := (name[k] as int - 32) as char])
    ensures name != name[k := (name[k] as int - 32) as char]
  {
    var other := name[k := (name[k] as int - 32) as char];
    assert forall i :: 0 <= i < |name| ==> LowerChar(other[i]) == LowerChar(name[i]);
    assert Lower(name) == Lower(other);
  }

  /** The jobs table's names are unique ignoring case. */
  ghost predicate UniqueNames(jobs: seq<Job>)
  {
    forall i, j :: 0 <= i < j < |jobs| ==> !SameNameIgnoringCase(jobs[i].name, jobs[j].name)
  }

  /** The jobs table's ids are unique (its primary key). */
  ghost predicate UniqueIds(jobs: seq<Job>)
  {
    forall i, j :: 0 <= i < j < |jobs| ==> jobs[i].id != jobs[j].id
  }

  /** How many jobs other than `except` have the name, ignoring case. */
  function NameCount(jobs: seq<Job>, name: string, except: Option<int>): (n: nat)
    ensures n == 0 <==> forall j :: j in jobs ==> !(SameNameIgnoringCase(j.name, name) && Some(j.id) != except)
  {
    Count(jobs, (j: Job) => SameNameIgnoringCase(j.name, name) && Some(j.id) != except)
  }

  // ---------------------------------------------------------------------
  // create_job and update_job
  // ---------------------------------------------------------------------

  /** `create_job`: the new row, or the refusal of a taken name. */
  function CreateJob(t: Tables, input: JobInput): (e: Effect<Job>)
    ensures e.result.Err? ==> e.tables == t
  {
    if NameCount(t.jobs, input.name, None) > 0 then Effect(Err(DuplicateName(input.name)), t)
    else
      var job := Job(t.nextId, input.name, input.description);
      Effect(Ok(job), t.(jobs := t.jobs + [job], nextId := t.nextId + 1))
  }

  /** The job with the given id, if any. */
  function JobById(jobs: seq<Job>, id: int): (r: Option<Job>)
    ensures r.Some? ==> r.value in jobs && r.value.id == id
    ensures r.None? ==> forall k :: 0 <= k < |jobs| ==> jobs[k].id != id
    decreases |jobs|
  {
    if jobs == [] then None
    else if jobs[0].id == id then Some(jobs[0])
    else JobById(jobs[1..], id)
  }

  /** `UPDATE jobs SET name = ?, description = ? WHERE id = ?`. */
  function ReviseJobs(jobs: seq<Job>, id: int, input: JobInput): (js: seq<Job>)
    ensures |js| == |jobs|
    ensures forall k :: 0 <= k < |jobs| ==>
              js[k] == if jobs[k].id == id then Job(id, input.name, input.description) else jobs[k]
  {
    seq(|jobs|, k requires 0 <= k < |jobs| =>
      if jobs[k].id == id then Job(id, input.name, input.description) else jobs[k])
  }

  /** `update_job`: the name check excludes the job itself; a missing job is
      noticed only when the updated row is read back. */
  function UpdateJob(t: Tables, id: int, input: JobInput): (e: Effect<Job>)
    ensures e.result.Err? ==> e.tables == t
  {
    if NameCount(t.jobs, input.name, Some(id)) > 0 then Effect(Err(DuplicateName(input.name)), t)
    else if JobById(t.jobs, id).None? then Effect(Err(RowNotFound), t)
    else Effect(Ok(Job(id, input.name, input.description)), t.(jobs := ReviseJobs(t.jobs, id, input)))
  }

  /** Create is refused exactly when some job has the name ignoring case;
      otherwise the new job is appended under a fresh id. */
  lemma {:induction false} CreateJobRefusals(t: Tables, input: JobInput)
    ensures CreateJob(t, input).result.Err?
            <==> exists j :: j in t.jobs && SameNameIgnoringCase(j.name, input.name)
    ensures CreateJob(t, input).result.Err? ==> CreateJob(t, input).tables == t
    ensures CreateJob(t, input).result.Ok? ==>
              var job := CreateJob(t, input).result.value;
              job == Job(t.nextId, input.name, input.description)
              && CreateJob(t, input).tables.jobs == t.jobs + [job]
  {
    if exists j :: j in t.jobs && SameNameIgnoringCase(j.name, input.name) {
      var j :| j in t.jobs && SameNameIgnoringCase(j.name, input.name);
      assert SameNameIgnoringCase(j.name, input.name) && Some(j.id) != None;
    }
  }

  /** Update is refused for a name clash exactly when a job with a different
      id has the name ignoring case, so keeping (or re-casing) its own name is
      allowed; a missing id is reported as a missing row. */
  lemma {:induction false} UpdateJobRefusals(t: Tables, id: int, input: JobInput)
    ensures UpdateJob(t, id, input).result == Err(DuplicateName(input.name))
            <==> exists j :: j in t.jobs && j.id != id && SameNameIgnoringCase(j.name, input.name)
    ensures UpdateJob(t, id, input).result.Err? ==> UpdateJob(t, id, input).tables == t
    ensures UpdateJob(t, id, input).result.Ok? <==>
              (forall j :: j in t.jobs && j.id != id ==> !SameNameIgnoringCase(j.name, input.name))
              && JobById(t.jobs, id).Some?
  {
    if exists j :: j in t.jobs && j.id != id && SameNameIgnoringCase(j.name, input.name) {
      var j :| j in t.jobs && j.id != id && SameNameIgnoringCase(j.name, input.name);
      assert SameNameIgnoringCase(j.name, input.name) && Some(j.id) != Some(id);
    }
    var dup := DuplicateName(input.name);
    assert dup[|dup| - 1] == '.' && RowNotFound[|RowNotFound| - 1] == 'w';
  }

  /** Create keeps the job names unique ignoring case, and the ids unique. */
  lemma {:induction false} CreateJobKeepsNamesUnique(t: Tables, input: JobInput)
    requires UniqueNames(t.jobs) && UniqueIds(t.jobs)
    requires forall j :: j in t.jobs ==> j.id < t.nextId
    ensures UniqueNames(CreateJob(t, input).tables.jobs)
    ensures UniqueIds(CreateJob(t, input).tables.jobs)
  {
    if CreateJob(t, input).result.Ok? {
      var js := CreateJob(t, input).tables.jobs;
      forall i, j | 0 <= i < j < |js|
        ensures !SameNameIgnoringCase(js[i].name, js[j].name) && js[i].id != js[j].id
      {
        if j == |t.jobs| {
          assert js[i] in t.jobs;
        } else {
          assert js[i] == t.jobs[i] && js[j] == t.jobs[j];
        }
      }
    }
  }

  /** Update keeps the job names unique ignoring case, and the ids unique. */
  lemma {:induction false} UpdateJobKeepsNamesUnique(t: Tables, id: int, input: JobInput)
    requires UniqueNames(t.jobs) && UniqueIds(t.jobs)
    ensures UniqueNames(UpdateJob(t, id, input).tables.jobs)
    ensures UniqueIds(UpdateJob(t, id, input).tables.jobs)
  {
    if UpdateJob(t, id, input).result.Ok? {
      var js := UpdateJob(t, id, input).tables.jobs;
      forall i, j | 0 <= i < j < |js|
        ensures !SameNameIgnoringCase(js[i].name, js[j].name) && js[i].id != js[j].id
      {
        if t.jobs[i].id == id {
          assert t.jobs[j] in t.jobs && t.jobs[j].id != id;
        } else if t.jobs[j].id == id {
          assert t.jobs[i] in t.jobs;
        }
      }
    }
  }

  // ---------------------------------------------------------------------
  // delete_job and check_job_dependencies
  // ---------------------------------------------------------------------

  /** `delete_job`: the schema's cascades remove the job's overhead tasks and
      its assignments to people; `deleteError` is the failure the database
      may report. */
  function DeleteJob(t: Tables, id: int, deleteError: Option<string>): (e: Effect<()>)
    ensures e.result.Err? ==> e.tables == t
  {
    if deleteError.Some? then Effect(Err(deleteError.value), t)
    else Effect(Ok(()), t.(jobs := Filter(t.jobs, (j: Job) => j.id != id),
                           tasks := Filter(t.tasks, (k: OverheadTask) => k.jobId != id),
                           jobAssignments := Filter(t.jobAssignments, (a: PersonJobAssignment) => a.jobId != id)))
  }

  /** After a successful delete the job, its tasks and its assignments are
      gone and everything else is still there. */
  lemma {:induction false} DeletedJobLeavesNoTrace(t: Tables, id: int)
    ensures var u := DeleteJob(t, id, None).tables;
            && JobById(u.jobs, id).None?
            && (forall j :: j in u.jobs <==> j in t.jobs && j.id != id)
            && (forall k :: k in u.tasks <==> k in t.tasks && k.jobId != id)
            && (forall a :: a in u.jobAssignments <==> a in t.jobAssignments && a.jobId != id)
            && u == t.(jobs := u.jobs, tasks := u.tasks, jobAssignments := u.jobAssignments)
  {
  }

  /** `check_job_dependencies`: the job's overhead tasks and person assignments. */
  function Dependencies(t: Tables, id: int): (d: JobDependencies)
    ensures d.taskCount <= |t.tasks| && d.assignmentCount <= |t.jobAssignments|
    ensures d.taskCount == 0 <==> forall k :: k in t.tasks ==> k.jobId != id
    ensures d.assignmentCount == 0 <==> forall a :: a in t.jobAssignments ==> a.jobId != id
  {
    JobDependencies(Count(t.tasks, (k: OverheadTask) => k.jobId == id),
                    Count(t.jobAssignments, (a: PersonJobAssignment) => a.jobId == id))
  }

  /** The counts are exactly the tasks and assignments a delete removes. */
  lemma {:induction false} DependenciesAreWhatDeleteRemoves(t: Tables, id: int)
    ensures var u := DeleteJob(t, id, None).tables;
            Dependencies(t, id).taskCount == |t.tasks| - |u.tasks|
            && Dependencies(t, id).assignmentCount == |t.jobAssignments| - |u.jobAssignments|
  {
    CountAndFilterSplit(t.tasks, (k: OverheadTask) => k.jobId == id, (k: OverheadTask) => k.jobId != id);
    CountAndFilterSplit(t.jobAssignments, (a: PersonJobAssignment) => a.jobId == id,
                        (a: PersonJobAssignment) => a.jobId != id);
  }

  // ---------------------------------------------------------------------
  // Overhead tasks
  // ---------------------------------------------------------------------

  predicate ValidEffortPeriod(p: string)
  {
    p == "daily" || p == "weekly"
  }

  /** `create_job_overhead_task`: the row stores the effort exactly as given;
      the CHECK on the period and the job's foreign key may refuse it. */
  function CreateTask(t: Tables, input: TaskInput): (e: Effect<OverheadTask>)
    ensures e.result.Err? ==> e.tables == t
  {
    if !ValidEffortPeriod(input.effortPeriod) then Effect(Err(BadEffortPeriod), t)
    else if JobById(t.jobs, input.jobId).None? then Effect(Err(ForeignKeyFailed), t)
    else
      var task := OverheadTask(t.nextId, input.jobId, input.name, input.effortHours,
                               input.effortPeriod, false, NewTaskOptionalWeight);
      Effect(Ok(task), t.(tasks := t.tasks + [task], nextId := t.nextId + 1))
  }

  /** `UPDATE job_overhead_tasks SET name, effort_hours, effort_period WHERE id = ?`. */
  function ReviseTasks(tasks: seq<OverheadTask>, id: int, input: TaskInput): (ts: seq<OverheadTask>)
    ensures |ts| == |tasks|
    ensures forall k :: 0 <= k < |tasks| && tasks[k].id != id ==> ts[k] == tasks[k]
    ensures forall k :: 0 <= k < |tasks| && tasks[k].id == id ==>
              ts[k] == tasks[k].(name := input.name, effortHours := input.effortHours,
                                 effortPeriod := input.effortPeriod)
  {
    seq(|tasks|, k requires 0 <= k < |tasks| =>
      if tasks[k].id == id
      then tasks[k].(name := input.name, effortHours := input.effortHours, effortPeriod := input.effortPeriod)
      else tasks[k])
  }

  /** The task with the given id, if any. */
  function TaskById(tasks: seq<OverheadTask>, id: int): (r: Option<OverheadTask>)
    ensures r.Some? ==> r.value in tasks && r.value.id == id
    ensures r.None? ==> forall k :: 0 <= k < |tasks| ==> tasks[k].id != id
    decreases |tasks|
  {
    if tasks == [] then None
    else if tasks[0].id == id then Some(tasks[0])
    else TaskById(tasks[1..], id)
  }

  /** `update_job_overhead_task`: an update that matches no row changes
      nothing and fails when the row is read back; the CHECK applies only to
      a row that is updated. */
  function UpdateTask(t: Tables, id: int, input: TaskInput): (e: Effect<OverheadTask>)
    ensures e.result.Err? ==> e.tables == t
  {
    match TaskById(t.tasks, id)
    case None => Effect(Err(RowNotFound), t)
    case Some(prev) =>
      if !ValidEffortPeriod(input.effortPeriod) then Effect(Err(BadEffortPeriod), t)
      else Effect(Ok(prev.(name := input.name, effortHours := input.effortHours,
                          effortPeriod := input.effortPeriod)),
                  t.(tasks := ReviseTasks(t.tasks, id, input)))
  }

  /** A created task holds the given job, name and effort, is required, and is
      refused exactly for an unknown period or an unknown job. */
  lemma {:induction false} CreatedTaskStoresEffort(t: Tables, input: TaskInput)
    ensures CreateTask(t, input).result.Ok?
            <==> ValidEffortPeriod(input.effortPeriod) && JobById(t.jobs, input.jobId).Some?
    ensures CreateTask(t, input).result.Ok? ==>
              var task := CreateTask(t, input).result.value;
              && task.jobId == input.jobId && task.name == input.name
              && task.effortHours == input.effortHours && task.effortPeriod == input.effortPeriod
              && !task.isOptional
              && CreateTask(t, input).tables.tasks == t.tasks + [task]
    ensures CreateTask(t, input).result.Err? ==> CreateTask(t, input).tables == t
  {
  }

  /** An update stores the given name and effort and keeps the task's id,
      job, optional flag and weight; no other task changes. */
  lemma {:induction false} UpdatedTaskStoresEffort(t: Tables, id: int, input: TaskInput, k: int)
    requires UpdateTask(t, id, input).result.Ok?
    requires 0 <= k < |t.tasks|
    ensures var u := UpdateTask(t, id, input).tables.tasks;
            && |u| == |t.tasks|
            && (t.tasks[k].id != id ==> u[k] == t.tasks[k])
            && (t.tasks[k].id == id ==>
                  && u[k].effortHours == input.effortHours && u[k].effortPeriod == input.effortPeriod
                  && u[k].name == input.name && u[k].id == id && u[k].jobId == t.tasks[k].jobId
                  && u[k].isOptional == t.tasks[k].isOptional
                  && u[k].optionalWeight == t.tasks[k].optionalWeight)
    ensures UpdateTask(t, id, input).result.value in UpdateTask(t, id, input).tables.tasks
  {
    var prev := TaskById(t.tasks, id).value;
    var j :| 0 <= j < |t.tasks| && t.tasks[j] == prev;
    assert UpdateTask(t, id, input).tables.tasks[j] == UpdateTask(t, id, input).result.value;
  }

  // ---------------------------------------------------------------------
  // Assigning jobs to a person
  // ---------------------------------------------------------------------

  /** Does the person already hold the job in the period? */
  predicate HasTriple(rows: seq<PersonJobAssignment>, personId: int, jobId: int, periodId: int)
  {
    exists a :: a in rows && a.personId == personId && a.jobId == jobId && a.periodId == periodId
  }

  /** Do the person, the job and the period a new row names exist? */
  predicate ReferencesExist(t: Tables, personId: int, jobId: int, periodId: int)
  {
    PersonById(t.people, personId).Some? && JobById(t.jobs, jobId).Some?
    && PeriodById(t.periods, periodId).Some?
  }

  /** The UNIQUE(person_id, job_id, planning_period_id) constraint. */
  ghost predicate UniqueTriples(rows: seq<PersonJobAssignment>)
  {
    forall i, j :: 0 <= i < j < |rows| ==>
      !(rows[i].personId == rows[j].personId && rows[i].jobId == rows[j].jobId
        && rows[i].periodId == rows[j].periodId)
  }

  /** `create_person_job_assignment`: a plain insert, which the foreign keys
      and the UNIQUE constraint may refuse. */
  function CreateAssignment(t: Tables, personId: int, jobId: int, periodId: int): (e: Effect<PersonJobAssignment>)
    ensures e.result.Err? ==> e.tables == t
  {
    if HasTriple(t.jobAssignments, personId, jobId, periodId) then Effect(Err(DuplicateTriple), t)
    else if !ReferencesExist(t, personId, jobId, periodId) then Effect(Err(ForeignKeyFailed), t)
    else
      var row := PersonJobAssignment(t.nextId, personId, jobId, periodId);
      Effect(Ok(row), t.(jobAssignments := t.jobAssignments + [row], nextId := t.nextId + 1))
  }

  /** A single assignment is refused with the UNIQUE error exactly when the
      person already holds the job in the period, and with the foreign-key
      error exactly when it is new but names a missing row; a refusal changes
      nothing, a success appends one row under a fresh id, and the triples
      stay unique. */
  lemma {:induction false} CreateAssignmentRules(t: Tables, personId: int, jobId: int, periodId: int)
    requires UniqueTriples(t.jobAssignments)
    ensures var e := CreateAssignment(t, personId, jobId, periodId);
      (e.result == Err(DuplicateTriple) <==> HasTriple(t.jobAssignments, personId, jobId, periodId))
      && (e.result == Err(ForeignKeyFailed)
          <==> !HasTriple(t.jobAssignments, personId, jobId, periodId)
               && !ReferencesExist(t, personId, jobId, periodId))
      && (e.result.Err? ==> e.tables == t)
      && (e.result.Ok? ==> e.result.value == PersonJobAssignment(t.nextId, personId, jobId, periodId)
                           && e.tables == t.(jobAssignments := t.jobAssignments + [e.result.value],
                                             nextId := t.nextId + 1))
      && UniqueTriples(e.tables.jobAssignments)
  {
    assert |DuplicateTriple| != |ForeignKeyFailed|;
    var rows := t.jobAssignments;
    if !HasTriple(rows, personId, jobId, periodId) && ReferencesExist(t, personId, jobId, periodId) {
      var row := PersonJobAssignment(t.nextId, personId, jobId, periodId);
      var rows' := rows + [row];
      forall i, j | 0 <= i < j < |rows'|
        ensures !(rows'[i].personId == rows'[j].personId && rows'[i].jobId == rows'[j].jobId
                  && rows'[i].periodId == rows'[j].periodId)
      {
        if j == |rows| {
          assert rows'[i] == rows[i] && rows[i] in rows;
        }
      }
    }
  }

  /** The state of the batch loop: the tables, the rows inserted so far, and
      the error that ended the loop, if any. */
  datatype AssignRun = AssignRun(tables: Tables, created: seq<PersonJobAssignment>, failure: Option<string>)

  /** One job id of the batch: skip an existing triple, otherwise insert. */
  function AssignStep(run: AssignRun, personId: int, jobId: int, periodId: int): AssignRun
  {
    if run.failure.Some? then run
    else
      var t := run.tables;
      if HasTriple(t.jobAssignments, personId, jobId, periodId) then run
      else if !ReferencesExist(t, personId, jobId, periodId) then run.(failure := Some(ForeignKeyFailed))
      else
        var row := PersonJobAssignment(t.nextId, personId, jobId, periodId);
        AssignRun(t.(jobAssignments := t.jobAssignments + [row], nextId := t.nextId + 1),
                  run.created + [row], None)
  }

  /** The loop over `jobIds`. */
  function AssignAll(t: Tables, personId: int, jobIds: seq<int>, periodId: int): AssignRun
    decreases |jobIds|
  {
    if jobIds == [] then AssignRun(t, [], None)
    else AssignStep(AssignAll(t, personId, jobIds[..|jobIds| - 1], periodId),
                    personId, jobIds[|jobIds| - 1], periodId)
  }

  /** `batch_create_person_job_assignments`: there is no transaction, so the
      rows inserted before a failure stay in the table. */
  function BatchAssign(t: Tables, personId: int, jobIds: seq<int>, periodId: int)
    : (e: Effect<seq<PersonJobAssignment>>)
    ensures e.result.Ok? <==> forall j :: j in NewJobIds(t.jobAssignments, personId, jobIds, periodId) ==>
                                ReferencesExist(t, personId, j, periodId)
    ensures e.result.Err? ==> e.result == Err(ForeignKeyFailed)
  {
    BatchFailsOnDanglingIds(t, personId, jobIds, periodId);
    var run := AssignAll(t, personId, jobIds, periodId);
    if run.failure.Some? then Effect(Err(run.failure.value), run.tables)
    else Effect(Ok(run.created), run.tables)
  }

  /** The job ids the batch inserts, in `jobIds` order: the first occurrence
      of each id the person does not already hold in the period. */
  function NewJobIds(rows: seq<PersonJobAssignment>, personId: int, jobIds: seq<int>, periodId: int)
    : (ns: seq<int>)
    ensures forall j :: j in ns <==> j in jobIds && !HasTriple(rows, personId, j, periodId)
    ensures forall i, j :: 0 <= i < j < |ns| ==> ns[i] != ns[j]
    decreases |jobIds|
  {
    if jobIds == [] then []
    else
      var init := NewJobIds(rows, personId, jobIds[..|jobIds| - 1], periodId);
      var x := jobIds[|jobIds| - 1];
      assert jobIds == jobIds[..|jobIds| - 1] + [x];
      if HasTriple(rows, personId, x, periodId) || x in init then init else init + [x]
  }

  /** The rows the batch inserts for `ids`, with consecutive fresh ids. */
  function NewRows(firstId: int, personId: int, ids: seq<int>, periodId: int): (rs: seq<PersonJobAssignment>)
    ensures |rs| == |ids|
    ensures forall k :: 0 <= k < |ids| ==> rs[k] == PersonJobAssignment(firstId + k, personId, ids[k], periodId)
  {
    seq(|ids|, k requires 0 <= k < |ids| => PersonJobAssignment(firstId + k, personId, ids[k], periodId))
  }

  lemma {:induction false} AssignAllStep(t: Tables, personId: int, jobIds: seq<int>, periodId: int, i: int)
    requires 0 <= i < |jobIds|
    ensures AssignAll(t, personId, jobIds[..i + 1], periodId)
            == AssignStep(AssignAll(t, personId, jobIds[..i], periodId), personId, jobIds[i], periodId)
  {
    assert jobIds[..i + 1][..i] == jobIds[..i];
  }

  /** The loop state after inserting the rows for `ns` and failing nowhere. */
  function Inserted(t: Tables, personId: int, ns: seq<int>, periodId: int): AssignRun
  {
    var created := NewRows(t.nextId, personId, ns, periodId);
    AssignRun(t.(jobAssignments := t.jobAssignments + created, nextId := t.nextId + |ns|), created, None)
  }

  /** One job id on an Inserted state: skipped when its triple existed
      before or its id was inserted already, appended otherwise. */
  lemma {:induction false} InsertedStep(t: Tables, personId: int, ns: seq<int>, x: int, periodId: int)
    requires AssignStep(Inserted(t, personId, ns, periodId), personId, x, periodId).failure.None?
    ensures AssignStep(Inserted(t, personId, ns, periodId), personId, x, periodId)
            == Inserted(t, personId,
                        if HasTriple(t.jobAssignments, personId, x, periodId) || x in ns then ns else ns + [x],
                        periodId)
  {
    var run := Inserted(t, personId, ns, periodId);
    HasTripleAfter(t.jobAssignments, run.created, personId, ns, x, periodId, t.nextId);
    if !(HasTriple(t.jobAssignments, personId, x, periodId) || x in ns) {
      assert NewRows(t.nextId, personId, ns + [x], periodId)
             == run.created + [PersonJobAssignment(t.nextId + |ns|, personId, x, periodId)];
    }
  }

  /** Without a failure, the batch inserts exactly the rows for NewJobIds, in
      order and under consecutive fresh ids, appends them to the table and
      returns them; nothing else changes. */
  lemma {:induction false} BatchInsertsNewTriples(t: Tables, personId: int, jobIds: seq<int>, periodId: int)
    requires AssignAll(t, personId, jobIds, periodId).failure.None?
    ensures AssignAll(t, personId, jobIds, periodId)
            == Inserted(t, personId, NewJobIds(t.jobAssignments, personId, jobIds, periodId), periodId)
    decreases |jobIds|
  {
    if jobIds != [] {
      var init := jobIds[..|jobIds| - 1];
      BatchInsertsNewTriples(t, personId, init, periodId);
      InsertedStep(t, personId, NewJobIds(t.jobAssignments, personId, init, periodId),
                   jobIds[|jobIds| - 1], periodId);
    }
  }

  /** After inserting the rows for `ns`, a triple exists exactly when it did
      before or its job is one of `ns`. */
  lemma {:induction false} HasTripleAfter(rows: seq<PersonJobAssignment>, created: seq<PersonJobAssignment>,
                                          personId: int, ns: seq<int>, x: int, periodId: int, firstId: int)
    requires created == NewRows(firstId, personId, ns, periodId)
    ensures HasTriple(rows + created, personId, x, periodId)
            <==> HasTriple(rows, personId, x, periodId) || x in ns
  {
    if x in ns {
      var k :| 0 <= k < |ns| && ns[k] == x;
      assert created[k] in rows + created;
    }
    if HasTriple(rows + created, personId, x, periodId) {
      var a :| a in rows + created && a.personId == personId && a.jobId == x && a.periodId == periodId;
      if a !in rows {
        var k :| 0 <= k < |created| && created[k] == a;
      }
    }
  }

  /** The batch fails exactly when some job id it would insert names a
      missing person, job or period; it then fails with the foreign-key
      error. */
  lemma {:induction false} BatchFailsOnDanglingIds(t: Tables, personId: int, jobIds: seq<int>, periodId: int)
    ensures AssignAll(t, personId, jobIds, periodId).failure.None?
            <==> forall j :: j in NewJobIds(t.jobAssignments, personId, jobIds, periodId) ==>
                   ReferencesExist(t, personId, j, periodId)
    ensures AssignAll(t, personId, jobIds, periodId).failure.Some? ==>
              AssignAll(t, personId, jobIds, periodId).failure == Some(ForeignKeyFailed)
    decreases |jobIds|
  {
    if jobIds != [] {
      var init := jobIds[..|jobIds| - 1];
      var x := jobIds[|jobIds| - 1];
      BatchFailsOnDanglingIds(t, personId, init, periodId);
      var run := AssignAll(t, personId, init, periodId);
      var ns := NewJobIds(t.jobAssignments, personId, init, periodId);
      if run.failure.None? {
        BatchInsertsNewTriples(t, personId, init, periodId);
        HasTripleAfter(t.jobAssignments, run.created, personId, ns, x, periodId, t.nextId);
        assert NewJobIds(t.jobAssignments, personId, jobIds, periodId)
               == if HasTriple(t.jobAssignments, personId, x, periodId) || x in ns then ns else ns + [x];
        assert ReferencesExist(run.tables, personId, x, periodId) == ReferencesExist(t, personId, x, periodId);
      } else {
        var j :| j in ns && !ReferencesExist(t, personId, j, periodId);
        assert j in NewJobIds(t.jobAssignments, personId, jobIds, periodId);
      }
    }
  }

  /** The batch keeps the (person, job, period) triples unique, even when
      `jobIds` repeats an id. */
  lemma {:induction false} BatchKeepsTriplesUnique(t: Tables, personId: int, jobIds: seq<int>, periodId: int)
    requires UniqueTriples(t.jobAssignments)
    requires AssignAll(t, personId, jobIds, periodId).failure.None?
    ensures UniqueTriples(AssignAll(t, personId, jobIds, periodId).tables.jobAssignments)
  {
    BatchInsertsNewTriples(t, personId, jobIds, periodId);
    var ns := NewJobIds(t.jobAssignments, personId, jobIds, periodId);
    var created := NewRows(t.nextId, personId, ns, periodId);
    var rows := t.jobAssignments + created;
    forall i, j | 0 <= i < j < |rows|
      ensures !(rows[i].personId == rows[j].personId && rows[i].jobId == rows[j].jobId
                && rows[i].periodId == rows[j].periodId)
    {
      if i < |t.jobAssignments| <= j {
        assert rows[i] in t.jobAssignments;
        assert !HasTriple(t.jobAssignments, personId, ns[j - |t.jobAssignments|], periodId);
      } else if |t.jobAssignments| <= i {
        assert ns[i - |t.jobAssignments|] != ns[j - |t.jobAssignments|];
      } else {
        assert rows[i] == t.jobAssignments[i] && rows[j] == t.jobAssignments[j];
      }
    }
  }

  /** When the person holds every job already, the batch has nothing to insert. */
  lemma {:induction false} NothingNew(rows: seq<PersonJobAssignment>, personId: int, jobIds: seq<int>, periodId: int)
    requires forall j :: j in jobIds ==> HasTriple(rows, personId, j, periodId)
    ensures NewJobIds(rows, personId, jobIds, periodId) == []
    decreases |jobIds|
  {
    if jobIds != [] {
      var init := jobIds[..|jobIds| - 1];
      assert forall j :: j in init ==> j in jobIds;
      NothingNew(rows, personId, init, periodId);
      assert jobIds[|jobIds| - 1] in jobIds;
    }
  }

  /** Repeating a successful batch inserts nothing and returns no rows. */
  lemma {:induction false} BatchRepeatedAddsNothing(t: Tables, personId: int, jobIds: seq<int>, periodId: int)
    requires BatchAssign(t, personId, jobIds, periodId).result.Ok?
    ensures var u := BatchAssign(t, personId, jobIds, periodId).tables;
            BatchAssign(u, personId, jobIds, periodId) == Effect(Ok([]), u)
  {
    var u := AssignAll(t, personId, jobIds, periodId).tables;
    BatchInsertsNewTriples(t, personId, jobIds, periodId);
    var ns := NewJobIds(t.jobAssignments, personId, jobIds, periodId);
    forall j | j in jobIds ensures HasTriple(u.jobAssignments, personId, j, periodId) {
      HasTripleAfter(t.jobAssignments, NewRows(t.nextId, personId, ns, periodId), personId, ns, j, periodId,
                     t.nextId);
    }
    NothingNew(u.jobAssignments, personId, jobIds, periodId);
    BatchFailsOnDanglingIds(u, personId, jobIds, periodId);
    BatchInsertsNewTriples(u, personId, jobIds, periodId);
    assert u.jobAssignments + NewRows(u.nextId, personId, [], periodId) == u.jobAssignments;
  }

  // ---------------------------------------------------------------------
  // The commands on the database
  // ---------------------------------------------------------------------

  /** `create_job` on the database. */
  method CreateJobRow(db: Database, input: JobInput) returns (r: Result<Job, string>)
    modifies db
    ensures Effect(r, db.Snapshot()) == CreateJob(old(db.Snapshot()), input)
  {
    if NameCount(db.jobs, input.name, None) > 0 {
      return Err(DuplicateName(input.name));
    }
    var job := Job(db.nextId, input.name, input.description);
    db.jobs := db.jobs + [job];
    db.nextId := db.nextId + 1;
    r := Ok(job);
  }

  /** `update_job` on the database. */
  method UpdateJobRow(db: Database, id: int, input: JobInput) returns (r: Result<Job, string>)
    modifies db
    ensures Effect(r, db.Snapshot()) == UpdateJob(old(db.Snapshot()), id, input)
  {
    if NameCount(db.jobs, input.name, Some(id)) > 0 {
      return Err(DuplicateName(input.name));
    }
    if JobById(db.jobs, id).None? {
      return Err(RowNotFound);
    }
    db.jobs := ReviseJobs(db.jobs, id, input);
    r := Ok(Job(id, input.name, input.description));
  }

  /** `create_job_overhead_task` on the database. */
  method CreateTaskRow(db: Database, input: TaskInput) returns (r: Result<OverheadTask, string>)
    modifies db
    ensures Effect(r, db.Snapshot()) == CreateTask(old(db.Snapshot()), input)
  {
    if !ValidEffortPeriod(input.effortPeriod) {
      return Err(BadEffortPeriod);
    }
    if JobById(db.jobs, input.jobId).None? {
      return Err(ForeignKeyFailed);
    }
    var task := OverheadTask(db.nextId, input.jobId, input.name, input.effortHours,
                             input.effortPeriod, false, NewTaskOptionalWeight);
    db.tasks := db.tasks + [task];
    db.nextId := db.nextId + 1;
    r := Ok(task);
  }

  /** `update_job_overhead_task` on the database. */
  method UpdateTaskRow(db: Database, id: int, input: TaskInput) returns (r: Result<OverheadTask, string>)
    modifies db
    ensures Effect(r, db.Snapshot()) == UpdateTask(old(db.Snapshot()), id, input)
  {
    var prev := TaskById(db.tasks, id);
    if prev.None? {
      return Err(RowNotFound);
    }
    if !ValidEffortPeriod(input.effortPeriod) {
      return Err(BadEffortPeriod);
    }
    db.tasks := ReviseTasks(db.tasks, id, input);
    r := Ok(prev.value.(name := input.name, effortHours := input.effortHours,
                       effortPeriod := input.effortPeriod));
  }

  /** One job id of the batch on the database. */
  method AssignOne(db: Database, personId: int, jobId: int, periodId: int, created: seq<PersonJobAssignment>)
    returns (createdAfter: seq<PersonJobAssignment>, failure: Option<string>)
    modifies db
    ensures AssignStep(AssignRun(old(db.Snapshot()), created, None), personId, jobId, periodId)
            == AssignRun(db.Snapshot(), createdAfter, failure)
  {
    if HasTriple(db.jobAssignments, personId, jobId, periodId) {
      return created, None;
    }
    if !ReferencesExist(db.Snapshot(), personId, jobId, periodId) {
      return created, Some(ForeignKeyFailed);
    }
    var row := PersonJobAssignment(db.nextId, personId, jobId, periodId);
    db.jobAssignments := db.jobAssignments + [row];
    db.nextId := db.nextId + 1;
    createdAfter, failure := created + [row], None;
  }

  /** `batch_create_person_job_assignments` on the database. */
  method BatchAssignJobs(db: Database, personId: int, jobIds: seq<int>, periodId: int)
    returns (r: Result<seq<PersonJobAssignment>, string>)
    modifies db
    ensures Effect(r, db.Snapshot()) == BatchAssign(old(db.Snapshot()), personId, jobIds, periodId)
  {
    ghost var t0 := db.Snapshot();
    var created: seq<PersonJobAssignment> := [];
    var i := 0;
    while i < |jobIds|
      invariant 0 <= i <= |jobIds|
      invariant AssignAll(t0, personId, jobIds[..i], periodId) == AssignRun(db.Snapshot(), created, None)
    {
      AssignAllStep(t0, personId, jobIds, periodId, i);
      var failure;
      created, failure := AssignOne(db, personId, jobIds[i], periodId, created);
      if failure.Some? {
        FailureStays(t0, personId, jobIds, periodId, i + 1);
        return Err(failure.value);
      }
      i := i + 1;
    }
    assert jobIds[..i] == jobIds;
    r := Ok(created);
  }

  /** Once the loop has failed, later job ids change nothing. */
  lemma {:induction false} FailureStays(t: Tables, personId: int, jobIds: seq<int>, periodId: int, j: int)
    requires 0 <= j <= |jobIds| && AssignAll(t, personId, jobIds[..j], periodId).failure.Some?
    ensures AssignAll(t, personId, jobIds, periodId) == AssignAll(t, personId, jobIds[..j], periodId)
    decreases |jobIds| - j
  {
    if j < |jobIds| {
      AssignAllStep(t, personId, jobIds, periodId, j);
      FailureStays(t, personId, jobIds, periodId, j + 1);
    } else {
      assert jobIds[..j] == jobIds;
    }
  }
}
