/**
 * optimize_assignments_proportional: load the period, its assignments, every
 * person's available hours and the period's requirements; visit the projects
 * with a requirement in priority order, each taking its turn against the
 * person states left by the previous turns; report the shortfalls and the
 * projects without a requirement; write every calculation back to its
 * assignment row.
 *
 * The order in which projects leave the assignments-by-project hash map is
 * unspecified; it is the parameter `order`, any duplicate-free listing of
 * the projects with assignments in the period.
 */
module Optimizer {
  import opened Base
  import opened Tables
  import opened Availability
  import opened Allocation
  import opened Ranking

  /** The result the optimizer returns on success; `success` is always true
      and is not modelled. */
  datatype Outcome = Outcome(calculations: seq<Calculation>, infeasible: seq<Shortfall>,
                             warnings: seq<Warning>)

  // ---------------------------------------------------------------------
  // Loading
  // ---------------------------------------------------------------------

  /** SELECT * FROM assignments WHERE planning_period_id = ? */
  function PeriodAssignments(rows: seq<Assignment>, periodId: int): seq<Assignment>
  {
    Filter(rows, (a: Assignment) => a.periodId == periodId)
  }

  /** The state a person starts the run with: the period's available hours
      and the whole 100 percent. */
  function StartState(p: Person, period: PlanningPeriod, t: Tables): PersonState
  {
    PersonState(PersonAvailability(p, period, t.absences, t.holidays, t.jobAssignments, t.tasks).availableHours,
                100.0)
  }

  /** Every person's start state, keyed by id. */
  function InitialStates(people: seq<Person>, period: PlanningPeriod, t: Tables): (m: map<int, PersonState>)
    ensures forall p :: p in people ==> p.id in m
    decreases |people|
  {
    if people == [] then map[]
    else
      var last := people[|people| - 1];
      assert people == people[..|people| - 1] + [last];
      InitialStates(people[..|people| - 1], period, t)[last.id := StartState(last, period, t)]
  }

  /** Every start state is valid and at 100 percent. */
  lemma {:induction false} InitialStatesValid(people: seq<Person>, period: PlanningPeriod, t: Tables)
    ensures ValidStates(InitialStates(people, period, t))
    ensures forall id :: id in InitialStates(people, period, t) ==> InitialStates(people, period, t)[id].remaining == 100.0
    decreases |people|
  {
    if people != [] {
      InitialStatesValid(people[..|people| - 1], period, t);
    }
  }

  /** With unique person ids, each person starts with their own available hours. */
  lemma {:induction false} InitialStateOfPerson(people: seq<Person>, period: PlanningPeriod, t: Tables, k: int)
    requires 0 <= k < |people|
    requires forall i, j :: 0 <= i < j < |people| ==> people[i].id != people[j].id
    ensures InitialStates(people, period, t)[people[k].id] == StartState(people[k], period, t)
    decreases |people|
  {
    if k < |people| - 1 {
      InitialStateOfPerson(people[..|people| - 1], period, t, k);
    }
  }

  /** The loop that computes every person's available hours. */
  method InitPersonStates(people: seq<Person>, period: PlanningPeriod, t: Tables)
    returns (m: map<int, PersonState>)
    ensures m == InitialStates(people, period, t)
  {
    m := map[];
    var i := 0;
    while i < |people|
      invariant 0 <= i <= |people|
      invariant m == InitialStates(people[..i], period, t)
    {
      var b := CalculatePersonAvailableHours(people[i], period, t.absences, t.holidays,
                                             t.jobAssignments, t.tasks);
      assert people[..i + 1][..i] == people[..i];
      m := m[people[i].id := PersonState(b.availableHours, 100.0)];
      i := i + 1;
    }
    assert people[..|people|] == people;
  }

  /** The period's requirements keyed by project id. */
  function RequirementsMap(reqs: seq<Requirement>, periodId: int): (m: map<int, Requirement>)
    ensures forall p :: p in m ==> m[p] in reqs && m[p].projectId == p && m[p].periodId == periodId
    ensures forall r :: r in reqs && r.periodId == periodId ==> r.projectId in m
    decreases |reqs|
  {
    if reqs == [] then map[]
    else
      var m := RequirementsMap(reqs[..|reqs| - 1], periodId);
      var r := reqs[|reqs| - 1];
      assert reqs == reqs[..|reqs| - 1] + [r];
      if r.periodId == periodId then m[r.projectId := r] else m
  }

  /** Under the UNIQUE(project_id, planning_period_id) constraint the map
      holds exactly the requirement the direct lookup finds. */
  lemma RequirementsMapAgrees(reqs: seq<Requirement>, periodId: int, projectId: int)
    requires forall i, j :: 0 <= i < j < |reqs| ==>
      !(reqs[i].projectId == reqs[j].projectId && reqs[i].periodId == reqs[j].periodId)
    ensures projectId in RequirementsMap(reqs, periodId) <==> RequirementFor(reqs, projectId, periodId).Some?
    ensures projectId in RequirementsMap(reqs, periodId) ==>
      RequirementsMap(reqs, periodId)[projectId] == RequirementFor(reqs, projectId, periodId).value
  {
    var m := RequirementsMap(reqs, periodId);
    var found := RequirementFor(reqs, projectId, periodId);
    if found.Some? {
      assert projectId in m;
      var i :| 0 <= i < |reqs| && reqs[i] == m[projectId];
      var j :| 0 <= j < |reqs| && reqs[j] == found.value;
      assert i == j;
    }
  }

  /** The assignments of one project, in order. */
  function OfProject(pas: seq<Assignment>, projectId: int): (r: seq<Assignment>)
    ensures forall a :: a in r <==> a in pas && a.projectId == projectId
    decreases |pas|
  {
    if pas == [] then []
    else
      var last := pas[|pas| - 1];
      assert pas == pas[..|pas| - 1] + [last];
      OfProject(pas[..|pas| - 1], projectId) + (if last.projectId == projectId then [last] else [])
  }

  lemma OfProjectSnoc(init: seq<Assignment>, a: Assignment)
    ensures forall p :: OfProject(init + [a], p) == OfProject(init, p) + (if a.projectId == p then [a] else [])
  {
    assert (init + [a])[..|init|] == init;
  }

  /** The assignments grouped by project, each group in assignment order. */
  function ByProject(pas: seq<Assignment>): (m: map<int, seq<Assignment>>)
    ensures forall a :: a in pas ==> a.projectId in m
    ensures forall p :: p in m ==> m[p] == OfProject(pas, p) && m[p] != []
    ensures forall p :: p !in m ==> OfProject(pas, p) == []
    decreases |pas|
  {
    if pas == [] then map[]
    else
      var init := pas[..|pas| - 1];
      var m := ByProject(init);
      var a := pas[|pas| - 1];
      assert pas == init + [a];
      GroupStep(init, a, m);
      m[a.projectId := (if a.projectId in m then m[a.projectId] else []) + [a]]
  }

  /** Filing one more assignment under its project keeps the grouping exact. */
  lemma GroupStep(init: seq<Assignment>, a: Assignment, m: map<int, seq<Assignment>>)
    requires forall b :: b in init ==> b.projectId in m
    requires forall p :: p in m ==> m[p] == OfProject(init, p) && m[p] != []
    requires forall p :: p !in m ==> OfProject(init, p) == []
    ensures var m' := m[a.projectId := (if a.projectId in m then m[a.projectId] else []) + [a]];
            && (forall b :: b in init + [a] ==> b.projectId in m')
            && (forall p :: p in m' ==> m'[p] == OfProject(init + [a], p) && m'[p] != [])
            && (forall p :: p !in m' ==> OfProject(init + [a], p) == [])
  {
    OfProjectSnoc(init, a);
  }

  lemma ByProjectStep(pas: seq<Assignment>, i: int)
    requires 0 <= i < |pas|
    ensures var m := ByProject(pas[..i]);
      ByProject(pas[..i + 1])
      == m[pas[i].projectId := (if pas[i].projectId in m then m[pas[i].projectId] else []) + [pas[i]]]
  {
    assert pas[..i + 1][..i] == pas[..i];
  }

  /** The loop that groups the period's assignments by project. */
  method GroupAssignments(pas: seq<Assignment>) returns (m: map<int, seq<Assignment>>)
    ensures m == ByProject(pas)
  {
    m := map[];
    var i := 0;
    while i < |pas|
      invariant 0 <= i <= |pas|
      invariant m == ByProject(pas[..i])
    {
      var a := pas[i];
      ByProjectStep(pas, i);
      var group := if a.projectId in m then m[a.projectId] else [];
      m := m[a.projectId := group + [a]];
      i := i + 1;
    }
    assert pas[..|pas|] == pas;
  }

  // ---------------------------------------------------------------------
  // The run over the projects
  // ---------------------------------------------------------------------

  /** What the run has produced so far. */
  datatype Run = Run(states: map<int, PersonState>, calculations: seq<Calculation>,
                     infeasible: seq<Shortfall>)

  /** Every assignment of every project belongs to a person with a state. */
  ghost predicate Staffed(byProject: map<int, seq<Assignment>>, people: set<int>)
  {
    forall p, k :: p in byProject && 0 <= k < |byProject[p]| ==> byProject[p][k].personId in people
  }

  /** Every visited project has assignments and a requirement. */
  ghost predicate Visitable(ids: seq<int>, byProject: map<int, seq<Assignment>>, reqs: map<int, Requirement>)
  {
    forall p :: p in ids ==> p in byProject && p in reqs
  }

  /** One project's turn added to the run. */
  function Turn(run: Run, projectId: int, byProject: map<int, seq<Assignment>>,
                reqs: map<int, Requirement>): (r: Run)
    requires projectId in byProject && projectId in reqs
    requires Staffed(byProject, run.states.Keys)
    ensures r.states.Keys == run.states.Keys
  {
    var t := AllocateProjectSpec(run.states, projectId, byProject[projectId], reqs[projectId].requiredHours);
    Run(t.states, run.calculations + t.calculations,
        run.infeasible + (if t.shortfall.Some? then [t.shortfall.value] else []))
  }

  /** The turns of the projects `ids`, in order. */
  function RunProjects(run: Run, ids: seq<int>, byProject: map<int, seq<Assignment>>,
                       reqs: map<int, Requirement>): (r: Run)
    requires Visitable(ids, byProject, reqs)
    requires Staffed(byProject, run.states.Keys)
    ensures r.states.Keys == run.states.Keys
    decreases |ids|
  {
    if ids == [] then run
    else
      var init := ids[..|ids| - 1];
      assert ids == init + [ids[|ids| - 1]];
      Turn(RunProjects(run, init, byProject, reqs), ids[|ids| - 1], byProject, reqs)
  }

  lemma RunSnoc(run: Run, ids: seq<int>, p: int, byProject: map<int, seq<Assignment>>,
                reqs: map<int, Requirement>)
    requires Visitable(ids + [p], byProject, reqs)
    requires Staffed(byProject, run.states.Keys)
    ensures Visitable(ids, byProject, reqs)
    ensures RunProjects(run, ids + [p], byProject, reqs)
            == Turn(RunProjects(run, ids, byProject, reqs), p, byProject, reqs)
  {
    assert (ids + [p])[..|ids|] == ids;
  }

  /** The assignments of the projects `ids`. */
  ghost predicate OfVisited(a: Assignment, ids: seq<int>, byProject: map<int, seq<Assignment>>)
  {
    exists p :: p in ids && p in byProject && a in byProject[p]
  }

  /** Every calculation belongs to an assignment of a visited project, and
      every reported shortfall to a visited project. */
  lemma {:induction false} RunCalculationsOwned(run: Run, ids: seq<int>, byProject: map<int, seq<Assignment>>,
                                                reqs: map<int, Requirement>)
    requires Visitable(ids, byProject, reqs)
    requires Staffed(byProject, run.states.Keys)
    requires run.calculations == [] && run.infeasible == []
    ensures forall c :: c in RunProjects(run, ids, byProject, reqs).calculations ==>
      exists a :: OfVisited(a, ids, byProject) && a.id == c.assignmentId
    ensures forall s :: s in RunProjects(run, ids, byProject, reqs).infeasible ==> s.projectId in ids
    decreases |ids|
  {
    if ids != [] {
      var init := ids[..|ids| - 1];
      var p := ids[|ids| - 1];
      assert ids == init + [p];
      RunCalculationsOwned(run, init, byProject, reqs);
      var before := RunProjects(run, init, byProject, reqs);
      var pas := byProject[p];
      var t := AllocateProjectSpec(before.states, p, pas, reqs[p].requiredHours);
      forall c | c in RunProjects(run, ids, byProject, reqs).calculations
        ensures exists a :: OfVisited(a, ids, byProject) && a.id == c.assignmentId
      {
        if c in before.calculations {
          var a :| OfVisited(a, init, byProject) && a.id == c.assignmentId;
          var q :| q in init && q in byProject && a in byProject[q];
          assert OfVisited(a, ids, byProject);
        } else {
          assert c in t.calculations;
          var k :| 0 <= k < |t.calculations| && t.calculations[k] == c;
          assert pas[k] in pas;
          assert OfVisited(pas[k], ids, byProject);
        }
      }
    }
  }

  /** Every project's turn keeps the person states valid: available hours
      never change and remaining percentages never rise, provided the
      requirements and productivity factors are non-negative. */
  lemma {:induction false} RunKeepsStatesValid(run: Run, ids: seq<int>, byProject: map<int, seq<Assignment>>,
                                               reqs: map<int, Requirement>)
    requires Visitable(ids, byProject, reqs)
    requires Staffed(byProject, run.states.Keys)
    requires ValidStates(run.states)
    requires forall p :: p in byProject ==> NonNegativeFactors(byProject[p])
    requires forall p :: p in reqs ==> reqs[p].requiredHours >= 0.0
    ensures ValidStates(RunProjects(run, ids, byProject, reqs).states)
    ensures forall q :: q in run.states ==>
      RunProjects(run, ids, byProject, reqs).states[q].available == run.states[q].available
      && RunProjects(run, ids, byProject, reqs).states[q].remaining <= run.states[q].remaining
    decreases |ids|
  {
    if ids != [] {
      var init := ids[..|ids| - 1];
      var p := ids[|ids| - 1];
      assert ids == init + [p];
      RunKeepsStatesValid(run, init, byProject, reqs);
      var before := RunProjects(run, init, byProject, reqs);
      ProjectKeepsStatesValid(before.states, p, byProject[p], reqs[p].requiredHours);
    }
  }

  /** The inner loop: the turns of one priority group's projects, after
      the turns of the projects `done`. */
  method ProcessGroup(states: map<int, PersonState>, ghost done: seq<int>, group: seq<int>,
                      byProject: map<int, seq<Assignment>>, reqs: map<int, Requirement>,
                      after0: map<int, PersonState>, calcs0: seq<Calculation>, infeasible0: seq<Shortfall>)
    returns (after: map<int, PersonState>, calculations: seq<Calculation>, infeasible: seq<Shortfall>)
    requires Visitable(done + group, byProject, reqs)
    requires Staffed(byProject, states.Keys)
    requires Run(after0, calcs0, infeasible0) == RunProjects(Run(states, [], []), done, byProject, reqs)
    ensures Run(after, calculations, infeasible) == RunProjects(Run(states, [], []), done + group, byProject, reqs)
  {
    after, calculations, infeasible := after0, calcs0, infeasible0;
    ghost var run := Run(after0, calcs0, infeasible0);
    assert done + group[..0] == done;
    var i := 0;
    while i < |group|
      invariant 0 <= i <= |group|
      invariant Visitable(done + group[..i], byProject, reqs)
      invariant run == RunProjects(Run(states, [], []), done + group[..i], byProject, reqs)
      invariant after == run.states && calculations == run.calculations && infeasible == run.infeasible
    {
      var projectId := group[i];
      GroupTurn(Run(states, [], []), done, group, i, byProject, reqs);
      var t := AllocateProject(after, projectId, byProject[projectId], reqs[projectId].requiredHours);
      TurnOf(run, projectId, byProject, reqs, t);
      after := t.states;
      calculations := calculations + t.calculations;
      if t.shortfall.Some? {
        infeasible := infeasible + [t.shortfall.value];
      }
      run := Turn(run, projectId, byProject, reqs);
      i := i + 1;
    }
    assert group[..|group|] == group;
  }

  /** A turn records the project's result: its states replace the old
      ones, its calculations and its shortfall, if any, are appended. */
  lemma TurnOf(run: Run, projectId: int, byProject: map<int, seq<Assignment>>,
               reqs: map<int, Requirement>, t: ProjectResult)
    requires projectId in byProject && projectId in reqs
    requires Staffed(byProject, run.states.Keys)
    requires t == AllocateProjectSpec(run.states, projectId, byProject[projectId], reqs[projectId].requiredHours)
    ensures Turn(run, projectId, byProject, reqs).states == t.states
    ensures Turn(run, projectId, byProject, reqs).calculations == run.calculations + t.calculations
    ensures Turn(run, projectId, byProject, reqs).infeasible
            == run.infeasible + (if t.shortfall.Some? then [t.shortfall.value] else [])
  {
  }

  /** The turns of `done` and the first i + 1 projects of `group` are those
      of `done` and the first i, followed by the turn of project group[i]. */
  lemma GroupTurn(run: Run, done: seq<int>, group: seq<int>, i: int,
                  byProject: map<int, seq<Assignment>>, reqs: map<int, Requirement>)
    requires 0 <= i < |group|
    requires Visitable(done + group, byProject, reqs)
    requires Staffed(byProject, run.states.Keys)
    ensures Visitable(done + group[..i], byProject, reqs)
    ensures Visitable(done + group[..i + 1], byProject, reqs)
    ensures group[i] in byProject && group[i] in reqs
    ensures RunProjects(run, done + group[..i + 1], byProject, reqs)
            == Turn(RunProjects(run, done + group[..i], byProject, reqs), group[i], byProject, reqs)
  {
    assert group[..i + 1] == group[..i] + [group[i]];
    assert done + group[..i + 1] == (done + group[..i]) + [group[i]];
    assert group[i] in done + group;
    RunSnoc(run, done + group[..i], group[i], byProject, reqs);
  }

  /** The outer loop over the priority groups. */
  method ProcessGroups(states: map<int, PersonState>, groups: seq<seq<int>>,
                       byProject: map<int, seq<Assignment>>, reqs: map<int, Requirement>)
    returns (after: map<int, PersonState>, calculations: seq<Calculation>, infeasible: seq<Shortfall>)
    requires Visitable(Flatten(groups), byProject, reqs)
    requires Staffed(byProject, states.Keys)
    ensures Run(after, calculations, infeasible)
            == RunProjects(Run(states, [], []), Flatten(groups), byProject, reqs)
  {
    after, calculations, infeasible := states, [], [];
    var g := 0;
    while g < |groups|
      invariant 0 <= g <= |groups|
      invariant Visitable(Flatten(groups[..g]), byProject, reqs)
      invariant Run(after, calculations, infeasible)
                == RunProjects(Run(states, [], []), Flatten(groups[..g]), byProject, reqs)
    {
      FlattenPrefix(groups, g);
      after, calculations, infeasible :=
        ProcessGroup(states, Flatten(groups[..g]), groups[g], byProject, reqs, after, calculations, infeasible);
      g := g + 1;
    }
    assert groups[..|groups|] == groups;
  }

  /** The first g + 1 groups concatenated are a prefix of all of them. */
  lemma {:induction false} FlattenPrefix(groups: seq<seq<int>>, g: int)
    requires 0 <= g < |groups|
    ensures Flatten(groups[..g + 1]) == Flatten(groups[..g]) + groups[g]
    ensures Flatten(groups) == Flatten(groups[..g + 1]) + Flatten(groups[g + 1..])
  {
    assert groups[..g + 1] == groups[..g] + [groups[g]];
    FlattenSnoc(groups[..g], groups[g]);
    assert groups[..g + 1] + groups[g + 1..] == groups;
    FlattenAppend(groups[..g + 1], groups[g + 1..]);
  }

  lemma {:induction false} FlattenAppend(xs: seq<seq<int>>, ys: seq<seq<int>>)
    ensures Flatten(xs + ys) == Flatten(xs) + Flatten(ys)
    decreases |ys|
  {
    if ys == [] {
      assert xs + ys == xs;
    } else {
      var front := ys[..|ys| - 1];
      var last := ys[|ys| - 1];
      FlattenAppend(xs, front);
      assert xs + ys == (xs + front) + [last];
      assert ys == front + [last];
      FlattenSnoc(xs + front, last);
      FlattenSnoc(front, last);
    }
  }

  // ---------------------------------------------------------------------
  // Write-back
  // ---------------------------------------------------------------------

  /** The row with a calculation's figures and the run's timestamp. */
  function Stamp(a: Assignment, c: Calculation, now: string): Assignment
  {
    a.(calcPct := Some(c.pct), calcEffective := Some(c.effective), lastCalculatedAt := Some(now))
  }

  /** UPDATE assignments SET the three calculated columns WHERE id = the
      calculation's assignment id. */
  function WriteCalculation(rows: seq<Assignment>, c: Calculation, now: string): (out: seq<Assignment>)
    ensures |out| == |rows|
    ensures forall k :: 0 <= k < |rows| ==>
      out[k] == if rows[k].id == c.assignmentId then Stamp(rows[k], c, now) else rows[k]
  {
    seq(|rows|, k requires 0 <= k < |rows| =>
      if rows[k].id == c.assignmentId then Stamp(rows[k], c, now) else rows[k])
  }

  /** The updates of every calculation, in order. */
  function WriteAll(rows: seq<Assignment>, calcs: seq<Calculation>, now: string): (out: seq<Assignment>)
    ensures |out| == |rows|
    decreases |calcs|
  {
    if calcs == [] then rows
    else WriteCalculation(WriteAll(rows, calcs[..|calcs| - 1], now), calcs[|calcs| - 1], now)
  }

  /** The last calculation for an assignment id, if any. */
  function LastFor(calcs: seq<Calculation>, id: int): (r: Option<Calculation>)
    ensures r.Some? ==> r.value in calcs && r.value.assignmentId == id
    ensures r.None? ==> forall c :: c in calcs ==> c.assignmentId != id
    decreases |calcs|
  {
    if calcs == [] then None
    else if calcs[|calcs| - 1].assignmentId == id then Some(calcs[|calcs| - 1])
    else
      assert calcs == calcs[..|calcs| - 1] + [calcs[|calcs| - 1]];
      LastFor(calcs[..|calcs| - 1], id)
  }

  function Written(a: Assignment, last: Option<Calculation>, now: string): Assignment
  {
    match last
    case None => a
    case Some(c) => Stamp(a, c, now)
  }

  /** Each row ends up with the figures of the last calculation for its id,
      and a row no calculation names is left as it was. */
  lemma {:induction false} WriteAllEffect(rows: seq<Assignment>, calcs: seq<Calculation>, now: string)
    ensures forall k :: 0 <= k < |rows| ==>
      WriteAll(rows, calcs, now)[k] == Written(rows[k], LastFor(calcs, rows[k].id), now)
    decreases |calcs|
  {
    if calcs != [] {
      WriteAllEffect(rows, calcs[..|calcs| - 1], now);
    }
  }

  /** The loop of UPDATE statements. */
  method WriteBack(db: Database, calcs: seq<Calculation>, now: string)
    modifies db`assignments
    ensures db.assignments == WriteAll(old(db.assignments), calcs, now)
  {
    var i := 0;
    while i < |calcs|
      invariant 0 <= i <= |calcs|
      invariant db.assignments == WriteAll(old(db.assignments), calcs[..i], now)
    {
      assert calcs[..i + 1][..i] == calcs[..i];
      db.assignments := WriteCalculation(db.assignments, calcs[i], now);
      i := i + 1;
    }
    assert calcs[..|calcs|] == calcs;
  }

  // ---------------------------------------------------------------------
  // The whole optimizer
  // ---------------------------------------------------------------------

  /** Every assignment's person has a row (the foreign key; the optimizer
      unwraps the person's state). */
  ghost predicate PeopleOnFile(t: Tables)
  {
    forall a :: a in t.assignments ==> exists p :: p in t.people && p.id == a.personId
  }

  /** `order` lists each project with assignments exactly once. */
  ghost predicate VisitOrder(order: seq<int>, byProject: map<int, seq<Assignment>>)
  {
    (forall p :: p in order <==> p in byProject)
    && forall i, j :: 0 <= i < j < |order| ==> order[i] != order[j]
  }

  /** The projects visited, in order: the ranked projects sorted stably by
      descending priority. */
  function VisitSequence(order: seq<int>, reqs: map<int, Requirement>): seq<int>
  {
    Ids(SortByPriority(Rank(order, reqs).ranked))
  }

  lemma VisitSequenceVisitable(order: seq<int>, byProject: map<int, seq<Assignment>>,
                               reqs: map<int, Requirement>)
    requires VisitOrder(order, byProject)
    ensures Visitable(VisitSequence(order, reqs), byProject, reqs)
  {
    var ranked := Rank(order, reqs).ranked;
    var sorted := SortByPriority(ranked);
    RankCovers(order, reqs);
    forall p | p in Ids(sorted)
      ensures p in byProject && p in reqs
    {
      var k :| 0 <= k < |sorted| && Ids(sorted)[k] == p;
      assert sorted[k] in multiset(sorted);
      assert sorted[k] in ranked;
    }
  }

  lemma StaffedFromFile(t: Tables, period: PlanningPeriod, periodId: int)
    requires PeopleOnFile(t)
    ensures Staffed(ByProject(PeriodAssignments(t.assignments, periodId)),
                    InitialStates(t.people, period, t).Keys)
  {
    var byProject: map<int, seq<Assignment>> := ByProject(PeriodAssignments(t.assignments, periodId));
    var m := InitialStates(t.people, period, t);
    forall p, k | p in byProject && 0 <= k < |byProject[p]|
      ensures byProject[p][k].personId in m.Keys
    {
      var a := byProject[p][k];
      assert a in OfProject(PeriodAssignments(t.assignments, periodId), p);
      var person :| person in t.people && person.id == a.personId;
    }
  }

  /** The optimizer's result for the database `t`. A missing period is an
      error; a period without assignments succeeds with one warning and
      nothing else. */
  function OptimizeSpec(t: Tables, periodId: int, order: seq<int>): (r: Result<Outcome, string>)
    requires PeopleOnFile(t)
    requires VisitOrder(order, ByProject(PeriodAssignments(t.assignments, periodId)))
    ensures PeriodById(t.periods, periodId).None? <==> r.Err?
    ensures PeriodById(t.periods, periodId).Some? && PeriodAssignments(t.assignments, periodId) == []
            ==> r == Ok(Outcome([], [], [NoAssignments]))
  {
    match PeriodById(t.periods, periodId)
    case None => Err("Failed to fetch planning period")
    case Some(period) =>
      var pas := PeriodAssignments(t.assignments, periodId);
      if pas == [] then Ok(Outcome([], [], [NoAssignments]))
      else
        var byProject := ByProject(pas);
        var reqs := RequirementsMap(t.requirements, periodId);
        VisitSequenceVisitable(order, byProject, reqs);
        StaffedFromFile(t, period, periodId);
        var run := RunProjects(Run(InitialStates(t.people, period, t), [], []),
                               VisitSequence(order, reqs), byProject, reqs);
        Ok(Outcome(run.calculations, run.infeasible, Rank(order, reqs).warnings))
  }

  /** On a period with assignments, the warnings name exactly the projects
      with assignments but no requirement, and the projects are visited in
      non-increasing priority, each at most once. */
  lemma OptimizeWarningsAndOrder(t: Tables, periodId: int, order: seq<int>)
    requires PeopleOnFile(t)
    requires VisitOrder(order, ByProject(PeriodAssignments(t.assignments, periodId)))
    requires OptimizeSpec(t, periodId, order).Ok?
    requires PeriodAssignments(t.assignments, periodId) != []
    ensures forall w :: w in OptimizeSpec(t, periodId, order).value.warnings <==>
      w.MissingRequirement? && w.projectId in ByProject(PeriodAssignments(t.assignments, periodId))
      && w.projectId !in RequirementsMap(t.requirements, periodId)
    ensures SortedByPriority(SortByPriority(Rank(order, RequirementsMap(t.requirements, periodId)).ranked))
  {
    var reqs := RequirementsMap(t.requirements, periodId);
    RankCovers(order, reqs);
    SortIsSorted(Rank(order, reqs).ranked);
  }

  /** On a period with assignments, every calculation is for an assignment
      of the period, and every person state stays valid. */
  lemma OptimizeCalculationsOwned(t: Tables, periodId: int, order: seq<int>)
    requires PeopleOnFile(t)
    requires VisitOrder(order, ByProject(PeriodAssignments(t.assignments, periodId)))
    requires OptimizeSpec(t, periodId, order).Ok?
    ensures forall c :: c in OptimizeSpec(t, periodId, order).value.calculations ==>
      exists a :: a in t.assignments && a.periodId == periodId && a.id == c.assignmentId
  {
    var period := PeriodById(t.periods, periodId).value;
    var pas := PeriodAssignments(t.assignments, periodId);
    if pas != [] {
      var byProject := ByProject(pas);
      var reqs := RequirementsMap(t.requirements, periodId);
      var ids := VisitSequence(order, reqs);
      VisitSequenceVisitable(order, byProject, reqs);
      StaffedFromFile(t, period, periodId);
      var run0 := Run(InitialStates(t.people, period, t), [], []);
      RunCalculationsOwned(run0, ids, byProject, reqs);
      forall c | c in OptimizeSpec(t, periodId, order).value.calculations
        ensures exists a :: a in t.assignments && a.periodId == periodId && a.id == c.assignmentId
      {
        var a :| OfVisited(a, ids, byProject) && a.id == c.assignmentId;
        var p :| p in ids && p in byProject && a in byProject[p];
        assert a in pas;
      }
    }
  }

  /** The optimizer as one command: the loads, the loops, and the write-back
      of every calculation with the timestamp `now`. */
  method Optimize(db: Database, periodId: int, order: seq<int>, now: string)
    returns (r: Result<Outcome, string>)
    requires PeopleOnFile(db.Snapshot())
    requires VisitOrder(order, ByProject(PeriodAssignments(db.assignments, periodId)))
    modifies db`assignments
    ensures r == OptimizeSpec(old(db.Snapshot()), periodId, order)
    ensures r.Ok? ==> db.assignments == WriteAll(old(db.assignments), r.value.calculations, now)
    ensures r.Err? ==> db.assignments == old(db.assignments)
  {
    var t := db.Snapshot();
    var found := PeriodById(db.periods, periodId);
    if found.None? {
      return Err("Failed to fetch planning period");
    }
    var period := found.value;
    var pas := PeriodAssignments(db.assignments, periodId);
    if pas == [] {
      return Ok(Outcome([], [], [NoAssignments]));
    }
    var states := InitPersonStates(db.people, period, t);
    var reqs := RequirementsMap(db.requirements, periodId);
    var byProject := GroupAssignments(pas);
    var ranked, warnings := RankProjects(order, reqs);
    var sorted := SortByPriority(ranked);
    var groups := GroupByPriority(sorted);
    GroupsFlatten(sorted);
    IdsFlatten(PriorityGroups(sorted));
    VisitSequenceVisitable(order, byProject, reqs);
    StaffedFromFile(t, period, periodId);
    var after, calculations, infeasible := ProcessGroups(states, groups, byProject, reqs);
    WriteBack(db, calculations, now);
    r := Ok(Outcome(calculations, infeasible, warnings));
  }
}
