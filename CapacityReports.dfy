/**
 * The capacity reports over a planning period: a person's capacity (how much
 * of their available time the optimizer handed out), a project's staffing
 * (how many effective hours it got against its requirement) and the overview
 * that lists both for every person and every project with a requirement.
 * The reports only read the tables. The allocation percentages and effective
 * hours they add up are the optimizer's cached columns, read as 0 where the
 * cache is empty.
 */
module CapacityReports {
  import opened Base
  import opened Tables
  import opened Availability
  import Optimizer

  /** A project whose staffing reaches this percentage counts as viable
      (99.95 rounds to 100.0 on display). */
  const ViabilityThreshold: real := 99.95

  /** The cached allocation percentage of an assignment, 0 when none is stored. */
  function PctOf(a: Assignment): real { a.calcPct.GetOr(0.0) }

  /** The cached effective hours of an assignment, 0 when none are stored. */
  function EffectiveOf(a: Assignment): real { a.calcEffective.GetOr(0.0) }

  /** The hours that `pct` percent of `available` hours come to. */
  function HoursAt(available: real, pct: real): real { available * (pct / 100.0) }

  /** Allocated hours as a percentage of the available hours; 0 when there
      are no available hours. */
  function Utilization(hoursAllocated: real, available: real): (u: real)
    ensures available <= 0.0 ==> u == 0.0
    ensures u > 100.0 <==> available > 0.0 && hoursAllocated > available
  {
    if available > 0.0 then
      QuotientAboveHundred(hoursAllocated, available);
      (hoursAllocated / available) * 100.0
    else 0.0
  }

  /** x / y as a percentage exceeds 100 exactly when x exceeds y. */
  lemma QuotientAboveHundred(x: real, y: real)
    requires y > 0.0
    ensures (x / y) * 100.0 > 100.0 <==> x > y
  {
    assert (x / y) * y == x;
  }

  /** Effective hours as a percentage of the required hours; 0 when nothing
      (or less than nothing) is required. */
  function StaffingPct(effective: real, required: real): (pct: real)
    ensures required <= 0.0 ==> pct == 0.0
    ensures required > 0.0 ==> (pct >= 100.0 <==> effective >= required)
  {
    if required > 0.0 then (effective / required) * 100.0 else 0.0
  }

  // ---------------------------------------------------------------------
  // Arithmetic of the rollups
  // ---------------------------------------------------------------------

  lemma HoursAdd(available: real, x: real, y: real)
    ensures HoursAt(available, x) + HoursAt(available, y) == HoursAt(available, x + y)
  {
    assert (x + y) / 100.0 == x / 100.0 + y / 100.0;
  }

  /** With hours available, the utilization of `pct` percent of them is `pct`. */
  lemma UtilizationOfHours(available: real, pct: real)
    ensures available > 0.0 ==> Utilization(HoursAt(available, pct), available) == pct
  {
    if available > 0.0 {
      var q := pct / 100.0;
      assert available * q / available == q;
    }
  }

  /** Staffing reaches the threshold exactly when the effective hours reach
      99.95 percent of a positive requirement. */
  lemma ViableMeansNearlyRequired(effective: real, required: real)
    ensures StaffingPct(effective, required) >= ViabilityThreshold
            <==> required > 0.0 && effective >= required * 0.9995
  {
    if required > 0.0 {
      var q := effective / required;
      assert q * required == effective;
      assert StaffingPct(effective, required) == q * 100.0;
      assert q * 100.0 >= 99.95 <==> q >= 0.9995;
      assert (q - 0.9995) * required == effective - required * 0.9995;
      if q >= 0.9995 {
        assert (q - 0.9995) * required >= 0.0;
      } else {
        assert (0.9995 - q) * required > 0.0;
      }
    }
  }

  // ---------------------------------------------------------------------
  // A person's capacity
  // ---------------------------------------------------------------------

  /** One assignment in a person's report (the project is named by id; the
      name lookup is not modelled). */
  datatype AssignmentLine = AssignmentLine(assignmentId: int, projectId: int,
                                           allocationPct: real, effectiveHours: real)

  datatype PersonCapacity = PersonCapacity(
    person: Person,
    breakdown: Breakdown,
    allocatedHours: real,
    effectiveHours: real,
    utilization: real,
    overCommitted: bool,
    lines: seq<AssignmentLine>)

  function LineOf(a: Assignment): AssignmentLine
  {
    AssignmentLine(a.id, a.projectId, PctOf(a), EffectiveOf(a))
  }

  function Lines(pas: seq<Assignment>): (ls: seq<AssignmentLine>)
  {
    seq(|pas|, k requires 0 <= k < |pas| => LineOf(pas[k]))
  }

  /** The sum of the cached percentages, missing ones counting 0. */
  function SumPct(pas: seq<Assignment>): real
    decreases |pas|
  {
    if pas == [] then 0.0 else SumPct(pas[..|pas| - 1]) + PctOf(pas[|pas| - 1])
  }

  /** The sum of the cached effective hours, missing ones counting 0. */
  function SumEffective(pas: seq<Assignment>): real
    decreases |pas|
  {
    if pas == [] then 0.0 else SumEffective(pas[..|pas| - 1]) + EffectiveOf(pas[|pas| - 1])
  }

  /** The hours hoursAllocated across the assignments, each its percentage of
      the same available hours. */
  function AllocatedHours(available: real, pas: seq<Assignment>): real
    decreases |pas|
  {
    if pas == [] then 0.0
    else AllocatedHours(available, pas[..|pas| - 1]) + HoursAt(available, PctOf(pas[|pas| - 1]))
  }

  /** Adding up the hours is taking the summed percentage of the available hours. */
  lemma {:induction false} AllocatedIsSummedPct(available: real, pas: seq<Assignment>)
    ensures AllocatedHours(available, pas) == HoursAt(available, SumPct(pas))
    decreases |pas|
  {
    if pas != [] {
      var init := pas[..|pas| - 1];
      AllocatedIsSummedPct(available, init);
      HoursAdd(available, SumPct(init), PctOf(pas[|pas| - 1]));
    }
  }

  /** A person's capacity: utilization is the sum of their allocation
      percentages, and they are over-committed exactly when that sum
      exceeds 100 while they have hours available. */
  function PersonCapacityOf(person: Person, b: Breakdown, pas: seq<Assignment>): (c: PersonCapacity)
    ensures c.person == person && c.breakdown == b
    ensures c.allocatedHours == HoursAt(b.availableHours, SumPct(pas))
    ensures c.effectiveHours == SumEffective(pas)
    ensures c.utilization == if b.availableHours > 0.0 then SumPct(pas) else 0.0
    ensures c.overCommitted <==> b.availableHours > 0.0 && SumPct(pas) > 100.0
    ensures |c.lines| == |pas|
    ensures forall k :: 0 <= k < |pas| ==> c.lines[k].assignmentId == pas[k].id
  {
    var hoursAllocated := AllocatedHours(b.availableHours, pas);
    AllocatedIsSummedPct(b.availableHours, pas);
    UtilizationOfHours(b.availableHours, SumPct(pas));
    var u := Utilization(hoursAllocated, b.availableHours);
    PersonCapacity(person, b, hoursAllocated, SumEffective(pas), u, u > 100.0, Lines(pas))
  }

  /** With no cached results (for instance right after a cache
      invalidation) a person shows no allocation and is not over-committed. */
  lemma {:induction false} UncalculatedMeansIdle(person: Person, b: Breakdown, pas: seq<Assignment>)
    requires forall k :: 0 <= k < |pas| ==> pas[k].calcPct.None? && pas[k].calcEffective.None?
    ensures PersonCapacityOf(person, b, pas).allocatedHours == 0.0
    ensures PersonCapacityOf(person, b, pas).effectiveHours == 0.0
    ensures PersonCapacityOf(person, b, pas).utilization == 0.0
    ensures !PersonCapacityOf(person, b, pas).overCommitted
    decreases |pas|
  {
    if pas != [] {
      UncalculatedMeansIdle(person, b, pas[..|pas| - 1]);
    }
  }

  lemma LinesStep(pas: seq<Assignment>, i: int)
    requires 0 <= i < |pas|
    ensures SumEffective(pas[..i + 1]) == SumEffective(pas[..i]) + EffectiveOf(pas[i])
    ensures forall available: real ::
      AllocatedHours(available, pas[..i + 1]) == AllocatedHours(available, pas[..i]) + HoursAt(available, PctOf(pas[i]))
  {
    assert pas[..i + 1][..i] == pas[..i];
  }

  /** The loop over a person's assignments, shared by the overview and the
      single-person report. */
  method SumAssignments(available: real, pas: seq<Assignment>)
    returns (hoursAllocated: real, effective: real, lines: seq<AssignmentLine>)
    ensures hoursAllocated == AllocatedHours(available, pas)
    ensures effective == SumEffective(pas)
    ensures lines == Lines(pas)
  {
    hoursAllocated, effective, lines := 0.0, 0.0, [];
    var i := 0;
    while i < |pas|
      invariant 0 <= i <= |pas|
      invariant hoursAllocated == AllocatedHours(available, pas[..i])
      invariant effective == SumEffective(pas[..i])
      invariant |lines| == i && forall k :: 0 <= k < i ==> lines[k] == LineOf(pas[k])
    {
      var a := pas[i];
      var pct := a.calcPct.GetOr(0.0);
      var hours := a.calcEffective.GetOr(0.0);
      LinesStep(pas, i);
      hoursAllocated := hoursAllocated + HoursAt(available, pct);
      effective := effective + hours;
      lines := lines + [AssignmentLine(a.id, a.projectId, pct, hours)];
      i := i + 1;
    }
    assert pas[..|pas|] == pas;
  }

  /** A person's report from their availability and their assignments. */
  method PersonReport(person: Person, period: PlanningPeriod, t: Tables, pas: seq<Assignment>)
    returns (c: PersonCapacity)
    ensures c == PersonCapacityOf(person, PersonAvailability(person, period, t.absences, t.holidays,
                                                             t.jobAssignments, t.tasks), pas)
  {
    var b := CalculatePersonAvailableHours(person, period, t.absences, t.holidays, t.jobAssignments, t.tasks);
    var hoursAllocated, effective, lines := SumAssignments(b.availableHours, pas);
    var utilization := Utilization(hoursAllocated, b.availableHours);
    c := PersonCapacity(person, b, hoursAllocated, effective, utilization, utilization > 100.0, lines);
  }

  /** The assignments of one person, in table order. */
  function OfPerson(pas: seq<Assignment>, personId: int): (r: seq<Assignment>)
    ensures forall a :: a in r <==> a in pas && a.personId == personId
    decreases |pas|
  {
    if pas == [] then []
    else
      var last := pas[|pas| - 1];
      assert pas == pas[..|pas| - 1] + [last];
      OfPerson(pas[..|pas| - 1], personId) + (if last.personId == personId then [last] else [])
  }

  /** SELECT * FROM assignments WHERE person_id = ? AND planning_period_id = ? */
  function OfPersonInPeriod(rows: seq<Assignment>, personId: int, periodId: int): (r: seq<Assignment>)
    decreases |rows|
  {
    if rows == [] then []
    else
      var last := rows[|rows| - 1];
      OfPersonInPeriod(rows[..|rows| - 1], personId, periodId)
      + (if last.personId == personId && last.periodId == periodId then [last] else [])
  }

  /** Selecting by person and period at once is selecting the period's
      assignments and then the person's among them. */
  lemma {:induction false} OfPersonInPeriodSplit(rows: seq<Assignment>, personId: int, periodId: int)
    ensures OfPersonInPeriod(rows, personId, periodId)
            == OfPerson(Optimizer.PeriodAssignments(rows, periodId), personId)
    decreases |rows|
  {
    if rows != [] {
      var init := rows[..|rows| - 1];
      var last := rows[|rows| - 1];
      OfPersonInPeriodSplit(init, personId, periodId);
      var pas := Optimizer.PeriodAssignments(init, periodId);
      assert rows == init + [last];
      if last.periodId == periodId {
        assert Optimizer.PeriodAssignments(rows, periodId) == pas + [last];
        assert (pas + [last])[..|pas|] == pas;
      } else {
        assert Optimizer.PeriodAssignments(rows, periodId) == pas;
      }
    }
  }

  /** get_person_capacity: the person and the period must exist. */
  function PersonCapacitySpec(t: Tables, personId: int, periodId: int): (r: Result<PersonCapacity, string>)
    ensures PersonById(t.people, personId).None? ==> r == Err("Failed to fetch person")
    ensures PersonById(t.people, personId).Some? && PeriodById(t.periods, periodId).None?
            ==> r == Err("Failed to fetch planning period")
    ensures r.Ok? ==> r.value.person.id == personId
                      && |r.value.lines| == |OfPersonInPeriod(t.assignments, personId, periodId)|
  {
    match PersonById(t.people, personId)
    case None => Err("Failed to fetch person")
    case Some(person) =>
      match PeriodById(t.periods, periodId)
      case None => Err("Failed to fetch planning period")
      case Some(period) =>
        Ok(PersonCapacityOf(person, PersonAvailability(person, period, t.absences, t.holidays,
                                                       t.jobAssignments, t.tasks),
                            OfPersonInPeriod(t.assignments, personId, periodId)))
  }

  method GetPersonCapacity(db: Database, personId: int, periodId: int) returns (r: Result<PersonCapacity, string>)
    ensures r == PersonCapacitySpec(db.Snapshot(), personId, periodId)
  {
    var t := db.Snapshot();
    var found := PersonById(db.people, personId);
    if found.None? {
      return Err("Failed to fetch person");
    }
    var period := PeriodById(db.periods, periodId);
    if period.None? {
      return Err("Failed to fetch planning period");
    }
    var pas := OfPersonInPeriod(db.assignments, personId, periodId);
    var c := PersonReport(found.value, period.value, t, pas);
    r := Ok(c);
  }

  // ---------------------------------------------------------------------
  // A project's staffing
  // ---------------------------------------------------------------------

  /** One assigned person in a project's report. */
  datatype StaffingLine = StaffingLine(assignmentId: int, person: Person, allocationPct: real,
                                       productivityFactor: real, effectiveHours: real,
                                       breakdown: Breakdown)

  datatype ProjectStaffing = ProjectStaffing(
    projectId: int,
    requiredHours: real,
    allocatedHours: real,
    effectiveHours: real,
    staffingPct: real,
    viable: bool,
    shortfall: real,
    lines: seq<StaffingLine>)

  function StaffingLineOf(a: Assignment, person: Person, period: PlanningPeriod, t: Tables): StaffingLine
  {
    StaffingLine(a.id, person, PctOf(a), a.productivityFactor, EffectiveOf(a),
                 PersonAvailability(person, period, t.absences, t.holidays, t.jobAssignments, t.tasks))
  }

  /** The hours hoursAllocated to the project: each line's percentage of that
      person's own available hours. */
  function LinesAllocated(ls: seq<StaffingLine>): real
    decreases |ls|
  {
    if ls == [] then 0.0
    else LinesAllocated(ls[..|ls| - 1])
         + HoursAt(ls[|ls| - 1].breakdown.availableHours, ls[|ls| - 1].allocationPct)
  }

  function LinesEffective(ls: seq<StaffingLine>): real
    decreases |ls|
  {
    if ls == [] then 0.0 else LinesEffective(ls[..|ls| - 1]) + ls[|ls| - 1].effectiveHours
  }

  /** A project's staffing row: viable exactly when the effective hours
      reach 99.95 percent of a positive requirement; the shortfall is the
      missing hours of a project that is not viable and 0 otherwise. */
  function StaffingOf(projectId: int, required: real, ls: seq<StaffingLine>): (s: ProjectStaffing)
    ensures s.projectId == projectId && s.requiredHours == required && s.lines == ls
    ensures s.effectiveHours == LinesEffective(ls) && s.allocatedHours == LinesAllocated(ls)
    ensures s.viable <==> required > 0.0 && s.effectiveHours >= required * 0.9995
    ensures s.viable ==> s.shortfall == 0.0
    ensures !s.viable ==> s.shortfall == required - s.effectiveHours
    ensures required > 0.0 && !s.viable ==> s.shortfall > 0.0
  {
    var effective := LinesEffective(ls);
    var pct := StaffingPct(effective, required);
    ViableMeansNearlyRequired(effective, required);
    var viable := pct >= ViabilityThreshold;
    ProjectStaffing(projectId, required, LinesAllocated(ls), effective, pct, viable,
                    if !viable then required - effective else 0.0, ls)
  }

  /** The staffing row from the totals the loop over the lines added up. */
  method StaffingRow(projectId: int, required: real, hoursAllocated: real, effective: real,
                     lines: seq<StaffingLine>) returns (s: ProjectStaffing)
    requires hoursAllocated == LinesAllocated(lines) && effective == LinesEffective(lines)
    ensures s == StaffingOf(projectId, required, lines)
  {
    var pct := StaffingPct(effective, required);
    var viable := pct >= ViabilityThreshold;
    var shortfall := if !viable then required - effective else 0.0;
    s := ProjectStaffing(projectId, required, hoursAllocated, effective, pct, viable, shortfall, lines);
  }

  /** Every assignment's person is on file. */
  predicate AllKnown(pas: seq<Assignment>, people: seq<Person>)
  {
    forall k :: 0 <= k < |pas| ==> PersonById(people, pas[k].personId).Some?
  }

  lemma AllKnownSnoc(pas: seq<Assignment>, people: seq<Person>)
    requires pas != []
    ensures AllKnown(pas, people)
            <==> AllKnown(pas[..|pas| - 1], people) && PersonById(people, pas[|pas| - 1].personId).Some?
  {
    var init := pas[..|pas| - 1];
    assert forall k :: 0 <= k < |init| ==> init[k] == pas[k];
  }

  /** The overview's lines of a project: assignments whose person is not on
      file are skipped. */
  function KnownLines(pas: seq<Assignment>, period: PlanningPeriod, t: Tables): (ls: seq<StaffingLine>)
    ensures |ls| <= |pas|
    ensures forall l :: l in ls ==> l.person in t.people
    ensures AllKnown(pas, t.people) ==> |ls| == |pas|
    decreases |pas|
  {
    if pas == [] then []
    else
      var init := pas[..|pas| - 1];
      var a := pas[|pas| - 1];
      var ls := KnownLines(init, period, t);
      AllKnownSnoc(pas, t.people);
      match PersonById(t.people, a.personId)
      case None => ls
      case Some(person) => ls + [StaffingLineOf(a, person, period, t)]
  }

  /** get_project_staffing's lines: every assignment's person must be on file. */
  function StaffingLinesOrErr(pas: seq<Assignment>, period: PlanningPeriod, t: Tables): (r: Result<seq<StaffingLine>, string>)
    ensures r.Ok? <==> AllKnown(pas, t.people)
    ensures r.Err? ==> r.error == "Failed to fetch person"
    ensures r.Ok? ==> r.value == KnownLines(pas, period, t)
    decreases |pas|
  {
    if pas == [] then Ok([])
    else
      var init := pas[..|pas| - 1];
      var a := pas[|pas| - 1];
      AllKnownSnoc(pas, t.people);
      match StaffingLinesOrErr(init, period, t)
      case Err(e) => Err(e)
      case Ok(ls) =>
        match PersonById(t.people, a.personId)
        case None => Err("Failed to fetch person")
        case Some(person) => Ok(ls + [StaffingLineOf(a, person, period, t)])
  }

  lemma KnownLinesStep(pas: seq<Assignment>, i: int, period: PlanningPeriod, t: Tables)
    requires 0 <= i < |pas|
    ensures KnownLines(pas[..i + 1], period, t)
            == match PersonById(t.people, pas[i].personId)
               case None => KnownLines(pas[..i], period, t)
               case Some(person) => KnownLines(pas[..i], period, t) + [StaffingLineOf(pas[i], person, period, t)]
  {
    assert pas[..i + 1][..i] == pas[..i];
  }

  lemma LinesTotalsStep(ls: seq<StaffingLine>, l: StaffingLine)
    ensures LinesEffective(ls + [l]) == LinesEffective(ls) + l.effectiveHours
    ensures LinesAllocated(ls + [l]) == LinesAllocated(ls) + HoursAt(l.breakdown.availableHours, l.allocationPct)
  {
    assert (ls + [l])[..|ls|] == ls;
  }

  /** The overview's inner loop over a project's assignments. */
  method CollectKnownLines(pas: seq<Assignment>, period: PlanningPeriod, t: Tables)
    returns (hoursAllocated: real, effective: real, lines: seq<StaffingLine>)
    ensures lines == KnownLines(pas, period, t)
    ensures hoursAllocated == LinesAllocated(lines) && effective == LinesEffective(lines)
  {
    hoursAllocated, effective, lines := 0.0, 0.0, [];
    var i := 0;
    while i < |pas|
      invariant 0 <= i <= |pas|
      invariant lines == KnownLines(pas[..i], period, t)
      invariant hoursAllocated == LinesAllocated(lines) && effective == LinesEffective(lines)
    {
      var a := pas[i];
      KnownLinesStep(pas, i, period, t);
      var person := PersonById(t.people, a.personId);
      if person.Some? {
        var b := CalculatePersonAvailableHours(person.value, period, t.absences, t.holidays,
                                               t.jobAssignments, t.tasks);
        var pct := a.calcPct.GetOr(0.0);
        var hours := a.calcEffective.GetOr(0.0);
        var l := StaffingLine(a.id, person.value, pct, a.productivityFactor, hours, b);
        LinesTotalsStep(lines, l);
        hoursAllocated := hoursAllocated + HoursAt(b.availableHours, pct);
        effective := effective + hours;
        lines := lines + [l];
      }
      i := i + 1;
    }
    assert pas[..|pas|] == pas;
  }

  /** The single-project report's loop: a missing person ends it with an error. */
  method CollectLines(pas: seq<Assignment>, period: PlanningPeriod, t: Tables)
    returns (r: Result<seq<StaffingLine>, string>, hoursAllocated: real, effective: real)
    ensures r == StaffingLinesOrErr(pas, period, t)
    ensures r.Ok? ==> hoursAllocated == LinesAllocated(r.value) && effective == LinesEffective(r.value)
  {
    hoursAllocated, effective := 0.0, 0.0;
    var lines: seq<StaffingLine> := [];
    var i := 0;
    while i < |pas|
      invariant 0 <= i <= |pas|
      invariant StaffingLinesOrErr(pas[..i], period, t) == Ok(lines)
      invariant hoursAllocated == LinesAllocated(lines) && effective == LinesEffective(lines)
    {
      var a := pas[i];
      assert pas[..i + 1][..i] == pas[..i];
      var person := PersonById(t.people, a.personId);
      if person.None? {
        PrefixErr(pas, i + 1, period, t);
        return Err("Failed to fetch person"), hoursAllocated, effective;
      }
      var b := CalculatePersonAvailableHours(person.value, period, t.absences, t.holidays,
                                             t.jobAssignments, t.tasks);
      var pct := a.calcPct.GetOr(0.0);
      var hours := a.calcEffective.GetOr(0.0);
      var l := StaffingLine(a.id, person.value, pct, a.productivityFactor, hours, b);
      LinesTotalsStep(lines, l);
      hoursAllocated := hoursAllocated + HoursAt(b.availableHours, pct);
      effective := effective + hours;
      lines := lines + [l];
      i := i + 1;
    }
    assert pas[..|pas|] == pas;
    r := Ok(lines);
  }

  /** An error on a prefix of the assignments is the error of all of them. */
  lemma PrefixErr(pas: seq<Assignment>, i: int, period: PlanningPeriod, t: Tables)
    requires 0 <= i <= |pas|
    requires StaffingLinesOrErr(pas[..i], period, t).Err?
    ensures StaffingLinesOrErr(pas, period, t) == Err("Failed to fetch person")
  {
    var k :| 0 <= k < i && PersonById(t.people, pas[..i][k].personId).None?;
    assert pas[k] == pas[..i][k];
  }

  /** SELECT * FROM assignments WHERE project_id = ? AND planning_period_id = ? */
  function OfProjectInPeriod(rows: seq<Assignment>, projectId: int, periodId: int): (r: seq<Assignment>)
    decreases |rows|
  {
    if rows == [] then []
    else
      var last := rows[|rows| - 1];
      OfProjectInPeriod(rows[..|rows| - 1], projectId, periodId)
      + (if last.projectId == projectId && last.periodId == periodId then [last] else [])
  }

  /** Selecting by project and period at once is selecting the period's
      assignments and then the project's among them. */
  lemma {:induction false} OfProjectInPeriodSplit(rows: seq<Assignment>, projectId: int, periodId: int)
    ensures OfProjectInPeriod(rows, projectId, periodId)
            == Optimizer.OfProject(Optimizer.PeriodAssignments(rows, periodId), projectId)
    decreases |rows|
  {
    if rows != [] {
      var init := rows[..|rows| - 1];
      var last := rows[|rows| - 1];
      OfProjectInPeriodSplit(init, projectId, periodId);
      var pas := Optimizer.PeriodAssignments(init, periodId);
      assert rows == init + [last];
      if last.periodId == periodId {
        assert Optimizer.PeriodAssignments(rows, periodId) == pas + [last];
        assert (pas + [last])[..|pas|] == pas;
      } else {
        assert Optimizer.PeriodAssignments(rows, periodId) == pas;
      }
    }
  }

  /** get_project_staffing: the project, the period and the project's
      requirement in the period must exist, and so must every assigned person. */
  function ProjectStaffingSpec(t: Tables, projectId: int, periodId: int): (r: Result<ProjectStaffing, string>)
    ensures ProjectById(t.projects, projectId).None? ==> r == Err("Failed to fetch project")
    ensures ProjectById(t.projects, projectId).Some? && PeriodById(t.periods, periodId).None?
            ==> r == Err("Failed to fetch planning period")
    ensures ProjectById(t.projects, projectId).Some? && PeriodById(t.periods, periodId).Some?
            && RequirementFor(t.requirements, projectId, periodId).None?
            ==> r == Err("Failed to fetch project requirement")
    ensures r.Ok? ==> r.value.projectId == projectId
                      && RequirementFor(t.requirements, projectId, periodId).Some?
                      && r.value.requiredHours == RequirementFor(t.requirements, projectId, periodId).value.requiredHours
  {
    match ProjectById(t.projects, projectId)
    case None => Err("Failed to fetch project")
    case Some(project) =>
      match PeriodById(t.periods, periodId)
      case None => Err("Failed to fetch planning period")
      case Some(period) =>
        match RequirementFor(t.requirements, projectId, periodId)
        case None => Err("Failed to fetch project requirement")
        case Some(req) =>
          match StaffingLinesOrErr(OfProjectInPeriod(t.assignments, projectId, periodId), period, t)
          case Err(e) => Err(e)
          case Ok(ls) => Ok(StaffingOf(projectId, req.requiredHours, ls))
  }

  method GetProjectStaffing(db: Database, projectId: int, periodId: int) returns (r: Result<ProjectStaffing, string>)
    ensures r == ProjectStaffingSpec(db.Snapshot(), projectId, periodId)
  {
    var t := db.Snapshot();
    var project := ProjectById(db.projects, projectId);
    if project.None? {
      return Err("Failed to fetch project");
    }
    var period := PeriodById(db.periods, periodId);
    if period.None? {
      return Err("Failed to fetch planning period");
    }
    var req := RequirementFor(db.requirements, projectId, periodId);
    if req.None? {
      return Err("Failed to fetch project requirement");
    }
    var pas := OfProjectInPeriod(db.assignments, projectId, periodId);
    var lines, hoursAllocated, effective := CollectLines(pas, period.value, t);
    if lines.Err? {
      return Err(lines.error);
    }
    var s := StaffingRow(projectId, req.value.requiredHours, hoursAllocated, effective, lines.value);
    r := Ok(s);
  }

  // ---------------------------------------------------------------------
  // The overview
  // ---------------------------------------------------------------------

  datatype Overview = Overview(
    totalPeople: int,
    totalProjects: int,
    overCommittedPeople: int,
    underStaffedProjects: int,
    people: seq<PersonCapacity>,
    staffing: seq<ProjectStaffing>)

  /** One person's row of the overview: their capacity over their own
      assignments of the period. */
  function PersonRow(p: Person, period: PlanningPeriod, t: Tables, pas: seq<Assignment>): PersonCapacity
  {
    PersonCapacityOf(p, PersonAvailability(p, period, t.absences, t.holidays, t.jobAssignments, t.tasks),
                     OfPerson(pas, p.id))
  }

  /** Every person's capacity over the period's assignments. */
  function PeopleReport(people: seq<Person>, period: PlanningPeriod, t: Tables, pas: seq<Assignment>)
    : (cs: seq<PersonCapacity>)
    ensures |cs| == |people|
    decreases |people|
  {
    if people == [] then []
    else
      var p := people[|people| - 1];
      PeopleReport(people[..|people| - 1], period, t, pas) + [PersonRow(p, period, t, pas)]
  }

  /** The k-th row of the people report is the k-th person's capacity. */
  lemma {:induction false} PeopleReportRow(people: seq<Person>, period: PlanningPeriod, t: Tables,
                                           pas: seq<Assignment>, k: int)
    requires 0 <= k < |people|
    ensures PeopleReport(people, period, t, pas)[k]
            == PersonCapacityOf(people[k], PersonAvailability(people[k], period, t.absences, t.holidays,
                                                             t.jobAssignments, t.tasks),
                                OfPerson(pas, people[k].id))
    decreases |people|
  {
    if k < |people| - 1 {
      PeopleReportRow(people[..|people| - 1], period, t, pas, k);
    }
  }

  /** One row per project that has a requirement in the period, in project order. */
  function ProjectsReport(projects: seq<Project>, reqs: map<int, Requirement>, period: PlanningPeriod,
                          t: Tables, pas: seq<Assignment>): (ss: seq<ProjectStaffing>)
    ensures |ss| <= |projects|
    ensures forall s :: s in ss ==>
              s.projectId in reqs
              && s == StaffingOf(s.projectId, reqs[s.projectId].requiredHours,
                                 KnownLines(Optimizer.OfProject(pas, s.projectId), period, t))
    ensures forall p :: p in projects && p.id in reqs ==> exists s :: s in ss && s.projectId == p.id
    decreases |projects|
  {
    if projects == [] then []
    else
      var p := projects[|projects| - 1];
      assert projects == projects[..|projects| - 1] + [p];
      var ss := ProjectsReport(projects[..|projects| - 1], reqs, period, t, pas);
      if p.id in reqs then
        var s := StaffingOf(p.id, reqs[p.id].requiredHours, KnownLines(Optimizer.OfProject(pas, p.id), period, t));
        assert s in ss + [s];
        ss + [s]
      else ss
  }

  /** The number of over-committed people in a report. */
  function CountOverCommitted(cs: seq<PersonCapacity>): (n: int)
    ensures 0 <= n <= |cs|
    decreases |cs|
  {
    if cs == [] then 0
    else CountOverCommitted(cs[..|cs| - 1]) + (if cs[|cs| - 1].overCommitted then 1 else 0)
  }

  /** The number of non-viable projects in a report. */
  function CountUnderStaffed(ss: seq<ProjectStaffing>): (n: int)
    ensures 0 <= n <= |ss|
    decreases |ss|
  {
    if ss == [] then 0
    else CountUnderStaffed(ss[..|ss| - 1]) + (if ss[|ss| - 1].viable then 0 else 1)
  }

  /** A count is 0 exactly when no row is flagged. */
  lemma {:induction false} CountsAreZeroIffNoneFlagged(cs: seq<PersonCapacity>, ss: seq<ProjectStaffing>)
    ensures CountOverCommitted(cs) == 0 <==> forall k :: 0 <= k < |cs| ==> !cs[k].overCommitted
    ensures CountUnderStaffed(ss) == 0 <==> forall k :: 0 <= k < |ss| ==> ss[k].viable
    decreases |cs| + |ss|
  {
    if cs != [] {
      CountsAreZeroIffNoneFlagged(cs[..|cs| - 1], ss);
      assert forall k :: 0 <= k < |cs| - 1 ==> cs[..|cs| - 1][k] == cs[k];
    }
    if ss != [] {
      CountsAreZeroIffNoneFlagged(cs, ss[..|ss| - 1]);
      assert forall k :: 0 <= k < |ss| - 1 ==> ss[..|ss| - 1][k] == ss[k];
    }
  }

  /** get_capacity_overview: every person's capacity and the staffing of
      every project with a requirement in the period, with the counts. */
  function OverviewSpec(t: Tables, periodId: int): (r: Result<Overview, string>)
    ensures PeriodById(t.periods, periodId).None? <==> r == Err("Failed to fetch planning period")
    ensures r.Ok? ==> r.value.totalPeople == |t.people| == |r.value.people|
                      && r.value.totalProjects == |r.value.staffing|
                      && 0 <= r.value.overCommittedPeople <= r.value.totalPeople
                      && 0 <= r.value.underStaffedProjects <= r.value.totalProjects
  {
    match PeriodById(t.periods, periodId)
    case None => Err("Failed to fetch planning period")
    case Some(period) =>
      var pas := Optimizer.PeriodAssignments(t.assignments, periodId);
      var reqs := Optimizer.RequirementsMap(t.requirements, periodId);
      var people := PeopleReport(t.people, period, t, pas);
      var staffing := ProjectsReport(t.projects, reqs, period, t, pas);
      Ok(Overview(|t.people|, |staffing|, CountOverCommitted(people), CountUnderStaffed(staffing),
                  people, staffing))
  }

  /** The rows of the overview: only projects with a requirement in the
      period appear, each with that requirement's hours, and each of them does. */
  lemma OverviewProjects(t: Tables, periodId: int)
    requires OverviewSpec(t, periodId).Ok?
    ensures forall s :: s in OverviewSpec(t, periodId).value.staffing ==>
      exists q :: q in t.requirements && q.periodId == periodId && q.projectId == s.projectId
                  && q.requiredHours == s.requiredHours
    ensures forall p, q :: p in t.projects && q in t.requirements && q.periodId == periodId && q.projectId == p.id ==>
              exists s :: s in OverviewSpec(t, periodId).value.staffing && s.projectId == p.id
  {
    var reqs := Optimizer.RequirementsMap(t.requirements, periodId);
    forall s | s in OverviewSpec(t, periodId).value.staffing
      ensures exists q :: q in t.requirements && q.periodId == periodId && q.projectId == s.projectId
                          && q.requiredHours == s.requiredHours
    {
      assert reqs[s.projectId] in t.requirements;
    }
  }

  /** A person's own report is their row of the overview. */
  lemma PersonReportIsOverviewRow(t: Tables, periodId: int, k: int)
    requires OverviewSpec(t, periodId).Ok?
    requires 0 <= k < |t.people|
    requires forall i, j :: 0 <= i < j < |t.people| ==> t.people[i].id != t.people[j].id
    ensures PersonCapacitySpec(t, t.people[k].id, periodId) == Ok(OverviewSpec(t, periodId).value.people[k])
  {
    var period := PeriodById(t.periods, periodId).value;
    var person := t.people[k];
    var found := PersonById(t.people, person.id);
    assert found == Some(person) by {
      var j :| 0 <= j < |t.people| && t.people[j] == found.value;
      assert j == k;
    }
    var pas := Optimizer.PeriodAssignments(t.assignments, periodId);
    OfPersonInPeriodSplit(t.assignments, person.id, periodId);
    PeopleReportRow(t.people, period, t, pas, k);
  }

  /** A project's own staffing report, when it succeeds, is its row of the
      overview (under the UNIQUE(project_id, planning_period_id) key). */
  lemma ProjectReportIsOverviewRow(t: Tables, projectId: int, periodId: int)
    requires forall i, j :: 0 <= i < j < |t.requirements| ==>
      !(t.requirements[i].projectId == t.requirements[j].projectId
        && t.requirements[i].periodId == t.requirements[j].periodId)
    requires ProjectStaffingSpec(t, projectId, periodId).Ok?
    ensures OverviewSpec(t, periodId).Ok?
    ensures ProjectStaffingSpec(t, projectId, periodId).value in OverviewSpec(t, periodId).value.staffing
  {
    var project := ProjectById(t.projects, projectId).value;
    var period := PeriodById(t.periods, periodId).value;
    var req := RequirementFor(t.requirements, projectId, periodId).value;
    var pas := Optimizer.PeriodAssignments(t.assignments, periodId);
    var reqs := Optimizer.RequirementsMap(t.requirements, periodId);
    Optimizer.RequirementsMapAgrees(t.requirements, periodId, projectId);
    OfProjectInPeriodSplit(t.assignments, projectId, periodId);
    var ss := ProjectsReport(t.projects, reqs, period, t, pas);
    var row :| row in ss && row.projectId == project.id;
    assert row == ProjectStaffingSpec(t, projectId, periodId).value;
  }

  lemma PeopleReportStep(people: seq<Person>, i: int, period: PlanningPeriod, t: Tables, pas: seq<Assignment>)
    requires 0 <= i < |people|
    ensures PeopleReport(people[..i + 1], period, t, pas)
            == PeopleReport(people[..i], period, t, pas) + [PersonRow(people[i], period, t, pas)]
  {
    assert people[..i + 1][..i] == people[..i];
  }

  lemma ProjectsReportStep(projects: seq<Project>, i: int, reqs: map<int, Requirement>,
                           period: PlanningPeriod, t: Tables, pas: seq<Assignment>)
    requires 0 <= i < |projects|
    ensures ProjectsReport(projects[..i + 1], reqs, period, t, pas)
            == ProjectsReport(projects[..i], reqs, period, t, pas)
               + (if projects[i].id in reqs
                  then [StaffingOf(projects[i].id, reqs[projects[i].id].requiredHours,
                                   KnownLines(Optimizer.OfProject(pas, projects[i].id), period, t))]
                  else [])
  {
    assert projects[..i + 1][..i] == projects[..i];
  }

  lemma OverCommittedStep(cs: seq<PersonCapacity>, c: PersonCapacity)
    ensures CountOverCommitted(cs + [c]) == CountOverCommitted(cs) + (if c.overCommitted then 1 else 0)
  {
    assert (cs + [c])[..|cs|] == cs;
  }

  lemma UnderStaffedStep(ss: seq<ProjectStaffing>, s: ProjectStaffing)
    ensures CountUnderStaffed(ss + [s]) == CountUnderStaffed(ss) + (if s.viable then 0 else 1)
  {
    assert (ss + [s])[..|ss|] == ss;
  }

  /** One turn of the people loop: the report of the i-th person extends the
      report of the people before them. */
  method PeopleTurn(people: seq<Person>, i: int, period: PlanningPeriod, t: Tables, pas: seq<Assignment>)
    returns (c: PersonCapacity)
    requires 0 <= i < |people|
    ensures PeopleReport(people[..i + 1], period, t, pas) == PeopleReport(people[..i], period, t, pas) + [c]
  {
    c := PersonReport(people[i], period, t, OfPerson(pas, people[i].id));
    PeopleReportStep(people, i, period, t, pas);
  }

  /** The over-committed counter's update for one more row. */
  method TallyOverCommitted(cs: seq<PersonCapacity>, n: int, c: PersonCapacity) returns (m: int)
    requires n == CountOverCommitted(cs)
    ensures m == CountOverCommitted(cs + [c])
  {
    OverCommittedStep(cs, c);
    m := if c.overCommitted then n + 1 else n;
  }

  /** The people loop of the overview. */
  method PeopleLoop(people: seq<Person>, period: PlanningPeriod, t: Tables, pas: seq<Assignment>)
    returns (cs: seq<PersonCapacity>, overCommitted: int)
    ensures cs == PeopleReport(people, period, t, pas)
    ensures overCommitted == CountOverCommitted(cs)
  {
    cs, overCommitted := [], 0;
    var i := 0;
    while i < |people|
      invariant 0 <= i <= |people|
      invariant cs == PeopleReport(people[..i], period, t, pas)
      invariant overCommitted == CountOverCommitted(cs)
    {
      var c := PeopleTurn(people, i, period, t, pas);
      overCommitted := TallyOverCommitted(cs, overCommitted, c);
      cs := cs + [c];
      i := i + 1;
    }
    assert people[..|people|] == people;
  }

  /** The project loop of the overview. */
  method ProjectsLoop(projects: seq<Project>, reqs: map<int, Requirement>, period: PlanningPeriod,
                      t: Tables, pas: seq<Assignment>)
    returns (ss: seq<ProjectStaffing>, underStaffed: int)
    ensures ss == ProjectsReport(projects, reqs, period, t, pas)
    ensures underStaffed == CountUnderStaffed(ss)
  {
    ss, underStaffed := [], 0;
    var i := 0;
    while i < |projects|
      invariant 0 <= i <= |projects|
      invariant ss == ProjectsReport(projects[..i], reqs, period, t, pas)
      invariant underStaffed == CountUnderStaffed(ss)
    {
      var project := projects[i];
      ProjectsReportStep(projects, i, reqs, period, t, pas);
      if project.id in reqs {
        var hoursAllocated, effective, lines := CollectKnownLines(Optimizer.OfProject(pas, project.id), period, t);
        var s := StaffingRow(project.id, reqs[project.id].requiredHours, hoursAllocated, effective, lines);
        UnderStaffedStep(ss, s);
        if !s.viable {
          underStaffed := underStaffed + 1;
        }
        ss := ss + [s];
      }
      i := i + 1;
    }
    assert projects[..|projects|] == projects;
  }

  method GetCapacityOverview(db: Database, periodId: int) returns (r: Result<Overview, string>)
    ensures r == OverviewSpec(db.Snapshot(), periodId)
  {
    var t := db.Snapshot();
    var found := PeriodById(db.periods, periodId);
    if found.None? {
      return Err("Failed to fetch planning period");
    }
    var period := found.value;
    var reqs := Optimizer.RequirementsMap(db.requirements, periodId);
    var pas := Optimizer.PeriodAssignments(db.assignments, periodId);
    var people, overCommitted := PeopleLoop(db.people, period, t, pas);
    var staffing, underStaffed := ProjectsLoop(db.projects, reqs, period, t, pas);
    r := Ok(Overview(|db.people|, |staffing|, overCommitted, underStaffed, people, staffing));
  }
}
