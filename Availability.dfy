/**
 * How many hours a person has in a planning period: base hours from the
 * period's length and the person's working-day schedule, minus absences,
 * public holidays on working days, required overhead and weighted optional
 * overhead, floored at zero.
 */
module Availability {
  import opened Base
  import opened Calendar
  import opened WorkingDays
  import opened Formulas
  import opened Tables

  /** The figures the calculator reports (PersonAvailableHoursBreakdown);
      `optionalOverheadHours` is the raw, unweighted sum. */
  datatype Breakdown = Breakdown(
    availableHours: real,
    baseHours: real,
    absenceDays: int,
    absenceHours: real,
    holidayDays: int,
    holidayHours: real,
    overheadHours: real,
    optionalOverheadHours: real)

  /** Hours per working day: weekly hours spread over the working days, or 0
      for an empty schedule. */
  function HoursPerDay(hoursPerWeek: real, workingDayCount: real): (r: real)
    ensures workingDayCount <= 0.0 ==> r == 0.0
  {
    if workingDayCount > 0.0 then hoursPerWeek / workingDayCount else 0.0
  }

  // ---------------------------------------------------------------------
  // Absences
  // ---------------------------------------------------------------------

  /** The absence query: one of the person's absences that starts in the
      period, ends in the period, or spans it. */
  predicate AbsenceSelected(a: Absence, personId: int, ps: int, pe: int)
  {
    a.personId == personId
    && ((a.startDate >= ps && a.startDate <= pe)
        || (a.endDate >= ps && a.endDate <= pe)
        || (a.startDate <= ps && a.endDate >= pe))
  }

  function SelectAbsences(rows: seq<Absence>, personId: int, ps: int, pe: int): seq<Absence>
  {
    Filter(rows, a => AbsenceSelected(a, personId, ps, pe))
  }

  /** Sum of the stored `days` of the absences. */
  function SumDays(abs: seq<Absence>): int
    decreases |abs|
  {
    if abs == [] then 0 else SumDays(abs[..|abs| - 1]) + abs[|abs| - 1].days
  }

  /** The three-way query condition selects exactly the absences that
      intersect the period, for well-formed absences and periods. */
  lemma AbsenceSelectionIsOverlap(a: Absence, personId: int, ps: int, pe: int)
    requires a.startDate <= a.endDate && ps <= pe
    ensures AbsenceSelected(a, personId, ps, pe)
            <==> a.personId == personId && a.startDate <= pe && a.endDate >= ps
  {
  }

  /** Day `d` lies inside one of the absences. */
  predicate Covered(d: int, abs: seq<Absence>)
  {
    exists k :: 0 <= k < |abs| && abs[k].startDate <= d <= abs[k].endDate
  }

  /** The absence scan of the holiday loop: stops at the first absence that
      contains the day. */
  method IsAbsent(d: int, abs: seq<Absence>) returns (absent: bool)
    ensures absent == Covered(d, abs)
  {
    absent := false;
    var k := 0;
    while k < |abs|
      invariant 0 <= k <= |abs|
      invariant !absent
      invariant forall j :: 0 <= j < k ==> !(abs[j].startDate <= d <= abs[j].endDate)
    {
      if d >= abs[k].startDate && d <= abs[k].endDate {
        absent := true;
        break;
      }
      k := k + 1;
    }
  }

  // ---------------------------------------------------------------------
  // Holidays
  // ---------------------------------------------------------------------

  /** The holiday query: the country's holidays that intersect the period. */
  predicate HolidaySelected(h: Holiday, countryId: int, ps: int, pe: int)
  {
    h.countryId == countryId && h.startDate <= pe && h.endDate >= ps
  }

  function SelectHolidays(rows: seq<Holiday>, countryId: int, ps: int, pe: int): seq<Holiday>
  {
    Filter(rows, h => HolidaySelected(h, countryId, ps, pe))
  }

  /** A holiday day costs hours only on a working day not already absent. */
  predicate CountedHolidayDay(d: int, schedule: seq<Weekday>, abs: seq<Absence>)
  {
    IsWorkingDay(d, schedule) && !Covered(d, abs)
  }

  /** The counted days among lo .. hi. */
  function WorkingHolidayDays(lo: int, hi: int, schedule: seq<Weekday>, abs: seq<Absence>): (n: nat)
    ensures n <= if hi >= lo then hi - lo + 1 else 0
    decreases if hi >= lo then hi - lo + 1 else 0
  {
    if hi < lo then 0
    else WorkingHolidayDays(lo, hi - 1, schedule, abs) + (if CountedHolidayDay(hi, schedule, abs) then 1 else 0)
  }

  /** The counted days of one holiday: those of its overlap with the period. */
  function HolidayOverlapDays(h: Holiday, ps: int, pe: int, schedule: seq<Weekday>, abs: seq<Absence>): nat
  {
    var lo := Max(h.startDate, ps);
    var hi := Min(h.endDate, pe);
    if lo <= hi then WorkingHolidayDays(lo, hi, schedule, abs) else 0
  }

  function HolidayDaysTotal(hs: seq<Holiday>, ps: int, pe: int, schedule: seq<Weekday>, abs: seq<Absence>): nat
    decreases |hs|
  {
    if hs == [] then 0
    else HolidayDaysTotal(hs[..|hs| - 1], ps, pe, schedule, abs)
         + HolidayOverlapDays(hs[|hs| - 1], ps, pe, schedule, abs)
  }

  /** No day of lo .. hi is counted when every one of them is a non-working
      day or an absence day; every day is counted when all are working days
      and none is an absence day. */
  lemma {:induction false} WorkingHolidayDaysExtremes(lo: int, hi: int, schedule: seq<Weekday>, abs: seq<Absence>)
    ensures (forall d :: lo <= d <= hi ==> !CountedHolidayDay(d, schedule, abs))
            ==> WorkingHolidayDays(lo, hi, schedule, abs) == 0
    ensures lo <= hi && (forall d :: lo <= d <= hi ==> CountedHolidayDay(d, schedule, abs))
            ==> WorkingHolidayDays(lo, hi, schedule, abs) == hi - lo + 1
    decreases if hi >= lo then hi - lo + 1 else 0
  {
    if hi >= lo {
      WorkingHolidayDaysExtremes(lo, hi - 1, schedule, abs);
    }
  }

  /** A holiday whose days all fall outside the period contributes nothing. */
  lemma EmptyOverlapContributesNothing(h: Holiday, ps: int, pe: int, schedule: seq<Weekday>, abs: seq<Absence>)
    requires h.endDate < ps || h.startDate > pe || h.startDate > h.endDate
    ensures HolidayOverlapDays(h, ps, pe, schedule, abs) == 0
  {
  }

  // ---------------------------------------------------------------------
  // Overhead
  // ---------------------------------------------------------------------

  /** Hours of one task over the period: per week, per working day, or none
      for any other period label. */
  function TaskHours(t: OverheadTask, totalWeeks: real, workingDays: real): (r: real)
    ensures t.effortPeriod != "weekly" && t.effortPeriod != "daily" ==> r == 0.0
  {
    if t.effortPeriod == "weekly" then t.effortHours * totalWeeks
    else if t.effortPeriod == "daily" then t.effortHours * workingDays
    else 0.0
  }

  /** Required overhead, raw optional overhead and weighted optional overhead. */
  datatype OverheadTotals = OverheadTotals(required: real, optionalRaw: real, optionalWeighted: real)

  /** One task added to the running totals. */
  function AddTask(acc: OverheadTotals, t: OverheadTask, totalWeeks: real, workingDays: real): OverheadTotals
  {
    AddHours(acc, t.isOptional, TaskHours(t, totalWeeks, workingDays), t.optionalWeight)
  }

  /** `h` hours added as required overhead, or as optional overhead at `weight`. */
  function AddHours(acc: OverheadTotals, isOptional: bool, h: real, weight: real): OverheadTotals
  {
    if isOptional
    then acc.(optionalRaw := acc.optionalRaw + h, optionalWeighted := acc.optionalWeighted + h * weight)
    else acc.(required := acc.required + h)
  }

  /** Adding hours keeps weighted = raw * w when the added weight is w. */
  lemma AddHoursUniform(acc: OverheadTotals, isOptional: bool, h: real, weight: real, w: real)
    requires acc.optionalWeighted == acc.optionalRaw * w
    requires isOptional ==> weight == w
    ensures AddHours(acc, isOptional, h, weight).optionalWeighted
            == AddHours(acc, isOptional, h, weight).optionalRaw * w
  {
    if isOptional {
      AddScaled(acc.optionalWeighted, acc.optionalRaw, h, w);
    }
  }

  function TaskTotals(ts: seq<OverheadTask>, totalWeeks: real, workingDays: real): OverheadTotals
    decreases |ts|
  {
    if ts == [] then OverheadTotals(0.0, 0.0, 0.0)
    else AddTask(TaskTotals(ts[..|ts| - 1], totalWeeks, workingDays), ts[|ts| - 1], totalWeeks, workingDays)
  }

  lemma TaskTotalsSnoc(ts: seq<OverheadTask>, t: OverheadTask, totalWeeks: real, workingDays: real)
    ensures TaskTotals(ts + [t], totalWeeks, workingDays)
            == AddTask(TaskTotals(ts, totalWeeks, workingDays), t, totalWeeks, workingDays)
  {
    assert (ts + [t])[..|ts|] == ts;
  }

  function SelectJobAssignments(rows: seq<PersonJobAssignment>, personId: int, periodId: int): seq<PersonJobAssignment>
  {
    Filter(rows, (j: PersonJobAssignment) => j.personId == personId && j.periodId == periodId)
  }

  function TasksOfJob(tasks: seq<OverheadTask>, jobId: int): seq<OverheadTask>
  {
    Filter(tasks, (t: OverheadTask) => t.jobId == jobId)
  }

  /** The tasks of every assigned job, job by job. */
  function JobTasks(jas: seq<PersonJobAssignment>, tasks: seq<OverheadTask>): (r: seq<OverheadTask>)
    ensures forall t :: t in r ==> t in tasks
    decreases |jas|
  {
    if jas == [] then []
    else JobTasks(jas[..|jas| - 1], tasks) + TasksOfJob(tasks, jas[|jas| - 1].jobId)
  }

  lemma AddScaled(weighted: real, raw: real, h: real, w: real)
    requires weighted == raw * w
    ensures weighted + h * w == (raw + h) * w
  {
  }

  predicate WeighedAt(o: OverheadTotals, w: real)
  {
    o.optionalWeighted == o.optionalRaw * w
  }

  lemma AddTaskUniform(acc: OverheadTotals, t: OverheadTask, totalWeeks: real, workingDays: real, w: real)
    requires WeighedAt(acc, w)
    requires t.isOptional ==> t.optionalWeight == w
    ensures WeighedAt(AddTask(acc, t, totalWeeks, workingDays), w)
  {
    AddHoursUniform(acc, t.isOptional, TaskHours(t, totalWeeks, workingDays), t.optionalWeight, w);
  }

  /** When every optional task carries the same weight w, the weighted
      optional overhead is the raw optional overhead times w. */
  lemma {:induction false} UniformWeight(ts: seq<OverheadTask>, totalWeeks: real, workingDays: real, w: real)
    requires forall k :: 0 <= k < |ts| && ts[k].isOptional ==> ts[k].optionalWeight == w
    ensures WeighedAt(TaskTotals(ts, totalWeeks, workingDays), w)
    decreases |ts|
  {
    if ts != [] {
      var init := ts[..|ts| - 1];
      var t := ts[|ts| - 1];
      forall k | 0 <= k < |init| && init[k].isOptional
        ensures init[k].optionalWeight == w
      {
        assert init[k] == ts[k];
      }
      UniformWeight(init, totalWeeks, workingDays, w);
      var acc := TaskTotals(init, totalWeeks, workingDays);
      var next := TaskTotals(ts, totalWeeks, workingDays);
      assert next == AddTask(acc, t, totalWeeks, workingDays);
      AddTaskUniform(acc, t, totalWeeks, workingDays, w);
    }
  }

  // ---------------------------------------------------------------------
  // The breakdown
  // ---------------------------------------------------------------------

  /** The period's length in weeks: (end - start + 1) / 7. */
  function PeriodWeeks(ps: int, pe: int): real
  {
    (pe - ps + 1) as real / 7.0
  }

  /** Working days in the period, as the overhead of daily tasks counts them:
      the weeks times the scheduled days per week. */
  function PeriodWorkingDays(weeks: real, workingDayCount: nat): real
  {
    weeks * workingDayCount as real
  }

  /** Base hours: the scheduled working days times the hours per day, which
      is the number of weeks times the weekly hours when the schedule is not
      empty, and 0 when it is. */
  function BaseHours(weeks: real, workingDayCount: nat, hoursPerWeek: real): (r: real)
    ensures workingDayCount > 0 ==> r == weeks * hoursPerWeek
    ensures workingDayCount == 0 ==> r == 0.0
  {
    var count := workingDayCount as real;
    var hpd := HoursPerDay(hoursPerWeek, count);
    assert count > 0.0 ==> (weeks * count) * hpd == weeks * (hpd * count) && hpd * count == hoursPerWeek;
    (weeks * count) * hpd
  }

  /** Holiday days of a person: none without a country, otherwise the counted
      days of the country's holidays that intersect the period. */
  function PersonHolidayDays(countryId: Option<int>, holidays: seq<Holiday>, ps: int, pe: int,
                             schedule: seq<Weekday>, fetched: seq<Absence>): (n: nat)
    ensures countryId.None? ==> n == 0
  {
    match countryId
    case None => 0
    case Some(c) => HolidayDaysTotal(SelectHolidays(holidays, c, ps, pe), ps, pe, schedule, fetched)
  }

  /** Overhead of the jobs the person holds in the period. */
  function PersonOverhead(jobAssignments: seq<PersonJobAssignment>, tasks: seq<OverheadTask>,
                          personId: int, periodId: int, weeks: real, workingDays: real): OverheadTotals
  {
    TaskTotals(JobTasks(SelectJobAssignments(jobAssignments, personId, periodId), tasks), weeks, workingDays)
  }

  /** The overhead totals weigh optional hours with the stated weight when
      all optional tasks share it. */
  lemma PersonOverheadUniform(jobAssignments: seq<PersonJobAssignment>, tasks: seq<OverheadTask>,
                              personId: int, periodId: int, weeks: real, workingDays: real, w: real)
    requires forall t :: t in tasks && t.isOptional ==> t.optionalWeight == w
    ensures var o := PersonOverhead(jobAssignments, tasks, personId, periodId, weeks, workingDays);
      o.optionalWeighted == o.optionalRaw * w
  {
    var ts := JobTasks(SelectJobAssignments(jobAssignments, personId, periodId), tasks);
    forall k | 0 <= k < |ts| && ts[k].isOptional
      ensures ts[k].optionalWeight == w
    {
      assert ts[k] in ts;
      assert ts[k] in tasks;
    }
    UniformWeight(ts, weeks, workingDays, w);
  }

  /** calculate_person_available_hours over the four tables it queries. */
  function PersonAvailability(person: Person, period: PlanningPeriod, absences: seq<Absence>,
                              holidays: seq<Holiday>, jobAssignments: seq<PersonJobAssignment>,
                              tasks: seq<OverheadTask>): (b: Breakdown)
    ensures b.availableHours >= 0.0
    ensures person.countryId.None? ==> b.holidayDays == 0 && b.holidayHours == 0.0
    ensures b.absenceDays == SumDays(SelectAbsences(absences, person.id, period.startDate, period.endDate))
    ensures b.baseHours == BaseHours(PeriodWeeks(period.startDate, period.endDate),
                                     ParseWorkingDaysCount(person.workingDays), person.availableHoursPerWeek)
  {
    var weeks := PeriodWeeks(period.startDate, period.endDate);
    var count := ParseWorkingDaysCount(person.workingDays);
    var fetched := SelectAbsences(absences, person.id, period.startDate, period.endDate);
    Assemble(BaseHours(weeks, count, person.availableHoursPerWeek),
             HoursPerDay(person.availableHoursPerWeek, count as real),
             SumDays(fetched), person.countryId.Some?,
             PersonHolidayDays(person.countryId, holidays, period.startDate, period.endDate,
                               ParseWorkingDaysSet(person.workingDays), fetched),
             PersonOverhead(jobAssignments, tasks, person.id, period.id, weeks, PeriodWorkingDays(weeks, count)))
  }

  /** The final deductions: absence and holiday days at the hours per day,
      the overhead, and the floor at zero. */
  function Assemble(base: real, hpd: real, absenceDays: int, hasCountry: bool, holidayDays: int,
                    o: OverheadTotals): (b: Breakdown)
    ensures b.availableHours == MaxR(b.baseHours - b.absenceHours - b.holidayHours
                                     - o.required - o.optionalWeighted, 0.0)
    ensures b.overheadHours == o.required && b.optionalOverheadHours == o.optionalRaw
  {
    var absenceHours := absenceDays as real * hpd;
    var holidayHours := if hasCountry then holidayDays as real * hpd else 0.0;
    Breakdown(MaxR(base - absenceHours - holidayHours - o.required - o.optionalWeighted, 0.0),
              base, absenceDays, absenceHours, holidayDays, holidayHours, o.required, o.optionalRaw)
  }

  /** PersonAvailability in terms of its ingredients, for callers that
      computed them separately. */
  lemma PersonAvailabilityOf(person: Person, period: PlanningPeriod, absences: seq<Absence>,
                             holidays: seq<Holiday>, jobAssignments: seq<PersonJobAssignment>,
                             tasks: seq<OverheadTask>, base: real, hpd: real, absenceDays: int,
                             holidayDays: int, o: OverheadTotals)
    requires base == BaseHours(PeriodWeeks(period.startDate, period.endDate),
                               ParseWorkingDaysCount(person.workingDays), person.availableHoursPerWeek)
    requires hpd == HoursPerDay(person.availableHoursPerWeek, ParseWorkingDaysCount(person.workingDays) as real)
    requires absenceDays == SumDays(SelectAbsences(absences, person.id, period.startDate, period.endDate))
    requires holidayDays == PersonHolidayDays(person.countryId, holidays, period.startDate, period.endDate,
                                              ParseWorkingDaysSet(person.workingDays),
                                              SelectAbsences(absences, person.id, period.startDate, period.endDate))
    requires o == PersonOverhead(jobAssignments, tasks, person.id, period.id,
                                 PeriodWeeks(period.startDate, period.endDate),
                                 PeriodWorkingDays(PeriodWeeks(period.startDate, period.endDate),
                                                   ParseWorkingDaysCount(person.workingDays)))
    ensures PersonAvailability(person, period, absences, holidays, jobAssignments, tasks)
            == Assemble(base, hpd, absenceDays, person.countryId.Some?, holidayDays, o)
  {
    var weeks := PeriodWeeks(period.startDate, period.endDate);
    var count := ParseWorkingDaysCount(person.workingDays);
    var fetched := SelectAbsences(absences, person.id, period.startDate, period.endDate);
    assert PersonAvailability(person, period, absences, holidays, jobAssignments, tasks)
           == Assemble(BaseHours(weeks, count, person.availableHoursPerWeek),
                       HoursPerDay(person.availableHoursPerWeek, count as real),
                       SumDays(fetched), person.countryId.Some?,
                       PersonHolidayDays(person.countryId, holidays, period.startDate, period.endDate,
                                         ParseWorkingDaysSet(person.workingDays), fetched),
                       PersonOverhead(jobAssignments, tasks, person.id, period.id, weeks, PeriodWorkingDays(weeks, count)));
  }

  lemma AssembleMatchesFormula(base: real, hpd: real, absenceDays: int, hasCountry: bool,
                               holidayDays: int, o: OverheadTotals, w: real)
    requires o.optionalWeighted == o.optionalRaw * w
    ensures var b := Assemble(base, hpd, absenceDays, hasCountry, holidayDays, o);
      b.availableHours == AvailableHours(b.baseHours, b.absenceHours, b.holidayHours,
                                         b.overheadHours, b.optionalOverheadHours, w)
  {
  }

  /** When every optional task weighs w, the available hours are those of the
      closed-form helper applied to the reported figures. */
  lemma AvailabilityMatchesFormula(person: Person, period: PlanningPeriod, absences: seq<Absence>,
                                   holidays: seq<Holiday>, jobAssignments: seq<PersonJobAssignment>,
                                   tasks: seq<OverheadTask>, w: real)
    requires forall t :: t in tasks && t.isOptional ==> t.optionalWeight == w
    ensures var b := PersonAvailability(person, period, absences, holidays, jobAssignments, tasks);
      b.availableHours == AvailableHours(b.baseHours, b.absenceHours, b.holidayHours,
                                         b.overheadHours, b.optionalOverheadHours, w)
  {
    var weeks := PeriodWeeks(period.startDate, period.endDate);
    var count := ParseWorkingDaysCount(person.workingDays);
    var fetched := SelectAbsences(absences, person.id, period.startDate, period.endDate);
    var workingDays := PeriodWorkingDays(weeks, count);
    PersonOverheadUniform(jobAssignments, tasks, person.id, period.id, weeks, workingDays, w);
    var o := PersonOverhead(jobAssignments, tasks, person.id, period.id, weeks, workingDays);
    var base := BaseHours(weeks, count, person.availableHoursPerWeek);
    var hpd := HoursPerDay(person.availableHoursPerWeek, count as real);
    var holidayDays := PersonHolidayDays(person.countryId, holidays, period.startDate, period.endDate,
                                         ParseWorkingDaysSet(person.workingDays), fetched);
    PersonAvailabilityOf(person, period, absences, holidays, jobAssignments, tasks,
                         base, hpd, SumDays(fetched), holidayDays, o);
    AssembleMatchesFormula(base, hpd, SumDays(fetched), person.countryId.Some?, holidayDays, o, w);
  }

  /** Counted days of lo .. hi, walking the days one by one. */
  method WalkOverlap(lo: int, hi: int, schedule: seq<Weekday>, fetched: seq<Absence>) returns (n: nat)
    requires lo <= hi
    ensures n == WorkingHolidayDays(lo, hi, schedule, fetched)
  {
    n := 0;
    var d := lo;
    while d <= hi
      invariant lo <= d <= hi + 1
      invariant n == WorkingHolidayDays(lo, d - 1, schedule, fetched)
      decreases hi + 1 - d
    {
      if IsWorkingDay(d, schedule) {
        var absent := IsAbsent(d, fetched);
        if !absent {
          n := n + 1;
        }
      }
      d := d + 1;
    }
  }

  /** The holiday loop: the counted days of every fetched holiday's overlap
      with the period. */
  method CountHolidayDays(hs: seq<Holiday>, ps: int, pe: int, schedule: seq<Weekday>,
                          fetched: seq<Absence>) returns (total: nat)
    ensures total == HolidayDaysTotal(hs, ps, pe, schedule, fetched)
  {
    total := 0;
    var i := 0;
    while i < |hs|
      invariant 0 <= i <= |hs|
      invariant total == HolidayDaysTotal(hs[..i], ps, pe, schedule, fetched)
    {
      var lo := Max(hs[i].startDate, ps);
      var hi := Min(hs[i].endDate, pe);
      if lo <= hi {
        var n := WalkOverlap(lo, hi, schedule, fetched);
        total := total + n;
      }
      assert hs[..i + 1][..i] == hs[..i];
      i := i + 1;
    }
    assert hs[..|hs|] == hs;
  }

  /** The inner overhead loop: the tasks of one job added to the totals so far. */
  method AddJobTasks(acc: OverheadTotals, ghost done: seq<OverheadTask>, ts: seq<OverheadTask>,
                     weeks: real, workingDays: real) returns (o: OverheadTotals)
    requires acc == TaskTotals(done, weeks, workingDays)
    ensures o == TaskTotals(done + ts, weeks, workingDays)
  {
    o := acc;
    assert done + ts[..0] == done;
    var j := 0;
    while j < |ts|
      invariant 0 <= j <= |ts|
      invariant o == TaskTotals(done + ts[..j], weeks, workingDays)
    {
      o := AddTask(o, ts[j], weeks, workingDays);
      assert done + ts[..j + 1] == (done + ts[..j]) + [ts[j]];
      TaskTotalsSnoc(done + ts[..j], ts[j], weeks, workingDays);
      j := j + 1;
    }
    assert ts[..|ts|] == ts;
  }

  /** The overhead loop: for every job assignment, every task of its job. */
  method AccumulateOverhead(jas: seq<PersonJobAssignment>, tasks: seq<OverheadTask>,
                            weeks: real, workingDays: real) returns (o: OverheadTotals)
    ensures o == TaskTotals(JobTasks(jas, tasks), weeks, workingDays)
  {
    o := OverheadTotals(0.0, 0.0, 0.0);
    var i := 0;
    while i < |jas|
      invariant 0 <= i <= |jas|
      invariant o == TaskTotals(JobTasks(jas[..i], tasks), weeks, workingDays)
    {
      o := AddJobTasks(o, JobTasks(jas[..i], tasks), TasksOfJob(tasks, jas[i].jobId), weeks, workingDays);
      assert jas[..i + 1][..i] == jas[..i];
      i := i + 1;
    }
    assert jas[..|jas|] == jas;
  }

  /** The holiday part of the calculator: skipped for a person without a country. */
  method CountPersonHolidayDays(countryId: Option<int>, holidays: seq<Holiday>, ps: int, pe: int,
                                schedule: seq<Weekday>, fetched: seq<Absence>) returns (n: nat)
    ensures n == PersonHolidayDays(countryId, holidays, ps, pe, schedule, fetched)
  {
    n := 0;
    if countryId.Some? {
      n := CountHolidayDays(SelectHolidays(holidays, countryId.value, ps, pe), ps, pe, schedule, fetched);
    }
  }

  /** The calculator: the figures of PersonAvailability, with the holiday
      walk and the overhead accumulation done by the loops above. */
  method CalculatePersonAvailableHours(person: Person, period: PlanningPeriod, absences: seq<Absence>,
                                       holidays: seq<Holiday>, jobAssignments: seq<PersonJobAssignment>,
                                       tasks: seq<OverheadTask>) returns (b: Breakdown)
    ensures b == PersonAvailability(person, period, absences, holidays, jobAssignments, tasks)
  {
    var ps := period.startDate;
    var pe := period.endDate;
    var count := ParseWorkingDaysCount(person.workingDays);
    var schedule := ParseWorkingDaysSet(person.workingDays);
    var weeks := PeriodWeeks(ps, pe);
    var workingDays := PeriodWorkingDays(weeks, count);
    var hpd := HoursPerDay(person.availableHoursPerWeek, count as real);
    var base := BaseHours(weeks, count, person.availableHoursPerWeek);
    var fetched := SelectAbsences(absences, person.id, ps, pe);
    var absenceDays := SumDays(fetched);
    var holidayDays := CountPersonHolidayDays(person.countryId, holidays, ps, pe, schedule, fetched);
    var o := AccumulateOverhead(SelectJobAssignments(jobAssignments, person.id, period.id),
                                tasks, weeks, workingDays);
    b := Assemble(base, hpd, absenceDays, person.countryId.Some?, holidayDays, o);
    PersonAvailabilityOf(person, period, absences, holidays, jobAssignments, tasks,
                         base, hpd, absenceDays, holidayDays, o);
  }
}
