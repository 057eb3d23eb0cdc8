# Capacity planning core, modelled in Dafny

Capacity Plan is a desktop planner. It helps a team decide how much of each
person's time goes to which project in a planning period. Its back end keeps
these tables in SQLite:

- people, projects and planning periods;
- project requirements: the hours a project needs in a period, with a priority;
- assignments of people to projects, each with a productivity factor;
- absences;
- countries and their public holidays;
- jobs whose overhead tasks cost recurring hours.

This project models the back end's capacity engine and the commands that
change or report on those tables:

- **Working-day schedule** (`WorkingDays`, `Calendar`). A schedule is a
  comma-separated list such as `"Mon,Tue,Wed,Thu,Fri"`, parsed into a count and
  a list of weekdays. Dates are day numbers; day 1 is Monday 0001-01-01.
- **Closed-form formulas** (`Formulas`). These are the available-hours and
  effective-hours formulas, with the default weight of optional overhead.
- **Available hours of a person in a period** (`Availability`). This is the base
  hours less absence days, less holiday days that fall on working days not
  already absent, less required overhead and weighted optional overhead, never
  below zero.
- **Proportional optimizer** (`Allocation`, `Ranking`, `Optimizer`):
  - every person starts at 100 % of their available hours;
  - projects with a requirement are visited by descending priority, in groups
    of equal priority;
  - each project receives min(required, capacity) hours, split in proportion to
    every assignment's maximum contribution;
  - the percentages are debited from each person;
  - under-staffed projects are reported;
  - the results are written back to the assignments as a cache.
- **Capacity reports** (`CapacityReports`): the overview, one person's capacity
  and one project's staffing.
- **Commands** (`*Commands`). Each command becomes two members:
  - a function from the tables before the command to an `Effect`, which is the
    command's result together with the tables after it;
  - a method on the `Tables.Database` class that applies it in place.

  Database failures that the model cannot predict (a failing statement, a
  broken connection) are given as `Option<string>` parameters. Foreign keys,
  UNIQUE constraints, CHECK constraints and `ON DELETE CASCADE` are modelled
  from the schema.

Modules:

- `Base`: Option/Result, sums, filters, counts, ASCII upper case.
- `Calendar`, `WorkingDays`, `Formulas`, `Availability`: the capacity engine,
  first half.
- `Allocation`, `Ranking`, `Optimizer`: the optimizer.
- `Tables`: rows, the table value, the `Database` class, cascades.
- `CapacityReports`, `AssignmentCommands`, `LegacyCommands`,
  `HolidayCommands`, `CountryCommands`, `RequirementCommands`, `JobCommands`,
  `PeopleCommands`, `ProjectCommands`, `PlanningPeriodCommands`: one module per
  command file.

## Model

| member | source | states |
|---|---|---|
| Calendar.WeekdayPeriodic | src-tauri/src/capacity/mod.rs:39-42 | Weekdays repeat every seven days, so a schedule picks the same weekdays in every week |
| WorkingDays.Split | src-tauri/src/capacity/mod.rs:16 | Splitting on commas yields at least one piece, one more than there are commas |
| WorkingDays.JoinSplit | src-tauri/src/capacity/mod.rs:14-36 | Splitting a schedule on commas and joining the pieces again gives back the schedule |
| WorkingDays.SplitJoin | src-tauri/src/capacity/mod.rs:14-36 | Comma-free tokens joined with commas split back into exactly those tokens |
| WorkingDays.SplitPiecesNoComma | src-tauri/src/capacity/mod.rs:16 | No piece of a split contains a comma |
| WorkingDays.TrimStartShape | src-tauri/src/capacity/mod.rs:17 | Trimming the start drops exactly a prefix of white space and leaves a string that does not start with white space |
| WorkingDays.TrimEndShape | src-tauri/src/capacity/mod.rs:17 | Trimming the end drops exactly a suffix of white space and leaves a string that does not end with white space |
| WorkingDays.TrimIdempotent | src-tauri/src/capacity/mod.rs:25 | Trimming a token twice is trimming it once |
| WorkingDays.RecogniseAbbreviation | src-tauri/src/capacity/mod.rs:25-33 | A trimmed token names weekday w if and only if it is w's three-letter abbreviation |
| WorkingDays.RecognisedNoMoreThanCounted | src-tauri/src/capacity/mod.rs:14-36 | The parsed weekday list is never longer than the working-day count; the two are equal exactly when every non-blank token is a weekday abbreviation |
| WorkingDays.RecognisedMembership | src-tauri/src/capacity/mod.rs:22-36 | A weekday is in the parsed list if and only if some token trims to its abbreviation |
| WorkingDays.RecognisedMembershipAll | src-tauri/src/capacity/mod.rs:22-36 | For every weekday at once: it is in the parsed list exactly when some token trims to its abbreviation |
| WorkingDays.ParseWorkingDaysCount | src-tauri/src/capacity/mod.rs:13-18 | The count is at most the number of comma-separated tokens, and never less than the length of the parsed weekday list |
| WorkingDays.ParseWorkingDaysSet | src-tauri/src/capacity/mod.rs:21-35 | A weekday is in the parsed list exactly when some comma-separated token of the schedule trims to its abbreviation |
| WorkingDays.IsWorkingDay | src-tauri/src/capacity/mod.rs:38-41 | With no weekday configured no day is a working day |
| WorkingDays.WorkingDayWeekly | src-tauri/src/capacity/mod.rs:38-41 | A day and the same weekday k weeks later are both working days or both not |
| WorkingDays.ParseJoined | src-tauri/src/capacity/mod.rs:14-36 | The count and the weekday list of a comma-joined schedule are those of its tokens: non-blank tokens counted, recognised ones listed in order |
| WorkingDays.ParseThreeTokens | src-tauri/src/capacity/mod.rs:14-36 | A three-token schedule parses token by token |
| WorkingDays.EmptyScheduleHasNoWorkingDay | src-tauri/src/capacity/mod.rs:793-797 | An empty schedule counts no working day, and no date is a working day of it |
| WorkingDays.UnrecognisedTokenExample | src-tauri/src/capacity/mod.rs:744-750 | "Mon,InvalidDay,Wed" counts 3 working days but lists only Mon and Wed |
| WorkingDays.SpacedTokensExample | src-tauri/src/capacity/mod.rs:717-719 | White space around tokens is ignored: "Mon, Tue, Wed" counts 3 and lists Mon, Tue, Wed |
| WorkingDays.ScheduleExamples | src-tauri/src/capacity/mod.rs:760-797 | Monday 2024-01-08 is a working day of a Monday-to-Friday schedule; Saturday 2024-01-06 is not, but is one of a weekend schedule; an empty schedule has none |
| Formulas.AvailableHours | src-tauri/src/capacity/mod.rs:370-381 | The available hours are never negative, and equal base less all deductions (optional overhead weighted) whenever that is not negative |
| Formulas.EffectiveHours | src-tauri/src/capacity/mod.rs:347-353 | Effective hours are 0 when any factor is 0, and non-negative for non-negative factors |
| Formulas.AvailableHoursAntitone | src-tauri/src/capacity/mod.rs:370-381 | Larger deductions never leave more hours available |
| Formulas.AvailableHoursAntitoneInWeight | src-tauri/src/capacity/mod.rs:370-381 | A larger optional weight never leaves more hours available |
| Formulas.EffectiveHoursLinear | src-tauri/src/capacity/mod.rs:347-353 | Effective hours are additive in the allocation percentage |
| Formulas.EffectiveHoursOfShare | src-tauri/src/capacity/mod.rs:347-353 | At 100 % allocation the effective hours are the available hours times the productivity factor, and a percentage p yields p/100 of that |
| Formulas.EffectiveHoursExamples | src-tauri/src/capacity/mod.rs:801-852 | The effective hours of the test scenarios: full, half and zero allocation, zero productivity, zero hours, expert, master and trainee factors |
| Formulas.AvailableHoursExamples | src-tauri/src/capacity/mod.rs:856-931 | The available hours of the test scenarios, including every deduction combined and the floor at zero |
| Formulas.OptionalWeightExamples | src-tauri/src/capacity/mod.rs:934-969 | Optional overhead at weights 0, 0.5 and 1, and the default weight is 0.5 |
| Availability.HoursPerDay | src-tauri/src/capacity/mod.rs:174-178 | Hours per day are 0 for a schedule with no working day |
| Availability.AbsenceSelectionIsOverlap | src-tauri/src/capacity/mod.rs:184-191 | The three-part absence query selects exactly the person's absences that share a day with the period |
| Availability.IsAbsent | src-tauri/src/capacity/mod.rs:243-256 | The absence scan reports a day absent exactly when some fetched absence contains it |
| Availability.WorkingHolidayDays | src-tauri/src/capacity/mod.rs:236-264 | A day range counts at most as many holiday days as it has days |
| Availability.WorkingHolidayDaysExtremes | src-tauri/src/capacity/mod.rs:239-264 | No day is counted when each is a non-working or absent day; every day is counted when each is a working day and none is absent |
| Availability.EmptyOverlapContributesNothing | src-tauri/src/capacity/mod.rs:230-234 | A holiday that does not overlap the period adds no holiday day |
| Availability.TaskHours | src-tauri/src/capacity/mod.rs:305-311 | A task whose period is neither "weekly" nor "daily" costs no hours |
| Availability.AddHoursUniform | src-tauri/src/capacity/mod.rs:313-319 | Adding a task keeps the weighted optional overhead equal to the raw optional overhead times w when the task's weight is w |
| Availability.UniformWeight | src-tauri/src/capacity/mod.rs:291-321 | When every optional task has weight w, the weighted optional overhead is the raw optional overhead times w |
| Availability.JobTasks | src-tauri/src/capacity/mod.rs:294-303 | The tasks of the assigned jobs are all tasks of the table |
| Availability.BaseHours | src-tauri/src/capacity/mod.rs:170-181 | The base hours are the period's weeks times the weekly hours for a non-empty schedule, and 0 for an empty one |
| Availability.PersonHolidayDays | src-tauri/src/capacity/mod.rs:208-275 | A person without a country has no holiday days |
| Availability.PersonOverheadUniform | src-tauri/src/capacity/mod.rs:291-321 | A person's weighted optional overhead is the raw figure times w when all optional tasks share weight w |
| Availability.PersonAvailability | src-tauri/src/capacity/mod.rs:151-344 | The available hours are never negative; there are no holiday days without a country; the absence days are the summed days of the selected absences; the base hours follow the schedule |
| Availability.Assemble | src-tauri/src/capacity/mod.rs:323-343 | The available hours are the base less absence, holiday, required and weighted optional hours, floored at 0; the reported overhead is the required hours and the optional figure is the raw one |
| Availability.AssembleMatchesFormula | src-tauri/src/capacity/mod.rs:325-327 | The assembled available hours agree with the closed-form formula at weight w |
| Availability.AvailabilityMatchesFormula | src-tauri/src/capacity/mod.rs:323-327 | When all optional tasks weigh w, the calculator's available hours are the closed-form formula applied to its reported figures |
| Availability.WalkOverlap | src-tauri/src/capacity/mod.rs:236-264 | The day-by-day walk counts the working, non-absent days of the range |
| Availability.CountHolidayDays | src-tauri/src/capacity/mod.rs:223-268 | The holiday loop sums the counted days of each holiday's overlap with the period |
| Availability.AddJobTasks | src-tauri/src/capacity/mod.rs:304-320 | The inner overhead loop adds one job's tasks to the totals |
| Availability.AccumulateOverhead | src-tauri/src/capacity/mod.rs:294-321 | The overhead loop yields the totals of every task of every assigned job |
| Availability.CountPersonHolidayDays | src-tauri/src/capacity/mod.rs:208-275 | The holiday part is skipped without a country and otherwise counts as specified |
| Availability.CalculatePersonAvailableHours | src-tauri/src/capacity/mod.rs:151-344 | The calculator's loops produce exactly the breakdown of PersonAvailability |
| Allocation.CapacityOf | src-tauri/src/capacity/mod.rs:558-574 | A capacity carries its assignment's id, person and productivity factor and the person's current state |
| Allocation.Capacities | src-tauri/src/capacity/mod.rs:555-575 | One capacity per assignment, in order, each read from its person's state at the start of the project's turn |
| Allocation.CapacitiesWellFormed | src-tauri/src/capacity/mod.rs:555-575 | Capacities read from valid states and non-negative productivity factors are well formed |
| Allocation.TotalMaxHoursNonNegative | src-tauri/src/capacity/mod.rs:564-567 | The total capacity of well-formed capacities is non-negative |
| Allocation.AllocationPct | src-tauri/src/capacity/mod.rs:589-595 | The corrected conversion: 0 % without available hours or with a productivity factor of 0 or below; otherwise never above the remaining percentage |
| Allocation.AllocationPctAsWritten | src-tauri/src/capacity/mod.rs:589-595 | The conversion as written: 0 % without available hours; otherwise at most the remaining percentage, all of it at factor 0, and the corrected figure at a positive factor |
| Allocation.CalculationOf | src-tauri/src/capacity/mod.rs:609-613 | A calculation is recorded under its assignment's id |
| Allocation.Calculations | src-tauri/src/capacity/mod.rs:582-613 | One calculation per capacity, in order |
| Allocation.Debit | src-tauri/src/capacity/mod.rs:604-607 | The person's remaining percentage drops by the allocation, floored at 0; available hours and every other person are untouched |
| Allocation.DebitAll | src-tauri/src/capacity/mod.rs:582-619 | Debiting a distribution keeps the same people |
| Allocation.ShortfallOf | src-tauri/src/capacity/mod.rs:622-640 | A shortfall is reported exactly when the achieved hours are below the requirement, with the difference as the shortfall |
| Allocation.AllocateProjectSpec | src-tauri/src/capacity/mod.rs:555-647 | One calculation per assignment when capacity is positive, none and no state change otherwise; the shortfall follows the achieved hours |
| Allocation.ShareOfPercentage | src-tauri/src/capacity/mod.rs:584-594 | The share converted back to a percentage is the remaining percentage scaled by the distributed fraction of the capacity |
| Allocation.ConversionRecoversShare | src-tauri/src/capacity/mod.rs:584-600 | With the corrected guard, the percentage lies between 0 and the remaining percentage, and its effective hours are exactly the capacity's proportional share |
| Allocation.SumOfShares | src-tauri/src/capacity/mod.rs:582-602 | A project's effective hours add up to the distributed hours' proportion of its capacity |
| Allocation.ProportionalSplit | src-tauri/src/capacity/mod.rs:578-620 | Each assignment receives its share of min(required, capacity), at a percentage between 0 and its person's remaining percentage |
| Allocation.ProjectAchievement | src-tauri/src/capacity/mod.rs:578-647 | A project achieves min(required, capacity) hours; it is short exactly when the requirement exceeds the capacity, by the difference; with no capacity nothing changes |
| Allocation.DebitAllShrinks | src-tauri/src/capacity/mod.rs:604-607 | Debiting keeps every state valid and available hours fixed, and never raises a remaining percentage |
| Allocation.ProjectKeepsStatesValid | src-tauri/src/capacity/mod.rs:555-620 | A project's turn keeps every state valid and available hours fixed, and never raises a remaining percentage |
| Allocation.AsWrittenZeroProductivity | src-tauri/src/capacity/mod.rs:589-594 | As written, an assignment with productivity 0 takes its person's whole remaining percentage and yields no effective hours |
| Allocation.ZeroProductivityCounterexample | src-tauri/src/capacity/mod.rs:582-620 | Two people with 100 hours, one at productivity 0, on a 50-hour project: as written the first loses all 100 %, corrected they keep it and the second covers the 50 hours |
| Allocation.NegativeProductivityExample | src-tauri/src/capacity/mod.rs:589-601 | A person at factor -0.5 next to a colleague at factor 1, on a 50-hour project: as written they take 100 % for -50 effective hours; the corrected conversion takes 0 % |
| Allocation.CollectCapacities | src-tauri/src/capacity/mod.rs:555-575 | The first loop computes the capacities and their total |
| Allocation.ConvertShare | src-tauri/src/capacity/mod.rs:584-600 | The loop body computes the calculation of one capacity |
| Allocation.Distribute | src-tauri/src/capacity/mod.rs:582-619 | The second loop records every calculation, debits every percentage and sums the effective hours |
| Allocation.AllocateProject | src-tauri/src/capacity/mod.rs:555-647 | The loops of one project's turn compute AllocateProjectSpec |
| Ranking.Rank | src-tauri/src/capacity/mod.rs:490-504 | Every project is either ranked or warned about |
| Ranking.RankCovers | src-tauri/src/capacity/mod.rs:492-504 | Exactly the projects with a requirement are ranked, at its priority, and exactly the others get a missing-requirement warning |
| Ranking.RankProjects | src-tauri/src/capacity/mod.rs:490-504 | The ranking loop builds Rank |
| Ranking.Insert | src-tauri/src/capacity/mod.rs:507 | Insertion adds the element and loses none |
| Ranking.SortByPriority | src-tauri/src/capacity/mod.rs:507 | The sorted ranking is a permutation of the ranking |
| Ranking.SortIsSorted | src-tauri/src/capacity/mod.rs:506-507 | The sorted ranking is in non-increasing priority |
| Ranking.SortIsStable | src-tauri/src/capacity/mod.rs:507 | Projects of equal priority keep their relative order |
| Ranking.PriorityGroups | src-tauri/src/capacity/mod.rs:510-526 | There are groups exactly when there are projects, and the last group ends with the last project |
| Ranking.GroupsFlatten | src-tauri/src/capacity/mod.rs:510-526 | Concatenating the groups gives back the ranking |
| Ranking.GroupsUniform | src-tauri/src/capacity/mod.rs:510-526 | Every group is non-empty and of one priority |
| Ranking.GroupsDecrease | src-tauri/src/capacity/mod.rs:509-526 | On a sorted ranking the group priorities strictly decrease, so each priority forms one group |
| Ranking.GroupLoopStep | src-tauri/src/capacity/mod.rs:514-523 | A project joins the open group when its priority equals the previous one, and otherwise closes it and opens a new group |
| Ranking.GroupByPriority | src-tauri/src/capacity/mod.rs:510-526 | The grouping loop yields the groups' project ids |
| Optimizer.InitialStates | src-tauri/src/capacity/mod.rs:470-481 | Every person gets a state |
| Optimizer.InitialStatesValid | src-tauri/src/capacity/mod.rs:470-481 | Every start state is valid and at 100 % |
| Optimizer.InitialStateOfPerson | src-tauri/src/capacity/mod.rs:424-481 | With unique ids, each person starts with their own available hours |
| Optimizer.InitPersonStates | src-tauri/src/capacity/mod.rs:427-481 | The loop builds InitialStates |
| Optimizer.RequirementsMap | src-tauri/src/capacity/mod.rs:442-445 | The map holds requirements of the period under their project, and every such project is a key |
| Optimizer.RequirementsMapAgrees | src-tauri/src/capacity/mod.rs:442-445 | Under the UNIQUE pair key the map finds exactly the requirement a direct lookup finds |
| Optimizer.OfProject | src-tauri/src/capacity/mod.rs:448-454 | A project's group holds exactly its assignments |
| Optimizer.ByProject | src-tauri/src/capacity/mod.rs:447-454 | Every assignment's project is a key, each key maps to that project's non-empty assignments in order, and other projects have none |
| Optimizer.GroupStep | src-tauri/src/capacity/mod.rs:447-454 | Filing one more assignment under its project keeps the grouping exact |
| Optimizer.GroupAssignments | src-tauri/src/capacity/mod.rs:447-454 | The grouping loop builds ByProject |
| Optimizer.Turn | src-tauri/src/capacity/mod.rs:536-647 | A turn keeps the same people |
| Optimizer.RunProjects | src-tauri/src/capacity/mod.rs:528-649 | The run over the visited projects keeps the same people |
| Optimizer.TurnOf | src-tauri/src/capacity/mod.rs:536-647 | A turn replaces the states with the project's, appends its calculations and appends its shortfall if any |
| Optimizer.RunCalculationsOwned | src-tauri/src/capacity/mod.rs:528-649 | Every calculation belongs to an assignment of a visited project, and every shortfall to a visited project |
| Optimizer.RunKeepsStatesValid | src-tauri/src/capacity/mod.rs:528-649 | The run keeps states valid and available hours fixed, and remaining percentages never rise |
| Optimizer.ProcessGroup | src-tauri/src/capacity/mod.rs:536-648 | The inner loop runs one priority group's turns |
| Optimizer.ProcessGroups | src-tauri/src/capacity/mod.rs:529-649 | The outer loop runs the turns of all groups in order |
| Optimizer.WriteCalculation | src-tauri/src/capacity/mod.rs:654-667 | The UPDATE stamps exactly the rows with the calculation's id |
| Optimizer.WriteAll | src-tauri/src/capacity/mod.rs:653-668 | The write-back keeps the number of rows |
| Optimizer.LastFor | src-tauri/src/capacity/mod.rs:653-668 | The last calculation for an id is one of them with that id; there is none when no calculation names it |
| Optimizer.WriteAllEffect | src-tauri/src/capacity/mod.rs:651-668 | Each row ends with the figures of the last calculation for its id, and unnamed rows are unchanged |
| Optimizer.WriteBack | src-tauri/src/capacity/mod.rs:651-668 | The UPDATE loop changes the assignments table as WriteAll says |
| Optimizer.OptimizeSpec | src-tauri/src/capacity/mod.rs:384-683 | A missing period is the only error; a period without assignments succeeds with only the no-assignments warning |
| Optimizer.OptimizeWarningsAndOrder | src-tauri/src/capacity/mod.rs:490-526 | Warnings name exactly the projects with assignments but no requirement, and projects are visited in non-increasing priority |
| Optimizer.OptimizeCalculationsOwned | src-tauri/src/capacity/mod.rs:384-683 | Every calculation is for an assignment of the period |
| Optimizer.Optimize | src-tauri/src/capacity/mod.rs:384-683 | The command returns OptimizeSpec and on success writes every calculation back; on error the assignments are untouched |
| CapacityReports.UtilizationOfHours | src-tauri/src/commands/capacity.rs:103-107 | With hours available, the utilization of p percent of them is p |
| CapacityReports.Utilization | src-tauri/src/commands/capacity.rs:103-109 | Utilization is 0 without available hours, and exceeds 100 exactly when hours are available and the allocated hours exceed them |
| CapacityReports.QuotientAboveHundred | src-tauri/src/commands/capacity.rs:103-109 | A quotient times 100 exceeds 100 exactly when the numerator exceeds the positive denominator |
| CapacityReports.StaffingPct | src-tauri/src/commands/capacity.rs:182-186 | Staffing is 0 without a positive requirement, and otherwise reaches 100 exactly when the effective hours reach the requirement |
| CapacityReports.ViableMeansNearlyRequired | src-tauri/src/commands/capacity.rs:182-189 | Staffing reaches 99.95 % exactly when a positive requirement is met to 99.95 % |
| CapacityReports.AllocatedIsSummedPct | src-tauri/src/commands/capacity.rs:75-86 | The summed allocated hours are the summed cached percentages of the available hours |
| CapacityReports.PersonCapacityOf | src-tauri/src/commands/capacity.rs:103-131 | Utilization is the summed percentage (0 without hours); over-committed exactly when it exceeds 100 with hours available; one line per assignment |
| CapacityReports.UncalculatedMeansIdle | src-tauri/src/commands/capacity.rs:79-112 | Without cached results a person shows no allocation and is not over-committed |
| CapacityReports.SumAssignments | src-tauri/src/commands/capacity.rs:75-101 | The per-assignment loop sums allocated and effective hours and builds the lines |
| CapacityReports.PersonReport | src-tauri/src/commands/capacity.rs:66-131 | A person's row is PersonCapacityOf their availability and assignments |
| CapacityReports.OfPerson | src-tauri/src/commands/capacity.rs:70-73 | The filter keeps exactly the person's assignments |
| CapacityReports.OfPersonInPeriodSplit | src-tauri/src/commands/capacity.rs:258-265 | Selecting by person and period is selecting the period's rows, then the person's |
| CapacityReports.PersonCapacitySpec | src-tauri/src/commands/capacity.rs:228-323 | A missing person, then a missing period, are errors; on success one line per assignment of the person in the period |
| CapacityReports.GetPersonCapacity | src-tauri/src/commands/capacity.rs:228-323 | The command returns PersonCapacitySpec |
| CapacityReports.StaffingOf | src-tauri/src/commands/capacity.rs:182-210 | Viable exactly when effective hours reach 99.95 % of a positive requirement; the shortfall is 0 when viable, otherwise the missing hours, which are positive for a positive requirement |
| CapacityReports.StaffingRow | src-tauri/src/commands/capacity.rs:182-210 | The row built from the loop totals is StaffingOf |
| CapacityReports.KnownLines | src-tauri/src/commands/capacity.rs:150-180 | Assignments of unknown people are skipped; all are kept when all are known |
| CapacityReports.StaffingLinesOrErr | src-tauri/src/commands/capacity.rs:375-407 | The single-project lines fail with the person-fetch error exactly when an assigned person is missing |
| CapacityReports.CollectKnownLines | src-tauri/src/commands/capacity.rs:146-180 | The overview's inner loop builds KnownLines and their totals |
| CapacityReports.CollectLines | src-tauri/src/commands/capacity.rs:371-407 | The single-project loop builds StaffingLinesOrErr and its totals |
| CapacityReports.PrefixErr | src-tauri/src/commands/capacity.rs:375-381 | A missing person on a prefix fails the whole report |
| CapacityReports.OfProjectInPeriodSplit | src-tauri/src/commands/capacity.rs:362-369 | Selecting by project and period is selecting the period's rows, then the project's |
| CapacityReports.ProjectStaffingSpec | src-tauri/src/commands/capacity.rs:326-437 | Missing project, period or requirement errors in that order; on success the requirement's hours are reported |
| CapacityReports.GetProjectStaffing | src-tauri/src/commands/capacity.rs:326-437 | The command returns ProjectStaffingSpec |
| CapacityReports.PeopleReport | src-tauri/src/commands/capacity.rs:62-132 | One row per person |
| CapacityReports.PeopleReportRow | src-tauri/src/commands/capacity.rs:66-131 | The k-th row is the k-th person's capacity |
| CapacityReports.ProjectsReport | src-tauri/src/commands/capacity.rs:134-212 | Rows only for projects with a requirement, each its StaffingOf; every such project has a row |
| CapacityReports.CountOverCommitted | src-tauri/src/commands/capacity.rs:109-112 | The count lies between 0 and the number of people |
| CapacityReports.CountUnderStaffed | src-tauri/src/commands/capacity.rs:196-198 | The count lies between 0 and the number of projects |
| CapacityReports.CountsAreZeroIffNoneFlagged | src-tauri/src/commands/capacity.rs:109-198 | A count is 0 exactly when no row is flagged |
| CapacityReports.OverviewSpec | src-tauri/src/commands/capacity.rs:11-225 | The overview fails exactly for a missing period; totals match the rows and the counts are bounded by them |
| CapacityReports.OverviewProjects | src-tauri/src/commands/capacity.rs:138-143 | Exactly the projects with a requirement in the period appear, with its hours |
| CapacityReports.PersonReportIsOverviewRow | src-tauri/src/commands/capacity.rs:228-323 | A person's own report equals their overview row |
| CapacityReports.ProjectReportIsOverviewRow | src-tauri/src/commands/capacity.rs:326-437 | A successful project report is one of the overview's rows |
| CapacityReports.PeopleTurn | src-tauri/src/commands/capacity.rs:66-132 | One turn of the people loop appends the next person's row to the report |
| CapacityReports.TallyOverCommitted | src-tauri/src/commands/capacity.rs:109-112 | The over-committed counter grows by one exactly for an over-committed row |
| CapacityReports.PeopleLoop | src-tauri/src/commands/capacity.rs:62-132 | The people loop builds the report and the over-committed count |
| CapacityReports.ProjectsLoop | src-tauri/src/commands/capacity.rs:134-212 | The project loop builds the rows and the under-staffed count |
| CapacityReports.GetCapacityOverview | src-tauri/src/commands/capacity.rs:11-225 | The command returns OverviewSpec |
| Tables.Database.Store | src-tauri/src/commands/requirements.rs:140-144 | A committed transaction replaces every table with the staged ones |
| Tables.InvalidateFor | src-tauri/src/commands/people.rs:117-130 | Clearing the cache keeps every row in place and clears exactly the referring rows |
| Tables.InvalidateKeepsRefs | src-tauri/src/commands/people.rs:117-122 | Clearing the cache changes no row's references |
| Tables.AssignmentsKept | src-tauri/src/commands/people.rs:132-140 | The cascade keeps exactly the assignments not referring to the deleted row |
| Tables.InvalidatedRowsAreCascaded | src-tauri/src/commands/people.rs:116-140 | The rows whose cache is cleared are exactly those the cascade removes |
| Tables.CascadeDelete | src-tauri/src/commands/people.rs:132-140 | The delete removes the referring assignments and leaves the country, holiday and job tables alone |
| Tables.InvalidateThenDelete | src-tauri/src/commands/people.rs:113-147 | A failing invalidation changes nothing; a failing delete keeps the invalidation; otherwise the cascade is applied |
| AssignmentCommands.AssignmentDates | src-tauri/src/commands/assignments.rs:62-88 | Omitted dates take the period's bounds; accepted exactly when period start ≤ start ≤ end ≤ period end; the start, end and order errors in that order |
| AssignmentCommands.OmittedDatesSpanPeriod | src-tauri/src/commands/assignments.rs:72-74 | Without dates an assignment spans its period |
| AssignmentCommands.ReviseRows | src-tauri/src/commands/assignments.rs:181-199 | The UPDATE rewrites exactly the rows with the id |
| AssignmentCommands.AssignmentById | src-tauri/src/commands/assignments.rs:111-118 | The fetch finds a row with the id, or none exists |
| AssignmentCommands.Insert | src-tauri/src/commands/assignments.rs:62-121 | Any failure of the insert leaves the tables as they were |
| AssignmentCommands.Create | src-tauri/src/commands/assignments.rs:31-122 | Any failure of create_assignment leaves the tables as they were |
| AssignmentCommands.Revise | src-tauri/src/commands/assignments.rs:154-211 | Any failure of the rewrite leaves the tables as they were |
| AssignmentCommands.Update | src-tauri/src/commands/assignments.rs:125-212 | Any failure of update_assignment leaves the tables as they were |
| AssignmentCommands.Delete | src-tauri/src/commands/assignments.rs:215-229 | Deleting removes exactly the rows with the id; a missing id is not an error |
| AssignmentCommands.RequirementCheckedFirst | src-tauri/src/commands/assignments.rs:40-60 | Without a requirement for the pair, create and update fail with their own messages and change nothing |
| AssignmentCommands.CreatedAssignmentIsValid | src-tauri/src/commands/assignments.rs:31-122 | A created assignment has a requirement and existing references, lies within its period in order, carries the input and an empty cache, and is appended under a fresh id |
| AssignmentCommands.UpdatedAssignmentIsValid | src-tauri/src/commands/assignments.rs:125-212 | An updated assignment passes the same checks, keeps its id and cache, other rows are unchanged, and a failure changes nothing |
| AssignmentCommands.UpdateReturnsStoredRow | src-tauri/src/commands/assignments.rs:201-211 | The update returns the row as stored |
| AssignmentCommands.InsertAssignment | src-tauri/src/commands/assignments.rs:62-121 | The method performs Insert on the database |
| AssignmentCommands.CreateAssignment | src-tauri/src/commands/assignments.rs:31-122 | The method performs Create on the database |
| AssignmentCommands.ReviseAssignment | src-tauri/src/commands/assignments.rs:154-211 | The method performs Revise on the database |
| AssignmentCommands.UpdateAssignment | src-tauri/src/commands/assignments.rs:125-212 | The method performs Update on the database |
| AssignmentCommands.DeleteAssignment | src-tauri/src/commands/assignments.rs:215-229 | The method performs Delete on the database |
| LegacyCommands.DeletePersonSpec | capacity-planner/src-tauri/src/commands/mod.rs:78-90 | A failure changes nothing; otherwise the person is gone |
| LegacyCommands.CreateAssignment | capacity-planner/src-tauri/src/commands/mod.rs:317-387 | The older create is the current one without the requirement check |
| LegacyCommands.UpdateAssignment | capacity-planner/src-tauri/src/commands/mod.rs:389-457 | The older update is the current one without the requirement check |
| LegacyCommands.DeletePerson | capacity-planner/src-tauri/src/commands/mod.rs:78-90 | The method performs DeletePersonSpec |
| LegacyCommands.LegacyCreateSkipsRequirementCheck | capacity-planner/src-tauri/src/commands/mod.rs:317-387 | The older create accepts everything the current one does, identically, and beyond that only pairs without a requirement |
| LegacyCommands.LegacyUpdateSkipsRequirementCheck | capacity-planner/src-tauri/src/commands/mod.rs:389-457 | The same for update |
| LegacyCommands.DeletePersonAgreesWithCurrent | capacity-planner/src-tauri/src/commands/mod.rs:78-90 | A successful older delete leaves the same tables as the current one |
| PeopleCommands.DeletePerson | src-tauri/src/commands/people.rs:113-147 | The method performs the invalidation and the cascading delete |
| PeopleCommands.DeletedPersonLeavesNoTrace | src-tauri/src/commands/people.rs:113-147 | After a delete the person, their assignments, absences and job assignments are gone; all else stays |
| PeopleCommands.FailedDeleteKeepsPerson | src-tauri/src/commands/people.rs:113-147 | A failing delete keeps the person and their rows |
| PeopleCommands.Dependencies | src-tauri/src/commands/people.rs:150-185 | Each count is 0 exactly when no row names the person |
| PeopleCommands.DependenciesAreWhatDeleteRemoves | src-tauri/src/commands/people.rs:150-185 | The counts are the rows a delete removes |
| ProjectCommands.DeleteProject | src-tauri/src/commands/projects.rs:90-124 | The method performs the invalidation and the cascading delete |
| ProjectCommands.DeletedProjectLeavesNoTrace | src-tauri/src/commands/projects.rs:90-124 | After a delete the project, its requirements and assignments are gone; all else stays |
| ProjectCommands.FailedDeleteKeepsProject | src-tauri/src/commands/projects.rs:90-124 | A failing delete keeps the project and its rows |
| ProjectCommands.Dependencies | src-tauri/src/commands/projects.rs:127-163 | Each count is 0 exactly when no row names the project |
| ProjectCommands.DependenciesAreWhatDeleteRemoves | src-tauri/src/commands/projects.rs:127-163 | The counts are the rows a delete removes |
| PlanningPeriodCommands.DeletePlanningPeriod | src-tauri/src/commands/planning_periods.rs:75-109 | The method performs the invalidation and the cascading delete |
| PlanningPeriodCommands.DeletedPeriodLeavesNoTrace | src-tauri/src/commands/planning_periods.rs:75-109 | After a delete the period, its requirements, assignments and job assignments are gone; all else stays |
| PlanningPeriodCommands.FailedDeleteKeepsPeriod | src-tauri/src/commands/planning_periods.rs:75-109 | A failing delete keeps the period and its rows |
| PlanningPeriodCommands.Dependencies | src-tauri/src/commands/planning_periods.rs:112-149 | Each count is 0 exactly when no row names the period |
| PlanningPeriodCommands.DependenciesAreWhatDeleteRemoves | src-tauri/src/commands/planning_periods.rs:112-149 | The counts are the rows a delete removes |
| HolidayCommands.Stored | src-tauri/src/commands/holidays.rs:146-158 | The INSERT appends the holiday, or fails on the country key and changes nothing |
| HolidayCommands.ReviseRows | src-tauri/src/commands/holidays.rs:217-230 | The UPDATE rewrites exactly the rows with the id |
| HolidayCommands.Create | src-tauri/src/commands/holidays.rs:109-174 | Any failure of create_holiday leaves the tables as they were |
| HolidayCommands.Update | src-tauri/src/commands/holidays.rs:177-243 | Any failure of update_holiday leaves the tables as they were |
| HolidayCommands.CreateRefusals | src-tauri/src/commands/holidays.rs:115-144 | Create refuses a reversed range and any range overlapping a holiday of the same country |
| HolidayCommands.CreatedHolidayIsValid | src-tauri/src/commands/holidays.rs:109-174 | A created holiday is ordered, overlaps no holiday of its country, and is appended under a fresh id; a failure changes nothing |
| HolidayCommands.CreatePreservesNoOverlap | src-tauri/src/commands/holidays.rs:121-144 | Create keeps every country's holidays free of overlaps |
| HolidayCommands.UpdateIgnoresItself | src-tauri/src/commands/holidays.rs:190-215 | The overlap check excludes the holiday being updated |
| HolidayCommands.UpdatedHolidayIsValid | src-tauri/src/commands/holidays.rs:177-243 | An updated holiday overlaps no other of its country; a failure changes nothing |
| HolidayCommands.UpdatePreservesNoOverlap | src-tauri/src/commands/holidays.rs:190-215 | Update keeps every country's holidays free of overlaps |
| HolidayCommands.SortByStart | src-tauri/src/commands/holidays.rs:88 | ORDER BY start_date sorts a permutation of the rows |
| HolidayCommands.HolidaysForPerson | src-tauri/src/commands/holidays.rs:51-106 | The listing fails exactly when the person is missing, and is empty for a person without a country |
| HolidayCommands.HolidaysForPersonExact | src-tauri/src/commands/holidays.rs:51-106 | The listing holds exactly the holidays of the person's country that touch the range, by start date; none without a country |
| HolidayCommands.BatchCreate | src-tauri/src/commands/holidays.rs:263-303 | The batch commits all rows or none |
| HolidayCommands.BatchHolidays | src-tauri/src/commands/holidays.rs:275-294 | A successful batch appends one row per item, with consecutive fresh ids |
| HolidayCommands.BatchAcceptance | src-tauri/src/commands/holidays.rs:263-303 | A batch succeeds exactly when every item is ordered and names an existing country, with no overlap check |
| HolidayCommands.BatchRowsAbort | src-tauri/src/commands/holidays.rs:275-294 | A failure on a prefix fails the whole batch |
| HolidayCommands.DuplicateCount | src-tauri/src/commands/holidays.rs:349-362 | The duplicate count is bounded by the number of fetched holidays |
| HolidayCommands.PreviewItems | src-tauri/src/commands/holidays.rs:358-370 | One preview item per fetched holiday |
| HolidayCommands.PreviewCounts | src-tauri/src/commands/holidays.rs:307-384 | An item is a duplicate exactly when a holiday of the country starts on its date that year; new and duplicate counts add up to the total |
| HolidayCommands.FlaggedCount | src-tauri/src/commands/holidays.rs:356-373 | The duplicate count is the number of flagged items |
| HolidayCommands.Preview | src-tauri/src/commands/holidays.rs:307-384 | A failed fetch fails the preview; a successful preview counts every item as new or duplicate |
| HolidayCommands.PreviewHolidayImport | src-tauri/src/commands/holidays.rs:307-384 | The preview loop builds Preview |
| HolidayCommands.ImportYearCounts | src-tauri/src/commands/holidays.rs:453-483 | Every holiday of a year is skipped exactly when its date is taken, otherwise imported |
| HolidayCommands.ImportYearRows | src-tauri/src/commands/holidays.rs:457-483 | A year's import appends one single-day holiday per imported date and nothing else |
| HolidayCommands.ImportReportsFetchedYears | src-tauri/src/commands/holidays.rs:419-496 | The import reports exactly the years whose fetch succeeded, in order, with imported and skipped counts adding up |
| HolidayCommands.ImportAppendsSingleDays | src-tauri/src/commands/holidays.rs:388-499 | The import only appends single-day holidays of the imported country |
| HolidayCommands.PreviewAgreesWithImport | src-tauri/src/commands/holidays.rs:335-483 | On the same tables, a one-year import inserts the preview's new holidays and skips its duplicates |
| HolidayCommands.Import | src-tauri/src/commands/holidays.rs:388-499 | An unknown country code fails with nothing changed; otherwise the import keeps every existing holiday, in place, and every country |
| HolidayCommands.CreateHoliday | src-tauri/src/commands/holidays.rs:109-174 | The method performs Create on the database |
| HolidayCommands.UpdateHoliday | src-tauri/src/commands/holidays.rs:177-243 | The method performs Update on the database |
| HolidayCommands.BatchCreateHolidays | src-tauri/src/commands/holidays.rs:263-303 | The method stages the rows and stores them only when all succeed |
| HolidayCommands.ImportHolidays | src-tauri/src/commands/holidays.rs:388-499 | The method performs Import on the database |
| CountryCommands.ValidateCode | src-tauri/src/commands/countries.rs:29-36 | A code is kept only as two upper-case ASCII letters |
| CountryCommands.CodeAcceptance | src-tauri/src/commands/countries.rs:29-36 | A code is accepted exactly when, trimmed, it is two ASCII letters of either case, and its upper-case form is kept |
| CountryCommands.CanonicalIsFixed | src-tauri/src/commands/countries.rs:76-83 | The canonical form passes unchanged, so normalising twice is normalising once |
| CountryCommands.ReviseRows | src-tauri/src/commands/countries.rs:85-98 | The UPDATE rewrites exactly the rows with the id |
| CountryCommands.Create | src-tauri/src/commands/countries.rs:23-66 | Any failure of create_country leaves the tables as they were |
| CountryCommands.Update | src-tauri/src/commands/countries.rs:69-111 | Any failure of update_country leaves the tables as they were |
| CountryCommands.CreatedCountryIsValid | src-tauri/src/commands/countries.rs:23-66 | A created country has the canonical code, which no country had; a failure changes nothing; codes stay unique |
| CountryCommands.UpdatedCountryIsValid | src-tauri/src/commands/countries.rs:69-111 | An updated country has the canonical code, which no other country has; a failure changes nothing; codes stay unique |
| CountryCommands.FindServiceCountry | src-tauri/src/commands/countries.rs:193-196 | The first service country with the code, or none has it |
| CountryCommands.ImportFailsOnUnknownCode | src-tauri/src/commands/countries.rs:189-196 | The import fails exactly when some code is not listed by the service |
| CountryCommands.ImportListsEveryCode | src-tauri/src/commands/countries.rs:178-242 | A successful import lists, in order, the country holding each code's upper-case form |
| CountryCommands.ImportKeepsCodesUnique | src-tauri/src/commands/countries.rs:198-237 | The import only appends countries with untaken codes, so codes stay unique |
| CountryCommands.Import | src-tauri/src/commands/countries.rs:178-242 | When the service list cannot be fetched nothing changes |
| CountryCommands.WithoutCountry | src-tauri/src/commands/countries.rs:249-256 | Clearing people's country keeps everything else about them |
| CountryCommands.DeleteAll | src-tauri/src/commands/countries.rs:246-269 | A failure clearing people changes nothing; once people are cleared no person has a country, whether or not the delete then fails |
| CountryCommands.DeleteAllLeavesNoCountry | src-tauri/src/commands/countries.rs:246-269 | After delete-all no country, holiday or country reference is left; other tables are unchanged; a failing delete still leaves people cleared |
| CountryCommands.CreateCountry | src-tauri/src/commands/countries.rs:23-66 | The method performs Create on the database |
| CountryCommands.UpdateCountry | src-tauri/src/commands/countries.rs:69-111 | The method performs Update on the database |
| CountryCommands.ImportOne | src-tauri/src/commands/countries.rs:189-238 | One loop turn performs ImportStep |
| CountryCommands.ImportCountries | src-tauri/src/commands/countries.rs:178-242 | The method performs Import on the database |
| CountryCommands.AbortStays | src-tauri/src/commands/countries.rs:196 | After a failure, later codes change nothing |
| CountryCommands.DeleteAllCountriesAndHolidays | src-tauri/src/commands/countries.rs:246-269 | The method performs DeleteAll on the database |
| RequirementCommands.Overwrite | src-tauri/src/commands/requirements.rs:73-74 | The DO UPDATE branch rewrites only the pair's rows, with new hours and, when given, new priority |
| RequirementCommands.Upsert | src-tauri/src/commands/requirements.rs:60-100 | Any failure of the upsert leaves the tables as they were |
| RequirementCommands.BatchPriority | src-tauri/src/commands/requirements.rs:121 | A batch item without a priority writes 10 (Medium) |
| RequirementCommands.BatchUpsert | src-tauri/src/commands/requirements.rs:103-148 | A failed batch changes nothing |
| RequirementCommands.UpsertOverwritesExisting | src-tauri/src/commands/requirements.rs:70-75 | On an existing pair the upsert rewrites its hours, keeps its id and priority, and changes nothing else |
| RequirementCommands.UpsertInsertsNew | src-tauri/src/commands/requirements.rs:70-84 | On a new pair one row is appended with a fresh id and the default priority; a missing reference fails and changes nothing |
| RequirementCommands.UpsertedKeepsPairs | src-tauri/src/commands/requirements.rs:70-75 | An upsert keeps every pair's row and adds only its own |
| RequirementCommands.UpsertedKeepsPairsUnique | src-tauri/src/commands/requirements.rs:70-75 | The upsert keeps pairs unique |
| RequirementCommands.UpsertIsIdempotent | src-tauri/src/commands/requirements.rs:60-100 | Repeating a single upsert changes nothing more |
| RequirementCommands.BatchRowsAbort | src-tauri/src/commands/requirements.rs:120-139 | A failure on a prefix fails the whole batch |
| RequirementCommands.BatchRows | src-tauri/src/commands/requirements.rs:120-139 | A batch can fail only with the foreign-key error |
| RequirementCommands.LastFor | src-tauri/src/commands/requirements.rs:120-139 | The last item naming a pair, or none names it |
| RequirementCommands.BatchStoresLastValues | src-tauri/src/commands/requirements.rs:120-139 | After a batch every item's pair has a row holding the hours and priority of the last item naming it |
| RequirementCommands.BatchKeepsPairsUnique | src-tauri/src/commands/requirements.rs:120-139 | A batch keeps pairs unique |
| RequirementCommands.BatchGrows | src-tauri/src/commands/requirements.rs:120-139 | A batch keeps every row's pair, and every row it adds names an existing project and period |
| RequirementCommands.ApplicableAfterGrowth | src-tauri/src/commands/requirements.rs:120-139 | Earlier items of a batch neither make a later item applicable nor stop it from being so |
| RequirementCommands.BatchAcceptance | src-tauri/src/commands/requirements.rs:114-147 | A batch commits exactly when every item's pair exists or can be inserted; otherwise it fails with the foreign-key error |
| RequirementCommands.Settle | src-tauri/src/commands/requirements.rs:120-139 | Settling rewrites values only |
| RequirementCommands.BatchOnCoveredTable | src-tauri/src/commands/requirements.rs:120-139 | When every pair exists, a batch cannot fail and only rewrites values |
| RequirementCommands.BatchIsIdempotent | src-tauri/src/commands/requirements.rs:103-148 | Applying the same batch twice equals applying it once |
| RequirementCommands.UpsertRequirement | src-tauri/src/commands/requirements.rs:60-100 | The method performs Upsert on the database |
| RequirementCommands.BatchUpsertRequirements | src-tauri/src/commands/requirements.rs:103-148 | The method stages the items and stores them only when all succeed |
| JobCommands.LowerChar | src-tauri/src/commands/jobs.rs:75-76 | LOWER changes only ASCII capitals |
| JobCommands.Lower | src-tauri/src/commands/jobs.rs:75-76 | LOWER keeps the length and lowers each character |
| JobCommands.CaseVariantsCollide | src-tauri/src/commands/jobs.rs:75-76 | Names differing only in ASCII case collide, and a name collides with itself |
| JobCommands.NameCount | src-tauri/src/commands/jobs.rs:127-128 | The count is 0 exactly when no other job has the name ignoring case |
| JobCommands.JobById | src-tauri/src/commands/jobs.rs:157-164 | The job with the id, or none has it |
| JobCommands.ReviseJobs | src-tauri/src/commands/jobs.rs:146-155 | The UPDATE rewrites exactly the rows with the id |
| JobCommands.CreateJob | src-tauri/src/commands/jobs.rs:68-116 | Any failure of create_job leaves the tables as they were |
| JobCommands.UpdateJob | src-tauri/src/commands/jobs.rs:119-168 | Any failure of update_job leaves the tables as they were |
| JobCommands.CreateJobRefusals | src-tauri/src/commands/jobs.rs:68-116 | Create is refused exactly when a job has the name ignoring case; otherwise a row is appended under a fresh id |
| JobCommands.UpdateJobRefusals | src-tauri/src/commands/jobs.rs:119-168 | Update is refused exactly when another job has the name ignoring case; a missing id reports a missing row |
| JobCommands.CreateJobKeepsNamesUnique | src-tauri/src/commands/jobs.rs:74-100 | Create keeps job names unique ignoring case, and ids unique |
| JobCommands.UpdateJobKeepsNamesUnique | src-tauri/src/commands/jobs.rs:126-155 | Update keeps job names unique ignoring case, and ids unique |
| JobCommands.DeleteJob | src-tauri/src/commands/jobs.rs:171-185 | A failure changes nothing; otherwise the job, its tasks and its assignments go |
| JobCommands.DeletedJobLeavesNoTrace | src-tauri/src/commands/jobs.rs:171-185 | After a delete the job, its tasks and assignments are gone and everything else stays |
| JobCommands.Dependencies | src-tauri/src/commands/jobs.rs:188-219 | Each count is 0 exactly when no row names the job |
| JobCommands.DependenciesAreWhatDeleteRemoves | src-tauri/src/commands/jobs.rs:188-219 | The counts are the rows a delete removes |
| JobCommands.ReviseTasks | src-tauri/src/commands/jobs.rs:298-313 | The UPDATE rewrites exactly the tasks with the id |
| JobCommands.TaskById | src-tauri/src/commands/jobs.rs:315-323 | The task with the id, or none has it |
| JobCommands.CreateTask | src-tauri/src/commands/jobs.rs:248-288 | Any failure of create_job_overhead_task leaves the tables as they were |
| JobCommands.UpdateTask | src-tauri/src/commands/jobs.rs:291-327 | Any failure of update_job_overhead_task leaves the tables as they were |
| JobCommands.CreateAssignment | src-tauri/src/commands/jobs.rs:435-474 | Any failure of create_person_job_assignment leaves the tables as they were |
| JobCommands.CreatedTaskStoresEffort | src-tauri/src/commands/jobs.rs:248-288 | A created task stores the given job, name and effort, is required, and is refused exactly for an unknown period label or job |
| JobCommands.UpdatedTaskStoresEffort | src-tauri/src/commands/jobs.rs:291-327 | An update stores name and effort, keeps id, job, optional flag and weight; no other task changes |
| JobCommands.CreateAssignmentRules | src-tauri/src/commands/jobs.rs:435-474 | A single job assignment is refused as a duplicate exactly when the triple exists, on the foreign key exactly when a reference is missing, and otherwise appended; triples stay unique |
| JobCommands.NewJobIds | src-tauri/src/commands/jobs.rs:492-514 | The batch inserts exactly the ids not already held, each once, in order |
| JobCommands.NewRows | src-tauri/src/commands/jobs.rs:516-543 | The rows for the new ids have consecutive fresh ids |
| JobCommands.BatchInsertsNewTriples | src-tauri/src/commands/jobs.rs:477-551 | Without a failure the batch appends and returns exactly the rows for NewJobIds |
| JobCommands.HasTripleAfter | src-tauri/src/commands/jobs.rs:492-544 | After the batch a triple exists exactly when it did before or its job was inserted |
| JobCommands.BatchFailsOnDanglingIds | src-tauri/src/commands/jobs.rs:516-528 | The batch fails exactly when a new id names a missing row, with the foreign-key error |
| JobCommands.BatchAssign | src-tauri/src/commands/jobs.rs:477-551 | The batch succeeds exactly when every job id it would insert has its person, job and period on file; otherwise it fails with the foreign-key error |
| JobCommands.BatchKeepsTriplesUnique | src-tauri/src/commands/jobs.rs:492-544 | The batch keeps triples unique, even with repeated ids |
| JobCommands.NothingNew | src-tauri/src/commands/jobs.rs:492-514 | When every job is already held, nothing is inserted |
| JobCommands.BatchRepeatedAddsNothing | src-tauri/src/commands/jobs.rs:477-551 | Repeating a successful batch inserts nothing and returns no rows |
| JobCommands.CreateJobRow | src-tauri/src/commands/jobs.rs:68-116 | The method performs CreateJob on the database |
| JobCommands.UpdateJobRow | src-tauri/src/commands/jobs.rs:119-168 | The method performs UpdateJob on the database |
| JobCommands.CreateTaskRow | src-tauri/src/commands/jobs.rs:248-288 | The method performs CreateTask on the database |
| JobCommands.UpdateTaskRow | src-tauri/src/commands/jobs.rs:291-327 | The method performs UpdateTask on the database |
| JobCommands.AssignOne | src-tauri/src/commands/jobs.rs:492-543 | One loop turn performs AssignStep |
| JobCommands.BatchAssignJobs | src-tauri/src/commands/jobs.rs:477-551 | The method performs BatchAssign; rows inserted before a failure stay |
| JobCommands.FailureStays | src-tauri/src/commands/jobs.rs:516-528 | After a failure, later ids change nothing |

## Left out

- Floating point. Hours and percentages are exact `real` numbers. Rounding,
  overflow, infinities and NaN are not modelled. The one NaN case that changes
  a result, a productivity factor of 0 in the percentage conversion, is
  modelled only in `Allocation.AllocationPctAsWritten` (see "## Findings");
  the optimizer itself uses the corrected `Allocation.AllocationPct`, as the
  lines below say member by member.
- `Allocation.AllocationPct`: takes 0 % for a productivity factor of 0 or below. The source guards only the available hours. At factor 0 it takes the person's whole remaining percentage: this is the NaN case under "## Findings", shown by `Allocation.ZeroProductivityCounterexample`. A negative factor is not forbidden by any database constraint. At such a factor the source takes a positive percentage for negative effective hours, shown by `Allocation.NegativeProductivityExample`. The model does not follow either. For positive factors the two conversions agree.
- `Allocation.CalculationOf`: converts through `Allocation.AllocationPct`, so it has that member's gap for productivity factors of 0 or below.
- `Allocation.Calculations`: converts through `Allocation.AllocationPct`, so it has that member's gap for productivity factors of 0 or below.
- `Allocation.DebitAll`: converts through `Allocation.AllocationPct`, so it has that member's gap for productivity factors of 0 or below.
- `Allocation.AllocateProjectSpec`: converts through `Allocation.AllocationPct`, so it has that member's gap for productivity factors of 0 or below.
- `Allocation.ConvertShare`: converts through `Allocation.AllocationPct`, so it has that member's gap for productivity factors of 0 or below.
- `Allocation.Distribute`: converts through `Allocation.AllocationPct`, so it has that member's gap for productivity factors of 0 or below.
- `Allocation.AllocateProject`: converts through `Allocation.AllocationPct`, so it has that member's gap for productivity factors of 0 or below.
- `Optimizer.Turn`: converts through `Allocation.AllocationPct`, so it has that member's gap for productivity factors of 0 or below.
- `Optimizer.RunProjects`: converts through `Allocation.AllocationPct`, so it has that member's gap for productivity factors of 0 or below.
- `Optimizer.ProcessGroup`: converts through `Allocation.AllocationPct`, so it has that member's gap for productivity factors of 0 or below.
- `Optimizer.ProcessGroups`: converts through `Allocation.AllocationPct`, so it has that member's gap for productivity factors of 0 or below.
- `Optimizer.OptimizeSpec`: converts through `Allocation.AllocationPct`, so it has that member's gap for productivity factors of 0 or below.
- `Optimizer.Optimize`: converts through `Allocation.AllocationPct`, so it has that member's gap for productivity factors of 0 or below.
- Date strings. Dates are day numbers. The source compares "YYYY-MM-DD"
  strings, which orders them the same way as day numbers. Parsing failures of
  malformed dates are not modelled.
- Database errors. Connection, transaction-begin and commit failures, and
  failures of individual statements, are parameters or are not modelled. Error
  texts of the form "Failed to fetch …: {e}" keep only their prefix.
- `CapacityReports.PersonCapacitySpec`: the error carries only the "Failed to fetch …" prefix, not the database message after it.
- `CapacityReports.ProjectStaffingSpec`: the error carries only the "Failed to fetch …" prefix, not the database message after it.
- Hash-map iteration order. The optimizer visits projects in `HashMap` key
  order before its stable sort. The model takes that order as a parameter
  (`order`). Equal-priority projects are visited in that order.
- `Optimizer.OptimizeSpec`: requires every assignment's person to be on file.
  The source unwraps the person's state and would panic otherwise. The foreign
  key guarantees this when foreign keys are enforced.
- `Allocation.ShortfallPct` divides only when the requirement is non-zero. The
  source divides unconditionally. This never matters, because a shortfall
  needs achieved < required, and achieved ≥ 0.
- Display names and order:
  - project names and the "Project {id}" fallback;
  - person names and e-mails in reports;
  - `ORDER BY name` of people and projects (the report rows follow table
    order);
  - tie order of `ORDER BY start_date`;
  - logging.
- The run's timestamp `now` is a parameter.
- Non-ASCII text:
  - `to_uppercase` in country codes is modelled on ASCII only;
  - SQLite `LOWER` in job names is ASCII only, as in SQLite itself;
  - white space follows the Unicode White_Space property.
- Years before 1 are outside the calendar. `HolidayCommands.ExistingDates`
  uses a year's first day number.
- The public holiday service (HTTP) is given as data: `fetch` per year and
  `available` for countries. Its failures are modelled as a missing answer.
- The legacy application's schema differences are not modelled. It shares the
  current table model.
- The single requirement upsert's result is not modelled. The source re-reads
  the row by `last_insert_rowid()`, which after the DO UPDATE branch is not the
  updated row's id: it is whatever the connection last inserted. `Upsert`
  returns unit and models only the table change.
- `batch_upsert_project_requirements` takes a `planning_period_id` argument
  that it never uses. Each item is keyed by its own period.
- `update_assignment` does not clear the optimizer cache of the row it
  rewrites, and neither does the model (`Revised` keeps it).
- The task description and job description columns are not modelled.
- The migration that adds `is_optional` and `optional_weight` to overhead
  tasks is not modelled. A task created by the command is required, with
  weight 0.5.
- Plain list and read queries, and single-row deletes with no further
  effect, are not modelled. They do not change capacity and promise nothing
  beyond the SQL:
  - `list_holidays`, `delete_holiday`, `delete_country`,
    `check_country_dependencies`;
  - `list_assignments`;
  - `list_project_requirements`, `get_project_requirement`,
    `delete_project_requirement`;
  - `list_jobs`, `get_job`, `list_job_overhead_tasks`,
    `delete_job_overhead_task`;
  - `list_person_job_assignments`, `list_person_jobs_for_person`,
    `delete_person_job_assignment`.
- Concurrency between commands is not modelled. Each command runs alone on
  the tables.

## Findings

| source | as written | input that shows it | evidently intended | confidence | as-written member | corrected member |
|---|---|---|---|---|---|---|
| src-tauri/src/capacity/mod.rs:589-594 | The share is converted back to a percentage when the person's available hours are positive. It divides by the productivity factor without checking it. With factor 0 the share is 0, 0/0 is NaN, and `f64::min` then returns the remaining percentage. | Two people, each with 100 available hours, on one 50-hour project; the first has productivity 0, the second 1. As written, the first person's remaining capacity drops from 100 % to 0 % for 0 effective hours. | An assignment that can contribute nothing takes 0 %. The second person covers the 50 hours and the first keeps 100 % for later projects. | not executed | Allocation.AsWrittenZeroProductivity | Allocation.ConversionRecoversShare |
