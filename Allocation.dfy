/**
 * One project's turn in the proportional optimizer: every assignment's
 * maximum contribution at the person's remaining percentage, the split of
 * min(required, capacity) in proportion to those maxima, the conversion of
 * each share back to an allocation percentage, and the debit of that
 * percentage from the person's remaining capacity.
 */
module Allocation {
  import opened Base
  import opened Formulas
  import opened Tables

  /** A person's capacity while the optimizer runs: the available hours of
      the period and the percentage not yet allocated (starts at 100). */
  datatype PersonState = PersonState(available: real, remaining: real)

  /** An assignment with the figures read from its person's state at the
      start of its project's turn. */
  datatype Capacity = Capacity(assignmentId: int, personId: int, available: real,
                               remaining: real, productivityFactor: real, maxHours: real)

  /** The optimizer's result for one assignment. */
  datatype Calculation = Calculation(assignmentId: int, pct: real, effective: real)

  /** An under-staffed project. The project's display name is not modelled. */
  datatype Shortfall = Shortfall(projectId: int, required: real, achieved: real,
                                 shortfall: real, shortfallPct: real)

  /** Everything one project's turn produces. */
  datatype ProjectResult = ProjectResult(calculations: seq<Calculation>,
                                         states: map<int, PersonState>,
                                         achieved: real, shortfall: Option<Shortfall>)

  // ---------------------------------------------------------------------
  // Capacities
  // ---------------------------------------------------------------------

  /** The hours the assignment could contribute at the person's remaining
      percentage: available * remaining / 100 * productivity. */
  function CapacityOf(a: Assignment, s: PersonState): (c: Capacity)
    ensures c.assignmentId == a.id && c.personId == a.personId
    ensures c.available == s.available && c.remaining == s.remaining
    ensures c.productivityFactor == a.productivityFactor
  {
    Capacity(a.id, a.personId, s.available, s.remaining, a.productivityFactor,
             EffectiveHours(s.available, s.remaining, a.productivityFactor))
  }

  predicate PeopleKnown(pas: seq<Assignment>, states: map<int, PersonState>)
  {
    forall k :: 0 <= k < |pas| ==> pas[k].personId in states
  }

  /** The capacities of a project's assignments, all read from the same states. */
  function Capacities(pas: seq<Assignment>, states: map<int, PersonState>): (caps: seq<Capacity>)
    requires PeopleKnown(pas, states)
    ensures |caps| == |pas|
    ensures forall k :: 0 <= k < |pas| ==> caps[k] == CapacityOf(pas[k], states[pas[k].personId])
    decreases |pas|
  {
    if pas == [] then []
    else Capacities(pas[..|pas| - 1], states)
         + [CapacityOf(pas[|pas| - 1], states[pas[|pas| - 1].personId])]
  }

  /** The project's total capacity: the sum of the maximum contributions. */
  function TotalMaxHours(caps: seq<Capacity>): real
    decreases |caps|
  {
    if caps == [] then 0.0 else TotalMaxHours(caps[..|caps| - 1]) + caps[|caps| - 1].maxHours
  }

  // ---------------------------------------------------------------------
  // Shares and percentages
  // ---------------------------------------------------------------------

  /** The capacity's share of the hours to distribute: its proportion of the
      total capacity times those hours. */
  function Share(c: Capacity, total: real, toDistribute: real): real
    requires total != 0.0
  {
    Proportion(c.maxHours, total, toDistribute)
  }

  /** x's proportion of `total`, applied to `amount`. */
  function Proportion(x: real, total: real, amount: real): real
    requires total != 0.0
  {
    x / total * amount
  }

  /** The share converted back to a percentage of the person's available
      hours, capped at the remaining percentage. The conversion happens only
      when both the available hours and the productivity factor are
      positive; otherwise the percentage is 0. This is the corrected
      conversion the optimizer uses; AllocationPctAsWritten below guards
      only the available hours, as the source does. */
  function AllocationPct(c: Capacity, total: real, toDistribute: real): (pct: real)
    requires total != 0.0
    ensures c.available <= 0.0 || c.productivityFactor <= 0.0 ==> pct == 0.0
    ensures pct <= c.remaining || pct == 0.0
  {
    if c.available > 0.0 && c.productivityFactor > 0.0
    then MinR(Share(c, total, toDistribute) / c.productivityFactor / c.available * 100.0, c.remaining)
    else 0.0
  }

  /** The conversion as the optimizer writes it, guarding only the available
      hours. With a productivity factor of 0 the share is 0 and 0 / 0 is NaN;
      f64::min returns its other operand when one is NaN, so the percentage
      becomes the whole remaining percentage. */
  function AllocationPctAsWritten(c: Capacity, total: real, toDistribute: real): (pct: real)
    requires total != 0.0
    ensures c.available <= 0.0 ==> pct == 0.0
    ensures c.available > 0.0 ==> pct <= c.remaining
    ensures c.available > 0.0 && c.productivityFactor == 0.0 ==> pct == c.remaining
    ensures c.productivityFactor > 0.0 ==> pct == AllocationPct(c, total, toDistribute)
  {
    if c.available > 0.0 then
      if c.productivityFactor == 0.0 then c.remaining
      else MinR(Share(c, total, toDistribute) / c.productivityFactor / c.available * 100.0, c.remaining)
    else 0.0
  }

  function CalculationOf(c: Capacity, total: real, toDistribute: real): (r: Calculation)
    requires total != 0.0
    ensures r.assignmentId == c.assignmentId
  {
    var pct := AllocationPct(c, total, toDistribute);
    Calculation(c.assignmentId, pct, EffectiveHours(c.available, pct, c.productivityFactor))
  }

  /** One calculation per capacity, in order. */
  function Calculations(caps: seq<Capacity>, total: real, toDistribute: real): (r: seq<Calculation>)
    requires total != 0.0
    ensures |r| == |caps|
    ensures forall k :: 0 <= k < |caps| ==> r[k] == CalculationOf(caps[k], total, toDistribute)
    decreases |caps|
  {
    if caps == [] then []
    else Calculations(caps[..|caps| - 1], total, toDistribute)
         + [CalculationOf(caps[|caps| - 1], total, toDistribute)]
  }

  function SumEffective(calcs: seq<Calculation>): real
    decreases |calcs|
  {
    if calcs == [] then 0.0 else SumEffective(calcs[..|calcs| - 1]) + calcs[|calcs| - 1].effective
  }

  // ---------------------------------------------------------------------
  // Remaining capacity
  // ---------------------------------------------------------------------

  /** The person's remaining percentage less `pct`, floored at 0; read from
      the current state, not from the capacity snapshot. */
  function Debit(states: map<int, PersonState>, personId: int, pct: real): (r: map<int, PersonState>)
    requires personId in states
    ensures r.Keys == states.Keys
    ensures r[personId].available == states[personId].available
    ensures r[personId].remaining == MaxR(states[personId].remaining - pct, 0.0)
    ensures forall p :: p in states && p != personId ==> r[p] == states[p]
  {
    states[personId := states[personId].(remaining := MaxR(states[personId].remaining - pct, 0.0))]
  }

  predicate CapsKnown(caps: seq<Capacity>, states: map<int, PersonState>)
  {
    forall k :: 0 <= k < |caps| ==> caps[k].personId in states
  }

  /** The debits of every capacity's percentage, in order. */
  function DebitAll(states: map<int, PersonState>, caps: seq<Capacity>, total: real,
                    toDistribute: real): (r: map<int, PersonState>)
    requires total != 0.0
    requires CapsKnown(caps, states)
    ensures r.Keys == states.Keys
    decreases |caps|
  {
    if caps == [] then states
    else
      var before := DebitAll(states, caps[..|caps| - 1], total, toDistribute);
      var c := caps[|caps| - 1];
      Debit(before, c.personId, AllocationPct(c, total, toDistribute))
  }

  // ---------------------------------------------------------------------
  // One project's turn
  // ---------------------------------------------------------------------

  /** The shortfall percentage relative to the requirement. */
  function ShortfallPct(shortfall: real, required: real): real
  {
    if required == 0.0 then 0.0 else shortfall / required * 100.0
  }

  /** A shortfall is reported exactly when the achieved hours are below the
      requirement. */
  function ShortfallOf(projectId: int, required: real, achieved: real): (r: Option<Shortfall>)
    ensures r.Some? <==> achieved < required
    ensures r.Some? ==> r.value.projectId == projectId && r.value.required == required
                        && r.value.achieved == achieved && r.value.shortfall == required - achieved
  {
    if achieved < required
    then Some(Shortfall(projectId, required, achieved, required - achieved,
                        ShortfallPct(required - achieved, required)))
    else None
  }

  /** A project's turn: capacities from the states at its start, nothing
      distributed when the total capacity is not positive, otherwise
      min(required, total) split in proportion. */
  function AllocateProjectSpec(states: map<int, PersonState>, projectId: int,
                               pas: seq<Assignment>, required: real): (r: ProjectResult)
    requires PeopleKnown(pas, states)
    ensures r.states.Keys == states.Keys
    ensures TotalMaxHours(Capacities(pas, states)) > 0.0 ==> |r.calculations| == |pas|
    ensures TotalMaxHours(Capacities(pas, states)) <= 0.0 ==> r.calculations == [] && r.states == states
    ensures forall k :: 0 <= k < |r.calculations| ==> k < |pas| && r.calculations[k].assignmentId == pas[k].id
    ensures r.shortfall == ShortfallOf(projectId, required, r.achieved)
  {
    var caps := Capacities(pas, states);
    var total := TotalMaxHours(caps);
    var toDistribute := MinR(required, total);
    if total > 0.0 then
      var calcs := Calculations(caps, total, toDistribute);
      var achieved := SumEffective(calcs);
      ProjectResult(calcs, DebitAll(states, caps, total, toDistribute), achieved,
                    ShortfallOf(projectId, required, achieved))
    else
      ProjectResult([], states, 0.0, ShortfallOf(projectId, required, 0.0))
  }

  // ---------------------------------------------------------------------
  // Properties of one project's turn
  // ---------------------------------------------------------------------

  /** Every person's available hours are non-negative and remaining
      percentage lies in [0, 100]. */
  predicate ValidStates(states: map<int, PersonState>)
  {
    forall p :: p in states ==> (states[p].available >= 0.0 && 0.0 <= states[p].remaining <= 100.0)
  }

  predicate NonNegativeFactors(pas: seq<Assignment>)
  {
    forall k :: 0 <= k < |pas| ==> pas[k].productivityFactor >= 0.0
  }

  /** A capacity read from a valid state of a non-negative assignment. */
  predicate WellFormed(c: Capacity)
  {
    c.available >= 0.0 && c.remaining >= 0.0 && c.productivityFactor >= 0.0
    && c.maxHours == EffectiveHours(c.available, c.remaining, c.productivityFactor)
  }

  lemma CapacitiesWellFormed(pas: seq<Assignment>, states: map<int, PersonState>)
    requires ValidStates(states) && PeopleKnown(pas, states) && NonNegativeFactors(pas)
    ensures var caps := Capacities(pas, states);
      CapsKnown(caps, states) && forall k :: 0 <= k < |caps| ==> WellFormed(caps[k])
  {
  }

  lemma {:induction false} TotalMaxHoursNonNegative(caps: seq<Capacity>)
    requires forall k :: 0 <= k < |caps| ==> WellFormed(caps[k])
    ensures TotalMaxHours(caps) >= 0.0
    decreases |caps|
  {
    if caps != [] {
      TotalMaxHoursNonNegative(caps[..|caps| - 1]);
    }
  }

  lemma PercentOfMax(a: real, r: real, p: real)
    requires a > 0.0 && p > 0.0
    ensures EffectiveHours(a, r, p) / p / a * 100.0 == r
  {
    var m := EffectiveHours(a, r, p);
    assert m / p == a * (r / 100.0);
    assert a * (r / 100.0) / a == r / 100.0;
  }

  lemma ScaledQuotient(m: real, f: real, p: real, a: real)
    requires a != 0.0 && p != 0.0
    ensures (m * f) / p / a * 100.0 == (m / p / a * 100.0) * f
  {
  }

  lemma ProportionAsFraction(m: real, total: real, d: real)
    requires total != 0.0
    ensures Proportion(m, total, d) == m * (d / total)
  {
  }

  /** The share's percentage of the available hours is the remaining
      percentage scaled by the distributed fraction of the capacity. */
  lemma ShareOfPercentage(a: real, r: real, p: real, total: real, d: real)
    requires a > 0.0 && p > 0.0 && total > 0.0
    ensures Proportion(EffectiveHours(a, r, p), total, d) / p / a * 100.0 == r * (d / total)
  {
    var m := EffectiveHours(a, r, p);
    var f := d / total;
    var q := Proportion(m, total, d);
    ProportionAsFraction(m, total, d);
    assert q == m * f;
    ScaledQuotient(m, f, p, a);
    assert q / p / a * 100.0 == (m / p / a * 100.0) * f;
    PercentOfMax(a, r, p);
  }

  lemma FractionAtMost(r: real, d: real, total: real)
    requires r >= 0.0 && 0.0 <= d <= total && total > 0.0
    ensures 0.0 <= r * (d / total) <= r
  {
    assert 0.0 <= d / total <= 1.0;
    ProductNonNegative(r, d / total);
    ProductNonNegative(r, 1.0 - d / total);
  }

  /** The conversion back from hours to a percentage yields, at the same
      productivity, exactly the capacity's share, with a percentage between
      0 and the remaining percentage: the cap never bites when at most the
      total capacity is distributed. */
  lemma ConversionRecoversShare(c: Capacity, total: real, toDistribute: real)
    requires WellFormed(c)
    requires total > 0.0 && 0.0 <= toDistribute <= total
    ensures 0.0 <= AllocationPct(c, total, toDistribute) <= c.remaining
    ensures CalculationOf(c, total, toDistribute).effective == Share(c, total, toDistribute)
  {
    var a, r, p := c.available, c.remaining, c.productivityFactor;
    var s := Share(c, total, toDistribute);
    if a > 0.0 && p > 0.0 {
      ShareOfPercentage(a, r, p, total, toDistribute);
      FractionAtMost(r, toDistribute, total);
      var x := s / p / a * 100.0;
      assert x == r * (toDistribute / total);
      assert AllocationPct(c, total, toDistribute) == MinR(x, r) == x;
      EffectiveHoursOfShare(a, p, s);
    } else {
      assert c.maxHours == 0.0;
      assert s == 0.0;
    }
  }

  lemma ProportionAdd(x: real, y: real, total: real, d: real)
    requires total != 0.0
    ensures Proportion(x, total, d) + Proportion(y, total, d) == Proportion(x + y, total, d)
  {
  }

  lemma ProportionOfWhole(total: real, d: real)
    requires total != 0.0
    ensures Proportion(total, total, d) == d
  {
  }

  /** Summed over a project, the effective hours are the hours distributed
      in proportion to the total capacity. */
  lemma {:induction false} SumOfShares(caps: seq<Capacity>, total: real, toDistribute: real)
    requires total > 0.0 && 0.0 <= toDistribute <= total
    requires forall k :: 0 <= k < |caps| ==> WellFormed(caps[k])
    ensures SumEffective(Calculations(caps, total, toDistribute))
            == Proportion(TotalMaxHours(caps), total, toDistribute)
    decreases |caps|
  {
    if caps != [] {
      var init := caps[..|caps| - 1];
      var c := caps[|caps| - 1];
      SumOfShares(init, total, toDistribute);
      var calcs := Calculations(caps, total, toDistribute);
      assert calcs[..|calcs| - 1] == Calculations(init, total, toDistribute);
      ConversionRecoversShare(c, total, toDistribute);
      ProportionAdd(TotalMaxHours(init), c.maxHours, total, toDistribute);
    }
  }

  /** Proportional split: every assignment of the project receives its
      share, at a percentage between 0 and its person's remaining
      percentage. */
  lemma ProportionalSplit(states: map<int, PersonState>, projectId: int, pas: seq<Assignment>, required: real)
    requires ValidStates(states) && PeopleKnown(pas, states) && NonNegativeFactors(pas)
    requires required >= 0.0
    ensures var caps := Capacities(pas, states);
      var total := TotalMaxHours(caps);
      var r := AllocateProjectSpec(states, projectId, pas, required);
      total > 0.0 ==>
        |r.calculations| == |pas|
        && forall k :: 0 <= k < |pas| ==>
             r.calculations[k].assignmentId == pas[k].id
             && 0.0 <= r.calculations[k].pct <= states[pas[k].personId].remaining
             && r.calculations[k].effective == Share(caps[k], total, MinR(required, total))
  {
    var caps := Capacities(pas, states);
    var total := TotalMaxHours(caps);
    if total > 0.0 {
      CapacitiesWellFormed(pas, states);
      forall k | 0 <= k < |pas|
        ensures 0.0 <= AllocationPct(caps[k], total, MinR(required, total)) <= caps[k].remaining
        ensures CalculationOf(caps[k], total, MinR(required, total)).effective
                == Share(caps[k], total, MinR(required, total))
      {
        ConversionRecoversShare(caps[k], total, MinR(required, total));
      }
    }
  }

  /** A project achieves min(required, capacity) hours, and is reported
      short exactly when its requirement exceeds its capacity, by the
      difference. With no capacity nothing is distributed and the states
      are untouched. */
  lemma ProjectAchievement(states: map<int, PersonState>, projectId: int, pas: seq<Assignment>, required: real)
    requires ValidStates(states) && PeopleKnown(pas, states) && NonNegativeFactors(pas)
    requires required >= 0.0
    ensures var total := TotalMaxHours(Capacities(pas, states));
      var r := AllocateProjectSpec(states, projectId, pas, required);
      total >= 0.0
      && r.achieved == MinR(required, total)
      && (r.shortfall.Some? <==> required > total)
      && (r.shortfall.Some? ==> r.shortfall.value.shortfall == required - total)
      && (total == 0.0 ==> r.calculations == [] && r.states == states)
  {
    var caps := Capacities(pas, states);
    var total := TotalMaxHours(caps);
    CapacitiesWellFormed(pas, states);
    TotalMaxHoursNonNegative(caps);
    if total > 0.0 {
      var d := MinR(required, total);
      SumOfShares(caps, total, d);
      ProportionOfWhole(total, d);
    }
  }

  /** Debiting the percentages of a distribution keeps every state valid,
      leaves the available hours alone and never raises a remaining
      percentage. */
  lemma {:induction false} DebitAllShrinks(states: map<int, PersonState>, caps: seq<Capacity>,
                                           total: real, toDistribute: real)
    requires total > 0.0 && 0.0 <= toDistribute <= total
    requires ValidStates(states) && CapsKnown(caps, states)
    requires forall k :: 0 <= k < |caps| ==> WellFormed(caps[k])
    ensures var r := DebitAll(states, caps, total, toDistribute);
      ValidStates(r)
      && forall p :: p in states ==> r[p].available == states[p].available
                                     && r[p].remaining <= states[p].remaining
    decreases |caps|
  {
    if caps != [] {
      var init := caps[..|caps| - 1];
      var c := caps[|caps| - 1];
      DebitAllShrinks(states, init, total, toDistribute);
      ConversionRecoversShare(c, total, toDistribute);
    }
  }

  /** A project's turn keeps every person's state valid, leaves available
      hours alone and never raises a remaining percentage. */
  lemma ProjectKeepsStatesValid(states: map<int, PersonState>, projectId: int, pas: seq<Assignment>,
                                required: real)
    requires ValidStates(states) && PeopleKnown(pas, states) && NonNegativeFactors(pas)
    requires required >= 0.0
    ensures var r := AllocateProjectSpec(states, projectId, pas, required).states;
      r.Keys == states.Keys && ValidStates(r)
      && forall p :: p in states ==> r[p].available == states[p].available
                                     && r[p].remaining <= states[p].remaining
  {
    var caps := Capacities(pas, states);
    var total := TotalMaxHours(caps);
    if total > 0.0 {
      CapacitiesWellFormed(pas, states);
      DebitAllShrinks(states, caps, total, MinR(required, total));
    }
  }

  // ---------------------------------------------------------------------
  // The zero-productivity conversion as written
  // ---------------------------------------------------------------------

  /** As written, an assignment with productivity 0 and positive available
      hours takes its person's whole remaining percentage while yielding no
      effective hours. */
  lemma AsWrittenZeroProductivity(c: Capacity, total: real, toDistribute: real)
    requires total != 0.0 && c.available > 0.0 && c.productivityFactor == 0.0
    ensures AllocationPctAsWritten(c, total, toDistribute) == c.remaining
    ensures EffectiveHours(c.available, AllocationPctAsWritten(c, total, toDistribute),
                           c.productivityFactor) == 0.0
    ensures AllocationPct(c, total, toDistribute) == 0.0
  {
  }

  /** Two people with 100 available hours each on one project that requires
      50 hours, one at productivity 0 and one at productivity 1. As written,
      the first person's remaining percentage drops from 100 to 0 for no
      effective hours; with the guard, it stays at 100 and the second person
      covers the 50 hours at 50%. */
  lemma ZeroProductivityCounterexample()
    ensures var states := map[1 := PersonState(100.0, 100.0), 2 := PersonState(100.0, 100.0)];
      var a := Assignment(1, 1, 7, 3, 0.0, 0, 0, None, None, None);
      var b := Assignment(2, 2, 7, 3, 1.0, 0, 0, None, None, None);
      var caps := Capacities([a, b], states);
      var total := TotalMaxHours(caps);
      var asWritten := AllocationPctAsWritten(caps[0], 100.0, 50.0);
      var r := AllocateProjectSpec(states, 7, [a, b], 50.0);
      total == 100.0
      && asWritten == 100.0
      && Debit(states, 1, asWritten)[1].remaining == 0.0
      && r.calculations == [Calculation(1, 0.0, 0.0), Calculation(2, 50.0, 50.0)]
      && r.states[1].remaining == 100.0 && r.states[2].remaining == 50.0
      && r.achieved == 50.0 && r.shortfall.None?
  {
    var states := map[1 := PersonState(100.0, 100.0), 2 := PersonState(100.0, 100.0)];
    var a := Assignment(1, 1, 7, 3, 0.0, 0, 0, None, None, None);
    var b := Assignment(2, 2, 7, 3, 1.0, 0, 0, None, None, None);
    var caps := Capacities([a, b], states);
    assert caps[0] == Capacity(1, 1, 100.0, 100.0, 0.0, 0.0);
    assert caps[1] == Capacity(2, 2, 100.0, 100.0, 1.0, 100.0);
    assert [a, b][..1] == [a];
    assert caps[..1] == [caps[0]];
    assert TotalMaxHours(caps[..1]) == 0.0;
    var total := TotalMaxHours(caps);
    assert total == 100.0;
    assert Share(caps[1], 100.0, 50.0) == 50.0;
    var calcs := Calculations(caps, 100.0, 50.0);
    assert calcs[0] == Calculation(1, 0.0, 0.0);
    assert calcs[1] == Calculation(2, 50.0, 50.0);
    assert calcs[..1] == [calcs[0]];
    assert calcs == [calcs[0], calcs[1]];
    assert SumEffective(calcs[..1]) == 0.0;
    assert SumEffective(calcs) == 50.0;
    assert caps[..1][..0] == [];
    assert DebitAll(states, caps[..1][..0], 100.0, 50.0) == states;
    assert caps[..1][|caps[..1]| - 1] == caps[0];
    assert AllocationPct(caps[0], 100.0, 50.0) == 0.0;
    var first := DebitAll(states, caps[..1], 100.0, 50.0);
    assert first == Debit(states, 1, 0.0);
    assert first[1].remaining == 100.0 && first[2].remaining == 100.0;
    var debited := DebitAll(states, caps, 100.0, 50.0);
    assert debited == Debit(first, 2, 50.0);
    assert debited[1].remaining == 100.0 && debited[2].remaining == 50.0;
    var r := AllocateProjectSpec(states, 7, [a, b], 50.0);
    assert r == ProjectResult(calcs, debited, 50.0, None);
  }

  /** A negative productivity factor, which no CHECK constraint forbids. Next
      to a colleague at productivity 1 (capacity 100 hours, so the project's
      total capacity is 100 - 50 = 50 hours and 50 hours are distributed), an
      assignment at productivity -0.5 receives a share of -50 hours. As
      written that converts to the whole remaining 100 % with -50 effective
      hours; the guarded conversion gives 0 %. */
  lemma NegativeProductivityExample()
    ensures var c := Capacity(1, 1, 100.0, 100.0, -0.5, -50.0);
      && AllocationPctAsWritten(c, 50.0, 50.0) == 100.0
      && EffectiveHours(c.available, AllocationPctAsWritten(c, 50.0, 50.0), c.productivityFactor) == -50.0
      && AllocationPct(c, 50.0, 50.0) == 0.0
  {
    var c := Capacity(1, 1, 100.0, 100.0, -0.5, -50.0);
    assert Share(c, 50.0, 50.0) == -50.0;
  }

  // ---------------------------------------------------------------------
  // The loops of one project's turn
  // ---------------------------------------------------------------------

  /** One more assignment read by the first loop. */
  lemma CapacitiesStep(pas: seq<Assignment>, states: map<int, PersonState>, i: int)
    requires PeopleKnown(pas, states) && 0 <= i < |pas|
    ensures PeopleKnown(pas[..i + 1], states)
    ensures Capacities(pas[..i + 1], states)
            == Capacities(pas[..i], states) + [CapacityOf(pas[i], states[pas[i].personId])]
  {
    assert pas[..i + 1][..i] == pas[..i];
  }

  lemma TotalMaxHoursStep(caps: seq<Capacity>, c: Capacity)
    ensures TotalMaxHours(caps + [c]) == TotalMaxHours(caps) + c.maxHours
  {
    assert (caps + [c])[..|caps|] == caps;
  }

  /** One more capacity handled by the second loop. */
  lemma DistributeStep(states: map<int, PersonState>, caps: seq<Capacity>, j: int,
                       total: real, toDistribute: real)
    requires total != 0.0 && CapsKnown(caps, states) && 0 <= j < |caps|
    ensures CapsKnown(caps[..j + 1], states)
    ensures Calculations(caps[..j + 1], total, toDistribute)
            == Calculations(caps[..j], total, toDistribute) + [CalculationOf(caps[j], total, toDistribute)]
    ensures DebitAll(states, caps[..j + 1], total, toDistribute)
            == Debit(DebitAll(states, caps[..j], total, toDistribute), caps[j].personId,
                     AllocationPct(caps[j], total, toDistribute))
  {
    assert caps[..j + 1][..j] == caps[..j];
  }

  lemma SumEffectiveStep(calcs: seq<Calculation>, x: Calculation)
    ensures SumEffective(calcs + [x]) == SumEffective(calcs) + x.effective
  {
    assert (calcs + [x])[..|calcs|] == calcs;
  }

  /** The first loop: every assignment's capacity, read from the states at
      the start of the turn, and their sum. */
  method CollectCapacities(states: map<int, PersonState>, pas: seq<Assignment>)
    returns (caps: seq<Capacity>, total: real)
    requires PeopleKnown(pas, states)
    ensures caps == Capacities(pas, states)
    ensures total == TotalMaxHours(caps)
  {
    caps := [];
    total := 0.0;
    var i := 0;
    while i < |pas|
      invariant 0 <= i <= |pas|
      invariant PeopleKnown(pas[..i], states)
      invariant caps == Capacities(pas[..i], states)
      invariant total == TotalMaxHours(caps)
    {
      var state := states[pas[i].personId];
      var maxHours := EffectiveHours(state.available, state.remaining, pas[i].productivityFactor);
      var c := Capacity(pas[i].id, pas[i].personId, state.available, state.remaining,
                        pas[i].productivityFactor, maxHours);
      assert c == CapacityOf(pas[i], state);
      CapacitiesStep(pas, states, i);
      TotalMaxHoursStep(caps, c);
      total := total + maxHours;
      caps := caps + [c];
      i := i + 1;
    }
    assert pas[..|pas|] == pas;
  }

  /** The body of the second loop: the proportional share converted back to
      a percentage, and the effective hours at that percentage. */
  method ConvertShare(c: Capacity, total: real, toDistribute: real) returns (pct: real, effective: real)
    requires total > 0.0
    ensures Calculation(c.assignmentId, pct, effective) == CalculationOf(c, total, toDistribute)
  {
    var share := Proportion(c.maxHours, total, toDistribute);
    pct := 0.0;
    if c.available > 0.0 && c.productivityFactor > 0.0 {
      pct := MinR(share / c.productivityFactor / c.available * 100.0, c.remaining);
    }
    effective := EffectiveHours(c.available, pct, c.productivityFactor);
  }

  /** The second loop: each capacity's percentage and effective hours,
      recorded in order, with the percentage debited from the person's
      current state. */
  method Distribute(states: map<int, PersonState>, caps: seq<Capacity>, total: real, toDistribute: real)
    returns (calcs: seq<Calculation>, after: map<int, PersonState>, achieved: real)
    requires total > 0.0
    requires CapsKnown(caps, states)
    ensures calcs == Calculations(caps, total, toDistribute)
    ensures after == DebitAll(states, caps, total, toDistribute)
    ensures achieved == SumEffective(calcs)
  {
    calcs := [];
    after := states;
    achieved := 0.0;
    var j := 0;
    while j < |caps|
      invariant 0 <= j <= |caps|
      invariant CapsKnown(caps[..j], states)
      invariant calcs == Calculations(caps[..j], total, toDistribute)
      invariant after == DebitAll(states, caps[..j], total, toDistribute)
      invariant achieved == SumEffective(calcs)
    {
      var c := caps[j];
      var pct, effective := ConvertShare(c, total, toDistribute);
      assert pct == AllocationPct(c, total, toDistribute);
      DistributeStep(states, caps, j, total, toDistribute);
      SumEffectiveStep(calcs, Calculation(c.assignmentId, pct, effective));
      achieved := achieved + effective;
      after := Debit(after, c.personId, pct);
      calcs := calcs + [Calculation(c.assignmentId, pct, effective)];
      j := j + 1;
    }
    assert caps[..|caps|] == caps;
  }

  /** One project's turn, as the optimizer's loops compute it. */
  method AllocateProject(states: map<int, PersonState>, projectId: int, pas: seq<Assignment>, required: real)
    returns (r: ProjectResult)
    requires PeopleKnown(pas, states)
    ensures r == AllocateProjectSpec(states, projectId, pas, required)
  {
    var caps, total := CollectCapacities(states, pas);
    var toDistribute := MinR(required, total);
    var calcs: seq<Calculation> := [];
    var after := states;
    var achieved := 0.0;
    if total > 0.0 {
      calcs, after, achieved := Distribute(states, caps, total, toDistribute);
    }
    var shortfall := None;
    if achieved < required {
      var gap := required - achieved;
      shortfall := Some(Shortfall(projectId, required, achieved, gap, ShortfallPct(gap, required)));
    }
    assert shortfall == ShortfallOf(projectId, required, achieved);
    r := ProjectResult(calcs, after, achieved, shortfall);
  }
}
