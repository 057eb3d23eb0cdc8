/**
 * The two closed-form helpers of the capacity engine: hours left after the
 * period's deductions, and the effective hours an allocation yields.
 * Hours and percentages are `real`; floating-point rounding is not modelled.
 */
module Formulas {
  import opened Base

  /** Weight given to optional overhead when no per-task weight is stored. */
  const DefaultOptionalWeight: real := 0.5

  /** calculate_available_hours: the hours that remain after absences,
      holidays, required overhead and weighted optional overhead, never negative. */
  function AvailableHours(baseHours: real, absenceHours: real, holidayHours: real,
                          requiredOverhead: real, optionalOverhead: real,
                          optionalWeight: real): (r: real)
    ensures r >= 0.0
    ensures var raw := baseHours - absenceHours - holidayHours - requiredOverhead
                       - optionalOverhead * optionalWeight;
      (raw >= 0.0 ==> r == raw) && (raw < 0.0 ==> r == 0.0)
  {
    MaxR(baseHours - absenceHours - holidayHours - requiredOverhead
         - optionalOverhead * optionalWeight, 0.0)
  }

  /** calculate_assignment_effective_hours: the hours an assignment yields at
      a given allocation percentage and productivity factor. */
  function EffectiveHours(availableHours: real, allocationPct: real,
                          productivityFactor: real): (r: real)
    ensures availableHours == 0.0 || allocationPct == 0.0 || productivityFactor == 0.0 ==> r == 0.0
    ensures availableHours >= 0.0 && allocationPct >= 0.0 && productivityFactor >= 0.0 ==> r >= 0.0
  {
    availableHours * (allocationPct / 100.0) * productivityFactor
  }

  /** More deductions never leave more hours available. */
  lemma AvailableHoursAntitone(b: real, a1: real, h1: real, r1: real, o1: real,
                               a2: real, h2: real, r2: real, o2: real, w: real)
    requires w >= 0.0
    requires a1 <= a2 && h1 <= h2 && r1 <= r2 && o1 <= o2
    ensures AvailableHours(b, a2, h2, r2, o2, w) <= AvailableHours(b, a1, h1, r1, o1, w)
  {
    ProductNonNegative(o2 - o1, w);
    assert (o2 - o1) * w == o2 * w - o1 * w;
  }

  /** Raising the weight of optional overhead never leaves more hours available. */
  lemma AvailableHoursAntitoneInWeight(b: real, a: real, h: real, r: real, o: real,
                                       w1: real, w2: real)
    requires o >= 0.0 && w1 <= w2
    ensures AvailableHours(b, a, h, r, o, w2) <= AvailableHours(b, a, h, r, o, w1)
  {
    ProductNonNegative(o, w2 - w1);
    assert o * (w2 - w1) == o * w2 - o * w1;
  }

  lemma ProductNonNegative(x: real, y: real)
    requires x >= 0.0 && y >= 0.0
    ensures x * y >= 0.0
  {
  }

  /** Effective hours are linear in the allocation percentage. */
  lemma EffectiveHoursLinear(avail: real, p: real, q: real, pf: real)
    ensures EffectiveHours(avail, p + q, pf)
            == EffectiveHours(avail, p, pf) + EffectiveHours(avail, q, pf)
  {
    assert (p + q) / 100.0 == p / 100.0 + q / 100.0;
    assert avail * ((p + q) / 100.0) == avail * (p / 100.0) + avail * (q / 100.0);
  }

  /** Converting an hour share into a percentage and back gives the share:
      the optimizer's percentage (share / pf) / available * 100 yields exactly
      `share` effective hours. */
  lemma EffectiveHoursOfShare(avail: real, pf: real, share: real)
    requires avail > 0.0 && pf > 0.0
    ensures EffectiveHours(avail, (share / pf) / avail * 100.0, pf) == share
  {
    var pct := (share / pf) / avail * 100.0;
    assert pct / 100.0 == (share / pf) / avail;
    assert avail * ((share / pf) / avail) == share / pf;
    assert (share / pf) * pf == share;
  }

  /** The worked examples of the effective-hours helper. */
  lemma EffectiveHoursExamples()
    ensures EffectiveHours(40.0, 100.0, 0.8) == 32.0
    ensures EffectiveHours(40.0, 50.0, 0.5) == 10.0
    ensures EffectiveHours(35.0, 25.0, 0.65) == 5.6875
    ensures EffectiveHours(40.0, 100.0, 0.9) == 36.0
    ensures EffectiveHours(40.0, 100.0, 0.1) == 4.0
  {
  }

  /** The worked examples of the available-hours helper with the default
      optional weight, including the floor at zero. */
  lemma AvailableHoursExamples()
    ensures AvailableHours(160.0, 0.0, 0.0, 0.0, 0.0, DefaultOptionalWeight) == 160.0
    ensures AvailableHours(160.0, 16.0, 0.0, 0.0, 0.0, DefaultOptionalWeight) == 144.0
    ensures AvailableHours(160.0, 0.0, 0.0, 0.0, 20.0, DefaultOptionalWeight) == 150.0
    ensures AvailableHours(160.0, 16.0, 8.0, 8.0, 4.0, DefaultOptionalWeight) == 126.0
    ensures AvailableHours(160.0, 0.0, 0.0, 20.0, 10.0, DefaultOptionalWeight) == 135.0
    ensures AvailableHours(100.0, 50.0, 30.0, 30.0, 0.0, DefaultOptionalWeight) == 0.0
  {
    assert 20.0 * DefaultOptionalWeight == 10.0;
    assert 4.0 * DefaultOptionalWeight == 2.0;
    assert 10.0 * DefaultOptionalWeight == 5.0;
    assert 0.0 * DefaultOptionalWeight == 0.0;
  }

  /** The optional-weight boundary values: 40 optional hours on a base of 100
      deduct nothing, a quarter, half, three quarters or all of themselves. */
  lemma OptionalWeightExamples()
    ensures AvailableHours(100.0, 0.0, 0.0, 0.0, 40.0, 0.0) == 100.0
    ensures AvailableHours(100.0, 0.0, 0.0, 0.0, 40.0, 0.25) == 90.0
    ensures AvailableHours(100.0, 0.0, 0.0, 0.0, 40.0, 0.5) == 80.0
    ensures AvailableHours(100.0, 0.0, 0.0, 0.0, 40.0, 0.75) == 70.0
    ensures AvailableHours(100.0, 0.0, 0.0, 0.0, 40.0, 1.0) == 60.0
  {
    assert 40.0 * 0.25 == 10.0;
    assert 40.0 * 0.5 == 20.0;
    assert 40.0 * 0.75 == 30.0;
  }
}
