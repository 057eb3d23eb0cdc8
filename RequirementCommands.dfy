/**
 * Upserting project requirements (src-tauri/src/commands/requirements.rs).
 * The table holds at most one requirement per (project, period): an upsert
 * on an existing pair overwrites that row, otherwise it inserts a new row,
 * which must name an existing project and period. A single upsert never
 * writes the priority (a new row takes the column default 10, Medium); a
 * batch writes both the hours and the priority, inside one transaction.
 */
module RequirementCommands {
  import opened Base
  import opened Tables

  /** CreateProjectRequirementInput. */
  datatype RequirementInput = RequirementInput(projectId: int, periodId: int,
                                               requiredHours: real, priority: Option<int>)

  /** The UNIQUE(project_id, planning_period_id) constraint of the table. */
  predicate UniquePairs(reqs: seq<Requirement>)
  {
    forall i, j :: 0 <= i < j < |reqs| ==>
      !(reqs[i].projectId == reqs[j].projectId && reqs[i].periodId == reqs[j].periodId)
  }

  /** Does the row belong to the (project, period) pair? */
  predicate IsPair(r: Requirement, projectId: int, periodId: int)
  {
    r.projectId == projectId && r.periodId == periodId
  }

  /** The DO UPDATE branch: the row of the pair gets the new hours and, when
      one is given, the new priority; every other row stays as it was. */
  function Overwrite(reqs: seq<Requirement>, projectId: int, periodId: int,
                     hours: real, priority: Option<int>): (rs: seq<Requirement>)
    ensures |rs| == |reqs|
    ensures forall k :: 0 <= k < |reqs| && !IsPair(reqs[k], projectId, periodId) ==> rs[k] == reqs[k]
    ensures forall k :: 0 <= k < |reqs| && IsPair(reqs[k], projectId, periodId) ==>
              rs[k] == reqs[k].(requiredHours := hours, priority := priority.GetOr(reqs[k].priority))
  {
    seq(|reqs|, k requires 0 <= k < |reqs| =>
      if IsPair(reqs[k], projectId, periodId)
      then reqs[k].(requiredHours := hours, priority := priority.GetOr(reqs[k].priority))
      else reqs[k])
  }

  /** Do the project and the period a new row names exist? */
  predicate ReferencesExist(t: Tables, projectId: int, periodId: int)
  {
    ProjectById(t.projects, projectId).Some? && PeriodById(t.periods, periodId).Some?
  }

  /** One `INSERT … ON CONFLICT(project_id, planning_period_id) DO UPDATE`:
      `priority` is the value the statement writes, None when it leaves the
      column alone. */
  function Upserted(t: Tables, projectId: int, periodId: int, hours: real, priority: Option<int>)
    : (r: Result<Tables, string>)
  {
    if RequirementFor(t.requirements, projectId, periodId).Some? then
      Ok(t.(requirements := Overwrite(t.requirements, projectId, periodId, hours, priority)))
    else if !ReferencesExist(t, projectId, periodId) then
      Err(ForeignKeyFailed)
    else
      Ok(t.(requirements := t.requirements
                            + [Requirement(t.nextId, projectId, periodId, hours,
                                           priority.GetOr(DefaultPriority))],
            nextId := t.nextId + 1))
  }

  /** `upsert_project_requirement`: the input's priority is not written. */
  function Upsert(t: Tables, input: RequirementInput): (e: Effect<()>)
    ensures e.result.Err? ==> e.tables == t
  {
    match Upserted(t, input.projectId, input.periodId, input.requiredHours, None)
    case Err(m) => Effect(Err(m), t)
    case Ok(u) => Effect(Ok(()), u)
  }

  /** The priority a batch item writes: the given one, else Medium. */
  function BatchPriority(input: RequirementInput): (p: int)
    ensures input.priority.None? ==> p == DefaultPriority
    ensures input.priority.Some? ==> p == input.priority.value
  {
    input.priority.GetOr(DefaultPriority)
  }

  /** One item of a batch, keyed by the item's own period. */
  function BatchStep(t: Tables, input: RequirementInput): Result<Tables, string>
  {
    Upserted(t, input.projectId, input.periodId, input.requiredHours, Some(BatchPriority(input)))
  }

  /** The tables inside the transaction after the items, or the first failure. */
  function BatchRows(t: Tables, items: seq<RequirementInput>): (r: Result<Tables, string>)
    ensures r.Err? ==> r == Err(ForeignKeyFailed)
    decreases |items|
  {
    if items == [] then Ok(t)
    else
      match BatchRows(t, items[..|items| - 1])
      case Err(m) => Err(m)
      case Ok(u) => BatchStep(u, items[|items| - 1])
  }

  /** `batch_upsert_project_requirements`: commits every item or none. */
  function BatchUpsert(t: Tables, items: seq<RequirementInput>): (e: Effect<()>)
    ensures e.result.Err? ==> e.tables == t
  {
    match BatchRows(t, items)
    case Err(m) => Effect(Err(m), t)
    case Ok(u) => Effect(Ok(()), u)
  }

  // ---------------------------------------------------------------------
  // The single upsert
  // ---------------------------------------------------------------------

  /** On an existing pair the upsert rewrites that row's hours and keeps its
      id and its priority; no other row and no other table changes. */
  lemma {:induction false} UpsertOverwritesExisting(t: Tables, input: RequirementInput, k: int)
    requires RequirementFor(t.requirements, input.projectId, input.periodId).Some?
    requires 0 <= k < |t.requirements|
    ensures Upsert(t, input).result.Ok?
    ensures |Upsert(t, input).tables.requirements| == |t.requirements|
    ensures Upsert(t, input).tables == t.(requirements := Upsert(t, input).tables.requirements)
    ensures IsPair(t.requirements[k], input.projectId, input.periodId) ==>
              Upsert(t, input).tables.requirements[k]
              == t.requirements[k].(requiredHours := input.requiredHours)
    ensures !IsPair(t.requirements[k], input.projectId, input.periodId) ==>
              Upsert(t, input).tables.requirements[k] == t.requirements[k]
  {
  }

  /** On a new pair the upsert appends one row with a fresh id and the
      default priority, whatever priority the input carries; with a missing
      project or period it fails and changes nothing. */
  lemma {:induction false} UpsertInsertsNew(t: Tables, input: RequirementInput)
    requires RequirementFor(t.requirements, input.projectId, input.periodId).None?
    ensures ReferencesExist(t, input.projectId, input.periodId) ==>
              Upsert(t, input)
              == Effect(Ok(()), t.(requirements := t.requirements
                                                  + [Requirement(t.nextId, input.projectId, input.periodId,
                                                                 input.requiredHours, DefaultPriority)],
                                   nextId := t.nextId + 1))
    ensures !ReferencesExist(t, input.projectId, input.periodId) ==>
              Upsert(t, input) == Effect(Err(ForeignKeyFailed), t)
  {
  }

  /** Every pair keeps its row and no row disappears: an upsert only adds a
      row for its own pair. */
  lemma {:induction false} UpsertedKeepsPairs(t: Tables, projectId: int, periodId: int,
                                              hours: real, priority: Option<int>)
    requires Upserted(t, projectId, periodId, hours, priority).Ok?
    ensures var u := Upserted(t, projectId, periodId, hours, priority).value;
            && |t.requirements| <= |u.requirements|
            && (forall k :: 0 <= k < |t.requirements| ==>
                  IsPair(u.requirements[k], t.requirements[k].projectId, t.requirements[k].periodId)
                  && u.requirements[k].id == t.requirements[k].id)
            && RequirementFor(u.requirements, projectId, periodId).Some?
            && u.projects == t.projects && u.periods == t.periods
  {
    var u := Upserted(t, projectId, periodId, hours, priority).value;
    if RequirementFor(t.requirements, projectId, periodId).None? {
      var k := |u.requirements| - 1;
      assert IsPair(u.requirements[k], projectId, periodId);
      NoPairMeansNone(u.requirements, projectId, periodId, k);
    } else {
      var w := RequirementFor(t.requirements, projectId, periodId).value;
      var k :| 0 <= k < |t.requirements| && t.requirements[k] == w;
      NoPairMeansNone(u.requirements, projectId, periodId, k);
    }
  }

  lemma {:induction false} NoPairMeansNone(reqs: seq<Requirement>, projectId: int, periodId: int, k: int)
    requires 0 <= k < |reqs| && IsPair(reqs[k], projectId, periodId)
    ensures RequirementFor(reqs, projectId, periodId).Some?
  {
  }

  /** The upsert keeps the table's (project, period) pairs unique. */
  lemma {:induction false} UpsertedKeepsPairsUnique(t: Tables, projectId: int, periodId: int,
                                                    hours: real, priority: Option<int>)
    requires UniquePairs(t.requirements)
    requires Upserted(t, projectId, periodId, hours, priority).Ok?
    ensures UniquePairs(Upserted(t, projectId, periodId, hours, priority).value.requirements)
  {
    var u := Upserted(t, projectId, periodId, hours, priority).value;
    if RequirementFor(t.requirements, projectId, periodId).None? {
      forall i, j | 0 <= i < j < |u.requirements|
        ensures !(u.requirements[i].projectId == u.requirements[j].projectId
                  && u.requirements[i].periodId == u.requirements[j].periodId)
      {
        if j == |t.requirements| {
          assert u.requirements[i] == t.requirements[i];
        } else {
          assert u.requirements[i] == t.requirements[i] && u.requirements[j] == t.requirements[j];
        }
      }
    }
  }

  /** Repeating a single upsert changes nothing more. */
  lemma {:induction false} UpsertIsIdempotent(t: Tables, input: RequirementInput)
    requires Upsert(t, input).result.Ok?
    ensures Upsert(Upsert(t, input).tables, input) == Upsert(t, input)
  {
    var u := Upsert(t, input).tables;
    UpsertedKeepsPairs(t, input.projectId, input.periodId, input.requiredHours, None);
    var v := Upsert(u, input).tables;
    assert v.requirements == u.requirements by {
      forall k | 0 <= k < |u.requirements|
        ensures v.requirements[k] == u.requirements[k]
      {
        if k < |t.requirements| && RequirementFor(t.requirements, input.projectId, input.periodId).None? {
          assert u.requirements[k] == t.requirements[k];
        }
      }
    }
  }

  // ---------------------------------------------------------------------
  // The batch
  // ---------------------------------------------------------------------

  lemma {:induction false} BatchRowsStep(t: Tables, items: seq<RequirementInput>, i: int)
    requires 0 <= i < |items|
    ensures BatchRows(t, items[..i + 1])
            == match BatchRows(t, items[..i])
               case Err(m) => Err(m)
               case Ok(u) => BatchStep(u, items[i])
  {
    assert items[..i + 1][..i] == items[..i];
  }

  /** A failure on a prefix is the failure of the whole batch. */
  lemma {:induction false} BatchRowsAbort(t: Tables, items: seq<RequirementInput>, j: int)
    requires 0 <= j <= |items| && BatchRows(t, items[..j]).Err?
    ensures BatchRows(t, items) == BatchRows(t, items[..j])
    decreases |items| - j
  {
    if j < |items| {
      BatchRowsStep(t, items, j);
      BatchRowsAbort(t, items, j + 1);
    } else {
      assert items[..j] == items;
    }
  }

  /** The last item of the batch that names the pair, if any. */
  function LastFor(items: seq<RequirementInput>, projectId: int, periodId: int)
    : (r: Option<RequirementInput>)
    ensures r.Some? ==> r.value in items && r.value.projectId == projectId && r.value.periodId == periodId
    decreases |items|
  {
    if items == [] then None
    else
      var x := items[|items| - 1];
      if x.projectId == projectId && x.periodId == periodId then Some(x)
      else LastFor(items[..|items| - 1], projectId, periodId)
  }

  /** Does every row show the values of the last item that names its pair? */
  ghost predicate Settled(reqs: seq<Requirement>, items: seq<RequirementInput>)
  {
    forall k :: 0 <= k < |reqs| ==>
      match LastFor(items, reqs[k].projectId, reqs[k].periodId)
      case None => true
      case Some(x) => reqs[k].requiredHours == x.requiredHours && reqs[k].priority == BatchPriority(x)
  }

  /** After a successful batch every item's pair has a row, and each such row
      holds the hours and the priority (given, or the default 10) of the last
      item naming its pair; projects and periods are untouched. */
  lemma {:induction false} BatchStoresLastValues(t: Tables, items: seq<RequirementInput>)
    requires BatchRows(t, items).Ok?
    ensures Settled(BatchRows(t, items).value.requirements, items)
    ensures Covers(BatchRows(t, items).value.requirements, items)
    ensures BatchRows(t, items).value.projects == t.projects
    ensures BatchRows(t, items).value.periods == t.periods
    decreases |items|
  {
    if items != [] {
      var init := items[..|items| - 1];
      var x := items[|items| - 1];
      assert items == init + [x];
      BatchStoresLastValues(t, init);
      var u := BatchRows(t, init).value;
      UpsertedKeepsPairs(u, x.projectId, x.periodId, x.requiredHours, Some(BatchPriority(x)));
      SettledStep(u, init, x);
      CoversStep(u, init, x);
    }
  }

  /** One more item keeps the rows settled. */
  lemma {:induction false} SettledStep(u: Tables, init: seq<RequirementInput>, x: RequirementInput)
    requires Settled(u.requirements, init)
    requires BatchStep(u, x).Ok?
    ensures Settled(BatchStep(u, x).value.requirements, init + [x])
  {
    var items := init + [x];
    assert items[..|items| - 1] == init;
    var v := BatchStep(u, x).value;
    forall k | 0 <= k < |v.requirements|
      ensures match LastFor(items, v.requirements[k].projectId, v.requirements[k].periodId)
              case None => true
              case Some(y) => v.requirements[k].requiredHours == y.requiredHours
                              && v.requirements[k].priority == BatchPriority(y)
    {
      if k < |u.requirements| && !IsPair(u.requirements[k], x.projectId, x.periodId) {
        assert v.requirements[k] == u.requirements[k];
      }
    }
  }

  /** One more item keeps every earlier item's pair present and adds its own. */
  lemma {:induction false} CoversStep(u: Tables, init: seq<RequirementInput>, x: RequirementInput)
    requires Covers(u.requirements, init)
    requires BatchStep(u, x).Ok?
    ensures Covers(BatchStep(u, x).value.requirements, init + [x])
  {
    var items := init + [x];
    var v := BatchStep(u, x).value;
    UpsertedKeepsPairs(u, x.projectId, x.periodId, x.requiredHours, Some(BatchPriority(x)));
    forall k | 0 <= k < |items|
      ensures RequirementFor(v.requirements, items[k].projectId, items[k].periodId).Some?
    {
      if k < |init| {
        assert items[k] == init[k];
        var w := RequirementFor(u.requirements, init[k].projectId, init[k].periodId).value;
        var j :| 0 <= j < |u.requirements| && u.requirements[j] == w;
        NoPairMeansNone(v.requirements, items[k].projectId, items[k].periodId, j);
      }
    }
  }

  /** A successful batch keeps the table's (project, period) pairs unique. */
  lemma {:induction false} BatchKeepsPairsUnique(t: Tables, items: seq<RequirementInput>)
    requires UniquePairs(t.requirements)
    requires BatchRows(t, items).Ok?
    ensures UniquePairs(BatchRows(t, items).value.requirements)
    decreases |items|
  {
    if items != [] {
      var init := items[..|items| - 1];
      var x := items[|items| - 1];
      BatchKeepsPairsUnique(t, init);
      UpsertedKeepsPairsUnique(BatchRows(t, init).value, x.projectId, x.periodId,
                               x.requiredHours, Some(BatchPriority(x)));
    }
  }

  /** `u` keeps every row of `t` with its pair, and every row it adds names
      a project and a period that exist in `t`. */
  ghost predicate Grown(t: Tables, u: Tables)
  {
    && |t.requirements| <= |u.requirements|
    && (forall k :: 0 <= k < |t.requirements| ==>
          IsPair(u.requirements[k], t.requirements[k].projectId, t.requirements[k].periodId))
    && (forall k :: |t.requirements| <= k < |u.requirements| ==>
          ReferencesExist(t, u.requirements[k].projectId, u.requirements[k].periodId))
    && u.projects == t.projects && u.periods == t.periods
  }

  lemma {:induction false} GrownStep(t: Tables, u: Tables, x: RequirementInput)
    requires Grown(t, u) && BatchStep(u, x).Ok?
    ensures Grown(t, BatchStep(u, x).value)
  {
    var v := BatchStep(u, x).value;
    UpsertedKeepsPairs(u, x.projectId, x.periodId, x.requiredHours, Some(BatchPriority(x)));
    forall k | |t.requirements| <= k < |v.requirements|
      ensures ReferencesExist(t, v.requirements[k].projectId, v.requirements[k].periodId)
    {
      if k < |u.requirements| {
        assert IsPair(v.requirements[k], u.requirements[k].projectId, u.requirements[k].periodId);
      }
    }
  }

  lemma {:induction false} BatchGrows(t: Tables, items: seq<RequirementInput>)
    requires BatchRows(t, items).Ok?
    ensures Grown(t, BatchRows(t, items).value)
    decreases |items|
  {
    if items != [] {
      var init := items[..|items| - 1];
      BatchGrows(t, init);
      GrownStep(t, BatchRows(t, init).value, items[|items| - 1]);
    }
  }

  /** Can the item be applied to `t`: its pair has a row, or its project and
      period exist so that a new row may be inserted? */
  predicate Applicable(t: Tables, x: RequirementInput)
  {
    RequirementFor(t.requirements, x.projectId, x.periodId).Some?
    || ReferencesExist(t, x.projectId, x.periodId)
  }

  /** Earlier items of a batch neither make a later item applicable nor stop
      it from being so. */
  lemma {:induction false} ApplicableAfterGrowth(t: Tables, u: Tables, x: RequirementInput)
    requires Grown(t, u)
    ensures Applicable(u, x) <==> Applicable(t, x)
  {
    if RequirementFor(t.requirements, x.projectId, x.periodId).Some? {
      var w := RequirementFor(t.requirements, x.projectId, x.periodId).value;
      var j :| 0 <= j < |t.requirements| && t.requirements[j] == w;
      NoPairMeansNone(u.requirements, x.projectId, x.periodId, j);
    } else if RequirementFor(u.requirements, x.projectId, x.periodId).Some? {
      var w := RequirementFor(u.requirements, x.projectId, x.periodId).value;
      var j :| 0 <= j < |u.requirements| && u.requirements[j] == w;
    }
  }

  /** A batch commits exactly when every item is applicable to the tables it
      starts from; otherwise it fails with the foreign-key error. */
  lemma {:induction false} BatchAcceptance(t: Tables, items: seq<RequirementInput>)
    ensures BatchRows(t, items).Ok? <==> forall k :: 0 <= k < |items| ==> Applicable(t, items[k])
    ensures BatchRows(t, items).Err? ==> BatchRows(t, items) == Err(ForeignKeyFailed)
    decreases |items|
  {
    if items != [] {
      var init := items[..|items| - 1];
      var x := items[|items| - 1];
      BatchAcceptance(t, init);
      assert forall k :: 0 <= k < |init| ==> init[k] == items[k];
      if BatchRows(t, init).Ok? {
        var u := BatchRows(t, init).value;
        BatchGrows(t, init);
        ApplicableAfterGrowth(t, u, x);
      }
    }
  }

  /** Does every item name a pair that already has a row? */
  predicate Covers(reqs: seq<Requirement>, items: seq<RequirementInput>)
  {
    forall k :: 0 <= k < |items| ==> RequirementFor(reqs, items[k].projectId, items[k].periodId).Some?
  }

  /** The batch on a table that already has a row for every item's pair:
      each row takes the values of the last item naming its pair. */
  function Settle(reqs: seq<Requirement>, items: seq<RequirementInput>): (rs: seq<Requirement>)
    ensures |rs| == |reqs|
  {
    seq(|reqs|, k requires 0 <= k < |reqs| =>
      match LastFor(items, reqs[k].projectId, reqs[k].periodId)
      case None => reqs[k]
      case Some(x) => reqs[k].(requiredHours := x.requiredHours, priority := BatchPriority(x)))
  }

  /** When every pair already has a row, a batch only rewrites values: it
      cannot fail and it equals Settle. */
  lemma {:induction false} BatchOnCoveredTable(t: Tables, items: seq<RequirementInput>)
    requires Covers(t.requirements, items)
    ensures BatchRows(t, items) == Ok(t.(requirements := Settle(t.requirements, items)))
    decreases |items|
  {
    if items != [] {
      var init := items[..|items| - 1];
      var x := items[|items| - 1];
      assert Covers(t.requirements, init) by {
        forall k | 0 <= k < |init| ensures RequirementFor(t.requirements, init[k].projectId, init[k].periodId).Some? {
          assert init[k] == items[k];
        }
      }
      BatchOnCoveredTable(t, init);
      var s := Settle(t.requirements, init);
      var w := RequirementFor(t.requirements, x.projectId, x.periodId).value;
      var j :| 0 <= j < |t.requirements| && t.requirements[j] == w;
      assert IsPair(s[j], x.projectId, x.periodId);
      NoPairMeansNone(s, x.projectId, x.periodId, j);
      var o := Overwrite(s, x.projectId, x.periodId, x.requiredHours, Some(BatchPriority(x)));
      assert BatchStep(t.(requirements := s), x) == Ok(t.(requirements := o));
      assert o == Settle(t.requirements, items) by {
        forall k | 0 <= k < |o| ensures o[k] == Settle(t.requirements, items)[k] {
          var r := t.requirements[k];
          assert IsPair(s[k], r.projectId, r.periodId);
          assert LastFor(items, r.projectId, r.periodId)
                 == if IsPair(r, x.projectId, x.periodId) then Some(x) else LastFor(init, r.projectId, r.periodId);
        }
      }
    } else {
      assert Settle(t.requirements, items) == t.requirements;
    }
  }

  /** Applying the same batch twice gives the tables of applying it once. */
  lemma {:induction false} BatchIsIdempotent(t: Tables, items: seq<RequirementInput>)
    ensures BatchUpsert(BatchUpsert(t, items).tables, items) == BatchUpsert(t, items)
  {
    if BatchRows(t, items).Ok? {
      var u := BatchRows(t, items).value;
      BatchStoresLastValues(t, items);
      BatchOnCoveredTable(u, items);
      assert Settle(u.requirements, items) == u.requirements by {
        forall k | 0 <= k < |u.requirements| ensures Settle(u.requirements, items)[k] == u.requirements[k] {
        }
      }
    }
  }

  // ---------------------------------------------------------------------
  // The commands on the database
  // ---------------------------------------------------------------------

  /** `upsert_project_requirement` on the database. */
  method UpsertRequirement(db: Database, input: RequirementInput) returns (r: Result<(), string>)
    modifies db
    ensures Effect(r, db.Snapshot()) == Upsert(old(db.Snapshot()), input)
  {
    if RequirementFor(db.requirements, input.projectId, input.periodId).Some? {
      db.requirements := Overwrite(db.requirements, input.projectId, input.periodId,
                                   input.requiredHours, None);
      return Ok(());
    }
    if !ReferencesExist(db.Snapshot(), input.projectId, input.periodId) {
      return Err(ForeignKeyFailed);
    }
    db.requirements := db.requirements
                       + [Requirement(db.nextId, input.projectId, input.periodId,
                                      input.requiredHours, DefaultPriority)];
    db.nextId := db.nextId + 1;
    r := Ok(());
  }

  /** `batch_upsert_project_requirements` on the database: the items are
      applied to a staged copy that is stored only when all succeed. */
  method BatchUpsertRequirements(db: Database, items: seq<RequirementInput>) returns (r: Result<(), string>)
    modifies db
    ensures Effect(r, db.Snapshot()) == BatchUpsert(old(db.Snapshot()), items)
  {
    var tx := db.Snapshot();
    var i := 0;
    while i < |items|
      invariant 0 <= i <= |items|
      invariant db.Snapshot() == old(db.Snapshot())
      invariant BatchRows(db.Snapshot(), items[..i]) == Ok(tx)
    {
      BatchRowsStep(db.Snapshot(), items, i);
      var next := BatchStep(tx, items[i]);
      if next.Err? {
        BatchRowsAbort(db.Snapshot(), items, i + 1);
        return Err(next.error);
      }
      tx := next.value;
      i := i + 1;
    }
    assert items[..i] == items;
    db.Store(tx);
    r := Ok(());
  }
}
