/**
 * The order in which the proportional optimizer visits projects: every
 * project with assignments is ranked by its requirement's priority (or
 * skipped with a warning when it has none), the ranking is sorted stably from
 * the highest priority down, and the sorted ranking is cut into groups of
 * equal priority.
 */
module Ranking {
  import opened Base
  import opened Tables

  /** The optimizer's warnings. */
  datatype Warning = NoAssignments | MissingRequirement(projectId: int)

  /** A (priority, project id) pair of the ranking. */
  datatype Ranked = Ranked(priority: int, projectId: int)

  datatype Ranking = Ranking(ranked: seq<Ranked>, warnings: seq<Warning>)

  // ---------------------------------------------------------------------
  // Ranking
  // ---------------------------------------------------------------------

  /** The projects of `order` paired with their requirement's priority, in
      order; a project without a requirement is left out and warned about. */
  function Rank(order: seq<int>, reqs: map<int, Requirement>): (r: Ranking)
    ensures |r.ranked| + |r.warnings| == |order|
    decreases |order|
  {
    if order == [] then Ranking([], [])
    else
      var init := Rank(order[..|order| - 1], reqs);
      var p := order[|order| - 1];
      if p in reqs then Ranking(init.ranked + [Ranked(reqs[p].priority, p)], init.warnings)
      else Ranking(init.ranked, init.warnings + [MissingRequirement(p)])
  }

  /** Exactly the projects with a requirement are ranked, at their
      requirement's priority, and exactly the others are warned about. */
  lemma {:induction false} RankCovers(order: seq<int>, reqs: map<int, Requirement>)
    ensures forall x :: x in Rank(order, reqs).ranked ==>
      x.projectId in order && x.projectId in reqs && x.priority == reqs[x.projectId].priority
    ensures forall p :: p in order && p in reqs ==> Ranked(reqs[p].priority, p) in Rank(order, reqs).ranked
    ensures forall w :: w in Rank(order, reqs).warnings <==>
      w.MissingRequirement? && w.projectId in order && w.projectId !in reqs
    decreases |order|
  {
    if order != [] {
      RankCovers(order[..|order| - 1], reqs);
      assert order == order[..|order| - 1] + [order[|order| - 1]];
    }
  }

  lemma RankStep(order: seq<int>, reqs: map<int, Requirement>, i: int)
    requires 0 <= i < |order|
    ensures var r := Rank(order[..i], reqs);
      Rank(order[..i + 1], reqs)
      == if order[i] in reqs then Ranking(r.ranked + [Ranked(reqs[order[i]].priority, order[i])], r.warnings)
         else Ranking(r.ranked, r.warnings + [MissingRequirement(order[i])])
  {
    assert order[..i + 1][..i] == order[..i];
  }

  /** The loop that builds the ranking and the missing-requirement warnings. */
  method RankProjects(order: seq<int>, reqs: map<int, Requirement>) returns (ranked: seq<Ranked>, warnings: seq<Warning>)
    ensures Ranking(ranked, warnings) == Rank(order, reqs)
  {
    ranked := [];
    warnings := [];
    var i := 0;
    while i < |order|
      invariant 0 <= i <= |order|
      invariant Ranking(ranked, warnings) == Rank(order[..i], reqs)
    {
      var p := order[i];
      RankStep(order, reqs, i);
      if p in reqs {
        ranked := ranked + [Ranked(reqs[p].priority, p)];
      } else {
        warnings := warnings + [MissingRequirement(p)];
      }
      i := i + 1;
    }
    assert order[..|order|] == order;
  }

  // ---------------------------------------------------------------------
  // The stable sort by descending priority
  // ---------------------------------------------------------------------

  predicate SortedByPriority(rs: seq<Ranked>)
  {
    forall i, j :: 0 <= i < j < |rs| ==> rs[i].priority >= rs[j].priority
  }

  /** `x` placed before the first element whose priority is not above its
      own: after every higher-priority element, before every other. */
  function Insert(x: Ranked, s: seq<Ranked>): (r: seq<Ranked>)
    ensures multiset(r) == multiset(s) + multiset{x}
    decreases |s|
  {
    if s == [] || x.priority >= s[0].priority then [x] + s
    else
      assert s == [s[0]] + s[1..];
      [s[0]] + Insert(x, s[1..])
  }

  /** The ranking sorted by descending priority, keeping the original order
      among equal priorities (the library's stable sort). */
  function SortByPriority(rs: seq<Ranked>): (r: seq<Ranked>)
    ensures multiset(r) == multiset(rs)
    decreases |rs|
  {
    if rs == [] then []
    else
      assert rs == [rs[0]] + rs[1..];
      Insert(rs[0], SortByPriority(rs[1..]))
  }

  predicate AllAtMost(s: seq<Ranked>, p: int)
  {
    forall k :: 0 <= k < |s| ==> s[k].priority <= p
  }

  lemma {:induction false} InsertAtMost(x: Ranked, s: seq<Ranked>, p: int)
    requires AllAtMost(s, p) && x.priority <= p
    ensures AllAtMost(Insert(x, s), p)
    decreases |s|
  {
    if s == [] || x.priority >= s[0].priority {
    } else {
      InsertAtMost(x, s[1..], p);
    }
  }

  lemma {:induction false} InsertSorted(x: Ranked, s: seq<Ranked>)
    requires SortedByPriority(s)
    ensures SortedByPriority(Insert(x, s))
    decreases |s|
  {
    if s == [] || x.priority >= s[0].priority {
    } else {
      var rest := Insert(x, s[1..]);
      InsertSorted(x, s[1..]);
      InsertAtMost(x, s[1..], s[0].priority);
      assert [s[0]] + rest == Insert(x, s);
    }
  }

  /** The sorted ranking is in non-increasing priority order. */
  lemma {:induction false} SortIsSorted(rs: seq<Ranked>)
    ensures SortedByPriority(SortByPriority(rs))
    decreases |rs|
  {
    if rs != [] {
      SortIsSorted(rs[1..]);
      InsertSorted(rs[0], SortByPriority(rs[1..]));
    }
  }

  /** The elements of priority `q`, in order. */
  function WithPriority(rs: seq<Ranked>, q: int): seq<Ranked>
    decreases |rs|
  {
    if rs == [] then []
    else (if rs[0].priority == q then [rs[0]] else []) + WithPriority(rs[1..], q)
  }

  lemma {:induction false} InsertStable(x: Ranked, s: seq<Ranked>, q: int)
    ensures WithPriority(Insert(x, s), q)
            == (if x.priority == q then [x] else []) + WithPriority(s, q)
    decreases |s|
  {
    if s == [] || x.priority >= s[0].priority {
      assert ([x] + s)[1..] == s;
      assert WithPriority([x] + s, q) == (if x.priority == q then [x] else []) + WithPriority(s, q);
    } else {
      var rest := Insert(x, s[1..]);
      InsertStable(x, s[1..], q);
      assert ([s[0]] + rest)[1..] == rest;
      assert WithPriority([s[0]] + rest, q) == (if s[0].priority == q then [s[0]] else []) + WithPriority(rest, q);
      assert WithPriority(s, q) == (if s[0].priority == q then [s[0]] else []) + WithPriority(s[1..], q);
    }
  }

  /** Stability: the projects of each priority keep their relative order. */
  lemma {:induction false} SortIsStable(rs: seq<Ranked>, q: int)
    ensures WithPriority(SortByPriority(rs), q) == WithPriority(rs, q)
    decreases |rs|
  {
    if rs != [] {
      SortIsStable(rs[1..], q);
      InsertStable(rs[0], SortByPriority(rs[1..]), q);
    }
  }

  // ---------------------------------------------------------------------
  // Priority groups
  // ---------------------------------------------------------------------

  /** The project ids of a ranking, in order. */
  function Ids(rs: seq<Ranked>): (ids: seq<int>)
    ensures |ids| == |rs|
    ensures forall k :: 0 <= k < |rs| ==> ids[k] == rs[k].projectId
  {
    seq(|rs|, k requires 0 <= k < |rs| => rs[k].projectId)
  }

  /** The ranking cut into maximal runs of equal priority. */
  function PriorityGroups(rs: seq<Ranked>): (gs: seq<seq<Ranked>>)
    ensures (gs == []) == (rs == [])
    ensures gs != [] ==> gs[|gs| - 1] != [] && gs[|gs| - 1][|gs[|gs| - 1]| - 1] == rs[|rs| - 1]
    decreases |rs|
  {
    if rs == [] then []
    else
      var gs := PriorityGroups(rs[..|rs| - 1]);
      var x := rs[|rs| - 1];
      if |rs| > 1 && rs[|rs| - 2].priority == x.priority
      then gs[..|gs| - 1] + [gs[|gs| - 1] + [x]]
      else gs + [[x]]
  }

  lemma GroupsStep(rs: seq<Ranked>, i: int)
    requires 0 < i < |rs|
    ensures var gs := PriorityGroups(rs[..i]);
      PriorityGroups(rs[..i + 1])
      == if rs[i - 1].priority == rs[i].priority then gs[..|gs| - 1] + [gs[|gs| - 1] + [rs[i]]]
         else gs + [[rs[i]]]
  {
    assert rs[..i + 1][..i] == rs[..i];
  }

  function Flatten<T>(gs: seq<seq<T>>): seq<T>
    decreases |gs|
  {
    if gs == [] then [] else Flatten(gs[..|gs| - 1]) + gs[|gs| - 1]
  }

  lemma FlattenSnoc<T>(gs: seq<seq<T>>, g: seq<T>)
    ensures Flatten(gs + [g]) == Flatten(gs) + g
  {
    assert (gs + [g])[..|gs|] == gs;
  }

  lemma FlattenMergeLast<T>(front: seq<seq<T>>, g: seq<T>, x: T)
    ensures Flatten(front + [g + [x]]) == Flatten(front + [g]) + [x]
  {
    FlattenSnoc(front, g);
    FlattenSnoc(front, g + [x]);
  }

  /** Concatenating the groups gives back the ranking: grouping changes
      nothing about the order in which projects are visited. */
  lemma {:induction false} GroupsFlatten(rs: seq<Ranked>)
    ensures Flatten(PriorityGroups(rs)) == rs
    decreases |rs|
  {
    if rs != [] {
      var init := rs[..|rs| - 1];
      var gs := PriorityGroups(init);
      var x := rs[|rs| - 1];
      GroupsFlatten(init);
      assert rs == init + [x];
      if |rs| > 1 && rs[|rs| - 2].priority == x.priority {
        var front := gs[..|gs| - 1];
        var g := gs[|gs| - 1];
        assert PriorityGroups(rs) == front + [g + [x]];
        assert gs == front + [g];
        FlattenMergeLast(front, g, x);
      } else {
        assert PriorityGroups(rs) == gs + [[x]];
        FlattenSnoc(gs, [x]);
      }
    }
  }

  /** A non-empty group of one priority. */
  predicate Uniform(g: seq<Ranked>)
  {
    g != [] && forall k :: 0 <= k < |g| ==> g[k].priority == g[0].priority
  }

  /** Every group is non-empty and of one priority. */
  lemma {:induction false} GroupsUniform(rs: seq<Ranked>)
    ensures forall i :: 0 <= i < |PriorityGroups(rs)| ==> Uniform(PriorityGroups(rs)[i])
    decreases |rs|
  {
    if rs != [] {
      var init := rs[..|rs| - 1];
      var gs := PriorityGroups(init);
      var x := rs[|rs| - 1];
      GroupsUniform(init);
      if |rs| > 1 && rs[|rs| - 2].priority == x.priority {
        var front := gs[..|gs| - 1];
        var g := gs[|gs| - 1];
        assert Uniform(g);
        assert g[|g| - 1] == rs[|rs| - 2];
        var g' := g + [x];
        forall k | 0 <= k < |g'|
          ensures g'[k].priority == g'[0].priority
        {
          if k < |g| { assert g'[k] == g[k]; }
        }
        var gs' := front + [g'];
        forall i | 0 <= i < |gs'|
          ensures Uniform(gs'[i])
        {
          if i < |front| { assert gs'[i] == gs[i]; }
        }
      } else {
        var gs': seq<seq<Ranked>> := gs + [[x]];
        forall i | 0 <= i < |gs'|
          ensures Uniform(gs'[i])
        {
          if i < |gs| { assert gs'[i] == gs[i]; }
        }
      }
    }
  }

  /** The first priority of each group. */
  function GroupPriorities(gs: seq<seq<Ranked>>): (ps: seq<int>)
    requires forall i :: 0 <= i < |gs| ==> gs[i] != []
    ensures |ps| == |gs|
  {
    seq(|gs|, i requires 0 <= i < |gs| => gs[i][0].priority)
  }

  /** Non-empty groups whose priorities strictly decrease. */
  predicate StrictlyDescending(gs: seq<seq<Ranked>>)
  {
    forall i, j :: 0 <= i < j < |gs| ==> gs[i] != [] && gs[j] != [] && gs[i][0].priority > gs[j][0].priority
  }

  lemma AppendGroup(gs: seq<seq<Ranked>>, x: Ranked)
    requires StrictlyDescending(gs) && gs != [] && gs[|gs| - 1] != []
    requires gs[|gs| - 1][0].priority > x.priority
    ensures StrictlyDescending(gs + [[x]])
  {
    var gs': seq<seq<Ranked>> := gs + [[x]];
    forall i, j | 0 <= i < j < |gs'|
      ensures gs'[i] != [] && gs'[j] != [] && gs'[i][0].priority > gs'[j][0].priority
    {
      assert gs'[i] == gs[i];
      if j < |gs| { assert gs'[j] == gs[j]; }
      else if i < |gs| - 1 { assert gs[i][0].priority > gs[|gs| - 1][0].priority; }
    }
  }

  lemma ExtendLastGroup(gs: seq<seq<Ranked>>, x: Ranked)
    requires StrictlyDescending(gs) && gs != [] && gs[|gs| - 1] != []
    ensures StrictlyDescending(gs[..|gs| - 1] + [gs[|gs| - 1] + [x]])
  {
    var gs': seq<seq<Ranked>> := gs[..|gs| - 1] + [gs[|gs| - 1] + [x]];
    forall i, j | 0 <= i < j < |gs'|
      ensures gs'[i] != [] && gs'[j] != [] && gs'[i][0].priority > gs'[j][0].priority
    {
      assert gs'[i] == gs[i];
      if j < |gs| - 1 { assert gs'[j] == gs[j]; } else { assert gs'[j][0] == gs[j][0]; }
    }
  }

  /** On a sorted ranking the groups' priorities strictly decrease, so each
      priority forms exactly one group. */
  lemma {:induction false} GroupsDecrease(rs: seq<Ranked>)
    requires SortedByPriority(rs)
    ensures StrictlyDescending(PriorityGroups(rs))
    decreases |rs|
  {
    if |rs| > 1 {
      var init := rs[..|rs| - 1];
      var gs := PriorityGroups(init);
      var x := rs[|rs| - 1];
      GroupsUniform(init);
      GroupsDecrease(init);
      var g := gs[|gs| - 1];
      assert Uniform(g);
      assert g[|g| - 1] == rs[|rs| - 2];
      if rs[|rs| - 2].priority == x.priority {
        ExtendLastGroup(gs, x);
      } else {
        assert g[0].priority > x.priority;
        AppendGroup(gs, x);
      }
    } else if rs != [] {
      assert rs[..0] == [];
      assert |PriorityGroups(rs)| == 1;
    }
  }

  /** The groups as lists of project ids. */
  function IdGroups(gs: seq<seq<Ranked>>): (r: seq<seq<int>>)
    ensures |r| == |gs|
    ensures forall i :: 0 <= i < |gs| ==> r[i] == Ids(gs[i])
  {
    seq(|gs|, i requires 0 <= i < |gs| => Ids(gs[i]))
  }

  lemma IdGroupsSnoc(gs: seq<seq<Ranked>>, g: seq<Ranked>)
    ensures IdGroups(gs + [g]) == IdGroups(gs) + [Ids(g)]
  {
  }

  lemma IdsSnoc(g: seq<Ranked>, x: Ranked)
    ensures Ids(g + [x]) == Ids(g) + [x.projectId]
  {
  }

  lemma {:induction false} IdsFlatten(gs: seq<seq<Ranked>>)
    ensures Flatten(IdGroups(gs)) == Ids(Flatten(gs))
    decreases |gs|
  {
    if gs != [] {
      var front := gs[..|gs| - 1];
      IdsFlatten(front);
      assert gs == front + [gs[|gs| - 1]];
      IdGroupsSnoc(front, gs[|gs| - 1]);
      FlattenSnoc(IdGroups(front), Ids(gs[|gs| - 1]));
      FlattenSnoc(front, gs[|gs| - 1]);
      assert Ids(Flatten(front) + gs[|gs| - 1]) == Ids(Flatten(front)) + Ids(gs[|gs| - 1]);
    }
  }

  /** What one step of the grouping loop does to the groups closed so far
      and to the open group: the element joins the open group when its
      priority equals that of the element before it, and otherwise closes
      the open group and opens a new one. */
  lemma GroupLoopStep(rs: seq<Ranked>, i: int)
    requires 0 < i < |rs|
    ensures var gs := PriorityGroups(rs[..i]);
      var gs' := PriorityGroups(rs[..i + 1]);
      gs != [] && gs' != []
      && (rs[i - 1].priority == rs[i].priority ==>
            IdGroups(gs'[..|gs'| - 1]) == IdGroups(gs[..|gs| - 1])
            && Ids(gs'[|gs'| - 1]) == Ids(gs[|gs| - 1]) + [rs[i].projectId])
      && (rs[i - 1].priority != rs[i].priority ==>
            IdGroups(gs'[..|gs'| - 1]) == IdGroups(gs[..|gs| - 1]) + [Ids(gs[|gs| - 1])]
            && Ids(gs'[|gs'| - 1]) == [rs[i].projectId])
  {
    GroupsStep(rs, i);
    var gs := PriorityGroups(rs[..i]);
    var gs' := PriorityGroups(rs[..i + 1]);
    var front := gs[..|gs| - 1];
    var g := gs[|gs| - 1];
    if rs[i - 1].priority == rs[i].priority {
      assert gs' == front + [g + [rs[i]]];
      assert gs'[..|gs'| - 1] == front;
      IdsSnoc(g, rs[i]);
    } else {
      assert gs' == gs + [[rs[i]]];
      assert gs'[..|gs'| - 1] == front + [g];
      IdGroupsSnoc(front, g);
    }
  }

  lemma GroupLoopFirst(rs: seq<Ranked>)
    requires rs != []
    ensures var gs := PriorityGroups(rs[..1]);
      gs != [] && IdGroups(gs[..|gs| - 1]) == [] && Ids(gs[|gs| - 1]) == [rs[0].projectId]
  {
    assert rs[..1] == [rs[0]];
    assert PriorityGroups(rs[..1]) == [[rs[0]]];
  }

  lemma GroupLoopEnd(gs: seq<seq<Ranked>>)
    requires gs != []
    ensures IdGroups(gs) == IdGroups(gs[..|gs| - 1]) + [Ids(gs[|gs| - 1])]
  {
    assert gs == gs[..|gs| - 1] + [gs[|gs| - 1]];
    IdGroupsSnoc(gs[..|gs| - 1], gs[|gs| - 1]);
  }

  /** The grouping loop: a new group starts whenever the priority differs
      from the current group's. */
  method GroupByPriority(rs: seq<Ranked>) returns (groups: seq<seq<int>>)
    ensures groups == IdGroups(PriorityGroups(rs))
  {
    groups := [];
    var currentPriority: Option<int> := None;
    var currentGroup: seq<int> := [];
    var i := 0;
    while i < |rs|
      invariant 0 <= i <= |rs|
      invariant i == 0 ==> currentPriority.None? && currentGroup == [] && groups == []
      invariant i > 0 ==> currentPriority == Some(rs[i - 1].priority)
      invariant i > 0 ==> var gs := PriorityGroups(rs[..i]);
        gs != [] && groups == IdGroups(gs[..|gs| - 1]) && currentGroup == Ids(gs[|gs| - 1])
    {
      var x := rs[i];
      if i == 0 {
        GroupLoopFirst(rs);
      } else {
        GroupLoopStep(rs, i);
      }
      if currentPriority.None? || currentPriority.value == x.priority {
        currentPriority := Some(x.priority);
        currentGroup := currentGroup + [x.projectId];
      } else {
        groups := groups + [currentGroup];
        currentGroup := [x.projectId];
        currentPriority := Some(x.priority);
      }
      i := i + 1;
    }
    assert rs[..|rs|] == rs;
    if i > 0 {
      GroupLoopEnd(PriorityGroups(rs));
    }
    if currentGroup != [] {
      groups := groups + [currentGroup];
    }
  }
}
