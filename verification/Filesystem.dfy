/** What a rebase comes to over a file system with directories, when every name of the result has its
    directory: the decision, and of the removed directories just those that hold a conflicted name. */
module Filesystem {
  import opened Trees
  import opened MergeSpec
  import opened ContentSpec
  import opened Decide
  import opened Manifest
  import opened Apply
  import opened Plan
  import opened Compile
  import opened Kinds
  import opened Rebase
  import opened Promises
  import opened Order
  import opened Tall
  import opened Paths
  import N = Namespace
  import Replay
  import RootLines

  /** Every surviving name of a clean group lies in one, or in a conflicted directory of onto, which
      stays; and the root is not removed. */
  ghost predicate ParentKept(m: Merge, d: Decision, w: Walk, t: N.Names)
    requires Emittable(m, d, w) && t.Valid() && |t.path| == m.n
  {
    && (forall x: nat :: x < m.n && m.Survives(x) && CleanName(m, d, x) ==> t.up[x] == N.NONE || ParentStays(m, d, w, t.up[x]))
    && (forall x: nat :: x < m.n && t.path[x] == [] && m.onto.Has(x) && CleanName(m, d, x) ==> m.Survives(x))
  }

  predicate ParentStays(m: Merge, d: Decision, w: Walk, y: int)
    requires Emittable(m, d, w)
  {
    0 <= y < m.n && (if CleanName(m, d, y) then m.Survives(y) else m.onto.Has(y))
  }

  /** A removed directory that holds a conflicted name of onto. */
  ghost predicate Stays(m: Merge, d: Decision, w: Walk, t: N.Names, x: nat)
    requires Emittable(m, d, w) && |t.path| == m.n
  {
    && x < m.n && m.onto.Has(x) && !m.Survives(x) && CleanName(m, d, x) && m.onto.ContentAt(x).kind == Directory
    && exists y: nat :: ConflictIn(m, d, w, t, x, y)
  }

  ghost predicate ConflictIn(m: Merge, d: Decision, w: Walk, t: N.Names, x: nat, y: nat)
    requires Emittable(m, d, w) && |t.path| == m.n
  {
    y < m.n && m.onto.Has(y) && !CleanName(m, d, y) && Inside(t, x, y)
  }

  /** The decision's tree in every clean group, and the directories that stay as onto had them. */
  ghost predicate ReachesTall(m: Merge, d: Decision, w: Walk, t: N.Names, s: Store)
    requires Emittable(m, d, w) && s.Valid() && |t.path| == m.n
  {
    && (forall x: nat :: x < m.n && CleanName(m, d, x) ==> (x in s.at <==> m.Survives(x) || Stays(m, d, w, t, x)))
    && (forall x: nat :: Stays(m, d, w, t, x) && x in s.at ==> s.at[x] == m.onto.poolOf[x] && s.ContentAt(x) == m.onto.ContentAt(x))
    && (forall x: nat, y: nat :: Decided(m, d, w, s, x) && Decided(m, d, w, s, y) ==>
          (s.at[x] == s.at[y] <==> d.resultOf[x] == d.resultOf[y]))
    && (forall x: nat :: Decided(m, d, w, s, x) ==> Some(s.ContentAt(x)) == d.pools[d.resultOf[x]].content)
  }

  // ----- the merge's own conditions are the plan's

  lemma StandingIsStays(m: Merge, d: Decision, w: Walk, t: N.Names, x: nat)
    requires Emittable(m, d, w) && PlanOf(m, d, w).Shaped() && |t.path| == m.n && x < m.n
    ensures Standing(PlanOf(m, d, w), t, x) <==> Stays(m, d, w, t, x)
  {
    hide CleanName, Inside, Anchor, Keeps, GoalOf, Merge.Survives;
    var p := PlanOf(m, d, w);
    PlanSays(m, d, w, x);
    forall y: nat | y < m.n ensures HoldsFlagged(p, t, x, y) <==> ConflictIn(m, d, w, t, x, y) { PlanSays(m, d, w, y); }
    forall y: nat | HoldsFlagged(p, t, x, y) ensures ConflictIn(m, d, w, t, x, y) {}
  }

  /** The directory of a name, where either side has the name, is one in onto and in the result. */
  lemma ParentKind(m: Merge, c: Table, d: Decision, w: Walk, t: N.Names, x: nat, y: nat)
    requires Ready(m, c, d, w) && Emittable(m, d, w) && |t.path| == m.n && Rooted(t, m.from) && Rooted(t, m.onto)
    requires x < m.n && y < m.n && m.Survives(x) && Under(t.path[y], t.path[x])
    ensures m.On(From, y) || m.On(Onto, y)
    ensures SideKind(m, y) == Directory && (m.onto.Has(y) ==> m.onto.ContentAt(y).kind == Directory)
  {
    hide DecisionFor, Walk.Valid, Under, KidsAreDirectories;
  }

  lemma PlanClosed(m: Merge, c: Table, d: Decision, w: Walk, t: N.Names)
    requires Ready(m, c, d, w) && Emittable(m, d, w) && PlanOf(m, d, w).Shaped() && t.Valid() && |t.path| == m.n
    requires Rooted(t, m.from) && Rooted(t, m.onto) && ParentKept(m, d, w, t)
    ensures ParentClosed(PlanOf(m, d, w), t)
  {
    hide Ready, Merge.Valid, Emittable, CleanName, GoalOf, PlanOf, Rooted, Merge.Survives, N.Names.Valid;
    var p := PlanOf(m, d, w);
    PlanSizes(m, d, w);
    NamesSized(t);
    forall x: nat | p.Wanted(x) ensures t.up[x] == N.NONE || (0 <= t.up[x] < p.n && Remains(p, t.up[x])) {
      PlanSays(m, d, w, x);
      if t.up[x] != N.NONE { ParentRemains(m, c, d, w, t, x, t.up[x]); }
    }
    forall x: nat | p.Dying(x) ensures t.path[x] != [] { DyingIs(m, d, w, x); }
  }

  lemma DyingIs(m: Merge, d: Decision, w: Walk, x: nat)
    requires Emittable(m, d, w) && PlanOf(m, d, w).Shaped()
    ensures PlanOf(m, d, w).Dying(x) <==> x < m.n && !m.Survives(x) && CleanName(m, d, x) && m.onto.Has(x)
    ensures PlanOf(m, d, w).Wanted(x) <==> x < m.n && m.Survives(x) && CleanName(m, d, x)
  {
    hide Merge.Valid, CleanName, Anchor, Keeps, GoalOf;
  }

  lemma NamesSized(t: N.Names)
    requires t.Valid()
    ensures |t.up| == |t.path|
  {
  }

  lemma ParentRemains(m: Merge, c: Table, d: Decision, w: Walk, t: N.Names, x: nat, y: nat)
    requires Ready(m, c, d, w) && Emittable(m, d, w) && PlanOf(m, d, w).Shaped() && t.Valid() && |t.path| == m.n
    requires Rooted(t, m.from) && Rooted(t, m.onto) && ParentStays(m, d, w, y)
    requires x < m.n && m.Survives(x) && t.up[x] == y
    ensures Remains(PlanOf(m, d, w), y)
  {
    hide DecisionFor, Walk.Valid, CleanName, GoalOf, PlanOf, Rooted, Merge.Survives, KidsAreDirectories, SameKinds;
    var p := PlanOf(m, d, w);
    PlanSays(m, d, w, y);
    assert t.UpValid(x);
    UnderParent(t.path[y], t.path[x]);
    ParentKind(m, c, d, w, t, x, y);
    if CleanName(m, d, y) { GoalKind(m, c, d, w, y); }
  }

  lemma PlanOrdered(m: Merge, d: Decision, w: Walk, t: N.Names)
    requires Grouped(m, d) && |t.path| == m.n && WalkFor(m, d, t, w) && Emittable(m, d, w) && PlanOf(m, d, w).Shaped()
    ensures OrderedPlan(PlanOf(m, d, w), t)
  {
    hide Merge.Valid, Before, Anchor, Keeps, CleanName;
  }

  /** Every conflicted name of onto is marked. */
  lemma ConflictMarked(m: Merge, c: Table, d: Decision, w: Walk, y: nat)
    requires Ready(m, c, d, w) && Emittable(m, d, w) && y < m.n && m.onto.Has(y) && !CleanName(m, d, y)
    ensures ActOf(m, d, w, y).Mark? && Action(ActOf(m, d, w, y), y) in Lines(m, d, w, |w.order|)
  {
    hide DecisionFor, SameKinds, KidsAreDirectories, Anchor, Keeps, Lines;
    if m.Survives(y) { ResultPoolClean(m, c, d, w, y, y); }
    assert w.order[w.ord[y]] == y;
    RootLines.LineListed(m, d, w, |w.order|, w.ord[y]);
  }

  lemma PlanMarks(m: Merge, c: Table, d: Decision, w: Walk, t: N.Names)
    requires Ready(m, c, d, w) && Emittable(m, d, w) && PlanOf(m, d, w).Shaped() && |t.path| == m.n && ParentClosed(PlanOf(m, d, w), t)
    ensures MarksSay(PlanOf(m, d, w), t, Lines(m, d, w, |w.order|))
  {
    hide Ready, Merge.Valid, CleanName, PlanOf, Lines, ActOf, Under;
    var p, list := PlanOf(m, d, w), Lines(m, d, w, |w.order|);
    forall x: nat | Standing(p, t, x) ensures Blocked(t, list, x) {
      var y: nat :| HoldsFlagged(p, t, x, y);
      PlanSays(m, d, w, y);
      ConflictMarked(m, c, d, w, y);
      var k :| 0 <= k < |list| && list[k] == Action(ActOf(m, d, w, y), y);
      assert Replay.Within(t)(x, list[k].path);
    }
  }

  // ----- the theorem

  /** The tall run of an emitted list, beside its flat one. */
  lemma TallRuns(m: Merge, c: Table, d: Decision, w: Walk, t: N.Names)
    requires Ready(m, c, d, w) && Grouped(m, d) && t.Valid() && |t.path| == m.n && WalkFor(m, d, t, w) && Emittable(m, d, w)
    requires Rooted(t, m.from) && Rooted(t, m.onto) && ParentKept(m, d, w, t) && !Sourceless(m, d, w, |w.order|)
    ensures StoreOf(m.onto).Valid() && SourcesOf(m, Replay.Within(t)).Valid() && PlanOf(m, d, w).Shaped()
    ensures var e, list := SourcesOf(m, Replay.Within(t)), Lines(m, d, w, |w.order|);
      var f, o := ApplyAll(e, StoreOf(m.onto), list), TallApply(e, t, list, StoreOf(m.onto));
      f.Done? && o.Done? && Sim(PlanOf(m, d, w), t, f.store, o.store)
  {
    hide Ready, Emittable, Plan.Valid, Carries, ActOf, Lines, ListOf, ApplyAll, TallApply, Sim, WalkFor, Rooted, ParentKept, N.Names.Valid, Grouped;
    var p, acts, e := PlanOf(m, d, w), Acts(m, d, w), SourcesOf(m, Replay.Within(t));
    EmittedCarries(m, c, d, w, Replay.Within(t));
    PlanShaped(m, d, w);
    ListsMatch(m, d, w);
    MergeIsValid(m, c, d, w);
    assert e.Valid();
    PlanClosed(m, c, d, w, t);
    PlanOrdered(m, d, w, t);
    PlanMarks(m, c, d, w, t);
    TallIsFlat(p, e, t, acts);
  }

  /** In the flat store the names of the clean groups are the decision's. */
  lemma FlatNames(m: Merge, d: Decision, w: Walk, s: Store, x: nat)
    requires Emittable(m, d, w) && PlanOf(m, d, w).Valid() && Finished(PlanOf(m, d, w), s) && x < m.n && CleanName(m, d, x)
    ensures x in s.at <==> m.Survives(x)
  {
    hide Emittable, Plan.Valid, Plan.Shaped, PlanOf, CleanName, Resumable, Settled, SettledTo, Merge.Valid, Merge.Survives;
    var p := PlanOf(m, d, w);
    FinishedValid(p, s);
    DyingIs(m, d, w, x);
    PlanSizes(m, d, w);
    PlanSays(m, d, w, x);
    FinishedName(p, s, x);
    PresentHas(p, s, x);
  }

  lemma TallFromFlat(m: Merge, c: Table, d: Decision, w: Walk, t: N.Names, s: Store, h: Store)
    requires Ready(m, c, d, w) && Emittable(m, d, w) && |t.path| == m.n && PlanOf(m, d, w).Valid() && Finished(PlanOf(m, d, w), s)
    requires s.Valid() && h.Valid() && Sim(PlanOf(m, d, w), t, s, h)
    ensures ReachesTall(m, d, w, t, h) <==> Reaches(m, d, w, s)
  {
    hide Ready, Walk.Valid, PoolListed, Plan.Valid, PlanOf, CleanName, Resumable, Settled, SettledTo, Merge.Valid, Merge.Survives, Finished,
      Standing, Stays;
    var p := PlanOf(m, d, w);
    FinishedValid(p, s);
    forall x: nat | x < m.n
      ensures Standing(p, t, x) <==> Stays(m, d, w, t, x)
      ensures CleanName(m, d, x) ==> (x in s.at <==> m.Survives(x))
    {
      StandingIsStays(m, d, w, t, x);
      if CleanName(m, d, x) { FlatNames(m, d, w, s, x); }
    }
    StaysIs(m, d, w, t);
    forall x: nat | Stays(m, d, w, t, x)
      ensures x in h.at && m.onto.Has(x) && h.at[x] == m.onto.poolOf[x] < |h.body| && m.onto.poolOf[x] < |m.onto.pools|
      ensures h.body[h.at[x]] == m.onto.ContentAt(x)
    {
      StaysPlace(m, d, w, t, s, h, x);
    }
    forall x: nat | x < m.n && m.Survives(x) && CleanName(m, d, x) ensures x in s.at && x in h.at && h.at[x] == s.at[x] {}
    assert forall x: nat :: Decided(m, d, w, s, x) <==> Decided(m, d, w, h, x);
  }

  lemma StaysPlace(m: Merge, d: Decision, w: Walk, t: N.Names, s: Store, h: Store, x: nat)
    requires Emittable(m, d, w) && |t.path| == m.n && PlanOf(m, d, w).Shaped() && Sim(PlanOf(m, d, w), t, s, h) && Stays(m, d, w, t, x)
    ensures x in h.at && m.onto.Has(x) && h.at[x] == m.onto.poolOf[x] < |h.body| && m.onto.poolOf[x] < |m.onto.pools|
    ensures h.body[h.at[x]] == m.onto.ContentAt(x)
  {
    hide CleanName, Inside, Anchor, Keeps, GoalOf, Merge.Survives, HoldsFlagged;
    StandingIsStays(m, d, w, t, x);
    assert StandsThere(PlanOf(m, d, w), h, x);
  }

  lemma StaysIs(m: Merge, d: Decision, w: Walk, t: N.Names)
    requires Emittable(m, d, w) && |t.path| == m.n
    ensures forall x: nat :: Stays(m, d, w, t, x) ==> x < m.n && m.onto.Has(x) && !m.Survives(x) && CleanName(m, d, x)
  {
  }

  /** The conflicted groups are as onto left them in the tall store too. */
  lemma TallUntouched(m: Merge, c: Table, d: Decision, w: Walk, t: N.Names, s: Store, h: Store)
    requires Ready(m, c, d, w) && Emittable(m, d, w) && |t.path| == m.n && PlanOf(m, d, w).Shaped()
    requires s.Valid() && h.Valid() && Sim(PlanOf(m, d, w), t, s, h) && Untouched(m, d, w, s)
    ensures Untouched(m, d, w, h)
  {
    hide Ready, Walk.Valid, PoolListed, Plan.Shaped, PlanOf, CleanName, Merge.Valid, Merge.Survives, Standing, Stays;
    var p := PlanOf(m, d, w);
    PlanSizes(m, d, w);
    forall x: nat | x in h.at && x !in s.at
      ensures x < m.n && CleanName(m, d, x) && m.onto.Has(x) && h.at[x] == m.onto.poolOf[x]
    {
      StandingBelow(p, t, x);
      StandingIsStays(m, d, w, t, x);
      StaysPlace(m, d, w, t, s, h, x);
      StaysIs(m, d, w, t);
    }
  }

  lemma StandingBelow(p: Plan, t: N.Names, x: nat)
    requires p.Shaped() && Standing(p, t, x)
    ensures x < p.n
  {
  }

  /** Over a file system with directories, when every name of the result has its directory: the list
      runs without a failure, leaves the conflicted groups alone, and reaches the decision in every
      clean group, the removed directories that hold a conflicted name left standing, if and only if
      no name is stranded and no pool is stuck. */
  lemma FilesystemReaches(m: Merge, c: Table, d: Decision, w: Walk, t: N.Names)
    requires Ready(m, c, d, w) && Grouped(m, d) && t.Valid() && |t.path| == m.n && WalkFor(m, d, t, w) && Emittable(m, d, w)
    requires Rooted(t, m.from) && Rooted(t, m.onto) && ParentKept(m, d, w, t) && !Sourceless(m, d, w, |w.order|)
    ensures StoreOf(m.onto).Valid() && SourcesOf(m, Replay.Within(t)).Valid()
    ensures var o := TallApply(SourcesOf(m, Replay.Within(t)), t, Lines(m, d, w, |w.order|), StoreOf(m.onto));
      && o.Done? && Untouched(m, d, w, o.store)
      && (ReachesTall(m, d, w, t, o.store) <==> NothingLost(m, d, w))
  {
    hide Ready, Emittable, Plan.Valid, Lines, ApplyAll, TallApply, Sim, WalkFor, Rooted, ParentKept, N.Names.Valid, Grouped, Untouched,
      Reaches, ReachesTall, NothingLost, Finished, PlanOf;
    var e, list := SourcesOf(m, Replay.Within(t)), Lines(m, d, w, |w.order|);
    EmittedListReaches(m, c, d, w, Replay.Within(t));
    EmittedFinishes(m, c, d, w, Replay.Within(t));
    TallRuns(m, c, d, w, t);
    var f, o := ApplyAll(e, StoreOf(m.onto), list), TallApply(e, t, list, StoreOf(m.onto));
    TallFromFlat(m, c, d, w, t, f.store, o.store);
    TallUntouched(m, c, d, w, t, f.store, o.store);
  }
}
