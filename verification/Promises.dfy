/** What the two sides are promised of a rebase, said of the merge, its decision and the store. */
module Promises {
  import opened Trees
  import opened MergeSpec
  import opened ContentSpec
  import opened Decide
  import opened Manifest
  import opened Apply
  import opened Plan
  import opened Compile
  import opened Kinds
  import opened Rebase

  /** The store holds the decision's tree in every clean group: its names, and only those; one
      object to a result pool; and the pool's content in it. */
  ghost predicate Reaches(m: Merge, d: Decision, w: Walk, s: Store)
    requires Emittable(m, d, w) && s.Valid()
  {
    && (forall x: nat :: x < m.n && CleanName(m, d, x) ==> (x in s.at <==> m.Survives(x)))
    && (forall x: nat, y: nat :: Decided(m, d, w, s, x) && Decided(m, d, w, s, y) ==>
          (s.at[x] == s.at[y] <==> d.resultOf[x] == d.resultOf[y]))
    && (forall x: nat :: Decided(m, d, w, s, x) ==> Some(s.ContentAt(x)) == d.pools[d.resultOf[x]].content)
  }

  predicate Decided(m: Merge, d: Decision, w: Walk, s: Store, x: nat)
    requires Emittable(m, d, w) && s.Valid()
  {
    x < m.n && m.Survives(x) && CleanName(m, d, x) && x in s.at
  }

  /** The conflicted groups are as onto left them: every name on its own object with its content,
      with the names onto had it with and no other, and no name come or gone. */
  ghost predicate Untouched(m: Merge, d: Decision, w: Walk, s: Store)
    requires Emittable(m, d, w) && s.Valid()
  {
    && (forall x: nat :: x < m.n && !CleanName(m, d, x) ==> (x in s.at <==> m.onto.Has(x)))
    && (forall x: nat :: x < m.n && !CleanName(m, d, x) && x in s.at ==>
          s.at[x] == m.onto.poolOf[x] && s.ContentAt(x) == m.onto.ContentAt(x))
    && (forall x: nat, y: nat :: x < m.n && !CleanName(m, d, x) && x in s.at && y in s.at ==>
          (s.at[x] == s.at[y] <==> m.onto.Has(y) && m.onto.poolOf[x] == m.onto.poolOf[y]))
  }

  /** A second name of a symbolic link that onto keeps and the rebase retargets: its line is empty,
      and the write at the anchor makes a new link instead of changing the one it shares. */
  predicate Stranded(m: Merge, d: Decision, w: Walk, x: nat)
    requires Emittable(m, d, w)
  {
    && x < m.n && m.Survives(x) && CleanName(m, d, x)
    && var k := d.resultOf[x];
       var q := Keeps(m, d, w, k);
       && q != -1 && m.onto.Has(x) && m.onto.poolOf[x] == q && x != Anchor(m, d, w, k)
       && GoalOf(d.pools[k]).kind == Symlink && m.onto.pools[q].content.text != GoalOf(d.pools[k]).text
  }

  lemma StrandedIsLeftBehind(m: Merge, t: Table, d: Decision, w: Walk, x: nat)
    requires Ready(m, t, d, w) && Emittable(m, d, w) && PlanOf(m, d, w).Shaped() && x < m.n
    ensures Stranded(m, d, w, x) <==> LeftBehind(PlanOf(m, d, w), x)
  {
    hide DecisionFor, SameKinds, Walk.Valid, Anchor, Keeps, CleanName, GoalOf;
    if m.Survives(x) { ResultPoolClean(m, t, d, w, x, Anchor(m, d, w, d.resultOf[x])); }
  }

  /** A pool that keeps an onto object of a type whose text no write changes, and is to have another:
      a device that the rebase gives another number. */
  predicate Stuck(m: Merge, d: Decision, w: Walk, k: nat)
    requires Emittable(m, d, w) && k < |d.pools|
  {
    && 0 <= d.pools[k].group < |d.flags| && d.flags[d.pools[k].group] == {}
    && var q := Keeps(m, d, w, k);
       var c := GoalOf(d.pools[k]);
       q != -1 && c.kind != File && c.kind != Symlink && m.onto.pools[q].content.text != c.text
  }

  lemma StuckIsStuck(m: Merge, t: Table, d: Decision, w: Walk, k: nat)
    requires Ready(m, t, d, w) && Emittable(m, d, w) && PlanOf(m, d, w).Shaped() && k < |d.pools|
    ensures Stuck(m, d, w, k) <==> PlanOf(m, d, w).Stuck(k)
  {
    hide DecisionFor, SameKinds, Walk.Valid, Anchor, Keeps, CleanName, GoalOf;
    assert PoolListed(m, d, k);
    ResultPoolClean(m, t, d, w, Anchor(m, d, w, k), Anchor(m, d, w, k));
  }

  /** No name is stranded and no pool is stuck. */
  ghost predicate NothingLost(m: Merge, d: Decision, w: Walk)
    requires Emittable(m, d, w)
  {
    (forall x: nat :: x < m.n ==> !Stranded(m, d, w, x)) && (forall k: nat :: k < |d.pools| ==> !Stuck(m, d, w, k))
  }

  lemma NothingLostIsFaithful(m: Merge, t: Table, d: Decision, w: Walk)
    requires Ready(m, t, d, w) && Emittable(m, d, w) && PlanOf(m, d, w).Shaped()
    ensures NothingLost(m, d, w) <==> Faithful(PlanOf(m, d, w))
  {
    hide Ready, Emittable, Stranded, LeftBehind, Stuck, Plan.Stuck, Plan.Shaped, PlanOf;
    var p := PlanOf(m, d, w);
    PlanSizes(m, d, w);
    forall x: nat | x < m.n ensures Stranded(m, d, w, x) <==> LeftBehind(p, x) { StrandedIsLeftBehind(m, t, d, w, x); }
    forall k: nat | k < |d.pools| ensures Stuck(m, d, w, k) <==> p.Stuck(k) { StuckIsStuck(m, t, d, w, k); }
  }

  lemma PlanSizes(m: Merge, d: Decision, w: Walk)
    requires Emittable(m, d, w)
    ensures PlanOf(m, d, w).n == m.n && |PlanOf(m, d, w).anchor| == |d.pools|
  {
  }

  /** What the plan says of a name. */
  lemma PlanSays(m: Merge, d: Decision, w: Walk, x: nat)
    requires Emittable(m, d, w) && x < m.n
    ensures var p := PlanOf(m, d, w);
      && p.n == m.n && p.onto == m.onto && p.clean[x] == CleanName(m, d, x)
      && -1 <= p.pool[x] < |d.pools| && p.pool[x] == (if m.Survives(x) then d.resultOf[x] else -1)
      && (m.Survives(x) ==> p.goal[p.pool[x]] == GoalOf(d.pools[d.resultOf[x]]))
  {
    hide Merge.Valid, CleanName, GoalOf, Anchor, Keeps;
  }

  lemma RealisedName(m: Merge, t: Table, d: Decision, w: Walk, s: Store, x: nat)
    requires Ready(m, t, d, w) && Emittable(m, d, w) && PlanOf(m, d, w).Valid() && Finished(PlanOf(m, d, w), s) && x < m.n
    ensures PlanOf(m, d, w).Wanted(x) <==> Decided(m, d, w, s, x)
    ensures Decided(m, d, w, s, x) ==>
      d.pools[d.resultOf[x]].content == Some(PlanOf(m, d, w).goal[d.resultOf[x]]) && PlanOf(m, d, w).pool[x] == d.resultOf[x]
  {
    hide Ready, Merge.Valid, Walk.Valid, PoolListed, Plan.Valid, Plan.Shaped, PlanOf, CleanName, Resumable, Settled, SettledTo, Finished;
    PlanSays(m, d, w, x);
    if PlanOf(m, d, w).Wanted(x) {
      FinishedName(PlanOf(m, d, w), s, x);
      GoalKind(m, t, d, w, x);
    }
  }

  lemma RealisedIsReached(m: Merge, t: Table, d: Decision, w: Walk, s: Store)
    requires Ready(m, t, d, w) && Emittable(m, d, w) && PlanOf(m, d, w).Valid() && Finished(PlanOf(m, d, w), s)
    ensures Realised(PlanOf(m, d, w), s) <==> Reaches(m, d, w, s)
  {
    hide Ready, Merge.Valid, Walk.Valid, PoolListed, Plan.Valid, PlanOf, CleanName, Resumable, Settled, SettledTo, Finished;
    var p := PlanOf(m, d, w);
    FinishedValid(p, s);
    forall x: nat | x < m.n
      ensures x < p.n && p.clean[x] == CleanName(m, d, x) && (p.pool[x] == if m.Survives(x) then d.resultOf[x] else -1)
      ensures m.Survives(x) && CleanName(m, d, x) ==> x in s.at && d.pools[d.resultOf[x]].content == Some(p.goal[p.pool[x]])
    {
      PlanSays(m, d, w, x);
      RealisedName(m, t, d, w, s, x);
    }
    WantedIn(p, m, d, w);
  }

  lemma FinishedValid(p: Plan, s: Store)
    requires p.Valid() && Finished(p, s)
    ensures p.Shaped() && s.Valid()
  {
  }

  lemma WantedIn(p: Plan, m: Merge, d: Decision, w: Walk)
    requires Emittable(m, d, w) && p == PlanOf(m, d, w) && p.Shaped()
    ensures p.n == m.n && forall x: nat :: p.Wanted(x) ==> x < m.n
  {
  }

  /** Conflicted groups are untouched in every store some part of the list has been run on. */
  lemma ResumableUntouched(m: Merge, t: Table, d: Decision, w: Walk, s: Store)
    requires Ready(m, t, d, w) && Emittable(m, d, w) && PlanOf(m, d, w).Valid() && Resumable(PlanOf(m, d, w), s)
    ensures s.Valid() && Untouched(m, d, w, s)
  {
    hide Ready, Merge.Valid, Walk.Valid, PoolListed, Plan.Valid, Plan.Shaped, PlanOf, CleanName, Resumable;
    var p := PlanOf(m, d, w);
    ResumableIsValid(p, s);
    forall x: nat | x < m.n && !CleanName(m, d, x)
      ensures x in s.at <==> m.onto.Has(x)
      ensures x in s.at ==> s.at[x] == m.onto.poolOf[x] < |m.onto.pools| && s.ContentAt(x) == m.onto.ContentAt(x)
    {
      PlanSays(m, d, w, x);
      FlaggedName(p, s, x);
    }
    forall x: nat, y: nat | x < m.n && !CleanName(m, d, x) && x in s.at && y in s.at
      ensures s.at[x] == s.at[y] <==> m.onto.Has(y) && m.onto.poolOf[x] == m.onto.poolOf[y]
    {
      PlanSays(m, d, w, x);
      FlaggedMates(p, s, x, y);
    }
  }

  lemma ResumableIsValid(p: Plan, s: Store)
    requires p.Valid() && Resumable(p, s)
    ensures p.Shaped() && s.Valid()
  {
  }

  lemma FlaggedName(p: Plan, s: Store, x: nat)
    requires p.Valid() && Resumable(p, s) && x < p.n && !p.clean[x]
    ensures x in s.at <==> p.onto.Has(x)
    ensures x in s.at ==> s.at[x] == p.onto.poolOf[x] < |s.body| && p.onto.poolOf[x] < |p.onto.pools| && s.ContentAt(x) == p.onto.ContentAt(x)
  {
    hide Keeping, Typed, Pended, SharedRight;
  }

  lemma FlaggedMates(p: Plan, s: Store, x: nat, y: nat)
    requires p.Valid() && Resumable(p, s) && x < p.n && !p.clean[x] && x in s.at && y in s.at
    ensures p.onto.Has(x) && s.at[x] == p.onto.poolOf[x]
    ensures s.at[x] == s.at[y] <==> p.onto.Has(y) && p.onto.poolOf[x] == p.onto.poolOf[y]
  {
    hide Keeping, Typed, Pended;
  }

  // ----- prefixes of the list

  lemma {:induction false} PrefixIsList(p: Plan, acts: seq<Act>, n: nat, j: nat) returns (i: nat)
    requires n <= |acts| == |p.order| && j <= |ListOf(p, acts, n)|
    ensures i <= n && ListOf(p, acts, i) == ListOf(p, acts, n)[..j]
  {
    if j == |ListOf(p, acts, n)| {
      i := n;
      assert ListOf(p, acts, n)[..j] == ListOf(p, acts, n);
    } else {
      var before := ListOf(p, acts, n - 1);
      i := PrefixIsList(p, acts, n - 1, j);
      assert ListOf(p, acts, n)[..j] == before[..j];
    }
  }

  /** Conflict isolation: running any prefix of an emitted list over onto succeeds and leaves the
      conflicted groups as they were, whatever the other groups do. */
  lemma ConflictsIsolated(m: Merge, t: Table, d: Decision, w: Walk, under: (nat, nat) -> bool, j: nat)
    requires Ready(m, t, d, w) && Emittable(m, d, w) && !Sourceless(m, d, w, |w.order|)
    requires j <= |Lines(m, d, w, |w.order|)|
    ensures StoreOf(m.onto).Valid() && SourcesOf(m, under).Valid()
    ensures var o := Run(SourcesOf(m, under), StoreOf(m.onto), Lines(m, d, w, |w.order|)[..j]);
      o.Done? && Untouched(m, d, w, o.store)
  {
    hide Ready, Emittable, Plan.Valid, Plan.Shaped, Carries, Resumable, ActOf, Untouched, SettledTo, Run, Lines, ListOf;
    var p, acts := PlanOf(m, d, w), Acts(m, d, w);
    EmittedCarries(m, t, d, w, under);
    ListsMatch(m, d, w);
    var i := PrefixIsList(p, acts, |w.order|, j);
    StartResumable(p);
    PlanSteps(p, SourcesOf(m, under), acts, i);
    ResumableUntouched(m, t, d, w, Run(SourcesOf(m, under), StoreOf(m.onto), ListOf(p, acts, i)).store);
  }

  lemma ListsMatch(m: Merge, d: Decision, w: Walk)
    requires Emittable(m, d, w)
    ensures PlanOf(m, d, w).onto == m.onto && PlanOf(m, d, w).order == w.order && |Acts(m, d, w)| == |w.order|
    ensures Lines(m, d, w, |w.order|) == ListOf(PlanOf(m, d, w), Acts(m, d, w), |w.order|)
  {
    hide Emittable, ActOf;
    LinesAreList(m, d, w, |w.order|);
  }

  /** Any part of the list runs without a failure. */
  lemma PlanSteps(p: Plan, e: Sources, acts: seq<Act>, i: nat)
    requires p.Valid() && Carries(p, e, acts) && i <= |p.order|
    ensures e.Valid() && StoreOf(p.onto).Valid()
    ensures var o := Run(e, StoreOf(p.onto), ListOf(p, acts, i)); o.Done? && Resumable(p, o.store)
  {
    hide Resumable, Settled, Run;
    StartResumable(p);
    RunKeeps(p, e, acts, StoreOf(p.onto), i);
  }

  /** An emitted list runs to its end. */
  lemma EmittedFinishes(m: Merge, t: Table, d: Decision, w: Walk, under: (nat, nat) -> bool)
    requires Ready(m, t, d, w) && Emittable(m, d, w) && !Sourceless(m, d, w, |w.order|)
    ensures StoreOf(m.onto).Valid() && SourcesOf(m, under).Valid() && PlanOf(m, d, w).Valid()
    ensures var o := ApplyAll(SourcesOf(m, under), StoreOf(m.onto), Lines(m, d, w, |w.order|));
      o.Done? && Finished(PlanOf(m, d, w), o.store)
  {
    hide Ready, Emittable, Plan.Valid, Carries, Resumable, ActOf, Lines, ListOf, Settled, SettledTo, ApplyAll;
    var p, acts, e := PlanOf(m, d, w), Acts(m, d, w), SourcesOf(m, under);
    EmittedCarries(m, t, d, w, under);
    PlanShaped(m, d, w);
    ListsMatch(m, d, w);
    StartResumable(p);
    MergeIsValid(m, t, d, w);
    assert e.Valid();
    ApplyFinishes(p, e, acts, StoreOf(m.onto));
  }

  /** Compiler correctness: an emitted list, run over onto's own store, reaches the decision in
      every clean group if and only if no name is stranded and no pool is stuck, and leaves the
      conflicted ones alone. */
  lemma EmittedListReaches(m: Merge, t: Table, d: Decision, w: Walk, under: (nat, nat) -> bool)
    requires Ready(m, t, d, w) && Emittable(m, d, w) && !Sourceless(m, d, w, |w.order|)
    ensures StoreOf(m.onto).Valid() && SourcesOf(m, under).Valid()
    ensures var o := ApplyAll(SourcesOf(m, under), StoreOf(m.onto), Lines(m, d, w, |w.order|));
      && o.Done? && Untouched(m, d, w, o.store)
      && (Reaches(m, d, w, o.store) <==> NothingLost(m, d, w))
  {
    hide Ready, Emittable, Plan.Valid, Resumable, ActOf, Untouched, Reaches, NothingLost, Faithful, ApplyAll, Lines, Realised, SettledTo,
      Settled, PlanOf;
    EmittedFinishes(m, t, d, w, under);
    var p := PlanOf(m, d, w);
    var s := ApplyAll(SourcesOf(m, under), StoreOf(m.onto), Lines(m, d, w, |w.order|)).store;
    PlanShaped(m, d, w);
    FinishedRealises(p, s);
    RealisedIsReached(m, t, d, w, s);
    ResumableUntouched(m, t, d, w, s);
    NothingLostIsFaithful(m, t, d, w);
  }

  /** What a surviving name of a clean group holds in the end, whatever is lost: a stranded name what
      onto had, a stuck pool the content decided but for its text. */
  function LeftWith(m: Merge, d: Decision, w: Walk, x: nat): Content
    requires Emittable(m, d, w) && x < m.n && m.Survives(x)
  {
    var k := d.resultOf[x];
    var c := GoalOf(d.pools[k]);
    if Stranded(m, d, w, x) then m.onto.ContentAt(x)
    else if Stuck(m, d, w, k) then c.(text := m.onto.pools[Keeps(m, d, w, k)].content.text)
    else c
  }

  lemma EndsIsLeft(m: Merge, t: Table, d: Decision, w: Walk, x: nat)
    requires Ready(m, t, d, w) && Emittable(m, d, w) && PlanOf(m, d, w).Valid() && x < m.n && m.Survives(x) && CleanName(m, d, x)
    ensures PlanOf(m, d, w).Wanted(x) && HeldAt(PlanOf(m, d, w), x) == LeftWith(m, d, w, x)
  {
    hide DecisionFor, SameKinds, Walk.Valid, Anchor, Keeps, CleanName, GoalOf, LeftBehind, Stranded;
    StrandedIsLeftBehind(m, t, d, w, x);
    StuckIsStuck(m, t, d, w, d.resultOf[x]);
    PlanSays(m, d, w, x);
  }

  /** An emitted list, run over onto's own store: what each surviving name of a clean group is left with. */
  lemma EmittedListLeaves(m: Merge, t: Table, d: Decision, w: Walk, under: (nat, nat) -> bool, x: nat)
    requires Ready(m, t, d, w) && Emittable(m, d, w) && !Sourceless(m, d, w, |w.order|)
    requires x < m.n && m.Survives(x) && CleanName(m, d, x)
    ensures StoreOf(m.onto).Valid() && SourcesOf(m, under).Valid()
    ensures var o := ApplyAll(SourcesOf(m, under), StoreOf(m.onto), Lines(m, d, w, |w.order|));
      o.Done? && x in o.store.at && o.store.ContentAt(x) == LeftWith(m, d, w, x)
  {
    hide Ready, Emittable, Plan.Valid, ActOf, Lines, ApplyAll, LeftWith, Finished, HeldAt, PlanOf;
    EmittedFinishes(m, t, d, w, under);
    PlanSizes(m, d, w);
    EndsIsLeft(m, t, d, w, x);
    FinishedHolds(PlanOf(m, d, w), ApplyAll(SourcesOf(m, under), StoreOf(m.onto), Lines(m, d, w, |w.order|)).store, x);
  }

  /** Resume: after any prefix of the list, its open scopes forgotten, the whole list reaches the
      same tree as one uninterrupted run, up to the names of its objects. */
  lemma AnyPrefixResumes(m: Merge, t: Table, d: Decision, w: Walk, under: (nat, nat) -> bool, j: nat)
    requires Ready(m, t, d, w) && Emittable(m, d, w) && !Sourceless(m, d, w, |w.order|)
    requires j <= |Lines(m, d, w, |w.order|)|
    ensures StoreOf(m.onto).Valid() && SourcesOf(m, under).Valid()
    ensures var e, start, list := SourcesOf(m, under), StoreOf(m.onto), Lines(m, d, w, |w.order|);
      var part := Run(e, start, list[..j]);
      && part.Done? && part.store.(pending := []).Valid()
      && var whole, again := ApplyAll(e, start, list), ApplyAll(e, part.store.(pending := []), list);
         whole.Done? && again.Done? && SameTree(whole.store, again.store)
  {
    hide Ready, Emittable, Plan.Valid, Plan.Shaped, Carries, Resumable, ActOf, SettledTo, Run, ApplyAll, Lines, ListOf, SameTree;
    var p, acts := PlanOf(m, d, w), Acts(m, d, w);
    EmittedCarries(m, t, d, w, under);
    ListsMatch(m, d, w);
    var i := PrefixIsList(p, acts, |w.order|, j);
    StartResumable(p);
    PlanSteps(p, SourcesOf(m, under), acts, i);
    ResumeReachesTheSame(p, SourcesOf(m, under), acts, i);
  }
}
