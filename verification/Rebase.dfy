/** The path from a decision to a tree: what the emitted list asks of the interpreter, and what the
    two sides are promised of the store it leaves. */
module Rebase {
  import opened Trees
  import opened MergeSpec
  import opened ContentSpec
  import opened Grouping
  import opened Context
  import opened Decide
  import opened DecisionLaws
  import opened Manifest
  import opened Apply
  import opened Plan
  import opened Kinds
  import ClassIndex
  import Pools

  /** A name with names below it is a directory of onto, if onto has it. */
  ghost predicate KidsAreDirectories(m: Merge, w: Walk)
    requires m.Valid()
  {
    forall x: nat :: x in w.kids && m.On(Onto, x) ==> m.onto.ContentAt(x).kind == Directory
  }

  /** A decision and its walk, over trees that agree on types. */
  ghost predicate Ready(m: Merge, t: Table, d: Decision, w: Walk) {
    m.Valid() && SameKinds(m) && DecisionFor(m, t, d) && w.Valid(m) && KidsAreDirectories(m, w)
  }

  lemma PoolIsListed(m: Merge, t: Table, d: Decision, k: nat)
    requires m.Valid() && DecisionFor(m, t, d) && k < |d.pools|
    ensures |d.resultOf| == m.n && PoolListed(m, d, k)
  {
    assert ContentRight(m, t, d.flags, d.groupOf, d.pools[k]);
    var names := d.pools[k].names;
    assert Pools.Results(m, d.resultOf, |d.pools|);
    assert names == ClassIndex.NamesIn(d.resultOf, k, m.n);
    forall i | 0 <= i < |names| ensures names[i] < m.n && d.resultOf[names[i]] == k { assert names[i] in names; }
  }

  lemma ReadyEmits(m: Merge, t: Table, d: Decision, w: Walk)
    requires Ready(m, t, d, w)
    ensures Emittable(m, d, w)
  {
    hide Merge.Valid, ContentRight, Flagged, Merge.SameGroup, Merge.SameResult;
    forall k: nat | k < |d.pools| ensures PoolListed(m, d, k) { PoolIsListed(m, t, d, k); }
    forall x: nat | x < m.n && 0 <= d.resultOf[x] ensures x in d.pools[d.resultOf[x]].names {
      assert x in ClassIndex.NamesIn(d.resultOf, d.resultOf[x], m.n);
    }
  }

  /** The name's group carries no conflict; a name of base alone is in no group. */
  predicate CleanName(m: Merge, d: Decision, x: nat)
    requires m.Valid() && |d.groupOf| == m.NodeCount()
    requires forall u: nat :: u < m.NodeCount() ==> 0 <= d.groupOf[u] < |d.flags|
  {
    if m.On(From, x) || m.On(Onto, x) then CleanNode(d, m.NodeOf(x)) else true
  }

  function GoalOf(p: ResultPool): Content {
    if p.content.Some? then p.content.value else Content(File, 0, 0)
  }

  /** What the emitted list asks of the interpreter. */
  ghost function PlanOf(m: Merge, d: Decision, w: Walk): (p: Plan)
    requires Emittable(m, d, w)
    ensures |p.pool| == |p.clean| == m.n && |p.anchor| == |p.keeps| == |p.goal| == |d.pools|
  {
    Plan(m.n, m.onto,
         seq(m.n, (x: nat) requires x < m.n => if m.Survives(x) then d.resultOf[x] else -1),
         seq(m.n, (x: nat) requires x < m.n => CleanName(m, d, x)),
         seq(|d.pools|, (k: nat) requires k < |d.pools| => Anchor(m, d, w, k)),
         seq(|d.pools|, (k: nat) requires k < |d.pools| => Keeps(m, d, w, k)),
         seq(|d.pools|, (k: nat) requires k < |d.pools| => GoalOf(d.pools[k])),
         w.order, w.ord)
  }

  /** The acts of the whole walk. */
  ghost function Acts(m: Merge, d: Decision, w: Walk): (acts: seq<Act>)
    requires Emittable(m, d, w)
    ensures |acts| == |w.order| && forall i :: 0 <= i < |acts| ==> w.order[i] < m.n && acts[i] == ActOf(m, d, w, w.order[i])
  {
    OrderInTable(m, d, w);
    seq(|w.order|, (i: nat) requires i < |w.order| && w.order[i] < m.n => ActOf(m, d, w, w.order[i]))
  }

  lemma {:induction false} LinesAreList(m: Merge, d: Decision, w: Walk, i: nat)
    requires Emittable(m, d, w) && i <= |w.order|
    ensures Lines(m, d, w, i) == ListOf(PlanOf(m, d, w), Acts(m, d, w), i)
  {
    hide Emittable, ActOf;
    if i > 0 { LinesAreList(m, d, w, i - 1); }
  }

  // ----- the plan is valid

  lemma PlanShaped(m: Merge, d: Decision, w: Walk)
    requires Emittable(m, d, w)
    ensures PlanOf(m, d, w).Shaped()
  {
    hide First;
  }

  /** All of an onto pool is clean or none of it is. */
  lemma OntoPoolClean(m: Merge, t: Table, d: Decision, w: Walk, x: nat, y: nat)
    requires Ready(m, t, d, w) && Emittable(m, d, w)
    requires m.onto.Has(x) && m.onto.Has(y) && m.onto.poolOf[x] == m.onto.poolOf[y]
    ensures x < m.n && y < m.n && CleanName(m, d, x) == CleanName(m, d, y)
  {
    hide Emittable, ContentRight, Flagged, Merge.SameGroup;
    PoolMatesTogether(m, Onto, x, y);
    assert GroupsOf(m, d.groupOf);
  }

  lemma ResultPoolClean(m: Merge, t: Table, d: Decision, w: Walk, x: nat, y: nat)
    requires Ready(m, t, d, w) && Emittable(m, d, w) && x < m.n && y < m.n
    requires m.Survives(x) && m.Survives(y) && d.resultOf[x] == d.resultOf[y]
    ensures CleanName(m, d, x) == CleanName(m, d, y)
    ensures CleanName(m, d, x) <==> d.flags[d.pools[d.resultOf[x]].group] == {}
  {
    hide Emittable, ContentRight, Flagged, Merge.SameGroup, Holds;
    PoolAtHolds(m, t, d, x);
    PoolAtHolds(m, t, d, y);
  }

  /** A clean pool's content has its names' type, and a directory's pool has one name. */
  lemma GoalKind(m: Merge, t: Table, d: Decision, w: Walk, x: nat)
    requires Ready(m, t, d, w) && Emittable(m, d, w) && x < m.n && m.Survives(x) && CleanName(m, d, x)
    ensures d.pools[d.resultOf[x]].content.Some? && GoalOf(d.pools[d.resultOf[x]]).kind == SideKind(m, x)
  {
    hide Emittable, ContentRight, Flagged, Merge.SameGroup, Holds, SameKinds;
    PoolAtHolds(m, t, d, x);
    HeldKind(m, t, x, d.pools[d.resultOf[x]].content.value);
  }

  lemma OneDirectory(m: Merge, t: Table, d: Decision, w: Walk, x: nat, y: nat)
    requires Ready(m, t, d, w) && Emittable(m, d, w) && x < m.n && y < m.n
    requires m.Survives(x) && m.Survives(y) && CleanName(m, d, x) && d.resultOf[x] == d.resultOf[y]
    requires GoalOf(d.pools[d.resultOf[x]]).kind == Directory
    ensures x == y
  {
    hide ContentRight, Flagged, Merge.SameGroup, Merge.SameResult, Holds, SameKinds;
    GoalKind(m, t, d, w, x);
    ResultKinds(m, x, y);
  }

  lemma KeepsOneEach(m: Merge, d: Decision, w: Walk, j: nat, k: nat)
    requires Emittable(m, d, w) && j < |d.pools| && k < |d.pools|
    ensures Keeps(m, d, w, j) != -1 ==>
      var a := Anchor(m, d, w, j); m.onto.Has(a) && m.onto.poolOf[a] == Keeps(m, d, w, j)
    ensures Keeps(m, d, w, j) == Keeps(m, d, w, k) != -1 ==> j == k
  {
    hide First;
  }

  /** An anchor that is an onto directory keeps it. */
  lemma DirectoryKept(m: Merge, d: Decision, w: Walk, k: nat)
    requires Emittable(m, d, w) && k < |d.pools|
    requires m.onto.Has(Anchor(m, d, w, k)) && m.onto.ContentAt(Anchor(m, d, w, k)).kind == Directory
    ensures Keeps(m, d, w, k) != -1
  {
    hide First;
    var a := Anchor(m, d, w, k);
    var q := m.onto.poolOf[a];
    assert m.onto.PoolValid(q);
    assert FirstOfOnto(m, w, q) in m.onto.pools[q].names && a in m.onto.pools[q].names;
  }

  lemma AnchorsFirst(m: Merge, d: Decision, w: Walk, x: nat)
    requires Emittable(m, d, w) && x < m.n && m.Survives(x)
    ensures w.ord[Anchor(m, d, w, d.resultOf[x])] <= w.ord[x]
  {
    hide First;
    AnchorIsFirst(m, d, w, d.resultOf[x]);
    assert x in d.pools[d.resultOf[x]].names;
  }

  lemma PlanIsValid(m: Merge, t: Table, d: Decision, w: Walk)
    requires Ready(m, t, d, w)
    ensures Emittable(m, d, w) && PlanOf(m, d, w).Valid()
  {
    hide Merge.Valid, Ready, Emittable, CleanName, GoalOf, Plan.Shaped, SideKind;
    ReadyEmits(m, t, d, w);
    var p := PlanOf(m, d, w);
    PlanShaped(m, d, w);
    PlanGroups(m, t, d, w, p);
    PlanKeeps(m, d, w, p);
    PlanKinds(m, t, d, w, p);
    PlanAnchors(m, d, w, p);
  }

  lemma PlanGroups(m: Merge, t: Table, d: Decision, w: Walk, p: Plan)
    requires Ready(m, t, d, w) && Emittable(m, d, w) && p == PlanOf(m, d, w) && p.Shaped()
    ensures forall x: nat, y: nat :: p.onto.Has(x) && p.onto.Has(y) && p.onto.poolOf[x] == p.onto.poolOf[y] ==> p.clean[x] == p.clean[y]
    ensures forall x: nat :: x < p.n && p.pool[x] != -1 ==> p.clean[x] == p.clean[p.anchor[p.pool[x]]]
  {
    hide Ready, CleanName;
    forall x: nat, y: nat | p.onto.Has(x) && p.onto.Has(y) && p.onto.poolOf[x] == p.onto.poolOf[y] ensures p.clean[x] == p.clean[y] {
      OntoPoolClean(m, t, d, w, x, y);
    }
    forall x: nat | x < p.n && p.pool[x] != -1 ensures p.clean[x] == p.clean[p.anchor[p.pool[x]]] {
      ResultPoolClean(m, t, d, w, x, Anchor(m, d, w, d.resultOf[x]));
    }
  }

  lemma PlanKeeps(m: Merge, d: Decision, w: Walk, p: Plan)
    requires Emittable(m, d, w) && p == PlanOf(m, d, w) && p.Shaped()
    ensures forall k: nat :: k < |p.anchor| && p.keeps[k] != -1 ==> p.onto.Has(p.anchor[k]) && p.onto.poolOf[p.anchor[k]] == p.keeps[k]
    ensures forall j: nat, k: nat :: j < |p.anchor| && k < |p.anchor| && p.keeps[j] == p.keeps[k] != -1 ==> j == k
    ensures forall k: nat :: k < |p.anchor| && p.onto.Has(p.anchor[k]) && p.onto.ContentAt(p.anchor[k]).kind == Directory ==> p.keeps[k] != -1
  {
    hide Emittable, Anchor, Keeps;
    forall j: nat, k: nat | j < |p.anchor| && k < |p.anchor| && p.keeps[j] == p.keeps[k] != -1 ensures j == k {
      KeepsOneEach(m, d, w, j, k);
    }
    forall k: nat | k < |p.anchor| && p.keeps[k] != -1 ensures p.onto.Has(p.anchor[k]) && p.onto.poolOf[p.anchor[k]] == p.keeps[k] {
      KeepsOneEach(m, d, w, k, k);
    }
    forall k: nat | k < |p.anchor| && p.onto.Has(p.anchor[k]) && p.onto.ContentAt(p.anchor[k]).kind == Directory ensures p.keeps[k] != -1 {
      DirectoryKept(m, d, w, k);
    }
  }

  lemma PlanKinds(m: Merge, t: Table, d: Decision, w: Walk, p: Plan)
    requires Ready(m, t, d, w) && Emittable(m, d, w) && p == PlanOf(m, d, w) && p.Shaped()
    ensures forall x: nat :: p.Wanted(x) && p.onto.Has(x) ==> p.onto.ContentAt(x).kind == p.goal[p.pool[x]].kind
    ensures forall x: nat, y: nat :: p.Wanted(x) && p.Wanted(y) && p.pool[x] == p.pool[y] && p.goal[p.pool[x]].kind == Directory ==> x == y
  {
    hide DecisionFor, CleanName, GoalOf, Anchor, Keeps;
    forall x: nat | p.Wanted(x) && p.onto.Has(x) ensures p.onto.ContentAt(x).kind == p.goal[p.pool[x]].kind {
      GoalKind(m, t, d, w, x);
    }
    forall x: nat, y: nat | p.Wanted(x) && p.Wanted(y) && p.pool[x] == p.pool[y] && p.goal[p.pool[x]].kind == Directory ensures x == y {
      OneDirectory(m, t, d, w, x, y);
    }
  }

  lemma PlanAnchors(m: Merge, d: Decision, w: Walk, p: Plan)
    requires Emittable(m, d, w) && p == PlanOf(m, d, w) && p.Shaped()
    ensures forall x: nat :: x < p.n && p.pool[x] != -1 ==> p.pos[p.anchor[p.pool[x]]] <= p.pos[x]
  {
    forall x: nat | x < p.n && p.pool[x] != -1 ensures p.pos[p.anchor[p.pool[x]]] <= p.pos[x] {
      AnchorsFirst(m, d, w, x);
    }
  }

  // ----- the list carries the plan

  function SourcesOf(m: Merge, under: (nat, nat) -> bool): Sources {
    Sources(m.from, m.onto, m.n, under)
  }

  lemma LostFits(m: Merge, t: Table, d: Decision, w: Walk, under: (nat, nat) -> bool, p: Plan, x: nat)
    requires Ready(m, t, d, w) && Emittable(m, d, w) && p == PlanOf(m, d, w) && p.Shaped()
    requires x < m.n && !m.Survives(x)
    ensures p.Fits(SourcesOf(m, under), x, LostAct(m, d, w, x))
  {
    hide DecisionFor, SameKinds, Walk.Valid, Anchor, Keeps, GoalOf;
    assert x in w.kids && m.onto.Has(x) ==> m.onto.ContentAt(x).kind == Directory;
  }

  lemma AnchorFits(m: Merge, t: Table, d: Decision, w: Walk, under: (nat, nat) -> bool, p: Plan, x: nat)
    requires Ready(m, t, d, w) && Emittable(m, d, w) && p == PlanOf(m, d, w) && p.Shaped()
    requires x < m.n && m.Survives(x) && CleanName(m, d, x) && x == Anchor(m, d, w, d.resultOf[x])
    requires ActOf(m, d, w, x) != NoSource
    ensures p.Fits(SourcesOf(m, under), x, ActOf(m, d, w, x))
  {
    hide DecisionFor, SameKinds, Walk.Valid, Anchor, Keeps, CleanName, FromPath, DupPath;
    ResultPoolClean(m, t, d, w, x, x);
    GoalKind(m, t, d, w, x);
    var k := d.resultOf[x];
    var c := d.pools[k].content.value;
    SourceIsFrom(m, d, w, x, k, c);
    SourceIsOnto(m, d, w, k, c);
  }

  lemma SourceIsFrom(m: Merge, d: Decision, w: Walk, x: nat, k: nat, c: Content)
    requires Emittable(m, d, w) && k < |d.pools|
    ensures var r := FromPath(m, d, w, x, k, c);
      r.Some? ==> m.from.Has(r.value) && m.from.poolOf[r.value] < |m.from.pools| && m.from.ContentAt(r.value) == c
  {
    hide FromPath;
    var r := FromPath(m, d, w, x, k, c);
    assert r.Some? ==> Offers(m, c, r.value);
  }

  lemma SourceIsOnto(m: Merge, d: Decision, w: Walk, k: nat, c: Content)
    requires Emittable(m, d, w) && k < |d.pools|
    ensures var r := DupPath(m, d, w, k, c, 0);
      r.Some? ==> m.onto.Has(r.value) && m.onto.poolOf[r.value] < |m.onto.pools| && m.onto.ContentAt(r.value) == c
  {
    hide DupPath;
  }

  lemma NameFits(m: Merge, t: Table, d: Decision, w: Walk, under: (nat, nat) -> bool, p: Plan, x: nat)
    requires Ready(m, t, d, w) && Emittable(m, d, w) && p == PlanOf(m, d, w) && p.Shaped()
    requires x < m.n && ActOf(m, d, w, x) != NoSource
    ensures p.Fits(SourcesOf(m, under), x, ActOf(m, d, w, x))
  {
    hide DecisionFor, SameKinds, Walk.Valid, Anchor, Keeps, CleanName, AnchorAct, LostAct;
    if !m.Survives(x) {
      LostFits(m, t, d, w, under, p, x);
    } else {
      ResultPoolClean(m, t, d, w, x, x);
      if CleanName(m, d, x) {
        GoalKind(m, t, d, w, x);
        if x == Anchor(m, d, w, d.resultOf[x]) { AnchorFits(m, t, d, w, under, p, x); }
      }
    }
  }

  /** An emitted list carries the plan of its decision. */
  lemma EmittedCarries(m: Merge, t: Table, d: Decision, w: Walk, under: (nat, nat) -> bool)
    requires Ready(m, t, d, w) && Emittable(m, d, w) && !Sourceless(m, d, w, |w.order|)
    ensures PlanOf(m, d, w).Valid() && Carries(PlanOf(m, d, w), SourcesOf(m, under), Acts(m, d, w))
  {
    hide Ready, Emittable, Plan.Valid, Plan.Shaped, Plan.Fits, ActOf;
    PlanIsValid(m, t, d, w);
    var p := PlanOf(m, d, w);
    PlanShaped(m, d, w);
    MergeIsValid(m, t, d, w);
    OrderInTable(m, d, w);
    forall i: nat | i < |w.order| ensures p.Fits(SourcesOf(m, under), p.order[i], Acts(m, d, w)[i]) {
      NameFits(m, t, d, w, under, p, w.order[i]);
    }
  }

  lemma MergeIsValid(m: Merge, t: Table, d: Decision, w: Walk)
    requires Ready(m, t, d, w)
    ensures m.Valid() && m.from.Valid(m.n) && m.onto.Valid(m.n)
  {
  }
}
