/** The laws of the merge, stated of what `zr_decide` returns. */
module DecisionLaws {
  import opened Trees
  import opened MergeSpec
  import opened ContentSpec
  import opened Adoption
  import opened Grouping
  import opened SideNeutral
  import opened Identity
  import opened Decide

  /** The group of side pool u carries no conflict. */
  predicate CleanNode(d: Decision, u: nat)
    requires u < |d.groupOf| && 0 <= d.groupOf[u] < |d.flags|
  {
    d.flags[d.groupOf[u]] == {}
  }

  lemma CleanNodeIsClean(m: Merge, t: Table, d: Decision, u: nat)
    requires m.Valid() && DecisionFor(m, t, d) && u < m.NodeCount()
    ensures 0 <= d.groupOf[u] < |d.flags|
    ensures CleanNode(d, u) <==> Clean(m, t, u)
  {
    hide Merge.Valid, Flagged, Merge.SameGroup, ContentRight, PoolsRight;
    assert FlagsRight(m, t, d.flags, d.groupOf);
    if CleanNode(d, u) {
      forall f ensures !Flagged(m, t, f, u) { assert f !in d.flags[d.groupOf[u]]; }
    }
    if Clean(m, t, u) {
      forall f ensures f !in d.flags[d.groupOf[u]] { assert !Flagged(m, t, f, u); }
    }
  }

  /** The result pool of a surviving name. */
  function PoolAt(d: Decision, x: nat): ResultPool
    requires x < |d.resultOf| && 0 <= d.resultOf[x] < |d.pools|
  {
    d.pools[d.resultOf[x]]
  }

  lemma PoolAtHolds(m: Merge, t: Table, d: Decision, x: nat)
    requires m.Valid() && DecisionFor(m, t, d) && x < m.n && m.Survives(x)
    ensures 0 <= d.resultOf[x] < |d.pools| && x in PoolAt(d, x).names
    ensures CleanNode(d, m.NodeOf(x)) ==>
      PoolAt(d, x).content.Some? && forall c :: Holds(m, t, x, c) <==> PoolAt(d, x).content == Some(c)
    ensures !CleanNode(d, m.NodeOf(x)) ==> PoolAt(d, x).content == None
    ensures PoolAt(d, x).group == d.groupOf[m.NodeOf(x)]
  {
    var k := d.resultOf[x];
    var p := d.pools[k];
    assert x in p.names && p.names[0] in p.names;
    assert ContentRight(m, t, d.flags, d.groupOf, p);
    var a := p.names[0];
    assert m.SameResult(a, x) && m.Survives(a);
    ResultInGroup(m, a, x);
    forall c ensures Holds(m, t, x, c) <==> Holds(m, t, a, c) { HoldsTogether(m, t, a, x, c); }
  }

  /** Names of one result pool hold one content. */
  lemma HoldsTogether(m: Merge, t: Table, a: nat, x: nat, c: Content)
    requires m.Valid() && |t| == m.n && a < m.n && x < m.n && m.Survives(a) && m.Survives(x) && m.SameResult(a, x)
    ensures Holds(m, t, x, c) <==> Holds(m, t, a, c)
  {
    forall y: nat ensures InPoolOf(m, a, y) <==> InPoolOf(m, x, y) {}
    assert forall y: nat :: Speaks(m, t, a, y) <==> Speaks(m, t, x, y);
    assert forall s: Side, z: nat :: LastAdded(m, s, a, z) <==> LastAdded(m, s, x, z);
  }

  /** Swapping from and onto changes neither which groups are in conflict, nor the pools and
      contents of any clean group. */
  lemma SidesAreEqual(m: Merge, t: Table, d: Decision, t': Table, d': Decision)
    requires m.Valid() && DecisionFor(m, t, d) && DecisionFor(m.Swap(), t', d')
    ensures forall u: nat :: u < m.NodeCount() ==>
      0 <= d.groupOf[u] < |d.flags| && 0 <= d'.groupOf[Flip(m, u)] < |d'.flags| &&
      (CleanNode(d, u) <==> CleanNode(d', Flip(m, u)))
    ensures forall x: nat :: x < m.n ==> (0 <= d.resultOf[x] <==> 0 <= d'.resultOf[x])
    ensures forall x: nat, y: nat :: x < m.n && y < m.n && m.Survives(x) && m.Survives(y) && CleanNode(d, m.NodeOf(x)) ==>
      (d.resultOf[x] == d.resultOf[y] <==> d'.resultOf[x] == d'.resultOf[y])
    ensures forall x: nat :: x < m.n && m.Survives(x) && CleanNode(d, m.NodeOf(x)) ==>
      0 <= d.resultOf[x] < |d.pools| && 0 <= d'.resultOf[x] < |d'.pools| && PoolAt(d, x).content == PoolAt(d', x).content
  {
    hide Merge.Valid, Merge.SameGroup, Merge.SameResult, Flagged, Holds;
    SwapValid(m);
    SwapAdopted(m, t);
    AdoptedUnique(m.Swap(), t, t');
    forall u: nat | u < m.NodeCount()
      ensures 0 <= d.groupOf[u] < |d.flags| && 0 <= d'.groupOf[Flip(m, u)] < |d'.flags|
      ensures CleanNode(d, u) <==> CleanNode(d', Flip(m, u))
    {
      CleanNodeIsClean(m, t, d, u);
      CleanNodeIsClean(m.Swap(), t, d', Flip(m, u));
      SwapClean(m, t, u);
    }
    forall x: nat, y: nat | x < m.n && y < m.n && m.Survives(x) && m.Survives(y) && CleanNode(d, m.NodeOf(x))
      ensures d.resultOf[x] == d.resultOf[y] <==> d'.resultOf[x] == d'.resultOf[y]
    {
      CleanNodeIsClean(m, t, d, m.NodeOf(x));
      SwapResult(m, t, x);
      assert InPoolOf(m.Swap(), x, y) <==> InPoolOf(m, x, y);
    }
    forall x: nat | x < m.n && m.Survives(x) && CleanNode(d, m.NodeOf(x))
      ensures 0 <= d.resultOf[x] < |d.pools| && 0 <= d'.resultOf[x] < |d'.pools|
      ensures PoolAt(d, x).content == PoolAt(d', x).content
    {
      SameContent(m, t, d, d', x);
    }
  }

  lemma SameContent(m: Merge, t: Table, d: Decision, d': Decision, x: nat)
    requires m.Valid() && DecisionFor(m, t, d) && m.Swap().Valid() && DecisionFor(m.Swap(), t, d')
    requires x < m.n && m.Survives(x) && CleanNode(d, m.NodeOf(x))
    ensures 0 <= d.resultOf[x] < |d.pools| && 0 <= d'.resultOf[x] < |d'.pools|
    ensures PoolAt(d, x).content == PoolAt(d', x).content
  {
    hide Merge.Valid, Merge.SameGroup, Merge.SameResult, Flagged, Holds, ContentRight;
    var w := m.Swap();
    CleanNodeIsClean(m, t, d, m.NodeOf(x));
    SwapClean(m, t, m.NodeOf(x));
    SwapNodeOf(m, x);
    FlagsFollowGroup(w, t, w.NodeOf(x), Flip(m, m.NodeOf(x)));
    CleanNodeIsClean(w, t, d', w.NodeOf(x));
    PoolAtHolds(m, t, d, x);
    PoolAtHolds(w, t, d', x);
    SwapResult(m, t, x);
    var c := PoolAt(d, x).content.value;
    assert Holds(m, t, x, c) && Holds(w, t, x, c);
  }

  /** The decision has no conflict and rebuilds the tree g: its names, its pools, its contents. */
  ghost predicate Rebuilds(m: Merge, d: Decision, g: Tree)
    requires m.Valid() && g.Valid(m.n)
  {
    && |d.resultOf| == m.n && |d.groupOf| == m.NodeCount()
    && (forall u: nat :: u < m.NodeCount() ==> 0 <= d.groupOf[u] < |d.flags| && CleanNode(d, u))
    && (forall x: nat :: x < m.n ==> (0 <= d.resultOf[x] < |d.pools| <==> g.Has(x)))
    && (forall x: nat, y: nat :: g.Has(x) && g.Has(y) ==> (d.resultOf[x] == d.resultOf[y] <==> g.poolOf[x] == g.poolOf[y]))
    && (forall x: nat :: g.Has(x) && 0 <= d.resultOf[x] < |d.pools| ==> PoolAt(d, x).content == Some(g.ContentAt(x)))
  }

  lemma YieldsRebuilds(m: Merge, t: Table, d: Decision, g: Tree)
    requires m.Valid() && g.Valid(m.n) && DecisionFor(m, t, d) && Yields(m, t, g)
    ensures Rebuilds(m, d, g)
  {
    hide Merge.Valid, Merge.SameGroup, Merge.SameResult, Flagged, Holds, Event, ContentRight, PoolAt;
    forall u: nat | u < m.NodeCount() ensures 0 <= d.groupOf[u] < |d.flags| && CleanNode(d, u) {
      NoEventsClean(m, t, g, u);
      CleanNodeIsClean(m, t, d, u);
    }
    forall x: nat | g.Has(x) ensures 0 <= d.resultOf[x] < |d.pools| && PoolAt(d, x).content == Some(g.ContentAt(x)) {
      ContentRebuilt(m, t, d, g, x);
    }
  }

  lemma NoEventsClean(m: Merge, t: Table, g: Tree, u: nat)
    requires m.Valid() && |t| == m.n && g.Valid(m.n) && Yields(m, t, g) && u < m.NodeCount()
    ensures Clean(m, t, u)
  {
    hide Merge.Valid, Event, Merge.SameGroup;
  }

  lemma ContentRebuilt(m: Merge, t: Table, d: Decision, g: Tree, x: nat)
    requires m.Valid() && g.Valid(m.n) && DecisionFor(m, t, d) && Yields(m, t, g) && g.Has(x)
    ensures 0 <= d.resultOf[x] < |d.pools| && PoolAt(d, x).content == Some(g.ContentAt(x))
  {
    hide Merge.SameGroup, Merge.SameResult, Holds, Event, Flagged, ContentRight, PoolAt, CleanNode;
    assert m.Survives(x);
    NoEventsClean(m, t, g, m.NodeOf(x));
    CleanNodeIsClean(m, t, d, m.NodeOf(x));
    PoolAtHolds(m, t, d, x);
    assert Holds(m, t, x, g.ContentAt(x));
  }

  /** Deciding (base, base, onto) gives onto. */
  lemma UnchangedFrom(m: Merge, t: Table, d: Decision)
    requires m.Valid() && DecisionFor(m, t, d) && m.from == m.base
    ensures Rebuilds(m, d, m.onto)
  {
    OntoAlone(m, t);
    YieldsRebuilds(m, t, d, m.onto);
  }

  /** Deciding (base, from, base) gives from. */
  lemma UnchangedOnto(m: Merge, t: Table, d: Decision)
    requires m.Valid() && DecisionFor(m, t, d) && m.onto == m.base
    ensures Rebuilds(m, d, m.from)
  {
    FromAlone(m, t);
    YieldsRebuilds(m, t, d, m.from);
  }

  /** Deciding (base, x, x) gives x. */
  lemma SameChanges(m: Merge, t: Table, d: Decision)
    requires m.Valid() && DecisionFor(m, t, d) && m.from == m.onto
    ensures Rebuilds(m, d, m.onto)
  {
    Convergence(m, t);
    YieldsRebuilds(m, t, d, m.onto);
  }
}
