/** Swapping from and onto: the decision does not prefer a side, although the placement of
    contested names and the group of a name are computed through from alone. */
module SideNeutral {
  import opened Trees
  import opened UnionFind
  import opened MergeSpec
  import opened ContentSpec
  import opened Grouping

  // ----- sharing

  lemma SwapValid(m: Merge)
    requires m.Valid()
    ensures m.Swap().Valid() && m.Swap().Swap() == m
    ensures forall s: Side :: m.Swap().T(s) == m.T(s.Other())
  {
  }

  lemma SwapClassRespecting(m: Merge, L: Labelling)
    requires m.Valid() && m.ClassRespecting(L)
    ensures m.Swap().Valid() && m.Swap().ClassRespecting(L)
  {
    var w := m.Swap();
    forall s: Side, a: nat, b: nat | w.LumpPair(s, a, b) ensures L[a] == L[b] {
      assert m.LumpPair(s.Other(), a, b);
    }
    forall a: nat, b: nat | w.LabelPair(a, b) ensures L[a] == L[b] {
      assert m.LabelPair(a, b);
    }
  }

  lemma SwapSameClass(m: Merge, a: nat, b: nat)
    requires m.Valid() && a < m.n && b < m.n
    ensures m.Swap().Valid() && (m.Swap().SameClass(a, b) <==> m.SameClass(a, b))
  {
    var w := m.Swap();
    forall L | m.ClassRespecting(L) ensures w.ClassRespecting(L) { SwapClassRespecting(m, L); }
    forall L | w.ClassRespecting(L) ensures m.ClassRespecting(L) { SwapClassRespecting(w, L); }
  }

  /** The node of the same side pool when the sides are swapped. */
  function Flip(m: Merge, u: nat): (v: nat)
    requires u < m.NodeCount()
    ensures v < m.Swap().NodeCount()
  {
    if u < |m.from.pools| then |m.onto.pools| + u else u - |m.from.pools|
  }

  lemma SwapGroupRespecting(m: Merge, G: Labelling)
    requires m.Valid() && m.GroupRespecting(G)
    ensures m.Swap().GroupRespecting(G[|m.from.pools|..] + G[..|m.from.pools|])
  {
    var w := m.Swap();
    forall x: nat | w.Survives(x) && w.On(From, x) && w.On(Onto, x)
      ensures (G[|m.from.pools|..] + G[..|m.from.pools|])[w.Node(From, w.At(From, x))] ==
              (G[|m.from.pools|..] + G[..|m.from.pools|])[w.Node(Onto, w.At(Onto, x))]
    {
      assert m.Survives(x) && m.On(From, x) && m.On(Onto, x);
    }
  }

  lemma SwapSameGroupOneWay(m: Merge, u: nat, v: nat)
    requires m.Valid() && u < m.NodeCount() && v < m.NodeCount()
    requires m.Swap().SameGroup(Flip(m, u), Flip(m, v))
    ensures m.SameGroup(u, v)
  {
    forall G | m.GroupRespecting(G) ensures G[u] == G[v] {
      SwapGroupRespecting(m, G);
      var H := G[|m.from.pools|..] + G[..|m.from.pools|];
      assert H[Flip(m, u)] == G[u] && H[Flip(m, v)] == G[v];
    }
  }

  lemma SwapSameGroup(m: Merge, u: nat, v: nat)
    requires m.Valid() && u < m.NodeCount() && v < m.NodeCount()
    ensures m.Swap().SameGroup(Flip(m, u), Flip(m, v)) <==> m.SameGroup(u, v)
  {
    var w := m.Swap();
    if w.SameGroup(Flip(m, u), Flip(m, v)) { SwapSameGroupOneWay(m, u, v); }
    if m.SameGroup(u, v) {
      assert Flip(w, Flip(m, u)) == u && Flip(w, Flip(m, v)) == v;
      SwapSameGroupOneWay(w, Flip(m, u), Flip(m, v));
    }
  }

  lemma SwapNodeOf(m: Merge, x: nat)
    requires m.Valid() && (m.On(From, x) || m.On(Onto, x))
    ensures m.Swap().SameGroup(m.Swap().NodeOf(x), Flip(m, m.NodeOf(x)))
  {
    var w := m.Swap();
    var s := if m.On(From, x) then Onto else From;
    BothPoolsTogether(w, s, x);
    assert Flip(m, m.NodeOf(x)) == w.Node(s, w.At(s, x));
  }

  // ----- the conflicts of sharing

  lemma SwapHomes(m: Merge, s: Side, x: nat)
    requires m.Valid() && m.On(s, x)
    ensures m.Swap().HomeOf(s.Other(), m.At(s, x)) == m.HomeOf(s, m.At(s, x))
  {
    hide Merge.SameClass;
    var w := m.Swap();
    var names := m.T(s).pools[m.At(s, x)].names;
    KeepSame(names, (y: nat) => m.Settled(y), (y: nat) => w.Settled(y));
    assert Keep(names, (y: nat) => w.Settled(y)) == w.SettledOf(s.Other(), m.At(s, x));
    assert w.SettledOf(s.Other(), m.At(s, x)) == m.SettledOf(s, m.At(s, x));
    var here := m.SettledOf(s, m.At(s, x));
    if here != [] {
      assert here[0] in here;
      forall y | y in here ensures w.SameClass(here[0], y) <==> m.SameClass(here[0], y) {
        SwapSameClass(m, here[0], y);
      }
    }
  }

  lemma SwapCoMembers(m: Merge, s: Side, x: nat)
    requires m.Valid() && m.On(s, x)
    ensures m.Swap().CoMembers(s.Other(), x) == m.CoMembers(s, x)
  {
    var w := m.Swap();
    KeepSame(m.T(s).pools[m.At(s, x)].names, (y: nat) => y != x && m.Contested(y), (y: nat) => y != x && w.Contested(y));
  }

  lemma SwapContestedAt(m: Merge, x: nat)
    requires m.Valid()
    ensures m.Swap().ContestedAt(x) <==> m.ContestedAt(x)
  {
    if m.Contested(x) {
      SwapHomes(m, From, x);
      SwapHomes(m, Onto, x);
      SwapCoMembers(m, From, x);
      SwapCoMembers(m, Onto, x);
      var hf, ho := m.HomeOf(From, m.At(From, x)), m.HomeOf(Onto, m.At(Onto, x));
      if hf.InClass? && ho.InClass? && hf.first < m.n && ho.first < m.n {
        SwapSameClass(m, hf.first, ho.first);
      }
    }
  }

  lemma SwapHealedAt(m: Merge, a: nat)
    requires m.Valid() && m.HealedAt(a)
    ensures m.Swap().HealedAt(a)
  {
    var s, b :| m.HealedPair(s, a, b);
    SwapSameClass(m, a, b);
    assert m.Swap().HealedPair(s.Other(), a, b);
  }

  lemma SwapOrphanedAt(m: Merge, x: nat)
    requires m.Valid() && m.OrphanedAt(x)
    ensures m.Swap().OrphanedAt(x)
  {
    var s :| m.OrphanedOn(s, x);
    assert m.Swap().OrphanedOn(s.Other(), x);
  }

  lemma SwapCovered(m: Merge, p: nat, r: nat)
    requires m.Valid() && m.Covered(p, r)
    ensures m.Swap().Covered(p, r)
  {
    var s, a, b :| m.CoveredBy(s, a, b, p, r);
    assert m.Swap().CoveredBy(s.Other(), a, b, p, r);
  }

  lemma SwapUnexpressedAt(m: Merge, a: nat)
    requires m.Valid() && m.UnexpressedAt(a)
    ensures m.Swap().UnexpressedAt(a)
  {
    var b :| m.UnexpressedPair(a, b);
    SwapSameClass(m, a, b);
    if m.Swap().Covered(m.Origin(a), m.Origin(b)) {
      SwapCovered(m.Swap(), m.Origin(a), m.Origin(b));
    }
    assert m.Swap().UnexpressedPair(a, b);
  }

  // ----- content

  function FlipValue(v: Value): Value {
    match v
    case Ref(s, q, c) => Ref(s.Other(), q, c)
    case _ => v
  }

  lemma SwapSideValue(m: Merge, s: Side, x: nat)
    requires m.Valid() && m.InBase(x)
    ensures SideValue(m.Swap(), s.Other(), x) == FlipValue(SideValue(m, s, x))
  {
    var w := m.Swap();
    if m.On(s, x) {
      var c := m.T(s).ContentAt(x);
      var names := m.T(s).pools[m.At(s, x)].names;
      assert forall y :: y in names ==> (Kept(w, y, c) <==> Kept(m, y, c));
    }
  }

  lemma {:induction false} SwapFollow(m: Merge, names: seq<nat>, c: Content, t: Table, seen: Cell)
    requires m.Valid() && |t| == m.n
    ensures Follow(m.Swap(), names, c, t, seen) == Follow(m, names, c, t, seen)
  {
    if names != [] {
      SwapFollow(m, names[1..], c, t, seen);
      var y := names[0];
      if Kept(m, y, c) && m.Survives(y) { SwapFollow(m, names[1..], c, t, t[y]); }
    }
  }

  lemma SwapResolve(m: Merge, v: Value, t: Table)
    requires m.Valid() && |t| == m.n && RefsValid(m, v) && !v.Pair?
    ensures RefsValid(m.Swap(), FlipValue(v))
    ensures Resolve(m.Swap(), FlipValue(v), t) == Resolve(m, v, t)
  {
    if v.Ref? { SwapFollow(m, m.T(v.side).pools[v.pool].names, v.kept, t, Pending); }
  }

  lemma SwapAsked(m: Merge, t: Table, x: nat)
    requires m.Valid() && |t| == m.n && x < m.n
    ensures Asked(m.Swap(), t, x) == Asked(m, t, x)
  {
    if m.InBase(x) {
      SwapSideValue(m, From, x);
      SwapSideValue(m, Onto, x);
      SwapResolve(m, SideValue(m, From, x), t);
      SwapResolve(m, SideValue(m, Onto, x), t);
    }
  }

  lemma SwapFixedPoint(m: Merge, t: Table)
    requires m.Valid()
    ensures FixedPoint(m.Swap(), t) <==> FixedPoint(m, t)
  {
    if |t| == m.n {
      forall x | 0 <= x < m.n ensures Asked(m.Swap(), t, x) == Asked(m, t, x) { SwapAsked(m, t, x); }
    }
  }

  lemma SwapAdopted(m: Merge, t: Table)
    requires m.Valid()
    ensures Adopted(m.Swap(), t) <==> Adopted(m, t)
  {
    forall u ensures FixedPoint(m.Swap(), u) <==> FixedPoint(m, u) { SwapFixedPoint(m, u); }
  }

  // ----- placement, away from contested homes

  /** No contested name of u's group has a contested home. */
  ghost predicate QuietHomes(m: Merge, u: nat)
    requires m.Valid() && u < m.NodeCount()
  {
    forall x: nat :: m.ContestedAt(x) ==> !m.SameGroup(m.NodeOf(x), u)
  }

  lemma SwapQuietHomes(m: Merge, u: nat)
    requires m.Valid() && u < m.NodeCount() && QuietHomes(m, u)
    ensures QuietHomes(m.Swap(), Flip(m, u))
  {
    var w := m.Swap();
    forall x: nat | w.ContestedAt(x) ensures !w.SameGroup(w.NodeOf(x), Flip(m, u)) {
      SwapContestedAt(m, x);
      SwapNodeOf(m, x);
      SwapSameGroup(m, m.NodeOf(x), u);
    }
  }

  /** Labels that separate u's group from everything else and follow L inside it. */
  ghost function Inside(m: Merge, L: Labelling, u: nat): (K: Labelling)
    requires m.Valid() && |L| == m.n && u < m.NodeCount()
    ensures |K| == m.n
    ensures forall x: nat :: x < m.n ==>
      K[x] == if m.Survives(x) && m.SameGroup(m.NodeOf(x), u) then 2 * L[x] else 1
  {
    seq(m.n, (x: nat) requires x < m.n =>
      if m.Survives(x) && m.SameGroup(m.NodeOf(x), u) then 2 * L[x] else 1)
  }

  lemma InsideRespectsClasses(m: Merge, L: Labelling, u: nat)
    requires m.Valid() && m.ClassRespecting(L) && u < m.NodeCount()
    ensures m.ClassRespecting(Inside(m, L, u))
  {
    var K := Inside(m, L, u);
    forall s: Side, a: nat, b: nat | m.LumpPair(s, a, b) ensures K[a] == K[b] {
      PoolMatesTogether(m, s, a, b);
      assert L[a] == L[b];
    }
    forall a: nat, b: nat | m.LabelPair(a, b) ensures K[a] == K[b] {
      PoolMatesTogether(m, From, a, b);
      assert L[a] == L[b];
    }
  }

  /** Where homes agree, the from side's choice of company is one the onto side could make. */
  lemma PlacementAgrees(m: Merge, L: Labelling, x: nat, y: nat)
    requires m.Valid() && m.ResultRespecting(L) && m.Swap().PlacedWith(x, y) && !m.ContestedAt(x)
    ensures y < m.n && L[x] == L[y]
  {
    var w := m.Swap();
    PlacedWithMate(w, x, y);
    SwapHomes(m, Onto, x);
    SwapCoMembers(m, Onto, x);
    var hf, ho := m.HomeOf(From, m.At(From, x)), m.HomeOf(Onto, m.At(Onto, x));
    if hf.InClass? {
      assert m.PlacedWith(x, hf.first);
    } else {
      assert m.PlacedWith(x, y);
    }
  }

  lemma InsideRespectsSwapped(m: Merge, L: Labelling, u: nat)
    requires m.Valid() && m.ResultRespecting(L) && u < m.NodeCount() && QuietHomes(m, u)
    ensures m.Swap().ResultRespecting(Inside(m, L, u))
  {
    var w := m.Swap();
    var K := Inside(m, L, u);
    InsideRespectsClasses(m, L, u);
    SwapClassRespecting(m, K);
    forall x: nat, y: nat | w.PlacedWith(x, y) ensures y < m.n && K[x] == K[y] {
      PlacedWithMate(w, x, y);
      PoolMatesTogether(m, Onto, x, y);
      if m.SameGroup(m.NodeOf(x), u) { PlacementAgrees(m, L, x, y); }
    }
  }

  lemma SwapSameResultOneWay(m: Merge, a: nat, b: nat)
    requires m.Valid() && a < m.n && b < m.n && m.Survives(a) && m.Survives(b)
    requires QuietHomes(m, m.NodeOf(a)) && m.Swap().SameResult(a, b)
    ensures m.SameResult(a, b)
  {
    hide Merge.Valid, Merge.SameGroup, QuietHomes;
    assert m.SameGroup(m.NodeOf(a), m.NodeOf(a)) by { SameGroupReflexive(m, m.NodeOf(a)); }
    forall L | m.ResultRespecting(L) ensures L[a] == L[b] {
      var K := Inside(m, L, m.NodeOf(a));
      InsideRespectsSwapped(m, L, m.NodeOf(a));
      assert K[a] == K[b];
    }
  }

  lemma SwapInPoolOf(m: Merge, a: nat, y: nat)
    requires m.Valid() && a < m.n && m.Survives(a) && QuietHomes(m, m.NodeOf(a))
    ensures InPoolOf(m.Swap(), a, y) <==> InPoolOf(m, a, y)
  {
    var w := m.Swap();
    if y < m.n && m.Survives(y) {
      if w.SameResult(a, y) { SwapSameResultOneWay(m, a, y); }
      if m.SameResult(a, y) {
        SwapQuietHomes(m, m.NodeOf(a));
        SwapNodeOf(m, a);
        assert QuietHomes(w, w.NodeOf(a));
        SwapSameResultOneWay(w, a, y);
      }
    }
  }

  lemma SwapPoolViews(m: Merge, t: Table, a: nat)
    requires m.Valid() && |t| == m.n && a < m.n && m.Survives(a) && QuietHomes(m, m.NodeOf(a))
    ensures forall y: nat :: Speaks(m.Swap(), t, a, y) <==> Speaks(m, t, a, y)
    ensures Silent(m.Swap(), t, a) <==> Silent(m, t, a)
    ensures forall s: Side, z: nat :: LastAdded(m.Swap(), s.Other(), a, z) <==> LastAdded(m, s, a, z)
  {
    var w := m.Swap();
    forall y: nat ensures InPoolOf(w, a, y) <==> InPoolOf(m, a, y) { SwapInPoolOf(m, a, y); }
    forall y: nat ensures Speaks(w, t, a, y) <==> Speaks(m, t, a, y) {}
    forall s: Side, z: nat ensures LastAdded(w, s.Other(), a, z) <==> LastAdded(m, s, a, z) {
      assert forall y: nat :: w.On(s.Other(), y) <==> m.On(s, y);
    }
  }

  lemma SwapDisagreeAt(m: Merge, t: Table, a: nat)
    requires m.Valid() && |t| == m.n && DisagreeAt(m, t, a) && QuietHomes(m, m.NodeOf(a))
    ensures DisagreeAt(m.Swap(), t, a)
  {
    var w := m.Swap();
    SwapPoolViews(m, t, a);
    if y: nat, z: nat :| VoicesClash(m, t, a, y, z) {
      assert VoicesClash(w, t, a, y, z);
    } else {
      var z: nat, y: nat :| AddedClash(m, a, z, y);
      assert LastAdded(w, Onto, a, z) by { assert LastAdded(m, From, a, z) && Onto == From.Other(); }
      assert LastAdded(w, From, a, y) by { assert LastAdded(m, Onto, a, y) && From == Onto.Other(); }
      assert AddedClash(w, a, y, z);
    }
  }

  lemma SwapEvent(m: Merge, t: Table, f: Class, x: nat)
    requires m.Valid() && |t| == m.n && f != Disagree && Event(m, t, f, x)
    ensures Event(m.Swap(), t, f, x)
  {
    match f
    case HealedSplit => SwapHealedAt(m, x);
    case OrphanedAdd => SwapOrphanedAt(m, x);
    case ContestedHome => SwapContestedAt(m, x);
    case Unexpressed => SwapUnexpressedAt(m, x);
    case ChangedBoth =>
  }

  lemma SwapEventIn(m: Merge, t: Table, f: Class, x: nat, u: nat)
    requires m.Valid() && |t| == m.n && u < m.NodeCount()
    requires EventIn(m, t, f, x, u) && Event(m.Swap(), t, f, x)
    ensures Flagged(m.Swap(), t, f, Flip(m, u))
  {
    SwapNodeOf(m, x);
    SwapSameGroup(m, m.NodeOf(x), u);
    assert EventIn(m.Swap(), t, f, x, Flip(m, u));
  }

  /** Every class but disagree, which looks at placed names, is the same flag on the same group. */
  lemma SwapFlagged(m: Merge, t: Table, f: Class, u: nat)
    requires m.Valid() && |t| == m.n && u < m.NodeCount() && f != Disagree && Flagged(m, t, f, u)
    ensures Flagged(m.Swap(), t, f, Flip(m, u))
  {
    var x: nat :| EventIn(m, t, f, x, u);
    SwapEvent(m, t, f, x);
    SwapEventIn(m, t, f, x, u);
  }

  lemma CleanIsQuiet(m: Merge, t: Table, u: nat)
    requires m.Valid() && |t| == m.n && u < m.NodeCount() && !Flagged(m, t, ContestedHome, u)
    ensures QuietHomes(m, u)
  {
    forall x: nat | m.ContestedAt(x) ensures !m.SameGroup(m.NodeOf(x), u) {
      assert !EventIn(m, t, ContestedHome, x, u);
    }
  }

  lemma SwapUnclean(m: Merge, t: Table, f: Class, u: nat)
    requires m.Valid() && |t| == m.n && u < m.NodeCount() && Flagged(m, t, f, u)
    ensures !Clean(m.Swap(), t, Flip(m, u))
  {
    if f != Disagree {
      SwapFlagged(m, t, f, u);
    } else if Flagged(m, t, ContestedHome, u) {
      SwapFlagged(m, t, ContestedHome, u);
    } else {
      CleanIsQuiet(m, t, u);
      var x: nat :| EventIn(m, t, f, x, u);
      assert QuietHomes(m, m.NodeOf(x));
      SwapDisagreeAt(m, t, x);
      SwapEventIn(m, t, f, x, u);
    }
  }

  /** The same groups are clean whichever side is called from. */
  lemma SwapClean(m: Merge, t: Table, u: nat)
    requires m.Valid() && |t| == m.n && u < m.NodeCount()
    ensures Clean(m.Swap(), t, Flip(m, u)) <==> Clean(m, t, u)
  {
    if f :| Flagged(m, t, f, u) { SwapUnclean(m, t, f, u); }
    if f :| Flagged(m.Swap(), t, f, Flip(m, u)) {
      SwapUnclean(m.Swap(), t, f, Flip(m, u));
      assert Flip(m.Swap(), Flip(m, u)) == u;
    }
  }

  lemma EventFlags(m: Merge, t: Table, f: Class, x: nat)
    requires m.Valid() && |t| == m.n && Event(m, t, f, x) && (m.On(From, x) || m.On(Onto, x))
    ensures Flagged(m, t, f, m.NodeOf(x)) && !Clean(m, t, m.NodeOf(x))
  {
    assert EventIn(m, t, f, x, m.NodeOf(x));
    assert Flagged(m, t, f, m.NodeOf(x));
  }

  lemma SwapHoldsOneWay(m: Merge, t: Table, a: nat, c: Content)
    requires m.Valid() && |t| == m.n && a < m.n && m.Survives(a) && Clean(m, t, m.NodeOf(a))
    requires Holds(m, t, a, c)
    ensures Holds(m.Swap(), t, a, c)
  {
    var w := m.Swap();
    CleanIsQuiet(m, t, m.NodeOf(a));
    SwapPoolViews(m, t, a);
    if !Silent(m, t, a) {
      var y: nat :| Speaks(m, t, a, y) && t[y] == Is(c);
      assert Speaks(w, t, a, y);
    } else {
      assert !DisagreeAt(m, t, a) by {
        if DisagreeAt(m, t, a) { EventFlags(m, t, Disagree, a); }
      }
      assert forall z: nat :: LastAdded(w, Onto, a, z) <==> LastAdded(m, From, a, z) by {
        assert Onto == From.Other();
      }
      assert forall z: nat :: LastAdded(w, From, a, z) <==> LastAdded(m, Onto, a, z) by {
        assert From == Onto.Other();
      }
      if z: nat :| LastAdded(m, From, a, z) && m.from.ContentAt(z) == c {
        assert LastAdded(w, Onto, a, z);
        if y: nat :| LastAdded(w, From, a, y) {
          assert LastAdded(m, Onto, a, y);
          assert !AddedClash(m, a, z, y);
          assert LastAdded(w, From, a, y) && w.from.ContentAt(y) == c;
        }
      } else {
        var y: nat :| LastAdded(m, Onto, a, y) && m.onto.ContentAt(y) == c;
        assert LastAdded(w, From, a, y) && w.from.ContentAt(y) == c;
      }
    }
  }

  /** What a clean group becomes, its pools and their contents, does not depend on the side. */
  lemma SwapResult(m: Merge, t: Table, a: nat)
    requires m.Valid() && |t| == m.n && a < m.n && m.Survives(a) && Clean(m, t, m.NodeOf(a))
    ensures forall b: nat :: InPoolOf(m.Swap(), a, b) <==> InPoolOf(m, a, b)
    ensures forall c :: Holds(m.Swap(), t, a, c) <==> Holds(m, t, a, c)
  {
    var w := m.Swap();
    CleanIsQuiet(m, t, m.NodeOf(a));
    forall b: nat ensures InPoolOf(w, a, b) <==> InPoolOf(m, a, b) { SwapInPoolOf(m, a, b); }
    forall c ensures Holds(w, t, a, c) <==> Holds(m, t, a, c) {
      if Holds(m, t, a, c) { SwapHoldsOneWay(m, t, a, c); }
      if Holds(w, t, a, c) {
        SwapClean(m, t, m.NodeOf(a));
        SwapNodeOf(m, a);
        FlagsFollowGroup(w, t, w.NodeOf(a), Flip(m, m.NodeOf(a)));
        SwapHoldsOneWay(w, t, a, c);
      }
    }
  }

  lemma FlagsFollowGroup(m: Merge, t: Table, u: nat, v: nat)
    requires m.Valid() && |t| == m.n && u < m.NodeCount() && v < m.NodeCount() && m.SameGroup(u, v)
    ensures Clean(m, t, u) <==> Clean(m, t, v)
  {
    forall f ensures Flagged(m, t, f, u) <==> Flagged(m, t, f, v) {
      if x: nat :| EventIn(m, t, f, x, u) { assert EventIn(m, t, f, x, v); }
      if x: nat :| EventIn(m, t, f, x, v) { assert EventIn(m, t, f, x, u); }
    }
  }
}
