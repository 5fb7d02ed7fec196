/** The identity laws of the merge: a side that did not change contributes nothing, and two sides
    that made the same changes make them once.  They hold in strict and in permissive mode. */
module Identity {
  import opened Trees
  import opened UnionFind
  import opened MergeSpec
  import opened ContentSpec
  import opened Grouping
  import opened SideNeutral

  /** The decision is conflict-free and rebuilds the tree g: its names, its pools, its contents. */
  ghost predicate Yields(m: Merge, t: Table, g: Tree)
    requires m.Valid() && |t| == m.n && g.Valid(m.n)
  {
    && (forall f, x: nat :: !Event(m, t, f, x))
    && (forall x :: m.Survives(x) <==> g.Has(x))
    && (forall a, b :: g.Has(a) && g.Has(b) ==> (m.SameResult(a, b) <==> g.poolOf[a] == g.poolOf[b]))
    && (forall a, c :: g.Has(a) ==> (Holds(m, t, a, c) <==> c == g.ContentAt(a)))
  }

  /** The labelling of the names by their pool in g. */
  ghost function PoolLabels(n: nat, g: Tree): (L: Labelling)
    requires g.Valid(n)
    ensures |L| == n && forall x: nat :: g.Has(x) ==> L[x] == g.poolOf[x]
    ensures forall x :: 0 <= x < n && !g.Has(x) ==> L[x] == -1
  {
    seq(n, (x: nat) requires x < n => if g.Has(x) then g.poolOf[x] as int else -1)
  }

  /** Names of one pool of g are never told apart; names of different pools always can be. */
  ghost predicate Matches(m: Merge, g: Tree)
    requires m.Valid() && g.Valid(m.n)
  {
    && m.ResultRespecting(PoolLabels(m.n, g))
    && (forall x :: m.Survives(x) <==> g.Has(x))
    && (forall a, b :: g.Has(a) && g.Has(b) && g.poolOf[a] == g.poolOf[b] ==> m.SameResult(a, b))
  }

  lemma MatchesPools(m: Merge, g: Tree, a: nat, b: nat)
    requires m.Valid() && g.Valid(m.n) && Matches(m, g) && g.Has(a) && g.Has(b)
    ensures m.SameResult(a, b) <==> g.poolOf[a] == g.poolOf[b]
    ensures m.SameClass(a, b) ==> g.poolOf[a] == g.poolOf[b]
  {
    var L := PoolLabels(m.n, g);
    assert m.ResultRespecting(L) && m.ClassRespecting(L);
  }

  /** Every surviving base name's content is decided, and is g's. */
  ghost predicate Speaking(m: Merge, t: Table, g: Tree)
    requires m.Valid() && |t| == m.n && g.Valid(m.n)
  {
    forall x: nat :: m.InBase(x) ==> t[x] == if g.Has(x) then Is(g.ContentAt(x)) else Gone
  }

  /** A reference whose kept names all kept their content resolves to that content. */
  lemma {:induction false} FollowKept(m: Merge, names: seq<nat>, c: Content, t: Table, seen: Cell)
    requires m.Valid() && |t| == m.n && (seen == Pending || seen == Is(c))
    requires forall y :: y in names && Kept(m, y, c) && m.Survives(y) ==> t[y] == Is(c)
    ensures Follow(m, names, c, t, seen) == Is(c)
  {
    if names != [] {
      FollowKept(m, names[1..], c, t, seen);
      FollowKept(m, names[1..], c, t, Is(c));
    }
  }

  lemma YieldsFrom(m: Merge, t: Table, g: Tree, s: Side)
    requires m.Valid() && |t| == m.n && g.Valid(m.n) && Matches(m, g) && Speaking(m, t, g)
    requires forall f, x: nat :: f != Disagree ==> !Event(m, t, f, x)
    requires forall z: nat :: m.Survives(z) && !m.InBase(z) ==>
      m.On(s, z) && m.T(s).ContentAt(z) == g.ContentAt(z)
    requires forall r: Side, z: nat :: m.Survives(z) && !m.InBase(z) && m.On(r, z) ==>
      m.T(r).ContentAt(z) == g.ContentAt(z)
    ensures Yields(m, t, g)
  {
    forall a, y: nat | g.Has(a) && InPoolOf(m, a, y) ensures g.ContentAt(y) == g.ContentAt(a) {
      MatchesPools(m, g, a, y);
    }
    forall a | g.Has(a) ensures !DisagreeAt(m, t, a) {}
    forall a, c | g.Has(a) ensures Holds(m, t, a, c) <==> c == g.ContentAt(a) {
      assert InPoolOf(m, a, a);
      HoldsOwn(m, t, g, s, a);
    }
    forall a, b | g.Has(a) && g.Has(b) ensures m.SameResult(a, b) <==> g.poolOf[a] == g.poolOf[b] {
      MatchesPools(m, g, a, b);
    }
  }

  lemma HoldsOwn(m: Merge, t: Table, g: Tree, s: Side, a: nat)
    requires m.Valid() && |t| == m.n && g.Valid(m.n) && Matches(m, g) && Speaking(m, t, g) && g.Has(a)
    requires forall y: nat :: InPoolOf(m, a, y) ==> g.ContentAt(y) == g.ContentAt(a)
    requires forall z: nat :: m.Survives(z) && !m.InBase(z) ==>
      m.On(s, z) && m.T(s).ContentAt(z) == g.ContentAt(z)
    requires forall r: Side, z: nat :: m.Survives(z) && !m.InBase(z) && m.On(r, z) ==>
      m.T(r).ContentAt(z) == g.ContentAt(z)
    ensures forall c :: Holds(m, t, a, c) <==> c == g.ContentAt(a)
  {
    assert InPoolOf(m, a, a);
    if y: nat :| Speaks(m, t, a, y) {
      assert t[y] == Is(g.ContentAt(a));
    } else {
      assert !m.InBase(a) by { assert !Speaks(m, t, a, a); }
      var z := LastOf(m, s, a);
      assert LastAdded(m, s, a, z);
    }
  }

  /** A result pool with a name added on side s has a last such name. */
  lemma LastOf(m: Merge, s: Side, a: nat) returns (z: nat)
    requires m.Valid() && a < m.n && m.Survives(a) && !m.InBase(a) && m.On(s, a)
    ensures LastAdded(m, s, a, z)
  {
    z := a;
    assert InPoolOf(m, a, a);
    var i := a;
    while i < m.n
      invariant a <= i <= m.n && InPoolOf(m, a, z) && !m.InBase(z) && m.On(s, z)
      invariant forall w: nat :: w < i && InPoolOf(m, a, w) && !m.InBase(w) && m.On(s, w) ==> w <= z
    {
      if InPoolOf(m, a, i) && !m.InBase(i) && m.On(s, i) { z := i; }
      i := i + 1;
    }
  }

  // ----- from did not change

  lemma UnchangedMatches(m: Merge)
    requires m.Valid() && m.from == m.base
    ensures Matches(m, m.onto)
  {
    var L := PoolLabels(m.n, m.onto);
    forall s: Side, a: nat, b: nat | m.LumpPair(s, a, b) ensures L[a] == L[b] {
      assert m.T(s).PoolValid(m.At(s, a));
    }
    assert m.ClassRespecting(L);
    forall a: nat, b: nat | m.onto.Has(a) && m.onto.Has(b) && m.At(Onto, a) == m.At(Onto, b)
      ensures m.SameClass(a, b)
    {
      var names := m.onto.pools[m.At(Onto, a)].names;
      assert a in names && b in names;
      if m.Lump(Onto, m.At(Onto, a)) {
        assert m.LumpPair(Onto, a, b);
      } else {
        assert m.LabelPair(a, b);
      }
    }
  }

  lemma UnchangedSpeaks(m: Merge, t: Table, x: nat)
    requires m.Valid() && m.from == m.base && FixedPoint(m, t) && m.InBase(x)
    ensures t[x] == if m.onto.Has(x) then Is(m.onto.ContentAt(x)) else Gone
  {
    var o := SideValue(m, Onto, x);
    assert SideValue(m, From, x) == Same;
    assert t[x] == Resolve(m, Merged(m, x), t);
    if o.Ref? {
      var names := m.onto.pools[o.pool].names;
      assert m.onto.PoolValid(o.pool);
      forall y | y in names && Kept(m, y, o.kept) && m.Survives(y) ensures t[y] == Is(o.kept) {
        assert SideValue(m, From, y) == Same && SideValue(m, Onto, y) == Same;
        assert t[y] == Asked(m, t, y) == Resolve(m, Lit(o.kept), t);
      }
      FollowKept(m, names, o.kept, t, Pending);
    }
  }

  lemma UnchangedQuiet(m: Merge, t: Table, f: Class, x: nat)
    requires m.Valid() && m.from == m.base && |t| == m.n && f != Disagree
    requires Matches(m, m.onto) && Speaking(m, t, m.onto)
    ensures !Event(m, t, f, x)
  {
    if f == OrphanedAdd && m.On(Onto, x) { assert m.onto.PoolValid(m.At(Onto, x)); }
    if f == Unexpressed && m.UnexpressedAt(x) {
      var b :| m.UnexpressedPair(x, b);
      MatchesPools(m, m.onto, x, b);
      assert m.CoveredBy(Onto, x, b, m.Origin(x), m.Origin(b));
    }
  }

  /** Deciding (base, base, onto) gives onto: its names, its pools and its contents. */
  lemma OntoAlone(m: Merge, t: Table)
    requires m.Valid() && m.from == m.base && Adopted(m, t)
    ensures Yields(m, t, m.onto)
  {
    UnchangedMatches(m);
    forall x: nat | m.InBase(x) ensures t[x] == if m.onto.Has(x) then Is(m.onto.ContentAt(x)) else Gone {
      UnchangedSpeaks(m, t, x);
    }
    forall f, x: nat | f != Disagree ensures !Event(m, t, f, x) { UnchangedQuiet(m, t, f, x); }
    YieldsFrom(m, t, m.onto, Onto);
  }

  /** Deciding (base, from, base) gives from. */
  lemma FromAlone(m: Merge, t: Table)
    requires m.Valid() && m.onto == m.base && Adopted(m, t)
    ensures Yields(m, t, m.from)
  {
    var w := m.Swap();
    SwapAdopted(m, t);
    OntoAlone(w, t);
    assert w.onto == m.from;
    forall u: nat | u < m.NodeCount() ensures Clean(m, t, u) {
      SwapClean(m, t, u);
      forall f ensures !Flagged(w, t, f, Flip(m, u)) {}
    }
    forall f, x: nat ensures !Event(m, t, f, x) {
      if Event(m, t, f, x) {
        if m.On(From, x) || m.On(Onto, x) { EventFlags(m, t, f, x); } else { EventOnSide(m, t, f, x); }
      }
    }
    forall a: nat | m.from.Has(a)
      ensures (forall b: nat :: InPoolOf(w, a, b) <==> InPoolOf(m, a, b))
      ensures (forall c :: Holds(w, t, a, c) <==> Holds(m, t, a, c))
    {
      SwapResult(m, t, a);
    }
    forall a: nat, b: nat | m.from.Has(a) && m.from.Has(b)
      ensures m.SameResult(a, b) <==> m.from.poolOf[a] == m.from.poolOf[b]
    {
      assert InPoolOf(w, a, b) <==> InPoolOf(m, a, b);
    }
  }

  /** Every conflict is about a name some side holds. */
  lemma EventOnSide(m: Merge, t: Table, f: Class, x: nat)
    requires m.Valid() && FixedPoint(m, t) && Event(m, t, f, x)
    ensures m.On(From, x) || m.On(Onto, x)
  {
    assert t[x] == Asked(m, t, x);
  }

  // ----- both sides made the same changes

  lemma TwinsMatch(m: Merge)
    requires m.Valid() && m.from == m.onto
    ensures Matches(m, m.onto)
  {
    var L := PoolLabels(m.n, m.onto);
    assert m.ClassRespecting(L);
    forall x: nat, y: nat | m.PlacedWith(x, y) ensures y < m.n && L[x] == L[y] {
      PlacedWithMate(m, x, y);
    }
    forall a: nat, b: nat | m.onto.Has(a) && m.onto.Has(b) && m.At(Onto, a) == m.At(Onto, b)
      ensures m.SameResult(a, b)
    {
      TwinsJoin(m, a, b);
    }
  }

  lemma TwinsClass(m: Merge, a: nat, b: nat)
    requires m.Valid() && m.from == m.onto && m.onto.Has(a) && m.onto.Has(b)
    requires m.At(Onto, a) == m.At(Onto, b) && m.Settled(a) && m.Settled(b)
    ensures m.SameClass(a, b)
  {
    assert m.LabelPair(a, b);
  }

  /** All names of one pool follow one leader: its first settled name, or its first name. */
  ghost function Leader(m: Merge, q: nat): (l: nat)
    requires m.Valid() && q < |m.from.pools|
  {
    var here := m.SettledOf(From, q);
    assert m.from.PoolValid(q);
    if here != [] then here[0] else m.from.pools[q].names[0]
  }

  lemma JoinsLeader(m: Merge, x: nat)
    requires m.Valid() && m.from == m.onto && m.from.Has(x)
    ensures Leader(m, m.At(From, x)) < m.n && m.SameResult(x, Leader(m, m.At(From, x)))
  {
    var q := m.At(From, x);
    var here := m.SettledOf(From, q);
    assert m.from.PoolValid(q);
    assert here != [] ==> here[0] in here;
    forall y | y in here ensures m.SameClass(here[0], y) {
      TwinsClass(m, here[0], y);
    }
    if here != [] {
      assert here[0] in here;
      if m.Settled(x) { TwinsClass(m, x, here[0]); } else { assert m.PlacedWith(x, here[0]); }
    } else {
      var first := m.from.pools[q].names[0];
      assert first in m.from.pools[q].names;
      assert x !in here && first !in here;
      assert m.Contested(x) && m.Contested(first);
      if x != first { assert m.PlacedWith(x, first); }
    }
  }

  lemma TwinsJoin(m: Merge, a: nat, b: nat)
    requires m.Valid() && m.from == m.onto && m.onto.Has(a) && m.onto.Has(b)
    requires m.At(Onto, a) == m.At(Onto, b)
    ensures m.SameResult(a, b)
  {
    JoinsLeader(m, a);
    JoinsLeader(m, b);
  }

  lemma TwinsSpeak(m: Merge, t: Table, x: nat)
    requires m.Valid() && m.from == m.onto && FixedPoint(m, t) && m.InBase(x)
    ensures t[x] == if m.onto.Has(x) then Is(m.onto.ContentAt(x)) else Gone
  {
    var f, o := SideValue(m, From, x), SideValue(m, Onto, x);
    assert t[x] == Resolve(m, Merged(m, x), t);
    if o.Ref? {
      var names := m.onto.pools[o.pool].names;
      assert m.onto.PoolValid(o.pool);
      forall y | y in names && Kept(m, y, o.kept) && m.Survives(y) ensures t[y] == Is(o.kept) {
        assert SideValue(m, From, y) == Same && SideValue(m, Onto, y) == Same;
        assert t[y] == Asked(m, t, y) == Resolve(m, Lit(o.kept), t);
      }
      FollowKept(m, names, o.kept, t, Pending);
      assert Resolve(m, f, t) == Resolve(m, o, t) == Is(o.kept);
    }
  }

  lemma TwinsHome(m: Merge, x: nat)
    requires m.Valid() && m.from == m.onto && m.Contested(x)
    ensures !m.ContestedAt(x)
  {
    var q := m.At(From, x);
    var here := m.SettledOf(From, q);
    assert here == m.SettledOf(Onto, q);
    assert m.CoMembers(From, x) == m.CoMembers(Onto, x);
    assert here != [] ==> here[0] in here;
    forall y | y in here ensures m.SameClass(here[0], y) { TwinsClass(m, here[0], y); }
  }

  lemma TwinsQuiet(m: Merge, t: Table, f: Class, x: nat)
    requires m.Valid() && m.from == m.onto && |t| == m.n && f != Disagree
    requires Matches(m, m.onto) && Speaking(m, t, m.onto)
    ensures !Event(m, t, f, x)
  {
    if f == ContestedHome && m.Contested(x) { TwinsHome(m, x); }
    if f == Unexpressed && m.UnexpressedAt(x) {
      var b :| m.UnexpressedPair(x, b);
      MatchesPools(m, m.onto, x, b);
      assert m.CoveredBy(Onto, x, b, m.Origin(x), m.Origin(b));
    }
  }

  /** Deciding (base, x, x) gives x. */
  lemma Convergence(m: Merge, t: Table)
    requires m.Valid() && m.from == m.onto && Adopted(m, t)
    ensures Yields(m, t, m.onto)
  {
    TwinsMatch(m);
    forall x: nat | m.InBase(x) ensures t[x] == if m.onto.Has(x) then Is(m.onto.ContentAt(x)) else Gone {
      TwinsSpeak(m, t, x);
    }
    forall f, x: nat | f != Disagree ensures !Event(m, t, f, x) { TwinsQuiet(m, t, f, x); }
    YieldsFrom(m, t, m.onto, Onto);
  }
}
