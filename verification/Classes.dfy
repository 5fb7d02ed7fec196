/** The passes of src/decide.c that build the settled result classes and the groups:
    `pass_names`, `pass_lumps`, `pass_labels`, `pass_classes` and `pass_groups`. */
module Classes {
  import opened Trees
  import opened UnionFind
  import opened MergeSpec
  import opened Context
  import opened Sorting

  /** The identity forest admits every labelling. */
  lemma IdentityMeaning(p: seq<nat>)
    requires forall i :: 0 <= i < |p| ==> p[i] == i
    ensures Forest(p) && forall L: Labelling :: |L| == |p| ==> Coarsens(L, p)
  {
  }

  method PassNames(c: Ctx)
    requires c.m.Valid() && c.Shaped()
    modifies c.state, c.parent
    ensures c.Named() && Forest(c.parent[..])
    ensures forall L: Labelling :: |L| == c.m.n ==> Coarsens(L, c.parent[..])
  {
    for x: nat := 0 to c.m.n
      invariant forall y :: 0 <= y < x ==> c.state[y] == StateOf(c.m, y) && c.parent[y] == y
    {
      var b, f, o := c.m.base.Has(x), c.m.from.Has(x), c.m.onto.Has(x);
      c.state[x] := NameState(b, f, o, (b && f && o) || (f && !b) || (o && !b), f && o && !b);
      c.parent[x] := x;
    }
    IdentityMeaning(c.parent[..]);
  }

  // ----- pass_lumps

  /** L keeps the settled names of a lump together. */
  ghost predicate KeepsLump(m: Merge, L: Labelling, s: Side, q: nat)
    requires m.Valid() && |L| == m.n && q < |m.T(s).pools|
  {
    m.Lump(s, q) ==>
      forall a: nat, b: nat :: a in m.T(s).pools[q].names && b in m.T(s).pools[q].names && m.Settled(a) && m.Settled(b) ==>
        a < m.n && b < m.n && L[a] == L[b]
  }

  /** L keeps every lump of side s among its first q pools. */
  ghost predicate KeepsLumps(m: Merge, L: Labelling, s: Side, q: nat)
    requires m.Valid() && |L| == m.n && q <= |m.T(s).pools|
  {
    forall r: nat :: r < q ==> KeepsLump(m, L, s, r)
  }

  /** What the scan of one pool has seen: its first settled name, up to two origins, an addition. */
  datatype Scan = Scan(first: Option<nat>, origins: nat, origin: int, hasNew: bool) {

    /** One more settled name, at index i. */
    function See(m: Merge, i: nat, x: nat): Scan {
      var s := if first.None? then this.(first := Some(i)) else this;
      if !m.InBase(x) then s.(hasNew := true)
      else if origins == 0 then s.(origin := m.Origin(x), origins := 1)
      else if m.Origin(x) != origin then s.(origins := 2)
      else s
    }

    predicate IsLump() { origins >= 2 || hasNew }
  }

  /** The scan's state is right about the first i names; j and k are where it saw why. */
  ghost predicate Scanned(m: Merge, names: seq<nat>, i: nat, s: Scan, j: int, k: int)
    requires i <= |names|
  {
    && s.origins <= 2
    && (s.first.None? ==> forall l :: 0 <= l < i ==> !m.Settled(names[l]))
    && (s.first.Some? ==> s.first.value < i && m.Settled(names[s.first.value]) &&
                          forall l :: 0 <= l < s.first.value ==> !m.Settled(names[l]))
    && (!s.hasNew ==> forall l :: 0 <= l < i && m.Settled(names[l]) ==> m.InBase(names[l]))
    && (s.origins == 0 ==> forall l :: 0 <= l < i && m.Settled(names[l]) ==> !m.InBase(names[l]))
    && (s.origins == 1 ==> forall l :: 0 <= l < i && m.Settled(names[l]) && m.InBase(names[l]) ==>
                             m.Origin(names[l]) == s.origin)
    && (0 < s.origins ==> 0 <= j < i && m.Settled(names[j]) && m.InBase(names[j]) && m.Origin(names[j]) == s.origin)
    && (s.hasNew && s.origins < 2 ==> 0 <= k < i && m.Settled(names[k]) && !m.InBase(names[k]))
    && (s.origins == 2 ==> 0 <= k < i && m.Settled(names[k]) && m.InBase(names[k]) && m.Origin(names[k]) != s.origin)
  }

  lemma NothingScanned(m: Merge, names: seq<nat>)
    ensures Scanned(m, names, 0, Scan(None, 0, -1, false), -1, -1)
  {
  }

  lemma ScanSees(m: Merge, names: seq<nat>, i: nat, s: Scan, j: int, k: int) returns (j': int, k': int)
    requires i < |names| && Scanned(m, names, i, s, j, k)
    ensures Scanned(m, names, i + 1, if m.Settled(names[i]) then s.See(m, i, names[i]) else s, j', k')
  {
    j', k' := j, k;
    var x := names[i];
    if m.Settled(x) {
      if !m.InBase(x) {
        if s.origins < 2 { k' := i; }
      } else if s.origins == 0 {
        j' := i;
      } else if m.Origin(x) != s.origin && s.origins == 1 {
        k' := i;
      }
    }
  }

  lemma ScannedIsLump(m: Merge, s: Side, q: nat, scan: Scan, j: int, k: int)
    requires m.Valid() && q < |m.T(s).pools|
    requires var names := m.T(s).pools[q].names; Scanned(m, names, |names|, scan, j, k)
    ensures m.Lump(s, q) <==> scan.IsLump()
    ensures var names := m.T(s).pools[q].names;
      && (scan.first.Some? ==> scan.first.value < |names| && m.Settled(names[scan.first.value]) &&
                               forall l :: 0 <= l < scan.first.value ==> !m.Settled(names[l]))
      && (scan.first.None? ==> forall l :: 0 <= l < |names| ==> !m.Settled(names[l]))
  {
    var names := m.T(s).pools[q].names;
    if scan.IsLump() {
      assert names[k] in names;
      if scan.origins == 2 { assert names[j] in names; }
    }
  }

  /** The scan of one side pool: its first settled name, and whether it stays one node. */
  method ScanPool(c: Ctx, s: Side, q: nat) returns (first: Option<nat>, lump: bool)
    requires c.Named() && q < |c.m.T(s).pools|
    ensures lump <==> c.m.Lump(s, q)
    ensures var names := c.m.T(s).pools[q].names;
      && (first.Some? ==> first.value < |names| && c.m.Settled(names[first.value]) &&
                          forall j :: 0 <= j < first.value ==> !c.m.Settled(names[j]))
      && (first.None? ==> forall j :: 0 <= j < |names| ==> !c.m.Settled(names[j]))
  {
    hide Merge.Valid, Merge.Lump, Scanned;
    var names := c.m.T(s).pools[q].names;
    PoolNames(c.m, s, q);
    var scan := Scan(None, 0, -1, false);
    ghost var j: int, k: int := -1, -1;
    NothingScanned(c.m, names);
    for i: nat := 0 to |names|
      invariant Scanned(c.m, names, i, scan, j, k)
    {
      j, k := ScanSees(c.m, names, i, scan, j, k);
      assert names[i] in names;
      if c.Settled(names[i]) { scan := scan.See(c.m, i, names[i]); }
    }
    ScannedIsLump(c.m, s, q, scan, j, k);
    return scan.first, scan.IsLump();
  }

  /** One side pool of `pass_lumps`. */
  method LumpPool(c: Ctx, s: Side, q: nat)
    requires c.Named() && Forest(c.parent[..]) && q < |c.m.T(s).pools|
    modifies c.parent
    ensures Forest(c.parent[..])
    ensures forall L: Labelling :: |L| == c.m.n ==>
      (Coarsens(L, c.parent[..]) <==> Coarsens(L, old(c.parent[..])) && KeepsLump(c.m, L, s, q))
  {
    hide Merge.Valid, Forest, Coarsens;
    var names := c.m.T(s).pools[q].names;
    PoolNames(c.m, s, q);
    var first, lump := ScanPool(c, s, q);
    if !lump || first.None? { return; }
    ghost var before := c.parent[..];
    var lead := names[first.value];
    assert lead in names;
    for i: nat := first.value + 1 to |names|
      invariant Forest(c.parent[..])
      invariant forall L: Labelling :: |L| == c.m.n ==>
        (Coarsens(L, c.parent[..]) <==> Coarsens(L, before) && Starred(c.m, L, names, lead, i))
    {
      assert names[i] in names;
      if c.Settled(names[i]) { Union(c.parent, lead, names[i]); }
    }
    forall L: Labelling | |L| == c.m.n
      ensures Starred(c.m, L, names, lead, |names|) <==> KeepsLump(c.m, L, s, q)
    {
      StarKeepsLump(c.m, L, s, q, first.value);
    }
  }

  /** The settled names among the first i agree with the leading one. */
  ghost predicate Starred(m: Merge, L: Labelling, names: seq<nat>, lead: nat, i: nat)
    requires m.Valid() && |L| == m.n && lead < m.n && i <= |names|
    requires forall x :: x in names ==> x < m.n
  {
    forall j :: 0 <= j < i && m.Settled(names[j]) ==> L[lead] == L[names[j]]
  }

  lemma StarKeepsLump(m: Merge, L: Labelling, s: Side, q: nat, first: nat)
    requires m.Valid() && |L| == m.n && q < |m.T(s).pools| && m.Lump(s, q) && first < |m.T(s).pools[q].names|
    requires forall x :: x in m.T(s).pools[q].names ==> x < m.n
    requires m.T(s).pools[q].names[first] < m.n && m.Settled(m.T(s).pools[q].names[first])
    ensures var names := m.T(s).pools[q].names;
      Starred(m, L, names, names[first], |names|) <==> KeepsLump(m, L, s, q)
  {
    var names := m.T(s).pools[q].names;
    assert names[first] in names;
    if Starred(m, L, names, names[first], |names|) {
      forall a: nat, b: nat | a in names && b in names && m.Settled(a) && m.Settled(b) ensures L[a] == L[b] {}
    }
    if KeepsLump(m, L, s, q) {
      forall j | 0 <= j < |names| && m.Settled(names[j]) ensures L[names[first]] == L[names[j]] {
        assert names[j] in names;
      }
    }
  }

  method PassLumps(c: Ctx)
    requires c.Named() && Forest(c.parent[..])
    modifies c.parent
    ensures Forest(c.parent[..])
    ensures forall L: Labelling :: |L| == c.m.n ==>
      (Coarsens(L, c.parent[..]) <==> Coarsens(L, old(c.parent[..])) && forall s :: KeepsLumps(c.m, L, s, |c.m.T(s).pools|))
  {
    LumpSide(c, From);
    LumpSide(c, Onto);
    forall L: Labelling | |L| == c.m.n
      ensures (forall s :: KeepsLumps(c.m, L, s, |c.m.T(s).pools|)) <==>
              KeepsLumps(c.m, L, From, |c.m.from.pools|) && KeepsLumps(c.m, L, Onto, |c.m.onto.pools|)
    {
      assert c.m.T(From) == c.m.from && c.m.T(Onto) == c.m.onto;
    }
  }

  method LumpSide(c: Ctx, s: Side)
    requires c.Named() && Forest(c.parent[..])
    modifies c.parent
    ensures Forest(c.parent[..])
    ensures forall L: Labelling :: |L| == c.m.n ==>
      (Coarsens(L, c.parent[..]) <==> Coarsens(L, old(c.parent[..])) && KeepsLumps(c.m, L, s, |c.m.T(s).pools|))
  {
    hide Merge.Valid, Forest, Coarsens, KeepsLump;
    for q: nat := 0 to |c.m.T(s).pools|
      invariant Forest(c.parent[..])
      invariant forall L: Labelling :: |L| == c.m.n ==>
        (Coarsens(L, c.parent[..]) <==> Coarsens(L, old(c.parent[..])) && KeepsLumps(c.m, L, s, q))
    {
      LumpPool(c, s, q);
      assert forall L: Labelling :: |L| == c.m.n ==>
        (KeepsLumps(c.m, L, s, q + 1) <==> KeepsLumps(c.m, L, s, q) && KeepsLump(c.m, L, s, q));
    }
  }

  // ----- pass_labels

  datatype Label = Label(f: nat, o: nat, x: nat)

  predicate LabelLe(a: Label, b: Label) {
    a.f < b.f || (a.f == b.f && (a.o < b.o || (a.o == b.o && a.x <= b.x)))
  }

  predicate SameLabel(a: Label, b: Label) { a.f == b.f && a.o == b.o }

  /** The entries are those of the names below k that both sides hold. */
  ghost predicate LabelsOf(m: Merge, ents: seq<Label>, k: nat)
    requires m.Valid() && k <= m.n
  {
    && (forall e :: e in ents ==> e.x < k && m.Settled(e.x) && m.On(From, e.x) && m.On(Onto, e.x) &&
                                  e == Label(m.At(From, e.x), m.At(Onto, e.x), e.x))
    && (forall x: nat :: x < k && m.Settled(x) && m.On(From, x) && m.On(Onto, x) ==>
                         Label(m.At(From, x), m.At(Onto, x), x) in ents)
  }

  ghost predicate KeepsLabels(m: Merge, L: Labelling)
    requires m.Valid() && |L| == m.n
  {
    forall a: nat, b: nat :: m.LabelPair(a, b) ==> L[a] == L[b]
  }

  /** Neighbours with one label agree, among the first i entries. */
  ghost predicate Chained(L: Labelling, ents: seq<Label>, i: nat)
    requires forall e :: e in ents ==> e.x < |L|
  {
    forall j :: 1 <= j < i && j < |ents| && SameLabel(ents[j - 1], ents[j]) ==> L[ents[j - 1].x] == L[ents[j].x]
  }

  lemma {:induction false} ChainReaches(L: Labelling, ents: seq<Label>, j: nat, k: nat)
    requires forall e :: e in ents ==> e.x < |L|
    requires SortedBy(LabelLe, ents) && Chained(L, ents, |ents|) && j <= k < |ents| && SameLabel(ents[j], ents[k])
    ensures L[ents[j].x] == L[ents[k].x]
    decreases k - j
  {
    if j < k {
      assert LabelLe(ents[j], ents[k - 1]) by { if j < k - 1 {} }
      assert LabelLe(ents[k - 1], ents[k]);
      ChainReaches(L, ents, j, k - 1);
    }
  }

  lemma ChainKeepsLabels(m: Merge, L: Labelling, ents: seq<Label>)
    requires m.Valid() && |L| == m.n && LabelsOf(m, ents, m.n) && SortedBy(LabelLe, ents)
    ensures Chained(L, ents, |ents|) <==> KeepsLabels(m, L)
  {
    if Chained(L, ents, |ents|) {
      forall a: nat, b: nat | m.LabelPair(a, b) ensures L[a] == L[b] {
        var ea, eb := Label(m.At(From, a), m.At(Onto, a), a), Label(m.At(From, b), m.At(Onto, b), b);
        assert ea in ents && eb in ents;
        var j, k :| 0 <= j < |ents| && 0 <= k < |ents| && ents[j] == ea && ents[k] == eb;
        if j <= k { ChainReaches(L, ents, j, k); } else { ChainReaches(L, ents, k, j); }
      }
    }
    if KeepsLabels(m, L) {
      forall j | 1 <= j < |ents| && SameLabel(ents[j - 1], ents[j])
        ensures L[ents[j - 1].x] == L[ents[j].x]
      {
        assert ents[j - 1] in ents && ents[j] in ents;
        assert m.LabelPair(ents[j - 1].x, ents[j].x);
      }
    }
  }

  method CollectLabels(c: Ctx) returns (ents: seq<Label>)
    requires c.Named()
    ensures LabelsOf(c.m, ents, c.m.n)
  {
    hide Merge.Valid;
    ents := [];
    for x: nat := 0 to c.m.n
      invariant LabelsOf(c.m, ents, x)
    {
      if c.Settled(x) && c.state[x].from && c.state[x].onto {
        ents := ents + [Label(c.m.At(From, x), c.m.At(Onto, x), x)];
      }
    }
  }

  lemma SortedLabels(m: Merge, unsorted: seq<Label>, ents: seq<Label>)
    requires m.Valid() && LabelsOf(m, unsorted, m.n) && forall e :: e in ents <==> e in unsorted
    ensures LabelsOf(m, ents, m.n) && forall e :: e in ents ==> e.x < m.n
  {
  }

  method PassLabels(c: Ctx)
    requires c.Named() && Forest(c.parent[..])
    modifies c.parent
    ensures Forest(c.parent[..])
    ensures forall L: Labelling :: |L| == c.m.n ==>
      (Coarsens(L, c.parent[..]) <==> Coarsens(L, old(c.parent[..])) && KeepsLabels(c.m, L))
  {
    hide Merge.Valid, Forest, Coarsens, LabelsOf;
    var unsorted := CollectLabels(c);
    var ents := Sort(LabelLe, unsorted);
    SortedLabels(c.m, unsorted, ents);
    var i: nat := 1;
    while i < |ents|
      invariant 1 <= i && Forest(c.parent[..])
      invariant forall L: Labelling :: |L| == c.m.n ==>
        (Coarsens(L, c.parent[..]) <==> Coarsens(L, old(c.parent[..])) && Chained(L, ents, i))
    {
      assert ents[i - 1] in ents && ents[i] in ents;
      if SameLabel(ents[i], ents[i - 1]) { Union(c.parent, ents[i - 1].x, ents[i].x); }
      i := i + 1;
    }
    forall L: Labelling | |L| == c.m.n ensures Chained(L, ents, |ents|) <==> KeepsLabels(c.m, L) {
      ChainKeepsLabels(c.m, L, ents);
    }
  }

  // ----- pass_classes

  /** Lumps and labels together are what a class must respect. */
  lemma RespectingIsKeeping(m: Merge, L: Labelling)
    requires m.Valid() && |L| == m.n
    ensures m.ClassRespecting(L) <==> KeepsLabels(m, L) && forall s :: KeepsLumps(m, L, s, |m.T(s).pools|)
  {
    if m.ClassRespecting(L) {
      forall s, q: nat | q < |m.T(s).pools| ensures KeepsLump(m, L, s, q) {
        assert m.T(s).PoolValid(q);
        if m.Lump(s, q) {
          forall a: nat, b: nat | a in m.T(s).pools[q].names && b in m.T(s).pools[q].names && m.Settled(a) && m.Settled(b)
            ensures a < m.n && b < m.n && L[a] == L[b]
          {
            assert m.LumpPair(s, a, b);
          }
        }
      }
    }
    if KeepsLabels(m, L) && forall s :: KeepsLumps(m, L, s, |m.T(s).pools|) {
      forall s: Side, a: nat, b: nat | m.LumpPair(s, a, b) ensures L[a] == L[b] {
        assert KeepsLumps(m, L, s, |m.T(s).pools|);
        assert KeepsLump(m, L, s, m.At(s, a));
      }
    }
  }

  /** The union-find holds the settled classes. */
  ghost predicate HoldsClasses(m: Merge, p: seq<nat>)
    requires m.Valid()
  {
    |p| == m.n && Forest(p) && forall L: Labelling :: |L| == m.n ==> (Coarsens(L, p) <==> m.ClassRespecting(L))
  }

  lemma ClassesAreTrees(m: Merge, p: seq<nat>, a: nat, b: nat)
    requires m.Valid() && HoldsClasses(m, p) && a < m.n && b < m.n
    ensures Joined(p, a, b) <==> m.SameClass(a, b)
  {
    JoinedIffInseparable(p, a, b);
  }

  /** Numbers given out to the trees of p: one per tree, kept at its root. */
  ghost predicate Numbered(p: seq<nat>, klass: seq<int>, count: int)
    requires Forest(p) && |klass| == |p|
  {
    && 0 <= count
    && (forall i :: 0 <= i < |p| ==> -1 <= klass[i] < count)
    && (forall i :: 0 <= i < |p| && klass[i] != -1 ==> klass[Root(p, i)] == klass[i])
    && (forall i, j :: 0 <= i < |p| && 0 <= j < |p| && klass[i] != -1 && klass[i] == klass[j] ==> Root(p, i) == Root(p, j))
  }

  /** Giving x the number of its tree, a new one when it has none yet. */
  method Number(parent: array<nat>, klass: array<int>, x: nat, count: int) returns (next: int)
    requires Forest(parent[..]) && klass.Length == parent.Length && x < parent.Length
    requires Numbered(parent[..], klass[..], count)
    modifies parent, klass
    ensures Forest(parent[..])
    ensures forall i :: 0 <= i < parent.Length ==> Root(parent[..], i) == Root(old(parent[..]), i)
    ensures forall L :: Coarsens(L, parent[..]) <==> Coarsens(L, old(parent[..]))
    ensures Numbered(parent[..], klass[..], next)
    ensures klass[x] != -1 && (next == count || (next == count + 1 && klass[x] == count))
    ensures forall i :: 0 <= i < klass.Length && old(klass[i]) != -1 ==> klass[i] == old(klass[i])
  {
    hide Coarsens;
    var root := Find(parent, x);
    next := count;
    assert Root(parent[..], root) == root;
    if klass[root] == -1 {
      klass[root] := next;
      next := next + 1;
    }
    klass[x] := klass[root];
  }

  /** `pass_classes` has run. */
  ghost predicate Classed(m: Merge, klass: seq<int>, nclass: int)
    requires m.Valid()
  {
    && |klass| == m.n
    && (forall x: nat :: x < m.n && m.Settled(x) ==> 0 <= klass[x] < nclass)
    && (forall a: nat, b: nat :: a < m.n && b < m.n && m.Settled(a) && m.Settled(b) ==>
          (klass[a] == klass[b] <==> m.SameClass(a, b)))
  }

  method PassClasses(c: Ctx) returns (nclass: int)
    requires c.Named() && HoldsClasses(c.m, c.parent[..])
    modifies c.parent, c.klass
    ensures HoldsClasses(c.m, c.parent[..]) && Classed(c.m, c.klass[..], nclass) && 0 <= nclass
  {
    hide Merge.Valid, Merge.ClassRespecting, Merge.SameClass, Forest, Coarsens;
    nclass := 0;
    for x: nat := 0 to c.m.n
      invariant forall y :: 0 <= y < x ==> c.klass[y] == -1
      invariant HoldsClasses(c.m, c.parent[..])
    {
      c.klass[x] := -1;
    }
    for x: nat := 0 to c.m.n
      invariant HoldsClasses(c.m, c.parent[..]) && Numbered(c.parent[..], c.klass[..], nclass)
      invariant forall y: nat :: y < x && c.m.Settled(y) ==> c.klass[y] != -1
    {
      if c.Settled(x) { nclass := Number(c.parent, c.klass, x, nclass); }
    }
    forall a: nat, b: nat | a < c.m.n && b < c.m.n && c.m.Settled(a) && c.m.Settled(b)
      ensures c.klass[a] == c.klass[b] <==> c.m.SameClass(a, b)
    {
      ClassesAreTrees(c.m, c.parent[..], a, b);
    }
  }

  // ----- pass_groups

  /** G gives the two side pools of every name below k one label. */
  ghost predicate KeepsNames(m: Merge, G: Labelling, k: nat)
    requires m.Valid() && |G| == m.NodeCount()
  {
    forall x: nat :: x < k && m.Survives(x) && m.On(From, x) && m.On(Onto, x) ==>
      G[m.Node(From, m.At(From, x))] == G[m.Node(Onto, m.At(Onto, x))]
  }

  /** The union-find over side pools holds the groups. */
  ghost predicate HoldsGroups(m: Merge, p: seq<nat>)
    requires m.Valid()
  {
    && |p| == m.NodeCount() && Forest(p)
    && forall G: Labelling :: |G| == m.NodeCount() ==> (Coarsens(G, p) <==> m.GroupRespecting(G))
  }

  method ConnectPools(c: Ctx)
    requires c.Named()
    modifies c.pnode
    ensures HoldsGroups(c.m, c.pnode[..])
  {
    var m := c.m;
    for u: nat := 0 to m.NodeCount()
      invariant forall v :: 0 <= v < u ==> c.pnode[v] == v
    {
      c.pnode[u] := u;
    }
    IdentityMeaning(c.pnode[..]);
    for x: nat := 0 to m.n
      invariant Forest(c.pnode[..])
      invariant forall G: Labelling :: |G| == m.NodeCount() ==> (Coarsens(G, c.pnode[..]) <==> KeepsNames(m, G, x))
    {
      if c.state[x].survives && c.state[x].from && c.state[x].onto {
        Union(c.pnode, m.Node(From, m.At(From, x)), m.Node(Onto, m.At(Onto, x)));
      }
    }
    assert forall G: Labelling :: |G| == m.NodeCount() ==> (KeepsNames(m, G, m.n) <==> m.GroupRespecting(G));
  }

  /** One index per tree, kept at the roots alone. */
  ghost predicate Indexed(p: seq<nat>, gindex: seq<int>, count: int)
    requires Forest(p) && |gindex| == |p|
  {
    && 0 <= count
    && (forall i :: 0 <= i < |p| ==> -1 <= gindex[i] < count)
    && (forall i, j :: 0 <= i < |p| && 0 <= j < |p| && gindex[i] != -1 && gindex[i] == gindex[j] ==> i == j)
  }

  method IndexGroups(c: Ctx) returns (ngroups: int)
    requires c.Named() && HoldsGroups(c.m, c.pnode[..])
    modifies c.pnode, c.gindex
    ensures HoldsGroups(c.m, c.pnode[..]) && Indexed(c.pnode[..], c.gindex[..], ngroups)
    ensures forall v: nat :: v < c.m.NodeCount() ==> c.gindex[Root(c.pnode[..], v)] != -1
  {
    hide Merge.Valid, Merge.GroupRespecting, Forest, Coarsens;
    for u: nat := 0 to c.m.NodeCount()
      invariant forall v :: 0 <= v < u ==> c.gindex[v] == -1
      invariant HoldsGroups(c.m, c.pnode[..])
    {
      c.gindex[u] := -1;
    }
    ngroups := 0;
    for u: nat := 0 to c.m.NodeCount()
      invariant HoldsGroups(c.m, c.pnode[..]) && Indexed(c.pnode[..], c.gindex[..], ngroups)
      invariant forall v: nat :: v < u ==> c.gindex[Root(c.pnode[..], v)] != -1
    {
      var r := Find(c.pnode, u);
      assert Root(c.pnode[..], u) == r;
      if c.gindex[r] == -1 {
        c.gindex[r] := ngroups;
        ngroups := ngroups + 1;
      }
    }
  }

  /** One index per connected component. */
  lemma IndexIsGroup(m: Merge, p: seq<nat>, gindex: seq<int>, count: int, u: nat, v: nat)
    requires m.Valid() && HoldsGroups(m, p) && |gindex| == |p| && Indexed(p, gindex, count)
    requires u < |p| && v < |p| && gindex[Root(p, u)] != -1
    ensures gindex[Root(p, u)] == gindex[Root(p, v)] <==> m.SameGroup(u, v)
  {
    JoinedIffInseparable(p, u, v);
  }

  ghost function GroupIndices(p: seq<nat>, gindex: seq<int>): (r: seq<int>)
    requires Forest(p) && |gindex| == |p|
    ensures |r| == |p| && forall u: nat :: u < |p| ==> r[u] == gindex[Root(p, u)]
  {
    seq(|p|, u requires 0 <= u < |p| => gindex[Root(p, u)])
  }

  method PassGroups(c: Ctx)
    requires c.Named()
    modifies c.pnode, c.gindex, c`flags, c`groupOf, c`raised
    ensures c.FlagsKept() && c.raised == {}
  {
    hide Merge.Valid, Merge.GroupRespecting, Merge.SameGroup, Forest, Coarsens;
    ConnectPools(c);
    var ngroups := IndexGroups(c);
    c.flags := seq(ngroups, _ => {});
    c.groupOf := GroupIndices(c.pnode[..], c.gindex[..]);
    c.raised := {};
    forall u: nat, v: nat | u < c.m.NodeCount() && v < c.m.NodeCount()
      ensures c.groupOf[u] == c.groupOf[v] <==> c.m.SameGroup(u, v)
    {
      IndexIsGroup(c.m, c.pnode[..], c.gindex[..], ngroups, u, v);
    }
  }
}
