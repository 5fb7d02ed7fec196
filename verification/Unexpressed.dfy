/** `pass_unexpressed` of src/decide.c: stamped pools, a hash set of unordered pairs and the class
    index together flag exactly the classes that hold two base pools no side pool holds both of. */
module Unexpressed {
  import opened MergeSpec
  import opened ContentSpec
  import opened Context
  import opened Classes
  import opened Grouping
  import opened HashSet
  import ClassIndex

  const WORD: nat := 0x1_0000_0000

  /** `pair_key`: both orders of a pair have one key. */
  function PairKey(a: nat, b: nat): nat {
    if b < a then b * 0x1_0000_0000 + a else a * 0x1_0000_0000 + b
  }

  /** The key of a pair of 32-bit pool indices tells the pair, up to order. */
  lemma PairKeyTells(a: nat, b: nat, p: nat, r: nat)
    requires a < WORD && b < WORD && p < WORD && r < WORD && PairKey(a, b) == PairKey(p, r)
    ensures (a == p && b == r) || (a == r && b == p)
  {
  }

  ghost predicate BaseSettled(m: Merge, x: nat) { m.Settled(x) && m.InBase(x) }

  // ----- the base pools of a list of names, each once

  /** bp are the base pools of the settled base names listed, each once, with a witness of each. */
  ghost predicate OriginsOf(m: Merge, names: seq<nat>, bp: seq<nat>, wit: seq<nat>)
    requires m.Valid()
  {
    && |bp| == |wit|
    && (forall i :: 0 <= i < |wit| ==> wit[i] in names && BaseSettled(m, wit[i]) && m.Origin(wit[i]) == bp[i])
    && (forall x :: x in names && BaseSettled(m, x) ==> m.Origin(x) in bp)
    && (forall i, j :: 0 <= i < j < |bp| ==> bp[i] != bp[j])
  }

  lemma BaseInRange(m: Merge)
    requires m.Valid()
    ensures forall x :: m.InBase(x) ==> m.Origin(x) < |m.base.pools|
  {
  }

  /** A pool is stamped when it is already in hand. */
  method Origins(c: Ctx, names: seq<nat>, seen: array<nat>, stamp: nat) returns (bp: seq<nat>, wit: seq<nat>)
    requires c.Named() && seen.Length == |c.m.base.pools|
    requires forall x :: x in names ==> x < c.m.n
    requires forall p :: 0 <= p < seen.Length ==> seen[p] < stamp
    requires seen as object != c.state
    modifies seen
    ensures OriginsOf(c.m, names, bp, wit)
    ensures forall p :: 0 <= p < seen.Length ==> seen[p] <= stamp
  {
    hide Merge.Valid;
    assert forall x :: x in names && c.m.InBase(x) ==> c.m.Origin(x) < seen.Length by { BaseInRange(c.m); }
    bp, wit := [], [];
    for i := 0 to |names|
      invariant OriginsOf(c.m, names[..i], bp, wit)
      invariant forall p :: 0 <= p < seen.Length ==> seen[p] <= stamp && (seen[p] == stamp <==> p in bp)
    {
      var x := names[i];
      assert x in names && names[..i + 1] == names[..i] + [x];
      if c.Settled(x) && c.state[x].base {
        var p := c.m.Origin(x);
        if seen[p] != stamp {
          seen[p] := stamp;
          bp, wit := bp + [p], wit + [x];
        }
      }
    }
    assert names[..|names|] == names;
  }

  // ----- the pairs some side pool covers

  /** Every key is that of a covered pair. */
  ghost predicate KeysSound(m: Merge, keys: set<nat>)
    requires m.Valid()
  {
    forall k :: k in keys ==> exists p: nat, r: nat :: CoveredKey(m, k, p, r)
  }

  ghost predicate CoveredKey(m: Merge, k: nat, p: nat, r: nat)
    requires m.Valid()
  {
    p < WORD && r < WORD && k == PairKey(p, r) && m.Covered(p, r)
  }

  /** Two settled base names of one side pool, of different base pools. */
  ghost predicate Joint(m: Merge, s: Side, a: nat, b: nat)
    requires m.Valid()
  {
    m.On(s, a) && m.On(s, b) && m.At(s, a) == m.At(s, b) && BaseSettled(m, a) && BaseSettled(m, b) && m.Origin(a) != m.Origin(b)
  }

  /** Every pair covered by the first q pools of side s has its key. */
  ghost predicate KeysComplete(m: Merge, keys: set<nat>, s: Side, q: nat)
    requires m.Valid()
  {
    forall a: nat, b: nat :: Joint(m, s, a, b) && m.At(s, a) < q ==> PairKey(m.Origin(a), m.Origin(b)) in keys
  }

  lemma CoveredSymmetric(m: Merge, p: nat, r: nat)
    requires m.Valid() && m.Covered(p, r)
    ensures m.Covered(r, p)
  {
    var s, a, b :| m.CoveredBy(s, a, b, p, r);
    assert m.CoveredBy(s, b, a, r, p);
  }

  lemma KeyMeansCovered(m: Merge, keys: set<nat>, p: nat, r: nat)
    requires m.Valid() && KeysSound(m, keys) && p < WORD && r < WORD && PairKey(p, r) in keys
    ensures m.Covered(p, r)
  {
    var u: nat, v: nat :| CoveredKey(m, PairKey(p, r), u, v);
    PairKeyTells(p, r, u, v);
    if p != u { CoveredSymmetric(m, u, v); }
  }

  lemma CoveredHasKey(m: Merge, keys: set<nat>, p: nat, r: nat)
    requires m.Valid() && p != r && m.Covered(p, r)
    requires KeysComplete(m, keys, From, |m.from.pools|) && KeysComplete(m, keys, Onto, |m.onto.pools|)
    ensures PairKey(p, r) in keys
  {
    var s, a, b :| m.CoveredBy(s, a, b, p, r);
    assert Joint(m, s, a, b) && m.At(s, a) < |m.T(s).pools|;
  }

  /** The keys of entry a with the entries after it, below b. */
  ghost function RowKeys(bp: seq<nat>, a: nat, b: nat): set<nat>
    requires a < |bp| && b <= |bp|
  {
    set j | a < j < b :: PairKey(bp[a], bp[j])
  }

  ghost function PairKeys(bp: seq<nat>, a: nat): set<nat>
    requires a <= |bp|
  {
    if a == 0 then {} else PairKeys(bp, a - 1) + RowKeys(bp, a - 1, |bp|)
  }

  lemma {:induction false} PairHasKey(bp: seq<nat>, i: nat, j: nat, a: nat)
    requires i < a <= |bp| && i < j < |bp|
    ensures PairKey(bp[i], bp[j]) in PairKeys(bp, a)
  {
    if i < a - 1 { PairHasKey(bp, i, j, a - 1); }
  }

  lemma {:induction false} KeyHasPair(bp: seq<nat>, a: nat, k: nat) returns (i: nat, j: nat)
    requires a <= |bp| && k in PairKeys(bp, a)
    ensures i < j < |bp| && k == PairKey(bp[i], bp[j])
  {
    if k in RowKeys(bp, a - 1, |bp|) {
      i := a - 1;
      j :| a - 1 < j < |bp| && k == PairKey(bp[a - 1], bp[j]);
    } else {
      i, j := KeyHasPair(bp, a - 1, k);
    }
  }

  method AddRow(covered: U64Set, bp: seq<nat>, a: nat)
    requires covered.Valid() && a < |bp|
    modifies covered
    ensures covered.Valid()
    ensures covered.elems == old(covered.elems) + RowKeys(bp, a, |bp|)
  {
    hide U64Set.Valid;
    ghost var before := covered.elems;
    for b := a + 1 to |bp|
      invariant covered.Valid()
      invariant covered.elems == before + RowKeys(bp, a, b)
    {
      RowGrows(bp, a, b);
      covered.Add(PairKey(bp[a], bp[b]));
    }
  }

  /** Every pair of the list goes into the set. */
  method AddPairs(covered: U64Set, bp: seq<nat>)
    requires covered.Valid()
    modifies covered
    ensures covered.Valid()
    ensures covered.elems == old(covered.elems) + PairKeys(bp, |bp|)
  {
    hide U64Set.Valid;
    ghost var before := covered.elems;
    for a := 0 to |bp|
      invariant covered.Valid()
      invariant covered.elems == before + PairKeys(bp, a)
    {
      AddRow(covered, bp, a);
    }
  }

  lemma RowGrows(bp: seq<nat>, a: nat, b: nat)
    requires a < b < |bp|
    ensures RowKeys(bp, a, b + 1) == RowKeys(bp, a, b) + {PairKey(bp[a], bp[b])}
  {
    forall k | k in RowKeys(bp, a, b + 1) ensures k in RowKeys(bp, a, b) + {PairKey(bp[a], bp[b])} {
      var j :| a < j < b + 1 && k == PairKey(bp[a], bp[j]);
    }
  }

  // ----- the side pools

  lemma PoolKeysSound(m: Merge, s: Side, q: nat, bp: seq<nat>, wit: seq<nat>)
    requires m.Valid() && |m.base.pools| <= WORD && q < |m.T(s).pools|
    requires OriginsOf(m, m.T(s).pools[q].names, bp, wit)
    ensures KeysSound(m, PairKeys(bp, |bp|))
  {
    assert m.T(s).PoolValid(q);
    forall k | k in PairKeys(bp, |bp|) ensures exists p: nat, r: nat :: CoveredKey(m, k, p, r) {
      var i, j := KeyHasPair(bp, |bp|, k);
      assert m.CoveredBy(s, wit[i], wit[j], bp[i], bp[j]);
      assert CoveredKey(m, k, bp[i], bp[j]);
    }
  }

  lemma PoolKeysComplete(m: Merge, s: Side, q: nat, bp: seq<nat>, wit: seq<nat>, a: nat, b: nat)
    requires m.Valid() && q < |m.T(s).pools| && OriginsOf(m, m.T(s).pools[q].names, bp, wit)
    requires Joint(m, s, a, b) && m.At(s, a) == q
    ensures PairKey(m.Origin(a), m.Origin(b)) in PairKeys(bp, |bp|)
  {
    hide PairKey;
    var names := m.T(s).pools[q].names;
    assert a in names && b in names;
    var i :| 0 <= i < |bp| && bp[i] == m.Origin(a);
    var j :| 0 <= j < |bp| && bp[j] == m.Origin(b);
    PairKeySymmetric(bp[i], bp[j]);
    if i < j { PairHasKey(bp, i, j, |bp|); } else { PairHasKey(bp, j, i, |bp|); }
  }

  lemma PairKeySymmetric(a: nat, b: nat)
    ensures PairKey(a, b) == PairKey(b, a)
  {
  }

  lemma KeysMore(m: Merge, keys: set<nat>, more: set<nat>, s: Side, q: nat)
    requires m.Valid() && KeysComplete(m, keys, s, q)
    ensures KeysComplete(m, keys + more, s, q)
  {
  }

  ghost predicate StampsBelow(seen: array<nat>, stamp: nat)
    reads seen
  {
    forall p :: 0 <= p < seen.Length ==> seen[p] < stamp
  }

  method CoverSide(c: Ctx, s: Side, covered: U64Set, seen: array<nat>, stamp: nat) returns (next: nat)
    requires c.Named() && |c.m.base.pools| <= WORD && covered.Valid() && seen.Length == |c.m.base.pools|
    requires StampsBelow(seen, stamp) && seen as object != c.state
    requires KeysSound(c.m, covered.elems)
    modifies covered, seen
    ensures covered.Valid() && StampsBelow(seen, next)
    ensures KeysSound(c.m, covered.elems) && KeysComplete(c.m, covered.elems, s, |c.m.T(s).pools|)
    ensures old(covered.elems) <= covered.elems
  {
    hide U64Set.Valid;
    var m := c.m;
    next := stamp;
    for q: nat := 0 to |m.T(s).pools|
      invariant c.Named() && covered.Valid() && StampsBelow(seen, next)
      invariant KeysSound(m, covered.elems) && KeysComplete(m, covered.elems, s, q)
      invariant old(covered.elems) <= covered.elems
    {
      assert m.T(s).PoolValid(q);
      ghost var before := covered.elems;
      var bp, wit := Origins(c, m.T(s).pools[q].names, seen, next);
      next := next + 1;
      AddPairs(covered, bp);
      PoolKeysSound(m, s, q, bp, wit);
      KeysMore(m, before, PairKeys(bp, |bp|), s, q);
      forall a: nat, b: nat | Joint(m, s, a, b) && m.At(s, a) == q
        ensures PairKey(m.Origin(a), m.Origin(b)) in covered.elems
      {
        PoolKeysComplete(m, s, q, bp, wit, a, b);
      }
    }
  }

  // ----- the classes

  /** The first pair of base pools of one class whose key is missing. */
  method FirstUncovered(covered: U64Set, bp: seq<nat>) returns (missing: bool, a: nat, b: nat)
    requires covered.Valid()
    ensures missing ==> a < b < |bp| && PairKey(bp[a], bp[b]) !in covered.elems
    ensures !missing ==> forall i, j :: 0 <= i < j < |bp| ==> PairKey(bp[i], bp[j]) in covered.elems
  {
    for i: nat := 0 to |bp|
      invariant forall d, e :: 0 <= d < i && d < e < |bp| ==> PairKey(bp[d], bp[e]) in covered.elems
    {
      for j: nat := i + 1 to |bp|
        invariant forall e :: i < e < j ==> PairKey(bp[i], bp[e]) in covered.elems
      {
        var has := covered.Has(PairKey(bp[i], bp[j]));
        if !has { return true, i, j; }
      }
    }
    missing, a, b := false, 0, 0;
  }

  /** The class every settled base name is indexed under. */
  function IndexKeys(m: Merge, klass: seq<int>): (keys: seq<int>)
    requires |klass| == m.n
    ensures |keys| == m.n
    ensures forall x: nat :: x < m.n ==> keys[x] == if m.Settled(x) && m.InBase(x) then klass[x] else -1
  {
    seq(m.n, (x: nat) requires x < m.n => if m.Settled(x) && m.InBase(x) then klass[x] else -1)
  }

  /** Everything the class loop works with. */
  ghost predicate Ready(m: Merge, klass: seq<int>, nclass: nat, keys: set<nat>)
    requires m.Valid()
  {
    && Classed(m, klass, nclass) && |m.base.pools| <= WORD && m.strict
    && KeysSound(m, keys) && KeysComplete(m, keys, From, |m.from.pools|) && KeysComplete(m, keys, Onto, |m.onto.pools|)
  }

  ghost predicate ClassOrigins(m: Merge, klass: seq<int>, k: nat, bp: seq<nat>, wit: seq<nat>)
    requires m.Valid() && |klass| == m.n
  {
    OriginsOf(m, ClassIndex.NamesIn(IndexKeys(m, klass), k, m.n), bp, wit)
  }

  /** A missing key is an unexpressed sharing of the class. */
  lemma MissingIsUnexpressed(m: Merge, klass: seq<int>, nclass: nat, keys: set<nat>, k: nat, bp: seq<nat>, wit: seq<nat>,
                             i: nat, j: nat)
    requires m.Valid() && Ready(m, klass, nclass, keys) && k < nclass && ClassOrigins(m, klass, k, bp, wit)
    requires i < j < |bp| && PairKey(bp[i], bp[j]) !in keys
    ensures wit[i] < m.n && klass[wit[i]] == k && m.Settled(wit[i]) && m.InBase(wit[i]) && m.UnexpressedAt(wit[i])
  {
    if m.Covered(bp[i], bp[j]) { CoveredHasKey(m, keys, bp[i], bp[j]); }
    assert m.UnexpressedPair(wit[i], wit[j]);
  }

  /** A class with no missing key has no unexpressed sharing. */
  lemma ExpressedClass(m: Merge, klass: seq<int>, nclass: nat, keys: set<nat>, k: nat, bp: seq<nat>, wit: seq<nat>,
                       a: nat, b: nat)
    requires m.Valid() && Ready(m, klass, nclass, keys) && k < nclass && ClassOrigins(m, klass, k, bp, wit)
    requires a < m.n && b < m.n && m.UnexpressedPair(a, b) && klass[a] == k
    ensures exists i, j :: 0 <= i < j < |bp| && PairKey(bp[i], bp[j]) !in keys
  {
    var names := ClassIndex.NamesIn(IndexKeys(m, klass), k, m.n);
    assert a in names && b in names;
    var i :| 0 <= i < |bp| && bp[i] == m.Origin(a);
    var j :| 0 <= j < |bp| && bp[j] == m.Origin(b);
    if PairKey(bp[i], bp[j]) in keys { KeyMeansCovered(m, keys, bp[i], bp[j]); }
    assert PairKey(bp[j], bp[i]) == PairKey(bp[i], bp[j]);
  }

  lemma PartnerOf(m: Merge, a: nat) returns (b: nat)
    requires m.Valid() && m.UnexpressedAt(a)
    ensures m.UnexpressedPair(a, b) && a < m.n && b < m.n && m.Survives(a) && OnSomeSide(m, a)
  {
    b :| m.UnexpressedPair(a, b);
  }

  /** One class of the last loop. */
  method CheckClass(c: Ctx, ghost klass: seq<int>, nclass: nat, k: nat, members: seq<nat>, covered: U64Set, seen: array<nat>, stamp: nat)
    requires c.FlagsKept() && klass == c.klass[..] && covered.Valid() && Ready(c.m, klass, nclass, covered.elems) && k < nclass
    requires members == ClassIndex.NamesIn(IndexKeys(c.m, klass), k, c.m.n)
    requires seen.Length == |c.m.base.pools| && StampsBelow(seen, stamp) && seen as object != c.state
    requires seen as object != c.pnode && seen as object != c.gindex
    modifies c`flags, c`raised, c.pnode, seen
    ensures c.FlagsKept() && StampsBelow(seen, stamp + 1) && c.klass[..] == klass
    ensures c.raised == old(c.raised) ||
      (members != [] && c.raised == old(c.raised) + {(members[0], Class.Unexpressed)} &&
       exists y: nat :: y in members && c.m.UnexpressedAt(y))
    ensures (exists y: nat :: y < c.m.n && klass[y] == k && c.m.UnexpressedAt(y)) ==>
      members != [] && (members[0], Class.Unexpressed) in c.raised
  {
    hide U64Set.Valid, PairKey, Merge.Valid, Merge.SameClass, Merge.UnexpressedAt, Merge.SameGroup, FlagsFrom;
    var bp, wit := Origins(c, members, seen, stamp);
    var missing, i, j := FirstUncovered(covered, bp);
    if missing {
      MissingIsUnexpressed(c.m, klass, nclass, covered.elems, k, bp, wit, i, j);
      assert wit[i] in members && members[0] in members;
      c.Flag(members[0], Class.Unexpressed);
    } else {
      forall y: nat | y < c.m.n && klass[y] == k ensures !c.m.UnexpressedAt(y) {
        if c.m.UnexpressedAt(y) {
          var b := PartnerOf(c.m, y);
          ExpressedClass(c.m, klass, nclass, covered.elems, k, bp, wit, y, b);
        }
      }
    }
  }

  /** Every unexpressed sharing of the first k classes has its group flagged. */
  ghost predicate ClassesChecked(m: Merge, raised: set<(nat, Class)>, klass: seq<int>, k: int)
    requires m.Valid() && |klass| == m.n
  {
    forall a: nat :: a < m.n && m.UnexpressedAt(a) && klass[a] < k ==>
      OnSomeSide(m, a) && exists y: nat :: RaisedFor(m, raised, Class.Unexpressed, a, y)
  }

  ghost predicate OnlyShared(m: Merge, before: set<(nat, Class)>, after: set<(nat, Class)>)
    requires m.Valid()
  {
    && before <= after
    && (forall x: nat, e :: (x, e) in after && (x, e) !in before ==>
          e == Class.Unexpressed && OnSomeSide(m, x) && exists y: nat :: SharedWith(m, x, y))
  }

  ghost predicate SharedWith(m: Merge, x: nat, y: nat)
    requires m.Valid() && OnSomeSide(m, x)
  {
    m.UnexpressedAt(y) && OnSomeSide(m, y) && m.SameGroup(m.NodeOf(x), m.NodeOf(y))
  }

  lemma SettledBaseOnSide(m: Merge, x: nat)
    requires m.Settled(x) && m.InBase(x)
    ensures OnSomeSide(m, x) && m.Survives(x)
  {
  }

  /** What one class added keeps both halves of the account. */
  lemma ClassDone(m: Merge, klass: seq<int>, nclass: nat, k: nat, members: seq<nat>,
                  start: set<(nat, Class)>, before: set<(nat, Class)>, after: set<(nat, Class)>)
    requires m.Valid() && Classed(m, klass, nclass) && k < nclass
    requires members == ClassIndex.NamesIn(IndexKeys(m, klass), k, m.n)
    requires OnlyShared(m, start, before) && ClassesChecked(m, before, klass, k)
    requires after == before || (members != [] && after == before + {(members[0], Class.Unexpressed)} &&
                                 exists y: nat :: y in members && m.UnexpressedAt(y))
    requires (exists y: nat :: y < m.n && klass[y] == k && m.UnexpressedAt(y)) ==>
      members != [] && (members[0], Class.Unexpressed) in after
    ensures OnlyShared(m, start, after) && ClassesChecked(m, after, klass, k + 1)
  {
    hide Merge.Valid, Merge.SameGroup, Merge.UnexpressedAt, Merge.SameClass;
    if after != before {
      var y: nat :| y in members && m.UnexpressedAt(y);
      assert members[0] in members;
      var b := PartnerOf(m, y);
      SettledBaseOnSide(m, members[0]);
      ClassInGroup(m, members[0], y);
      assert SharedWith(m, members[0], y);
    }
    forall a: nat | a < m.n && m.UnexpressedAt(a) && klass[a] < k + 1
      ensures OnSomeSide(m, a) && exists y: nat :: RaisedFor(m, after, Class.Unexpressed, a, y)
    {
      var b := PartnerOf(m, a);
      if klass[a] < k {
        var y: nat :| RaisedFor(m, before, Class.Unexpressed, a, y);
        assert RaisedFor(m, after, Class.Unexpressed, a, y);
      } else {
        assert members[0] in members;
        SettledBaseOnSide(m, members[0]);
        ClassInGroup(m, a, members[0]);
        assert RaisedFor(m, after, Class.Unexpressed, a, members[0]);
      }
    }
  }

  lemma AllChecked(m: Merge, klass: seq<int>, nclass: nat, before: set<(nat, Class)>, after: set<(nat, Class)>)
    requires m.Valid() && Classed(m, klass, nclass)
    requires OnlyShared(m, before, after) && ClassesChecked(m, after, klass, nclass)
    ensures Raises(m, before, after, Class.Unexpressed, (x: nat) => m.UnexpressedAt(x))
  {
    hide Merge.Valid, Merge.SameGroup, Merge.SameClass, Merge.UnexpressedAt;
    var event := (x: nat) => m.UnexpressedAt(x);
    forall x: nat, e | (x, e) in after && (x, e) !in before ensures exists y: nat :: Because(m, event, x, y) {
      var y: nat :| SharedWith(m, x, y);
      assert Because(m, event, x, y);
    }
    forall x: nat | event(x) && OnSomeSide(m, x) ensures exists y: nat :: RaisedFor(m, after, Class.Unexpressed, x, y) {
      var b := PartnerOf(m, x);
    }
  }

  method CheckClasses(c: Ctx, nclass: nat, covered: U64Set, seen: array<nat>, first: nat)
    requires c.FlagsKept() && covered.Valid() && Ready(c.m, c.klass[..], nclass, covered.elems)
    requires seen.Length == |c.m.base.pools| && StampsBelow(seen, first) && seen as object != c.state
    requires seen as object != c.pnode && seen as object != c.gindex && seen as object != c.klass
    modifies c`flags, c`raised, c.pnode, seen
    ensures c.FlagsKept() && c.klass[..] == old(c.klass[..])
    ensures Raises(c.m, old(c.raised), c.raised, Class.Unexpressed, (x: nat) => c.m.UnexpressedAt(x))
  {
    hide U64Set.Valid, PairKey, Merge.Valid, Merge.SameGroup, Merge.SameClass, Merge.Covered, FlagsFrom;
    ghost var klass := c.klass[..];
    var keys := IndexKeys(c.m, c.klass[..]);
    assert forall x: nat :: x < c.m.n && c.m.Settled(x) ==> 0 <= klass[x] < nclass;
    var off, memb := ClassIndex.Build(keys, nclass);
    var stamp := first;
    for k: nat := 0 to nclass
      invariant c.FlagsKept() && c.klass[..] == klass && covered.Valid() && covered.elems == old(covered.elems)
      invariant StampsBelow(seen, stamp)
      invariant OnlyShared(c.m, old(c.raised), c.raised) && ClassesChecked(c.m, c.raised, klass, k)
      invariant forall k: nat :: k < nclass ==> ClassIndex.Found(keys, off[..], memb[..], k)
    {
      assert ClassIndex.Found(keys, off[..], memb[..], k);
      var members := memb[off[k]..off[k + 1]];
      ghost var before := c.raised;
      CheckClass(c, klass, nclass, k, members, covered, seen, stamp);
      ClassDone(c.m, klass, nclass, k, members, old(c.raised), before, c.raised);
      stamp := stamp + 1;
    }
    AllChecked(c.m, klass, nclass, old(c.raised), c.raised);
  }

  /** The pass, in strict mode; `home` is where the hash set's probes start. */
  method PassUnexpressed(c: Ctx, nclass: nat, home: Homing)
    requires c.FlagsKept() && Classed(c.m, c.klass[..], nclass) && |c.m.base.pools| <= WORD
    modifies c`flags, c`raised, c.pnode
    ensures c.FlagsKept() && c.klass[..] == old(c.klass[..])
    ensures Raises(c.m, old(c.raised), c.raised, Class.Unexpressed, (x: nat) => c.m.UnexpressedAt(x))
  {
    hide U64Set.Valid, PairKey, Merge.Valid, FlagsFrom;
    if !c.m.strict { return; }
    var covered := new U64Set(64, home);
    var seen := new nat[|c.m.base.pools|](_ => 0);
    var stamp := CoverSide(c, From, covered, seen, 1);
    ghost var keys := covered.elems;
    stamp := CoverSide(c, Onto, covered, seen, stamp);
    KeysMore(c.m, keys, covered.elems - keys, From, |c.m.from.pools|);
    assert keys + (covered.elems - keys) == covered.elems;
    CheckClasses(c, nclass, covered, seen, stamp);
  }
}
