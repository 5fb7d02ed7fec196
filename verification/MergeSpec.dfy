/** What the decision of src/decide.c means, pass by pass, with no reference to how it is computed.

    Sharing is described by labellings: two names belong together when no labelling that respects
    the required pairs can tell them apart, which is the least equivalence containing the pairs.  */
module MergeSpec {
  import opened Trees
  import opened UnionFind

  datatype Side = From | Onto {
    function Other(): Side { if From? then Onto else From }
  }

  /** Where the settled names of one side pool fall: `pool_class` returns -1, -2 or a class. */
  datatype Home = NoClass | Several | InClass(first: nat)

  ghost function Keep(s: seq<nat>, p: nat -> bool): (r: seq<nat>)
    ensures forall x :: x in r <==> x in s && p(x)
    ensures |r| <= |s|
  {
    if s == [] then [] else (if p(s[0]) then [s[0]] else []) + Keep(s[1..], p)
  }

  datatype Merge = Merge(n: nat, base: Tree, from: Tree, onto: Tree, strict: bool) {

    ghost predicate Valid() {
      base.Valid(n) && from.Valid(n) && onto.Valid(n)
    }

    function Swap(): Merge { Merge(n, base, onto, from, strict) }

    // ----- names: pass_names

    function T(s: Side): Tree { if s.From? then from else onto }
    predicate InBase(x: nat) { base.Has(x) }
    predicate On(s: Side, x: nat) { T(s).Has(x) }
    function Origin(x: nat): nat requires InBase(x) { base.poolOf[x] }
    function At(s: Side, x: nat): nat requires On(s, x) { T(s).poolOf[x] }

    predicate Survives(x: nat) {
      || (InBase(x) && On(From, x) && On(Onto, x))
      || (On(From, x) && !InBase(x))
      || (On(Onto, x) && !InBase(x))
    }

    predicate Contested(x: nat) { On(From, x) && On(Onto, x) && !InBase(x) }
    predicate Settled(x: nat) { Survives(x) && !Contested(x) }

    // ----- result classes: pass_lumps, pass_labels

    /** A side pool that fans in over two base pools or has an emerging name stays one node. */
    ghost predicate Lump(s: Side, q: nat)
      requires q < |T(s).pools|
    {
      var names := T(s).pools[q].names;
      || (exists x :: x in names && Settled(x) && !InBase(x))
      || (exists x, y :: x in names && y in names && Settled(x) && Settled(y) &&
                         InBase(x) && InBase(y) && Origin(x) != Origin(y))
    }

    ghost predicate LumpPair(s: Side, a: nat, b: nat)
      requires Valid()
    {
      Settled(a) && Settled(b) && On(s, a) && On(s, b) && At(s, a) == At(s, b) && Lump(s, At(s, a))
    }

    ghost predicate LabelPair(a: nat, b: nat) {
      && Settled(a) && Settled(b)
      && On(From, a) && On(From, b) && At(From, a) == At(From, b)
      && On(Onto, a) && On(Onto, b) && At(Onto, a) == At(Onto, b)
    }

    ghost predicate ClassRespecting(L: Labelling)
      requires Valid()
    {
      && |L| == n
      && (forall s: Side, a: nat, b: nat :: LumpPair(s, a, b) ==> L[a] == L[b])
      && (forall a: nat, b: nat :: LabelPair(a, b) ==> L[a] == L[b])
    }

    /** One settled class: the least equivalence over the lump and label pairs. */
    ghost predicate SameClass(a: nat, b: nat)
      requires Valid() && a < n && b < n
    {
      forall L :: ClassRespecting(L) ==> L[a] == L[b]
    }

    // ----- groups: pass_groups

    function NodeCount(): nat { |from.pools| + |onto.pools| }

    function Node(s: Side, q: nat): nat { if s.From? then q else |from.pools| + q }

    ghost predicate GroupRespecting(G: Labelling)
      requires Valid()
    {
      && |G| == NodeCount()
      && forall x :: Survives(x) && On(From, x) && On(Onto, x) ==>
           G[Node(From, At(From, x))] == G[Node(Onto, At(Onto, x))]
    }

    ghost predicate SameGroup(u: nat, v: nat)
      requires Valid() && u < NodeCount() && v < NodeCount()
    {
      forall G :: GroupRespecting(G) ==> G[u] == G[v]
    }

    /** `group_of_name` goes through the from pool when there is one. */
    function NodeOf(x: nat): (u: nat)
      requires Valid() && (On(From, x) || On(Onto, x))
      ensures u < NodeCount()
    {
      if On(From, x) then Node(From, At(From, x)) else Node(Onto, At(Onto, x))
    }

    // ----- conflicts of sharing: pass_healed, pass_orphaned, pass_contested, pass_unexpressed

    ghost predicate HealedPair(s: Side, a: nat, b: nat)
      requires Valid()
    {
      && a < b && InBase(a) && InBase(b) && Origin(a) == Origin(b) && Settled(a) && Settled(b)
      && On(s, a) && On(s, b) && At(s, a) != At(s, b) && SameClass(a, b)
    }

    ghost predicate HealedAt(a: nat)
      requires Valid()
    {
      exists s, b :: HealedPair(s, a, b)
    }

    ghost predicate OrphanedOn(s: Side, x: nat)
      requires Valid()
    {
      && On(s, x) && Settled(x) && !InBase(x)
      && var names := T(s).pools[At(s, x)].names;
         && (exists y :: y in names && InBase(y))
         && (forall y :: y in names && InBase(y) ==> !Survives(y))
    }

    ghost predicate OrphanedAt(x: nat)
      requires Valid()
    {
      exists s :: OrphanedOn(s, x)
    }

    ghost function SettledOf(s: Side, q: nat): (r: seq<nat>)
      requires Valid() && q < |T(s).pools|
      ensures forall x :: x in r ==> x < n && Settled(x) && On(s, x) && At(s, x) == q
    {
      assert T(s).PoolValid(q);
      Keep(T(s).pools[q].names, (x: nat) => Settled(x))
    }

    ghost function HomeOf(s: Side, q: nat): Home
      requires Valid() && q < |T(s).pools|
    {
      var here := SettledOf(s, q);
      if here == [] then NoClass else
      assert here[0] in here;
      if forall y :: y in here ==> SameClass(here[0], y) then InClass(here[0])
      else Several
    }

    ghost predicate SameHome(h: Home, k: Home)
      requires Valid()
    {
      match (h, k)
      case (NoClass, NoClass) => true
      case (InClass(a), InClass(b)) => a < n && b < n && SameClass(a, b)
      case _ => false
    }

    /** The other contested names of the pool that holds x, in id order. */
    ghost function CoMembers(s: Side, x: nat): seq<nat>
      requires Valid() && On(s, x)
    {
      Keep(T(s).pools[At(s, x)].names, (y: nat) => y != x && Contested(y))
    }

    ghost predicate ContestedAt(x: nat)
      requires Valid()
    {
      && Contested(x)
      && var hf, ho := HomeOf(From, At(From, x)), HomeOf(Onto, At(Onto, x));
         hf.Several? || ho.Several? || !SameHome(hf, ho) || CoMembers(From, x) != CoMembers(Onto, x)
    }

    /** Some side pool holds a settled name of p and a settled name of r. */
    ghost predicate Covered(p: nat, r: nat)
      requires Valid()
    {
      exists s, a, b :: CoveredBy(s, a, b, p, r)
    }

    ghost predicate CoveredBy(s: Side, a: nat, b: nat, p: nat, r: nat)
      requires Valid()
    {
      && Settled(a) && Settled(b) && InBase(a) && InBase(b) && Origin(a) == p && Origin(b) == r
      && On(s, a) && On(s, b) && At(s, a) == At(s, b)
    }

    ghost predicate UnexpressedPair(a: nat, b: nat)
      requires Valid()
    {
      && Settled(a) && Settled(b) && InBase(a) && InBase(b) && SameClass(a, b)
      && Origin(a) != Origin(b) && !Covered(Origin(a), Origin(b))
    }

    ghost predicate UnexpressedAt(a: nat)
      requires Valid()
    {
      strict && exists b :: UnexpressedPair(a, b)
    }

    // ----- placement of contested names, and the result pools: pass_contested, pass_pools

    /** The name a contested name is joined with, chosen on the from side alone. */
    ghost function PlaceWith(x: nat): Option<nat>
      requires Valid() && Contested(x)
    {
      var h := HomeOf(From, At(From, x));
      var co := CoMembers(From, x);
      if h.InClass? then Some(h.first) else if co != [] then Some(co[0]) else None
    }

    ghost predicate PlacedWith(x: nat, y: nat)
      requires Valid()
    {
      Contested(x) && PlaceWith(x) == Some(y)
    }

    ghost predicate ResultRespecting(L: Labelling)
      requires Valid()
    {
      ClassRespecting(L) && forall x: nat, y: nat :: PlacedWith(x, y) ==> y < n && L[x] == L[y]
    }

    ghost predicate SameResult(a: nat, b: nat)
      requires Valid() && a < n && b < n
    {
      forall L :: ResultRespecting(L) ==> L[a] == L[b]
    }
  }

  /** Keeping looks at nothing but the answers. */
  lemma {:induction false} KeepSame(s: seq<nat>, p: nat -> bool, q: nat -> bool)
    requires forall x :: p(x) == q(x)
    ensures Keep(s, p) == Keep(s, q)
  {
    if s != [] { KeepSame(s[1..], p, q); }
  }

  /** The names of one side pool. */
  lemma PoolNames(m: Merge, s: Side, q: nat)
    requires m.Valid() && q < |m.T(s).pools|
    ensures Ascending(m.T(s).pools[q].names) && m.T(s).pools[q].names != []
    ensures forall x :: x in m.T(s).pools[q].names ==> x < m.n && m.On(s, x) && m.At(s, x) == q
  {
    assert m.T(s).PoolValid(q);
  }
}
