/** Names that share anything share a group: no settled class, no result pool and no side pool
    reaches over two connected components of side pools. */
module Grouping {
  import opened UnionFind
  import opened MergeSpec

  lemma BothPoolsTogether(m: Merge, s: Side, x: nat)
    requires m.Valid() && m.On(s, x)
    ensures m.SameGroup(m.NodeOf(x), m.Node(s, m.At(s, x)))
  {
    forall G | m.GroupRespecting(G) ensures G[m.NodeOf(x)] == G[m.Node(s, m.At(s, x))] {
      if m.On(From, x) && m.On(Onto, x) {
        assert m.Survives(x);
      }
    }
  }

  lemma PoolMatesTogether(m: Merge, s: Side, x: nat, y: nat)
    requires m.Valid() && m.On(s, x) && m.On(s, y) && m.At(s, x) == m.At(s, y)
    ensures m.SameGroup(m.NodeOf(x), m.NodeOf(y))
  {
    BothPoolsTogether(m, s, x);
    BothPoolsTogether(m, s, y);
  }

  /** What every labelling of the groups says about the surviving names. */
  ghost function NameLabels(m: Merge, G: Labelling): (L: Labelling)
    requires m.Valid() && m.GroupRespecting(G)
    ensures |L| == m.n
    ensures forall x: nat :: x < m.n && m.Survives(x) ==> L[x] == G[m.NodeOf(x)]
  {
    seq(m.n, (x: nat) requires x < m.n => if m.Survives(x) then G[m.NodeOf(x)] else 0)
  }

  lemma NameLabelsRespectClasses(m: Merge, G: Labelling)
    requires m.Valid() && m.GroupRespecting(G)
    ensures m.ClassRespecting(NameLabels(m, G))
  {
    var L := NameLabels(m, G);
    forall s: Side, a: nat, b: nat | m.LumpPair(s, a, b) ensures L[a] == L[b] {
      PoolMatesTogether(m, s, a, b);
    }
    forall a: nat, b: nat | m.LabelPair(a, b) ensures L[a] == L[b] {
      PoolMatesTogether(m, From, a, b);
    }
  }

  /** A contested name is placed with a pool-mate of its from pool. */
  lemma PlacedWithMate(m: Merge, x: nat, y: nat)
    requires m.Valid() && m.PlacedWith(x, y)
    ensures m.On(From, x) && m.On(From, y) && m.At(From, x) == m.At(From, y)
    ensures y < m.n && m.Survives(y)
  {
    var h := m.HomeOf(From, m.At(From, x));
    if h.InClass? {
      assert h.first in m.SettledOf(From, m.At(From, x));
    } else {
      assert y in m.CoMembers(From, x);
      assert m.from.PoolValid(m.At(From, x));
    }
  }

  lemma NameLabelsRespectResults(m: Merge, G: Labelling)
    requires m.Valid() && m.GroupRespecting(G)
    ensures m.ResultRespecting(NameLabels(m, G))
  {
    var L := NameLabels(m, G);
    NameLabelsRespectClasses(m, G);
    forall x: nat, y: nat | m.PlacedWith(x, y) ensures y < m.n && L[x] == L[y] {
      PlacedWithMate(m, x, y);
      PoolMatesTogether(m, From, x, y);
    }
  }

  lemma ClassInGroup(m: Merge, a: nat, b: nat)
    requires m.Valid() && a < m.n && b < m.n && m.Survives(a) && m.Survives(b) && m.SameClass(a, b)
    ensures m.SameGroup(m.NodeOf(a), m.NodeOf(b))
  {
    forall G | m.GroupRespecting(G) ensures G[m.NodeOf(a)] == G[m.NodeOf(b)] {
      NameLabelsRespectClasses(m, G);
    }
  }

  /** No result pool spans two groups. */
  lemma ResultInGroup(m: Merge, a: nat, b: nat)
    requires m.Valid() && a < m.n && b < m.n && m.Survives(a) && m.Survives(b) && m.SameResult(a, b)
    ensures m.SameGroup(m.NodeOf(a), m.NodeOf(b))
  {
    forall G | m.GroupRespecting(G) ensures G[m.NodeOf(a)] == G[m.NodeOf(b)] {
      NameLabelsRespectResults(m, G);
    }
  }

  lemma SameGroupReflexive(m: Merge, u: nat)
    requires m.Valid() && u < m.NodeCount()
    ensures m.SameGroup(u, u)
  {
  }

  lemma SameGroupSymmetric(m: Merge, u: nat, v: nat)
    requires m.Valid() && u < m.NodeCount() && v < m.NodeCount() && m.SameGroup(u, v)
    ensures m.SameGroup(v, u)
  {
  }

  lemma SameGroupTransitive(m: Merge, u: nat, v: nat, w: nat)
    requires m.Valid() && u < m.NodeCount() && v < m.NodeCount() && w < m.NodeCount()
    requires m.SameGroup(u, v) && m.SameGroup(v, w)
    ensures m.SameGroup(u, w)
  {
  }
}
