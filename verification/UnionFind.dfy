/** The disjoint-set forest of src/decide.c: `uf_find`/`uf_union` over names and, with the
    same code over another array, `pnode_find`/`pnode_union` over side pools.

    A forest is the sequence of parent links.  What it means is the set of labellings that are
    constant on its trees (`Coarsens`): joining two elements adds exactly one constraint to
    that set, compressing a path adds none.  The passes of the decision state what they built
    in these terms, so that no proof has to speak of paths. */
module UnionFind {

  type Labelling = seq<int>

  /** Links never point upwards: `uf_union` hangs the larger root below the smaller one. */
  ghost predicate Forest(p: seq<nat>) {
    forall i :: 0 <= i < |p| ==> p[i] <= i
  }

  ghost function Root(p: seq<nat>, i: nat): (r: nat)
    requires Forest(p) && i < |p|
    ensures r <= i && p[r] == r
    decreases i
  {
    if p[i] == i then i else Root(p, p[i])
  }

  ghost predicate Joined(p: seq<nat>, i: nat, j: nat)
    requires Forest(p) && i < |p| && j < |p|
  {
    Root(p, i) == Root(p, j)
  }

  /** L gives the two ends of every link the same label. */
  ghost predicate Coarsens(L: Labelling, p: seq<nat>) {
    |L| == |p| && Forest(p) && forall i :: 0 <= i < |p| ==> L[i] == L[p[i]]
  }

  lemma {:induction false} CoarsensRoot(L: Labelling, p: seq<nat>, i: nat)
    requires Coarsens(L, p) && i < |p|
    ensures L[i] == L[Root(p, i)]
    decreases i
  {
    if p[i] != i {
      CoarsensRoot(L, p, p[i]);
    }
  }

  /** The labelling that names every element by its root. */
  ghost function Roots(p: seq<nat>): (L: Labelling)
    requires Forest(p)
    ensures |L| == |p| && forall i :: 0 <= i < |p| ==> L[i] == Root(p, i)
  {
    seq(|p|, i requires 0 <= i < |p| => Root(p, i))
  }

  lemma RootsCoarsen(p: seq<nat>)
    requires Forest(p)
    ensures Coarsens(Roots(p), p)
  {
    forall i | 0 <= i < |p| ensures Roots(p)[i] == Roots(p)[p[i]] {
      assert Root(p, i) == Root(p, p[i]);
    }
  }

  /** Two elements share a tree exactly when no admitted labelling tells them apart. */
  lemma JoinedIffInseparable(p: seq<nat>, i: nat, j: nat)
    requires Forest(p) && i < |p| && j < |p|
    ensures Joined(p, i, j) <==> forall L :: Coarsens(L, p) ==> L[i] == L[j]
  {
    if Joined(p, i, j) {
      forall L | Coarsens(L, p) ensures L[i] == L[j] {
        CoarsensRoot(L, p, i);
        CoarsensRoot(L, p, j);
      }
    } else {
      RootsCoarsen(p);
      assert Roots(p)[i] != Roots(p)[j];
    }
  }

  /** Same roots everywhere means the same admitted labellings. */
  lemma SameRootsSameMeaning(p: seq<nat>, q: seq<nat>)
    requires Forest(p) && Forest(q) && |p| == |q|
    requires forall i :: 0 <= i < |p| ==> Root(p, i) == Root(q, i)
    ensures forall L :: Coarsens(L, p) <==> Coarsens(L, q)
  {
    forall L | Coarsens(L, p) ensures Coarsens(L, q) { MeaningFromRoots(L, p, q); }
    forall L | Coarsens(L, q) ensures Coarsens(L, p) { MeaningFromRoots(L, q, p); }
  }

  lemma MeaningFromRoots(L: Labelling, p: seq<nat>, q: seq<nat>)
    requires Coarsens(L, p) && Forest(q) && |p| == |q|
    requires forall i :: 0 <= i < |p| ==> Root(p, i) == Root(q, i)
    ensures Coarsens(L, q)
  {
    forall i | 0 <= i < |q| ensures L[i] == L[q[i]] {
      CoarsensRoot(L, p, i);
      CoarsensRoot(L, p, q[i]);
      assert Root(q, i) == Root(q, q[i]);
    }
  }

  /** One redirected link: sending i straight to its root changes no root. */
  lemma {:induction false} CompressKeepsRoot(p: seq<nat>, i: nat, k: nat)
    requires Forest(p) && i < |p| && k < |p|
    ensures Forest(p[i := Root(p, i)])
    ensures Root(p[i := Root(p, i)], k) == Root(p, k)
    decreases k
  {
    var q := p[i := Root(p, i)];
    if q[k] != k {
      CompressKeepsRoot(p, i, q[k]);
      if k == i {
        assert Root(p, Root(p, i)) == Root(p, i);
      }
    }
  }

  /** One link from a root to a smaller root merges exactly these two trees. */
  lemma {:induction false} LinkMerges(p: seq<nat>, a: nat, b: nat, k: nat)
    requires Forest(p) && b < a < |p| && k < |p| && p[a] == a && p[b] == b
    ensures Forest(p[a := b])
    ensures Root(p[a := b], k) == if Root(p, k) == a then b else Root(p, k)
    decreases k
  {
    var q := p[a := b];
    if q[k] != k {
      LinkMerges(p, a, b, q[k]);
    }
  }

  /** `uf_find`: the root of n, with the path from n to it compressed. */
  method Find(parent: array<nat>, n: nat) returns (root: nat)
    requires Forest(parent[..]) && n < parent.Length
    modifies parent
    ensures Forest(parent[..])
    ensures root == Root(old(parent[..]), n) && root < parent.Length
    ensures forall i :: 0 <= i < parent.Length ==> Root(parent[..], i) == Root(old(parent[..]), i)
    ensures forall L :: Coarsens(L, parent[..]) <==> Coarsens(L, old(parent[..]))
  {
    ghost var p := parent[..];
    root := n;
    while parent[root] != root
      invariant root < parent.Length && Root(p, root) == Root(p, n)
      decreases root
    {
      root := parent[root];
    }
    var x: nat := n;
    while parent[x] != root
      invariant x < parent.Length && root == Root(p, n)
      invariant Forest(parent[..]) && Root(parent[..], x) == root
      invariant forall i :: 0 <= i < parent.Length ==> Root(parent[..], i) == Root(p, i)
      decreases x
    {
      var next := parent[x];
      ghost var q := parent[..];
      parent[x] := root;
      assert parent[..] == q[x := Root(q, x)];
      forall i | 0 <= i < parent.Length ensures Root(parent[..], i) == Root(p, i) {
        CompressKeepsRoot(q, x, i);
      }
      CompressKeepsRoot(q, x, next);
      assert Root(q, next) == root;
      x := next;
    }
    SameRootsSameMeaning(p, parent[..]);
  }

  /** Where i ends up when the trees of x and y become one: under the lesser of the two roots. */
  ghost function RootAfterUnion(p: seq<nat>, x: nat, y: nat, i: nat): nat
    requires Forest(p) && x < |p| && y < |p| && i < |p|
  {
    var r, a, b := Root(p, i), Root(p, x), Root(p, y);
    if r == a || r == b then (if a < b then a else b) else r
  }

  /** `uf_union`: the larger root goes below the smaller one, so every root stays the least
      element of its tree. */
  method Union(parent: array<nat>, x: nat, y: nat)
    requires Forest(parent[..]) && x < parent.Length && y < parent.Length
    modifies parent
    ensures Forest(parent[..])
    ensures forall i :: 0 <= i < parent.Length ==>
      Root(parent[..], i) == RootAfterUnion(old(parent[..]), x, y, i)
    ensures forall L :: Coarsens(L, parent[..]) <==> Coarsens(L, old(parent[..])) && L[x] == L[y]
  {
    ghost var p := parent[..];
    var a := Find(parent, x);
    var b := Find(parent, y);
    ghost var q := parent[..];
    if a != b {
      var hi: nat, lo: nat := if b < a then a else b, if b < a then b else a;
      parent[hi] := lo;
      assert parent[..] == q[hi := lo];
      forall i | 0 <= i < parent.Length
        ensures Root(parent[..], i) == if Root(q, i) == hi then lo else Root(q, i)
      {
        LinkMerges(q, hi, lo, i);
      }
      LinkMerges(q, hi, lo, x);
      LinkMeaning(q, hi, lo, x, y);
    } else {
      forall L | Coarsens(L, q) ensures L[x] == L[y] {
        CoarsensRoot(L, q, x);
        CoarsensRoot(L, q, y);
      }
    }
  }

  lemma LinkMeaning(q: seq<nat>, hi: nat, lo: nat, x: nat, y: nat)
    requires Forest(q) && lo < hi < |q| && q[hi] == hi && q[lo] == lo && x < |q| && y < |q|
    requires {Root(q, x), Root(q, y)} == {hi, lo}
    requires Forest(q[hi := lo])
    ensures forall L :: Coarsens(L, q[hi := lo]) <==> Coarsens(L, q) && L[x] == L[y]
  {
    var p := q[hi := lo];
    forall L | Coarsens(L, p) ensures Coarsens(L, q) && L[x] == L[y] {
      assert forall i :: 0 <= i < |q| ==> q[i] == p[i] || i == hi;
      assert L[hi] == L[p[hi]];
      CoarsensRoot(L, q, x);
      CoarsensRoot(L, q, y);
    }
    forall L | Coarsens(L, q) && L[x] == L[y] ensures Coarsens(L, p) {
      CoarsensRoot(L, q, x);
      CoarsensRoot(L, q, y);
    }
  }
}
