/** `pass_pools` of src/decide.c: the result classes once contested names are placed, materialised
    as pools of names in ascending order. */
module Pools {
  import opened UnionFind
  import opened MergeSpec
  import opened Context
  import opened Classes
  import opened Contested
  import ClassIndex

  /** The union-find holds the result pools. */
  ghost predicate HoldsResults(m: Merge, p: seq<nat>)
    requires m.Valid()
  {
    |p| == m.n && Forest(p) && forall L: Labelling :: |L| == m.n ==> (Coarsens(L, p) <==> m.ResultRespecting(L))
  }

  /** Classes with their contested names placed are results. */
  lemma PlacedClassesAreResults(m: Merge, before: seq<nat>, after: seq<nat>)
    requires m.Valid() && HoldsClasses(m, before) && |after| == m.n && Forest(after)
    requires forall L: Labelling :: |L| == m.n ==> (Coarsens(L, after) <==> Coarsens(L, before) && KeepsPlaces(m, L, m.n))
    ensures HoldsResults(m, after)
  {
    forall L: Labelling | |L| == m.n ensures m.ResultRespecting(L) <==> m.ClassRespecting(L) && KeepsPlaces(m, L, m.n) {
      if m.ResultRespecting(L) {
        forall x: nat | x < m.n ensures KeepsPlace(m, L, x) {}
      }
      if m.ClassRespecting(L) && KeepsPlaces(m, L, m.n) {
        forall x: nat, y: nat | m.PlacedWith(x, y) ensures y < m.n && L[x] == L[y] { assert KeepsPlace(m, L, x); }
      }
    }
  }

  /** The result pool of every surviving name, numbered from 0; no number is without a name. */
  ghost predicate Results(m: Merge, resultOf: seq<int>, npools: nat)
    requires m.Valid()
  {
    && |resultOf| == m.n
    && (forall x: nat :: x < m.n ==> (m.Survives(x) <==> 0 <= resultOf[x]) && -1 <= resultOf[x] < npools)
    && (forall a: nat, b: nat :: a < m.n && b < m.n && m.Survives(a) && m.Survives(b) ==>
          (resultOf[a] == resultOf[b] <==> m.SameResult(a, b)))
  }

  /** first[k] is a surviving name numbered k. */
  ghost predicate Witnessed(m: Merge, klass: seq<int>, first: seq<nat>) {
    forall k :: 0 <= k < |first| ==> first[k] < |klass| && m.Survives(first[k]) && klass[first[k]] == k
  }

  lemma SameMeaningHolds(m: Merge, p: seq<nat>, q: seq<nat>)
    requires m.Valid() && HoldsResults(m, p) && Forest(q) && |p| == |q| && forall L :: Coarsens(L, q) <==> Coarsens(L, p)
    ensures HoldsResults(m, q)
  {
  }

  lemma NothingNumbered(m: Merge, p: seq<nat>, klass: seq<int>)
    requires m.Valid() && HoldsResults(m, p) && |klass| == |p| && forall i :: 0 <= i < |klass| ==> klass[i] == -1
    ensures Forest(p) && Numbered(p, klass, 0)
  {
  }

  method Renumber(c: Ctx) returns (npools: int, ghost first: seq<nat>)
    requires c.Named() && HoldsResults(c.m, c.parent[..])
    modifies c.parent, c.klass
    ensures HoldsResults(c.m, c.parent[..]) && Numbered(c.parent[..], c.klass[..], npools)
    ensures forall x: nat :: x < c.m.n && c.m.Survives(x) ==> c.klass[x] != -1
    ensures |first| == npools && Witnessed(c.m, c.klass[..], first)
  {
    hide Merge.Valid, HoldsResults, Numbered, Coarsens;
    npools, first := 0, [];
    for x: nat := 0 to c.m.n
      invariant forall y :: 0 <= y < x ==> c.klass[y] == -1
      invariant HoldsResults(c.m, c.parent[..])
    {
      c.klass[x] := -1;
    }
    NothingNumbered(c.m, c.parent[..], c.klass[..]);
    for x: nat := 0 to c.m.n
      invariant HoldsResults(c.m, c.parent[..]) && Forest(c.parent[..]) && Numbered(c.parent[..], c.klass[..], npools)
      invariant forall y: nat :: y < x && c.m.Survives(y) ==> c.klass[y] != -1
      invariant |first| == npools && Witnessed(c.m, c.klass[..], first)
    {
      if c.state[x].survives {
        ghost var p := c.parent[..];
        var next := Number(c.parent, c.klass, x, npools);
        SameMeaningHolds(c.m, p, c.parent[..]);
        if next != npools { first := first + [x]; }
        npools := next;
      }
    }
  }

  /** The names of pool k are those numbered k, ascending, and there is one. */
  ghost predicate Pooled(resultOf: seq<int>, pools: seq<seq<nat>>) {
    forall k: nat :: k < |pools| ==> pools[k] == ClassIndex.NamesIn(resultOf, k, |resultOf|) && pools[k] != []
  }

  method ResultOf(c: Ctx, ghost npools: nat) returns (resultOf: seq<int>)
    requires c.Named() && forall x: nat :: x < c.m.n && c.m.Survives(x) ==> 0 <= c.klass[x] < npools
    ensures |resultOf| == c.m.n
    ensures forall x: nat :: x < c.m.n ==> resultOf[x] == if c.m.Survives(x) then c.klass[x] else -1
  {
    hide Merge.Valid;
    resultOf := [];
    for x: nat := 0 to c.m.n
      invariant |resultOf| == x && forall y: nat :: y < x ==> resultOf[y] == if c.m.Survives(y) then c.klass[y] else -1
    {
      resultOf := resultOf + [if c.state[x].survives then c.klass[x] else -1];
    }
  }

  method Materialise(c: Ctx, npools: nat) returns (resultOf: seq<int>, pools: seq<seq<nat>>)
    requires c.Named() && forall x: nat :: x < c.m.n && c.m.Survives(x) ==> 0 <= c.klass[x] < npools
    ensures |resultOf| == c.m.n && |pools| == npools
    ensures forall x: nat :: x < c.m.n ==> resultOf[x] == if c.m.Survives(x) then c.klass[x] else -1
    ensures forall k: nat :: k < npools ==> pools[k] == ClassIndex.NamesIn(resultOf, k, c.m.n)
  {
    hide Merge.Valid, Merge.Survives;
    resultOf := ResultOf(c, npools);
    var names := new seq<nat>[npools](_ => []);
    for x: nat := 0 to c.m.n
      invariant forall k: nat :: k < npools ==> names[k] == ClassIndex.NamesIn(resultOf, k, x)
    {
      if c.state[x].survives { names[c.klass[x]] := names[c.klass[x]] + [x]; }
    }
    pools := names[..];
  }

  method PassPools(c: Ctx) returns (resultOf: seq<int>, pools: seq<seq<nat>>)
    requires c.Named() && HoldsResults(c.m, c.parent[..])
    modifies c.parent, c.klass
    ensures Results(c.m, resultOf, |pools|) && Pooled(resultOf, pools)
  {
    hide Merge.Valid, Merge.ResultRespecting, Merge.SameResult, Coarsens;
    var npools;
    ghost var first;
    npools, first := Renumber(c);
    resultOf, pools := Materialise(c, npools);
    forall a: nat, b: nat | a < c.m.n && b < c.m.n && c.m.Survives(a) && c.m.Survives(b)
      ensures resultOf[a] == resultOf[b] <==> c.m.SameResult(a, b)
    {
      ResultsAreTrees(c.m, c.parent[..], a, b);
    }
    forall k: nat | k < npools ensures pools[k] != [] { assert first[k] in ClassIndex.NamesIn(resultOf, k, c.m.n); }
  }

  lemma ResultsAreTrees(m: Merge, p: seq<nat>, a: nat, b: nat)
    requires m.Valid() && HoldsResults(m, p) && a < m.n && b < m.n
    ensures Joined(p, a, b) <==> m.SameResult(a, b)
  {
    JoinedIffInseparable(p, a, b);
  }
}
