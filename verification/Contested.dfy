/** `pool_class`, `comembers` and `pass_contested` of src/decide.c: names both sides invented are
    checked for one home and placed with the company they keep on the from side. */
module Contested {
  import opened Trees
  import opened UnionFind
  import opened MergeSpec
  import opened ContentSpec
  import opened Context
  import opened Classes

  /** What the scan of `pool_class` found among these names: no settled one, one class, or two. */
  ghost predicate ClassScan(m: Merge, klass: seq<int>, names: seq<nat>, k: int)
    requires forall x :: x in names ==> x < |klass|
  {
    if k == -1 then forall x :: x in names ==> !m.Settled(x)
    else if k == -2 then exists x, y :: x in names && y in names && Apart(m, klass, x, y)
    else (exists x :: x in names && m.Settled(x)) && forall x :: x in names && m.Settled(x) ==> klass[x] == k
  }

  ghost predicate Apart(m: Merge, klass: seq<int>, x: nat, y: nat)
    requires x < |klass| && y < |klass|
  {
    m.Settled(x) && m.Settled(y) && klass[x] != klass[y]
  }

  /** The scan's answer is where the pool's settled names live. */
  ghost predicate Answers(m: Merge, klass: seq<int>, h: Home, k: int) {
    match h
    case NoClass => k == -1
    case Several => k == -2
    case InClass(first) => k >= 0 && first < |klass| && k == klass[first]
  }

  lemma ScanIsHome(m: Merge, klass: seq<int>, nclass: int, s: Side, q: nat, k: int)
    requires m.Valid() && Classed(m, klass, nclass) && q < |m.T(s).pools| && k >= -2
    requires forall x :: x in m.T(s).pools[q].names ==> x < m.n
    requires ClassScan(m, klass, m.T(s).pools[q].names, k)
    ensures Answers(m, klass, m.HomeOf(s, q), k)
  {
    var here := m.SettledOf(s, q);
    var names := m.T(s).pools[q].names;
    assert here != [] ==> here[0] in here;
    if k == -2 {
      var x, y :| x in names && y in names && Apart(m, klass, x, y);
      assert x in here && y in here;
    } else if k >= 0 {
      var x :| x in names && m.Settled(x);
      assert x in here;
      assert klass[x] == k;
    }
  }

  /** `pool_class`: -1 for no settled name, -2 for several classes, else the class. */
  method PoolClass(c: Ctx, nclass: int, s: Side, q: nat) returns (k: int)
    requires c.Named() && Classed(c.m, c.klass[..], nclass) && q < |c.m.T(s).pools|
    ensures Answers(c.m, c.klass[..], c.m.HomeOf(s, q), k) && k >= -2
  {
    var names := c.m.T(s).pools[q].names;
    PoolNames(c.m, s, q);
    k := ScanClass(c, names);
    ScanIsHome(c.m, c.klass[..], nclass, s, q, k);
  }

  method ScanClass(c: Ctx, names: seq<nat>) returns (k: int)
    requires c.Named() && forall x :: x in names ==> x < c.m.n
    requires forall x :: x in names && c.m.Settled(x) ==> 0 <= c.klass[x]
    ensures k >= -2 && ClassScan(c.m, c.klass[..], names, k)
  {
    hide Merge.Valid;
    k := -1;
    ghost var one: nat := 0;
    for i: nat := 0 to |names|
      invariant k >= -1
      invariant k == -1 ==> forall j :: 0 <= j < i ==> !c.m.Settled(names[j])
      invariant k >= 0 ==> one in names && c.m.Settled(one) && c.klass[one] == k
      invariant forall j :: 0 <= j < i && c.m.Settled(names[j]) ==> c.klass[names[j]] == k
    {
      var x := names[i];
      assert x in names;
      if c.Settled(x) {
        if k == -1 {
          k, one := c.klass[x], x;
        } else if k != c.klass[x] {
          assert Apart(c.m, c.klass[..], x, one);
          return -2;
        }
      }
    }
  }

  /** `comembers`: the other contested names of the pool. */
  method CoMembersOf(c: Ctx, s: Side, x: nat) returns (buf: seq<nat>)
    requires c.Named() && c.m.On(s, x)
    ensures buf == c.m.CoMembers(s, x)
  {
    var names := c.m.T(s).pools[c.m.At(s, x)].names;
    assert c.m.T(s).PoolValid(c.m.At(s, x));
    ghost var p := (y: nat) => y != x && c.m.Contested(y);
    buf := ScanContested(c, x, names, p);
    SameKept(c.m, s, x, names, p);
  }

  method ScanContested(c: Ctx, x: nat, names: seq<nat>, ghost p: nat -> bool) returns (buf: seq<nat>)
    requires c.Named() && forall y :: y in names ==> y < c.m.n
    requires forall y: nat :: p(y) == (y != x && c.m.Contested(y))
    ensures buf == Keep(names, p)
  {
    hide Merge.Valid, Keep;
    buf := [];
    assert names[0..] == names;
    for i: nat := 0 to |names|
      invariant buf + Keep(names[i..], p) == Keep(names, p)
    {
      assert names[i] in names;
      KeepStep(names, p, i);
      if names[i] != x && c.state[names[i]].contested { buf := buf + [names[i]]; }
    }
  }

  lemma KeepStep(s: seq<nat>, p: nat -> bool, i: nat)
    requires i < |s|
    ensures Keep(s[i..], p) == (if p(s[i]) then [s[i]] else []) + Keep(s[i + 1..], p)
  {
    assert s[i..][1..] == s[i + 1..];
  }

  lemma SameKept(m: Merge, s: Side, x: nat, names: seq<nat>, p: nat -> bool)
    requires m.Valid() && m.On(s, x) && names == m.T(s).pools[m.At(s, x)].names
    requires forall y: nat :: p(y) == (y != x && m.Contested(y))
    ensures m.CoMembers(s, x) == Keep(names, p)
  {
    KeepSame(names, (y: nat) => y != x && m.Contested(y), p);
  }

  lemma {:induction false} KeepFirst(s: seq<nat>, p: nat -> bool, i: nat)
    requires i < |s| && p(s[i]) && forall j :: 0 <= j < i ==> !p(s[j])
    ensures Keep(s, p) != [] && Keep(s, p)[0] == s[i]
  {
    if i > 0 { KeepFirst(s[1..], p, i - 1); }
  }

  /** The first settled name of a pool that has one. */
  method FirstSettled(c: Ctx, s: Side, q: nat) returns (y: nat)
    requires c.Named() && q < |c.m.T(s).pools| && c.m.SettledOf(s, q) != []
    ensures y == c.m.SettledOf(s, q)[0] && y < c.m.n
  {
    var names := c.m.T(s).pools[q].names;
    PoolNames(c.m, s, q);
    ghost var here := c.m.SettledOf(s, q);
    assert here[0] in here;
    ghost var k :| 0 <= k < |names| && names[k] == here[0];
    assert forall j :: 0 <= j < |names| ==> names[j] in names;
    var i: nat := 0;
    while !c.Settled(names[i])
      invariant i <= k && forall j :: 0 <= j < i ==> !c.m.Settled(names[j])
      decreases k - i
    {
      i := i + 1;
    }
    y := names[i];
    KeepFirst(names, (x: nat) => c.m.Settled(x), i);
  }

  /** L honours the placement of the contested names below k. */
  ghost predicate KeepsPlaces(m: Merge, L: Labelling, k: nat)
    requires m.Valid() && |L| == m.n
  {
    forall x: nat :: x < k ==> x < m.n && KeepsPlace(m, L, x)
  }

  ghost predicate KeepsPlace(m: Merge, L: Labelling, x: nat)
    requires m.Valid() && |L| == m.n && x < m.n
  {
    forall y: nat :: m.PlacedWith(x, y) ==> y < m.n && L[x] == L[y]
  }

  lemma OneMorePlace(m: Merge, L: Labelling, x: nat)
    requires m.Valid() && |L| == m.n && x < m.n
    ensures KeepsPlaces(m, L, x + 1) <==> KeepsPlaces(m, L, x) && KeepsPlace(m, L, x)
  {
  }

  method PassContested(c: Ctx, nclass: int)
    requires c.FlagsKept() && Classed(c.m, c.klass[..], nclass) && Forest(c.parent[..])
    modifies c`flags, c`raised, c.pnode, c.parent
    ensures c.FlagsKept() && c.klass[..] == old(c.klass[..]) && Forest(c.parent[..])
    ensures Raises(c.m, old(c.raised), c.raised, ContestedHome, (x: nat) => c.m.ContestedAt(x))
    ensures forall L: Labelling :: |L| == c.m.n ==>
      (Coarsens(L, c.parent[..]) <==> Coarsens(L, old(c.parent[..])) && KeepsPlaces(c.m, L, c.m.n))
  {
    for x: nat := 0 to c.m.n
      invariant c.FlagsKept() && c.klass[..] == old(c.klass[..]) && Forest(c.parent[..])
      invariant ContestedRaised(c.m, old(c.raised), c.raised, x)
      invariant forall L: Labelling :: |L| == c.m.n ==>
        (Coarsens(L, c.parent[..]) <==> Coarsens(L, old(c.parent[..])) && KeepsPlaces(c.m, L, x))
    {
      OneMoreRaised(c.m, old(c.raised), c.raised, x);
      PlaceOne(c, nclass, x);
      forall L: Labelling | |L| == c.m.n
        ensures KeepsPlaces(c.m, L, x + 1) <==> KeepsPlaces(c.m, L, x) && KeepsPlace(c.m, L, x)
      {
        OneMorePlace(c.m, L, x);
      }
    }
    AllContestedRaised(c.m, old(c.raised), c.raised);
  }

  lemma AllContestedRaised(m: Merge, before: set<(nat, Class)>, after: set<(nat, Class)>)
    requires m.Valid() && ContestedRaised(m, before, after, m.n)
    ensures Raises(m, before, after, ContestedHome, (x: nat) => m.ContestedAt(x))
  {
    RaisesEach(m, before, after, ContestedHome, (x: nat) => m.ContestedAt(x));
  }

  lemma OneMoreRaised(m: Merge, before: set<(nat, Class)>, now: set<(nat, Class)>, x: nat)
    requires m.Valid() && x < m.n && ContestedRaised(m, before, now, x)
    ensures ContestedRaised(m, before, now + (if m.ContestedAt(x) then {(x, ContestedHome)} else {}), x + 1)
  {
  }

  ghost predicate ContestedRaised(m: Merge, before: set<(nat, Class)>, after: set<(nat, Class)>, k: nat)
    requires m.Valid() && k <= m.n
  {
    forall y: nat, e :: (y, e) in after <==> (y, e) in before || (e == ContestedHome && y < k && m.ContestedAt(y))
  }

  /** The two homes and companies the conflict compares. */
  ghost predicate Met(c: Ctx, x: nat, kf: int, ko: int, bf: seq<nat>, bo: seq<nat>)
    requires c.Named()
    reads c, c.state, c.klass
  {
    && c.m.Contested(x) && kf >= -2 && ko >= -2
    && Answers(c.m, c.klass[..], c.m.HomeOf(From, c.m.At(From, x)), kf)
    && Answers(c.m, c.klass[..], c.m.HomeOf(Onto, c.m.At(Onto, x)), ko)
    && bf == c.m.CoMembers(From, x) && bo == c.m.CoMembers(Onto, x)
  }

  lemma MetIsContested(c: Ctx, nclass: int, x: nat, kf: int, ko: int, bf: seq<nat>, bo: seq<nat>)
    requires c.Named() && Classed(c.m, c.klass[..], nclass) && Met(c, x, kf, ko, bf, bo)
    ensures c.m.ContestedAt(x) <==> kf == -2 || ko == -2 || kf != ko || bf != bo
  {
    HomesSettled(c.m, From, c.m.At(From, x));
    HomesSettled(c.m, Onto, c.m.At(Onto, x));
  }

  method PlaceOne(c: Ctx, nclass: int, x: nat)
    requires c.FlagsKept() && Classed(c.m, c.klass[..], nclass) && Forest(c.parent[..]) && x < c.m.n
    modifies c`flags, c`raised, c.pnode, c.parent
    ensures c.FlagsKept() && c.klass[..] == old(c.klass[..]) && Forest(c.parent[..])
    ensures c.raised == old(c.raised) + (if c.m.ContestedAt(x) then {(x, ContestedHome)} else {})
    ensures forall L: Labelling :: |L| == c.m.n ==>
      (Coarsens(L, c.parent[..]) <==> Coarsens(L, old(c.parent[..])) && KeepsPlace(c.m, L, x))
  {
    if !c.state[x].contested { return; }
    var kf := PoolClass(c, nclass, From, c.m.At(From, x));
    var ko := PoolClass(c, nclass, Onto, c.m.At(Onto, x));
    var bf := CoMembersOf(c, From, x);
    var bo := CoMembersOf(c, Onto, x);
    MetIsContested(c, nclass, x, kf, ko, bf, bo);
    if kf == -2 || ko == -2 || kf != ko || bf != bo {
      c.Flag(x, ContestedHome);
    }
    Place(c, x, kf, bf);
  }

  /** Placement: join the class of the from pool's settled names, or else the contested company. */
  method Place(c: Ctx, x: nat, k: int, co: seq<nat>)
    requires c.Named() && Forest(c.parent[..]) && x < c.m.n && c.m.Contested(x) && k >= -2
    requires Answers(c.m, c.klass[..], c.m.HomeOf(From, c.m.At(From, x)), k) && co == c.m.CoMembers(From, x)
    modifies c.parent
    ensures Forest(c.parent[..])
    ensures forall L: Labelling :: |L| == c.m.n ==>
      (Coarsens(L, c.parent[..]) <==> Coarsens(L, old(c.parent[..])) && KeepsPlace(c.m, L, x))
  {
    var q := c.m.At(From, x);
    HomesSettled(c.m, From, q);
    ghost var y := c.m.PlaceWith(x);
    assert forall z: nat :: c.m.PlacedWith(x, z) <==> y == Some(z);
    if k >= 0 {
      var first := FirstSettled(c, From, q);
      assert y == Some(first);
      Union(c.parent, first, x);
    } else if |co| > 0 {
      assert co[0] in co && c.m.from.PoolValid(q) && y == Some(co[0]);
      Union(c.parent, co[0], x);
    }
  }

  lemma HomesSettled(m: Merge, s: Side, q: nat)
    requires m.Valid() && q < |m.T(s).pools|
    ensures m.HomeOf(s, q).InClass? ==>
      m.SettledOf(s, q) != [] && m.HomeOf(s, q).first == m.SettledOf(s, q)[0] && m.Settled(m.HomeOf(s, q).first)
  {
    var here := m.SettledOf(s, q);
    assert here != [] ==> here[0] in here;
  }
}
