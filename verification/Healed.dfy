/** `heal_side` and `pass_healed` of src/decide.c: the sort by class and the backward sweep answer,
    for every settled name of a base pool, what comparing every pair would. */
module Healed {
  import opened Trees
  import opened MergeSpec
  import opened ContentSpec
  import opened Context
  import opened Classes
  import opened Sorting

  /** `struct heal_ent`: one settled name of a base pool, on one side's face. */
  datatype Row = Row(klass: int, pos: nat, q: nat, x: nat)

  predicate RowLe(a: Row, b: Row) {
    a.klass < b.klass || (a.klass == b.klass && a.pos <= b.pos)
  }

  predicate Parted(a: Row, b: Row) { a.klass == b.klass && a.q != b.q }

  // ----- the simple form: every pair, in pool order

  function FirstParted(rows: seq<Row>, i: nat, j: nat): Option<nat>
    requires i < |rows|
    decreases |rows| - j
  {
    if j >= |rows| then None
    else if Parted(rows[i], rows[j]) then Some(rows[j].x)
    else FirstParted(rows, i, j + 1)
  }

  /** Every name with the first later name it was parted from, in pool order. */
  function AllPairs(rows: seq<Row>, i: nat): seq<(nat, nat)>
    requires i <= |rows|
    decreases |rows| - i
  {
    if i == |rows| then [] else
    (match FirstParted(rows, i, i + 1) case Some(y) => [(rows[i].x, y)] case None => []) + AllPairs(rows, i + 1)
  }

  lemma {:induction false} FirstPartedFinds(rows: seq<Row>, i: nat, j: nat, k: nat)
    requires i < |rows| && j <= k < |rows| && Parted(rows[i], rows[k])
    requires forall l :: j <= l < k ==> !Parted(rows[i], rows[l])
    ensures FirstParted(rows, i, j) == Some(rows[k].x)
    decreases k - j
  {
    if j < k { FirstPartedFinds(rows, i, j + 1, k); }
  }

  lemma {:induction false} FirstPartedMisses(rows: seq<Row>, i: nat, j: nat)
    requires i < |rows| && forall l :: j <= l < |rows| ==> !Parted(rows[i], rows[l])
    ensures FirstParted(rows, i, j) == None
    decreases |rows| - j
  {
    if j < |rows| { FirstPartedMisses(rows, i, j + 1); }
  }

  // ----- the fast form: the sweep over the rows sorted by class

  function Sweep(ents: seq<Row>, e: nat): Option<nat>
    requires e < |ents|
    decreases |ents| - e
  {
    if e + 1 == |ents| || ents[e + 1].klass != ents[e].klass then None
    else if ents[e + 1].q != ents[e].q then Some(ents[e + 1].x)
    else Sweep(ents, e + 1)
  }

  /** Where the sweep from e stops: at the first parted row of the run, or after the run. */
  lemma {:induction false} SweepStops(ents: seq<Row>, e: nat) returns (k: nat)
    requires e < |ents| && SortedBy(RowLe, ents)
    ensures e < k <= |ents|
    ensures forall l :: e <= l < k ==> ents[l].klass == ents[e].klass && ents[l].q == ents[e].q
    ensures k < |ents| && Parted(ents[e], ents[k]) ==> Sweep(ents, e) == Some(ents[k].x)
    ensures !(k < |ents| && Parted(ents[e], ents[k])) ==>
              Sweep(ents, e) == None && forall l :: k <= l < |ents| ==> ents[l].klass != ents[e].klass
    decreases |ents| - e
  {
    k := e + 1;
    if k < |ents| && ents[k].klass == ents[e].klass && ents[k].q == ents[e].q {
      k := SweepStops(ents, e + 1);
    } else if k < |ents| && ents[k].klass != ents[e].klass {
      forall l | k <= l < |ents| ensures ents[l].klass != ents[e].klass {
        assert RowLe(ents[e], ents[k]) && (l == k || RowLe(ents[k], ents[l]));
      }
    }
  }

  ghost predicate Positioned(rows: seq<Row>) {
    forall i :: 0 <= i < |rows| ==> rows[i].pos == i
  }

  /** ents is rows in the order of the sort. */
  ghost predicate Rearranged(rows: seq<Row>, ents: seq<Row>) {
    && Positioned(rows) && SortedBy(RowLe, ents)
    && |ents| == |rows|
    && (forall e :: 0 <= e < |ents| ==> ents[e].pos < |rows| && rows[ents[e].pos] == ents[e])
    && (forall i :: 0 <= i < |rows| ==> exists e :: 0 <= e < |ents| && ents[e] == rows[i])
    && (forall d, e :: 0 <= d < e < |ents| ==> ents[d].pos != ents[e].pos)
  }

  lemma SortRearranges(rows: seq<Row>)
    requires Positioned(rows)
    ensures Rearranged(rows, Sort(RowLe, rows))
  {
    var ents := Sort(RowLe, rows);
    SortKeepsDistinct(RowLe, rows);
    forall e | 0 <= e < |ents| ensures ents[e].pos < |rows| && rows[ents[e].pos] == ents[e] {
      assert ents[e] in ents;
    }
    forall i | 0 <= i < |rows| ensures exists e :: 0 <= e < |ents| && ents[e] == rows[i] {
      assert rows[i] in ents;
    }
    forall d, e | 0 <= d < e < |ents| ensures ents[d].pos != ents[e].pos {
      assert ents[d] != ents[e];
    }
  }

  lemma Ordered(ents: seq<Row>, d: nat, e: nat)
    requires SortedBy(RowLe, ents) && d < e < |ents|
    ensures RowLe(ents[d], ents[e])
  {
  }

  /** No row of the pool between a row and where its sweep stopped is parted from it. */
  lemma NothingBefore(rows: seq<Row>, ents: seq<Row>, e: nat, k: nat, l: nat)
    requires Rearranged(rows, ents) && e < k <= |ents| && l < |rows|
    requires forall d :: e <= d < k ==> ents[d].q == ents[e].q
    requires forall d :: k <= d < |ents| && ents[d].klass == ents[e].klass ==> l < ents[d].pos
    requires ents[e].pos < l
    ensures !Parted(rows[ents[e].pos], rows[l])
  {
    var d :| 0 <= d < |ents| && ents[d] == rows[l];
    Between(ents, e, d);
  }

  /** The sweep's answer for a row is the all-pairs answer. */
  lemma SweepIsFirstParted(rows: seq<Row>, ents: seq<Row>, e: nat)
    requires Rearranged(rows, ents) && e < |ents|
    ensures Sweep(ents, e) == FirstParted(rows, ents[e].pos, ents[e].pos + 1)
  {
    hide SortedBy;
    var i := ents[e].pos;
    var k := SweepStops(ents, e);
    if k < |ents| && Parted(ents[e], ents[k]) {
      var j := ents[k].pos;
      Ordered(ents, e, k);
      forall l | i + 1 <= l < j ensures !Parted(rows[i], rows[l]) {
        forall d | k <= d < |ents| && ents[d].klass == ents[e].klass ensures l < ents[d].pos {
          if k < d { Ordered(ents, k, d); }
        }
        NothingBefore(rows, ents, e, k, l);
      }
      FirstPartedFinds(rows, i, i + 1, j);
    } else {
      forall l | i + 1 <= l < |rows| ensures !Parted(rows[i], rows[l]) {
        NothingBefore(rows, ents, e, k, l);
      }
      FirstPartedMisses(rows, i, i + 1);
    }
  }

  lemma Between(ents: seq<Row>, d: nat, k: nat)
    requires SortedBy(RowLe, ents) && d < |ents| && k < |ents|
    ensures ents[d].klass == ents[k].klass && ents[d].pos < ents[k].pos ==> d < k
  {
    if k < d { assert RowLe(ents[k], ents[d]); }
  }

  /** One run of one class, swept from its end: every row's answer goes to its position. */
  method SweepRun(ents: seq<Row>, i: nat, run: nat, part: array<Option<nat>>)
    requires i < run <= |ents| && part.Length == |ents|
    requires forall e :: 0 <= e < |ents| ==> ents[e].pos < part.Length
    requires forall d, e :: 0 <= d < e < |ents| ==> ents[d].pos != ents[e].pos
    requires forall e :: i <= e < run ==> ents[e].klass == ents[i].klass
    requires run < |ents| ==> ents[run].klass != ents[i].klass
    modifies part
    ensures forall e :: i <= e < run ==> part[ents[e].pos] == Sweep(ents, e)
    ensures forall e :: 0 <= e < i ==> part[ents[e].pos] == old(part[ents[e].pos])
  {
    var last := run - 1;
    part[ents[last].pos] := None;
    while last > i
      invariant i <= last < run
      invariant forall e :: last <= e < run ==> part[ents[e].pos] == Sweep(ents, e)
      invariant forall e :: 0 <= e < i ==> part[ents[e].pos] == old(part[ents[e].pos])
    {
      last := last - 1;
      part[ents[last].pos] :=
        if ents[last + 1].q != ents[last].q then Some(ents[last + 1].x) else part[ents[last + 1].pos];
    }
  }

  /** The backward sweep over every run of one class. */
  method SweepAll(ents: seq<Row>) returns (part: array<Option<nat>>)
    requires forall e :: 0 <= e < |ents| ==> ents[e].pos < |ents|
    requires forall d, e :: 0 <= d < e < |ents| ==> ents[d].pos != ents[e].pos
    ensures fresh(part) && part.Length == |ents|
    ensures forall e :: 0 <= e < |ents| ==> part[ents[e].pos] == Sweep(ents, e)
  {
    var cnt := |ents|;
    part := new Option<nat>[cnt](_ => None);
    var i := 0;
    while i < cnt
      invariant 0 <= i <= cnt
      invariant forall e :: 0 <= e < i ==> part[ents[e].pos] == Sweep(ents, e)
    {
      var run := i + 1;
      while run < cnt && ents[run].klass == ents[i].klass
        invariant i < run <= cnt
        invariant forall e :: i <= e < run ==> ents[e].klass == ents[i].klass
      {
        run := run + 1;
      }
      SweepRun(ents, i, run, part);
      i := run;
    }
  }

  lemma RowAnswered(rows: seq<Row>, ents: seq<Row>, j: nat) returns (e: nat)
    requires Rearranged(rows, ents) && j < |rows|
    ensures e < |ents| && ents[e].pos == j && Sweep(ents, e) == FirstParted(rows, j, j + 1)
  {
    e :| 0 <= e < |ents| && ents[e] == rows[j];
    SweepIsFirstParted(rows, ents, e);
  }

  /** The answers, in pool order. */
  method InPoolOrder(rows: seq<Row>, part: array<Option<nat>>) returns (out: seq<(nat, nat)>)
    requires part.Length == |rows|
    requires forall j :: 0 <= j < |rows| ==> part[j] == FirstParted(rows, j, j + 1)
    ensures out == AllPairs(rows, 0)
  {
    out := [];
    for j := 0 to |rows|
      invariant out + AllPairs(rows, j) == AllPairs(rows, 0)
    {
      if part[j].Some? { out := out + [(rows[j].x, part[j].value)]; }
    }
  }

  /** The fast form equals the simple one: same names, same partners, in pool order. */
  method PairUp(rows: seq<Row>) returns (out: seq<(nat, nat)>)
    requires Positioned(rows)
    ensures out == AllPairs(rows, 0)
  {
    var ents := Sort(RowLe, rows);
    SortRearranges(rows);
    var part := SweepAll(ents);
    forall j: nat | j < |rows| ensures part[j] == FirstParted(rows, j, j + 1) {
      var e := RowAnswered(rows, ents, j);
    }
    out := InPoolOrder(rows, part);
  }

  // ----- the pass

  /** The rows of the settled names among the first i of a base pool, on side s. */
  ghost predicate RowsOf(m: Merge, klass: seq<int>, names: seq<nat>, s: Side, rows: seq<Row>, i: nat)
    requires m.Valid() && |klass| == m.n && i <= |names|
  {
    && Positioned(rows)
    && (forall r :: r in rows ==> r.x in names[..i] && r.x < m.n && m.Settled(r.x) && m.On(s, r.x) &&
                                  r.klass == klass[r.x] && r.q == m.At(s, r.x))
    && (forall j, k :: 0 <= j < k < |rows| ==> rows[j].x < rows[k].x)
    && (forall x :: x in names[..i] && m.Settled(x) ==> exists j :: 0 <= j < |rows| && rows[j].x == x)
  }

  lemma {:induction false} AllPairsSound(rows: seq<Row>, i: nat, a: nat, b: nat)
    requires i <= |rows| && (a, b) in AllPairs(rows, i)
    ensures exists j, k :: i <= j < k < |rows| && rows[j].x == a && rows[k].x == b && Parted(rows[j], rows[k])
    decreases |rows| - i
  {
    var y := FirstParted(rows, i, i + 1);
    if y == Some(b) && a == rows[i].x {
      FirstPartedIs(rows, i, i + 1, b);
    } else {
      AllPairsSound(rows, i + 1, a, b);
    }
  }

  lemma {:induction false} FirstPartedIs(rows: seq<Row>, i: nat, j: nat, y: nat)
    requires i < |rows| && FirstParted(rows, i, j) == Some(y)
    ensures exists k :: j <= k < |rows| && rows[k].x == y && Parted(rows[i], rows[k])
    decreases |rows| - j
  {
    if j < |rows| && !Parted(rows[i], rows[j]) { FirstPartedIs(rows, i, j + 1, y); }
  }

  lemma {:induction false} AllPairsComplete(rows: seq<Row>, i: nat, j: nat, k: nat) returns (b: nat)
    requires i <= j < k < |rows| && Parted(rows[j], rows[k])
    ensures (rows[j].x, b) in AllPairs(rows, i)
    decreases j - i
  {
    if i < j {
      b := AllPairsComplete(rows, i + 1, j, k);
    } else {
      if FirstParted(rows, i, i + 1).None? { FirstPartedNone(rows, i, i + 1, k); }
      b := FirstParted(rows, i, i + 1).value;
    }
  }

  lemma {:induction false} FirstPartedNone(rows: seq<Row>, i: nat, j: nat, k: nat)
    requires i < |rows| && j <= k < |rows| && FirstParted(rows, i, j).None?
    ensures !Parted(rows[i], rows[k])
    decreases k - j
  {
    if j < k { FirstPartedNone(rows, i, j + 1, k); }
  }

  lemma RowsGrow(m: Merge, klass: seq<int>, p: nat, s: Side, rows: seq<Row>, i: nat)
    requires m.Valid() && |klass| == m.n && p < |m.base.pools|
    requires var names := m.base.pools[p].names; i < |names| && RowsOf(m, klass, names, s, rows, i) && names[i] < m.n
    ensures var names := m.base.pools[p].names; var x := names[i];
      if m.Settled(x) && m.On(s, x) then RowsOf(m, klass, names, s, rows + [Row(klass[x], |rows|, m.At(s, x), x)], i + 1)
      else !m.Settled(x) ==> RowsOf(m, klass, names, s, rows, i + 1)
  {
    var names := m.base.pools[p].names;
    var x := names[i];
    assert Ascending(names) by { assert m.base.PoolValid(p); }
    hide Merge.Valid;
    assert names[..i + 1] == names[..i] + [x];
    if m.Settled(x) && m.On(s, x) {
      var after := rows + [Row(klass[x], |rows|, m.At(s, x), x)];
      forall r | r in rows ensures r.x < x {
        var j :| 0 <= j < i && names[j] == r.x;
      }
      forall y | y in names[..i + 1] && m.Settled(y) ensures exists j :: 0 <= j < |after| && after[j].x == y {
        if y == x {
          assert after[|rows|].x == x;
        } else {
          var j :| 0 <= j < |rows| && rows[j].x == y;
          assert after[j].x == y;
        }
      }
    }
  }

  method RowsFor(c: Ctx, p: nat, s: Side) returns (rows: seq<Row>)
    requires c.Named() && p < |c.m.base.pools|
    ensures RowsOf(c.m, c.klass[..], c.m.base.pools[p].names, s, rows, |c.m.base.pools[p].names|)
  {
    var names := c.m.base.pools[p].names;
    assert c.m.base.PoolValid(p);
    rows := [];
    for i: nat := 0 to |names|
      invariant RowsOf(c.m, c.klass[..], names, s, rows, i)
    {
      var x := names[i];
      assert x in names;
      RowsGrow(c.m, c.klass[..], p, s, rows, i);
      if c.Settled(x) { rows := rows + [Row(c.klass[x], |rows|, c.m.At(s, x), x)]; }
    }
  }

  lemma PairsAreHealed(m: Merge, klass: seq<int>, nclass: int, p: nat, s: Side, rows: seq<Row>, a: nat, b: nat)
    requires m.Valid() && Classed(m, klass, nclass) && p < |m.base.pools|
    requires RowsOf(m, klass, m.base.pools[p].names, s, rows, |m.base.pools[p].names|)
    requires (a, b) in AllPairs(rows, 0)
    ensures m.HealedPair(s, a, b) && m.Origin(a) == p
  {
    var names := m.base.pools[p].names;
    assert forall x :: x in names ==> m.InBase(x) && m.Origin(x) == p by { assert m.base.PoolValid(p); }
    hide Merge.SameClass, RowsOf, Merge.Valid, Classed;
    AllPairsSound(rows, 0, a, b);
    var j, k :| 0 <= j < k < |rows| && rows[j].x == a && rows[k].x == b && Parted(rows[j], rows[k]);
    RowsArePair(m, klass, nclass, s, names, rows, j, k);
    assert a in names && b in names;
  }

  lemma RowsArePair(m: Merge, klass: seq<int>, nclass: int, s: Side, names: seq<nat>, rows: seq<Row>, j: nat, k: nat)
    requires m.Valid() && Classed(m, klass, nclass) && RowsOf(m, klass, names, s, rows, |names|)
    requires j < k < |rows| && Parted(rows[j], rows[k])
    ensures var a, b := rows[j].x, rows[k].x;
      && a in names && b in names && a < b < m.n && m.Settled(a) && m.Settled(b) && m.On(s, a) && m.On(s, b)
      && m.At(s, a) != m.At(s, b) && m.SameClass(a, b)
  {
    assert rows[j] in rows && rows[k] in rows && names[..|names|] == names;
  }

  lemma HealedHasPair(m: Merge, klass: seq<int>, nclass: int, p: nat, s: Side, rows: seq<Row>, a: nat, b: nat)
    returns (y: nat)
    requires m.Valid() && Classed(m, klass, nclass) && p < |m.base.pools|
    requires RowsOf(m, klass, m.base.pools[p].names, s, rows, |m.base.pools[p].names|)
    requires m.HealedPair(s, a, b) && m.Origin(a) == p
    ensures (a, y) in AllPairs(rows, 0)
  {
    var names := m.base.pools[p].names;
    assert m.base.PoolValid(p) && names[..|names|] == names;
    assert a in names && b in names;
    var j :| 0 <= j < |rows| && rows[j].x == a;
    var k :| 0 <= k < |rows| && rows[k].x == b;
    assert rows[j] in rows && rows[k] in rows;
    y := AllPairsComplete(rows, 0, j, k);
  }

  /** What the pools of base below p add to the flags, and pool p on side s. */
  ghost predicate HealedBy(m: Merge, s: Side, p: nat, x: nat)
    requires m.Valid()
  {
    m.InBase(x) && m.Origin(x) == p && exists b :: m.HealedPair(s, x, b)
  }

  method HealSide(c: Ctx, nclass: int, p: nat, s: Side)
    requires c.FlagsKept() && Classed(c.m, c.klass[..], nclass) && p < |c.m.base.pools|
    modifies c`flags, c`raised, c.pnode
    ensures c.FlagsKept() && c.klass[..] == old(c.klass[..])
    ensures forall x: nat, e :: (x, e) in c.raised <==> (x, e) in old(c.raised) || (e == HealedSplit && HealedBy(c.m, s, p, x))
  {
    var rows := RowsFor(c, p, s);
    var out := PairUp(rows);
    forall a: nat, b: nat | (a, b) in out ensures c.m.HealedPair(s, a, b) && c.m.Origin(a) == p {
      PairsAreHealed(c.m, c.klass[..], nclass, p, s, rows, a, b);
    }
    forall a: nat, b: nat | c.m.HealedPair(s, a, b) && c.m.Origin(a) == p ensures exists y: nat :: (a, y) in out {
      var y := HealedHasPair(c.m, c.klass[..], nclass, p, s, rows, a, b);
    }
    FlagPairs(c, out, s);
  }

  method FlagPairs(c: Ctx, out: seq<(nat, nat)>, ghost s: Side)
    requires c.FlagsKept() && forall a, b :: (a, b) in out ==> c.m.HealedPair(s, a, b)
    modifies c`flags, c`raised, c.pnode
    ensures c.FlagsKept() && c.klass[..] == old(c.klass[..])
    ensures forall x: nat, e :: (x, e) in c.raised <==>
      (x, e) in old(c.raised) || (e == HealedSplit && exists b :: (x, b) in out)
  {
    for i := 0 to |out|
      invariant c.FlagsKept()
      invariant forall x: nat, e :: (x, e) in c.raised <==>
        (x, e) in old(c.raised) || (e == HealedSplit && exists b :: (x, b) in out[..i])
    {
      assert out[i] in out && out[i] == (out[i].0, out[i].1) && out[..i + 1] == out[..i] + [out[i]];
      assert c.m.HealedPair(s, out[i].0, out[i].1);
      c.Flag(out[i].0, HealedSplit);
    }
    assert out[..|out|] == out;
  }

  method PassHealed(c: Ctx, nclass: int)
    requires c.FlagsKept() && Classed(c.m, c.klass[..], nclass)
    modifies c`flags, c`raised, c.pnode
    ensures c.FlagsKept() && c.klass[..] == old(c.klass[..])
    ensures Raises(c.m, old(c.raised), c.raised, HealedSplit, (x: nat) => c.m.HealedAt(x))
  {
    for p: nat := 0 to |c.m.base.pools|
      invariant c.FlagsKept() && c.klass[..] == old(c.klass[..])
      invariant forall x: nat, e :: (x, e) in c.raised <==>
        (x, e) in old(c.raised) || (e == HealedSplit && exists s, q: nat :: q < p && HealedBy(c.m, s, q, x))
    {
      HealSide(c, nclass, p, From);
      HealSide(c, nclass, p, Onto);
    }
    forall x: nat ensures c.m.HealedAt(x) <==> exists s, q: nat :: q < |c.m.base.pools| && HealedBy(c.m, s, q, x) {
      if c.m.HealedAt(x) {
        var s, b :| c.m.HealedPair(s, x, b);
        assert HealedBy(c.m, s, c.m.Origin(x), x);
      }
    }
    RaisesEach(c.m, old(c.raised), c.raised, HealedSplit, (x: nat) => c.m.HealedAt(x));
  }
}
