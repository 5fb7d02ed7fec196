/** The tables of src/name.c: paths and inodes found by open addressing and numbered as they come, and
    the pools a walk files its names under. */
module Interning {
  import opened Trees
  import opened HashSet
  import opened Paths
  import opened Sorting

  const NONE := -1
  const HASH_MIN := 256
  const INO_MIN := 64

  /** Where each id's probe starts: from its key, and the capacity. */
  ghost function HomeOf<K(!new)>(ents: seq<K>, home: (K, nat) -> nat): (h: Homing)
    requires forall k: K, cap: nat :: 0 < cap ==> home(k, cap) < cap
    ensures forall id: nat, cap: nat :: id < |ents| ==> h(id, cap) == home(ents[id], cap)
  {
    (id: nat, cap: nat) => if id < |ents| then home(ents[id], cap) else 0
  }

  /** The hash of `struct zr_names`, and of `struct zr_inohash`: slots of ids, at most half of them
      taken, over keys that never repeat. */
  class Index<K(==,!new)> {
    const home: (K, nat) -> nat
    const least: nat  // slots of the first table
    var ents: seq<K>
    var slots: Slots
    ghost var slot: map<nat, nat>

    ghost predicate Homes() {
      least > 0 && least % 2 == 0 && forall k: K, cap: nat :: 0 < cap ==> home(k, cap) < cap
    }

    ghost predicate Valid()
      reads this
    {
      && Homes() && Distinct(ents) && (forall id: nat :: id in slot <==> id < |ents|)
      && (if |slots| == 0 then |ents| == 0 else Probeable(slots, HomeOf(ents, home), slot) && |slots| % 2 == 0 && 2 * |ents| <= |slots|)
    }

    constructor (home: (K, nat) -> nat, least: nat)
      requires least > 0 && least % 2 == 0
      requires forall k: K, cap: nat :: 0 < cap ==> home(k, cap) < cap
      ensures Valid() && ents == [] && this.home == home
    {
      this.home, this.least := home, least;
      ents, slots, slot := [], [], map[];
    }

    /** Some slot is free while the table is at most half full. */
    lemma HasGap() returns (z: nat)
      requires Valid() && 0 < |slots|
      ensures z < |slots| && slots[z].None?
    {
      if forall i :: 0 <= i < |slots| ==> slots[i].Some? {
        var all := FullTable(slots, slot, |slots|);
        AtMost(all, |ents|);
      }
      z :| 0 <= z < |slots| && slots[z].None?;
    }

    /** `zn_probe`, `zt_ino_probe`: the id of the key, or the free slot it would take. */
    method Probe(k: K) returns (i: nat, id: int)
      requires Valid() && 0 < |slots|
      ensures i < |slots| && (id == NONE || (0 <= id < |ents| && ents[id] == k))
      ensures id == NONE ==> k !in ents && slots[i].None? && Filled(slots, home(k, |slots|), i)
    {
      ghost var z := HasGap();
      var first := home(k, |slots|);
      i := first;
      while slots[i].Some?
        invariant i < |slots| && Filled(slots, first, i) && !OnTheWay(first, i, z)
        invariant forall e :: 0 <= e < |slots| && OnTheWay(first, i, e) && slots[e].Some? ==> slots[e].value < |ents| && ents[slots[e].value] != k
        decreases Distance(|slots|, i, z)
      {
        SlotId(i);
        if ents[slots[i].value] == k { return i, slots[i].value; }
        i := Next(|slots|, i);
      }
      id := NONE;
      Absent(k, i, first);
    }

    lemma SlotId(i: nat)
      requires Valid() && i < |slots| && slots[i].Some?
      ensures slots[i].value < |ents|
    {
    }

    lemma Absent(k: K, i: nat, first: nat)
      requires Valid() && i < |slots| && slots[i].None? && first == home(k, |slots|) && first < |slots|
      requires forall e :: 0 <= e < |slots| && OnTheWay(first, i, e) && slots[e].Some? ==> slots[e].value < |ents| && ents[slots[e].value] != k
      ensures k !in ents
    {
      hide Filled, Distinct;
      if k in ents {
        var id: nat :| id < |ents| && ents[id] == k;
        assert HomeOf(ents, home)(id, |slots|) == first;
        GapMeansAbsent(slots, HomeOf(ents, home), slot, id, i);
      }
    }

    /** `zr_names_lookup`. */
    method Find(k: K) returns (id: int)
      requires Valid()
      ensures if id == NONE then k !in ents else 0 <= id < |ents| && ents[id] == k
    {
      if |slots| == 0 { return NONE; }
      var i;
      i, id := Probe(k);
    }

    /** A probe over a table some ids are still missing from. */
    ghost predicate Partial(n: nat)
      reads this
    {
      && Homes() && Distinct(ents) && n <= |ents| && 0 < |slots| && 2 * n <= |slots|
      && (forall id: nat :: id in slot <==> id < n) && Probeable(slots, HomeOf(ents, home), slot)
    }

    lemma PartialGap(n: nat) returns (z: nat)
      requires Partial(n)
      ensures z < |slots| && slots[z].None?
    {
      if forall i :: 0 <= i < |slots| ==> slots[i].Some? {
        var all := FullTable(slots, slot, |slots|);
        AtMost(all, n);
      }
      z :| 0 <= z < |slots| && slots[z].None?;
    }

    /** The inner loop of `zn_grow_hash`: the next free slot takes the id. */
    method Refill(n: nat)
      requires Partial(n) && n < |ents| && 2 * (n + 1) <= |slots|
      modifies this`slots, this`slot
      ensures Partial(n + 1) && |slots| == old(|slots|)
    {
      ghost var z := PartialGap(n);
      var first: nat := home(ents[n], |slots|);
      assert first < |slots|;
      var i: nat := first;
      while slots[i].Some?
        invariant i < |slots| && Filled(slots, first, i) && !OnTheWay(first, i, z)
        decreases Distance(|slots|, i, z)
      {
        i := Next(|slots|, i);
      }
      assert HomeOf(ents, home)(n, |slots|) == first;
      FillGap(slots, HomeOf(ents, home), slot, n, i);
      slots := slots[i := Some(n)];
      slot := slot[n := i];
    }

    /** `zn_grow_hash`, `zt_ino_grow`: twice the room when one more key would pass half full. */
    method Grow()
      requires Valid()
      modifies this`slots, this`slot
      ensures Valid() && ents == old(ents) && 2 * (|ents| + 1) <= |slots|
    {
      if 2 * (|ents| + 1) <= |slots| { return; }
      var cap := if |slots| != 0 then |slots| * 2 else least;
      slots := seq(cap, _ => None);
      slot := map[];
      for n: nat := 0 to |ents|
        invariant Partial(n) && |slots| == cap && ents == old(ents)
      {
        Refill(n);
      }
    }

    /** `zr_names_intern`: a key already there keeps its id, a new one takes the next. */
    method Intern(k: K) returns (id: nat)
      requires Valid()
      modifies this
      ensures Valid() && id < |ents| && ents[id] == k
      ensures ents == if k in old(ents) then old(ents) else old(ents) + [k]
    {
      hide Probeable, Filled, Distinct;
      var was := Find(k);
      if was != NONE { return was; }
      Grow();
      var i, none := Probe(k);
      NewIndex(k, i);
      id := |ents|;
      slots := slots[i := Some(id)];
      slot := slot[id := i];
      ents := ents + [k];
    }

    lemma NewIndex(k: K, i: nat)
      requires Valid() && 2 * (|ents| + 1) <= |slots| && k !in ents && i < |slots| && slots[i].None? && Filled(slots, home(k, |slots|), i)
      ensures Distinct(ents + [k]) && Probeable(slots[i := Some(|ents|)], HomeOf(ents + [k], home), slot[|ents| := i])
    {
      var ents' := ents + [k];
      assert forall id: nat :: id in slot ==> HomeOf(ents', home)(id, |slots|) == HomeOf(ents, home)(id, |slots|);
      assert Probeable(slots, HomeOf(ents', home), slot);
      FillGap(slots, HomeOf(ents', home), slot, |ents|, i);
    }
  }

  // ----- pools

  /** `struct zr_pool` before its content is known. */
  datatype Rec = Rec(kind: Kind, nlink: nat, names: seq<nat>)

  /** Every pool has names, each its own; a directory has one; `byName` is the way back. */
  ghost predicate PoolsRight(recs: seq<Rec>, byName: map<nat, nat>, n: nat) {
    && (forall x :: x in byName ==> x < n && byName[x] < |recs| && x in recs[byName[x]].names)
    && (forall q :: 0 <= q < |recs| ==> RecRight(recs, byName, q))
  }

  ghost predicate RecRight(recs: seq<Rec>, byName: map<nat, nat>, q: nat)
    requires q < |recs|
  {
    && recs[q].names != [] && Distinct(recs[q].names)
    && (forall x :: x in recs[q].names ==> x in byName && byName[x] == q)
    && (recs[q].kind == Directory ==> |recs[q].names| == 1)
  }

  lemma AddToPool(recs: seq<Rec>, byName: map<nat, nat>, n: nat, q: nat, x: nat)
    requires PoolsRight(recs, byName, n) && q < |recs| && x < n && x !in byName && recs[q].kind != Directory
    ensures PoolsRight(recs[q := recs[q].(names := recs[q].names + [x])], byName[x := q], n)
  {
    var recs', byName' := recs[q := recs[q].(names := recs[q].names + [x])], byName[x := q];
    forall p | 0 <= p < |recs'| ensures RecRight(recs', byName', p) { assert RecRight(recs, byName, p); }
  }

  lemma AddPool(recs: seq<Rec>, byName: map<nat, nat>, n: nat, x: nat, kind: Kind, nlink: nat)
    requires PoolsRight(recs, byName, n) && x < n && x !in byName
    ensures PoolsRight(recs + [Rec(kind, nlink, [x])], byName[x := |recs|], n)
  {
    var recs', byName' := recs + [Rec(kind, nlink, [x])], byName[x := |recs|];
    forall p | 0 <= p < |recs'| ensures RecRight(recs', byName', p) { if p < |recs| { assert RecRight(recs, byName, p); } }
  }

  /** `zr_tree_seal`: the names of every pool in id order. */
  function Sealed(recs: seq<Rec>): (r: seq<Rec>)
    ensures |r| == |recs| && forall q :: 0 <= q < |recs| ==> r[q] == recs[q].(names := Ascend(recs[q].names))
  {
    seq(|recs|, q requires 0 <= q < |recs| => recs[q].(names := Ascend(recs[q].names)))
  }

  predicate IdLe(x: nat, y: nat) { x <= y }

  lemma IdOrder()
    ensures TotalOrder(IdLe)
  {
  }

  function Ascend(names: seq<nat>): (r: seq<nat>)
    ensures |r| == |names| && forall x :: x in r <==> x in names
  {
    IdOrder();
    Sort(IdLe, names)
  }

  lemma AscendAscends(names: seq<nat>)
    requires Distinct(names)
    ensures Ascending(Ascend(names))
  {
    IdOrder();
    SortKeepsDistinct(IdLe, names);
    var r := Sort(IdLe, names);
    forall i, j | 0 <= i < j < |r| ensures r[i] < r[j] { assert IdLe(r[i], r[j]); }
  }

  /** A sealed tree, its contents read, is what the decision is given: `Trees.Tree.Valid`. */
  lemma SealedIsValid(recs: seq<Rec>, byName: map<nat, nat>, n: nat, contents: seq<Content>)
    requires PoolsRight(recs, byName, n) && |contents| == |recs| && forall q :: 0 <= q < |recs| ==> contents[q].kind == recs[q].kind
    ensures TreeOf(Sealed(recs), byName, contents).Valid(n)
  {
    var g := TreeOf(Sealed(recs), byName, contents);
    forall q | 0 <= q < |g.pools| ensures g.PoolValid(q) {
      assert RecRight(recs, byName, q);
      AscendAscends(recs[q].names);
    }
  }

  function TreeOf(recs: seq<Rec>, byName: map<nat, nat>, contents: seq<Content>): (g: Tree)
    requires |contents| == |recs|
  {
    Tree(seq(|recs|, q requires 0 <= q < |recs| => Pool(recs[q].names, contents[q])), byName)
  }

  /** `struct zr_tree`, while the walk adds to it. */
  class Builder {
    const names: Index<Path>
    const inos: Index<nat>
    var recs: seq<Rec>
    var byName: map<nat, nat>
    var shut: bool

    /** One pool to an inode: pool q is that of the q-th inode seen. */
    ghost predicate Valid()
      reads this, names, inos
    {
      names.Valid() && inos.Valid() && |inos.ents| == |recs| && PoolsRight(recs, byName, |names.ents|)
    }

    constructor (names: Index<Path>, inos: Index<nat>)
      requires names.Valid() && inos.Valid() && inos.ents == []
      ensures Valid() && this.names == names && this.inos == inos && recs == [] && byName == map[] && !shut
    {
      this.names, this.inos := names, inos;
      recs, byName, shut := [], map[], false;
    }

    /** Why `zr_tree_add` would refuse: sealed, no such name, a name filed already, an inode seen with
        another type or link count, or a directory with a second name. */
    ghost predicate Refuses(x: int, ino: nat, kind: Kind, nlink: nat)
      reads this, names, inos
      requires |inos.ents| == |recs|
    {
      || shut || x < 0 || x >= |names.ents| || x in byName
      || (exists q: nat :: q < |recs| && inos.ents[q] == ino && (recs[q].kind != kind || recs[q].nlink != nlink || kind == Directory))
    }

    /** `zr_tree_add`: the name joins its inode's pool, or opens one. */
    method Add(x: int, ino: nat, kind: Kind, nlink: nat) returns (q: int)
      requires Valid()
      modifies this`recs, this`byName, inos
      ensures Valid() && (q == NONE <==> old(Refuses(x, ino, kind, nlink)))
      ensures q == NONE ==> recs == old(recs) && byName == old(byName) && inos.ents == old(inos.ents)
      ensures q != NONE ==> 0 <= q < |recs| && inos.ents[q] == ino && 0 <= x && byName == old(byName)[x := q]
      ensures q != NONE ==> recs == if q < |old(recs)| then old(recs)[q := old(recs)[q].(names := old(recs)[q].names + [x])]
                                    else old(recs) + [Rec(kind, nlink, [x])]
    {
      hide PoolsRight, Index.Valid;
      if shut || x < 0 || x >= |names.ents| || x in byName { return NONE; }
      var was := inos.Find(ino);
      OneIndex(was, ino);
      if was != NONE {
        var p := recs[was];
        if p.kind != kind || p.nlink != nlink || kind == Directory { return NONE; }
        AddToPool(recs, byName, |names.ents|, was, x);
        recs := recs[was := p.(names := p.names + [x])];
        byName := byName[x := was];
        return was;
      }
      AddPool(recs, byName, |names.ents|, x, kind, nlink);
      var idx := inos.Intern(ino);
      q := |recs|;
      recs := recs + [Rec(kind, nlink, [x])];
      byName := byName[x := q];
    }

    /** An inode has one index. */
    lemma OneIndex(was: int, ino: nat)
      requires Valid() && if was == NONE then ino !in inos.ents else 0 <= was < |inos.ents| && inos.ents[was] == ino
      ensures forall q: nat :: q < |recs| && inos.ents[q] == ino ==> q == was
    {
    }

    /** `zr_tree_seal`. */
    method Seal()
      requires Valid()
      modifies this`recs, this`shut
      ensures recs == Sealed(old(recs)) && shut
    {
      hide Ascend, PoolsRight;
      var r: seq<Rec> := [];
      for i := 0 to |recs|
        invariant |r| == i && forall q :: 0 <= q < i ==> r[q] == recs[q].(names := Ascend(recs[q].names))
      {
        r := r + [recs[i].(names := Ascend(recs[i].names))];
      }
      assert r == Sealed(recs);
      recs, shut := r, true;
    }

    /** `zr_tree_verify`: every link the file system counts was met under a name. */
    method Verify() returns (ok: bool)
      requires Valid()
      ensures ok <==> forall q :: 0 <= q < |recs| ==> recs[q].kind == Directory || |recs[q].names| == recs[q].nlink
    {
      for i := 0 to |recs|
        invariant forall q :: 0 <= q < i ==> recs[q].kind == Directory || |recs[q].names| == recs[q].nlink
      {
        if recs[i].kind == Directory {
          OneName(i);
        } else if |recs[i].names| != recs[i].nlink {
          return false;
        }
      }
      ok := true;
    }

    lemma OneName(q: nat)
      requires Valid() && q < |recs| && recs[q].kind == Directory
      ensures |recs[q].names| == 1
    {
      assert RecRight(recs, byName, q);
    }
  }
}
