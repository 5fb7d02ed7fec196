/** Open addressing with linear probing: `struct u64set` of src/decide.c.

    Where a probe starts, `hash(key) & (cap - 1)`, is a parameter: what is proved holds of every
    function of the key and the capacity that stays below the capacity. */
module HashSet {
  import opened Trees
  import Sorting

  type Slots = seq<Option<nat>>

  type Homing = f: (nat, nat) -> nat | forall k: nat, cap: nat :: 0 < cap ==> f(k, cap) < cap
    witness (k: nat, cap: nat) => 0

  /** Every slot from i round to j, j left out, is taken. */
  ghost predicate Filled(s: Slots, i: nat, j: nat)
    requires i < |s| && j < |s|
  {
    if i <= j then forall e :: i <= e < j ==> s[e].Some?
    else (forall e :: i <= e < |s| ==> s[e].Some?) && (forall e :: 0 <= e < j ==> s[e].Some?)
  }

  /** The slot e lies on the way from i round to j. */
  predicate OnTheWay(i: nat, j: nat, e: nat) {
    if i <= j then i <= e < j else i <= e || e < j
  }

  /** A table a probe can trust: `slot` is where each key sits, and no gap lies between a key and
      its home. */
  ghost predicate Probeable(s: Slots, home: Homing, slot: map<nat, nat>) {
    && 0 < |s|
    && (forall k :: k in slot ==> slot[k] < |s| && s[slot[k]] == Some(k))
    && (forall j :: 0 <= j < |s| && s[j].Some? ==> s[j].value in slot && slot[s[j].value] == j)
    && (forall k :: k in slot ==> Filled(s, home(k, |s|), slot[k]))
  }

  function Next(cap: nat, i: nat): (r: nat)
    requires i < cap
    ensures r < cap
  {
    if i + 1 == cap then 0 else i + 1
  }

  /** A probe that meets a gap before the key has shown the key is nowhere. */
  lemma GapMeansAbsent(s: Slots, home: Homing, slot: map<nat, nat>, k: nat, i: nat)
    requires Probeable(s, home, slot) && i < |s| && s[i].None?
    requires forall e :: 0 <= e < |s| && OnTheWay(home(k, |s|), i, e) ==> s[e] != Some(k)
    ensures k !in slot
  {
  }

  /** Filling the gap a probe ended at keeps the table trustworthy. */
  lemma FillGap(s: Slots, home: Homing, slot: map<nat, nat>, k: nat, i: nat)
    requires Probeable(s, home, slot) && i < |s| && s[i].None? && k !in slot
    requires Filled(s, home(k, |s|), i)
    ensures Probeable(s[i := Some(k)], home, slot[k := i])
  {
  }

  /** A table whose slots are all taken has a key for every slot. */
  lemma {:induction false} FullTable(s: Slots, slot: map<nat, nat>, i: nat) returns (keys: set<nat>)
    requires i <= |s| && forall j :: 0 <= j < |s| ==> s[j].Some? && s[j].value in slot && slot[s[j].value] == j
    ensures keys <= slot.Keys && |keys| == i && forall k :: k in keys ==> slot[k] < i
  {
    if i == 0 { keys := {}; } else {
      keys := FullTable(s, slot, i - 1);
      keys := keys + {s[i - 1].value};
    }
  }

  lemma OneMoreKey(elems: set<nat>, slot: map<nat, nat>, k: nat, i: nat)
    requires k !in elems && forall x :: x in elems <==> x in slot
    ensures |elems + {k}| == |elems| + 1 && forall x :: x in elems + {k} <==> x in slot[k := i]
  {
  }

  /** How far round it is from i to the gap z. */
  function Distance(cap: nat, i: nat, z: nat): nat
    requires i < cap && z < cap
  {
    if i <= z then z - i else z + cap - i
  }

  /** What `& (cap - 1)` needs to stand for the remainder. */
  predicate PowerOfTwo(n: nat) { n == 1 || (n > 1 && n % 2 == 0 && PowerOfTwo(n / 2)) }

  /** Sixteen slots, doubled until there are two for every key hinted at, and not once more. */
  method Capacity(hint: nat) returns (cap: nat)
    ensures 16 <= cap && PowerOfTwo(cap) && cap % 2 == 0 && 2 * hint <= cap && (cap == 16 || cap < 4 * hint)
  {
    cap := 16;
    while cap < hint * 2
      invariant 16 <= cap && PowerOfTwo(cap) && (cap == 16 || cap < 4 * hint)
      decreases hint * 2 - cap
    {
      cap := cap * 2;
    }
  }

  class U64Set {
    var keys: Slots
    var n: nat
    const home: Homing
    ghost var slot: map<nat, nat>
    ghost var elems: set<nat>  // the keys in the set

    ghost predicate Valid()
      reads this
    {
      && Probeable(keys, home, slot) && |elems| == n && (forall k :: k in elems <==> k in slot)
      && 16 <= |keys| && |keys| % 2 == 0 && n * 2 <= |keys|
    }

    /** `u64set_init`: sixteen slots, or twice the hint rounded up. */
    constructor (hint: nat, home: Homing)
      ensures Valid() && elems == {} && this.home == home
    {
      var cap := Capacity(hint);
      keys := seq(cap, _ => None);
      n, slot, elems := 0, map[], {};
      this.home := home;
    }

    /** Some slot is free while the table is at most half full. */
    lemma HasGap() returns (z: nat)
      requires Valid()
      ensures z < |keys| && keys[z].None?
    {
      if forall i :: 0 <= i < |keys| ==> keys[i].Some? {
        var all := FullTable(keys, slot, |keys|);
        Sorting.SubsetSize(all, elems);
      }
      z :| 0 <= z < |keys| && keys[z].None?;
    }

    /** The probe both `u64set_add` and `u64set_has` make. */
    method Probe(k: nat) returns (i: nat, found: bool)
      requires Valid()
      ensures i < |keys| && found == (k in elems)
      ensures !found ==> keys[i].None? && Filled(keys, home(k, |keys|), i)
    {
      ghost var z := HasGap();
      var first := home(k, |keys|);
      i := first;
      while keys[i].Some?
        invariant i < |keys| && Filled(keys, first, i)
        invariant forall e :: 0 <= e < |keys| && OnTheWay(first, i, e) ==> keys[e] != Some(k)
        invariant !OnTheWay(first, i, z)
        decreases Distance(|keys|, i, z)
      {
        if keys[i] == Some(k) { return i, true; }
        i := Next(|keys|, i);
      }
      GapMeansAbsent(keys, home, slot, k, i);
      found := false;
    }

    /** The insertion at the end of `u64set_add`, with room to spare. */
    method Insert(k: nat)
      requires Valid() && n * 2 < |keys|
      modifies this
      ensures Valid() && elems == old(elems) + {k} && |keys| == old(|keys|) && n <= old(n) + 1
    {
      hide Filled, Probeable;
      var i, found := Probe(k);
      if found {
        assert elems == elems + {k};
        return;
      }
      FillGap(keys, home, slot, k, i);
      OneMoreKey(elems, slot, k, i);
      keys := keys[i := Some(k)];
      n, slot, elems := n + 1, slot[k := i], elems + {k};
    }

    /** `u64set_grow`: every key again, into a table with twice the room. */
    method Grow()
      requires Valid()
      modifies this
      ensures Valid() && elems == old(elems) && n * 2 < |keys|
    {
      var before := keys;
      ghost var at, all := slot, elems;
      var cap := Capacity(|before|);
      keys := seq(cap, _ => None);
      n, slot, elems := 0, map[], {};
      Refill(before, at);
      assert elems == all;
    }

    /** Every key of the old table again. */
    method Refill(before: Slots, ghost at: map<nat, nat>)
      requires Valid() && elems == {} && n == 0 && 2 * |before| <= |keys| && 0 < |before|
      requires forall j :: 0 <= j < |before| && before[j].Some? ==> before[j].value in at && at[before[j].value] == j
      requires forall k :: k in at ==> at[k] < |before| && before[at[k]] == Some(k)
      modifies this
      ensures Valid() && |keys| == old(|keys|) && forall k :: k in elems <==> k in at
    {
      hide Valid;
      var cap := |keys|;
      for i := 0 to |before|
        invariant Valid() && |keys| == cap && n <= i
        invariant forall k :: k in elems <==> k in at && at[k] < i
      {
        if before[i].Some? { Insert(before[i].value); }
      }
    }

    /** `u64set_add`. */
    method Add(k: nat)
      requires Valid()
      modifies this
      ensures Valid() && elems == old(elems) + {k}
    {
      if n * 2 >= |keys| { Grow(); }
      Insert(k);
    }

    /** `u64set_has`. */
    method Has(k: nat) returns (b: bool)
      requires Valid()
      ensures b == (k in elems)
    {
      var i;
      i, b := Probe(k);
    }
  }
}
