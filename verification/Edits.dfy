/** The rest of the editor: what every name needs, and the edit of the directory itself. */
module Edits {
  import opened Trees
  import opened Editor
  import Sorting

  /** A claim in force, as `fx_ed_claim` leaves it. */
  ghost predicate Claimed(e: Edit, claim: seq<int>) { e.Valid() && ClaimRight(e, claim) }

  /** The name is already on the object its pool keeps. */
  predicate Kept(e: Edit, claim: seq<int>, i: nat)
    requires i < |e.ents| == |claim| && e.ents[i].pool < |claim|
  {
    e.Dp(i) != NONE && e.Dp(i) == claim[e.ents[i].pool]
  }

  lemma PoolBelow(e: Edit, claim: seq<int>, i: nat)
    requires Claimed(e, claim) && i < |e.ents|
    ensures |claim| == |e.ents| == |e.goal| && e.ents[i].pool <= i && e.Owner(e.ents[i].pool)
    ensures e.Dp(i) == NONE || 0 <= e.Dp(i) < |e.w.pools|
  {
    assert e.EntryValid(i);
  }

  // ----- representatives

  /** The first entry of pool o from i on whose name is on object d. */
  function FirstOn(e: Edit, o: nat, d: int, i: nat): (r: nat)
    requires i <= |e.ents|
    ensures i <= r <= |e.ents| && (r < |e.ents| ==> e.ents[r].pool == o && e.Dp(r) == d)
    ensures forall k :: i <= k < r ==> e.ents[k].pool != o || e.Dp(k) != d
    decreases |e.ents| - i
  {
    if i == |e.ents| then i
    else if e.ents[i].pool == o && e.Dp(i) == d then i
    else FirstOn(e, o, d, i + 1)
  }

  /** `ed_rep`: what the rest of the pool is linked to. */
  function Rep(e: Edit, claim: seq<int>, o: nat): (r: nat)
    requires o < |claim| == |e.ents|
  {
    if claim[o] == NONE then o else FirstOn(e, o, claim[o], 0)
  }

  lemma RepRight(e: Edit, claim: seq<int>, o: nat)
    requires Claimed(e, claim) && o < |e.ents| && e.Owner(o)
    ensures |claim| == |e.ents| == |e.goal|
    ensures Rep(e, claim, o) < |e.ents| && e.ents[Rep(e, claim, o)].pool == o
    ensures claim[o] != NONE ==> 0 <= claim[o] < |e.w.pools| && e.Dp(Rep(e, claim, o)) == claim[o] && e.Fits(o, claim[o])
  {
    if claim[o] != NONE {
      CountSome(e, |e.ents|, o, claim[o]);
      var k: nat :| k < |e.ents| && e.Votes(k, o, claim[o]);
    }
  }

  /** The representatives found among the first i entries. */
  ghost predicate RepsTo(e: Edit, claim: seq<int>, rep: seq<nat>, i: nat)
    requires |claim| == |e.ents| == |rep| && i <= |e.ents|
  {
    && (forall o: nat :: o < |rep| ==> rep[o] == |e.ents| || rep[o] < i)
    && (forall o: nat :: o < |rep| && e.Owner(o) && rep[o] != |e.ents| ==> rep[o] == Rep(e, claim, o))
    && (forall o: nat, k: nat :: o < |rep| && k < i && e.Owner(o) && rep[o] == |e.ents| && e.ents[k].pool == o ==>
          claim[o] != NONE && e.Dp(k) != claim[o])
  }

  ghost predicate RepsRight(e: Edit, claim: seq<int>, rep: seq<nat>)
    requires |claim| == |e.ents| == |rep|
  {
    forall o: nat :: o < |rep| && e.Owner(o) ==> rep[o] == Rep(e, claim, o)
  }

  lemma RepSet(e: Edit, claim: seq<int>, rep: seq<nat>, i: nat)
    requires Claimed(e, claim) && |claim| == |e.ents| == |rep| && i < |e.ents| && RepsTo(e, claim, rep, i)
    requires e.ents[i].pool < |rep| && rep[e.ents[i].pool] == |e.ents|
    requires claim[e.ents[i].pool] == NONE || e.Dp(i) == claim[e.ents[i].pool]
    ensures RepsTo(e, claim, rep[e.ents[i].pool := i], i + 1)
  {
    hide Claimed, Rep, Edit.Dp;
    PoolBelow(e, claim, i);
    var o := e.ents[i].pool;
    forall k: nat | k < i && e.ents[k].pool == o ensures claim[o] != NONE && e.Dp(k) != claim[o] {}
    FirstIsRep(e, claim, o, i);
  }

  lemma RepSkip(e: Edit, claim: seq<int>, rep: seq<nat>, i: nat)
    requires Claimed(e, claim) && |claim| == |e.ents| == |rep| && i < |e.ents| && RepsTo(e, claim, rep, i)
    requires e.ents[i].pool < |rep|
    requires !(rep[e.ents[i].pool] == |e.ents| && (claim[e.ents[i].pool] == NONE || e.Dp(i) == claim[e.ents[i].pool]))
    ensures RepsTo(e, claim, rep, i + 1)
  {
    hide Claimed, Rep, Edit.Dp;
  }

  lemma RepsAll(e: Edit, claim: seq<int>, rep: seq<nat>)
    requires Claimed(e, claim) && |claim| == |e.ents| == |rep| && RepsTo(e, claim, rep, |e.ents|)
    ensures RepsRight(e, claim, rep) && forall o: nat :: o < |rep| && e.Owner(o) ==> rep[o] != |e.ents|
  {
    hide ClaimRight, Rep;
    forall o: nat | o < |rep| && e.Owner(o) ensures rep[o] != |e.ents| {
      RepRight(e, claim, o);
      var r := Rep(e, claim, o);
      assert e.ents[o].pool == o && e.ents[r].pool == o;
    }
  }

  /** `fx_ed_reps`.  Its second loop, for pools with no representative yet, finds none: `RepsAll`. */
  method Reps(e: Edit, claim: seq<int>) returns (rep: array<nat>)
    requires Claimed(e, claim)
    ensures fresh(rep) && rep.Length == |claim| == |e.ents| && RepsRight(e, claim, rep[..])
  {
    hide Claimed, RepsTo, RepsRight;
    ClaimLength(e, claim);
    var none := |e.ents|;
    rep := new nat[|e.ents|](_ => none);
    NoReps(e, claim, rep[..]);
    for i: nat := 0 to |e.ents|
      invariant RepsTo(e, claim, rep[..], i)
    {
      PoolBelow(e, claim, i);
      var o := e.ents[i].pool;
      if rep[o] == none && (claim[o] == NONE || e.Dp(i) == claim[o]) {
        ghost var was: seq<nat> := rep[..];
        RepSet(e, claim, was, i);
        rep[o] := i;
        assert rep[..] == was[o := i];
      } else {
        RepSkip(e, claim, rep[..], i);
      }
    }
    RepsAll(e, claim, rep[..]);
  }

  lemma NoReps(e: Edit, claim: seq<int>, rep: seq<nat>)
    requires |claim| == |e.ents| == |rep| && forall o :: 0 <= o < |rep| ==> rep[o] == |e.ents|
    ensures RepsTo(e, claim, rep, 0)
  {
  }

  lemma ClaimLength(e: Edit, claim: seq<int>)
    requires Claimed(e, claim)
    ensures |claim| == |e.ents| == |e.goal|
  {
  }

  lemma FirstIsRep(e: Edit, claim: seq<int>, o: nat, i: nat)
    requires Claimed(e, claim) && i < |e.ents| == |claim| && o == e.ents[i].pool && o < |e.ents| && e.Owner(o)
    requires claim[o] == NONE || e.Dp(i) == claim[o]
    requires forall k: nat :: k < i && e.ents[k].pool == o ==> claim[o] != NONE && e.Dp(k) != claim[o]
    ensures Rep(e, claim, o) == i
  {
    assert e.EntryValid(i);
  }

  // ----- the same set of names

  /** `ed_cnt`: the entries of pool o among the first i. */
  function Members(e: Edit, i: nat, o: nat): (r: nat)
    requires i <= |e.ents|
  {
    if i == 0 then 0 else Members(e, i - 1, o) + (if e.ents[i - 1].pool == o then 1 else 0)
  }

  /** Some entry of pool o has the name. */
  ghost predicate NamedIn(e: Edit, o: nat, x: nat) {
    exists i: nat :: i < |e.ents| && e.ents[i].name == x && e.ents[i].pool == o
  }

  /** `fx_ed_sameset`: as many names as the pool has, each of them the pool's. */
  ghost predicate SameSet(e: Edit, o: nat, d: nat)
    requires d < |e.w.pools|
  {
    |e.w.pools[d].names| == Members(e, |e.ents|, o) && forall x :: x in e.w.pools[d].names ==> NamedIn(e, o, x)
  }

  /** The names of the first i entries that are of pool o and on object d. */
  ghost function NamesOn(e: Edit, i: nat, o: nat, d: nat): (r: set<nat>)
    requires i <= |e.ents|
    ensures forall x :: x in r <==> exists k: nat :: k < i && e.ents[k].name == x && e.ents[k].pool == o && e.Dp(k) == d
  {
    if i == 0 then {} else
    var before := NamesOn(e, i - 1, o, d);
    if e.ents[i - 1].pool == o && e.Dp(i - 1) == d then before + {e.ents[i - 1].name} else before
  }

  lemma NamesOnStep(e: Edit, i: nat, o: nat, d: nat)
    requires i < |e.ents|
    ensures |NamesOn(e, i + 1, o, d)| <= |NamesOn(e, i, o, d)| + (if e.ents[i].pool == o && e.Dp(i) == d then 1 else 0)
  {
  }

  /** Entries off the object are not counted among its names. */
  lemma {:induction false} OnAtMost(e: Edit, i: nat, o: nat, d: nat, k: nat)
    requires i <= |e.ents| && k < |e.ents|
    ensures |NamesOn(e, i, o, d)| <= Members(e, i, o)
    ensures k < i && e.ents[k].pool == o && e.Dp(k) != d ==> |NamesOn(e, i, o, d)| < Members(e, i, o)
  {
    hide Edit.Dp, NamesOn;
    if i > 0 {
      OnAtMost(e, i - 1, o, d, k);
      NamesOnStep(e, i - 1, o, d);
    } else {
      NothingOn(e, o, d);
    }
  }

  lemma NothingOn(e: Edit, o: nat, d: nat)
    ensures NamesOn(e, 0, o, d) == {}
  {
  }

  ghost function SetOf(s: seq<nat>): (r: set<nat>)
    ensures forall x :: x in r <==> x in s
  {
    if s == [] then {} else
    assert s == s[..|s| - 1] + [s[|s| - 1]];
    SetOf(s[..|s| - 1]) + {s[|s| - 1]}
  }

  lemma {:induction false} SetOfSize(s: seq<nat>)
    requires Ascending(s)
    ensures |SetOf(s)| == |s|
  {
    if s != [] {
      var init := s[..|s| - 1];
      SetOfSize(init);
      assert s[|s| - 1] !in init;
    }
  }

  /** Two sets of one size, one inside the other, are one: every entry of the pool is on the object. */
  lemma SameSetAll(e: Edit, o: nat, d: nat, k: nat)
    requires e.Valid() && d < |e.w.pools| && SameSet(e, o, d) && k < |e.ents| && e.ents[k].pool == o
    ensures e.Dp(k) == d
  {
    hide Edit.Dp, Members;
    var names := e.w.pools[d].names;
    ObjectNames(e, d);
    forall x | x in names ensures x in NamesOn(e, |e.ents|, o, d) {
      var i: nat :| i < |e.ents| && e.ents[i].name == x && e.ents[i].pool == o;
      OnObject(e, i, d);
    }
    SetOfSize(names);
    Sorting.SubsetSize(SetOf(names), NamesOn(e, |e.ents|, o, d));
    OnAtMost(e, |e.ents|, o, d, k);
  }

  lemma ObjectNames(e: Edit, d: nat)
    requires e.Valid() && d < |e.w.pools|
    ensures Ascending(e.w.pools[d].names) && e.w.pools[d].names != []
    ensures forall x :: x in e.w.pools[d].names <==> e.w.Has(x) && e.w.poolOf[x] == d
  {
    assert e.w.PoolValid(d);
  }

  lemma OnObject(e: Edit, i: nat, d: nat)
    requires e.Valid() && i < |e.ents| && d < |e.w.pools| && e.ents[i].name in e.w.pools[d].names
    ensures e.Dp(i) == d
  {
    ObjectNames(e, d);
  }

  // ----- needs, acts, and what goes

  predicate NeedWrite(e: Edit, claim: seq<int>, o: nat)
    requires o < |claim| == |e.goal|
  {
    0 <= claim[o] < |e.w.pools| && e.goal[o].kind == File && e.w.pools[claim[o]].content.text != e.goal[o].text
  }

  /** `fx_ed_curattr` against what the pool is to have. */
  predicate NeedAttrs(e: Edit, claim: seq<int>, o: nat)
    requires o < |claim| == |e.goal| == |e.born|
  {
    e.goal[o].attrs != if 0 <= claim[o] < |e.w.pools| then e.w.pools[claim[o]].content.attrs else e.born[o]
  }

  datatype Act = Create | Relink | Rewrite | Attrs | Untouched

  /** `fx_ed_decide`, for one entry; `same` is whether its object has just its pool's names. */
  function ActOf(e: Edit, claim: seq<int>, i: nat, same: bool): Act
    requires i < |e.ents| == |claim| == |e.goal| == |e.born| && e.ents[i].pool < |claim|
  {
    var o := e.ents[i].pool;
    if e.Dp(i) == NONE then (if claim[o] == NONE then Create else Relink)
    else if !same then Relink
    else if e.Dp(i) != claim[o] then Rewrite
    else if NeedWrite(e, claim, o) then Rewrite
    else if NeedAttrs(e, claim, o) then Attrs
    else Untouched
  }

  /** Every name the tree has not, and every name not on the object its pool keeps. */
  ghost predicate Goes(e: Edit, claim: seq<int>, x: nat)
    requires Claimed(e, claim)
  {
    e.w.Has(x) && x != e.root && forall i: nat :: i < |e.ents| && e.ents[i].name == x ==> !KeptIn(e, claim, i)
  }

  ghost predicate KeptIn(e: Edit, claim: seq<int>, i: nat)
    requires Claimed(e, claim) && i < |e.ents|
  {
    PoolBelow(e, claim, i);
    Kept(e, claim, i)
  }

  method IsSameSet(e: Edit, spec: map<nat, nat>, o: nat, d: nat, members: nat) returns (same: bool)
    requires e.Valid() && d < |e.w.pools| && members == Members(e, |e.ents|, o)
    requires forall x :: x in spec <==> exists i: nat :: i < |e.ents| && e.ents[i].name == x
    requires forall x :: x in spec ==> spec[x] < |e.ents| && e.ents[spec[x]].name == x
    ensures same <==> SameSet(e, o, d)
  {
    hide Members;
    var names := e.w.pools[d].names;
    if |names| != members { return false; }
    for k := 0 to |names|
      invariant forall j :: 0 <= j < k ==> NamedIn(e, o, names[j])
    {
      if names[k] !in spec || e.ents[spec[names[k]]].pool != o {
        NotNamed(e, spec, o, names[k]);
        assert names[k] in names;
        return false;
      }
    }
    same := true;
  }

  lemma NotNamed(e: Edit, spec: map<nat, nat>, o: nat, x: nat)
    requires e.Valid()
    requires forall y :: y in spec <==> exists i: nat :: i < |e.ents| && e.ents[i].name == y
    requires forall y :: y in spec ==> spec[y] < |e.ents| && e.ents[spec[y]].name == y
    requires x !in spec || e.ents[spec[x]].pool != o
    ensures !NamedIn(e, o, x)
  {
  }

  /** What `fx_ed_decide` leaves. */
  ghost predicate Decided(e: Edit, claim: seq<int>, acts: seq<Act>, gone: seq<bool>)
    requires Claimed(e, claim)
  {
    && |acts| == |e.ents| && |gone| == e.n
    && (forall i: nat :: i < |acts| ==> ActRight(e, claim, i, acts[i]))
    && (forall x: nat :: x < e.n ==> (gone[x] <==> Goes(e, claim, x)))
  }

  ghost predicate ActRight(e: Edit, claim: seq<int>, i: nat, a: Act)
    requires Claimed(e, claim) && i < |e.ents|
  {
    PoolBelow(e, claim, i);
    a == ActOf(e, claim, i, 0 <= e.Dp(i) < |e.w.pools| && SameSet(e, e.ents[i].pool, e.Dp(i)))
  }

  /** `ed_dspec`, by name. */
  method Specs(e: Edit) returns (spec: map<nat, nat>)
    requires e.Valid()
    ensures forall x :: x in spec <==> exists i: nat :: i < |e.ents| && e.ents[i].name == x
    ensures forall x :: x in spec ==> spec[x] < |e.ents| && e.ents[spec[x]].name == x
  {
    hide Edit.Valid;
    spec := map[];
    for i: nat := 0 to |e.ents|
      invariant forall x :: x in spec <==> exists k: nat :: k < i && e.ents[k].name == x
      invariant forall x :: x in spec ==> spec[x] < i && e.ents[spec[x]].name == x
    {
      spec := spec[e.ents[i].name := i];
    }
  }

  /** `ed_cnt`. */
  method Counts(e: Edit) returns (count: seq<nat>)
    requires e.Valid()
    ensures |count| == |e.ents| && forall o: nat :: o < |e.ents| ==> count[o] == Members(e, |e.ents|, o)
  {
    var cnt := new nat[|e.ents|](_ => 0);
    for i: nat := 0 to |e.ents|
      invariant forall o: nat :: o < |e.ents| ==> cnt[o] == Members(e, i, o)
    {
      assert e.EntryValid(i);
      cnt[e.ents[i].pool] := cnt[e.ents[i].pool] + 1;
    }
    count := cnt[..];
  }

  /** The names the first i entries give up. */
  ghost predicate GoneTo(e: Edit, claim: seq<int>, i: nat, gone: seq<bool>)
    requires Claimed(e, claim) && i <= |e.ents|
  {
    |gone| == e.n && forall x: nat :: x < e.n ==> (gone[x] <==> exists k: nat :: k < i && GoesBy(e, claim, k, x))
  }

  lemma GoneStep(e: Edit, claim: seq<int>, i: nat, gone: seq<bool>)
    requires Claimed(e, claim) && i < |e.ents| == |claim| && GoneTo(e, claim, i, gone) && e.ents[i].name < e.n && e.ents[i].pool < |claim|
    ensures GoneTo(e, claim, i + 1, if e.Dp(i) != NONE && e.Dp(i) != claim[e.ents[i].pool] then gone[e.ents[i].name := true] else gone)
  {
    hide Claimed, Edit.Dp;
    var goes := e.Dp(i) != NONE && e.Dp(i) != claim[e.ents[i].pool];
    var gone' := if goes then gone[e.ents[i].name := true] else gone;
    forall x: nat ensures GoesBy(e, claim, i, x) <==> x == e.ents[i].name && goes {}
    forall x: nat | x < e.n ensures gone'[x] <==> exists k: nat :: k < i + 1 && GoesBy(e, claim, k, x) {
      if goes && x == e.ents[i].name { assert GoesBy(e, claim, i, x); }
    }
  }

  /** `fx_ed_decide`, over the entries. */
  method DecideEntries(e: Edit, claim: seq<int>, spec: map<nat, nat>, cnt: seq<nat>, gone: array<bool>) returns (acts: seq<Act>)
    requires Claimed(e, claim) && gone.Length == e.n && forall x :: 0 <= x < e.n ==> !gone[x]
    requires forall x :: x in spec <==> exists i: nat :: i < |e.ents| && e.ents[i].name == x
    requires forall x :: x in spec ==> spec[x] < |e.ents| && e.ents[spec[x]].name == x
    requires |cnt| == |e.ents| && forall o: nat :: o < |e.ents| ==> cnt[o] == Members(e, |e.ents|, o)
    modifies gone
    ensures |acts| == |e.ents| && (forall k: nat :: k < |acts| ==> ActRight(e, claim, k, acts[k]))
    ensures GoneTo(e, claim, |e.ents|, gone[..])
  {
    hide Claimed, SameSet, Members, ActOf, GoneTo, GoesBy;
    ValidPart(e, claim);
    acts := [];
    ClaimLength(e, claim);
    NoneGone(e, claim, gone[..]);
    for i: nat := 0 to |e.ents|
      invariant |acts| == i && forall k: nat :: k < i ==> ActRight(e, claim, k, acts[k])
      invariant GoneTo(e, claim, i, gone[..])
    {
      PoolBelow(e, claim, i);
      NameBelow(e, i);
      var o := e.ents[i].pool;
      var same := false;
      if e.Dp(i) != NONE { same := IsSameSet(e, spec, o, e.Dp(i), cnt[o]); }
      acts := acts + [ActOf(e, claim, i, same)];
      assert ActRight(e, claim, i, acts[i]);
      ghost var was := gone[..];
      GoneStep(e, claim, i, was);
      if e.Dp(i) != NONE && e.Dp(i) != claim[o] {
        gone[e.ents[i].name] := true;
        assert gone[..] == was[e.ents[i].name := true];
      }
    }
  }

  lemma NoneGone(e: Edit, claim: seq<int>, gone: seq<bool>)
    requires Claimed(e, claim) && |gone| == e.n && forall x :: 0 <= x < e.n ==> !gone[x]
    ensures GoneTo(e, claim, 0, gone)
  {
  }

  /** `fx_ed_decide`. */
  method Decide(e: Edit, claim: seq<int>) returns (acts: seq<Act>, gone: array<bool>)
    requires Claimed(e, claim)
    ensures fresh(gone) && Decided(e, claim, acts, gone[..])
  {
    hide ClaimRight, Edit.Valid, SameSet, Members, ActOf, GoesBy;
    ValidPart(e, claim);
    var spec := Specs(e);
    var cnt := Counts(e);
    gone := new bool[e.n](_ => false);
    acts := DecideEntries(e, claim, spec, cnt, gone);
    ghost var was := gone[..];
    for x: nat := 0 to e.n
      invariant forall y: nat :: y < e.n ==> (gone[y] <==> was[y] || (y < x && Stray(e, spec, y)))
    {
      if e.w.Has(x) && x != e.root && x !in spec { gone[x] := true; }
    }
    forall x: nat | x < e.n ensures gone[x] <==> Goes(e, claim, x) { GoesIs(e, claim, spec, x); }
  }

  predicate Stray(e: Edit, spec: map<nat, nat>, x: nat) { e.w.Has(x) && x != e.root && x !in spec }

  ghost predicate GoesBy(e: Edit, claim: seq<int>, k: nat, x: nat)
    requires Claimed(e, claim) && k < |e.ents|
  {
    e.ents[k].name == x && e.Dp(k) != NONE && !KeptIn(e, claim, k)
  }

  lemma ValidPart(e: Edit, claim: seq<int>)
    requires Claimed(e, claim)
    ensures e.Valid() && |e.goal| == |e.ents| == |e.born|
  {
  }

  lemma NameBelow(e: Edit, i: nat)
    requires e.Valid() && i < |e.ents|
    ensures e.ents[i].name < e.n
  {
  }

  lemma GoesIs(e: Edit, claim: seq<int>, spec: map<nat, nat>, x: nat)
    requires Claimed(e, claim) && forall y :: y in spec <==> exists i: nat :: i < |e.ents| && e.ents[i].name == y
    ensures Goes(e, claim, x) <==> (exists k: nat :: k < |e.ents| && GoesBy(e, claim, k, x)) || Stray(e, spec, x)
  {
    hide ClaimRight;
    if Goes(e, claim, x) && x in spec {
      var i: nat :| i < |e.ents| && e.ents[i].name == x;
      assert GoesBy(e, claim, i, x);
    }
  }
}
