/** The edit made: names unlinked, made, linked and written over an aliasing directory, and what the
    directory then is. */
module EditRun {
  import opened Trees
  import opened Editor
  import opened Edits

  // ----- what each step has left

  /** The name stands once the gone are unlinked and the first i entries made. */
  ghost predicate Stands(e: Edit, claim: seq<int>, i: nat, x: nat)
    requires Claimed(e, claim)
  {
    x == e.root || exists j: nat :: j < |e.ents| && e.ents[j].name == x && (j < i || KeptIn(e, claim, j))
  }

  /** The object entry j is to be on, where its pool keeps one or has one made at its first name. */
  ghost predicate OnItsObject(e: Edit, claim: seq<int>, at: map<nat, nat>, j: nat)
    requires Claimed(e, claim) && j < |e.ents|
  {
    PoolBelow(e, claim, j);
    var o := e.ents[j].pool;
    && e.ents[j].name in at
    && (if claim[o] != NONE then at[e.ents[j].name] == claim[o]
        else e.ents[o].name in at && at[e.ents[j].name] == at[e.ents[o].name] >= e.Objects())
  }

  ghost predicate Placed(e: Edit, claim: seq<int>, at: map<nat, nat>, size: nat, i: nat)
    requires Claimed(e, claim)
  {
    && e.Objects() <= size
    && (forall x: nat :: x in at <==> Stands(e, claim, i, x))
    && (forall x: nat :: x in at ==> at[x] < size)
    && e.root in at && at[e.root] == e.w.poolOf[e.root]
    && (forall j: nat :: j < |e.ents| && (j < i || KeptIn(e, claim, j)) ==> OnItsObject(e, claim, at, j))
    && (forall o: nat, p: nat :: o < i && p < i && o < |e.ents| && p < |e.ents| && MadeAlike(e, claim, at, o, p) ==> o == p)
  }

  /** Two objects made that are one. */
  ghost predicate MadeAlike(e: Edit, claim: seq<int>, at: map<nat, nat>, o: nat, p: nat)
    requires Claimed(e, claim) && o < |e.ents| && p < |e.ents|
  {
    && MakesOwn(e, claim, o) && MakesOwn(e, claim, p)
    && e.ents[o].name in at && e.ents[p].name in at && at[e.ents[o].name] == at[e.ents[p].name]
  }

  /** The entry makes its pool's object. */
  ghost predicate MakesOwn(e: Edit, claim: seq<int>, o: nat)
    requires Claimed(e, claim) && o < |e.ents|
  {
    PoolBelow(e, claim, o);
    e.Owner(o) && claim[o] == NONE
  }

  /** What is in the objects when the first i entries are made: an object kept and in need of it has
      new bytes once its representative is passed. */
  ghost predicate Filled(e: Edit, claim: seq<int>, at: map<nat, nat>, body: seq<Content>, i: nat)
    requires Claimed(e, claim)
  {
    && e.Objects() <= |body|
    && (forall o: nat :: o < |e.ents| && MakesOwn(e, claim, o) && o < i && e.ents[o].name in at && at[e.ents[o].name] < |body| ==>
          body[at[e.ents[o].name]] == Content(e.goal[o].kind, e.goal[o].text, e.born[o]))
    && (forall o: nat :: o < |e.ents| && Keeps(e, claim, o) ==> claim[o] < |body| && body[claim[o]] == KeptBody(e, claim, o, i))
    && body[e.w.poolOf[e.root]] == e.w.ContentAt(e.root)
  }

  ghost predicate Keeps(e: Edit, claim: seq<int>, o: nat)
    requires Claimed(e, claim) && o < |e.ents|
  {
    PoolBelow(e, claim, o);
    e.Owner(o) && 0 <= claim[o] < |e.w.pools|
  }

  ghost function KeptBody(e: Edit, claim: seq<int>, o: nat, i: nat): Content
    requires Claimed(e, claim) && o < |e.ents| && Keeps(e, claim, o)
  {
    ValidPart(e, claim);
    ClaimLength(e, claim);
    var c := e.w.pools[claim[o]].content;
    if NeedWrite(e, claim, o) && Rep(e, claim, o) < i then c.(text := e.goal[o].text) else c
  }

  // ----- unlinking

  /** The tree walked, less the names that go. */
  ghost predicate Unlinked(e: Edit, claim: seq<int>, at: map<nat, nat>)
    requires Claimed(e, claim)
  {
    forall x: nat :: (x in at <==> e.w.Has(x) && !Goes(e, claim, x)) && (x in at ==> at[x] == e.w.poolOf[x])
  }

  lemma UnlinkedPlaced(e: Edit, claim: seq<int>, at: map<nat, nat>)
    requires Claimed(e, claim) && Unlinked(e, claim, at)
    ensures Placed(e, claim, at, e.Objects(), 0)
  {
    hide ClaimRight;
    forall x: nat ensures x in at <==> Stands(e, claim, 0, x) {
      if x in at && x != e.root {
        var i: nat :| i < |e.ents| && e.ents[i].name == x && KeptIn(e, claim, i);
      }
      if j: nat :| j < |e.ents| && e.ents[j].name == x && KeptIn(e, claim, j) {}
    }
    forall j: nat | j < |e.ents| && KeptIn(e, claim, j) ensures OnItsObject(e, claim, at, j) {
      PoolBelow(e, claim, j);
      assert Stands(e, claim, 0, e.ents[j].name);
    }
  }

  lemma UnlinkedFilled(e: Edit, claim: seq<int>, at: map<nat, nat>, body: seq<Content>)
    requires Claimed(e, claim) && |body| == e.Objects() && forall q: nat :: q < |body| ==> body[q] == e.w.pools[q].content
    ensures Filled(e, claim, at, body, 0)
  {
    hide ClaimRight;
    ClaimLength(e, claim);
    RootObject(e);
  }

  lemma RootObject(e: Edit)
    requires e.Valid()
    ensures e.w.poolOf[e.root] < |e.w.pools|
  {
  }

  // ----- making one entry

  lemma KeepEntry(e: Edit, claim: seq<int>, at: map<nat, nat>, size: nat, i: nat)
    requires Claimed(e, claim) && i < |e.ents| && Placed(e, claim, at, size, i) && KeptIn(e, claim, i)
    ensures Placed(e, claim, at, size, i + 1)
  {
    hide Claimed, OnItsObject;
    PoolBelow(e, claim, i);
    KeptClaims(e, claim, i);
    forall x: nat ensures Stands(e, claim, i + 1, x) <==> Stands(e, claim, i, x) {}
  }

  lemma KeptClaims(e: Edit, claim: seq<int>, i: nat)
    requires Claimed(e, claim) && i < |e.ents| && KeptIn(e, claim, i)
    ensures !MakesOwn(e, claim, i)
  {
    PoolBelow(e, claim, i);
  }

  lemma StandsOne(e: Edit, claim: seq<int>, i: nat, x: nat)
    requires Claimed(e, claim) && i < |e.ents|
    ensures Stands(e, claim, i + 1, x) <==> Stands(e, claim, i, x) || x == e.ents[i].name
  {
    hide Claimed;
    if Stands(e, claim, i, x) && x != e.root {
      var j: nat :| j < |e.ents| && e.ents[j].name == x && (j < i || KeptIn(e, claim, j));
      assert j < i + 1 || KeptIn(e, claim, j);
    }
  }

  lemma NotYet(e: Edit, claim: seq<int>, at: map<nat, nat>, size: nat, i: nat)
    requires Claimed(e, claim) && i < |e.ents| && Placed(e, claim, at, size, i) && !KeptIn(e, claim, i)
    ensures e.ents[i].name !in at && e.ents[i].name != e.root
  {
    hide ClaimRight, OnItsObject;
  }

  lemma MakeEntry(e: Edit, claim: seq<int>, at: map<nat, nat>, size: nat, i: nat)
    requires Claimed(e, claim) && i < |e.ents| && Placed(e, claim, at, size, i) && !KeptIn(e, claim, i) && MakesOwn(e, claim, i)
    ensures Placed(e, claim, at[e.ents[i].name := size], size + 1, i + 1)
  {
    hide ClaimRight, Stands;
    NotYet(e, claim, at, size, i);
    var x := e.ents[i].name;
    var at' := at[x := size];
    forall y: nat ensures y in at' <==> Stands(e, claim, i + 1, y) { StandsOne(e, claim, i, y); }
    forall j: nat | j < |e.ents| && (j < i + 1 || KeptIn(e, claim, j)) ensures OnItsObject(e, claim, at', j) {
      PoolBelow(e, claim, j);
      if j != i { assert OnItsObject(e, claim, at, j); }
    }
    forall o: nat, p: nat | o < i + 1 && p < i + 1 && MadeAlike(e, claim, at', o, p) ensures o == p {
      if o < i { assert OnItsObject(e, claim, at, o); }
      if p < i { assert OnItsObject(e, claim, at, p); }
      if o < i && p < i { assert MadeAlike(e, claim, at, o, p); }
    }
  }

  /** The representative stands before any other name of its pool is linked to it. */
  lemma AnchorStands(e: Edit, claim: seq<int>, at: map<nat, nat>, size: nat, i: nat)
    requires Claimed(e, claim) && i < |e.ents| && Placed(e, claim, at, size, i) && !KeptIn(e, claim, i) && !MakesOwn(e, claim, i)
    ensures |claim| == |e.ents| && e.ents[i].pool < |claim|
    ensures var o := e.ents[i].pool; var r := Rep(e, claim, o);
      r < |e.ents| && e.ents[r].name in at && (if claim[o] != NONE then at[e.ents[r].name] == claim[o] else r == o && o < i)
  {
    hide ClaimRight, Stands;
    PoolBelow(e, claim, i);
    var o := e.ents[i].pool;
    RepRight(e, claim, o);
    var r := Rep(e, claim, o);
    PoolBelow(e, claim, r);
    assert OnItsObject(e, claim, at, r);
  }

  lemma LinkEntry(e: Edit, claim: seq<int>, at: map<nat, nat>, size: nat, i: nat, r: nat)
    requires Claimed(e, claim) && i < |e.ents| == |claim| && Placed(e, claim, at, size, i) && !KeptIn(e, claim, i) && !MakesOwn(e, claim, i)
    requires e.ents[i].pool < |claim| && r < |e.ents| && e.ents[r].name in at
    requires if claim[e.ents[i].pool] != NONE then at[e.ents[r].name] == claim[e.ents[i].pool] else r == e.ents[i].pool && r < i
    ensures Placed(e, claim, at[e.ents[i].name := at[e.ents[r].name]], size, i + 1)
  {
    hide ClaimRight, Stands;
    NotYet(e, claim, at, size, i);
    PoolBelow(e, claim, i);
    var x := e.ents[i].name;
    var at' := at[x := at[e.ents[r].name]];
    forall y: nat ensures y in at' <==> Stands(e, claim, i + 1, y) { StandsOne(e, claim, i, y); }
    if r < i { assert OnItsObject(e, claim, at, r); }
    forall j: nat | j < |e.ents| && (j < i + 1 || KeptIn(e, claim, j)) ensures OnItsObject(e, claim, at', j) {
      PoolBelow(e, claim, j);
      if j != i { assert OnItsObject(e, claim, at, j); }
    }
    forall o: nat, p: nat | o < i + 1 && p < i + 1 && MadeAlike(e, claim, at', o, p) ensures o == p {
      assert MadeAlike(e, claim, at, o, p);
    }
  }

  // ----- bytes

  lemma RootApart(e: Edit, claim: seq<int>, o: nat)
    requires Claimed(e, claim) && o < |e.ents| && Keeps(e, claim, o)
    ensures claim[o] != e.w.poolOf[e.root]
  {
    RepRight(e, claim, o);
    OneRootName(e, Rep(e, claim, o));
  }

  /** The root is a directory, so no entry is on its object. */
  lemma OneRootName(e: Edit, r: nat)
    requires e.Valid() && r < |e.ents|
    ensures e.Dp(r) != e.w.poolOf[e.root]
  {
    assert e.w.PoolValid(e.w.poolOf[e.root]);
  }

  lemma ClaimsDiffer(e: Edit, claim: seq<int>, o: nat, p: nat)
    requires Claimed(e, claim) && o < |e.ents| && p < |e.ents| && Keeps(e, claim, o) && Keeps(e, claim, p) && o != p
    ensures o < |claim| && p < |claim| && claim[o] != claim[p]
  {
    hide Edit.Valid, Count;
    ClaimLength(e, claim);
  }

  /** The entry's bytes are written now. */
  ghost predicate WritesNow(e: Edit, claim: seq<int>, i: nat)
    requires Claimed(e, claim) && i < |e.ents|
  {
    PoolBelow(e, claim, i);
    ValidPart(e, claim);
    var o := e.ents[i].pool;
    Rep(e, claim, o) == i && NeedWrite(e, claim, o)
  }

  lemma WritesKept(e: Edit, claim: seq<int>, i: nat)
    requires Claimed(e, claim) && i < |e.ents| && WritesNow(e, claim, i)
    ensures KeptIn(e, claim, i) && e.ents[i].pool < |e.ents| && Keeps(e, claim, e.ents[i].pool)
  {
    PoolBelow(e, claim, i);
    RepRight(e, claim, e.ents[i].pool);
  }

  lemma BodyStill(e: Edit, claim: seq<int>, o: nat, i: nat)
    requires Claimed(e, claim) && o < |e.ents| && Keeps(e, claim, o) && i < |e.ents| && !(e.ents[i].pool == o && WritesNow(e, claim, i))
    ensures KeptBody(e, claim, o, i + 1) == KeptBody(e, claim, o, i)
  {
    hide Claimed, NeedWrite;
    RepRight(e, claim, o);
  }

  lemma BodyWritten(e: Edit, claim: seq<int>, i: nat)
    requires Claimed(e, claim) && i < |e.ents| && WritesNow(e, claim, i) && e.ents[i].pool < |e.goal| == |e.ents| && Keeps(e, claim, e.ents[i].pool)
    ensures KeptBody(e, claim, e.ents[i].pool, i + 1) == KeptBody(e, claim, e.ents[i].pool, i).(text := e.goal[e.ents[i].pool].text)
  {
    hide Claimed;
  }

  lemma FillPlain(e: Edit, claim: seq<int>, at: map<nat, nat>, at': map<nat, nat>, body: seq<Content>, i: nat)
    requires Claimed(e, claim) && i < |e.ents| && Filled(e, claim, at, body, i) && !WritesNow(e, claim, i) && !MakesOwn(e, claim, i)
    requires forall o: nat :: o < i && MakesOwn(e, claim, o) && e.ents[o].name in at' ==>
      e.ents[o].name in at && at'[e.ents[o].name] == at[e.ents[o].name]
    ensures Filled(e, claim, at', body, i + 1)
  {
    hide Claimed, KeptBody, WritesNow;
    forall o: nat | o < |e.ents| && Keeps(e, claim, o) ensures KeptBody(e, claim, o, i + 1) == KeptBody(e, claim, o, i) { BodyStill(e, claim, o, i); }
  }

  lemma FillWrite(e: Edit, claim: seq<int>, at: map<nat, nat>, body: seq<Content>, i: nat)
    requires Claimed(e, claim) && i < |e.ents| && Placed(e, claim, at, |body|, i) && Filled(e, claim, at, body, i) && WritesNow(e, claim, i)
    ensures e.ents[i].name in at && at[e.ents[i].name] < |body| && e.ents[i].pool < |e.goal|
    ensures Filled(e, claim, at, body[at[e.ents[i].name] := body[at[e.ents[i].name]].(text := e.goal[e.ents[i].pool].text)], i + 1)
  {
    hide ClaimRight, Stands, KeptBody, WritesNow;
    WritesKept(e, claim, i);
    PoolBelow(e, claim, i);
    assert OnItsObject(e, claim, at, i);
    var q := e.ents[i].pool;
    BodyWritten(e, claim, i);
    RootApart(e, claim, q);
    forall o: nat | o < |e.ents| && Keeps(e, claim, o) && o != q ensures KeptBody(e, claim, o, i + 1) == KeptBody(e, claim, o, i) && claim[o] != claim[q] {
      BodyStill(e, claim, o, i);
      ClaimsDiffer(e, claim, o, q);
    }
    forall o: nat | o < i + 1 && o < |e.ents| && MakesOwn(e, claim, o) ensures o < i && OnItsObject(e, claim, at, o) {
      KeptClaims(e, claim, i);
    }
  }

  lemma FillMake(e: Edit, claim: seq<int>, at: map<nat, nat>, body: seq<Content>, i: nat)
    requires Claimed(e, claim) && i < |e.ents| && Placed(e, claim, at, |body|, i) && Filled(e, claim, at, body, i) && MakesOwn(e, claim, i)
    requires i < |e.goal| == |e.born|
    ensures Filled(e, claim, at[e.ents[i].name := |body|], body + [Content(e.goal[i].kind, e.goal[i].text, e.born[i])], i + 1)
  {
    hide ClaimRight, Stands, KeptBody, OnItsObject;
    RootObject(e);
    forall o: nat | o < |e.ents| && Keeps(e, claim, o) ensures KeptBody(e, claim, o, i + 1) == KeptBody(e, claim, o, i) {
      OwnWritesNothing(e, claim, i);
      BodyStill(e, claim, o, i);
    }
  }

  lemma OwnWritesNothing(e: Edit, claim: seq<int>, i: nat)
    requires Claimed(e, claim) && i < |e.ents| && MakesOwn(e, claim, i)
    ensures !WritesNow(e, claim, i)
  {
    PoolBelow(e, claim, i);
  }

  // ----- what is touched

  /** The edit has to do something to the object. */
  ghost predicate Disturbed(e: Edit, claim: seq<int>, d: nat)
    requires Claimed(e, claim)
  {
    || (exists x: nat :: e.w.Has(x) && e.w.poolOf[x] == d && Goes(e, claim, x))
    || (exists i: nat :: i < |e.ents| && LinksTo(e, claim, i, d))
    || (exists o: nat :: o < |e.ents| && Rewrites(e, claim, o, d))
  }

  /** Entry i is not on the object yet, and its pool keeps it. */
  ghost predicate LinksTo(e: Edit, claim: seq<int>, i: nat, d: nat)
    requires Claimed(e, claim) && i < |e.ents|
  {
    PoolBelow(e, claim, i);
    !Kept(e, claim, i) && claim[e.ents[i].pool] == d
  }

  ghost predicate Rewrites(e: Edit, claim: seq<int>, o: nat, d: nat)
    requires Claimed(e, claim) && o < |e.ents|
  {
    PoolBelow(e, claim, o);
    ValidPart(e, claim);
    e.Owner(o) && claim[o] == d && (NeedWrite(e, claim, o) || NeedAttrs(e, claim, o))
  }

  ghost predicate TouchedOnly(e: Edit, claim: seq<int>, touched: set<nat>)
    requires Claimed(e, claim)
  {
    forall d :: d in touched && d < e.Objects() ==> Disturbed(e, claim, d)
  }

  /** A name whose act is Untouched: its object is no more disturbed than its name. */
  lemma UntouchedIsAlone(e: Edit, claim: seq<int>, i: nat)
    requires Claimed(e, claim) && i < |e.ents| && ActRight(e, claim, i, Untouched)
    ensures 0 <= e.Dp(i) < |e.w.pools| && !Disturbed(e, claim, e.Dp(i))
  {
    hide ClaimRight, SameSet;
    PoolBelow(e, claim, i);
    var d, o := e.Dp(i), e.ents[i].pool;
    forall x: nat | e.w.Has(x) && e.w.poolOf[x] == d ensures !Goes(e, claim, x) { StaysPut(e, claim, i, x); }
    forall k: nat | k < |e.ents| ensures !LinksTo(e, claim, k, d) { NoLinkTo(e, claim, i, k); }
    forall p: nat | p < |e.ents| && Rewrites(e, claim, p, d) ensures p == o { SoleKeeper(e, claim, o, p); }
  }

  lemma SoleKeeper(e: Edit, claim: seq<int>, o: nat, p: nat)
    requires Claimed(e, claim) && |claim| == |e.ents| && o < |claim| && p < |claim| && claim[o] == claim[p] != NONE
    ensures o == p
  {
  }

  lemma StaysPut(e: Edit, claim: seq<int>, i: nat, x: nat)
    requires Claimed(e, claim) && i < |e.ents| && ActRight(e, claim, i, Untouched)
    requires e.w.Has(x) && e.w.poolOf[x] == e.Dp(i)
    ensures !Goes(e, claim, x)
  {
    hide ClaimRight, Members;
    PoolBelow(e, claim, i);
    ObjectNames(e, e.Dp(i));
    assert x in e.w.pools[e.Dp(i)].names && NamedIn(e, e.ents[i].pool, x);
    var k: nat :| k < |e.ents| && e.ents[k].name == x && e.ents[k].pool == e.ents[i].pool;
    assert KeptIn(e, claim, k);
  }

  lemma NoLinkTo(e: Edit, claim: seq<int>, i: nat, k: nat)
    requires Claimed(e, claim) && i < |e.ents| && k < |e.ents| && ActRight(e, claim, i, Untouched)
    ensures 0 <= e.Dp(i) && !LinksTo(e, claim, k, e.Dp(i))
  {
    hide SameSet;
    PoolBelow(e, claim, i);
    PoolBelow(e, claim, k);
    if claim[e.ents[k].pool] == e.Dp(i) {
      SoleKeeper(e, claim, e.ents[k].pool, e.ents[i].pool);
      SameSetAll(e, e.ents[i].pool, e.Dp(i), k);
    }
  }

  /** Untouched holds of all the names of a pool or of none. */
  lemma UntouchedTogether(e: Edit, claim: seq<int>, i: nat, k: nat)
    requires Claimed(e, claim) && i < |e.ents| && k < |e.ents| && e.ents[i].pool == e.ents[k].pool
    requires ActRight(e, claim, i, Untouched)
    ensures ActRight(e, claim, k, Untouched) && e.Dp(k) == e.Dp(i)
  {
    hide ClaimRight, SameSet;
    PoolBelow(e, claim, i);
    PoolBelow(e, claim, k);
    SameSetAll(e, e.ents[i].pool, e.Dp(i), k);
  }

  // ----- the edit

  /** The tree asked for: its names and the root, one object to a pool, its contents. */
  ghost predicate Reached(e: Edit, at: map<nat, nat>, body: seq<Content>)
    requires e.Valid()
  {
    && (forall x: nat :: x in at <==> x == e.root || exists i: nat :: i < |e.ents| && e.ents[i].name == x)
    && (forall x: nat :: x in at ==> at[x] < |body|)
    && (forall i: nat, j: nat :: i < |e.ents| && j < |e.ents| && e.ents[i].name in at && e.ents[j].name in at ==>
          (at[e.ents[i].name] == at[e.ents[j].name] <==> e.ents[i].pool == e.ents[j].pool))
    && (forall i: nat :: i < |e.ents| && e.ents[i].name in at && e.ents[i].pool < |e.goal| && at[e.ents[i].name] < |body| ==>
          body[at[e.ents[i].name]] == e.goal[e.ents[i].pool] && at[e.ents[i].name] != at[e.root])
  }

  class Directory {
    var at: map<nat, nat>
    var body: seq<Content>
    ghost var touched: set<nat>  // objects unlinked from, linked to or written

    constructor (w: Tree)
      ensures at == w.poolOf && touched == {} && |body| == |w.pools| && forall q: nat :: q < |body| ==> body[q] == w.pools[q].content
    {
      at := w.poolOf;
      body := seq(|w.pools|, q requires 0 <= q < |w.pools| => w.pools[q].content);
      touched := {};
    }

    /** `fx_ed_remove`: children before parents, the ids downwards. */
    method Remove(e: Edit, ghost claim: seq<int>, ghost acts: seq<Act>, gone: array<bool>)
      requires Claimed(e, claim) && Decided(e, claim, acts, gone[..]) && at == e.w.poolOf && touched == {}
      modifies this
      ensures body == old(body) && Unlinked(e, claim, at) && TouchedOnly(e, claim, touched)
    {
      hide Claimed, Goes, Disturbed, ActRight;
      Universe(e, claim);
      for x: nat := e.n downto 0
        invariant gone[..] == old(gone[..]) && gone.Length == e.n && body == old(body)
        invariant forall y: nat :: y in at <==> e.w.Has(y) && !(x <= y < e.n && gone[y])
        invariant forall y: nat :: y in at ==> at[y] == e.w.poolOf[y]
        invariant TouchedOnly(e, claim, touched)
      {
        if x != e.root && gone[x] {
          GoesDisturbs(e, claim, x);
          touched := touched + {at[x]};
          at := at - {x};
        }
      }
    }

    /** `fx_ed_make`. */
    method Make(e: Edit, claim: seq<int>, rep: array<nat>, gone: array<bool>, ghost acts: seq<Act>)
      requires Claimed(e, claim) && rep.Length == |claim| == |e.ents| && RepsRight(e, claim, rep[..]) && Decided(e, claim, acts, gone[..])
      requires Placed(e, claim, at, |body|, 0) && Filled(e, claim, at, body, 0) && TouchedOnly(e, claim, touched)
      modifies this
      ensures Placed(e, claim, at, |body|, |e.ents|) && Filled(e, claim, at, body, |e.ents|) && TouchedOnly(e, claim, touched)
    {
      hide Claimed, Placed, Filled, TouchedOnly, RepsRight, Decided, Rep, Disturbed, Stands;
      for i: nat := 0 to |e.ents|
        invariant rep[..] == old(rep[..]) && gone[..] == old(gone[..])
        invariant Placed(e, claim, at, |body|, i) && Filled(e, claim, at, body, i) && TouchedOnly(e, claim, touched)
      {
        MakeOne(e, claim, rep, gone, acts, i);
      }
    }

    method MakeOne(e: Edit, claim: seq<int>, rep: array<nat>, gone: array<bool>, ghost acts: seq<Act>, i: nat)
      requires Claimed(e, claim) && rep.Length == |claim| == |e.ents| && RepsRight(e, claim, rep[..]) && Decided(e, claim, acts, gone[..])
      requires i < |e.ents| && Placed(e, claim, at, |body|, i) && Filled(e, claim, at, body, i) && TouchedOnly(e, claim, touched)
      modifies this
      ensures Placed(e, claim, at, |body|, i + 1) && Filled(e, claim, at, body, i + 1) && TouchedOnly(e, claim, touched)
    {
      hide Claimed, Placed, Filled, TouchedOnly, Decided, Rep, Disturbed, Stands;
      EntryFacts(e, claim, rep[..], acts, gone[..], i);
      var x, o := e.ents[i].name, e.ents[i].pool;
      if e.w.Has(x) && !gone[x] {
        KeepEntry(e, claim, at, |body|, i);
        if rep[o] == i && NeedWrite(e, claim, o) {
          FillWrite(e, claim, at, body, i);
          WriteDisturbs(e, claim, at, |body|, touched, i);
          touched := touched + {at[x]};
          body := body[at[x] := body[at[x]].(text := e.goal[o].text)];
        } else {
          KeptClaims(e, claim, i);
          FillPlain(e, claim, at, at, body, i);
        }
      } else if claim[o] == NONE && rep[o] == i {
        MakeEntry(e, claim, at, |body|, i);
        FillMake(e, claim, at, body, i);
        at := at[x := |body|];
        body := body + [Content(e.goal[o].kind, e.goal[o].text, e.born[o])];
      } else {
        AnchorStands(e, claim, at, |body|, i);
        LinkEntry(e, claim, at, |body|, i, rep[o]);
        LinkFills(e, claim, at, body, i, rep[o]);
        LinkDisturbs(e, claim, at, |body|, touched, i, rep[o]);
        touched := touched + {at[e.ents[rep[o]].name]};
        at := at[x := at[e.ents[rep[o]].name]];
      }
    }

    /** `fx_ed_attrs`. */
    method SetAttrs(e: Edit, claim: seq<int>, rep: array<nat>)
      requires Claimed(e, claim) && rep.Length == |claim| == |e.ents| && RepsRight(e, claim, rep[..])
      requires Placed(e, claim, at, |body|, |e.ents|) && Filled(e, claim, at, body, |e.ents|) && TouchedOnly(e, claim, touched)
      modifies this
      ensures at == old(at) && |body| == old(|body|) && Dressed(e, claim, at, body, |e.ents|) && TouchedOnly(e, claim, touched)
      ensures body[e.w.poolOf[e.root]] == e.w.ContentAt(e.root)
    {
      hide Claimed, Placed, Filled, TouchedOnly, RepsRight, Rep, Disturbed, Stands, Dressed;
      ghost var size := |body|;
      ValidPart(e, claim);
      NothingDressed(e, claim, at, body);
      for i: nat := 0 to |e.ents|
        invariant rep[..] == old(rep[..]) && at == old(at) && |body| == size && TouchedOnly(e, claim, touched)
        invariant Dressed(e, claim, at, body, i) && RootKept(e, body)
      {
        PoolBelow(e, claim, i);
        if e.ents[i].pool == i && NeedAttrs(e, claim, i) {
          DressOne(e, claim, at, body, rep[..], i);
          DressDisturbs(e, claim, at, size, touched, rep[..], i);
          var d := at[e.ents[rep[i]].name];
          touched := touched + {d};
          body := body[d := body[d].(attrs := e.goal[i].attrs)];
        } else {
          DressNone(e, claim, at, body, i);
        }
      }
    }

    /** `zr_fixture_edit`, less the file flags: the tree asked for, whatever was there; and what was
        right already is never unlinked, linked to or written. */
    method EditTo(e: Edit) returns (acts: seq<Act>)
      requires e.Valid() && at == e.w.poolOf && touched == {} && |body| == |e.w.pools|
      requires forall q: nat :: q < |body| ==> body[q] == e.w.pools[q].content
      modifies this
      ensures Reached(e, at, body)
      ensures |acts| == |e.ents| && forall i: nat :: i < |acts| && acts[i] == Untouched ==> e.Dp(i) !in touched
    {
      hide Edit.Valid, ClaimRight, Decided, Reached, Unlinked, Placed, Filled, TouchedOnly, RepsRight, Dressed, Disturbed;
      var claims := Claim(e);
      var claim := claims[..];
      var rep := Reps(e, claim);
      var gone;
      acts, gone := Decide(e, claim);
      Remove(e, claim, acts, gone);
      UnlinkedPlaced(e, claim, at);
      UnlinkedFilled(e, claim, at, body);
      Make(e, claim, rep, gone, acts);
      SetAttrs(e, claim, rep);
      DressedReached(e, claim, at, body);
      UntouchedLeft(e, claim, acts, gone[..], touched);
    }
  }

  lemma Universe(e: Edit, claim: seq<int>)
    requires Claimed(e, claim)
    ensures forall x :: x in e.w.poolOf ==> x < e.n
    ensures forall x: nat :: Goes(e, claim, x) ==> e.w.Has(x) && x != e.root && x < e.n
  {
  }

  lemma GoesDisturbs(e: Edit, claim: seq<int>, x: nat)
    requires Claimed(e, claim) && Goes(e, claim, x)
    ensures e.w.Has(x) && Disturbed(e, claim, e.w.poolOf[x])
  {
  }

  /** What the code reads of an entry, in the terms the proof uses. */
  lemma EntryFacts(e: Edit, claim: seq<int>, rep: seq<nat>, acts: seq<Act>, gone: seq<bool>, i: nat)
    requires Claimed(e, claim) && |rep| == |claim| == |e.ents| && RepsRight(e, claim, rep) && Decided(e, claim, acts, gone) && i < |e.ents|
    ensures |e.goal| == |e.born| == |e.ents| && e.ents[i].pool < |e.ents| && e.ents[i].name < |gone|
    ensures rep[e.ents[i].pool] == Rep(e, claim, e.ents[i].pool) < |e.ents|
    ensures e.w.Has(e.ents[i].name) && !gone[e.ents[i].name] <==> KeptIn(e, claim, i)
    ensures MakesOwn(e, claim, i) <==> claim[e.ents[i].pool] == NONE && rep[e.ents[i].pool] == i
    ensures WritesNow(e, claim, i) <==> rep[e.ents[i].pool] == i && NeedWrite(e, claim, e.ents[i].pool)
  {
    hide ClaimRight, ActRight;
    PoolBelow(e, claim, i);
    RepRight(e, claim, e.ents[i].pool);
    assert Goes(e, claim, e.ents[i].name) <==> e.w.Has(e.ents[i].name) && !KeptIn(e, claim, i);
  }

  lemma WriteDisturbs(e: Edit, claim: seq<int>, at: map<nat, nat>, size: nat, touched: set<nat>, i: nat)
    requires Claimed(e, claim) && i < |e.ents| && Placed(e, claim, at, size, i) && TouchedOnly(e, claim, touched) && WritesNow(e, claim, i)
    ensures e.ents[i].name in at && TouchedOnly(e, claim, touched + {at[e.ents[i].name]})
  {
    hide ClaimRight, Stands;
    WritesKept(e, claim, i);
    PoolBelow(e, claim, i);
    assert OnItsObject(e, claim, at, i);
    assert Rewrites(e, claim, e.ents[i].pool, at[e.ents[i].name]);
  }

  lemma LinkDisturbs(e: Edit, claim: seq<int>, at: map<nat, nat>, size: nat, touched: set<nat>, i: nat, r: nat)
    requires Claimed(e, claim) && i < |e.ents| == |claim| && Placed(e, claim, at, size, i) && TouchedOnly(e, claim, touched) && !KeptIn(e, claim, i)
    requires e.ents[i].pool < |claim| && r < |e.ents| && e.ents[r].name in at
    requires if claim[e.ents[i].pool] != NONE then at[e.ents[r].name] == claim[e.ents[i].pool] else r == e.ents[i].pool && r < i
    ensures TouchedOnly(e, claim, touched + {at[e.ents[r].name]})
  {
    hide ClaimRight, Stands;
    PoolBelow(e, claim, i);
    if claim[e.ents[i].pool] != NONE {
      assert LinksTo(e, claim, i, at[e.ents[r].name]);
    } else {
      assert OnItsObject(e, claim, at, r);
    }
  }

  lemma LinkFills(e: Edit, claim: seq<int>, at: map<nat, nat>, body: seq<Content>, i: nat, r: nat)
    requires Claimed(e, claim) && i < |e.ents| && Placed(e, claim, at, |body|, i) && Filled(e, claim, at, body, i)
    requires !KeptIn(e, claim, i) && !MakesOwn(e, claim, i) && r < |e.ents| && e.ents[r].name in at
    ensures Filled(e, claim, at[e.ents[i].name := at[e.ents[r].name]], body, i + 1)
  {
    hide ClaimRight, Stands, Filled, Placed;
    if WritesNow(e, claim, i) { WritesKept(e, claim, i); }
    FillPlain(e, claim, at, at[e.ents[i].name := at[e.ents[r].name]], body, i);
  }

  // ----- attributes, and the end

  /** The owner's object once its pool's attributes are on. */
  ghost predicate Dressed(e: Edit, claim: seq<int>, at: map<nat, nat>, body: seq<Content>, i: nat)
    requires Claimed(e, claim)
  {
    && Placed(e, claim, at, |body|, |e.ents|)
    && forall o: nat :: o < |e.ents| && e.Owner(o) && o < |e.goal| ==> DressedAt(e, claim, at, body, o, i)
  }

  ghost predicate DressedAt(e: Edit, claim: seq<int>, at: map<nat, nat>, body: seq<Content>, o: nat, i: nat)
    requires Claimed(e, claim) && o < |e.ents| && o < |e.goal|
  {
    PoolBelow(e, claim, o);
    ValidPart(e, claim);
    var d := ObjectOf(e, claim, at, o);
    && d < |body| && body[d].kind == e.goal[o].kind && body[d].text == e.goal[o].text
    && (o < i || !NeedAttrs(e, claim, o) ==> body[d].attrs == e.goal[o].attrs)
  }

  /** The object of the pool entry o owns. */
  ghost function ObjectOf(e: Edit, claim: seq<int>, at: map<nat, nat>, o: nat): nat
    requires Claimed(e, claim) && o < |e.ents|
  {
    PoolBelow(e, claim, o);
    if claim[o] >= 0 then claim[o] else if e.ents[o].name in at then at[e.ents[o].name] else 0
  }

  ghost predicate RootKept(e: Edit, body: seq<Content>)
    requires e.Valid()
  {
    e.w.poolOf[e.root] < |body| && body[e.w.poolOf[e.root]] == e.w.ContentAt(e.root)
  }

  lemma OwnOrKeep(e: Edit, claim: seq<int>, o: nat)
    requires Claimed(e, claim) && o < |e.ents| && e.Owner(o)
    ensures |claim| == |e.ents| && (if claim[o] == NONE then MakesOwn(e, claim, o) else Keeps(e, claim, o))
  {
    RepRight(e, claim, o);
  }

  /** The bytes a kept object ends with are the pool's. */
  lemma KeptIsGoal(e: Edit, claim: seq<int>, o: nat)
    requires Claimed(e, claim) && o < |e.ents| && Keeps(e, claim, o) && o < |e.goal|
    ensures KeptBody(e, claim, o, |e.ents|).kind == e.goal[o].kind && KeptBody(e, claim, o, |e.ents|).text == e.goal[o].text
  {
    RepRight(e, claim, o);
  }

  lemma NothingDressed(e: Edit, claim: seq<int>, at: map<nat, nat>, body: seq<Content>)
    requires Claimed(e, claim) && Placed(e, claim, at, |body|, |e.ents|) && Filled(e, claim, at, body, |e.ents|)
    ensures Dressed(e, claim, at, body, 0) && RootKept(e, body)
  {
    hide ClaimRight, Edit.Valid, Stands, KeptBody;
    ValidPart(e, claim);
    forall o: nat | o < |e.ents| && e.Owner(o) && o < |e.goal| ensures DressedAt(e, claim, at, body, o, 0) {
      OwnOrKeep(e, claim, o);
      PoolBelow(e, claim, o);
      if claim[o] == NONE {
        assert OnItsObject(e, claim, at, o);
      } else {
        KeptIsGoal(e, claim, o);
        KeptAttrs(e, claim, o);
      }
    }
  }

  lemma KeptAttrs(e: Edit, claim: seq<int>, o: nat)
    requires Claimed(e, claim) && o < |e.ents| && Keeps(e, claim, o) && o < |claim| == |e.goal| == |e.born|
    ensures !NeedAttrs(e, claim, o) ==> KeptBody(e, claim, o, |e.ents|).attrs == e.goal[o].attrs
  {
    hide Claimed;
  }

  lemma AlikeIsOne(e: Edit, claim: seq<int>, at: map<nat, nat>, size: nat, o: nat, p: nat)
    requires Claimed(e, claim) && Placed(e, claim, at, size, |e.ents|) && o < |e.ents| && p < |e.ents| && MadeAlike(e, claim, at, o, p)
    ensures o == p
  {
  }

  /** Two pools' objects are two. */
  lemma ObjectsDiffer(e: Edit, claim: seq<int>, at: map<nat, nat>, size: nat, o: nat, p: nat)
    requires Claimed(e, claim) && Placed(e, claim, at, size, |e.ents|) && o < |e.ents| && p < |e.ents| && e.Owner(o) && e.Owner(p) && o != p
    ensures ObjectOf(e, claim, at, o) != ObjectOf(e, claim, at, p)
  {
    hide ClaimRight, Stands;
    OwnOrKeep(e, claim, o);
    OwnOrKeep(e, claim, p);
    PoolBelow(e, claim, o);
    PoolBelow(e, claim, p);
    assert OnItsObject(e, claim, at, o) && OnItsObject(e, claim, at, p);
    if claim[o] == NONE && claim[p] == NONE && at[e.ents[o].name] == at[e.ents[p].name] { AlikeIsOne(e, claim, at, size, o, p); }
    if claim[o] != NONE && claim[p] != NONE { ClaimsDiffer(e, claim, o, p); }
  }

  lemma ObjectIs(e: Edit, claim: seq<int>, at: map<nat, nat>, size: nat, j: nat)
    requires Claimed(e, claim) && Placed(e, claim, at, size, |e.ents|) && j < |e.ents|
    ensures e.ents[j].name in at && e.ents[j].pool < |e.ents| && at[e.ents[j].name] == ObjectOf(e, claim, at, e.ents[j].pool)
    ensures at[e.ents[j].name] < size && e.root in at && at[e.ents[j].name] != at[e.root]
  {
    hide ClaimRight, Stands;
    PoolBelow(e, claim, j);
    var o := e.ents[j].pool;
    assert OnItsObject(e, claim, at, j);
    OwnOrKeep(e, claim, o);
    RootObject(e);
    if claim[o] != NONE { RootApart(e, claim, o); }
  }

  lemma DressOne(e: Edit, claim: seq<int>, at: map<nat, nat>, body: seq<Content>, rep: seq<nat>, i: nat)
    requires Claimed(e, claim) && |rep| == |claim| == |e.ents| == |e.goal| && RepsRight(e, claim, rep) && i < |e.ents| && e.Owner(i)
    requires Dressed(e, claim, at, body, i) && RootKept(e, body)
    ensures rep[i] < |e.ents| && e.ents[rep[i]].name in at && at[e.ents[rep[i]].name] < |body|
    ensures var d := at[e.ents[rep[i]].name]; var body' := body[d := body[d].(attrs := e.goal[i].attrs)];
      Dressed(e, claim, at, body', i + 1) && RootKept(e, body')
  {
    hide ClaimRight, Placed, ObjectOf, NeedAttrs;
    RepRight(e, claim, i);
    ObjectIs(e, claim, at, |body|, rep[i]);
    var d := at[e.ents[rep[i]].name];
    var body' := body[d := body[d].(attrs := e.goal[i].attrs)];
    RootPlace(e, claim, at, |body|);
    forall o: nat | o < |e.ents| && e.Owner(o) ensures DressedAt(e, claim, at, body', o, i + 1) {
      assert DressedAt(e, claim, at, body, o, i);
      if o != i { ObjectsDiffer(e, claim, at, |body|, o, i); }
    }
  }

  lemma RootPlace(e: Edit, claim: seq<int>, at: map<nat, nat>, size: nat)
    requires Claimed(e, claim) && Placed(e, claim, at, size, |e.ents|)
    ensures e.root in at && at[e.root] == e.w.poolOf[e.root]
  {
  }

  lemma DressNone(e: Edit, claim: seq<int>, at: map<nat, nat>, body: seq<Content>, i: nat)
    requires Claimed(e, claim) && i < |e.ents| == |claim| == |e.goal| == |e.born| && Dressed(e, claim, at, body, i)
    requires !(e.ents[i].pool == i && NeedAttrs(e, claim, i))
    ensures Dressed(e, claim, at, body, i + 1)
  {
    hide Claimed, Placed, ObjectOf, NeedAttrs;
    forall o: nat | o < |e.ents| && e.Owner(o) ensures DressedAt(e, claim, at, body, o, i + 1) {
      assert DressedAt(e, claim, at, body, o, i);
    }
  }

  lemma DressDisturbs(e: Edit, claim: seq<int>, at: map<nat, nat>, size: nat, touched: set<nat>, rep: seq<nat>, i: nat)
    requires Claimed(e, claim) && |rep| == |claim| == |e.ents| == |e.goal| == |e.born| && RepsRight(e, claim, rep) && i < |e.ents| && e.Owner(i)
    requires Placed(e, claim, at, size, |e.ents|) && TouchedOnly(e, claim, touched) && NeedAttrs(e, claim, i)
    ensures rep[i] < |e.ents| && e.ents[rep[i]].name in at && TouchedOnly(e, claim, touched + {at[e.ents[rep[i]].name]})
  {
    hide ClaimRight, Stands, NeedAttrs;
    RepRight(e, claim, i);
    assert OnItsObject(e, claim, at, rep[i]);
    if claim[i] != NONE { assert Rewrites(e, claim, i, at[e.ents[rep[i]].name]); }
  }

  lemma DressedReached(e: Edit, claim: seq<int>, at: map<nat, nat>, body: seq<Content>)
    requires Claimed(e, claim) && Dressed(e, claim, at, body, |e.ents|)
    ensures Reached(e, at, body)
  {
    hide ClaimRight, OnItsObject, MadeAlike, ObjectOf, NeedAttrs, Edit.Valid;
    ValidPart(e, claim);
    forall x: nat ensures x in at <==> x == e.root || exists i: nat :: i < |e.ents| && e.ents[i].name == x { assert Stands(e, claim, |e.ents|, x) <==> x in at; }
    forall i: nat, j: nat | i < |e.ents| && j < |e.ents|
      ensures e.ents[i].name in at && e.ents[j].name in at && (at[e.ents[i].name] == at[e.ents[j].name] <==> e.ents[i].pool == e.ents[j].pool)
    {
      ObjectIs(e, claim, at, |body|, i);
      ObjectIs(e, claim, at, |body|, j);
      PoolBelow(e, claim, i);
      PoolBelow(e, claim, j);
      if e.ents[i].pool != e.ents[j].pool { ObjectsDiffer(e, claim, at, |body|, e.ents[i].pool, e.ents[j].pool); }
    }
    forall i: nat | i < |e.ents| ensures e.ents[i].pool < |e.goal| && e.ents[i].name in at && at[e.ents[i].name] < |body| &&
      body[at[e.ents[i].name]] == e.goal[e.ents[i].pool] && e.root in at && at[e.ents[i].name] != at[e.root]
    {
      ObjectIs(e, claim, at, |body|, i);
      PoolBelow(e, claim, i);
      assert DressedAt(e, claim, at, body, e.ents[i].pool, |e.ents|);
    }
  }

  lemma UntouchedLeft(e: Edit, claim: seq<int>, acts: seq<Act>, gone: seq<bool>, touched: set<nat>)
    requires Claimed(e, claim) && Decided(e, claim, acts, gone) && TouchedOnly(e, claim, touched)
    ensures |acts| == |e.ents| && forall i: nat :: i < |acts| && acts[i] == Untouched ==> e.Dp(i) !in touched
  {
    hide Claimed, Disturbed, ActRight;
    forall i: nat | i < |acts| && acts[i] == Untouched ensures e.Dp(i) !in touched { UntouchedIsAlone(e, claim, i); }
  }

  // ----- nothing to do

  /** The directory already is the tree asked for. */
  ghost predicate Already(e: Edit)
    requires e.Valid()
  {
    && (forall x: nat :: e.w.Has(x) <==> x == e.root || exists i: nat :: i < |e.ents| && e.ents[i].name == x)
    && (forall i: nat, j: nat :: i < |e.ents| && j < |e.ents| ==> (e.Dp(i) == e.Dp(j) <==> e.ents[i].pool == e.ents[j].pool))
    && (forall i: nat :: i < |e.ents| && e.ents[i].pool < |e.goal| && 0 <= e.Dp(i) < |e.w.pools| ==>
          e.w.pools[e.Dp(i)].content == e.goal[e.ents[i].pool])
  }

  lemma AlreadyOn(e: Edit, claim: seq<int>, i: nat)
    requires Claimed(e, claim) && Already(e) && i < |e.ents|
    ensures 0 <= e.Dp(i) < |e.w.pools| && KeptIn(e, claim, i)
  {
    hide Count;
    PoolBelow(e, claim, i);
    assert e.w.Has(e.ents[i].name);
    var o, d := e.ents[i].pool, e.Dp(i);
    assert e.Dp(o) == d && e.Votes(i, o, d);
    CountSome(e, |e.ents|, o, d);
    assert Beaten(e, claim, o, d);
    if claim[o] != NONE {
      ClaimedByVote(e, claim, o, i);
    } else {
      var p: nat :| p < |claim| && claim[p] == d && Count(e, |e.ents|, p, d) >= Count(e, |e.ents|, o, d);
      ClaimedByVote(e, claim, p, i);
    }
  }

  lemma ClaimedByVote(e: Edit, claim: seq<int>, p: nat, i: nat)
    requires Claimed(e, claim) && Already(e) && i < |e.ents| && p < |claim| == |e.ents| && claim[p] != NONE
    ensures e.ents[i].pool == p ==> claim[p] == e.Dp(i)
    ensures claim[p] == e.Dp(i) ==> e.ents[i].pool == p
  {
    CountSome(e, |e.ents|, p, claim[p]);
    var k: nat :| k < |e.ents| && e.Votes(k, p, claim[p]);
    assert e.Dp(k) == e.Dp(i) <==> e.ents[k].pool == e.ents[i].pool;
  }

  /** Edited again, a tree that is right already: no name goes, and every act is Untouched. */
  lemma NothingToDo(e: Edit, claim: seq<int>)
    requires Claimed(e, claim) && Already(e)
    ensures forall x: nat :: !Goes(e, claim, x)
    ensures forall i: nat :: i < |e.ents| ==> ActRight(e, claim, i, Untouched)
  {
    hide ClaimRight, SameSet;
    forall i: nat | i < |e.ents| ensures ActRight(e, claim, i, Untouched) {
      AlreadyOn(e, claim, i);
      PoolBelow(e, claim, i);
      AlreadySame(e, claim, i);
    }
    forall x: nat ensures !Goes(e, claim, x) {
      if e.w.Has(x) && x != e.root {
        var i: nat :| i < |e.ents| && e.ents[i].name == x;
        AlreadyOn(e, claim, i);
      }
    }
  }

  lemma AlreadySame(e: Edit, claim: seq<int>, i: nat)
    requires Claimed(e, claim) && Already(e) && i < |e.ents| && 0 <= e.Dp(i) < |e.w.pools|
    ensures SameSet(e, e.ents[i].pool, e.Dp(i))
  {
    hide ClaimRight, Members;
    var o, d := e.ents[i].pool, e.Dp(i);
    ObjectNames(e, d);
    var names := e.w.pools[d].names;
    forall x | x in names ensures NamedIn(e, o, x) {
      assert e.w.Has(x);
      OneRootName(e, i);
      var k: nat :| k < |e.ents| && e.ents[k].name == x;
      assert e.Dp(k) == d;
    }
    MembersAreNames(e, |e.ents|, o, d);
    SetOfSize(names);
    assert SetOf(names) == NamesOn(e, |e.ents|, o, d) by { NamesAgree(e, o, d, names); }
  }

  lemma NamesAgree(e: Edit, o: nat, d: nat, names: seq<nat>)
    requires e.Valid() && d < |e.w.pools| && names == e.w.pools[d].names && forall x :: x in names ==> NamedIn(e, o, x)
    ensures SetOf(names) == NamesOn(e, |e.ents|, o, d)
  {
    ObjectNames(e, d);
    forall x ensures x in names <==> x in NamesOn(e, |e.ents|, o, d) {
      if x in names {
        var k: nat :| k < |e.ents| && e.ents[k].name == x && e.ents[k].pool == o;
        OnObject(e, k, d);
      }
    }
  }

  lemma {:induction false} MembersAreNames(e: Edit, i: nat, o: nat, d: nat)
    requires e.Valid() && Already(e) && i <= |e.ents| && forall k: nat :: k < |e.ents| && e.ents[k].pool == o ==> e.Dp(k) == d
    ensures |NamesOn(e, i, o, d)| == Members(e, i, o)
  {
    hide Edit.Dp, NamesOn, Already, Edit.Valid;
    if i > 0 {
      MembersAreNames(e, i - 1, o, d);
      NewNameOn(e, i - 1, o, d);
    } else {
      NothingOn(e, o, d);
    }
  }

  lemma NewNameOn(e: Edit, i: nat, o: nat, d: nat)
    requires e.Valid() && i < |e.ents|
    ensures |NamesOn(e, i + 1, o, d)| == |NamesOn(e, i, o, d)| + (if e.ents[i].pool == o && e.Dp(i) == d then 1 else 0)
  {
    hide Edit.Dp;
    forall k: nat | k < i ensures e.ents[k].name != e.ents[i].name {}
  }
}
