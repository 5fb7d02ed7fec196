/** The choices of a resolution, `za_picks` and `zr_apply_choices` of src/apply.c, over leaf names: each
    line's name becomes its side's object or goes, and the names one group takes from one pool of one
    side are pooled. */
module Choices {
  import opened Trees
  import opened Sorting

  const NONE := -1

  datatype Choice = Keep | OntoSide | FromSide

  /** `struct zr_rline`: `marked` is a conflict line for a name the manifest marks. */
  datatype RLine = RLine(path: nat, choice: Choice, group: nat, marked: bool)

  datatype Resolution = Resolution(lines: seq<RLine>, from: Tree, onto: Tree, n: nat) {

    ghost predicate Valid() {
      && from.Valid(n) && onto.Valid(n)
      && (forall i, j :: 0 <= i < |lines| && 0 <= j < |lines| && lines[i].path == lines[j].path ==> i == j)
      && (forall i :: 0 <= i < |lines| && Held(i) ==> Side(i).ContentAt(lines[i].path).kind != Directory)
    }

    function Side(i: nat): Tree
      requires i < |lines|
    {
      if lines[i].choice.OntoSide? then onto else from
    }

    /** The chosen side has the name: `za_side_pool`. */
    predicate Held(i: nat)
      requires i < |lines|
    {
      !lines[i].choice.Keep? && Side(i).Has(lines[i].path) && Side(i).poolOf[lines[i].path] < |Side(i).pools|
    }

    predicate Drops(i: nat)
      requires i < |lines|
    {
      !lines[i].choice.Keep? && !Held(i)
    }

    /** The line can pool with others. */
    predicate Keyed(i: nat)
      requires i < |lines|
    {
      Held(i) && lines[i].marked
    }

    function PoolAt(i: nat): nat
      requires i < |lines| && Held(i)
    {
      Side(i).poolOf[lines[i].path]
    }

    /** The same group, the same choice, the same pool of that side. */
    predicate SameKey(i: nat, j: nat)
      requires i < |lines| && j < |lines|
    {
      && Keyed(i) && Keyed(j) && lines[i].group == lines[j].group && lines[i].choice == lines[j].choice
      && PoolAt(i) == PoolAt(j)
    }

    /** What reading back over every earlier line would find. */
    ghost predicate AnchorIs(i: nat, a: int)
      requires i < |lines|
    {
      if a == NONE then forall j: nat :: j < i ==> !SameKey(j, i)
      else 0 <= a < i && SameKey(a, i) && forall j: nat :: j < a ==> !SameKey(j, i)
    }
  }

  /** `struct za_key`. */
  datatype Key = Key(group: nat, choice: nat, pool: nat, line: nat)

  /** `za_bykey`. */
  predicate KeyLe(a: Key, b: Key) {
    if a.group != b.group then a.group < b.group
    else if a.choice != b.choice then a.choice < b.choice
    else if a.pool != b.pool then a.pool < b.pool
    else a.line <= b.line
  }

  predicate SameClass(a: Key, b: Key) { a.group == b.group && a.choice == b.choice && a.pool == b.pool }

  function Code(c: Choice): nat { match c case Keep => 1 case OntoSide => 2 case FromSide => 3 }

  function KeyOf(r: Resolution, i: nat): Key
    requires i < |r.lines| && r.Held(i)
  {
    Key(r.lines[i].group, Code(r.lines[i].choice), r.PoolAt(i), i)
  }

  ghost predicate KeysOf(r: Resolution, i: nat, keys: seq<Key>)
    requires i <= |r.lines|
  {
    forall k :: k in keys <==> k.line < i && r.Keyed(k.line) && k == KeyOf(r, k.line)
  }

  lemma KeyOrder()
    ensures TotalOrder(KeyLe)
  {
  }

  lemma ClassIsSameKey(r: Resolution, a: Key, b: Key)
    requires a.line < |r.lines| && b.line < |r.lines| && r.Keyed(a.line) && r.Keyed(b.line)
    requires a == KeyOf(r, a.line) && b == KeyOf(r, b.line)
    ensures SameClass(a, b) <==> r.SameKey(a.line, b.line)
  {
  }

  /** The keys before position k are done: each line's anchor is the head of its class. */
  ghost predicate Anchored(r: Resolution, keys: seq<Key>, anchor: seq<int>, k: nat)
    requires |anchor| == |r.lines| && k <= |keys|
  {
    forall i: nat :: i < |r.lines| ==>
      if exists p :: 0 <= p < k && keys[p].line == i then r.AnchorIs(i, anchor[i]) else anchor[i] == NONE
  }

  /** `first` heads the class of the key before position k. */
  ghost predicate Heads(keys: seq<Key>, k: nat, first: nat)
    requires k <= |keys|
  {
    k > 0 ==> exists h :: 0 <= h < k && keys[h].line == first && SameClass(keys[h], keys[k - 1]) && (h == 0 || !SameClass(keys[h - 1], keys[h]))
  }

  /** In sorted keys the head of a class has its least line, and no key of the class is before it. */
  lemma HeadIsFirst(r: Resolution, keys: seq<Key>, h: nat, k: nat)
    requires KeysOf(r, |r.lines|, keys) && SortedBy(KeyLe, keys) && h < k < |keys| && SameClass(keys[h], keys[k]) && Distinct(keys)
    requires h == 0 || !SameClass(keys[h - 1], keys[h])
    ensures keys[k].line < |r.lines| && r.AnchorIs(keys[k].line, keys[h].line)
  {
    var x, y := keys[h], keys[k];
    assert x in keys && y in keys && KeyLe(x, y) && x != y;
    ClassIsSameKey(r, x, y);
    forall j: nat | j < x.line ensures !r.SameKey(j, y.line) {
      if r.SameKey(j, y.line) {
        var z := KeyOf(r, j);
        assert z in keys;
        var p: nat :| p < |keys| && keys[p] == z;
        ClassIsSameKey(r, z, y);
        NotBeforeHead(keys, h, p);
      }
    }
  }

  lemma NotBeforeHead(keys: seq<Key>, h: nat, p: nat)
    requires SortedBy(KeyLe, keys) && h < |keys| && p < |keys| && SameClass(keys[p], keys[h])
    requires h == 0 || !SameClass(keys[h - 1], keys[h])
    ensures keys[h].line <= keys[p].line
  {
    if p > h { assert KeyLe(keys[h], keys[p]); }
    if p < h { Between(keys, p, h); }
  }

  lemma Between(keys: seq<Key>, p: nat, h: nat)
    requires SortedBy(KeyLe, keys) && p < h < |keys| && SameClass(keys[p], keys[h])
    ensures SameClass(keys[h - 1], keys[h])
  {
    if p < h - 1 { assert KeyLe(keys[p], keys[h - 1]) && KeyLe(keys[h - 1], keys[h]); }
  }

  lemma HeadHasNone(r: Resolution, keys: seq<Key>, k: nat)
    requires KeysOf(r, |r.lines|, keys) && SortedBy(KeyLe, keys) && k < |keys|
    requires k == 0 || !SameClass(keys[k - 1], keys[k])
    ensures keys[k].line < |r.lines| && r.AnchorIs(keys[k].line, NONE)
  {
    var y := keys[k];
    assert y in keys;
    forall j: nat | j < y.line ensures !r.SameKey(j, y.line) {
      if r.SameKey(j, y.line) {
        var z := KeyOf(r, j);
        assert z in keys;
        var p: nat :| p < |keys| && keys[p] == z;
        ClassIsSameKey(r, z, y);
        NotBeforeHead(keys, k, p);
      }
    }
  }

  lemma OneKeyEach(r: Resolution, keys: seq<Key>, p: nat, k: nat)
    requires KeysOf(r, |r.lines|, keys) && Distinct(keys) && p < |keys| && k < |keys| && keys[p].line == keys[k].line
    ensures p == k
  {
    assert keys[p] in keys && keys[k] in keys;
  }

  /** The key at position k opens a class. */
  predicate Opens(keys: seq<Key>, k: nat)
    requires k < |keys|
  {
    k == 0 || !SameClass(keys[k - 1], keys[k])
  }

  lemma HeadsStep(keys: seq<Key>, k: nat, first: nat)
    requires k < |keys| && Heads(keys, k, first)
    ensures Heads(keys, k + 1, if Opens(keys, k) then keys[k].line else first)
  {
    if Opens(keys, k) {
      assert SameClass(keys[k], keys[k]);
    } else {
      var h: nat :| h < k && keys[h].line == first && SameClass(keys[h], keys[k - 1]) && (h == 0 || !SameClass(keys[h - 1], keys[h]));
      assert SameClass(keys[h], keys[k]);
    }
  }

  lemma AnchorFound(r: Resolution, keys: seq<Key>, k: nat, first: nat)
    requires KeysOf(r, |r.lines|, keys) && SortedBy(KeyLe, keys) && Distinct(keys) && k < |keys| && Heads(keys, k, first)
    ensures keys[k].line < |r.lines| && r.AnchorIs(keys[k].line, if Opens(keys, k) then NONE else first)
  {
    hide SortedBy, Resolution.AnchorIs, Resolution.SameKey, Distinct, KeysOf;
    if Opens(keys, k) {
      HeadHasNone(r, keys, k);
    } else {
      var h: nat :| h < k && keys[h].line == first && SameClass(keys[h], keys[k - 1]) && (h == 0 || !SameClass(keys[h - 1], keys[h]));
      HeadIsFirst(r, keys, h, k);
    }
  }

  lemma AnchoredStep(r: Resolution, keys: seq<Key>, anchor: seq<int>, k: nat, a: int)
    requires |anchor| == |r.lines| && KeysOf(r, |r.lines|, keys) && Distinct(keys) && k < |keys| && Anchored(r, keys, anchor, k)
    requires keys[k].line < |r.lines| && r.AnchorIs(keys[k].line, a)
    ensures anchor[keys[k].line] == NONE && Anchored(r, keys, anchor[keys[k].line := a], k + 1)
  {
    hide KeysOf, Distinct, Resolution.AnchorIs;
    var y := keys[k].line;
    forall p: nat | p < k ensures keys[p].line != y { if keys[p].line == y { OneKeyEach(r, keys, p, k); } }
    var anchor' := anchor[y := a];
    forall i: nat | i < |r.lines|
      ensures if exists p :: 0 <= p < k + 1 && keys[p].line == i then r.AnchorIs(i, anchor'[i]) else anchor'[i] == NONE
    {
      if i == y {
        assert keys[k].line == i;
      } else if p :| 0 <= p < k && keys[p].line == i {
        assert 0 <= p < k + 1;
      }
    }
  }

  lemma AnchorsDone(r: Resolution, keys: seq<Key>, anchor: seq<int>)
    requires |anchor| == |r.lines| && KeysOf(r, |r.lines|, keys) && Anchored(r, keys, anchor, |keys|)
    ensures forall i: nat :: i < |r.lines| ==> r.AnchorIs(i, anchor[i])
  {
    forall i: nat | i < |r.lines| ensures r.AnchorIs(i, anchor[i]) {
      if r.Keyed(i) {
        var z := KeyOf(r, i);
        assert z in keys;
        var p :| 0 <= p < |keys| && keys[p] == z;
        assert keys[p].line == i;
      } else if p :| 0 <= p < |keys| && keys[p].line == i {
        assert keys[p] in keys;
      }
    }
  }

  /** `za_picks`: the keys sorted, each class with its first line at the head; the anchors are those
      the quadratic search finds. */
  method Picks(r: Resolution) returns (anchor: array<int>)
    ensures fresh(anchor) && anchor.Length == |r.lines| && forall i: nat :: i < |r.lines| ==> r.AnchorIs(i, anchor[i])
  {
    hide KeysOf, SortedBy, Heads, Anchored, Resolution.AnchorIs, Resolution.Keyed, KeyLe;
    anchor := new int[|r.lines|](_ => NONE);
    var keys := AllKeys(r);
    KeyOrder();
    var s := Sort(KeyLe, keys);
    SortKeepsDistinct(KeyLe, keys);
    SortedKeys(r, keys, s, anchor[..]);
    var first: nat := 0;
    for k: nat := 0 to |s|
      invariant Anchored(r, s, anchor[..], k) && Heads(s, k, first)
    {
      ghost var was := anchor[..];
      HeadsStep(s, k, first);
      AnchorFound(r, s, k, first);
      AnchoredStep(r, s, was, k, if Opens(s, k) then NONE else first);
      if k == 0 || !SameClass(s[k - 1], s[k]) {
        assert was[s[k].line := NONE] == was;
        first := s[k].line;
      } else {
        anchor[s[k].line] := first;
        assert anchor[..] == was[s[k].line := first];
      }
    }
    AnchorsDone(r, s, anchor[..]);
  }

  lemma SortedKeys(r: Resolution, keys: seq<Key>, s: seq<Key>, anchor: seq<int>)
    requires KeysOf(r, |r.lines|, keys) && (forall k :: k in s <==> k in keys) && |anchor| == |r.lines| && forall i :: 0 <= i < |anchor| ==> anchor[i] == NONE
    ensures KeysOf(r, |r.lines|, s) && Anchored(r, s, anchor, 0) && Heads(s, 0, 0)
  {
  }

  method AllKeys(r: Resolution) returns (keys: seq<Key>)
    ensures KeysOf(r, |r.lines|, keys) && Distinct(keys)
  {
    keys := [];
    for i: nat := 0 to |r.lines|
      invariant KeysOf(r, i, keys) && Distinct(keys)
    {
      if r.Held(i) && r.lines[i].marked {
        assert forall j :: 0 <= j < |keys| ==> keys[j] in keys;
        keys := keys + [KeyOf(r, i)];
      }
    }
  }

  // ----- the apply

  /** The document made true: what was chosen is there, what no side has is gone, and a pooled line
      is on its anchor's object. */
  ghost predicate Chosen(r: Resolution, anchor: seq<int>, at: map<nat, nat>, body: seq<Content>, i: nat)
    requires i < |r.lines| == |anchor| && (forall x :: x in at ==> at[x] < |body|)
  {
    var x := r.lines[i].path;
    && (r.Drops(i) ==> x !in at)
    && (r.Held(i) ==> x in at && body[at[x]] == r.Side(i).ContentAt(x))
    && (r.Held(i) && 0 <= anchor[i] < i ==> r.lines[anchor[i]].path in at && x in at && at[x] == at[r.lines[anchor[i]].path])
  }

  ghost predicate Anchors(r: Resolution, anchor: seq<int>) {
    r.Valid() && |anchor| == |r.lines| && forall i: nat :: i < |r.lines| ==> r.AnchorIs(i, anchor[i])
  }

  class Chooser {
    var at: map<nat, nat>
    var body: seq<Content>
    var made: nat
    var linked: nat
    var dropped: nat

    ghost predicate Valid()
      reads this
    {
      forall x :: x in at ==> at[x] < |body|
    }

    constructor (at: map<nat, nat>, body: seq<Content>)
      requires forall x :: x in at ==> at[x] < |body|
      ensures this.at == at && this.body == body && made == 0 && linked == 0 && dropped == 0 && Valid()
    {
      this.at, this.body, made, linked, dropped := at, body, 0, 0, 0;
    }

    /** The first loop: what the choices make, in document order. */
    method MakeAll(r: Resolution, anchor: array<int>)
      requires Valid() && Anchors(r, anchor[..])
      modifies this
      ensures Valid() && anchor[..] == old(anchor[..]) && dropped == old(dropped)
      ensures forall i: nat :: i < |r.lines| && r.Held(i) ==> Chosen(r, anchor[..], at, body, i)
      ensures forall x: nat :: Elsewhere(r, |r.lines|, x) ==> SameAt(old(at), at, x)
      ensures old(body) <= body
      ensures (forall i: nat :: i < |r.lines| && r.Held(i) ==> Chosen(r, anchor[..], old(at), old(body), i)) ==>
        at == old(at) && body == old(body) && made == old(made) && linked == old(linked)
    {
      hide Resolution.Valid, Resolution.AnchorIs, Chosen;
      var at0, body0 := at, body;
      ghost var made0, linked0 := made, linked;
      ghost var already := forall i: nat :: i < |r.lines| && r.Held(i) ==> Chosen(r, anchor[..], at, body, i);
      for i: nat := 0 to |r.lines|
        invariant Valid() && anchor[..] == old(anchor[..]) && anchor.Length == |r.lines| && dropped == old(dropped) && body0 <= body
        invariant forall j: nat :: j < i && r.Held(j) ==> Chosen(r, anchor[..], at, body, j)
        invariant forall x: nat :: Elsewhere(r, i, x) ==> SameAt(at0, at, x)
        invariant already ==> at == at0 && body == body0 && made == made0 && linked == linked0
      {
        MakeOne(r, anchor, i, at0, body0);
      }
    }

    method MakeOne(r: Resolution, anchor: array<int>, i: nat, at0: map<nat, nat>, body0: seq<Content>)
      requires Valid() && Anchors(r, anchor[..]) && i < |r.lines| == anchor.Length && body0 <= body && forall x :: x in at0 ==> at0[x] < |body0|
      requires forall j: nat :: j < i && r.Held(j) ==> Chosen(r, anchor[..], at, body, j)
      requires forall x: nat :: Elsewhere(r, i, x) ==> SameAt(at0, at, x)
      modifies this
      ensures Valid() && dropped == old(dropped) && body0 <= body
      ensures forall j: nat :: j < i + 1 && r.Held(j) ==> Chosen(r, anchor[..], at, body, j)
      ensures forall x: nat :: Elsewhere(r, i + 1, x) ==> SameAt(at0, at, x)
      ensures r.Held(i) && Chosen(r, anchor[..], old(at), old(body), i) ==>
        at == old(at) && body == old(body) && made == old(made) && linked == old(linked)
      ensures !r.Held(i) ==> at == old(at) && body == old(body) && made == old(made) && linked == old(linked)
    {
      hide Dropped, Elsewhere;
      var next := i + 1;
      ElsewhereOne(r, i, next);
      if !r.Held(i) { return; }
      var x := r.lines[i].path;
      NotEarlier(r, i);
      assert Elsewhere(r, i, x) && SameAt(at0, at, x);
      assert r.AnchorIs(i, anchor[..][i]);
      if anchor[i] != NONE {
        var a: nat := anchor[i];
        AnchorHeld(r, anchor[..], at, body, i);
        var y := r.lines[a].path;
        if x in at && at[x] == at[y] { return; }
        StillChosen(r, anchor[..], at, body, at[x := at[y]], body, i);
        linked := linked + 1;
        at := at[x := at[y]];
        assert forall z: nat :: Elsewhere(r, next, z) ==> SameAt(at0, at, z);
      } else {
        // the oracle reads the result as it was walked; nothing since has touched this name
        if x in at0 && body0[at0[x]] == r.Side(i).ContentAt(x) { return; }
        StillChosen(r, anchor[..], at, body, at[x := |body|], body + [r.Side(i).ContentAt(x)], i);
        made := made + 1;
        ghost var was := at;
        at, body := at[x := |body|], body + [r.Side(i).ContentAt(x)];
        assert forall z: nat :: Elsewhere(r, next, z) ==> SameAt(at0, was, z) && z != x;
        assert forall z: nat :: Elsewhere(r, next, z) ==> SameAt(at0, at, z);
      }
    }

    /** The second loop: what the choices take away, backwards. */
    method DropAll(r: Resolution)
      requires Valid()
      modifies this
      ensures Valid() && body == old(body) && made == old(made) && linked == old(linked)
      ensures forall x :: x in at <==> x in old(at) && !Dropped(r, 0, x)
      ensures forall x :: x in at ==> at[x] == old(at)[x]
      ensures (forall i: nat :: i < |r.lines| && r.Drops(i) ==> r.lines[i].path !in old(at)) ==> dropped == old(dropped) && at == old(at)
    {
      for i: nat := |r.lines| downto 0
        invariant Valid() && body == old(body) && made == old(made) && linked == old(linked)
        invariant forall x :: x in at <==> x in old(at) && !Dropped(r, i, x)
        invariant forall x :: x in at ==> at[x] == old(at)[x]
        invariant (forall j: nat :: j < |r.lines| && r.Drops(j) ==> r.lines[j].path !in old(at)) ==> dropped == old(dropped) && at == old(at)
      {
        if r.Drops(i) && r.lines[i].path in at {
          dropped := dropped + 1;
          at := at - {r.lines[i].path};
        }
      }
    }

    /** `zr_apply_choices`: the document is true of the tree, and of one it is true of already nothing
        is made, linked or dropped. */
    method ApplyChoices(r: Resolution) returns (anchor: array<int>)
      requires Valid() && r.Valid() && made == linked == dropped == 0
      modifies this
      ensures Valid() && Anchors(r, anchor[..])
      ensures forall i: nat :: i < |r.lines| ==> Chosen(r, anchor[..], at, body, i)
      ensures forall x: nat :: Unasked(r, x) ==> SameAt(old(at), at, x)
      ensures old(body) <= body
      ensures (forall i: nat :: i < |r.lines| ==> Chosen(r, anchor[..], old(at), old(body), i)) ==>
        made == 0 && linked == 0 && dropped == 0 && at == old(at) && body == old(body)
    {
      hide Resolution.Valid, Resolution.AnchorIs, Chosen, Resolution.Held, Unasked, Elsewhere, Dropped;
      anchor := Picks(r);
      MakeAll(r, anchor);
      ghost var at1 := at;
      ghost var already := forall i: nat :: i < |r.lines| ==> Chosen(r, anchor[..], old(at), old(body), i);
      if already { DropsAbsent(r, anchor[..], old(at), old(body)); }
      DropAll(r);
      forall x: nat | Unasked(r, x) ensures SameAt(old(at), at, x) {
        UnaskedStays(r, x);
        assert SameAt(old(at), at1, x);
      }
      forall i: nat | i < |r.lines| ensures Chosen(r, anchor[..], at, body, i) { DropKeeps(r, anchor[..], at1, at, body, i); }
    }
  }

  /** The name is where it was, or absent as it was. */
  predicate SameAt(at: map<nat, nat>, at': map<nat, nat>, x: nat) {
    (x in at <==> x in at') && (x in at ==> at[x] == at'[x])
  }

  /** No line before i asks for the name. */
  ghost predicate Elsewhere(r: Resolution, i: nat, x: nat)
    requires i <= |r.lines|
  {
    forall j: nat :: j < i && r.Held(j) ==> r.lines[j].path != x
  }

  lemma ElsewhereOne(r: Resolution, i: nat, next: nat)
    requires i < |r.lines| && next == i + 1
    ensures forall x: nat :: Elsewhere(r, next, x) ==> Elsewhere(r, i, x) && (r.Held(i) ==> x != r.lines[i].path)
  {
  }

  /** No line asks anything of the name, but to keep it. */
  ghost predicate Unasked(r: Resolution, x: nat) {
    forall i: nat :: i < |r.lines| && !r.lines[i].choice.Keep? ==> r.lines[i].path != x
  }

  lemma UnaskedStays(r: Resolution, x: nat)
    requires Unasked(r, x)
    ensures Elsewhere(r, |r.lines|, x) && !Dropped(r, 0, x)
  {
  }

  ghost predicate Dropped(r: Resolution, i: nat, x: nat)
    requires i <= |r.lines|
  {
    exists j: nat :: i <= j < |r.lines| && r.Drops(j) && r.lines[j].path == x
  }

  lemma NotEarlier(r: Resolution, i: nat)
    requires r.Valid() && i < |r.lines|
    ensures Elsewhere(r, i, r.lines[i].path)
    ensures forall j: nat :: j < i ==> r.lines[j].path != r.lines[i].path
  {
  }

  lemma AnchorHeld(r: Resolution, anchor: seq<int>, at: map<nat, nat>, body: seq<Content>, i: nat)
    requires Anchors(r, anchor) && i < |r.lines| && anchor[i] != NONE && (forall x :: x in at ==> at[x] < |body|)
    requires forall j: nat :: j < i && r.Held(j) ==> Chosen(r, anchor, at, body, j)
    ensures 0 <= anchor[i] < i && r.Held(i) && r.Held(anchor[i]) && r.lines[anchor[i]].path in at
    ensures body[at[r.lines[anchor[i]].path]] == r.Side(i).ContentAt(r.lines[i].path)
  {
    assert r.AnchorIs(i, anchor[i]);
  }

  /** A step at a later line's own name undoes no earlier line. */
  lemma StillChosen(r: Resolution, anchor: seq<int>, at: map<nat, nat>, body: seq<Content>, at': map<nat, nat>, body': seq<Content>, i: nat)
    requires Anchors(r, anchor) && i < |r.lines| && (forall x :: x in at ==> at[x] < |body|) && (forall x :: x in at' ==> at'[x] < |body'|)
    requires body <= body' && r.lines[i].path in at' && at' == at[r.lines[i].path := at'[r.lines[i].path]]
    requires forall j: nat :: j < i && r.Held(j) ==> Chosen(r, anchor, at, body, j)
    ensures forall j: nat :: j < i && r.Held(j) ==> Chosen(r, anchor, at', body', j)
  {
    hide Resolution.AnchorIs;
    NotEarlier(r, i);
    forall j: nat | j < i && r.Held(j) ensures Chosen(r, anchor, at', body', j) { assert Chosen(r, anchor, at, body, j); }
  }

  lemma DropKeeps(r: Resolution, anchor: seq<int>, at: map<nat, nat>, at': map<nat, nat>, body: seq<Content>, i: nat)
    requires Anchors(r, anchor) && i < |r.lines| && (forall x :: x in at ==> at[x] < |body|) && (forall x :: x in at' ==> at'[x] < |body|)
    requires forall x :: x in at' <==> x in at && !Dropped(r, 0, x)
    requires forall x :: x in at' ==> at'[x] == at[x]
    requires forall j: nat :: j < |r.lines| && r.Held(j) ==> Chosen(r, anchor, at, body, j)
    ensures Chosen(r, anchor, at', body, i)
  {
    if r.Held(i) {
      HeldStays(r, i);
      assert Chosen(r, anchor, at, body, i);
      assert r.AnchorIs(i, anchor[i]);
      if 0 <= anchor[i] < i { HeldStays(r, anchor[i]); }
    } else if r.Drops(i) {
      assert Dropped(r, 0, r.lines[i].path);
    }
  }

  lemma DropsAbsent(r: Resolution, anchor: seq<int>, at: map<nat, nat>, body: seq<Content>)
    requires |anchor| == |r.lines| && (forall x :: x in at ==> at[x] < |body|) && forall i: nat :: i < |r.lines| ==> Chosen(r, anchor, at, body, i)
    ensures forall i: nat :: i < |r.lines| && r.Drops(i) ==> r.lines[i].path !in at
  {
    forall i: nat | i < |r.lines| && r.Drops(i) ensures r.lines[i].path !in at { assert Chosen(r, anchor, at, body, i); }
  }

  lemma HeldStays(r: Resolution, i: nat)
    requires r.Valid() && i < |r.lines| && r.Held(i)
    ensures !Dropped(r, 0, r.lines[i].path)
  {
  }

  /** Lines of one key end on one object. */
  lemma SameKeyTogether(r: Resolution, anchor: seq<int>, at: map<nat, nat>, body: seq<Content>, i: nat, j: nat)
    requires Anchors(r, anchor) && (forall x :: x in at ==> at[x] < |body|) && i < |r.lines| && j < |r.lines| && r.SameKey(i, j)
    requires forall k: nat :: k < |r.lines| ==> Chosen(r, anchor, at, body, k)
    ensures r.lines[i].path in at && r.lines[j].path in at && at[r.lines[i].path] == at[r.lines[j].path]
  {
    HeadOf(r, anchor, i, j);
    assert Chosen(r, anchor, at, body, i) && Chosen(r, anchor, at, body, j);
  }

  /** Lines of one key have one head. */
  lemma HeadOf(r: Resolution, anchor: seq<int>, i: nat, j: nat)
    requires Anchors(r, anchor) && i < |r.lines| && j < |r.lines| && r.SameKey(i, j)
    ensures (if anchor[i] == NONE then i else anchor[i]) == (if anchor[j] == NONE then j else anchor[j])
  {
    assert r.AnchorIs(i, anchor[i]) && r.AnchorIs(j, anchor[j]);
    if anchor[i] != NONE { assert r.SameKey(anchor[i], i) && r.SameKey(anchor[i], j); } else { assert r.SameKey(i, j); }
    if anchor[j] != NONE { assert r.SameKey(anchor[j], j) && r.SameKey(anchor[j], i); } else { assert r.SameKey(j, i); }
  }

  /** The anchors are the document's alone: two searches find the same. */
  lemma AnchorsAgree(r: Resolution, a: seq<int>, b: seq<int>)
    requires Anchors(r, a) && Anchors(r, b)
    ensures a == b
  {
    forall i: nat | i < |r.lines| ensures a[i] == b[i] {
      assert r.AnchorIs(i, a[i]) && r.AnchorIs(i, b[i]);
    }
  }

  /** Two applies of one document: the second finds every line true, and does nothing. */
  method ApplyTwice(r: Resolution, at: map<nat, nat>, body: seq<Content>) returns (first: Chooser, second: Chooser)
    requires r.Valid() && forall x :: x in at ==> at[x] < |body|
    ensures second.made == 0 && second.linked == 0 && second.dropped == 0
    ensures second.at == first.at && second.body == first.body
  {
    hide Resolution.Valid, Resolution.AnchorIs, Chosen;
    first := new Chooser(at, body);
    var a := first.ApplyChoices(r);
    second := new Chooser(first.at, first.body);
    var b := second.ApplyChoices(r);
    AnchorsAgree(r, a[..], b[..]);
  }
}
