/** The emitter of src/manifest.c: anchors, kept onto objects, and the one line every name gets.

    Where a type change from a directory would need a second line (`zm_type_change`) is outside
    this model: the trees agree on the type of every name both sides hold. */
module Manifest {
  import opened Trees
  import opened MergeSpec
  import opened Decide

  /** Manifest order, as `zm_walk_order` fixes it: `order` lists the names walked, `ord` is each
      name's place or -1, `kids` are the names with names below them. */
  datatype Walk = Walk(order: seq<nat>, ord: seq<int>, kids: set<nat>) {

    ghost predicate Valid(m: Merge) {
      && |ord| == m.n
      && (forall i :: 0 <= i < |order| ==> order[i] < m.n && ord[order[i]] == i)
      && (forall x: nat :: x < m.n ==> ord[x] == -1 || (0 <= ord[x] < |order| && order[ord[x]] == x))
      && (forall x: nat :: x < m.n && (m.Survives(x) || m.On(Onto, x)) ==> ord[x] != -1)
    }
  }

  datatype Act =
    | Nothing
    | Rm(dir: bool)
    | Ln(anchor: nat)
    | Cp(source: nat)
    | Dup(source: nat)
    | Write(source: nat)
    | Mark(group: int)
    | NoSource

  datatype Action = Action(act: Act, path: nat)

  // ----- anchors

  /** The first name of a list in manifest order. */
  function First(w: Walk, names: seq<nat>): (x: nat)
    requires names != [] && forall i :: 0 <= i < |names| ==> names[i] < |w.ord|
    ensures x in names && x < |w.ord| && forall y :: y in names ==> y < |w.ord| && w.ord[x] <= w.ord[y]
  {
    if |names| == 1 then names[0] else
    var best := First(w, names[..|names| - 1]);
    var last := names[|names| - 1];
    assert names == names[..|names| - 1] + [last];
    if w.ord[last] < w.ord[best] then last else best
  }

  /** The pool's names are surviving names numbered k, and its group exists. */
  ghost predicate PoolListed(m: Merge, d: Decision, k: nat)
    requires k < |d.pools| && |d.resultOf| == m.n
  {
    var p := d.pools[k];
    && p.names != [] && 0 <= p.group < |d.flags|
    && forall i :: 0 <= i < |p.names| ==> p.names[i] < m.n && d.resultOf[p.names[i]] == k
  }

  /** What the emitter is given: a valid merge, its walk, and pools of surviving names. */
  ghost predicate Emittable(m: Merge, d: Decision, w: Walk) {
    && m.Valid() && w.Valid(m) && |d.resultOf| == m.n && |d.groupOf| == m.NodeCount()
    && (forall x: nat :: x < m.n ==> (m.Survives(x) <==> 0 <= d.resultOf[x]) && d.resultOf[x] < |d.pools|)
    && (forall k: nat :: k < |d.pools| ==> PoolListed(m, d, k))
    && (forall x: nat :: x < m.n && 0 <= d.resultOf[x] ==> x in d.pools[d.resultOf[x]].names)
    && (forall u: nat :: u < m.NodeCount() ==> 0 <= d.groupOf[u] < |d.flags|)
  }

  /** The anchor of a result pool. */
  function Anchor(m: Merge, d: Decision, w: Walk, k: nat): (a: nat)
    requires Emittable(m, d, w) && k < |d.pools|
    ensures a < m.n && d.resultOf[a] == k && m.Survives(a)
  {
    PoolInTable(m, d, w, k);
    First(w, d.pools[k].names)
  }

  lemma PoolInTable(m: Merge, d: Decision, w: Walk, k: nat)
    requires Emittable(m, d, w) && k < |d.pools|
    ensures d.pools[k].names != [] && forall i :: 0 <= i < |d.pools[k].names| ==>
      d.pools[k].names[i] < m.n && d.resultOf[d.pools[k].names[i]] == k
  {
    assert PoolListed(m, d, k);
  }

  /** The onto object a result pool keeps: the onto pool whose own first name is the anchor. */
  function Keeps(m: Merge, d: Decision, w: Walk, k: nat): (q: int)
    requires Emittable(m, d, w) && k < |d.pools|
    ensures q == -1 || 0 <= q < |m.onto.pools|
  {
    var a := Anchor(m, d, w, k);
    if m.onto.Has(a) && FirstOfOnto(m, w, m.onto.poolOf[a]) == a then m.onto.poolOf[a] else -1
  }

  function FirstOfOnto(m: Merge, w: Walk, q: nat): (x: nat)
    requires m.Valid() && w.Valid(m) && q < |m.onto.pools|
    ensures x < m.n && m.onto.Has(x) && m.onto.poolOf[x] == q
  {
    OntoNames(m, q);
    First(w, m.onto.pools[q].names)
  }

  lemma FirstIsFirst(m: Merge, d: Decision, w: Walk, q: nat)
    requires Emittable(m, d, w) && q < |m.onto.pools|
    ensures m.onto.pools[q].names != [] && forall i :: 0 <= i < |m.onto.pools[q].names| ==> m.onto.pools[q].names[i] < |w.ord|
    ensures First(w, m.onto.pools[q].names) == FirstOfOnto(m, w, q)
    ensures var x := FirstOfOnto(m, w, q); m.Survives(x) ==> x < |d.resultOf| && 0 <= d.resultOf[x] < |d.pools|
  {
    OntoNames(m, q);
  }

  lemma KeptBy(m: Merge, d: Decision, w: Walk, k: nat, q: nat)
    requires Emittable(m, d, w) && k < |d.pools| && q < |m.onto.pools|
    ensures Keeps(m, d, w, k) == q <==>
      var x := FirstOfOnto(m, w, q); m.Survives(x) && d.resultOf[x] == k && Anchor(m, d, w, k) == x
  {
  }

  lemma WalkTable(m: Merge, d: Decision, w: Walk)
    requires Emittable(m, d, w)
    ensures |w.ord| == m.n
  {
  }

  lemma AnchorIsFirst(m: Merge, d: Decision, w: Walk, k: nat)
    requires Emittable(m, d, w) && k < |d.pools|
    ensures d.pools[k].names != [] && forall i :: 0 <= i < |d.pools[k].names| ==> d.pools[k].names[i] < |w.ord|
    ensures First(w, d.pools[k].names) == Anchor(m, d, w, k)
  {
    PoolInTable(m, d, w, k);
  }

  /** `zm_anchors`. */
  method Anchors(m: Merge, d: Decision, w: Walk) returns (anchor: array<nat>, keeps: array<int>)
    requires Emittable(m, d, w)
    ensures fresh(anchor) && fresh(keeps) && anchor.Length == keeps.Length == |d.pools|
    ensures forall k: nat :: k < |d.pools| ==> anchor[k] == Anchor(m, d, w, k) && keeps[k] == Keeps(m, d, w, k)
  {
    hide Merge.Valid, First, Emittable, Anchor, Keeps, FirstOfOnto;
    WalkTable(m, d, w);
    anchor := new nat[|d.pools|](_ => 0);
    keeps := new int[|d.pools|](_ => -1);
    for k: nat := 0 to |d.pools|
      invariant forall j: nat :: j < k ==> anchor[j] == Anchor(m, d, w, j)
      invariant forall j: nat :: j < |d.pools| ==> keeps[j] == -1
    {
      PoolInTable(m, d, w, k);
      AnchorIsFirst(m, d, w, k);
      anchor[k] := FirstName(w, d.pools[k].names);
    }
    for q: nat := 0 to |m.onto.pools|
      invariant forall j: nat :: j < |d.pools| ==> anchor[j] == Anchor(m, d, w, j)
      invariant forall j: nat :: j < |d.pools| ==> keeps[j] == if Keeps(m, d, w, j) < q then Keeps(m, d, w, j) else -1
    {
      FirstIsFirst(m, d, w, q);
      var first := FirstName(w, m.onto.pools[q].names);
      if m.Survives(first) {
        var k := d.resultOf[first];
        if anchor[k] == first { keeps[k] := q; }
      }
      forall j: nat | j < |d.pools|
        ensures Keeps(m, d, w, j) == q <==> m.Survives(first) && d.resultOf[first] == j && Anchor(m, d, w, j) == first
      {
        KeptBy(m, d, w, j, q);
      }
    }
    forall j: nat | j < |d.pools| ensures keeps[j] == Keeps(m, d, w, j) {}
  }

  lemma OntoNames(m: Merge, q: nat)
    requires m.Valid() && q < |m.onto.pools|
    ensures m.onto.pools[q].names != [] && forall x :: x in m.onto.pools[q].names ==> x < m.n && m.onto.Has(x) && m.onto.poolOf[x] == q
    ensures forall i :: 0 <= i < |m.onto.pools[q].names| ==> m.onto.pools[q].names[i] < m.n
  {
    assert m.onto.PoolValid(q);
    forall i | 0 <= i < |m.onto.pools[q].names| ensures m.onto.pools[q].names[i] < m.n {
      assert m.onto.pools[q].names[i] in m.onto.pools[q].names;
    }
  }

  /** The scan both loops of `zm_anchors` make. */
  method FirstName(w: Walk, names: seq<nat>) returns (x: nat)
    requires names != [] && forall i :: 0 <= i < |names| ==> names[i] < |w.ord|
    ensures x == First(w, names)
  {
    x := names[0];
    assert names[..1] == [names[0]];
    for i := 1 to |names|
      invariant x == First(w, names[..i])
    {
      assert names[..i + 1][..i] == names[..i];
      if w.ord[names[i]] < w.ord[x] { x := names[i]; }
    }
    assert names[..|names|] == names;
  }

  // ----- where bytes come from

  /** A name of from whose content is the result pool's. */
  predicate Offers(m: Merge, c: Content, y: nat)
    requires m.Valid()
  {
    m.from.Has(y) && m.from.ContentAt(y) == c
  }

  /** The first name of the list, in manifest order, that offers the content. */
  function FirstOffer(m: Merge, w: Walk, names: seq<nat>, c: Content): (r: Option<nat>)
    requires m.Valid() && forall i :: 0 <= i < |names| ==> names[i] < |w.ord|
    ensures r.Some? ==> r.value < |w.ord| && Offers(m, c, r.value)
  {
    if names == [] then None else
    var best := FirstOffer(m, w, names[..|names| - 1], c);
    var last := names[|names| - 1];
    if Offers(m, c, last) && (best.None? || w.ord[last] < w.ord[best.value]) then Some(last) else best
  }

  /** `zm_from_path`: the name itself when it will do, else the pool's first name that does. */
  function FromPath(m: Merge, d: Decision, w: Walk, x: nat, k: nat, c: Content): (r: Option<nat>)
    requires Emittable(m, d, w) && k < |d.pools|
    ensures r.Some? ==> Offers(m, c, r.value)
  {
    if Offers(m, c, x) then Some(x) else
    AnchorIsFirst(m, d, w, k);
    FirstOffer(m, w, d.pools[k].names, c)
  }

  method FromPathOf(m: Merge, d: Decision, w: Walk, x: nat, k: nat, c: Content) returns (r: Option<nat>)
    requires Emittable(m, d, w) && k < |d.pools|
    ensures r == FromPath(m, d, w, x, k, c)
  {
    hide Merge.Valid;
    if Offers(m, c, x) { return Some(x); }
    AnchorIsFirst(m, d, w, k);
    var names := d.pools[k].names;
    r := None;
    for i := 0 to |names|
      invariant r == FirstOffer(m, w, names[..i], c)
    {
      assert names[..i + 1][..i] == names[..i];
      if Offers(m, c, names[i]) && (r.None? || w.ord[names[i]] < w.ord[r.value]) { r := Some(names[i]); }
    }
    assert names[..|names|] == names;
  }

  /** Another result pool keeps an onto object with this content. */
  predicate Copyable(m: Merge, d: Decision, w: Walk, k: nat, c: Content, j: nat)
    requires Emittable(m, d, w) && j < |d.pools|
  {
    j != k && Keeps(m, d, w, j) != -1 && m.onto.pools[Keeps(m, d, w, j)].content == c
  }

  /** `zm_dup_path`: the anchor of the first such pool from j on. */
  function DupPath(m: Merge, d: Decision, w: Walk, k: nat, c: Content, j: nat): (r: Option<nat>)
    requires Emittable(m, d, w) && k < |d.pools|
    ensures r.Some? ==> m.onto.Has(r.value) && m.onto.ContentAt(r.value) == c
    decreases |d.pools| - j
  {
    if j >= |d.pools| then None
    else if Copyable(m, d, w, k, c, j) then Some(Anchor(m, d, w, j))
    else DupPath(m, d, w, k, c, j + 1)
  }

  method DupPathOf(m: Merge, d: Decision, w: Walk, k: nat, c: Content, anchor: array<nat>, keeps: array<int>) returns (r: Option<nat>)
    requires Emittable(m, d, w) && k < |d.pools| && anchor.Length == keeps.Length == |d.pools|
    requires forall j: nat :: j < |d.pools| ==> anchor[j] == Anchor(m, d, w, j) && keeps[j] == Keeps(m, d, w, j)
    ensures r == DupPath(m, d, w, k, c, 0)
  {
    hide Merge.Valid, Emittable, Anchor, Keeps;
    for j: nat := 0 to |d.pools|
      invariant DupPath(m, d, w, k, c, j) == DupPath(m, d, w, k, c, 0)
    {
      if j != k && keeps[j] != -1 && m.onto.pools[keeps[j]].content == c { return Some(anchor[j]); }
    }
    r := None;
  }

  // ----- the line of a name

  /** `zm_types`: onto's idea of the type, else from's; a name with names below it is a directory. */
  predicate DirFlag(m: Merge, w: Walk, x: nat)
    requires m.Valid()
  {
    || x in w.kids
    || (m.onto.Has(x) && m.onto.ContentAt(x).kind == Directory)
    || (!m.onto.Has(x) && m.from.Has(x) && m.from.ContentAt(x).kind == Directory)
  }

  /** `zm_action_of` for a name the result does not have. */
  function LostAct(m: Merge, d: Decision, w: Walk, x: nat): Act
    requires Emittable(m, d, w) && x < m.n && !m.Survives(x)
  {
    if m.onto.Has(x) then
      var g := d.groupOf[m.Node(Onto, m.At(Onto, x))];
      if d.flags[g] != {} then Mark(g) else Rm(DirFlag(m, w, x))
    else if m.from.Has(x) then
      var g := d.groupOf[m.Node(From, m.At(From, x))];
      if d.flags[g] != {} then Mark(g) else Nothing
    else Nothing
  }

  /** `zm_action_of` for an anchor whose pool's content is c. */
  function AnchorAct(m: Merge, d: Decision, w: Walk, x: nat, k: nat, c: Content): Act
    requires Emittable(m, d, w) && k < |d.pools|
  {
    var q := Keeps(m, d, w, k);
    var from := FromPath(m, d, w, x, k, c);
    if q != -1 then
      if m.onto.pools[q].content == c then Nothing else if from.Some? then Write(from.value) else NoSource
    else if from.Some? then Cp(from.value)
    else var dup := DupPath(m, d, w, k, c, 0); if dup.Some? then Dup(dup.value) else NoSource
  }

  /** `zm_action_of`. */
  function ActOf(m: Merge, d: Decision, w: Walk, x: nat): Act
    requires Emittable(m, d, w) && x < m.n
  {
    if !m.Survives(x) then LostAct(m, d, w, x) else
    var k := d.resultOf[x];
    var p := d.pools[k];
    assert PoolListed(m, d, k);
    if d.flags[p.group] != {} || p.content.None? then Mark(p.group)
    else if x == Anchor(m, d, w, k) then AnchorAct(m, d, w, x, k, p.content.value)
    else if m.onto.Has(x) && m.onto.poolOf[x] == Keeps(m, d, w, k) then Nothing
    else Ln(Anchor(m, d, w, k))
  }

  /** The lines of the first i names walked. */
  function Lines(m: Merge, d: Decision, w: Walk, i: nat): (r: seq<Action>)
    requires Emittable(m, d, w) && i <= |w.order|
  {
    if i == 0 then [] else
    var a := ActOf(m, d, w, w.order[i - 1]);
    Lines(m, d, w, i - 1) + (if a == Nothing then [] else [Action(a, w.order[i - 1])])
  }

  /** `zm_err`: some content has no source. */
  ghost predicate Sourceless(m: Merge, d: Decision, w: Walk, i: nat)
    requires Emittable(m, d, w) && i <= |w.order|
  {
    exists j :: 0 <= j < i && ActOf(m, d, w, w.order[j]) == NoSource
  }

  method ActionOf(m: Merge, d: Decision, w: Walk, x: nat, anchor: array<nat>, keeps: array<int>) returns (a: Act)
    requires Emittable(m, d, w) && x < m.n && anchor.Length == keeps.Length == |d.pools|
    requires forall j: nat :: j < |d.pools| ==> anchor[j] == Anchor(m, d, w, j) && keeps[j] == Keeps(m, d, w, j)
    ensures a == ActOf(m, d, w, x)
  {
    if !m.Survives(x) { return LostAct(m, d, w, x); }
    var k := d.resultOf[x];
    assert PoolListed(m, d, k);
    var p := d.pools[k];
    if d.flags[p.group] != {} || p.content.None? { return Mark(p.group); }
    if x != anchor[k] {
      return if m.onto.Has(x) && m.onto.poolOf[x] == keeps[k] then Nothing else Ln(anchor[k]);
    }
    var c := p.content.value;
    if keeps[k] != -1 && m.onto.pools[keeps[k]].content == c { return Nothing; }
    var from := FromPathOf(m, d, w, x, k, c);
    if keeps[k] != -1 { return if from.Some? then Write(from.value) else NoSource; }
    if from.Some? { return Cp(from.value); }
    var dup := DupPathOf(m, d, w, k, c, anchor, keeps);
    a := if dup.Some? then Dup(dup.value) else NoSource;
  }

  lemma OrderInTable(m: Merge, d: Decision, w: Walk)
    requires Emittable(m, d, w)
    ensures forall i :: 0 <= i < |w.order| ==> w.order[i] < m.n
  {
  }

  /** The emitter: the lines in manifest order, or nothing when some content has no source. */
  method Emit(m: Merge, d: Decision, w: Walk) returns (lines: Option<seq<Action>>)
    requires Emittable(m, d, w)
    ensures lines.None? <==> Sourceless(m, d, w, |w.order|)
    ensures lines.Some? ==> lines.value == Lines(m, d, w, |w.order|)
  {
    hide Merge.Valid, Emittable, ActOf, Anchor, Keeps;
    OrderInTable(m, d, w);
    var anchor, keeps := Anchors(m, d, w);
    var out: seq<Action> := [];
    for i: nat := 0 to |w.order|
      invariant out == Lines(m, d, w, i) && !Sourceless(m, d, w, i)
      invariant forall j: nat :: j < |d.pools| ==> anchor[j] == Anchor(m, d, w, j) && keeps[j] == Keeps(m, d, w, j)
    {
      var a := ActionOf(m, d, w, w.order[i], anchor, keeps);
      if a == NoSource { return None; }
      if a != Nothing { out := out + [Action(a, w.order[i])]; }
    }
    lines := Some(out);
  }
}
