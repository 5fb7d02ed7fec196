/** A whole rebase over real paths: decide, put the names in order, emit, apply. */
module Replay {
  import opened Trees
  import opened MergeSpec
  import opened ContentSpec
  import opened Decide
  import opened HashSet
  import opened Manifest
  import opened Apply
  import opened Compile
  import opened Kinds
  import opened Rebase
  import opened Promises
  import opened Consequences
  import opened Paths
  import opened Namespace
  import opened Order
  import opened Removal
  import Shared = Unexpressed

  /** Which path lies inside which directory: `za_under`, which never says so of "/". */
  function Within(t: Names): (nat, nat) -> bool {
    (d: nat, x: nat) => d < |t.path| && x < |t.path| && t.path[d] != [] && Under(t.path[d], t.path[x])
  }

  /** Three sealed trees over one name table, that agree on the type of shared names and hold what
      they hold inside directories. */
  ghost predicate Given(m: Merge, t: Names, root: int) {
    && m.Valid() && |m.base.pools| <= Shared.WORD && SameKinds(m)
    && t.Valid() && |t.path| == m.n && t.IsRoot(root) && Rooted(t, m.from) && Rooted(t, m.onto)
  }

  /** The rebase.  There is no list exactly when some pool is bare; otherwise the applied tree has the
      conflicted groups as onto left them, and the clean ones as decided, but for
      stranded names and stuck pools. */
  method Replay(m: Merge, home: Homing, t: Names, root: int) returns (d: Decision, ghost c: Table, w: Walk, tree: Option<Applier>)
    requires Given(m, t, root)
    ensures DecisionFor(m, c, d) && Grouped(m, d) && WalkFor(m, d, t, w) && Emittable(m, d, w)
    ensures tree.None? <==> SomeBare(m, d, w)
    ensures tree.Some? ==> tree.value.Valid() && Untouched(m, d, w, tree.value.Now())
    ensures tree.Some? ==> (Reaches(m, d, w, tree.value.Now()) <==> NothingLost(m, d, w))
  {
    hide Merge.Valid, DecisionFor, SameKinds, Walk.Valid, KidsAreDirectories, Emittable, ActOf, Reaches, Untouched,
      NothingLost, SomeBare, ApplyAll, Lines, WalkFor, Grouped;
    d, c := Decide.Decide(m, home);
    DecisionGrouped(m, c, d);
    w := BuildWalk(m, d, t, root);
    KidsOfTrees(m, d, t, w);
    WalkIsValid(m, d, t, w);
    ReadyEmits(m, c, d, w);
    SourcelessIffBare(m, d, w);
    var lines := Emit(m, d, w);
    if lines.None? { return d, c, w, None; }
    EmittedListReaches(m, c, d, w, Within(t));
    var start := StoreOf(m.onto);
    var a := new Applier(SourcesOf(m, Within(t)), start.at, start.body);
    var ok := a.ApplyList(lines.value);
    tree := Some(a);
  }

  lemma DecisionGrouped(m: Merge, c: Table, d: Decision)
    requires m.Valid() && DecisionFor(m, c, d)
    ensures Grouped(m, d)
  {
  }

  lemma WalkIsValid(m: Merge, d: Decision, t: Names, w: Walk)
    requires Grouped(m, d) && |t.path| == m.n && WalkFor(m, d, t, w)
    ensures w.Valid(m)
  {
  }

  // ----- the emitted list, as the apply reads it

  /** The lines emitted so far are of names walked so far, in order. */
  lemma {:induction false} LinesFollowWalk(m: Merge, d: Decision, w: Walk, i: nat)
    requires Emittable(m, d, w) && i <= |w.order|
    ensures forall k :: 0 <= k < |Lines(m, d, w, i)| ==>
      Lines(m, d, w, i)[k].path < m.n && 0 <= w.ord[Lines(m, d, w, i)[k].path] < i
    ensures forall j, k :: 0 <= j < k < |Lines(m, d, w, i)| ==> w.ord[Lines(m, d, w, i)[j].path] < w.ord[Lines(m, d, w, i)[k].path]
  {
    hide ActOf, Merge.Valid, PoolListed;
    if i > 0 { LinesFollowWalk(m, d, w, i - 1); }
  }

  /** An emitted list is in manifest order, so its removals end as their scopes do. */
  lemma EmittedInOrder(m: Merge, d: Decision, t: Names, w: Walk)
    requires Grouped(m, d) && t.Valid() && |t.path| == m.n && WalkFor(m, d, t, w) && Emittable(m, d, w)
    ensures InOrder(t, Lines(m, d, w, |w.order|)) && ScopesAre(SourcesOf(m, Within(t)), t)
  {
    hide ActOf, Merge.Valid, PoolListed, Before, Names.Valid;
    LinesFollowWalk(m, d, w, |w.order|);
    var list := Lines(m, d, w, |w.order|);
    forall i, j | 0 <= i < j < |list| ensures Before(t.path[list[i].path], t.path[list[j].path]) {
      assert w.order[w.ord[list[i].path]] == list[i].path && w.order[w.ord[list[j].path]] == list[j].path;
    }
  }
}
