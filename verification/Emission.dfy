/** `zr_manifest_emit` of src/manifest.c, its tree section: from a decision over its nodes to the lines
    of the document, and what the parser makes of them. */
module Emission {
  import opened Trees
  import opened MergeSpec
  import opened ContentSpec
  import opened Decide
  import opened Paths
  import opened Namespace
  import opened Order
  import M = Manifest
  import Document
  import Kinds
  import Rebase
  import Replay
  import Emitted
  import Printing
  import RootLines

  /** The lines are about walked names, each name's once. */
  ghost predicate LinesPlaced(t: Names, w: M.Walk, gs: seq<M.Action>) {
    && |w.ord| == |t.path|
    && (forall j :: 0 <= j < |gs| ==> gs[j].path < |t.path| && w.ord[gs[j].path] != -1)
    && (forall i, j :: 0 <= i < j < |gs| ==> gs[i].path != gs[j].path)
  }

  /** Which line each node has. */
  ghost predicate Placed(gs: seq<M.Action>, nodeOf: seq<int>, n: nat, acts: seq<int>) {
    && n <= |gs|
    && (forall k :: 0 <= k < |acts| && acts[k] != NONE ==> 0 <= acts[k] < n && gs[acts[k]].path < |nodeOf| && nodeOf[gs[acts[k]].path] == k)
    && (forall j :: 0 <= j < n ==> gs[j].path < |nodeOf| && 0 <= nodeOf[gs[j].path] < |acts| && acts[nodeOf[gs[j].path]] == j)
  }

  /** `zn_act`: the code keeps a line on its node; here the list has the line and the node its place. */
  method PlaceLines(t: Names, root: int, name: seq<int>, nodeOf: array<int>, w: M.Walk, gs: seq<M.Action>) returns (acts: seq<int>)
    requires NamesOfNodes(t, root, name, nodeOf[..], w) && LinesPlaced(t, w, gs)
    ensures |acts| == |name| && Placed(gs, nodeOf[..], |gs|, acts)
  {
    acts := seq(|name|, _ => NONE);
    for j: nat := 0 to |gs|
      invariant |acts| == |name| && Placed(gs, nodeOf[..], j, acts)
    {
      var x := gs[j].path;
      assert name[nodeOf[..][x]] == x;
      forall i | 0 <= i < j ensures nodeOf[gs[i].path] != nodeOf[x] { assert name[nodeOf[..][gs[i].path]] == gs[i].path; }
      acts := acts[nodeOf[x] := j];
    }
  }

  /** `zn_dir`. */
  method Slashes(m: Merge, t: Names, root: int, name: seq<int>, ghost nodeOf: seq<int>, w: M.Walk) returns (dirs: seq<bool>)
    requires m.Valid() && |t.path| == m.n && NamesOfNodes(t, root, name, nodeOf, w)
    ensures |dirs| == |name| && forall k: nat :: k < |name| ==> dirs[k] == (k == 0 || M.DirFlag(m, w, name[k]))
  {
    dirs := [];
    for k: nat := 0 to |name|
      invariant |dirs| == k && forall j: nat :: j < k ==> dirs[j] == (j == 0 || M.DirFlag(m, w, name[j]))
    {
      dirs := dirs + [k == 0 || M.DirFlag(m, w, name[k])];
    }
  }

  /** A directory of the tree of nodes has the slash. */
  lemma ParentHasSlash(m: Merge, d: Decision, t: Names, root: int, name: seq<int>, nodeOf: seq<int>, parent: seq<nat>, w: M.Walk, k: nat)
    requires Grouped(m, d) && t.Valid() && |t.path| == m.n && WalkFor(m, d, t, w) && NamesOfNodes(t, root, name, nodeOf, w)
    requires Parented(NodePaths(t, name), parent) && 0 < k < |name|
    ensures parent[k] < |name| && (parent[k] == 0 || M.DirFlag(m, w, name[parent[k]]))
  {
    hide Names.Valid, Merge.Valid, Needed, Before;
    var P := NodePaths(t, name);
    assert IsParent(P, parent, k);
    var p := parent[k];
    if p != 0 {
      KidUnder(P, parent, p, k);
      assert HasKid(t, w, name[p]);
      assert name[p] in w.kids;
    }
  }

  lemma NodeCarries(m: Merge, d: Decision, t: Names, root: int, name: seq<int>, nodeOf: seq<int>, w: M.Walk, gs: seq<M.Action>,
                    acts: seq<int>, dirs: seq<bool>, k: nat)
    requires Grouped(m, d) && t.Valid() && |t.path| == m.n && WalkFor(m, d, t, w) && NamesOfNodes(t, root, name, nodeOf, w)
    requires LinesPlaced(t, w, gs) && Placed(gs, nodeOf, |gs|, acts) && |acts| == |name| == |dirs| && Emitted.SayableAll(m, t, gs)
    requires k < |name| && acts[k] != NONE && dirs[k] == (k == 0 || M.DirFlag(m, w, name[k]))
    ensures 0 <= acts[k] < |gs| && Emitted.Deeds(m, t, w, gs)[acts[k]].path == NodePaths(t, name)[k]
    ensures Emitted.Deeds(m, t, w, gs)[acts[k]].dir == dirs[k]
  {
    hide Names.Valid, Merge.Valid, Needed, Before, Emitted.WordFor, Emitted.Sayable;
    var x := gs[acts[k]].path;
    assert name[nodeOf[x]] == x;
    if k == 0 {
      assert t.path[x] == [] by { RootHasNoPath(t, root, x); }
      assert x in w.kids;
    }
  }

  lemma RootHasNoPath(t: Names, root: int, x: nat)
    requires t.Valid() && t.IsRoot(root) && root == x && x < |t.path|
    ensures t.path[x] == []
  {
  }

  /** The nodes carry the list. */
  lemma NodesCarry(m: Merge, d: Decision, t: Names, root: int, name: seq<int>, nodeOf: seq<int>, parent: seq<nat>, w: M.Walk,
                   gs: seq<M.Action>, acts: seq<int>, dirs: seq<bool>)
    requires Grouped(m, d) && t.Valid() && |t.path| == m.n && WalkFor(m, d, t, w) && NamesOfNodes(t, root, name, nodeOf, w)
    requires Parented(NodePaths(t, name), parent) && LinesPlaced(t, w, gs) && Placed(gs, nodeOf, |gs|, acts) && |acts| == |name| == |dirs|
    requires Emitted.SayableAll(m, t, gs) && forall k: nat :: k < |name| ==> dirs[k] == (k == 0 || M.DirFlag(m, w, name[k]))
    ensures Printing.Carried(NodePaths(t, name), parent, Emitted.Deeds(m, t, w, gs), acts, dirs)
  {
    hide Names.Valid, Merge.Valid, WalkFor, Before, Emitted.SayableAll, M.DirFlag, LinesPlaced, NodesValid, Grouped;
    var P := NodePaths(t, name);
    var deeds := Emitted.Deeds(m, t, w, gs);
    forall k | 0 <= k < |P| && acts[k] != NONE ensures 0 <= acts[k] < |deeds| && deeds[acts[k]].path == P[k] && deeds[acts[k]].dir == dirs[k] {
      NodeCarries(m, d, t, root, name, nodeOf, w, gs, acts, dirs, k);
    }
    forall j: nat | j < |deeds| ensures Printing.HasNode(acts, j) { assert acts[nodeOf[gs[j].path]] == j; }
    forall k: nat | 0 < k < |P| ensures parent[k] < |P| && dirs[parent[k]] {
      ParentHasSlash(m, d, t, root, name, nodeOf, parent, w, k);
    }
  }

  lemma EmittedPlaced(m: Merge, d: Decision, t: Names, w: M.Walk)
    requires Grouped(m, d) && |t.path| == m.n && WalkFor(m, d, t, w) && M.Emittable(m, d, w)
    ensures LinesPlaced(t, w, M.Lines(m, d, w, |w.order|))
  {
    hide M.Lines, M.ActOf, Merge.Valid, Needed, Before;
    Replay.LinesFollowWalk(m, d, w, |w.order|);
  }

  /** The document of a decision: there is one exactly when every content has a source, and it is read
      back as the list it prints if and only if "/" stays as onto has it. */
  method EmitManifest(m: Merge, ghost c: Table, d: Decision, t: Names, root: int) returns (lines: Option<seq<Document.Line>>, w: M.Walk)
    requires m.Valid() && DecisionFor(m, c, d) && Kinds.SameKinds(m) && Grouped(m, d) && t.Valid() && |t.path| == m.n && t.IsRoot(root)
    requires Emitted.NamesOk(t) && Rooted(t, m.from) && Rooted(t, m.onto)
    ensures WalkFor(m, d, t, w) && M.Emittable(m, d, w) && (lines.None? <==> M.Sourceless(m, d, w, |w.order|))
    ensures lines.Some? ==> Emitted.SayableAll(m, t, M.Lines(m, d, w, |w.order|))
    ensures lines.Some? ==>
      (Document.Parse(lines.value) == Some(Emitted.Deeds(m, t, w, M.Lines(m, d, w, |w.order|))) <==> RootLines.RootStill(m, d, t))
  {
    hide Merge.Valid, DecisionFor, Kinds.SameKinds, Grouped, Names.Valid, Emitted.NamesOk, Rooted, WalkFor, M.Emittable, M.Sourceless,
      M.Lines, M.ActOf, Emitted.SayableAll, RootLines.RootStill, Document.Parse, NamesOfNodes, Parented, Linked, Walked, NodePaths,
      LinesPlaced, Placed, Printing.Carried, Printing.ShownRight, Emitted.RootQuiet, Rebase.Ready, Emitted.Deeds;
    var name, nodeOf, parent, first, next, order, ord, walk := BuildNodes(m, d, t, root);
    w := walk;
    ghost var nodes := nodeOf[..];
    NodeFacts(m, d, t, root, name, nodes, parent, first[..], next[..], order[..], ord[..], w);
    IsReady(m, c, d, t, w);
    var gs := M.Emit(m, d, w);
    if gs.None? { return None, w; }
    Emitted.LinesSayable(m, d, t, w, |w.order|);
    EmittedPlaced(m, d, t, w);
    var acts := PlaceLines(t, root, name, nodeOf, w, gs.value);
    var dirs := Slashes(m, t, root, name, nodes, w);
    NodesCarry(m, d, t, root, name, nodes, parent, w, gs.value, acts, dirs);
    var P := PathsOf(t, name);
    var show := Printing.Show(P, parent, acts);
    var deeds := Emitted.Deeds(m, t, w, gs.value);
    var out := Printing.EmitTree(P, parent, first, next, show, deeds, acts, dirs, order[..], ord[..]);
    RootLines.QuietIffStill(m, c, d, t, w);
    if Emitted.RootQuiet(t, gs.value) {
      Emitted.EmittedCanonical(m, d, t, w);
    } else {
      Emitted.LoudIsLost(m, t, w, gs.value, out);
    }
    lines := Some(out);
  }

  lemma NodeFacts(m: Merge, d: Decision, t: Names, root: int, name: seq<int>, nodeOf: seq<int>, parent: seq<nat>,
                  first: seq<int>, next: seq<int>, order: seq<nat>, ord: seq<nat>, w: M.Walk)
    requires Grouped(m, d) && t.Valid() && |t.path| == m.n
    requires NodesBuilt(m, d, t, root, name, nodeOf, parent, first, next, order, ord, w)
    ensures WalkFor(m, d, t, w) && NamesOfNodes(t, root, name, nodeOf, w) && |first| == |next| == |name| == |NodePaths(t, name)|
    ensures forall k :: 0 < k < |name| ==> 0 <= name[k] < |t.path|
    ensures var P := NodePaths(t, name); Parented(P, parent) && Linked(P, parent, Nodes(|P|), first, next) && Walked(P, order, ord)
  {
  }

  lemma IsReady(m: Merge, c: Table, d: Decision, t: Names, w: M.Walk)
    requires m.Valid() && DecisionFor(m, c, d) && Kinds.SameKinds(m) && Grouped(m, d) && t.Valid() && |t.path| == m.n
    requires WalkFor(m, d, t, w) && Rooted(t, m.from) && Rooted(t, m.onto)
    ensures Rebase.Ready(m, c, d, w) && M.Emittable(m, d, w)
  {
    hide DecisionFor, Kinds.SameKinds, WalkFor, Rooted, Rebase.KidsAreDirectories, M.Emittable;
    KidsOfTrees(m, d, t, w);
    Replay.WalkIsValid(m, d, t, w);
    Rebase.ReadyEmits(m, c, d, w);
  }
}
