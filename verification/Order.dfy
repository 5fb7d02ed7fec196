/** Manifest order put together: the nodes of a decision's namespace, walked, as the emitter uses
    them.  Every emitted ln names an earlier path. */
module Order {
  import opened Paths
  import opened Namespace
  import opened Trees
  import opened MergeSpec
  import opened Decide
  import opened Manifest
  import opened Rebase
  import opened Kinds

  /** What `zm_build` marks first: survivors, onto's names, and from's in conflicted groups. */
  predicate Spoken(m: Merge, d: Decision, x: nat)
    requires m.Valid() && |d.groupOf| == m.NodeCount()
    requires forall u: nat :: u < m.NodeCount() ==> 0 <= d.groupOf[u] < |d.flags|
  {
    || m.Survives(x) || m.On(Onto, x)
    || (m.On(From, x) && d.flags[d.groupOf[m.Node(From, m.At(From, x))]] != {})
  }

  /** The decision's groups are in its table. */
  ghost predicate Grouped(m: Merge, d: Decision) {
    m.Valid() && |d.groupOf| == m.NodeCount() && forall u: nat :: u < m.NodeCount() ==> 0 <= d.groupOf[u] < |d.flags|
  }

  /** The first two loops of `zm_build`. */
  method Speak(m: Merge, d: Decision) returns (wanted: array<bool>)
    requires Grouped(m, d)
    ensures fresh(wanted) && wanted.Length == m.n && forall x: nat :: x < m.n ==> wanted[x] == Spoken(m, d, x)
  {
    wanted := new bool[m.n](_ => false);
    for x: nat := 0 to m.n
      invariant forall y: nat :: y < m.n ==> wanted[y] == (y < x && (m.Survives(y) || m.On(Onto, y)))
    {
      wanted[x] := m.Survives(x) || m.On(Onto, x);
    }
    for q: nat := 0 to |m.from.pools|
      invariant forall y: nat :: y < m.n ==> (wanted[y] <==> m.Survives(y) || m.On(Onto, y) || SpokenBy(m, d, q, y))
    {
      if d.flags[d.groupOf[m.Node(From, q)]] != {} {
        PoolNames(m, From, q);
        var names := m.from.pools[q].names;
        for i := 0 to |names|
          invariant forall y: nat :: y < m.n ==>
            (wanted[y] <==> m.Survives(y) || m.On(Onto, y) || SpokenBy(m, d, q, y) || y in names[..i])
        {
          assert names[i] in names && names[..i + 1] == names[..i] + [names[i]];
          wanted[names[i]] := true;
        }
        assert names[..|names|] == names;
        forall y: nat | y < m.n ensures y in names <==> m.On(From, y) && m.At(From, y) == q {}
      }
    }
  }

  /** A from pool below the given one, in a conflicted group, holds y. */
  predicate SpokenBy(m: Merge, d: Decision, q: nat, y: nat)
    requires Grouped(m, d) && q <= |m.from.pools|
  {
    m.On(From, y) && m.At(From, y) < q && d.flags[d.groupOf[m.Node(From, m.At(From, y))]] != {}
  }

  // ----- the nodes

  /** `zm_nodes` by name: node 0 is the root's name or NONE, the others the marked names. */
  ghost predicate NodesFor(t: Names, mark: seq<bool>, root: int, name: seq<int>, nodeOf: seq<int>)
    requires t.Valid() && |mark| == |t.path|
  {
    && name != [] && |nodeOf| == |t.path| && name[0] == root && t.IsRoot(root)
    && (forall k :: 0 < k < |name| ==> 0 <= name[k] < |t.path| && mark[name[k]] && name[k] != root)
    && (forall x :: 0 <= x < |t.path| ==> -1 <= nodeOf[x] < |name| && (nodeOf[x] != NONE <==> mark[x] || x == root))
    && (forall x :: 0 <= x < |t.path| && nodeOf[x] != NONE ==> name[nodeOf[x]] == x)
    && (forall k :: 0 <= k < |name| && name[k] != NONE ==> nodeOf[name[k]] == k)
  }

  method NumberNodes(t: Names, mark: array<bool>, root: int) returns (name: seq<int>, nodeOf: array<int>)
    requires t.Valid() && mark.Length == |t.path| && t.IsRoot(root)
    ensures NodesFor(t, mark[..], root, name, nodeOf[..])
  {
    nodeOf := new int[|t.path|](_ => NONE);
    name := [root];
    if root != NONE { nodeOf[root] := 0; }
    for n: nat := 0 to |t.path|
      invariant name != [] && name[0] == root
      invariant forall k :: 0 < k < |name| ==> 0 <= name[k] < n && mark[name[k]] && name[k] != root
      invariant forall x :: 0 <= x < |t.path| ==> -1 <= nodeOf[x] < |name|
      invariant forall x :: 0 <= x < |t.path| ==> (nodeOf[x] != NONE <==> (x < n && mark[x]) || x == root)
      invariant forall x :: 0 <= x < |t.path| && nodeOf[x] != NONE ==> name[nodeOf[x]] == x
      invariant forall k :: 0 <= k < |name| && name[k] != NONE ==> nodeOf[name[k]] == k
    {
      if mark[n] && n != root {
        nodeOf[n] := |name|;
        name := name + [n];
      }
    }
  }

  /** The paths of the nodes. */
  ghost function NodePaths(t: Names, name: seq<int>): (P: seq<Path>)
    requires forall k :: 0 < k < |name| ==> 0 <= name[k] < |t.path|
  {
    seq(|name|, (k: nat) requires k < |name| => if k == 0 then [] else t.path[name[k]])
  }

  lemma NodePathsValid(t: Names, mark: seq<bool>, root: int, name: seq<int>, nodeOf: seq<int>)
    requires t.Valid() && |mark| == |t.path| && NodesFor(t, mark, root, name, nodeOf)
    ensures NodesValid(NodePaths(t, name))
    ensures forall k :: 0 < k < |name| ==> NodePaths(t, name)[k] != []
    ensures forall k :: 0 <= k < |name| && name[k] != NONE ==> NodePaths(t, name)[k] == t.path[name[k]]
  {
    var P := NodePaths(t, name);
    forall k | 0 < k < |P| ensures P[k] != [] {
      if root != NONE { assert nodeOf[root] == 0; }
    }
  }

  /** The node `zm_build` hangs node k under. */
  function ParentNode(t: Names, name: seq<int>, nodeOf: seq<int>, k: nat): int
    requires 0 < k < |name| && 0 <= name[k] < |t.up| && |nodeOf| == |t.path| && -1 <= t.up[name[k]] < |t.path|
  {
    if t.up[name[k]] != NONE && nodeOf[t.up[name[k]]] != NONE then nodeOf[t.up[name[k]]] else 0
  }

  lemma ParentNodeRight(t: Names, mark: seq<bool>, root: int, name: seq<int>, nodeOf: seq<int>, k: nat)
    requires t.Valid() && |mark| == |t.path| && NodesFor(t, mark, root, name, nodeOf) && 0 < k < |name|
    requires forall x: nat :: x < |t.path| && mark[x] ==> Climbed(t, mark, x)
    ensures 0 <= name[k] < |t.up| && |nodeOf| == |t.path| && -1 <= t.up[name[k]] < |t.path|
    ensures var P := NodePaths(t, name); var p := ParentNode(t, name, nodeOf, k);
      0 <= p < |P| && P[k] != [] && P[p] == Parent(P[k])
  {
    var x := name[k];
    assert t.UpValid(x) && Climbed(t, mark, x);
    NodePathsValid(t, mark, root, name, nodeOf);
    if t.up[x] != NONE { assert mark[t.up[x]] && nodeOf[t.up[x]] != NONE; }
  }

  method NodeParents(t: Names, ghost mark: seq<bool>, ghost root: int, name: seq<int>, nodeOf: array<int>) returns (parent: seq<nat>)
    requires t.Valid() && |mark| == |t.path| && NodesFor(t, mark, root, name, nodeOf[..])
    requires forall x: nat :: x < |t.path| && mark[x] ==> Climbed(t, mark, x)
    ensures Parented(NodePaths(t, name), parent)
  {
    hide Names.Valid, Climbed, NodesFor, NodePaths, ParentNode, Parent;
    NodePathsLength(t, mark, root, name, nodeOf[..]);
    ghost var P := NodePaths(t, name);
    parent := [0];
    for k: nat := 1 to |name|
      invariant |parent| == k && forall j: nat :: 0 < j < k ==> parent[j] < |P| && P[j] != [] && P[parent[j]] == Parent(P[j])
    {
      ParentNodeRight(t, mark, root, name, nodeOf[..], k);
      parent := parent + [ParentNode(t, name, nodeOf[..], k)];
    }
    NodePathsValid(t, mark, root, name, nodeOf[..]);
  }

  lemma NodePathsLength(t: Names, mark: seq<bool>, root: int, name: seq<int>, nodeOf: seq<int>)
    requires t.Valid() && |mark| == |t.path| && NodesFor(t, mark, root, name, nodeOf)
    ensures forall k :: 0 < k < |name| ==> 0 <= name[k] < |t.path|
    ensures |name| > 0 && |NodePaths(t, name)| == |name|
  {
  }

  // ----- the walk over names

  /** The names walked, in node order or without the root if it has no name. */
  ghost predicate NamesWalked(t: Names, name: seq<int>, nodeOf: seq<int>, order: seq<nat>, ord: seq<nat>, w: Walk) {
    && |w.ord| == |nodeOf| == |t.path| && |order| == |ord| == |name| && name != []
    && var skip := if name[0] == NONE then 1 else 0;
       && |w.order| == |order| - skip
       && (forall i :: 0 <= i < |w.order| ==> order[i + skip] < |name| && w.order[i] == name[order[i + skip]])
       && (forall x :: 0 <= x < |nodeOf| ==> -1 <= nodeOf[x] < |ord|)
       && (forall x :: 0 <= x < |nodeOf| ==> if nodeOf[x] == NONE then w.ord[x] == -1 else w.ord[x] + skip == ord[nodeOf[x]])
  }

  method NameWalk(t: Names, ghost mark: seq<bool>, root: int, name: seq<int>, nodeOf: array<int>, order: array<nat>, ord: array<nat>)
    returns (worder: seq<nat>, word: seq<int>)
    requires t.Valid() && |mark| == |t.path| && NodesFor(t, mark, root, name, nodeOf[..])
    requires Walked(NodePaths(t, name), order[..], ord[..])
    ensures NamesWalked(t, name, nodeOf[..], order[..], ord[..], Walk(worder, word, {}))
  {
    hide Names.Valid, NodesFor, Walked, NodePaths;
    RootIsFirst(t, mark, root, name, nodeOf[..], order[..], ord[..]);
    var skip := if root == NONE then 1 else 0;
    worder := WalkNames(name, order, skip);
    word := WalkOrds(nodeOf, ord, skip);
  }

  method WalkNames(name: seq<int>, order: array<nat>, skip: nat) returns (worder: seq<nat>)
    requires skip <= order.Length && forall i :: skip <= i < order.Length ==> order[i] < |name| && 0 <= name[order[i]]
    ensures |worder| == order.Length - skip
    ensures forall j :: 0 <= j < |worder| ==> order[j + skip] < |name| && worder[j] == name[order[j + skip]]
  {
    worder := [];
    for i: nat := skip to order.Length
      invariant |worder| == i - skip
      invariant forall j :: 0 <= j < |worder| ==> order[j + skip] < |name| && worder[j] == name[order[j + skip]]
    {
      worder := worder + [name[order[i]]];
    }
  }

  method WalkOrds(nodeOf: array<int>, ord: array<nat>, skip: nat) returns (word: seq<int>)
    requires forall x :: 0 <= x < nodeOf.Length ==> -1 <= nodeOf[x] < ord.Length
    ensures |word| == nodeOf.Length
    ensures forall y :: 0 <= y < |word| ==> word[y] == if nodeOf[y] == NONE then -1 else ord[nodeOf[y]] - skip
  {
    word := [];
    for x: nat := 0 to nodeOf.Length
      invariant |word| == x
      invariant forall y :: 0 <= y < x ==> word[y] == if nodeOf[y] == NONE then -1 else ord[nodeOf[y]] - skip
    {
      word := word + [if nodeOf[x] == NONE then -1 else ord[nodeOf[x]] - skip];
    }
  }

  lemma WalkAscends(P: seq<Path>, order: seq<nat>, ord: seq<nat>, a: nat, b: nat)
    requires Walked(P, order, ord) && a < b < |order|
    ensures order[a] < |P| && order[b] < |P| && Before(P[order[a]], P[order[b]])
  {
  }

  /** The root is walked first, and only it can be without a name. */
  lemma RootIsFirst(t: Names, mark: seq<bool>, root: int, name: seq<int>, nodeOf: seq<int>, order: seq<nat>, ord: seq<nat>)
    requires t.Valid() && |mark| == |t.path| && NodesFor(t, mark, root, name, nodeOf)
    requires Walked(NodePaths(t, name), order, ord)
    ensures |order| == |ord| == |name| && name != [] && name[0] == root && order[0] == 0 && |nodeOf| == |t.path|
    ensures forall i :: 0 <= i < |order| && (i > 0 || root != NONE) ==> order[i] < |name| && 0 <= name[order[i]] < |t.path|
    ensures forall x :: 0 <= x < |nodeOf| ==> -1 <= nodeOf[x] < |ord|
  {
    var P := NodePaths(t, name);
    var j := ord[0];
    if j > 0 { WalkAscends(P, order, ord, 0, j); }
    forall i | 0 < i < |order| ensures order[i] < |name| && 0 <= name[order[i]] < |t.path| {
      assert ord[order[i]] == i;
    }
  }

  /** The walk numbers the marked names and the root, in manifest order. */
  ghost predicate Ordered(t: Names, mark: seq<bool>, w: Walk) {
    && |w.ord| == |t.path| == |mark|
    && (forall i :: 0 <= i < |w.order| ==> w.order[i] < |t.path| && w.ord[w.order[i]] == i)
    && (forall x: nat :: x < |t.path| ==> w.ord[x] == -1 || (0 <= w.ord[x] < |w.order| && w.order[w.ord[x]] == x))
    && (forall x: nat :: x < |t.path| ==> (w.ord[x] != -1 <==> mark[x] || t.path[x] == []))
    && (forall i, j :: 0 <= i < j < |w.order| ==> Before(t.path[w.order[i]], t.path[w.order[j]]))
  }

  lemma WalkedBack(t: Names, mark: seq<bool>, root: int, name: seq<int>, nodeOf: seq<int>, order: seq<nat>, ord: seq<nat>, w: Walk, x: nat)
    requires t.Valid() && |mark| == |t.path| && NodesFor(t, mark, root, name, nodeOf)
    requires Walked(NodePaths(t, name), order, ord) && NamesWalked(t, name, nodeOf, order, ord, w) && x < |t.path|
    ensures |w.ord| == |t.path| && (w.ord[x] != -1 <==> mark[x] || t.path[x] == [])
    ensures w.ord[x] == -1 || (0 <= w.ord[x] < |w.order| && w.order[w.ord[x]] == x)
  {
    hide Before;
    RootIsFirst(t, mark, root, name, nodeOf, order, ord);
    RootPath(t, mark, root, name, nodeOf, x);
    if nodeOf[x] != NONE { assert order[ord[nodeOf[x]]] == nodeOf[x]; }
  }

  lemma WalkedAt(P: seq<Path>, order: seq<nat>, ord: seq<nat>, i: nat)
    requires Walked(P, order, ord) && i < |order|
    ensures order[i] < |ord| == |P| && ord[order[i]] == i
  {
  }

  lemma NodeNamed(t: Names, mark: seq<bool>, root: int, name: seq<int>, nodeOf: seq<int>, k: nat)
    requires t.Valid() && |mark| == |t.path| && NodesFor(t, mark, root, name, nodeOf) && k < |name| && name[k] != NONE
    ensures 0 <= name[k] < |t.path| == |nodeOf| && nodeOf[name[k]] == k
    ensures |NodePaths(t, name)| == |name| && NodePaths(t, name)[k] == t.path[name[k]]
  {
    hide Before;
    NodePathsValid(t, mark, root, name, nodeOf);
  }

  lemma WalkedOn(t: Names, mark: seq<bool>, root: int, name: seq<int>, nodeOf: seq<int>, order: seq<nat>, ord: seq<nat>, w: Walk, i: nat)
    requires t.Valid() && |mark| == |t.path| && NodesFor(t, mark, root, name, nodeOf)
    requires Walked(NodePaths(t, name), order, ord) && NamesWalked(t, name, nodeOf, order, ord, w) && i < |w.order|
    ensures w.order[i] < |t.path| == |w.ord| && w.ord[w.order[i]] == i
    ensures var skip := if root == NONE then 1 else 0; i + skip < |order| && order[i + skip] < |name| == |NodePaths(t, name)|
    ensures var skip := if root == NONE then 1 else 0; NodePaths(t, name)[order[i + skip]] == t.path[w.order[i]]
  {
    hide Before, NodesFor, Walked, NodePaths, Names.Valid;
    WalkLengths(t, mark, root, name, nodeOf, order, ord, w);
    RootIsFirst(t, mark, root, name, nodeOf, order, ord);
    var skip := if root == NONE then 1 else 0;
    WalkedAt(NodePaths(t, name), order, ord, i + skip);
    NodeNamed(t, mark, root, name, nodeOf, order[i + skip]);
  }

  lemma WalkIsOrdered(t: Names, mark: seq<bool>, root: int, name: seq<int>, nodeOf: seq<int>, order: seq<nat>, ord: seq<nat>, w: Walk)
    requires t.Valid() && |mark| == |t.path| && NodesFor(t, mark, root, name, nodeOf)
    requires Walked(NodePaths(t, name), order, ord) && NamesWalked(t, name, nodeOf, order, ord, w)
    ensures Ordered(t, mark, w)
  {
    hide NodesFor, Walked, NodePaths, Before, Names.Valid;
    WalkLengths(t, mark, root, name, nodeOf, order, ord, w);
    forall i: nat | i < |w.order| ensures w.order[i] < |t.path| && w.ord[w.order[i]] == i {
      WalkedOn(t, mark, root, name, nodeOf, order, ord, w, i);
    }
    forall x: nat | x < |t.path|
      ensures w.ord[x] != -1 <==> mark[x] || t.path[x] == []
      ensures w.ord[x] == -1 || (0 <= w.ord[x] < |w.order| && w.order[w.ord[x]] == x)
    {
      WalkedBack(t, mark, root, name, nodeOf, order, ord, w, x);
    }
    var skip := if root == NONE then 1 else 0;
    forall i: nat, j: nat | i < j < |w.order| ensures Before(t.path[w.order[i]], t.path[w.order[j]]) {
      WalkedOn(t, mark, root, name, nodeOf, order, ord, w, i);
      WalkedOn(t, mark, root, name, nodeOf, order, ord, w, j);
      WalkAscends(NodePaths(t, name), order, ord, i + skip, j + skip);
    }
  }

  lemma WalkLengths(t: Names, mark: seq<bool>, root: int, name: seq<int>, nodeOf: seq<int>, order: seq<nat>, ord: seq<nat>, w: Walk)
    requires t.Valid() && |mark| == |t.path| && NodesFor(t, mark, root, name, nodeOf) && NamesWalked(t, name, nodeOf, order, ord, w)
    ensures |w.ord| == |t.path| == |mark| == |nodeOf|
    ensures forall k :: 0 < k < |name| ==> 0 <= name[k] < |t.path|
  {
  }

  // ----- directories

  /** A name has names below it when its node has a child; the root counts as one. */
  ghost predicate Dirs(t: Names, w: Walk, kids: set<nat>)
    requires |w.ord| == |t.path|
  {
    forall x: nat :: x in kids <==>
      x < |t.path| && w.ord[x] != -1 &&
      (t.path[x] == [] || exists y: nat :: y < |t.path| && w.ord[y] != -1 && Under(t.path[x], t.path[y]))
  }

  ghost predicate HasKid(t: Names, w: Walk, x: nat)
    requires |w.ord| == |t.path| && x < |t.path|
  {
    exists y: nat :: y < |t.path| && w.ord[y] != -1 && Under(t.path[x], t.path[y])
  }

  /** Node k has a child in the list exactly when some walked name lies under its name. */
  lemma FirstMeansKid(t: Names, mark: seq<bool>, root: int, name: seq<int>, nodeOf: seq<int>, parent: seq<nat>,
                      first: seq<int>, next: seq<int>, w: Walk, x: nat)
    requires t.Valid() && |mark| == |t.path| && NodesFor(t, mark, root, name, nodeOf) && Ordered(t, mark, w)
    requires Parented(NodePaths(t, name), parent) && Linked(NodePaths(t, name), parent, Nodes(|name|), first, next)
    requires x < |t.path| && nodeOf[x] != NONE
    ensures |first| == |name| && (first[nodeOf[x]] != NONE <==> HasKid(t, w, x))
  {
    hide Ordered, Linked, FirstKid, NodesFor, NodesValid, Names.Valid, NodePaths;
    NodePathsLength(t, mark, root, name, nodeOf);
    var P := NodePaths(t, name);
    NodePathsValid(t, mark, root, name, nodeOf);
    NodeTable(t, mark, root, name, nodeOf, w, x);
    var k := nodeOf[x];
    LinkedFirst(P, parent, first, next, k);
    if first[k] != NONE {
      FirstIsKid(P, parent, k, first[k]);
      KidUnder(P, parent, k, first[k]);
      NodeWalked(t, mark, root, name, nodeOf, w, first[k]);
    }
    if HasKid(t, w, x) {
      var y: nat :| y < |t.path| && w.ord[y] != -1 && Under(t.path[x], t.path[y]);
      NodeTable(t, mark, root, name, nodeOf, w, y);
      if first[k] == NONE { NothingUnder(P, parent, Nodes(|P|), k, nodeOf[y]); }
    }
  }

  lemma LinkedFirst(P: seq<Path>, parent: seq<nat>, first: seq<int>, next: seq<int>, k: nat)
    requires |parent| == |P| && Linked(P, parent, Nodes(|P|), first, next) && k < |P|
    ensures |first| == |P| && FirstKid(P, parent, Nodes(|P|), k, first[k])
  {
  }

  lemma FirstIsKid(P: seq<Path>, parent: seq<nat>, p: nat, f: int)
    requires |parent| == |P| && f != NONE && FirstKid(P, parent, Nodes(|P|), p, f)
    ensures 0 < f < |P| && Kid(P, parent, p, f)
  {
  }

  lemma NodeTable(t: Names, mark: seq<bool>, root: int, name: seq<int>, nodeOf: seq<int>, w: Walk, x: nat)
    requires t.Valid() && |mark| == |t.path| && NodesFor(t, mark, root, name, nodeOf) && Ordered(t, mark, w) && x < |t.path|
    ensures |nodeOf| == |t.path| == |w.ord| && |NodePaths(t, name)| == |name| && -1 <= nodeOf[x] < |name|
    ensures w.ord[x] != -1 <==> nodeOf[x] != NONE
    ensures nodeOf[x] != NONE ==> NodePaths(t, name)[nodeOf[x]] == t.path[x]
  {
    NodePathsValid(t, mark, root, name, nodeOf);
  }

  lemma NodeWalked(t: Names, mark: seq<bool>, root: int, name: seq<int>, nodeOf: seq<int>, w: Walk, k: nat)
    requires t.Valid() && |mark| == |t.path| && NodesFor(t, mark, root, name, nodeOf) && Ordered(t, mark, w) && 0 < k < |name|
    ensures 0 <= name[k] < |t.path| && w.ord[name[k]] != -1 && k < |NodePaths(t, name)| && t.path[name[k]] == NodePaths(t, name)[k]
  {
  }

  /** `zm_types`: the names that are directories whatever the trees say. */
  method Directories(t: Names, ghost mark: seq<bool>, root: int, name: seq<int>, nodeOf: array<int>, ghost parent: seq<nat>,
                     first: array<int>, ghost next: seq<int>, ghost w: Walk) returns (kids: set<nat>)
    requires t.Valid() && |mark| == |t.path| && NodesFor(t, mark, root, name, nodeOf[..]) && Ordered(t, mark, w)
    requires Parented(NodePaths(t, name), parent) && Linked(NodePaths(t, name), parent, Nodes(|name|), first[..], next)
    ensures Dirs(t, w, kids)
  {
    hide Ordered, Linked, NodesFor, Names.Valid, Parented, NodePaths, HasKid;
    kids := {};
    NodeTables(t, mark, root, name, nodeOf[..], first[..], parent, next, w);
    for x: nat := 0 to nodeOf.Length
      invariant forall y: nat :: y in kids <==> y < x && nodeOf[y] != NONE && (t.path[y] == [] || HasKid(t, w, y))
    {
      if nodeOf[x] != NONE {
        FirstMeansKid(t, mark, root, name, nodeOf[..], parent, first[..], next, w, x);
        RootPath(t, mark, root, name, nodeOf[..], x);
        if x == root || first[nodeOf[x]] != NONE { kids := kids + {x}; }
      }
    }
    forall x: nat | x < |t.path| ensures w.ord[x] != -1 <==> nodeOf[x] != NONE { NodeTable(t, mark, root, name, nodeOf[..], w, x); }
    assert Dirs(t, w, kids) by { DirsAre(t, w, nodeOf[..], kids); }
  }

  lemma NodeTables(t: Names, mark: seq<bool>, root: int, name: seq<int>, nodeOf: seq<int>, first: seq<int>, parent: seq<nat>,
                   next: seq<int>, w: Walk)
    requires t.Valid() && |mark| == |t.path| && NodesFor(t, mark, root, name, nodeOf) && Ordered(t, mark, w)
    requires Parented(NodePaths(t, name), parent) && Linked(NodePaths(t, name), parent, Nodes(|name|), first, next)
    ensures |nodeOf| == |t.path| == |w.ord| && |first| == |name| && forall x: nat :: x < |nodeOf| ==> -1 <= nodeOf[x] < |name|
  {
  }

  lemma RootPath(t: Names, mark: seq<bool>, root: int, name: seq<int>, nodeOf: seq<int>, x: nat)
    requires t.Valid() && |mark| == |t.path| && NodesFor(t, mark, root, name, nodeOf) && x < |t.path|
    ensures t.path[x] == [] <==> x == root
  {
  }

  lemma DirsAre(t: Names, w: Walk, nodeOf: seq<int>, kids: set<nat>)
    requires |w.ord| == |t.path| == |nodeOf|
    requires forall x: nat :: x < |t.path| ==> (w.ord[x] != -1 <==> nodeOf[x] != NONE)
    requires forall y: nat :: y in kids <==> y < |t.path| && nodeOf[y] != NONE && (t.path[y] == [] || HasKid(t, w, y))
    ensures Dirs(t, w, kids)
  {
  }

  // ----- the walk of a decision

  ghost function Wanted(m: Merge, d: Decision): (r: seq<bool>)
    requires Grouped(m, d)
    ensures |r| == m.n && forall x: nat :: x < m.n ==> r[x] == Spoken(m, d, x)
  {
    seq(m.n, (x: nat) requires x < m.n => Spoken(m, d, x))
  }

  /** The walk lists, in manifest order, exactly the names the manifest may speak of, every
      directory on the way to one, and the root; and it knows the directories. */
  ghost predicate WalkFor(m: Merge, d: Decision, t: Names, w: Walk)
    requires Grouped(m, d) && |t.path| == m.n
  {
    && w.Valid(m)
    && (forall x: nat :: x < m.n ==> (w.ord[x] != -1 <==> Needed(t, Wanted(m, d), x) || t.path[x] == []))
    && (forall i, j :: 0 <= i < j < |w.order| ==> Before(t.path[w.order[i]], t.path[w.order[j]]))
    && Dirs(t, w, w.kids)
  }

  /** The nodes of a decision, linked and numbered, and the walk over their names. */
  ghost predicate NodesBuilt(m: Merge, d: Decision, t: Names, root: int, name: seq<int>, nodeOf: seq<int>, parent: seq<nat>,
                             first: seq<int>, next: seq<int>, order: seq<nat>, ord: seq<nat>, w: Walk)
    requires Grouped(m, d) && t.Valid() && |t.path| == m.n
  {
    && WalkFor(m, d, t, w) && NamesOfNodes(t, root, name, nodeOf, w)
    && Parented(NodePaths(t, name), parent) && |first| == |next| == |name|
    && Linked(NodePaths(t, name), parent, Nodes(|name|), first, next) && Walked(NodePaths(t, name), order, ord)
  }

  /** Every node but perhaps the root has a name, and the named nodes are the walked names. */
  ghost predicate NamesOfNodes(t: Names, root: int, name: seq<int>, nodeOf: seq<int>, w: Walk) {
    && name != [] && |nodeOf| == |t.path| == |w.ord| && name[0] == root && t.IsRoot(root)
    && (forall k :: 0 < k < |name| ==> 0 <= name[k] < |t.path| && w.ord[name[k]] != -1 && nodeOf[name[k]] == k)
    && (forall x: nat :: x < |t.path| && w.ord[x] != -1 ==> 0 <= nodeOf[x] < |name| && name[nodeOf[x]] == x)
  }

  lemma NamedNodes(t: Names, mark: seq<bool>, root: int, name: seq<int>, nodeOf: seq<int>, w: Walk)
    requires t.Valid() && |mark| == |t.path| && NodesFor(t, mark, root, name, nodeOf) && Ordered(t, mark, w)
    ensures NamesOfNodes(t, root, name, nodeOf, w)
  {
    forall x: nat | x < |t.path| && w.ord[x] != -1 ensures 0 <= nodeOf[x] < |name| && name[nodeOf[x]] == x {
      RootPath(t, mark, root, name, nodeOf, x);
    }
  }

  /** `zm_build`, `zm_walk_order` and `zm_types`. */
  method BuildNodes(m: Merge, d: Decision, t: Names, root: int)
    returns (name: seq<int>, nodeOf: array<int>, parent: seq<nat>, first: array<int>, next: array<int>, order: array<nat>, ord: array<nat>, w: Walk)
    requires Grouped(m, d) && t.Valid() && |t.path| == m.n && t.IsRoot(root)
    ensures NodesBuilt(m, d, t, root, name, nodeOf[..], parent, first[..], next[..], order[..], ord[..], w)
  {
    hide Names.Valid, Merge.Valid, Needed, Climbed, NodesFor, Parented, Linked, Walked, Ordered, Dirs, NamesWalked, NodePaths, Spoken,
      NamesOfNodes;
    var wanted := Speak(m, d);
    assert wanted[..] == Wanted(m, d);
    var mark := Namespace.Mark(t, wanted[..]);
    ghost var marks := mark[..];
    forall x: nat | x < |t.path| && marks[x] ensures Climbed(t, marks, x) { MarkedClimbed(t, Wanted(m, d), marks, x); }
    name, nodeOf := NumberNodes(t, mark, root);
    NodePathsLength(t, marks, root, name, nodeOf[..]);
    parent := NodeParents(t, marks, root, name, nodeOf);
    var P := PathsOf(t, name);
    first, next := LinkKids(P, parent);
    ghost var f, n := first[..], next[..];
    order, ord := WalkOrder(P, parent, first, next);
    assert first[..] == f && next[..] == n;
    var worder, word := NameWalk(t, marks, root, name, nodeOf, order, ord);
    w := Walk(worder, word, {});
    WalkIsOrdered(t, marks, root, name, nodeOf[..], order[..], ord[..], w);
    var kids := Directories(t, marks, root, name, nodeOf, parent, first, n, w);
    KidsAside(t, marks, w, kids);
    w := Walk(worder, word, kids);
    WalkIsFor(m, d, t, marks, w);
    NamedNodes(t, marks, root, name, nodeOf[..], w);
  }

  method BuildWalk(m: Merge, d: Decision, t: Names, root: int) returns (w: Walk)
    requires Grouped(m, d) && t.Valid() && |t.path| == m.n && t.IsRoot(root)
    ensures WalkFor(m, d, t, w)
  {
    hide WalkFor;
    var name, nodeOf, parent, first, next, order, ord, walk := BuildNodes(m, d, t, root);
    w := walk;
  }

  lemma KidsAside(t: Names, mark: seq<bool>, w: Walk, kids: set<nat>)
    requires |t.path| == |mark| && Ordered(t, mark, w) && Dirs(t, w, kids)
    ensures var v := Walk(w.order, w.ord, kids); Ordered(t, mark, v) && Dirs(t, v, v.kids)
  {
  }

  method PathsOf(t: Names, name: seq<int>) returns (P: seq<Path>)
    requires forall k :: 0 < k < |name| ==> 0 <= name[k] < |t.path|
    ensures P == NodePaths(t, name)
  {
    P := [];
    for k: nat := 0 to |name|
      invariant |P| == k && forall j :: 0 <= j < k ==> P[j] == if j == 0 then [] else t.path[name[j]]
    {
      P := P + [if k == 0 then [] else t.path[name[k]]];
    }
  }

  lemma MarkedClimbed(t: Names, wanted: seq<bool>, mark: seq<bool>, x: nat)
    requires t.Valid() && |wanted| == |mark| == |t.path| && x < |t.path| && mark[x]
    requires forall y: nat :: y < |t.path| ==> (mark[y] <==> Needed(t, wanted, y))
    ensures Climbed(t, mark, x)
  {
    hide Needed;
    assert t.UpValid(x);
    if t.up[x] != NONE { ParentNeeded(t, wanted, x); }
  }

  lemma WalkIsFor(m: Merge, d: Decision, t: Names, mark: seq<bool>, w: Walk)
    requires Grouped(m, d) && |t.path| == m.n == |mark| && Ordered(t, mark, w) && Dirs(t, w, w.kids)
    requires forall x: nat :: x < m.n ==> (mark[x] <==> Needed(t, Wanted(m, d), x))
    ensures WalkFor(m, d, t, w)
  {
    hide Dirs, Merge.Valid;
    forall x: nat | x < m.n && (m.Survives(x) || m.On(Onto, x)) ensures w.ord[x] != -1 {
      assert Spoken(m, d, x);
      WantedNeeded(t, Wanted(m, d), x);
    }
  }

  // ----- what the order is good for

  /** A tree over the name table: its root is a directory, and what it holds lies in directories. */
  ghost predicate Rooted(t: Names, g: Tree) {
    && (forall x: nat :: x < |t.path| && g.Has(x) && t.path[x] == [] ==> g.poolOf[x] < |g.pools| && g.ContentAt(x).kind == Directory)
    && (forall x: nat, z: nat :: x < |t.path| && z < |t.path| && g.Has(z) && Under(t.path[x], t.path[z]) ==>
          g.Has(x) && g.poolOf[x] < |g.pools| && g.ContentAt(x).kind == Directory)
  }

  lemma AboveSpoken(m: Merge, d: Decision, t: Names, x: nat, z: nat)
    requires Grouped(m, d) && |t.path| == m.n && SameKinds(m) && Rooted(t, m.from) && Rooted(t, m.onto)
    requires x < m.n && z < m.n && Spoken(m, d, z) && Under(t.path[x], t.path[z]) && m.On(Onto, x)
    ensures m.onto.ContentAt(x).kind == Directory
  {
    hide Under;
    assert m.On(From, z) || m.On(Onto, z);
  }

  lemma KidSpoken(m: Merge, d: Decision, t: Names, w: Walk, x: nat) returns (z: nat)
    requires Grouped(m, d) && |t.path| == m.n && WalkFor(m, d, t, w) && x in w.kids && x < m.n && t.path[x] != []
    ensures z < m.n && Spoken(m, d, z) && Under(t.path[x], t.path[z])
  {
    hide Before, Merge.Valid, Under, Spoken;
    var y: nat :| y < |t.path| && w.ord[y] != -1 && Under(t.path[x], t.path[y]);
    NotRoot(t.path[x], t.path[y]);
    z :| z < m.n && Wanted(m, d)[z] && (z == y || Under(t.path[y], t.path[z]));
    if z != y { UnderTransitive(t.path[x], t.path[y], t.path[z]); }
  }

  lemma NotRoot(d: Path, p: Path)
    requires Under(d, p)
    ensures p != []
  {
  }

  /** Over trees whose names lie in directories, a name with names below it is a directory. */
  lemma KidsOfTrees(m: Merge, d: Decision, t: Names, w: Walk)
    requires Grouped(m, d) && |t.path| == m.n && WalkFor(m, d, t, w) && SameKinds(m)
    requires Rooted(t, m.from) && Rooted(t, m.onto)
    ensures KidsAreDirectories(m, w)
  {
    hide WalkFor, SameKinds, Spoken, Under;
    forall x: nat | x in w.kids && m.On(Onto, x) ensures x < m.n && m.onto.ContentAt(x).kind == Directory {
      OntoNamed(m, x);
      if t.path[x] != [] {
        var z := KidSpoken(m, d, t, w, x);
        AboveSpoken(m, d, t, x, z);
      }
    }
  }

  lemma OntoNamed(m: Merge, x: nat)
    requires m.Valid() && m.On(Onto, x)
    ensures x < m.n && m.At(Onto, x) < |m.onto.pools|
  {
  }

  /** `zr_action`'s order: the file an ln names stands earlier, as `zp_name_line` demands. */
  lemma LinksGoBack(m: Merge, d: Decision, t: Names, w: Walk, x: nat)
    requires Grouped(m, d) && t.Valid() && |t.path| == m.n && WalkFor(m, d, t, w) && Emittable(m, d, w) && x < m.n
    requires ActOf(m, d, w, x).Ln?
    ensures var a := ActOf(m, d, w, x).anchor; a < m.n && Compare(Text(t.path[a]), Text(t.path[x])) < 0
  {
    hide Anchor, Keeps, AnchorAct, LostAct, Names.Valid, Before, Text, Compare;
    var a := ActOf(m, d, w, x).anchor;
    LinkAnchor(m, d, w, x);
    assert Before(t.path[w.order[w.ord[a]]], t.path[w.order[w.ord[x]]]);
    NamesProper(t, a);
    NamesProper(t, x);
    BeforeAsymmetric(t.path[a], t.path[x]);
    CompareIsOrder(t.path[a], t.path[x]);
  }

  lemma NamesProper(t: Names, x: nat)
    requires t.Valid() && x < |t.path|
    ensures Proper(t.path[x])
  {
    assert t.UpValid(x);
  }

  lemma LinkAnchor(m: Merge, d: Decision, w: Walk, x: nat)
    requires Emittable(m, d, w) && x < m.n && ActOf(m, d, w, x).Ln?
    ensures var a := ActOf(m, d, w, x).anchor; a < m.n && 0 <= w.ord[a] < w.ord[x] < |w.order|
  {
    hide First, Keeps, Anchor, Merge.Valid;
    AnchorsFirst(m, d, w, x);
  }
}
