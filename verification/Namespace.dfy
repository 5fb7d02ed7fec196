/** The result namespace of src/manifest.c: `zm_build` marks the names a manifest may speak of, links
    each directory's children in leaf order, and `zm_walk_order` numbers them in a pre-order walk. */
module Namespace {
  import opened Paths
  import opened Sorting

  const NONE := -1

  /** The name table: the path of every id, and `zr_names_parent` of it. */
  datatype Names = Names(path: seq<Path>, up: seq<int>) {

    ghost predicate Valid() {
      && |up| == |path|
      && (forall x :: 0 <= x < |path| ==> Proper(path[x]) && UpValid(x))
      && (forall x, y :: 0 <= x < |path| && 0 <= y < |path| && path[x] == path[y] ==> x == y)
    }

    /** A name's parent is in the table, but for the root, which need not be. */
    ghost predicate UpValid(x: nat)
      requires x < |path| == |up|
    {
      if up[x] == NONE then path[x] == [] || (|path[x]| == 1 && forall y :: 0 <= y < |path| ==> path[y] != [])
      else 0 <= up[x] < |path| && path[x] != [] && path[up[x]] == Parent(path[x])
    }

    /** The id of "/", or NONE. */
    ghost predicate IsRoot(r: int) {
      if r == NONE then (forall y :: 0 <= y < |path| ==> path[y] != []) else 0 <= r < |path| && path[r] == []
    }
  }

  // ----- marks

  /** Some wanted name is this one or lies under it. */
  ghost predicate Needed(t: Names, wanted: seq<bool>, x: nat)
    requires |wanted| == |t.path| && x < |t.path|
  {
    exists z: nat :: z < |t.path| && wanted[z] && (z == x || Under(t.path[x], t.path[z]))
  }

  lemma ParentNeeded(t: Names, wanted: seq<bool>, x: nat)
    requires t.Valid() && |wanted| == |t.path| && x < |t.path| && t.up[x] != NONE && Needed(t, wanted, x)
    ensures 0 <= t.up[x] < |t.path| && Needed(t, wanted, t.up[x])
  {
    assert t.UpValid(x);
    var p := t.up[x];
    var z: nat :| z < |t.path| && wanted[z] && (z == x || Under(t.path[x], t.path[z]));
    assert Under(t.path[p], t.path[x]);
    if z != x { UnderTransitive(t.path[p], t.path[x], t.path[z]); }
  }

  ghost predicate Climbed(t: Names, mark: seq<bool>, x: nat)
    requires t.Valid() && |mark| == |t.path| && x < |t.path|
  {
    assert t.UpValid(x);
    t.up[x] == NONE || mark[t.up[x]]
  }

  /** With every marked name's parent marked, everything above a marked name is. */
  lemma {:induction false} AboveMarked(t: Names, mark: seq<bool>, x: nat, z: nat)
    requires t.Valid() && |mark| == |t.path| && x < |t.path| && z < |t.path| && mark[z] && Under(t.path[x], t.path[z])
    requires forall y: nat :: y < |mark| && mark[y] ==> Climbed(t, mark, y)
    ensures mark[x]
    decreases |t.path[z]|
  {
    assert t.UpValid(z) && Climbed(t, mark, z);
    UnderParent(t.path[x], t.path[z]);
    if t.path[z] != [] && t.up[z] != NONE && t.path[t.up[z]] != t.path[x] {
      AboveMarked(t, mark, x, t.up[z]);
    }
  }

  ghost predicate MarksRight(t: Names, wanted: seq<bool>, mark: seq<bool>)
    requires |wanted| == |mark| == |t.path|
  {
    forall x: nat :: x < |t.path| ==> (mark[x] ==> Needed(t, wanted, x)) && (wanted[x] ==> mark[x])
  }

  /** Every marked name dealt with so far, but for the one in hand, has its parent marked. */
  ghost predicate ClimbedTo(t: Names, wanted: seq<bool>, mark: seq<bool>, n: nat, hand: int)
    requires t.Valid() && |wanted| == |mark| == |t.path|
  {
    forall x: nat :: x < |t.path| && mark[x] && x != hand && (x < n || !wanted[x]) ==> Climbed(t, mark, x)
  }

  lemma MarkStep(t: Names, wanted: seq<bool>, mark: seq<bool>, n: nat, p: nat)
    requires t.Valid() && |wanted| == |mark| == |t.path| && p < |t.path| && mark[p] && t.up[p] != NONE
    requires MarksRight(t, wanted, mark) && ClimbedTo(t, wanted, mark, n, p)
    ensures 0 <= t.up[p] < |t.path| && |t.path[t.up[p]]| < |t.path[p]|
    ensures var mark' := mark[t.up[p] := true]; MarksRight(t, wanted, mark') && ClimbedTo(t, wanted, mark', n, t.up[p])
  {
    hide Needed;
    assert t.UpValid(p);
    ParentNeeded(t, wanted, p);
    var mark' := mark[t.up[p] := true];
    forall x: nat | x < |t.path| && Climbed(t, mark, x) ensures Climbed(t, mark', x) { assert t.UpValid(x); }
  }

  /** The climb of `zm_build` from one marked name. */
  method Climb(t: Names, wanted: seq<bool>, mark: array<bool>, n: nat)
    requires t.Valid() && |wanted| == mark.Length == |t.path| && n < |t.path| && mark[n]
    requires MarksRight(t, wanted, mark[..]) && ClimbedTo(t, wanted, mark[..], n, NONE)
    modifies mark
    ensures MarksRight(t, wanted, mark[..]) && ClimbedTo(t, wanted, mark[..], n + 1, NONE)
  {
    hide MarksRight, Names.Valid, Needed;
    var p: nat := n;
    while true
      invariant p < |t.path| && mark[p] && MarksRight(t, wanted, mark[..]) && ClimbedTo(t, wanted, mark[..], n + 1, p)
      decreases |t.path[p]|
    {
      TableUp(t, p);
      if t.up[p] == NONE || mark[t.up[p]] { return; }
      MarkStep(t, wanted, mark[..], n + 1, p);
      ghost var before := mark[..];
      mark[t.up[p]] := true;
      assert mark[..] == before[t.up[p] := true];
      p := t.up[p];
    }
  }

  lemma TableUp(t: Names, p: nat)
    requires t.Valid() && p < |t.path|
    ensures |t.up| == |t.path| && (t.up[p] == NONE || 0 <= t.up[p] < |t.path|)
  {
    assert t.UpValid(p);
  }

  /** The marking loops of `zm_build`: what is wanted, and every directory on the way to it. */
  method Mark(t: Names, wanted: seq<bool>) returns (mark: array<bool>)
    requires t.Valid() && |wanted| == |t.path|
    ensures fresh(mark) && mark.Length == |t.path|
    ensures forall x: nat :: x < |t.path| ==> (mark[x] <==> Needed(t, wanted, x))
  {
    hide Needed, Names.Valid;
    mark := new bool[|t.path|](i requires 0 <= i < |wanted| => wanted[i]);
    forall x: nat | x < |t.path| && mark[x] ensures Needed(t, wanted, x) { WantedNeeded(t, wanted, x); }
    for n: nat := 0 to |t.path|
      invariant MarksRight(t, wanted, mark[..]) && ClimbedTo(t, wanted, mark[..], n, NONE)
    {
      if mark[n] { Climb(t, wanted, mark, n); }
    }
    forall x: nat | x < |t.path| && Needed(t, wanted, x) ensures mark[x] { NeededMarked(t, wanted, mark[..], x); }
  }

  lemma WantedNeeded(t: Names, wanted: seq<bool>, x: nat)
    requires |wanted| == |t.path| && x < |t.path| && wanted[x]
    ensures Needed(t, wanted, x)
  {
  }

  lemma NeededMarked(t: Names, wanted: seq<bool>, mark: seq<bool>, x: nat)
    requires t.Valid() && |mark| == |wanted| == |t.path| && x < |t.path| && Needed(t, wanted, x)
    requires forall y: nat :: y < |mark| && wanted[y] ==> mark[y]
    requires forall y: nat :: y < |mark| && mark[y] ==> Climbed(t, mark, y)
    ensures mark[x]
  {
    var z: nat :| z < |t.path| && wanted[z] && (z == x || Under(t.path[x], t.path[z]));
    if z != x { AboveMarked(t, mark, x, z); }
  }

  // ----- nodes

  /** Node 0 is the root; every other node has its directory among the nodes. */
  ghost predicate NodesValid(P: seq<Path>) {
    && P != [] && P[0] == []
    && (forall j, k :: 0 <= j < |P| && 0 <= k < |P| && P[j] == P[k] ==> j == k)
  }

  ghost predicate IsParent(P: seq<Path>, parent: seq<nat>, k: nat)
    requires |parent| == |P|
  {
    0 < k < |P| && P[k] != [] && parent[k] < |P| && P[parent[k]] == Parent(P[k])
  }

  ghost predicate Parented(P: seq<Path>, parent: seq<nat>) {
    NodesValid(P) && |parent| == |P| && forall k: nat :: 0 < k < |P| ==> IsParent(P, parent, k)
  }

  /** k is a child of p. */
  predicate Kid(P: seq<Path>, parent: seq<nat>, p: int, k: int)
    requires |parent| == |P|
  {
    0 < k < |P| && parent[k] == p
  }

  /** f is the first child of p in leaf order among those in the set, or NONE. */
  ghost predicate FirstKid(P: seq<Path>, parent: seq<nat>, done: set<int>, p: int, f: int)
    requires |parent| == |P|
  {
    if f == NONE then forall k :: k in done ==> !Kid(P, parent, p, k)
    else f in done && Kid(P, parent, p, f) && forall k :: k in done && Kid(P, parent, p, k) ==> AtOrBefore(P[f], P[k])
  }

  /** s is the sibling that comes next after k among those in the set, or NONE. */
  ghost predicate NextKid(P: seq<Path>, parent: seq<nat>, done: set<int>, k: int, s: int)
    requires |parent| == |P| && 0 <= k < |P|
  {
    if s == NONE then forall j :: j in done && Kid(P, parent, parent[k], j) ==> AtOrBefore(P[j], P[k])
    else && s in done && Kid(P, parent, parent[k], s) && Before(P[k], P[s])
         && forall j :: j in done && Kid(P, parent, parent[k], j) && Before(P[k], P[j]) ==> AtOrBefore(P[s], P[j])
  }

  ghost predicate Linked(P: seq<Path>, parent: seq<nat>, done: set<int>, first: seq<int>, next: seq<int>)
    requires |parent| == |P|
  {
    && |first| == |next| == |P|
    && (forall p :: 0 <= p < |P| ==> FirstKid(P, parent, done, p, first[p]))
    && (forall k :: 0 < k < |P| && k in done ==> NextKid(P, parent, done, k, next[k]))
  }

  /** `struct zm_kid`. */
  datatype KidKey = KidKey(parent: nat, leaf: Leaf, node: nat)

  /** `zm_kid_cmp`. */
  predicate KidLe(a: KidKey, b: KidKey) {
    if a.parent != b.parent then a.parent < b.parent
    else if a.leaf != b.leaf then LeafBefore(a.leaf, b.leaf)
    else a.node <= b.node
  }

  lemma KidOrder()
    ensures TotalOrder(KidLe)
  {
    forall x: KidKey, y: KidKey ensures KidLe(x, y) || KidLe(y, x) { LeafTotal(x.leaf, y.leaf); }
    forall x: KidKey, y: KidKey, z: KidKey | KidLe(x, y) && KidLe(y, z) ensures KidLe(x, z) {
      if LeafBefore(x.leaf, y.leaf) && LeafBefore(y.leaf, z.leaf) {
        LeafTransitive(x.leaf, y.leaf, z.leaf);
        LeafIrreflexive(x.leaf);
      }
    }
  }

  function KeyOf(P: seq<Path>, parent: seq<nat>, k: nat): KidKey
    requires |parent| == |P| && 0 < k < |P| && P[k] != []
  {
    KidKey(parent[k], P[k][|P[k]| - 1], k)
  }

  /** A child that sorts before another of its directory comes before it in manifest order. */
  lemma KeysOrderSiblings(P: seq<Path>, parent: seq<nat>, j: nat, k: nat)
    requires Parented(P, parent) && 0 < j < |P| && 0 < k < |P| && j != k && parent[j] == parent[k] && P[j] != [] && P[k] != []
    requires KidLe(KeyOf(P, parent, j), KeyOf(P, parent, k))
    ensures Before(P[j], P[k])
  {
    assert IsParent(P, parent, j) && IsParent(P, parent, k);
    SiblingOrder(P[j], P[k]);
    if P[j][|P[j]| - 1] == P[k][|P[k]| - 1] { SameLeaf(P[j], P[k]); }
  }

  lemma SameLeaf(p: Path, q: Path)
    requires p != [] && q != [] && Parent(p) == Parent(q) && p[|p| - 1] == q[|q| - 1]
    ensures p == q
  {
    assert p == Parent(p) + [p[|p| - 1]] && q == Parent(q) + [q[|q| - 1]];
  }

  lemma LinkOne(P: seq<Path>, parent: seq<nat>, done: set<int>, first: seq<int>, next: seq<int>, k: nat)
    requires Parented(P, parent) && 0 < k < |P| && k !in done && Linked(P, parent, done, first, next)
    requires parent[k] < |P| && forall j :: j in done && Kid(P, parent, parent[k], j) ==> Before(P[k], P[j])
    ensures Linked(P, parent, done + {k}, first[parent[k] := k], next[k := first[parent[k]]])
  {
    var p := parent[k];
    var first', next' := first[p := k], next[k := first[p]];
    forall q | 0 <= q < |P| ensures FirstKid(P, parent, done + {k}, q, first'[q]) {
      assert FirstKid(P, parent, done, q, first[q]);
    }
    BeforeIrreflexive(P[k]);
    forall j | 0 < j < |P| && j in done + {k} ensures NextKid(P, parent, done + {k}, j, next'[j]) {
      if j == k {
        assert FirstKid(P, parent, done, p, first[p]);
      } else {
        assert NextKid(P, parent, done, j, next[j]);
        LinkKeepsNext(P, parent, done, k, j, next[j]);
      }
    }
  }

  lemma LinkKeepsNext(P: seq<Path>, parent: seq<nat>, done: set<int>, k: nat, j: int, s: int)
    requires |parent| == |P| && 0 < k < |P| && 0 < j < |P| && j in done && NextKid(P, parent, done, j, s)
    requires forall i :: i in done && Kid(P, parent, parent[k], i) ==> Before(P[k], P[i])
    ensures NextKid(P, parent, done + {k}, j, s)
  {
    if parent[j] == parent[k] {
      assert Kid(P, parent, parent[k], j);
      BeforeAsymmetric(P[k], P[j]);
    }
  }

  /** The nodes below the root. */
  ghost function Nodes(n: nat): (r: set<int>)
    ensures forall k :: k in r <==> 0 < k < n
  {
    if n <= 1 then {} else Nodes(n - 1) + {n - 1}
  }

  function NodesFrom(keys: seq<KidKey>, i: nat): (r: set<int>)
    requires i <= |keys|
    ensures forall k :: k in r <==> exists j :: i <= j < |keys| && keys[j].node == k
    decreases |keys| - i
  {
    if i == |keys| then {} else
    var rest := NodesFrom(keys, i + 1);
    assert forall k :: k in rest ==> exists j :: i <= j < |keys| && keys[j].node == k;
    {keys[i].node} + rest
  }

  /** Keys of nodes, each node's own. */
  ghost predicate Keyed(P: seq<Path>, parent: seq<nat>, keys: seq<KidKey>)
    requires |parent| == |P|
  {
    forall e :: e in keys ==> 0 < e.node < |P| && P[e.node] != [] && parent[e.node] < |P| && e == KeyOf(P, parent, e.node)
  }

  method AllKeys(P: seq<Path>, parent: seq<nat>) returns (keys: seq<KidKey>)
    requires Parented(P, parent)
    ensures Keyed(P, parent, keys) && Distinct(keys) && forall k: nat :: 0 < k < |P| ==> P[k] != [] && KeyOf(P, parent, k) in keys
  {
    keys := [];
    for k: nat := 1 to |P|
      invariant |keys| == k - 1
      invariant forall j: nat :: 0 < j < k ==> IsParent(P, parent, j) && keys[j - 1] == KeyOf(P, parent, j)
      invariant forall j :: 0 <= j < |keys| ==> keys[j].node == j + 1
    {
      assert IsParent(P, parent, k);
      keys := keys + [KeyOf(P, parent, k)];
    }
    forall e | e in keys ensures 0 < e.node < |P| && P[e.node] != [] && parent[e.node] < |P| && e == KeyOf(P, parent, e.node) {
      var i :| 0 <= i < |keys| && keys[i] == e;
      assert IsParent(P, parent, i + 1);
    }
    forall k: nat | 0 < k < |P| ensures P[k] != [] && KeyOf(P, parent, k) in keys {
      assert IsParent(P, parent, k) && keys[k - 1] == KeyOf(P, parent, k);
    }
  }

  /** A node still to be linked comes before the siblings already linked. */
  lemma KeyBeforeRest(P: seq<Path>, parent: seq<nat>, keys: seq<KidKey>, i: nat)
    requires Parented(P, parent) && Keyed(P, parent, keys) && Distinct(keys) && SortedBy(KidLe, keys) && i < |keys|
    ensures var e := keys[i]; var done := NodesFrom(keys, i + 1);
      && 0 < e.node < |P| && parent[e.node] == e.parent < |P| && e.node !in done
      && forall j :: j in done && Kid(P, parent, e.parent, j) ==> Before(P[e.node], P[j])
  {
    var e := keys[i];
    var done := NodesFrom(keys, i + 1);
    assert e in keys;
    forall j | j in done ensures j != e.node && (Kid(P, parent, e.parent, j) ==> Before(P[e.node], P[j])) {
      var a :| i + 1 <= a < |keys| && keys[a].node == j;
      assert keys[a] in keys && keys[a] != e && KidLe(e, keys[a]);
      if Kid(P, parent, e.parent, j) { KeysOrderSiblings(P, parent, e.node, j); }
    }
  }

  /** `zm_build`'s last loops: sort the children, then link them from the end. */
  method LinkKids(P: seq<Path>, parent: seq<nat>) returns (first: array<int>, next: array<int>)
    requires Parented(P, parent)
    ensures fresh(first) && fresh(next) && first.Length == next.Length == |P|
    ensures Linked(P, parent, Nodes(|P|), first[..], next[..])
  {
    hide Linked, SortedBy, NodesValid;
    var keys := AllKeys(P, parent);
    KidOrder();
    var kids := Sort(KidLe, keys);
    SortKeepsDistinct(KidLe, keys);
    assert Keyed(P, parent, kids);
    first := new int[|P|](_ => NONE);
    next := new int[|P|](_ => NONE);
    NothingLinked(P, parent, first[..], next[..]);
    for i: nat := |kids| downto 0
      invariant Linked(P, parent, NodesFrom(kids, i), first[..], next[..])
    {
      KeyBeforeRest(P, parent, kids, i);
      var node, par := kids[i].node, kids[i].parent;
      LinkOne(P, parent, NodesFrom(kids, i + 1), first[..], next[..], node);
      ghost var f, n := first[..], next[..];
      next[node] := first[par];
      first[par] := node;
      assert first[..] == f[par := node] && next[..] == n[node := f[par]];
      assert NodesFrom(kids, i) == NodesFrom(kids, i + 1) + {node};
    }
    AllLinked(P, parent, keys, kids);
  }

  lemma NothingLinked(P: seq<Path>, parent: seq<nat>, first: seq<int>, next: seq<int>)
    requires |parent| == |P| && |first| == |next| == |P| && forall k :: 0 <= k < |P| ==> first[k] == NONE
    ensures Linked(P, parent, {}, first, next)
  {
  }

  lemma AllLinked(P: seq<Path>, parent: seq<nat>, keys: seq<KidKey>, kids: seq<KidKey>)
    requires |parent| == |P| && Keyed(P, parent, kids) && forall e :: e in keys <==> e in kids
    requires forall k: nat :: 0 < k < |P| ==> P[k] != [] && KeyOf(P, parent, k) in keys
    ensures NodesFrom(kids, 0) == Nodes(|P|)
  {
    var all := NodesFrom(kids, 0);
    forall k | k in all ensures k in Nodes(|P|) {
      var j :| 0 <= j < |kids| && kids[j].node == k;
      assert kids[j] in kids;
    }
    forall k | k in Nodes(|P|) ensures k in all {
      assert KeyOf(P, parent, k) in kids;
      var j :| 0 <= j < |kids| && kids[j] == KeyOf(P, parent, k);
    }
  }

  // ----- what follows a node in manifest order, among a set of nodes that holds what lies above them

  ghost predicate Above(P: seq<Path>, done: set<int>) {
    forall c, k :: 0 < c < |P| && 0 <= k < |P| && k in done && Under(P[c], P[k]) ==> c in done
  }

  /** The child of p on the way to a node under it. */
  lemma {:induction false} KidToward(P: seq<Path>, parent: seq<nat>, p: nat, k: nat) returns (c: nat)
    requires Parented(P, parent) && p < |P| && k < |P| && Under(P[p], P[k])
    ensures Kid(P, parent, p, c) && c in Nodes(|P|) && (c == k || Under(P[c], P[k]))
    decreases |P[k]|
  {
    assert P[k] != P[0];
    assert IsParent(P, parent, k);
    UnderParent(P[p], P[k]);
    if P[p] == Parent(P[k]) {
      c := k;
    } else {
      c := KidToward(P, parent, p, parent[k]);
      assert Under(P[parent[k]], P[k]);
      if c != parent[k] { UnderTransitive(P[c], P[parent[k]], P[k]); }
    }
  }

  lemma KidUnder(P: seq<Path>, parent: seq<nat>, p: nat, c: nat)
    requires Parented(P, parent) && Kid(P, parent, p, c)
    ensures p < |P| && c < |P| && Under(P[p], P[c]) && Before(P[p], P[c]) && |P[c]| == |P[p]| + 1
  {
    assert IsParent(P, parent, c);
    UnderIsAfter(P[p], P[c]);
  }

  /** All that a walk has passed when it is at cur and goes down. */
  lemma FirstIsNext(P: seq<Path>, parent: seq<nat>, done: set<int>, cur: nat, f: nat, k: nat)
    requires Parented(P, parent) && Above(P, done) && cur < |P| && k < |P| && (k == 0 || k in done) && FirstKid(P, parent, done, cur, f)
    ensures f < |P| && (AtOrBefore(P[k], P[cur]) <==> Before(P[k], P[f]))
  {
    KidUnder(P, parent, cur, f);
    if AtOrBefore(P[k], P[cur]) {
      if k != cur && P[k] != P[cur] { BeforeTransitive(P[k], P[cur], P[f]); }
    } else {
      BeforeTotal(P[k], P[cur]);
      SubtreeTogether(P[cur], P[f], P[k]);
      if Under(P[cur], P[k]) {
        var c := KidToward(P, parent, cur, k);
        FirstAtOrBefore(P, f, c, k);
      } else {
        BeforeAsymmetric(P[f], P[k]);
      }
    }
  }

  lemma FirstAtOrBefore(P: seq<Path>, f: nat, c: nat, k: nat)
    requires f < |P| && c < |P| && k < |P| && AtOrBefore(P[f], P[c]) && (c == k || Under(P[c], P[k]))
    ensures AtOrBefore(P[f], P[k]) && !Before(P[k], P[f])
  {
    if c != k {
      UnderIsAfter(P[c], P[k]);
      if P[f] != P[c] { BeforeTransitive(P[f], P[c], P[k]); }
    }
    BeforeIrreflexive(P[k]);
    if P[f] != P[k] { BeforeAsymmetric(P[f], P[k]); }
  }

  lemma NothingUnder(P: seq<Path>, parent: seq<nat>, done: set<int>, cur: nat, k: nat)
    requires Parented(P, parent) && Above(P, done) && cur < |P| && k < |P| && (k == 0 || k in done) && FirstKid(P, parent, done, cur, NONE)
    ensures !Under(P[cur], P[k])
  {
    if Under(P[cur], P[k]) {
      var c := KidToward(P, parent, cur, k);
    }
  }

  /** Everything up to cur and under it has been passed. */
  predicate Passed(P: seq<Path>, cur: nat, k: nat)
    requires cur < |P| && k < |P|
  {
    AtOrBefore(P[k], P[cur]) || Under(P[cur], P[k])
  }

  lemma NextIsNext(P: seq<Path>, parent: seq<nat>, done: set<int>, cur: nat, s: nat, k: nat)
    requires Parented(P, parent) && Above(P, done) && 0 < cur < |P| && k < |P| && (k == 0 || k in done) && NextKid(P, parent, done, cur, s)
    ensures s < |P| && (Passed(P, cur, k) <==> Before(P[k], P[s]))
  {
    var p := parent[cur];
    KidUnder(P, parent, p, cur);
    KidUnder(P, parent, p, s);
    if Passed(P, cur, k) {
      if P[k] != P[cur] {
        if Before(P[k], P[cur]) { BeforeTransitive(P[k], P[cur], P[s]); } else { SubtreeTogether(P[cur], P[k], P[s]); }
      }
    } else {
      BeforeTotal(P[k], P[cur]);
      BeforeTransitive(P[p], P[cur], P[k]);
      SubtreeTogether(P[p], P[s], P[k]);
      if Under(P[p], P[k]) {
        var c := KidToward(P, parent, p, k);
        KidUnder(P, parent, p, c);
        LaterSibling(P, parent, cur, c, k);
        FirstAtOrBefore(P, s, c, k);
      } else {
        BeforeAsymmetric(P[s], P[k]);
      }
    }
  }

  /** The child on the way to a node not passed comes after cur. */
  lemma LaterSibling(P: seq<Path>, parent: seq<nat>, cur: nat, c: nat, k: nat)
    requires Parented(P, parent) && 0 < cur < |P| && k < |P| && !Passed(P, cur, k) && Kid(P, parent, parent[cur], c)
    requires c == k || Under(P[c], P[k])
    ensures Before(P[cur], P[c])
  {
    KidUnder(P, parent, parent[cur], cur);
    KidUnder(P, parent, parent[cur], c);
    BeforeTotal(P[cur], P[c]);
    if Before(P[c], P[cur]) && c != k { SubtreeTogether(P[c], P[k], P[cur]); }
  }

  lemma ParentDone(P: seq<Path>, parent: seq<nat>, done: set<int>, cur: nat, k: nat)
    requires Parented(P, parent) && Above(P, done) && 0 < cur < |P| && k < |P| && (k == 0 || k in done) && NextKid(P, parent, done, cur, NONE)
    ensures parent[cur] < |P| && (Passed(P, cur, k) <==> Passed(P, parent[cur], k))
  {
    var p := parent[cur];
    assert IsParent(P, parent, cur);
    KidUnder(P, parent, p, cur);
    if Passed(P, cur, k) {
      if Under(P[cur], P[k]) { UnderTransitive(P[p], P[cur], P[k]); }
      BeforeTotal(P[k], P[p]);
      if Before(P[p], P[k]) && Before(P[k], P[cur]) {
        SubtreeTogether(P[p], P[cur], P[k]);
        BeforeAsymmetric(P[k], P[cur]);
      }
    } else {
      if AtOrBefore(P[k], P[p]) && P[k] != P[p] { BeforeTransitive(P[k], P[p], P[cur]); }
      if Under(P[p], P[k]) {
        var c := KidToward(P, parent, p, k);
        LaterSibling(P, parent, cur, c, k);
        BeforeAsymmetric(P[cur], P[c]);
        }
    }
  }

  // ----- the walk

  /** The nodes seen so far are numbered in the order seen, which is manifest order. */
  ghost predicate Numbered(P: seq<Path>, seen: seq<nat>, ord: seq<nat>, visited: set<nat>) {
    && |ord| == |P| && |seen| == |visited|
    && (forall j :: 0 <= j < |seen| ==> seen[j] < |P| && ord[seen[j]] == j && seen[j] in visited)
    && (forall k :: k in visited ==> 0 <= k < |P| && ord[k] < |seen| && seen[ord[k]] == k)
    && (forall a, b :: 0 <= a < b < |seen| ==> Before(P[seen[a]], P[seen[b]]))
  }

  lemma SeeOne(P: seq<Path>, seen: seq<nat>, ord: seq<nat>, visited: set<nat>, cur: nat)
    requires Numbered(P, seen, ord, visited) && cur < |P| && cur !in visited
    requires forall k: nat :: k < |P| ==> (k in visited <==> Before(P[k], P[cur]))
    ensures |seen| < |P| && Numbered(P, seen + [cur], ord[cur := |seen|], visited + {cur})
  {
    AtMost(visited + {cur}, |P|);
    var seen' := seen + [cur];
    forall a, b | 0 <= a < b < |seen'| ensures Before(P[seen'[a]], P[seen'[b]]) {
      assert seen'[a] in visited;
    }
  }

  /** The walk is about to see cur: it has seen what comes before. */
  ghost predicate Reached(P: seq<Path>, visited: set<nat>, cur: nat)
    requires cur < |P|
  {
    cur !in visited && forall k: nat :: k < |P| ==> (k in visited <==> Before(P[k], P[cur]))
  }

  ghost predicate Finished(P: seq<Path>, visited: set<nat>, cur: nat)
    requires cur < |P|
  {
    forall k: nat :: k < |P| ==> (k in visited <==> Passed(P, cur, k))
  }

  lemma GoDown(P: seq<Path>, parent: seq<nat>, visited: set<nat>, cur: nat, f: int)
    requires Parented(P, parent) && cur < |P| && Reached(P, visited, cur) && FirstKid(P, parent, Nodes(|P|), cur, f)
    ensures f != NONE ==> 0 <= f < |P| && Reached(P, visited + {cur}, f)
    ensures f == NONE ==> Finished(P, visited + {cur}, cur)
  {
    forall k: nat | k < |P| ensures k in visited + {cur} <==> AtOrBefore(P[k], P[cur]) { BeforeIrreflexive(P[k]); }
    if f != NONE {
      forall k: nat | k < |P| ensures f < |P| && (AtOrBefore(P[k], P[cur]) <==> Before(P[k], P[f])) { FirstIsNext(P, parent, Nodes(|P|), cur, f, k); }
      BeforeIrreflexive(P[f]);
    } else {
      forall k: nat | k < |P| ensures !Under(P[cur], P[k]) { NothingUnder(P, parent, Nodes(|P|), cur, k); }
    }
  }

  lemma GoOn(P: seq<Path>, parent: seq<nat>, visited: set<nat>, cur: nat, s: int)
    requires Parented(P, parent) && 0 < cur < |P| && Finished(P, visited, cur) && NextKid(P, parent, Nodes(|P|), cur, s)
    ensures s != NONE ==> 0 <= s < |P| && Reached(P, visited, s)
    ensures s == NONE ==> parent[cur] < |P| && |P[parent[cur]]| < |P[cur]| && Finished(P, visited, parent[cur])
  {
    if s != NONE {
      forall k: nat | k < |P| ensures s < |P| && (Passed(P, cur, k) <==> Before(P[k], P[s])) { NextIsNext(P, parent, Nodes(|P|), cur, s, k); }
      BeforeIrreflexive(P[s]);
    } else {
      assert IsParent(P, parent, cur);
      forall k: nat | k < |P| ensures Passed(P, cur, k) <==> Passed(P, parent[cur], k) { ParentDone(P, parent, Nodes(|P|), cur, k); }
    }
  }

  /** `zm_walk_order`'s climb: from a finished node to the next one, or home. */
  method ClimbOn(P: seq<Path>, parent: seq<nat>, next: array<int>, ghost first: seq<int>, ghost visited: set<nat>, at: nat)
    returns (cur: nat, home: bool)
    requires Parented(P, parent) && next.Length == |P| && Linked(P, parent, Nodes(|P|), first, next[..])
    requires at < |P| && Finished(P, visited, at)
    ensures cur < |P| && (home ==> Finished(P, visited, 0)) && (!home ==> Reached(P, visited, cur))
  {
    hide Finished, Reached, NodesValid;
    cur := at;
    while cur != 0
      invariant cur < |P| && Finished(P, visited, cur)
      decreases |P[cur]|
    {
      assert cur in Nodes(|P|) && NextKid(P, parent, Nodes(|P|), cur, next[..][cur]);
      GoOn(P, parent, visited, cur, next[cur]);
      if next[cur] != NONE { return next[cur], false; }
      cur := parent[cur];
    }
    home := true;
  }

  /** The node is numbered and takes its place in the order. */
  method See(P: seq<Path>, order: array<nat>, ord: array<nat>, cur: nat, i: nat, ghost visited: set<nat>)
    requires order != ord && order.Length == |P| && i <= |P| && Numbered(P, order[..i], ord[..], visited)
    requires cur < |P| && Reached(P, visited, cur)
    modifies order, ord
    ensures i < |P| && Numbered(P, order[..i + 1], ord[..], visited + {cur})
  {
    hide Numbered, Reached;
    SeeReached(P, order[..i], ord[..], visited, cur);
    ghost var seen: seq<nat>, was: seq<nat> := order[..i], ord[..];
    ord[cur] := i;
    order[i] := cur;
    assert order[..i + 1] == seen + [cur] && ord[..] == was[cur := i];
  }

  /** `zm_walk_order`: every node once, in manifest order. */
  method WalkOrder(P: seq<Path>, parent: seq<nat>, first: array<int>, next: array<int>) returns (order: array<nat>, ord: array<nat>)
    requires Parented(P, parent) && first.Length == next.Length == |P| && Linked(P, parent, Nodes(|P|), first[..], next[..])
    ensures Walked(P, order[..], ord[..])
  {
    hide Finished, Reached, Linked, Parented, Numbered, Walked;
    RootReached(P, parent);
    order := new nat[|P|](_ => 0);
    ord := new nat[|P|](_ => 0);
    ghost var visited: set<nat> := {};
    ghost var f, n := first[..], next[..];
    var cur: nat, i: nat := 0, 0;
    NothingSeen(P, ord[..]);
    while true
      invariant cur < |P| && i <= |P| && Reached(P, visited, cur) && Numbered(P, order[..i], ord[..], visited)
      invariant first[..] == f && next[..] == n
      decreases |P| - i
    {
      See(P, order, ord, cur, i, visited);
      i := i + 1;
      Down(P, parent, f, n, visited, cur);
      visited := visited + {cur};
      if first[cur] != NONE {
        cur := first[cur];
      } else {
        var home;
        cur, home := ClimbOn(P, parent, next, f, visited, cur);
        if home {
          AllSeen(P, parent, order[..i], ord[..], visited);
          assert order[..i] == order[..];
          return;
        }
      }
    }
  }

  /** Every node once, numbered by its place in manifest order. */
  ghost predicate Walked(P: seq<Path>, order: seq<nat>, ord: seq<nat>) {
    && |order| == |ord| == |P|
    && (forall i :: 0 <= i < |P| ==> order[i] < |P| && ord[order[i]] == i)
    && (forall k :: 0 <= k < |P| ==> ord[k] < |P| && order[ord[k]] == k)
    && (forall a, b :: 0 <= a < b < |P| ==> Before(P[order[a]], P[order[b]]))
  }

  lemma NothingSeen(P: seq<Path>, ord: seq<nat>)
    requires |ord| == |P|
    ensures Numbered(P, [], ord, {})
  {
  }

  lemma Down(P: seq<Path>, parent: seq<nat>, first: seq<int>, next: seq<int>, visited: set<nat>, cur: nat)
    requires Parented(P, parent) && Linked(P, parent, Nodes(|P|), first, next) && cur < |P| && Reached(P, visited, cur)
    ensures cur < |first|
    ensures first[cur] != NONE ==> 0 <= first[cur] < |P| && Reached(P, visited + {cur}, first[cur])
    ensures first[cur] == NONE ==> Finished(P, visited + {cur}, cur)
  {
    hide Reached, Finished, NodesValid;
    assert FirstKid(P, parent, Nodes(|P|), cur, first[cur]);
    GoDown(P, parent, visited, cur, first[cur]);
  }

  lemma RootReached(P: seq<Path>, parent: seq<nat>)
    requires Parented(P, parent)
    ensures |P| > 0 && |parent| == |P| && Reached(P, {}, 0)
  {
  }

  lemma SeeReached(P: seq<Path>, seen: seq<nat>, ord: seq<nat>, visited: set<nat>, cur: nat)
    requires Numbered(P, seen, ord, visited) && cur < |P| && Reached(P, visited, cur)
    ensures |seen| < |P| == |ord| && Numbered(P, seen + [cur], ord[cur := |seen|], visited + {cur})
  {
    SeeOne(P, seen, ord, visited, cur);
  }

  lemma AllSeen(P: seq<Path>, parent: seq<nat>, seen: seq<nat>, ord: seq<nat>, visited: set<nat>)
    requires Parented(P, parent) && Numbered(P, seen, ord, visited) && Finished(P, visited, 0)
    ensures |seen| == |P| && Walked(P, seen, ord)
  {
    forall k: nat | k < |P| ensures k in visited {
      assert P[k][..0] == [];
      assert Passed(P, 0, k);
    }
    AtMost(visited, |P|);
    AtLeast(visited, |P|);
  }
}
