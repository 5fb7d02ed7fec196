/** The emitter's own printing, `zm_show` and `zm_emit_tree` of src/manifest.c: the nodes that have
    something to say and the way to them, printed in one walk over the tree of nodes, and read back. */
module Printing {
  import opened Trees
  import opened Paths
  import opened Namespace
  import opened Document
  import W = Writer
  import R = RoundTrip

  /** The nodes, and what each carries: the place of its action in the list, or NONE, and its slash. */
  ghost predicate Carried(P: seq<Path>, parent: seq<nat>, deeds: seq<Deed>, acts: seq<int>, dirs: seq<bool>) {
    && Parented(P, parent) && |acts| == |dirs| == |P| && dirs[0]
    && (forall k :: 0 <= k < |P| && acts[k] != NONE ==>
          0 <= acts[k] < |deeds| && deeds[acts[k]].path == P[k] && deeds[acts[k]].dir == dirs[k])
    && (forall j: nat :: j < |deeds| ==> HasNode(acts, j))
    && (forall k: nat :: 0 < k < |P| ==> parent[k] < |P| && dirs[parent[k]])
  }

  ghost predicate HasNode(acts: seq<int>, j: nat) { exists k: nat :: k < |acts| && acts[k] == j }

  // ----- what is shown

  /** Node k has an action, or lies above one of the first n nodes that have. */
  ghost predicate Tells(P: seq<Path>, acts: seq<int>, n: nat, k: nat)
    requires n <= |acts| == |P| && k < |P|
  {
    k == 0 || exists j: nat :: j < n && acts[j] != NONE && (j == k || Under(P[k], P[j]))
  }

  ghost predicate ShownRight(P: seq<Path>, acts: seq<int>, show: seq<bool>) {
    |acts| == |show| == |P| && P != [] && forall k: nat :: k < |P| ==> (show[k] <==> Tells(P, acts, |P|, k))
  }

  /** The climb from node n, with p to be shown next: all between is shown, all else is as before. */
  ghost predicate Climbing(P: seq<Path>, acts: seq<int>, show: seq<bool>, n: nat, p: nat)
    requires n < |acts| == |show| == |P| && p < |P|
  {
    && Under(P[p], P[n]) && acts[n] != NONE && show[n]
    && (forall k: nat :: k < |P| && show[k] ==> Tells(P, acts, n + 1, k))
    && (forall k: nat :: k < |P| && show[k] && |P[k]| <= |P[p]| ==> Tells(P, acts, n, k))
    && (forall k: nat :: k < |P| && Tells(P, acts, n, k) ==> show[k])
    && (forall k: nat :: k < |P| && Under(P[k], P[n]) && |P[k]| > |P[p]| ==> show[k])
  }

  lemma ClimbStarts(P: seq<Path>, parent: seq<nat>, acts: seq<int>, show: seq<bool>, n: nat)
    requires Parented(P, parent) && |acts| == |show| == |P| && 0 < n < |P| && acts[n] != NONE
    requires forall k: nat :: k < |P| ==> (show[k] <==> Tells(P, acts, n, k))
    ensures parent[n] < |P| && Climbing(P, acts, show[n := true], n, parent[n])
  {
    assert IsParent(P, parent, n);
  }

  lemma ClimbsOn(P: seq<Path>, parent: seq<nat>, acts: seq<int>, show: seq<bool>, n: nat, p: nat)
    requires Parented(P, parent) && n < |acts| == |show| == |P| && 0 < p < |P| && Climbing(P, acts, show, n, p)
    ensures parent[p] < |P| && |P[parent[p]]| < |P[p]| && Climbing(P, acts, show[p := true], n, parent[p])
  {
    assert IsParent(P, parent, p);
    UnderTransitive(P[parent[p]], P[p], P[n]);
    forall k: nat | k < |P| && Under(P[k], P[n]) && |P[k]| > |P[parent[p]]| ensures show[p := true][k] {
      if |P[k]| == |P[p]| { assert P[k] == P[n][..|P[k]|] == P[p]; }
    }
  }

  lemma AboveTells(P: seq<Path>, acts: seq<int>, n: nat, k: nat, p: nat)
    requires n <= |acts| == |P| && k < |P| && p < |P| && p != 0 && Under(P[k], P[p]) && Tells(P, acts, n, p)
    ensures Tells(P, acts, n, k)
  {
    var j: nat :| j < n && acts[j] != NONE && (j == p || Under(P[p], P[j]));
    if j != p { UnderTransitive(P[k], P[p], P[j]); }
  }

  lemma RootTells(P: seq<Path>, acts: seq<int>)
    requires NodesValid(P) && |acts| == |P|
    ensures |P| > 0 && forall k: nat :: k < |P| ==> (k == 0 <==> Tells(P, acts, 1, k))
  {
  }

  /** The root is shown already, so the climb stops there. */
  lemma RootClimbs(P: seq<Path>, acts: seq<int>, show: seq<bool>, n: nat, p: nat)
    requires n < |acts| == |show| == |P| && p < |P| && Climbing(P, acts, show, n, p) && !show[p]
    ensures p != 0
  {
    assert Tells(P, acts, n, 0);
  }

  lemma SilentNode(P: seq<Path>, acts: seq<int>, n: nat)
    requires n < |acts| == |P| && acts[n] == NONE
    ensures forall k: nat :: k < |P| ==> (Tells(P, acts, n, k) <==> Tells(P, acts, n + 1, k))
  {
  }

  lemma ClimbEnds(P: seq<Path>, acts: seq<int>, show: seq<bool>, n: nat, p: nat)
    requires NodesValid(P) && n < |acts| == |show| == |P| && p < |P| && Climbing(P, acts, show, n, p) && show[p]
    ensures forall k: nat :: k < |P| ==> (show[k] <==> Tells(P, acts, n + 1, k))
  {
    forall k: nat | k < |P| && Under(P[k], P[n]) ensures show[k] {
      if |P[k]| <= |P[p]| {
        assert Tells(P, acts, n, p);
        assert P[k] == P[n][..|P[k]|] == P[p][..|P[k]|];
        if P[k] != P[p] { AboveTells(P, acts, n, k, p); }
      }
    }
  }

  /** `zm_show`. */
  method Show(P: seq<Path>, parent: seq<nat>, acts: seq<int>) returns (show: array<bool>)
    requires Parented(P, parent) && |acts| == |P|
    ensures fresh(show) && show.Length == |P| && ShownRight(P, acts, show[..])
  {
    hide Tells, Climbing, Under, NodesValid;
    show := new bool[|P|](k => k == 0);
    RootTells(P, acts);
    for n: nat := 1 to |P|
      invariant forall k: nat :: k < |P| ==> (show[..][k] <==> Tells(P, acts, n, k))
    {
      if acts[n] != NONE {
        ghost var was := show[..];
        ClimbStarts(P, parent, acts, was, n);
        show[n] := true;
        assert show[..] == was[n := true];
        var p: nat := parent[n];
        while !show[p]
          invariant p < |P| && Climbing(P, acts, show[..], n, p)
          decreases |P[p]|
        {
          ghost var now := show[..];
          RootClimbs(P, acts, now, n, p);
          ClimbsOn(P, parent, acts, now, n, p);
          show[p] := true;
          assert show[..] == now[p := true];
          p := parent[p];
        }
        ClimbEnds(P, acts, show[..], n, p);
      } else {
        SilentNode(P, acts, n);
      }
    }
  }

  // ----- the shown nodes, in manifest order

  function ShownOf(order: seq<nat>, show: seq<bool>, i: nat): (N: seq<nat>)
    requires i <= |order| && forall j :: 0 <= j < |order| ==> order[j] < |show|
  {
    if i == 0 then [] else ShownOf(order, show, i - 1) + (if show[order[i - 1]] then [order[i - 1]] else [])
  }

  /** The shown nodes, each once, in manifest order. */
  ghost predicate ListedTo(P: seq<Path>, order: seq<nat>, show: seq<bool>, i: nat, N: seq<nat>)
    requires |show| == |P| && i <= |order|
  {
    && (forall b :: 0 <= b < |N| ==> N[b] < |P| && show[N[b]] && N[b] in order[..i])
    && (forall j :: 0 <= j < i && order[j] < |P| && show[order[j]] ==> order[j] in N)
    && (forall a, b :: 0 <= a < b < |N| ==> Before(P[N[a]], P[N[b]]))
  }

  lemma WalkedPair(P: seq<Path>, order: seq<nat>, ord: seq<nat>, a: nat, b: nat)
    requires Walked(P, order, ord) && a < b < |order|
    ensures order[a] < |P| && order[b] < |P| && Before(P[order[a]], P[order[b]])
  {
  }

  lemma WalkedNodes(P: seq<Path>, order: seq<nat>, ord: seq<nat>)
    requires Walked(P, order, ord)
    ensures |order| == |P| && forall j :: 0 <= j < |order| ==> order[j] < |P|
  {
  }

  lemma {:induction false} ShownListed(P: seq<Path>, order: seq<nat>, ord: seq<nat>, show: seq<bool>, i: nat)
    requires |show| == |P| && Walked(P, order, ord) && i <= |order|
    ensures ListedTo(P, order, show, i, ShownOf(order, show, i))
  {
    hide Before, Walked;
    WalkedNodes(P, order, ord);
    if i > 0 {
      ShownListed(P, order, ord, show, i - 1);
      var N := ShownOf(order, show, i - 1);
      forall b | 0 <= b < |N| ensures Before(P[N[b]], P[order[i - 1]]) && N[b] in order[..i] {
        var j :| 0 <= j < i - 1 && order[j] == N[b];
        WalkedPair(P, order, ord, j, i - 1);
        assert order[..i][j] == N[b];
      }
      assert order[..i][i - 1] == order[i - 1];
    }
  }

  /** What the walk prints: the shown nodes N, in order. */
  ghost predicate Shown(P: seq<Path>, show: seq<bool>, N: seq<nat>) {
    && |show| == |P| && N != [] && N[0] == 0
    && (forall b :: 0 <= b < |N| ==> N[b] < |P| && show[N[b]])
    && (forall k: nat :: k < |P| && show[k] ==> k in N)
    && (forall a, b :: 0 <= a < b < |N| ==> Before(P[N[a]], P[N[b]]))
  }

  lemma ShownAll(P: seq<Path>, order: seq<nat>, ord: seq<nat>, show: seq<bool>)
    requires NodesValid(P) && |show| == |P| && Walked(P, order, ord) && show[0]
    ensures Shown(P, show, ShownOf(order, show, |order|))
  {
    ShownListed(P, order, ord, show, |order|);
    var N := ShownOf(order, show, |order|);
    forall k: nat | k < |P| && show[k] ensures k in N { assert order[ord[k]] == k; }
    var b :| 0 <= b < |N| && N[b] == 0;
    NothingBeforeRoot(P[N[0]]);
    assert b == 0;
  }

  lemma NothingBeforeRoot(p: Path)
    ensures !Before(p, [])
  {
  }

  ghost function Vis(show: seq<bool>): (r: set<int>)
    ensures forall k :: k in r <==> 0 < k < |show| && show[k]
  {
    set k | 0 < k < |show| && show[k]
  }

  /** What lies above a shown node is shown. */
  lemma VisAbove(P: seq<Path>, acts: seq<int>, show: seq<bool>)
    requires NodesValid(P) && ShownRight(P, acts, show)
    ensures Above(P, Vis(show))
  {
    hide Under, Tells;
    forall c, k | 0 < c < |P| && 0 <= k < |P| && k in Vis(show) && Under(P[c], P[k]) ensures c in Vis(show) {
      AboveTells(P, acts, |P|, c, k);
    }
  }

  // ----- the entries

  /** The entries of the shown nodes. */
  ghost function EntsOf(P: seq<Path>, acts: seq<int>, dirs: seq<bool>, N: seq<nat>): (E: seq<W.Ent>)
    requires |acts| == |dirs| == |P| && forall b :: 0 <= b < |N| ==> N[b] < |P|
    ensures |E| == |N| && forall b :: 0 <= b < |N| ==> E[b] == W.Ent(P[N[b]], acts[N[b]], dirs[N[b]], false)
  {
    seq(|N|, (b: nat) requires b < |N| => W.Ent(P[N[b]], acts[N[b]], dirs[N[b]], false))
  }

  /** The shown nodes are the entries the list needs. */
  lemma EntsRight(P: seq<Path>, parent: seq<nat>, deeds: seq<Deed>, acts: seq<int>, dirs: seq<bool>, show: seq<bool>, N: seq<nat>)
    requires Carried(P, parent, deeds, acts, dirs) && acts[0] == NONE && ShownRight(P, acts, show) && Shown(P, show, N)
    ensures W.EntriesFor(deeds, EntsOf(P, acts, dirs, N))
  {
    hide Under, Before, Tells, HasNode, NodesValid, W.Leads, W.EntRight, W.HasAct, W.ParentIn;
    var E := EntsOf(P, acts, dirs, N);
    forall b: nat | b < |E| ensures W.EntRight(deeds, E[b]) && W.Leads(deeds, E[b].path) && W.ParentIn(E, b) {
      EntRightAt(P, parent, deeds, acts, dirs, show, N[b]);
      ParentInAt(P, parent, deeds, acts, dirs, show, N, b);
    }
    forall j: nat | j < |deeds| ensures W.HasAct(E, j) { HasActAt(P, parent, deeds, acts, dirs, show, N, j); }
    assert P[0] == [] by { RootIsEmpty(P); }
  }

  lemma RootIsEmpty(P: seq<Path>)
    requires NodesValid(P)
    ensures P != [] && P[0] == []
  {
  }

  lemma EntRightAt(P: seq<Path>, parent: seq<nat>, deeds: seq<Deed>, acts: seq<int>, dirs: seq<bool>, show: seq<bool>, k: nat)
    requires Carried(P, parent, deeds, acts, dirs) && acts[0] == NONE && ShownRight(P, acts, show) && k < |P| && show[k]
    ensures W.EntRight(deeds, W.Ent(P[k], acts[k], dirs[k], false)) && W.Leads(deeds, P[k])
  {
    if k != 0 {
      var j: nat :| j < |P| && acts[j] != NONE && (j == k || Under(P[k], P[j]));
      assert deeds[acts[j]].path == P[j];
      if acts[k] == NONE { var c := KidToward(P, parent, k, j); }
    }
  }

  lemma ParentInAt(P: seq<Path>, parent: seq<nat>, deeds: seq<Deed>, acts: seq<int>, dirs: seq<bool>, show: seq<bool>, N: seq<nat>, b: nat)
    requires Carried(P, parent, deeds, acts, dirs) && ShownRight(P, acts, show) && Shown(P, show, N) && b < |N|
    ensures W.ParentIn(EntsOf(P, acts, dirs, N), b)
  {
    hide Before;
    var k := N[b];
    if P[k] != [] {
      assert IsParent(P, parent, k);
      if parent[k] != 0 { AboveTells(P, acts, |P|, parent[k], k); }
      var p :| 0 <= p < |N| && N[p] == parent[k];
      assert EntsOf(P, acts, dirs, N)[p].path == Parent(P[k]);
    }
  }

  lemma HasActAt(P: seq<Path>, parent: seq<nat>, deeds: seq<Deed>, acts: seq<int>, dirs: seq<bool>, show: seq<bool>, N: seq<nat>, j: nat)
    requires Carried(P, parent, deeds, acts, dirs) && ShownRight(P, acts, show) && Shown(P, show, N) && j < |deeds|
    ensures W.HasAct(EntsOf(P, acts, dirs, N), j)
  {
    hide Before, Under;
    assert HasNode(acts, j);
    var k: nat :| k < |P| && acts[k] == j;
    assert show[k];
    var b :| 0 <= b < |N| && N[b] == k;
    assert EntsOf(P, acts, dirs, N)[b].act == j;
  }

  // ----- the printing walk

  /** A child of p, after `low` if there is one. */
  predicate Candidate(P: seq<Path>, parent: seq<nat>, p: nat, low: Option<nat>, k: int)
    requires |parent| == |P| && (low.Some? ==> low.value < |P|)
  {
    Kid(P, parent, p, k) && (low.Some? ==> Before(P[low.value], P[k]))
  }

  /** No shown candidate comes before c, or there is none at all. */
  ghost predicate NoneSooner(P: seq<Path>, parent: seq<nat>, show: seq<bool>, p: nat, low: Option<nat>, c: int)
    requires |parent| == |show| == |P| && (low.Some? ==> low.value < |P|)
  {
    && (c != NONE ==> Candidate(P, parent, p, low, c))
    && (forall k: nat :: k < |P| && show[k] && Candidate(P, parent, p, low, k) ==> c != NONE && 0 <= c < |P| && AtOrBefore(P[c], P[k]))
  }

  lemma PassHidden(P: seq<Path>, parent: seq<nat>, show: seq<bool>, p: nat, low: Option<nat>, c: nat, n: int)
    requires Parented(P, parent) && |show| == |P| && (low.Some? ==> low.value < |P|)
    requires NoneSooner(P, parent, show, p, low, c) && !show[c] && NextKid(P, parent, Nodes(|P|), c, n)
    ensures NoneSooner(P, parent, show, p, low, n) && (n != NONE ==> 0 <= n < |P| && Before(P[c], P[n]))
  {
    hide Before;
    if n != NONE && low.Some? { BeforeTransitive(P[low.value], P[c], P[n]); }
    forall k: nat | k < |P| && show[k] && Candidate(P, parent, p, low, k) ensures n != NONE && 0 <= n < |P| && AtOrBefore(P[n], P[k]) {
      assert k in Nodes(|P|) && Before(P[c], P[k]);
      if n == NONE { BeforeAsymmetric(P[c], P[k]); }
    }
  }

  /** `zm_shown`: on to the first shown node of a list of children. */
  method NextShown(P: seq<Path>, parent: seq<nat>, next: array<int>, show: array<bool>, ghost first: seq<int>, ghost order: seq<nat>,
                   ghost ord: seq<nat>, ghost p: nat, ghost low: Option<nat>, at: int) returns (c: int)
    requires Parented(P, parent) && next.Length == show.Length == |P| && Linked(P, parent, Nodes(|P|), first, next[..])
    requires Walked(P, order, ord) && (low.Some? ==> low.value < |P|) && NoneSooner(P, parent, show[..], p, low, at)
    ensures NoneSooner(P, parent, show[..], p, low, c) && (c != NONE ==> 0 < c < |P| && show[c])
  {
    hide NodesValid, Before, FirstKid, NextKid;
    c := at;
    while c != NONE && !show[c]
      invariant NoneSooner(P, parent, show[..], p, low, c) && (c != NONE ==> 0 < c < |P|)
      decreases if c == NONE then 0 else 1 + |P| - ord[c]
    {
      assert c in Nodes(|P|) && NextKid(P, parent, Nodes(|P|), c, next[..][c]);
      PassHidden(P, parent, show[..], p, low, c, next[c]);
      if next[c] != NONE { LaterInWalk(P, order, ord, c, next[c]); }
      c := next[c];
    }
  }

  lemma LaterInWalk(P: seq<Path>, order: seq<nat>, ord: seq<nat>, a: nat, b: nat)
    requires Walked(P, order, ord) && a < |P| && b < |P| && Before(P[a], P[b])
    ensures ord[a] < ord[b] < |P|
  {
    hide Before;
    assert order[ord[a]] == a && order[ord[b]] == b;
    BeforeIrreflexive(P[a]);
    if ord[b] < ord[a] { BeforeAsymmetric(P[a], P[b]); }
  }

  // ----- where the walk stands

  /** The walk is to print cur, which is the i-th shown node. */
  ghost predicate Here(N: seq<nat>, i: nat, cur: nat) { i < |N| && N[i] == cur }

  /** The walk has printed cur and all under it: the first i shown nodes. */
  ghost predicate Done(P: seq<Path>, N: seq<nat>, i: nat, cur: nat)
    requires cur < |P| && forall b :: 0 <= b < |N| ==> N[b] < |P|
  {
    i <= |N| && forall b: nat :: b < |N| ==> (b < i <==> Passed(P, cur, N[b]))
  }

  lemma HereFrom(P: seq<Path>, show: seq<bool>, N: seq<nat>, i: nat, s: nat)
    requires Shown(P, show, N) && s < |P| && show[s] && i <= |N|
    requires forall b: nat :: b < |N| ==> (b < i <==> Before(P[N[b]], P[s]))
    ensures Here(N, i, s)
  {
    var c: nat :| c < |N| && N[c] == s;
    BeforeIrreflexive(P[s]);
    assert i <= c;
    assert !Before(P[N[i]], P[s]);
  }

  lemma UpTo(P: seq<Path>, show: seq<bool>, N: seq<nat>, i: nat, b: nat)
    requires Shown(P, show, N) && i < |N| && b < |N|
    ensures b <= i <==> AtOrBefore(P[N[b]], P[N[i]])
  {
    BeforeIrreflexive(P[N[i]]);
    if i < b { BeforeAsymmetric(P[N[i]], P[N[b]]); }
  }

  /** Down to the first shown child, or done with the node. */
  lemma WalkIn(P: seq<Path>, parent: seq<nat>, show: seq<bool>, N: seq<nat>, i: nat, cur: nat, f: int)
    requires Parented(P, parent) && Shown(P, show, N) && Above(P, Vis(show)) && Here(N, i, cur) && cur < |P|
    requires NoneSooner(P, parent, show, cur, None, f) && (f != NONE ==> 0 < f < |P| && show[f])
    ensures f != NONE ==> Here(N, i + 1, f) && parent[f] == cur
    ensures f == NONE ==> Done(P, N, i + 1, cur)
  {
    hide Before, Under, NodesValid;
    assert FirstKid(P, parent, Vis(show), cur, f);
    forall b: nat | b < |N| ensures if f != NONE then b < i + 1 <==> Before(P[N[b]], P[f]) else b < i + 1 <==> Passed(P, cur, N[b]) {
      UpTo(P, show, N, i, b);
      if f != NONE { FirstIsNext(P, parent, Vis(show), cur, f, N[b]); } else { NothingUnder(P, parent, Vis(show), cur, N[b]); }
    }
    if f != NONE { HereFrom(P, show, N, i + 1, f); }
  }

  /** On to the next shown sibling, or done with the directory. */
  lemma WalkOn(P: seq<Path>, parent: seq<nat>, show: seq<bool>, N: seq<nat>, i: nat, cur: nat, s: int)
    requires Parented(P, parent) && Shown(P, show, N) && Above(P, Vis(show)) && 0 < cur < |P| && Done(P, N, i, cur)
    requires NoneSooner(P, parent, show, parent[cur], Some(cur), s) && (s != NONE ==> 0 < s < |P| && show[s])
    ensures s != NONE ==> Here(N, i, s) && parent[s] == parent[cur]
    ensures s == NONE ==> parent[cur] < |P| && |P[parent[cur]]| < |P[cur]| && Done(P, N, i, parent[cur])
  {
    hide Before, Under, NodesValid;
    assert IsParent(P, parent, cur);
    SiblingOf(P, parent, show, cur, s);
    forall b: nat | b < |N| ensures if s != NONE then b < i <==> Before(P[N[b]], P[s]) else b < i <==> Passed(P, parent[cur], N[b]) {
      if s != NONE { NextIsNext(P, parent, Vis(show), cur, s, N[b]); } else { ParentDone(P, parent, Vis(show), cur, N[b]); }
    }
    if s != NONE { HereFrom(P, show, N, i, s); }
  }

  lemma SiblingOf(P: seq<Path>, parent: seq<nat>, show: seq<bool>, cur: nat, s: int)
    requires Parented(P, parent) && |show| == |P| && 0 < cur < |P|
    requires NoneSooner(P, parent, show, parent[cur], Some(cur), s) && (s != NONE ==> 0 < s < |P| && show[s])
    ensures NextKid(P, parent, Vis(show), cur, s)
  {
    hide Before;
    forall j | j in Vis(show) && Kid(P, parent, parent[cur], j) && s == NONE ensures AtOrBefore(P[j], P[cur]) {
      BeforeTotal(P[j], P[cur]);
    }
  }

  // ----- what is printed reads back

  /** Everything the walk holds fast to. */
  ghost predicate Printing(P: seq<Path>, parent: seq<nat>, deeds: seq<Deed>, acts: seq<int>, dirs: seq<bool>, show: seq<bool>, N: seq<nat>) {
    && Carried(P, parent, deeds, acts, dirs) && ShownRight(P, acts, show) && Shown(P, show, N) && Above(P, Vis(show))
    && R.InRange(deeds, EntsOf(P, acts, dirs, N))
    && (W.Canonical(deeds) ==> acts[0] == NONE && W.EntriesFor(deeds, EntsOf(P, acts, dirs, N)))
  }

  ghost predicate OnTop(N: seq<nat>, stack: seq<nat>, p: nat) {
    stack != [] && stack[|stack| - 1] < |N| && N[stack[|stack| - 1]] == p
  }

  /** `zm_emit_line`. */
  function LineAt(P: seq<Path>, deeds: seq<Deed>, acts: seq<int>, dirs: seq<bool>, k: nat): Line
    requires k < |P| == |acts| == |dirs| && acts[k] < |deeds|
  {
    var word := if acts[k] >= 0 then Some(deeds[acts[k]].word) else None;
    if P[k] == [] then Root(word) else Name(P[k][|P[k]| - 1], dirs[k], word)
  }

  lemma PrintLine(P: seq<Path>, parent: seq<nat>, deeds: seq<Deed>, acts: seq<int>, dirs: seq<bool>, show: seq<bool>, N: seq<nat>,
                  i: nat, cur: nat, stack: seq<nat>, body: seq<Line>)
    requires Printing(P, parent, deeds, acts, dirs, show, N) && Here(N, i, cur) && 0 < cur < |P|
    requires W.Canonical(deeds) ==> OnTop(N, stack, parent[cur])
    requires R.ReadsBack(deeds, EntsOf(P, acts, dirs, N), i, stack, body)
    ensures P[cur] != [] && acts[cur] < |deeds|
    ensures var stack' := if dirs[cur] then stack + [i] else stack;
      R.ReadsBack(deeds, EntsOf(P, acts, dirs, N), i + 1, stack', body + [LineAt(P, deeds, acts, dirs, cur)])
  {
    hide R.ReadsBack, W.EntriesFor, W.Canonical, Before, ShownRight, Above;
    assert IsParent(P, parent, cur);
    assert acts[cur] != NONE ==> acts[cur] < |deeds|;
    var E := EntsOf(P, acts, dirs, N);
    RootFirstShown(P, show, N, i);
    if W.Canonical(deeds) { R.LineReads(deeds, E, i, stack, body); } else { Unread(deeds, E, i + 1, stack, body); }
  }

  /** Nothing is promised of a list the format cannot carry. */
  lemma Unread(deeds: seq<Deed>, E: seq<W.Ent>, i: nat, stack: seq<nat>, body: seq<Line>)
    requires !W.Canonical(deeds) && R.InRange(deeds, E)
    ensures forall s: seq<nat>, b: seq<Line> :: R.ReadsBack(deeds, E, i, s, b)
  {
  }

  lemma RootFirstShown(P: seq<Path>, show: seq<bool>, N: seq<nat>, i: nat)
    requires Shown(P, show, N) && i < |N| && N[i] != 0
    ensures i > 0
  {
  }

  function Pop(stack: seq<nat>): seq<nat> { if stack == [] then [] else stack[..|stack| - 1] }

  /** Closing a directory that is done leaves its own directory innermost. */
  lemma CloseLine(P: seq<Path>, parent: seq<nat>, deeds: seq<Deed>, acts: seq<int>, dirs: seq<bool>, show: seq<bool>, N: seq<nat>,
                  i: nat, cur: nat, stack: seq<nat>, body: seq<Line>)
    requires Printing(P, parent, deeds, acts, dirs, show, N) && cur < |P| && Done(P, N, i, cur)
    requires W.Canonical(deeds) ==> OnTop(N, stack, cur)
    requires R.ReadsBack(deeds, EntsOf(P, acts, dirs, N), i, stack, body)
    ensures R.ReadsBack(deeds, EntsOf(P, acts, dirs, N), i, Pop(stack), body + [Close])
    ensures W.Canonical(deeds) ==> if cur == 0 then Pop(stack) == [] else OnTop(N, Pop(stack), parent[cur])
  {
    hide W.EntriesFor, W.Canonical, Before, ShownRight, Above, Under, R.StackRead, R.SeenRight, R.DeedsRight, R.DeedsAll, R.ClosedFor;
    if W.Canonical(deeds) {
      var E := EntsOf(P, acts, dirs, N);
      var st := Read(body).value;
      assert R.AtClose(deeds, E, i, stack, st);
      R.PlainClose(deeds, E, i, stack, st);
      R.ReadOne(body, Close);
      var n := |stack|;
      assert stack[0] == 0;
      if n > 1 {
        assert E[stack[n - 2]].path == Parent(E[stack[n - 1]].path);
        assert cur != 0 && IsParent(P, parent, cur);
      }
    }
  }

  lemma FirstSooner(P: seq<Path>, parent: seq<nat>, first: seq<int>, next: seq<int>, show: seq<bool>, cur: nat)
    requires Parented(P, parent) && Linked(P, parent, Nodes(|P|), first, next) && |show| == |P| && cur < |P|
    ensures |first| == |P| && NoneSooner(P, parent, show, cur, None, first[cur])
  {
    assert FirstKid(P, parent, Nodes(|P|), cur, first[cur]);
  }

  lemma NextSooner(P: seq<Path>, parent: seq<nat>, first: seq<int>, next: seq<int>, show: seq<bool>, cur: nat)
    requires Parented(P, parent) && Linked(P, parent, Nodes(|P|), first, next) && |show| == |P| && 0 < cur < |P|
    ensures |next| == |P| && NoneSooner(P, parent, show, parent[cur], Some(cur), next[cur])
  {
    hide Before;
    assert cur in Nodes(|P|) && NextKid(P, parent, Nodes(|P|), cur, next[cur]);
    forall k: nat | k < |P| && show[k] && Candidate(P, parent, parent[cur], Some(cur), k)
      ensures next[cur] != NONE && 0 <= next[cur] < |P| && AtOrBefore(P[next[cur]], P[k])
    {
      assert k in Nodes(|P|);
      BeforeAsymmetric(P[cur], P[k]);
      BeforeIrreflexive(P[k]);
    }
  }

  /** A node without the slash has no child. */
  lemma NoChildren(P: seq<Path>, parent: seq<nat>, deeds: seq<Deed>, acts: seq<int>, dirs: seq<bool>, show: seq<bool>, cur: nat)
    requires Carried(P, parent, deeds, acts, dirs) && |show| == |P| && cur < |P| && !dirs[cur]
    ensures NoneSooner(P, parent, show, cur, None, NONE)
  {
  }

  lemma Basics(P: seq<Path>, parent: seq<nat>, deeds: seq<Deed>, acts: seq<int>, dirs: seq<bool>, show: seq<bool>, N: seq<nat>)
    requires Printing(P, parent, deeds, acts, dirs, show, N)
    ensures |P| == |parent| == |acts| == |dirs| == |show| && |P| > 0 && dirs[0] && |N| > 0 && N[0] == 0
    ensures Parented(P, parent) && forall b :: 0 <= b < |N| ==> N[b] < |P|
    ensures forall k: nat :: 0 < k < |P| ==> parent[k] < |P| && dirs[parent[k]]
    ensures forall k: nat :: k < |P| ==> acts[k] < |deeds|
  {
    forall k: nat | k < |P| ensures acts[k] < |deeds| { assert acts[k] != NONE ==> acts[k] < |deeds|; }
  }

  lemma RootSilent(P: seq<Path>, parent: seq<nat>, deeds: seq<Deed>, acts: seq<int>, dirs: seq<bool>)
    requires Carried(P, parent, deeds, acts, dirs) && W.Canonical(deeds)
    ensures acts[0] == NONE
  {
    hide W.Canonical;
    if acts[0] != NONE { W.ActionNotRoot(deeds, acts[0]); }
  }

  lemma StartPrinting(P: seq<Path>, parent: seq<nat>, deeds: seq<Deed>, acts: seq<int>, dirs: seq<bool>, show: seq<bool>,
                      order: seq<nat>, ord: seq<nat>)
    requires Carried(P, parent, deeds, acts, dirs) && ShownRight(P, acts, show) && Walked(P, order, ord)
    ensures Printing(P, parent, deeds, acts, dirs, show, ShownOf(order, show, |order|))
  {
    hide W.Canonical, W.EntriesFor, Before;
    assert Tells(P, acts, |P|, 0);
    ShownAll(P, order, ord, show);
    VisAbove(P, acts, show);
    var N := ShownOf(order, show, |order|);
    if W.Canonical(deeds) {
      RootSilent(P, parent, deeds, acts, dirs);
      EntsRight(P, parent, deeds, acts, dirs, show, N);
    }
    assert forall b :: 0 <= b < |N| ==> acts[N[b]] == NONE || acts[N[b]] < |deeds|;
  }

  /** The root's line opens the section. */
  lemma RootLine(P: seq<Path>, parent: seq<nat>, deeds: seq<Deed>, acts: seq<int>, dirs: seq<bool>, show: seq<bool>, N: seq<nat>)
    requires Printing(P, parent, deeds, acts, dirs, show, N)
    ensures R.ReadsBack(deeds, EntsOf(P, acts, dirs, N), 1, [0], [])
  {
    hide R.ReadsBack, W.EntriesFor, W.Canonical, ShownRight, Above;
    R.StartReads(deeds, EntsOf(P, acts, dirs, N));
  }

  lemma RootPasses(P: seq<Path>, k: nat)
    requires NodesValid(P) && k < |P|
    ensures Passed(P, 0, k)
  {
    assert P[k][..0] == [];
  }

  /** Nothing is left to print when the root is done. */
  lemma AllPrinted(P: seq<Path>, parent: seq<nat>, deeds: seq<Deed>, acts: seq<int>, dirs: seq<bool>, show: seq<bool>, N: seq<nat>,
                   i: nat, stack: seq<nat>, body: seq<Line>)
    requires Printing(P, parent, deeds, acts, dirs, show, N) && |P| > 0 && Done(P, N, i, 0) && acts[0] < |deeds|
    requires (W.Canonical(deeds) ==> stack == []) && R.ReadsBack(deeds, EntsOf(P, acts, dirs, N), i, stack, body)
    ensures W.Canonical(deeds) ==> Parse([LineAt(P, deeds, acts, dirs, 0)] + body) == Some(deeds)
  {
    hide R.ReadsBack, W.EntriesFor, W.Canonical, ShownRight, Above;
    Basics(P, parent, deeds, acts, dirs, show, N);
    forall b: nat | b < |N| ensures N[b] < |P| && Passed(P, 0, N[b]) { RootPasses(P, N[b]); }
    assert |N| > 0 && Passed(P, 0, N[|N| - 1]);
    if W.Canonical(deeds) { R.AllRead(deeds, EntsOf(P, acts, dirs, N), body); }
  }

  /** What holds of the walk before a step: it is to print cur, or has printed all of it but its close. */
  ghost predicate Walking(P: seq<Path>, parent: seq<nat>, deeds: seq<Deed>, acts: seq<int>, dirs: seq<bool>, N: seq<nat>,
                          i: nat, cur: nat, stack: seq<nat>, body: seq<Line>, down: bool)
    requires |P| == |parent| == |acts| == |dirs| && (forall b :: 0 <= b < |N| ==> N[b] < |P|)
    requires R.InRange(deeds, EntsOf(P, acts, dirs, N))
  {
    && cur < |P| && R.ReadsBack(deeds, EntsOf(P, acts, dirs, N), i, stack, body)
    && (if down then 0 < cur && Here(N, i, cur) else Done(P, N, i, cur) && (cur == 0 ==> dirs[0]))
    && (W.Canonical(deeds) ==> OnTop(N, stack, if down || !dirs[cur] then parent[cur] else cur))
  }

  lemma Ranges(P: seq<Path>, parent: seq<nat>, deeds: seq<Deed>, acts: seq<int>, dirs: seq<bool>, show: seq<bool>, N: seq<nat>)
    requires Printing(P, parent, deeds, acts, dirs, show, N)
    ensures |P| == |parent| == |acts| == |dirs| && (forall b :: 0 <= b < |N| ==> N[b] < |P|)
    ensures R.InRange(deeds, EntsOf(P, acts, dirs, N))
  {
  }

  /** A line printed, and then the first shown child, if there is one. */
  lemma GoesIn(P: seq<Path>, parent: seq<nat>, deeds: seq<Deed>, acts: seq<int>, dirs: seq<bool>, show: seq<bool>, N: seq<nat>,
               i: nat, cur: nat, stack: seq<nat>, body: seq<Line>, f: int)
    requires Printing(P, parent, deeds, acts, dirs, show, N) && cur < |P| == |parent| == |dirs| == |show| == |acts| && Here(N, i, cur)
    requires (forall b :: 0 <= b < |N| ==> N[b] < |P|) && R.InRange(deeds, EntsOf(P, acts, dirs, N))
    requires NoneSooner(P, parent, show, cur, None, f) && (f != NONE ==> 0 < f < |P| && show[f] && dirs[cur])
    requires R.ReadsBack(deeds, EntsOf(P, acts, dirs, N), i + 1, stack, body)
    requires (cur == 0 ==> dirs[0]) && (W.Canonical(deeds) ==> OnTop(N, stack, if dirs[cur] then cur else parent[cur]))
    ensures f != NONE ==> Walking(P, parent, deeds, acts, dirs, N, i + 1, f, stack, body, true)
    ensures f == NONE ==> Walking(P, parent, deeds, acts, dirs, N, i + 1, cur, stack, body, false)
  {
    hide R.ReadsBack, W.EntriesFor, W.Canonical, NoneSooner, Here, Done, R.InRange, NodesValid;
    WalkIn(P, parent, show, N, i, cur, f);
  }

  /** A node closed, and then its next shown sibling, or its directory to be closed. */
  lemma GoesOn(P: seq<Path>, parent: seq<nat>, deeds: seq<Deed>, acts: seq<int>, dirs: seq<bool>, show: seq<bool>, N: seq<nat>,
               i: nat, cur: nat, stack: seq<nat>, body: seq<Line>, s: int)
    requires Printing(P, parent, deeds, acts, dirs, show, N) && 0 < cur < |P| == |parent| == |dirs| == |show| == |acts|
    requires (forall b :: 0 <= b < |N| ==> N[b] < |P|) && R.InRange(deeds, EntsOf(P, acts, dirs, N))
    requires Done(P, N, i, cur) && (W.Canonical(deeds) ==> OnTop(N, stack, parent[cur]))
    requires NoneSooner(P, parent, show, parent[cur], Some(cur), s) && (s != NONE ==> 0 < s < |P| && show[s])
    requires R.ReadsBack(deeds, EntsOf(P, acts, dirs, N), i, stack, body)
    ensures s != NONE ==> Walking(P, parent, deeds, acts, dirs, N, i, s, stack, body, true)
    ensures s == NONE ==> parent[cur] < |P| && |P[parent[cur]]| < |P[cur]| && Walking(P, parent, deeds, acts, dirs, N, i, parent[cur], stack, body, false)
  {
    hide R.ReadsBack, W.EntriesFor, W.Canonical, NoneSooner, Here, Done, R.InRange, NodesValid;
    WalkOn(P, parent, show, N, i, cur, s);
  }

  /** `zm_emit_tree`: what is printed of a list the format can carry parses to the list. */
  method EmitTree(P: seq<Path>, parent: seq<nat>, first: array<int>, next: array<int>, show: array<bool>, deeds: seq<Deed>,
                  acts: seq<int>, dirs: seq<bool>, ghost order: seq<nat>, ghost ord: seq<nat>) returns (lines: seq<Line>)
    requires Carried(P, parent, deeds, acts, dirs) && first.Length == next.Length == show.Length == |P|
    requires Linked(P, parent, Nodes(|P|), first[..], next[..]) && Walked(P, order, ord) && ShownRight(P, acts, show[..])
    ensures W.Canonical(deeds) ==> Parse(lines) == Some(deeds)
  {
    hide Carried, W.Canonical, Linked, Walked, ShownRight, Printing, Done, NoneSooner, R.ReadsBack, Shown, R.InRange, Parse,
      NodesValid, Pop, LineAt, EntsOf, ShownOf, Walking, Parented;
    ghost var vis := show[..];
    WalkedNodes(P, order, ord);
    ghost var N := ShownOf(order, vis, |order|);
    StartPrinting(P, parent, deeds, acts, dirs, vis, order, ord);
    Basics(P, parent, deeds, acts, dirs, vis, N);
    Ranges(P, parent, deeds, acts, dirs, vis, N);
    ghost var i: nat, stack: seq<nat>, body: seq<Line> := 0, [], [];
    lines := [];
    var cur: nat, down := 0, true;
    while true
      invariant cur < |P| && show[..] == vis && i <= |N|
      invariant if cur == 0 && down then i == 0 && lines == []
                else lines == [LineAt(P, deeds, acts, dirs, 0)] + body && Walking(P, parent, deeds, acts, dirs, N, i, cur, stack, body, down)
      decreases |N| - i, if down then 0 else 1 + |P[cur]|
    {
      if down {
        var f := NONE;
        ghost var was := i;
        lines := lines + [LineAt(P, deeds, acts, dirs, cur)];
        if cur == 0 {
          RootLine(P, parent, deeds, acts, dirs, vis, N);
          i, stack, body := 1, [0], [];
        } else {
          Unwalk(P, parent, deeds, acts, dirs, N, i, cur, stack, body);
          PrintLine(P, parent, deeds, acts, dirs, vis, N, i, cur, stack, body);
          body := body + [LineAt(P, deeds, acts, dirs, cur)];
          stack := if dirs[cur] then stack + [i] else stack;
          i := i + 1;
        }
        if dirs[cur] {
          FirstSooner(P, parent, first[..], next[..], vis, cur);
          f := NextShown(P, parent, next, show, first[..], order, ord, cur, None, first[cur]);
        } else {
          NoChildren(P, parent, deeds, acts, dirs, vis, cur);
        }
        GoesIn(P, parent, deeds, acts, dirs, vis, N, was, cur, stack, body, f);
        if f != NONE {
          cur := f;
          continue;
        }
      }
      Undone(P, parent, deeds, acts, dirs, N, i, cur, stack, body);
      if dirs[cur] {
        CloseLine(P, parent, deeds, acts, dirs, vis, N, i, cur, stack, body);
        lines := lines + [Close];
        body := body + [Close];
        stack := Pop(stack);
      }
      if cur == 0 {
        AllPrinted(P, parent, deeds, acts, dirs, vis, N, i, stack, body);
        assert lines == [LineAt(P, deeds, acts, dirs, 0)] + body;
        return;
      }
      NextSooner(P, parent, first[..], next[..], vis, cur);
      var s := NextShown(P, parent, next, show, first[..], order, ord, parent[cur], Some(cur), next[cur]);
      GoesOn(P, parent, deeds, acts, dirs, vis, N, i, cur, stack, body, s);
      if s != NONE {
        cur, down := s, true;
      } else {
        cur, down := parent[cur], false;
      }
    }
  }

  lemma Unwalk(P: seq<Path>, parent: seq<nat>, deeds: seq<Deed>, acts: seq<int>, dirs: seq<bool>, N: seq<nat>,
               i: nat, cur: nat, stack: seq<nat>, body: seq<Line>)
    requires |P| == |parent| == |acts| == |dirs| && (forall b :: 0 <= b < |N| ==> N[b] < |P|) && R.InRange(deeds, EntsOf(P, acts, dirs, N))
    requires Walking(P, parent, deeds, acts, dirs, N, i, cur, stack, body, true)
    ensures 0 < cur < |P| && Here(N, i, cur) && i < |N| && (W.Canonical(deeds) ==> OnTop(N, stack, parent[cur]))
    ensures R.ReadsBack(deeds, EntsOf(P, acts, dirs, N), i, stack, body)
  {
  }

  lemma Undone(P: seq<Path>, parent: seq<nat>, deeds: seq<Deed>, acts: seq<int>, dirs: seq<bool>, N: seq<nat>,
               i: nat, cur: nat, stack: seq<nat>, body: seq<Line>)
    requires |P| == |parent| == |acts| == |dirs| && (forall b :: 0 <= b < |N| ==> N[b] < |P|) && R.InRange(deeds, EntsOf(P, acts, dirs, N))
    requires Walking(P, parent, deeds, acts, dirs, N, i, cur, stack, body, false)
    ensures cur < |P| && i <= |N| && Done(P, N, i, cur) && R.ReadsBack(deeds, EntsOf(P, acts, dirs, N), i, stack, body)
    ensures (cur == 0 ==> dirs[0]) && (W.Canonical(deeds) ==> OnTop(N, stack, if dirs[cur] then cur else parent[cur]))
  {
  }
}
