/** `zr_parsed_write` of src/manifest.c: from a flat list of actions to the scoped tree section, and
    the proof that the parser undoes it. */
module Writer {
  import opened Trees
  import opened Paths
  import opened Sorting
  import opened Document

  const NONE := -1

  // ----- the lists the format can carry

  predicate Removes(a: Deed) { a.dir && a.word == Rm }

  /** b's line comes after a's: later in manifest order; or b takes the name of a removed directory
      once all under it is done. */
  predicate Turn(a: Deed, b: Deed) {
    || (Before(a.path, b.path) && (Under(a.path, b.path) ==> a.dir))
    || (Under(b.path, a.path) && !b.dir)
    || (a.path == b.path && Removes(a) && Creates(b.dir, Some(b.word)))
  }

  predicate DeedOk(a: Deed) {
    && ArgOk(a.path) && WordOk(a.word)
    && (a.word.Ln? ==> Compare(Text(a.word.arg), Text(a.path)) < 0)
  }

  /** Actions in manifest order, one to a name but for a removal and the creation that takes its
      name, with a directory's slash on every path that has others under it. */
  ghost predicate Canonical(deeds: seq<Deed>) {
    && (forall i :: 0 <= i < |deeds| ==> DeedOk(deeds[i]))
    && (forall i, j :: 0 <= i < j < |deeds| ==> Turn(deeds[i], deeds[j]))
    && (forall i, j :: 0 <= i < j < |deeds| && Under(deeds[j].path, deeds[i].path) ==> HasRemoval(deeds, deeds[j].path))
  }

  ghost predicate HasRemoval(deeds: seq<Deed>, path: Path) {
    exists k :: 0 <= k < |deeds| && Removes(deeds[k]) && deeds[k].path == path
  }

  lemma TurnAsymmetric(a: Deed, b: Deed)
    requires Turn(a, b)
    ensures !Turn(b, a)
  {
    BeforeIrreflexive(a.path);
    if Before(a.path, b.path) { BeforeAsymmetric(a.path, b.path); }
    if Under(b.path, a.path) { UnderIsAfter(b.path, a.path); BeforeAsymmetric(b.path, a.path); }
    if Under(a.path, b.path) { UnderIsAfter(a.path, b.path); }
  }

  /** A list in turn is fixed by its elements. */
  lemma {:induction false} TurnFixes(s: seq<Deed>, t: seq<Deed>)
    requires forall i, j :: 0 <= i < j < |s| ==> Turn(s[i], s[j])
    requires forall i, j :: 0 <= i < j < |t| ==> Turn(t[i], t[j])
    requires forall a :: a in s <==> a in t
    ensures s == t
  {
    hide Turn;
    HeadIn(s);
    HeadIn(t);
    if s != [] {
      assert s[0] in t;
      assert t[0] in s;
      FirstsAgree(s, t);
      TailElements(s);
      TailElements(t);
      TurnFixes(s[1..], t[1..]);
      assert s == [s[0]] + s[1..] && t == [t[0]] + t[1..];
    }
  }

  lemma HeadIn(s: seq<Deed>)
    ensures s != [] ==> s[0] in s
  {
  }

  lemma FirstsAgree(s: seq<Deed>, t: seq<Deed>)
    requires forall i, j :: 0 <= i < j < |s| ==> Turn(s[i], s[j])
    requires forall i, j :: 0 <= i < j < |t| ==> Turn(t[i], t[j])
    requires s != [] && t != [] && s[0] in t && t[0] in s
    ensures s[0] == t[0]
  {
    hide Turn;
    var k :| 0 <= k < |t| && t[k] == s[0];
    var l :| 0 <= l < |s| && s[l] == t[0];
    if k > 0 && l > 0 { TurnAsymmetric(s[0], s[l]); }
  }

  lemma TailElements(s: seq<Deed>)
    requires s != [] && forall i, j :: 0 <= i < j < |s| ==> Turn(s[i], s[j])
    ensures forall a :: a in s[1..] <==> a in s && a != s[0]
  {
    hide Turn;
    forall a ensures a in s[1..] <==> a in s && a != s[0] {
      if a in s[1..] {
        var i :| 0 <= i < |s| - 1 && s[1..][i] == a;
        assert s[i + 1] == a;
        TurnAsymmetric(s[0], s[i + 1]);
      }
      if a in s && a != s[0] {
        var i :| 0 <= i < |s| && s[i] == a;
        assert s[1..][i - 1] == a;
      }
    }
  }

  // ----- the entries

  /** `struct zw_ent`: a path with a line, the action on it or NONE, its slash, and whether it is the
      second line of its name. */
  datatype Ent = Ent(path: Path, act: int, dir: bool, dup: bool)

  function EntOf(deeds: seq<Deed>, i: nat): Ent
    requires i < |deeds|
  {
    Ent(deeds[i].path, i, deeds[i].dir, false)
  }

  /** What `zw_entries` gathers: the root, every action, and every directory on the way to one. */
  ghost predicate Needed(deeds: seq<Deed>, x: Ent) {
    || x == Ent([], NONE, true, false)
    || (exists i: nat :: i < |deeds| && x == EntOf(deeds, i))
    || (exists i: nat :: i < |deeds| && OnTheWay(deeds[i].path, x))
  }

  predicate OnTheWay(path: Path, x: Ent) {
    0 < |x.path| && Under(x.path, path) && x == Ent(x.path, NONE, true, false)
  }

  method Gather(deeds: seq<Deed>) returns (e: seq<Ent>)
    ensures forall x :: x in e <==> Needed(deeds, x)
  {
    e := [Ent([], NONE, true, false)];
    for i: nat := 0 to |deeds|
      invariant forall x :: x in e <==> Needed(deeds[..i], x)
    {
      var path := deeds[i].path;
      ghost var before := e;
      var j: nat := 1;
      while j < |path|
        invariant 1 <= j && (j <= |path| || path == [])
        invariant forall x :: x in e <==> x in before || (OnTheWay(path, x) && |x.path| < j)
      {
        NextOnTheWay(path, j);
        e := e + [Ent(path[..j], NONE, true, false)];
        j := j + 1;
      }
      e := e + [EntOf(deeds, i)];
      NeedOne(deeds, i, before, e);
    }
    assert deeds[..|deeds|] == deeds;
  }

  lemma NextOnTheWay(path: Path, j: nat)
    requires 0 < j < |path|
    ensures forall x: Ent :: OnTheWay(path, x) && |x.path| < j + 1 <==>
      (OnTheWay(path, x) && |x.path| < j) || x == Ent(path[..j], NONE, true, false)
  {
  }

  lemma NeedOne(deeds: seq<Deed>, i: nat, before: seq<Ent>, e: seq<Ent>)
    requires i < |deeds| && forall x :: x in before <==> Needed(deeds[..i], x)
    requires forall x :: x in e <==> x in before || OnTheWay(deeds[i].path, x) || x == EntOf(deeds, i)
    ensures forall x :: x in e <==> Needed(deeds[..i + 1], x)
  {
    var was, now := deeds[..i], deeds[..i + 1];
    forall x ensures x in e <==> Needed(now, x) {
      if x in e {
        if x in before {
          if k: nat :| k < |was| && x == EntOf(was, k) { assert x == EntOf(now, k); }
          if k: nat :| k < |was| && OnTheWay(was[k].path, x) { assert OnTheWay(now[k].path, x); }
        } else if x == EntOf(deeds, i) {
          assert x == EntOf(now, i);
        } else {
          assert OnTheWay(now[i].path, x);
        }
      }
      if Needed(now, x) && x != Ent([], NONE, true, false) {
        if k: nat :| k < |now| && x == EntOf(now, k) {
          if k < i { assert x == EntOf(was, k) && x in before; }
        } else {
          var k: nat :| k < |now| && OnTheWay(now[k].path, x);
          if k < i { assert OnTheWay(was[k].path, x) && x in before; }
        }
      }
    }
  }

  /** `zw_cmp`. */
  predicate EntLe(x: Ent, y: Ent) { Before(x.path, y.path) || (x.path == y.path && (x.dir || !y.dir)) }

  lemma EntOrder()
    ensures TotalOrder(EntLe)
  {
    forall x: Ent, y: Ent ensures EntLe(x, y) || EntLe(y, x) { BeforeTotal(x.path, y.path); }
    forall x: Ent, y: Ent, z: Ent | EntLe(x, y) && EntLe(y, z) ensures EntLe(x, z) {
      if Before(x.path, y.path) && Before(y.path, z.path) { BeforeTransitive(x.path, y.path, z.path); }
    }
  }

  /** `zw_pair`. */
  predicate Pair(deeds: seq<Deed>, d: Ent, e: Ent)
    requires d.act < |deeds| && e.act < |deeds|
  {
    d.dir && 0 <= d.act && !e.dir && 0 <= e.act && deeds[d.act].word == Rm && Creates(false, Some(deeds[e.act].word))
  }

  // ----- one line to a path

  /** What `zw_dedupe` leaves of the entries so far: paths ascending, and twice only for a pair. */
  ghost predicate Ascends(out: seq<Ent>) {
    forall a, b :: 0 <= a < b < |out| ==> Before(out[a].path, out[b].path) || (b == a + 1 && out[b].dup && out[a].path == out[b].path)
  }

  ghost predicate EntRight(deeds: seq<Deed>, o: Ent) {
    if o.act == NONE then o.dir && !o.dup
    else 0 <= o.act < |deeds| && deeds[o.act].path == o.path && deeds[o.act].dir == o.dir
  }

  ghost predicate PairRight(deeds: seq<Deed>, out: seq<Ent>, b: nat)
    requires b < |out|
  {
    && b > 0 && out[b - 1].path == out[b].path && !out[b - 1].dup
    && out[b - 1].act < |deeds| && out[b].act < |deeds| && Pair(deeds, out[b - 1], out[b])
  }

  ghost predicate EntsRight(deeds: seq<Deed>, out: seq<Ent>) {
    && Ascends(out)
    && (forall b :: 0 <= b < |out| ==> EntRight(deeds, out[b]))
    && (forall b: nat :: b < |out| && out[b].dup ==> PairRight(deeds, out, b))
  }

  /** o stands for x. */
  predicate Stands(o: Ent, x: Ent) {
    o.path == x.path && (x.dir ==> o.dir) && (x.act != NONE ==> o.act == x.act)
  }

  ghost predicate StoodFor(out: seq<Ent>, x: Ent) { exists b :: 0 <= b < |out| && Stands(out[b], x) }

  ghost predicate PathFrom(s: seq<Ent>, path: Path) { exists x :: x in s && x.path == path }

  /** Every entry so far has its stand-in, and every stand-in's path comes from one. */
  ghost predicate Covers(out: seq<Ent>, s: seq<Ent>) {
    && (forall x :: x in s ==> StoodFor(out, x))
    && (forall b :: 0 <= b < |out| ==> PathFrom(s, out[b].path))
  }

  ghost predicate LastRight(out: seq<Ent>, s: seq<Ent>) {
    out != [] && s != [] && out[|out| - 1].path == s[|s| - 1].path && out[|out| - 1].dir == s[|s| - 1].dir
  }

  /** What is known of the sorted entries. */
  ghost predicate Sorted(deeds: seq<Deed>, s: seq<Ent>) {
    Canonical(deeds) && SortedBy(EntLe, s) && (forall x :: x in s <==> Needed(deeds, x)) && s != []
  }

  /** Two actions of one name are its removal and its creation. */
  lemma SamePath(deeds: seq<Deed>, i: nat, j: nat)
    requires Canonical(deeds) && i < |deeds| && j < |deeds| && deeds[i].path == deeds[j].path
    ensures i == j || (Removes(deeds[i]) && Creates(deeds[j].dir, Some(deeds[j].word))) ||
      (Removes(deeds[j]) && Creates(deeds[i].dir, Some(deeds[i].word)))
  {
    hide DeedOk, HasRemoval;
    BeforeIrreflexive(deeds[i].path);
    if i < j { assert Turn(deeds[i], deeds[j]); }
    if j < i { assert Turn(deeds[j], deeds[i]); }
  }

  /** A leaf action whose name has others under it takes the name of a removed directory. */
  lemma LeafOverOthers(deeds: seq<Deed>, i: nat, j: nat)
    requires Canonical(deeds) && i < |deeds| && j < |deeds| && Under(deeds[i].path, deeds[j].path) && !deeds[i].dir
    ensures HasRemoval(deeds, deeds[i].path)
  {
    hide DeedOk, HasRemoval;
    UnderIsAfter(deeds[i].path, deeds[j].path);
    BeforeAsymmetric(deeds[i].path, deeds[j].path);
    assert i < j ==> Turn(deeds[i], deeds[j]);
  }

  lemma EntFromDeed(deeds: seq<Deed>, x: Ent)
    requires Needed(deeds, x)
    ensures !x.dup && (x.act == NONE ==> x.dir)
    ensures x.act != NONE ==> 0 <= x.act < |deeds| && x == EntOf(deeds, x.act)
    ensures x.act == NONE ==> x.path == [] || exists j: nat :: j < |deeds| && Under(x.path, deeds[j].path)
  {
    if j: nat :| j < |deeds| && OnTheWay(deeds[j].path, x) { assert Under(x.path, deeds[j].path); }
  }

  /** A directory entry met by a leaf of its path stands for the removal the leaf pairs with. */
  lemma LeafMeetsDirectory(deeds: seq<Deed>, s: seq<Ent>, i: nat) returns (r: nat)
    requires Sorted(deeds, s) && 0 < i < |s| && !s[i].dir && s[i - 1].dir && s[i - 1].path == s[i].path
    ensures r < |deeds| && Removes(deeds[r]) && deeds[r].path == s[i].path && EntOf(deeds, r) in s[..i]
    ensures 0 <= s[i].act < |deeds| && Creates(false, Some(deeds[s[i].act].word))
  {
    hide Canonical, SortedBy, Needed, HasRemoval, Creates, EntLe, Turn, Removes;
    var x, y := s[i], s[i - 1];
    assert x in s && y in s;
    EntFromDeed(deeds, x);
    EntFromDeed(deeds, y);
    RemovalThere(deeds, x, y);
    r := RemovalIndex(deeds, x.path);
    SamePath(deeds, x.act, r);
    DirIsLeafFree(deeds, r, x.act);
    RemovalNeeded(deeds, r);
    EarlierThanLeaf(s, EntOf(deeds, r), i);
  }

  lemma DirIsLeafFree(deeds: seq<Deed>, r: nat, b: nat)
    requires r < |deeds| && b < |deeds| && Removes(deeds[r]) && !deeds[b].dir
    requires r == b || (Removes(deeds[b]) && Creates(deeds[r].dir, Some(deeds[r].word))) ||
      (Removes(deeds[r]) && Creates(deeds[b].dir, Some(deeds[b].word)))
    ensures Creates(false, Some(deeds[b].word))
  {
  }

  lemma RemovalNeeded(deeds: seq<Deed>, r: nat)
    requires r < |deeds| && Removes(deeds[r])
    ensures Needed(deeds, EntOf(deeds, r)) && EntOf(deeds, r).dir
  {
  }

  lemma RemovalIndex(deeds: seq<Deed>, path: Path) returns (r: nat)
    requires HasRemoval(deeds, path)
    ensures r < |deeds| && Removes(deeds[r]) && deeds[r].path == path
  {
    r :| 0 <= r < |deeds| && Removes(deeds[r]) && deeds[r].path == path;
  }

  lemma RemovalThere(deeds: seq<Deed>, x: Ent, y: Ent)
    requires Canonical(deeds) && 0 <= x.act < |deeds| && x == EntOf(deeds, x.act) && !x.dir && y.dir && y.path == x.path
    requires y.act == NONE ==> y.path == [] || exists j: nat :: j < |deeds| && Under(y.path, deeds[j].path)
    requires y.act != NONE ==> 0 <= y.act < |deeds| && y == EntOf(deeds, y.act)
    ensures HasRemoval(deeds, x.path)
  {
    hide HasRemoval, Turn;
    assert DeedOk(deeds[x.act]);
    if y.act == NONE {
      var j: nat :| j < |deeds| && Under(y.path, deeds[j].path);
      LeafOverOthers(deeds, x.act, j);
    } else {
      SamePath(deeds, x.act, y.act);
      RemovalHere(deeds, y.act);
    }
  }

  lemma RemovalHere(deeds: seq<Deed>, r: nat)
    requires r < |deeds|
    ensures Removes(deeds[r]) ==> HasRemoval(deeds, deeds[r].path)
  {
  }

  /** Directories sort before the leaf of their path. */
  lemma EarlierThanLeaf(s: seq<Ent>, d: Ent, i: nat)
    requires SortedBy(EntLe, s) && i < |s| && d in s && d.dir && !s[i].dir && d.path == s[i].path
    ensures d in s[..i]
  {
    var k :| 0 <= k < |s| && s[k] == d;
    BeforeIrreflexive(d.path);
    assert k > i ==> EntLe(s[i], s[k]);
    assert s[..i][k] == d;
  }

  /** The fold of one more entry. */
  function Fold(deeds: seq<Deed>, out: seq<Ent>, x: Ent): seq<Ent>
    requires forall b :: 0 <= b < |out| ==> out[b].act < |deeds|
    requires x.act < |deeds|
  {
    if out == [] then [x.(dup := false)] else
    var k := |out| - 1;
    if out[k].path == x.path && !Pair(deeds, out[k], x) then
      out[k := out[k].(dir := out[k].dir || x.dir, act := if x.act != NONE then x.act else out[k].act)]
    else out + [x.(dup := out[k].path == x.path)]
  }

  ghost predicate Folded(deeds: seq<Deed>, out: seq<Ent>, s: seq<Ent>) {
    EntsRight(deeds, out) && Covers(out, s) && LastRight(out, s)
  }

  lemma FoldNew(deeds: seq<Deed>, s: seq<Ent>, i: nat, out: seq<Ent>)
    requires Sorted(deeds, s) && 0 < i < |s| && Folded(deeds, out, s[..i]) && out[|out| - 1].path != s[i].path
    ensures Folded(deeds, out + [s[i].(dup := false)], s[..i + 1])
  {
    hide Canonical, Needed, StoodFor, PathFrom;
    var x := s[i];
    var out' := out + [x.(dup := false)];
    assert x in s && s[..i][i - 1] == s[i - 1];
    EntFromDeed(deeds, x);
    assert EntLe(s[i - 1], s[i]);
    AscendOne(out, out'[|out|]);
    CoverOne(out, s, i, out'[|out|]);
    EntsGrow(deeds, out, out'[|out|]);
  }

  lemma AscendOne(out: seq<Ent>, o: Ent)
    requires Ascends(out) && out != [] && (Before(out[|out| - 1].path, o.path) || (o.dup && out[|out| - 1].path == o.path && !out[|out| - 1].dup))
    ensures Ascends(out + [o])
  {
    var k := |out| - 1;
    forall a | 0 <= a < |out| ensures Before(out[a].path, o.path) || (a == k && o.dup && out[a].path == o.path) {
      if a < k {
        assert Before(out[a].path, out[k].path) || (k == a + 1 && out[k].dup && out[a].path == out[k].path);
        if Before(out[k].path, o.path) && Before(out[a].path, out[k].path) { BeforeTransitive(out[a].path, out[k].path, o.path); }
      }
    }
  }

  lemma StoodForStill(out: seq<Ent>, out': seq<Ent>, x: Ent)
    requires StoodFor(out, x) && |out| <= |out'| && forall b :: 0 <= b < |out| && Stands(out[b], x) ==> Stands(out'[b], x)
    ensures StoodFor(out', x)
  {
    var b :| 0 <= b < |out| && Stands(out[b], x);
    assert Stands(out'[b], x);
  }

  lemma PathFromStill(s: seq<Ent>, i: nat, path: Path)
    requires i < |s|
    ensures PathFrom(s[..i], path) || path == s[i].path ==> PathFrom(s[..i + 1], path)
  {
    assert s[..i + 1] == s[..i] + [s[i]];
    assert s[i] in s[..i + 1];
    assert forall x :: x in s[..i] ==> x in s[..i + 1];
  }

  lemma CoverOne(out: seq<Ent>, s: seq<Ent>, i: nat, o: Ent)
    requires i < |s| && Covers(out, s[..i]) && Stands(o, s[i])
    ensures Covers(out + [o], s[..i + 1])
  {
    hide StoodFor, PathFrom, Stands;
    var out' := out + [o];
    assert s[..i + 1] == s[..i] + [s[i]];
    forall x: Ent {:trigger StoodFor(out', x)} | x in s[..i + 1] ensures StoodFor(out', x) {
      if x in s[..i] { StoodForStill(out, out', x); } else { StoodAt(out', |out|, x); }
    }
    forall b | 0 <= b < |out'| ensures PathFrom(s[..i + 1], out'[b].path) {
      StandsPath(o, s[i]);
      PathFromStill(s, i, out'[b].path);
    }
  }

  lemma StoodAt(out: seq<Ent>, b: nat, x: Ent)
    requires b < |out| && Stands(out[b], x)
    ensures StoodFor(out, x)
  {
  }

  lemma StandsPath(o: Ent, x: Ent)
    requires Stands(o, x)
    ensures o.path == x.path
  {
  }

  lemma EntsGrow(deeds: seq<Deed>, out: seq<Ent>, o: Ent)
    requires EntsRight(deeds, out) && Ascends(out + [o]) && EntRight(deeds, o) && (o.dup ==> PairRight(deeds, out + [o], |out|))
    ensures EntsRight(deeds, out + [o])
  {
    hide Ascends;
    var out' := out + [o];
    forall b: nat | b < |out'| && out'[b].dup ensures PairRight(deeds, out', b) {
      if b < |out| { assert PairRight(deeds, out, b); }
    }
  }

  lemma FoldPair(deeds: seq<Deed>, s: seq<Ent>, i: nat, out: seq<Ent>)
    requires Sorted(deeds, s) && 0 < i < |s| && Folded(deeds, out, s[..i]) && out[|out| - 1].path == s[i].path
    requires out[|out| - 1].act < |deeds| && s[i].act < |deeds| && Pair(deeds, out[|out| - 1], s[i])
    ensures Folded(deeds, out + [s[i].(dup := true)], s[..i + 1])
  {
    hide Canonical, Needed, StoodFor, PathFrom;
    var x := s[i];
    var o := x.(dup := true);
    var k := |out| - 1;
    assert x in s;
    EntFromDeed(deeds, x);
    DirNotDup(deeds, out, k);
    AscendOne(out, o);
    CoverOne(out, s, i, o);
    EntsGrow(deeds, out, o);
  }

  /** Two entries of one path: nothing is lost by folding the later into the earlier. */
  lemma FoldSame(deeds: seq<Deed>, s: seq<Ent>, i: nat, out: seq<Ent>)
    requires Sorted(deeds, s) && 0 < i < |s| && Folded(deeds, out, s[..i]) && out[|out| - 1].path == s[i].path
    requires out[|out| - 1].act < |deeds| && s[i].act < |deeds| && !Pair(deeds, out[|out| - 1], s[i])
    ensures s[i].dir == out[|out| - 1].dir
    ensures s[i].act != NONE && out[|out| - 1].act != NONE ==> s[i].act == out[|out| - 1].act
  {
    hide Canonical, Needed, Turn, Covers;
    var x, k := s[i], |out| - 1;
    assert x in s && s[i - 1] in s && s[..i][i - 1] == s[i - 1];
    EntFromDeed(deeds, x);
    BeforeIrreflexive(x.path);
    assert EntLe(s[i - 1], s[i]);
    if !x.dir && s[i - 1].dir { LeafPairs(deeds, s, i, out); }
    assert EntRight(deeds, out[k]);
    if x.act != NONE && out[k].act != NONE { SamePath(deeds, x.act, out[k].act); }
  }

  /** A leaf that meets a directory entry pairs with it. */
  lemma LeafPairs(deeds: seq<Deed>, s: seq<Ent>, i: nat, out: seq<Ent>)
    requires Sorted(deeds, s) && 0 < i < |s| && Folded(deeds, out, s[..i]) && out[|out| - 1].path == s[i].path
    requires !s[i].dir && s[i - 1].dir && s[i - 1].path == s[i].path
    requires out[|out| - 1].act < |deeds| && s[i].act < |deeds|
    ensures Pair(deeds, out[|out| - 1], s[i])
  {
    hide Canonical, Needed, Turn, Sorted, StoodFor, PathFrom;
    var k := |out| - 1;
    var r := LeafMeetsDirectory(deeds, s, i);
    var b := StandIn(out, EntOf(deeds, r));
    assert s[..i][i - 1] == s[i - 1];
    DirNotDup(deeds, out, k);
    LastOfPath(out, b);
  }

  lemma DirNotDup(deeds: seq<Deed>, out: seq<Ent>, k: nat)
    requires EntsRight(deeds, out) && k < |out|
    ensures out[k].dir ==> !out[k].dup
  {
    if out[k].dup { assert PairRight(deeds, out, k); }
  }

  lemma LastOfPath(out: seq<Ent>, b: nat)
    requires Ascends(out) && b < |out| && out[b].path == out[|out| - 1].path && !out[|out| - 1].dup
    ensures b == |out| - 1
  {
    BeforeIrreflexive(out[b].path);
    var k: nat := |out| - 1;
    if b < k { AscendsAt(out, b, k); }
  }

  lemma AscendsAt(out: seq<Ent>, a: nat, b: nat)
    requires Ascends(out) && a < b < |out|
    ensures Before(out[a].path, out[b].path) || (b == a + 1 && out[b].dup && out[a].path == out[b].path)
  {
  }

  lemma StandIn(out: seq<Ent>, x: Ent) returns (b: nat)
    requires StoodFor(out, x)
    ensures b < |out| && Stands(out[b], x)
  {
    b :| 0 <= b < |out| && Stands(out[b], x);
  }

  lemma FoldInto(deeds: seq<Deed>, s: seq<Ent>, i: nat, out: seq<Ent>)
    requires Sorted(deeds, s) && 0 < i < |s| && Folded(deeds, out, s[..i]) && out[|out| - 1].path == s[i].path
    requires out[|out| - 1].act < |deeds| && s[i].act < |deeds| && !Pair(deeds, out[|out| - 1], s[i])
    ensures var k := |out| - 1;
      Folded(deeds, out[k := out[k].(dir := out[k].dir || s[i].dir, act := if s[i].act != NONE then s[i].act else out[k].act)], s[..i + 1])
  {
    hide Canonical, Needed, SortedBy, StoodFor, PathFrom;
    FoldSame(deeds, s, i, out);
    var x, k := s[i], |out| - 1;
    var o := out[k].(dir := out[k].dir || x.dir, act := if x.act != NONE then x.act else out[k].act);
    var out' := out[k := o];
    assert x in s;
    EntFromDeed(deeds, x);
    assert EntRight(deeds, out[k]);
    assert Ascends(out');
    forall b: nat | b < |out'| && out'[b].dup ensures PairRight(deeds, out', b) { assert PairRight(deeds, out, b); }
    CoverInto(out, s, i, o);
  }

  lemma CoverInto(out: seq<Ent>, s: seq<Ent>, i: nat, o: Ent)
    requires i < |s| && out != [] && Covers(out, s[..i]) && Stands(o, s[i])
    requires forall x :: Stands(out[|out| - 1], x) ==> Stands(o, x)
    requires o.path == out[|out| - 1].path
    ensures Covers(out[|out| - 1 := o], s[..i + 1])
  {
    hide StoodFor, PathFrom, Stands;
    var out' := out[|out| - 1 := o];
    assert s[..i + 1] == s[..i] + [s[i]];
    forall x: Ent {:trigger StoodFor(out', x)} | x in s[..i + 1] ensures StoodFor(out', x) {
      if x in s[..i] { StoodForStill(out, out', x); } else { StoodAt(out', |out| - 1, x); }
    }
    forall b | 0 <= b < |out'| ensures PathFrom(s[..i + 1], out'[b].path) { PathFromStill(s, i, out'[b].path); }
  }

  lemma FoldFirst(deeds: seq<Deed>, s: seq<Ent>)
    requires Sorted(deeds, s)
    ensures Folded(deeds, [s[0].(dup := false)], s[..1])
  {
    hide Canonical, Needed;
    var o := s[0].(dup := false);
    assert s[0] in s;
    EntFromDeed(deeds, s[0]);
    assert Stands([o][0], s[0]) && s[..1][0] == s[0];
  }

  lemma FoldKeeps(deeds: seq<Deed>, s: seq<Ent>, i: nat, out: seq<Ent>)
    requires Sorted(deeds, s) && 0 < i < |s| && Folded(deeds, out, s[..i])
    ensures s[i].act < |deeds| && forall b :: 0 <= b < |out| ==> out[b].act < |deeds|
    ensures Folded(deeds, Fold(deeds, out, s[i]), s[..i + 1])
  {
    hide Sorted, Folded, Pair;
    ActsInRange(deeds, s, i, out);
    FoldedNotEmpty(deeds, out, s[..i]);
    var k := |out| - 1;
    if out[k].path != s[i].path {
      FoldNew(deeds, s, i, out);
    } else if Pair(deeds, out[k], s[i]) {
      FoldPair(deeds, s, i, out);
    } else {
      FoldInto(deeds, s, i, out);
    }
  }

  lemma FoldedNotEmpty(deeds: seq<Deed>, out: seq<Ent>, s: seq<Ent>)
    requires Folded(deeds, out, s)
    ensures out != []
  {
  }

  lemma ActsInRange(deeds: seq<Deed>, s: seq<Ent>, i: nat, out: seq<Ent>)
    requires Sorted(deeds, s) && i < |s| && Folded(deeds, out, s[..i])
    ensures s[i].act < |deeds| && forall b :: 0 <= b < |out| ==> out[b].act < |deeds|
  {
    hide Canonical, Needed, Covers, Ascends;
    assert s[i] in s;
    EntFromDeed(deeds, s[i]);
    forall b | 0 <= b < |out| ensures out[b].act < |deeds| { assert EntRight(deeds, out[b]); }
  }

  /** The fold so far is right, if the format can carry the list. */
  ghost predicate FoldedSoFar(deeds: seq<Deed>, s: seq<Ent>, i: nat, out: seq<Ent>)
    requires i <= |s|
  {
    && out != [] && (forall b :: 0 <= b < |out| ==> out[b].act < |deeds|)
    && (Canonical(deeds) ==> Sorted(deeds, s) && Folded(deeds, out, s[..i]))
  }

  lemma FoldStart(deeds: seq<Deed>, s: seq<Ent>)
    requires SortedBy(EntLe, s) && (forall x :: x in s <==> Needed(deeds, x))
    ensures s != [] && (forall i :: 0 <= i < |s| ==> s[i].act < |deeds|)
    ensures FoldedSoFar(deeds, s, 1, [s[0].(dup := false)])
  {
    hide Canonical, EntLe, Folded, Sorted, Needed, SortedBy;
    GatheredRange(deeds, s);
    if Canonical(deeds) {
      SortedIs(deeds, s);
      FoldFirst(deeds, s);
    }
  }

  lemma FoldStep(deeds: seq<Deed>, s: seq<Ent>, i: nat, out: seq<Ent>)
    requires 0 < i < |s| && FoldedSoFar(deeds, s, i, out) && s[i].act < |deeds|
    ensures forall b :: 0 <= b < |out| ==> out[b].act < |deeds|
    ensures FoldedSoFar(deeds, s, i + 1, Fold(deeds, out, s[i]))
  {
    hide Canonical, Folded, Sorted, Pair;
    if Canonical(deeds) { FoldKeeps(deeds, s, i, out); }
  }

  lemma FoldEnd(deeds: seq<Deed>, s: seq<Ent>, out: seq<Ent>)
    requires FoldedSoFar(deeds, s, |s|, out)
    ensures out != [] && (forall b :: 0 <= b < |out| ==> out[b].act < |deeds|)
    ensures Canonical(deeds) ==> EntriesFor(deeds, out)
  {
    hide Canonical, Folded, Sorted, EntriesFor;
    assert s[..|s|] == s;
    if Canonical(deeds) { EntriesAre(deeds, s, out); }
  }

  /** `zw_entries`: every line the section needs, in order.  A list the format cannot carry still has
      entries; of a list it can, they are right. */
  method Entries(deeds: seq<Deed>) returns (out: seq<Ent>)
    ensures out != [] && forall b :: 0 <= b < |out| ==> out[b].act < |deeds|
    ensures Canonical(deeds) ==> EntriesFor(deeds, out)
  {
    hide Canonical, EntLe, FoldedSoFar, Needed, SortedBy, Fold, EntriesFor;
    var e := Gather(deeds);
    EntOrder();
    var s := Sort(EntLe, e);
    FoldStart(deeds, s);
    out := [s[0].(dup := false)];
    for i: nat := 1 to |s|
      invariant FoldedSoFar(deeds, s, i, out)
    {
      FoldStep(deeds, s, i, out);
      out := Fold(deeds, out, s[i]);
    }
    FoldEnd(deeds, s, out);
  }

  lemma SortedIs(deeds: seq<Deed>, s: seq<Ent>)
    requires Canonical(deeds) && SortedBy(EntLe, s) && (forall x :: x in s <==> Needed(deeds, x)) && s != []
    ensures Sorted(deeds, s)
  {
  }

  lemma GatheredRange(deeds: seq<Deed>, s: seq<Ent>)
    requires forall x :: x in s <==> Needed(deeds, x)
    ensures s != [] && forall i :: 0 <= i < |s| ==> s[i].act < |deeds|
  {
    assert Needed(deeds, Ent([], NONE, true, false));
    forall i | 0 <= i < |s| ensures s[i].act < |deeds| {
      assert s[i] in s;
      EntFromDeed(deeds, s[i]);
    }
  }

  /** Every entry's directory is an entry. */
  ghost predicate ParentIn(out: seq<Ent>, b: nat)
    requires b < |out|
  {
    out[b].path == [] || exists p :: 0 <= p < |out| && out[p].path == Parent(out[b].path) && out[p].dir && !out[p].dup
  }

  /** The entry leads to an action: it is one, or lies above one. */
  ghost predicate Leads(deeds: seq<Deed>, path: Path) {
    path == [] || exists j: nat :: j < |deeds| && (deeds[j].path == path || Under(path, deeds[j].path))
  }

  ghost predicate EntriesFor(deeds: seq<Deed>, out: seq<Ent>) {
    && EntsRight(deeds, out) && out != [] && out[0] == Ent([], NONE, true, false)
    && (forall b: nat :: b < |out| ==> ParentIn(out, b) && Leads(deeds, out[b].path))
    && (forall j: nat :: j < |deeds| ==> HasAct(out, j))
  }

  ghost predicate HasAct(out: seq<Ent>, j: nat) { exists b :: 0 <= b < |out| && out[b].act == j }

  lemma NeededLeads(deeds: seq<Deed>, x: Ent)
    requires Needed(deeds, x)
    ensures Leads(deeds, x.path)
  {
    if i: nat :| i < |deeds| && OnTheWay(deeds[i].path, x) { assert Under(x.path, deeds[i].path); }
  }

  /** The directory of a needed path is needed. */
  lemma ParentNeeded(deeds: seq<Deed>, x: Ent)
    requires Needed(deeds, x) && x.path != []
    ensures exists y :: Needed(deeds, y) && y.path == Parent(x.path) && y.dir
  {
    var j := LeadsTo(deeds, x);
    var path := Parent(x.path);
    if path == [] {
      assert Needed(deeds, Ent([], NONE, true, false));
    } else {
      assert Under(path, deeds[j].path) by { assert deeds[j].path[..|path|] == x.path[..|path|]; }
      assert OnTheWay(deeds[j].path, Ent(path, NONE, true, false));
      assert Needed(deeds, Ent(path, NONE, true, false));
    }
  }

  lemma LeadsTo(deeds: seq<Deed>, x: Ent) returns (j: nat)
    requires Needed(deeds, x) && x.path != []
    ensures j < |deeds| && |x.path| <= |deeds[j].path| && deeds[j].path[..|x.path|] == x.path
  {
    if i: nat :| i < |deeds| && x == EntOf(deeds, i) {
      j := i;
      assert deeds[j].path[..|x.path|] == x.path;
    } else {
      j :| j < |deeds| && OnTheWay(deeds[j].path, x);
    }
  }

  lemma StoodParent(deeds: seq<Deed>, s: seq<Ent>, out: seq<Ent>, b: nat)
    requires Sorted(deeds, s) && Folded(deeds, out, s) && b < |out|
    ensures ParentIn(out, b) && Leads(deeds, out[b].path)
  {
    hide Canonical, Needed, SortedBy, Leads, StoodFor, Ascends;
    assert PathFrom(s, out[b].path);
    var x :| x in s && x.path == out[b].path;
    NeededLeads(deeds, x);
    if x.path != [] {
      ParentNeeded(deeds, x);
      var y :| Needed(deeds, y) && y.path == Parent(x.path) && y.dir;
      assert y in s;
      var p := StandIn(out, y);
      DirNotDup(deeds, out, p);
    }
  }

  lemma RootEntry(deeds: seq<Deed>, s: seq<Ent>, out: seq<Ent>)
    requires Sorted(deeds, s) && Folded(deeds, out, s)
    ensures out[0] == Ent([], NONE, true, false)
  {
    hide SortedBy, PathFrom, Canonical;
    var root := Ent([], NONE, true, false);
    assert Needed(deeds, root) && root in s && StoodFor(out, root);
    var p := StandIn(out, root);
    assert p > 0 ==> Before(out[0].path, out[p].path) || (p == 1 && out[1].dup && out[0].path == out[1].path);
    DirNotDup(deeds, out, p);
    assert EntRight(deeds, out[0]);
    if out[0].act != NONE { ActionNotRoot(deeds, out[0].act); }
  }

  lemma ActionNotRoot(deeds: seq<Deed>, i: nat)
    requires Canonical(deeds) && i < |deeds|
    ensures deeds[i].path != []
  {
    assert DeedOk(deeds[i]);
  }

  lemma EntriesAre(deeds: seq<Deed>, s: seq<Ent>, out: seq<Ent>)
    requires Sorted(deeds, s) && Folded(deeds, out, s)
    ensures EntriesFor(deeds, out)
  {
    hide Canonical, Needed, SortedBy, Leads, PathFrom, StoodFor, Ascends, ParentIn;
    RootEntry(deeds, s, out);
    forall b: nat | b < |out| ensures ParentIn(out, b) && Leads(deeds, out[b].path) { StoodParent(deeds, s, out, b); }
    forall j: nat | j < |deeds| ensures HasAct(out, j) {
      DeedNeeded(deeds, j);
      assert EntOf(deeds, j) in s;
      var b := StandIn(out, EntOf(deeds, j));
    }
  }

  lemma DeedNeeded(deeds: seq<Deed>, j: nat)
    requires j < |deeds|
    ensures Needed(deeds, EntOf(deeds, j))
  {
  }
}
