/** When an emitted list says something of "/", said of the trees and the decision: the root is a
    directory, no line but its own reads from it, and it has a line unless it stays as onto has it. */
module RootLines {
  import opened Trees
  import opened MergeSpec
  import opened ContentSpec
  import opened Decide
  import opened DecisionLaws
  import opened Manifest
  import opened Kinds
  import opened Rebase
  import opened Namespace
  import opened Order
  import Document
  import Emitted

  /** The name stays as onto has it, or stays away, in a group without conflict. */
  predicate Still(m: Merge, d: Decision, x: nat)
    requires m.Valid() && |d.groupOf| == m.NodeCount() && x < |d.resultOf|
    requires forall u: nat :: u < m.NodeCount() ==> 0 <= d.groupOf[u] < |d.flags|
  {
    && CleanName(m, d, x)
    && m.onto.Has(x) == m.Survives(x)
    && (m.Survives(x) ==> 0 <= d.resultOf[x] < |d.pools| && PoolAt(d, x).content == Some(m.onto.ContentAt(x)))
  }

  predicate IsDirectory(m: Merge, x: nat)
    requires m.Valid()
  {
    (m.On(From, x) || m.On(Onto, x)) ==> SideKind(m, x) == Directory
  }

  /** A directory has no line if and only if it is still. */
  lemma NoLineIffStill(m: Merge, c: Table, d: Decision, w: Walk, x: nat)
    requires Ready(m, c, d, w) && Emittable(m, d, w) && x < m.n && IsDirectory(m, x)
    ensures ActOf(m, d, w, x) == Nothing <==> Still(m, d, x)
  {
    hide DecisionFor, Walk.Valid, Anchor, Keeps, FromPath, DupPath;
    if m.Survives(x) {
      ResultPoolClean(m, c, d, w, x, x);
      if CleanName(m, d, x) { CleanDirectory(m, c, d, w, x); }
    }
  }

  /** A surviving directory of a clean group is its pool's one name, and keeps its onto object. */
  lemma CleanDirectory(m: Merge, c: Table, d: Decision, w: Walk, x: nat)
    requires Ready(m, c, d, w) && Emittable(m, d, w) && x < m.n && m.Survives(x) && CleanName(m, d, x) && SideKind(m, x) == Directory
    ensures 0 <= d.resultOf[x] < |d.pools| && x == Anchor(m, d, w, d.resultOf[x])
    ensures d.pools[d.resultOf[x]].content.Some? && d.pools[d.resultOf[x]].content.value.kind == Directory
    ensures Keeps(m, d, w, d.resultOf[x]) == if m.onto.Has(x) then m.onto.poolOf[x] else -1
  {
    hide DecisionFor, Walk.Valid, Anchor, Keeps, CleanName;
    var k := d.resultOf[x];
    GoalKind(m, c, d, w, x);
    OneDirectory(m, c, d, w, x, Anchor(m, d, w, k));
    KeepsOneEach(m, d, w, k, k);
    if m.onto.Has(x) { DirectoryKept(m, d, w, k); }
  }

  // ----- who reads from a directory

  /** The name a line reads its object from, if it does. */
  function ReadsFrom(a: Act): Option<nat> {
    match a
    case Ln(s) => Some(s)
    case Cp(s) => Some(s)
    case Dup(s) => Some(s)
    case Write(s) => Some(s)
    case _ => None
  }

  lemma {:induction false} OfferIsNamed(m: Merge, w: Walk, names: seq<nat>, c: Content)
    requires m.Valid() && forall i :: 0 <= i < |names| ==> names[i] < |w.ord|
    ensures FirstOffer(m, w, names, c).Some? ==> FirstOffer(m, w, names, c).value in names
  {
    if names != [] {
      assert names == names[..|names| - 1] + [names[|names| - 1]];
      OfferIsNamed(m, w, names[..|names| - 1], c);
    }
  }

  lemma FromIsNamed(m: Merge, d: Decision, w: Walk, x: nat, k: nat, c: Content)
    requires Emittable(m, d, w) && k < |d.pools|
    ensures var r := FromPath(m, d, w, x, k, c); r.Some? ==> r.value == x || (r.value < m.n && d.resultOf[r.value] == k)
  {
    hide Merge.Valid, FirstOffer;
    AnchorIsFirst(m, d, w, k);
    PoolInTable(m, d, w, k);
    OfferIsNamed(m, w, d.pools[k].names, c);
  }

  /** A directory only from has brings its own content: it is never copied within onto. */
  lemma NewDirectoryOffers(m: Merge, t: Table, d: Decision, w: Walk, x: nat)
    requires Ready(m, t, d, w) && Emittable(m, d, w) && x < m.n && m.Survives(x) && CleanName(m, d, x)
    requires SideKind(m, x) == Directory && !m.onto.Has(x) && d.pools[d.resultOf[x]].content.Some?
    ensures Offers(m, d.pools[d.resultOf[x]].content.value, x)
  {
    hide Walk.Valid, SameKinds, KidsAreDirectories, Emittable;
    PoolAtHolds(m, t, d, x);
    var c := d.pools[d.resultOf[x]].content.value;
    var y := HeldBrought(m, t, x, c);
    ResultKinds(m, x, y);
  }

  /** A directory's whole pool is the directory. */
  lemma PoolMate(m: Merge, t: Table, d: Decision, w: Walk, x: nat, y: nat)
    requires Ready(m, t, d, w) && Emittable(m, d, w) && x < m.n && y < m.n && m.Survives(x) && m.Survives(y)
    requires CleanName(m, d, y) && d.resultOf[x] == d.resultOf[y] && SideKind(m, x) == Directory
    ensures x == y
  {
    hide DecisionFor, Walk.Valid, SameKinds, KidsAreDirectories, CleanName, Emittable;
    ResultPoolClean(m, t, d, w, x, y);
    GoalKind(m, t, d, w, x);
    OneDirectory(m, t, d, w, x, y);
  }

  /** What is copied within onto is no directory. */
  lemma DupIsNoDirectory(m: Merge, t: Table, d: Decision, w: Walk, x: nat, y: nat)
    requires Ready(m, t, d, w) && Emittable(m, d, w) && x < m.n && y < m.n && m.Survives(y) && CleanName(m, d, y)
    requires ActOf(m, d, w, y) == Dup(x)
    ensures m.onto.Has(x) && SideKind(m, x) != Directory
  {
    hide DecisionFor, Walk.Valid, Anchor, Keeps, DupPath, KidsAreDirectories, CleanName;
    var k := d.resultOf[y];
    GoalKind(m, t, d, w, y);
    SourceIsOnto(m, d, w, k, d.pools[k].content.value);
    if SideKind(m, y) == Directory {
      CleanDirectory(m, t, d, w, y);
      if !m.onto.Has(y) { NewDirectoryOffers(m, t, d, w, y); }
    }
  }

  /** No line reads from a directory, but its own. */
  lemma OnlyItsOwn(m: Merge, t: Table, d: Decision, w: Walk, x: nat, y: nat)
    requires Ready(m, t, d, w) && Emittable(m, d, w) && x < m.n && y < m.n && IsDirectory(m, x)
    requires ReadsFrom(ActOf(m, d, w, y)) == Some(x)
    ensures x == y
  {
    hide DecisionFor, Walk.Valid, Anchor, Keeps, FromPath, DupPath, SameKinds, KidsAreDirectories, CleanName;
    ResultPoolClean(m, t, d, w, y, y);
    var k := d.resultOf[y];
    if ActOf(m, d, w, y).Dup? {
      DupIsNoDirectory(m, t, d, w, x, y);
    } else {
      FromIsNamed(m, d, w, y, k, d.pools[k].content.value);
      if x != y { PoolMate(m, t, d, w, x, y); }
    }
  }

  // ----- the whole list

  /** A walked name's line is in the list. */
  lemma {:induction false} LineListed(m: Merge, d: Decision, w: Walk, i: nat, j: nat)
    requires Emittable(m, d, w) && j < i <= |w.order| && w.order[j] < m.n && ActOf(m, d, w, w.order[j]) != Nothing
    ensures Action(ActOf(m, d, w, w.order[j]), w.order[j]) in Lines(m, d, w, i)
  {
    hide ActOf, Emittable;
    if j < i - 1 { LineListed(m, d, w, i - 1, j); }
  }

  /** "/" stays as onto has it, or is no name of the result, without conflict. */
  ghost predicate RootStill(m: Merge, d: Decision, t: Names)
    requires m.Valid() && |d.groupOf| == m.NodeCount() && |t.path| <= |d.resultOf|
    requires forall u: nat :: u < m.NodeCount() ==> 0 <= d.groupOf[u] < |d.flags|
  {
    forall x: nat :: x < |t.path| && t.path[x] == [] ==> Still(m, d, x)
  }

  lemma QuietIffStill(m: Merge, c: Table, d: Decision, t: Names, w: Walk)
    requires Ready(m, c, d, w) && Grouped(m, d) && |t.path| == m.n && WalkFor(m, d, t, w) && Emittable(m, d, w)
    requires Rooted(t, m.from) && Rooted(t, m.onto) && !Sourceless(m, d, w, |w.order|)
    ensures Emitted.RootQuiet(t, Lines(m, d, w, |w.order|)) <==> RootStill(m, d, t)
  {
    hide Ready, Merge.Valid, ActOf, Still, WalkFor, Rooted, Emitted.Quiet;
    var list := Lines(m, d, w, |w.order|);
    Emitted.LinesSayable(m, d, t, w, |w.order|);
    if RootStill(m, d, t) {
      forall a | a in list ensures Emitted.Quiet(t, a) { StillIsQuiet(m, c, d, t, w, a); }
    } else {
      var x: nat :| x < |t.path| && t.path[x] == [] && !Still(m, d, x);
      RootLine(m, c, d, t, w, x);
    }
  }

  lemma RootIsDirectory(m: Merge, t: Names, x: nat)
    requires m.Valid() && |t.path| == m.n && Rooted(t, m.from) && Rooted(t, m.onto) && x < m.n && t.path[x] == []
    ensures IsDirectory(m, x)
  {
  }

  lemma RootLine(m: Merge, c: Table, d: Decision, t: Names, w: Walk, x: nat)
    requires Ready(m, c, d, w) && Grouped(m, d) && |t.path| == m.n && WalkFor(m, d, t, w) && Emittable(m, d, w)
    requires Rooted(t, m.from) && Rooted(t, m.onto) && !Sourceless(m, d, w, |w.order|)
    requires x < m.n && t.path[x] == [] && !Still(m, d, x)
    ensures !Emitted.RootQuiet(t, Lines(m, d, w, |w.order|))
  {
    hide Ready, Merge.Valid, ActOf, Still, Rooted, DirFlag, IsDirectory;
    RootIsDirectory(m, t, x);
    NoLineIffStill(m, c, d, w, x);
    assert w.order[w.ord[x]] == x;
    LineListed(m, d, w, |w.order|, w.ord[x]);
    Emitted.LinesSayable(m, d, t, w, |w.order|);
    var a := Action(ActOf(m, d, w, x), x);
    assert a in Lines(m, d, w, |w.order|);
    assert !Emitted.Quiet(t, a);
  }

  lemma StillIsQuiet(m: Merge, c: Table, d: Decision, t: Names, w: Walk, a: Action)
    requires Ready(m, c, d, w) && Grouped(m, d) && |t.path| == m.n && WalkFor(m, d, t, w) && Emittable(m, d, w)
    requires Rooted(t, m.from) && Rooted(t, m.onto) && RootStill(m, d, t)
    requires a.path < m.n && a.act == ActOf(m, d, w, a.path) && Emitted.Sayable(t, a.act)
    ensures Emitted.Quiet(t, a)
  {
    hide Ready, Merge.Valid, Emittable, ActOf, Still, WalkFor, Rooted, IsDirectory;
    if t.path[a.path] == [] {
      RootIsDirectory(m, t, a.path);
      NoLineIffStill(m, c, d, w, a.path);
    }
    var s := ReadsFrom(a.act);
    if s.Some? && t.path[s.value] == [] {
      RootIsDirectory(m, t, s.value);
      OnlyItsOwn(m, c, d, w, s.value, a.path);
    }
  }

  /** An emitted list, written, is read back if and only if "/" stays as onto has it. */
  method WriteDecided(ghost m: Merge, ghost c: Table, ghost d: Decision, ghost t: Names, ghost w: Walk, deeds: seq<Document.Deed>)
    returns (lines: seq<Document.Line>)
    requires Ready(m, c, d, w) && Grouped(m, d) && t.Valid() && |t.path| == m.n && Emitted.NamesOk(t) && WalkFor(m, d, t, w)
    requires Rooted(t, m.from) && Rooted(t, m.onto) && Emittable(m, d, w) && !Sourceless(m, d, w, |w.order|)
    requires Emitted.SayableAll(m, t, Lines(m, d, w, |w.order|))
    requires deeds == Emitted.Deeds(m, t, w, Lines(m, d, w, |w.order|))
    ensures Document.Parse(lines) == Some(deeds) <==> RootStill(m, d, t)
  {
    hide Document.Parse, Ready, Grouped, Emitted.NamesOk, WalkFor, Emittable, Sourceless, Lines, Emitted.RootQuiet, Rooted, RootStill;
    QuietIffStill(m, c, d, t, w);
    lines := Emitted.WriteEmitted(m, d, t, w, deeds);
  }
}
