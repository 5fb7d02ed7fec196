/** The emitted list as the document carries it: an emission that says nothing of the root is a list
    the format can carry, so what is written of it is read back. */
module Emitted {
  import opened Trees
  import opened MergeSpec
  import opened ContentSpec
  import opened Decide
  import M = Manifest
  import opened Paths
  import opened Namespace
  import opened Order
  import opened Document
  import opened Writer
  import Rebase
  import DecisionLaws
  import Kinds
  import RoundTrip
  import Replay

  /** `zm_number`: the conflicted groups in the order the lines first name them. */
  function Named(lines: seq<M.Action>): (gs: seq<int>)
    ensures forall a :: a in lines && a.act.Mark? ==> a.act.group in gs
  {
    if lines == [] then [] else
    var before := Named(lines[..|lines| - 1]);
    var a := lines[|lines| - 1];
    assert lines == lines[..|lines| - 1] + [a];
    if a.act.Mark? && a.act.group !in before then before + [a.act.group] else before
  }

  /** A group's number: 1 for the first named. */
  function NumberOf(gs: seq<int>, g: int): (n: nat)
    ensures g in gs ==> 1 <= n <= |gs| && gs[n - 1] == g
  {
    if gs == [] then 0 else
    var before := NumberOf(gs[..|gs| - 1], g);
    assert gs == gs[..|gs| - 1] + [gs[|gs| - 1]];
    if g in gs[..|gs| - 1] then before else |gs|
  }

  /** A line's act has a place in the document. */
  predicate Sayable(t: Names, a: M.Act) {
    match a
    case Nothing => false
    case NoSource => false
    case Rm(_) => true
    case Mark(_) => true
    case Ln(x) => x < |t.path|
    case Cp(x) => x < |t.path|
    case Dup(x) => x < |t.path|
    case Write(x) => x < |t.path|
  }

  /** `zm_emit_act`. */
  function WordFor(t: Names, gs: seq<int>, a: M.Act): Word
    requires Sayable(t, a)
  {
    match a
    case Rm(_) => Document.Rm
    case Mark(g) => Document.Conflict(NumberOf(gs, g))
    case Ln(x) => Document.Ln(t.path[x])
    case Cp(x) => Document.Cp(t.path[x])
    case Dup(x) => Document.Dup(t.path[x])
    case Write(x) => Document.Write(t.path[x])
  }

  ghost predicate SayableAll(m: Merge, t: Names, lines: seq<M.Action>) {
    && m.Valid() && |t.path| == m.n
    && forall k :: 0 <= k < |lines| ==> lines[k].path < m.n && Sayable(t, lines[k].act)
  }

  /** The list as the document carries it. */
  function Deeds(m: Merge, t: Names, w: M.Walk, lines: seq<M.Action>): (r: seq<Deed>)
    requires SayableAll(m, t, lines)
    ensures |r| == |lines|
  {
    seq(|lines|, k requires 0 <= k < |lines| =>
      Deed(t.path[lines[k].path], M.DirFlag(m, w, lines[k].path), WordFor(t, Named(lines), lines[k].act)))
  }

  /** No line is about "/", nor reads from it: the section has no place for that. */
  ghost predicate RootQuiet(t: Names, lines: seq<M.Action>) {
    forall a :: a in lines ==> Quiet(t, a)
  }

  predicate Quiet(t: Names, a: M.Action) {
    Sayable(t, a.act) && a.path < |t.path| ==>
      && t.path[a.path] != []
      && (match a.act
          case Ln(x) => t.path[x] != []
          case Cp(x) => t.path[x] != []
          case Dup(x) => t.path[x] != []
          case Write(x) => t.path[x] != []
          case _ => true)
  }

  ghost predicate NamesOk(t: Names) {
    forall x, c :: 0 <= x < |t.path| && c in t.path[x] ==> NameOk(c)
  }

  lemma ActSayable(m: Merge, d: Decision, t: Names, w: M.Walk, x: nat)
    requires M.Emittable(m, d, w) && |t.path| == m.n && x < m.n
    requires M.ActOf(m, d, w, x) != M.NoSource && M.ActOf(m, d, w, x) != M.Nothing
    ensures Sayable(t, M.ActOf(m, d, w, x))
  {
    hide M.First, M.Keeps, M.FromPath, M.DupPath, M.Anchor;
    if m.Survives(x) {
      var k := d.resultOf[x];
      assert M.PoolListed(m, d, k);
      if d.pools[k].content.Some? { SourcesNamed(m, d, w, x, k, d.pools[k].content.value); }
    }
  }

  lemma SourcesNamed(m: Merge, d: Decision, w: M.Walk, x: nat, k: nat, c: Content)
    requires M.Emittable(m, d, w) && k < |d.pools|
    ensures M.FromPath(m, d, w, x, k, c).Some? ==> M.FromPath(m, d, w, x, k, c).value < m.n
    ensures M.DupPath(m, d, w, k, c, 0).Some? ==> M.DupPath(m, d, w, k, c, 0).value < m.n
  {
    hide M.FromPath, M.DupPath;
  }

  lemma {:induction false} LinesSayable(m: Merge, d: Decision, t: Names, w: M.Walk, i: nat)
    requires M.Emittable(m, d, w) && |t.path| == m.n && i <= |w.order| && !M.Sourceless(m, d, w, i)
    ensures m.Valid() && SayableAll(m, t, M.Lines(m, d, w, i))
    ensures forall a :: a in M.Lines(m, d, w, i) ==> a.path < m.n && a.act == M.ActOf(m, d, w, a.path)
  {
    hide M.ActOf, M.PoolListed, Sayable;
    if i > 0 {
      LinesSayable(m, d, t, w, i - 1);
      M.OrderInTable(m, d, w);
      if M.ActOf(m, d, w, w.order[i - 1]) != M.Nothing { ActSayable(m, d, t, w, w.order[i - 1]); }
    }
  }

  /** What is emitted, if it says nothing of the root, is a list the format can carry. */
  lemma EmittedCanonical(m: Merge, d: Decision, t: Names, w: M.Walk)
    requires Grouped(m, d) && t.Valid() && |t.path| == m.n && NamesOk(t) && WalkFor(m, d, t, w) && M.Emittable(m, d, w)
    requires !M.Sourceless(m, d, w, |w.order|) && RootQuiet(t, M.Lines(m, d, w, |w.order|))
    ensures SayableAll(m, t, M.Lines(m, d, w, |w.order|))
    ensures Canonical(Deeds(m, t, w, M.Lines(m, d, w, |w.order|)))
  {
    hide M.ActOf, M.Lines, Names.Valid, M.DirFlag, Turn, DeedOk, HasRemoval;
    var lines := M.Lines(m, d, w, |w.order|);
    LinesSayable(m, d, t, w, |w.order|);
    Replay.LinesFollowWalk(m, d, w, |w.order|);
    var deeds := Deeds(m, t, w, lines);
    forall i | 0 <= i < |deeds| ensures DeedOk(deeds[i]) { EmittedDeedOk(m, d, t, w, lines, i); }
    forall i, j | 0 <= i < j < |deeds| ensures Turn(deeds[i], deeds[j]) && !Under(deeds[j].path, deeds[i].path) {
      EmittedTurn(m, d, t, w, lines[i].path, lines[j].path, deeds[i], deeds[j]);
    }
  }

  lemma EmittedTurn(m: Merge, d: Decision, t: Names, w: M.Walk, x: nat, y: nat, a: Deed, b: Deed)
    requires Grouped(m, d) && |t.path| == m.n && WalkFor(m, d, t, w) && x < m.n && y < m.n && 0 <= w.ord[x] < w.ord[y]
    requires a.path == t.path[x] && a.dir == M.DirFlag(m, w, x) && b.path == t.path[y]
    ensures Turn(a, b) && !Under(b.path, a.path)
  {
    hide Merge.Valid, Namespace.Needed;
    assert w.order[w.ord[x]] == x && w.order[w.ord[y]] == y;
    assert Before(a.path, b.path);
    if Under(b.path, a.path) { UnderIsAfter(b.path, a.path); BeforeAsymmetric(a.path, b.path); }
    if Under(a.path, b.path) { assert x in w.kids; }
  }

  lemma EmittedDeedOk(m: Merge, d: Decision, t: Names, w: M.Walk, lines: seq<M.Action>, i: nat)
    requires Grouped(m, d) && t.Valid() && |t.path| == m.n && NamesOk(t) && WalkFor(m, d, t, w) && M.Emittable(m, d, w)
    requires SayableAll(m, t, lines) && RootQuiet(t, lines) && i < |lines| && lines[i].act == M.ActOf(m, d, w, lines[i].path)
    ensures DeedOk(Deeds(m, t, w, lines)[i])
  {
    hide M.ActOf, M.Emittable, WalkFor, Names.Valid, M.DirFlag, NameOk, Merge.Valid, Compare, Text, Named, NumberOf;
    var a := lines[i];
    assert a in lines;
    if a.act.Ln? { LinksGoBack(m, d, t, w, a.path); }
  }

  // ----- when the document carries the list

  /** A list with a line about the root, or that reads from it, is not in any text. */
  lemma LoudIsLost(m: Merge, t: Names, w: M.Walk, gs: seq<M.Action>, lines: seq<Document.Line>)
    requires SayableAll(m, t, gs) && !RootQuiet(t, gs)
    ensures Parse(lines) != Some(Deeds(m, t, w, gs))
  {
    hide Parse, Merge.Valid, M.DirFlag, Compare, Text, Named, NumberOf;
    var deeds := Deeds(m, t, w, gs);
    var a :| a in gs && !Quiet(t, a);
    var k :| 0 <= k < |gs| && gs[k] == a;
    assert deeds[k] in deeds;
    if Parse(lines) == Some(deeds) { RoundTrip.RootNeverRead(lines, deeds); }
  }

  /** An emitted list, written: it is read back if and only if it says nothing of the root. */
  method WriteEmitted(ghost m: Merge, ghost d: Decision, ghost t: Names, ghost w: M.Walk, deeds: seq<Deed>) returns (lines: seq<Document.Line>)
    requires Grouped(m, d) && t.Valid() && |t.path| == m.n && NamesOk(t) && WalkFor(m, d, t, w) && M.Emittable(m, d, w)
    requires !M.Sourceless(m, d, w, |w.order|) && SayableAll(m, t, M.Lines(m, d, w, |w.order|))
    requires deeds == Deeds(m, t, w, M.Lines(m, d, w, |w.order|))
    ensures Parse(lines) == Some(deeds) <==> RootQuiet(t, M.Lines(m, d, w, |w.order|))
  {
    hide Parse, Canonical, Grouped, NamesOk, WalkFor, M.Emittable, M.Sourceless, M.Lines, RootQuiet;
    ghost var gs := M.Lines(m, d, w, |w.order|);
    if RootQuiet(t, gs) { EmittedCanonical(m, d, t, w); }
    lines := RoundTrip.WriteTree(deeds);
    if !RootQuiet(t, gs) { LoudIsLost(m, t, w, gs, lines); }
  }

  // ----- a list the document loses

  const OLDROOT := Content(Directory, 0, 0)
  const NEWROOT := Content(Directory, 0, 1)

  function RootTree(c: Content): Tree { Tree([Pool([0], c)], map[0 := 0]) }

  /** From changes the root directory itself, nothing else changes: the list has a line for the root,
      and no text reads back as that list. */
  lemma RootEditIsLost(m: Merge, c: Table, d: Decision, t: Names, w: M.Walk, lines: seq<Document.Line>)
    requires m == Merge(1, RootTree(OLDROOT), RootTree(NEWROOT), RootTree(OLDROOT), m.strict)
    requires Rebase.Ready(m, c, d, w) && w.order == [0] && t == Names([[]], [-1])
    ensures M.Emittable(m, d, w) && M.Lines(m, d, w, 1) == [M.Action(M.Write(0), 0)]
    ensures SayableAll(m, t, M.Lines(m, d, w, 1)) && Parse(lines) != Some(Deeds(m, t, w, M.Lines(m, d, w, 1)))
  {
    hide DecisionFor, Parse, Merge.SameResult, Merge.SameGroup, Kinds.SameKinds;
    Rebase.ReadyEmits(m, c, d, w);
    DecisionLaws.UnchangedOnto(m, c, d);
    assert m.from.Has(0) && DecisionLaws.PoolAt(d, 0).content == Some(NEWROOT);
    Rebase.ResultPoolClean(m, c, d, w, 0, 0);
    var k := d.resultOf[0];
    M.AnchorIsFirst(m, d, w, k);
    M.FirstIsFirst(m, d, w, 0);
    assert M.ActOf(m, d, w, 0) == M.Write(0);
    assert M.Lines(m, d, w, 0) == [];
    var deeds := Deeds(m, t, w, M.Lines(m, d, w, 1));
    assert deeds[0] in deeds;
    if Parse(lines) == Some(deeds) { RoundTrip.RootNeverRead(lines, deeds); }
  }
}
