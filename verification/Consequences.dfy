/** Consequences for whole rebases: what one-sided changes emit and reach, when a list cannot be
    emitted, and the one case where an emitted list misses its decision. */
module Consequences {
  import opened Trees
  import opened MergeSpec
  import opened ContentSpec
  import opened Decide
  import opened DecisionLaws
  import opened Manifest
  import opened Apply
  import opened Plan
  import opened Compile
  import opened Kinds
  import opened Rebase
  import opened Promises

  // ----- when nothing has to be done

  /** Where the decision is onto's own tree, every pool's anchor is the first name of its onto pool. */
  lemma AnchorOfOnto(m: Merge, d: Decision, w: Walk, x: nat)
    requires Emittable(m, d, w) && Rebuilds(m, d, m.onto) && m.onto.Has(x)
    ensures x < m.n && 0 <= d.resultOf[x] < |d.pools| && Keeps(m, d, w, d.resultOf[x]) == m.onto.poolOf[x]
  {
    hide First;
    var k := d.resultOf[x];
    var a := Anchor(m, d, w, k);
    var q := m.onto.poolOf[x];
    var f := FirstOfOnto(m, w, q);
    AnchorIsFirst(m, d, w, k);
    FirstIsFirst(m, d, w, q);
    assert d.resultOf[f] == k;
    assert f in d.pools[k].names && a in m.onto.pools[q].names;
    assert w.ord[a] == w.ord[f];
  }

  lemma QuietName(m: Merge, t: Table, d: Decision, w: Walk, x: nat)
    requires Ready(m, t, d, w) && Emittable(m, d, w) && Rebuilds(m, d, m.onto) && x < m.n
    ensures ActOf(m, d, w, x) == Nothing
  {
    hide First, FirstOfOnto, Anchor, Keeps, FromPath, DupPath, Walk.Valid, DecisionFor, SameKinds;
    if m.onto.Has(x) {
      AnchorOfOnto(m, d, w, x);
      ResultPoolClean(m, t, d, w, x, x);
    }
  }

  lemma {:induction false} QuietLines(m: Merge, t: Table, d: Decision, w: Walk, i: nat)
    requires Ready(m, t, d, w) && Emittable(m, d, w) && Rebuilds(m, d, m.onto) && i <= |w.order|
    ensures Lines(m, d, w, i) == [] && !Sourceless(m, d, w, i)
  {
    hide Ready, Emittable, Rebuilds, ActOf;
    OrderInTable(m, d, w);
    if i > 0 { QuietLines(m, t, d, w, i - 1); }
    forall j | 0 <= j < i ensures ActOf(m, d, w, w.order[j]) == Nothing { QuietName(m, t, d, w, w.order[j]); }
  }

  /** A rebase with nothing to bring, from unchanged or onto already there, has an empty list. */
  lemma NothingToBring(m: Merge, t: Table, d: Decision, w: Walk)
    requires Ready(m, t, d, w) && (m.from == m.base || m.from == m.onto)
    ensures Emittable(m, d, w) && !Sourceless(m, d, w, |w.order|) && Lines(m, d, w, |w.order|) == []
  {
    hide DecisionFor, SameKinds, Rebuilds;
    ReadyEmits(m, t, d, w);
    if m.from == m.base { UnchangedFrom(m, t, d); } else { SameChanges(m, t, d); }
    QuietLines(m, t, d, w, |w.order|);
  }

  // ----- when all of from is brought

  lemma ReplayName(m: Merge, t: Table, d: Decision, w: Walk, x: nat)
    requires Ready(m, t, d, w) && Emittable(m, d, w) && Rebuilds(m, d, m.from) && x < m.n
    ensures ActOf(m, d, w, x) != NoSource
  {
    hide First, FirstOfOnto, Anchor, Keeps, DupPath, Walk.Valid, DecisionFor, SameKinds;
    if m.Survives(x) { ResultPoolClean(m, t, d, w, x, x); }
  }

  predicate FromContent(m: Merge, d: Decision, x: nat) {
    && x < |d.resultOf| && 0 <= d.resultOf[x] < |d.pools| && m.from.Has(x) && m.from.poolOf[x] < |m.from.pools|
    && d.pools[d.resultOf[x]].content == Some(m.from.ContentAt(x))
  }

  lemma DecidedFrom(m: Merge, t: Table, d: Decision, w: Walk, x: nat)
    requires Ready(m, t, d, w) && Emittable(m, d, w) && Rebuilds(m, d, m.from) && x < m.n
    ensures CleanName(m, d, x) && (m.Survives(x) <==> m.from.Has(x))
    ensures m.from.Has(x) ==> FromContent(m, d, x)
  {
    hide DecisionFor, SameKinds, Walk.Valid, PoolListed;
    if m.from.Has(x) { assert PoolAt(d, x).content == Some(m.from.ContentAt(x)); }
  }

  /** The decision is from's tree, name by name. */
  ghost predicate DecidesFrom(m: Merge, d: Decision, w: Walk)
    requires Emittable(m, d, w)
  {
    && (forall x: nat :: x < m.n ==> CleanName(m, d, x) && (m.Survives(x) <==> m.from.Has(x)))
    && (forall x: nat :: m.from.Has(x) ==> FromContent(m, d, x) && x < m.n)
    && (forall x: nat, y: nat :: m.from.Has(x) && m.from.Has(y) ==>
          x < m.n && y < m.n && (d.resultOf[x] == d.resultOf[y] <==> m.from.poolOf[x] == m.from.poolOf[y]))
  }

  lemma ReachesThenSame(m: Merge, d: Decision, w: Walk, s: Store)
    requires Emittable(m, d, w) && DecidesFrom(m, d, w) && s.Valid() && StoreOf(m.from).Valid()
    requires (forall x: nat :: x in s.at ==> x < m.n) && Reaches(m, d, w, s)
    ensures SameTree(s, StoreOf(m.from))
  {
    hide Emittable, CleanName, Merge.Survives;
    assert forall x: nat :: x in s.at <==> m.from.Has(x);
    assert forall x: nat :: x in s.at ==> Decided(m, d, w, s, x);
    assert s.at.Keys == m.from.poolOf.Keys;
  }

  lemma SameThenReaches(m: Merge, d: Decision, w: Walk, s: Store)
    requires Emittable(m, d, w) && DecidesFrom(m, d, w) && s.Valid() && StoreOf(m.from).Valid()
    requires SameTree(s, StoreOf(m.from))
    ensures Reaches(m, d, w, s)
  {
    hide CleanName, Merge.Survives, Merge.Valid, Walk.Valid, PoolListed;
    assert forall x: nat :: x in s.at <==> x in s.at.Keys;
    assert forall x: nat :: x in s.at <==> m.from.Has(x);
  }

  /** The store is from's tree exactly when it reaches a decision that is from's tree. */
  lemma ReachesFrom(m: Merge, t: Table, d: Decision, w: Walk, s: Store)
    requires Ready(m, t, d, w) && Emittable(m, d, w) && Rebuilds(m, d, m.from) && s.Valid()
    requires forall x: nat :: x in s.at ==> x < m.n
    ensures StoreOf(m.from).Valid() && (Reaches(m, d, w, s) <==> SameTree(s, StoreOf(m.from)))
  {
    hide DecisionFor, SameKinds, Rebuilds, Walk.Valid, PoolListed, Merge.Survives, CleanName, Reaches, SameTree;
    forall x: nat | x < m.n ensures CleanName(m, d, x) && (m.Survives(x) <==> m.from.Has(x)) && (m.from.Has(x) ==> FromContent(m, d, x)) {
      DecidedFrom(m, t, d, w, x);
    }
    forall x: nat, y: nat | m.from.Has(x) && m.from.Has(y)
      ensures x < m.n && y < m.n && (d.resultOf[x] == d.resultOf[y] <==> m.from.poolOf[x] == m.from.poolOf[y])
    {
      FromPools(m, d, x, y);
    }
    assert DecidesFrom(m, d, w);
    if Reaches(m, d, w, s) { ReachesThenSame(m, d, w, s); }
    if SameTree(s, StoreOf(m.from)) { SameThenReaches(m, d, w, s); }
  }

  lemma FromPools(m: Merge, d: Decision, x: nat, y: nat)
    requires m.Valid() && Rebuilds(m, d, m.from) && m.from.Has(x) && m.from.Has(y)
    ensures x < m.n && y < m.n && (d.resultOf[x] == d.resultOf[y] <==> m.from.poolOf[x] == m.from.poolOf[y])
  {
  }

  /** A rebase onto the base itself always has a list, and running it over the base gives from's
      own tree if and only if no name is stranded and no pool is stuck. */
  lemma ReplayReaches(m: Merge, t: Table, d: Decision, w: Walk, under: (nat, nat) -> bool)
    requires Ready(m, t, d, w) && m.onto == m.base
    ensures Emittable(m, d, w) && !Sourceless(m, d, w, |w.order|)
    ensures StoreOf(m.onto).Valid() && StoreOf(m.from).Valid() && SourcesOf(m, under).Valid()
    ensures var o := ApplyAll(SourcesOf(m, under), StoreOf(m.onto), Lines(m, d, w, |w.order|));
      o.Done? && (SameTree(o.store, StoreOf(m.from)) <==> NothingLost(m, d, w))
  {
    hide Ready, Rebuilds, ActOf, NothingLost, Reaches, Untouched, ApplyAll, Lines, SameTree;
    ReadyEmits(m, t, d, w);
    ReadyDecides(m, t, d, w);
    UnchangedOnto(m, t, d);
    OrderInTable(m, d, w);
    forall j | 0 <= j < |w.order| ensures ActOf(m, d, w, w.order[j]) != NoSource { ReplayName(m, t, d, w, w.order[j]); }
    EmittedListReaches(m, t, d, w, under);
    var s := ApplyAll(SourcesOf(m, under), StoreOf(m.onto), Lines(m, d, w, |w.order|)).store;
    ReachedNames(m, t, d, w, under);
    ReachesFrom(m, t, d, w, s);
  }

  lemma ReadyDecides(m: Merge, t: Table, d: Decision, w: Walk)
    requires Ready(m, t, d, w)
    ensures m.Valid() && DecisionFor(m, t, d)
  {
  }

  lemma ReachedNames(m: Merge, t: Table, d: Decision, w: Walk, under: (nat, nat) -> bool)
    requires Ready(m, t, d, w) && Emittable(m, d, w) && !Sourceless(m, d, w, |w.order|)
    ensures StoreOf(m.onto).Valid() && SourcesOf(m, under).Valid()
    ensures var o := ApplyAll(SourcesOf(m, under), StoreOf(m.onto), Lines(m, d, w, |w.order|));
      o.Done? ==> forall x: nat :: x in o.store.at ==> x < m.n
  {
    hide Ready, Emittable, Plan.Valid, Carries, Resumable, ActOf, Lines, ListOf, Settled, SettledTo, ApplyAll;
    var p, acts, e := PlanOf(m, d, w), Acts(m, d, w), SourcesOf(m, under);
    EmittedCarries(m, t, d, w, under);
    PlanShaped(m, d, w);
    ListsMatch(m, d, w);
    StartResumable(p);
    MergeIsValid(m, t, d, w);
    assert e.Valid();
    ApplyFinishes(p, e, acts, StoreOf(m.onto));
    var s := ApplyAll(e, StoreOf(m.onto), ListOf(p, acts, |w.order|)).store;
    forall x: nat | x in s.at ensures x < m.n { NamesBelow(p, s, x); }
  }

  // ----- when there is no list

  lemma {:induction false} NoOffer(m: Merge, w: Walk, names: seq<nat>, c: Content)
    requires m.Valid() && forall i :: 0 <= i < |names| ==> names[i] < |w.ord|
    ensures FirstOffer(m, w, names, c).None? <==> forall y :: y in names ==> !Offers(m, c, y)
  {
    hide Merge.Valid, Offers;
    if names != [] {
      var last := names[|names| - 1];
      assert names == names[..|names| - 1] + [last];
      NoOffer(m, w, names[..|names| - 1], c);
    }
  }

  lemma {:induction false} NoDup(m: Merge, d: Decision, w: Walk, k: nat, c: Content, j: nat)
    requires Emittable(m, d, w) && k < |d.pools| && j <= |d.pools|
    ensures DupPath(m, d, w, k, c, j).None? <==> forall i: nat :: j <= i < |d.pools| ==> !Copyable(m, d, w, k, c, i)
    decreases |d.pools| - j
  {
    hide Emittable, Copyable, Anchor;
    if j < |d.pools| { NoDup(m, d, w, k, c, j + 1); }
  }

  /** A clean pool with a content that none of its names brings from from, and that onto holds in
      no object the pool, or, for a pool that keeps none, another pool keeps. */
  ghost predicate Bare(m: Merge, d: Decision, w: Walk, k: nat)
    requires Emittable(m, d, w) && k < |d.pools| && 0 <= d.pools[k].group < |d.flags|
  {
    && d.flags[d.pools[k].group] == {} && d.pools[k].content.Some?
    && var c := d.pools[k].content.value;
       var q := Keeps(m, d, w, k);
       && (forall y :: y in d.pools[k].names ==> !Offers(m, c, y))
       && (if q != -1 then m.onto.pools[q].content != c else forall i: nat :: i < |d.pools| ==> !Copyable(m, d, w, k, c, i))
  }

  ghost predicate SomeBare(m: Merge, d: Decision, w: Walk)
    requires Emittable(m, d, w)
  {
    exists k: nat :: k < |d.pools| && 0 <= d.pools[k].group < |d.flags| && Bare(m, d, w, k)
  }

  lemma BareAnchor(m: Merge, d: Decision, w: Walk, k: nat)
    requires Emittable(m, d, w) && k < |d.pools|
    ensures 0 <= d.pools[k].group < |d.flags|
    ensures ActOf(m, d, w, Anchor(m, d, w, k)) == NoSource <==> Bare(m, d, w, k)
  {
    hide Merge.Valid, Walk.Valid, First, Keeps, Offers, Copyable;
    assert PoolListed(m, d, k);
    var a := Anchor(m, d, w, k);
    AnchorIsFirst(m, d, w, k);
    assert a in d.pools[k].names;
    if d.pools[k].content.Some? {
      NoOffer(m, w, d.pools[k].names, d.pools[k].content.value);
      NoDup(m, d, w, k, d.pools[k].content.value, 0);
    }
  }

  /** Emission fails exactly when some pool is bare. */
  lemma SourcelessIffBare(m: Merge, d: Decision, w: Walk)
    requires Emittable(m, d, w)
    ensures Sourceless(m, d, w, |w.order|) <==> SomeBare(m, d, w)
  {
    hide Merge.Valid, First, Keeps, Offers, Copyable, Bare, AnchorAct, LostAct;
    if SomeBare(m, d, w) {
      var k: nat :| k < |d.pools| && 0 <= d.pools[k].group < |d.flags| && Bare(m, d, w, k);
      BareAnchor(m, d, w, k);
      var a := Anchor(m, d, w, k);
      assert w.order[w.ord[a]] == a;
    }
    if Sourceless(m, d, w, |w.order|) {
      OrderInTable(m, d, w);
      var j :| 0 <= j < |w.order| && ActOf(m, d, w, w.order[j]) == NoSource;
      var x := w.order[j];
      NoSourceAtAnchor(m, d, w, x);
      BareAnchor(m, d, w, d.resultOf[x]);
    }
  }

  lemma NoSourceAtAnchor(m: Merge, d: Decision, w: Walk, x: nat)
    requires Emittable(m, d, w) && x < m.n && ActOf(m, d, w, x) == NoSource
    ensures 0 <= d.resultOf[x] < |d.pools| && x == Anchor(m, d, w, d.resultOf[x])
  {
    hide Walk.Valid, First, Anchor, Keeps, AnchorAct;
  }

  // ----- two small merges

  const BEFORE := Content(File, 0, 0)
  const AFTER := Content(File, 1, 0)
  const LINK := Content(Symlink, 0, 0)
  const RELINK := Content(Symlink, 1, 0)
  const DEVICE := Content(CharDevice, 1, 0)
  const RENUMBERED := Content(CharDevice, 2, 0)

  function OnePool(names: seq<nat>, c: Content): Tree {
    Tree([Pool(names, c)], map x | x in names :: 0)
  }

  /** From gives both names of a symbolic link a new target and onto has not changed: the rebase
      retargets the first name and strands the second. */
  lemma RetargetStrands(m: Merge, t: Table, d: Decision, w: Walk)
    requires m == Merge(2, OnePool([0, 1], LINK), OnePool([0, 1], RELINK), OnePool([0, 1], LINK), m.strict)
    requires Ready(m, t, d, w) && w.order == [0, 1]
    ensures Emittable(m, d, w) && Stranded(m, d, w, 1)
  {
    hide DecisionFor, SameKinds;
    ReadyEmits(m, t, d, w);
    UnchangedOnto(m, t, d);
    var k := d.resultOf[0];
    assert m.from.Has(0) && m.from.Has(1) && d.resultOf[1] == k;
    assert PoolAt(d, 0).content == Some(RELINK);
    AnchorIsFirst(m, d, w, k);
    FirstIsFirst(m, d, w, 0);
    assert 0 in d.pools[k].names && 0 in m.onto.pools[0].names && w.ord[0] == 0;
    assert Anchor(m, d, w, k) == 0 && FirstOfOnto(m, w, 0) == 0;
  }

  /** From gives a device another number and onto has not changed: the list writes it, and the number
      stays. */
  lemma RenumberStays(m: Merge, t: Table, d: Decision, w: Walk, under: (nat, nat) -> bool)
    requires m == Merge(1, OnePool([0], DEVICE), OnePool([0], RENUMBERED), OnePool([0], DEVICE), m.strict)
    requires Ready(m, t, d, w) && w.order == [0]
    ensures Emittable(m, d, w) && Lines(m, d, w, 1) == [Action(Write(0), 0)]
    ensures StoreOf(m.onto).Valid() && SourcesOf(m, under).Valid()
    ensures var o := ApplyAll(SourcesOf(m, under), StoreOf(m.onto), [Action(Write(0), 0)]);
      o.Done? && o.store.at == map[0 := 0] && o.store.body == [DEVICE] && DEVICE != RENUMBERED
  {
    hide DecisionFor, SameKinds, Run;
    ReadyEmits(m, t, d, w);
    UnchangedOnto(m, t, d);
    var k := d.resultOf[0];
    assert m.from.Has(0) && PoolAt(d, 0).content == Some(RENUMBERED);
    ResultPoolClean(m, t, d, w, 0, 0);
    AnchorIsFirst(m, d, w, k);
    FirstIsFirst(m, d, w, 0);
    assert ActOf(m, d, w, 0) == Write(0);
    assert Lines(m, d, w, 0) == [];
    RunOne(m, under);
  }

  lemma RunOne(m: Merge, under: (nat, nat) -> bool)
    requires m.Valid() && m.n == 1 && m.from == OnePool([0], RENUMBERED) && m.onto == OnePool([0], DEVICE)
    ensures StoreOf(m.onto).Valid() && SourcesOf(m, under).Valid()
    ensures var o := ApplyAll(SourcesOf(m, under), StoreOf(m.onto), [Action(Write(0), 0)]);
      o.Done? && o.store.at == map[0 := 0] && o.store.body == [DEVICE]
  {
    var e, s, a := SourcesOf(m, under), StoreOf(m.onto), Action(Write(0), 0);
    assert [a][..0] == [];
    assert Run(e, s, []) == Done(s);
    assert Run(e, s, [a]) == Step(e, s, a);
    assert s.body == [DEVICE] && s.at == map[0 := 0];
    assert s.body[0 := DEVICE] == s.body;
  }

  /** From adds a second name to a file, sorted before it, and onto edits the file. */
  function LinkAndEdit(strict: bool): (m: Merge)
    ensures m.Valid()
  {
    Merge(2, OnePool([1], BEFORE), OnePool([0, 1], BEFORE), OnePool([1], AFTER), strict)
  }

  lemma EditedContent(m: Merge, t: Table)
    requires m == LinkAndEdit(m.strict) && Adopted(m, t)
    ensures |t| == 2 && t[1] == Is(AFTER)
  {
    assert SideValue(m, From, 1) == Same;
    assert SideValue(m, Onto, 1) == Lit(AFTER);
    assert Merged(m, 1) == Lit(AFTER);
    assert t[1] == Asked(m, t, 1);
  }

  lemma NoEventThere(m: Merge, t: Table, f: Class, x: nat)
    requires m == LinkAndEdit(m.strict) && |t| == 2 && t[1] == Is(AFTER)
    ensures !Event(m, t, f, x)
  {
    hide Merge.SameResult, Merge.SameClass, Merge.SameGroup;
    assert m.On(From, 1) && 1 in m.from.pools[m.At(From, 0)].names && m.Survives(1);
  }

  lemma CleanThere(m: Merge, t: Table, u: nat)
    requires m == LinkAndEdit(m.strict) && |t| == 2 && t[1] == Is(AFTER) && u < m.NodeCount()
    ensures Clean(m, t, u)
  {
    hide Event, Merge.SameGroup;
    forall f, x: nat ensures !EventIn(m, t, f, x, u) { NoEventThere(m, t, f, x); }
  }

  lemma OneResultThere(m: Merge)
    requires m == LinkAndEdit(m.strict)
    ensures m.Survives(0) && m.Survives(1) && m.SameResult(0, 1)
  {
    forall L | m.ResultRespecting(L) ensures L[0] == L[1] {
      assert 0 in m.from.pools[0].names && m.Settled(0) && !m.InBase(0);
      assert m.LumpPair(From, 0, 1);
    }
  }

  /** Emission is partial: this rebase has no conflict, and no list. */
  lemma EmissionCanFail(m: Merge, t: Table, d: Decision, w: Walk)
    requires m == LinkAndEdit(m.strict) && Ready(m, t, d, w) && w.order == [0, 1]
    ensures Emittable(m, d, w) && Sourceless(m, d, w, 2) && forall u: nat :: u < m.NodeCount() ==> d.flags[d.groupOf[u]] == {}
  {
    hide DecisionFor, SameKinds, Merge.SameResult, Merge.SameGroup, Holds, Flagged;
    ReadyEmits(m, t, d, w);
    DecidedThere(m, t, d, w);
    var k := d.resultOf[1];
    AnchorIsFirst(m, d, w, k);
    assert 0 in d.pools[k].names && w.ord[0] == 0;
    assert Anchor(m, d, w, k) == 0 && Keeps(m, d, w, k) == -1;
    forall y | y in d.pools[k].names ensures !Offers(m, AFTER, y) {}
    forall i: nat | i < |d.pools| ensures !Copyable(m, d, w, k, AFTER, i) { OnlyPoolThere(m, t, d, w, i); }
    assert PoolListed(m, d, k) && Bare(m, d, w, k);
    SourcelessIffBare(m, d, w);
  }

  lemma DecidedThere(m: Merge, t: Table, d: Decision, w: Walk)
    requires m == LinkAndEdit(m.strict) && Ready(m, t, d, w) && Emittable(m, d, w)
    ensures d.resultOf[0] == d.resultOf[1] && d.pools[d.resultOf[1]].content == Some(AFTER)
    ensures forall u: nat :: u < m.NodeCount() ==> d.flags[d.groupOf[u]] == {}
    ensures d.flags[d.pools[d.resultOf[1]].group] == {}
  {
    hide Merge.SameResult, Merge.SameGroup, Holds, Flagged, SameKinds, ContentRight;
    EditedContent(m, t);
    OneResultThere(m);
    forall u: nat | u < m.NodeCount() ensures d.flags[d.groupOf[u]] == {} {
      CleanThere(m, t, u);
      CleanNodeIsClean(m, t, d, u);
      assert CleanNode(d, u);
    }
    PoolAtHolds(m, t, d, 1);
    assert Holds(m, t, 1, AFTER) by { HoldsThere(m, t); }
  }

  lemma HoldsThere(m: Merge, t: Table)
    requires m == LinkAndEdit(m.strict) && |t| == 2 && t[1] == Is(AFTER)
    ensures Holds(m, t, 1, AFTER)
  {
    assert m.SameResult(1, 1);
    assert Speaks(m, t, 1, 1);
  }

  lemma OnlyPoolThere(m: Merge, t: Table, d: Decision, w: Walk, i: nat)
    requires m == LinkAndEdit(m.strict) && Ready(m, t, d, w) && Emittable(m, d, w) && i < |d.pools|
    requires d.resultOf[0] == d.resultOf[1]
    ensures i == d.resultOf[1]
  {
    hide Ready, Merge.SameResult, Walk.Valid;
    assert PoolListed(m, d, i);
    assert d.pools[i].names[0] < 2;
  }
}
