/** Compiler correctness: running an emitted list over onto's aliasing store reaches the decision. */
module Compile {
  import opened Trees
  import opened Manifest
  import opened Apply
  import opened Plan

  /** Onto's own store: every name holds its pool. */
  function StoreOf(g: Tree): Store {
    Store(g.poolOf, seq(|g.pools|, q requires 0 <= q < |g.pools| => g.pools[q].content), [])
  }

  lemma StartResumable(p: Plan)
    requires p.Valid()
    ensures StoreOf(p.onto).Valid() && Resumable(p, StoreOf(p.onto))
  {
    var s := StoreOf(p.onto);
    forall x: nat, y: nat | x in s.at && y in s.at && s.at[x] == s.at[y] && p.KindOf(x) == Directory ensures x == y {
      assert p.onto.PoolValid(s.at[x]);
    }
  }

  // ----- closing scopes

  lemma DropIsolated(p: Plan, s: Store, d: nat)
    requires p.Shaped() && Isolated(p, s) && p.Dying(d)
    ensures Isolated(p, s.Drop(d))
  {
  }

  lemma DropKept(p: Plan, s: Store, d: nat)
    requires p.Shaped() && s.Valid() && Keeping(p, s) && p.Dying(d)
    ensures Keeping(p, s.Drop(d))
  {
    forall x: nat | p.Stays(x) ensures KeptName(p, s.Drop(d), x) { assert KeptName(p, s, x); }
  }

  lemma DropShared(p: Plan, s: Store, d: nat)
    requires p.Shaped() && s.Valid() && SharedRight(p, s)
    ensures SharedRight(p, s.Drop(d))
  {
    hide Store.Valid, Plan.Shaped;
  }

  lemma DropTyped(p: Plan, s: Store, d: nat)
    requires p.Shaped() && Isolated(p, s) && Typed(p, s) && Isolated(p, s.Drop(d))
    ensures Typed(p, s.Drop(d))
  {
  }

  lemma DropSettled(p: Plan, s: Store, d: nat, x: nat)
    requires p.Shaped() && s.Valid() && p.Dying(d) && x < p.n && Settled(p, s, x)
    ensures Settled(p, s.Drop(d), x)
  {
  }

  /** A dying directory goes. */
  lemma DropKeeps(p: Plan, s: Store, d: nat)
    requires p.Valid() && Resumable(p, s) && p.Dying(d)
    ensures Resumable(p, s.Drop(d))
    ensures SettledKept(p, s, s.Drop(d))
  {
    hide Isolated, Keeping, SharedRight, Typed, Settled, Pended;
    IsolatedValid(p, s);
    DropIsolated(p, s, d);
    DropKept(p, s, d);
    DropShared(p, s, d);
    DropTyped(p, s, d);
    PendedOnly(p, s, s.Drop(d));
    forall x: nat | x < p.n && Settled(p, s, x) ensures Settled(p, s.Drop(d), x) { DropSettled(p, s, d, x); }
  }

  lemma IsolatedValid(p: Plan, s: Store)
    requires p.Shaped() && Isolated(p, s)
    ensures s.Valid()
  {
  }

  lemma PendedOnly(p: Plan, s: Store, s': Store)
    requires p.Shaped() && Pended(p, s) && |s'.pending| <= |s.pending| && s'.pending == s.pending[..|s'.pending|]
    ensures Pended(p, s')
  {
  }

  /** The pending directory on top goes off the stack when it is no longer a name. */
  lemma PopKeeps(p: Plan, s: Store)
    requires p.Valid() && Resumable(p, s) && s.pending != [] && s.pending[|s.pending| - 1] !in s.at
    ensures var s' := s.(pending := s.pending[..|s.pending| - 1]);
      Resumable(p, s') && SettledKept(p, s, s')
  {
    var s' := s.(pending := s.pending[..|s.pending| - 1]);
    SameTreeKeeps(p, s, s');
    PendedOnly(p, s, s');
    forall x: nat | x < p.n && Settled(p, s, x) ensures Settled(p, s', x) { PopSettled(p, s, x); }
  }

  /** The tree invariants do not look at the stack. */
  lemma SameTreeKeeps(p: Plan, s: Store, s': Store)
    requires p.Shaped() && Isolated(p, s) && Keeping(p, s) && SharedRight(p, s) && Typed(p, s)
    requires s'.at == s.at && s'.body == s.body
    ensures Isolated(p, s') && Keeping(p, s') && SharedRight(p, s') && Typed(p, s')
  {
    hide Store.Valid, Plan.Shaped;
    assert s.Valid() && s'.Valid() by { SameTreeValid(s, s'); IsolatedValid(p, s); }
    forall x: nat | p.Stays(x) ensures KeptName(p, s', x) { assert KeptName(p, s, x); }
  }

  lemma SameTreeValid(s: Store, s': Store)
    requires s'.at == s.at && s'.body == s.body
    ensures s'.Valid() == s.Valid()
  {
  }

  lemma PopSettled(p: Plan, s: Store, x: nat)
    requires p.Shaped() && s.Valid() && s.pending != [] && s.pending[|s.pending| - 1] !in s.at
    requires x < p.n && Settled(p, s, x)
    ensures Settled(p, s.(pending := s.pending[..|s.pending| - 1]), x)
  {
    var s' := s.(pending := s.pending[..|s.pending| - 1]);
    assert s.pending == s'.pending + [s.pending[|s.pending| - 1]];
    assert s'.Valid();
  }

  /** Nothing settled comes undone. */
  ghost predicate SettledKept(p: Plan, s: Store, s': Store)
    requires p.Shaped() && s.Valid() && s'.Valid()
  {
    forall x: nat :: x < p.n && Settled(p, s, x) ==> Settled(p, s', x)
  }

  lemma {:induction false} CloseKeeps(p: Plan, s: Store, next: Option<nat>, under: (nat, nat) -> bool)
    requires p.Valid() && Resumable(p, s)
    ensures var o := CloseTo(s, next, under);
      o.Done? && Resumable(p, o.store) && (next.None? ==> o.store.pending == []) && SettledKept(p, s, o.store)
    decreases |s.pending|
  {
    hide Isolated, Keeping, SharedRight, Typed, Pended, Settled, Plan.Valid, Plan.Shaped;
    if s.pending != [] {
      var d := s.pending[|s.pending| - 1];
      var rest := s.(pending := s.pending[..|s.pending| - 1]);
      if !(next.Some? && under(d, next.value)) {
        if d !in s.at {
          PopKeeps(p, s);
          CloseKeeps(p, rest, next, under);
        } else {
          PendedKind(p, s);
          DropKeeps(p, s, d);
          PopKeeps(p, s.Drop(d));
          assert rest.Drop(d) == s.Drop(d).(pending := rest.pending);
          CloseKeeps(p, rest.Drop(d), next, under);
        }
      }
    }
  }

  lemma PendedKind(p: Plan, s: Store)
    requires p.Valid() && Resumable(p, s) && s.pending != [] && s.pending[|s.pending| - 1] in s.at
    ensures p.Dying(s.pending[|s.pending| - 1]) && s.ContentAt(s.pending[|s.pending| - 1]).kind == Directory
  {
  }

  // ----- a new object at an anchor

  /** The anchor of a pool that keeps no object, or whose kept object cannot take the new target. */
  ghost predicate MayMake(p: Plan, x: nat, c: Content)
    requires p.Shaped()
  {
    && p.Wanted(x) && x == p.anchor[p.pool[x]] && c == p.goal[p.pool[x]]
    && (p.keeps[p.pool[x]] == -1 || p.Relinks(p.pool[x]))
  }

  lemma MakeIsolated(p: Plan, s: Store, x: nat, c: Content)
    requires p.Shaped() && Isolated(p, s) && p.Wanted(x)
    ensures Isolated(p, s.Make(x, c))
  {
  }

  lemma MakeKept(p: Plan, s: Store, x: nat, c: Content)
    requires p.Shaped() && s.Valid() && Keeping(p, s) && MayMake(p, x, c)
    ensures Keeping(p, s.Make(x, c))
  {
    forall y: nat | p.Stays(y) ensures KeptName(p, s.Make(x, c), y) { assert KeptName(p, s, y); }
  }

  lemma MakeShared(p: Plan, s: Store, x: nat, c: Content)
    requires p.Shaped() && s.Valid() && SharedRight(p, s) && p.Objects() <= |s.body| && p.Wanted(x)
    ensures SharedRight(p, s.Make(x, c))
  {
    hide Plan.Shaped;
  }

  lemma MakeTyped(p: Plan, s: Store, x: nat, c: Content)
    requires p.Valid() && Isolated(p, s) && Typed(p, s) && Isolated(p, s.Make(x, c)) && p.Wanted(x) && c == p.goal[p.pool[x]]
    ensures Typed(p, s.Make(x, c))
  {
    var s' := s.Make(x, c);
    forall y: nat | y in s'.at ensures s'.body[s'.at[y]].kind == p.KindOf(y) {
      if y != x { assert s'.body[s'.at[y]] == s.body[s.at[y]]; }
    }
  }

  lemma MakeSettled(p: Plan, s: Store, x: nat, c: Content, y: nat)
    requires p.Valid() && s.Valid() && p.Wanted(x) && y < p.n && y != x && Settled(p, s, y)
    requires p.Wanted(y) ==> p.anchor[p.pool[y]] != x
    ensures Settled(p, s.Make(x, c), y)
  {
  }

  lemma MakeSettlesItself(p: Plan, s: Store, x: nat, c: Content)
    requires p.Shaped() && s.Valid() && p.Objects() <= |s.body| && MayMake(p, x, c)
    ensures Settled(p, s.Make(x, c), x)
  {
  }

  // ----- new bytes for the object of an anchor

  ghost predicate MayPour(p: Plan, s: Store, x: nat, c: Content)
    requires p.Shaped()
  {
    && p.Wanted(x) && x == p.anchor[p.pool[x]] && c == p.Ends(p.pool[x]) && x in s.at
    && (s.at[x] >= p.Objects() || (s.at[x] == p.keeps[p.pool[x]] && !p.Relinks(p.pool[x])))
  }

  lemma PourIsolated(p: Plan, s: Store, x: nat, c: Content)
    requires p.Valid() && Isolated(p, s) && MayPour(p, s, x, c)
    ensures Isolated(p, s.Pour(x, c))
  {
    var s' := s.Pour(x, c);
    forall y: nat | p.onto.Has(y) && !p.clean[y] ensures s'.body[p.onto.poolOf[y]] == p.onto.ContentAt(y) {
      assert p.clean[x] && (s.at[x] < p.Objects() ==> p.onto.Has(x) && p.onto.poolOf[x] == s.at[x]);
    }
  }

  lemma PourKept(p: Plan, s: Store, x: nat, c: Content)
    requires p.Valid() && s.Valid() && Keeping(p, s) && MayPour(p, s, x, c)
    ensures Keeping(p, s.Pour(x, c))
  {
    forall y: nat | p.Stays(y) ensures KeptName(p, s.Pour(x, c), y) { assert KeptName(p, s, y); }
  }

  lemma PourShared(p: Plan, s: Store, x: nat, c: Content)
    requires p.Shaped() && s.Valid() && x in s.at && SharedRight(p, s)
    ensures SharedRight(p, s.Pour(x, c))
  {
  }

  lemma PourTyped(p: Plan, s: Store, x: nat, c: Content)
    requires p.Valid() && Isolated(p, s) && Typed(p, s) && MayPour(p, s, x, c) && Isolated(p, s.Pour(x, c))
    ensures Typed(p, s.Pour(x, c))
  {
  }

  /** No anchor already settled shares the object. */
  lemma PourSettled(p: Plan, s: Store, x: nat, c: Content, y: nat)
    requires p.Valid() && s.Valid() && SharedRight(p, s) && MayPour(p, s, x, c) && y < p.n && y != x && Settled(p, s, y)
    ensures Settled(p, s.Pour(x, c), y)
  {
    if p.Wanted(y) && y == p.anchor[p.pool[y]] && s.at[y] == s.at[x] { OneAnchor(p, s, x, c, y); }
  }

  /** An object holds one settled anchor. */
  lemma OneAnchor(p: Plan, s: Store, x: nat, c: Content, y: nat)
    requires p.Valid() && s.Valid() && SharedRight(p, s) && MayPour(p, s, x, c) && y < p.n && Settled(p, s, y)
    requires p.Wanted(y) && y == p.anchor[p.pool[y]] && s.at[y] == s.at[x]
    ensures y == x
  {
  }

  lemma PourSettlesItself(p: Plan, s: Store, x: nat, c: Content)
    requires p.Valid() && s.Valid() && MayPour(p, s, x, c)
    requires p.keeps[p.pool[x]] == -1 || p.Relinks(p.pool[x]) ==> s.at[x] >= p.Objects()
    ensures Settled(p, s.Pour(x, c), x)
  {
  }

  // ----- a link to a settled anchor

  ghost predicate MayLink(p: Plan, s: Store, x: nat, a: nat)
    requires p.Shaped() && s.Valid()
  {
    p.Wanted(x) && a == p.anchor[p.pool[x]] && x != a && !p.Stays(x) && p.Wanted(a) && Settled(p, s, a)
  }

  function Linked(s: Store, x: nat, a: nat): Store
    requires a in s.at
  {
    s.(at := s.at[x := s.at[a]])
  }

  lemma LinkIsolated(p: Plan, s: Store, x: nat, a: nat)
    requires p.Shaped() && Isolated(p, s) && MayLink(p, s, x, a)
    ensures Isolated(p, Linked(s, x, a))
  {
  }

  lemma LinkKept(p: Plan, s: Store, x: nat, a: nat)
    requires p.Shaped() && s.Valid() && Keeping(p, s) && MayLink(p, s, x, a)
    ensures Keeping(p, Linked(s, x, a))
  {
    forall y: nat | p.Stays(y) ensures KeptName(p, Linked(s, x, a), y) { assert KeptName(p, s, y); }
  }

  /** A settled anchor on an onto object is on the one its pool keeps. */
  lemma KeptAnchor(p: Plan, s: Store, x: nat, a: nat)
    requires p.Valid() && s.Valid() && Keeping(p, s) && MayLink(p, s, x, a)
    ensures a in s.at && (s.at[a] < p.Objects() ==> p.keeps[p.pool[x]] == s.at[a])
  {
    if s.at[a] < p.Objects() {
      assert p.Stays(a) && KeptName(p, s, a);
    }
  }

  lemma LinkShared(p: Plan, s: Store, x: nat, a: nat)
    requires p.Shaped() && s.Valid() && SharedRight(p, s) && MayLink(p, s, x, a)
    requires a in s.at && (s.at[a] < p.Objects() ==> p.keeps[p.pool[x]] == s.at[a])
    ensures SharedRight(p, Linked(s, x, a))
  {
    hide Settled;
  }

  lemma LinkTyped(p: Plan, s: Store, x: nat, a: nat)
    requires p.Valid() && Isolated(p, s) && Typed(p, s) && MayLink(p, s, x, a) && Isolated(p, Linked(s, x, a))
    ensures Typed(p, Linked(s, x, a)) && p.KindOf(x) != Directory
  {
    assert p.KindOf(x) == p.goal[p.pool[x]].kind == p.KindOf(a);
  }

  lemma LinkSettled(p: Plan, s: Store, x: nat, a: nat, y: nat)
    requires p.Valid() && s.Valid() && MayLink(p, s, x, a) && y < p.n && y != x && Settled(p, s, y)
    ensures Settled(p, Linked(s, x, a), y)
  {
  }

  lemma LinkSettlesItself(p: Plan, s: Store, x: nat, a: nat)
    requires p.Valid() && s.Valid() && MayLink(p, s, x, a)
    ensures Settled(p, Linked(s, x, a), x)
  {
  }

  // ----- one line

  /** The name on line i, with every line before it settled. */
  ghost predicate At(p: Plan, s: Store, i: nat, x: nat)
    requires p.Shaped() && s.Valid()
  {
    i < |p.order| && x == p.order[i] && SettledTo(p, s, i)
  }

  /** Settled names before line i are other names, with other anchors than x. */
  lemma EarlierNames(p: Plan, s: Store, i: nat, x: nat, j: nat)
    requires p.Valid() && s.Valid() && At(p, s, i, x) && j < i
    ensures var y := p.order[j]; y < p.n && y != x && Settled(p, s, y) && (p.Wanted(y) ==> p.anchor[p.pool[y]] != x)
  {
    var y := p.order[j];
    assert p.pos[y] == j && p.pos[x] == i;
  }

  lemma StepMake(p: Plan, s: Store, i: nat, x: nat, c: Content)
    requires p.Valid() && Resumable(p, s) && At(p, s, i, x) && MayMake(p, x, c)
    ensures Resumable(p, s.Make(x, c)) && SettledTo(p, s.Make(x, c), i + 1)
  {
    hide Isolated, Keeping, SharedRight, Typed, Settled, Pended, MayMake;
    IsolatedValid(p, s);
    MayMakeIs(p, s, x, c);
    MakeIsolated(p, s, x, c);
    MakeKept(p, s, x, c);
    MakeShared(p, s, x, c);
    MakeTyped(p, s, x, c);
    PendedOnly(p, s, s.Make(x, c));
    forall j: nat | j < i + 1 ensures Settled(p, s.Make(x, c), p.order[j]) {
      if j < i {
        EarlierNames(p, s, i, x, j);
        MakeSettled(p, s, x, c, p.order[j]);
      } else {
        MakeSettlesItself(p, s, x, c);
      }
    }
  }

  lemma MayMakeIs(p: Plan, s: Store, x: nat, c: Content)
    requires p.Shaped() && Isolated(p, s) && MayMake(p, x, c)
    ensures p.Wanted(x) && c == p.goal[p.pool[x]] && p.Objects() <= |s.body|
  {
  }

  lemma StepPour(p: Plan, s: Store, i: nat, x: nat, c: Content)
    requires p.Valid() && Resumable(p, s) && At(p, s, i, x) && MayPour(p, s, x, c)
    requires p.keeps[p.pool[x]] == -1 || p.Relinks(p.pool[x]) ==> s.at[x] >= p.Objects()
    ensures Resumable(p, s.Pour(x, c)) && SettledTo(p, s.Pour(x, c), i + 1)
  {
    hide Isolated, Keeping, SharedRight, Typed, Settled, Pended;
    IsolatedValid(p, s);
    PourIsolated(p, s, x, c);
    PourKept(p, s, x, c);
    PourShared(p, s, x, c);
    PourTyped(p, s, x, c);
    PendedOnly(p, s, s.Pour(x, c));
    forall j: nat | j < i + 1 ensures Settled(p, s.Pour(x, c), p.order[j]) {
      if j < i {
        EarlierNames(p, s, i, x, j);
        PourSettled(p, s, x, c, p.order[j]);
      } else {
        PourSettlesItself(p, s, x, c);
      }
    }
  }

  /** The anchor of a linked name is settled by the time its line is reached. */
  lemma AnchorSettled(p: Plan, s: Store, i: nat, x: nat)
    requires p.Valid() && s.Valid() && At(p, s, i, x) && p.Wanted(x) && x != p.anchor[p.pool[x]] && !p.Stays(x)
    ensures MayLink(p, s, x, p.anchor[p.pool[x]])
  {
    var a := p.anchor[p.pool[x]];
    assert p.pos[a] < p.pos[x] == i && p.order[p.pos[a]] == a;
  }

  lemma LinkSettlesTo(p: Plan, s: Store, i: nat, x: nat, a: nat)
    requires p.Valid() && Resumable(p, s) && At(p, s, i, x) && MayLink(p, s, x, a)
    ensures SettledTo(p, Linked(s, x, a), i + 1)
  {
    hide Isolated, Keeping, SharedRight, Typed, Settled, Pended;
    IsolatedValid(p, s);
    KeptAnchor(p, s, x, a);
    forall j: nat | j < i + 1 ensures Settled(p, Linked(s, x, a), p.order[j]) {
      if j < i {
        EarlierNames(p, s, i, x, j);
        LinkSettled(p, s, x, a, p.order[j]);
      } else {
        LinkSettlesItself(p, s, x, a);
      }
    }
  }

  lemma StepLink(p: Plan, s: Store, i: nat, x: nat, a: nat)
    requires p.Valid() && Resumable(p, s) && At(p, s, i, x) && MayLink(p, s, x, a)
    ensures DoLn(s, x, a).Done? && Resumable(p, DoLn(s, x, a).store) && SettledTo(p, DoLn(s, x, a).store, i + 1)
  {
    hide Isolated, Keeping, SharedRight, Typed, Settled, Pended, SettledTo;
    IsolatedValid(p, s);
    KeptAnchor(p, s, x, a);
    LinkIsolated(p, s, x, a);
    LinkKept(p, s, x, a);
    LinkShared(p, s, x, a);
    LinkTyped(p, s, x, a);
    LinkKinds(p, s, x, a);
    var s' := Linked(s, x, a);
    PendedOnly(p, s, s');
    assert x in s.at && s.at[x] == s.at[a] ==> s' == s by { if x in s.at && s.at[x] == s.at[a] { assert s'.at == s.at; } }
    LinkSettlesTo(p, s, i, x, a);
  }

  lemma LinkKinds(p: Plan, s: Store, x: nat, a: nat)
    requires p.Valid() && Isolated(p, s) && Typed(p, s) && MayLink(p, s, x, a) && p.KindOf(x) != Directory
    ensures x in s.at ==> s.ContentAt(x).kind != Directory
    ensures a in s.at && s.ContentAt(a).kind != Directory
  {
    assert p.KindOf(x) == p.goal[p.pool[x]].kind == p.KindOf(a);
  }

  lemma StepDrop(p: Plan, s: Store, i: nat, x: nat)
    requires p.Valid() && Resumable(p, s) && At(p, s, i, x) && p.Dying(x)
    ensures Resumable(p, s.Drop(x)) && SettledTo(p, s.Drop(x), i + 1)
  {
    hide Isolated, Keeping, SharedRight, Typed, Settled, Pended;
    IsolatedValid(p, s);
    DropKeeps(p, s, x);
    assert Settled(p, s.Drop(x), x) by { DropSettlesItself(p, s, x); }
  }

  lemma DropSettlesItself(p: Plan, s: Store, x: nat)
    requires p.Shaped() && s.Valid() && p.Dying(x)
    ensures Settled(p, s.Drop(x), x)
  {
  }

  lemma StepPend(p: Plan, s: Store, i: nat, x: nat)
    requires p.Valid() && Resumable(p, s) && At(p, s, i, x) && p.Dying(x) && p.onto.ContentAt(x).kind == Directory
    ensures var s' := s.(pending := s.pending + [x]); Resumable(p, s') && SettledTo(p, s', i + 1)
  {
    hide Isolated, Keeping, SharedRight, Typed;
    IsolatedValid(p, s);
    var s' := s.(pending := s.pending + [x]);
    SameTreeKeeps(p, s, s');
    assert s'.Valid();
  }

  /** A name with no line, or a mark, is settled as it stands. */
  lemma StepNothing(p: Plan, e: Sources, s: Store, i: nat, x: nat, a: Act)
    requires p.Valid() && Resumable(p, s) && At(p, s, i, x) && p.Fits(e, x, a) && (a.Nothing? || a.Mark?)
    ensures SettledTo(p, s, i + 1)
  {
    hide Isolated, SharedRight, Typed, Pended;
    IsolatedValid(p, s);
    if p.Wanted(x) {
      var k := p.pool[x];
      assert p.Stays(x);
      assert KeptName(p, s, x);
      if x != p.anchor[k] {
        assert p.Stays(p.anchor[k]) && KeptName(p, s, p.anchor[k]);
      }
    }
  }

  /** A removed name is a leaf where its line says so. */
  lemma LostKind(p: Plan, s: Store, x: nat)
    requires p.Valid() && Resumable(p, s) && p.Dying(x) && x in s.at
    ensures s.ContentAt(x).kind == p.onto.ContentAt(x).kind
  {
  }

  // ----- the anchor's line, whichever it is

  lemma ResumableValid(p: Plan, s: Store)
    requires p.Shaped() && Resumable(p, s)
    ensures s.Valid()
  {
  }

  /** A directory that a cp finds in its way is one an earlier run made. */
  lemma CpAnchor(p: Plan, s: Store, i: nat, x: nat, c: Content)
    requires p.Valid() && Resumable(p, s) && At(p, s, i, x)
    requires p.Wanted(x) && x == p.anchor[p.pool[x]] && p.keeps[p.pool[x]] == -1 && c == p.goal[p.pool[x]]
    ensures DoCp(s, x, c).Done? && Resumable(p, DoCp(s, x, c).store) && SettledTo(p, DoCp(s, x, c).store, i + 1)
  {
    hide Keeping, Settled, Pended, Resumable;
    ResumableValid(p, s);
    if x in s.at && s.ContentAt(x).kind == Directory && c.kind == Directory {
      MadeBefore(p, s, x);
      StepPour(p, s, i, x, c);
    } else {
      StepMake(p, s, i, x, c);
    }
  }

  lemma MadeBefore(p: Plan, s: Store, x: nat)
    requires p.Valid() && Resumable(p, s) && x in s.at && s.ContentAt(x).kind == Directory
    requires p.Wanted(x) && x == p.anchor[p.pool[x]] && p.keeps[p.pool[x]] == -1
    ensures s.at[x] >= p.Objects()
  {
    assert p.KindOf(x) == Directory;
  }

  lemma WriteAnchor(p: Plan, s: Store, i: nat, x: nat, c: Content)
    requires p.Valid() && Resumable(p, s) && At(p, s, i, x)
    requires p.Wanted(x) && x == p.anchor[p.pool[x]] && 0 <= p.keeps[p.pool[x]] < p.Objects() && c == p.goal[p.pool[x]]
    ensures DoWrite(s, x, c).Done? && Resumable(p, DoWrite(s, x, c).store) && SettledTo(p, DoWrite(s, x, c).store, i + 1)
  {
    hide Settled, Pended, Resumable;
    ResumableValid(p, s);
    var k := p.pool[x];
    WriteKind(p, s, x);
    if c.kind == Symlink && s.ContentAt(x).text != c.text {
      StepMake(p, s, i, x, c);
    } else {
      StepPour(p, s, i, x, Rewritten(s.ContentAt(x), c));
    }
  }

  /** What a write finds at a kept anchor: the type it brings, and the object it expects. */
  lemma WriteKind(p: Plan, s: Store, x: nat)
    requires p.Valid() && Resumable(p, s)
    requires p.Wanted(x) && x == p.anchor[p.pool[x]] && 0 <= p.keeps[p.pool[x]] < p.Objects()
    ensures x in s.at && s.ContentAt(x).kind == p.goal[p.pool[x]].kind
    ensures !p.Relinks(p.pool[x]) ==> s.at[x] == p.keeps[p.pool[x]]
    ensures !p.Relinks(p.pool[x]) ==>
      s.ContentAt(x) == p.onto.pools[p.keeps[p.pool[x]]].content || s.ContentAt(x) == p.Ends(p.pool[x])
    ensures p.Relinks(p.pool[x]) ==> s.at[x] >= p.Objects() || s.ContentAt(x).text != p.goal[p.pool[x]].text
  {
    assert p.Stays(x) && KeptName(p, s, x);
    assert p.KindOf(x) == p.goal[p.pool[x]].kind;
  }

  // ----- the whole list

  lemma PerformKeeps(p: Plan, e: Sources, s: Store, i: nat, a: Act)
    requires p.Valid() && e.Valid() && Resumable(p, s) && i < |p.order| && s.Valid() && SettledTo(p, s, i)
    requires p.Fits(e, p.order[i], a) && !a.Nothing? && !a.Mark?
    ensures var o := Perform(e, s, Action(a, p.order[i]));
      o.Done? && Resumable(p, o.store) && SettledTo(p, o.store, i + 1)
  {
    hide Resumable, Settled, SettledTo, DoCp, DoWrite, DoLn;
    var x := p.order[i];
    if p.pool[x] == -1 {
      if a.dir { StepPend(p, s, i, x); } else {
        if x in s.at { LostKind(p, s, x); } else { assert s.Drop(x) == s; }
        StepDrop(p, s, i, x);
      }
    } else if x != p.anchor[p.pool[x]] {
      AnchorSettled(p, s, i, x);
      StepLink(p, s, i, x, p.anchor[p.pool[x]]);
    } else if p.keeps[p.pool[x]] == -1 {
      CpAnchor(p, s, i, x, p.goal[p.pool[x]]);
    } else {
      KeepsInRange(p, p.pool[x]);
      WriteAnchor(p, s, i, x, p.goal[p.pool[x]]);
    }
  }

  lemma KeepsInRange(p: Plan, k: nat)
    requires p.Valid() && k < |p.anchor| && p.keeps[k] != -1
    ensures 0 <= p.keeps[k] < p.Objects()
  {
  }

  lemma LineKeeps(p: Plan, e: Sources, acts: seq<Act>, s: Store, i: nat)
    requires p.Valid() && Carries(p, e, acts) && Resumable(p, s) && i < |p.order| && s.Valid() && SettledTo(p, s, i)
    ensures acts[i].Nothing? ==> SettledTo(p, s, i + 1)
    ensures !acts[i].Nothing? ==>
      var o := Step(e, s, Action(acts[i], p.order[i])); o.Done? && Resumable(p, o.store) && SettledTo(p, o.store, i + 1)
  {
    hide Resumable, Settled, Perform;
    var x := p.order[i];
    if acts[i].Nothing? || acts[i].Mark? {
      StepNothing(p, e, s, i, x, acts[i]);
    } else {
      CloseKeeps(p, s, Some(x), e.under);
      var s' := CloseTo(s, Some(x), e.under).store;
      forall j: nat | j < i ensures Settled(p, s', p.order[j]) {}
      PerformKeeps(p, e, s', i, acts[i]);
    }
  }

  /** The list of one more name is the list before, and the name's action unless it has none. */
  lemma ListGrows(p: Plan, acts: seq<Act>, i: nat)
    requires i < |acts| == |p.order|
    ensures acts[i].Nothing? ==> ListOf(p, acts, i + 1) == ListOf(p, acts, i)
    ensures !acts[i].Nothing? ==> ListOf(p, acts, i + 1) == ListOf(p, acts, i) + [Action(acts[i], p.order[i])]
  {
  }

  lemma RunGrows(e: Sources, s: Store, list: seq<Action>, a: Action)
    requires e.Valid() && s.Valid()
    ensures Run(e, s, list).Failed? ==> Run(e, s, list + [a]).Failed?
    ensures Run(e, s, list).Done? ==> Run(e, s, list + [a]) == Step(e, Run(e, s, list).store, a)
  {
    hide Step;
    assert (list + [a])[..|list|] == list;
  }

  lemma RunLine(p: Plan, e: Sources, acts: seq<Act>, s: Store, i: nat, before: Outcome)
    requires p.Valid() && Carries(p, e, acts) && s.Valid() && i < |p.order|
    requires before.Done? && before == Run(e, s, ListOf(p, acts, i))
    requires Resumable(p, before.store) && SettledTo(p, before.store, i)
    ensures var o := Run(e, s, ListOf(p, acts, i + 1)); o.Done? && Resumable(p, o.store) && SettledTo(p, o.store, i + 1)
  {
    hide Resumable, Settled, Step, SettledTo, Run, ListOf, Plan.Fits, Plan.Shaped;
    LineKeeps(p, e, acts, before.store, i);
    ListGrows(p, acts, i);
    RunGrows(e, s, ListOf(p, acts, i), Action(acts[i], p.order[i]));
  }

  /** From any resumable store, the list runs without a failure, every line settling its name. */
  lemma {:induction false} RunKeeps(p: Plan, e: Sources, acts: seq<Act>, s: Store, i: nat)
    requires p.Valid() && Carries(p, e, acts) && Resumable(p, s) && s.Valid() && i <= |p.order|
    ensures var o := Run(e, s, ListOf(p, acts, i)); o.Done? && Resumable(p, o.store) && SettledTo(p, o.store, i)
  {
    hide Resumable, Settled, Step, Plan.Fits, Plan.Shaped;
    if i > 0 {
      RunKeeps(p, e, acts, s, i - 1);
      RunLine(p, e, acts, s, i - 1, Run(e, s, ListOf(p, acts, i - 1)));
    }
  }

  /** The store a finished run leaves. */
  ghost predicate Finished(p: Plan, s: Store)
    requires p.Shaped()
  {
    Resumable(p, s) && s.Valid() && SettledTo(p, s, |p.order|) && s.pending == []
  }

  lemma ApplyFinishes(p: Plan, e: Sources, acts: seq<Act>, s: Store)
    requires p.Valid() && Carries(p, e, acts) && Resumable(p, s) && s.Valid()
    ensures var o := ApplyAll(e, s, ListOf(p, acts, |p.order|)); o.Done? && Finished(p, o.store)
  {
    hide Resumable, Settled, Run;
    RunKeeps(p, e, acts, s, |p.order|);
    var end := Run(e, s, ListOf(p, acts, |p.order|)).store;
    CloseKeeps(p, end, None, e.under);
    forall j: nat | j < |p.order| ensures Settled(p, CloseTo(end, None, e.under).store, p.order[j]) {}
  }

  // ----- what a finished store is

  /** The store is the decision's tree, in the clean groups. */
  ghost predicate Realised(p: Plan, s: Store)
    requires p.Shaped() && s.Valid()
  {
    && (forall x: nat :: x < p.n && p.clean[x] ==> (x in s.at <==> p.pool[x] != -1))
    && (forall x: nat, y: nat :: p.Wanted(x) && p.Wanted(y) ==> (s.at[x] == s.at[y] <==> p.pool[x] == p.pool[y]))
    && (forall x: nat :: p.Wanted(x) ==> s.body[s.at[x]] == p.goal[p.pool[x]])
  }

  /** A name is left behind on a symbolic link whose write could not keep the object. */
  predicate LeftBehind(p: Plan, x: nat)
    requires p.Shaped()
  {
    p.Stays(x) && x != p.anchor[p.pool[x]] && p.Relinks(p.pool[x])
  }

  lemma FinishedName(p: Plan, s: Store, x: nat)
    requires p.Valid() && Finished(p, s) && x < p.n
    ensures p.Dying(x) ==> x !in s.at
    ensures p.Wanted(x) ==> x in s.at && p.anchor[p.pool[x]] in s.at
    ensures p.Wanted(x) ==> var k := p.pool[x]; var a := p.anchor[k];
      && s.body[s.at[a]] == p.Ends(k)
      && (if LeftBehind(p, x) then s.at[x] == p.keeps[k] < p.Objects() else s.at[x] == s.at[a])
      && (s.at[a] == p.keeps[k] || s.at[a] >= p.Objects())
      && (p.Relinks(k) ==> s.at[a] >= p.Objects())
  {
    if p.onto.Has(x) || p.pool[x] != -1 { assert p.order[p.pos[x]] == x; assert Settled(p, s, x); }
    if p.Wanted(x) {
      var a := p.anchor[p.pool[x]];
      assert p.order[p.pos[a]] == a && Settled(p, s, a);
      assert p.Stays(x) ==> KeptName(p, s, x);
      assert p.Stays(a) ==> KeptName(p, s, a);
    }
  }

  /** Names of different result pools never end on one object. */
  lemma PoolsApart(p: Plan, s: Store, x: nat, y: nat)
    requires p.Valid() && Finished(p, s) && p.Wanted(x) && p.Wanted(y) && p.pool[x] != p.pool[y]
    ensures x in s.at && y in s.at && s.at[x] != s.at[y]
  {
    hide Isolated, Keeping, Typed, Settled, Pended, SettledTo;
    FinishedName(p, s, x);
    FinishedName(p, s, y);
  }

  /** Every line does what it is for: no name is left behind, and no pool is stuck. */
  ghost predicate Faithful(p: Plan)
    requires p.Shaped()
  {
    (forall x: nat :: x < p.n ==> !LeftBehind(p, x)) && (forall k: nat :: k < |p.anchor| ==> !p.Stuck(k))
  }

  /** In the clean groups a finished store is the decision's tree exactly when no name was left
      behind on a symbolic link that had to be made again, and no pool had to change a text that a
      write leaves. */
  lemma FinishedRealises(p: Plan, s: Store)
    requires p.Valid() && Finished(p, s)
    ensures Realised(p, s) <==> Faithful(p)
  {
    hide Resumable, Settled, SettledTo;
    forall x: nat | x < p.n && p.clean[x] ensures x in s.at <==> p.pool[x] != -1 {
      FinishedName(p, s, x);
      PresentHas(p, s, x);
    }
    forall x: nat | p.Wanted(x) ensures x in s.at { FinishedName(p, s, x); }
    if x: nat :| x < p.n && LeftBehind(p, x) {
      FinishedName(p, s, x);
      FinishedName(p, s, p.anchor[p.pool[x]]);
      assert p.Wanted(p.anchor[p.pool[x]]);
    } else if k: nat :| k < |p.anchor| && p.Stuck(k) {
      FinishedName(p, s, p.anchor[k]);
      assert p.Wanted(p.anchor[k]);
    } else {
      forall x: nat, y: nat | p.Wanted(x) && p.Wanted(y) ensures s.at[x] == s.at[y] <==> p.pool[x] == p.pool[y] {
        FinishedName(p, s, x);
        FinishedName(p, s, y);
        if p.pool[x] != p.pool[y] { PoolsApart(p, s, x, y); }
      }
      forall x: nat | p.Wanted(x) ensures s.body[s.at[x]] == p.goal[p.pool[x]] {
        FinishedName(p, s, x);
        assert !p.Stuck(p.pool[x]);
      }
    }
  }

  lemma PresentHas(p: Plan, s: Store, x: nat)
    requires p.Valid() && Resumable(p, s)
    ensures x in s.at ==> p.onto.Has(x) || p.Wanted(x)
  {
  }

  /** Compiler correctness: the list applied to onto's own store succeeds, leaves every name of a
      conflicted group on its object with its content, and gives the clean groups the decision's
      names, pools and contents if and only if no name is left behind and no pool is stuck. */
  lemma CompilerCorrect(p: Plan, e: Sources, acts: seq<Act>)
    requires p.Valid() && Carries(p, e, acts)
    ensures StoreOf(p.onto).Valid()
    ensures var o := ApplyAll(e, StoreOf(p.onto), ListOf(p, acts, |p.order|));
      && o.Done? && Isolated(p, o.store)
      && (Realised(p, o.store) <==> Faithful(p))
  {
    StartResumable(p);
    ApplyFinishes(p, e, acts, StoreOf(p.onto));
    FinishedRealises(p, ApplyAll(e, StoreOf(p.onto), ListOf(p, acts, |p.order|)).store);
  }

  // ----- resume

  /** The same tree, up to the names of its objects. */
  ghost predicate SameTree(s: Store, s': Store)
    requires s.Valid() && s'.Valid()
  {
    && s.at.Keys == s'.at.Keys
    && (forall x: nat, y: nat :: x in s.at && y in s.at ==> (s.at[x] == s.at[y] <==> s'.at[x] == s'.at[y]))
    && (forall x: nat :: x in s.at ==> s.body[s.at[x]] == s'.body[s'.at[x]])
  }

  /** A name of a conflicted group in a finished store. */
  lemma FinishedFlagged(p: Plan, s: Store, x: nat)
    requires p.Valid() && Finished(p, s) && x < p.n && !p.clean[x]
    ensures x in s.at <==> p.onto.Has(x)
    ensures x in s.at ==> s.at[x] == p.onto.poolOf[x] < p.Objects() && s.body[s.at[x]] == p.onto.ContentAt(x)
  {
  }

  /** Objects of conflicted groups are never shared with a clean name. */
  lemma FlaggedApart(p: Plan, s: Store, x: nat, y: nat)
    requires p.Valid() && Finished(p, s) && x in s.at && y in s.at && p.Wanted(x) && y < p.n && !p.clean[y]
    ensures s.at[x] != s.at[y]
  {
    FinishedFlagged(p, s, y);
    FinishedName(p, s, x);
  }

  /** Which names a finished store puts on one object is fixed by the plan. */
  predicate Together(p: Plan, x: nat, y: nat)
    requires p.Shaped() && x < p.n && y < p.n
  {
    if p.clean[x] && p.clean[y] then p.pool[x] == p.pool[y] && (LeftBehind(p, x) <==> LeftBehind(p, y))
    else !p.clean[x] && !p.clean[y] && p.onto.Has(x) && p.onto.Has(y) && p.onto.poolOf[x] == p.onto.poolOf[y]
  }

  lemma FinishedTogether(p: Plan, s: Store, x: nat, y: nat)
    requires p.Valid() && Finished(p, s) && x in s.at && y in s.at && x < p.n && y < p.n
    ensures s.at[x] == s.at[y] <==> Together(p, x, y)
  {
    hide Resumable, Settled, SettledTo;
    FinishedName(p, s, x);
    FinishedName(p, s, y);
    PresentHas(p, s, x);
    PresentHas(p, s, y);
    if !p.clean[x] && !p.clean[y] {
      FinishedFlagged(p, s, x);
      FinishedFlagged(p, s, y);
    } else if p.clean[x] && p.clean[y] {
      if p.pool[x] != p.pool[y] { PoolsApart(p, s, x, y); }
    } else if p.clean[x] {
      FlaggedApart(p, s, x, y);
    } else {
      FlaggedApart(p, s, y, x);
    }
  }

  /** What a finished store holds at a name is fixed by the plan. */
  function HeldAt(p: Plan, x: nat): Content
    requires p.Shaped() && x < p.n && (p.Wanted(x) || p.onto.Has(x))
  {
    if p.Wanted(x) && !LeftBehind(p, x) then p.Ends(p.pool[x]) else p.onto.ContentAt(x)
  }

  lemma FinishedHolds(p: Plan, s: Store, x: nat)
    requires p.Valid() && Finished(p, s) && x < p.n
    ensures x in s.at <==> p.Wanted(x) || (p.onto.Has(x) && !p.clean[x])
    ensures x in s.at ==> s.body[s.at[x]] == HeldAt(p, x)
  {
    FinishedName(p, s, x);
    if !p.clean[x] { FinishedFlagged(p, s, x); }
    if x in s.at { PresentHas(p, s, x); }
  }

  lemma FinishedSame(p: Plan, s: Store, s': Store)
    requires p.Valid() && Finished(p, s) && Finished(p, s')
    ensures SameTree(s, s')
  {
    hide Resumable, Settled, SettledTo, Plan.Valid, Plan.Shaped;
    forall x: nat ensures x in s.at <==> x in s'.at { NamesBelow(p, s, x); NamesBelow(p, s', x); if x < p.n { FinishedHolds(p, s, x); FinishedHolds(p, s', x); } }
    forall x: nat | x in s.at ensures s.body[s.at[x]] == s'.body[s'.at[x]] {
      NamesBelow(p, s, x);
      FinishedHolds(p, s, x);
      FinishedHolds(p, s', x);
    }
    forall x: nat, y: nat | x in s.at && y in s.at ensures s.at[x] == s.at[y] <==> s'.at[x] == s'.at[y] {
      NamesBelow(p, s, x);
      NamesBelow(p, s, y);
      FinishedTogether(p, s, x, y);
      FinishedTogether(p, s', x, y);
    }
  }

  lemma NamesBelow(p: Plan, s: Store, x: nat)
    requires p.Valid() && Resumable(p, s)
    ensures x in s.at ==> x < p.n
  {
  }

  /** Resume: after any part of the list, its open scopes forgotten, the whole list reaches the same
      tree as one uninterrupted run.  Running a finished list again is the case i = |order|. */
  lemma ResumeReachesTheSame(p: Plan, e: Sources, acts: seq<Act>, i: nat)
    requires p.Valid() && Carries(p, e, acts) && i <= |p.order|
    ensures StoreOf(p.onto).Valid()
    ensures var start := StoreOf(p.onto);
      var part := Run(e, start, ListOf(p, acts, i));
      && part.Done? && part.store.(pending := []).Valid()
      && var whole := ApplyAll(e, start, ListOf(p, acts, |p.order|));
         var again := ApplyAll(e, part.store.(pending := []), ListOf(p, acts, |p.order|));
         whole.Done? && again.Done? && SameTree(whole.store, again.store)
  {
    hide Resumable, Run, ApplyAll;
    var start := StoreOf(p.onto);
    StartResumable(p);
    RunKeeps(p, e, acts, start, i);
    var s := Run(e, start, ListOf(p, acts, i)).store;
    ForgetScopes(p, s);
    ApplyFinishes(p, e, acts, start);
    ApplyFinishes(p, e, acts, s.(pending := []));
    FinishedSame(p, ApplyAll(e, start, ListOf(p, acts, |p.order|)).store,
                 ApplyAll(e, s.(pending := []), ListOf(p, acts, |p.order|)).store);
  }

  lemma ForgetScopes(p: Plan, s: Store)
    requires p.Valid() && Resumable(p, s)
    ensures Resumable(p, s.(pending := [])) && s.(pending := []).Valid()
  {
    SameTreeKeeps(p, s, s.(pending := []));
  }
}
