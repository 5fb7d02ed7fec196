/** The apply over a file system with directories: a name is made only in a directory that is there,
    and a directory goes only when it is empty, src/apply.c `za_close_to`.  One that holds a conflicted
    name stays; anything else that will not go is a failure.

    Over a result whose names have their directories, the run is the flat store's, step by step, and
    the directories left standing are exactly those of the removed that hold a conflicted name. */
module Tall {
  import opened Trees
  import opened Manifest
  import opened Apply
  import opened Plan
  import opened Compile
  import opened Paths
  import N = Namespace
  import Removal
  import Replay

  // ----- the interpreter

  predicate Inside(t: N.Names, d: nat, x: nat) { d < |t.path| && x < |t.path| && Under(t.path[d], t.path[x]) }

  /** Some name is inside the directory. */
  predicate Full(t: N.Names, s: Store, d: nat) { exists x :: x in s.at && Inside(t, d, x) }

  /** `zr_verify_blocked`: a conflict mark of the list is inside the directory. */
  predicate Blocked(t: N.Names, list: seq<Action>, d: nat) {
    exists k :: 0 <= k < |list| && list[k].act.Mark? && Replay.Within(t)(d, list[k].path)
  }

  /** `za_close_to`. */
  function TallClose(t: N.Names, list: seq<Action>, s: Store, next: Option<nat>): (o: Outcome)
    requires s.Valid()
    ensures o.Done? ==> o.store.Valid()
    decreases |s.pending|
  {
    if s.pending == [] then Done(s) else
    var d := s.pending[|s.pending| - 1];
    var rest := s.(pending := s.pending[..|s.pending| - 1]);
    if next.Some? && Replay.Within(t)(d, next.value) then Done(s)
    else if d !in s.at then TallClose(t, list, rest, next)
    else if s.ContentAt(d).kind != Directory then Failed
    else if !Full(t, s, d) then TallClose(t, list, rest.Drop(d), next)
    else if Blocked(t, list, d) then TallClose(t, list, rest, next)
    else Failed
  }

  /** The directory of a name is there; the tree's own root always is. */
  predicate HasDirectory(t: N.Names, s: Store, x: nat)
    requires s.Valid()
  {
    x < |t.path| == |t.up| && (t.up[x] == N.NONE || (t.up[x] in s.at && s.ContentAt(t.up[x]).kind == Directory))
  }

  function TallPerform(e: Sources, t: N.Names, s: Store, a: Action): (o: Outcome)
    requires e.Valid() && s.Valid()
    ensures o.Done? ==> o.store.Valid()
  {
    if (a.act.Cp? || a.act.Dup? || a.act.Ln?) && !HasDirectory(t, s, a.path) then Failed else Perform(e, s, a)
  }

  function TallStep(e: Sources, t: N.Names, list: seq<Action>, s: Store, a: Action): (o: Outcome)
    requires e.Valid() && s.Valid()
    ensures o.Done? ==> o.store.Valid()
  {
    if a.act.Mark? then Done(s) else
    var closed := TallClose(t, list, s, Some(a.path));
    if closed.Failed? then Failed else TallPerform(e, t, closed.store, a)
  }

  /** The first lines `some` of the list, scopes left open. */
  function TallRun(e: Sources, t: N.Names, list: seq<Action>, s: Store, some: seq<Action>): (o: Outcome)
    requires e.Valid() && s.Valid()
    ensures o.Done? ==> o.store.Valid()
  {
    if some == [] then Done(s) else
    var before := TallRun(e, t, list, s, some[..|some| - 1]);
    if before.Failed? then Failed else TallStep(e, t, list, before.store, some[|some| - 1])
  }

  function TallApply(e: Sources, t: N.Names, list: seq<Action>, s: Store): (o: Outcome)
    requires e.Valid() && s.Valid()
    ensures o.Done? ==> o.store.Valid()
  {
    var before := TallRun(e, t, list, s, list);
    if before.Failed? then Failed else TallClose(t, list, before.store, None)
  }

  // ----- what is left standing

  /** A name the list removes that holds a conflicted name of onto. */
  ghost predicate Standing(p: Plan, t: N.Names, d: nat)
    requires p.Shaped()
  {
    p.Dying(d) && p.onto.ContentAt(d).kind == Directory && exists y: nat :: HoldsFlagged(p, t, d, y)
  }

  ghost predicate HoldsFlagged(p: Plan, t: N.Names, d: nat, y: nat)
    requires p.Shaped()
  {
    p.onto.Has(y) && !p.clean[y] && Inside(t, d, y)
  }

  /** A directory that is in the result, or in a conflicted group and stays. */
  ghost predicate Remains(p: Plan, y: nat)
    requires p.Shaped()
  {
    || (p.Wanted(y) && p.KindOf(y) == Directory)
    || (p.onto.Has(y) && !p.clean[y] && p.onto.ContentAt(y).kind == Directory)
  }

  /** Every name of the result has its directory, and the root is not removed. */
  ghost predicate ParentClosed(p: Plan, t: N.Names)
    requires p.Shaped()
  {
    && t.Valid() && |t.path| == p.n
    && (forall x: nat :: p.Wanted(x) ==> t.up[x] == N.NONE || (0 <= t.up[x] < p.n && Remains(p, t.up[x])))
    && (forall x: nat :: p.Dying(x) ==> t.path[x] != [])
  }

  /** The names are walked in manifest order. */
  ghost predicate OrderedPlan(p: Plan, t: N.Names)
    requires p.Shaped()
  {
    && |t.path| == p.n
    && (forall i, j :: 0 <= i < j < |p.order| ==> Before(t.path[p.order[i]], t.path[p.order[j]]))
  }

  /** The tall store is the flat one with some standing directories besides. */
  ghost predicate Sim(p: Plan, t: N.Names, s: Store, h: Store)
    requires p.Shaped()
  {
    && h.body == s.body && h.pending == s.pending && p.Objects() <= |s.body|
    && (forall x :: x in s.at ==> x in h.at && h.at[x] == s.at[x])
    && (forall x: nat :: x in h.at && x !in s.at ==> Standing(p, t, x))
    && (forall x: nat :: Standing(p, t, x) ==> StandsThere(p, h, x))
  }

  ghost predicate StandsThere(p: Plan, h: Store, x: nat)
    requires p.Shaped() && p.Dying(x)
  {
    x in h.at && h.at[x] == p.onto.poolOf[x] < |h.body| && h.body[h.at[x]] == p.onto.ContentAt(x)
  }

  lemma SimValid(p: Plan, t: N.Names, s: Store, h: Store)
    requires p.Shaped() && Sim(p, t, s, h) && s.Valid()
    ensures h.Valid()
  {
    forall x | x in h.at ensures h.at[x] < |h.body| {
      if x !in s.at { assert Standing(p, t, x) && StandsThere(p, h, x); }
    }
  }

  lemma SimStarts(p: Plan, t: N.Names)
    requires p.Valid()
    ensures StoreOf(p.onto).Valid() && Sim(p, t, StoreOf(p.onto), StoreOf(p.onto))
  {
    StartResumable(p);
  }

  // ----- when a removed directory is full

  /** What lies under a removed directory and stays has a conflicted name there. */
  lemma {:induction false} WantedUnder(p: Plan, t: N.Names, d: nat, z: nat) returns (y: nat)
    requires p.Shaped() && ParentClosed(p, t) && p.Dying(d) && p.Wanted(z) && Inside(t, d, z)
    ensures HoldsFlagged(p, t, d, y)
    decreases |t.path[z]|
  {
    assert t.UpValid(z);
    y := t.up[z];
    UnderParent(t.path[d], t.path[z]);
    if p.Wanted(y) { y := WantedUnder(p, t, d, y); }
  }

  /** Nothing the list is still to remove is inside the directory. */
  ghost predicate Cleared(p: Plan, t: N.Names, s: Store, d: nat)
    requires p.Shaped()
  {
    forall z: nat :: p.Dying(z) && Inside(t, d, z) ==> z !in s.at || z in s.pending
  }

  /** A dying name still there is on its own onto object. */
  lemma DyingPlace(p: Plan, s: Store, d: nat)
    requires p.Valid() && Resumable(p, s) && p.Dying(d) && d in s.at
    ensures s.at[d] == p.onto.poolOf[d] < p.Objects()
  {
    hide Isolated, Keeping, Typed, Pended;
  }

  /** The directory on top of the stack is full exactly when it is to stand. */
  lemma FullIffStanding(p: Plan, t: N.Names, s: Store, h: Store, d: nat)
    requires p.Valid() && ParentClosed(p, t) && Resumable(p, s) && Sim(p, t, s, h) && p.Dying(d)
    requires Removal.Nested(Replay.Within(t), s.pending) && s.pending != [] && s.pending[|s.pending| - 1] == d && Cleared(p, t, s, d)
    requires p.onto.ContentAt(d).kind == Directory
    ensures Full(t, h, d) <==> Standing(p, t, d)
  {
    hide Keeping, Typed, Pended, SharedRight, Under;
    if Full(t, h, d) {
      var z: nat :| z in h.at && Inside(t, d, z);
      StandingFrom(p, t, s, h, d, z);
    }
    if Standing(p, t, d) {
      var y: nat :| HoldsFlagged(p, t, d, y);
      assert y in s.at && y in h.at && Inside(t, d, y);
    }
  }

  lemma StandingFrom(p: Plan, t: N.Names, s: Store, h: Store, d: nat, z: nat)
    requires p.Valid() && ParentClosed(p, t) && Resumable(p, s) && Sim(p, t, s, h) && p.Dying(d)
    requires Removal.Nested(Replay.Within(t), s.pending) && s.pending != [] && s.pending[|s.pending| - 1] == d && Cleared(p, t, s, d)
    requires p.onto.ContentAt(d).kind == Directory && z in h.at && Inside(t, d, z)
    ensures Standing(p, t, d)
  {
    hide Keeping, Typed, Pended, SharedRight, Under;
    if z !in s.at {
      var y: nat :| HoldsFlagged(p, t, z, y);
      UnderTransitive(t.path[d], t.path[z], t.path[y]);
      assert HoldsFlagged(p, t, d, y);
    } else {
      PresentHas(p, s, z);
      if p.Wanted(z) {
        var y := WantedUnder(p, t, d, z);
      } else if p.clean[z] {
        NotPending(p, t, s, d, z);
      } else {
        assert HoldsFlagged(p, t, d, z);
      }
    }
  }

  /** No directory deeper than the top waits. */
  lemma NotPending(p: Plan, t: N.Names, s: Store, d: nat, z: nat)
    requires Removal.Nested(Replay.Within(t), s.pending) && s.pending != [] && s.pending[|s.pending| - 1] == d && Inside(t, d, z)
    ensures z !in s.pending
  {
    var n := |s.pending|;
    forall k | 0 <= k < n ensures s.pending[k] != z {
      if k < n - 1 { assert Replay.Within(t)(s.pending[k], s.pending[n - 1]); }
    }
  }

  // ----- closing, side by side

  /** The marks of the list say what stands. */
  ghost predicate MarksSay(p: Plan, t: N.Names, list: seq<Action>)
    requires p.Shaped()
  {
    forall d: nat :: Standing(p, t, d) ==> Blocked(t, list, d)
  }

  ghost predicate ClosingOk(p: Plan, t: N.Names, s: Store, next: Option<nat>)
    requires p.Shaped()
  {
    && Removal.Nested(Replay.Within(t), s.pending)
    && forall k :: 0 <= k < |s.pending| && !(next.Some? && Replay.Within(t)(s.pending[k], next.value)) ==> Cleared(p, t, s, s.pending[k])
  }

  lemma PopClosingOk(p: Plan, t: N.Names, s: Store, s': Store, next: Option<nat>)
    requires p.Shaped() && ClosingOk(p, t, s, next) && s.pending != [] && s'.pending == s.pending[..|s.pending| - 1]
    requires (forall x :: x in s'.at ==> x in s.at) && s.pending[|s.pending| - 1] !in s'.at
    ensures ClosingOk(p, t, s', next)
  {
    hide Under, Replay.Within;
    var d := s.pending[|s.pending| - 1];
    assert s.pending == s'.pending + [d];
    forall k | 0 <= k < |s'.pending| && !(next.Some? && Replay.Within(t)(s'.pending[k], next.value)) ensures Cleared(p, t, s', s'.pending[k]) {
      assert Cleared(p, t, s, s.pending[k]);
    }
  }

  lemma SimDrop(p: Plan, t: N.Names, s: Store, h: Store, d: nat)
    requires p.Shaped() && Sim(p, t, s, h) && s.pending != [] && p.Dying(d) && !Standing(p, t, d)
    ensures Sim(p, t, s.Drop(d).(pending := s.pending[..|s.pending| - 1]), h.Drop(d).(pending := s.pending[..|s.pending| - 1]))
  {
    hide HoldsFlagged;
    forall x: nat | Standing(p, t, x) ensures StandsThere(p, h.Drop(d).(pending := s.pending[..|s.pending| - 1]), x) { assert StandsThere(p, h, x); }
  }

  lemma SimLeave(p: Plan, t: N.Names, s: Store, h: Store, d: nat)
    requires p.Shaped() && Sim(p, t, s, h) && s.pending != [] && Standing(p, t, d)
    ensures Sim(p, t, s.Drop(d).(pending := s.pending[..|s.pending| - 1]), h.(pending := s.pending[..|s.pending| - 1]))
  {
    hide HoldsFlagged;
    forall x: nat | Standing(p, t, x) ensures StandsThere(p, h.(pending := s.pending[..|s.pending| - 1]), x) { assert StandsThere(p, h, x); }
  }

  /** Closing scopes, the two stores side by side. */
  lemma {:induction false} CloseSim(p: Plan, t: N.Names, list: seq<Action>, s: Store, h: Store, next: Option<nat>)
    requires p.Valid() && ParentClosed(p, t) && MarksSay(p, t, list) && Resumable(p, s) && s.Valid() && h.Valid() && Sim(p, t, s, h)
    requires ClosingOk(p, t, s, next)
    ensures var f, o := CloseTo(s, next, Replay.Within(t)), TallClose(t, list, h, next);
      f.Done? && o.Done? && Sim(p, t, f.store, o.store)
    decreases |s.pending|
  {
    hide Isolated, Keeping, SharedRight, Typed, Pended, Plan.Valid, Plan.Shaped, ParentClosed, MarksSay, Full, Blocked, Cleared,
      Standing, Removal.Nested, ClosingOk, Resumable, Replay.Within;
    if s.pending != [] {
      var d := s.pending[|s.pending| - 1];
      if !(next.Some? && Replay.Within(t)(d, next.value)) {
        CloseOne(p, t, list, s, h, next);
        var rest := s.Drop(d).(pending := s.pending[..|s.pending| - 1]);
        if d in s.at {
          assert rest == s.(pending := s.pending[..|s.pending| - 1]).Drop(d);
        } else {
          assert s.at - {d} == s.at;
          assert rest == s.(pending := s.pending[..|s.pending| - 1]);
        }
        CloseSim(p, t, list, rest, TallPopped(t, list, h), next);
      }
    }
  }

  /** The tall store with the top of its stack dealt with. */
  function TallPopped(t: N.Names, list: seq<Action>, h: Store): (r: Store)
    requires h.Valid() && h.pending != []
    ensures r.Valid() && |r.pending| < |h.pending|
  {
    var d := h.pending[|h.pending| - 1];
    var rest := h.(pending := h.pending[..|h.pending| - 1]);
    if d !in h.at || Full(t, h, d) then rest else rest.Drop(d)
  }

  /** One directory closed: both stores pop it, and agree on what they do. */
  lemma CloseOne(p: Plan, t: N.Names, list: seq<Action>, s: Store, h: Store, next: Option<nat>)
    requires p.Valid() && ParentClosed(p, t) && MarksSay(p, t, list) && Resumable(p, s) && s.Valid() && h.Valid() && Sim(p, t, s, h)
    requires ClosingOk(p, t, s, next) && s.pending != [] && h.pending == s.pending
    requires !(next.Some? && Replay.Within(t)(s.pending[|s.pending| - 1], next.value))
    ensures var d := s.pending[|s.pending| - 1]; var s' := s.Drop(d).(pending := s.pending[..|s.pending| - 1]);
      && Resumable(p, s') && s'.Valid() && Sim(p, t, s', TallPopped(t, list, h)) && ClosingOk(p, t, s', next)
      && (d in s.at ==> s.ContentAt(d).kind == Directory)
      && TallClose(t, list, h, next) == TallClose(t, list, TallPopped(t, list, h), next)
  {
    hide Isolated, Keeping, SharedRight, Typed, Plan.Shaped, ParentClosed, Full, Blocked, Cleared, Removal.Nested, Replay.Within;
    var d := s.pending[|s.pending| - 1];
    var s' := s.Drop(d).(pending := s.pending[..|s.pending| - 1]);
    ResumableValid(p, s);
    TopDies(p, s);
    DropKeeps(p, s, d);
    PopKeeps(p, s.Drop(d));
    PopClosingOk(p, t, s, s', next);
    TopCleared(p, t, s, next);
    FullIffStanding(p, t, s, h, d);
    if Standing(p, t, d) {
      SimLeave(p, t, s, h, d);
      assert StandsThere(p, h, d);
    } else {
      SimDrop(p, t, s, h, d);
      if d !in h.at { assert h.at - {d} == h.at; }
    }
  }

  lemma TopDies(p: Plan, s: Store)
    requires p.Valid() && Resumable(p, s) && s.Valid() && s.pending != []
    ensures var d := s.pending[|s.pending| - 1];
      p.Dying(d) && p.onto.ContentAt(d).kind == Directory && (d in s.at ==> s.ContentAt(d).kind == Directory)
  {
    hide Keeping, SharedRight;
  }

  lemma TopCleared(p: Plan, t: N.Names, s: Store, next: Option<nat>)
    requires p.Shaped() && ClosingOk(p, t, s, next) && s.pending != []
    requires !(next.Some? && Replay.Within(t)(s.pending[|s.pending| - 1], next.value))
    ensures Removal.Nested(Replay.Within(t), s.pending) && Cleared(p, t, s, s.pending[|s.pending| - 1])
  {
    hide Cleared, Replay.Within;
  }

  // ----- one action, side by side

  /** Of the names of the result, and of those that are no standing directory, both stores say the same. */
  lemma SameName(p: Plan, t: N.Names, s: Store, h: Store, x: nat)
    requires p.Shaped() && Sim(p, t, s, h) && (p.Wanted(x) || (p.Dying(x) && p.onto.ContentAt(x).kind != Directory))
    ensures x in s.at <==> x in h.at
    ensures x in s.at ==> h.at[x] == s.at[x]
  {
  }

  lemma SimMake(p: Plan, t: N.Names, s: Store, h: Store, x: nat, c: Content)
    requires p.Shaped() && Sim(p, t, s, h) && p.Wanted(x)
    ensures Sim(p, t, s.Make(x, c), h.Make(x, c))
  {
    hide HoldsFlagged;
    forall d: nat | Standing(p, t, d) ensures StandsThere(p, h.Make(x, c), d) { assert StandsThere(p, h, d); }
  }

  /** Where a name of the result can be. */
  lemma WantedPlace(p: Plan, s: Store, x: nat)
    requires p.Shaped() && s.Valid() && SharedRight(p, s) && p.Wanted(x) && x in s.at && s.at[x] < p.Objects()
    ensures (p.onto.Has(x) && p.onto.poolOf[x] == s.at[x]) || p.keeps[p.pool[x]] == s.at[x]
  {
  }

  /** A directory's onto object has no other name. */
  lemma OneName(p: Plan, d: nat, z: nat)
    requires p.Shaped() && p.onto.Has(d) && p.onto.Has(z) && p.onto.poolOf[d] == p.onto.poolOf[z] && p.onto.ContentAt(d).kind == Directory
    ensures z == d
  {
    assert p.onto.PoolValid(p.onto.poolOf[d]);
  }

  /** No name of the result is on the object of a removed directory. */
  lemma ApartFromStanding(p: Plan, s: Store, x: nat, d: nat)
    requires p.Valid() && s.Valid() && SharedRight(p, s) && p.Wanted(x) && x in s.at && p.Dying(d) && p.onto.ContentAt(d).kind == Directory
    ensures s.at[x] != p.onto.poolOf[d]
  {
    hide SharedRight;
    if s.at[x] < p.Objects() {
      WantedPlace(p, s, x);
      if p.onto.Has(x) && p.onto.poolOf[x] == s.at[x] {
        if s.at[x] == p.onto.poolOf[d] { OneName(p, d, x); }
      } else {
        var k := p.pool[x];
        if s.at[x] == p.onto.poolOf[d] { OneName(p, d, p.anchor[k]); }
      }
    }
  }

  lemma SimPour(p: Plan, t: N.Names, s: Store, h: Store, x: nat, c: Content)
    requires p.Valid() && s.Valid() && h.Valid() && Resumable(p, s) && Sim(p, t, s, h) && p.Wanted(x) && x in s.at && x in h.at
    ensures Sim(p, t, s.Pour(x, c), h.Pour(x, c))
  {
    hide Isolated, Keeping, SharedRight, Typed, Pended;
    forall d: nat | Standing(p, t, d) ensures StandsThere(p, h.Pour(x, c), d) {
      assert StandsThere(p, h, d);
      ApartFromStanding(p, s, x, d);
    }
  }

  lemma SimLink(p: Plan, t: N.Names, s: Store, h: Store, x: nat, a: nat)
    requires p.Shaped() && Sim(p, t, s, h) && p.Wanted(x) && a in s.at && a in h.at
    ensures Sim(p, t, Linked(s, x, a), Linked(h, x, a))
  {
    hide HoldsFlagged;
    forall d: nat | Standing(p, t, d) ensures StandsThere(p, Linked(h, x, a), d) { assert StandsThere(p, h, d); }
  }

  lemma SimRm(p: Plan, t: N.Names, s: Store, h: Store, x: nat, dir: bool)
    requires p.Shaped() && s.Valid() && h.Valid() && Sim(p, t, s, h) && p.Dying(x) && dir == (p.onto.ContentAt(x).kind == Directory)
    requires DoRm(s, x, dir).Done?
    ensures DoRm(h, x, dir).Done? && Sim(p, t, DoRm(s, x, dir).store, DoRm(h, x, dir).store)
  {
    hide HoldsFlagged;
    if !dir { SameName(p, t, s, h, x); }
    forall d: nat | Standing(p, t, d) && DoRm(h, x, dir).Done? ensures StandsThere(p, DoRm(h, x, dir).store, d) { assert StandsThere(p, h, d); }
  }

  /** The directory of a name of the result is there when its line is reached. */
  lemma DirectoryThere(p: Plan, t: N.Names, s: Store, h: Store, i: nat, x: nat)
    requires p.Valid() && ParentClosed(p, t) && OrderedPlan(p, t) && Resumable(p, s) && s.Valid() && h.Valid() && Sim(p, t, s, h)
    requires At(p, s, i, x) && p.Wanted(x)
    ensures HasDirectory(t, h, x)
  {
    hide Keeping, SharedRight, Pended, Before;
    assert t.UpValid(x);
    if t.up[x] != N.NONE {
      var y := t.up[x];
      if p.Wanted(y) {
        UnderParent(t.path[y], t.path[x]);
        UnderIsAfter(t.path[y], t.path[x]);
        EarlierHere(p, t, s, i, x, y);
      }
      assert y in s.at && s.body[s.at[y]].kind == p.KindOf(y);
    }
  }

  lemma EarlierHere(p: Plan, t: N.Names, s: Store, i: nat, x: nat, y: nat)
    requires p.Valid() && OrderedPlan(p, t) && Resumable(p, s) && s.Valid() && At(p, s, i, x) && p.Wanted(x) && p.Wanted(y)
    requires Before(t.path[y], t.path[x])
    ensures y in s.at
  {
    hide Isolated, SharedRight, Typed, Pended;
    assert p.order[p.pos[y]] == y && p.order[p.pos[x]] == x;
    BeforeIrreflexive(t.path[x]);
    if p.pos[x] < p.pos[y] { BeforeAsymmetric(t.path[x], t.path[y]); }
    assert Settled(p, s, y);
    if p.Stays(y) { assert KeptName(p, s, y); }
  }

  lemma PerformSim(p: Plan, e: Sources, t: N.Names, s: Store, h: Store, i: nat, a: Act)
    requires p.Valid() && e.Valid() && ParentClosed(p, t) && OrderedPlan(p, t) && Resumable(p, s) && s.Valid() && h.Valid()
    requires Sim(p, t, s, h) && i < |p.order| && SettledTo(p, s, i) && p.Fits(e, p.order[i], a) && !a.Nothing? && !a.Mark?
    requires Perform(e, s, Action(a, p.order[i])).Done?
    ensures var o := TallPerform(e, t, h, Action(a, p.order[i]));
      o.Done? && Sim(p, t, Perform(e, s, Action(a, p.order[i])).store, o.store)
  {
    hide Resumable, Settled, SettledTo, Sim, Standing, ParentClosed, OrderedPlan, HasDirectory;
    var x := p.order[i];
    if p.pool[x] == -1 {
      SimRm(p, t, s, h, x, a.dir);
    } else {
      SameName(p, t, s, h, x);
      DirectoryThere(p, t, s, h, i, x);
      SameBody(p, t, s, h);
      var c := p.goal[p.pool[x]];
      if x != p.anchor[p.pool[x]] {
        var b := p.anchor[p.pool[x]];
        SameName(p, t, s, h, b);
        SimLink(p, t, s, h, x, b);
      } else {
        SimMake(p, t, s, h, x, c);
        if x in s.at {
          SimPour(p, t, s, h, x, c);
          SimPour(p, t, s, h, x, Rewritten(s.ContentAt(x), c));
        }
      }
    }
  }

  lemma SameBody(p: Plan, t: N.Names, s: Store, h: Store)
    requires p.Shaped() && Sim(p, t, s, h)
    ensures h.body == s.body && h.pending == s.pending
  {
  }

  // ----- the run

  /** The lines so far are of the names walked so far. */
  lemma {:induction false} ListPaths(p: Plan, acts: seq<Act>, i: nat, a: Action)
    requires p.Shaped() && i <= |acts| == |p.order| && a in ListOf(p, acts, i)
    ensures a.path < p.n && 0 <= p.pos[a.path] < i && p.order[p.pos[a.path]] == a.path
  {
    if i > 0 && a in ListOf(p, acts, i - 1) { ListPaths(p, acts, i - 1, a); }
  }

  /** Scopes close when all inside them is settled. */
  lemma ClosesInOrder(p: Plan, e: Sources, t: N.Names, acts: seq<Act>, s: Store, i: nat)
    requires p.Valid() && ParentClosed(p, t) && OrderedPlan(p, t) && i <= |acts| == |p.order|
    requires s.Valid() && SettledTo(p, s, i) && Pended(p, s)
    requires e.under == Replay.Within(t) && Removal.StackIs(e, ListOf(p, acts, i), |ListOf(p, acts, i)|, s.pending)
    ensures ClosingOk(p, t, s, if i < |p.order| then Some(p.order[i]) else None)
  {
    hide Settled, Before, Under;
    var next := if i < |p.order| then Some(p.order[i]) else None;
    forall k | 0 <= k < |s.pending| && !(next.Some? && Replay.Within(t)(s.pending[k], next.value)) ensures Cleared(p, t, s, s.pending[k]) {
      var d := s.pending[k];
      assert d in s.pending;
      var j: nat :| Removal.StillOpen(e, ListOf(p, acts, i), j, |ListOf(p, acts, i)|) && ListOf(p, acts, i)[j].path == d;
      ListPaths(p, acts, i, ListOf(p, acts, i)[j]);
      forall z: nat | p.Dying(z) && Inside(t, d, z) ensures z !in s.at || z in s.pending { InsideIsSettled(p, t, s, i, d, z); }
    }
  }

  lemma InsideIsSettled(p: Plan, t: N.Names, s: Store, i: nat, d: nat, z: nat)
    requires p.Valid() && OrderedPlan(p, t) && i <= |p.order| && s.Valid() && SettledTo(p, s, i)
    requires d < p.n && 0 <= p.pos[d] < i && p.order[p.pos[d]] == d && p.Dying(z) && Inside(t, d, z)
    requires t.path[d] != []
    requires i < |p.order| ==> !Replay.Within(t)(d, p.order[i])
    ensures z !in s.at || z in s.pending
  {
    hide Before, Under;
    assert p.order[p.pos[z]] == z;
    if i < |p.order| && i <= p.pos[z] {
      var x := p.order[i];
      SubtreeTogether(t.path[d], t.path[z], t.path[x]);
      BeforeIrreflexive(t.path[z]);
      BeforeAsymmetric(t.path[z], t.path[x]);
    }
    assert p.pos[z] < i;
    assert Settled(p, s, p.order[p.pos[z]]);
  }

  lemma TallRunGrows(e: Sources, t: N.Names, list: seq<Action>, s: Store, some: seq<Action>, a: Action)
    requires e.Valid() && s.Valid() && TallRun(e, t, list, s, some).Done?
    ensures TallRun(e, t, list, s, some + [a]) == TallStep(e, t, list, TallRun(e, t, list, s, some).store, a)
  {
    hide TallStep;
    assert (some + [a])[..|some|] == some;
  }

  lemma WithinTransitive(t: N.Names)
    ensures Removal.Transitive(Replay.Within(t))
  {
    forall a: nat, b: nat, c: nat | Replay.Within(t)(a, b) && Replay.Within(t)(b, c) ensures Replay.Within(t)(a, c) {
      UnderTransitive(t.path[a], t.path[b], t.path[c]);
    }
  }

  /** Before a line: what the flat run has made of the tree and of its stack. */
  lemma FlatStands(p: Plan, e: Sources, t: N.Names, acts: seq<Act>, i: nat)
    requires p.Valid() && Carries(p, e, acts) && ParentClosed(p, t) && OrderedPlan(p, t) && e.under == Replay.Within(t) && i <= |p.order|
    ensures StoreOf(p.onto).Valid() && Run(e, StoreOf(p.onto), ListOf(p, acts, i)).Done?
    ensures var s := Run(e, StoreOf(p.onto), ListOf(p, acts, i)).store;
      Resumable(p, s) && s.Valid() && SettledTo(p, s, i) && ClosingOk(p, t, s, if i < |p.order| then Some(p.order[i]) else None)
  {
    hide Settled, Run, ListOf, ClosingOk, ParentClosed, OrderedPlan;
    var start := StoreOf(p.onto);
    StartResumable(p);
    RunKeeps(p, e, acts, start, i);
    WithinTransitive(t);
    var list := ListOf(p, acts, i);
    assert list[..|list|] == list;
    Removal.StackOfPrefix(e, start, list, |list|);
    ClosesInOrder(p, e, t, acts, Run(e, start, list).store, i);
  }

  /** One line, the two stores side by side. */
  lemma LineSim(p: Plan, e: Sources, t: N.Names, acts: seq<Act>, list: seq<Action>, s: Store, h: Store, i: nat)
    requires p.Valid() && Carries(p, e, acts) && ParentClosed(p, t) && OrderedPlan(p, t) && MarksSay(p, t, list) && e.under == Replay.Within(t)
    requires i < |p.order| && Resumable(p, s) && s.Valid() && h.Valid() && SettledTo(p, s, i) && Sim(p, t, s, h)
    requires ClosingOk(p, t, s, Some(p.order[i])) && !acts[i].Nothing?
    ensures var f, o := Step(e, s, Action(acts[i], p.order[i])), TallStep(e, t, list, h, Action(acts[i], p.order[i]));
      f.Done? && o.Done? && Sim(p, t, f.store, o.store)
  {
    hide Resumable, Settled, Perform, TallPerform, CloseTo, TallClose, Sim, ParentClosed, OrderedPlan, MarksSay, ClosingOk;
    if !acts[i].Mark? {
      var x := p.order[i];
      CloseSim(p, t, list, s, h, Some(x));
      CloseKeeps(p, s, Some(x), e.under);
      var s' := CloseTo(s, Some(x), e.under).store;
      forall j: nat | j < i ensures Settled(p, s', p.order[j]) {}
      PerformKeeps(p, e, s', i, acts[i]);
      PerformSim(p, e, t, s', TallClose(t, list, h, Some(x)).store, i, acts[i]);
    }
  }

  lemma {:induction false} PrefixSim(p: Plan, e: Sources, t: N.Names, acts: seq<Act>, list: seq<Action>, i: nat)
    requires p.Valid() && Carries(p, e, acts) && ParentClosed(p, t) && OrderedPlan(p, t) && MarksSay(p, t, list) && e.under == Replay.Within(t)
    requires i <= |p.order|
    ensures StoreOf(p.onto).Valid()
    ensures var f, o := Run(e, StoreOf(p.onto), ListOf(p, acts, i)), TallRun(e, t, list, StoreOf(p.onto), ListOf(p, acts, i));
      f.Done? && o.Done? && Sim(p, t, f.store, o.store)
  {
    hide Resumable, Settled, SettledTo, Step, TallStep, Sim, ParentClosed, OrderedPlan, MarksSay, ClosingOk, Plan.Fits, Plan.Shaped;
    SimStarts(p, t);
    if i > 0 {
      PrefixSim(p, e, t, acts, list, i - 1);
      FlatStands(p, e, t, acts, i - 1);
      var some := ListOf(p, acts, i - 1);
      var s, h := Run(e, StoreOf(p.onto), some).store, TallRun(e, t, list, StoreOf(p.onto), some).store;
      ListGrows(p, acts, i - 1);
      if !acts[i - 1].Nothing? {
        LineSim(p, e, t, acts, list, s, h, i - 1);
        RunGrows(e, StoreOf(p.onto), some, Action(acts[i - 1], p.order[i - 1]));
        TallRunGrows(e, t, list, StoreOf(p.onto), some, Action(acts[i - 1], p.order[i - 1]));
      }
    }
  }

  /** The whole apply over a file system with directories is the flat one, with the standing
      directories besides. */
  lemma TallIsFlat(p: Plan, e: Sources, t: N.Names, acts: seq<Act>)
    requires p.Valid() && Carries(p, e, acts) && ParentClosed(p, t) && OrderedPlan(p, t) && e.under == Replay.Within(t)
    requires MarksSay(p, t, ListOf(p, acts, |p.order|))
    ensures StoreOf(p.onto).Valid()
    ensures var f, o := ApplyAll(e, StoreOf(p.onto), ListOf(p, acts, |p.order|)), TallApply(e, t, ListOf(p, acts, |p.order|), StoreOf(p.onto));
      f.Done? && o.Done? && Sim(p, t, f.store, o.store)
  {
    hide Resumable, Settled, SettledTo, Run, TallRun, CloseTo, TallClose, Sim, ParentClosed, OrderedPlan, MarksSay, ClosingOk, Plan.Fits, ListOf;
    var list := ListOf(p, acts, |p.order|);
    PrefixSim(p, e, t, acts, list, |p.order|);
    FlatStands(p, e, t, acts, |p.order|);
    CloseSim(p, t, list, Run(e, StoreOf(p.onto), list).store, TallRun(e, t, list, StoreOf(p.onto), list).store, None);
  }
}
