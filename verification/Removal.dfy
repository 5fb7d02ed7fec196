/** Deferred removal, `za_pend` and `za_close_to` of src/apply.c: the directories waiting to go are
    always a chain, each goes when the list leaves it, and the list never comes back. */
module Removal {
  import opened Trees
  import opened Manifest
  import opened Apply
  import opened Paths
  import opened Namespace

  ghost predicate Transitive(under: (nat, nat) -> bool) {
    forall a, b, c :: under(a, b) && under(b, c) ==> under(a, c)
  }

  /** Each directory holds all that come after it on the stack. */
  ghost predicate Nested(under: (nat, nat) -> bool, stack: seq<nat>) {
    forall a, b :: 0 <= a < b < |stack| ==> under(stack[a], stack[b])
  }

  /** Line i removes a directory, and no line before j has left it. */
  ghost predicate StillOpen(e: Sources, list: seq<Action>, i: nat, j: nat)
    requires j <= |list|
  {
    && i < j && list[i].act == Rm(true)
    && forall k :: i < k < j && !list[k].act.Mark? ==> e.under(list[i].path, list[k].path)
  }

  /** How much of the stack the next path leaves open. */
  function Staying(stack: seq<nat>, next: Option<nat>, under: (nat, nat) -> bool): (c: nat)
    ensures c <= |stack|
  {
    if stack == [] then 0
    else if next.Some? && under(stack[|stack| - 1], next.value) then |stack|
    else Staying(stack[..|stack| - 1], next, under)
  }

  lemma {:induction false} StayingHold(stack: seq<nat>, next: Option<nat>, under: (nat, nat) -> bool)
    requires Transitive(under) && Nested(under, stack)
    ensures var c := Staying(stack, next, under);
      && (next.None? ==> c == 0)
      && (forall i :: 0 <= i < c ==> next.Some? && under(stack[i], next.value))
      && (forall i :: c <= i < |stack| ==> next.None? || !under(stack[i], next.value))
  {
    hide Transitive;
    if stack != [] {
      if next.Some? && under(stack[|stack| - 1], next.value) {
        AllHold(stack, next.value, under);
      } else {
        StayingHold(stack[..|stack| - 1], next, under);
        NotDeeper(stack, next, under, Staying(stack, next, under));
      }
    }
  }

  lemma {:induction false} CloseToStaying(s: Store, next: Option<nat>, under: (nat, nat) -> bool)
    requires s.Valid()
    ensures var o := CloseTo(s, next, under); var c := Staying(s.pending, next, under); o.Done? ==>
      && o.store.pending == s.pending[..c]
      && forall x :: x in o.store.at <==> x in s.at && x !in s.pending[c..]
    decreases |s.pending|
  {
    var n := |s.pending|;
    var c := Staying(s.pending, next, under);
    if n == 0 || c == n {
      assert s.pending[..c] == s.pending;
    } else {
      var d := s.pending[n - 1];
      var rest := s.(pending := s.pending[..n - 1]);
      var s' := if d in s.at then rest.Drop(d) else rest;
      CloseToStaying(s', next, under);
      assert s.pending[c..] == s'.pending[c..] + [d];
      assert s'.pending[..c] == s.pending[..c];
    }
  }

  /** Closing keeps the part of the stack that holds the next path, and removes the rest. */
  lemma CloseKeepsHolders(s: Store, next: Option<nat>, under: (nat, nat) -> bool) returns (c: nat)
    requires s.Valid() && Transitive(under) && Nested(under, s.pending)
    ensures c <= |s.pending| && (next.None? ==> c == 0)
    ensures forall i :: 0 <= i < c ==> next.Some? && under(s.pending[i], next.value)
    ensures forall i :: c <= i < |s.pending| ==> next.None? || !under(s.pending[i], next.value)
    ensures var o := CloseTo(s, next, under); o.Done? ==>
      && o.store.pending == s.pending[..c]
      && forall x :: x in o.store.at <==> x in s.at && x !in s.pending[c..]
  {
    hide Transitive, Nested, CloseTo;
    c := Staying(s.pending, next, under);
    StayingHold(s.pending, next, under);
    CloseToStaying(s, next, under);
  }

  lemma AllHold(stack: seq<nat>, x: nat, under: (nat, nat) -> bool)
    requires Transitive(under) && Nested(under, stack) && stack != [] && under(stack[|stack| - 1], x)
    ensures forall i :: 0 <= i < |stack| ==> under(stack[i], x)
  {
    forall i | 0 <= i < |stack| ensures under(stack[i], x) {
      if i < |stack| - 1 { assert under(stack[i], stack[|stack| - 1]); }
    }
  }

  lemma NotDeeper(stack: seq<nat>, next: Option<nat>, under: (nat, nat) -> bool, c: nat)
    requires stack != [] && c <= |stack| - 1
    requires forall i :: c <= i < |stack| - 1 ==> next.None? || !under(stack[i], next.value)
    requires !(next.Some? && under(stack[|stack| - 1], next.value))
    ensures forall i :: c <= i < |stack| ==> next.None? || !under(stack[i], next.value)
  {
  }

  /** A step only touches its own path, and only pends it. */
  lemma PerformTouches(e: Sources, s: Store, a: Action)
    requires e.Valid() && s.Valid() && Perform(e, s, a).Done?
    ensures var s' := Perform(e, s, a).store;
      && s'.pending == (if a.act == Rm(true) then s.pending + [a.path] else s.pending)
      && forall x :: x != a.path ==> (x in s'.at <==> x in s.at)
  {
  }

  // ----- the stack

  /** The stack after the first j lines. */
  ghost predicate StackIs(e: Sources, list: seq<Action>, j: nat, stack: seq<nat>)
    requires j <= |list|
  {
    Nested(e.under, stack) && forall d :: d in stack <==> exists i: nat :: StillOpen(e, list, i, j) && list[i].path == d
  }

  lemma StackStep(e: Sources, s: Store, list: seq<Action>, j: nat)
    requires e.Valid() && s.Valid() && Transitive(e.under) && j < |list| && StackIs(e, list, j, s.pending)
    requires Step(e, s, list[j]).Done?
    ensures StackIs(e, list, j + 1, Step(e, s, list[j]).store.pending)
  {
    var a := list[j];
    var after := Step(e, s, a).store.pending;
    if a.act.Mark? {
      forall i: nat ensures StillOpen(e, list, i, j + 1) <==> StillOpen(e, list, i, j) {}
    } else {
      var c := CloseKeepsHolders(s, Some(a.path), e.under);
      var s' := CloseTo(s, Some(a.path), e.under).store;
      PerformTouches(e, s', a);
      StackMembers(e, s, list, j, c, after);
    }
  }

  lemma StackMembers(e: Sources, s: Store, list: seq<Action>, j: nat, c: nat, after: seq<nat>)
    requires j < |list| && StackIs(e, list, j, s.pending) && !list[j].act.Mark? && c <= |s.pending|
    requires forall i :: 0 <= i < c ==> e.under(s.pending[i], list[j].path)
    requires forall i :: c <= i < |s.pending| ==> !e.under(s.pending[i], list[j].path)
    requires after == s.pending[..c] + (if list[j].act == Rm(true) then [list[j].path] else [])
    ensures StackIs(e, list, j + 1, after)
  {
    forall d | d in after ensures exists i: nat :: StillOpen(e, list, i, j + 1) && list[i].path == d {
      var k :| 0 <= k < |after| && after[k] == d;
      if k < c {
        assert s.pending[k] in s.pending;
        var i: nat :| StillOpen(e, list, i, j) && list[i].path == d;
        assert StillOpen(e, list, i, j + 1);
      } else {
        assert StillOpen(e, list, j, j + 1);
      }
    }
    forall d, i: nat | StillOpen(e, list, i, j + 1) && list[i].path == d ensures d in after {
      if i == j {
        assert after[|after| - 1] == d;
      } else {
        assert StillOpen(e, list, i, j) && d in s.pending;
        var k :| 0 <= k < |s.pending| && s.pending[k] == d;
        assert k < c && after[k] == d;
      }
    }
  }

  /** After any prefix of any list, the stack is a chain of nested directories: those whose rm has
      been passed and whose scope no line has left. */
  lemma {:induction false} StackOfPrefix(e: Sources, s: Store, list: seq<Action>, j: nat)
    requires e.Valid() && s.Valid() && s.pending == [] && Transitive(e.under) && j <= |list|
    ensures var o := Run(e, s, list[..j]); o.Done? ==> StackIs(e, list, j, o.store.pending)
  {
    hide Step;
    if j > 0 {
      StackOfPrefix(e, s, list, j - 1);
      assert list[..j][..j - 1] == list[..j - 1];
      if Run(e, s, list[..j]).Done? {
        StackStep(e, Run(e, s, list[..j - 1]).store, list, j - 1);
      }
    }
  }

  // ----- leaving a directory

  /** The list is in manifest order. */
  ghost predicate InOrder(t: Names, list: seq<Action>) {
    && (forall i :: 0 <= i < |list| ==> list[i].path < |t.path|)
    && (forall i, j :: 0 <= i < j < |list| ==> Before(t.path[list[i].path], t.path[list[j].path]))
  }

  ghost predicate ScopesAre(e: Sources, t: Names) {
    forall d: nat, x: nat :: e.under(d, x) <==> d < |t.path| && x < |t.path| && t.path[d] != [] && Under(t.path[d], t.path[x])
  }

  lemma ScopesTransitive(e: Sources, t: Names)
    requires ScopesAre(e, t)
    ensures Transitive(e.under)
  {
    forall a: nat, b: nat, c: nat | e.under(a, b) && e.under(b, c) ensures e.under(a, c) {
      UnderTransitive(t.path[a], t.path[b], t.path[c]);
    }
  }

  /** Once a list in manifest order has left a directory, nothing later lies under it. */
  lemma NeverBack(e: Sources, t: Names, list: seq<Action>, i: nat, k: nat, l: nat)
    requires ScopesAre(e, t) && InOrder(t, list) && i < k < l < |list| && !e.under(list[i].path, list[k].path)
    ensures !e.under(list[i].path, list[l].path)
  {
    var d, x, y := t.path[list[i].path], t.path[list[k].path], t.path[list[l].path];
    if Under(d, y) {
      SubtreeTogether(d, y, x);
      BeforeAsymmetric(x, y);
    }
  }

  lemma DistinctPaths(t: Names, list: seq<Action>, i: nat, j: nat)
    requires InOrder(t, list) && i < |list| && j < |list| && i != j
    ensures list[i].path != list[j].path
  {
    if i < j {
      BeforeIrreflexive(t.path[list[i].path]);
    } else {
      BeforeIrreflexive(t.path[list[j].path]);
    }
  }

  /** A removed directory is still there, if it was, while its scope is open, and gone for good from
      the first line outside. */
  ghost predicate RemovedRight(e: Sources, list: seq<Action>, i: nat, j: nat, was: Store, now: Store)
    requires i < j <= |list|
  {
    var d := list[i].path;
    if StillOpen(e, list, i, j) then (d in now.at <==> d in was.at) else d !in now.at
  }

  lemma RemovalStep(e: Sources, t: Names, list: seq<Action>, i: nat, j: nat, was: Store, s: Store)
    requires e.Valid() && s.Valid() && ScopesAre(e, t) && InOrder(t, list) && i < j < |list| && list[i].act == Rm(true)
    requires StackIs(e, list, j, s.pending) && RemovedRight(e, list, i, j, was, s) && Step(e, s, list[j]).Done?
    ensures RemovedRight(e, list, i, j + 1, was, Step(e, s, list[j]).store)
  {
    hide StackIs, InOrder, ScopesAre, Perform;
    var a, d := list[j], list[i].path;
    if a.act.Mark? {
      assert StillOpen(e, list, i, j + 1) <==> StillOpen(e, list, i, j);
    } else {
      ScopesTransitive(e, t);
      StackNested(e, list, j, s.pending);
      var c := CloseKeepsHolders(s, Some(a.path), e.under);
      PerformTouches(e, CloseTo(s, Some(a.path), e.under).store, a);
      DistinctPaths(t, list, i, j);
      WhichClose(e, t, list, i, j, s.pending, c);
    }
  }

  lemma StackNested(e: Sources, list: seq<Action>, j: nat, stack: seq<nat>)
    requires j <= |list| && StackIs(e, list, j, stack)
    ensures Nested(e.under, stack)
  {
  }

  /** The directory of line i is among those closed exactly when line j is the first outside it. */
  lemma WhichClose(e: Sources, t: Names, list: seq<Action>, i: nat, j: nat, stack: seq<nat>, c: nat)
    requires ScopesAre(e, t) && InOrder(t, list) && i < j < |list| && list[i].act == Rm(true) && !list[j].act.Mark?
    requires StackIs(e, list, j, stack) && c <= |stack|
    requires forall k :: 0 <= k < c ==> e.under(stack[k], list[j].path)
    requires forall k :: c <= k < |stack| ==> !e.under(stack[k], list[j].path)
    ensures list[i].path in stack[c..] <==> StillOpen(e, list, i, j) && !StillOpen(e, list, i, j + 1)
    ensures StillOpen(e, list, i, j + 1) ==> StillOpen(e, list, i, j)
  {
    var d := list[i].path;
    if d in stack[c..] {
      var k :| c <= k < |stack| && stack[k] == d;
      assert d in stack;
      var i': nat :| StillOpen(e, list, i', j) && list[i'].path == d;
      if i' != i { DistinctPaths(t, list, i', i); }
    }
    if StillOpen(e, list, i, j) && !StillOpen(e, list, i, j + 1) {
      assert !e.under(d, list[j].path) && d in stack;
      var k :| 0 <= k < |stack| && stack[k] == d;
      assert stack[c..][k - c] == d;
    }
  }

  /** Through a whole run: while the scope is open the directory stays as it was at its rm, and once
      the list has left it, it is gone. */
  lemma {:induction false} RemovedOnLeaving(e: Sources, t: Names, s: Store, list: seq<Action>, i: nat, j: nat)
    requires e.Valid() && s.Valid() && s.pending == [] && ScopesAre(e, t) && InOrder(t, list)
    requires i < j <= |list| && list[i].act == Rm(true) && Run(e, s, list[..j]).Done?
    ensures Run(e, s, list[..i + 1]).Done?
    ensures RemovedRight(e, list, i, j, Run(e, s, list[..i + 1]).store, Run(e, s, list[..j]).store)
    decreases j
  {
    hide Step, StackIs, InOrder, ScopesAre;
    if j > i + 1 {
      assert list[..j][..j - 1] == list[..j - 1];
      RemovedOnLeaving(e, t, s, list, i, j - 1);
      ScopesTransitive(e, t);
      StackOfPrefix(e, s, list, j - 1);
      RemovalStep(e, t, list, i, j - 1, Run(e, s, list[..i + 1]).store, Run(e, s, list[..j - 1]).store);
    }
  }

  /** After a whole apply no directory is left waiting and every one removed is gone. */
  lemma EveryScopeCloses(e: Sources, t: Names, s: Store, list: seq<Action>, i: nat)
    requires e.Valid() && s.Valid() && s.pending == [] && ScopesAre(e, t) && InOrder(t, list)
    requires i < |list| && list[i].act == Rm(true) && ApplyAll(e, s, list).Done?
    ensures ApplyAll(e, s, list).store.pending == [] && list[i].path !in ApplyAll(e, s, list).store.at
  {
    hide Run, InOrder, ScopesAre;
    assert list[..|list|] == list;
    ScopesTransitive(e, t);
    RemovedOnLeaving(e, t, s, list, i, |list|);
    StackOfPrefix(e, s, list, |list|);
    var end := Run(e, s, list).store;
    var c := CloseKeepsHolders(end, None, e.under);
    assert end.pending[0..] == end.pending;
    if StillOpen(e, list, i, |list|) { assert list[i].path in end.pending; }
  }
}
