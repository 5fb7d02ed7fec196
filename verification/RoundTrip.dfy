/** The write walk of `zr_parsed_write`, with its stack of open directories, and the theorem that the
    parser gives back the list it was written from. */
module RoundTrip {
  import opened Trees
  import opened Paths
  import opened Document
  import opened Writer

  /** Whether the directory of entry b is left by a creation. */
  predicate HasSecond(E: seq<Ent>, b: nat) { b + 1 < |E| && E[b + 1].dup }

  function WordOf(deeds: seq<Deed>, e: Ent): Option<Word>
    requires e.act < |deeds|
  {
    if e.act >= 0 then Some(deeds[e.act].word) else None
  }

  /** `zw_line`. */
  function LineOf(deeds: seq<Deed>, e: Ent): Line
    requires e.act < |deeds|
  {
    if e.path == [] then Root(WordOf(deeds, e)) else Name(e.path[|e.path| - 1], e.dir, WordOf(deeds, e))
  }

  ghost predicate InRange(deeds: seq<Deed>, E: seq<Ent>) { forall b :: 0 <= b < |E| ==> E[b].act < |deeds| }

  // ----- what the walk keeps

  /** The open directories: each entry's on the stack, each in the one before it. */
  ghost predicate Open(E: seq<Ent>, i: nat, stack: seq<nat>) {
    && (forall k :: 0 <= k < |stack| ==> stack[k] < i && stack[k] < |E| && E[stack[k]].dir && !E[stack[k]].dup)
    && (stack != [] ==> stack[0] == 0)
    && (forall k :: 0 < k < |stack| ==> E[stack[k]].path != [] && E[stack[k - 1]].path == Parent(E[stack[k]].path))
  }

  /** A closed directory holds nothing still to come. */
  ghost predicate ClosedFor(E: seq<Ent>, i: nat, stack: seq<nat>) {
    forall j: nat, k: nat :: j < i <= k < |E| && E[j].dir && !E[j].dup && j !in stack ==> !Under(E[j].path, E[k].path)
  }

  ghost predicate StackRead(deeds: seq<Deed>, E: seq<Ent>, stack: seq<nat>, st: State)
    requires InRange(deeds, E)
  {
    && |st.stack| == |stack|
    && forall k :: 0 <= k < |stack| ==> stack[k] < |E| && st.stack[k] == Scope(E[stack[k]].path, WordOf(deeds, E[stack[k]]) == Some(Rm))
  }

  ghost predicate SeenRight(E: seq<Ent>, i: nat, st: State) {
    && !Repeats(st.seen)
    && forall s, k :: s in st.seen && i <= k < |E| && !E[k].dup ==> Before(s.path, E[k].path)
  }

  /** a's line may come before every line still to come. */
  ghost predicate Precedes(E: seq<Ent>, i: nat, a: Deed) {
    forall k :: i <= k < |E| && !E[k].dup ==> Before(a.path, E[k].path) && (Under(a.path, E[k].path) ==> a.dir)
  }

  ghost predicate DeedsRight(deeds: seq<Deed>, E: seq<Ent>, i: nat, stack: seq<nat>, st: State)
    requires InRange(deeds, E)
  {
    && (forall x, y :: 0 <= x < y < |st.deeds| ==> Turn(st.deeds[x], st.deeds[y]))
    && (forall a :: a in st.deeds ==> a in deeds && Precedes(E, i, a))
    && (forall a, k :: a in st.deeds && k in stack && HasSecond(E, k) && E[k + 1].act >= 0 ==> Turn(a, deeds[E[k + 1].act]))
  }

  ghost predicate DeedsAll(deeds: seq<Deed>, E: seq<Ent>, i: nat, stack: seq<nat>, st: State)
    requires InRange(deeds, E)
  {
    && (forall j :: 0 <= j < i && j < |E| && !E[j].dup && E[j].act >= 0 ==> deeds[E[j].act] in st.deeds)
    && (forall j :: 0 < j <= i && j < |E| && E[j].dup && E[j].act >= 0 && j - 1 !in stack ==> deeds[E[j].act] in st.deeds)
  }

  /** Parsing what is written up to entry i. */
  ghost predicate Written(deeds: seq<Deed>, E: seq<Ent>, i: nat, stack: seq<nat>, st: State)
    requires InRange(deeds, E)
  {
    && Open(E, i, stack) && ClosedFor(E, i, stack) && StackRead(deeds, E, stack, st)
    && SeenRight(E, i, st) && DeedsRight(deeds, E, i, stack, st) && DeedsAll(deeds, E, i, stack, st)
  }

  // ----- nesting

  /** Every open directory holds the ones opened after it. */
  lemma {:induction false} OpenNested(E: seq<Ent>, i: nat, stack: seq<nat>, k: nat, l: nat)
    requires Open(E, i, stack) && k < l < |stack|
    ensures Under(E[stack[k]].path, E[stack[l]].path)
    decreases l - k
  {
    assert E[stack[l - 1]].path == Parent(E[stack[l]].path);
    if k < l - 1 {
      OpenNested(E, i, stack, k, l - 1);
      UnderTransitive(E[stack[k]].path, E[stack[l - 1]].path, E[stack[l]].path);
    }
  }

  /** Entries earlier in the list come earlier in manifest order. */
  lemma EntriesAscend(E: seq<Ent>, a: nat, b: nat)
    requires Ascends(E) && a < b < |E| && !E[b].dup
    ensures Before(E[a].path, E[b].path)
  {
  }

  /** The innermost open directory, when it holds the next entry, is the entry's own. */
  lemma TopIsParent(deeds: seq<Deed>, E: seq<Ent>, i: nat, stack: seq<nat>)
    requires EntriesFor(deeds, E) && Open(E, i, stack) && ClosedFor(E, i, stack) && stack != [] && 0 < i < |E| && !E[i].dup
    requires Under(E[stack[|stack| - 1]].path, E[i].path)
    ensures E[i].path != [] && E[stack[|stack| - 1]].path == Parent(E[i].path)
  {
    hide Leads, EntRight, PairRight, Ascends, HasAct;
    var top := |stack| - 1;
    assert ParentIn(E, i);
    var p :| 0 <= p < |E| && E[p].path == Parent(E[i].path) && E[p].dir && !E[p].dup;
    assert Under(E[p].path, E[i].path);
    ParentEarlier(E, p, i);
    assert p in stack;
    var k :| 0 <= k < |stack| && stack[k] == p;
    if k < top { OpenNested(E, i, stack, k, top); }
  }

  lemma ParentEarlier(E: seq<Ent>, p: nat, i: nat)
    requires Ascends(E) && p < |E| && i < |E| && Under(E[p].path, E[i].path) && !E[p].dup
    ensures p < i
  {
    UnderIsAfter(E[p].path, E[i].path);
    BeforeAsymmetric(E[p].path, E[i].path);
    if i < p { EntriesAscend(E, i, p); }
  }

  // ----- an action and what lies under it

  /** An action that is the only one of its name has the slash if anything to come lies under it. */
  lemma DirOverEntries(deeds: seq<Deed>, E: seq<Ent>, b: nat, k: nat)
    requires Canonical(deeds) && EntriesFor(deeds, E) && b < |E| && k < |E| && !E[b].dup && 0 <= E[b].act < |deeds|
    requires Under(E[b].path, E[k].path)
    ensures deeds[E[b].act].dir
  {
    hide Canonical, ParentIn, PairRight, Ascends;
    var a := E[b].act;
    assert EntRight(deeds, E[b]) && Leads(deeds, E[k].path);
    var j: nat :| j < |deeds| && (deeds[j].path == E[k].path || Under(E[k].path, deeds[j].path));
    if deeds[j].path != E[k].path { UnderTransitive(E[b].path, E[k].path, deeds[j].path); }
    if !deeds[a].dir {
      LeafOverOthers(deeds, a, j);
      LeafWithRemoval(deeds, E, b);
    }
  }

  /** A leaf whose name a removal also holds is the second line of the name. */
  lemma LeafWithRemoval(deeds: seq<Deed>, E: seq<Ent>, b: nat)
    requires EntriesFor(deeds, E) && b < |E| && !E[b].dup && 0 <= E[b].act < |deeds| && !deeds[E[b].act].dir
    ensures !HasRemoval(deeds, E[b].path)
  {
    hide Leads, ParentIn, PairRight;
    if HasRemoval(deeds, E[b].path) {
      var r := RemovalIndex(deeds, E[b].path);
      assert HasAct(E, r);
      var c :| 0 <= c < |E| && E[c].act == r;
      assert EntRight(deeds, E[c]) && EntRight(deeds, E[b]);
      DirNotDup(deeds, E, c);
      OneEntry(E, b, c);
    }
  }

  lemma OneEntry(E: seq<Ent>, b: nat, c: nat)
    requires Ascends(E) && b < |E| && c < |E| && !E[b].dup && !E[c].dup && E[b].path == E[c].path
    ensures b == c
  {
    BeforeIrreflexive(E[b].path);
    if b < c { EntriesAscend(E, b, c); } else if c < b { EntriesAscend(E, c, b); }
  }

  // ----- a line that is not a second one

  function Pushed(E: seq<Ent>, i: nat, stack: seq<nat>): seq<nat>
    requires i < |E|
  {
    if E[i].dir then stack + [i] else stack
  }

  /** The next entry's line, read where its directory is the innermost open one. */
  ghost predicate AtLine(deeds: seq<Deed>, E: seq<Ent>, i: nat, stack: seq<nat>, st: State)
  {
    && Canonical(deeds) && EntriesFor(deeds, E) && InRange(deeds, E) && 0 < i < |E| && !E[i].dup && stack != []
    && Written(deeds, E, i, stack, st) && Under(E[stack[|stack| - 1]].path, E[i].path)
    && E[i].path != [] && E[stack[|stack| - 1]].path == Parent(E[i].path)
  }

  lemma LinePath(deeds: seq<Deed>, E: seq<Ent>, i: nat, stack: seq<nat>, st: State)
    requires AtLine(deeds, E, i, stack, st)
    ensures st.stack != [] && LineOf(deeds, E[i]).Name?
    ensures st.stack[|st.stack| - 1].path + [LineOf(deeds, E[i]).name] == E[i].path
  {
    hide Canonical, EntriesFor, Open, ClosedFor, SeenRight, DeedsRight, DeedsAll;
    assert Parent(E[i].path) + [E[i].path[|E[i].path| - 1]] == E[i].path;
  }

  lemma EntryLeaf(deeds: seq<Deed>, E: seq<Ent>, i: nat)
    requires Canonical(deeds) && EntriesFor(deeds, E) && i < |E| && E[i].path != []
    ensures NameOk(E[i].path[|E[i].path| - 1])
  {
    hide HasRemoval, Turn, ParentIn, EntsRight, HasAct;
    assert Leads(deeds, E[i].path);
    var j: nat :| j < |deeds| && (deeds[j].path == E[i].path || Under(E[i].path, deeds[j].path));
    assert DeedOk(deeds[j]);
    var n := |E[i].path| - 1;
    assert deeds[j].path[n] == E[i].path[n] by { assert deeds[j].path[..n + 1] == E[i].path; }
    assert deeds[j].path[n] in deeds[j].path;
  }

  lemma LineAccepted(deeds: seq<Deed>, E: seq<Ent>, i: nat, stack: seq<nat>, st: State)
    requires AtLine(deeds, E, i, stack, st)
    ensures st.stack != [] && LineOf(deeds, E[i]).Name? && st.Accepts(LineOf(deeds, E[i]))
  {
    hide Canonical, EntriesFor, Open, ClosedFor, SeenRight, DeedsRight, DeedsAll, NameOk;
    LinePath(deeds, E, i, stack, st);
    EntryLeaf(deeds, E, i);
    EntryWord(deeds, E, i);
  }

  lemma EntryWord(deeds: seq<Deed>, E: seq<Ent>, b: nat)
    requires Canonical(deeds) && EntriesFor(deeds, E) && InRange(deeds, E) && b < |E|
    ensures E[b].act < 0 ==> E[b].dir && !E[b].dup
    ensures E[b].act >= 0 ==> var a := deeds[E[b].act];
      a.path == E[b].path && a.dir == E[b].dir && WordOk(a.word) && (a.word.Ln? ==> Compare(Text(a.word.arg), Text(E[b].path)) < 0)
  {
    hide Turn, HasRemoval, ParentIn, Leads, HasAct, Ascends, PairRight;
    assert EntRight(deeds, E[b]);
    if E[b].act >= 0 { assert DeedOk(deeds[E[b].act]); }
  }

  lemma PushOpen(E: seq<Ent>, i: nat, stack: seq<nat>)
    requires Open(E, i, stack) && stack != [] && i < |E| && !E[i].dup && E[i].path != [] && E[stack[|stack| - 1]].path == Parent(E[i].path)
    ensures Open(E, i + 1, Pushed(E, i, stack))
  {
  }

  lemma PushClosed(E: seq<Ent>, i: nat, stack: seq<nat>)
    requires ClosedFor(E, i, stack) && i < |E|
    ensures ClosedFor(E, i + 1, Pushed(E, i, stack))
  {
    var stack' := Pushed(E, i, stack);
    forall j: nat, k: nat | j < i + 1 <= k < |E| && E[j].dir && !E[j].dup && j !in stack' ensures !Under(E[j].path, E[k].path) {
      if E[i].dir { assert stack'[|stack|] == i; }
      assert j != i && j !in stack;
    }
  }

  lemma PushRead(deeds: seq<Deed>, E: seq<Ent>, i: nat, stack: seq<nat>, st: State)
    requires AtLine(deeds, E, i, stack, st) && st.stack != [] && LineOf(deeds, E[i]).Name?
    requires st.stack[|st.stack| - 1].path + [LineOf(deeds, E[i]).name] == E[i].path
    ensures StackRead(deeds, E, Pushed(E, i, stack), st.AfterName(LineOf(deeds, E[i])))
  {
    hide Canonical, EntriesFor, Open, ClosedFor, SeenRight, DeedsRight, DeedsAll;
  }

  /** A new path among those seen is no repeat. */
  lemma SeeNew(seen: seq<Seen>, x: Seen)
    requires !Repeats(seen) && (x.second || forall s :: s in seen ==> s.path != x.path)
    ensures !Repeats(seen + [x])
  {
    var seen' := seen + [x];
    forall i, j | 0 <= i < j < |seen'| && seen'[i].path == seen'[j].path ensures seen'[j].second {
      assert seen'[i] == seen[i] && seen[i] in seen;
      assert j < |seen| ==> seen[j] == seen'[j];
    }
  }

  lemma LineSeen(deeds: seq<Deed>, E: seq<Ent>, i: nat, stack: seq<nat>, st: State)
    requires AtLine(deeds, E, i, stack, st) && st.stack != [] && LineOf(deeds, E[i]).Name?
    requires st.stack[|st.stack| - 1].path + [LineOf(deeds, E[i]).name] == E[i].path
    ensures SeenRight(E, i + 1, st.AfterName(LineOf(deeds, E[i])))
  {
    hide Canonical, Open, ClosedFor, DeedsRight, DeedsAll, ParentIn, Leads, HasAct, EntRight, PairRight, Repeats, StackRead;
    var st' := st.AfterName(LineOf(deeds, E[i]));
    var x := st'.seen[|st.seen|];
    assert st'.seen == st.seen + [x] && x.path == E[i].path;
    BeforeIrreflexive(E[i].path);
    assert forall s :: s in st.seen ==> s.path != x.path;
    SeeNew(st.seen, x);
    forall s, k | s in st'.seen && i + 1 <= k < |E| && !E[k].dup ensures Before(s.path, E[k].path) {
      if s !in st.seen { EntriesAscend(E, i, k); }
    }
  }

  /** The line's action comes after all read so far. */
  lemma LineTurn(deeds: seq<Deed>, E: seq<Ent>, i: nat, stack: seq<nat>, st: State, a: Deed)
    requires AtLine(deeds, E, i, stack, st) && E[i].act >= 0 && a in st.deeds
    ensures deeds[E[i].act].path == E[i].path && Turn(a, deeds[E[i].act])
  {
    hide Canonical, Open, ClosedFor, DeedsAll, StackRead, SeenRight, EntriesFor;
    EntryWord(deeds, E, i);
    assert Precedes(E, i, a);
  }

  lemma LinePrecedes(deeds: seq<Deed>, E: seq<Ent>, i: nat, stack: seq<nat>, st: State)
    requires AtLine(deeds, E, i, stack, st) && E[i].act >= 0
    ensures Precedes(E, i + 1, deeds[E[i].act]) && deeds[E[i].act] in deeds
  {
    hide Canonical, Written, ParentIn, Leads, HasAct, PairRight;
    EntryWord(deeds, E, i);
    forall k | i + 1 <= k < |E| && !E[k].dup
      ensures Before(E[i].path, E[k].path) && (Under(E[i].path, E[k].path) ==> deeds[E[i].act].dir)
    {
      EntriesAscend(E, i, k);
      if Under(E[i].path, E[k].path) { DirOverEntries(deeds, E, i, k); }
    }
  }

  /** A creation waiting for an open directory waits for all that is read in it. */
  lemma WaitingTurn(deeds: seq<Deed>, E: seq<Ent>, i: nat, stack: seq<nat>, st: State, k: nat)
    requires AtLine(deeds, E, i, stack, st) && E[i].act >= 0 && k in stack && HasSecond(E, k) && E[k + 1].act >= 0
    ensures Turn(deeds[E[i].act], deeds[E[k + 1].act])
  {
    hide Canonical, ClosedFor, DeedsAll, DeedsRight, StackRead, SeenRight, ParentIn, Leads, HasAct, Ascends;
    var l :| 0 <= l < |stack| && stack[l] == k;
    EntryWord(deeds, E, i);
    EntryWord(deeds, E, k + 1);
    assert PairRight(deeds, E, k + 1);
    if l < |stack| - 1 {
      OpenNested(E, i, stack, l, |stack| - 1);
      UnderTransitive(E[k].path, E[stack[|stack| - 1]].path, E[i].path);
    }
  }

  /** A creation that follows the directory just opened comes after all read so far. */
  lemma OpenedTurn(deeds: seq<Deed>, E: seq<Ent>, i: nat, stack: seq<nat>, st: State, a: Deed)
    requires AtLine(deeds, E, i, stack, st) && HasSecond(E, i) && E[i + 1].act >= 0
    requires a in st.deeds || (E[i].act >= 0 && a == deeds[E[i].act])
    ensures Turn(a, deeds[E[i + 1].act])
  {
    hide Canonical, Open, ClosedFor, DeedsAll, StackRead, SeenRight, ParentIn, Leads, HasAct, Ascends;
    EntryWord(deeds, E, i + 1);
    assert PairRight(deeds, E, i + 1);
    if a in st.deeds { assert Precedes(E, i, a); } else { EntryWord(deeds, E, i); }
  }

  lemma LineDeeds(deeds: seq<Deed>, E: seq<Ent>, i: nat, stack: seq<nat>, st: State)
    requires AtLine(deeds, E, i, stack, st) && st.stack != [] && LineOf(deeds, E[i]).Name?
    requires st.stack[|st.stack| - 1].path + [LineOf(deeds, E[i]).name] == E[i].path
    ensures DeedsRight(deeds, E, i + 1, Pushed(E, i, stack), st.AfterName(LineOf(deeds, E[i])))
  {
    hide Canonical, Open, ClosedFor, DeedsAll, StackRead, SeenRight, EntriesFor, Turn;
    var st' := st.AfterName(LineOf(deeds, E[i]));
    var stack' := Pushed(E, i, stack);
    EntryWord(deeds, E, i);
    assert E[i].act >= 0 ==> st'.deeds == st.deeds + [deeds[E[i].act]];
    if E[i].act >= 0 { LinePrecedes(deeds, E, i, stack, st); }
    forall x, y | 0 <= x < y < |st'.deeds| ensures Turn(st'.deeds[x], st'.deeds[y]) {
      if y == |st.deeds| { LineTurn(deeds, E, i, stack, st, st.deeds[x]); }
    }
    forall a | a in st'.deeds ensures a in deeds && Precedes(E, i + 1, a) {
      if a in st.deeds { assert Precedes(E, i, a); }
    }
    forall a, k: nat | a in st'.deeds && k in stack' && HasSecond(E, k) && E[k + 1].act >= 0 ensures Turn(a, deeds[E[k + 1].act]) {
      if k in stack {
        if a !in st.deeds { WaitingTurn(deeds, E, i, stack, st, k); }
      } else {
        OpenedTurn(deeds, E, i, stack, st, a);
      }
    }
  }

  lemma LineAll(deeds: seq<Deed>, E: seq<Ent>, i: nat, stack: seq<nat>, st: State)
    requires AtLine(deeds, E, i, stack, st) && st.stack != [] && LineOf(deeds, E[i]).Name?
    requires st.stack[|st.stack| - 1].path + [LineOf(deeds, E[i]).name] == E[i].path
    ensures DeedsAll(deeds, E, i + 1, Pushed(E, i, stack), st.AfterName(LineOf(deeds, E[i])))
  {
    hide Canonical, Open, ClosedFor, StackRead, SeenRight, DeedsRight, ParentIn, Leads, HasAct, Ascends;
    var st' := st.AfterName(LineOf(deeds, E[i]));
    var stack' := Pushed(E, i, stack);
    EntryWord(deeds, E, i);
    forall a | a in st.deeds ensures a in st'.deeds {}
    if E[i].act >= 0 { assert st'.deeds[|st.deeds|] == deeds[E[i].act]; }
    if E[i].dir { assert stack'[|stack|] == i; }
    assert forall k :: k in stack ==> k in stack';
    forall j | 0 < j <= i + 1 && j < |E| && E[j].dup && E[j].act >= 0 && j - 1 !in stack' ensures deeds[E[j].act] in st'.deeds {
      assert PairRight(deeds, E, j);
      assert j <= i ==> j - 1 !in stack;
    }
  }

  /** Reading the next entry's line keeps what the walk keeps. */
  lemma LineStep(deeds: seq<Deed>, E: seq<Ent>, i: nat, stack: seq<nat>, st: State)
    requires AtLine(deeds, E, i, stack, st)
    ensures st.stack != [] && st.After(LineOf(deeds, E[i])).Some?
    ensures Written(deeds, E, i + 1, Pushed(E, i, stack), st.After(LineOf(deeds, E[i])).value)
  {
    LineAccepted(deeds, E, i, stack, st);
    LinePath(deeds, E, i, stack, st);
    LineParts(deeds, E, i, stack, st);
  }

  lemma LineParts(deeds: seq<Deed>, E: seq<Ent>, i: nat, stack: seq<nat>, st: State)
    requires AtLine(deeds, E, i, stack, st) && st.stack != [] && LineOf(deeds, E[i]).Name?
    requires st.stack[|st.stack| - 1].path + [LineOf(deeds, E[i]).name] == E[i].path
    ensures Written(deeds, E, i + 1, Pushed(E, i, stack), st.AfterName(LineOf(deeds, E[i])))
  {
    hide Canonical, EntriesFor, Open, ClosedFor, StackRead, SeenRight, DeedsRight, DeedsAll, Pushed;
    PushOpen(E, i, stack);
    PushClosed(E, i, stack);
    PushRead(deeds, E, i, stack, st);
    LineSeen(deeds, E, i, stack, st);
    LineDeeds(deeds, E, i, stack, st);
    LineAll(deeds, E, i, stack, st);
  }

  /** A second line is not written in its turn. */
  lemma SkipStep(deeds: seq<Deed>, E: seq<Ent>, i: nat, stack: seq<nat>, st: State)
    requires EntriesFor(deeds, E) && InRange(deeds, E) && 0 < i < |E| && E[i].dup && Written(deeds, E, i, stack, st)
    ensures Written(deeds, E, i + 1, stack, st)
  {
    hide ParentIn, Leads, HasAct, Ascends, Turn, Repeats, Before;
    forall j | 0 < j <= i + 1 && j < |E| && E[j].dup && E[j].act >= 0 && j - 1 !in stack ensures deeds[E[j].act] in st.deeds {
      assert PairRight(deeds, E, j);
    }
    forall a | a in st.deeds ensures Precedes(E, i + 1, a) { assert Precedes(E, i, a); }
  }

  // ----- two dots, and the creation that may follow

  /** The innermost open directory holds nothing more. */
  ghost predicate AtClose(deeds: seq<Deed>, E: seq<Ent>, i: nat, stack: seq<nat>, st: State) {
    && Canonical(deeds) && EntriesFor(deeds, E) && InRange(deeds, E) && i <= |E| && stack != []
    && Written(deeds, E, i, stack, st)
    && (i < |E| ==> !E[i].dup && !Under(E[stack[|stack| - 1]].path, E[i].path))
  }

  function Popped(stack: seq<nat>): seq<nat>
    requires stack != []
  {
    stack[..|stack| - 1]
  }

  lemma NothingLater(deeds: seq<Deed>, E: seq<Ent>, i: nat, stack: seq<nat>, st: State, k: nat)
    requires AtClose(deeds, E, i, stack, st) && i <= k < |E|
    ensures stack[|stack| - 1] < i && !Under(E[stack[|stack| - 1]].path, E[k].path)
  {
    hide Canonical, ParentIn, Leads, HasAct, PairRight, EntRight, ClosedFor, StackRead, SeenRight, DeedsRight, DeedsAll;
    var t := stack[|stack| - 1];
    EntriesAscend(E, t, i);
    if i < k && Under(E[t].path, E[k].path) {
      SubtreeTogether(E[t].path, E[k].path, E[i].path);
      LaterPath(E, i, k);
    }
  }

  lemma LaterPath(E: seq<Ent>, i: nat, k: nat)
    requires Ascends(E) && i < k < |E|
    ensures E[i].path == E[k].path || Before(E[i].path, E[k].path)
    ensures !Before(E[k].path, E[i].path)
  {
    BeforeIrreflexive(E[i].path);
    if Before(E[i].path, E[k].path) { BeforeAsymmetric(E[i].path, E[k].path); }
  }

  lemma PopOpen(E: seq<Ent>, i: nat, stack: seq<nat>)
    requires Open(E, i, stack) && stack != []
    ensures Open(E, i, Popped(stack))
  {
  }

  lemma PopClosed(deeds: seq<Deed>, E: seq<Ent>, i: nat, stack: seq<nat>, st: State)
    requires AtClose(deeds, E, i, stack, st)
    ensures ClosedFor(E, i, Popped(stack))
  {
    hide Canonical, EntriesFor, StackRead, SeenRight, DeedsRight, DeedsAll, Open;
    var t := stack[|stack| - 1];
    assert stack == Popped(stack) + [t];
    forall j: nat, k: nat | j < i <= k < |E| && E[j].dir && !E[j].dup && j !in Popped(stack) ensures !Under(E[j].path, E[k].path) {
      if j == t { NothingLater(deeds, E, i, stack, st, k); }
    }
  }

  /** Closing a directory no creation follows. */
  lemma PlainClose(deeds: seq<Deed>, E: seq<Ent>, i: nat, stack: seq<nat>, st: State)
    requires AtClose(deeds, E, i, stack, st) && !HasSecond(E, stack[|stack| - 1])
    ensures st.stack != [] && Written(deeds, E, i, Popped(stack), st.AfterClose())
  {
    hide Canonical, EntriesFor, Open, ClosedFor, Precedes, Repeats, Turn;
    PopOpen(E, i, stack);
    PopClosed(deeds, E, i, stack, st);
    var t := stack[|stack| - 1];
    assert stack == Popped(stack) + [t];
    PopAll(deeds, E, i, stack, st, st.AfterClose());
  }

  /** Popping a directory whose creation, if it has one, is read loses no action. */
  lemma PopAll(deeds: seq<Deed>, E: seq<Ent>, i: nat, stack: seq<nat>, st: State, st': State)
    requires InRange(deeds, E) && stack != [] && DeedsAll(deeds, E, i, stack, st) && forall a :: a in st.deeds ==> a in st'.deeds
    requires var t := stack[|stack| - 1]; HasSecond(E, t) && E[t + 1].act >= 0 ==> deeds[E[t + 1].act] in st'.deeds
    ensures DeedsAll(deeds, E, i, Popped(stack), st')
  {
    var t := stack[|stack| - 1];
    assert stack == Popped(stack) + [t];
    forall j | 0 < j <= i && j < |E| && E[j].dup && E[j].act >= 0 && j - 1 !in Popped(stack) ensures deeds[E[j].act] in st'.deeds {
      if j - 1 != t { assert j - 1 !in stack; }
    }
  }

  /** The creation of the directory just closed. */
  ghost predicate AtSecond(deeds: seq<Deed>, E: seq<Ent>, i: nat, stack: seq<nat>, st: State) {
    AtClose(deeds, E, i, stack, st) && HasSecond(E, stack[|stack| - 1])
  }

  /** What the second line of a name is: the creation that takes it from a removed directory. */
  predicate SecondLine(deeds: seq<Deed>, E: seq<Ent>, t: nat) {
    && t + 1 < |E| && E[t].act < |deeds| && 0 <= E[t + 1].act < |deeds|
    && var e := E[t + 1]; var a := deeds[e.act];
       && e.path == E[t].path && e.path != [] && !e.dir && Creates(false, Some(a.word)) && WordOf(deeds, E[t]) == Some(Rm)
       && a.path == e.path && !a.dir && WordOk(a.word) && (a.word.Ln? ==> Compare(Text(a.word.arg), Text(e.path)) < 0)
  }

  lemma SecondIs(deeds: seq<Deed>, E: seq<Ent>, i: nat, stack: seq<nat>, st: State)
    requires AtSecond(deeds, E, i, stack, st)
    ensures SecondLine(deeds, E, stack[|stack| - 1])
    ensures |stack| > 1 && E[stack[|stack| - 2]].path == Parent(E[stack[|stack| - 1]].path)
  {
    hide ParentIn, Leads, HasAct, Ascends, ClosedFor, StackRead, SeenRight, DeedsRight, DeedsAll, Turn, HasRemoval;
    var t := stack[|stack| - 1];
    EntryWord(deeds, E, t + 1);
    assert PairRight(deeds, E, t + 1);
    ActionNotRoot(deeds, E[t + 1].act);
  }

  /** The second line is read as one, in the directory that holds the closed one. */
  predicate SecondRead(st: State, l: Line, path: Path) {
    && l.Name? && |st.stack| > 1
    && var st1 := st.AfterClose();
       st1.Accepts(l) && st1.stack[|st1.stack| - 1].path + [l.name] == path && st1.Second(path, l.dir, l.word)
  }

  lemma SecondAccepted(deeds: seq<Deed>, E: seq<Ent>, i: nat, stack: seq<nat>, st: State)
    requires AtSecond(deeds, E, i, stack, st)
    ensures SecondRead(st, LineOf(deeds, E[stack[|stack| - 1] + 1]), E[stack[|stack| - 1]].path)
  {
    hide Canonical, EntriesFor, Open, ClosedFor, SeenRight, DeedsRight, DeedsAll, NameOk, WordOk;
    SecondIs(deeds, E, i, stack, st);
    var t := stack[|stack| - 1];
    EntryLeaf(deeds, E, t + 1);
    assert Parent(E[t].path) + [E[t].path[|E[t].path| - 1]] == E[t].path;
  }

  /** The state after the second line of the innermost open directory. */
  function AfterSecond(deeds: seq<Deed>, E: seq<Ent>, t: nat, st: State): State
    requires t + 1 < |E| && E[t + 1].act < |deeds| && SecondRead(st, LineOf(deeds, E[t + 1]), E[t].path)
  {
    st.AfterClose().AfterName(LineOf(deeds, E[t + 1]))
  }

  lemma AfterSecondIs(deeds: seq<Deed>, E: seq<Ent>, t: nat, st: State)
    requires SecondLine(deeds, E, t) && SecondRead(st, LineOf(deeds, E[t + 1]), E[t].path)
    ensures var st' := AfterSecond(deeds, E, t, st);
      && st'.stack == st.stack[..|st.stack| - 1] && st'.seen == st.seen + [Seen(E[t].path, true)]
      && st'.deeds == st.deeds + [deeds[E[t + 1].act]]
  {
    hide Compare, Text, WordOk, NameOk;
  }

  /** The second line is read, and what the walk keeps is kept. */
  ghost predicate SecondDone(deeds: seq<Deed>, E: seq<Ent>, i: nat, t: nat, stack: seq<nat>, st: State)
    requires InRange(deeds, E) && t + 1 < |E| && stack != []
  {
    && SecondRead(st, LineOf(deeds, E[t + 1]), E[t].path)
    && Written(deeds, E, i, Popped(stack), AfterSecond(deeds, E, t, st))
  }

  /** Closing a directory whose name a creation takes. */
  lemma SecondClose(deeds: seq<Deed>, E: seq<Ent>, i: nat, stack: seq<nat>, st: State, t: nat)
    requires AtSecond(deeds, E, i, stack, st) && t == stack[|stack| - 1]
    ensures InRange(deeds, E) && t + 1 < |E| && stack != [] && SecondDone(deeds, E, i, t, stack, st)
  {
    hide Canonical, EntriesFor, Open, ClosedFor, SeenRight, DeedsRight, DeedsAll, SecondRead, AfterSecond, WordOk, Compare, Text;
    SecondAccepted(deeds, E, i, stack, st);
    SecondIs(deeds, E, i, stack, st);
    PopOpen(E, i, stack);
    PopClosed(deeds, E, i, stack, st);
    SecondSeen(deeds, E, i, stack, st, t);
    SecondDeeds(deeds, E, i, stack, st, t);
    var st' := AfterSecond(deeds, E, t, st);
    AfterSecondIs(deeds, E, t, st);
    assert st'.deeds[|st.deeds|] == deeds[E[t + 1].act];
    forall a | a in st.deeds ensures a in st'.deeds {}
    PopAll(deeds, E, i, stack, st, st');
  }

  lemma SecondSeen(deeds: seq<Deed>, E: seq<Ent>, i: nat, stack: seq<nat>, st: State, t: nat)
    requires SecondLine(deeds, E, t) && SecondRead(st, LineOf(deeds, E[t + 1]), E[t].path)
    requires stack != [] && t == stack[|stack| - 1] && AtSecond(deeds, E, i, stack, st)
    ensures SeenRight(E, i, AfterSecond(deeds, E, t, st))
  {
    hide Canonical, ClosedFor, DeedsRight, DeedsAll, ParentIn, Leads, HasAct, EntRight, PairRight, Repeats, SecondLine, SecondRead, AfterSecond;
    AfterSecondIs(deeds, E, t, st);
    var st' := AfterSecond(deeds, E, t, st);
    SeeNew(st.seen, Seen(E[t].path, true));
    forall s, k | s in st'.seen && i <= k < |E| && !E[k].dup ensures Before(s.path, E[k].path) {
      if s !in st.seen { EntriesAscend(E, t, k); }
    }
  }

  lemma SecondDeeds(deeds: seq<Deed>, E: seq<Ent>, i: nat, stack: seq<nat>, st: State, t: nat)
    requires SecondLine(deeds, E, t) && SecondRead(st, LineOf(deeds, E[t + 1]), E[t].path)
    requires stack != [] && t == stack[|stack| - 1] && AtSecond(deeds, E, i, stack, st)
    ensures DeedsRight(deeds, E, i, Popped(stack), AfterSecond(deeds, E, t, st))
  {
    hide Canonical, ClosedFor, DeedsAll, StackRead, SeenRight, EntriesFor, Turn, WordOk, SecondRead, AfterSecond, Precedes, Compare, Text;
    AfterSecondIs(deeds, E, t, st);
    var c := deeds[E[t + 1].act];
    assert stack == Popped(stack) + [t] && t in stack;
    SecondPrecedes(deeds, E, i, stack, st, c);
    var st' := AfterSecond(deeds, E, t, st);
    forall a | a in st.deeds ensures Turn(a, c) { assert HasSecond(E, t); }
    forall x, y | 0 <= x < y < |st'.deeds| ensures Turn(st'.deeds[x], st'.deeds[y]) {
      if y == |st.deeds| { assert st.deeds[x] in st.deeds; }
    }
    forall a | a in st'.deeds ensures a in deeds && Precedes(E, i, a) {}
    forall k: nat | k in Popped(stack) && HasSecond(E, k) && E[k + 1].act >= 0 ensures Turn(c, deeds[E[k + 1].act]) {
      SecondsNest(deeds, E, i, stack, st, k);
    }
  }

  lemma SecondPrecedes(deeds: seq<Deed>, E: seq<Ent>, i: nat, stack: seq<nat>, st: State, c: Deed)
    requires AtSecond(deeds, E, i, stack, st) && c.path == E[stack[|stack| - 1]].path
    ensures Precedes(E, i, c)
  {
    hide Canonical, ClosedFor, DeedsAll, DeedsRight, StackRead, SeenRight, ParentIn, Leads, HasAct, EntRight, PairRight;
    var t := stack[|stack| - 1];
    forall k | i <= k < |E| && !E[k].dup ensures Before(c.path, E[k].path) && !Under(c.path, E[k].path) {
      EntriesAscend(E, t, k);
      NothingLater(deeds, E, i, stack, st, k);
    }
  }

  lemma SecondsNest(deeds: seq<Deed>, E: seq<Ent>, i: nat, stack: seq<nat>, st: State, k: nat)
    requires AtSecond(deeds, E, i, stack, st) && k in Popped(stack) && HasSecond(E, k) && E[k + 1].act >= 0
    requires 0 <= E[stack[|stack| - 1] + 1].act < |deeds|
    ensures Turn(deeds[E[stack[|stack| - 1] + 1].act], deeds[E[k + 1].act])
  {
    hide Canonical, ClosedFor, DeedsAll, DeedsRight, StackRead, SeenRight, ParentIn, Leads, HasAct, Ascends;
    var l :| 0 <= l < |stack| - 1 && stack[l] == k;
    var t := stack[|stack| - 1];
    OpenNested(E, i, stack, l, |stack| - 1);
    EntryWord(deeds, E, t + 1);
    EntryWord(deeds, E, k + 1);
    assert PairRight(deeds, E, t + 1) && PairRight(deeds, E, k + 1);
  }

  // ----- the write walk

  lemma ReadOne(body: seq<Line>, l: Line)
    requires Read(body).Some? && Read(body).value.stack != []
    ensures Read(body + [l]) == Read(body).value.After(l)
  {
    assert (body + [l])[..|body|] == body;
  }

  /** What is written so far reads back right, if the format can carry the list. */
  ghost predicate ReadsBack(deeds: seq<Deed>, E: seq<Ent>, i: nat, stack: seq<nat>, body: seq<Line>)
    requires InRange(deeds, E)
  {
    Canonical(deeds) ==> EntriesFor(deeds, E) && Read(body).Some? && Written(deeds, E, i, stack, Read(body).value)
  }

  lemma StartReads(deeds: seq<Deed>, E: seq<Ent>)
    requires InRange(deeds, E) && E != [] && (Canonical(deeds) ==> EntriesFor(deeds, E))
    ensures ReadsBack(deeds, E, 1, [0], [])
  {
    hide Canonical, ParentIn, Leads, HasAct;
    if Canonical(deeds) {
      assert [0][0] == 0;
    }
  }

  lemma ReadSecond(deeds: seq<Deed>, E: seq<Ent>, t: nat, body: seq<Line>)
    requires t + 1 < |E| && E[t + 1].act < |deeds| && Read(body).Some?
    requires SecondRead(Read(body).value, LineOf(deeds, E[t + 1]), E[t].path)
    ensures Read(body + [Close] + [LineOf(deeds, E[t + 1])]) == Some(AfterSecond(deeds, E, t, Read(body).value))
  {
    hide LineOf, NameOk, WordOk, Compare, Text;
    ReadOne(body, Close);
    ReadOne(body + [Close], LineOf(deeds, E[t + 1]));
  }

  /** The lines that close the innermost open directory. */
  function CloseLines(deeds: seq<Deed>, E: seq<Ent>, t: nat): seq<Line>
    requires InRange(deeds, E)
  {
    if HasSecond(E, t) then [Close, LineOf(deeds, E[t + 1])] else [Close]
  }

  lemma CloseReads(deeds: seq<Deed>, E: seq<Ent>, i: nat, stack: seq<nat>, body: seq<Line>)
    requires InRange(deeds, E) && stack != [] && i <= |E| && ReadsBack(deeds, E, i, stack, body) && Canonical(deeds)
    requires stack[|stack| - 1] < |E| && (i < |E| ==> !E[i].dup && !Under(E[stack[|stack| - 1]].path, E[i].path))
    ensures ReadsBack(deeds, E, i, Popped(stack), body + CloseLines(deeds, E, stack[|stack| - 1]))
  {
    hide Canonical, EntriesFor, Written, LineOf;
    var t := stack[|stack| - 1];
    var st := Read(body).value;
    assert AtClose(deeds, E, i, stack, st);
    if HasSecond(E, t) {
      SecondClose(deeds, E, i, stack, st, t);
      ReadSecond(deeds, E, t, body);
      assert body + [Close] + [LineOf(deeds, E[t + 1])] == body + CloseLines(deeds, E, t);
    } else {
      PlainClose(deeds, E, i, stack, st);
      ReadOne(body, Close);
    }
  }

  /** `zw_close` for the innermost open directory. */
  method CloseTop(deeds: seq<Deed>, E: seq<Ent>, ghost i: nat, stack: seq<nat>, body: seq<Line>) returns (out: seq<Line>)
    requires InRange(deeds, E) && stack != [] && i <= |E| && ReadsBack(deeds, E, i, stack, body)
    requires stack[|stack| - 1] < |E| && (i < |E| ==> !E[i].dup && !Under(E[stack[|stack| - 1]].path, E[i].path))
    ensures ReadsBack(deeds, E, i, Popped(stack), out)
  {
    hide Canonical, EntriesFor, Written, LineOf, Read;
    var t := stack[|stack| - 1];
    out := body + [Close];
    if HasSecond(E, t) {
      out := out + [LineOf(deeds, E[t + 1])];
    }
    if Canonical(deeds) {
      CloseReads(deeds, E, i, stack, body);
      assert out == body + CloseLines(deeds, E, t);
    }
  }

  lemma LineReads(deeds: seq<Deed>, E: seq<Ent>, i: nat, stack: seq<nat>, body: seq<Line>)
    requires InRange(deeds, E) && stack != [] && 0 < i < |E| && !E[i].dup && ReadsBack(deeds, E, i, stack, body)
    requires stack[|stack| - 1] < |E| && Under(E[stack[|stack| - 1]].path, E[i].path)
    ensures ReadsBack(deeds, E, i + 1, Pushed(E, i, stack), body + [LineOf(deeds, E[i])])
  {
    hide Canonical, EntriesFor, Written, LineOf, Pushed;
    if Canonical(deeds) {
      var st := Read(body).value;
      WrittenParts(deeds, E, i, stack, st);
      TopIsParent(deeds, E, i, stack);
      LineStep(deeds, E, i, stack, st);
      ReadOne(body, LineOf(deeds, E[i]));
    }
  }

  lemma WrittenParts(deeds: seq<Deed>, E: seq<Ent>, i: nat, stack: seq<nat>, st: State)
    requires InRange(deeds, E) && Written(deeds, E, i, stack, st)
    ensures Open(E, i, stack) && ClosedFor(E, i, stack)
  {
  }

  lemma SkipReads(deeds: seq<Deed>, E: seq<Ent>, i: nat, stack: seq<nat>, body: seq<Line>)
    requires InRange(deeds, E) && 0 < i < |E| && E[i].dup && ReadsBack(deeds, E, i, stack, body)
    ensures ReadsBack(deeds, E, i + 1, stack, body)
  {
    hide Canonical, EntriesFor, Written;
    if Canonical(deeds) { SkipStep(deeds, E, i, stack, Read(body).value); }
  }

  /** At the end all is closed, and what was read is the list. */
  lemma AllRead(deeds: seq<Deed>, E: seq<Ent>, body: seq<Line>)
    requires InRange(deeds, E) && ReadsBack(deeds, E, |E|, [], body) && Canonical(deeds)
    ensures Parse([Root(None)] + body) == Some(deeds)
  {
    hide Turn, ParentIn, Leads, Ascends, Repeats, PairRight, HasRemoval;
    assert ([Root(None)] + body)[1..] == body;
    var st := Read(body).value;
    forall a ensures a in st.deeds <==> a in deeds {
      if a in deeds {
        var j: nat :| j < |deeds| && deeds[j] == a;
        assert HasAct(E, j);
        var b :| 0 <= b < |E| && E[b].act == j;
      }
    }
    TurnFixes(st.deeds, deeds);
  }

  /** The root stays open to the end, in a list the format can carry. */
  lemma RootHoldsAll(deeds: seq<Deed>, E: seq<Ent>, i: nat, body: seq<Line>)
    requires InRange(deeds, E) && 0 < i < |E| && !E[i].dup && ReadsBack(deeds, E, i, [], body)
    ensures !Canonical(deeds) && ReadsBack(deeds, E, i + 1, Pushed(E, i, []), body + [LineOf(deeds, E[i])])
  {
    hide Canonical, ParentIn, Leads, HasAct, EntRight, PairRight, StackRead, SeenRight, DeedsRight, DeedsAll;
    if Canonical(deeds) {
      EntriesAscend(E, 0, i);
      RootHolds(E[i].path);
    }
  }

  lemma RootHolds(p: Path)
    requires p != []
    ensures Under([], p)
  {
    assert p[..0] == [];
  }

  lemma RootPlain(deeds: seq<Deed>, E: seq<Ent>)
    requires EntriesFor(deeds, E) && InRange(deeds, E)
    ensures LineOf(deeds, E[0]) == Root(None)
  {
  }

  /** `zr_parsed_write`: the tree section of a list; what the format can carry, the parser gives back. */
  method WriteTree(deeds: seq<Deed>) returns (lines: seq<Line>)
    ensures Canonical(deeds) ==> Parse(lines) == Some(deeds)
  {
    hide Canonical, EntriesFor, Written, LineOf, ReadsBack, Under, Parse;
    var E := Entries(deeds);
    var stack: seq<nat> := [0];
    var body: seq<Line> := [];
    StartReads(deeds, E);
    for i: nat := 1 to |E|
      invariant ReadsBack(deeds, E, i, stack, body) && forall k :: 0 <= k < |stack| ==> stack[k] < i
    {
      if E[i].dup {
        SkipReads(deeds, E, i, stack, body);
      } else {
        while stack != [] && !Under(E[stack[|stack| - 1]].path, E[i].path)
          invariant ReadsBack(deeds, E, i, stack, body) && forall k :: 0 <= k < |stack| ==> stack[k] < i
        {
          body := CloseTop(deeds, E, i, stack, body);
          stack := Popped(stack);
        }
        if stack != [] {
          LineReads(deeds, E, i, stack, body);
        } else {
          RootHoldsAll(deeds, E, i, body);
        }
        body := body + [LineOf(deeds, E[i])];
        stack := Pushed(E, i, stack);
      }
    }
    while stack != []
      invariant ReadsBack(deeds, E, |E|, stack, body) && forall k :: 0 <= k < |stack| ==> stack[k] < |E|
    {
      body := CloseTop(deeds, E, |E|, stack, body);
      stack := Popped(stack);
    }
    lines := [LineOf(deeds, E[0])] + body;
    if Canonical(deeds) {
      RootPlain(deeds, E);
      AllRead(deeds, E, body);
    }
  }

  // ----- what the parser never gives

  ghost predicate StateOk(st: State) {
    && (forall s, c :: s in st.stack && c in s.path ==> NameOk(c))
    && (forall a :: a in st.deeds ==> DeedOk(a))
  }

  lemma NameStateOk(st: State, l: Line)
    requires StateOk(st) && l.Name? && st.stack != [] && st.Accepts(l)
    ensures StateOk(st.AfterName(l))
  {
    hide Compare, Text, NameOk;
    var top := st.stack[|st.stack| - 1];
    assert top in st.stack;
    var path := top.path + [l.name];
    forall c | c in path ensures NameOk(c) { if c !in top.path { assert c == l.name; } }
  }

  /** Every action read is one the format can say, whatever the text. */
  lemma {:induction false} ReadIsOk(lines: seq<Line>)
    ensures Read(lines).Some? ==> StateOk(Read(lines).value)
  {
    hide Compare, Text, NameOk, DeedOk;
    if lines != [] {
      var before := Read(lines[..|lines| - 1]);
      ReadIsOk(lines[..|lines| - 1]);
      if before.Some? && before.value.stack != [] && lines[|lines| - 1].Name? && before.value.Accepts(lines[|lines| - 1]) {
        NameStateOk(before.value, lines[|lines| - 1]);
      }
    }
  }

  /** No text reads as an action on the root, or from it: a list that has one is lost in writing. */
  lemma RootNeverRead(lines: seq<Line>, deeds: seq<Deed>)
    requires Parse(lines) == Some(deeds)
    ensures forall a :: a in deeds ==> a.path != [] && DeedOk(a)
  {
    hide Repeats, Compare, Text, NameOk;
    ReadIsOk(lines[1..]);
  }
}
