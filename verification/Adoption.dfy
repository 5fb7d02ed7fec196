/** Permissive adoption: the in-place loop of `pass_yellow` reaches the least fixed point of one
    operator, so the table does not depend on the order in which names are visited. */
module Adoption {
  import opened Trees
  import opened MergeSpec
  import opened ContentSpec

  ghost predicate CellBelow(a: Cell, b: Cell) { a.Pending? || a == b }

  lemma {:induction false} FollowMonotone(m: Merge, names: seq<nat>, c: Content, t: Table, u: Table, seen: Cell)
    requires m.Valid() && |t| == m.n && Below(t, u)
    ensures CellBelow(Follow(m, names, c, t, seen), Follow(m, names, c, u, seen))
  {
    if names != [] {
      var y := names[0];
      FollowMonotone(m, names[1..], c, t, u, seen);
      if Kept(m, y, c) && m.Survives(y) {
        assert t[y].Pending? || t[y] == u[y];
        FollowMonotone(m, names[1..], c, t, u, t[y]);
      }
    }
  }

  lemma {:induction false} ResolveMonotone(m: Merge, v: Value, t: Table, u: Table)
    requires m.Valid() && |t| == m.n && RefsValid(m, v) && Below(t, u)
    ensures CellBelow(Resolve(m, v, t), Resolve(m, v, u))
    decreases v
  {
    match v
    case Ref(s, q, c) => FollowMonotone(m, m.T(s).pools[q].names, c, t, u, Pending);
    case Pair(a, b) =>
      ResolveMonotone(m, a, t, u);
      ResolveMonotone(m, b, t, u);
    case _ =>
  }

  /** The operator is monotone in the order that puts Pending below every answer. */
  lemma AskedMonotone(m: Merge, t: Table, u: Table, x: nat)
    requires m.Valid() && |t| == m.n && Below(t, u) && x < m.n
    ensures CellBelow(Asked(m, t, x), Asked(m, u, x))
  {
    if m.InBase(x) {
      ResolveMonotone(m, Merged(m, x), t, u);
    }
  }

  /** t is an honest part of every fixed point, and asks for nothing it has not already. */
  ghost predicate Sound(m: Merge, t: Table)
    requires m.Valid()
  {
    && |t| == m.n
    && (forall x :: 0 <= x < m.n ==> CellBelow(t[x], Asked(m, t, x)))
    && (forall u :: FixedPoint(m, u) ==> Below(t, u))
  }

  ghost function Waiting(t: Table): set<nat> {
    set x | 0 <= x < |t| && t[x].Pending?
  }

  /** Answering one pending name keeps the table sound, and leaves fewer pending. */
  lemma AnswerKeepsSound(m: Merge, t: Table, x: nat)
    requires m.Valid() && Sound(m, t) && x < m.n && t[x].Pending? && !Asked(m, t, x).Pending?
    ensures Sound(m, t[x := Asked(m, t, x)])
    ensures Waiting(t[x := Asked(m, t, x)]) < Waiting(t)
  {
    var t' := t[x := Asked(m, t, x)];
    assert Below(t, t');
    forall y | 0 <= y < m.n ensures CellBelow(t'[y], Asked(m, t', y)) {
      AskedMonotone(m, t, t', y);
    }
    forall u | FixedPoint(m, u) ensures Below(t', u) {
      AskedMonotone(m, t, u, x);
      assert u[x] == Asked(m, u, x);
    }
    assert x in Waiting(t) && x !in Waiting(t');
  }

  /** A sound table whose pending names all stay pending is the least fixed point. */
  lemma QuietIsAdopted(m: Merge, t: Table)
    requires m.Valid() && Sound(m, t)
    requires forall x :: 0 <= x < m.n && t[x].Pending? ==> Asked(m, t, x).Pending?
    ensures Adopted(m, t)
  {
    forall x | 0 <= x < m.n ensures t[x] == Asked(m, t, x) {
      assert CellBelow(t[x], Asked(m, t, x));
    }
  }

  /** No surviving base name is gone: what a reference follows survives. */
  ghost predicate NoneGone(m: Merge, t: Table)
    requires m.Valid() && |t| == m.n
  {
    forall x: nat :: x < m.n && m.InBase(x) && m.Survives(x) ==> !t[x].Gone?
  }

  lemma {:induction false} FollowNotGone(m: Merge, names: seq<nat>, c: Content, t: Table, seen: Cell)
    requires m.Valid() && |t| == m.n && NoneGone(m, t) && !seen.Gone?
    ensures !Follow(m, names, c, t, seen).Gone?
  {
    if names != [] {
      var y := names[0];
      FollowNotGone(m, names[1..], c, t, seen);
      if Kept(m, y, c) && m.Survives(y) { FollowNotGone(m, names[1..], c, t, t[y]); }
    }
  }

  lemma AskedNotGone(m: Merge, t: Table, x: nat)
    requires m.Valid() && |t| == m.n && NoneGone(m, t) && x < m.n && m.InBase(x) && m.Survives(x)
    ensures !Asked(m, t, x).Gone?
  {
    var f, o := SideValue(m, From, x), SideValue(m, Onto, x);
    if f.Ref? { FollowNotGone(m, m.T(f.side).pools[f.pool].names, f.kept, t, Pending); }
    if o.Ref? { FollowNotGone(m, m.T(o.side).pools[o.pool].names, o.kept, t, Pending); }
    assert !Resolve(m, f, t).Gone? && !Resolve(m, o, t).Gone?;
    var v := Merged(m, x);
    if v.Pair? { assert v == Pair(f, o); }
  }

  /** There is one adoption table at most. */
  lemma AdoptedUnique(m: Merge, t: Table, u: Table)
    requires m.Valid() && Adopted(m, t) && Adopted(m, u)
    ensures t == u
  {
    assert Below(t, u) && Below(u, t);
  }
}
