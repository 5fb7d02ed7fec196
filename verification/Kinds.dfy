/** Types through the decision: when the two sides agree on the type of every name they share, so
    does the result, adoption included. */
module Kinds {
  import opened Trees
  import opened UnionFind
  import opened MergeSpec
  import opened ContentSpec
  import opened Adoption
  import opened Grouping

  ghost predicate SameKinds(m: Merge)
    requires m.Valid()
  {
    forall x: nat :: m.On(From, x) && m.On(Onto, x) ==> m.from.ContentAt(x).kind == m.onto.ContentAt(x).kind
  }

  /** The type of a name, on whichever side holds it. */
  function SideKind(m: Merge, x: nat): Kind
    requires m.Valid() && (m.On(From, x) || m.On(Onto, x))
  {
    if m.On(From, x) then m.from.ContentAt(x).kind else m.onto.ContentAt(x).kind
  }

  // ----- adopted contents

  ghost predicate KindKept(m: Merge, t: Table)
    requires m.Valid() && |t| == m.n
  {
    forall x: nat :: x < m.n && m.InBase(x) && m.Survives(x) && t[x].Is? ==> t[x].content.kind == SideKind(m, x)
  }

  lemma {:induction false} FollowKind(m: Merge, s: Side, q: nat, names: seq<nat>, c: Content, t: Table, seen: Cell)
    requires m.Valid() && SameKinds(m) && |t| == m.n && KindKept(m, t) && q < |m.T(s).pools| && c == m.T(s).pools[q].content
    requires forall y :: y in names ==> y < m.n && m.On(s, y) && m.At(s, y) == q
    requires seen.Is? ==> seen.content.kind == c.kind
    ensures Follow(m, names, c, t, seen).Is? ==> Follow(m, names, c, t, seen).content.kind == c.kind
  {
    hide Merge.Valid, SameKinds;
    if names != [] {
      var y := names[0];
      assert y in names && forall z :: z in names[1..] ==> z in names;
      FollowKind(m, s, q, names[1..], c, t, seen);
      if Kept(m, y, c) && m.Survives(y) {
        PoolKind(m, s, y);
        FollowKind(m, s, q, names[1..], c, t, t[y]);
      }
    }
  }

  lemma PoolKind(m: Merge, s: Side, y: nat)
    requires m.Valid() && SameKinds(m) && m.On(s, y)
    ensures y < m.n && m.At(s, y) < |m.T(s).pools| && SideKind(m, y) == m.T(s).pools[m.At(s, y)].content.kind
  {
  }

  lemma ValueKind(m: Merge, s: Side, x: nat, t: Table)
    requires m.Valid() && SameKinds(m) && |t| == m.n && KindKept(m, t) && m.InBase(x) && m.On(s, x)
    ensures var v := SideValue(m, s, x);
      !v.Same? ==> Resolve(m, v, t).Is? ==> Resolve(m, v, t).content.kind == SideKind(m, x)
    ensures SideValue(m, s, x).Same? ==> m.base.ContentAt(x).kind == SideKind(m, x)
  {
    PoolKind(m, s, x);
    var v := SideValue(m, s, x);
    if v.Ref? {
      PoolNames(m, s, v.pool);
      FollowKind(m, s, v.pool, m.T(s).pools[v.pool].names, v.kept, t, Pending);
    }
  }

  lemma AskedKind(m: Merge, t: Table, x: nat)
    requires m.Valid() && SameKinds(m) && |t| == m.n && KindKept(m, t) && x < m.n && m.InBase(x) && m.Survives(x)
    ensures Asked(m, t, x).Is? ==> Asked(m, t, x).content.kind == SideKind(m, x)
  {
    hide Merge.Valid, SameKinds, KindKept;
    ValueKind(m, From, x, t);
    ValueKind(m, Onto, x, t);
    var f, o := SideValue(m, From, x), SideValue(m, Onto, x);
    var v := Merged(m, x);
    if v.Pair? { assert v == Pair(f, o); }
  }

  /** The adoption table again, built one answer at a time so that what every answer keeps holds of it. */
  lemma AdoptedKinds(m: Merge, t: Table)
    requires m.Valid() && SameKinds(m) && Adopted(m, t)
    ensures KindKept(m, t)
  {
    hide Merge.Valid, Asked, SameKinds;
    var u: Table := seq(m.n, _ => Pending);
    var quiet := false;
    while !quiet
      invariant Sound(m, u) && KindKept(m, u)
      invariant quiet ==> forall x :: 0 <= x < m.n && u[x].Pending? ==> Asked(m, u, x).Pending?
      decreases Waiting(u), !quiet
    {
      if x: nat :| x < m.n && u[x].Pending? && !Asked(m, u, x).Pending? {
        AnswerKeepsSound(m, u, x);
        if m.InBase(x) && m.Survives(x) { AskedKind(m, u, x); }
        u := u[x := Asked(m, u, x)];
      } else {
        quiet := true;
      }
    }
    QuietIsAdopted(m, u);
    AdoptedUnique(m, t, u);
  }

  // ----- result pools

  /** A number for every type, and for every directory one of its own. */
  function KindLabel(m: Merge, x: nat): int
    requires m.Valid() && (m.On(From, x) || m.On(Onto, x))
  {
    match SideKind(m, x)
    case File => -1
    case Directory => x
    case Symlink => -2
    case CharDevice => -3
    case BlockDevice => -4
    case Fifo => -5
    case Socket => -6
  }

  ghost function KindLabels(m: Merge): (L: Labelling)
    requires m.Valid()
    ensures |L| == m.n && forall x: nat :: x < m.n && (m.On(From, x) || m.On(Onto, x)) ==> L[x] == KindLabel(m, x)
  {
    seq(m.n, (x: nat) requires x < m.n => if m.On(From, x) || m.On(Onto, x) then KindLabel(m, x) else 0)
  }

  lemma MatesAgree(m: Merge, s: Side, x: nat, y: nat)
    requires m.Valid() && SameKinds(m) && m.On(s, x) && m.On(s, y) && m.At(s, x) == m.At(s, y)
    ensures KindLabel(m, x) == KindLabel(m, y)
  {
    PoolKind(m, s, x);
    PoolKind(m, s, y);
    assert m.T(s).PoolValid(m.At(s, x));
  }

  lemma KindLabelsRespect(m: Merge)
    requires m.Valid() && SameKinds(m)
    ensures m.ResultRespecting(KindLabels(m))
  {
    hide SameKinds;
    var L := KindLabels(m);
    forall s: Side, a: nat, b: nat | m.LumpPair(s, a, b) ensures L[a] == L[b] { MatesAgree(m, s, a, b); }
    forall a: nat, b: nat | m.LabelPair(a, b) ensures L[a] == L[b] { MatesAgree(m, From, a, b); }
    forall x: nat, y: nat | m.PlacedWith(x, y) ensures y < m.n && L[x] == L[y] {
      PlacedWithMate(m, x, y);
      MatesAgree(m, From, x, y);
    }
  }

  /** Names of one result pool have one type, and a directory's pool has one name. */
  lemma ResultKinds(m: Merge, x: nat, y: nat)
    requires m.Valid() && SameKinds(m) && x < m.n && y < m.n && m.Survives(x) && m.Survives(y) && m.SameResult(x, y)
    ensures SideKind(m, x) == SideKind(m, y) && (SideKind(m, x) == Directory ==> x == y)
  {
    KindLabelsRespect(m);
    assert KindLabels(m)[x] == KindLabels(m)[y];
  }

  /** Some name of the result pool of x brings the content it holds. */
  ghost predicate Brings(m: Merge, t: Table, x: nat, y: nat, c: Content)
    requires m.Valid() && |t| == m.n && x < m.n
  {
    && InPoolOf(m, x, y)
    && (|| (m.InBase(y) && t[y] == Is(c))
        || (m.On(From, y) && m.from.ContentAt(y) == c)
        || (m.On(Onto, y) && m.onto.ContentAt(y) == c))
  }

  lemma HeldBrought(m: Merge, t: Table, x: nat, c: Content) returns (y: nat)
    requires m.Valid() && |t| == m.n && x < m.n && Holds(m, t, x, c)
    ensures Brings(m, t, x, y, c)
  {
    hide Merge.SameResult, Silent;
    if !Silent(m, t, x) {
      y :| Speaks(m, t, x, y) && t[y] == Is(c);
    } else if exists z: nat :: LastAdded(m, From, x, z) {
      y :| LastAdded(m, From, x, y) && m.from.ContentAt(y) == c;
    } else {
      y :| LastAdded(m, Onto, x, y) && m.onto.ContentAt(y) == c;
    }
  }

  /** What a result pool holds has its names' type. */
  lemma HeldKind(m: Merge, t: Table, x: nat, c: Content)
    requires m.Valid() && SameKinds(m) && Adopted(m, t) && x < m.n && m.Survives(x) && Holds(m, t, x, c)
    ensures c.kind == SideKind(m, x)
  {
    hide Merge.Valid, Merge.SameResult, SameKinds;
    AdoptedKinds(m, t);
    var y := HeldBrought(m, t, x, c);
    ResultKinds(m, x, y);
    if m.On(From, y) { PoolKind(m, From, y); }
    if m.On(Onto, y) { PoolKind(m, Onto, y); }
  }
}
