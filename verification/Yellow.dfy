/** `pass_yellow` of src/decide.c: the three-way of every base name, adoption to a fixed point, and
    the agreement of every result pool. */
module Yellow {
  import opened Trees
  import opened MergeSpec
  import opened ContentSpec
  import opened Adoption
  import opened Context

  // ----- the three-way

  /** `side_value`: permissive mode looks for a name of the pool that kept this content. */
  method SideValueOf(m: Merge, s: Side, x: nat) returns (v: Value)
    requires m.Valid() && m.InBase(x)
    ensures v == SideValue(m, s, x)
  {
    if !m.On(s, x) { return Dead; }
    var q, c := m.At(s, x), m.T(s).ContentAt(x);
    if c == m.base.ContentAt(x) { return Same; }
    if !m.strict {
      var names := m.T(s).pools[q].names;
      for i := 0 to |names|
        invariant forall j :: 0 <= j < i ==> !Kept(m, names[j], c)
      {
        if m.InBase(names[i]) && m.base.ContentAt(names[i]) == c {
          assert names[i] in names && Kept(m, names[i], c);
          return Ref(s, q, c);
        }
      }
    }
    return Lit(c);
  }

  /** `resolve` on a reference: every surviving kept name must be resolved, and they must agree. */
  method FollowOf(m: Merge, names: seq<nat>, c: Content, t: array<Cell>) returns (r: Cell)
    requires m.Valid() && t.Length == m.n && forall x :: x in names ==> x < m.n
    ensures r == Follow(m, names, c, t[..], Pending)
  {
    hide Merge.Valid;
    var seen := Pending;
    var alive := false;
    ghost var T := t[..];
    assert names[0..] == names;
    for i := 0 to |names|
      invariant alive == !seen.Pending?
      invariant Follow(m, names[i..], c, T, seen) == Follow(m, names, c, T, Pending)
    {
      var y := names[i];
      assert y in names && names[i..][0] == y && names[i..][1..] == names[i + 1..];
      if Kept(m, y, c) && m.Survives(y) {
        alive := true;
        if t[y].Pending? { return Pending; }
        if t[y].Conflict? { return Conflict; }
        if seen.Pending? {
          seen := t[y];
        } else if t[y] != seen {
          return Conflict;
        }
      }
    }
    r := if alive then seen else Is(c);
  }

  /** `resolve`. */
  method ResolveOf(m: Merge, v: Value, t: array<Cell>) returns (r: Cell)
    requires m.Valid() && t.Length == m.n && RefsValid(m, v)
    ensures r == Resolve(m, v, t[..])
    decreases v
  {
    match v
    case Same => r := Conflict;
    case Dead => r := Gone;
    case Lit(c) => r := Is(c);
    case Ref(s, q, c) =>
      assert m.T(s).PoolValid(q);
      r := FollowOf(m, m.T(s).pools[q].names, c, t);
    case Pair(a, b) =>
      var ra := ResolveOf(m, a, t);
      var rb := ResolveOf(m, b, t);
      r := if ra.Pending? || rb.Pending? then Pending else if ra == rb then ra else Conflict;
    case Clash => r := Conflict;
  }

  /** A base name no side holds is simply gone. */
  lemma NowhereIsDead(m: Merge, x: nat)
    requires m.Valid() && m.InBase(x) && !OnSomeSide(m, x)
    ensures Merged(m, x) == Dead
  {
  }

  /** The merged value of every base name below k. */
  ghost predicate Valued(m: Merge, vals: seq<Value>, k: nat)
    requires m.Valid() && |vals| == m.n && k <= m.n
  {
    forall x: nat :: x < k && m.InBase(x) ==> vals[x] == Merged(m, x)
  }

  /** The names flagged changed-both: those before, and those of the predicate. */
  ghost predicate Flagged(before: set<(nat, Class)>, after: set<(nat, Class)>, changed: nat -> bool) {
    forall x: nat, e :: (x, e) in after <==> (x, e) in before || (e == ChangedBoth && changed(x))
  }

  method ThreeWay(c: Ctx) returns (vals: array<Value>)
    requires c.FlagsKept()
    modifies c`flags, c`raised, c.pnode
    ensures c.FlagsKept() && fresh(vals) && vals.Length == c.m.n && Valued(c.m, vals[..], c.m.n)
    ensures Flagged(old(c.raised), c.raised, (x: nat) => x < c.m.n && c.m.InBase(x) && Merged(c.m, x).Clash?)
  {
    hide Merge.Valid, FlagsFrom, GroupsOf, Merged;
    vals := new Value[c.m.n](_ => Clash);
    for x: nat := 0 to c.m.n
      invariant c.FlagsKept() && Valued(c.m, vals[..], x)
      invariant Flagged(old(c.raised), c.raised, (y: nat) => y < x && c.m.InBase(y) && Merged(c.m, y).Clash?)
    {
      if c.m.InBase(x) {
        vals[x] := ThreeWayOne(c, x);
      }
    }
  }

  method ThreeWayOne(c: Ctx, x: nat) returns (v: Value)
    requires c.FlagsKept() && x < c.m.n && c.m.InBase(x)
    modifies c`flags, c`raised, c.pnode
    ensures c.FlagsKept() && v == Merged(c.m, x)
    ensures c.raised == old(c.raised) + (if v.Clash? then {(x, ChangedBoth)} else {})
  {
    var f := SideValueOf(c.m, From, x);
    var o := SideValueOf(c.m, Onto, x);
    v := Combine(c.m.base.ContentAt(x), f, o);
    if v.Clash? { c.Flag(x, ChangedBoth); }
  }

  // ----- adoption

  /** What the loop keeps: a sound table, and a flag for every conflict in it. */
  ghost predicate Adopting(m: Merge, t: Table, before: set<(nat, Class)>, raised: set<(nat, Class)>)
    requires m.Valid()
  {
    && Sound(m, t) && NoneGone(m, t)
    && Flagged(before, raised, (x: nat) => x < |t| && m.InBase(x) && (Merged(m, x).Clash? || t[x].Conflict?))
  }

  /** One visit of the loop. */
  method Visit(c: Ctx, vals: array<Value>, concrete: array<Cell>, x: nat, ghost before: set<(nat, Class)>) returns (progress: bool)
    requires c.FlagsKept() && vals.Length == concrete.Length == c.m.n && x < c.m.n
    requires vals as object != c.pnode && concrete as object != c.pnode && Valued(c.m, vals[..], c.m.n)
    requires concrete as object != c.state && concrete as object != c.gindex && concrete as object != vals
    requires Adopting(c.m, concrete[..], before, c.raised)
    modifies c`flags, c`raised, c.pnode, concrete
    ensures c.FlagsKept() && Adopting(c.m, concrete[..], before, c.raised) && vals[..] == old(vals[..])
    ensures Waiting(concrete[..]) <= old(Waiting(concrete[..]))
    ensures progress ==> Waiting(concrete[..]) < old(Waiting(concrete[..]))
    ensures !progress ==> concrete[..] == old(concrete[..]) && (concrete[x].Pending? ==> Asked(c.m, concrete[..], x).Pending?)
  {
    hide Merge.Valid, FlagsFrom, GroupsOf, Merged;
    progress := false;
    if !c.m.InBase(x) || !concrete[x].Pending? { return; }
    ghost var t := concrete[..];
    var r := ResolveOf(c.m, vals[x], concrete);
    assert r == Asked(c.m, t, x);
    if r.Pending? { return; }
    AnswerKeepsSound(c.m, t, x);
    if c.m.Survives(x) { AskedNotGone(c.m, t, x); }
    if r.Conflict? && !vals[x].Clash? {
      ConflictOnSide(c.m, t, x);
      c.Flag(x, ChangedBoth);
    }
    concrete[x] := r;
    assert concrete[..] == t[x := r];
    progress := true;
  }

  lemma ConflictOnSide(m: Merge, t: Table, x: nat)
    requires m.Valid() && |t| == m.n && x < m.n && m.InBase(x)
    requires Asked(m, t, x).Conflict? || Asked(m, t, x).Pending?
    ensures OnSomeSide(m, x)
  {
    if !OnSomeSide(m, x) { NowhereIsDead(m, x); }
  }

  /** The do-while loop over the whole name table, until a round makes no progress. */
  method Adopt(c: Ctx, vals: array<Value>) returns (concrete: array<Cell>)
    requires c.FlagsKept() && vals.Length == c.m.n && vals as object != c.pnode && Valued(c.m, vals[..], c.m.n)
    requires forall x: nat :: x < c.m.n && c.m.InBase(x) && Merged(c.m, x).Clash? ==> (x, ChangedBoth) in c.raised
    modifies c`flags, c`raised, c.pnode
    ensures c.FlagsKept() && fresh(concrete) && concrete.Length == c.m.n && Adopted(c.m, concrete[..]) && NoneGone(c.m, concrete[..])
    ensures Adopting(c.m, concrete[..], old(c.raised), c.raised)
  {
    hide Merge.Valid, FlagsFrom, GroupsOf, Merged, Adopting;
    concrete := new Cell[c.m.n](_ => Pending);
    StartAdopting(c.m, concrete[..], c.raised);
    var progress := true;
    while progress
      invariant c.FlagsKept() && Adopting(c.m, concrete[..], old(c.raised), c.raised) && Valued(c.m, vals[..], c.m.n)
      invariant !progress ==> forall x: nat :: x < c.m.n && concrete[x].Pending? ==> Asked(c.m, concrete[..], x).Pending?
      decreases Waiting(concrete[..]), progress
    {
      progress := false;
      ghost var start := concrete[..];
      for x: nat := 0 to c.m.n
        invariant c.FlagsKept() && Adopting(c.m, concrete[..], old(c.raised), c.raised) && Valued(c.m, vals[..], c.m.n)
        invariant Waiting(concrete[..]) <= Waiting(start)
        invariant progress ==> Waiting(concrete[..]) < Waiting(start)
        invariant !progress ==> concrete[..] == start
        invariant !progress ==> forall y: nat :: y < x && concrete[y].Pending? ==> Asked(c.m, concrete[..], y).Pending?
      {
        var moved := Visit(c, vals, concrete, x, old(c.raised));
        progress := progress || moved;
      }
    }
    AdoptingEnds(c.m, concrete[..], old(c.raised), c.raised);
  }

  lemma StartAdopting(m: Merge, t: Table, raised: set<(nat, Class)>)
    requires m.Valid() && |t| == m.n && forall x :: 0 <= x < m.n ==> t[x].Pending?
    requires forall x: nat :: x < m.n && m.InBase(x) && Merged(m, x).Clash? ==> (x, ChangedBoth) in raised
    ensures Adopting(m, t, raised, raised)
  {
  }

  lemma AdoptingEnds(m: Merge, t: Table, before: set<(nat, Class)>, raised: set<(nat, Class)>)
    requires m.Valid() && Adopting(m, t, before, raised)
    requires forall x: nat :: x < m.n && t[x].Pending? ==> Asked(m, t, x).Pending?
    ensures Adopted(m, t) && NoneGone(m, t)
  {
    QuietIsAdopted(m, t);
  }

  /** Names left pending wait in a cycle: they are flagged and closed as conflicts. */
  method CloseAll(c: Ctx, concrete: array<Cell>)
    requires c.FlagsKept() && concrete.Length == c.m.n && FixedPoint(c.m, concrete[..])
    requires concrete as object != c.pnode && concrete as object != c.state && concrete as object != c.gindex
    modifies c`flags, c`raised, c.pnode, concrete
    ensures c.FlagsKept()
    ensures forall x: nat :: x < c.m.n && c.m.InBase(x) ==> concrete[x] == Closed(old(concrete[x]))
    ensures Flagged(old(c.raised), c.raised, (x: nat) => x < |old(concrete[..])| && c.m.InBase(x) && old(concrete[..])[x].Pending?)
  {
    hide Merge.Valid, FlagsFrom, GroupsOf, Merged;
    ghost var t := concrete[..];
    for x: nat := 0 to c.m.n
      invariant c.FlagsKept()
      invariant forall y: nat :: y < c.m.n ==> concrete[y] == if y < x && c.m.InBase(y) then Closed(t[y]) else t[y]
      invariant Flagged(old(c.raised), c.raised, (y: nat) => y < x && y < |t| && c.m.InBase(y) && t[y].Pending?)
    {
      if c.m.InBase(x) && concrete[x].Pending? {
        assert t[x] == Asked(c.m, t, x);
        ConflictOnSide(c.m, t, x);
        c.Flag(x, ChangedBoth);
        concrete[x] := Conflict;
      }
    }
  }
}
