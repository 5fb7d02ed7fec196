/** `pass_orphaned` of src/decide.c: an addition to a pool all of whose base names die. */
module Orphaned {
  import opened Trees
  import opened MergeSpec
  import opened ContentSpec
  import opened Context
  import opened Grouping

  /** The scan of one side pool: its first settled addition, and what became of its base names. */
  method ScanAdded(c: Ctx, s: Side, q: nat) returns (added: Option<nat>, hasBase: bool, baseAlive: bool)
    requires c.Named() && q < |c.m.T(s).pools|
    ensures var names := c.m.T(s).pools[q].names;
      && (hasBase <==> exists x :: x in names && c.m.InBase(x))
      && (baseAlive <==> exists x :: x in names && c.m.InBase(x) && c.m.Survives(x))
      && (added.Some? ==> added.value in names && c.m.Settled(added.value) && !c.m.InBase(added.value))
      && (added.None? ==> forall x :: x in names && c.m.Settled(x) ==> c.m.InBase(x))
  {
    hide Merge.Valid;
    var names := c.m.T(s).pools[q].names;
    PoolNames(c.m, s, q);
    added, hasBase, baseAlive := None, false, false;
    for i: nat := 0 to |names|
      invariant hasBase <==> exists j :: 0 <= j < i && c.m.InBase(names[j])
      invariant baseAlive <==> exists j :: 0 <= j < i && c.m.InBase(names[j]) && c.m.Survives(names[j])
      invariant added.Some? ==> added.value in names && c.m.Settled(added.value) && !c.m.InBase(added.value)
      invariant added.None? ==> forall j :: 0 <= j < i && c.m.Settled(names[j]) ==> c.m.InBase(names[j])
    {
      var x := names[i];
      assert x in names;
      if c.state[x].base {
        hasBase := true;
        if c.state[x].survives { baseAlive := true; }
      } else if c.Settled(x) && added.None? {
        added := Some(x);
      }
    }
  }

  /** Every orphaned addition of the first q pools of side s has a flagged companion. */
  ghost predicate Answered(m: Merge, raised: set<(nat, Class)>, s: Side, q: nat)
    requires m.Valid()
  {
    forall x: nat :: m.OrphanedOn(s, x) && m.At(s, x) < q ==> exists y: nat :: RaisedFor(m, raised, OrphanedAdd, x, y)
  }

  ghost predicate OnlyOrphans(m: Merge, before: set<(nat, Class)>, after: set<(nat, Class)>)
    requires m.Valid()
  {
    before <= after && forall x: nat, e :: (x, e) in after && (x, e) !in before ==> e == OrphanedAdd && m.OrphanedAt(x)
  }

  lemma AnsweredGrows(m: Merge, before: set<(nat, Class)>, after: set<(nat, Class)>, s: Side, q: nat)
    requires m.Valid() && before <= after && Answered(m, before, s, q)
    ensures Answered(m, after, s, q)
  {
    forall x: nat | m.OrphanedOn(s, x) && m.At(s, x) < q ensures exists y: nat :: RaisedFor(m, after, OrphanedAdd, x, y) {
      var y: nat :| RaisedFor(m, before, OrphanedAdd, x, y);
      assert RaisedFor(m, after, OrphanedAdd, x, y);
    }
  }

  method OrphanSide(c: Ctx, s: Side)
    requires c.FlagsKept()
    modifies c`flags, c`raised, c.pnode
    ensures c.FlagsKept() && OnlyOrphans(c.m, old(c.raised), c.raised) && Answered(c.m, c.raised, s, |c.m.T(s).pools|)
  {
    hide Merge.SameGroup, FlagsFrom, GroupsOf;
    var m := c.m;
    for q: nat := 0 to |m.T(s).pools|
      invariant c.FlagsKept() && OnlyOrphans(m, old(c.raised), c.raised) && Answered(m, c.raised, s, q)
    {
      var added, hasBase, baseAlive := ScanAdded(c, s, q);
      ghost var before := c.raised;
      assert m.T(s).PoolValid(q);
      if added.Some? && hasBase && !baseAlive {
        assert m.OrphanedOn(s, added.value);
        c.Flag(added.value, OrphanedAdd);
        AnsweredGrows(m, before, c.raised, s, q);
        forall x: nat | m.OrphanedOn(s, x) && m.At(s, x) == q
          ensures exists y: nat :: RaisedFor(m, c.raised, OrphanedAdd, x, y)
        {
          PoolMatesTogether(m, s, x, added.value);
          assert RaisedFor(m, c.raised, OrphanedAdd, x, added.value);
        }
      }
    }
  }

  lemma OrphanPlace(m: Merge, x: nat) returns (s: Side)
    requires m.Valid() && m.OrphanedAt(x)
    ensures m.OrphanedOn(s, x) && m.At(s, x) < |m.T(s).pools| && OnSomeSide(m, x)
  {
    s :| m.OrphanedOn(s, x);
  }

  lemma AllAnswered(m: Merge, before: set<(nat, Class)>, after: set<(nat, Class)>)
    requires m.Valid() && OnlyOrphans(m, before, after)
    requires Answered(m, after, From, |m.from.pools|) && Answered(m, after, Onto, |m.onto.pools|)
    ensures Raises(m, before, after, OrphanedAdd, (x: nat) => m.OrphanedAt(x))
  {
    hide Merge.Valid, Merge.OrphanedOn, Merge.OrphanedAt;
    var event := (x: nat) => m.OrphanedAt(x);
    forall x: nat | event(x) && OnSomeSide(m, x) ensures exists y: nat :: RaisedFor(m, after, OrphanedAdd, x, y) {
      var s := OrphanPlace(m, x);
      assert Answered(m, after, s, |m.T(s).pools|);
    }
    forall x: nat, e | (x, e) in after && (x, e) !in before
      ensures OnSomeSide(m, x) && exists y: nat :: Because(m, event, x, y)
    {
      var s := OrphanPlace(m, x);
      assert Because(m, event, x, x) by { SameGroupReflexive(m, m.NodeOf(x)); }
    }
  }

  method PassOrphaned(c: Ctx)
    requires c.FlagsKept()
    modifies c`flags, c`raised, c.pnode
    ensures c.FlagsKept() && Raises(c.m, old(c.raised), c.raised, OrphanedAdd, (x: nat) => c.m.OrphanedAt(x))
  {
    hide Merge.Valid, FlagsFrom, GroupsOf, Answered, Raises;
    OrphanSide(c, From);
    ghost var before := c.raised;
    OrphanSide(c, Onto);
    AnsweredGrows(c.m, before, c.raised, From, |c.m.from.pools|);
    AllAnswered(c.m, old(c.raised), c.raised);
  }
}
