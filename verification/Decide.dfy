/** `zr_decide` of src/decide.c: the passes in order, and what the decision they build says. */
module Decide {
  import opened Trees
  import opened UnionFind
  import opened MergeSpec
  import opened ContentSpec
  import opened Adoption
  import opened Grouping
  import opened Context
  import opened Classes
  import opened Pools
  import opened Agreement
  import opened HashSet
  import Healed
  import Orphaned
  import Contested
  import Shared = Unexpressed
  import Yellow
  import ClassIndex

  /** `struct zr_result_pool`: a conflicted group's pools have no content. */
  datatype ResultPool = ResultPool(names: seq<nat>, content: Option<Content>, group: int)

  /** `struct zr_decision`: `groupOf` stands for the pool lists of the groups, by side pool. */
  datatype Decision = Decision(pools: seq<ResultPool>, resultOf: seq<int>, groupOf: seq<int>, flags: seq<set<Class>>)

  /** The result pools are the classes of the surviving names. */
  ghost predicate PoolsRight(m: Merge, d: Decision)
    requires m.Valid()
  {
    && Results(m, d.resultOf, |d.pools|)
    && forall k: nat :: k < |d.pools| ==>
         d.pools[k].names == ClassIndex.NamesIn(d.resultOf, k, m.n) && d.pools[k].names != []
  }

  /** The groups are the connected side pools, and carry exactly the classes that fired in them. */
  ghost predicate FlagsRight(m: Merge, t: Table, flags: seq<set<Class>>, groupOf: seq<int>)
    requires m.Valid() && |t| == m.n
  {
    && GroupsOf(m, groupOf)
    && (forall u: nat :: u < m.NodeCount() ==> groupOf[u] < |flags|)
    && (forall u: nat, f :: u < m.NodeCount() ==> (f in flags[groupOf[u]] <==> Flagged(m, t, f, u)))
  }

  /** Every result pool knows its group, and holds its content unless the group is in conflict. */
  ghost predicate ContentRight(m: Merge, t: Table, flags: seq<set<Class>>, groupOf: seq<int>, p: ResultPool)
    requires m.Valid() && |t| == m.n && |groupOf| == m.NodeCount()
  {
    && p.names != [] && p.names[0] < m.n && m.Survives(p.names[0]) && 0 <= p.group < |flags|
    && p.group == groupOf[m.NodeOf(p.names[0])]
    && (if flags[p.group] == {} then p.content.Some? && forall c :: Holds(m, t, p.names[0], c) <==> p.content == Some(c)
        else p.content == None)
  }

  ghost predicate DecisionFor(m: Merge, t: Table, d: Decision)
    requires m.Valid()
  {
    && Adopted(m, t) && PoolsRight(m, d) && FlagsRight(m, t, d.flags, d.groupOf)
    && forall k: nat :: k < |d.pools| ==> ContentRight(m, t, d.flags, d.groupOf, d.pools[k])
  }

  // ----- the account of the flags

  /** The names raised for f are near events of f, and every event is near a raised name. */
  ghost predicate Accounted(m: Merge, raised: set<(nat, Class)>, f: Class, event: nat -> bool)
    requires m.Valid()
  {
    && (forall x: nat :: (x, f) in raised ==> OnSomeSide(m, x) && exists y: nat :: Because(m, event, x, y))
    && (forall x: nat :: event(x) && OnSomeSide(m, x) ==> exists y: nat :: RaisedFor(m, raised, f, x, y))
  }

  ghost predicate NoneYet(raised: set<(nat, Class)>, f: Class) {
    forall x: nat :: (x, f) !in raised
  }

  lemma Account(m: Merge, before: set<(nat, Class)>, after: set<(nat, Class)>, f: Class, event: nat -> bool)
    requires m.Valid() && Raises(m, before, after, f, event) && NoneYet(before, f)
    ensures Accounted(m, after, f, event)
  {
  }

  lemma AccountKept(m: Merge, before: set<(nat, Class)>, after: set<(nat, Class)>, f: Class, event: nat -> bool,
                    g: Class, other: nat -> bool)
    requires m.Valid() && Accounted(m, before, f, event) && Raises(m, before, after, g, other) && f != g
    ensures Accounted(m, after, f, event)
  {
    hide Merge.Valid, Merge.SameGroup, Because;
    forall x: nat | event(x) && OnSomeSide(m, x) ensures exists y: nat :: RaisedFor(m, after, f, x, y) {
      var y: nat :| RaisedFor(m, before, f, x, y);
      assert RaisedFor(m, after, f, x, y);
    }
  }

  /** With its class accounted for, a flag on a group means an event in it, and back. */
  lemma FlagIsEvent(m: Merge, t: Table, flags: seq<set<Class>>, groupOf: seq<int>, raised: set<(nat, Class)>,
                    f: Class, event: nat -> bool, u: nat)
    requires m.Valid() && |t| == m.n && GroupsOf(m, groupOf) && FlagsFrom(m, flags, groupOf, raised)
    requires u < m.NodeCount() && groupOf[u] < |flags| && Accounted(m, raised, f, event)
    requires forall x: nat :: event(x) == Event(m, t, f, x)
    ensures f in flags[groupOf[u]] <==> Flagged(m, t, f, u)
  {
    hide Merge.Valid, Event, Merge.SameGroup;
    if f in flags[groupOf[u]] { FlagHasEvent(m, t, groupOf, raised, f, event, u); }
    if Flagged(m, t, f, u) { EventHasFlag(m, t, groupOf, raised, f, event, u); }
  }

  lemma FlagHasEvent(m: Merge, t: Table, groupOf: seq<int>, raised: set<(nat, Class)>, f: Class, event: nat -> bool, u: nat)
    requires m.Valid() && |t| == m.n && GroupsOf(m, groupOf) && u < m.NodeCount() && Accounted(m, raised, f, event)
    requires forall x: nat :: event(x) == Event(m, t, f, x)
    requires exists x: nat :: RaisedIn(m, groupOf, raised, x, f, groupOf[u])
    ensures Flagged(m, t, f, u)
  {
    hide Merge.Valid, Event, Merge.SameGroup;
    var x: nat :| RaisedIn(m, groupOf, raised, x, f, groupOf[u]);
    var y: nat :| Because(m, event, x, y);
    SameGroupSymmetric(m, m.NodeOf(x), m.NodeOf(y));
    SameGroupTransitive(m, m.NodeOf(y), m.NodeOf(x), u);
    assert EventIn(m, t, f, y, u);
  }

  lemma EventHasFlag(m: Merge, t: Table, groupOf: seq<int>, raised: set<(nat, Class)>, f: Class, event: nat -> bool, u: nat)
    requires m.Valid() && |t| == m.n && GroupsOf(m, groupOf) && u < m.NodeCount() && Accounted(m, raised, f, event)
    requires forall x: nat :: event(x) == Event(m, t, f, x)
    requires Flagged(m, t, f, u)
    ensures exists x: nat :: RaisedIn(m, groupOf, raised, x, f, groupOf[u])
  {
    hide Merge.Valid, Event, Merge.SameGroup;
    var x: nat :| EventIn(m, t, f, x, u);
    assert event(x);
    var y: nat :| RaisedFor(m, raised, f, x, y);
    assert groupOf[m.NodeOf(y)] == groupOf[m.NodeOf(x)] == groupOf[u];
    assert RaisedIn(m, groupOf, raised, y, f, groupOf[u]);
  }

  // ----- the passes in order

  lemma StillNone(m: Merge, before: set<(nat, Class)>, after: set<(nat, Class)>, f: Class, g: Class, event: nat -> bool)
    requires m.Valid() && NoneYet(before, f) && Raises(m, before, after, g, event) && f != g
    ensures NoneYet(after, f)
  {
  }

  /** The content passes together: every conflict about content is a flag. */
  ghost predicate ContentAccounted(m: Merge, t: Table, raised: set<(nat, Class)>)
    requires m.Valid() && |t| == m.n
  {
    && Accounted(m, raised, ChangedBoth, (x: nat) => ChangedBothAt(m, t, x))
    && Accounted(m, raised, Disagree, (x: nat) => DisagreeAt(m, t, x))
  }

  ghost predicate SharingAccounted(m: Merge, raised: set<(nat, Class)>)
    requires m.Valid()
  {
    && Accounted(m, raised, HealedSplit, (x: nat) => m.HealedAt(x))
    && Accounted(m, raised, OrphanedAdd, (x: nat) => m.OrphanedAt(x))
    && Accounted(m, raised, ContestedHome, (x: nat) => m.ContestedAt(x))
    && Accounted(m, raised, Class.Unexpressed, (x: nat) => m.UnexpressedAt(x))
  }

  lemma SharingAccount(m: Merge, r0: set<(nat, Class)>, r1: set<(nat, Class)>, r2: set<(nat, Class)>,
                       r3: set<(nat, Class)>, r4: set<(nat, Class)>)
    requires m.Valid() && r0 == {}
    requires Raises(m, r0, r1, HealedSplit, (x: nat) => m.HealedAt(x))
    requires Raises(m, r1, r2, OrphanedAdd, (x: nat) => m.OrphanedAt(x))
    requires Raises(m, r2, r3, ContestedHome, (x: nat) => m.ContestedAt(x))
    requires Raises(m, r3, r4, Class.Unexpressed, (x: nat) => m.UnexpressedAt(x))
    ensures SharingAccounted(m, r4) && NoneYet(r4, ChangedBoth) && NoneYet(r4, Disagree)
  {
    hide Merge.Valid, Raises, Accounted;
    var healed, orphaned := (x: nat) => m.HealedAt(x), (x: nat) => m.OrphanedAt(x);
    var contested, shared := (x: nat) => m.ContestedAt(x), (x: nat) => m.UnexpressedAt(x);
    Account(m, r0, r1, HealedSplit, healed);
    AccountKept(m, r1, r2, HealedSplit, healed, OrphanedAdd, orphaned);
    AccountKept(m, r2, r3, HealedSplit, healed, ContestedHome, contested);
    AccountKept(m, r3, r4, HealedSplit, healed, Class.Unexpressed, shared);
    forall f: Class ensures NoneYet(r0, f) {}
    forall f: Class | f != HealedSplit ensures NoneYet(r1, f) { StillNone(m, r0, r1, f, HealedSplit, healed); }
    Account(m, r1, r2, OrphanedAdd, orphaned);
    AccountKept(m, r2, r3, OrphanedAdd, orphaned, ContestedHome, contested);
    AccountKept(m, r3, r4, OrphanedAdd, orphaned, Class.Unexpressed, shared);
    forall f: Class | f != HealedSplit && f != OrphanedAdd ensures NoneYet(r2, f) { StillNone(m, r1, r2, f, OrphanedAdd, orphaned); }
    Account(m, r2, r3, ContestedHome, contested);
    AccountKept(m, r3, r4, ContestedHome, contested, Class.Unexpressed, shared);
    forall f: Class | f in {Class.Unexpressed, ChangedBoth, Disagree} ensures NoneYet(r3, f) { StillNone(m, r2, r3, f, ContestedHome, contested); }
    Account(m, r3, r4, Class.Unexpressed, shared);
    StillNone(m, r3, r4, ChangedBoth, Class.Unexpressed, shared);
    StillNone(m, r3, r4, Disagree, Class.Unexpressed, shared);
  }

  /** From the names to the placed classes, every conflict of sharing flagged on the way. */
  method PassSharing(c: Ctx, home: Homing)
    requires c.m.Valid() && c.Shaped() && |c.m.base.pools| <= Shared.WORD
    modifies c`flags, c`groupOf, c`raised, c.state, c.parent, c.klass, c.pnode, c.gindex
    ensures c.FlagsKept() && HoldsResults(c.m, c.parent[..])
    ensures SharingAccounted(c.m, c.raised) && NoneYet(c.raised, ChangedBoth) && NoneYet(c.raised, Disagree)
  {
    hide Merge.Valid, Raises, Accounted, FlagsFrom, GroupsOf, Coarsens;
    PassNames(c);
    PassLumps(c);
    PassLabels(c);
    ClassesHeld(c.m, c.parent[..]);
    var nclass := PassClasses(c);
    PassGroups(c);
    ghost var r0 := c.raised;
    Healed.PassHealed(c, nclass);
    ghost var r1 := c.raised;
    Orphaned.PassOrphaned(c);
    ghost var r2 := c.raised;
    ghost var p := c.parent[..];
    Contested.PassContested(c, nclass);
    PlacedClassesAreResults(c.m, p, c.parent[..]);
    ghost var r3 := c.raised;
    Shared.PassUnexpressed(c, nclass, home);
    SharingAccount(c.m, r0, r1, r2, r3, c.raised);
  }

  lemma ClassesHeld(m: Merge, p: seq<nat>)
    requires m.Valid() && Forest(p) && |p| == m.n
    requires forall L: Labelling :: |L| == m.n ==>
      (Coarsens(L, p) <==> (forall s :: KeepsLumps(m, L, s, |m.T(s).pools|)) && KeepsLabels(m, L))
    ensures HoldsClasses(m, p)
  {
    forall L: Labelling | |L| == m.n ensures Coarsens(L, p) <==> m.ClassRespecting(L) { RespectingIsKeeping(m, L); }
  }

  // ----- content

  lemma ChangedRaised(m: Merge, t: Table, r0: set<(nat, Class)>, r1: set<(nat, Class)>, r2: set<(nat, Class)>, r3: set<(nat, Class)>)
    requires m.Valid() && FixedPoint(m, t)
    requires Yellow.Flagged(r0, r1, (x: nat) => x < m.n && m.InBase(x) && Merged(m, x).Clash?)
    requires Yellow.Adopting(m, t, r1, r2)
    requires Yellow.Flagged(r2, r3, (x: nat) => x < |t| && m.InBase(x) && t[x].Pending?)
    ensures Raises(m, r0, r3, ChangedBoth, (x: nat) => ChangedBothAt(m, t, x))
  {
    forall x: nat | x < m.n && m.InBase(x) && Merged(m, x).Clash? ensures t[x].Conflict? {
      assert t[x] == Asked(m, t, x);
    }
    forall x: nat | ChangedBothAt(m, t, x) ensures OnSomeSide(m, x) {
      assert t[x] == Asked(m, t, x);
      Yellow.ConflictOnSide(m, t, x);
    }
    RaisesEach(m, r0, r3, ChangedBoth, (x: nat) => ChangedBothAt(m, t, x));
  }

  /** The first three loops of `pass_yellow`: every base name's content, decided or in conflict. */
  method PassNamesContent(c: Ctx) returns (closed: array<Cell>, ghost t: Table)
    requires c.FlagsKept()
    modifies c`flags, c`raised, c.pnode
    ensures c.FlagsKept() && fresh(closed) && closed.Length == c.m.n
    ensures Adopted(c.m, t) && NoneGone(c.m, t) && ClosedTable(c.m, t, closed[..])
    ensures Raises(c.m, old(c.raised), c.raised, ChangedBoth, (x: nat) => ChangedBothAt(c.m, t, x))
  {
    hide Merge.Valid, Raises, FlagsFrom, GroupsOf, Yellow.Adopting, Merged;
    var vals := Yellow.ThreeWay(c);
    ghost var r1 := c.raised;
    closed := Yellow.Adopt(c, vals);
    ghost var r2 := c.raised;
    t := closed[..];
    Yellow.CloseAll(c, closed);
    ChangedRaised(c.m, t, old(c.raised), r1, r2, c.raised);
  }

  /** What the loop over the result pools leaves in one: nothing after a disagreement, else what it
      holds, provided no name of it changed on both sides. */
  ghost predicate CellRight(m: Merge, t: Table, names: seq<nat>, cell: Option<Cell>)
    requires m.Valid() && |t| == m.n && names != [] && names[0] < m.n
  {
    && (cell.None? <==> DisagreeAt(m, t, names[0]))
    && (cell.Some? && (forall y :: y in names ==> !ChangedBothAt(m, t, y)) ==>
          cell.value.Is? && forall c :: Holds(m, t, names[0], c) <==> cell.value == Is(c))
  }

  lemma PoolIsClass(m: Merge, resultOf: seq<int>, pools: seq<seq<nat>>, k: nat)
    requires m.Valid() && Results(m, resultOf, |pools|) && Pooled(resultOf, pools) && k < |pools|
    ensures pools[k] != [] && pools[k][0] < m.n && m.Survives(pools[k][0]) && PoolOf(m, pools[k][0], pools[k])
    ensures forall y :: y in pools[k] ==> y < m.n && m.Survives(y)
  {
    var names := pools[k];
    ClassIndex.NamesAscend(resultOf, k, m.n);
    assert names[0] in names;
    forall y: nat ensures y in names <==> InPoolOf(m, names[0], y) {}
  }

  method AgreeOne(c: Ctx, closed: array<Cell>, ghost t: Table, names: seq<nat>) returns (cell: Option<Cell>)
    requires c.FlagsKept() && closed.Length == c.m.n && FixedPoint(c.m, t) && NoneGone(c.m, t) && ClosedTable(c.m, t, closed[..])
    requires closed as object != c.pnode && closed as object != c.state && closed as object != c.gindex
    requires forall y: nat :: y < c.m.n && c.m.InBase(y) ==> !closed[y].Pending?
    requires names != [] && names[0] < c.m.n && c.m.Survives(names[0]) && PoolOf(c.m, names[0], names)
    requires forall y :: y in names ==> y < c.m.n && c.m.Survives(y)
    modifies c`flags, c`raised, c.pnode
    ensures c.FlagsKept() && closed[..] == old(closed[..]) && CellRight(c.m, t, names, cell)
    ensures c.raised == old(c.raised) ||
      exists y :: y in names && DisagreeAt(c.m, t, y) && c.raised == old(c.raised) + {(y, Disagree)}
    ensures DisagreeAt(c.m, t, names[0]) ==> exists y :: y in names && (y, Disagree) in c.raised
  {
    hide Merge.Valid, FlagsFrom, GroupsOf, Tallied, PoolOf, Holds, DisagreeAt, ClosedTable;
    var s := Count(c.m, closed, names);
    TallyDisagrees(c.m, t, closed[..], names[0], names, s);
    if s.other.Some? {
      DisagreeTogether(c.m, t, closed[..], names, s);
      c.Flag(s.first, Disagree);
      return None;
    }
    if Disagrees(s) {
      assert names[0] in names;
      c.Flag(names[0], Disagree);
      return None;
    }
    if forall y :: y in names ==> !ChangedBothAt(c.m, t, y) {
      VerdictHolds(c.m, t, closed[..], names[0], names, s);
    }
    cell := Some(Verdict(s));
  }

  /** The whole pool disagrees when one name of it does. */
  lemma DisagreeTogether(m: Merge, t: Table, closed: seq<Cell>, names: seq<nat>, s: Tally)
    requires m.Valid() && ClosedTable(m, t, closed) && names != [] && names[0] < m.n && PoolOf(m, names[0], names)
    requires Tallied(m, closed, names, |names|, s) && s.other.Some? && m.Survives(names[0])
    ensures s.first in names && s.first < m.n && DisagreeAt(m, t, s.first)
  {
    TallySilent(m, t, closed, names[0], names, s);
    var y: nat, z: nat :| VoicesClash(m, t, names[0], y, z);
    assert InPoolOf(m, names[0], s.first) && VoicesClash(m, t, s.first, y, z);
  }

  /** The pools of the loop so far disagree exactly where their names are flagged. */
  ghost predicate Settling(m: Merge, t: Table, pools: seq<seq<nat>>, k: nat, before: set<(nat, Class)>, raised: set<(nat, Class)>)
    requires m.Valid() && |t| == m.n && k <= |pools|
    requires forall j :: 0 <= j < |pools| ==> pools[j] != [] && pools[j][0] < m.n
  {
    && before <= raised
    && (forall x: nat, e :: (x, e) in raised && (x, e) !in before ==> e == Disagree && DisagreeAt(m, t, x) && OnSomeSide(m, x))
    && (forall j :: 0 <= j < k && DisagreeAt(m, t, pools[j][0]) ==> exists y :: y in pools[j] && (y, Disagree) in raised)
  }

  lemma SettlingEnds(m: Merge, t: Table, resultOf: seq<int>, pools: seq<seq<nat>>, before: set<(nat, Class)>, raised: set<(nat, Class)>)
    requires m.Valid() && |t| == m.n && Results(m, resultOf, |pools|) && Pooled(resultOf, pools)
    requires forall j :: 0 <= j < |pools| ==> pools[j] != [] && pools[j][0] < m.n
    requires Settling(m, t, pools, |pools|, before, raised)
    ensures Raises(m, before, raised, Disagree, (x: nat) => DisagreeAt(m, t, x))
  {
    hide Merge.Valid, Merge.SameGroup, Merge.SameResult, ClassIndex.NamesIn, DisagreeAt;
    var event := (x: nat) => DisagreeAt(m, t, x);
    forall x: nat, e | (x, e) in raised && (x, e) !in before ensures exists y: nat :: Because(m, event, x, y) {
      SameGroupReflexive(m, m.NodeOf(x));
      assert Because(m, event, x, x);
    }
    forall x: nat | event(x) && OnSomeSide(m, x) ensures exists y: nat :: RaisedFor(m, raised, Disagree, x, y) {
      DisagreeSurvives(m, t, x);
      var k := resultOf[x];
      PoolIsClass(m, resultOf, pools, k);
      assert x in pools[k];
      DisagreeSpreads(m, t, x, pools[k][0]);
      var y :| y in pools[k] && (y, Disagree) in raised;
      ResultInGroup(m, x, y);
      assert RaisedFor(m, raised, Disagree, x, y);
    }
  }

  lemma DisagreeSurvives(m: Merge, t: Table, x: nat)
    requires m.Valid() && |t| == m.n && DisagreeAt(m, t, x)
    ensures x < m.n && m.Survives(x) && OnSomeSide(m, x)
  {
  }

  lemma DisagreeSpreads(m: Merge, t: Table, x: nat, y: nat)
    requires m.Valid() && |t| == m.n && DisagreeAt(m, t, x) && y < m.n && m.Survives(y) && InPoolOf(m, y, x)
    ensures DisagreeAt(m, t, y)
  {
    forall z: nat ensures InPoolOf(m, x, z) <==> InPoolOf(m, y, z) {}
    if a: nat, b: nat :| VoicesClash(m, t, x, a, b) {
      assert VoicesClash(m, t, y, a, b);
    } else {
      var a: nat, b: nat :| AddedClash(m, x, a, b);
      assert AddedClash(m, y, a, b);
      assert forall z: nat :: Speaks(m, t, y, z) ==> Speaks(m, t, x, z);
    }
  }

  lemma SettlingStep(m: Merge, t: Table, pools: seq<seq<nat>>, k: nat, before: set<(nat, Class)>, r0: set<(nat, Class)>, r1: set<(nat, Class)>)
    requires m.Valid() && |t| == m.n && k < |pools|
    requires forall j :: 0 <= j < |pools| ==> pools[j] != [] && pools[j][0] < m.n
    requires Settling(m, t, pools, k, before, r0)
    requires r1 == r0 || exists y :: y in pools[k] && DisagreeAt(m, t, y) && r1 == r0 + {(y, Disagree)}
    requires DisagreeAt(m, t, pools[k][0]) ==> exists y :: y in pools[k] && (y, Disagree) in r1
    ensures Settling(m, t, pools, k + 1, before, r1)
  {
    hide Merge.Valid, DisagreeAt;
    forall x: nat | DisagreeAt(m, t, x) ensures OnSomeSide(m, x) { DisagreeSurvives(m, t, x); }
  }

  /** The last loop of `pass_yellow`. */
  method PassPoolsContent(c: Ctx, closed: array<Cell>, ghost t: Table, resultOf: seq<int>, pools: seq<seq<nat>>)
    returns (cells: seq<Option<Cell>>)
    requires c.FlagsKept() && closed.Length == c.m.n && FixedPoint(c.m, t) && NoneGone(c.m, t) && ClosedTable(c.m, t, closed[..])
    requires closed as object != c.pnode && closed as object != c.state && closed as object != c.gindex
    requires Results(c.m, resultOf, |pools|) && Pooled(resultOf, pools)
    modifies c`flags, c`raised, c.pnode
    ensures c.FlagsKept() && |cells| == |pools|
    ensures forall k :: 0 <= k < |pools| ==> pools[k] != [] && pools[k][0] < c.m.n && CellRight(c.m, t, pools[k], cells[k])
    ensures Raises(c.m, old(c.raised), c.raised, Disagree, (x: nat) => DisagreeAt(c.m, t, x))
  {
    hide Merge.Valid, FlagsFrom, GroupsOf, PoolOf, CellRight, Settling, Raises, Results, Pooled;
    forall k: nat | k < |pools| ensures pools[k] != [] && pools[k][0] < c.m.n { PoolIsClass(c.m, resultOf, pools, k); }
    cells := [];
    SettlingStarts(c.m, t, pools, c.raised);
    for k: nat := 0 to |pools|
      invariant c.FlagsKept() && closed[..] == old(closed[..]) && |cells| == k
      invariant forall j :: 0 <= j < k ==> CellRight(c.m, t, pools[j], cells[j])
      invariant Settling(c.m, t, pools, k, old(c.raised), c.raised)
    {
      PoolIsClass(c.m, resultOf, pools, k);
      ghost var before := c.raised;
      var cell := AgreeOne(c, closed, t, pools[k]);
      SettlingStep(c.m, t, pools, k, old(c.raised), before, c.raised);
      cells := cells + [cell];
    }
    SettlingEnds(c.m, t, resultOf, pools, old(c.raised), c.raised);
  }

  lemma SettlingStarts(m: Merge, t: Table, pools: seq<seq<nat>>, raised: set<(nat, Class)>)
    requires m.Valid() && |t| == m.n && forall j :: 0 <= j < |pools| ==> pools[j] != [] && pools[j][0] < m.n
    ensures Settling(m, t, pools, 0, raised, raised)
  {
  }

  // ----- zr_decide

  ghost predicate AllAccounted(m: Merge, t: Table, raised: set<(nat, Class)>)
    requires m.Valid() && |t| == m.n
  {
    SharingAccounted(m, raised) && ContentAccounted(m, t, raised)
  }

  lemma ContentAccount(m: Merge, t: Table, r4: set<(nat, Class)>, r5: set<(nat, Class)>, r6: set<(nat, Class)>)
    requires m.Valid() && |t| == m.n && SharingAccounted(m, r4) && NoneYet(r4, ChangedBoth) && NoneYet(r4, Disagree)
    requires Raises(m, r4, r5, ChangedBoth, (x: nat) => ChangedBothAt(m, t, x))
    requires Raises(m, r5, r6, Disagree, (x: nat) => DisagreeAt(m, t, x))
    ensures AllAccounted(m, t, r6)
  {
    hide Merge.Valid, Raises, Accounted;
    var changed, disagree := (x: nat) => ChangedBothAt(m, t, x), (x: nat) => DisagreeAt(m, t, x);
    SharingKept(m, r4, r5, ChangedBoth, changed);
    SharingKept(m, r5, r6, Disagree, disagree);
    Account(m, r4, r5, ChangedBoth, changed);
    AccountKept(m, r5, r6, ChangedBoth, changed, Disagree, disagree);
    StillNone(m, r4, r5, Disagree, ChangedBoth, changed);
    Account(m, r5, r6, Disagree, disagree);
  }

  lemma SharingKept(m: Merge, before: set<(nat, Class)>, after: set<(nat, Class)>, g: Class, other: nat -> bool)
    requires m.Valid() && SharingAccounted(m, before) && Raises(m, before, after, g, other) && (g == ChangedBoth || g == Disagree)
    ensures SharingAccounted(m, after)
  {
    hide Merge.Valid, Raises, Accounted;
    AccountKept(m, before, after, HealedSplit, (x: nat) => m.HealedAt(x), g, other);
    AccountKept(m, before, after, OrphanedAdd, (x: nat) => m.OrphanedAt(x), g, other);
    AccountKept(m, before, after, ContestedHome, (x: nat) => m.ContestedAt(x), g, other);
    AccountKept(m, before, after, Class.Unexpressed, (x: nat) => m.UnexpressedAt(x), g, other);
  }

  lemma EventsInRange(m: Merge, t: Table, x: nat)
    requires m.Valid() && |t| == m.n
    ensures m.HealedAt(x) || m.OrphanedAt(x) || m.ContestedAt(x) || m.UnexpressedAt(x) || ChangedBothAt(m, t, x) || DisagreeAt(m, t, x)
      ==> x < m.n
  {
  }

  /** The flags of every group are the classes that fired in it. */
  lemma AllFlags(m: Merge, t: Table, flags: seq<set<Class>>, groupOf: seq<int>, raised: set<(nat, Class)>, f: Class, u: nat)
    requires m.Valid() && |t| == m.n && GroupsOf(m, groupOf) && FlagsFrom(m, flags, groupOf, raised)
    requires u < m.NodeCount() && groupOf[u] < |flags| && AllAccounted(m, t, raised)
    ensures f in flags[groupOf[u]] <==> Flagged(m, t, f, u)
  {
    hide Merge.Valid, FlagsFrom, GroupsOf, Accounted, Flagged, Merge.HealedAt, Merge.OrphanedAt, Merge.ContestedAt,
      Merge.UnexpressedAt, ChangedBothAt, DisagreeAt;
    forall x: nat ensures Event(m, t, f, x) <==> x < m.n && Event(m, t, f, x) {}
    forall x: nat { EventsInRange(m, t, x); }
    match f
    case HealedSplit => FlagIsEvent(m, t, flags, groupOf, raised, f, (x: nat) => m.HealedAt(x), u);
    case OrphanedAdd => FlagIsEvent(m, t, flags, groupOf, raised, f, (x: nat) => m.OrphanedAt(x), u);
    case ContestedHome => FlagIsEvent(m, t, flags, groupOf, raised, f, (x: nat) => m.ContestedAt(x), u);
    case Unexpressed => FlagIsEvent(m, t, flags, groupOf, raised, f, (x: nat) => m.UnexpressedAt(x), u);
    case ChangedBoth => FlagIsEvent(m, t, flags, groupOf, raised, f, (x: nat) => ChangedBothAt(m, t, x), u);
    case Disagree => FlagIsEvent(m, t, flags, groupOf, raised, f, (x: nat) => DisagreeAt(m, t, x), u);
  }

  /** Surviving names that all lie in one group, as the names of a result pool do. */
  ghost predicate OneGroup(m: Merge, names: seq<nat>)
    requires m.Valid()
  {
    && names != [] && names[0] < m.n && m.Survives(names[0])
    && forall y :: y in names ==> y < m.n && m.Survives(y) && m.SameGroup(m.NodeOf(names[0]), m.NodeOf(y))
  }

  /** A clean group's pool keeps the content its cell says; a conflicted one's is dropped. */
  method FinishPool(c: Ctx, ghost t: Table, names: seq<nat>, cell: Option<Cell>) returns (p: ResultPool)
    requires c.FlagsKept() && |t| == c.m.n && OneGroup(c.m, names) && CellRight(c.m, t, names, cell)
    requires FlagsRight(c.m, t, c.flags, c.groupOf)
    modifies c.pnode
    ensures c.FlagsKept() && p.names == names && ContentRight(c.m, t, c.flags, c.groupOf, p)
  {
    hide Merge.Valid, FlagsFrom, Merge.SameGroup, DisagreeAt, Holds, ChangedBothAt;
    assert names[0] in names;
    var g := c.GroupOfNode(c.m.NodeOf(names[0]));
    if c.flags[g] != {} { return ResultPool(names, None, g); }
    CleanCell(c.m, t, c.flags, c.groupOf, names, cell);
    p := ResultPool(names, Some(cell.value.content), g);
  }

  lemma CleanCell(m: Merge, t: Table, flags: seq<set<Class>>, groupOf: seq<int>, names: seq<nat>, cell: Option<Cell>)
    requires m.Valid() && |t| == m.n && OneGroup(m, names) && CellRight(m, t, names, cell) && FlagsRight(m, t, flags, groupOf)
    requires flags[groupOf[m.NodeOf(names[0])]] == {}
    ensures cell.Some? && cell.value.Is? && forall c :: Holds(m, t, names[0], c) <==> cell.value == Is(c)
  {
    hide Merge.Valid, Merge.SameGroup, DisagreeAt, Holds, ChangedBothAt, Flagged;
    var u := m.NodeOf(names[0]);
    assert names[0] in names;
    forall f ensures !Flagged(m, t, f, u) { assert f !in flags[groupOf[u]]; }
    forall y | y in names ensures !ChangedBothAt(m, t, y) {
      if ChangedBothAt(m, t, y) { EventFlagged(m, t, ChangedBoth, y, u); }
    }
    if DisagreeAt(m, t, names[0]) { EventFlagged(m, t, Disagree, names[0], u); }
  }

  lemma EventFlagged(m: Merge, t: Table, f: Class, y: nat, u: nat)
    requires m.Valid() && |t| == m.n && u < m.NodeCount() && y < m.n && Event(m, t, f, y) && OnSomeSide(m, y)
    requires m.SameGroup(u, m.NodeOf(y))
    ensures Flagged(m, t, f, u)
  {
    assert EventIn(m, t, f, y, u);
  }

  lemma PoolInGroup(m: Merge, resultOf: seq<int>, pools: seq<seq<nat>>, k: nat)
    requires m.Valid() && Results(m, resultOf, |pools|) && Pooled(resultOf, pools) && k < |pools|
    ensures OneGroup(m, pools[k])
  {
    PoolIsClass(m, resultOf, pools, k);
    assert pools[k][0] in pools[k];
    forall y | y in pools[k] ensures m.SameGroup(m.NodeOf(pools[k][0]), m.NodeOf(y)) {
      assert InPoolOf(m, pools[k][0], y);
      ResultInGroup(m, pools[k][0], y);
    }
  }

  /** `pass_group_members`, as the group of every side pool. */
  method GroupList(c: Ctx) returns (groupOf: seq<int>)
    requires c.FlagsKept()
    modifies c.pnode
    ensures c.FlagsKept() && groupOf == c.groupOf
  {
    hide Merge.Valid, FlagsFrom;
    groupOf := [];
    for u: nat := 0 to c.m.NodeCount()
      invariant c.FlagsKept() && groupOf == c.groupOf[..u]
    {
      var g := c.GroupOfNode(u);
      groupOf := groupOf + [g];
    }
  }

  lemma AllFlagsRight(m: Merge, t: Table, flags: seq<set<Class>>, groupOf: seq<int>, raised: set<(nat, Class)>)
    requires m.Valid() && |t| == m.n && GroupsOf(m, groupOf) && FlagsFrom(m, flags, groupOf, raised)
    requires AllAccounted(m, t, raised) && forall u: nat :: u < m.NodeCount() ==> groupOf[u] < |flags|
    ensures FlagsRight(m, t, flags, groupOf)
  {
    hide Merge.Valid, FlagsFrom, AllAccounted, Flagged, Merge.SameGroup;
    forall f, u: nat | u < m.NodeCount() ensures f in flags[groupOf[u]] <==> Flagged(m, t, f, u) {
      AllFlags(m, t, flags, groupOf, raised, f, u);
    }
  }

  /** The result pools, each with its group and its content. */
  method FinishPools(c: Ctx, ghost t: Table, resultOf: seq<int>, pools: seq<seq<nat>>, cells: seq<Option<Cell>>)
    returns (out: seq<ResultPool>)
    requires c.FlagsKept() && |t| == c.m.n && Results(c.m, resultOf, |pools|) && Pooled(resultOf, pools)
    requires FlagsRight(c.m, t, c.flags, c.groupOf) && |cells| == |pools|
    requires forall k :: 0 <= k < |pools| ==> pools[k] != [] && pools[k][0] < c.m.n && CellRight(c.m, t, pools[k], cells[k])
    modifies c.pnode
    ensures c.FlagsKept() && |out| == |pools|
    ensures forall k :: 0 <= k < |pools| ==> out[k].names == pools[k] && ContentRight(c.m, t, c.flags, c.groupOf, out[k])
  {
    hide Merge.Valid, FlagsFrom, FlagsRight, CellRight, ContentRight, OneGroup, Results, Pooled;
    out := [];
    for k: nat := 0 to |pools|
      invariant c.FlagsKept() && |out| == k
      invariant forall j :: 0 <= j < k ==> out[j].names == pools[j] && ContentRight(c.m, t, c.flags, c.groupOf, out[j])
    {
      PoolInGroup(c.m, resultOf, pools, k);
      var p := FinishPool(c, t, pools[k], cells[k]);
      out := out + [p];
    }
  }

  method Decide(m: Merge, home: Homing) returns (d: Decision, ghost t: Table)
    requires m.Valid() && |m.base.pools| <= Shared.WORD
    ensures DecisionFor(m, t, d)
  {
    hide Merge.Valid, FlagsFrom, GroupsOf, Raises, AllAccounted, SharingAccounted, CellRight, ContentRight, Flagged,
      Coarsens, NoneGone, ClosedTable, HoldsResults, Merge.SameResult;
    var c := new Ctx(m);
    PassSharing(c, home);
    var resultOf, pools := PassPools(c);
    ghost var r4 := c.raised;
    var closed;
    closed, t := PassNamesContent(c);
    ghost var r5 := c.raised;
    var cells := PassPoolsContent(c, closed, t, resultOf, pools);
    ContentAccount(m, t, r4, r5, c.raised);
    AllFlagsRight(m, t, c.flags, c.groupOf, c.raised);
    var groupOf := GroupList(c);
    var out := FinishPools(c, t, resultOf, pools, cells);
    d := Decision(out, resultOf, groupOf, c.flags);
  }
}
