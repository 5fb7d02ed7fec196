/** `struct ctx` of src/decide.c: what the passes of one decision share and update in place. */
module Context {
  import opened UnionFind
  import opened MergeSpec
  import opened ContentSpec

  datatype NameState = NameState(base: bool, from: bool, onto: bool, survives: bool, contested: bool)

  function StateOf(m: Merge, x: nat): NameState {
    NameState(m.InBase(x), m.On(From, x), m.On(Onto, x), m.Survives(x), m.Contested(x))
  }

  class Ctx {
    const m: Merge
    const state: array<NameState>  // per name
    const parent: array<nat>       // union-find over names
    const klass: array<int>        // per name; -1 is none
    const pnode: array<nat>        // union-find over side pools
    const gindex: array<int>       // per pnode root; -1 is none
    var flags: seq<set<Class>>     // zg_flags of every group
    ghost var groupOf: seq<int>          // the group of every side pool
    ghost var raised: set<(nat, Class)>  // every call of `flag` so far

    constructor (m: Merge)
      ensures this.m == m && Shaped() && flags == [] && raised == {}
      ensures fresh(state) && fresh(parent) && fresh(klass) && fresh(pnode) && fresh(gindex)
    {
      this.m := m;
      state := new NameState[m.n](_ => NameState(false, false, false, false, false));
      parent := new nat[m.n](_ => 0);
      klass := new int[m.n](_ => -1);
      pnode := new nat[m.NodeCount()](_ => 0);
      gindex := new int[m.NodeCount()](_ => -1);
      flags, groupOf, raised := [], [], {};
    }

    ghost predicate Shaped() {
      && state.Length == parent.Length == klass.Length == m.n
      && pnode.Length == gindex.Length == m.NodeCount()
      && parent != pnode && klass != gindex
    }

    /** `pass_names` has run. */
    ghost predicate Named()
      reads state
    {
      && m.Valid() && Shaped()
      && forall x: nat :: x < m.n ==> state[x] == StateOf(m, x)
    }

    function Settled(x: nat): bool
      requires x < state.Length
      reads state
    {
      state[x].survives && !state[x].contested
    }

    /** `pass_groups` has run: `groupOf` is what `gindex[pnode_find(u)]` answers, one index per
        connected component of side pools. */
    ghost predicate Grouped()
      reads this, state, pnode, gindex
    {
      && Named() && Forest(pnode[..]) && GroupsOf(m, groupOf)
      && (forall u: nat :: u < m.NodeCount() ==> gindex[Root(pnode[..], u)] == groupOf[u] < |flags|)
    }

    /** The flags of the groups are exactly those raised by name. */
    ghost predicate FlagsKept()
      reads this, state, pnode, gindex
    {
      Grouped() && FlagsFrom(m, flags, groupOf, raised)
    }

    /** `group_of_name`'s last step, from a side pool to its group; `pnode_find` compresses. */
    method GroupOfNode(u: nat) returns (g: int)
      requires Grouped() && u < m.NodeCount()
      modifies pnode
      ensures Grouped() && g == groupOf[u] && 0 <= g < |flags|
    {
      var root := Find(pnode, u);
      assert Root(pnode[..], u) == root;
      g := gindex[root];
    }

    /** `flag`: the class f goes on the group of x. */
    method Flag(x: nat, f: Class)
      requires FlagsKept() && x < m.n && (m.On(From, x) || m.On(Onto, x))
      modifies this`flags, this`raised, pnode
      ensures FlagsKept() && raised == old(raised) + {(x, f)}
    {
      var g := GroupOfNode(m.NodeOf(x));
      FlagOne(m, flags, groupOf, raised, x, f);
      flags := flags[g := flags[g] + {f}];
      raised := raised + {(x, f)};
    }
  }

  ghost predicate GroupsOf(m: Merge, groupOf: seq<int>)
    requires m.Valid()
  {
    && |groupOf| == m.NodeCount()
    && (forall u :: 0 <= u < |groupOf| ==> 0 <= groupOf[u])
    && (forall u: nat, v: nat :: u < m.NodeCount() && v < m.NodeCount() ==>
          (groupOf[u] == groupOf[v] <==> m.SameGroup(u, v)))
  }

  ghost predicate RaisedIn(m: Merge, groupOf: seq<int>, raised: set<(nat, Class)>, x: nat, f: Class, g: int)
    requires m.Valid() && |groupOf| == m.NodeCount()
  {
    (x, f) in raised && OnSomeSide(m, x) && groupOf[m.NodeOf(x)] == g
  }

  ghost predicate FlagsFrom(m: Merge, flags: seq<set<Class>>, groupOf: seq<int>, raised: set<(nat, Class)>)
    requires m.Valid() && |groupOf| == m.NodeCount()
  {
    forall g, f :: 0 <= g < |flags| ==> (f in flags[g] <==> exists x: nat :: RaisedIn(m, groupOf, raised, x, f, g))
  }

  lemma FlagOne(m: Merge, flags: seq<set<Class>>, groupOf: seq<int>, raised: set<(nat, Class)>, x: nat, f: Class)
    requires m.Valid() && |groupOf| == m.NodeCount() && FlagsFrom(m, flags, groupOf, raised)
    requires (m.On(From, x) || m.On(Onto, x)) && 0 <= groupOf[m.NodeOf(x)] < |flags|
    ensures var g := groupOf[m.NodeOf(x)];
      FlagsFrom(m, flags[g := flags[g] + {f}], groupOf, raised + {(x, f)})
  {
    var g := groupOf[m.NodeOf(x)];
    var now, after := raised + {(x, f)}, flags[g := flags[g] + {f}];
    forall k, e | 0 <= k < |after|
      ensures e in after[k] <==> exists y: nat :: RaisedIn(m, groupOf, now, y, e, k)
    {
      if k == g && e == f { assert RaisedIn(m, groupOf, now, x, f, g); }
      if y: nat :| RaisedIn(m, groupOf, raised, y, e, k) { assert RaisedIn(m, groupOf, now, y, e, k); }
      if y: nat :| RaisedIn(m, groupOf, now, y, e, k) {
        assert RaisedIn(m, groupOf, raised, y, e, k) || (y == x && e == f);
      }
    }
  }

  ghost predicate OnSomeSide(m: Merge, x: nat) { m.On(From, x) || m.On(Onto, x) }

  /** What a conflict pass adds to the flags: every group it flags holds an event of its class, and
      every event's group is flagged. */
  ghost predicate Raises(m: Merge, before: set<(nat, Class)>, after: set<(nat, Class)>, f: Class,
                         event: nat -> bool)
    requires m.Valid()
  {
    && before <= after
    && (forall x: nat, e :: (x, e) in after && (x, e) !in before ==>
          e == f && OnSomeSide(m, x) && exists y: nat :: Because(m, event, x, y))
    && (forall x: nat :: event(x) && OnSomeSide(m, x) ==> exists y: nat :: RaisedFor(m, after, f, x, y))
  }

  ghost predicate Because(m: Merge, event: nat -> bool, x: nat, y: nat)
    requires m.Valid() && OnSomeSide(m, x)
  {
    event(y) && OnSomeSide(m, y) && m.SameGroup(m.NodeOf(x), m.NodeOf(y))
  }

  ghost predicate RaisedFor(m: Merge, after: set<(nat, Class)>, f: Class, x: nat, y: nat)
    requires m.Valid() && OnSomeSide(m, x)
  {
    (y, f) in after && OnSomeSide(m, y) && m.SameGroup(m.NodeOf(x), m.NodeOf(y))
  }

  /** The plain case: every event raises itself. */
  lemma RaisesEach(m: Merge, before: set<(nat, Class)>, after: set<(nat, Class)>, f: Class, event: nat -> bool)
    requires m.Valid()
    requires forall x: nat :: event(x) ==> OnSomeSide(m, x)
    requires forall x: nat, e :: (x, e) in after <==> (x, e) in before || (e == f && event(x))
    ensures Raises(m, before, after, f, event)
  {
    forall x: nat | event(x) ensures exists y: nat :: RaisedFor(m, after, f, x, y) {
      assert RaisedFor(m, after, f, x, x);
    }
    forall x: nat, e | (x, e) in after && (x, e) !in before ensures exists y: nat :: Because(m, event, x, y) {
      assert Because(m, event, x, x);
    }
    forall p | p in before ensures p in after { assert p == (p.0, p.1); }
  }
}
