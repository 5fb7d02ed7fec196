/** What an emitted list asks of the interpreter, with everything the decision knows but the list
    does not need left out. */
module Plan {
  import opened Trees
  import opened Manifest
  import opened Apply

  /** `pool` is each name's result pool or -1, `clean` whether its group is free of conflict;
      `anchor`, `keeps` and `goal` are per result pool; `pos` is each name's place in `order`. */
  datatype Plan = Plan(n: nat, onto: Tree, pool: seq<int>, clean: seq<bool>, anchor: seq<nat>, keeps: seq<int>,
                       goal: seq<Content>, order: seq<nat>, pos: seq<int>) {

    ghost predicate Shaped() {
      && onto.Valid(n) && |pool| == n && |clean| == n && |pos| == n && |anchor| == |keeps| == |goal|
      && (forall x: nat :: x < n ==> -1 <= pool[x] < |anchor|)
      && (forall k: nat :: k < |anchor| ==> anchor[k] < n && pool[anchor[k]] == k)
      && (forall i :: 0 <= i < |order| ==> order[i] < n && pos[order[i]] == i)
      && (forall x: nat :: x < n && (pool[x] != -1 || onto.Has(x)) ==> 0 <= pos[x] < |order| && order[pos[x]] == x)
    }

    /** A surviving name of a clean group. */
    predicate Wanted(x: nat)
      requires |pool| == n && |clean| == n
    {
      x < n && pool[x] != -1 && clean[x]
    }

    /** A name of onto, in a clean group, that the result does not have. */
    predicate Dying(x: nat)
      requires |pool| == n && |clean| == n
    {
      x < n && pool[x] == -1 && clean[x] && onto.Has(x)
    }

    ghost predicate Valid() {
      && Shaped()
      // an onto pool, and a result pool, lies in one group
      && (forall x: nat, y: nat :: onto.Has(x) && onto.Has(y) && onto.poolOf[x] == onto.poolOf[y] ==> clean[x] == clean[y])
      && (forall x: nat :: x < n && pool[x] != -1 ==> clean[x] == clean[anchor[pool[x]]])
      // kept objects
      && (forall k: nat :: k < |anchor| && keeps[k] != -1 ==> onto.Has(anchor[k]) && onto.poolOf[anchor[k]] == keeps[k])
      && (forall j: nat, k: nat :: j < |anchor| && k < |anchor| && keeps[j] == keeps[k] != -1 ==> j == k)
      && (forall k: nat :: k < |anchor| && onto.Has(anchor[k]) && onto.ContentAt(anchor[k]).kind == Directory ==> keeps[k] != -1)
      // types
      && (forall x: nat :: Wanted(x) && onto.Has(x) ==> onto.ContentAt(x).kind == goal[pool[x]].kind)
      && (forall x: nat, y: nat :: Wanted(x) && Wanted(y) && pool[x] == pool[y] && goal[pool[x]].kind == Directory ==> x == y)
      // anchors come first
      && (forall x: nat :: x < n && pool[x] != -1 ==> pos[anchor[pool[x]]] <= pos[x])
    }

    function Objects(): nat { |onto.pools| }

    /** The name keeps the onto object its result pool keeps. */
    predicate Stays(x: nat)
      requires Shaped()
    {
      Wanted(x) && onto.Has(x) && onto.poolOf[x] == keeps[pool[x]]
    }

    /** The kept object is a symbolic link whose target changes: writing it makes a new object. */
    predicate Relinks(k: nat)
      requires Shaped() && k < |anchor|
    {
      && clean[anchor[k]] && 0 <= keeps[k] < Objects()
      && goal[k].kind == Symlink && onto.pools[keeps[k]].content.text != goal[k].text
    }

    /** The pool keeps an object of a type whose text no write changes: a device, in practice. */
    predicate KeepsText(k: nat)
      requires Shaped() && k < |anchor|
    {
      clean[anchor[k]] && 0 <= keeps[k] < Objects() && goal[k].kind != File && goal[k].kind != Symlink
    }

    /** What the pool's object holds in the end: its content, but for the text of one that keeps it. */
    function Ends(k: nat): Content
      requires Shaped() && k < |anchor|
    {
      if KeepsText(k) then goal[k].(text := onto.pools[keeps[k]].content.text) else goal[k]
    }

    /** The pool is to have another text than the object it keeps, and cannot. */
    predicate Stuck(k: nat)
      requires Shaped() && k < |anchor|
    {
      KeepsText(k) && onto.pools[keeps[k]].content.text != goal[k].text
    }

    function KindOf(x: nat): Kind
      requires Shaped() && (Wanted(x) || onto.Has(x))
    {
      if onto.Has(x) then onto.ContentAt(x).kind else goal[pool[x]].kind
    }

    /** The line a name gets, in terms of what it brings. */
    ghost predicate Fits(e: Sources, x: nat, a: Act)
      requires Shaped() && x < n
    {
      if !clean[x] then a.Mark? || a.Nothing?
      else if pool[x] == -1 then
        if onto.Has(x) then a == Rm(onto.ContentAt(x).kind == Directory) else a.Nothing?
      else
        var k := pool[x];
        if x != anchor[k] then
          if Stays(x) then a.Nothing? else a == Ln(anchor[k])
        else if keeps[k] == -1 then
          || (a.Cp? && e.from.Has(a.source) && e.from.poolOf[a.source] < |e.from.pools| && e.from.ContentAt(a.source) == goal[k])
          || (a.Dup? && e.onto.Has(a.source) && e.onto.poolOf[a.source] < |e.onto.pools| && e.onto.ContentAt(a.source) == goal[k])
        else if 0 <= keeps[k] < Objects() && onto.pools[keeps[k]].content == goal[k] then a.Nothing?
        else a.Write? && e.from.Has(a.source) && e.from.poolOf[a.source] < |e.from.pools| && e.from.ContentAt(a.source) == goal[k]
    }
  }

  /** Every name walked has a line that fits. */
  ghost predicate Carries(p: Plan, e: Sources, acts: seq<Act>)
    requires p.Shaped()
  {
    && e.Valid() && |acts| == |p.order|
    && forall i: nat :: i < |acts| ==> p.Fits(e, p.order[i], acts[i])
  }

  /** The list of the first i names walked. */
  function ListOf(p: Plan, acts: seq<Act>, i: nat): (r: seq<Action>)
    requires i <= |acts| == |p.order|
  {
    if i == 0 then [] else
    ListOf(p, acts, i - 1) + (if acts[i - 1] == Nothing then [] else [Action(acts[i - 1], p.order[i - 1])])
  }

  // ----- what every run keeps, from whatever point it was resumed

  /** Names in conflicted groups keep their object and its content; nothing else is added. */
  ghost predicate Isolated(p: Plan, s: Store)
    requires p.Shaped()
  {
    && s.Valid() && p.Objects() <= |s.body|
    && (forall x: nat :: x in s.at ==> p.onto.Has(x) || p.Wanted(x))
    && (forall x: nat :: p.onto.Has(x) && !p.clean[x] ==>
          x in s.at && s.at[x] == p.onto.poolOf[x] && s.body[p.onto.poolOf[x]] == p.onto.ContentAt(x))
  }

  ghost predicate KeptName(p: Plan, s: Store, x: nat)
    requires p.Shaped() && p.Stays(x)
  {
    && x in s.at
    && (s.at[x] == p.onto.poolOf[x] || (x == p.anchor[p.pool[x]] && p.Relinks(p.pool[x]) && s.at[x] >= p.Objects()))
  }

  /** Kept names hold the kept object, unless its write had to make a new one. */
  ghost predicate Keeping(p: Plan, s: Store)
    requires p.Shaped()
  {
    && p.Objects() <= |s.body|
    && (forall x: nat :: p.Stays(x) ==> KeptName(p, s, x))
    && (forall k: nat :: k < |p.anchor| && p.clean[p.anchor[k]] && 0 <= p.keeps[k] < p.Objects() ==>
          s.body[p.keeps[k]] == p.onto.pools[p.keeps[k]].content || (s.body[p.keeps[k]] == p.Ends(k) && !p.Relinks(k)))
  }

  /** Objects are shared only as onto shared them or as one result pool does. */
  ghost predicate SharedRight(p: Plan, s: Store)
    requires p.Shaped()
  {
    && (forall x: nat, y: nat :: x in s.at && y in s.at && s.at[x] == s.at[y] >= p.Objects() ==>
          p.Wanted(x) && p.Wanted(y) && p.pool[x] == p.pool[y])
    && (forall x: nat :: x in s.at && s.at[x] < p.Objects() ==>
          (p.onto.Has(x) && p.onto.poolOf[x] == s.at[x]) || (p.Wanted(x) && p.keeps[p.pool[x]] == s.at[x]))
  }

  /** Objects keep the type of their names, and a directory has one name. */
  ghost predicate Typed(p: Plan, s: Store)
    requires p.Shaped() && Isolated(p, s)
  {
    && (forall x: nat :: x in s.at ==> s.body[s.at[x]].kind == p.KindOf(x))
    && (forall x: nat, y: nat :: x in s.at && y in s.at && s.at[x] == s.at[y] && p.KindOf(x) == Directory ==> x == y)
  }

  ghost predicate Pended(p: Plan, s: Store)
    requires p.Shaped()
  {
    forall i :: 0 <= i < |s.pending| ==> p.Dying(s.pending[i]) && p.onto.ContentAt(s.pending[i]).kind == Directory
  }

  /** A store some part of the list may already have been applied to. */
  ghost predicate Resumable(p: Plan, s: Store)
    requires p.Shaped()
  {
    Isolated(p, s) && Keeping(p, s) && SharedRight(p, s) && Typed(p, s) && Pended(p, s)
  }

  /** What the line of x, once reached, has made true. */
  ghost predicate Settled(p: Plan, s: Store, x: nat)
    requires p.Shaped() && s.Valid() && x < p.n
  {
    && (p.Dying(x) ==> x !in s.at || x in s.pending)
    && (p.Wanted(x) ==>
          var k := p.pool[x]; var a := p.anchor[k];
          && a in s.at
          && (x == a ==> s.body[s.at[a]] == p.Ends(k) && (p.keeps[k] == -1 || p.Relinks(k) ==> s.at[a] >= p.Objects()))
          && (x != a && !p.Stays(x) ==> x in s.at && s.at[x] == s.at[a]))
  }

  ghost predicate SettledTo(p: Plan, s: Store, i: nat)
    requires p.Shaped() && s.Valid() && i <= |p.order|
  {
    forall j: nat :: j < i ==> Settled(p, s, p.order[j])
  }
}
