/** The editor of src/fixture.c, `zr_fixture_edit`: one pooled tree turned into another over a flat
    store, leaving alone every object that is already right. */
module Editor {
  import opened Trees

  const NONE := -1

  /** `struct fx_entry`: a name and the first entry of its pool. */
  datatype Entry = Entry(name: nat, pool: nat)

  /** What one edit is given: the tree asked for, entry by entry, with the content of the pool each
      entry owns and the attributes a new object of it is born with; and the tree walked. */
  datatype Edit = Edit(ents: seq<Entry>, goal: seq<Content>, born: seq<nat>, w: Tree, n: nat, root: nat) {

    ghost predicate Valid() {
      && |goal| == |born| == |ents| && w.Valid(n) && w.Has(root) && w.ContentAt(root).kind == Directory
      && (forall i :: 0 <= i < |ents| ==> ents[i].name < n && ents[i].name != root && EntryValid(i))
      && (forall i, j :: 0 <= i < |ents| && 0 <= j < |ents| && ents[i].name == ents[j].name ==> i == j)
      && (forall i :: 0 <= i < |ents| && goal[ents[i].pool].kind == Directory ==> ents[i].pool == i)
      && (forall i :: 0 <= i < |ents| ==> CanMake(goal[i]))
      && (forall q :: 0 <= q < |w.pools| ==> TextFree(w.pools[q].content))
    }

    ghost predicate EntryValid(i: nat)
      requires i < |ents|
    {
      ents[i].pool <= i && ents[ents[i].pool].pool == ents[i].pool
    }

    /** Directories and sockets have no text; a device the walk may meet has its number. */
    predicate TextFree(c: Content) { c.kind == Directory || c.kind == Socket ==> c.text == 0 }

    /** What a fixture can ask for. */
    predicate CanMake(c: Content) { (c.kind.File? || c.kind.Symlink? || c.kind.Directory? || c.kind.Socket?) && TextFree(c) }

    function Objects(): nat { |w.pools| }

    /** `ed_dp`: the object the entry's name is on, or NONE. */
    function Dp(i: nat): int
      requires i < |ents|
    {
      if w.Has(ents[i].name) then w.poolOf[ents[i].name] else NONE
    }

    predicate Owner(o: nat)
      requires o < |ents|
    {
      ents[o].pool == o
    }

    /** `fx_ed_fits`. */
    predicate Fits(o: nat, d: nat)
      requires o < |goal| && d < |w.pools|
    {
      w.pools[d].content.kind == goal[o].kind && (goal[o].kind == Symlink ==> w.pools[d].content.text == goal[o].text)
    }

    /** Entry i votes for its pool to keep the object its name is on. */
    predicate Votes(i: nat, o: nat, d: nat)
      requires i < |ents| && o < |goal| && d < |w.pools|
    {
      ents[i].pool == o && Dp(i) == d && Fits(o, d)
    }
  }

  /** The votes of the first i entries. */
  function Count(e: Edit, i: nat, o: nat, d: nat): (r: nat)
    requires i <= |e.ents| && o < |e.goal| && d < |e.w.pools|
    ensures r <= i
  {
    if i == 0 then 0 else Count(e, i - 1, o, d) + (if e.Votes(i - 1, o, d) then 1 else 0)
  }

  lemma {:induction false} CountSome(e: Edit, i: nat, o: nat, d: nat)
    requires i <= |e.ents| && o < |e.goal| && d < |e.w.pools|
    ensures Count(e, i, o, d) > 0 <==> exists k: nat :: k < i && e.Votes(k, o, d)
  {
    hide Edit.Votes;
    if i > 0 { CountSome(e, i - 1, o, d); }
  }

  // ----- the claim

  /** A pair beaten for its pool or for its object by one with as many votes. */
  ghost predicate Beaten(e: Edit, claim: seq<int>, o: nat, d: nat)
    requires |claim| == |e.ents| == |e.goal| && o < |e.ents| && d < |e.w.pools|
  {
    || (0 <= claim[o] < |e.w.pools| && Count(e, |e.ents|, o, claim[o]) >= Count(e, |e.ents|, o, d))
    || (exists p: nat :: p < |claim| && claim[p] == d && Count(e, |e.ents|, p, d) >= Count(e, |e.ents|, o, d))
  }

  ghost predicate ClaimsSound(e: Edit, claim: seq<int>)
    requires |claim| == |e.ents| == |e.goal|
  {
    && (forall o: nat :: o < |claim| && claim[o] != NONE ==> 0 <= claim[o] < |e.w.pools| && Count(e, |e.ents|, o, claim[o]) > 0)
    && (forall o: nat, p: nat :: o < |claim| && p < |claim| && claim[o] == claim[p] != NONE ==> o == p)
  }

  /** What `fx_ed_claim` leaves: a pool keeps an object it fits and has names on, no object is kept
      twice, and no pair has more votes than what was claimed against it. */
  ghost predicate ClaimRight(e: Edit, claim: seq<int>) {
    && |claim| == |e.ents| == |e.goal| && ClaimsSound(e, claim)
    && forall o: nat, d: nat :: o < |claim| && d < |e.w.pools| && Count(e, |e.ents|, o, d) > 0 ==> Beaten(e, claim, o, d)
  }

  /** `struct fx_vote`. */
  datatype Vote = Vote(owner: nat, dir: nat, n: nat)

  ghost predicate VotesListed(e: Edit, i: nat, v: seq<Vote>)
    requires i <= |e.ents| == |e.goal|
  {
    && (forall k :: 0 <= k < |v| ==> v[k].owner < |e.goal| && v[k].dir < |e.w.pools| && v[k].n == Count(e, i, v[k].owner, v[k].dir) > 0)
    && (forall o: nat, d: nat :: o < |e.goal| && d < |e.w.pools| && Count(e, i, o, d) > 0 ==> Listed(v, o, d))
    && (forall k, l :: 0 <= k < l < |v| ==> v[k].owner != v[l].owner || v[k].dir != v[l].dir)
  }

  ghost predicate Listed(v: seq<Vote>, o: nat, d: nat) {
    exists k :: 0 <= k < |v| && v[k].owner == o && v[k].dir == d
  }

  /** The first loop of `fx_ed_claim`. */
  method TakeVotes(e: Edit) returns (v: seq<Vote>)
    requires e.Valid()
    ensures VotesListed(e, |e.ents|, v)
  {
    hide Edit.Valid, VotesListed, Edit.Fits;
    v := [];
    NoVotes(e);
    for i: nat := 0 to |e.ents|
      invariant VotesListed(e, i, v)
    {
      EntryRange(e, i);
      var o, d := e.ents[i].pool, e.Dp(i);
      if d == NONE || !e.Fits(o, d) {
        VoteNone(e, i, v);
      } else {
        var k := FindVote(v, o, d);
        if k == |v| { VoteNew(e, i, v, o, d); } else { VoteMore(e, i, v, o, d, k); }
        v := if k == |v| then v + [Vote(o, d, 1)] else v[k := v[k].(n := v[k].n + 1)];
      }
    }
  }

  method FindVote(v: seq<Vote>, o: nat, d: nat) returns (k: nat)
    ensures k <= |v| && (k < |v| ==> v[k].owner == o && v[k].dir == d)
    ensures k == |v| ==> !Listed(v, o, d)
  {
    k := 0;
    while k < |v|
      invariant k <= |v| && forall j :: 0 <= j < k ==> v[j].owner != o || v[j].dir != d
    {
      if v[k].owner == o && v[k].dir == d { return; }
      k := k + 1;
    }
  }

  lemma EntryRange(e: Edit, i: nat)
    requires e.Valid() && i < |e.ents|
    ensures e.ents[i].pool < |e.goal| == |e.ents| && (e.Dp(i) == NONE || 0 <= e.Dp(i) < |e.w.pools|)
  {
    assert e.EntryValid(i);
  }

  lemma NoVotes(e: Edit)
    requires e.Valid()
    ensures |e.goal| == |e.ents| && VotesListed(e, 0, [])
  {
  }

  lemma VoteNone(e: Edit, i: nat, v: seq<Vote>)
    requires e.Valid() && i < |e.ents| && VotesListed(e, i, v) && e.ents[i].pool < |e.goal|
    requires e.Dp(i) == NONE || (0 <= e.Dp(i) < |e.w.pools| && !e.Fits(e.ents[i].pool, e.Dp(i)))
    ensures VotesListed(e, i + 1, v)
  {
    hide Edit.Valid, Edit.Fits, Edit.Dp, Listed;
    forall o: nat, d: nat | o < |e.goal| && d < |e.w.pools| ensures Count(e, i + 1, o, d) == Count(e, i, o, d) {}
  }

  lemma CountOne(e: Edit, i: nat, o: nat, d: nat)
    requires e.Valid() && i < |e.ents| && o == e.ents[i].pool < |e.goal| && d == e.Dp(i) && d < |e.w.pools| && e.Fits(o, d)
    ensures forall p: nat, q: nat :: p < |e.goal| && q < |e.w.pools| ==>
      Count(e, i + 1, p, q) == Count(e, i, p, q) + (if p == o && q == d then 1 else 0)
  {
    hide Edit.Valid, Edit.Fits, Edit.Dp;
  }

  lemma NotListed(e: Edit, i: nat, v: seq<Vote>, o: nat, d: nat)
    requires i <= |e.ents| == |e.goal| && VotesListed(e, i, v) && !Listed(v, o, d) && o < |e.goal| && d < |e.w.pools|
    ensures Count(e, i, o, d) == 0
  {
  }

  lemma ListedStill(v: seq<Vote>, v': seq<Vote>, o: nat, d: nat)
    requires Listed(v, o, d) && |v| <= |v'| && forall k :: 0 <= k < |v| ==> v'[k].owner == v[k].owner && v'[k].dir == v[k].dir
    ensures Listed(v', o, d)
  {
    var l :| 0 <= l < |v| && v[l].owner == o && v[l].dir == d;
    assert v'[l].owner == o && v'[l].dir == d;
  }

  lemma VoteNew(e: Edit, i: nat, v: seq<Vote>, o: nat, d: nat)
    requires e.Valid() && i < |e.ents| == |e.goal| && VotesListed(e, i, v) && o == e.ents[i].pool < |e.goal| && d == e.Dp(i)
    requires d < |e.w.pools| && e.Fits(o, d) && !Listed(v, o, d)
    ensures VotesListed(e, i + 1, v + [Vote(o, d, 1)])
  {
    hide Edit.Valid, Edit.Fits, Edit.Dp, Count, Edit.Votes, Listed;
    var v' := v + [Vote(o, d, 1)];
    CountOne(e, i, o, d);
    NotListed(e, i, v, o, d);
    forall k | 0 <= k < |v| ensures v[k].owner != o || v[k].dir != d { NotListedAt(v, o, d, k); }
    forall p: nat, q: nat | p < |e.goal| && q < |e.w.pools| && Count(e, i + 1, p, q) > 0 ensures Listed(v', p, q) {
      if p == o && q == d { ListedAt(v', |v|, o, d); } else { ListedStill(v, v', p, q); }
    }
  }

  lemma ListedAt(v: seq<Vote>, k: nat, o: nat, d: nat)
    requires k < |v| && v[k].owner == o && v[k].dir == d
    ensures Listed(v, o, d)
  {
  }

  lemma NotListedAt(v: seq<Vote>, o: nat, d: nat, k: nat)
    requires !Listed(v, o, d) && k < |v|
    ensures v[k].owner != o || v[k].dir != d
  {
  }

  lemma VoteMore(e: Edit, i: nat, v: seq<Vote>, o: nat, d: nat, k: nat)
    requires e.Valid() && i < |e.ents| == |e.goal| && VotesListed(e, i, v) && o == e.ents[i].pool < |e.goal| && d == e.Dp(i)
    requires d < |e.w.pools| && e.Fits(o, d) && k < |v| && v[k].owner == o && v[k].dir == d
    ensures VotesListed(e, i + 1, v[k := v[k].(n := v[k].n + 1)])
  {
    hide Edit.Valid, Edit.Fits, Edit.Dp, Count, Edit.Votes, Listed;
    var v' := v[k := v[k].(n := v[k].n + 1)];
    CountOne(e, i, o, d);
    ListedAt(v, k, o, d);
    forall p: nat, q: nat | p < |e.goal| && q < |e.w.pools| && Count(e, i + 1, p, q) > 0 ensures Listed(v', p, q) {
      ListedStill(v, v', p, q);
    }
  }

  /** The claim so far: what is claimed is sound, was claimed before anything with more votes was
      passed over, and `taken` marks the objects. */
  ghost predicate ClaimSoFar(e: Edit, claim: seq<int>, taken: set<nat>, least: int)
    requires |claim| == |e.ents| == |e.goal|
  {
    && ClaimsSound(e, claim)
    && (forall d: nat :: d in taken <==> exists o: nat :: o < |claim| && claim[o] == d)
    && (forall o: nat :: o < |claim| && claim[o] != NONE && claim[o] >= 0 && claim[o] < |e.w.pools| ==> Count(e, |e.ents|, o, claim[o]) >= least)
  }

  predicate Open(v: Vote, claim: seq<int>, taken: set<nat>)
    requires v.owner < |claim|
  {
    v.n != 0 && v.dir !in taken && claim[v.owner] == NONE
  }

  /** The vote with the most of what is open; the first such. */
  method BestVote(v: seq<Vote>, claim: array<int>, taken: set<nat>) returns (best: nat)
    requires forall k :: 0 <= k < |v| ==> v[k].owner < claim.Length
    ensures best <= |v|
    ensures best < |v| ==> Open(v[best], claim[..], taken) && forall k :: 0 <= k < |v| && Open(v[k], claim[..], taken) ==> v[k].n <= v[best].n
    ensures best == |v| ==> forall k :: 0 <= k < |v| ==> !Open(v[k], claim[..], taken)
  {
    best := |v|;
    for k: nat := 0 to |v|
      invariant best <= |v|
      invariant best < |v| ==> Open(v[best], claim[..], taken) && forall j :: 0 <= j < k && Open(v[j], claim[..], taken) ==> v[j].n <= v[best].n
      invariant best == |v| ==> forall j :: 0 <= j < k ==> !Open(v[j], claim[..], taken)
    {
      if v[k].n != 0 && v[k].dir !in taken && claim[v[k].owner] == NONE && (best == |v| || v[k].n > v[best].n) { best := k; }
    }
  }

  lemma ClaimOne(e: Edit, claim: seq<int>, taken: set<nat>, least: int, x: Vote)
    requires |claim| == |e.ents| == |e.goal| && ClaimSoFar(e, claim, taken, least) && x.owner < |e.goal| && x.dir < |e.w.pools|
    requires Open(x, claim, taken) && x.n == Count(e, |e.ents|, x.owner, x.dir) && x.n <= least
    ensures ClaimSoFar(e, claim[x.owner := x.dir], taken + {x.dir}, x.n)
  {
    hide Count;
    var claim' := claim[x.owner := x.dir];
    assert claim'[x.owner] == x.dir;
    forall d: nat ensures d in taken + {x.dir} <==> exists o: nat :: o < |claim'| && claim'[o] == d {
      if d in taken {
        var o: nat :| o < |claim| && claim[o] == d;
        assert claim'[o] == d;
      }
      if o: nat :| o < |claim'| && claim'[o] == d {
        if o != x.owner { assert claim[o] == d; }
      }
    }
  }

  lemma ClaimDone(e: Edit, v: seq<Vote>, claim: seq<int>, taken: set<nat>, least: int, o: nat, d: nat)
    requires |claim| == |e.ents| == |e.goal| && ClaimSoFar(e, claim, taken, least) && VotesListed(e, |e.ents|, v)
    requires forall k :: 0 <= k < |v| ==> v[k].owner < |claim| && !Open(v[k], claim, taken)
    requires o < |claim| && d < |e.w.pools| && Count(e, |e.ents|, o, d) > 0
    ensures claim[o] != NONE || d in taken
  {
    hide Count;
    assert Listed(v, o, d);
    var k :| 0 <= k < |v| && v[k].owner == o && v[k].dir == d;
  }

  /** Nothing open has more votes than the least claimed; what is not open is beaten. */
  ghost predicate Ahead(e: Edit, claim: seq<int>, taken: set<nat>, least: int)
    requires |claim| == |e.ents| == |e.goal|
  {
    forall o: nat, d: nat :: o < |claim| && d < |e.w.pools| && Count(e, |e.ents|, o, d) > 0 ==>
      if claim[o] == NONE && d !in taken then Count(e, |e.ents|, o, d) <= least else Beaten(e, claim, o, d)
  }

  lemma AheadStep(e: Edit, claim: seq<int>, taken: set<nat>, least: int, x: Vote)
    requires |claim| == |e.ents| == |e.goal| && ClaimSoFar(e, claim, taken, least) && Ahead(e, claim, taken, least)
    requires x.owner < |e.goal| && x.dir < |e.w.pools| && Open(x, claim, taken) && x.n == Count(e, |e.ents|, x.owner, x.dir)
    requires forall o: nat, d: nat :: o < |claim| && d < |e.w.pools| && Count(e, |e.ents|, o, d) > 0 && claim[o] == NONE && d !in taken ==>
      Count(e, |e.ents|, o, d) <= x.n
    ensures Ahead(e, claim[x.owner := x.dir], taken + {x.dir}, x.n)
  {
    hide Count, ClaimSoFar;
    var claim' := claim[x.owner := x.dir];
    forall o: nat, d: nat | o < |claim'| && d < |e.w.pools| && Count(e, |e.ents|, o, d) > 0 && !(claim'[o] == NONE && d !in taken + {x.dir})
      ensures Beaten(e, claim', o, d)
    {
      if claim[o] == NONE && d !in taken {
        assert Count(e, |e.ents|, o, d) <= x.n;
        assert claim'[x.owner] == x.dir;
      } else {
        BeatenStill(e, claim, claim', o, d, x.owner);
      }
    }
  }

  lemma BeatenStill(e: Edit, claim: seq<int>, claim': seq<int>, o: nat, d: nat, p: nat)
    requires |claim| == |claim'| == |e.ents| == |e.goal| && o < |claim| && d < |e.w.pools| && p < |claim| && claim[p] == NONE
    requires claim' == claim[p := claim'[p]] && Beaten(e, claim, o, d)
    ensures Beaten(e, claim', o, d)
  {
    hide Count;
    if !(0 <= claim[o] < |e.w.pools| && Count(e, |e.ents|, o, claim[o]) >= Count(e, |e.ents|, o, d)) {
      var q: nat :| q < |claim| && claim[q] == d && Count(e, |e.ents|, q, d) >= Count(e, |e.ents|, o, d);
      assert claim'[q] == d;
    }
  }

  /** `fx_ed_claim`: the most votes first, each object and each pool once. */
  method Claim(e: Edit) returns (claim: array<int>)
    requires e.Valid()
    ensures fresh(claim) && ClaimRight(e, claim[..])
  {
    hide Edit.Valid, VotesListed, ClaimSoFar, Ahead, Open, Beaten;
    var v := TakeVotes(e);
    claim := new int[|e.ents|](_ => NONE);
    var taken: set<nat> := {};
    ghost var least := |e.ents|;
    StartClaim(e, claim[..]);
    VoteRanges(e, v);
    ghost var open := Unclaimed(claim[..], |e.ents|);
    while true
      invariant claim.Length == |e.ents| == |e.goal|
      invariant ClaimSoFar(e, claim[..], taken, least) && Ahead(e, claim[..], taken, least)
      invariant open == Unclaimed(claim[..], |e.ents|)
      decreases open
    {
      var best := BestVote(v, claim, taken);
      if best == |v| {
        ClaimEnd(e, v, claim[..], taken, least);
        return;
      }
      ghost var before := claim[..];
      BestIsAhead(e, v, before, taken, least, best);
      ClaimOne(e, before, taken, least, v[best]);
      AheadStep(e, before, taken, least, v[best]);
      OneFewer(before, |e.ents|, v[best].owner, v[best].dir, taken, v[best]);
      claim[v[best].owner] := v[best].dir;
      assert claim[..] == before[v[best].owner := v[best].dir];
      taken := taken + {v[best].dir};
      least := v[best].n;
      open := Unclaimed(claim[..], |e.ents|);
    }
  }

  function Unclaimed(claim: seq<int>, n: nat): nat
    requires n <= |claim|
  {
    if n == 0 then 0 else Unclaimed(claim, n - 1) + (if claim[n - 1] == NONE then 1 else 0)
  }

  lemma {:induction false} UnclaimedFewer(claim: seq<int>, n: nat, o: nat, d: nat)
    requires n <= |claim| && o < |claim| && claim[o] == NONE
    ensures Unclaimed(claim[o := d], n) == Unclaimed(claim, n) - (if o < n then 1 else 0)
  {
    if n > 0 { UnclaimedFewer(claim, n - 1, o, d); }
  }

  lemma OneFewer(claim: seq<int>, n: nat, o: nat, d: nat, taken: set<nat>, x: Vote)
    requires n == |claim| && o < n && x.owner == o && Open(x, claim, taken)
    ensures Unclaimed(claim[o := d], n) < Unclaimed(claim, n)
  {
    UnclaimedFewer(claim, n, o, d);
  }

  lemma StartClaim(e: Edit, claim: seq<int>)
    requires e.Valid() && |claim| == |e.ents| && forall o :: 0 <= o < |claim| ==> claim[o] == NONE
    ensures |e.goal| == |e.ents| && ClaimSoFar(e, claim, {}, |e.ents|) && Ahead(e, claim, {}, |e.ents|)
  {
  }

  lemma VoteRanges(e: Edit, v: seq<Vote>)
    requires e.Valid() && VotesListed(e, |e.ents|, v)
    ensures |e.goal| == |e.ents| && forall k :: 0 <= k < |v| ==> v[k].owner < |e.ents| && v[k].dir < |e.w.pools|
  {
  }

  lemma BestIsAhead(e: Edit, v: seq<Vote>, claim: seq<int>, taken: set<nat>, least: int, best: nat)
    requires |claim| == |e.ents| == |e.goal| && VotesListed(e, |e.ents|, v) && best < |v|
    requires forall k :: 0 <= k < |v| ==> v[k].owner < |claim|
    requires Open(v[best], claim, taken) && forall k :: 0 <= k < |v| && Open(v[k], claim, taken) ==> v[k].n <= v[best].n
    requires Ahead(e, claim, taken, least)
    ensures v[best].owner < |e.goal| && v[best].dir < |e.w.pools| && v[best].n == Count(e, |e.ents|, v[best].owner, v[best].dir) <= least
    ensures forall o: nat, d: nat :: o < |claim| && d < |e.w.pools| && Count(e, |e.ents|, o, d) > 0 && claim[o] == NONE && d !in taken ==>
      Count(e, |e.ents|, o, d) <= v[best].n
  {
    hide Count, Beaten;
    forall o: nat, d: nat | o < |claim| && d < |e.w.pools| && Count(e, |e.ents|, o, d) > 0 && claim[o] == NONE && d !in taken
      ensures Count(e, |e.ents|, o, d) <= v[best].n
    {
      assert Listed(v, o, d);
      var k :| 0 <= k < |v| && v[k].owner == o && v[k].dir == d;
      assert Open(v[k], claim, taken);
    }
  }

  lemma ClaimEnd(e: Edit, v: seq<Vote>, claim: seq<int>, taken: set<nat>, least: int)
    requires |claim| == |e.ents| == |e.goal| && ClaimSoFar(e, claim, taken, least) && Ahead(e, claim, taken, least)
    requires VotesListed(e, |e.ents|, v) && forall k :: 0 <= k < |v| ==> v[k].owner < |claim| && !Open(v[k], claim, taken)
    ensures ClaimRight(e, claim)
  {
    hide Count, Beaten, VotesListed, Open;
    forall o: nat, d: nat | o < |claim| && d < |e.w.pools| && Count(e, |e.ents|, o, d) > 0 ensures Beaten(e, claim, o, d) {
      ClaimDone(e, v, claim, taken, least, o, d);
    }
  }
}
