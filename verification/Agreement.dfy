/** The last loop of `pass_yellow` in src/decide.c: every result pool must agree on one content. */
module Agreement {
  import opened Trees
  import opened MergeSpec
  import opened ContentSpec
  import opened Adoption

  /** What one scan of a result pool gathers: the voice of its base names and what each side added. */
  datatype Tally = Tally(v: Cell, first: nat, other: Option<nat>, cf: Cell, co: Cell)

  /** A closed table: base names read their decided cell. */
  ghost predicate ClosedTable(m: Merge, t: Table, closed: seq<Cell>)
    requires m.Valid()
  {
    |t| == m.n && |closed| == m.n && forall x: nat :: x < m.n && m.InBase(x) ==> closed[x] == Closed(t[x])
  }

  predicate Voice(m: Merge, closed: seq<Cell>, y: nat)
    requires |closed| == m.n
  {
    y < m.n && m.InBase(y) && !closed[y].Conflict?
  }

  /** The tally is right about the first i names of the pool. */
  ghost predicate Tallied(m: Merge, closed: seq<Cell>, names: seq<nat>, i: nat, s: Tally)
    requires m.Valid() && |closed| == m.n && i <= |names| && forall y :: y in names ==> y < m.n
  {
    && (s.v.Pending? ==> s.other.None? && forall j :: 0 <= j < i ==> !Voice(m, closed, names[j]))
    && (!s.v.Pending? ==> s.first in names && Voice(m, closed, s.first) && closed[s.first] == s.v)
    && (s.other.None? ==> forall j :: 0 <= j < i && Voice(m, closed, names[j]) ==> closed[names[j]] == s.v)
    && (s.other.Some? ==> s.other.value in names && Voice(m, closed, s.other.value) && closed[s.other.value] != s.v)
    && LastIs(m, From, names, i, s.cf) && LastIs(m, Onto, names, i, s.co)
  }

  /** cell is the content of the last of the first i names that side s added, Pending for none. */
  ghost predicate LastIs(m: Merge, s: Side, names: seq<nat>, i: nat, cell: Cell)
    requires m.Valid() && i <= |names|
  {
    if cell.Pending? then forall j :: 0 <= j < i ==> !Added(m, s, names[j])
    else exists j :: LastAt(m, s, names, i, cell, j)
  }

  ghost predicate LastAt(m: Merge, s: Side, names: seq<nat>, i: nat, cell: Cell, j: int)
    requires m.Valid() && i <= |names|
  {
    && 0 <= j < i && Added(m, s, names[j]) && cell == Is(m.T(s).ContentAt(names[j]))
    && forall k :: j < k < i ==> !Added(m, s, names[k])
  }

  predicate Added(m: Merge, s: Side, x: nat) { !m.InBase(x) && m.On(s, x) }

  lemma LastStep(m: Merge, s: Side, names: seq<nat>, i: nat, cell: Cell)
    requires m.Valid() && i < |names| && LastIs(m, s, names, i, cell)
    ensures LastIs(m, s, names, i + 1, if Added(m, s, names[i]) then Is(m.T(s).ContentAt(names[i])) else cell)
  {
    var now := if Added(m, s, names[i]) then Is(m.T(s).ContentAt(names[i])) else cell;
    if Added(m, s, names[i]) {
      assert LastAt(m, s, names, i + 1, now, i);
    } else if !cell.Pending? {
      var j :| LastAt(m, s, names, i, cell, j);
      assert LastAt(m, s, names, i + 1, now, j);
    }
  }

  /** The scan of one result pool. */
  method Count(m: Merge, closed: array<Cell>, names: seq<nat>) returns (s: Tally)
    requires m.Valid() && closed.Length == m.n && forall y :: y in names ==> y < m.n
    requires forall y: nat :: y < m.n && m.InBase(y) ==> !closed[y].Pending?
    ensures Tallied(m, closed[..], names, |names|, s)
  {
    hide Merge.Valid, LastIs;
    s := Tally(Pending, 0, None, Pending, Pending);
    assert LastIs(m, From, names, 0, Pending) && LastIs(m, Onto, names, 0, Pending) by { NoneYet(m, names); }
    for i := 0 to |names|
      invariant Tallied(m, closed[..], names, i, s)
    {
      var x := names[i];
      assert x in names;
      LastStep(m, From, names, i, s.cf);
      LastStep(m, Onto, names, i, s.co);
      if m.InBase(x) {
        var r := closed[x];
        if !r.Conflict? {
          if s.v.Pending? {
            s := s.(v := r, first := x);
          } else if r != s.v && s.other.None? {
            s := s.(other := Some(x));
          }
        }
      } else {
        if m.On(From, x) { s := s.(cf := Is(ContentOn(m, From, x))); }
        if m.On(Onto, x) { s := s.(co := Is(ContentOn(m, Onto, x))); }
      }
    }
  }

  /** `content_in` for a name the side holds. */
  function ContentOn(m: Merge, s: Side, x: nat): (c: Content)
    requires m.Valid() && m.On(s, x)
    ensures c == m.T(s).ContentAt(x)
  {
    m.T(s).ContentAt(x)
  }

  lemma NoneYet(m: Merge, names: seq<nat>)
    requires m.Valid()
    ensures LastIs(m, From, names, 0, Pending) && LastIs(m, Onto, names, 0, Pending)
  {
  }

  // ----- what the tally means

  /** names are the result pool of a, ascending. */
  ghost predicate PoolOf(m: Merge, a: nat, names: seq<nat>)
    requires m.Valid() && a < m.n
  {
    Ascending(names) && forall y: nat :: y in names <==> InPoolOf(m, a, y)
  }

  predicate Disagrees(s: Tally) {
    s.other.Some? || (s.v.Pending? && !s.cf.Pending? && !s.co.Pending? && s.cf != s.co)
  }

  function Verdict(s: Tally): Cell {
    if !s.v.Pending? then s.v else if !s.cf.Pending? then s.cf else s.co
  }

  lemma LastIsLastAdded(m: Merge, s: Side, a: nat, names: seq<nat>, cell: Cell)
    requires m.Valid() && a < m.n && PoolOf(m, a, names) && LastIs(m, s, names, |names|, cell)
    ensures cell.Pending? <==> forall z: nat :: !LastAdded(m, s, a, z)
    ensures !cell.Pending? ==> forall z: nat :: LastAdded(m, s, a, z) ==> cell == Is(m.T(s).ContentAt(z))
  {
    if !cell.Pending? {
      var j :| LastAt(m, s, names, |names|, cell, j);
      assert names[j] in names;
      forall w: nat | InPoolOf(m, a, w) && !m.InBase(w) && m.On(s, w) ensures w <= names[j] {
        var k :| 0 <= k < |names| && names[k] == w;
        assert Added(m, s, names[k]);
      }
      assert LastAdded(m, s, a, names[j]);
    } else {
      forall z: nat ensures !LastAdded(m, s, a, z) {
        if z in names { var j :| 0 <= j < |names| && names[j] == z; }
      }
    }
  }

  lemma TallySilent(m: Merge, t: Table, closed: seq<Cell>, a: nat, names: seq<nat>, s: Tally)
    requires m.Valid() && ClosedTable(m, t, closed) && a < m.n && PoolOf(m, a, names)
    requires Tallied(m, closed, names, |names|, s)
    ensures s.v.Pending? <==> Silent(m, t, a)
    ensures s.other.Some? <==> exists y: nat, z: nat :: VoicesClash(m, t, a, y, z)
    ensures !s.v.Pending? ==> Speaks(m, t, a, s.first) && Closed(t[s.first]) == s.v
    ensures s.other.None? ==> forall y: nat :: Speaks(m, t, a, y) ==> Closed(t[y]) == s.v
  {
    forall y: nat ensures Speaks(m, t, a, y) <==> y in names && Voice(m, closed, y) {}
    forall y: nat | y in names ensures exists j :: 0 <= j < |names| && names[j] == y {}
    if s.other.Some? { assert VoicesClash(m, t, a, s.first, s.other.value); }
  }

  lemma TallyDisagrees(m: Merge, t: Table, closed: seq<Cell>, a: nat, names: seq<nat>, s: Tally)
    requires m.Valid() && ClosedTable(m, t, closed) && a < m.n && m.Survives(a) && PoolOf(m, a, names)
    requires Tallied(m, closed, names, |names|, s)
    ensures Disagrees(s) <==> DisagreeAt(m, t, a)
  {
    hide Merge.Valid, Tallied, PoolOf, LastAdded, VoicesClash;
    TallySilent(m, t, closed, a, names, s);
    TallyLast(m, closed, a, names, s);
    LastIsLastAdded(m, From, a, names, s.cf);
    LastIsLastAdded(m, Onto, a, names, s.co);
    if s.v.Pending? && !s.cf.Pending? && !s.co.Pending? && s.cf != s.co {
      var z: nat :| LastAdded(m, From, a, z);
      var w: nat :| LastAdded(m, Onto, a, w);
      assert AddedClash(m, a, z, w);
    }
    if z: nat, w: nat :| AddedClash(m, a, z, w) {
      assert LastAdded(m, From, a, z) && LastAdded(m, Onto, a, w);
    }
  }

  lemma TallyLast(m: Merge, closed: seq<Cell>, a: nat, names: seq<nat>, s: Tally)
    requires m.Valid() && a < m.n && |closed| == m.n && PoolOf(m, a, names) && Tallied(m, closed, names, |names|, s)
    ensures LastIs(m, From, names, |names|, s.cf) && LastIs(m, Onto, names, |names|, s.co)
  {
  }

  /** A result pool with an addition of a side has a last one. */
  lemma SomeLast(m: Merge, a: nat, names: seq<nat>, s: Tally, closed: seq<Cell>)
    requires m.Valid() && a < m.n && |closed| == m.n && m.Survives(a) && !m.InBase(a) && PoolOf(m, a, names)
    requires Tallied(m, closed, names, |names|, s)
    ensures !s.cf.Pending? || !s.co.Pending?
  {
    assert InPoolOf(m, a, a) && a in names;
    var j :| 0 <= j < |names| && names[j] == a;
    assert Added(m, From, names[j]) || Added(m, Onto, names[j]);
  }

  /** Where nothing is flagged, the verdict is the content the pool holds. */
  lemma VerdictHolds(m: Merge, t: Table, closed: seq<Cell>, a: nat, names: seq<nat>, s: Tally)
    requires m.Valid() && ClosedTable(m, t, closed) && NoneGone(m, t) && a < m.n && m.Survives(a) && PoolOf(m, a, names)
    requires Tallied(m, closed, names, |names|, s) && !Disagrees(s)
    requires forall y :: y in names ==> !ChangedBothAt(m, t, y)
    ensures Verdict(s).Is? && forall c :: Holds(m, t, a, c) <==> Verdict(s) == Is(c)
  {
    hide Merge.Valid, Tallied, LastAdded;
    assert InPoolOf(m, a, a) && a in names by { InOwnPool(m, a); }
    TallySilent(m, t, closed, a, names, s);
    TallyLast(m, closed, a, names, s);
    LastIsLastAdded(m, From, a, names, s.cf);
    LastIsLastAdded(m, Onto, a, names, s.co);
    if !s.v.Pending? {
      assert !t[s.first].Gone? && t[s.first] == s.v;
      assert forall y: nat :: Speaks(m, t, a, y) ==> t[y] == s.v;
    } else {
      assert !m.InBase(a) by { assert !Speaks(m, t, a, a); }
      SomeLast(m, a, names, s, closed);
    }
  }

  lemma InOwnPool(m: Merge, a: nat)
    requires m.Valid() && a < m.n && m.Survives(a)
    ensures InPoolOf(m, a, a)
  {
  }
}
