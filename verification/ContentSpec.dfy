/** The content half of the decision, `pass_yellow` of src/decide.c: what every base name's
    content becomes, and which content a result pool ends with. */
module ContentSpec {
  import opened Trees
  import opened MergeSpec

  /** One side's, or the merged, opinion of one base name.  `Clash` is the literal with no content
      that the code leaves where it flagged the name at once. */
  datatype Value =
    | Same
    | Dead
    | Lit(content: Content)
    | Ref(side: Side, pool: nat, kept: Content)
    | Pair(left: Value, right: Value)
    | Clash

  /** A slot of the `concrete` table. */
  datatype Cell = Pending | Conflict | Gone | Is(content: Content)

  type Table = seq<Cell>

  /** Names of pool q on side s that base already held with the content c: what a permissive
      change of content is a reference to. */
  predicate Kept(m: Merge, x: nat, c: Content)
    requires m.Valid()
  {
    m.InBase(x) && m.base.ContentAt(x) == c
  }

  ghost function SideValue(m: Merge, s: Side, x: nat): (v: Value)
    requires m.Valid() && m.InBase(x)
    ensures !v.Pair? && !v.Clash? && RefsValid(m, v)
    ensures v.Ref? ==> v.side == s && m.On(s, x) && v.pool == m.At(s, x)
    ensures v.Ref? ==> exists y :: y in m.T(s).pools[v.pool].names && Kept(m, y, v.kept)
  {
    if !m.On(s, x) then Dead else
    var c := m.T(s).ContentAt(x);
    var q := m.At(s, x);
    if c == m.base.ContentAt(x) then Same
    else if !m.strict && exists y :: y in m.T(s).pools[q].names && Kept(m, y, c) then Ref(s, q, c)
    else Lit(c)
  }

  /** The three-way of one base name. */
  function Combine(before: Content, f: Value, o: Value): Value {
    if f.Same? && o.Same? then Lit(before)
    else if f.Same? then o
    else if o.Same? then f
    else if f == o then f
    else if (f.Lit? && o.Lit?) || f.Dead? || o.Dead? then Clash
    else Pair(f, o)
  }

  ghost function Merged(m: Merge, x: nat): (v: Value)
    requires m.Valid() && m.InBase(x)
    ensures RefsValid(m, v)
  {
    Combine(m.base.ContentAt(x), SideValue(m, From, x), SideValue(m, Onto, x))
  }

  /** The walk over the kept names of a reference, in pool order; `seen` is the answer so far. */
  function Follow(m: Merge, names: seq<nat>, c: Content, t: Table, seen: Cell): Cell
    requires m.Valid() && |t| == m.n
  {
    if names == [] then (if seen.Pending? then Is(c) else seen) else
    var y := names[0];
    if !Kept(m, y, c) || !m.Survives(y) then Follow(m, names[1..], c, t, seen)
    else if t[y].Pending? then Pending
    else if t[y].Conflict? then Conflict
    else if seen.Pending? then Follow(m, names[1..], c, t, t[y])
    else if t[y] != seen then Conflict
    else Follow(m, names[1..], c, t, seen)
  }

  ghost predicate RefsValid(m: Merge, v: Value) {
    match v
    case Ref(s, q, c) => q < |m.T(s).pools|
    case Pair(a, b) => RefsValid(m, a) && RefsValid(m, b)
    case _ => true
  }

  /** `resolve`: the value against the table, Pending when it cannot be told yet. */
  function Resolve(m: Merge, v: Value, t: Table): Cell
    requires m.Valid() && |t| == m.n && RefsValid(m, v)
    decreases v
  {
    match v
    case Same => Conflict
    case Dead => Gone
    case Lit(c) => Is(c)
    case Ref(s, q, c) => Follow(m, m.T(s).pools[q].names, c, t, Pending)
    case Pair(a, b) =>
      var ra, rb := Resolve(m, a, t), Resolve(m, b, t);
      if ra.Pending? || rb.Pending? then Pending else if ra == rb then ra else Conflict
    case Clash => Conflict
  }

  /** What the table asks for at x: the operator whose least fixed point adoption computes. */
  ghost function Asked(m: Merge, t: Table, x: nat): Cell
    requires m.Valid() && |t| == m.n && x < m.n
  {
    if m.InBase(x) then Resolve(m, Merged(m, x), t) else Pending
  }

  ghost predicate Below(t: Table, u: Table) {
    |t| == |u| && forall x :: 0 <= x < |t| ==> t[x].Pending? || t[x] == u[x]
  }

  ghost predicate FixedPoint(m: Merge, t: Table)
    requires m.Valid()
  {
    |t| == m.n && forall x :: 0 <= x < m.n ==> t[x] == Asked(m, t, x)
  }

  /** The adoption table: the least fixed point in the order where Pending is below everything. */
  ghost predicate Adopted(m: Merge, t: Table)
    requires m.Valid()
  {
    FixedPoint(m, t) && forall u :: FixedPoint(m, u) ==> Below(t, u)
  }

  /** A name still pending at the end waits in a cycle and is a conflict. */
  function Closed(c: Cell): Cell { if c.Pending? then Conflict else c }

  // ----- what a result pool ends with, given the adoption table

  ghost predicate InPoolOf(m: Merge, a: nat, y: nat)
    requires m.Valid() && a < m.n
  {
    y < m.n && m.Survives(y) && m.SameResult(a, y)
  }

  /** A base name of a's result pool whose content was decided. */
  ghost predicate Speaks(m: Merge, t: Table, a: nat, y: nat)
    requires m.Valid() && |t| == m.n && a < m.n
  {
    InPoolOf(m, a, y) && m.InBase(y) && !Closed(t[y]).Conflict?
  }

  /** The last name of a's result pool that side s added. */
  ghost predicate LastAdded(m: Merge, s: Side, a: nat, z: nat)
    requires m.Valid() && a < m.n
  {
    && InPoolOf(m, a, z) && !m.InBase(z) && m.On(s, z)
    && forall w: nat :: InPoolOf(m, a, w) && !m.InBase(w) && m.On(s, w) ==> w <= z
  }

  ghost predicate Silent(m: Merge, t: Table, a: nat)
    requires m.Valid() && |t| == m.n && a < m.n
  {
    forall y: nat :: !Speaks(m, t, a, y)
  }

  ghost predicate AddedClash(m: Merge, a: nat, z: nat, w: nat)
    requires m.Valid() && a < m.n
  {
    LastAdded(m, From, a, z) && LastAdded(m, Onto, a, w) && m.from.ContentAt(z) != m.onto.ContentAt(w)
  }

  ghost predicate VoicesClash(m: Merge, t: Table, a: nat, y: nat, z: nat)
    requires m.Valid() && |t| == m.n && a < m.n
  {
    Speaks(m, t, a, y) && Speaks(m, t, a, z) && Closed(t[y]) != Closed(t[z])
  }

  ghost predicate DisagreeAt(m: Merge, t: Table, a: nat)
    requires m.Valid() && |t| == m.n
  {
    && a < m.n && m.Survives(a)
    && (|| (exists y: nat, z: nat :: VoicesClash(m, t, a, y, z))
        || (Silent(m, t, a) && exists z: nat, w: nat :: AddedClash(m, a, z, w)))
  }

  ghost predicate ChangedBothAt(m: Merge, t: Table, x: nat)
    requires m.Valid() && |t| == m.n
  {
    x < m.n && m.InBase(x) && Closed(t[x]).Conflict?
  }

  /** c is the content a's result pool ends with when its group is clean. */
  ghost predicate Holds(m: Merge, t: Table, a: nat, c: Content)
    requires m.Valid() && |t| == m.n && a < m.n
  {
    if !Silent(m, t, a) then exists y: nat :: Speaks(m, t, a, y) && t[y] == Is(c)
    else if exists z: nat :: LastAdded(m, From, a, z)
    then exists z: nat :: LastAdded(m, From, a, z) && m.from.ContentAt(z) == c
    else exists z: nat :: LastAdded(m, Onto, a, z) && m.onto.ContentAt(z) == c
  }

  // ----- the conflict classes, and which groups carry them

  datatype Class = HealedSplit | OrphanedAdd | ContestedHome | Unexpressed | ChangedBoth | Disagree

  ghost predicate Event(m: Merge, t: Table, f: Class, x: nat)
    requires m.Valid() && |t| == m.n
  {
    && x < m.n
    && match f
       case HealedSplit => m.HealedAt(x)
       case OrphanedAdd => m.OrphanedAt(x)
       case ContestedHome => m.ContestedAt(x)
       case Unexpressed => m.UnexpressedAt(x)
       case ChangedBoth => ChangedBothAt(m, t, x)
       case Disagree => DisagreeAt(m, t, x)
  }

  ghost predicate EventIn(m: Merge, t: Table, f: Class, x: nat, u: nat)
    requires m.Valid() && |t| == m.n && u < m.NodeCount()
  {
    Event(m, t, f, x) && (m.On(From, x) || m.On(Onto, x)) && m.SameGroup(m.NodeOf(x), u)
  }

  /** The group of side pool u carries the class f. */
  ghost predicate Flagged(m: Merge, t: Table, f: Class, u: nat)
    requires m.Valid() && |t| == m.n && u < m.NodeCount()
  {
    exists x: nat :: EventIn(m, t, f, x, u)
  }

  ghost predicate Clean(m: Merge, t: Table, u: nat)
    requires m.Valid() && |t| == m.n && u < m.NodeCount()
  {
    forall f :: !Flagged(m, t, f, u)
  }
}
