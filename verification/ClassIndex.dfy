/** The counting sort inside `pass_unexpressed` of src/decide.c: the settled base names, indexed by
    result class in ascending name order.

    `keys` gives each name the class it is indexed under, or -1 for a name that is not indexed. */
module ClassIndex {
  import opened Trees

  /** The names of class k among the first n, ascending. */
  function NamesIn(keys: seq<int>, k: int, n: nat): (r: seq<nat>)
    requires n <= |keys|
    ensures |r| <= n
    ensures forall x: nat :: x in r <==> x < n && keys[x] == k
  {
    if n == 0 then []
    else NamesIn(keys, k, n - 1) + (if keys[n - 1] == k then [n - 1] else [])
  }

  lemma {:induction false} NamesAscend(keys: seq<int>, k: int, n: nat)
    requires n <= |keys|
    ensures Ascending(NamesIn(keys, k, n))
  {
    if n > 0 {
      NamesAscend(keys, k, n - 1);
      var before := NamesIn(keys, k, n - 1);
      forall i | 0 <= i < |before| ensures before[i] < n - 1 { assert before[i] in before; }
    }
  }

  lemma {:induction false} NamesGrow(keys: seq<int>, k: int, i: nat, n: nat)
    requires i <= n <= |keys|
    ensures |NamesIn(keys, k, i)| <= |NamesIn(keys, k, n)|
    decreases n
  {
    if i < n { NamesGrow(keys, k, i, n - 1); }
  }

  /** Where class k starts when the classes of the first n names stand one after another. */
  function Start(keys: seq<int>, k: nat, n: nat): nat
    requires n <= |keys|
  {
    if k == 0 then 0 else Start(keys, k - 1, n) + |NamesIn(keys, k - 1, n)|
  }

  lemma {:induction false} StartMonotone(keys: seq<int>, j: nat, k: nat, n: nat)
    requires n <= |keys| && j <= k
    ensures Start(keys, j, n) <= Start(keys, k, n)
    ensures j < k ==> Start(keys, j + 1, n) <= Start(keys, k, n)
    decreases k
  {
    if j < k { StartMonotone(keys, j, k - 1, n); }
  }

  lemma NamesStep(keys: seq<int>, k: int, n: nat)
    requires n < |keys|
    ensures |NamesIn(keys, k, n + 1)| == |NamesIn(keys, k, n)| + (if keys[n] == k then 1 else 0)
  {
  }

  /** One more name lengthens one class at most. */
  lemma {:induction false} StartGrows(keys: seq<int>, k: nat, n: nat)
    requires n < |keys|
    ensures Start(keys, k, n + 1) == Start(keys, k, n) + (if 0 <= keys[n] < k then 1 else 0)
    decreases k
  {
    hide NamesIn;
    if k > 0 {
      StartGrows(keys, k - 1, n);
      NamesStep(keys, k - 1, n);
    }
  }

  lemma {:induction false} StartBounded(keys: seq<int>, k: nat, n: nat)
    requires n <= |keys|
    ensures Start(keys, k, n) <= n
    decreases n, k
  {
    hide NamesIn;
    if n > 0 {
      StartBounded(keys, k, n - 1);
      StartGrows(keys, k, n - 1);
    } else if k > 0 {
      StartBounded(keys, k - 1, 0);
    }
  }

  /** Counting: `off[klass]++` over the indexed names. */
  method Count(keys: seq<int>, nclass: nat) returns (off: array<nat>)
    requires forall x :: 0 <= x < |keys| ==> -1 <= keys[x] < nclass
    ensures fresh(off) && off.Length == nclass + 1
    ensures forall k :: 0 <= k <= nclass ==> off[k] == |NamesIn(keys, k, |keys|)|
  {
    off := new nat[nclass + 1](_ => 0);
    for x: nat := 0 to |keys|
      invariant forall k :: 0 <= k <= nclass ==> off[k] == |NamesIn(keys, k, x)|
    {
      if keys[x] != -1 { off[keys[x]] := off[keys[x]] + 1; }
    }
  }

  function SumTo(counts: seq<nat>, k: nat): nat
    requires k <= |counts|
  {
    if k == 0 then 0 else SumTo(counts, k - 1) + counts[k - 1]
  }

  lemma {:induction false} SumIsStart(keys: seq<int>, counts: seq<nat>, k: nat)
    requires k <= |counts| && forall j :: 0 <= j < |counts| ==> counts[j] == |NamesIn(keys, j, |keys|)|
    ensures SumTo(counts, k) == Start(keys, k, |keys|)
  {
    hide NamesIn;
    if k > 0 { SumIsStart(keys, counts, k - 1); }
  }

  /** The prefix sum, each offset replaced by the sum of those before it. */
  method PrefixSum(off: array<nat>)
    modifies off
    ensures forall k: nat :: k < off.Length ==> off[k] == SumTo(old(off[..]), k)
  {
    ghost var counts := off[..];
    var total: nat := 0;
    for k: nat := 0 to off.Length
      invariant total == SumTo(counts, k)
      invariant forall j: nat :: j < k ==> off[j] == SumTo(counts, j)
      invariant forall j :: k <= j < off.Length ==> off[j] == counts[j]
    {
      var cnt := off[k];
      off[k] := total;
      total := total + cnt;
    }
  }

  /** The segment of class j holds its names below x so far. */
  ghost predicate Segment(keys: seq<int>, memb: seq<nat>, j: nat, x: nat)
    requires x <= |keys|
  {
    var start, names := Start(keys, j, |keys|), NamesIn(keys, j, x);
    start + |names| <= |memb| && memb[start..start + |names|] == names
  }

  ghost predicate Segments(keys: seq<int>, memb: seq<nat>, nclass: nat, x: nat)
    requires x <= |keys|
  {
    forall j: nat :: j < nclass ==> Segment(keys, memb, j, x)
  }

  /** Where the next name of class k goes. */
  ghost function Slot(keys: seq<int>, k: nat, x: nat): nat
    requires x <= |keys|
  {
    Start(keys, k, |keys|) + |NamesIn(keys, k, x)|
  }

  lemma SlotInside(keys: seq<int>, nclass: nat, x: nat)
    requires x < |keys| && 0 <= keys[x] < nclass
    ensures Slot(keys, keys[x], x) < Start(keys, keys[x] + 1, |keys|) <= |keys|
  {
    var k := keys[x];
    NamesGrow(keys, k, x + 1, |keys|);
    StartBounded(keys, k + 1, |keys|);
  }

  /** Writing the next name of a class leaves the segment of class j right. */
  lemma FillOne(keys: seq<int>, memb: seq<nat>, nclass: nat, x: nat, j: nat)
    requires x < |keys| == |memb| && 0 <= keys[x] < nclass && j < nclass && Segment(keys, memb, j, x)
    requires Slot(keys, keys[x], x) < |memb|
    ensures Segment(keys, memb[Slot(keys, keys[x], x) := x], j, x + 1)
  {
    var k := keys[x];
    var i := Slot(keys, k, x);
    var memb' := memb[i := x];
    var start, names := Start(keys, j, |keys|), NamesIn(keys, j, x);
    SlotInside(keys, nclass, x);
    if j == k {
      assert memb'[start..start + |names| + 1] == memb[start..start + |names|] + [x];
    } else {
      NamesGrow(keys, j, x, |keys|);
      if j < k { StartMonotone(keys, j, k, |keys|); } else { StartMonotone(keys, k, j, |keys|); }
      assert memb'[start..start + |names|] == memb[start..start + |names|];
      assert NamesIn(keys, j, x + 1) == names;
    }
  }

  lemma FillAll(keys: seq<int>, memb: seq<nat>, nclass: nat, x: nat)
    requires x < |keys| == |memb| && 0 <= keys[x] < nclass && Segments(keys, memb, nclass, x)
    requires Slot(keys, keys[x], x) < |memb|
    ensures Segments(keys, memb[Slot(keys, keys[x], x) := x], nclass, x + 1)
  {
    hide Start, NamesIn, Segment;
    var memb', x' := memb[Slot(keys, keys[x], x) := x], x + 1;
    forall j: nat | j < nclass ensures Segment(keys, memb', j, x') { FillOne(keys, memb, nclass, x, j); }
  }

  lemma SkipOne(keys: seq<int>, memb: seq<nat>, nclass: nat, x: nat)
    requires x < |keys| && keys[x] == -1 && Segments(keys, memb, nclass, x)
    ensures Segments(keys, memb, nclass, x + 1)
  {
    hide Start;
    var x' := x + 1;
    forall j: nat | j < nclass ensures Segment(keys, memb, j, x') {
      assert Segment(keys, memb, j, x) && NamesIn(keys, j, x') == NamesIn(keys, j, x);
    }
  }

  lemma SlotGrows(keys: seq<int>, k: nat, x: nat)
    requires x < |keys|
    ensures Slot(keys, k, x + 1) == Slot(keys, k, x) + (if keys[x] == k then 1 else 0)
  {
  }

  /** One step of the fill: the name goes to its class's slot, and the slot moves on. */
  method FillStep(keys: seq<int>, nclass: nat, off: array<nat>, memb: array<nat>, x: nat)
    requires off != memb && off.Length == nclass + 1 && memb.Length == |keys| && x < |keys| && 0 <= keys[x] < nclass
    requires forall k: nat :: k < nclass ==> off[k] == Slot(keys, k, x)
    requires Segments(keys, memb[..], nclass, x)
    modifies off, memb
    ensures forall k: nat :: k < nclass ==> off[k] == Slot(keys, k, x + 1)
    ensures Segments(keys, memb[..], nclass, x + 1)
  {
    SlotInside(keys, nclass, x);
    FillAll(keys, memb[..], nclass, x);
    ghost var before := memb[..];
    memb[off[keys[x]]] := x;
    off[keys[x]] := off[keys[x]] + 1;
    assert memb[..] == before[Slot(keys, keys[x], x) := x];
    forall k: nat | k < nclass ensures off[k] == Slot(keys, k, x + 1) { SlotGrows(keys, k, x); }
  }

  /** Filling in ascending name order; every offset ends at its class's end. */
  method Fill(keys: seq<int>, nclass: nat, off: array<nat>) returns (memb: array<nat>)
    requires forall x :: 0 <= x < |keys| ==> -1 <= keys[x] < nclass
    requires off.Length == nclass + 1
    requires forall k: nat :: k <= nclass ==> off[k] == Start(keys, k, |keys|)
    modifies off
    ensures fresh(memb) && memb.Length == |keys| && Segments(keys, memb[..], nclass, |keys|)
    ensures forall k: nat :: k < nclass ==> off[k] == Slot(keys, k, |keys|)
  {
    hide Start, NamesIn;
    memb := new nat[|keys|](_ => 0);
    forall k: nat | k <= nclass ensures Start(keys, k, |keys|) <= |keys| { StartBounded(keys, k, |keys|); }
    for x: nat := 0 to |keys|
      invariant forall k: nat :: k < nclass ==> off[k] == Slot(keys, k, x)
      invariant Segments(keys, memb[..], nclass, x)
    {
      if keys[x] != -1 {
        FillStep(keys, nclass, off, memb, x);
      } else {
        SkipOne(keys, memb[..], nclass, x);
        forall k: nat | k < nclass ensures off[k] == Slot(keys, k, x + 1) { SlotGrows(keys, k, x); }
      }
    }
  }

  /** Class k is memb[off[k] .. off[k + 1]): its names, ascending. */
  ghost predicate Found(keys: seq<int>, off: seq<nat>, memb: seq<nat>, k: nat)
    requires k + 1 < |off|
  {
    off[k] <= off[k + 1] <= |memb| && memb[off[k]..off[k + 1]] == NamesIn(keys, k, |keys|)
  }

  /** The offsets, at their classes' ends after the fill, moved back to their starts. */
  method ShiftBack(keys: seq<int>, nclass: nat, off: array<nat>)
    requires off.Length == nclass + 1 && forall k: nat :: k < nclass ==> off[k] == Slot(keys, k, |keys|)
    modifies off
    ensures forall k: nat :: k <= nclass ==> off[k] == Start(keys, k, |keys|)
  {
    hide NamesIn;
    ghost var ends := off[..];
    var k: nat := nclass;
    while k > 0
      invariant k <= nclass
      invariant forall j: nat :: k < j <= nclass ==> off[j] == ends[j - 1]
      invariant forall j: nat :: j < k ==> off[j] == ends[j]
    {
      off[k] := off[k - 1];
      k := k - 1;
    }
    off[0] := 0;
    forall j: nat | 0 < j <= nclass ensures off[j] == Start(keys, j, |keys|) {
      assert ends[j - 1] == Slot(keys, j - 1, |keys|);
    }
  }

  method Build(keys: seq<int>, nclass: nat) returns (off: array<nat>, memb: array<nat>)
    requires forall x :: 0 <= x < |keys| ==> -1 <= keys[x] < nclass
    ensures fresh(off) && fresh(memb) && off.Length == nclass + 1
    ensures forall k: nat :: k < nclass ==> Found(keys, off[..], memb[..], k)
  {
    off := Count(keys, nclass);
    ghost var counts := off[..];
    PrefixSum(off);
    forall k: nat | k <= nclass ensures off[k] == Start(keys, k, |keys|) { SumIsStart(keys, counts, k); }
    memb := Fill(keys, nclass, off);
    ShiftBack(keys, nclass, off);
    forall j: nat | j < nclass ensures Found(keys, off[..], memb[..], j) {
      SegmentFound(keys, off[..], memb[..], nclass, j);
    }
  }

  lemma SegmentFound(keys: seq<int>, off: seq<nat>, memb: seq<nat>, nclass: nat, j: nat)
    requires |off| == nclass + 1 && j < nclass && Segments(keys, memb, nclass, |keys|)
    requires forall k: nat :: k <= nclass ==> off[k] == Start(keys, k, |keys|)
    ensures Found(keys, off, memb, j)
  {
    hide NamesIn;
    assert Segment(keys, memb, j, |keys|);
    assert Start(keys, j + 1, |keys|) == Start(keys, j, |keys|) + |NamesIn(keys, j, |keys|)|;
  }
}
