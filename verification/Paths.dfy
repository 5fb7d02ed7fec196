/** Absolute paths as bytes and as components, and manifest order: `zp_path_cmp` of src/manifest.c
    compares bytes with the slash below every other, and orders paths as a pre-order walk does. */
module Paths {

  type Byte = b: int | 0 <= b < 256
  const SLASH: Byte := 47

  type Leaf = seq<Byte>
  type Path = seq<Leaf>

  predicate Plain(c: Leaf) { c != [] && SLASH !in c }

  ghost predicate Proper(p: Path) { forall c :: c in p ==> Plain(c) }

  /** The bytes of a path; the root is the one path that ends in its slash. */
  function Text(p: Path): (s: seq<Byte>)
    ensures s != [] && s[0] == SLASH
  {
    if p == [] then [SLASH] else Joined(p)
  }

  function Joined(p: Path): (s: seq<Byte>)
    ensures s != [] <==> p != []
    ensures s != [] ==> s[0] == SLASH
  {
    if p == [] then [] else [SLASH] + p[0] + Joined(p[1..])
  }

  // ----- the two orders

  function Rank(b: Byte): int { if b == SLASH then -1 else b }

  /** `zp_path_cmp`, byte by byte. */
  function Compare(a: seq<Byte>, b: seq<Byte>): int {
    if a == [] || b == [] then (if a != [] then 1 else if b != [] then -1 else 0)
    else if Rank(a[0]) != Rank(b[0]) then (if Rank(a[0]) < Rank(b[0]) then -1 else 1)
    else Compare(a[1..], b[1..])
  }

  method PathCmp(a: seq<Byte>, b: seq<Byte>) returns (r: int)
    ensures r == Compare(a, b)
  {
    var n := if |a| < |b| then |a| else |b|;
    for i := 0 to n
      invariant Compare(a, b) == Compare(a[i..], b[i..])
    {
      var x, y := Rank(a[i]), Rank(b[i]);
      if x != y { return if x < y then -1 else 1; }
      assert a[i..][1..] == a[i + 1..] && b[i..][1..] == b[i + 1..];
    }
    r := if |a| != |b| then (if |a| < |b| then -1 else 1) else 0;
  }

  /** Leaf names compare as `zm_kid_cmp` does: as bytes, a prefix first. */
  predicate LeafBefore(a: Leaf, b: Leaf) {
    b != [] && (a == [] || a[0] < b[0] || (a[0] == b[0] && LeafBefore(a[1..], b[1..])))
  }

  /** Manifest order: a directory before what it holds, the children of one directory by leaf. */
  predicate Before(p: Path, q: Path) {
    q != [] && (p == [] || LeafBefore(p[0], q[0]) || (p[0] == q[0] && Before(p[1..], q[1..])))
  }

  predicate AtOrBefore(p: Path, q: Path) { p == q || Before(p, q) }

  /** The directory d holds p, at any depth. */
  predicate Under(d: Path, p: Path) { |d| < |p| && p[..|d|] == d }

  // ----- strict total orders

  lemma {:induction false} LeafIrreflexive(a: Leaf)
    ensures !LeafBefore(a, a)
  {
    if a != [] { LeafIrreflexive(a[1..]); }
  }

  lemma {:induction false} LeafTransitive(a: Leaf, b: Leaf, c: Leaf)
    requires LeafBefore(a, b) && LeafBefore(b, c)
    ensures LeafBefore(a, c)
  {
    if a != [] && a[0] == b[0] == c[0] { LeafTransitive(a[1..], b[1..], c[1..]); }
  }

  lemma {:induction false} LeafTotal(a: Leaf, b: Leaf)
    ensures a == b || LeafBefore(a, b) || LeafBefore(b, a)
  {
    if a != [] && b != [] && a[0] == b[0] {
      LeafTotal(a[1..], b[1..]);
      assert a == [a[0]] + a[1..] && b == [b[0]] + b[1..];
    }
  }

  lemma {:induction false} BeforeIrreflexive(p: Path)
    ensures !Before(p, p)
  {
    if p != [] {
      LeafIrreflexive(p[0]);
      BeforeIrreflexive(p[1..]);
    }
  }

  lemma {:induction false} BeforeTransitive(p: Path, q: Path, r: Path)
    requires Before(p, q) && Before(q, r)
    ensures Before(p, r)
  {
    if p != [] {
      if LeafBefore(p[0], q[0]) && LeafBefore(q[0], r[0]) {
        LeafTransitive(p[0], q[0], r[0]);
      } else if p[0] == q[0] == r[0] {
        if !LeafBefore(p[0], q[0]) && !LeafBefore(q[0], r[0]) { BeforeTransitive(p[1..], q[1..], r[1..]); } else { LeafIrreflexive(p[0]); }
      }
    }
  }

  lemma {:induction false} BeforeTotal(p: Path, q: Path)
    ensures p == q || Before(p, q) || Before(q, p)
  {
    if p != [] && q != [] {
      LeafTotal(p[0], q[0]);
      if p[0] == q[0] {
        BeforeTotal(p[1..], q[1..]);
        assert p == [p[0]] + p[1..] && q == [q[0]] + q[1..];
      }
    }
  }

  lemma BeforeAsymmetric(p: Path, q: Path)
    requires Before(p, q)
    ensures p != q && !Before(q, p)
  {
    BeforeIrreflexive(p);
    if Before(q, p) { BeforeTransitive(p, q, p); }
  }

  // ----- bytes agree with components

  predicate Rest(s: seq<Byte>) { s == [] || s[0] == SLASH }

  lemma {:induction false} CompareLeaves(a: Leaf, b: Leaf, s: seq<Byte>, t: seq<Byte>)
    requires SLASH !in a && SLASH !in b && Rest(s) && Rest(t)
    ensures Compare(a + s, b + t) == if a == b then Compare(s, t) else if LeafBefore(a, b) then -1 else 1
  {
    if a == [] && b == [] {
      assert a + s == s && b + t == t;
    } else if a == [] {
      assert a + s == s && (b + t)[0] == b[0] && b[0] in b;
    } else if b == [] {
      assert b + t == t && (a + s)[0] == a[0] && a[0] in a;
    } else {
      assert a[0] in a && b[0] in b && (a + s)[0] == a[0] && (b + t)[0] == b[0];
      if a[0] == b[0] {
        assert (a + s)[1..] == a[1..] + s && (b + t)[1..] == b[1..] + t;
        CompareLeaves(a[1..], b[1..], s, t);
        assert a == [a[0]] + a[1..] && b == [b[0]] + b[1..];
      }
    }
  }

  lemma CompareSlash(s: seq<Byte>, t: seq<Byte>)
    ensures Compare([SLASH] + s, [SLASH] + t) == Compare(s, t)
  {
    assert ([SLASH] + s)[1..] == s && ([SLASH] + t)[1..] == t;
  }

  lemma {:induction false} CompareJoined(p: Path, q: Path)
    requires Proper(p) && Proper(q)
    ensures Compare(Joined(p), Joined(q)) == if p == q then 0 else if Before(p, q) then -1 else 1
  {
    hide Compare, LeafBefore;
    if p == [] || q == [] {
      CompareEmpty(Joined(p), Joined(q));
    } else {
      assert p[0] in p && q[0] in q;
      var s, t := Joined(p[1..]), Joined(q[1..]);
      CompareSlash(p[0] + s, q[0] + t);
      assert Joined(p) == [SLASH] + (p[0] + s) && Joined(q) == [SLASH] + (q[0] + t);
      CompareLeaves(p[0], q[0], s, t);
      CompareJoined(p[1..], q[1..]);
      assert p == [p[0]] + p[1..] && q == [q[0]] + q[1..];
      LeafIrreflexive(p[0]);
    }
  }

  lemma CompareEmpty(s: seq<Byte>, t: seq<Byte>)
    requires s == [] || t == []
    ensures Compare(s, t) == if s != [] then 1 else if t != [] then -1 else 0
  {
  }

  /** The byte comparison is manifest order. */
  lemma CompareIsOrder(p: Path, q: Path)
    requires Proper(p) && Proper(q)
    ensures Compare(Text(p), Text(q)) == if p == q then 0 else if Before(p, q) then -1 else 1
  {
    CompareJoined(p, q);
    if p == [] && q != [] {
      RootFirst(q);
    } else if p != [] && q == [] {
      RootFirst(p);
    }
  }

  lemma RootFirst(q: Path)
    requires Proper(q) && q != []
    ensures Compare([SLASH], Joined(q)) == -1 && Compare(Joined(q), [SLASH]) == 1
  {
    assert q[0] in q && Joined(q)[1..] == q[0] + Joined(q[1..]);
  }

  /** Different paths have different bytes. */
  lemma TextInjective(p: Path, q: Path)
    requires Proper(p) && Proper(q) && Text(p) == Text(q)
    ensures p == q
  {
    CompareIsOrder(p, q);
    CompareSelf(Text(p));
  }

  lemma {:induction false} CompareSelf(a: seq<Byte>)
    ensures Compare(a, a) == 0
  {
    if a != [] { CompareSelf(a[1..]); }
  }

  // ----- subtrees

  /** `zp_under`, on bytes. */
  predicate UnderText(d: seq<Byte>, p: seq<Byte>)
    requires d != []
  {
    |d| < |p| && p[..|d|] == d && (|d| == 1 || p[|d|] == SLASH)
  }

  /** b goes on from a with a slash. */
  predicate Opens(a: seq<Byte>, b: seq<Byte>) { |a| < |b| && b[..|a|] == a && b[|a|] == SLASH }

  lemma OpensHead(a: seq<Byte>, b: seq<Byte>)
    requires a != []
    ensures Opens(a, b) <==> b != [] && a[0] == b[0] && Opens(a[1..], b[1..])
  {
    if b != [] && a[0] == b[0] {
      assert a == [a[0]] + a[1..] && b == [a[0]] + b[1..];
      if |a| <= |b| { assert b[..|a|] == [b[0]] + b[1..][..|a| - 1]; }
    }
  }

  lemma {:induction false} OpensLeaf(c: Leaf, e: Leaf, s: seq<Byte>, t: seq<Byte>)
    requires SLASH !in c && SLASH !in e && Rest(s) && Rest(t)
    ensures Opens(c + s, e + t) <==> c == e && Opens(s, t)
  {
    if c != [] { OpensHead(c + s, e + t); }
    if c == [] && e == [] {
      assert c + s == s && e + t == t;
    } else if c == [] {
      assert c + s == s && (e + t)[0] == e[0] && e[0] in e;
      if s != [] { OpensHead(s, e + t); }
    } else if e == [] {
      assert e + t == t && (c + s)[0] == c[0] && c[0] in c;
    } else {
      assert (c + s)[0] == c[0] && (e + t)[0] == e[0] && (c + s)[1..] == c[1..] + s && (e + t)[1..] == e[1..] + t;
      OpensLeaf(c[1..], e[1..], s, t);
      assert c == [c[0]] + c[1..] && e == [e[0]] + e[1..];
    }
  }

  lemma UnderHead(d: Path, p: Path)
    requires d != []
    ensures Under(d, p) <==> p != [] && d[0] == p[0] && Under(d[1..], p[1..])
  {
    if p != [] && d[0] == p[0] {
      assert d == [d[0]] + d[1..] && p == [d[0]] + p[1..];
      if |d| <= |p| { assert p[..|d|] == [p[0]] + p[1..][..|d| - 1]; }
    }
  }

  lemma {:induction false} UnderJoined(d: Path, p: Path)
    requires Proper(d) && Proper(p)
    ensures Opens(Joined(d), Joined(p)) <==> Under(d, p)
  {
    if d == [] {
      assert Joined(p)[..0] == [] && p[..0] == [];
    } else {
      UnderHead(d, p);
      if p != [] {
        var s, t := Joined(d[1..]), Joined(p[1..]);
        assert d[0] in d && p[0] in p;
        OpensHead(Joined(d), Joined(p));
        assert Joined(d)[1..] == d[0] + s && Joined(p)[1..] == p[0] + t;
        OpensLeaf(d[0], p[0], s, t);
        UnderJoined(d[1..], p[1..]);
      }
    }
  }

  /** On the bytes of paths, `zp_under` says whether the directory holds the path. */
  lemma UnderIsUnder(d: Path, p: Path)
    requires Proper(d) && Proper(p)
    ensures UnderText(Text(d), Text(p)) <==> Under(d, p)
  {
    UnderJoined(d, p);
    if p != [] { assert p[0] in p; }
    if d == [] {
      assert Text(p)[..1] == [SLASH];
    } else {
      assert d[0] in d && |Joined(d)| >= 2;
    }
  }

  lemma {:induction false} UnderIsAfter(d: Path, p: Path)
    requires Under(d, p)
    ensures Before(d, p)
  {
    if d != [] {
      UnderHead(d, p);
      UnderIsAfter(d[1..], p[1..]);
    }
  }

  /** What comes after a directory and not under it comes after all that is under it. */
  lemma {:induction false} SubtreeTogether(d: Path, p: Path, x: Path)
    requires Under(d, p) && Before(d, x)
    ensures Under(d, x) || Before(p, x)
  {
    if d == [] {
      assert x[..0] == [];
    } else {
      UnderHead(d, p);
      UnderHead(d, x);
      if d[0] == x[0] && Before(d[1..], x[1..]) { SubtreeTogether(d[1..], p[1..], x[1..]); }
    }
  }

  lemma UnderTransitive(d: Path, e: Path, p: Path)
    requires Under(d, e) && Under(e, p)
    ensures Under(d, p)
  {
    assert p[..|d|] == p[..|e|][..|d|] == e[..|d|];
  }

  function Parent(p: Path): Path
    requires p != []
  {
    p[..|p| - 1]
  }

  /** Under the directory of p, or p's own directory. */
  lemma UnderParent(d: Path, p: Path)
    requires p != []
    ensures Under(d, p) <==> d == Parent(p) || Under(d, Parent(p))
  {
    if |d| < |p| { assert p[..|d|] == Parent(p)[..|d|]; }
  }

  /** Two paths of one directory are ordered as their leaves are. */
  lemma {:induction false} SiblingOrder(p: Path, q: Path)
    requires p != [] && q != [] && Parent(p) == Parent(q)
    ensures Before(p, q) <==> LeafBefore(p[|p| - 1], q[|q| - 1])
  {
    assert |p| == |q|;
    if |p| == 1 {
    } else {
      assert p[0] == Parent(p)[0] == Parent(q)[0] == q[0];
      assert Parent(p[1..]) == Parent(p)[1..] == Parent(q)[1..] == Parent(q[1..]);
      SiblingOrder(p[1..], q[1..]);
      LeafIrreflexive(p[0]);
    }
  }
}
