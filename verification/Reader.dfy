/** The parser of src/manifest.c as it runs: a stack of scopes, the last closed one, the names seen
    and a growing list of actions, updated line by line. */
module Reader {
  import opened Trees
  import opened Paths
  import opened Sorting
  import opened Document

  /** A name seen, with the line that told of it. */
  datatype Key = Key(path: Path, line: nat, second: bool)

  /** `zp_seen_cmp`: by path, and the earlier line first. */
  predicate KeyLe(x: Key, y: Key) {
    Before(x.path, y.path) || (x.path == y.path && (x.line < y.line || (x.line == y.line && (x.second ==> y.second))))
  }

  lemma KeyOrder()
    ensures TotalOrder(KeyLe)
  {
    forall x: Key, y: Key ensures KeyLe(x, y) || KeyLe(y, x) { BeforeTotal(x.path, y.path); }
    forall x: Key, y: Key, z: Key | KeyLe(x, y) && KeyLe(y, z) ensures KeyLe(x, z) {
      if Before(x.path, y.path) && Before(y.path, z.path) { BeforeTransitive(x.path, y.path, z.path); }
    }
  }

  ghost predicate KeysOf(seen: seq<Seen>, keys: seq<Key>) {
    forall k :: k in keys <==> k.line < |seen| && k == Key(seen[k.line].path, k.line, seen[k.line].second)
  }

  /** Two neighbours of one path, the later not the second of a type change. */
  predicate BadAt(keys: seq<Key>, i: nat)
    requires 0 < i < |keys|
  {
    !keys[i].second && keys[i - 1].path == keys[i].path
  }

  /** Line b tells a name again, and is not the second of a type change. */
  ghost predicate RepeatAt(seen: seq<Seen>, b: nat) {
    b < |seen| && !seen[b].second && exists a :: 0 <= a < b && seen[a].path == seen[b].path
  }

  /** The neighbours before i show their lines to repeat, `bad` the earliest of them. */
  ghost predicate EarliestOf(s: seq<Key>, i: nat, bad: Option<nat>)
    requires i <= |s|
  {
    && (forall j: nat :: 0 < j < i && BadAt(s, j) ==> bad.Some? && bad.value <= s[j].line)
    && (bad.Some? ==> exists j: nat :: 0 < j < i && BadAt(s, j) && s[j].line == bad.value)
  }

  lemma NeighbourRepeats(seen: seq<Seen>, keys: seq<Key>, i: nat)
    requires KeysOf(seen, keys) && SortedBy(KeyLe, keys) && Distinct(keys) && 0 < i < |keys| && BadAt(keys, i)
    ensures RepeatAt(seen, keys[i].line)
  {
    var x, y := keys[i - 1], keys[i];
    assert x in keys && y in keys && KeyLe(x, y) && x != y;
    BeforeIrreflexive(x.path);
    assert x.line < y.line && seen[x.line].path == seen[y.line].path && !seen[y.line].second;
  }

  /** Of two names that repeat, the later's neighbour in the sorted order has its path too. */
  lemma RepeatHasNeighbour(seen: seq<Seen>, keys: seq<Key>, b: nat)
    requires KeysOf(seen, keys) && SortedBy(KeyLe, keys) && RepeatAt(seen, b)
    ensures exists i: nat :: 0 < i < |keys| && BadAt(keys, i) && keys[i].line == b
  {
    var a :| 0 <= a < b && seen[a].path == seen[b].path;
    var x, y := Key(seen[a].path, a, seen[a].second), Key(seen[b].path, b, false);
    assert x in keys && y in keys;
    var i: nat :| i < |keys| && keys[i] == x;
    var j: nat :| j < |keys| && keys[j] == y;
    BeforeIrreflexive(x.path);
    if j < i { KeysAscend(keys, j, i); }
    Between(keys, i, j);
    assert BadAt(keys, j);
  }

  lemma KeysAscend(keys: seq<Key>, i: nat, j: nat)
    requires SortedBy(KeyLe, keys) && i < j < |keys|
    ensures KeyLe(keys[i], keys[j])
  {
  }

  lemma Between(keys: seq<Key>, i: nat, j: nat)
    requires SortedBy(KeyLe, keys) && i < j < |keys| && keys[i].path == keys[j].path
    ensures keys[j - 1].path == keys[j].path
  {
    if i < j - 1 {
      assert KeyLe(keys[i], keys[j - 1]) && KeyLe(keys[j - 1], keys[j]);
      if Before(keys[i].path, keys[j - 1].path) { BeforeAsymmetric(keys[i].path, keys[j - 1].path); }
    }
  }

  /** `zp_repeats`: sort, then look at neighbours; it finds what comparing all pairs would, and
      blames the earliest line that repeats a name. */
  method FindRepeats(seen: seq<Seen>) returns (bad: Option<nat>)
    ensures bad.None? <==> !Repeats(seen)
    ensures bad.Some? ==> RepeatAt(seen, bad.value) && forall b: nat :: b < bad.value ==> !RepeatAt(seen, b)
  {
    hide KeyLe, SortedBy, Repeats, RepeatAt, EarliestOf, Distinct;
    if |seen| < 2 {
      FewNames(seen);
      return None;
    }
    var keys := AllKeys(seen);
    KeyOrder();
    var s := Sort(KeyLe, keys);
    SortKeepsDistinct(KeyLe, keys);
    NoneBefore(s);
    bad := None;
    for i: nat := 1 to |s|
      invariant EarliestOf(s, i, bad)
    {
      EarliestStep(s, i, bad);
      if BadAt(s, i) && (bad.None? || s[i].line < bad.value) { bad := Some(s[i].line); }
    }
    EarliestRepeats(seen, s, bad);
  }

  lemma NoneBefore(s: seq<Key>)
    requires 1 <= |s|
    ensures EarliestOf(s, 1, None)
  {
  }

  lemma EarliestStep(s: seq<Key>, i: nat, bad: Option<nat>)
    requires 0 < i < |s| && EarliestOf(s, i, bad)
    ensures EarliestOf(s, i + 1, if BadAt(s, i) && (bad.None? || s[i].line < bad.value) then Some(s[i].line) else bad)
  {
  }

  lemma FewNames(seen: seq<Seen>)
    requires |seen| < 2
    ensures !Repeats(seen)
  {
  }

  lemma EarliestRepeats(seen: seq<Seen>, s: seq<Key>, bad: Option<nat>)
    requires KeysOf(seen, s) && SortedBy(KeyLe, s) && Distinct(s) && EarliestOf(s, |s|, bad)
    ensures bad.None? <==> !Repeats(seen)
    ensures bad.Some? ==> RepeatAt(seen, bad.value) && forall b: nat :: b < bad.value ==> !RepeatAt(seen, b)
  {
    hide KeyLe, SortedBy;
    if bad.Some? {
      var j: nat :| 0 < j < |s| && BadAt(s, j) && s[j].line == bad.value;
      NeighbourRepeats(seen, s, j);
    }
    forall b: nat | RepeatAt(seen, b) ensures bad.Some? && bad.value <= b { RepeatHasNeighbour(seen, s, b); }
    if Repeats(seen) {
      var a, b: nat :| 0 <= a < b < |seen| && seen[a].path == seen[b].path && !seen[b].second;
      assert RepeatAt(seen, b);
    }
  }

  method AllKeys(seen: seq<Seen>) returns (keys: seq<Key>)
    ensures KeysOf(seen, keys) && Distinct(keys) && |keys| == |seen|
  {
    keys := [];
    for i: nat := 0 to |seen|
      invariant |keys| == i && forall j: nat :: j < i ==> keys[j] == Key(seen[j].path, j, seen[j].second)
    {
      keys := keys + [Key(seen[i].path, i, seen[i].second)];
    }
    forall k ensures k in keys <==> k.line < |seen| && k == Key(seen[k.line].path, k.line, seen[k.line].second) {
      if k.line < |seen| { assert keys[k.line] in keys; }
    }
  }

  /** `struct zp`. */
  class Reader {
    var stack: seq<Scope>
    var closed: Option<Scope>
    var seen: seq<Seen>
    var deeds: seq<Deed>

    ghost function Now(): State
      reads this
    {
      State(stack, closed, seen, deeds)
    }

    constructor ()
      ensures Now() == Start()
    {
      stack, closed, seen, deeds := [Scope([], false)], None, [], [];
    }

    /** `zp_name_line`. */
    method NameLine(l: Line) returns (ok: bool)
      requires l.Name? && stack != []
      modifies this
      ensures ok <==> old(Now()).Accepts(l)
      ensures ok ==> Now() == old(Now()).AfterName(l)
    {
      var path := stack[|stack| - 1].path + [l.name];
      if !NameOk(l.name) { return false; }
      if l.word.None? {
        if !l.dir { return false; }
      } else {
        if !WordOk(l.word.value) { return false; }
        if l.word.value.Ln? {
          var r := PathCmp(Text(l.word.value.arg), Text(path));
          if r >= 0 { return false; }
        }
      }
      var second := closed.Some? && closed.value.rm && closed.value.path == path && Creates(l.dir, l.word);
      closed := None;
      seen := seen + [Seen(path, second)];
      if l.word.Some? { deeds := deeds + [Deed(path, l.dir, l.word.value)]; }
      if l.dir { stack := stack + [Scope(path, l.word == Some(Rm))]; }
      ok := true;
    }

    /** `zp_tree`, then `zp_repeats`: the whole section. */
    method Section(lines: seq<Line>) returns (list: Option<seq<Deed>>)
      requires Now() == Start()
      modifies this
      ensures list == Parse(lines)
    {
      hide NameOk, WordOk, Repeats;
      if lines == [] || lines[0] != Root(None) { return None; }
      ghost var body := lines[1..];
      for i: nat := 1 to |lines|
        invariant Read(body[..i - 1]) == Some(Now()) && stack != []
      {
        assert body[..i][..i - 1] == body[..i - 1] && body[i - 1] == lines[i];
        match lines[i]
        case Root(_) =>
          ReadStops(body, i);
          return None;
        case Close =>
          closed := Some(stack[|stack| - 1]);
          stack := stack[..|stack| - 1];
          if stack == [] {
            if i + 1 < |lines| {
              ReadEnded(body, i);
              return None;
            }
            assert body[..i] == body;
            var bad := FindRepeats(seen);
            return if bad.Some? then None else Some(deeds);
          }
        case Name(_, _, _) =>
          var ok := NameLine(lines[i]);
          if !ok {
            ReadStops(body, i);
            return None;
          }
      }
      assert body[..|lines| - 1] == body;
      list := None;
    }
  }

  /** A refused line refuses the section. */
  lemma {:induction false} ReadStops(lines: seq<Line>, i: nat)
    requires i <= |lines| && Read(lines[..i]).None?
    ensures Read(lines).None?
    decreases |lines| - i
  {
    if i == |lines| {
      assert lines[..i] == lines;
    } else {
      assert lines[..i + 1][..i] == lines[..i];
      ReadStops(lines, i + 1);
    }
  }

  /** Nothing may follow the dots that close the root. */
  lemma ReadEnded(lines: seq<Line>, i: nat)
    requires i < |lines| && Read(lines[..i]).Some? && Read(lines[..i]).value.stack == []
    ensures Read(lines).None?
  {
    hide State.After;
    var next := lines[..i + 1];
    assert next[..|next| - 1] == lines[..i];
    assert Read(next).None?;
    ReadStops(lines, i + 1);
  }
}
