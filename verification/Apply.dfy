/** The interpreter of src/apply.c, `zr_apply_with`, over an aliasing store: names hold objects,
    objects hold contents, and a write goes through an object to every name of it.

    The store is flat: what a missing or a non-empty directory refuses is in Tall.  `under` says which
    path lies inside which directory and is a parameter. */
module Apply {
  import opened Trees
  import opened Manifest

  /** `pending` are the directories whose rm waits for their scope to close. */
  datatype Store = Store(at: map<nat, nat>, body: seq<Content>, pending: seq<nat>) {

    ghost predicate Valid() {
      forall x :: x in at ==> at[x] < |body|
    }

    predicate Has(x: nat) { x in at }

    function ContentAt(x: nat): Content
      requires x in at && at[x] < |body|
    {
      body[at[x]]
    }

    /** The name takes a new object. */
    function Make(x: nat, c: Content): (s: Store)
      ensures Valid() ==> s.Valid()
    {
      this.(at := at[x := |body|], body := body + [c])
    }

    /** The object the name holds takes new bytes, for all its names. */
    function Pour(x: nat, c: Content): (s: Store)
      requires Valid() && x in at
      ensures s.Valid()
    {
      this.(body := body[at[x] := c])
    }

    function Drop(x: nat): (s: Store)
      ensures Valid() ==> s.Valid()
    {
      this.(at := at - {x})
    }
  }

  datatype Outcome = Done(store: Store) | Failed

  /** What an apply reads and does not change. */
  datatype Sources = Sources(from: Tree, onto: Tree, n: nat, under: (nat, nat) -> bool) {
    ghost predicate Valid() { from.Valid(n) && onto.Valid(n) }
  }

  // ----- the steps

  /** `za_do_cp`: a directory already there stays when a directory is wanted; all else is replaced. */
  function DoCp(s: Store, x: nat, c: Content): (o: Outcome)
    requires s.Valid()
    ensures o.Done? ==> o.store.Valid()
  {
    if x in s.at && s.ContentAt(x).kind == Directory && c.kind == Directory then Done(s.Pour(x, c))
    else Done(s.Make(x, c))
  }

  /** What a write leaves in an object it keeps: a file has the bytes it brings; of everything else
      only the attributes change, a device's number with them not. */
  function Rewritten(was: Content, c: Content): Content {
    if c.kind == File then c else c.(text := was.text)
  }

  /** `za_do_write`: the object stays the object it is, except a symbolic link with a new target,
      which `za_relink` unlinks and makes again. */
  function DoWrite(s: Store, x: nat, c: Content): (o: Outcome)
    requires s.Valid()
    ensures o.Done? ==> o.store.Valid()
  {
    if x !in s.at || s.ContentAt(x).kind != c.kind then Failed
    else if c.kind == Symlink && s.ContentAt(x).text != c.text then Done(s.Make(x, c))
    else Done(s.Pour(x, Rewritten(s.ContentAt(x), c)))
  }

  /** `za_do_ln`. */
  function DoLn(s: Store, x: nat, a: nat): (o: Outcome)
    requires s.Valid()
    ensures o.Done? ==> o.store.Valid()
  {
    if a !in s.at then Failed
    else if x in s.at && s.at[x] == s.at[a] then Done(s)
    else if x in s.at && s.ContentAt(x).kind == Directory then Failed
    else if s.ContentAt(a).kind == Directory then Failed
    else Done(s.(at := s.at[x := s.at[a]]))
  }

  /** `za_do_rm`: a leaf goes now, a directory when its scope closes. */
  function DoRm(s: Store, x: nat, dir: bool): (o: Outcome)
    requires s.Valid()
    ensures o.Done? ==> o.store.Valid()
  {
    if dir then Done(s.(pending := s.pending + [x]))
    else if x !in s.at then Done(s)
    else if s.ContentAt(x).kind == Directory then Failed
    else Done(s.Drop(x))
  }

  /** `za_close_to`: the directories the next path does not lie under have had their last child. */
  function CloseTo(s: Store, next: Option<nat>, under: (nat, nat) -> bool): (o: Outcome)
    requires s.Valid()
    ensures o.Done? ==> o.store.Valid()
    decreases |s.pending|
  {
    if s.pending == [] then Done(s) else
    var d := s.pending[|s.pending| - 1];
    var rest := s.(pending := s.pending[..|s.pending| - 1]);
    if next.Some? && under(d, next.value) then Done(s)
    else if d !in s.at then CloseTo(rest, next, under)
    else if s.ContentAt(d).kind != Directory then Failed
    else CloseTo(rest.Drop(d), next, under)
  }

  function Perform(e: Sources, s: Store, a: Action): (o: Outcome)
    requires e.Valid() && s.Valid()
    ensures o.Done? ==> o.store.Valid()
  {
    match a.act
    case Rm(dir) => DoRm(s, a.path, dir)
    case Ln(anchor) => DoLn(s, a.path, anchor)
    case Cp(y) => if e.from.Has(y) then DoCp(s, a.path, e.from.ContentAt(y)) else Failed
    case Dup(y) => if e.onto.Has(y) then DoCp(s, a.path, e.onto.ContentAt(y)) else Failed
    case Write(y) => if e.from.Has(y) then DoWrite(s, a.path, e.from.ContentAt(y)) else Failed
    case _ => Done(s)
  }

  /** One turn of the loop: a conflict mark does nothing; anything else closes scopes first. */
  function Step(e: Sources, s: Store, a: Action): (o: Outcome)
    requires e.Valid() && s.Valid()
    ensures o.Done? ==> o.store.Valid()
  {
    if a.act.Mark? then Done(s) else
    var closed := CloseTo(s, Some(a.path), e.under);
    if closed.Failed? then Failed else Perform(e, closed.store, a)
  }

  /** The list so far, scopes left open. */
  function Run(e: Sources, s: Store, list: seq<Action>): (o: Outcome)
    requires e.Valid() && s.Valid()
    ensures o.Done? ==> o.store.Valid()
  {
    if list == [] then Done(s) else
    var before := Run(e, s, list[..|list| - 1]);
    if before.Failed? then Failed else Step(e, before.store, list[|list| - 1])
  }

  /** A whole apply: the list, and the scopes still open closed at the end. */
  function ApplyAll(e: Sources, s: Store, list: seq<Action>): (o: Outcome)
    requires e.Valid() && s.Valid()
    ensures o.Done? ==> o.store.Valid()
  {
    var end := Run(e, s, list);
    if end.Failed? then Failed else CloseTo(end.store, None, e.under)
  }

  /** `struct za_ctx` and the tree it writes. */
  class Applier {
    const e: Sources
    var at: map<nat, nat>
    var body: seq<Content>
    var pending: seq<nat>

    ghost predicate Valid()
      reads this
    {
      e.Valid() && Now().Valid()
    }

    ghost function Now(): Store
      reads this
    {
      Store(at, body, pending)
    }

    /** The state is what the outcome says, or the outcome was a failure. */
    ghost predicate Reached(ok: bool, o: Outcome)
      reads this
    {
      (ok <==> o.Done?) && (ok ==> Now() == o.store)
    }

    constructor (e: Sources, at: map<nat, nat>, body: seq<Content>)
      requires e.Valid() && Store(at, body, []).Valid()
      ensures Valid() && this.e == e && Now() == Store(at, body, [])
    {
      this.e, this.at, this.body, this.pending := e, at, body, [];
    }

    method MakeObject(x: nat, c: Content)
      requires Valid()
      modifies this
      ensures Valid() && Now() == old(Now()).Make(x, c)
    {
      at := at[x := |body|];
      body := body + [c];
    }

    method Cp(x: nat, c: Content) returns (ok: bool)
      requires Valid()
      modifies this
      ensures Valid() && Reached(ok, DoCp(old(Now()), x, c))
    {
      if x in at && body[at[x]].kind == Directory && c.kind == Directory {
        body := body[at[x] := c];
      } else {
        if x in at { at := at - {x}; }
        MakeObject(x, c);
      }
      ok := true;
    }

    method WriteTo(x: nat, c: Content) returns (ok: bool)
      requires Valid()
      modifies this
      ensures Valid() && Reached(ok, DoWrite(old(Now()), x, c))
    {
      if x !in at || body[at[x]].kind != c.kind { return false; }
      if c.kind == Symlink && body[at[x]].text != c.text {
        at := at - {x};
        MakeObject(x, c);
      } else {
        body := body[at[x] := Rewritten(body[at[x]], c)];
      }
      ok := true;
    }

    method LinkTo(x: nat, a: nat) returns (ok: bool)
      requires Valid()
      modifies this
      ensures Valid() && Reached(ok, DoLn(old(Now()), x, a))
    {
      if a !in at { return false; }
      if x in at {
        if at[x] == at[a] { return true; }
        if body[at[x]].kind == Directory { return false; }
      }
      if body[at[a]].kind == Directory { return false; }
      at := at[x := at[a]];
      ok := true;
    }

    method Remove(x: nat, dir: bool) returns (ok: bool)
      requires Valid()
      modifies this
      ensures Valid() && Reached(ok, DoRm(old(Now()), x, dir))
    {
      if dir {
        pending := pending + [x];
      } else if x in at {
        if body[at[x]].kind == Directory { return false; }
        at := at - {x};
      }
      ok := true;
    }

    method Close(next: Option<nat>) returns (ok: bool)
      requires Valid()
      modifies this
      ensures Valid() && Reached(ok, CloseTo(old(Now()), next, e.under))
    {
      while pending != []
        invariant Valid() && CloseTo(Now(), next, e.under) == CloseTo(old(Now()), next, e.under)
        decreases |pending|
      {
        var d := pending[|pending| - 1];
        if next.Some? && e.under(d, next.value) { return true; }
        if d in at {
          if body[at[d]].kind != Directory { return false; }
          at := at - {d};
        }
        pending := pending[..|pending| - 1];
      }
      ok := true;
    }

    method One(a: Action) returns (ok: bool)
      requires Valid()
      modifies this
      ensures Valid() && Reached(ok, Step(e, old(Now()), a))
    {
      if a.act.Mark? { return true; }
      ok := Close(Some(a.path));
      if !ok { return; }
      match a.act
      case Rm(dir) => ok := Remove(a.path, dir);
      case Ln(anchor) => ok := LinkTo(a.path, anchor);
      case Cp(y) => if e.from.Has(y) { ok := Cp(a.path, e.from.ContentAt(y)); } else { ok := false; }
      case Dup(y) => if e.onto.Has(y) { ok := Cp(a.path, e.onto.ContentAt(y)); } else { ok := false; }
      case Write(y) => if e.from.Has(y) { ok := WriteTo(a.path, e.from.ContentAt(y)); } else { ok := false; }
      case _ =>
    }

    /** `zr_apply_with`, with no report. */
    method ApplyList(list: seq<Action>) returns (ok: bool)
      requires Valid()
      modifies this
      ensures Valid() && Reached(ok, ApplyAll(e, old(Now()), list))
    {
      hide Store.Valid, Sources.Valid, Step, CloseTo;
      assert list[..|list|] == list;
      for i := 0 to |list|
        invariant Valid() && Run(e, old(Now()), list[..i]) == Done(Now())
      {
        assert list[..i + 1][..i] == list[..i];
        ok := One(list[i]);
        if !ok {
          RunStops(e, old(Now()), list, i + 1);
          return;
        }
      }
      ok := Close(None);
    }
  }

  /** A failure stays a failure. */
  lemma {:induction false} RunStops(e: Sources, s: Store, list: seq<Action>, i: nat)
    requires e.Valid() && s.Valid() && i <= |list| && Run(e, s, list[..i]).Failed?
    ensures Run(e, s, list).Failed?
    decreases |list| - i
  {
    if i == |list| {
      assert list[..i] == list;
    } else {
      assert list[..i + 1][..i] == list[..i];
      RunStops(e, s, list, i + 1);
    }
  }
}
