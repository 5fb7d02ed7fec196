/** Hard-link trees as src/name.c seals them: a partition of path names into pools, one pool
    per object, each with a content. */
module Trees {

  datatype Option<+T> = None | Some(value: T)

  datatype Kind = File | Directory | Symlink | CharDevice | BlockDevice | Fifo | Socket

  /** What a content handle stands for: the type, the text and the attributes.  The text is a file's
      bytes, a symbolic link's target or a device's number; the other types have none.  Equal handles
      are equal contents; nothing in the decision looks inside one. */
  datatype Content = Content(kind: Kind, text: nat, attrs: nat)

  datatype Pool = Pool(names: seq<nat>, content: Content)

  ghost predicate Ascending(s: seq<nat>) {
    forall i, j :: 0 <= i < j < |s| ==> s[i] < s[j]
  }

  /** `poolOf` is `zt_by_name`: a name that is not a key has ZR_POOL_NONE. */
  datatype Tree = Tree(pools: seq<Pool>, poolOf: map<nat, nat>) {

    /** A sealed tree over the first n names of the shared table. */
    ghost predicate Valid(n: nat) {
      && (forall x :: x in poolOf ==> x < n && poolOf[x] < |pools| && x in pools[poolOf[x]].names)
      && (forall q :: 0 <= q < |pools| ==> PoolValid(q))
    }

    ghost predicate PoolValid(q: nat)
      requires q < |pools|
    {
      && pools[q].names != []
      && Ascending(pools[q].names)
      && (forall x :: x in pools[q].names ==> x in poolOf && poolOf[x] == q)
      && (pools[q].content.kind == Directory ==> |pools[q].names| == 1)
    }

    predicate Has(x: nat) { x in poolOf }

    function ContentAt(x: nat): Content
      requires x in poolOf && poolOf[x] < |pools|
    {
      pools[poolOf[x]].content
    }
  }
}
