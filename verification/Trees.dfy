/** What a tree of entries stands for: a directory tree, as a map from name chains to kinds and own sizes. */
module Trees {
  import opened Options
  import opened Forest

  /** What there is to know of an entry apart from its place in the tree. */
  datatype Info = Info(dir: bool, own: int)

  /** A directory tree: what is found under each chain of names from the root down. */
  type Tree = map<seq<string>, Info>

  /** The names on the way from the root down to `e`. */
  ghost function Chain<E>(f: Forest<E>, root: E, e: E): seq<string>
    requires Rooted(f, root) && e in f
    decreases f[e].depth
  {
    assert Placed(f, root, e);
    if e == root then [] else Chain(f, root, f[e].parent.value) + [f[e].name]
  }

  /** No two children of one directory have the same name. */
  ghost predicate Named<E>(f: Forest<E>) {
    forall a, b :: a in f && b in f && f[a].parent.Some? && f[a].parent == f[b].parent && f[a].name == f[b].name ==>
        a == b
  }

  ghost function Places<E>(f: Forest<E>, root: E): set<seq<string>>
    requires Rooted(f, root)
  {
    set e | e in f :: Chain(f, root, e)
  }

  ghost function InfoOf<E>(n: Node<E>): Info {
    Info(n.dir, Own(n))
  }

  /** The directory tree that the entries mirror. */
  ghost function TreeOf<E>(f: Forest<E>, root: E): Tree
    requires Rooted(f, root)
  {
    map q | q in Places(f, root) :: InfoOf(f[At(f, root, q)])
  }

  ghost function At<E>(f: Forest<E>, root: E, q: seq<string>): (e: E)
    requires Rooted(f, root) && q in Places(f, root)
    ensures e in f && Chain(f, root, e) == q
  {
    var e :| e in f && Chain(f, root, e) == q; e
  }

  lemma TreePlaces<E>(f: Forest<E>, root: E)
    requires Rooted(f, root)
    ensures TreeOf(f, root).Keys == Places(f, root)
    ensures forall q :: q in TreeOf(f, root) ==> TreeOf(f, root)[q] == InfoOf(f[At(f, root, q)])
  {
  }

  lemma {:induction false} ChainLength<E>(f: Forest<E>, root: E, e: E)
    requires Rooted(f, root) && e in f
    ensures |Chain(f, root, e)| == f[e].depth
    decreases f[e].depth
  {
    assert Placed(f, root, e);
    if e != root {
      ChainLength(f, root, f[e].parent.value);
    }
  }

  /** Where all siblings have different names, the chain of names identifies an entry. */
  lemma {:induction false} ChainUnique<E>(f: Forest<E>, root: E, a: E, b: E)
    requires Rooted(f, root) && Named(f) && a in f && b in f
    requires Chain(f, root, a) == Chain(f, root, b)
    ensures a == b
    decreases f[a].depth
  {
    assert Placed(f, root, a) && Placed(f, root, b);
    ChainLength(f, root, a);
    ChainLength(f, root, b);
    if a != root && b != root {
      var qa, qb := Chain(f, root, a), Chain(f, root, b);
      assert qa[..|qa| - 1] == Chain(f, root, f[a].parent.value);
      assert qb[..|qb| - 1] == Chain(f, root, f[b].parent.value);
      ChainUnique(f, root, f[a].parent.value, f[b].parent.value);
    }
  }

  lemma TreeHas<E>(f: Forest<E>, root: E, e: E)
    requires Rooted(f, root) && Named(f) && e in f
    ensures Chain(f, root, e) in TreeOf(f, root)
    ensures TreeOf(f, root)[Chain(f, root, e)] == InfoOf(f[e])
  {
    ChainUnique(f, root, e, At(f, root, Chain(f, root, e)));
  }

  /** Being at or below `a` is having `a`'s chain as a prefix. */
  lemma {:induction false} AncIsPrefix<E>(f: Forest<E>, root: E, a: E, x: E)
    requires Rooted(f, root) && Named(f) && a in f && x in f
    ensures Anc(f, root, a, x) <==> Chain(f, root, a) <= Chain(f, root, x)
    decreases f[x].depth
  {
    assert Placed(f, root, x);
    var qa, qx := Chain(f, root, a), Chain(f, root, x);
    if x == root {
      if qa <= qx {
        ChainUnique(f, root, a, x);
      }
    } else {
      var p := f[x].parent.value;
      AncIsPrefix(f, root, a, p);
      assert qx[..|qx| - 1] == Chain(f, root, p);
      if qa <= qx && |qa| == |qx| {
        ChainUnique(f, root, a, x);
      } else if qa <= qx {
        assert qa == qx[..|qa|] == qx[..|qx| - 1][..|qa|];
      }
    }
  }
}
