/** The reconciliation of one directory, seen on the directory tree that the entries mirror. */
module Mirror {
  import opened Options
  import opened SizeBins
  import opened Forest
  import opened Trees
  import opened Sums
  import opened Reconcile

  /** Kept names keep their kind; a kept directory keeps its own size, a kept file gets the listed one. */
  function Relisted(t: Tree, q: seq<string>, item: Item): Info {
    if q !in t then Info(item.dir, item.size)
    else if t[q].dir then t[q]
    else Info(false, item.size)
  }

  /** The tree in which directory `d` has exactly the listed children; kept directories keep all that is below them. */
  function Reconciled(t: Tree, d: seq<string>, listing: Listing): Tree {
    map q | q in (set q | q in t && (d < q ==> q[|d|] in listing)) + (set n | n in listing :: d + [n]) ::
      if d < q && |q| == |d| + 1 then Relisted(t, q, listing[q[|d|]]) else t[q]
  }

  /** Files have no children, and no own size is negative. */
  ghost predicate Tidy<E>(f: Forest<E>) {
    forall e :: e in f ==> (f[e].dir || f[e].bins == []) && Own(f[e]) >= 0
  }

  /** In a tidy tree no size is negative. */
  lemma TidySizes<E>(f: Forest<E>, root: E, e: E)
    requires Sound(f, root) && Tidy(f) && e in f
    ensures f[e].size >= 0
  {
    var X := Doomed(f, root, {e});
    AncBelow(f, root, e);
    SizeIsSum(f, root, e, X);
    SumNonNegative(X, Owns(f));
  }

  // ------------------------------------------------------------- chains are kept

  lemma {:induction false} ChainKept<E>(f0: Forest<E>, g: Forest<E>, root: E, p: E, listing: Listing, e: E)
    requires Finished(f0, g, root, p, listing) && e in f0 && e in g
    ensures Rooted(g, root) && Chain(g, root, e) == Chain(f0, root, e)
    decreases f0[e].depth
  {
    assert Placed(f0, root, e) && Placed(g, root, e);
    assert e != p ==> OldOk(f0, g, root, p, listing, listing.Keys, e);
    if e != root {
      ChainKept(f0, g, root, p, listing, f0[e].parent.value);
    }
  }

  lemma ChainNew<E>(f0: Forest<E>, g: Forest<E>, root: E, p: E, listing: Listing, e: E)
    requires Finished(f0, g, root, p, listing) && e in g && e !in f0
    ensures Rooted(g, root) && g[e].name in listing
    ensures Chain(g, root, e) == Chain(f0, root, p) + [g[e].name]
  {
    assert NewOk(g, p, listing, listing.Keys, e);
    assert Placed(g, root, root) && Placed(f0, root, root) && Placed(g, root, e);
    ChainKept(f0, g, root, p, listing, p);
    assert root in f0;
  }

  /** An old entry survives if, on the way down to it, the name just below `p` is listed. */
  lemma SurvivesIff<E>(f0: Forest<E>, root: E, p: E, listing: Listing, e: E)
    requires Rooted(f0, root) && Named(f0) && p in f0 && e in f0
    ensures var d, q := Chain(f0, root, p), Chain(f0, root, e);
            e in Doomed(f0, root, Unlisted(f0, p, listing)) <==> d < q && q[|d|] !in listing
  {
    var d, q, dead := Chain(f0, root, p), Chain(f0, root, e), Unlisted(f0, p, listing);
    if e in Doomed(f0, root, dead) {
      var x :| x in dead && Anc(f0, root, x, e);
      AncIsPrefix(f0, root, x, e);
      assert Placed(f0, root, x);
      assert Chain(f0, root, x) == d + [f0[x].name];
    }
    if d < q {
      var k := KidTowards(f0, root, p, e);
      if e in Doomed(f0, root, dead) {
        var x :| x in dead && Anc(f0, root, x, e);
        OnlyKidTowards(f0, root, p, e, k, x);
      }
    }
  }

  /** The child of `p` on the way down to `e`. */
  lemma {:induction false} KidTowards<E>(f: Forest<E>, root: E, p: E, e: E) returns (k: E)
    requires Rooted(f, root) && Named(f) && p in f && e in f
    requires Chain(f, root, p) < Chain(f, root, e)
    ensures k in f && f[k].parent == Some(p) && Anc(f, root, k, e)
    ensures f[k].name == Chain(f, root, e)[|Chain(f, root, p)|]
    decreases f[e].depth
  {
    var d, q := Chain(f, root, p), Chain(f, root, e);
    assert Placed(f, root, e);
    var up := f[e].parent.value;
    assert q == Chain(f, root, up) + [f[e].name];
    if |q| == |d| + 1 {
      k := e;
      assert Chain(f, root, up) == q[..|d|] == d;
      ChainUnique(f, root, up, p);
    } else {
      assert d == q[..|d|] == Chain(f, root, up)[..|d|];
      k := KidTowards(f, root, p, up);
    }
  }

  lemma OnlyKidTowards<E>(f: Forest<E>, root: E, p: E, e: E, k: E, x: E)
    requires Rooted(f, root) && Named(f) && p in f && e in f && k in f && x in f
    requires f[k].parent == Some(p) && f[x].parent == Some(p) && Anc(f, root, k, e) && Anc(f, root, x, e)
    ensures k == x
  {
    AncIsPrefix(f, root, k, e);
    AncIsPrefix(f, root, x, e);
    assert Placed(f, root, k) && Placed(f, root, x);
    var q, n := Chain(f, root, e), |Chain(f, root, p)|;
    assert Chain(f, root, k) == q[..n + 1] == Chain(f, root, x);
    ChainUnique(f, root, k, x);
  }

  // -------------------------------------------------------------- what is mirrored

  /** The part of `Finished` that one entry needs. */
  lemma FinishedOld<E>(f0: Forest<E>, g: Forest<E>, root: E, p: E, listing: Listing, e: E)
    requires Finished(f0, g, root, p, listing) && Tidy(f0) && Sound(f0, root) && e in f0 && e in g
    ensures g[e].dir == f0[e].dir && g[e].name == f0[e].name && g[e].parent == f0[e].parent
    ensures f0[e].parent == Some(p) ==> f0[e].name in listing
    ensures Own(g[e]) == if f0[e].parent == Some(p) && !f0[e].dir then listing[f0[e].name].size else Own(f0[e])
  {
    assert e != p ==> OldOk(f0, g, root, p, listing, listing.Keys, e);
    assert Placed(f0, root, p);
    LosslessTidy(f0, root, p, listing);
    hide Sound;
    NotDead(f0, root, p, listing, e);
    EmptyBag<E>();
  }

  lemma NotDead<E>(f0: Forest<E>, root: E, p: E, listing: Listing, e: E)
    requires Rooted(f0, root) && e in f0 && e !in Doomed(f0, root, Unlisted(f0, p, listing))
    ensures e !in Unlisted(f0, p, listing)
  {
    assert Anc(f0, root, e, e);
  }

  lemma LosslessTidy<E>(f0: Forest<E>, root: E, p: E, listing: Listing)
    requires Sound(f0, root) && Tidy(f0)
    ensures Lossless(f0, Unlisted(f0, p, listing))
  {
    forall e | e in Unlisted(f0, p, listing) && e in f0
      ensures f0[e].size >= 0
    {
      TidySizes(f0, root, e);
    }
  }

  /** Everything the new entries stand for is what the listing says. */
  lemma MirrorNew<E>(f0: Forest<E>, g: Forest<E>, root: E, p: E, listing: Listing, e: E)
    requires Finished(f0, g, root, p, listing) && Named(f0) && e in g && e !in f0
    ensures Chain(g, root, e) !in Places(f0, root)
    ensures Chain(g, root, e) == Chain(f0, root, p) + [g[e].name] && g[e].name in listing
    ensures InfoOf(g[e]) == Info(listing[g[e].name].dir, listing[g[e].name].size)
  {
    assert NewOk(g, p, listing, listing.Keys, e);
    ChainNew(f0, g, root, p, listing, e);
    EmptyBag<E>();
    var q := Chain(g, root, e);
    if q in Places(f0, root) {
      var x := At(f0, root, q);
      SurvivesIff(f0, root, p, listing, x);
      ChainKept(f0, g, root, p, listing, x);
      ChainUnique(g, root, x, e);
    }
  }

  lemma FinishedIs<E>(f0: Forest<E>, g: Forest<E>, root: E, p: E, listing: Listing)
    requires Finished(f0, g, root, p, listing)
    ensures Rooted(f0, root) && p in f0 && Rooted(g, root) && Named(g) && Sound(g, root)
    ensures forall e :: e in f0 ==> (e in g <==> e !in Doomed(f0, root, Unlisted(f0, p, listing)))
  {
  }

  lemma MirrorOld<E>(f0: Forest<E>, g: Forest<E>, root: E, p: E, listing: Listing, e: E)
    requires Finished(f0, g, root, p, listing) && Sound(f0, root) && Named(f0) && Tidy(f0) && e in f0
    ensures var d, q := Chain(f0, root, p), Chain(f0, root, e);
            && q in TreeOf(f0, root)
            && (e in g <==> q in Reconciled(TreeOf(f0, root), d, listing))
            && (e in g ==> InfoOf(g[e]) == Reconciled(TreeOf(f0, root), d, listing)[q])
  {
    var d, q := Chain(f0, root, p), Chain(f0, root, e);
    FinishedIs(f0, g, root, p, listing);
    hide Finished, Sound, Named, Tidy, Rooted, Unlisted, Doomed;
    TreeHas(f0, root, e);
    SurvivesIff(f0, root, p, listing, e);
    ParentByChain(f0, root, p, e);
    if e in g {
      FinishedOld(f0, g, root, p, listing, e);
    }
  }

  /** The children of `p` are what is found one name below it. */
  lemma ParentByChain<E>(f: Forest<E>, root: E, p: E, e: E)
    requires Rooted(f, root) && Named(f) && p in f && e in f
    ensures var d, q := Chain(f, root, p), Chain(f, root, e);
            && (f[e].parent == Some(p) <==> d < q && |q| == |d| + 1)
            && (f[e].parent == Some(p) ==> q == d + [f[e].name])
  {
    assert Placed(f, root, e);
    var d, q := Chain(f, root, p), Chain(f, root, e);
    if d < q && |q| == |d| + 1 {
      assert Chain(f, root, f[e].parent.value) == q[..|d|] == d;
      ChainUnique(f, root, f[e].parent.value, p);
    }
  }

  /** The own sizes are as before or as listed, so they stay non-negative. */
  lemma TidyAfter<E>(f0: Forest<E>, g: Forest<E>, root: E, p: E, listing: Listing)
    requires Finished(f0, g, root, p, listing) && Sound(f0, root) && Tidy(f0) && f0[p].dir
    requires forall n :: n in listing ==> listing[n].size >= 0
    ensures Tidy(g)
  {
    forall e | e in g
      ensures (g[e].dir || g[e].bins == []) && Own(g[e]) >= 0
    {
      if e in f0 {
        FinishedOld(f0, g, root, p, listing, e);
        if e != p && f0[e].bins == [] {
          FileOffPath(f0, root, p, e);
        }
        assert e != p ==> OldOk(f0, g, root, p, listing, listing.Keys, e);
      } else {
        assert NewOk(g, p, listing, listing.Keys, e);
        EmptyBag<E>();
      }
    }
  }

  /** A directory path may find a file entry; the mirror stays tidy unless a file is given children that way. */
  lemma TidyExactly<E>(f0: Forest<E>, g: Forest<E>, root: E, p: E, listing: Listing)
    requires Finished(f0, g, root, p, listing) && Sound(f0, root) && Tidy(f0)
    requires forall n :: n in listing ==> listing[n].size >= 0
    ensures Tidy(g) <==> f0[p].dir || listing == map[]
  {
    if f0[p].dir {
      TidyAfter(f0, g, root, p, listing);
    } else if listing == map[] {
      NothingListed(f0, g, root, p, listing);
    } else {
      var n :| n in listing;
      assert HasChild(g, p, n);
      var c :| c in g && g[c].parent == Some(p) && g[c].name == n;
      assert Binned(g, p) && c in multiset(Kids(g, p));
      EmptyBag<E>();
    }
  }

  /** A childless entry with an empty listing: nothing happens to it. */
  lemma NothingListed<E>(f0: Forest<E>, g: Forest<E>, root: E, p: E, listing: Listing)
    requires Finished(f0, g, root, p, listing) && Sound(f0, root) && Tidy(f0)
    requires !f0[p].dir && listing == map[]
    ensures Tidy(g)
  {
    assert Binned(f0, p) && Binned(g, p);
    EmptyBag<E>();
    assert Kids(f0, p) == {} by {
      assert forall e :: e in Kids(f0, p) ==> e in multiset(Kids(f0, p));
    }
    NoKidsBins(f0, g, root, p, listing);
    forall e | e in g
      ensures (g[e].dir || g[e].bins == []) && Own(g[e]) >= 0
    {
      assert e !in f0 ==> NewOk(g, p, listing, listing.Keys, e);
      FinishedOld(f0, g, root, p, listing, e);
      if e != p && f0[e].bins == [] {
        FileOffPath(f0, root, p, e);
      }
      assert e != p ==> OldOk(f0, g, root, p, listing, listing.Keys, e);
    }
  }

  lemma NoKidsBins<E>(f0: Forest<E>, g: Forest<E>, root: E, p: E, listing: Listing)
    requires Finished(f0, g, root, p, listing) && listing == map[] && Kids(f0, p) == {} && Binned(g, p)
    ensures g[p].bins == []
  {
    forall e | e in g
      ensures g[e].parent != Some(p)
    {
      assert e !in f0 ==> NewOk(g, p, listing, listing.Keys, e);
      assert e in f0 && e != p ==> OldOk(f0, g, root, p, listing, listing.Keys, e);
      assert e in f0 ==> e !in Kids(f0, p);
    }
    assert Kids(g, p) == {};
    FirstInBag(g[p].bins);
  }

  lemma FirstInBag<E>(bs: seq<Bin<E>>)
    requires Proper(bs)
    ensures bs != [] ==> bs[0].chain != [] && bs[0].chain[0] in Bag(bs)
  {
    assert bs != [] ==> bs[0].chain[0] in Flat(bs);
  }

  /** Childless entries are not above anything. */
  lemma {:induction false} FileOffPath<E>(f: Forest<E>, root: E, p: E, x: E)
    requires Sound(f, root) && p in f && x in f && x != p && f[x].bins == []
    ensures !Anc(f, root, x, p)
    decreases f[p].depth
  {
    assert Placed(f, root, p);
    if p != root {
      var up := f[p].parent.value;
      assert Binned(f, up) && p in Kids(f, up);
      EmptyBag<E>();
      assert p in multiset(Kids(f, up));
      FileOffPath(f, root, up, x);
    }
  }

  /**
   The main theorem on reconciliation: the mirrored tree is the old one with exactly the listed
   children in the directory, kept directories keeping their whole subtrees and everything
   outside the directory unchanged.
   */
  lemma MirrorReconciled<E>(f0: Forest<E>, g: Forest<E>, root: E, p: E, listing: Listing)
    requires Finished(f0, g, root, p, listing) && Sound(f0, root) && Named(f0) && Tidy(f0)
    ensures TreeOf(g, root) == Reconciled(TreeOf(f0, root), Chain(f0, root, p), listing)
  {
    hide *;
    FinishedIs(f0, g, root, p, listing);
    var u, r := TreeOf(g, root), Reconciled(TreeOf(f0, root), Chain(f0, root, p), listing);
    TreePlaces(g, root);
    forall q | q in u
      ensures q in r && u[q] == r[q]
    {
      MirrorIn(f0, g, root, p, listing, At(g, root, q));
    }
    forall q | q in r
      ensures q in u
    {
      MirrorOut(f0, g, root, p, listing, q);
    }
  }

  lemma MirrorIn<E>(f0: Forest<E>, g: Forest<E>, root: E, p: E, listing: Listing, e: E)
    requires Finished(f0, g, root, p, listing) && Sound(f0, root) && Named(f0) && Tidy(f0) && e in g
    ensures Rooted(g, root)
    ensures var q, r := Chain(g, root, e), Reconciled(TreeOf(f0, root), Chain(f0, root, p), listing);
            q in r && r[q] == InfoOf(g[e])
  {
    if e in f0 {
      ChainKept(f0, g, root, p, listing, e);
      MirrorOld(f0, g, root, p, listing, e);
    } else {
      MirrorNew(f0, g, root, p, listing, e);
      var d, q := Chain(f0, root, p), Chain(g, root, e);
      assert d < q && q[|d|] == g[e].name;
    }
  }

  lemma MirrorOut<E>(f0: Forest<E>, g: Forest<E>, root: E, p: E, listing: Listing, q: seq<string>)
    requires Finished(f0, g, root, p, listing) && Sound(f0, root) && Named(f0) && Tidy(f0)
    requires q in Reconciled(TreeOf(f0, root), Chain(f0, root, p), listing)
    ensures Rooted(g, root) && q in Places(g, root)
  {
    if q in TreeOf(f0, root) {
      var e := At(f0, root, q);
      MirrorOld(f0, g, root, p, listing, e);
      ChainKept(f0, g, root, p, listing, e);
    } else {
      ListedPlace(f0, g, root, p, listing, q[|Chain(f0, root, p)|]);
    }
  }

  lemma ListedPlace<E>(f0: Forest<E>, g: Forest<E>, root: E, p: E, listing: Listing, n: string)
    requires Finished(f0, g, root, p, listing) && n in listing
    ensures Rooted(g, root) && Chain(f0, root, p) + [n] in Places(g, root)
  {
    assert HasChild(g, p, n);
    var c :| c in g && g[c].parent == Some(p) && g[c].name == n;
    ChainKept(f0, g, root, p, listing, p);
    assert Placed(g, root, c);
    assert Chain(g, root, c) == Chain(f0, root, p) + [n];
  }
}
