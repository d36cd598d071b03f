/**
 The tree of file entries as a value: what every entry's fields are, keyed by entry.
 Entries live in the size-ordered bins of their parent.
 */
module Forest {
  import opened Crcs
  import opened Options
  import opened SizeBins

  datatype Node<E> = Node(
    name: string,
    dir: bool,
    nameCrc: Crc,
    parent: Option<E>,
    size: int,
    pathCrc: Crc,
    marked: bool,
    bins: seq<Bin<E>>,
    depth: nat)

  type Forest<!E> = map<E, Node<E>>

  /** The part of an entry's size that does not come from its children. */
  ghost function Own<E>(n: Node<E>): int {
    n.size - Total(n.bins)
  }

  ghost function Kids<E>(f: Forest<E>, p: E): set<E> {
    set e | e in f && f[e].parent == Some(p)
  }

  ghost predicate Placed<E>(f: Forest<E>, root: E, e: E)
    requires e in f
  {
    if e == root then f[e].parent == None && f[e].depth == 0
    else
      && f[e].parent.Some?
      && f[e].parent.value in f
      && f[e].depth == f[f[e].parent.value].depth + 1
  }

  /** `root` is the only entry without a parent, and every other entry is one level below its parent. */
  ghost predicate Rooted<E>(f: Forest<E>, root: E) {
    root in f && forall e {:trigger Placed(f, root, e)} :: e in f ==> Placed(f, root, e)
  }

  ghost predicate Binned<E>(f: Forest<E>, p: E)
    requires p in f
  {
    && Proper(f[p].bins)
    && Bag(f[p].bins) == multiset(Kids(f, p))
  }

  /** Each entry sits exactly once in the bins of its parent, and nowhere else. */
  ghost predicate Housed<E>(f: Forest<E>) {
    forall p {:trigger Binned(f, p)} :: p in f ==> Binned(f, p)
  }

  /** The size under which `e` is filed: its own, except that `c` is still filed under its size before `d` was added. */
  ghost function Filed<E>(f: Forest<E>, c: E, d: int, e: E): int
    requires e in f
  {
    if e == c then f[e].size - d else f[e].size
  }

  /** Every bin is uniform: each entry is in the bin of the size it is filed under. */
  ghost predicate Sized<E>(f: Forest<E>, c: E, d: int) {
    forall p, s, e :: p in f && e in f && FiledAt(f[p].bins, s, e) ==> s == Filed(f, c, d, e)
  }

  ghost predicate HashedAt<E>(f: Forest<E>, e: E)
    requires e in f
  {
    match f[e].parent
    case None => f[e].pathCrc == f[e].nameCrc
    case Some(p) => p in f && f[e].pathCrc == Xor(f[p].pathCrc, f[e].nameCrc)
  }

  /** A path hash is the xor of the name hashes from the root down. */
  ghost predicate Hashed<E>(f: Forest<E>) {
    forall e {:trigger HashedAt(f, e)} :: e in f ==> HashedAt(f, e)
  }

  /** The tree is sound but for `c`, whose size has just grown by `d`. */
  ghost predicate SoundBut<E>(f: Forest<E>, root: E, c: E, d: int) {
    Rooted(f, root) && Housed(f) && Sized(f, c, d) && Hashed(f)
  }

  ghost predicate Sound<E>(f: Forest<E>, root: E) {
    SoundBut(f, root, root, 0)
  }

  /** Only sizes and bins differ. */
  ghost predicate SameShape<E>(f: Forest<E>, g: Forest<E>) {
    && f.Keys == g.Keys
    && forall e :: e in f ==> g[e] == f[e].(size := g[e].size, bins := g[e].bins)
  }

  /** `a` is `x` or one of its ancestors. */
  ghost predicate Anc<E>(f: Forest<E>, root: E, a: E, x: E)
    requires Rooted(f, root) && x in f
    decreases f[x].depth
  {
    assert Placed(f, root, x);
    x == a || (x != root && Anc(f, root, a, f[x].parent.value))
  }

  // ------------------------------------------------------------------ size changes

  /** `p` with new bins, and its child `c` with a refreshed parent link and path hash. */
  ghost function Rebin<E>(f: Forest<E>, p: E, c: E, d: int, bins: seq<Bin<E>>): Forest<E>
    requires p in f && c in f
  {
    f[c := f[c].(parent := Some(p), pathCrc := Xor(f[p].pathCrc, f[c].nameCrc))]
     [p := f[p].(bins := bins, size := f[p].size + d)]
  }

  lemma SameBinsHoused<E>(f: Forest<E>, g: Forest<E>)
    requires SameKin(f, g) && Housed(f)
    requires forall p :: p in f ==> g[p].bins == f[p].bins
    ensures Housed(g)
  {
    forall p | p in g
      ensures Binned(g, p)
    {
      assert Binned(f, p);
      SameKinKids(f, g, p);
    }
  }

  /** Moves child `c` of `p` to the bin of its present size and passes the change on to `p`. */
  ghost function Reinsert<E>(f: Forest<E>, p: E, c: E, d: int): Forest<E>
    requires p in f && c in f
  {
    Rebin(f, p, c, d, Refile(f[p].bins, f[c].size - d, f[c].size, c))
  }

  lemma ReinsertIsRebin<E>(f: Forest<E>, p: E, c: E, d: int)
    requires p in f && c in f
    ensures Reinsert(f, p, c, d) == Rebin(f, p, c, d, Refile(f[p].bins, f[c].size - d, f[c].size, c))
  {
  }

  lemma ReinsertRooted<E>(f: Forest<E>, root: E, p: E, c: E, d: int)
    requires Rooted(f, root) && c in f && f[c].parent == Some(p)
    ensures p in f && p != c && Rooted(Reinsert(f, p, c, d), root)
  {
    assert Placed(f, root, c) && Placed(f, root, p);
    SameKinRooted(f, Reinsert(f, p, c, d), root);
  }

  /** The change of size `d` of entry `c`, carried up to the root. */
  ghost function Climb<E>(f: Forest<E>, root: E, c: E, d: int): Forest<E>
    requires Rooted(f, root) && c in f
    decreases f[c].depth
  {
    if c == root || d == 0 then f
    else
      assert Placed(f, root, c);
      var p := f[c].parent.value;
      ReinsertRooted(f, root, p, c, d);
      Climb(Reinsert(f, p, c, d), root, p, d)
  }

  lemma Kin<E>(f: Forest<E>, p: E, s: int, e: E)
    requires p in f && Binned(f, p) && FiledAt(f[p].bins, s, e)
    ensures e in f && f[e].parent == Some(p)
  {
    FiledInBag(f[p].bins, s, e);
    assert e in Kids(f, p);
  }

  /** A child is filed under some size, and only once. */
  lemma KidFiled<E>(f: Forest<E>, p: E, c: E) returns (s: int)
    requires p in f && Binned(f, p) && c in f && f[c].parent == Some(p)
    ensures Bag(f[p].bins)[c] == 1
    ensures FiledAt(f[p].bins, s, c)
    ensures c in Held(f[p].bins, s)
  {
    var bins := f[p].bins;
    assert multiset(Kids(f, p))[c] == 1;
    assert c in Flat(bins);
    FlatHas(bins, c);
    var i :| 0 <= i < |bins| && c in bins[i].chain;
    s := bins[i].size;
    SlotOf(bins, i);
  }

  lemma ClimbStops<E>(f: Forest<E>, root: E, c: E, d: int)
    requires Rooted(f, root) && c in f && (c == root || d == 0)
    ensures Climb(f, root, c, d) == f
  {
  }

  lemma ClimbGoesOn<E>(f: Forest<E>, root: E, p: E, c: E, d: int)
    requires Rooted(f, root) && c in f && c != root && d != 0 && f[c].parent == Some(p)
    ensures p in f && Rooted(Reinsert(f, p, c, d), root)
    ensures Climb(f, root, c, d) == Climb(Reinsert(f, p, c, d), root, p, d)
  {
    ReinsertRooted(f, root, p, c, d);
  }

  lemma SoundRooted<E>(f: Forest<E>, root: E, c: E, d: int)
    requires SoundBut(f, root, c, d)
    ensures Rooted(f, root) && Housed(f) && Sized(f, c, d) && Hashed(f)
  {
  }

  /** Where a child is filed. */
  lemma FiledUnder<E>(f: Forest<E>, p: E, c: E, hole: E, d: int)
    requires p in f && Binned(f, p) && Sized(f, hole, d)
    requires c in f && f[c].parent == Some(p)
    ensures Bag(f[p].bins)[c] == 1
    ensures c in Held(f[p].bins, Filed(f, hole, d, c))
  {
    var s := KidFiled(f, p, c);
  }

  /** The same entries under the same parents. */
  ghost predicate SameKin<E>(f: Forest<E>, g: Forest<E>) {
    f.Keys == g.Keys && forall e :: e in f ==> g[e].parent == f[e].parent && g[e].depth == f[e].depth
  }

  lemma SameKinKids<E>(f: Forest<E>, g: Forest<E>, p: E)
    requires SameKin(f, g)
    ensures Kids(f, p) == Kids(g, p)
  {
  }

  lemma SameKinRooted<E>(f: Forest<E>, g: Forest<E>, root: E)
    requires SameKin(f, g) && Rooted(f, root)
    ensures Rooted(g, root)
  {
    forall e | e in g
      ensures Placed(g, root, e)
    {
      assert Placed(f, root, e);
    }
  }

  lemma SameKinHoused<E>(f: Forest<E>, g: Forest<E>)
    requires SameKin(f, g) && Housed(f)
    requires forall p :: p in f ==> Proper(g[p].bins) && Bag(g[p].bins) == Bag(f[p].bins)
    ensures Housed(g)
  {
    forall p | p in g
      ensures Binned(g, p)
    {
      assert Binned(f, p);
      SameKinKids(f, g, p);
    }
  }

  /** `p` with another size and other bins. */
  ghost function WithBins<E>(f: Forest<E>, p: E, size: int, bins: seq<Bin<E>>): Forest<E>
    requires p in f
  {
    f[p := f[p].(bins := bins, size := size)]
  }

  /** Reinserting a child restores the parent link and the path hash it had. */
  lemma RebinIsWithBins<E>(f: Forest<E>, p: E, c: E, d: int, bins: seq<Bin<E>>)
    requires c in f && p in f && p != c && f[c].parent == Some(p) && HashedAt(f, c)
    ensures Rebin(f, p, c, d, bins) == WithBins(f, p, f[p].size + d, bins)
  {
    assert f[c] == f[c].(parent := Some(p), pathCrc := Xor(f[p].pathCrc, f[c].nameCrc));
  }

  lemma WithBinsHoused<E>(f: Forest<E>, p: E, size: int, bins: seq<Bin<E>>)
    requires Housed(f) && p in f
    requires Proper(bins) && Bag(bins) == Bag(f[p].bins)
    ensures Housed(WithBins(f, p, size, bins))
  {
    var g := WithBins(f, p, size, bins);
    forall q | q in f
      ensures Proper(g[q].bins) && Bag(g[q].bins) == Bag(f[q].bins)
    {
      assert Binned(f, q);
    }
    SameKinHoused(f, g);
  }

  lemma SameShapeHashed<E>(f: Forest<E>, g: Forest<E>)
    requires SameShape(f, g) && Hashed(f)
    ensures Hashed(g)
  {
    forall e | e in g
      ensures HashedAt(g, e)
    {
      assert HashedAt(f, e);
    }
  }

  lemma WithBinsSized<E>(f: Forest<E>, p: E, c: E, d: int, bins: seq<Bin<E>>)
    requires Housed(f) && Sized(f, c, d)
    requires c in f && p in f && p != c && f[c].parent == Some(p) && f[p].parent != Some(p)
    requires Refiled(f[p].bins, bins, f[c].size - d, f[c].size, c)
    ensures Sized(WithBins(f, p, f[p].size + d, bins), p, d)
  {
    var g := WithBins(f, p, f[p].size + d, bins);
    forall q, s, e | q in g && e in g && FiledAt(g[q].bins, s, e)
      ensures s == Filed(g, p, d, e)
    {
      if q == p {
        FiledInBag(bins, s, e);
      }
      if q != p || e != c {
        assert FiledAt(f[q].bins, s, e);
        assert Binned(f, q);
        Kin(f, q, s, e);
      }
    }
  }

  lemma WithBinsSound<E>(f: Forest<E>, root: E, p: E, c: E, d: int, bins: seq<Bin<E>>)
    requires SoundBut(f, root, c, d) && c in f && c != root && f[c].parent == Some(p)
    requires p in f && Refiled(f[p].bins, bins, f[c].size - d, f[c].size, c)
    ensures SoundBut(WithBins(f, p, f[p].size + d, bins), root, p, d)
    ensures SameShape(f, WithBins(f, p, f[p].size + d, bins))
  {
    var g := WithBins(f, p, f[p].size + d, bins);
    assert Placed(f, root, c) && Placed(f, root, p);
    SameShapeHashed(f, g);
    SameKinRooted(f, g, root);
    WithBinsHoused(f, p, f[p].size + d, bins);
    WithBinsSized(f, p, c, d, bins);
  }

  lemma BinsRefiled<E>(f: Forest<E>, p: E, c: E, d: int)
    requires p in f && Binned(f, p) && Sized(f, c, d)
    requires c in f && f[c].parent == Some(p)
    ensures Refiled(f[p].bins, Refile(f[p].bins, f[c].size - d, f[c].size, c), f[c].size - d, f[c].size, c)
  {
    hide Refile, Refiled;
    FiledUnder(f, p, c, c, d);
    RefileRefiles(f[p].bins, f[c].size - d, f[c].size, c);
  }

  /** What one reinsertion amounts to. */
  lemma ReinsertIsWithBins<E>(f: Forest<E>, root: E, p: E, c: E, d: int) returns (bins: seq<Bin<E>>)
    requires SoundBut(f, root, c, d) && c in f && c != root && f[c].parent == Some(p)
    ensures p in f && p != c
    ensures Refiled(f[p].bins, bins, f[c].size - d, f[c].size, c)
    ensures Reinsert(f, p, c, d) == WithBins(f, p, f[p].size + d, bins)
  {
    assert Placed(f, root, c) && HashedAt(f, c);
    assert Placed(f, root, p) && Binned(f, p);
    BinsRefiled(f, p, c, d);
    bins := Refile(f[p].bins, f[c].size - d, f[c].size, c);
    RebinIsWithBins(f, p, c, d, bins);
  }

  /** One step of the repair: the hole moves from `c` to its parent. */
  lemma ReinsertSound<E>(f: Forest<E>, root: E, p: E, c: E, d: int)
    requires SoundBut(f, root, c, d) && c in f && c != root && f[c].parent == Some(p)
    ensures p in f
    ensures SoundBut(Reinsert(f, p, c, d), root, p, d)
    ensures SameShape(f, Reinsert(f, p, c, d))
    ensures Own(Reinsert(f, p, c, d)[p]) == Own(f[p])
    ensures forall e :: e in f && e != p ==> Reinsert(f, p, c, d)[e] == f[e]
    ensures Reinsert(f, p, c, d)[p].size == f[p].size + d
  {
    var bins := ReinsertIsWithBins(f, root, p, c, d);
    WithBinsSound(f, root, p, c, d, bins);
  }

  lemma SoundAgain<E>(f: Forest<E>, root: E, c: E, d: int)
    requires SoundBut(f, root, c, d) && (c == root || d == 0)
    ensures Sound(f, root)
  {
    assert Placed(f, root, root);
    forall p, s, e | p in f && e in f && FiledAt(f[p].bins, s, e)
      ensures s == Filed(f, root, 0, e)
    {
      assert Binned(f, p);
      Kin(f, p, s, e);
    }
  }

  /** `a` is a proper ancestor of `x`. */
  ghost predicate Above<E>(f: Forest<E>, root: E, a: E, x: E)
    requires Rooted(f, root) && x in f
  {
    assert Placed(f, root, x);
    x != root && Anc(f, root, a, f[x].parent.value)
  }

  lemma {:induction false} SameKinAnc<E>(f: Forest<E>, g: Forest<E>, root: E, a: E, x: E)
    requires Rooted(f, root) && Rooted(g, root) && SameKin(f, g) && x in f
    ensures Anc(f, root, a, x) <==> Anc(g, root, a, x)
    decreases f[x].depth
  {
    assert Placed(f, root, x);
    if x != a && x != root {
      SameKinAnc(f, g, root, a, f[x].parent.value);
    }
  }

  lemma {:induction false} AncShallow<E>(f: Forest<E>, root: E, a: E, x: E)
    requires Rooted(f, root) && x in f && Anc(f, root, a, x)
    ensures a in f && f[a].depth <= f[x].depth
    ensures a != x ==> f[a].depth < f[x].depth
    decreases f[x].depth
  {
    assert Placed(f, root, x);
    if x != a {
      AncShallow(f, root, a, f[x].parent.value);
    }
  }

  /** What the repair of `c`'s ancestors leaves of an entry `e`. */
  ghost predicate Repaired<E>(f: Forest<E>, g: Forest<E>, root: E, c: E, d: int, e: E)
    requires Rooted(f, root) && c in f && e in f && e in g
  {
    && Own(g[e]) == Own(f[e])
    && (if Above(f, root, e, c) then g[e].size == f[e].size + d else g[e] == f[e])
  }

  /**
   A size change repairs the whole ancestor chain: the tree is sound again, every proper
   ancestor of `c` has grown by `d`, no own size has changed, and all other entries are as before.
   */
  lemma {:induction false} ClimbSound<E>(f: Forest<E>, root: E, c: E, d: int)
    requires SoundBut(f, root, c, d) && c in f
    ensures Sound(Climb(f, root, c, d), root)
    ensures SameShape(f, Climb(f, root, c, d))
    ensures forall e :: e in f ==> Repaired(f, Climb(f, root, c, d), root, c, d, e)
    decreases f[c].depth
  {
    var g := Climb(f, root, c, d);
    if c == root || d == 0 {
      SoundAgain(f, root, c, d);
    } else {
      assert Placed(f, root, c);
      var p := f[c].parent.value;
      var h := Reinsert(f, p, c, d);
      ReinsertSound(f, root, p, c, d);
      ClimbSound(h, root, p, d);
      forall e | e in f
        ensures Repaired(f, g, root, c, d, e)
      {
        ClimbStep(f, h, g, root, p, c, d, e);
      }
    }
  }

  lemma ClimbStep<E>(f: Forest<E>, h: Forest<E>, g: Forest<E>, root: E, p: E, c: E, d: int, e: E)
    requires Rooted(f, root) && Rooted(h, root) && SameShape(f, h) && e in f && e in g
    requires c in f && c != root && f[c].parent == Some(p) && p in f
    requires if e == p then Own(h[p]) == Own(f[p]) && h[p].size == f[p].size + d else h[e] == f[e]
    requires Repaired(h, g, root, p, d, e)
    ensures Repaired(f, g, root, c, d, e)
  {
    assert Placed(f, root, p) && Placed(h, root, p);
    if p != root {
      SameKinAnc(f, h, root, e, f[p].parent.value);
    }
    if e == p && p != root && Anc(f, root, p, f[p].parent.value) {
      AncShallow(f, root, p, f[p].parent.value);
    }
  }

  // ------------------------------------------------------------------- setSize

  /** `e` with a new size, and the change carried up to the root. */
  ghost function Resize<E>(f: Forest<E>, root: E, e: E, size: int): Forest<E>
    requires Rooted(f, root) && e in f
  {
    ResizeRooted(f, root, e, size);
    Climb(f[e := f[e].(size := size)], root, e, size - f[e].size)
  }

  lemma ResizeRooted<E>(f: Forest<E>, root: E, e: E, size: int)
    requires Rooted(f, root) && e in f
    ensures Rooted(f[e := f[e].(size := size)], root)
  {
    SameKinRooted(f, f[e := f[e].(size := size)], root);
  }

  lemma ResizeHole<E>(f: Forest<E>, root: E, e: E, size: int)
    requires Sound(f, root) && e in f
    ensures SoundBut(f[e := f[e].(size := size)], root, e, size - f[e].size)
    ensures SameShape(f, f[e := f[e].(size := size)])
  {
    var g := f[e := f[e].(size := size)];
    ResizeRooted(f, root, e, size);
    SameShapeHashed(f, g);
    SameBinsHoused(f, g);
  }

  // ------------------------------------------------------------------- addChild

  /** A new childless entry `c` under `p`, before the change of size is carried up. */
  ghost function Attach<E>(f: Forest<E>, p: E, c: E, n: Node<E>, bins: seq<Bin<E>>): Forest<E>
    requires p in f
  {
    f[c := n.(parent := Some(p), pathCrc := Xor(f[p].pathCrc, n.nameCrc), depth := f[p].depth + 1)]
     [p := f[p].(bins := bins, size := f[p].size + n.size)]
  }

  ghost predicate Attachable<E>(f: Forest<E>, root: E, p: E, c: E, n: Node<E>) {
    Rooted(f, root) && p in f && c !in f && n.bins == []
  }

  lemma AttachRooted<E>(f: Forest<E>, root: E, p: E, c: E, n: Node<E>, bins: seq<Bin<E>>)
    requires Attachable(f, root, p, c, n)
    ensures Rooted(Attach(f, p, c, n, bins), root)
  {
    var g := Attach(f, p, c, n, bins);
    forall e | e in g
      ensures Placed(g, root, e)
    {
      if e != c {
        assert Placed(f, root, e);
      }
    }
  }

  ghost function AddLeaf<E>(f: Forest<E>, root: E, p: E, c: E, n: Node<E>): Forest<E>
    requires Attachable(f, root, p, c, n)
  {
    var bins := Insert(f[p].bins, n.size, c);
    AttachRooted(f, root, p, c, n, bins);
    Climb(Attach(f, p, c, n, bins), root, p, n.size)
  }

  lemma AddLeafClimbs<E>(f: Forest<E>, root: E, p: E, c: E, n: Node<E>)
    requires Attachable(f, root, p, c, n)
    ensures Rooted(Attach(f, p, c, n, Insert(f[p].bins, n.size, c)), root)
    ensures p in Attach(f, p, c, n, Insert(f[p].bins, n.size, c))
    ensures AddLeaf(f, root, p, c, n) == Climb(Attach(f, p, c, n, Insert(f[p].bins, n.size, c)), root, p, n.size)
  {
    AttachRooted(f, root, p, c, n, Insert(f[p].bins, n.size, c));
  }

  lemma AttachKids<E>(f: Forest<E>, root: E, p: E, c: E, n: Node<E>, bins: seq<Bin<E>>, q: E)
    requires Attachable(f, root, p, c, n)
    ensures Kids(Attach(f, p, c, n, bins), q) == if q == p then Kids(f, p) + {c} else Kids(f, q)
  {
  }

  lemma AttachHoused<E>(f: Forest<E>, root: E, p: E, c: E, n: Node<E>, bins: seq<Bin<E>>)
    requires Attachable(f, root, p, c, n) && Housed(f)
    requires Proper(bins) && Bag(bins) == Bag(f[p].bins) + multiset{c}
    ensures Housed(Attach(f, p, c, n, bins))
  {
    assert Binned(f, p);
    var g := Attach(f, p, c, n, bins);
    forall q | q in g
      ensures Binned(g, q)
    {
      assert q in f ==> Binned(f, q);
      AttachBinned(f, root, p, c, n, bins, q);
    }
  }

  lemma AttachBinned<E>(f: Forest<E>, root: E, p: E, c: E, n: Node<E>, bins: seq<Bin<E>>, q: E)
    requires Attachable(f, root, p, c, n) && (q in f ==> Binned(f, q)) && Binned(f, p)
    requires Proper(bins) && Bag(bins) == Bag(f[p].bins) + multiset{c}
    requires q in f || q == c
    ensures q in Attach(f, p, c, n, bins)
    ensures Binned(Attach(f, p, c, n, bins), q)
  {
    hide Attach, Bag, Kids, Proper, Rooted, Placed;
    AttachKids(f, root, p, c, n, bins, q);
    AttachBins(f, p, c, n, bins, q);
    if q == c {
      NoKidsOf(f, root, c);
      EmptyBag<E>();
    } else {
      NotAKid(f, q, c);
      assert multiset(Kids(f, q) + {c}) == multiset(Kids(f, q)) + multiset{c};
    }
  }

  lemma AttachBins<E>(f: Forest<E>, p: E, c: E, n: Node<E>, bins: seq<Bin<E>>, q: E)
    requires p in f && c !in f && (q in f || q == c)
    ensures q in Attach(f, p, c, n, bins)
    ensures Attach(f, p, c, n, bins)[q].bins == if q == p then bins else if q == c then n.bins else f[q].bins
  {
  }

  lemma NotAKid<E>(f: Forest<E>, q: E, c: E)
    requires c !in f
    ensures c !in Kids(f, q)
  {
  }

  /** An entry outside the tree has no children in it. */
  lemma NoKidsOf<E>(f: Forest<E>, root: E, c: E)
    requires Rooted(f, root) && c !in f
    ensures Kids(f, c) == {}
  {
    forall e | e in f
      ensures f[e].parent != Some(c)
    {
      assert Placed(f, root, e);
    }
  }

  lemma AttachSized<E>(f: Forest<E>, root: E, p: E, c: E, n: Node<E>, bins: seq<Bin<E>>)
    requires Attachable(f, root, p, c, n) && Housed(f) && Sized(f, root, 0)
    requires forall u, e :: e in Bag(bins) && FiledAt(bins, u, e) ==>
               (e == c && u == n.size) || FiledAt(f[p].bins, u, e)
    ensures Sized(Attach(f, p, c, n, bins), p, n.size)
  {
    var g := Attach(f, p, c, n, bins);
    assert Placed(f, root, p);
    forall q, s, e | q in g && e in g && FiledAt(g[q].bins, s, e)
      ensures s == Filed(g, p, n.size, e)
    {
      FiledInBag(g[q].bins, s, e);
      if q == p && e == c && !FiledAt(f[p].bins, s, e) {
      } else if q != c {
        assert Binned(f, q);
        Kin(f, q, s, e);
      }
    }
  }

  lemma AttachHashed<E>(f: Forest<E>, root: E, p: E, c: E, n: Node<E>, bins: seq<Bin<E>>)
    requires Attachable(f, root, p, c, n) && Hashed(f)
    ensures Hashed(Attach(f, p, c, n, bins))
  {
    var g := Attach(f, p, c, n, bins);
    forall e | e in g
      ensures HashedAt(g, e)
    {
      if e != c {
        assert HashedAt(f, e);
      }
    }
  }

  lemma AttachHole<E>(f: Forest<E>, root: E, p: E, c: E, n: Node<E>)
    requires Sound(f, root) && Attachable(f, root, p, c, n)
    ensures SoundBut(Attach(f, p, c, n, Insert(f[p].bins, n.size, c)), root, p, n.size)
    ensures Total(Insert(f[p].bins, n.size, c)) == Total(f[p].bins) + n.size
  {
    var bins := Insert(f[p].bins, n.size, c);
    assert Binned(f, p);
    InsertInserts(f[p].bins, n.size, c);
    hide Insert;
    AttachRooted(f, root, p, c, n, bins);
    AttachHoused(f, root, p, c, n, bins);
    AttachSized(f, root, p, c, n, bins);
    AttachHashed(f, root, p, c, n, bins);
  }

  // --------------------------------------------------------- removePendingDelete

  /** Everything at or below an entry in `dead`. */
  ghost function Doomed<E>(f: Forest<E>, root: E, dead: set<E>): set<E>
    requires Rooted(f, root)
  {
    set x | x in f && exists d :: d in dead && Anc(f, root, d, x)
  }

  /** The tree without what is at or below `dead`, and with other bins and another size for `p`. */
  ghost function Prune<E>(f: Forest<E>, root: E, p: E, dead: set<E>, bins: seq<Bin<E>>, size: int): Forest<E>
    requires Rooted(f, root) && p in f
  {
    map e | e in f && e !in Doomed(f, root, dead) ::
      if e == p then f[p].(bins := bins, size := size) else f[e]
  }

  /** How much smaller `p` gets: the source only passes on a positive loss. */
  ghost function Loss<E>(bins: seq<Bin<E>>, dead: set<E>): int {
    var lost := Total(bins) - Total(Sweep(bins, dead));
    if lost > 0 then lost else 0
  }

  ghost function RemoveKids<E>(f: Forest<E>, root: E, p: E, dead: set<E>): Forest<E>
    requires Rooted(f, root) && p in f && dead <= Kids(f, p)
  {
    var lost := Loss(f[p].bins, dead);
    PruneRooted(f, root, p, dead, Sweep(f[p].bins, dead), f[p].size - lost);
    Climb(Prune(f, root, p, dead, Sweep(f[p].bins, dead), f[p].size - lost), root, p, -lost)
  }

  lemma RemoveKidsClimbs<E>(f: Forest<E>, root: E, p: E, dead: set<E>)
    requires Rooted(f, root) && p in f && dead <= Kids(f, p)
    ensures var lost := Loss(f[p].bins, dead);
            var g := Prune(f, root, p, dead, Sweep(f[p].bins, dead), f[p].size - lost);
            && p in g && Rooted(g, root)
            && RemoveKids(f, root, p, dead) == Climb(g, root, p, -lost)
  {
    PruneRooted(f, root, p, dead, Sweep(f[p].bins, dead), f[p].size - Loss(f[p].bins, dead));
  }

  lemma DoomedInside<E>(f: Forest<E>, root: E, p: E, dead: set<E>)
    requires Rooted(f, root) && p in f && dead <= Kids(f, p)
    ensures p !in Doomed(f, root, dead) && root !in Doomed(f, root, dead)
    ensures Doomed(f, root, dead) <= f.Keys
  {
    DoomedKids(f, root, p, dead, root);
  }

  /** A parent whose children are dead is not doomed, and below it only the dead children are. */
  lemma DoomedKids<E>(f: Forest<E>, root: E, p: E, dead: set<E>, e: E)
    requires Rooted(f, root) && p in f && dead <= Kids(f, p) && e in f
    ensures p !in Doomed(f, root, dead) && root !in Doomed(f, root, dead)
    ensures e != root ==> f[e].parent.Some? && f[e].parent.value in f
    ensures e in Doomed(f, root, dead) <==>
              e in dead || (e != root && f[e].parent.value in Doomed(f, root, dead))
    ensures e in Doomed(f, root, dead) ==> (f[e].parent == Some(p) <==> e in dead)
  {
    assert Placed(f, root, e) && Placed(f, root, root);
    forall d, x | d in dead && (x == p || x == root)
      ensures !Anc(f, root, d, x)
    {
      assert d in Kids(f, p) && Placed(f, root, d);
      if Anc(f, root, d, x) {
        AncShallow(f, root, d, x);
      }
    }
  }

  lemma PruneRooted<E>(f: Forest<E>, root: E, p: E, dead: set<E>, bins: seq<Bin<E>>, size: int)
    requires Rooted(f, root) && p in f && dead <= Kids(f, p)
    ensures p in Prune(f, root, p, dead, bins, size)
    ensures Rooted(Prune(f, root, p, dead, bins, size), root)
  {
    var g := Prune(f, root, p, dead, bins, size);
    DoomedKids(f, root, p, dead, root);
    forall e | e in g
      ensures Placed(g, root, e)
    {
      assert Placed(f, root, e);
      DoomedKids(f, root, p, dead, e);
    }
  }

  lemma PruneKids<E>(f: Forest<E>, root: E, p: E, dead: set<E>, bins: seq<Bin<E>>, size: int, q: E)
    requires Rooted(f, root) && p in f && dead <= Kids(f, p) && q in Prune(f, root, p, dead, bins, size)
    ensures Kids(Prune(f, root, p, dead, bins, size), q) == if q == p then Kids(f, p) - dead else Kids(f, q)
  {
    forall e | e in f && f[e].parent == Some(q)
      ensures e in Doomed(f, root, dead) <==> q == p && e in dead
    {
      DoomedKids(f, root, p, dead, e);
      assert Placed(f, root, e);
    }
  }

  lemma PruneHoused<E>(f: Forest<E>, root: E, p: E, dead: set<E>, bins: seq<Bin<E>>, size: int)
    requires Rooted(f, root) && Housed(f) && p in f && dead <= Kids(f, p)
    requires Proper(bins)
    requires forall e :: Bag(bins)[e] == if e in dead then 0 else Bag(f[p].bins)[e]
    ensures Housed(Prune(f, root, p, dead, bins, size))
  {
    var g := Prune(f, root, p, dead, bins, size);
    forall q | q in g
      ensures Binned(g, q)
    {
      assert Binned(f, q);
      PruneKids(f, root, p, dead, bins, size, q);
      if q == p {
        WithoutDead(Bag(bins), Bag(f[p].bins), Kids(f, p), dead);
      }
    }
  }

  lemma PruneSized<E>(f: Forest<E>, root: E, p: E, dead: set<E>, bins: seq<Bin<E>>, d: int)
    requires Rooted(f, root) && Sized(f, root, 0) && p in f && dead <= Kids(f, p)
    requires forall u, e :: e in Bag(bins) && FiledAt(bins, u, e) ==> FiledAt(f[p].bins, u, e)
    ensures Sized(Prune(f, root, p, dead, bins, f[p].size + d), p, d)
  {
    var g := Prune(f, root, p, dead, bins, f[p].size + d);
    forall q, s, e | q in g && e in g && FiledAt(g[q].bins, s, e)
      ensures s == Filed(g, p, d, e)
    {
      FiledInBag(g[q].bins, s, e);
      assert FiledAt(f[q].bins, s, e);
    }
  }

  lemma PruneHashed<E>(f: Forest<E>, root: E, p: E, dead: set<E>, bins: seq<Bin<E>>, size: int)
    requires Rooted(f, root) && Hashed(f) && p in f && dead <= Kids(f, p)
    ensures Hashed(Prune(f, root, p, dead, bins, size))
  {
    var g := Prune(f, root, p, dead, bins, size);
    forall e | e in g
      ensures HashedAt(g, e)
    {
      assert HashedAt(f, e);
      DoomedKids(f, root, p, dead, e);
      assert Placed(f, root, e);
    }
  }

  lemma PruneHole<E>(f: Forest<E>, root: E, p: E, dead: set<E>, d: int)
    requires Sound(f, root) && p in f && dead <= Kids(f, p)
    ensures SoundBut(Prune(f, root, p, dead, Sweep(f[p].bins, dead), f[p].size + d), root, p, d)
  {
    var bins := Sweep(f[p].bins, dead);
    assert Binned(f, p);
    SweepSweeps(f[p].bins, dead);
    hide Sweep;
    PruneRooted(f, root, p, dead, bins, f[p].size + d);
    PruneHoused(f, root, p, dead, bins, f[p].size + d);
    PruneSized(f, root, p, dead, bins, d);
    PruneHashed(f, root, p, dead, bins, f[p].size + d);
  }
}
