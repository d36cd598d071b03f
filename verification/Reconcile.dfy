/** Bringing the children of one directory in line with a fresh listing, seen on the tree as a value. */
module Reconcile {
  import opened Crcs
  import opened Options
  import opened SizeBins
  import opened Forest
  import opened Trees

  datatype Item = Item(dir: bool, size: int)

  /** A listing: the names found in a directory, and what is found under them. */
  type Listing = map<string, Item>

  ghost predicate HasChild<E>(f: Forest<E>, p: E, n: string) {
    exists e :: e in f && f[e].parent == Some(p) && f[e].name == n
  }

  /** `x` is `p` or above it, in the tree as it was. */
  ghost predicate OnPath<E>(f0: Forest<E>, root: E, p: E, x: E)
    requires Rooted(f0, root) && p in f0
  {
    x in f0 && Anc(f0, root, x, p)
  }

  /** Only size and bins may differ, and the own size does not; off the path to `p` nothing differs. */
  ghost predicate Steady<E>(f0: Forest<E>, f: Forest<E>, g: Forest<E>, root: E, p: E, x: E)
    requires Rooted(f0, root) && p in f0
  {
    && x in f && x in g
    && g[x] == f[x].(size := g[x].size, bins := g[x].bins)
    && Own(g[x]) == Own(f[x])
    && (!OnPath(f0, root, p, x) ==> g[x] == f[x])
  }

  /** What has become of an entry that was there before, now that the names in `done` are dealt with. */
  ghost predicate OldOk<E>(f0: Forest<E>, f: Forest<E>, root: E, p: E, listing: Listing, done: set<string>, e: E)
    requires Rooted(f0, root) && p in f0 && e in f0 && e in f && done <= listing.Keys
  {
    if f0[e].parent != Some(p) then
      Steady(f0, f0, f, root, p, e)
    else if f0[e].name !in done then
      f[e] == f0[e].(marked := true)
    else if f0[e].dir then
      f[e] == f0[e].(marked := false)
    else
      f[e] == f0[e].(marked := false, size := listing[f0[e].name].size)
  }

  /** A new entry is an unmarked childless child of `p`, just as listed. */
  ghost predicate NewOk<E>(f: Forest<E>, p: E, listing: Listing, done: set<string>, e: E)
    requires e in f && done <= listing.Keys
  {
    && f[e].parent == Some(p) && f[e].bins == [] && !f[e].marked
    && f[e].name in done
    && f[e].dir == listing[f[e].name].dir && f[e].size == listing[f[e].name].size
  }

  /** The reconciliation of `p`'s children has dealt with the names in `done`. */
  ghost predicate Progress<E>(f0: Forest<E>, f: Forest<E>, root: E, p: E, listing: Listing, done: set<string>) {
    && Rooted(f0, root) && p in f0 && Sound(f, root) && Named(f)
    && f0.Keys <= f.Keys && done <= listing.Keys
    && (forall e {:trigger OldOk(f0, f, root, p, listing, done, e)} :: e in f0 ==>
        OldOk(f0, f, root, p, listing, done, e))
    && (forall e {:trigger NewOk(f, p, listing, done, e)} :: e in f && e !in f0 ==> NewOk(f, p, listing, done, e))
    && (forall n {:trigger HasChild(f, p, n)} :: n in done ==> HasChild(f, p, n))
  }

  // -------------------------------------------------------------------- the start

  /** All children of `p` marked for deletion. */
  ghost function MarkKids<E>(f: Forest<E>, p: E): Forest<E> {
    map e | e in f :: if f[e].parent == Some(p) then f[e].(marked := true) else f[e]
  }

  /** Marks do not matter for the soundness of a tree. */
  lemma SameButMarks<E>(f: Forest<E>, g: Forest<E>, root: E)
    requires Sound(f, root) && f.Keys == g.Keys
    requires forall e :: e in f ==> g[e] == f[e].(marked := g[e].marked)
    ensures Sound(g, root)
    ensures Named(f) ==> Named(g)
  {
    SameKinRooted(f, g, root);
    SameBinsHoused(f, g);
    forall e | e in g
      ensures HashedAt(g, e)
    {
      assert HashedAt(f, e);
    }
  }

  lemma StartProgress<E>(f: Forest<E>, root: E, p: E, listing: Listing)
    requires Sound(f, root) && Named(f) && p in f
    ensures Progress(f, MarkKids(f, p), root, p, listing, {})
  {
    var g := MarkKids(f, p);
    SameButMarks(f, g, root);
    forall e | e in f
      ensures OldOk(f, g, root, p, listing, {}, e)
    {
    }
  }

  // --------------------------------------------------------------------- one item

  /** The child of `p` with the name of the item, which is not dealt with yet, was there from the start. */
  lemma KeptIsOld<E>(f0: Forest<E>, f: Forest<E>, root: E, p: E, listing: Listing, done: set<string>, e: E)
    requires Progress(f0, f, root, p, listing, done)
    requires e in f && f[e].parent == Some(p) && f[e].name !in done
    ensures e in f0 && OldOk(f0, f, root, p, listing, done, e) && f0[e].parent == Some(p)
  {
    assert e !in f0 ==> NewOk(f, p, listing, done, e);
    assert e in f0 ==> OldOk(f0, f, root, p, listing, done, e);
  }

  /** The entries that were there at the start keep their place. */
  lemma OldKin<E>(f0: Forest<E>, f: Forest<E>, root: E, p: E, listing: Listing, done: set<string>, e: E)
    requires Progress(f0, f, root, p, listing, done) && e in f0
    ensures e in f && f[e].parent == f0[e].parent && f[e].name == f0[e].name && f[e].dir == f0[e].dir
    ensures f[e].depth == f0[e].depth && f[e].pathCrc == f0[e].pathCrc && f[e].nameCrc == f0[e].nameCrc
  {
    assert OldOk(f0, f, root, p, listing, done, e);
  }

  /** Going up from an old entry one meets the same entries as at the start. */
  lemma {:induction false} AncBack<E>(f0: Forest<E>, f: Forest<E>, root: E, p: E, listing: Listing, done: set<string>,
                                      x: E, e: E)
    requires Progress(f0, f, root, p, listing, done) && e in f0 && e in f
    ensures Anc(f, root, x, e) <==> x in f0 && Anc(f0, root, x, e)
    decreases f0[e].depth
  {
    OldKin(f0, f, root, p, listing, done, e);
    assert Placed(f0, root, e) && Placed(f, root, e);
    if x != e && e != root {
      AncBack(f0, f, root, p, listing, done, x, f0[e].parent.value);
    }
  }

  lemma SteadyOld<E>(f0: Forest<E>, f: Forest<E>, g: Forest<E>, root: E, p: E, listing: Listing, done: set<string>,
                     n: string, x: E)
    requires Rooted(f0, root) && p in f0 && x in f0 && x in f && done <= listing.Keys && n in listing && n !in done
    requires OldOk(f0, f, root, p, listing, done, x) && Steady(f0, f, g, root, p, x)
    requires f0[x].parent == Some(p) ==> f0[x].name != n
    ensures OldOk(f0, g, root, p, listing, done + {n}, x)
  {
    if f0[x].parent == Some(p) {
      KidOffPath(f0, root, p, x);
    }
  }

  lemma KidOffPath<E>(f0: Forest<E>, root: E, p: E, x: E)
    requires Rooted(f0, root) && p in f0 && x in f0 && f0[x].parent == Some(p)
    ensures !OnPath(f0, root, p, x)
  {
    assert Placed(f0, root, x);
    if Anc(f0, root, x, p) {
      AncShallow(f0, root, x, p);
    }
  }

  /** From one step to the next: entries may change size, and `e` is dealt with. */
  lemma NextProgress<E>(f0: Forest<E>, f: Forest<E>, g: Forest<E>, root: E, p: E, listing: Listing, done: set<string>,
                        e: E, n: string)
    requires Progress(f0, f, root, p, listing, done) && n in listing && n !in done
    requires e in f && f[e].parent == Some(p) && f[e].name == n
    requires Sound(g, root) && g.Keys == f.Keys
    requires forall x :: x in f && x != e ==> Steady(f0, f, g, root, p, x)
    requires g[e] == f[e].(marked := false, size := if f[e].dir then f[e].size else listing[n].size)
    ensures Progress(f0, g, root, p, listing, done + {n})
  {
    KeptIsOld(f0, f, root, p, listing, done, e);
    forall x | x in f0
      ensures OldOk(f0, g, root, p, listing, done + {n}, x)
    {
      assert OldOk(f0, f, root, p, listing, done, x);
      if x != e {
        assert Steady(f0, f, g, root, p, x);
        SteadyOld(f0, f, g, root, p, listing, done, n, x);
      }
    }
    forall x | x in g && x !in f0
      ensures NewOk(g, p, listing, done + {n}, x)
    {
      assert NewOk(f, p, listing, done, x) && Steady(f0, f, g, root, p, x);
    }
    forall m | m in done + {n}
      ensures HasChild(g, p, m)
    {
      if m in done {
        SteadyChild(f0, f, g, root, p, e, m);
      }
    }
    SteadyNamed(f0, f, g, root, p, e);
  }

  lemma SteadyChild<E>(f0: Forest<E>, f: Forest<E>, g: Forest<E>, root: E, p: E, e: E, m: string)
    requires Rooted(f0, root) && p in f0
    requires HasChild(f, p, m)
    requires forall x :: x in f && x != e ==> Steady(f0, f, g, root, p, x)
    requires e in f ==> e in g && g[e].parent == f[e].parent && g[e].name == f[e].name
    ensures HasChild(g, p, m)
  {
    var x :| x in f && f[x].parent == Some(p) && f[x].name == m;
    assert x != e ==> Steady(f0, f, g, root, p, x);
  }

  lemma SteadyNamed<E>(f0: Forest<E>, f: Forest<E>, g: Forest<E>, root: E, p: E, e: E)
    requires Rooted(f0, root) && p in f0
    requires Named(f) && g.Keys == f.Keys + {e}
    requires forall x :: x in f && x != e ==> Steady(f0, f, g, root, p, x)
    requires if e in f then g[e].parent == f[e].parent && g[e].name == f[e].name
             else g[e].parent == Some(p) && !HasChild(f, p, g[e].name)
    ensures Named(g)
  {
    forall a, b | a in g && b in g && g[a].parent.Some? && g[a].parent == g[b].parent && g[a].name == g[b].name
      ensures a == b
    {
      assert a != e ==> Steady(f0, f, g, root, p, a);
      assert b != e ==> Steady(f0, f, g, root, p, b);
    }
  }

  ghost function Unmark<E>(f: Forest<E>, e: E): Forest<E>
    requires e in f
  {
    f[e := f[e].(marked := false)]
  }

  /** A kept directory, or a kept file of the same size. */
  lemma KeepProgress<E>(f0: Forest<E>, f: Forest<E>, root: E, p: E, listing: Listing, done: set<string>, e: E,
                        n: string)
    requires Progress(f0, f, root, p, listing, done) && n in listing && n !in done
    requires e in f && f[e].parent == Some(p) && f[e].name == n
    requires f[e].dir || f[e].size == listing[n].size
    ensures Progress(f0, Unmark(f, e), root, p, listing, done + {n})
  {
    SameButMarks(f, Unmark(f, e), root);
    NextProgress(f0, f, Unmark(f, e), root, p, listing, done, e, n);
  }

  /** Off the path to `p` now means off the path at the start. */
  lemma SteadyBack<E>(f0: Forest<E>, f: Forest<E>, g: Forest<E>, root: E, p: E, listing: Listing, done: set<string>,
                      x: E)
    requires Progress(f0, f, root, p, listing, done) && p in f && Steady(f, f, g, root, p, x)
    ensures Steady(f0, f, g, root, p, x)
  {
    AncBack(f0, f, root, p, listing, done, x, p);
  }

  /** What `setSize` does to the rest of the tree. */
  lemma ResizeSound<E>(f: Forest<E>, root: E, p: E, e: E, size: int)
    requires Sound(f, root) && p in f && e in f && f[e].parent == Some(p)
    ensures Sound(Resize(f, root, e, size), root)
    ensures Resize(f, root, e, size).Keys == f.Keys
    ensures forall x :: x in f && x != e ==> Steady(f, f, Resize(f, root, e, size), root, p, x)
    ensures Resize(f, root, e, size)[e] == f[e].(size := size)
  {
    var h, d := f[e := f[e].(size := size)], size - f[e].size;
    var g := Resize(f, root, e, size);
    ResizeHole(f, root, e, size);
    ClimbSound(h, root, e, d);
    assert Rooted(h, root) && g == Climb(h, root, e, d);
    hide Resize, Sound, SoundBut, Repaired, Steady, Own, Climb, Rooted, Anc, Above;
    SelfUnmoved(h, g, root, e, d);
    forall x | x in f && x != e
      ensures Steady(f, f, g, root, p, x)
    {
      assert Repaired(h, g, root, e, d, x);
      SameKinAnc(f, h, root, x, p);
      RepairedSteady(f, h, g, root, p, e, d, x);
    }
  }

  lemma SelfUnmoved<E>(h: Forest<E>, g: Forest<E>, root: E, e: E, d: int)
    requires Rooted(h, root) && e in h && e in g && Repaired(h, g, root, e, d, e)
    ensures g[e] == h[e]
  {
    SiblingNotAbove(h, root, e, e);
  }

  lemma RepairedSteady<E>(f: Forest<E>, h: Forest<E>, g: Forest<E>, root: E, p: E, c: E, d: int, x: E)
    requires Rooted(f, root) && Rooted(h, root) && p in f && c in h && x in f && x in h && x in g
    requires f[x] == h[x] && g[x] == h[x].(size := g[x].size, bins := g[x].bins)
    requires Repaired(h, g, root, c, d, x)
    requires Above(h, root, x, c) ==> Anc(f, root, x, p)
    ensures Steady(f, f, g, root, p, x)
  {
  }

  lemma SiblingNotAbove<E>(f: Forest<E>, root: E, x: E, e: E)
    requires Rooted(f, root) && x in f && e in f
    requires x == e || (f[x].parent == f[e].parent && e != root)
    ensures !Above(f, root, x, e)
  {
    assert Placed(f, root, x) && Placed(f, root, e);
    if Above(f, root, x, e) {
      AncShallow(f, root, x, f[e].parent.value);
    }
  }

  /** A kept file of another size. */
  lemma ResizeProgress<E>(f0: Forest<E>, f: Forest<E>, root: E, p: E, listing: Listing, done: set<string>, e: E,
                          n: string)
    requires Progress(f0, f, root, p, listing, done) && n in listing && n !in done
    requires e in f && f[e].parent == Some(p) && f[e].name == n && !f[e].dir
    ensures Sound(Unmark(f, e), root)
    ensures Progress(f0, Resize(Unmark(f, e), root, e, listing[n].size), root, p, listing, done + {n})
  {
    var h := Unmark(f, e);
    SameButMarks(f, h, root);
    assert p in f by { assert OldOk(f0, f, root, p, listing, done, p); }
    ResizeSound(h, root, p, e, listing[n].size);
    var g := Resize(h, root, e, listing[n].size);
    hide Resize, Sound;
    forall x | x in f && x != e
      ensures Steady(f0, f, g, root, p, x)
    {
      assert Steady(h, h, g, root, p, x);
      SameKinAnc(f, h, root, x, p);
      SteadyBack(f0, f, g, root, p, listing, done, x);
    }
    NextProgress(f0, f, g, root, p, listing, done, e, n);
  }

  /** What `addChild` does to the rest of the tree. */
  lemma AddLeafSound<E>(f: Forest<E>, root: E, p: E, c: E, n: Node<E>)
    requires Sound(f, root) && Attachable(f, root, p, c, n)
    ensures Sound(AddLeaf(f, root, p, c, n), root)
    ensures AddLeaf(f, root, p, c, n).Keys == f.Keys + {c}
    ensures forall x :: x in f ==> Steady(f, f, AddLeaf(f, root, p, c, n), root, p, x)
    ensures AddLeaf(f, root, p, c, n)[c] ==
            n.(parent := Some(p), pathCrc := Xor(f[p].pathCrc, n.nameCrc), depth := f[p].depth + 1)
  {
    var bins := Insert(f[p].bins, n.size, c);
    var h := Attach(f, p, c, n, bins);
    var g := AddLeaf(f, root, p, c, n);
    AttachHole(f, root, p, c, n);
    AddLeafClimbs(f, root, p, c, n);
    ClimbSound(h, root, p, n.size);
    assert Placed(f, root, p) && Placed(h, root, p);
    hide AddLeaf, Insert, Sound, SoundBut, Xor;
    assert Repaired(h, g, root, p, n.size, c);
    KidUnmoved(h, g, root, p, n.size, c);
    forall x | x in f
      ensures Steady(f, f, g, root, p, x)
    {
      assert Repaired(h, g, root, p, n.size, x);
      AttachAnc(f, h, root, p, c, x, p);
    }
  }

  /** Attaching a new entry below `p` does not change what is above an old entry. */
  lemma {:induction false} AttachAnc<E>(f: Forest<E>, h: Forest<E>, root: E, p: E, c: E, x: E, e: E)
    requires Rooted(f, root) && Rooted(h, root) && x in f && e in f && h.Keys == f.Keys + {c} && c !in f
    requires forall y :: y in f ==> h[y].parent == f[y].parent
    ensures e in h && (Anc(h, root, x, e) <==> Anc(f, root, x, e))
    decreases f[e].depth
  {
    assert Placed(f, root, e) && Placed(h, root, e);
    if x != e && e != root {
      AttachAnc(f, h, root, p, c, x, f[e].parent.value);
    }
  }

  lemma KidUnmoved<E>(h: Forest<E>, g: Forest<E>, root: E, p: E, d: int, x: E)
    requires Rooted(h, root) && p in h && x in h && x in g && h[x].parent == Some(p)
    requires Repaired(h, g, root, p, d, x)
    ensures g[x] == h[x]
  {
    ChildNotAbove(h, root, x, p);
  }

  lemma ChildNotAbove<E>(f: Forest<E>, root: E, x: E, p: E)
    requires Rooted(f, root) && x in f && p in f && f[x].parent == Some(p)
    ensures !Above(f, root, x, p)
  {
    assert Placed(f, root, x) && Placed(f, root, p);
    if Above(f, root, x, p) {
      AncShallow(f, root, x, f[p].parent.value);
    }
  }

  /** A name that was not there before. */
  lemma AddProgress<E>(f0: Forest<E>, f: Forest<E>, root: E, p: E, listing: Listing, done: set<string>, c: E,
                       n: Node<E>)
    requires Progress(f0, f, root, p, listing, done) && n.name in listing && n.name !in done
    requires !HasChild(f, p, n.name)
    requires Attachable(f, root, p, c, n) && !n.marked
    requires n.dir == listing[n.name].dir && n.size == listing[n.name].size
    ensures Progress(f0, AddLeaf(f, root, p, c, n), root, p, listing, done + {n.name})
  {
    AddLeafSound(f, root, p, c, n);
    var g := AddLeaf(f, root, p, c, n);
    hide AddLeaf, Sound;
    forall x | x in f
      ensures Steady(f0, f, g, root, p, x)
    {
      SteadyBack(f0, f, g, root, p, listing, done, x);
    }
    forall x | x in f0
      ensures OldOk(f0, g, root, p, listing, done + {n.name}, x)
    {
      assert OldOk(f0, f, root, p, listing, done, x) && Steady(f0, f, g, root, p, x);
      SteadyOld(f0, f, g, root, p, listing, done, n.name, x);
    }
    forall x | x in g && x !in f0
      ensures NewOk(g, p, listing, done + {n.name}, x)
    {
      assert x != c ==> NewOk(f, p, listing, done, x) && Steady(f0, f, g, root, p, x);
    }
    forall m | m in done + {n.name}
      ensures HasChild(g, p, m)
    {
      if m in done {
        SteadyChild(f0, f, g, root, p, c, m);
      }
    }
    SteadyNamed(f0, f, g, root, p, c);
  }

  // ---------------------------------------------------------------------- the end

  /** The children of `p` whose names are not listed. */
  ghost function Unlisted<E>(f: Forest<E>, p: E, listing: Listing): set<E> {
    set e | e in Kids(f, p) && f[e].name !in listing
  }

  /** Taking out the entries in `dead` costs `p` a size that is not negative. */
  ghost predicate Lossless<E>(f: Forest<E>, dead: set<E>) {
    forall e :: e in dead && e in f ==> f[e].size >= 0
  }

  /** The tree after its directory `p` was brought in line with `listing`. */
  ghost predicate Finished<E>(f0: Forest<E>, g: Forest<E>, root: E, p: E, listing: Listing) {
    && Rooted(f0, root) && p in f0 && Sound(g, root) && Named(g)
    && (forall e :: e in f0 ==> (e in g <==> e !in Doomed(f0, root, Unlisted(f0, p, listing))))
    && (forall e {:trigger OldOk(f0, g, root, p, listing, listing.Keys, e)} :: e in f0 && e in g && e != p ==>
          OldOk(f0, g, root, p, listing, listing.Keys, e))
    && p in g && g[p] == f0[p].(size := g[p].size, bins := g[p].bins)
    && (Lossless(f0, Unlisted(f0, p, listing)) ==> Own(g[p]) == Own(f0[p]))
    && (forall e {:trigger NewOk(g, p, listing, listing.Keys, e)} :: e in g && e !in f0 ==>
          NewOk(g, p, listing, listing.Keys, e))
    && (forall n {:trigger HasChild(g, p, n)} :: n in listing ==> HasChild(g, p, n))
  }

  /** The marked children of `p`. */
  ghost function MarkedKids<E>(f: Forest<E>, p: E): set<E> {
    set e | e in Kids(f, p) && f[e].marked
  }

  lemma MarkedAreUnlisted<E>(f0: Forest<E>, f: Forest<E>, root: E, p: E, listing: Listing)
    requires Progress(f0, f, root, p, listing, listing.Keys)
    ensures MarkedKids(f, p) == Unlisted(f0, p, listing)
  {
    forall e | e in f
      ensures e in MarkedKids(f, p) <==> e in Unlisted(f0, p, listing)
    {
      if e in f0 {
        OldKin(f0, f, root, p, listing, listing.Keys, e);
        assert OldOk(f0, f, root, p, listing, listing.Keys, e);
      } else {
        assert NewOk(f, p, listing, listing.Keys, e);
      }
    }
  }

  /** What is doomed now was doomed from the start, and no new entry is. */
  lemma DoomedAgree<E>(f0: Forest<E>, f: Forest<E>, root: E, p: E, listing: Listing, e: E)
    requires Progress(f0, f, root, p, listing, listing.Keys) && e in f
    ensures p in f && Unlisted(f0, p, listing) <= Kids(f, p)
    ensures e in Doomed(f, root, Unlisted(f0, p, listing)) <==>
              e in f0 && e in Doomed(f0, root, Unlisted(f0, p, listing))
  {
    var dead := Unlisted(f0, p, listing);
    MarkedAreUnlisted(f0, f, root, p, listing);
    OldKin(f0, f, root, p, listing, listing.Keys, p);
    if e in f0 {
      forall d | d in dead
        ensures Anc(f, root, d, e) <==> Anc(f0, root, d, e)
      {
        AncBack(f0, f, root, p, listing, listing.Keys, d, e);
      }
    } else {
      assert NewOk(f, p, listing, listing.Keys, e);
      DoomedKids(f, root, p, dead, e);
    }
  }

  /** What sweeping, and then telling the ancestors, does to an entry that survives. */
  lemma RemoveSteady<E>(f: Forest<E>, root: E, p: E, dead: set<E>, x: E)
    requires Sound(f, root) && p in f && dead <= Kids(f, p) && x in f && x !in Doomed(f, root, dead)
    ensures Sound(RemoveKids(f, root, p, dead), root)
    ensures RemoveKids(f, root, p, dead).Keys == f.Keys - Doomed(f, root, dead)
    ensures x != p ==> Steady(f, f, RemoveKids(f, root, p, dead), root, p, x)
    ensures p !in Doomed(f, root, dead)
    ensures var q := RemoveKids(f, root, p, dead)[p];
            && q == f[p].(size := q.size, bins := q.bins)
            && (Total(Sweep(f[p].bins, dead)) <= Total(f[p].bins) ==> Own(q) == Own(f[p]))
  {
    hide *;
    var lost := Loss(f[p].bins, dead);
    var bins := Sweep(f[p].bins, dead);
    SoundParts(f, root);
    DoomedInside(f, root, p, dead);
    PruneHole(f, root, p, dead, -lost);
    RemoveKidsClimbs(f, root, p, dead);
    var h := Prune(f, root, p, dead, bins, f[p].size - lost);
    var g := RemoveKids(f, root, p, dead);
    SoundRooted(h, root, p, -lost);
    ClimbSound(h, root, p, -lost);
    SameShapeHas(h, g);
    PruneHas(f, root, p, dead, bins, f[p].size - lost, x);
    PruneAnc(f, root, p, dead, h, x, p);
    NotAboveItself(h, root, p);
    RepairedSame(h, g, root, p, -lost, p);
    LossOwn(f, p, dead, h[p]);
    if x != p {
      RepairedSteady(f, h, g, root, p, p, -lost, x);
    }
  }

  lemma SoundParts<E>(f: Forest<E>, root: E)
    requires Sound(f, root)
    ensures Rooted(f, root) && Housed(f) && SoundBut(f, root, root, 0)
  {
  }

  lemma SameShapeHas<E>(h: Forest<E>, g: Forest<E>)
    requires SameShape(h, g)
    ensures g.Keys == h.Keys
    ensures forall x :: x in h ==> g[x] == h[x].(size := g[x].size, bins := g[x].bins)
  {
  }

  lemma PruneHas<E>(f: Forest<E>, root: E, p: E, dead: set<E>, bins: seq<Bin<E>>, size: int, x: E)
    requires Rooted(f, root) && p in f && dead <= Kids(f, p) && x in f && x !in Doomed(f, root, dead)
    ensures var h := Prune(f, root, p, dead, bins, size);
            && h.Keys == f.Keys - Doomed(f, root, dead)
            && p in h && h[p] == f[p].(bins := bins, size := size)
            && (x != p ==> h[x] == f[x])
            && forall y :: y in h ==> h[y].parent == f[y].parent
  {
    DoomedInside(f, root, p, dead);
  }

  lemma RepairedSame<E>(h: Forest<E>, g: Forest<E>, root: E, c: E, d: int, x: E)
    requires Rooted(h, root) && c in h && x in h && x in g && Repaired(h, g, root, c, d, x) && !Above(h, root, x, c)
    ensures g[x] == h[x]
  {
  }

  lemma LossOwn<E>(f: Forest<E>, p: E, dead: set<E>, n: Node<E>)
    requires p in f
    requires n == f[p].(bins := Sweep(f[p].bins, dead), size := f[p].size - Loss(f[p].bins, dead))
    ensures Total(Sweep(f[p].bins, dead)) <= Total(f[p].bins) ==> Own(n) == Own(f[p])
  {
  }

  lemma NotAboveItself<E>(f: Forest<E>, root: E, p: E)
    requires Rooted(f, root) && p in f
    ensures !Above(f, root, p, p)
  {
    assert Placed(f, root, p);
    if Above(f, root, p, p) {
      AncShallow(f, root, p, f[p].parent.value);
    }
  }

  /** What is above a survivor in the pruned tree was above it before. */
  lemma {:induction false} PruneAnc<E>(f: Forest<E>, root: E, p: E, dead: set<E>, h: Forest<E>, x: E, e: E)
    requires Rooted(f, root) && Rooted(h, root) && h.Keys <= f.Keys && e in h
    requires forall y :: y in h ==> h[y].parent == f[y].parent
    ensures e in f && (Anc(h, root, x, e) ==> Anc(f, root, x, e))
    ensures Above(h, root, x, e) ==> Anc(f, root, x, e)
    decreases h[e].depth
  {
    assert Placed(f, root, e) && Placed(h, root, e);
    if x != e && e != root {
      PruneAnc(f, root, p, dead, h, x, f[e].parent.value);
    }
  }

  lemma StillOld<E>(f0: Forest<E>, f: Forest<E>, g: Forest<E>, root: E, p: E, listing: Listing, done: set<string>, x: E)
    requires Rooted(f0, root) && p in f0 && x in f0 && x in f && done <= listing.Keys
    requires OldOk(f0, f, root, p, listing, done, x) && Steady(f0, f, g, root, p, x)
    ensures OldOk(f0, g, root, p, listing, done, x)
  {
    if f0[x].parent == Some(p) {
      KidOffPath(f0, root, p, x);
    }
  }

  /** Where no entry of negative size is dead, the sweep makes the directory no larger. */
  lemma LosslessSweep<E>(f0: Forest<E>, f: Forest<E>, root: E, p: E, listing: Listing)
    requires Progress(f0, f, root, p, listing, listing.Keys) && p in f
    requires Lossless(f0, Unlisted(f0, p, listing))
    ensures Total(Sweep(f[p].bins, Unlisted(f0, p, listing))) <= Total(f[p].bins)
  {
    var dead, bins := Unlisted(f0, p, listing), f[p].bins;
    assert Binned(f, p) && Placed(f, root, root);
    forall b, e | b in bins && e in b.chain && e in dead
      ensures b.size >= 0
    {
      assert FiledAt(bins, b.size, e);
      Kin(f, p, b.size, e);
      assert OldOk(f0, f, root, p, listing, listing.Keys, e);
    }
    SweepShrinks(bins, dead);
  }

  /** A listed child survives. */
  lemma ListedSurvives<E>(f0: Forest<E>, f: Forest<E>, root: E, p: E, listing: Listing, n: string) returns (c: E)
    requires Progress(f0, f, root, p, listing, listing.Keys) && p in f && n in listing
    ensures c in f && f[c].parent == Some(p) && f[c].name == n
    ensures c !in Doomed(f, root, Unlisted(f0, p, listing))
  {
    assert HasChild(f, p, n);
    c :| c in f && f[c].parent == Some(p) && f[c].name == n;
    MarkedAreUnlisted(f0, f, root, p, listing);
    DoomedKids(f, root, p, Unlisted(f0, p, listing), c);
    if c in f0 {
      OldKin(f0, f, root, p, listing, listing.Keys, c);
    }
  }

  /** Sweeping out what is still marked finishes the reconciliation. */
  lemma FinishProgress<E>(f0: Forest<E>, f: Forest<E>, root: E, p: E, listing: Listing)
    requires Progress(f0, f, root, p, listing, listing.Keys)
    ensures p in f && MarkedKids(f, p) == Unlisted(f0, p, listing) <= Kids(f, p)
    ensures Finished(f0, RemoveKids(f, root, p, Unlisted(f0, p, listing)), root, p, listing)
  {
    var dead := Unlisted(f0, p, listing);
    MarkedAreUnlisted(f0, f, root, p, listing);
    OldKin(f0, f, root, p, listing, listing.Keys, p);
    var g := RemoveKids(f, root, p, dead);
    DoomedInside(f, root, p, dead);
    RemoveSteady(f, root, p, dead, p);
    if Lossless(f0, dead) {
      LosslessSweep(f0, f, root, p, listing);
    }
    assert OldOk(f0, f, root, p, listing, listing.Keys, p) && Placed(f0, root, p);
    hide RemoveKids, Sound, Doomed, Lossless;
    forall e | e in f0
      ensures e in g <==> e !in Doomed(f0, root, dead)
    {
      assert OldOk(f0, f, root, p, listing, listing.Keys, e);
      DoomedAgree(f0, f, root, p, listing, e);
    }
    forall x | x in g && x != p
      ensures Steady(f0, f, g, root, p, x)
    {
      RemoveSteady(f, root, p, dead, x);
      SteadyBack(f0, f, g, root, p, listing, listing.Keys, x);
    }
    FinishParts(f0, f, g, root, p, listing);
  }

  lemma FinishParts<E>(f0: Forest<E>, f: Forest<E>, g: Forest<E>, root: E, p: E, listing: Listing)
    requires Progress(f0, f, root, p, listing, listing.Keys) && p in f && p in g && Sound(g, root)
    requires Unlisted(f0, p, listing) <= Kids(f, p) && g.Keys == f.Keys - Doomed(f, root, Unlisted(f0, p, listing))
    requires forall e :: e in f0 ==> (e in g <==> e !in Doomed(f0, root, Unlisted(f0, p, listing)))
    requires forall x :: x in g && x != p ==> Steady(f0, f, g, root, p, x)
    requires g[p] == f0[p].(size := g[p].size, bins := g[p].bins) == f[p].(size := g[p].size, bins := g[p].bins)
    requires Lossless(f0, Unlisted(f0, p, listing)) ==> Own(g[p]) == Own(f0[p])
    ensures Finished(f0, g, root, p, listing)
  {
    hide Sound, Doomed, Lossless, Unlisted;
    forall x | x in f0 && x in g && x != p
      ensures OldOk(f0, g, root, p, listing, listing.Keys, x)
    {
      assert OldOk(f0, f, root, p, listing, listing.Keys, x) && Steady(f0, f, g, root, p, x);
      StillOld(f0, f, g, root, p, listing, listing.Keys, x);
    }
    forall x | x in g && x !in f0
      ensures NewOk(g, p, listing, listing.Keys, x)
    {
      assert NewOk(f, p, listing, listing.Keys, x) && Steady(f0, f, g, root, p, x);
    }
    forall n | n in listing
      ensures HasChild(g, p, n)
    {
      var c := ListedSurvives(f0, f, root, p, listing, n);
      assert c != p ==> Steady(f0, f, g, root, p, c);
    }
    assert Named(g) by {
      forall x | x in g
        ensures g[x].parent == f[x].parent && g[x].name == f[x].name
      {
        assert x != p ==> Steady(f0, f, g, root, p, x);
      }
    }
  }
}
