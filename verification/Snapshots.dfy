/** A file system at rest, what of it a scan is to show, and how far a scan has got. */
module Snapshots {
  import opened Crcs
  import opened Trees
  import opened Reconcile
  import opened Mirror
  import opened FilePaths
  import opened ScanQueues

  type Address = seq<string>

  /** The files, the directories that are not to be entered, and how names are hashed. */
  datatype World = World(fs: Tree, skip: Address -> bool, hash: string -> Crc, rootName: string)

  function Front(q: Address): Address
    requires q != []
  {
    q[..|q| - 1]
  }

  /** A root directory, and everything else lies in a directory. */
  ghost predicate IsFileSystem(fs: Tree) {
    && [] in fs && fs[[]].dir
    && forall q :: q in fs && q != [] ==> Front(q) in fs && fs[Front(q)].dir
  }

  /** What an iterator over directory `d` comes across. */
  ghost function ListingOf(fs: Tree, d: Address): Listing {
    map n | n in (set q | q in fs && q != [] && Front(q) == d :: q[|q| - 1]) && d + [n] in fs ::
      Item(fs[d + [n]].dir, fs[d + [n]].own)
  }

  lemma ListingHas(fs: Tree, d: Address, n: string)
    ensures n in ListingOf(fs, d) <==> d + [n] in fs
    ensures n in ListingOf(fs, d) ==> ListingOf(fs, d)[n] == Item(fs[d + [n]].dir, fs[d + [n]].own)
  {
    if d + [n] in fs {
      assert Front(d + [n]) == d && (d + [n])[|d|] == n;
    }
    forall q | q in fs && q != [] && Front(q) == d
      ensures d + [q[|q| - 1]] == q
    {
    }
  }

  /** A directory that is left closed, unless it was let in as a new directory. */
  ghost predicate Skips(w: World, X: set<Address>, q: Address) {
    w.skip(q) && q !in X
  }

  /** No directory on the way to `q`, below the root, is skipped. */
  ghost predicate Open(w: World, X: set<Address>, q: Address) {
    forall k :: 0 < k < |q| ==> !Skips(w, X, q[..k])
  }

  /** What a complete scan is to show: skipped directories are empty, and the root has no size of its own. */
  ghost function Visible(w: World, X: set<Address>): Tree {
    map q | q in w.fs && Open(w, X, q) :: if q == [] then Info(w.fs[q].dir, 0) else w.fs[q]
  }

  /** A directory that a scan enters. */
  ghost predicate Listable(w: World, X: set<Address>, d: Address) {
    d in w.fs && w.fs[d].dir && Open(w, X, d) && (d != [] ==> !Skips(w, X, d))
  }

  ghost function Listables(w: World, X: set<Address>): set<Address> {
    set d | d in w.fs && Listable(w, X, d)
  }

  /** The directories found in `d` that are to be entered next. */
  ghost function Subdirs(w: World, X: set<Address>, d: Address): set<Address> {
    set q | q in w.fs && q != [] && Front(q) == d && w.fs[q].dir && !Skips(w, X, q)
  }

  /** The visible tree without anything below a pending directory. */
  ghost function Known(w: World, X: set<Address>, P: set<Address>): Tree {
    map q | q in Visible(w, X) && !(exists p :: p in P && p < q) :: Visible(w, X)[q]
  }

  lemma KnownHas(w: World, X: set<Address>, P: set<Address>, q: Address)
    ensures q in Known(w, X, P) <==> q in w.fs && Open(w, X, q) && forall p :: p in P ==> !(p < q)
    ensures q in Known(w, X, P) ==> Known(w, X, P)[q] == if q == [] then Info(w.fs[q].dir, 0) else w.fs[q]
  {
  }

  /** No pending directory is at or below another one, and a scan enters all of them. */
  ghost predicate Frontier(w: World, X: set<Address>, P: set<Address>) {
    && (forall p :: p in P ==> Listable(w, X, p))
    && forall p, q :: p in P && q in P && p != q ==> !(p <= q)
  }

  lemma {:induction false} Ancestors(fs: Tree, q: Address, k: nat)
    requires IsFileSystem(fs) && q in fs && k <= |q|
    ensures q[..k] in fs && (k < |q| ==> fs[q[..k]].dir)
    decreases |q|
  {
    if k < |q| {
      if k == |q| - 1 {
        assert q[..k] == Front(q);
      } else {
        Ancestors(fs, Front(q), k);
        assert Front(q)[..k] == q[..k];
      }
    } else {
      assert q[..k] == q;
    }
  }

  /** A child of a directory that a scan enters is visible. */
  lemma ChildOpen(w: World, X: set<Address>, d: Address, n: string)
    requires Listable(w, X, d)
    ensures Open(w, X, d + [n])
  {
    forall k | 0 < k < |d + [n]|
      ensures !Skips(w, X, (d + [n])[..k])
    {
      assert (d + [n])[..k] == d[..k];
      assert k == |d| ==> d[..k] == d;
    }
  }

  /** The pending directories once `d` has been listed and its subdirectories wait in its place. */
  ghost function Advanced(w: World, X: set<Address>, P: set<Address>, d: Address): set<Address> {
    P - {d} + Subdirs(w, X, d)
  }

  /** Reconciling a pending directory with what is really there moves the frontier down by one level. */
  lemma ListingAdvances(w: World, X: set<Address>, P: set<Address>, d: Address)
    requires IsFileSystem(w.fs) && Frontier(w, X, P) && d in P
    ensures Reconciled(Known(w, X, P), d, ListingOf(w.fs, d)) == Known(w, X, Advanced(w, X, P, d))
  {
    hide *;
    var r, c := Reconciled(Known(w, X, P), d, ListingOf(w.fs, d)), Known(w, X, Advanced(w, X, P, d));
    forall q | q in r
      ensures q in c && r[q] == c[q]
    {
      AdvanceAt(w, X, P, d, q);
    }
    forall q | q in c
      ensures q in r
    {
      AdvanceAt(w, X, P, d, q);
    }
  }

  lemma ReconciledHas(t: Tree, d: Address, l: Listing, q: Address)
    ensures q in Reconciled(t, d, l) <==>
              (q in t && (d < q ==> q[|d|] in l)) || (d < q && |q| == |d| + 1 && q[|d|] in l)
    ensures q in Reconciled(t, d, l) ==>
              Reconciled(t, d, l)[q] == if d < q && |q| == |d| + 1 then Relisted(t, q, l[q[|d|]]) else t[q]
  {
    assert d < q && |q| == |d| + 1 ==> q == d + [q[|d|]];
  }

  /** Nothing below a pending directory is known yet. */
  lemma PendingEmpty(w: World, X: set<Address>, P: set<Address>, d: Address, q: Address)
    requires d in P && d < q
    ensures q !in Known(w, X, P)
  {
  }

  lemma AdvanceAt(w: World, X: set<Address>, P: set<Address>, d: Address, q: Address)
    requires IsFileSystem(w.fs) && Frontier(w, X, P) && d in P
    ensures var r, c := Reconciled(Known(w, X, P), d, ListingOf(w.fs, d)), Known(w, X, Advanced(w, X, P, d));
            && (q in r <==> q in c)
            && (q in r ==> r[q] == c[q])
  {
    var P' := Advanced(w, X, P, d);
    ReconciledHas(Known(w, X, P), d, ListingOf(w.fs, d), q);
    KnownHas(w, X, P, q);
    KnownHas(w, X, P', q);
    hide Known, Reconciled, IsFileSystem, ListingOf;
    if d < q {
      PendingEmpty(w, X, P, d, q);
      ListingHas(w.fs, d, q[|d|]);
      if |q| == |d| + 1 {
        assert q == d + [q[|d|]];
        ChildOpen(w, X, d, q[|d|]);
        ChildKnown(w, X, P, d, q);
      } else {
        GrandchildHidden(w, X, P, d, q);
      }
    } else {
      OutsideSame(w, X, P, d, q);
    }
  }

  lemma ChildKnown(w: World, X: set<Address>, P: set<Address>, d: Address, q: Address)
    requires Frontier(w, X, P) && d in P && d < q && |q| == |d| + 1
    ensures forall p :: p in Advanced(w, X, P, d) ==> !(p < q)
  {
    forall p | p in Advanced(w, X, P, d)
      ensures !(p < q)
    {
      if p in P && p != d && p < q {
        PrefixesCompare(p, d, q);
      }
    }
  }

  lemma GrandchildHidden(w: World, X: set<Address>, P: set<Address>, d: Address, q: Address)
    requires IsFileSystem(w.fs) && d < q && |q| > |d| + 1
    ensures q in w.fs && Open(w, X, q) ==> exists p :: p in Advanced(w, X, P, d) && p < q
  {
    if q in w.fs && Open(w, X, q) {
      var c := q[..|d| + 1];
      Ancestors(w.fs, q, |d| + 1);
      assert Front(c) == d && !Skips(w, X, q[..|d| + 1]);
      assert c in Advanced(w, X, P, d) && c < q;
    }
  }

  lemma OutsideSame(w: World, X: set<Address>, P: set<Address>, d: Address, q: Address)
    requires d in P && !(d < q)
    ensures (forall p :: p in P ==> !(p < q)) <==> forall p :: p in Advanced(w, X, P, d) ==> !(p < q)
  {
    var P' := Advanced(w, X, P, d);
    forall p | p in Subdirs(w, X, d)
      ensures !(p < q)
    {
      PrefixChain(d, p, q);
    }
    if forall p :: p in P' ==> !(p < q) {
      forall p | p in P
        ensures !(p < q)
      {
        assert p != d ==> p in P';
      }
    }
  }

  /** The new frontier is one. */
  lemma AdvancedFrontier(w: World, X: set<Address>, P: set<Address>, d: Address)
    requires Frontier(w, X, P) && d in P
    ensures Frontier(w, X, Advanced(w, X, P, d))
  {
    var P' := Advanced(w, X, P, d);
    forall p | p in P'
      ensures Listable(w, X, p)
    {
      if p in Subdirs(w, X, d) {
        ChildOpen(w, X, d, p[|d|]);
        assert p == d + [p[|d|]];
      }
    }
    forall p, q | p in P' && q in P' && p != q
      ensures !(p <= q)
    {
      AdvancedApart(w, X, P, d, p, q);
    }
  }

  lemma AdvancedApart(w: World, X: set<Address>, P: set<Address>, d: Address, p: Address, q: Address)
    requires Frontier(w, X, P) && d in P && p in Advanced(w, X, P, d) && q in Advanced(w, X, P, d) && p != q
    ensures !(p <= q)
  {
    if p in Subdirs(w, X, d) {
      PrefixChain(d, p, q);
    } else if q in Subdirs(w, X, d) && p <= q {
      PrefixesCompare(p, d, q);
    }
  }

  // ------------------------------------------------------ what is out of date below

  ghost predicate BelowSome(P: set<Address>, q: Address) {
    exists p :: p in P && p < q
  }

  /**
   Outside of the pending directories `t` shows what is visible. Below them it may be out of date: entries
   may be missing, of another size, or gone from the files; but what is still there is of the same kind,
   and nothing is shown in a file or in a directory that a scan skips.
   */
  ghost predicate ShownAt(w: World, X: set<Address>, P: set<Address>, t: Tree, q: Address) {
    if BelowSome(P, q) then
      q in t ==>
        && Open(w, X, q)
        && (q in w.fs ==> t[q].dir == w.fs[q].dir && (t[q].dir ==> t[q] == w.fs[q]))
        && forall k :: 0 <= k < |q| ==> q[..k] in t && t[q[..k]].dir
    else
      && (q in t <==> q in Visible(w, X))
      && (q in t ==> t[q] == Visible(w, X)[q])
  }

  ghost predicate Shows(w: World, X: set<Address>, P: set<Address>, t: Tree) {
    forall q {:trigger ShownAt(w, X, P, t, q)} :: ShownAt(w, X, P, t, q)
  }

  lemma KnownShows(w: World, X: set<Address>, P: set<Address>)
    ensures Shows(w, X, P, Known(w, X, P))
  {
    forall q
      ensures ShownAt(w, X, P, Known(w, X, P), q)
    {
    }
  }

  lemma ShowsAt(w: World, X: set<Address>, P: set<Address>, t: Tree, q: Address)
    requires Shows(w, X, P, t)
    ensures ShownAt(w, X, P, t, q)
  {
    hide ShownAt;
  }

  /** With nothing pending, nothing is out of date. */
  lemma ShowsEnds(w: World, X: set<Address>, t: Tree)
    requires Shows(w, X, {}, t)
    ensures t == Visible(w, X)
  {
    hide Visible;
    forall q
      ensures (q in t <==> q in Visible(w, X)) && (q in t ==> t[q] == Visible(w, X)[q])
    {
      ShowsAt(w, X, {}, t, q);
    }
  }

  lemma PendingShown(w: World, X: set<Address>, P: set<Address>, t: Tree, d: Address)
    requires Frontier(w, X, P) && Shows(w, X, P, t) && d in P
    ensures !BelowSome(P, d) && d in t && d in w.fs && w.fs[d].dir && t[d].dir
  {
    ShowsAt(w, X, P, t, d);
    hide Shows, ShownAt;
    assert Listable(w, X, d) && forall p :: p in P ==> !(p < d);
    assert ShownAt(w, X, P, t, d) ==> (d in t <==> d in Visible(w, X)) by {
      ShownOutside(w, X, P, t, d);
    }
    ShownOutside(w, X, P, t, d);
  }

  lemma ShownOutside(w: World, X: set<Address>, P: set<Address>, t: Tree, q: Address)
    requires ShownAt(w, X, P, t, q) && !BelowSome(P, q)
    ensures (q in t <==> q in Visible(w, X)) && (q in t ==> t[q] == Visible(w, X)[q])
  {
    hide Visible;
  }

  lemma ShownBelow(w: World, X: set<Address>, P: set<Address>, t: Tree, q: Address)
    requires ShownAt(w, X, P, t, q) && BelowSome(P, q) && q in t
    ensures Open(w, X, q) && (q in w.fs ==> t[q].dir == w.fs[q].dir && (t[q].dir ==> t[q] == w.fs[q]))
    ensures forall k :: 0 <= k < |q| ==> q[..k] in t && t[q[..k]].dir
  {
    hide Visible, Open;
  }

  /** Listing a pending directory brings its children up to date, and what is out of date one level down. */
  lemma ListingShows(w: World, X: set<Address>, P: set<Address>, d: Address, t: Tree)
    requires IsFileSystem(w.fs) && Frontier(w, X, P) && d in P && Shows(w, X, P, t)
    ensures Shows(w, X, Advanced(w, X, P, d), Reconciled(t, d, ListingOf(w.fs, d)))
  {
    hide *;
    var u, P' := Reconciled(t, d, ListingOf(w.fs, d)), Advanced(w, X, P, d);
    forall q
      ensures ShownAt(w, X, P', u, q)
    {
      if !(d < q) {
        ShownElsewhere(w, X, P, d, t, q);
      } else if |q| == |d| + 1 {
        ShownChild(w, X, P, d, t, q);
      } else {
        ShownDeeper(w, X, P, d, t, q);
      }
    }
    ShowsNow(w, X, P', u);
  }

  lemma ShowsNow(w: World, X: set<Address>, P: set<Address>, t: Tree)
    requires forall q :: ShownAt(w, X, P, t, q)
    ensures Shows(w, X, P, t)
  {
    hide ShownAt;
  }

  lemma ShownElsewhere(w: World, X: set<Address>, P: set<Address>, d: Address, t: Tree, q: Address)
    requires d in P && Shows(w, X, P, t) && !(d < q)
    ensures ShownAt(w, X, Advanced(w, X, P, d), Reconciled(t, d, ListingOf(w.fs, d)), q)
  {
    var l, u, P' := ListingOf(w.fs, d), Reconciled(t, d, ListingOf(w.fs, d)), Advanced(w, X, P, d);
    ShowsAt(w, X, P, t, q);
    OutsideSame(w, X, P, d, q);
    hide Reconciled, ListingOf, Shows, Visible, Open, Advanced;
    assert BelowSome(P, q) <==> BelowSome(P', q);
    forall k | 0 <= k <= |q|
      ensures q[..k] in u <==> q[..k] in t
      ensures q[..k] in u ==> u[q[..k]] == t[q[..k]]
    {
      PrefixChain(d, q[..k], q);
      ReconciledHas(t, d, l, q[..k]);
    }
    assert q[..|q|] == q;
  }

  lemma ShownChild(w: World, X: set<Address>, P: set<Address>, d: Address, t: Tree, q: Address)
    requires IsFileSystem(w.fs) && Frontier(w, X, P) && d in P && Shows(w, X, P, t) && d < q && |q| == |d| + 1
    ensures ShownAt(w, X, Advanced(w, X, P, d), Reconciled(t, d, ListingOf(w.fs, d)), q)
  {
    var n, P' := q[|d|], Advanced(w, X, P, d);
    assert q == d + [n];
    ShowsAt(w, X, P, t, q);
    ReconciledHas(t, d, ListingOf(w.fs, d), q);
    ListingHas(w.fs, d, n);
    ChildOpen(w, X, d, n);
    ChildKnown(w, X, P, d, q);
    assert BelowSome(P, q) && !BelowSome(P', q);
    assert Listable(w, X, d);
    hide Reconciled, ListingOf, Shows, Open, Advanced, IsFileSystem, Frontier;
  }

  lemma ShownDeeper(w: World, X: set<Address>, P: set<Address>, d: Address, t: Tree, q: Address)
    requires IsFileSystem(w.fs) && Frontier(w, X, P) && d in P && Shows(w, X, P, t) && d < q && |q| > |d| + 1
    ensures ShownAt(w, X, Advanced(w, X, P, d), Reconciled(t, d, ListingOf(w.fs, d)), q)
  {
    hide *;
    var n, c := q[|d|], q[..|d| + 1];
    var l, u, P' := ListingOf(w.fs, d), Reconciled(t, d, ListingOf(w.fs, d)), Advanced(w, X, P, d);
    assert c == d + [n];
    BelowNow(P, d, q);
    ShowsAt(w, X, P, t, q);
    ReconciledHas(t, d, l, q);
    ListingHas(w.fs, d, n);
    if q in u {
      ShownBelow(w, X, P, t, q);
      ShowsAt(w, X, P, t, c);
      BelowNow(P, d, c);
      ShownBelow(w, X, P, t, c);
      OpenHas(w, X, q, |d| + 1);
      KeptPending(w, X, P, d, c, n);
      BelowNow(P', c, q);
      forall k | 0 <= k < |q|
        ensures q[..k] in u && u[q[..k]].dir
      {
        assert q[..k] in t && t[q[..k]].dir;
        ReconciledHas(t, d, l, q[..k]);
        assert d < q[..k] ==> q[..k][|d|] == n;
        RelistedDir(t, q[..k], l);
      }
      ReconciledHas(t, d, l, q);
    } else {
      DeeperHidden(w, X, P, d, q);
    }
    ShownNow(w, X, P', u, t, q);
  }

  lemma RelistedDir(t: Tree, q: Address, l: Listing)
    requires q in t && t[q].dir
    ensures forall n :: n in l ==> Relisted(t, q, l[n]) == t[q]
  {
  }

  lemma BelowNow(P: set<Address>, p: Address, q: Address)
    requires p in P && p < q
    ensures BelowSome(P, q)
  {
  }

  lemma OpenHas(w: World, X: set<Address>, q: Address, k: nat)
    requires Open(w, X, q) && 0 < k < |q|
    ensures !Skips(w, X, q[..k])
  {
  }

  lemma KeptPending(w: World, X: set<Address>, P: set<Address>, d: Address, c: Address, n: string)
    requires c == d + [n] && c in w.fs && w.fs[c].dir && !Skips(w, X, c)
    ensures c in Advanced(w, X, P, d)
  {
    assert Front(c) == d;
  }

  /** Whatever is visible two levels down is below one of the new pending directories. */
  lemma DeeperHidden(w: World, X: set<Address>, P: set<Address>, d: Address, q: Address)
    requires IsFileSystem(w.fs) && d < q && |q| > |d| + 1
    ensures q in Visible(w, X) ==> BelowSome(Advanced(w, X, P, d), q)
  {
    hide Advanced;
    GrandchildHidden(w, X, P, d, q);
  }

  lemma ShownNow(w: World, X: set<Address>, P: set<Address>, u: Tree, t: Tree, q: Address)
    requires q in u ==> BelowSome(P, q) && Open(w, X, q) && q in t && u[q] == t[q]
    requires q in u ==> (q in w.fs ==> t[q].dir == w.fs[q].dir && (t[q].dir ==> t[q] == w.fs[q]))
    requires q in u ==> forall k :: 0 <= k < |q| ==> q[..k] in u && u[q[..k]].dir
    requires q !in u ==> (q in Visible(w, X) ==> BelowSome(P, q))
    ensures ShownAt(w, X, P, u, q)
  {
    hide Visible, Open, BelowSome;
  }

  // ---------------------------------------------------------- what is left to do

  /** The directories still to be listed: those at or below a pending one. */
  ghost function Left(w: World, X: set<Address>, P: set<Address>): set<Address> {
    set d | d in Listables(w, X) && exists p :: p in P && p <= d
  }

  /** Listing one directory takes exactly that one off the list. */
  lemma LeftFalls(w: World, X: set<Address>, P: set<Address>, d: Address)
    requires IsFileSystem(w.fs) && Frontier(w, X, P) && d in P
    ensures d in Left(w, X, P) && Left(w, X, Advanced(w, X, P, d)) == Left(w, X, P) - {d}
  {
    assert d <= d;
    forall e | e in Listables(w, X)
      ensures e in Left(w, X, Advanced(w, X, P, d)) <==> e in Left(w, X, P) && e != d
    {
      LeftAt(w, X, P, d, e);
    }
  }

  lemma LeftAt(w: World, X: set<Address>, P: set<Address>, d: Address, e: Address)
    requires IsFileSystem(w.fs) && Frontier(w, X, P) && d in P && e in Listables(w, X)
    ensures e in Left(w, X, Advanced(w, X, P, d)) <==> e in Left(w, X, P) && e != d
  {
    var P' := Advanced(w, X, P, d);
    if e in Left(w, X, P') {
      var p :| p in P' && p <= e;
      if p in Subdirs(w, X, d) {
        PrefixChain(d, p, e);
        assert d in P && d <= e;
      }
      assert p in P ==> p in P && p <= e;
    }
    if e in Left(w, X, P) && e != d {
      var p :| p in P && p <= e;
      if p == d {
        var c := e[..|d| + 1];
        Ancestors(w.fs, e, |d| + 1);
        assert Front(c) == d;
        assert c == e || !Skips(w, X, e[..|d| + 1]);
        assert c in Subdirs(w, X, d) && c <= e;
      } else {
        assert p in P';
      }
    }
  }

  /** With nothing pending everything visible is shown; with the root pending, only the root is. */
  lemma KnownEnds(w: World, X: set<Address>)
    requires IsFileSystem(w.fs)
    ensures Known(w, X, {}) == Visible(w, X) && Left(w, X, {}) == {}
    ensures Known(w, X, {[]}) == map[[] := Info(true, 0)] && Left(w, X, {[]}) == Listables(w, X)
    ensures Frontier(w, X, {[]})
  {
    forall q: Address
      ensures q in Known(w, X, {[]}) <==> q == []
    {
      assert q != [] ==> [] < q;
    }
    forall d | d in Listables(w, X)
      ensures d in Left(w, X, {[]})
    {
      assert [] <= d;
    }
  }
}
