/** The database: the tree of entries, an index of it by path hash, and running totals. */
module FileDBs {
  import opened Crcs
  import opened Options
  import opened SizeBins
  import opened Forest
  import opened Trees
  import opened Sums
  import opened Index
  import opened Reconcile
  import opened Mirror
  import opened FilePaths
  import opened Lookup
  import opened FileEntries

  // ------------------------------------------------------------ counting by kind

  ghost function OfKind(X: set<FileEntry>, dir: bool): set<FileEntry> {
    set e | e in X && e.isDir == dir
  }

  lemma OfKindLess(X: set<FileEntry>, e: FileEntry, dir: bool)
    requires e in X
    ensures |OfKind(X - {e}, dir)| == |OfKind(X, dir)| - if e.isDir == dir then 1 else 0
  {
    if e.isDir == dir {
      assert OfKind(X - {e}, dir) == OfKind(X, dir) - {e};
    } else {
      assert OfKind(X - {e}, dir) == OfKind(X, dir);
    }
  }

  /** Counting along a list that holds each entry of a set once. */
  lemma {:induction false} CountIsSize(s: seq<FileEntry>, X: set<FileEntry>, dir: bool)
    requires multiset(s) == multiset(X)
    ensures CountKind(s, dir) == |OfKind(X, dir)|
  {
    if s == [] {
      assert X == {} by {
        assert forall e :: e in X ==> e in multiset(s);
      }
    } else {
      var e := s[0];
      assert s == [e] + s[1..];
      assert e in multiset(X);
      assert multiset(X - {e}) == multiset(X) - multiset{e};
      CountIsSize(s[1..], X - {e}, dir);
      OfKindLess(X, e, dir);
    }
  }

  // ------------------------------------------------------------------- subtrees

  /** Everything at or below one of `cs`. */
  ghost function Under<E>(f: Forest<E>, root: E, cs: seq<E>): set<E>
    requires Rooted(f, root)
  {
    Doomed(f, root, set c | c in cs)
  }

  lemma UnderNone<E>(f: Forest<E>, root: E)
    requires Rooted(f, root)
    ensures Under(f, root, []) == {}
  {
  }

  lemma UnderNext<E>(f: Forest<E>, root: E, cs: seq<E>, i: nat)
    requires Rooted(f, root) && i < |cs|
    ensures Under(f, root, cs[..i + 1]) == Under(f, root, cs[..i]) + Under(f, root, [cs[i]])
    ensures Under(f, root, [cs[i]]) <= Under(f, root, cs)
  {
    assert cs[..i + 1] == cs[..i] + [cs[i]];
  }

  lemma {:induction false} SameLevel<E>(f: Forest<E>, root: E, a: E, b: E, x: E)
    requires Rooted(f, root) && a in f && b in f && x in f && f[a].depth == f[b].depth
    requires Anc(f, root, a, x) && Anc(f, root, b, x)
    ensures a == b
    decreases f[x].depth
  {
    assert Placed(f, root, x);
    if x == a {
      AncShallow(f, root, b, x);
    } else if x == b {
      AncShallow(f, root, a, x);
    } else {
      SameLevel(f, root, a, b, f[x].parent.value);
    }
  }

  /** The subtrees of different children do not overlap. */
  lemma UnderApart<E>(f: Forest<E>, root: E, p: E, cs: seq<E>, i: nat)
    requires Rooted(f, root) && i < |cs| && Distinct(cs)
    requires forall c :: c in cs ==> c in f && f[c].parent == Some(p)
    ensures Under(f, root, [cs[i]]) !! Under(f, root, cs[..i])
  {
    forall x | x in Under(f, root, [cs[i]]) && x in Under(f, root, cs[..i])
      ensures false
    {
      var d :| d in cs[..i] && Anc(f, root, d, x);
      assert Placed(f, root, d) && Placed(f, root, cs[i]);
      SameLevel(f, root, d, cs[i], x);
    }
  }

  /** What is below an entry is what is at or below its children. */
  lemma UnderKids<E>(f: Forest<E>, root: E, e: E, cs: seq<E>)
    requires Rooted(f, root) && e in f
    requires forall c :: c in cs <==> c in Kids(f, e)
    ensures Under(f, root, [e]) == Under(f, root, cs) + {e}
    ensures e !in Under(f, root, cs)
  {
    forall x | x in f
      ensures x in Under(f, root, [e]) <==> x == e || x in Under(f, root, cs)
    {
      UnderKid(f, root, e, cs, x);
    }
    if e in Under(f, root, cs) {
      var c :| c in cs && Anc(f, root, c, e);
      assert c in Kids(f, e) && Placed(f, root, c);
      AncShallow(f, root, c, e);
    }
  }

  lemma {:induction false} UnderKid<E>(f: Forest<E>, root: E, e: E, cs: seq<E>, x: E)
    requires Rooted(f, root) && e in f && x in f
    requires forall c :: c in cs <==> c in Kids(f, e)
    ensures x in Under(f, root, [e]) <==> x == e || x in Under(f, root, cs)
    decreases f[x].depth
  {
    assert Placed(f, root, x);
    assert Anc(f, root, e, e);
    assert x in Under(f, root, [e]) <==> Anc(f, root, e, x) by {
      assert e in [e];
    }
    if x != e && x != root {
      var up := f[x].parent.value;
      UnderKid(f, root, e, cs, up);
      assert up in Under(f, root, [e]) <==> Anc(f, root, e, up) by {
        assert e in [e];
      }
      if up == e {
        assert x in Kids(f, e) && Anc(f, root, x, x);
      } else {
        UnderStep(f, root, cs, x, up);
      }
      if x in Under(f, root, cs) && up != e {
        assert x !in cs;
      }
    }
  }

  lemma UnderStep<E>(f: Forest<E>, root: E, cs: seq<E>, x: E, up: E)
    requires Rooted(f, root) && x in f && x != root && f[x].parent == Some(up) && up in f
    ensures up in Under(f, root, cs) ==> x in Under(f, root, cs)
    ensures x in Under(f, root, cs) && x !in cs ==> up in Under(f, root, cs)
  {
    if up in Under(f, root, cs) {
      var c :| c in cs && Anc(f, root, c, up);
      assert Anc(f, root, c, x);
    }
  }

  // ----------------------------------------------------------------- the database

  /** What the entries in `S` make up: a sound tree below `root`, with all names hashed and no two siblings alike. */
  ghost predicate TreeOk(S: set<FileEntry>, root: FileEntry, hash: string -> Crc)
    reads S
  {
    && root in S && root.isDir && AllLinked(S)
    && Sound(Snap(S), root) && Named(Snap(S)) && NamesHashed(Snap(S), hash)
  }

  lemma TreeParts(S: set<FileEntry>, root: FileEntry, hash: string -> Crc)
    requires TreeOk(S, root, hash)
    ensures root in S && root.isDir && AllLinked(S) && root in Snap(S)
    ensures Sound(Snap(S), root) && Named(Snap(S)) && NamesHashed(Snap(S), hash)
    ensures Rooted(Snap(S), root) && Housed(Snap(S)) && Hashed(Snap(S)) && Snap(S).Keys == S
  {
  }

  class FileDB {
    const platform: Platform
    const hash: string -> Crc
    const rootPath: Path
    const rootFile: FileEntry
    var entriesMap: Buckets<FileEntry>
    var usedSpace: int
    var fileCount: int
    var dirCount: int
    var hasChanges: bool
    /** All entries of the tree. */
    ghost var S: set<FileEntry>

    /** The counters count `X`, and the index finds each entry of `X` but the root under its hash in `f`. */
    ghost predicate Recorded(f: Forest<FileEntry>, X: set<FileEntry>)
      reads `entriesMap, `fileCount, `dirCount
    {
      && rootFile in X
      && Indexed(entriesMap, f, X - {rootFile})
      && fileCount == |OfKind(X, false)| && dirCount == |OfKind(X, true)|
    }

    ghost predicate Valid()
      reads this, S
    {
      && TreeOk(S, rootFile, hash) && Recorded(Snap(S), S)
      && usedSpace == rootFile.size
      && rootPath == Path([rootFile.name], [hash(rootFile.name)])
    }

    /** A database that holds nothing but its root directory. */
    constructor (platform: Platform, hash: string -> Crc, path: string)
      requires path != ""
      ensures Valid() && fresh(S) && hasChanges
      ensures this.platform == platform && this.hash == hash && rootFile.name == Normalized(platform, path, Add)
      ensures S == {rootFile} && rootFile.Offered(hash) && rootFile.size == 0
    {
      hide *;
      var p, root := MakeRoot(platform, hash, path);
      this.platform, this.hash := platform, hash;
      rootPath, rootFile := p, root;
      entriesMap, usedSpace, fileCount, dirCount, hasChanges := map[], 0, 0, 1, true;
      S := {root};
      new;
      LoneRoot(root, hash);
      LoneCounts(root);
      LoneValid(this);
    }

    static method MakeRoot(platform: Platform, hash: string -> Crc, path: string) returns (p: Path, root: FileEntry)
      requires path != ""
      ensures p == Path([root.name], [hash(root.name)])
      ensures fresh(root) && root.Offered(hash) && root.isDir && root.size == 0 &&
              root.name == Normalized(platform, path, Add)
      ensures root.parent == null && root.depth == 0 && root.pathCrc == root.nameCrc
    {
      RootText(platform, hash, path);
      NormalizedIsNormal(platform, path, Add);
      hide Normalized, Concat;
      var rootPath := FilePath.FromRoot(platform, hash, path, Zero);
      p := Path(rootPath.parts, rootPath.pathCrcs);
      var text := rootPath.GetPath(true);
      root := new FileEntry.Named(text, true, hash(text), 0);
    }

    /** There is no database for an empty path. */
    static method Open(platform: Platform, hash: string -> Crc, path: string) returns (db: FileDB?)
      ensures db == null <==> path == ""
      ensures db != null ==>
                fresh(db) && fresh(db.S) && db.Valid() && db.rootFile.name == Normalized(platform, path, Add)
    {
      if path == "" {
        return null;
      }
      db := new FileDB(platform, hash, path);
    }

    // ------------------------------------------------------------------- lookups

    /** The child of `parent` with this name; without a parent, only the root can be meant. */
    method FindChild(name: string, nameCrc: Crc, parent: FileEntry?) returns (r: FileEntry?)
      requires TreeOk(S, rootFile, hash) && Recorded(Snap(S), S)
      requires parent != null ==> parent in S && nameCrc == hash(name)
      ensures parent == null ==> r == if name == rootFile.name then rootFile else null
      ensures parent != null && r != null ==> r in S && r.parent == parent && r.name == name
      ensures parent != null && r == null ==> !HasChild(Snap(S), parent, name)
    {
      hide *;
      if parent == null {
        return if name == rootFile.name then rootFile else null;
      }
      var pathCrc := Xor(parent.pathCrc, nameCrc);
      ChildIndexed(this, parent, name);
      if pathCrc !in entriesMap {
        return null;
      }
      var bucket := entriesMap[pathCrc];
      BucketInside(this, pathCrc);
      for i := 0 to |bucket|
        invariant forall j :: 0 <= j < i ==> !(bucket[j].parent == parent && bucket[j].name == name)
      {
        if bucket[i].parent == parent && bucket[i].name == name {
          return bucket[i];
        }
      }
      return null;
    }

    /** Goes up from `e` for as long as the names are the last names of the path. */
    method WalkUp(e: FileEntry, path: Path) returns (top: FileEntry)
      requires TreeOk(S, rootFile, hash) && e in S && WellFormed(platform, path)
      ensures Rooted(Snap(S), rootFile) && path.parts != []
      ensures top == rootFile <==> IsSuffix(Chain(Snap(S), rootFile, e), Names(platform, path))
    {
      hide *;
      TreeParts(S, rootFile, hash);
      FormedParts(platform, path);
      ghost var f, names := Snap(S), Names(platform, path);
      NamesLength(platform, path);
      top := e;
      var i := |path.parts| - 1;
      ParentIn(S, rootFile, top);
      NoTail(names, i);
      while i > 0 && top.parent != null && top.name == Bare(platform, path.parts[i])
        invariant 0 <= i < |path.parts| && top in S && |names| == |path.parts| - 1
        invariant top.parent == null <==> top == rootFile
        invariant Chain(f, rootFile, e) == Chain(f, rootFile, top) + names[i..]
      {
        NameAt(platform, path, i);
        ParentIn(S, rootFile, top);
        ChainUp(S, rootFile, top);
        assert names[i - 1..] == [names[i - 1]] + names[i..];
        top := top.parent;
        i := i - 1;
        ParentIn(S, rootFile, top);
      }
      if i > 0 {
        NameAt(platform, path, i);
      }
      ChainUp(S, rootFile, top);
      WalkEnds(Chain(f, rootFile, e), Chain(f, rootFile, top), names, i, top.name);
    }

    /** The entry that the database accepts for a path, or null when there is none. */
    method FindEntry(path: Path) returns (r: FileEntry?)
      requires TreeOk(S, rootFile, hash) && Recorded(Snap(S), S) && WellFormed(platform, path)
      ensures Rooted(Snap(S), rootFile) && path.parts != [] && path.crcs != []
      ensures r != null ==> r in S && Matches(Snap(S), rootFile, platform, path, r)
      ensures r == null ==> forall e :: e in S ==> !Matches(Snap(S), rootFile, platform, path, e)
      ensures Exactly(platform, hash, path) ==>
                if r != null then Is(Snap(S), rootFile, platform, path, r)
                else forall e :: e in S ==> !Is(Snap(S), rootFile, platform, path, e)
    {
      hide *;
      TreeParts(S, rootFile, hash);
      FormedParts(platform, path);
      MatchesParts(S, rootFile, platform, path);
      FoundExactly(S, rootFile, platform, hash, path);
      if path.parts[0] != rootFile.name {
        return null;
      }
      if |path.parts| == 1 {
        return rootFile;
      }
      var pathCrc := path.crcs[|path.crcs| - 1];
      PathIndexed(this, path);
      if pathCrc !in entriesMap {
        return null;
      }
      var bucket := entriesMap[pathCrc];
      BucketInside(this, pathCrc);
      for i := 0 to |bucket|
        invariant forall j :: 0 <= j < i ==> !Matches(Snap(S), rootFile, platform, path, bucket[j])
      {
        var top := WalkUp(bucket[i], path);
        if top == rootFile {
          return bucket[i];
        }
      }
      return null;
    }

    // ------------------------------------------------------------- reconciliation

    /** Marks the children of `p` for deletion, and counts them. */
    method MarkPhase(p: FileEntry, ghost listing: Listing) returns (files: int, dirs: int)
      requires TreeOk(S, rootFile, hash) && Recorded(Snap(S), S) && p in S
      modifies S`pendingDelete
      ensures TreeOk(S, rootFile, hash) && Recorded(Snap(S), S)
      ensures Progress(old(Snap(S)), Snap(S), rootFile, p, listing, {})
      ensures Snap(S) == MarkKids(old(Snap(S)), p)
      ensures files == |OfKind(Unseen(old(Snap(S)), p, {}), false)| &&
              dirs == |OfKind(Unseen(old(Snap(S)), p, {}), true)|
    {
      hide *;
      TreeParts(S, rootFile, hash);
      LinkedEach(S);
      SnapSame(S);
      SnapIdentity(S);
      ghost var f := Snap(S);
      BinsAreKids(S, p);
      UnseenAll(f, p);
      files, dirs := p.MarkChildrenPendingDelete();
      MarkedCounts(p.bins, Unseen(f, p, {}), files, dirs);
      SnapMarked(S, f, p);
      LinkedAll(S);
      StartProgress(f, rootFile, p, listing);
      MarkKidsCrcs(f, p);
      SameIdentity(this, f, S, f, p, listing, {});
    }

    /** A child that is still listed: it is not deleted after all, and a file gets the listed size. */
    method KeepChild(c: FileEntry, size: int, ghost p: FileEntry, ghost f0: Forest<FileEntry>, ghost listing: Listing,
                     ghost done: set<string>)
      requires TreeOk(S, rootFile, hash) && Recorded(Snap(S), S)
      requires Progress(f0, Snap(S), rootFile, p, listing, done)
      requires c in S && c.parent == p && c.name in listing && c.name !in done && listing[c.name].size == size
      modifies S`children, S`bins, S`size, S`nextEntry, S`parent, S`pathCrc, S`pendingDelete
      ensures TreeOk(S, rootFile, hash) && Recorded(Snap(S), S)
      ensures Progress(f0, Snap(S), rootFile, p, listing, done + {c.name})
      ensures c.isDir || old(c.size) == size ==> Snap(S) == Unmark(old(Snap(S)), c)
    {
      hide *;
      TreeParts(S, rootFile, hash);
      LinkedEach(S);
      SnapSame(S);
      SnapIdentity(S);
      SnapHas(S, c);
      ghost var f := Snap(S);
      c.UnmarkPendingDelete();
      SnapUnmarked(S, f, c);
      LinkedAll(S);
      if c.isDir || c.size == size {
        KeepProgress(f0, f, rootFile, p, listing, done, c, c.name);
        SnapIdentity(S);
        CrcsKept(f0, f, Snap(S), rootFile, p, listing, done, done + {c.name});
        SameIdentity(this, f, S, f0, p, listing, done + {c.name});
        return;
      }
      ResizeProgress(f0, f, rootFile, p, listing, done, c, c.name);
      c.SetSize(size, S, rootFile);
      SnapIdentity(S);
      CrcsKept(f0, f, Snap(S), rootFile, p, listing, done, done + {c.name});
      SameIdentity(this, f, S, f0, p, listing, done + {c.name});
    }

    /** Counts the new entry `e` and puts it in the bucket of its path hash. */
    method IndexEntry(e: FileEntry, ghost f: Forest<FileEntry>, ghost S0: set<FileEntry>)
      requires S == S0 + {e} && e !in S0 && Recorded(f, S0)
      requires forall x :: x in S0 ==> x in Snap(S) && x in f && Snap(S)[x].pathCrc == f[x].pathCrc
      modifies `entriesMap, `fileCount, `dirCount
      ensures Recorded(Snap(S), S)
    {
      hide *;
      SnapHas(S, e);
      AddedFits(this, f, S0, Snap(S), e);
      if e.isDir {
        dirCount := dirCount + 1;
      } else {
        fileCount := fileCount + 1;
      }
      var crc := e.pathCrc;
      if crc in entriesMap {
        entriesMap := entriesMap[crc := entriesMap[crc] + [e]];
      } else {
        entriesMap := entriesMap[crc := [e]];
      }
      RecordedNow(this, Snap(S), S);
    }

    /** A listed name without an entry: `e` is added, counted and indexed. */
    method AddEntry(e: FileEntry, p: FileEntry, ghost f0: Forest<FileEntry>, ghost listing: Listing,
                    ghost done: set<string>)
      requires TreeOk(S, rootFile, hash) && Recorded(Snap(S), S) && p in S
      requires Progress(f0, Snap(S), rootFile, p, listing, done) && !HasChild(Snap(S), p, e.name)
      requires e !in S && e.Offered(hash) && e.name in listing && e.name !in done &&
               listing[e.name] == Item(e.isDir, e.size)
      modifies this, S, e
      ensures S == old(S) + {e}
      ensures TreeOk(S, rootFile, hash) && Recorded(Snap(S), S)
      ensures Progress(f0, Snap(S), rootFile, p, listing, done + {e.name})
      ensures usedSpace == old(usedSpace) && hasChanges == old(hasChanges)
    {
      hide *;
      TreeParts(S, rootFile, hash);
      SnapIdentity(S);
      OfferedIs(e, hash);
      NodeHas(e);
      ghost var f, n, S0 := Snap(S), e.AsNode(), S;
      CanAttach(S, rootFile, p, e);
      AddProgress(f0, f, rootFile, p, listing, done, e, n);
      p.AddChild(e, S, rootFile);
      S := S + {e};
      SnapIdentity(S);
      SnapHas(S, e);
      CrcsKept(f0, f, Snap(S), rootFile, p, listing, done, done + {e.name});
      IndexEntry(e, f, S0);
      AddedTree(S0, S, f, e, rootFile, hash, f0, p, listing, done + {e.name});
    }

    /** Removes the marked children of `p`, which are the unlisted ones, and cleans up after them. */
    method Purge(p: FileEntry, ghost f0: Forest<FileEntry>, ghost listing: Listing) returns (deleted: seq<FileEntry>)
      requires TreeOk(S, rootFile, hash) && Recorded(Snap(S), S) && p in S
      requires Progress(f0, Snap(S), rootFile, p, listing, listing.Keys)
      modifies this, S
      ensures S <= old(S) && AllLinked(S) && Recorded(old(Snap(S)), S)
      ensures Rooted(old(Snap(S)), rootFile) && Unlisted(f0, p, listing) <= Kids(old(Snap(S)), p) && p in old(Snap(S))
      ensures S == old(S) - Doomed(old(Snap(S)), rootFile, Unlisted(f0, p, listing))
      ensures Snap(S) == RemoveKids(old(Snap(S)), rootFile, p, Unlisted(f0, p, listing))
      ensures |deleted| == |Unlisted(f0, p, listing)|
    {
      hide *;
      TreeParts(S, rootFile, hash);
      SnapFields(S);
      ghost var f, S0, dead := Snap(S), S, Unlisted(f0, p, listing);
      FinishProgress(f0, f, rootFile, p, listing);
      MarkedIs(S, p);
      SweptIs(S, p, dead);
      ghost var T := p.Survivors(S, rootFile);
      SurvivorsAre(S, rootFile, p);
      deleted := p.RemovePendingDelete(S, rootFile);
      IntactNow(f, S0 - T);
      DeletedUnder(f, rootFile, p, deleted, dead);
      assert S0 - Under(f, rootFile, deleted) == T;
      CleanupAll(deleted, p, f, S0, S0 - T);
      S := T;
    }

    /** Deletes the children that are still marked, with all that is below them. */
    method SweepPhase(p: FileEntry, files: int, dirs: int, ghost f0: Forest<FileEntry>, ghost listing: Listing,
                      ghost added: seq<FileEntry>, ghost entries: seq<FileEntry>)
      returns (deleted: seq<FileEntry>)
      requires TreeOk(S, rootFile, hash) && Recorded(Snap(S), S) && p in S
      requires Progress(f0, Snap(S), rootFile, p, listing, listing.Keys)
      requires files == |OfKind(Unlisted(f0, p, listing), false)| && dirs == |OfKind(Unlisted(f0, p, listing), true)|
      requires Joined(added, entries, f0.Keys, S)
      modifies this, S
      ensures TreeOk(S, rootFile, hash) && Recorded(Snap(S), S) && S <= old(S)
      ensures Finished(f0, Snap(S), rootFile, p, listing) && Joined(added, entries, f0.Keys, S)
      ensures |deleted| == files + dirs
      ensures deleted == [] ==> Snap(S) == old(Snap(S))
    {
      hide *;
      TreeParts(S, rootFile, hash);
      SnapFields(S);
      ghost var f, S0, dead := Snap(S), S, Unlisted(f0, p, listing);
      FinishProgress(f0, f, rootFile, p, listing);
      KindsSplit(dead);
      deleted := [];
      if files + dirs > 0 {
        RemoveCrcs(f, rootFile, p, dead);
        deleted := Purge(p, f0, listing);
        SnapFields(S);
        StillJoined(f0, f, rootFile, p, listing, added, entries, S0, S);
        SweptTree(this, f, f0, p, listing);
      } else {
        RemoveNone(f, rootFile, p);
        assert dead == {};
      }
    }

    /** The entries in order of decreasing size. */
    static method SortedBySize(entries: seq<FileEntry>) returns (sorted: seq<FileEntry>)
      ensures multiset(sorted) == multiset(entries)
      ensures forall i, j :: 0 <= i < j < |sorted| ==> sorted[i].size >= sorted[j].size
    {
      sorted := [];
      for i := 0 to |entries|
        invariant multiset(sorted) == multiset(entries[..i])
        invariant forall j, k :: 0 <= j < k < |sorted| ==> sorted[j].size >= sorted[k].size
      {
        var at := PlaceFor(sorted, entries[i].size);
        Inserted(sorted, at, entries[i]);
        assert entries[..i + 1] == entries[..i] + [entries[i]];
        sorted := sorted[..at] + [entries[i]] + sorted[at..];
      }
      assert entries[..|entries|] == entries;
    }

    static method PlaceFor(sorted: seq<FileEntry>, size: int) returns (at: nat)
      requires forall j, k :: 0 <= j < k < |sorted| ==> sorted[j].size >= sorted[k].size
      ensures at <= |sorted| && (forall j :: 0 <= j < at ==> sorted[j].size >= size)
      ensures forall j :: at <= j < |sorted| ==> sorted[j].size <= size
    {
      at := 0;
      while at < |sorted| && sorted[at].size >= size
        invariant 0 <= at <= |sorted|
        invariant forall j :: 0 <= j < at ==> sorted[j].size >= size
      {
        at := at + 1;
      }
    }

    /** The next entry of the listing: kept, resized or added. */
    method TakeEntry(e: FileEntry, p: FileEntry, ghost f0: Forest<FileEntry>, ghost listing: Listing,
                     ghost done: set<string>,
                     files0: int, dirs0: int) returns (files: int, dirs: int, isNew: bool)
      requires TreeOk(S, rootFile, hash) && Recorded(Snap(S), S) && p in S
      requires Progress(f0, Snap(S), rootFile, p, listing, done)
      requires e !in S && e.Offered(hash) && e.name in listing && e.name !in done &&
               listing[e.name] == Item(e.isDir, e.size)
      requires files0 == |OfKind(Unseen(f0, p, done), false)| && dirs0 == |OfKind(Unseen(f0, p, done), true)|
      modifies this, S, e
      ensures S == if isNew then old(S) + {e} else old(S)
      ensures TreeOk(S, rootFile, hash) && Recorded(Snap(S), S) && p in S
      ensures Progress(f0, Snap(S), rootFile, p, listing, done + {e.name})
      ensures files == |OfKind(Unseen(f0, p, done + {e.name}), false)| &&
              dirs == |OfKind(Unseen(f0, p, done + {e.name}), true)|
      ensures old(Quiet(f0, Snap(S), p, listing)) ==> !isNew && Quiet(f0, Snap(S), p, listing)
    {
      hide *;
      OfferedIs(e, hash);
      files, dirs := files0, dirs0;
      var existing := FindChild(e.name, e.nameCrc, p);
      QuietNext(f0, S, p, listing, e.name, existing);
      if existing != null {
        SnapHas(S, existing);
        UnseenKept(f0, Snap(S), rootFile, p, listing, done, existing);
        KeepChild(existing, e.size, p, f0, listing, done);
        isNew := false;
        if existing.isDir {
          dirs := dirs - 1;
        } else {
          files := files - 1;
        }
      } else {
        UnseenAdded(f0, Snap(S), rootFile, p, listing, done, e.name);
        AddEntry(e, p, f0, listing, done);
        isNew := true;
      }
    }

    /** A directory that was added is to be scanned, if the caller wants to know. */
    method CollectPath(e: FileEntry, path: Path, collect: bool, paths: seq<Path>, ghost added: seq<FileEntry>)
      returns (newPaths: seq<Path>)
      requires path.crcs != [] && paths == if collect then DirPaths(platform, hash, path, added) else []
      ensures newPaths == if collect then DirPaths(platform, hash, path, added + [e]) else []
    {
      hide *;
      DirPathsNext(platform, hash, path, added, e);
      newPaths := paths;
      if e.isDir && collect {
        newPaths := newPaths + [WithDir(platform, hash, path, e.name, e.nameCrc)];
      }
    }

    /** Takes all entries of the listing in turn. */
    method TakeAll(sorted: seq<FileEntry>, p: FileEntry, path: Path, collect: bool, files0: int, dirs0: int,
                   ghost f0: Forest<FileEntry>, ghost listing: Listing)
      returns (files: int, dirs: int, newPaths: seq<Path>, ghost added: seq<FileEntry>)
      requires TreeOk(S, rootFile, hash) && Recorded(Snap(S), S) && p in S && path.crcs != []
      requires Progress(f0, Snap(S), rootFile, p, listing, {})
      requires Lists(sorted, listing) && Waits(sorted, hash, listing) && forall e :: e in sorted ==> e !in S
      requires files0 == |OfKind(Unseen(f0, p, {}), false)| && dirs0 == |OfKind(Unseen(f0, p, {}), true)|
      modifies this, S, sorted
      ensures TreeOk(S, rootFile, hash) && Recorded(Snap(S), S) && p in S
      ensures Progress(f0, Snap(S), rootFile, p, listing, listing.Keys)
      ensures files == |OfKind(Unlisted(f0, p, listing), false)| && dirs == |OfKind(Unlisted(f0, p, listing), true)|
      ensures Joined(added, sorted, old(S), S)
      ensures newPaths == if collect then DirPaths(platform, hash, path, added) else []
      ensures old(Quiet(f0, Snap(S), p, listing)) ==> added == [] && Quiet(f0, Snap(S), p, listing)
    {
      hide *;
      files, dirs, newPaths, added := files0, dirs0, [], [];
      ghost var done: set<string>, S0 := {}, S;
      ghost var quiet := Quiet(f0, Snap(S), p, listing);
      AllWait(sorted, S);
      DirPathsNone(platform, hash, path);
      for i := 0 to |sorted|
        invariant TreeOk(S, rootFile, hash) && Recorded(Snap(S), S) && p in S
        invariant Progress(f0, Snap(S), rootFile, p, listing, done) && done == NamesOf(sorted[..i])
        invariant files == |OfKind(Unseen(f0, p, done), false)| && dirs == |OfKind(Unseen(f0, p, done), true)|
        invariant Waits(sorted[i..], hash, listing) && forall e :: e in sorted[i..] ==> e !in S
        invariant Joined(added, sorted[..i], S0, S) && S0 <= S
        invariant quiet ==> added == [] && Quiet(f0, Snap(S), p, listing)
        invariant newPaths == if collect then DirPaths(platform, hash, path, added) else []
      {
        NextWaits(sorted, i, S, hash, listing);
        JoinedWider(added, sorted[..i], sorted, S0, S);
        var e := sorted[i];
        ghost var S1 := S;
        var isNew;
        files, dirs, isNew := TakeEntry(e, p, f0, listing, done, files, dirs);
        JoinedNext(added, sorted, i, S0, S1, isNew);
        if isNew {
          newPaths := CollectPath(e, path, collect, newPaths, added);
          added := added + [e];
        }
        done := done + {e.name};
      }
      AllNames(sorted, listing);
      UnseenIsUnlisted(f0, p, listing);
    }

    /** Brings the children of `p` in line with the sorted entries. */
    method Bring(sorted: seq<FileEntry>, p: FileEntry, path: Path, collect: bool, ghost listing: Listing)
      returns (newPaths: seq<Path>, ghost added: seq<FileEntry>)
      requires TreeOk(S, rootFile, hash) && Recorded(Snap(S), S) && p in S && path.crcs != []
      requires Lists(sorted, listing) && Waits(sorted, hash, listing) && forall e :: e in sorted ==> e !in S
      modifies this, S, sorted
      ensures TreeOk(S, rootFile, hash) && Recorded(Snap(S), S)
      ensures Finished(old(Snap(S)), Snap(S), rootFile, p, listing)
      ensures Joined(added, sorted, old(S), S)
      ensures newPaths == if collect then DirPaths(platform, hash, path, added) else []
      ensures Settled(old(Snap(S)), p, listing) ==> Snap(S) == old(Snap(S)) && added == []
    {
      hide *;
      ghost var f0 := Snap(S);
      SnapFields(S);
      QuietStarts(f0, p, listing);
      var files, dirs := MarkPhase(p, listing);
      files, dirs, newPaths, added := TakeAll(sorted, p, path, collect, files, dirs, f0, listing);
      JoinedWider(added, sorted, sorted, f0.Keys, S);
      QuietEnds(f0, Snap(S), rootFile, p, listing);
      KindsSplit(Unlisted(f0, p, listing));
      var deleted := SweepPhase(p, files, dirs, f0, listing, added, sorted);
    }

    /**
     Makes the children of the directory at `path` be exactly the listed ones. Nothing changes when the
     path is not that of a directory or is not found. New directories are returned on request.
     */
    method SetChildrenForPath(path: Path, entries: seq<FileEntry>, collect: bool, ghost listing: Listing)
      returns (ok: bool, newPaths: seq<Path>, ghost target: FileEntry?, ghost added: seq<FileEntry>)
      requires Valid() && WellFormed(platform, path)
      requires Lists(entries, listing) && Waits(entries, hash, listing) && forall e :: e in entries ==> e !in S
      modifies this, S, entries
      ensures Valid() && Rooted(old(Snap(S)), rootFile) && path.parts != [] && path.crcs != []
      ensures ok ==> IsDir(platform, path) && target != null && target in old(S)
      ensures ok ==> Matches(old(Snap(S)), rootFile, platform, path, target)
      ensures !ok ==> !IsDir(platform, path) || forall e :: e in old(S) ==>
                !Matches(old(Snap(S)), rootFile, platform, path, e)
      ensures !ok ==> S == old(S) && Snap(S) == old(Snap(S)) && newPaths == [] && hasChanges == old(hasChanges)
      ensures ok ==> Finished(old(Snap(S)), Snap(S), rootFile, target, listing) && hasChanges
      ensures ok ==> Joined(added, entries, old(S), S)
      ensures ok ==> newPaths == if collect then DirPaths(platform, hash, path, added) else []
      ensures ok && Settled(old(Snap(S)), target, listing) ==> Snap(S) == old(Snap(S)) && added == []
      ensures ok && Exactly(platform, hash, path) ==> Is(old(Snap(S)), rootFile, platform, path, target)
      ensures !ok && Exactly(platform, hash, path) ==>
                !IsDir(platform, path) || forall e :: e in old(S) ==> !Is(old(Snap(S)), rootFile, platform, path, e)
      ensures Rooted(Snap(S), rootFile)
      ensures ok && Tidy(old(Snap(S))) ==>
                TreeOf(Snap(S), rootFile) ==
                Reconciled(TreeOf(old(Snap(S)), rootFile), Chain(old(Snap(S)), rootFile, target), listing)
    {
      hide *;
      ok, newPaths, target, added := false, [], null, [];
      ValidParts(this);
      TreeParts(S, rootFile, hash);
      FormedParts(platform, path);
      if !IsDir(platform, path) {
        return;
      }
      var sorted := SortedBySize(entries);
      SortedLists(entries, sorted, S, hash, listing);
      var p := FindEntry(path);
      if p == null {
        return;
      }
      ghost var S0, f0 := S, Snap(S);
      target := p;
      newPaths, added := Bring(sorted, p, path, collect, listing);
      JoinedWider(added, sorted, entries, S0, S);
      TreeParts(S, rootFile, hash);
      MirrorsListing(f0, Snap(S), rootFile, p, listing);
      usedSpace := rootFile.size;
      hasChanges := true;
      ok := true;
      ValidNow(this);
    }

    // ------------------------------------------------------------------- cleanup

    /** Takes `e`, which is deleted, and all that is below it out of the index and the counts. */
    method CleanupEntryCrc(e: FileEntry, ghost f: Forest<FileEntry>, ghost X: set<FileEntry>, ghost D: set<FileEntry>)
      requires Rooted(f, rootFile) && Housed(f) && e in f && e != rootFile
      requires Intact(f, D) && Recorded(f, X) && Under(f, rootFile, [e]) <= D * X
      modifies `entriesMap, `fileCount, `dirCount
      ensures Recorded(f, X - Under(f, rootFile, [e]))
      decreases Under(f, rootFile, [e]), 0
    {
      hide *;
      UnderSelf(f, rootFile, e);
      IntactHas(f, D, e);
      var any, visited := e.ForEach((child: FileEntry) => true);
      VisitedKids(f, rootFile, e, visited);
      UnderKids(f, rootFile, e, visited);
      CleanupAll(visited, e, f, X, D);
      ghost var Y := X - Under(f, rootFile, visited);
      RecordedHas(this, f, Y, e);
      assert Y - {e} == X - Under(f, rootFile, [e]);
      if e.pathCrc in entriesMap {
        var bucket := entriesMap[e.pathCrc];
        for i := 0 to |bucket|
          invariant (forall j :: 0 <= j < i ==> bucket[j] != e) && Recorded(f, Y) && bucket == entriesMap[e.pathCrc]
        {
          if bucket[i] == e {
            ErasedFits(this, f, Y, e, i);
            EraseIs(entriesMap, e.pathCrc, i);
            if e.isDir {
              dirCount := dirCount - 1;
            } else {
              fileCount := fileCount - 1;
            }
            var left := bucket[..i] + bucket[i + 1..];
            entriesMap := if left == [] then entriesMap - {e.pathCrc} else entriesMap[e.pathCrc := left];
            RecordedNow(this, f, Y - {e});
            return;
          }
        }
      }
    }

    /** Does the same for a list of deleted children of `p`. */
    method CleanupAll(cs: seq<FileEntry>, ghost p: FileEntry, ghost f: Forest<FileEntry>, ghost X: set<FileEntry>,
                      ghost D: set<FileEntry>)
      requires Rooted(f, rootFile) && Housed(f) && Distinct(cs)
      requires forall c :: c in cs ==> c in f && f[c].parent == Some(p)
      requires Intact(f, D) && Recorded(f, X) && Under(f, rootFile, cs) <= D * X
      modifies `entriesMap, `fileCount, `dirCount
      ensures Recorded(f, X - Under(f, rootFile, cs))
      decreases Under(f, rootFile, cs), 1
    {
      hide *;
      UnderNone(f, rootFile);
      assert cs[..0] == [] && X - Under(f, rootFile, cs[..0]) == X;
      for i := 0 to |cs|
        invariant Recorded(f, X - Under(f, rootFile, cs[..i]))
      {
        UnderNext(f, rootFile, cs, i);
        UnderApart(f, rootFile, p, cs, i);
        NotTheRoot(f, rootFile, cs[i]);
        CleanupEntryCrc(cs[i], f, X - Under(f, rootFile, cs[..i]), D);
        assert X - Under(f, rootFile, cs[..i]) - Under(f, rootFile, [cs[i]]) == X - Under(f, rootFile, cs[..i + 1]);
      }
      assert cs[..|cs|] == cs;
    }
  }

  // ------------------------------------------------------------ facts for cleanup

  ghost predicate IntactAt(f: Forest<FileEntry>, D: set<FileEntry>, x: FileEntry)
    requires x in D
    reads D
  {
    x in f && x.bins == f[x].bins && x.pathCrc == f[x].pathCrc && Chained(x.bins) <= D && x.Linked()
  }

  /** The entries in `D` still have the links and the hashes that they have in `f`. */
  ghost predicate Intact(f: Forest<FileEntry>, D: set<FileEntry>)
    reads D
  {
    forall x {:trigger IntactAt(f, D, x)} :: x in D ==> IntactAt(f, D, x)
  }

  lemma IntactHas(f: Forest<FileEntry>, D: set<FileEntry>, x: FileEntry)
    requires Intact(f, D) && x in D
    ensures x in f && x.bins == f[x].bins && x.pathCrc == f[x].pathCrc && x.Linked()
  {
    assert IntactAt(f, D, x);
  }

  lemma UnderSelf<E>(f: Forest<E>, root: E, e: E)
    requires Rooted(f, root) && e in f
    ensures e in Under(f, root, [e])
  {
    assert Anc(f, root, e, e) && e in [e];
  }

  lemma NotTheRoot<E>(f: Forest<E>, root: E, c: E)
    requires Rooted(f, root) && c in f && f[c].parent.Some?
    ensures c != root
  {
    assert Placed(f, root, c);
  }

  /** A traversal that is never stopped visits each child once. */
  lemma VisitedKids(f: Forest<FileEntry>, root: FileEntry, e: FileEntry, visited: seq<FileEntry>)
    requires Rooted(f, root) && Housed(f) && e in f && visited == Until(Flat(f[e].bins), (child: FileEntry) => true)
    ensures Distinct(visited)
    ensures forall c :: c in visited <==> c in Kids(f, e)
    ensures forall c :: c in visited ==> c in f && f[c].parent == Some(e)
  {
    UntilAll(Flat(f[e].bins), (child: FileEntry) => true);
    assert Binned(f, e) && multiset(visited) == multiset(Kids(f, e));
    forall c: FileEntry
      ensures c in visited <==> c in Kids(f, e)
    {
      assert c in visited <==> c in multiset(visited);
    }
    forall c | c in visited
      ensures multiset(visited)[c] == 1
    {
      assert multiset(Kids(f, e))[c] == 1;
    }
    OnceIsDistinct(visited);
  }

  lemma RecordedHas(db: FileDB, f: Forest<FileEntry>, X: set<FileEntry>, e: FileEntry)
    requires db.Recorded(f, X) && e in X && e != db.rootFile
    ensures e in f && f[e].pathCrc in db.entriesMap && e in db.entriesMap[f[e].pathCrc]
  {
    assert Found(db.entriesMap, f, e);
  }

  /** The books once `e` is taken out of its bucket and no longer counted. */
  lemma ErasedFits(db: FileDB, f: Forest<FileEntry>, X: set<FileEntry>, e: FileEntry, i: nat)
    requires db.Recorded(f, X) && e in X && e != db.rootFile && e in f
    requires f[e].pathCrc in db.entriesMap && i < |db.entriesMap[f[e].pathCrc]| && db.entriesMap[f[e].pathCrc][i] == e
    ensures db.rootFile in X - {e}
    ensures Indexed(Erase(db.entriesMap, f[e].pathCrc, i), f, X - {e} - {db.rootFile})
    ensures db.fileCount - (if e.isDir then 0 else 1) == |OfKind(X - {e}, false)|
    ensures db.dirCount - (if e.isDir then 1 else 0) == |OfKind(X - {e}, true)|
  {
    EraseIndexed(db.entriesMap, f, X - {db.rootFile}, f[e].pathCrc, i);
    assert X - {e} - {db.rootFile} == X - {db.rootFile} - {e};
    OfKindLess(X, e, false);
    OfKindLess(X, e, true);
  }

  lemma RecordedNow(db: FileDB, f: Forest<FileEntry>, X: set<FileEntry>)
    requires db.rootFile in X && Indexed(db.entriesMap, f, X - {db.rootFile})
    requires db.fileCount == |OfKind(X, false)| && db.dirCount == |OfKind(X, true)|
    ensures db.Recorded(f, X)
  {
  }

  lemma EraseIs<E>(m: Buckets<E>, k: Crc, i: nat)
    requires k in m && i < |m[k]|
    ensures var left := m[k][..i] + m[k][i + 1..];
            Erase(m, k, i) == if left == [] then m - {k} else m[k := left]
  {
  }

  lemma LoneRoot(root: FileEntry, hash: string -> Crc)
    requires root.Offered(hash) && root.isDir && root.parent == null && root.depth == 0 && root.pathCrc == root.nameCrc
    ensures TreeOk({root}, root, hash)
  {
    var f := Snap({root});
    EmptyBag<FileEntry>();
    assert Kids(f, root) == {};
    assert Placed(f, root, root) && Binned(f, root) && HashedAt(f, root);
    assert LinkedIn(root, {root});
    assert forall s, e :: !FiledAt(f[root].bins, s, e);
  }

  lemma RootText(pl: Platform, hash: string -> Crc, path: string)
    ensures var name := Normalized(pl, path, Add);
            RootPath(pl, hash, path, Zero) == Path([name], [hash(name)]) && Concat([name]) == name
  {
    hide Normalized;
    assert [Normalized(pl, path, Add)][1..] == [];
  }

  lemma LoneValid(db: FileDB)
    requires db.S == {db.rootFile} && TreeOk(db.S, db.rootFile, db.hash) && db.entriesMap == map[]
    requires db.fileCount == |OfKind({db.rootFile}, false)| && db.dirCount == |OfKind({db.rootFile}, true)|
    requires db.usedSpace == 0 == db.rootFile.size
    requires db.rootPath == Path([db.rootFile.name], [db.hash(db.rootFile.name)])
    ensures db.Valid()
  {
    hide TreeOk, OfKind;
    assert db.S - {db.rootFile} == {};
  }

  lemma LoneCounts(root: FileEntry)
    requires root.isDir
    ensures |OfKind({root}, false)| == 0 && |OfKind({root}, true)| == 1
  {
    assert OfKind({root}, false) == {} && OfKind({root}, true) == {root};
  }

  // ------------------------------------------------------------ facts for lookups

  lemma FormedParts(pl: Platform, p: Path)
    requires WellFormed(pl, p)
    ensures p.parts != [] && |p.crcs| == |p.parts| && p.crcs != []
  {
  }

  lemma NoTail(names: seq<string>, i: nat)
    requires i == |names|
    ensures names[i..] == [] && forall q: seq<string> :: q == q + names[i..]
  {
  }

  lemma NameAt(pl: Platform, p: Path, i: nat)
    requires 0 < i < |p.parts|
    ensures |Names(pl, p)| == |p.parts| - 1 && Names(pl, p)[i - 1] == Bare(pl, p.parts[i])
  {
  }

  lemma ChainUp(S: set<FileEntry>, root: FileEntry, e: FileEntry)
    requires Rooted(Snap(S), root) && e in S
    ensures e in Snap(S) && (e.parent == null <==> e == root)
    ensures e == root ==> Chain(Snap(S), root, e) == []
    ensures e != root ==> e.parent in S && Chain(Snap(S), root, e) == Chain(Snap(S), root, e.parent) + [e.name]
  {
    assert Placed(Snap(S), root, e);
  }

  /** The walk has stopped: at the root, at an entry with a name that does not agree, or with all names used up. */
  lemma WalkEnds(q: seq<string>, top: seq<string>, names: seq<string>, i: nat, name: string)
    requires i <= |names| && q == top + names[i..]
    requires top == [] || i == 0 || name != names[i - 1]
    requires top != [] ==> top[|top| - 1] == name
    ensures IsSuffix(q, names) <==> top == []
  {
    if top != [] && i > 0 && |q| <= |names| {
      assert q[|top| - 1] == name;
      assert names[|names| - |q|..][|top| - 1] == names[i - 1];
    }
  }

  lemma BucketInside(db: FileDB, k: Crc)
    requires TreeOk(db.S, db.rootFile, db.hash) && db.Recorded(Snap(db.S), db.S) && k in db.entriesMap
    ensures forall e :: e in db.entriesMap[k] ==> e in db.S && e in Snap(db.S) && e != db.rootFile && e.pathCrc == k
    ensures Distinct(db.entriesMap[k])
  {
    assert BucketOk(db.entriesMap, Snap(db.S), db.S - {db.rootFile}, k);
  }

  /** A child with the name is in the bucket of its hash. */
  lemma ChildIndexed(db: FileDB, parent: FileEntry, name: string)
    requires TreeOk(db.S, db.rootFile, db.hash) && db.Recorded(Snap(db.S), db.S) && parent in db.S
    ensures forall k {:trigger k in db.entriesMap} :: k == Xor(parent.pathCrc, db.hash(name)) ==>
              && (k !in db.entriesMap ==> !HasChild(Snap(db.S), parent, name))
              && (k in db.entriesMap && HasChild(Snap(db.S), parent, name) ==>
                    exists i :: 0 <= i < |db.entriesMap[k]| && db.entriesMap[k][i].parent == parent &&
                      db.entriesMap[k][i].name == name)
  {
    hide Xor;
    var f, k := Snap(db.S), Xor(parent.pathCrc, db.hash(name));
    if HasChild(f, parent, name) {
      var e :| e in f && f[e].parent == Some(parent) && f[e].name == name;
      assert HashedAt(f, e) && Placed(f, db.rootFile, db.rootFile);
      assert Found(db.entriesMap, f, e);
      assert db.entriesMap[k][..] == db.entriesMap[k];
    }
  }

  /** An accepted entry below the root is in the bucket of the path's hash. */
  lemma PathIndexed(db: FileDB, path: Path)
    requires TreeOk(db.S, db.rootFile, db.hash) && db.Recorded(Snap(db.S), db.S) && |path.parts| > 1 && path.crcs != []
    ensures Rooted(Snap(db.S), db.rootFile)
    ensures forall e :: e in db.S && Matches(Snap(db.S), db.rootFile, db.platform, path, e) ==>
              path.crcs[|path.crcs| - 1] in db.entriesMap && e in db.entriesMap[path.crcs[|path.crcs| - 1]]
  {
    forall e | e in db.S && Matches(Snap(db.S), db.rootFile, db.platform, path, e)
      ensures path.crcs[|path.crcs| - 1] in db.entriesMap && e in db.entriesMap[path.crcs[|path.crcs| - 1]]
    {
      assert Found(db.entriesMap, Snap(db.S), e);
    }
  }

  lemma MatchesParts(S: set<FileEntry>, root: FileEntry, pl: Platform, path: Path)
    requires Rooted(Snap(S), root) && root in S && path.parts != [] && path.crcs != []
    ensures path.parts[0] != root.name ==> forall e :: e in S ==> !Matches(Snap(S), root, pl, path, e)
    ensures |path.parts| == 1 && path.parts[0] == root.name ==> Matches(Snap(S), root, pl, path, root)
    ensures |path.parts| > 1 && path.parts[0] == root.name ==> forall e :: e in S ==>
              (Matches(Snap(S), root, pl, path, e) <==>
                 e != root && e.pathCrc == path.crcs[|path.crcs| - 1] &&
                   IsSuffix(Chain(Snap(S), root, e), Names(pl, path)))
  {
  }

  // ----------------------------------------------------- facts for reconciliation

  /** The children of `p` whose names have not come up yet. */
  ghost function Unseen<E>(f0: Forest<E>, p: E, done: set<string>): set<E> {
    set e | e in Kids(f0, p) && f0[e].name !in done
  }

  lemma UnseenAll<E>(f0: Forest<E>, p: E)
    ensures Unseen(f0, p, {}) == Kids(f0, p)
  {
  }

  lemma BinsAreKids(S: set<FileEntry>, p: FileEntry)
    requires p in S && Housed(Snap(S))
    ensures Bag(p.bins) == multiset(Kids(Snap(S), p))
    ensures forall e :: e in Chained(p.bins) <==> e in S && e.parent == p
  {
    assert Binned(Snap(S), p);
    ChainedKids(S, p);
  }

  lemma MarkedCounts(bs: seq<Bin<FileEntry>>, X: set<FileEntry>, files: int, dirs: int)
    requires Bag(bs) == multiset(X)
    requires files == CountKind(Flat(bs), false) && dirs == CountKind(Flat(bs), true)
    ensures files == |OfKind(X, false)| && dirs == |OfKind(X, true)|
  {
    CountIsSize(Flat(bs), X, false);
    CountIsSize(Flat(bs), X, true);
  }

  /** `f` has the present fields of `e`, marks apart. */
  ghost predicate SameUnmarked(f: Forest<FileEntry>, e: FileEntry)
    reads e`parent, e`size, e`pathCrc, e`bins, e`depth
  {
    && e in f && f[e].name == e.name && f[e].dir == e.isDir && f[e].nameCrc == e.nameCrc
    && f[e].parent == (if e.parent == null then None else Some(e.parent))
    && f[e].size == e.size && f[e].pathCrc == e.pathCrc && f[e].bins == e.bins && f[e].depth == e.depth
  }

  lemma SnapIdentity(S: set<FileEntry>)
    ensures Snap(S).Keys == S
    ensures forall e :: e in S ==> SameUnmarked(Snap(S), e)
    ensures forall e :: e in S ==> e in Snap(S) && Snap(S)[e].name == e.name && Snap(S)[e].nameCrc == e.nameCrc
  {
  }

  lemma MarkKidsCrcs<E>(f: Forest<E>, p: E)
    ensures MarkKids(f, p).Keys == f.Keys
    ensures forall e :: e in f ==> MarkKids(f, p)[e].pathCrc == f[e].pathCrc
  {
  }

  /** Between two steps of a reconciliation no path hash changes. */
  lemma CrcsKept<E>(f0: Forest<E>, f: Forest<E>, g: Forest<E>, root: E, p: E, listing: Listing, done: set<string>,
                    done': set<string>)
    requires Progress(f0, f, root, p, listing, done) && Progress(f0, g, root, p, listing, done') && f.Keys <= g.Keys
    requires forall e :: e in f ==> e in g && g[e].nameCrc == f[e].nameCrc
    ensures forall e :: e in f ==> g[e].pathCrc == f[e].pathCrc
  {
    hide Xor;
    OldKin(f0, f, root, p, listing, done, p);
    OldKin(f0, g, root, p, listing, done', p);
    forall e | e in f
      ensures g[e].pathCrc == f[e].pathCrc
    {
      if e in f0 {
        OldKin(f0, f, root, p, listing, done, e);
        OldKin(f0, g, root, p, listing, done', e);
      } else {
        assert NewOk(f, p, listing, done, e) && NewOk(g, p, listing, done', e);
        assert HashedAt(f, e) && HashedAt(g, e);
      }
    }
  }

  lemma SnapMarked(S: set<FileEntry>, f: Forest<FileEntry>, p: FileEntry)
    requires f.Keys == S
    requires forall e :: e in S ==> SameUnmarked(f, e)
    requires forall e :: e in S && e.parent != p ==> Same(f, e)
    requires forall e :: e in S && e.parent == p ==> e.pendingDelete
    ensures Snap(S) == MarkKids(f, p)
  {
    forall e | e in S
      ensures e.AsNode() == MarkKids(f, p)[e]
    {
      assert SameUnmarked(f, e);
      assert e.parent != p ==> Same(f, e);
    }
  }

  lemma SnapUnmarked(S: set<FileEntry>, f: Forest<FileEntry>, c: FileEntry)
    requires f.Keys == S && c in S && SameUnmarked(f, c) && !c.pendingDelete
    requires forall e :: e in S && e != c ==> Same(f, e)
    ensures Snap(S) == Unmark(f, c)
  {
    forall e | e in S && e != c
      ensures e.AsNode() == f[e]
    {
      assert Same(f, e);
    }
  }

  /** Reconciling keeps names, hashes and places, and so the index and the counts. */
  lemma SameIdentity(db: FileDB, f: Forest<FileEntry>, S: set<FileEntry>, f0: Forest<FileEntry>, p: FileEntry,
                     listing: Listing, done: set<string>)
    requires db.S == S && S == f.Keys && db.rootFile in S && db.rootFile.isDir && AllLinked(S)
    requires db.Recorded(f, S) && NamesHashed(f, db.hash)
    requires Progress(f0, Snap(S), db.rootFile, p, listing, done)
    requires forall e :: e in S ==> e in Snap(S) && Snap(S)[e].pathCrc == f[e].pathCrc
    requires forall e :: e in S ==> f[e].name == e.name && f[e].nameCrc == e.nameCrc
    ensures TreeOk(S, db.rootFile, db.hash) && db.Recorded(Snap(S), S)
  {
    SameCrcsIndexed(db.entriesMap, f, Snap(S), S - {db.rootFile});
  }

  lemma OfferedIs(e: FileEntry, hash: string -> Crc)
    requires e.Offered(hash)
    ensures e.name != "" && e.nameCrc == hash(e.name) && e.children == [] && e.bins == [] && !e.pendingDelete
  {
  }

  /** The books with one more entry. */
  lemma AddedFits(db: FileDB, f: Forest<FileEntry>, S0: set<FileEntry>, g: Forest<FileEntry>, e: FileEntry)
    requires db.Recorded(f, S0) && e !in S0 && e in g
    requires forall x :: x in S0 ==> x in g && x in f && g[x].pathCrc == f[x].pathCrc
    ensures db.rootFile in S0 + {e}
    ensures var k := g[e].pathCrc;
            Indexed(db.entriesMap[k := if k in db.entriesMap then db.entriesMap[k] + [e] else [e]],
                    g, S0 + {e} - {db.rootFile})
    ensures db.fileCount + (if e.isDir then 0 else 1) == |OfKind(S0 + {e}, false)|
    ensures db.dirCount + (if e.isDir then 1 else 0) == |OfKind(S0 + {e}, true)|
  {
    var X := S0 - {db.rootFile};
    SameCrcsIndexed(db.entriesMap, f, g, X);
    AddIndexed(db.entriesMap, g, X, e);
    assert [] + [e] == [e];
    assert X + {e} == S0 + {e} - {db.rootFile} && S0 + {e} - {e} == S0;
    OfKindLess(S0 + {e}, e, false);
    OfKindLess(S0 + {e}, e, true);
  }

  lemma AddedTree(S0: set<FileEntry>, S: set<FileEntry>, f: Forest<FileEntry>, e: FileEntry, root: FileEntry,
                  hash: string -> Crc,
                  f0: Forest<FileEntry>, p: FileEntry, listing: Listing, done: set<string>)
    requires S == S0 + {e} && S0 == f.Keys && NamesHashed(f, hash) && e.nameCrc == hash(e.name)
    requires forall x :: x in S0 ==> f[x].name == x.name && f[x].nameCrc == x.nameCrc
    requires root in S && root.isDir && AllLinked(S) && Progress(f0, Snap(S), root, p, listing, done)
    ensures TreeOk(S, root, hash)
  {
  }

  lemma SnapFields(S: set<FileEntry>)
    ensures Snap(S).Keys == S
    ensures forall e :: e in S ==> e in Snap(S) && Snap(S)[e].bins == e.bins && Snap(S)[e].pathCrc == e.pathCrc
    ensures forall e :: e in S ==> e in Snap(S) && Snap(S)[e].name == e.name && Snap(S)[e].nameCrc == e.nameCrc
  {
  }

  lemma MarkedIs(S: set<FileEntry>, p: FileEntry)
    requires p in S && Housed(Snap(S))
    ensures p.Marked() == MarkedKids(Snap(S), p)
  {
    BinsAreKids(S, p);
  }

  lemma KindsSplit(X: set<FileEntry>)
    ensures |OfKind(X, false)| + |OfKind(X, true)| == |X|
  {
    assert X == OfKind(X, false) + OfKind(X, true);
  }

  /** A sweep hands over each dead child exactly once. */
  lemma SweptIs(S: set<FileEntry>, p: FileEntry, dead: set<FileEntry>)
    requires p in S && Housed(Snap(S)) && dead <= Kids(Snap(S), p)
    ensures Proper(p.bins)
    ensures var deleted := Swept(p.bins, dead);
            && Distinct(deleted) && |deleted| == |dead|
            && (forall e :: e in deleted ==> e in dead) && (forall e :: e in dead ==> e in deleted)
  {
    assert Binned(Snap(S), p);
    SweptBag(p.bins, dead);
    SweptEach(Swept(p.bins, dead), Flat(p.bins), Kids(Snap(S), p), dead);
  }

  lemma SweptEach<E>(deleted: seq<E>, all: seq<E>, kids: set<E>, dead: set<E>)
    requires multiset(all) == multiset(kids) && dead <= kids
    requires multiset(deleted) == multiset(Drop(all, dead))
    ensures Distinct(deleted) && |deleted| == |dead|
    ensures (forall e :: e in deleted ==> e in dead) && (forall e :: e in dead ==> e in deleted)
  {
    DropCounts(all, dead);
    assert multiset(deleted) == multiset(dead) by {
      forall e | e in kids
        ensures multiset(kids)[e] == 1
      {
      }
    }
    assert |multiset(deleted)| == |deleted|;
    assert forall e :: e in deleted <==> e in multiset(deleted);
    assert forall e :: e in deleted ==> multiset(deleted)[e] == 1;
    OnceIsDistinct(deleted);
  }

  /** Those that survive a removal keep their path hashes. */
  lemma RemoveCrcs<E>(f: Forest<E>, root: E, p: E, dead: set<E>)
    requires Sound(f, root) && p in f && dead <= Kids(f, p)
    ensures Rooted(f, root) && RemoveKids(f, root, p, dead).Keys == f.Keys - Doomed(f, root, dead)
    ensures forall x :: x in RemoveKids(f, root, p, dead) ==>
              x in f && RemoveKids(f, root, p, dead)[x].pathCrc == f[x].pathCrc
  {
    hide *;
    SoundParts(f, root);
    DoomedInside(f, root, p, dead);
    RemoveSteady(f, root, p, dead, p);
    forall x | x in RemoveKids(f, root, p, dead)
      ensures x in f && RemoveKids(f, root, p, dead)[x].pathCrc == f[x].pathCrc
    {
      RemoveSteady(f, root, p, dead, x);
      if x != p {
        SteadyCrc(f, RemoveKids(f, root, p, dead), root, p, x);
      }
    }
  }

  lemma SteadyCrc<E>(f: Forest<E>, g: Forest<E>, root: E, p: E, x: E)
    requires Rooted(f, root) && p in f && Steady(f, f, g, root, p, x)
    ensures x in f && x in g && g[x].pathCrc == f[x].pathCrc
  {
  }

  lemma SurvivorsAre(S: set<FileEntry>, root: FileEntry, p: FileEntry)
    requires p in S && Rooted(Snap(S), root)
    ensures p.Survivors(S, root) == S - Doomed(Snap(S), root, p.Marked())
  {
  }

  /** None of the new entries is swept out. */
  lemma StillJoined(f0: Forest<FileEntry>, f: Forest<FileEntry>, root: FileEntry, p: FileEntry, listing: Listing,
                       added: seq<FileEntry>, entries: seq<FileEntry>, S: set<FileEntry>, T: set<FileEntry>)
    requires Progress(f0, f, root, p, listing, listing.Keys) && p in f && Unlisted(f0, p, listing) <= Kids(f, p)
    requires f.Keys == S && T == S - Doomed(f, root, Unlisted(f0, p, listing))
    requires Joined(added, entries, f0.Keys, S)
    ensures Joined(added, entries, f0.Keys, T)
  {
    forall e | e in added
      ensures e in T
    {
      DoomedAgree(f0, f, root, p, listing, e);
    }
  }

  lemma IntactNow(f: Forest<FileEntry>, D: set<FileEntry>)
    requires forall x :: x in D ==>
               x in f && x.bins == f[x].bins && x.pathCrc == f[x].pathCrc && x.Linked() && Chained(x.bins) <= D
    ensures Intact(f, D)
  {
  }

  lemma DeletedUnder(f: Forest<FileEntry>, root: FileEntry, p: FileEntry, deleted: seq<FileEntry>, dead: set<FileEntry>)
    requires Rooted(f, root) && p in f && dead <= Kids(f, p)
    requires (forall e :: e in deleted ==> e in dead) && (forall e :: e in dead ==> e in deleted)
    ensures Under(f, root, deleted) == Doomed(f, root, dead) <= f.Keys
    ensures forall c :: c in deleted ==> c in f && f[c].parent == Some(p)
  {
    assert (set c | c in deleted) == dead;
  }

  lemma SweptTree(db: FileDB, f: Forest<FileEntry>, f0: Forest<FileEntry>, p: FileEntry, listing: Listing)
    requires db.Recorded(f, db.S) && NamesHashed(f, db.hash) && db.rootFile.isDir
    requires AllLinked(db.S) && Finished(f0, Snap(db.S), db.rootFile, p, listing)
    requires forall e :: e in db.S ==> e in f && e in Snap(db.S) && Snap(db.S)[e].pathCrc == f[e].pathCrc
    requires forall e :: e in db.S ==> f[e].name == e.name && f[e].nameCrc == e.nameCrc
    ensures TreeOk(db.S, db.rootFile, db.hash) && db.Recorded(Snap(db.S), db.S)
  {
    SameCrcsIndexed(db.entriesMap, f, Snap(db.S), db.S - {db.rootFile});
  }

  lemma {:induction false} SweepNone<E>(bs: seq<Bin<E>>)
    requires forall i :: 0 <= i < |bs| ==> bs[i].chain != []
    ensures Sweep(bs, {}) == bs
  {
    if bs != [] {
      SweepNone(bs[1..]);
      KeepAll(bs[0].chain);
      assert bs == [bs[0]] + bs[1..];
    }
  }

  lemma {:induction false} KeepAll<E>(s: seq<E>)
    ensures Keep(s, {}) == s
  {
    if s != [] {
      KeepAll(s[1..]);
    }
  }

  /** Removing no children changes nothing. */
  lemma RemoveNone<E>(f: Forest<E>, root: E, p: E)
    requires Sound(f, root) && p in f
    ensures Rooted(f, root) && RemoveKids(f, root, p, {}) == f
  {
    assert Binned(f, p);
    SweepNone(f[p].bins);
    hide Sweep, Climb;
    RemoveKidsClimbs(f, root, p, {});
    var g := Prune(f, root, p, {}, f[p].bins, f[p].size);
    assert g == f;
    ClimbStops(g, root, p, 0);
  }

  // ------------------------------------------------------- facts for the main loop

  /** Each name is offered by one entry, and the listing says what the entries say. */
  ghost predicate Lists(entries: seq<FileEntry>, listing: Listing) {
    && (forall i, j :: 0 <= i < j < |entries| ==> entries[i].name != entries[j].name)
    && NamesOf(entries) == listing.Keys
  }

  ghost function NamesOf(entries: seq<FileEntry>): set<string> {
    set e | e in entries :: e.name
  }

  /** Entries without children that are listed with their kinds and sizes. */
  ghost predicate Waits(entries: seq<FileEntry>, hash: string -> Crc, listing: Listing)
    reads entries`children, entries`bins, entries`pendingDelete, entries`size
  {
    forall e :: e in entries ==> e.Offered(hash) && e.name in listing && listing[e.name] == Item(e.isDir, e.size)
  }

  /** `added` is what `S` has and `S0` has not, each once, and all of it comes from `entries`. */
  ghost predicate Joined(added: seq<FileEntry>, entries: seq<FileEntry>, S0: set<FileEntry>, S: set<FileEntry>) {
    && Distinct(added)
    && (forall e :: e in added ==> e in S && e !in S0 && e in entries)
    && (forall e :: e in S && e !in S0 ==> e in added)
  }

  lemma JoinedWider(added: seq<FileEntry>, some: seq<FileEntry>, all: seq<FileEntry>, S0: set<FileEntry>,
                    S: set<FileEntry>)
    requires Joined(added, some, S0, S) && forall e :: e in some ==> e in all
    ensures Joined(added, all, S0, S)
    ensures forall e :: e in S ==> e in S0 || e in all
  {
  }

  lemma JoinedNext(added: seq<FileEntry>, sorted: seq<FileEntry>, i: nat, S0: set<FileEntry>, S: set<FileEntry>,
                   isNew: bool)
    requires i < |sorted| && sorted[i] !in S && Joined(added, sorted[..i], S0, S)
    requires S0 <= S
    ensures Joined(if isNew then added + [sorted[i]] else added, sorted[..i + 1],
                   S0, if isNew then S + {sorted[i]} else S)
  {
    assert sorted[..i + 1] == sorted[..i] + [sorted[i]];
  }

  /** The paths of the directories among `added`. */
  ghost function DirPaths(pl: Platform, hash: string -> Crc, path: Path, added: seq<FileEntry>): seq<Path>
    requires path.crcs != []
  {
    if added == [] then []
    else
      var e := added[|added| - 1];
      DirPaths(pl, hash, path, added[..|added| - 1])
      + if e.isDir then [WithDir(pl, hash, path, e.name, e.nameCrc)] else []
  }

  lemma DirPathsNone(pl: Platform, hash: string -> Crc, path: Path)
    requires path.crcs != []
    ensures DirPaths(pl, hash, path, []) == []
  {
  }

  lemma DirPathsNext(pl: Platform, hash: string -> Crc, path: Path, added: seq<FileEntry>, e: FileEntry)
    requires path.crcs != []
    ensures DirPaths(pl, hash, path, added + [e]) ==
            DirPaths(pl, hash, path, added) + if e.isDir then [WithDir(pl, hash, path, e.name, e.nameCrc)] else []
  {
    assert (added + [e])[..|added|] == added;
  }

  lemma Inserted(sorted: seq<FileEntry>, at: nat, e: FileEntry)
    requires at <= |sorted|
    ensures multiset(sorted[..at] + [e] + sorted[at..]) == multiset(sorted) + multiset{e}
  {
    assert sorted == sorted[..at] + sorted[at..];
  }

  lemma SortedLists(entries: seq<FileEntry>, sorted: seq<FileEntry>, S: set<FileEntry>, hash: string -> Crc,
                    listing: Listing)
    requires multiset(sorted) == multiset(entries) && Lists(entries, listing) && Waits(entries, hash, listing)
    requires forall e :: e in entries ==> e !in S
    ensures Lists(sorted, listing) && Waits(sorted, hash, listing)
    ensures forall e :: e in sorted ==> e in entries && e !in S
  {
    forall e | e in sorted
      ensures e in entries
    {
      assert e in multiset(sorted);
    }
    forall e | e in entries
      ensures e in sorted && multiset(entries)[e] == 1
    {
      assert e in multiset(entries);
      NamedOnce(entries, e);
    }
    assert forall e :: e in sorted ==> multiset(sorted)[e] == 1;
    OnceIsDistinct(sorted);
    forall i, j | 0 <= i < j < |sorted|
      ensures sorted[i].name != sorted[j].name
    {
      assert sorted[i] in entries && sorted[j] in entries && sorted[i] != sorted[j];
    }
  }

  lemma {:induction false} NamedOnce(entries: seq<FileEntry>, e: FileEntry)
    requires forall i, j :: 0 <= i < j < |entries| ==> entries[i].name != entries[j].name
    ensures multiset(entries)[e] <= 1
  {
    if entries != [] {
      var rest := entries[1..];
      assert entries == [entries[0]] + rest;
      forall i, j | 0 <= i < j < |rest|
        ensures rest[i].name != rest[j].name
      {
        assert rest[i] == entries[i + 1] && rest[j] == entries[j + 1];
      }
      NamedOnce(rest, e);
      if e == entries[0] {
        forall i | 0 <= i < |rest|
          ensures rest[i] != e
        {
          assert rest[i] == entries[i + 1];
        }
      }
    }
  }

  lemma AllWait(sorted: seq<FileEntry>, S: set<FileEntry>)
    ensures sorted[0..] == sorted && NamesOf(sorted[..0]) == {}
    ensures Joined([], sorted[..0], S, S)
  {
  }

  lemma NextWaits(sorted: seq<FileEntry>, i: nat, S: set<FileEntry>, hash: string -> Crc, listing: Listing)
    requires i < |sorted| && Lists(sorted, listing) && Waits(sorted[i..], hash, listing)
    requires forall e :: e in sorted[i..] ==> e !in S
    ensures var e := sorted[i];
            && e !in S && e.Offered(hash) && e.name in listing && listing[e.name] == Item(e.isDir, e.size)
            && e.name !in NamesOf(sorted[..i]) && NamesOf(sorted[..i + 1]) == NamesOf(sorted[..i]) + {e.name}
            && e !in sorted[i + 1..] && e in sorted
    ensures Waits(sorted[i + 1..], hash, listing)
    ensures forall e :: e in sorted[i + 1..] ==> e !in S
  {
    assert sorted[i..][0] == sorted[i];
    assert sorted[..i + 1] == sorted[..i] + [sorted[i]];
    forall e | e in sorted[i + 1..]
      ensures e in sorted[i..]
    {
    }
  }

  lemma AllNames(sorted: seq<FileEntry>, listing: Listing)
    requires Lists(sorted, listing)
    ensures NamesOf(sorted[..|sorted|]) == listing.Keys && sorted[..|sorted|] == sorted
  {
    assert sorted[..|sorted|] == sorted;
  }

  lemma UnseenIsUnlisted<E>(f0: Forest<E>, p: E, listing: Listing)
    ensures Unseen(f0, p, listing.Keys) == Unlisted(f0, p, listing)
  {
  }

  /** A child that is kept is one of those still marked. */
  lemma UnseenKept(f0: Forest<FileEntry>, f: Forest<FileEntry>, root: FileEntry, p: FileEntry, listing: Listing,
                   done: set<string>, c: FileEntry)
    requires Progress(f0, f, root, p, listing, done) && c in f && f[c].parent == Some(p) && f[c].name !in done
    ensures forall dir :: |OfKind(Unseen(f0, p, done + {f[c].name}), dir)| ==
                          |OfKind(Unseen(f0, p, done), dir)| - if c.isDir == dir then 1 else 0
  {
    var n := f[c].name;
    KeptIsOld(f0, f, root, p, listing, done, c);
    assert c in Unseen(f0, p, done);
    forall e | e in Unseen(f0, p, done)
      ensures e in Unseen(f0, p, done + {n}) <==> e != c
    {
      OldKin(f0, f, root, p, listing, done, e);
    }
    assert Unseen(f0, p, done + {n}) == Unseen(f0, p, done) - {c};
    OfKindLess(Unseen(f0, p, done), c, true);
    OfKindLess(Unseen(f0, p, done), c, false);
  }

  lemma UnseenAdded(f0: Forest<FileEntry>, f: Forest<FileEntry>, root: FileEntry, p: FileEntry, listing: Listing,
                    done: set<string>, n: string)
    requires Progress(f0, f, root, p, listing, done) && !HasChild(f, p, n)
    ensures Unseen(f0, p, done + {n}) == Unseen(f0, p, done)
  {
    forall e | e in Unseen(f0, p, done)
      ensures f0[e].name != n
    {
      OldKin(f0, f, root, p, listing, done, e);
    }
  }

  lemma ValidParts(db: FileDB)
    requires db.Valid()
    ensures TreeOk(db.S, db.rootFile, db.hash) && db.Recorded(Snap(db.S), db.S)
    ensures db.rootPath == Path([db.rootFile.name], [db.hash(db.rootFile.name)])
  {
  }

  lemma ValidNow(db: FileDB)
    requires TreeOk(db.S, db.rootFile, db.hash) && db.Recorded(Snap(db.S), db.S) && db.usedSpace == db.rootFile.size
    requires db.rootPath == Path([db.rootFile.name], [db.hash(db.rootFile.name)])
    ensures db.Valid()
  {
  }

  // -------------------------------------------------- the same listing once again

  /** The children of `p` are unmarked and just as listed. */
  ghost predicate Settled<E>(f: Forest<E>, p: E, listing: Listing) {
    && (forall e :: e in f && f[e].parent == Some(p) ==>
          !f[e].marked && f[e].name in listing && (f[e].dir || f[e].size == listing[f[e].name].size))
    && forall n {:trigger HasChild(f, p, n)} :: n in listing ==> HasChild(f, p, n)
  }

  /** After a reconciliation the directory is settled. */
  lemma FinishedSettled<E>(f0: Forest<E>, g: Forest<E>, root: E, p: E, listing: Listing)
    requires Finished(f0, g, root, p, listing)
    ensures Settled(g, p, listing)
  {
    assert Placed(f0, root, p);
    forall e | e in g && g[e].parent == Some(p)
      ensures !g[e].marked && g[e].name in listing && (g[e].dir || g[e].size == listing[g[e].name].size)
    {
      if e in f0 {
        assert e != p ==> OldOk(f0, g, root, p, listing, listing.Keys, e);
        NotDead(f0, root, p, listing, e);
      } else {
        assert NewOk(g, p, listing, listing.Keys, e);
      }
    }
  }

  /** Nothing but marks has changed so far, and nothing else is going to. */
  ghost predicate Quiet<E>(f0: Forest<E>, f: Forest<E>, p: E, listing: Listing) {
    && Settled(f0, p, listing) && f.Keys == f0.Keys
    && forall e :: e in f ==> f[e] == f0[e].(marked := f[e].marked)
  }

  lemma QuietStarts<E>(f0: Forest<E>, p: E, listing: Listing)
    ensures Settled(f0, p, listing) ==> Quiet(f0, MarkKids(f0, p), p, listing)
  {
  }

  lemma QuietNext(f0: Forest<FileEntry>, S: set<FileEntry>, p: FileEntry, listing: Listing, n: string,
                  existing: FileEntry?)
    requires n in listing
    requires if existing == null then !HasChild(Snap(S), p, n)
               else existing in S && existing.parent == p && existing.name == n
    ensures Quiet(f0, Snap(S), p, listing) ==>
              && existing != null && (existing.isDir || existing.size == listing[n].size)
              && existing in Snap(S) && Quiet(f0, Unmark(Snap(S), existing), p, listing)
  {
    if Quiet(f0, Snap(S), p, listing) {
      assert HasChild(f0, p, n);
      var c :| c in f0 && f0[c].parent == Some(p) && f0[c].name == n;
      assert c in Snap(S) && Snap(S)[c].parent == Some(p) && Snap(S)[c].name == n;
      SnapIdentity(S);
      assert existing != null ==> f0[existing].parent == Some(p) && f0[existing].name == n;
    }
  }

  lemma QuietEnds<E>(f0: Forest<E>, f: Forest<E>, root: E, p: E, listing: Listing)
    requires Progress(f0, f, root, p, listing, listing.Keys)
    ensures Quiet(f0, f, p, listing) ==> f == f0 && Unlisted(f0, p, listing) == {}
  {
    forall e | e in f0
      ensures Quiet(f0, f, p, listing) ==> f[e] == f0[e]
    {
      assert OldOk(f0, f, root, p, listing, listing.Keys, e);
    }
  }

  // ------------------------------------------------------- what the books say

  /** Paths for which the lookup by hash cannot go wrong. */
  ghost predicate Exactly(pl: Platform, hash: string -> Crc, path: Path) {
    WellHashed(pl, hash, path) && |path.crcs| == |path.parts| > 0 && NoCancellation(path)
  }

  lemma FoundExactly(S: set<FileEntry>, root: FileEntry, pl: Platform, hash: string -> Crc, path: Path)
    requires TreeOk(S, root, hash) && WellFormed(pl, path)
    ensures Rooted(Snap(S), root) && path.parts != [] && path.crcs != []
    ensures Exactly(pl, hash, path) ==>
              forall e :: e in S ==> (Matches(Snap(S), root, pl, path, e) <==> Is(Snap(S), root, pl, path, e))
  {
    TreeParts(S, root, hash);
    hide TreeOk, Matches, Is, Sound, WellHashed, Named, NamesHashed;
    if Exactly(pl, hash, path) {
      forall e | e in S
        ensures Matches(Snap(S), root, pl, path, e) <==> Is(Snap(S), root, pl, path, e)
      {
        MatchesIs(Snap(S), root, pl, hash, path, e);
      }
    }
  }

  lemma MirrorsListing(f0: Forest<FileEntry>, g: Forest<FileEntry>, root: FileEntry, p: FileEntry, listing: Listing)
    requires Finished(f0, g, root, p, listing) && Sound(f0, root) && Named(f0)
    ensures Tidy(f0) ==> TreeOf(g, root) == Reconciled(TreeOf(f0, root), Chain(f0, root, p), listing)
  {
    if Tidy(f0) {
      MirrorReconciled(f0, g, root, p, listing);
    }
  }

  /** The running totals are true recounts: used space is the sum of the own sizes of all entries. */
  lemma Recount(db: FileDB)
    requires db.Valid()
    ensures db.usedSpace == Sum(db.S, Owns(Snap(db.S)))
    ensures db.fileCount == |OfKind(db.S, false)| && db.dirCount == |OfKind(db.S, true)|
  {
    var f := Snap(db.S);
    AllBelowRoot(f, db.rootFile);
    SizeIsSum(f, db.rootFile, db.rootFile, f.Keys);
    assert f.Keys == db.S;
  }

  /** An entry below the root is found once, in the bucket of the hash of its chain of names. */
  lemma IndexedOnce(db: FileDB, e: FileEntry)
    requires db.Valid() && e in db.S && e != db.rootFile
    ensures Rooted(Snap(db.S), db.rootFile)
    ensures e.pathCrc == HashOf(db.hash, db.hash(db.rootFile.name), Chain(Snap(db.S), db.rootFile, e))
    ensures e.pathCrc in db.entriesMap && multiset(db.entriesMap[e.pathCrc])[e] == 1
    ensures forall k :: k in db.entriesMap && e in db.entriesMap[k] ==> k == e.pathCrc
  {
    var f := Snap(db.S);
    ChainHash(f, db.rootFile, db.hash, e);
    assert Found(db.entriesMap, f, e);
    assert BucketOk(db.entriesMap, f, db.S - {db.rootFile}, e.pathCrc);
    DistinctOnce(db.entriesMap[e.pathCrc], e);
    forall k | k in db.entriesMap && e in db.entriesMap[k]
      ensures k == e.pathCrc
    {
      assert BucketOk(db.entriesMap, f, db.S - {db.rootFile}, k);
    }
  }

  lemma {:induction false} DistinctOnce<E>(s: seq<E>, e: E)
    requires Distinct(s)
    ensures multiset(s)[e] == if e in s then 1 else 0
  {
    if s != [] {
      assert s == [s[0]] + s[1..];
      DistinctOnce(s[1..], e);
      DistinctNext(s, 0);
      assert s[0] !in s[1..];
    }
  }

  /** Everything in the index is an entry of the tree below the root, and no bucket is empty. */
  lemma IndexedOnly(db: FileDB, k: Crc)
    requires db.Valid() && k in db.entriesMap
    ensures db.entriesMap[k] != []
    ensures forall e :: e in db.entriesMap[k] ==> e in db.S && e != db.rootFile
  {
    assert BucketOk(db.entriesMap, Snap(db.S), db.S - {db.rootFile}, k);
  }
}
