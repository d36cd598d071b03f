/** The paths of scan requests, and the chains of names that they stand for. */
module ScanPaths {
  import opened Crcs
  import opened Forest
  import opened Trees
  import opened FilePaths
  import opened Lookup
  import opened ScanQueues
  import opened Snapshots
  import opened ScanRuns

  /** The path of a directory at or below the root `root`. */
  ghost predicate DirPath(pl: Platform, hash: string -> Crc, root: string, p: Path) {
    WellFormed(pl, p) && WellHashed(pl, hash, p) && IsDir(pl, p) && p.parts[0] == root
  }

  lemma DirParts(pl: Platform, hash: string -> Crc, root: string, p: Path)
    requires DirPath(pl, hash, root, p)
    ensures p.parts != [] && |p.crcs| == |p.parts| && |Names(pl, p)| == |p.parts| - 1
    ensures WellFormed(pl, p) && WellHashed(pl, hash, p) && IsDir(pl, p) && p.parts[0] == root
    ensures forall i :: 0 <= i < |Names(pl, p)| ==> p.parts[i + 1] == Names(pl, p)[i] + [pl.Sep()]
  {
    forall i | 0 <= i < |Names(pl, p)|
      ensures p.parts[i + 1] == Names(pl, p)[i] + [pl.Sep()]
    {
      assert EndsIn(p.parts[i + 1], pl.Sep());
      assert Names(pl, p)[i] == Bare(pl, p.parts[i + 1]) == DropLast(p.parts[i + 1]);
    }
  }

  /** Comparing paths is comparing their chains of names. */
  lemma OrderOfNames(pl: Platform, hash: string -> Crc, root: string, a: Path, b: Path)
    requires DirPath(pl, hash, root, a) && DirPath(pl, hash, root, b)
    ensures a.parts != [] && b.parts != [] && |a.crcs| == |a.parts| && |b.crcs| == |b.parts|
    ensures Compared(a, b) == PrefixOrder(Names(pl, a), Names(pl, b))
  {
    ComparedIsPrefixOrder(pl, hash, a, b);
    PrefixOfNames(pl, hash, root, a, b);
    PrefixOfNames(pl, hash, root, b, a);
  }

  lemma PrefixOfNames(pl: Platform, hash: string -> Crc, root: string, a: Path, b: Path)
    requires DirPath(pl, hash, root, a) && DirPath(pl, hash, root, b)
    ensures a.parts <= b.parts <==> Names(pl, a) <= Names(pl, b)
    ensures a.parts == b.parts <==> Names(pl, a) == Names(pl, b)
  {
    DirParts(pl, hash, root, a);
    DirParts(pl, hash, root, b);
    var m, n := Names(pl, a), Names(pl, b);
    hide DirPath, Names, WellFormed, WellHashed, IsDir;
    if m <= n {
      forall i | 0 <= i < |a.parts|
        ensures a.parts[i] == b.parts[i]
      {
        assert i > 0 ==> a.parts[i] == m[i - 1] + [pl.Sep()] && m[i - 1] == n[i - 1];
      }
    }
    if a.parts <= b.parts {
      forall i | 0 <= i < |m|
        ensures m[i] == n[i]
      {
        assert a.parts[i + 1] == b.parts[i + 1];
      }
    }
  }

  lemma PartAdded(pl: Platform, hash: string -> Crc, root: string, p: Path, part: string, q: Path)
    requires DirPath(pl, hash, root, p) && EndsIn(part, pl.Sep()) && q.parts == p.parts + [part]
    requires WellHashed(pl, hash, q) && |q.crcs| == |q.parts|
    ensures DirPath(pl, hash, root, q)
  {
    hide WellHashed;
  }

  /** A path with one directory more. */
  lemma WithDirNames(pl: Platform, hash: string -> Crc, root: string, p: Path, name: string, crc: Crc)
    requires DirPath(pl, hash, root, p) && name != "" && !EndsIn(name, pl.Sep()) && crc == hash(name)
    ensures p.crcs != [] && DirPath(pl, hash, root, WithDir(pl, hash, p, name, crc))
    ensures Names(pl, WithDir(pl, hash, p, name, crc)) == Names(pl, p) + [name]
  {
    hide WellHashed, Xor, DirPath, WellFormed;
    var part := name + [pl.Sep()];
    DirParts(pl, hash, root, p);
    assert Bare(pl, part) == name;
    AppendHashed(pl, hash, p, part);
    var q := WithDir(pl, hash, p, name, crc);
    assert q == Appended(p, part, hash(Bare(pl, part))) && q.parts == p.parts + [part];
    PartAdded(pl, hash, root, p, part, q);
  }

  /** The path of the directory above. */
  lemma UpNames(pl: Platform, hash: string -> Crc, root: string, p: Path)
    requires DirPath(pl, hash, root, p) && |p.parts| > 1
    ensures |p.crcs| == |p.parts| && DirPath(pl, hash, root, Up(p))
    ensures Names(pl, p) != [] && Names(pl, Up(p)) == Front(Names(pl, p))
  {
    DirParts(pl, hash, root, p);
    UpHashed(pl, hash, p);
  }

  lemma UpHashed(pl: Platform, hash: string -> Crc, p: Path)
    requires WellHashed(pl, hash, p) && |p.parts| > 1 && |p.crcs| == |p.parts|
    ensures WellHashed(pl, hash, Up(p))
  {
    var up := Up(p);
    var last := [p.parts[|p.parts| - 1]];
    assert p.parts[1..] == up.parts[1..] + last;
    HashesPrefix(pl, hash, hash(p.parts[0]), up.parts[1..], last);
    assert up.crcs == ([hash(p.parts[0])] + Hashes(pl, hash, hash(p.parts[0]), p.parts[1..]))[..|p.parts| - 1];
  }

  // ---------------------------------------------------------------------- texts

  /** The text of the directory at a chain of names. */
  ghost function MountText(pl: Platform, root: string, q: Address): string {
    if q == [] then root else MountText(pl, root, Front(q)) + q[|q| - 1] + [pl.Sep()]
  }

  lemma MountStep(pl: Platform, root: string, q: Address, name: string)
    ensures MountText(pl, root, q + [name]) == MountText(pl, root, q) + name + [pl.Sep()]
  {
    assert Front(q + [name]) == q;
  }

  lemma {:induction false} TextOfNames(pl: Platform, hash: string -> Crc, root: string, p: Path)
    requires DirPath(pl, hash, root, p)
    ensures Concat(p.parts) == MountText(pl, root, Names(pl, p))
    ensures EndsIn(Concat(p.parts), pl.Sep())
    decreases |p.parts|
  {
    DirParts(pl, hash, root, p);
    ConcatLast(p.parts);
    var names := Names(pl, p);
    if |p.parts| > 1 {
      UpNames(pl, hash, root, p);
      TextOfNames(pl, hash, root, Up(p));
      hide DirPath, Names, Concat, Up;
      assert p.parts[|p.parts| - 1] == names[|names| - 1] + [pl.Sep()];
      UpParts(p);
      assert MountText(pl, root, names) == MountText(pl, root, Front(names)) + (names[|names| - 1] + [pl.Sep()]);
    } else {
      assert p.parts[..0] == [];
      assert Concat([]) == "";
    }
  }

  lemma UpParts(p: Path)
    requires |p.parts| > 1 && |p.crcs| == |p.parts|
    ensures Up(p).parts == p.parts[..|p.parts| - 1]
  {
  }

  // -------------------------------------------------------------------- lookups

  /** What the database accepts for a directory path is what it finds for the chain of names. */
  lemma MatchesFinds<E>(f: Forest<E>, root: E, pl: Platform, w: World, p: Path, e: E)
    requires Rooted(f, root) && Hashed(f) && NamesHashed(f, w.hash) && f[root].name == w.rootName && e in f
    requires DirPath(pl, w.hash, w.rootName, p)
    ensures p.parts != [] && p.crcs != []
    ensures Matches(f, root, pl, p, e) <==> Finds(w, Names(pl, p), Chain(f, root, e))
  {
    hide *;
    DirParts(pl, w.hash, w.rootName, p);
    RootHash(w.hash, pl, p);
    ChainHash(f, root, w.hash, e);
    RootChain(f, root, e);
    PathHash(pl, w.hash, p, |p.parts| - 1);
    assert Names(pl, p)[..|Names(pl, p)|] == Names(pl, p);
    MatchesIsFinds(f, root, pl, w, p, e);
  }

  lemma RootChain<E>(f: Forest<E>, root: E, e: E)
    requires Rooted(f, root) && e in f
    ensures root in f && (Chain(f, root, e) == [] <==> e == root)
  {
    assert Placed(f, root, e);
  }

  lemma MatchesIsFinds<E>(f: Forest<E>, root: E, pl: Platform, w: World, p: Path, e: E)
    requires Rooted(f, root) && e in f && root in f && (Chain(f, root, e) == [] <==> e == root)
    requires f[root].name == w.rootName && p.parts != [] && |p.crcs| == |p.parts| && p.parts[0] == w.rootName
    requires |Names(pl, p)| == |p.parts| - 1
    requires f[e].pathCrc == HashOf(w.hash, w.hash(w.rootName), Chain(f, root, e))
    requires p.crcs[|p.parts| - 1] == HashOf(w.hash, w.hash(w.rootName), Names(pl, p))
    ensures Matches(f, root, pl, p, e) <==> Finds(w, Names(pl, p), Chain(f, root, e))
  {
    hide HashOf, Names, Chain, Rooted;
  }
}
