/** Finding the entry that a path names, by hash first and by the names on the way up second. */
module Lookup {
  import opened Crcs
  import opened Options
  import opened SizeBins
  import opened Forest
  import opened Trees
  import opened Reconcile
  import opened Mirror
  import opened FilePaths

  /** The names below the root of a path. */
  function Names(pl: Platform, p: Path): seq<string>
    requires p.parts != []
  {
    seq(|p.parts| - 1, i requires 0 <= i < |p.parts| - 1 => Bare(pl, p.parts[i + 1]))
  }

  predicate IsSuffix(a: seq<string>, b: seq<string>) {
    |a| <= |b| && b[|b| - |a|..] == a
  }

  /** The hash of a chain of names below a prefix with hash `c`. */
  ghost function HashOf(hash: string -> Crc, c: Crc, names: seq<string>): Crc {
    if names == [] then c
    else Xor(HashOf(hash, c, names[..|names| - 1]), hash(names[|names| - 1]))
  }

  /** Every entry carries the hash of its name. */
  ghost predicate NamesHashed<E>(f: Forest<E>, hash: string -> Crc) {
    forall e :: e in f ==> f[e].nameCrc == hash(f[e].name)
  }

  lemma {:induction false} HashOfJoin(hash: string -> Crc, c: Crc, a: seq<string>, b: seq<string>)
    ensures HashOf(hash, c, a + b) == Xor(HashOf(hash, c, a), HashOf(hash, Zero, b))
    decreases |b|
  {
    if b == [] {
      assert a + b == a;
      XorZero(HashOf(hash, c, a));
    } else {
      var b', n := b[..|b| - 1], b[|b| - 1];
      assert (a + b)[..|a + b| - 1] == a + b';
      HashOfJoin(hash, c, a, b');
      XorAssociative(HashOf(hash, c, a), HashOf(hash, Zero, b'), hash(n));
    }
  }

  /** An entry's path hash is the hash of its chain of names. */
  lemma {:induction false} ChainHash<E>(f: Forest<E>, root: E, hash: string -> Crc, e: E)
    requires Rooted(f, root) && Hashed(f) && NamesHashed(f, hash) && e in f
    ensures f[e].pathCrc == HashOf(hash, hash(f[root].name), Chain(f, root, e))
    decreases f[e].depth
  {
    hide Xor;
    assert Placed(f, root, e) && HashedAt(f, e);
    if e != root {
      var up := f[e].parent.value;
      ChainHash(f, root, hash, up);
      var q := Chain(f, root, e);
      assert q[..|q| - 1] == Chain(f, root, up);
    }
  }

  /** The prefix hashes of a path are the hashes of the prefixes of its chain of names. */
  lemma {:induction false} PathHash(pl: Platform, hash: string -> Crc, p: Path, k: nat)
    requires WellHashed(pl, hash, p) && k < |p.parts|
    ensures |p.crcs| == |p.parts|
    ensures p.crcs[k] == HashOf(hash, p.crcs[0], Names(pl, p)[..k])
    decreases k
  {
    HashesPrefix(pl, hash, hash(p.parts[0]), p.parts[1..], []);
    if k > 0 {
      PathHash(pl, hash, p, k - 1);
      HashesAt(pl, hash, hash(p.parts[0]), p.parts[1..], k - 1);
      assert Names(pl, p)[..k][..k - 1] == Names(pl, p)[..k - 1];
    }
  }

  lemma {:induction false} HashesAt(pl: Platform, hash: string -> Crc, c: Crc, parts: seq<string>, k: nat)
    requires k < |parts|
    ensures |Hashes(pl, hash, c, parts)| == |parts|
    ensures Hashes(pl, hash, c, parts)[k] ==
            Xor(([c] + Hashes(pl, hash, c, parts))[k], hash(Bare(pl, parts[k])))
    decreases parts
  {
    hide Xor;
    HashesPrefix(pl, hash, c, parts, []);
    if k > 0 {
      HashesAt(pl, hash, Xor(c, hash(Bare(pl, parts[0]))), parts[1..], k - 1);
    }
  }

  // --------------------------------------------------------------- what is found

  /**
   What the database accepts for a path: the root for a root path, and otherwise an entry with
   the path's hash whose names up to the root agree with the last names of the path.
   */
  ghost predicate Matches<E>(f: Forest<E>, root: E, pl: Platform, p: Path, e: E)
    requires Rooted(f, root) && p.parts != [] && p.crcs != []
  {
    && e in f && p.parts[0] == f[root].name
    && if |p.parts| == 1 then e == root
       else e != root && f[e].pathCrc == p.crcs[|p.crcs| - 1] && IsSuffix(Chain(f, root, e), Names(pl, p))
  }

  /** The entry that the path really names. */
  ghost predicate Is<E>(f: Forest<E>, root: E, pl: Platform, p: Path, e: E)
    requires Rooted(f, root) && p.parts != []
  {
    e in f && p.parts[0] == f[root].name && Chain(f, root, e) == Names(pl, p)
  }

  /** No prefix strictly between the root and the whole path has the hash of the root. */
  predicate NoCancellation(p: Path)
    requires |p.crcs| == |p.parts| > 0
  {
    forall k :: 0 < k < |p.parts| - 1 ==> p.crcs[k] != p.crcs[0]
  }

  /** The entry that the path names is always accepted. */
  lemma IsMatches<E>(f: Forest<E>, root: E, pl: Platform, hash: string -> Crc, p: Path, e: E)
    requires Rooted(f, root) && Hashed(f) && NamesHashed(f, hash) && WellHashed(pl, hash, p)
    requires Is(f, root, pl, p, e)
    ensures p.crcs != [] && Matches(f, root, pl, p, e)
  {
    ChainLength(f, root, e);
    ChainHash(f, root, hash, e);
    PathHash(pl, hash, p, |p.parts| - 1);
    assert Placed(f, root, e);
    assert Names(pl, p)[..|p.parts| - 1] == Names(pl, p);
  }

  /**
   Unconditionally, what is accepted has a chain that is a suffix of the path, and the prefix
   left unmatched has the same hash as the root: the hashes of the unmatched names cancel out.
   */
  lemma MatchesCancel<E>(f: Forest<E>, root: E, pl: Platform, hash: string -> Crc, p: Path, e: E)
    requires Rooted(f, root) && Hashed(f) && NamesHashed(f, hash) && WellHashed(pl, hash, p)
    requires p.crcs != [] && Matches(f, root, pl, p, e)
    ensures |p.crcs| == |p.parts| && IsSuffix(Chain(f, root, e), Names(pl, p))
    ensures p.crcs[|Names(pl, p)| - |Chain(f, root, e)|] == p.crcs[0]
  {
    hide *;
    MatchParts(f, root, pl, hash, p, e);
    var names, q := Names(pl, p), Chain(f, root, e);
    if |p.parts| > 1 {
      var k := |names| - |q|;
      PathHash(pl, hash, p, |p.parts| - 1);
      PathHash(pl, hash, p, k);
      ChainHash(f, root, hash, e);
      assert names[..|names|] == names == names[..k] + q;
      SuffixCancels(hash, p.crcs[0], names[..k], q);
    }
  }

  lemma MatchParts<E>(f: Forest<E>, root: E, pl: Platform, hash: string -> Crc, p: Path, e: E)
    requires Rooted(f, root) && Hashed(f) && NamesHashed(f, hash) && WellHashed(pl, hash, p)
    requires p.crcs != [] && Matches(f, root, pl, p, e)
    ensures e in f && |p.crcs| == |p.parts| && p.crcs[0] == hash(f[root].name)
    ensures var names, q := Names(pl, p), Chain(f, root, e);
            && |names| == |p.parts| - 1 && |q| <= |names| && names[|names| - |q|..] == q && IsSuffix(q, names)
            && (|p.parts| == 1 ==> q == [])
    ensures |p.parts| > 1 ==> f[e].pathCrc == p.crcs[|p.crcs| - 1]
  {
    PathHash(pl, hash, p, 0);
    assert Placed(f, root, e);
  }

  /** Names that do not change the hash of what follows them cancel out. */
  lemma SuffixCancels(hash: string -> Crc, c: Crc, a: seq<string>, b: seq<string>)
    ensures HashOf(hash, c, a + b) == HashOf(hash, c, b) <==> HashOf(hash, c, a) == c
  {
    hide Xor;
    HashOfJoin(hash, c, a, b);
    HashOfJoin(hash, c, [], b);
    assert [] + b == b;
    XorCancel(HashOf(hash, c, a), c, HashOf(hash, Zero, b));
  }

  /** Looking up by hash refines the walk down the tree, unless the hashes of a prefix's names cancel out. */
  lemma MatchesIs<E>(f: Forest<E>, root: E, pl: Platform, hash: string -> Crc, p: Path, e: E)
    requires Rooted(f, root) && Hashed(f) && NamesHashed(f, hash) && WellHashed(pl, hash, p)
    requires |p.crcs| == |p.parts| && NoCancellation(p)
    ensures Matches(f, root, pl, p, e) <==> Is(f, root, pl, p, e)
  {
    if Matches(f, root, pl, p, e) {
      MatchesCancel(f, root, pl, hash, p, e);
      assert Placed(f, root, e);
    }
    if Is(f, root, pl, p, e) {
      IsMatches(f, root, pl, hash, p, e);
    }
  }

  // ------------------------------------------------------- the condition is needed

  /** A tree that is one long line of directories below its root. */
  ghost function LineNode(hash: string -> Crc, rootName: string, names: seq<string>, i: nat): Node<nat>
    requires i <= |names|
  {
    var name := if i == 0 then rootName else names[i - 1];
    Node(name, true, hash(name), if i == 0 then None else Some(i - 1), 0, HashOf(hash, hash(rootName), names[..i]),
         false, if i < |names| then [Bin(0, [i + 1])] else [], i)
  }

  ghost function Line(hash: string -> Crc, rootName: string, names: seq<string>): Forest<nat> {
    map i: nat | 0 <= i <= |names| :: LineNode(hash, rootName, names, i)
  }

  lemma LineHas(hash: string -> Crc, rootName: string, names: seq<string>, i: nat)
    ensures i in Line(hash, rootName, names) <==> i <= |names|
    ensures i <= |names| ==> Line(hash, rootName, names)[i] == LineNode(hash, rootName, names, i)
  {
  }

  lemma LineRooted(hash: string -> Crc, rootName: string, names: seq<string>)
    ensures Rooted(Line(hash, rootName, names), 0)
  {
    hide HashOf;
    var f := Line(hash, rootName, names);
    forall i | i in f
      ensures Placed(f, 0, i)
    {
    }
  }

  lemma LineHashed(hash: string -> Crc, rootName: string, names: seq<string>)
    ensures Hashed(Line(hash, rootName, names)) && NamesHashed(Line(hash, rootName, names), hash)
  {
    hide Xor;
    var f := Line(hash, rootName, names);
    forall i | i in f
      ensures HashedAt(f, i)
    {
      assert i > 0 ==> names[..i][..i - 1] == names[..i - 1];
    }
  }

  lemma LineNamed(hash: string -> Crc, rootName: string, names: seq<string>)
    ensures Named(Line(hash, rootName, names))
  {
    hide HashOf;
  }

  lemma LineKids(hash: string -> Crc, rootName: string, names: seq<string>, i: nat)
    requires i <= |names|
    ensures Kids(Line(hash, rootName, names), i) == if i < |names| then {i + 1} else {}
  {
    hide HashOf;
  }

  lemma LineHoused(hash: string -> Crc, rootName: string, names: seq<string>)
    ensures Housed(Line(hash, rootName, names))
  {
    var f := Line(hash, rootName, names);
    forall i | i in f
      ensures Binned(f, i)
    {
      LineHas(hash, rootName, names, i);
      LineKids(hash, rootName, names, i);
      OneChild(i + 1);
      EmptyBag<nat>();
      hide Line, Bag, Proper, Kids, HashOf;
    }
  }

  lemma OneChild(c: nat)
    ensures Proper([Bin(0, [c])]) && Bag([Bin(0, [c])]) == multiset({c})
    ensures forall s, e :: FiledAt([Bin(0, [c])], s, e) ==> s == 0
  {
    assert [Bin(0, [c])][1..] == [];
    assert Flat([Bin(0, [c])]) == [c];
  }

  lemma LineSized(hash: string -> Crc, rootName: string, names: seq<string>)
    ensures Sized(Line(hash, rootName, names), 0, 0)
  {
    hide HashOf;
    var f := Line(hash, rootName, names);
    forall p, s, e | p in f && e in f && FiledAt(f[p].bins, s, e)
      ensures s == Filed(f, 0, 0, e)
    {
      OneChild(p + 1);
    }
  }

  lemma LineSound(hash: string -> Crc, rootName: string, names: seq<string>)
    ensures Sound(Line(hash, rootName, names), 0) && Named(Line(hash, rootName, names))
    ensures NamesHashed(Line(hash, rootName, names), hash)
    ensures Rooted(Line(hash, rootName, names), 0)
  {
    hide Line, Rooted, Housed, Sized, Hashed, Named, NamesHashed;
    LineRooted(hash, rootName, names);
    LineHoused(hash, rootName, names);
    LineSized(hash, rootName, names);
    LineHashed(hash, rootName, names);
    LineNamed(hash, rootName, names);
  }

  lemma {:induction false} LineChain(hash: string -> Crc, rootName: string, names: seq<string>, i: nat)
    requires i <= |names|
    ensures Rooted(Line(hash, rootName, names), 0) && i in Line(hash, rootName, names)
    ensures Chain(Line(hash, rootName, names), 0, i) == names[..i]
  {
    LineRooted(hash, rootName, names);
    LineHas(hash, rootName, names, i);
    hide Line, Rooted, HashOf;
    if i > 0 {
      LineChain(hash, rootName, names, i - 1);
      assert names[..i] == names[..i - 1] + [names[i - 1]];
    }
  }

  /** In a line tree, a path finds the last entry as soon as its last names are those of the line. */
  lemma LineMatches(pl: Platform, hash: string -> Crc, p: Path, k: nat)
    requires WellHashed(pl, hash, p) && |p.crcs| == |p.parts|
    requires 0 < k < |p.parts| - 1 && p.crcs[k] == p.crcs[0]
    ensures var rest := Names(pl, p)[k..];
            var f, e := Line(hash, p.parts[0], rest), |rest|;
            && Sound(f, 0) && Named(f) && NamesHashed(f, hash) && Rooted(f, 0)
            && Matches(f, 0, pl, p, e) && !Is(f, 0, pl, p, e)
  {
    hide *;
    NamesLength(pl, p);
    var names := Names(pl, p);
    var rest := names[k..];
    var f, e := Line(hash, p.parts[0], rest), |rest|;
    LineSound(hash, p.parts[0], rest);
    LineChain(hash, p.parts[0], rest, e);
    LineEnds(hash, p.parts[0], rest);
    RootHash(hash, pl, p);
    PathHash(pl, hash, p, k);
    PathHash(pl, hash, p, |p.parts| - 1);
    SuffixCancels(hash, p.crcs[0], names[..k], rest);
    assert rest[..e] == rest && names[..|names|] == names == names[..k] + rest;
    MatchesNow(f, 0, pl, p, e, rest);
  }

  lemma LineEnds(hash: string -> Crc, rootName: string, names: seq<string>)
    ensures 0 in Line(hash, rootName, names) && |names| in Line(hash, rootName, names)
    ensures Line(hash, rootName, names)[0].name == rootName
    ensures Line(hash, rootName, names)[|names|].pathCrc == HashOf(hash, hash(rootName), names)
  {
    hide HashOf;
    assert names[..|names|] == names;
  }

  lemma RootHash(hash: string -> Crc, pl: Platform, p: Path)
    requires WellHashed(pl, hash, p)
    ensures p.parts != [] && p.crcs != [] && p.crcs[0] == hash(p.parts[0])
  {
  }

  /** An entry whose names are a proper end of the path's, and whose hash is the path's. */
  lemma MatchesNow<E>(f: Forest<E>, root: E, pl: Platform, p: Path, e: E, rest: seq<string>)
    requires Rooted(f, root) && p.parts != [] && p.crcs != [] && root in f && e in f && p.parts[0] == f[root].name
    requires 0 < |rest| < |Names(pl, p)| && rest == Names(pl, p)[|Names(pl, p)| - |rest|..]
    requires Chain(f, root, e) == rest && f[e].pathCrc == p.crcs[|p.crcs| - 1]
    ensures Matches(f, root, pl, p, e) && !Is(f, root, pl, p, e)
  {
  }

  lemma NamesLength(pl: Platform, p: Path)
    requires p.parts != []
    ensures |Names(pl, p)| == |p.parts| - 1
  {
  }

  /** Whenever a prefix cancels out, there is a sound tree in which the path finds an entry that it does not name. */
  lemma CancellationMisleads(pl: Platform, hash: string -> Crc, p: Path, k: nat) returns (f: Forest<nat>, e: nat)
    requires WellHashed(pl, hash, p) && |p.crcs| == |p.parts|
    requires 0 < k < |p.parts| - 1 && p.crcs[k] == p.crcs[0]
    ensures Sound(f, 0) && Named(f) && NamesHashed(f, hash) && Rooted(f, 0)
    ensures Matches(f, 0, pl, p, e) && !Is(f, 0, pl, p, e)
  {
    hide *;
    LineMatches(pl, hash, p, k);
    NamesLength(pl, p);
    var rest := Names(pl, p)[k..];
    f, e := Line(hash, p.parts[0], rest), |rest|;
  }

  /**
   Exactly the paths without cancellation are looked up correctly in every tree: what the
   database accepts for them is what they name.
   */
  lemma LookupExact(pl: Platform, hash: string -> Crc, p: Path)
    requires WellHashed(pl, hash, p) && |p.crcs| == |p.parts|
    ensures NoCancellation(p) <==>
            forall f: Forest<nat>, e: nat ::
              (Sound(f, 0) && Named(f) && NamesHashed(f, hash) && Matches(f, 0, pl, p, e)) ==> Is(f, 0, pl, p, e)
  {
    if NoCancellation(p) {
      forall f: Forest<nat>, e: nat | Sound(f, 0) && Named(f) && NamesHashed(f, hash) && Matches(f, 0, pl, p, e)
        ensures Is(f, 0, pl, p, e)
      {
        MatchesIs(f, 0, pl, hash, p, e);
      }
    } else {
      var k :| 0 < k < |p.parts| - 1 && p.crcs[k] == p.crcs[0];
      var f, e := CancellationMisleads(pl, hash, p, k);
    }
  }

  // ------------------------------------------------------------- paths that go wrong

  /** The path root/x/x/b. */
  function Doubled(pl: Platform, hash: string -> Crc, root: string, x: string, b: string): Path {
    var rest := [x + [pl.Sep()], x + [pl.Sep()], b];
    Path([root] + rest, [hash(root)] + Hashes(pl, hash, hash(root), rest))
  }

  /** Entering two directories of the same name cancels out, whatever the hash function. */
  lemma DoubledCancels(pl: Platform, hash: string -> Crc, root: string, x: string, b: string)
    requires EndsIn(root, pl.Sep()) && IsName(pl, x) && b != ""
    ensures var p := Doubled(pl, hash, root, x, b);
            WellFormed(pl, p) && WellHashed(pl, hash, p) && |p.crcs| == |p.parts| && !NoCancellation(p)
  {
    var dir, c := x + [pl.Sep()], hash(root);
    var rest := [dir, dir, b];
    assert rest[1..] == [dir, b] && rest[1..][1..] == [b] && [b][1..] == [];
    assert Bare(pl, dir) == x;
    var one := Xor(c, hash(x));
    var two := Xor(one, hash(x));
    XorAssociative(c, hash(x), hash(x));
    XorZero(hash(x));
    XorZero(c);
    assert Hashes(pl, hash, two, [b]) == [Xor(two, hash(Bare(pl, b)))];
    assert Hashes(pl, hash, one, [dir, b]) == [two] + Hashes(pl, hash, two, [b]);
    var p := Doubled(pl, hash, root, x, b);
    hide Hashes, Xor;
    assert p.parts[1..] == rest && p.crcs[2] == two == c;
  }

  /** A root directory with a single file in it. */
  ghost function LoneFile(hash: string -> Crc, rootName: string, n: string): Forest<nat> {
    var f := Line(hash, rootName, [n]);
    map i: nat | i in f :: f[i].(dir := i == 0)
  }

  /** The kind of an entry has nothing to do with the soundness of the tree. */
  lemma KindsKeepSound<E>(f: Forest<E>, g: Forest<E>, root: E, hash: string -> Crc)
    requires g.Keys == f.Keys && forall e :: e in f ==> g[e] == f[e].(dir := g[e].dir)
    requires Sound(f, root) && Named(f) && NamesHashed(f, hash)
    ensures Sound(g, root) && Named(g) && NamesHashed(g, hash)
  {
    forall e | e in g
      ensures Placed(g, root, e) && HashedAt(g, e)
    {
      assert Placed(f, root, e) && HashedAt(f, e);
    }
    forall p | p in g
      ensures Binned(g, p)
    {
      assert Binned(f, p) && Kids(g, p) == Kids(f, p);
    }
  }

  lemma LoneFileSound(hash: string -> Crc, rootName: string, n: string)
    ensures var f := LoneFile(hash, rootName, n);
            && Sound(f, 0) && Named(f) && NamesHashed(f, hash) && Rooted(f, 0) && Tidy(f)
            && 0 in f && 1 in f && !f[1].dir && f[0].name == rootName && Chain(f, 0, 1) == [n]
            && f[1].pathCrc == HashOf(hash, hash(rootName), [n])
  {
    hide Xor, HashOf;
    var l, f := Line(hash, rootName, [n]), LoneFile(hash, rootName, n);
    LineSound(hash, rootName, [n]);
    LineHas(hash, rootName, [n], 0);
    LineHas(hash, rootName, [n], 1);
    LineEnds(hash, rootName, [n]);
    KindsKeepSound(l, f, 0, hash);
    LoneFileTidy(hash, rootName, n);
    hide Sound, Named, NamesHashed, Tidy;
    assert Placed(f, 0, 1) && Chain(f, 0, 0) == [] && Chain(f, 0, 1) == [n];
  }

  lemma LoneFileTidy(hash: string -> Crc, rootName: string, n: string)
    ensures Tidy(LoneFile(hash, rootName, n))
  {
    hide Xor, HashOf;
    LineHas(hash, rootName, [n], 0);
    LineHas(hash, rootName, [n], 1);
    assert Total([Bin(0, [1])]) == 0 by {
      assert [Bin(0, [1])][1..] == [] && [1][1..] == [];
    }
  }

  /** The path root/n/. */
  function OneDir(pl: Platform, hash: string -> Crc, root: string, n: string): Path {
    Path([root, n + [pl.Sep()]], [hash(root), Xor(hash(root), hash(n))])
  }

  lemma OneDirIs(pl: Platform, hash: string -> Crc, root: string, n: string)
    requires EndsIn(root, pl.Sep()) && IsName(pl, n)
    ensures var p := OneDir(pl, hash, root, n);
            && WellFormed(pl, p) && WellHashed(pl, hash, p) && IsDir(pl, p) && Names(pl, p) == [n]
            && |p.parts| == |p.crcs| == 2 && p.parts[0] == root && p.crcs[1] == HashOf(hash, hash(root), [n])
  {
    hide Xor;
    var p := OneDir(pl, hash, root, n);
    assert Bare(pl, n + [pl.Sep()]) == n && p.parts[1..] == [n + [pl.Sep()]] && p.parts[1..][1..] == [];
    var rest := [n + [pl.Sep()]];
    assert rest[1..] == [];
    assert Hashes(pl, hash, hash(root), rest) ==
           [Xor(hash(root), hash(n))] + Hashes(pl, hash, Xor(hash(root), hash(n)), []);
    assert [n][..0] == [];
    assert HashOf(hash, hash(root), [n]) == Xor(HashOf(hash, hash(root), []), hash(n));
  }

  lemma ShortMatches<E>(f: Forest<E>, root: E, pl: Platform, p: Path, e: E)
    requires Rooted(f, root) && |p.parts| == |p.crcs| == 2 && root in f && e in f && e != root
    requires p.parts[0] == f[root].name && Chain(f, root, e) == Names(pl, p) && f[e].pathCrc == p.crcs[1]
    ensures Matches(f, root, pl, p, e)
  {
    assert Names(pl, p)[0..] == Names(pl, p);
  }

  /** The path of a directory does find a file of that name, in a sound and tidy tree. */
  lemma FileFound(pl: Platform, hash: string -> Crc, rootName: string, n: string)
    requires EndsIn(rootName, pl.Sep()) && IsName(pl, n)
    ensures var f, p := LoneFile(hash, rootName, n), OneDir(pl, hash, rootName, n);
            && Sound(f, 0) && Named(f) && NamesHashed(f, hash) && Rooted(f, 0) && Tidy(f)
            && WellFormed(pl, p) && WellHashed(pl, hash, p) && IsDir(pl, p)
            && 1 in f && !f[1].dir && Matches(f, 0, pl, p, 1)
  {
    LoneFileSound(hash, rootName, n);
    OneDirIs(pl, hash, rootName, n);
    hide *;
    ShortMatches(LoneFile(hash, rootName, n), 0, pl, OneDir(pl, hash, rootName, n), 1);
  }
}
