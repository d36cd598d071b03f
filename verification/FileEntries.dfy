/** File entries: a tree of linked objects, each directory holding its children in size-ordered bins. */
module FileEntries {
  import opened Crcs
  import opened Options
  import opened SizeBins
  import opened Forest

  /** One bin of the ordered set: entries of one size, chained through `nextEntry`. */
  datatype EntryBin = EntryBin(size: int, firstEntry: FileEntry)

  /** `chain` is what one sees following `nextEntry` from `first` until `end`. */
  ghost predicate Links(first: FileEntry?, chain: seq<FileEntry>, end: FileEntry?)
    reads chain`nextEntry
  {
    if chain == [] then first == end
    else first == chain[0] && Links(chain[0].nextEntry, chain[1..], end)
  }

  lemma {:induction false} LinksCut(first: FileEntry?, chain: seq<FileEntry>, end: FileEntry?, k: nat)
    requires Links(first, chain, end) && k <= |chain|
    ensures var mid := if k < |chain| then chain[k] else end;
            Links(first, chain[..k], mid) && Links(mid, chain[k..], end)
  {
    if k == 0 {
      assert chain[0..] == chain;
    } else {
      LinksCut(chain[0].nextEntry, chain[1..], end, k - 1);
      assert chain[1..][..k - 1] == chain[..k][1..];
      assert chain[1..][k - 1..] == chain[k..];
    }
  }

  lemma {:induction false} LinksJoin(first: FileEntry?, a: seq<FileEntry>, mid: FileEntry?, b: seq<FileEntry>,
                                     end: FileEntry?)
    requires Links(first, a, mid) && Links(mid, b, end)
    ensures Links(first, a + b, end)
  {
    if a == [] {
      assert a + b == b;
    } else {
      LinksJoin(a[0].nextEntry, a[1..], mid, b, end);
      assert (a + b)[1..] == a[1..] + b;
    }
  }

  /** The three parts of a chain around its entry `k` and the next one. */
  lemma CutOut(first: FileEntry?, chain: seq<FileEntry>, k: nat)
    requires Links(first, chain, null) && Distinct(chain) && k + 1 < |chain|
    ensures chain[k].nextEntry == chain[k + 1]
    ensures Links(first, chain[..k], chain[k])
    ensures Links(chain[k + 1].nextEntry, chain[k + 2..], null)
    ensures Unlink(chain, chain[k + 1]) == chain[..k] + [chain[k]] + chain[k + 2..]
  {
    LinksCut(first, chain, null, k);
    assert chain[k..][1..] == chain[k + 1..];
    assert chain[k + 1..][1..] == chain[k + 2..];
    UnlinkAt(chain, k + 1);
  }

  ghost function Chained(bs: seq<Bin<FileEntry>>): set<FileEntry> {
    set b, e | b in bs && e in b.chain :: e
  }

  lemma ChainedHas(bs: seq<Bin<FileEntry>>, i: nat)
    requires i < |bs|
    ensures forall e :: e in bs[i].chain ==> e in Chained(bs)
  {
    forall e | e in bs[i].chain
      ensures e in Chained(bs)
    {
      assert bs[i] in bs && e in bs[i].chain;
    }
  }

  lemma ChainedParts(bs: seq<Bin<FileEntry>>, s: int)
    ensures Chained(Before(bs, s)) <= Chained(bs)
    ensures Chained(After(bs, s)) <= Chained(bs)
    ensures forall e :: e in Held(bs, s) ==> e in Chained(bs)
  {
    if HasBin(bs, s) {
      ChainedHas(bs, Slot(bs, s));
    }
  }

  lemma ChainedFlat(bs: seq<Bin<FileEntry>>)
    ensures forall e :: e in Chained(bs) <==> e in Flat(bs)
  {
    forall e: FileEntry
      ensures e in Chained(bs) <==> e in Flat(bs)
    {
      FlatHas(bs, e);
    }
  }

  lemma ChainedApart(bs: seq<Bin<FileEntry>>, s: int)
    requires Proper(bs) && Once(bs)
    ensures Distinct(Held(bs, s))
    ensures forall e :: e in Held(bs, s) ==> e !in Chained(Before(bs, s)) && e !in Chained(After(bs, s))
  {
    HeldApart(bs, s);
    ChainedFlat(Before(bs, s));
    ChainedFlat(After(bs, s));
  }

  /** A removed entry is no longer chained. */
  lemma RemoveGone(bs: seq<Bin<FileEntry>>, s: int, x: FileEntry)
    requires Proper(bs) && Once(bs) && x in Held(bs, s)
    ensures x !in Chained(Remove(bs, s, x))
  {
    HeldInBag(bs, s, x);
    RemoveBag(bs, s, x);
    ChainedFlat(Remove(bs, s, x));
  }

  lemma SameBagChained(bs: seq<Bin<FileEntry>>, bs': seq<Bin<FileEntry>>)
    requires Bag(bs) == Bag(bs')
    ensures Chained(bs) == Chained(bs')
  {
    ChainedFlat(bs);
    ChainedFlat(bs');
    assert forall e: FileEntry :: e in Flat(bs) <==> e in Bag(bs);
    assert forall e: FileEntry :: e in Flat(bs') <==> e in Bag(bs');
  }

  lemma RefileChained(bs: seq<Bin<FileEntry>>, s: int, t: int, x: FileEntry)
    requires Proper(bs) && x in Held(bs, s)
    ensures Chained(Refile(bs, s, t, x)) == Chained(bs)
  {
    hide *;
    RefileBag(bs, s, t, x);
    SameBagChained(bs, Refile(bs, s, t, x));
  }

  ghost predicate LinkedBin(c: EntryBin, b: Bin<FileEntry>)
    reads b.chain`nextEntry
  {
    c.size == b.size && b.chain != [] && Links(c.firstEntry, b.chain, null)
  }

  /** The linked chains of `cs` hold what `bs` says. */
  ghost predicate Match(cs: seq<EntryBin>, bs: seq<Bin<FileEntry>>)
    reads Chained(bs)`nextEntry
  {
    && |cs| == |bs|
    && forall i :: 0 <= i < |bs| ==> (ChainedHas(bs, i); LinkedBin(cs[i], bs[i]))
  }

  lemma MatchConcat(cs: seq<EntryBin>, bs: seq<Bin<FileEntry>>, cs': seq<EntryBin>, bs': seq<Bin<FileEntry>>)
    requires Match(cs, bs) && Match(cs', bs')
    ensures Match(cs + cs', bs + bs')
  {
  }

  lemma MatchSlice(cs: seq<EntryBin>, bs: seq<Bin<FileEntry>>, i: nat, j: nat)
    requires Match(cs, bs) && i <= j <= |bs|
    ensures Match(cs[i..j], bs[i..j])
  {
  }

  /** Linking up a new chain under size `s`. */
  lemma PutLinked(before: seq<EntryBin>, after: seq<EntryBin>, bs: seq<Bin<FileEntry>>, s: int,
                  first: FileEntry, chain: seq<FileEntry>)
    requires Match(before, Before(bs, s)) && Match(after, After(bs, s))
    requires Links(first, chain, null) && chain != []
    ensures Match(before + [EntryBin(s, first)] + after, Put(bs, s, chain))
  {
    assert LinkedBin(EntryBin(s, first), Bin(s, chain));
    assert Match([EntryBin(s, first)], OneBin(s, chain));
    MatchConcat(before, Before(bs, s), [EntryBin(s, first)], OneBin(s, chain));
    MatchConcat(before + [EntryBin(s, first)], Before(bs, s) + OneBin(s, chain), after, After(bs, s));
  }

  /** Erasing the bin of size `s`. */
  lemma EraseLinked(before: seq<EntryBin>, after: seq<EntryBin>, bs: seq<Bin<FileEntry>>, s: int)
    requires Match(before, Before(bs, s)) && Match(after, After(bs, s))
    ensures Match(before + after, Put(bs, s, []))
  {
    assert Before(bs, s) + OneBin(s, []) == Before(bs, s);
    MatchConcat(before, Before(bs, s), after, After(bs, s));
  }

  /** The fields of the entries in `S`, as a value. */
  ghost function Snap(S: set<FileEntry>): Forest<FileEntry>
    reads S
  {
    map e | e in S :: e.AsNode()
  }

  /** `f` has the present fields of `e`. */
  ghost predicate Same(f: Forest<FileEntry>, e: FileEntry)
    reads e`parent, e`size, e`pathCrc, e`pendingDelete, e`bins, e`depth
  {
    e in f && f[e] == e.AsNode()
  }

  /** `n` agrees with `e` in the fields that a size change leaves alone. */
  ghost predicate Like(n: Node<FileEntry>, e: FileEntry)
    reads e`pendingDelete, e`depth
  {
    n.name == e.name && n.dir == e.isDir && n.nameCrc == e.nameCrc && n.marked == e.pendingDelete && n.depth == e.depth
  }

  ghost predicate SameParent(n: Node<FileEntry>, e: FileEntry)
    reads e`parent
  {
    n.parent == if e.parent == null then None else Some(e.parent)
  }

  lemma SnapHas(S: set<FileEntry>, e: FileEntry)
    requires e in S
    ensures e in Snap(S) && Like(Snap(S)[e], e) && SameParent(Snap(S)[e], e)
    ensures e in Snap(S) && Snap(S)[e].bins == e.bins && Snap(S)[e].size == e.size && Snap(S)[e].depth == e.depth
    ensures Snap(S)[e].parent == (if e.parent == null then None else Some(e.parent))
    ensures Snap(S)[e].pathCrc == e.pathCrc && Snap(S)[e].marked == e.pendingDelete
    ensures Snap(S)[e].name == e.name && Snap(S)[e].dir == e.isDir && Snap(S)[e].nameCrc == e.nameCrc
  {
  }

  lemma SnapSame(S: set<FileEntry>)
    ensures Snap(S).Keys == S
    ensures forall e :: e in S ==> Same(Snap(S), e)
  {
  }

  lemma LinkedEach(S: set<FileEntry>)
    requires AllLinked(S)
    ensures forall p :: p in S ==> p.Linked() && Chained(p.bins) <= S
  {
    forall p | p in S
      ensures p.Linked() && Chained(p.bins) <= S
    {
      assert LinkedIn(p, S);
    }
  }

  lemma LinkedAll(S: set<FileEntry>)
    requires forall p :: p in S ==> p.Linked() && Chained(p.bins) <= S
    ensures AllLinked(S)
  {
  }

  lemma ParentIn(S: set<FileEntry>, root: FileEntry, e: FileEntry)
    requires Rooted(Snap(S), root) && e in S
    ensures e.parent == null <==> e == root
    ensures e.parent != null ==> e.parent in S && e.depth == e.parent.depth + 1
  {
    assert Placed(Snap(S), root, e);
  }

  ghost predicate LinkedIn(p: FileEntry, S: set<FileEntry>)
    requires p in S
    reads S
  {
    Chained(p.bins) <= S && p.Linked()
  }

  ghost predicate AllLinked(S: set<FileEntry>)
    reads S
  {
    forall p {:trigger LinkedIn(p, S)} :: p in S ==> LinkedIn(p, S)
  }

  /** In a well-housed tree the chains of a directory hold its children, each once. */
  lemma ChainedKids(S: set<FileEntry>, p: FileEntry)
    requires p in S && Binned(Snap(S), p)
    ensures forall e :: e in Chained(p.bins) <==> e in S && e.parent == p
    ensures Once(p.bins)
  {
    var f := Snap(S);
    ChainedFlat(p.bins);
    assert f[p].bins == p.bins;
    forall e: FileEntry
      ensures e in Flat(p.bins) <==> e in Kids(f, p)
    {
      assert e in Flat(p.bins) <==> Bag(p.bins)[e] > 0;
    }
    forall e | e in Flat(p.bins)
      ensures Bag(p.bins)[e] == 1
    {
      assert multiset(Kids(f, p))[e] == 1;
    }
  }

  /** How many directories, or how many files, there are in a list. */
  ghost function CountKind(s: seq<FileEntry>, dir: bool): nat {
    if s == [] then 0 else (if s[0].isDir == dir then 1 else 0) + CountKind(s[1..], dir)
  }

  lemma {:induction false} CountConcat(a: seq<FileEntry>, b: seq<FileEntry>, dir: bool)
    ensures CountKind(a + b, dir) == CountKind(a, dir) + CountKind(b, dir)
  {
    if a == [] {
      assert a + b == b;
    } else {
      assert (a + b)[1..] == a[1..] + b;
      CountConcat(a[1..], b, dir);
    }
  }

  lemma CountNext(s: seq<FileEntry>, j: nat, dir: bool)
    requires j < |s|
    ensures CountKind(s[..j + 1], dir) == CountKind(s[..j], dir) + if s[j].isDir == dir then 1 else 0
  {
    assert s[..j + 1] == s[..j] + [s[j]];
    assert [s[j]][1..] == [];
    CountConcat(s[..j], [s[j]], dir);
  }

  lemma NextChain(bs: seq<Bin<FileEntry>>, i: nat)
    requires i < |bs|
    ensures forall e :: e in Chained(bs[..i + 1]) <==> e in Chained(bs[..i]) || e in bs[i].chain
    ensures forall e :: e in bs[i].chain ==> e in Chained(bs)
    ensures forall dir :: CountKind(Flat(bs[..i + 1]), dir) ==
              CountKind(Flat(bs[..i]), dir) + CountKind(bs[i].chain, dir)
  {
    var one := [bs[i]];
    assert bs[..i + 1] == bs[..i] + one && one[1..] == [];
    FlatConcat(bs[..i], one);
    assert Flat(one) == bs[i].chain;
    ChainedHas(bs, i);
    ChainedTake(bs, i);
    forall dir
      ensures CountKind(Flat(bs[..i + 1]), dir) == CountKind(Flat(bs[..i]), dir) + CountKind(bs[i].chain, dir)
    {
      CountConcat(Flat(bs[..i]), bs[i].chain, dir);
    }
  }

  /** The list up to and including the first entry that `goOn` turns down. */
  ghost function Until(s: seq<FileEntry>, goOn: FileEntry -> bool): seq<FileEntry> {
    if s == [] then [] else [s[0]] + if goOn(s[0]) then Until(s[1..], goOn) else []
  }

  ghost predicate Stops(s: seq<FileEntry>, goOn: FileEntry -> bool) {
    s != [] && (!goOn(s[0]) || Stops(s[1..], goOn))
  }

  /** The visit goes through the list in order, and ends early only right after it is told to. */
  lemma {:induction false} UntilExactly(s: seq<FileEntry>, goOn: FileEntry -> bool)
    ensures var v := Until(s, goOn);
            && v <= s
            && (forall i :: 0 <= i < |v| - 1 ==> goOn(v[i]))
            && (v == s || (v != [] && !goOn(v[|v| - 1])))
  {
    if s != [] {
      var rest := s[1..];
      UntilExactly(rest, goOn);
      assert s == [s[0]] + rest;
    }
  }

  lemma UntilEmpty(s: seq<FileEntry>, goOn: FileEntry -> bool)
    ensures [] + Until(s, goOn) == Until(s, goOn)
    ensures s == [] ==> Until(s, goOn) == [] && !Stops(s, goOn)
  {
  }

  lemma UntilStep(child: FileEntry, rest: seq<FileEntry>, goOn: FileEntry -> bool)
    requires Links(child, rest, null)
    ensures rest != [] && child == rest[0] && Links(child.nextEntry, rest[1..], null)
    ensures Until(rest, goOn) == if goOn(child) then [child] + Until(rest[1..], goOn) else [child]
    ensures Stops(rest, goOn) == (!goOn(child) || Stops(rest[1..], goOn))
    ensures forall v: seq<FileEntry> :: (v + [child]) + Until(rest[1..], goOn) == v + ([child] + Until(rest[1..], goOn))
  {
  }

  lemma {:induction false} UntilConcat(a: seq<FileEntry>, b: seq<FileEntry>, goOn: FileEntry -> bool)
    ensures Until(a + b, goOn) == if Stops(a, goOn) then Until(a, goOn) else Until(a, goOn) + Until(b, goOn)
  {
    if a == [] {
      assert a + b == b;
    } else {
      assert (a + b)[1..] == a[1..] + b;
      UntilConcat(a[1..], b, goOn);
    }
  }

  lemma {:induction false} UntilAll(s: seq<FileEntry>, goOn: FileEntry -> bool)
    requires forall e :: e in s ==> goOn(e)
    ensures Until(s, goOn) == s
  {
    if s != [] {
      UntilAll(s[1..], goOn);
    }
  }

  lemma Regroup<T>(a: seq<T>, b: seq<T>, c: seq<T>)
    ensures (a + b) + c == a + (b + c)
  {
  }

  /** Visiting bin after bin. */
  lemma UntilBins(bs: seq<Bin<FileEntry>>, i: nat, goOn: FileEntry -> bool)
    requires i <= |bs|
    ensures i == 0 ==> bs[i..] == bs && [] + Until(Flat(bs), goOn) == Until(Flat(bs), goOn)
    ensures i == |bs| ==> Until(Flat(bs[i..]), goOn) == []
    ensures i < |bs| ==>
              Until(Flat(bs[i..]), goOn) == if Stops(bs[i].chain, goOn) then Until(bs[i].chain, goOn)
                                            else Until(bs[i].chain, goOn) + Until(Flat(bs[i + 1..]), goOn)
    ensures forall a: seq<FileEntry> :: a + [] == a
  {
    if i < |bs| {
      assert bs[i..][1..] == bs[i + 1..];
      UntilConcat(bs[i].chain, Flat(bs[i + 1..]), goOn);
    }
  }

  class FileEntry {
    const name: string
    const isDir: bool
    const nameCrc: Crc
    var parent: FileEntry?
    var nextEntry: FileEntry?
    var children: seq<EntryBin>
    var pendingDelete: bool
    var pathCrc: Crc
    var size: int

    /** The chains behind `children`. */
    ghost var bins: seq<Bin<FileEntry>>
    ghost var depth: nat

    constructor Named(name: string, isDir: bool, nameCrc: Crc, size: int)
      ensures this.name == name && this.isDir == isDir && this.nameCrc == nameCrc && this.size == size
      ensures parent == null && nextEntry == null && children == [] && bins == [] && depth == 0
      ensures !pendingDelete && pathCrc == nameCrc
    {
      this.name, this.isDir, this.nameCrc, this.size := name, isDir, nameCrc, size;
      parent, nextEntry, children, pendingDelete := null, null, [], false;
      pathCrc, bins, depth := nameCrc, [], 0;
    }

    /** A single entry without children; there is none with an empty name. */
    static method Create(hash: string -> Crc, name: string, isDir: bool, size: int) returns (e: FileEntry?)
      ensures e == null <==> name == ""
      ensures e != null ==> fresh(e) && e.Offered(hash) && e.pathCrc == e.nameCrc && e.parent == null && e.depth == 0
      ensures e != null ==> e.name == name && e.isDir == isDir && e.size == size
    {
      if name == "" {
        return null;
      }
      e := new FileEntry.Named(name, isDir, hash(name), size);
    }

    /** A hashed, unmarked entry without children. */
    ghost predicate Offered(hash: string -> Crc)
      reads this`children, this`bins, this`pendingDelete
    {
      name != "" && nameCrc == hash(name) && children == [] && bins == [] && !pendingDelete
    }

    /** The links of this directory represent its bins. */
    ghost predicate Linked()
      reads this`children, this`bins, Chained(bins)`nextEntry
    {
      Match(children, bins)
    }

    ghost function AsNode(): Node<FileEntry>
      reads this`parent, this`size, this`pathCrc, this`pendingDelete, this`bins, this`depth
    {
      Node(name, isDir, nameCrc, if parent == null then None else Some(parent),
           size, pathCrc, pendingDelete, bins, depth)
    }

    method FindBin(s: int) returns (k: nat, found: bool)
      requires Linked()
      ensures k == Slot(bins, s) && found == HasBin(bins, s)
    {
      k := 0;
      while k < |children| && children[k].size > s
        invariant k <= |children|
        invariant Slot(bins, s) == k + Slot(bins[k..], s)
      {
        assert LinkedBin(children[k], bins[k]);
        assert bins[k..][1..] == bins[k + 1..];
        k := k + 1;
      }
      if k < |children| {
        assert LinkedBin(children[k], bins[k]);
      }
      found := k < |children| && children[k].size == s;
    }

    /** The links before, in and after the bin of size `s`. */
    lemma Around(s: int)
      requires Linked()
      ensures |children| == |bins|
      ensures var k := Slot(bins, s);
              && Match(children[..k], Before(bins, s))
              && if HasBin(bins, s) then
                   && k < |children|
                   && children[k].size == s
                   && Links(children[k].firstEntry, Held(bins, s), null)
                   && Match(children[k + 1..], After(bins, s))
                 else
                   Match(children[k..], After(bins, s))
    {
      var k := Slot(bins, s);
      MatchSlice(children, bins, 0, k);
      var k' := if HasBin(bins, s) then k + 1 else k;
      MatchSlice(children, bins, k', |bins|);
      assert children[k'..|bins|] == children[k'..] && bins[k'..|bins|] == bins[k'..];
      if HasBin(bins, s) {
        assert LinkedBin(children[k], bins[k]);
      }
    }

    /** The size-ordered set with `first` heading the bin of size `s`, which is at or belongs at `k`. */
    method SetBin(s: int, k: nat, found: bool, first: FileEntry, ghost chain: seq<FileEntry>)
      requires k <= |children| && k == Slot(bins, s) && found == HasBin(bins, s)
      requires found ==> k < |children|
      requires Match(children[..k], Before(bins, s))
      requires Match(children[if found then k + 1 else k..], After(bins, s))
      requires Links(first, chain, null) && chain != []
      modifies this`children, this`bins
      ensures bins == Put(old(bins), s, chain)
      ensures Linked()
    {
      PutLinked(children[..k], children[if found then k + 1 else k..], bins, s, first, chain);
      hide Match, Links, Put, Slot, HasBin;
      children := children[..k] + [EntryBin(s, first)] + children[if found then k + 1 else k..];
      bins := Put(bins, s, chain);
    }

    /** Adds `child` to the front of its bin, touching neither this entry's size nor its parent. */
    method LinkChild(child: FileEntry)
      requires Linked()
      requires child != this && child !in Chained(bins)
      modifies this`children, this`bins, child`parent, child`pathCrc, child`nextEntry
      ensures child.parent == this && child.pathCrc == Xor(pathCrc, child.nameCrc)
      ensures bins == Insert(old(bins), child.size, child)
      ensures Linked()
    {
      hide Slot, Xor, Put;
      child.parent := this;
      child.pathCrc := Xor(pathCrc, child.nameCrc);
      var k, found := FindBin(child.size);
      Around(child.size);
      ChainedParts(bins, child.size);
      if found {
        child.nextEntry := children[k].firstEntry;
      } else {
        child.nextEntry := null;
      }
      assert Links(child.nextEntry, Held(bins, child.size), null);
      SetBin(child.size, k, found, child, [child] + Held(bins, child.size));
    }

    /** Takes `child`, which is not the first entry, out of the chain that starts at `first`. */
    static method UnlinkInner(first: FileEntry, child: FileEntry, ghost chain: seq<FileEntry>)
      requires Links(first, chain, null) && Distinct(chain)
      requires child in chain && first != child
      modifies chain`nextEntry
      ensures Links(first, Unlink(chain, child), null)
      ensures child.nextEntry == null
    {
      var e := first;
      ghost var k := 0;
      while e.nextEntry != child
        invariant k + 1 < |chain| && e == chain[k] && child !in chain[..k + 1]
        decreases |chain| - k
        modifies {}
      {
        CutOut(first, chain, k);
        assert chain[..k + 2] == chain[..k + 1] + [chain[k + 1]];
        e := e.nextEntry;
        k := k + 1;
      }
      CutOut(first, chain, k);
      e.nextEntry := child.nextEntry;
      child.nextEntry := null;
      LinksJoin(first, chain[..k], e, [e], e.nextEntry);
      LinksJoin(first, chain[..k] + [e], e.nextEntry, chain[k + 2..], null);
    }

    /** Erases the bin of size `s`, which is at `k`. */
    method EraseBin(s: int, k: nat)
      requires k < |children| && k == Slot(bins, s) && HasBin(bins, s)
      requires Match(children[..k], Before(bins, s))
      requires Match(children[k + 1..], After(bins, s))
      modifies this`children, this`bins
      ensures bins == Put(old(bins), s, [])
      ensures Linked()
    {
      EraseLinked(children[..k], children[k + 1..], bins, s);
      hide Match, Links, Put, Slot, HasBin;
      children := children[..k] + children[k + 1..];
      bins := Put(bins, s, []);
    }

    /** Takes the first entry out of the bin of size `s`; a bin left without entries is erased. */
    method UnlinkFirst(s: int, k: nat)
      requires Linked() && Proper(bins) && Once(bins)
      requires k == Slot(bins, s) && HasBin(bins, s)
      modifies this`children, this`bins, Held(bins, s)`nextEntry
      ensures bins == Remove(old(bins), s, old(Held(bins, s)[0]))
      ensures old(Held(bins, s)[0]).nextEntry == null
      ensures Linked()
    {
      hide *;
      Around(s);
      ChainedApart(bins, s);
      HeadOf(children[k].firstEntry, Held(bins, s));
      ChainedParts(bins, s);
      RemoveIsPut(bins, s);
      ghost var chain := Held(bins, s);
      var first := children[k].firstEntry;
      var rest := first.nextEntry;
      first.nextEntry := null;
      EndOf(rest, chain[1..]);
      if rest != null {
        SetBin(s, k, true, rest, chain[1..]);
      } else {
        EraseBin(s, k);
      }
    }

    /** Takes `child` out of the bin of size `s`. */
    method UnlinkChild(child: FileEntry, s: int)
      requires Linked() && Proper(bins) && Once(bins)
      requires child in Held(bins, s)
      modifies this`children, this`bins, Chained(bins)`nextEntry
      ensures bins == Remove(old(bins), s, child)
      ensures child.nextEntry == null
      ensures Linked() && child !in Chained(bins)
    {
      var k, found := FindBin(s);
      var first := children[k].firstEntry;
      ChainedParts(bins, s);
      RemoveGone(bins, s, child);
      if first == child {
        UnlinkFirst(s, k);
      } else {
        ghost var chain := Held(bins, s);
        Around(s);
        ChainedApart(bins, s);
        hide Slot, Put, Proper, Once, Match;
        UnlinkInner(first, child, chain);
        SetBin(s, k, true, first, Unlink(chain, child));
      }
    }

    /** Moves `child`, whose size has just grown by `sizeChange`, to the bin of its present size. */
    method Relocate(child: FileEntry, sizeChange: int)
      requires Linked() && Proper(bins) && Once(bins)
      requires child != this && this !in Chained(bins)
      requires child in Held(bins, child.size - sizeChange) && child in Chained(bins)
      modifies this`children, this`bins
      modifies Chained(bins)`nextEntry, child`parent, child`pathCrc
      ensures bins == Refile(old(bins), child.size - sizeChange, child.size, child)
      ensures child.parent == this && child.pathCrc == Xor(pathCrc, child.nameCrc)
      ensures Linked() && Chained(bins) == old(Chained(bins))
    {
      hide *;
      RefileChained(bins, child.size - sizeChange, child.size, child);
      RefileSteps(bins, child.size - sizeChange, child.size, child);
      UnlinkChild(child, child.size - sizeChange);
      LinkChild(child);
    }

    /** What `Relocate` needs, from the soundness of the whole tree but for `child`. */
    lemma Relocatable(child: FileEntry, d: int, S: set<FileEntry>, root: FileEntry)
      requires this in S && child in S && child.parent == this && AllLinked(S)
      requires SoundBut(Snap(S), root, child, d)
      ensures Linked() && Proper(bins) && Once(bins)
      ensures child != this && this !in Chained(bins) && Chained(bins) <= S
      ensures child in Held(bins, child.size - d) && child in Chained(bins)
      ensures forall p :: p in S && p != this ==> Chained(p.bins) !! Chained(bins)
    {
      var f := Snap(S);
      assert LinkedIn(this, S) && Binned(f, this);
      assert Placed(f, root, child) && Placed(f, root, this);
      ChainedKids(S, this);
      FiledUnder(f, this, child, child, d);
      forall p | p in S && p != this
        ensures Chained(p.bins) !! Chained(bins)
      {
        assert Binned(f, p);
        ChainedKids(S, p);
      }
    }

    /** One level of a size change: `child` is refiled and this entry grows by `d`. */
    method MoveChild(child: FileEntry, d: int, ghost S: set<FileEntry>, ghost root: FileEntry)
      requires this in S && child in S && child.parent == this && AllLinked(S)
      requires SoundBut(Snap(S), root, child, d)
      modifies S`children, S`bins, S`size, S`nextEntry, S`parent, S`pathCrc
      ensures AllLinked(S)
      ensures Snap(S) == Reinsert(old(Snap(S)), this, child, d)
    {
      hide *;
      Relocatable(child, d, S, root);
      LinkedEach(S);
      SnapSame(S);
      SnapHas(S, this);
      SnapHas(S, child);
      ghost var f := Snap(S);
      ReinsertIsRebin(f, this, child, d);
      Relocate(child, d);
      size := size + d;
      LinkedAll(S);
      SnapMoved(S, f, this, child, d);
    }

    /** Carries the size change of `child` up to the root. */
    method OnChildSizeChanged(child: FileEntry, sizeChange: int, ghost S: set<FileEntry>, ghost root: FileEntry)
      requires this in S && child in S && child.parent == this && AllLinked(S)
      requires SoundBut(Snap(S), root, child, sizeChange)
      modifies S`children, S`bins, S`size, S`nextEntry, S`parent, S`pathCrc
      ensures AllLinked(S)
      ensures Rooted(old(Snap(S)), root) && child in old(Snap(S))
      ensures Snap(S) == Climb(old(Snap(S)), root, child, sizeChange)
      decreases depth
    {
      hide *;
      SoundRooted(Snap(S), root, child, sizeChange);
      SnapHas(S, child);
      if sizeChange == 0 {
        ClimbStops(Snap(S), root, child, sizeChange);
        return;
      }
      ParentIn(S, root, child);
      ClimbGoesOn(Snap(S), root, this, child, sizeChange);
      ReinsertSound(Snap(S), root, this, child, sizeChange);
      MoveChild(child, sizeChange, S, root);
      SnapHas(S, this);
      ParentIn(S, root, this);
      if parent != null {
        parent.OnChildSizeChanged(this, sizeChange, S, root);
      } else {
        ClimbStops(Snap(S), root, this, sizeChange);
      }
    }

    /** Sets a new size and tells the ancestors about the difference. */
    method SetSize(newSize: int, ghost S: set<FileEntry>, ghost root: FileEntry)
      requires this in S && AllLinked(S) && Sound(Snap(S), root)
      modifies S`children, S`bins, S`size, S`nextEntry, S`parent, S`pathCrc
      ensures AllLinked(S)
      ensures Rooted(old(Snap(S)), root)
      ensures Snap(S) == Resize(old(Snap(S)), root, this, newSize)
    {
      hide *;
      SoundIsSoundBut(Snap(S), root);
      SoundRooted(Snap(S), root, root, 0);
      SnapHas(S, this);
      ParentIn(S, root, this);
      ResizeHole(Snap(S), root, this, newSize);
      ResizeIsClimb(Snap(S), root, this, newSize);
      LinkedEach(S);
      SnapSame(S);
      var sizeChange := newSize - size;
      ghost var f := Snap(S);
      size := newSize;
      LinkedAll(S);
      SnapResized(S, f, this);
      if parent != null && sizeChange != 0 {
        parent.OnChildSizeChanged(this, sizeChange, S, root);
      } else {
        ClimbStops(Snap(S), root, this, sizeChange);
      }
    }

    /** This entry has a child more, but its ancestors do not know of the size yet. */
    method AttachChild(child: FileEntry, ghost S: set<FileEntry>, ghost root: FileEntry)
      requires this in S && child !in S && AllLinked(S) && Sound(Snap(S), root)
      requires child.bins == [] && child.children == []
      modifies this`children, this`bins, this`size
      modifies child`parent, child`pathCrc, child`nextEntry, child`depth
      ensures AllLinked(S + {child})
      ensures Snap(S + {child}) ==
              Attach(old(Snap(S)), this, child, old(child.AsNode()), Insert(old(bins), child.size, child))
    {
      hide *;
      SoundIsSoundBut(Snap(S), root);
      SoundRooted(Snap(S), root, root, 0);
      LinkedEach(S);
      SnapSame(S);
      ProperBins(S, this);
      InsertChained(bins, child.size, child);
      SnapHas(S, this);
      NodeHas(child);
      ghost var f, n := Snap(S), child.AsNode();
      LinkChild(child);
      size := size + child.size;
      child.depth := depth + 1;
      ChildlessLinked(child);
      LinkedAll(S + {child});
      SnapAttached(S, f, this, child, n);
    }

    /** Adds a new child and tells the ancestors about its size. */
    method AddChild(child: FileEntry, ghost S: set<FileEntry>, ghost root: FileEntry)
      requires this in S && child !in S && AllLinked(S) && Sound(Snap(S), root)
      requires child.bins == [] && child.children == []
      modifies (S + {child})`children, (S + {child})`bins, (S + {child})`size
      modifies (S + {child})`nextEntry, (S + {child})`parent, (S + {child})`pathCrc
      modifies child`depth
      ensures AllLinked(S + {child})
      ensures Attachable(old(Snap(S)), root, this, child, old(child.AsNode()))
      ensures Snap(S + {child}) == AddLeaf(old(Snap(S)), root, this, child, old(child.AsNode()))
    {
      hide *;
      ghost var f, n, T := Snap(S), child.AsNode(), S + {child};
      CanAttach(S, root, this, child);
      AddLeafClimbs(f, root, this, child, n);
      AttachHole(f, root, this, child, n);
      SnapHas(S, this);
      var childSize := child.size;
      AttachChild(child, S, root);
      ParentIn(T, root, this);
      SnapHas(T, this);
      if parent != null {
        parent.OnChildSizeChanged(this, childSize, T, root);
      } else {
        ClimbStops(Snap(T), root, this, childSize);
      }
    }

    /** Takes the entry after `child` out of its chain. */
    static method CutNext(child: FileEntry, next: FileEntry)
      requires child.nextEntry == next && child != next
      modifies child`nextEntry, next`nextEntry
      ensures child.nextEntry == old(next.nextEntry) && next.nextEntry == null
    {
      child.nextEntry := next.nextEntry;
      next.nextEntry := null;
    }

    /** All entries of `chain` have size `s`, and those in `dead` are the marked ones. */
    static ghost predicate Flagged(s: int, chain: seq<FileEntry>, dead: set<FileEntry>)
      reads chain`pendingDelete, chain`size
    {
      forall e :: e in chain ==> (e.pendingDelete <==> e in dead) && e.size == s
    }

    /** The books of a sweep of `chain` that has dealt with its first `j` entries and stands at `child`. */
    static ghost predicate SweepBooks(s: int, chain: seq<FileEntry>, dead: set<FileEntry>, j: nat,
                                      kept: seq<FileEntry>, child: FileEntry, deleted: seq<FileEntry>, lost: int)
    {
      && 1 <= j <= |chain| && child in chain
      && (child == chain[0] || child !in dead)
      && kept + [child] == [chain[0]] + Keep(chain[1..j], dead)
      && deleted == Drop(chain[1..j], dead) && lost == Weight(s, |deleted|)
      && (forall e :: e in deleted ==> e in chain[1..] && e in dead)
      && (forall e :: e in kept ==> e in chain && e !in chain[j..])
      && child !in kept && child !in chain[j..]
    }

    /** Of the first `j` entries of `chain`, `kept` and then `child` are left in the links. */
    static ghost predicate Sweeping(first: FileEntry, s: int, chain: seq<FileEntry>, dead: set<FileEntry>, j: nat,
                                    kept: seq<FileEntry>, child: FileEntry, deleted: seq<FileEntry>, lost: int)
      reads chain, kept`nextEntry, child`nextEntry, deleted`nextEntry
    {
      && Flagged(s, chain, dead)
      && SweepBooks(s, chain, dead, j, kept, child, deleted, lost)
      && (forall e :: e in deleted ==> e.nextEntry == null)
      && Links(first, kept, child) && Links(child.nextEntry, chain[j..], null)
    }

    /** Unlinks the dead entries after the first one from a chain of entries of size `s`. */
    static method SweepTail(first: FileEntry, s: int, ghost chain: seq<FileEntry>, ghost dead: set<FileEntry>)
      returns (deleted: seq<FileEntry>, lost: int)
      requires Links(first, chain, null) && chain != [] && Distinct(chain)
      requires forall e :: e in chain ==> (e.pendingDelete <==> e in dead) && e.size == s
      modifies chain`nextEntry
      ensures Links(first, [chain[0]] + Keep(chain[1..], dead), null)
      ensures deleted == Drop(chain[1..], dead) && lost == Weight(s, |deleted|)
      ensures forall e :: e in deleted ==> e.nextEntry == null
    {
      hide *;
      SweepStarts(first, s, chain, dead);
      deleted, lost := [], 0;
      ghost var kept: seq<FileEntry>, j := [], 1;
      var child: FileEntry := first;
      while child.nextEntry != null
        invariant Sweeping(first, s, chain, dead, j, kept, child, deleted, lost)
        decreases |chain| - j
      {
        SweepStands(first, s, chain, dead, j, kept, child, deleted, lost);
        var next: FileEntry := child.nextEntry;
        SweepAhead(first, s, chain, dead, j, kept, child, deleted, lost, next);
        if next.pendingDelete {
          CutNext(child, next);
          SweepDrops(first, s, chain, dead, j, kept, child, deleted, lost, next);
          lost := lost + next.size;
          deleted := deleted + [next];
        } else {
          SweepPasses(first, s, chain, dead, j, kept, child, deleted, lost, next);
          kept := kept + [child];
          child := next;
        }
        j := j + 1;
      }
      SweepEnds(first, s, chain, dead, j, kept, child, deleted, lost);
    }

    /** Unlinks all dead entries of one chain; null is left when there is no other entry in it. */
    static method SweepChain(first: FileEntry, s: int, ghost chain: seq<FileEntry>, ghost dead: set<FileEntry>)
      returns (first': FileEntry?, deleted: seq<FileEntry>, lost: int)
      requires Links(first, chain, null) && chain != [] && Distinct(chain)
      requires forall e :: e in chain ==> (e.pendingDelete <==> e in dead) && e.size == s
      modifies chain`nextEntry
      ensures Links(first', Keep(chain, dead), null)
      ensures deleted == SweptBin(chain, dead) && lost == Weight(s, |deleted|)
      ensures forall e :: e in deleted ==> e.nextEntry == null
    {
      HeadOfChain(first, chain, dead);
      assert first in chain;
      hide *;
      deleted, lost := SweepTail(first, s, chain, dead);
      AfterHead(first, Keep(chain[1..], dead));
      MoreWeight(s, |deleted|);
      first' := first;
      if first.pendingDelete {
        first' := first.nextEntry;
        first.nextEntry := null;
        lost := lost + first.size;
        deleted := deleted + [first];
      }
    }

    /** The bins before `j` are swept, and `it` is the position of bin `j` by now. */
    ghost predicate BinsSweeping(bs: seq<Bin<FileEntry>>, dead: set<FileEntry>, j: nat, it: nat,
                                 deleted: seq<FileEntry>, lost: int)
      requires Proper(bs)
      reads this`children, Chained(bs)
    {
      && j <= |bs| && it <= |children|
      && ChainedSweep(bs, dead, j)
      && Match(children[..it], Sweep(bs[..j], dead))
      && Match(children[it..], bs[j..])
      && deleted == Swept(bs[..j], dead)
      && lost == Total(bs[..j]) - Total(Sweep(bs[..j], dead))
      && forall e :: e in deleted ==> e in Chained(bs[..j]) && e.nextEntry == null
    }

    /** Unlinks all dead children and erases the bins left empty. */
    method SweepChildren(ghost S: set<FileEntry>, ghost dead: set<FileEntry>)
      returns (deleted: seq<FileEntry>, lost: int)
      requires Linked() && Proper(bins) && Once(bins) && this !in Chained(bins) && Chained(bins) <= S
      requires forall e :: e in Chained(bins) ==> (e.pendingDelete <==> e in dead)
      requires forall b, e :: b in bins && e in b.chain ==> e.size == b.size
      modifies this`children, this`bins, Chained(bins)`nextEntry
      ensures Linked() && bins == Sweep(old(bins), dead)
      ensures deleted == Swept(old(bins), dead) && lost == Total(old(bins)) - Total(bins)
      ensures forall e :: e in deleted ==> e.nextEntry == null
    {
      hide *;
      deleted, lost := [], 0;
      var it := 0;
      ghost var bs, j := bins, 0;
      BinsSweepStarts(this, dead);
      while it < |children|
        invariant BinsSweeping(bs, dead, j, it, deleted, lost)
        decreases |children| - it
      {
        BinAhead(this, bs, dead, j, it, deleted, lost);
        var bin := children[it];
        ghost var cs := children;
        var first, swept, weight := SweepChain(bin.firstEntry, bin.size, bs[j].chain, dead);
        if first == null {
          children := children[..it] + children[it + 1..];
        } else {
          children := children[it := EntryBin(bin.size, first)];
        }
        BinSwept(this, cs, bs, dead, j, it, deleted, lost, first, swept, weight);
        if first != null {
          it := it + 1;
        }
        deleted, lost, j := deleted + swept, lost + weight, j + 1;
      }
      BinsSweepEnds(this, bs, dead, j, it, deleted, lost);
      bins := Sweep(bs, dead);
      MatchIsLinked(this);
    }

    /** Marks every entry of one chain and counts the files and the directories in it. */
    static method MarkChain(first: FileEntry?, ghost chain: seq<FileEntry>) returns (files: int, dirs: int)
      requires Links(first, chain, null)
      modifies chain`pendingDelete
      ensures forall e :: e in chain ==> e.pendingDelete
      ensures files == CountKind(chain, false) && dirs == CountKind(chain, true)
    {
      files, dirs := 0, 0;
      var child := first;
      ghost var j := 0;
      assert chain[0..] == chain && chain[..0] == [];
      while child != null
        invariant j <= |chain|
        invariant Links(child, chain[j..], null)
        invariant forall e :: e in chain[..j] ==> e.pendingDelete
        invariant files == CountKind(chain[..j], false) && dirs == CountKind(chain[..j], true)
        decreases |chain| - j
      {
        assert child == chain[j] && chain[j..][1..] == chain[j + 1..];
        CountNext(chain, j, false);
        CountNext(chain, j, true);
        if child.isDir {
          dirs := dirs + 1;
        } else {
          files := files + 1;
        }
        child.pendingDelete := true;
        child := child.nextEntry;
        assert chain[..j + 1] == chain[..j] + [chain[j]];
        j := j + 1;
      }
      assert chain[..j] == chain;
    }

    /** Marks all children for deletion and counts the files and the directories among them. */
    method MarkChildrenPendingDelete() returns (files: int, dirs: int)
      requires Linked()
      modifies Chained(bins)`pendingDelete
      ensures forall e :: e in Chained(bins) ==> e.pendingDelete
      ensures files == CountKind(Flat(bins), false) && dirs == CountKind(Flat(bins), true)
    {
      files, dirs := 0, 0;
      assert bins[..0] == [];
      for i := 0 to |children|
        invariant Linked()
        invariant forall e :: e in Chained(bins[..i]) ==> e.pendingDelete
        invariant files == CountKind(Flat(bins[..i]), false) && dirs == CountKind(Flat(bins[..i]), true)
      {
        NextChain(bins, i);
        assert LinkedBin(children[i], bins[i]);
        hide Match, LinkedBin, Links, CountKind, Flat, Chained;
        var f, d := MarkChain(children[i].firstEntry, bins[i].chain);
        files, dirs := files + f, dirs + d;
      }
      assert bins[..|children|] == bins;
    }

    /** This entry is not to be deleted after all. */
    method UnmarkPendingDelete()
      modifies this`pendingDelete
      ensures !pendingDelete
    {
      pendingDelete := false;
    }

    /** Visits one chain until `goOn` turns an entry down. */
    static method VisitChain(first: FileEntry?, ghost chain: seq<FileEntry>, goOn: FileEntry -> bool)
      returns (visited: seq<FileEntry>, stop: bool)
      requires Links(first, chain, null)
      ensures visited == Until(chain, goOn) && stop == Stops(chain, goOn)
    {
      hide *;
      visited, stop := [], false;
      var child := first;
      ghost var rest := chain;
      UntilEmpty(chain, goOn);
      while child != null && !stop
        invariant Links(child, rest, null)
        invariant Until(chain, goOn) == if stop then visited else visited + Until(rest, goOn)
        invariant Stops(chain, goOn) == (stop || Stops(rest, goOn))
        decreases |rest|
      {
        UntilStep(child, rest, goOn);
        visited := visited + [child];
        stop := !goOn(child);
        child := child.nextEntry;
        rest := rest[1..];
      }
      if !stop {
        EndOf(child, rest);
        UntilEmpty(rest, goOn);
      }
    }

    /** Visits the children in traversal order until `goOn` turns one down; false when there are none. */
    method ForEach(goOn: FileEntry -> bool) returns (any: bool, visited: seq<FileEntry>)
      requires Linked()
      ensures any <==> bins != []
      ensures visited == Until(Flat(bins), goOn)
    {
      visited, any := [], children != [];
      var i, stop := 0, false;
      UntilBins(bins, 0, goOn);
      while i < |children| && !stop
        invariant i <= |children|
        invariant Until(Flat(bins), goOn) == if stop then visited else visited + Until(Flat(bins[i..]), goOn)
      {
        assert LinkedBin(children[i], bins[i]);
        UntilBins(bins, i, goOn);
        hide Match, LinkedBin, Links, Until, Stops, Flat;
        var seen;
        seen, stop := VisitChain(children[i].firstEntry, bins[i].chain, goOn);
        Regroup(visited, seen, Until(Flat(bins[i + 1..]), goOn));
        visited := visited + seen;
        i := i + 1;
      }
      if !stop {
        UntilBins(bins, i, goOn);
      }
    }

    /** The children marked for deletion. */
    ghost function Marked(): set<FileEntry>
      reads this`bins, Chained(bins)`pendingDelete
    {
      set e | e in Chained(bins) && e.pendingDelete
    }

    /** What is left of the tree once the marked children are gone. */
    ghost function Survivors(S: set<FileEntry>, root: FileEntry): set<FileEntry>
      requires this in S && Rooted(Snap(S), root)
      reads this, S, Chained(bins)`pendingDelete
    {
      S - Doomed(Snap(S), root, Marked())
    }

    /** Sweeps the children and lowers this entry's size; the ancestors do not know yet. */
    method Shrink(ghost S: set<FileEntry>, ghost T: set<FileEntry>, ghost root: FileEntry, ghost dead: set<FileEntry>)
      returns (deleted: seq<FileEntry>, lost: int)
      requires this in S && AllLinked(S) && Sound(Snap(S), root)
      requires dead == Marked() && T == Survivors(S, root)
      modifies this`children, this`bins, this`size, S`nextEntry
      ensures Rooted(old(Snap(S)), root) && dead <= Kids(old(Snap(S)), this)
      ensures this in T && T <= S && AllLinked(T)
      ensures Snap(T) ==
                Prune(old(Snap(S)), root, this, dead, Sweep(old(bins), dead), old(size) - Loss(old(bins), dead))
      ensures Proper(old(bins)) && deleted == Swept(old(bins), dead)
      ensures lost == Total(old(bins)) - Total(Sweep(old(bins), dead))
      ensures forall e :: e in S && e !in T ==> e.Linked() && Chained(e.bins) <= S - T
    {
      hide *;
      RemovalReady(this, S, root);
      SnapHas(S, this);
      LossIs(bins, dead);
      ghost var f := Snap(S);
      PruneHole(f, root, this, dead, -Loss(bins, dead));
      SnapSame(S);
      deleted, lost := SweepChildren(S, dead);
      if lost > 0 {
        size := size - lost;
      }
      SnapPruned(S, f, T, this, root, dead);
      SoundRooted(Snap(T), root, this, -Loss(old(bins), dead));
      ChainedSwept(old(bins), dead);
      ChainedSurvive(T);
      LinkedAll(T);
    }

    /** Removes the marked children together with all that is below them. */
    method RemovePendingDelete(ghost S: set<FileEntry>, ghost root: FileEntry) returns (deleted: seq<FileEntry>)
      requires this in S && AllLinked(S) && Sound(Snap(S), root)
      modifies S`children, S`bins, S`size, S`nextEntry, S`parent, S`pathCrc
      ensures Rooted(old(Snap(S)), root) && old(Marked()) <= Kids(old(Snap(S)), this)
      ensures old(Survivors(S, root)) <= S && AllLinked(old(Survivors(S, root)))
      ensures Snap(old(Survivors(S, root))) == RemoveKids(old(Snap(S)), root, this, old(Marked()))
      ensures Proper(old(bins)) && deleted == Swept(old(bins), old(Marked()))
      ensures forall e :: e in S && e !in old(Survivors(S, root)) ==>
                && e.bins == old(e.bins) && e.pathCrc == old(e.pathCrc)
                && e.Linked() && Chained(e.bins) <= S - old(Survivors(S, root))
    {
      hide *;
      RemovalReady(this, S, root);
      SnapHas(S, this);
      ghost var f, dead, T := Snap(S), Marked(), Survivors(S, root);
      RemoveKidsClimbs(f, root, this, dead);
      LossIs(bins, dead);
      PruneHole(f, root, this, dead, -Loss(bins, dead));
      var lost;
      deleted, lost := Shrink(S, T, root, dead);
      SnapHas(T, this);
      ParentIn(T, root, this);
      if lost > 0 {
        if parent != null {
          parent.OnChildSizeChanged(this, -lost, T, root);
        } else {
          ClimbStops(Snap(T), root, this, -lost);
        }
      } else {
        ClimbStops(Snap(T), root, this, 0);
      }
    }
  }

  lemma LossIs(bs: seq<Bin<FileEntry>>, dead: set<FileEntry>)
    ensures Loss(bs, dead) == if Total(bs) > Total(Sweep(bs, dead)) then Total(bs) - Total(Sweep(bs, dead)) else 0
  {
  }

  /** What a sweep of `p`'s children may rely on. */
  lemma RemovalReady(p: FileEntry, S: set<FileEntry>, root: FileEntry)
    requires p in S && AllLinked(S) && Sound(Snap(S), root)
    ensures Rooted(Snap(S), root) && p.Marked() <= Kids(Snap(S), p)
    ensures p.Linked() && Proper(p.bins) && Once(p.bins) && p !in Chained(p.bins) && Chained(p.bins) <= S
    ensures forall e :: e in Chained(p.bins) ==> (e.pendingDelete <==> e in p.Marked())
    ensures forall b, e :: b in p.bins && e in b.chain ==> e.size == b.size
    ensures forall q :: q in S && q != p ==> Chained(q.bins) !! Chained(p.bins)
    ensures forall q :: q in S ==> q.Linked() && Chained(q.bins) <= S
    ensures p.Survivors(S, root) == S - Doomed(Snap(S), root, p.Marked())
    ensures p in p.Survivors(S, root)
    ensures forall e :: e in S && e !in p.Survivors(S, root) ==> Chained(e.bins) <= S - p.Survivors(S, root)
  {
    var f := Snap(S);
    assert Binned(f, p) && Placed(f, root, p);
    ChainedKids(S, p);
    forall q | q in S
      ensures q.Linked() && Chained(q.bins) <= S
      ensures q != p ==> Chained(q.bins) !! Chained(p.bins)
    {
      assert LinkedIn(q, S) && Binned(f, q);
      ChainedKids(S, q);
    }
    forall b, e | b in p.bins && e in b.chain
      ensures e.size == b.size
    {
      assert e in Chained(p.bins);
      assert FiledAt(f[p].bins, b.size, e);
    }
    DoomedInside(f, root, p, p.Marked());
    forall e | e in S && e !in p.Survivors(S, root)
      ensures Chained(e.bins) <= S - p.Survivors(S, root)
    {
      DoomedChained(p, S, root, e);
    }
  }

  /** The children of a doomed entry are doomed. */
  lemma DoomedChained(p: FileEntry, S: set<FileEntry>, root: FileEntry, e: FileEntry)
    requires p in S && Rooted(Snap(S), root) && Housed(Snap(S)) && p.Marked() <= Kids(Snap(S), p)
    requires e in Doomed(Snap(S), root, p.Marked())
    ensures Chained(e.bins) <= Doomed(Snap(S), root, p.Marked())
  {
    var f := Snap(S);
    assert Binned(f, e);
    ChainedKids(S, e);
    forall c | c in Chained(e.bins)
      ensures c in Doomed(f, root, p.Marked())
    {
      DoomedKids(f, root, p, p.Marked(), c);
      assert Placed(f, root, c);
    }
  }

  lemma SnapPruned(S: set<FileEntry>, f: Forest<FileEntry>, T: set<FileEntry>, p: FileEntry, root: FileEntry,
                   dead: set<FileEntry>)
    requires f.Keys == S && p in S && Rooted(f, root) && T == S - Doomed(f, root, dead)
    requires forall e :: e in S && e != p ==> Same(f, e)
    requires Like(f[p], p) && SameParent(f[p], p) && p.pathCrc == f[p].pathCrc
    ensures Snap(T) == Prune(f, root, p, dead, p.bins, p.size)
  {
    var g := Prune(f, root, p, dead, p.bins, p.size);
    forall e | e in T
      ensures e in g && g[e] == e.AsNode()
    {
      if e != p {
        assert Same(f, e);
      }
    }
  }

  /** In a well-housed tree all chained entries belong to the tree. */
  lemma ChainedSurvive(T: set<FileEntry>)
    requires Housed(Snap(T))
    ensures forall q :: q in T ==> Chained(q.bins) <= T
  {
    forall q | q in T
      ensures Chained(q.bins) <= T
    {
      assert Binned(Snap(T), q);
      ChainedKids(T, q);
    }
  }

  lemma MatchIsLinked(p: FileEntry)
    requires Match(p.children, p.bins)
    ensures p.Linked()
  {
  }

  /** Sweeping only ever drops entries. */
  ghost predicate ChainedSweep(bs: seq<Bin<FileEntry>>, dead: set<FileEntry>, j: nat)
    requires j <= |bs|
  {
    && Chained(Sweep(bs[..j], dead)) <= Chained(bs[..j]) <= Chained(bs)
    && Chained(bs[j..]) <= Chained(bs)
  }

  lemma SweptInside(bs: seq<Bin<FileEntry>>, dead: set<FileEntry>, j: nat)
    requires j <= |bs|
    ensures ChainedSweep(bs, dead, j)
  {
    ChainedSwept(bs[..j], dead);
    ChainedSubset(bs[..j], bs);
    ChainedSubset(bs[j..], bs);
  }

  lemma ChainedSwept(bs: seq<Bin<FileEntry>>, dead: set<FileEntry>)
    ensures Chained(Sweep(bs, dead)) <= Chained(bs)
  {
    forall e | e in Chained(Sweep(bs, dead))
      ensures e in Chained(bs)
    {
      var b :| b in Sweep(bs, dead) && e in b.chain;
      var i :| 0 <= i < |Sweep(bs, dead)| && Sweep(bs, dead)[i] == b;
      var j := SweepBins(bs, dead, i);
      KeepInside(bs[j].chain, dead);
      ChainedHas(bs, j);
    }
  }

  lemma ChainedSubset(some: seq<Bin<FileEntry>>, all: seq<Bin<FileEntry>>)
    requires forall i :: 0 <= i < |some| ==> some[i] in all
    ensures Chained(some) <= Chained(all)
  {
    forall e | e in Chained(some)
      ensures e in Chained(all)
    {
      var b :| b in some && e in b.chain;
      assert b in all;
    }
  }

  lemma BinsSweepStarts(p: FileEntry, dead: set<FileEntry>)
    requires p.Linked() && Proper(p.bins)
    ensures p.BinsSweeping(p.bins, dead, 0, 0, [], 0)
  {
    SweptInside(p.bins, dead, 0);
    assert p.children[0..] == p.children && p.bins[0..] == p.bins;
  }

  /** The bin that is swept next. */
  lemma BinAhead(p: FileEntry, bs: seq<Bin<FileEntry>>, dead: set<FileEntry>, j: nat, it: nat,
                 deleted: seq<FileEntry>, lost: int)
    requires Proper(bs) && Once(bs)
    requires p.BinsSweeping(bs, dead, j, it, deleted, lost) && it < |p.children|
    ensures j < |bs| && bs[j].chain != [] && Distinct(bs[j].chain) && bs[j] in bs
    ensures p.children[it].size == bs[j].size
    ensures Match(p.children[..it], Sweep(bs[..j], dead)) && Match(p.children[it + 1..], bs[j + 1..])
    ensures deleted == Swept(bs[..j], dead) && lost == Total(bs[..j]) - Total(Sweep(bs[..j], dead))
    ensures forall e :: e in deleted ==> e in Chained(bs[..j]) && e.nextEntry == null && e !in bs[j].chain
    ensures Chained(Sweep(bs[..j], dead)) <= Chained(bs) && Chained(bs[j + 1..]) <= Chained(bs)
    ensures forall e :: e in Chained(Sweep(bs[..j], dead)) ==> e !in bs[j].chain
    ensures forall e :: e in Chained(bs[j + 1..]) ==> e !in bs[j].chain
    ensures Links(p.children[it].firstEntry, bs[j].chain, null)
    ensures forall e :: e in bs[j].chain ==> e in Chained(bs) && e !in Chained(bs[..j]) && e !in Chained(bs[j + 1..])
  {
    assert LinkedBin(p.children[it..][0], bs[j..][0]);
    MatchSlice(p.children[it..], bs[j..], 1, |bs[j..]|);
    assert p.children[it..][1..] == p.children[it + 1..] && bs[j..][1..] == bs[j + 1..];
    BinApart(bs, j);
    ChainedHas(bs, j);
    ChainedSubset(bs[j + 1..], bs);
    ChainedFlat(bs[..j]);
    ChainedFlat(bs[j + 1..]);
  }

  /** After the chain of bin `j` was swept, and its bin erased when nothing was left of it. */
  lemma BinSwept(p: FileEntry, cs: seq<EntryBin>, bs: seq<Bin<FileEntry>>, dead: set<FileEntry>, j: nat, it: nat,
                 deleted: seq<FileEntry>, lost: int, first: FileEntry?, swept: seq<FileEntry>, weight: int)
    requires Proper(bs) && j < |bs| && it < |cs| && bs[j].chain != []
    requires Match(cs[..it], Sweep(bs[..j], dead)) && Match(cs[it + 1..], bs[j + 1..])
    requires deleted == Swept(bs[..j], dead) && lost == Total(bs[..j]) - Total(Sweep(bs[..j], dead))
    requires forall e :: e in deleted ==> e in Chained(bs[..j]) && e.nextEntry == null
    requires Links(first, Keep(bs[j].chain, dead), null)
    requires swept == SweptBin(bs[j].chain, dead) && weight == Weight(bs[j].size, |swept|)
    requires forall e :: e in swept ==> e.nextEntry == null
    requires p.children == if first == null then cs[..it] + cs[it + 1..] else cs[it := EntryBin(bs[j].size, first)]
    ensures p.BinsSweeping(bs, dead, j + 1, if first == null then it else it + 1, deleted + swept, lost + weight)
  {
    hide *;
    MatchOne(bs[j], dead, first);
    var it' := if first == null then it else it + 1;
    var one := if first == null then [] else [EntryBin(bs[j].size, first)];
    SweptInside(bs, dead, j + 1);
    SweepNextBin(bs, dead, j);
    SweptFrom(bs[j].chain, dead);
    ChainedTake(bs, j);
    MatchConcat(cs[..it], Sweep(bs[..j], dead), one, SweepBin(bs[j], dead));
    assert p.children[..it'] == cs[..it] + one;
    assert p.children[it'..] == cs[it + 1..];
    SweepingNow(p, bs, dead, j + 1, it', deleted + swept, lost + weight);
  }

  lemma SweepingNow(p: FileEntry, bs: seq<Bin<FileEntry>>, dead: set<FileEntry>, j: nat, it: nat,
                    deleted: seq<FileEntry>, lost: int)
    requires Proper(bs) && j <= |bs| && it <= |p.children| && ChainedSweep(bs, dead, j)
    requires Match(p.children[..it], Sweep(bs[..j], dead)) && Match(p.children[it..], bs[j..])
    requires deleted == Swept(bs[..j], dead) && lost == Total(bs[..j]) - Total(Sweep(bs[..j], dead))
    requires forall e :: e in deleted ==> e in Chained(bs[..j]) && e.nextEntry == null
    ensures p.BinsSweeping(bs, dead, j, it, deleted, lost)
  {
  }

  lemma MatchOne(b: Bin<FileEntry>, dead: set<FileEntry>, first: FileEntry?)
    requires Links(first, Keep(b.chain, dead), null)
    ensures Match(if first == null then [] else [EntryBin(b.size, first)], SweepBin(b, dead))
  {
    if first != null {
      assert LinkedBin(EntryBin(b.size, first), SweepBin(b, dead)[0]);
    }
  }

  lemma SweptFrom(chain: seq<FileEntry>, dead: set<FileEntry>)
    requires chain != []
    ensures forall e :: e in SweptBin(chain, dead) ==> e in chain
  {
    DropInside(chain[1..], dead);
  }

  /** The entries of the first `j + 1` bins. */
  lemma ChainedTake(bs: seq<Bin<FileEntry>>, j: nat)
    requires j < |bs|
    ensures Chained(bs[..j]) <= Chained(bs[..j + 1])
    ensures forall e :: e in bs[j].chain ==> e in Chained(bs[..j + 1])
  {
    assert bs[..j + 1] == bs[..j] + [bs[j]];
    ChainedHas(bs[..j + 1], j);
  }

  lemma BinsSweepEnds(p: FileEntry, bs: seq<Bin<FileEntry>>, dead: set<FileEntry>, j: nat, it: nat,
                      deleted: seq<FileEntry>, lost: int)
    requires Proper(bs)
    requires p.BinsSweeping(bs, dead, j, it, deleted, lost) && it >= |p.children|
    ensures Match(p.children, Sweep(bs, dead))
    ensures deleted == Swept(bs, dead) && lost == Total(bs) - Total(Sweep(bs, dead))
    ensures forall e :: e in deleted ==> e.nextEntry == null
  {
    assert p.children[..it] == p.children;
    assert bs[..j] == bs;
  }

  lemma HeadOfChain(first: FileEntry, chain: seq<FileEntry>, dead: set<FileEntry>)
    requires Links(first, chain, null) && chain != [] && Distinct(chain)
    ensures chain[0] == first && first !in Keep(chain[1..], dead) && first !in Drop(chain[1..], dead)
    ensures Keep(chain, dead) == if first in dead then Keep(chain[1..], dead) else [first] + Keep(chain[1..], dead)
    ensures SweptBin(chain, dead) == if first in dead then Drop(chain[1..], dead) + [first] else Drop(chain[1..], dead)
  {
    KeepHas(chain[1..], dead);
    DistinctNext(chain, 0);
  }

  lemma AfterHead(first: FileEntry, rest: seq<FileEntry>)
    requires Links(first, [first] + rest, null)
    ensures Links(first.nextEntry, rest, null)
  {
    assert ([first] + rest)[1..] == rest;
  }

  lemma MoreWeight(s: int, n: nat)
    ensures Weight(s, n + 1) == s + Weight(s, n)
  {
  }

  lemma SweepStarts(first: FileEntry, s: int, chain: seq<FileEntry>, dead: set<FileEntry>)
    requires Links(first, chain, null) && chain != [] && Distinct(chain)
    requires forall e :: e in chain ==> (e.pendingDelete <==> e in dead) && e.size == s
    ensures FileEntry.Sweeping(first, s, chain, dead, 1, [], first, [], 0)
  {
    assert chain[1..1] == [];
    DistinctNext(chain, 0);
  }

  lemma SweepStands(first: FileEntry, s: int, chain: seq<FileEntry>, dead: set<FileEntry>, j: nat,
                    kept: seq<FileEntry>, child: FileEntry, deleted: seq<FileEntry>, lost: int)
    requires FileEntry.Sweeping(first, s, chain, dead, j, kept, child, deleted, lost) && child.nextEntry != null
    ensures j < |chain| && child.nextEntry == chain[j] == chain[j..][0]
    ensures child in chain && child.nextEntry in chain && child != child.nextEntry
  {
  }

  /** What a sweep says about the next entry. */
  lemma SweepAhead(first: FileEntry, s: int, chain: seq<FileEntry>, dead: set<FileEntry>, j: nat,
                   kept: seq<FileEntry>, child: FileEntry, deleted: seq<FileEntry>, lost: int, next: FileEntry)
    requires Distinct(chain)
    requires FileEntry.Sweeping(first, s, chain, dead, j, kept, child, deleted, lost) && child.nextEntry == next
    ensures FileEntry.Flagged(s, chain, dead) && FileEntry.SweepBooks(s, chain, dead, j, kept, child, deleted, lost)
    ensures j < |chain| && next == chain[j] && next in chain[1..] && next !in chain[j + 1..] && next !in kept
    ensures next.pendingDelete <==> next in dead
    ensures next.size == s && child !in deleted && child !in kept && child !in chain[j + 1..]
    ensures forall e :: e in deleted ==> e.nextEntry == null
    ensures Links(first, kept, child) && Links(next.nextEntry, chain[j + 1..], null)
    ensures Keep(chain[1..j + 1], dead) == Keep(chain[1..j], dead) + if next in dead then [] else [next]
    ensures Drop(chain[1..j + 1], dead) == Drop(chain[1..j], dead) + if next in dead then [next] else []
  {
    SweepStands(first, s, chain, dead, j, kept, child, deleted, lost);
    KeepNext(chain[1..], dead, j - 1);
    assert chain[1..][..j - 1] == chain[1..j] && chain[1..][..j] == chain[1..j + 1];
    assert chain[j..][1..] == chain[j + 1..];
    DistinctNext(chain, j);
    DistinctNext(chain, 0);
    assert chain[1..][j - 1] == next;
  }

  lemma SweepPasses(first: FileEntry, s: int, chain: seq<FileEntry>, dead: set<FileEntry>, j: nat,
                    kept: seq<FileEntry>, child: FileEntry, deleted: seq<FileEntry>, lost: int, next: FileEntry)
    requires Distinct(chain)
    requires FileEntry.Sweeping(first, s, chain, dead, j, kept, child, deleted, lost)
    requires child.nextEntry == next && !next.pendingDelete
    ensures FileEntry.Sweeping(first, s, chain, dead, j + 1, kept + [child], next, deleted, lost)
  {
    SweepAhead(first, s, chain, dead, j, kept, child, deleted, lost, next);
    LinksJoin(first, kept, child, [child], next);
    PassBooks(s, chain, dead, j, kept, child, deleted, lost, next);
    hide FileEntry.SweepBooks, FileEntry.Flagged, Links;
  }

  lemma PassBooks(s: int, chain: seq<FileEntry>, dead: set<FileEntry>, j: nat,
                  kept: seq<FileEntry>, child: FileEntry, deleted: seq<FileEntry>, lost: int, next: FileEntry)
    requires FileEntry.SweepBooks(s, chain, dead, j, kept, child, deleted, lost)
    requires j < |chain| && next == chain[j] && next !in dead && next !in chain[j + 1..] && next !in kept
    requires Keep(chain[1..j + 1], dead) == Keep(chain[1..j], dead) + [next]
    requires Drop(chain[1..j + 1], dead) == Drop(chain[1..j], dead)
    ensures FileEntry.SweepBooks(s, chain, dead, j + 1, kept + [child], next, deleted, lost)
  {
    hide Keep, Drop, Weight;
    assert kept + [child] + [next] == [chain[0]] + Keep(chain[1..j + 1], dead);
    forall e | e in chain[j + 1..]
      ensures e in chain[j..]
    {
    }
    assert chain[j..][0] == next;
  }

  /** After the next entry, which is dead, was taken out of the chain. */
  lemma SweepDrops(first: FileEntry, s: int, chain: seq<FileEntry>, dead: set<FileEntry>, j: nat,
                   kept: seq<FileEntry>, child: FileEntry, deleted: seq<FileEntry>, lost: int, next: FileEntry)
    requires FileEntry.Flagged(s, chain, dead) && FileEntry.SweepBooks(s, chain, dead, j, kept, child, deleted, lost)
    requires j < |chain| && next in chain[1..] && next in dead && next.size == s && next.nextEntry == null
    requires forall e :: e in deleted ==> e.nextEntry == null
    requires Links(first, kept, child) && Links(child.nextEntry, chain[j + 1..], null)
    requires Keep(chain[1..j + 1], dead) == Keep(chain[1..j], dead)
    requires Drop(chain[1..j + 1], dead) == Drop(chain[1..j], dead) + [next]
    ensures FileEntry.Sweeping(first, s, chain, dead, j + 1, kept, child, deleted + [next], lost + next.size)
  {
    hide Keep, Drop, Links;
    assert forall e :: e in chain[j + 1..] ==> e in chain[j..];
    assert Weight(s, |deleted| + 1) == s + Weight(s, |deleted|);
  }

  lemma SweepEnds(first: FileEntry, s: int, chain: seq<FileEntry>, dead: set<FileEntry>, j: nat,
                  kept: seq<FileEntry>, child: FileEntry, deleted: seq<FileEntry>, lost: int)
    requires FileEntry.Sweeping(first, s, chain, dead, j, kept, child, deleted, lost) && child.nextEntry == null
    ensures Links(first, [chain[0]] + Keep(chain[1..], dead), null)
    ensures deleted == Drop(chain[1..], dead) && lost == Weight(s, |deleted|)
    ensures forall e :: e in deleted ==> e.nextEntry == null
  {
    assert chain[j..] == [];
    assert chain[1..j] == chain[1..];
    LinksJoin(first, kept, child, [child], null);
  }

  // ------------------------------------------------- frames for the methods above

  lemma SoundIsSoundBut(f: Forest<FileEntry>, root: FileEntry)
    requires Sound(f, root)
    ensures SoundBut(f, root, root, 0)
  {
  }

  lemma ResizeIsClimb(f: Forest<FileEntry>, root: FileEntry, e: FileEntry, size: int)
    requires Rooted(f, root) && e in f
    ensures Rooted(f[e := f[e].(size := size)], root)
    ensures Resize(f, root, e, size) == Climb(f[e := f[e].(size := size)], root, e, size - f[e].size)
  {
    hide Climb, Rooted;
    ResizeRooted(f, root, e, size);
  }

  lemma ProperBins(S: set<FileEntry>, p: FileEntry)
    requires p in S && Housed(Snap(S))
    ensures Proper(p.bins)
  {
    assert Binned(Snap(S), p);
  }

  lemma MoreChained(bs: seq<Bin<FileEntry>>, bs': seq<Bin<FileEntry>>, x: FileEntry)
    requires Bag(bs') == Bag(bs) + multiset{x}
    ensures Chained(bs') == Chained(bs) + {x}
  {
    ChainedFlat(bs);
    ChainedFlat(bs');
    assert forall e: FileEntry :: e in Flat(bs) <==> e in Bag(bs);
    assert forall e: FileEntry :: e in Flat(bs') <==> e in Bag(bs');
  }

  lemma InsertChained(bs: seq<Bin<FileEntry>>, s: int, x: FileEntry)
    requires Proper(bs)
    ensures Chained(Insert(bs, s, x)) == Chained(bs) + {x}
  {
    hide *;
    InsertBag(bs, s, x);
    MoreChained(bs, Insert(bs, s, x), x);
  }

  lemma CanAttach(S: set<FileEntry>, root: FileEntry, p: FileEntry, child: FileEntry)
    requires p in S && child !in S && Sound(Snap(S), root) && child.bins == []
    ensures Attachable(Snap(S), root, p, child, child.AsNode())
    ensures child.AsNode().size == child.size && child.AsNode().bins == child.bins
  {
  }

  /** `child` refiled in the bins of `p`, and `p` larger by `d`. */
  lemma SnapMoved(S: set<FileEntry>, f: Forest<FileEntry>, p: FileEntry, child: FileEntry, d: int)
    requires f.Keys == S && p in S && child in S && p != child
    requires forall e :: e in S && e != p && e != child ==> Same(f, e)
    requires Like(f[p], p) && SameParent(f[p], p) && p.size == f[p].size + d && p.pathCrc == f[p].pathCrc
    requires Like(f[child], child) && child.size == f[child].size && child.bins == f[child].bins
    requires child.parent == p && child.pathCrc == Xor(f[p].pathCrc, child.nameCrc)
    ensures Snap(S) == Rebin(f, p, child, d, p.bins)
  {
    hide Xor;
    var g := Rebin(f, p, child, d, p.bins);
    forall e | e in S
      ensures e in g && g[e] == e.AsNode()
    {
      if e != p && e != child {
        assert Same(f, e);
      }
    }
  }

  lemma SnapResized(S: set<FileEntry>, f: Forest<FileEntry>, x: FileEntry)
    requires f.Keys == S && x in S
    requires forall e :: e in S && e != x ==> Same(f, e)
    requires Like(f[x], x) && SameParent(f[x], x) && x.pathCrc == f[x].pathCrc && x.bins == f[x].bins
    ensures Snap(S) == f[x := f[x].(size := x.size)]
  {
    forall e | e in S && e != x
      ensures f[e] == e.AsNode()
    {
      assert Same(f, e);
    }
  }

  /** The fields of an entry, one by one. */
  lemma NodeHas(e: FileEntry)
    ensures e.AsNode().size == e.size && e.AsNode().bins == e.bins && e.AsNode().marked == e.pendingDelete
    ensures e.AsNode().name == e.name && e.AsNode().dir == e.isDir && e.AsNode().nameCrc == e.nameCrc
  {
  }

  lemma ChildlessLinked(e: FileEntry)
    requires e.children == [] && e.bins == []
    ensures e.Linked() && Chained(e.bins) == {}
  {
  }

  lemma SnapAttached(S: set<FileEntry>, f: Forest<FileEntry>, p: FileEntry, child: FileEntry, n: Node<FileEntry>)
    requires f.Keys == S && p in S && child !in S
    requires forall e :: e in S && e != p ==> Same(f, e)
    requires Like(f[p], p) && SameParent(f[p], p) && p.size == f[p].size + n.size && p.pathCrc == f[p].pathCrc
    requires n.name == child.name && n.dir == child.isDir && n.nameCrc == child.nameCrc &&
             n.marked == child.pendingDelete
    requires child.size == n.size && child.bins == n.bins
    requires child.parent == p && child.pathCrc == Xor(f[p].pathCrc, child.nameCrc) && child.depth == f[p].depth + 1
    ensures Snap(S + {child}) == Attach(f, p, child, n, p.bins)
  {
    hide Xor;
    var g := Attach(f, p, child, n, p.bins);
    forall e | e in S + {child}
      ensures e in g && g[e] == e.AsNode()
    {
      if e in S && e != p {
        assert Same(f, e);
      }
    }
  }

  /** A bin's first entry, and the rest of the chain. */
  lemma HeadOf(first: FileEntry?, chain: seq<FileEntry>)
    requires Links(first, chain, null) && first != null && Distinct(chain)
    ensures chain != [] && first == chain[0] && first !in chain[1..]
    ensures Links(first.nextEntry, chain[1..], null)
  {
    DistinctNext(chain, 0);
  }

  lemma EndOf(first: FileEntry?, chain: seq<FileEntry>)
    requires Links(first, chain, null)
    ensures first == null <==> chain == []
  {
  }

  lemma RemoveIsPut(bs: seq<Bin<FileEntry>>, s: int)
    requires HasBin(bs, s) && Proper(bs)
    ensures Held(bs, s) != []
    ensures Remove(bs, s, Held(bs, s)[0]) == Put(bs, s, Held(bs, s)[1..])
  {
    UnlinkAt(Held(bs, s), 0);
  }
}
