/** What a view shows of a tree of entries. */
module Pictures {
  import opened SizeBins
  import opened Forest
  import opened Sums

  const MAX_CHILD_COUNT := 100

  datatype Kind = Directory | File | AvailableSpace | UnknownSpace

  /** Views of space that is not in files are reused as they are, and may have an area left from before. */
  predicate IsSpace(kind: Kind) {
    kind.AvailableSpace? || kind.UnknownSpace?
  }

  /** A view without its place on the screen; `cleared` says that it has none yet, unless it is space. */
  datatype Picture = Picture(name: string, kind: Kind, size: int, kids: seq<Picture>, cleared: bool)

  datatype ViewOptions = ViewOptions(nestLevel: int, minSize: int, unknownSpace: int, freeSpace: int)

  /** The options for the children of a view: one level less, and no space that is not in files. */
  function Deeper(o: ViewOptions): ViewOptions {
    o.(nestLevel := o.nestLevel - 1, unknownSpace := 0, freeSpace := 0)
  }

  ghost predicate AllIn<E>(f: Forest<E>, list: seq<E>) {
    forall c :: c in list ==> c in f
  }

  lemma KidsIn<E>(f: Forest<E>, e: E)
    requires Housed(f) && e in f
    ensures AllIn(f, Flat(f[e].bins))
  {
    assert Binned(f, e);
    KidsFlat(f, e);
  }

  ghost function LevelOf(o: ViewOptions): nat {
    if o.nestLevel < 0 then 0 else o.nestLevel
  }

  /** The picture of an entry, built from scratch. */
  ghost function Built<E>(f: Forest<E>, e: E, o: ViewOptions): Picture
    requires Housed(f) && e in f
    decreases LevelOf(o), 1, 0
  {
    KidsIn(f, e);
    Picture(f[e].name, if f[e].dir then Directory else File, f[e].size,
            if o.nestLevel > 0 then Filled(f, Flat(f[e].bins), o, 0, o.unknownSpace, o.freeSpace) else [], true)
  }

  /** Space that is shown because it is larger than the next child. */
  ghost function Space(kind: Kind, space: int, size: int): seq<Picture> {
    if space > size then [Picture("", kind, space, [], true)] else []
  }

  function SpaceLeft(space: int, size: int): int {
    if space > size then 0 else space
  }

  /** The pictures of the children in `list` after `count` others, with unknown and free space where they fit in. */
  ghost function Filled<E>(f: Forest<E>, list: seq<E>, o: ViewOptions, count: nat, unknown: int,
                           free: int): seq<Picture>
    requires Housed(f) && AllIn(f, list) && o.nestLevel > 0
    decreases LevelOf(o), 0, |list|
  {
    if list == [] || count >= MAX_CHILD_COUNT || f[list[0]].size < o.minSize then []
    else
      var size := f[list[0]].size;
      var space := Space(UnknownSpace, unknown, size) + Space(AvailableSpace, free, size);
      space + [Built(f, list[0], Deeper(o))]
      + Filled(f, list[1..], o, count + |space| + 1, SpaceLeft(unknown, size), SpaceLeft(free, size))
  }

  // -------------------------------------------------------------- order of sizes

  ghost predicate Falling<E>(f: Forest<E>, list: seq<E>)
    requires AllIn(f, list)
  {
    forall i, j :: 0 <= i < j < |list| ==> f[list[i]].size >= f[list[j]].size
  }

  lemma FallingConcat<E>(f: Forest<E>, a: seq<E>, b: seq<E>, cut: int)
    requires AllIn(f, a) && AllIn(f, b)
    requires forall e :: e in a ==> f[e].size == cut
    requires forall e :: e in b ==> f[e].size <= cut
    requires Falling(f, b)
    ensures AllIn(f, a + b) && Falling(f, a + b)
  {
    forall i, j | 0 <= i < j < |a + b|
      ensures f[(a + b)[i]].size >= f[(a + b)[j]].size
    {
      assert j < |a| ==> (a + b)[j] == a[j];
      assert i < |a| ==> (a + b)[i] == a[i];
    }
  }

  /** Traversal visits the children in order of decreasing size. */
  lemma {:induction false} FlatFalls<E>(f: Forest<E>, bs: seq<Bin<E>>)
    requires Proper(bs)
    requires forall b, e :: b in bs && e in b.chain ==> e in f && f[e].size == b.size
    ensures AllIn(f, Flat(bs)) && Falling(f, Flat(bs))
  {
    hide Proper, Falling;
    if bs == [] {
      NothingFalls(f);
    } else {
      var first, rest := bs[0].chain, bs[1..];
      assert bs[0] in bs;
      ProperTail(bs);
      FlatFalls(f, rest);
      forall e | e in Flat(rest)
        ensures f[e].size <= bs[0].size
      {
        FlatHas(rest, e);
        var i :| 0 <= i < |rest| && e in rest[i].chain;
        assert rest[i] in rest;
      }
      FallingConcat(f, first, Flat(rest), bs[0].size);
    }
  }

  lemma NothingFalls<E>(f: Forest<E>)
    ensures AllIn(f, []) && Falling(f, [])
  {
  }

  lemma ProperTail<E>(bs: seq<Bin<E>>)
    requires Proper(bs) && bs != []
    ensures Proper(bs[1..])
    ensures forall b :: b in bs[1..] ==> b in bs && b.size < bs[0].size
  {
    forall b | b in bs[1..]
      ensures b in bs && b.size < bs[0].size
    {
      var i :| 0 <= i < |bs| - 1 && bs[1..][i] == b;
      assert bs[i + 1] == b;
    }
  }

  lemma KidsFall<E>(f: Forest<E>, root: E, e: E)
    requires Sound(f, root) && e in f
    ensures AllIn(f, Flat(f[e].bins)) && Falling(f, Flat(f[e].bins))
  {
    KidsIn(f, e);
    var bins := f[e].bins;
    assert Binned(f, e) && Placed(f, root, root);
    forall b, c | b in bins && c in b.chain
      ensures c in f && f[c].size == b.size
    {
      assert FiledAt(bins, b.size, c);
      Kin(f, e, b.size, c);
    }
    FlatFalls(f, bins);
  }

  ghost predicate NonIncreasing(kids: seq<Picture>) {
    forall i :: 0 <= i < |kids| - 1 ==> kids[i].size >= kids[i + 1].size
  }

  /**
   Free space is more than unknown space, and the first child that is smaller than the free space
   is smaller than the unknown space, too, and is one of those shown.
   */
  ghost predicate Clash<E>(f: Forest<E>, list: seq<E>, o: ViewOptions, count: nat, unknown: int, free: int)
    requires AllIn(f, list)
  {
    exists j :: ClashAt(f, list, o, count, unknown, free, j)
  }

  ghost predicate ClashAt<E>(f: Forest<E>, list: seq<E>, o: ViewOptions, count: nat, unknown: int, free: int, j: nat)
    requires AllIn(f, list)
  {
    && j < |list| && count + j < MAX_CHILD_COUNT
    && o.minSize <= f[list[j]].size < unknown < free
    && forall i :: 0 <= i < j ==> f[list[i]].size >= free
  }

  ghost predicate AllNonNegative<E>(f: Forest<E>, list: seq<E>)
    requires AllIn(f, list)
  {
    forall i :: 0 <= i < |list| ==> f[list[i]].size >= 0
  }

  /** The first picture is not larger than everything that can come first. */
  lemma HeadBound<E>(f: Forest<E>, list: seq<E>, o: ViewOptions, count: nat, unknown: int, free: int, most: int)
    requires Housed(f) && AllIn(f, list) && o.nestLevel > 0
    requires unknown <= most && free <= most && forall i :: 0 <= i < |list| ==> f[list[i]].size <= most
    ensures var kids := Filled(f, list, o, count, unknown, free);
            kids != [] ==> kids[0].size <= most
  {
  }

  /** Where only children follow, sizes fall; the rest is a question of where the spaces come in. */
  lemma {:induction false} FilledOrder<E>(f: Forest<E>, list: seq<E>, o: ViewOptions, count: nat, unknown: int,
                                          free: int)
    requires Housed(f) && AllIn(f, list) && o.nestLevel > 0 && Falling(f, list) && AllNonNegative(f, list)
    ensures NonIncreasing(Filled(f, list, o, count, unknown, free)) <==> !Clash(f, list, o, count, unknown, free)
    decreases |list|
  {
    hide *;
    InHas(f, list);
    if list == [] || count >= MAX_CHILD_COUNT || f[list[0]].size < o.minSize {
      NoneFilled(f, list, o, count, unknown, free);
    } else {
      var size, rest := f[list[0]].size, list[1..];
      var space := Space(UnknownSpace, unknown, size) + Space(AvailableSpace, free, size);
      var one := Built(f, list[0], Deeper(o));
      var unknown', free' := SpaceLeft(unknown, size), SpaceLeft(free, size);
      Tail(f, list);
      Spaces(unknown, free, size);
      FilledOrder(f, rest, o, count + |space| + 1, unknown', free');
      HeadBound(f, rest, o, count + |space| + 1, unknown', free', size);
      ClashNext(f, list, o, count, unknown, free);
      OneFilled(f, list, o, count, unknown, free);
      JoinedOrder(space, one, Filled(f, rest, o, count + |space| + 1, unknown', free'));
      if |space| == 2 {
        NoClashLeft(f, rest, o, count + |space| + 1, unknown', free');
      }
    }
  }

  lemma InHas<E>(f: Forest<E>, list: seq<E>)
    requires AllIn(f, list)
    ensures list != [] ==> list[0] in f
  {
  }

  lemma NoneFilled<E>(f: Forest<E>, list: seq<E>, o: ViewOptions, count: nat, unknown: int, free: int)
    requires Housed(f) && AllIn(f, list) && o.nestLevel > 0 && Falling(f, list)
    requires list == [] || count >= MAX_CHILD_COUNT || f[list[0]].size < o.minSize
    ensures NonIncreasing(Filled(f, list, o, count, unknown, free)) && !Clash(f, list, o, count, unknown, free)
  {
    if list != [] {
      FallingBelow(f, list);
    }
  }

  /** The rest of a list of falling sizes. */
  lemma Tail<E>(f: Forest<E>, list: seq<E>)
    requires AllIn(f, list) && Falling(f, list) && AllNonNegative(f, list) && list != []
    ensures list[0] in f && f[list[0]].size >= 0
    ensures AllIn(f, list[1..]) && Falling(f, list[1..]) && AllNonNegative(f, list[1..])
    ensures forall i :: 0 <= i < |list[1..]| ==> list[1..][i] in f && f[list[1..][i]].size <= f[list[0]].size
  {
    assert forall i :: 0 <= i < |list[1..]| ==> list[1..][i] == list[i + 1];
  }

  lemma Spaces(unknown: int, free: int, size: int)
    requires size >= 0
    ensures var space := Space(UnknownSpace, unknown, size) + Space(AvailableSpace, free, size);
            && |space| <= 2 && (|space| == 2 <==> unknown > size && free > size)
            && (forall i :: 0 <= i < |space| ==> space[i].size > size)
            && (|space| == 2 ==> space[0].size == unknown && space[1].size == free)
    ensures SpaceLeft(unknown, size) <= size && SpaceLeft(free, size) <= size
    ensures unknown > size ==> SpaceLeft(unknown, size) == 0
  {
  }

  lemma OneFilled<E>(f: Forest<E>, list: seq<E>, o: ViewOptions, count: nat, unknown: int, free: int)
    requires Housed(f) && AllIn(f, list) && o.nestLevel > 0
    requires list != [] && count < MAX_CHILD_COUNT && f[list[0]].size >= o.minSize
    ensures AllIn(f, list[1..]) && list[0] in f
    ensures var size := f[list[0]].size;
            var space := Space(UnknownSpace, unknown, size) + Space(AvailableSpace, free, size);
            Filled(f, list, o, count, unknown, free) ==
            space + [Built(f, list[0], Deeper(o))]
            + Filled(f, list[1..], o, count + |space| + 1, SpaceLeft(unknown, size), SpaceLeft(free, size))
    ensures Built(f, list[0], Deeper(o)).size == f[list[0]].size
  {
  }

  /** Once both spaces are in, there is no clash any more. */
  lemma NoClashLeft<E>(f: Forest<E>, list: seq<E>, o: ViewOptions, count: nat, unknown: int, free: int)
    requires AllIn(f, list) && AllNonNegative(f, list) && unknown <= 0
    ensures !Clash(f, list, o, count, unknown, free)
  {
  }

  lemma FallingBelow<E>(f: Forest<E>, list: seq<E>)
    requires AllIn(f, list) && Falling(f, list) && list != []
    ensures forall i :: 0 <= i < |list| ==> f[list[i]].size <= f[list[0]].size
  {
  }

  lemma JoinedOrder(space: seq<Picture>, one: Picture, more: seq<Picture>)
    requires forall i :: 0 <= i < |space| ==> space[i].size > one.size
    requires |space| <= 2 && (more != [] ==> more[0].size <= one.size)
    ensures NonIncreasing(space + [one] + more) <==>
            NonIncreasing(more) && (|space| == 2 ==> space[0].size >= space[1].size)
  {
    var all := space + [one] + more;
    if NonIncreasing(all) {
      forall i | 0 <= i < |more| - 1
        ensures more[i].size >= more[i + 1].size
      {
        assert all[|space| + 1 + i] == more[i] && all[|space| + 2 + i] == more[i + 1];
      }
      assert |space| == 2 ==> all[0] == space[0] && all[1] == space[1];
    }
  }

  /** A clash is at the first child, or further on. */
  lemma ClashNext<E>(f: Forest<E>, list: seq<E>, o: ViewOptions, count: nat, unknown: int, free: int)
    requires AllIn(f, list) && list != [] && count < MAX_CHILD_COUNT && o.minSize <= f[list[0]].size
    requires AllNonNegative(f, list)
    ensures AllIn(f, list[1..])
    ensures var size := f[list[0]].size;
            Clash(f, list, o, count, unknown, free) <==>
              if unknown > size && free > size then unknown < free
              else Clash(f, list[1..], o, count + |Space(UnknownSpace, unknown, size) +
                  Space(AvailableSpace, free, size)| + 1,
                         SpaceLeft(unknown, size), SpaceLeft(free, size))
  {
    var size, rest := f[list[0]].size, list[1..];
    var c := count + |Space(UnknownSpace, unknown, size) + Space(AvailableSpace, free, size)| + 1;
    var u, r := SpaceLeft(unknown, size), SpaceLeft(free, size);
    assert forall i :: 0 <= i < |rest| ==> rest[i] == list[i + 1];
    if Clash(f, list, o, count, unknown, free) {
      var j: nat :| ClashAt(f, list, o, count, unknown, free, j);
      if j > 0 {
        assert f[list[0]].size >= free && Space(UnknownSpace, unknown, size) + Space(AvailableSpace, free, size) == [];
        assert ClashAt(f, rest, o, c, u, r, j - 1);
      }
    }
    if unknown > size && free > size {
      if unknown < free {
        assert ClashAt(f, list, o, count, unknown, free, 0);
      }
    } else if Clash(f, rest, o, c, u, r) {
      var j: nat :| ClashAt(f, rest, o, c, u, r, j);
      assert f[rest[j]].size >= 0 && u == unknown && r == free;
      assert Space(UnknownSpace, unknown, size) + Space(AvailableSpace, free, size) == [];
      assert ClashAt(f, list, o, count, unknown, free, j + 1);
    }
  }

  /** Sizes in a view fall, exactly unless free space follows a smaller unknown space. */
  lemma SizesFall<E>(f: Forest<E>, root: E, e: E, o: ViewOptions)
    requires Sound(f, root) && e in f && o.nestLevel > 0
    requires forall c :: c in f ==> f[c].size >= 0
    ensures AllIn(f, Flat(f[e].bins))
    ensures NonIncreasing(Built(f, e, o).kids) <==>
            !Clash(f, Flat(f[e].bins), o, 0, o.unknownSpace, o.freeSpace)
  {
    KidsFall(f, root, e);
    FilledOrder(f, Flat(f[e].bins), o, 0, o.unknownSpace, o.freeSpace);
  }

  /** Nothing of any size comes after something of no size. */
  ghost predicate EmptyLast(kids: seq<Picture>) {
    forall i, j :: 0 <= i < j < |kids| && kids[i].size == 0 ==> kids[j].size == 0
  }

  ghost predicate NoneNegative(kids: seq<Picture>) {
    forall i :: 0 <= i < |kids| ==> kids[i].size >= 0
  }

  /** After a child of no size there is nothing but more of them. */
  lemma {:induction false} EmptyFilled<E>(f: Forest<E>, list: seq<E>, o: ViewOptions, count: nat, unknown: int,
                                          free: int)
    requires Housed(f) && AllIn(f, list) && o.nestLevel > 0 && unknown <= 0 && free <= 0
    requires forall i :: 0 <= i < |list| ==> f[list[i]].size == 0
    ensures forall p :: p in Filled(f, list, o, count, unknown, free) ==> p.size == 0
    decreases |list|
  {
    if !(list == [] || count >= MAX_CHILD_COUNT || f[list[0]].size < o.minSize) {
      assert forall i :: 0 <= i < |list[1..]| ==> list[1..][i] == list[i + 1];
      EmptyFilled(f, list[1..], o, count + 1, unknown, free);
      OneFilled(f, list, o, count, unknown, free);
    }
  }

  lemma {:induction false} FilledEmptyLast<E>(f: Forest<E>, list: seq<E>, o: ViewOptions, count: nat, unknown: int,
                                              free: int)
    requires Housed(f) && AllIn(f, list) && o.nestLevel > 0 && Falling(f, list) && AllNonNegative(f, list)
    ensures EmptyLast(Filled(f, list, o, count, unknown, free)) &&
            NoneNegative(Filled(f, list, o, count, unknown, free))
    decreases |list|
  {
    if !(list == [] || count >= MAX_CHILD_COUNT || f[list[0]].size < o.minSize) {
      var size, rest := f[list[0]].size, list[1..];
      var space := Space(UnknownSpace, unknown, size) + Space(AvailableSpace, free, size);
      var one := Built(f, list[0], Deeper(o));
      var unknown', free' := SpaceLeft(unknown, size), SpaceLeft(free, size);
      OneFilled(f, list, o, count, unknown, free);
      Tail(f, list);
      Spaces(unknown, free, size);
      hide Filled, Built, Falling;
      FilledEmptyLast(f, rest, o, count + |space| + 1, unknown', free');
      if size == 0 {
        EmptyFilled(f, rest, o, count + |space| + 1, unknown', free');
      }
      JoinedEmpty(space, one, Filled(f, rest, o, count + |space| + 1, unknown', free'));
    }
  }

  lemma JoinedEmpty(space: seq<Picture>, one: Picture, more: seq<Picture>)
    requires forall i :: 0 <= i < |space| ==> space[i].size > one.size
    requires one.size >= 0 && EmptyLast(more) && NoneNegative(more)
    requires one.size == 0 ==> forall p :: p in more ==> p.size == 0
    ensures EmptyLast(space + [one] + more) && NoneNegative(space + [one] + more)
  {
  }

  /** In every view, what has no size comes last, and no size is negative. */
  lemma SizesEndInZeros<E>(f: Forest<E>, root: E, e: E, o: ViewOptions)
    requires Sound(f, root) && e in f && forall c :: c in f ==> f[c].size >= 0
    ensures EmptyLast(Built(f, e, o).kids) && NoneNegative(Built(f, e, o).kids)
  {
    KidsFall(f, root, e);
    if o.nestLevel > 0 {
      FilledEmptyLast(f, Flat(f[e].bins), o, 0, o.unknownSpace, o.freeSpace);
    }
  }

  // -------------------------------------------------------- what a view is made up of

  /** No picture is larger than one that comes two or more places before it. */
  ghost predicate AlmostFalling(kids: seq<Picture>) {
    forall i, j :: 0 <= i && i + 2 <= j < |kids| ==> kids[i].size >= kids[j].size
  }

  ghost predicate AtMost(kids: seq<Picture>, most: int) {
    forall i :: 0 <= i < |kids| ==> kids[i].size <= most
  }

  lemma JoinedAlmost(space: seq<Picture>, one: Picture, more: seq<Picture>)
    requires |space| <= 2 && forall i :: 0 <= i < |space| ==> space[i].size > one.size
    requires AlmostFalling(more) && AtMost(more, one.size)
    ensures AlmostFalling(space + [one] + more)
  {
  }

  lemma JoinedMost(space: seq<Picture>, one: Picture, more: seq<Picture>, most: int)
    requires AtMost(space, most) && one.size <= most && AtMost(more, most)
    ensures AtMost(space + [one] + more, most)
  {
  }

  lemma NoneAlmost<E>(f: Forest<E>, list: seq<E>, o: ViewOptions, count: nat, unknown: int, free: int, most: int)
    requires Housed(f) && AllIn(f, list) && o.nestLevel > 0
    requires list == [] || count >= MAX_CHILD_COUNT || f[list[0]].size < o.minSize
    ensures AlmostFalling(Filled(f, list, o, count, unknown, free))
    ensures AtMost(Filled(f, list, o, count, unknown, free), most)
  {
  }

  lemma SpacesMost(unknown: int, free: int, size: int, most: int)
    requires unknown <= most && free <= most
    ensures AtMost(Space(UnknownSpace, unknown, size) + Space(AvailableSpace, free, size), most)
  {
  }

  /** Sizes fall but for the order of the two spaces. */
  lemma {:induction false} FilledAlmost<E>(f: Forest<E>, list: seq<E>, o: ViewOptions, count: nat, unknown: int,
                                           free: int, most: int)
    requires Housed(f) && AllIn(f, list) && o.nestLevel > 0 && Falling(f, list) && AllNonNegative(f, list)
    requires unknown <= most && free <= most && forall i :: 0 <= i < |list| ==> f[list[i]].size <= most
    ensures AlmostFalling(Filled(f, list, o, count, unknown, free)) &&
            AtMost(Filled(f, list, o, count, unknown, free), most)
    decreases |list|
  {
    hide *;
    InHas(f, list);
    if list == [] || count >= MAX_CHILD_COUNT || f[list[0]].size < o.minSize {
      NoneAlmost(f, list, o, count, unknown, free, most);
    } else {
      var size, rest := f[list[0]].size, list[1..];
      var space := Space(UnknownSpace, unknown, size) + Space(AvailableSpace, free, size);
      var one := Built(f, list[0], Deeper(o));
      var unknown', free' := SpaceLeft(unknown, size), SpaceLeft(free, size);
      OneFilled(f, list, o, count, unknown, free);
      Tail(f, list);
      Spaces(unknown, free, size);
      SpacesMost(unknown, free, size, most);
      FilledAlmost(f, rest, o, count + |space| + 1, unknown', free', size);
      var more := Filled(f, rest, o, count + |space| + 1, unknown', free');
      Wider(more, size, most);
      JoinedAlmost(space, one, more);
      JoinedMost(space, one, more, most);
    }
  }

  lemma Wider(kids: seq<Picture>, size: int, most: int)
    requires AtMost(kids, size) && size <= most
    ensures AtMost(kids, most)
  {
  }

  /** Nothing in this picture is space outside of files; all is cleared, and no size is negative. */
  ghost predicate OnlyFiles(p: Picture) {
    !IsSpace(p.kind) && p.cleared && p.size >= 0 && forall k :: k in p.kids ==> OnlyFiles(k)
  }

  /** A child of a view is a picture of files, or space of some size with nothing in it. */
  ghost predicate ChildOk(p: Picture) {
    OnlyFiles(p) || (p.size > 0 && p.kids == [])
  }

  ghost predicate AllSizes<E>(f: Forest<E>) {
    forall c :: c in f ==> f[c].size >= 0
  }

  lemma NoSpace(unknown: int, free: int, size: int)
    requires size >= 0
    ensures unknown <= 0 ==> Space(UnknownSpace, unknown, size) == [] && SpaceLeft(unknown, size) == unknown
    ensures free <= 0 ==> Space(AvailableSpace, free, size) == [] && SpaceLeft(free, size) == free
    ensures forall p :: p in Space(UnknownSpace, unknown, size) + Space(AvailableSpace, free, size) ==> ChildOk(p)
    ensures SpaceLeft(unknown, size) <= 0 || SpaceLeft(unknown, size) == unknown
  {
  }

  /** Below a view without spaces of its own there are only files. */
  lemma {:induction false} BuiltFiles<E>(f: Forest<E>, e: E, o: ViewOptions)
    requires Housed(f) && e in f && AllSizes(f) && o.unknownSpace <= 0 && o.freeSpace <= 0
    ensures OnlyFiles(Built(f, e, o))
    decreases LevelOf(o), 1, 0
  {
    KidsIn(f, e);
    if o.nestLevel > 0 {
      FilledFiles(f, Flat(f[e].bins), o, 0, o.unknownSpace, o.freeSpace);
    }
  }

  lemma {:induction false} FilledFiles<E>(f: Forest<E>, list: seq<E>, o: ViewOptions, count: nat, unknown: int,
                                          free: int)
    requires Housed(f) && AllIn(f, list) && o.nestLevel > 0 && AllSizes(f)
    ensures forall p :: p in Filled(f, list, o, count, unknown, free) ==> ChildOk(p)
    ensures unknown <= 0 && free <= 0 ==> forall p :: p in Filled(f, list, o, count, unknown, free) ==> OnlyFiles(p)
    decreases LevelOf(o), 0, |list|
  {
    if !(list == [] || count >= MAX_CHILD_COUNT || f[list[0]].size < o.minSize) {
      var size, rest := f[list[0]].size, list[1..];
      assert list[0] in list;
      OneFilled(f, list, o, count, unknown, free);
      NoSpace(unknown, free, size);
      BuiltFiles(f, list[0], Deeper(o));
      var space := Space(UnknownSpace, unknown, size) + Space(AvailableSpace, free, size);
      hide Filled, Built, OnlyFiles, ChildOk, Space, SpaceLeft;
      FilledFiles(f, rest, o, count + |space| + 1, SpaceLeft(unknown, size), SpaceLeft(free, size));
      FilesAreOk();
    }
  }

  /** Every picture in a list is as if made anew. */
  ghost predicate AllCleared(kids: seq<Picture>) {
    forall p :: p in kids ==> p.cleared && AllCleared(p.kids)
  }

  lemma {:induction false} BuiltCleared<E>(f: Forest<E>, e: E, o: ViewOptions)
    requires Housed(f) && e in f
    ensures Built(f, e, o).cleared && AllCleared(Built(f, e, o).kids)
    decreases LevelOf(o), 1, 0
  {
    KidsIn(f, e);
    if o.nestLevel > 0 {
      FilledCleared(f, Flat(f[e].bins), o, 0, o.unknownSpace, o.freeSpace);
    }
  }

  lemma {:induction false} FilledCleared<E>(f: Forest<E>, list: seq<E>, o: ViewOptions, count: nat, unknown: int,
                                            free: int)
    requires Housed(f) && AllIn(f, list) && o.nestLevel > 0
    ensures AllCleared(Filled(f, list, o, count, unknown, free))
    decreases LevelOf(o), 0, |list|
  {
    if !(list == [] || count >= MAX_CHILD_COUNT || f[list[0]].size < o.minSize) {
      var size, rest := f[list[0]].size, list[1..];
      assert list[0] in list;
      var space := Space(UnknownSpace, unknown, size) + Space(AvailableSpace, free, size);
      OneFilled(f, list, o, count, unknown, free);
      BuiltCleared(f, list[0], Deeper(o));
      FilledCleared(f, rest, o, count + |space| + 1, SpaceLeft(unknown, size), SpaceLeft(free, size));
      SpacesCleared(unknown, free, size);
      hide *;
      JoinedCleared(space, Built(f, list[0], Deeper(o)),
                    Filled(f, rest, o, count + |space| + 1, SpaceLeft(unknown, size), SpaceLeft(free, size)));
    } else {
      assert AllCleared([]);
    }
  }

  lemma SpacesCleared(unknown: int, free: int, size: int)
    ensures AllCleared(Space(UnknownSpace, unknown, size) + Space(AvailableSpace, free, size))
  {
    assert AllCleared([]);
  }

  lemma JoinedCleared(space: seq<Picture>, one: Picture, more: seq<Picture>)
    requires AllCleared(space) && AllCleared(more) && one.cleared && AllCleared(one.kids)
    ensures AllCleared(space + [one] + more)
  {
  }

  lemma FilesAreOk()
    ensures forall p :: OnlyFiles(p) ==> ChildOk(p)
  {
  }

  /** In every view, sizes fall but for the order of the spaces, and what has no size comes last. */
  lemma KidsOrdered<E>(f: Forest<E>, root: E, e: E, o: ViewOptions)
    requires Sound(f, root) && e in f && AllSizes(f)
    ensures AlmostFalling(Built(f, e, o).kids)
    ensures EmptyLast(Built(f, e, o).kids) && NoneNegative(Built(f, e, o).kids)
    ensures forall p :: p in Built(f, e, o).kids ==> ChildOk(p)
  {
    KidsFall(f, root, e);
    SizesEndInZeros(f, root, e, o);
    if o.nestLevel > 0 {
      var list := Flat(f[e].bins);
      var most := Most(f, list, Larger(o.unknownSpace, o.freeSpace));
      FilledAlmost(f, list, o, 0, o.unknownSpace, o.freeSpace, most);
      FilledFiles(f, list, o, 0, o.unknownSpace, o.freeSpace);
    }
  }

  function Larger(a: int, b: int): (m: nat)
    ensures m >= a && m >= b
  {
    if a < 0 && b < 0 then 0 else if a < b then b else a
  }

  /** A bound on the sizes of a list. */
  ghost function Most<E>(f: Forest<E>, list: seq<E>, least: nat): (m: nat)
    requires AllIn(f, list)
    ensures m >= least && forall i :: 0 <= i < |list| ==> f[list[i]].size <= m
  {
    if list == [] then least
    else
      var m := Most(f, list[1..], least);
      assert forall i :: 0 < i < |list| ==> list[i] == list[1..][i - 1];
      Larger(f[list[0]].size, m)
  }

  /** A view never has more than two children over the limit: those for unknown and free space. */
  lemma {:induction false} FilledCount<E>(f: Forest<E>, list: seq<E>, o: ViewOptions, count: nat, unknown: int,
                                          free: int)
    requires Housed(f) && AllIn(f, list) && o.nestLevel > 0 && AllNonNegative(f, list) && count <= MAX_CHILD_COUNT
    ensures count + |Filled(f, list, o, count, unknown, free)| <=
            MAX_CHILD_COUNT + (if unknown > 0 then 1 else 0) + if free > 0 then 1 else 0
    decreases |list|
  {
    if !(list == [] || count >= MAX_CHILD_COUNT || f[list[0]].size < o.minSize) {
      var size := f[list[0]].size;
      var space := Space(UnknownSpace, unknown, size) + Space(AvailableSpace, free, size);
      assert forall i :: 0 <= i < |list[1..]| ==> list[1..][i] == list[i + 1];
      if count + |space| + 1 <= MAX_CHILD_COUNT {
        FilledCount(f, list[1..], o, count + |space| + 1, SpaceLeft(unknown, size), SpaceLeft(free, size));
      }
    }
  }
}
