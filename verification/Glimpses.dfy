/** Which entries a view shows, at any depth. */
module Glimpses {
  import opened Options
  import opened SizeBins
  import opened Forest
  import opened Trees
  import opened Pictures

  // ------------------------------------------------------------------- one level

  /** Whether space that is not in files comes in before the child at `j`. */
  ghost function SpaceBefore<E>(f: Forest<E>, list: seq<E>, j: nat, space: int): nat
    requires AllIn(f, list) && j < |list|
  {
    if j > 0 && space > f[list[j - 1]].size then 1 else 0
  }

  /** The child at `j` is large enough, and less than a hundred views come before it. */
  ghost predicate Fits<E>(f: Forest<E>, list: seq<E>, j: nat, count: nat, minSize: int, unknown: int, free: int)
    requires AllIn(f, list) && j < |list|
  {
    && f[list[j]].size >= minSize
    && count + j + SpaceBefore(f, list, j, unknown) + SpaceBefore(f, list, j, free) < 100
  }

  lemma FitsNext<E>(f: Forest<E>, list: seq<E>, j: nat, count: nat, minSize: int, unknown: int, free: int)
    requires AllIn(f, list) && Falling(f, list) && AllNonNegative(f, list) && 0 < j < |list|
    ensures AllIn(f, list[1..])
    ensures var size := f[list[0]].size;
            var space := Space(UnknownSpace, unknown, size) + Space(AvailableSpace, free, size);
            Fits(f, list, j, count, minSize, unknown, free) <==>
            Fits(f, list[1..], j - 1, count + |space| + 1, minSize, SpaceLeft(unknown, size), SpaceLeft(free, size))
  {
    var size, rest := f[list[0]].size, list[1..];
    assert rest[j - 1] == list[j] && f[list[j - 1]].size <= size && f[list[j - 1]].size >= 0;
    assert j > 1 ==> rest[j - 2] == list[j - 1];
  }

  lemma FitsFirst<E>(f: Forest<E>, list: seq<E>, count: nat, minSize: int, unknown: int, free: int)
    requires AllIn(f, list) && list != []
    ensures Fits(f, list, 0, count, minSize, unknown, free) <==> f[list[0]].size >= minSize && count < 100
  {
  }

  lemma NoneFits<E>(f: Forest<E>, list: seq<E>, count: nat, minSize: int, unknown: int, free: int)
    requires AllIn(f, list) && Falling(f, list) && list != []
    requires count >= 100 || f[list[0]].size < minSize
    ensures forall j :: 0 <= j < |list| ==> !Fits(f, list, j, count, minSize, unknown, free)
  {
    FallingBelow(f, list);
  }

  /** Exactly the children that fit are shown, each with what is below it, and besides them only space. */
  lemma {:induction false} FilledExactly<E>(f: Forest<E>, list: seq<E>, o: ViewOptions, count: nat, unknown: int,
                                            free: int)
    requires Housed(f) && AllIn(f, list) && o.nestLevel > 0 && Falling(f, list) && AllNonNegative(f, list)
    ensures forall j :: 0 <= j < |list| && Fits(f, list, j, count, o.minSize, unknown, free) ==>
              Built(f, list[j], Deeper(o)) in Filled(f, list, o, count, unknown, free)
    ensures forall p :: p in Filled(f, list, o, count, unknown, free) ==>
              IsSpace(p.kind) || exists j :: 0 <= j < |list| && Fits(f, list, j, count, o.minSize, unknown, free) &&
                                             p == Built(f, list[j], Deeper(o))
    decreases |list|
  {
    hide *;
    var kids := Filled(f, list, o, count, unknown, free);
    InHas(f, list);
    if list == [] || count >= 100 || f[list[0]].size < o.minSize {
      NothingFilled(f, list, o, count, unknown, free);
    } else {
      Limit();
      var size, rest := f[list[0]].size, list[1..];
      var space := Space(UnknownSpace, unknown, size) + Space(AvailableSpace, free, size);
      var unknown', free', count' := SpaceLeft(unknown, size), SpaceLeft(free, size), count + |space| + 1;
      OneFilled(f, list, o, count, unknown, free);
      Tail(f, list);
      var more := Filled(f, rest, o, count', unknown', free');
      SpacesAre(unknown, free, size);
      FitsFirst(f, list, count, o.minSize, unknown, free);
      FilledExactly(f, rest, o, count', unknown', free');
      assert kids == space + [Built(f, list[0], Deeper(o))] + more;
      forall j | 0 <= j < |list| && Fits(f, list, j, count, o.minSize, unknown, free)
        ensures Built(f, list[j], Deeper(o)) in kids
      {
        if j > 0 {
          FitsNext(f, list, j, count, o.minSize, unknown, free);
          assert rest[j - 1] == list[j];
        }
      }
      forall p | p in kids && !IsSpace(p.kind)
        ensures exists j :: 0 <= j < |list| && Fits(f, list, j, count, o.minSize, unknown, free) &&
                            p == Built(f, list[j], Deeper(o))
      {
        if p in more {
          var j :| 0 <= j < |rest| && Fits(f, rest, j, count', o.minSize, unknown', free') &&
                   p == Built(f, rest[j], Deeper(o));
          FitsNext(f, list, j + 1, count, o.minSize, unknown, free);
          assert rest[j] == list[j + 1];
        } else {
          assert p == Built(f, list[0], Deeper(o));
        }
      }
    }
  }

  lemma NothingFilled<E>(f: Forest<E>, list: seq<E>, o: ViewOptions, count: nat, unknown: int, free: int)
    requires Housed(f) && AllIn(f, list) && o.nestLevel > 0 && Falling(f, list)
    requires list == [] || count >= 100 || f[list[0]].size < o.minSize
    ensures Filled(f, list, o, count, unknown, free) == []
    ensures forall j :: 0 <= j < |list| ==> !Fits(f, list, j, count, o.minSize, unknown, free)
  {
    if list != [] {
      NoneFits(f, list, count, o.minSize, unknown, free);
    }
  }

  lemma SpacesAre(unknown: int, free: int, size: int)
    ensures forall p :: p in Space(UnknownSpace, unknown, size) + Space(AvailableSpace, free, size) ==> IsSpace(p.kind)
  {
  }

  /** The child at `j` is shown, and is smaller than `space`. */
  ghost predicate SmallerFits<E>(f: Forest<E>, list: seq<E>, count: nat, minSize: int, unknown: int, free: int,
                                 space: int, j: nat)
    requires AllIn(f, list)
  {
    j < |list| && Fits(f, list, j, count, minSize, unknown, free) && f[list[j]].size < space
  }

  /** Unknown or free space is shown exactly if it is more than one of the children shown. */
  lemma {:induction false} FilledSpaces<E>(f: Forest<E>, list: seq<E>, o: ViewOptions, count: nat, unknown: int,
                                           free: int, kind: Kind)
    requires Housed(f) && AllIn(f, list) && o.nestLevel > 0 && Falling(f, list) && AllNonNegative(f, list)
    requires IsSpace(kind)
    ensures var space, kids := if kind.UnknownSpace? then unknown else free, Filled(f, list, o, count, unknown, free);
            && (forall p :: p in kids && p.kind == kind ==> p == Picture("", kind, space, [], true))
            && ((exists p :: p in kids && p.kind == kind) <==>
                exists j: nat :: SmallerFits(f, list, count, o.minSize, unknown, free, space, j))
    decreases |list|
  {
    hide *;
    var space, kids := if kind.UnknownSpace? then unknown else free, Filled(f, list, o, count, unknown, free);
    InHas(f, list);
    if list == [] || count >= 100 || f[list[0]].size < o.minSize {
      NoneOfSpace(f, list, o, count, unknown, free, space);
    } else {
      var size, rest := f[list[0]].size, list[1..];
      var spaces := Space(UnknownSpace, unknown, size) + Space(AvailableSpace, free, size);
      var unknown', free', count' := SpaceLeft(unknown, size), SpaceLeft(free, size), count + |spaces| + 1;
      var space' := if kind.UnknownSpace? then unknown' else free';
      Limit();
      OneFilled(f, list, o, count, unknown, free);
      Tail(f, list);
      FitsFirst(f, list, count, o.minSize, unknown, free);
      FilledSpaces(f, rest, o, count', unknown', free', kind);
      SpacesOf(unknown, free, size, kind);
      BuiltHas(f, list[0], Deeper(o));
      var more := Filled(f, rest, o, count', unknown', free');
      JoinedSpaces(spaces, Built(f, list[0], Deeper(o)), more, kind);
      if space > size {
        FirstSmaller(f, list, count, o.minSize, unknown, free, space);
        NoneLeftOver(f, rest, count', o.minSize, unknown', free');
      } else {
        forall j: nat | j > 0
          ensures SmallerFits(f, list, count, o.minSize, unknown, free, space, j) <==>
                  SmallerFits(f, rest, count', o.minSize, unknown', free', space', j - 1)
        {
          SmallerNext(f, list, count, o.minSize, unknown, free, space, j);
        }
        ShiftedFits(f, list, count, count', o.minSize, unknown, free, unknown', free', space);
      }
    }
  }

  lemma Limit()
    ensures MAX_CHILD_COUNT == 100
  {
  }

  lemma NoneOfSpace<E>(f: Forest<E>, list: seq<E>, o: ViewOptions, count: nat, unknown: int, free: int, space: int)
    requires Housed(f) && AllIn(f, list) && o.nestLevel > 0 && Falling(f, list)
    requires list == [] || count >= 100 || f[list[0]].size < o.minSize
    ensures Filled(f, list, o, count, unknown, free) == []
    ensures !exists j: nat :: SmallerFits(f, list, count, o.minSize, unknown, free, space, j)
  {
    if list != [] {
      NoneFits(f, list, count, o.minSize, unknown, free);
    }
  }

  lemma JoinedSpaces(spaces: seq<Picture>, one: Picture, more: seq<Picture>, kind: Kind)
    requires one.kind != kind
    ensures (exists p :: p in spaces + [one] + more && p.kind == kind) <==>
            (exists p :: p in spaces && p.kind == kind) || exists p :: p in more && p.kind == kind
    ensures forall p :: p in spaces + [one] + more && p.kind == kind ==> p in spaces || p in more
  {
    var all := spaces + [one] + more;
    assert forall p :: p in all <==> p in spaces || p == one || p in more;
    if p :| p in spaces && p.kind == kind {
      assert p in all;
    }
    if p :| p in more && p.kind == kind {
      assert p in all;
    }
  }

  lemma FirstSmaller<E>(f: Forest<E>, list: seq<E>, count: nat, minSize: int, unknown: int, free: int, space: int)
    requires list != [] && AllIn(f, list) && Fits(f, list, 0, count, minSize, unknown, free) && f[list[0]].size < space
    ensures exists j: nat :: SmallerFits(f, list, count, minSize, unknown, free, space, j)
  {
    assert SmallerFits(f, list, count, minSize, unknown, free, space, 0);
  }

  /** Once it is shown, space is not shown again. */
  lemma NoneLeftOver<E>(f: Forest<E>, list: seq<E>, count: nat, minSize: int, unknown: int, free: int)
    requires AllIn(f, list) && AllNonNegative(f, list)
    ensures !exists j: nat :: SmallerFits(f, list, count, minSize, unknown, free, 0, j)
  {
  }

  lemma SmallerNext<E>(f: Forest<E>, list: seq<E>, count: nat, minSize: int, unknown: int, free: int, space: int,
                       j: nat)
    requires AllIn(f, list) && Falling(f, list) && AllNonNegative(f, list) && list != [] && j > 0
    ensures AllIn(f, list[1..])
    ensures var size := f[list[0]].size;
            var spaces := Space(UnknownSpace, unknown, size) + Space(AvailableSpace, free, size);
            var unknown', free', count' := SpaceLeft(unknown, size), SpaceLeft(free, size), count + |spaces| + 1;
            SmallerFits(f, list, count, minSize, unknown, free, space, j) <==>
            SmallerFits(f, list[1..], count', minSize, unknown', free', space, j - 1)
  {
    Tail(f, list);
    hide Space, SpaceLeft, Falling, AllNonNegative, Fits;
    if j < |list| {
      FitsNext(f, list, j, count, minSize, unknown, free);
      assert list[1..][j - 1] == list[j];
    }
  }

  lemma ShiftedFits<E>(f: Forest<E>, list: seq<E>, count: nat, count': nat, minSize: int, unknown: int, free: int,
                       unknown': int, free': int, space: int)
    requires list != [] && AllIn(f, list) && AllIn(f, list[1..]) && f[list[0]].size >= space
    requires forall j: nat :: j > 0 ==>
               (SmallerFits(f, list, count, minSize, unknown, free, space, j) <==>
                SmallerFits(f, list[1..], count', minSize, unknown', free', space, j - 1))
    ensures (exists j: nat :: SmallerFits(f, list, count, minSize, unknown, free, space, j)) <==>
            exists j: nat :: SmallerFits(f, list[1..], count', minSize, unknown', free', space, j)
  {
    if j: nat :| SmallerFits(f, list, count, minSize, unknown, free, space, j) {
      assert SmallerFits(f, list[1..], count', minSize, unknown', free', space, j - 1);
    }
    if j: nat :| SmallerFits(f, list[1..], count', minSize, unknown', free', space, j) {
      assert SmallerFits(f, list, count, minSize, unknown, free, space, j + 1);
    }
  }

  lemma SpacesOf(unknown: int, free: int, size: int, kind: Kind)
    requires IsSpace(kind) && size >= 0
    ensures var space := if kind.UnknownSpace? then unknown else free;
            var spaces := Space(UnknownSpace, unknown, size) + Space(AvailableSpace, free, size);
            && (forall p :: p in spaces && p.kind == kind ==> p == Picture("", kind, space, [], true))
            && ((exists p :: p in spaces && p.kind == kind) <==> space > size)
            && (space <= size ==> SpaceLeft(space, size) == space) && (space > size ==> SpaceLeft(space, size) == 0)
  {
    var space := if kind.UnknownSpace? then unknown else free;
    var spaces := Space(UnknownSpace, unknown, size) + Space(AvailableSpace, free, size);
    if space > size {
      assert Picture("", kind, space, [], true) in spaces;
    }
  }

  /** In a view, space is shown exactly if it is more than one of the children shown. */
  lemma ViewSpaces<E>(f: Forest<E>, root: E, e: E, o: ViewOptions, kind: Kind)
    requires Sound(f, root) && AllSizes(f) && e in f && o.nestLevel > 0 && IsSpace(kind)
    ensures Housed(f) && AllIn(f, Flat(f[e].bins))
    ensures var space, kids := if kind.UnknownSpace? then o.unknownSpace else o.freeSpace, Built(f, e, o).kids;
            && (forall p :: p in kids && p.kind == kind ==> p == Picture("", kind, space, [], true))
            && ((exists p :: p in kids && p.kind == kind) <==>
                exists j: nat :: SmallerFits(f, Flat(f[e].bins), 0, o.minSize, o.unknownSpace, o.freeSpace, space, j))
  {
    hide *;
    FlatOrdered(f, root, e);
    BuiltHas(f, e, o);
    FilledSpaces(f, Flat(f[e].bins), o, 0, o.unknownSpace, o.freeSpace, kind);
  }

  // ------------------------------------------------------------------- any depth

  /** A way down the tree, from a child of `e` to a child of that child, and so on. */
  ghost predicate IsWay<E>(f: Forest<E>, e: E, way: seq<E>)
    decreases |way|
  {
    way == [] || (way[0] in f && f[way[0]].parent == Some(e) && IsWay(f, way[0], way[1..]))
  }

  ghost function WayNames<E>(f: Forest<E>, way: seq<E>): seq<string>
    requires forall c :: c in way ==> c in f
  {
    if way == [] then [] else [f[way[0]].name] + WayNames(f, way[1..])
  }

  ghost function WayEnd<E>(e: E, way: seq<E>): E {
    if way == [] then e else way[|way| - 1]
  }

  /** Child `c` fits in the view of `e`. */
  ghost predicate ChildFits<E>(f: Forest<E>, e: E, c: E, minSize: int, unknown: int, free: int)
    requires e in f && AllIn(f, Flat(f[e].bins))
  {
    exists j :: 0 <= j < |Flat(f[e].bins)| && Flat(f[e].bins)[j] == c &&
                Fits(f, Flat(f[e].bins), j, 0, minSize, unknown, free)
  }

  /** Every entry on the way fits in the view of the one above it, and the way is no longer than the view is deep. */
  ghost predicate WayFits<E>(f: Forest<E>, e: E, way: seq<E>, level: int, minSize: int, unknown: int, free: int)
    requires e in f && AllIn(f, Flat(f[e].bins))
    decreases |way|
  {
    way == [] ||
    (&& level > 0
     && ChildFits(f, e, way[0], minSize, unknown, free)
     && way[0] in f && AllIn(f, Flat(f[way[0]].bins))
     && WayFits(f, way[0], way[1..], level - 1, minSize, 0, 0))
  }

  /** A picture of this kind and size is found below `p` under a chain of names. */
  predicate ShownUnder(p: Picture, names: seq<string>, kind: Kind, size: int)
    decreases |names|
  {
    if names == [] then p.kind == kind && p.size == size
    else exists k :: k in p.kids && !IsSpace(k.kind) && k.name == names[0] && ShownUnder(k, names[1..], kind, size)
  }

  function KindOf(dir: bool): Kind {
    if dir then Directory else File
  }

  lemma {:induction false} WayInside<E>(f: Forest<E>, e: E, way: seq<E>)
    requires IsWay(f, e, way) && e in f
    ensures (forall c :: c in way ==> c in f) && WayEnd(e, way) in f
    decreases |way|
  {
    if way != [] {
      WayInside(f, way[0], way[1..]);
      assert way == [way[0]] + way[1..];
    }
  }

  lemma KidInFlat<E>(f: Forest<E>, e: E, c: E)
    requires Housed(f) && e in f
    ensures AllIn(f, Flat(f[e].bins))
    ensures c in f && f[c].parent == Some(e) <==> c in Flat(f[e].bins)
  {
    KidsIn(f, e);
    assert Binned(f, e);
    assert c in Flat(f[e].bins) <==> c in Bag(f[e].bins);
  }

  lemma BuiltHas<E>(f: Forest<E>, e: E, o: ViewOptions)
    requires Housed(f) && e in f
    ensures AllIn(f, Flat(f[e].bins))
    ensures Built(f, e, o).name == f[e].name && Built(f, e, o).kind == KindOf(f[e].dir) &&
      Built(f, e, o).size == f[e].size
    ensures !IsSpace(Built(f, e, o).kind)
    ensures Built(f, e, o).kids == if o.nestLevel > 0 then
                                     Filled(f, Flat(f[e].bins), o, 0, o.unknownSpace, o.freeSpace)
                                   else []
  {
    KidsIn(f, e);
  }

  lemma DeeperIs(o: ViewOptions)
    ensures Deeper(o) == ViewOptions(o.nestLevel - 1, o.minSize, 0, 0)
  {
  }

  lemma FlatOrdered<E>(f: Forest<E>, root: E, e: E)
    requires Sound(f, root) && AllSizes(f) && e in f
    ensures Housed(f) && AllIn(f, Flat(f[e].bins)) && Falling(f, Flat(f[e].bins)) && AllNonNegative(f, Flat(f[e].bins))
  {
    KidsFall(f, root, e);
  }

  lemma ChildFitsNow<E>(f: Forest<E>, e: E, j: nat, minSize: int, unknown: int, free: int)
    requires e in f && AllIn(f, Flat(f[e].bins)) && j < |Flat(f[e].bins)|
    requires Fits(f, Flat(f[e].bins), j, 0, minSize, unknown, free)
    ensures ChildFits(f, e, Flat(f[e].bins)[j], minSize, unknown, free)
  {
  }

  lemma ChildFitsAt<E>(f: Forest<E>, e: E, c: E, minSize: int, unknown: int, free: int) returns (j: nat)
    requires e in f && AllIn(f, Flat(f[e].bins)) && ChildFits(f, e, c, minSize, unknown, free)
    ensures j < |Flat(f[e].bins)| && Flat(f[e].bins)[j] == c
    ensures Fits(f, Flat(f[e].bins), j, 0, minSize, unknown, free)
  {
    j :| 0 <= j < |Flat(f[e].bins)| && Flat(f[e].bins)[j] == c &&
      Fits(f, Flat(f[e].bins), j, 0, minSize, unknown, free);
  }

  /** An entry is shown under its chain of names exactly if all entries on the way to it fit. */
  lemma {:induction false} WayShown<E>(f: Forest<E>, root: E, e: E, o: ViewOptions, way: seq<E>)
    requires Sound(f, root) && Named(f) && AllSizes(f) && e in f && IsWay(f, e, way)
    ensures Housed(f) && AllIn(f, Flat(f[e].bins)) && (forall c :: c in way ==> c in f) && WayEnd(e, way) in f
    ensures ShownUnder(Built(f, e, o), WayNames(f, way), KindOf(f[WayEnd(e, way)].dir), f[WayEnd(e, way)].size) <==>
            WayFits(f, e, way, o.nestLevel, o.minSize, o.unknownSpace, o.freeSpace)
    decreases |way|
  {
    hide *;
    WayInside(f, e, way);
    FlatOrdered(f, root, e);
    BuiltHas(f, e, o);
    var p := Built(f, e, o);
    var kind, size := KindOf(f[WayEnd(e, way)].dir), f[WayEnd(e, way)].size;
    if way == [] {
      EndShown(f, e, p, o);
    } else {
      var c, rest, list := way[0], way[1..], Flat(f[e].bins);
      WayStep(f, e, way);
      DeeperIs(o);
      WayShown(f, root, c, Deeper(o), rest);
      BuiltHas(f, c, Deeper(o));
      var names := WayNames(f, way);
      UnderStep(p, names, kind, size);
      FitsStep(f, e, way, o.nestLevel, o.minSize, o.unknownSpace, o.freeSpace);
      KidInFlat(f, e, c);
      if o.nestLevel > 0 {
        FilledExactly(f, list, o, 0, o.unknownSpace, o.freeSpace);
        if ShownUnder(p, names, kind, size) {
          var k :| k in p.kids && !IsSpace(k.kind) && k.name == names[0] && ShownUnder(k, names[1..], kind, size);
          var j :| 0 <= j < |list| && Fits(f, list, j, 0, o.minSize, o.unknownSpace, o.freeSpace) &&
                   k == Built(f, list[j], Deeper(o));
          KidInFlat(f, e, list[j]);
          assert list[j] in list;
          BuiltHas(f, list[j], Deeper(o));
          SameName(f, e, list[j], c);
          ChildFitsNow(f, e, j, o.minSize, o.unknownSpace, o.freeSpace);
        }
        if WayFits(f, e, way, o.nestLevel, o.minSize, o.unknownSpace, o.freeSpace) {
          var j := ChildFitsAt(f, e, c, o.minSize, o.unknownSpace, o.freeSpace);
        }
      }
    }
  }

  lemma SameName<E>(f: Forest<E>, e: E, a: E, b: E)
    requires Named(f) && a in f && b in f && f[a].parent == Some(e) && f[b].parent == Some(e) && f[a].name == f[b].name
    ensures a == b
  {
  }

  lemma EndShown<E>(f: Forest<E>, e: E, p: Picture, o: ViewOptions)
    requires e in f && AllIn(f, Flat(f[e].bins)) && p.kind == KindOf(f[e].dir) && p.size == f[e].size
    ensures WayEnd(e, []) == e && WayNames(f, []) == []
    ensures ShownUnder(p, [], KindOf(f[e].dir), f[e].size)
    ensures WayFits(f, e, [], o.nestLevel, o.minSize, o.unknownSpace, o.freeSpace)
  {
  }

  lemma WayStep<E>(f: Forest<E>, e: E, way: seq<E>)
    requires IsWay(f, e, way) && way != [] && forall c :: c in way ==> c in f
    ensures way[0] in f && f[way[0]].parent == Some(e) && IsWay(f, way[0], way[1..])
    ensures (forall c :: c in way[1..] ==> c in f) && WayEnd(way[0], way[1..]) == WayEnd(e, way)
    ensures WayNames(f, way) != [] && WayNames(f, way)[0] == f[way[0]].name
    ensures WayNames(f, way)[1..] == WayNames(f, way[1..])
  {
  }

  lemma UnderStep(p: Picture, names: seq<string>, kind: Kind, size: int)
    requires names != []
    ensures ShownUnder(p, names, kind, size) <==>
            exists k :: k in p.kids && !IsSpace(k.kind) && k.name == names[0] && ShownUnder(k, names[1..], kind, size)
  {
  }

  lemma FitsStep<E>(f: Forest<E>, e: E, way: seq<E>, level: int, minSize: int, unknown: int, free: int)
    requires e in f && AllIn(f, Flat(f[e].bins)) && way != [] && way[0] in f && AllIn(f, Flat(f[way[0]].bins))
    ensures WayFits(f, e, way, level, minSize, unknown, free) <==>
              && level > 0 && ChildFits(f, e, way[0], minSize, unknown, free)
              && WayFits(f, way[0], way[1..], level - 1, minSize, 0, 0)
  {
  }

  /** Nothing but entries is shown under a chain of names. */
  lemma {:induction false} OnlyEntries<E>(f: Forest<E>, root: E, e: E, o: ViewOptions, names: seq<string>, kind: Kind,
                                          size: int) returns (way: seq<E>)
    requires Sound(f, root) && AllSizes(f) && e in f
    requires Housed(f) && ShownUnder(Built(f, e, o), names, kind, size)
    ensures IsWay(f, e, way) && (forall c :: c in way ==> c in f) && WayNames(f, way) == names
    ensures WayEnd(e, way) in f && kind == KindOf(f[WayEnd(e, way)].dir) && size == f[WayEnd(e, way)].size
    decreases |names|
  {
    hide *;
    BuiltHas(f, e, o);
    FlatOrdered(f, root, e);
    var p, list := Built(f, e, o), Flat(f[e].bins);
    if names == [] {
      way := [];
      NoWay(f, e, p, kind, size);
    } else {
      UnderStep(p, names, kind, size);
      var k :| k in p.kids && !IsSpace(k.kind) && k.name == names[0] && ShownUnder(k, names[1..], kind, size);
      FilledExactly(f, list, o, 0, o.unknownSpace, o.freeSpace);
      var j :| 0 <= j < |list| && Fits(f, list, j, 0, o.minSize, o.unknownSpace, o.freeSpace) &&
               k == Built(f, list[j], Deeper(o));
      assert list[j] in list;
      KidInFlat(f, e, list[j]);
      BuiltHas(f, list[j], Deeper(o));
      var rest := OnlyEntries(f, root, list[j], Deeper(o), names[1..], kind, size);
      way := [list[j]] + rest;
      LongerWay(f, e, list[j], rest, names);
    }
  }

  lemma NoWay<E>(f: Forest<E>, e: E, p: Picture, kind: Kind, size: int)
    ensures IsWay(f, e, []) && WayNames(f, []) == [] && WayEnd(e, []) == e
    ensures ShownUnder(p, [], kind, size) <==> p.kind == kind && p.size == size
  {
  }

  lemma LongerWay<E>(f: Forest<E>, e: E, c: E, rest: seq<E>, names: seq<string>)
    requires c in f && f[c].parent == Some(e) && IsWay(f, c, rest) && (forall x :: x in rest ==> x in f)
    requires names != [] && f[c].name == names[0] && WayNames(f, rest) == names[1..]
    ensures IsWay(f, e, [c] + rest) && (forall x :: x in [c] + rest ==> x in f)
    ensures WayNames(f, [c] + rest) == names && WayEnd(e, [c] + rest) == WayEnd(c, rest)
  {
    assert ([c] + rest)[1..] == rest && names == [names[0]] + names[1..];
  }

  /** What is at the end of the way is shown exactly if everything on the way fits. */
  ghost predicate ShowsWay<E>(f: Forest<E>, e: E, o: ViewOptions, way: seq<E>, p: Picture)
    requires Housed(f) && e in f && IsWay(f, e, way)
  {
    KidsIn(f, e);
    WayInside(f, e, way);
    ShownUnder(p, WayNames(f, way), KindOf(f[WayEnd(e, way)].dir), f[WayEnd(e, way)].size) <==>
    WayFits(f, e, way, o.nestLevel, o.minSize, o.unknownSpace, o.freeSpace)
  }

  lemma BuiltShowsWay<E>(f: Forest<E>, root: E, e: E, o: ViewOptions, way: seq<E>)
    requires Sound(f, root) && Named(f) && AllSizes(f) && e in f && IsWay(f, e, way)
    ensures Housed(f) && ShowsWay(f, e, o, way, Built(f, e, o))
  {
    FlatOrdered(f, root, e);
    WayShown(f, root, e, o, way);
    hide Built, ShownUnder, WayFits, IsWay, WayNames, Sound, Named, AllSizes;
  }

  /** Something is at the end of a way with these names. */
  ghost predicate IsEntry<E>(f: Forest<E>, e: E, names: seq<string>, kind: Kind, size: int, way: seq<E>)
    requires e in f
  {
    IsWay(f, e, way) &&
    (WayInside(f, e, way);
     WayNames(f, way) == names && kind == KindOf(f[WayEnd(e, way)].dir) && size == f[WayEnd(e, way)].size)
  }

  // -------------------------------------------------------------- in plain numbers

  /** Nothing is shown deeper than the level of the view. */
  lemma {:induction false} NotDeeper<E>(f: Forest<E>, e: E, way: seq<E>, level: int, minSize: int, unknown: int,
                                        free: int)
    requires e in f && AllIn(f, Flat(f[e].bins)) && WayFits(f, e, way, level, minSize, unknown, free)
    ensures |way| <= if level > 0 then level else 0
    ensures forall c :: c in way ==> c in f && f[c].size >= minSize
    decreases |way|
  {
    if way != [] {
      NotDeeper(f, way[0], way[1..], level - 1, minSize, 0, 0);
      assert way == [way[0]] + way[1..];
    }
  }

  /** Large entries in directories of at most ninety-eight children are shown down to the level of the view. */
  lemma {:induction false} LargeFit<E>(f: Forest<E>, root: E, e: E, way: seq<E>, level: int, minSize: int, unknown: int,
                                       free: int)
    requires Sound(f, root) && e in f && IsWay(f, e, way) && |way| <= level
    requires forall c :: c in way && c in f ==> f[c].size >= minSize
    requires |Kids(f, e)| <= 98 && forall c :: c in way && c in f ==> |Kids(f, c)| <= 98
    ensures AllIn(f, Flat(f[e].bins)) && WayFits(f, e, way, level, minSize, unknown, free)
    decreases |way|
  {
    assert Binned(f, e);
    KidsIn(f, e);
    if way != [] {
      var c, list := way[0], Flat(f[e].bins);
      KidInFlat(f, e, c);
      var j :| 0 <= j < |list| && list[j] == c;
      FlatCount(f, e);
      assert Fits(f, list, j, 0, minSize, unknown, free);
      assert forall x :: x in way[1..] ==> x in way;
      LargeFit(f, root, c, way[1..], level - 1, minSize, 0, 0);
    }
  }

  lemma FlatCount<E>(f: Forest<E>, e: E)
    requires e in f && Binned(f, e)
    ensures |Flat(f[e].bins)| == |Kids(f, e)|
  {
    assert |multiset(Flat(f[e].bins))| == |Flat(f[e].bins)|;
    assert |multiset(Kids(f, e))| == |Kids(f, e)|;
  }
}
