/** Views: reusable trees of linked objects that show a tree of entries as nested rectangles. */
module FileEntryViews {
  import opened SizeBins
  import opened Forest
  import opened FileEntries
  import opened Trees
  import opened Pictures
  import opened Glimpses
  import opened Treemap
  import opened Tilings
  import opened Layouts

  ghost function AreasIn(views: seq<FileEntryView>): (a: seq<Rect>)
    ensures |a| == |views| && forall i :: 0 <= i < |a| ==> a[i] == views[i].drawArea
    reads views`drawArea
  {
    if views == [] then [] else [views[0].drawArea] + AreasIn(views[1..])
  }

  ghost function SizesIn(views: seq<FileEntryView>): (s: seq<int>)
    ensures |s| == |views| && forall i :: 0 <= i < |s| ==> s[i] == views[i].size
    reads views`size
  {
    if views == [] then [] else [views[0].size] + SizesIn(views[1..])
  }

  /** The layout of `views`, which are made up of objects in `R`. */
  ghost function BoxesIn(views: seq<FileEntryView>, R: set<FileEntryView>): (b: seq<Box>)
    requires forall v :: v in views ==> v in R && v.repr <= R && v.Valid()
    ensures |b| == |views| && forall i :: 0 <= i < |b| ==> (assert views[i] in views; b[i] == views[i].AsBox())
    reads R`children, R`repr, R`parent, R`size, R`drawArea
    decreases R, |views|
  {
    if views == [] then []
    else
      assert views[0] in views;
      [views[0].AsBox()] + BoxesIn(views[1..], R)
  }

  /** What `views`, which are made up of objects in `R`, show. */
  ghost function SketchesIn(views: seq<FileEntryView>, R: set<FileEntryView>): (p: seq<Picture>)
    requires forall v :: v in views ==> v in R && v.repr <= R && v.Valid()
    ensures |p| == |views| && forall i :: 0 <= i < |p| ==> (assert views[i] in views; p[i] == views[i].Sketch())
    reads R`children, R`repr, R`parent, R`size, R`name, R`entryType
    decreases R, |views|
  {
    if views == [] then []
    else
      assert views[0] in views;
      [views[0].Sketch()] + SketchesIn(views[1..], R)
  }

  class FileEntryView {
    var parent: FileEntryView?
    var children: seq<FileEntryView>
    var size: int
    var name: string
    var entryType: Kind
    var drawArea: Rect
    /** This view and everything below it. */
    ghost var repr: set<FileEntryView>

    /** The views below this one form a tree, and know their parents. */
    ghost predicate Valid()
      reads `repr, `children, repr`children, repr`repr, repr`parent
      decreases repr
    {
      && this in repr
      && (forall c :: c in children ==>
            c in repr && this !in c.repr && c.repr < repr && c.Valid() && c.parent == this)
      && forall i, j :: 0 <= i < j < |children| ==> children[i].repr !! children[j].repr
    }

    /** What the view shows. */
    ghost function Shown(): Picture
      requires Valid()
      reads this, repr
      decreases repr, 1
    {
      Picture(name, entryType, size, Kids(), Empty(drawArea) || IsSpace(entryType))
    }

    ghost function Kids(): seq<Picture>
      requires Valid()
      reads this, repr
      decreases repr, 0
    {
      seq(|children|, i requires 0 <= i < |children| && Valid() reads this, repr =>
        assert children[i] in children; children[i].Shown())
    }

    /** What the view shows, wherever it is. */
    ghost function Sketch(): Picture
      requires Valid()
      reads `children, `repr, `size, `name, `entryType
      reads repr`children, repr`repr, repr`parent, repr`size, repr`name, repr`entryType
      decreases repr, 0
    {
      Picture(name, entryType, size, SketchesIn(children, repr - {this}), true)
    }

    /** The view as far as its layout is concerned. */
    ghost function AsBox(): Box
      requires Valid()
      reads `children, `repr, `size, `drawArea
      reads repr`children, repr`repr, repr`parent, repr`size, repr`drawArea
      decreases repr, 0
    {
      Box(size, drawArea, Below())
    }

    ghost function Below(): (b: seq<Box>)
      requires Valid()
      ensures |b| == |children| && forall i :: 0 <= i < |b| ==>
                (assert children[i] in children; b[i] == children[i].AsBox())
      reads `children, `repr, repr`children, repr`repr, repr`parent
      reads (repr - {this})`size, (repr - {this})`drawArea
      decreases repr - {this}, |children| + 1
    {
      BoxesIn(children, repr - {this})
    }

    constructor ()
      ensures Valid() && fresh(repr) && repr == {this} && parent == null && children == []
      ensures Empty(drawArea)
    {
      parent, children, size, name, entryType, drawArea, repr := null, [], 0, "", File, Rect(0, 0, 0, 0), {this};
    }

    /** A new view of `entry`. */
    static method CreateView(entry: FileEntry, o: ViewOptions, ghost S: set<FileEntry>, ghost root: FileEntry)
      returns (v: FileEntryView)
      requires entry in S && AllLinked(S) && Sound(Snap(S), root)
      ensures v.Valid() && fresh(v.repr) && v.parent == null
      ensures Housed(Snap(S)) && entry in Snap(S) && v.Shown() == Built(Snap(S), entry, o)
    {
      v := new FileEntryView();
      v.ReconstructFrom(entry, o, S, root);
    }

    // -------------------------------------------------------------------- layout

    ghost function Areas(): (a: seq<Rect>)
      reads this`children, children`drawArea
    {
      AreasIn(children)
    }

    ghost function Sizes(): (s: seq<int>)
      reads this`children, children`size
    {
      SizesIn(children)
    }

    /** All children are different objects. */
    ghost predicate Separate()
      reads this`children
    {
      forall i, j :: 0 <= i < j < |children| ==> children[i] != children[j]
    }

    method SetChildRect(i: nat, rect: Rect)
      requires Separate() && i < |children|
      modifies {children[i]}`drawArea
      ensures Areas() == Splice(old(Areas()), i, [SetArea(rect)])
    {
      hide *;
      SeparateIs(this);
      ghost var all := Areas();
      SizesAre(this);
      var child := children[i];
      child.drawArea := rect;
      if child.drawArea.w < 1 || child.drawArea.h < 1 {
        child.drawArea := child.drawArea.(w := 0, h := 0);
      }
      SetOne(this, all, i, rect);
    }

    /** The sizes of the children from `start` up to but not including `end`. */
    method TotalSize(start: nat, end: nat) returns (total: int)
      requires start <= end <= |children|
      ensures total == Sum(Sizes()[start..end])
    {
      total := 0;
      for i := start to end
        invariant total == Sum(Sizes()[start..i])
      {
        SumNext(Sizes(), start, i);
        total := total + children[i].size;
      }
    }

    /** Where the children that are shown end. */
    method CountShown(start: nat, end: nat, minSize: int) returns (newEnd: nat)
      requires start <= end < |children|
      ensures newEnd == start + ShownFrom(Sizes()[start..end + 1], minSize, 0)
    {
      ghost var sizes := Sizes()[start..end + 1];
      newEnd := start;
      for i := start to end + 1
        invariant newEnd == i && ShownFrom(sizes, minSize, 0) == ShownFrom(sizes, minSize, i - start)
      {
        assert sizes[i - start] == children[i].size;
        if children[i].size < minSize && i > start + 1 {
          break;
        }
        newEnd := newEnd + 1;
      }
    }

    method HideFrom(newEnd: nat, end: nat)
      requires Separate() && newEnd <= end + 1 <= |children|
      modifies children`drawArea
      ensures Areas() == Splice(old(Areas()), newEnd, Hidden(old(Areas())[newEnd..end + 1]))
    {
      hide *;
      SeparateIs(this);
      ghost var all := Areas();
      SizesAre(this);
      for i := newEnd to end + 1
        invariant forall j :: 0 <= j < |children| ==>
                    children[j].drawArea == if newEnd <= j < i then all[j].(w := 0, h := 0) else all[j]
      {
        children[i].drawArea := children[i].drawArea.(w := 0, h := 0);
      }
      HiddenSome(this, all, newEnd, end);
    }

    /** Fills the first bin for as long as that balances the two, and weighs them. */
    method FillBin(start: nat, end: nat) returns (bin1last: nat, sum1: int, sum2: int)
      requires start < end < |children|
      ensures start <= bin1last <= end
      ensures var sizes := Sizes()[start..end + 1];
              && bin1last + 1 == start + FirstBin(sizes)
              && sum1 == Sum(sizes[..FirstBin(sizes)]) && sum2 == Sum(sizes[FirstBin(sizes)..])
    {
      hide *;
      SizesAre(this);
      ghost var sizes := Sizes()[start..end + 1];
      bin1last := start;
      sum1 := children[start].size;
      sum2 := TotalSize(start + 1, end + 1);
      BinStarts(Sizes(), start, end);
      var bin1Filled := false;
      for i := start + 1 to end + 1
        invariant start <= bin1last < i
        invariant if bin1Filled then bin1last + 1 == start + FirstBin(sizes)
                  else bin1last + 1 == i && FirstBin(sizes) == BinFrom(sizes, i - start, sum1, sum2)
        invariant sum1 == Sum(sizes[..bin1last + 1 - start]) && sum2 == Sum(sizes[bin1last + 1 - start..])
      {
        var curSize := children[i].size;
        assert curSize == sizes[i - start];
        BinStep(sizes, i - start, sum1, sum2);
        if !bin1Filled && Abs(sum2 - sum1 - curSize * 2) < Abs(sum2 - sum1) {
          BinNext(sizes, i - start);
          bin1last := bin1last + 1;
          sum1 := sum1 + curSize;
          sum2 := sum2 - curSize;
        } else {
          bin1Filled := true;
        }
      }
      BinStep(sizes, |sizes|, sum1, sum2);
    }

    /** The size below which a child is not shown. */
    method MinSize(start: nat, end: nat, rect: Rect) returns (minSize: int)
      requires start <= end < |children| && rect.h >= 1 && rect.w >= 1
      ensures rect.h * rect.w > 0
      ensures minSize == Sum(Sizes()[start..end + 1]) * (MIN_CHILD_PIXEL_AREA / (rect.h * rect.w))
    {
      hide *;
      Positive(rect.h, rect.w);
      var totalSize := TotalSize(start, end + 1);
      minSize := totalSize * (MIN_CHILD_PIXEL_AREA / (rect.h * rect.w));
    }

    /** Divides `rect` among the children from `start` up to and including `end`. */
    method AllocateChildren(start: nat, end: nat, rect: Rect)
      requires Separate() && start <= end < |children| && NonNegative(Sizes()[start..end + 1])
      modifies children`drawArea
      ensures Areas() ==
                Splice(old(Areas()), start, Allocated(Sizes()[start..end + 1], old(Areas())[start..end + 1], rect))
      decreases end - start, 1
    {
      hide *;
      SizesAre(this);
      ghost var sizes, areas, all := Sizes()[start..end + 1], Areas()[start..end + 1], Areas();
      if rect.h < 1 || rect.w < 1 {
        AllocatedNone(sizes, areas, rect);
        SpliceSame(all, start, end + 1);
        return;
      }
      EmptyIs(rect);
      if end == start {
        AllocatedOne(sizes, areas, rect);
        SetChildRect(start, rect);
        return;
      }
      var minSize := MinSize(start, end, rect);
      var newEnd := CountShown(start, end, minSize);
      ShownAre(sizes, areas, rect, newEnd - start);
      HideFrom(newEnd, end);
      SizesAre(this);
      SliceTake(Sizes(), start, newEnd, end + 1);
      var bin1last, sum1, sum2 := FillBin(start, newEnd - 1);
      ghost var hidden := Areas();
      HiddenFrom(all, hidden, start, newEnd, end);
      AllocateParts(start, newEnd - 1, bin1last, sum1, sum2, rect);
      SpliceBoth(all, hidden, Areas(), start, newEnd, end,
                 PartsAllocated(sizes[..newEnd - start], areas[..newEnd - start], bin1last + 1 - start,
                     Parts(rect, sum1, sum2)));
    }

    /** Cuts `rect` in two, across its longer side, according to the weights of the bins. */
    static method CutInTwo(rect: Rect, sum1: int, sum2: int) returns (first: Rect, second: Rect)
      requires !Empty(rect) && sum1 >= 0 && sum2 >= 0
      ensures (first, second) == Parts(rect, sum1, sum2)
    {
      hide *;
      var weight1, weight2 := sum1, sum2;
      if sum1 == 0 && sum2 == 0 {
        weight1, weight2 := 1, 1;
      }
      PartsAre(rect, sum1, sum2, weight1, weight2);
      SomeArea(rect);
      var midW1 := (rect.w * weight1) / (weight1 + weight2);
      var midH1 := (rect.h * weight1) / (weight1 + weight2);
      if rect.w >= rect.h {
        first, second := Rect(rect.x, rect.y, midW1, rect.h), Rect(rect.x + midW1, rect.y, rect.w - midW1, rect.h);
      } else {
        first, second := Rect(rect.x, rect.y, rect.w, midH1), Rect(rect.x, rect.y + midH1, rect.w, rect.h - midH1);
      }
    }

    /** Gives `rect` to one of the two groups, which may be a single child. */
    method AllocateGroup(start: nat, end: nat, rect: Rect)
      requires Separate() && start <= end < |children| && NonNegative(Sizes()[start..end + 1])
      modifies children`drawArea
      ensures Areas() ==
                Splice(old(Areas()), start, GroupAreas(Sizes()[start..end + 1], old(Areas())[start..end + 1], rect))
      decreases end - start, 2
    {
      hide *;
      SizesAre(this);
      GroupAreasAre(Sizes()[start..end + 1], Areas()[start..end + 1], rect);
      if end - start > 0 {
        AllocateChildren(start, end, rect);
      } else {
        SetChildRect(start, rect);
      }
    }

    /** Divides `rect` between the two bins. */
    method AllocateParts(start: nat, end: nat, bin1last: nat, sum1: int, sum2: int, rect: Rect)
      requires Separate() && start < end < |children| && NonNegative(Sizes()[start..end + 1])
      requires start <= bin1last < end && !Empty(rect) && sum1 >= 0 && sum2 >= 0
      modifies children`drawArea
      ensures Areas() == Splice(old(Areas()), start,
                PartsAllocated(Sizes()[start..end + 1], old(Areas())[start..end + 1], bin1last + 1 - start,
                    Parts(rect, sum1, sum2)))
      decreases end - start, 0
    {
      hide *;
      SizesAre(this);
      ghost var sizes, areas, all, k := Sizes()[start..end + 1], Areas()[start..end + 1], Areas(), bin1last + 1 - start;
      var first, second := CutInTwo(rect, sum1, sum2);
      PartsSizes(Sizes(), start, end, k);
      PartsIs(sizes, areas, k, first, second);
      FirstHalf(all, start, end, k);
      AllocateGroup(start, bin1last, first);
      SizesAre(this);
      ghost var half := Areas();
      SecondHalf(all, half, start, end, GroupAreas(sizes[..k], areas[..k], first));
      AllocateGroup(bin1last + 1, end, second);
      BothHalves(all, half, Areas(), start, GroupAreas(sizes[..k], areas[..k], first),
                 GroupAreas(sizes[k..], areas[k..], second));
    }

    /** Divides `rect` among all children. */
    method DivideAmongAll(rect: Rect)
      requires Valid() && Sane(AsBox()) && children != []
      modifies children`drawArea
      ensures Valid() && old(AsBox()).kids != [] && AsBox().kids == Divided(old(AsBox()), rect)
      ensures size == old(size) && drawArea == old(drawArea)
    {
      hide *;
      ValidAll(this);
      BoxIs(this);
      BoxSeparate(this);
      ghost var b := AsBox();
      BoxDivided(this, b, rect);
      ghost var kids := Divided(b, rect);
      AllocateChildren(0, |children| - 1, rect);
      SizesAre(this);
      assert Areas() == Allocated(SizesOf(b.kids), AreasOf(b.kids), rect);
      KidsDivided(this, kids);
    }

    /** Lays out every child in the area that it has got. */
    method AllocateEach(titleHeight: int)
      requires Valid() && forall k :: k in AsBox().kids ==> Sane(k)
      modifies (repr - {this})`drawArea
      ensures Valid() && |AsBox().kids| == |old(AsBox()).kids|
      ensures forall i :: 0 <= i < |AsBox().kids| ==>
                (assert old(AsBox()).kids[i] in old(AsBox()).kids;
                 AsBox().kids[i] == Laid(old(AsBox()).kids[i], old(AsBox()).kids[i].area, titleHeight))
      ensures size == old(size) && drawArea == old(drawArea)
      decreases repr, 0
    {
      hide *;
      ghost var b, cs := AsBox(), children;
      BoxIs(this);
      AllSane(b);
      ValidAll(this);
      for i := 0 to |children|
        invariant Valid() && children == cs && forall j :: 0 <= j < |cs| ==> cs[j].Valid()
        invariant forall j :: 0 <= j < i ==> children[j].AsBox() == Laid(b.kids[j], b.kids[j].area, titleHeight)
        invariant forall j :: i <= j < |children| ==> children[j].AsBox() == b.kids[j]
      {
        ValidAll(this);
        BoxIs(children[i]);
        children[i].AllocateView(children[i].drawArea, titleHeight);
      }
      BoxIs(this);
    }

    /** Lays out this view and everything below it in `rect`, with room for a title. */
    method AllocateView(rect: Rect, titleHeight: int)
      requires Valid() && Sane(AsBox())
      modifies repr`drawArea
      ensures Valid() && AsBox() == Laid(old(AsBox()), rect, titleHeight)
      decreases repr, 1
    {
      hide *;
      ValidAll(this);
      BoxIs(this);
      ghost var b := AsBox();
      SmallIs(b, rect, titleHeight);
      if children == [] || rect.h < titleHeight || rect.w < 1 {
        return;
      }
      InnerIs(rect, titleHeight);
      BoxBelow(this);
      drawArea := rect;
      BoxBelow(this);
      SameDivided(b, AsBox(), Inner(rect, titleHeight));
      DivideAmongAll(Rect(rect.x + 2, rect.y + titleHeight + 2, rect.w - 4, rect.h - (titleHeight + 2 + 2)));
      BoxIs(this);
      AllocateEach(titleHeight);
      BoxIs(this);
      LaidIs(b, rect, titleHeight, AsBox());
    }

    /** Turns the child at `k`, or a new one at the end, into a view of space that is not in files. */
    method PutSpace(k: nat, kind: Kind, space: int)
      requires Valid() && k <= |children| && IsSpace(kind)
      modifies repr
      ensures Valid() && fresh(repr - old(repr))
      ensures size == old(size) && name == old(name) && entryType == old(entryType) && parent == old(parent)
      ensures drawArea == old(drawArea)
      ensures Kids() == Replaced(old(Kids()), k, Picture("", kind, space, [], true))
      ensures k < |children| == |Kids()| && Kids()[..k + 1] == old(Kids())[..k] + [Picture("", kind, space, [], true)]
    {
      hide *;
      ValidAll(this);
      ghost var cs, pics := children, Kids();
      var newChild: FileEntryView;
      if k < |children| {
        newChild := children[k];
      } else {
        newChild := new FileEntryView();
        children := children + [newChild];
      }
      newChild.parent := this;
      newChild.entryType := kind;
      newChild.size := space;
      newChild.name := "";
      newChild.children := [];
      repr := repr + newChild.repr;
      LeafValid(newChild);
      assert (Empty(newChild.drawArea) || IsSpace(kind)) == true;
      PutValid(this, cs, pics, k);
    }

    /** Turns the child at `k`, or a new one at the end, into a view of `entry`. */
    method PutEntry(k: nat, entry: FileEntry, o: ViewOptions, ghost S: set<FileEntry>, ghost root: FileEntry)
      requires Valid() && k <= |children|
      requires entry in S && AllLinked(S) && Sound(Snap(S), root)
      modifies repr
      ensures Valid() && fresh(repr - old(repr))
      ensures size == old(size) && name == old(name) && entryType == old(entryType) && parent == old(parent)
      ensures drawArea == old(drawArea)
      ensures Housed(Snap(S)) && entry in Snap(S) && Kids() == Replaced(old(Kids()), k, Built(Snap(S), entry, o))
      ensures k < |children| == |Kids()| && Kids()[..k + 1] == old(Kids())[..k] + [Built(Snap(S), entry, o)]
      decreases LevelOf(o), 3
    {
      hide *;
      ValidAll(this);
      ghost var cs, pics := children, Kids();
      if k < |children| {
        children[k].ReconstructFrom(entry, o, S, root);
      } else {
        var newChild := new FileEntryView();
        newChild.ReconstructFrom(entry, o, S, root);
        children := children + [newChild];
      }
      children[k].SetParent(this);
      repr := repr + children[k].repr;
      PutValid(this, cs, pics, k);
    }

    /** Makes this view show `entry`, whatever it has shown before. */
    method ReconstructFrom(entry: FileEntry, o: ViewOptions, ghost S: set<FileEntry>, ghost root: FileEntry)
      requires Valid() && entry in S && AllLinked(S) && Sound(Snap(S), root)
      modifies repr
      ensures Valid() && fresh(repr - old(repr)) && parent == null
      ensures Housed(Snap(S)) && entry in Snap(S) && Shown() == Built(Snap(S), entry, o)
      ensures Named(Snap(S)) && AllSizes(Snap(S)) ==>
                && (forall way: seq<FileEntry> :: IsWay(Snap(S), entry, way) ==>
                      ShowsWay(Snap(S), entry, o, way, Shown()))
                && (forall names, kind, size :: ShownUnder(Shown(), names, kind, size) ==>
                      exists way: seq<FileEntry> :: IsEntry(Snap(S), entry, names, kind, size, way))
      decreases LevelOf(o), 2
    {
      hide *;
      ValidAll(this);
      SoundHas(S, entry, root);
      ghost var f := Snap(S);
      InitFrom(entry);
      SetParent(null);
      if o.nestLevel > 0 {
        SoundHas(S, entry, root);
        var any, visited := entry.ForEach((child: FileEntry) => true);
        KidsIn(f, entry);
        VisitedAre(S, entry, visited);
        FillChildren(visited, o, S, root);
      } else {
        children := [];
        LeafValid(this);
      }
      ShownIs(this);
      BuiltIs(f, entry, o);
      BuiltShows(f, entry, o, root);
    }

    method SetParent(p: FileEntryView?)
      requires Valid()
      modifies this`parent
      ensures Valid() && Shown() == old(Shown()) && Kids() == old(Kids()) && parent == p
    {
      hide *;
      ValidAll(this);
      ShownIs(this);
      ghost var pics := Kids();
      parent := p;
      SameValid(this, children, pics);
      ShownIs(this);
    }

    method InitFrom(entry: FileEntry)
      requires Valid()
      modifies this`size, this`name, this`entryType, this`drawArea
      ensures Valid() && Kids() == old(Kids())
      ensures size == entry.size && name == entry.name && entryType == (if entry.isDir then Directory else File)
      ensures Empty(drawArea)
    {
      hide *;
      ValidAll(this);
      ghost var pics := Kids();
      size, name := entry.size, entry.name;
      entryType := if entry.isDir then Directory else File;
      drawArea := Rect(0, 0, 0, 0);
      SameValid(this, children, pics);
      NoArea(drawArea);
    }

    /** Shows the entries in `visited`, as far as the options allow, and drops the children left over. */
    method FillChildren(visited: seq<FileEntry>, o: ViewOptions, ghost S: set<FileEntry>, ghost root: FileEntry)
      requires Valid() && AllLinked(S) && Sound(Snap(S), root) && o.nestLevel > 0
      requires forall e :: e in visited ==> e in S
      modifies repr
      ensures Valid() && fresh(repr - old(repr))
      ensures size == old(size) && name == old(name) && entryType == old(entryType) && parent == old(parent)
      ensures drawArea == old(drawArea)
      ensures Housed(Snap(S)) && AllIn(Snap(S), visited)
      ensures Kids() == Filled(Snap(S), visited, o, 0, o.unknownSpace, o.freeSpace)
      decreases LevelOf(o), 1
    {
      hide *;
      ValidAll(this);
      ghost var f := Snap(S);
      SoundForest(f, root);
      VisitedIn(S, visited);
      DeeperFalls(o);
      ghost var all := Filled(f, visited, o, 0, o.unknownSpace, o.freeSpace);
      var childCount: nat, i: nat := 0, 0;
      var unknownSpace, freeSpace := o.unknownSpace, o.freeSpace;
      TrackStarts(f, visited, o, Kids());
      while i < |visited|
        invariant Valid() && fresh(repr - old(repr)) && childCount <= |children| && i <= |visited|
        invariant size == old(size) && name == old(name) && entryType == old(entryType) && parent == old(parent)
        invariant drawArea == old(drawArea)
        invariant AllLinked(S) && Snap(S) == f && OnTrack(f, visited, i, o, childCount, unknownSpace, freeSpace,
                    Kids(), all)
        decreases |visited| - i
      {
        ValidAll(this);
        var child := visited[i];
        SnapFields(S, child);
        TrackStops(f, visited, i, o, childCount, unknownSpace, freeSpace, Kids(), all);
        if childCount >= MAX_CHILD_COUNT || child.size < o.minSize {
          break;
        }
        ghost var kids, count, unknown, free := Kids(), childCount, unknownSpace, freeSpace;
        childCount, unknownSpace, freeSpace := ShowChild(child, childCount, unknownSpace, freeSpace, o, S, root);
        TrackNext(f, visited, i, o, count, unknown, free, kids, all, Kids());
        i := i + 1;
      }
      TrackStops(f, visited, i, o, childCount, unknownSpace, freeSpace, Kids(), all);
      ValidAll(this);
      DropFrom(childCount);
    }

    /** Shows one more child after the first `count` ones, and before it the space that is larger. */
    method ShowChild(child: FileEntry, count: nat, unknownSpace: int, freeSpace: int, o: ViewOptions,
                     ghost S: set<FileEntry>, ghost root: FileEntry)
      returns (childCount: nat, unknownLeft: int, freeLeft: int)
      requires Valid() && AllLinked(S) && Sound(Snap(S), root) && child in S && o.nestLevel > 0 && count <= |children|
      modifies repr
      ensures Valid() && fresh(repr - old(repr))
      ensures size == old(size) && name == old(name) && entryType == old(entryType) && parent == old(parent)
      ensures drawArea == old(drawArea)
      ensures Housed(Snap(S)) && child in Snap(S) && count <= |old(Kids())|
      ensures var space := Space(UnknownSpace, unknownSpace, child.size) + Space(AvailableSpace, freeSpace, child.size);
              && childCount == count + |space| + 1 <= |Kids()| == |children|
              && Kids()[..childCount] == old(Kids())[..count] + (space + [Built(Snap(S), child, Deeper(o))])
      ensures unknownLeft == SpaceLeft(unknownSpace, child.size) && freeLeft == SpaceLeft(freeSpace, child.size)
      decreases LevelOf(o), 0
    {
      hide *;
      ValidAll(this);
      DeeperFalls(o);
      SpaceIs(unknownSpace, freeSpace, child.size);
      childCount, unknownLeft, freeLeft := count, unknownSpace, freeSpace;
      if unknownSpace > child.size {
        PutSpace(childCount, UnknownSpace, unknownSpace);
        childCount, unknownLeft := childCount + 1, 0;
      }
      if freeSpace > child.size {
        PutSpace(childCount, AvailableSpace, freeSpace);
        childCount, freeLeft := childCount + 1, 0;
      }
      PutEntry(childCount, child, Deeper(o), S, root);
      childCount := childCount + 1;
    }

    /** Drops the children from `count` on. */
    method DropFrom(count: nat)
      requires Valid() && count <= |children|
      modifies this`children
      ensures Valid() && Kids() == old(Kids())[..count]
    {
      hide *;
      ValidAll(this);
      ghost var pics, cs := Kids(), children;
      var existing := |children|;
      while existing > count
        invariant count <= existing && existing <= |cs| && children == cs[..existing]
        modifies `children
      {
        children := children[..|children| - 1];
        existing := existing - 1;
      }
      SameValid(this, children, pics[..count]);
    }
  }

  /** A list with its element at `k` replaced, or with a new last one. */
  ghost function Replaced<T>(s: seq<T>, k: nat, x: T): seq<T>
    requires k <= |s|
  {
    if k < |s| then s[k := x] else s + [x]
  }

  /** A picture without any trace of an earlier layout. */
  function Cleared(p: Picture): Picture {
    p.(kids := seq(|p.kids|, i requires 0 <= i < |p.kids| => Cleared(p.kids[i])), cleared := true)
  }

  lemma {:induction false} SketchIs(v: FileEntryView)
    requires v.Valid()
    ensures v.Sketch() == Cleared(v.Shown())
    decreases v.repr
  {
    ValidAll(v);
    forall i | 0 <= i < |v.children|
      ensures v.Sketch().kids[i] == Cleared(v.Shown().kids[i])
    {
      assert v.children[i] in v.children;
      ValidHas(v, i);
      SketchIs(v.children[i]);
    }
    assert v.Sketch().kids == Cleared(v.Shown()).kids;
  }

  lemma ValidAll(v: FileEntryView)
    requires v.Valid()
    ensures v in v.repr && |v.Kids()| == |v.children|
    ensures forall i :: 0 <= i < |v.children| ==>
              var c := v.children[i];
              && c in v.repr && v !in c.repr && c.repr <= v.repr && c.Valid() && c.parent == v && c in c.repr && c != v
              && v.Kids()[i] == c.Shown()
    ensures forall i, j :: 0 <= i < |v.children| && 0 <= j < |v.children| && i != j ==>
              v.children[i].repr !! v.children[j].repr && v.children[i] !in v.children[j].repr
  {
    forall i | 0 <= i < |v.children|
      ensures var c := v.children[i];
              && c in v.repr && v !in c.repr && c.repr <= v.repr && c.Valid() && c.parent == v && c in c.repr && c != v
              && v.Kids()[i] == c.Shown()
    {
      ValidHas(v, i);
    }
  }

  lemma ValidHas(v: FileEntryView, i: nat)
    requires v.Valid() && i < |v.children|
    ensures var c := v.children[i];
            c in v.repr && v !in c.repr && c.repr <= v.repr && c.repr < v.repr && c.Valid() && c.parent == v &&
              c in c.repr
    ensures |v.Kids()| == |v.children| && v.Kids()[i] == v.children[i].Shown()
    ensures forall j :: 0 <= j < |v.children| && j != i ==>
              v.children[j].repr !! v.children[i].repr && v.children[j] != v.children[i]
  {
    assert v.children[i] in v.children;
    forall j | 0 <= j < |v.children| && j != i
      ensures v.children[j].repr !! v.children[i].repr && v.children[j] != v.children[i]
    {
      assert v.children[j] in v.children;
      if j < i {
        assert v.children[j].repr !! v.children[i].repr;
      } else {
        assert v.children[i].repr !! v.children[j].repr;
      }
    }
  }

  lemma SoundHas(S: set<FileEntry>, e: FileEntry, root: FileEntry)
    requires e in S && AllLinked(S) && Sound(Snap(S), root)
    ensures Housed(Snap(S)) && e in Snap(S) && e.Linked()
    ensures Snap(S)[e].bins == e.bins && Snap(S)[e].name == e.name && Snap(S)[e].dir == e.isDir &&
            Snap(S)[e].size == e.size
  {
    assert LinkedIn(e, S);
  }

  lemma SoundForest(f: Forest<FileEntry>, root: FileEntry)
    requires Sound(f, root)
    ensures Housed(f)
  {
  }

  lemma VisitedIn(S: set<FileEntry>, visited: seq<FileEntry>)
    requires forall e :: e in visited ==> e in S
    ensures AllIn(Snap(S), visited)
  {
  }

  lemma SnapFields(S: set<FileEntry>, e: FileEntry)
    requires e in S
    ensures e in Snap(S) && Snap(S)[e].size == e.size
  {
  }

  lemma SliceTake<T>(s: seq<T>, i: nat, j: nat, k: nat)
    requires i <= j <= k <= |s|
    ensures s[i..k][..j - i] == s[i..j]
  {
  }

  /** The first `count` pictures, and what is to come for the rest of a traversal, make up all there is to be. */
  ghost predicate OnTrack(f: Forest<FileEntry>, visited: seq<FileEntry>, i: nat, o: ViewOptions, count: nat,
                          unknown: int, free: int, kids: seq<Picture>, all: seq<Picture>) {
    && i <= |visited| && count <= |kids| && Housed(f) && AllIn(f, visited[i..]) && o.nestLevel > 0
    && kids[..count] + Filled(f, visited[i..], o, count, unknown, free) == all
  }

  lemma TrackStarts(f: Forest<FileEntry>, visited: seq<FileEntry>, o: ViewOptions, kids: seq<Picture>)
    requires Housed(f) && AllIn(f, visited) && o.nestLevel > 0
    ensures OnTrack(f, visited, 0, o, 0, o.unknownSpace, o.freeSpace, kids,
              Filled(f, visited, o, 0, o.unknownSpace, o.freeSpace))
  {
    hide Filled;
    assert visited[0..] == visited && kids[..0] == [];
  }

  lemma TrackStops(f: Forest<FileEntry>, visited: seq<FileEntry>, i: nat, o: ViewOptions, count: nat,
                   unknown: int, free: int, kids: seq<Picture>, all: seq<Picture>)
    requires OnTrack(f, visited, i, o, count, unknown, free, kids, all)
    ensures i < |visited| ==> visited[i] in f
    ensures i == |visited| || count >= MAX_CHILD_COUNT || f[visited[i]].size < o.minSize ==> kids[..count] == all
  {
    assert i < |visited| ==> visited[i..][0] == visited[i] && visited[i..][0] in visited[i..];
    assert kids[..count] + [] == kids[..count];
  }

  lemma TrackNext(f: Forest<FileEntry>, visited: seq<FileEntry>, i: nat, o: ViewOptions, count: nat,
                  unknown: int, free: int, kids: seq<Picture>, all: seq<Picture>, kids': seq<Picture>)
    requires OnTrack(f, visited, i, o, count, unknown, free, kids, all)
    requires i < |visited| && visited[i] in f && count < MAX_CHILD_COUNT && f[visited[i]].size >= o.minSize
    requires var size := f[visited[i]].size;
             var space := Space(UnknownSpace, unknown, size) + Space(AvailableSpace, free, size);
             && count + |space| + 1 <= |kids'|
             && kids'[..count + |space| + 1] == kids[..count] + (space + [Built(f, visited[i], Deeper(o))])
    ensures var size := f[visited[i]].size;
            var space := Space(UnknownSpace, unknown, size) + Space(AvailableSpace, free, size);
            OnTrack(f, visited, i + 1, o, count + |space| + 1, SpaceLeft(unknown, size), SpaceLeft(free, size), kids',
                all)
  {
    assert visited[i..][0] == visited[i] && visited[i..][1..] == visited[i + 1..];
    assert visited[i..][0] in visited[i..];
    var size := f[visited[i]].size;
    var space := Space(UnknownSpace, unknown, size) + Space(AvailableSpace, free, size);
    OneFilled(f, visited[i..], o, count, unknown, free);
    hide Space, SpaceLeft, Built, Filled;
    Regroup(kids[..count], space + [Built(f, visited[i], Deeper(o))],
            Filled(f, visited[i + 1..], o, count + |space| + 1, SpaceLeft(unknown, size), SpaceLeft(free, size)));
  }

  lemma DeeperFalls(o: ViewOptions)
    requires o.nestLevel > 0
    ensures LevelOf(Deeper(o)) < LevelOf(o)
  {
  }

  lemma SpaceIs(unknown: int, free: int, size: int)
    ensures IsSpace(UnknownSpace) && IsSpace(AvailableSpace)
    ensures Space(UnknownSpace, unknown, size) == if unknown > size then [Picture("", UnknownSpace, unknown, [], true)]
              else []
    ensures Space(AvailableSpace, free, size) == if free > size then [Picture("", AvailableSpace, free, [], true)]
              else []
    ensures SpaceLeft(unknown, size) == if unknown > size then 0 else unknown
    ensures SpaceLeft(free, size) == if free > size then 0 else free
  {
  }

  function PictureSizes(kids: seq<Picture>): seq<int> {
    seq(|kids|, i requires 0 <= i < |kids| => kids[i].size)
  }

  /** Any run of children of a view is split between the two bins in the best balanced way. */
  lemma ViewBalances<E>(f: Forest<E>, root: E, e: E, o: ViewOptions, start: nat, end: nat, k: nat)
    requires Sound(f, root) && e in f && forall c :: c in f ==> f[c].size >= 0
    requires start < end < |Built(f, e, o).kids| && 1 <= k <= end + 1 - start
    ensures var sizes := PictureSizes(Built(f, e, o).kids)[start..end + 1];
            NonNegative(sizes) && Imbalance(sizes, FirstBin(sizes)) <= Imbalance(sizes, k)
  {
    SizesEndInZeros(f, root, e, o);
    hide Sound, Built, FirstBin, Imbalance;
    FirstBinBalances(PictureSizes(Built(f, e, o).kids)[start..end + 1]);
  }

  lemma VisitedAre(S: set<FileEntry>, e: FileEntry, visited: seq<FileEntry>)
    requires e in S && AllIn(Snap(S), Flat(e.bins)) && visited == Until(Flat(e.bins), (child: FileEntry) => true)
    ensures visited == Flat(e.bins) && forall c :: c in visited ==> c in S
  {
    UntilAll(Flat(e.bins), (child: FileEntry) => true);
  }

  lemma ShownIs(v: FileEntryView)
    requires v.Valid()
    ensures v.Shown() == Picture(v.name, v.entryType, v.size, v.Kids(), Empty(v.drawArea) || IsSpace(v.entryType))
    ensures v.children == [] ==> v.Kids() == []
  {
  }

  /** Exactly the entries to which there is a way that fits are shown, each under its chain of names. */
  lemma BuiltShows(f: Forest<FileEntry>, e: FileEntry, o: ViewOptions, root: FileEntry)
    requires Sound(f, root) && e in f
    ensures Housed(f)
    ensures Named(f) && AllSizes(f) ==>
              && (forall way: seq<FileEntry> :: IsWay(f, e, way) ==> ShowsWay(f, e, o, way, Built(f, e, o)))
              && (forall names, kind, size :: ShownUnder(Built(f, e, o), names, kind, size) ==>
                    exists way: seq<FileEntry> :: IsEntry(f, e, names, kind, size, way))
  {
    hide *;
    SoundIsHoused(f, root);
    if Named(f) && AllSizes(f) {
      forall way | IsWay(f, e, way)
        ensures ShowsWay(f, e, o, way, Built(f, e, o))
      {
        BuiltShowsWay(f, root, e, o, way);
      }
      forall names, kind, size | ShownUnder(Built(f, e, o), names, kind, size)
        ensures exists way: seq<FileEntry> :: IsEntry(f, e, names, kind, size, way)
      {
        var way := OnlyEntries(f, root, e, o, names, kind, size);
        EntryAt(f, e, names, kind, size, way);
      }
    }
  }

  lemma SoundIsHoused<E>(f: Forest<E>, root: E)
    requires Sound(f, root)
    ensures Housed(f)
  {
  }

  lemma EntryAt<E>(f: Forest<E>, e: E, names: seq<string>, kind: Kind, size: int, way: seq<E>)
    requires e in f && IsWay(f, e, way) && (forall c :: c in way ==> c in f) && WayNames(f, way) == names
    requires WayEnd(e, way) in f && kind == KindOf(f[WayEnd(e, way)].dir) && size == f[WayEnd(e, way)].size
    ensures IsEntry(f, e, names, kind, size, way)
  {
    hide IsWay, WayNames;
  }

  lemma BuiltIs(f: Forest<FileEntry>, e: FileEntry, o: ViewOptions)
    requires Housed(f) && e in f
    ensures AllIn(f, Flat(f[e].bins))
    ensures Built(f, e, o) == Picture(f[e].name, if f[e].dir then Directory else File, f[e].size,
              if o.nestLevel > 0 then Filled(f, Flat(f[e].bins), o, 0, o.unknownSpace, o.freeSpace) else [], true)
  {
    KidsIn(f, e);
  }

  lemma NoArea(r: Rect)
    requires r.w == 0
    ensures Empty(r)
  {
  }

  /** The children of `v` are as they were. */
  lemma SameValid(v: FileEntryView, cs: seq<FileEntryView>, pics: seq<Picture>)
    requires v.children == cs && |cs| == |pics| && v in v.repr
    requires forall i :: 0 <= i < |cs| ==>
               && cs[i].Valid() && cs[i].parent == v && cs[i] in v.repr && v !in cs[i].repr
               && cs[i].repr <= v.repr && cs[i].Shown() == pics[i]
    requires forall i, j :: 0 <= i < |cs| && 0 <= j < |cs| && i != j ==> cs[i].repr !! cs[j].repr
    ensures v.Valid() && v.Kids() == pics
  {
  }

  lemma LeafValid(v: FileEntryView)
    requires v in v.repr && v.children == []
    ensures v.Valid()
    ensures v.Shown() == Picture(v.name, v.entryType, v.size, [], Empty(v.drawArea) || IsSpace(v.entryType))
  {
  }

  /** The child at `k` of `v`, which used to have the children `cs`, has been replaced. */
  lemma PutValid(v: FileEntryView, cs: seq<FileEntryView>, pics: seq<Picture>, k: nat)
    requires k <= |cs| == |pics| && k < |v.children| && v in v.repr
    requires |v.children| == if k < |cs| then |cs| else |cs| + 1
    requires forall i :: 0 <= i < |cs| && i != k ==>
               && v.children[i] == cs[i] && cs[i].Valid() && cs[i].parent == v && cs[i] in v.repr && v !in cs[i].repr
               && cs[i].repr <= v.repr && cs[i].Shown() == pics[i] && cs[i].repr !! v.children[k].repr
    requires forall i, j :: 0 <= i < |cs| && 0 <= j < |cs| && i != j && i != k && j != k ==> cs[i].repr !! cs[j].repr
    requires v.children[k].Valid() && v.children[k].parent == v && v !in v.children[k].repr &&
             v.children[k].repr <= v.repr
    ensures v.Valid() && v.Kids() == Replaced(pics, k, v.children[k].Shown())
    ensures |v.Kids()| == |v.children| && v.Kids()[..k + 1] == pics[..k] + [v.children[k].Shown()]
  {
  }

  // ------------------------------------------------------------- facts on layout

  /** `s` with `part` in place of what was at `i`. */
  ghost function Splice<T>(s: seq<T>, i: nat, part: seq<T>): seq<T>
    requires i + |part| <= |s|
  {
    s[..i] + part + s[i + |part|..]
  }

  /** The areas of a group of children in its part. */
  ghost function GroupAreas(sizes: seq<int>, areas: seq<Rect>, r: Rect): (out: seq<Rect>)
    requires |sizes| == |areas| > 0 && NonNegative(sizes)
    ensures |out| == |sizes|
  {
    if |sizes| > 1 then Allocated(sizes, areas, r) else [SetArea(r)]
  }

  lemma GroupAreasAre(sizes: seq<int>, areas: seq<Rect>, r: Rect)
    requires |sizes| == |areas| > 0 && NonNegative(sizes)
    ensures GroupAreas(sizes, areas, r) == if |sizes| > 1 then Allocated(sizes, areas, r) else [SetArea(r)]
  {
  }

  /** The areas of children of which the first `k` get one part, and the others another. */
  ghost function PartsAllocated(sizes: seq<int>, areas: seq<Rect>, k: nat, p: (Rect, Rect)): (out: seq<Rect>)
    requires |sizes| == |areas| && 1 <= k < |sizes| && NonNegative(sizes)
    ensures |out| == |sizes|
  {
    GroupAreas(sizes[..k], areas[..k], p.0) + GroupAreas(sizes[k..], areas[k..], p.1)
  }

  lemma PartsIs(sizes: seq<int>, areas: seq<Rect>, k: nat, p: Rect, q: Rect)
    requires |sizes| == |areas| && 1 <= k < |sizes| && NonNegative(sizes)
    ensures NonNegative(sizes[..k]) && NonNegative(sizes[k..])
    ensures PartsAllocated(sizes, areas, k, (p, q)) ==
              GroupAreas(sizes[..k], areas[..k], p) + GroupAreas(sizes[k..], areas[k..], q)
    ensures |GroupAreas(sizes[..k], areas[..k], p)| == k && |GroupAreas(sizes[k..], areas[k..], q)| == |sizes| - k
  {
  }

  lemma PartsSizes(all: seq<int>, start: nat, end: nat, k: nat)
    requires start <= end < |all| && k <= end + 1 - start
    ensures all[start..end + 1][..k] == all[start..start + k] && all[start..end + 1][k..] == all[start + k..end + 1]
  {
  }

  lemma FirstHalf(all: seq<Rect>, start: nat, end: nat, k: nat)
    requires start <= end < |all| && k <= end + 1 - start
    ensures all[start..end + 1][..k] == all[start..start + k]
  {
  }

  lemma SecondHalf(all: seq<Rect>, half: seq<Rect>, start: nat, end: nat, a: seq<Rect>)
    requires start <= end < |all| && |a| <= end + 1 - start && half == Splice(all, start, a)
    ensures |half| == |all| && half[start + |a|..end + 1] == all[start..end + 1][|a|..]
  {
  }

  lemma BothHalves(all: seq<Rect>, half: seq<Rect>, now: seq<Rect>, start: nat, a: seq<Rect>, b: seq<Rect>)
    requires start + |a| + |b| <= |all| && half == Splice(all, start, a) && now == Splice(half, start + |a|, b)
    ensures now == Splice(all, start, a + b)
  {
  }

  lemma PartsAre(r: Rect, sum1: int, sum2: int, weight1: int, weight2: int)
    requires !Empty(r) && sum1 >= 0 && sum2 >= 0
    requires if sum1 == 0 && sum2 == 0 then weight1 == 1 && weight2 == 1 else weight1 == sum1 && weight2 == sum2
    ensures weight1 + weight2 > 0
    ensures var m, n := (r.w * weight1) / (weight1 + weight2), (r.h * weight1) / (weight1 + weight2);
            Parts(r, sum1, sum2) ==
              if r.w >= r.h then (Rect(r.x, r.y, m, r.h), Rect(r.x + m, r.y, r.w - m, r.h))
              else (Rect(r.x, r.y, r.w, n), Rect(r.x, r.y + n, r.w, r.h - n))
  {
  }

  lemma SomeArea(r: Rect)
    requires !Empty(r)
    ensures r.w >= 1 && r.h >= 1
  {
  }

  lemma EmptyIs(r: Rect)
    ensures Empty(r) <==> r.w < 1 || r.h < 1
  {
  }

  lemma AllocatedNone(sizes: seq<int>, areas: seq<Rect>, r: Rect)
    requires |sizes| == |areas| > 0 && NonNegative(sizes) && (r.h < 1 || r.w < 1)
    ensures Allocated(sizes, areas, r) == areas
  {
  }

  lemma AllocatedOne(sizes: seq<int>, areas: seq<Rect>, r: Rect)
    requires |sizes| == |areas| == 1 && NonNegative(sizes) && !Empty(r)
    ensures Allocated(sizes, areas, r) == [SetArea(r)]
  {
  }

  lemma SpliceSame<T>(s: seq<T>, i: nat, j: nat)
    requires i <= j <= |s|
    ensures Splice(s, i, s[i..j]) == s
  {
  }

  /** What is shown, and how the rest is hidden. */
  lemma ShownAre(sizes: seq<int>, areas: seq<Rect>, r: Rect, n: nat)
    requires |sizes| == |areas| > 1 && NonNegative(sizes) && !Empty(r) && r.h * r.w > 0
    requires n == ShownFrom(sizes, Sum(sizes) * (MIN_CHILD_PIXEL_AREA / (r.h * r.w)), 0)
    ensures 2 <= n <= |sizes| && NonNegative(sizes[..n])
    ensures var k := FirstBin(sizes[..n]);
            && 1 <= k < n
            && Sum(sizes[..n][..k]) >= 0 && Sum(sizes[..n][k..]) >= 0
            && Allocated(sizes, areas, r) ==
               PartsAllocated(sizes[..n], areas[..n], k, Parts(r, Sum(sizes[..n][..k]), Sum(sizes[..n][k..]))) +
                   Hidden(areas[n..])
  {
    FirstBinPart(sizes[..n]);
    var k := FirstBin(sizes[..n]);
    SumIsNonNegative(sizes[..k]);
    SumIsNonNegative(sizes[k..n]);
    assert sizes[..n][..k] == sizes[..k] && sizes[..n][k..] == sizes[k..n];
    assert areas[..n][..k] == areas[..k] && areas[..n][k..] == areas[k..n];
  }

  lemma HiddenFrom(all: seq<Rect>, hidden: seq<Rect>, start: nat, newEnd: nat, end: nat)
    requires start <= newEnd <= end + 1 <= |all|
    requires hidden == Splice(all, newEnd, Hidden(all[newEnd..end + 1]))
    ensures |hidden| == |all| && hidden[start..newEnd] == all[start..newEnd] == all[start..end + 1][..newEnd - start]
    ensures all[start..end + 1][newEnd - start..] == all[newEnd..end + 1]
  {
  }

  /** Hiding some and then dividing among the others. */
  lemma SpliceBoth(all: seq<Rect>, hidden: seq<Rect>, now: seq<Rect>, start: nat, newEnd: nat, end: nat,
                   part: seq<Rect>)
    requires start <= newEnd <= end + 1 <= |all| && |part| == newEnd - start
    requires hidden == Splice(all, newEnd, Hidden(all[newEnd..end + 1])) && now == Splice(hidden, start, part)
    ensures now == Splice(all, start, part + Hidden(all[newEnd..end + 1]))
  {
  }

  lemma SumNext(s: seq<int>, start: nat, i: nat)
    requires start <= i < |s|
    ensures Sum(s[start..i + 1]) == Sum(s[start..i]) + s[i]
  {
    assert s[start..i + 1] == s[start..i] + [s[i]];
    SumConcat(s[start..i], [s[i]]);
    assert [s[i]][1..] == [];
  }

  lemma BinStarts(all: seq<int>, start: nat, end: nat)
    requires start < end < |all|
    ensures var sizes := all[start..end + 1];
            && sizes[1..] == all[start + 1..end + 1] && Sum(sizes[..1]) == sizes[0] == all[start]
            && FirstBin(sizes) == BinFrom(sizes, 1, sizes[0], Sum(sizes[1..]))
  {
    var sizes := all[start..end + 1];
    assert sizes[..1][1..] == [];
  }

  lemma SizesAre(v: FileEntryView)
    ensures |v.Sizes()| == |v.children| == |v.Areas()|
    ensures forall i :: 0 <= i < |v.children| ==>
              v.Sizes()[i] == v.children[i].size && v.Areas()[i] == v.children[i].drawArea
  {
  }

  lemma SeparateIs(v: FileEntryView)
    requires v.Separate()
    ensures forall i, j :: 0 <= i < |v.children| && 0 <= j < |v.children| && i != j ==> v.children[i] != v.children[j]
  {
  }

  lemma SetOne(v: FileEntryView, all: seq<Rect>, i: nat, r: Rect)
    requires |all| == |v.children| && i < |all|
    requires forall j :: 0 <= j < |all| && j != i ==> v.children[j].drawArea == all[j]
    requires v.children[i].drawArea == if r.w < 1 || r.h < 1 then r.(w := 0, h := 0) else r
    ensures v.Areas() == Splice(all, i, [SetArea(r)])
  {
  }

  lemma HiddenSome(v: FileEntryView, all: seq<Rect>, newEnd: nat, end: nat)
    requires |all| == |v.children| && newEnd <= end + 1 <= |all|
    requires forall j :: 0 <= j < |all| ==>
               v.children[j].drawArea == if newEnd <= j < end + 1 then all[j].(w := 0, h := 0) else all[j]
    ensures v.Areas() == Splice(all, newEnd, Hidden(all[newEnd..end + 1]))
  {
  }

  lemma BinStep(sizes: seq<int>, i: nat, sum1: int, sum2: int)
    requires i <= |sizes|
    ensures BinFrom(sizes, i, sum1, sum2) ==
            if i < |sizes| && Abs(sum2 - sum1 - sizes[i] * 2) < Abs(sum2 - sum1) then
              BinFrom(sizes, i + 1, sum1 + sizes[i], sum2 - sizes[i])
            else i
  {
  }

  /** One more child in the first bin. */
  lemma BinNext(sizes: seq<int>, i: nat)
    requires i < |sizes|
    ensures Sum(sizes[..i + 1]) == Sum(sizes[..i]) + sizes[i]
    ensures Sum(sizes[i + 1..]) == Sum(sizes[i..]) - sizes[i]
  {
    SumNext(sizes, 0, i);
    assert sizes[0..i + 1] == sizes[..i + 1] && sizes[0..i] == sizes[..i];
    assert sizes[i..][1..] == sizes[i + 1..];
  }

  lemma BoxIs(v: FileEntryView)
    requires v.Valid()
    ensures v.AsBox().size == v.size && v.AsBox().area == v.drawArea && |v.AsBox().kids| == |v.children|
    ensures forall i :: 0 <= i < |v.children| ==> (ValidHas(v, i); v.AsBox().kids[i] == v.children[i].AsBox())
    ensures forall i :: 0 <= i < |v.children| ==>
              v.AsBox().kids[i].size == v.children[i].size && v.AsBox().kids[i].area == v.children[i].drawArea
  {
    forall i | 0 <= i < |v.children|
      ensures v.AsBox().kids[i].size == v.children[i].size && v.AsBox().kids[i].area == v.children[i].drawArea
    {
      ValidHas(v, i);
    }
  }

  lemma SmallIs(b: Box, r: Rect, titleHeight: int)
    requires Sane(b)
    ensures b.kids == [] || r.h < titleHeight || r.w < 1 ==> Laid(b, r, titleHeight) == b
  {
  }

  lemma InnerIs(r: Rect, titleHeight: int)
    ensures Inner(r, titleHeight) == Rect(r.x + 2, r.y + titleHeight + 2, r.w - 4, r.h - (titleHeight + 2 + 2))
  {
  }

  lemma BoxSeparate(v: FileEntryView)
    requires v.Valid()
    ensures v.Separate()
  {
    ValidAll(v);
  }

  lemma BoxDivided(v: FileEntryView, b: Box, r: Rect)
    requires v.Valid() && b == v.AsBox() && Sane(b) && b.kids != []
    ensures v.Sizes()[0..|v.children|] == SizesOf(b.kids) && v.Areas()[0..|v.children|] == AreasOf(b.kids)
    ensures NonNegative(SizesOf(b.kids)) && |Divided(b, r)| == |v.children|
    ensures forall i :: 0 <= i < |v.children| ==>
              Divided(b, r)[i].area == Allocated(SizesOf(b.kids), AreasOf(b.kids), r)[i]
    ensures |v.Areas()| == |v.children| == |Allocated(SizesOf(b.kids), AreasOf(b.kids), r)|
    ensures Splice(v.Areas(), 0, Allocated(SizesOf(b.kids), AreasOf(b.kids), r)) ==
              Allocated(SizesOf(b.kids), AreasOf(b.kids), r)
    ensures forall i :: 0 <= i < |v.children| ==>
              (ValidHas(v, i); v.children[i].Below() == Divided(b, r)[i].kids &&
                v.children[i].size == Divided(b, r)[i].size)
  {
    hide *;
    SaneSizes(b);
    BoxIs(v);
    SizesAre(v);
    DividedIs(b, r);
    assert v.Sizes()[0..|v.children|] == SizesOf(b.kids) && v.Areas()[0..|v.children|] == AreasOf(b.kids);
    SpliceAll(v.Areas(), Allocated(SizesOf(b.kids), AreasOf(b.kids), r));
    forall i | 0 <= i < |v.children|
      ensures (ValidHas(v, i); v.children[i].Below() == b.kids[i].kids && v.children[i].size == b.kids[i].size)
    {
      ValidHas(v, i);
      BoxBelow(v.children[i]);
    }
  }

  lemma DividedIs(b: Box, r: Rect)
    requires Sane(b) && b.kids != []
    ensures NonNegative(SizesOf(b.kids))
    ensures var areas := Allocated(SizesOf(b.kids), AreasOf(b.kids), r);
            |areas| == |b.kids| && Divided(b, r) == seq(|b.kids|,
                i requires 0 <= i < |b.kids| => b.kids[i].(area := areas[i]))
  {
    SaneSizes(b);
  }

  lemma SpliceAll<T>(s: seq<T>, part: seq<T>)
    requires |part| == |s|
    ensures Splice(s, 0, part) == part
  {
  }

  /** The children with their new areas. */
  lemma KidsDivided(v: FileEntryView, kids: seq<Box>)
    requires v.Valid() && |kids| == |v.children|
    requires forall i :: 0 <= i < |kids| ==>
               (ValidHas(v, i); v.children[i].Below() == kids[i].kids && v.children[i].size == kids[i].size &&
                 v.children[i].drawArea == kids[i].area)
    ensures v.AsBox().kids == kids
  {
    BoxIs(v);
    forall i | 0 <= i < |kids|
      ensures v.AsBox().kids[i] == kids[i]
    {
      ValidHas(v, i);
    }
  }

  lemma AllSane(b: Box)
    requires forall k :: k in b.kids ==> Sane(k)
    ensures forall i :: 0 <= i < |b.kids| ==> Sane(b.kids[i])
  {
  }

  lemma BoxBelow(v: FileEntryView)
    requires v.Valid()
    ensures v.AsBox() == Box(v.size, v.drawArea, v.Below())
  {
  }

  /** Dividing among children only depends on the children. */
  lemma SameDivided(b: Box, c: Box, r: Rect)
    requires Sane(b) && b.kids != [] && b.kids == c.kids
    ensures Sane(c) && Divided(c, r) == Divided(b, r)
    ensures forall k :: k in Divided(b, r) ==> Sane(k)
  {
    SameSane(b, c);
    forall i | 0 <= i < |b.kids|
      ensures Sane(Divided(b, r)[i])
    {
      assert b.kids[i] in b.kids;
      SameSane(Divided(b, r)[i], b.kids[i]);
    }
  }

  lemma LaidIs(b: Box, r: Rect, titleHeight: int, out: Box)
    requires Sane(b) && !(b.kids == [] || r.h < titleHeight || r.w < 1)
    requires out.size == b.size && out.area == r && |out.kids| == |b.kids|
    requires forall k :: k in Divided(b, Inner(r, titleHeight)) ==> Sane(k)
    requires forall i :: 0 <= i < |b.kids| ==>
               var kid := Divided(b, Inner(r, titleHeight))[i];
               (assert kid in Divided(b, Inner(r, titleHeight)); out.kids[i] == Laid(kid, kid.area, titleHeight))
    ensures out == Laid(b, r, titleHeight)
  {
    hide Sane, Inner, Divided;
    assert out.kids == Laid(b, r, titleHeight).kids;
  }
}
