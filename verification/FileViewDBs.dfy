/** The view that is on the screen: made anew or reused, and laid out, at every update. */
module FileViewDBs {
  import opened SizeBins
  import opened Forest
  import opened FileEntries
  import opened Trees
  import opened Pictures
  import opened Glimpses
  import opened Treemap
  import opened Tilings
  import opened Layouts
  import opened Shares
  import opened FileEntryViews

  /** The layout and the picture are of the same view. */
  ghost predicate Agrees(b: Box, p: Picture) {
    && b.size == p.size && |b.kids| == |p.kids|
    && (p.cleared && !IsSpace(p.kind) ==> Empty(b.area))
    && forall i :: 0 <= i < |b.kids| ==> Agrees(b.kids[i], p.kids[i])
  }

  lemma {:induction false} BoxAgrees(v: FileEntryView)
    requires v.Valid()
    ensures Agrees(v.AsBox(), v.Shown())
    decreases v.repr
  {
    forall i | 0 <= i < |v.children|
      ensures v.children[i] in v.children && Agrees(v.children[i].AsBox(), v.children[i].Shown())
    {
      assert v.children[i] in v.children;
      BoxAgrees(v.children[i]);
    }
    hide Agrees;
    assert |v.AsBox().kids| == |v.children| == |v.Shown().kids|;
    forall i | 0 <= i < |v.children|
      ensures Agrees(v.AsBox().kids[i], v.Shown().kids[i])
    {
      assert v.children[i] in v.children;
      assert v.AsBox().kids[i] == v.children[i].AsBox() && v.Shown().kids[i] == v.children[i].Shown();
    }
    AgreesNow(v.AsBox(), v.Shown());
  }

  lemma AgreesNow(b: Box, p: Picture)
    requires b.size == p.size && |b.kids| == |p.kids| && (p.cleared && !IsSpace(p.kind) ==> Empty(b.area))
    requires forall i :: 0 <= i < |b.kids| ==> Agrees(b.kids[i], p.kids[i])
    ensures Agrees(b, p)
  {
  }

  /** Views of files have no area at first, at any depth. */
  lemma {:induction false} FilesBlank(b: Box, p: Picture)
    requires Agrees(b, p) && OnlyFiles(p)
    ensures Empty(b.area) && Blank(b) && Sane(b)
    decreases b
  {
    forall k | k in b.kids
      ensures Empty(k.area) && Blank(k) && Sane(k) && k.size >= 0
    {
      var i :| 0 <= i < |b.kids| && b.kids[i] == k;
      assert p.kids[i] in p.kids;
      FilesBlank(k, p.kids[i]);
    }
  }

  lemma ChildBlank(b: Box, p: Picture)
    requires Agrees(b, p) && ChildOk(p)
    ensures Blank(b) && Sane(b) && b.size >= 0 && (b.size == 0 ==> Empty(b.area)) && (b.kids == [] || Empty(b.area))
  {
    if OnlyFiles(p) {
      FilesBlank(b, p);
    }
  }

  /** A view that has just been made to show an entry is ready for its layout, whatever it showed before. */
  lemma BuiltRenewed<E>(b: Box, f: Forest<E>, root: E, e: E, o: ViewOptions)
    requires Sound(f, root) && e in f && AllSizes(f) && Agrees(b, Built(f, e, o))
    ensures Renewed(b)
  {
    KidsOrdered(f, root, e, o);
    var p := Built(f, e, o);
    assert p.cleared && !IsSpace(p.kind);
    hide Built, Sound;
    forall i | 0 <= i < |b.kids|
      ensures Blank(b.kids[i]) && Sane(b.kids[i]) && b.kids[i].size == p.kids[i].size >= 0
      ensures b.kids[i].size == 0 || b.kids[i].kids != [] ==> Empty(b.kids[i].area)
    {
      assert p.kids[i] in p.kids;
      ChildBlank(b.kids[i], p.kids[i]);
    }
    hide Agrees, Blank, OnlyFiles, ChildOk;
    assert forall k :: k in b.kids ==> exists i :: 0 <= i < |b.kids| && b.kids[i] == k;
  }

  /** A picture with nothing left of earlier layouts is its own sketch. */
  lemma {:induction false} AlreadyCleared(p: Picture)
    requires p.cleared && AllCleared(p.kids)
    ensures Cleared(p) == p
    decreases p
  {
    forall i | 0 <= i < |p.kids|
      ensures Cleared(p.kids[i]) == p.kids[i]
    {
      assert p.kids[i] in p.kids;
      AlreadyCleared(p.kids[i]);
    }
    assert Cleared(p).kids == p.kids;
  }

  /**
   The area of every child of a view on the screen is its share of what title and border leave, give or
   take as many times the shorter side as there are other children, and fifty pixels.
   */
  lemma ScreenShares(b: Box, r: Rect, titleHeight: int, i: nat)
    requires Renewed(b) && titleHeight >= 0 && i < |b.kids| && r.w > 4 && r.h > titleHeight + 4
    ensures Sane(b) && |Laid(b, r, titleHeight).kids| == |b.kids|
    ensures var w, h, area, total := r.w - 4, r.h - titleHeight - 4, Area(Laid(b, r, titleHeight).kids[i].area),
                                     Sum(SizesOf(b.kids));
            var most := ((|b.kids| - 1) * (if w >= h then h else w) + 50) * total;
            -most <= area * total - b.kids[i].size * (w * h) <= most
  {
    hide *;
    RenewedIs(b);
    var inner := Inner(r, titleHeight);
    InnerSides(r, titleHeight);
    BigEnough(b, r, titleHeight);
    LaidBox(b, r, titleHeight);
    LaidAreas(b, r, titleHeight);
    DividedAreas(b, inner);
    SomeKids(b, r, titleHeight);
    AreaShare(SizesOf(b.kids), AreasOf(b.kids), inner, i);
    KidAt(b.kids, i);
    KidAt(Laid(b, r, titleHeight).kids, i);
  }

  lemma InnerSides(r: Rect, titleHeight: int)
    ensures Inner(r, titleHeight).w == r.w - 4 && Inner(r, titleHeight).h == r.h - titleHeight - 4
    ensures r.w > 4 && r.h > titleHeight + 4 ==> !Empty(Inner(r, titleHeight))
  {
  }

  lemma BigEnough(b: Box, r: Rect, titleHeight: int)
    requires b.kids != [] && r.w > 4 && r.h > titleHeight + 4
    ensures !TooSmall(b, r, titleHeight)
  {
  }

  lemma KidAt(kids: seq<Box>, i: nat)
    requires i < |kids|
    ensures |SizesOf(kids)| == |AreasOf(kids)| == |kids| && SizesOf(kids)[i] == kids[i].size
    ensures AreasOf(kids)[i] == kids[i].area
  {
  }

  // ------------------------------------------------------- space that sticks out

  /** The layout of a picture where nothing has an area. */
  function Unlaid(p: Picture): (b: Box) {
    Box(p.size, Rect(0, 0, 0, 0), seq(|p.kids|, i requires 0 <= i < |p.kids| => Unlaid(p.kids[i])))
  }

  lemma {:induction false} UnlaidAgrees(p: Picture)
    ensures Agrees(Unlaid(p), p)
    decreases p
  {
    forall i | 0 <= i < |p.kids|
      ensures Agrees(Unlaid(p).kids[i], p.kids[i])
    {
      UnlaidAgrees(p.kids[i]);
    }
  }

  /** The same, but for the first child, which is still at `a`. */
  function WithOldFirst(p: Picture, a: Rect): Box
    requires p.kids != []
  {
    var b := Unlaid(p);
    b.(kids := [b.kids[0].(area := a)] + b.kids[1..])
  }

  lemma OldFirstAgrees(p: Picture, a: Rect)
    requires p.kids != [] && IsSpace(p.kids[0].kind)
    ensures Agrees(WithOldFirst(p, a), p) && WithOldFirst(p, a).kids != [] && WithOldFirst(p, a).kids[0].area == a
  {
    UnlaidAgrees(p);
    var b, c := Unlaid(p), WithOldFirst(p, a);
    hide Unlaid;
    forall i | 0 <= i < |c.kids|
      ensures Agrees(c.kids[i], p.kids[i])
    {
      assert Agrees(b.kids[i], p.kids[i]);
    }
  }

  /** Unknown space that is more than the largest child comes first in a view. */
  lemma UnknownFirst<E>(f: Forest<E>, root: E, e: E, o: ViewOptions)
    requires Sound(f, root) && e in f && o.nestLevel > 0 && f[e].bins != []
    requires o.minSize <= f[e].bins[0].size < o.unknownSpace
    ensures Housed(f) && Built(f, e, o).kids != [] && Built(f, e, o).kids[0].kind == UnknownSpace
  {
    KidsFall(f, root, e);
    var bins := f[e].bins;
    var list := Flat(bins);
    assert Binned(f, e);
    assert bins[0].chain != [] && list[0] == bins[0].chain[0] && list[0] in list;
    assert FiledAt(bins, bins[0].size, list[0]);
    Kin(f, e, bins[0].size, list[0]);
    assert Placed(f, root, root);
    OneFilled(f, list, o, 0, o.unknownSpace, o.freeSpace);
  }

  /**
   A view of any directory whose largest child is smaller than the unknown space: in a window too
   small for title and border the space keeps the area that it had, and sticks out.
   */
  lemma SpaceSticksOut<E>(f: Forest<E>, root: E, e: E, o: ViewOptions, a: Rect, r: Rect, titleHeight: int)
    requires Sound(f, root) && AllSizes(f) && e in f && o.nestLevel > 0 && f[e].bins != []
    requires o.minSize <= f[e].bins[0].size < o.unknownSpace
    requires !Empty(a) && titleHeight >= 0 && Empty(Inner(r, titleHeight))
    ensures Built(f, e, o).kids != []
    ensures var b := WithOldFirst(Built(f, e, o), a);
            && Agrees(b, Built(f, e, o)) && Renewed(b) && Sane(b)
            && !Nested(Laid(b, r, titleHeight), titleHeight)
  {
    hide *;
    UnknownFirst(f, root, e, o);
    var p := Built(f, e, o);
    UnknownIsSpace();
    OldFirstAgrees(p, a);
    var b := WithOldFirst(p, a);
    BuiltRenewed(b, f, root, e, o);
    RenewedNested(b, r, titleHeight);
    FirstArea(b, a);
  }

  lemma UnknownIsSpace()
    ensures IsSpace(UnknownSpace)
  {
  }

  lemma FirstArea(b: Box, a: Rect)
    ensures b.kids != [] && b.kids[0].area == a && !Empty(a) ==> !AllEmpty(AreasOf(b.kids))
  {
    if b.kids != [] {
      assert AreasOf(b.kids)[0] == b.kids[0].area;
    }
  }

  // --------------------------------------------------------------- the view database

  class FileViewDB {
    var rootFile: FileEntryView?
    var viewRect: Rect
    var textHeight: nat

    ghost predicate Valid()
      reads this, rootFile, if rootFile == null then {} else rootFile.repr
    {
      rootFile != null ==> rootFile.Valid()
    }

    constructor (viewRect: Rect, textHeight: nat)
      ensures Valid() && rootFile == null && this.viewRect == viewRect && this.textHeight == textHeight
    {
      rootFile, this.viewRect, this.textHeight := null, viewRect, textHeight;
    }

    /** Shows `entry`, which is what the database finds for the path of the view. */
    method Update(entry: FileEntry?, options: ViewOptions, ghost S: set<FileEntry>, ghost root: FileEntry)
      returns (hasChanges: bool)
      requires Valid() && AllLinked(S) && Sound(Snap(S), root) && AllSizes(Snap(S)) && (entry != null ==> entry in S)
      modifies this, if rootFile == null then {} else rootFile.repr
      ensures Valid() && hasChanges == (entry != null) && viewRect == old(viewRect) && textHeight == old(textHeight)
      ensures !hasChanges ==> unchanged(this) && (rootFile != null ==> unchanged(old(rootFile.repr)))
      ensures hasChanges ==> rootFile != null && rootFile.Valid() && Housed(Snap(S)) && entry in Snap(S)
      ensures hasChanges ==>
                var o := if entry.parent != null then options.(unknownSpace := 0, freeSpace := 0) else options;
                && rootFile.Sketch() == Built(Snap(S), entry, o)
                && (Named(Snap(S)) ==>
                      forall way: seq<FileEntry> :: IsWay(Snap(S), entry, way) ==>
                        ShowsWay(Snap(S), entry, o, way, rootFile.Sketch()))
      ensures hasChanges && rootFile.children != [] && !Empty(Inner(viewRect, (textHeight * 3) / 2)) ==>
                rootFile.drawArea == viewRect
      ensures hasChanges ==> Tiled(rootFile.AsBox(), (textHeight * 3) / 2)
      ensures hasChanges && !Empty(Inner(viewRect, (textHeight * 3) / 2)) ==>
                Nested(rootFile.AsBox(), (textHeight * 3) / 2)
    {
      hide *;
      if entry == null {
        return false;
      }
      ValidNow(this);
      var o := options;
      if entry.parent != null {
        o := o.(unknownSpace := 0, freeSpace := 0);
      }
      if rootFile == null {
        rootFile := FileEntryView.CreateView(entry, o, S, root);
      } else {
        rootFile.ReconstructFrom(entry, o, S, root);
      }
      ghost var b := rootFile.AsBox();
      BoxAgrees(rootFile);
      SketchIs(rootFile);
      BuiltCleared(Snap(S), entry, o);
      AlreadyCleared(rootFile.Shown());
      BuiltRenewed(b, Snap(S), root, entry, o);
      RenewedNested(b, viewRect, (textHeight * 3) / 2);
      RenewedTiled(b, viewRect, (textHeight * 3) / 2);
      rootFile.AllocateView(viewRect, (textHeight * 3) / 2);
      BoxArea(rootFile, b, viewRect, (textHeight * 3) / 2);
      BuiltShows(Snap(S), entry, o, root);
      ValidNow(this);
      hasChanges := true;
    }
  }

  /** A view that is large enough takes all of its rectangle. */
  lemma BoxArea(v: FileEntryView, b: Box, r: Rect, titleHeight: int)
    requires v.Valid() && Sane(b) && v.AsBox() == Laid(b, r, titleHeight)
    ensures v.children != [] && !Empty(Inner(r, titleHeight)) && titleHeight >= 0 ==> v.drawArea == r
  {
    LaidArea(b, r, titleHeight);
    assert |v.AsBox().kids| == |v.children|;
    hide Laid;
    if TooSmall(b, r, titleHeight) {
      TooSmallIs(b, r, titleHeight);
    }
  }

  lemma ValidNow(db: FileViewDB)
    ensures db.Valid() <==> (db.rootFile != null ==> db.rootFile.Valid())
  {
  }
}
