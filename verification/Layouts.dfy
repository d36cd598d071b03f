/** Laying out a whole tree of views: every view divides what its title and border leave it. */
module Layouts {
  import opened Treemap
  import opened Tilings

  /** A view as far as its layout is concerned. */
  datatype Box = Box(size: int, area: Rect, kids: seq<Box>)

  /** What the title and the border leave of the area of a view. */
  function Inner(r: Rect, titleHeight: int): Rect {
    Rect(r.x + 2, r.y + titleHeight + 2, r.w - 4, r.h - titleHeight - 4)
  }

  function SizesOf(kids: seq<Box>): (s: seq<int>)
    ensures |s| == |kids| && forall i :: 0 <= i < |s| ==> s[i] == kids[i].size
  {
    seq(|kids|, i requires 0 <= i < |kids| => kids[i].size)
  }

  function AreasOf(kids: seq<Box>): (a: seq<Rect>)
    ensures |a| == |kids| && forall i :: 0 <= i < |a| ==> a[i] == kids[i].area
  {
    seq(|kids|, i requires 0 <= i < |kids| => kids[i].area)
  }

  /** No size below `b` is negative. */
  predicate Sane(b: Box) {
    forall k :: k in b.kids ==> k.size >= 0 && Sane(k)
  }

  lemma SaneSizes(b: Box)
    requires Sane(b)
    ensures NonNegative(SizesOf(b.kids))
  {
  }

  predicate TooSmall(b: Box, r: Rect, titleHeight: int) {
    b.kids == [] || r.h < titleHeight || r.w < 1
  }

  /** The children of `b` with the areas that they get in `r`. */
  function Divided(b: Box, r: Rect): (kids: seq<Box>)
    requires Sane(b) && b.kids != []
    ensures |kids| == |b.kids|
    ensures forall i :: 0 <= i < |kids| ==> kids[i].kids == b.kids[i].kids && kids[i].size == b.kids[i].size
  {
    SaneSizes(b);
    var areas := Allocated(SizesOf(b.kids), AreasOf(b.kids), r);
    seq(|b.kids|, i requires 0 <= i < |b.kids| => b.kids[i].(area := areas[i]))
  }

  ghost function Height(b: Box): nat {
    1 + MaxHeight(b.kids)
  }

  ghost function MaxHeight(kids: seq<Box>): (h: nat)
    ensures forall k :: k in kids ==> Height(k) <= h
  {
    if kids == [] then 0
    else
      var h, rest := Height(kids[0]), MaxHeight(kids[1..]);
      if h > rest then h else rest
  }

  lemma SameHeight(a: Box, b: Box)
    requires a.kids == b.kids
    ensures Height(a) == Height(b)
  {
  }

  lemma SameSane(a: Box, b: Box)
    requires a.kids == b.kids
    ensures Sane(a) == Sane(b)
  {
  }

  /** The layout of `b` in `r`; a view that is too small for its title is left alone. */
  ghost function Laid(b: Box, r: Rect, titleHeight: int): Box
    requires Sane(b)
    decreases Height(b)
  {
    if TooSmall(b, r, titleHeight) then b
    else
      var kids := Divided(b, Inner(r, titleHeight));
      Box(b.size, r, seq(|kids|, i requires 0 <= i < |kids| =>
        assert b.kids[i] in b.kids;
        SameHeight(kids[i], b.kids[i]);
        SameSane(kids[i], b.kids[i]);
        Laid(kids[i], kids[i].area, titleHeight)))
  }

  /** All areas below `b` are empty. */
  predicate Blank(b: Box) {
    forall k :: k in b.kids ==> Empty(k.area) && Blank(k)
  }

  /** Every area that is not empty lies within what its parent leaves, and siblings do not overlap, at every depth. */
  predicate Nested(b: Box, titleHeight: int) {
    && AllInside(AreasOf(b.kids), Inner(b.area, titleHeight))
    && Apart(AreasOf(b.kids))
    && forall k :: k in b.kids ==> Nested(k, titleHeight)
  }

  /** In plain numbers: a title, and a border of two pixels, stay free around the children. */
  lemma NestedMeans(b: Box, titleHeight: int, k: Box)
    requires Nested(b, titleHeight) && k in b.kids && k.area.w >= 1 && k.area.h >= 1
    ensures b.area.x + 2 <= k.area.x && k.area.x + k.area.w <= b.area.x + b.area.w - 2
    ensures b.area.y + titleHeight + 2 <= k.area.y && k.area.y + k.area.h <= b.area.y + b.area.h - 2
    ensures Nested(k, titleHeight)
  {
    var i :| 0 <= i < |b.kids| && b.kids[i] == k;
    assert AreasOf(b.kids)[i] == k.area;
  }

  lemma LaidArea(b: Box, r: Rect, titleHeight: int)
    requires Sane(b)
    ensures Laid(b, r, titleHeight).area == if TooSmall(b, r, titleHeight) then b.area else r
    ensures Laid(b, r, titleHeight).size == b.size
  {
  }

  /** Blank views have nothing in them that could stick out or overlap. */
  lemma {:induction false} BlankNested(b: Box, titleHeight: int)
    requires Blank(b)
    ensures Nested(b, titleHeight)
    decreases b
  {
    forall k | k in b.kids
      ensures Nested(k, titleHeight) && Empty(k.area)
    {
      BlankNested(k, titleHeight);
    }
    assert AllEmpty(AreasOf(b.kids));
  }

  /** After a layout, areas are nested and do not overlap, at every depth, if they were empty before. */
  lemma {:induction false} LaidNested(b: Box, r: Rect, titleHeight: int)
    requires Sane(b) && Blank(b)
    ensures Nested(Laid(b, r, titleHeight), titleHeight)
    decreases Height(b)
  {
    if TooSmall(b, r, titleHeight) {
      BlankNested(b, titleHeight);
    } else {
      var kids := Divided(b, Inner(r, titleHeight));
      var laid := Laid(b, r, titleHeight);
      forall i | 0 <= i < |kids|
        ensures Nested(laid.kids[i], titleHeight) && laid.kids[i].area == kids[i].area
      {
        assert b.kids[i] in b.kids;
        SameHeight(kids[i], b.kids[i]);
        SameSane(kids[i], b.kids[i]);
        assert Blank(kids[i]);
        LaidNested(kids[i], kids[i].area, titleHeight);
        LaidArea(kids[i], kids[i].area, titleHeight);
      }
      DividedFits(b, Inner(r, titleHeight));
      assert AreasOf(laid.kids) == AreasOf(kids);
    }
  }

  lemma DividedFits(b: Box, r: Rect)
    requires Sane(b) && Blank(b) && b.kids != []
    ensures AllInside(AreasOf(Divided(b, r)), r) && Apart(AreasOf(Divided(b, r)))
  {
    SaneSizes(b);
    var sizes, areas := SizesOf(b.kids), AreasOf(b.kids);
    assert AllEmpty(areas);
    assert AreasOf(Divided(b, r)) == Allocated(sizes, areas, r);
    NoneStale(sizes, areas, r);
    AllocatedFits(sizes, areas, r);
  }

  // ------------------------------------------------------------ views that were reused

  /**
   A view that was made to show something new: its own area is empty, and so are all areas below
   its children. A child may have an area left from before if it has a size and nothing in it.
   */
  ghost predicate Renewed(b: Box) {
    && Sane(b) && Empty(b.area)
    && Orderly(SizesOf(b.kids)) && SizelessEmpty(SizesOf(b.kids), AreasOf(b.kids))
    && forall k :: k in b.kids ==> Blank(k) && (k.kids == [] || Empty(k.area))
  }

  lemma InEmpty(areas: seq<Rect>, r: Rect)
    requires Empty(r)
    ensures AllInside(areas, r) <==> AllEmpty(areas)
  {
  }

  lemma EmptyApart(areas: seq<Rect>)
    requires AllEmpty(areas)
    ensures Apart(areas)
  {
  }

  /** The children after a layout: in the areas that they were given, with everything in them nested. */
  lemma LaidKids(b: Box, r: Rect, titleHeight: int)
    requires Renewed(b) && !TooSmall(b, r, titleHeight)
    ensures var laid, kids := Laid(b, r, titleHeight), Divided(b, Inner(r, titleHeight));
            && laid.area == r && AreasOf(laid.kids) == AreasOf(kids)
            && forall k :: k in laid.kids ==> Nested(k, titleHeight)
  {
    var kids := Divided(b, Inner(r, titleHeight));
    var laid := Laid(b, r, titleHeight);
    forall i | 0 <= i < |kids|
      ensures Nested(laid.kids[i], titleHeight) && laid.kids[i].area == kids[i].area
    {
      assert b.kids[i] in b.kids;
      SameHeight(kids[i], b.kids[i]);
      SameSane(kids[i], b.kids[i]);
      assert Blank(kids[i]);
      LaidNested(kids[i], kids[i].area, titleHeight);
      LaidArea(kids[i], kids[i].area, titleHeight);
    }
  }

  lemma DividedAreas(b: Box, r: Rect)
    requires Sane(b) && b.kids != []
    ensures NonNegative(SizesOf(b.kids))
    ensures AreasOf(Divided(b, r)) == Allocated(SizesOf(b.kids), AreasOf(b.kids), r)
  {
    SaneSizes(b);
  }

  lemma RenewedIs(b: Box)
    requires Renewed(b)
    ensures Sane(b) && Empty(b.area) && Orderly(SizesOf(b.kids)) && SizelessEmpty(SizesOf(b.kids), AreasOf(b.kids))
  {
  }

  lemma KidsNested(b: Box, titleHeight: int)
    requires Renewed(b)
    ensures forall k :: k in b.kids ==> Nested(k, titleHeight)
  {
    forall k | k in b.kids
      ensures Nested(k, titleHeight)
    {
      BlankNested(k, titleHeight);
    }
  }

  lemma NestedIs(b: Box, titleHeight: int)
    ensures Nested(b, titleHeight) <==>
            && AllInside(AreasOf(b.kids), Inner(b.area, titleHeight)) && Apart(AreasOf(b.kids))
            && forall k :: k in b.kids ==> Nested(k, titleHeight)
  {
  }

  lemma TooSmallIs(b: Box, r: Rect, titleHeight: int)
    requires Sane(b) && TooSmall(b, r, titleHeight)
    ensures Laid(b, r, titleHeight) == b
    ensures b.kids == [] || Empty(Inner(r, titleHeight))
    ensures b.kids == [] ==> AreasOf(b.kids) == []
  {
  }

  lemma InnerOfEmpty(r: Rect, titleHeight: int)
    requires Empty(r) && titleHeight >= 0
    ensures Empty(Inner(r, titleHeight))
  {
  }

  /**
   The layout of a view that was reused is nested at every depth, exactly if title and border
   leave something to divide, or no child had an area before.
   */
  lemma RenewedNested(b: Box, r: Rect, titleHeight: int)
    requires Renewed(b) && titleHeight >= 0
    ensures Sane(b)
    ensures Nested(Laid(b, r, titleHeight), titleHeight) <==>
            !Empty(Inner(r, titleHeight)) || AllEmpty(AreasOf(b.kids))
  {
    hide *;
    RenewedIs(b);
    var inner := Inner(r, titleHeight);
    NestedIs(Laid(b, r, titleHeight), titleHeight);
    KidsNested(b, titleHeight);
    if TooSmall(b, r, titleHeight) {
      TooSmallIs(b, r, titleHeight);
      InnerOfEmpty(b.area, titleHeight);
      InEmpty(AreasOf(b.kids), Inner(b.area, titleHeight));
      if AllEmpty(AreasOf(b.kids)) {
        EmptyApart(AreasOf(b.kids));
      }
      NoneEmpty();
    } else {
      LaidKids(b, r, titleHeight);
      SomeKids(b, r, titleHeight);
      DividedAreas(b, inner);
      if Empty(inner) {
        UnchangedAreas(SizesOf(b.kids), AreasOf(b.kids), inner);
        InEmpty(AreasOf(b.kids), inner);
        if AllEmpty(AreasOf(b.kids)) {
          EmptyApart(AreasOf(b.kids));
        }
      } else {
        ViewTiles(SizesOf(b.kids), AreasOf(b.kids), inner);
        TilingIs(Allocated(SizesOf(b.kids), AreasOf(b.kids), inner), inner);
      }
    }
  }

  lemma NoneEmpty()
    ensures AllEmpty([])
  {
  }

  lemma SomeKids(b: Box, r: Rect, titleHeight: int)
    requires !TooSmall(b, r, titleHeight)
    ensures b.kids != [] && |SizesOf(b.kids)| == |AreasOf(b.kids)| == |b.kids| > 0
  {
  }

  lemma UnchangedAreas(sizes: seq<int>, areas: seq<Rect>, r: Rect)
    requires |sizes| == |areas| > 0 && NonNegative(sizes) && Empty(r)
    ensures Allocated(sizes, areas, r) == areas
  {
  }

  lemma TilingIs(areas: seq<Rect>, r: Rect)
    requires Tiling(areas, r)
    ensures AllInside(areas, r) && Apart(areas)
  {
  }

  // ------------------------------------------------------------ not a pixel is lost

  /** At every depth, the children of a view tile what title and border leave of its area. */
  predicate Tiled(b: Box, titleHeight: int) {
    && (b.kids != [] && !Empty(Inner(b.area, titleHeight)) ==> Tiling(AreasOf(b.kids), Inner(b.area, titleHeight)))
    && forall k :: k in b.kids ==> Tiled(k, titleHeight)
  }

  lemma {:induction false} BlankTiled(b: Box, titleHeight: int)
    requires Blank(b) && titleHeight >= 0 && (b.kids == [] || Empty(Inner(b.area, titleHeight)))
    ensures Tiled(b, titleHeight)
    decreases b
  {
    forall k | k in b.kids
      ensures Tiled(k, titleHeight)
    {
      InnerOfEmpty(k.area, titleHeight);
      BlankTiled(k, titleHeight);
    }
  }

  lemma TiledNow(b: Box, titleHeight: int)
    requires b.kids != [] && !Empty(Inner(b.area, titleHeight)) ==>
               Tiling(AreasOf(b.kids), Inner(b.area, titleHeight))
    requires forall i :: 0 <= i < |b.kids| ==> Tiled(b.kids[i], titleHeight)
    ensures Tiled(b, titleHeight)
  {
  }

  lemma LaidBox(b: Box, r: Rect, titleHeight: int)
    requires Sane(b) && !TooSmall(b, r, titleHeight)
    ensures b.kids != [] && Laid(b, r, titleHeight).area == r
    ensures var kids, laid := Divided(b, Inner(r, titleHeight)), Laid(b, r, titleHeight);
            && |laid.kids| == |kids| == |b.kids|
            && forall i :: 0 <= i < |kids| ==>
                 && Sane(kids[i]) && kids[i].kids == b.kids[i].kids && b.kids[i] in b.kids
                 && Height(kids[i]) < Height(b)
                 && laid.kids[i] == Laid(kids[i], kids[i].area, titleHeight)
  {
    var kids := Divided(b, Inner(r, titleHeight));
    forall i | 0 <= i < |kids|
      ensures Sane(kids[i]) && Height(kids[i]) < Height(b) && b.kids[i] in b.kids
    {
      assert b.kids[i] in b.kids;
      SameHeight(kids[i], b.kids[i]);
      SameSane(kids[i], b.kids[i]);
    }
  }

  lemma LaidAreas(b: Box, r: Rect, titleHeight: int)
    requires Sane(b) && !TooSmall(b, r, titleHeight)
    ensures b.kids != [] && AreasOf(Laid(b, r, titleHeight).kids) == AreasOf(Divided(b, Inner(r, titleHeight)))
  {
    LaidBox(b, r, titleHeight);
    var kids := Divided(b, Inner(r, titleHeight));
    hide Laid, Divided, Inner, TooSmall;
    forall i | 0 <= i < |kids|
      ensures Laid(b, r, titleHeight).kids[i].area == kids[i].area
    {
      LaidArea(kids[i], kids[i].area, titleHeight);
    }
  }

  lemma SameBlank(a: Box, b: Box)
    requires a.kids == b.kids
    ensures Blank(a) == Blank(b)
  {
  }

  /** The children of a laid out view, when everything in them was blank. */
  lemma KidsTiled(b: Box, r: Rect, titleHeight: int)
    requires Sane(b) && titleHeight >= 0 && !TooSmall(b, r, titleHeight)
    requires forall k :: k in b.kids ==> Blank(k)
    ensures forall i :: 0 <= i < |Laid(b, r, titleHeight).kids| ==> Tiled(Laid(b, r, titleHeight).kids[i], titleHeight)
    decreases Height(b), 0
  {
    LaidBox(b, r, titleHeight);
    var kids := Divided(b, Inner(r, titleHeight));
    hide Laid, Divided, Inner, TooSmall, Blank, Sane, Tiled;
    forall i | 0 <= i < |kids|
      ensures Tiled(Laid(b, r, titleHeight).kids[i], titleHeight)
    {
      SameBlank(kids[i], b.kids[i]);
      LaidTiled(kids[i], kids[i].area, titleHeight);
    }
  }

  lemma BlankKids(b: Box)
    requires Blank(b)
    ensures AllEmpty(AreasOf(b.kids)) && forall k :: k in b.kids ==> Blank(k)
  {
  }

  /** After a layout of blank views, not a pixel is lost at any depth. */
  lemma {:induction false} LaidTiled(b: Box, r: Rect, titleHeight: int)
    requires Sane(b) && Blank(b) && titleHeight >= 0 && (b.area == r || Empty(b.area))
    ensures Tiled(Laid(b, r, titleHeight), titleHeight)
    decreases Height(b), 1
  {
    hide *;
    if TooSmall(b, r, titleHeight) {
      TooSmallIs(b, r, titleHeight);
      if Empty(b.area) {
        InnerOfEmpty(b.area, titleHeight);
      }
      BlankTiled(b, titleHeight);
    } else {
      BlankKids(b);
      LaidBox(b, r, titleHeight);
      LaidAreas(b, r, titleHeight);
      KidsTiled(b, r, titleHeight);
      DividedAreas(b, Inner(r, titleHeight));
      SomeKids(b, r, titleHeight);
      if !Empty(Inner(r, titleHeight)) {
        AllocatedTiles(SizesOf(b.kids), AreasOf(b.kids), Inner(r, titleHeight));
      }
      TiledNow(Laid(b, r, titleHeight), titleHeight);
    }
  }

  /** The same of a view that was reused. */
  lemma RenewedTiled(b: Box, r: Rect, titleHeight: int)
    requires Renewed(b) && titleHeight >= 0
    ensures Sane(b) && Tiled(Laid(b, r, titleHeight), titleHeight)
  {
    hide *;
    RenewedIs(b);
    RenewedBelow(b);
    if TooSmall(b, r, titleHeight) {
      TooSmallIs(b, r, titleHeight);
      InnerOfEmpty(b.area, titleHeight);
      UnlaidTiled(b, titleHeight);
    } else {
      LaidBox(b, r, titleHeight);
      LaidAreas(b, r, titleHeight);
      KidsTiled(b, r, titleHeight);
      DividedAreas(b, Inner(r, titleHeight));
      SomeKids(b, r, titleHeight);
      if !Empty(Inner(r, titleHeight)) {
        ViewTiles(SizesOf(b.kids), AreasOf(b.kids), Inner(r, titleHeight));
      }
      TiledNow(Laid(b, r, titleHeight), titleHeight);
    }
  }

  lemma UnlaidTiled(b: Box, titleHeight: int)
    requires Renewed(b) && titleHeight >= 0 && Empty(Inner(b.area, titleHeight))
    ensures Tiled(b, titleHeight)
  {
    forall k | k in b.kids
      ensures Tiled(k, titleHeight)
    {
      if k.kids != [] {
        InnerOfEmpty(k.area, titleHeight);
      }
      BlankTiled(k, titleHeight);
    }
  }

  lemma RenewedBelow(b: Box)
    requires Renewed(b)
    ensures forall k :: k in b.kids ==> Blank(k)
  {
  }

  /** In plain numbers: the children of a tiled view cover all that title and border leave. */
  lemma TiledMeans(b: Box, titleHeight: int)
    requires Tiled(b, titleHeight) && b.kids != [] && b.area.w > 4 && b.area.h > titleHeight + 4
    ensures Covered(AreasOf(b.kids)) == (b.area.w - 4) * (b.area.h - titleHeight - 4)
    ensures Apart(AreasOf(b.kids)) && forall k :: k in b.kids ==> Tiled(k, titleHeight)
  {
    assert !Empty(Inner(b.area, titleHeight));
    hide Covered, Apart, AllInside;
  }
}
