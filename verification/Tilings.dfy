/** The areas that the allocation gives to children tile the rectangle. */
module Tilings {
  import opened Treemap

  /** The area covered, overlaps counted twice. */
  function Covered(areas: seq<Rect>): (c: int)
    ensures c >= 0
  {
    if areas == [] then 0 else Area(areas[0]) + Covered(areas[1..])
  }

  predicate AllEmpty(areas: seq<Rect>) {
    forall i :: 0 <= i < |areas| ==> Empty(areas[i])
  }

  predicate AllInside(areas: seq<Rect>, r: Rect) {
    forall i :: 0 <= i < |areas| ==> Empty(areas[i]) || Inside(areas[i], r)
  }

  predicate Apart(areas: seq<Rect>) {
    forall i, j :: 0 <= i < j < |areas| ==> Disjoint(areas[i], areas[j])
  }

  /** The rectangles lie in `r`, do not overlap, and leave no pixel of it uncovered. */
  predicate Tiling(areas: seq<Rect>, r: Rect) {
    AllInside(areas, r) && Apart(areas) && Covered(areas) == Area(r)
  }

  lemma {:induction false} CoveredConcat(a: seq<Rect>, b: seq<Rect>)
    ensures Covered(a + b) == Covered(a) + Covered(b)
  {
    if a == [] {
      assert a + b == b;
    } else {
      assert (a + b)[1..] == a[1..] + b;
      CoveredConcat(a[1..], b);
    }
  }

  lemma {:induction false} CoveredNone(areas: seq<Rect>)
    ensures Covered(areas) == 0 <==> AllEmpty(areas)
  {
    if areas != [] {
      CoveredNone(areas[1..]);
      if AllEmpty(areas[1..]) && Empty(areas[0]) {
        forall i | 0 <= i < |areas|
          ensures Empty(areas[i])
        {
          assert i > 0 ==> areas[i] == areas[1..][i - 1];
        }
      }
      if AllEmpty(areas) {
        forall i | 0 <= i < |areas[1..]|
          ensures Empty(areas[1..][i])
        {
          assert areas[1..][i] == areas[i + 1];
        }
      }
    }
  }

  lemma CoveredOne(r: Rect)
    ensures Covered([SetArea(r)]) == Area(r)
  {
    assert [SetArea(r)][1..] == [];
  }

  lemma HiddenEmpty(areas: seq<Rect>)
    ensures AllEmpty(Hidden(areas)) && Covered(Hidden(areas)) == 0
  {
    CoveredNone(Hidden(areas));
  }

  lemma PartsArea(r: Rect, sum1: int, sum2: int)
    requires !Empty(r) && sum1 >= 0 && sum2 >= 0
    ensures var p := Parts(r, sum1, sum2);
            Area(p.0) + Area(p.1) == Area(r) && Inside(p.0, r) && Inside(p.1, r)
    ensures var p := Parts(r, sum1, sum2);
            forall a, b :: Inside(a, p.0) && Inside(b, p.1) ==> Disjoint(a, b)
  {
    if r.w >= r.h {
      var m := Share(r.w, sum1, sum2);
      assert m * r.h + (r.w - m) * r.h == r.w * r.h;
      AreaProduct(Rect(r.x, r.y, m, r.h));
      AreaProduct(Rect(r.x + m, r.y, r.w - m, r.h));
    } else {
      var m := Share(r.h, sum1, sum2);
      assert r.w * m + r.w * (r.h - m) == r.w * r.h;
      AreaProduct(Rect(r.x, r.y, r.w, m));
      AreaProduct(Rect(r.x, r.y + m, r.w, r.h - m));
    }
  }

  lemma AreaProduct(r: Rect)
    requires r.w >= 0 && r.h >= 0
    ensures Area(r) == r.w * r.h
  {
  }

  /** The area of what is left as it was, because it belongs to an empty part. */
  function Stale(sizes: seq<int>, areas: seq<Rect>, r: Rect): (a: int)
    requires |sizes| == |areas| > 0 && NonNegative(sizes)
    ensures a >= 0
    decreases |sizes|
  {
    if Empty(r) then Covered(areas)
    else if |sizes| == 1 then 0
    else
      var d := DivisionOf(sizes, r);
      (if d.k > 1 then Stale(sizes[..d.k], areas[..d.k], d.p) else 0)
      + if d.n - d.k > 1 then Stale(sizes[d.k..d.n], areas[d.k..d.n], d.q) else 0
  }

  /** The two groups of children that are shown have disjoint parts of `r`, which make up all of it. */
  lemma DivisionFits(sizes: seq<int>, r: Rect)
    requires |sizes| > 1 && NonNegative(sizes) && !Empty(r)
    ensures var d := DivisionOf(sizes, r);
            && NonNegative(sizes[..d.k]) && NonNegative(sizes[d.k..d.n])
            && Area(d.p) + Area(d.q) == Area(r) && Inside(d.p, r) && Inside(d.q, r)
            && forall x, y :: Inside(x, d.p) && Inside(y, d.q) ==> Disjoint(x, y)
  {
    var d := DivisionOf(sizes, r);
    SumIsNonNegative(sizes[..d.k]);
    SumIsNonNegative(sizes[d.k..d.n]);
    PartsArea(r, Sum(sizes[..d.k]), Sum(sizes[d.k..d.n]));
  }

  /** The areas that the first and the second group get. */
  function FirstAreas(sizes: seq<int>, areas: seq<Rect>, d: Division): seq<Rect>
    requires |sizes| == |areas| && NonNegative(sizes) && 1 <= d.k <= |sizes|
  {
    if d.k > 1 then Allocated(sizes[..d.k], areas[..d.k], d.p) else [SetArea(d.p)]
  }

  function SecondAreas(sizes: seq<int>, areas: seq<Rect>, d: Division): seq<Rect>
    requires |sizes| == |areas| && NonNegative(sizes) && d.k < d.n <= |sizes|
  {
    if d.n - d.k > 1 then Allocated(sizes[d.k..d.n], areas[d.k..d.n], d.q) else [SetArea(d.q)]
  }

  lemma DivisionAreas(sizes: seq<int>, areas: seq<Rect>, r: Rect)
    requires |sizes| == |areas| > 1 && NonNegative(sizes) && !Empty(r)
    ensures var d := DivisionOf(sizes, r);
            && Allocated(sizes, areas, r) ==
                FirstAreas(sizes, areas, d) + SecondAreas(sizes, areas, d) + Hidden(areas[d.n..])
            && Stale(sizes, areas, r) ==
               (if d.k > 1 then Stale(sizes[..d.k], areas[..d.k], d.p) else 0)
               + if d.n - d.k > 1 then Stale(sizes[d.k..d.n], areas[d.k..d.n], d.q) else 0
  {
    hide DivisionOf;
  }

  /** Not a pixel is lost: what is covered is the whole rectangle, and whatever was left as it was. */
  lemma {:induction false} AllocatedCovers(sizes: seq<int>, areas: seq<Rect>, r: Rect)
    requires |sizes| == |areas| > 0 && NonNegative(sizes)
    ensures Covered(Allocated(sizes, areas, r)) == Area(r) + Stale(sizes, areas, r)
    decreases |sizes|
  {
    if !Empty(r) {
      if |sizes| == 1 {
        CoveredOne(r);
      } else {
        var d := DivisionOf(sizes, r);
        DivisionFits(sizes, r);
        DivisionAreas(sizes, areas, r);
        hide Allocated, Stale, Area, DivisionOf;
        if d.k > 1 {
          AllocatedCovers(sizes[..d.k], areas[..d.k], d.p);
        } else {
          CoveredOne(d.p);
        }
        if d.n - d.k > 1 {
          AllocatedCovers(sizes[d.k..d.n], areas[d.k..d.n], d.q);
        } else {
          CoveredOne(d.q);
        }
        var a, b := FirstAreas(sizes, areas, d), SecondAreas(sizes, areas, d);
        HiddenEmpty(areas[d.n..]);
        CoveredConcat(a + b, Hidden(areas[d.n..]));
        CoveredConcat(a, b);
      }
    }
  }

  lemma InsideOf(areas: seq<Rect>, p: Rect, r: Rect)
    requires AllInside(areas, p) && Inside(p, r)
    ensures AllInside(areas, r)
  {
  }

  lemma PutTogether(a: seq<Rect>, b: seq<Rect>, c: seq<Rect>, p: Rect, q: Rect, r: Rect)
    requires AllInside(a, p) && AllInside(b, q) && Apart(a) && Apart(b) && AllEmpty(c)
    requires Inside(p, r) && Inside(q, r) && forall x, y :: Inside(x, p) && Inside(y, q) ==> Disjoint(x, y)
    ensures AllInside(a + b + c, r) && Apart(a + b + c)
  {
    InsideOf(a, p, r);
    InsideOf(b, q, r);
    hide Inside;
  }

  /** Where nothing is left as it was, the areas lie inside and do not overlap. */
  lemma {:induction false} AllocatedFits(sizes: seq<int>, areas: seq<Rect>, r: Rect)
    requires |sizes| == |areas| > 0 && NonNegative(sizes) && Stale(sizes, areas, r) == 0
    ensures AllInside(Allocated(sizes, areas, r), r) && Apart(Allocated(sizes, areas, r))
    decreases |sizes|
  {
    if Empty(r) {
      CoveredNone(areas);
    } else if |sizes| > 1 {
      var d := DivisionOf(sizes, r);
      DivisionFits(sizes, r);
      DivisionAreas(sizes, areas, r);
      hide Allocated, Stale, Area, Inside, Disjoint, DivisionOf;
      if d.k > 1 {
        AllocatedFits(sizes[..d.k], areas[..d.k], d.p);
      } else {
        OneFits(d.p);
      }
      if d.n - d.k > 1 {
        AllocatedFits(sizes[d.k..d.n], areas[d.k..d.n], d.q);
      } else {
        OneFits(d.q);
      }
      HiddenEmpty(areas[d.n..]);
      PutTogether(FirstAreas(sizes, areas, d), SecondAreas(sizes, areas, d), Hidden(areas[d.n..]), d.p, d.q, r);
    }
  }

  lemma OneFits(r: Rect)
    ensures AllInside([SetArea(r)], r) && Apart([SetArea(r)])
  {
  }

  /**
   The children's areas tile the rectangle exactly if the children in parts that turned out empty
   had empty areas before.
   */
  lemma TilesExactly(sizes: seq<int>, areas: seq<Rect>, r: Rect)
    requires |sizes| == |areas| > 0 && NonNegative(sizes) && !Empty(r)
    ensures Tiling(Allocated(sizes, areas, r), r) <==> Stale(sizes, areas, r) == 0
  {
    AllocatedCovers(sizes, areas, r);
    if Stale(sizes, areas, r) == 0 {
      AllocatedFits(sizes, areas, r);
    }
  }

  lemma {:induction false} NoneStale(sizes: seq<int>, areas: seq<Rect>, r: Rect)
    requires |sizes| == |areas| > 0 && NonNegative(sizes) && AllEmpty(areas)
    ensures Stale(sizes, areas, r) == 0
    decreases |sizes|
  {
    hide Allocated, Stale, Area, Inside, Disjoint, DivisionOf, Covered, Sum, FirstAreas, SecondAreas;
    if Empty(r) {
      EmptyStale(sizes, areas, r);
      CoveredNone(areas);
    } else if |sizes| == 1 {
      OneNotStale(sizes, areas, r);
    } else {
      var d := DivisionOf(sizes, r);
      DivisionFits(sizes, r);
      DivisionAreas(sizes, areas, r);
      if d.k > 1 {
        NoneStale(sizes[..d.k], areas[..d.k], d.p);
      }
      if d.n - d.k > 1 {
        NoneStale(sizes[d.k..d.n], areas[d.k..d.n], d.q);
      }
    }
  }

  lemma EmptyStale(sizes: seq<int>, areas: seq<Rect>, r: Rect)
    requires |sizes| == |areas| > 0 && NonNegative(sizes) && Empty(r)
    ensures Stale(sizes, areas, r) == Covered(areas)
  {
  }

  /** Areas that are empty at first are made a tiling, without a lost pixel. */
  lemma AllocatedTiles(sizes: seq<int>, areas: seq<Rect>, r: Rect)
    requires |sizes| == |areas| > 0 && NonNegative(sizes) && AllEmpty(areas) && !Empty(r)
    ensures Tiling(Allocated(sizes, areas, r), r)
  {
    NoneStale(sizes, areas, r);
    TilesExactly(sizes, areas, r);
  }

  // ------------------------------------------------------------------ areas left over

  /** No child is larger than one that comes two or more places before it. */
  predicate NearlyFalling(sizes: seq<int>) {
    forall i, j :: 0 <= i && i + 2 <= j < |sizes| ==> sizes[i] >= sizes[j]
  }

  /** Children of no size have no area. */
  predicate SizelessEmpty(sizes: seq<int>, areas: seq<Rect>)
    requires |sizes| == |areas|
  {
    forall i :: 0 <= i < |sizes| && sizes[i] == 0 ==> Empty(areas[i])
  }

  /** Sizes as the children of a view have them. */
  predicate Orderly(sizes: seq<int>) {
    NonNegative(sizes) && ZerosLast(sizes) && NearlyFalling(sizes)
  }

  lemma OrderlyPart(sizes: seq<int>, i: nat, j: nat)
    requires Orderly(sizes) && i <= j <= |sizes|
    ensures Orderly(sizes[i..j])
  {
  }

  lemma SizelessPart(sizes: seq<int>, areas: seq<Rect>, i: nat, j: nat)
    requires |sizes| == |areas| && SizelessEmpty(sizes, areas) && i <= j <= |sizes|
    ensures SizelessEmpty(sizes[i..j], areas[i..j])
  {
  }

  /** A first bin of two children or more holds at least a third. */
  lemma FirstBinThird(sizes: seq<int>)
    requires Orderly(sizes) && |sizes| >= 2 && FirstBin(sizes) >= 2
    ensures FirstBin(sizes) < |sizes| && Sum(sizes[FirstBin(sizes)..]) <= 2 * Sum(sizes[..FirstBin(sizes)])
  {
    FirstBinBalances(sizes);
    var k := FirstBin(sizes);
    GreedyStep(sizes, k);
    assert Imbalance(sizes, k) <= Imbalance(sizes, k + 1);
    assert sizes[..k] == [sizes[0]] + sizes[1..k];
    SumConcat([sizes[0]], sizes[1..k]);
    assert Sum([sizes[0]]) == sizes[0] + Sum([]);
    SumIsNonNegative(sizes[1..k]);
    if sizes[k] == 0 {
      SumOfZeros(sizes[k..]);
    }
  }

  /** In a rectangle of at most the least area, only two children are shown. */
  lemma FewShown(sizes: seq<int>, r: Rect)
    requires Orderly(sizes) && |sizes| > 2 && !Empty(r) && Area(r) <= MIN_CHILD_PIXEL_AREA && sizes[0] > 0
    ensures Shown(sizes, r) == 2
  {
    assert Area(r) == r.h * r.w;
    var minPart := MIN_CHILD_PIXEL_AREA / (r.h * r.w);
    AtLeastOne(MIN_CHILD_PIXEL_AREA, r.h * r.w);
    var rest := sizes[2..];
    assert sizes == sizes[..2] + rest && sizes[..2] == [sizes[0], sizes[1]] && sizes[..2][1..] == [sizes[1]];
    SumConcat(sizes[..2], rest);
    assert Sum(sizes[..2]) == sizes[0] + sizes[1] by {
      assert [sizes[1]][1..] == [];
    }
    assert rest == [sizes[2]] + rest[1..];
    SumIsNonNegative(rest[1..]);
    assert sizes[2] < Sum(sizes);
    Times(Sum(sizes), minPart);
    hide Sum, Area;
    TwoShown(sizes, Sum(sizes) * minPart);
  }

  lemma TwoShown(sizes: seq<int>, minSize: int)
    requires |sizes| > 2 && sizes[2] < minSize
    ensures ShownFrom(sizes, minSize, 0) == 2
  {
    assert ShownFrom(sizes, minSize, 2) == 2;
    assert ShownFrom(sizes, minSize, 1) == 2;
  }

  lemma AtLeastOne(x: int, y: int)
    requires 0 < y <= x
    ensures x / y >= 1
  {
  }

  lemma Times(a: int, b: int)
    requires a >= 0 && b >= 1
    ensures a * b >= a
  {
  }

  /** A rectangle of more than the least area has a side of more than seven. */
  lemma LongSide(r: Rect)
    requires Area(r) > MIN_CHILD_PIXEL_AREA
    ensures (if r.w >= r.h then r.w else r.h) >= 8
  {
    if r.w <= 7 && r.h <= 7 && !Empty(r) {
      Product(r.w, r.h, 7, 7);
    }
  }

  /** At least a third of at least eight lines is a line. */
  lemma SomeShare(length: int, sum1: int, sum2: int)
    requires length >= 8 && sum1 > 0 && 0 <= sum2 <= 2 * sum1
    ensures Share(length, sum1, sum2) >= 1
  {
    ShareRounds(length, sum1, sum2);
    var m := Share(length, sum1, sum2);
    hide Share;
    Sign(length - 8, sum1);
    Sign(-m, sum1 + sum2);
    assert length * sum1 == (length - 8) * sum1 + 8 * sum1;
  }

  /** What has a size leaves less than everything to the first bin. */
  lemma NotAllShare(length: int, sum1: int, sum2: int)
    requires length >= 1 && sum1 >= 0 && sum2 > 0
    ensures Share(length, sum1, sum2) < length
  {
    ShareRounds(length, sum1, sum2);
    var m := Share(length, sum1, sum2);
    hide Share;
    Sign(length, sum2);
    Sign(m - length, sum1 + sum2);
    assert m * (sum1 + sum2) == (m - length) * (sum1 + sum2) + length * sum1 + length * sum2;
  }

  lemma PartsSome(r: Rect, sum1: int, sum2: int)
    requires !Empty(r) && sum1 >= 0 && sum2 >= 0
    ensures var length := if r.w >= r.h then r.w else r.h;
            && length >= 1
            && (Share(length, sum1, sum2) >= 1 ==> !Empty(Parts(r, sum1, sum2).0))
            && (Share(length, sum1, sum2) < length ==> !Empty(Parts(r, sum1, sum2).1))
  {
    hide Share;
  }

  lemma DivisionIs(sizes: seq<int>, r: Rect)
    requires |sizes| > 1 && NonNegative(sizes) && !Empty(r)
    ensures var d := DivisionOf(sizes, r);
            && d.n == Shown(sizes, r) && 2 <= d.n && d.k == FirstBin(sizes[..d.n])
            && Sum(sizes[..d.k]) >= 0 && Sum(sizes[d.k..d.n]) >= 0
            && (d.p, d.q) == Parts(r, Sum(sizes[..d.k]), Sum(sizes[d.k..d.n]))
            && sizes[..d.n][..d.k] == sizes[..d.k] && sizes[..d.n][d.k..] == sizes[d.k..d.n]
  {
    var d := DivisionOf(sizes, r);
    SumIsNonNegative(sizes[..d.k]);
    SumIsNonNegative(sizes[d.k..d.n]);
  }

  /** A first group with anything of a size in it gets a part that is not empty. */
  lemma FirstPartSome(sizes: seq<int>, r: Rect)
    requires Orderly(sizes) && |sizes| > 1 && !Empty(r) && sizes[0] > 0 && DivisionOf(sizes, r).k > 1
    ensures !Empty(DivisionOf(sizes, r).p)
  {
    hide DivisionOf, Sum, Shown, FirstBin, Parts, Share, Area, Empty, Orderly;
    OrderlyIs(sizes);
    DivisionIs(sizes, r);
    var d := DivisionOf(sizes, r);
    if Area(r) <= MIN_CHILD_PIXEL_AREA {
      FewShown(sizes, r);
    }
    LongSide(r);
    OrderlyPart(sizes, 0, d.n);
    assert sizes[0..d.n] == sizes[..d.n];
    FirstBinThird(sizes[..d.n]);
    SumOfFirst(sizes, d.k);
    PartsSome(r, Sum(sizes[..d.k]), Sum(sizes[d.k..d.n]));
    SomeShare(if r.w >= r.h then r.w else r.h, Sum(sizes[..d.k]), Sum(sizes[d.k..d.n]));
  }

  lemma SumOfFirst(sizes: seq<int>, k: nat)
    requires Orderly(sizes) && 1 <= k <= |sizes|
    ensures Sum(sizes[..k]) >= sizes[0]
  {
    assert sizes[..k] == [sizes[0]] + sizes[1..k];
    hide Orderly;
    SumConcat([sizes[0]], sizes[1..k]);
    assert Sum([sizes[0]]) == sizes[0] + Sum([]);
    OrderlyIs(sizes);
    SumIsNonNegative(sizes[1..k]);
  }

  /** A second group with anything of a size in it gets a part that is not empty. */
  lemma SecondPartSome(sizes: seq<int>, r: Rect)
    requires Orderly(sizes) && |sizes| > 1 && !Empty(r)
    ensures var d := DivisionOf(sizes, r); Sum(sizes[d.k..d.n]) > 0 ==> !Empty(d.q)
  {
    hide DivisionOf, Sum, Shown, FirstBin, Parts, Share, Area, Empty, Orderly;
    OrderlyIs(sizes);
    DivisionIs(sizes, r);
    var d := DivisionOf(sizes, r);
    if Sum(sizes[d.k..d.n]) > 0 {
      PartsSome(r, Sum(sizes[..d.k]), Sum(sizes[d.k..d.n]));
      NotAllShare(if r.w >= r.h then r.w else r.h, Sum(sizes[..d.k]), Sum(sizes[d.k..d.n]));
    }
  }

  /** Children of no size with empty areas leave nothing over in an empty part. */
  lemma SizelessStale(sizes: seq<int>, areas: seq<Rect>, r: Rect)
    requires |sizes| == |areas| > 0 && NonNegative(sizes) && SizelessEmpty(sizes, areas)
    requires Sum(sizes) == 0
    ensures Stale(sizes, areas, r) == 0
  {
    AllZero(sizes);
    NoneStale(sizes, areas, r);
  }

  lemma {:induction false} AllZero(sizes: seq<int>)
    requires NonNegative(sizes) && Sum(sizes) == 0
    ensures forall i :: 0 <= i < |sizes| ==> sizes[i] == 0
  {
    if sizes != [] {
      SumIsNonNegative(sizes[1..]);
      AllZero(sizes[1..]);
      assert forall i :: 0 < i < |sizes| ==> sizes[i] == sizes[1..][i - 1];
    }
  }

  lemma NoneLeft(sizes: seq<int>)
    requires Orderly(sizes) && sizes != [] && sizes[0] == 0
    ensures Sum(sizes) == 0
  {
    assert forall j :: 0 < j < |sizes| ==> sizes[j] == 0;
    SumOfZeros(sizes);
  }

  /** Nothing is left as it was: a group gets an empty part only if it has no size at all. */
  lemma {:induction false} NothingStale(sizes: seq<int>, areas: seq<Rect>, r: Rect)
    requires |sizes| == |areas| > 0 && Orderly(sizes) && SizelessEmpty(sizes, areas)
    requires !Empty(r) || Sum(sizes) == 0
    ensures Stale(sizes, areas, r) == 0
    decreases |sizes|
  {
    hide Allocated, Stale, Area, Empty, Inside, Disjoint, DivisionOf, Sum, Orderly, SizelessEmpty, FirstAreas,
        SecondAreas;
    OrderlyIs(sizes);
    if Sum(sizes) == 0 {
      SizelessStale(sizes, areas, r);
    } else if |sizes| == 1 {
      OneNotStale(sizes, areas, r);
    } else {
      var d := DivisionOf(sizes, r);
      DivisionFits(sizes, r);
      DivisionAreas(sizes, areas, r);
      assert sizes[..d.k] == sizes[0..d.k] && areas[..d.k] == areas[0..d.k];
      OrderlyPart(sizes, 0, d.k);
      OrderlyPart(sizes, d.k, d.n);
      SizelessPart(sizes, areas, 0, d.k);
      SizelessPart(sizes, areas, d.k, d.n);
      if d.k > 1 {
        if sizes[0] == 0 {
          NoneLeft(sizes);
        }
        FirstPartSome(sizes, r);
        NothingStale(sizes[..d.k], areas[..d.k], d.p);
      }
      if d.n - d.k > 1 {
        SecondPartSome(sizes, r);
        SumIsNonNegative(sizes[d.k..d.n]);
        NothingStale(sizes[d.k..d.n], areas[d.k..d.n], d.q);
      }
    }
  }

  lemma OrderlyIs(sizes: seq<int>)
    requires Orderly(sizes)
    ensures NonNegative(sizes) && (sizes != [] ==> sizes[0] >= 0)
  {
  }

  lemma OneNotStale(sizes: seq<int>, areas: seq<Rect>, r: Rect)
    requires |sizes| == |areas| == 1 && NonNegative(sizes) && !Empty(r)
    ensures Stale(sizes, areas, r) == 0
  {
  }

  /**
   The children of a view always tile the rectangle, whatever areas they had before, as long as
   children of no size had none.
   */
  lemma ViewTiles(sizes: seq<int>, areas: seq<Rect>, r: Rect)
    requires |sizes| == |areas| > 0 && Orderly(sizes) && SizelessEmpty(sizes, areas) && !Empty(r)
    ensures NonNegative(sizes) && Tiling(Allocated(sizes, areas, r), r)
  {
    NothingStale(sizes, areas, r);
    TilesExactly(sizes, areas, r);
  }

  /** One child has a size, and two or more others have none, in a rectangle of more than the least area. */
  predicate OneHasAll(sizes: seq<int>, r: Rect) {
    |sizes| > 2 && sizes[0] > 0 && (forall i :: 0 < i < |sizes| ==> sizes[i] == 0) && Area(r) > MIN_CHILD_PIXEL_AREA
  }

  lemma {:induction false} AllShown(sizes: seq<int>, i: nat)
    requires NonNegative(sizes) && i <= |sizes|
    ensures ShownFrom(sizes, 0, i) == |sizes|
    decreases |sizes| - i
  {
    if i < |sizes| {
      AllShown(sizes, i + 1);
    }
  }

  lemma NoMinimum(sum: int, area: int)
    requires area > MIN_CHILD_PIXEL_AREA
    ensures sum * (MIN_CHILD_PIXEL_AREA / area) == 0
  {
  }

  lemma ManyShown(sizes: seq<int>, r: Rect)
    requires NonNegative(sizes) && Area(r) > MIN_CHILD_PIXEL_AREA
    ensures !Empty(r) && Shown(sizes, r) == |sizes|
  {
    hide Sum;
    assert Area(r) == r.h * r.w;
    NoMinimum(Sum(sizes), r.h * r.w);
    AllShown(sizes, 0);
  }

  lemma LoneFirst(sizes: seq<int>)
    requires |sizes| > 1 && sizes[0] > 0 && forall i :: 0 < i < |sizes| ==> sizes[i] == 0
    ensures FirstBin(sizes) == 1 && Sum(sizes[..1]) == sizes[0] && Sum(sizes[1..]) == 0
  {
    SumOfZeros(sizes[1..]);
    assert sizes[..1] == [sizes[0]] && Sum([sizes[0]]) == sizes[0] + Sum([]);
  }

  lemma WholeShare(r: Rect, sum: int)
    requires !Empty(r) && sum > 0
    ensures Empty(Parts(r, sum, 0).1)
  {
    ShareIsWhole(if r.w >= r.h then r.w else r.h, sum);
    hide Share;
  }

  lemma ShareIsWhole(length: int, sum: int)
    requires length >= 0 && sum > 0
    ensures Share(length, sum, 0) == length
  {
    ShareRounds(length, sum, 0);
    var d := length - Share(length, sum, 0);
    hide Share;
    if d >= 1 {
      Sign(d - 1, sum);
      assert (d - 1) * sum == length * sum - (length - d) * sum - sum;
    }
  }

  /** Children of no size get an empty part, so nothing becomes of their areas. */
  lemma EmptyPart(sizes: seq<int>, areas: seq<Rect>, r: Rect)
    requires |sizes| == |areas| && OneHasAll(sizes, r)
    ensures NonNegative(sizes) && Stale(sizes, areas, r) == Covered(areas[1..])
  {
    ManyShown(sizes, r);
    LoneFirst(sizes);
    WholeShare(r, sizes[0]);
    hide Shown, FirstBin, Parts, Sum, Area, Covered;
    assert sizes[..|sizes|] == sizes;
    assert areas[1..|areas|] == areas[1..];
  }

  /** With one child that has all the size, exactly the areas that the others had before matter. */
  lemma StaleOverlaps(sizes: seq<int>, areas: seq<Rect>, r: Rect)
    requires |sizes| == |areas| && OneHasAll(sizes, r)
    ensures NonNegative(sizes) && (Tiling(Allocated(sizes, areas, r), r) <==> AllEmpty(areas[1..]))
  {
    EmptyPart(sizes, areas, r);
    CoveredNone(areas[1..]);
    hide Allocated, Stale, Tiling, Covered;
    TilesExactly(sizes, areas, r);
  }
}
