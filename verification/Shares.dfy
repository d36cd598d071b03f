/** How much of the rectangle each child gets in the end. */
module Shares {
  import opened Treemap
  import opened Tilings

  /** The shorter side of a rectangle. */
  function Short(r: Rect): int {
    if r.w >= r.h then r.h else r.w
  }

  // ------------------------------------------------------------------- arithmetic

  lemma Distribute(a: int, b: int, c: int)
    ensures a * (b + c) == a * b + a * c
    ensures a * (b - c) == a * b - a * c
  {
  }

  lemma Cancel(x: int, y: int, m: int)
    requires m > 0 && x * m <= y * m
    ensures x <= y
  {
    Sign(x - y, m);
    assert (x - y) * m == x * m - y * m;
  }

  lemma Scale(x: int, y: int, m: int)
    requires m >= 0 && x <= y
    ensures x * m <= y * m && m * x <= m * y
  {
    assert (y - x) * m >= 0;
    assert (y - x) * m == y * m - x * m;
  }

  lemma Crossed(a: int, s: int, A: int, S: int, Ag: int, Sg: int)
    ensures (a * S - s * A) * Sg == S * (a * Sg - s * Ag) + s * (Ag * S - A * Sg)
  {
    assert (a * S - s * A) * Sg == a * S * Sg - s * A * Sg;
    assert S * (a * Sg - s * Ag) == S * a * Sg - S * s * Ag;
    assert s * (Ag * S - A * Sg) == s * Ag * S - s * A * Sg;
    assert a * S * Sg == S * a * Sg && S * s * Ag == s * Ag * S;
  }

  /** The deviation within a group and that of the group add up. */
  lemma Excess(a: int, s: int, A: int, S: int, Ag: int, Sg: int, e: int, line: int)
    requires 0 <= s <= Sg && 0 < Sg <= S && line >= 0
    requires a * Sg - s * Ag <= e * Sg && Ag * S - A * Sg <= line * S
    ensures a * S - s * A <= (e + line) * S
  {
    Crossed(a, s, A, S, Ag, Sg);
    Scale(a * Sg - s * Ag, e * Sg, S);
    Scale(Ag * S - A * Sg, line * S, s);
    Scale(0, S, line);
    Scale(s, Sg, line * S);
    Ordered(e, line, S, Sg);
    Cancel(a * S - s * A, (e + line) * S, Sg);
  }

  lemma Ordered(e: int, line: int, S: int, Sg: int)
    ensures S * (e * Sg) + Sg * (line * S) == ((e + line) * S) * Sg
  {
    assert (e + line) * S == e * S + line * S;
    assert (e * S + line * S) * Sg == (e * S) * Sg + (line * S) * Sg;
    assert (e * S) * Sg == S * (e * Sg) && (line * S) * Sg == Sg * (line * S);
  }

  lemma Negated(a: int, b: int)
    ensures (-a) * b == -(a * b) && a * (-b) == -(a * b)
  {
  }

  lemma Deviations(a: int, s: int, A: int, S: int, Ag: int, Sg: int, e: int, line: int)
    requires 0 <= s <= Sg && 0 < Sg <= S && line >= 0
    requires -(e * Sg) <= a * Sg - s * Ag <= e * Sg
    requires -(line * S) <= Ag * S - A * Sg <= line * S
    ensures -((e + line) * S) <= a * S - s * A <= (e + line) * S
  {
    Excess(a, s, A, S, Ag, Sg, e, line);
    Negated(a, Sg);
    Negated(s, Ag);
    Negated(Ag, S);
    Negated(A, Sg);
    Negated(a, S);
    Negated(s, A);
    Excess(-a, s, -A, S, -Ag, Sg, e, line);
  }

  // ---------------------------------------------------------------- single children

  lemma {:induction false} OneCovered(areas: seq<Rect>, i: nat)
    requires i < |areas|
    ensures 0 <= Area(areas[i]) <= Covered(areas)
  {
    hide Area;
    if i > 0 {
      OneCovered(areas[1..], i - 1);
    }
  }

  lemma {:induction false} OneInSum(sizes: seq<int>, i: nat)
    requires NonNegative(sizes) && i < |sizes|
    ensures 0 <= sizes[i] <= Sum(sizes)
  {
    SumIsNonNegative(sizes[1..]);
    if i > 0 {
      OneInSum(sizes[1..], i - 1);
    }
  }

  /** No child of a view gets more than there is. */
  lemma OneFitsIn(sizes: seq<int>, areas: seq<Rect>, r: Rect, i: nat)
    requires |sizes| == |areas| > 0 && Orderly(sizes) && SizelessEmpty(sizes, areas) && i < |sizes|
    requires !Empty(r) || Sum(sizes) == 0
    ensures NonNegative(sizes) && 0 <= Area(Allocated(sizes, areas, r)[i]) <= Area(r)
  {
    hide *;
    OrderlyIs(sizes);
    NothingStale(sizes, areas, r);
    AllocatedCovers(sizes, areas, r);
    OneCovered(Allocated(sizes, areas, r), i);
  }

  /** By how much the area of a child times `total` may deviate from its size times the whole area. */
  predicate Near(area: int, size: int, whole: int, total: int, bound: int) {
    -(bound * total) <= area * total - size * whole <= bound * total
  }

  lemma SmallNear(area: int, size: int, whole: int, total: int, bound: int)
    requires 0 <= area <= whole <= bound && 0 <= size <= total
    ensures Near(area, size, whole, total, bound)
  {
    Scale(area, bound, total);
    Scale(0, area, total);
    Scale(size, total, whole);
    Scale(0, size, whole);
    Scale(whole, bound, total);
    assert total * whole == whole * total;
  }

  lemma NearWider(area: int, size: int, whole: int, total: int, bound: int, wider: int)
    requires Near(area, size, whole, total, bound) && bound <= wider && total >= 0
    ensures Near(area, size, whole, total, wider)
  {
    Scale(bound, wider, total);
  }

  lemma NearWithin(area: int, size: int, whole: int, total: int, group: int, sum: int, bound: int, line: int)
    requires 0 <= size <= sum && 0 < sum <= total && line >= 0
    requires Near(area, size, group, sum, bound) && Near(group, sum, whole, total, line)
    ensures Near(area, size, whole, total, bound + line)
  {
    assert whole * sum == sum * whole;
    Deviations(area, size, whole, total, group, sum, bound, line);
  }

  /** How far the area of one of `n` children in `r` may be from its share. */
  function Bound(n: nat, r: Rect): int {
    (n - 1) * Short(r) + 50
  }

  lemma BoundGrows(n: nat, m: nat, r: Rect, p: Rect)
    requires 1 <= n < m && 0 <= Short(p) <= Short(r)
    ensures Bound(n, p) + Short(r) <= Bound(m, r) && 50 <= Bound(n, r) && 50 <= Bound(n, p)
  {
    Scale(Short(p), Short(r), n - 1);
    Scale(n, m - 1, Short(r));
    assert (n - 1) * Short(r) + Short(r) == n * Short(r);
    assert (n - 1) * Short(p) >= 0;
  }

  lemma PartShorter(sizes: seq<int>, r: Rect)
    requires |sizes| > 1 && NonNegative(sizes) && !Empty(r)
    ensures var d := DivisionOf(sizes, r);
            0 <= Short(d.p) <= Short(r) && 0 <= Short(d.q) <= Short(r) && Short(r) >= 1
  {
    hide Share, Sum, Shown, FirstBin;
  }

  /** Both parts are near their shares. */
  lemma PartsNear(sizes: seq<int>, r: Rect)
    requires |sizes| > 1 && NonNegative(sizes) && !Empty(r) && Sum(sizes) > 0
    requires DivisionOf(sizes, r).n == |sizes|
    ensures var d, total := DivisionOf(sizes, r), Sum(sizes);
            && Sum(sizes[..d.k]) + Sum(sizes[d.k..]) == total && sizes[d.k..d.n] == sizes[d.k..]
            && Near(Area(d.p), Sum(sizes[..d.k]), Area(r), total, Short(r))
            && Near(Area(d.q), Sum(sizes[d.k..]), Area(r), total, Short(r))
  {
    hide *;
    var d := DivisionOf(sizes, r);
    DivisionIs(sizes, r);
    assert sizes[d.k..d.n] == sizes[d.k..];
    SumConcat(sizes[..d.k], sizes[d.k..]);
    assert sizes == sizes[..d.k] + sizes[d.k..];
    CutNear(r, Sum(sizes[..d.k]), Sum(sizes[d.k..]));
  }

  lemma CutNear(r: Rect, s1: int, s2: int)
    requires !Empty(r) && s1 >= 0 && s2 >= 0 && s1 + s2 > 0
    ensures var p := Parts(r, s1, s2);
            Near(Area(p.0), s1, Area(r), s1 + s2, Short(r)) && Near(Area(p.1), s2, Area(r), s1 + s2, Short(r))
  {
    hide *;
    var p := Parts(r, s1, s2);
    PartsProportional(r, s1, s2);
    PartsArea(r, s1, s2);
    ShortIs(r);
    NearBoth(Area(p.0), Area(p.1), Area(r), s1, s2, Short(r));
  }

  lemma ShortIs(r: Rect)
    ensures Short(r) == if r.w >= r.h then r.h else r.w
  {
  }

  lemma NearBoth(a1: int, a2: int, whole: int, s1: int, s2: int, line: int)
    requires a1 + a2 == whole
    ensures 0 <= whole * s1 - a1 * (s1 + s2) < line * (s1 + s2) ==>
              Near(a1, s1, whole, s1 + s2, line) && Near(a2, s2, whole, s1 + s2, line)
  {
    var total := s1 + s2;
    Distribute(whole, s1, s2);
    assert a2 * total == whole * total - a1 * total;
    assert s1 * whole == whole * s1 && s2 * whole == whole * s2;
  }

  // ------------------------------------------------------------------ all the cuts

  /** The area of child `i` is that of a child of its group. */
  lemma InGroup(sizes: seq<int>, areas: seq<Rect>, r: Rect, i: nat)
    requires |sizes| == |areas| > 1 && NonNegative(sizes) && !Empty(r) && i < |sizes|
    requires DivisionOf(sizes, r).n == |sizes|
    ensures var d := DivisionOf(sizes, r);
            && NonNegative(sizes[..d.k]) && NonNegative(sizes[d.k..])
            && Allocated(sizes, areas, r)[i] ==
               if i < d.k then (if d.k > 1 then Allocated(sizes[..d.k], areas[..d.k], d.p)[i] else SetArea(d.p))
               else if |sizes| - d.k > 1 then Allocated(sizes[d.k..], areas[d.k..], d.q)[i - d.k]
               else SetArea(d.q)
  {
    hide *;
    var d := DivisionOf(sizes, r);
    DivisionFits(sizes, r);
    DivisionAreas(sizes, areas, r);
    assert sizes[d.k..d.n] == sizes[d.k..] && areas[d.k..d.n] == areas[d.k..];
    GroupsAre(sizes, areas, d);
    Pick(FirstAreas(sizes, areas, d), SecondAreas(sizes, areas, d), Hidden(areas[d.n..]), i);
  }

  lemma GroupsAre(sizes: seq<int>, areas: seq<Rect>, d: Division)
    requires |sizes| == |areas| && NonNegative(sizes) && 1 <= d.k < d.n == |sizes|
    ensures |FirstAreas(sizes, areas, d)| == d.k && |SecondAreas(sizes, areas, d)| == d.n - d.k
    ensures FirstAreas(sizes, areas, d) ==
              if d.k > 1 then Allocated(sizes[..d.k], areas[..d.k], d.p) else [SetArea(d.p)]
    ensures SecondAreas(sizes, areas, d) ==
              if d.n - d.k > 1 then Allocated(sizes[d.k..d.n], areas[d.k..d.n], d.q) else [SetArea(d.q)]
  {
  }

  lemma Pick<T>(a: seq<T>, b: seq<T>, c: seq<T>, i: nat)
    requires i < |a| + |b|
    ensures (a + b + c)[i] == if i < |a| then a[i] else b[i - |a|]
  {
  }

  lemma SetAreaKeeps(r: Rect)
    ensures Area(SetArea(r)) == Area(r)
  {
  }

  /** A child in its group, and the group in the whole. */
  lemma {:induction false} GroupNear(sizes: seq<int>, areas: seq<Rect>, p: Rect, j: nat, r: Rect, whole: int,
                                     total: int, n: nat)
    requires |sizes| == |areas| > 0 && Orderly(sizes) && SizelessEmpty(sizes, areas) && j < |sizes| < n
    requires 0 <= Short(p) <= Short(r) && Sum(sizes) <= total
    requires |sizes| > 1 && Sum(sizes) > 0 ==> !Empty(p)
    requires Sum(sizes) == 0 ==> Area(p) == 0
    requires total > 0 && Near(Area(p), Sum(sizes), whole, total, Short(r))
    ensures NonNegative(sizes)
    ensures var out := if |sizes| > 1 then Allocated(sizes, areas, p)[j] else SetArea(p);
            Near(Area(out), sizes[j], whole, total, Bound(n, r))
    decreases |sizes|, 2
  {
    hide *;
    OrderlyIs(sizes);
    OneInSum(sizes, j);
    BoundGrows(|sizes|, n, r, p);
    SetAreaKeeps(p);
    if Sum(sizes) == 0 {
      if |sizes| > 1 {
        OneFitsIn(sizes, areas, p, j);
      }
      NothingNear(whole, total, Bound(n, r));
    } else if |sizes| == 1 {
      OneSum(sizes);
      NearWider(Area(p), sizes[j], whole, total, Short(r), Bound(n, r));
    } else {
      AreaNear(sizes, areas, p, j);
      NearWithin(Area(Allocated(sizes, areas, p)[j]), sizes[j], whole, total, Area(p), Sum(sizes),
                 Bound(|sizes|, p), Short(r));
      NearWider(Area(Allocated(sizes, areas, p)[j]), sizes[j], whole, total, Bound(|sizes|, p) + Short(r), Bound(n, r));
    }
  }

  lemma NothingNear(whole: int, total: int, bound: int)
    requires total >= 0 && bound >= 0
    ensures Near(0, 0, whole, total, bound)
  {
    Scale(0, bound, total);
  }

  lemma OneSum(sizes: seq<int>)
    requires |sizes| == 1
    ensures Sum(sizes) == sizes[0]
  {
  }

  /**
   After all cuts, the area of every child is its share of the rectangle, give or take as many times the
   shorter side as there are other children, and fifty pixels.
   */
  lemma {:induction false} AreaNear(sizes: seq<int>, areas: seq<Rect>, r: Rect, i: nat)
    requires |sizes| == |areas| > 0 && Orderly(sizes) && SizelessEmpty(sizes, areas) && !Empty(r) && i < |sizes|
    ensures NonNegative(sizes)
    ensures Near(Area(Allocated(sizes, areas, r)[i]), sizes[i], Area(r), Sum(sizes), Bound(|sizes|, r))
    decreases |sizes|, 1
  {
    hide *;
    OrderlyIs(sizes);
    OneInSum(sizes, i);
    OneFitsIn(sizes, areas, r, i);
    BoundLeast(|sizes|, r);
    if Area(r) <= 50 {
      SmallNear(Area(Allocated(sizes, areas, r)[i]), sizes[i], Area(r), Sum(sizes), 50);
      NearWider(Area(Allocated(sizes, areas, r)[i]), sizes[i], Area(r), Sum(sizes), 50, Bound(|sizes|, r));
    } else if |sizes| == 1 {
      WholeNear(sizes, areas, r);
    } else if Sum(sizes) == 0 {
      NoneNear(Area(Allocated(sizes, areas, r)[i]), Area(r), Bound(|sizes|, r));
    } else {
      AreaNearCut(sizes, areas, r, i);
    }
  }

  lemma NoneNear(area: int, whole: int, bound: int)
    ensures Near(area, 0, whole, 0, bound)
  {
  }

  lemma BoundLeast(n: nat, r: Rect)
    requires n >= 1 && !Empty(r)
    ensures Bound(n, r) >= 50 && Short(r) >= 1
  {
    assert (n - 1) * Short(r) >= 0;
  }

  lemma WholeNear(sizes: seq<int>, areas: seq<Rect>, r: Rect)
    requires |sizes| == |areas| == 1 && NonNegative(sizes) && !Empty(r)
    ensures Near(Area(Allocated(sizes, areas, r)[0]), sizes[0], Area(r), Sum(sizes), Bound(1, r))
  {
    SetAreaKeeps(r);
    hide Area;
    assert Sum(sizes) == sizes[0] && Allocated(sizes, areas, r) == [SetArea(r)];
  }

  lemma AreaNearCut(sizes: seq<int>, areas: seq<Rect>, r: Rect, i: nat)
    requires |sizes| == |areas| > 1 && Orderly(sizes) && SizelessEmpty(sizes, areas) && !Empty(r) && i < |sizes|
    requires Area(r) > 50 && Sum(sizes) > 0
    ensures NonNegative(sizes)
    ensures Near(Area(Allocated(sizes, areas, r)[i]), sizes[i], Area(r), Sum(sizes), Bound(|sizes|, r))
    decreases |sizes|, 0
  {
    hide *;
    OrderlyIs(sizes);
    AllAreShown(sizes, r);
    var d := DivisionOf(sizes, r);
    PartsNear(sizes, r);
    PartShorter(sizes, r);
    InGroup(sizes, areas, r, i);
    FirstHasSize(sizes);
    SumIsNonNegative(sizes[..d.k]);
    SumIsNonNegative(sizes[d.k..]);
    assert sizes[..d.k] == sizes[0..d.k] && areas[..d.k] == areas[0..d.k];
    assert sizes[d.k..] == sizes[d.k..|sizes|] && areas[d.k..] == areas[d.k..|areas|];
    if i < d.k {
      OrderlyPart(sizes, 0, d.k);
      SizelessPart(sizes, areas, 0, d.k);
      SumOfFirst(sizes, d.k);
      if d.k > 1 {
        FirstPartSome(sizes, r);
      }
      GroupNear(sizes[..d.k], areas[..d.k], d.p, i, r, Area(r), Sum(sizes), |sizes|);
    } else {
      OrderlyPart(sizes, d.k, |sizes|);
      SizelessPart(sizes, areas, d.k, |sizes|);
      SecondPartSome(sizes, r);
      SecondPartNone(sizes, r);
      GroupNear(sizes[d.k..], areas[d.k..], d.q, i - d.k, r, Area(r), Sum(sizes), |sizes|);
    }
  }

  lemma FirstHasSize(sizes: seq<int>)
    requires Orderly(sizes) && sizes != [] && Sum(sizes) > 0
    ensures sizes[0] > 0
  {
    if sizes[0] == 0 {
      NoneLeft(sizes);
    }
  }

  /** A group of no size gets no area. */
  lemma SecondPartNone(sizes: seq<int>, r: Rect)
    requires Orderly(sizes) && |sizes| > 1 && !Empty(r) && sizes[0] > 0
    ensures var d := DivisionOf(sizes, r);
            Sum(sizes[d.k..d.n]) == 0 ==> Area(d.q) == 0
  {
    hide *;
    OrderlyIs(sizes);
    DivisionIs(sizes, r);
    var d := DivisionOf(sizes, r);
    SumOfFirst(sizes, d.k);
    if Sum(sizes[d.k..d.n]) == 0 {
      WholeShare(r, Sum(sizes[..d.k]));
      EmptyArea(d.q);
    }
  }

  lemma EmptyArea(r: Rect)
    ensures Area(r) == 0 <==> Empty(r)
    ensures !Empty(r) ==> Area(r) == r.w * r.h
  {
  }

  /** In more than fifty pixels no child is hidden. */
  lemma AllAreShown(sizes: seq<int>, r: Rect)
    requires Orderly(sizes) && |sizes| > 1 && Area(r) > 50
    ensures !Empty(r) && NonNegative(sizes) && DivisionOf(sizes, r).n == |sizes|
  {
    hide DivisionOf, Area, Orderly;
    OrderlyIs(sizes);
    ManyShown(sizes, r);
    DivisionIs(sizes, r);
  }

  /** Children are hidden in fifty pixels or less, and then all but two are. */
  lemma HiddenExactly(sizes: seq<int>, r: Rect)
    requires Orderly(sizes) && |sizes| > 2 && !Empty(r) && sizes[0] > 0
    ensures NonNegative(sizes)
    ensures DivisionOf(sizes, r).n == if r.w * r.h > 50 then |sizes| else 2
  {
    hide DivisionOf, Shown, FirstBin, Parts, Sum, Area, Orderly;
    OrderlyIs(sizes);
    EmptyArea(r);
    DivisionIs(sizes, r);
    if r.w * r.h > 50 {
      AllAreShown(sizes, r);
    } else {
      FewShown(sizes, r);
    }
  }

  // ------------------------------------------------------------------ what is visible

  /** The same in plain numbers. */
  lemma AreaShare(sizes: seq<int>, areas: seq<Rect>, r: Rect, i: nat)
    requires |sizes| == |areas| > 0 && Orderly(sizes) && SizelessEmpty(sizes, areas) && !Empty(r) && i < |sizes|
    ensures NonNegative(sizes)
    ensures var area, total := Area(Allocated(sizes, areas, r)[i]), Sum(sizes);
            var most := ((|sizes| - 1) * (if r.w >= r.h then r.h else r.w) + 50) * total;
            -most <= area * total - sizes[i] * (r.w * r.h) <= most
  {
    hide *;
    OrderlyIs(sizes);
    AreaNear(sizes, areas, r, i);
    EmptyArea(r);
    NearMeans(Area(Allocated(sizes, areas, r)[i]), sizes[i], r, Sum(sizes), |sizes|);
  }

  lemma NearMeans(area: int, size: int, r: Rect, total: int, n: nat)
    requires Near(area, size, r.w * r.h, total, Bound(n, r))
    ensures var most := ((n - 1) * (if r.w >= r.h then r.h else r.w) + 50) * total;
            -most <= area * total - size * (r.w * r.h) <= most
  {
    var b := Bound(n, r);
    assert b == (n - 1) * (if r.w >= r.h then r.h else r.w) + 50;
  }

  /** A child whose share is large enough is not hidden. */
  lemma LargeShown(sizes: seq<int>, areas: seq<Rect>, r: Rect, i: nat)
    requires |sizes| == |areas| > 0 && Orderly(sizes) && SizelessEmpty(sizes, areas) && !Empty(r) && i < |sizes|
    requires sizes[i] * (r.w * r.h) > ((|sizes| - 1) * (if r.w >= r.h then r.h else r.w) + 50) * Sum(sizes)
    ensures NonNegative(sizes) && !Empty(Allocated(sizes, areas, r)[i])
  {
    hide *;
    OrderlyIs(sizes);
    AreaShare(sizes, areas, r, i);
    EmptyArea(Allocated(sizes, areas, r)[i]);
    NoArea(Sum(sizes));
  }

  lemma NoArea(total: int)
    ensures 0 * total == 0
  {
  }

  /** In a rectangle that is large enough, all children of equal size are visible. */
  lemma EqualShown(n: nat, size: int, sizes: seq<int>, areas: seq<Rect>, r: Rect, i: nat)
    requires |sizes| == |areas| == n > 0 && size > 0 && (forall j :: 0 <= j < n ==> sizes[j] == size) && i < n
    requires !Empty(r) && r.w * r.h > ((n - 1) * (if r.w >= r.h then r.h else r.w) + 50) * n
    ensures NonNegative(sizes) && !Empty(Allocated(sizes, areas, r)[i])
  {
    EqualSum(sizes, size);
    EqualOrderly(sizes, areas, size);
    hide *;
    EqualBound(size, r.w * r.h, (n - 1) * (if r.w >= r.h then r.h else r.w) + 50, n);
    LargeShown(sizes, areas, r, i);
  }

  lemma EqualOrderly(sizes: seq<int>, areas: seq<Rect>, size: int)
    requires |sizes| == |areas| && size > 0 && forall j :: 0 <= j < |sizes| ==> sizes[j] == size
    ensures Orderly(sizes) && SizelessEmpty(sizes, areas)
  {
  }

  lemma EqualBound(size: int, whole: int, bound: int, n: nat)
    requires size > 0 && whole > bound * n
    ensures size * whole > bound * (n * size)
  {
    Sign(whole - bound * n, size);
    assert (whole - bound * n) * size == whole * size - (bound * n) * size;
    assert (bound * n) * size == bound * (n * size);
    assert whole * size == size * whole;
  }

  lemma {:induction false} EqualSum(sizes: seq<int>, size: int)
    requires forall j :: 0 <= j < |sizes| ==> sizes[j] == size
    ensures Sum(sizes) == |sizes| * size
  {
    if sizes != [] {
      EqualSum(sizes[1..], size);
      assert |sizes| * size == size + (|sizes| - 1) * size;
    }
  }
}
