/** The allocation on integers of limited width. */
module Overflows {
  import opened Treemap
  import opened Tilings

  predicate Fits(x: int, limit: int) {
    -limit <= x < limit
  }

  /** What the greedy filling of the first bin computes for each child. */
  predicate BinsFit(sizes: seq<int>, limit64: int) {
    forall i :: 1 <= i < |sizes| ==>
      && Fits(sizes[i] * 2, limit64)
      && Fits(Sum(sizes[i..]) - Sum(sizes[..i]), limit64)
      && Fits(Sum(sizes[i..]) - Sum(sizes[..i]) - sizes[i] * 2, limit64)
  }

  /** What the allocation computes of sizes, lengths and coordinates before it goes on with the two parts. */
  predicate StepFits(sizes: seq<int>, r: Rect, d: Division, limit64: int, limit32: int)
    requires 1 <= d.k < d.n <= |sizes| && !Empty(r)
  {
    var sum1, sum2 := Sum(sizes[..d.k]), Sum(sizes[d.k..d.n]);
    Positive(r.h, r.w);
    && (forall i :: 0 <= i <= |sizes| ==> Fits(Sum(sizes[..i]), limit64))
    && Fits(r.h * r.w, limit32)
    && Fits(Sum(sizes) * (MIN_CHILD_PIXEL_AREA / (r.h * r.w)), limit64)
    && BinsFit(sizes[..d.n], limit64)
    && Fits(sum1 + sum2, limit64) && Fits(r.w * sum1, limit64) && Fits(r.h * sum1, limit64)
    && Fits(d.q.x, limit32) && Fits(d.q.y, limit32)
    && Fits(d.p.w, limit32) && Fits(d.p.h, limit32) && Fits(d.q.w, limit32) && Fits(d.q.h, limit32)
  }

  /** Everything that the allocation computes, at any depth, fits the integer types that it is computed in. */
  predicate InRange(sizes: seq<int>, r: Rect, limit64: int, limit32: int)
    requires |sizes| > 0 && NonNegative(sizes)
    decreases |sizes|
  {
    Empty(r) || |sizes| == 1 ||
    var d := DivisionOf(sizes, r);
    && StepFits(sizes, r, d, limit64, limit32)
    && (d.k > 1 ==> InRange(sizes[..d.k], d.p, limit64, limit32))
    && (d.n - d.k > 1 ==> InRange(sizes[d.k..d.n], d.q, limit64, limit32))
  }

  lemma BinsAreFit(sizes: seq<int>, most: int, limit64: int)
    requires NonNegative(sizes) && Sum(sizes) <= most && 2 * most < limit64
    ensures BinsFit(sizes, limit64)
  {
    hide Sum, Fits;
    forall i | 1 <= i < |sizes|
      ensures Fits(sizes[i] * 2, limit64)
      ensures Fits(Sum(sizes[i..]) - Sum(sizes[..i]), limit64)
      ensures Fits(Sum(sizes[i..]) - Sum(sizes[..i]) - sizes[i] * 2, limit64)
    {
      BinIsFit(sizes, i, most, limit64);
    }
  }

  lemma BinIsFit(sizes: seq<int>, i: nat, most: int, limit64: int)
    requires NonNegative(sizes) && Sum(sizes) <= most && 2 * most < limit64 && i < |sizes|
    ensures Fits(sizes[i] * 2, limit64)
    ensures Fits(Sum(sizes[i..]) - Sum(sizes[..i]), limit64)
    ensures Fits(Sum(sizes[i..]) - Sum(sizes[..i]) - sizes[i] * 2, limit64)
  {
    hide Sum, Imbalance;
    assert sizes[0..] == sizes && sizes[0..i] == sizes[..i];
    Shifted(sizes, 0, i);
    GreedyStep(sizes, i);
    SumIsNonNegative(sizes[..i]);
    SumIsNonNegative(sizes[i + 1..]);
  }

  /** A rectangle that ends before the limits. */
  predicate OnScreen(r: Rect, length: int, limit32: int) {
    && r.w <= length && r.h <= length && length < limit32
    && -limit32 <= r.x && r.x + r.w < limit32 && -limit32 <= r.y && r.y + r.h < limit32
  }

  lemma PartsPlaced(sizes: seq<int>, r: Rect, length: int, limit32: int)
    requires |sizes| > 1 && NonNegative(sizes) && !Empty(r) && OnScreen(r, length, limit32)
    ensures var d := DivisionOf(sizes, r);
            && OnScreen(d.p, length, limit32) && OnScreen(d.q, length, limit32)
            && Fits(d.q.x, limit32) && Fits(d.q.y, limit32)
            && Fits(d.p.w, limit32) && Fits(d.p.h, limit32) && Fits(d.q.w, limit32) && Fits(d.q.h, limit32)
  {
    hide Share, Sum, Shown, FirstBin;
  }

  lemma ProductsFit(h: int, w: int, sum: int, sum1: int, most: int, length: int, limit64: int, limit32: int)
    requires 1 <= h <= length && 1 <= w <= length && 0 <= sum1 <= sum <= most && 1 <= most
    requires most * length < limit64 && most * MIN_CHILD_PIXEL_AREA < limit64 && length * length < limit32
    ensures h * w >= 1 && Fits(h * w, limit32) && Fits(sum * (MIN_CHILD_PIXEL_AREA / (h * w)), limit64)
    ensures Fits(w * sum1, limit64) && Fits(h * sum1, limit64)
  {
    Positive(h, w);
    Product(h, w, length, length);
    Product(sum1, w, most, length);
    Product(sum1, h, most, length);
    var area := h * w;
    Product(1, MIN_CHILD_PIXEL_AREA, area, MIN_CHILD_PIXEL_AREA);
    Quotient(MIN_CHILD_PIXEL_AREA, area, MIN_CHILD_PIXEL_AREA);
    var minPart := MIN_CHILD_PIXEL_AREA / area;
    Product(sum, minPart, most, MIN_CHILD_PIXEL_AREA);
    Product(0, 0, sum, minPart);
    Product(0, 0, w, sum1);
    Product(0, 0, h, sum1);
  }

  lemma StepIsFit(sizes: seq<int>, r: Rect, most: int, length: int, limit64: int, limit32: int)
    requires |sizes| > 1 && NonNegative(sizes) && Sum(sizes) <= most && 1 <= most
    requires !Empty(r) && OnScreen(r, length, limit32)
    requires most * length < limit64 && most * MIN_CHILD_PIXEL_AREA < limit64 && length * length < limit32
    ensures StepFits(sizes, r, DivisionOf(sizes, r), limit64, limit32)
  {
    hide DivisionOf, Sum, BinsFit;
    var d := DivisionOf(sizes, r);
    forall i | 0 <= i <= |sizes|
      ensures Fits(Sum(sizes[..i]), limit64)
    {
      PartialSums(sizes, i, i);
    }
    PartialSums(sizes, d.k, d.n);
    Shifted(sizes, d.k, d.n);
    PartialSums(sizes, d.n, d.n);
    BinsAreFit(sizes[..d.n], most, limit64);
    PartsPlaced(sizes, r, length, limit32);
    SumIsNonNegative(sizes);
    ProductsFit(r.h, r.w, Sum(sizes), Sum(sizes[..d.k]), most, length, limit64, limit32);
    hide OnScreen, NonNegative;
  }

  /** A bound on sizes and lengths under which nothing overflows, at any depth. */
  lemma {:induction false} NoOverflow(sizes: seq<int>, r: Rect, most: int, length: int, limit64: int, limit32: int)
    requires |sizes| > 0 && NonNegative(sizes) && Sum(sizes) <= most && 1 <= most && OnScreen(r, length, limit32)
    requires most * length < limit64 && most * MIN_CHILD_PIXEL_AREA < limit64 && length * length < limit32
    ensures InRange(sizes, r, limit64, limit32)
    decreases |sizes|
  {
    hide DivisionOf, Sum, StepFits, OnScreen;
    if !Empty(r) && |sizes| > 1 {
      var d := DivisionOf(sizes, r);
      DivisionFits(sizes, r);
      PartialSums(sizes, d.k, d.n);
      StepIsFit(sizes, r, most, length, limit64, limit32);
      PartsPlaced(sizes, r, length, limit32);
      if d.k > 1 {
        NoOverflow(sizes[..d.k], d.p, most, length, limit64, limit32);
      }
      if d.n - d.k > 1 {
        NoOverflow(sizes[d.k..d.n], d.q, most, length, limit64, limit32);
      }
    }
  }

  const INT64_LIMIT := 0x8000_0000_0000_0000
  const INT32_LIMIT := 0x8000_0000

  /** Up to 199 terabytes in a picture of at most 46340 pixels each way, there is no overflow. */
  lemma NoOverflowOnScreen(sizes: seq<int>, r: Rect)
    requires |sizes| > 0 && NonNegative(sizes) && Sum(sizes) <= 199_000_000_000_000
    requires OnScreen(r, 46_340, INT32_LIMIT)
    ensures InRange(sizes, r, INT64_LIMIT, INT32_LIMIT)
  {
    NoOverflow(sizes, r, 199_000_000_000_000, 46_340, INT64_LIMIT, INT32_LIMIT);
  }

  lemma PartialSums(sizes: seq<int>, k: nat, n: nat)
    requires NonNegative(sizes) && k <= n <= |sizes|
    ensures 0 <= Sum(sizes[..k]) <= Sum(sizes) && 0 <= Sum(sizes[k..n]) <= Sum(sizes)
  {
    hide Sum;
    var a, b, c := sizes[..k], sizes[k..n], sizes[n..];
    assert sizes == (a + b) + c;
    SumConcat(a + b, c);
    SumConcat(a, b);
    SumIsNonNegative(a);
    SumIsNonNegative(b);
    SumIsNonNegative(c);
  }
}
