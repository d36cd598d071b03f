/** Dividing a rectangle among the children of a view. */
module Treemap {

  datatype Rect = Rect(x: int, y: int, w: int, h: int)

  const MIN_CHILD_PIXEL_AREA := 50

  predicate Empty(r: Rect) {
    r.w < 1 || r.h < 1
  }

  function Area(r: Rect): (a: int)
    ensures a >= 0 && (a == 0 <==> Empty(r))
  {
    if Empty(r) then 0 else Positive(r.w, r.h); r.w * r.h
  }

  lemma Positive(a: int, b: int)
    requires a >= 1 && b >= 1
    ensures a * b >= 1
  {
  }

  predicate Inside(a: Rect, r: Rect) {
    r.x <= a.x && r.y <= a.y && a.x + a.w <= r.x + r.w && a.y + a.h <= r.y + r.h
  }

  predicate Disjoint(a: Rect, b: Rect) {
    || Empty(a) || Empty(b)
    || a.x + a.w <= b.x || b.x + b.w <= a.x
    || a.y + a.h <= b.y || b.y + b.h <= a.y
  }

  lemma Product(a: int, b: int, c: int, d: int)
    requires 0 <= a <= c && 0 <= b <= d
    ensures a * b <= c * d
  {
    Sign(d - b + 1, a + 1);
    assert a * b <= a * d;
    assert a * d <= c * d;
  }

  function Sum(s: seq<int>): int {
    if s == [] then 0 else s[0] + Sum(s[1..])
  }

  lemma {:induction false} SumConcat(a: seq<int>, b: seq<int>)
    ensures Sum(a + b) == Sum(a) + Sum(b)
  {
    if a == [] {
      assert a + b == b;
    } else {
      assert (a + b)[1..] == a[1..] + b;
      SumConcat(a[1..], b);
    }
  }

  predicate NonNegative(s: seq<int>) {
    forall i :: 0 <= i < |s| ==> s[i] >= 0
  }

  lemma {:induction false} SumIsNonNegative(s: seq<int>)
    requires NonNegative(s)
    ensures Sum(s) >= 0
  {
    if s != [] {
      SumIsNonNegative(s[1..]);
    }
  }

  function Abs(x: int): int {
    if x < 0 then -x else x
  }

  // ------------------------------------------------------------- the specification

  /** How many children are shown, the first `i` being so: the next small one ends it, but for the first two. */
  function ShownFrom(sizes: seq<int>, minSize: int, i: nat): (n: nat)
    requires i <= |sizes|
    ensures i <= n <= |sizes|
    ensures |sizes| >= 2 ==> n >= 2
    decreases |sizes| - i
  {
    if i == |sizes| || (sizes[i] < minSize && i > 1) then i else ShownFrom(sizes, minSize, i + 1)
  }

  /** How many children go to the first bin, the first `i` of weight `sum1` being in it. */
  function BinFrom(sizes: seq<int>, i: nat, sum1: int, sum2: int): (k: nat)
    requires i <= |sizes|
    ensures i <= k <= |sizes|
    decreases |sizes| - i
  {
    if i < |sizes| && Abs(sum2 - sum1 - sizes[i] * 2) < Abs(sum2 - sum1) then
      BinFrom(sizes, i + 1, sum1 + sizes[i], sum2 - sizes[i])
    else i
  }

  function FirstBin(sizes: seq<int>): nat
    requires |sizes| >= 2
  {
    BinFrom(sizes, 1, sizes[0], Sum(sizes[1..]))
  }

  /** The first bin never swallows the last child. */
  lemma {:induction false} BinStops(sizes: seq<int>, i: nat, sum1: int)
    requires NonNegative(sizes) && sum1 >= 0 && i < |sizes|
    ensures BinFrom(sizes, i, sum1, Sum(sizes[i..])) < |sizes|
    decreases |sizes| - i
  {
    var sum2 := Sum(sizes[i..]);
    assert sizes[i..][1..] == sizes[i + 1..];
    if i == |sizes| - 1 {
      assert sizes[i + 1..] == [];
    } else if Abs(sum2 - sum1 - sizes[i] * 2) < Abs(sum2 - sum1) {
      BinStops(sizes, i + 1, sum1 + sizes[i]);
    }
  }

  lemma FirstBinPart(sizes: seq<int>)
    requires |sizes| >= 2 && NonNegative(sizes)
    ensures 1 <= FirstBin(sizes) < |sizes|
  {
    BinStops(sizes, 1, sizes[0]);
  }

  /** Children of no size come last. */
  predicate ZerosLast(sizes: seq<int>) {
    forall i, j :: 0 <= i < j < |sizes| && sizes[i] == 0 ==> sizes[j] == 0
  }

  /** By how much the bins differ when the first `k` children go to the first one. */
  function Imbalance(sizes: seq<int>, k: nat): int
    requires k <= |sizes|
  {
    Abs(Sum(sizes[k..]) - Sum(sizes[..k]))
  }

  /** What a bin loses, the other one gains. */
  lemma Shifted(sizes: seq<int>, i: nat, k: nat)
    requires i <= k <= |sizes|
    ensures Sum(sizes[..k]) == Sum(sizes[..i]) + Sum(sizes[i..k])
    ensures Sum(sizes[i..]) == Sum(sizes[i..k]) + Sum(sizes[k..])
  {
    assert sizes[..k] == sizes[..i] + sizes[i..k] && sizes[i..] == sizes[i..k] + sizes[k..];
    SumConcat(sizes[..i], sizes[i..k]);
    SumConcat(sizes[i..k], sizes[k..]);
  }

  lemma {:induction false} SumOfZeros(s: seq<int>)
    requires forall i :: 0 <= i < |s| ==> s[i] == 0
    ensures Sum(s) == 0
  {
    if s != [] {
      SumOfZeros(s[1..]);
    }
  }

  /** Where the greedy filling stops, no larger first bin is better balanced. */
  lemma StopsBalanced(sizes: seq<int>, i: nat, k: nat)
    requires NonNegative(sizes) && ZerosLast(sizes) && i < k <= |sizes|
    requires Imbalance(sizes, i + 1) >= Imbalance(sizes, i)
    ensures Imbalance(sizes, k) >= Imbalance(sizes, i)
  {
    var part := sizes[i..k];
    assert part == [sizes[i]] + part[1..] && sizes[i..i + 1] == [sizes[i]];
    Shifted(sizes, i, i + 1);
    Shifted(sizes, i, k);
    SumConcat([sizes[i]], part[1..]);
    assert Sum([sizes[i]]) == sizes[i] + Sum([]);
    if sizes[i] == 0 {
      SumOfZeros(part);
    } else {
      SumIsNonNegative(part[1..]);
    }
  }

  lemma {:induction false} BinBalances(sizes: seq<int>, i: nat)
    requires NonNegative(sizes) && ZerosLast(sizes) && i <= |sizes|
    ensures var n := BinFrom(sizes, i, Sum(sizes[..i]), Sum(sizes[i..]));
            && (forall k :: i <= k <= |sizes| ==> Imbalance(sizes, n) <= Imbalance(sizes, k))
            && (forall k :: i <= k < n ==> Imbalance(sizes, n) < Imbalance(sizes, k))
    decreases |sizes| - i
  {
    hide Imbalance, Sum, ZerosLast, NonNegative;
    if i < |sizes| {
      GreedyStep(sizes, i);
      if Imbalance(sizes, i + 1) < Imbalance(sizes, i) {
        BinBalances(sizes, i + 1);
      } else {
        forall k | i < k <= |sizes|
          ensures Imbalance(sizes, i) <= Imbalance(sizes, k)
        {
          StopsBalanced(sizes, i, k);
        }
      }
    }
  }

  /** The test of the greedy filling compares two imbalances. */
  lemma GreedyStep(sizes: seq<int>, i: nat)
    requires i < |sizes|
    ensures Sum(sizes[..i + 1]) == Sum(sizes[..i]) + sizes[i] && Sum(sizes[i + 1..]) == Sum(sizes[i..]) - sizes[i]
    ensures Imbalance(sizes, i) == Abs(Sum(sizes[i..]) - Sum(sizes[..i]))
    ensures Imbalance(sizes, i + 1) == Abs(Sum(sizes[i..]) - Sum(sizes[..i]) - sizes[i] * 2)
  {
    Shifted(sizes, i, i + 1);
    assert sizes[i..i + 1] == [sizes[i]] && Sum([sizes[i]]) == sizes[i] + Sum([]);
  }

  /**
   The greedy choice is the best one: no other division into a first and a second bin is better
   balanced, and none with fewer children in the first bin is as good.
   */
  lemma FirstBinBalances(sizes: seq<int>)
    requires |sizes| >= 2 && NonNegative(sizes) && ZerosLast(sizes)
    ensures 1 <= FirstBin(sizes) < |sizes|
    ensures forall k :: 1 <= k <= |sizes| ==> Imbalance(sizes, FirstBin(sizes)) <= Imbalance(sizes, k)
    ensures forall k :: 1 <= k < FirstBin(sizes) ==> Imbalance(sizes, FirstBin(sizes)) < Imbalance(sizes, k)
  {
    FirstBinPart(sizes);
    BinBalances(sizes, 1);
    assert sizes[..1] == [sizes[0]] && Sum([sizes[0]]) == sizes[0] + Sum([]);
  }

  function SetArea(r: Rect): Rect {
    if Empty(r) then Rect(r.x, r.y, 0, 0) else r
  }

  /** How many of the children are shown in `r`. */
  function Shown(sizes: seq<int>, r: Rect): (n: nat)
    requires !Empty(r)
    ensures n <= |sizes| && (|sizes| >= 2 ==> n >= 2)
  {
    Positive(r.w, r.h);
    ShownFrom(sizes, Sum(sizes) * (MIN_CHILD_PIXEL_AREA / (r.h * r.w)), 0)
  }

  /** The share of the first bin in a length. */
  function Share(length: int, sum1: int, sum2: int): (m: int)
    requires length >= 0 && sum1 >= 0 && sum2 >= 0
    ensures 0 <= m <= length
  {
    var a, b := if sum1 == 0 && sum2 == 0 then 1 else sum1, if sum1 == 0 && sum2 == 0 then 1 else sum2;
    ShareBound(length, a, b);
    (length * a) / (a + b)
  }

  lemma ShareBound(length: int, a: int, b: int)
    requires length >= 0 && a >= 0 && b >= 0 && a + b > 0
    ensures 0 <= (length * a) / (a + b) <= length
  {
    assert 0 <= length * a <= length * (a + b);
    Quotient(length * a, a + b, length);
  }

  lemma Quotient(x: int, y: int, most: int)
    requires y > 0 && 0 <= x <= most * y
    ensures 0 <= x / y <= most
  {
    var q := x / y;
    assert q * y <= x < (q + 1) * y;
    Sign(q - most, y);
    Sign(-q - 1, y);
    assert (q - most) * y <= 0 && (-q - 1) * y < 0;
  }

  lemma Sign(x: int, y: int)
    requires y > 0
    ensures x >= 1 ==> x * y >= 1
    ensures x >= 0 ==> x * y >= 0
  {
  }

  /** The two parts of `r`: cut across its longer side. */
  function Parts(r: Rect, sum1: int, sum2: int): (p: (Rect, Rect))
    requires !Empty(r) && sum1 >= 0 && sum2 >= 0
    ensures p.0.w >= 0 && p.0.h >= 0 && p.1.w >= 0 && p.1.h >= 0
  {
    if r.w >= r.h then
      var m := Share(r.w, sum1, sum2);
      (Rect(r.x, r.y, m, r.h), Rect(r.x + m, r.y, r.w - m, r.h))
    else
      var m := Share(r.h, sum1, sum2);
      (Rect(r.x, r.y, r.w, m), Rect(r.x, r.y + m, r.w, r.h - m))
  }

  /** The first bin gets its share of the area but for less than one line; the cut is across the longer side. */
  lemma PartsProportional(r: Rect, sum1: int, sum2: int)
    requires !Empty(r) && sum1 >= 0 && sum2 >= 0 && sum1 + sum2 > 0
    ensures var p, total, line := Parts(r, sum1, sum2), sum1 + sum2, if r.w >= r.h then r.h else r.w;
            && 0 <= Area(r) * sum1 - Area(p.0) * total < line * total
            && (if r.w >= r.h then p.0.h == p.1.h == r.h else p.0.w == p.1.w == r.w)
  {
    var length, line := if r.w >= r.h then r.w else r.h, if r.w >= r.h then r.h else r.w;
    var total, m := sum1 + sum2, Share(length, sum1, sum2);
    PartsLines(r, sum1, sum2);
    ShareRounds(length, sum1, sum2);
    hide Parts, Share, Area, Empty;
    Rest(length, line, sum1, total, m);
  }

  /** A whole number of lines on either side of the cut. */
  lemma PartsLines(r: Rect, sum1: int, sum2: int)
    requires !Empty(r) && sum1 >= 0 && sum2 >= 0
    ensures var p, length, line := Parts(r, sum1, sum2), if r.w >= r.h then r.w else r.h, if r.w >= r.h then r.h
              else r.w;
            && line >= 1 && Area(r) == length * line && Area(p.0) == Share(length, sum1, sum2) * line
            && (if r.w >= r.h then p.0.h == p.1.h == r.h else p.0.w == p.1.w == r.w)
  {
    hide Share;
  }

  lemma ShareRounds(length: int, sum1: int, sum2: int)
    requires length >= 0 && sum1 >= 0 && sum2 >= 0 && sum1 + sum2 > 0
    ensures 0 <= length * sum1 - Share(length, sum1, sum2) * (sum1 + sum2) < sum1 + sum2
  {
    DivRounds(length * sum1, sum1 + sum2);
  }

  lemma DivRounds(x: int, y: int)
    requires y > 0
    ensures 0 <= x - (x / y) * y < y
  {
  }

  lemma Rest(length: int, line: int, sum1: int, total: int, m: int)
    requires line >= 1 && 0 <= length * sum1 - m * total < total
    ensures 0 <= (length * line) * sum1 - (m * line) * total < line * total
  {
    var left := length * sum1 - m * total;
    Sign(left, line);
    Sign(total - left, line);
    calc {
      (length * line) * sum1 - (m * line) * total;
      { Swap(length, line, sum1); Swap(m, line, total); }
      (length * sum1) * line - (m * total) * line;
      left * line;
    }
  }

  lemma Swap(a: int, b: int, c: int)
    ensures (a * b) * c == (a * c) * b
  {
  }

  /** What becomes of the areas of children that are not shown. */
  function Hidden(areas: seq<Rect>): (r: seq<Rect>)
    ensures |r| == |areas| && forall i :: 0 <= i < |r| ==> r[i] == areas[i].(w := 0, h := 0)
  {
    seq(|areas|, i requires 0 <= i < |areas| => areas[i].(w := 0, h := 0))
  }

  /** The first `k` children get the part `p`, and those after them up to `n` get `q`; the others are not shown. */
  datatype Division = Division(k: nat, n: nat, p: Rect, q: Rect)

  function DivisionOf(sizes: seq<int>, r: Rect): (d: Division)
    requires |sizes| > 1 && NonNegative(sizes) && !Empty(r)
    ensures 1 <= d.k < d.n <= |sizes|
    ensures d.p.w >= 0 && d.p.h >= 0 && d.q.w >= 0 && d.q.h >= 0
  {
    var n := Shown(sizes, r);
    FirstBinPart(sizes[..n]);
    var k := FirstBin(sizes[..n]);
    SumIsNonNegative(sizes[..k]);
    SumIsNonNegative(sizes[k..n]);
    var parts := Parts(r, Sum(sizes[..k]), Sum(sizes[k..n]));
    Division(k, n, parts.0, parts.1)
  }

  /** The areas of children of the given sizes, in `r`; in an empty rectangle the areas stay what they were. */
  function Allocated(sizes: seq<int>, areas: seq<Rect>, r: Rect): (out: seq<Rect>)
    requires |sizes| == |areas| > 0 && NonNegative(sizes)
    ensures |out| == |sizes|
    decreases |sizes|
  {
    if Empty(r) then areas
    else if |sizes| == 1 then [SetArea(r)]
    else
      var d := DivisionOf(sizes, r);
      (if d.k > 1 then Allocated(sizes[..d.k], areas[..d.k], d.p) else [SetArea(d.p)])
      + (if d.n - d.k > 1 then Allocated(sizes[d.k..d.n], areas[d.k..d.n], d.q) else [SetArea(d.q)])
      + Hidden(areas[d.n..])
  }
}
