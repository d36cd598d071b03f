/** Sums over the entries of a tree: an entry's size is the sum of the own sizes at and below it. */
module Sums {
  import opened Options
  import opened SizeBins
  import opened Forest

  ghost function Sum<E>(X: set<E>, w: map<E, int>): int
    requires X <= w.Keys
  {
    if X == {} then 0 else var e :| e in X; w[e] + Sum(X - {e}, w)
  }

  lemma {:induction false} SumPick<E>(X: set<E>, w: map<E, int>, e: E)
    requires X <= w.Keys && e in X
    ensures Sum(X, w) == w[e] + Sum(X - {e}, w)
  {
    var c :| c in X && Sum(X, w) == w[c] + Sum(X - {c}, w);
    if c != e {
      SumPick(X - {c}, w, e);
      SumPick(X - {e}, w, c);
      assert X - {c} - {e} == X - {e} - {c};
    }
  }

  lemma {:induction false} SumJoin<E>(X: set<E>, Y: set<E>, w: map<E, int>)
    requires X !! Y && X + Y <= w.Keys
    ensures Sum(X + Y, w) == Sum(X, w) + Sum(Y, w)
  {
    if X == {} {
      assert X + Y == Y;
    } else {
      var e :| e in X;
      SumPick(X, w, e);
      SumPick(X + Y, w, e);
      assert X + Y - {e} == (X - {e}) + Y;
      SumJoin(X - {e}, Y, w);
    }
  }

  lemma {:induction false} SumAdd<E>(X: set<E>, u: map<E, int>, v: map<E, int>, w: map<E, int>)
    requires X <= u.Keys && X <= v.Keys && X <= w.Keys
    requires forall e :: e in X ==> w[e] == u[e] + v[e]
    ensures Sum(X, w) == Sum(X, u) + Sum(X, v)
  {
    if X != {} {
      var e :| e in X;
      SumPick(X, u, e);
      SumPick(X, v, e);
      SumPick(X, w, e);
      SumAdd(X - {e}, u, v, w);
    }
  }

  lemma {:induction false} SumSame<E>(X: set<E>, u: map<E, int>, w: map<E, int>)
    requires X <= u.Keys && X <= w.Keys
    requires forall e :: e in X ==> w[e] == u[e]
    ensures Sum(X, w) == Sum(X, u)
  {
    if X != {} {
      var e :| e in X;
      SumPick(X, u, e);
      SumPick(X, w, e);
      SumSame(X - {e}, u, w);
    }
  }

  lemma {:induction false} SumNonNegative<E>(X: set<E>, w: map<E, int>)
    requires X <= w.Keys && forall e :: e in X ==> w[e] >= 0
    ensures Sum(X, w) >= 0
  {
    if X != {} {
      var e :| e in X;
      SumPick(X, w, e);
      SumNonNegative(X - {e}, w);
    }
  }

  // ------------------------------------------------------------- totals of bins

  ghost function SumSeq<E>(s: seq<E>, w: map<E, int>): int
    requires forall e :: e in s ==> e in w
  {
    if s == [] then 0 else w[s[0]] + SumSeq(s[1..], w)
  }

  lemma {:induction false} SumSeqConcat<E>(a: seq<E>, b: seq<E>, w: map<E, int>)
    requires forall e :: e in a + b ==> e in w
    ensures forall e :: e in a || e in b ==> e in w
    ensures SumSeq(a + b, w) == SumSeq(a, w) + SumSeq(b, w)
  {
    assert forall e :: e in a || e in b ==> e in a + b;
    if a == [] {
      assert a + b == b;
    } else {
      assert (a + b)[1..] == a[1..] + b;
      SumSeqConcat(a[1..], b, w);
    }
  }

  lemma {:induction false} SumSeqConst<E>(s: seq<E>, w: map<E, int>, k: int)
    requires forall e :: e in s ==> e in w && w[e] == k
    ensures SumSeq(s, w) == Weight(k, |s|)
  {
    if s != [] {
      SumSeqConst(s[1..], w, k);
    }
  }

  lemma {:induction false} SumSeqIsSum<E>(s: seq<E>, X: set<E>, w: map<E, int>)
    requires X <= w.Keys && multiset(s) == multiset(X)
    ensures forall e :: e in s ==> e in w
    ensures SumSeq(s, w) == Sum(X, w)
  {
    assert forall e :: e in s ==> e in multiset(s);
    if s == [] {
      assert forall e :: e in X ==> e in multiset(X);
    } else {
      assert s == [s[0]] + s[1..];
      assert s[0] in multiset(X);
      assert multiset(X - {s[0]}) == multiset(X) - multiset{s[0]};
      SumSeqIsSum(s[1..], X - {s[0]}, w);
      SumPick(X, w, s[0]);
    }
  }

  lemma {:induction false} TotalIsSumSeq<E>(bs: seq<Bin<E>>, w: map<E, int>)
    requires forall e :: e in Flat(bs) ==> e in w
    requires forall b, e :: b in bs && e in b.chain ==> e in w && w[e] == b.size
    ensures Total(bs) == SumSeq(Flat(bs), w)
  {
    hide *;
    TotalStep(bs);
    if bs == [] {
      NoSum(w);
    } else {
      var first, rest := bs[0], bs[1..];
      assert first in bs && forall b :: b in rest ==> b in bs;
      assert forall e :: e in first.chain ==> e in Flat(bs);
      assert forall e :: e in Flat(rest) ==> e in Flat(bs);
      SumSeqConst(first.chain, w, first.size);
      SumSeqConcat(first.chain, Flat(rest), w);
      TotalIsSumSeq(rest, w);
    }
  }

  lemma TotalStep<E>(bs: seq<Bin<E>>)
    ensures Total(bs) == if bs == [] then 0 else Weight(bs[0].size, |bs[0].chain|) + Total(bs[1..])
    ensures Flat(bs) == if bs == [] then [] else bs[0].chain + Flat(bs[1..])
  {
  }

  lemma NoSum<E>(w: map<E, int>)
    ensures SumSeq([], w) == 0
  {
  }

  // --------------------------------------------------------- sizes and own sizes

  ghost function Sizes<E>(f: Forest<E>): map<E, int> {
    map e | e in f :: f[e].size
  }

  ghost function Owns<E>(f: Forest<E>): map<E, int> {
    map e | e in f :: Own(f[e])
  }

  ghost function Totals<E>(f: Forest<E>): map<E, int> {
    map e | e in f :: Total(f[e].bins)
  }

  /** The bins of a directory hold its children, so their total is the sum of the children's sizes. */
  lemma TotalIsSum<E>(f: Forest<E>, root: E, p: E)
    requires Sound(f, root) && p in f
    ensures Total(f[p].bins) == Sum(Kids(f, p), Sizes(f))
  {
    var w, bins := Sizes(f), f[p].bins;
    assert Binned(f, p);
    KidsFlat(f, p);
    forall b, e | b in bins && e in b.chain
      ensures e in w && w[e] == b.size
    {
      FiledInBag(bins, b.size, e);
      assert e in Kids(f, p);
      assert FiledAt(bins, b.size, e);
      assert Placed(f, root, e) && Placed(f, root, root);
    }
    TotalIsSumSeq(bins, w);
    SumSeqIsSum(Flat(bins), Kids(f, p), w);
  }

  lemma KidsFlat<E>(f: Forest<E>, p: E)
    requires p in f && Binned(f, p)
    ensures forall e :: e in Flat(f[p].bins) ==> e in f && f[e].parent == Some(p)
  {
    forall e | e in Flat(f[p].bins)
      ensures e in Kids(f, p)
    {
      assert e in Bag(f[p].bins);
    }
  }

  /** The entries whose parent is in `P`. */
  ghost function KidsOf<E>(f: Forest<E>, P: set<E>): set<E> {
    set e | e in f && f[e].parent.Some? && f[e].parent.value in P
  }

  lemma {:induction false} TotalsOverParents<E>(f: Forest<E>, root: E, P: set<E>)
    requires Sound(f, root) && P <= f.Keys
    ensures Sum(P, Totals(f)) == Sum(KidsOf(f, P), Sizes(f))
  {
    if P == {} {
      assert KidsOf(f, P) == {};
    } else {
      var p :| p in P;
      SumPick(P, Totals(f), p);
      TotalsOverParents(f, root, P - {p});
      TotalIsSum(f, root, p);
      assert KidsOf(f, P) == KidsOf(f, P - {p}) + Kids(f, p);
      SumJoin(KidsOf(f, P - {p}), Kids(f, p), Sizes(f));
    }
  }

  /** `X` is `top` together with everything below it. */
  ghost predicate Below<E>(f: Forest<E>, top: E, X: set<E>) {
    top in X && X <= f.Keys && KidsOf(f, X) == X - {top}
  }

  /** An entry's size is the sum of the own sizes at and below it. */
  lemma SizeIsSum<E>(f: Forest<E>, root: E, top: E, X: set<E>)
    requires Sound(f, root) && Below(f, top, X)
    ensures f[top].size == Sum(X, Owns(f))
  {
    SumAdd(X, Owns(f), Totals(f), Sizes(f));
    TotalsOverParents(f, root, X);
    SumPick(X, Sizes(f), top);
  }

  /** The whole tree is below its root. */
  lemma AllBelowRoot<E>(f: Forest<E>, root: E)
    requires Rooted(f, root)
    ensures Below(f, root, f.Keys)
  {
    forall e | e in f
      ensures e in KidsOf(f, f.Keys) <==> e != root
    {
      assert Placed(f, root, e);
    }
  }

  /** Everything at or below `top` is below `top`. */
  lemma AncBelow<E>(f: Forest<E>, root: E, top: E)
    requires Rooted(f, root) && top in f
    ensures Below(f, top, Doomed(f, root, {top}))
  {
    var X := Doomed(f, root, {top});
    assert Anc(f, root, top, top);
    forall e | e in f
      ensures e in KidsOf(f, X) <==> e in X && e != top
    {
      assert Placed(f, root, e);
      if f[e].parent.Some? {
        var p := f[e].parent.value;
        assert p in X <==> Anc(f, root, top, p);
        assert e in X <==> Anc(f, root, top, e);
        if e == top && Anc(f, root, top, p) {
          AncShallow(f, root, top, p);
        }
      } else {
        assert e in X <==> Anc(f, root, top, e);
      }
    }
  }
}
