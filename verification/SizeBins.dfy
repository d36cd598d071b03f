/** The size-ordered set of bins in which a directory keeps its children. */
module SizeBins {

  /** All children of one size, in chain order (`firstEntry`, then `nextEntry` links). */
  datatype Bin<E> = Bin(size: int, chain: seq<E>)

  /** Bins are never empty and are kept in strictly decreasing order of size. */
  ghost predicate Proper<E>(bs: seq<Bin<E>>) {
    && (forall i :: 0 <= i < |bs| ==> bs[i].chain != [])
    && (forall i, j :: 0 <= i < j < |bs| ==> bs[i].size > bs[j].size)
  }

  /** The order in which a traversal visits the children. */
  ghost function Flat<E>(bs: seq<Bin<E>>): seq<E> {
    if bs == [] then [] else bs[0].chain + Flat(bs[1..])
  }

  /** How often each entry occurs in the bins. */
  ghost function Bag<E>(bs: seq<Bin<E>>): multiset<E> {
    multiset(Flat(bs))
  }

  /** `n` children of size `s` weigh this much together. */
  ghost function Weight(s: int, n: nat): int {
    if n == 0 then 0 else s + Weight(s, n - 1)
  }

  /** Sum of the sizes of all children. */
  ghost function Total<E>(bs: seq<Bin<E>>): int {
    if bs == [] then 0 else Weight(bs[0].size, |bs[0].chain|) + Total(bs[1..])
  }

  /** Where the bin of size `s` is, or would have to be inserted. */
  ghost function Slot<E>(bs: seq<Bin<E>>, s: int): (k: nat)
    ensures k <= |bs|
  {
    if bs == [] || bs[0].size <= s then 0 else 1 + Slot(bs[1..], s)
  }

  lemma {:induction false} SlotSplits<E>(bs: seq<Bin<E>>, s: int)
    ensures forall i :: 0 <= i < Slot(bs, s) ==> bs[i].size > s
    ensures Slot(bs, s) < |bs| ==> bs[Slot(bs, s)].size <= s
  {
    if bs != [] && bs[0].size > s {
      SlotSplits(bs[1..], s);
      forall i | 0 <= i < Slot(bs, s)
        ensures bs[i].size > s
      {
        if i > 0 {
          assert bs[i] == bs[1..][i - 1];
        }
      }
    }
  }

  ghost predicate HasBin<E>(bs: seq<Bin<E>>, s: int) {
    Slot(bs, s) < |bs| && bs[Slot(bs, s)].size == s
  }

  /** The chain of the bin of size `s`; empty when there is no such bin. */
  ghost function Held<E>(bs: seq<Bin<E>>, s: int): seq<E> {
    if HasBin(bs, s) then bs[Slot(bs, s)].chain else []
  }

  ghost function Before<E>(bs: seq<Bin<E>>, s: int): seq<Bin<E>> {
    bs[..Slot(bs, s)]
  }

  ghost function After<E>(bs: seq<Bin<E>>, s: int): seq<Bin<E>> {
    if HasBin(bs, s) then bs[Slot(bs, s) + 1..] else bs[Slot(bs, s)..]
  }

  /** There is no bin for an empty chain. */
  ghost function OneBin<E>(s: int, chain: seq<E>): seq<Bin<E>> {
    if chain == [] then [] else [Bin(s, chain)]
  }

  /** The bins in which the children of size `s` are exactly `chain`. */
  ghost function Put<E>(bs: seq<Bin<E>>, s: int, chain: seq<E>): seq<Bin<E>> {
    Before(bs, s) + OneBin(s, chain) + After(bs, s)
  }

  /** Adds `x` to the front of the bin of size `s`, creating the bin when there is none. */
  ghost function Insert<E>(bs: seq<Bin<E>>, s: int, x: E): seq<Bin<E>> {
    Put(bs, s, [x] + Held(bs, s))
  }

  /** The chain with the first occurrence of `x` unlinked. */
  ghost function Unlink<E>(chain: seq<E>, x: E): seq<E> {
    if chain == [] then []
    else if chain[0] == x then chain[1..]
    else [chain[0]] + Unlink(chain[1..], x)
  }

  /** Takes `x` out of the bin of size `s`; a bin that becomes empty is erased. */
  ghost function Remove<E>(bs: seq<Bin<E>>, s: int, x: E): seq<Bin<E>> {
    Put(bs, s, Unlink(Held(bs, s), x))
  }

  /** The elements of `s` outside `dead`, in order. */
  ghost function Keep<E>(s: seq<E>, dead: set<E>): seq<E> {
    if s == [] then [] else (if s[0] in dead then [] else [s[0]]) + Keep(s[1..], dead)
  }

  /** The elements of `s` that are in `dead`, in order. */
  ghost function Drop<E>(s: seq<E>, dead: set<E>): seq<E> {
    if s == [] then [] else (if s[0] in dead then [s[0]] else []) + Drop(s[1..], dead)
  }

  /** What is left of a bin after a sweep: nothing at all when every entry was dead. */
  ghost function SweepBin<E>(b: Bin<E>, dead: set<E>): seq<Bin<E>> {
    OneBin(b.size, Keep(b.chain, dead))
  }

  ghost function Sweep<E>(bs: seq<Bin<E>>, dead: set<E>): seq<Bin<E>> {
    if bs == [] then [] else SweepBin(bs[0], dead) + Sweep(bs[1..], dead)
  }

  /** The order in which a sweep hands over one bin's dead entries: the tail first. */
  ghost function SweptBin<E>(chain: seq<E>, dead: set<E>): seq<E>
    requires chain != []
  {
    Drop(chain[1..], dead) + (if chain[0] in dead then [chain[0]] else [])
  }

  ghost function Swept<E>(bs: seq<Bin<E>>, dead: set<E>): seq<E>
    requires forall i :: 0 <= i < |bs| ==> bs[i].chain != []
  {
    if bs == [] then [] else SweptBin(bs[0].chain, dead) + Swept(bs[1..], dead)
  }

  // ---------------------------------------------------------------- concatenation

  lemma {:induction false} FlatConcat<E>(a: seq<Bin<E>>, b: seq<Bin<E>>)
    ensures Flat(a + b) == Flat(a) + Flat(b)
    ensures Total(a + b) == Total(a) + Total(b)
  {
    if a == [] {
      assert a + b == b;
    } else {
      assert (a + b)[1..] == a[1..] + b;
      FlatConcat(a[1..], b);
    }
  }

  lemma OneBinFlat<E>(s: int, chain: seq<E>)
    ensures Flat(OneBin(s, chain)) == chain
    ensures Total(OneBin(s, chain)) == Weight(s, |chain|)
  {
    if chain != [] {
      assert OneBin(s, chain)[1..] == [];
    }
  }

  /** The contents and the total of the bins, with what is held under one size singled out. */
  lemma {:induction false} PutFlat<E>(bs: seq<Bin<E>>, s: int, chain: seq<E>)
    ensures Flat(Put(bs, s, chain)) == Flat(Before(bs, s)) + chain + Flat(After(bs, s))
    ensures Total(Put(bs, s, chain)) == Total(Before(bs, s)) + Weight(s, |chain|) + Total(After(bs, s))
  {
    OneBinFlat(s, chain);
    FlatConcat(Before(bs, s) + OneBin(s, chain), After(bs, s));
    FlatConcat(Before(bs, s), OneBin(s, chain));
  }

  lemma Cut<T>(xs: seq<T>, k: nat)
    requires k < |xs|
    ensures xs == xs[..k] + [xs[k]] + xs[k + 1..]
  {
  }

  /** Putting back what was held changes nothing. */
  lemma {:induction false} PutHeld<E>(bs: seq<Bin<E>>, s: int)
    requires Proper(bs)
    ensures Put(bs, s, Held(bs, s)) == bs
  {
    var k := Slot(bs, s);
    if HasBin(bs, s) {
      Cut(bs, k);
      assert bs[k].chain != [];
    } else {
      assert bs == bs[..k] + bs[k..];
    }
  }

  /** `cut` separates the sizes in `a` from those in `b`. */
  lemma {:induction false} ProperConcat<E>(a: seq<Bin<E>>, b: seq<Bin<E>>, cut: int)
    requires Proper(a) && Proper(b)
    requires forall i :: 0 <= i < |a| ==> a[i].size >= cut
    requires forall i :: 0 <= i < |b| ==> b[i].size < cut
    ensures Proper(a + b)
  {
  }

  lemma ProperSuffix<E>(bs: seq<Bin<E>>, k: nat, s: int)
    requires Proper(bs) && k <= |bs|
    requires k < |bs| ==> bs[k].size < s
    ensures Proper(bs[k..])
    ensures forall i :: 0 <= i < |bs[k..]| ==> bs[k..][i].size < s
  {
    forall i | 0 <= i < |bs[k..]|
      ensures bs[k..][i].size < s
    {
      assert bs[k..][i] == bs[k + i];
    }
  }

  lemma {:induction false} AroundProper<E>(bs: seq<Bin<E>>, s: int)
    requires Proper(bs)
    ensures Proper(Before(bs, s)) && Proper(After(bs, s))
    ensures forall i :: 0 <= i < |Before(bs, s)| ==> Before(bs, s)[i].size >= s + 1
    ensures forall i :: 0 <= i < |After(bs, s)| ==> After(bs, s)[i].size < s
  {
    SlotSplits(bs, s);
    ProperSuffix(bs, if HasBin(bs, s) then Slot(bs, s) + 1 else Slot(bs, s), s);
  }

  lemma {:induction false} PutProper<E>(bs: seq<Bin<E>>, s: int, chain: seq<E>)
    requires Proper(bs)
    ensures Proper(Put(bs, s, chain))
  {
    var before, one, after := Before(bs, s), OneBin(s, chain), After(bs, s);
    AroundProper(bs, s);
    ProperConcat(before, one, s + 1);
    ProperConcat(before + one, after, s);
  }

  lemma {:induction false} FlatHas<E>(bs: seq<Bin<E>>, x: E)
    ensures x in Flat(bs) <==> exists i :: 0 <= i < |bs| && x in bs[i].chain
  {
    if bs != [] {
      FlatHas(bs[1..], x);
      if x in Flat(bs[1..]) {
        var i :| 0 <= i < |bs[1..]| && x in bs[1..][i].chain;
        assert x in bs[i + 1].chain;
      }
      forall i | 0 <= i < |bs| && x in bs[i].chain
        ensures x in Flat(bs)
      {
        if i > 0 {
          assert bs[1..][i - 1] == bs[i];
        }
      }
    }
  }

  // ------------------------------------------------------------ insert and remove

  /** In the order of traversal, what is added comes after all that is larger and before all else. */
  lemma InsertPlace<E>(bs: seq<Bin<E>>, s: int, x: E) returns (larger: seq<E>, others: seq<E>)
    requires Proper(bs)
    ensures Flat(bs) == larger + others && Flat(Insert(bs, s, x)) == larger + [x] + others
    ensures forall e :: e in larger ==> exists b :: b in bs && b.size > s && e in b.chain
    ensures forall e :: e in others ==> exists b :: b in bs && b.size <= s && e in b.chain
  {
    hide *;
    var k := Slot(bs, s);
    larger, others := Flat(bs[..k]), Flat(bs[k..]);
    SlotSplits(bs, s);
    AroundIs(bs, s, x);
    FlatConcat(bs[..k], bs[k..]);
    assert bs == bs[..k] + bs[k..];
    PutHeld(bs, s);
    PutFlat(bs, s, Held(bs, s));
    PutFlat(bs, s, [x] + Held(bs, s));
    FrontFirst(larger, x, Held(bs, s), Flat(After(bs, s)), others);
    NoLarger(bs, s);
    forall e | e in larger
      ensures exists b :: b in bs && b.size > s && e in b.chain
    {
      var i := InBin(bs[..k], e);
      assert bs[i] in bs;
    }
    forall e | e in others
      ensures exists b :: b in bs && b.size <= s && e in b.chain
    {
      var i := InBin(bs[k..], e);
      assert bs[k + i] in bs;
    }
  }

  lemma FrontFirst<E>(a: seq<E>, x: E, held: seq<E>, b: seq<E>, rest: seq<E>)
    requires a + held + b == a + rest
    ensures a + ([x] + held) + b == a + [x] + rest
  {
    assert (a + held + b)[|a|..] == held + b && (a + rest)[|a|..] == rest;
  }

  lemma AroundIs<E>(bs: seq<Bin<E>>, s: int, x: E)
    ensures Before(bs, s) == bs[..Slot(bs, s)] && Insert(bs, s, x) == Put(bs, s, [x] + Held(bs, s))
  {
  }

  lemma NoLarger<E>(bs: seq<Bin<E>>, s: int)
    requires Proper(bs)
    ensures forall i :: Slot(bs, s) <= i < |bs| ==> bs[i].size <= s
  {
    SlotSplits(bs, s);
  }

  lemma InBin<E>(bs: seq<Bin<E>>, e: E) returns (i: nat)
    requires e in Flat(bs)
    ensures i < |bs| && e in bs[i].chain
  {
    FlatHas(bs, e);
    i :| 0 <= i < |bs| && e in bs[i].chain;
  }

  /** Nothing is lost and nothing is duplicated: exactly `x` is new, and so is its size. */
  lemma {:induction false} InsertBag<E>(bs: seq<Bin<E>>, s: int, x: E)
    requires Proper(bs)
    ensures Proper(Insert(bs, s, x))
    ensures Bag(Insert(bs, s, x)) == Bag(bs) + multiset{x}
    ensures Total(Insert(bs, s, x)) == Total(bs) + s
  {
    var held := Held(bs, s);
    PutHeld(bs, s);
    PutFlat(bs, s, held);
    PutProper(bs, s, [x] + held);
    PutFlat(bs, s, [x] + held);
    LessOne(Flat(Before(bs, s)), [x] + held, held, Flat(After(bs, s)), x);
    assert Weight(s, |[x] + held|) == s + Weight(s, |held|);
  }

  lemma {:induction false} UnlinkBag<E>(chain: seq<E>, x: E)
    requires x in chain
    ensures multiset(Unlink(chain, x)) == multiset(chain) - multiset{x}
    ensures |Unlink(chain, x)| == |chain| - 1
  {
    assert chain == [chain[0]] + chain[1..];
    if chain[0] != x {
      UnlinkBag(chain[1..], x);
    }
  }

  /** Unlinking is cutting out the first occurrence. */
  lemma {:induction false} UnlinkAt<E>(chain: seq<E>, k: nat)
    requires k < |chain| && chain[k] !in chain[..k]
    ensures Unlink(chain, chain[k]) == chain[..k] + chain[k + 1..]
  {
    if k > 0 {
      assert chain[1..][..k - 1] == chain[..k][1..];
      assert chain[0] in chain[..k];
      UnlinkAt(chain[1..], k - 1);
    }
  }

  lemma LessOne<E>(before: seq<E>, chain: seq<E>, left: seq<E>, after: seq<E>, x: E)
    requires x in chain && multiset(left) == multiset(chain) - multiset{x}
    ensures multiset(before + left + after) == multiset(before + chain + after) - multiset{x}
    ensures multiset(before + chain + after) == multiset(before + left + after) + multiset{x}
  {
    assert multiset(before + left + after) == multiset(before) + multiset(left) + multiset(after);
    assert multiset(before + chain + after) == multiset(before) + multiset(chain) + multiset(after);
  }

  lemma {:induction false} RemoveBag<E>(bs: seq<Bin<E>>, s: int, x: E)
    requires Proper(bs) && x in Held(bs, s)
    ensures Proper(Remove(bs, s, x))
    ensures Bag(Remove(bs, s, x)) == Bag(bs) - multiset{x}
    ensures Total(Remove(bs, s, x)) == Total(bs) - s
  {
    var held := Held(bs, s);
    var left := Unlink(held, x);
    UnlinkBag(held, x);
    PutHeld(bs, s);
    PutFlat(bs, s, held);
    PutProper(bs, s, left);
    PutFlat(bs, s, left);
    LessOne(Flat(Before(bs, s)), held, left, Flat(After(bs, s)), x);
    assert Weight(s, |held|) == s + Weight(s, |left|);
  }

  /** `Put` leaves every other bin alone. */
  lemma PutOthers<E>(bs: seq<Bin<E>>, s: int, chain: seq<E>, b: Bin<E>)
    requires b in Put(bs, s, chain)
    ensures b == Bin(s, chain) || (b in bs && b.size != s) || !Proper(bs)
  {
    if Proper(bs) && b !in OneBin(s, chain) {
      AroundProper(bs, s);
      assert b in Before(bs, s) || b in After(bs, s);
    }
  }

  /** Moves `x` from the bin of size `s` to the front of the bin of size `t`. */
  ghost function Refile<E>(bs: seq<Bin<E>>, s: int, t: int, x: E): seq<Bin<E>> {
    Insert(Remove(bs, s, x), t, x)
  }

  lemma RefileSteps<E>(bs: seq<Bin<E>>, s: int, t: int, x: E)
    ensures Refile(bs, s, t, x) == Insert(Remove(bs, s, x), t, x)
  {
  }

  lemma RefileBag<E>(bs: seq<Bin<E>>, s: int, t: int, x: E)
    requires Proper(bs) && x in Held(bs, s)
    ensures Proper(Refile(bs, s, t, x))
    ensures Bag(Refile(bs, s, t, x)) == Bag(bs)
    ensures Total(Refile(bs, s, t, x)) == Total(bs) - s + t
  {
    hide *;
    RefileSteps(bs, s, t, x);
    RemoveBag(bs, s, x);
    InsertBag(Remove(bs, s, x), t, x);
    HeldInBag(bs, s, x);
  }

  lemma HeldInBag<E>(bs: seq<Bin<E>>, s: int, x: E)
    requires x in Held(bs, s)
    ensures x in Bag(bs)
  {
    FlatHas(bs, x);
  }

  /** In proper bins the bin that holds `x` is the one found under its size. */
  lemma {:induction false} SlotOf<E>(bs: seq<Bin<E>>, i: nat)
    requires Proper(bs) && i < |bs|
    ensures Slot(bs, bs[i].size) == i && HasBin(bs, bs[i].size)
  {
    SlotSplits(bs, bs[i].size);
    var k := Slot(bs, bs[i].size);
  }

  // ------------------------------------------------------------------------ sweep

  lemma {:induction false} KeepConcat<E>(a: seq<E>, b: seq<E>, dead: set<E>)
    ensures Keep(a + b, dead) == Keep(a, dead) + Keep(b, dead)
  {
    if a == [] {
      assert a + b == b;
    } else {
      var first := if a[0] in dead then [] else [a[0]];
      assert (a + b)[1..] == a[1..] + b;
      KeepConcat(a[1..], b, dead);
      assert first + (Keep(a[1..], dead) + Keep(b, dead)) == (first + Keep(a[1..], dead)) + Keep(b, dead);
    }
  }

  lemma {:induction false} DropConcat<E>(a: seq<E>, b: seq<E>, dead: set<E>)
    ensures Drop(a + b, dead) == Drop(a, dead) + Drop(b, dead)
  {
    if a == [] {
      assert a + b == b;
    } else {
      var first := if a[0] in dead then [a[0]] else [];
      assert (a + b)[1..] == a[1..] + b;
      DropConcat(a[1..], b, dead);
      assert first + (Drop(a[1..], dead) + Drop(b, dead)) == (first + Drop(a[1..], dead)) + Drop(b, dead);
    }
  }

  lemma {:induction false} KeepNext<E>(s: seq<E>, dead: set<E>, j: nat)
    requires j < |s|
    ensures Keep(s[..j + 1], dead) == Keep(s[..j], dead) + if s[j] in dead then [] else [s[j]]
    ensures Drop(s[..j + 1], dead) == Drop(s[..j], dead) + if s[j] in dead then [s[j]] else []
  {
    assert s[..j + 1] == s[..j] + [s[j]];
    assert [s[j]][1..] == [];
    KeepConcat(s[..j], [s[j]], dead);
    DropConcat(s[..j], [s[j]], dead);
  }

  lemma {:induction false} KeepCounts<E>(s: seq<E>, dead: set<E>)
    ensures forall e :: multiset(Keep(s, dead))[e] == if e in dead then 0 else multiset(s)[e]
  {
    if s != [] {
      KeepCounts(s[1..], dead);
      assert s == [s[0]] + s[1..];
    }
  }

  lemma {:induction false} DropCounts<E>(s: seq<E>, dead: set<E>)
    ensures forall e :: multiset(Drop(s, dead))[e] == if e in dead then multiset(s)[e] else 0
  {
    if s != [] {
      DropCounts(s[1..], dead);
      assert s == [s[0]] + s[1..];
    }
  }

  lemma {:induction false} KeepInside<E>(s: seq<E>, dead: set<E>)
    ensures forall e :: e in Keep(s, dead) ==> e in s
  {
    if s != [] {
      KeepInside(s[1..], dead);
    }
  }

  lemma {:induction false} DropInside<E>(s: seq<E>, dead: set<E>)
    ensures forall e :: e in Drop(s, dead) ==> e in s
  {
    if s != [] {
      DropInside(s[1..], dead);
    }
  }

  lemma {:induction false} KeepHas<E>(s: seq<E>, dead: set<E>)
    ensures forall e :: e in Keep(s, dead) <==> e in s && e !in dead
    ensures forall e :: e in Drop(s, dead) <==> e in s && e in dead
  {
    KeepCounts(s, dead);
    DropCounts(s, dead);
    assert forall e :: e in Keep(s, dead) <==> multiset(Keep(s, dead))[e] > 0;
    assert forall e :: e in Drop(s, dead) <==> multiset(Drop(s, dead))[e] > 0;
    assert forall e :: e in s <==> multiset(s)[e] > 0;
  }

  lemma {:induction false} SweepConcat<E>(a: seq<Bin<E>>, b: seq<Bin<E>>, dead: set<E>)
    ensures Sweep(a + b, dead) == Sweep(a, dead) + Sweep(b, dead)
  {
    if a == [] {
      assert a + b == b;
    } else {
      assert (a + b)[1..] == a[1..] + b;
      SweepConcat(a[1..], b, dead);
    }
  }

  lemma {:induction false} SweptConcat<E>(a: seq<Bin<E>>, b: seq<Bin<E>>, dead: set<E>)
    requires forall i :: 0 <= i < |a| ==> a[i].chain != []
    requires forall i :: 0 <= i < |b| ==> b[i].chain != []
    ensures forall i :: 0 <= i < |a + b| ==> (a + b)[i].chain != []
    ensures Swept(a + b, dead) == Swept(a, dead) + Swept(b, dead)
  {
    hide *;
    if a == [] {
      assert a + b == b;
      NoneSwept<E>(dead);
    } else {
      var c := a + b;
      assert c[1..] == a[1..] + b && c[0] == a[0];
      assert forall i :: 0 <= i < |a[1..]| ==> a[1..][i] == a[i + 1];
      assert forall i :: 0 <= i < |c| ==> c[i] == if i < |a| then a[i] else b[i - |a|];
      SweptConcat(a[1..], b, dead);
      SweptFirst(a, dead);
      SweptFirst(c, dead);
    }
  }

  lemma NoneSwept<E>(dead: set<E>)
    ensures Swept<E>([], dead) == []
  {
  }

  lemma SweptFirst<E>(bs: seq<Bin<E>>, dead: set<E>)
    requires bs != [] && forall i :: 0 <= i < |bs| ==> bs[i].chain != []
    ensures forall i :: 0 <= i < |bs[1..]| ==> bs[1..][i].chain != []
    ensures Swept(bs, dead) == SweptBin(bs[0].chain, dead) + Swept(bs[1..], dead)
  {
  }

  /** Every bin left by a sweep comes from a bin of the same size that held its entries. */
  lemma {:induction false} SweepBins<E>(bs: seq<Bin<E>>, dead: set<E>, i: nat) returns (j: nat)
    requires i < |Sweep(bs, dead)|
    ensures j < |bs| && bs[j].size == Sweep(bs, dead)[i].size
    ensures Sweep(bs, dead)[i].chain == Keep(bs[j].chain, dead) != []
  {
    var here := SweepBin(bs[0], dead);
    if i < |here| {
      j := 0;
    } else {
      var j' := SweepBins(bs[1..], dead, i - |here|);
      j := j' + 1;
    }
  }

  /** A sweep keeps the bins in strictly decreasing order and leaves no empty bin. */
  lemma {:induction false} SweepProper<E>(bs: seq<Bin<E>>, dead: set<E>)
    requires Proper(bs)
    ensures Proper(Sweep(bs, dead))
  {
    if bs != [] {
      SweepProper(bs[1..], dead);
      var rest := Sweep(bs[1..], dead);
      forall i | 0 <= i < |rest|
        ensures bs[0].size > rest[i].size
      {
        var j := SweepBins(bs[1..], dead, i);
        assert bs[1..][j] == bs[j + 1];
      }
      ProperConcat(SweepBin(bs[0], dead), rest, bs[0].size);
    }
  }

  /** The survivors keep their relative order. */
  lemma {:induction false} SweepFlat<E>(bs: seq<Bin<E>>, dead: set<E>)
    ensures Flat(Sweep(bs, dead)) == Keep(Flat(bs), dead)
  {
    if bs != [] {
      SweepFlat(bs[1..], dead);
      KeepConcat(bs[0].chain, Flat(bs[1..]), dead);
      FlatConcat(SweepBin(bs[0], dead), Sweep(bs[1..], dead));
      assert SweepBin(bs[0], dead) != [] ==> SweepBin(bs[0], dead)[1..] == [];
    }
  }

  /** What is handed over is exactly what is dead. */
  lemma {:induction false} SweptBag<E>(bs: seq<Bin<E>>, dead: set<E>)
    requires forall i :: 0 <= i < |bs| ==> bs[i].chain != []
    ensures multiset(Swept(bs, dead)) == multiset(Drop(Flat(bs), dead))
  {
    if bs != [] {
      var c := bs[0].chain;
      calc {
        multiset(Swept(bs, dead));
        multiset(SweptBin(c, dead)) + multiset(Swept(bs[1..], dead));
        { SweptBag(bs[1..], dead); }
        multiset(Drop(c, dead)) + multiset(Drop(Flat(bs[1..]), dead));
        { DropConcat(c, Flat(bs[1..]), dead); }
        multiset(Drop(Flat(bs), dead));
      }
    }
  }

  /** `e` is filed under size `s`. */
  ghost predicate FiledAt<E>(bs: seq<Bin<E>>, s: int, e: E) {
    exists b :: b in bs && b.size == s && e in b.chain
  }

  lemma FiledInBag<E>(bs: seq<Bin<E>>, s: int, e: E)
    requires FiledAt(bs, s, e)
    ensures e in Bag(bs)
  {
    FlatHas(bs, e);
  }

  lemma RemoveFiled<E>(bs: seq<Bin<E>>, s: int, x: E, t: int, e: E)
    requires Proper(bs) && x in Held(bs, s) && Bag(bs)[x] == 1
    requires FiledAt(Remove(bs, s, x), t, e)
    ensures e != x && FiledAt(bs, t, e)
  {
    RemoveBag(bs, s, x);
    FiledInBag(Remove(bs, s, x), t, e);
    var left := Unlink(Held(bs, s), x);
    var b :| b in Remove(bs, s, x) && b.size == t && e in b.chain;
    PutOthers(bs, s, left, b);
    if b == Bin(s, left) {
      UnlinkBag(Held(bs, s), x);
      assert e in multiset(left);
      assert bs[Slot(bs, s)] in bs;
    }
  }

  lemma InsertFiled<E>(bs: seq<Bin<E>>, s: int, x: E, t: int, e: E)
    requires Proper(bs)
    requires FiledAt(Insert(bs, s, x), t, e)
    ensures (e == x && t == s) || FiledAt(bs, t, e)
  {
    var b :| b in Insert(bs, s, x) && b.size == t && e in b.chain;
    PutOthers(bs, s, [x] + Held(bs, s), b);
    if b == Bin(s, [x] + Held(bs, s)) && e != x {
      assert e in Held(bs, s);
      assert bs[Slot(bs, s)] in bs;
    }
  }

  /** After refiling, `x` is filed under its new size only, and the others as before. */
  lemma RefileFiled<E>(bs: seq<Bin<E>>, s: int, t: int, x: E, u: int, e: E)
    requires Proper(bs) && x in Held(bs, s) && Bag(bs)[x] == 1
    requires FiledAt(Refile(bs, s, t, x), u, e)
    ensures if e == x then u == t else FiledAt(bs, u, e)
  {
    var rest := Remove(bs, s, x);
    RemoveBag(bs, s, x);
    InsertFiled(rest, t, x, u, e);
    if FiledAt(rest, u, e) {
      RemoveFiled(bs, s, x, u, e);
    }
  }

  /** `bs'` is `bs` with `x` filed under `t` instead of `s`, and nothing else moved. */
  ghost predicate Refiled<E>(bs: seq<Bin<E>>, bs': seq<Bin<E>>, s: int, t: int, x: E) {
    && Proper(bs')
    && Bag(bs') == Bag(bs)
    && Total(bs') == Total(bs) - s + t
    && forall u, e :: e in Bag(bs) && FiledAt(bs', u, e) ==> if e == x then u == t else FiledAt(bs, u, e)
  }

  lemma RefileRefiles<E>(bs: seq<Bin<E>>, s: int, t: int, x: E)
    requires Proper(bs) && x in Held(bs, s) && Bag(bs)[x] == 1
    ensures Refiled(bs, Refile(bs, s, t, x), s, t, x)
  {
    RefileBag(bs, s, t, x);
    forall u, e | e in Bag(bs) && FiledAt(Refile(bs, s, t, x), u, e)
      ensures if e == x then u == t else FiledAt(bs, u, e)
    {
      RefileFiled(bs, s, t, x, u, e);
    }
  }

  ghost predicate Distinct<E>(s: seq<E>) {
    forall i, j :: 0 <= i < j < |s| ==> s[i] != s[j]
  }

  lemma DistinctNext<E>(s: seq<E>, j: nat)
    requires Distinct(s) && j < |s|
    ensures s[j] !in s[j + 1..]
  {
  }

  lemma OnceIsDistinct<E>(s: seq<E>)
    requires forall e :: e in s ==> multiset(s)[e] == 1
    ensures Distinct(s)
  {
    forall i, j | 0 <= i < j < |s|
      ensures s[i] != s[j]
    {
      assert s == s[..j] + s[j..];
      assert s[i] in s[..j] && s[j] in s[j..];
      assert multiset(s) == multiset(s[..j]) + multiset(s[j..]);
      assert multiset(s)[s[j]] >= multiset(s[..j])[s[j]] + 1;
    }
  }

  /** No entry occurs twice. */
  ghost predicate Once<E>(bs: seq<Bin<E>>) {
    forall e :: e in Flat(bs) ==> Bag(bs)[e] == 1
  }

  /** What is held under `s` is held once, and nowhere else. */
  lemma HeldApart<E>(bs: seq<Bin<E>>, s: int)
    requires Proper(bs) && Once(bs)
    ensures Distinct(Held(bs, s))
    ensures forall e :: e in Held(bs, s) ==> e !in Flat(Before(bs, s)) && e !in Flat(After(bs, s))
  {
    PutHeld(bs, s);
    PutFlat(bs, s, Held(bs, s));
    OnceApart(Flat(Before(bs, s)), Held(bs, s), Flat(After(bs, s)));
  }

  lemma OnceApart<E>(a: seq<E>, b: seq<E>, c: seq<E>)
    requires forall e :: e in a + b + c ==> multiset(a + b + c)[e] == 1
    ensures Distinct(b)
    ensures forall e :: e in b ==> e !in a && e !in c
  {
    assert multiset(a + b + c) == multiset(a) + multiset(b) + multiset(c);
    forall e | e in b
      ensures multiset(b)[e] == 1 && e !in a && e !in c
    {
      assert e in a + b + c;
      assert multiset(a)[e] + multiset(b)[e] + multiset(c)[e] == 1;
      assert e in multiset(b);
      assert e in a ==> e in multiset(a);
      assert e in c ==> e in multiset(c);
    }
    OnceIsDistinct(b);
  }

  /** What inserting does: `x` is filed under `s`, and nothing else moved. */
  lemma InsertInserts<E>(bs: seq<Bin<E>>, s: int, x: E)
    requires Proper(bs)
    ensures Proper(Insert(bs, s, x))
    ensures Bag(Insert(bs, s, x)) == Bag(bs) + multiset{x}
    ensures Total(Insert(bs, s, x)) == Total(bs) + s
    ensures forall u, e :: e in Bag(Insert(bs, s, x)) && FiledAt(Insert(bs, s, x), u, e) ==>
              (e == x && u == s) || FiledAt(bs, u, e)
  {
    InsertBag(bs, s, x);
    forall u, e | e in Bag(Insert(bs, s, x)) && FiledAt(Insert(bs, s, x), u, e)
      ensures (e == x && u == s) || FiledAt(bs, u, e)
    {
      InsertFiled(bs, s, x, u, e);
    }
  }

  lemma EmptyBag<E>()
    ensures Proper<E>([]) && Bag<E>([]) == multiset{} && Total<E>([]) == 0
  {
  }

  /** A sweep takes out the dead and leaves everything else where it was filed. */
  lemma SweepSweeps<E>(bs: seq<Bin<E>>, dead: set<E>)
    requires Proper(bs)
    ensures Proper(Sweep(bs, dead))
    ensures forall e :: Bag(Sweep(bs, dead))[e] == if e in dead then 0 else Bag(bs)[e]
    ensures forall u, e :: e in Bag(Sweep(bs, dead)) && FiledAt(Sweep(bs, dead), u, e) ==> FiledAt(bs, u, e)
  {
    SweepProper(bs, dead);
    SweepFlat(bs, dead);
    KeepCounts(Flat(bs), dead);
    forall u, e | e in Bag(Sweep(bs, dead)) && FiledAt(Sweep(bs, dead), u, e)
      ensures FiledAt(bs, u, e)
    {
      SweepFiled(bs, dead, u, e);
    }
  }

  lemma SweepFiled<E>(bs: seq<Bin<E>>, dead: set<E>, u: int, e: E)
    requires FiledAt(Sweep(bs, dead), u, e)
    ensures FiledAt(bs, u, e)
  {
    var b :| b in Sweep(bs, dead) && b.size == u && e in b.chain;
    var i :| 0 <= i < |Sweep(bs, dead)| && Sweep(bs, dead)[i] == b;
    var j := SweepBins(bs, dead, i);
    KeepHas(bs[j].chain, dead);
    assert bs[j] in bs;
  }

  lemma WithoutDead<E>(b: multiset<E>, c: multiset<E>, kids: set<E>, dead: set<E>)
    requires c == multiset(kids)
    requires forall e :: b[e] == if e in dead then 0 else c[e]
    ensures b == multiset(kids - dead)
  {
    assert forall e :: multiset(kids)[e] == if e in kids then 1 else 0;
    assert forall e :: multiset(kids - dead)[e] == if e in kids - dead then 1 else 0;
  }

  /** One more bin swept. */
  lemma SweepNextBin<E>(bs: seq<Bin<E>>, dead: set<E>, j: nat)
    requires Proper(bs) && j < |bs|
    ensures Sweep(bs[..j + 1], dead) == Sweep(bs[..j], dead) + SweepBin(bs[j], dead)
    ensures Swept(bs[..j + 1], dead) == Swept(bs[..j], dead) + SweptBin(bs[j].chain, dead)
    ensures Total(bs[..j + 1]) - Total(Sweep(bs[..j + 1], dead)) ==
            Total(bs[..j]) - Total(Sweep(bs[..j], dead)) + Weight(bs[j].size, |SweptBin(bs[j].chain, dead)|)
  {
    var one := [bs[j]];
    assert bs[..j + 1] == bs[..j] + one;
    assert one[1..] == [];
    SweepConcat(bs[..j], one, dead);
    SweptConcat(bs[..j], one, dead);
    FlatConcat(bs[..j], one);
    FlatConcat(Sweep(bs[..j], dead), SweepBin(bs[j], dead));
    SweepBinTotal(bs[j], dead);
  }

  lemma SweepBinTotal<E>(b: Bin<E>, dead: set<E>)
    requires b.chain != []
    ensures Total([b]) - Total(SweepBin(b, dead)) == Weight(b.size, |SweptBin(b.chain, dead)|)
  {
    assert [b][1..] == [];
    OneBinFlat(b.size, Keep(b.chain, dead));
    KeepLength(b.chain, dead);
    KeepLength(b.chain[1..], dead);
    WeightSplit(b.size, |Keep(b.chain, dead)|, |Drop(b.chain, dead)|);
  }

  lemma {:induction false} KeepLength<E>(s: seq<E>, dead: set<E>)
    ensures |s| == |Keep(s, dead)| + |Drop(s, dead)|
  {
    if s != [] {
      KeepLength(s[1..], dead);
    }
  }

  lemma {:induction false} WeightSplit(s: int, m: nat, n: nat)
    ensures Weight(s, m + n) == Weight(s, m) + Weight(s, n)
  {
    if m > 0 {
      WeightSplit(s, m - 1, n);
    }
  }

  /** Each bin is apart from the bins before and after it. */
  lemma BinApart<E>(bs: seq<Bin<E>>, j: nat)
    requires Proper(bs) && Once(bs) && j < |bs|
    ensures Distinct(bs[j].chain)
    ensures forall e :: e in bs[j].chain ==> e !in Flat(bs[..j]) && e !in Flat(bs[j + 1..])
  {
    SlotOf(bs, j);
    HeldApart(bs, bs[j].size);
  }

  lemma SweepBinShrinks<E>(b: Bin<E>, dead: set<E>)
    requires forall e :: e in b.chain && e in dead ==> b.size >= 0
    ensures Total(SweepBin(b, dead)) <= Weight(b.size, |b.chain|)
  {
    var gone := Drop(b.chain, dead);
    OneBinFlat(b.size, Keep(b.chain, dead));
    KeepLength(b.chain, dead);
    WeightSplit(b.size, |Keep(b.chain, dead)|, |gone|);
    DropInside(b.chain, dead);
    DropDead(b.chain, dead);
    assert gone != [] ==> gone[0] in b.chain && gone[0] in dead;
    WeightPositive(b.size, |gone|);
  }

  /** Sweeping out entries of non-negative size makes nothing larger. */
  lemma {:induction false} SweepShrinks<E>(bs: seq<Bin<E>>, dead: set<E>)
    requires forall b, e :: b in bs && e in b.chain && e in dead ==> b.size >= 0
    ensures Total(Sweep(bs, dead)) <= Total(bs)
  {
    if bs != [] {
      SweepShrinks(bs[1..], dead);
      FlatConcat(SweepBin(bs[0], dead), Sweep(bs[1..], dead));
      assert bs[0] in bs;
      SweepBinShrinks(bs[0], dead);
    }
  }

  lemma {:induction false} DropDead<E>(s: seq<E>, dead: set<E>)
    ensures forall i :: 0 <= i < |Drop(s, dead)| ==> Drop(s, dead)[i] in dead
  {
    if s != [] {
      DropDead(s[1..], dead);
    }
  }

  lemma {:induction false} WeightPositive(s: int, n: nat)
    ensures s >= 0 || n == 0 ==> Weight(s, n) >= 0
  {
    if n > 0 {
      WeightPositive(s, n - 1);
    }
  }
}
