/** What a recency list keeps over whole sequences of operations. */
module IdealCaches {
  import opened Options
  import opened PriorityCaches

  datatype Op<K, V> = Get(key: K) | Put(key: K, value: V) | Trim(n: nat) | SetMaxSize(n: nat) | Invalidate

  ghost function Step<K, V>(m: Ideal<K, V>, supplier: K -> Option<V>, op: Op<K, V>): Ideal<K, V> {
    match op
    case Get(k) => Gotten(m, supplier, k)
    case Put(k, v) => Used(m, k, v)
    case Trim(n) => Trimmed(m, n)
    case SetMaxSize(n) => Resized(m, n)
    case Invalidate => m.(entries := [])
  }

  ghost function Steps<K, V>(m: Ideal<K, V>, supplier: K -> Option<V>, ops: seq<Op<K, V>>): Ideal<K, V>
    decreases |ops|
  {
    if ops == [] then m else Steps(Step(m, supplier, ops[0]), supplier, ops[1..])
  }

  ghost predicate DifferentKeys<K, V>(entries: seq<(K, V)>) {
    forall i, j :: 0 <= i < j < |entries| ==> entries[i].0 != entries[j].0
  }

  /** No key occurs twice, and a limit is not exceeded. */
  ghost predicate Sane<K, V>(m: Ideal<K, V>) {
    DifferentKeys(m.entries) && (m.maxSize > 0 ==> |m.entries| <= m.maxSize)
  }

  lemma {:induction false} WithoutKey<K, V>(entries: seq<(K, V)>, k: K)
    requires DifferentKeys(entries)
    ensures DifferentKeys(Without(entries, k)) && forall i :: 0 <= i < |Without(entries, k)| ==>
              Without(entries, k)[i].0 != k
    ensures forall e :: e in Without(entries, k) ==> e in entries
    ensures |Without(entries, k)| == |entries| - if ValueOf(entries, k).Some? then 1 else 0
  {
    if entries != [] && entries[0].0 != k {
      var rest := Without(entries[1..], k);
      WithoutKey(entries[1..], k);
      assert forall i :: 0 <= i < |entries[1..]| ==> entries[1..][i] == entries[i + 1];
      forall i | 0 <= i < |rest|
        ensures rest[i].0 != entries[0].0
      {
        assert rest[i] in entries[1..];
      }
    } else if entries != [] {
      NoValue(entries[1..], k);
      assert forall i :: 0 <= i < |entries[1..]| ==> entries[1..][i] == entries[i + 1];
    }
  }

  lemma {:induction false} NoValue<K, V>(entries: seq<(K, V)>, k: K)
    ensures ValueOf(entries, k).None? <==> forall i :: 0 <= i < |entries| ==> entries[i].0 != k
  {
    if entries != [] {
      NoValue(entries[1..], k);
      assert forall i :: 0 <= i < |entries[1..]| ==> entries[1..][i] == entries[i + 1];
      assert forall i :: 0 < i < |entries| ==> entries[i] == entries[1..][i - 1];
    }
  }

  lemma UsedSane<K, V>(m: Ideal<K, V>, k: K, v: V)
    requires Sane(m)
    ensures Sane(Used(m, k, v)) && Used(m, k, v).maxSize == m.maxSize
    ensures Used(m, k, v).entries != [] && Used(m, k, v).entries[0] == (k, v)
  {
    WithoutKey(m.entries, k);
    NoValue(m.entries, k);
  }

  lemma StepSane<K, V>(m: Ideal<K, V>, supplier: K -> Option<V>, op: Op<K, V>)
    requires Sane(m)
    ensures Sane(Step(m, supplier, op))
  {
    match op {
      case Get(k) =>
        if Result(m, supplier, k).Some? {
          UsedSane(m, k, Result(m, supplier, k).value);
        }
      case Put(k, v) => UsedSane(m, k, v);
      case _ =>
    }
  }

  /** Over every sequence of operations keys stay different, and a positive limit is never exceeded. */
  lemma {:induction false} StepsSane<K, V>(m: Ideal<K, V>, supplier: K -> Option<V>, ops: seq<Op<K, V>>)
    requires Sane(m)
    ensures Sane(Steps(m, supplier, ops))
    decreases |ops|
  {
    if ops != [] {
      StepSane(m, supplier, ops[0]);
      StepsSane(Step(m, supplier, ops[0]), supplier, ops[1..]);
    }
  }

  /** Trimming keeps the first ones, as many as are wanted. */
  lemma TrimKeeps<K, V>(m: Ideal<K, V>, supplier: K -> Option<V>, n: nat)
    ensures var t := Step(m, supplier, Trim(n));
            && t.entries <= m.entries && t.maxSize == m.maxSize
            && |t.entries| == if |m.entries| <= n then |m.entries| else n
  {
  }

  /** A new limit holds at once, and whatever is done with the cache until there is another one. */
  lemma {:induction false} LimitHolds<K, V>(m: Ideal<K, V>, supplier: K -> Option<V>, n: nat, ops: seq<Op<K, V>>)
    requires Sane(m) && n > 0 && forall i :: 0 <= i < |ops| ==> !ops[i].SetMaxSize?
    ensures var c := Steps(Step(m, supplier, SetMaxSize(n)), supplier, ops);
            c.maxSize == n && |c.entries| <= n
  {
    var c := Step(m, supplier, SetMaxSize(n));
    StepSane(m, supplier, SetMaxSize(n));
    assert c.maxSize == n;
    StepsSane(c, supplier, ops);
    SameLimit(c, supplier, ops);
    hide Steps, Step;
  }

  lemma {:induction false} SameLimit<K, V>(m: Ideal<K, V>, supplier: K -> Option<V>, ops: seq<Op<K, V>>)
    requires forall i :: 0 <= i < |ops| ==> !ops[i].SetMaxSize?
    ensures Steps(m, supplier, ops).maxSize == m.maxSize
    decreases |ops|
  {
    if ops != [] {
      assert Step(m, supplier, ops[0]).maxSize == m.maxSize;
      assert forall i :: 0 <= i < |ops[1..]| ==> ops[1..][i] == ops[i + 1];
      SameLimit(Step(m, supplier, ops[0]), supplier, ops[1..]);
    }
  }

  // ------------------------------------------------------------- the cache object

  /** One operation on a cache. */
  method Perform<K(==), V>(c: PriorityCache<K, V>, op: Op<K, V>)
    requires c.Valid()
    modifies c, c.keys`lastAccess
    ensures c.Valid() && forall x :: x in c.keys ==> x in old(c.keys) || fresh(x)
    ensures c.Model() == Step(old(c.Model()), c.supplier, op)
  {
    hide *;
    StepIs(c.Model(), c.supplier, op);
    match op {
      case Get(k) => var r := c.Get(k);
      case Put(k, v) => c.Put(k, v);
      case Trim(n) => c.Trim(n);
      case SetMaxSize(n) => c.SetMaxSize(n);
      case Invalidate => c.Invalidate();
    }
  }

  lemma StepIs<K, V>(m: Ideal<K, V>, supplier: K -> Option<V>, op: Op<K, V>)
    ensures Step(m, supplier, op) ==
              match op
              case Get(k) => Gotten(m, supplier, k)
              case Put(k, v) => Used(m, k, v)
              case Trim(n) => Trimmed(m, n)
              case SetMaxSize(n) => Resized(m, n)
              case Invalidate => m.(entries := [])
  {
  }

  /** Whatever clients do with a cache, it stays equal to the recency list. */
  method PerformAll<K(==), V>(c: PriorityCache<K, V>, ops: seq<Op<K, V>>)
    requires c.Valid()
    modifies c, c.keys`lastAccess
    ensures c.Valid() && c.Model() == Steps(old(c.Model()), c.supplier, ops)
  {
    hide *;
    ghost var all := Steps(c.Model(), c.supplier, ops);
    assert ops[0..] == ops;
    for i := 0 to |ops|
      invariant c.Valid() && Steps(c.Model(), c.supplier, ops[i..]) == all
      invariant forall x :: x in c.keys ==> x in old(c.keys) || fresh(x)
    {
      StepsNext(c.Model(), c.supplier, ops, i);
      assert forall j :: 0 <= j < |c.keys| ==> c.keys[j] in c.keys;
      Perform(c, ops[i]);
    }
    NoSteps(c.Model(), c.supplier, ops);
  }

  lemma StepsNext<K, V>(m: Ideal<K, V>, supplier: K -> Option<V>, ops: seq<Op<K, V>>, i: nat)
    requires i < |ops|
    ensures Steps(m, supplier, ops[i..]) == Steps(Step(m, supplier, ops[i]), supplier, ops[i + 1..])
  {
    assert ops[i..][1..] == ops[i + 1..];
  }

  lemma NoSteps<K, V>(m: Ideal<K, V>, supplier: K -> Option<V>, ops: seq<Op<K, V>>)
    ensures Steps(m, supplier, ops[|ops|..]) == m
  {
  }

  // ------------------------------------------------------------- supplied values

  ghost predicate Supplied<K, V>(m: Ideal<K, V>, supplier: K -> Option<V>) {
    forall i :: 0 <= i < |m.entries| ==> supplier(m.entries[i].0) == Some(m.entries[i].1)
  }

  lemma {:induction false} ValueSupplied<K, V>(entries: seq<(K, V)>, supplier: K -> Option<V>, k: K)
    requires forall i :: 0 <= i < |entries| ==> supplier(entries[i].0) == Some(entries[i].1)
    ensures ValueOf(entries, k).Some? ==> ValueOf(entries, k) == supplier(k)
    ensures forall i :: 0 <= i < |Without(entries, k)| ==>
              supplier(Without(entries, k)[i].0) == Some(Without(entries, k)[i].1)
  {
    if entries != [] {
      assert forall i :: 0 <= i < |entries[1..]| ==> entries[1..][i] == entries[i + 1];
      ValueSupplied(entries[1..], supplier, k);
    }
  }

  /** Where nothing is ever put, what is got for a key is always what the supplier has for it. */
  lemma {:induction false} AlwaysSupplied<K, V>(m: Ideal<K, V>, supplier: K -> Option<V>, ops: seq<Op<K, V>>, k: K)
    requires Supplied(m, supplier) && forall i :: 0 <= i < |ops| ==> !ops[i].Put?
    ensures Supplied(Steps(m, supplier, ops), supplier)
    ensures Result(Steps(m, supplier, ops), supplier, k) == supplier(k)
    decreases |ops|
  {
    if ops == [] {
      ValueSupplied(m.entries, supplier, k);
    } else {
      StepSupplied(m, supplier, ops[0]);
      assert forall i :: 0 <= i < |ops[1..]| ==> ops[1..][i] == ops[i + 1];
      AlwaysSupplied(Step(m, supplier, ops[0]), supplier, ops[1..], k);
    }
  }

  lemma StepSupplied<K, V>(m: Ideal<K, V>, supplier: K -> Option<V>, op: Op<K, V>)
    requires Supplied(m, supplier) && !op.Put?
    ensures Supplied(Step(m, supplier, op), supplier)
  {
    if op.Get? {
      ValueSupplied(m.entries, supplier, op.key);
    }
  }

  // ------------------------------------------------------------ the keys that stay

  /** Each key used, with the value of its last use, the latest one in front. */
  ghost function Recent<K, V>(uses: seq<(K, V)>): seq<(K, V)> {
    if uses == [] then []
    else
      var last := uses[|uses| - 1];
      [last] + Without(Recent(uses[..|uses| - 1]), last.0)
  }

  /** The cache after some keys were used in turn. */
  ghost function AfterUses<K, V>(limit: nat, uses: seq<(K, V)>): Ideal<K, V> {
    if uses == [] then Ideal([], limit)
    else
      var last := uses[|uses| - 1];
      Used(AfterUses(limit, uses[..|uses| - 1]), last.0, last.1)
  }

  lemma {:induction false} RecentKeys<K, V>(uses: seq<(K, V)>)
    ensures DifferentKeys(Recent(uses))
  {
    if uses != [] {
      RecentKeys(uses[..|uses| - 1]);
      WithoutKey(Recent(uses[..|uses| - 1]), uses[|uses| - 1].0);
    }
  }

  lemma TakeHead<T>(x: T, s: seq<T>, n: nat)
    requires n > 0
    ensures Take([x] + s, n) == [x] + Take(s, n - 1)
    ensures ([x] + Take(s, n - 1))[1..] == Take(s, n - 1) && ([x] + s)[1..] == s
    ensures Take(s, 0) == []
  {
  }

  /** Taking out a key of the first `n`, and then taking one less. */
  lemma {:induction false} TakeWithout<K, V>(s: seq<(K, V)>, n: nat, k: K)
    requires n > 0
    ensures ValueOf(Take(s, n), k).Some? ==> Take(Without(s, k), n - 1) == Without(Take(s, n), k)
    ensures ValueOf(Take(s, n), k).None? ==> Take(Without(s, k), n - 1) == Take(s, n - 1)
    decreases n
  {
    if s != [] {
      var x, rest := s[0], s[1..];
      assert s == [x] + rest;
      TakeHead(x, rest, n);
      if n > 1 {
        TakeHead(x, rest, n - 1);
        TakeHead(x, Without(rest, k), n - 1);
        TakeWithout(rest, n - 1, k);
      }
      hide Take;
      assert ValueOf([x] + Take(rest, n - 1), k) == if x.0 == k then Some(x.1) else ValueOf(Take(rest, n - 1), k);
      if n == 1 {
        TakeHead(x, Without(s, k), 1);
        TakeHead(x, s, 1);
      }
    }
  }

  /** Using a key keeps the cache a part of the list of all keys. */
  lemma UsedTake<K, V>(all: seq<(K, V)>, limit: nat, k: K, v: V)
    requires DifferentKeys(all)
    ensures limit > 0 ==>
              Used(Ideal(Take(all, limit), limit), k, v) == Ideal(Take([(k, v)] + Without(all, k), limit), limit)
    ensures limit == 0 ==> Used(Ideal(all, limit), k, v) == Ideal([(k, v)] + Without(all, k), limit)
  {
    if limit > 0 {
      TakeWithout(all, limit, k);
      TakeHead((k, v), Without(all, k), limit);
      TakeHead((k, v), Take(all, limit), limit);
      TakeTwice(all, limit);
      hide Take, Without, DifferentKeys;
    } else if ValueOf(all, k).None? {
      WithoutNothing(all, k);
    }
  }

  lemma TakeTwice<T>(s: seq<T>, n: nat)
    requires n > 0
    ensures Take(Take(s, n), n - 1) == Take(s, n - 1)
  {
  }

  /** With a limit of `n`, the cache holds exactly the `n` keys used most recently, each with its last value. */
  lemma {:induction false} HoldsMostRecent<K, V>(limit: nat, uses: seq<(K, V)>)
    ensures AfterUses(limit, uses) == Ideal(if limit > 0 then Take(Recent(uses), limit) else Recent(uses), limit)
    decreases |uses|
  {
    hide Used, Take, Without, DifferentKeys;
    if uses != [] {
      var before, last := uses[..|uses| - 1], uses[|uses| - 1];
      HoldsMostRecent(limit, before);
      RecentKeys(before);
      UsedTake(Recent(before), limit, last.0, last.1);
    } else {
      TakeNothing<(K, V)>(limit);
    }
  }

  lemma TakeNothing<T>(n: nat)
    ensures Take<T>([], n) == []
  {
  }

  lemma {:induction false} WithoutNothing<K, V>(s: seq<(K, V)>, k: K)
    requires ValueOf(s, k).None?
    ensures Without(s, k) == s
  {
    if s != [] {
      WithoutNothing(s[1..], k);
    }
  }

  // ------------------------------------------------------------- what recent means

  /** The position of the last use of a key, or -1. */
  function LastUse<K(==), V>(uses: seq<(K, V)>, k: K): int {
    if uses == [] then -1
    else if uses[|uses| - 1].0 == k then |uses| - 1
    else LastUse(uses[..|uses| - 1], k)
  }

  lemma {:induction false} LastUseIs<K, V>(uses: seq<(K, V)>, k: K)
    ensures -1 <= LastUse(uses, k) < |uses|
    ensures LastUse(uses, k) >= 0 ==> uses[LastUse(uses, k)].0 == k
    ensures forall i :: LastUse(uses, k) < i < |uses| ==> uses[i].0 != k
  {
    if uses != [] && uses[|uses| - 1].0 != k {
      var before := uses[..|uses| - 1];
      LastUseIs(before, k);
      assert forall i :: 0 <= i < |before| ==> uses[i] == before[i];
    }
  }

  lemma {:induction false} WithoutSplits<K, V>(s: seq<(K, V)>, k: K) returns (p: nat)
    ensures p <= |s| && (p < |s| ==> s[p].0 == k)
    ensures Without(s, k) == s[..p] + if p < |s| then s[p + 1..] else []
    ensures forall i :: 0 <= i < p ==> s[i].0 != k
  {
    if s == [] {
      p := 0;
    } else if s[0].0 == k {
      p := 0;
    } else {
      var q := WithoutSplits(s[1..], k);
      p := q + 1;
      assert s == [s[0]] + s[1..];
      assert s[..p] == [s[0]] + s[1..][..q];
      assert p < |s| ==> s[p + 1..] == s[1..][q + 1..];
    }
  }

  /** Each key used is in `r` with the value of its last use, and keys are in the order of their last uses. */
  ghost predicate IsRecent<K, V>(uses: seq<(K, V)>, r: seq<(K, V)>) {
    && (forall i :: 0 <= i < |r| ==> 0 <= LastUse(uses, r[i].0) < |uses| && uses[LastUse(uses, r[i].0)] == r[i])
    && (forall i, j :: 0 <= i < j < |r| ==> LastUse(uses, r[i].0) > LastUse(uses, r[j].0))
    && forall n :: 0 <= n < |uses| ==> Has(r, uses[n].0)
  }

  lemma {:induction false} RecentMeans<K, V>(uses: seq<(K, V)>)
    ensures IsRecent(uses, Recent(uses))
  {
    hide *;
    NoUses<K, V>();
    if uses != [] {
      var before, last := uses[..|uses| - 1], uses[|uses| - 1];
      var s := Recent(before);
      RecentMeans(before);
      RecentKeys(before);
      var p := WithoutSplits(s, last.0);
      RestKeys(s, last.0, p, Without(s, last.0));
      assert uses == before + [last];
      RecentIs(uses);
      OneMoreUse(before, s, last, p, Without(s, last.0));
    }
  }

  lemma NoUses<K, V>()
    ensures Recent<K, V>([]) == [] && IsRecent<K, V>([], [])
  {
  }

  lemma RecentIs<K, V>(uses: seq<(K, V)>)
    requires uses != []
    ensures var last := uses[|uses| - 1];
            Recent(uses) == [last] + Without(Recent(uses[..|uses| - 1]), last.0)
  {
  }

  lemma UseAdded<K, V>(before: seq<(K, V)>, last: (K, V), k: K)
    ensures LastUse(before + [last], k) == if last.0 == k then |before| else LastUse(before, k)
    ensures -1 <= LastUse(before, k) < |before|
  {
    assert (before + [last])[..|before|] == before;
    LastUseIs(before, k);
  }

  lemma OneMoreUse<K, V>(before: seq<(K, V)>, s: seq<(K, V)>, last: (K, V), p: nat, rest: seq<(K, V)>)
    requires IsRecent(before, s) && p <= |s| && (p < |s| ==> s[p].0 == last.0)
    requires rest == s[..p] + if p < |s| then s[p + 1..] else []
    requires forall i :: 0 <= i < |rest| ==> rest[i] == s[if i < p then i else i + 1] && rest[i].0 != last.0
    ensures IsRecent(before + [last], [last] + rest)
  {
    var uses, r := before + [last], [last] + rest;
    hide LastUse, Has;
    forall i | 0 <= i < |r|
      ensures LastUse(uses, r[i].0) == if i == 0 then |before| else LastUse(before, rest[i - 1].0)
      ensures 0 <= LastUse(uses, r[i].0) < |uses| && uses[LastUse(uses, r[i].0)] == r[i]
    {
      UseAdded(before, last, r[i].0);
      if i > 0 {
        var q := if i - 1 < p then i - 1 else i;
        assert rest[i - 1] == s[q] && before[LastUse(before, s[q].0)] == s[q];
      }
    }
    forall i, j | 0 <= i < j < |r|
      ensures LastUse(uses, r[i].0) > LastUse(uses, r[j].0)
    {
      var b := if j - 1 < p then j - 1 else j;
      assert rest[j - 1] == s[b];
      UseAdded(before, last, r[j].0);
      if i > 0 {
        var a := if i - 1 < p then i - 1 else i;
        assert rest[i - 1] == s[a] && a < b;
      }
    }
    forall n | 0 <= n < |uses|
      ensures Has(r, uses[n].0)
    {
      StillHas(before, s, last, p, rest, uses[n].0);
      if n < |before| {
        assert before[n] == uses[n];
      }
    }
  }

  ghost predicate Has<K, V>(entries: seq<(K, V)>, k: K) {
    exists i :: 0 <= i < |entries| && entries[i].0 == k
  }

  lemma RestKeys<K, V>(s: seq<(K, V)>, k: K, p: nat, rest: seq<(K, V)>)
    requires DifferentKeys(s) && p <= |s| && (p < |s| ==> s[p].0 == k) && (forall i :: 0 <= i < p ==> s[i].0 != k)
    requires rest == s[..p] + if p < |s| then s[p + 1..] else []
    ensures |rest| == if p < |s| then |s| - 1 else |s|
    ensures forall i :: 0 <= i < |rest| ==> rest[i] == s[if i < p then i else i + 1] && rest[i].0 != k
  {
  }

  lemma StillHas<K, V>(before: seq<(K, V)>, s: seq<(K, V)>, last: (K, V), p: nat, rest: seq<(K, V)>, k: K)
    requires p <= |s| && (p < |s| ==> s[p].0 == last.0)
    requires rest == s[..p] + if p < |s| then s[p + 1..] else []
    ensures Has(s, k) || k == last.0 ==> Has([last] + rest, k)
  {
    var r := [last] + rest;
    if k == last.0 {
      assert r[0].0 == k;
    } else if Has(s, k) {
      var i :| 0 <= i < |s| && s[i].0 == k;
      assert r[if i < p then i + 1 else i] == s[i];
    }
  }

  // ------------------------------------------------------------------ gets and puts

  lemma {:induction false} StepsLast<K, V>(m: Ideal<K, V>, supplier: K -> Option<V>, ops: seq<Op<K, V>>)
    requires ops != []
    ensures Steps(m, supplier, ops) == Step(Steps(m, supplier, ops[..|ops| - 1]), supplier, ops[|ops| - 1])
    decreases |ops|
  {
    if |ops| == 1 {
      assert ops[1..] == [] && ops[..0] == [];
    } else {
      StepsLast(Step(m, supplier, ops[0]), supplier, ops[1..]);
      assert ops[1..][..|ops| - 2] == ops[..|ops| - 1][1..];
    }
  }

  /**
   A cache to which gets and puts are made holds exactly the keys used most recently, whether by a get or
   by a put: those put with the value put last, unless they were dropped and supplied again.
   */
  lemma {:induction false} KeepsUsed<K, V>(limit: nat, supplier: K -> Option<V>, ops: seq<Op<K, V>>)
    returns (uses: seq<(K, V)>)
    requires forall i :: 0 <= i < |ops| ==> ops[i].Put? || (ops[i].Get? && supplier(ops[i].key).Some?)
    ensures |uses| == |ops|
    ensures forall i :: 0 <= i < |ops| ==> uses[i].0 == ops[i].key && (ops[i].Put? ==> uses[i].1 == ops[i].value)
    ensures Steps(Ideal([], limit), supplier, ops) ==
              Ideal(if limit > 0 then Take(Recent(uses), limit) else Recent(uses), limit)
    decreases |ops|
  {
    hide *;
    if ops == [] {
      uses := [];
      NotUsed<K, V>(limit, supplier);
      HoldsMostRecent<K, V>(limit, []);
    } else {
      var n := |ops| - 1;
      var before, op := ops[..n], ops[n];
      var first := KeepsUsed(limit, supplier, before);
      HoldsMostRecent(limit, first);
      StepsLast(Ideal([], limit), supplier, ops);
      var m := Steps(Ideal([], limit), supplier, before);
      OneUse(m, supplier, op);
      var v := if op.Put? then op.value else Result(m, supplier, op.key).value;
      uses := first + [(op.key, v)];
      assert uses[..n] == first && uses[n] == (op.key, v);
      HoldsMostRecent(limit, uses);
      AfterLast(limit, uses);
    }
  }

  lemma NotUsed<K, V>(limit: nat, supplier: K -> Option<V>)
    ensures Steps(Ideal([], limit), supplier, []) == AfterUses(limit, [])
  {
  }

  lemma OneUse<K, V>(m: Ideal<K, V>, supplier: K -> Option<V>, op: Op<K, V>)
    ensures op.Put? ==> Step(m, supplier, op) == Used(m, op.key, op.value)
    ensures op.Get? && supplier(op.key).Some? ==>
              Result(m, supplier, op.key).Some? &&
              Step(m, supplier, op) == Used(m, op.key, Result(m, supplier, op.key).value)
  {
    hide Used;
  }

  lemma AfterLast<K, V>(limit: nat, uses: seq<(K, V)>)
    requires uses != []
    ensures var last := uses[|uses| - 1];
            AfterUses(limit, uses) == Used(AfterUses(limit, uses[..|uses| - 1]), last.0, last.1)
  {
    hide Used;
  }
}
