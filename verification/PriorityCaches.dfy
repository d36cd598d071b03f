/** A cache that drops the keys that were used least recently. */
module PriorityCaches {
  import opened Options

  // ---------------------------------------------------------------- the ideal cache

  /** The keys with their values, the one used last in front; a limit of zero is no limit. */
  datatype Ideal<K, V> = Ideal(entries: seq<(K, V)>, maxSize: nat)

  /** The value of a key. */
  ghost function ValueOf<K, V>(entries: seq<(K, V)>, k: K): Option<V> {
    if entries == [] then None
    else if entries[0].0 == k then Some(entries[0].1)
    else ValueOf(entries[1..], k)
  }

  /** The entries without the one of key `k`. */
  ghost function Without<K, V>(entries: seq<(K, V)>, k: K): seq<(K, V)> {
    if entries == [] then []
    else if entries[0].0 == k then entries[1..]
    else [entries[0]] + Without(entries[1..], k)
  }

  ghost function Take<T>(s: seq<T>, n: nat): seq<T> {
    if |s| <= n then s else s[..n]
  }

  ghost function Limited<K, V>(m: Ideal<K, V>): Ideal<K, V> {
    if m.maxSize > 0 then m.(entries := Take(m.entries, m.maxSize)) else m
  }

  /** A key is used with a value: it moves to the front, or comes in there. */
  ghost function Used<K, V>(m: Ideal<K, V>, k: K, v: V): Ideal<K, V> {
    if ValueOf(m.entries, k).Some? then m.(entries := [(k, v)] + Without(m.entries, k))
    else Limited(m.(entries := [(k, v)] + m.entries))
  }

  /** What is returned for a key: the value cached, or else what the supplier has. */
  ghost function Result<K, V>(m: Ideal<K, V>, supplier: K -> Option<V>, k: K): Option<V> {
    if ValueOf(m.entries, k).Some? then ValueOf(m.entries, k) else supplier(k)
  }

  ghost function Gotten<K, V>(m: Ideal<K, V>, supplier: K -> Option<V>, k: K): Ideal<K, V> {
    match Result(m, supplier, k)
    case None => m
    case Some(v) => Used(m, k, v)
  }

  ghost function Trimmed<K, V>(m: Ideal<K, V>, n: nat): Ideal<K, V> {
    m.(entries := Take(m.entries, n))
  }

  ghost function Resized<K, V>(m: Ideal<K, V>, n: nat): Ideal<K, V> {
    Trimmed(m, n).(maxSize := n)
  }

  // --------------------------------------------------------------- the cache object

  class KeyAccess<K> {
    const key: K
    var lastAccess: nat

    constructor (key: K, lastAccess: nat)
      ensures this.key == key && this.lastAccess == lastAccess
    {
      this.key, this.lastAccess := key, lastAccess;
    }
  }

  datatype Value<K, V> = Value(value: V, key: KeyAccess<K>)

  /** The access stamps of some keys. */
  ghost function Stamps<K>(keys: seq<KeyAccess<K>>): map<KeyAccess<K>, nat>
    reads keys`lastAccess
  {
    map x | x in keys :: x.lastAccess
  }

  /** Map and vector are one-to-one. */
  ghost predicate OneToOne<K, V>(values: map<K, Value<K, V>>, keys: seq<KeyAccess<K>>) {
    && (forall i, j :: 0 <= i < j < |keys| ==> keys[i] != keys[j])
    && (forall i :: 0 <= i < |keys| ==> keys[i].key in values && values[keys[i].key].key == keys[i])
    && forall k :: k in values ==> values[k].key in keys && values[k].key.key == k
  }

  /** The keys in `order` are those cached, with falling stamps, which all lie in the past. */
  ghost predicate Ordered<K, V>(values: map<K, Value<K, V>>, stamps: map<KeyAccess<K>, nat>, counter: nat,
                                order: seq<K>) {
    && (forall k :: k in values ==> values[k].key in stamps && stamps[values[k].key] < counter)
    && (forall k :: k in values ==> k in order)
    && (forall i :: 0 <= i < |order| ==> order[i] in values)
    && forall i, j :: 0 <= i < j < |order| ==> stamps[values[order[i]].key] > stamps[values[order[j]].key]
  }

  ghost function EntriesOf<K, V>(values: map<K, Value<K, V>>, order: seq<K>): (e: seq<(K, V)>)
    requires forall i :: 0 <= i < |order| ==> order[i] in values
    ensures |e| == |order|
  {
    if order == [] then [] else [(order[0], values[order[0]].value)] + EntriesOf(values, order[1..])
  }

  class PriorityCache<K(==), V> {
    var values: map<K, Value<K, V>>
    var keys: seq<KeyAccess<K>>
    var maxSize: nat
    var accessCounter: nat
    const supplier: K -> Option<V>
    /** The keys in the order of their last accesses, the latest one in front. */
    ghost var order: seq<K>

    ghost predicate Valid()
      reads `values, `keys, `accessCounter, `order, keys`lastAccess
    {
      OneToOne(values, keys) && Ordered(values, Stamps(keys), accessCounter, order) && |order| == |keys|
    }

    /** The recency list that the cache stands for. */
    ghost function Model(): Ideal<K, V>
      requires Valid()
      reads `values, `keys, `accessCounter, `order, `maxSize, keys`lastAccess
    {
      Ideal(EntriesOf(values, order), maxSize)
    }

    constructor (supplier: K -> Option<V>, unlimited: nat)
      ensures Valid() && Model() == Ideal([], unlimited) && this.supplier == supplier && keys == []
    {
      values, keys, maxSize, accessCounter, order := map[], [], unlimited, 0, [];
      this.supplier := supplier;
    }

    /** A cached key is accessed. */
    method Touch(key: K)
      requires Valid() && key in values
      modifies `accessCounter, `order, keys`lastAccess
      ensures Valid()
      ensures Model() == old(Model()).(entries := [(key, values[key].value)] + Without(old(Model()).entries, key))
    {
      hide *;
      CacheIs(this);
      ghost var i := IndexOf(order, key, values);
      ghost var stamps := Stamps(keys);
      StampsHave(keys);
      TouchFits(values, keys, stamps, accessCounter, order, i);
      var access := values[key].key;
      access.lastAccess := accessCounter;
      StampsAre(keys, stamps[access := accessCounter]);
      accessCounter := accessCounter + 1;
      order := Moved(order, i);
      CacheNow(this);
    }

    /** The value of a key: from the cache, or else from the supplier, and then it is cached. */
    method Get(key: K) returns (r: Option<V>)
      requires Valid()
      modifies this, keys`lastAccess
      ensures Valid() && forall x :: x in keys ==> x in old(keys) || fresh(x)
      ensures Model() == Gotten(old(Model()), supplier, key)
      ensures r == Result(old(Model()), supplier, key)
    {
      hide *;
      CacheIs(this);
      ValueIs(values, Stamps(keys), accessCounter, order, key);
      GottenIs(Model(), supplier, key);
      if key !in values {
        var v := supplier(key);
        if v.None? {
          return None;
        }
        AddNewValue(key, v.value);
      } else {
        Touch(key);
      }
      r := Some(values[key].value);
    }

    method Put(key: K, value: V)
      requires Valid()
      modifies this, keys`lastAccess
      ensures Valid() && forall x :: x in keys ==> x in old(keys) || fresh(x)
      ensures Model() == Used(old(Model()), key, value)
    {
      hide *;
      CacheIs(this);
      ValueIs(values, Stamps(keys), accessCounter, order, key);
      UsedIs(Model(), key, value);
      if key !in values {
        AddNewValue(key, value);
      } else {
        Touch(key);
        CacheIs(this);
        FrontIs(this, key);
        PutFits(values, keys, Stamps(keys), accessCounter, order, value);
        values := values[key := Value(value, values[key].key)];
        CacheNow(this);
      }
    }

    /** A new key with its value, and then the limit is enforced. */
    method AddNewValue(key: K, value: V)
      requires Valid() && key !in values
      modifies this
      ensures Valid() && forall x :: x in keys ==> x in old(keys) || fresh(x)
      ensures Model() == Limited(old(Model()).(entries := [(key, value)] + old(Model()).entries))
      ensures key in values && values[key].value == value
    {
      hide *;
      AddKey(key, value);
      CacheIs(this);
      LimitedIs(Model());
      if maxSize > 0 && |keys| > maxSize {
        TrimmedIs(Model(), maxSize);
        Trim(maxSize);
      }
      FrontStays(this, key, value);
    }

    method AddKey(key: K, value: V)
      requires Valid() && key !in values
      modifies this
      ensures Valid() && forall x :: x in keys ==> x in old(keys) || fresh(x)
      ensures Model() == old(Model()).(entries := [(key, value)] + old(Model()).entries)
    {
      hide *;
      CacheIs(this);
      ghost var stamps := Stamps(keys);
      StampsHave(keys);
      var keyPtr := new KeyAccess(key, accessCounter);
      AddFits(values, keys, stamps, accessCounter, order, keyPtr, value);
      StampsAre(keys + [keyPtr], stamps[keyPtr := accessCounter]);
      accessCounter := accessCounter + 1;
      keys := keys + [keyPtr];
      values := values[key := Value(value, keyPtr)];
      order := [key] + order;
      CacheNow(this);
    }

    /** The accesses, the latest one first. */
    static method SortedByAccess(keys: seq<KeyAccess<K>>) returns (sorted: seq<KeyAccess<K>>)
      ensures multiset(sorted) == multiset(keys)
      ensures forall i, j :: 0 <= i < j < |sorted| ==> sorted[i].lastAccess >= sorted[j].lastAccess
    {
      sorted := [];
      for i := 0 to |keys|
        invariant multiset(sorted) == multiset(keys[..i])
        invariant forall j, k :: 0 <= j < k < |sorted| ==> sorted[j].lastAccess >= sorted[k].lastAccess
        modifies {}
      {
        var at := PlaceFor(sorted, keys[i].lastAccess);
        InsertedBag(sorted, at, keys[i]);
        InsertedFalls(sorted, at, keys[i]);
        NextBag(keys, i);
        sorted := sorted[..at] + [keys[i]] + sorted[at..];
      }
      assert keys[..|keys|] == keys;
    }

    static method PlaceFor(sorted: seq<KeyAccess<K>>, stamp: nat) returns (at: nat)
      requires forall j, k :: 0 <= j < k < |sorted| ==> sorted[j].lastAccess >= sorted[k].lastAccess
      ensures at <= |sorted| && (forall j :: 0 <= j < at ==> sorted[j].lastAccess >= stamp)
      ensures forall j :: at <= j < |sorted| ==> sorted[j].lastAccess <= stamp
    {
      at := 0;
      while at < |sorted| && sorted[at].lastAccess >= stamp
        invariant 0 <= at <= |sorted| && forall j :: 0 <= j < at ==> sorted[j].lastAccess >= stamp
      {
        at := at + 1;
      }
    }

    /** Keeps the `n` keys that were accessed last. */
    method Trim(n: nat)
      requires Valid()
      modifies this
      ensures Valid() && forall x :: x in keys ==> x in old(keys)
      ensures Model() == Trimmed(old(Model()), n)
      ensures |keys| <= n || keys == old(keys)
    {
      hide *;
      CacheIs(this);
      TrimmedIs(Model(), n);
      if |keys| <= n {
        return;
      }
      ghost var all, was, stamps, counter, list := values, keys, Stamps(keys), accessCounter, order;
      StampsHave(keys);
      var sorted := SortedByAccess(keys);
      SortedIsOrder(values, keys, stamps, accessCounter, order, sorted);
      keys := sorted;
      EraseFrom(n, stamps);
      keys := keys[..n];
      order := order[..n];
      StampsHave(keys);
      TakenFrom(sorted, n);
      TrimFits(all, was, stamps, counter, list, n, Stamps(keys));
      CacheNow(this);
    }

    /** Erases the values of the keys from `n` on. */
    method EraseFrom(n: nat, ghost stamps: map<KeyAccess<K>, nat>)
      requires Ordered(values, stamps, accessCounter, order) && n <= |order| == |keys|
      requires forall i :: 0 <= i < |order| ==> keys[i].key == order[i]
      modifies `values
      ensures values == Restricted(old(values), order[..n], [])
    {
      hide *;
      ghost var all := values;
      RestrictedAll(all, stamps, accessCounter, order, n);
      for i := n to |keys|
        invariant values == Restricted(all, order[..n], order[i..])
      {
        LessRestricted(all, stamps, accessCounter, order, n, i);
        values := values - {keys[i].key};
      }
      assert order[|order|..] == [];
    }

    method SetMaxSize(size: nat)
      requires Valid()
      modifies this
      ensures Valid() && forall x :: x in keys ==> x in old(keys)
      ensures Model() == Resized(old(Model()), size)
    {
      hide *;
      CacheIs(this);
      TrimmedIs(Model(), size);
      ResizedIs(Model(), size);
      if |keys| > size {
        Trim(size);
      }
      CacheIs(this);
      maxSize := size;
      CacheNow(this);
    }

    method Invalidate()
      requires Valid()
      modifies this
      ensures Valid() && keys == [] && Model() == old(Model()).(entries := [])
    {
      values, keys, order := map[], [], [];
    }

    predicate IsCached(key: K)
      reads this
    {
      key in values
    }
  }

  // ------------------------------------------------------- facts on the cache

  lemma CacheIs<K, V>(c: PriorityCache<K, V>)
    requires c.Valid()
    ensures OneToOne(c.values, c.keys) && Ordered(c.values, Stamps(c.keys), c.accessCounter, c.order) &&
            |c.order| == |c.keys|
    ensures forall i :: 0 <= i < |c.order| ==> c.order[i] in c.values
    ensures forall k :: k in c.values ==> c.values[k].key in c.keys && c.values[k].key.key == k
    ensures c.Model() == Ideal(EntriesOf(c.values, c.order), c.maxSize)
    ensures |c.Model().entries| == |c.keys|
  {
  }

  lemma CacheNow<K, V>(c: PriorityCache<K, V>)
    requires OneToOne(c.values, c.keys) && Ordered(c.values, Stamps(c.keys), c.accessCounter, c.order) &&
             |c.order| == |c.keys|
    ensures c.Valid()
    ensures forall i :: 0 <= i < |c.order| ==> c.order[i] in c.values
    ensures c.Model() == Ideal(EntriesOf(c.values, c.order), c.maxSize)
    ensures |c.Model().entries| == |c.keys|
  {
  }

  lemma StampsAre<K>(keys: seq<KeyAccess<K>>, stamps: map<KeyAccess<K>, nat>)
    requires forall x :: x in keys ==> x in stamps && stamps[x] == x.lastAccess
    requires forall x :: x in stamps ==> x in keys
    ensures Stamps(keys) == stamps
  {
  }

  lemma StampsHave<K>(keys: seq<KeyAccess<K>>)
    ensures forall x :: x in Stamps(keys) ==> x in keys
    ensures forall x :: x in keys ==> x in Stamps(keys) && Stamps(keys)[x] == x.lastAccess
  {
  }

  lemma IndexOf<K, V>(order: seq<K>, k: K, values: map<K, Value<K, V>>) returns (i: nat)
    requires k in values && forall j :: j in values ==> j in order
    ensures i < |order| && order[i] == k
  {
    assert k in order;
    i :| i < |order| && order[i] == k;
  }

  lemma {:induction false} ValueOfEntries<K, V>(values: map<K, Value<K, V>>, order: seq<K>, k: K)
    requires forall i :: 0 <= i < |order| ==> order[i] in values
    ensures ValueOf(EntriesOf(values, order), k) == if k in order then Some(values[k].value) else None
  {
    if order != [] && order[0] != k {
      ValueOfEntries(values, order[1..], k);
    }
  }

  lemma ValueIs<K, V>(values: map<K, Value<K, V>>, stamps: map<KeyAccess<K>, nat>, counter: nat, order: seq<K>, k: K)
    requires Ordered(values, stamps, counter, order)
    ensures forall i :: 0 <= i < |order| ==> order[i] in values
    ensures ValueOf(EntriesOf(values, order), k) == if k in values then Some(values[k].value) else None
  {
    ValueOfEntries(values, order, k);
  }

  lemma GottenIs<K, V>(m: Ideal<K, V>, supplier: K -> Option<V>, k: K)
    ensures Result(m, supplier, k) == if ValueOf(m.entries, k).Some? then ValueOf(m.entries, k) else supplier(k)
    ensures Gotten(m, supplier, k) ==
            if ValueOf(m.entries, k).Some? then
              m.(entries := [(k, ValueOf(m.entries, k).value)] + Without(m.entries, k))
            else if supplier(k).None? then m
            else Limited(m.(entries := [(k, supplier(k).value)] + m.entries))
  {
  }

  lemma UsedIs<K, V>(m: Ideal<K, V>, k: K, v: V)
    ensures Used(m, k, v) ==
            if ValueOf(m.entries, k).Some? then m.(entries := [(k, v)] + Without(m.entries, k))
            else Limited(m.(entries := [(k, v)] + m.entries))
  {
  }

  lemma LimitedIs<K, V>(m: Ideal<K, V>)
    ensures Limited(m) == if m.maxSize > 0 && |m.entries| > m.maxSize then Trimmed(m, m.maxSize) else m
  {
  }

  lemma TrimmedIs<K, V>(m: Ideal<K, V>, n: nat)
    ensures Trimmed(m, n) == Ideal(if |m.entries| <= n then m.entries else m.entries[..n], m.maxSize)
  {
  }

  lemma ResizedIs<K, V>(m: Ideal<K, V>, n: nat)
    ensures Resized(m, n) == Ideal(Trimmed(m, n).entries, n)
  {
  }

  /** Falling stamps make keys different. */
  lemma DistinctOrder<K, V>(values: map<K, Value<K, V>>, stamps: map<KeyAccess<K>, nat>, counter: nat, order: seq<K>)
    requires Ordered(values, stamps, counter, order)
    ensures forall i, j :: 0 <= i < j < |order| ==> order[i] != order[j]
  {
  }

  lemma AllIn<K, V>(values: map<K, Value<K, V>>, a: seq<K>, b: seq<K>)
    requires forall i :: 0 <= i < |a| ==> a[i] in values
    requires forall i :: 0 <= i < |b| ==> b[i] in values
    ensures forall i :: 0 <= i < |a + b| ==> (a + b)[i] in values
  {
  }

  lemma {:induction false} EntriesJoin<K, V>(values: map<K, Value<K, V>>, a: seq<K>, b: seq<K>)
    requires forall i :: 0 <= i < |a| ==> a[i] in values
    requires forall i :: 0 <= i < |b| ==> b[i] in values
    ensures forall i :: 0 <= i < |a + b| ==> (a + b)[i] in values
    ensures EntriesOf(values, a + b) == EntriesOf(values, a) + EntriesOf(values, b)
    decreases |a|
  {
    AllIn(values, a, b);
    if a == [] {
      assert a + b == b;
    } else {
      assert a + b == [a[0]] + (a[1..] + b);
      EntriesJoin(values, a[1..], b);
      EntriesHead(values, a[0], a[1..] + b);
      EntriesHead(values, a[0], a[1..]);
      assert a == [a[0]] + a[1..];
      hide EntriesOf;
    }
  }

  lemma EntriesHead<K, V>(values: map<K, Value<K, V>>, k: K, rest: seq<K>)
    requires k in values && forall i :: 0 <= i < |rest| ==> rest[i] in values
    ensures forall i :: 0 <= i < |[k] + rest| ==> ([k] + rest)[i] in values
    ensures EntriesOf(values, [k] + rest) == [(k, values[k].value)] + EntriesOf(values, rest)
  {
    assert ([k] + rest)[1..] == rest;
  }

  lemma {:induction false} WithoutAt<K, V>(values: map<K, Value<K, V>>, order: seq<K>, i: nat)
    requires forall j :: 0 <= j < |order| ==> order[j] in values
    requires i < |order| && forall j :: 0 <= j < i ==> order[j] != order[i]
    ensures Without(EntriesOf(values, order), order[i]) ==
              EntriesOf(values, order[..i]) + EntriesOf(values, order[i + 1..])
    decreases i
  {
    if i > 0 {
      WithoutAt(values, order[1..], i - 1);
      assert order[1..][..i - 1] == order[..i][1..] && order[1..][i..] == order[i + 1..];
    }
  }

  lemma {:induction false} SameEntries<K, V>(values: map<K, Value<K, V>>, values': map<K, Value<K, V>>, order: seq<K>)
    requires forall i :: 0 <= i < |order| ==>
               order[i] in values && order[i] in values' && values'[order[i]].value == values[order[i]].value
    ensures EntriesOf(values', order) == EntriesOf(values, order)
  {
    if order != [] {
      SameEntries(values, values', order[1..]);
    }
  }

  /** The books after the key at `i` was accessed. */
  lemma TouchFits<K, V>(values: map<K, Value<K, V>>, keys: seq<KeyAccess<K>>, stamps: map<KeyAccess<K>, nat>,
                        counter: nat, order: seq<K>, i: nat)
    requires OneToOne(values, keys) && Ordered(values, stamps, counter, order) && i < |order|
    ensures order[i] in values && forall j :: 0 <= j < |order| ==> order[j] in values
    ensures var k, order' := order[i], Moved(order, i);
            && Ordered(values, stamps[values[k].key := counter], counter + 1, order') && |order'| == |order|
            && (forall j :: 0 <= j < |order'| ==> order'[j] in values)
            && EntriesOf(values, order') == [(k, values[k].value)] + Without(EntriesOf(values, order), k)
  {
    hide *;
    OrderHas(values, keys, stamps, counter, order);
    var k, rest := order[i], order[..i] + order[i + 1..];
    MovedAt(order, i);
    MovedSplit(order, i);
    TouchOrder(values, keys, stamps, counter, order, i);
    forall j | 0 <= j < i
      ensures order[j] != order[i]
    {
      assert values[order[j]].key != values[order[i]].key;
    }
    WithoutAt(values, order, i);
    EntriesJoin(values, order[..i], order[i + 1..]);
    EntriesJoin(values, [k], rest);
    OneEntry(values, k);
  }

  lemma MovedSplit<T>(s: seq<T>, i: nat)
    requires i < |s|
    ensures Moved(s, i) == [s[i]] + (s[..i] + s[i + 1..])
  {
  }

  lemma OneEntry<K, V>(values: map<K, Value<K, V>>, k: K)
    requires k in values
    ensures EntriesOf(values, [k]) == [(k, values[k].value)]
  {
    assert [k][1..] == [];
  }

  /** The list with its element at `i` moved to the front. */
  ghost function Moved<T>(s: seq<T>, i: nat): seq<T>
    requires i < |s|
  {
    [s[i]] + s[..i] + s[i + 1..]
  }

  /** Where the element at `m` of the new list has come from. */
  ghost function MovedFrom(i: nat, m: nat): nat {
    if m == 0 then i else if m <= i then m - 1 else m
  }

  lemma MovedAt<T>(s: seq<T>, i: nat)
    requires i < |s|
    ensures |Moved(s, i)| == |s| && forall m :: 0 <= m < |s| ==>
              MovedFrom(i, m) < |s| && Moved(s, i)[m] == s[MovedFrom(i, m)]
    ensures forall x :: x in s ==> x in Moved(s, i)
  {
    assert s == s[..i] + [s[i]] + s[i + 1..];
  }

  lemma MovedOrder(i: nat, a: nat, b: nat)
    requires a < b
    ensures MovedFrom(i, b) != i && (a > 0 ==> MovedFrom(i, a) != i && MovedFrom(i, a) < MovedFrom(i, b)) &&
            (a == 0 ==> MovedFrom(i, a) == i)
  {
  }

  lemma TouchOrder<K, V>(values: map<K, Value<K, V>>, keys: seq<KeyAccess<K>>, stamps: map<KeyAccess<K>, nat>,
                         counter: nat, order: seq<K>, i: nat)
    requires OneToOne(values, keys) && Ordered(values, stamps, counter, order) && i < |order| && order[i] in values
    ensures Ordered(values, stamps[values[order[i]].key := counter], counter + 1, Moved(order, i))
  {
    hide *;
    MovedAt(order, i);
    var moved := Moved(order, i);
    var stamps' := stamps[values[order[i]].key := counter];
    OrderHas(values, keys, stamps, counter, order);
    forall a, b | 0 <= a < b < |moved|
      ensures moved[a] in values && moved[b] in values && stamps'[values[moved[a]].key] > stamps'[values[moved[b]].key]
    {
      MovedOrder(i, a, b);
      var x, y := MovedFrom(i, a), MovedFrom(i, b);
      assert values[order[y]].key != values[order[i]].key;
      assert a > 0 ==> values[order[x]].key != values[order[i]].key;
    }
    OrderedNow(values, stamps', counter + 1, moved);
  }

  /** What the order says, element by element. */
  lemma OrderHas<K, V>(values: map<K, Value<K, V>>, keys: seq<KeyAccess<K>>, stamps: map<KeyAccess<K>, nat>,
                       counter: nat, order: seq<K>)
    requires OneToOne(values, keys) && Ordered(values, stamps, counter, order)
    ensures forall i :: 0 <= i < |order| ==>
              order[i] in values && values[order[i]].key in stamps && stamps[values[order[i]].key] < counter
    ensures forall i, j :: 0 <= i < j < |order| ==> stamps[values[order[i]].key] > stamps[values[order[j]].key]
    ensures forall i, j :: 0 <= i < |order| && 0 <= j < |order| && i != j ==>
              values[order[i]].key != values[order[j]].key
    ensures forall k :: k in values ==> k in order && values[k].key in stamps && stamps[values[k].key] < counter
  {
    forall i, j | 0 <= i < |order| && 0 <= j < |order| && i != j
      ensures values[order[i]].key != values[order[j]].key
    {
      assert i < j || j < i;
    }
  }

  lemma OrderedNow<K, V>(values: map<K, Value<K, V>>, stamps: map<KeyAccess<K>, nat>, counter: nat, order: seq<K>)
    requires forall k :: k in values ==> k in order && values[k].key in stamps && stamps[values[k].key] < counter
    requires forall i :: 0 <= i < |order| ==> order[i] in values
    requires forall i, j :: 0 <= i < j < |order| ==> stamps[values[order[i]].key] > stamps[values[order[j]].key]
    ensures Ordered(values, stamps, counter, order)
  {
  }

  /** The books after the value of the first key was replaced. */
  lemma PutFits<K, V>(values: map<K, Value<K, V>>, keys: seq<KeyAccess<K>>, stamps: map<KeyAccess<K>, nat>,
                      counter: nat, order: seq<K>, value: V)
    requires OneToOne(values, keys) && Ordered(values, stamps, counter, order) && order != [] && order[0] in values
    ensures var values' := values[order[0] := Value(value, values[order[0]].key)];
            && OneToOne(values', keys) && Ordered(values', stamps, counter, order)
            && (forall j :: 0 <= j < |order| ==> order[j] in values && order[j] in values')
            && EntriesOf(values', order) == [(order[0], value)] + EntriesOf(values, order)[1..]
  {
    var values' := values[order[0] := Value(value, values[order[0]].key)];
    DistinctOrder(values, stamps, counter, order);
    SameEntries(values, values', order[1..]);
  }

  /** The books with a new key. */
  lemma AddFits<K, V>(values: map<K, Value<K, V>>, keys: seq<KeyAccess<K>>, stamps: map<KeyAccess<K>, nat>,
                      counter: nat, order: seq<K>,
                      x: KeyAccess<K>, value: V)
    requires OneToOne(values, keys) && Ordered(values, stamps, counter, order)
    requires x !in keys && x.key !in values
    ensures var values', order' := values[x.key := Value(value, x)], [x.key] + order;
            && OneToOne(values', keys + [x]) && Ordered(values', stamps[x := counter], counter + 1, order')
            && (forall j :: 0 <= j < |order| ==> order[j] in values) &&
              (forall j :: 0 <= j < |order'| ==> order'[j] in values')
            && EntriesOf(values', order') == [(x.key, value)] + EntriesOf(values, order)
  {
    AddOneToOne(values, keys, x, value);
    AddOrdered(values, keys, stamps, counter, order, x, value);
    var values', order' := values[x.key := Value(value, x)], [x.key] + order;
    assert order'[1..] == order;
    SameEntries(values, values', order);
    hide OneToOne;
  }

  lemma AddOneToOne<K, V>(values: map<K, Value<K, V>>, keys: seq<KeyAccess<K>>, x: KeyAccess<K>, value: V)
    requires OneToOne(values, keys) && x !in keys && x.key !in values
    ensures OneToOne(values[x.key := Value(value, x)], keys + [x])
  {
  }

  lemma AddOrdered<K, V>(values: map<K, Value<K, V>>, keys: seq<KeyAccess<K>>, stamps: map<KeyAccess<K>, nat>,
                         counter: nat, order: seq<K>,
                         x: KeyAccess<K>, value: V)
    requires OneToOne(values, keys) && Ordered(values, stamps, counter, order) && x !in keys && x.key !in values
    ensures Ordered(values[x.key := Value(value, x)], stamps[x := counter], counter + 1, [x.key] + order)
  {
    hide *;
    var values', order', stamps' := values[x.key := Value(value, x)], [x.key] + order, stamps[x := counter];
    OrderHas(values, keys, stamps, counter, order);
    KeysHave(values, keys);
    forall k | k in values'
      ensures k in order' && values'[k].key in stamps' && stamps'[values'[k].key] < counter + 1
    {
      if k != x.key {
        var m :| 0 <= m < |order| && order[m] == k;
        assert order'[m + 1] == k;
      } else {
        assert order'[0] == k;
      }
    }
    forall i | 0 <= i < |order'|
      ensures order'[i] in values'
      ensures i > 0 ==> order'[i] == order[i - 1] && values'[order'[i]] == values[order[i - 1]]
      ensures i > 0 ==> values[order[i - 1]].key != x
    {
      assert i > 0 ==> order'[i] == order[i - 1];
    }
    OrderedNow(values', stamps', counter + 1, order');
  }

  lemma KeysHave<K, V>(values: map<K, Value<K, V>>, keys: seq<KeyAccess<K>>)
    requires OneToOne(values, keys)
    ensures forall k :: k in values ==> values[k].key in keys && values[k].key.key == k
  {
  }

  lemma FrontIs<K, V>(c: PriorityCache<K, V>, k: K)
    requires c.Valid() && c.Model().entries != [] && c.Model().entries[0].0 == k
    ensures c.order != [] && c.order[0] == k
  {
  }

  lemma FrontStays<K, V>(c: PriorityCache<K, V>, k: K, v: V)
    requires c.Valid() && c.Model().entries != [] && c.Model().entries[0] == (k, v)
    ensures k in c.values && c.values[k].value == v
  {
    assert c.order[0] in c.values;
  }

  lemma InsertedFalls<K>(sorted: seq<KeyAccess<K>>, at: nat, x: KeyAccess<K>)
    requires at <= |sorted|
    requires forall j, k :: 0 <= j < k < |sorted| ==> sorted[j].lastAccess >= sorted[k].lastAccess
    requires forall j :: 0 <= j < at ==> sorted[j].lastAccess >= x.lastAccess
    requires forall j :: at <= j < |sorted| ==> sorted[j].lastAccess <= x.lastAccess
    ensures var s := sorted[..at] + [x] + sorted[at..];
            forall j, k :: 0 <= j < k < |s| ==> s[j].lastAccess >= s[k].lastAccess
  {
    var s := sorted[..at] + [x] + sorted[at..];
    assert forall j :: 0 <= j < |s| ==> s[j] == if j < at then sorted[j] else if j == at then x else sorted[j - 1];
  }

  lemma NextBag<T>(s: seq<T>, i: nat)
    requires i < |s|
    ensures multiset(s[..i + 1]) == multiset(s[..i]) + multiset{s[i]}
  {
    assert s[..i + 1] == s[..i] + [s[i]];
  }

  lemma InsertedBag<T>(s: seq<T>, at: nat, x: T)
    requires at <= |s|
    ensures multiset(s[..at] + [x] + s[at..]) == multiset(s) + multiset{x}
  {
    assert s == s[..at] + s[at..];
  }

  // ------------------------------------------------------------ facts on trimming

  /** Two lists of the same elements with falling stamps are the same. */
  lemma {:induction false} SameDecreasing<T>(a: seq<T>, b: seq<T>, stamps: map<T, nat>)
    requires |a| == |b| && (forall x :: x in a ==> x in stamps && x in b) &&
             (forall x :: x in b ==> x in stamps && x in a)
    requires forall i, j :: 0 <= i < j < |a| ==> stamps[a[i]] > stamps[a[j]]
    requires forall i, j :: 0 <= i < j < |b| ==> stamps[b[i]] > stamps[b[j]]
    ensures a == b
    decreases |a|
  {
    if a != [] {
      assert a[0] in a && a[0] in b;
      var j :| 0 <= j < |b| && b[j] == a[0];
      assert b[0] in b && b[0] in a;
      var m :| 0 <= m < |a| && a[m] == b[0];
      assert j == 0;
      forall x | x in a[1..]
        ensures x in b[1..] && x in stamps
      {
        var i :| 1 <= i < |a| && a[i] == x;
        assert x in a && x in b && stamps[a[0]] > stamps[a[i]];
        var l :| 0 <= l < |b| && b[l] == x;
        assert b[1..][l - 1] == x;
      }
      forall x | x in b[1..]
        ensures x in a[1..] && x in stamps
      {
        var i :| 1 <= i < |b| && b[i] == x;
        assert x in b && x in a && stamps[b[0]] > stamps[b[i]];
        var l :| 0 <= l < |a| && a[l] == x;
        assert a[1..][l - 1] == x;
      }
      SameDecreasing(a[1..], b[1..], stamps);
      assert a == [a[0]] + a[1..] && b == [b[0]] + b[1..];
    }
  }

  /** The objects of the keys, in order. */
  ghost function Accesses<K, V>(values: map<K, Value<K, V>>, order: seq<K>): (a: seq<KeyAccess<K>>)
    requires forall i :: 0 <= i < |order| ==> order[i] in values
    ensures |a| == |order| && forall i :: 0 <= i < |a| ==> a[i] == values[order[i]].key
  {
    if order == [] then [] else [values[order[0]].key] + Accesses(values, order[1..])
  }

  lemma AccessesAre<K, V>(values: map<K, Value<K, V>>, keys: seq<KeyAccess<K>>, stamps: map<KeyAccess<K>, nat>,
                          counter: nat, order: seq<K>)
    requires OneToOne(values, keys) && Ordered(values, stamps, counter, order)
    ensures forall i :: 0 <= i < |order| ==> order[i] in values
    ensures var a := Accesses(values, order);
            && (forall x :: x in a ==> x in keys && x in stamps) && (forall x :: x in keys ==> x in a)
            && forall i, j :: 0 <= i < j < |a| ==> stamps[a[i]] > stamps[a[j]]
  {
    var a := Accesses(values, order);
    OrderedHas(values, stamps, counter, order);
    OneToOneHas(values, keys);
    hide *;
    forall x | x in keys
      ensures x in a
    {
      var i :| 0 <= i < |order| && order[i] == x.key;
      assert a[i] == x;
    }
    forall x | x in a
      ensures x in keys && x in stamps
    {
      var i :| 0 <= i < |a| && a[i] == x;
      assert x == values[order[i]].key;
    }
  }

  lemma OrderedHas<K, V>(values: map<K, Value<K, V>>, stamps: map<KeyAccess<K>, nat>, counter: nat, order: seq<K>)
    requires Ordered(values, stamps, counter, order)
    ensures forall k :: k in values ==> k in order && values[k].key in stamps
    ensures forall i :: 0 <= i < |order| ==> order[i] in values
    ensures forall i, j :: 0 <= i < j < |order| ==> stamps[values[order[i]].key] > stamps[values[order[j]].key]
  {
  }

  lemma OneToOneHas<K, V>(values: map<K, Value<K, V>>, keys: seq<KeyAccess<K>>)
    requires OneToOne(values, keys)
    ensures forall x :: x in keys ==> x.key in values && values[x.key].key == x
    ensures forall k :: k in values ==> values[k].key in keys
  {
  }

  lemma SortedIsOrder<K, V>(values: map<K, Value<K, V>>, keys: seq<KeyAccess<K>>, stamps: map<KeyAccess<K>, nat>,
                            counter: nat, order: seq<K>,
                            sorted: seq<KeyAccess<K>>)
    requires OneToOne(values, keys) && Ordered(values, stamps, counter, order) && |order| == |keys|
    requires multiset(sorted) == multiset(keys) && forall x :: x in keys ==> x in stamps && stamps[x] == x.lastAccess
    requires forall i, j :: 0 <= i < j < |sorted| ==> sorted[i].lastAccess >= sorted[j].lastAccess
    ensures forall i :: 0 <= i < |order| ==> order[i] in values
    ensures sorted == Accesses(values, order)
    ensures |sorted| == |order| && forall i :: 0 <= i < |order| ==> sorted[i].key == order[i]
    ensures forall x :: x in sorted ==> x in keys
  {
    hide *;
    AccessesAre(values, keys, stamps, counter, order);
    KeysDistinct(values, keys);
    BagMembers(sorted, keys);
    BagSize(sorted, keys);
    var a := Accesses(values, order);
    forall i, j | 0 <= i < j < |sorted|
      ensures stamps[sorted[i]] >= stamps[sorted[j]]
    {
      assert sorted[i] in sorted && sorted[j] in sorted;
    }
    StrictlyDecreasing(sorted, a, stamps);
    SameDecreasing(sorted, a, stamps);
    AccessKeys(values, keys, order);
  }

  lemma KeysDistinct<K, V>(values: map<K, Value<K, V>>, keys: seq<KeyAccess<K>>)
    requires OneToOne(values, keys)
    ensures forall i, j :: 0 <= i < j < |keys| ==> keys[i] != keys[j]
  {
  }

  lemma AccessKeys<K, V>(values: map<K, Value<K, V>>, keys: seq<KeyAccess<K>>, order: seq<K>)
    requires OneToOne(values, keys) && forall i :: 0 <= i < |order| ==> order[i] in values
    ensures forall i :: 0 <= i < |order| ==> Accesses(values, order)[i].key == order[i]
  {
  }

  lemma BagSize<T>(a: seq<T>, b: seq<T>)
    requires multiset(a) == multiset(b)
    ensures |a| == |b|
  {
    assert |multiset(a)| == |a| && |multiset(b)| == |b|;
  }

  /** A list of different elements of a list with falling stamps has falling stamps if they do not rise. */
  lemma StrictlyDecreasing<T>(s: seq<T>, a: seq<T>, stamps: map<T, nat>)
    requires (forall x :: x in s ==> x in a) && (forall x :: x in a ==> x in stamps)
    requires forall i, j :: 0 <= i < j < |a| ==> stamps[a[i]] > stamps[a[j]]
    requires forall i, j :: 0 <= i < j < |s| ==> s[i] != s[j]
    requires forall i, j :: 0 <= i < j < |s| ==> stamps[s[i]] >= stamps[s[j]]
    ensures forall i, j :: 0 <= i < j < |s| ==> stamps[s[i]] > stamps[s[j]]
  {
    forall i, j | 0 <= i < j < |s|
      ensures stamps[s[i]] > stamps[s[j]]
    {
      assert s[i] in a && s[j] in a;
      var m :| 0 <= m < |a| && a[m] == s[i];
      var n :| 0 <= n < |a| && a[n] == s[j];
      assert m < n || n < m;
    }
  }

  lemma BagMembers<T>(a: seq<T>, b: seq<T>)
    requires multiset(a) == multiset(b) && forall i, j :: 0 <= i < j < |b| ==> b[i] != b[j]
    ensures (forall x :: x in a ==> x in b) && (forall x :: x in b ==> x in a)
    ensures forall i, j :: 0 <= i < j < |a| ==> a[i] != a[j]
  {
    forall x | x in a
      ensures x in b
    {
      assert x in multiset(a);
    }
    forall x | x in b
      ensures x in a
    {
      assert x in multiset(b);
    }
    forall i, j | 0 <= i < j < |a|
      ensures a[i] != a[j]
    {
      DistinctBag(b, a[i]);
      assert a == a[..i] + [a[i]] + a[i + 1..j] + [a[j]] + a[j + 1..];
      assert multiset(a)[a[i]] <= 1;
    }
  }

  lemma {:induction false} DistinctBag<T>(s: seq<T>, x: T)
    requires forall i, j :: 0 <= i < j < |s| ==> s[i] != s[j]
    ensures multiset(s)[x] <= 1
  {
    if s != [] {
      assert s == [s[0]] + s[1..];
      DistinctBag(s[1..], x);
      assert s[0] !in s[1..];
    }
  }

  /** The values of the keys in `keep` or in `rest`. */
  ghost function Restricted<K, V>(values: map<K, Value<K, V>>, keep: seq<K>, rest: seq<K>): map<K, Value<K, V>> {
    map k | k in values && (k in keep || k in rest) :: values[k]
  }

  lemma RestrictedAll<K, V>(values: map<K, Value<K, V>>, stamps: map<KeyAccess<K>, nat>, counter: nat, order: seq<K>,
                            n: nat)
    requires Ordered(values, stamps, counter, order) && n <= |order|
    ensures Restricted(values, order[..n], order[n..]) == values
  {
    assert order == order[..n] + order[n..];
  }

  lemma LessRestricted<K, V>(values: map<K, Value<K, V>>, stamps: map<KeyAccess<K>, nat>, counter: nat, order: seq<K>,
                             n: nat, i: nat)
    requires Ordered(values, stamps, counter, order) && n <= i < |order|
    ensures Restricted(values, order[..n], order[i..]) - {order[i]} == Restricted(values, order[..n], order[i + 1..])
  {
    DistinctOrder(values, stamps, counter, order);
    assert order[i..] == [order[i]] + order[i + 1..];
    assert order[i] !in order[..n] && order[i] !in order[i + 1..];
  }

  /** The books of the `n` keys that were accessed last. */
  lemma TrimFits<K, V>(values: map<K, Value<K, V>>, keys: seq<KeyAccess<K>>, stamps: map<KeyAccess<K>, nat>,
                       counter: nat, order: seq<K>, n: nat,
                       stamps': map<KeyAccess<K>, nat>)
    requires OneToOne(values, keys) && Ordered(values, stamps, counter, order) && n <= |order|
    requires forall i :: 0 <= i < |order| ==> order[i] in values
    requires forall x :: x in Accesses(values, order)[..n] ==> x in stamps && x in stamps' && stamps'[x] == stamps[x]
    ensures var values' := Restricted(values, order[..n], []);
            && OneToOne(values', Accesses(values, order)[..n]) && Ordered(values', stamps', counter, order[..n])
            && (forall i :: 0 <= i < n ==> order[i] in values')
            && EntriesOf(values', order[..n]) == EntriesOf(values, order)[..n]
  {
    hide *;
    var kept := order[..n];
    OrderHas(values, keys, stamps, counter, order);
    AccessesTake(values, order, n);
    KeptOneToOne(values, keys, stamps, counter, order, n);
    KeptOrdered(values, keys, stamps, counter, order, n, stamps');
    RestrictedHas(values, kept);
    SameEntries(values, Restricted(values, kept, []), kept);
    EntriesTake(values, order, n);
  }

  lemma AccessesTake<K, V>(values: map<K, Value<K, V>>, order: seq<K>, n: nat)
    requires n <= |order| && forall i :: 0 <= i < |order| ==> order[i] in values
    ensures forall i :: 0 <= i < |order[..n]| ==> order[..n][i] in values && order[..n][i] in order[..n]
    ensures Accesses(values, order)[..n] == Accesses(values, order[..n])
  {
  }

  lemma EntriesTake<K, V>(values: map<K, Value<K, V>>, order: seq<K>, n: nat)
    requires n <= |order| && forall i :: 0 <= i < |order| ==> order[i] in values
    ensures forall i :: 0 <= i < |order[..n]| ==> order[..n][i] in values
    ensures EntriesOf(values, order)[..n] == EntriesOf(values, order[..n])
  {
    assert order == order[..n] + order[n..];
    EntriesJoin(values, order[..n], order[n..]);
  }

  lemma KeptOneToOne<K, V>(values: map<K, Value<K, V>>, keys: seq<KeyAccess<K>>, stamps: map<KeyAccess<K>, nat>,
                           counter: nat, order: seq<K>, n: nat)
    requires OneToOne(values, keys) && Ordered(values, stamps, counter, order) && n <= |order|
    requires forall i :: 0 <= i < |order| ==> order[i] in values
    ensures forall i :: 0 <= i < |order[..n]| ==> order[..n][i] in values
    ensures OneToOne(Restricted(values, order[..n], []), Accesses(values, order[..n]))
  {
    hide *;
    var kept := order[..n];
    var values', a := Restricted(values, kept, []), Accesses(values, kept);
    OrderHas(values, keys, stamps, counter, order);
    KeysHave(values, keys);
    RestrictedHas(values, kept);
    assert forall i :: 0 <= i < n ==> kept[i] == order[i] && kept[i] in kept && a[i].key == kept[i];
    forall k | k in values'
      ensures values'[k].key in a && values'[k].key.key == k
    {
      assert k in kept;
      var i :| 0 <= i < |kept| && kept[i] == k;
      assert a[i] == values'[k].key;
    }
    OneToOneNow(values', a);
  }

  lemma KeptOrdered<K, V>(values: map<K, Value<K, V>>, keys: seq<KeyAccess<K>>, stamps: map<KeyAccess<K>, nat>,
                          counter: nat, order: seq<K>, n: nat,
                          stamps': map<KeyAccess<K>, nat>)
    requires OneToOne(values, keys) && Ordered(values, stamps, counter, order) && n <= |order|
    requires forall i :: 0 <= i < |order| ==> order[i] in values
    requires forall x :: x in Accesses(values, order)[..n] ==> x in stamps && x in stamps' && stamps'[x] == stamps[x]
    ensures Ordered(Restricted(values, order[..n], []), stamps', counter, order[..n])
  {
    hide *;
    var kept := order[..n];
    var values' := Restricted(values, kept, []);
    OrderHas(values, keys, stamps, counter, order);
    RestrictedHas(values, kept);
    forall i | 0 <= i < n
      ensures kept[i] == order[i] && kept[i] in values' && values'[kept[i]] == values[order[i]] &&
              values[order[i]].key in stamps'
      ensures stamps'[values[order[i]].key] == stamps[values[order[i]].key]
    {
      assert kept[i] in kept;
      assert Accesses(values, order)[..n][i] == values[order[i]].key;
    }
    forall k | k in values'
      ensures k in kept && values'[k].key in stamps' && stamps'[values'[k].key] < counter
    {
      assert k in kept;
      var i :| 0 <= i < |kept| && kept[i] == k;
    }
    OrderedNow(values', stamps', counter, kept);
  }

  lemma TakenFrom<T>(s: seq<T>, n: nat)
    requires n <= |s|
    ensures forall x :: x in s[..n] ==> x in s
  {
  }

  lemma OneToOneNow<K, V>(values: map<K, Value<K, V>>, keys: seq<KeyAccess<K>>)
    requires forall i, j :: 0 <= i < j < |keys| ==> keys[i] != keys[j]
    requires forall i :: 0 <= i < |keys| ==> keys[i].key in values && values[keys[i].key].key == keys[i]
    requires forall k :: k in values ==> values[k].key in keys && values[k].key.key == k
    ensures OneToOne(values, keys)
  {
  }

  lemma RestrictedHas<K, V>(values: map<K, Value<K, V>>, keep: seq<K>)
    ensures forall k :: k in Restricted(values, keep, []) ==> k in values && k in keep
    ensures forall k :: k in keep && k in values ==> k in Restricted(values, keep, [])
    ensures forall k :: k in Restricted(values, keep, []) ==> Restricted(values, keep, [])[k] == values[k]
  {
  }
}
