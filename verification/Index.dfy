/** The index of a tree: for each path hash, the entries with that hash. */
module Index {
  import opened Crcs
  import opened SizeBins
  import opened Forest

  type Buckets<!E> = map<Crc, seq<E>>

  ghost predicate BucketOk<E>(m: Buckets<E>, f: Forest<E>, X: set<E>, k: Crc)
    requires k in m
  {
    && m[k] != []
    && Distinct(m[k])
    && forall e :: e in m[k] ==> e in X && e in f && f[e].pathCrc == k
  }

  ghost predicate Found<E>(m: Buckets<E>, f: Forest<E>, e: E) {
    e in f && f[e].pathCrc in m && e in m[f[e].pathCrc]
  }

  /** Each entry of `X` appears once, in the bucket of its path hash; there is nothing else and no empty bucket. */
  ghost predicate Indexed<E>(m: Buckets<E>, f: Forest<E>, X: set<E>) {
    && (forall k {:trigger BucketOk(m, f, X, k)} :: k in m ==> BucketOk(m, f, X, k))
    && (forall e {:trigger Found(m, f, e)} :: e in X ==> Found(m, f, e))
  }

  ghost function Add<E>(m: Buckets<E>, k: Crc, e: E): Buckets<E> {
    m[k := (if k in m then m[k] else []) + [e]]
  }

  /** The bucket without its entry at `i`; an empty bucket is erased. */
  ghost function Erase<E>(m: Buckets<E>, k: Crc, i: nat): Buckets<E>
    requires k in m && i < |m[k]|
  {
    var left := m[k][..i] + m[k][i + 1..];
    if left == [] then m - {k} else m[k := left]
  }

  lemma AddIndexed<E>(m: Buckets<E>, f: Forest<E>, X: set<E>, e: E)
    requires Indexed(m, f, X) && e in f && e !in X
    ensures Indexed(Add(m, f[e].pathCrc, e), f, X + {e})
  {
    var k := f[e].pathCrc;
    var m' := Add(m, k, e);
    forall j | j in m'
      ensures BucketOk(m', f, X + {e}, j)
    {
      assert j in m ==> BucketOk(m, f, X, j);
    }
    forall x | x in X + {e}
      ensures Found(m', f, x)
    {
      assert x in X ==> Found(m, f, x);
    }
  }

  lemma EraseIndexed<E>(m: Buckets<E>, f: Forest<E>, X: set<E>, k: Crc, i: nat)
    requires Indexed(m, f, X) && k in m && i < |m[k]|
    ensures Indexed(Erase(m, k, i), f, X - {m[k][i]})
  {
    var e := m[k][i];
    var m' := Erase(m, k, i);
    assert BucketOk(m, f, X, k);
    forall j | j in m'
      ensures BucketOk(m', f, X - {e}, j)
    {
      assert BucketOk(m, f, X, j);
    }
    forall x | x in X - {e}
      ensures Found(m', f, x)
    {
      assert Found(m, f, x);
    }
  }

  /** The index only depends on the path hashes. */
  lemma SameCrcsIndexed<E>(m: Buckets<E>, f: Forest<E>, g: Forest<E>, X: set<E>)
    requires Indexed(m, f, X)
    requires forall e :: e in X ==> e in g && (e in f ==> g[e].pathCrc == f[e].pathCrc)
    ensures Indexed(m, g, X)
  {
    forall k | k in m
      ensures BucketOk(m, g, X, k)
    {
      assert BucketOk(m, f, X, k);
    }
    forall e | e in X
      ensures Found(m, g, e)
    {
      assert Found(m, f, e);
    }
  }
}
