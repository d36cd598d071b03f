/** The queue of scan requests. */
module ScanQueues {
  import opened FilePaths

  /** A request to list the directory at a path, and perhaps everything below it. */
  datatype Ask = Ask(at: seq<string>, recursive: bool)

  /** The queue without the requests that a new request for `at` makes superfluous; the search ends at an equal one. */
  ghost function Cleared(q: seq<Ask>, at: seq<string>): seq<Ask> {
    if q == [] then []
    else match PrefixOrder(at, q[0].at)
      case Different => [q[0]] + Cleared(q[1..], at)
      case Child => [q[0]] + Cleared(q[1..], at)
      case Parent => Cleared(q[1..], at)
      case Equal => q[1..]
  }

  ghost function PutIn(q: seq<Ask>, a: Ask, toBack: bool): seq<Ask> {
    if toBack then q + [a] else [a] + q
  }

  ghost function Enqueued(q: seq<Ask>, a: Ask, toBack: bool): seq<Ask> {
    PutIn(Cleared(q, a.at), a, toBack)
  }

  /** The requests enqueued one by one. */
  ghost function EnqueuedAll(q: seq<Ask>, asks: seq<Ask>, toBack: bool): seq<Ask>
    decreases |asks|
  {
    if asks == [] then q else EnqueuedAll(Enqueued(q, asks[0], toBack), asks[1..], toBack)
  }

  /** The requests just put in place one by one, with no look at the rest of the queue. */
  ghost function Batched(q: seq<Ask>, asks: seq<Ask>, toBack: bool): seq<Ask>
    decreases |asks|
  {
    if asks == [] then q else Batched(PutIn(q, asks[0], toBack), asks[1..], toBack)
  }

  /** The position of the first request whose path has something to do with `at`. */
  ghost function FirstRelated(q: seq<Ask>, at: seq<string>): (k: nat)
    ensures k <= |q|
    ensures forall i :: 0 <= i < k ==> PrefixOrder(at, q[i].at) == Different
    ensures k < |q| ==> PrefixOrder(at, q[k].at) != Different
  {
    if q == [] || PrefixOrder(at, q[0].at) != Different then 0 else 1 + FirstRelated(q[1..], at)
  }

  /** The first request related to `at` is a recursive one above it. */
  ghost predicate Covered(q: seq<Ask>, at: seq<string>) {
    var k := FirstRelated(q, at);
    k < |q| && PrefixOrder(at, q[k].at) == Child && q[k].recursive
  }

  /** All of `asks` are for different children of the directory `at`. */
  ghost predicate Siblings(asks: seq<Ask>, at: seq<string>) {
    && (forall i :: 0 <= i < |asks| ==> at < asks[i].at && |asks[i].at| == |at| + 1)
    && (forall i, j :: 0 <= i < j < |asks| ==> asks[i].at != asks[j].at)
  }

  /** What adding the requests for children of `at` together comes to. */
  ghost function EnqueuedChildren(q: seq<Ask>, at: seq<string>, asks: seq<Ask>, toBack: bool): seq<Ask> {
    if Covered(q, at) then q
    else if FirstRelated(q, at) == |q| then Batched(q, asks, toBack)
    else EnqueuedAll(q, asks, toBack)
  }

  /** No two requests are for the same path. */
  ghost predicate Apart(q: seq<Ask>) {
    forall i, j :: 0 <= i < j < |q| ==> q[i].at != q[j].at
  }

  ghost predicate Within(q: seq<Ask>, root: seq<string>) {
    forall i :: 0 <= i < |q| ==> root <= q[i].at
  }

  // --------------------------------------------------------------- one request

  lemma {:induction false} ClearedIs(q: seq<Ask>, at: seq<string>)
    ensures forall a :: a in Cleared(q, at) ==> a in q
    ensures Apart(q) ==> Apart(Cleared(q, at)) && forall a :: a in Cleared(q, at) ==> a.at != at
  {
    if q != [] {
      ClearedIs(q[1..], at);
      assert forall i :: 0 <= i < |q[1..]| ==> q[1..][i] == q[i + 1];
      assert Apart(q) ==> forall a :: a in q[1..] ==> a.at != q[0].at;
    }
  }

  /** Nothing is cleared from a queue of unrelated requests. */
  lemma {:induction false} ClearedNone(q: seq<Ask>, at: seq<string>)
    requires forall i :: 0 <= i < |q| ==> PrefixOrder(at, q[i].at) == Different
    ensures Cleared(q, at) == q
  {
    if q != [] {
      ClearedNone(q[1..], at);
    }
  }

  lemma EnqueuedKeeps(q: seq<Ask>, a: Ask, toBack: bool, root: seq<string>)
    requires Apart(q) && Within(q, root) && root <= a.at
    ensures Apart(Enqueued(q, a, toBack)) && Within(Enqueued(q, a, toBack), root)
    ensures a in Enqueued(q, a, toBack)
    ensures forall b :: b in Enqueued(q, a, toBack) ==> b == a || b in q
  {
    ClearedIs(q, a.at);
    var c := Cleared(q, a.at);
    forall i | 0 <= i < |c|
      ensures root <= c[i].at && c[i].at != a.at
    {
      assert c[i] in c;
    }
  }

  /** A request that is not above or at the new one stays in the queue. */
  lemma {:induction false} ClearedLeaves(q: seq<Ask>, at: seq<string>, a: Ask)
    requires a in q && !(at <= a.at)
    ensures a in Cleared(q, at)
  {
    if q[0] != a {
      ClearedLeaves(q[1..], at, a);
    }
  }

  /** Exactly the requests at or below the new one are cleared, up to and including an equal one. */
  lemma {:induction false} ClearedExactly(q: seq<Ask>, at: seq<string>, i: nat)
    requires Apart(q) && i < |q|
    ensures q[i] in Cleared(q, at) <==> !(at <= q[i].at) || exists j :: 0 <= j < i && q[j].at == at
  {
    var rest := q[1..];
    assert forall j :: 0 <= j < |rest| ==> rest[j] == q[j + 1];
    assert q[0] !in rest;
    ClearedIs(rest, at);
    if i > 0 {
      ClearedExactly(rest, at, i - 1);
      assert (exists j :: 0 <= j < i && q[j].at == at) <==>
             q[0].at == at || exists j :: 0 <= j < i - 1 && rest[j].at == at;
    }
  }

  /** A request has directory `x` listed: its own one, and everything below it when it is recursive. */
  ghost predicate Reaches(a: Ask, x: seq<string>) {
    a.at == x || (a.recursive && a.at <= x)
  }

  ghost predicate Reached(q: seq<Ask>, x: seq<string>) {
    exists a :: a in q && Reaches(a, x)
  }

  /** No new request keeps a directory from being listed, unless it is one above it that is not recursive. */
  lemma EnqueuedReaches(q: seq<Ask>, a: Ask, toBack: bool, x: seq<string>)
    requires Reached(q, x) && (a.recursive || !(a.at < x))
    ensures Reached(Enqueued(q, a, toBack), x)
  {
    var r :| r in q && Reaches(r, x);
    if a.at <= r.at {
      PrefixChain(a.at, r.at, x);
      assert Reaches(a, x);
      assert a in Enqueued(q, a, toBack);
    } else {
      ClearedLeaves(q, a.at, r);
      assert r in Enqueued(q, a, toBack);
    }
  }

  /** Such a request makes the scanner forget a queued one below it. */
  lemma EventForgets(at: seq<string>, x: seq<string>, recursive: bool, toBack: bool)
    requires at < x
    ensures Reached([Ask(x, recursive)], x) && !Reached(Enqueued([Ask(x, recursive)], Ask(at, false), toBack), x)
  {
    var q := [Ask(x, recursive)];
    assert q[1..] == [];
    assert q[0] in q;
    assert PrefixOrder(at, x) == Parent;
    assert Cleared(q, at) == Cleared([], at) == [];
    assert Enqueued(q, Ask(at, false), toBack) == [Ask(at, false)];
  }

  lemma {:induction false} EnqueuedAllKeeps(q: seq<Ask>, asks: seq<Ask>, toBack: bool, root: seq<string>)
    requires Apart(q) && Within(q, root) && Within(asks, root)
    ensures Apart(EnqueuedAll(q, asks, toBack)) && Within(EnqueuedAll(q, asks, toBack), root)
    decreases |asks|
  {
    if asks != [] {
      EnqueuedKeeps(q, asks[0], toBack, root);
      EnqueuedAllKeeps(Enqueued(q, asks[0], toBack), asks[1..], toBack, root);
    }
  }

  // -------------------------------------------------------------------- batches

  /** Some of the requests of `b`, in the same order. */
  ghost predicate IsSubsequence(a: seq<Ask>, b: seq<Ask>) {
    if a == [] then true
    else if b == [] then false
    else (a[0] == b[0] && IsSubsequence(a[1..], b[1..])) || IsSubsequence(a, b[1..])
  }

  lemma {:induction false} ClearedOrder(q: seq<Ask>, at: seq<string>)
    ensures IsSubsequence(Cleared(q, at), q)
  {
    if q != [] {
      var rest := q[1..];
      ClearedOrder(rest, at);
      SubsequenceAll(rest);
      var c := Cleared(rest, at);
      assert ([q[0]] + c)[1..] == c;
      assert c == [] || IsSubsequence(c, q);
      assert rest == [] || IsSubsequence(rest, q);
    }
  }

  lemma {:induction false} SubsequenceAll(q: seq<Ask>)
    ensures IsSubsequence(q, q)
  {
    if q != [] {
      SubsequenceAll(q[1..]);
    }
  }

  /** A new request is the first or the last one, and the others keep their order. */
  lemma EnqueuedOrder(q: seq<Ask>, a: Ask, toBack: bool)
    ensures var e := Enqueued(q, a, toBack);
            && e != []
            && (if toBack then e[|e| - 1] == a && IsSubsequence(e[..|e| - 1], q)
                else e[0] == a && IsSubsequence(e[1..], q))
  {
    ClearedOrder(q, a.at);
    var c := Cleared(q, a.at);
    assert (c + [a])[..|c|] == c && ([a] + c)[1..] == c;
  }

  /** A batch goes to the back in order, or to the front in reverse. */
  lemma {:induction false} BatchedOrder(q: seq<Ask>, asks: seq<Ask>, toBack: bool)
    ensures var b := Batched(q, asks, toBack);
            && |b| == |q| + |asks|
            && (toBack ==> b == q + asks)
            && (!toBack ==> b[|asks|..] == q && forall i :: 0 <= i < |asks| ==> b[i] == asks[|asks| - 1 - i])
    decreases |asks|
  {
    if asks != [] {
      var next, rest := PutIn(q, asks[0], toBack), asks[1..];
      BatchedOrder(next, rest, toBack);
      var b := Batched(next, rest, toBack);
      assert asks == [asks[0]] + rest;
      if !toBack {
        assert b[|rest|..] == [asks[0]] + q;
        assert b[|asks|..] == b[|rest|..][1..] == q;
        assert b[|rest|] == b[|rest|..][0] == asks[0];
      } else {
        assert b == (q + [asks[0]]) + rest == q + asks;
      }
    }
  }

  /** Requests for everything below a directory are never lost, whichever way they are queued. */
  lemma {:induction false} AllReached(q: seq<Ask>, asks: seq<Ask>, toBack: bool, x: seq<string>)
    requires forall a :: a in asks ==> a.recursive
    requires Reached(q, x) || Reached(asks, x)
    ensures Reached(EnqueuedAll(q, asks, toBack), x)
    decreases |asks|
  {
    if asks != [] {
      var next, rest := Enqueued(q, asks[0], toBack), asks[1..];
      assert asks == [asks[0]] + rest;
      assert asks[0] in asks && forall a :: a in rest ==> a in asks;
      if Reached(q, x) {
        EnqueuedReaches(q, asks[0], toBack, x);
      } else if !Reached(rest, x) {
        var a :| a in asks && Reaches(a, x);
        assert a == asks[0] by {
          assert a in rest ==> Reached(rest, x);
        }
        EnqueuedOrder(q, asks[0], toBack);
        assert asks[0] in next;
      }
      AllReached(next, rest, toBack, x);
    }
  }

  lemma ChildrenReached(q: seq<Ask>, at: seq<string>, asks: seq<Ask>, toBack: bool, x: seq<string>)
    requires Siblings(asks, at) && forall a :: a in asks ==> a.recursive
    requires Reached(q, x) || Reached(asks, x)
    ensures Reached(EnqueuedChildren(q, at, asks, toBack), x)
  {
    ChildrenOneByOne(q, at, asks, toBack);
    if Covered(q, at) {
      if !Reached(q, x) {
        var k := FirstRelated(q, at);
        var a :| a in asks && Reaches(a, x);
        PrefixChain(q[k].at, at, a.at);
        PrefixChain(q[k].at, a.at, x);
        assert q[k] in q && Reaches(q[k], x);
      }
    } else {
      AllReached(q, asks, toBack, x);
    }
  }

  /** Two prefixes of the same path are comparable. */
  lemma PrefixesCompare<T>(a: seq<T>, b: seq<T>, c: seq<T>)
    ensures a <= c && b <= c ==> a <= b || b <= a
  {
    if a <= c && b <= c && |a| <= |b| {
      assert b[..|a|] == c[..|a|];
    } else if a <= c && b <= c {
      assert a[..|b|] == c[..|b|];
    }
  }

  lemma PrefixChain<T>(a: seq<T>, b: seq<T>, c: seq<T>)
    ensures a <= b && b <= c ==> a <= c
  {
    if a <= b && b <= c {
      assert c[..|a|] == b[..|a|];
    }
  }

  /** What has nothing to do with a directory has nothing to do with its children. */
  lemma UnrelatedChild(at: seq<string>, child: seq<string>, other: seq<string>)
    requires at < child && |child| == |at| + 1
    requires PrefixOrder(at, other) == Different
    ensures PrefixOrder(child, other) == Different
  {
    PrefixesCompare(at, other, child);
    PrefixChain(at, child, other);
  }

  lemma UnrelatedSiblings(at: seq<string>, a: seq<string>, b: seq<string>)
    requires at < a && at < b && |a| == |b| == |at| + 1 && a != b
    ensures PrefixOrder(a, b) == Different
  {
  }

  /** Batch insertion of siblings is insertion one by one, when the queue has nothing to do with their parent. */
  lemma {:induction false} BatchIsOneByOne(q: seq<Ask>, at: seq<string>, asks: seq<Ask>, toBack: bool)
    requires Siblings(asks, at)
    requires forall i :: 0 <= i < |q| ==>
               PrefixOrder(at, q[i].at) == Different ||
               (at < q[i].at && |q[i].at| == |at| + 1 && forall j :: 0 <= j < |asks| ==> asks[j].at != q[i].at)
    ensures EnqueuedAll(q, asks, toBack) == Batched(q, asks, toBack)
    decreases |asks|
  {
    if asks != [] {
      forall i | 0 <= i < |q|
        ensures PrefixOrder(asks[0].at, q[i].at) == Different
      {
        if PrefixOrder(at, q[i].at) == Different {
          UnrelatedChild(at, asks[0].at, q[i].at);
        } else {
          UnrelatedSiblings(at, asks[0].at, q[i].at);
        }
      }
      ClearedNone(q, asks[0].at);
      var q' := PutIn(q, asks[0], toBack);
      assert forall j :: 0 <= j < |asks[1..]| ==> asks[1..][j] == asks[j + 1];
      BatchIsOneByOne(q', at, asks[1..], toBack);
    }
  }

  /** Adding children together is adding them one by one, unless a recursive request above them makes it needless. */
  lemma ChildrenOneByOne(q: seq<Ask>, at: seq<string>, asks: seq<Ask>, toBack: bool)
    requires Siblings(asks, at)
    ensures EnqueuedChildren(q, at, asks, toBack) == if Covered(q, at) then q else EnqueuedAll(q, asks, toBack)
  {
    if FirstRelated(q, at) == |q| {
      BatchIsOneByOne(q, at, asks, toBack);
    }
  }

  lemma ChildrenKeep(q: seq<Ask>, at: seq<string>, asks: seq<Ask>, toBack: bool, root: seq<string>)
    requires Siblings(asks, at) && Apart(q) && Within(q, root) && root <= at
    ensures Apart(EnqueuedChildren(q, at, asks, toBack)) && Within(EnqueuedChildren(q, at, asks, toBack), root)
  {
    ChildrenOneByOne(q, at, asks, toBack);
    forall i | 0 <= i < |asks|
      ensures root <= asks[i].at
    {
      assert asks[i].at[..|root|] == at[..|root|] == root;
    }
    EnqueuedAllKeeps(q, asks, toBack, root);
  }

  /** Which requests a batch leaves in the queue. */
  lemma {:induction false} BatchedHas(q: seq<Ask>, asks: seq<Ask>, toBack: bool)
    ensures |Batched(q, asks, toBack)| == |q| + |asks|
    ensures multiset(Batched(q, asks, toBack)) == multiset(q) + multiset(asks)
    decreases |asks|
  {
    if asks != [] {
      BatchedHas(PutIn(q, asks[0], toBack), asks[1..], toBack);
      assert asks == [asks[0]] + asks[1..];
    }
  }
}
