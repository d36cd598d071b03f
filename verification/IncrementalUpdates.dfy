/** One request that is not recursive brings the database up to date again after a change in one directory. */
module IncrementalUpdates {
  import opened Crcs
  import opened Trees
  import opened Reconcile
  import opened Mirror
  import opened ScanQueues
  import opened Snapshots
  import opened ScanRuns
  import opened FullScans

  /** The child of `d` on the way to `q`. */
  function ChildTowards(d: Address, q: Address): Address
    requires d < q
  {
    q[..|d| + 1]
  }

  /**
   The database agrees with what is visible, except that children of `d` may have come, gone or
   changed size; a child that is there in both is still of the same kind.
   */
  ghost predicate AgreesAt(w: World, t: Tree, d: Address, q: Address) {
    var v := Visible(w, {});
    if !(d < q) then
      (q in t <==> q in v) && (q in t ==> t[q] == v[q])
    else
      var c := ChildTowards(d, q);
      if c !in t then q !in t
      else if c !in v then true
      else
        && (q in t <==> q in v)
        && (q in t ==> t[q].dir == v[q].dir && (t[q] == v[q] || (q == c && !t[q].dir)))
  }

  ghost predicate NearlyUpToDate(w: World, t: Tree, d: Address) {
    && d in t && Listable(w, {}, d)
    && forall q: Address {:trigger AgreesAt(w, t, d, q)} :: AgreesAt(w, t, d, q)
  }

  /** The directories in `d` that the database does not have yet. */
  ghost function NewDirs(w: World, t: Tree, d: Address): set<Address> {
    set q | q in w.fs && q != [] && Front(q) == d && w.fs[q].dir && q !in t
  }

  lemma AddedAreNew(w: World, t: Tree, d: Address)
    ensures Added(t, d, d, ListingOf(w.fs, d)) == NewDirs(w, t, d)
  {
    var l := ListingOf(w.fs, d);
    forall q | q in Added(t, d, d, l)
      ensures q in NewDirs(w, t, d)
    {
      var n :| n in l && l[n].dir && d + [n] !in t && q == d + [n];
      ListingHas(w.fs, d, n);
    }
    forall q | q in NewDirs(w, t, d)
      ensures q in Added(t, d, d, l)
    {
      var n := q[|d|];
      assert q == d + [n];
      ListingHas(w.fs, d, n);
    }
  }

  lemma VisibleHas(w: World, X: set<Address>, q: Address)
    ensures q in Visible(w, X) <==> q in w.fs && Open(w, X, q)
    ensures q in Visible(w, X) ==> Visible(w, X)[q] == if q == [] then Info(w.fs[q].dir, 0) else w.fs[q]
  {
  }

  /** Letting in new children of `d` changes nothing off the way through them. */
  lemma OpenElsewhere(w: World, X: set<Address>, d: Address, q: Address)
    requires forall x :: x in X ==> d < x && |x| == |d| + 1
    requires d < q ==> ChildTowards(d, q) !in X
    ensures Open(w, X, q) <==> Open(w, {}, q)
  {
    forall k | 0 < k < |q|
      ensures Skips(w, X, q[..k]) <==> Skips(w, {}, q[..k])
    {
      PrefixChain(d, q[..k], q);
    }
  }

  /** Listing `d` leaves only the new directories to be looked at. */
  lemma UpdateAt(w: World, t: Tree, d: Address, q: Address)
    requires IsFileSystem(w.fs) && NearlyUpToDate(w, t, d)
    ensures var X := NewDirs(w, t, d);
            var r, k := Reconciled(t, d, ListingOf(w.fs, d)), Known(w, X, X);
            && (q in r <==> q in k)
            && (q in r ==> r[q] == k[q])
  {
    hide *;
    var X := NewDirs(w, t, d);
    NearlyAt(w, t, d, q);
    ReconciledHas(t, d, ListingOf(w.fs, d), q);
    KnownHas(w, X, X, q);
    if d < q {
      ListingHas(w.fs, d, q[|d|]);
      ChildIs(d, q);
      if |q| == |d| + 1 {
        if q in w.fs {
          UpdateChild(w, t, d, q);
          RelistedChild(w, t, d, q);
        }
      } else {
        UpdateBelow(w, t, d, q);
      }
    } else {
      UpdateOutside(w, t, d, q);
    }
  }

  lemma NearlyAt(w: World, t: Tree, d: Address, q: Address)
    requires NearlyUpToDate(w, t, d)
    ensures AgreesAt(w, t, d, q) && Listable(w, {}, d)
  {
  }

  lemma ChildIs(d: Address, q: Address)
    requires d < q
    ensures ChildTowards(d, q) == d + [q[|d|]] && (|q| == |d| + 1 ==> ChildTowards(d, q) == q)
  {
  }

  lemma RelistedChild(w: World, t: Tree, d: Address, q: Address)
    requires d < q && |q| == |d| + 1 && q in w.fs
    requires q in t ==> t[q].dir == w.fs[q].dir && (t[q].dir ==> t[q] == w.fs[q])
    ensures Relisted(t, q, Item(w.fs[q].dir, w.fs[q].own)) == w.fs[q]
  {
  }

  /** Off the changed directory nothing happens. */
  lemma UpdateOutside(w: World, t: Tree, d: Address, q: Address)
    requires AgreesAt(w, t, d, q) && !(d < q)
    ensures var X := NewDirs(w, t, d);
            && (q in t <==> q in w.fs && Open(w, X, q))
            && (forall x :: x in X ==> !(x < q))
            && (q in t ==> t[q] == if q == [] then Info(w.fs[q].dir, 0) else w.fs[q])
  {
    var X := NewDirs(w, t, d);
    VisibleHas(w, {}, q);
    NewBelow(w, t, d);
    hide NewDirs, Visible;
    OpenElsewhere(w, X, d, q);
    forall x | x in X
      ensures !(x < q)
    {
      PrefixChain(d, x, q);
    }
  }

  lemma NewBelow(w: World, t: Tree, d: Address)
    ensures forall x :: x in NewDirs(w, t, d) ==> d < x && |x| == |d| + 1 && x in w.fs && w.fs[x].dir && x !in t
  {
    forall x | x in NewDirs(w, t, d)
      ensures d < x
    {
      assert x == Front(x) + [x[|x| - 1]];
    }
  }

  lemma NewIs(w: World, t: Tree, d: Address, q: Address)
    requires d < q && |q| == |d| + 1
    ensures q in NewDirs(w, t, d) <==> q in w.fs && w.fs[q].dir && q !in t
  {
    assert Front(q) == d;
  }

  lemma UpdateChild(w: World, t: Tree, d: Address, q: Address)
    requires NearlyUpToDate(w, t, d) && d < q && |q| == |d| + 1
    requires q in w.fs
    ensures var X := NewDirs(w, t, d);
            && Open(w, X, q) && Open(w, {}, q)
            && (forall x :: x in X ==> !(x < q))
            && (q in t ==> t[q].dir == w.fs[q].dir && (t[q].dir ==> t[q] == w.fs[q]))
  {
    assert q == d + [q[|d|]];
    ChildOpen(w, {}, d, q[|d|]);
    NewBelow(w, t, d);
    OpenMore(w, NewDirs(w, t, d), q);
    VisibleHas(w, {}, q);
    assert AgreesAt(w, t, d, q);
    hide NewDirs, Visible;
    assert ChildTowards(d, q) == q;
  }

  lemma OpenMore(w: World, X: set<Address>, q: Address)
    requires Open(w, {}, q)
    ensures Open(w, X, q)
  {
    forall k | 0 < k < |q|
      ensures !Skips(w, X, q[..k])
    {
      assert !Skips(w, {}, q[..k]);
    }
  }

  lemma UpdateBelow(w: World, t: Tree, d: Address, q: Address)
    requires IsFileSystem(w.fs) && NearlyUpToDate(w, t, d) && d < q && |q| > |d| + 1
    ensures var X, c := NewDirs(w, t, d), ChildTowards(d, q);
            && (c in w.fs && c in t ==> (q in t <==> q in w.fs && Open(w, X, q)) && forall x :: x in X ==> !(x < q))
            && (c in w.fs && c in t && q in t ==> t[q] == w.fs[q])
            && (c !in t ==> q !in t)
            && (q in w.fs && c !in t ==> c in X && c < q)
            && (q in w.fs ==> c in w.fs)
  {
    var X, c := NewDirs(w, t, d), ChildTowards(d, q);
    assert c == d + [q[|d|]] && AgreesAt(w, t, d, q) && AgreesAt(w, t, d, c);
    NewIs(w, t, d, c);
    NewBelow(w, t, d);
    ChildOpen(w, {}, d, q[|d|]);
    VisibleHas(w, {}, c);
    VisibleHas(w, {}, q);
    if q in w.fs {
      Ancestors(w.fs, q, |d| + 1);
    }
    hide NewDirs, Visible;
    assert ChildTowards(d, c) == c;
    if c in t {
      OpenElsewhere(w, X, d, q);
      forall x | x in X
        ensures !(x < q)
      {
        assert x < q ==> x == c;
      }
    }
  }

  /** After the one listing, the database lacks nothing but what is below the new directories. */
  lemma UpdateStores(w: World, t: Tree, d: Address)
    requires IsFileSystem(w.fs) && NearlyUpToDate(w, t, d)
    ensures var X := NewDirs(w, t, d);
            && Reconciled(t, d, ListingOf(w.fs, d)) == Known(w, X, X)
            && Frontier(w, X, X)
            && forall p, x :: p in X && x in X ==> !(p < x)
  {
    var X := NewDirs(w, t, d);
    NewFrontier(w, t, d);
    hide *;
    var r, k := Reconciled(t, d, ListingOf(w.fs, d)), Known(w, X, X);
    forall q | q in r
      ensures q in k && r[q] == k[q]
    {
      UpdateAt(w, t, d, q);
    }
    forall q | q in k
      ensures q in r
    {
      UpdateAt(w, t, d, q);
    }
  }

  lemma NewFrontier(w: World, t: Tree, d: Address)
    requires NearlyUpToDate(w, t, d)
    ensures var X := NewDirs(w, t, d);
            Frontier(w, X, X) && forall p, x :: p in X && x in X ==> !(p < x)
  {
    var X := NewDirs(w, t, d);
    NewBelow(w, t, d);
    forall x | x in X
      ensures Listable(w, X, x)
    {
      UpdateChild(w, t, d, x);
    }
  }

  // -------------------------------------------------------------- the whole run

  /** The request has not been stored yet. */
  ghost predicate Awaits(w: World, t: Tree, d: Address, s: State) {
    && s.tree == t && (s.status == Scanning || s.status == Paused)
    && match s.stage
       case Reading(ask) => s.queue == [] && ask == Ask(d, false)
       case Checking(ask, listing, found) => s.queue == [] && ask == Ask(d, false) && listing == ListingOf(w.fs, d)
       case Storing(ask, listing, found) => s.queue == [] && ask == Ask(d, false) && listing == ListingOf(w.fs, d)
       case _ => false
  }

  lemma AwaitsStep(w: World, t: Tree, d: Address, s: State, m: Move, u: State)
    requires Scannable(w) && NearlyUpToDate(w, t, d)
    requires Awaits(w, t, d, s) && Quiet(m) && Moves(w, s, m, u)
    ensures Awaits(w, t, d, u) || Tracks(w, NewDirs(w, t, d), u)
  {
    hide NearlyUpToDate, Scannable, Tracks;
    if m.Work? && s.stage.Storing? {
      AwaitedStored(w, t, d, s, u);
    }
  }

  lemma AwaitedStored(w: World, t: Tree, d: Address, s: State, u: State)
    requires Scannable(w) && NearlyUpToDate(w, t, d)
    requires Awaits(w, t, d, s) && s.stage.Storing? && Works(w, s, [], u)
    ensures Tracks(w, NewDirs(w, t, d), u)
  {
    hide *;
    var X := NewDirs(w, t, d);
    ScannableIs(w);
    ListableDir(w, t, d);
    AwaitedIs(w, t, d, s);
    StoringStores(w, s, u);
    StoresItself(w, t, s.stage.ask, s.stage.listing, s.stage.found, u.tree, u.stage.found);
    StoredNew(t, s.stage.ask, s.stage.listing, s.stage.found, u.tree, u.stage.found);
    UpdateStores(w, t, d);
    AddedAreNew(w, t, d);
    NewBelow(w, t, d);
    FrontsOf(X, d);
    EnumeratedSiblings(u.stage.found, X, d);
    LonePending(u, X);
    KnownShows(w, X, X);
    PausingTracks(w, X, u);
  }

  lemma AwaitedIs(w: World, t: Tree, d: Address, s: State)
    requires Awaits(w, t, d, s) && s.stage.Storing?
    ensures s.tree == t && s.queue == [] && s.stage.ask == Ask(d, false) && s.stage.listing == ListingOf(w.fs, d)
    ensures s.status != Stopping && s.status != Idle
  {
  }

  lemma StoredNew(tree: Tree, ask: Ask, listing: Listing, found: seq<Address>, tree': Tree, found': seq<Address>)
    requires StoresAt(tree, ask.at, ask, listing, found, tree', found') && !ask.recursive
    ensures tree' == Reconciled(tree, ask.at, listing) && Enumerates(found', Added(tree, ask.at, ask.at, listing))
  {
  }

  lemma FrontsOf(X: set<Address>, d: Address)
    requires forall x :: x in X ==> d < x && |x| == |d| + 1
    ensures forall x :: x in X ==> x != [] && Front(x) == d
  {
  }

  lemma LonePending(u: State, X: set<Address>)
    requires u.stage.Pausing? && u.queue == [] && forall q :: q in u.stage.found <==> q in X
    ensures Pending(u) == X && Apart(u.queue)
  {
  }

  lemma ListableDir(w: World, t: Tree, d: Address)
    requires NearlyUpToDate(w, t, d)
    ensures d in t && d in w.fs && w.fs[d].dir
  {
  }

  // ------------------------------------------------------------- from rest to rest

  /** The scanner has nothing to do, and its database shows `t`. */
  ghost predicate Rests(t: Tree, s: State) {
    s.tree == t && s.queue == [] && s.status == Idle && s.stage.Resting?
  }

  /** The worker pops events, one or more, all of them for directory `d`. */
  ghost predicate Reports(m: Move, d: Address) {
    m.Work? && m.events != [] && forall e :: e in m.events ==> e == d
  }

  /** Move `k` pops the events; from then on the world does not change, and there are no other events. */
  ghost predicate IsUpdate(w: World, d: Address, k: nat, r: Run) {
    && IsRun(r)
    && forall i :: 0 <= i < |r.moves| ==>
         && (if i == k then Reports(r.moves[i], d) else Quiet(r.moves[i]))
         && (i >= k ==> r.worlds[i] == w)
  }

  lemma RestStays(v: World, t: Tree, s: State, m: Move, u: State)
    requires Rests(t, s) && Quiet(m) && Moves(v, s, m, u)
    ensures Rests(t, u) && !Effective(s, m) && Visited(s, u) == []
  {
    assert EnqueuedAll(s.queue, Asks([], false), true) == s.queue;
  }

  /** Events for one directory come to one request. */
  lemma {:induction false} SameAsks(d: Address, events: seq<Address>)
    requires forall e :: e in events ==> e == d
    ensures EnqueuedAll([Ask(d, false)], Asks(events, false), true) == [Ask(d, false)]
    decreases |events|
  {
    var asks := Asks(events, false);
    if events != [] {
      assert events[0] in events && forall e :: e in events[1..] ==> e in events;
      assert events[0] == d && asks[1..] == Asks(events[1..], false);
      assert [Ask(d, false)][1..] == [];
      assert Enqueued([Ask(d, false)], asks[0], true) == [Ask(d, false)];
      SameAsks(d, events[1..]);
    }
  }

  /** Noticing the events and taking the request is one step. */
  lemma NoticeAwaits(w: World, v: World, t: Tree, d: Address, s: State, m: Move, u: State)
    requires Rests(t, s) && Reports(m, d) && Moves(v, s, m, u)
    ensures Awaits(w, t, d, u) && u.stage.Reading? && !Effective(s, m) && Visited(s, u) == []
  {
    var asks := Asks(m.events, false);
    assert m.events[0] in m.events && forall e :: e in m.events[1..] ==> e in m.events;
    assert m.events[0] == d && asks[0] == Ask(d, false) && asks[1..] == Asks(m.events[1..], false);
    assert Cleared([], d) == [] && Enqueued([], asks[0], true) == [Ask(d, false)];
    SameAsks(d, m.events[1..]);
    assert [Ask(d, false)][1..] == [];
  }

  /** The directory is still to be stored, or only what is below the new ones is missing. */
  ghost predicate Updating(w: World, t: Tree, d: Address, s: State) {
    Awaits(w, t, d, s) || Tracks(w, NewDirs(w, t, d), s)
  }

  /** The directories at or below the new ones that a scan enters. */
  ghost function NewListables(w: World, t: Tree, d: Address): set<Address> {
    Left(w, NewDirs(w, t, d), NewDirs(w, t, d))
  }

  /** How many steps of the worker are left, waiting apart. */
  ghost function UpdateRank(w: World, t: Tree, d: Address, s: State): nat {
    if Awaits(w, t, d, s) then
      5 * |NewListables(w, t, d)| +
      match s.stage
      case Reading(_) => 8
      case Checking(_, _, _) => 7
      case _ => 6
    else Rank(w, NewDirs(w, t, d), s)
  }

  /** What was listed so far, and what is left to list. */
  ghost predicate Accounted(w: World, t: Tree, d: Address, visits: seq<Address>, s: State) {
    if Awaits(w, t, d, s) then visits == []
    else multiset(visits) + multiset(LeftIn(w, NewDirs(w, t, d), s)) == multiset{d} + multiset(NewListables(w, t, d))
  }

  lemma AwaitsStage(w: World, t: Tree, d: Address, s: State, m: Move, u: State)
    requires Awaits(w, t, d, s) && Quiet(m) && Moves(w, s, m, u)
    ensures Updates(s, u) <==> m.Work? && s.stage.Storing?
    ensures Visited(s, u) == if Updates(s, u) then [d] else []
    ensures Updates(s, u) ==> u.stage.Pausing? && u.status != Idle
    ensures !Updates(s, u) && m.Work? ==>
              (s.stage.Reading? && u.stage.Checking?) || (s.stage.Checking? && u.stage.Storing?)
    ensures !m.Work? ==> u.stage == s.stage
  {
    hide Stores, Enumerates;
  }

  lemma StoredPending(w: World, t: Tree, d: Address, s: State, u: State)
    requires Scannable(w) && NearlyUpToDate(w, t, d)
    requires Awaits(w, t, d, s) && s.stage.Storing? && Works(w, s, [], u)
    ensures Tracks(w, NewDirs(w, t, d), u) && Pending(u) == NewDirs(w, t, d)
  {
    hide *;
    var X := NewDirs(w, t, d);
    AwaitedStored(w, t, d, s, u);
    ScannableIs(w);
    ListableDir(w, t, d);
    AwaitedIs(w, t, d, s);
    StoringStores(w, s, u);
    StoresItself(w, t, s.stage.ask, s.stage.listing, s.stage.found, u.tree, u.stage.found);
    StoredNew(t, s.stage.ask, s.stage.listing, s.stage.found, u.tree, u.stage.found);
    AddedAreNew(w, t, d);
    NewBelow(w, t, d);
    FrontsOf(X, d);
    EnumeratedSiblings(u.stage.found, X, d);
    LonePending(u, X);
  }

  lemma NotBoth(w: World, t: Tree, d: Address, s: State)
    requires s.stage.Pausing?
    ensures !Awaits(w, t, d, s)
  {
  }

  lemma AwaitsOn(w: World, t: Tree, d: Address, s: State, m: Move, u: State)
    requires Awaits(w, t, d, s) && Quiet(m) && Moves(w, s, m, u) && !Updates(s, u)
    ensures Awaits(w, t, d, u)
  {
    hide Stores, Enumerates;
  }

  lemma RankIs(w: World, t: Tree, d: Address, s: State)
    ensures Awaits(w, t, d, s) ==>
              UpdateRank(w, t, d, s) == 5 * |NewListables(w, t, d)| +
                (if s.stage.Reading? then 8 else if s.stage.Checking? then 7 else 6)
    ensures !Awaits(w, t, d, s) ==> UpdateRank(w, t, d, s) == Rank(w, NewDirs(w, t, d), s)
    ensures s.stage.Pausing? && s.status != Idle ==>
              Rank(w, NewDirs(w, t, d), s) == 5 * |LeftIn(w, NewDirs(w, t, d), s)| + 5
    ensures Pending(s) == NewDirs(w, t, d) ==> LeftIn(w, NewDirs(w, t, d), s) == NewListables(w, t, d)
  {
  }

  /** Every step keeps the update under way, gets it closer to its end, and lists what was left to list. */
  lemma UpdateStep(w: World, t: Tree, d: Address, s: State, m: Move, u: State, visits: seq<Address>)
    requires Scannable(w) && NearlyUpToDate(w, t, d) && Quiet(m) && Moves(w, s, m, u)
    requires Updating(w, t, d, s)
    ensures Updating(w, t, d, u)
    ensures Accounted(w, t, d, visits, s) ==> Accounted(w, t, d, visits + Visited(s, u), u)
    ensures UpdateRank(w, t, d, u) + (if Effective(s, m) then 1 else 0) <= UpdateRank(w, t, d, s)
  {
    hide NearlyUpToDate, Scannable, Tracks, Moves, Awaits, NewDirs, LeftIn, Left, NewListables;
    hide UpdateRank, Rank, Pending;
    var X := NewDirs(w, t, d);
    RankIs(w, t, d, s);
    RankIs(w, t, d, u);
    if Awaits(w, t, d, s) {
      AwaitsStage(w, t, d, s, m, u);
      if Updates(s, u) {
        WorkIs(w, s, m, u);
        StoredPending(w, t, d, s, u);
        NotBoth(w, t, d, u);
        assert visits == [] ==> visits + [d] == [d];
      } else {
        AwaitsOn(w, t, d, s, m, u);
        assert visits + [] == visits;
      }
    } else {
      LeftStep(w, X, s, m, u);
      RankFalls(w, X, s, m, u);
      NeverBack(w, t, d, X, u);
    }
  }

  lemma WorkIs(w: World, s: State, m: Move, u: State)
    requires Moves(w, s, m, u) && Quiet(m) && m.Work?
    ensures Works(w, s, [], u)
  {
    hide Works;
  }

  lemma NeverBack(w: World, t: Tree, d: Address, X: set<Address>, s: State)
    requires Tracks(w, X, s)
    ensures !Awaits(w, t, d, s)
  {
    hide Frontier, Shows;
  }

  lemma {:induction false} RunUpdates(w: World, t: Tree, d: Address, k: nat, r: Run)
    requires Scannable(w) && NearlyUpToDate(w, t, d) && IsUpdate(w, d, k, r) && Rests(t, r.states[0])
    ensures |r.moves| <= k ==> Rests(t, Last(r)) && Effort(r) == 0 && Visits(r) == []
    ensures |r.moves| > k ==>
              && Updating(w, t, d, Last(r)) && Accounted(w, t, d, Visits(r), Last(r))
              && Effort(r) + UpdateRank(w, t, d, Last(r)) <= 5 * |NewListables(w, t, d)| + 8
    decreases |r.moves|
  {
    hide *;
    UpdateRuns(w, d, k, r);
    RunLength(r);
    if r.moves == [] {
      NoEffort(r);
    } else {
      var i := |r.moves| - 1;
      var s, m, u := r.states[i], r.moves[i], r.states[i + 1];
      LastUpdateStep(w, d, k, r);
      RunUpdates(w, t, d, k, Shorter(r));
      if i < k {
        RestStays(r.worlds[i], t, s, m, u);
      } else if i == k {
        NoticeAwaits(w, w, t, d, s, m, u);
        FreshUpdate(w, t, d, u);
      } else {
        UpdateStep(w, t, d, s, m, u, Visits(Shorter(r)));
      }
      assert [] + [] == Visits(Shorter(r)) || i > k;
    }
  }

  lemma NoEffort(r: Run)
    requires IsRun(r) && r.moves == []
    ensures Effort(r) == 0 && Visits(r) == []
  {
  }

  /** The last step of a run with an update in it. */
  lemma LastUpdateStep(w: World, d: Address, k: nat, r: Run)
    requires IsUpdate(w, d, k, r) && r.moves != []
    ensures var i := |r.moves| - 1;
            && IsRun(r) && IsRun(Shorter(r)) && IsUpdate(w, d, k, Shorter(r)) && Shorter(r).states[0] == r.states[0]
            && |r.states| == |r.worlds| + 1 == i + 2 && |Shorter(r).moves| == i
            && Last(Shorter(r)) == r.states[i] && Last(r) == r.states[i + 1]
            && Moves(r.worlds[i], r.states[i], r.moves[i], r.states[i + 1])
            && (if i == k then Reports(r.moves[i], d) else Quiet(r.moves[i])) && (i >= k ==> r.worlds[i] == w)
            && Effort(r) == Effort(Shorter(r)) + (if Effective(r.states[i], r.moves[i]) then 1 else 0)
            && Visits(r) == Visits(Shorter(r)) + Visited(r.states[i], r.states[i + 1])
  {
    hide *;
    UpdateRuns(w, d, k, r);
    RunStep(r);
    UpdateShorter(w, d, k, r);
  }

  lemma UpdateShorter(w: World, d: Address, k: nat, r: Run)
    requires IsUpdate(w, d, k, r) && r.moves != [] && IsRun(r) && IsRun(Shorter(r))
    ensures var i := |r.moves| - 1;
            && IsUpdate(w, d, k, Shorter(r)) && |r.worlds| == |r.moves|
            && (if i == k then Reports(r.moves[i], d) else Quiet(r.moves[i])) && (i >= k ==> r.worlds[i] == w)
  {
    hide Moves, Effort, Visits, Reports, Quiet;
  }

  lemma FreshUpdate(w: World, t: Tree, d: Address, u: State)
    requires Awaits(w, t, d, u) && u.stage.Reading?
    ensures Updating(w, t, d, u) && Accounted(w, t, d, [], u)
    ensures UpdateRank(w, t, d, u) == 5 * |NewListables(w, t, d)| + 8
  {
    hide Tracks, NewListables;
  }

  lemma UpdateOver(w: World, t: Tree, d: Address, s: State, visits: seq<Address>)
    requires Scannable(w) && Updating(w, t, d, s) && Accounted(w, t, d, visits, s) && s.status == Idle
    ensures s.tree == Visible(w, NewDirs(w, t, d)) && multiset(visits) == multiset{d} + multiset(NewListables(w, t, d))
  {
    hide Tracks, NewListables, NewDirs, Visible, LeftIn;
    IdleDone(w, NewDirs(w, t, d), s);
    assert multiset(visits) + multiset{} == multiset(visits);
  }

  /**
   An incremental update is exact up to skipped directories that are new: from rest, events for the
   directory that has changed make the database show everything visible, where the new directories
   themselves are entered even if they are among those to be skipped; the directory and what a scan
   enters at and below the new ones were listed exactly once.
   */
  lemma UpdateExact(w: World, t: Tree, d: Address, k: nat, r: Run)
    requires Scannable(w) && NearlyUpToDate(w, t, d)
    requires IsUpdate(w, d, k, r) && Rests(t, r.states[0]) && k < |r.moves| && Last(r).status == Idle
    ensures Last(r).tree == Visible(w, NewDirs(w, t, d))
    ensures multiset(Visits(r)) == multiset{d} + multiset(NewListables(w, t, d))
  {
    hide *;
    UpdateRuns(w, d, k, r);
    RunUpdates(w, t, d, k, r);
    UpdateOver(w, t, d, Last(r), Visits(r));
  }

  lemma UpdateRuns(w: World, d: Address, k: nat, r: Run)
    requires IsUpdate(w, d, k, r)
    ensures IsRun(r) && r.states != []
  {
  }

  /** The database is right again exactly when no new directory that is to be skipped has anything in it. */
  lemma UpdateRight(w: World, t: Tree, d: Address, k: nat, r: Run)
    requires Scannable(w) && NearlyUpToDate(w, t, d)
    requires IsUpdate(w, d, k, r) && Rests(t, r.states[0]) && k < |r.moves| && Last(r).status == Idle
    ensures Last(r).tree == Visible(w, {}) <==>
            forall x, n :: x in NewDirs(w, t, d) && w.skip(x) ==> x + [n] !in w.fs
  {
    UpdateExact(w, t, d, k, r);
    VisibleSame(w, t, d);
  }

  /** An update takes five steps for each directory at or below the new ones and eight more, and is then over. */
  lemma UpdateEnds(w: World, t: Tree, d: Address, k: nat, r: Run)
    requires Scannable(w) && NearlyUpToDate(w, t, d)
    requires IsUpdate(w, d, k, r) && Rests(t, r.states[0]) && k < |r.moves|
    ensures Effort(r) <= 5 * |NewListables(w, t, d)| + 8
    ensures Effort(r) == 5 * |NewListables(w, t, d)| + 8 ==> Last(r).status == Idle
  {
    hide *;
    UpdateRuns(w, d, k, r);
    RunUpdates(w, t, d, k, r);
    NoneLeftToDo(w, t, d, Last(r));
  }

  lemma NoneLeftToDo(w: World, t: Tree, d: Address, s: State)
    ensures UpdateRank(w, t, d, s) == 0 ==> s.status == Idle
  {
    hide LeftIn, NewListables, Awaits;
  }

  /** What a scan ends in is a scanner at rest. */
  lemma ScanRests(w: World, X: set<Address>, s: State)
    requires Scannable(w) && Tracks(w, X, s) && s.status == Idle
    ensures Rests(Visible(w, X), s)
  {
    hide Frontier, Shows;
    IdleDone(w, X, s);
  }

  // ------------------------------------------------------- scans and updates alike

  /** What the worker is about: a full scan, or an update of directory `d` of the tree `t`. */
  datatype Task = Scan | Update(t: Tree, d: Address)

  /** The directories to be entered even if they are among those to be skipped. */
  ghost function LetIn(w: World, task: Task): set<Address> {
    match task
    case Scan => {}
    case Update(t, d) => NewDirs(w, t, d)
  }

  ghost predicate UnderWay(w: World, task: Task, s: State) {
    match task
    case Scan => Tracks(w, {}, s)
    case Update(t, d) => NearlyUpToDate(w, t, d) && Updating(w, t, d, s)
  }

  ghost function TaskRank(w: World, task: Task, s: State): nat {
    match task
    case Scan => Rank(w, {}, s)
    case Update(t, d) => UpdateRank(w, t, d, s)
  }

  lemma TaskStep(w: World, task: Task, s: State, m: Move, u: State)
    requires Scannable(w) && UnderWay(w, task, s) && Quiet(m) && Moves(w, s, m, u)
    ensures UnderWay(w, task, u)
    ensures TaskRank(w, task, u) + (if Effective(s, m) then 1 else 0) <= TaskRank(w, task, s)
  {
    hide Tracks, Updating, NearlyUpToDate, Rank, UpdateRank, Moves, Scannable;
    match task {
      case Scan =>
        StepTracks(w, {}, s, m, u);
        RankFalls(w, {}, s, m, u);
      case Update(t, d) =>
        UpdateStep(w, t, d, s, m, u, []);
    }
  }

  lemma TaskOver(w: World, task: Task, s: State)
    requires Scannable(w) && UnderWay(w, task, s) && s.status == Idle
    ensures Rests(Visible(w, LetIn(w, task)), s)
  {
    hide Tracks, Visible, NearlyUpToDate;
    match task {
      case Scan => ScanRests(w, {}, s);
      case Update(t, d) => ScanRests(w, NewDirs(w, t, d), s);
    }
  }

  /** The step in which the worker pops the events starts the update. */
  lemma UpdateStarts(w: World, t: Tree, d: Address, s: State, events: seq<Address>, u: State)
    requires NearlyUpToDate(w, t, d) && Rests(t, s) && Reports(Work(events), d) && Works(w, s, events, u)
    ensures UnderWay(w, Update(t, d), u) && u.status == Scanning
  {
    hide NearlyUpToDate;
    NoticeAwaits(w, w, t, d, s, Work(events), u);
    FreshUpdate(w, t, d, u);
    NoticeScans(w, s, events, u);
  }

  lemma NoticeScans(w: World, s: State, events: seq<Address>, u: State)
    requires s.stage.Resting? && events != [] && Works(w, s, events, u)
    ensures u.status == Scanning
  {
    hide EnqueuedAll;
  }

  /** Without a pause, every step of the worker counts. */
  lemma {:induction false} TaskGoesOn(w: World, task: Task, r: Run)
    requires Scannable(w) && IsQuiet(w, r) && UnderWay(w, task, r.states[0])
    requires r.states[0].status == Scanning || r.states[0].status == Idle
    requires forall i :: 0 <= i < |r.moves| ==> r.moves[i] != Pause
    ensures UnderWay(w, task, Last(r)) && (Last(r).status == Scanning || Last(r).status == Idle)
    ensures Last(r).status == Idle || Worked(r.moves) + TaskRank(w, task, Last(r)) <= TaskRank(w, task, r.states[0])
    decreases |r.moves|
  {
    hide *;
    QuietRuns(w, r);
    RunLength(r);
    if r.moves != [] {
      var n := |r.moves| - 1;
      var s, m, u := r.states[n], r.moves[n], r.states[n + 1];
      QuietStep(w, r);
      TaskGoesOn(w, task, Shorter(r));
      UnpausedStep(w, s, m, u);
      TaskStep(w, task, s, m, u);
    }
  }

  lemma UnpausedStep(w: World, s: State, m: Move, u: State)
    requires (s.status == Scanning || s.status == Idle) && Quiet(m) && m != Pause && Moves(w, s, m, u)
    ensures u.status == Scanning || u.status == Idle
    ensures s.status == Idle ==> u.status == Idle
    ensures m.Work? && s.status != Idle ==> Effective(s, m)
  {
    hide EnqueuedAll, EnqueuedChildren, Stores, Enumerates;
  }

  /** Along a quiet run no more and more is left to do. */
  lemma {:induction false} TaskNeverGrows(w: World, task: Task, r: Run)
    requires Scannable(w) && IsQuiet(w, r) && UnderWay(w, task, r.states[0])
    ensures UnderWay(w, task, Last(r)) && TaskRank(w, task, Last(r)) <= TaskRank(w, task, r.states[0])
    decreases |r.moves|
  {
    if r.moves != [] {
      var n := |r.moves| - 1;
      ShorterRuns(r);
      assert Last(Shorter(r)) == r.states[n] && Last(r) == r.states[n + 1] && Quiet(r.moves[n]) && r.worlds[n] == w;
      TaskNeverGrows(w, task, Shorter(r));
      hide UnderWay, TaskRank, Moves, Scannable;
      TaskStep(w, task, r.states[n], r.moves[n], r.states[n + 1]);
    }
  }

  /** The part of a run up to move `k`, and the part after it. */
  ghost function Before(r: Run, k: nat): Run
    requires IsRun(r) && k < |r.moves|
  {
    Run(r.states[..k + 1], r.moves[..k], r.worlds[..k])
  }

  ghost function After(r: Run, k: nat): Run
    requires IsRun(r) && k < |r.moves|
  {
    Run(r.states[k + 1..], r.moves[k + 1..], r.worlds[k + 1..])
  }

  lemma RunParts(w: World, r: Run, k: nat)
    requires IsQuiet(w, r) && k < |r.moves|
    ensures IsQuiet(w, Before(r, k)) && IsQuiet(w, After(r, k))
    ensures Before(r, k).states[0] == r.states[0] && Last(Before(r, k)) == r.states[k]
    ensures After(r, k).states[0] == r.states[k + 1] && Last(After(r, k)) == Last(r)
    ensures Moves(w, r.states[k], r.moves[k], r.states[k + 1])
  {
  }

  lemma Resumed(w: World, task: Task, s: State, u: State)
    requires UnderWay(w, task, s) && Moves(w, s, Resume, u)
    ensures u.status == Scanning || u.status == Idle
  {
    hide Shows, Frontier, NearlyUpToDate;
  }

  /**
   However often a scan or an update was paused: once it is resumed for the last time it comes to its
   end, after as many steps of the worker, waiting or not, as were left at first.
   */
  lemma ResumedEnds(w: World, task: Task, r: Run, k: nat)
    requires Scannable(w) && IsQuiet(w, r) && UnderWay(w, task, r.states[0])
    requires k < |r.moves| && r.moves[k] == Resume && forall i :: k < i < |r.moves| ==> r.moves[i] != Pause
    requires Worked(r.moves[k + 1..]) >= TaskRank(w, task, r.states[0])
    ensures Rests(Visible(w, LetIn(w, task)), Last(r))
  {
    hide *;
    QuietRuns(w, r);
    RunParts(w, r, k);
    TaskNeverGrows(w, task, Before(r, k));
    Resumed(w, task, r.states[k], r.states[k + 1]);
    WorkTracks(w, task, r.states[k], r.states[k + 1]);
    NoPauseAfter(r, k);
    TaskGoesOn(w, task, After(r, k));
    RankZero(w, task, Last(r));
    TaskOver(w, task, Last(r));
  }

  lemma NoPauseAfter(r: Run, k: nat)
    requires IsRun(r) && k < |r.moves| && forall i :: k < i < |r.moves| ==> r.moves[i] != Pause
    ensures After(r, k).moves == r.moves[k + 1..]
    ensures forall i :: 0 <= i < |After(r, k).moves| ==> After(r, k).moves[i] != Pause
  {
  }

  lemma WorkTracks(w: World, task: Task, s: State, u: State)
    requires Scannable(w) && UnderWay(w, task, s) && Moves(w, s, Resume, u)
    ensures UnderWay(w, task, u) && TaskRank(w, task, u) <= TaskRank(w, task, s)
  {
    hide UnderWay, TaskRank, Moves, Scannable;
    TaskStep(w, task, s, Resume, u);
  }

  lemma RankZero(w: World, task: Task, s: State)
    ensures TaskRank(w, task, s) == 0 ==> s.status == Idle
  {
    hide LeftIn, NewListables, Awaits;
  }

  /** A full scan that is resumed for good comes to its end. */
  lemma FullScanResumes(w: World, r: Run, k: nat)
    requires Scannable(w) && IsQuiet(w, r) && r.states[0] == Start()
    requires k < |r.moves| && r.moves[k] == Resume && forall i :: k < i < |r.moves| ==> r.moves[i] != Pause
    requires Worked(r.moves[k + 1..]) >= 5 * |Listables(w, {})| + 4
    ensures Last(r).status == Idle && Last(r).tree == Visible(w, {})
  {
    StartTracks(w);
    RankEnds(w, {}, Last(r));
    hide Tracks, Listables, Visible, Worked, LeftIn;
    assert UnderWay(w, Scan, r.states[0]);
    ResumedEnds(w, Scan, r, k);
  }

  /** What is found for the request at hand is a directory, and so it stays. */
  lemma TaskFinds(w: World, task: Task, s: State)
    requires Scannable(w) && UnderWay(w, task, s) && s.stage.Storing? && (forall q :: q in w.fs ==> w.fs[q].own >= 0)
    ensures forall n :: n in s.stage.listing ==> s.stage.listing[n].size >= 0
    ensures forall q :: q in s.tree && Finds(w, s.stage.ask.at, q) ==> s.tree[q].dir
  {
    hide Tracks, Finds, NewDirs, NearlyUpToDate;
    if task.Update? && Awaits(w, task.t, task.d, s) {
      AwaitedFinds(w, task.t, task.d, s);
    } else {
      StoringFinds(w, LetIn(w, task), s);
    }
  }

  lemma AwaitedFinds(w: World, t: Tree, d: Address, s: State)
    requires Scannable(w) && NearlyUpToDate(w, t, d) && Awaits(w, t, d, s) && s.stage.Storing?
    requires forall q :: q in w.fs ==> w.fs[q].own >= 0
    ensures forall n :: n in s.stage.listing ==> s.stage.listing[n].size >= 0
    ensures forall q :: q in s.tree && Finds(w, s.stage.ask.at, q) ==> s.tree[q].dir
  {
    hide Finds, NoneCancels;
    ListableDir(w, t, d);
    assert AgreesAt(w, t, d, d);
    VisibleHas(w, {}, d);
    forall q | q in s.tree && Finds(w, d, q)
      ensures s.tree[q].dir
    {
      FindsItself(w, d, q);
    }
  }

  lemma TaskReads(w: World, task: Task, s: State)
    requires UnderWay(w, task, s) && s.stage.Reading?
    ensures s.stage.ask.at in w.fs && w.fs[s.stage.ask.at].dir
  {
    hide Tracks, NewDirs, NearlyUpToDate;
    if task.Update? && Awaits(w, task.t, task.d, s) {
      ListableDir(w, task.t, task.d);
    } else {
      ReadingThere(w, LetIn(w, task), s);
    }
  }

  lemma VisibleSame(w: World, t: Tree, d: Address)
    requires IsFileSystem(w.fs) && NearlyUpToDate(w, t, d)
    ensures Visible(w, NewDirs(w, t, d)) == Visible(w, {}) <==>
            forall x, n :: x in NewDirs(w, t, d) && w.skip(x) ==> x + [n] !in w.fs
  {
    var X := NewDirs(w, t, d);
    NewBelow(w, t, d);
    if forall x, n :: x in X && w.skip(x) ==> x + [n] !in w.fs {
      forall q | q in w.fs
        ensures Open(w, X, q) <==> Open(w, {}, q)
      {
        EmptySkipped(w, t, d, q);
      }
    } else {
      var x, n :| x in X && w.skip(x) && x + [n] in w.fs;
      SkippedContent(w, t, d, x, n);
      VisibleHas(w, X, x + [n]);
      VisibleHas(w, {}, x + [n]);
    }
  }

  lemma EmptySkipped(w: World, t: Tree, d: Address, q: Address)
    requires IsFileSystem(w.fs) && q in w.fs
    requires forall x, n :: x in NewDirs(w, t, d) && w.skip(x) ==> x + [n] !in w.fs
    ensures Open(w, NewDirs(w, t, d), q) <==> Open(w, {}, q)
  {
    var X := NewDirs(w, t, d);
    if Open(w, {}, q) {
      OpenMore(w, X, q);
    }
    if Open(w, X, q) {
      forall k | 0 < k < |q|
        ensures !Skips(w, {}, q[..k])
      {
        assert !Skips(w, X, q[..k]);
        Ancestors(w.fs, q, k + 1);
        assert q[..k + 1] == q[..k] + [q[k]];
      }
    }
  }

  lemma SkippedContent(w: World, t: Tree, d: Address, x: Address, n: string)
    requires NearlyUpToDate(w, t, d) && x in NewDirs(w, t, d) && w.skip(x)
    ensures Open(w, NewDirs(w, t, d), x + [n]) && !Open(w, {}, x + [n])
  {
    NewBelow(w, t, d);
    UpdateChild(w, t, d, x);
    assert (x + [n])[..|x|] == x;
    assert Skips(w, {}, (x + [n])[..|x|]);
    ChildOpen(w, NewDirs(w, t, d), x, n);
  }

  /** A directory that is to be skipped, with a file in it. */
  ghost function SkippedWorld(hash: string -> Crc, rootName: string, x: string, n: string, size: nat): World {
    World(map[[] := Info(true, 0), [x] := Info(true, 0), [x, n] := Info(false, size)], q => q == [x], hash, rootName)
  }

  lemma SkippedHas(hash: string -> Crc, rootName: string, x: string, n: string, size: nat, q: Address)
    ensures var w := SkippedWorld(hash, rootName, x, n, size);
            && (q in w.fs <==> q == [] || q == [x] || q == [x, n])
            && (w.skip(q) <==> q == [x]) && w.hash == hash && w.rootName == rootName
            && (q == [] || q == [x] ==> w.fs[q] == Info(true, 0)) && (q == [x, n] ==> w.fs[q] == Info(false, size))
    ensures Front([x]) == [] && Front([x, n]) == [x] && [x, n][..1] == [x] && [x, n] == [x] + [n]
  {
  }

  lemma SkippedScannable(hash: string -> Crc, rootName: string, x: string, n: string, size: nat)
    ensures Scannable(SkippedWorld(hash, rootName, x, n, size))
  {
    hide SkippedWorld;
    var w := SkippedWorld(hash, rootName, x, n, size);
    forall q
      ensures q in w.fs <==> q == [] || q == [x] || q == [x, n]
      ensures q in w.fs && q != [] ==> Front(q) in w.fs && w.fs[Front(q)].dir
      ensures q in w.fs && w.fs[q].dir ==> |q| <= 1
    {
      SkippedHas(hash, rootName, x, n, size, q);
      SkippedHas(hash, rootName, x, n, size, []);
      SkippedHas(hash, rootName, x, n, size, [x]);
    }
    SkippedHas(hash, rootName, x, n, size, []);
  }

  lemma SkippedVisible(hash: string -> Crc, rootName: string, x: string, n: string, size: nat, q: Address)
    ensures var v := Visible(SkippedWorld(hash, rootName, x, n, size), {});
            (q in v <==> q == [] || q == [x]) && (q in v ==> v[q] == Info(true, 0))
  {
    hide SkippedWorld, Visible;
    var w := SkippedWorld(hash, rootName, x, n, size);
    SkippedHas(hash, rootName, x, n, size, q);
    SkippedHas(hash, rootName, x, n, size, [x]);
    VisibleHas(w, {}, q);
    if q == [x, n] {
      assert Skips(w, {}, q[..1]);
    }
  }

  lemma SkippedNearly(hash: string -> Crc, rootName: string, x: string, n: string, size: nat)
    ensures NearlyUpToDate(SkippedWorld(hash, rootName, x, n, size), map[[] := Info(true, 0)], [])
  {
    hide SkippedWorld, Visible;
    var w: World, t: Tree := SkippedWorld(hash, rootName, x, n, size), map[[] := Info(true, 0)];
    forall q: Address
      ensures AgreesAt(w, t, [], q)
    {
      SkippedVisible(hash, rootName, x, n, size, q);
      if [] < q {
        SkippedVisible(hash, rootName, x, n, size, ChildTowards([], q));
      }
    }
    SkippedHas(hash, rootName, x, n, size, []);
  }

  /** Where such a directory is new, the update does go too far. */
  lemma UpdateEntersSkipped(hash: string -> Crc, rootName: string, x: string, n: string, size: nat)
    ensures var w, t := SkippedWorld(hash, rootName, x, n, size), map[[] := Info(true, 0)];
            && Scannable(w) && NearlyUpToDate(w, t, [])
            && Visible(w, NewDirs(w, t, [])) != Visible(w, {})
  {
    hide SkippedWorld, Visible, NearlyUpToDate, Scannable;
    var w: World, t: Tree := SkippedWorld(hash, rootName, x, n, size), map[[] := Info(true, 0)];
    SkippedScannable(hash, rootName, x, n, size);
    SkippedNearly(hash, rootName, x, n, size);
    SkippedHas(hash, rootName, x, n, size, [x]);
    SkippedHas(hash, rootName, x, n, size, [x] + [n]);
    ScannableIs(w);
    assert [x] in NewDirs(w, t, []);
    VisibleSame(w, t, []);
  }
}
