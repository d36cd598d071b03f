/** What a complete run of the scanner achieves. */
module FullScans {
  import opened Trees
  import opened Reconcile
  import opened Mirror
  import opened FilePaths
  import opened Lookup
  import opened ScanQueues
  import opened Snapshots
  import opened ScanRuns

  /** No proper prefix of the path of a directory has the hash of the root. */
  ghost predicate NoneCancels(w: World) {
    forall d, k :: d in w.fs && w.fs[d].dir && 0 < k < |d| ==>
      HashOf(w.hash, w.hash(w.rootName), d[..k]) != w.hash(w.rootName)
  }

  /** A finite tree of files in which the database finds every directory by its path. */
  ghost predicate Scannable(w: World) {
    IsFileSystem(w.fs) && NoneCancels(w)
  }

  /** The database finds a directory exactly under its own path. */
  lemma FindsItself(w: World, d: Address, target: Address)
    requires NoneCancels(w) && d in w.fs && w.fs[d].dir
    ensures Finds(w, d, target) <==> target == d
  {
    if d != [] && target != [] && IsSuffix(target, d) {
      var k := |d| - |target|;
      assert d == d[..k] + target;
      SuffixCancels(w.hash, w.hash(w.rootName), d[..k], target);
      assert k == 0 ==> target == d;
    }
    assert d[0..] == d;
  }

  ghost function Queued(q: seq<Ask>): set<Address> {
    set a | a in q :: a.at
  }

  ghost function InHand(stage: Stage): set<Address> {
    match stage
    case Reading(ask) => {ask.at}
    case Checking(ask, _, _) => {ask.at}
    case Storing(ask, _, _) => {ask.at}
    case Pausing(_, found) => set q | q in found
    case Joining(_, found) => set q | q in found
    case _ => {}
  }

  /** The directories that are still to be listed, with all that is below them. */
  ghost function Pending(s: State): set<Address> {
    Queued(s.queue) + InHand(s.stage)
  }

  ghost predicate HandOk(w: World, X: set<Address>, s: State) {
    match s.stage
    case Resting(_) => s.status == Idle ==> s.queue == []
    case Reading(ask) => ask.recursive && ask.at !in Queued(s.queue)
    case Checking(ask, listing, found) =>
      && ask.recursive && ask.at !in Queued(s.queue)
      && listing == ListingOf(w.fs, ask.at) && Enumerates(found, Subdirs(w, X, ask.at))
    case Storing(ask, listing, found) =>
      && ask.recursive && ask.at !in Queued(s.queue)
      && listing == ListingOf(w.fs, ask.at) && Enumerates(found, Subdirs(w, X, ask.at))
    case Pausing(ask, found) =>
      && Siblings(Asks(found, true), ask.at)
      && forall a :: a in s.queue ==> PrefixOrder(ask.at, a.at) == Different
    case Joining(ask, found) =>
      && Siblings(Asks(found, true), ask.at)
      && forall a :: a in s.queue ==> PrefixOrder(ask.at, a.at) == Different
    case Breaking => false
    case Ending => s.queue == []
  }

  /** The database shows everything but what is below the pending directories. */
  ghost predicate Tracks(w: World, X: set<Address>, s: State) {
    && Frontier(w, X, Pending(s)) && Shows(w, X, Pending(s), s.tree)
    && (forall p, x :: p in Pending(s) && x in X ==> !(p < x))
    && Apart(s.queue) && (forall a :: a in s.queue ==> a.recursive)
    && HandOk(w, X, s)
    && s.status != Stopping && (s.status == Idle ==> s.stage.Resting?)
  }

  ghost function LeftIn(w: World, X: set<Address>, s: State): set<Address> {
    Left(w, X, Pending(s))
  }

  /** The directory that a step lists and stores. */
  ghost function Visited(s: State, t: State): seq<Address> {
    if s.stage.Storing? && t.stage.Pausing? then [s.stage.ask.at] else []
  }

  /** Directories let in do not matter for what is found in a pending directory. */
  lemma SameSubdirs(w: World, X: set<Address>, d: Address)
    requires forall x :: x in X ==> !(d < x)
    ensures Subdirs(w, {}, d) == Subdirs(w, X, d)
  {
    forall q | q in w.fs && q != [] && Front(q) == d
      ensures q !in X
    {
      assert d < q;
    }
  }

  // ------------------------------------------------------------------ the steps

  /** The effect of taking the next request, or of ending when there is none. */
  lemma NextTracks(w: World, X: set<Address>, s: State)
    requires Frontier(w, X, Queued(s.queue)) && Shows(w, X, Queued(s.queue), s.tree)
    requires forall p, x :: p in Queued(s.queue) && x in X ==> !(p < x)
    requires Apart(s.queue) && (forall a :: a in s.queue ==> a.recursive)
    requires s.status == Scanning || s.status == Paused
    ensures Tracks(w, X, Next(s)) && Pending(Next(s)) == Queued(s.queue)
    ensures Next(s).status == s.status && Next(s).tree == s.tree
    ensures s.queue == [] ==> Next(s).stage == Ending
    ensures s.queue != [] ==> Next(s).stage.Reading?
  {
    hide Frontier, Shows, Queued, Apart, Listable, ListingOf, Enumerates, Subdirs, Siblings, PrefixOrder;
    if s.queue != [] {
      TailApart(s.queue);
    }
    assert Pending(Next(s)) == Queued(s.queue);
  }

  lemma TailApart(q: seq<Ask>)
    requires Apart(q) && q != [] && forall a :: a in q ==> a.recursive
    ensures q[0].recursive && Apart(q[1..]) && forall a :: a in q[1..] ==> a.recursive
    ensures Queued(q) == Queued(q[1..]) + {q[0].at} && q[0].at !in Queued(q[1..])
  {
    var a, rest := q[0], q[1..];
    assert q == [a] + rest;
    forall b | b in rest
      ensures b.at != a.at && b.recursive
    {
      var i :| 0 <= i < |rest| && rest[i] == b;
      assert q[i + 1] == b;
    }
    assert forall i :: 0 <= i < |rest| ==> rest[i] == q[i + 1];
  }

  lemma ReadingTracks(w: World, X: set<Address>, s: State, t: State)
    requires Tracks(w, X, s) && s.stage.Reading? && Works(w, s, [], t)
    ensures Tracks(w, X, t) && Pending(t) == Pending(s)
  {
    hide Frontier, Shows, Enumerates, Subdirs;
    assert s.stage.ask.at in Pending(s);
    SameSubdirs(w, X, s.stage.ask.at);
  }

  lemma StoringTracks(w: World, X: set<Address>, s: State, t: State)
    requires Scannable(w) && Tracks(w, X, s) && s.stage.Storing? && Works(w, s, [], t)
    ensures Tracks(w, X, t) && Pending(t) == Advanced(w, X, Pending(s), s.stage.ask.at)
  {
    hide *;
    var d, P := s.stage.ask.at, Pending(s);
    ScannableIs(w);
    StoringHas(w, X, s);
    StoringStores(w, s, t);
    PendingShown(w, X, P, s.tree, d);
    StoresItself(w, s.tree, s.stage.ask, s.stage.listing, s.stage.found, t.tree, t.stage.found);
    StoredAs(s.tree, s.stage.ask, s.stage.listing, s.stage.found, t.tree, t.stage.found);
    ListingShows(w, X, P, d, s.tree);
    AdvancedFrontier(w, X, P, d);
    SubdirsBelow(w, X, d);
    EnumeratedSiblings(t.stage.found, Subdirs(w, X, d), d);
    AdvancedPending(w, X, s, t);
    AdvancedBeyond(w, X, P, d);
    PausingTracks(w, X, t);
  }

  lemma ScannableIs(w: World)
    requires Scannable(w)
    ensures IsFileSystem(w.fs) && NoneCancels(w)
  {
  }

  lemma StoringHas(w: World, X: set<Address>, s: State)
    requires Tracks(w, X, s) && s.stage.Storing?
    ensures var d := s.stage.ask.at;
            && d in Pending(s) && d !in Queued(s.queue) && s.stage.ask.recursive
            && s.stage.listing == ListingOf(w.fs, d) && Enumerates(s.stage.found, Subdirs(w, X, d))
    ensures Frontier(w, X, Pending(s)) && Shows(w, X, Pending(s), s.tree)
    ensures forall p, x :: p in Pending(s) && x in X ==> !(p < x)
    ensures Apart(s.queue) && (forall a :: a in s.queue ==> a.recursive && a.at in Pending(s) && a.at != s.stage.ask.at)
    ensures s.status != Stopping && s.status != Idle
  {
  }

  lemma StoringStores(w: World, s: State, t: State)
    requires s.stage.Storing? && Works(w, s, [], t)
    ensures t.stage.Pausing? && t.stage.ask == s.stage.ask && t.queue == s.queue && t.status == s.status
    ensures Stores(w, s.tree, s.stage.ask, s.stage.listing, s.stage.found, t.tree, t.stage.found)
  {
    hide Stores;
  }

  lemma StoredAs(tree: Tree, ask: Ask, listing: Listing, found: seq<Address>, tree': Tree, found': seq<Address>)
    requires StoresAt(tree, ask.at, ask, listing, found, tree', found')
    ensures tree' == Reconciled(tree, ask.at, listing) && (ask.recursive ==> found' == found)
  {
  }

  lemma SubdirsBelow(w: World, X: set<Address>, d: Address)
    ensures forall q :: q in Subdirs(w, X, d) ==> q != [] && Front(q) == d && d < q
  {
  }

  /** What is pending after a directory was stored, and is not yet in the queue. */
  lemma AdvancedPending(w: World, X: set<Address>, s: State, t: State)
    requires s.stage.Storing? && t.stage.Pausing? && t.queue == s.queue && s.stage.ask.at !in Queued(s.queue)
    requires forall q :: q in t.stage.found <==> q in Subdirs(w, X, s.stage.ask.at)
    ensures Pending(t) == Advanced(w, X, Pending(s), s.stage.ask.at)
  {
    hide Subdirs;
    assert InHand(t.stage) == Subdirs(w, X, s.stage.ask.at);
  }

  lemma AdvancedBeyond(w: World, X: set<Address>, P: set<Address>, d: Address)
    requires d in P && forall p, x :: p in P && x in X ==> !(p < x)
    ensures forall p, x :: p in Advanced(w, X, P, d) && x in X ==> !(p < x)
    ensures Frontier(w, X, P) ==> forall q :: q in P && q != d ==> PrefixOrder(d, q) == Different
  {
    forall p, x | p in Advanced(w, X, P, d) && x in X
      ensures !(p < x)
    {
      if p in Subdirs(w, X, d) {
        PrefixChain(d, p, x);
      }
    }
  }

  lemma PausingTracks(w: World, X: set<Address>, t: State)
    requires t.stage.Pausing? && Siblings(Asks(t.stage.found, true), t.stage.ask.at)
    requires Frontier(w, X, Pending(t)) && Shows(w, X, Pending(t), t.tree)
    requires forall p, x :: p in Pending(t) && x in X ==> !(p < x)
    requires Apart(t.queue) && (forall a :: a in t.queue ==> a.recursive)
    requires forall a :: a in t.queue ==> PrefixOrder(t.stage.ask.at, a.at) == Different
    requires t.status != Stopping && t.status != Idle
    ensures Tracks(w, X, t)
  {
  }

  lemma StoresItself(w: World, tree: Tree, ask: Ask, listing: Listing, found: seq<Address>, tree': Tree,
                     found': seq<Address>)
    requires NoneCancels(w) && ask.at in w.fs && w.fs[ask.at].dir && ask.at in tree
    requires Stores(w, tree, ask, listing, found, tree', found')
    ensures StoresAt(tree, ask.at, ask, listing, found, tree', found')
  {
    hide NoneCancels, StoresAt, Finds;
    FindsItself(w, ask.at, ask.at);
    var target :| target in tree && Finds(w, ask.at, target) &&
      StoresAt(tree, target, ask, listing, found, tree', found');
    FindsItself(w, ask.at, target);
  }

  /** What is found for the request at hand is a directory, and so it stays. */
  lemma StoringFinds(w: World, X: set<Address>, s: State)
    requires Scannable(w) && Tracks(w, X, s) && s.stage.Storing? && (forall q :: q in w.fs ==> w.fs[q].own >= 0)
    ensures forall n :: n in s.stage.listing ==> s.stage.listing[n].size >= 0
    ensures forall q :: q in s.tree && Finds(w, s.stage.ask.at, q) ==> s.tree[q].dir
  {
    hide Finds, Frontier, Shows, Enumerates, Subdirs, NoneCancels;
    var d := s.stage.ask.at;
    StoringHas(w, X, s);
    PendingShown(w, X, Pending(s), s.tree, d);
    forall q | q in s.tree && Finds(w, d, q)
      ensures s.tree[q].dir
    {
      FindsItself(w, d, q);
    }
  }

  lemma ReadingThere(w: World, X: set<Address>, s: State)
    requires Tracks(w, X, s) && s.stage.Reading?
    ensures s.stage.ask.at in w.fs && w.fs[s.stage.ask.at].dir
  {
    hide Frontier, Shows;
    assert s.stage.ask.at in Pending(s);
    PendingShown(w, X, Pending(s), s.tree, s.stage.ask.at);
  }

  lemma JoiningTracks(w: World, X: set<Address>, s: State, t: State)
    requires Tracks(w, X, s) && s.stage.Joining? && Works(w, s, [], t)
    ensures Tracks(w, X, t) && Pending(t) == Pending(s) && t.status == s.status
    ensures t.stage.Reading? || t.stage.Ending?
  {
    var f, d := s.stage.found, s.stage.ask.at;
    var h := WithFound(s, f);
    JoinedQueue(s, f, d);
    hide WithFound, Frontier, Shows, EnqueuedChildren, Siblings;
    assert EnqueuedAll(h.queue, Asks([], false), true) == h.queue;
    assert Notified(h, []) == h;
    assert Queued(h.queue) == Pending(s);
    NextTracks(w, X, h);
  }

  /** The directories found are batched in front of a queue that has nothing to do with them. */
  lemma JoinedQueue(s: State, f: seq<Address>, d: Address)
    requires Siblings(Asks(f, true), d) && Apart(s.queue) && forall a :: a in s.queue ==> a.recursive
    requires forall a :: a in s.queue ==> PrefixOrder(d, a.at) == Different
    ensures WithFound(s, f) == s.(queue := WithFound(s, f).queue)
    ensures Queued(WithFound(s, f).queue) == Queued(s.queue) + set c | c in f
    ensures Apart(WithFound(s, f).queue) && forall a :: a in WithFound(s, f).queue ==> a.recursive
  {
    var q := s.queue;
    if f != [] {
      ParentIs(f, d);
      AllUnrelated(q, d);
      ChildrenKeep(q, d, Asks(f, true), false, []);
      BatchedHas(q, Asks(f, true), false);
      var q' := Batched(q, Asks(f, true), false);
      hide Batched, Siblings, EnqueuedChildren, Apart;
      forall a: Ask
        ensures a in q' <==> a in q || a in Asks(f, true)
      {
        assert a in q' <==> a in multiset(q');
      }
      AsksAre(f);
      assert Queued(q') == Queued(q) + set c | c in f;
    }
  }

  lemma AllUnrelated(q: seq<Ask>, d: Address)
    requires forall a :: a in q ==> PrefixOrder(d, a.at) == Different
    ensures FirstRelated(q, d) == |q|
  {
  }

  lemma AsksAre(f: seq<Address>)
    ensures forall a :: a in Asks(f, true) ==> a.recursive && a.at in f
    ensures forall c :: c in f ==> Ask(c, true) in Asks(f, true)
  {
    forall c | c in f
      ensures Ask(c, true) in Asks(f, true)
    {
      var i :| 0 <= i < |f| && f[i] == c;
      assert Asks(f, true)[i] == Ask(c, true);
    }
  }

  /** A scan goes down first: after a directory its subdirectories are listed, the one found last before the others. */
  lemma DepthFirst(w: World, X: set<Address>, s: State, t: State)
    requires Tracks(w, X, s) && s.stage.Joining? && s.stage.found != [] && Works(w, s, [], t)
    ensures var f := s.stage.found;
            && s.status != Idle && t.stage == Reading(Ask(f[|f| - 1], true))
            && |t.queue| == |f| - 1 + |s.queue| && t.queue[|f| - 1..] == s.queue
            && forall i :: 0 <= i < |f| - 1 ==> t.queue[i] == Ask(f[|f| - 2 - i], true)
  {
    hide *;
    var f := s.stage.found;
    JoiningHas(w, X, s);
    AsksSize(f);
    JoinedBatch(s);
    BatchedOrder(s.queue, Asks(f, true), false);
    JoinedTakes(w, s, t, Batched(s.queue, Asks(f, true), false));
    InReverse(Batched(s.queue, Asks(f, true), false), s.queue, f);
  }

  lemma AsksSize(f: seq<Address>)
    ensures |Asks(f, true)| == |f|
  {
  }

  lemma JoiningHas(w: World, X: set<Address>, s: State)
    requires Tracks(w, X, s) && s.stage.Joining?
    ensures Siblings(Asks(s.stage.found, true), s.stage.ask.at) && s.status != Idle
    ensures forall a :: a in s.queue ==> PrefixOrder(s.stage.ask.at, a.at) == Different
  {
    hide Frontier, Shows, Siblings;
  }

  lemma JoinedBatch(s: State)
    requires s.stage.Joining? && s.stage.found != [] && Siblings(Asks(s.stage.found, true), s.stage.ask.at)
    requires forall a :: a in s.queue ==> PrefixOrder(s.stage.ask.at, a.at) == Different
    ensures WithFound(s, s.stage.found) == s.(queue := Batched(s.queue, Asks(s.stage.found, true), false))
  {
    ParentIs(s.stage.found, s.stage.ask.at);
    AllUnrelated(s.queue, s.stage.ask.at);
    hide Siblings, Batched;
  }

  lemma JoinedTakes(w: World, s: State, t: State, b: seq<Ask>)
    requires s.stage.Joining? && Works(w, s, [], t) && s.status != Idle && b != []
    requires WithFound(s, s.stage.found) == s.(queue := b)
    ensures t.stage == Reading(b[0]) && t.queue == b[1..]
  {
    hide WithFound;
    NoNotice(WithFound(s, s.stage.found));
  }

  lemma InReverse(b: seq<Ask>, q: seq<Ask>, f: seq<Address>)
    requires f != [] && |b| == |q| + |f| && b[|f|..] == q
    requires |Asks(f, true)| == |f| ==> forall i :: 0 <= i < |f| ==> b[i] == Asks(f, true)[|f| - 1 - i]
    ensures |Asks(f, true)| == |f| && b[0] == Ask(f[|f| - 1], true) && |b[1..]| == |f| - 1 + |q|
    ensures b[1..][|f| - 1..] == q && forall i :: 0 <= i < |f| - 1 ==> b[1..][i] == Ask(f[|f| - 2 - i], true)
  {
    assert b[1..][|f| - 1..] == b[|f|..];
  }

  lemma RestingTracks(w: World, X: set<Address>, s: State, t: State)
    requires Tracks(w, X, s) && s.stage.Resting? && Works(w, s, [], t)
    ensures Tracks(w, X, t) && Pending(t) == Pending(s) && t.status == s.status
    ensures s.status == Idle ==> t.stage.Resting?
    ensures s.status != Idle ==> t.stage.Reading? || t.stage.Ending?
  {
    hide Frontier, Shows;
    assert EnqueuedAll(s.queue, Asks([], false), true) == s.queue;
    assert Notified(s, []) == s;
    assert Pending(s) == Queued(s.queue);
    if s.status != Idle {
      NextTracks(w, X, s);
    }
  }

  /** Every step of the worker, and every pause and resume, keeps the database on track; only storing gets further. */
  lemma StepTracks(w: World, X: set<Address>, s: State, m: Move, t: State)
    requires Scannable(w) && Tracks(w, X, s) && Quiet(m) && Moves(w, s, m, t)
    ensures Tracks(w, X, t)
    ensures if Updates(s, t) then
              s.stage.ask.at in Pending(s) && Pending(t) == Advanced(w, X, Pending(s), s.stage.ask.at)
            else Pending(t) == Pending(s)
  {
    hide Frontier, Shows, Works;
    if m == Work([]) {
      match s.stage {
        case Resting(_) => RestingTracks(w, X, s, t);
        case Reading(_) => ReadingTracks(w, X, s, t);
        case Storing(_, _, _) =>
          StoringTracks(w, X, s, t);
          StoringPauses(w, s, t);
        case Joining(_, _) => JoiningTracks(w, X, s, t);
        case _ => OtherTracks(w, X, s, t);
      }
    }
  }

  lemma StoringPauses(w: World, s: State, t: State)
    requires s.stage.Storing? && Works(w, s, [], t)
    ensures Updates(s, t) && s.stage.ask.at in Pending(s)
  {
  }

  lemma OtherTracks(w: World, X: set<Address>, s: State, t: State)
    requires Tracks(w, X, s) && Works(w, s, [], t)
    requires s.stage.Checking? || s.stage.Pausing? || s.stage.Breaking? || s.stage.Ending?
    ensures Tracks(w, X, t) && Pending(t) == Pending(s)
  {
    hide Frontier, Shows, Enumerates, Siblings;
  }

  // -------------------------------------------------------------- whole runs

  /** The directories listed in a run, in order. */
  ghost function Visits(r: Run): seq<Address>
    requires IsRun(r)
    decreases |r.moves|
  {
    if r.moves == [] then []
    else
      ShorterRuns(r);
      Visits(Shorter(r)) + Visited(Last(Shorter(r)), Last(r))
  }

  /** The scanner as constructed: nothing but the root is known, and a recursive request for it is queued. */
  ghost function Start(): State {
    State(map[[] := Info(true, 0)], [Ask([], true)], Scanning, Resting(false))
  }

  /** Along a quiet run every directory is either listed once or still to be listed. */
  lemma {:induction false} RunTracks(w: World, X: set<Address>, r: Run)
    requires Scannable(w) && IsQuiet(w, r) && Tracks(w, X, r.states[0])
    ensures Tracks(w, X, Last(r))
    ensures multiset(Visits(r)) + multiset(LeftIn(w, X, Last(r))) == multiset(LeftIn(w, X, r.states[0]))
    decreases |r.moves|
  {
    hide *;
    QuietRuns(w, r);
    if r.moves == [] {
      NoVisits(w, X, r);
    } else {
      var n := |r.moves| - 1;
      QuietStep(w, r);
      RunTracks(w, X, Shorter(r));
      LeftStep(w, X, r.states[n], r.moves[n], r.states[n + 1]);
    }
  }

  lemma NoVisits(w: World, X: set<Address>, r: Run)
    requires IsRun(r) && r.moves == []
    ensures Visits(r) == [] && Last(r) == r.states[0]
    ensures multiset(Visits(r)) + multiset(LeftIn(w, X, r.states[0])) == multiset(LeftIn(w, X, r.states[0]))
  {
    hide LeftIn;
  }

  /** The last step of a run. */
  lemma RunStep(r: Run)
    requires IsRun(r) && r.moves != []
    ensures var n := |r.moves| - 1;
            && |r.states| == |r.worlds| + 1 == n + 2 && IsRun(Shorter(r)) && Shorter(r).states[0] == r.states[0]
            && |Shorter(r).moves| == n && Shorter(r).moves == r.moves[..n] && Shorter(r).worlds == r.worlds[..n]
            && Last(Shorter(r)) == r.states[n] && Last(r) == r.states[n + 1]
            && Moves(r.worlds[n], r.states[n], r.moves[n], r.states[n + 1])
            && Worked(r.moves) == Worked(Shorter(r).moves) + (if r.moves[n].Work? then 1 else 0)
            && Effort(r) == Effort(Shorter(r)) + (if Effective(r.states[n], r.moves[n]) then 1 else 0)
            && Visits(r) == Visits(Shorter(r)) + Visited(r.states[n], r.states[n + 1])
  {
    ShorterRuns(r);
    hide Moves, Effective, Visited;
    assert Last(Shorter(r)) == r.states[|r.moves| - 1];
  }

  /** The last step of a quiet run. */
  lemma QuietStep(w: World, r: Run)
    requires IsQuiet(w, r) && r.moves != []
    ensures var n := |r.moves| - 1;
            && |r.states| == |r.worlds| + 1 == n + 2 && IsRun(r) && IsRun(Shorter(r)) && IsQuiet(w, Shorter(r))
            && Shorter(r).states[0] == r.states[0] && Shorter(r).moves == r.moves[..n]
            && Last(Shorter(r)) == r.states[n] && Last(r) == r.states[n + 1]
            && Moves(w, r.states[n], r.moves[n], r.states[n + 1]) && Quiet(r.moves[n])
            && Worked(r.moves) == Worked(Shorter(r).moves) + (if r.moves[n].Work? then 1 else 0)
            && Effort(r) == Effort(Shorter(r)) + (if Effective(r.states[n], r.moves[n]) then 1 else 0)
            && Visits(r) == Visits(Shorter(r)) + Visited(r.states[n], r.states[n + 1])
  {
    RunStep(r);
    ShorterRuns(r);
    hide Moves, Effort, Visits, Worked;
    assert Quiet(r.moves[|r.moves| - 1]) && r.worlds[|r.moves| - 1] == w;
  }

  /** A step lists one of the directories that are left, or none at all. */
  lemma LeftStep(w: World, X: set<Address>, s: State, m: Move, t: State)
    requires Scannable(w) && Tracks(w, X, s) && Quiet(m) && Moves(w, s, m, t)
    ensures Tracks(w, X, t)
    ensures multiset(Visited(s, t)) + multiset(LeftIn(w, X, t)) == multiset(LeftIn(w, X, s))
    ensures |LeftIn(w, X, t)| == |LeftIn(w, X, s)| - if Updates(s, t) then 1 else 0
  {
    hide Moves, Left, Shows, Advanced;
    StepTracks(w, X, s, m, t);
    if Updates(s, t) {
      LeftFalls(w, X, Pending(s), s.stage.ask.at);
      var d, left := s.stage.ask.at, LeftIn(w, X, s);
      assert LeftIn(w, X, t) == left - {d};
      assert multiset(left) == multiset{d} + multiset(left - {d});
    }
  }

  lemma StartTracks(w: World)
    requires Scannable(w)
    ensures Tracks(w, {}, Start()) && LeftIn(w, {}, Start()) == Listables(w, {})
  {
    KnownEnds(w, {});
    KnownShows(w, {}, {[]});
    hide Shows, Left, Frontier;
    assert Queued([Ask([], true)]) == {[]};
    assert Pending(Start()) == {[]};
  }

  lemma IdleDone(w: World, X: set<Address>, s: State)
    requires Scannable(w) && Tracks(w, X, s) && s.status == Idle
    ensures s.tree == Visible(w, X) && LeftIn(w, X, s) == {}
  {
    KnownEnds(w, X);
    hide Shows, Left, Frontier, Visible;
    assert Pending(s) == {};
    ShowsEnds(w, X, s.tree);
  }

  /**
   A full scan is exact: in an unchanging world, and however it is paused and resumed, when the
   scanner gets idle the database shows everything visible, and every directory that a scan
   enters was listed exactly once.
   */
  lemma FullScanExact(w: World, r: Run)
    requires Scannable(w) && IsQuiet(w, r) && r.states[0] == Start() && Last(r).status == Idle
    ensures Last(r).tree == Visible(w, {})
    ensures multiset(Visits(r)) == multiset(Listables(w, {}))
  {
    StartTracks(w);
    RunTracks(w, {}, r);
    IdleDone(w, {}, Last(r));
    hide Tracks;
    assert multiset(Visits(r)) + multiset{} == multiset(Visits(r));
  }

  // ----------------------------------------------------------------- termination

  /** How many steps of the worker are left, waiting apart. */
  ghost function Rank(w: World, X: set<Address>, s: State): nat {
    if s.status == Idle then 0
    else
      5 * |LeftIn(w, X, s)| +
      match s.stage
      case Resting(_) => 4
      case Reading(_) => 3
      case Checking(_, _, _) => 2
      case Storing(_, _, _) => 1
      case Pausing(_, _) => 5
      case Joining(_, _) => 4
      case Breaking => 1
      case Ending => 1
  }

  /** A step of the worker that is not just waiting. */
  predicate Effective(s: State, m: Move) {
    m.Work? && s.status != Idle && !(s.stage.Pausing? && s.status == Paused)
  }

  lemma RankFalls(w: World, X: set<Address>, s: State, m: Move, t: State)
    requires Scannable(w) && Tracks(w, X, s) && Quiet(m) && Moves(w, s, m, t)
    ensures Rank(w, X, t) + (if Effective(s, m) then 1 else 0) <= Rank(w, X, s)
  {
    LeftStep(w, X, s, m, t);
    StepTracks(w, X, s, m, t);
    StagesFollow(w, X, s, m, t);
    hide Tracks, Moves, Left, LeftIn;
  }

  lemma StagesFollow(w: World, X: set<Address>, s: State, m: Move, t: State)
    requires Tracks(w, X, s) && Quiet(m) && Moves(w, s, m, t)
    ensures s.status == Idle ==> t.status == Idle
    ensures !m.Work? ==> t.stage == s.stage
    ensures m.Work? && s.status != Idle ==>
              match s.stage
              case Resting(_) => t.stage.Reading? || t.stage.Ending?
              case Reading(_) => t.stage.Checking?
              case Checking(_, _, _) => t.stage.Storing?
              case Storing(_, _, _) => t.stage.Pausing?
              case Pausing(_, _) => t.stage == if s.status == Paused then s.stage
                  else Joining(s.stage.ask, s.stage.found)
              case Joining(_, _) => t.stage.Reading? || t.stage.Ending?
              case _ => t.status == Idle
  {
    hide Frontier, Shows, Stores, Enumerates, EnqueuedAll, EnqueuedChildren;
    if m.Work? && s.stage.Resting? {
      RestingTracks(w, X, s, t);
    } else if m.Work? && s.stage.Joining? {
      JoiningTracks(w, X, s, t);
    }
  }

  /** The number of steps of the worker in a run, waiting apart. */
  ghost function Effort(r: Run): nat
    requires IsRun(r)
    decreases |r.moves|
  {
    if r.moves == [] then 0
    else
      ShorterRuns(r);
      Effort(Shorter(r)) + if Effective(Last(Shorter(r)), r.moves[|r.moves| - 1]) then 1 else 0
  }

  lemma {:induction false} EffortBounded(w: World, X: set<Address>, r: Run)
    requires Scannable(w) && IsQuiet(w, r) && Tracks(w, X, r.states[0])
    ensures Effort(r) + Rank(w, X, Last(r)) <= Rank(w, X, r.states[0])
    decreases |r.moves|
  {
    if r.moves != [] {
      var i := |r.moves| - 1;
      ShorterRuns(r);
      assert Last(Shorter(r)) == r.states[i] && Last(r) == r.states[i + 1] && Quiet(r.moves[i]) && r.worlds[i] == w;
      EffortBounded(w, X, Shorter(r));
      RunTracks(w, X, Shorter(r));
      hide Tracks, Moves, Rank;
      RankFalls(w, X, r.states[i], r.moves[i], r.states[i + 1]);
    }
  }

  /** A full scan takes five steps for each directory and four more, and then the scanner is idle. */
  lemma FullScanEnds(w: World, r: Run)
    requires Scannable(w) && IsQuiet(w, r) && r.states[0] == Start()
    ensures Effort(r) <= 5 * |Listables(w, {})| + 4
    ensures Effort(r) == 5 * |Listables(w, {})| + 4 ==> Last(r).status == Idle
  {
    hide *;
    QuietRuns(w, r);
    StartTracks(w);
    EffortBounded(w, {}, r);
    RankEnds(w, {}, Last(r));
  }

  lemma QuietRuns(w: World, r: Run)
    requires IsQuiet(w, r)
    ensures IsRun(r) && r.states != []
  {
  }

  lemma RankEnds(w: World, X: set<Address>, s: State)
    ensures Rank(w, X, s) == 0 <==> s.status == Idle
    ensures Rank(w, X, Start()) == 5 * |LeftIn(w, X, Start())| + 4
  {
    hide LeftIn;
  }
}
