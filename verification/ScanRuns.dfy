/** The scanner as a state machine: the steps of its worker, and what others may do in between. */
module ScanRuns {
  import opened SizeBins
  import opened Trees
  import opened Reconcile
  import opened Mirror
  import opened FilePaths
  import opened Lookup
  import opened ScanQueues
  import opened Snapshots

  datatype Status = Idle | Scanning | Paused | Stopping

  /** Where the worker is between two of its steps. */
  datatype Stage =
    | Resting(slept: bool)
    | Reading(ask: Ask)
    | Checking(ask: Ask, listing: Listing, found: seq<Address>)
    | Storing(ask: Ask, listing: Listing, found: seq<Address>)
    | Pausing(ask: Ask, found: seq<Address>)
    | Joining(ask: Ask, found: seq<Address>)
    | Breaking
    | Ending

  datatype State = State(tree: Tree, queue: seq<Ask>, status: Status, stage: Stage)

  /** A step of the worker, which may pop watcher events, or a call from outside. */
  datatype Move = Work(events: seq<Address>) | Pause | Resume | Rescan(at: Address) | Stop

  ghost function Asks(chains: seq<Address>, recursive: bool): seq<Ask> {
    seq(|chains|, i requires 0 <= i < |chains| => Ask(chains[i], recursive))
  }

  /** A list of the elements of a set, each once. */
  ghost predicate Enumerates(list: seq<Address>, all: set<Address>) {
    multiset(list) == multiset(all)
  }

  /** What the database finds for `at`: an entry whose names end `at`, and whose path has the same hash. */
  ghost predicate Finds(w: World, at: Address, target: Address) {
    if at == [] then target == []
    else
      && target != [] && IsSuffix(target, at)
      && HashOf(w.hash, w.hash(w.rootName), target) == HashOf(w.hash, w.hash(w.rootName), at)
  }

  ghost predicate CanFind(w: World, tree: Tree, at: Address) {
    exists target :: target in tree && Finds(w, at, target)
  }

  /** The listed directories that the database did not have below `target`. */
  ghost function Added(tree: Tree, target: Address, at: Address, listing: Listing): set<Address> {
    set n | n in listing && listing[n].dir && target + [n] !in tree :: at + [n]
  }

  ghost predicate StoresAt(tree: Tree, target: Address, ask: Ask, listing: Listing, found: seq<Address>,
                           tree': Tree, found': seq<Address>) {
    && tree' == Reconciled(tree, target, listing)
    && if ask.recursive then found' == found else Enumerates(found', Added(tree, target, ask.at, listing))
  }

  /** A database update; after a request that is not recursive, the new directories come back. */
  ghost predicate Stores(w: World, tree: Tree, ask: Ask, listing: Listing, found: seq<Address>, tree': Tree,
                         found': seq<Address>) {
    if CanFind(w, tree, ask.at) then
      exists target :: target in tree && Finds(w, ask.at, target) &&
        StoresAt(tree, target, ask, listing, found, tree', found')
    else
      tree' == tree && found' == if ask.recursive then found else []
  }

  /** Everything in `d` that is a directory, and is not skipped unless the scan is being stopped. */
  ghost function Entered(w: World, status: Status, d: Address): set<Address> {
    if status == Stopping then Subdirs(w.(skip := q => false), {}, d) else Subdirs(w, {}, d)
  }

  /** The test at the head of the scan loop: on to the next request, or clear the queue and end. */
  ghost function Next(s: State): State {
    if s.queue != [] && s.status != Idle then s.(queue := s.queue[1..], stage := Reading(s.queue[0]))
    else s.(queue := [], stage := Ending)
  }

  /** Popped events go to the back of the queue, and restart a scan. */
  ghost function Notified(s: State, events: seq<Address>): State {
    s.(queue := EnqueuedAll(s.queue, Asks(events, false), true), status := if events == [] then s.status else Scanning)
  }

  ghost function ParentOf(found: seq<Address>): Address {
    if found == [] || found[0] == [] then [] else Front(found[0])
  }

  /** The directories found go to the front of the queue. */
  ghost function WithFound(s: State, found: seq<Address>): State {
    if found == [] then s
    else s.(queue := EnqueuedChildren(s.queue, ParentOf(found), Asks(found, true), false))
  }

  ghost predicate Works(w: World, s: State, events: seq<Address>, t: State) {
    match s.stage
    case Resting(slept) =>
      var h := Notified(s, events);
      && (slept || events == [])
      && t == if h.queue == [] && h.status == Idle then h.(stage := Resting(true)) else Next(h)
    case Reading(ask) =>
      && events == [] && t.stage.Checking?
      && t == s.(stage := Checking(ask, ListingOf(w.fs, ask.at), t.stage.found))
      && if ask.recursive then Enumerates(t.stage.found, Entered(w, s.status, ask.at)) else t.stage.found == []
    case Checking(ask, listing, found) =>
      events == [] && t == s.(stage := if s.status == Stopping then Breaking else Storing(ask, listing, found))
    case Storing(ask, listing, found) =>
      && events == [] && t.stage.Pausing?
      && t == s.(tree := t.tree, stage := Pausing(ask, t.stage.found))
      && Stores(w, s.tree, ask, listing, found, t.tree, t.stage.found)
    case Pausing(ask, found) =>
      events == [] && t == if s.status == Paused then s else s.(stage := Joining(ask, found))
    case Joining(ask, found) =>
      t == Next(Notified(WithFound(s, found), events))
    case Breaking =>
      events == [] && t == s.(queue := [], stage := Ending)
    case Ending =>
      events == [] && t == s.(status := Idle, stage := Resting(false))
  }

  ghost predicate Moves(w: World, s: State, m: Move, t: State) {
    match m
    case Work(events) => Works(w, s, events, t)
    case Pause => t == if s.status == Scanning then s.(status := Paused) else s
    case Resume => t == if s.status == Paused then s.(status := Scanning) else s
    case Rescan(at) =>
      t == if CanFind(w, s.tree, at) then s.(status := Scanning, queue := Enqueued(s.queue, Ask(at, true), false))
          else s
    case Stop => t == if s.status == Stopping || s.status == Idle then s else s.(status := Stopping)
  }

  /** Steps of the worker without events, pauses and resumes. */
  predicate Quiet(m: Move) {
    m == Work([]) || m == Pause || m == Resume
  }

  /** The states of a run, the moves between them, and what the world was like at each of them. */
  datatype Run = Run(states: seq<State>, moves: seq<Move>, worlds: seq<World>)

  ghost predicate IsRun(r: Run) {
    && |r.states| == |r.moves| + 1 == |r.worlds| + 1
    && forall i :: 0 <= i < |r.moves| ==> Moves(r.worlds[i], r.states[i], r.moves[i], r.states[i + 1])
  }

  /** A run in an unchanging world, disturbed by nothing but pauses and resumes. */
  ghost predicate IsQuiet(w: World, r: Run) {
    && IsRun(r)
    && forall i :: 0 <= i < |r.moves| ==> r.worlds[i] == w && Quiet(r.moves[i])
  }

  ghost function Last(r: Run): State
    requires r.states != []
  {
    r.states[|r.states| - 1]
  }

  /** The run without its last move. */
  ghost function Shorter(r: Run): Run
    requires IsRun(r) && r.moves != []
  {
    var n := |r.moves| - 1;
    Run(r.states[..n + 1], r.moves[..n], r.worlds[..n])
  }

  lemma ShorterRuns(r: Run)
    requires IsRun(r) && r.moves != []
    ensures IsRun(Shorter(r)) && Shorter(r).states[0] == r.states[0]
    ensures forall w :: IsQuiet(w, r) ==> IsQuiet(w, Shorter(r))
    ensures Moves(r.worlds[|r.moves| - 1], Last(Shorter(r)), r.moves[|r.moves| - 1], Last(r))
  {
  }

  // ------------------------------------------------------------- at most one update

  /** A step that updates the database. */
  predicate Updates(s: State, t: State) {
    s.stage.Storing? && t.stage.Pausing?
  }

  ghost function UpdateCount(r: Run): nat
    requires IsRun(r)
    decreases |r.moves|
  {
    if r.moves == [] then 0
    else
      ShorterRuns(r);
      UpdateCount(Shorter(r)) + if Updates(Last(Shorter(r)), Last(r)) then 1 else 0
  }

  /** The scanner is idle only when its worker is at rest or about to be. */
  predicate Sensible(s: State) {
    s.status == Idle ==> s.stage.Resting? || s.stage.Ending?
  }

  lemma SensibleKept(w: World, s: State, m: Move, t: State)
    requires Sensible(s) && Moves(w, s, m, t)
    ensures Sensible(t)
  {
    hide EnqueuedAll, EnqueuedChildren, Stores, Enumerates, CanFind;
  }

  /** Moves other than a resume, a rescan, a stop and the popping of an event. */
  predicate Idling(m: Move) {
    m == Work([]) || m == Pause
  }

  /** How many updates there may still be while the scanner stays paused. */
  function Budget(s: State): nat {
    match s.stage
    case Resting(_) => if s.status == Idle then 0 else 1
    case Pausing(_, _) => 0
    case Breaking => 0
    case Ending => 0
    case _ => 1
  }

  lemma BudgetFalls(w: World, s: State, m: Move, t: State)
    requires (s.status == Paused || s.status == Idle) && Sensible(s) && Moves(w, s, m, t) && Idling(m)
    ensures t.status == Paused || t.status == Idle
    ensures Budget(t) + (if Updates(s, t) then 1 else 0) <= Budget(s)
  {
    hide EnqueuedAll, EnqueuedChildren, Stores, Enumerates;
  }

  /** Once paused, and until it is told otherwise, a scan updates the database at most once more. */
  lemma {:induction false} BoundedPause(r: Run)
    requires IsRun(r) && r.states[0].status == Paused
    requires forall i :: 0 <= i < |r.moves| ==> Idling(r.moves[i])
    ensures (Last(r).status == Paused || Last(r).status == Idle) && Sensible(Last(r))
    ensures UpdateCount(r) + Budget(Last(r)) <= Budget(r.states[0]) <= 1
    decreases |r.moves|
  {
    if r.moves != [] {
      ShorterRuns(r);
      BoundedPause(Shorter(r));
      BudgetFalls(r.worlds[|r.moves| - 1], Last(Shorter(r)), r.moves[|r.moves| - 1], Last(r));
      SensibleKept(r.worlds[|r.moves| - 1], Last(Shorter(r)), r.moves[|r.moves| - 1], Last(r));
    }
  }

  // ------------------------------------------------------------------ stopping a scan

  /** How many steps the worker takes among some moves, waiting or not. */
  function Worked(moves: seq<Move>): nat {
    if moves == [] then 0
    else Worked(moves[..|moves| - 1]) + if moves[|moves| - 1].Work? then 1 else 0
  }

  /** The scanner is about to stop, or is idle. */
  predicate Halting(s: State) {
    (s.status == Stopping || s.status == Idle) && Sensible(s)
  }

  /** Moves that do not restart the scanner. */
  predicate Halts(m: Move) {
    m == Work([]) || m == Pause || m == Resume || m == Stop
  }

  /** How many steps it may still take until the scanner is idle and its queue empty. */
  function StopRank(s: State): nat {
    match s.stage
    case Storing(_, _, _) => 7
    case Pausing(_, _) => 6
    case Joining(_, _) => 5
    case Reading(_) => 4
    case Checking(_, _, _) => 3
    case Breaking => 2
    case Ending => if s.queue == [] then 1 else 3
    case Resting(_) => if s.status == Stopping then 5 else if s.queue == [] then 0 else 2
  }

  lemma StopFalls(w: World, s: State, m: Move, t: State)
    requires Halting(s) && Halts(m) && Moves(w, s, m, t)
    ensures Halting(t) && StopRank(t) + (if m.Work? && StopRank(s) > 0 then 1 else 0) <= StopRank(s)
    ensures Updates(s, t) <==> m.Work? && s.stage.Storing?
    ensures t.stage.Storing? ==> s.stage.Storing?
    ensures !Updates(s, t) ==> t.tree == s.tree
  {
    hide EnqueuedAll, EnqueuedChildren, Stores, Enumerates, CanFind;
    if m == Work([]) && s.stage.Resting? {
      NoNotice(s);
    }
  }

  lemma NoNotice(s: State)
    ensures Notified(s, []) == s
  {
    assert EnqueuedAll(s.queue, Asks([], false), true) == s.queue;
  }

  lemma StopBegins(w: World, s: State, t: State)
    requires s.status != Idle && Moves(w, s, Stop, t)
    ensures Halting(t) && t == s.(status := Stopping) && StopRank(t) <= 7
    ensures !Updates(s, t)
  {
  }

  lemma {:induction false} RunHalts(r: Run)
    requires IsRun(r) && r.moves != [] && r.moves[0] == Stop && r.states[0].status != Idle
    requires forall i :: 0 <= i < |r.moves| ==> Halts(r.moves[i])
    ensures Halting(Last(r)) && (Last(r).stage.Storing? ==> r.states[0].stage.Storing?)
    ensures UpdateCount(r) <= if r.states[0].stage.Storing? && !Last(r).stage.Storing? then 1 else 0
    ensures UpdateCount(r) == 0 ==> Last(r).tree == r.states[0].tree
    ensures StopRank(Last(r)) == 0 || (StopRank(Last(r)) > 0 && Worked(r.moves) + StopRank(Last(r)) <= 7)
    decreases |r.moves|
  {
    var n := |r.moves| - 1;
    var s, m, t := r.states[n], r.moves[n], r.states[n + 1];
    ShorterRuns(r);
    assert Last(Shorter(r)) == s && Last(r) == t && Moves(r.worlds[n], s, m, t) && Halts(m);
    if n == 0 {
      StopBegins(r.worlds[0], s, t);
      assert Shorter(r).moves == [] && r.moves[..0] == [];
    } else {
      RunHalts(Shorter(r));
      assert r.moves[..n] == Shorter(r).moves;
      hide Moves, Halting, StopRank;
      StopFalls(r.worlds[n], s, m, t);
    }
  }

  /**
   A stop: from then on, and until a rescan or an event, the database is updated at most once more, and
   only by a worker that was about to do so; after seven steps the scanner is idle and its queue empty.
   */
  lemma StopStops(r: Run)
    requires IsRun(r) && r.moves != [] && r.moves[0] == Stop && r.states[0].status != Idle
    requires forall i :: 0 <= i < |r.moves| ==> Halts(r.moves[i])
    ensures UpdateCount(r) <= if r.states[0].stage.Storing? then 1 else 0
    ensures !r.states[0].stage.Storing? ==> Last(r).tree == r.states[0].tree
    ensures Worked(r.moves) >= 7 ==> Last(r).status == Idle && Last(r).queue == [] && Last(r).stage.Resting?
  {
    hide *;
    RunLength(r);
    RunHalts(r);
    Stopped(Last(r));
  }

  lemma RunLength(r: Run)
    requires IsRun(r)
    ensures |r.states| == |r.moves| + 1
    ensures r.moves == [] ==> Last(r) == r.states[0] && Worked(r.moves) == 0
  {
  }

  lemma Stopped(t: State)
    ensures Halting(t) && StopRank(t) == 0 ==> t.status == Idle && t.queue == [] && t.stage.Resting?
  {
  }

  // ---------------------------------------------------------- requests in the queue

  /** The directories found are different children of the directory that was listed. */
  ghost predicate FoundOk(stage: Stage) {
    match stage
    case Checking(ask, _, found) => Siblings(Asks(found, true), ask.at)
    case Storing(ask, _, found) => Siblings(Asks(found, true), ask.at)
    case Pausing(ask, found) => Siblings(Asks(found, true), ask.at)
    case Joining(ask, found) => Siblings(Asks(found, true), ask.at)
    case _ => true
  }

  ghost predicate Orderly(s: State) {
    Apart(s.queue) && FoundOk(s.stage)
  }

  lemma EnumeratedSiblings(list: seq<Address>, all: set<Address>, at: Address)
    requires Enumerates(list, all) && forall q :: q in all ==> q != [] && Front(q) == at
    ensures Siblings(Asks(list, true), at)
    ensures forall q :: q in list <==> q in all
  {
    forall q: Address
      ensures q in list <==> q in all
    {
      assert q in list <==> q in multiset(list);
    }
    forall q | q in list
      ensures multiset(list)[q] == 1
    {
    }
    OnceIsDistinct(list);
    forall i | 0 <= i < |list|
      ensures at < list[i] && |list[i]| == |at| + 1
    {
      assert list[i] in list;
      assert list[i] == Front(list[i]) + [list[i][|list[i]| - 1]];
    }
  }

  lemma ParentIs(found: seq<Address>, at: Address)
    requires Siblings(Asks(found, true), at)
    ensures found != [] ==> ParentOf(found) == at
  {
    if found != [] {
      assert at < Asks(found, true)[0].at == found[0];
      assert Front(found[0]) == found[0][..|at|] == at;
    }
  }

  lemma StoredSiblings(w: World, s: State, t: State)
    requires s.stage.Storing? && FoundOk(s.stage) && Works(w, s, [], t)
    ensures FoundOk(t.stage)
  {
    var at, listing := s.stage.ask.at, s.stage.listing;
    hide Reconciled, Finds;
    if CanFind(w, s.tree, at) {
      var target :| target in s.tree && Finds(w, at, target) &&
                    StoresAt(s.tree, target, s.stage.ask, listing, s.stage.found, t.tree, t.stage.found);
      if !s.stage.ask.recursive {
        EnumeratedSiblings(t.stage.found, Added(s.tree, target, at, listing), at);
      }
    }
  }

  lemma WorkKeepsOrder(w: World, s: State, events: seq<Address>, t: State)
    requires Orderly(s) && Works(w, s, events, t)
    ensures Orderly(t)
  {
    hide Stores, Enumerates, CanFind, EnqueuedAll, EnqueuedChildren, Siblings, Subdirs;
    if s.stage.Resting? {
      EnqueuedAllKeeps(s.queue, Asks(events, false), true, []);
    } else if s.stage.Joining? {
      JoinKeepsOrder(s, events);
    } else if s.stage.Storing? {
      StoredSiblings(w, s, t);
    } else if s.stage.Reading? {
      ReadSiblings(w, s, t);
    }
  }

  lemma JoinKeepsOrder(s: State, events: seq<Address>)
    requires Orderly(s) && s.stage.Joining?
    ensures Apart(Notified(WithFound(s, s.stage.found), events).queue)
  {
    hide EnqueuedAll, EnqueuedChildren, Siblings;
    var f := s.stage.found;
    ParentIs(f, s.stage.ask.at);
    if f != [] {
      ChildrenKeep(s.queue, ParentOf(f), Asks(f, true), false, []);
    }
    EnqueuedAllKeeps(WithFound(s, f).queue, Asks(events, false), true, []);
  }

  /** In every reachable state of the scanner, no two queued requests are for the same path. */
  lemma OrderlyKept(w: World, s: State, m: Move, t: State)
    requires Orderly(s) && Moves(w, s, m, t)
    ensures Orderly(t)
  {
    hide Stores, Enumerates, CanFind, EnqueuedAll, EnqueuedChildren, Enqueued, Siblings, Subdirs;
    match m {
      case Work(events) => WorkKeepsOrder(w, s, events, t);
      case Rescan(at) =>
        EnqueuedKeeps(s.queue, Ask(at, true), false, []);
      case _ =>
    }
  }

  lemma ReadSiblings(w: World, s: State, t: State)
    requires s.stage.Reading? && Works(w, s, [], t)
    ensures FoundOk(t.stage)
  {
    if s.stage.ask.recursive {
      EnumeratedSiblings(t.stage.found, Entered(w, s.status, s.stage.ask.at), s.stage.ask.at);
    }
  }

  lemma OrderlyApart(s: State)
    ensures Orderly(s) ==> Apart(s.queue)
  {
  }

  /** No queue of a run ever holds two requests for the same path. */
  lemma {:induction false} RunOrderly(r: Run)
    requires IsRun(r) && Orderly(r.states[0])
    ensures forall i :: 0 <= i < |r.states| ==> Apart(r.states[i].queue)
    ensures Orderly(Last(r))
    decreases |r.moves|
  {
    OrderlyApart(Last(r));
    hide Moves, Orderly, Apart;
    if r.moves != [] {
      ShorterRuns(r);
      RunOrderly(Shorter(r));
      OrderlyKept(r.worlds[|r.moves| - 1], Last(Shorter(r)), r.moves[|r.moves| - 1], Last(r));
      assert r.states == Shorter(r).states + [Last(r)];
    }
  }
}
