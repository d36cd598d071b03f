/** A rescan of one directory brings everything below it up to date again. */
module Rescans {
  import opened Trees
  import opened Reconcile
  import opened Mirror
  import opened ScanQueues
  import opened Snapshots
  import opened ScanRuns
  import opened FullScans
  import opened IncrementalUpdates

  /** From rest a directory is scanned again, and nothing but pauses and resumes comes in between. */
  ghost predicate IsRescan(w: World, t: Tree, d: Address, r: Run) {
    && IsRun(r) && Rests(t, r.states[0]) && r.moves != [] && r.moves[0] == Rescan(d)
    && forall i :: 0 <= i < |r.moves| ==> r.worlds[i] == w && (i > 0 ==> Quiet(r.moves[i]))
  }

  /** The directories at or below `d` that a scan enters. */
  ghost function ListablesBelow(w: World, d: Address): set<Address> {
    Left(w, {}, {d})
  }

  /** A rescan is at the front of the queue, and a worker that finds nothing to enter first takes it up next. */
  lemma RescanNext(w: World, s: State, at: Address, u: State, t: State)
    requires CanFind(w, s.tree, at) && Moves(w, s, Rescan(at), u)
    requires u.stage.Resting? || (u.stage.Joining? && u.stage.found == [])
    requires Works(w, u, [], t)
    ensures u.status == Scanning && u.queue != [] && u.queue[0] == Ask(at, true)
    ensures t.stage == Reading(Ask(at, true)) && t.queue == u.queue[1..] && t.status == Scanning
  {
    EnqueuedOrder(s.queue, Ask(at, true), false);
    hide Enqueued, CanFind;
    assert EnqueuedAll(u.queue, Asks([], false), true) == u.queue;
  }

  /** Events wait behind all other requests. */
  lemma {:induction false} EventsWait(q: seq<Ask>, events: seq<Address>)
    requires events != []
    ensures var e := EnqueuedAll(q, Asks(events, false), true);
            e != [] && e[|e| - 1] == Ask(events[|events| - 1], false)
    decreases |events|
  {
    var asks := Asks(events, false);
    var next := Enqueued(q, asks[0], true);
    assert asks[1..] == Asks(events[1..], false);
    EnqueuedOrder(q, asks[0], true);
    if |events| > 1 {
      EventsWait(next, events[1..]);
    } else {
      assert EnqueuedAll(next, [], true) == next;
    }
  }

  lemma LoneFrontier(w: World, d: Address)
    requires Listable(w, {}, d)
    ensures Frontier(w, {}, {d})
  {
  }

  /** The database finds the directory, and the request waits in the queue. */
  lemma RescanTracks(w: World, t: Tree, d: Address, s: State, u: State)
    requires Scannable(w) && Listable(w, {}, d) && Shows(w, {}, {d}, t)
    requires Rests(t, s) && Moves(w, s, Rescan(d), u)
    ensures Tracks(w, {}, u) && Pending(u) == {d} && u.status == Scanning && u.stage.Resting?
    ensures u.queue == [Ask(d, true)]
  {
    hide NoneCancels, IsFileSystem, Shows, Finds, Frontier;
    LoneFrontier(w, d);
    PendingShown(w, {}, {d}, t, d);
    ScannableIs(w);
    FindsItself(w, d, d);
    assert CanFind(w, t, d);
    assert Cleared([], d) == [] && u.queue == [Ask(d, true)];
    assert Queued([Ask(d, true)]) == {d};
    assert Pending(u) == {d} && u.tree == t && u.status == Scanning;
    assert Apart(u.queue) && HandOk(w, {}, u);
  }

  /** The run without its first move. */
  ghost function Rest(r: Run): Run
    requires IsRun(r) && r.moves != []
  {
    Run(r.states[1..], r.moves[1..], r.worlds[1..])
  }

  lemma RestRuns(w: World, t: Tree, d: Address, r: Run)
    requires IsRescan(w, t, d, r)
    ensures IsQuiet(w, Rest(r)) && Rest(r).states[0] == r.states[1] && Last(Rest(r)) == Last(r)
    ensures Moves(w, r.states[0], Rescan(d), r.states[1])
  {
    hide Moves;
    assert r.worlds[0] == w;
    forall i | 0 <= i < |Rest(r).moves|
      ensures Moves(Rest(r).worlds[i], Rest(r).states[i], Rest(r).moves[i], Rest(r).states[i + 1])
      ensures Rest(r).worlds[i] == w && Quiet(Rest(r).moves[i])
    {
      assert Rest(r).moves[i] == r.moves[i + 1];
    }
  }

  /** Asking for a rescan is neither a listing nor a step of the worker. */
  lemma {:induction false} RestCounts(w: World, t: Tree, d: Address, r: Run)
    requires IsRescan(w, t, d, r)
    ensures IsRun(Rest(r)) && Visits(r) == Visits(Rest(r)) && Effort(r) == Effort(Rest(r))
    decreases |r.moves|
  {
    RestRuns(w, t, d, r);
    ShorterRuns(r);
    hide Moves, Rests;
    if |r.moves| == 1 {
      OneMove(r);
    } else {
      var n := |r.moves| - 1;
      assert Shorter(r).moves[0] == r.moves[0];
      RestCounts(w, t, d, Shorter(r));
      ShorterRuns(Rest(r));
      assert Rest(Shorter(r)) == Shorter(Rest(r));
      assert Last(Shorter(r)) == r.states[n] == Last(Shorter(Rest(r))) && Rest(r).moves[n - 1] == r.moves[n];
    }
  }

  lemma OneMove(r: Run)
    requires IsRun(r) && |r.moves| == 1 && r.moves[0].Rescan?
    ensures IsRun(Rest(r)) && Visits(r) == Visits(Rest(r)) && Effort(r) == Effort(Rest(r))
  {
    ShorterRuns(r);
    assert Shorter(r).moves == [] && Rest(r).moves == [];
    assert Moves(r.worlds[0], r.states[0], r.moves[0], r.states[1]);
    assert Last(Shorter(r)) == r.states[0];
  }

  /**
   A rescan is exact: where the database shows everything but what is below `d`, and is out of date there
   in sizes, in entries that are missing and in entries that are gone, it shows everything when the scanner
   gets idle, and every directory at or below `d` that a scan enters was listed exactly once.
   */
  lemma RescanExact(w: World, t: Tree, d: Address, r: Run)
    requires Scannable(w) && Listable(w, {}, d) && Shows(w, {}, {d}, t)
    requires IsRescan(w, t, d, r) && Last(r).status == Idle
    ensures Last(r).tree == Visible(w, {})
    ensures multiset(Visits(r)) == multiset(ListablesBelow(w, d))
  {
    hide *;
    RescanHas(w, t, d, r);
    RestRuns(w, t, d, r);
    RescanTracks(w, t, d, r.states[0], r.states[1]);
    RunTracks(w, {}, Rest(r));
    RestCounts(w, t, d, r);
    IdleDone(w, {}, Last(r));
    LeftIs(w, d, r.states[1]);
    assert multiset(Visits(r)) + multiset{} == multiset(Visits(r));
  }

  lemma RescanHas(w: World, t: Tree, d: Address, r: Run)
    requires IsRescan(w, t, d, r)
    ensures IsRun(r) && |r.states| == |r.moves| + 1 && r.moves != [] && Rests(t, r.states[0])
  {
  }

  lemma LeftIs(w: World, d: Address, s: State)
    requires Pending(s) == {d}
    ensures LeftIn(w, {}, s) == ListablesBelow(w, d)
  {
    hide Pending;
  }

  /** A rescan takes five steps for each directory at or below `d` and four more, and then the scanner is idle. */
  lemma RescanEnds(w: World, t: Tree, d: Address, r: Run)
    requires Scannable(w) && Listable(w, {}, d) && Shows(w, {}, {d}, t) && IsRescan(w, t, d, r)
    ensures Effort(r) <= 5 * |ListablesBelow(w, d)| + 4
    ensures Effort(r) == 5 * |ListablesBelow(w, d)| + 4 ==> Last(r).status == Idle
  {
    hide *;
    RescanHas(w, t, d, r);
    RestRuns(w, t, d, r);
    RescanTracks(w, t, d, r.states[0], r.states[1]);
    EffortBounded(w, {}, Rest(r));
    RestCounts(w, t, d, r);
    LeftIs(w, d, r.states[1]);
    RankResting(w, r.states[1]);
    RankEnds(w, {}, Last(r));
  }

  lemma RankResting(w: World, s: State)
    requires s.status == Scanning && s.stage.Resting?
    ensures Rank(w, {}, s) == 5 * |LeftIn(w, {}, s)| + 4
  {
    hide LeftIn;
  }
}
