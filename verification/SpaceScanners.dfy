/** The scanner: its queue of requests, its database, and the steps of its worker thread. */
module SpaceScanners {
  import opened Crcs
  import opened Options
  import opened SizeBins
  import opened Forest
  import opened Trees
  import opened Reconcile
  import opened Mirror
  import opened FilePaths
  import opened Lookup
  import opened FileEntries
  import opened FileDBs
  import opened ScanQueues
  import opened Snapshots
  import opened ScanRuns
  import opened ScanPaths
  import opened FullScans
  import opened IncrementalUpdates

  datatype ScanRequest = ScanRequest(path: Path, recursive: bool)

  /** What an iterator over a directory comes across. */
  datatype Listed = Listed(name: string, dir: bool, size: int)

  /** Where the worker thread is while the scan lock is free. */
  datatype Position =
    | AtRest(slept: bool)
    | AtRead(request: ScanRequest)
    | AtCheck(request: ScanRequest)
    | AtStore(request: ScanRequest)
    | AtPause(request: ScanRequest)
    | AtJoin(request: ScanRequest)
    | AtBreak
    | AtEnd

  ghost function NamesIn(pl: Platform, p: Path): Address {
    if p.parts == [] then [] else Names(pl, p)
  }

  ghost function AskOf(pl: Platform, r: ScanRequest): Ask {
    Ask(NamesIn(pl, r.path), r.recursive)
  }

  ghost function AsksOf(pl: Platform, q: seq<ScanRequest>): seq<Ask> {
    seq(|q|, i requires 0 <= i < |q| => AskOf(pl, q[i]))
  }

  ghost function ChainsOf(pl: Platform, paths: seq<Path>): seq<Address> {
    seq(|paths|, i requires 0 <= i < |paths| => NamesIn(pl, paths[i]))
  }

  lemma AsksCut(pl: Platform, q: seq<ScanRequest>, i: nat)
    requires i < |q|
    ensures AsksOf(pl, q[i..]) == [AskOf(pl, q[i])] + AsksOf(pl, q[i + 1..])
    ensures AsksOf(pl, q[..i + 1]) == AsksOf(pl, q[..i]) + [AskOf(pl, q[i])]
    ensures (q[..i] + q[i + 1..])[..i] == q[..i] && (q[..i] + q[i + 1..])[i..] == q[i + 1..]
  {
  }

  lemma AsksWhole(pl: Platform, q: seq<ScanRequest>)
    ensures AsksOf(pl, []) == [] && q[..0] == [] && q[0..] == q && q[..|q|] == q && q[|q|..] == []
    ensures forall a: seq<Ask> :: [] + a == a && a + [] == a
  {
  }

  lemma AsksJoin(pl: Platform, a: seq<ScanRequest>, b: seq<ScanRequest>)
    ensures AsksOf(pl, a + b) == AsksOf(pl, a) + AsksOf(pl, b)
  {
  }

  lemma OneAsk(pl: Platform, r: ScanRequest)
    ensures AsksOf(pl, [r]) == [AskOf(pl, r)]
  {
  }

  /** One step of the search for requests that a new one makes superfluous. */
  lemma ClearedStep(q: seq<Ask>, a: Ask, at: Address)
    ensures var rest := Cleared(q, at);
            Cleared([a] + q, at) ==
              match PrefixOrder(at, a.at)
              case Different => [a] + rest
              case Child => [a] + rest
              case Parent => rest
              case Equal => q
    ensures Cleared([], at) == []
    ensures forall b: seq<Ask>, c: seq<Ask> :: b + ([a] + c) == (b + [a]) + c
  {
    assert ([a] + q)[1..] == q;
  }

  class SpaceScanner {
    const db: FileDB
    var scanQueue: seq<ScanRequest>
    var scannerStatus: Status
    var currentScannedPath: Option<Path>
    var availableRoots: seq<string>
    var excludedMounts: seq<string>
    /** The worker thread: where it is, and its local variables. */
    var position: Position
    var scannedEntries: seq<FileEntry>
    var newPaths: seq<Path>
    /** What the scanned entries say. */
    ghost var scanned: Listing

    /** A path of a directory at or below the root of the database. */
    ghost predicate Proper(p: Path) {
      DirPath(db.platform, db.hash, db.rootFile.name, p)
    }

    ghost predicate AllProper(q: seq<ScanRequest>) {
      forall i :: 0 <= i < |q| ==> Proper(q[i].path)
    }

    /** Paths of different children of one directory. */
    ghost predicate ProperChildren(paths: seq<Path>) {
      && (forall i :: 0 <= i < |paths| ==> Proper(paths[i]) && |paths[i].parts| > 1)
      && Siblings(Asks(ChainsOf(db.platform, paths), true), ParentOf(ChainsOf(db.platform, paths)))
    }

    /** Paths of children of the directory at `p`. */
    ghost predicate ChildrenOf(paths: seq<Path>, p: Path) {
      && (forall i :: 0 <= i < |paths| ==> Proper(paths[i]))
      && Siblings(Asks(ChainsOf(db.platform, paths), true), NamesIn(db.platform, p))
    }

    /** What the worker holds fits where it is. */
    ghost predicate HandsOk()
      reads `position, `newPaths, `scannedEntries, `scanned, db`S
      reads scannedEntries`children, scannedEntries`bins, scannedEntries`pendingDelete, scannedEntries`size
    {
      match position
      case AtRead(r) => Proper(r.path) && newPaths == [] && scannedEntries == []
      case AtCheck(r) => Proper(r.path) && ChildrenOf(newPaths, r.path) && EntriesOk() &&
        (r.recursive || newPaths == [])
      case AtStore(r) => Proper(r.path) && ChildrenOf(newPaths, r.path) && EntriesOk() &&
        (r.recursive || newPaths == [])
      case AtPause(r) => Proper(r.path) && ChildrenOf(newPaths, r.path) && scannedEntries == []
      case AtJoin(r) => Proper(r.path) && ChildrenOf(newPaths, r.path) && scannedEntries == []
      case _ => newPaths == [] && scannedEntries == []
    }

    ghost predicate EntriesOk()
      reads `scannedEntries, `scanned, db`S
      reads scannedEntries`children, scannedEntries`bins, scannedEntries`pendingDelete, scannedEntries`size
    {
      && Lists(scannedEntries, scanned) && Waits(scannedEntries, db.hash, scanned)
      && forall e :: e in scannedEntries ==> e !in db.S && IsName(db.platform, e.name)
    }

    ghost predicate Valid()
      reads this, db, db.S
      reads scannedEntries`children, scannedEntries`bins, scannedEntries`pendingDelete, scannedEntries`size
    {
      db.Valid() && IsNormal(db.platform, db.rootFile.name, Add) && AllProper(scanQueue) && HandsOk()
    }

    /** The world that the database is about. */
    ghost predicate Fits(w: World) {
      w.hash == db.hash && w.rootName == db.rootFile.name
    }

    /** The directories to be skipped are the mount points known to the scanner. */
    ghost predicate SkipsMounts(w: World)
      reads `availableRoots, `excludedMounts
    {
      forall q: Address :: w.skip(q) <==>
        MountText(db.platform, db.rootFile.name, q) in availableRoots ||
          MountText(db.platform, db.rootFile.name, q) in excludedMounts
    }

    /** `iterate` comes across what is in the directories of the world. */
    ghost predicate Iterates(iterate: Path -> seq<Listed>, w: World) {
      forall p: Path {:trigger iterate(p)} ::
        (Proper(p) && NamesIn(db.platform, p) in w.fs && w.fs[NamesIn(db.platform, p)].dir) ==>
        Iterated(db.platform, iterate(p), ListingOf(w.fs, NamesIn(db.platform, p)))
    }

    /** The scan or update is under way, in a world in which everything can be found. */
    ghost predicate OnTrack(w: World, task: Task)
      reads this, db, db.S
    {
      && TreeOk(db.S, db.rootFile, db.hash) && Scannable(w) && (forall q :: q in w.fs ==> w.fs[q].own >= 0)
      && UnderWay(w, task, Abs()) && Tidy(Snap(db.S))
    }

    ghost function Queue(): seq<Ask>
      reads `scanQueue
    {
      AsksOf(db.platform, scanQueue)
    }

    /** The tree that the database shows, the queue, the status, and where the worker is. */
    ghost function Abs(): State
      reads this, db, db.S
      requires TreeOk(db.S, db.rootFile, db.hash)
    {
      TreeParts(db.S, db.rootFile, db.hash);
      State(TreeOf(Snap(db.S), db.rootFile), Queue(), scannerStatus, StageOf())
    }

    ghost function StageOf(): Stage
      reads `position, `newPaths, `scanned
    {
      var pl := db.platform;
      match position
      case AtRest(slept) => Resting(slept)
      case AtRead(r) => Reading(AskOf(pl, r))
      case AtCheck(r) => Checking(AskOf(pl, r), scanned, ChainsOf(pl, newPaths))
      case AtStore(r) => Storing(AskOf(pl, r), scanned, ChainsOf(pl, newPaths))
      case AtPause(r) => Pausing(AskOf(pl, r), ChainsOf(pl, newPaths))
      case AtJoin(r) => Joining(AskOf(pl, r), ChainsOf(pl, newPaths))
      case AtBreak => Breaking
      case AtEnd => Ending
    }

    /** A scanner at the start of a full scan. */
    constructor (platform: Platform, hash: string -> Crc, path: string, availableRoots: seq<string>,
                 excludedMounts: seq<string>)
      requires path != ""
      ensures Valid() && fresh(db) && fresh(db.S) && db.hash == hash && db.platform == platform
      ensures Abs() == Start() && Tidy(Snap(db.S)) && db.rootFile.name == Normalized(platform, path, Add)
      ensures this.availableRoots == availableRoots && this.excludedMounts == excludedMounts
      ensures forall w :: Fits(w) && Scannable(w) && (forall q :: q in w.fs ==> w.fs[q].own >= 0) ==> OnTrack(w, Scan)
    {
      hide *;
      var d := new FileDB(platform, hash, path);
      db, scannerStatus := d, Scanning;
      this.availableRoots, this.excludedMounts := availableRoots, excludedMounts;
      scanQueue, currentScannedPath, position := [], None, AtRest(false);
      scannedEntries, newPaths, scanned := [], [], map[];
      new;
      RootEnds(platform, path);
      OfferedIs(db.rootFile, hash);
      RootProper(this);
      AddToQueue(db.rootPath, true, true);
      StartsHere(this);
      RootNormal(platform, path);
      EmptyHands(this);
      ScannerValid(this);
      StartsTidy(this);
      ScannerIs(this);
      StartsOnTrack(this);
    }

    // ----------------------------------------------------------------- the queue

    /** Adds a request, and takes out those at or below its path. */
    method AddToQueue(path: Path, recursiveScan: bool, toBack: bool)
      requires AllProper(scanQueue) && Proper(path)
      modifies `scanQueue
      ensures AllProper(scanQueue)
      ensures Queue() == Enqueued(old(Queue()), Ask(NamesIn(db.platform, path), recursiveScan), toBack)
    {
      hide *;
      var pl := db.platform;
      ghost var at := NamesIn(pl, path);
      ghost var all := Cleared(Queue(), at);
      QueueIs(this);
      AsksWhole(pl, scanQueue);
      var it := 0;
      while it < |scanQueue|
        invariant it <= |scanQueue| && AllProper(scanQueue)
        invariant AsksOf(pl, scanQueue[..it]) + Cleared(AsksOf(pl, scanQueue[it..]), at) == all
        decreases |scanQueue| - it
      {
        ProperHas(this, scanQueue, it);
        ComparedNames(this, path, scanQueue[it].path);
        AsksCut(pl, scanQueue, it);
        AskIs(pl, scanQueue[it]);
        ClearedStep(AsksOf(pl, scanQueue[it + 1..]), AskOf(pl, scanQueue[it]), at);
        var res := Compare(path, scanQueue[it].path);
        if res == Different || res == Child {
          it := it + 1;
        } else if res == Parent {
          scanQueue := scanQueue[..it] + scanQueue[it + 1..];
        } else {
          AsksJoin(pl, scanQueue[..it], scanQueue[it + 1..]);
          scanQueue := scanQueue[..it] + scanQueue[it + 1..];
          break;
        }
      }
      AsksWhole(pl, scanQueue);
      ClearedNothing(at);
      assert AsksOf(pl, scanQueue) == all;
      EnqueuedIs(old(Queue()), Ask(at, recursiveScan), toBack);
      AskIs(pl, ScanRequest(path, recursiveScan));
      QueueIs(this);
      PutQueue(ScanRequest(path, recursiveScan), toBack);
    }

    method PutQueue(request: ScanRequest, toBack: bool)
      requires AllProper(scanQueue) && Proper(request.path)
      modifies `scanQueue
      ensures AllProper(scanQueue)
      ensures Queue() == PutIn(old(Queue()), AskOf(db.platform, request), toBack)
    {
      hide *;
      QueueIs(this);
      OneAsk(db.platform, request);
      PutIs(Queue(), AskOf(db.platform, request), toBack);
      MoreProper(this, scanQueue, request);
      if toBack {
        AsksJoin(db.platform, scanQueue, [request]);
        scanQueue := scanQueue + [request];
      } else {
        AsksJoin(db.platform, [request], scanQueue);
        scanQueue := [request] + scanQueue;
      }
      QueueIs(this);
    }

    /** Adds requests for children of one directory, all at once where that is safe. */
    method AddChildrenToQueue(paths: seq<Path>, recursiveScan: bool, toBack: bool)
      requires AllProper(scanQueue) && ProperChildren(paths) && paths != []
      modifies `scanQueue
      ensures AllProper(scanQueue)
      ensures var chains := ChainsOf(db.platform, paths);
              Queue() == EnqueuedChildren(old(Queue()), ParentOf(chains), Asks(chains, recursiveScan), toBack)
    {
      hide *;
      var pl := db.platform;
      ghost var asks := Asks(ChainsOf(pl, paths), recursiveScan);
      ghost var at, all := ParentOf(ChainsOf(pl, paths)), Queue();
      ChildPaths(this, paths);
      ParentPath(this, paths);
      QueueLength(this);
      var parent := Up(paths[0]);
      var it, safeToBatchAdd := 0, true;
      while it < |scanQueue|
        invariant it <= |scanQueue| && |all| == |scanQueue| && Queue() == all && AllProper(scanQueue)
        invariant forall j :: 0 <= j < it ==> PrefixOrder(at, all[j].at) == Different
      {
        ProperHas(this, scanQueue, it);
        ComparedNames(this, parent, scanQueue[it].path);
        QueueAt(this, it);
        var res := Compare(parent, scanQueue[it].path);
        if res == Different {
          it := it + 1;
        } else if res == Child && scanQueue[it].recursive {
          FirstRelatedIs(all, at, it);
          EnqueuedChildrenIs(all, at, asks, toBack);
          return;
        } else {
          safeToBatchAdd := false;
          break;
        }
      }
      FirstRelatedIs(all, at, it);
      EnqueuedChildrenIs(all, at, asks, toBack);
      if safeToBatchAdd {
        AddBatch(paths, recursiveScan, toBack);
      } else {
        AddEach(paths, recursiveScan, toBack);
      }
    }

    method AddBatch(paths: seq<Path>, recursiveScan: bool, toBack: bool)
      requires AllProper(scanQueue) && ProperChildren(paths)
      modifies `scanQueue
      ensures AllProper(scanQueue)
      ensures Queue() == Batched(old(Queue()), Asks(ChainsOf(db.platform, paths), recursiveScan), toBack)
    {
      hide *;
      ChildPaths(this, paths);
      ghost var asks := Asks(ChainsOf(db.platform, paths), recursiveScan);
      ghost var all := Batched(Queue(), asks, toBack);
      AsksAll(db.platform, paths, recursiveScan);
      for i := 0 to |paths|
        invariant AllProper(scanQueue) && |asks| == |paths|
        invariant Batched(Queue(), asks[i..], toBack) == all
      {
        AskAt(db.platform, paths, recursiveScan, i);
        AskIs(db.platform, ScanRequest(paths[i], recursiveScan));
        BatchedStep(Queue(), asks[i..], toBack);
        PutQueue(ScanRequest(paths[i], recursiveScan), toBack);
      }
      BatchedStep(Queue(), [], toBack);
    }

    method AddEach(paths: seq<Path>, recursiveScan: bool, toBack: bool)
      requires AllProper(scanQueue) && ProperChildren(paths)
      modifies `scanQueue
      ensures AllProper(scanQueue)
      ensures Queue() == EnqueuedAll(old(Queue()), Asks(ChainsOf(db.platform, paths), recursiveScan), toBack)
    {
      hide *;
      ChildPaths(this, paths);
      ghost var asks := Asks(ChainsOf(db.platform, paths), recursiveScan);
      ghost var all := EnqueuedAll(Queue(), asks, toBack);
      AsksAll(db.platform, paths, recursiveScan);
      for i := 0 to |paths|
        invariant AllProper(scanQueue) && |asks| == |paths|
        invariant EnqueuedAll(Queue(), asks[i..], toBack) == all
      {
        AskAt(db.platform, paths, recursiveScan, i);
        EnqueuedStep(Queue(), asks[i..], toBack);
        AddToQueue(paths[i], recursiveScan, toBack);
      }
      EnqueuedStep(Queue(), [], toBack);
    }

    /** Queues a request for each watcher event whose path is at or below the root. */
    method CheckForEvents(events: seq<string>)
      requires AllProper(scanQueue) && IsNormal(db.platform, db.rootFile.name, Add) && DirTexts(db.platform, events)
      modifies `scanQueue, `scannerStatus
      ensures AllProper(scanQueue)
      ensures var chains := EventChains(db.platform, db.hash, db.rootFile.name, events);
              && Queue() == EnqueuedAll(old(Queue()), Asks(chains, false), true)
              && scannerStatus == if chains == [] then old(scannerStatus) else Scanning
    {
      hide *;
      var pl, root := db.platform, db.rootFile.name;
      ghost var all, chains := EnqueuedAll(Queue(), Asks(EventChains(pl, db.hash, root, events), false), true), [];
      AsksWholeList(events);
      for i := 0 to |events|
        invariant AllProper(scanQueue)
        invariant EventChains(pl, db.hash, root, events) == chains + EventChains(pl, db.hash, root, events[i..])
        invariant EnqueuedAll(Queue(), Asks(EventChains(pl, db.hash, root, events[i..]), false), true) == all
        invariant scannerStatus == if chains == [] then old(scannerStatus) else Scanning
      {
        EventStep(pl, db.hash, root, events, i);
        if events[i] != "" {
          var path := FilePath.FromText(pl, db.hash, events[i], root);
          if path != null {
            PathIs(path);
            EventProper(this, events, i);
            EnqueuedStep(Queue(), Asks(EventChains(pl, db.hash, root, events[i..]), false), true);
            AddToQueue(Path(path.parts, path.pathCrcs), false, true);
            scannerStatus := Scanning;
            chains := chains + [NamesIn(pl, Path(path.parts, path.pathCrcs))];
          }
        }
      }
      EventsEnd(pl, db.hash, root, Queue());
    }

    // ----------------------------------------------------------- calls from outside

    /** Pauses a scan that is running. */
    method PauseScan(ghost w: World) returns (paused: bool)
      requires Valid()
      modifies `scannerStatus
      ensures Valid() && paused == (old(scannerStatus) == Scanning)
      ensures Moves(w, old(Abs()), Pause, Abs())
      ensures if paused then scannerStatus == Paused else scannerStatus == old(scannerStatus)
    {
      hide Works, TreeOf, Snap, Stores;
      if scannerStatus == Scanning {
        scannerStatus := Paused;
        return true;
      }
      return false;
    }

    method ResumeScan(ghost w: World) returns (resumed: bool)
      requires Valid()
      modifies `scannerStatus
      ensures Valid() && resumed == (old(scannerStatus) == Paused)
      ensures Moves(w, old(Abs()), Resume, Abs())
      ensures if resumed then scannerStatus == Scanning else scannerStatus == old(scannerStatus)
    {
      hide Works, TreeOf, Snap, Stores;
      if scannerStatus == Paused {
        scannerStatus := Scanning;
        return true;
      }
      return false;
    }

    /** Asks the worker to stop; the caller then waits until the scanner is idle. */
    method StopScan(ghost w: World)
      requires Valid()
      modifies `scannerStatus
      ensures Valid() && Moves(w, old(Abs()), Stop, Abs())
      ensures scannerStatus == if old(scannerStatus) == Idle then Idle else Stopping
    {
      hide Works, TreeOf, Snap, Stores;
      if scannerStatus != Stopping && scannerStatus != Idle {
        scannerStatus := Stopping;
      }
    }

    /** Scans a directory again, if the database knows it, with fresh information about mount points. */
    method RescanPath(folderPath: Path, availableRoots': seq<string>, excludedMounts': seq<string>, ghost w: World)
      requires Valid() && Proper(folderPath) && Fits(w)
      modifies `scannerStatus, `scanQueue, `availableRoots, `excludedMounts
      ensures Valid() && Moves(w, old(Abs()), Rescan(NamesIn(db.platform, folderPath)), Abs())
      ensures CanFind(w, old(Abs()).tree, NamesIn(db.platform, folderPath)) ==>
                scannerStatus == Scanning && availableRoots == availableRoots' && excludedMounts == excludedMounts'
      ensures !CanFind(w, old(Abs()).tree, NamesIn(db.platform, folderPath)) ==> unchanged(this)
    {
      hide *;
      ScannerIs(this);
      AbsIs(this);
      ProperIs(this, folderPath);
      FoundIff(this, folderPath, w);
      var entry := db.FindEntry(folderPath);
      RescanIs(w, Abs(), NamesIn(db.platform, folderPath));
      if entry == null {
        return;
      }
      scannerStatus := Scanning;
      availableRoots, excludedMounts := availableRoots', excludedMounts';
      AddToQueue(folderPath, true, false);
      ScannerValid(this);
      AbsIs(this);
    }

    // ---------------------------------------------------------- steps of the worker

    /** The head of the scan loop, with the lock held: the next request, or the end of the scan. */
    method TakeNext()
      requires TreeOk(db.S, db.rootFile, db.hash) && AllProper(scanQueue) && newPaths == [] && scannedEntries == []
      modifies `scanQueue, `position, `currentScannedPath
      ensures AllProper(scanQueue) && HandsOk()
      ensures Abs() == Next(old(Abs()))
    {
      hide *;
      AbsIs(this);
      NextIs(this, Abs());
      if scanQueue != [] && scannerStatus != Idle {
        QueueIs(this);
        var scanRequest := scanQueue[0];
        FirstRequest(this);
        scanQueue := scanQueue[1..];
        currentScannedPath := Some(scanRequest.path);
        position := AtRead(scanRequest);
        ReadHands(this);
      } else {
        scanQueue := [];
        currentScannedPath := None;
        position := AtEnd;
        EmptyHands(this);
      }
      QueueIs(this);
      AbsIs(this);
    }

    /** The top of the worker's loop: takes the lock, and waits while there is nothing to do. */
    method EnterLoop(events: seq<string>, ghost w: World)
      requires Valid() && position.AtRest? && (position.slept || events == []) && DirTexts(db.platform, events)
      modifies `scanQueue, `scannerStatus, `position, `currentScannedPath
      ensures Valid() && Works(w, old(Abs()), EventChains(db.platform, db.hash, db.rootFile.name, events), Abs())
    {
      hide *;
      ScannerIs(this);
      RestHands(this);
      AbsIs(this);
      ghost var s, chains := Abs(), EventChains(db.platform, db.hash, db.rootFile.name, events);
      NoEvents(db.platform, db.hash, db.rootFile.name, s);
      NotifiedIs(s, chains);
      RestWorks(w, s, chains);
      if position.slept {
        CheckForEvents(events);
      }
      QueueLength(this);
      AbsIs(this);
      assert Abs() == Notified(s, chains);
      if scanQueue == [] && scannerStatus == Idle {
        position := AtRest(true);
        EmptyHands(this);
        AbsIs(this);
      } else {
        TakeNext();
      }
      ScannerValid(this);
    }

    /** The text under which a subdirectory would be known as a mount point. */
    method MountPoint(path: Path, name: string) returns (text: string)
      requires Proper(path) && IsName(db.platform, name)
      ensures text == MountText(db.platform, db.rootFile.name, NamesIn(db.platform, path) + [name])
    {
      hide *;
      ProperIs(this, path);
      TextOfNames(db.platform, db.hash, db.rootFile.name, path);
      MountStep(db.platform, db.rootFile.name, NamesIn(db.platform, path), name);
      NameIs(db.platform, name);
      TextEnds(Concat(path.parts), name, db.platform.Sep());
      var sep := db.platform.Sep();
      text := Concat(path.parts);
      if text[|text| - 1] != sep {
        text := text + [sep];
      }
      text := text + name;
      if text[|text| - 1] != sep {
        text := text + [sep];
      }
    }

    /** Makes an entry for everything found, and for a recursive request also the paths to be entered. */
    method ReadDirectory(request: ScanRequest, found: seq<Listed>, ghost w: World)
      requires Proper(request.path) && newPaths == [] && scannedEntries == [] && SkipsMounts(w)
      requires Iterated(db.platform, found, ListingOf(w.fs, NamesIn(db.platform, request.path)))
      requires request.path.crcs != []
      modifies `newPaths, `scannedEntries
      ensures var E := Entered(w, scannerStatus, NamesIn(db.platform, request.path));
              newPaths == if request.recursive then PathsFor(db.platform, db.hash, request.path, found, E) else []
      ensures EntriesFor(db.hash, found, scannedEntries)
      ensures forall e :: e in scannedEntries ==> fresh(e)
    {
      hide *;
      var path := request.path;
      ghost var listing := ListingOf(w.fs, NamesIn(db.platform, path));
      ghost var E := Entered(w, scannerStatus, NamesIn(db.platform, path));
      NothingFound(db.platform, db.hash, path, E, found);
      for i := 0 to |found|
        invariant newPaths == if request.recursive then PathsFor(db.platform, db.hash, path, found[..i], E) else []
        invariant EntriesFor(db.hash, found[..i], scannedEntries)
        invariant forall e :: e in scannedEntries ==> fresh(e)
      {
        IteratedAt(db.platform, found, listing, i);
        EnteredIff(this, w, path, found, i);
        PathsNext(db.platform, db.hash, path, found, i, E);
        var doScan := found[i].dir;
        if doScan && scannerStatus != Stopping {
          var newPath := MountPoint(path, found[i].name);
          if newPath in availableRoots || newPath in excludedMounts {
            doScan := false;
          }
        }
        var fe := FileEntry.Create(db.hash, found[i].name, found[i].dir, found[i].size);
        OfferedIs(fe, db.hash);
        if doScan && request.recursive {
          newPaths := newPaths + [WithDir(db.platform, db.hash, path, found[i].name, fe.nameCrc)];
        }
        EntriesNext(db.hash, found, i, scannedEntries, fe);
        scannedEntries := scannedEntries + [fe];
      }
      AllFound(found);
    }

    /** Lists the directory of the request at hand. */
    method ScanChildrenAt(found: seq<Listed>, ghost w: World)
      requires Valid() && position.AtRead? && Fits(w) && SkipsMounts(w)
      requires Iterated(db.platform, found, ListingOf(w.fs, NamesIn(db.platform, position.request.path)))
      modifies `position, `newPaths, `scannedEntries, `scanned
      ensures Valid() && Works(w, old(Abs()), [], Abs())
      ensures forall e :: e in scannedEntries ==> fresh(e)
    {
      hide *;
      ScannerIs(this);
      AbsIs(this);
      ReadIs(this);
      var request := position.request;
      ghost var s := Abs();
      ProperIs(this, request.path);
      AskIs(db.platform, request);
      ReadDirectory(request, found, w);
      position := AtCheck(request);
      scanned := ListingOf(w.fs, NamesIn(db.platform, request.path));
      EntriesList(db.platform, db.hash, found, scannedEntries, scanned);
      FoundChains(this, w, request.path, found, scannerStatus);
      ScannedHands(this, request);
      AbsIs(this);
      ScannerValid(this);
      ReadWorks(w, s, Abs());
    }

    /** Notices whether the scan is to be stopped. */
    method CheckStop(ghost w: World)
      requires Valid() && position.AtCheck?
      modifies `position, `newPaths, `scannedEntries
      ensures Valid() && Works(w, old(Abs()), [], Abs())
      ensures scannedEntries == old(scannedEntries) || scannedEntries == []
    {
      hide Stores, TreeOf, Snap, Enumerates, Siblings, DirPath, Waits, Lists, EnqueuedAll, EnqueuedChildren;
      if scannerStatus == Stopping {
        position, newPaths, scannedEntries := AtBreak, [], [];
      } else {
        position := AtStore(position.request);
      }
    }

    /** What the database finds for the request is a directory, and no listed size is negative. */
    ghost predicate FindsDirs(w: World)
      requires position.AtStore? && TreeOk(db.S, db.rootFile, db.hash)
      reads this, db, db.S
    {
      && (forall n :: n in scanned ==> scanned[n].size >= 0)
      && forall q :: q in Abs().tree && Finds(w, NamesIn(db.platform, position.request.path), q) ==> Abs().tree[q].dir
    }

    /** Updates the database; after a request that is not recursive, the new directories are to be scanned, too. */
    method StoreEntries(ghost w: World)
      requires Valid() && position.AtStore? && Fits(w)
      modifies `position, `newPaths, `scannedEntries, db, db.S, scannedEntries
      ensures Valid()
      ensures old(Tidy(Snap(db.S))) ==> Works(w, old(Abs()), [], Abs())
      ensures old(Tidy(Snap(db.S)) && FindsDirs(w)) ==> Tidy(Snap(db.S))
      ensures scannedEntries == [] && forall e :: e in db.S ==> e in old(db.S) || e in old(scannedEntries)
    {
      hide *;
      ScannerIs(this);
      AbsIs(this);
      StoreIs(this);
      var request := position.request;
      ProperIs(this, request.path);
      AskIs(db.platform, request);
      FoundIff(this, request.path, w);
      TreeParts(db.S, db.rootFile, db.hash);
      ghost var s, f0, entries := Abs(), Snap(db.S), scannedEntries;
      StoreTargets(this, request.path, w);
      FoundDirs(this, w);
      var ok, paths, target, added := db.SetChildrenForPath(request.path, scannedEntries, !request.recursive, scanned);
      if !request.recursive {
        newPaths := paths;
      }
      scannedEntries, position := [], AtPause(request);
      ValidParts(db);
      AbsIs(this);
      if ok {
        JoinedFrom(added, entries, f0.Keys, db.S);
        NewPathsAre(this, f0, request.path, target, added, entries);
        TidyStays(f0, Snap(db.S), db.rootFile, db.platform, request.path, target, scanned);
        if Tidy(f0) {
          StoreWorks(w, s, Abs(), Chain(f0, db.rootFile, target));
        }
      } else {
        NothingStored(this, request);
        StoreFails(w, s, Abs());
      }
      StoredHands(this, request);
      ScannerValid(this);
    }

    /** Waits for as long as the scan is paused. */
    method CheckPause(ghost w: World)
      requires Valid() && position.AtPause?
      modifies `position
      ensures Valid() && Works(w, old(Abs()), [], Abs())
    {
      hide Stores, TreeOf, Snap, Enumerates, Siblings, DirPath, Waits, Lists, EnqueuedAll, EnqueuedChildren;
      if scannerStatus != Paused {
        position := AtJoin(position.request);
      }
    }

    /** Queues the directories found, looks for events, and goes on with the next request. */
    method JoinQueue(events: seq<string>, ghost w: World)
      requires Valid() && position.AtJoin? && DirTexts(db.platform, events)
      modifies `scanQueue, `scannerStatus, `position, `currentScannedPath, `newPaths
      ensures Valid() && Works(w, old(Abs()), EventChains(db.platform, db.hash, db.rootFile.name, events), Abs())
    {
      hide *;
      ScannerIs(this);
      JoinHands(this);
      AbsIs(this);
      ghost var s, chains := Abs(), EventChains(db.platform, db.hash, db.rootFile.name, events);
      JoinWorks(w, s, chains);
      JoinedIs(s, s.stage.found);
      NotifiedIs(WithFound(s, s.stage.found), chains);
      NextDropsStage(Notified(WithFound(s, s.stage.found), chains));
      if newPaths != [] {
        AddChildrenToQueue(newPaths, true, false);
        newPaths := [];
      }
      CheckForEvents(events);
      position := AtEnd;
      AbsIs(this);
      NextDropsStage(Abs());
      TakeNext();
      ScannerValid(this);
    }

    /** Clears the queue after a scan was stopped. */
    method BreakOff(ghost w: World)
      requires Valid() && position.AtBreak?
      modifies `scanQueue, `position, `currentScannedPath
      ensures Valid() && Works(w, old(Abs()), [], Abs())
    {
      hide Stores, TreeOf, Snap, Enumerates, Siblings, DirPath, Waits, Lists, EnqueuedAll, EnqueuedChildren;
      scanQueue, currentScannedPath, position := [], None, AtEnd;
      assert Queue() == [];
    }

    /** The scan is over. */
    method GoIdle(ghost w: World)
      requires Valid() && position.AtEnd?
      modifies `scannerStatus, `position
      ensures Valid() && Works(w, old(Abs()), [], Abs())
    {
      hide Stores, TreeOf, Snap, Enumerates, Siblings, DirPath, Waits, Lists, EnqueuedAll, EnqueuedChildren;
      scannerStatus, position := Idle, AtRest(false);
    }

    // -------------------------------------------------------------- the whole worker

    /** One step of the worker on its own, with `iterate` for the file system. */
    method WorkerStep(iterate: Path -> seq<Listed>, ghost w: World, ghost task: Task)
      requires Valid() && Fits(w) && SkipsMounts(w) && Iterates(iterate, w)
      requires OnTrack(w, task) && scannerStatus == Scanning
      modifies this, db, db.S, scannedEntries
      ensures Valid() && SkipsMounts(w) && OnTrack(w, task) && (scannerStatus == Scanning || scannerStatus == Idle)
      ensures TaskRank(w, task, Abs()) < TaskRank(w, task, old(Abs()))
      ensures forall e :: e in db.S ==> e in old(db.S) || e in old(scannedEntries)
      ensures forall e :: e in scannedEntries ==> fresh(e) || e in old(scannedEntries)
    {
      hide *;
      ScannerIs(this);
      OnTrackHas(this, w, task);
      ghost var s := Abs();
      AbsIs(this);
      NoTexts(db.platform, db.hash, db.rootFile.name);
      match position {
        case AtRest(_) => EnterLoop([], w);
        case AtRead(request) =>
          IterateAt(this, iterate, w);
          ScanChildrenAt(iterate(request.path), w);
        case AtCheck(_) => CheckStop(w);
        case AtStore(_) => StoreEntries(w);
        case AtPause(_) => CheckPause(w);
        case AtJoin(_) => JoinQueue([], w);
        case AtBreak => BreakOff(w);
        case AtEnd => GoIdle(w);
      }
      ScannerIs(this);
      AbsIs(this);
      StillOnTrack(this, w, task, s);
    }

    /** The worker on its own, from wherever it is until it gets idle. */
    method WorkerRun(iterate: Path -> seq<Listed>, ghost w: World, ghost task: Task)
      requires Valid() && Fits(w) && SkipsMounts(w) && Iterates(iterate, w)
      requires OnTrack(w, task) && (scannerStatus == Scanning || scannerStatus == Idle)
      modifies this, db, db.S, scannedEntries
      ensures Valid() && SkipsMounts(w) && Tidy(Snap(db.S)) && Rests(Visible(w, LetIn(w, task)), Abs())
      ensures forall e :: e in db.S ==> fresh(e) || e in old(db.S) || e in old(scannedEntries)
    {
      hide *;
      ScannerIs(this);
      while scannerStatus != Idle
        invariant Valid() && TreeOk(db.S, db.rootFile, db.hash)
        invariant SkipsMounts(w) && OnTrack(w, task) && (scannerStatus == Scanning || scannerStatus == Idle)
        invariant forall e :: e in db.S ==> fresh(e) || e in old(db.S) || e in old(scannedEntries)
        invariant forall e :: e in scannedEntries ==> fresh(e) || e in old(scannedEntries)
        decreases TaskRank(w, task, Abs())
      {
        assert forall i :: 0 <= i < |scannedEntries| ==> scannedEntries[i] in scannedEntries;
        WorkerStep(iterate, w, task);
        ScannerIs(this);
      }
      OnTrackEnds(this, w, task);
    }

    /** From rest, the worker notices events for directory `d`, and goes on until it is at rest again. */
    method WorkerUpdate(iterate: Path -> seq<Listed>, events: seq<string>, ghost w: World, ghost d: Address)
      requires Valid() && Fits(w) && SkipsMounts(w) && Iterates(iterate, w) && DirTexts(db.platform, events)
      requires Rests(Abs().tree, Abs()) && Tidy(Snap(db.S))
      requires Scannable(w) && (forall q :: q in w.fs ==> w.fs[q].own >= 0) && NearlyUpToDate(w, Abs().tree, d)
      requires Reports(Work(EventChains(db.platform, db.hash, db.rootFile.name, events)), d)
      modifies this, db, db.S, scannedEntries
      ensures Valid() && SkipsMounts(w) && Tidy(Snap(db.S))
      ensures Rests(Visible(w, NewDirs(w, old(Abs().tree), d)), Abs())
    {
      hide *;
      ScannerIs(this);
      AbsIs(this);
      ghost var t := Abs().tree;
      RestsHands(this, t);
      NoTexts(db.platform, db.hash, db.rootFile.name);
      if !position.slept {
        ghost var s := Abs();
        EnterLoop([], w);
        ScannerIs(this);
        AbsIs(this);
        SleepsOn(w, t, s, Abs());
        RestsHands(this, t);
      }
      ghost var s := Abs();
      EnterLoop(events, w);
      ScannerIs(this);
      AbsIs(this);
      UpdateStarts(w, t, d, s, EventChains(db.platform, db.hash, db.rootFile.name, events), Abs());
      OnTrackNow(this, w, Update(t, d));
      WorkerRun(iterate, w, Update(t, d));
      UpdateLetsIn(w, t, d);
    }
  }

  lemma PutIs(q: seq<Ask>, a: Ask, toBack: bool)
    ensures PutIn(q, a, toBack) == if toBack then q + [a] else [a] + q
  {
  }

  lemma MoreProper(s: SpaceScanner, q: seq<ScanRequest>, r: ScanRequest)
    requires s.AllProper(q) && s.Proper(r.path)
    ensures s.AllProper(q + [r]) && s.AllProper([r] + q)
  {
  }

  lemma RootEnds(pl: Platform, path: string)
    requires path != ""
    ensures EndsIn(Normalized(pl, path, Add), pl.Sep())
  {
    NormalizedIsNormal(pl, path, Add);
  }

  lemma ClearedNothing(at: Address)
    ensures Cleared([], at) == []
  {
  }

  lemma EnqueuedIs(q: seq<Ask>, a: Ask, toBack: bool)
    ensures Enqueued(q, a, toBack) == PutIn(Cleared(q, a.at), a, toBack)
  {
  }

  /** The root path, and the empty queue. */
  lemma RootProper(s: SpaceScanner)
    requires s.db.Valid() && EndsIn(s.db.rootFile.name, s.db.platform.Sep())
    ensures s.Proper(s.db.rootPath) && NamesIn(s.db.platform, s.db.rootPath) == []
    ensures s.scanQueue == [] ==> s.Queue() == [] && s.AllProper(s.scanQueue)
  {
    hide Snap, TreeOk;
    assert s.db.rootPath.parts[1..] == [];
  }

  lemma StartsHere(s: SpaceScanner)
    requires s.db.Valid() && s.db.S == {s.db.rootFile} && s.db.rootFile.bins == [] && s.db.rootFile.size == 0
    requires s.Queue() == Enqueued([], Ask([], true), true) && s.scannerStatus == Scanning &&
             s.position == AtRest(false)
    ensures s.Abs() == Start()
  {
    hide Sound, Named, AllLinked, NamesHashed;
    var f, root := Snap(s.db.S), s.db.rootFile;
    TreeParts(s.db.S, root, s.db.hash);
    RootChain(f, root, root);
    TreePlaces(f, root);
    EmptyBag<FileEntry>();
    assert Places(f, root) == {[]};
    assert At(f, root, []) == root;
    assert Cleared([], []) == [];
  }

  lemma StartsTidy(s: SpaceScanner)
    requires s.db.S == {s.db.rootFile} && s.db.rootFile.bins == [] && s.db.rootFile.size == 0
    ensures Tidy(Snap(s.db.S))
  {
  }

  /** A new scanner is on track in every world in which everything can be found. */
  lemma StartsOnTrack(s: SpaceScanner)
    requires TreeOk(s.db.S, s.db.rootFile, s.db.hash) && s.Abs() == Start() && Tidy(Snap(s.db.S))
    ensures forall w :: s.Fits(w) && Scannable(w) && (forall q :: q in w.fs ==> w.fs[q].own >= 0) ==> s.OnTrack(w, Scan)
  {
    hide *;
    forall w: World | s.Fits(w) && Scannable(w) && (forall q :: q in w.fs ==> w.fs[q].own >= 0)
      ensures s.OnTrack(w, Scan)
    {
      StartTracks(w);
      ScanUnderWay(w, s.Abs());
      OnTrackNow(s, w, Scan);
    }
  }

  lemma QueueIs(s: SpaceScanner)
    ensures s.Queue() == AsksOf(s.db.platform, s.scanQueue)
  {
  }

  lemma AskIs(pl: Platform, r: ScanRequest)
    ensures AskOf(pl, r) == Ask(NamesIn(pl, r.path), r.recursive)
  {
  }

  lemma ProperHas(s: SpaceScanner, q: seq<ScanRequest>, i: nat)
    requires s.AllProper(q) && i < |q|
    ensures s.Proper(q[i].path) && s.AllProper(q[..i] + q[i + 1..])
  {
  }

  lemma ComparedNames(s: SpaceScanner, a: Path, b: Path)
    requires s.Proper(a) && s.Proper(b)
    ensures a.parts != [] && b.parts != [] && |a.crcs| == |a.parts| && |b.crcs| == |b.parts|
    ensures Compared(a, b) == PrefixOrder(NamesIn(s.db.platform, a), NamesIn(s.db.platform, b))
  {
    OrderOfNames(s.db.platform, s.db.hash, s.db.rootFile.name, a, b);
  }

  // ------------------------------------------------------- facts on lists of paths

  lemma ChildPaths(s: SpaceScanner, paths: seq<Path>)
    requires s.ProperChildren(paths)
    ensures forall i :: 0 <= i < |paths| ==> s.Proper(paths[i]) && |paths[i].parts| > 1
  {
  }

  lemma ParentPath(s: SpaceScanner, paths: seq<Path>)
    requires s.ProperChildren(paths) && paths != []
    ensures |paths[0].parts| > 1 && |paths[0].crcs| == |paths[0].parts| && s.Proper(Up(paths[0]))
    ensures NamesIn(s.db.platform, Up(paths[0])) == ParentOf(ChainsOf(s.db.platform, paths))
  {
    UpNames(s.db.platform, s.db.hash, s.db.rootFile.name, paths[0]);
    DirParts(s.db.platform, s.db.hash, s.db.rootFile.name, paths[0]);
    DirParts(s.db.platform, s.db.hash, s.db.rootFile.name, Up(paths[0]));
    assert ChainsOf(s.db.platform, paths)[0] == Names(s.db.platform, paths[0]);
  }

  lemma QueueLength(s: SpaceScanner)
    ensures |s.Queue()| == |s.scanQueue|
  {
  }

  lemma QueueAt(s: SpaceScanner, i: nat)
    requires i < |s.scanQueue|
    ensures |s.Queue()| == |s.scanQueue|
    ensures s.Queue()[i] == Ask(NamesIn(s.db.platform, s.scanQueue[i].path), s.scanQueue[i].recursive)
  {
  }

  lemma {:induction false} FirstRelatedIs(q: seq<Ask>, at: Address, k: nat)
    requires k <= |q| && forall j :: 0 <= j < k ==> PrefixOrder(at, q[j].at) == Different
    requires k < |q| ==> PrefixOrder(at, q[k].at) != Different
    ensures FirstRelated(q, at) == k
  {
  }

  lemma EnqueuedChildrenIs(q: seq<Ask>, at: Address, asks: seq<Ask>, toBack: bool)
    ensures var k := FirstRelated(q, at);
            EnqueuedChildren(q, at, asks, toBack) ==
              if k < |q| && PrefixOrder(at, q[k].at) == Child && q[k].recursive then q
              else if k == |q| then Batched(q, asks, toBack)
              else EnqueuedAll(q, asks, toBack)
  {
  }

  lemma AsksAll(pl: Platform, paths: seq<Path>, recursive: bool)
    ensures var asks := Asks(ChainsOf(pl, paths), recursive);
            |asks| == |paths| && asks[0..] == asks && asks[|asks|..] == []
  {
  }

  lemma AskAt(pl: Platform, paths: seq<Path>, recursive: bool, i: nat)
    requires i < |paths|
    ensures var asks := Asks(ChainsOf(pl, paths), recursive);
            |asks| == |paths| && asks[i..][0] == Ask(NamesIn(pl, paths[i]), recursive) && asks[i..] != [] &&
              asks[i..][1..] == asks[i + 1..]
  {
  }

  lemma BatchedStep(q: seq<Ask>, asks: seq<Ask>, toBack: bool)
    ensures Batched(q, asks, toBack) == if asks == [] then q else Batched(PutIn(q, asks[0], toBack), asks[1..], toBack)
  {
  }

  lemma EnqueuedStep(q: seq<Ask>, asks: seq<Ask>, toBack: bool)
    ensures EnqueuedAll(q, asks, toBack) == if asks == [] then q
              else EnqueuedAll(Enqueued(q, asks[0], toBack), asks[1..], toBack)
  {
  }

  // ------------------------------------------------------------- watcher events

  /** The directories named by events, as far as they are at or below the root. */
  ghost function EventChains(pl: Platform, hash: string -> Crc, root: string, events: seq<string>): seq<Address> {
    if events == [] then []
    else
      (if Accepted(pl, events[0], root) then [NamesIn(pl, Parsed(pl, hash, events[0], root))] else [])
      + EventChains(pl, hash, root, events[1..])
  }

  /** Watchers report directories, by texts that end in a separator. */
  ghost predicate DirTexts(pl: Platform, events: seq<string>) {
    forall i :: 0 <= i < |events| ==> events[i] == "" || EndsIn(events[i], pl.Sep())
  }

  /** An event with the text of a directory below the root is heard as one for that directory. */
  lemma EventHeard(pl: Platform, hash: string -> Crc, root: string, p: Path)
    requires DirPath(pl, hash, root, p) && Clean(pl, p)
    ensures Concat(p.parts) != "" && EventChains(pl, hash, root, [Concat(p.parts)]) == [NamesIn(pl, p)]
  {
    hide Accepted, Parsed, Clean, Concat, Names;
    PrintParse(pl, hash, p);
    AcceptedIs(pl, Concat(p.parts), root);
    var events := [Concat(p.parts)];
    assert events[1..] == [] && EventChains(pl, hash, root, []) == [];
  }

  /** Events are heard one by one, in order. */
  lemma {:induction false} EventsInOrder(pl: Platform, hash: string -> Crc, root: string, a: seq<string>,
                                         b: seq<string>)
    ensures EventChains(pl, hash, root, a + b) == EventChains(pl, hash, root, a) + EventChains(pl, hash, root, b)
  {
    hide Accepted, Parsed, NamesIn;
    if a == [] {
      assert a + b == b;
    } else {
      assert (a + b)[1..] == a[1..] + b;
      EventsInOrder(pl, hash, root, a[1..], b);
    }
  }

  lemma AsksWholeList(events: seq<string>)
    ensures events[0..] == events && forall a: seq<Address> :: [] + a == a
  {
  }

  lemma EventStep(pl: Platform, hash: string -> Crc, root: string, events: seq<string>, i: nat)
    requires i < |events|
    ensures var rest := EventChains(pl, hash, root, events[i + 1..]);
            EventChains(pl, hash, root, events[i..]) ==
              if Accepted(pl, events[i], root) then [NamesIn(pl, Parsed(pl, hash, events[i], root))] + rest else rest
    ensures Accepted(pl, events[i], root) ==> events[i] != ""
    ensures var chains := EventChains(pl, hash, root, events[i..]);
            Accepted(pl, events[i], root) ==>
              && Asks(chains, false) != [] && Asks(chains, false)[0] == Ask(chains[0], false)
              && chains[0] == NamesIn(pl, Parsed(pl, hash, events[i], root))
              && Asks(chains, false)[1..] == Asks(EventChains(pl, hash, root, events[i + 1..]), false)
    ensures forall a: seq<Address>, b: Address, c: seq<Address> :: a + ([b] + c) == (a + [b]) + c
  {
    assert events[i..][1..] == events[i + 1..];
  }

  lemma EventsEnd(pl: Platform, hash: string -> Crc, root: string, q: seq<Ask>)
    ensures EventChains(pl, hash, root, []) == [] && EnqueuedAll(q, Asks([], false), true) == q
    ensures forall events: seq<string> :: events[|events|..] == []
    ensures forall a: seq<Address> :: a + [] == a
  {
  }

  lemma PathIs(p: FilePath)
    ensures p.Val() == Path(p.parts, p.pathCrcs)
  {
  }

  lemma EventProper(s: SpaceScanner, events: seq<string>, i: nat)
    requires DirTexts(s.db.platform, events) && i < |events| && events[i] != ""
    requires IsNormal(s.db.platform, s.db.rootFile.name, Add) && Accepted(s.db.platform, events[i], s.db.rootFile.name)
    ensures s.Proper(Parsed(s.db.platform, s.db.hash, events[i], s.db.rootFile.name))
  {
    ParsedDir(s.db.platform, s.db.hash, events[i], s.db.rootFile.name);
  }

  /** A text that ends in a separator is read as the path of a directory. */
  lemma ParsedDir(pl: Platform, hash: string -> Crc, text: string, root: string)
    requires Accepted(pl, text, root) && EndsIn(text, pl.Sep()) && IsNormal(pl, root, Add)
    ensures DirPath(pl, hash, root, Parsed(pl, hash, text, root))
  {
    hide *;
    var p := Parsed(pl, hash, text, root);
    ParsedIsWellFormed(pl, hash, text, root);
    ParsePrint(pl, hash, text, root);
    ParsedParts(pl, hash, text, root);
    AcceptedIs(pl, text, root);
    NormalizedIsNormal(pl, root, Add);
    NormalDirText(pl, text);
    ConcatLast(p.parts);
    LastEnds(pl, hash, root, p);
  }

  lemma NormalDirText(pl: Platform, text: string)
    requires text != "" && EndsIn(text, pl.Sep())
    ensures EndsIn(NormalText(pl, text), pl.Sep())
  {
    NormalizedIsNormal(pl, text, Add);
  }

  lemma LastEnds(pl: Platform, hash: string -> Crc, root: string, p: Path)
    requires WellFormed(pl, p) && WellHashed(pl, hash, p) && p.parts != [] && p.parts[0] == root
    requires EndsIn(Concat(p.parts), pl.Sep())
    requires Concat(p.parts) == Concat(p.parts[..|p.parts| - 1]) + p.parts[|p.parts| - 1]
    ensures DirPath(pl, hash, root, p)
  {
  }

  // --------------------------------------------------------- facts on the scanner

  lemma ScannerIs(s: SpaceScanner)
    requires s.Valid()
    ensures s.db.Valid() && TreeOk(s.db.S, s.db.rootFile, s.db.hash) && s.db.Recorded(Snap(s.db.S), s.db.S)
    ensures IsNormal(s.db.platform, s.db.rootFile.name, Add) && s.AllProper(s.scanQueue) && s.HandsOk()
  {
  }

  lemma ScannerValid(s: SpaceScanner)
    requires s.db.Valid() && IsNormal(s.db.platform, s.db.rootFile.name, Add) && s.AllProper(s.scanQueue) && s.HandsOk()
    ensures s.Valid()
  {
  }

  lemma AbsIs(s: SpaceScanner)
    requires TreeOk(s.db.S, s.db.rootFile, s.db.hash)
    ensures Rooted(Snap(s.db.S), s.db.rootFile)
    ensures s.Abs() == State(TreeOf(Snap(s.db.S), s.db.rootFile), s.Queue(), s.scannerStatus, s.StageOf())
    ensures s.StageOf() ==
              match s.position
              case AtRest(slept) => Resting(slept)
              case AtRead(r) => Reading(AskOf(s.db.platform, r))
              case AtCheck(r) => Checking(AskOf(s.db.platform, r), s.scanned, ChainsOf(s.db.platform, s.newPaths))
              case AtStore(r) => Storing(AskOf(s.db.platform, r), s.scanned, ChainsOf(s.db.platform, s.newPaths))
              case AtPause(r) => Pausing(AskOf(s.db.platform, r), ChainsOf(s.db.platform, s.newPaths))
              case AtJoin(r) => Joining(AskOf(s.db.platform, r), ChainsOf(s.db.platform, s.newPaths))
              case AtBreak => Breaking
              case AtEnd => Ending
  {
    hide TreeOf, Snap;
    TreeParts(s.db.S, s.db.rootFile, s.db.hash);
  }

  lemma ProperIs(s: SpaceScanner, p: Path)
    requires s.Proper(p)
    ensures WellFormed(s.db.platform, p) && WellHashed(s.db.platform, s.db.hash, p) && IsDir(s.db.platform, p)
    ensures DirPath(s.db.platform, s.db.hash, s.db.rootFile.name, p)
    ensures p.parts != [] && p.crcs != [] && NamesIn(s.db.platform, p) == Names(s.db.platform, p)
  {
  }

  /** The database accepts something for a path exactly if it can find something for the chain of names. */
  lemma FoundIff(s: SpaceScanner, p: Path, w: World)
    requires s.Valid() && s.Proper(p) && s.Fits(w)
    ensures Rooted(Snap(s.db.S), s.db.rootFile) && p.parts != [] && p.crcs != []
    ensures CanFind(w, s.Abs().tree, NamesIn(s.db.platform, p)) <==>
            exists e :: e in s.db.S && Matches(Snap(s.db.S), s.db.rootFile, s.db.platform, p, e)
  {
    ScannerIs(s);
    TreeParts(s.db.S, s.db.rootFile, s.db.hash);
    ProperIs(s, p);
    var f, root := Snap(s.db.S), s.db.rootFile;
    AbsIs(s);
    TreePlaces(f, root);
    RootNamed(s);
    hide Snap, TreeOk, Matches, Finds, DirPath, Sound, Named, NamesHashed, TreeOf, Rooted, Hashed;
    forall e | e in s.db.S
      ensures Matches(f, root, s.db.platform, p, e) <==> Finds(w, Names(s.db.platform, p), Chain(f, root, e))
    {
      MatchesFinds(f, root, s.db.platform, w, p, e);
    }
    var tree := s.Abs().tree;
    if CanFind(w, tree, Names(s.db.platform, p)) {
      var target :| target in tree && Finds(w, Names(s.db.platform, p), target);
      var e := At(f, root, target);
      assert e in s.db.S;
    }
    if e :| e in s.db.S && Matches(f, root, s.db.platform, p, e) {
      assert Chain(f, root, e) in Places(f, root);
    }
  }

  lemma RootNamed(s: SpaceScanner)
    requires s.Valid()
    ensures s.db.rootFile in Snap(s.db.S) && Snap(s.db.S)[s.db.rootFile].name == s.db.rootFile.name
  {
  }

  lemma RescanIs(w: World, s: State, at: Address)
    ensures forall t ::
              (t == if CanFind(w, s.tree, at) then
                      s.(status := Scanning, queue := Enqueued(s.queue, Ask(at, true), false))
                    else s) ==> Moves(w, s, Rescan(at), t)
  {
    hide CanFind, Enqueued;
  }

  lemma NextIs(p: SpaceScanner, s: State)
    ensures Next(s) == if s.queue != [] && s.status != Idle then s.(queue := s.queue[1..], stage := Reading(s.queue[0]))
                       else s.(queue := [], stage := Ending)
    ensures |p.Queue()| == |p.scanQueue|
  {
  }

  lemma FirstRequest(s: SpaceScanner)
    requires s.AllProper(s.scanQueue) && s.scanQueue != []
    ensures s.Proper(s.scanQueue[0].path) && s.AllProper(s.scanQueue[1..])
    ensures |s.Queue()| > 0 && s.Queue()[0] == AskOf(s.db.platform, s.scanQueue[0])
    ensures s.Queue()[1..] == AsksOf(s.db.platform, s.scanQueue[1..])
  {
  }

  lemma ReadHands(s: SpaceScanner)
    requires s.position.AtRead? && s.Proper(s.position.request.path) && s.newPaths == [] && s.scannedEntries == []
    ensures s.HandsOk()
  {
  }

  lemma EmptyHands(s: SpaceScanner)
    requires s.position.AtRest? || s.position.AtBreak? || s.position.AtEnd?
    requires s.newPaths == [] && s.scannedEntries == []
    ensures s.HandsOk()
    ensures AsksOf(s.db.platform, []) == [] && (s.scanQueue == [] ==> s.AllProper(s.scanQueue))
  {
  }

  lemma RestHands(s: SpaceScanner)
    requires s.HandsOk() && s.position.AtRest?
    ensures s.newPaths == [] && s.scannedEntries == []
  {
  }

  lemma RootNormal(pl: Platform, path: string)
    requires path != ""
    ensures IsNormal(pl, Normalized(pl, path, Add), Add)
  {
    NormalizedIsNormal(pl, path, Add);
  }

  lemma NoEvents(pl: Platform, hash: string -> Crc, root: string, s: State)
    ensures EventChains(pl, hash, root, []) == [] && Notified(s, []) == s
  {
    assert Asks([], false) == [];
  }

  lemma NotifiedIs(s: State, events: seq<Address>)
    ensures Notified(s, events) == State(s.tree, EnqueuedAll(s.queue, Asks(events, false), true),
                                         if events == [] then s.status else Scanning, s.stage)
  {
  }

  lemma RestWorks(w: World, s: State, events: seq<Address>)
    requires s.stage.Resting? && (s.stage.slept || events == [])
    ensures var h := Notified(s, events);
            Works(w, s, events, if h.queue == [] && h.status == Idle then h.(stage := Resting(true)) else Next(h))
  {
    hide Notified, Next;
  }

  lemma JoinWorks(w: World, s: State, events: seq<Address>)
    requires s.stage.Joining?
    ensures Works(w, s, events, Next(Notified(WithFound(s, s.stage.found), events)))
  {
    hide Notified, Next, WithFound;
  }

  lemma JoinedIs(s: State, found: seq<Address>)
    ensures WithFound(s, found) == State(s.tree, if found == [] then s.queue
              else EnqueuedChildren(s.queue, ParentOf(found), Asks(found, true), false), s.status, s.stage)
  {
  }

  /** Where the worker has come from does not matter for where it goes next. */
  lemma NextDropsStage(s: State)
    ensures Next(s) == Next(State(s.tree, s.queue, s.status, Ending))
  {
  }

  lemma JoinHands(s: SpaceScanner)
    requires s.HandsOk() && s.position.AtJoin?
    ensures s.scannedEntries == [] && s.ProperChildren(s.newPaths)
    ensures |ChainsOf(s.db.platform, s.newPaths)| == |s.newPaths|
  {
    var pl, paths := s.db.platform, s.newPaths;
    var chains := ChainsOf(pl, paths);
    ParentIs(chains, NamesIn(pl, s.position.request.path));
    forall i | 0 <= i < |paths|
      ensures |paths[i].parts| > 1
    {
      ProperIs(s, paths[i]);
      assert NamesIn(pl, s.position.request.path) < Asks(chains, true)[i].at == chains[i];
      NamesLength(pl, paths[i]);
    }
  }

  // -------------------------------------------------------- facts on what is found

  /** An iterator over a directory comes across everything that is listed, once, under names without separators. */
  ghost predicate Iterated(pl: Platform, found: seq<Listed>, listing: Listing) {
    && (forall i, j :: 0 <= i < j < |found| ==> found[i].name != found[j].name)
    && (forall i :: 0 <= i < |found| ==>
          && IsName(pl, found[i].name) && found[i].name in listing
          && listing[found[i].name] == Item(found[i].dir, found[i].size))
    && forall n :: n in listing ==> exists i :: 0 <= i < |found| && found[i].name == n
  }

  /** The entries made for what was found. */
  ghost predicate EntriesFor(hash: string -> Crc, found: seq<Listed>, entries: seq<FileEntry>)
    reads entries`children, entries`bins, entries`pendingDelete, entries`size
  {
    && |entries| == |found|
    && forall i :: 0 <= i < |entries| ==>
         && entries[i].Offered(hash) && entries[i].name == found[i].name
         && entries[i].isDir == found[i].dir && entries[i].size == found[i].size
  }

  /** The paths of those of the directories found that are to be entered. */
  ghost function PathsFor(pl: Platform, hash: string -> Crc, path: Path, found: seq<Listed>, E: set<Address>): seq<Path>
    requires path.crcs != []
  {
    if found == [] then []
    else
      var name := found[|found| - 1].name;
      PathsFor(pl, hash, path, found[..|found| - 1], E)
      + if NamesIn(pl, path) + [name] in E then [WithDir(pl, hash, path, name, hash(name))] else []
  }

  lemma NameIs(pl: Platform, name: string)
    requires IsName(pl, name)
    ensures name != "" && !EndsIn(name, pl.Sep())
  {
  }

  lemma TextEnds(text: string, name: string, c: char)
    requires EndsIn(text, c) && name != "" && !EndsIn(name, c)
    ensures text != "" && text[|text| - 1] == c && (text + name)[|text + name| - 1] != c
  {
  }

  lemma ReadIs(s: SpaceScanner)
    requires s.HandsOk() && s.position.AtRead?
    ensures s.Proper(s.position.request.path) && s.newPaths == [] && s.scannedEntries == []
  {
  }

  lemma NothingFound(pl: Platform, hash: string -> Crc, path: Path, E: set<Address>, found: seq<Listed>)
    requires path.crcs != []
    ensures found[..0] == [] && PathsFor(pl, hash, path, [], E) == [] && EntriesFor(hash, [], [])
  {
  }

  lemma AllFound(found: seq<Listed>)
    ensures found[..|found|] == found
  {
  }

  lemma IteratedAt(pl: Platform, found: seq<Listed>, listing: Listing, i: nat)
    requires Iterated(pl, found, listing) && i < |found|
    ensures IsName(pl, found[i].name) && found[i].name != "" && found[i].name in listing
    ensures listing[found[i].name] == Item(found[i].dir, found[i].size)
  {
  }

  /** Which directories are entered is decided by kind and mount points. */
  lemma EnteredIff(s: SpaceScanner, w: World, path: Path, found: seq<Listed>, i: nat)
    requires s.SkipsMounts(w) && i < |found|
    requires Iterated(s.db.platform, found, ListingOf(w.fs, NamesIn(s.db.platform, path)))
    ensures var q := NamesIn(s.db.platform, path) + [found[i].name];
            var text := MountText(s.db.platform, s.db.rootFile.name, q);
            q in Entered(w, s.scannerStatus, NamesIn(s.db.platform, path)) <==>
              found[i].dir && (s.scannerStatus == Stopping || !(text in s.availableRoots || text in s.excludedMounts))
  {
    hide MountText, NamesIn, IsName;
    var at := NamesIn(s.db.platform, path);
    var q := at + [found[i].name];
    ListingHas(w.fs, at, found[i].name);
    assert Front(q) == at;
    assert w.skip(q) <==>
           MountText(s.db.platform, s.db.rootFile.name, q) in s.availableRoots ||
             MountText(s.db.platform, s.db.rootFile.name, q) in s.excludedMounts;
  }

  lemma PathsNext(pl: Platform, hash: string -> Crc, path: Path, found: seq<Listed>, i: nat, E: set<Address>)
    requires path.crcs != [] && i < |found|
    ensures PathsFor(pl, hash, path, found[..i + 1], E) ==
            PathsFor(pl, hash, path, found[..i], E) +
            if NamesIn(pl, path) + [found[i].name] in E then
              [WithDir(pl, hash, path, found[i].name, hash(found[i].name))]
            else []
  {
    assert found[..i + 1][..i] == found[..i];
  }

  lemma EntriesNext(hash: string -> Crc, found: seq<Listed>, i: nat, entries: seq<FileEntry>, e: FileEntry)
    requires i < |found| && EntriesFor(hash, found[..i], entries)
    requires e.Offered(hash) && e.name == found[i].name && e.isDir == found[i].dir && e.size == found[i].size
    ensures EntriesFor(hash, found[..i + 1], entries + [e])
  {
  }

  lemma EntriesList(pl: Platform, hash: string -> Crc, found: seq<Listed>, entries: seq<FileEntry>, listing: Listing)
    requires Iterated(pl, found, listing) && EntriesFor(hash, found, entries)
    ensures Lists(entries, listing) && Waits(entries, hash, listing)
    ensures forall e :: e in entries ==> IsName(pl, e.name)
  {
    hide IsName;
    forall n | n in listing
      ensures n in NamesOf(entries)
    {
      var i :| 0 <= i < |found| && found[i].name == n;
      assert entries[i] in entries && entries[i].name == n;
    }
  }

  ghost function ChildrenNamed(at: Address, found: seq<Listed>): set<Address> {
    set i | 0 <= i < |found| :: at + [found[i].name]
  }

  lemma OneMoreName(at: Address, found: seq<Listed>)
    requires found != [] && forall i, j :: 0 <= i < j < |found| ==> found[i].name != found[j].name
    ensures var rest, q := found[..|found| - 1], at + [found[|found| - 1].name];
            && ChildrenNamed(at, found) == ChildrenNamed(at, rest) + {q}
            && q !in ChildrenNamed(at, rest)
            && forall i, j :: 0 <= i < j < |rest| ==> rest[i].name != rest[j].name
  {
    var rest, q := found[..|found| - 1], at + [found[|found| - 1].name];
    forall i | 0 <= i < |rest|
      ensures at + [rest[i].name] != q
    {
      assert (at + [rest[i].name])[|at|] != q[|at|];
    }
    forall i | 0 <= i < |found|
      ensures at + [found[i].name] in ChildrenNamed(at, rest) + {q}
    {
      assert i < |rest| ==> rest[i] == found[i] && at + [rest[i].name] in ChildrenNamed(at, rest);
    }
    forall i | 0 <= i < |rest|
      ensures at + [rest[i].name] in ChildrenNamed(at, found)
    {
      assert found[i] == rest[i];
    }
  }

  /** Each path found is that of a different child, and together they are the directories to be entered. */
  lemma {:induction false} PathsForAre(pl: Platform, hash: string -> Crc, root: string, path: Path, found: seq<Listed>,
                                       E: set<Address>)
    requires DirPath(pl, hash, root, path) && path.crcs != []
    requires forall i, j :: 0 <= i < j < |found| ==> found[i].name != found[j].name
    requires forall i :: 0 <= i < |found| ==> IsName(pl, found[i].name)
    ensures var paths, at := PathsFor(pl, hash, path, found, E), NamesIn(pl, path);
            && (forall i :: 0 <= i < |paths| ==> DirPath(pl, hash, root, paths[i]))
            && multiset(ChainsOf(pl, paths)) == multiset(ChildrenNamed(at, found) * E)
  {
    hide *;
    var at := NamesIn(pl, path);
    NothingFor(pl, hash, path, at, E);
    if found != [] {
      var rest, name := found[..|found| - 1], found[|found| - 1].name;
      OneMoreName(at, found);
      PathsForAre(pl, hash, root, path, rest, E);
      NameIs(pl, name);
      WithDirNames(pl, hash, root, path, name, hash(name));
      var p, before := WithDir(pl, hash, path, name, hash(name)), PathsFor(pl, hash, path, rest, E);
      NamesInDir(pl, hash, root, path);
      NamesInDir(pl, hash, root, p);
      ChainsMore(pl, before, p);
      assert found[..|found|] == found;
      PathsNext(pl, hash, path, found, |found| - 1, E);
      OneMoreIn(ChildrenNamed(at, rest), E, at + [name]);
      assert ChainsOf(pl, before + []) == ChainsOf(pl, before) by {
        assert before + [] == before;
      }
    }
  }

  lemma NothingFor(pl: Platform, hash: string -> Crc, path: Path, at: Address, E: set<Address>)
    requires path.crcs != []
    ensures PathsFor(pl, hash, path, [], E) == [] && ChainsOf(pl, []) == [] && ChildrenNamed(at, []) * E == {}
  {
  }

  lemma OneMoreIn<T>(X: set<T>, E: set<T>, q: T)
    requires q !in X
    ensures multiset((X + {q}) * E) == if q in E then multiset(X * E) + multiset{q} else multiset(X * E)
  {
    if q in E {
      assert (X + {q}) * E == X * E + {q};
    } else {
      assert (X + {q}) * E == X * E;
    }
  }

  lemma NamesInDir(pl: Platform, hash: string -> Crc, root: string, p: Path)
    requires DirPath(pl, hash, root, p)
    ensures p.parts != [] && NamesIn(pl, p) == Names(pl, p)
  {
  }

  lemma ChainsMore(pl: Platform, paths: seq<Path>, p: Path)
    ensures ChainsOf(pl, paths + [p]) == ChainsOf(pl, paths) + [NamesIn(pl, p)]
  {
  }

  lemma FoundChains(s: SpaceScanner, w: World, path: Path, found: seq<Listed>, status: Status)
    requires s.Proper(path) && Iterated(s.db.platform, found, ListingOf(w.fs, NamesIn(s.db.platform, path)))
    ensures path.crcs != []
    ensures var at := NamesIn(s.db.platform, path);
            var paths := PathsFor(s.db.platform, s.db.hash, path, found, Entered(w, status, at));
            && Enumerates(ChainsOf(s.db.platform, paths), Entered(w, status, at))
            && s.ChildrenOf(paths, path)
    ensures s.ChildrenOf([], path) && ChainsOf(s.db.platform, []) == []
  {
    hide *;
    ProperIs(s, path);
    var pl, at := s.db.platform, NamesIn(s.db.platform, path);
    var E := Entered(w, status, at);
    var paths := PathsFor(pl, s.db.hash, path, found, E);
    IteratedIs(pl, found, ListingOf(w.fs, at));
    PathsForAre(pl, s.db.hash, s.db.rootFile.name, path, found, E);
    forall q | q in E
      ensures q in ChildrenNamed(at, found)
    {
      EnteredFound(pl, w, at, found, status, q);
    }
    assert ChildrenNamed(at, found) * E == E;
    EnumeratesNow(ChainsOf(pl, paths), E);
    EnteredBelow(w, status, at);
    EnumeratedSiblings(ChainsOf(pl, paths), E, at);
    ChildrenNow(s, paths, path);
    NothingFor(pl, s.db.hash, path, at, E);
    NoSiblings(at);
    ChildrenNow(s, [], path);
  }

  lemma IteratedIs(pl: Platform, found: seq<Listed>, listing: Listing)
    requires Iterated(pl, found, listing)
    ensures forall i, j :: 0 <= i < j < |found| ==> found[i].name != found[j].name
    ensures forall i :: 0 <= i < |found| ==> IsName(pl, found[i].name)
  {
    hide IsName;
  }

  lemma EnumeratesNow(list: seq<Address>, all: set<Address>)
    requires multiset(list) == multiset(all)
    ensures Enumerates(list, all)
  {
  }

  lemma NoSiblings(at: Address)
    ensures Siblings(Asks([], true), at)
  {
  }

  lemma ChildrenNow(s: SpaceScanner, paths: seq<Path>, path: Path)
    requires forall i :: 0 <= i < |paths| ==> DirPath(s.db.platform, s.db.hash, s.db.rootFile.name, paths[i])
    requires Siblings(Asks(ChainsOf(s.db.platform, paths), true), NamesIn(s.db.platform, path))
    ensures s.ChildrenOf(paths, path)
  {
  }

  lemma EnteredBelow(w: World, status: Status, at: Address)
    ensures forall q :: q in Entered(w, status, at) ==> q != [] && Front(q) == at && q in w.fs
  {
  }

  lemma EnteredFound(pl: Platform, w: World, at: Address, found: seq<Listed>, status: Status, q: Address)
    requires Iterated(pl, found, ListingOf(w.fs, at)) && q in Entered(w, status, at)
    ensures q in ChildrenNamed(at, found)
  {
    EnteredBelow(w, status, at);
    var n := q[|at|];
    assert q == at + [n];
    ListingHas(w.fs, at, n);
    hide IsName, Entered;
    var i :| 0 <= i < |found| && found[i].name == n;
    assert at + [found[i].name] == q;
  }

  lemma ScannedHands(s: SpaceScanner, request: ScanRequest)
    requires s.position == AtCheck(request) && s.Proper(request.path) && s.ChildrenOf(s.newPaths, request.path)
    requires Lists(s.scannedEntries, s.scanned) && Waits(s.scannedEntries, s.db.hash, s.scanned)
    requires forall e :: e in s.scannedEntries ==> e !in s.db.S && IsName(s.db.platform, e.name)
    requires request.recursive || s.newPaths == []
    ensures s.HandsOk()
  {
  }

  lemma ReadWorks(w: World, s: State, t: State)
    requires s.stage.Reading? && t.stage.Checking?
    requires t == s.(stage := Checking(s.stage.ask, ListingOf(w.fs, s.stage.ask.at), t.stage.found))
    requires if s.stage.ask.recursive then Enumerates(t.stage.found, Entered(w, s.status, s.stage.ask.at))
               else t.stage.found == []
    ensures Works(w, s, [], t)
  {
  }

  // ----------------------------------------------------- facts on what is stored

  lemma StoreIs(s: SpaceScanner)
    requires s.HandsOk() && s.position.AtStore?
    ensures s.Proper(s.position.request.path) && s.ChildrenOf(s.newPaths, s.position.request.path)
    ensures Lists(s.scannedEntries, s.scanned) && Waits(s.scannedEntries, s.db.hash, s.scanned)
    ensures forall e :: e in s.scannedEntries ==> e !in s.db.S && IsName(s.db.platform, e.name)
    ensures s.position.request.recursive || s.newPaths == []
  {
  }

  /** What the database accepts for the path is found under its chain of names. */
  lemma StoreTargets(s: SpaceScanner, p: Path, w: World)
    requires s.Valid() && s.Proper(p) && s.Fits(w)
    ensures Rooted(Snap(s.db.S), s.db.rootFile) && p.parts != [] && p.crcs != []
    ensures forall e :: e in s.db.S && Matches(Snap(s.db.S), s.db.rootFile, s.db.platform, p, e) ==>
              var q := Chain(Snap(s.db.S), s.db.rootFile, e);
              q in TreeOf(Snap(s.db.S), s.db.rootFile) && Finds(w, NamesIn(s.db.platform, p), q)
  {
    hide *;
    ScannerIs(s);
    TreeParts(s.db.S, s.db.rootFile, s.db.hash);
    ProperIs(s, p);
    RootNamed(s);
    FitsIs(s, w);
    forall e | e in s.db.S && Matches(Snap(s.db.S), s.db.rootFile, s.db.platform, p, e)
      ensures var q := Chain(Snap(s.db.S), s.db.rootFile, e);
              q in TreeOf(Snap(s.db.S), s.db.rootFile) && Finds(w, NamesIn(s.db.platform, p), q)
    {
      MatchesFinds(Snap(s.db.S), s.db.rootFile, s.db.platform, w, p, e);
      TreeHas(Snap(s.db.S), s.db.rootFile, e);
    }
  }

  /** Only directories are accepted for the path, and no size listed is negative. */
  ghost predicate DirsFor<E>(f: Forest<E>, root: E, pl: Platform, p: Path, listing: Listing)
    requires Rooted(f, root) && p.parts != [] && p.crcs != []
  {
    && (forall n :: n in listing ==> listing[n].size >= 0)
    && forall e :: e in f && Matches(f, root, pl, p, e) ==> f[e].dir
  }

  lemma FoundDirs(s: SpaceScanner, w: World)
    requires s.Valid() && s.position.AtStore? && s.Proper(s.position.request.path) && s.Fits(w)
    ensures Rooted(Snap(s.db.S), s.db.rootFile) && TreeOk(s.db.S, s.db.rootFile, s.db.hash)
    ensures s.position.request.path.parts != [] && s.position.request.path.crcs != []
    ensures s.FindsDirs(w) ==> DirsFor(Snap(s.db.S), s.db.rootFile, s.db.platform, s.position.request.path, s.scanned)
  {
    ScannerIs(s);
    AbsIs(s);
    TreeParts(s.db.S, s.db.rootFile, s.db.hash);
    StoreTargets(s, s.position.request.path, w);
    hide Finds, TreeOk, Sound, Named, TreeOf, Chain, Rooted, Matches, Snap;
    var f, root := Snap(s.db.S), s.db.rootFile;
    forall e | s.FindsDirs(w) && e in f && Matches(f, root, s.db.platform, s.position.request.path, e)
      ensures f[e].dir
    {
      TreeHas(f, root, e);
    }
  }

  lemma TidyStays<E>(f0: Forest<E>, g: Forest<E>, root: E, pl: Platform, path: Path, p: E, listing: Listing)
    requires Finished(f0, g, root, p, listing) && Sound(f0, root) && path.parts != [] && path.crcs != []
    requires Rooted(f0, root) && Matches(f0, root, pl, path, p)
    ensures Tidy(f0) && DirsFor(f0, root, pl, path, listing) ==> Tidy(g)
  {
    hide Finished, Sound, Tidy, Matches, Rooted;
    FinishedIs(f0, g, root, p, listing);
    if Tidy(f0) && DirsFor(f0, root, pl, path, listing) {
      TidyAfter(f0, g, root, p, listing);
    }
  }

  lemma FitsIs(s: SpaceScanner, w: World)
    requires s.Fits(w)
    ensures w.hash == s.db.hash && w.rootName == s.db.rootFile.name
  {
  }

  lemma StoredHands(s: SpaceScanner, request: ScanRequest)
    requires s.position == AtPause(request) && s.Proper(request.path) && s.ChildrenOf(s.newPaths, request.path)
    requires s.scannedEntries == []
    ensures s.HandsOk()
  {
  }

  lemma NothingStored(s: SpaceScanner, request: ScanRequest)
    requires s.Proper(request.path)
    ensures s.ChildrenOf([], request.path) && ChainsOf(s.db.platform, []) == []
  {
    hide DirPath;
    NoSiblings(NamesIn(s.db.platform, request.path));
  }

  /** The names of the directories added. */
  ghost function DirsNamed(at: Address, added: seq<FileEntry>): set<Address> {
    set e | e in added && e.isDir :: at + [e.name]
  }

  /** The paths of the new directories, as a list of different children. */
  lemma {:induction false} DirPathsAre(pl: Platform, hash: string -> Crc, root: string, path: Path,
                                       added: seq<FileEntry>)
    requires DirPath(pl, hash, root, path) && path.crcs != []
    requires forall i, j :: 0 <= i < j < |added| ==> added[i].name != added[j].name
    requires forall e :: e in added ==> IsName(pl, e.name) && e.nameCrc == hash(e.name)
    ensures var paths, at := DirPaths(pl, hash, path, added), NamesIn(pl, path);
            && (forall i :: 0 <= i < |paths| ==> DirPath(pl, hash, root, paths[i]))
            && multiset(ChainsOf(pl, paths)) == multiset(DirsNamed(at, added))
  {
    hide *;
    var at := NamesIn(pl, path);
    NoDirs(pl, hash, path, at);
    if added != [] {
      var rest, e := added[..|added| - 1], added[|added| - 1];
      assert added == rest + [e];
      OneMoreDir(at, rest, e);
      DirPathsAre(pl, hash, root, path, rest);
      NameIs(pl, e.name);
      WithDirNames(pl, hash, root, path, e.name, e.nameCrc);
      var p, before := WithDir(pl, hash, path, e.name, e.nameCrc), DirPaths(pl, hash, path, rest);
      NamesInDir(pl, hash, root, path);
      NamesInDir(pl, hash, root, p);
      ChainsMore(pl, before, p);
      DirPathsNext(pl, hash, path, rest, e);
      assert before + [] == before;
    }
  }

  lemma NoDirs(pl: Platform, hash: string -> Crc, path: Path, at: Address)
    requires path.crcs != []
    ensures DirPaths(pl, hash, path, []) == [] && ChainsOf(pl, []) == [] && DirsNamed(at, []) == {}
  {
  }

  lemma OneMoreDir(at: Address, rest: seq<FileEntry>, e: FileEntry)
    requires forall i, j :: 0 <= i < j < |rest + [e]| ==> (rest + [e])[i].name != (rest + [e])[j].name
    ensures e.isDir ==> multiset(DirsNamed(at, rest + [e])) == multiset(DirsNamed(at, rest)) + multiset{at + [e.name]}
    ensures !e.isDir ==> DirsNamed(at, rest + [e]) == DirsNamed(at, rest)
    ensures forall i, j :: 0 <= i < j < |rest| ==> rest[i].name != rest[j].name
  {
    var all := rest + [e];
    forall d | d in rest
      ensures at + [d.name] != at + [e.name]
    {
      var i :| 0 <= i < |rest| && rest[i] == d;
      assert all[i].name != all[|rest|].name;
      assert (at + [d.name])[|at|] != (at + [e.name])[|at|];
    }
    if e.isDir {
      assert DirsNamed(at, all) == DirsNamed(at, rest) + {at + [e.name]};
      assert at + [e.name] !in DirsNamed(at, rest);
    }
    forall i, j | 0 <= i < j < |rest|
      ensures rest[i].name != rest[j].name
    {
      assert all[i] == rest[i] && all[j] == rest[j];
    }
  }

  lemma AddedNames(added: seq<FileEntry>, entries: seq<FileEntry>, listing: Listing)
    requires Lists(entries, listing) && Distinct(added) && forall e :: e in added ==> e in entries
    ensures forall i, j :: 0 <= i < j < |added| ==> added[i].name != added[j].name
  {
    forall i, j | 0 <= i < j < |added|
      ensures added[i].name != added[j].name
    {
      assert added[i] in entries && added[j] in entries;
      var a :| 0 <= a < |entries| && entries[a] == added[i];
      var b :| 0 <= b < |entries| && entries[b] == added[j];
      assert a < b || b < a;
    }
  }

  /** The new directories are the listed ones that the database did not have. */
  lemma NewDirsAre(f0: Forest<FileEntry>, S: set<FileEntry>, root: FileEntry, p: FileEntry, listing: Listing,
                   added: seq<FileEntry>, entries: seq<FileEntry>, at: Address)
    requires Finished(f0, Snap(S), root, p, listing) && Named(f0) && FileDBs.Joined(added, entries, f0.Keys, S)
    ensures DirsNamed(at, added) == Added(TreeOf(f0, root), Chain(f0, root, p), at, listing)
  {
    var tree, d := TreeOf(f0, root), Chain(f0, root, p);
    FinishedIs(f0, Snap(S), root, p, listing);
    TreePlaces(f0, root);
    SnapIdentity(S);
    hide Snap, TreeOf, Places, Sound, Rooted, Named, Chain;
    forall e | e in added && e.isDir
      ensures at + [e.name] in Added(tree, d, at, listing)
    {
      AddedIsNew(f0, S, root, p, listing, e);
    }
    forall q | q in Added(tree, d, at, listing)
      ensures q in DirsNamed(at, added)
    {
      var n :| n in listing && listing[n].dir && d + [n] !in tree && q == at + [n];
      var e := NewIsAdded(f0, S, root, p, listing, n);
      assert e in added && e.isDir;
    }
  }

  lemma AddedIsNew(f0: Forest<FileEntry>, S: set<FileEntry>, root: FileEntry, p: FileEntry, listing: Listing,
                   e: FileEntry)
    requires Finished(f0, Snap(S), root, p, listing) && Named(f0) && e in S && e !in f0
    ensures e.name in listing && listing[e.name].dir == e.isDir
    ensures Rooted(f0, root) && p in f0 && Chain(f0, root, p) + [e.name] !in Places(f0, root)
  {
    SnapIdentity(S);
    MirrorNew(f0, Snap(S), root, p, listing, e);
    hide Snap, Sound;
    assert NewOk(Snap(S), p, listing, listing.Keys, e);
  }

  /** A kept child was in its place before. */
  lemma KeptPlace<E>(f0: Forest<E>, g: Forest<E>, root: E, p: E, listing: Listing, c: E)
    requires Finished(f0, g, root, p, listing) && c in f0 && c in g && g[c].parent == Some(p)
    ensures Rooted(f0, root) && Chain(f0, root, p) + [g[c].name] in Places(f0, root)
  {
    hide Sound;
    assert Placed(f0, root, c) && Placed(f0, root, p);
    assert c != p ==> OldOk(f0, g, root, p, listing, listing.Keys, c);
    assert Chain(f0, root, c) in Places(f0, root);
  }

  lemma NewIsAdded(f0: Forest<FileEntry>, S: set<FileEntry>, root: FileEntry, p: FileEntry, listing: Listing, n: string)
    returns (e: FileEntry)
    requires Finished(f0, Snap(S), root, p, listing) && Named(f0) && n in listing
    requires Chain(f0, root, p) + [n] !in Places(f0, root)
    ensures e in S && e !in f0 && e.name == n && e.isDir == listing[n].dir
  {
    var g := Snap(S);
    SnapIdentity(S);
    hide Snap, Sound;
    assert HasChild(g, p, n);
    var c :| c in g && g[c].parent == Some(p) && g[c].name == n;
    if c in f0 {
      KeptPlace(f0, g, root, p, listing, c);
    }
    assert c !in f0 ==> NewOk(g, p, listing, listing.Keys, c);
    e := c;
  }

  lemma NewPathsAre(s: SpaceScanner, f0: Forest<FileEntry>, path: Path, target: FileEntry,
                    added: seq<FileEntry>, entries: seq<FileEntry>)
    requires s.Proper(path) && path.crcs != [] && Named(f0)
    requires Finished(f0, Snap(s.db.S), s.db.rootFile, target, s.scanned)
    requires FileDBs.Joined(added, entries, f0.Keys, s.db.S) && Lists(entries, s.scanned)
    requires forall e :: e in entries ==> IsName(s.db.platform, e.name)
    requires TreeOk(s.db.S, s.db.rootFile, s.db.hash)
    ensures Rooted(f0, s.db.rootFile) && target in f0
    ensures var paths, at := DirPaths(s.db.platform, s.db.hash, path, added), NamesIn(s.db.platform, path);
            && s.ChildrenOf(paths, path)
            && Enumerates(ChainsOf(s.db.platform, paths), Added(TreeOf(f0, s.db.rootFile),
                Chain(f0, s.db.rootFile, target), at, s.scanned))
  {
    hide *;
    var pl, at, root := s.db.platform, NamesIn(s.db.platform, path), s.db.rootFile;
    var paths := DirPaths(pl, s.db.hash, path, added);
    FinishedIs(f0, Snap(s.db.S), root, target, s.scanned);
    ProperIs(s, path);
    JoinedHas(added, entries, f0.Keys, s.db.S);
    AddedNames(added, entries, s.scanned);
    AddedHashed(s.db.S, root, s.db.hash, added);
    DirPathsAre(pl, s.db.hash, root.name, path, added);
    NewDirsAre(f0, s.db.S, root, target, s.scanned, added, entries, at);
    EnumeratesNow(ChainsOf(pl, paths), DirsNamed(at, added));
    DirsBelow(at, added);
    EnumeratedSiblings(ChainsOf(pl, paths), DirsNamed(at, added), at);
    ChildrenNow(s, paths, path);
  }

  lemma JoinedHas(added: seq<FileEntry>, entries: seq<FileEntry>, S0: set<FileEntry>, S: set<FileEntry>)
    requires FileDBs.Joined(added, entries, S0, S)
    ensures Distinct(added) && forall e :: e in added ==> e in entries && e in S
  {
  }

  lemma AddedHashed(S: set<FileEntry>, root: FileEntry, hash: string -> Crc, added: seq<FileEntry>)
    requires TreeOk(S, root, hash) && forall e :: e in added ==> e in S
    ensures forall e :: e in added ==> e.nameCrc == hash(e.name)
  {
    TreeParts(S, root, hash);
    SnapIdentity(S);
    hide Snap, TreeOk, Sound, Named;
  }

  lemma DirsBelow(at: Address, added: seq<FileEntry>)
    ensures forall q :: q in DirsNamed(at, added) ==> q != [] && Front(q) == at
  {
  }

  lemma StoreWorks(w: World, s: State, t: State, target: Address)
    requires s.stage.Storing? && t.stage.Pausing?
    requires t == s.(tree := t.tree, stage := Pausing(s.stage.ask, t.stage.found))
    requires target in s.tree && Finds(w, s.stage.ask.at, target)
    requires t.tree == Reconciled(s.tree, target, s.stage.listing)
    requires if s.stage.ask.recursive then t.stage.found == s.stage.found
             else Enumerates(t.stage.found, Added(s.tree, target, s.stage.ask.at, s.stage.listing))
    ensures Works(w, s, [], t)
  {
    hide Finds, Reconciled, Enumerates, Added;
  }

  lemma StoreFails(w: World, s: State, t: State)
    requires s.stage.Storing? && t.stage.Pausing? && !CanFind(w, s.tree, s.stage.ask.at)
    requires t == s.(stage := Pausing(s.stage.ask, t.stage.found))
    requires t.stage.found == if s.stage.ask.recursive then s.stage.found else []
    ensures Works(w, s, [], t)
  {
    hide CanFind;
  }

  // --------------------------------------------------- facts on the whole worker

  lemma OnTrackHas(s: SpaceScanner, w: World, task: Task)
    requires s.Valid() && s.OnTrack(w, task) && s.Fits(w)
    ensures TreeOk(s.db.S, s.db.rootFile, s.db.hash)
    ensures Scannable(w) && UnderWay(w, task, s.Abs()) && Tidy(Snap(s.db.S))
    ensures forall q :: q in w.fs ==> w.fs[q].own >= 0
    ensures s.position.AtStore? ==> s.FindsDirs(w)
    ensures s.position.AtRead? ==> (
              && s.Proper(s.position.request.path)
              && NamesIn(s.db.platform, s.position.request.path) in w.fs
              && w.fs[NamesIn(s.db.platform, s.position.request.path)].dir)
  {
    hide *;
    ScannerIs(s);
    OnTrackIs(s, w, task);
    AbsIs(s);
    if s.position.AtStore? {
      TaskFinds(w, task, s.Abs());
      AskIs(s.db.platform, s.position.request);
      FindsDirsNow(s, w);
    }
    if s.position.AtRead? {
      TaskReads(w, task, s.Abs());
      AskIs(s.db.platform, s.position.request);
      ReadIs(s);
    }
  }

  lemma OnTrackIs(s: SpaceScanner, w: World, task: Task)
    requires s.OnTrack(w, task)
    ensures TreeOk(s.db.S, s.db.rootFile, s.db.hash)
    ensures Scannable(w) && UnderWay(w, task, s.Abs()) && Tidy(Snap(s.db.S))
    ensures forall q :: q in w.fs ==> w.fs[q].own >= 0
  {
  }

  lemma OnTrackNow(s: SpaceScanner, w: World, task: Task)
    requires TreeOk(s.db.S, s.db.rootFile, s.db.hash)
    requires Scannable(w) && UnderWay(w, task, s.Abs()) && Tidy(Snap(s.db.S)) &&
             (forall q :: q in w.fs ==> w.fs[q].own >= 0)
    ensures s.OnTrack(w, task)
  {
  }

  lemma FindsDirsNow(s: SpaceScanner, w: World)
    requires s.position.AtStore? && TreeOk(s.db.S, s.db.rootFile, s.db.hash)
    requires forall n :: n in s.scanned ==> s.scanned[n].size >= 0
    requires forall q :: q in s.Abs().tree && Finds(w, NamesIn(s.db.platform, s.position.request.path), q) ==>
               s.Abs().tree[q].dir
    ensures s.FindsDirs(w)
  {
    hide Finds, TreeOk;
  }

  lemma OnTrackEnds(s: SpaceScanner, w: World, task: Task)
    requires s.OnTrack(w, task) && s.scannerStatus == Idle
    ensures TreeOk(s.db.S, s.db.rootFile, s.db.hash) && Rests(Visible(w, LetIn(w, task)), s.Abs()) && Tidy(Snap(s.db.S))
  {
    hide *;
    OnTrackIs(s, w, task);
    AbsIs(s);
    TaskOver(w, task, s.Abs());
  }

  lemma JoinedFrom(added: seq<FileEntry>, entries: seq<FileEntry>, S0: set<FileEntry>, S: set<FileEntry>)
    requires FileDBs.Joined(added, entries, S0, S)
    ensures forall e :: e in S ==> e in S0 || e in entries
  {
  }

  lemma NoTexts(pl: Platform, hash: string -> Crc, root: string)
    ensures DirTexts(pl, []) && EventChains(pl, hash, root, []) == []
  {
  }

  lemma IterateAt(s: SpaceScanner, iterate: Path -> seq<Listed>, w: World)
    requires s.position.AtRead? && s.Iterates(iterate, w) && s.Proper(s.position.request.path)
    requires NamesIn(s.db.platform, s.position.request.path) in w.fs &&
             w.fs[NamesIn(s.db.platform, s.position.request.path)].dir
    ensures Iterated(s.db.platform, iterate(s.position.request.path),
              ListingOf(w.fs, NamesIn(s.db.platform, s.position.request.path)))
  {
    hide DirPath, Iterated, ListingOf, NamesIn;
  }

  lemma StillOnTrack(sc: SpaceScanner, w: World, task: Task, s: State)
    requires sc.Valid() && Scannable(w) && UnderWay(w, task, s) && s.status == Scanning
    requires TreeOk(sc.db.S, sc.db.rootFile, sc.db.hash) && Works(w, s, [], sc.Abs())
    requires Tidy(Snap(sc.db.S)) && (forall q :: q in w.fs ==> w.fs[q].own >= 0)
    ensures sc.OnTrack(w, task) && (sc.scannerStatus == Scanning || sc.scannerStatus == Idle)
    ensures TaskRank(w, task, sc.Abs()) < TaskRank(w, task, s)
  {
    hide *;
    var t := sc.Abs();
    AbsIs(sc);
    WorkMoves(w, s, t);
    TaskStep(w, task, s, Work([]), t);
    OnTrackNow(sc, w, task);
  }

  lemma WorkMoves(w: World, s: State, t: State)
    requires Works(w, s, [], t) && s.status == Scanning
    ensures Moves(w, s, Work([]), t) && ScanRuns.Quiet(Work([])) && Effective(s, Work([]))
    ensures t.status == Scanning || t.status == Idle
  {
    hide Stores, Enumerates, EnqueuedAll, EnqueuedChildren;
  }

  lemma ScanUnderWay(w: World, s: State)
    requires Tracks(w, {}, s)
    ensures UnderWay(w, Scan, s)
  {
    hide Tracks;
  }

  lemma RestsHands(s: SpaceScanner, t: Tree)
    requires TreeOk(s.db.S, s.db.rootFile, s.db.hash) && Rests(t, s.Abs()) && s.HandsOk()
    ensures s.position.AtRest? && s.scannedEntries == [] && s.Abs().tree == t
    ensures s.Abs().stage == Resting(true) ==> s.position.slept
  {
    AbsIs(s);
  }

  /** With nothing to do, the worker goes to sleep. */
  lemma SleepsOn(w: World, t: Tree, s: State, u: State)
    requires Rests(t, s) && Works(w, s, [], u)
    ensures Rests(t, u) && u.stage == Resting(true)
  {
    assert EnqueuedAll(s.queue, Asks([], false), true) == s.queue;
  }

  lemma UpdateLetsIn(w: World, t: Tree, d: Address)
    ensures LetIn(w, Update(t, d)) == NewDirs(w, t, d)
  {
    hide NewDirs;
  }
}
