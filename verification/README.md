# SpaceDisplay, verified model

SpaceDisplay keeps a picture of a directory tree in memory, brings it up to date with a scanner
thread, and shows it as a treemap. This project models the parts that decide whether that picture
is right, and proves what they achieve together.

| Part | Files here |
|---|---|
| The tree of `FileEntry` objects: bins of equal-sized children in decreasing order, chained through `nextEntry`, with links to parents | `SizeBins`, `Forest`, `FileEntries`, `Trees`, `Sums` |
| The database over that tree: reconciliation with a listing, index by path hash, running totals, lookup | `Index`, `Reconcile`, `Mirror`, `Lookup`, `FileDBs` |
| Paths: parsing, printing, comparing | `Crcs`, `FilePaths`, `ScanPaths` |
| The scanner: its queue, its worker as a state machine, whole scans, incremental updates and rescans | `ScanQueues`, `Snapshots`, `ScanRuns`, `FullScans`, `IncrementalUpdates`, `Rescans`, `SpaceScanners` |
| The treemap, the views, and the view on the screen | `Treemap`, `Tilings`, `Shares`, `Overflows`, `Layouts`, `Pictures`, `Glimpses`, `FileEntryViews`, `FileViewDBs` |
| The cache of least recently used keys | `PriorityCaches`, `IdealCaches` |

## How it fits together

Classes (`FileEntry`, `FileDB`, `FilePath`, `SpaceScanner`, `FileEntryView`, `FileViewDB`,
`PriorityCache`) have the fields of the original and update them in place. Each has an abstraction to a value, and each
method is proved against a function of values:

- `Snap(S)` is the present state of the entries in `S` as a `Forest`; `Sound` says that bins are
  uniform, non-empty and strictly decreasing, hold every child exactly once and under its size,
  and that path hashes are those of the parent and the name combined. `SoundBut` allows one child
  to be filed under its size before a change: the hole that `OnChildSizeChanged` carries to the root.
- `TreeOf` turns a forest into a directory tree: a map from chains of names to kind and own size.
  The own size of a directory is its size less the sizes of its children; the scanner passes one
  for directories, too.
- `SpaceScanner.Abs` is the tree in the database, the queue as chains of names, the status and the
  place of the worker. `ScanRuns.Moves` says how this state may change, by a step of the worker or
  by a pause, resume, stop or rescan from outside. Every method of the class makes such a move, and
  theorems about whole runs are about sequences of moves.
- The hash is an arbitrary function from strings to 16 bits. Only properties of xor are used.

Main results: `FullScanExact` and `FullScanEnds` (what a full scan achieves under every interleaving
of pauses and resumes), `SpaceScanner.WorkerRun` (the same of the objects themselves),
`ResumedEnds` and `StopStops` (a resume and a stop do what they are for), `UpdateExact`,
`UpdateRight` and `UpdateEnds` with `SpaceScanner.WorkerUpdate` (incremental updates),
`RescanExact` and `RescanEnds` (scanning a directory again), `SetChildrenForPath` with `Finished`, `MirrorReconciled`, `Recount` and `IndexedOnce` (the
database), `ClimbSound` (repair of a chain of ancestors), `LookupExact` (when lookup by hash is
right), `BatchIsOneByOne` (the fast queue insertion), `ViewTiles`, `FirstBinBalances`,
`RenewedNested`, `RenewedTiled`, `FileViewDB.Update` and `AreaShare` (the treemap: nothing is lost,
and every area is near its share), `WayShown` and `OnlyEntries` (which entries a view shows, at any
depth), `ReconstructFrom` against `Built` (reusing views is building them), `PerformAll` and `HoldsMostRecent` (the cache),
`RoundTrip` and `ComparedIsPrefixOrder` (paths).

Some promises hold only under a condition, which is then stated exactly, with both directions:
`LookupExact` (no prefix hash cancels out), `UpdateRight` (no new directory to be skipped has
content), `TidyExactly` (a file that a directory path finds gets no children), `RenewedNested` (title
and border leave something to divide, or no child has an old area), `SizesFall` (where the free
space comes in), `RoundTrip` (which paths are read back from their own text).

The allocation leaves the areas of children in an empty part as they were. In the program this does
no harm wherever there is anything to divide: `ViewTiles` proves that the areas tile whatever was
there before, as long as sizes are in the order that every view has and children of no size have no
area; `BuiltRenewed` proves that a view, reused or new, meets this when it is laid out.
`StaleOverlaps` shows that the allocation on its own does need children of no size to have no area;
it is not a state that the program reaches. What does happen: where title and border leave nothing
of the window, a reused view of unknown space that comes first keeps its old area
(`SpaceSticksOut`).

Comments and code of the original disagree on `addToQueue`: the comment
(lib/include/spacescanner.h:136-146) says that a path is not added when the queue has one contained
in it. The code adds it in any case, and takes out the requests at or below it. The model follows
the code (`ClearedExactly`, `EnqueuedReaches`, `EventForgets`).

## Model

| member | source | states |
|---|---|---|
| SizeBins.InsertInserts | lib/src/fileentry.cpp:80-100 | Adding to the bins keeps them strictly decreasing and non-empty, adds exactly one occurrence and its size, and moves no other entry to another size |
| SizeBins.InsertPlace | lib/src/fileentry.cpp:80-100 | In the order of traversal the added child comes right after all that are larger and before all others, whose order stays |
| SizeBins.RefileRefiles | lib/src/fileentry.cpp:182-228 | Taking a child from the bin of its old size and adding it again keeps bins in order, holds the same entries, changes the total by the difference, and files nothing else anew |
| SizeBins.SweepProper | lib/src/fileentry.cpp:39-72 | A sweep leaves no empty bin and keeps strictly decreasing sizes |
| SizeBins.SweepFlat | lib/src/fileentry.cpp:39-72 | The children that stay keep their relative order, although the head of each chain is dealt with last |
| SizeBins.SweptBag | lib/src/fileentry.cpp:39-72 | What is handed over is exactly what was marked, each entry as often as it was there |
| Forest.ReinsertSound | lib/src/fileentry.cpp:182-232 | One level of a size change closes the hole at the child and opens one at the parent; own sizes and all other entries stay |
| Forest.ClimbSound | lib/src/fileentry.cpp:182-232 | A size change repairs the whole chain of ancestors: the tree is sound, every proper ancestor grew by the difference, no own size, hash or other entry changed |
| FileEntries.FileEntry.Create | lib/src/fileentry.cpp:12-24 | There is no entry with an empty name; a new one has the hash of its name and no children |
| FileEntries.FileEntry.LinkChild | lib/src/fileentry.cpp:80-100 | The linked chains represent the bins with the child filed under its size; its parent and path hash are set |
| FileEntries.FileEntry.UnlinkChild | lib/src/fileentry.cpp:187-224 | Unlinking from a chain, at its head or inside, represents the bins without the child, and erases a bin left empty |
| FileEntries.FileEntry.MoveChild | lib/src/fileentry.cpp:182-229 | One level on the linked objects is one step of the repair on values |
| FileEntries.FileEntry.OnChildSizeChanged | lib/src/fileentry.cpp:182-232 | The recursion over linked objects, which ends by depth, has the effect that `ClimbSound` is about |
| FileEntries.FileEntry.SetSize | lib/src/fileentry.cpp:102-108 | The entry has the new size and the ancestors are repaired; a difference of zero changes nothing |
| FileEntries.FileEntry.AddChild | lib/src/fileentry.cpp:26-37 | The tree with a new leaf, sizes carried to the root |
| FileEntries.FileEntry.SweepChildren | lib/src/fileentry.cpp:39-72 | The loop over bins and chains takes out all marked children and adds up their sizes |
| FileEntries.FileEntry.RemovePendingDelete | lib/src/fileentry.cpp:39-78 | The marked children leave with everything below them, which stays linked among itself, and sizes are lowered up to the root |
| FileEntries.FileEntry.MarkChildrenPendingDelete | lib/src/fileentry.cpp:153-168 | Every child is marked, and files and directories are counted |
| FileEntries.FileEntry.UnmarkPendingDelete | lib/src/fileentry.cpp:170-172 | The mark is gone |
| FileEntries.FileEntry.ForEach | lib/src/fileentry.cpp:134-151 | Children are visited in traversal order, up to and including the first that the callback turns down |
| FileEntries.UntilExactly | lib/src/fileentry.cpp:134-151 | What is visited is a prefix; the visit goes on exactly as long as it is told to, and the one that turns it down is the last |
| Trees.ChainUnique | lib/src/filedb.cpp:140-160 | Where siblings have different names, the chain of names identifies an entry |
| Sums.TotalIsSum | lib/src/fileentry.cpp:182-232 | The total of the bins is the sum of the sizes of the children |
| Sums.SizeIsSum | lib/src/fileentry.cpp:26-37 | The size of an entry is the sum of the own sizes of everything at and below it |
| Index.AddIndexed | lib/src/filedb.cpp:84-91 | Adding to a bucket, old or new, indexes exactly one entry more |
| Index.EraseIndexed | lib/src/filedb.cpp:118-138 | Erasing from a bucket, and an emptied bucket with it, indexes exactly one entry less |
| Reconcile.StartProgress | lib/src/filedb.cpp:41-45 | With every child marked, none of the listing is dealt with |
| Reconcile.KeepProgress | lib/src/filedb.cpp:48-62 | Unmarking a child that is listed deals with its name, when it is a directory or has the listed size |
| Reconcile.ResizeProgress | lib/src/filedb.cpp:58-65 | Resizing a file, with all that happens to its ancestors, deals with its name |
| Reconcile.AddProgress | lib/src/filedb.cpp:66-76 | Adding a listed entry deals with its name |
| Reconcile.FinishProgress | lib/src/filedb.cpp:94-98 | When all names are dealt with, what is marked is what is not listed, and sweeping it out finishes the reconciliation |
| Mirror.MirrorReconciled | lib/src/filedb.cpp:25-112 | As a directory tree, the result has exactly the listed children; kept directories keep all that is below them, everything elsewhere is the same, for every sound and tidy tree |
| Mirror.TidyAfter | lib/src/filedb.cpp:25-112 | Listings without negative sizes leave no negative own size and no file with children |
| Mirror.TidyExactly | lib/src/filedb.cpp:28-39 | The tree stays tidy if and only if the entry found is a directory or the listing is empty |
| Lookup.FileFound | lib/src/filedb.cpp:184-200 | The path of a directory may find the entry of a file: in a sound and tidy tree with a file "n", the path root/n/ does |
| Lookup.ChainHash | lib/src/fileentry.cpp:122-124 | In every sound tree the path hash of an entry is the hash of its chain of names |
| Lookup.PathHash | lib/src/filepath.cpp:92-116 | The prefix hashes of a path are the hashes of the prefixes of its chain of names |
| Lookup.IsMatches | lib/src/filedb.cpp:162-205 | The entry that a path names is always accepted |
| Lookup.MatchesCancel | lib/src/filedb.cpp:184-200 | What is accepted has a chain that is a suffix of the path, and the part left unmatched has the hash of the root |
| Lookup.MatchesIs | lib/src/filedb.cpp:162-205 | Unless a proper prefix has the hash of the root, exactly the entry named is accepted |
| Lookup.CancellationMisleads | lib/src/filedb.cpp:184-200 | Whenever a proper prefix has the hash of the root, there is a sound tree in which another entry is accepted |
| Lookup.DoubledCancels | lib/src/filedb.cpp:184-200 | For every hash function, root/x/x/b is a path where that happens |
| Lookup.LookupExact | lib/src/filedb.cpp:162-205 | Acceptance is right in every sound tree if and only if no proper prefix has the hash of the root |
| FileDBs.FileDB.constructor | lib/src/filedb.cpp:14-18 | A database of just its root, with the name in normal form |
| FileDBs.FileDB.Open | lib/src/filepath.cpp:8-22 | There is a database exactly when the path is not empty |
| FileDBs.FileDB.FindChild | lib/src/filedb.cpp:140-160 | Lookup by parent needs no hypothesis on hashes: it returns the child of that name, or there is none |
| FileDBs.FileDB.WalkUp | lib/src/filedb.cpp:180-198 | The walk reaches the root exactly if the chain of the entry is a suffix of the names of the path |
| FileDBs.FileDB.FindEntry | lib/src/filedb.cpp:162-205 | An accepted entry, or null when none is; and the entry named, or null when there is none, if no prefix cancels out |
| FileDBs.FileDB.MarkPhase | lib/src/filedb.cpp:41-45 | Both counts are those of all children, and nothing but marks changes |
| FileDBs.FileDB.KeepChild | lib/src/filedb.cpp:50-65 | A listed child is dealt with; index and totals stay right; a directory or a file of the same size is merely unmarked |
| FileDBs.FileDB.AddEntry | lib/src/filedb.cpp:66-91 | A new child is dealt with, counted and indexed |
| FileDBs.FileDB.TakeEntry | lib/src/filedb.cpp:47-92 | After each entry of the listing the two counts are exactly the numbers of files and directories that would be deleted |
| FileDBs.FileDB.Purge | lib/src/filedb.cpp:94-106 | Exactly the entries below unlisted children leave the tree, the index and the counts |
| FileDBs.FileDB.SweepPhase | lib/src/filedb.cpp:94-106 | As many children are deleted as the remaining counts predict, and without a sweep nothing was to be deleted |
| FileDBs.FileDB.SortedBySize | lib/src/filedb.cpp:30-34 | The same entries in order of decreasing size |
| FileDBs.FileDB.CleanupEntryCrc | lib/src/filedb.cpp:118-138 | The recursion takes exactly the deleted subtree out of index and counts |
| FileDBs.FileDB.SetChildrenForPath | lib/src/filedb.cpp:25-112 | For every valid database and every listing with different names: the tree is the reconciled one, index and totals are right, the new paths are those of the new directories, a settled directory is not changed at all, and a refusal changes nothing |
| FileDBs.FinishedSettled | lib/src/filedb.cpp:25-112 | After a reconciliation the directory is settled, so that repeating the call changes nothing |
| FileDBs.FoundExactly | lib/src/filedb.cpp:162-205 | In every valid database, for a path without cancellation, accepted and named are the same |
| FileDBs.SweptIs | lib/src/filedb.cpp:94-98 | A sweep hands over each unlisted child exactly once |
| FileDBs.UnderKids | lib/src/filedb.cpp:118-122 | What is below an entry is what is at or below its children: the recursion misses nothing and counts nothing twice |
| FileDBs.Recount | lib/src/filedb.cpp:70-75 | In every valid database the counters are the numbers of files and of directories, root included, and the used space is the sum of all own sizes |
| FileDBs.IndexedOnce | lib/src/filedb.cpp:84-91 | For every hash function, each entry below the root is in the index once, in the bucket of the hash of its chain of names |
| FileDBs.IndexedOnly | lib/src/filedb.cpp:118-138 | The index holds nothing else, and no empty bucket |
| FilePaths.Normalize | lib/src/filepath.cpp:173-191 | The loops that change a string in place compute a normal form: with all separators made native, the text itself, or the text without separators at its end, or with a single one there |
| FilePaths.NormalizedExactly | lib/src/filepath.cpp:173-191 | A string is the result if and only if it is that normal form of the text, said of characters only: a prefix of the text, but for a last separator in mode Add, and nothing but separators is left out |
| FilePaths.NormalizedIsNormal | lib/src/filepath.cpp:173-191 | In each mode every string is brought into normal form, and strings in normal form are exactly those left alone |
| FilePaths.NormalizeIdempotent | lib/src/filepath.cpp:173-191 | Normalizing twice is normalizing once |
| FilePaths.FilePath.FromRoot | lib/src/filepath.cpp:8-22 | A path of one part in normal form, unless the root is empty |
| FilePaths.FilePath.FromText | lib/src/filepath.cpp:24-56 | A path exactly if neither text is empty and the normalized path begins with the normalized root; its parts are well formed |
| FilePaths.ParsedDir | lib/src/filepath.cpp:24-56 | What is accepted is a directory if and only if the text ends in a slash or a backslash, on either platform |
| FilePaths.FilePath.GetPath | lib/src/filepath.cpp:58-68 | The parts in a row, with or without a last separator |
| FilePaths.FilePath.GetName | lib/src/filepath.cpp:70-78 | The last name without separator; the root as it is |
| FilePaths.FilePath.AddDir | lib/src/filepath.cpp:92-105 | One directory more, with the name and a separator as its part; refused for an empty name or below a file |
| FilePaths.FilePath.AddFile | lib/src/filepath.cpp:107-116 | One file more, with the name as its part; refused for an empty name or below a file |
| FilePaths.FilePath.GoUp | lib/src/filepath.cpp:126-133 | The path above, unless at the root |
| FilePaths.FilePath.CompareTo | lib/src/filepath.cpp:135-159 | The comparison that looks at hashes first |
| FilePaths.FilePath.MakeRelativeTo | lib/src/filepath.cpp:161-171 | Succeeds exactly for a child, and then the parts of the parent followed by those of the result are the original parts |
| FilePaths.ComparedIsPrefixOrder | lib/src/filepath.cpp:135-159 | For every hash function, comparing hashes first gives exactly the prefix order of the parts |
| FilePaths.ComparedIsOrder | lib/src/filepath.cpp:135-159 | The comparison is antisymmetric, equality is equality, and being a parent is transitive |
| FilePaths.ParsePrint | lib/src/filepath.cpp:24-68 | The text of a parsed path is the normalized input |
| FilePaths.PrintParse | lib/src/filepath.cpp:24-68 | A clean path is read back from its own text and root, hashes included |
| FilePaths.AddKeepsBuilt | lib/src/filepath.cpp:92-116 | Adding names without separators keeps a path clean and its prefix hashes right, whether or not the hash is passed |
| FilePaths.BuiltIsClean | lib/src/filepath.cpp:92-116 | Paths built from a root by adding names are clean |
| FilePaths.RoundTrip | lib/src/filepath.cpp:24-68 | A well-formed path is read back from its own text if and only if it is clean |
| FilePaths.ParsedIsWellFormed | lib/src/filepath.cpp:24-56 | Whatever is accepted has non-empty parts, all but the last one directories, with the right prefix hashes |
| ScanQueues.ClearedExactly | lib/src/spacescanner.cpp:251-267 | A new request removes exactly the requests at or below it, up to and including an equal one |
| ScanQueues.EnqueuedReaches | lib/src/spacescanner.cpp:251-277 | No new request keeps a directory from being listed, unless it is for a directory above and not recursive |
| ScanQueues.EventForgets | lib/src/spacescanner.cpp:72 | Such a request does make the scanner forget one below it |
| ScanQueues.EnqueuedKeeps | lib/src/spacescanner.cpp:251-277 | No two requests for the same path, and every path below the root, if that was so before |
| ScanQueues.EnqueuedOrder | lib/src/spacescanner.cpp:251-277 | The new request is at the very front or the very back, and what is left of the queue keeps its order |
| ScanQueues.BatchIsOneByOne | lib/src/spacescanner.cpp:231-241 | Putting requests for siblings in place without looking at the queue is adding them one by one, if the queue has nothing to do with their parent |
| ScanQueues.BatchedOrder | lib/src/spacescanner.cpp:231-241 | A batch is appended in its order, or comes to the front in reverse; the queue itself stays as it was |
| ScanQueues.ChildrenOneByOne | lib/src/spacescanner.cpp:210-249 | In every case: the queue is unchanged when the first related request is a recursive one above, and otherwise as after adding one by one |
| ScanQueues.ChildrenReached | lib/src/spacescanner.cpp:210-249 | Whichever way children are queued: every directory that the queue or the children reached is still reached |
| Snapshots.ListingAdvances | lib/src/spacescanner.cpp:122-148 | Listing a pending directory moves the frontier between known and unknown down by one level, and by nothing else: the database was empty below it |
| Snapshots.ListingShows | lib/src/spacescanner.cpp:122-148 | The same where the database holds anything below it: old sizes, entries that are gone, entries that are missing |
| Snapshots.AdvancedFrontier | lib/src/spacescanner.cpp:169-208 | No pending directory is at or below another one, before and after |
| Snapshots.LeftFalls | lib/src/spacescanner.cpp:103-150 | The set of directories left to list loses exactly the one listed |
| Snapshots.KnownEnds | lib/src/spacescanner.cpp:47 | With the root pending nothing is known; with nothing pending everything visible is |
| ScanRuns.BudgetFalls | lib/src/spacescanner.cpp:129-148 | While paused, a step of the worker uses up what updates there may still be |
| ScanRuns.BoundedPause | lib/src/spacescanner.cpp:322-329 | Over every run: once paused, and until a resume, rescan, stop or event, the database is updated at most once more |
| ScanRuns.StopFalls | lib/src/spacescanner.cpp:129-163 | After a stop every step of the worker gets closer to idle with an empty queue, and only one that was about to store changes the database |
| ScanRuns.StopStops | lib/src/spacescanner.cpp:348-357 | Over every run: after a stop, and until a rescan or an event, the database is updated at most once more, and only if the worker was about to; after seven steps of the worker the scanner is idle and the queue empty |
| ScanRuns.OrderlyKept | lib/src/spacescanner.cpp:80-277 | Every move keeps the requests in the queue for different paths |
| ScanRuns.RunOrderly | lib/src/spacescanner.cpp:80-277 | No queue of any run holds two requests for the same path |
| FullScans.FindsItself | lib/src/filedb.cpp:162-205 | Without cancellation the database finds a directory only under its own path |
| FullScans.StepTracks | lib/src/spacescanner.cpp:103-150 | Every step, pause and resume keeps the database in line with the file system at all that is known; only an update gets further |
| FullScans.RunTracks | lib/src/spacescanner.cpp:103-150 | Along every quiet run each directory is either listed once or still to be listed |
| FullScans.FullScanExact | lib/src/spacescanner.cpp:80-249 | A full scan, however paused and resumed, ends with the tree of the file system, excluded mount points as childless directories, each other directory listed exactly once |
| FullScans.RankFalls | lib/src/spacescanner.cpp:103-163 | Every step that is not waiting gets closer to the end |
| FullScans.EffortBounded | lib/src/spacescanner.cpp:103-163 | Over every run the steps taken and the steps left do not exceed the steps there were |
| FullScans.FullScanEnds | lib/src/spacescanner.cpp:80-167 | A full scan takes at most five steps for each directory and four more, and after as many it is idle |
| FullScans.DepthFirst | lib/src/spacescanner.cpp:144-150 | Depth first: after a directory its subdirectories are listed before anything else that was queued, the one found last at once |
| IncrementalUpdates.UpdateStores | lib/src/spacescanner.cpp:135-137 | After the one listing, the database lacks nothing but what is below the new directories |
| IncrementalUpdates.ScanRests | lib/src/spacescanner.cpp:151-163 | What a full scan, or an update, ends in is a scanner at rest, from which the next update starts |
| IncrementalUpdates.NoticeAwaits | lib/src/spacescanner.cpp:87-117 | From rest, popping events for one directory, however many, comes to taking one request for it, in one step |
| IncrementalUpdates.UpdateExact | lib/src/spacescanner.cpp:87-148 | From rest, events for the directory that has changed, run to the end, make the database equal to the file system again, new directories being entered even if they are to be skipped; the directory and those at and below the new ones are listed once each |
| IncrementalUpdates.UpdateRight | lib/src/filedb.cpp:77-82 | The result is what a full scan would show if and only if no new directory to be skipped has content |
| IncrementalUpdates.UpdateEntersSkipped | lib/src/filedb.cpp:77-82 | A new directory to be skipped with a file in it: there the result is not what a full scan would show |
| IncrementalUpdates.UpdateEnds | lib/src/spacescanner.cpp:80-167 | An update takes at most five steps for each directory at and below the new ones and eight more, and after as many it is over |
| IncrementalUpdates.TaskStep | lib/src/spacescanner.cpp:80-167 | Scans and updates alike: every step keeps the task under way and gets closer to its end |
| IncrementalUpdates.ResumedEnds | lib/src/spacescanner.cpp:331-338 | From any point of a scan or an update, over every run of worker steps, pauses and resumes whose last resume is not followed by a pause: after as many steps of the worker, waiting or not, as were left at first, the scanner is at rest with the right tree |
| IncrementalUpdates.FullScanResumes | lib/src/spacescanner.cpp:139-142 | A full scan whose last resume is followed by no pause and by five steps of the worker for each directory and four more is idle, with the tree of the file system |
| Rescans.RescanNext | lib/src/spacescanner.cpp:375-383 | A rescan goes to the front, and a worker that finds nothing to enter first takes it up next, whatever else is queued |
| Rescans.EventsWait | lib/src/spacescanner.cpp:72 | The last event is at the very back of the queue |
| Rescans.RescanExact | lib/src/spacescanner.cpp:368-384 | From rest, where the database is out of date anywhere below a directory: a rescan of it, run to the end, makes the database equal to the file system, and lists each directory at or below it that a scan enters exactly once |
| Rescans.RescanEnds | lib/src/spacescanner.cpp:368-384 | A rescan takes at most five steps for each such directory and four more, and after as many the scanner is idle |
| ScanPaths.OrderOfNames | lib/src/filepath.cpp:135-159 | Comparing two paths of directories below the root is comparing their chains of names |
| ScanPaths.WithDirNames | lib/src/filepath.cpp:92-105 | Adding a directory to a path adds its name to the chain |
| ScanPaths.TextOfNames | lib/src/spacescanner.cpp:180-186 | The text compared with the excluded mount points depends on the chain of names only |
| ScanPaths.MatchesFinds | lib/src/filedb.cpp:162-205 | What the database accepts for a path is what the state machine lets it find for the chain of names |
| SpaceScanners.SpaceScanner.constructor | lib/src/spacescanner.cpp:15-51 | The start of a full scan: nothing but the root known, one recursive request queued |
| SpaceScanners.SpaceScanner.AddToQueue | lib/src/spacescanner.cpp:251-277 | The loop over the queue of paths is the insertion on chains of names |
| SpaceScanners.SpaceScanner.AddChildrenToQueue | lib/src/spacescanner.cpp:210-249 | The same of the insertion of children, in all of its three outcomes |
| SpaceScanners.SpaceScanner.CheckForEvents | lib/src/spacescanner.cpp:59-78 | A request at the back for each event at or below the root; the scan is restarted exactly if there is one |
| SpaceScanners.EventHeard | lib/src/spacescanner.cpp:66-74 | An event with the text of a directory below the root is heard as one for just that directory |
| SpaceScanners.EventsInOrder | lib/src/spacescanner.cpp:63-74 | Events are heard one by one, in order |
| SpaceScanners.SpaceScanner.PauseScan | lib/src/spacescanner.cpp:322-329 | A scan that was running is paused and true returned, in every other status nothing changes |
| SpaceScanners.SpaceScanner.ResumeScan | lib/src/spacescanner.cpp:331-338 | A scan that was paused is running again and true returned, in every other status nothing changes; `ResumedEnds` says what that achieves |
| SpaceScanners.SpaceScanner.StopScan | lib/src/spacescanner.cpp:349-353 | Unless idle the scanner is stopping; `StopStops` says what that achieves |
| SpaceScanners.SpaceScanner.RescanPath | lib/src/spacescanner.cpp:368-384 | If the database finds the path, the scanner runs with the new mount lists and the request in front; otherwise nothing changes at all |
| SpaceScanners.SpaceScanner.EnterLoop | lib/src/spacescanner.cpp:82-117 | Waking up, noticing events and taking the first request is a step of the state machine |
| SpaceScanners.SpaceScanner.ReadDirectory | lib/src/spacescanner.cpp:169-208 | An entry for everything found, and paths for the directories that are to be entered, in order |
| SpaceScanners.SpaceScanner.ScanChildrenAt | lib/src/spacescanner.cpp:123-124 | Listing a directory is a step: the listing is that of the file system, the paths are those of its directories without excluded ones |
| SpaceScanners.SpaceScanner.CheckStop | lib/src/spacescanner.cpp:129-133 | Noticing a stop is a step |
| SpaceScanners.SpaceScanner.StoreEntries | lib/src/spacescanner.cpp:135-137 | Updating the database is a step: the tree of the objects becomes the reconciled tree, and the new paths are those of the directories added |
| SpaceScanners.SpaceScanner.CheckPause | lib/src/spacescanner.cpp:139-142 | Waiting while paused is a step that changes nothing |
| SpaceScanners.SpaceScanner.JoinQueue | lib/src/spacescanner.cpp:144-150 | Queueing what was found, noticing events and taking the next request is a step |
| SpaceScanners.SpaceScanner.BreakOff | lib/src/spacescanner.cpp:151-154 | Clearing the queue after a stop is a step |
| SpaceScanners.SpaceScanner.GoIdle | lib/src/spacescanner.cpp:163 | Getting idle is a step |
| SpaceScanners.SpaceScanner.WorkerStep | lib/src/spacescanner.cpp:80-167 | A step of the worker on the objects keeps its scan or update under way and gets closer to the end |
| SpaceScanners.SpaceScanner.WorkerRun | lib/src/spacescanner.cpp:80-167 | The worker on its own, from any point of a scan or an update, comes to rest with the tree of the file system in its database |
| SpaceScanners.SpaceScanner.WorkerUpdate | lib/src/spacescanner.cpp:80-167 | From rest, with watcher events for one directory, the objects come to rest with the database up to date again |
| SpaceScanners.NewPathsAre | lib/src/filedb.cpp:77-82 | The paths collected by the database are, each once, those of the listed directories it did not have |
| SpaceScanners.StartsOnTrack | lib/src/spacescanner.cpp:15-51 | A new scanner is on track in every world in which everything can be found |
| Treemap.BinStops | app-gui/src/fileentryview.cpp:257-268 | The first bin never swallows the last child |
| Treemap.FirstBinPart | app-gui/src/fileentryview.cpp:250-268 | Both bins have children, fewer than all: the recursion ends |
| Treemap.FirstBinBalances | app-gui/src/fileentryview.cpp:257-268 | The greedy bins are the best balanced ones, with the fewest children in the first, whenever children of no size come last |
| Treemap.PartsProportional | app-gui/src/fileentryview.cpp:278-322 | The first bin gets its share of the area, less than one line of pixels missing, and the cut is across the longer side |
| Tilings.AllocatedCovers | app-gui/src/fileentryview.cpp:218-333 | What is covered is the area of the rectangle and whatever was left as it was: not a pixel is lost |
| Tilings.AllocatedFits | app-gui/src/fileentryview.cpp:218-333 | Where nothing was left as it was, the areas lie inside and do not overlap |
| Tilings.ViewTiles | app-gui/src/fileentryview.cpp:218-333 | Children in the order of a view tile every rectangle of at least one pixel, whatever areas they had before, if those of no size had none |
| Tilings.NothingStale | app-gui/src/fileentryview.cpp:219-220 | With such children, a group of two or more gets an empty part only if it has no size at all, at any depth: nothing is left as it was |
| Tilings.FirstBinThird | app-gui/src/fileentryview.cpp:257-268 | A first bin of two children or more holds at least a third of the whole |
| Tilings.FewShown | app-gui/src/fileentryview.cpp:233-248 | In a rectangle of at most fifty pixels only two children are shown |
| Shares.HiddenExactly | app-gui/src/fileentryview.cpp:233-248 | Of more than two children, not all of no size, all are laid out in more than fifty pixels and just two otherwise |
| Shares.AreaShare | app-gui/src/fileentryview.cpp:218-333 | For children in the order of a view, and after all cuts and all hiding: the area of every single child differs from its share of the rectangle by at most the shorter side for each other child, and fifty pixels |
| Shares.LargeShown | app-gui/src/fileentryview.cpp:218-333 | A child whose share is more than that is visible |
| Shares.EqualShown | app-gui/src/fileentryview.cpp:218-333 | In a rectangle that is large enough for all, each of any number of children of equal size is visible |
| Tilings.TilesExactly | app-gui/src/fileentryview.cpp:219-220 | For any sizes and areas, the areas tile the rectangle if and only if no area was left as it was in an empty part |
| Tilings.AllocatedTiles | app-gui/src/fileentryview.cpp:218-333 | Areas that were all empty before tile every rectangle of at least one pixel, whatever the order of the sizes |
| Tilings.StaleOverlaps | app-gui/src/fileentryview.cpp:219-220 | Of the allocation on its own: where one child has all the size, the areas tile if and only if the areas of all others were empty before |
| Overflows.NoOverflow | app-gui/src/fileentryview.cpp:228-318 | Bounds on the sum of sizes, the lengths and the coordinates under which every sum, difference and product that the recursion computes fits its type, at any depth |
| Overflows.NoOverflowOnScreen | app-gui/src/fileentryview.cpp:228-318 | For 64-bit sizes and 32-bit pixels: up to 199 terabytes in 46340 pixels each way |
| Layouts.LaidNested | app-gui/src/fileentryview.cpp:189-205 | After a layout of empty areas, every area that is not empty lies within what title and border of its parent leave, and siblings do not overlap, at every depth |
| Layouts.NestedMeans | app-gui/src/fileentryview.cpp:189-205 | In pixels: a border of two and a title stay free around the children |
| Layouts.RenewedNested | app-gui/src/fileentryview.cpp:189-205 | The same of a view that was reused, whose children may have areas left from before, if and only if title and border leave something to divide or no child had an area |
| Layouts.LaidTiled | app-gui/src/fileentryview.cpp:189-333 | Not a pixel is lost at any depth: the children of every view tile what title and border leave of its area |
| Layouts.TiledMeans | app-gui/src/fileentryview.cpp:189-205 | In pixels: the areas of the children add up to the width less four times the height less title and four |
| Layouts.RenewedTiled | app-gui/src/fileentryview.cpp:189-333 | The same of a view that was reused |
| Pictures.KidsFall | lib/src/fileentry.cpp:134-151 | Traversal visits the children in order of decreasing size |
| Pictures.FilledOrder | app-gui/src/fileentryview.cpp:64-97 | From any point of the loop on, sizes fall if and only if the free space does not come after a smaller unknown space |
| Pictures.SizesFall | app-gui/src/fileentryview.cpp:44-126 | The sizes in a view fall if and only if the two spaces do not clash |
| Pictures.SizesEndInZeros | app-gui/src/fileentryview.cpp:44-126 | In every view no size is negative, and nothing of any size comes after something of no size |
| Pictures.KidsOrdered | app-gui/src/fileentryview.cpp:44-126 | In every view sizes fall but for the order of the two spaces, and every child is either a cleared picture of files or space of some size with nothing in it |
| Pictures.FilledCount | app-gui/src/fileentryview.cpp:57-58 | A view has at most two children over the limit |
| Glimpses.FilledExactly | app-gui/src/fileentryview.cpp:57-116 | The children shown are exactly those of at least the smallest size that have less than a hundred views before them; all else is space |
| Glimpses.WayShown | app-gui/src/fileentryview.cpp:44-126 | At any depth: an entry is shown under its chain of names, with its kind and size, if and only if there are as many levels and every entry on the way is among the children shown of the one above |
| Glimpses.OnlyEntries | app-gui/src/fileentryview.cpp:44-126 | Whatever but space is shown under a chain of names, at any depth, is an entry with these names, that kind and that size |
| Glimpses.NotDeeper | app-gui/src/fileentryview.cpp:99-107 | Nothing deeper than the level, and nothing below an entry that is too small, is shown |
| Glimpses.LargeFit | app-gui/src/fileentryview.cpp:57-62 | Down to the level, an entry is shown if all on the way are large enough and no directory on the way has more than ninety-eight children |
| Glimpses.ViewSpaces | app-gui/src/fileentryview.cpp:64-97 | Unknown or free space is shown if and only if it is more than the size of some child shown, and then with all its size and nothing in it |
| FileEntryViews.FileEntryView.CreateView | app-gui/src/fileentryview.cpp:335-337 | A new view shows the entry as built from scratch |
| FileEntryViews.FileEntryView.ReconstructFrom | app-gui/src/fileentryview.cpp:44-126 | Whatever the view showed before, it shows the same as a new one: names, kinds, sizes, order, nesting, links to parents, and no old areas but those of spaces. In plain terms: at every depth exactly the entries to which a way fits, as in `WayShown` and `OnlyEntries` |
| FileEntryViews.BuiltShows | app-gui/src/fileentryview.cpp:44-126 | In a view just made, at every depth, an entry is shown if and only if everything on the way to it fits, and nothing else but space is shown |
| FileEntryViews.FileEntryView.FillChildren | app-gui/src/fileentryview.cpp:52-121 | Reusing, creating and dropping children comes to the children built from scratch |
| FileEntryViews.FileEntryView.ShowChild | app-gui/src/fileentryview.cpp:57-115 | One turn of the callback: the larger spaces, each once, and then the child |
| FileEntryViews.FileEntryView.FillBin | app-gui/src/fileentryview.cpp:250-268 | The loop finds the greedy bins and weighs them |
| FileEntryViews.FileEntryView.CutInTwo | app-gui/src/fileentryview.cpp:270-322 | The two rectangles are the parts that the tiling theorems are about |
| FileEntryViews.FileEntryView.CountShown | app-gui/src/fileentryview.cpp:236-241 | The loop finds the first small child after the first two |
| FileEntryViews.FileEntryView.AllocateChildren | app-gui/src/fileentryview.cpp:218-324 | The recursion over ranges of the children, in place, gives the areas that the tiling theorems are about, and touches no other area |
| FileEntryViews.FileEntryView.AllocateView | app-gui/src/fileentryview.cpp:189-205 | The recursion over a tree of views gives the layout that `LaidNested` is about |
| FileEntryViews.FileEntryView.SetChildRect | app-gui/src/fileentryview.cpp:326-333 | One area is set, to nothing when it is less than a pixel |
| FileEntryViews.ViewBalances | app-gui/src/fileentryview.cpp:257-268 | Any run of children of a view is split in the best balanced way |
| FileViewDBs.BuiltRenewed | app-gui/src/fileentryview.cpp:33-97 | A view that was made to show an entry has no old area but those of free and unknown space, which have a size: it is ready for its layout |
| FileViewDBs.ScreenShares | app-gui/src/fileentryview.cpp:189-333 | Each child of a view on the screen has its share of what title and border leave, within the bounds of `AreaShare`, and whatever areas there were before |
| FileViewDBs.SpaceSticksOut | app-gui/src/fileentryview.cpp:64-97 | The view of a directory whose largest child is smaller than the unknown space, reused in a window too small for title and border: the space keeps its old area, and the view is not nested |
| FileViewDBs.FileViewDB.Update | app-gui/src/fileviewdb.cpp:32-58 | Every update, the first and any refresh, shows the entry as built from scratch with the options of the window, so exactly the entries to which a way fits, in the area of the window; it loses no pixel at any depth, and is nested at every depth if title and border leave something to divide; without an entry nothing at all changes |
| PriorityCaches.PriorityCache.Get | lib/include/PriorityCache.h:121-133 | A hit moves to the front of the recency list, a miss comes in there and the rest is cut to the limit; what is returned is the cached or else the supplied value |
| PriorityCaches.PriorityCache.Put | lib/include/PriorityCache.h:135-145 | The key is in front with its new value; at the limit the last one goes |
| PriorityCaches.PriorityCache.AddNewValue | lib/include/PriorityCache.h:185-196 | A new key survives the trim that it causes |
| PriorityCaches.PriorityCache.Trim | lib/include/PriorityCache.h:158-169 | Sorting by stamps and erasing keeps exactly the front of the recency list |
| PriorityCaches.PriorityCache.SetMaxSize | lib/include/PriorityCache.h:171-177 | The list is cut to the new limit; a limit of zero empties it once and then is none |
| PriorityCaches.PriorityCache.Invalidate | lib/include/PriorityCache.h:179-183 | Nothing is cached, the limit stays |
| PriorityCaches.SameDecreasing | lib/include/PriorityCache.h:163 | Different stamps leave a sort only one result, so how it is done does not matter |
| IdealCaches.PerformAll | lib/include/PriorityCache.h:121-196 | Whatever sequence of operations clients perform, the cache object stays equal to the recency list |
| IdealCaches.StepsSane | lib/include/PriorityCache.h:66-73 | Over every sequence of operations no key is cached twice and a positive limit is never exceeded |
| IdealCaches.AlwaysSupplied | lib/include/PriorityCache.h:121-133 | Where nothing is put, what is got is always what the supplier has |
| IdealCaches.HoldsMostRecent | lib/include/PriorityCache.h:158-169 | With a limit of N, the cache holds exactly the N keys used last, each with its last value |
| IdealCaches.RecentMeans | lib/include/PriorityCache.h:158-169 | The most recent keys, said of uses only: each key used, once, with the value of its last use, later uses first |
| IdealCaches.KeepsUsed | lib/include/PriorityCache.h:121-145 | Any sequence of puts and successful gets leaves what `HoldsMostRecent` says of these uses, one a call |
| IdealCaches.TrimKeeps | lib/include/PriorityCache.h:158-169 | Trimming keeps the first entries, as many as are wanted, and the limit |
| IdealCaches.LimitHolds | lib/include/PriorityCache.h:171-177 | A new limit holds at once and whatever is done after it, until there is another one |

## Left out

- SpaceScanners.SpaceScanner.StoreEntries: that it is a step of the state machine is stated for a tidy tree only (no file has children, no own size is negative). It stays tidy if the request finds a directory; a file found under a directory path would get children, see `TidyExactly`.
- Tilings.AllocatedTiles: `Allocated` requires sizes that are not negative, as every view built from a tidy tree has them; the source does not check.
- IncrementalUpdates.UpdateExact: no events are popped while the update is under way, and it presupposes that entries that stay also keep their kind, as the database never changes a stored kind.
- FullScans.FullScanExact: presupposes that no proper prefix of the path of a directory has the hash of the root, without which the database may take one directory for another (`CancellationMisleads`).
- FullScans.FullScanExact and `Visible`: the tree shown has the root with an own size of zero, as the scanner never learns the size of the root itself.
- SpaceScanners.SpaceScanner.CheckForEvents: event texts end in a separator, as both watchers make them (lib/private/LinuxSpaceWatcher.cpp:124, lib/private/WinSpaceWatcher.cpp:125); other texts are not modelled.
- SpaceScanners.SpaceScanner.EnterLoop: the same of its events.
- SpaceScanners.SpaceScanner.JoinQueue: the same of its events.
- SpaceScanners.SpaceScanner.RescanPath: the path is that of a directory, as the only caller passes one (app-gui/src/spaceview.cpp:284).
- SpaceScanners.SpaceScanner.StopScan: does not wait until the worker is idle.
- FileEntries.FileEntry.AddChild: the child has no children of its own, as in the only caller (lib/src/filedb.cpp:69); the source would not update the path hashes below it.
- FileDBs.FileDB.SetChildrenForPath: the listing has no two entries of one name, as a directory has none; with two, the source would count one deletion too few.
- The body of the 16-bit checksum: any function will do.
- Directory iterators, watchers, mount tables, disk space, progress and logging: what an iterator finds is a parameter tied to a file system at rest, events and mount points are parameters.
- Whether everything is scanned eventually in spite of watcher events: the code does not give that (`EventForgets`).
- Requests that arrive between the clearing of the queue and the change to idle may be lost in the source; the state machine has that window between its steps `BreakOff` or the last `JoinQueue` and `GoIdle`, and nothing is claimed about such requests.
- Threads: every region under the scan lock and every access to the status outside of it is one step; listing a directory is one step that reads the status once, where the source reads it for each entry. The destructor and the flag that ends the worker are not modelled.
- `canPause`, `canResume` and the other plain queries.
- Widths of integers: counters, sizes and access stamps are unbounded. `NoOverflow` states when the products of the treemap fit.
- Paths inside the database and the queue are values of type `Path`; the class `FilePath` is proved against the same values. The order `std::sort` gives to equal sizes is left open where it does not matter: a sorted permutation made by insertion.
- The hash map of the index and the map of the cache are `map`s, the list of requests a `seq`; the order of a hash map is never used by the source.
- The callback of `forEach` runs over the list of visited children in the model of views, instead of being passed to the traversal.
- Relative paths: their hashes keep the part of the parent, and nothing is claimed about comparing them.
- View identifiers, tooltips, the hovered and the closest view, painting, dialogs, formatting of sizes, the minimum size computed from the window: user interface.
- FileViewDBs.FileViewDB.Update: the entry for the path of the view, the smallest size shown and the unknown and free space are parameters; that no size is negative is required, which a tidy database gives.
- `getSpace`, `setSpace`, `processEntry`: plain accessors.
