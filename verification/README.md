# A Dafny model of a cache, TLB and paging simulator

The simulator models an Intel Core 2 style machine: private L1 data and instruction
caches for each core, a shared inclusive L2 with a directory of sharers, MESI snoops,
tree-PLRU replacement, a stream prefetcher, two-level TLBs over a four-level page walk, a
frame allocator and page mapper, and a trace that a visualizer steps forward and backward.
This project models that behaviour and states and proves what it is for: that, seen from a
program, all of it together is memory.

To verify everything: `dafny verify dfyconfig.toml`.

## How the project is laid out

The source works by updating structures in place. Each routine therefore appears twice:
as a function from state to state, about which everything is proved, and as a method of a
class that updates fields, loops and follows pointers as the source does and is proved to
compute that function.

| modules | what they hold |
|---|---|
| `Types`, `Plru`, `Replacement` | address arithmetic; tree-PLRU for any power of two, and what a set under it keeps and gives up |
| `Coherence` | the coherence protocol as seen from one line: its copies, its L2 way and masks, its bytes in memory, and what every action on it keeps |
| `Caches` | the caches as sets and ways, and each routine of cpu.cpp, core.cpp and uncore.cpp as a function |
| `Projection`, `Snoops`, `Flat`, `Prefetch`, `Calls` | each routine on sets and ways does one action to one line and leaves the others alone, through all its nested evictions, fills and prefetches |
| `Sets`, `Losses` | which victims a call evicts from L2, and which calls lose bytes, told from the state before the call |
| `Arrivals`, `Streams`, `Table`, `Scan` | which lines a call prefetches and that they arrive; the stream table over runs; a whole page scanned |
| `SecondLevel`, `Recency`, `Retention` | what a call does to the ways and replacement bits of every L2 and L1 set; which lines stay and which go, over runs |
| `Outcomes` | the MESI states that a call leaves, and the performance counters |
| `Machine`, `Runs`, `WorkingSet`, `Witness` | calls and runs of any cores against flat memory, runs whose pages fit L2, and the run that shows why a proviso is needed |
| `Shadow`, `Shown`, `Trace`, `Stepping`, `Recording` | the visualizer's shadow, what it shows of L2 ways, the emitted trace, stepping both ways, and when a recording may start |
| `Paging`, `Frames`, `Mapping` | page-table entries as bytes in memory, the walk, who owns which frame, mapping |
| `Spill` | pages whose table entries lie outside their table's frame |
| `Tlb`, `System`, `Virtual`, `Fitting`, `TlbRecency` | translation, the whole machine with several processes, what programs see, and which pages stay in a TLB |
| `Remap` | a page mapped again while a TLB holds it |
| `RingBuffer`, `Delivery` | the two-thread ring buffer, step by step, on flat memory, through the caches, and on the whole machine |
| `Ways`, `Hardware`, `Kernel`, `Viewer` | the loops, and the classes `Memory`, `Process`, `Cpu`, `Allocator`, `EventQueue`, `Renderer` |

## Reading the model

- A line is named by its number, the address divided by 64. Shifts and masks are division
  and remainder. The number of cores, processes and memory bytes is arbitrary.
- The masks `core_valid_d` and `core_valid_i` are sets of core numbers; the PLRU bits are a
  sequence of booleans, one for each tree node.
- Each `cpu_*` call holds `bus_lock`, so it is one atomic step and a run of threads is any
  sequence of calls by any cores (`Machine.Op`, `System.Call`).
- `std::abort` is the outcome `Abort` of a function and `ok == false` of a method. An array
  access outside memory, which the source does not check, counts as `Abort` too.
- The callback is the event sequence `log`, appended to where the source calls it; `stamp`
  is the calling thread's sequence number and may be anything.
- `lossless` is a history variable, read by nothing: it turns false when `evict_l2` drops a
  way whose bytes differ from memory and is not MODIFIED. `Machine.Loses` tells before a call
  whether it will (`Machine.StepLoses`), and the theorems use that. `View` of a line is what
  a load must return: the MODIFIED copy, else L2, else memory; `Bytes` is that for all of
  memory.
- `Good` and `SysOk` are the invariants between calls. They hold at power-on and after
  every completed call (`Machine.InitGood`, `Virtual.InitWorks`, and the theorems on steps),
  so no theorem below is about an empty set of states; the trace, the mapper and the ring
  buffer have their starting states too (`Trace.InitTraced`, `Mapping.InitRunning`,
  `RingBuffer.StartOk`).
- L1, L2 and TLB sets are values held in fields of `Cpu`, as the C++ structs are embedded by
  value; physical memory is an array; the trace is linked nodes on the heap.

## What the code does that its comments do not say

- `snoop_downgrade_peers` makes the L2 way SHARED without writing memory (cpu.cpp:31), and
  `evict_l2` writes back MODIFIED ways only. Bytes that one core stored and another then
  loaded are lost when L2 evicts the line. The refinement to flat memory is therefore
  stated with its exact condition on the state before each call (`Machine.StepRefinesFlat`,
  `Runs.FlatIffNeverLoses`), shown to need it (`Witness.TwoCoresCanDisagree`), and proved
  without it for one core's calls (`Runs.OneCoreIsFlat`) and for any cores' calls on pages
  that fit L2 (`WorkingSet.FittingRunIsFlat`).
- A page table has 512 entries of 16 bytes, 8192 in all, in a frame of 4096. Entries from 256
  on lie in the next frame (`Paging.EntryInFrame`). A leaf entry there is erased by a later
  allocation (`Spill.SafeFromClearing`, `Spill.SpilledMappingIsLost`), and a leaf entry can
  overwrite a directory entry that the same call has just written, so that the page does not
  walk at all (`Spill.FirstPageOverwritingItself`; `Spill.FirstMappingWalks` has the exact
  condition on the indices). Everything else about mapping is proved for pages whose three
  in-memory indices are below 256.
- `page_walk` rejects tables in the last 8192 bytes of memory, `map_page` does not. Whether a
  page walks after it is mapped is told before the call, from the frames about to become
  tables (`Mapping.AllocThenWalk`); only a table in the last frame fails
  (`Mapping.LastFrameIsRejected`). The programs of the repository set the allocator's limit
  to the end of memory and stay far from it, which is enough (`Mapping.EnoughMemory`).
- `map_page` does not flush TLBs. Mapping a page of the running process again leaves a stale
  entry behind exactly when some TLB holds the page (`Virtual.MapAndTlbs`), and then loads
  read the old frame (`Remap.StaleEntryIsRead`, `Remap.RemappingMisleads`).
- The walk ors the offset into the leaf address while a TLB hit puts it after the frame
  number; the two agree for every offset exactly when the leaf is page-aligned
  (`Tlb.TranslateIsWalk`), and `map_page` takes other addresses too
  (`Tlb.UnalignedMappingDiffers`).
- Stepping back restores L1D states, L2 occupancy and counters, but not the L2 states
  themselves, nor every line: an evicted way gets its line and bytes back
  (`Trace.EvictedL1ComesBack`, `Trace.EvictedL2ComesBack`), while a way that a snoop emptied
  and a fill then took shows its old state with the fill's line
  (`Shadow.InvalidatedLineComesBack`). The renderer starts from an empty shadow, so even that much holds
  exactly of recordings that start with empty caches (`Recording.RewindsIffCold`);
  benchmarks/producer_consumer.cpp:112-120 starts one after two stores
  (`Recording.RecordingAfterAccess`). Cursor, sequence number and counters are restored
  always (`Stepping.CursorRewinds`).
- `evict_l1` reports instruction-cache victims as CACHE_L1D_EVICT, and fetches report no
  fills and no hits, so a trace is faithful only as long as fetches hit L1I, or L2 with an
  L1I way to spare (`Trace.RunIsTraced`, `Trace.FetchMissIsUntraced`).

## Model

| member | source | states |
|---|---|---|
| `Types.SplitRebuild` | types.h:24-56 | index, tag and offset of either level are fields of the line number, and `l1_to_addr`/`l2_to_addr` rebuild the line address from the pair |
| `Types.RebuildSplit` | types.h:24-56 | splitting a rebuilt address gives the same tag and index back, so an eviction that goes from an L1 way to its L2 set, or the other way, names the same line |
| `Plru.PlruUpdate` | plru.h:6-16 | the leaf-to-root loop computes `Update`, for any number of ways |
| `Plru.PlruVictim` | plru.h:18-27 | the root-to-leaf loop computes `Victim`, a way in range |
| `Plru.UpdatePath` | plru.h:6-16 | a touch rewrites every node on its way's path, each to point at its other child, and no other node |
| `Plru.TouchedWayIsSafe` | plru.h:6-27 | with 2^k ways, a touched way cannot be the victim until at least k touches of other ways have followed |
| `Plru.RoundCountsDown` | plru.h:6-27 | one victim-then-update round counts every way's wait down by one, the victim's wrapping round |
| `Plru.RoundEvicts` | plru.h:6-27 | from any bits, round n of 2^k evicts exactly the way whose wait is n |
| `Plru.RoundsVisitEveryWayOnce` | plru.h:6-27 | 2^k successive rounds from any bits visit every way, and none twice |
| `Replacement.ServedIsShielded` | plru.h:6-27 | an entry found in, or filled into, a set of 2^k ways has no tree node pointing at it |
| `Replacement.ServedShields` | plru.h:6-27 | while fewer than k accesses to other entries have followed, an entry keeps its way, whatever those accesses find or fill |
| `Replacement.EachLeavesOnce` | plru.h:6-27 | of 2^k misses in a full set of 2^k ways, each of the entries that it held leaves at exactly one |
| `Ways.FindL1Way` | core.cpp:47-56 | the loop finds the first way with the tag that is not INVALID, or none |
| `Ways.L2FindWay` | uncore.cpp:12-21 | the same over an L2 set |
| `Ways.InvalidWay` | cpu.cpp:173-177 | the scan finds the first INVALID way, or none |
| `Ways.TlbLookup` | core.cpp:16-28 | the loop returns the frame of the first valid way with the page and touches that way; a miss changes nothing |
| `Ways.TlbFill` | core.cpp:30-45 | fills the first way that is not valid, else the PLRU victim, and touches it, as `Fill` says; that a full set gives up the right page is `TlbRecency.RecentPageStays` and `TlbRecency.FourMissesReplaceEachOnce` |
| `Ways.PfLruUpdate` | core.cpp:88-97 | younger entries age by one and the touched entry becomes the youngest |
| `Ways.PfLruEvict` | core.cpp:99-109 | the first of the entries with the greatest age |
| `Ways.TouchKeepsOrder` | core.cpp:88-97 | touching keeps the ages a ranking 0 to n - 1 and keeps the others in order |
| `Ways.RecentIsYounger` | core.cpp:88-109 | over any sequence of touches, an entry touched after another one's last touch is the younger, so the eviction picks the entry unused for longest |
| `Coherence.OwnerCases` | cpu.cpp:21-112 | a MODIFIED copy is the only copy of its line, with L2 MODIFIED and the masks naming its core alone, and is what a load sees; without one a load sees L2, or memory where L2 has no way |
| `Coherence.CopyIsView` | cpu.cpp:471-482 | every L1D and L1I copy of a coherent line holds what a load must see |
| `Coherence.EvictDKeeps` | cpu.cpp:193-219 | evicting an L1D copy keeps the line coherent and what loads see, stores nothing, and hides no more bytes from memory than before |
| `Coherence.EvictIKeeps` | cpu.cpp:202-219 | the same for an L1I copy |
| `Coherence.EvictSharedKeeps` | cpu.cpp:221-308 | evicting a line from L2 keeps it coherent, and keeps what loads see if and only if its way is MODIFIED or agrees with memory |
| `Coherence.DowngradeKeeps` | cpu.cpp:21-52 | the bus-read snoop keeps the line coherent and leaves the freshest bytes in L2, with no MODIFIED copy anywhere |
| `Coherence.ReadSharedKeeps` | cpu.cpp:487-527 | a load that hits L2 keeps the line coherent, gives the reader what loads must see, and leaves bytes that memory lacks in a way that will not be written back exactly when another core shared the line (or it was so before) |
| `Coherence.FetchSharedKeeps` | cpu.cpp:724-748 | a fetch that hits an L2 way that is not MODIFIED keeps the line coherent and gives the reader what loads must see |
| `Coherence.OwnedByKeeps` | cpu.cpp:583-656 | a store leaves its core the only holder, MODIFIED, and what loads see is what was stored |
| `Coherence.FillDKeeps` | cpu.cpp:529-558 | filling an uncached line keeps it coherent and shows loads the filled bytes |
| `Coherence.FillIKeeps` | cpu.cpp:750-770 | filling an uncached line for a fetch keeps it coherent and shows loads memory's bytes |
| `Coherence.PrefetchKeeps` | cpu.cpp:328-336 | a prefetched line is coherent, shows loads what they saw, agrees with memory, and stores nothing |
| `Projection.L1FillLooks` | core.cpp:79-86 | filling a free way of an L1 set changes the lookup of that tag only and keeps tags unique |
| `Projection.L2InstallLooks` | uncore.cpp:39-67 | filling a free L2 way meets the fill's precondition, changes the lookup of that tag only, and keeps tags unique and free ways' masks empty |
| `Projection.SetMemProj` | cpu.cpp:287-293 | writing one line back changes memory's bytes of that line and nothing else of any line |
| `Snoops.DowngradePeersMoves` | cpu.cpp:36-51 | the downgrade loop touches line n only, keeps every L2 way in its place, and hands the caller the bytes that L2 now has |
| `Snoops.DownSomeIsDowngrade` | cpu.cpp:21-52 | the loop's effect is the snoop's: every other copy SHARED, the owner's bytes in L2, L2 SHARED |
| `Snoops.InvalidatePeersMoves` | cpu.cpp:82-112 | the invalidate loop empties exactly the sharers' L1D, clears their bits, and collects the owner's bytes |
| `Snoops.InvalidatePeersIMoves` | cpu.cpp:58-77 | the L1I loop empties exactly the sharers' L1I and changes no data cache |
| `Snoops.BackInvalidateMoves` | cpu.cpp:239-285 | the back-invalidation loop never meets a stale directory bit, empties both caches of every sharer, and brings a MODIFIED copy's bytes into the way |
| `Snoops.RetireMoves` | cpu.cpp:287-307 | the write-back is never out of bounds; memory gets the way's bytes exactly when it is MODIFIED; the way is cleared |
| `Snoops.EvictL2Moves` | cpu.cpp:221-308 | `evict_l2` never aborts, returns an INVALID way, keeps every invariant, and changes at most one line, the victim |
| `Snoops.EvictL1Moves` | cpu.cpp:166-219 | `evict_l1` always finds its victim in L2, returns an INVALID way, keeps every invariant, and changes at most one line's copy |
| `Flat.TracksTwice` | cpu.cpp:449-771 | what one stretch of a call may do to the lines it is not about composes over the whole call |
| `Flat.EvictL2Stretch` | cpu.cpp:221-308 | an L2 eviction leaves every other line's view alone unless it drops bytes that memory lacks; then some line's view has changed for good |
| `Flat.PfFillStretch` | cpu.cpp:314-345 | a prefetch into the demanded line's page never aborts and leaves that line as it is, in L1 and L2 |
| `Prefetch.MatchStartsBurst` | cpu.cpp:365-413 | whichever way a stream matches, its burst starts at most PREFETCH_DISTANCE + 1 lines short of the target |
| `Prefetch.BurstStretch` | cpu.cpp:414-437 | the burst's PREFETCH_DISTANCE + 1 turns always suffice: it ends blocked, or exactly PREFETCH_DISTANCE lines ahead in the same 4 KB page, having left the demanded line alone |
| `Prefetch.StreamOnMissCall` | cpu.cpp:359-447 | a miss keeps every STEADY stream's window (head - last line = direction * distance, one page), brings nothing outside the demanded page into L2, and never aborts |
| `Streams.MatchesWhere` | cpu.cpp:365-400 | a stream in training matches exactly the two lines next to its last miss, a steady one exactly the nine lines from its last miss to one past what it has prefetched |
| `Streams.Trains` | cpu.cpp:370-378 | a stream in training that matches goes on in the direction d with miss = last miss + d * LINE_SIZE; a steady one keeps its direction |
| `Streams.StreamAsks` | cpu.cpp:403-437 | which lines a miss prefetches: exactly those that lie in the demanded page and in memory, past what its stream has prefetched, and at most PREFETCH_DISTANCE lines past the miss in the stream's direction |
| `Streams.BurstEnds` | cpu.cpp:414-437 | a burst reaches its target if and only if that line is in the page and in memory, and is blocked otherwise |
| `Streams.StreamOnMissServes` | cpu.cpp:359-447 | what a miss leaves in its core's table: the first stream that matches is now steady, in its direction, PREFETCH_DISTANCE lines ahead, or in training at the miss if its burst was blocked; if none matches the oldest entry is in training at the miss; that entry is now the youngest and the other streams are as they were |
| `Table.OldestIsUnusedLongest` | core.cpp:88-109 | over any run, every other entry of a core's table has served since the last time that the entry of greatest age did |
| `Table.NewStreamTakesOldest` | core.cpp:88-109 | a miss that no stream matches puts a stream in training, at its own line, into the entry of its core's table that was unused for longest |
| `Losses.EvictL2Loses` | cpu.cpp:221-308 | an L2 eviction loses bytes if and only if its set is full and the PLRU victim holds bytes that memory lacks in a way that is not MODIFIED; it leaves the victims that other sets would choose, and what they would lose, as they were |
| `Losses.BurstLoses` | cpu.cpp:414-437 | a burst loses bytes if and only if some line it asks for is missing from a set that would, each line of the burst having a set of its own |
| `Losses.MissLoses` | cpu.cpp:529-558 | a miss loses bytes if and only if its own set or that of a line it prefetches would, before the call, although the evictions follow one another |
| `Losses.FetchMissLoses` | cpu.cpp:750-770 | the same for a fetch and the next line |
| `Calls.ReadHitCall` | cpu.cpp:469-482 | an L1D hit returns what loads must see and changes no line |
| `Calls.ReadFromL2Call` | cpu.cpp:487-527 | an L2 hit, with its nested eviction and snoop, is the per-line load action and changes no other line's view |
| `Calls.ReadFromMemoryCall` | cpu.cpp:529-558 | a miss, with its nested evictions, fills and prefetches, fills the line and returns memory's bytes, although evictions may have written memory meanwhile |
| `Calls.WriteHitCall` | cpu.cpp:583-617 | a write hit never misses L2, and makes the writer the only holder |
| `Calls.WriteFromL2Call` | cpu.cpp:623-656 | a write that hits L2 takes over the freshest bytes, whoever had them, patched by the store |
| `Calls.WriteFromMemoryCall` | cpu.cpp:658-688 | a write miss fills the patched line MODIFIED in L2 and L1D |
| `Calls.FetchFromL2Call` | cpu.cpp:724-748 | a fetch that hits L2 aborts if and only if the way is MODIFIED, and otherwise is the per-line fetch action |
| `Calls.FetchFromMemoryCall` | cpu.cpp:750-770 | a fetch miss fills L2 EXCLUSIVE and L1I SHARED with memory's bytes and prefetches the next line without touching this one |
| `Machine.InitGood` | core.h:27-66 | the zero-initialised machine satisfies every invariant |
| `Machine.StepLoses` | cpu.cpp:221-308 | whether a call loses bytes is told from the state before it: it misses L2, and its line or one that it prefetches goes to a full set whose PLRU victim holds bytes that no write-back will save |
| `Machine.StepIsAction` | cpu.cpp:449-771 | each call does one per-line action on its own line and tracks every other line; it completes if and only if the line lies in memory and it does not fetch from a MODIFIED line, so no internal abort is reachable |
| `Machine.StepKeepsDemandedLine` | cpu.cpp:449-771 | after any completed call, prefetches included, the invariants hold, the line is in the caller's L1 and in L2, and its view is the old one, patched by a store |
| `Arrivals.PfFillBrings` | cpu.cpp:314-345 | `pf_fill_l2` answers true exactly for a line of the page and of memory, and then the line is in L2: as it was if it was there, else EXCLUSIVE with memory's bytes and no sharers, and the page's other lines are untouched |
| `Arrivals.BurstBrings` | cpu.cpp:414-437 | after a burst exactly the lines of the page that it asked for and that were missing have arrived, although they are fetched one after the other into sets that may evict |
| `Arrivals.StepBrings` | cpu.cpp:449-771 | what any completed call does to the other lines of its page: if it misses L2, each line that it prefetches and that was missing is in L2, EXCLUSIVE, with memory's bytes, no sharers and no L1 copy; every other line of the page is exactly as it was |
| `Outcomes.StepCounts` | cpu.cpp:449-771 | each completed call adds one to exactly one counter of its own core, that of the first cache that has its line (L1D or L1I, L2, memory), and trains that core's prefetcher exactly if it is a load or a store that misses L2 |
| `Outcomes.StepStates` | cpu.cpp:449-771 | the MESI state of every L1D, L1I and L2 copy of the line after a load, a store or a fetch, by where the call found it |
| `Outcomes.StepStaysBusy` | cpu.cpp:202-210 | no call leaves an L2 way SHARED without a sharer: the last one out leaves it EXCLUSIVE |
| `SecondLevel.StepServes` | cpu.cpp:449-771 | what a completed call does to the L2 tag store: each line that it asks L2 for or prefetches is found, or takes an unused way, or that of the PLRU victim, and its way is touched; every other set keeps tags, used ways and replacement bits |
| `SecondLevel.RecentLineStaysInL2` | uncore.cpp:12-67 | a line that a call asked L2 for, or prefetched, is still in L2 after any run, by any cores, in which at most four calls use another line of its set |
| `SecondLevel.SixteenMissesDropEachOnce` | cpu.cpp:221-308 | of sixteen calls that each bring a line into the same full L2 set, each of the lines that it held is dropped by exactly one |
| `Recency.StepServes` | cpu.cpp:449-771 | what a completed call does to the L1 ways of all cores: in its own set the line is found, or takes an unused way, or that of the PLRU victim, and its way is touched; elsewhere ways are at most emptied, of lines that left L2 or that the call stores to |
| `Retention.RecentLineStays` | cpu.cpp:166-219 | a line that core c's call hit or filled in its L1D or L1I is still there after any run, by any cores, in which c makes at most three calls on other lines of the set, unless L2 drops it or a store takes it away |
| `Retention.EightMissesDropEachOnce` | cpu.cpp:166-219 | of eight calls of core c that miss one full L1 set, while no line of the set leaves L2, each of the set's eight lines is dropped by exactly one |
| `Retention.RecentLineStaysInBoth` | cpu.cpp:449-771 | a line for which a call had to ask L2 is still in both levels after any run with at most three rival calls of the core in the L1 set, at most four in the L2 set, and no store that takes it away |
| `Machine.StepRefinesFlat` | cpu.cpp:449-771 | every load and fetch returns flat memory's bytes; and from a state that lost nothing the machine stands for flat memory after the call if and only if, before it, neither the call's line nor one it would prefetch missed L2 in a full set whose PLRU victim has bytes that memory lacks and is not MODIFIED |
| `Machine.LoadReturnsBytes` | cpu.cpp:449-559 | a load completes if and only if its line lies in memory, and returns what flat memory holds there |
| `Machine.StoreChangesBytes` | cpu.cpp:561-689 | a store completes if and only if its line lies in memory, and is a store to flat memory if and only if neither its line nor one it would prefetch evicts bytes that memory lacks |
| `Machine.FetchReturnsBytes` | cpu.cpp:691-771 | a fetch completes if and only if its line lies in memory and it does not have to take it from a MODIFIED way, and returns what flat memory holds there |
| `Machine.CleanStep` | cpu.cpp:487-514 | from a state where no way hides bytes from memory no call loses any, and that state is kept if and only if the call is not a load that downgrades bytes memory lacks |
| `Runs.RunRefinesFlat` | cpu.cpp:449-771 | over any interleaving of calls by any cores the invariants hold throughout; a run none of whose calls loses bytes, which is told before each, returns and leaves what flat memory would |
| `Runs.FlatIffNeverLoses` | cpu.cpp:287-293 | a run stands for flat memory at every call if and only if none of its calls brings a line into a full set whose victim differs from memory and is not MODIFIED |
| `Runs.CleanRunIsFlat` | cpu.cpp:449-771 | a run without a dirty downgrade is a run of flat memory, through any number of evictions and prefetches |
| `Runs.OneCoreIsFlat` | cpu.cpp:166-345 | from power-on, any run of one core's calls is a run of flat memory, with no proviso |
| `Runs.ReachableDirectory` | cpu.cpp:166-308 | in every reachable state: inclusion, masks that name exactly the holders, no line in two L2 ways, empty masks on INVALID ways |
| `Runs.ReachableL1` | core.cpp:47-56 | in every reachable state no line is in two ways of one L1D or one L1I |
| `Runs.ReachableSharers` | uncore.cpp:39-67 | in every reachable state an L2 way that is MODIFIED or EXCLUSIVE has at most one core in its two masks |
| `Runs.ReachableShared` | cpu.cpp:202-210 | and one that is SHARED has at least one |
| `Scan.TwoAccesses` | cpu.cpp:359-447 | from power-on, two accesses of neighbouring lines a and b by one core leave of b's page exactly a, b and, beyond b as seen from a, the lines up to eight away that are in the page and in memory; those EXCLUSIVE with memory's bytes |
| `Scan.ScanFetches` | cpu.cpp:359-447 | a forward scan of one page from power-on: the first two accesses and every ninth from then on go to memory, and all the others find their line in L2 |
| `Runs.ReachableSingleWriter` | cpu.cpp:21-112 | in every reachable state a MODIFIED or EXCLUSIVE L1D copy rules out other cores' copies; MODIFIED fixes the masks, L2's state and the own L1I |
| `Runs.ReachableCopies` | cpu.cpp:58-77 | in every reachable state clean copies equal L2 byte for byte, every copy is what loads must see, and an L1I copy rules out a MODIFIED way |
| `WorkingSet.NeverFull` | cpu.cpp:221-230 | while L2 holds lines of pages that fit it only, the set of any missing line of those pages has a free way |
| `WorkingSet.ConfinedStep` | cpu.cpp:359-447 | a call on such a page loses nothing and, whatever it prefetches, leaves L2 confined to those pages |
| `WorkingSet.FittingRunIsFlat` | cpu.cpp:449-771 | from power-on, any run of any cores on pages that ask no L2 set for more lines than it has ways is a run of flat memory, whatever it shares and downgrades |
| `WorkingSet.WindowFits` | uncore.h:9-10 | any 1024 pages in a row, 4 MB, are such pages |
| `Witness.MissSet` | cpu.cpp:529-554 | a miss that trains no stream refills exactly one way of its L2 set, the first INVALID one or else the PLRU victim, and updates the PLRU bits for it |
| `Witness.PressFull` | cpu.cpp:221-308 | loads of fresh lines of one full L2 set count a line's PLRU wait down to zero and then evict it |
| `Witness.StoreIsLost` | cpu.cpp:31 | from power-on, for any one-byte store by core 0 to the first byte of a line that has 31 further lines of its L2 set in memory, there is a run that goes on with loads only and ends with a load of that byte that returns what memory held before |
| `Witness.TwoCoresCanDisagree` | cpu.cpp:31 | whatever memory holds, some run of two cores returns what flat memory would not: the proviso is needed |
| `Shadow.BackwardUndoes` | renderer.cpp:146-247 | taking an event back restores L1D states, L2 occupancy and counters, if the event recorded the state it changed |
| `Shadow.BackwardAlike` | renderer.cpp:201-247 | backward steps look at no more than what they restore |
| `Shadow.DominantIsStrongest` | renderer.cpp:131-144 | after any trace the dominant state shown for an L2 set is the strongest of its ways |
| `Shadow.CountersCount` | renderer.cpp:60-114 | after any trace each of the five counters shown for a core is the number of its events of the counter's kinds |
| `Shadow.InvalidatedLineComesBack` | renderer.cpp:201-230 | stepping back over a fill and the snoop that emptied the way before it shows the old state again, but the old line if and only if the fill was of the same line |
| `Shown.StateIsLast` | renderer.cpp:170-198 | after any trace an L2 way is shown in the new state of its last fill, prefetch or hit event, or INVALID if an eviction came last |
| `Shown.StateUnset` | renderer.cpp:684-713 | and INVALID if there was none |
| `Shown.BytesAreLast` | renderer.cpp:170-198 | its bytes are those of its last fill or prefetch that carried any |
| `Shown.LineIsLast` | renderer.cpp:170-198 | its line is that of its last fill or prefetch |
| `Shown.FilledWaysAreShown` | cpu.cpp:336-342 | a completed call only adds events, all with its own sequence number; after it each L2 way for which it reported a fill or a prefetch holds the reported line, state and bytes, and the shadow shows the way as it is |
| `Shown.L2HitIsReported` | cpu.cpp:487-496 | a load or a store that misses L1 and hits L2 reports first the way and the state in which it found its line |
| `Trace.EvictL1Keeps` | cpu.cpp:211-218 | the eviction's event replays to the caches it leaves and can be taken back, and no counter moves |
| `Trace.EvictL2Keeps` | cpu.cpp:221-308 | the back-invalidations' and the eviction's events replay to the caches they leave |
| `Trace.EvictedL1ComesBack` | renderer.cpp:208-216 | stepping back over an L1D eviction puts state, line and bytes back into the way that it left |
| `Trace.EvictedL2ComesBack` | renderer.cpp:232-240 | stepping back over an L2 eviction puts the line back into its way, with the state that it had and the bytes that it gave up |
| `Trace.StepKeepsTrace` | cpu.cpp:449-771 | a load, a store, or a fetch that hits L1I or hits L2 with a free L1I way appends events that keep the replayed shadow equal to the caches; the trace's counters move as the core's unless the call is such a fetch that hits L2 |
| `Trace.RunIsTraced` | renderer.cpp:146-198 | for any run of such calls on any cores, replaying the trace gives the L1D ways' states, lines and bytes and the L2 ways' occupancy and lines, and every event can be taken back; without fetches the hit and fetch counters move with `pmc` |
| `Trace.InitTraced` | renderer.cpp:684-713 | the zero-initialised machine with an empty trace agrees with a freshly initialised renderer |
| `Trace.ColdIsTraced` | renderer.cpp:684-713 | with nothing recorded yet, the fresh shadow shows the caches if and only if every L1D and L2 way is INVALID |
| `Trace.ZeroCountersAgree` | renderer.cpp:684-713 | and its counters agree if and only if the core's hit and fetch counters are zero |
| `Trace.FetchMissIsUntraced` | cpu.cpp:750-770 | a fetch that misses L2 from cold caches at the end of a page emits no event, so no replay can give the caches back |
| `Stepping.ForwardInStep` | renderer.cpp:250-277 | a step forward leaves the cursor at the end of a maximal run of equal sequence numbers, with the shadow of exactly the events before it |
| `Stepping.BackwardInStep` | renderer.cpp:279-296 | so does a step back |
| `Stepping.AlwaysInStep` | renderer.cpp:250-296 | whatever mixture of steps is taken, the cursor is at the end of a maximal run and the shadow shows the L1D states, L2 occupancy and counters of exactly the events up to it |
| `Stepping.BackwardUndoesForward` | renderer.cpp:250-296 | a step back undoes an advancing step forward: cursor, sequence number, L1D states, L2 occupancy, counters |
| `Stepping.BackwardsUndoForwards` | renderer.cpp:250-296 | the same for any number of advancing steps and as many back |
| `Stepping.EmittedTraceRewinds` | renderer.cpp:250-296 | recorded from any state whose L1D and L2 ways are INVALID, the trace of every run of loads, stores and quiet fetches can be stepped through and rewound |
| `Stepping.CursorRewinds` | renderer.cpp:250-296 | of any trace whatever, any number of advancing steps and as many back restore cursor, sequence number and counters |
| `Recording.RewindsIffCold` | renderer.cpp:201-247 | all traces of loads and stores recorded from a state rewind if and only if no L1D and no L2 way is valid there |
| `Recording.RecordingAfterAccess` | benchmarks/producer_consumer.cpp:112-120 | a recording switched on after any access at all, as that benchmark's is, has a one-load continuation whose trace does not rewind |
| `Paging.ReadWritten` | memory.h:6-11 | an entry written at an address is read back, over the bytes of memory |
| `Paging.ReadOther` | memory.h:6-11 | writing an entry changes no other entry |
| `Paging.EntryInFrame` | os.h:10 | entry i of a table lies in the table's own frame if and only if i < 256; from there on it is an entry of the next frame |
| `Paging.OrOffsetIs` | memory.cpp:16-20 | or-ing the offset into the address never changes the frame, and adds the offset for every offset if and only if the leaf address is page-aligned |
| `Frames.AllocFresh` | os.cpp:6-21 | the frame handed out was in nobody's use, is zeroed, and the free and used frames still partition the issued ones, whichever use it is put to; failure means that nothing is left |
| `Frames.FreeKeeps` | os.cpp:23-26 | freeing keeps the partition if and only if the frame was in use as data |
| `Frames.FreedComeBack` | os.cpp:6-26 | freed frames are handed out before any other, the last one first, and the allocator is then as it was before they were freed |
| `Frames.FreshInOrder` | os.cpp:6-21 | with nothing freed, the frames handed out follow one another from the watermark up to the limit |
| `Frames.LinkedWalk` | os.cpp:37-50 | a new, empty table hung into the tree changes no walk of any process |
| `Mapping.MapFromWorks` | os.cpp:33-54 | below a placed table the mapper keeps the tree, the partition, every linked table, and every walk but the mapped page's; exactly the frames handed out next become tables; it succeeds if and only if there are as many as tables are missing; and the page's path passes the walk's checks if and only if the old and the new tables do |
| `Mapping.MapPageWorks` | os.cpp:28-55 | after `map_page` the page is mapped, every other page of every process walks as before, and only tables were written; after a failed call every page walks as before |
| `Mapping.MapThenWalk` | memory.cpp:22-25 | a mapped page walks to its address if and only if every table on its path passes `page_walk`'s size check |
| `Mapping.AllocAndMapWorks` | os.cpp:57-69 | a frame that nobody used is mapped, zeroed, and data frames keep their bytes; or memory ran out, the frame went back, and no translation changed; which of the two, which frames and which tables are told before the call |
| `Mapping.AllocThenWalk` | os.cpp:57-69 | `alloc_and_map` succeeds if and only if there are frames for the page and its missing tables, and the page then walks to its frame if and only if the path's old tables and the frames about to become tables pass the walk's size check |
| `Mapping.StillFit` | memory.cpp:22-25 | where all tables pass the check, all still do after a mapping if and only if the frames about to become tables do |
| `Mapping.EnoughMemory` | os.cpp:6-21 | four frames for each mapping, and one beyond, are room for any run of mappings, wherever the allocator's limit lies |
| `Mapping.LastFrameIsRejected` | memory.cpp:22-25 | in a new process whose fourth frame is the last of memory, a page is mapped successfully and its walk fails |
| `Mapping.MapAllWorks` | os.cpp:6-69 | over any run of `alloc_and_map` calls for any processes, each with room for its tables, no frame is handed out twice, every page walks to the frame of its last mapping, and unmapped pages walk as they did |
| `Mapping.InitRunning` | os.cpp:71-78 | processes with empty roots and an allocator that has issued nothing satisfy the ownership invariant, and no page walks anywhere |
| `Mapping.OwnFrames` | os.cpp:57-69 | no two pages, of one process or of two, have the same frame |
| `Mapping.TablesUntouched` | memory.cpp:3-31 | writes outside the tables change no walk |
| `Spill.SafeFromClearing` | os.cpp:19 | no clearing of another frame erases a present leaf entry if and only if its index is below 256 |
| `Spill.SpilledMappingIsLost` | os.cpp:53-54 | in a new process page 256 is mapped and walks to its frame, and the next frame handed out takes the mapping with it |
| `Spill.FirstMappingWalks` | os.cpp:28-69 | for any page at all of a new process in blank memory, whatever its indices: `alloc_and_map` returns its frame, and the page walks to it right afterwards if and only if no entry of the call overwrites another, which its three indices tell |
| `Spill.FirstPageOverwritingItself` | os.cpp:53-54 | page 131072 is the first whose leaf entry overwrites its own directory entry: it is mapped successfully and its walk fails |
| `Tlb.LookupKeeps` | core.cpp:16-28 | a hit returns the frame that the walk gives |
| `Tlb.FillKeeps` | core.cpp:30-45 | filling a page that is not held keeps every entry in its own set, unique and in agreement with the walk |
| `Tlb.TranslateKeeps` | cpu.cpp:114-133 | translation with one level keeps the TLB right, faults exactly when the walk does, and holds the page afterwards |
| `Tlb.Translate2Keeps` | cpu.cpp:135-164 | the same with two levels |
| `Tlb.TranslateIsWalk` | cpu.cpp:114-133 | translation gives what `page_walk` gives at every offset of a page if and only if the page is not held or its leaf is page-aligned |
| `Tlb.Translate2IsWalk` | cpu.cpp:135-164 | the same with two levels |
| `Tlb.FlushWorks` | os.cpp:80-97 | an emptied TLB agrees with any tables |
| `TlbRecency.Translate2Serves` | cpu.cpp:135-164 | a translation serves its page in the first level, and in the second exactly if the first misses: found there, or put into an unused way, or that of the PLRU victim, and its way touched; no other set changes |
| `TlbRecency.StepServes` | cpu.cpp:114-164 | any call but a process switch changes at most the TLBs that it asks, of its own core, and serves its page there |
| `TlbRecency.RecentPageStays` | core.cpp:16-45 | over any run of the whole machine, a page that a core's access just translated is still in the TLB until that core has made three accesses to other pages of its set, whatever the other cores do |
| `TlbRecency.FourMissesReplaceEachOnce` | core.cpp:30-45 | of four translations of pages that a full set has not got, each of its four entries is replaced by exactly one |
| `Tlb.MapKeepsTlb` | os.cpp:28-55 | after a mapping a TLB still agrees with its process's tables if and only if another process was mapped, or it has no entry for the page, or the page walks to the same frame as before; a page that was not mapped always qualifies |
| `Tlb.UnalignedMappingDiffers` | cpu.cpp:114-133 | with a page of a new process mapped to any address that is not page-aligned, translating its first address twice gives two answers, the walk's and then the TLB's |
| `System.TranslatedIs` | cpu.cpp:114-164 | in a running system translation is the page's frame plus the offset, TLBs or not |
| `System.TableBytesStay` | cpu.cpp:287-293 | no call's write-back touches a page table |
| `System.AccessKeeps` | cpu.cpp:449-771 | an access to an unmapped page faults and touches no cache; one to a mapped page completes unless it fetches from a MODIFIED line; all invariants hold again and every page of every process walks as before |
| `Virtual.AccessPages` | cpu.cpp:449-771 | an access that loses no bytes reads or writes its own page and leaves every other page of every process as it was |
| `Virtual.MapAndTlbs` | os.cpp:57-69 | after `alloc_and_map` every TLB of every core agrees with the running process's tables if and only if another process was mapped, or no TLB held the page, or nothing was mapped |
| `Virtual.MapPages` | os.cpp:57-69 | mapping a page, for the first time or again, while caches and TLBs are in use keeps all invariants if no TLB holds it and its tables have room; the page reads as zeros and every other page as before |
| `Virtual.SwitchPages` | os.cpp:99-105 | `process_switch` re-establishes every TLB invariant for the new process and changes no page |
| `Virtual.StepIsVirtual` | cpu.cpp:449-771 | one call that loses no bytes, which is told before it, is one step of private, zero-filled paged memory |
| `Virtual.RunIsVirtual` | cpu.cpp:449-771 | over any run of accesses by any cores, mappings and process switches the invariants hold; a run none of whose accesses loses bytes answers as private paged memory does, one set of pages for each process |
| `Virtual.CleanRunIsVirtual` | cpu.cpp:449-771 | runs without a dirty downgrade lose nothing, so they do |
| `Virtual.InitWorks` | core.h:57-66 | the zero-initialised machine with empty processes and an allocator that has issued nothing satisfies every invariant and stands for no pages at all |
| `Virtual.OneCoreIsVirtual` | cpu.cpp:166-345 | with any number of cores, of which one makes all the accesses, the machine from power-on is private paged memory, with no proviso on evictions |
| `Fitting.FittingPagesAreVirtual` | cpu.cpp:449-771 | with any number of cores, all making accesses, a run from power-on is private paged memory if the frames its mappings returned ask no L2 set for more lines than it has ways, with no proviso on evictions |
| `Fitting.FewPagesAreVirtual` | cpu.cpp:449-771 | with any number of cores, all making accesses, a run from power-on that maps at most 256 pages meets that condition, wherever its page tables go, and is private paged memory |
| `Remap.NewPageIsTame` | os.cpp:28-55 | mapping a page that has no mapping, with four frames to spare, meets the conditions of the theorems on runs |
| `Remap.StaleEntryIsRead` | cpu.cpp:135-164 | while a core's TLB holds a page of the running process, mapping it again leaves that core loading the old frame's bytes, while the page walks to a frame of zeros |
| `Remap.RemappingMisleads` | os.cpp:57-69 | from power-on: map, store, map again, load returns the stored byte, where private paged memory would return zero |
| `RingBuffer.ProducerKeeps` | benchmarks/producer_consumer.cpp:51-69 | each producer step keeps the ring invariant over the bytes of memory |
| `RingBuffer.ConsumerKeeps` | benchmarks/producer_consumer.cpp:71-88 | each consumer step does, in either order of the two loads of its spin condition |
| `RingBuffer.NothingOverwritten` | benchmarks/producer_consumer.cpp:62-64 | the slot about to be written holds no item still to be read |
| `RingBuffer.ItemsArriveInOrder` | benchmarks/producer_consumer.cpp:51-88 | over every interleaving, any item count and any buffer of at least two slots, the i-th value consumed is i, and at the end every item was consumed once and in order |
| `RingBuffer.StartOk` | benchmarks/producer_consumer.cpp:112-117 | with head and tail zero and both threads at their start the ring invariant holds |
| `RingBuffer.NeverBothSpin` | benchmarks/producer_consumer.cpp:58-77 | the producer spins exactly while slots - 1 items are in the buffer and the consumer exactly while none is; never both, and neither spins once the other has finished |
| `RingBuffer.CanFinish` | benchmarks/producer_consumer.cpp:51-88 | no interleaving gets stuck: from every reachable state both threads can finish |
| `RingBuffer.CachedItemsArriveInOrder` | benchmarks/producer_consumer.cpp:51-88 | with every load and store going through the caches, on pages that fit L2, every turn completes and the same holds |
| `Delivery.StepIsFlat` | cpu.cpp:449-771 | an access by virtual address to pages mapped in a row is the same access to one stretch of flat memory, wherever their frames are |
| `Delivery.RowMapped` | benchmarks/producer_consumer.cpp:107-110 | with memory for them and their tables, unmapped pages in a row all get mapped, no page that was mapped before is lost, and every invariant holds again |
| `Delivery.SystemTurnIsFlat` | benchmarks/producer_consumer.cpp:32-49 | each turn, an access translated and sent through the caches, completes without a fault and is the turn on flat memory |
| `Delivery.BenchmarkDelivers` | benchmarks/producer_consumer.cpp:90-123 | the benchmark itself, from power-on: its pages mapped, head and tail cleared, every load and store by virtual address; whatever memory held and however its threads interleave on any number of cores, it completes and its items arrive once and in order, for any queue on up to 256 pages |
| `Delivery.BenchmarkCanFinish` | benchmarks/producer_consumer.cpp:51-88 | and after any turns both threads can still finish |
| `Delivery.ProducerConsumer` | benchmarks/producer_consumer.cpp:11-28 | so with the benchmark's own constants: 256 MB of memory, two pages at 0x600000, 1024 slots, 2000 items |
| `Hardware.Memory.WriteLine` | cpu.cpp:291-292 | the copy loop replaces exactly the line's 64 bytes |
| `Hardware.Memory.Clear` | os.cpp:19 | the clearing loop zeroes exactly the frame |
| `Hardware.Memory.WriteEntry` | os.cpp:45-46 | the stores write exactly the entry's address and flag |
| `Hardware.Process.constructor` | os.cpp:71-78 | a new process has no present entry |
| `Hardware.Cpu.constructor` | core.h:57-66 | a new CPU is the zero-initialised machine |
| `Hardware.Cpu.SnoopDowngradePeers` | cpu.cpp:21-52 | the loop over the mask is `SnoopDowngradePeers` of the old state |
| `Hardware.Cpu.SnoopInvalidatePeers` | cpu.cpp:82-112 | the loop over the mask is `InvalidatePeers` of the old state |
| `Hardware.Cpu.SnoopInvalidatePeersI` | cpu.cpp:58-77 | the loop over the mask is `InvalidatePeersI` of the old state |
| `Hardware.Cpu.EvictL1` | cpu.cpp:166-219 | the routine is `EvictL1`: same abort, same way, same state; from a coherent state it does not abort, frees a way and leaves a coherent state; which way is `Retention.RecentLineStays` and `Retention.EightMissesDropEachOnce` |
| `Hardware.Cpu.EvictL2` | cpu.cpp:221-308 | the routine with its back-invalidation loop is `EvictL2`: same aborts, same way, same state; from a coherent state it does not abort, frees a way and leaves a coherent state |
| `Hardware.Cpu.RetireL2` | cpu.cpp:287-307 | the write-back and the clearing of the way; the history variable records whether bytes were dropped |
| `Hardware.Cpu.PfFillL2` | cpu.cpp:314-345 | the routine is `PfFill`: page bound, memory bounds, presence, fill; that the line arrives is `Arrivals.PfFillBrings` |
| `Hardware.Cpu.L2CacheFill` | uncore.cpp:39-67 | both overloads: abort on a mask that is not empty, else the filled way |
| `Hardware.Cpu.PfMatch` | cpu.cpp:365-405 | matches exactly as `StreamMatches` says and trains as `Advanced` says; which lines and which direction that is are `Streams.MatchesWhere` and `Streams.Trains` |
| `Hardware.Cpu.PfBurst` | cpu.cpp:414-437 | the burst loop is `RunBurst` with PREFETCH_DISTANCE + 1 turns |
| `Hardware.Cpu.PfStreamOnMiss` | cpu.cpp:359-447 | the loop over the table takes the first match or allocates the oldest entry, as `StreamOnMiss` says |
| `Hardware.Cpu.L1CacheFill` | core.cpp:79-86 | the filled way, touched |
| `Hardware.Cpu.L1CacheWrite` | core.cpp:69-77 | the patched way, MODIFIED and touched |
| `Hardware.Cpu.L2CacheRead` | cpu.cpp:497-514 | the reader recorded, the way touched, the other sharers snooped |
| `Hardware.Cpu.ReadFromL2` | cpu.cpp:487-527 | the L2-hit branch of `cpu_read` |
| `Hardware.Cpu.ReadFromMemory` | cpu.cpp:529-558 | the miss branch of `cpu_read` |
| `Hardware.Cpu.WriteHit` | cpu.cpp:583-617 | the L1-hit branch of `cpu_write` |
| `Hardware.Cpu.WriteFromL2` | cpu.cpp:623-656 | the L2-hit branch of `cpu_write` |
| `Hardware.Cpu.WriteFromMemory` | cpu.cpp:658-688 | the miss branch of `cpu_write` |
| `Hardware.Cpu.FetchFromL2` | cpu.cpp:724-748 | the L2-hit branch of `cpu_fetch` |
| `Hardware.Cpu.FetchFromMemory` | cpu.cpp:750-770 | the miss branch of `cpu_fetch` |
| `Hardware.Cpu.PageWalk` | memory.cpp:3-31 | the loop over the levels is the recursive walk |
| `Hardware.Cpu.TranslateCode` | cpu.cpp:114-133 | the one-level translation, TLBs updated |
| `Hardware.Cpu.TranslateData` | cpu.cpp:135-164 | the two-level translation, TLBs updated |
| `Hardware.Cpu.CpuRead` | cpu.cpp:449-559 | the whole of `cpu_read` is a `System.Step`: same fault, same abort, same bytes, same state; it returns the bytes of flat memory at the translated address, faults exactly where the page is not mapped, and keeps the system's invariants, every TLB's agreement with the walk among them |
| `Hardware.Cpu.CpuWrite` | cpu.cpp:561-689 | the same for `cpu_write`, which changes flat memory at the translated address if and only if it evicts no bytes that memory lacks, as told before the call |
| `Hardware.Cpu.CpuFetch` | cpu.cpp:691-771 | the same for `cpu_fetch` |
| `Hardware.Cpu.FlushTlb` | os.cpp:80-97 | the loops leave no way valid and change nothing else |
| `Hardware.Cpu.ProcessSwitch` | os.cpp:99-105 | every core gets the process's tables and empty TLBs |
| `Kernel.Allocator.AllocFrame` | os.cpp:6-21 | the top of the free list, else the watermark's frame, zeroed; or out of memory and nothing changed; the order over many calls is `Frames.FreedComeBack` and `Frames.FreshInOrder` |
| `Kernel.Allocator.FreeFrame` | os.cpp:23-26 | the frame becomes the top of the free list |
| `Kernel.MapPage` | os.cpp:28-55 | the loop over the levels, writing tables in place, is `Frames.MapPage` |
| `Kernel.AllocAndMap` | os.cpp:57-69 | the routine is `Frames.AllocAndMap`, the frame given back on failure |
| `Viewer.EventQueue.BeginStep` | event.h:80-84 | returns the counter and advances it by one, modulo 2^32 |
| `Viewer.EventQueue.Push` | event.h:86-121 | a new last node; links, ends and count stay right; the trace grows by exactly this event |
| `Viewer.Renderer.UpdateCounters` | renderer.cpp:60-114 | the counter of the event's kind and core moves by one, no other |
| `Viewer.Renderer.RecomputeL2Dominant` | renderer.cpp:131-144 | the loop computes the set's dominant state |
| `Viewer.Renderer.ApplyEventForward` | renderer.cpp:146-199 | the switch is `ApplyForward`; what it shows of an L2 way is `Shown.StateIsLast` and `Shown.FilledWaysAreShown` |
| `Viewer.Renderer.ApplyEventBackward` | renderer.cpp:201-248 | the switch is `ApplyBackward`; what it puts back is `Shadow.BackwardUndoes`, `Trace.EvictedL1ComesBack` and `Trace.EvictedL2ComesBack` |
| `Viewer.Renderer.StepForward` | renderer.cpp:250-277 | following `next` pointers is `Stepping.StepForward` on the trace, and keeps cursor and shadow in step with it |
| `Viewer.Renderer.StepBackward` | renderer.cpp:279-296 | following `prev` pointers is `Stepping.StepBackward` on the trace, and keeps cursor and shadow in step with it |

## Left out

- Mapping.MapPageWorks: pages with an in-memory index of 256 or more, where a table overlaps the next frame; `Spill.SafeFromClearing`, `Spill.SpilledMappingIsLost` and `Spill.FirstMappingWalks` say what goes wrong there.
- Mapping.MapFromWorks: the same pages.
- Mapping.MapThenWalk: the same pages.
- Mapping.AllocAndMapWorks: the same pages.
- Mapping.AllocThenWalk: the same pages.
- Mapping.MapAllWorks: the same pages, and runs that put a table into the last frame of memory, where the walk fails (`Mapping.AllocThenWalk` has the exact condition of each call).
- Virtual.RunIsVirtual: pages with an in-memory index of 256 or more, and runs with a mapping that outdates a TLB or puts a table into the last frame; `Virtual.MapAndTlbs` and `Mapping.AllocThenWalk` have the exact conditions, `Remap.RemappingMisleads` and `Mapping.LastFrameIsRejected` say what goes wrong.
- Virtual.StepIsVirtual: the same pages and runs.
- Virtual.CleanRunIsVirtual: the same pages and runs.
- Virtual.OneCoreIsVirtual: the same pages and runs.
- Fitting.FittingPagesAreVirtual: the same pages and runs.
- Fitting.FewPagesAreVirtual: the same pages and runs.
- Virtual.MapPages: the same pages and runs.
- Virtual.AccessPages: pages with an in-memory index of 256 or more.
- Virtual.MapAndTlbs: the same pages.
- System.TranslatedIs: the same pages.
- System.AccessKeeps: pages with an index of 256 or more, and mappings made by `map_page` to an address that `alloc_frame` did not hand out; the theorems about single mappings cover them, the running system does not.
- Trace.RunIsTraced: fetches that miss L2 or evict an instruction copy; after one of the former no trace may replay (`Trace.FetchMissIsUntraced`), and the latter are reported as data-cache evictions.
- Delivery.SystemTurn: what the threads would do after a page fault, which the source ignores; none occurs.
- Hardware.Cpu.PfStreamOnMiss: the matched entry is held in a local during its burst and stored back after it; the burst does not look at the table.
- Pointers into cache sets: L1, L2 and TLB sets are values in sequence fields of `Cpu`, assigned whole; the pointers that the C++ routines pass to each other are not modelled, so nothing is said on aliasing between them.
- Hardware.Cpu.ProcessSwitch: the active table is one field for all cores, since `process_switch` sets every core's pointer alike.
- Viewer.EventQueue.Push: the block allocator behind it (`EventPool`); nodes are ordinary objects.
- `bus_lock`, the queue's lock and the threads themselves: each call is one atomic step.
- Wrap-around of 64-bit addresses and counters: memory is assumed smaller than 2^64 and addresses are natural numbers. The 32-bit sequence counter wraps as in the source.
- The padding of page-table entries and their `writable` and `user` flags, `brk`, `stack_top` and `pid`: stored, never checked.
- The function-pointer callback: replaced by the event sequence; runs without a callback are the same runs without the sequence.
- Reading and writing trace files, drawing, colours, the prefetch flash, playback speed and the keyboard loop.
- The false-sharing programs, the C benchmarks and the build files.
