# Verified models of the proxy client and its memory manager

The repository holds a slab allocator (`kmem/`), an asynchronous logger (`log/`) and an HTTP CONNECT tunnel
client (`src/`). This project models their stateful cores in Dafny 4.11 and proves what they keep over whole
runs. `dafny verify dfyconfig.toml` checks everything.

## The slab allocator (`kmem/imembase.c`, `kmem/imembase.h`)

The memory is one value, `KmemState.State`: cache records, slab headers by address, machine words by address,
and ghost maps saying which slab each unit belongs to, which units are on which free list, and who holds each
of the others (a magazine, a client, a slab that uses the object as its page, or a call in passage). The heap
invariant `KmemState.Inv` has one conjunct per structure. It holds at every call into another cache, also in
the middle of an operation, because a cache may take its pages from an earlier cache and the operations call
each other along that chain.

- `Layout`: `imemcache_calculate`, colours, how many units a page gives.
- `KmemState`, `Forest`: the state, the invariant, and the geometry it implies: pages, units and headers are nested or disjoint through any depth of suppliers.
- `Steps`, `SlabSteps`, `ListOps`, `Environment`, `Counters`: each elementary step keeps the invariant and the counters.
- `Frames`, `CacheLemmas`: what a call leaves alone: later caches, every object on loan with its bytes, large blocks.
- `SlabCache`: class `Heap`: the list layer, the magazines, the page supplier, as methods that update the state.
- `Spares`, `Locks`: blocks nobody uses, and the order of the mutexes.
- `Census`: what the invariant says in the allocator's terms: conservation of units, queues, tags, counters.
- `Waste`: what a class loses with each possible supplier, as an account of bytes along the chain of suppliers.
- `SizeClasses`: class `Registry`: size classes, suppliers, best fit, the rounded tables, the fragmentation bound.
- `DefaultSetup`: the classes and suppliers that the default set-up arrives at.
- `Kmem`: class `Allocator`: malloc, free, realloc, ptrsize, shrink, and runs of them.
- `Teardown`: releasing caches in reverse order.
- `Queue`, `Rings`: the circular-queue macros on `next` and `prev`, refining the sequences that stand for slab queues, for all queues of all caches together.
- `Vector`, `MemNode`: `IVECTOR` and `IMEMNODE`, the pools from which default pages and separate slab headers come.

Termination of nested allocation, of nested release and of the waste computation rests on the same fact: a
supplier always has a smaller index. Two ghost accounts run along every call. `Spares` counts the default pages
and headers that are outstanding without a slab: every operation ends with those it began with, so nothing
leaks, and `Teardown.Destroy` ends with none. `Locks` records the mutexes of the calling thread: each is taken
below all that are held (`Locks.Locked`), so threads cannot wait for each other in a circle.

## The byte path of the proxy (`src/`)

`Streams` is the record format; `DiskCache` the spill file with its single read position, for every way a write
can fail; `Spill` the two-level byte queue; `Connection` the send queue over a kernel that takes any part of
what it is offered and an `errno` that may be stale; `Header` the scanning of the proxy's answer; `Tunnel` the
state machine that ties two connections and a cache together. `Tunnels.Faithful` is the end-to-end statement,
and `Tunnels.Run` shows it at every point of any run. It holds for sessions in which no write to the spill file
failed; what a failed write does is stated by `Spill.Cache.Add` and `Spill.KeepsItsTurn`.

## Algorithms and the logger

`Base64` works on 8-bit vectors as the source does and is compared with section 4 of RFC 4648. `Logger` models
each atomic step of a producer, of the logger thread and of `finalise`, and all their interleavings.

## Where the code and its comments or intentions part

- The encoder pads with three `=` when the length is a positive multiple of 3 (`Base64.MatchesRfc`).
- Rounding a request to the tables can skip the best fitting class, and always does for 330 bytes
  (`SizeClasses.RoundingSkips`); `SizeClasses.PickedRight` says exactly when.
- `Cache::empty` is wrong about an empty cache exactly when counted bytes were discarded (`Spill.Cache.Empty`,
  `Spill.EmptyDenied`), and a failed write lets a chunk overtake the records not read yet (`Spill.KeepsItsTurn`).
- `ikmem_core_realloc` frees the old object when the new one cannot be had (`Kmem.Allocator.Realloc`).
- `iv_pop` reports bytes as taken off that stay, exactly when a smaller buffer is needed and cannot be had
  (`Vector.IVector.Pop`, `Vector.PopLeavesAll`).
- A request of fewer than 4 bytes is outside the 17/8 bound (`SizeClasses.Fragmentation`).

## Model

| member | source | states |
|---|---|---|
| `Layout.RoundUp` | kmem/imembase.h:107-108 | rounds up to a multiple of 8 without ever adding 8 or more |
| `Layout.UnitSize` | kmem/imembase.c:852 | a unit holds the object and its header word, with less than 8 bytes of slack |
| `Layout.CalculateIs` | kmem/imembase.c:791-833 | as many units as fit beside the header, or without it when it is kept elsewhere, and when that is; colours take what is left, up to a unit |
| `Layout.MagazineSteps` | kmem/imembase.c:814-818 | the magazine limit falls from 128 over 96, 64 and 48 to 32 at units of 64, 128, 256 and 1024 bytes |
| `Layout.ColorFits` | kmem/imembase.c:792-832 | units, reserved header and the whole colour range fit in the page together; no subtraction underflows |
| `Layout.AtLeastOneUnit` | kmem/imembase.c:800-828 | a page always holds at least one object, and putting the header on the page because it fits the remainder loses no object |
| `Layout.CarvedUnits` | kmem/imembase.c:445-473 | whatever colour is reached, carving gives exactly `num` units with the header elsewhere, `num` or `num + 1` with it on the page |
| `Layout.RoomForOne` | kmem/imembase.c:902-923 | every colour leaves room for a unit |
| `Forest.PagesLaminar` | kmem/imembase.c:1309-1323 | the pages of two slabs are disjoint or one lies inside one object of the other, at any depth of the supplier chain |
| `Forest.RootPage` | kmem/imembase.c:1309-1323 | every page lies inside a default page at the root of its supplier chain |
| `Forest.UnitsLaminar` | kmem/imembase.c:445-473 | two units are disjoint, or one lies inside the object of the other, which is then the page of a slab |
| `Forest.NothingInside` | kmem/imembase.c:887-932 | no unit of any cache starts inside the object of a unit that is not a page |
| `Forest.HeaderOutsideUnit` | kmem/imembase.c:904-914 | no slab header overlaps a unit that is not a page |
| `Forest.HeadersApart` | kmem/imembase.c:904-914 | two slab headers never overlap |
| `Steps.PopKeepsInv` | kmem/imembase.c:477-489 | taking the first free unit of a slab keeps the whole heap invariant |
| `Steps.PushKeepsInv` | kmem/imembase.c:491-506 | putting a unit back on its slab keeps it |
| `Steps.LoadKeepsInv` | kmem/imembase.c:1140 | putting a unit into a magazine with room keeps it |
| `Steps.UnloadKeepsInv` | kmem/imembase.c:1203 | taking the top entry of a magazine keeps it |
| `Steps.PassKeepsInv` | kmem/imembase.c:1211-1213 | tagging or untagging a header word as a unit changes hands keeps it |
| `SlabSteps.QueuesMoved` | kmem/imembase.h:199-212 | moving a slab between the three queues of its cache leaves every slab on exactly the queue its state names |
| `SlabSteps.AddKeepsInv` | kmem/imembase.c:887-932 | carving a page into a new slab keeps the heap invariant |
| `SlabSteps.DropKeepsInv` | kmem/imembase.c:934-942 | giving up a slab whose units are all free or lost keeps it |
| `ListOps.AllocFromInv` | kmem/imembase.c:1037-1049 | the second half of list allocation keeps invariant and counters and lends exactly the first free unit |
| `ListOps.FreeIntoInv` | kmem/imembase.c:1086-1103 | list freeing keeps invariant and counters and ends exactly that loan |
| `ListOps.ReleaseIdleInv` | kmem/imembase.c:957-972 | releasing an idle slab keeps the invariant, takes its units out of the counters, and ends nobody’s loan |
| `Counters.CountsPopped` | kmem/imembase.c:1040-1041 | the free-unit counter follows the free lists when a unit is taken |
| `Counters.CountsIdleReleased` | kmem/imembase.c:970-977 | the counters are exact up to the part that the drain loop settles at its end |
| `Frames.FrameTransitive` | kmem/imembase.c:1185-1284 | what one call leaves alone and what the next leaves alone, both leave alone: later caches, loans and their bytes, large blocks |
| `SlabCache.Heap.constructor` | kmem/imembase.c:834-885 | an empty heap satisfies the invariant with exact counters |
| `SlabCache.Heap.SlabInit` | kmem/imembase.c:445-473 | carves the longest run of units that fits from the offset on, chained from the first to null, touching no other word |
| `SlabCache.Heap.TakeFrom` | kmem/imembase.c:1037-1053 | hands out exactly the head of the slab’s free list and moves the slab to the full queue when it was the last |
| `SlabCache.Heap.ListAlloc` | kmem/imembase.c:1005-1054 | serves the first partial slab, else the first idle one, else a slab just carved, of which it is then the only unit in use; on refusal nothing on loan changes; invariant and counters kept |
| `SlabCache.Heap.SlabPlace` | kmem/imembase.c:887-916 | obtains a page and a header place that nobody used before, or, when there is no header, has given the page back |
| `SlabCache.Heap.SlabCreate` | kmem/imembase.c:887-932 | a new slab carved out of the page just obtained; the colour goes up by a word, and back to 0 at the limit; no page or header is left over |
| `SlabCache.Heap.GfpAlloc` | kmem/imembase.c:558-594 | a page that nobody else uses, from the default supplier or as an object of the supplying cache |
| `SlabCache.Heap.GfpFree` | kmem/imembase.c:596-637 | a default page is no longer outstanding, an object of a supplier no longer on loan; later caches and all other loans are untouched |
| `SlabCache.Heap.SlabDelete` | kmem/imembase.c:934-942 | a default page and a separate header are no longer outstanding, and the page is counted as deleted |
| `SlabCache.Heap.DrainIdle` | kmem/imembase.c:944-980 | releases exactly `min(tofree, idle)` slabs, oldest first, and no slab with a unit on loan |
| `SlabCache.Heap.EmptySlab` | kmem/imembase.c:970 | the loop that empties an idle slab ends with all its free units counted as in use |
| `SlabCache.Heap.PutBack` | kmem/imembase.c:1056-1103 | the unit becomes the head of its slab’s free list and the slab moves to the queue its new state names |
| `SlabCache.Heap.ListFree` | kmem/imembase.c:1056-1116 | ends exactly one loan; with too many free units exactly half of the idle slabs are released, the oldest first; invariant and counters kept |
| `SlabCache.Heap.FillBatch` | kmem/imembase.c:1125-1145 | tops one magazine up to its batch size, keeping what was in it, unless the system refuses |
| `SlabCache.Heap.CacheAlloc` | kmem/imembase.c:1185-1216 | lends one tagged unit of the cache, the top of the magazine if it had one; null only if the system refused |
| `SlabCache.Heap.CacheFree` | kmem/imembase.c:1218-1284 | finds the cache from the header word and ends exactly that loan; the unit goes on the magazine, or a full magazine is cut to its batch |
| `SlabCache.Heap.Flush` | kmem/imembase.c:1298-1299 | sends the entries above `keep` back to their slabs, top first |
| `SlabCache.Heap.CacheShrink` | kmem/imembase.c:1286-1306 | empties magazine 0 and releases every idle slab; no cache of smaller objects is touched |
| `SlabCache.Heap.LargeAlloc` | kmem/imembase.c:1928-1941 | a large block with its two header words, or a refusal that changes nothing |
| `Spares.SpareCarved` | kmem/imembase.c:887-932 | a page and a header are spare from the moment they are obtained until a slab is carved there |
| `Spares.SpareDropped` | kmem/imembase.c:934-980 | and again from the end of their slab until they are returned, and only those of that slab |
| `Spares.NothingSpare` | kmem/imembase.c:934-942 | without spare blocks the outstanding default pages are exactly the pages of slabs, and the outstanding headers exactly the separate headers of slabs |
| `Locks.Locked` | kmem/imembase.c:1199-1305 | a lock is only taken by a thread whose other locks all rank higher: magazines before lists, later caches before earlier ones, pools last |
| `Locks.NoDeadlock` | kmem/imembase.c:529-545 | threads that keep to this order never wait for each other in a circle |
| `Census.UnitConservation` | kmem/imembase.c:445-506 | every unit carved for a slab is free or held, never both, none is lost, and `inuse` is the number held |
| `Census.MagazineCensus` | kmem/imembase.c:868-877 | the entries of a magazine are exactly the units it holds, each once, within its limit of at most 128 |
| `Census.TagTells` | kmem/imembase.c:1211-1213 | a header word carries the magic exactly while its unit is handed out, and always points to its slab |
| `CacheLemmas.MagicBits` | kmem/imembase.c:1233-1236 | setting, testing and clearing the magic are the bit operations on the low byte |
| `Census.SlabQueues` | kmem/imembase.c:1013-1047 | a slab is idle exactly when no unit is held, full exactly when none is free, partial otherwise |
| `Census.CountersCount` | kmem/imembase.c:944-1103 | between operations the queues list every slab of the cache once, the counters are their lengths, the free units on all lists, and the pages obtained less those returned |
| `Census.CacheConservation` | kmem/imembase.c:1125-1306 | over a whole cache, the sum of `inuse` is the entries of the eight magazines plus the units that callers have |
| `SizeClasses.Registry.Init` | kmem/imembase.c:1744-1787 | after set-up every size of the built-in list, hence every power of two up to the page, has a class at most a sixteenth larger, the caller’s sizes have classes, and both tables hold best fits |
| `SizeClasses.Registry.Append` | kmem/imembase.c:1434-1504 | `lookup` stays sorted, largest first, and complete, although slot 0 is never compared |
| `SizeClasses.Registry.ChooseGfp` | kmem/imembase.c:1535-1557 | the first supplier with the least loss, in an account of bytes along its chain of suppliers, among those whose objects hold 8 to 64 units, if that beats a whole page |
| `Waste.LedgerAccounts` | kmem/imembase.c:1505-1533 | at every level of the chain of suppliers the units and the waste are together the bytes of the pages charged, with headers kept elsewhere |
| `Waste.WasteIs` | kmem/imembase.c:1521-1533 | the computed waste is the one figure for which these accounts balance |
| `SizeClasses.CheapestGrow` | kmem/imembase.c:1535-1577 | every class has the cheapest supplier that there was when it was added |
| `SizeClasses.MakeLimits` | kmem/imembase.c:866-877 | free limit, magazine limit and batch of a class, from units per page and unit size |
| `SizeClasses.Registry.Insert` | kmem/imembase.c:1559-1577 | no class is added when one of the size exists, or one within a sixteenth when approximating; else exactly one is, of this size, with the cheapest supplier |
| `SizeClasses.Registry.ChooseSize` | kmem/imembase.c:1579-1589 | best fit over all classes, null exactly when none is large enough |
| `SizeClasses.Registry.SetupCaches` | kmem/imembase.c:1591-1673 | the classes from the built-in list are exactly these: from the full page down, the next class is the next size of the list more than a sixteenth below the last one; the caller’s sizes have classes; the two tables are best fits |
| `SizeClasses.Registry.SizeVector` | kmem/imembase.c:1591-1637 | the list is exactly the powers of two from the page down to 8, the fixed sizes, and the Fibonacci sums up to where the last exceeds a quarter page |
| `SizeClasses.Registry.FillTable` | kmem/imembase.c:1656-1660 | every entry is the best fit for its size, entry 0 is empty |
| `SizeClasses.Registry.PickClass` | kmem/imembase.c:1912-1923 | best fit for the rounded size, else for the size itself |
| `SizeClasses.SortDescending` | kmem/imembase.c:1639-1646 | sorted, largest first, and a permutation |
| `SizeClasses.RoomyGrow` | kmem/imembase.c:1535-1557 | the supplier of every class comes earlier and its objects hold at least 8 units, kept as classes are added |
| `SizeClasses.PickedRight` | kmem/imembase.c:1912-1923 | rounding never loses a request the full scan would serve and never picks too small a class; it picks the same size exactly when no class lies in the rounding gap, or none beyond it |
| `SizeClasses.RoundingSkips` | kmem/imembase.c:1912-1915 | in every set-up 330 is a class, and a request of 330 bytes is served from a larger one, because it is looked up as 332 |
| `SizeClasses.RoundedIs` | kmem/imembase.c:1912-1920 | the next multiple of 4 up to 1024, of 1024 up to 255 KiB, and no rounding beyond |
| `SizeClasses.SmallClasses` | kmem/imembase.c:1593-1622 | seventeen small sizes have classes of their own in every set-up |
| `SizeClasses.NextClass` | kmem/imembase.c:1639-1648 | which class comes next, from the list of sizes |
| `DefaultSetup.ClassAt` | kmem/imembase.c:1591-1648 | the first nineteen classes of the default set-up, in order |
| `DefaultSetup.SupplierOf224` | kmem/imembase.c:1521-1577 | in the default set-up the class of 224 takes its pages from the class of 12776, 54 objects to a page |
| `SizeClasses.RoundedBelowPower` | kmem/imembase.c:1912-1920 | rounding never passes a power of two |
| `SizeClasses.Fragmentation` | kmem/imembase.c:1591-1660 | a request that fits a page gets an object smaller than 17/8 of it exactly when it is of at least 4 bytes |
| `Kmem.LiveDisjoint` | kmem/imembase.c:1902-1963 | two live objects never overlap, even when a slab’s page is itself an object of another cache |
| `Kmem.LiveAligned` | kmem/imembase.c:1902-1963 | every live object is aligned to 8 bytes |
| `Kmem.HeadersOutsideLive` | kmem/imembase.c:904-914 | no slab header overlaps a live object |
| `Kmem.UnitsOutsideLive` | kmem/imembase.c:1037-1053 | no unit that is free or in a magazine overlaps a live object |
| `Kmem.ObjectsNotHeaders` | kmem/imembase.c:1928-1936 | no word that the allocator writes, header words, free-list links and large-block headers, overlaps a live object |
| `Kmem.Allocator.constructor` | kmem/imembase.c:1744-1790 | a fresh allocator: nothing live, `inuse` zero, tables and classes ready |
| `Kmem.Allocator.Malloc` | kmem/imembase.c:1902-1963 | a new object with room for the request from the class picked (or exactly the request from the system); other objects keep their bytes; null only after a refusal |
| `Kmem.Allocator.MallocSmall` | kmem/imembase.c:1942-1950 | the class is tried again after shrinking: null only after two refusals |
| `Kmem.Allocator.Shrink` | kmem/imembase.c:2067-2078 | afterwards no cache has an idle slab or an entry in the magazine that shrinking looks at; no live object moves or changes |
| `Kmem.Allocator.PtrSize` | kmem/imembase.c:1991-2026 | the class size for small objects, the exact size for large ones, never less than requested; 0 outside the range ever handed out and for objects given back whose unit is not the last of a free list |
| `Kmem.WordInFront` | kmem/imembase.c:2002-2023 | null in front of large objects only, tagged in front of live objects and pages only, and the tagged word leads to the slab and the class |
| `Kmem.Allocator.Free` | kmem/imembase.c:1965-1989 | ends exactly one life; every other object keeps its bytes |
| `Kmem.Allocator.Realloc` | kmem/imembase.c:2028-2065 | the pointer stays exactly when the object is large enough and less than a third too large, and then nothing at all changes; otherwise the first `min(old, new)` bytes move to an object with the room of the class picked; other objects keep theirs; the old object is gone even when the new one cannot be had |
| `Kmem.Allocator.MoveTo` | kmem/imembase.c:2054-2064 | allocate, copy, free; the new object has the room of the class picked |
| `Kmem.Allocator.MemCopy` | kmem/imembase.c:2061 | the copy holds the prefix of the source |
| `Kmem.TallyMore` | kmem/imembase.c:1955 | `ikmem_inuse` stays the sum of the class sizes of the small live objects when one is added |
| `Kmem.TallyLess` | kmem/imembase.c:1987 | and when one is freed |
| `Kmem.Run` | kmem/imembase.c:1902-2078 | over any sequence of malloc, free, realloc, shrink and client stores on any processors the live objects stay pairwise disjoint and `ikmem_inuse` exact |
| `Teardown.DrainHeld` | kmem/imembase.c:944-980 | draining the full or partial queue releases every slab on it, whatever is still on loan |
| `Teardown.DestroyList` | kmem/imembase.c:982-1001 | no slab of the cache is left, its page count is zero, earlier caches stay consistent |
| `Teardown.TakeEntries` | kmem/imembase.c:1373-1377 | the entries of a magazine are copied out in order and it is left empty |
| `Teardown.FreeEntries` | kmem/imembase.c:1379-1384 | they go back to their slabs, first to last, and the loans are as before |
| `Teardown.Release` | kmem/imembase.c:1364-1393 | the last cache that still has slabs loses all of them; then no later page rests on it |
| `Teardown.ReleaseAll` | kmem/imembase.c:1837-1844 | from the last cache to the first, no slab is left and no spare page or header is made; a cache is released only when no later slab exists |
| `Teardown.Destroy` | kmem/imembase.c:1805-1861 | no slab, unit, default page, separate header or large block is left, whatever the clients still held |
| `Teardown.PageAbove` | kmem/imembase.c:1535-1557 | a page that is an object of a cache belongs to a later cache |
| `Queue.Links.Init` | kmem/imembase.h:185-186 | an empty queue |
| `Queue.Links.IsEmpty` | kmem/imembase.h:217 | true exactly for the empty queue |
| `Queue.Links.Add` | kmem/imembase.h:199-201 | the node comes first; only links of the queue and the node are written |
| `Queue.Links.AddTail` | kmem/imembase.h:203-205 | the node comes last |
| `Queue.Links.Del` | kmem/imembase.h:209-212 | the node leaves, the order of the others stays, its own links are cleared |
| `Queue.Inserted` | kmem/imembase.h:199-205 | splicing a node in anywhere keeps the ring well formed |
| `Queue.Deleted` | kmem/imembase.h:207-212 | unlinking a node anywhere keeps the ring well formed |
| `Queue.RingApart` | kmem/imembase.h:199-212 | a queue none of whose links is written stays as it is |
| `Rings.OneRing` | kmem/imembase.h:264-278 | each slab is a node of exactly one ring, that of its cache and its state |
| `Rings.Unhook` | kmem/imembase.h:207-212 | the deletion macro on a slab of one ring leaves all rings of all caches well formed |
| `Rings.Hook` | kmem/imembase.h:199-205 | so do the insertion macros |
| `Rings.AllocLinks` | kmem/imembase.c:1042-1048 | after list allocation the rings are the queues of the list layer again |
| `Rings.FreeLinks` | kmem/imembase.c:1086-1103 | and after list freeing |
| `Vector.BlockLeast` | kmem/imembase.c:115-116 | the capacity is the least power of two that is at least 8 and at least the size |
| `Vector.IVector.constructor` | kmem/imembase.c:76-83 | an empty vector |
| `Vector.IVector.Doubled` | kmem/imembase.c:115-116 | the doubling loop ends for sizes up to 2^63 without wrapping, at the least suitable power of two |
| `Vector.IVector.Resize` | kmem/imembase.c:96-145 | succeeds exactly when the size is 0, the capacity stays, or a buffer can be had; then the common prefix is kept, else nothing changes; the capacity is 0 exactly for size 0 and otherwise the least suitable power of two on every return |
| `Vector.IVector.Push` | kmem/imembase.c:147-155 | appends, or changes nothing, and which of the two |
| `Vector.IVector.Pop` | kmem/imembase.c:157-165 | hands over the last bytes; they leave the vector exactly when it becomes empty, the capacity stays, or a smaller buffer can be had |
| `Vector.PopLeavesAll` | kmem/imembase.c:157-165 | 9 bytes in a buffer of 16: one is popped without memory for a buffer of 8, and all 9 are still there |
| `Vector.IVector.Erase` | kmem/imembase.c:178-188 | the bytes are cut out; when the buffer cannot shrink the moved tail appears twice |
| `MemNode.Nodes.constructor` | kmem/imembase.c:194-226 | an empty pool with its node size rounded up |
| `MemNode.Nodes.AddMem` | kmem/imembase.c:289-313 | one more block, with room for the aligned buffers; which failure is reported, and that it adds nothing |
| `MemNode.Nodes.AddNode` | kmem/imembase.c:341-350 | a new node goes to the front of the open list |
| `MemNode.Nodes.Thread` | kmem/imembase.c:340-351 | the new nodes join the open list in ascending order with consecutive buffers |
| `MemNode.Nodes.Grow` | kmem/imembase.c:315-354 | the pool doubles, or gets 8 nodes if it has none, or fewer under its limit; all or nothing: every node in use keeps its place and its buffer |
| `MemNode.Nodes.New` | kmem/imembase.c:357-384 | the first open node moves to the front of the closed list; it fails only when growing fails |
| `MemNode.Nodes.Del` | kmem/imembase.c:386-410 | the node moves to the front of the open list; the order of the others stays |
| `MemNode.TakenOk` | kmem/imembase.c:368-379 | both lists stay acyclic, disjoint and told apart by mode when a node is taken |
| `MemNode.ReturnedOk` | kmem/imembase.c:394-409 | and when one is given back |
| `MemNode.Census` | kmem/imembase.c:357-410 | every node is on exactly one list, mode says which, and the two counts add up to node_max |
| `MemNode.BuffersGrown` | kmem/imembase.c:339-351 | buffers old and new are aligned, inside their blocks, and disjoint |
| `MemNode.BuffersApart` | kmem/imembase.c:339-351 | any two buffers of a pool are disjoint |
| `MemNode.PoolObjects` | kmem/imembase.c:586-587 | pages and headers placed one word into their buffers never overlap |
| `Streams.PrefixValue` | src/disk_cache.cpp:25-26 | a length prefix reads back as the length |
| `Streams.PrefixExample` | src/disk_cache.cpp:25-26 | the prefix is eight bytes, the least significant first |
| `Streams.FirstRecord` | src/disk_cache.cpp:34-60 | at a record boundary the prefix, the data and the next boundary are where they were written |
| `Streams.RecordsInjective` | src/disk_cache.cpp:11-60 | no two lists of chunks give the same file |
| `SpillFile.DiskCache.Write` | src/disk_cache.cpp:11-32 | appends one record without moving the read position; a write cut short leaves that part of the record behind and loses the unread records, an earlier failure changes nothing |
| `SpillFile.DiskCache.PeekSize` | src/disk_cache.cpp:49-60 | the length of the first unread record, 0 at the end, position unmoved |
| `SpillFile.DiskCache.Read` | src/disk_cache.cpp:34-47 | the first unread record, or -2 and nothing moved if the buffer is too small |
| `SpillFile.DiskCache.Rollback` | src/disk_cache.cpp:62-66 | the record read last is unread again |
| `SpillFile.ReadThenRollback` | src/disk_cache.cpp:34-66 | rollback after read is an exact undo |
| `Spill.Cache.Add` | src/cache.h:38-63 | appends to the byte queue; says exactly what is overtaken, lost or miscounted when the write fails; at most 256 KiB in memory while writes succeed |
| `Spill.Cache.Clear` | src/cache.h:65-75 | empties the queue and leaves the counters too high by what was there |
| `Spill.Cache.Empty` | src/cache.h:33-36 | right about an empty cache exactly while no byte it counted was discarded by a clear or by a write cut short |
| `Spill.EmptyDenied` | src/cache.h:33-75 | one chunk cached and cleared: the cache is empty and says it is not |
| `Spill.Cache.FlushAll` | src/cache.h:77-118 | what was handed over and what is left are together what was there, in order, however the flush ends |
| `Spill.Cache.FlushList` | src/cache.h:79-92 | the same for the chunks in memory |
| `Spill.Cache.FlushFile` | src/cache.h:94-115 | the same for the records, with rollback of a refused one |
| `Spill.KeepsItsTurn` | src/cache.h:45-62 | a chunk kept in memory after a failed write keeps its turn, for all contents, exactly when no record is unread |
| `Connections.Connection.Accept` | src/connection.cpp:11-38 | a fresh stream, or nothing changed on a connection in use |
| `Connections.Connection.Connect` | src/connection.cpp:54-106 | a fresh stream, connected and watched for bytes, or connecting and watched for room; closed on every failure |
| `Connections.Connection.Shutdown` | src/connection.cpp:108-123 | closed, deregistered, unsent packets dropped |
| `Connections.Connection.TryFlush` | src/connection.cpp:326-360 | what the kernel took plus what is queued stays the same; the kernel is offered bytes until it takes less than a packet or none is left, and only then are write events deregistered |
| `Connections.Connection.Send` | src/connection.cpp:125-158 | until an error is reported, bytes taken by the kernel followed by the unsent bytes of the queue are all bytes ever sent; the queue is non-empty exactly while write events are registered; nothing stays queued unless the kernel took less than it was offered |
| `Connections.Connection.CachePacket` | src/connection.cpp:362-370 | the packet is last in the queue, unsent |
| `Connections.Connection.CheckErrors` | src/connection.cpp:372-386 | with a handler, both events are deregistered and it is told |
| `Connections.Connection.HandleOutput` | src/connection.cpp:251-288 | completes a connect, with the flags that go with its outcome, or flushes the queue, keeping the stream |
| `Connections.Connection.Receive` | src/connection.cpp:184-220 | all bytes delivered come out once, in order, in one piece of at most 1 MiB; every recv has room; reading stops only at a recv of less than 8 KiB or at 1 MiB; the status changes exactly as the last recv says |
| `Connections.Connection.Ended` | src/connection.cpp:232-246 | error and end of stream are told once the bytes have been, and both events are deregistered then |
| `Connections.Advanced` | src/connection.cpp:333-351 | a partial send moves bytes from the queue to the wire and loses none |
| `Header.SameIgnoresCase` | src/proxy_common.cpp:46-59 | flipping the case of one side is case-insensitive equality |
| `Header.LowerIgnoresCase` | src/proxy_common.cpp:46-59 | which is the same byte or the two cases of one letter, A to Z |
| `Header.MatchExample` | src/proxy_common.cpp:46-59 | letters match in either case, other characters only themselves |
| `Header.StrStrICase` | src/proxy_common.cpp:37-88 | the least case-insensitive match inside the range, or none exactly when there is none |
| `Header.FullHeader` | src/proxy_tunnel.cpp:244-257 | a full header is seen exactly when the text starts with CRLF or contains CRLFCRLF |
| `Header.BlankLineExample` | src/proxy_tunnel.cpp:244-257 | an empty line is CRLF after CRLF, or CRLF at once |
| `Header.StrLenIs` | src/proxy_tunnel.cpp:163 | strlen is the place of the first NUL |
| `Header.Extended` | src/proxy_tunnel.cpp:174-176 | appending to the buffer extends the string by the data up to its first NUL |
| `Tunnels.Tunnel.AcceptLocal` | src/proxy_tunnel.cpp:10-32 | a new session with nothing received, what the cache still holds going first, or nothing changed when one is under way |
| `Tunnels.Tunnel.ProxyUp` | src/proxy_tunnel.cpp:71-112 | the request is the first thing passed to the proxy connection |
| `Tunnels.Tunnel.LocalData` | src/proxy_tunnel.cpp:146-156 | local bytes are passed to the proxy exactly when relaying, else put behind what is already cached; only a connection error ends the session |
| `Tunnels.Tunnel.ProxyData` | src/proxy_tunnel.cpp:157-200 | before the tunnel is up the bytes go to the header, with one of four outcomes; once it is up they are passed on to the client, every time; anything else is refused |
| `Tunnels.Tunnel.HeaderData` | src/proxy_tunnel.cpp:161-180 | refused when it would not fit in 1023 bytes; else the header grows by exactly the data and is waited for, opens the tunnel or is turned down, each under its exact condition |
| `Tunnels.Tunnel.ParseHeader` | src/proxy_tunnel.cpp:242-274 | nothing happens before a blank line; with one, relaying starts exactly when the OK line is there, and otherwise the session is refused; only a connection error ends it |
| `Tunnels.Tunnel.FlushLocal` | src/proxy_tunnel.cpp:276-288 | the cached bytes are passed on in order |
| `Tunnels.Tunnel.LocalGone` | src/proxy_tunnel.cpp:114-128 | the end of the local side closes both; nothing was left to flush |
| `Tunnels.Tunnel.ProxyGone` | src/proxy_tunnel.cpp:129-137 | the end of the proxy side closes both and drops the cache |
| `Tunnels.Tunnel.ProxyFailed` | src/proxy_tunnel.cpp:224-235 | as that, without handlers |
| `Tunnels.Tunnel.Cleanup` | src/proxy_tunnel.cpp:34-43 | both closed, the cache empty |
| `Tunnels.Tunnel.LocalReadable` | src/connection.cpp:176-249 | what the kernel delivered is passed on or cached, and the session ends only with the connection, or with an error of the other one |
| `Tunnels.Tunnel.ProxyReadable` | src/connection.cpp:176-249 | what the kernel delivered is passed on to the client or has one of the outcomes of a header, and the session ends only with an error or the end of a connection |
| `Tunnels.Tunnel.ProxyWritable` | src/connection.cpp:251-288 | completing the connect passes the request on, a refused one ends the session, and a queue is offered to the kernel |
| `Tunnels.PassedOn` | src/proxy_tunnel.cpp:148-151 | relaying keeps sent bytes equal to request plus received bytes |
| `Tunnels.HeldBack` | src/proxy_tunnel.cpp:152-155 | caching keeps sent plus cached equal to that |
| `Tunnels.Accepted` | src/proxy_tunnel.cpp:261-265 | everything held back goes out ahead of later bytes |
| `Tunnels.EndToEnd` | src/proxy_tunnel.cpp:71-288 | wire, queue and cache are together the request and all bytes the client sent, in order; no local byte is passed before a full header with the OK line; an established tunnel holds nothing back; the client gets what follows the header chunk |
| `Tunnels.Run` | src/proxy_tunnel.cpp:10-288 | all of this over any run of sessions, dispatches and cleanups; with a cleanup after every session no session sees bytes of an earlier one |
| `Base64.TablesInverse` | src/proxy_common.cpp:122-150 | the decoding table inverts the encoding table |
| `Base64.TablesInverseBack` | src/proxy_common.cpp:122-150 | and the other way round |
| `Base64.TablesAreTheAlphabet` | src/proxy_common.cpp:122-150 | the tables are the alphabet of section 4 of RFC 4648: each value stands for the character at its place, and nothing else decodes |
| `Base64.Foobar` | src/proxy_common.cpp:157-217 | two examples of section 10 of RFC 4648 |
| `Base64.OctetsOfSextets` | src/proxy_common.cpp:111-120 | splitting into 6-bit groups and joining them again loses nothing |
| `Base64.OneMore` | src/proxy_common.cpp:169-205 | one more byte completes the last group and begins the next |
| `Base64.EncodeByte` | src/proxy_common.cpp:171-204 | re-decoding the last character written gives back its group |
| `Base64.Base64Encode` | src/proxy_common.cpp:157-217 | writes the encoding and nothing else; -1 exactly when it does not fit |
| `Base64.SafeMargin` | src/proxy_common.cpp:152-156 | 3/2 of the length plus 5 is always enough |
| `Base64.MatchesRfc` | src/proxy_common.cpp:207-214 | the output is that of section 4 of RFC 4648 exactly when the length is 0 or no multiple of 3; otherwise it has three pads too many |
| `Base64.OneMoreValue` | src/proxy_common.cpp:246-276 | what the switch of the decoder adds for one more value |
| `Base64.Base64Decode` | src/proxy_common.cpp:225-280 | writes the decoding and nothing else; -1 exactly when it does not fit |
| `Base64.OnlyAlphabetCounts` | src/proxy_common.cpp:219-224 | decoding depends only on the alphabet characters; n of them give 3n/4 bytes |
| `Base64.RoundTrip` | src/proxy_common.cpp:157-280 | decoding undoes encoding for every input, with the standard padding too |
| `Base64.EncodedAscii` | src/proxy_common.cpp:241-243 | encoded text never indexes the decoding table out of range |
| `Logger.Log.constructor` | log/log.cpp:27-66 | nothing accepted, nothing printed |
| `Logger.Log.PassesLevel` | log/log.cpp:225-229 | the test made before the mutex is taken |
| `Logger.Log.Append` | log/log.cpp:241-248 | the message is the last one accepted, with the time only if asked for |
| `Logger.Log.PrintLog` | log/log.cpp:223-251 | without interference the message is accepted exactly when its level passes |
| `Logger.Log.SetLogLevel` | log/log.cpp:167-175 | the old level |
| `Logger.Log.LoggerStep` | log/log.cpp:98-160 | every step of the logger thread keeps the protocol and leads to the next one; the lists are swapped only when the out list is empty, and the thread waits only when there is nothing to take and no exit |
| `Logger.Log.Offer` | log/log.cpp:148-155 | one printer is offered one message, and gets it exactly when its level and that of the message have a bit in common; the next printer or message follows |
| `Logger.AdmitsSharedBit` | log/log.cpp:151-152 | a printer admits a message exactly when one of 32 bits is set in both levels |
| `Logger.Log.FinaliseStep` | log/log.cpp:79-90 | the in list is flushed after the thread has ended, message by message and printer by printer |
| `Logger.Kept` | log/log.cpp:98-160 | printed messages, the rest of the out list and the in list are the accepted messages in the order of the lock |
| `Logger.Delivered` | log/log.cpp:68-91 | each printer has an initial part of what it admits, in order; after finalise all of it, each message once: those accepted messages whose level has a bit in common with its own |
| `Logger.AdmittedConcat` | log/log.cpp:148-155 | what a printer is to get of two runs is what it gets of one, then of the other |
| `Logger.Run` | log/log.cpp:68-251 | over any interleaving of level tests, appends, level changes, logger thread and finalise |

## Left out

- The links are kept beside `Heap`, not in it: `Rings` proves that the macro calls of the list layer keep every ring equal to its queue, operation by operation, but `Heap` itself holds sequences; the links of the default-page and header pools are in `MemNode`.
- The default page supplier and the set of separate slab headers are an environment inside `Heap`: it refuses or gives an aligned block apart from all others. `MemNode` proves that of the pools the source uses; the malloc mode of the supplier is taken on trust.
- Machine words: a word is one entry of a map from addresses to values, not eight bytes, and a client's bytes are entries of the same map; the header words of large blocks and units are kept apart from client bytes by address.
- Sizes are those of a 64-bit build, and addresses are unbounded naturals; only `IVector` bounds its sizes, at 2^63.
- `page_shift` from 1 to 7: `imemcache_create` asserts on the 330-byte class, so `Registry.Init` asks for 8 or more, or the default.
- Assertions of the source are preconditions, or are taken as switched off where the source also handles the case (a null page from a supplier, a null header).
- The processor index that picks a magazine is a parameter; `imemcache_batch_new`, `imemcache_batch_del`, the per-class statistics, page high-water marks and the setter of the large-object watermark would only add easy members.
- The registry of user-made caches (`ikmem_create`, `ikmem_delete`, `ikmem_search`), the `ikmem_std_*` hooks, boot hooks, mutex set-up and name formatting.
- Locks of the allocator: only the order in which one thread takes them is modelled; each call is otherwise atomic, and data races on unlocked statistics or on the realloc of a shared pointer are not modelled.
- imslab_set_delete: the index is checked against the pool of slab headers, not against the page pool as the source does.
- Kmem.Allocator.PtrSize: not for addresses inside the range that are no object, nor for the last unit of a free list; what it answers there depends on stray memory.
- Vector: `iv_insert` moves `size` bytes instead of the tail, so nothing is claimed about it.
- MemNode.Nodes.Grow: `imnode_node_resize` succeeds as a whole or fails as a whole; a failure halfway leaves stale pointers in the source. `node_shift` and the user field of a node are not modelled.
- Tunnels.Tunnel.FlushLocal: an error reported by the connection during a flush is handled when the flush has stopped; in the source the handler clears the cache while it is being walked.
- Tunnels.EndToEnd: the text of the CONNECT request is a parameter of the tunnel; bytes that follow the header in the chunk that completes it are not relayed, as in the source; nothing is claimed about sessions in which a write to the spill file failed, nor about bytes still queued when a side closes.
- Connections.Connection.Send: after an error without a handler the stream is no longer followed; sends of no bytes are excluded, as the queue's own assertion demands.
- Base64.Base64Decode: input bytes are below 128, since the table is indexed with a signed character.
- Logger.Run: starts after `initialise`; no producer appends once the last flush of `finalise` has begun, where the source holds no lock; the set of printers and their levels do not change during a run; that the exit signal wakes the logger thread is not claimed.
- Sockets, select, event registration, listeners, command line, clocks, file handles, and the console, file and HTML printers.
