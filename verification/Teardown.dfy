/** imemcache_release and the order in which ikmem_destroy uses it: caches are released from the last to the first,
  * so every page goes back before the cache it came from is released.
  */
module Teardown {
  import opened Layout
  import opened KmemState
  import opened Forest
  import opened Steps
  import opened SlabSteps
  import opened Frames
  import opened Counters
  import opened Environment
  import opened ListOps
  import opened CacheLemmas
  import opened SlabCache
  import opened Spares
  import opened Locks
  import opened Kmem

  /** Cache `c` supplies nobody: no later cache has a slab, and its magazines are empty. */
  ghost predicate Unused(st: State, c: nat) {
    && c < |st.caches| && |st.caches[c].lru| == LRU_COUNT
    && (forall k :: 0 <= k < LRU_COUNT ==> st.caches[c].lru[k] == [])
    && Topmost(st, c)
  }

  ghost predicate Topmost(st: State, c: int) {
    forall t :: t in st.slabs ==> st.slabs[t].extra <= c
  }

  /** Then all units of `c` that are held at all are on loan. */
  lemma UnusedDropping(st: State, c: nat, s: nat)
    requires Unused(st, c) && s in st.slabs && st.slabs[s].extra == c && Inv(st, 0)
    ensures Dropping(st, s)
  {
    hide *;
    Ready(st);
    Parts(st, 0);
    SlabBounds(st, s);
    forall u | u in st.owner && u in st.home && st.home[u] == s ensures st.owner[u].Client? || st.owner[u].Hand? {
      UnusedUnit(st, c, s, u);
    }
    DroppingIf(st, s);
  }

  lemma DroppingIf(st: State, s: nat)
    requires SlabsOk(st) && HomeOk(st) && s in st.slabs && st.slabs[s].extra < |st.caches|
    requires st.slabs[s].extra < |st.geo| && st.slabs[s].membase >= PTR
    requires forall u :: u in st.owner && u in st.home && st.home[u] == s ==> st.owner[u].Client? || st.owner[u].Hand?
    ensures Dropping(st, s)
  {
  }

  lemma UnusedUnit(st: State, c: nat, s: nat, u: nat)
    requires Unused(st, c) && s in st.slabs && st.slabs[s].extra == c && u in st.owner && u in st.home
             && st.home[u] == s
    requires LinksOk(st.pg, st.geo) && SlabsOk(st) && HomeOk(st) && PagesOk(st) && MagazinesOk(st)
    ensures st.owner[u].Client? || st.owner[u].Hand?
  {
    hide MagazinesOk, PagesOk, SlabsOk, HomeOk, LinksOk;
    if st.owner[u].Magazine? { InMagazine(st, u); }
    if st.owner[u].Page? { PageAbove(st, u); }
  }

  lemma InMagazine(st: State, u: nat)
    requires u in st.owner && u in st.home && st.owner[u].Magazine? && SlabsOk(st) && HomeOk(st) && MagazinesOk(st)
    ensures var o := st.owner[u];
            && st.home[u] in st.slabs && st.slabs[st.home[u]].extra == o.cache < |st.caches|
            && o.slot < LRU_COUNT == |st.caches[o.cache].lru| && st.caches[o.cache].lru[o.slot] != []
  {
    hide UnitIn;
    assert MagazineOk(st, st.owner[u].cache, st.owner[u].slot);
  }

  /** A page of another cache is an object of an earlier one. */
  lemma PageAbove(st: State, u: nat)
    requires u in st.owner && u in st.home && st.owner[u].Page?
    requires LinksOk(st.pg, st.geo) && SlabsOk(st) && HomeOk(st) && PagesOk(st)
    ensures var t := st.owner[u].slab;
            t in st.slabs && st.home[u] in st.slabs && st.slabs[t].extra > st.slabs[st.home[u]].extra
  {
    hide UnitIn;
    var t := st.owner[u].slab;
    assert PageOk(st, t);
    assert LinkOk(st.pg, st.geo, st.slabs[t].extra);
  }

  // ---------- releasing slabs whatever is on them ----------

  function Unqueued(cache: Cache, k: Class, s: nat): Cache {
    match k
    case IsPartial => cache.(partial := Remove(cache.partial, s))
    case IsFull => cache.(full := Remove(cache.full, s))
    case IsIdle => cache.(idle := Remove(cache.idle, s))
  }

  /** The pages a cache has are those of the slabs on its queues. */
  ghost predicate PagesTally(cache: Cache) {
    cache.pagesNew - cache.pagesDel == cache.pagesInuse == |cache.partial| + |cache.full| + |cache.idle|
  }

  /** In the course of releasing the slabs of `c`: loans only end, and only because their slab is gone. */
  ghost predicate Tearing(st: State, st': State, c: nat) {
    && c < |st.caches| && c < |st'.caches| && |st'.geo| == |st'.caches|
    && PagesTally(st'.caches[c]) && Unused(st', c) && Loans(st').Keys <= Loans(st).Keys
    && CountedUpTo(st', c - 1) && Frame(st, st', c) && Inv(st', 0)
  }

  /** What unlinking a slab of `c` with its units amounts to. */
  ghost predicate Unlinked(was: State, off: State, c: nat, k: Class, s: nat) {
    && s in was.slabs && was.slabs[s].membase >= PTR && was.slabs[s].extra == c
    && c < |was.geo| && c < |was.caches| && s !in off.slabs
    && off == DropSlab(was, s, Unqueued(was.caches[c], k, s))
    && Returnable(off, c, was.slabs[s].membase) && (was.geo[c].offSlab ==> s in off.nodes)
    && LoansWithout(off, c, was.slabs[s].membase).Keys <= Loans(was).Keys
    && CountedUpTo(off, c - 1) && Frame(was, off, c) && Inv(off, 0)
  }

  lemma TearingFacts(st: State, was: State, c: nat)
    requires Tearing(st, was, c)
    ensures c < |was.caches| == |was.geo| && Unused(was, c) && CountedUpTo(was, c - 1) && Frame(st, was, c)
            && Inv(was, 0)
    ensures PagesTally(was.caches[c]) && Loans(was).Keys <= Loans(st).Keys && c < |st.caches|
  {
    hide Unused, CountedUpTo, Frame, Inv, PagesTally, Loans;
  }

  lemma UnqueuedFacts(cache: Cache, k: Class, s: nat)
    requires QueuesDistinct(cache) && s in Queue(cache, k)
    ensures Unhung(cache, Unqueued(cache, k, s), s)
    ensures Unqueued(cache, k, s).lru == cache.lru && Unqueued(cache, k, s).colorNext == cache.colorNext
    ensures Queue(Unqueued(cache, k, s), k) == Remove(Queue(cache, k), s)
  {
    RemoveMembers(Queue(cache, k), s);
  }

  lemma UnqueuedColors(st: State, c: nat, k: Class, s: nat)
    requires ColorsOk(st.geo, st.caches) && c < |st.caches|
    ensures ColorsOk(st.geo, st.caches[c := Unqueued(st.caches[c], k, s)])
  {
  }

  lemma DropFormAll(was: State, s: nat, cache': Cache)
    requires s in was.slabs && was.slabs[s].extra < |was.geo| && was.slabs[s].extra < |was.caches|
             && was.slabs[s].membase >= PTR
    ensures var off := DropSlab(was, s, cache');
            && off.geo == was.geo && off.nodes == was.nodes && s !in off.slabs && off.free == was.free - {s}
            && off.caches == was.caches[was.slabs[s].extra := cache']
  {
    hide Elsewhere;
  }

  lemma DroppedReturnable(was: State, off: State, c: nat, s: nat, cache': Cache)
    requires s in was.slabs && was.slabs[s].extra == c && c < |was.geo| && c < |was.caches|
    requires was.slabs[s].membase >= PTR && off == DropSlab(was, s, cache')
    requires SlabsOk(was) && HomeOk(was) && PagesOk(was) && PagesOnce(was) && SlabsOk(off) && HomeOk(off)
    requires Dropping(was, s)
    ensures Returnable(off, c, was.slabs[s].membase)
    ensures was.geo[c].gfp.Some? ==> was.slabs[s].membase - PTR !in Loans(was)
  {
    hide UnitIn, SlabOk;
    assert PageOk(was, s);
  }

  lemma DropLoans(was: State, off: State, c: nat, s: nat)
    requires s in was.slabs && was.slabs[s].extra == c && c < |was.geo| && was.slabs[s].membase >= PTR
             && off.geo == was.geo
    requires var kept := Elsewhere(Loans(was), was.home, s);
             Loans(off) == if Supplied(was, s) then kept[was.slabs[s].membase - PTR := Client] else kept
    ensures LoansWithout(off, c, was.slabs[s].membase).Keys <= Loans(was).Keys
  {
    hide Loans;
  }

  lemma UnlinkedOk(st: State, was: State, off: State, c: nat, k: Class, s: nat)
    requires Tearing(st, was, c) && s in was.slabs && was.slabs[s].extra == c && c < |was.geo|
             && was.slabs[s].membase >= PTR
    requires s in Queue(was.caches[c], k) && off == DropSlab(was, s, Unqueued(was.caches[c], k, s))
    ensures Unlinked(was, off, c, k, s) && c < |off.caches| && off.caches[c] == Unqueued(was.caches[c], k, s)
  {
    hide Inv, CountedUpTo, Frame, Loans, LoansWithout, Returnable, DropSlab, Unqueued, Queue, Unused, Tearing,
         PagesTally, SlabsOk, HomeOk, Shape, NodesOk, BlocksOk, FreeOk, HeadsOk, InuseOk, QueuesOk, MagazinesOk,
         ColorsOk, CalcsOk, PagesOk, PagesOnce, Dropping, Unhung, QueuesDistinct, Elsewhere, Supplied;
    TearingFacts(st, was, c);
    UnusedDropping(was, c, s);
    Parts(was, 0);
    var cache' := Unqueued(was.caches[c], k, s);
    QueueFacts(was.caches, was.slabs, 0, c);
    UnqueuedFacts(was.caches[c], k, s);
    UnqueuedColors(was, c, k, s);
    DropKeepsInv(was, s, cache');
    ShapePages(was);
    DropFrame(was, s, cache');
    DropFormAll(was, s, cache');
    NodeOf(was, s);
    Basics(off, 0);
    DroppedReturnable(was, off, c, s, cache');
    DropLoans(was, off, c, s);
    CountedOthers(was, off, c, 0);
  }

  /** One slab more is gone. */
  lemma SlabTorn(st: State, was: State, off: State, last: State, c: nat, k: Class, s: nat)
    requires Tearing(st, was, c) && Unlinked(was, off, c, k, s) && s in Queue(was.caches[c], k)
    requires c < |last.caches| == |last.geo|
    requires c < |off.caches| && off.caches[c] == Unqueued(was.caches[c], k, s)
    requires last.caches[c] == off.caches[c].(pagesDel := off.caches[c].pagesDel + 1,
             pagesInuse := off.caches[c].pagesInuse - 1)
    requires FrameBut(off, last, c, {s}) && Above(off, last, c)
             && Loans(last) == LoansWithout(off, c, was.slabs[s].membase)
    requires CountedUpTo(last, c - 1) && Inv(last, 0)
    ensures Tearing(st, last, c)
  {
    hide Inv, CountedUpTo, Frame, Loans, LoansWithout, Returnable, DropSlab, Unqueued, Queue, Unused, Tearing,
         PagesTally, Above, FrameBut;
    TearingFacts(st, was, c);
    QueuesTell(was, c, k);
    UnqueuedTally(was.caches[c], k, s);
    TopmostStill(was, off, last, c, k, s);
    LoansShrink(off, c, was.slabs[s].membase);
    AsFrameBut(st, was, c);
    AsFrameBut(was, off, c);
    FrameTransitive(was, off, last, c, c, {}, {s});
    FrameTransitive(st, was, last, c, c, {}, {});
    AsFrameBut(st, last, c);
    UnusedStill(was, last, c, k, s);
    TearingIf(st, last, c);
  }

  lemma TearingIf(st: State, last: State, c: nat)
    requires c < |st.caches| && c < |last.caches| && |last.geo| == |last.caches|
    requires PagesTally(last.caches[c]) && Unused(last, c) && Loans(last).Keys <= Loans(st).Keys
    requires CountedUpTo(last, c - 1) && Frame(st, last, c) && Inv(last, 0)
    ensures Tearing(st, last, c)
  {
    hide PagesTally, Unused, Loans, CountedUpTo, Frame, Inv;
  }

  lemma QueuesTell(st: State, c: nat, k: Class)
    requires c < |st.caches| && Inv(st, 0)
    ensures NoDup(Queue(st.caches[c], k)) && QueuesDistinct(st.caches[c])
  {
    hide *;
    Parts(st, 0);
    QueueFacts(st.caches, st.slabs, 0, c);
    OneDistinct(st.caches[c], k);
  }

  lemma OneDistinct(cache: Cache, k: Class)
    requires QueuesDistinct(cache)
    ensures NoDup(Queue(cache, k))
  {
  }

  lemma UnqueuedTally(cache: Cache, k: Class, s: nat)
    requires PagesTally(cache) && NoDup(Queue(cache, k)) && s in Queue(cache, k)
    ensures var off := Unqueued(cache, k, s);
            PagesTally(off.(pagesDel := off.pagesDel + 1, pagesInuse := off.pagesInuse - 1)) && off.lru == cache.lru
  {
    RemoveMembers(Queue(cache, k), s);
  }

  lemma TopmostStill(was: State, off: State, last: State, c: nat, k: Class, s: nat)
    requires Unused(was, c) && Unlinked(was, off, c, k, s) && Above(off, last, c)
    ensures Topmost(last, c)
  {
    hide Inv, Frame, Loans, LoansWithout, Returnable, Unqueued, Elsewhere, CountedUpTo;
  }

  lemma UnusedStill(was: State, last: State, c: nat, k: Class, s: nat)
    requires Unused(was, c) && c < |last.caches| && c < |was.caches| && last.caches[c].lru == was.caches[c].lru
             && Topmost(last, c)
    ensures Unused(last, c)
  {
  }

  // ---------- the methods ----------

  /** One turn of imemcache_drain_list on the full or the partial queue: its last slab goes as it is. */
  method DropLast(h: Heap, c: nat, k: Class, cpu: nat, ghost st: State)
    requires MayTake(h.held, 2 * c + 1)
    requires c < |h.geo| == |h.caches| && cpu < LRU_COUNT && h.pg > 0 && k != IsIdle && Queue(h.caches[c], k) != []
    requires Tearing(st, h.S(), c)
    modifies h
    ensures |h.caches| == |h.geo| && h.refusals >= old(h.refusals)
    ensures h.held == old(h.held) && Spare(h.S()) == Spare(old(h.S()))
    ensures Queue(h.caches[c], k) == old(Queue(h.caches[c], k))[..|old(Queue(h.caches[c], k))| - 1]
    ensures forall j: Class :: j != k ==> Queue(h.caches[c], j) == old(Queue(h.caches[c], j))
    ensures Tearing(st, h.S(), c)
  {
    hide SpareOf, MayTake, Locked, Unlocked, Inv, CountedUpTo, CountsOk, Frame, FrameBut, Loans, LoansWithout, Above,
         Returnable, Tearing, SlabsSame, Unlinked;
    ghost var was := h.S();
    var s, page := Unlink(h, c, k, st);
    ghost var off := h.S();
    UnlinkedFacts(was, off, c, k, s);
    h.SlabDelete(c, s, page, cpu);
    PlusThenLess(Spare(was), Spare(off), PageOf(h.geo, c, page), HeaderOf(h.geo, c, s));
    SlabTorn(st, was, off, h.S(), c, k, s);
  }

  lemma UnlinkedFacts(was: State, off: State, c: nat, k: Class, s: nat)
    requires Unlinked(was, off, c, k, s)
    ensures s in was.slabs && c < |off.geo| && off.geo == was.geo && Returnable(off, c, was.slabs[s].membase)
    ensures CountedUpTo(off, c - 1) && Inv(off, 0) && s !in off.slabs && (off.geo[c].offSlab ==> s in off.nodes)
  {
    hide SpareOf, MayTake, Locked, Unlocked, Inv, CountedUpTo, Frame, Loans, LoansWithout, Returnable, Unqueued,
         Elsewhere;
  }

  /** The last slab of the queue leaves it, and its units go with it. */
  method Unlink(h: Heap, c: nat, k: Class, ghost st: State) returns (s: nat, page: nat)
    requires c < |h.geo| == |h.caches| && h.pg > 0 && k != IsIdle && Queue(h.caches[c], k) != []
    requires Tearing(st, h.S(), c)
    modifies h
    ensures |h.caches| == |h.geo| && h.refusals == old(h.refusals) && h.held == old(h.held)
    ensures Plus(Spare(old(h.S())), Spare(h.S()), PageOf(h.geo, c, page), HeaderOf(h.geo, c, s))
    ensures Queue(h.caches[c], k) == old(Queue(h.caches[c], k))[..|old(Queue(h.caches[c], k))| - 1]
    ensures forall j: Class :: j != k ==> Queue(h.caches[c], j) == old(Queue(h.caches[c], j))
    ensures s in old(Queue(h.caches[c], k)) && s in old(h.slabs) && page == old(h.slabs)[s].membase
    ensures h.caches[c] == Unqueued(old(h.caches[c]), k, s) && Unlinked(old(h.S()), h.S(), c, k, s)
  {
    hide SpareOf, MayTake, Locked, Unlocked, Inv, CountedUpTo, CountsOk, Frame, FrameBut, Loans, Above, Tearing,
         Returnable, Unlinked;
    ghost var was := h.S();
    s := Queue(h.caches[c], k)[|Queue(h.caches[c], k)| - 1];
    LastOf(st, was, c, k, s);
    page := h.slabs[s].membase;
    h.caches := h.caches[c := Unqueued(h.caches[c], k, s)];
    h.slabs := h.slabs - {s};
    h.free := h.free - {s};
    h.owner := Elsewhere(h.owner, h.home, s);
    h.home := map u | u in h.home && h.home[u] != s :: h.home[u];
    if h.geo[c].gfp.Some? {
      h.owner := h.owner[page - PTR := Client];
    }
    UnlinkedSpare(st, was, h.S(), c, s);
    UnlinkedOk(st, was, h.S(), c, k, s);
  }

  lemma UnlinkedSpare(st: State, was: State, off: State, c: nat, s: nat)
    requires Tearing(st, was, c) && s in was.slabs && was.slabs[s].extra == c
    requires off.geo == was.geo && off.pages == was.pages && off.nodes == was.nodes && off.slabs == was.slabs - {s}
    ensures Plus(Spare(was), Spare(off), PageOf(was.geo, c, was.slabs[s].membase), HeaderOf(was.geo, c, s))
  {
    hide Inv, Tearing, SpareOf;
    TearingFacts(st, was, c);
    SpareGone(was, off, s);
  }

  lemma LastOf(st: State, was: State, c: nat, k: Class, s: nat)
    requires Tearing(st, was, c) && Queue(was.caches[c], k) != []
             && s == Queue(was.caches[c], k)[|Queue(was.caches[c], k)| - 1]
    ensures s in was.slabs && was.slabs[s].extra == c && c < |was.geo| && was.slabs[s].membase >= PTR
    ensures Remove(Queue(was.caches[c], k), s) == Queue(was.caches[c], k)[..|Queue(was.caches[c], k)| - 1]
    ensures forall j: Class :: Queue(Unqueued(was.caches[c], k, s), j) ==
              if j == k then Remove(Queue(was.caches[c], k), s) else Queue(was.caches[c], j)
  {
    hide SpareOf, MayTake, Locked, Unlocked, Inv, Frame, CountedUpTo, Loans, QueuesOk;
    TearingFacts(st, was, c);
    QueuesTell(was, c, k);
    RemoveLast(Queue(was.caches[c], k));
    Parts(was, 0);
    QueueFacts(was.caches, was.slabs, 0, c);
    assert s in Queue(was.caches[c], k);
    SlabBounds(was, s);
  }

  /** imemcache_drain_list on the full or the partial queue, to the end; `count_full` and `count_partial` follow. */
  method DrainHeld(h: Heap, c: nat, k: Class, cpu: nat, ghost st: State)
    requires MayTake(h.held, 2 * c + 1)
    requires c < |h.geo| == |h.caches| && cpu < LRU_COUNT && h.pg > 0 && k != IsIdle && Tearing(st, h.S(), c)
    modifies h
    ensures |h.caches| == |h.geo| && h.refusals >= old(h.refusals) && Queue(h.caches[c], k) == []
    ensures h.held == old(h.held) && Spare(h.S()) == Spare(old(h.S()))
    ensures forall j: Class :: j != k ==> Queue(h.caches[c], j) == old(Queue(h.caches[c], j))
    ensures Tearing(st, h.S(), c)
  {
    hide SpareOf, MayTake, Locked, Unlocked, Inv, CountedUpTo, Frame, Loans, Tearing, Queue;
    ghost var was := h.caches[c];
    var count := 0;
    while Queue(h.caches[c], k) != []
      invariant |h.caches| == |h.geo| && h.refusals >= old(h.refusals)
      invariant h.held == old(h.held) && Spare(h.S()) == Spare(old(h.S()))
      invariant forall j: Class :: j != k ==> Queue(h.caches[c], j) == Queue(was, j)
      invariant Tearing(st, h.S(), c)
      decreases |Queue(h.caches[c], k)|
    {
      DropLast(h, c, k, cpu, st);
      count := count + 1;
    }
    ghost var last := h.S();
    var cache := h.caches[c];
    h.caches := h.caches[c := if k == IsFull then cache.(countFull := cache.countFull - count)
                              else cache.(countPartial := cache.countPartial - count)];
    Recounted(st, last, c, h.caches[c]);
  }

  /** Only counters of slabs and units of cache `c` change. */
  ghost predicate OnlyCounts(cache: Cache, cache': Cache) {
    cache' == cache.(countFull := cache'.countFull, countPartial := cache'.countPartial, countFree := cache'.countFree,
                     freeObjects := cache'.freeObjects)
  }

  lemma Recounted(st: State, was: State, c: nat, cache': Cache)
    requires Tearing(st, was, c) && c < |was.caches| && OnlyCounts(was.caches[c], cache')
    ensures Tearing(st, was.(caches := was.caches[c := cache']), c)
    ensures forall j: Class :: Queue(cache', j) == Queue(was.caches[c], j)
  {
    hide SpareOf, MayTake, Locked, Unlocked, Inv, CountedUpTo, CountsOk, Frame, FrameBut, Loans, Unused, Tearing;
    TearingFacts(st, was, c);
    var last := was.(caches := was.caches[c := cache']);
    RecountInv(was, c, cache');
    CountedOthers(was, last, c, 0);
    AsFrameBut(st, was, c);
    AsFrameBut(was, last, c);
    FrameTransitive(st, was, last, c, c, {}, {});
    AsFrameBut(st, last, c);
    UnusedRecount(was, last, c);
    TearingIf(st, last, c);
  }

  lemma UnusedRecount(was: State, last: State, c: nat)
    requires Unused(was, c) && c < |was.caches| && c < |last.caches| && last.caches[c].lru == was.caches[c].lru
    requires last.slabs == was.slabs
    ensures Unused(last, c)
  {
  }

  lemma RecountInv(st: State, c: nat, cache': Cache)
    requires c < |st.caches| && OnlyCounts(st.caches[c], cache') && Inv(st, 0)
    ensures var st' := st.(caches := st.caches[c := cache']);
            Inv(st', 0) && Frame(st, st', c) && Loans(st') == Loans(st)
  {
    hide *;
    var cs' := st.caches[c := cache'];
    Parts(st, 0);
    RecountQueues(st.caches, c, cache');
    QueuesKept(st.caches, cs', st.slabs, 0);
    ColorsKept(st.geo, st.caches, cs');
    CachesIrrelevant(st, cs');
    RecordMagazines(st, c, cache');
    Assemble(st.(caches := cs'), 0);
    RecordFrame(st, c, cache');
  }

  lemma RecountQueues(cs: seq<Cache>, c: nat, cache': Cache)
    requires c < |cs| && OnlyCounts(cs[c], cache')
    ensures SameQueues(cs, cs[c := cache']) && cache'.lru == cs[c].lru && cache'.colorNext == cs[c].colorNext
  {
  }

  // ---------- a whole cache ----------

  /** The cache has no slab and no page left, and says so. */
  ghost predicate Bare(cache: Cache) {
    && cache.partial == cache.full == cache.idle == []
    && cache.countPartial == cache.countFull == cache.countFree == cache.freeObjects == 0
    && cache.pagesInuse == 0 && cache.pagesNew == cache.pagesDel
  }

  /** imemcache_destroy_list. */
  method DestroyList(h: Heap, c: nat, cpu: nat)
    requires MayTake(h.held, 2 * c + 1)
    requires c < |h.geo| == |h.caches| && cpu < LRU_COUNT && h.Ok(c) && Unused(h.S(), c)
    modifies h
    ensures |h.caches| == |h.geo| && h.refusals >= old(h.refusals) && Bare(h.caches[c])
    ensures h.held == old(h.held) && Spare(h.S()) == Spare(old(h.S()))
    ensures Topmost(h.S(), c - 1) && Loans(h.S()).Keys <= Loans(old(h.S())).Keys && Frame(old(h.S()), h.S(), c)
    ensures h.Ok(c)
  {
    hide SpareOf, MayTake, Locked, Unlocked, Inv, CountedUpTo, CountsOk, Frame, Loans, Tearing, Unused, PagesTally;
    ghost var st := h.S();
    var n := h.DrainIdle(c, -1, cpu);
    DrainedUnused(st, h.S(), c);
    DrainHeld(h, c, IsFull, cpu, st);
    DrainHeld(h, c, IsPartial, cpu, st);
    ghost var last := h.S();
    h.caches := h.caches[c := h.caches[c].(countFree := 0, countFull := 0, countPartial := 0, freeObjects := 0)];
    Recounted(st, last, c, h.caches[c]);
    NoSlabLeft(st, h.S(), c);
  }

  lemma DrainedUnused(st: State, st': State, c: nat)
    requires c < |st.caches| && c < |st'.caches| == |st'.geo| && Unused(st, c) && st'.caches[c].lru == st.caches[c].lru
    requires CountedUpTo(st', c) && Frame(st, st', c) && Loans(st') == Loans(st) && Inv(st', 0)
    ensures Tearing(st, st', c) && PagesTally(st'.caches[c])
  {
    hide SpareOf, MayTake, Locked, Unlocked, Inv, Loans, Frame, CountsOk;
    CountedAt(st', c);
    CountedLess(st', c, c - 1);
    TallyFrom(st'.caches[c], st'.free);
    FrameAbove(st, st', c);
    assert Topmost(st', c);
  }

  lemma TallyFrom(cache: Cache, free: map<nat, seq<nat>>)
    requires CountsOk(cache, free)
    ensures PagesTally(cache)
  {
  }

  lemma NoSlabLeft(st: State, last: State, c: nat)
    requires Tearing(st, last, c) && c < |last.caches|
    requires forall j: Class :: Queue(last.caches[c], j) == []
    requires var cache := last.caches[c];
             cache.countFree == cache.countFull == cache.countPartial == cache.freeObjects == 0
    ensures Bare(last.caches[c]) && Topmost(last, c - 1) && CountedUpTo(last, c)
    ensures Loans(last).Keys <= Loans(st).Keys && Frame(st, last, c) && Inv(last, 0)
  {
    hide SpareOf, MayTake, Locked, Unlocked, Inv, Frame, Loans, CountedUpTo, Tearing;
    TearingFacts(st, last, c);
    assert Queue(last.caches[c], IsPartial) == Queue(last.caches[c], IsFull) == Queue(last.caches[c], IsIdle) == [];
    AllGone(last, c);
    CountedTop(last, c);
  }

  lemma AllGone(st: State, c: nat)
    requires c < |st.caches| && Topmost(st, c) && Inv(st, 0)
    requires st.caches[c].partial == st.caches[c].full == st.caches[c].idle == []
    ensures Topmost(st, c - 1)
  {
    hide SpareOf, MayTake, Locked, Unlocked, Inv, QueuesOk;
    Parts(st, 0);
    forall t | t in st.slabs ensures st.slabs[t].extra <= c - 1 {
      QueuedWhere(st.caches, st.slabs, 0, t);
    }
  }

  // ---------- giving the magazines back ----------

  /** These entries of cache `c` are in hand, and apart from them the loans are those of `st`. */
  ghost predicate Parked(st: State, now: State, c: nat, entry: seq<nat>) {
    && NoDup(entry) && (forall e :: e in entry ==> InHand(now, e, c))
    && (forall u :: u in Loans(now) <==> u in Loans(st) || u + PTR in entry)
    && (forall u :: u in Loans(st) ==> Loans(now)[u] == Loans(st)[u] && u + PTR !in entry)
  }

  lemma NothingParked(st: State, c: nat)
    ensures Parked(st, st, c, [])
  {
  }

  lemma ParkedLoans(st: State, now: State, c: nat)
    requires Parked(st, now, c, [])
    ensures Loans(now) == Loans(st)
  {
    hide Loans;
  }

  lemma ParkMore(st: State, was: State, taken: State, c: nat, k: nat, e: nat, entry: seq<nat>)
    requires Parked(st, was, c, entry) && InHand(taken, e, c) && e >= PTR && e - PTR !in Loans(was)
    requires Loans(taken) == Loans(was)[e - PTR := Hand]
    requires taken.home == was.home && taken.slabs == was.slabs && taken.owner == was.owner[e - PTR := Hand]
    ensures Parked(st, taken, c, [e] + entry)
  {
    assert forall x :: x in entry ==> x - PTR in Loans(was);
    assert e !in entry;
    hide Loans;
    AppendMembers(entry, e);
    forall x | x in [e] + entry ensures InHand(taken, x, c) {
      if x != e { assert InHand(was, x, c); }
    }
    forall u ensures u in Loans(taken) <==> u in Loans(st) || u + PTR in [e] + entry {
      assert u + PTR in [e] + entry <==> u + PTR == e || u + PTR in entry;
    }
  }

  lemma ParkLess(st: State, was: State, now: State, c: nat, entry: seq<nat>)
    requires entry != [] && Parked(st, was, c, entry) && Frame(was, now, c) && entry[0] >= PTR
    requires Loans(now) == Loans(was) - {entry[0] - PTR} && Inv(now, 0)
    ensures Parked(st, now, c, entry[1..])
  {
    hide Inv, Frame;
    assert entry[0] !in entry[1..];
    forall x | x in entry[1..] ensures InHand(now, x, c) {
      assert x in entry && x != entry[0];
      assert InHand(was, x, c);
      assert x - PTR in Loans(was) && Loans(was)[x - PTR] == Hand;
      assert x - PTR in Loans(now) && Loans(now)[x - PTR] == Hand;
      StaysInHand(was, now, x, c);
    }
    hide Loans;
    forall u ensures u in Loans(now) <==> u in Loans(st) || u + PTR in entry[1..] {
      assert u + PTR in entry <==> u + PTR == entry[0] || u + PTR in entry[1..];
    }
  }

  lemma ParkedFrame(st: State, was: State, now: State, c: nat, entry: seq<nat>)
    requires Frame(st, was, c) && Frame(was, now, c) && Parked(st, was, c, entry)
    ensures Frame(st, now, c)
  {
    hide Frame, Loans;
    FrameChain(st, was, now, c);
  }

  /** The first loop of imemcache_release for one magazine: its entries are copied out and it is left empty. */
  method TakeEntries(h: Heap, c: nat, k: nat) returns (entry: seq<nat>)
    requires ArrayLock(c, k) in h.held
    requires c < |h.geo| == |h.caches| && k < LRU_COUNT && |h.caches[c].lru| == LRU_COUNT && h.Ok(c)
    modifies h`caches, h`owner
    ensures |h.caches| == |h.geo| && Spare(h.S()) == Spare(old(h.S()))
    ensures entry == old(h.caches[c].lru[k]) && h.caches[c].lru == old(h.caches[c].lru)[k := []]
    ensures Parked(old(h.S()), h.S(), c, entry) && h.Ok(c) && Frame(old(h.S()), h.S(), c)
  {
    hide SpareOf, Inv, CountedUpTo, CountsOk, Frame, Loans, InHand, Parked;
    ghost var st := h.S();
    ghost var q := h.caches[c].lru[k];
    FrameSame(st, c);
    NothingParked(st, c);
    entry := [];
    assert h.caches[c].lru == h.caches[c].lru[k := q];
    while h.caches[c].lru[k] != []
      invariant |h.caches| == |h.geo| && |h.caches[c].lru| == LRU_COUNT && Spare(h.S()) == Spare(st)
      invariant q == h.caches[c].lru[k] + entry && h.caches[c].lru == st.caches[c].lru[k := h.caches[c].lru[k]]
      invariant Parked(st, h.S(), c, entry) && h.Ok(c) && Frame(st, h.S(), c)
      decreases |h.caches[c].lru[k]|
    {
      ghost var was := h.S();
      TopEntry(was, c, k);
      var top := |h.caches[c].lru[k]| - 1;
      var e := h.caches[c].lru[k][top];
      h.caches := h.caches[c := h.caches[c].(lru := h.caches[c].lru[k := h.caches[c].lru[k][..top]])];
      h.owner := h.owner[e - PTR := Hand];
      Taken(was, h.S(), c, k, e);
      ParkMore(st, was, h.S(), c, k, e, entry);
      ParkedFrame(st, was, h.S(), c, entry);
      entry := [e] + entry;
    }
  }

  /** The second loop: the entries go back to their slabs, from the first to the last. */
  method FreeEntries(h: Heap, c: nat, entry: seq<nat>, cpu: nat, ghost st: State)
    requires MayTake(h.held, 2 * c + 1) && ListLock(c) in h.held
    requires c < |h.geo| == |h.caches| && cpu < LRU_COUNT
    requires Parked(st, h.S(), c, entry) && h.Ok(c) && Frame(st, h.S(), c)
    modifies h
    ensures |h.caches| == |h.geo| && h.refusals >= old(h.refusals) && h.caches[c].lru == old(h.caches[c].lru)
    ensures h.held == old(h.held) && Spare(h.S()) == Spare(old(h.S()))
    ensures Loans(h.S()) == Loans(st) && h.Ok(c) && Frame(st, h.S(), c)
  {
    hide SpareOf, MayTake, Inv, CountedUpTo, CountsOk, Frame, Loans, InHand, Parked;
    var j := 0;
    while j < |entry|
      invariant j <= |entry| && |h.caches| == |h.geo| && h.refusals >= old(h.refusals)
      invariant h.caches[c].lru == old(h.caches[c].lru)
      invariant h.held == old(h.held) && Spare(h.S()) == Spare(old(h.S()))
      invariant Parked(st, h.S(), c, entry[j..]) && h.Ok(c) && Frame(st, h.S(), c)
    {
      ghost var was, left := h.S(), entry[j..];
      FirstParked(st, was, c, left);
      h.ListFree(entry[j], c, cpu);
      ParkLess(st, was, h.S(), c, left);
      ParkedFrame(st, was, h.S(), c, left);
      assert left[1..] == entry[j + 1..];
      j := j + 1;
    }
    assert entry[j..] == [];
    ParkedLoans(st, h.S(), c);
  }

  lemma FirstParked(st: State, now: State, c: nat, entry: seq<nat>)
    requires entry != [] && Parked(st, now, c, entry)
    ensures InHand(now, entry[0], c)
  {
    assert entry[0] in entry;
  }

  /** imemcache_release, on the last cache that still has slabs. */
  method Release(h: Heap, c: nat, cpu: nat)
    requires MayTake(h.held, 2 * c + 3)
    requires c < |h.geo| == |h.caches| && cpu < LRU_COUNT && h.Ok(c) && Topmost(h.S(), c)
    modifies h
    ensures |h.caches| == |h.geo| && h.refusals >= old(h.refusals) && Bare(h.caches[c])
    ensures h.held == old(h.held) && Spare(h.S()) == Spare(old(h.S()))
    ensures Topmost(h.S(), c - 1) && Loans(h.S()).Keys <= Loans(old(h.S())).Keys && Frame(old(h.S()), h.S(), c)
    ensures h.Ok(c)
  {
    hide SpareOf, MayTake, Locked, Unlocked, Inv, CountedUpTo, CountsOk, Frame, Loans, Bare, Topmost;
    ghost var st := h.S();
    FrameSame(st, c);
    LruCount(st, c);
    var i := 0;
    while i < LRU_COUNT
      invariant i <= LRU_COUNT && |h.caches| == |h.geo| && h.refusals >= old(h.refusals)
      invariant h.held == old(h.held) && Spare(h.S()) == Spare(old(h.S()))
      invariant |h.caches[c].lru| == LRU_COUNT && forall k :: 0 <= k < i ==> h.caches[c].lru[k] == []
      invariant Topmost(h.S(), c) && Frame(st, h.S(), c) && Loans(h.S()) == Loans(st)
      invariant h.Ok(c)
    {
      ghost var was := h.S();
      h.held := Locked(h.held, ArrayLock(c, i));
      var entry := TakeEntries(h, c, i);
      h.held := Unlocked(h.held, ArrayLock(c, i));
      MayTakeLess(h.held, 2 * c + 3, 2 * c + 2);
      h.held := Locked(h.held, ListLock(c));
      FreeEntries(h, c, entry, cpu, was);
      h.held := Unlocked(h.held, ListLock(c));
      TopmostFrame(was, h.S(), c);
      FrameChain(st, was, h.S(), c);
      i := i + 1;
    }
    ghost var flushed := h.S();
    MayTakeLess(h.held, 2 * c + 3, 2 * c + 1);
    DestroyList(h, c, cpu);
    FrameEnds(st, flushed, h.S(), c);
  }

  lemma TopmostFrame(st: State, st': State, c: nat)
    requires Topmost(st, c) && Frame(st, st', c)
    ensures Topmost(st', c)
  {
    hide Loans;
    FrameAbove(st, st', c);
  }

  lemma FrameEnds(st: State, was: State, last: State, c: nat)
    requires Frame(st, was, c) && Frame(was, last, c) && Loans(was) == Loans(st) && Loans(last).Keys <= Loans(was).Keys
    ensures Frame(st, last, c)
  {
    hide Frame, Loans;
    FrameChain(st, was, last, c);
  }

  /** The loop of ikmem_destroy over ikmem_array, from the last cache to the first. */
  method ReleaseAll(h: Heap, cpu: nat)
    requires h.held == []
    requires cpu < LRU_COUNT && h.Ok(|h.geo| - 1)
    modifies h
    ensures h.held == [] && Spare(h.S()) == Spare(old(h.S()))
    ensures |h.caches| == |h.geo| && Topmost(h.S(), -1) && forall i :: 0 <= i < |h.caches| ==> Bare(h.caches[i])
    ensures h.Ok(|h.geo| - 1)
  {
    hide SpareOf, MayTake, Locked, Unlocked, Inv, CountedUpTo, CountsOk, Frame, Loans, Bare, Topmost;
    var index := |h.geo|;
    NoneAbove(h.S());
    while index > 0
      invariant 0 <= index <= |h.geo| == |h.caches|
      invariant h.held == [] && Spare(h.S()) == Spare(old(h.S()))
      invariant Topmost(h.S(), index - 1)
      invariant forall i :: index <= i < |h.caches| ==> Bare(h.caches[i])
      invariant h.Ok(|h.geo| - 1)
    {
      index := index - 1;
      ghost var was := h.S();
      CountedLess(was, |h.geo| - 1, index);
      MayTakeAny(2 * index + 3);
      Release(h, index, cpu);
      FrameAbove(was, h.S(), index);
      CountedThrough(was, h.S(), index, |h.geo| - 1);
    }
  }

  /** The loop of ikmem_destroy over ikmem_large_ptr. */
  method FreeLarge(h: Heap)
    requires h.held == [] && h.Ok(|h.geo| - 1)
    modifies h`large, h`held
    ensures h.held == []
    ensures h.large == map[] && h.S() == old(h.S()).(large := map[])
    ensures h.Ok(|h.geo| - 1)
  {
    hide SpareOf, MayTake, Locked, Unlocked, Inv, CountedUpTo, Loans;
    while h.large != map[]
      invariant h.held == [] && h.S() == old(h.S()).(large := h.large)
      invariant h.Ok(|h.geo| - 1)
      decreases |h.large|
    {
      var b :| b in h.large;
      LargeLess(h.large, b);
      MayTakeAny(1);
      h.LargeFree(b);
    }
  }

  /** ikmem_destroy: nothing is left, whatever the clients still held. */
  method Destroy(a: Allocator, cpu: nat)
    requires a.Valid() && cpu < LRU_COUNT
    modifies a.heap
    ensures a.heap.slabs == map[] && a.heap.home == map[] && a.heap.owner == map[] && a.heap.large == map[]
    ensures a.heap.pages == {} && a.heap.nodes == {} && a.heap.held == []
    ensures forall i :: 0 <= i < |a.heap.caches| ==> Bare(a.heap.caches[i])
  {
    hide SpareOf, MayTake, Locked, Unlocked, Inv, CountedUpTo, Bare, LiveOk, Tallied;
    ReleaseAll(a.heap, cpu);
    NothingLeft(a.heap.S());
    NothingOutstanding(a.heap.S());
    FreeLarge(a.heap);
  }

  lemma LargeLess(m: map<nat, nat>, b: nat)
    requires b in m
    ensures |m - {b}| < |m|
  {
    assert (m - {b}).Keys == m.Keys - {b};
    assert |(m - {b}).Keys| < |m.Keys|;
  }

  lemma NoneAbove(st: State)
    requires Inv(st, 0)
    ensures Topmost(st, |st.geo| - 1)
  {
    hide Inv;
    Ready(st);
  }

  lemma NothingLeft(st: State)
    requires Topmost(st, -1) && Inv(st, 0)
    ensures st.slabs == map[] && st.home == map[] && st.owner == map[]
  {
    hide Inv;
    Ready(st);
    assert st.slabs.Keys == {};
    assert st.home.Keys == {};
  }
}
