/** The slab caches of kmem/imembase.c: the page supplier, the list layer and the magazines, over one
  * memory. A cache may take its pages from an earlier cache, so allocation and release call each other
  * along the supplier chain.
  */
module SlabCache {
  import opened Layout
  import opened KmemState
  import opened SlabSteps
  import opened Frames
  import opened Counters
  import opened Environment
  import opened ListOps
  import opened CacheLemmas
  import opened Spares
  import opened Locks

  class Heap {
    const pg: nat
    const geo: seq<Geom>
    var caches: seq<Cache>
    var slabs: map<nat, Slab>
    var word: map<nat, nat>
    var pages: set<nat>
    var nodes: set<nat>
    var large: map<nat, nat>
    ghost var home: map<nat, nat>
    ghost var free: map<nat, seq<nat>>
    ghost var owner: map<nat, Owner>
    ghost var refusals: nat  // how often the system had no block to give
    ghost var held: seq<Lock>  // the locks the calling thread holds

    ghost function S(): State
      reads this
    {
      State(pg, geo, caches, slabs, word, pages, nodes, large, home, free, owner)
    }

    /** Between operations: the shape holds, and the counters of caches 0..c are exact. */
    ghost predicate Ok(c: int)
      reads this
    {
      Inv(S(), 0) && CountedUpTo(S(), c) && pg > 0 && |caches| == |geo|
    }

    /** An empty heap over caches of the given geometry. */
    constructor (pg: nat, geo: seq<Geom>)
      requires pg > 0 && LinksOk(pg, geo) && CalcsOk(geo)
      ensures this.pg == pg && this.geo == geo
      ensures Loans(S()) == map[] && large == map[] && Spare(S()) == Unused({}, {}) && held == []
      ensures Ok(|geo| - 1)
    {
      this.pg, this.geo := pg, geo;
      caches := seq(|geo|, _ => EmptyCache());
      slabs, word, pages, nodes, large := map[], map[], {}, {}, map[];
      home, free, owner, refusals, held := map[], map[], map[], 0, [];
      new;
      EmptyHeap(S());
    }

    /** The malloc of a large block, with the two words in front of the object. */
    method LargeAlloc(size: nat) returns (b: nat)
      requires MayTake(held, 1)
      requires Ok(|geo| - 1)
      modifies this
      ensures |caches| == |geo| && refusals >= old(refusals)
      ensures held == old(held) && Spare(S()) == Spare(old(S()))
      ensures b == 0 ==> S() == old(S()) && refusals > old(refusals)
      ensures b != 0 ==> b !in old(large) && LargeTaken(old(S()), S(), b, size)
      ensures Ok(|geo| - 1)
    {
      hide SpareOf, MayTake, Locked, Unlocked, Inv, CountedUpTo, LargeTaken, FreshBlock;
      ghost var st := S();
      var q: nat :| q == 0 || FreshAddress(pg, pages, nodes, large, q, LARGE_HEAD + size);
      b := q;
      if q == 0 {
        refusals := refusals + 1;
      } else {
        held := Locked(held, LargeLock);
        large := large[q := size];
        word := word[q + LARGE_HEAD - PTR := 0][q + LARGE_HEAD - 2 * PTR := size];
        held := Unlocked(held, LargeLock);
        assert FreshBlock(st, q, LARGE_HEAD + size) by { IsFresh(st, q, LARGE_HEAD + size); }
        TakenLarge(st, S(), q, size);
      }
    }

    method LargeFree(b: nat)
      requires MayTake(held, 1)
      requires b in large && Ok(|geo| - 1)
      modifies this`large, this`held
      ensures held == old(held)
      ensures S() == old(S()).(large := old(large) - {b}) && Loans(S()) == Loans(old(S()))
      ensures Ok(|geo| - 1)
    {
      hide SpareOf, MayTake, Locked, Unlocked, Inv, CountedUpTo, Loans;
      ghost var st := S();
      held := Locked(held, LargeLock);
      large := large - {b};
      held := Unlocked(held, LargeLock);
      ReleaseLarge(st, b);
      CountedSame(st, S(), |geo| - 1);
    }

    /** A client stores into its object. */
    method Store(a: nat, v: nat)
      requires a !in home && Ok(|geo| - 1)
      modifies this`word
      ensures S() == old(S()).(word := old(word)[a := v]) && Loans(S()) == Loans(old(S()))
      ensures Ok(|geo| - 1)
    {
      hide SpareOf, MayTake, Locked, Unlocked, Inv, CountedUpTo, Loans;
      ghost var st := S();
      word := word[a := v];
      StoreInv(st, a, v);
      CountedSame(st, S(), |geo| - 1);
    }

    /** imslab_init: carve [page + coloroff, page + memsize) into a chain of units. */
    method SlabInit(page: nat, memsize: nat, unit: nat, coloroff: nat) returns (n: nat, bufctl: nat, ghost us: seq<nat>)
      requires unit > 0 && unit % 8 == 0 && (page + coloroff) % 8 == 0 && coloroff + unit <= memsize
      modifies this`word
      ensures |us| == n && n > 0 && bufctl == us[0]
      ensures n * unit <= memsize - coloroff < (n + 1) * unit
      ensures Chained(us, word) && NoDup(us)
      ensures forall u :: u in us ==> u % 8 == 0 && page + coloroff <= u && u + unit <= page + memsize
      ensures forall u, v :: u in us && v in us && u < v ==> u + unit <= v
      ensures SameOutside(us, old(word), word)
    {
      hide Chained, Stretch, SameOutside, NoDup, Times, Aligned;
      var start := page + coloroff;
      var tail: nat := 0;
      n, bufctl, us := 0, 0, [];
      NothingCarved(start, unit, word);
      NoTimes(unit);
      StartsAligned(start);
      while start + unit <= page + memsize
        invariant |us| == n && start == page + coloroff + Times(n, unit) && Aligned(start)
        invariant start <= page + memsize
        invariant n > 0 ==> bufctl == us[0] && tail == us[n - 1]
        invariant Stretch(us, page + coloroff, start, unit) && Chained(us, word) && SameOutside(us, old(word), word)
        decreases page + memsize - start
      {
        ghost var before, was := us, word;
        word := word[start := 0];
        if n == 0 {
          bufctl := start;
        } else {
          word := word[tail := start];
        }
        us := us + [start];
        StretchGrow(before, page + coloroff, start, unit);
        ChainGrow(before, was, start, word);
        SameGrow(before, old(word), was, start, word);
        tail := start;
        OneMore(n, unit);
        AlignedNext(start, unit);
        start := start + unit;
        n := n + 1;
      }
      OneMore(n, unit);
      TimesAre(n, unit);
      StretchSpaced(us, page + coloroff, start, unit);
    }
    // ---------- the page supplier ----------

    /** The default supplier: any aligned block apart from every outstanding one, or none. */
    method DefaultPage() returns (p: nat)
      requires MayTake(held, 1)
      requires Ok(-1)
      modifies this`pages, this`refusals, this`held
      ensures held == old(held)
      ensures p == 0 ==> S() == old(S()) && refusals == old(refusals) + 1
      ensures p != 0 ==> S() == old(S()).(pages := old(pages) + {p}) && refusals == old(refusals)
      ensures p != 0 ==> FreshBlock(old(S()), p, pg)
    {
      held := Locked(held, PagePoolLock);
      var q: nat :| q == 0 || FreshAddress(pg, pages, nodes, large, q, pg);
      if q == 0 {
        refusals := refusals + 1;
      } else {
        pages := pages + {q};
      }
      p := q;
      held := Unlocked(held, PagePoolLock);
    }

    /** imem_gfp_alloc on behalf of cache `c`. */
    method GfpAlloc(c: nat, cpu: nat) returns (page: nat)
      requires MayTake(held, 2 * c + 1)
      requires c < |geo| && Ok(c) && cpu < LRU_COUNT
      modifies this
      ensures refusals >= old(refusals) && Ok(c) && Frame(old(S()), S(), c - 1)
      ensures held == old(held) && SameSmaller(geo, old(caches), caches, c)
      ensures page == 0 ==> Spare(S()) == Spare(old(S()))
      ensures page != 0 ==> Plus(Spare(old(S())), Spare(S()), PageOf(geo, c, page), {})
      ensures page == 0 ==> Loans(S()) == Loans(old(S())) && refusals > old(refusals)
      ensures page != 0 ==> GotPage(old(S()), S(), c, page)
      decreases c, 0
    {
      hide SpareOf, MayTake, Locked, Unlocked, Inv, CountedUpTo, Frame, Loans, SlabsOk, HomeOk, Vacant, UnusedPage,
           FreshBlock, InCache, Above;
      ghost var st := S();
      match geo[c].gfp {
        case None =>
          CountedNone(S());
          MayTakeLess(held, 2 * c + 1, 1);
          page := DefaultPage();
          CountedNone(S());
          if page != 0 {
            TakePage(st, page);
            SpareTaken(st, S(), page);
            FrameAbove(st, S(), -1);
            FrameWeaken(st, S(), -1, c - 1);
            CountedThrough(st, S(), -1, c);
            UnusedIsVacant(S(), c, page);
          } else {
            FrameSame(st, c - 1);
          }
        case Some(g) =>
          SupplierBelow(st, c);
          SupplierLarger(st, c);
          CountedLess(st, c, g);
          MayTakeLess(held, 2 * c + 1, 2 * g + 3);
          page := CacheAlloc(g, cpu);
          FrameAbove(st, S(), g);
          CountedThrough(st, S(), g, c);
          FrameWeaken(st, S(), g, c - 1);
          if page != 0 {
            ClientIsVacant(S(), c, page);
          }
      }
    }

    // ---------- the list layer ----------

    /** imslab_alloc on the slab at the head of the partial queue, and what follows it in imemcache_list_alloc. */
    method TakeFrom(c: nat, s: nat) returns (ptr: nat)
      requires c < |caches| && Selected(S(), c, s)
      modifies this
      ensures ptr >= PTR && Served(old(S()), S(), c, s, ptr) && refusals == old(refusals)
      ensures held == old(held) && Spare(S()) == Spare(old(S()))
      ensures c < |geo| ==> SameSmaller(geo, old(caches), caches, c)
    {
      ghost var st := S();
      hide SpareOf, MayTake, Locked, Unlocked, Inv, CountsOk, SlabsOk, HomeOk, FreeOk, Selected, HeadsOk, InuseOk,
           MagazinesOk, ColorsOk, CalcsOk, QueuesOk, Shape, NodesOk, BlocksOk;
      OfSelected(st, c, s);
      Parts(st, s);
      NullMeansEmpty(st, s);
      var u := slabs[s].bufctl;
      var sl, cache := slabs[s].(bufctl := word[u], inuse := slabs[s].inuse + 1), Popped(caches[c]);
      if sl.bufctl == 0 {
        cache := PartialToFull(cache, s);
      }
      slabs := slabs[s := sl];
      caches := caches[c := cache];
      word := word[u := s];
      free := free[s := free[s][1..]];
      owner := owner[u := Hand];
      ptr := u + PTR;
      SpareMoved(st, S(), s);
    }

    /** imemcache_list_alloc: a unit of the first partial slab, else of the first idle one, else of a new one. */
    method ListAlloc(c: nat, cpu: nat) returns (ptr: nat)
      requires MayTake(held, 2 * c + 1) && ListLock(c) in held
      requires c < |geo| == |caches| && Ok(c) && cpu < LRU_COUNT
      modifies this
      ensures |caches| == |geo| && caches[c].lru == old(caches[c].lru) && refusals >= old(refusals)
      ensures held == old(held) && Spare(S()) == Spare(old(S()))
      ensures SameSmaller(geo, old(caches), caches, c)
      ensures Ok(c) && Frame(old(S()), S(), c)
      ensures ptr == 0 ==> Loans(S()) == Loans(old(S())) && refusals > old(refusals)
      ensures ptr != 0 ==> GotUnit(old(S()), S(), c, ptr, Hand)
      ensures old(caches[c].partial) != [] ==> Served(old(S()), S(), c, old(caches[c].partial[0]), ptr)
      ensures old(caches[c].partial) == [] && old(caches[c].idle) != [] ==>
                Served(FromIdle(old(S()), c), S(), c, old(caches[c].idle[0]), ptr)
      ensures old(caches[c].partial) == [] && old(caches[c].idle) == [] && ptr != 0 ==> FromNew(old(S()), S(), c, ptr)
      decreases c, 3
    {
      hide FromNew, Served, Created, GotUnit, SpareOf, MayTake, Locked, Unlocked, Inv, CountedUpTo, CountsOk, Frame,
           FrameBut, Loans, SlabsOk, HomeOk, Vacant, Carved, InCache, Above, Selected;
      ghost var st := S();
      var s: nat;
      ghost var mid, carved, n, us := st, st, 0, [];
      CountedAt(st, c);
      if caches[c].partial == [] {
        if caches[c].idle == [] {
          var count;
          s, count, mid, us := SlabCreate(c, cpu);
          if s == 0 { return 0; }
          carved, n := S(), count;
          caches := caches[c := caches[c].(freeObjects := caches[c].freeObjects + count)];
          caches := caches[c := caches[c].(partial := [s] + caches[c].partial,
            countPartial := caches[c].countPartial + 1)];
          CreatedSelected(st, mid, carved, S(), c, s, n, us);
        } else {
          s := caches[c].idle[0];
          caches := caches[c := IdleToPartial(caches[c], s)];
          SelectIdle(st, c);
          IdleFrame(st, c);
          CountedLess(st, c, c - 1);
          CountedOthers(st, S(), c, 0);
        }
      } else {
        s := caches[c].partial[0];
        SelectPartial(st, c);
        FrameSame(st, c);
        CountedLess(st, c, c - 1);
      }
      ghost var sel := S();
      ptr := TakeFrom(c, s);
      ServedAll(st, sel, S(), c, s, ptr);
      if st.caches[c].partial == [] && st.caches[c].idle == [] {
        NewServed(st, mid, carved, sel, S(), c, s, n, us, ptr);
      }
    }

    /** The off-slab header set: like the default supplier, for headers. */
    method NewNode() returns (n: nat)
      requires MayTake(held, 1)
      requires Ok(-1)
      modifies this`nodes, this`refusals, this`held
      ensures held == old(held)
      ensures n == 0 ==> S() == old(S()) && refusals == old(refusals) + 1
      ensures n != 0 ==> S() == old(S()).(nodes := old(nodes) + {n}) && refusals == old(refusals)
      ensures n != 0 ==> FreshBlock(old(S()), n, SLAB_STRUCT)
    {
      held := Locked(held, HeaderPoolLock);
      var q: nat :| q == 0 || FreshAddress(pg, pages, nodes, large, q, SLAB_STRUCT);
      if q == 0 {
        refusals := refusals + 1;
      } else {
        nodes := nodes + {q};
      }
      n := q;
      held := Unlocked(held, HeaderPoolLock);
    }

    /** The first half of imemcache_slab_create: a page for cache `c`, and the place of the slab header. */
    method SlabPlace(c: nat, cpu: nat) returns (page: nat, s: nat, coloroff: nat)
      requires MayTake(held, 2 * c + 1)
      requires c < |geo| == |caches| && cpu < LRU_COUNT && Ok(c)
      modifies this
      ensures |caches| == |geo| && caches[c] == old(caches[c]) && refusals >= old(refusals) && pg > 0
      ensures held == old(held) && SameSmaller(geo, old(caches), caches, c)
      ensures s == 0 ==> Spare(S()) == Spare(old(S()))
      ensures s != 0 ==> Plus(Spare(old(S())), Spare(S()), PageOf(geo, c, page), HeaderOf(geo, c, s))
      ensures s == 0 ==> refusals > old(refusals)
      ensures s == 0 ==> Ok(c) && Frame(old(S()), S(), c) && Loans(S()) == Loans(old(S()))
      ensures s != 0 ==> Obtained(old(S()), S(), c, page, s, coloroff)
      decreases c, 1
    {
      hide SpareOf, MayTake, Locked, Unlocked, Inv, CountedUpTo, CountsOk, Frame, FrameBut, Loans, SlabsOk, HomeOk,
           Vacant, FreshBlock, CalcOk, Calculate, LoansWithout, Returnable;
      ghost var st := S();
      s, coloroff := 0, 0;
      page := GfpAlloc(c, cpu);
      RecordAbove(st, S(), c - 1, c);
      if page == 0 {
        FrameWeaken(st, S(), c - 1, c);
        return;
      }
      ghost var paged := S();
      coloroff := caches[c].colorNext;
      if geo[c].offSlab {
        CountedLess(paged, c, -1);
        MayTakeLess(held, 2 * c + 1, 1);
        s := NewNode();
        if s == 0 {
          GiveBack(st, paged, c, page);
          GfpFree(c, page, cpu);
          PlusThenLess(Spare(st), Spare(paged), PageOf(geo, c, page), {});
          GaveBack(st, paged, S(), c, page);
          return;
        }
        FreshNode(paged, s);
        SpareNode(paged, S(), s);
        PlusBoth(Spare(st), Spare(paged), Spare(S()), PageOf(geo, c, page), HeaderOf(geo, c, s));
        NodeTaken(st, paged, S(), c, page, s);
      } else {
        OnPage(st, paged, c, page);
        coloroff := RoundUp(page + coloroff) - page;
        s := page + coloroff;
        coloroff := coloroff + SLAB_STRUCT;
      }
    }

    /** imemcache_slab_create: on success `mid` is the heap with the page (and header) obtained, before carving. */
    method SlabCreate(c: nat, cpu: nat) returns (s: nat, n: nat, ghost mid: State, ghost us: seq<nat>)
      requires MayTake(held, 2 * c + 1)
      requires c < |geo| == |caches| && cpu < LRU_COUNT && Ok(c)
      modifies this
      ensures |caches| == |geo| && refusals >= old(refusals) && pg > 0
      ensures held == old(held) && Spare(S()) == Spare(old(S()))
      ensures SameSmaller(geo, old(caches), caches, c)
      ensures s == 0 ==> caches[c] == old(caches[c]) && refusals > old(refusals)
      ensures s == 0 ==> Ok(c) && Frame(old(S()), S(), c) && Loans(S()) == Loans(old(S()))
      ensures s != 0 ==> Created(old(S()), mid, S(), c, s, n, us)
      decreases c, 2
    {
      hide SpareOf, MayTake, Locked, Unlocked, Inv, CountedUpTo, CountsOk, Frame, FrameBut, Loans, SlabsOk, HomeOk,
           Carved, GotPage, FreshBlock, Chained, NoDup, SameOutside, CalcOk, Created, Calculate, Obtained;
      ghost var st := S();
      var page, coloroff;
      us, n := [], 0;
      page, s, coloroff := SlabPlace(c, cpu);
      mid := S();
      if s == 0 { return; }
      PlaceFacts(st, mid, c, page, s, coloroff);
      var bufctl;
      n, bufctl, us := SlabInit(page, geo[c].pageSize, geo[c].unitSize, coloroff);
      var next := caches[c].colorNext + PTR;
      SetHeader(s, Slab(page, geo[c].pageSize, coloroff, 0, bufctl, c),
                caches[c].(colorNext := if next >= geo[c].colorLimit then 0 else next,
                           pagesNew := caches[c].pagesNew + 1, pagesInuse := caches[c].pagesInuse + 1), us);
      CarvedNow(st, mid, S(), c, s, page, coloroff, n, us);
      SpareCreated(st, mid, S(), c, s, n, us);
      PlusThenLess(Spare(st), Spare(mid), PageOf(geo, c, page), HeaderOf(geo, c, s));
    }

    /** The header of a slab just carved, and the record of its cache. */
    method SetHeader(s: nat, sl: Slab, cache: Cache, ghost us: seq<nat>)
      requires sl.extra < |geo| == |caches| && sl.membase >= PTR
      modifies this`slabs, this`caches, this`home, this`free, this`owner
      ensures S() == AddSlab(old(S()), s, sl, us, word, cache)
    {
      slabs := slabs[s := sl];
      caches := caches[sl.extra := cache];
      home := home + map u | u in us :: s;
      free := free[s := us];
      if geo[sl.extra].gfp.Some? {
        owner := owner[sl.membase - PTR := Page(s)];
      }
    }

    /** imem_gfp_free: the page goes back to where it came from. */
    method GfpFree(c: nat, page: nat, cpu: nat)
      requires MayTake(held, 2 * c + 1)
      requires c < |geo| && cpu < LRU_COUNT && Returnable(S(), c, page) && Ok(c - 1)
      modifies this
      ensures refusals >= old(refusals) && Ok(c - 1) && Frame(old(S()), S(), c - 1)
      ensures SameSmaller(geo, old(caches), caches, c)
      ensures held == old(held) && Spare(S()) == Less(Spare(old(S())), PageOf(geo, c, page), {})
      ensures Loans(S()) == LoansWithout(old(S()), c, page)
      decreases c, 0
    {
      hide SpareOf, MayTake, Locked, Unlocked, Inv, CountedUpTo, Frame, Loans, SlabsOk, HomeOk, Vacant, UnusedPage,
           InCache, Above;
      ghost var st := S();
      match geo[c].gfp {
        case None =>
          pages := pages - {page};
          SpareReturned(st, S(), page);
          ReturnDefault(st, c, page);
          ReleasePage(st, page);
          FrameAbove(st, S(), -1);
          FrameWeaken(st, S(), -1, c - 1);
          CountedNone(S());
          CountedThrough(st, S(), -1, c - 1);
        case Some(g) =>
          PlusNothing(Spare(st));
          SupplierBelow(st, c);
          SupplierLarger(st, c);
          ReturnUnit(st, c, page);
          CountedLess(st, c - 1, g);
          MayTakeLess(held, 2 * c + 1, 2 * g + 3);
          var d := CacheFree(page, g, cpu);
          FrameAbove(st, S(), g);
          CountedThrough(st, S(), g, c - 1);
          FrameWeaken(st, S(), g, c - 1);
      }
    }

    // ---------- release ----------

    /** imemcache_drain_list on the idle queue: up to `tofree` slabs (all of them if negative) are released. */
    method DrainIdle(c: nat, tofree: int, cpu: nat) returns (count: nat)
      requires MayTake(held, 2 * c + 1)
      requires c < |geo| == |caches| && cpu < LRU_COUNT && Ok(c)
      modifies this
      ensures |caches| == |geo| && refusals >= old(refusals) && caches[c].lru == old(caches[c].lru)
      ensures held == old(held) && Spare(S()) == Spare(old(S()))
      ensures SameSmaller(geo, old(caches), caches, c)
      ensures count <= |old(caches[c].idle)| && caches[c].idle == old(caches[c].idle)[..|old(caches[c].idle)| - count]
      ensures count == if 0 <= tofree < |old(caches[c].idle)| then tofree else |old(caches[c].idle)|
      ensures Ok(c) && Frame(old(S()), S(), c) && Loans(S()) == Loans(old(S()))
      decreases c, 2, 1
    {
      hide SpareOf, MayTake, Locked, Unlocked, Inv, CountedUpTo, CountsOk, CountsBehind, Frame, FrameBut, Loans, Above,
           Drained;
      ghost var st := S();
      count := 0;
      StartDrain(st, c);
      while caches[c].idle != [] && !(tofree >= 0 && count >= tofree)
        invariant |caches| == |geo| && pg > 0 && refusals >= old(refusals)
        invariant held == old(held) && Spare(S()) == Spare(old(S()))
        invariant SameSmaller(geo, old(caches), caches, c)
        invariant count <= |st.caches[c].idle| && (tofree >= 0 ==> count <= tofree)
        invariant caches[c].idle == st.caches[c].idle[..|st.caches[c].idle| - count]
        invariant Drained(st, S(), c, count)
        decreases |caches[c].idle|
      {
        ReleaseLast(c, cpu, st, count);
        count := count + 1;
      }
      ghost var behind := S();
      caches := caches[c := caches[c].(countFree := caches[c].countFree - count)];
      EndDrain(st, behind, S(), c, count);
    }

    /** One turn of the drain loop: the slab at the tail of the idle queue is emptied and released. */
    method ReleaseLast(c: nat, cpu: nat, ghost st: State, ghost count: nat)
      requires MayTake(held, 2 * c + 1)
      requires c < |geo| == |caches| && cpu < LRU_COUNT && pg > 0 && caches[c].idle != []
      requires Drained(st, S(), c, count)
      modifies this
      ensures |caches| == |geo| && refusals >= old(refusals)
      ensures held == old(held) && Spare(S()) == Spare(old(S()))
      ensures SameSmaller(geo, old(caches), caches, c)
      ensures caches[c].idle == old(caches[c].idle)[..|old(caches[c].idle)| - 1]
      ensures Drained(st, S(), c, count + 1)
      decreases c, 2, 0
    {
      hide SpareOf, MayTake, Locked, Unlocked, Inv, CountedUpTo, CountsOk, CountsBehind, Frame, FrameBut, Loans, Above,
           Drained, LoansWithout, SlabsSame, Returnable;
      ghost var was := S();
      var s, page := UnlinkLast(c, st, count);
      ghost var off := S();
      SlabDelete(c, s, page, cpu);
      PlusThenLess(Spare(was), Spare(off), PageOf(geo, c, page), HeaderOf(geo, c, s));
      SlabGone(st, was, off, S(), c, count, s, page);
    }

    /** The slab at the tail of the idle queue leaves the queue and is emptied. */
    method UnlinkLast(c: nat, ghost st: State, ghost count: nat) returns (s: nat, page: nat)
      requires c < |geo| == |caches| && pg > 0 && caches[c].idle != []
      requires Drained(st, S(), c, count)
      modifies this
      ensures |caches| == |geo| && refusals == old(refusals)
      ensures caches[c].idle == old(caches[c].idle)[..|old(caches[c].idle)| - 1]
      ensures s in old(slabs) && page == old(slabs)[s].membase
      ensures SameSmaller(geo, old(caches), caches, c)
      ensures held == old(held) && Plus(Spare(old(S())), Spare(S()), PageOf(geo, c, page), HeaderOf(geo, c, s))
      ensures OffQueue(old(S()), S(), c, count, s)
    {
      hide SpareOf, MayTake, Locked, Unlocked, Inv, CountedUpTo, CountsOk, CountsBehind, Frame, FrameBut, Loans, Above,
           Drained, Returnable, OffQueue, IdleReleased;
      ghost var was := S();
      s := caches[c].idle[|caches[c].idle| - 1];
      LastIdle(st, was, c, count, s);
      var sl := EmptySlab(c, s);
      page := sl.membase;
      ForgetIdle(c, s, sl);
      SpareGone(was, S(), s);
      SlabOff(st, was, S(), c, count, s);
    }

    /** The emptied slab is taken off the books of its cache; its header is no longer in use. */
    method ForgetIdle(c: nat, s: nat, sl: Slab)
      requires c < |geo| == |caches| && s in slabs && s in free && slabs[s].extra == c && slabs[s].membase >= PTR
      requires sl.inuse == |free[s]| && sl.membase == slabs[s].membase
      modifies this`caches, this`slabs, this`home, this`free, this`owner
      ensures S() == ReleaseIdle(old(S()), c, s)
    {
      hide IdleReleased;
      caches := caches[c := IdleReleased(caches[c], s, sl.inuse)];
      slabs := slabs - {s};
      home := map u | u in home && home[u] != s :: home[u];
      free := free - {s};
      if geo[c].gfp.Some? {
        owner := owner[sl.membase - PTR := Client];
      }
    }

    /** `while (!IMEMSLAB_ISFULL(slab)) imslab_alloc(slab)`, on the header of a slab just taken off its queue. */
    method EmptySlab(c: nat, s: nat) returns (sl: Slab)
      requires s in slabs && s in free && Inv(S(), 0) && slabs[s].inuse == 0
      ensures sl.inuse == |free[s]| && sl.membase == slabs[s].membase && sl.bufctl == 0
    {
      hide SpareOf, MayTake, Locked, Unlocked, Inv, SlabsOk, HomeOk, FreeOk;
      ghost var st := S();
      Parts(st, 0);
      ghost var f := free[s];
      sl := slabs[s];
      ChainAt(st, s, 0);
      while sl.bufctl != 0
        invariant sl.inuse <= |f| && sl.bufctl == LinkAt(f, sl.inuse - 1) && sl.membase == slabs[s].membase
        decreases |f| - sl.inuse
      {
        ChainAt(st, s, sl.inuse);
        sl := sl.(bufctl := word[sl.bufctl], inuse := sl.inuse + 1);
      }
      ChainAt(st, s, sl.inuse);
    }

    /** imemcache_slab_delete for a slab whose header is no longer in use. */
    method SlabDelete(c: nat, s: nat, page: nat, cpu: nat)
      requires MayTake(held, 2 * c + 1)
      requires c < |geo| == |caches| && cpu < LRU_COUNT && Returnable(S(), c, page) && Ok(c - 1)
      requires s !in slabs && (geo[c].offSlab ==> s in nodes)
      modifies this
      ensures |caches| == |geo| && refusals >= old(refusals)
      ensures SameSmaller(geo, old(caches), caches, c)
      ensures held == old(held) && Spare(S()) == Less(Spare(old(S())), PageOf(geo, c, page), HeaderOf(geo, c, s))
      ensures caches[c] == old(caches[c]).(pagesDel := old(caches[c]).pagesDel + 1,
                                           pagesInuse := old(caches[c]).pagesInuse - 1)
      ensures Ok(c - 1) && FrameBut(old(S()), S(), c, {s}) && Above(old(S()), S(), c)
      ensures SlabsSame(old(S()), S(), c) && Loans(S()) == LoansWithout(old(S()), c, page)
      decreases c, 1
    {
      hide SpareOf, MayTake, Locked, Unlocked, Inv, CountedUpTo, CountsOk, Frame, FrameBut, Loans, LoansWithout, Above,
           Returnable, SlabsSame;
      ghost var st := S();
      GfpFree(c, page, cpu);
      ghost var given := S();
      RecordAbove(st, given, c - 1, c);
      caches := caches[c := caches[c].(pagesDel := caches[c].pagesDel + 1, pagesInuse := caches[c].pagesInuse - 1)];
      ghost var booked := S();
      Booked(st, given, booked, c);
      if geo[c].offSlab {
        NodeStays(st, given, c - 1, s);
        nodes := nodes - {s};
        SpareNodeReturned(booked, S(), s);
      }
      Deleted(st, given, booked, S(), c, s, page);
    }

    /** imemcache_list_free up to the drain: imslab_free and the moves between queues. */
    method PutBack(ptr: nat, ghost c: nat) returns (d: nat)
      requires c < |geo| == |caches| && pg > 0 && InHand(S(), ptr, c) && CountsOk(caches[c], free) && Inv(S(), 0)
      modifies this
      ensures d == c && |caches| == |geo| && refusals == old(refusals)
      ensures held == old(held) && Spare(S()) == Spare(old(S()))
      ensures SameSmaller(geo, old(caches), caches, c)
      ensures Put(old(S()), S(), c, ptr)
    {
      hide SpareOf, MayTake, Locked, Unlocked, Inv, CountsOk, InHand;
      ghost var st := S();
      HandFacts(st, ptr, c);
      var u := ptr - PTR;
      var s := word[u];
      d := slabs[s].extra;
      var sl, cache := slabs[s], caches[d];
      if sl.bufctl == 0 {
        cache := FullToPartial(cache, s);
      }
      word := word[u := sl.bufctl];
      sl := sl.(bufctl := u, inuse := sl.inuse - 1);
      slabs := slabs[s := sl];
      caches := caches[d := FreedRecord(cache, sl, s)];
      free := free[s := [u] + free[s]];
      owner := owner - {u};
      SpareMoved(st, S(), s);
    }

    /** imemcache_list_free. */
    method ListFree(ptr: nat, ghost c: nat, cpu: nat)
      requires MayTake(held, 2 * c + 1) && ListLock(c) in held
      requires c < |geo| == |caches| && cpu < LRU_COUNT && InHand(S(), ptr, c) && Ok(c)
      modifies this
      ensures |caches| == |geo| && refusals >= old(refusals) && caches[c].lru == old(caches[c].lru)
      ensures held == old(held) && Spare(S()) == Spare(old(S()))
      ensures SameSmaller(geo, old(caches), caches, c)
      ensures caches[c].idle == AfterDrain(PutRecord(old(S()), c, ptr), geo[c].freeLimit)
      ensures Ok(c) && Frame(old(S()), S(), c)
      ensures ptr >= PTR && Loans(S()) == Loans(old(S())) - {ptr - PTR}
      decreases c, 3
    {
      hide PutRecord, SpareOf, MayTake, Locked, Unlocked, Inv, CountedUpTo, CountsOk, Frame, FrameBut, Loans, Above,
           InHand, Put;
      ghost var st := S();
      CountedAt(st, c);
      var d := PutBack(ptr, c);
      ghost var put := S();
      PutAll(st, put, c, ptr);
      PutIs(st, put, c, ptr);
      IdleCount(put, c);
      if caches[d].freeObjects >= geo[d].freeLimit {
        var tofree := caches[d].countFree / 2;
        if tofree > 0 {
          var n := DrainIdle(d, tofree, cpu);
          FrameChain(st, put, S(), c);
        }
      }
    }

    // ---------- the magazines ----------

    /** imemcache_fill_batch */
    method FillBatch(c: nat, k: nat)
      requires MayTake(held, 2 * c + 2) && ArrayLock(c, k) in held
      requires c < |geo| == |caches| && k < LRU_COUNT && Ok(c)
      requires |caches[c].lru| == LRU_COUNT
      modifies this
      ensures |caches| == |geo| && refusals >= old(refusals)
      ensures held == old(held) && Spare(S()) == Spare(old(S()))
      ensures SameSmaller(geo, old(caches), caches, c)
      ensures |caches[c].lru| == LRU_COUNT && (|caches[c].lru[k]| < geo[c].lruBatch ==> refusals > old(refusals))
      ensures old(caches[c].lru[k]) <= caches[c].lru[k] && caches[c].lru == old(caches[c].lru)[k := caches[c].lru[k]]
      ensures Ok(c) && Frame(old(S()), S(), c) && Loans(S()) == Loans(old(S()))
      decreases c, 4
    {
      hide SpareOf, MayTake, Locked, Unlocked, Inv, CountedUpTo, CountsOk, Frame, FrameBut, Loans, Above, GotUnit,
           CalcOk;
      ghost var st := S();
      FrameSame(st, c);
      BatchPositive(st, c);
      held := Locked(held, ListLock(c));
      while |caches[c].lru[k]| < geo[c].lruBatch
        invariant |caches| == |geo| && refusals >= old(refusals) && |caches[c].lru| == LRU_COUNT
        invariant held == Locked(old(held), ListLock(c)) && Spare(S()) == Spare(old(S()))
        invariant SameSmaller(geo, old(caches), caches, c)
        invariant old(caches[c].lru[k]) <= caches[c].lru[k]
                  && caches[c].lru == old(caches[c].lru)[k := caches[c].lru[k]]
        invariant Ok(c) && Frame(st, S(), c) && Loans(S()) == Loans(st)
        decreases geo[c].lruBatch - |caches[c].lru[k]|
      {
        ghost var was := S();
        var ptr := ListAlloc(c, k);
        ghost var got := S();
        FrameGot(st, was, got, c, ptr);
        if ptr == 0 { break; }
        GotOne(was, got, c, k, ptr);
        caches := caches[c := caches[c].(lru := caches[c].lru[k := caches[c].lru[k] + [ptr]])];
        owner := owner[ptr - PTR := Magazine(c, k)];
        Loaded(got, S(), c, k, ptr);
        FrameChain(st, got, S(), c);
      }
      held := Unlocked(held, ListLock(c));
    }

    /** imemcache_alloc */
    method CacheAlloc(c: nat, cpu: nat) returns (ptr: nat)
      requires MayTake(held, 2 * c + 3)
      requires c < |geo| == |caches| && cpu < LRU_COUNT && Ok(c)
      modifies this
      ensures |caches| == |geo| && refusals >= old(refusals)
      ensures held == old(held) && Spare(S()) == Spare(old(S()))
      ensures SameSmaller(geo, old(caches), caches, c)
      ensures ptr == 0 ==> Loans(S()) == Loans(old(S())) && refusals > old(refusals)
      ensures ptr != 0 ==> GotUnit(old(S()), S(), c, ptr, Client)
      ensures TookTop(old(S()), S(), c, cpu, ptr)
      ensures Ok(c) && Frame(old(S()), S(), c)
      decreases c, 5
    {
      hide SpareOf, MayTake, Locked, Unlocked, Inv, CountedUpTo, Frame, Loans, TookTop, GotUnit;
      held := Locked(held, ArrayLock(c, cpu));
      ptr := AllocLocked(c, cpu);
      held := Unlocked(held, ArrayLock(c, cpu));
    }

    /** What imemcache_alloc does while it holds the lock of the magazine. */
    method AllocLocked(c: nat, cpu: nat) returns (ptr: nat)
      requires MayTake(held, 2 * c + 2) && ArrayLock(c, cpu) in held
      requires c < |geo| == |caches| && cpu < LRU_COUNT && Ok(c)
      modifies this
      ensures |caches| == |geo| && refusals >= old(refusals)
      ensures held == old(held) && Spare(S()) == Spare(old(S()))
      ensures SameSmaller(geo, old(caches), caches, c)
      ensures ptr == 0 ==> Loans(S()) == Loans(old(S())) && refusals > old(refusals)
      ensures ptr != 0 ==> GotUnit(old(S()), S(), c, ptr, Client)
      ensures TookTop(old(S()), S(), c, cpu, ptr)
      ensures Ok(c) && Frame(old(S()), S(), c)
      decreases c, 5, 0
    {
      hide SpareOf, Inv, CountedUpTo, CountsOk, Frame, FrameBut, Loans, Above, TookTop, GotUnit;
      ghost var st := S();
      LruCount(st, c);
      FrameSame(st, c);
      BatchPositive(st, c);
      ptr := 0;
      if caches[c].lru[cpu] == [] {
        NothingToTake(st, c, cpu);
        FillBatch(c, cpu);
      }
      ghost var filled := S();
      if caches[c].lru[cpu] != [] {
        ptr := TakeTop(c, cpu);
        GotThrough(st, filled, S(), c, ptr);
      }
    }

    /** The entry at the top of a magazine is the client's now. */
    method TakeTop(c: nat, cpu: nat) returns (ptr: nat)
      requires c < |geo| == |caches| && cpu < LRU_COUNT && |caches[c].lru| == LRU_COUNT && caches[c].lru[cpu] != []
      requires ArrayLock(c, cpu) in held && Ok(c)
      modifies this`caches, this`word, this`owner
      ensures |caches| == |geo| && Spare(S()) == Spare(old(S())) && SameSmaller(geo, old(caches), caches, c)
      ensures ptr != 0 && GotUnit(old(S()), S(), c, ptr, Client) && TookTop(old(S()), S(), c, cpu, ptr)
      ensures Ok(c) && Frame(old(S()), S(), c)
    {
      hide SpareOf, Inv, CountedUpTo, CountsOk, Frame, FrameBut, Loans, Above;
      ghost var st := S();
      TopEntry(st, c, cpu);
      var q := caches[c].lru[cpu];
      ptr := q[|q| - 1];
      caches := caches[c := caches[c].(lru := caches[c].lru[cpu := q[..|q| - 1]])];
      word := word[ptr - PTR := OrMagic(word[ptr - PTR])];
      owner := owner[ptr - PTR := Client];
      Delivered(st, S(), c, cpu, ptr);
    }

    /** The loops of imemcache_free and imemcache_shrink that send the top entries of a magazine back to their slabs. */
    method Flush(c: nat, k: nat, keep: nat, cpu: nat)
      requires MayTake(held, 2 * c + 1) && ListLock(c) in held
      requires c < |geo| == |caches| && k < LRU_COUNT && cpu < LRU_COUNT && |caches[c].lru| == LRU_COUNT && Ok(c)
      modifies this
      ensures |caches| == |geo| && refusals >= old(refusals) && |caches[c].lru| == LRU_COUNT
      ensures held == old(held) && Spare(S()) == Spare(old(S()))
      ensures SameSmaller(geo, old(caches), caches, c)
      ensures var q := old(caches[c].lru[k]);
              caches[c].lru == old(caches[c].lru)[k := if |q| > keep then q[..keep] else q]
      ensures Ok(c) && Frame(old(S()), S(), c) && Loans(S()) == Loans(old(S()))
      decreases c, 4, 0
    {
      hide SpareOf, MayTake, Locked, Unlocked, Inv, CountedUpTo, CountsOk, Frame, FrameBut, Loans, Above, InHand,
           Entry;
      ghost var st := S();
      FrameSame(st, c);
      ghost var q := caches[c].lru[k];
      assert q[..|q|] == q && caches[c].lru == caches[c].lru[k := q];
      while |caches[c].lru[k]| > keep
        invariant |caches| == |geo| && refusals >= old(refusals) && |caches[c].lru| == LRU_COUNT
        invariant held == old(held) && Spare(S()) == Spare(old(S()))
        invariant SameSmaller(geo, old(caches), caches, c)
        invariant |caches[c].lru[k]| <= |q| && (|caches[c].lru[k]| >= keep || |caches[c].lru[k]| == |q|)
        invariant caches[c].lru == st.caches[c].lru[k := q[..|caches[c].lru[k]|]]
        invariant Ok(c) && Frame(st, S(), c) && Loans(S()) == Loans(st)
        decreases |caches[c].lru[k]|
      {
        ghost var was := S();
        TopEntry(was, c, k);
        var top := |caches[c].lru[k]| - 1;
        var e := caches[c].lru[k][top];
        assert q[..top + 1][..top] == q[..top];
        caches := caches[c := caches[c].(lru := caches[c].lru[k := caches[c].lru[k][..top]])];
        owner := owner[e - PTR := Hand];
        ghost var taken := S();
        Taken(was, taken, c, k, e);
        ListFree(e, c, cpu);
        Flushed(st, was, taken, S(), c, e);
      }
    }

    /** imemcache_free; the slab header named by the unit's first word tells the cache. */
    method CacheFree(ptr: nat, ghost c: nat, cpu: nat) returns (d: nat)
      requires MayTake(held, 2 * c + 3)
      requires c < |geo| == |caches| && cpu < LRU_COUNT && Lent(S(), ptr, c) && Ok(c)
      modifies this
      ensures d == c && |caches| == |geo| && refusals >= old(refusals)
      ensures held == old(held) && Spare(S()) == Spare(old(S()))
      ensures SameSmaller(geo, old(caches), caches, c)
      ensures ptr >= PTR && Loans(S()) == Loans(old(S())) - {ptr - PTR}
      ensures PutTop(old(S()), S(), c, cpu, ptr)
      ensures Ok(c) && Frame(old(S()), S(), c)
      decreases c, 5
    {
      hide SpareOf, MayTake, Locked, Unlocked, Inv, CountedUpTo, CountsOk, Frame, FrameBut, Loans, Above, InHand, Lent;
      ghost var st := S();
      LentFacts(st, ptr, c);
      var u := ptr - PTR;
      assert HasMagic(word[u]);
      word := word[u := ClearLow(word[u])];
      owner := owner[u := Hand];
      var s := word[u];
      d := slabs[s].extra;
      ghost var bare := S();
      Collected(st, bare, c, ptr);
      LruCount(bare, c);
      held := Locked(held, ArrayLock(d, cpu));
      if |caches[d].lru[cpu]| >= geo[d].lruLimit {
        Spill(ptr, d, cpu);
        SpilledFrame(st, bare, S(), c, ptr);
      } else {
        HandLoad(bare, c, cpu, ptr);
        caches := caches[d := caches[d].(lru := caches[d].lru[cpu := caches[d].lru[cpu] + [ptr]])];
        owner := owner[u := Magazine(d, cpu)];
        Loaded(bare, S(), c, cpu, ptr);
        FrameChain(st, bare, S(), c);
      }
      held := Unlocked(held, ArrayLock(d, cpu));
    }

    /** The full-magazine branch of imemcache_free. */
    method Spill(ptr: nat, c: nat, cpu: nat)
      requires MayTake(held, 2 * c + 2) && ArrayLock(c, cpu) in held
      requires c < |geo| == |caches| && cpu < LRU_COUNT && |caches[c].lru| == LRU_COUNT
      requires InHand(S(), ptr, c) && Ok(c)
      modifies this
      ensures |caches| == |geo| && refusals >= old(refusals)
      ensures held == old(held) && Spare(S()) == Spare(old(S()))
      ensures SameSmaller(geo, old(caches), caches, c)
      ensures ptr >= PTR && Loans(S()) == Loans(old(S())) - {ptr - PTR}
      ensures var q := old(caches[c].lru[cpu]);
              caches[c].lru == old(caches[c].lru)[cpu := if |q| > geo[c].lruBatch then q[..geo[c].lruBatch] else q]
      ensures Ok(c) && Frame(old(S()), S(), c)
      decreases c, 4, 2
    {
      hide SameSmaller, SpareOf, MayTake, Inv, CountedUpTo, CountsOk, Frame, FrameBut, Loans, Above, InHand;
      ghost var st := S();
      SpillUnits(ptr, c, cpu);
      ghost var freed := S();
      DrainSpilled(c, cpu);
      FrameChain(st, freed, S(), c);
      SmallerThrough(geo, st.caches, freed.caches, caches, c);
    }

    /** Under the lock of the list: the entries beyond the batch and the unit itself go back to their slabs. */
    method SpillUnits(ptr: nat, c: nat, cpu: nat)
      requires MayTake(held, 2 * c + 2) && ArrayLock(c, cpu) in held
      requires c < |geo| == |caches| && cpu < LRU_COUNT && |caches[c].lru| == LRU_COUNT
      requires InHand(S(), ptr, c) && Ok(c)
      modifies this
      ensures |caches| == |geo| && refusals >= old(refusals)
      ensures held == old(held) && Spare(S()) == Spare(old(S()))
      ensures SameSmaller(geo, old(caches), caches, c)
      ensures ptr >= PTR && Loans(S()) == Loans(old(S())) - {ptr - PTR}
      ensures var q := old(caches[c].lru[cpu]);
              caches[c].lru == old(caches[c].lru)[cpu := if |q| > geo[c].lruBatch then q[..geo[c].lruBatch] else q]
      ensures Ok(c) && Frame(old(S()), S(), c)
      decreases c, 4, 1
    {
      hide SameSmaller, SpareOf, MayTake, Locked, Unlocked, Inv, CountedUpTo, CountsOk, Frame, FrameBut, Loans, Above,
           InHand, PutRecord;
      ghost var st := S();
      held := Locked(held, ListLock(c));
      Flush(c, cpu, geo[c].lruBatch, cpu);
      ghost var flushed := S();
      StillInHand(st, flushed, ptr, c);
      ListFree(ptr, c, cpu);
      held := Unlocked(held, ListLock(c));
      FrameChain(st, flushed, S(), c);
      SmallerThrough(geo, st.caches, flushed.caches, caches, c);
    }

    /** The drain at the end of that branch. */
    method DrainSpilled(c: nat, cpu: nat)
      requires c < |geo| == |caches| && cpu < LRU_COUNT && MayTake(held, 2 * c + 2) && Ok(c)
      modifies this
      ensures |caches| == |geo| && refusals >= old(refusals) && caches[c].lru == old(caches[c].lru)
      ensures held == old(held) && Spare(S()) == Spare(old(S()))
      ensures SameSmaller(geo, old(caches), caches, c)
      ensures caches[c].idle == AfterDrain(old(caches[c]), geo[c].freeLimit)
      ensures Ok(c) && Frame(old(S()), S(), c) && Loans(S()) == Loans(old(S()))
      decreases c, 4, 0
    {
      hide SpareOf, MayTake, Locked, Unlocked, Inv, CountedUpTo, CountsOk, Frame, FrameBut, Loans, Above;
      FrameSame(S(), c);
      IdleCount(S(), c);
      if caches[c].freeObjects >= geo[c].freeLimit {
        if caches[c].countFree > 1 {
          held := Locked(held, ListLock(c));
          var n := DrainIdle(c, caches[c].countFree / 2, cpu);
          held := Unlocked(held, ListLock(c));
        }
      }
    }

    /** imemcache_shrink */
    method CacheShrink(c: nat, cpu: nat)
      requires MayTake(held, 2 * c + 3)
      requires c < |geo| == |caches| && cpu < LRU_COUNT && Ok(c)
      modifies this
      ensures |caches| == |geo| && refusals >= old(refusals)
      ensures held == old(held) && Spare(S()) == Spare(old(S()))
      ensures SameSmaller(geo, old(caches), caches, c)
      ensures caches[c].idle == [] && |caches[c].lru| == LRU_COUNT && caches[c].lru[0] == []
      ensures Ok(c) && Frame(old(S()), S(), c) && Loans(S()) == Loans(old(S()))
    {
      hide SameSmaller, SpareOf, MayTake, Locked, Unlocked, Inv, CountedUpTo, CountsOk, Frame, FrameBut, Loans, Above;
      LruCount(S(), c);
      held := Locked(held, ArrayLock(c, 0));
      held := Locked(held, ListLock(c));
      ShrinkLocked(c, cpu);
      held := Unlocked(held, ListLock(c));
      held := Unlocked(held, ArrayLock(c, 0));
    }

    /** What imemcache_shrink does while it holds both locks. */
    method ShrinkLocked(c: nat, cpu: nat)
      requires MayTake(held, 2 * c + 1) && ListLock(c) in held
      requires c < |geo| == |caches| && cpu < LRU_COUNT && |caches[c].lru| == LRU_COUNT && Ok(c)
      modifies this
      ensures |caches| == |geo| && refusals >= old(refusals)
      ensures held == old(held) && Spare(S()) == Spare(old(S()))
      ensures SameSmaller(geo, old(caches), caches, c)
      ensures caches[c].idle == [] && |caches[c].lru| == LRU_COUNT && caches[c].lru[0] == []
      ensures Ok(c) && Frame(old(S()), S(), c) && Loans(S()) == Loans(old(S()))
    {
      hide SameSmaller, SpareOf, MayTake, Inv, CountedUpTo, CountsOk, Frame, FrameBut, Loans, Above;
      ghost var st := S();
      Flush(c, 0, 0, cpu);
      ghost var flushed := S();
      var n := DrainIdle(c, -1, cpu);
      FrameChain(st, flushed, S(), c);
      SmallerThrough(geo, st.caches, flushed.caches, caches, c);
    }
  }
}
