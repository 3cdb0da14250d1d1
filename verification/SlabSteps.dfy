/** Turning a page into a slab, giving it back, and moving slabs between the queues of a cache. */
module SlabSteps {
  import opened Layout
  import opened KmemState
  import opened Forest

  // ---------- moving between queues ----------

  /** In `cache'`, slab `s` is on queue `k` only; the other slabs are where they are in `cache`. */
  ghost predicate Rehung(cache: Cache, cache': Cache, s: nat, k: Class) {
    && NoDup(cache'.partial) && NoDup(cache'.full) && NoDup(cache'.idle)
    && (forall x :: x in cache'.partial <==> if x == s then k.IsPartial? else x in cache.partial)
    && (forall x :: x in cache'.full <==> if x == s then k.IsFull? else x in cache.full)
    && (forall x :: x in cache'.idle <==> if x == s then k.IsIdle? else x in cache.idle)
  }

  lemma RehungQueue(cache: Cache, cache': Cache, s: nat, k: Class, j: Class)
    requires Rehung(cache, cache', s, k)
    ensures NoDup(Queue(cache', j))
    ensures forall x :: x in Queue(cache', j) <==> if x == s then k == j else x in Queue(cache, j)
  {
  }

  lemma QueuesMoved(cs: seq<Cache>, slabs: map<nat, Slab>, m: nat, m': nat, s: nat, cache': Cache)
    requires QueuesOk(cs, slabs, m) && s in slabs && 0 !in slabs
    requires m in {0, s} && m' in {0, s}
    requires slabs[s].extra < |cs| && Rehung(cs[slabs[s].extra], cache', s, Place(slabs, m', s))
    ensures QueuesOk(cs[slabs[s].extra := cache'], slabs, m')
  {
    hide Rehung, Queue;
    var c := slabs[s].extra;
    var cs' := cs[c := cache'];
    forall d, j | 0 <= d < |cs'| ensures QueueOk(cs', slabs, m', d, j) {
      assert QueueOk(cs, slabs, m, d, j);
      if d == c {
        RehungQueue(cs[c], cache', s, Place(slabs, m', s), j);
        QueueRehung(cs, slabs, m, m', s, cache', j);
      } else {
        QueueElsewhere(cs, slabs, m, m', s, cache', d, j);
      }
    }
    hide QueueOk;
    forall t | t in slabs ensures t in Queue(cs'[slabs[t].extra], Place(slabs, m', t)) {
      RehungQueue(cs[c], cache', s, Place(slabs, m', s), Place(slabs, m', t));
    }
  }

  lemma QueueRehung(cs: seq<Cache>, slabs: map<nat, Slab>, m: nat, m': nat, s: nat, cache': Cache, j: Class)
    requires s in slabs && slabs[s].extra < |cs| && m in {0, s} && m' in {0, s} && 0 !in slabs
    requires QueueOk(cs, slabs, m, slabs[s].extra, j) && NoDup(Queue(cache', j))
    requires forall x :: x in Queue(cache', j) <==>
             if x == s then Place(slabs, m', s) == j else x in Queue(cs[slabs[s].extra], j)
    ensures QueueOk(cs[slabs[s].extra := cache'], slabs, m', slabs[s].extra, j)
  {
    hide Queue, NoDup;
  }

  lemma QueueElsewhere(cs: seq<Cache>, slabs: map<nat, Slab>, m: nat, m': nat, s: nat, cache': Cache, d: nat, j: Class)
    requires s in slabs && slabs[s].extra < |cs| && d < |cs| && d != slabs[s].extra && m in {0, s} && m' in {0, s}
             && 0 !in slabs
    requires QueueOk(cs, slabs, m, d, j)
    ensures QueueOk(cs[slabs[s].extra := cache'], slabs, m', d, j)
  {
    hide Queue, NoDup;
  }

  // ---------- a page that nothing lives in ----------

  /** `p` is a page just obtained for cache `c`: nobody has carved it, and nobody else holds it. */
  ghost predicate Vacant(st: State, c: nat, p: nat)
    requires SlabsOk(st) && HomeOk(st) && c < |st.geo|
  {
    match st.geo[c].gfp
    case None =>
      p in st.pages && forall s :: s in st.slabs && st.geo[st.slabs[s].extra].gfp.None? ==> st.slabs[s].membase != p
    case Some(g) =>
      p >= PTR && p - PTR in st.home && p - PTR in st.owner && st.owner[p - PTR].Client?
      && st.slabs[st.home[p - PTR]].extra == g
  }

  lemma VacantUnits(st: State, c: nat, p: nat, w: nat)
    requires Shape(st) && c < |st.geo| && Vacant(st, c, p) && w in st.home
    ensures w + PTR <= p || p + st.geo[c].pageSize <= w
  {
    assert LinkOk(st.pg, st.geo, c);
    var h := st.home[w];
    assert UnitIn(st.geo, st.slabs[h], w);
    assert LinkOk(st.pg, st.geo, st.slabs[h].extra);
    if st.geo[c].gfp.None? {
      var top := RootPage(st, h);
      assert PageOk(st, top);
    } else if w != p - PTR {
      assert LinkOk(st.pg, st.geo, st.geo[c].gfp.value);
      NothingInside(st, p - PTR, w);
    }
  }

  lemma VacantHeaders(st: State, c: nat, p: nat, s: nat)
    requires Shape(st) && BlocksOk(st) && NodesOk(st) && c < |st.geo| && Vacant(st, c, p) && s in st.slabs
    ensures Apart(s, SLAB_STRUCT, p, st.geo[c].pageSize)
  {
    assert LinkOk(st.pg, st.geo, c);
    if st.geo[c].gfp.Some? {
      assert LinkOk(st.pg, st.geo, st.geo[c].gfp.value);
      HeaderOutsideUnit(st, s, p - PTR);
    } else if !OffSlab(st, s) {
      RootHeader(st, c, p, s);
    }
  }

  lemma RootHeader(st: State, c: nat, p: nat, s: nat)
    requires Shape(st) && c < |st.geo| && Vacant(st, c, p) && st.geo[c].gfp.None?
    requires s in st.slabs && !OffSlab(st, s)
    ensures Apart(s, SLAB_STRUCT, p, st.pg)
  {
    hide Spaced, HomeOk, LinkOk;
    assert SlabOk(st.geo, s, st.slabs[s]);
    var top := RootPage(st, s);
    assert PageOk(st, top);
  }

  lemma VacantNodes(st: State, c: nat, p: nat, n: nat)
    requires Shape(st) && BlocksOk(st) && c < |st.geo| && Vacant(st, c, p) && n in st.nodes
    ensures Apart(n, SLAB_STRUCT, p, st.geo[c].pageSize)
  {
    assert LinkOk(st.pg, st.geo, c);
    if st.geo[c].gfp.Some? {
      var u := p - PTR;
      assert UnitIn(st.geo, st.slabs[st.home[u]], u);
      assert LinkOk(st.pg, st.geo, st.geo[c].gfp.value);
      NodeOutsidePages(st, n, st.home[u]);
    }
  }

  // ---------- carving a page ----------

  /** What imemcache_slab_create leaves behind: header `s` filled in as `sl`, units `us` chained. */
  ghost predicate Carved(st: State, c: nat, s: nat, sl: Slab, us: seq<nat>, word': map<nat, nat>)
    requires SlabsOk(st) && HomeOk(st)
  {
    && c < |st.geo| && c < |st.caches| && Vacant(st, c, sl.membase)
    && sl.extra == c && sl.inuse == 0 && SlabOk(st.geo, s, sl)
    && (st.geo[c].offSlab ==> s in st.nodes && s !in st.slabs)
    && Whole(st.geo[c], |us|) && us != [] && sl.bufctl == us[0] && NoDup(us)
    && (forall u :: u in us ==> UnitIn(st.geo, sl, u))
    && (forall u, v :: u in us && v in us && u < v ==> u + st.geo[c].unitSize <= v)
    && Chained(us, word')
    && (forall a :: a !in us ==> (a in word' <==> a in st.word) && (a in st.word ==> word'[a] == st.word[a]))
  }

  ghost function AddSlab(st: State, s: nat, sl: Slab, us: seq<nat>, word': map<nat, nat>, cache': Cache): State
    requires sl.extra < |st.geo| && sl.extra < |st.caches| && sl.membase >= PTR
  {
    st.(slabs := st.slabs[s := sl],
        home := st.home + map u | u in us :: s,
        free := st.free[s := us],
        word := word',
        owner := if st.geo[sl.extra].gfp.Some? then st.owner[sl.membase - PTR := Page(s)] else st.owner,
        caches := st.caches[sl.extra := cache'])
  }

  /** Neither the new header nor a new unit collides with anything there was. */
  ghost predicate Fresh(st: State, s: nat, sl: Slab, us: seq<nat>) {
    && s > 0 && s !in st.slabs && 0 !in st.slabs && sl.membase >= PTR
    && (forall u :: u in us ==> u !in st.home && sl.membase <= u)
  }

  lemma CarvedFresh(st: State, c: nat, s: nat, sl: Slab, us: seq<nat>, word': map<nat, nat>)
    requires Shape(st) && BlocksOk(st) && NodesOk(st) && Carved(st, c, s, sl, us, word')
    ensures Fresh(st, s, sl, us)
  {
    hide Chained, NoDup;
    forall u | u in us ensures u !in st.home && sl.membase <= u {
      assert UnitIn(st.geo, sl, u);
      assert LinkOk(st.pg, st.geo, c);
      if u in st.home { VacantUnits(st, c, sl.membase, u); }
    }
    if s in st.slabs && !st.geo[c].offSlab {
      VacantHeaders(st, c, sl.membase, s);
    }
  }

  ghost predicate Adding(st: State, c: nat, s: nat, sl: Slab, us: seq<nat>, word': map<nat, nat>)
  {
    SlabsOk(st) && HomeOk(st) && Carved(st, c, s, sl, us, word') && Fresh(st, s, sl, us)
  }

  lemma AddHome(st: State, c: nat, s: nat, sl: Slab, us: seq<nat>, word': map<nat, nat>, cache': Cache)
    requires Adding(st, c, s, sl, us, word')
    ensures var st' := AddSlab(st, s, sl, us, word', cache'); SlabsOk(st') && HomeOk(st')
  {
    hide SlabOk, UnitIn, Chained, NoDup, Vacant;
  }

  lemma AddSpaced(st: State, c: nat, s: nat, sl: Slab, us: seq<nat>, word': map<nat, nat>, cache': Cache)
    requires Adding(st, c, s, sl, us, word') && Spaced(st)
    requires var st' := AddSlab(st, s, sl, us, word', cache'); SlabsOk(st') && HomeOk(st')
    ensures Spaced(AddSlab(st, s, sl, us, word', cache'))
  {
    hide UnitIn, Chained, NoDup, Vacant;
    var st' := AddSlab(st, s, sl, us, word', cache');
    forall u, v | u in st'.home && v in st'.home && st'.home[u] == st'.home[v] && u < v
      ensures u + UnitOf(st'.geo, st'.slabs[st'.home[u]]) <= v
    {
      if u in us { assert v in us; } else { assert v !in us; }
    }
  }

  lemma AddPage(st: State, c: nat, s: nat, sl: Slab, us: seq<nat>, word': map<nat, nat>, cache': Cache, t: nat)
    requires Adding(st, c, s, sl, us, word') && (t == s || (t in st.slabs && PageOk(st, t)))
    requires var st' := AddSlab(st, s, sl, us, word', cache'); SlabsOk(st') && HomeOk(st')
    ensures PageOk(AddSlab(st, s, sl, us, word', cache'), t)
  {
    hide SlabOk, UnitIn, Chained, NoDup;
  }

  lemma AddPages(st: State, c: nat, s: nat, sl: Slab, us: seq<nat>, word': map<nat, nat>, cache': Cache)
    requires Adding(st, c, s, sl, us, word') && PagesOk(st) && PagesOnce(st)
    requires var st' := AddSlab(st, s, sl, us, word', cache'); SlabsOk(st') && HomeOk(st')
    ensures var st' := AddSlab(st, s, sl, us, word', cache'); PagesOk(st') && PagesOnce(st')
  {
    hide SlabOk, UnitIn, Chained, NoDup, PageOk;
    var st' := AddSlab(st, s, sl, us, word', cache');
    forall t | t in st'.slabs ensures PageOk(st', t) {
      if t != s { assert PageOk(st, t); }
      AddPage(st, c, s, sl, us, word', cache', t);
    }
  }

  lemma AddFreeList(st: State, c: nat, s: nat, sl: Slab, us: seq<nat>, word': map<nat, nat>, cache': Cache, t: nat)
    requires Adding(st, c, s, sl, us, word') && st.owner.Keys <= st.home.Keys
    requires t == s || (t in st.slabs && t in st.free && FreeListOk(st, t))
    ensures FreeListOk(AddSlab(st, s, sl, us, word', cache'), t)
  {
    if t == s {
      NewFreeList(st, c, s, sl, us, word', cache');
    } else {
      OldFreeList(st, c, s, sl, us, word', cache', t);
    }
  }

  lemma NewFreeList(st: State, c: nat, s: nat, sl: Slab, us: seq<nat>, word': map<nat, nat>, cache': Cache)
    requires Adding(st, c, s, sl, us, word') && st.owner.Keys <= st.home.Keys
    ensures FreeListOk(AddSlab(st, s, sl, us, word', cache'), s)
  {
    hide SlabOk, UnitIn, Chained, NoDup, Vacant;
  }

  lemma OldFreeList(st: State, c: nat, s: nat, sl: Slab, us: seq<nat>, word': map<nat, nat>, cache': Cache, t: nat)
    requires Adding(st, c, s, sl, us, word') && st.owner.Keys <= st.home.Keys
    requires t != s && t in st.slabs && t in st.free && FreeListOk(st, t)
    ensures FreeListOk(AddSlab(st, s, sl, us, word', cache'), t)
  {
    hide SlabOk, UnitIn, Chained, NoDup;
    ChainAgree(st.free[t], st.word, word');
  }

  lemma AddFree(st: State, c: nat, s: nat, sl: Slab, us: seq<nat>, word': map<nat, nat>, cache': Cache)
    requires Adding(st, c, s, sl, us, word') && FreeOk(st) && st.owner.Keys <= st.home.Keys
    ensures FreeOk(AddSlab(st, s, sl, us, word', cache'))
  {
    hide FreeListOk, SlabOk, UnitIn, Chained, NoDup;
    var st' := AddSlab(st, s, sl, us, word', cache');
    forall t | t in st'.slabs ensures FreeListOk(st', t) {
      if t != s { assert FreeListOk(st, t); }
      AddFreeList(st, c, s, sl, us, word', cache', t);
    }
  }

  lemma AddHeads(st: State, c: nat, s: nat, sl: Slab, us: seq<nat>, word': map<nat, nat>, cache': Cache)
    requires Adding(st, c, s, sl, us, word') && HeadsOk(st)
    ensures HeadsOk(AddSlab(st, s, sl, us, word', cache'))
  {
    hide SlabOk, UnitIn, Chained, NoDup;
  }

  lemma AddHeld(st: State, c: nat, s: nat, sl: Slab, us: seq<nat>, word': map<nat, nat>, cache': Cache)
    requires Adding(st, c, s, sl, us, word') && st.owner.Keys <= st.home.Keys && InuseOk(st)
    ensures InuseOk(AddSlab(st, s, sl, us, word', cache'))
  {
    hide SlabOk, UnitIn, Chained, NoDup;
    var st' := AddSlab(st, s, sl, us, word', cache');
    forall t | t in st'.slabs ensures st'.slabs[t].inuse == |Held(st', t)| {
      if t == s {
        assert Held(st', t) == {};
      } else {
        assert Held(st', t) == Held(st, t);
      }
    }
  }

  lemma AddMagazines(st: State, c: nat, s: nat, sl: Slab, us: seq<nat>, word': map<nat, nat>, cache': Cache)
    requires Adding(st, c, s, sl, us, word') && MagazinesOk(st) && cache'.lru == st.caches[c].lru
    ensures MagazinesOk(AddSlab(st, s, sl, us, word', cache'))
  {
    hide SlabOk, UnitIn, Chained;
    var st' := AddSlab(st, s, sl, us, word', cache');
    forall d, k | 0 <= d < |st'.caches| && 0 <= k < LRU_COUNT ensures MagazineOk(st', d, k) {
      assert MagazineOk(st, d, k);
    }
  }

  lemma AddQueues(cs: seq<Cache>, slabs: map<nat, Slab>, s: nat, sl: Slab, cache': Cache)
    requires QueuesOk(cs, slabs, 0) && s !in slabs && s > 0 && 0 !in slabs && sl.extra < |cs|
    requires Rehung(cs[sl.extra], cache', s, IsPartial)
    ensures QueuesOk(cs[sl.extra := cache'], slabs[s := sl], s)
  {
    hide Rehung;
    var c := sl.extra;
    var cs', slabs' := cs[c := cache'], slabs[s := sl];
    forall d, j | 0 <= d < |cs'| ensures QueueOk(cs', slabs', s, d, j) {
      assert QueueOk(cs, slabs, 0, d, j);
      RehungQueue(cs[c], cache', s, IsPartial, j);
    }
    forall t | t in slabs' ensures t in Queue(cs'[slabs'[t].extra], Place(slabs', s, t)) {
      RehungQueue(cs[c], cache', s, IsPartial, Place(slabs', s, t));
    }
  }

  lemma AddRest(st: State, c: nat, s: nat, sl: Slab, us: seq<nat>, word': map<nat, nat>, cache': Cache)
    requires Adding(st, c, s, sl, us, word')
    requires NodesOk(st) && BlocksOk(st) && DefaultPagesOk(st)
    ensures var st' := AddSlab(st, s, sl, us, word', cache');
            DefaultPagesOk(st') && BlocksOk(st') && (SlabsOk(st') ==> NodesOk(st'))
  {
    hide Apart, SlabOk, UnitIn, Chained, NoDup, Vacant;
  }

  lemma CarvedBounds(st: State, c: nat, s: nat, sl: Slab, us: seq<nat>, word': map<nat, nat>)
    requires SlabsOk(st) && HomeOk(st) && Carved(st, c, s, sl, us, word')
    ensures c < |st.geo| && c < |st.caches| && sl.extra == c && sl.membase >= PTR
  {
  }

  lemma AddKeepsInv(st: State, c: nat, s: nat, sl: Slab, us: seq<nat>, word': map<nat, nat>, cache': Cache)
    requires Inv(st, 0) && Carved(st, c, s, sl, us, word') && c < |st.caches|
    requires Rehung(st.caches[c], cache', s, IsPartial) && cache'.lru == st.caches[c].lru
    requires ColorsOk(st.geo, st.caches[c := cache'])
    ensures sl.extra == c && sl.membase >= PTR && c < |st.geo|
    ensures Inv(AddSlab(st, s, sl, us, word', cache'), s)
  {
    hide Carved, SlabsOk, HomeOk, Spaced, PagesOk, PagesOnce, DefaultPagesOk, LinksOk, NodesOk, BlocksOk, FreeOk,
         InuseOk, QueuesOk, MagazinesOk, ColorsOk, CalcsOk, Rehung;
    CarvedBounds(st, c, s, sl, us, word');
    CarvedFresh(st, c, s, sl, us, word');
    AddHome(st, c, s, sl, us, word', cache');
    AddSpaced(st, c, s, sl, us, word', cache');
    AddPages(st, c, s, sl, us, word', cache');
    AddRest(st, c, s, sl, us, word', cache');
    AddFree(st, c, s, sl, us, word', cache');
    AddHeads(st, c, s, sl, us, word', cache');
    AddHeld(st, c, s, sl, us, word', cache');
    AddMagazines(st, c, s, sl, us, word', cache');
    AddQueues(st.caches, st.slabs, s, sl, cache');
  }

  // ---------- giving a page back ----------

  /** The entries of units of other slabs than `s`. */
  ghost function Elsewhere(m: map<nat, Owner>, home: map<nat, nat>, s: nat): map<nat, Owner> {
    map u | u in m && (u in home ==> home[u] != s) :: m[u]
  }

  /** The header of a slab is dropped, its units are no more, and its page is handed to nobody in particular. */
  ghost function DropSlab(st: State, s: nat, cache': Cache): State
    requires s in st.slabs && st.slabs[s].extra < |st.geo| && st.slabs[s].extra < |st.caches|
    requires st.slabs[s].membase >= PTR
  {
    var sl := st.slabs[s];
    st.(slabs := st.slabs - {s},
        home := map u | u in st.home && st.home[u] != s :: st.home[u],
        free := st.free - {s},
        owner := var kept := Elsewhere(st.owner, st.home, s);
                 if st.geo[sl.extra].gfp.Some? then kept[sl.membase - PTR := Client] else kept,
        caches := st.caches[sl.extra := cache'])
  }

  /** The units of `s` that are held at all are on loan. */
  ghost predicate Dropping(st: State, s: nat) {
    && SlabsOk(st) && HomeOk(st) && s in st.slabs && st.slabs[s].extra < |st.caches|
    && st.slabs[s].extra < |st.geo| && st.slabs[s].membase >= PTR
    && (forall u :: u in st.owner && u in st.home && st.home[u] == s ==> st.owner[u].Client? || st.owner[u].Hand?)
  }

  lemma NobodyHolds(st: State, s: nat)
    requires SlabsOk(st) && HomeOk(st) && InuseOk(st) && s in st.slabs && st.slabs[s].inuse == 0
    requires st.slabs[s].extra < |st.caches|
    ensures Dropping(st, s) && Elsewhere(st.owner, st.home, s) == st.owner
    ensures forall u :: u in st.owner && u in st.home ==> st.home[u] != s
  {
    assert Held(st, s) == {};
    forall u | u in st.owner && u in st.home ensures st.home[u] != s {
      assert u !in Held(st, s);
    }
  }

  lemma DropUnits(st: State, s: nat, cache': Cache)
    requires Dropping(st, s) && Spaced(st)
    ensures var st' := DropSlab(st, s, cache'); SlabsOk(st') && HomeOk(st') && Spaced(st')
  {
    hide UnitIn;
  }

  lemma DropPages(st: State, s: nat, cache': Cache)
    requires Dropping(st, s) && PagesOk(st) && PagesOnce(st)
    requires var st' := DropSlab(st, s, cache'); SlabsOk(st') && HomeOk(st')
    ensures var st' := DropSlab(st, s, cache'); PagesOk(st') && PagesOnce(st')
  {
    hide SlabOk, UnitIn, PageOk;
    var st' := DropSlab(st, s, cache');
    assert PageOk(st, s);
    forall t | t in st'.slabs ensures PageOk(st', t) {
      assert PageOk(st, t);
      DropPage(st, s, cache', t);
    }
    DropOwners(st, s, cache');
  }

  lemma DropPage(st: State, s: nat, cache': Cache, t: nat)
    requires Dropping(st, s) && t in st.slabs && t != s && PageOk(st, t) && PageOk(st, s)
    requires var st' := DropSlab(st, s, cache'); SlabsOk(st') && HomeOk(st')
    ensures PageOk(DropSlab(st, s, cache'), t)
  {
    hide SlabOk, UnitIn;
  }

  lemma DropOwners(st: State, s: nat, cache': Cache)
    requires Dropping(st, s) && PagesOk(st)
    ensures var st' := DropSlab(st, s, cache');
            forall u :: u in st'.owner && st'.owner[u].Page? ==>
              var t := st'.owner[u].slab;
              t in st'.slabs && st'.slabs[t].membase == u + PTR && st'.geo[st'.slabs[t].extra].gfp.Some?
  {
    hide UnitIn;
  }

  lemma DropFree(st: State, s: nat, cache': Cache)
    requires Dropping(st, s) && FreeOk(st) && st.owner.Keys <= st.home.Keys && PagesOk(st)
    ensures FreeOk(DropSlab(st, s, cache'))
  {
    hide SlabOk, UnitIn, Chained, NoDup;
    var st' := DropSlab(st, s, cache');
    assert PageOk(st, s);
    forall t | t in st'.slabs ensures FreeListOk(st', t) {
      assert FreeListOk(st, t);
    }
  }

  lemma DropHeads(st: State, s: nat, cache': Cache)
    requires Dropping(st, s) && HeadsOk(st) && PagesOk(st)
    ensures HeadsOk(DropSlab(st, s, cache'))
  {
    hide SlabOk, UnitIn;
    assert PageOk(st, s);
  }

  lemma DropInuse(st: State, s: nat, cache': Cache)
    requires Dropping(st, s) && InuseOk(st) && st.owner.Keys <= st.home.Keys && PagesOk(st)
    ensures InuseOk(DropSlab(st, s, cache'))
  {
    hide SlabOk, UnitIn;
    var st' := DropSlab(st, s, cache');
    assert PageOk(st, s);
    forall t | t in st'.slabs ensures st'.slabs[t].inuse == |Held(st', t)| {
      assert Held(st', t) == Held(st, t);
    }
  }

  lemma DropMagazines(st: State, s: nat, cache': Cache)
    requires Dropping(st, s) && MagazinesOk(st) && st.owner.Keys <= st.home.Keys && PagesOk(st)
    requires cache'.lru == st.caches[st.slabs[s].extra].lru
    ensures MagazinesOk(DropSlab(st, s, cache'))
  {
    hide SlabOk, UnitIn;
    var st' := DropSlab(st, s, cache');
    assert PageOk(st, s);
    forall d, k | 0 <= d < |st'.caches| && 0 <= k < LRU_COUNT ensures MagazineOk(st', d, k) {
      assert MagazineOk(st, d, k);
    }
  }

  /** In `cache'`, slab `s` is on no queue; the other slabs are where they are in `cache`. */
  ghost predicate Unhung(cache: Cache, cache': Cache, s: nat) {
    && NoDup(cache'.partial) && NoDup(cache'.full) && NoDup(cache'.idle)
    && (forall x :: x in cache'.partial <==> x != s && x in cache.partial)
    && (forall x :: x in cache'.full <==> x != s && x in cache.full)
    && (forall x :: x in cache'.idle <==> x != s && x in cache.idle)
  }

  lemma UnhungQueue(cache: Cache, cache': Cache, s: nat, j: Class)
    requires Unhung(cache, cache', s)
    ensures NoDup(Queue(cache', j))
    ensures forall x :: x in Queue(cache', j) <==> x != s && x in Queue(cache, j)
  {
  }

  lemma DropQueues(cs: seq<Cache>, slabs: map<nat, Slab>, s: nat, cache': Cache)
    requires QueuesOk(cs, slabs, 0) && 0 !in slabs && s in slabs && slabs[s].extra < |cs|
    requires Unhung(cs[slabs[s].extra], cache', s)
    ensures QueuesOk(cs[slabs[s].extra := cache'], slabs - {s}, 0)
  {
    hide Unhung;
    var c := slabs[s].extra;
    var cs', slabs' := cs[c := cache'], slabs - {s};
    forall d, j | 0 <= d < |cs'| ensures QueueOk(cs', slabs', 0, d, j) {
      assert QueueOk(cs, slabs, 0, d, j);
      UnhungQueue(cs[c], cache', s, j);
    }
    forall t | t in slabs' ensures t in Queue(cs'[slabs'[t].extra], Place(slabs', 0, t)) {
      UnhungQueue(cs[c], cache', s, Place(slabs', 0, t));
    }
  }

  lemma DropRest(st: State, s: nat, cache': Cache)
    requires Dropping(st, s) && NodesOk(st) && BlocksOk(st) && DefaultPagesOk(st)
    ensures var st' := DropSlab(st, s, cache');
            DefaultPagesOk(st') && BlocksOk(st') && (SlabsOk(st') ==> NodesOk(st'))
  {
    hide Apart, UnitIn;
  }

  lemma SlabBounds(st: State, s: nat)
    requires SlabsOk(st) && s in st.slabs
    ensures st.slabs[s].extra < |st.geo| && st.slabs[s].membase >= PTR && s > 0 && 0 !in st.slabs
  {
  }

  lemma DropKeepsInv(st: State, s: nat, cache': Cache)
    requires Inv(st, 0) && Dropping(st, s)
    requires Unhung(st.caches[st.slabs[s].extra], cache', s)
    requires cache'.lru == st.caches[st.slabs[s].extra].lru
    requires ColorsOk(st.geo, st.caches[st.slabs[s].extra := cache'])
    ensures Inv(DropSlab(st, s, cache'), 0)
  {
    hide SlabsOk, HomeOk, Spaced, PagesOk, PagesOnce, DefaultPagesOk, LinksOk, NodesOk, BlocksOk, FreeOk, InuseOk,
         QueuesOk, MagazinesOk, ColorsOk, CalcsOk, Unhung, Elsewhere;
    SlabBounds(st, s);
    DropUnits(st, s, cache');
    DropPages(st, s, cache');
    DropRest(st, s, cache');
    DropFree(st, s, cache');
    DropHeads(st, s, cache');
    DropInuse(st, s, cache');
    DropMagazines(st, s, cache');
    DropQueues(st.caches, st.slabs, s, cache');
  }
}
