/** The list layer of one cache as functions on the heap: taking a unit from the slab at the head of the
  * partial queue, giving one back, and releasing idle slabs. Each keeps the shape and the counters.
  */
module ListOps {
  import opened Layout
  import opened KmemState
  import opened Steps
  import opened SlabSteps
  import opened Frames
  import opened Counters

  /** The three queues of a cache have no slab in common. */
  ghost predicate QueuesDistinct(cache: Cache) {
    && NoDup(cache.partial) && NoDup(cache.full) && NoDup(cache.idle)
    && (forall s :: s in cache.partial ==> s !in cache.full && s !in cache.idle)
    && (forall s :: s in cache.full ==> s !in cache.idle)
  }

  lemma QueueFacts(cs: seq<Cache>, slabs: map<nat, Slab>, m: nat, c: nat)
    requires QueuesOk(cs, slabs, m) && c < |cs|
    ensures QueuesDistinct(cs[c])
    ensures forall s :: s in cs[c].partial ==> s in slabs && slabs[s].extra == c && Place(slabs, m, s) == IsPartial
    ensures forall s :: s in cs[c].full ==> s in slabs && slabs[s].extra == c && Place(slabs, m, s) == IsFull
    ensures forall s :: s in cs[c].idle ==> s in slabs && slabs[s].extra == c && Place(slabs, m, s) == IsIdle
  {
    assert QueueOk(cs, slabs, m, c, IsPartial);
    assert QueueOk(cs, slabs, m, c, IsFull);
    assert QueueOk(cs, slabs, m, c, IsIdle);
  }

  lemma QueuedWhere(cs: seq<Cache>, slabs: map<nat, Slab>, m: nat, s: nat)
    requires QueuesOk(cs, slabs, m) && s in slabs
    ensures slabs[s].extra < |cs| && s in Queue(cs[slabs[s].extra], Place(slabs, m, s))
  {
  }

  lemma RehungIdleToPartial(cache: Cache, s: nat)
    requires QueuesDistinct(cache) && s in cache.idle
    ensures Rehung(cache, IdleToPartial(cache, s), s, IsPartial)
  {
    RemoveMembers(cache.idle, s);
    AppendMembers(cache.partial, s);
  }

  lemma RehungPartialToFull(cache: Cache, s: nat)
    requires QueuesDistinct(cache) && s in cache.partial
    ensures Rehung(cache, PartialToFull(cache, s), s, IsFull)
  {
    RemoveMembers(cache.partial, s);
    AppendMembers(cache.full, s);
  }

  lemma RehungFullToPartial(cache: Cache, s: nat)
    requires QueuesDistinct(cache) && s in cache.full
    ensures Rehung(cache, FullToPartial(cache, s), s, IsPartial)
  {
    RemoveMembers(cache.full, s);
    AppendMembers(cache.partial, s);
  }

  lemma RehungPartialToIdle(cache: Cache, s: nat)
    requires QueuesDistinct(cache) && s in cache.partial
    ensures Rehung(cache, PartialToIdle(cache, s), s, IsIdle)
  {
    RemoveMembers(cache.partial, s);
    AppendMembers(cache.idle, s);
  }

  lemma RehungNew(cache: Cache, s: nat, n: nat)
    requires QueuesDistinct(cache) && s !in cache.partial && s !in cache.full && s !in cache.idle
    ensures Rehung(cache, NewPartial(cache, s, n), s, IsPartial)
  {
    AppendMembers(cache.partial, s);
  }

  lemma UnhungIdle(cache: Cache, s: nat, n: nat)
    requires QueuesDistinct(cache) && s in cache.idle
    ensures Unhung(cache, IdleReleased(cache, s, n), s)
  {
    RemoveMembers(cache.idle, s);
  }

  // ---------- changing the records of a cache only ----------

  /** The queues change as `QueuesMoved` allows; the magazines and the colour stay. */
  lemma RecordInv(st: State, m: nat, m': nat, s: nat, cache': Cache)
    requires Inv(st, m) && s in st.slabs && m in {0, s} && m' in {0, s}
    requires st.slabs[s].extra < |st.caches|
    requires Rehung(st.caches[st.slabs[s].extra], cache', s, Place(st.slabs, m', s))
    requires cache'.lru == st.caches[st.slabs[s].extra].lru
             && cache'.colorNext == st.caches[st.slabs[s].extra].colorNext
    ensures Inv(st.(caches := st.caches[st.slabs[s].extra := cache']), m')
  {
    hide *;
    var c := st.slabs[s].extra;
    Parts(st, m);
    SlabBounds(st, s);
    QueuesMoved(st.caches, st.slabs, m, m', s, cache');
    CachesIrrelevant(st, st.caches[c := cache']);
    RecordMagazines(st, c, cache');
    Assemble(st.(caches := st.caches[c := cache']), m');
  }

  lemma Parts(st: State, m: nat)
    requires Inv(st, m)
    ensures SlabsOk(st) && HomeOk(st) && Shape(st) && NodesOk(st) && BlocksOk(st) && FreeOk(st) && HeadsOk(st)
    ensures InuseOk(st) && QueuesOk(st.caches, st.slabs, m) && MagazinesOk(st) && ColorsOk(st.geo, st.caches)
    ensures CalcsOk(st.geo) && st.owner.Keys <= st.home.Keys && |st.caches| == |st.geo|
    ensures st.free.Keys == st.slabs.Keys && 0 !in st.slabs
  {
    hide HomeOk, NodesOk, BlocksOk, QueuesOk, CalcsOk, PagesOk, PagesOnce, Spaced, DefaultPagesOk, LinksOk, FreeListOk;
  }

  lemma Assemble(st: State, m: nat)
    requires Shape(st) && NodesOk(st) && BlocksOk(st) && FreeOk(st) && HeadsOk(st)
    requires InuseOk(st) && QueuesOk(st.caches, st.slabs, m) && MagazinesOk(st) && ColorsOk(st.geo, st.caches)
    requires CalcsOk(st.geo)
    ensures Inv(st, m)
  {
    hide Shape, NodesOk, BlocksOk, FreeOk, HeadsOk, InuseOk, QueuesOk, MagazinesOk, ColorsOk, CalcsOk;
  }

  lemma RecordMagazines(st: State, c: nat, cache': Cache)
    requires MagazinesOk(st) && ColorsOk(st.geo, st.caches) && c < |st.caches|
    requires cache'.lru == st.caches[c].lru && cache'.colorNext == st.caches[c].colorNext
    ensures var st' := st.(caches := st.caches[c := cache']); MagazinesOk(st') && ColorsOk(st'.geo, st'.caches)
  {
    var st' := st.(caches := st.caches[c := cache']);
    forall d, k | 0 <= d < |st'.caches| && 0 <= k < LRU_COUNT ensures MagazineOk(st', d, k) {
      assert MagazineOk(st, d, k);
    }
  }

  // ---------- imemcache_list_alloc after the choice of a slab ----------

  /** `s` has been brought to the head of the partial queue of `c` and has a free unit. */
  ghost predicate Selected(st: State, c: nat, s: nat) {
    && Inv(st, s) && c < |st.caches| && s in st.slabs && st.slabs[s].extra == c
    && s in st.free && st.free[s] != []
    && s in st.caches[c].partial && CountsOk(st.caches[c], st.free)
  }

  function AllocFrom(st: State, c: nat, s: nat): State
    requires s in st.slabs && s in st.free && st.free[s] != [] && c < |st.caches|
  {
    var st' := PopUnit(st, s);
    var cache := Popped(st.caches[c]);
    st'.(caches := st.caches[c := if st'.slabs[s].bufctl == 0 then PartialToFull(cache, s) else cache])
  }

  lemma OnPartialQueues(cs: seq<Cache>, slabs: map<nat, Slab>, s: nat)
    requires QueuesOk(cs, slabs, 0) && 0 !in slabs && s in slabs && Place(slabs, 0, s) == IsPartial
    ensures QueuesOk(cs, slabs, s)
  {
    forall d, k | 0 <= d < |cs| ensures QueueOk(cs, slabs, s, d, k) {
      assert QueueOk(cs, slabs, 0, d, k);
    }
  }

  /** A slab that is not full has a free unit: a partial slab by its class, an idle one because every slab
    * was carved into one unit at least.
    */
  lemma FreeNonEmpty(st: State, s: nat)
    requires FreeOk(st) && CalcsOk(st.geo) && s in st.slabs && ClassOf(st.slabs[s]) != IsFull
    ensures s in st.free && st.free[s] != []
  {
    assert FreeListOk(st, s);
    hide FreeListOk;
    var g := st.geo[st.slabs[s].extra];
    assert CalcOk(g);
    AtLeastOneUnit(g.unitSize, g.pageSize);
  }

  lemma PartialClass(slabs: map<nat, Slab>, s: nat)
    requires s in slabs && s > 0 && Place(slabs, 0, s) == IsPartial
    ensures ClassOf(slabs[s]) != IsFull
  {
  }

  lemma SelectPartial(st: State, c: nat)
    requires Inv(st, 0) && c < |st.caches| && st.caches[c].partial != [] && CountsOk(st.caches[c], st.free)
    ensures Selected(st, c, st.caches[c].partial[0])
  {
    hide *;
    Parts(st, 0);
    var s := st.caches[c].partial[0];
    QueueFacts(st.caches, st.slabs, 0, c);
    assert s in st.caches[c].partial;
    OnPartialQueues(st.caches, st.slabs, s);
    PartialClass(st.slabs, s);
    FreeNonEmpty(st, s);
    Assemble(st, s);
    IsSelected(st, c, s);
  }

  lemma IsSelected(st: State, c: nat, s: nat)
    requires Inv(st, s) && c < |st.caches| && s in st.slabs && st.slabs[s].extra == c
    requires s in st.free && st.free[s] != []
    requires s in st.caches[c].partial && CountsOk(st.caches[c], st.free)
    ensures Selected(st, c, s)
  {
    hide Inv, CountsOk;
  }

  /** The slab at the head of the idle queue is moved to the head of the partial queue. */
  lemma SelectIdle(st: State, c: nat)
    requires Inv(st, 0) && c < |st.caches| && st.caches[c].idle != [] && CountsOk(st.caches[c], st.free)
    ensures var s := st.caches[c].idle[0];
            Selected(st.(caches := st.caches[c := IdleToPartial(st.caches[c], s)]), c, s)
  {
    hide *;
    var s := st.caches[c].idle[0];
    var cache' := IdleToPartial(st.caches[c], s);
    var st' := st.(caches := st.caches[c := cache']);
    Parts(st, 0);
    QueueFacts(st.caches, st.slabs, 0, c);
    HeadIdle(st.caches[c], s);
    IdleClass(st.slabs, s);
    FreeNonEmpty(st, s);
    RehungIdleToPartial(st.caches[c], s);
    RecordInv(st, 0, s, s, cache');
    IsCounted(st.caches[c], st.free);
    CountsIdleToPartial(st.caches[c], st.free, s);
    IsSelected(st', c, s);
  }

  lemma HeadIdle(cache: Cache, s: nat)
    requires cache.idle != [] && s == cache.idle[0]
    ensures s in cache.idle
    ensures var cache' := IdleToPartial(cache, s);
            s in cache'.partial && cache'.lru == cache.lru && cache'.colorNext == cache.colorNext
  {
  }

  lemma IdleClass(slabs: map<nat, Slab>, s: nat)
    requires s in slabs && Place(slabs, 0, s) == IsIdle
    ensures ClassOf(slabs[s]) != IsFull
    ensures Place(slabs, s, s) == IsPartial
    ensures slabs[s].inuse == 0
  {
  }

  lemma IsCounted(cache: Cache, free: map<nat, seq<nat>>)
    requires CountsOk(cache, free) && QueuesDistinct(cache)
    ensures Counted(cache, free)
  {
    hide CountsOk;
  }

  /** imslab's IMEMSLAB_ISFULL test: a null bufctl means an empty free list, as no unit is at address 0. */
  lemma NullMeansEmpty(st: State, s: nat)
    requires SlabsOk(st) && HomeOk(st) && FreeOk(st) && s in st.slabs
    ensures st.slabs[s].bufctl == 0 <==> st.free[s] == []
    ensures st.free[s] != [] ==> st.free[s][0] in st.word
    ensures st.free[s] != [] ==> st.slabs[s].bufctl == st.free[s][0] && st.word[st.free[s][0]] == LinkAt(st.free[s], 0)
  {
    assert FreeListOk(st, s);
    if st.free[s] != [] {
      var u := st.free[s][0];
      assert UnitIn(st.geo, st.slabs[s], u);
      ChainTail(st.free[s], st.word);
    }
  }

  lemma RehungStay(cache: Cache, cache': Cache, s: nat)
    requires QueuesDistinct(cache) && s in cache.partial
    requires cache'.partial == cache.partial && cache'.full == cache.full && cache'.idle == cache.idle
    ensures Rehung(cache, cache', s, IsPartial)
  {
  }

  /** imemcache_list_alloc keeps the shape and the counters, hands out one new unit, and touches nothing else. */
  lemma AllocFromInv(st: State, c: nat, s: nat)
    requires Selected(st, c, s) && s in st.slabs && s in st.free && st.free[s] != []
    ensures var st' := AllocFrom(st, c, s);
            var u := st.free[s][0];
            && Inv(st', 0) && CountsOk(st'.caches[c], st'.free) && Frame(st, st', c)
            && Loans(st') == Loans(st)[u := Hand] && u !in st.owner
            && u in st'.home && st'.home[u] == s && s in st'.slabs && st'.slabs[s].extra == c
            && st'.caches[c].lru == st.caches[c].lru
  {
    hide *;
    OfSelected(st, c, s);
    Parts(st, s);
    var st1 := PopUnit(st, s);
    PopKeepsInv(st, s);
    PopFrame(st, s);
    Parts(st1, s);
    AfterPop(st, s);
    NullMeansEmpty(st1, s);
    QueueFacts(st.caches, st.slabs, s, c);
    AllocForm(st, c, s);
    var cache' := AllocFrom(st, c, s).caches[c];
    AllocRecord(st, c, s);
    RecordInv(st1, s, 0, s, cache');
    RecordFrame(st1, c, cache');
    AllocCounts(st, c, s);
    AsFrameBut(st, st1, c);
    AsFrameBut(st1, AllocFrom(st, c, s), c);
    FrameTransitive(st, st1, AllocFrom(st, c, s), c, c, {}, {});
    AsFrameBut(st, AllocFrom(st, c, s), c);
  }

  lemma AsFrameBut(st: State, st': State, c: int)
    ensures Frame(st, st', c) <==> FrameBut(st, st', c, {})
  {
    hide FrameBut;
  }

  lemma OfSelected(st: State, c: nat, s: nat)
    requires Selected(st, c, s)
    ensures Inv(st, s) && c < |st.caches| && s in st.slabs && st.slabs[s].extra == c
    ensures s in st.free && st.free[s] != []
    ensures s in st.caches[c].partial && CountsOk(st.caches[c], st.free)
  {
    hide Inv, CountsOk;
  }

  lemma AfterPop(st: State, s: nat)
    requires s in st.slabs && s in st.free && st.free[s] != []
    ensures var st' := PopUnit(st, s);
            && st'.caches == st.caches && s in st'.slabs && s in st'.free && st'.free == st.free[s := st.free[s][1..]]
            && st'.slabs[s].extra == st.slabs[s].extra && st'.home == st.home && st'.slabs[s].inuse > 0
            && Place(st'.slabs, s, s) == IsPartial
            && (s > 0 ==> Place(st'.slabs, 0, s) == if st'.slabs[s].bufctl == 0 then IsFull else IsPartial)
  {
  }

  lemma AllocForm(st: State, c: nat, s: nat)
    requires s in st.slabs && s in st.free && st.free[s] != [] && c < |st.caches|
    ensures c < |AllocFrom(st, c, s).caches|
    ensures var st1 := PopUnit(st, s);
            AllocFrom(st, c, s) == st1.(caches := st1.caches[c := AllocFrom(st, c, s).caches[c]])
  {
  }

  lemma AllocRecord(st: State, c: nat, s: nat)
    requires s in st.slabs && s in st.free && st.free[s] != [] && c < |st.caches|
    requires QueuesDistinct(st.caches[c]) && s in st.caches[c].partial
    ensures var st1, cache' := PopUnit(st, s), AllocFrom(st, c, s).caches[c];
            && Rehung(st.caches[c], cache', s, if st1.slabs[s].bufctl == 0 then IsFull else IsPartial)
            && cache'.lru == st.caches[c].lru && cache'.colorNext == st.caches[c].colorNext
  {
    hide Rehung, QueuesDistinct;
    RehungStay(st.caches[c], Popped(st.caches[c]), s);
    RehungPartialToFull(st.caches[c], s);
    var p, f := PartialToFull(st.caches[c], s), PartialToFull(Popped(st.caches[c]), s);
    RehungSame(st.caches[c], p, f, s, IsFull);
  }

  lemma RehungSame(cache: Cache, p: Cache, f: Cache, s: nat, k: Class)
    requires Rehung(cache, p, s, k) && p.partial == f.partial && p.full == f.full && p.idle == f.idle
    ensures Rehung(cache, f, s, k)
  {
  }

  lemma AllocCounts(st: State, c: nat, s: nat)
    requires s in st.slabs && s in st.free && st.free[s] != [] && c < |st.caches|
    requires QueuesDistinct(st.caches[c]) && s in st.caches[c].partial && CountsOk(st.caches[c], st.free)
    requires PopUnit(st, s).slabs[s].bufctl == 0 <==> st.free[s][1..] == []
    ensures CountsOk(AllocFrom(st, c, s).caches[c], AllocFrom(st, c, s).free)
  {
    hide CountsOk;
    CountsPopped(st.caches[c], st.free, s);
    if st.free[s][1..] == [] {
      CountsPartialToFull(Popped(st.caches[c]), st.free[s := st.free[s][1..]], s);
    }
  }

  // ---------- a slab carved from a new page ----------

  lemma SelectNew(st: State, c: nat, s: nat, sl: Slab, us: seq<nat>, word': map<nat, nat>, color: nat)
    requires Inv(st, 0) && c < |st.caches| && CountsOk(st.caches[c], st.free)
    requires SlabsOk(st) && HomeOk(st) && Carved(st, c, s, sl, us, word')
    requires c < |st.geo| && color % 8 == 0 && (color == 0 || color < st.geo[c].colorLimit)
    ensures sl.extra == c && sl.membase >= PTR
    ensures Selected(AddSlab(st, s, sl, us, word', NewPartial(st.caches[c].(colorNext := color), s, |us|)), c, s)
  {
    hide *;
    CarvedBounds(st, c, s, sl, us, word');
    Parts(st, 0);
    QueueFacts(st.caches, st.slabs, 0, c);
    CarvedFresh(st, c, s, sl, us, word');
    FreshHeader(st, s, sl, us);
    var cache := st.caches[c].(colorNext := color);
    var cache' := NewPartial(cache, s, |us|);
    RecolorQueues(st.caches[c], color, st.free);
    RehungNew(cache, s, |us|);
    NewRecord(st, c, color, s, |us|);
    RehungRecolored(st.caches[c], color, cache', s);
    AddKeepsInv(st, c, s, sl, us, word', cache');
    CountsNewPartial(cache, st.free, s, us);
    AddForm(st, c, s, sl, us, word', cache');
    CarvedUnitsFree(st, c, s, sl, us, word');
    IsSelected(AddSlab(st, s, sl, us, word', cache'), c, s);
  }

  lemma RehungRecolored(cache: Cache, color: nat, cache': Cache, s: nat)
    requires Rehung(cache.(colorNext := color), cache', s, IsPartial)
    ensures Rehung(cache, cache', s, IsPartial)
  {
  }

  lemma FreshHeader(st: State, s: nat, sl: Slab, us: seq<nat>)
    requires Fresh(st, s, sl, us)
    ensures s !in st.slabs
  {
  }

  lemma CarvedUnitsFree(st: State, c: nat, s: nat, sl: Slab, us: seq<nat>, word': map<nat, nat>)
    requires SlabsOk(st) && HomeOk(st) && Carved(st, c, s, sl, us, word')
    ensures us != []
  {
    hide UnitIn, Vacant, SlabOk, Chained, NoDup;
  }

  lemma AddForm(st: State, c: nat, s: nat, sl: Slab, us: seq<nat>, word': map<nat, nat>, cache': Cache)
    requires c < |st.geo| && c < |st.caches| && sl.extra == c && sl.membase >= PTR
    ensures var st' := AddSlab(st, s, sl, us, word', cache');
            && c < |st'.caches| && st'.caches[c] == cache' && s in st'.slabs && st'.slabs[s] == sl
            && st'.free == st.free[s := us] && s in st'.free && st'.free[s] == us
  {
  }

  lemma RecolorQueues(cache: Cache, color: nat, free: map<nat, seq<nat>>)
    requires QueuesDistinct(cache) && CountsOk(cache, free)
    ensures QueuesDistinct(cache.(colorNext := color)) && CountsOk(cache.(colorNext := color), free)
  {
  }

  lemma NewRecord(st: State, c: nat, color: nat, s: nat, n: nat)
    requires ColorsOk(st.geo, st.caches) && c < |st.caches| && color % 8 == 0
    requires color == 0 || color < st.geo[c].colorLimit
    ensures var cache' := NewPartial(st.caches[c].(colorNext := color), s, n);
            && cache'.lru == st.caches[c].lru && ColorsOk(st.geo, st.caches[c := cache'])
            && s in cache'.partial
  {
  }

  // ---------- imemcache_list_free, up to the drain ----------

  function Reopened(st: State, c: nat, s: nat): State
    requires s in st.slabs && c < |st.caches|
  {
    if st.slabs[s].bufctl == 0 then st.(caches := st.caches[c := FullToPartial(st.caches[c], s)]) else st
  }

  function FreedRecord(cache: Cache, sl: Slab, s: nat): Cache {
    var cache' := cache.(freeObjects := cache.freeObjects + 1);
    if sl.inuse == 0 then PartialToIdle(cache', s) else cache'
  }

  function FreeInto(st: State, c: nat, s: nat, u: nat): State
    requires s in st.slabs && s in st.free && st.slabs[s].inuse > 0 && c < |st.caches|
  {
    var st' := PushUnit(Reopened(st, c, s), s, u);
    st'.(caches := st'.caches[c := FreedRecord(st'.caches[c], st'.slabs[s], s)])
  }

  ghost predicate CanFree(st: State, c: nat, s: nat, u: nat) {
    && Inv(st, 0) && c < |st.caches| && CanPush(st, s, u) && st.slabs[s].extra == c && CountsOk(st.caches[c], st.free)
  }

  /** The slab of a held unit is full or partial; after the test it is on the partial queue. */
  lemma ReopenedInv(st: State, c: nat, s: nat, u: nat)
    requires CanFree(st, c, s, u)
    ensures var st' := Reopened(st, c, s);
            && Inv(st', s) && c < |st'.caches| && s in st'.caches[c].partial && CountsOk(st'.caches[c], st'.free)
            && st'.caches[c].lru == st.caches[c].lru
            && Frame(st, st', c) && Loans(st') == Loans(st) && CanPush(st', s, u)
            && st' == st.(caches := st'.caches) && st'.caches == st.caches[c := st'.caches[c]]
  {
    hide Inv, Shape, NodesOk, BlocksOk, FreeOk, HeadsOk, InuseOk, QueuesOk, MagazinesOk, ColorsOk, CalcsOk, SlabsOk,
         HomeOk, CountsOk, Rehung, Frame, Loans, QueuesDistinct;
    Parts(st, 0);
    QueueFacts(st.caches, st.slabs, 0, c);
    QueuedWhere(st.caches, st.slabs, 0, s);
    NullMeansEmpty(st, s);
    IsCounted(st.caches[c], st.free);
    RecordFrame(st, c, Reopened(st, c, s).caches[c]);
    assert Place(st.slabs, s, s) == IsPartial;
    if st.slabs[s].bufctl == 0 {
      assert Place(st.slabs, 0, s) == IsFull && s in st.caches[c].full;
      RehungFullToPartial(st.caches[c], s);
      RecordInv(st, 0, s, s, FullToPartial(st.caches[c], s));
      CountsFullToPartial(st.caches[c], st.free, s);
    } else {
      assert Place(st.slabs, 0, s) == IsPartial && s in st.caches[c].partial;
      assert st.caches == st.caches[c := st.caches[c]];
      OnPartialQueues(st.caches, st.slabs, s);
      Assemble(st, s);
    }
  }

  lemma UnitPositive(st: State, u: nat)
    requires SlabsOk(st) && HomeOk(st) && u in st.home
    ensures u >= PTR && u % 8 == 0 && st.home[u] in st.slabs
  {
    assert UnitIn(st.geo, st.slabs[st.home[u]], u);
  }

  lemma FreeRecord(cache: Cache, sl: Slab, s: nat)
    requires QueuesDistinct(cache) && s in cache.partial
    ensures var cache' := FreedRecord(cache, sl, s);
            && Rehung(cache, cache', s, if sl.inuse == 0 then IsIdle else IsPartial)
            && cache'.lru == cache.lru && cache'.colorNext == cache.colorNext
  {
    hide Rehung;
    RehungStay(cache, cache.(freeObjects := cache.freeObjects + 1), s);
    RehungPartialToIdle(cache, s);
    RehungSame(cache, PartialToIdle(cache, s), PartialToIdle(cache.(freeObjects := cache.freeObjects + 1), s), s,
      IsIdle);
  }

  lemma FreeCounts(cache: Cache, free: map<nat, seq<nat>>, sl: Slab, s: nat, u: nat)
    requires QueuesDistinct(cache) && CountsOk(cache, free) && s in cache.partial && s in free
    ensures CountsOk(FreedRecord(cache, sl, s), free[s := [u] + free[s]])
  {
    hide CountsOk;
    CountsPushed(cache, free, s, u);
    CountsPartialToIdle(cache.(freeObjects := cache.freeObjects + 1), free[s := [u] + free[s]], s);
  }

  /** Giving a unit back keeps the shape and the counters, ends the loan of that unit, and touches nothing else. */
  lemma FreeIntoInv(st: State, c: nat, s: nat, u: nat)
    requires CanFree(st, c, s, u)
    ensures var st' := FreeInto(st, c, s, u);
            && Inv(st', 0) && c < |st'.caches| && CountsOk(st'.caches[c], st'.free) && Frame(st, st', c)
            && Loans(st') == Loans(st) - {u}
            && st'.caches[c].lru == st.caches[c].lru
  {
    hide Inv, Shape, NodesOk, BlocksOk, FreeOk, HeadsOk, InuseOk, QueuesOk, MagazinesOk, ColorsOk, CalcsOk, SlabsOk,
         HomeOk, CountsOk, Rehung, Frame, FrameBut, Loans, QueuesDistinct, Reopened, FreedRecord;
    ReopenedInv(st, c, s, u);
    var st1 := Reopened(st, c, s);
    Parts(st1, s);
    var st2 := PushUnit(st1, s, u);
    PushKeepsInv(st1, s, u);
    PushFrame(st1, s, u);
    Parts(st2, s);
    QueueFacts(st1.caches, st1.slabs, s, c);
    var cache' := FreedRecord(st2.caches[c], st2.slabs[s], s);
    UnitPositive(st1, u);
    FreeRecord(st2.caches[c], st2.slabs[s], s);
    FreeCounts(st1.caches[c], st1.free, st2.slabs[s], s, u);
    RecordInv(st2, s, 0, s, cache');
    RecordFrame(st2, c, cache');
    var st3 := FreeInto(st, c, s, u);
    AsFrameBut(st, st1, c);
    AsFrameBut(st1, st2, c);
    AsFrameBut(st2, st3, c);
    LoanMinus(Loans(st), u);
    FrameTransitive(st1, st2, st3, c, c, {}, {});
    FrameTransitive(st, st1, st3, c, c, {}, {});
    AsFrameBut(st, st3, c);
  }

  lemma LoanMinus(loans: map<nat, Owner>, u: nat)
    ensures (loans - {u}).Keys <= loans.Keys
  {
  }

  // ---------- releasing the slab at the tail of the idle queue ----------

  ghost function ReleaseIdle(st: State, c: nat, s: nat): State
    requires s in st.slabs && s in st.free && st.slabs[s].extra == c && c < |st.geo| && c < |st.caches|
    requires st.slabs[s].membase >= PTR
  {
    var sl := st.slabs[s];
    st.(slabs := st.slabs - {s},
        home := map u | u in st.home && st.home[u] != s :: st.home[u],
        free := st.free - {s},
        owner := if st.geo[c].gfp.Some? then st.owner[sl.membase - PTR := Client] else st.owner,
        caches := st.caches[c := IdleReleased(st.caches[c], s, |st.free[s]|)])
  }

  /** Nobody holds a unit of an idle slab, so its release takes nothing from anybody. */
  lemma ReleaseIsDrop(st: State, c: nat, s: nat)
    requires SlabsOk(st) && HomeOk(st) && InuseOk(st) && s in st.slabs && s in st.free && st.slabs[s].inuse == 0
    requires st.slabs[s].extra == c && c < |st.caches| && c < |st.geo| && st.slabs[s].membase >= PTR
    ensures Dropping(st, s)
    ensures ReleaseIdle(st, c, s) == DropSlab(st, s, IdleReleased(st.caches[c], s, |st.free[s]|))
    ensures Elsewhere(Loans(st), st.home, s) == Loans(st)
  {
    hide IdleReleased, SlabsOk, HomeOk, InuseOk;
    NobodyHolds(st, s);
  }

  lemma ReleaseIdleInv(st: State, c: nat, s: nat, lag: int)
    requires Inv(st, 0) && c < |st.caches| && s in st.caches[c].idle && CountsBehind(st.caches[c], st.free, lag, 0)
    ensures c < |st.geo| && s in st.slabs && s in st.free && st.slabs[s].extra == c && st.slabs[s].membase >= PTR
    ensures st.slabs[s].inuse == 0
    ensures var st' := ReleaseIdle(st, c, s);
            && Inv(st', 0) && c < |st'.caches| && CountsBehind(st'.caches[c], st'.free, lag + 1, 1) && Frame(st, st', c)
            && st'.caches[c].lru == st.caches[c].lru
            && Loans(st') == (if st.geo[c].gfp.Some? then Loans(st)[st.slabs[s].membase - PTR := Client] else Loans(st))
  {
    hide Inv, Shape, NodesOk, BlocksOk, FreeOk, HeadsOk, InuseOk, QueuesOk, MagazinesOk, ColorsOk, CalcsOk, SlabsOk,
         HomeOk, CountsOk, Unhung, Frame, Loans, QueuesDistinct, IdleReleased, DropSlab, Dropping, ReleaseIdle,
         Elsewhere;
    Parts(st, 0);
    QueueFacts(st.caches, st.slabs, 0, c);
    SlabBounds(st, s);
    IdleClass(st.slabs, s);
    var cache' := IdleReleased(st.caches[c], s, |st.free[s]|);
    UnhungIdle(st.caches[c], s, |st.free[s]|);
    ReleasedRecord(st, c, s);
    ReleaseIsDrop(st, c, s);
    DropKeepsInv(st, s, cache');
    DropFrame(st, s, cache');
    DistinctIdle(st.caches[c], s);
    CountsIdleReleased(st.caches[c], st.free, s, lag);
    DropForm(st, s, cache');
  }

  lemma DistinctIdle(cache: Cache, s: nat)
    requires QueuesDistinct(cache) && s in cache.idle
    ensures NoDup(cache.partial) && NoDup(cache.idle) && s !in cache.partial
  {
  }

  lemma ReleasedRecord(st: State, c: nat, s: nat)
    requires ColorsOk(st.geo, st.caches) && c < |st.caches| && s in st.free
    ensures var cache' := IdleReleased(st.caches[c], s, |st.free[s]|);
            cache'.lru == st.caches[c].lru && ColorsOk(st.geo, st.caches[c := cache'])
  {
  }

  lemma DropForm(st: State, s: nat, cache': Cache)
    requires s in st.slabs && st.slabs[s].extra < |st.geo| && st.slabs[s].extra < |st.caches|
             && st.slabs[s].membase >= PTR
    ensures var st' := DropSlab(st, s, cache');
            st'.caches == st.caches[st.slabs[s].extra := cache'] && st'.free == st.free - {s}
  {
  }

  // ---------- counters of other caches ----------

  /** A cache whose record and slabs are untouched keeps exact counters. */
  lemma CountedKept(st: State, st': State, m: nat, i: nat)
    requires QueuesOk(st.caches, st.slabs, m) && i < |st.caches| && CountsOk(st.caches[i], st.free)
    requires i < |st'.caches| && st'.caches[i] == st.caches[i]
    requires forall s :: s in st.slabs && st.slabs[s].extra == i ==>
             s in st'.free && s in st.free && st'.free[s] == st.free[s]
    ensures CountsOk(st'.caches[i], st'.free)
  {
    QueueFacts(st.caches, st.slabs, m, i);
    CountsAgree(st.caches[i], st.free, st'.free);
  }
}
