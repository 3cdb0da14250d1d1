/** What the heap invariant says about any reachable heap, in the allocator's own terms: where every unit is,
  * which queue every slab is on, and what the counters count.
  */
module Census {
  import opened Layout
  import opened KmemState
  import opened Environment
  import opened Counters
  import opened ListOps
  import opened CacheLemmas

  ghost function UnitsOf(st: State, s: nat): set<nat> {
    set u | u in st.home && st.home[u] == s
  }

  ghost function FreeUnits(st: State, s: nat): set<nat> {
    if s in st.free then Elems(st.free[s]) else {}
  }

  /** Every unit carved for a slab is on its free list or held, never both, and none is ever lost: a slab keeps
    * the number of units it was carved into, and `inuse` is the number of those that are held.
    */
  lemma UnitConservation(st: State, s: nat)
    requires s in st.slabs && Inv(st, 0)
    ensures s in st.free && FreeUnits(st, s) !! Held(st, s) && FreeUnits(st, s) + Held(st, s) == UnitsOf(st, s)
    ensures |Held(st, s)| == st.slabs[s].inuse && |FreeUnits(st, s)| == |st.free[s]|
    ensures |UnitsOf(st, s)| == st.slabs[s].inuse + |st.free[s]|
    ensures st.slabs[s].extra < |st.geo| && Whole(st.geo[st.slabs[s].extra], |UnitsOf(st, s)|)
  {
    hide Inv, Shape, HomeOk, SlabsOk, NodesOk, BlocksOk, QueuesOk, MagazinesOk, ColorsOk, CalcsOk, PagesOk, LinksOk,
         DefaultPagesOk, Chained;
    Ready(st);
    assert FreeListOk(st, s);
    SetOfSeq(st.free[s]);
    HeldCounted(st, s);
    assert FreeUnits(st, s) + Held(st, s) == UnitsOf(st, s);
  }

  lemma HeldCounted(st: State, s: nat)
    requires InuseOk(st) && s in st.slabs
    ensures st.slabs[s].inuse == |Held(st, s)|
  {
  }

  ghost function Elems(q: seq<nat>): set<nat> {
    set u | u in q
  }

  lemma {:induction false} SetOfSeq(q: seq<nat>)
    requires NoDup(q)
    ensures |Elems(q)| == |q|
  {
    if q != [] {
      SetOfSeq(q[1..]);
      assert forall u :: u in q <==> u == q[0] || u in q[1..];
      assert q[0] !in q[1..];
      assert Elems(q) == {q[0]} + Elems(q[1..]);
    }
  }

  ghost function MagazineUnits(st: State, c: nat, k: nat): set<nat> {
    set u | u in st.owner && st.owner[u] == Magazine(c, k)
  }

  /** The entries of a magazine are exactly the units it holds, each once, and it is within its limit. */
  lemma MagazineCensus(st: State, c: nat, k: nat)
    requires c < |st.caches| == |st.geo| && k < LRU_COUNT && Inv(st, 0)
    ensures |st.caches[c].lru| == LRU_COUNT && |MagazineUnits(st, c, k)| == |st.caches[c].lru[k]| <= st.geo[c].lruLimit
    ensures st.geo[c].lruLimit <= ARRAY_LIMIT
    ensures forall u :: u in MagazineUnits(st, c, k) <==> u + PTR in st.caches[c].lru[k]
    ensures forall u :: u in MagazineUnits(st, c, k) ==> InCache(st, u, c)
  {
    hide Inv, Shape, HomeOk, SlabsOk, NodesOk, BlocksOk, QueuesOk, FreeOk, HeadsOk, InuseOk, ColorsOk, PagesOk,
         LinksOk, DefaultPagesOk;
    Ready(st);
    assert CalcOk(st.geo[c]);
    assert MagazineOk(st, c, k);
    ShiftedSet(st.caches[c].lru[k], MagazineUnits(st, c, k));
  }

  lemma {:induction false} ShiftedSet(q: seq<nat>, s: set<nat>)
    requires NoDup(q)
    requires forall u :: u in s <==> u + PTR in q
    requires forall e :: e in q ==> e >= PTR
    ensures |s| == |q|
  {
    if q == [] {
      forall u ensures u !in s { assert u + PTR !in q; }
      assert s == {};
    } else {
      var u0 := q[0] - PTR;
      assert u0 + PTR in q;
      assert q[0] !in q[1..];
      assert forall e :: e in q[1..] ==> e in q;
      forall u ensures u in s - {u0} <==> u + PTR in q[1..] {
        assert u + PTR in q <==> u + PTR == q[0] || u + PTR in q[1..];
      }
      ShiftedSet(q[1..], s - {u0});
    }
  }

  /** The header word tells the state of a held unit: tagged exactly while it is with a client or is a page. */
  lemma TagTells(st: State, u: nat)
    requires u in st.owner && Inv(st, 0)
    ensures u in st.word && u in st.home
    ensures HasMagic(st.word[u]) <==> st.owner[u].Client? || st.owner[u].Page?
    ensures ClearLow(st.word[u]) == st.home[u]
  {
    hide Inv, Shape, HomeOk, NodesOk, BlocksOk, QueuesOk, FreeOk, MagazinesOk, InuseOk, ColorsOk, CalcsOk, PagesOk,
         LinksOk, DefaultPagesOk, SlabsOk;
    Ready(st);
    HomeAligned(st, u);
  }

  lemma HomeAligned(st: State, u: nat)
    requires SlabsOk(st) && HomeOk(st) && u in st.home
    ensures st.home[u] % 8 == 0
  {
  }

  /** Which queue a slab is on: idle exactly when no unit of it is held, full exactly when none is free, partial
    * otherwise, and never two of them.
    */
  lemma SlabQueues(st: State, s: nat)
    requires s in st.slabs && Inv(st, 0)
    ensures s in st.free && st.slabs[s].extra < |st.caches|
    ensures var c := st.caches[st.slabs[s].extra];
            && (s in c.idle <==> Held(st, s) == {})
            && (s in c.full <==> st.free[s] == [])
            && (s in c.partial <==> Held(st, s) != {} && st.free[s] != [])
  {
    hide Inv, Shape, HomeOk, SlabsOk, NodesOk, BlocksOk, HeadsOk, MagazinesOk, ColorsOk, PagesOk, LinksOk,
         DefaultPagesOk, FreeListOk, QueuesOk, FreeOk;
    Ready(st);
    Parts(st, 0);
    assert st.slabs[s].inuse == |Held(st, s)|;
    NullMeansEmpty(st, s);
    QueuedWhere(st.caches, st.slabs, 0, s);
    QueueFacts(st.caches, st.slabs, 0, st.slabs[s].extra);
    if st.slabs[s].inuse == 0 { FreeNonEmpty(st, s); }
  }

  /** The slabs of cache `c`. */
  ghost function SlabsIn(st: State, c: nat): set<nat> {
    set s | s in st.slabs && st.slabs[s].extra == c
  }

  function AllOf(cache: Cache): seq<nat> {
    cache.partial + cache.idle + cache.full
  }

  /** The counters of a cache between operations: the three queues list every slab of the cache once, and the
    * counters are the queue lengths, the units on all free lists, and the pages obtained less those given back.
    */
  lemma CountersCount(st: State, c: nat)
    requires c < |st.caches| && CountedUpTo(st, c) && Inv(st, 0)
    ensures var cache := st.caches[c];
            && cache.countPartial == |cache.partial| && cache.countFull == |cache.full|
            && cache.countFree == |cache.idle|
            && cache.pagesNew - cache.pagesDel == cache.pagesInuse == |SlabsIn(st, c)|
    ensures NoDup(AllOf(st.caches[c])) && forall s :: s in AllOf(st.caches[c]) <==> s in SlabsIn(st, c)
    ensures (forall s :: s in AllOf(st.caches[c]) ==> s in st.free)
            && st.caches[c].freeObjects == FreeSum(st.free, AllOf(st.caches[c]))
  {
    hide *;
    Parts(st, 0);
    AllQueued(st, c);
    FullEmpty(st, c);
    CountersSum(st, c);
  }

  lemma CountersSum(st: State, c: nat)
    requires c < |st.caches| && CountedUpTo(st, c)
    requires NoDup(AllOf(st.caches[c])) && forall s :: s in AllOf(st.caches[c]) <==> s in SlabsIn(st, c)
    requires forall s :: s in st.caches[c].full ==> s in st.free && st.free[s] == []
    ensures var cache := st.caches[c];
            && cache.countPartial == |cache.partial| && cache.countFull == |cache.full|
            && cache.countFree == |cache.idle|
            && cache.pagesNew - cache.pagesDel == cache.pagesInuse == |SlabsIn(st, c)|
    ensures (forall s :: s in AllOf(st.caches[c]) ==> s in st.free)
            && st.caches[c].freeObjects == FreeSum(st.free, AllOf(st.caches[c]))
  {
    var cache := st.caches[c];
    assert CountsOk(cache, st.free);
    SumZero(st.free, cache.full);
    SumConcat(st.free, cache.partial, cache.idle);
    SumConcat(st.free, cache.partial + cache.idle, cache.full);
    SetOfSeq(AllOf(cache));
    assert SlabsIn(st, c) == Elems(AllOf(cache));
  }

  lemma AllQueued(st: State, c: nat)
    requires c < |st.caches| && QueuesOk(st.caches, st.slabs, 0)
    ensures NoDup(AllOf(st.caches[c]))
    ensures forall s :: s in AllOf(st.caches[c]) <==> s in SlabsIn(st, c)
  {
    hide QueuesOk, QueueOk;
    QueueFacts(st.caches, st.slabs, 0, c);
    var cache := st.caches[c];
    JoinDistinct(cache.partial, cache.idle);
    JoinDistinct(cache.partial + cache.idle, cache.full);
    forall s | s in st.slabs && st.slabs[s].extra == c ensures s in AllOf(cache) {
      QueuedWhere(st.caches, st.slabs, 0, s);
    }
  }

  lemma JoinDistinct(p: seq<nat>, q: seq<nat>)
    requires NoDup(p) && NoDup(q) && forall s :: s in p ==> s !in q
    ensures NoDup(p + q)
  {
    forall i, j | 0 <= i < j < |p + q| ensures (p + q)[i] != (p + q)[j] {
      if i < |p| <= j { assert p[i] in p && q[j - |p|] in q; }
    }
  }

  /** Full slabs have no free units to count. */
  lemma FullEmpty(st: State, c: nat)
    requires c < |st.caches| && SlabsOk(st) && HomeOk(st) && FreeOk(st) && QueuesOk(st.caches, st.slabs, 0)
             && 0 !in st.slabs
    ensures forall s :: s in st.caches[c].full ==> s in st.free && st.free[s] == []
  {
    QueueFacts(st.caches, st.slabs, 0, c);
    forall s | s in st.caches[c].full ensures s in st.free && st.free[s] == [] {
      NullMeansEmpty(st, s);
    }
  }

  lemma {:induction false} SumZero(f: map<nat, seq<nat>>, q: seq<nat>)
    requires forall s :: s in q ==> s in f && f[s] == []
    ensures FreeSum(f, q) == 0
  {
    if q != [] { SumZero(f, q[1..]); }
  }

  // ---------- a whole cache ----------

  function InuseSum(slabs: map<nat, Slab>, q: seq<nat>): nat
    requires forall s :: s in q ==> s in slabs
  {
    if q == [] then 0 else slabs[q[0]].inuse + InuseSum(slabs, q[1..])
  }

  /** Entries in the first `n` magazines. */
  function Entries(lru: seq<seq<nat>>, n: nat): nat
    requires n <= |lru|
  {
    if n == 0 then 0 else Entries(lru, n - 1) + |lru[n - 1]|
  }

  /** Held units of the slabs on `q`. */
  ghost function HeldOn(st: State, q: seq<nat>): set<nat> {
    set u | u in st.owner && u in st.home && st.home[u] in q
  }

  ghost function HeldIn(st: State, c: nat): set<nat> {
    set u | u in st.owner && InCache(st, u, c)
  }

  /** Held units of cache `c` in its first `n` magazines. */
  ghost function Magazined(st: State, c: nat, n: nat): set<nat> {
    set u | u in st.owner && st.owner[u].Magazine? && st.owner[u].cache == c && st.owner[u].slot < n
  }

  /** Units of cache `c` that callers have: clients, and later caches that use them as pages. */
  ghost function HandedOut(st: State, c: nat): set<nat> {
    set u | u in st.owner && InCache(st, u, c) && !st.owner[u].Magazine?
  }

  lemma {:induction false} HeldSum(st: State, q: seq<nat>)
    requires InuseOk(st) && NoDup(q) && forall s :: s in q ==> s in st.slabs
    ensures |HeldOn(st, q)| == InuseSum(st.slabs, q)
  {
    if q == [] {
      assert HeldOn(st, q) == {};
    } else {
      assert q[0] !in q[1..];
      assert forall s :: s in q <==> s == q[0] || s in q[1..];
      HeldCounted(st, q[0]);
      HeldSum(st, q[1..]);
      assert HeldOn(st, q) == Held(st, q[0]) + HeldOn(st, q[1..]);
      assert Held(st, q[0]) !! HeldOn(st, q[1..]);
    }
  }

  lemma {:induction false} EntriesSum(st: State, c: nat, n: nat)
    requires c < |st.caches| == |st.geo| && n <= LRU_COUNT == |st.caches[c].lru| && Inv(st, 0)
    ensures |Magazined(st, c, n)| == Entries(st.caches[c].lru, n)
  {
    hide Inv, Magazined, MagazineUnits;
    if n == 0 {
      NoMagazine(st, c);
    } else {
      EntriesSum(st, c, n - 1);
      MagazineCensus(st, c, n - 1);
      OneMagazine(st, c, n);
    }
  }

  lemma NoMagazine(st: State, c: nat)
    ensures Magazined(st, c, 0) == {}
  {
  }

  lemma OneMagazine(st: State, c: nat, n: nat)
    requires n > 0
    ensures Magazined(st, c, n) == Magazined(st, c, n - 1) + MagazineUnits(st, c, n - 1)
    ensures Magazined(st, c, n - 1) !! MagazineUnits(st, c, n - 1)
  {
  }

  /** Over a whole cache: the units that slabs count as in use are the entries of the eight magazines and the units
    * that callers have.
    */
  lemma CacheConservation(st: State, c: nat)
    requires c < |st.caches| == |st.geo| && Inv(st, 0)
    ensures |st.caches[c].lru| == 8 && forall s :: s in AllOf(st.caches[c]) ==> s in st.slabs
    ensures InuseSum(st.slabs, AllOf(st.caches[c])) == Entries(st.caches[c].lru, 8) + |HandedOut(st, c)|
  {
    hide Inv, HomeOk, SlabsOk, FreeOk, NodesOk, BlocksOk, QueuesOk, Shape, InuseOk, HeadsOk, MagazinesOk;
    Ready(st);
    AllQueued(st, c);
    LruCount(st, c);
    HeldSum(st, AllOf(st.caches[c]));
    EntriesSum(st, c, LRU_COUNT);
    HeldTwoWays(st, c);
    assert HeldOn(st, AllOf(st.caches[c])) == HeldIn(st, c);
  }

  lemma HeldTwoWays(st: State, c: nat)
    requires c < |st.caches| == |st.geo| && HeadsOk(st) && MagazinesOk(st)
    ensures HeldIn(st, c) == Magazined(st, c, LRU_COUNT) + HandedOut(st, c)
    ensures Magazined(st, c, LRU_COUNT) !! HandedOut(st, c)
  {
    forall u | u in st.owner && st.owner[u].Magazine?
      ensures InCache(st, u, st.owner[u].cache) && st.owner[u].slot < LRU_COUNT
    {
      assert MagazineOk(st, st.owner[u].cache, st.owner[u].slot);
    }
  }
}
