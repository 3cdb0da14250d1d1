/** ikmem_core_malloc, free, realloc and ptrsize over the slab caches, and what every run of them keeps. */
module Kmem {
  import opened Layout
  import opened KmemState
  import opened Forest
  import opened Frames
  import opened Environment
  import opened CacheLemmas
  import opened SlabCache
  import opened Spares
  import opened Waste
  import opened SizeClasses

  const SIZE_LIMIT: nat := 0x4000_0000  // the bound ikmem_core_malloc asserts

  // ---------- live objects ----------

  /** `p` is an object of a cache, in a client's hands, of at least `n` bytes. */
  ghost predicate SmallAt(st: State, p: nat, n: nat) {
    && p >= PTR && p - PTR in Loans(st) && Loans(st)[p - PTR] == Client
    && p - PTR in st.home && st.home[p - PTR] in st.slabs && st.slabs[st.home[p - PTR]].extra < |st.geo|
    && n <= st.geo[st.slabs[st.home[p - PTR]].extra].objSize
  }

  /** `p` is in a large block, and the two words in front of it are a null pointer and the size. */
  ghost predicate LargeAt(st: State, p: nat, n: nat) {
    && p >= LARGE_HEAD && p - LARGE_HEAD in st.large && n <= st.large[p - LARGE_HEAD]
    && p - PTR in st.word && st.word[p - PTR] == 0
    && p - 2 * PTR in st.word && st.word[p - 2 * PTR] == st.large[p - LARGE_HEAD]
  }

  /** `live` maps each pointer handed out and not freed to the size requested; nothing else is on loan. */
  ghost predicate LiveOk(st: State, live: map<nat, nat>) {
    && (forall p :: p in live ==> SmallAt(st, p, live[p]) || LargeAt(st, p, live[p]))
    && (forall u :: u in Loans(st) ==> Loans(st)[u] == Client && u + PTR in live)
    && (forall b :: b in st.large ==> b + LARGE_HEAD in live)
  }

  /** The bytes of the object are the same. */
  ghost predicate SameBytes(st: State, st': State, p: nat, n: nat) {
    SameWords(st.word, st'.word, p, p + n)
  }

  // ---------- theorems about any reachable heap ----------

  lemma TwoSmall(st: State, p: nat, n: nat, q: nat, m: nat)
    requires SmallAt(st, p, n) && SmallAt(st, q, m) && p != q && Shape(st)
    ensures Apart(p, n, q, m)
  {
    hide Shape;
    ObjectInUnit(st, p, n);
    ObjectInUnit(st, q, m);
    UnitsLaminar(st, p - PTR, q - PTR);
  }

  lemma SmallAndLarge(st: State, p: nat, n: nat, q: nat, m: nat)
    requires SmallAt(st, p, n) && LargeAt(st, q, m) && Shape(st) && BlocksOk(st)
    ensures Apart(p, n, q, m)
  {
    hide Shape, BlocksOk;
    ObjectInUnit(st, p, n);
    UnitOutsideBlock(st, q - LARGE_HEAD, p - PTR);
  }

  lemma TwoLarge(st: State, p: nat, n: nat, q: nat, m: nat)
    requires LargeAt(st, p, n) && LargeAt(st, q, m) && p != q && BlocksOk(st)
    ensures Apart(p, n, q, m)
  {
    hide BlocksOk;
    BlocksApart(st, p - LARGE_HEAD, q - LARGE_HEAD);
  }

  lemma LiveKind(st: State, live: map<nat, nat>, p: nat)
    requires p in live && LiveOk(st, live)
    ensures SmallAt(st, p, live[p]) || LargeAt(st, p, live[p])
  {
    hide SmallAt, LargeAt;
  }

  /** Two live objects do not overlap, whatever caches they come from and however deep their supplier chains. */
  lemma LiveDisjoint(st: State, live: map<nat, nat>, p: nat, q: nat)
    requires p in live && q in live && p != q && LiveOk(st, live) && Inv(st, 0)
    ensures Apart(p, live[p], q, live[q])
  {
    hide LiveOk, SmallAt, LargeAt, Inv, Shape, BlocksOk, FreeOk, InuseOk, QueuesOk, MagazinesOk, ColorsOk, CalcsOk,
         NodesOk, HomeOk, SlabsOk, HeadsOk, PagesOk, LinksOk, DefaultPagesOk;
    Ready(st);
    LiveKind(st, live, p);
    LiveKind(st, live, q);
    if SmallAt(st, p, live[p]) {
      if SmallAt(st, q, live[q]) {
        TwoSmall(st, p, live[p], q, live[q]);
      } else {
        SmallAndLarge(st, p, live[p], q, live[q]);
      }
    } else if SmallAt(st, q, live[q]) {
      SmallAndLarge(st, q, live[q], p, live[p]);
    } else {
      TwoLarge(st, p, live[p], q, live[q]);
    }
  }

  lemma ObjectInUnit(st: State, p: nat, n: nat)
    requires SmallAt(st, p, n) && Shape(st)
    ensures p - PTR in st.home && p + n <= p - PTR + UnitAt(st, p - PTR)
    ensures p - PTR in st.owner && !st.owner[p - PTR].Page?
  {
    hide HomeOk, SlabsOk, Spaced, PagesOk, PagesOnce, DefaultPagesOk;
    assert LinkOk(st.pg, st.geo, st.slabs[st.home[p - PTR]].extra);
  }

  /** Every live object is aligned to a word. */
  lemma LiveAligned(st: State, live: map<nat, nat>, p: nat)
    requires p in live && LiveOk(st, live) && Inv(st, 0)
    ensures p % 8 == 0
  {
    hide LiveOk, Inv, FreeOk, InuseOk, QueuesOk, MagazinesOk, ColorsOk, CalcsOk, NodesOk, HeadsOk, Shape, PagesOk,
         Loans, DefaultPagesOk, LinksOk;
    Ready(st);
    LiveKind(st, live, p);
  }

  /** No slab header, on or off its page, overlaps a live object. */
  lemma HeadersOutsideLive(st: State, live: map<nat, nat>, s: nat, p: nat)
    requires p in live && s in st.slabs && LiveOk(st, live) && Inv(st, 0)
    ensures Apart(s, SLAB_STRUCT, p, live[p])
  {
    hide Inv, Shape, FreeOk, InuseOk, QueuesOk, MagazinesOk, ColorsOk, CalcsOk, HomeOk, BlocksOk, NodesOk, SlabsOk;
    Ready(st);
    if SmallAt(st, p, live[p]) {
      ObjectInUnit(st, p, live[p]);
      HeaderOutsideUnit(st, s, p - PTR);
    } else {
      HeaderOutsideBlock(st, s, p - LARGE_HEAD);
    }
  }

  lemma HeaderOutsideBlock(st: State, s: nat, b: nat)
    requires Shape(st) && NodesOk(st) && BlocksOk(st) && s in st.slabs && b in st.large
    ensures Apart(s, SLAB_STRUCT, b, LARGE_HEAD + st.large[b])
  {
    hide HomeOk, Spaced, PagesOk, PagesOnce, DefaultPagesOk, LinksOk;
    if !OffSlab(st, s) {
      LargeOutsidePages(st, b, s);
      assert SlabOk(st.geo, s, st.slabs[s]);
    }
  }

  /** `a` is a word the allocator writes: a unit's first word, or a header word of a large block. */
  ghost predicate AllocatorWord(st: State, a: nat) {
    a in st.home || exists b :: b in st.large && (a == b + LARGE_HEAD - PTR || a == b + LARGE_HEAD - 2 * PTR)
  }

  lemma SmallNotHeader(st: State, p: nat, n: nat, a: nat)
    requires AllocatorWord(st, a) && SmallAt(st, p, n) && Shape(st) && BlocksOk(st)
    ensures Apart(a, PTR, p, n)
  {
    hide Shape, BlocksOk;
    ObjectInUnit(st, p, n);
    if a in st.home {
      UnitNotEmpty(st, a);
      if a != p - PTR { UnitsLaminar(st, a, p - PTR); }
    } else {
      var b :| b in st.large && (a == b + LARGE_HEAD - PTR || a == b + LARGE_HEAD - 2 * PTR);
      UnitOutsideBlock(st, b, p - PTR);
    }
  }

  lemma LargeNotHeader(st: State, p: nat, n: nat, a: nat)
    requires AllocatorWord(st, a) && LargeAt(st, p, n) && Shape(st) && BlocksOk(st)
    ensures Apart(a, PTR, p, n)
  {
    hide Shape, BlocksOk;
    var c := p - LARGE_HEAD;
    if a in st.home {
      UnitNotEmpty(st, a);
      UnitOutsideBlock(st, c, a);
    } else {
      var b :| b in st.large && (a == b + LARGE_HEAD - PTR || a == b + LARGE_HEAD - 2 * PTR);
      if b != c { BlocksApart(st, b, c); }
    }
  }

  /** No word that the allocator writes overlaps a live object. */
  lemma ObjectsNotHeaders(st: State, live: map<nat, nat>, p: nat, a: nat)
    requires p in live && AllocatorWord(st, a) && LiveOk(st, live) && Inv(st, 0)
    ensures Apart(a, PTR, p, live[p])
  {
    assert SmallAt(st, p, live[p]) || LargeAt(st, p, live[p]);
    hide Inv, Shape, BlocksOk, FreeOk, InuseOk, QueuesOk, MagazinesOk, ColorsOk, CalcsOk, NodesOk, HomeOk, SlabsOk,
         SmallAt, HeadsOk, LiveOk, LargeAt, AllocatorWord;
    Ready(st);
    if SmallAt(st, p, live[p]) {
      SmallNotHeader(st, p, live[p], a);
    } else {
      LargeNotHeader(st, p, live[p], a);
    }
  }

  lemma UnitNotEmpty(st: State, u: nat)
    requires Shape(st) && u in st.home
    ensures UnitAt(st, u) > PTR
  {
    assert LinkOk(st.pg, st.geo, st.slabs[st.home[u]].extra);
  }

  /** Magazine units and free units are disjoint from live objects too: what a pointer may reach is its own. */
  lemma UnitsOutsideLive(st: State, live: map<nat, nat>, u: nat, p: nat)
    requires p in live && u in st.home && u + PTR != p && LiveOk(st, live) && Inv(st, 0)
    requires !(u in st.owner && st.owner[u].Page?)
    ensures Apart(u, UnitAt(st, u), p, live[p])
  {
    hide Inv, Shape, FreeOk, InuseOk, QueuesOk, MagazinesOk, ColorsOk, CalcsOk, HomeOk, BlocksOk, NodesOk, SlabsOk;
    Ready(st);
    if SmallAt(st, p, live[p]) {
      ObjectInUnit(st, p, live[p]);
      UnitsLaminar(st, u, p - PTR);
    } else {
      UnitOutsideBlock(st, p - LARGE_HEAD, u);
    }
  }

  // ---------- what one step does to the live objects ----------

  lemma StillSmall(st: State, st': State, p: nat, n: nat)
    requires SmallAt(st, p, n) && Kept(st, st') && st'.geo == st.geo && LinksOk(st.pg, st.geo)
    requires p - PTR in Loans(st') && Loans(st')[p - PTR] == Client
    ensures SmallAt(st', p, n) && SameBytes(st, st', p, n)
  {
    hide LargeKept, Loans;
    assert SameLoan(st, st', p - PTR);
    assert LinkOk(st.pg, st.geo, st.slabs[st.home[p - PTR]].extra);
  }

  lemma StillLarge(st: State, st': State, p: nat, n: nat)
    requires LargeAt(st, p, n) && LargeKept(st, st')
    requires p - LARGE_HEAD in st'.large && st'.large[p - LARGE_HEAD] == st.large[p - LARGE_HEAD]
    ensures LargeAt(st', p, n) && SameBytes(st, st', p, n)
  {
    var b: nat := p - LARGE_HEAD;
    assert SameWords(st.word, st'.word, b, b + LARGE_HEAD + st.large[b]);
    forall a | p <= a < p + n
      ensures (a in st'.word <==> a in st.word) && (a in st.word ==> st'.word[a] == st.word[a])
    {
      assert b <= a < b + LARGE_HEAD + st.large[b];
    }
    assert p - PTR in st'.word && p - 2 * PTR in st'.word;
  }

  /** The object of `p` is where it was, with the same bytes. */
  ghost predicate StillLive(st: State, st': State, p: nat, n: nat) {
    (SmallAt(st', p, n) || LargeAt(st', p, n)) && SameBytes(st, st', p, n)
  }

  lemma OthersLive(st: State, st': State, live: map<nat, nat>, gone: set<nat>)
    requires LiveOk(st, live) && Kept(st, st') && st'.geo == st.geo && LinksOk(st.pg, st.geo)
    requires forall u :: u in Loans(st) && u + PTR !in gone ==> u in Loans(st') && Loans(st')[u] == Loans(st)[u]
    requires forall b :: b in st.large && b + LARGE_HEAD !in gone ==> b in st'.large && st'.large[b] == st.large[b]
    ensures forall p :: p in live && p !in gone ==> StillLive(st, st', p, live[p])
  {
    hide Loans, LinksOk;
    assert LargeKept(st, st');
    hide Kept, LargeKept, SameBytes;
    forall p | p in live && p !in gone ensures StillLive(st, st', p, live[p]) {
      LiveKind(st, live, p);
      if SmallAt(st, p, live[p]) { StillSmall(st, st', p, live[p]); } else { StillLarge(st, st', p, live[p]); }
    }
  }

  /** A new object from cache `c`. */
  lemma GotSmall(st: State, st': State, live: map<nat, nat>, c: nat, p: nat, size: nat)
    requires LiveOk(st, live) && Kept(st, st') && st'.geo == st.geo && LinksOk(st.pg, st.geo) && st'.large == st.large
    requires GotUnit(st, st', c, p, Client) && c < |st.geo| && size <= st.geo[c].objSize
    requires Inv(st', 0)
    ensures p !in live && LiveOk(st', live[p := size])
    ensures forall q :: q in live ==> StillLive(st, st', q, live[q])
  {
    hide Inv, Kept, LinksOk, LiveOk, SmallAt, LargeAt, SameBytes, StillLive, GotUnit;
    GotFacts(st, st', c, p);
    OthersLive(st, st', live, {});
    NotLiveYet(st, st', live, c, p);
    NewSmall(st, st', c, p, size);
    LiveGrows(st, st', live, p, size);
  }

  lemma GotFacts(st: State, st': State, c: nat, p: nat)
    requires GotUnit(st, st', c, p, Client)
    ensures p >= PTR && p - PTR !in Loans(st) && Loans(st') == Loans(st)[p - PTR := Client]
  {
    hide Loans;
  }

  /** An object just obtained was not live. */
  lemma NotLiveYet(st: State, st': State, live: map<nat, nat>, c: nat, p: nat)
    requires LiveOk(st, live) && GotUnit(st, st', c, p, Client) && st'.large == st.large && Inv(st', 0)
    ensures p !in live
  {
    hide Inv, LiveOk, Shape, BlocksOk, FreeOk, HeadsOk, InuseOk, QueuesOk, MagazinesOk, ColorsOk, CalcsOk, NodesOk,
         HomeOk, SlabsOk, PagesOk, DefaultPagesOk;
    Ready(st');
    if p in live {
      LiveKind(st, live, p);
      hide Loans;
      if LargeAt(st, p, live[p]) {
        UnitNotEmpty(st', p - PTR);
        UnitOutsideBlock(st', p - LARGE_HEAD, p - PTR);
      }
    }
  }

  lemma NewSmall(st: State, st': State, c: nat, p: nat, size: nat)
    requires GotUnit(st, st', c, p, Client) && st'.geo == st.geo && c < |st.geo| && size <= st.geo[c].objSize
    ensures SmallAt(st', p, size)
  {
  }

  lemma LiveGrows(st: State, st': State, live: map<nat, nat>, p: nat, size: nat)
    requires LiveOk(st, live) && p !in live && (SmallAt(st', p, size) || LargeAt(st', p, size))
    requires forall q :: q in live ==> StillLive(st, st', q, live[q])
    requires forall u :: u in Loans(st') ==>
               (u + PTR == p && Loans(st')[u] == Client) || (u in Loans(st) && Loans(st')[u] == Loans(st)[u])
    requires forall b :: b in st'.large ==> b + LARGE_HEAD == p || b in st.large
    ensures LiveOk(st', live[p := size])
  {
    hide SmallAt, LargeAt, Loans, SameBytes;
  }

  /** A new large block; its object follows the header. */
  lemma GotLarge(st: State, st': State, live: map<nat, nat>, b: nat, size: nat)
    requires LiveOk(st, live) && LinksOk(st.pg, st.geo) && b !in st.large && LargeTaken(st, st', b, size)
    requires Inv(st', 0)
    ensures b + LARGE_HEAD !in live && LiveOk(st', live[b + LARGE_HEAD := size])
    ensures forall q :: q in live ==> StillLive(st, st', q, live[q])
  {
    hide Inv, Kept, LinksOk, Loans;
    hide Shape, BlocksOk, FreeOk, HeadsOk, InuseOk, QueuesOk, MagazinesOk, ColorsOk, CalcsOk, NodesOk, HomeOk, SlabsOk,
         PagesOk, DefaultPagesOk;
    OthersLive(st, st', live, {});
    Ready(st');
    var p := b + LARGE_HEAD;
    if p in live && SmallAt(st, p, live[p]) {
      StillSmall(st, st', p, live[p]);
      UnitNotEmpty(st', p - PTR);
      UnitOutsideBlock(st', b, p - PTR);
    }
    assert LargeAt(st', p, size);
    hide LargeAt, SmallAt;
    LiveGrows(st, st', live, p, size);
  }

  /** A pointer cannot be both an object of a cache and the object of a large block. */
  ghost predicate OneKind(st: State, p: nat) {
    p >= LARGE_HEAD ==> !(p - PTR in Loans(st) && p - LARGE_HEAD in st.large)
  }

  lemma KindsApart(st: State, p: nat)
    requires Inv(st, 0)
    ensures OneKind(st, p)
  {
    hide Inv, Shape, BlocksOk, FreeOk, InuseOk, QueuesOk, MagazinesOk, ColorsOk, CalcsOk, NodesOk, HomeOk, SlabsOk,
         PagesOk, DefaultPagesOk, LinksOk;
    Ready(st);
    if p >= LARGE_HEAD && p - PTR in Loans(st) && p - LARGE_HEAD in st.large {
      UnitNotEmpty(st, p - PTR);
      UnitOutsideBlock(st, p - LARGE_HEAD, p - PTR);
    }
  }

  ghost predicate OthersStill(st: State, st': State, live: map<nat, nat>, p: nat) {
    forall q :: q in live && q != p ==> StillLive(st, st', q, live[q])
  }

  /** An object of a cache is given back: exactly its loan ends. */
  lemma GoneSmall(st: State, st': State, live: map<nat, nat>, p: nat)
    requires p in live && p >= PTR && p - PTR in Loans(st) && OneKind(st, p) && LiveOk(st, live)
    requires Kept(st, st') && st'.geo == st.geo && LinksOk(st.pg, st.geo)
    requires Loans(st') == Loans(st) - {p - PTR} && st'.large == st.large
    ensures LiveOk(st', live - {p}) && OthersStill(st, st', live, p)
  {
    hide Kept, LinksOk, Loans, SameBytes, SmallAt, LargeAt;
    OthersLive(st, st', live, {p});
    forall b | b in st'.large ensures b + LARGE_HEAD in live - {p} {
      assert b in st.large;
    }
  }

  /** A large block is given back: exactly that block ends. */
  lemma GoneLarge(st: State, st': State, live: map<nat, nat>, p: nat)
    requires p in live && p >= LARGE_HEAD && p - LARGE_HEAD in st.large && OneKind(st, p) && LiveOk(st, live)
    requires Kept(st, st') && st'.geo == st.geo && LinksOk(st.pg, st.geo)
    requires Loans(st') == Loans(st) && st'.large == st.large - {p - LARGE_HEAD}
    ensures LiveOk(st', live - {p}) && OthersStill(st, st', live, p)
  {
    hide Kept, LinksOk, Loans, SameBytes, SmallAt, LargeAt;
    OthersLive(st, st', live, {p});
    forall u | u in Loans(st') ensures Loans(st')[u] == Client && u + PTR in live - {p} {
      assert u in Loans(st);
    }
  }

  lemma NothingLive(st: State)
    requires Loans(st) == map[] && st.large == map[]
    ensures LiveOk(st, map[]) && Tallied(st, [], 0)
  {
    hide Loans;
  }

  // ---------- the sum of class sizes ----------

  ghost function ClassSize(st: State, u: nat): nat {
    if u in st.home && st.home[u] in st.slabs && st.slabs[st.home[u]].extra < |st.geo|
    then st.geo[st.slabs[st.home[u]].extra].objSize else 0
  }

  ghost function TotalSize(st: State, q: seq<nat>): nat {
    if q == [] then 0 else ClassSize(st, q[0]) + TotalSize(st, q[1..])
  }

  lemma {:induction false} TotalSame(st: State, st': State, q: seq<nat>)
    requires forall u :: u in q ==> ClassSize(st', u) == ClassSize(st, u)
    ensures TotalSize(st', q) == TotalSize(st, q)
  {
    if q != [] { TotalSame(st, st', q[1..]); }
  }

  lemma {:induction false} TotalRemove(st: State, q: seq<nat>, u: nat)
    requires NoDup(q) && u in q
    ensures TotalSize(st, q) == ClassSize(st, u) + TotalSize(st, Remove(q, u))
  {
    if q[0] != u {
      TotalRemove(st, q[1..], u);
      assert Remove(q, u)[1..] == Remove(q[1..], u);
    }
  }

  /** `lent` lists the units on loan, and `inuse` is the sum of their class sizes. */
  ghost predicate Tallied(st: State, lent: seq<nat>, inuse: int) {
    NoDup(lent) && (forall u :: u in lent <==> u in Loans(st)) && inuse == TotalSize(st, lent)
  }

  lemma SameClass(st: State, st': State, u: nat)
    requires u in Loans(st) && u in Loans(st') && Kept(st, st') && st'.geo == st.geo
    ensures ClassSize(st', u) == ClassSize(st, u)
  {
    hide Loans, LargeKept;
    assert SameLoan(st, st', u);
  }

  lemma TallyKept(st: State, st': State, lent: seq<nat>, inuse: int)
    requires Tallied(st, lent, inuse) && Kept(st, st') && st'.geo == st.geo && Loans(st') == Loans(st)
    ensures Tallied(st', lent, inuse)
  {
    hide Loans, Kept, ClassSize;
    forall u | u in lent ensures ClassSize(st', u) == ClassSize(st, u) { SameClass(st, st', u); }
    TotalSame(st, st', lent);
  }

  lemma TallyMore(st: State, st': State, lent: seq<nat>, inuse: int, u: nat)
    requires Tallied(st, lent, inuse) && Kept(st, st') && st'.geo == st.geo
    requires u !in Loans(st) && Loans(st').Keys == Loans(st).Keys + {u}
    ensures Tallied(st', [u] + lent, inuse + ClassSize(st', u))
  {
    hide Loans, Kept, ClassSize;
    AppendMembers(lent, u);
    forall v | v in lent ensures ClassSize(st', v) == ClassSize(st, v) { SameClass(st, st', v); }
    TotalSame(st, st', lent);
    assert ([u] + lent)[1..] == lent;
  }

  lemma TallyLess(st: State, st': State, lent: seq<nat>, inuse: int, u: nat)
    requires Tallied(st, lent, inuse) && Kept(st, st') && st'.geo == st.geo
    requires u in Loans(st) && Loans(st').Keys == Loans(st).Keys - {u}
    ensures Tallied(st', Remove(lent, u), inuse - ClassSize(st, u))
  {
    hide Loans, Kept, ClassSize;
    RemoveMembers(lent, u);
    TotalRemove(st, lent, u);
    forall v | v in Remove(lent, u) ensures ClassSize(st', v) == ClassSize(st, v) { SameClass(st, st', v); }
    TotalSame(st, st', Remove(lent, u));
  }

  // ---------- ikmem ----------

  /** The cache holds back no idle slab, and nothing in the magazine that imemcache_shrink looks at. */
  predicate Slim(cache: Cache) {
    cache.idle == [] && cache.lru != [] && cache.lru[0] == []
  }

  lemma IsSlim(cache: Cache)
    requires cache.idle == [] && |cache.lru| == LRU_COUNT && cache.lru[0] == []
    ensures Slim(cache)
  {
  }

  /** The caches listed from `index` on are slim. */
  ghost predicate SlimFrom(cs: seq<Cache>, lookup: seq<nat>, index: nat) {
    forall j :: index <= j < |lookup| ==> lookup[j] < |cs| && Slim(cs[lookup[j]])
  }

  lemma NoneSlim(cs: seq<Cache>, lookup: seq<nat>)
    ensures SlimFrom(cs, lookup, |lookup|)
  {
  }

  /** Shrinking a cache leaves those of smaller objects slim. */
  lemma SlimMore(geo: seq<Geom>, lookup: seq<nat>, cs: seq<Cache>, cs': seq<Cache>, index: nat)
    requires LookupOk(geo, lookup) && index < |lookup| && |cs| == |geo| && SlimFrom(cs, lookup, index + 1)
    requires lookup[index] < |geo| && SameSmaller(geo, cs, cs', lookup[index]) && Slim(cs'[lookup[index]])
    ensures SlimFrom(cs', lookup, index)
  {
    hide Slim;
    forall j | index <= j < |lookup| ensures lookup[j] < |cs'| && Slim(cs'[lookup[j]]) {
      if lookup[j] != lookup[index] { assert SizeAt(geo, lookup, index) >= SizeAt(geo, lookup, j); }
    }
  }

  lemma AllSlim(geo: seq<Geom>, lookup: seq<nat>, cs: seq<Cache>)
    requires LookupOk(geo, lookup) && |cs| == |geo| && SlimFrom(cs, lookup, 0)
    ensures forall c :: 0 <= c < |cs| ==> Slim(cs[c])
  {
    hide Slim;
    forall c | 0 <= c < |cs| ensures Slim(cs[c]) {
      assert c in lookup;
    }
  }

  class Allocator {
    const reg: Registry
    const heap: Heap
    var waterMark: nat   // ikmem_water_mark
    var inuse: int       // ikmem_inuse
    var rangeHigh: nat   // ikmem_range_high
    var rangeLow: nat    // ikmem_range_low
    ghost var live: map<nat, nat>  // pointers handed out and not freed, with the size requested
    ghost var lent: seq<nat>

    ghost predicate Valid()
      reads this, reg, heap
    {
      && reg.Ready() && heap.geo == reg.geo && heap.pg == reg.pg
      && (forall p :: p in live ==> rangeLow <= p <= rangeHigh)
      && Tallied(heap.S(), lent, inuse)
      && LiveOk(heap.S(), live)
      && heap.held == [] && Spare(heap.S()) == Unused({}, {})
      && heap.Ok(|heap.geo| - 1)
    }

    /** ikmem_init */
    constructor (pageShift: int, sizelist: seq<nat>)
      requires pageShift <= 0 || pageShift >= 8
      requires var p := Pow2(if pageShift <= 0 then 16 else pageShift) + 128;
               forall i :: 0 <= i < |sizelist| ==> PTR <= sizelist[i] <= p - PTR
      ensures fresh(reg) && fresh(heap) && live == map[] && inuse == 0
      ensures reg.shift == if pageShift <= 0 then 16 else pageShift
      ensures Valid()
    {
      hide SpareOf, Inv, CountedUpTo, LiveOk, Tallied, LookupOk, Covered, TableOk, SuppliersRoomy, SuppliersCheapest,
           BuiltIn, OwnClasses, Pow2, LinkOk, CalcOk, Loans;
      var r := new Registry.Init(pageShift, sizelist);
      var h := new Heap(r.pg, r.geo);
      reg, heap := r, h;
      waterMark, inuse := 0, 0;
      rangeHigh, rangeLow := 0, 0xFFFF_FFFF_FFFF_FFFF;
      live, lent := map[], [];
      NothingLive(h.S());
    }

    /** ikmem_core_malloc. A null result leaves every object as it was, and happens only when the system refused a
      * block.
      */
    method Malloc(size: nat, cpu: nat) returns (ptr: nat)
      requires 0 < size <= SIZE_LIMIT && cpu < LRU_COUNT && Valid()
      modifies this, heap
      ensures ptr == 0 ==> live == old(live) && heap.refusals > old(heap.refusals)
      ensures ptr != 0 ==> ptr !in old(live) && live == old(live)[ptr := size]
      ensures ptr != 0 ==> exists c :: Picked(reg.geo, size, c) && RoomOf(heap.S(), reg.geo, ptr, size, waterMark, c)
      ensures forall q :: q in old(live) ==> SameBytes(old(heap.S()), heap.S(), q, old(live)[q])
      ensures waterMark == old(waterMark)
      ensures Valid()
    {
      hide SpareOf, SizesOk, LookupOk, Covered, TableOk, SuppliersRoomy, SuppliersCheapest, BuiltIn, OwnClasses,
           LiveOk, Tallied, Inv, CountedUpTo, SameBytes, Picked;
      var c := reg.PickClass(size);
      ghost var picked := c;
      if waterMark > 0 && size > waterMark { c := None; }
      if c == None {
        ptr := MallocLarge(size);
      } else {
        PickedHolds(reg.geo, size, c);
        ptr := MallocSmall(c.value, size, cpu);
      }
      if ptr == 0 { return; }
      assert Picked(reg.geo, size, picked) && RoomOf(heap.S(), reg.geo, ptr, size, waterMark, picked);
      NoteRange(ptr, size);
    }

    /** The range of pointers handed out, for ikmem_core_ptrsize. */
    method NoteRange(ptr: nat, size: nat)
      requires reg.Ready() && heap.geo == reg.geo && heap.pg == reg.pg && Tallied(heap.S(), lent, inuse)
      requires (forall p :: p in live ==> rangeLow <= p <= rangeHigh) && LiveOk(heap.S(), live[ptr := size])
      requires heap.held == [] && Spare(heap.S()) == Unused({}, {})
      requires heap.Ok(|heap.geo| - 1)
      modifies this`rangeHigh, this`rangeLow, this`live
      ensures live == old(live)[ptr := size] && Valid()
    {
      hide SpareOf, SizesOk, LookupOk, Covered, TableOk, SuppliersRoomy, SuppliersCheapest, BuiltIn, OwnClasses,
           LiveOk, Tallied, Inv, CountedUpTo;
      if rangeHigh < ptr { rangeHigh := ptr; }
      if rangeLow > ptr { rangeLow := ptr; }
      live := live[ptr := size];
    }

    /** The system branch of ikmem_core_malloc. */
    method MallocLarge(size: nat) returns (ptr: nat)
      requires size > 0 && Valid()
      modifies heap
      ensures ptr == 0 ==> heap.refusals > old(heap.refusals) && Valid()
      ensures ptr != 0 ==> ptr !in live && LiveOk(heap.S(), live[ptr := size]) && Usable(heap.S(), ptr) == size
      ensures forall q :: q in live ==> SameBytes(old(heap.S()), heap.S(), q, live[q])
      ensures heap.held == [] && Spare(heap.S()) == Unused({}, {})
      ensures Tallied(heap.S(), lent, inuse) && heap.Ok(|heap.geo| - 1)
    {
      hide SpareOf, SizesOk, TableOk, Covered, SuppliersRoomy, SuppliersCheapest, BuiltIn, OwnClasses, LiveOk, Tallied,
           Inv, CountedUpTo, LargeTaken, SameBytes;
      ghost var st := heap.S();
      var b := heap.LargeAlloc(size);
      if b == 0 {
        BytesSame(st, live);
        return 0;
      }
      ptr := b + LARGE_HEAD;
      LargeStep(st, heap.S(), live, lent, inuse, b, size);
    }

    /** The cache branch: one retry after giving idle pages back. */
    method MallocSmall(c: nat, size: nat, cpu: nat) returns (ptr: nat)
      requires c < |reg.geo| && 0 < size <= reg.geo[c].objSize && cpu < LRU_COUNT && Valid()
      modifies heap, this`inuse, this`lent
      ensures ptr == 0 ==> heap.refusals >= old(heap.refusals) + 2 && Valid()
      ensures ptr != 0 ==>
                ptr !in live && LiveOk(heap.S(), live[ptr := size])
                && Usable(heap.S(), ptr) == reg.geo[c].objSize
      ensures forall q :: q in live ==> SameBytes(old(heap.S()), heap.S(), q, live[q])
      ensures heap.held == [] && Spare(heap.S()) == Unused({}, {})
      ensures Tallied(heap.S(), lent, inuse) && heap.Ok(|heap.geo| - 1)
    {
      hide SpareOf, LiveOk, Tallied, Inv, CountedUpTo, SameBytes, Usable, SizesOk, LookupOk, Covered, TableOk,
           SuppliersRoomy, SuppliersCheapest, BuiltIn, OwnClasses;
      ghost var st := heap.S();
      ptr := TryClass(c, size, cpu);
      if ptr == 0 {
        ghost var failed := heap.S();
        Shrink(cpu);
        ghost var shrunk := heap.S();
        BytesThrough(st, failed, shrunk, live);
        ptr := TryClass(c, size, cpu);
        BytesThrough(st, shrunk, heap.S(), live);
      }
    }

    /** One call to the cache, and the sum of class sizes if it succeeds. */
    method TryClass(c: nat, size: nat, cpu: nat) returns (ptr: nat)
      requires c < |reg.geo| && 0 < size <= reg.geo[c].objSize && cpu < LRU_COUNT && Valid()
      modifies heap, this`inuse, this`lent
      ensures heap.refusals >= old(heap.refusals)
      ensures ptr == 0 ==> heap.refusals > old(heap.refusals) && Valid()
      ensures ptr != 0 ==>
                ptr !in live && LiveOk(heap.S(), live[ptr := size])
                && Usable(heap.S(), ptr) == reg.geo[c].objSize
      ensures forall q :: q in live ==> SameBytes(old(heap.S()), heap.S(), q, live[q])
      ensures heap.held == [] && Spare(heap.S()) == Unused({}, {})
      ensures Tallied(heap.S(), lent, inuse) && heap.Ok(|heap.geo| - 1)
    {
      hide SpareOf, LiveOk, Tallied, Inv, CountedUpTo, SameBytes, Frame, GotUnit, Loans, Usable, SizesOk, LookupOk,
           Covered, TableOk, SuppliersRoomy, SuppliersCheapest, BuiltIn, OwnClasses;
      ghost var st := heap.S();
      AllCounted(st, c);
      ptr := heap.CacheAlloc(c, cpu);
      SmallStep(st, heap.S(), live, lent, inuse, c, ptr, size);
      if ptr != 0 {
        lent := [ptr - PTR] + lent;
        inuse := inuse + heap.geo[c].objSize;
      }
    }

    /** ikmem_core_shrink, from the smallest class to the largest: suppliers come after the caches they supply. */
    method Shrink(cpu: nat)
      requires cpu < LRU_COUNT && Valid()
      modifies heap
      ensures heap.refusals >= old(heap.refusals)
      ensures forall c :: 0 <= c < |heap.caches| ==> Slim(heap.caches[c])
      ensures forall q :: q in live ==> SameBytes(old(heap.S()), heap.S(), q, live[q])
      ensures Valid()
    {
      hide SpareOf, SizesOk, TableOk, Covered, SuppliersRoomy, SuppliersCheapest, BuiltIn, OwnClasses, LiveOk, Tallied,
           Inv, CountedUpTo, SameBytes, Frame, Loans, SlimFrom, Slim, SameSmaller;
      ghost var st := heap.S();
      BytesSame(st, live);
      NoneSlim(heap.caches, reg.lookup);
      var index := |reg.lookup|;
      while index > 0
        invariant 0 <= index <= |reg.lookup| && heap.refusals >= old(heap.refusals)
        invariant SlimFrom(heap.caches, reg.lookup, index)
        invariant forall q :: q in live ==> SameBytes(st, heap.S(), q, live[q])
        invariant Valid()
      {
        index := index - 1;
        ghost var was := heap.S();
        var c := reg.lookup[index];
        AllCounted(was, c);
        heap.CacheShrink(c, cpu);
        IsSlim(heap.caches[c]);
        SlimMore(reg.geo, reg.lookup, was.caches, heap.caches, index);
        QuietStep(was, heap.S(), live, lent, inuse, c);
        BytesThrough(st, was, heap.S(), live);
      }
      AllSlim(reg.geo, reg.lookup, heap.caches);
    }

    /** ikmem_core_ptrsize: the size of the class, or the exact size of a large block. It answers 0 outside the range
      * of pointers ever handed out and for an object that was given back, except that in front of the last unit of a
      * free list there is a null pointer, so that the answer is whatever lies before it.
      */
    method PtrSize(ptr: nat) returns (size: nat)
      requires ptr in live || ptr < rangeLow || ptr > rangeHigh || Marked(heap.S(), ptr)
      requires Valid()
      ensures ptr in live ==> size >= live[ptr] && size == Usable(heap.S(), ptr)
      ensures ptr !in live && rangeLow <= ptr <= rangeHigh ==>
                size == if IsPageObject(heap.S(), ptr) then ClassSize(heap.S(), ptr - PTR) else 0
      ensures ptr < rangeLow || ptr > rangeHigh ==> size == 0
    {
      hide SpareOf, SizesOk, TableOk, Covered, SuppliersRoomy, SuppliersCheapest, BuiltIn, OwnClasses, LiveOk, Inv,
           CountedUpTo, Tallied, SmallAt, LargeAt, Marked, IsPageObject, Usable, ClassSize;
      if ptr < rangeLow || ptr > rangeHigh { return 0; }
      WordInFront(heap.S(), live, ptr);
      if heap.word[ptr - PTR] == 0 {
        size := heap.word[ptr - 2 * PTR];
      } else {
        var linear := heap.word[ptr - PTR];
        if !HasMagic(linear) { return 0; }
        var slab := heap.slabs[ClearLow(linear)];
        if ptr - PTR >= slab.membase + slab.memsize || ptr - PTR < slab.membase { return 0; }
        size := heap.geo[slab.extra].objSize;
      }
    }

    /** ikmem_core_free */
    method Free(ptr: nat, cpu: nat)
      requires ptr in live && cpu < LRU_COUNT && Valid()
      modifies this, heap
      ensures live == old(live) - {ptr} && heap.refusals >= old(heap.refusals) && waterMark == old(waterMark)
      ensures rangeLow == old(rangeLow) && rangeHigh == old(rangeHigh)
      ensures forall q :: q in live ==> Usable(heap.S(), q) == Usable(old(heap.S()), q)
      ensures forall q :: q in live ==> SameBytes(old(heap.S()), heap.S(), q, live[q])
      ensures Valid()
    {
      hide SpareOf, SizesOk, LookupOk, Covered, TableOk, SuppliersRoomy, SuppliersCheapest, BuiltIn, OwnClasses,
           LiveOk, Inv, CountedUpTo, Tallied, SameBytes, SmallAt, LargeAt, Frame, Loans, Lent, FreeDone;
      ghost var st := heap.S();
      HeaderWord(st, live, ptr);
      if heap.word[ptr - PTR] == 0 {
        heap.LargeFree(ptr - LARGE_HEAD);
        FreeLargeStep(st, heap.S(), live, lent, inuse, ptr);
      } else {
        ghost var c := ClassOfObject(st, ptr);
        AllCounted(st, c);
        var d := heap.CacheFree(ptr, c, cpu);
        FreeSmallStep(st, heap.S(), live, lent, inuse, c, ptr);
        inuse := inuse - heap.geo[d].objSize;
        lent := Remove(lent, ptr - PTR);
      }
      Freed(st, heap.S(), live, lent, inuse, ptr);
      live := live - {ptr};
    }
    /** A client stores a byte into its object; no step of the allocator can tell. */
    method Poke(ptr: nat, i: nat, v: nat)
      requires ptr in live && i < live[ptr] && Valid()
      modifies heap`word
      ensures heap.word == old(heap.word)[ptr + i := v]
      ensures forall q :: q in live && q != ptr ==> SameBytes(old(heap.S()), heap.S(), q, live[q])
      ensures Valid()
    {
      hide SpareOf, SizesOk, TableOk, Covered, SuppliersRoomy, SuppliersCheapest, BuiltIn, OwnClasses, LiveOk, Inv,
           CountedUpTo, Tallied, SameBytes, AllocatorWord;
      ghost var st := heap.S();
      if AllocatorWord(st, ptr + i) { ObjectsNotHeaders(st, live, ptr, ptr + i); }
      NotHome(st, ptr + i);
      heap.Store(ptr + i, v);
      PokeStep(st, heap.S(), live, lent, inuse, ptr, i, v);
    }

    /** ikmem_core_realloc. When the new block cannot be had, the source frees the old one; so does this. */
    method Realloc(ptr: nat, size: nat, cpu: nat) returns (r: nat)
      requires (ptr == 0 || ptr in live) && size <= SIZE_LIMIT && cpu < LRU_COUNT && Valid()
      modifies this, heap
      ensures r == 0 ==> live == old(live) - {ptr}
      ensures r == 0 ==> size == 0 || heap.refusals > old(heap.refusals)
      ensures r != 0 ==> size > 0 && (r == ptr || r !in old(live)) && live == (old(live) - {ptr})[r := size]
      ensures r != 0 && ptr != 0 ==> SamePrefix(old(heap.S()), heap.S(), ptr, r, Min(old(live)[ptr], size))
      ensures ptr != 0 && size > 0 ==> (r == ptr <==> Stays(old(Usable(heap.S(), ptr)), size))
      ensures ptr != 0 && r == ptr ==>
                heap.S() == old(heap.S()) && heap.refusals == old(heap.refusals) && inuse == old(inuse)
                && rangeLow == old(rangeLow) && rangeHigh == old(rangeHigh)
      ensures r != 0 && r != ptr ==>
                exists c :: Picked(reg.geo, size, c) && RoomOf(heap.S(), reg.geo, r, size, waterMark, c)
      ensures waterMark == old(waterMark)
      ensures forall q :: q in old(live) && q != ptr ==> SameBytes(old(heap.S()), heap.S(), q, old(live)[q])
      ensures Valid()
    {
      hide SpareOf, SizesOk, LookupOk, Covered, TableOk, SuppliersRoomy, SuppliersCheapest, BuiltIn, OwnClasses,
           LiveOk, Inv, CountedUpTo, Tallied, SameBytes, SamePrefix;
      ghost var st, was := heap.S(), live;
      NullNotLive(st, live);
      if ptr == 0 {
        BytesSame(st, live);
        if size == 0 { return 0; }
        r := Malloc(size, cpu);
        return;
      }
      var oldsize := PtrSize(ptr);
      if size == 0 {
        BytesSame(st, was);
        Free(ptr, cpu);
        BytesFreed(st, st, heap.S(), was, live, ptr);
        return 0;
      }
      if oldsize >= size && oldsize * 3 < size * 4 {
        live := live[ptr := size];
        Resized(st, was, ptr, size);
        return ptr;
      }
      r := MoveTo(ptr, oldsize, size, cpu);
    }

    /** The last part of ikmem_core_realloc: a new object, a copy, and the old object freed. */
    method MoveTo(ptr: nat, oldsize: nat, size: nat, cpu: nat) returns (r: nat)
      requires ptr in live && 0 < size <= SIZE_LIMIT && cpu < LRU_COUNT && live[ptr] <= oldsize && Valid()
      modifies this, heap
      ensures r == 0 ==> live == old(live) - {ptr} && heap.refusals > old(heap.refusals)
      ensures r != 0 ==> r !in old(live) && live == (old(live) - {ptr})[r := size]
      ensures r != 0 ==> SamePrefix(old(heap.S()), heap.S(), ptr, r, Min(old(live)[ptr], size))
      ensures r != 0 ==> exists c :: Picked(reg.geo, size, c) && RoomOf(heap.S(), reg.geo, r, size, waterMark, c)
      ensures waterMark == old(waterMark)
      ensures forall q :: q in old(live) && q != ptr ==> SameBytes(old(heap.S()), heap.S(), q, old(live)[q])
      ensures Valid()
    {
      hide SpareOf, SizesOk, LookupOk, Covered, TableOk, SuppliersRoomy, SuppliersCheapest, BuiltIn, OwnClasses,
           LiveOk, Inv, CountedUpTo, Tallied, SameBytes, SamePrefix;
      ghost var st, was := heap.S(), live;
      r := Malloc(size, cpu);
      ghost var got := heap.S();
      if r == 0 {
        Free(ptr, cpu);
        BytesFreed(st, got, heap.S(), was, live, ptr);
        return 0;
      }
      MemCopy(r, ptr, if oldsize < size then oldsize else size);
      ghost var copied, both := heap.S(), live;
      Free(ptr, cpu);
      Moved(st, got, copied, heap.S(), was, both, live, ptr, r, oldsize, size);
    }

    /** memcpy between two live objects: what the source holds in its first `n` bytes, the target holds too. */
    method MemCopy(to: nat, from: nat, n: nat)
      requires to in live && from in live && to != from && n <= live[to] && Valid()
      modifies heap`word
      ensures SamePrefix(old(heap.S()), heap.S(), from, to, Min(n, live[from]))
      ensures forall q :: q in live && q != to ==> SameBytes(old(heap.S()), heap.S(), q, live[q])
      ensures Valid()
    {
      hide SpareOf, SizesOk, LookupOk, Covered, TableOk, SuppliersRoomy, SuppliersCheapest, BuiltIn, OwnClasses,
           LiveOk, Inv, CountedUpTo, Tallied, SameBytes, SamePrefix;
      ghost var st := heap.S();
      BytesSame(st, live);
      NoPrefix(st, from, to);
      for i := 0 to n
        invariant SamePrefix(st, heap.S(), from, to, Min(i, live[from]))
        invariant forall q :: q in live && q != to ==> SameBytes(st, heap.S(), q, live[q])
        invariant Valid()
      {
        ghost var before := heap.S();
        if from + i in heap.word {
          Poke(to, i, heap.word[from + i]);
        }
        CopiedOne(st, before, heap.S(), live, from, to, i);
      }
    }
  }

  /** The room is enough, and less than a third more than asked for. */
  predicate Stays(room: nat, size: nat) {
    size <= room && 3 * room < 4 * size
  }

  /** The bytes that an object has room for. */
  ghost function Usable(st: State, p: nat): nat {
    if p >= LARGE_HEAD && p - LARGE_HEAD in st.large then st.large[p - LARGE_HEAD]
    else if p >= PTR then ClassSize(st, p - PTR) else 0
  }

  ghost function ClassOfObject(st: State, p: nat): nat {
    if p >= PTR && p - PTR in st.home && st.home[p - PTR] in st.slabs then st.slabs[st.home[p - PTR]].extra else 0
  }

  /** The room of the object: that of the class picked, or exactly the request when it went to the system. */
  ghost predicate RoomOf(st: State, geo: seq<Geom>, p: nat, size: nat, waterMark: nat, c: Option<nat>) {
    Usable(st, p) ==
    if c.Some? && c.value < |geo| && !(waterMark > 0 && size > waterMark) then geo[c.value].objSize else size
  }

  lemma NullNotLive(st: State, live: map<nat, nat>)
    requires LiveOk(st, live)
    ensures 0 !in live
  {
  }

  /** The word in front of a live object tells which kind it is, and where to look. */
  lemma HeaderWord(st: State, live: map<nat, nat>, p: nat)
    requires p in live && LiveOk(st, live) && Inv(st, 0)
    ensures p >= 2 * PTR && p - PTR in st.word
    ensures st.word[p - PTR] == 0 ==>
              && LargeAt(st, p, live[p]) && p >= LARGE_HEAD && p - LARGE_HEAD in st.large && p - 2 * PTR in st.word
              && st.word[p - 2 * PTR] == Usable(st, p) && live[p] <= Usable(st, p)
    ensures st.word[p - PTR] != 0 ==> SmallAt(st, p, live[p]) && SmallHeader(st, p, live[p])
  {
    hide LiveOk, Inv, SmallAt, LargeAt;
    LiveKind(st, live, p);
    KindsApart(st, p);
    if SmallAt(st, p, live[p]) {
      SmallWord(st, p, live[p]);
    } else {
      LargeWord(st, p, live[p]);
    }
  }

  /** There is a unit in front of `p` whose first word is not null. */
  ghost predicate Marked(st: State, p: nat) {
    p >= PTR && p - PTR in st.home && p - PTR in st.word && st.word[p - PTR] != 0
  }

  /** `p` is the page of a slab, lent by the cache of a larger class. */
  ghost predicate IsPageObject(st: State, p: nat) {
    p >= PTR && p - PTR in st.owner && st.owner[p - PTR].Page?
  }

  /** What the word in front of `p` tells ikmem_core_ptrsize. */
  lemma WordInFront(st: State, live: map<nat, nat>, p: nat)
    requires (p in live || Marked(st, p)) && LiveOk(st, live) && Inv(st, 0)
    ensures p >= PTR && p - PTR in st.word
    ensures var w := st.word[p - PTR];
            if w == 0 then
              p in live && p >= 2 * PTR && p - 2 * PTR in st.word && st.word[p - 2 * PTR] == Usable(st, p) >= live[p]
            else if !HasMagic(w) then p !in live && !IsPageObject(st, p)
            else
              && (p in live || IsPageObject(st, p)) && ClearLow(w) in st.slabs
              && var sl := st.slabs[ClearLow(w)];
              && sl.membase <= p - PTR < sl.membase + sl.memsize && sl.extra < |st.geo|
              && st.geo[sl.extra].objSize == (if p in live then Usable(st, p) else ClassSize(st, p - PTR))
              && (p in live ==> live[p] <= Usable(st, p))
  {
    hide LiveOk, Inv, SmallAt, LargeAt, Usable;
    if p in live { HeaderWord(st, live, p); } else { UnitWord(st, live, p); }
  }

  lemma UnitWord(st: State, live: map<nat, nat>, p: nat)
    requires p !in live && Marked(st, p) && LiveOk(st, live) && Inv(st, 0)
    ensures HasMagic(st.word[p - PTR]) <==> IsPageObject(st, p)
    ensures IsPageObject(st, p) ==>
              && ClearLow(st.word[p - PTR]) in st.slabs
              && var sl := st.slabs[ClearLow(st.word[p - PTR])];
              && sl.membase <= p - PTR < sl.membase + sl.memsize && sl.extra < |st.geo|
              && st.geo[sl.extra].objSize == ClassSize(st, p - PTR)
  {
    hide Inv, InuseOk, QueuesOk, MagazinesOk, ColorsOk, CalcsOk, BlocksOk, NodesOk, PagesOk, DefaultPagesOk, Shape,
         HomeOk, SlabsOk, FreeOk, SmallAt, LargeAt, LinksOk;
    var u := p - PTR;
    Ready(st);
    UnitPlace(st, u);
    HomesInSlabs(st);
    if u in st.owner {
      assert u in Loans(st) <==> st.owner[u].Client? || st.owner[u].Hand?;
    } else {
      FreeWord(st, u);
    }
  }

  /** A unit on a free list starts with the address of the next one, if any. */
  lemma FreeWord(st: State, u: nat)
    requires SlabsOk(st) && HomeOk(st) && FreeOk(st) && u in st.home && u !in st.owner
    ensures u in st.word && st.word[u] % 8 == 0
  {
    var s := st.home[u];
    assert FreeListOk(st, s);
    var i :| 0 <= i < |st.free[s]| && st.free[s][i] == u;
    assert Linked(st.free[s], st.word, i);
    if i + 1 < |st.free[s]| {
      assert st.free[s][i + 1] in st.home;
    }
  }

  lemma LargeWord(st: State, p: nat, n: nat)
    requires LargeAt(st, p, n)
    ensures p >= LARGE_HEAD && p - PTR in st.word && st.word[p - PTR] == 0
    ensures p - LARGE_HEAD in st.large && p - 2 * PTR in st.word && st.word[p - 2 * PTR] == Usable(st, p)
            && n <= Usable(st, p)
  {
  }

  ghost predicate SmallHeader(st: State, p: nat, n: nat) {
    && p >= 2 * PTR && p - PTR in st.word && st.word[p - PTR] != 0 && HasMagic(st.word[p - PTR]) && n <= Usable(st, p)
    && var slab := ClearLow(st.word[p - PTR]);
    && slab in st.slabs && st.slabs[slab].extra < |st.geo| && st.geo[st.slabs[slab].extra].objSize == Usable(st, p)
    && st.slabs[slab].membase <= p - PTR < st.slabs[slab].membase + st.slabs[slab].memsize
    && ClassOfObject(st, p) == st.slabs[slab].extra && Lent(st, p, ClassOfObject(st, p))
  }

  lemma SmallWord(st: State, p: nat, n: nat)
    requires SmallAt(st, p, n) && OneKind(st, p) && Inv(st, 0)
    ensures SmallHeader(st, p, n)
  {
    hide Inv, FreeOk, InuseOk, QueuesOk, MagazinesOk, ColorsOk, CalcsOk, BlocksOk, NodesOk, PagesOk, DefaultPagesOk,
         Shape, HomeOk;
    Ready(st);
    UnitPlace(st, p - PTR);
  }

  lemma UnitPlace(st: State, u: nat)
    requires Shape(st) && u in st.home
    ensures st.home[u] in st.slabs
    ensures var sl := st.slabs[st.home[u]]; u >= PTR && sl.membase <= u < sl.membase + sl.memsize
    ensures st.home[u] > 0 && st.home[u] % 8 == 0
  {
    hide PagesOk, PagesOnce, DefaultPagesOk, Spaced;
    assert UnitIn(st.geo, st.slabs[st.home[u]], u);
    assert SlabOk(st.geo, st.home[u], st.slabs[st.home[u]]);
    assert LinkOk(st.pg, st.geo, st.slabs[st.home[u]].extra);
  }

  lemma PickedHolds(geo: seq<Geom>, size: nat, r: Option<nat>)
    requires Picked(geo, size, r) && r.Some?
    ensures r.value < |geo| && size <= geo[r.value].objSize
  {
  }

  lemma BytesSame(st: State, live: map<nat, nat>)
    ensures forall q :: q in live ==> SameBytes(st, st, q, live[q])
  {
  }

  lemma BytesThrough(st: State, was: State, st': State, live: map<nat, nat>)
    requires forall q :: q in live ==> SameBytes(st, was, q, live[q])
    requires forall q :: q in live ==> SameBytes(was, st', q, live[q])
    ensures forall q :: q in live ==> SameBytes(st, st', q, live[q])
  {
    hide SameBytes;
    forall q | q in live ensures SameBytes(st, st', q, live[q]) {
      Through(st, was, st', q, live[q]);
    }
  }


  lemma AllCounted(st: State, c: nat)
    requires c < |st.geo| && CountedUpTo(st, |st.geo| - 1)
    ensures CountedUpTo(st, c)
  {
    hide CountsOk;
  }

  ghost predicate LargeDone(st: State, st': State, live: map<nat, nat>, lent: seq<nat>, inuse: int, b: nat, size: nat)
  {
    && b + LARGE_HEAD !in live && LiveOk(st', live[b + LARGE_HEAD := size]) && Tallied(st', lent, inuse)
    && Usable(st', b + LARGE_HEAD) == size
    && forall q :: q in live ==> SameBytes(st, st', q, live[q])
  }

  lemma LargeStep(st: State, st': State, live: map<nat, nat>, lent: seq<nat>, inuse: int, b: nat, size: nat)
    requires b !in st.large && LargeTaken(st, st', b, size) && LiveOk(st, live) && Tallied(st, lent, inuse)
    requires Inv(st, 0) && Inv(st', 0)
    ensures LargeDone(st, st', live, lent, inuse, b, size)
  {
    hide Inv, LiveOk, Tallied, SameBytes, SmallAt, LargeAt, Kept, Loans, LinksOk;
    LinksAt(st);
    GotLarge(st, st', live, b, size);
    TallyKept(st, st', lent, inuse);
  }

  /** A cache operation that ends with the loans it began with. */
  lemma QuietStep(st: State, st': State, live: map<nat, nat>, lent: seq<nat>, inuse: int, c: nat)
    requires Frame(st, st', c) && Loans(st') == Loans(st) && LiveOk(st, live) && Tallied(st, lent, inuse)
    requires CountedUpTo(st, |st.geo| - 1) && CountedUpTo(st', c) && Inv(st, 0) && Inv(st', 0)
    ensures st'.geo == st.geo && st'.pg == st.pg
    ensures CountedUpTo(st', |st.geo| - 1) && LiveOk(st', live) && Tallied(st', lent, inuse)
    ensures forall q :: q in live ==> SameBytes(st, st', q, live[q])
  {
    hide Inv, Tallied, CountedUpTo, Kept, Loans, LinksOk, Above, Frame, LiveOk, SameBytes, SmallAt, LargeAt, StillLive;
    LinksAt(st);
    FrameParts(st, st', c);
    CountedThrough(st, st', c, |st.geo| - 1);
    TallyKept(st, st', lent, inuse);
    OthersLive(st, st', live, {});
    LiveSame(st, st', live);
  }

  lemma FrameParts(st: State, st': State, c: int)
    requires Frame(st, st', c)
    ensures Above(st, st', c) && Kept(st, st') && st'.geo == st.geo && st'.pg == st.pg && st'.large == st.large
  {
    hide Kept, LooseNodes;
  }

  /** The live objects of one heap are those of the next, with the same loans and blocks. */
  lemma LiveSame(st: State, st': State, live: map<nat, nat>)
    requires LiveOk(st, live) && Loans(st') == Loans(st) && st'.large == st.large
    requires forall p :: p in live ==> StillLive(st, st', p, live[p])
    ensures LiveOk(st', live) && forall q :: q in live ==> SameBytes(st, st', q, live[q])
  {
    hide SmallAt, LargeAt, SameBytes, Loans;
  }

  /** What a call for an object of cache `c` did: nothing to the live objects, and at most one new one. */
  ghost predicate SmallDone(st: State, st': State, live: map<nat, nat>, lent: seq<nat>, inuse: int, c: nat, ptr: nat,
                            size: nat)
  {
    && st'.geo == st.geo && st'.pg == st.pg && c < |st.geo| && CountedUpTo(st', |st.geo| - 1)
    && (if ptr == 0 then LiveOk(st', live) && Tallied(st', lent, inuse)
        else ptr >= PTR && ptr !in live && LiveOk(st', live[ptr := size])
             && Tallied(st', [ptr - PTR] + lent, inuse + st.geo[c].objSize) && Usable(st', ptr) == st.geo[c].objSize)
    && forall q :: q in live ==> SameBytes(st, st', q, live[q])
  }

  lemma SmallStep(st: State, st': State, live: map<nat, nat>, lent: seq<nat>, inuse: int, c: nat, ptr: nat, size: nat)
    requires c < |st.geo| && size <= st.geo[c].objSize && Frame(st, st', c)
    requires if ptr == 0 then Loans(st') == Loans(st) else GotUnit(st, st', c, ptr, Client)
    requires LiveOk(st, live) && Tallied(st, lent, inuse)
    requires CountedUpTo(st, |st.geo| - 1) && CountedUpTo(st', c) && Inv(st, 0) && Inv(st', 0)
    ensures SmallDone(st, st', live, lent, inuse, c, ptr, size)
  {
    hide Inv, Tallied, CountedUpTo, Kept, Loans, LooseNodes, LinksOk, LiveOk, SameBytes, SmallAt, LargeAt, Above;
    if ptr == 0 {
      QuietStep(st, st', live, lent, inuse, c);
    } else {
      LinksAt(st);
      FrameAbove(st, st', c);
      LargeSame(st, st', c);
      CountedThrough(st, st', c, |st.geo| - 1);
      GotSmall(st, st', live, c, ptr, size);
      OneMoreLoan(st, st', c, ptr);
      KindsApart(st', ptr);
      TallyMore(st, st', lent, inuse, ptr - PTR);
    }
  }

  lemma LargeSame(st: State, st': State, c: int)
    requires Frame(st, st', c)
    ensures st'.large == st.large && st'.geo == st.geo && st'.pg == st.pg && Kept(st, st')
  {
    hide Kept, LooseNodes;
  }

  lemma OneMoreLoan(st: State, st': State, c: nat, ptr: nat)
    requires GotUnit(st, st', c, ptr, Client) && c < |st.geo| && st'.geo == st.geo
    ensures ptr >= PTR && ptr - PTR !in Loans(st) && Loans(st').Keys == Loans(st).Keys + {ptr - PTR}
    ensures ClassSize(st', ptr - PTR) == st.geo[c].objSize
  {
    hide Loans;
  }

  lemma LinksAt(st: State)
    requires Inv(st, 0)
    ensures LinksOk(st.pg, st.geo)
  {
    hide Inv, LinksOk;
    Ready(st);
  }

  // ---------- freeing ----------

  /** `p` was freed and every other object is as it was. */
  ghost predicate FreeDone(st: State, st': State, live: map<nat, nat>, lent: seq<nat>, inuse: int, p: nat) {
    && st'.geo == st.geo && st'.pg == st.pg && CountedUpTo(st', |st.geo| - 1)
    && LiveOk(st', live - {p}) && Tallied(st', lent, inuse)
    && (forall q :: q in live && q != p ==> Usable(st', q) == Usable(st, q))
    && forall q :: q in live && q != p ==> SameBytes(st, st', q, live[q])
  }

  lemma Freed(st: State, st': State, live: map<nat, nat>, lent: seq<nat>, inuse: int, p: nat)
    requires FreeDone(st, st', live, lent, inuse, p)
    ensures st'.geo == st.geo && st'.pg == st.pg && CountedUpTo(st', |st.geo| - 1)
    ensures LiveOk(st', live - {p}) && Tallied(st', lent, inuse)
    ensures forall q :: q in live - {p} ==> Usable(st', q) == Usable(st, q)
    ensures forall q :: q in live - {p} ==> SameBytes(st, st', q, (live - {p})[q])
  {
    hide LiveOk, Tallied, CountedUpTo, SameBytes;
  }

  lemma JustBytes(st: State, st': State, live: map<nat, nat>, p: nat)
    requires OthersStill(st, st', live, p)
    ensures forall q :: q in live && q != p ==> SameBytes(st, st', q, live[q])
  {
    hide SmallAt, LargeAt, SameBytes;
  }

  lemma FreeLargeStep(st: State, st': State, live: map<nat, nat>, lent: seq<nat>, inuse: int, p: nat)
    requires p in live && p >= LARGE_HEAD && p - LARGE_HEAD in st.large && LiveOk(st, live) && Tallied(st, lent, inuse)
    requires st' == st.(large := st.large - {p - LARGE_HEAD}) && Loans(st') == Loans(st)
    requires CountedUpTo(st', |st.geo| - 1) && Inv(st, 0)
    ensures FreeDone(st, st', live, lent, inuse, p)
  {
    hide Inv, LiveOk, Tallied, CountedUpTo, SameBytes, Kept, Loans, OneKind, OthersStill, LinksOk;
    KindsApart(st, p);
    LinksAt(st);
    LargeDropped(st, st');
    GoneLarge(st, st', live, p);
    TallyKept(st, st', lent, inuse);
    JustBytes(st, st', live, p);
  }

  lemma LargeDropped(st: State, st': State)
    requires st' == st.(large := st'.large) && Inv(st, 0)
    ensures Kept(st, st')
  {
    hide Inv, Shape;
    Ready(st);
    hide HomeOk;
    forall u | u in Loans(st) && u in Loans(st') ensures SameLoan(st, st', u) {
      HomesInSlabs(st);
    }
  }

  lemma FreeSmallStep(st: State, st': State, live: map<nat, nat>, lent: seq<nat>, inuse: int, c: nat, p: nat)
    requires p in live && LiveOk(st, live) && Tallied(st, lent, inuse) && SmallHeader(st, p, live[p])
             && c == ClassOfObject(st, p)
    requires Frame(st, st', c) && p >= PTR && Loans(st') == Loans(st) - {p - PTR}
    requires CountedUpTo(st, |st.geo| - 1) && CountedUpTo(st', c) && Inv(st, 0) && Inv(st', 0)
    ensures c < |st.geo| && FreeDone(st, st', live, Remove(lent, p - PTR), inuse - st.geo[c].objSize, p)
  {
    hide Inv, LiveOk, Tallied, CountedUpTo, SameBytes, Kept, Loans, OneKind, OthersStill, LinksOk, Frame, Above;
    KindsApart(st, p);
    LinksAt(st);
    FrameAbove(st, st', c);
    LargeSame(st, st', c);
    CountedThrough(st, st', c, |st.geo| - 1);
    LentLoan(st, p, c);
    GoneSmall(st, st', live, p);
    forall q | q in live && q != p ensures Usable(st', q) == Usable(st, q) { RoomStays(st, st', live, p, q); }
    TallyLess(st, st', lent, inuse, p - PTR);
    JustBytes(st, st', live, p);
  }

  /** The room of an object that stays on loan, or in its large block, stays the same. */
  lemma RoomStays(st: State, st': State, live: map<nat, nat>, p: nat, q: nat)
    requires q in live && q != p && LiveOk(st, live) && Kept(st, st') && st'.geo == st.geo && st'.large == st.large
    requires p >= PTR && Loans(st') == Loans(st) - {p - PTR}
    ensures Usable(st', q) == Usable(st, q)
  {
    hide SameWords;
    LiveKind(st, live, q);
    if SmallAt(st, q, live[q]) {
      assert q - PTR in Loans(st) && q - PTR in Loans(st');
      assert SameLoan(st, st', q - PTR);
    }
  }

  lemma LentLoan(st: State, p: nat, c: nat)
    requires Lent(st, p, c) && c < |st.geo|
    ensures p - PTR in Loans(st) && ClassSize(st, p - PTR) == st.geo[c].objSize
  {
  }

  // ---------- stores, copies and moves ----------

  function Min(a: nat, b: nat): nat {
    if a < b then a else b
  }

  predicate SameByte(word: map<nat, nat>, word': map<nat, nat>, p: nat, q: nat, i: nat) {
    p + i in word ==> q + i in word' && word'[q + i] == word[p + i]
  }

  /** What was stored in the first `n` bytes of `p` is now stored in the first `n` bytes of `q`. */
  ghost predicate SamePrefix(st: State, st': State, p: nat, q: nat, n: nat) {
    forall i {:trigger SameByte(st.word, st'.word, p, q, i)} :: 0 <= i < n ==> SameByte(st.word, st'.word, p, q, i)
  }

  lemma Through(st: State, was: State, st': State, p: nat, n: nat)
    requires SameBytes(st, was, p, n) && SameBytes(was, st', p, n)
    ensures SameBytes(st, st', p, n)
  {
    forall a | p <= a < p + n
      ensures (a in st'.word <==> a in st.word) && (a in st.word ==> st'.word[a] == st.word[a])
    {
      assert a in was.word <==> a in st.word;
    }
  }

  lemma ByteOf(st: State, st': State, p: nat, n: nat, i: nat)
    requires SameBytes(st, st', p, n) && i < n
    ensures p + i in st'.word <==> p + i in st.word
    ensures p + i in st.word ==> st'.word[p + i] == st.word[p + i]
  {
  }

  lemma NotHome(st: State, a: nat)
    requires !AllocatorWord(st, a)
    ensures a !in st.home
  {
  }

  lemma PokeStep(st: State, st': State, live: map<nat, nat>, lent: seq<nat>, inuse: int, p: nat, i: nat, v: nat)
    requires p in live && i < live[p] && LiveOk(st, live) && Tallied(st, lent, inuse) && !AllocatorWord(st, p + i)
    requires st' == st.(word := st.word[p + i := v]) && Loans(st') == Loans(st) && Inv(st, 0)
    ensures LiveOk(st', live) && Tallied(st', lent, inuse)
    ensures forall q :: q in live && q != p ==> SameBytes(st, st', q, live[q])
  {
    hide Inv, LiveOk, Tallied, Loans, AllocatorWord;
    PokeLive(st, st', live, p + i, v);
    PokeTally(st, st', lent, inuse);
    forall q | q in live && q != p ensures SameBytes(st, st', q, live[q]) {
      LiveDisjoint(st, live, p, q);
    }
  }

  lemma PokeLive(st: State, st': State, live: map<nat, nat>, a: nat, v: nat)
    requires LiveOk(st, live) && !AllocatorWord(st, a) && st' == st.(word := st.word[a := v]) && Loans(st') == Loans(st)
    ensures LiveOk(st', live)
  {
    hide Loans, AllocatorWord, SmallAt, LargeAt;
    forall p | p in live ensures SmallAt(st', p, live[p]) || LargeAt(st', p, live[p]) {
      if SmallAt(st, p, live[p]) { PokeSmall(st, st', p, live[p]); } else { PokeLarge(st, st', a, v, p, live[p]); }
    }
  }

  lemma PokeSmall(st: State, st': State, p: nat, n: nat)
    requires SmallAt(st, p, n) && st' == st.(word := st'.word) && Loans(st') == Loans(st)
    ensures SmallAt(st', p, n)
  {
    hide Loans;
  }

  lemma PokeLarge(st: State, st': State, a: nat, v: nat, p: nat, n: nat)
    requires LargeAt(st, p, n) && !AllocatorWord(st, a) && st' == st.(word := st.word[a := v])
    ensures LargeAt(st', p, n)
  {
    var b: nat := p - LARGE_HEAD;
    assert b in st.large;
  }

  lemma PokeTally(st: State, st': State, lent: seq<nat>, inuse: int)
    requires Tallied(st, lent, inuse) && st' == st.(word := st'.word) && Loans(st') == Loans(st)
    ensures Tallied(st', lent, inuse)
  {
    hide Loans;
    TotalSame(st, st', lent);
  }

  lemma NoPrefix(st: State, p: nat, q: nat)
    ensures forall n :: SamePrefix(st, st, p, q, Min(0, n))
  {
  }

  lemma CopiedOne(st: State, before: State, after: State, live: map<nat, nat>, from: nat, to: nat, i: nat)
    requires to in live && from in live && to != from
    requires SamePrefix(st, before, from, to, Min(i, live[from]))
    requires forall q :: q in live && q != to ==> SameBytes(st, before, q, live[q])
    requires if from + i in before.word then
               after.word == before.word[to + i := before.word[from + i]]
               && forall q :: q in live && q != to ==> SameBytes(before, after, q, live[q])
             else after == before
    ensures SamePrefix(st, after, from, to, Min(i + 1, live[from]))
    ensures forall q :: q in live && q != to ==> SameBytes(st, after, q, live[q])
  {
    hide SameBytes;
    forall q | q in live && q != to ensures SameBytes(st, after, q, live[q]) {
      if from + i in before.word { Through(st, before, after, q, live[q]); }
    }
    forall k | 0 <= k < Min(i + 1, live[from]) ensures SameByte(st.word, after.word, from, to, k) {
      ByteOf(st, before, from, live[from], k);
      if k < i { assert SameByte(st.word, before.word, from, to, k); }
    }
  }

  lemma Resized(st: State, live: map<nat, nat>, p: nat, size: nat)
    requires p in live && LiveOk(st, live) && size <= Usable(st, p) && Inv(st, 0)
    ensures LiveOk(st, live[p := size]) && SamePrefix(st, st, p, p, Min(live[p], size))
    ensures forall q :: q in live && q != p ==> SameBytes(st, st, q, live[q])
  {
    hide Inv, Loans, OneKind;
    KindsApart(st, p);
    ResizedLive(st, live, p, size);
  }

  lemma ResizedLive(st: State, live: map<nat, nat>, p: nat, size: nat)
    requires p in live && LiveOk(st, live) && size <= Usable(st, p) && OneKind(st, p)
    ensures LiveOk(st, live[p := size])
  {
    OneResized(st, p, live[p], size) by { hide Usable, SmallAt, LargeAt, OneKind; LiveKind(st, live, p); }
    hide Loans, SmallAt, LargeAt, Usable, OneKind;
  }

  lemma OneResized(st: State, p: nat, n: nat, size: nat)
    requires (SmallAt(st, p, n) || LargeAt(st, p, n)) && size <= Usable(st, p) && OneKind(st, p)
    ensures SmallAt(st, p, size) || LargeAt(st, p, size)
  {
    hide Loans;
  }

  lemma BytesFreed(st: State, got: State, last: State, was: map<nat, nat>, live: map<nat, nat>, p: nat)
    requires p in was && live == was - {p}
    requires forall q :: q in was ==> SameBytes(st, got, q, was[q])
    requires forall q :: q in live ==> SameBytes(got, last, q, live[q])
    ensures forall q :: q in was && q != p ==> SameBytes(st, last, q, was[q])
  {
    hide SameBytes;
    forall q | q in was && q != p ensures SameBytes(st, last, q, was[q]) {
      assert q in live && live[q] == was[q];
      Through(st, got, last, q, was[q]);
    }
  }

  lemma Moved(st: State, got: State, copied: State, last: State, was: map<nat, nat>, both: map<nat, nat>,
              live: map<nat, nat>, p: nat, r: nat, oldsize: nat, size: nat)
    requires p in was && r !in was && both == was[r := size] && live == both - {p} && was[p] <= oldsize
    requires forall q :: q in was ==> SameBytes(st, got, q, was[q])
    requires SamePrefix(got, copied, p, r, Min(if oldsize < size then oldsize else size, both[p]))
    requires forall q :: q in both && q != r ==> SameBytes(got, copied, q, both[q])
    requires forall q :: q in live ==> SameBytes(copied, last, q, live[q])
    ensures SamePrefix(st, last, p, r, Min(was[p], size))
    ensures forall q :: q in was && q != p ==> SameBytes(st, last, q, was[q])
  {
    hide SameBytes;
    forall q | q in was && q != p ensures SameBytes(st, last, q, was[q]) {
      assert q in both && both[q] == was[q] && q in live && live[q] == was[q];
      Through(st, got, copied, q, was[q]);
      Through(st, copied, last, q, was[q]);
    }
    assert r in live && live[r] == size;
    forall i | 0 <= i < Min(was[p], size) ensures SameByte(st.word, last.word, p, r, i) {
      ByteOf(st, got, p, was[p], i);
      ByteOf(copied, last, r, size, i);
      assert SameByte(got.word, copied.word, p, r, i);
    }
  }

  // ---------- whole runs ----------

  ghost predicate AllApart(live: map<nat, nat>) {
    forall p, q :: p in live && q in live && p != q ==> Apart(p, live[p], q, live[q])
  }

  lemma LiveApart(a: Allocator)
    requires a.Valid()
    ensures AllApart(a.live) && 0 !in a.live
  {
    hide LiveOk, Inv, Tallied, CountedUpTo, SizesOk, LookupOk, Covered, TableOk, SuppliersRoomy, SuppliersCheapest,
         BuiltIn, OwnClasses;
    NullNotLive(a.heap.S(), a.live);
    forall p, q | p in a.live && q in a.live && p != q ensures Apart(p, a.live[p], q, a.live[q]) {
      LiveDisjoint(a.heap.S(), a.live, p, q);
    }
  }

  lemma Tally(a: Allocator)
    requires a.Valid()
    ensures Tallied(a.heap.S(), a.lent, a.inuse)
  {
    hide LiveOk, Inv, Tallied, CountedUpTo, SizesOk, LookupOk, Covered, TableOk, SuppliersRoomy, SuppliersCheapest,
         BuiltIn, OwnClasses;
  }

  /** Any sequence of calls, on any processors, by clients that start with nothing: the live objects
    * never overlap, and ikmem_inuse is the sum of the class sizes of the small ones.
    */
  method Run(a: Allocator, steps: nat)
    requires a.live == map[] && a.Valid()
    modifies a, a.heap
    ensures AllApart(a.live) && Tallied(a.heap.S(), a.lent, a.inuse)
    ensures a.Valid()
  {
    hide LiveOk, Inv, CountedUpTo, Tallied, Allocator.Valid, SameBytes, SamePrefix, Picked, AllApart;
    var i := 0;
    var sizes: map<nat, nat> := map[];
    while i < steps
      invariant a.Valid() && sizes == a.live
    {
      LiveApart(a);
      var cpu: nat :| cpu < LRU_COUNT;
      var size: nat :| size <= SIZE_LIMIT;
      if {
        case size > 0 =>
          var r := a.Malloc(size, cpu);
          if r != 0 { sizes := sizes[r := size]; }
        case sizes != map[] =>
          var p :| p in sizes;
          a.Free(p, cpu);
          sizes := sizes - {p};
        case sizes != map[] =>
          var p :| p in sizes;
          var r := a.Realloc(p, size, cpu);
          sizes := if r == 0 then sizes - {p} else (sizes - {p})[r := size];
        case sizes != map[] =>
          var p :| p in sizes;
          var at, v: nat := *, *;
          if at < sizes[p] { a.Poke(p, at, v); }
        case true =>
          a.Shrink(cpu);
      }
      i := i + 1;
    }
    Tally(a);
    LiveApart(a);
  }
}
