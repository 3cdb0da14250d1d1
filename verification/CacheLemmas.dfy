/** Lemmas about the operations of a slab cache, one heap to the next: what each call obtained, what it gave
  * back, and how the invariant, the frame and the counters carry through a sequence of calls.
  */
module CacheLemmas {
  import opened Layout
  import opened KmemState
  import opened Forest
  import opened Steps
  import opened SlabSteps
  import opened Frames
  import opened Counters
  import opened Environment
  import opened ListOps

  /** Unit `u` belongs to cache `c`. */
  ghost predicate InCache(st: State, u: nat, c: nat) {
    u in st.home && st.home[u] in st.slabs && st.slabs[st.home[u]].extra == c
  }

  /** A call obtained `page` for cache `c`: nobody else uses it, and if a supplier lent it, that is a new loan. */
  ghost predicate GotPage(st: State, st': State, c: nat, page: nat) {
    && c < |st.geo| && st'.geo == st.geo && page % 8 == 0
    && SlabsOk(st') && HomeOk(st') && Vacant(st', c, page)
    && match st.geo[c].gfp
       case None => Loans(st') == Loans(st)
       case Some(_) => page >= PTR && page - PTR !in Loans(st) && Loans(st') == Loans(st)[page - PTR := Client]
  }

  /** A call obtained one unit of cache `c` that was not on loan; its object starts at `ptr`. */
  ghost predicate GotUnit(st: State, st': State, c: nat, ptr: nat, o: Owner) {
    && ptr >= PTR && ptr - PTR !in Loans(st) && Loans(st') == Loans(st)[ptr - PTR := o]
    && InCache(st', ptr - PTR, c)
  }

  // ---------- the tag in the header word ----------

  /** `w | IMCACHE_CHECK_MAGIC`, by the low three bits of `w`. */
  function OrMagic(w: nat): nat {
    w - w % 8 + [5, 5, 7, 7, 5, 5, 7, 7][w % 8]
  }

  /** `(w & IMCACHE_CHECK_MAGIC) == IMCACHE_CHECK_MAGIC` */
  predicate HasMagic(w: nat) {
    w % 8 == 5 || w % 8 == 7
  }

  /** `w & ~(IMROUNDSIZE - 1)` */
  function ClearLow(w: nat): nat {
    w - w % 8
  }

  /** These three are the bit operations of the source on the low byte, which is all that they change. */
  lemma MagicBits(b: bv8)
    ensures OrMagic(b as nat) == (b | 5) as nat
    ensures HasMagic(b as nat) <==> b & 5 == 5
    ensures ClearLow(b as nat) == (b & 0xF8) as nat
  {
    LowBits(b);
    var low := (b & 7) as nat;
    assert low == 0 || low == 1 || low == 2 || low == 3 || low == 4 || low == 5 || low == 6 || low == 7;
  }

  lemma LowBits(b: bv8)
    ensures (b & 7) as nat == b as nat % 8 && (b & 0xF8) as nat == b as nat - b as nat % 8
  {
  }

  lemma LentFacts(st: State, ptr: nat, c: nat)
    requires Lent(st, ptr, c) && Inv(st, 0)
    ensures ptr >= PTR && ptr - PTR in st.word && ptr - PTR in st.home
    ensures st.word[ptr - PTR] == st.home[ptr - PTR] + MAGIC && st.home[ptr - PTR] % 8 == 0
    ensures st.home[ptr - PTR] in st.slabs && st.slabs[st.home[ptr - PTR]].extra == c
    ensures CanPass(st, ptr - PTR, Hand)
  {
    hide Inv, HomeOk, FreeOk, InuseOk, QueuesOk, MagazinesOk, ColorsOk, CalcsOk, Shape, NodesOk, BlocksOk;
    Parts(st, 0);
  }

  lemma Collected(st: State, bare: State, c: nat, ptr: nat)
    requires Lent(st, ptr, c) && ptr >= PTR && ptr - PTR in st.home
    requires bare == Pass(st, ptr - PTR, Hand)
    requires CountedUpTo(st, c) && Inv(st, 0)
    ensures c < |bare.caches| && bare.caches == st.caches
    ensures InHand(bare, ptr, c) && CountedUpTo(bare, c) && Frame(st, bare, c) && Inv(bare, 0)
    ensures Loans(bare) == Loans(st)[ptr - PTR := Hand]
  {
    hide Inv, Frame, Loans, CountsOk, CountedUpTo, SlabsOk, HomeOk, FreeOk, Shape, NodesOk, BlocksOk, HeadsOk, InuseOk,
         QueuesOk, MagazinesOk, ColorsOk, CalcsOk;
    LentFacts(st, ptr, c);
    Parts(st, 0);
    QueuedWhere(st.caches, st.slabs, 0, st.home[ptr - PTR]);
    PassKeepsInv(st, ptr - PTR, Hand);
    assert st.caches == st.caches[c := st.caches[c]];
    PassFrame(st, ptr - PTR, Hand, c, st.caches[c]);
    CountedSame(st, bare, c);
  }

  lemma HandLoad(st: State, c: nat, k: nat, ptr: nat)
    requires InHand(st, ptr, c) && c < |st.caches| && c < |st.geo| && k < LRU_COUNT && |st.caches[c].lru| == LRU_COUNT
    requires |st.caches[c].lru[k]| < st.geo[c].lruLimit
    requires Inv(st, 0)
    ensures ptr >= PTR && CanLoad(st, c, k, ptr - PTR)
  {
    hide Inv;
  }

  /** After list allocation: the loans grew by the unit obtained, if any. */
  lemma FrameGot(st: State, was: State, got: State, c: nat, ptr: nat)
    requires Frame(st, was, c) && Frame(was, got, c) && Loans(was) == Loans(st)
    requires if ptr == 0 then Loans(got) == Loans(was) else GotUnit(was, got, c, ptr, Hand)
    ensures Frame(st, got, c) && Loans(was).Keys <= Loans(got).Keys
    ensures ptr != 0 ==> ptr >= PTR && Loans(got) - {ptr - PTR} == Loans(was)
  {
    hide Frame, Loans;
    FrameChain(st, was, got, c);
  }

  lemma GotOne(was: State, got: State, c: nat, k: nat, ptr: nat)
    requires GotUnit(was, got, c, ptr, Hand) && c < |got.caches| && c < |got.geo| && k < LRU_COUNT
    requires |got.caches[c].lru| == LRU_COUNT && |got.caches[c].lru[k]| < got.geo[c].lruLimit
    ensures ptr >= PTR && CanLoad(got, c, k, ptr - PTR)
  {
    assert ptr - PTR in Loans(got) && Loans(got)[ptr - PTR] == Hand;
  }

  /** The header word of an untagged unit already points to its slab. */
  lemma HeadStill(st: State, u: nat)
    requires HeadsOk(st) && u in st.home && u in st.owner && Tag(st.owner[u]) == 0
    ensures st.word[u := st.home[u]] == st.word
  {
  }

  /** Putting a unit in hand into a magazine. */
  lemma Loaded(got: State, last: State, c: nat, k: nat, ptr: nat)
    requires c < |got.caches| && ptr >= PTR && CanLoad(got, c, k, ptr - PTR)
    requires var cache := got.caches[c];
             last == got.(caches := got.caches[c := cache.(lru := cache.lru[k := cache.lru[k] + [ptr]])],
                          owner := got.owner[ptr - PTR := Magazine(c, k)])
    requires CountedUpTo(got, c) && Inv(got, 0)
    ensures CountedUpTo(last, c) && Frame(got, last, c) && Loans(last) == Loans(got) - {ptr - PTR} && Inv(last, 0)
  {
    hide Inv, Frame, FrameBut, Loans, CountsOk, SlabsOk, HomeOk, FreeOk, Shape, HeadsOk, CountedUpTo, NodesOk,
         BlocksOk, InuseOk, QueuesOk, MagazinesOk, ColorsOk, CalcsOk;
    var u := ptr - PTR;
    Parts(got, 0);
    HeadStill(got, u);
    assert last == Load(got, c, k, u);
    LoadKeepsInv(got, c, k, u);
    PassFrame(got, u, Magazine(c, k), c, last.caches[c]);
    CountedLru(got, last, c);
  }

  lemma CountedLru(st: State, st': State, c: nat)
    requires CountedUpTo(st, c) && c < |st.caches| == |st'.caches| && st'.free == st.free
    requires st'.caches == st.caches[c := st.caches[c].(lru := st'.caches[c].lru)]
    ensures CountedUpTo(st', c)
  {
    assert CountsOk(st.caches[c], st.free);
    hide FreeSum;
    assert CountsOk(st'.caches[c], st'.free);
    hide CountsOk;
  }

  // ---------- taking a unit out of a magazine ----------

  /** `e` is an entry of magazine `k`: an untagged unit of `c` that nobody has on loan. */
  ghost predicate Entry(st: State, c: nat, k: nat, e: nat) {
    && e >= PTR && e - PTR in st.home && e - PTR in st.owner && st.owner[e - PTR] == Magazine(c, k)
    && e - PTR in st.word && st.word[e - PTR] == st.home[e - PTR] && st.home[e - PTR] % 8 == 0
    && InCache(st, e - PTR, c) && e - PTR !in Loans(st)
  }

  lemma TopEntry(st: State, c: nat, k: nat)
    requires c < |st.caches| && k < LRU_COUNT && |st.caches[c].lru| == LRU_COUNT && st.caches[c].lru[k] != []
             && Inv(st, 0)
    ensures var q := st.caches[c].lru[k]; q[|q| - 1] >= PTR && Entry(st, c, k, q[|q| - 1])
  {
    hide Inv, HomeOk, FreeOk, InuseOk, QueuesOk, MagazinesOk, ColorsOk, CalcsOk, Shape, NodesOk, BlocksOk;
    Parts(st, 0);
    UnloadReady(st, c, k);
  }

  lemma Taken(was: State, taken: State, c: nat, k: nat, e: nat)
    requires c < |was.caches| && k < LRU_COUNT && |was.caches[c].lru| == LRU_COUNT && was.caches[c].lru[k] != []
    requires var q := was.caches[c].lru[k];
             && e == q[|q| - 1] && e >= PTR
             && taken == was.(caches := was.caches[c := was.caches[c].(lru := was.caches[c].lru[k := q[..|q| - 1]])],
                              owner := was.owner[e - PTR := Hand])
    requires CountedUpTo(was, c) && Inv(was, 0)
    ensures c < |taken.caches| && InHand(taken, e, c) && CountedUpTo(taken, c) && Frame(was, taken, c) && Inv(taken, 0)
    ensures e - PTR !in Loans(was) && Loans(taken) == Loans(was)[e - PTR := Hand]
  {
    hide Inv, Frame, Loans, CountsOk, CountedUpTo, HeadsOk;
    TopEntry(was, c, k);
    UnloadStep(was, c, k, e);
    StillHeads(was, e - PTR);
  }

  lemma StillHeads(was: State, u: nat)
    requires u in was.home && u in was.owner && Tag(was.owner[u]) == 0 && Inv(was, 0)
    ensures was.word[u := was.home[u]] == was.word
  {
    hide Inv, HeadsOk;
    Ready(was);
    HeadStill(was, u);
  }

  lemma Flushed(st: State, was: State, taken: State, last: State, c: nat, e: nat)
    requires Frame(st, was, c) && Frame(was, taken, c) && Frame(taken, last, c) && e >= PTR
    requires Loans(was) == Loans(st) && e - PTR !in Loans(was) && Loans(taken) == Loans(was)[e - PTR := Hand]
    requires Loans(last) == Loans(taken) - {e - PTR}
    ensures Frame(st, last, c) && Loans(last) == Loans(st)
  {
    hide Frame, Loans;
    FrameChain(was, taken, last, c);
    FrameChain(st, was, last, c);
  }

  /** imemcache_alloc's last steps: the top entry leaves the magazine, is tagged, and is the client's. */
  lemma Delivered(filled: State, last: State, c: nat, k: nat, ptr: nat)
    requires c < |filled.caches| && k < LRU_COUNT && |filled.caches[c].lru| == LRU_COUNT
             && filled.caches[c].lru[k] != []
    requires var q := filled.caches[c].lru[k];
             && ptr == q[|q| - 1] && ptr >= PTR && ptr - PTR in filled.word
             && var cache := filled.caches[c];
             last == filled.(caches := filled.caches[c := cache.(lru := cache.lru[k := q[..|q| - 1]])],
                                word := filled.word[ptr - PTR := OrMagic(filled.word[ptr - PTR])],
                                owner := filled.owner[ptr - PTR := Client])
    requires CountedUpTo(filled, c) && Inv(filled, 0)
    ensures CountedUpTo(last, c) && Frame(filled, last, c) && GotUnit(filled, last, c, ptr, Client) && Inv(last, 0)
  {
    hide Inv, Frame, FrameBut, Loans, CountsOk, CountedUpTo;
    TopEntry(filled, c, k);
    var u := ptr - PTR;
    var taken := Unload(filled, c, k);
    hide Entry;
    assert last == Pass(taken, u, Client) by { hide InCache; assert Entry(filled, c, k, ptr); }
    UnloadStep(filled, c, k, ptr);
    DeliverStep(taken, last, c, u);
    FrameChain(filled, taken, last, c);
  }

  lemma UnloadStep(filled: State, c: nat, k: nat, ptr: nat)
    requires c < |filled.caches| && k < LRU_COUNT && |filled.caches[c].lru| == LRU_COUNT
             && filled.caches[c].lru[k] != []
    requires ptr == filled.caches[c].lru[k][|filled.caches[c].lru[k]| - 1] && Entry(filled, c, k, ptr)
    requires CountedUpTo(filled, c) && Inv(filled, 0)
    ensures var taken := Unload(filled, c, k);
            && c < |taken.caches| && InHand(taken, ptr, c) && CountedUpTo(taken, c) && Frame(filled, taken, c)
            && Loans(taken) == Loans(filled)[ptr - PTR := Hand] && Inv(taken, 0)
  {
    hide Inv, Frame, Loans, CountsOk, SlabsOk, HomeOk, FreeOk, Shape, HeadsOk, CountedUpTo, NodesOk, BlocksOk, InuseOk,
         QueuesOk, MagazinesOk, ColorsOk, CalcsOk;
    var taken := Unload(filled, c, k);
    UnloadKeepsInv(filled, c, k);
    Parts(filled, 0);
    PassFrame(filled, ptr - PTR, Hand, c, taken.caches[c]);
    CountedLru(filled, taken, c);
  }

  lemma DeliverStep(taken: State, last: State, c: nat, u: nat)
    requires c < |taken.caches| && InHand(taken, u + PTR, c) && u in taken.home && last == Pass(taken, u, Client)
    requires CountedUpTo(taken, c) && Inv(taken, 0)
    ensures CountedUpTo(last, c) && Frame(taken, last, c) && Loans(last) == Loans(taken)[u := Client]
            && InCache(last, u, c)
    ensures Inv(last, 0)
  {
    hide Inv, Frame, Loans, CountsOk, SlabsOk, HomeOk, FreeOk, Shape, HeadsOk, CountedUpTo, NodesOk, BlocksOk, InuseOk,
         QueuesOk, MagazinesOk, ColorsOk, CalcsOk;
    PassKeepsInv(taken, u, Client);
    Parts(taken, 0);
    assert taken.caches == taken.caches[c := taken.caches[c]];
    PassFrame(taken, u, Client, c, taken.caches[c]);
    CountedSame(taken, last, c);
  }

  lemma CountedSame(st: State, st': State, c: int)
    requires CountedUpTo(st, c) && st'.caches == st.caches && st'.free == st.free
    ensures CountedUpTo(st', c)
  {
    hide CountsOk;
  }

  lemma StillInHand(st: State, st': State, ptr: nat, c: nat)
    requires InHand(st, ptr, c) && Frame(st, st', c) && Loans(st') == Loans(st) && Inv(st', 0)
    ensures InHand(st', ptr, c)
  {
    assert ptr - PTR in Loans(st) && Loans(st)[ptr - PTR] == Hand;
    hide Inv, Frame, Loans;
    StaysInHand(st, st', ptr, c);
  }

  lemma StaysInHand(st: State, st': State, ptr: nat, c: nat)
    requires InHand(st, ptr, c) && Frame(st, st', c) && Inv(st', 0)
    requires ptr >= PTR && ptr - PTR in Loans(st') && Loans(st')[ptr - PTR] == Hand
    ensures InHand(st', ptr, c)
  {
    hide Inv, Above, LooseNodes;
    assert ptr - PTR in Loans(st);
    assert SameLoan(st, st', ptr - PTR);
  }

  lemma SpilledFrame(st: State, bare: State, last: State, c: nat, ptr: nat)
    requires Frame(st, bare, c) && Frame(bare, last, c) && ptr >= PTR
    requires Loans(bare) == Loans(st)[ptr - PTR := Hand] && Loans(last) == Loans(bare) - {ptr - PTR}
    ensures Frame(st, last, c) && Loans(last) == Loans(st) - {ptr - PTR}
  {
    hide Frame, Loans;
    FrameChain(st, bare, last, c);
  }

  // ---------- giving a unit back to its slab ----------

  lemma HandFacts(st: State, ptr: nat, c: nat)
    requires InHand(st, ptr, c) && Inv(st, 0)
    ensures ptr >= PTR && ptr - PTR in st.home && ptr - PTR in st.word && st.word[ptr - PTR] == st.home[ptr - PTR]
    ensures var s := st.home[ptr - PTR];
            && s in st.slabs && s in st.free && st.slabs[s].extra == c && CanPush(st, s, ptr - PTR)
  {
    hide Inv, HomeOk, SlabsOk, FreeOk, InuseOk, QueuesOk, MagazinesOk, ColorsOk, CalcsOk, Shape, NodesOk, BlocksOk;
    Parts(st, 0);
    UnitPositive(st, ptr - PTR);
    HeldMember(st, st.home[ptr - PTR], ptr - PTR);
  }

  ghost predicate Put(st: State, st': State, c: nat, ptr: nat) {
    && ptr >= PTR && ptr - PTR in st.home
    && var s := st.home[ptr - PTR];
    && s in st.slabs && s in st.free && st.slabs[s].inuse > 0 && c < |st.caches|
    && st' == FreeInto(st, c, s, ptr - PTR)
  }

  /** The record of `c` once the unit of `ptr` is back on its slab. */
  ghost function PutRecord(st: State, c: nat, ptr: nat): Cache
    requires c < |st.caches|
  {
    if ptr >= PTR && ptr - PTR in st.home && st.home[ptr - PTR] in st.slabs && st.home[ptr - PTR] in st.free
       && st.slabs[st.home[ptr - PTR]].inuse > 0
    then FreeInto(st, c, st.home[ptr - PTR], ptr - PTR).caches[c]
    else st.caches[c]
  }

  /** With too many free units, half of the idle slabs go, the oldest first. */
  function AfterDrain(cache: Cache, limit: nat): seq<nat> {
    if cache.freeObjects >= limit then cache.idle[..|cache.idle| - |cache.idle| / 2] else cache.idle
  }

  lemma PutIs(st: State, put: State, c: nat, ptr: nat)
    requires Put(st, put, c, ptr)
    ensures c < |st.caches| && c < |put.caches| && put.caches[c] == PutRecord(st, c, ptr)
  {
  }

  lemma IdleCount(st: State, c: nat)
    requires CountedUpTo(st, c) && c < |st.caches|
    ensures st.caches[c].countFree == |st.caches[c].idle|
    ensures st.caches[c].idle[..|st.caches[c].idle|] == st.caches[c].idle
  {
    hide CountsOk;
    CountedAt(st, c);
    FreeCount(st.caches[c], st.free);
  }

  lemma FreeCount(cache: Cache, free: map<nat, seq<nat>>)
    requires CountsOk(cache, free)
    ensures cache.countFree == |cache.idle|
  {
  }

  lemma PutAll(st: State, put: State, c: nat, ptr: nat)
    requires Put(st, put, c, ptr) && InHand(st, ptr, c) && CountedUpTo(st, c) && Inv(st, 0)
    ensures ptr >= PTR && c < |st.caches| && c < |put.caches| && put.caches[c].lru == st.caches[c].lru
    ensures CountedUpTo(put, c) && Frame(st, put, c) && Loans(put) == Loans(st) - {ptr - PTR} && Inv(put, 0)
  {
    hide Inv, CountsOk, Frame, Loans, InHand, FreeInto;
    HandFacts(st, ptr, c);
    var s, u := st.home[ptr - PTR], ptr - PTR;
    CountedAt(st, c);
    FreeIntoInv(st, c, s, u);
    FreeForm(st, c, s, u);
    CountedLess(st, c, c - 1);
    CountedOthers(st, put, c, 0);
    CountedTop(put, c);
  }

  lemma FreeForm(st: State, c: nat, s: nat, u: nat)
    requires s in st.slabs && s in st.free && st.slabs[s].inuse > 0 && c < |st.caches| && st.slabs[s].extra == c
    ensures var st' := FreeInto(st, c, s, u);
            && |st'.caches| == |st.caches|
            && (forall i :: 0 <= i < |st.caches| && i != c ==> st'.caches[i] == st.caches[i])
            && st'.free == st.free[s := [u] + st.free[s]]
  {
  }

  /** Two steps in a row, the second of which ends no loan that the first had not seen. */
  lemma FrameChain(st: State, was: State, last: State, c: nat)
    requires Frame(st, was, c) && Frame(was, last, c)
    requires forall u :: u in Loans(st) && u in Loans(last) ==> u in Loans(was)
    ensures Frame(st, last, c)
  {
    hide FrameBut, Loans;
    AsFrameBut(st, was, c);
    AsFrameBut(was, last, c);
    FrameTransitive(st, was, last, c, c, {}, {});
    AsFrameBut(st, last, c);
  }

  // ---------- filling a magazine ----------

  lemma BatchPositive(st: State, c: nat)
    requires Inv(st, 0) && c < |st.geo|
    ensures 0 < st.geo[c].lruBatch < st.geo[c].lruLimit <= ARRAY_LIMIT
  {
    hide Inv, CalcOk, Calculate;
    CalcAt(st, c);
    BatchOf(st.geo[c]);
  }

  lemma BatchOf(g: Geom)
    requires CalcOk(g)
    ensures 0 < g.lruBatch < g.lruLimit <= ARRAY_LIMIT
  {
  }

  lemma LruCount(st: State, c: nat)
    requires Inv(st, 0) && c < |st.caches|
    ensures |st.caches[c].lru| == LRU_COUNT && |st.caches| == |st.geo|
    ensures forall k :: 0 <= k < LRU_COUNT ==> |st.caches[c].lru[k]| <= st.geo[c].lruLimit
  {
    hide Inv, MagazineOk;
    Ready(st);
  }

  // ---------- draining ----------

  /** After `count` slabs of `c` have been released, starting from `st`. */
  ghost predicate Drained(st: State, st': State, c: nat, count: nat) {
    && c < |st.caches| && c < |st'.caches| && |st'.geo| == |st'.caches|
    && st'.caches[c].lru == st.caches[c].lru
    && CountsBehind(st'.caches[c], st'.free, count, 0)
    && CountedUpTo(st', c - 1) && Frame(st, st', c) && Loans(st') == Loans(st) && Inv(st', 0)
  }

  lemma StartDrain(st: State, c: nat)
    requires c < |st.caches| && CountedUpTo(st, c) && Inv(st, 0)
    ensures Drained(st, st, c, 0)
  {
    hide Inv, Frame, Loans;
    FrameSame(st, c);
    CountedAt(st, c);
    CountedLess(st, c, c - 1);
    NothingBehind(st.caches[c], st.free);
    LengthsAgree(st);
  }

  lemma LengthsAgree(st: State)
    requires Inv(st, 0)
    ensures |st.caches| == |st.geo|
  {
    hide Inv;
    Ready(st);
  }

  lemma NothingBehind(cache: Cache, free: map<nat, seq<nat>>)
    ensures CountsBehind(cache, free, 0, 0) <==> CountsOk(cache, free)
  {
    assert cache.(countFree := cache.countFree - 0, pagesDel := cache.pagesDel + 0,
           pagesInuse := cache.pagesInuse - 0) == cache;
  }

  /** The slab at the tail of the idle queue is idle, and its page can be returned. */
  lemma LastIdle(st: State, was: State, c: nat, count: nat, s: nat)
    requires Drained(st, was, c, count) && was.caches[c].idle != []
    requires s == was.caches[c].idle[|was.caches[c].idle| - 1]
    ensures s in was.slabs && s in was.free && was.slabs[s].inuse == 0 && was.slabs[s].extra == c && c < |was.geo|
    ensures was.slabs[s].membase >= PTR && Inv(was, 0)
  {
    hide Inv, CountedUpTo, Frame, Loans;
    assert s in was.caches[c].idle;
    ReleaseIdleInv(was, c, s, count);
  }

  /** Only counters of cache `c` change. */
  lemma TallyInv(st: State, c: nat, cache': Cache)
    requires c < |st.caches| && Inv(st, 0)
    requires var cache := st.caches[c];
             cache' == cache.(countFree := cache'.countFree, pagesDel := cache'.pagesDel,
               pagesInuse := cache'.pagesInuse)
    ensures var st' := st.(caches := st.caches[c := cache']);
            Inv(st', 0) && Frame(st, st', c) && Loans(st') == Loans(st)
  {
    hide *;
    var cs' := st.caches[c := cache'];
    Parts(st, 0);
    TallyQueues(st.caches, c, cache');
    QueuesKept(st.caches, cs', st.slabs, 0);
    ColorsKept(st.geo, st.caches, cs');
    CachesIrrelevant(st, cs');
    RecordMagazines(st, c, cache');
    Assemble(st.(caches := cs'), 0);
    RecordFrame(st, c, cache');
  }

  lemma TallyQueues(cs: seq<Cache>, c: nat, cache': Cache)
    requires c < |cs|
    requires cache' == cs[c].(countFree := cache'.countFree, pagesDel := cache'.pagesDel,
             pagesInuse := cache'.pagesInuse)
    ensures SameQueues(cs, cs[c := cache']) && cache'.lru == cs[c].lru && cache'.colorNext == cs[c].colorNext
  {
  }

  lemma BehindKept(st: State, st': State, c: nat, slabs: int, pages: int)
    requires c < |st.caches| && CountsBehind(st.caches[c], st.free, slabs, pages) && SlabsSame(st, st', c) && Inv(st, 0)
    ensures CountsBehind(st.caches[c], st'.free, slabs, pages)
  {
    hide Inv, CountsOk;
    Parts(st, 0);
    QueueFacts(st.caches, st.slabs, 0, c);
    var cache := st.caches[c];
    CountsAgree(cache.(countFree := cache.countFree - slabs,
                       pagesDel := cache.pagesDel + pages, pagesInuse := cache.pagesInuse - pages), st.free, st'.free);
  }

  /** What taking the slab off its queue amounts to. */
  ghost predicate OffQueue(was: State, off: State, c: nat, count: nat, s: nat) {
    && s in was.slabs && c < |was.geo| && c < |was.caches| && c < |off.caches|
    && was.slabs[s].membase >= PTR && s !in off.slabs
    && off.geo == was.geo && off.caches[c].lru == was.caches[c].lru
    && Returnable(off, c, was.slabs[s].membase)
    && (was.geo[c].offSlab ==> s in off.nodes)
    && CountsBehind(off.caches[c], off.free, count + 1, 1) && CountedUpTo(off, c - 1)
    && (if was.geo[c].gfp.Some? then
          was.slabs[s].membase - PTR !in Loans(was) && Loans(off) == Loans(was)[was.slabs[s].membase - PTR := Client]
        else Loans(off) == Loans(was))
    && Frame(was, off, c) && Inv(off, 0)
  }

  lemma SlabOff(st: State, was: State, off: State, c: nat, count: nat, s: nat)
    requires Drained(st, was, c, count) && was.caches[c].idle != []
    requires s == was.caches[c].idle[|was.caches[c].idle| - 1]
    requires s in was.slabs && s in was.free && was.slabs[s].extra == c && c < |was.geo| && was.slabs[s].membase >= PTR
    requires off == ReleaseIdle(was, c, s)
    ensures OffQueue(was, off, c, count, s)
    ensures c < |off.caches| && off.caches[c].idle == was.caches[c].idle[..|was.caches[c].idle| - 1]
  {
    hide Inv, CountedUpTo, CountsOk, CountsBehind, Frame, Loans, Returnable, ReleaseIdle, Shape, NodesOk, BlocksOk,
         FreeOk, HeadsOk, InuseOk, QueuesOk, MagazinesOk, ColorsOk, CalcsOk, SlabsOk, HomeOk, IdleReleased;
    assert s in was.caches[c].idle;
    ReleaseIdleInv(was, c, s, count);
    Parts(was, 0);
    ReleaseForm(was, c, s);
    PageReturnable(was, off, c, s);
    QueueFacts(was.caches, was.slabs, 0, c);
    RemoveLast(was.caches[c].idle);
    CountedOthers(was, off, c, 0);
  }

  lemma ReleaseForm(was: State, c: nat, s: nat)
    requires s in was.slabs && s in was.free && was.slabs[s].extra == c && c < |was.geo| && c < |was.caches|
    requires was.slabs[s].membase >= PTR
    ensures var off := ReleaseIdle(was, c, s);
            && off.geo == was.geo && off.nodes == was.nodes && s !in off.slabs && off.free == was.free - {s}
            && |off.caches| == |was.caches| && off.caches[c].idle == Remove(was.caches[c].idle, s)
            && off.caches[c].lru == was.caches[c].lru
            && forall i :: 0 <= i < |was.caches| && i != c ==> off.caches[i] == was.caches[i]
  {
  }

  lemma PageReturnable(was: State, off: State, c: nat, s: nat)
    requires s in was.slabs && s in was.free && was.slabs[s].extra == c && c < |was.geo| && c < |was.caches|
    requires was.slabs[s].membase >= PTR && off == ReleaseIdle(was, c, s)
    requires was.slabs[s].inuse == 0 && Inv(was, 0) && Inv(off, 0)
    ensures Returnable(off, c, was.slabs[s].membase) && (was.geo[c].offSlab ==> s in was.nodes)
    ensures was.geo[c].gfp.Some? ==> was.slabs[s].membase - PTR !in Loans(was)
  {
    hide *;
    Parts(was, 0);
    Basics(off, 0);
    ShapePages(was);
    NobodyHolds(was, s);
    NodeOf(was, s);
    DroppedPage(was, off, c, s);
  }

  lemma ShapePages(st: State)
    requires Shape(st)
    ensures SlabsOk(st) && HomeOk(st) && PagesOk(st) && PagesOnce(st)
  {
    hide SlabsOk, HomeOk, PagesOk, PagesOnce, Spaced, DefaultPagesOk, LinksOk;
  }

  lemma NodeOf(st: State, s: nat)
    requires SlabsOk(st) && NodesOk(st) && s in st.slabs && st.slabs[s].extra < |st.geo|
    ensures st.geo[st.slabs[s].extra].offSlab ==> s in st.nodes
  {
  }

  lemma DroppedPage(was: State, off: State, c: nat, s: nat)
    requires s in was.slabs && s in was.free && was.slabs[s].extra == c && c < |was.geo| && c < |was.caches|
    requires was.slabs[s].membase >= PTR && off == ReleaseIdle(was, c, s)
    requires SlabsOk(was) && HomeOk(was) && PagesOk(was) && PagesOnce(was) && SlabsOk(off) && HomeOk(off)
    requires forall u :: u in was.owner && u in was.home ==> was.home[u] != s
    ensures Returnable(off, c, was.slabs[s].membase)
    ensures was.geo[c].gfp.Some? ==> was.slabs[s].membase - PTR !in Loans(was)
  {
    hide UnitIn, SlabOk;
    assert PageOk(was, s);
  }

  lemma Booked(st: State, given: State, booked: State, c: nat)
    requires c < |given.caches| && c < |st.caches| && given.caches[c] == st.caches[c]
    requires var cache := given.caches[c];
             booked == given.(caches := given.caches[c := cache.(pagesDel := cache.pagesDel + 1,
                                                                 pagesInuse := cache.pagesInuse - 1)])
    requires CountedUpTo(given, c - 1) && Inv(given, 0)
    ensures CountedUpTo(booked, c - 1) && Inv(booked, 0) && Frame(given, booked, c) && Loans(booked) == Loans(given)
  {
    hide Inv, Frame, Loans, CountsOk;
    TallyInv(given, c, booked.caches[c]);
  }

  lemma NodeStays(st: State, given: State, c: int, s: nat)
    requires Frame(st, given, c) && s in st.nodes && s !in st.slabs
    ensures s in given.nodes && s !in given.slabs
  {
    hide Above, Kept;
  }

  lemma Deleted(st: State, given: State, booked: State, last: State, c: nat, s: nat, page: nat)
    requires Frame(st, given, c - 1) && Frame(given, booked, c) && |st.caches| == |st.geo|
    requires booked == given.(caches := booked.caches)
    requires c < |st.geo| && given.geo == st.geo
    requires last == if st.geo[c].offSlab then booked.(nodes := booked.nodes - {s}) else booked
    requires st.geo[c].offSlab ==> s in given.nodes && s !in given.slabs
    requires s in st.nodes ==> s !in st.slabs
    requires Loans(booked) == Loans(given) && Loans(given) == LoansWithout(st, c, page)
    requires CountedUpTo(booked, c - 1) && Inv(st, 0) && Inv(booked, 0)
    ensures CountedUpTo(last, c - 1) && Inv(last, 0) && FrameBut(st, last, c, {s}) && Above(st, last, c)
    ensures SlabsSame(st, last, c) && Loans(last) == LoansWithout(st, c, page)
  {
    hide Inv, Frame, Loans, LoansWithout, FrameBut, Above, SlabsSame, CountsOk;
    FrameWeaken(st, given, c - 1, c);
    AsFrameBut(st, given, c);
    AsFrameBut(given, booked, c);
    LoansShrink(st, c, page);
    FrameTransitive(st, given, booked, c, c, {}, {});
    SameBelow(st, given, c);
    SameFree(st, given, last, c);
    if st.geo[c].offSlab {
      ReleaseNode(booked, s);
      FrameWiden(st, booked, c, {}, {s});
      FrameTransitive(st, booked, last, c, -1, {s}, {s});
    } else {
      FrameWiden(st, booked, c, {}, {s});
    }
    JustAbove(st, last, c, {s});
  }

  lemma JustAbove(st: State, st': State, c: int, gone: set<nat>)
    requires FrameBut(st, st', c, gone)
    ensures Above(st, st', c)
  {
    hide Above;
  }

  lemma FrameWiden(st: State, st': State, c: int, gone: set<nat>, gone': set<nat>)
    requires FrameBut(st, st', c, gone) && gone <= gone'
    ensures FrameBut(st, st', c, gone')
  {
    hide Above, Kept;
  }

  lemma LoansShrink(st: State, c: nat, page: nat)
    ensures LoansWithout(st, c, page).Keys <= Loans(st).Keys
  {
  }

  lemma SameFree(st: State, given: State, last: State, c: nat)
    requires SlabsSame(st, given, c) && last.free == given.free
    ensures SlabsSame(st, last, c)
  {
  }

  lemma SameBelow(st: State, given: State, c: nat)
    requires Frame(st, given, c - 1)
    ensures SlabsSame(st, given, c)
  {
    hide Kept, LooseNodes;
  }

  lemma SlabGone(st: State, was: State, off: State, last: State, c: nat, count: nat, s: nat, page: nat)
    requires Drained(st, was, c, count) && OffQueue(was, off, c, count, s) && page == was.slabs[s].membase
    requires c < |last.caches| && |last.geo| == |last.caches| && c < |off.caches|
    requires last.caches[c] == off.caches[c].(pagesDel := off.caches[c].pagesDel + 1,
             pagesInuse := off.caches[c].pagesInuse - 1)
    requires FrameBut(off, last, c, {s}) && SlabsSame(off, last, c)
    requires Loans(last) == LoansWithout(off, c, page) && CountedUpTo(last, c - 1) && Inv(last, 0)
    ensures Drained(st, last, c, count + 1) && last.caches[c].idle == off.caches[c].idle
  {
    hide Inv, Frame, Loans, FrameBut, Above, SlabsSame, CountsOk, CountedUpTo, Returnable, CountsBehind;
    BehindKept(off, last, c, count + 1, 1);
    CaughtUp(off.caches[c], last.free, count + 1);
    AsFrameBut(st, was, c);
    AsFrameBut(was, off, c);
    FrameTransitive(was, off, last, c, c, {}, {s});
    FrameTransitive(st, was, last, c, c, {}, {});
    AsFrameBut(st, last, c);
  }

  lemma CaughtUp(cache: Cache, free: map<nat, seq<nat>>, lag: int)
    requires CountsBehind(cache, free, lag, 1)
    ensures CountsBehind(cache.(pagesDel := cache.pagesDel + 1, pagesInuse := cache.pagesInuse - 1), free, lag, 0)
  {
  }

  lemma EndDrain(st: State, behind: State, last: State, c: nat, count: nat)
    requires Drained(st, behind, c, count)
    requires var cache := behind.caches[c];
             last == behind.(caches := behind.caches[c := cache.(countFree := cache.countFree - count)])
    ensures CountedUpTo(last, c) && Inv(last, 0) && Frame(st, last, c) && Loans(last) == Loans(st)
    ensures c < |last.caches| && last.caches[c].lru == st.caches[c].lru && last.caches[c].idle == behind.caches[c].idle
  {
    hide Inv, Frame, FrameBut, Loans, CountsOk;
    TallyInv(behind, c, last.caches[c]);
    NothingBehind(last.caches[c], last.free);
    assert last.caches[c] == behind.caches[c].(countFree := behind.caches[c].countFree - count,
                                               pagesDel := behind.caches[c].pagesDel + 0,
                                               pagesInuse := behind.caches[c].pagesInuse - 0);
    AsFrameBut(st, behind, c);
    AsFrameBut(behind, last, c);
    FrameTransitive(st, behind, last, c, c, {}, {});
    AsFrameBut(st, last, c);
  }

  lemma ChainAt(st: State, s: nat, i: nat)
    requires SlabsOk(st) && HomeOk(st) && FreeOk(st) && s in st.slabs && s in st.free && i <= |st.free[s]|
    ensures i < |st.free[s]| ==> LinkAt(st.free[s], i - 1) in st.word
    ensures i < |st.free[s]| ==>
            LinkAt(st.free[s], i - 1) != 0 && st.word[LinkAt(st.free[s], i - 1)] == LinkAt(st.free[s], i)
    ensures i == |st.free[s]| ==> LinkAt(st.free[s], i - 1) == 0
    ensures st.slabs[s].bufctl == LinkAt(st.free[s], -1)
  {
    assert FreeListOk(st, s);
    if i < |st.free[s]| {
      assert Linked(st.free[s], st.word, i);
      UnitPositive(st, st.free[s][i]);
    }
  }

  // ---------- the choice of a slab ----------

  ghost function FromIdle(st: State, c: nat): State {
    if c < |st.caches| && st.caches[c].idle != [] then
      st.(caches := st.caches[c := IdleToPartial(st.caches[c], st.caches[c].idle[0])])
    else st
  }

  /** A magazine with entries serves from its top, and no slab is touched. */
  ghost predicate TookTop(st: State, st': State, c: nat, k: nat, ptr: nat) {
    c < |st.caches| && k < |st.caches[c].lru| && st.caches[c].lru[k] != [] ==>
      var q := st.caches[c].lru[k];
      && ptr == q[|q| - 1] && st'.slabs == st.slabs
      && st'.caches == st.caches[c := st.caches[c].(lru := st.caches[c].lru[k := q[..|q| - 1]])]
  }

  lemma NothingToTake(st: State, c: nat, k: nat)
    requires c < |st.caches| && k < |st.caches[c].lru| && st.caches[c].lru[k] == []
    ensures forall st': State, ptr: nat :: TookTop(st, st', c, k, ptr)
  {
  }

  lemma GotThrough(st: State, filled: State, last: State, c: nat, ptr: nat)
    requires Loans(filled) == Loans(st) && GotUnit(filled, last, c, ptr, Client) && Frame(st, filled, c)
             && Frame(filled, last, c)
    ensures GotUnit(st, last, c, ptr, Client) && Frame(st, last, c)
  {
    hide Frame, Loans;
    FrameChain(st, filled, last, c);
  }

  /** A magazine with room takes the unit, and no slab is touched; a full one is cut down to its batch size. */
  ghost predicate PutTop(st: State, st': State, c: nat, k: nat, ptr: nat) {
    c < |st.caches| && c < |st.geo| && k < |st.caches[c].lru| ==>
      var q := st.caches[c].lru[k];
      if |q| >= st.geo[c].lruLimit then
        var n := st.geo[c].lruBatch;
        c < |st'.caches| && st'.caches[c].lru == st.caches[c].lru[k := if |q| > n then q[..n] else q]
      else
        st'.slabs == st.slabs && st'.caches == st.caches[c := st.caches[c].(lru := st.caches[c].lru[k := q + [ptr]])]
  }

  /** The unit at the head of the free list of `s` was handed out, and nothing else happened. */
  ghost predicate Served(st: State, st': State, c: nat, s: nat, ptr: nat) {
    && s in st.slabs && s in st.free && st.free[s] != [] && c < |st.caches|
    && ptr == st.free[s][0] + PTR && st' == AllocFrom(st, c, s)
  }

  /** Colours go up word by word and start again at the limit. */
  function NextColor(g: Geom, color: nat): nat {
    if color + PTR >= g.colorLimit then 0 else color + PTR
  }

  /** The unit is the only one in use on a slab just carved, the only one there is with room unless it has none. */
  ghost predicate FromNew(st: State, st': State, c: nat, ptr: nat) {
    && c < |st.caches| && c < |st'.caches| && ptr >= PTR && ptr - PTR in st'.home && st'.home[ptr - PTR] in st'.slabs
    && var s := st'.home[ptr - PTR];
    && var was, now := st.caches[c], st'.caches[c];
    && now.pagesNew == was.pagesNew + 1 && now.pagesDel == was.pagesDel && now.idle == []
    && st'.slabs[s].inuse == 1 && st'.slabs[s].extra == c
    && (if st'.slabs[s].bufctl != 0 then now.partial == [s] && now.full == was.full
        else now.partial == [] && now.full == [s] + was.full)
  }

  /** The slab `s` was carved out of the heap `mid`, which differs from `st` by the page and header obtained. */
  ghost predicate Created(st: State, mid: State, st': State, c: nat, s: nat, n: nat, us: seq<nat>) {
    && Inv(mid, 0) && CountedUpTo(mid, c) && Frame(st, mid, c - 1)
    && c < |st.caches| && c < |mid.geo| && c < |mid.caches| && |us| == n
    && (s !in st.nodes || s in st.slabs)
    && s in st'.slabs && c < |st'.caches|
    && var sl := st'.slabs[s];
    && SlabsOk(mid) && HomeOk(mid) && Carved(mid, c, s, sl, us, st'.word)
    && GotPage(st, mid, c, sl.membase)
    && var color := st'.caches[c].colorNext;
    && color == NextColor(mid.geo[c], mid.caches[c].colorNext)
    && color % 8 == 0 && (color == 0 || color < mid.geo[c].colorLimit)
    && sl.extra == c && sl.membase >= PTR
    && var cache := mid.caches[c];
    st' == AddSlab(mid, s, sl, us, st'.word,
                   cache.(colorNext := color, pagesNew := cache.pagesNew + 1, pagesInuse := cache.pagesInuse + 1))
  }

  lemma CountedAt(st: State, c: nat)
    requires CountedUpTo(st, c) && c < |st.caches|
    ensures CountsOk(st.caches[c], st.free)
  {
    hide CountsOk;
  }

  /** A slab of `c` has been chosen, and so far nothing else has changed. */
  ghost predicate Chosen(st: State, sel: State, c: nat, s: nat) {
    && Selected(sel, c, s) && CountedUpTo(sel, c - 1) && Frame(st, sel, c) && Loans(sel) == Loans(st)
    && c < |st.caches| && c < |sel.caches| && sel.caches[c].lru == st.caches[c].lru
  }

  lemma IdleFrame(st: State, c: nat)
    requires Inv(st, 0) && c < |st.caches| && st.caches[c].idle != []
    ensures var st' := FromIdle(st, c);
            Frame(st, st', c) && Loans(st') == Loans(st) && st'.caches[c].lru == st.caches[c].lru
  {
    hide Inv, Frame, Loans, SlabsOk, HomeOk, FreeOk;
    Parts(st, 0);
    RecordFrame(st, c, IdleToPartial(st.caches[c], st.caches[c].idle[0]));
  }

  lemma CreatedSelected(st: State, mid: State, carved: State, sel: State, c: nat, s: nat, n: nat, us: seq<nat>)
    requires Inv(st, 0) && CountedUpTo(st, c) && Created(st, mid, carved, c, s, n, us)
    requires var cache := carved.caches[c];
             sel == carved.(caches := carved.caches[c := cache.(freeObjects := cache.freeObjects + n,
                                                                 partial := [s] + cache.partial,
                                                                 countPartial := cache.countPartial + 1)])
    ensures Chosen(st, sel, c, s)
  {
    hide Inv, CountedUpTo, CountsOk, Frame, FrameBut, Loans, SlabsOk, HomeOk, Vacant, Carved, Selected, AddSlab,
         GotPage;
    var sl, color := carved.slabs[s], carved.caches[c].colorNext;
    var cache' := NewPartial(mid.caches[c].(colorNext := color), s, n);
    CountedAt(mid, c);
    SelectNew(mid, c, s, sl, us, carved.word, color);
    RecordAbove(st, mid, c - 1, c);
    CreatedForm(st, mid, carved, sel, c, s, n, us);
    CreatedFrame(st, mid, carved, sel, c, s, n, us, cache');
    CountedLess(mid, c, c - 1);
    CountedOthers(mid, sel, c, 0);
  }

  lemma CreatedForm(st: State, mid: State, carved: State, sel: State, c: nat, s: nat, n: nat, us: seq<nat>)
    requires Created(st, mid, carved, c, s, n, us)
    requires var cache := carved.caches[c];
             sel == carved.(caches := carved.caches[c := cache.(freeObjects := cache.freeObjects + n,
                                                                 partial := [s] + cache.partial,
                                                                 countPartial := cache.countPartial + 1)])
    ensures var color := carved.caches[c].colorNext;
            var cache' := NewPartial(mid.caches[c].(colorNext := color), s, |us|);
            && sel == AddSlab(mid, s, carved.slabs[s], us, carved.word, cache')
            && sel.caches == mid.caches[c := cache'] && sel.free == mid.free[s := us]
  {
    hide Inv, CountedUpTo, Frame, Carved, Vacant, SlabsOk, HomeOk, GotPage;
  }

  lemma CreatedFrame(st: State, mid: State, carved: State, sel: State, c: nat, s: nat, n: nat, us: seq<nat>,
                     cache': Cache)
    requires Created(st, mid, carved, c, s, n, us)
    requires c < |mid.geo| && c < |mid.caches| && s in carved.slabs && carved.slabs[s].membase >= PTR
    requires carved.slabs[s].extra == c && sel == AddSlab(mid, s, carved.slabs[s], us, carved.word, cache')
    ensures Frame(st, sel, c) && Loans(sel) == Loans(st) && s !in mid.slabs
  {
    hide Inv, FrameBut, SlabsOk, HomeOk, Vacant, Carved, NodesOk, BlocksOk, FreeOk, HeadsOk, Shape, Loans, Above, Kept,
         AddSlab, CountedUpTo;
    var sl := carved.slabs[s];
    Parts(mid, 0);
    AddFrame(mid, c, s, sl, us, carved.word, cache');
    FrameWeaken(st, mid, c - 1, c);
    AddFrameBut(mid, sel, c, s, sl, us, carved.word, cache');
    FrameTransitive(st, mid, sel, c, c, {}, {s});
  }

  lemma AddFrameBut(mid: State, sel: State, c: nat, s: nat, sl: Slab, us: seq<nat>, word': map<nat, nat>, cache': Cache)
    requires Above(mid, sel, c) && Kept(mid, sel)
    requires sl.extra < |mid.geo| && sl.extra < |mid.caches| && sl.membase >= PTR
    requires sel == AddSlab(mid, s, sl, us, word', cache')
    ensures FrameBut(mid, sel, c, {s})
  {
    hide Above, Kept;
  }

  lemma ServedAll(st: State, sel: State, st': State, c: nat, s: nat, ptr: nat)
    requires Chosen(st, sel, c, s) && Served(sel, st', c, s, ptr)
    ensures c < |st'.caches| && c < |st.caches| && st'.caches[c].lru == st.caches[c].lru
    ensures Inv(st', 0) && CountedUpTo(st', c) && Frame(st, st', c) && GotUnit(st, st', c, ptr, Hand)
  {
    hide Inv, CountsOk, Frame, Loans, CountedUpTo, Selected, AllocFrom, FrameBut, Shape, NodesOk, BlocksOk, FreeOk,
         HeadsOk, InuseOk, QueuesOk, MagazinesOk, ColorsOk, CalcsOk, SlabsOk, HomeOk;
    OfSelected(sel, c, s);
    AllocFromInv(sel, c, s);
    AsFrameBut(st, sel, c);
    AsFrameBut(sel, st', c);
    NotOnLoan(sel, sel.free[s][0]);
    FrameTransitive(st, sel, st', c, c, {}, {});
    AsFrameBut(st, st', c);
    AllocOthers(sel, c, s);
    Parts(sel, s);
    CountedOthers(sel, st', c, s);
    CountedTop(st', c);
  }

  lemma NewServed(st: State, mid: State, carved: State, sel: State, st': State, c: nat, s: nat, n: nat, us: seq<nat>,
                  ptr: nat)
    requires Created(st, mid, carved, c, s, n, us) && st.caches[c].partial == [] && st.caches[c].idle == []
    requires var cache := carved.caches[c];
             sel == carved.(caches := carved.caches[c := cache.(freeObjects := cache.freeObjects + n,
                                                                 partial := [s] + cache.partial,
                                                                 countPartial := cache.countPartial + 1)])
    requires Served(sel, st', c, s, ptr)
    ensures FromNew(st, st', c, ptr)
  {
    hide Inv, CountedUpTo, Frame, SlabsOk, HomeOk, GotPage, Chained, NoDup, SlabOk, UnitIn, Vacant;
    RecordAbove(st, mid, c - 1, c);
    assert sel.free[s] == us && us[0] in sel.home && sel.home[us[0]] == s;
    assert Remove([s], s) == [];
  }

  lemma NotOnLoan(st: State, u: nat)
    requires u !in st.owner
    ensures u !in Loans(st)
  {
  }

  lemma AllocOthers(st: State, c: nat, s: nat)
    requires s in st.slabs && s in st.free && st.free[s] != [] && c < |st.caches|
    ensures var st' := AllocFrom(st, c, s);
            && |st'.caches| == |st.caches|
            && (forall i :: 0 <= i < |st.caches| && i != c ==> st'.caches[i] == st.caches[i])
            && st'.free == st.free[s := st.free[s][1..]]
  {
  }

  lemma CountedTop(st: State, c: nat)
    requires CountedUpTo(st, c - 1) && c < |st.caches| && CountsOk(st.caches[c], st.free)
    ensures CountedUpTo(st, c)
  {
    hide CountsOk;
  }

  /** Changing the record of cache `c` and the free lists of its slabs leaves the counters of earlier caches exact. */
  lemma CountedOthers(st: State, st': State, c: nat, m: nat)
    requires Inv(st, m) && CountedUpTo(st, c - 1) && c < |st.caches|
    requires forall i :: 0 <= i < c ==> i < |st'.caches| && st'.caches[i] == st.caches[i]
    requires forall t :: t in st.slabs && t in st.free && st.slabs[t].extra != c ==>
             t in st'.free && st'.free[t] == st.free[t]
    ensures CountedUpTo(st', c - 1)
  {
    hide Inv, CountsOk;
    Parts(st, m);
    forall i | 0 <= i <= c - 1 && i < |st'.caches| ensures CountsOk(st'.caches[i], st'.free) {
      CountedKept(st, st', m, i);
    }
  }

  // ---------- pages and their place ----------

  /** The page is one that `c` may hand back. */
  ghost predicate Returnable(st: State, c: nat, page: nat) {
    SlabsOk(st) && HomeOk(st) && c < |st.geo| && Vacant(st, c, page)
  }

  ghost function LoansWithout(st: State, c: nat, page: nat): map<nat, Owner> {
    if c < |st.geo| && st.geo[c].gfp.Some? && page >= PTR then Loans(st) - {page - PTR} else Loans(st)
  }

  /** The object at `ptr` is with a client and belongs to cache `c`. */
  ghost predicate Lent(st: State, ptr: nat, c: nat) {
    ptr >= PTR && ptr - PTR in st.owner && st.owner[ptr - PTR] == Client && InCache(st, ptr - PTR, c)
  }

  /** The object at `ptr` has left a magazine or a client and belongs to cache `c`. */
  ghost predicate InHand(st: State, ptr: nat, c: nat) {
    ptr >= PTR && ptr - PTR in st.owner && st.owner[ptr - PTR] == Hand && InCache(st, ptr - PTR, c)
  }

  /** No slab of cache `c` was touched. */
  ghost predicate SlabsSame(st: State, st': State, c: nat) {
    forall t :: t in st.slabs && t in st.free && st.slabs[t].extra == c ==> t in st'.free && st'.free[t] == st.free[t]
  }

  lemma ReturnDefault(st: State, c: nat, page: nat)
    requires Returnable(st, c, page) && st.geo[c].gfp.None?
    ensures SlabsOk(st) && UnusedPage(st, page)
  {
    hide SlabsOk, HomeOk;
  }

  lemma ReturnUnit(st: State, c: nat, page: nat)
    requires Returnable(st, c, page) && st.geo[c].gfp.Some?
    ensures page >= PTR && Lent(st, page, st.geo[c].gfp.value)
  {
    hide SlabsOk;
  }

  function ColorOffset(g: Geom, color: nat): nat {
    if g.offSlab then color else color + SLAB_STRUCT
  }

  lemma ColorFacts(st: State, c: nat)
    requires Inv(st, 0) && c < |st.geo|
    ensures c < |st.caches|
    ensures var g, color := st.geo[c], st.caches[c].colorNext;
            && color % 8 == 0 && g.unitSize > 0 && g.unitSize % 8 == 0 && 16 <= g.unitSize <= g.pageSize
            && ColorReached(Calculate(g.unitSize, g.pageSize), color)
            && ColorOffset(g, color) + g.unitSize <= g.pageSize
  {
    Parts(st, 0);
    hide Inv, Shape, FreeOk, HeadsOk, InuseOk, QueuesOk, MagazinesOk, NodesOk, BlocksOk, SlabsOk, HomeOk, Calculate;
    assert CalcOk(st.geo[c]);
    RoomForOne(st.geo[c].unitSize, st.geo[c].pageSize, st.caches[c].colorNext);
  }

  lemma GiveBack(st: State, paged: State, c: nat, page: nat)
    requires GotPage(st, paged, c, page) && CountedUpTo(paged, c)
    ensures Returnable(paged, c, page) && CountedUpTo(paged, c - 1)
  {
    hide SlabsOk, HomeOk, Vacant, Loans;
    CountedLess(paged, c, c - 1);
  }

  lemma GaveBack(st: State, paged: State, last: State, c: nat, page: nat)
    requires GotPage(st, paged, c, page) && Frame(st, paged, c - 1) && Frame(paged, last, c - 1)
    requires Loans(last) == LoansWithout(paged, c, page) && c < |st.caches|
    requires CountedUpTo(paged, c) && CountedUpTo(last, c - 1) && Inv(paged, 0)
    ensures c < |last.caches| && last.caches[c] == st.caches[c]
    ensures CountedUpTo(last, c) && Frame(st, last, c) && Loans(last) == Loans(st)
  {
    hide Inv, CountedUpTo, SlabsOk, HomeOk, Vacant, Frame, FrameBut, Above, Loans;
    RecordAbove(st, paged, c - 1, c);
    RecordAbove(paged, last, c - 1, c);
    FrameAbove(paged, last, c - 1);
    CountedThrough(paged, last, c - 1, c);
    AsFrameBut(st, paged, c - 1);
    AsFrameBut(paged, last, c - 1);
    FrameTransitive(st, paged, last, c - 1, c - 1, {}, {});
    AsFrameBut(st, last, c - 1);
    FrameWeaken(st, last, c - 1, c);
  }

  /** A fresh node is the address of no existing header. */
  lemma FreshNode(st: State, n: nat)
    requires Inv(st, 0) && FreshBlock(st, n, SLAB_STRUCT)
    ensures n !in st.nodes && n !in st.slabs
  {
    hide *;
    TakeNode(st, n);
    FreshNodeOnSlab(st, st.(nodes := st.nodes + {n}), n);
  }

  lemma FreshNodeOnSlab(st: State, st': State, n: nat)
    requires Inv(st, 0) && st' == st.(nodes := st.nodes + {n}) && Inv(st', 0) && n !in st.nodes
    ensures n !in st.slabs
  {
    hide Inv, FreeOk, HeadsOk, InuseOk, QueuesOk, MagazinesOk, BlocksOk, Shape, HomeOk;
    Parts(st, 0);
    Parts(st', 0);
    if n in st.slabs {
      assert SlabOk(st.geo, n, st.slabs[n]);
      NodeOutsidePages(st', n, n);
    }
  }

  lemma NodeTaken(st: State, paged: State, mid: State, c: nat, page: nat, s: nat)
    requires GotPage(st, paged, c, page) && Frame(st, paged, c - 1) && FreshBlock(paged, s, SLAB_STRUCT)
    requires mid == paged.(nodes := paged.nodes + {s}) && CountedUpTo(paged, c) && Inv(paged, 0)
    ensures GotPage(st, mid, c, page) && Frame(st, mid, c - 1) && CountedUpTo(mid, c) && Inv(mid, 0)
    ensures s > 0 && s % 8 == 0 && s in mid.nodes && s !in mid.slabs && (s !in st.nodes || s in st.slabs)
  {
    hide Inv, CountsOk, SlabsOk, HomeOk, Vacant, Frame, FrameBut, Above, Loans, GotPage;
    TakeNode(paged, s);
    FreshNode(paged, s);
    AsFrameBut(st, paged, c - 1);
    AsFrameBut(paged, mid, -1);
    FrameTransitive(st, paged, mid, c - 1, -1, {}, {});
    AsFrameBut(st, mid, c - 1);
    PageStill(st, paged, mid, c, page);
    NodeNew(st, paged, c - 1, s);
  }

  lemma PageStill(st: State, paged: State, mid: State, c: nat, page: nat)
    requires GotPage(st, paged, c, page) && mid == paged.(nodes := mid.nodes) && Loans(mid) == Loans(paged)
    ensures GotPage(st, mid, c, page)
  {
    hide Loans;
  }

  lemma NodeNew(st: State, paged: State, c: int, s: nat)
    requires Frame(st, paged, c) && s !in paged.nodes
    ensures s !in st.nodes || s in st.slabs
  {
    hide Above, Kept;
  }

  lemma OnPage(st: State, paged: State, c: nat, page: nat)
    requires GotPage(st, paged, c, page) && Frame(st, paged, c - 1) && Inv(paged, 0) && c < |paged.caches|
    ensures var color := paged.caches[c].colorNext;
            && RoundUp(page + color) == page + color
            && (page + color !in st.nodes || page + color in st.slabs)
  {
    hide Inv, Loans, Vacant, Frame, Shape, BlocksOk, SlabsOk, HomeOk, Calculate, ColorReached;
    ColorFacts(paged, c);
    var n := page + paged.caches[c].colorNext;
    assert n % 8 == 0;
    if n in paged.nodes {
      VacantNoNode(paged, c, page, n);
    } else {
      NodeNew(st, paged, c - 1, n);
    }
  }

  lemma VacantNoNode(st: State, c: nat, page: nat, n: nat)
    requires c < |st.geo| && n in st.nodes && SlabsOk(st) && HomeOk(st) && Vacant(st, c, page) && Inv(st, 0)
    ensures Apart(n, SLAB_STRUCT, page, st.geo[c].pageSize)
  {
    hide *;
    Parts(st, 0);
    VacantNodes(st, c, page, n);
  }

  /** A page for `c` and the place `s` of its header have been obtained, and nothing has been written yet. */
  ghost predicate Obtained(st: State, mid: State, c: nat, page: nat, s: nat, coloroff: nat) {
    && c < |mid.geo| && c < |mid.caches| && c < |st.caches|
    && GotPage(st, mid, c, page) && Frame(st, mid, c - 1) && CountedUpTo(mid, c)
    && (s !in st.nodes || s in st.slabs)
    && coloroff == ColorOffset(mid.geo[c], mid.caches[c].colorNext)
    && (if mid.geo[c].offSlab then s > 0 && s % 8 == 0 && s in mid.nodes && s !in mid.slabs
        else s == page + mid.caches[c].colorNext)
    && Inv(mid, 0)
  }

  lemma PlaceFacts(st: State, mid: State, c: nat, page: nat, s: nat, coloroff: nat)
    requires Obtained(st, mid, c, page, s, coloroff)
    ensures c < |mid.geo| && c < |mid.caches| && page >= PTR && page % 8 == 0
    ensures var g := mid.geo[c];
            g.unitSize > 0 && g.unitSize % 8 == 0 && coloroff % 8 == 0 && coloroff + g.unitSize <= g.pageSize
  {
    hide Inv, CountedUpTo, Frame, Loans, Calculate, HomeOk, SlabsOk;
    ColorFacts(mid, c);
    PagePositive(mid, c, page);
  }

  lemma PagePositive(st: State, c: nat, page: nat)
    requires SlabsOk(st) && HomeOk(st) && c < |st.geo| && Vacant(st, c, page) && Inv(st, 0)
    ensures page >= PTR
  {
    hide Inv;
    Ready(st);
  }

  lemma CarvedNow(st: State, mid: State, st': State, c: nat, s: nat, page: nat, coloroff: nat, n: nat, us: seq<nat>)
    requires |us| == n > 0 && page >= PTR && c < |mid.geo| && c < |mid.caches|
    requires Chained(us, st'.word) && NoDup(us) && SameOutside(us, mid.word, st'.word)
    requires n * mid.geo[c].unitSize <= mid.geo[c].pageSize - coloroff < (n + 1) * mid.geo[c].unitSize
    requires forall u :: u in us ==>
             u % 8 == 0 && page + coloroff <= u && u + mid.geo[c].unitSize <= page + mid.geo[c].pageSize
    requires forall u, v :: u in us && v in us && u < v ==> u + mid.geo[c].unitSize <= v
    requires var sl := Slab(page, mid.geo[c].pageSize, coloroff, 0, us[0], c);
             var cache := mid.caches[c];
             var next := cache.colorNext + PTR;
             var color := if next >= mid.geo[c].colorLimit then 0 else next;
             st' == AddSlab(mid, s, sl, us, st'.word,
                            cache.(colorNext := color, pagesNew := cache.pagesNew + 1,
                              pagesInuse := cache.pagesInuse + 1))
    requires Obtained(st, mid, c, page, s, coloroff)
    ensures Created(st, mid, st', c, s, n, us)
  {
    hide Inv, CountedUpTo, Frame, Loans, Chained, NoDup, Calculate, CalcOk, HomeOk, SlabsOk, Vacant, UnitIn, SlabOk,
         Carved;
    var sl := Slab(page, mid.geo[c].pageSize, coloroff, 0, us[0], c);
    var g, color := mid.geo[c], mid.caches[c].colorNext;
    ColorFacts(mid, c);
    CalcAt(mid, c);
    WholePage(g, color, n);
    PlacedSlab(mid.geo, c, s, page, color);
    UnitsPlaced(mid.geo, sl, us);
    IsCarved(mid, c, s, sl, us, st'.word);
  }

  lemma CalcAt(st: State, c: nat)
    requires Inv(st, 0) && c < |st.geo|
    ensures CalcOk(st.geo[c])
  {
    hide Inv, CalcOk;
    Ready(st);
  }

  lemma PlacedSlab(geo: seq<Geom>, c: nat, s: nat, page: nat, color: nat)
    requires c < |geo| && page % 8 == 0 && page >= PTR && color % 8 == 0
    requires ColorOffset(geo[c], color) <= geo[c].pageSize
    requires if geo[c].offSlab then s > 0 && s % 8 == 0 else s == page + color
    ensures forall b :: SlabOk(geo, s, Slab(page, geo[c].pageSize, ColorOffset(geo[c], color), 0, b, c))
  {
  }

  lemma UnitsPlaced(geo: seq<Geom>, sl: Slab, us: seq<nat>)
    requires sl.extra < |geo|
    requires forall u :: u in us ==>
               u % 8 == 0 && sl.membase + sl.coloroff <= u && u + geo[sl.extra].unitSize <= sl.membase + sl.memsize
    ensures forall u :: u in us ==> UnitIn(geo, sl, u)
  {
  }

  lemma IsCarved(st: State, c: nat, s: nat, sl: Slab, us: seq<nat>, word': map<nat, nat>)
    requires c < |st.geo| && c < |st.caches| && SlabsOk(st) && HomeOk(st) && Vacant(st, c, sl.membase)
    requires sl.extra == c && sl.inuse == 0 && SlabOk(st.geo, s, sl)
    requires st.geo[c].offSlab ==> s in st.nodes && s !in st.slabs
    requires Whole(st.geo[c], |us|) && us != [] && sl.bufctl == us[0] && NoDup(us)
    requires forall u :: u in us ==> UnitIn(st.geo, sl, u)
    requires forall u, v :: u in us && v in us && u < v ==> u + st.geo[c].unitSize <= v
    requires Chained(us, word') && SameOutside(us, st.word, word')
    ensures Carved(st, c, s, sl, us, word')
  {
    hide SlabsOk, HomeOk, Vacant, UnitIn, SlabOk, NoDup, Chained;
  }

  lemma WholePage(g: Geom, color: nat, n: nat)
    requires CalcOk(g) && ColorReached(Calculate(g.unitSize, g.pageSize), color) && 16 <= g.unitSize <= g.pageSize
    requires n * g.unitSize <= g.pageSize - ColorOffset(g, color) < (n + 1) * g.unitSize
    ensures Whole(g, n)
  {
    CarvedUnits(g.unitSize, g.pageSize, color, n);
  }

  // ---------- frames and counters across calls ----------

  lemma FrameSame(st: State, c: int)
    requires Inv(st, 0)
    ensures Frame(st, st, c)
  {
    hide Inv, UnitIn, FreeListOk, Shape, NodesOk, BlocksOk, HeadsOk, InuseOk, QueuesOk, MagazinesOk, ColorsOk, CalcsOk;
    Parts(st, 0);
  }

  lemma FrameAbove(st: State, st': State, c: int)
    requires Frame(st, st', c)
    ensures Above(st, st', c) && st'.geo == st.geo && st'.pg == st.pg && |st'.caches| == |st.caches|
  {
    hide SameLoan, Loans;
  }

  lemma RecordAbove(st: State, st': State, c: int, i: nat)
    requires Frame(st, st', c) && i < |st.caches| && c < i
    ensures i < |st'.caches| && st'.caches[i] == st.caches[i]
  {
    hide SameLoan, Loans;
  }

  lemma FrameWeaken(st: State, st': State, c: int, d: int)
    requires Frame(st, st', c) && c <= d
    ensures Frame(st, st', d)
  {
    hide SameLoan;
  }

  lemma CountedLess(st: State, c: int, d: int)
    requires CountedUpTo(st, c) && d <= c
    ensures CountedUpTo(st, d)
  {
    hide CountsOk;
  }

  /** Counters of caches above `g` survive a call into cache `g`. */
  lemma CountedThrough(st: State, st': State, g: int, c: int)
    requires Inv(st, 0) && CountedUpTo(st, c) && CountedUpTo(st', g) && Above(st, st', g)
    ensures CountedUpTo(st', c)
  {
    hide Inv, CountsOk;
    Parts(st, 0);
    forall i | 0 <= i <= c && i < |st'.caches| && i > g ensures CountsOk(st'.caches[i], st'.free) {
      CountedKept(st, st', 0, i);
    }
  }

  /** Caches of objects no larger than those of `c` are as they were: an operation reaches at most its suppliers. */
  ghost predicate SameSmaller(geo: seq<Geom>, cs: seq<Cache>, cs': seq<Cache>, c: nat)
    requires c < |geo|
  {
    && |cs'| == |cs|
    && forall i :: 0 <= i < |cs| && i < |geo| && i != c && geo[i].objSize <= geo[c].objSize ==> cs'[i] == cs[i]
  }

  lemma SmallerThrough(geo: seq<Geom>, cs: seq<Cache>, cs': seq<Cache>, cs'': seq<Cache>, c: nat)
    requires c < |geo| && SameSmaller(geo, cs, cs', c) && SameSmaller(geo, cs', cs'', c)
    ensures SameSmaller(geo, cs, cs'', c)
  {
  }

  lemma SupplierLarger(st: State, c: nat)
    requires Inv(st, 0) && c < |st.geo| && st.geo[c].gfp.Some?
    ensures st.geo[c].gfp.value < c && st.geo[st.geo[c].gfp.value].objSize > st.geo[c].objSize
  {
    assert LinkOk(st.pg, st.geo, c);
  }

  lemma SupplierBelow(st: State, c: nat)
    requires Inv(st, 0) && c < |st.geo| && st.geo[c].gfp.Some?
    ensures st.geo[c].gfp.value < c
  {
    assert LinkOk(st.pg, st.geo, c);
  }

  lemma UnusedIsVacant(st: State, c: nat, p: nat)
    requires Inv(st, 0) && SlabsOk(st) && UnusedPage(st, p) && c < |st.geo| && st.geo[c].gfp.None?
    ensures HomeOk(st) && Vacant(st, c, p) && p % 8 == 0
  {
    hide Inv, HomeOk, Shape;
    Parts(st, 0);
    Ready(st);
  }

  lemma ClientIsVacant(st: State, c: nat, p: nat)
    requires Inv(st, 0) && c < |st.geo| && st.geo[c].gfp.Some? && p >= PTR
    requires InCache(st, p - PTR, st.geo[c].gfp.value) && p - PTR in Loans(st) && Loans(st)[p - PTR] == Client
    ensures SlabsOk(st) && HomeOk(st) && Vacant(st, c, p) && p % 8 == 0
  {
    hide Inv, HomeOk, SlabsOk;
    Basics(st, 0);
    UnitPositive(st, p - PTR);
  }

  lemma Basics(st: State, m: nat)
    requires Inv(st, m)
    ensures SlabsOk(st) && HomeOk(st)
  {
    hide *;
    Parts(st, m);
  }

  lemma CountedNone(st: State)
    ensures CountedUpTo(st, -1)
  {
  }

  // ---------- the carving loop ----------

  function Times(n: nat, unit: nat): nat {
    n * unit
  }

  predicate Aligned(a: nat) {
    a % 8 == 0
  }

  lemma OneMore(n: nat, unit: nat)
    ensures Times(n + 1, unit) == Times(n, unit) + unit
  {
  }

  lemma NoTimes(unit: nat)
    ensures Times(0, unit) == 0
  {
  }

  lemma TimesAre(n: nat, unit: nat)
    ensures Times(n, unit) == n * unit && Times(n + 1, unit) == (n + 1) * unit
  {
  }

  lemma StartsAligned(a: nat)
    requires a % 8 == 0
    ensures Aligned(a)
  {
  }

  lemma AlignedNext(a: nat, unit: nat)
    requires Aligned(a) && unit % 8 == 0
    ensures Aligned(a + unit)
  {
  }

  lemma NothingCarved(start: nat, unit: nat, word: map<nat, nat>)
    ensures Stretch([], start, start, unit) && Chained([], word) && SameOutside([], word, word)
  {
  }

  /** Consecutive aligned units between `lo` and `hi`, in order. */
  ghost predicate Stretch(us: seq<nat>, lo: nat, hi: nat, unit: nat) {
    && (forall i :: 0 <= i < |us| ==> lo <= us[i] && us[i] + unit <= hi && us[i] % 8 == 0)
    && (forall i, j :: 0 <= i < j < |us| ==> us[i] + unit <= us[j])
  }

  ghost predicate SameOutside(us: seq<nat>, word: map<nat, nat>, word': map<nat, nat>) {
    forall a :: a !in us ==> (a in word' <==> a in word) && (a in word ==> word'[a] == word[a])
  }

  lemma StretchGrow(us: seq<nat>, lo: nat, hi: nat, unit: nat)
    requires Stretch(us, lo, hi, unit) && lo <= hi && Aligned(hi) && unit > 0
    ensures Stretch(us + [hi], lo, hi + unit, unit) && NoDup(us) && hi !in us
  {
  }

  lemma StretchSpaced(us: seq<nat>, lo: nat, hi: nat, unit: nat)
    requires Stretch(us, lo, hi, unit) && unit > 0
    ensures NoDup(us)
    ensures forall u :: u in us ==> u % 8 == 0 && lo <= u && u + unit <= hi
    ensures forall u, v :: u in us && v in us && u < v ==> u + unit <= v
  {
    forall u, v | u in us && v in us && u < v ensures u + unit <= v {
      var i :| 0 <= i < |us| && us[i] == u;
      var j :| 0 <= j < |us| && us[j] == v;
      assert i < j || j < i;
    }
  }

  lemma SameGrow(us: seq<nat>, before: map<nat, nat>, word: map<nat, nat>, u: nat, word': map<nat, nat>)
    requires SameOutside(us, before, word)
    requires word' == (if us == [] then word[u := 0] else word[u := 0][us[|us| - 1] := u])
    ensures SameOutside(us + [u], before, word')
  {
    assert u in us + [u];
    assert forall a :: a in us ==> a in us + [u];
  }

  lemma ChainGrow(f: seq<nat>, word: map<nat, nat>, u: nat, word': map<nat, nat>)
    requires Chained(f, word) && NoDup(f) && u !in f
    requires word' == (if f == [] then word[u := 0] else word[u := 0][f[|f| - 1] := u])
    ensures Chained(f + [u], word')
  {
    var g := f + [u];
    forall i | 0 <= i < |g| ensures Linked(g, word', i) {
      if i < |f| { assert Linked(f, word, i); }
    }
  }

  // ---------- the empty heap, large blocks, stores ----------

  function EmptyCache(): Cache {
    Cache([], [], [], 0, 0, 0, 0, 0, seq(LRU_COUNT, _ => []), 0, 0, 0)
  }

  lemma EmptyHeap(st: State)
    requires st.slabs == map[] && st.word == map[] && st.pages == {} && st.nodes == {} && st.large == map[]
    requires st.home == map[] && st.free == map[] && st.owner == map[]
    requires |st.caches| == |st.geo| && forall c :: 0 <= c < |st.caches| ==> st.caches[c] == EmptyCache()
    requires LinksOk(st.pg, st.geo) && CalcsOk(st.geo)
    ensures Loans(st) == map[] && CountedUpTo(st, |st.geo| - 1) && Inv(st, 0)
  {
    hide LinkOk, CalcOk;
    assert Shape(st) && NodesOk(st) && BlocksOk(st) && FreeOk(st) && HeadsOk(st) && InuseOk(st);
    assert QueuesOk(st.caches, st.slabs, 0);
    assert MagazinesOk(st) && ColorsOk(st.geo, st.caches);
  }

  /** A word that is no unit's header may change. */
  lemma StoreInv(st: State, a: nat, v: nat)
    requires a !in st.home && Inv(st, 0)
    ensures var st' := st.(word := st.word[a := v]); Loans(st') == Loans(st) && Inv(st', 0)
  {
    hide *;
    var st' := st.(word := st.word[a := v]);
    Parts(st, 0);
    StoreGeometry(st, a, v);
    ShapeKept(st, st');
    StoreFree(st, a, v);
    StoreMagazines(st, a, v);
    Assemble(st', 0);
  }

  lemma StoreGeometry(st: State, a: nat, v: nat)
    requires a !in st.home && HeadsOk(st) && InuseOk(st)
    ensures var st' := st.(word := st.word[a := v]);
            SameGeometry(st, st') && HeadsOk(st') && InuseOk(st') && Loans(st') == Loans(st)
  {
    var st' := st.(word := st.word[a := v]);
    forall t | t in st'.slabs ensures st'.slabs[t].inuse == |Held(st', t)| {
      assert Held(st', t) == Held(st, t);
    }
  }

  lemma StoreFree(st: State, a: nat, v: nat)
    requires a !in st.home && FreeOk(st)
    ensures FreeOk(st.(word := st.word[a := v]))
  {
    hide Chained, NoDup;
    var st' := st.(word := st.word[a := v]);
    forall t | t in st'.slabs ensures FreeListOk(st', t) {
      assert FreeListOk(st, t);
      ChainAgree(st.free[t], st.word, st'.word);
    }
  }

  lemma StoreMagazines(st: State, a: nat, v: nat)
    requires MagazinesOk(st)
    ensures MagazinesOk(st.(word := st.word[a := v]))
  {
    var st' := st.(word := st.word[a := v]);
    forall c, k | 0 <= c < |st'.caches| && 0 <= k < LRU_COUNT ensures MagazineOk(st', c, k) {
      assert MagazineOk(st, c, k);
    }
  }

  lemma IsFresh(st: State, p: nat, len: nat)
    requires FreshAddress(st.pg, st.pages, st.nodes, st.large, p, len)
    ensures FreshBlock(st, p, len)
  {
    hide FreshAddress;
  }

  /** A large block was obtained: its two header words are written and nothing else that matters changed. */
  ghost predicate LargeTaken(st: State, st': State, b: nat, size: nat) {
    && st'.large == st.large[b := size]
    && b + LARGE_HEAD - PTR in st'.word && st'.word[b + LARGE_HEAD - PTR] == 0
    && b + LARGE_HEAD - 2 * PTR in st'.word && st'.word[b + LARGE_HEAD - 2 * PTR] == size
    && st'.geo == st.geo && Loans(st') == Loans(st) && Kept(st, st')
  }

  /** Every unit lies outside a block that is apart from every default page. */
  lemma UnitOutsideBlock(st: State, b: nat, u: nat)
    requires Shape(st) && BlocksOk(st) && b in st.large && u in st.home
    ensures Apart(b, LARGE_HEAD + st.large[b], u, UnitAt(st, u))
  {
    LargeOutsidePages(st, b, st.home[u]);
    assert UnitIn(st.geo, st.slabs[st.home[u]], u);
  }

  lemma TakenLarge(st: State, st': State, b: nat, size: nat)
    requires FreshBlock(st, b, LARGE_HEAD + size)
    requires st' == st.(large := st.large[b := size],
                        word := st.word[b + LARGE_HEAD - PTR := 0][b + LARGE_HEAD - 2 * PTR := size])
    requires CountedUpTo(st, |st.geo| - 1) && Inv(st, 0)
    ensures b !in st.large && LargeTaken(st, st', b, size)
    ensures CountedUpTo(st', |st.geo| - 1) && Inv(st', 0)
  {
    hide Inv, FreshBlock, CountedUpTo, Loans, Kept;
    var mid := st.(large := st.large[b := size]);
    TakeLarge(st, b, size);
    var a1, a2 := b + LARGE_HEAD - PTR, b + LARGE_HEAD - 2 * PTR;
    HeaderWords(mid, b);
    StoreInv(mid, a1, 0);
    var mid2 := mid.(word := mid.word[a1 := 0]);
    StoreInv(mid2, a2, size);
    CountedSame(st, st', |st.geo| - 1);
    TakenKept(st, mid, st', b, size);
  }

  lemma HeaderWords(st: State, b: nat)
    requires b in st.large && Inv(st, 0)
    ensures b + LARGE_HEAD - PTR !in st.home && b + LARGE_HEAD - 2 * PTR !in st.home
  {
    hide Inv, Shape, BlocksOk;
    Ready(st);
    forall u | u in st.home ensures u != b + LARGE_HEAD - PTR && u != b + LARGE_HEAD - 2 * PTR {
      UnitOutsideBlock(st, b, u);
      assert LinkOk(st.pg, st.geo, st.slabs[st.home[u]].extra);
    }
  }

  lemma TakenKept(st: State, mid: State, st': State, b: nat, size: nat)
    requires b !in st.large && mid == st.(large := st.large[b := size])
    requires st' == mid.(word := mid.word[b + LARGE_HEAD - PTR := 0][b + LARGE_HEAD - 2 * PTR := size])
    requires Inv(mid, 0)
    ensures Kept(st, st')
  {
    hide Inv, Shape, BlocksOk, SameLoan, SameWords, HeadsOk, FreeOk, InuseOk, QueuesOk, MagazinesOk, ColorsOk, CalcsOk,
         NodesOk, HomeOk, SlabsOk;
    Ready(mid);
    forall u | u in Loans(st) && u in Loans(st') ensures SameLoan(st, st', u) {
      TakenLoan(st, mid, st', b, size, u);
    }
    forall d | d in st.large ensures SameWords(st.word, st'.word, d, d + LARGE_HEAD + st.large[d]) {
      BlocksApart(mid, b, d);
      TwoWords(st.word, b + LARGE_HEAD - PTR, 0, b + LARGE_HEAD - 2 * PTR, size, d, d + LARGE_HEAD + st.large[d]);
    }
  }

  lemma TwoWords(word: map<nat, nat>, a1: nat, v1: nat, a2: nat, v2: nat, lo: nat, hi: nat)
    requires !(lo <= a1 < hi) && !(lo <= a2 < hi)
    ensures SameWords(word, word[a1 := v1][a2 := v2], lo, hi)
  {
  }

  lemma TakenLoan(st: State, mid: State, st': State, b: nat, size: nat, u: nat)
    requires b !in st.large && mid == st.(large := st.large[b := size])
    requires st' == mid.(word := mid.word[b + LARGE_HEAD - PTR := 0][b + LARGE_HEAD - 2 * PTR := size])
    requires Shape(mid) && BlocksOk(mid) && u in st.home
    ensures SameLoan(st, st', u)
  {
    hide BlocksOk, HomeOk, Spaced, PagesOk, PagesOnce, DefaultPagesOk, LinksOk, SameWords;
    HomesInSlabs(mid);
    UnitOutsideBlock(mid, b, u);
    TwoWords(st.word, b + LARGE_HEAD - PTR, 0, b + LARGE_HEAD - 2 * PTR, size, u + PTR, u + UnitAt(st, u));
  }

  lemma BlocksApart(st: State, b: nat, d: nat)
    requires BlocksOk(st) && b in st.large && d in st.large && b != d
    ensures Apart(b, LARGE_HEAD + st.large[b], d, LARGE_HEAD + st.large[d])
  {
  }
}
