/** The memory of the slab allocator: caches, slab headers by address, memory words by address, and
  * (ghost) who holds each unit. The predicates below are the heap-shape invariant, one conjunct each.
  */
module KmemState {
  import opened Layout

  datatype Option<+T> = None | Some(value: T)

  /** The fields of imemcache_t that are fixed by imemcache_init_list and ikmem_append. */
  datatype Geom = Geom(
    objSize: nat,
    unitSize: nat,
    pageSize: nat,
    num: nat,
    colorLimit: nat,
    offSlab: bool,
    freeLimit: nat,
    lruLimit: nat,
    lruBatch: nat,
    gfp: Option<nat>)  // the index of the cache whose objects are this cache's pages; None: default pages

  /** The fields of imemcache_t that allocation changes. The three slab queues are listed from `next`
    * to `prev`; `lru[k]` is the content of `array[k].entry[..avial]`.
    */
  datatype Cache = Cache(
    partial: seq<nat>,
    full: seq<nat>,
    idle: seq<nat>,
    countPartial: int,
    countFull: int,
    countFree: int,
    freeObjects: int,
    colorNext: nat,
    lru: seq<seq<nat>>,
    pagesNew: int,
    pagesDel: int,
    pagesInuse: int)

  /** imemslab_t without its queue links. `extra` is the index of the owning cache. */
  datatype Slab = Slab(membase: nat, memsize: nat, coloroff: nat, inuse: nat, bufctl: nat, extra: nat)

  /** Who holds a unit that is on no free list. */
  datatype Owner =
    | Magazine(cache: nat, slot: nat)  // an entry of array[slot]
    | Hand                             // between the list layer and a magazine
    | Client                           // handed out by imemcache_alloc
    | Page(slab: nat)                  // handed out, and carved by another cache

  datatype State = State(
    pg: nat,                      // imem_gfp_default.page_size
    geo: seq<Geom>,
    caches: seq<Cache>,           // ikmem_array
    slabs: map<nat, Slab>,        // slab headers by address
    word: map<nat, nat>,          // machine words by address
    pages: set<nat>,              // outstanding default pages
    nodes: set<nat>,              // outstanding headers from imslab_set_new
    large: map<nat, nat>,         // outstanding large blocks: address of the block -> requested size
    home: map<nat, nat>,          // unit -> the slab it was carved for
    free: map<nat, seq<nat>>,     // slab -> its free list, from bufctl on
    owner: map<nat, Owner>)       // unit -> holder, for units on no free list

  const LARGE_HEAD: nat := 32     // IKMEM_LARGE_HEAD

  predicate Apart(a: int, alen: int, b: int, blen: int) {
    a + alen <= b || b + blen <= a
  }

  /** How a cache's pages relate to its supplier: an earlier cache, one of whose objects is a page. */
  predicate LinkOk(pg: nat, geo: seq<Geom>, i: nat)
    requires i < |geo|
  {
    && geo[i].objSize >= PTR
    && geo[i].unitSize % 8 == 0
    && geo[i].objSize + PTR <= geo[i].unitSize <= geo[i].pageSize
    && match geo[i].gfp
       case None => geo[i].pageSize == pg
       case Some(p) => p < i && geo[i].pageSize == geo[p].objSize
  }

  /** The remaining fields are those imemcache_init_list computes. */
  predicate CalcOk(g: Geom) {
    && g.objSize >= PTR
    && g.unitSize == UnitSize(g.objSize) <= g.pageSize
    && var c := Calculate(g.unitSize, g.pageSize);
    && g.num == c.num && g.colorLimit == c.colorLimit && g.offSlab == c.offSlab
    && g.freeLimit == c.batchcount + c.num
    && g.lruLimit == (if g.freeLimit >= ARRAY_LIMIT then ARRAY_LIMIT else g.freeLimit)
    && g.lruBatch == g.lruLimit / 2
  }

  predicate LinksOk(pg: nat, geo: seq<Geom>) {
    forall i :: 0 <= i < |geo| ==> LinkOk(pg, geo, i)
  }

  predicate CalcsOk(geo: seq<Geom>) {
    forall i :: 0 <= i < |geo| ==> CalcOk(geo[i])
  }

  // ---------- heap shape ----------

  predicate SlabOk(geo: seq<Geom>, s: nat, sl: Slab) {
    && s > 0 && s % 8 == 0
    && sl.extra < |geo|
    && sl.memsize == geo[sl.extra].pageSize
    && sl.membase % 8 == 0 && sl.membase >= PTR
    && sl.coloroff <= sl.memsize
    && (!geo[sl.extra].offSlab ==> sl.coloroff >= SLAB_STRUCT && s == sl.membase + sl.coloroff - SLAB_STRUCT)
  }

  ghost predicate SlabsOk(st: State) {
    forall s :: s in st.slabs ==> SlabOk(st.geo, s, st.slabs[s])
  }

  /** Off-slab headers are outstanding nodes. */
  ghost predicate NodesOk(st: State)
    requires SlabsOk(st)
  {
    forall s :: s in st.slabs && st.geo[st.slabs[s].extra].offSlab ==> s in st.nodes
  }

  function UnitOf(geo: seq<Geom>, sl: Slab): nat
    requires sl.extra < |geo|
  {
    geo[sl.extra].unitSize
  }

  predicate UnitIn(geo: seq<Geom>, sl: Slab, u: nat)
    requires sl.extra < |geo|
  {
    u % 8 == 0 && sl.membase + sl.coloroff <= u && u + UnitOf(geo, sl) <= sl.membase + sl.memsize
  }

  /** Units lie in the part of their slab's page that follows the colour (and the header, if on the page). */
  ghost predicate HomeOk(st: State)
    requires SlabsOk(st)
  {
    forall u :: u in st.home ==> st.home[u] in st.slabs && UnitIn(st.geo, st.slabs[st.home[u]], u)
  }

  ghost predicate Spaced(st: State)
    requires SlabsOk(st) && HomeOk(st)
  {
    forall u, v :: u in st.home && v in st.home && st.home[u] == st.home[v] && u < v ==>
      u + UnitOf(st.geo, st.slabs[st.home[u]]) <= v
  }

  /** The page of a slab: a default page, or an object of the supplier held as this slab's page. */
  ghost predicate PageOk(st: State, s: nat)
    requires SlabsOk(st) && HomeOk(st) && s in st.slabs
  {
    var sl := st.slabs[s];
    match st.geo[sl.extra].gfp
    case None => sl.membase in st.pages
    case Some(g) =>
      && sl.membase - PTR in st.owner && sl.membase - PTR in st.home
      && st.owner[sl.membase - PTR] == Page(s)
      && st.slabs[st.home[sl.membase - PTR]].extra == g
  }

  ghost predicate PagesOk(st: State)
    requires SlabsOk(st) && HomeOk(st)
  {
    && (forall s {:trigger PageOk(st, s)} :: s in st.slabs ==> PageOk(st, s))
    && (forall u :: u in st.owner && st.owner[u].Page? ==>
          var s := st.owner[u].slab;
          s in st.slabs && st.slabs[s].membase == u + PTR && st.geo[st.slabs[s].extra].gfp.Some?)
  }

  /** A default page is the page of one slab at most. */
  ghost predicate PagesOnce(st: State)
    requires SlabsOk(st)
  {
    forall s, t :: s in st.slabs && t in st.slabs && s != t
      && st.geo[st.slabs[s].extra].gfp.None? && st.geo[st.slabs[t].extra].gfp.None?
      ==> st.slabs[s].membase != st.slabs[t].membase
  }

  ghost predicate DefaultPagesOk(st: State) {
    && (forall p, q :: p in st.pages && q in st.pages && p != q ==> Apart(p, st.pg, q, st.pg))
    && (forall p :: p in st.pages ==> p % 8 == 0 && p >= PTR)
  }

  /** What the geometry of the pages and units rests on. */
  ghost predicate Shape(st: State) {
    && LinksOk(st.pg, st.geo)
    && SlabsOk(st)
    && HomeOk(st)
    && Spaced(st)
    && PagesOk(st)
    && PagesOnce(st)
    && DefaultPagesOk(st)
  }

  /** The other blocks obtained from outside: headers kept off their page, and large blocks. */
  ghost predicate BlocksOk(st: State) {
    && (forall m, n :: m in st.nodes && n in st.nodes && m != n ==> Apart(m, SLAB_STRUCT, n, SLAB_STRUCT))
    && (forall p, n :: p in st.pages && n in st.nodes ==> Apart(p, st.pg, n, SLAB_STRUCT))
    && (forall p, b :: p in st.pages && b in st.large ==> Apart(p, st.pg, b, LARGE_HEAD + st.large[b]))
    && (forall n, b :: n in st.nodes && b in st.large ==> Apart(n, SLAB_STRUCT, b, LARGE_HEAD + st.large[b]))
    && (forall b, c :: b in st.large && c in st.large && b != c ==>
          Apart(b, LARGE_HEAD + st.large[b], c, LARGE_HEAD + st.large[c]))
    && (forall n :: n in st.nodes ==> n % 8 == 0 && n > 0)
    && (forall b :: b in st.large ==> b % 8 == 0 && b > 0)
  }

  // ---------- free lists, holders, queues ----------

  predicate NoDup(q: seq<nat>) {
    forall i, j :: 0 <= i < j < |q| ==> q[i] != q[j]
  }

  /** iqueue_del, on the order of a queue. */
  function Remove(q: seq<nat>, s: nat): (r: seq<nat>) {
    if q == [] then [] else if q[0] == s then q[1..] else [q[0]] + Remove(q[1..], s)
  }

  lemma {:induction false} RemoveMembers(q: seq<nat>, s: nat)
    requires NoDup(q) && s in q
    ensures NoDup(Remove(q, s)) && |Remove(q, s)| == |q| - 1
    ensures forall x :: x in Remove(q, s) <==> x in q && x != s
  {
    if q[0] == s {
      assert forall x :: x in q <==> x == s || x in q[1..];
    } else {
      RemoveMembers(q[1..], s);
      assert forall x :: x in q <==> x == q[0] || x in q[1..];
      assert q[0] !in q[1..];
    }
  }

  lemma AppendMembers(q: seq<nat>, x: nat)
    requires NoDup(q) && x !in q
    ensures NoDup(q + [x]) && NoDup([x] + q)
    ensures forall e :: e in q + [x] <==> e in q || e == x
    ensures forall e :: e in [x] + q <==> e in q || e == x
  {
  }

  lemma DropLastMembers(q: seq<nat>)
    requires NoDup(q) && q != []
    ensures NoDup(q[..|q| - 1])
    ensures forall e :: e in q[..|q| - 1] <==> e in q && e != q[|q| - 1]
  {
    assert q == q[..|q| - 1] + [q[|q| - 1]];
  }

  /** The word stored in unit `f[i]` of a free list; for i == -1 it is bufctl. */
  function LinkAt(f: seq<nat>, i: int): nat
    requires -1 <= i < |f|
  {
    if i + 1 < |f| then f[i + 1] else 0
  }

  predicate Linked(f: seq<nat>, word: map<nat, nat>, i: nat)
    requires i < |f|
  {
    f[i] in word && word[f[i]] == LinkAt(f, i)
  }

  /** The free list is threaded through the first words of its units. */
  ghost predicate Chained(f: seq<nat>, word: map<nat, nat>) {
    forall i {:trigger Linked(f, word, i)} :: 0 <= i < |f| ==> Linked(f, word, i)
  }

  lemma ChainAgree(f: seq<nat>, word: map<nat, nat>, word': map<nat, nat>)
    requires Chained(f, word)
    requires forall u :: u in f && u in word ==> u in word' && word'[u] == word[u]
    ensures Chained(f, word')
  {
    forall i | 0 <= i < |f| ensures Linked(f, word', i) {
      assert Linked(f, word, i);
    }
  }

  lemma ChainTail(f: seq<nat>, word: map<nat, nat>)
    requires Chained(f, word) && f != []
    ensures f[0] in word && word[f[0]] == LinkAt(f, 0) && Chained(f[1..], word)
  {
    assert Linked(f, word, 0);
    var g := f[1..];
    forall i | 0 <= i < |g| ensures Linked(g, word, i) {
      assert Linked(f, word, i + 1);
    }
  }

  lemma ChainCons(f: seq<nat>, word: map<nat, nat>, u: nat)
    requires Chained(f, word) && u !in f
    ensures Chained([u] + f, word[u := LinkAt(f, -1)])
  {
    var g := [u] + f;
    var word' := word[u := LinkAt(f, -1)];
    forall i | 0 <= i < |g| ensures Linked(g, word', i) {
      if i > 0 { assert Linked(f, word, i - 1); }
    }
  }

  /** A slab of this geometry is carved into `n` units. */
  predicate Whole(g: Geom, n: nat) {
    n == g.num || (!g.offSlab && n == g.num + 1)
  }

  ghost predicate FreeListOk(st: State, s: nat)
    requires s in st.slabs && s in st.free
  {
    var f := st.free[s];
    && st.slabs[s].extra < |st.geo| && Whole(st.geo[st.slabs[s].extra], st.slabs[s].inuse + |f|)
    && st.slabs[s].bufctl == LinkAt(f, -1)
    && NoDup(f)
    && (forall i :: 0 <= i < |f| ==> f[i] in st.home && st.home[f[i]] == s && f[i] !in st.owner)
    && Chained(f, st.word)
  }

  /** Each slab's chain of free units is threaded through memory from bufctl, and a unit is on its
    * slab's chain exactly when nobody holds it.
    */
  ghost predicate FreeOk(st: State) {
    && st.free.Keys == st.slabs.Keys
    && (forall s {:trigger FreeListOk(st, s)} :: s in st.slabs ==> FreeListOk(st, s))
    && (forall u :: u in st.home && u !in st.owner ==> st.home[u] in st.free && u in st.free[st.home[u]])
  }

  const MAGIC: nat := 5  // IMCACHE_CHECK_MAGIC

  function Tag(o: Owner): nat {
    if o.Client? || o.Page? then MAGIC else 0
  }

  /** A held unit's first word points to its slab, tagged with the magic while it is handed out. */
  ghost predicate HeadsOk(st: State) {
    && st.owner.Keys <= st.home.Keys
    && (forall u :: u in st.owner ==> u in st.word && st.word[u] == st.home[u] + Tag(st.owner[u]))
  }

  ghost function Held(st: State, s: nat): set<nat> {
    set u | u in st.owner && u in st.home && st.home[u] == s
  }

  ghost predicate InuseOk(st: State) {
    forall s {:trigger Held(st, s)} :: s in st.slabs ==> st.slabs[s].inuse == |Held(st, s)|
  }

  datatype Class = IsPartial | IsFull | IsIdle

  function ClassOf(sl: Slab): Class {
    if sl.inuse == 0 then IsIdle else if sl.bufctl == 0 then IsFull else IsPartial
  }

  function Queue(c: Cache, k: Class): seq<nat> {
    match k
    case IsPartial => c.partial
    case IsFull => c.full
    case IsIdle => c.idle
  }

  /** The queue that slab `s` belongs to; `moving` is a slab under way, kept on the partial queue. */
  function Place(slabs: map<nat, Slab>, moving: nat, s: nat): Class
    requires s in slabs
  {
    if s == moving then IsPartial else ClassOf(slabs[s])
  }

  ghost predicate QueueOk(caches: seq<Cache>, slabs: map<nat, Slab>, moving: nat, c: nat, k: Class)
    requires c < |caches|
  {
    var q := Queue(caches[c], k);
    && NoDup(q)
    && (forall s :: s in q ==> s in slabs && slabs[s].extra == c && Place(slabs, moving, s) == k)
  }

  /** Each slab is on exactly one queue, the one its class names. */
  ghost predicate QueuesOk(caches: seq<Cache>, slabs: map<nat, Slab>, moving: nat) {
    && (forall c, k :: 0 <= c < |caches| ==> QueueOk(caches, slabs, moving, c, k))
    && (forall s :: s in slabs ==>
          slabs[s].extra < |caches| && s in Queue(caches[slabs[s].extra], Place(slabs, moving, s)))
  }

  ghost predicate MagazineOk(st: State, c: nat, k: nat)
    requires c < |st.caches| && k < |st.caches[c].lru|
  {
    var q := st.caches[c].lru[k];
    && NoDup(q)
    && (forall e :: e in q ==>
          && e >= PTR && e - PTR in st.owner && st.owner[e - PTR] == Magazine(c, k)
          && e - PTR in st.home && st.home[e - PTR] in st.slabs && st.slabs[st.home[e - PTR]].extra == c)
  }

  /** The magazines hold what they are said to hold, within their limit. */
  ghost predicate MagazinesOk(st: State) {
    && |st.caches| == |st.geo|
    && (forall c :: 0 <= c < |st.caches| ==> |st.caches[c].lru| == LRU_COUNT)
    && (forall c, k :: 0 <= c < |st.caches| && 0 <= k < LRU_COUNT ==>
          MagazineOk(st, c, k) && |st.caches[c].lru[k]| <= st.geo[c].lruLimit)
    && (forall u :: u in st.owner && st.owner[u].Magazine? ==>
          var o := st.owner[u];
          o.cache < |st.caches| && o.slot < LRU_COUNT && u + PTR in st.caches[o.cache].lru[o.slot])
  }

  ghost predicate ColorsOk(geo: seq<Geom>, caches: seq<Cache>) {
    |caches| == |geo| &&
    forall c :: 0 <= c < |caches| ==>
      caches[c].colorNext % 8 == 0 && (caches[c].colorNext == 0 || caches[c].colorNext < geo[c].colorLimit)
  }

  /** The heap-shape invariant. It holds at every call into another cache, including in the middle of an
    * operation; the counters below are exact only between operations on their cache.
    */
  ghost predicate Inv(st: State, moving: nat) {
    && Shape(st)
    && NodesOk(st)
    && BlocksOk(st)
    && FreeOk(st)
    && HeadsOk(st)
    && InuseOk(st)
    && QueuesOk(st.caches, st.slabs, moving)
    && MagazinesOk(st)
    && ColorsOk(st.geo, st.caches)
    && CalcsOk(st.geo)
  }

  // ---------- counters ----------

  ghost function FreeSum(free: map<nat, seq<nat>>, q: seq<nat>): nat
    requires forall s :: s in q ==> s in free
  {
    if q == [] then 0 else |free[q[0]]| + FreeSum(free, q[1..])
  }

  /** The counters of one cache say what its queues and free lists hold. */
  ghost predicate CountsOk(c: Cache, free: map<nat, seq<nat>>) {
    && c.countPartial == |c.partial| && c.countFull == |c.full| && c.countFree == |c.idle|
    && (forall s :: s in c.partial ==> s in free) && (forall s :: s in c.idle ==> s in free)
    && c.freeObjects == FreeSum(free, c.partial) + FreeSum(free, c.idle)
    && c.pagesNew - c.pagesDel == c.pagesInuse == |c.partial| + |c.full| + |c.idle|
  }

  ghost predicate CountedUpTo(st: State, c: int) {
    forall i :: 0 <= i <= c && i < |st.caches| ==> CountsOk(st.caches[i], st.free)
  }
}
