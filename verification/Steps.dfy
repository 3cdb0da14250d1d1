/** The atomic changes the allocator makes to its heap, and that each keeps the heap shape. */
module Steps {
  import opened Layout
  import opened KmemState

  // ---------- changes that move no page and no unit ----------

  ghost predicate SameGeometry(st: State, st': State) {
    && st'.pg == st.pg && st'.geo == st.geo && st'.home == st.home
    && st'.pages == st.pages && st'.nodes == st.nodes && st'.large == st.large
    && st'.slabs.Keys == st.slabs.Keys
    && (forall s :: s in st.slabs ==>
          && st'.slabs[s].membase == st.slabs[s].membase && st'.slabs[s].memsize == st.slabs[s].memsize
          && st'.slabs[s].coloroff == st.slabs[s].coloroff && st'.slabs[s].extra == st.slabs[s].extra)
    && (forall u :: u in st.owner && st.owner[u].Page? ==> u in st'.owner && st'.owner[u] == st.owner[u])
    && (forall u :: u in st'.owner && st'.owner[u].Page? ==> u in st.owner && st'.owner[u] == st.owner[u])
  }

  lemma UnitsKept(st: State, st': State)
    requires SlabsOk(st) && HomeOk(st) && Spaced(st) && SameGeometry(st, st')
    ensures SlabsOk(st') && HomeOk(st') && Spaced(st')
  {
    forall s | s in st'.slabs ensures SlabOk(st'.geo, s, st'.slabs[s]) {
      assert SlabOk(st.geo, s, st.slabs[s]);
    }
    forall u | u in st'.home ensures st'.home[u] in st'.slabs && UnitIn(st'.geo, st'.slabs[st'.home[u]], u) {
      assert UnitIn(st.geo, st.slabs[st.home[u]], u);
    }
  }

  lemma PagesKept(st: State, st': State)
    requires SlabsOk(st) && HomeOk(st) && PagesOk(st) && SameGeometry(st, st')
    requires SlabsOk(st') && HomeOk(st')
    ensures PagesOk(st')
  {
    hide SlabOk, UnitIn;
    forall s | s in st'.slabs ensures PageOk(st', s) {
      assert PageOk(st, s);
    }
  }

  lemma RestKept(st: State, st': State)
    requires SlabsOk(st) && PagesOnce(st) && NodesOk(st) && BlocksOk(st) && DefaultPagesOk(st)
    requires SameGeometry(st, st') && SlabsOk(st')
    ensures PagesOnce(st') && NodesOk(st') && BlocksOk(st') && DefaultPagesOk(st')
  {
  }

  lemma ShapeKept(st: State, st': State)
    requires Shape(st) && NodesOk(st) && BlocksOk(st) && SameGeometry(st, st')
    ensures Shape(st') && NodesOk(st') && BlocksOk(st')
  {
    UnitsKept(st, st');
    PagesKept(st, st');
    RestKept(st, st');
    hide SlabsOk, HomeOk, Spaced, PagesOk, NodesOk, BlocksOk, PagesOnce, DefaultPagesOk;
  }

  /** imslab_alloc on `s`, then the header word of imemcache_list_alloc. */
  function PopUnit(st: State, s: nat): State
    requires s in st.slabs && s in st.free && st.free[s] != []
  {
    var f := st.free[s];
    var u := f[0];
    st.(slabs := st.slabs[s := st.slabs[s].(bufctl := LinkAt(f, 0), inuse := st.slabs[s].inuse + 1)],
        free := st.free[s := f[1..]],
        word := st.word[u := s],
        owner := st.owner[u := Hand])
  }

  /** imslab_free of unit `u` into `s`. */
  function PushUnit(st: State, s: nat, u: nat): State
    requires s in st.slabs && s in st.free && st.slabs[s].inuse > 0
  {
    st.(slabs := st.slabs[s := st.slabs[s].(bufctl := u, inuse := st.slabs[s].inuse - 1)],
        free := st.free[s := [u] + st.free[s]],
        word := st.word[u := st.slabs[s].bufctl],
        owner := st.owner - {u})
  }

  lemma PopFreeList(st: State, s: nat, t: nat)
    requires s in st.slabs && s in st.free && st.free[s] != [] && t in st.slabs && t in st.free
    requires FreeListOk(st, s) && FreeListOk(st, t)
    ensures FreeListOk(PopUnit(st, s), t)
  {
    hide Chained;
    ChainTail(st.free[s], st.word);
    ChainAgree(PopUnit(st, s).free[t], st.word, PopUnit(st, s).word);
  }

  lemma PopComplement(st: State, s: nat, u: nat)
    requires FreeOk(st) && s in st.slabs && st.free[s] != []
    requires u in st.home && u !in st.owner && u != st.free[s][0]
    ensures u in PopUnit(st, s).free[st.home[u]]
  {
    hide FreeListOk;
    assert u in st.free[st.home[u]];
    assert st.free[s] == [st.free[s][0]] + st.free[s][1..];
  }

  lemma PopFree(st: State, s: nat)
    requires FreeOk(st) && s in st.slabs && st.free[s] != []
    ensures FreeOk(PopUnit(st, s))
  {
    hide FreeListOk;
    var st' := PopUnit(st, s);
    assert FreeListOk(st, s);
    forall t | t in st'.slabs ensures FreeListOk(st', t) {
      assert FreeListOk(st, t);
      PopFreeList(st, s, t);
    }
    forall u | u in st'.home && u !in st'.owner ensures st'.home[u] in st'.free && u in st'.free[st'.home[u]] {
      PopComplement(st, s, u);
    }
  }

  lemma PopHeads(st: State, s: nat)
    requires FreeOk(st) && HeadsOk(st) && s in st.slabs && st.free[s] != []
    ensures HeadsOk(PopUnit(st, s))
  {
    assert FreeListOk(st, s);
  }

  lemma PopInuse(st: State, s: nat)
    requires FreeOk(st) && InuseOk(st) && s in st.slabs && st.free[s] != []
    ensures InuseOk(PopUnit(st, s))
  {
    var st' := PopUnit(st, s);
    var u := st.free[s][0];
    assert FreeListOk(st, s);
    forall t | t in st'.slabs ensures st'.slabs[t].inuse == |Held(st', t)| {
      assert Held(st', t) == if t == s then Held(st, t) + {u} else Held(st, t);
    }
  }

  lemma PopMagazines(st: State, s: nat)
    requires SlabsOk(st) && FreeOk(st) && MagazinesOk(st) && s in st.slabs && st.free[s] != []
    ensures MagazinesOk(PopUnit(st, s))
  {
    var st' := PopUnit(st, s);
    assert FreeListOk(st, s);
    forall c, k | 0 <= c < |st'.caches| && 0 <= k < LRU_COUNT ensures MagazineOk(st', c, k) {
      assert MagazineOk(st, c, k);
    }
  }

  lemma PopQueues(st: State, s: nat)
    requires QueuesOk(st.caches, st.slabs, s) && s in st.slabs && s in st.free && st.free[s] != []
    ensures QueuesOk(PopUnit(st, s).caches, PopUnit(st, s).slabs, s)
  {
    var st' := PopUnit(st, s);
    forall c, k | 0 <= c < |st'.caches| ensures QueueOk(st'.caches, st'.slabs, s, c, k) {
      assert QueueOk(st.caches, st.slabs, s, c, k);
    }
  }

  lemma PopGeometry(st: State, s: nat)
    requires FreeOk(st) && s in st.slabs && st.free[s] != []
    ensures SameGeometry(st, PopUnit(st, s))
  {
    assert FreeListOk(st, s);
  }

  lemma PopKeepsInv(st: State, s: nat)
    requires Inv(st, s) && s in st.slabs && s in st.free && st.free[s] != []
    ensures Inv(PopUnit(st, s), s)
  {
    hide Shape, SlabsOk, NodesOk, BlocksOk, FreeOk, HeadsOk, InuseOk, QueuesOk, MagazinesOk, ColorsOk, CalcsOk,
         SameGeometry;
    PopFree(st, s);
    PopHeads(st, s);
    PopInuse(st, s);
    assert SlabsOk(st) by { ShapeSlabs(st); }
    PopMagazines(st, s);
    PopQueues(st, s);
    PopGeometry(st, s);
    ShapeKept(st, PopUnit(st, s));
  }

  lemma ShapeSlabs(st: State)
    requires Shape(st)
    ensures SlabsOk(st)
  {
  }

  // ---------- giving a unit back to its slab ----------

  lemma HeldMember(st: State, s: nat, u: nat)
    requires InuseOk(st) && s in st.slabs && u in st.owner && u in st.home && st.home[u] == s
    ensures st.slabs[s].inuse > 0
  {
    assert u in Held(st, s);
  }

  ghost predicate CanPush(st: State, s: nat, u: nat) {
    && s in st.slabs && s in st.free && st.slabs[s].inuse > 0
    && u in st.home && st.home[u] == s && u in st.owner && st.owner[u] == Hand
  }

  lemma PushFreeList(st: State, s: nat, u: nat, t: nat)
    requires CanPush(st, s, u) && t in st.slabs && t in st.free
    requires FreeListOk(st, s) && FreeListOk(st, t)
    ensures FreeListOk(PushUnit(st, s, u), t)
  {
    hide Chained;
    if s == t {
      ChainCons(st.free[s], st.word, u);
    } else {
      ChainAgree(st.free[t], st.word, PushUnit(st, s, u).word);
    }
  }

  lemma PushFree(st: State, s: nat, u: nat)
    requires FreeOk(st) && CanPush(st, s, u)
    ensures FreeOk(PushUnit(st, s, u))
  {
    hide FreeListOk;
    var st' := PushUnit(st, s, u);
    assert FreeListOk(st, s);
    forall t | t in st'.slabs ensures FreeListOk(st', t) {
      assert FreeListOk(st, t);
      PushFreeList(st, s, u, t);
    }
  }

  lemma PushHeads(st: State, s: nat, u: nat)
    requires HeadsOk(st) && CanPush(st, s, u)
    ensures HeadsOk(PushUnit(st, s, u))
  {
  }

  lemma PushInuse(st: State, s: nat, u: nat)
    requires InuseOk(st) && CanPush(st, s, u)
    ensures InuseOk(PushUnit(st, s, u))
  {
    var st' := PushUnit(st, s, u);
    assert u in Held(st, s);
    forall t | t in st'.slabs ensures st'.slabs[t].inuse == |Held(st', t)| {
      assert Held(st', t) == if t == s then Held(st, t) - {u} else Held(st, t);
    }
  }

  lemma PushMagazines(st: State, s: nat, u: nat)
    requires MagazinesOk(st) && CanPush(st, s, u)
    ensures MagazinesOk(PushUnit(st, s, u))
  {
    var st' := PushUnit(st, s, u);
    forall c, k | 0 <= c < |st'.caches| && 0 <= k < LRU_COUNT ensures MagazineOk(st', c, k) {
      assert MagazineOk(st, c, k);
    }
  }

  lemma PushQueues(st: State, s: nat, u: nat)
    requires QueuesOk(st.caches, st.slabs, s) && CanPush(st, s, u)
    ensures QueuesOk(PushUnit(st, s, u).caches, PushUnit(st, s, u).slabs, s)
  {
    var st' := PushUnit(st, s, u);
    forall c, k | 0 <= c < |st'.caches| ensures QueueOk(st'.caches, st'.slabs, s, c, k) {
      assert QueueOk(st.caches, st.slabs, s, c, k);
    }
  }

  lemma PushGeometry(st: State, s: nat, u: nat)
    requires CanPush(st, s, u)
    ensures SameGeometry(st, PushUnit(st, s, u))
  {
  }

  lemma PushKeepsInv(st: State, s: nat, u: nat)
    requires Inv(st, s) && CanPush(st, s, u)
    ensures Inv(PushUnit(st, s, u), s)
  {
    hide Shape, NodesOk, BlocksOk, FreeOk, HeadsOk, InuseOk, QueuesOk, MagazinesOk, ColorsOk, CalcsOk, SameGeometry;
    PushGeometry(st, s, u);
    PushFree(st, s, u);
    PushHeads(st, s, u);
    PushInuse(st, s, u);
    PushMagazines(st, s, u);
    PushQueues(st, s, u);
    ShapeKept(st, PushUnit(st, s, u));
  }

  // ---------- changing the holder of a unit ----------

  /** The unit passes to `o`; its header word is (un)tagged accordingly. */
  function Pass(st: State, u: nat, o: Owner): State
    requires u in st.home
  {
    st.(owner := st.owner[u := o], word := st.word[u := st.home[u] + Tag(o)])
  }

  /** array->entry[array->avial++] = ptr */
  function Load(st: State, c: nat, k: nat, u: nat): State
    requires c < |st.caches| && k < |st.caches[c].lru| && u in st.home
  {
    var cache := st.caches[c];
    Pass(st, u, Magazine(c, k)).(
      caches := st.caches[c := cache.(lru := cache.lru[k := cache.lru[k] + [u + PTR]])])
  }

  /** ptr = array->entry[--array->avial] */
  function Unload(st: State, c: nat, k: nat): State
    requires c < |st.caches| && k < |st.caches[c].lru| && st.caches[c].lru[k] != []
    requires var q := st.caches[c].lru[k]; q[|q| - 1] >= PTR && q[|q| - 1] - PTR in st.home
  {
    var cache := st.caches[c];
    var q := cache.lru[k];
    Pass(st, q[|q| - 1] - PTR, Hand).(
      caches := st.caches[c := cache.(lru := cache.lru[k := q[..|q| - 1]])])
  }

  /** Neither holder is a slab page. */
  ghost predicate CanPass(st: State, u: nat, o: Owner) {
    u in st.home && u in st.owner && !st.owner[u].Page? && !o.Page?
  }

  lemma PassFreeList(st: State, st': State, u: nat, w: nat, t: nat)
    requires u in st.home && u in st.owner && st'.geo == st.geo && st'.slabs == st.slabs && st'.home == st.home
             && st'.free == st.free
    requires st'.owner.Keys == st.owner.Keys
    requires st'.word == st.word[u := w]
    requires t in st.slabs && t in st.free && FreeListOk(st, t)
    ensures FreeListOk(st', t)
  {
    hide Chained;
    ChainAgree(st.free[t], st.word, st'.word);
  }

  lemma PassFree(st: State, u: nat, o: Owner)
    requires FreeOk(st) && CanPass(st, u, o)
    ensures FreeOk(Pass(st, u, o))
  {
    hide FreeListOk;
    var st' := Pass(st, u, o);
    forall t | t in st'.slabs ensures FreeListOk(st', t) {
      assert FreeListOk(st, t);
      PassFreeList(st, st', u, st.home[u] + Tag(o), t);
    }
  }

  lemma PassInuse(st: State, u: nat, o: Owner)
    requires InuseOk(st) && CanPass(st, u, o)
    ensures InuseOk(Pass(st, u, o))
  {
    var st' := Pass(st, u, o);
    forall t | t in st'.slabs ensures st'.slabs[t].inuse == |Held(st', t)| {
      assert Held(st', t) == Held(st, t);
    }
  }

  lemma PassGeometry(st: State, u: nat, o: Owner)
    requires CanPass(st, u, o)
    ensures SameGeometry(st, Pass(st, u, o))
  {
  }

  lemma PassHeads(st: State, u: nat, o: Owner)
    requires HeadsOk(st) && CanPass(st, u, o)
    ensures HeadsOk(Pass(st, u, o))
  {
  }

  /** Everything but the magazines is kept when a unit changes hands. */
  lemma PassKeeps(st: State, u: nat, o: Owner, m: nat)
    requires Inv(st, m) && CanPass(st, u, o)
    ensures var st' := Pass(st, u, o);
            Shape(st') && NodesOk(st') && BlocksOk(st') && FreeOk(st') && HeadsOk(st') && InuseOk(st')
  {
    hide Shape, NodesOk, BlocksOk, FreeOk, HeadsOk, InuseOk, QueuesOk, MagazinesOk, ColorsOk, CalcsOk, SameGeometry;
    PassGeometry(st, u, o);
    PassHeads(st, u, o);
    PassFree(st, u, o);
    PassInuse(st, u, o);
    ShapeKept(st, Pass(st, u, o));
  }

  /** Hand to client, or back: the magazines do not notice. */
  lemma PassKeepsInv(st: State, u: nat, o: Owner)
    requires Inv(st, 0) && CanPass(st, u, o) && !st.owner[u].Magazine? && !o.Magazine?
    ensures Inv(Pass(st, u, o), 0)
  {
    hide Shape, NodesOk, BlocksOk, FreeOk, HeadsOk, InuseOk, QueuesOk, MagazinesOk, ColorsOk, CalcsOk;
    PassKeeps(st, u, o, 0);
    PassMagazines(st, u, o);
  }

  lemma PassMagazines(st: State, u: nat, o: Owner)
    requires MagazinesOk(st) && CanPass(st, u, o) && !st.owner[u].Magazine? && !o.Magazine?
    ensures MagazinesOk(Pass(st, u, o))
  {
    var st' := Pass(st, u, o);
    forall c, k | 0 <= c < |st'.caches| && 0 <= k < LRU_COUNT ensures MagazineOk(st', c, k) {
      assert MagazineOk(st, c, k);
    }
  }

  ghost predicate CanLoad(st: State, c: nat, k: nat, u: nat) {
    && c < |st.caches| && c < |st.geo| && k < LRU_COUNT && |st.caches[c].lru| == LRU_COUNT
    && |st.caches[c].lru[k]| < st.geo[c].lruLimit
    && u in st.home && u in st.owner && st.owner[u] == Hand
    && st.home[u] in st.slabs && st.slabs[st.home[u]].extra == c
  }

  lemma LoadMagazines(st: State, c: nat, k: nat, u: nat)
    requires MagazinesOk(st) && CanLoad(st, c, k, u)
    ensures MagazinesOk(Load(st, c, k, u))
  {
    var st' := Load(st, c, k, u);
    assert MagazineOk(st, c, k);
    AppendMembers(st.caches[c].lru[k], u + PTR);
    forall d, j | 0 <= d < |st'.caches| && 0 <= j < LRU_COUNT ensures MagazineOk(st', d, j) {
      assert MagazineOk(st, d, j);
    }
    forall v | v in st'.owner && st'.owner[v].Magazine?
      ensures v + PTR in st'.caches[st'.owner[v].cache].lru[st'.owner[v].slot]
    {
      assert v == u || st.owner[v].Magazine?;
    }
  }

  ghost predicate SameQueues(cs: seq<Cache>, cs': seq<Cache>) {
    && |cs'| == |cs|
    && forall c :: 0 <= c < |cs| ==>
         && cs'[c].partial == cs[c].partial && cs'[c].full == cs[c].full && cs'[c].idle == cs[c].idle
         && cs'[c].colorNext == cs[c].colorNext
  }

  lemma QueuesKept(cs: seq<Cache>, cs': seq<Cache>, slabs: map<nat, Slab>, m: nat)
    requires QueuesOk(cs, slabs, m) && SameQueues(cs, cs')
    ensures QueuesOk(cs', slabs, m)
  {
    forall c, k | 0 <= c < |cs'| ensures QueueOk(cs', slabs, m, c, k) {
      assert QueueOk(cs, slabs, m, c, k);
    }
  }

  lemma ColorsKept(geo: seq<Geom>, cs: seq<Cache>, cs': seq<Cache>)
    requires ColorsOk(geo, cs) && SameQueues(cs, cs')
    ensures ColorsOk(geo, cs')
  {
  }

  /** Only `caches` differs. */
  lemma CachesIrrelevant(st: State, cs: seq<Cache>)
    requires Shape(st) && NodesOk(st) && BlocksOk(st) && FreeOk(st) && HeadsOk(st) && InuseOk(st)
    ensures var st' := st.(caches := cs);
            Shape(st') && NodesOk(st') && BlocksOk(st') && FreeOk(st') && HeadsOk(st') && InuseOk(st')
  {
    hide Shape, NodesOk, BlocksOk, FreeOk, HeadsOk, InuseOk, SameGeometry;
    CachesIrrelevantRest(st, cs);
    ShapeKept(st, st.(caches := cs));
    CachesIrrelevantFree(st, cs);
  }

  lemma CachesIrrelevantRest(st: State, cs: seq<Cache>)
    requires HeadsOk(st) && InuseOk(st)
    ensures SameGeometry(st, st.(caches := cs)) && HeadsOk(st.(caches := cs)) && InuseOk(st.(caches := cs))
  {
    var st' := st.(caches := cs);
    forall t | t in st'.slabs ensures st'.slabs[t].inuse == |Held(st', t)| {
      assert Held(st', t) == Held(st, t);
    }
  }

  lemma CachesIrrelevantFree(st: State, cs: seq<Cache>)
    requires FreeOk(st)
    ensures FreeOk(st.(caches := cs))
  {
    var st' := st.(caches := cs);
    forall t | t in st'.slabs ensures FreeListOk(st', t) {
      assert FreeListOk(st, t);
    }
  }

  lemma LoadKeepsInv(st: State, c: nat, k: nat, u: nat)
    requires Inv(st, 0) && CanLoad(st, c, k, u)
    ensures Inv(Load(st, c, k, u), 0)
  {
    hide Shape, NodesOk, BlocksOk, FreeOk, HeadsOk, InuseOk, QueuesOk, MagazinesOk, ColorsOk, CalcsOk;
    var st' := Load(st, c, k, u);
    PassKeeps(st, u, Magazine(c, k), 0);
    CachesIrrelevant(Pass(st, u, Magazine(c, k)), st'.caches);
    LoadMagazines(st, c, k, u);
    QueuesKept(st.caches, st'.caches, st.slabs, 0);
    ColorsKept(st.geo, st.caches, st'.caches);
  }

  ghost predicate CanUnload(st: State, c: nat, k: nat) {
    && c < |st.caches| && k < LRU_COUNT && |st.caches[c].lru| == LRU_COUNT && st.caches[c].lru[k] != []
  }

  lemma UnloadReady(st: State, c: nat, k: nat)
    requires MagazinesOk(st) && CanUnload(st, c, k)
    ensures var q := st.caches[c].lru[k];
            var e := q[|q| - 1];
            && e >= PTR && e - PTR in st.home && e - PTR in st.owner && st.owner[e - PTR] == Magazine(c, k)
            && st.home[e - PTR] in st.slabs && st.slabs[st.home[e - PTR]].extra == c
  {
    assert MagazineOk(st, c, k);
    var q := st.caches[c].lru[k];
    assert q[|q| - 1] in q;
  }

  lemma UnloadMagazines(st: State, c: nat, k: nat)
    requires MagazinesOk(st) && CanUnload(st, c, k)
    requires var q := st.caches[c].lru[k]; q[|q| - 1] >= PTR && q[|q| - 1] - PTR in st.home
    ensures MagazinesOk(Unload(st, c, k))
  {
    UnloadReady(st, c, k);
    var st' := Unload(st, c, k);
    var q := st.caches[c].lru[k];
    assert MagazineOk(st, c, k);
    DropLastMembers(q);
    forall d, j | 0 <= d < |st'.caches| && 0 <= j < LRU_COUNT ensures MagazineOk(st', d, j) {
      assert MagazineOk(st, d, j);
      var r := st'.caches[d].lru[j];
      assert r == if d == c && j == k then q[..|q| - 1] else st.caches[d].lru[j];
      forall e | e in r
        ensures e >= PTR && e - PTR in st'.owner && st'.owner[e - PTR] == Magazine(d, j)
      {
        assert e in st.caches[d].lru[j];
      }
    }
    forall v | v in st'.owner && st'.owner[v].Magazine?
      ensures v + PTR in st'.caches[st'.owner[v].cache].lru[st'.owner[v].slot]
    {
      assert st.owner[v] == st'.owner[v];
    }
  }

  lemma UnloadKeepsInv(st: State, c: nat, k: nat)
    requires Inv(st, 0) && CanUnload(st, c, k)
    requires var q := st.caches[c].lru[k]; q[|q| - 1] >= PTR && q[|q| - 1] - PTR in st.home
    ensures Inv(Unload(st, c, k), 0)
  {
    hide Shape, NodesOk, BlocksOk, FreeOk, HeadsOk, InuseOk, QueuesOk, MagazinesOk, ColorsOk, CalcsOk;
    UnloadReady(st, c, k);
    var st' := Unload(st, c, k);
    var q := st.caches[c].lru[k];
    var u := q[|q| - 1] - PTR;
    PassKeeps(st, u, Hand, 0);
    CachesIrrelevant(Pass(st, u, Hand), st'.caches);
    UnloadMagazines(st, c, k);
    QueuesKept(st.caches, st'.caches, st.slabs, 0);
    ColorsKept(st.geo, st.caches, st'.caches);
  }
}
