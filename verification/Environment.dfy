/** Blocks that come from outside the allocator: default pages, headers kept off their page, and the
  * blocks of large requests. They are assumed aligned and disjoint from what is outstanding.
  */
module Environment {
  import opened Layout
  import opened KmemState
  import opened Frames

  /** The block [p, p + len) overlaps no outstanding block. */
  predicate FreshAddress(pg: nat, pages: set<nat>, nodes: set<nat>, large: map<nat, nat>, p: nat, len: nat) {
    && p > 0 && p % 8 == 0
    && (forall q :: q in pages ==> Apart(p, len, q, pg))
    && (forall n :: n in nodes ==> Apart(p, len, n, SLAB_STRUCT))
    && (forall b :: b in large ==> Apart(p, len, b, LARGE_HEAD + large[b]))
  }

  ghost predicate FreshBlock(st: State, p: nat, len: nat) {
    FreshAddress(st.pg, st.pages, st.nodes, st.large, p, len)
  }

  /** The other three parts of the state are unchanged. */
  lemma BlocksIrrelevant(st: State, pages: set<nat>, nodes: set<nat>, large: map<nat, nat>)
    requires FreeOk(st) && HeadsOk(st) && InuseOk(st) && MagazinesOk(st)
    ensures var st' := st.(pages := pages, nodes := nodes, large := large);
            FreeOk(st') && HeadsOk(st') && InuseOk(st') && MagazinesOk(st') && Loans(st') == Loans(st)
  {
    var st' := st.(pages := pages, nodes := nodes, large := large);
    forall t | t in st'.slabs ensures FreeListOk(st', t) { assert FreeListOk(st, t); }
    forall t | t in st'.slabs ensures st'.slabs[t].inuse == |Held(st', t)| { assert Held(st', t) == Held(st, t); }
    forall c, k | 0 <= c < |st'.caches| && 0 <= k < LRU_COUNT ensures MagazineOk(st', c, k) {
      assert MagazineOk(st, c, k);
    }
  }

  /** The blocks in use are still outstanding. */
  ghost predicate StillThere(st: State, st': State)
    requires SlabsOk(st)
  {
    && st' == st.(pages := st'.pages, nodes := st'.nodes, large := st'.large)
    && (forall s :: s in st.slabs && st.geo[st.slabs[s].extra].gfp.None? ==> st.slabs[s].membase in st'.pages)
    && (forall s :: s in st.slabs && st.geo[st.slabs[s].extra].offSlab ==> s in st'.nodes)
  }

  lemma ShapeBlocks(st: State, st': State)
    requires Shape(st) && StillThere(st, st') && DefaultPagesOk(st')
    ensures Shape(st') && NodesOk(st')
  {
    hide HomeOk, SlabsOk, Spaced, DefaultPagesOk, LinksOk, PagesOk, PagesOnce, NodesOk;
    ShapeBlocksUnits(st, st');
    ShapeBlocksPages(st, st');
  }

  lemma ShapeBlocksUnits(st: State, st': State)
    requires Shape(st) && StillThere(st, st')
    ensures SlabsOk(st') && HomeOk(st') && Spaced(st') && NodesOk(st')
  {
    hide LinksOk, PagesOk, PagesOnce, DefaultPagesOk, SlabOk, UnitIn;
  }

  lemma ShapeBlocksPages(st: State, st': State)
    requires SlabsOk(st) && HomeOk(st) && PagesOk(st) && PagesOnce(st) && StillThere(st, st') && SlabsOk(st')
             && HomeOk(st')
    ensures PagesOk(st') && PagesOnce(st')
  {
    hide HomeOk, SlabsOk, PageOk;
    forall s | s in st'.slabs ensures PageOk(st', s) {
      assert PageOk(st, s);
      PageStays(st, st', s);
    }
  }

  lemma PageStays(st: State, st': State, s: nat)
    requires SlabsOk(st) && HomeOk(st) && SlabsOk(st') && HomeOk(st') && StillThere(st, st') && s in st.slabs
             && PageOk(st, s)
    ensures PageOk(st', s)
  {
    hide HomeOk, SlabOk;
  }

  lemma BlocksInv(st: State, st': State)
    requires Inv(st, 0) && StillThere(st, st') && DefaultPagesOk(st') && BlocksOk(st')
    ensures Inv(st', 0) && Loans(st') == Loans(st)
  {
    hide Shape, NodesOk, FreeOk, HeadsOk, InuseOk, QueuesOk, MagazinesOk, ColorsOk, CalcsOk, BlocksOk, DefaultPagesOk,
         Loans;
    ShapeBlocks(st, st');
    BlocksIrrelevant(st, st'.pages, st'.nodes, st'.large);
  }

  lemma BlocksFrame(st: State, st': State, gone: set<nat>)
    requires SlabsOk(st) && HomeOk(st) && FreeOk(st) && st.owner.Keys <= st.home.Keys
    requires st' == st.(pages := st'.pages, nodes := st'.nodes)
    requires forall n :: n in st.nodes && n !in gone ==> n in st'.nodes
    ensures FrameBut(st, st', -1, gone)
  {
    hide UnitIn, FreeListOk;
  }

  lemma Ready(st: State)
    requires Inv(st, 0)
    ensures SlabsOk(st) && HomeOk(st) && FreeOk(st) && st.owner.Keys <= st.home.Keys && Shape(st) && NodesOk(st)
    ensures BlocksOk(st) && DefaultPagesOk(st) && QueuesOk(st.caches, st.slabs, 0) && MagazinesOk(st) && InuseOk(st)
    ensures ColorsOk(st.geo, st.caches) && CalcsOk(st.geo) && LinksOk(st.pg, st.geo) && HeadsOk(st) && PagesOk(st)
  {
    hide SlabsOk, HomeOk, FreeOk, NodesOk, BlocksOk, DefaultPagesOk, QueuesOk, MagazinesOk, InuseOk, ColorsOk, CalcsOk,
         LinksOk, Spaced, PagesOk, PagesOnce;
  }

  lemma TakePage(st: State, p: nat)
    requires Inv(st, 0) && FreshBlock(st, p, st.pg) && st.pg > 0
    ensures var st' := st.(pages := st.pages + {p});
            && Inv(st', 0) && Frame(st, st', -1) && Loans(st') == Loans(st)
            && SlabsOk(st') && UnusedPage(st', p) && p !in st.pages
  {
    hide *;
    var st' := st.(pages := st.pages + {p});
    Ready(st);
    TakePageBlocks(st, p);
    BlocksInv(st, st');
    BlocksFrame(st, st', {});
    FrameIsFrame(st, st', -1);
  }

  lemma FrameIsFrame(st: State, st': State, c: int)
    ensures Frame(st, st', c) == FrameBut(st, st', c, {})
  {
    hide FrameBut;
  }

  /** `p` is outstanding, but no slab is carved from it. */
  ghost predicate UnusedPage(st: State, p: nat)
    requires SlabsOk(st)
  {
    p in st.pages && forall s :: s in st.slabs && st.geo[st.slabs[s].extra].gfp.None? ==> st.slabs[s].membase != p
  }

  lemma TakePageBlocks(st: State, p: nat)
    requires SlabsOk(st) && HomeOk(st) && PagesOk(st) && NodesOk(st) && DefaultPagesOk(st) && BlocksOk(st)
    requires FreshBlock(st, p, st.pg) && st.pg > 0
    ensures var st' := st.(pages := st.pages + {p});
            && DefaultPagesOk(st') && BlocksOk(st') && StillThere(st, st') && SlabsOk(st') && UnusedPage(st', p)
            && p !in st.pages
  {
    hide HomeOk, LinkOk;
    RootPages(st);
    TakePageApart(st, p);
    hide PagesOk, DefaultPagesOk, BlocksOk, FreshBlock;
  }

  lemma RootPages(st: State)
    requires SlabsOk(st) && HomeOk(st) && PagesOk(st)
    ensures forall s :: s in st.slabs && st.geo[st.slabs[s].extra].gfp.None? ==> st.slabs[s].membase in st.pages
  {
    forall s | s in st.slabs && st.geo[st.slabs[s].extra].gfp.None? ensures st.slabs[s].membase in st.pages {
      assert PageOk(st, s);
    }
  }

  lemma TakePageApart(st: State, p: nat)
    requires DefaultPagesOk(st) && BlocksOk(st) && FreshBlock(st, p, st.pg) && st.pg > 0
    ensures p !in st.pages
    ensures DefaultPagesOk(st.(pages := st.pages + {p})) && BlocksOk(st.(pages := st.pages + {p}))
  {
  }

  lemma ReleasePage(st: State, p: nat)
    requires Inv(st, 0) && SlabsOk(st) && UnusedPage(st, p)
    ensures var st' := st.(pages := st.pages - {p});
            Inv(st', 0) && Frame(st, st', -1) && Loans(st') == Loans(st)
  {
    hide *;
    var st' := st.(pages := st.pages - {p});
    Ready(st);
    ReleasePageBlocks(st, p);
    BlocksInv(st, st');
    BlocksFrame(st, st', {});
    FrameIsFrame(st, st', -1);
  }

  lemma ReleasePageBlocks(st: State, p: nat)
    requires SlabsOk(st) && HomeOk(st) && PagesOk(st) && NodesOk(st) && DefaultPagesOk(st) && BlocksOk(st)
    requires UnusedPage(st, p)
    ensures var st' := st.(pages := st.pages - {p});
            DefaultPagesOk(st') && BlocksOk(st') && StillThere(st, st')
  {
    hide HomeOk, PagesOk, PageOk;
    RootPages(st);
  }

  lemma TakeNode(st: State, n: nat)
    requires Inv(st, 0) && FreshBlock(st, n, SLAB_STRUCT)
    ensures var st' := st.(nodes := st.nodes + {n});
            Inv(st', 0) && Frame(st, st', -1) && Loans(st') == Loans(st) && n !in st.nodes
  {
    hide *;
    var st' := st.(nodes := st.nodes + {n});
    Ready(st);
    TakeNodeBlocks(st, n);
    BlocksInv(st, st');
    BlocksFrame(st, st', {});
    FrameIsFrame(st, st', -1);
  }

  lemma TakeNodeBlocks(st: State, n: nat)
    requires SlabsOk(st) && HomeOk(st) && PagesOk(st) && NodesOk(st) && DefaultPagesOk(st) && BlocksOk(st)
    requires FreshBlock(st, n, SLAB_STRUCT)
    ensures n !in st.nodes
    ensures var st' := st.(nodes := st.nodes + {n});
            DefaultPagesOk(st') && BlocksOk(st') && StillThere(st, st')
  {
    hide HomeOk, PagesOk, PageOk, SlabOk;
    RootPages(st);
  }

  lemma ReleaseNode(st: State, n: nat)
    requires Inv(st, 0) && n in st.nodes && n !in st.slabs
    ensures var st' := st.(nodes := st.nodes - {n});
            Inv(st', 0) && FrameBut(st, st', -1, {n}) && Loans(st') == Loans(st)
  {
    hide *;
    var st' := st.(nodes := st.nodes - {n});
    Ready(st);
    ReleaseNodeBlocks(st, n);
    BlocksInv(st, st');
    BlocksFrame(st, st', {n});
  }

  lemma ReleaseNodeBlocks(st: State, n: nat)
    requires SlabsOk(st) && HomeOk(st) && PagesOk(st) && NodesOk(st) && DefaultPagesOk(st) && BlocksOk(st)
    requires n !in st.slabs
    ensures var st' := st.(nodes := st.nodes - {n});
            DefaultPagesOk(st') && BlocksOk(st') && StillThere(st, st')
  {
    hide HomeOk, PagesOk, PageOk;
    RootPages(st);
  }

  lemma TakeLarge(st: State, b: nat, size: nat)
    requires Inv(st, 0) && FreshBlock(st, b, LARGE_HEAD + size)
    ensures b !in st.large
    ensures Inv(st.(large := st.large[b := size]), 0) && Loans(st.(large := st.large[b := size])) == Loans(st)
  {
    hide *;
    var st' := st.(large := st.large[b := size]);
    Ready(st);
    TakeLargeBlocks(st, b, size);
    BlocksInv(st, st');
  }

  lemma TakeLargeBlocks(st: State, b: nat, size: nat)
    requires SlabsOk(st) && HomeOk(st) && PagesOk(st) && NodesOk(st) && DefaultPagesOk(st) && BlocksOk(st)
    requires FreshBlock(st, b, LARGE_HEAD + size)
    ensures b !in st.large
    ensures var st' := st.(large := st.large[b := size]);
            DefaultPagesOk(st') && BlocksOk(st') && StillThere(st, st')
  {
    hide HomeOk, PagesOk, PageOk, SlabOk;
    RootPages(st);
    LargeBlocksApart(st, b, size);
  }

  lemma LargeBlocksApart(st: State, b: nat, size: nat)
    requires BlocksOk(st) && FreshBlock(st, b, LARGE_HEAD + size)
    ensures b !in st.large && BlocksOk(st.(large := st.large[b := size]))
  {
  }

  lemma ReleaseLarge(st: State, b: nat)
    requires Inv(st, 0)
    ensures Inv(st.(large := st.large - {b}), 0) && Loans(st.(large := st.large - {b})) == Loans(st)
  {
    hide *;
    var st' := st.(large := st.large - {b});
    Ready(st);
    ReleaseLargeBlocks(st, b);
    BlocksInv(st, st');
  }

  lemma ReleaseLargeBlocks(st: State, b: nat)
    requires SlabsOk(st) && HomeOk(st) && PagesOk(st) && NodesOk(st) && DefaultPagesOk(st) && BlocksOk(st)
    ensures var st' := st.(large := st.large - {b});
            DefaultPagesOk(st') && BlocksOk(st') && StillThere(st, st')
  {
    hide HomeOk, PagesOk, PageOk, SlabOk;
    RootPages(st);
  }
}
