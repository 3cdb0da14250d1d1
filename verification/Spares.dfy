/** Blocks taken from outside that no slab uses: a default page or a header between the moment it is obtained and the
  * moment a slab is carved there, or between the end of a slab and the return of its page and header. An operation
  * that starts without such blocks has to end without them, or it leaks.
  */
module Spares {
  import opened KmemState
  import opened Environment
  import opened SlabSteps
  import opened Frames
  import opened CacheLemmas

  datatype Unused = Unused(pages: set<nat>, nodes: set<nat>)

  ghost predicate IsPage(geo: seq<Geom>, slabs: map<nat, Slab>, p: nat) {
    exists s :: s in slabs && slabs[s].extra < |geo| && geo[slabs[s].extra].gfp.None? && slabs[s].membase == p
  }

  ghost predicate IsHeader(geo: seq<Geom>, slabs: map<nat, Slab>, n: nat) {
    n in slabs && slabs[n].extra < |geo| && geo[slabs[n].extra].offSlab
  }

  ghost function SpareOf(geo: seq<Geom>, slabs: map<nat, Slab>, pages: set<nat>, nodes: set<nat>): Unused {
    Unused(set p | p in pages && !IsPage(geo, slabs, p), set n | n in nodes && !IsHeader(geo, slabs, n))
  }

  ghost function Spare(st: State): Unused {
    SpareOf(st.geo, st.slabs, st.pages, st.nodes)
  }

  /** The default page of a slab of cache `c`, if that is where `c` gets its pages. */
  ghost function PageOf(geo: seq<Geom>, c: nat, page: nat): set<nat> {
    if c < |geo| && geo[c].gfp.None? then {page} else {}
  }

  /** The separate header of a slab of cache `c`, if `c` keeps headers off their page. */
  ghost function HeaderOf(geo: seq<Geom>, c: nat, s: nat): set<nat> {
    if c < |geo| && geo[c].offSlab then {s} else {}
  }

  /** Exactly these pages and headers became spare. */
  ghost predicate Plus(u: Unused, u': Unused, pages: set<nat>, nodes: set<nat>) {
    pages !! u.pages && nodes !! u.nodes && u' == Unused(u.pages + pages, u.nodes + nodes)
  }

  ghost function Less(u: Unused, pages: set<nat>, nodes: set<nat>): Unused {
    Unused(u.pages - pages, u.nodes - nodes)
  }

  lemma PlusThenLess(u: Unused, u': Unused, pages: set<nat>, nodes: set<nat>)
    requires Plus(u, u', pages, nodes)
    ensures Less(u', pages, nodes) == u
  {
  }

  lemma PlusBoth(u: Unused, u': Unused, u'': Unused, pages: set<nat>, nodes: set<nat>)
    requires Plus(u, u', pages, {}) && Plus(u', u'', {}, nodes)
    ensures Plus(u, u'', pages, nodes)
  {
  }

  lemma PlusNothing(u: Unused)
    ensures Plus(u, u, {}, {}) && Less(u, {}, {}) == u
  {
  }

  /** A default page was obtained. */
  lemma SpareTaken(st: State, st': State, p: nat)
    requires st' == st.(pages := st.pages + {p}) && p !in st.pages && Inv(st, 0)
    ensures Plus(Spare(st), Spare(st'), {p}, {})
  {
    hide Inv, HomeOk, PagesOk;
    Ready(st);
    RootPages(st);
  }

  lemma SpareReturned(st: State, st': State, p: nat)
    requires st' == st.(pages := st.pages - {p})
    ensures Spare(st') == Less(Spare(st), {p}, {})
  {
  }

  /** A header was obtained. */
  lemma SpareNode(st: State, st': State, n: nat)
    requires st' == st.(nodes := st.nodes + {n}) && n !in st.nodes && Inv(st, 0)
    ensures Plus(Spare(st), Spare(st'), {}, {n})
  {
    hide Inv;
    Ready(st);
  }

  lemma SpareNodeReturned(st: State, st': State, n: nat)
    requires st' == st.(nodes := st.nodes - {n})
    ensures Spare(st') == Less(Spare(st), {}, {n})
  {
  }

  /** A slab was carved on a page, with its header where it belongs. */
  lemma SpareCarved(st: State, st': State, c: nat, s: nat, sl: Slab)
    requires s !in st.slabs && sl.extra == c && c < |st.geo|
    requires st'.geo == st.geo && st'.pages == st.pages && st'.nodes == st.nodes && st'.slabs == st.slabs[s := sl]
    ensures Spare(st') == Less(Spare(st), PageOf(st.geo, c, sl.membase), HeaderOf(st.geo, c, s))
  {
    forall p ensures IsPage(st'.geo, st'.slabs, p) <==>
           IsPage(st.geo, st.slabs, p) || p in PageOf(st.geo, c, sl.membase) {
      if IsPage(st.geo, st.slabs, p) {
        var t :| t in st.slabs && st.slabs[t].extra < |st.geo| && st.geo[st.slabs[t].extra].gfp.None?
            && st.slabs[t].membase == p;
        assert t in st'.slabs && st'.slabs[t] == st.slabs[t];
      }
      if p in PageOf(st.geo, c, sl.membase) { assert s in st'.slabs && st'.slabs[s] == sl; }
    }
  }

  lemma SpareCreated(st: State, mid: State, st': State, c: nat, s: nat, n: nat, us: seq<nat>)
    requires Created(st, mid, st', c, s, n, us)
    ensures s in st'.slabs
    ensures Spare(st') == Less(Spare(mid), PageOf(mid.geo, c, st'.slabs[s].membase), HeaderOf(mid.geo, c, s))
  {
    hide Inv, CountedUpTo, Frame, SlabsOk, HomeOk, GotPage, Carved, SpareOf;
    Ready(mid);
    CarvedFresh(mid, c, s, st'.slabs[s], us, st'.word);
    SpareCarved(mid, st', c, s, st'.slabs[s]);
  }

  /** A slab is gone; its page and header are still outstanding. */
  lemma SpareGone(st: State, st': State, s: nat)
    requires s in st.slabs && st'.geo == st.geo && st'.pages == st.pages && st'.nodes == st.nodes
    requires st'.slabs == st.slabs - {s} && Inv(st, 0)
    ensures var c := st.slabs[s].extra;
            Plus(Spare(st), Spare(st'), PageOf(st.geo, c, st.slabs[s].membase), HeaderOf(st.geo, c, s))
  {
    hide Inv, SpareOf;
    Ready(st);
    ShapePages(st);
    SpareDropped(st, st', s);
  }

  lemma SpareDropped(st: State, st': State, s: nat)
    requires SlabsOk(st) && HomeOk(st) && PagesOk(st) && PagesOnce(st) && NodesOk(st) && s in st.slabs
    requires st'.geo == st.geo && st'.pages == st.pages && st'.nodes == st.nodes && st'.slabs == st.slabs - {s}
    ensures var c := st.slabs[s].extra;
            Plus(Spare(st), Spare(st'), PageOf(st.geo, c, st.slabs[s].membase), HeaderOf(st.geo, c, s))
  {
    RootPages(st);
    hide HomeOk, PagesOk, SlabOk;
    var gone := PageOf(st.geo, st.slabs[s].extra, st.slabs[s].membase);
    forall p ensures IsPage(st.geo, st.slabs, p) <==> IsPage(st'.geo, st'.slabs, p) || p in gone {
      if IsPage(st.geo, st.slabs, p) {
        var t :| t in st.slabs && st.slabs[t].extra < |st.geo| && st.geo[st.slabs[t].extra].gfp.None?
            && st.slabs[t].membase == p;
        if t != s { assert t in st'.slabs && st'.slabs[t] == st.slabs[t]; }
      }
    }
    forall p | p in gone ensures !IsPage(st'.geo, st'.slabs, p) && p in st.pages && p !in Spare(st).pages {
    }
  }

  /** A slab changed, but neither its page nor its cache. */
  lemma SpareMoved(st: State, st': State, s: nat)
    requires s in st.slabs && s in st'.slabs && st'.slabs == st.slabs[s := st'.slabs[s]]
    requires st'.slabs[s].extra == st.slabs[s].extra && st'.slabs[s].membase == st.slabs[s].membase
    requires st'.geo == st.geo && st'.pages == st.pages && st'.nodes == st.nodes
    ensures Spare(st') == Spare(st)
  {
    forall p ensures IsPage(st.geo, st'.slabs, p) <==> IsPage(st.geo, st.slabs, p) {
      if IsPage(st.geo, st.slabs, p) {
        var t :| t in st.slabs && st.slabs[t].extra < |st.geo| && st.geo[st.slabs[t].extra].gfp.None?
            && st.slabs[t].membase == p;
        assert t in st'.slabs && st'.slabs[t].membase == p && st'.slabs[t].extra == st.slabs[t].extra;
      }
      if IsPage(st.geo, st'.slabs, p) {
        var t :| t in st'.slabs && st'.slabs[t].extra < |st.geo| && st.geo[st'.slabs[t].extra].gfp.None?
            && st'.slabs[t].membase == p;
        assert t in st.slabs && st.slabs[t].membase == p && st.slabs[t].extra == st'.slabs[t].extra;
      }
    }
    forall n ensures IsHeader(st.geo, st'.slabs, n) <==> IsHeader(st.geo, st.slabs, n) {
    }
  }

  /** The pages of the slabs of caches that take default pages. */
  ghost function PagesInUse(st: State): set<nat>
    requires SlabsOk(st)
  {
    set s | s in st.slabs && st.geo[st.slabs[s].extra].gfp.None? :: st.slabs[s].membase
  }

  ghost function HeadersInUse(st: State): set<nat>
    requires SlabsOk(st)
  {
    set s | s in st.slabs && st.geo[st.slabs[s].extra].offSlab
  }

  /** Without spare blocks, what is outstanding is exactly what slabs use. */
  lemma NothingSpare(st: State)
    requires Spare(st) == Unused({}, {}) && Inv(st, 0)
    ensures SlabsOk(st) && st.pages == PagesInUse(st) && st.nodes == HeadersInUse(st)
  {
    hide Inv;
    Ready(st);
    RootPages(st);
    hide HomeOk, PagesOk;
    forall p | p in st.pages ensures p in PagesInUse(st) {
      assert p !in Spare(st).pages;
      var s :| s in st.slabs && st.slabs[s].extra < |st.geo| && st.geo[st.slabs[s].extra].gfp.None?
          && st.slabs[s].membase == p;
    }
    forall n | n in st.nodes ensures n in HeadersInUse(st) {
      assert n !in Spare(st).nodes;
    }
  }

  /** Without slabs either, everything is back. */
  lemma NothingOutstanding(st: State)
    requires Spare(st) == Unused({}, {}) && st.slabs == map[]
    ensures st.pages == {} && st.nodes == {}
  {
    assert forall p :: p in st.pages ==> p in Spare(st).pages;
    assert forall n :: n in st.nodes ==> n in Spare(st).nodes;
  }
}
