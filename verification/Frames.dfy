/** What an operation on one cache leaves alone: every cache above it in the supplier order, and every
  * unit on loan together with the words of its object. Also the bookkeeping of the counters.
  */
module Frames {
  import opened Layout
  import opened KmemState
  import opened Forest
  import opened Steps
  import opened SlabSteps

  /** Units in a client's hands, or on their way between the list layer and a magazine. */
  ghost function Loans(st: State): map<nat, Owner> {
    map u | u in st.owner && (st.owner[u].Client? || st.owner[u].Hand?) :: st.owner[u]
  }

  /** The unit stayed where it was, in the same cache, and the words of its object are untouched. */
  ghost predicate SameLoan(st: State, st': State, u: nat) {
    && u in st.home && u in st'.home && st'.home[u] == st.home[u]
    && st.home[u] in st.slabs && st.home[u] in st'.slabs
    && st'.slabs[st.home[u]].extra == st.slabs[st.home[u]].extra < |st.geo|
    && st'.slabs[st.home[u]].membase == st.slabs[st.home[u]].membase
    && st'.slabs[st.home[u]].memsize == st.slabs[st.home[u]].memsize
    && SameWords(st.word, st'.word, u + PTR, u + UnitAt(st, u))
  }

  ghost predicate SameWords(word: map<nat, nat>, word': map<nat, nat>, lo: nat, hi: nat) {
    forall a {:trigger a in word'} :: lo <= a < hi ==>
           (a in word' <==> a in word) && (a in word ==> word'[a] == word[a])
  }

  /** The words of large blocks, headers included, are untouched. */
  ghost predicate LargeKept(st: State, st': State) {
    forall b {:trigger b in st.large} :: b in st.large ==>
      SameWords(st.word, st'.word, b, b + LARGE_HEAD + st.large[b])
  }

  ghost predicate Kept(st: State, st': State) {
    && (forall u {:trigger SameLoan(st, st', u)} :: u in Loans(st) && u in Loans(st') ==> SameLoan(st, st', u))
    && LargeKept(st, st')
  }

  /** Nothing that belongs to a cache above `c` has changed. */
  ghost predicate Above(st: State, st': State, c: int) {
    && st'.pg == st.pg && st'.geo == st.geo && st'.large == st.large && |st'.caches| == |st.caches|
    && (forall i :: 0 <= i < |st.caches| && c < i ==> st'.caches[i] == st.caches[i])
    && (forall s :: s in st.slabs && st.slabs[s].extra > c ==>
          s in st'.slabs && st'.slabs[s] == st.slabs[s] && s in st.free && s in st'.free && st'.free[s] == st.free[s])
    && (forall s :: s in st'.slabs && st'.slabs[s].extra > c ==> s in st.slabs && st.slabs[s] == st'.slabs[s])
  }

  /** Headers reserved for a slab under way stay reserved, except `gone`. */
  ghost predicate LooseNodes(st: State, st': State, gone: set<nat>) {
    forall n :: n in st.nodes && n !in st.slabs && n !in gone ==> n in st'.nodes && n !in st'.slabs
  }

  ghost predicate FrameBut(st: State, st': State, c: int, gone: set<nat>) {
    Above(st, st', c) && Kept(st, st') && LooseNodes(st, st', gone)
  }

  ghost predicate Frame(st: State, st': State, c: int) {
    FrameBut(st, st', c, {})
  }

  lemma FrameTransitive(st: State, st': State, st'': State, c: int, c': int, gone: set<nat>, gone': set<nat>)
    requires FrameBut(st, st', c, gone) && FrameBut(st', st'', c', gone') && c' <= c
    requires forall n :: n in gone' ==> n in gone || n in st.slabs || n !in st.nodes
    requires forall u :: u in Loans(st) && u in Loans(st'') ==> u in Loans(st')
    ensures FrameBut(st, st'', c, gone)
  {
    AboveTransitive(st, st', st'', c, c') by { hide Kept, LooseNodes, Above; }
    KeptTransitive(st, st', st'') by { hide LooseNodes, Kept, Loans; }
    LooseTransitive(st, st', st'', gone, gone') by { hide Above, Kept, LooseNodes; }
    hide Above, Kept, LooseNodes;
  }

  lemma AboveTransitive(st: State, st': State, st'': State, c: int, c': int)
    requires Above(st, st', c) && Above(st', st'', c') && c' <= c
    ensures Above(st, st'', c)
  {
  }

  lemma LooseTransitive(st: State, st': State, st'': State, gone: set<nat>, gone': set<nat>)
    requires LooseNodes(st, st', gone) && LooseNodes(st', st'', gone')
    requires forall n :: n in gone' ==> n in gone || n in st.slabs || n !in st.nodes
    ensures LooseNodes(st, st'', gone)
  {
  }

  lemma KeptTransitive(st: State, st': State, st'': State)
    requires Kept(st, st') && Kept(st', st'') && st'.geo == st.geo && st'.large == st.large
    requires forall u :: u in Loans(st) && u in Loans(st'') ==> u in Loans(st')
    ensures Kept(st, st'')
  {
    LargeTransitive(st, st', st'') by { hide SameLoan, SameWords; }
    hide LargeKept, Loans;
    forall u | u in Loans(st) && u in Loans(st'') ensures SameLoan(st, st'', u) {
      assert SameLoan(st, st', u) && SameLoan(st', st'', u);
      LoanTransitive(st, st', st'', u);
    }
  }

  lemma LoanTransitive(st: State, st': State, st'': State, u: nat)
    requires SameLoan(st, st', u) && SameLoan(st', st'', u) && st'.geo == st.geo
    ensures SameLoan(st, st'', u)
  {
    WordsTransitive(st.word, st'.word, st''.word, u + PTR, u + UnitAt(st, u));
  }

  lemma WordsTransitive(w: map<nat, nat>, w': map<nat, nat>, w'': map<nat, nat>, lo: nat, hi: nat)
    requires SameWords(w, w', lo, hi) && SameWords(w', w'', lo, hi)
    ensures SameWords(w, w'', lo, hi)
  {
    forall a | lo <= a < hi ensures (a in w'' <==> a in w) && (a in w ==> w''[a] == w[a]) {
      assert (a in w'' <==> a in w') && (a in w' <==> a in w);
    }
  }

  lemma LargeTransitive(st: State, st': State, st'': State)
    requires LargeKept(st, st') && LargeKept(st', st'') && st'.large == st.large
    ensures LargeKept(st, st'')
  {
    hide SameWords;
    forall b | b in st.large ensures SameWords(st.word, st''.word, b, b + LARGE_HEAD + st.large[b]) {
      WordsTransitive(st.word, st'.word, st''.word, b, b + LARGE_HEAD + st.large[b]);
    }
  }

  // ---------- single words ----------

  /** Writing the first word of a unit touches no object on loan but (possibly) that unit's. */
  lemma HeadOutsideLoan(st: State, u: nat, l: nat)
    requires Shape(st) && u in st.home && l in st.home
    requires l in st.owner && !st.owner[l].Page?
    ensures u < l + PTR || l + UnitAt(st, l) <= u
  {
    if u != l { NothingInside(st, l, u); }
  }

  /** A large block lies outside every slab page. */
  lemma LargeOutsidePages(st: State, b: nat, s: nat)
    requires Shape(st) && BlocksOk(st) && b in st.large && s in st.slabs
    ensures Apart(b, LARGE_HEAD + st.large[b], st.slabs[s].membase, st.slabs[s].memsize)
  {
    var top := RootPage(st, s);
  }

  lemma OneWordLarge(st: State, st': State, u: nat, w: nat)
    requires Shape(st) && BlocksOk(st) && u in st.home && st'.word == st.word[u := w]
    ensures LargeKept(st, st')
  {
    assert UnitIn(st.geo, st.slabs[st.home[u]], u);
    assert LinkOk(st.pg, st.geo, st.slabs[st.home[u]].extra);
    forall b | b in st.large ensures SameWords(st.word, st'.word, b, b + LARGE_HEAD + st.large[b]) {
      LargeOutsidePages(st, b, st.home[u]);
    }
  }

  lemma HomesInSlabs(st: State)
    requires Shape(st)
    ensures forall u :: u in st.home ==> st.home[u] in st.slabs && st.slabs[st.home[u]].extra < |st.geo|
  {
  }

  /** Steps that write one header word and keep every slab and unit in place. */
  lemma OneWordKept(st: State, st': State, u: nat, w: nat)
    requires Shape(st) && BlocksOk(st) && st'.home == st.home && u in st.home && st'.word == st.word[u := w]
    requires st'.slabs.Keys == st.slabs.Keys
    requires st.owner.Keys <= st.home.Keys
    requires forall s :: s in st.slabs ==>
               st'.slabs[s].extra == st.slabs[s].extra
               && st'.slabs[s].membase == st.slabs[s].membase && st'.slabs[s].memsize == st.slabs[s].memsize
    ensures Kept(st, st')
  {
    hide LargeKept, BlocksOk, SlabsOk, HomeOk, Spaced, PagesOk, PagesOnce, DefaultPagesOk, LinksOk;
    OneWordLarge(st, st', u, w);
    HomesInSlabs(st);
    forall l | l in Loans(st) && l in Loans(st') ensures SameLoan(st, st', l) {
      HeadOutsideLoan(st, u, l);
    }
  }

  lemma PopFrame(st: State, s: nat)
    requires Shape(st) && BlocksOk(st) && FreeOk(st) && st.owner.Keys <= st.home.Keys && s in st.slabs && s in st.free
             && st.free[s] != []
    ensures Frame(st, PopUnit(st, s), st.slabs[s].extra)
    ensures var u := st.free[s][0]; u in st.home && st.home[u] == s && u !in st.owner
    ensures Loans(PopUnit(st, s)) == Loans(st)[st.free[s][0] := Hand]
  {
    hide Shape, BlocksOk, LargeKept;
    assert FreeListOk(st, s);
    OneWordKept(st, PopUnit(st, s), st.free[s][0], s);
  }

  lemma PushFrame(st: State, s: nat, u: nat)
    requires Shape(st) && BlocksOk(st) && FreeOk(st) && st.owner.Keys <= st.home.Keys && CanPush(st, s, u)
    ensures Frame(st, PushUnit(st, s, u), st.slabs[s].extra)
    ensures Loans(PushUnit(st, s, u)) == Loans(st) - {u}
  {
    hide Shape, FreeOk, BlocksOk, LargeKept;
    FreeKeys(st);
    OneWordKept(st, PushUnit(st, s, u), u, st.slabs[s].bufctl);
  }

  lemma FreeKeys(st: State)
    requires FreeOk(st)
    ensures st.free.Keys == st.slabs.Keys
  {
  }

  /** Any change of holder, with whatever it does to the records of cache `c`. */
  lemma PassFrame(st: State, u: nat, o: Owner, c: nat, cache': Cache)
    requires Shape(st) && BlocksOk(st) && FreeOk(st) && st.owner.Keys <= st.home.Keys && CanPass(st, u, o)
             && c < |st.caches|
    ensures var st' := Pass(st, u, o).(caches := st.caches[c := cache']);
            Frame(st, st', c)
            && Loans(st') == if o.Client? || o.Hand? then Loans(st)[u := o] else Loans(st) - {u}
  {
    hide Shape, FreeOk, BlocksOk, LargeKept;
    FreeKeys(st);
    OneWordKept(st, Pass(st, u, o).(caches := st.caches[c := cache']), u, st.home[u] + Tag(o));
  }

  /** Only the records of cache `c` change. */
  lemma RecordFrame(st: State, c: nat, cache': Cache)
    requires SlabsOk(st) && HomeOk(st) && FreeOk(st) && st.owner.Keys <= st.home.Keys && c < |st.caches|
    ensures Frame(st, st.(caches := st.caches[c := cache']), c)
    ensures Loans(st.(caches := st.caches[c := cache'])) == Loans(st)
  {
    hide UnitIn, FreeListOk;
  }

  lemma VacantLoans(st: State, c: nat, p: nat, l: nat)
    requires Shape(st) && c < |st.geo| && Vacant(st, c, p)
    requires l in st.home && l in st.owner && !st.owner[l].Page? && (l + PTR != p || st.geo[c].gfp.None?)
    ensures Apart(l, UnitAt(st, l), p, st.geo[c].pageSize)
  {
    assert LinkOk(st.pg, st.geo, c);
    var h := st.home[l];
    assert UnitIn(st.geo, st.slabs[h], l);
    if st.geo[c].gfp.None? {
      var top := RootPage(st, h);
      assert PageOk(st, top);
    } else {
      assert LinkOk(st.pg, st.geo, st.geo[c].gfp.value);
      UnitsLaminar(st, p - PTR, l);
    }
  }

  lemma AddWords(st: State, c: nat, s: nat, sl: Slab, us: seq<nat>, word': map<nat, nat>, l: nat)
    requires Adding(st, c, s, sl, us, word') && l in st.home && st.geo[c].unitSize > 0
    requires Apart(l, UnitAt(st, l), sl.membase, st.geo[c].pageSize)
    ensures SameWords(st.word, word', l + PTR, l + UnitAt(st, l))
  {
    hide Chained, NoDup, Vacant;
    forall a | a in us ensures sl.membase <= a && a < sl.membase + st.geo[c].pageSize {
      assert UnitIn(st.geo, sl, a);
    }
  }

  lemma AddLoan(st: State, c: nat, s: nat, sl: Slab, us: seq<nat>, word': map<nat, nat>, cache': Cache, l: nat)
    requires Adding(st, c, s, sl, us, word') && l in st.home
    requires SameWords(st.word, word', l + PTR, l + UnitAt(st, l))
    ensures SameLoan(st, AddSlab(st, s, sl, us, word', cache'), l)
  {
    hide Chained, NoDup, Vacant, UnitIn, SameWords;
  }

  lemma AddOne(st: State, c: nat, s: nat, sl: Slab, us: seq<nat>, word': map<nat, nat>, cache': Cache, l: nat)
    requires Shape(st) && Adding(st, c, s, sl, us, word')
    requires l in st.home && l in st.owner && !st.owner[l].Page? && (l + PTR != sl.membase || st.geo[c].gfp.None?)
    ensures SameLoan(st, AddSlab(st, s, sl, us, word', cache'), l)
  {
    hide HomeOk, Spaced, PagesOk, PagesOnce, DefaultPagesOk, Vacant, Chained, NoDup, SameLoan, SameWords, UnitIn;
    assert LinkOk(st.pg, st.geo, c);
    VacantLoans(st, c, sl.membase, l);
    AddWords(st, c, s, sl, us, word', l);
    AddLoan(st, c, s, sl, us, word', cache', l);
  }

  lemma AddLarge(st: State, c: nat, s: nat, sl: Slab, us: seq<nat>, word': map<nat, nat>, cache': Cache)
    requires Shape(st) && BlocksOk(st) && Adding(st, c, s, sl, us, word')
    ensures LargeKept(st, AddSlab(st, s, sl, us, word', cache'))
  {
    hide Chained, NoDup, HomeOk, Spaced, PagesOk, PagesOnce, DefaultPagesOk, UnitIn, BlocksOk, Vacant;
    assert LinkOk(st.pg, st.geo, c);
    forall b | b in st.large ensures SameWords(st.word, word', b, b + LARGE_HEAD + st.large[b]) {
      VacantLarge(st, c, sl.membase, b);
      forall a | a in us ensures sl.membase <= a && a < sl.membase + st.geo[c].pageSize {
        assert st.geo[c].unitSize > 0 && sl.memsize == st.geo[c].pageSize;
        assert UnitIn(st.geo, sl, a);
        InPage(st.geo, sl, a);
      }
    }
  }

  lemma InPage(geo: seq<Geom>, sl: Slab, a: nat)
    requires sl.extra < |geo| && UnitIn(geo, sl, a)
    ensures sl.membase <= a && a + geo[sl.extra].unitSize <= sl.membase + sl.memsize
  {
  }

  lemma VacantLarge(st: State, c: nat, p: nat, b: nat)
    requires Shape(st) && BlocksOk(st) && c < |st.geo| && Vacant(st, c, p) && b in st.large
    ensures Apart(b, LARGE_HEAD + st.large[b], p, st.geo[c].pageSize)
  {
    assert LinkOk(st.pg, st.geo, c);
    if st.geo[c].gfp.Some? {
      var u := p - PTR;
      assert UnitIn(st.geo, st.slabs[st.home[u]], u);
      assert LinkOk(st.pg, st.geo, st.geo[c].gfp.value);
      LargeOutsidePages(st, b, st.home[u]);
    }
  }

  lemma AddKept(st: State, c: nat, s: nat, sl: Slab, us: seq<nat>, word': map<nat, nat>, cache': Cache)
    requires Shape(st) && BlocksOk(st) && st.owner.Keys <= st.home.Keys && Adding(st, c, s, sl, us, word')
    ensures Kept(st, AddSlab(st, s, sl, us, word', cache'))
  {
    hide Shape, HomeOk, SlabsOk, Vacant, Chained, NoDup, SameLoan, UnitIn, SameWords, BlocksOk, LargeKept;
    AddLarge(st, c, s, sl, us, word', cache');
    var st' := AddSlab(st, s, sl, us, word', cache');
    forall l | l in Loans(st) && l in Loans(st') ensures SameLoan(st, st', l) {
      AddOne(st, c, s, sl, us, word', cache', l);
    }
  }

  lemma AddAbove(st: State, c: nat, s: nat, sl: Slab, us: seq<nat>, word': map<nat, nat>, cache': Cache)
    requires Adding(st, c, s, sl, us, word') && FreeOk(st)
    ensures var st' := AddSlab(st, s, sl, us, word', cache');
            Above(st, st', c)
            && Loans(st') == if st.geo[c].gfp.Some? then Loans(st) - {sl.membase - PTR} else Loans(st)
  {
    AddedAbove(st, c, s, sl, us, word', cache');
    AddedLoans(st, c, s, sl, us, word', cache');
  }

  lemma AddedAbove(st: State, c: nat, s: nat, sl: Slab, us: seq<nat>, word': map<nat, nat>, cache': Cache)
    requires Adding(st, c, s, sl, us, word') && FreeOk(st)
    ensures Above(st, AddSlab(st, s, sl, us, word', cache'), c)
  {
    hide UnitIn, SlabOk, FreeListOk, Chained, NoDup, Vacant, HomeOk;
  }

  lemma AddedLoans(st: State, c: nat, s: nat, sl: Slab, us: seq<nat>, word': map<nat, nat>, cache': Cache)
    requires Adding(st, c, s, sl, us, word')
    ensures Loans(AddSlab(st, s, sl, us, word', cache'))
            == if st.geo[c].gfp.Some? then Loans(st) - {sl.membase - PTR} else Loans(st)
  {
    hide UnitIn, SlabOk, Chained, NoDup, Vacant, SlabsOk, HomeOk;
  }

  lemma AddFrame(st: State, c: nat, s: nat, sl: Slab, us: seq<nat>, word': map<nat, nat>, cache': Cache)
    requires Shape(st) && NodesOk(st) && BlocksOk(st) && FreeOk(st) && st.owner.Keys <= st.home.Keys
    requires Carved(st, c, s, sl, us, word')
    ensures c < |st.caches| && c < |st.geo| && sl.extra == c && sl.membase >= PTR
    ensures s !in st.slabs && (!st.geo[c].offSlab ==> s !in st.nodes)
    ensures var st' := AddSlab(st, s, sl, us, word', cache');
            && Above(st, st', c) && Kept(st, st')
            && Loans(st') == if st.geo[c].gfp.Some? then Loans(st) - {sl.membase - PTR} else Loans(st)
  {
    hide NodesOk, BlocksOk, FreeOk, SlabsOk, HomeOk, Spaced, PagesOk, PagesOnce, DefaultPagesOk, LinksOk, Carved,
         Above, Kept;
    CarvedBounds(st, c, s, sl, us, word');
    CarvedFresh(st, c, s, sl, us, word');
    AddAbove(st, c, s, sl, us, word', cache');
    AddKept(st, c, s, sl, us, word', cache');
    AddHeader(st, c, s, sl, us, word');
  }

  /** A header on the page is no reserved node. */
  lemma AddHeader(st: State, c: nat, s: nat, sl: Slab, us: seq<nat>, word': map<nat, nat>)
    requires Shape(st) && BlocksOk(st) && Carved(st, c, s, sl, us, word')
    ensures !st.geo[c].offSlab ==> s !in st.nodes
  {
    hide Chained, NoDup, Vacant;
    if !st.geo[c].offSlab && s in st.nodes {
      VacantNodes(st, c, sl.membase, s);
    }
  }

  lemma DropAbove(st: State, s: nat, cache': Cache)
    requires FreeOk(st) && Dropping(st, s)
    ensures var st' := DropSlab(st, s, cache'); Above(st, st', st.slabs[s].extra) && LooseNodes(st, st', {})
  {
    hide UnitIn, SlabOk, FreeListOk;
  }

  lemma DropKept(st: State, s: nat, cache': Cache)
    requires HeadsOk(st) && Dropping(st, s) && PagesOk(st)
    ensures Kept(st, DropSlab(st, s, cache'))
  {
    hide SameLoan, SameWords, UnitIn, SlabOk;
    var st' := DropSlab(st, s, cache');
    DropLarge(st, s, cache');
    forall l | l in Loans(st) && l in Loans(st') ensures SameLoan(st, st', l) {
      DropOne(st, s, cache', l);
    }
  }

  lemma DropLarge(st: State, s: nat, cache': Cache)
    requires Dropping(st, s)
    ensures LargeKept(st, DropSlab(st, s, cache'))
  {
    hide SlabsOk, HomeOk, Elsewhere;
  }

  lemma DropOne(st: State, s: nat, cache': Cache, l: nat)
    requires HeadsOk(st) && Dropping(st, s) && PagesOk(st)
    requires l in Loans(st) && l in Loans(DropSlab(st, s, cache'))
    ensures SameLoan(st, DropSlab(st, s, cache'), l)
  {
    hide UnitIn;
    assert PageOk(st, s);
  }

  lemma DropFrame(st: State, s: nat, cache': Cache)
    requires Shape(st) && FreeOk(st) && HeadsOk(st) && Dropping(st, s)
    ensures var st' := DropSlab(st, s, cache');
            && Frame(st, st', st.slabs[s].extra)
            && var kept := Elsewhere(Loans(st), st.home, s);
            Loans(st') == if Supplied(st, s) then kept[st.slabs[s].membase - PTR := Client] else kept
  {
    hide FreeOk, HeadsOk, Dropping, Above, Kept, LooseNodes, SlabsOk, HomeOk, Spaced, PagesOnce, DefaultPagesOk,
         LinksOk;
    DroppingBounds(st, s);
    DropAbove(st, s, cache');
    DropKept(st, s, cache');
  }

  lemma DroppingBounds(st: State, s: nat)
    requires Dropping(st, s)
    ensures s in st.slabs && st.slabs[s].extra < |st.caches| && st.slabs[s].extra < |st.geo|
            && st.slabs[s].membase >= PTR
    ensures SlabsOk(st) && HomeOk(st)
  {
  }
}
