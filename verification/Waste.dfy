/** What a cache wastes with each supplier it could have: ikmem_page_waste, ikmem_gfp_waste and the choice between
  * suppliers, stated as an account of bytes along the chain of suppliers.
  */
module Waste {
  import opened Layout
  import opened KmemState

  /** ikmem_page_waste */
  function PageWaste(objSize: nat, pageSize: nat): int
    requires objSize >= PTR && UnitSize(objSize) <= pageSize
  {
    var c := Calculate(UnitSize(objSize), pageSize);
    pageSize - UnitSize(objSize) * c.num + (if c.offSlab then RoundUp(SLAB_STRUCT) else 0)
  }

  predicate SizesOk(pg: nat, geo: seq<Geom>) {
    pg % 8 == 0 && LinksOk(pg, geo) && CalcsOk(geo)
  }

  /** ikmem_gfp_waste: the waste on a page of `gfp`, times the pages each page of its own supplier holds, and so on up.
    */
  function GfpWaste(pg: nat, geo: seq<Geom>, objSize: nat, gfp: Option<nat>): int
    requires SizesOk(pg, geo) && objSize >= PTR
    requires match gfp
             case None => UnitSize(objSize) <= pg
             case Some(i) => i < |geo| && UnitSize(objSize) <= geo[i].objSize
    decreases if gfp.Some? then gfp.value + 1 else 0
  {
    match gfp
    case None => PageWaste(objSize, pg)
    case Some(i) =>
      assert LinkOk(pg, geo, i) && CalcOk(geo[i]);
      PageWaste(objSize, geo[i].objSize) * geo[i].num + GfpWaste(pg, geo, geo[i].objSize, geo[i].gfp)
  }

  /** The caches ikmem_choose_gfp considers: 8 to 64 units to a page. */
  predicate Candidate(geo: seq<Geom>, objSize: nat, i: nat)
    requires i < |geo|
  {
    UnitSize(objSize) * 8 <= geo[i].objSize <= UnitSize(objSize) * 64
  }

  // ---------- the account ----------

  /** Where the pages come from, one supplier after the other; the last of them takes default pages. */
  ghost function Chain(pg: nat, geo: seq<Geom>, gfp: Option<nat>): seq<nat>
    requires SizesOk(pg, geo) && (gfp.Some? ==> gfp.value < |geo|)
    decreases if gfp.Some? then gfp.value + 1 else 0
  {
    match gfp
    case None => []
    case Some(i) =>
      assert LinkOk(pg, geo, i);
      [i] + Chain(pg, geo, geo[i].gfp)
  }

  /** The objects at level `k` of a chain, and the pages they are cut from. */
  function ObjectAt(geo: seq<Geom>, objSize: nat, chain: seq<nat>, k: nat): nat
    requires k <= |chain| && forall i :: i in chain ==> i < |geo|
  {
    if k == 0 then objSize else assert chain[k - 1] in chain; geo[chain[k - 1]].objSize
  }

  function PageAt(pg: nat, geo: seq<Geom>, chain: seq<nat>, k: nat): nat
    requires k <= |chain| && forall i :: i in chain ==> i < |geo|
  {
    if k < |chain| then assert chain[k] in chain; geo[chain[k]].objSize else pg
  }

  /** The bytes of `times` pages are those of their units and those lost; a header kept elsewhere is charged too. */
  ghost predicate Balanced(unit: nat, page: nat, times: nat, lost: int)
    requires unit > 0
  {
    exists n: nat, off :: Carves(unit, page, n, off)
      && times * (n * unit) + lost == times * (page + if off then SLAB_STRUCT else 0)
  }

  /** `ws[k]` is what is lost from level `k` of the chain on. At every level but the last, as many pages are charged as
    * the supplier cuts from one page of its own.
    */
  ghost predicate Accounts(pg: nat, geo: seq<Geom>, objSize: nat, chain: seq<nat>, ws: seq<int>) {
    && |ws| == |chain| + 1 && (forall i :: i in chain ==> i < |geo|)
    && forall k {:trigger ws[k]} :: 0 <= k <= |chain| ==> LevelOk(pg, geo, objSize, chain, ws, k)
  }

  ghost predicate LevelOk(pg: nat, geo: seq<Geom>, objSize: nat, chain: seq<nat>, ws: seq<int>, k: nat)
    requires k <= |chain| && |ws| == |chain| + 1 && forall i :: i in chain ==> i < |geo|
  {
    var unit, page := UnitSize(ObjectAt(geo, objSize, chain, k)), PageAt(pg, geo, chain, k);
    if k < |chain| then
      assert chain[k] in chain;
      Balanced(unit, page, geo[chain[k]].num, ws[k] - ws[k + 1])
    else Balanced(unit, page, 1, ws[k])
  }

  lemma BalancedOnce(unit: nat, page: nat, times: nat, lost: int, lost': int)
    requires unit > 0 && Balanced(unit, page, times, lost) && Balanced(unit, page, times, lost')
    ensures lost == lost'
  {
    var n: nat, off :| Carves(unit, page, n, off)
      && times * (n * unit) + lost == times * (page + if off then SLAB_STRUCT else 0);
    var m: nat, off' :| Carves(unit, page, m, off')
      && times * (m * unit) + lost' == times * (page + if off' then SLAB_STRUCT else 0);
    CarvesOnce(unit, page, n, m, off, off');
    hide Carves;
    assert times * (n * unit) == times * (m * unit);
  }

  /** An account settles everything from each level on. */
  lemma {:induction false} OneAccount(pg: nat, geo: seq<Geom>, objSize: nat, chain: seq<nat>, ws: seq<int>,
                                      ws': seq<int>,
                                      k: nat)
    requires Accounts(pg, geo, objSize, chain, ws) && Accounts(pg, geo, objSize, chain, ws') && k <= |chain|
    ensures ws[k] == ws'[k]
    decreases |chain| - k
  {
    hide Balanced, UnitSize;
    assert LevelOk(pg, geo, objSize, chain, ws, k) && LevelOk(pg, geo, objSize, chain, ws', k);
    var unit, page := UnitSize(ObjectAt(geo, objSize, chain, k)), PageAt(pg, geo, chain, k);
    UnitPositive(ObjectAt(geo, objSize, chain, k));
    if k < |chain| {
      OneAccount(pg, geo, objSize, chain, ws, ws', k + 1);
      assert chain[k] in chain;
      BalancedOnce(unit, page, geo[chain[k]].num, ws[k] - ws[k + 1], ws'[k] - ws'[k + 1]);
    } else {
      BalancedOnce(unit, page, 1, ws[k], ws'[k]);
    }
  }

  lemma UnitPositive(objSize: nat)
    ensures UnitSize(objSize) > 0
  {
  }

  /** The account that ikmem_gfp_waste keeps. */
  ghost function Ledger(pg: nat, geo: seq<Geom>, objSize: nat, gfp: Option<nat>): (ws: seq<int>)
    requires SizesOk(pg, geo) && objSize >= PTR
    requires match gfp
             case None => UnitSize(objSize) <= pg
             case Some(i) => i < |geo| && UnitSize(objSize) <= geo[i].objSize
    ensures ws != [] && ws[0] == GfpWaste(pg, geo, objSize, gfp)
    decreases if gfp.Some? then gfp.value + 1 else 0
  {
    [GfpWaste(pg, geo, objSize, gfp)]
    + match gfp
      case None => []
      case Some(i) =>
        assert LinkOk(pg, geo, i) && CalcOk(geo[i]);
        Ledger(pg, geo, geo[i].objSize, geo[i].gfp)
  }

  lemma PageBalanced(objSize: nat, pageSize: nat, times: nat)
    requires objSize >= PTR && UnitSize(objSize) <= pageSize
    ensures Balanced(UnitSize(objSize), pageSize, times, PageWaste(objSize, pageSize) * times)
  {
    var c := Calculate(UnitSize(objSize), pageSize);
    CalculateIs(UnitSize(objSize), pageSize);
    hide Carves, Calculate, UnitSize;
    var unit, page := UnitSize(objSize), pageSize + if c.offSlab then SLAB_STRUCT else 0;
    assert PageWaste(objSize, pageSize) == page - unit * c.num;
    Spread(times, c.num * unit, page);
  }

  lemma Spread(times: nat, used: nat, page: nat)
    ensures times * used + (page - used) * times == times * page
  {
  }

  lemma OneLevel(pg: nat, geo: seq<Geom>, objSize: nat, i: nat)
    requires SizesOk(pg, geo) && objSize >= PTR && i < |geo| && UnitSize(objSize) <= geo[i].objSize
    ensures geo[i].gfp.Some? ==> geo[i].gfp.value < i
    ensures match geo[i].gfp
            case None => UnitSize(geo[i].objSize) <= pg
            case Some(j) => j < |geo| && UnitSize(geo[i].objSize) <= geo[j].objSize
    ensures geo[i].objSize >= PTR
    ensures Chain(pg, geo, Some(i)) == [i] + Chain(pg, geo, geo[i].gfp)
    ensures var ws, rest := Ledger(pg, geo, objSize, Some(i)), Ledger(pg, geo, geo[i].objSize, geo[i].gfp);
            ws[1..] == rest && ws[0] - rest[0] == PageWaste(objSize, geo[i].objSize) * geo[i].num
  {
    hide Calculate, UnitSize, PageWaste;
    assert LinkOk(pg, geo, i) && CalcOk(geo[i]);
  }

  /** It balances at every level. */
  lemma {:induction false} LedgerAccounts(pg: nat, geo: seq<Geom>, objSize: nat, gfp: Option<nat>)
    requires SizesOk(pg, geo) && objSize >= PTR
    requires match gfp
             case None => UnitSize(objSize) <= pg
             case Some(i) => i < |geo| && UnitSize(objSize) <= geo[i].objSize
    ensures Accounts(pg, geo, objSize, Chain(pg, geo, gfp), Ledger(pg, geo, objSize, gfp))
    decreases if gfp.Some? then gfp.value + 1 else 0
  {
    hide Balanced, UnitSize, Calculate, SizesOk, PageWaste;
    match gfp {
      case None =>
        PageBalanced(objSize, pg, 1);
        NoSupplier(pg, geo, objSize);
      case Some(i) =>
        hide Chain, Ledger, GfpWaste, Accounts;
        OneLevel(pg, geo, objSize, i);
        LedgerAccounts(pg, geo, geo[i].objSize, geo[i].gfp);
        PageBalanced(objSize, geo[i].objSize, geo[i].num);
        UnitPositive(objSize);
        LevelsUp(pg, geo, objSize, i, Chain(pg, geo, geo[i].gfp), Ledger(pg, geo, geo[i].objSize, geo[i].gfp),
                 Ledger(pg, geo, objSize, Some(i)));
    }
  }

  lemma NoSupplier(pg: nat, geo: seq<Geom>, objSize: nat)
    requires SizesOk(pg, geo) && objSize >= PTR && UnitSize(objSize) <= pg
    ensures Chain(pg, geo, None) == [] && Ledger(pg, geo, objSize, None) == [PageWaste(objSize, pg)]
  {
    hide PageWaste, UnitSize;
  }

  /** One more level in front of an account. */
  lemma LevelsUp(pg: nat, geo: seq<Geom>, objSize: nat, i: nat, chain: seq<nat>, ws: seq<int>, ws': seq<int>)
    requires i < |geo| && Accounts(pg, geo, geo[i].objSize, chain, ws) && ws' != [] && ws'[1..] == ws
    requires UnitSize(objSize) > 0 && Balanced(UnitSize(objSize), geo[i].objSize, geo[i].num, ws'[0] - ws[0])
    ensures Accounts(pg, geo, objSize, [i] + chain, ws')
  {
    hide Balanced, UnitSize;
    var up := [i] + chain;
    forall j | j in up ensures j < |geo| {
      if j != i { assert j in chain; }
    }
    forall k | 0 <= k <= |up| ensures LevelOk(pg, geo, objSize, up, ws', k) {
      if k > 0 {
        assert LevelOk(pg, geo, geo[i].objSize, chain, ws, k - 1) by { assert ws[k - 1] == ws'[k]; }
        assert ObjectAt(geo, objSize, up, k) == ObjectAt(geo, geo[i].objSize, chain, k - 1);
        assert PageAt(pg, geo, up, k) == PageAt(pg, geo, chain, k - 1);
      }
    }
  }

  // ---------- the choice ----------

  /** With supplier `i`, a cache of objects of this size loses `w` bytes in all. */
  ghost predicate Loses(pg: nat, geo: seq<Geom>, objSize: nat, i: nat, w: int)
    requires SizesOk(pg, geo) && i < |geo|
  {
    exists ws :: Accounts(pg, geo, objSize, Chain(pg, geo, Some(i)), ws) && ws != [] && ws[0] == w
  }

  /** ikmem_gfp_waste computes exactly that. */
  lemma WasteIs(pg: nat, geo: seq<Geom>, objSize: nat, i: nat, w: int)
    requires SizesOk(pg, geo) && objSize >= PTR && i < |geo| && UnitSize(objSize) <= geo[i].objSize
    ensures Loses(pg, geo, objSize, i, w) <==> w == GfpWaste(pg, geo, objSize, Some(i))
  {
    hide Accounts, Chain, UnitSize, GfpWaste, Ledger, SizesOk;
    var ledger := Ledger(pg, geo, objSize, Some(i));
    LedgerAccounts(pg, geo, objSize, Some(i));
    assert Loses(pg, geo, objSize, i, ledger[0]);
    if Loses(pg, geo, objSize, i, w) {
      LosesOnce(pg, geo, objSize, i, w, ledger[0]);
    }
  }

  lemma LosesOnce(pg: nat, geo: seq<Geom>, objSize: nat, i: nat, w: int, w': int)
    requires SizesOk(pg, geo) && i < |geo| && Loses(pg, geo, objSize, i, w) && Loses(pg, geo, objSize, i, w')
    ensures w == w'
  {
    hide Accounts, Chain, SizesOk;
    var chain := Chain(pg, geo, Some(i));
    var ws :| Accounts(pg, geo, objSize, chain, ws) && ws != [] && ws[0] == w;
    var ws' :| Accounts(pg, geo, objSize, chain, ws') && ws' != [] && ws'[0] == w';
    OneAccount(pg, geo, objSize, chain, ws, ws', 0);
  }

  /** The first of the suppliers with the least loss, if the loss is less than a default page. */
  ghost predicate CheapestSupplier(pg: nat, geo: seq<Geom>, objSize: nat, r: Option<nat>)
    requires SizesOk(pg, geo)
  {
    match r
    case None => forall i, w :: 0 <= i < |geo| && Candidate(geo, objSize, i) && Loses(pg, geo, objSize, i, w) ==>
      w >= pg
    case Some(k) =>
      && k < |geo| && Candidate(geo, objSize, k)
      && exists w ::
        && Loses(pg, geo, objSize, k, w) && w < pg
        && forall i, v :: 0 <= i < |geo| && Candidate(geo, objSize, i) && Loses(pg, geo, objSize, i, v) ==>
             w <= v && (i < k ==> w < v)
  }

  lemma CandidateFits(geo: seq<Geom>, objSize: nat, i: nat)
    requires i < |geo| && Candidate(geo, objSize, i)
    ensures UnitSize(objSize) <= geo[i].objSize
  {
  }

  /** The choice in terms of what is computed. */
  lemma CheapestByWaste(pg: nat, geo: seq<Geom>, objSize: nat, r: Option<nat>)
    requires SizesOk(pg, geo) && objSize >= PTR && (r.Some? ==> r.value < |geo| && Candidate(geo, objSize, r.value))
    requires forall i :: 0 <= i < |geo| && Candidate(geo, objSize, i) ==> UnitSize(objSize) <= geo[i].objSize
    requires match r
             case None =>
               forall i :: 0 <= i < |geo| && Candidate(geo, objSize, i) ==> GfpWaste(pg, geo, objSize, Some(i)) >= pg
             case Some(k) =>
               && GfpWaste(pg, geo, objSize, Some(k)) < pg
               && forall i :: 0 <= i < |geo| && Candidate(geo, objSize, i) ==>
                    GfpWaste(pg, geo, objSize, Some(k)) <= GfpWaste(pg, geo, objSize, Some(i))
                    && (i < k ==> GfpWaste(pg, geo, objSize, Some(k)) < GfpWaste(pg, geo, objSize, Some(i)))
    ensures CheapestSupplier(pg, geo, objSize, r)
  {
    hide Loses, UnitSize, GfpWaste, Candidate, SizesOk;
    forall i, w | 0 <= i < |geo| && Candidate(geo, objSize, i)
      ensures Loses(pg, geo, objSize, i, w) <==> w == GfpWaste(pg, geo, objSize, Some(i))
    {
      WasteIs(pg, geo, objSize, i, w);
    }
    if r.Some? {
      assert Loses(pg, geo, objSize, r.value, GfpWaste(pg, geo, objSize, Some(r.value)));
    }
  }
}
