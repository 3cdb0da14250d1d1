/** The default set-up, with pages of 2^16 bytes and a little more: which classes there are, and who supplies them. */
module DefaultSetup {
  import opened Layout
  import opened KmemState
  import opened Waste
  import opened SizeClasses

  const PAGE: nat := 65664
  const FULL: nat := 65656

  /** The sizes that set-up starts from. */
  predicate Listed(y: nat) {
    || Small(y)
    || y in {440, 512, 712, 1024, 1152, 1864, 2048, 3016}
    || y in {4096, 4880, 7896, 8192, 12776, 16384, 20672, 32768, 65536}
  }

  lemma PowerValues()
    ensures Pow2(9) == 512 && Pow2(10) == 1024 && Pow2(11) == 2048 && Pow2(12) == 4096
    ensures Pow2(13) == 8192 && Pow2(14) == 16384 && Pow2(15) == 32768 && Pow2(16) == 65536
  {
    FirstPowers();
    assert Pow2(12) == 16 * Pow2(8);
  }

  lemma {:induction false} PowersListed(s: int)
    requires s <= 16
    ensures forall x :: x in Powers(s) ==> Listed(x)
    decreases s
  {
    if s >= 3 {
      PowersListed(s - 1);
      PowerValues();
      FirstPowers();
    }
  }

  lemma SumsListed()
    ensures Sums(168, 272, 16416) == [440, 712, 1152, 1864, 3016, 4880, 7896, 12776, 20672]
  {
    assert Sums(12776, 20672, 16416) == [];
    assert Sums(4880, 7896, 16416) == [12776] + ([20672] + Sums(12776, 20672, 16416));
    assert Sums(1152, 1864, 16416) == [3016] + ([4880] + ([7896] + Sums(4880, 7896, 16416)));
    assert Sums(168, 272, 16416) == [440] + ([712] + ([1152] + ([1864] + Sums(1152, 1864, 16416))));
  }

  lemma ListIs()
    ensures Pow2(16) == 65536 && forall y :: y in SizeList(16, PAGE) ==> Listed(y)
  {
    PowerValues();
    PowersListed(16);
    SumsListed();
    hide Pow2, Powers, Sums;
    forall y | y in SizeList(16, PAGE) ensures Listed(y) {
      SmallListed(y);
    }
  }

  lemma ListHas(y: nat)
    requires Listed(y) && y >= 440
    ensures y in SizeList(16, PAGE)
  {
    hide SizeList, Powers, Sums;
    InSums(y);
    InPowers(y);
    ListParts(y);
  }

  lemma ListParts(y: nat)
    requires y in Powers(16) || y in Sums(168, 272, 16416)
    ensures y in SizeList(16, PAGE)
  {
    hide Powers, Sums;
  }

  lemma InSums(y: nat)
    ensures y in {440, 712, 1152, 1864, 3016, 4880, 7896, 12776, 20672} ==> y in Sums(168, 272, 16416)
  {
    SumsListed();
    hide Sums;
    var sums := [440, 712, 1152, 1864, 3016, 4880, 7896, 12776, 20672];
    assert sums[0] == 440 && sums[1] == 712 && sums[2] == 1152 && sums[3] == 1864 && sums[4] == 3016;
    assert sums[5] == 4880 && sums[6] == 7896 && sums[7] == 12776 && sums[8] == 20672;
  }

  lemma InPowers(y: nat)
    ensures y in {512, 1024, 2048, 4096, 8192, 16384, 32768, 65536} ==> y in Powers(16)
  {
    PowerValues();
    PowersAre(16, 16);
    hide Pow2, Powers;
    assert Pow2(9) in Powers(16) && Pow2(10) in Powers(16) && Pow2(11) in Powers(16) && Pow2(12) in Powers(16);
    assert Pow2(13) in Powers(16) && Pow2(14) in Powers(16) && Pow2(15) in Powers(16) && Pow2(16) in Powers(16);
  }

  // ---------- the classes ----------

  /** The first nineteen classes, in their order. */
  function Size(k: nat): nat {
    match k
    case 0 => FULL case 1 => 32768 case 2 => 20672 case 3 => 16384 case 4 => 12776 case 5 => 8192 case 6 => 4880
    case 7 => 4096 case 8 => 3016 case 9 => 2048 case 10 => 1864 case 11 => 1152 case 12 => 1024 case 13 => 712
    case 14 => 512 case 15 => 440 case 16 => 330 case 17 => 256 case _ => 224
  }

  lemma Gap(k: nat, y: nat)
    requires 0 < k <= 18
    ensures Listed(Size(k)) && Size(k) + Size(k) / 16 < Size(k - 1)
    ensures Listed(y) && Size(k) < y < Size(k - 1) ==> Size(k - 1) <= y + y / 16
  {
  }

  /** A set-up with default pages. */
  ghost predicate Default(reg: Registry)
    reads reg
  {
    reg.Ready() && reg.shift == 16
  }

  /** ikmem_init(0, 0, NULL) */
  method SetUp() returns (reg: Registry)
    ensures fresh(reg) && Default(reg)
  {
    hide SizesOk, LookupOk, TableOk, SuppliersRoomy, SuppliersCheapest, Covered, OwnClasses, BuiltIn, SizeList;
    reg := new Registry.Init(0, []);
  }

  lemma {:induction false} ClassAt(reg: Registry, k: nat)
    requires Default(reg) && k <= 18
    ensures k < reg.builtin <= |reg.geo| && reg.geo[k].objSize == Size(k) && reg.pg == PAGE
  {
    PowerValues();
    hide Pow2, SizesOk, LookupOk, TableOk, SuppliersRoomy, SuppliersCheapest, Covered, OwnClasses, Listed, Size;
    if k == 0 {
      FirstSize();
    } else {
      ClassAt(reg, k - 1);
      Next(reg.geo, reg.builtin, k);
    }
  }

  lemma FirstSize()
    ensures Size(0) == FULL
  {
  }

  lemma Next(geo: seq<Geom>, n: nat, k: nat)
    requires BuiltIn(geo, SizeList(16, PAGE), n, FULL) && 0 < k <= 18 && k - 1 < n && geo[k - 1].objSize == Size(k - 1)
    ensures k < n && geo[k].objSize == Size(k)
  {
    hide BuiltIn, SizeList, Listed, Size;
    ListIs();
    forall y | y in SizeList(16, PAGE) && Size(k) < y < Size(k - 1) ensures Size(k - 1) <= y + y / 16 {
      Gap(k, y);
    }
    Gap(k, 0);
    IsListed(k);
    NextClass(geo, SizeList(16, PAGE), n, FULL, k - 1, Size(k - 1), Size(k));
  }

  lemma IsListed(k: nat)
    requires 0 < k <= 18
    ensures Size(k) in SizeList(16, PAGE)
  {
    hide SizeList;
    Gap(k, 0);
    PowerValues();
    SmallOnes(16, PAGE);
    if Size(k) >= 440 { ListHas(Size(k)); }
  }

  // ---------- the numbers ----------

  /** Objects of size `o` on pages of `p` bytes: how many to a page, and what a page wastes. */
  predicate PageIs(o: nat, p: nat, n: nat, w: int) {
    o >= PTR && UnitSize(o) <= p && Calculate(UnitSize(o), p).num == n && PageWaste(o, p) == w
  }

  lemma PageBy(o: nat, p: nat, unit: nat, n: nat, offSlab: bool, w: int)
    requires o >= PTR && UnitSize(o) == unit <= p && Carves(unit, p, n, offSlab)
    requires w == p - n * unit + if offSlab then 64 else 0
    ensures PageIs(o, p, n, w)
  {
    CalculateIs(unit, p);
    var c := Calculate(unit, p);
    CarvesOnce(unit, p, n, c.num, offSlab, c.offSlab);
    hide Calculate, Carves, UnitSize;
  }

  /** On default pages. */
  lemma Roots()
    ensures PageIs(65656, 65664, 1, 64)
    ensures PageIs(32768, 65664, 2, 112)
    ensures PageIs(20672, 65664, 3, 3624)
    ensures PageIs(16384, 65664, 4, 96)
    ensures PageIs(12776, 65664, 5, 1744)
  {
    hide PageIs;
    PageBy(65656, 65664, 65664, 1, true, 64);
    PageBy(32768, 65664, 32776, 2, false, 112);
    PageBy(20672, 65664, 20680, 3, false, 3624);
    PageBy(16384, 65664, 16392, 4, false, 96);
    PageBy(12776, 65664, 12784, 5, false, 1744);
  }

  /** On a whole default page handed out as an object. */
  lemma FullPages()
    ensures PageIs(8192, 65656, 7, 8256)
    ensures PageIs(4880, 65656, 13, 2112)
    ensures PageIs(4096, 65656, 15, 4096)
    ensures PageIs(3016, 65656, 21, 2152)
    ensures PageIs(2048, 65656, 31, 1920)
    ensures PageIs(1864, 65656, 35, 136)
  {
    hide PageIs;
    PageBy(8192, 65656, 8200, 7, false, 8256);
    PageBy(4880, 65656, 4888, 13, false, 2112);
    PageBy(4096, 65656, 4104, 15, false, 4096);
    PageBy(3016, 65656, 3024, 21, false, 2152);
    PageBy(2048, 65656, 2056, 31, false, 1920);
    PageBy(1864, 65656, 1872, 35, false, 136);
  }

  /** On objects of the next classes. */
  lemma LargePages()
    ensures PageIs(3016, 32768, 10, 2528)
    ensures PageIs(2048, 32768, 15, 1928)
    ensures PageIs(2048, 20672, 10, 112)
    ensures PageIs(1864, 32768, 17, 944)
    ensures PageIs(1864, 20672, 11, 80)
    ensures PageIs(1864, 16384, 8, 1408)
  {
    hide PageIs;
    PageBy(3016, 32768, 3024, 10, false, 2528);
    PageBy(2048, 32768, 2056, 15, false, 1928);
    PageBy(2048, 20672, 2056, 10, false, 112);
    PageBy(1864, 32768, 1872, 17, false, 944);
    PageBy(1864, 20672, 1872, 11, false, 80);
    PageBy(1864, 16384, 1872, 8, false, 1408);
  }

  /** The class of 224. */
  lemma Pages224()
    ensures PageIs(224, 12776, 54, 248)
    ensures PageIs(224, 8192, 35, 72)
    ensures PageIs(224, 4880, 20, 240)
    ensures PageIs(224, 4096, 17, 152)
    ensures PageIs(224, 3016, 12, 232)
    ensures PageIs(224, 2048, 8, 192)
    ensures PageIs(224, 1864, 7, 240)
  {
    hide PageIs;
    PageBy(224, 12776, 232, 54, false, 248);
    PageBy(224, 8192, 232, 35, false, 72);
    PageBy(224, 4880, 232, 20, false, 240);
    PageBy(224, 4096, 232, 17, false, 152);
    PageBy(224, 3016, 232, 12, false, 232);
    PageBy(224, 2048, 232, 8, false, 192);
    PageBy(224, 1864, 232, 7, false, 240);
  }

  // ---------- the suppliers ----------

  /** What a cache loses with supplier `i`, when `i` takes default pages itself. */
  lemma LossOne(pg: nat, geo: seq<Geom>, o: nat, i: nat, n: nat, w: int, m: nat, v: int)
    requires SizesOk(pg, geo) && i < |geo| && geo[i].gfp == None
    requires PageIs(o, geo[i].objSize, n, w) && PageIs(geo[i].objSize, pg, m, v)
    ensures GfpWaste(pg, geo, o, Some(i)) == w * m + v
  {
    hide Calculate, UnitSize, PageWaste;
    assert LinkOk(pg, geo, i) && CalcOk(geo[i]);
  }

  /** The same when the pages of `i` are objects of `j`, which takes default pages. */
  lemma LossTwo(pg: nat, geo: seq<Geom>, o: nat, i: nat, j: nat, n: nat, w: int, m: nat, v: int, l: nat, u: int)
    requires SizesOk(pg, geo) && i < |geo| && geo[i].gfp == Some(j) && j < |geo| && geo[j].gfp == None
    requires PageIs(o, geo[i].objSize, n, w) && PageIs(geo[i].objSize, geo[j].objSize, m, v)
    requires PageIs(geo[j].objSize, pg, l, u)
    ensures GfpWaste(pg, geo, o, Some(i)) == w * m + v * l + u
  {
    hide Calculate, UnitSize, PageWaste;
    assert LinkOk(pg, geo, i) && CalcOk(geo[i]);
    LossOne(pg, geo, geo[i].objSize, j, m, v, l, u);
  }

  lemma SupplierIs(pg: nat, geo: seq<Geom>, o: nat, r: Option<nat>, k: nat)
    requires SizesOk(pg, geo) && o >= PTR && CheapestSupplier(pg, geo, o, r)
    requires k < |geo| && Candidate(geo, o, k)
    requires forall i :: 0 <= i < |geo| && Candidate(geo, o, i) ==> UnitSize(o) <= geo[i].objSize
    requires GfpWaste(pg, geo, o, Some(k)) < pg
    requires forall i :: 0 <= i < |geo| && i != k && Candidate(geo, o, i) ==>
               GfpWaste(pg, geo, o, Some(k)) < GfpWaste(pg, geo, o, Some(i))
    ensures r == Some(k)
  {
    hide Loses, GfpWaste, Candidate, UnitSize, SizesOk;
    WasteIs(pg, geo, o, k, GfpWaste(pg, geo, o, Some(k)));
    if r.Some? && r.value != k {
      WasteIs(pg, geo, o, r.value, GfpWaste(pg, geo, o, r));
      forall w | Loses(pg, geo, o, r.value, w) ensures w == GfpWaste(pg, geo, o, r) {
        WasteIs(pg, geo, o, r.value, w);
      }
    }
  }

  /** The first `c` classes: their sizes, and who supplies those of them that matter. */
  ghost predicate Known(geo: seq<Geom>, c: nat) {
    && |geo| == c && SizesOk(PAGE, geo)
    && (forall i :: 0 <= i < c ==> geo[i].objSize == Size(i))
    && (forall i :: 0 <= i < c && i <= 4 ==> geo[i].gfp == None)
    && (forall i :: 0 <= i < c && 5 <= i <= 10 ==> geo[i].gfp == Some(0))
  }

  /** No page is large enough for the four largest classes after the first. */
  lemma NoSupplierYet(geo: seq<Geom>, c: nat, r: Option<nat>)
    requires Known(geo, c) && 1 <= c <= 4 && CheapestSupplier(PAGE, geo, Size(c), r)
    ensures r == None
  {
    hide Loses;
    SizesBelow(geo, c);
  }

  lemma SizesBelow(geo: seq<Geom>, c: nat)
    requires Known(geo, c) && c <= 18
    ensures forall i :: 0 <= i < c ==> geo[i].objSize == Size(i) <= FULL
  {
  }

  /** Which of the first ten classes can supply the sixth to the eleventh. */
  lemma Suitable(geo: seq<Geom>, c: nat, i: nat)
    requires Known(geo, c) && 5 <= c <= 10 && i < c
    ensures Candidate(geo, Size(c), i) <==> i == 0 || (i == 1 && c >= 8) || (i == 2 && c >= 9) || (i == 3 && c == 10)
    ensures Candidate(geo, Size(c), i) ==> UnitSize(Size(c)) <= geo[i].objSize
  {
    hide SizesOk;
  }

  /** What class `c` would lose with supplier `i`. */
  function LossWith(c: nat, i: nat): int {
    match (c, i)
    case (5, 0) => 8320
    case (6, 0) => 2176
    case (7, 0) => 4160
    case (8, 0) => 2216 case (8, 1) => 5168
    case (9, 0) => 1984 case (9, 1) => 3968 case (9, 2) => 3960
    case (10, 0) => 200 case (10, 1) => 2000 case (10, 2) => 3864 case (10, 3) => 5728
    case _ => 0
  }

  lemma LossLarge(geo: seq<Geom>, c: nat, i: nat)
    requires Known(geo, c) && 5 <= c <= 10 && i < c && Candidate(geo, Size(c), i)
    requires UnitSize(Size(c)) <= geo[i].objSize && Size(c) >= PTR
    ensures GfpWaste(PAGE, geo, Size(c), Some(i)) == LossWith(c, i)
  {
    hide GfpWaste, PageIs, SizesOk, UnitSize, Candidate;
    Suitable(geo, c, i);
    Roots();
    FullPages();
    LargePages();
    match (c, i) {
      case (5, 0) => LossOne(PAGE, geo, 8192, 0, 7, 8256, 1, 64);
      case (6, 0) => LossOne(PAGE, geo, 4880, 0, 13, 2112, 1, 64);
      case (7, 0) => LossOne(PAGE, geo, 4096, 0, 15, 4096, 1, 64);
      case (8, 0) => LossOne(PAGE, geo, 3016, 0, 21, 2152, 1, 64);
      case (8, 1) => LossOne(PAGE, geo, 3016, 1, 10, 2528, 2, 112);
      case (9, 0) => LossOne(PAGE, geo, 2048, 0, 31, 1920, 1, 64);
      case (9, 1) => LossOne(PAGE, geo, 2048, 1, 15, 1928, 2, 112);
      case (9, 2) => LossOne(PAGE, geo, 2048, 2, 10, 112, 3, 3624);
      case (10, 0) => LossOne(PAGE, geo, 1864, 0, 35, 136, 1, 64);
      case (10, 1) => LossOne(PAGE, geo, 1864, 1, 17, 944, 2, 112);
      case (10, 2) => LossOne(PAGE, geo, 1864, 2, 11, 80, 3, 3624);
      case (10, 3) => LossOne(PAGE, geo, 1864, 3, 8, 1408, 4, 96);
      case _ => assert false;
    }
  }

  /** They are supplied by the first class, whose objects are whole default pages. */
  lemma FirstSupplies(geo: seq<Geom>, c: nat, r: Option<nat>)
    requires Known(geo, c) && 5 <= c <= 10 && CheapestSupplier(PAGE, geo, Size(c), r)
    ensures r == Some(0)
  {
    hide GfpWaste, SizesOk, UnitSize, Candidate, CheapestSupplier;
    assert Size(c) >= PTR;
    forall i | 0 <= i < |geo| && Candidate(geo, Size(c), i)
      ensures UnitSize(Size(c)) <= geo[i].objSize
    {
      Suitable(geo, c, i);
    }
    Suitable(geo, c, 0);
    LossLarge(geo, c, 0);
    forall i | 0 <= i < |geo| && i != 0 && Candidate(geo, Size(c), i)
      ensures GfpWaste(PAGE, geo, Size(c), Some(0)) < GfpWaste(PAGE, geo, Size(c), Some(i))
    {
      Suitable(geo, c, i);
      LossLarge(geo, c, i);
    }
    SupplierIs(PAGE, geo, Size(c), r, 0);
  }

  lemma Suitable224(geo: seq<Geom>, i: nat)
    requires Known(geo, 18) && i < 18
    ensures Candidate(geo, 224, i) <==> 4 <= i <= 10
    ensures Candidate(geo, 224, i) ==> UnitSize(224) <= geo[i].objSize
  {
    hide SizesOk;
  }

  lemma Loss224(geo: seq<Geom>, i: nat)
    requires Known(geo, 18) && 4 <= i <= 10 && UnitSize(224) <= geo[i].objSize
    ensures GfpWaste(PAGE, geo, 224, Some(i)) ==
            match i
            case 4 => 2984 case 5 => 8824 case 6 => 5296 case 7 => 6440 case 8 => 7088 case 9 => 7936 case _ => 8600
  {
    hide GfpWaste, PageIs, SizesOk, UnitSize;
    Roots();
    FullPages();
    Pages224();
    match i {
      case 4 => LossOne(PAGE, geo, 224, 4, 54, 248, 5, 1744);
      case 5 => LossTwo(PAGE, geo, 224, 5, 0, 35, 72, 7, 8256, 1, 64);
      case 6 => LossTwo(PAGE, geo, 224, 6, 0, 20, 240, 13, 2112, 1, 64);
      case 7 => LossTwo(PAGE, geo, 224, 7, 0, 17, 152, 15, 4096, 1, 64);
      case 8 => LossTwo(PAGE, geo, 224, 8, 0, 12, 232, 21, 2152, 1, 64);
      case 9 => LossTwo(PAGE, geo, 224, 9, 0, 8, 192, 31, 1920, 1, 64);
      case _ => LossTwo(PAGE, geo, 224, 10, 0, 7, 240, 35, 136, 1, 64);
    }
  }

  lemma Supplies224(geo: seq<Geom>, r: Option<nat>)
    requires Known(geo, 18) && CheapestSupplier(PAGE, geo, 224, r)
    ensures r == Some(4)
  {
    hide GfpWaste, SizesOk, UnitSize, Candidate, CheapestSupplier, Size;
    forall i | 0 <= i < |geo| && Candidate(geo, 224, i)
      ensures UnitSize(224) <= geo[i].objSize
    {
      Suitable224(geo, i);
    }
    Suitable224(geo, 4);
    Loss224(geo, 4);
    forall i | 0 <= i < |geo| && i != 4 && Candidate(geo, 224, i)
      ensures GfpWaste(PAGE, geo, 224, Some(4)) < GfpWaste(PAGE, geo, 224, Some(i))
    {
      Suitable224(geo, i);
      Loss224(geo, i);
    }
    SupplierIs(PAGE, geo, 224, r, 4);
  }

  /** What is needed of a default set-up from here on. */
  ghost predicate Classes(geo: seq<Geom>) {
    && |geo| > 18 && SizesOk(PAGE, geo) && SuppliersCheapest(PAGE, geo)
    && forall k :: 0 <= k <= 18 ==> geo[k].objSize == Size(k)
  }

  lemma DefaultClasses(reg: Registry)
    requires Default(reg)
    ensures Classes(reg.geo)
  {
    hide OwnClasses, BuiltIn, Covered, TableOk, LookupOk, SuppliersRoomy, SizesOk, Size, SuppliersCheapest;
    ClassAt(reg, 18);
    forall k | 0 <= k <= 18 ensures reg.geo[k].objSize == Size(k) {
      ClassAt(reg, k);
    }
  }

  lemma {:induction false} KnownAt(geo: seq<Geom>, c: nat)
    requires Classes(geo) && c <= 18
    ensures Known(geo[..c], c)
  {
    hide SizesOk, Size, CheapestSupplier, Known;
    PrefixOk(PAGE, geo, c);
    if c == 0 {
      KnownNone(geo[..0]);
    } else {
      KnownAt(geo, c - 1);
      if c == 1 {
        FirstOfAll(PAGE, geo);
      } else {
        assert CheapestAt(PAGE, geo, c - 1);
        SupplierNow(geo[..c - 1], c - 1, geo[c - 1].gfp);
      }
      assert geo[..c] == geo[..c - 1] + [geo[c - 1]];
      KnownMore(geo[..c - 1], geo[c - 1], c);
    }
  }

  lemma KnownNone(geo: seq<Geom>)
    requires geo == [] && SizesOk(PAGE, geo)
    ensures Known(geo, 0)
  {
  }

  lemma SupplierNow(geo: seq<Geom>, c: nat, r: Option<nat>)
    requires Known(geo, c) && 1 <= c <= 18 && SizesOk(PAGE, geo) && CheapestSupplier(PAGE, geo, Size(c), r)
    ensures (c <= 4 ==> r == None) && (5 <= c <= 10 ==> r == Some(0))
  {
    hide Known, SizesOk, CheapestSupplier, Size;
    if c <= 4 { NoSupplierYet(geo, c, r); } else if c <= 10 { FirstSupplies(geo, c, r); }
  }

  lemma KnownMore(before: seq<Geom>, g: Geom, c: nat)
    requires 0 < c <= 18 && Known(before, c - 1) && SizesOk(PAGE, before + [g]) && g.objSize == Size(c - 1)
    requires (c - 1 <= 4 ==> g.gfp == None) && (5 <= c - 1 <= 10 ==> g.gfp == Some(0))
    ensures Known(before + [g], c)
  {
    hide SizesOk, Size;
  }

  lemma PrefixOk(pg: nat, geo: seq<Geom>, c: nat)
    requires SizesOk(pg, geo) && c <= |geo|
    ensures SizesOk(pg, geo[..c])
  {
    hide CalcOk;
    var g := geo[..c];
    forall i | 0 <= i < |g| ensures LinkOk(pg, g, i) && CalcOk(g[i]) {
      assert LinkOk(pg, geo, i) && CalcOk(geo[i]) && g[i] == geo[i];
    }
  }

  lemma FirstOfAll(pg: nat, geo: seq<Geom>)
    requires SizesOk(pg, geo) && geo != []
    ensures geo[0].gfp == None
  {
    assert LinkOk(pg, geo, 0);
  }

  /** With default pages the class of 224 takes its pages from the class of 12776, 54 objects to a page. */
  lemma SupplierOf224(reg: Registry)
    requires Default(reg)
    ensures |reg.geo| > 18 && reg.geo[18].objSize == 224 && reg.geo[18].num == 54
    ensures reg.geo[18].gfp == Some(4) && reg.geo[4].objSize == 12776
  {
    DefaultClasses(reg);
    Supplier18(reg.geo);
  }

  lemma Supplier18(geo: seq<Geom>)
    requires Classes(geo)
    ensures geo[18].objSize == 224 && geo[18].num == 54 && geo[18].gfp == Some(4) && geo[4].objSize == 12776
  {
    hide CheapestSupplier, Calculate, UnitSize, Known;
    KnownAt(geo, 18);
    assert CheapestAt(PAGE, geo, 18);
    Supplies224(geo[..18], geo[18].gfp);
    assert LinkOk(PAGE, geo, 18) && CalcOk(geo[18]);
    Pages224();
  }
}
