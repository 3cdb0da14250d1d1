/** The size classes of ikmem: which caches exist, which cache supplies the pages of which, and how a
  * request finds its class.
  */
module SizeClasses {
  import opened Layout
  import opened KmemState
  import opened Waste

  /** imemcache_init_list, as called by ikmem_append. */
  function MakeGeom(objSize: nat, pageSize: nat, gfp: Option<nat>): (g: Geom)
    requires objSize >= PTR && UnitSize(objSize) <= pageSize
    ensures CalcOk(g) && g.objSize == objSize && g.pageSize == pageSize && g.gfp == gfp
  {
    var unitSize := UnitSize(objSize);
    var c := Calculate(unitSize, pageSize);
    var freeLimit := c.batchcount + c.num;
    var lruLimit := if freeLimit >= ARRAY_LIMIT then ARRAY_LIMIT else freeLimit;
    Geom(objSize, unitSize, pageSize, c.num, c.colorLimit, c.offSlab, freeLimit, lruLimit, lruLimit / 2, gfp)
  }

  /** The limits of a class in numbers: half of the magazine limit (rounded up) on top of a page of units before slabs
    * are released, magazines of at most 128, filled by halves.
    */
  lemma MakeLimits(objSize: nat, pageSize: nat, gfp: Option<nat>)
    requires objSize >= PTR && UnitSize(objSize) <= pageSize
    ensures var g := MakeGeom(objSize, pageSize, gfp);
            && Carves(UnitSize(objSize), pageSize, g.num, g.offSlab)
            && MagazineLimit(UnitSize(objSize)) <= 2 * (g.freeLimit - g.num) <= MagazineLimit(UnitSize(objSize)) + 1
            && g.lruLimit <= 128 && g.lruLimit <= g.freeLimit && (g.lruLimit == 128 || g.lruLimit == g.freeLimit)
            && g.lruLimit - 1 <= 2 * g.lruBatch <= g.lruLimit
  {
    CalculateIs(UnitSize(objSize), pageSize);
    hide Calculate, Carves, MagazineLimit, UnitSize;
  }

  /** A supplier comes earlier and its objects hold at least 8 units of the cache it supplies. */
  predicate SupplierRoomy(geo: seq<Geom>, i: nat)
    requires i < |geo|
  {
    geo[i].gfp.Some? ==> geo[i].gfp.value < i && 8 * UnitSize(geo[i].objSize) <= geo[geo[i].gfp.value].objSize
  }

  ghost predicate SuppliersRoomy(geo: seq<Geom>) {
    forall i {:trigger SupplierRoomy(geo, i)} :: 0 <= i < |geo| ==> SupplierRoomy(geo, i)
  }

  /** Class `i` has the cheapest supplier that there was when it was added. */
  ghost predicate CheapestAt(pg: nat, geo: seq<Geom>, i: nat)
    requires i < |geo|
  {
    SizesOk(pg, geo[..i]) && CheapestSupplier(pg, geo[..i], geo[i].objSize, geo[i].gfp)
  }

  ghost predicate SuppliersCheapest(pg: nat, geo: seq<Geom>) {
    forall i {:trigger CheapestAt(pg, geo, i)} :: 0 < i < |geo| ==> CheapestAt(pg, geo, i)
  }

  lemma CheapestGrow(pg: nat, geo: seq<Geom>)
    requires geo != [] && SuppliersCheapest(pg, geo[..|geo| - 1])
    requires |geo| > 1 ==> CheapestAt(pg, geo, |geo| - 1)
    ensures SuppliersCheapest(pg, geo)
  {
    hide SizesOk, CheapestSupplier;
    var g := geo[..|geo| - 1];
    forall i | 0 < i < |geo| ensures CheapestAt(pg, geo, i) {
      if i < |g| { assert CheapestAt(pg, g, i) && g[i] == geo[i] && g[..i] == geo[..i]; }
    }
  }

  lemma RoomyGrow(geo: seq<Geom>)
    requires geo != [] && SuppliersRoomy(geo[..|geo| - 1]) && SupplierRoomy(geo, |geo| - 1)
    ensures SuppliersRoomy(geo)
  {
    var g := geo[..|geo| - 1];
    forall i | 0 <= i < |geo| ensures SupplierRoomy(geo, i) {
      if i < |g| { assert SupplierRoomy(g, i) && g[i] == geo[i]; }
    }
  }

  // ---------- lookup ----------

  function SizeAt(geo: seq<Geom>, lookup: seq<nat>, i: nat): nat
    requires i < |lookup| && lookup[i] < |geo|
  {
    geo[lookup[i]].objSize
  }

  /** `lookup` lists every class once, largest first. */
  ghost predicate LookupOk(geo: seq<Geom>, lookup: seq<nat>) {
    && |lookup| == |geo|
    && (forall i :: 0 <= i < |lookup| ==> lookup[i] < |geo|)
    && (forall c :: 0 <= c < |geo| ==> c in lookup)
    && (forall i, j :: 0 <= i < j < |lookup| ==> SizeAt(geo, lookup, i) >= SizeAt(geo, lookup, j))
  }

  ghost predicate HoldsSize(geo: seq<Geom>, size: nat) {
    exists i :: 0 <= i < |geo| && geo[i].objSize >= size
  }

  /** `r` is a smallest class that holds `size`, if one does. */
  ghost predicate BestFit(geo: seq<Geom>, size: nat, r: Option<nat>) {
    match r
    case None => !HoldsSize(geo, size)
    case Some(c) =>
      && c < |geo| && size <= geo[c].objSize
      && forall i :: 0 <= i < |geo| && size <= geo[i].objSize ==> geo[c].objSize <= geo[i].objSize
  }

  /** The classes so far: each within its page, with the cheapest supplier; the first holds everything the others do. */
  ghost predicate GeoOk(pg: nat, geo: seq<Geom>) {
    && SizesOk(pg, geo)
    && (forall i :: 0 <= i < |geo| ==> geo[i].objSize <= pg - PTR)
    && (geo != [] ==> geo[0].objSize == pg - PTR)
    && SuppliersRoomy(geo) && SuppliersCheapest(pg, geo)
  }

  lemma GeoGrows(pg: nat, was: seq<Geom>, geo: seq<Geom>, size: nat, pageSize: nat, gfp: Option<nat>)
    requires GeoOk(pg, was) && PTR <= size && size + PTR <= pg && (was == [] ==> size == pg - PTR && gfp == None)
    requires gfp.Some? ==> gfp.value < |was| && UnitSize(size) * 8 <= was[gfp.value].objSize
    requires was != [] ==> CheapestSupplier(pg, was, size, gfp)
    requires pageSize == (if gfp.Some? then was[gfp.value].objSize else pg) && UnitSize(size) <= pageSize
    requires geo == was + [MakeGeom(size, pageSize, gfp)]
    ensures GeoOk(pg, geo) && (was != [] ==> geo[|was|].objSize <= geo[0].objSize)
  {
    hide SizesOk, CalcOk, LinkOk, SuppliersRoomy, SuppliersCheapest, CheapestSupplier, MakeGeom;
    var n := |was|;
    assert geo[..n] == was;
    SizesGrow(pg, geo, size, pageSize, gfp);
    assert SupplierRoomy(geo, n);
    RoomyGrow(geo);
    CheapestGrow(pg, geo);
  }

  lemma FirstIsFull(pg: nat, geo: seq<Geom>)
    requires GeoOk(pg, geo) && geo != []
    ensures geo[0].objSize == pg - PTR
  {
  }

  class Registry {
    const shift: nat  // imem_page_shift
    const pg: nat     // imem_page_size
    var geo: seq<Geom>               // ikmem_array
    var lookup: seq<nat>             // ikmem_lookup, as indices into ikmem_array
    var table1: seq<Option<nat>>     // ikmem_size_lookup1
    var table2: seq<Option<nat>>     // ikmem_size_lookup2
    ghost var builtin: nat           // how many classes set-up made from its own list

    ghost predicate Valid()
      reads this
    {
      && shift >= 8 && pg == Pow2(shift) + 128
      && GeoOk(pg, geo) && LookupOk(geo, lookup) && (geo != [] ==> lookup[0] == 0)
    }

    /** imem_gfp_init and the set-up half of ikmem_init: the first class is a whole page less its header word. */
    constructor Init(pageShift: int, sizelist: seq<nat>)
      requires pageShift <= 0 || pageShift >= 8
      requires var p := Pow2(if pageShift <= 0 then 16 else pageShift) + 128;
               forall i :: 0 <= i < |sizelist| ==> PTR <= sizelist[i] <= p - PTR
      ensures Ready()
      ensures shift == if pageShift <= 0 then 16 else pageShift
      ensures forall i :: 0 <= i < |sizelist| ==> HasClass(geo, sizelist[i])
    {
      shift := if pageShift <= 0 then 16 else pageShift;
      pg := Pow2(if pageShift <= 0 then 16 else pageShift) + PTR * 16;
      geo, lookup, table1, table2 := [], [], [], [];
      new;
      Pow2Monotone(8, shift);
      Pow2Even(shift);
      Append(pg - PTR, None);
      SetupCaches(sizelist);
      SizeListFits(shift, pg);
    }

    /** After set-up: every size of the list is covered, so every power of two up to the page, and the tables are
      * filled.
      */
    ghost predicate Ready()
      reads this
    {
      && Valid() && geo != []
      && (forall x :: x in SizeList(shift, pg) ==> Covered(geo, x))
      && OwnClasses(geo, SizeList(shift, pg), pg - PTR)
      && BuiltIn(geo, SizeList(shift, pg), builtin, pg - PTR)
      && (forall k :: 3 <= k <= shift ==> Covered(geo, Pow2(k)))
      && TableOk(geo, table1, 4) && TableOk(geo, table2, 1024)
    }

    /** The class that ikmem_core_malloc uses for `size`, before it looks at the watermark. */
    method PickClass(size: nat) returns (r: Option<nat>)
      requires Ready() && size > 0
      ensures Picked(geo, size, r)
    {
      hide Valid, BestFit, HoldsSize, Covered;
      r := None;
      var round := (size + 3) / 4 * 4;
      if round <= 1024 {
        TableEntry(geo, table1, 4, (size + 3) / 4, round);
        r := table1[round / 4];
        PickedFast(geo, size, r);
      } else {
        round := (size + 1023) / 1024 * 1024;
        if round < 256 * 1024 {
          TableEntry(geo, table2, 1024, (size + 1023) / 1024, round);
          r := table2[round / 1024];
          PickedFast(geo, size, r);
        }
      }
      if r == None {
        r := ChooseSize(size);
        if Rounded(size) == size { PickedSlow(geo, size, r); }
      }
    }

    /** ikmem_append: the new class sifts towards the front of `lookup`, but is never compared with slot 0. */
    method Append(size: nat, gfp: Option<nat>)
      requires Valid() && PTR <= size <= pg - PTR
      requires geo == [] ==> size == pg - PTR && gfp == None
      requires gfp.Some? ==> gfp.value < |geo| && UnitSize(size) * 8 <= geo[gfp.value].objSize
      requires geo != [] ==> CheapestSupplier(pg, geo, size, gfp)
      modifies this`geo, this`lookup
      ensures Valid()
      ensures |geo| == |old(geo)| + 1 && geo[..|old(geo)|] == old(geo)
      ensures geo[|old(geo)|].objSize == size && geo[|old(geo)|].gfp == gfp
    {
      SupplierFits(pg, geo, size, gfp);
      hide GeoOk, LookupOk, Sifting, CheapestSupplier;
      var pageSize := if gfp.Some? then geo[gfp.value].objSize else pg;
      var n := |geo|;
      ghost var before, was := lookup, geo;
      geo := geo + [MakeGeom(size, pageSize, gfp)];
      GeoGrows(pg, was, geo, size, pageSize, gfp);
      assert geo[..n] == was;
      lookup := lookup + [n];
      SiftStart(geo, before, n);
      var index := n;
      ghost var grown := geo;
      while index > 1
        invariant geo == grown && 0 <= index <= n && |lookup| == n + 1 && |geo| == n + 1
        invariant n > 0 ==> index > 0 && lookup[0] == 0
        invariant Sifting(geo, lookup, index)
      {
        var k := index - 1;
        SiftBounds(geo, lookup, index);
        if geo[lookup[index]].objSize < geo[lookup[k]].objSize { break; }
        SiftStep(geo, lookup, index);
        lookup := lookup[index := lookup[k]][k := lookup[index]];
        index := k;
      }
      SiftBounds(geo, lookup, index);
      SiftDone(geo, lookup, index);
    }
    /** ikmem_choose_gfp: the cheapest supplier whose objects hold 8 to 64 units, if cheaper than a whole page. */
    method ChooseGfp(objSize: nat) returns (r: Option<nat>)
      requires Valid() && PTR <= objSize
      ensures CheapestSupplier(pg, geo, objSize, r)
      ensures r.Some? ==> r.value < |geo| && UnitSize(objSize) * 8 <= geo[r.value].objSize
    {
      hide LinksOk, CalcsOk, LookupOk, GfpWaste, UnitSize, CheapestSupplier, SuppliersCheapest;
      var min: int := pg;
      r := None;
      for index := 0 to |geo|
        invariant match r
                  case None => min == pg
                  case Some(k) =>
                    k < index && Candidate(geo, objSize, k)
                    && min == GfpWaste(pg, geo, objSize, Some(k)) < pg
        invariant forall i :: 0 <= i < index && Candidate(geo, objSize, i) ==>
                  min <= GfpWaste(pg, geo, objSize, Some(i))
        invariant r.Some? ==> forall i :: 0 <= i < r.value && Candidate(geo, objSize, i) ==>
                                            min < GfpWaste(pg, geo, objSize, Some(i))
      {
        if !(geo[index].objSize < UnitSize(objSize) * 8 || geo[index].objSize > UnitSize(objSize) * 64) {
          var waste := GfpWaste(pg, geo, objSize, Some(index));
          if waste < min {
            min, r := waste, Some(index);
          }
        }
      }
      CheapestByWaste(pg, geo, objSize, r);
    }

    /** ikmem_insert: no new class if one of this size exists, or (when approximating) one up to a sixteenth larger. */
    method Insert(objSize: nat, approximate: bool)
      requires Valid() && geo != [] && PTR <= objSize <= pg - PTR
      modifies this`geo, this`lookup
      ensures Valid() && Extends(old(geo), geo)
      ensures if approximate then Covered(geo, objSize) else HasClass(geo, objSize)
      ensures if (if approximate then Covered(old(geo), objSize) else HasClass(old(geo), objSize))
              then geo == old(geo)
              else |geo| == |old(geo)| + 1 && geo[|old(geo)|].objSize == objSize
                   && CheapestSupplier(pg, old(geo), objSize, geo[|old(geo)|].gfp)
    {
      var index := 0;
      while index < |geo|
        invariant 0 <= index <= |geo|
        invariant forall i :: 0 <= i < index ==>
                    geo[i].objSize != objSize
                      && (approximate ==> !(objSize <= geo[i].objSize <= objSize + objSize / 16))
      {
        var size := geo[index].objSize;
        if size == objSize { return; }
        if size > objSize && size - objSize <= objSize / 16 && approximate { return; }
        index := index + 1;
      }
      ghost var before := geo;
      var gfp := ChooseGfp(objSize);
      Append(objSize, gfp);
      assert geo[|before|].objSize == objSize;
      assert objSize <= geo[|before|].objSize <= objSize + objSize / 16;
    }

    /** ikmem_choose_size: scan `lookup` from its small end. */
    method ChooseSize(size: nat) returns (r: Option<nat>)
      requires Valid()
      ensures BestFit(geo, size, r)
    {
      hide SizesOk;
      r := None;
      if size >= pg { return; }
      if |geo| > 0 && size > geo[lookup[0]].objSize {
        LargestFirst(geo, lookup);
        return;
      }
      var index := |geo|;
      while index > 0
        invariant 0 <= index <= |geo|
        invariant forall i :: index <= i < |geo| ==> SizeAt(geo, lookup, i) < size
      {
        index := index - 1;
        if geo[lookup[index]].objSize >= size {
          FoundFit(geo, lookup, index, size);
          return Some(lookup[index]);
        }
      }
      NothingFits(geo, lookup, size);
    }
    /** The body of ikmem_setup_caches: build the list of sizes, insert the largest first, add the caller's
      * sizes as they are, then fill the two lookup tables.
      */
    method SetupCaches(sizelist: seq<nat>)
      requires Valid() && |geo| == 1
      requires forall i :: 0 <= i < |sizelist| ==> PTR <= sizelist[i] <= pg - PTR
      modifies this
      ensures Valid() && Extends(old(geo), geo)
      ensures forall x :: x in SizeList(shift, pg) ==> Covered(geo, x)
      ensures OwnClasses(geo, SizeList(shift, pg), pg - PTR)
      ensures BuiltIn(geo, SizeList(shift, pg), builtin, pg - PTR)
      ensures forall i :: 0 <= i < |sizelist| ==> HasClass(geo, sizelist[i])
      ensures TableOk(geo, table1, 4) && TableOk(geo, table2, 1024)
    {
      hide SizesOk, LookupOk, Covered, Extends, HasClass, TableOk, Pow2, SuppliersRoomy, SizeList, SizesFrom,
           OwnClasses, BuiltIn, Built, SuppliersCheapest;
      var sizevec := SizeVector();
      ghost var sizes := sizevec[..];
      SizeListFits(shift, pg);
      SortDescending(sizevec);
      SameMembers(sizes, sizevec[..]);
      ghost var first := geo;
      forall i | 0 <= i < sizevec.Length ensures PTR <= sizevec[i] <= pg - PTR {
        assert sizevec[i] in sizevec[..];
      }
      InsertAll(sizevec);
      ghost var second := geo;
      builtin := |geo|;
      AddSizes(sizelist);
      forall x | x in SizeList(shift, pg) ensures Covered(second, x) && Covered(geo, x) {
        assert x in sizevec[..];
        var i :| 0 <= i < sizevec.Length && sizevec[i] == x;
        CoveredStill(second, geo, x);
      }
      BuiltList(second, geo, sizevec[..], SizeList(shift, pg), pg - PTR);
      OwnFrom(first, second, geo, SizeList(shift, pg), sizevec[..], pg - PTR);
      ExtendsTransitive(first, second, geo);
      table1 := FillTable(4);
      table2 := FillTable(1024);
    }

    /** `for (i = 0; i < count; i++) ikmem_insert(sizevec[i], 1)` */
    method InsertAll(sizevec: array<nat>)
      requires Valid() && |geo| == 1 && forall i, j :: 0 <= i < j < sizevec.Length ==> sizevec[i] >= sizevec[j]
      requires forall i :: 0 <= i < sizevec.Length ==> PTR <= sizevec[i] <= pg - PTR
      modifies this`geo, this`lookup
      ensures Valid() && geo != [] && Extends(old(geo), geo)
      ensures forall i :: 0 <= i < sizevec.Length ==> Covered(geo, sizevec[i])
      ensures Built(geo, sizevec[..], sizevec.Length, pg - PTR)
      ensures SizesFrom(old(geo), geo, sizevec[..])
    {
      hide GeoOk, LookupOk, Covered, Extends, SizesFrom, Built;
      ghost var first := geo;
      ExtendsSelf(geo);
      NoneFrom(geo, sizevec[..]);
      FirstIsFull(pg, geo);
      NoneBuilt(geo, sizevec[..], pg - PTR);
      for i := 0 to sizevec.Length
        invariant Valid() && geo != [] && Extends(first, geo)
        invariant forall j :: 0 <= j < i ==> Covered(geo, sizevec[j])
        invariant Built(geo, sizevec[..], i, pg - PTR)
        invariant SizesFrom(first, geo, sizevec[..])
      {
        ghost var before := geo;
        Insert(sizevec[i], true);
        OneMoreBuilt(before, geo, sizevec[..], i, pg - PTR);
        OneMoreFrom(first, before, geo, sizevec[..], i);
        ExtendsNonEmpty(before, geo);
        forall j | 0 <= j < i ensures Covered(geo, sizevec[j]) { CoveredStill(before, geo, sizevec[j]); }
        ExtendsTransitive(first, before, geo);
      }
    }

    /** The caller's own sizes, inserted without approximation. */
    method AddSizes(sizelist: seq<nat>)
      requires Valid() && geo != []
      requires forall i :: 0 <= i < |sizelist| ==> PTR <= sizelist[i] <= pg - PTR
      modifies this`geo, this`lookup
      ensures Valid() && geo != [] && Extends(old(geo), geo)
      ensures forall i :: 0 <= i < |sizelist| ==> HasClass(geo, sizelist[i])
    {
      hide SizesOk, LookupOk, Covered, Extends, HasClass;
      ghost var first := geo;
      ExtendsSelf(geo);
      for i := 0 to |sizelist|
        invariant Valid() && geo != [] && Extends(first, geo)
        invariant forall j :: 0 <= j < i ==> HasClass(geo, sizelist[j])
      {
        ghost var before := geo;
        Insert(sizelist[i], false);
        ExtendsNonEmpty(before, geo);
        forall j | 0 <= j < i ensures HasClass(geo, sizelist[j]) { HasStill(before, geo, sizelist[j]); }
        ExtendsTransitive(first, before, geo);
      }
    }

    /** The powers of two up to the page, jemalloc-like sizes and Fibonacci sizes up to half a page. */
    method SizeVector() returns (a: array<nat>)
      requires Valid()
      ensures fresh(a) && a[..] == SizeList(shift, pg)
    {
      hide Valid, Powers, Sums, Pow2;
      var v: seq<nat> := [];
      var s: int := shift;
      while s >= 3
        invariant s <= shift && v + Powers(s) == Powers(shift)
        decreases s
      {
        PowersMore(v, s);
        v := v + [Pow2(s)];
        s := s - 1;
      }
      NoMore(v, s, 1, 1, 1);
      v := v + SMALL_SIZES;
      ghost var fixed := v;
      var fib1, fib2 := 168, 272;
      while fib2 < pg / 4
        invariant 0 < fib1 < fib2 && v + Sums(fib1, fib2, pg / 4) == fixed + Sums(168, 272, pg / 4)
        decreases pg - fib2
      {
        var f := fib1 + fib2;
        SumsMore(v, fib1, fib2, pg / 4);
        v := v + [f];
        fib1 := fib2;
        fib2 := f;
      }
      NoMore(v, 2, fib1, fib2, pg / 4);
      a := new nat[|v|](i requires 0 <= i < |v| => v[i]);
      assert a[..] == v;
    }

    /** One of the loops that fill ikmem_size_lookup1 and ikmem_size_lookup2; entry 0 is cleared last. */
    method FillTable(step: nat) returns (table: seq<Option<nat>>)
      requires Valid()
      ensures TableOk(geo, table, step)
    {
      table := seq(257, _ => None);
      for i := 1 to 257
        invariant |table| == 257 && table[0] == None
        invariant forall j :: 1 <= j < i ==> BestFit(geo, j * step, table[j])
      {
        var r := ChooseSize(i * step);
        table := table[i := r];
      }
    }
  }

  /** The sizes that are no power of two and no sum. */
  const SMALL_SIZES: seq<nat> := [24, 40, 48, 56, 80, 96, 112, 160, 192, 224, 330]

  /** The powers of two from 2^s down to 8. */
  function Powers(s: int): (v: seq<nat>)
    decreases s
  {
    if s < 3 then [] else [Pow2(s)] + Powers(s - 1)
  }

  /** Each size is the sum of the two before it, as long as the last one is below the limit. */
  function Sums(a: nat, b: nat, limit: nat): seq<nat>
    requires 0 < a && 0 < b
    decreases limit - b
  {
    if b >= limit then [] else [a + b] + Sums(b, a + b, limit)
  }

  lemma PowersMore(v: seq<nat>, s: int)
    requires s >= 3
    ensures v + [Pow2(s)] + Powers(s - 1) == v + Powers(s)
  {
    assert v + ([Pow2(s)] + Powers(s - 1)) == v + [Pow2(s)] + Powers(s - 1);
  }

  lemma SumsMore(v: seq<nat>, a: nat, b: nat, limit: nat)
    requires 0 < a && 0 < b < limit
    ensures v + [a + b] + Sums(b, a + b, limit) == v + Sums(a, b, limit)
  {
    assert v + ([a + b] + Sums(b, a + b, limit)) == v + [a + b] + Sums(b, a + b, limit);
  }

  lemma NoMore(v: seq<nat>, s: int, a: nat, b: nat, limit: nat)
    requires s < 3 && 0 < a && limit <= b && 0 < b
    ensures v + Powers(s) == v == v + Sums(a, b, limit)
  {
  }

  /** All sizes that set-up starts from: powers of two up to the page, sizes in between, and Fibonacci-like sizes. */
  function SizeList(shift: int, pg: nat): seq<nat> {
    Powers(shift) + SMALL_SIZES + Sums(168, 272, pg / 4)
  }

  lemma {:induction false} PowersAre(s: int, hi: nat)
    requires s <= hi
    ensures forall k :: 3 <= k <= s ==> Pow2(k) in Powers(s)
    ensures forall x :: x in Powers(s) ==> 8 <= x <= Pow2(hi)
    decreases s
  {
    if s >= 3 {
      PowersAre(s - 1, hi);
      Pow2Monotone(3, s);
      Pow2Monotone(s, hi);
    }
  }

  lemma {:induction false} SumsAre(a: nat, b: nat, limit: nat)
    requires 0 < a <= b && 8 <= b
    ensures forall x :: x in Sums(a, b, limit) ==> 8 <= x < 2 * limit
    decreases limit - b
  {
    if b < limit { SumsAre(b, a + b, limit); }
  }

  /** Set-up only starts from sizes that a class can have, and from every power of two. */
  lemma SizeListFits(shift: nat, pg: nat)
    requires shift >= 8 && pg == Pow2(shift) + 128
    ensures forall x :: x in SizeList(shift, pg) ==> PTR <= x <= pg - PTR
    ensures forall k :: 3 <= k <= shift ==> Pow2(k) in SizeList(shift, pg)
  {
    PowersAre(shift, shift);
    SumsAre(168, 272, pg / 4);
    Pow2Monotone(8, shift);
    assert Pow2(8) == 32 * Pow2(3);
  }

  /** Slots below `i` hold the largest sizes in order, and slot `i` is no smaller than those after it up to `j`. */
  ghost predicate Exchanged(q: seq<nat>, i: nat, j: nat) {
    && (forall k, m :: 0 <= k < i && k < m < |q| ==> q[k] >= q[m])
    && (forall m :: i < m < j && m < |q| ==> q[i] >= q[m])
  }

  lemma ExchangeStep(q: seq<nat>, i: nat, j: nat)
    requires i < j < |q| && Exchanged(q, i, j)
    ensures q[i] >= q[j] ==> Exchanged(q, i, j + 1)
    ensures q[i] < q[j] ==> Exchanged(q[i := q[j]][j := q[i]], i, j + 1)
    ensures forall o :: Permuted(o, q) ==> Permuted(o, q[i := q[j]][j := q[i]])
  {
    assert multiset(q[i := q[j]][j := q[i]]) == multiset(q);
  }

  /** Exchange sort, as ikmem_setup_caches does it. */
  method SortDescending(a: array<nat>)
    modifies a
    ensures forall i, j :: 0 <= i < j < a.Length ==> a[i] >= a[j]
    ensures Permuted(old(a[..]), a[..])
  {
    hide Exchanged, Permuted;
    ghost var was := a[..];
    PermutedSelf(was);
    ExchangeStart(a[..]);
    for i := 0 to a.Length
      invariant Exchanged(a[..], i, i + 1)
      invariant Permuted(was, a[..])
    {
      for j := i + 1 to a.Length
        invariant Exchanged(a[..], i, j)
        invariant Permuted(was, a[..])
      {
        ghost var q := a[..];
        ExchangeStep(q, i, j);
        if a[i] < a[j] {
          a[i], a[j] := a[j], a[i];
          assert a[..] == q[i := q[j]][j := q[i]];
        }
      }
      ExchangeNext(a[..], i);
    }
    ExchangeDone(a[..]);
  }

  ghost predicate Permuted(p: seq<nat>, q: seq<nat>) {
    multiset(p) == multiset(q)
  }

  lemma PermutedSelf(q: seq<nat>)
    ensures Permuted(q, q)
  {
  }

  lemma ExchangeStart(q: seq<nat>)
    ensures Exchanged(q, 0, 1)
  {
  }

  lemma ExchangeNext(q: seq<nat>, i: nat)
    requires i < |q| && Exchanged(q, i, |q|)
    ensures Exchanged(q, i + 1, i + 2)
  {
  }

  lemma ExchangeDone(q: seq<nat>)
    requires Exchanged(q, |q|, |q| + 1)
    ensures forall i, j :: 0 <= i < j < |q| ==> q[i] >= q[j]
  {
  }

  /** Entry `i` of a table is the best fit for `i * step`; entry 0 is unused. */
  ghost predicate TableOk(geo: seq<Geom>, table: seq<Option<nat>>, step: nat) {
    |table| == 257 && table[0] == None && forall i :: 1 <= i < 257 ==> BestFit(geo, i * step, table[i])
  }

  /** The classes added to `geo` have sizes of the list. */
  ghost predicate SizesFrom(geo: seq<Geom>, geo': seq<Geom>, sizes: seq<nat>) {
    forall i :: |geo| <= i < |geo'| ==> geo'[i].objSize in sizes
  }

  lemma NoneFrom(geo: seq<Geom>, sizes: seq<nat>)
    ensures SizesFrom(geo, geo, sizes)
  {
  }

  lemma OneMoreFrom(geo: seq<Geom>, before: seq<Geom>, after: seq<Geom>, sizes: seq<nat>, i: nat)
    requires SizesFrom(geo, before, sizes) && Extends(before, after) && i < |sizes|
    requires after == before || (|after| == |before| + 1 && after[|before|].objSize == sizes[i])
    ensures SizesFrom(geo, after, sizes)
  {
    forall k | |geo| <= k < |after| ensures after[k].objSize in sizes {
      if k < |before| { assert after[k] == after[..|before|][k] == before[k]; }
    }
  }

  /** The classes made from the first `i` sizes of a descending list: the full page first, then sizes of the list, each
    * more than a sixteenth below the class before it.
    */
  ghost predicate Built(geo: seq<Geom>, sizes: seq<nat>, i: nat, top: nat) {
    && geo != [] && geo[0].objSize == top && i <= |sizes|
    && (forall k :: 0 < k < |geo| ==>
          geo[k].objSize in sizes && geo[k - 1].objSize > geo[k].objSize + geo[k].objSize / 16)
    && (forall k, j :: 0 <= k < |geo| && i <= j < |sizes| ==> geo[k].objSize >= sizes[j])
  }

  lemma NoneBuilt(geo: seq<Geom>, sizes: seq<nat>, top: nat)
    requires |geo| == 1 && geo[0].objSize == top && forall j :: 0 <= j < |sizes| ==> sizes[j] <= top
    ensures Built(geo, sizes, 0, top)
  {
  }

  lemma OneMoreBuilt(before: seq<Geom>, after: seq<Geom>, sizes: seq<nat>, i: nat, top: nat)
    requires Built(before, sizes, i, top) && i < |sizes| && forall j, k :: 0 <= j < k < |sizes| ==> sizes[j] >= sizes[k]
    requires if Covered(before, sizes[i]) then after == before
             else |after| == |before| + 1 && after[..|before|] == before && after[|before|].objSize == sizes[i]
    ensures Built(after, sizes, i + 1, top)
  {
    hide Covered;
    if !Covered(before, sizes[i]) {
      NotClose(before, sizes[i], |before| - 1);
      BuiltGrows(before, after, sizes, i, top);
    }
  }

  lemma NotClose(geo: seq<Geom>, x: nat, k: nat)
    requires !Covered(geo, x) && k < |geo|
    ensures geo[k].objSize < x || geo[k].objSize > x + x / 16
  {
  }

  lemma BuiltGrows(before: seq<Geom>, after: seq<Geom>, sizes: seq<nat>, i: nat, top: nat)
    requires Built(before, sizes, i, top) && i < |sizes| && forall j, k :: 0 <= j < k < |sizes| ==> sizes[j] >= sizes[k]
    requires |after| == |before| + 1 && after[..|before|] == before && after[|before|].objSize == sizes[i]
    requires before[|before| - 1].objSize < sizes[i] || before[|before| - 1].objSize > sizes[i] + sizes[i] / 16
    ensures Built(after, sizes, i + 1, top)
  {
    var n := |before|;
    assert forall k :: 0 <= k < n ==> after[k] == after[..n][k] == before[k];
    forall k | 0 < k < n + 1
      ensures after[k].objSize in sizes && after[k - 1].objSize > after[k].objSize + after[k].objSize / 16
    {
      if k < n { assert after[k] == before[k] && after[k - 1] == before[k - 1]; }
    }
  }

  /** The first `n` classes are exactly what the list calls for: going down from the full page, the next class is the
    * next size that lies more than a sixteenth below the last one.
    */
  ghost predicate BuiltIn(geo: seq<Geom>, sizes: seq<nat>, n: nat, top: nat) {
    && 0 < n <= |geo| && geo[0].objSize == top
    && (forall k :: 0 < k < n ==>
          geo[k].objSize in sizes && geo[k - 1].objSize > geo[k].objSize + geo[k].objSize / 16)
    && (forall x :: x in sizes ==> Covered(geo[..n], x))
  }

  lemma BuiltList(first: seq<Geom>, geo: seq<Geom>, sorted: seq<nat>, sizes: seq<nat>, top: nat)
    requires Built(first, sorted, |sorted|, top) && Extends(first, geo) && forall x :: x in sizes <==> x in sorted
    requires forall x :: x in sizes ==> Covered(first, x)
    ensures BuiltIn(geo, sizes, |first|, top)
  {
    hide Covered;
    assert geo[..|first|] == first;
    assert forall k :: 0 <= k < |first| ==> geo[k] == first[k];
  }

  /** The next class after `k`, of size `a`, is that of size `b`, if every size of the list between them is close to
    * `a`.
    */
  lemma NextClass(geo: seq<Geom>, sizes: seq<nat>, n: nat, top: nat, k: nat, a: nat, b: nat)
    requires BuiltIn(geo, sizes, n, top) && k < n && geo[k].objSize == a && b in sizes && b + b / 16 < a
    requires forall y :: y in sizes && b < y < a ==> a <= y + y / 16
    ensures k + 1 < n && geo[k + 1].objSize == b
  {
    hide Covered;
    var i := CoveringClass(geo, sizes, n, top, b);
    if i <= k {
      Descending(geo, sizes, n, top, i, k);
    } else {
      Descending(geo, sizes, n, top, k + 1, i);
      ClassBelow(geo, sizes, n, top, k);
    }
  }

  lemma CoveringClass(geo: seq<Geom>, sizes: seq<nat>, n: nat, top: nat, b: nat) returns (i: nat)
    requires BuiltIn(geo, sizes, n, top) && b in sizes
    ensures i < n && b <= geo[i].objSize <= b + b / 16
  {
    assert Covered(geo[..n], b);
    i :| 0 <= i < n && b <= geo[..n][i].objSize <= b + b / 16;
  }

  lemma ClassBelow(geo: seq<Geom>, sizes: seq<nat>, n: nat, top: nat, k: nat)
    requires BuiltIn(geo, sizes, n, top) && k + 1 < n
    ensures var y := geo[k + 1].objSize; y in sizes && geo[k].objSize > y + y / 16
  {
    hide Covered;
  }

  lemma {:induction false} Descending(geo: seq<Geom>, sizes: seq<nat>, n: nat, top: nat, i: nat, j: nat)
    requires BuiltIn(geo, sizes, n, top) && i <= j < n
    ensures geo[i].objSize >= geo[j].objSize
    decreases j
  {
    hide Covered;
    if i < j {
      Descending(geo, sizes, n, top, i, j - 1);
      ClassBelow(geo, sizes, n, top, j - 1);
    }
  }

  /** No other size, of the list or the full page, is close enough above `x` to serve for it. */
  ghost predicate Lonely(sizes: seq<nat>, top: nat, x: nat) {
    !(x < top <= x + x / 16) && forall y :: y in sizes ==> !(x < y <= x + x / 16)
  }

  /** Such a size has a class of its own. */
  ghost predicate OwnClasses(geo: seq<Geom>, sizes: seq<nat>, top: nat) {
    forall x :: x in sizes && Lonely(sizes, top, x) ==> HasClass(geo, x)
  }

  lemma OwnFrom(first: seq<Geom>, second: seq<Geom>, geo: seq<Geom>, sizes: seq<nat>, sorted: seq<nat>, top: nat)
    requires |first| == 1 && first[0].objSize == top && Extends(first, second) && Extends(second, geo)
    requires SizesFrom(first, second, sorted) && forall x :: x in sizes <==> x in sorted
    requires forall x :: x in sizes ==> Covered(second, x)
    ensures OwnClasses(geo, sizes, top)
  {
    forall x | x in sizes && Lonely(sizes, top, x) ensures HasClass(geo, x) {
      var i :| 0 <= i < |second| && x <= second[i].objSize <= x + x / 16;
      if i > 0 { assert second[i].objSize in sizes; } else { assert second[0] == second[..1][0]; }
      assert HasClass(second, x);
      HasStill(second, geo, x);
    }
  }

  lemma SameMembers(p: seq<nat>, q: seq<nat>)
    requires Permuted(p, q)
    ensures forall x :: x in p <==> x in q
  {
    assert forall x :: x in p <==> x in multiset(p);
    assert forall x :: x in q <==> x in multiset(q);
  }

  ghost predicate HasClass(geo: seq<Geom>, size: nat) {
    exists c :: 0 <= c < |geo| && geo[c].objSize == size
  }

  lemma HasStill(geo: seq<Geom>, geo': seq<Geom>, size: nat)
    requires HasClass(geo, size) && Extends(geo, geo')
    ensures HasClass(geo', size)
  {
    var i :| 0 <= i < |geo| && geo[i].objSize == size;
    assert geo'[i] == geo[i];
  }

  lemma ExtendsSelf(geo: seq<Geom>)
    ensures Extends(geo, geo)
  {
    assert geo[..|geo|] == geo;
  }

  lemma ExtendsNonEmpty(geo: seq<Geom>, geo': seq<Geom>)
    requires Extends(geo, geo') && geo != []
    ensures geo' != []
  {
  }

  lemma ExtendsTransitive(a: seq<Geom>, b: seq<Geom>, c: seq<Geom>)
    requires Extends(a, b) && Extends(b, c)
    ensures Extends(a, c)
  {
    assert c[..|a|] == c[..|b|][..|a|];
  }

  lemma CoveredStill(geo: seq<Geom>, geo': seq<Geom>, size: nat)
    requires Covered(geo, size) && Extends(geo, geo')
    ensures Covered(geo', size)
  {
    var i :| 0 <= i < |geo| && size <= geo[i].objSize <= size + size / 16;
    assert geo'[i] == geo[i];
  }

  lemma Pow2Monotone(j: nat, k: nat)
    requires j <= k
    ensures Pow2(j) <= Pow2(k) && Pow2(3) == 8 && Pow2(8) == 256
  {
    if j < k { PowersOrdered(j, k); }
    assert Pow2(3) == 8;
    assert Pow2(8) == 32 * Pow2(3);
  }

  // ---------- what a request gets ----------

  /** The size the tables are consulted for; beyond the tables, the size itself. */
  function Rounded(size: nat): (r: nat)
    ensures size <= r
  {
    var small := (size + 3) / 4 * 4;
    if small <= 1024 then small
    else
      var large := (size + 1023) / 1024 * 1024;
      if large < 256 * 1024 then large else size
  }

  /** The tables are kept for multiples of 4 up to 1024 and of 1024 below 256 KiB, and a size is rounded up to the
    * next.
    */
  lemma RoundedIs(size: nat)
    ensures size <= 1024 ==> Rounded(size) % 4 == 0 && size <= Rounded(size) < size + 4
    ensures 1024 < size <= 255 * 1024 ==> Rounded(size) % 1024 == 0 && size <= Rounded(size) < size + 1024
    ensures size > 255 * 1024 ==> Rounded(size) == size
  {
  }

  /** The best fit for the rounded size, or else for the size. */
  ghost predicate Picked(geo: seq<Geom>, size: nat, r: Option<nat>) {
    if HoldsSize(geo, Rounded(size)) then BestFit(geo, Rounded(size), r) else BestFit(geo, size, r)
  }

  /** The fast tables never lose a request that ikmem_choose_size would serve, never pick a class that is
    * too small, and pick the same size as it does exactly when no class lies in the rounding gap, or none beyond it.
    */
  lemma PickedRight(geo: seq<Geom>, size: nat, r: Option<nat>, best: Option<nat>)
    requires Picked(geo, size, r) && BestFit(geo, size, best)
    ensures r.Some? <==> best.Some?
    ensures r.Some? ==> r.value < |geo| && size <= geo[r.value].objSize
    ensures r.Some? ==>
              (geo[r.value].objSize == geo[best.value].objSize <==>
               !HoldsSize(geo, Rounded(size)) || forall i :: 0 <= i < |geo| ==>
                 !(size <= geo[i].objSize < Rounded(size)))
  {
    if best.Some? {
      assert geo[best.value].objSize >= size;
      assert HoldsSize(geo, size);
    }
    if HoldsSize(geo, Rounded(size)) {
      var i :| 0 <= i < |geo| && geo[i].objSize >= Rounded(size);
      assert geo[i].objSize >= size;
      assert HoldsSize(geo, size);
      if j :| 0 <= j < |geo| && size <= geo[j].objSize < Rounded(size) {
        assert geo[best.value].objSize <= geo[j].objSize;
      }
    }
  }

  lemma TableEntry(geo: seq<Geom>, table: seq<Option<nat>>, step: nat, i: nat, round: nat)
    requires TableOk(geo, table, step) && step > 0 && round == i * step && 1 <= i < 257
    ensures round / step == i && BestFit(geo, round, table[i])
  {
    hide BestFit;
    var q := round / step;
    RemainderFits(step, round);
    BracketOrder(step, round, i, round, q);
    assert round < (i + 1) * step by { assert (i + 1) * step == i * step + step; }
    BracketOrder(step, round, q, round, i);
  }

  /** A table entry settles the choice; an empty one leaves it to the full scan. */
  lemma PickedFast(geo: seq<Geom>, size: nat, r: Option<nat>)
    requires BestFit(geo, Rounded(size), r)
    ensures r.Some? ==> Picked(geo, size, r)
    ensures r.None? ==> forall best :: BestFit(geo, size, best) ==> Picked(geo, size, best)
  {
    hide Rounded;
    if r.Some? {
      assert geo[r.value].objSize >= Rounded(size);
    }
  }

  lemma PickedSlow(geo: seq<Geom>, size: nat, r: Option<nat>)
    requires BestFit(geo, size, r) && Rounded(size) == size
    ensures Picked(geo, size, r)
  {
  }

  /** The rounding gap matters, in every set-up: 330 is a class of its own, but a request of 330 is looked up as 332
    * and gets a larger class.
    */
  lemma RoundingSkips(reg: Registry, r: Option<nat>, best: Option<nat>)
    requires reg.Ready() && Picked(reg.geo, 330, r) && BestFit(reg.geo, 330, best)
    ensures best.Some? && reg.geo[best.value].objSize == 330
    ensures r.Some? && reg.geo[r.value].objSize >= 332
  {
    hide SizesOk, LookupOk, TableOk, SuppliersRoomy, SuppliersCheapest, Covered, Pow2, SizeList;
    SmallClasses(reg);
    assert HasClass(reg.geo, 330);
    Pow2Monotone(8, reg.shift);
    assert reg.geo[0].objSize >= Rounded(330) == 332;
    assert HoldsSize(reg.geo, 332);
  }

  /** The sizes of the list below 440, whatever the page. */
  predicate Small(x: nat) {
    x in {8, 16, 24, 32, 40, 48, 56, 64, 80, 96, 112, 128, 160, 192, 224, 256, 330}
  }

  /** They have classes of their own in every set-up. */
  lemma SmallClasses(reg: Registry)
    requires reg.Ready()
    ensures forall x :: Small(x) ==> HasClass(reg.geo, x)
  {
    hide SizesOk, LookupOk, TableOk, SuppliersRoomy, SuppliersCheapest, Covered, SizeList, Small;
    forall x | Small(x) ensures HasClass(reg.geo, x) {
      SmallOnes(reg.shift, reg.pg);
      SmallAlone(reg.shift, reg.pg, x);
    }
  }

  lemma SmallAlone(shift: nat, pg: nat, x: nat)
    requires shift >= 8 && pg == Pow2(shift) + 128 && Small(x)
    requires forall y :: y in SizeList(shift, pg) && y < 440 ==> Small(y)
    ensures Lonely(SizeList(shift, pg), pg - PTR, x)
  {
    hide SizeList, Pow2;
    Pow2Monotone(8, shift);
    forall y | y in SizeList(shift, pg) ensures !(x < y <= x + x / 16) {
      if y < 440 { assert Small(y); }
    }
  }

  lemma SmallOnes(shift: nat, pg: nat)
    requires shift >= 8 && pg == Pow2(shift) + 128
    ensures forall x :: x in SizeList(shift, pg) && x < 440 ==> Small(x)
    ensures forall x :: Small(x) ==> x in SizeList(shift, pg)
  {
    hide SizeList, Small, Pow2;
    forall x | x in SizeList(shift, pg) && x < 440 ensures Small(x) {
      ListedParts(shift, pg, x);
      SmallPart(shift, pg, x);
    }
    forall x | Small(x) ensures x in SizeList(shift, pg) {
      ListedParts(shift, pg, x);
      SmallPart(shift, pg, x);
    }
  }

  lemma ListedParts(shift: nat, pg: nat, x: nat)
    ensures x in SizeList(shift, pg) <==> x in Powers(shift) || x in SMALL_SIZES || x in Sums(168, 272, pg / 4)
  {
    hide Powers, Sums, SMALL_SIZES;
  }

  lemma SmallPart(shift: nat, pg: nat, x: nat)
    requires shift >= 8
    ensures x < 440 && (x in Powers(shift) || x in SMALL_SIZES || x in Sums(168, 272, pg / 4)) ==> Small(x)
    ensures Small(x) ==> x in Powers(shift) || x in SMALL_SIZES
  {
    PowersGap(shift);
    PowersAre(shift, shift);
    SumsAbove(168, 272, pg / 4);
    FirstPowers();
    SmallListed(x);
    hide Powers, Sums, Pow2, SMALL_SIZES;
    assert Pow2(3) in Powers(shift) && Pow2(4) in Powers(shift) && Pow2(5) in Powers(shift);
    assert Pow2(6) in Powers(shift) && Pow2(7) in Powers(shift) && Pow2(8) in Powers(shift);
  }

  lemma SmallListed(x: nat)
    ensures x in {24, 40, 48, 56, 80, 96, 112, 160, 192, 224, 330} <==> x in SMALL_SIZES
  {
    assert SMALL_SIZES[0] == 24 && SMALL_SIZES[1] == 40 && SMALL_SIZES[2] == 48 && SMALL_SIZES[3] == 56;
    assert SMALL_SIZES[4] == 80 && SMALL_SIZES[5] == 96 && SMALL_SIZES[6] == 112 && SMALL_SIZES[7] == 160;
    assert SMALL_SIZES[8] == 192 && SMALL_SIZES[9] == 224 && SMALL_SIZES[10] == 330;
  }

  lemma FirstPowers()
    ensures Pow2(3) == 8 && Pow2(4) == 16 && Pow2(5) == 32 && Pow2(6) == 64 && Pow2(7) == 128 && Pow2(8) == 256
  {
    assert Pow2(3) == 8;
  }

  lemma {:induction false} PowersGap(s: int)
    ensures forall x :: x in Powers(s) ==> x in {8, 16, 32, 64, 128, 256} || x >= 512
    decreases s
  {
    if s >= 3 {
      PowersGap(s - 1);
      FirstPowers();
      hide Pow2;
      if s > 8 { PowersOrdered(8, s); }
    }
  }

  lemma {:induction false} SumsAbove(a: nat, b: nat, limit: nat)
    requires 0 < a <= b
    ensures forall x :: x in Sums(a, b, limit) ==> x >= a + b
    decreases limit - b
  {
    if b < limit { SumsAbove(b, a + b, limit); }
  }

  /** The power of two just above `size`. */
  function Ceiling(size: nat, k: nat): (r: nat)
    requires 3 <= k && 0 < size <= Pow2(k)
    ensures 3 <= r <= k && size <= Pow2(r) && (r > 3 ==> Pow2(r) < 2 * size)
    decreases k
  {
    if k > 3 && size <= Pow2(k - 1) then Ceiling(size, k - 1) else k
  }

  /** From the third power on, a power of two is a multiple of 8, and from the tenth on of 1024. */
  function Pow2Over(k: nat, j: nat): (m: nat)
    requires j <= k
    ensures Pow2(k) == m * Pow2(j)
  {
    if j == k then 1 else
    assert Pow2(k) == 2 * Pow2(k - 1);
    assert 2 * (Pow2Over(k - 1, j) * Pow2(j)) == (2 * Pow2Over(k - 1, j)) * Pow2(j);
    2 * Pow2Over(k - 1, j)
  }

  lemma Pow2Even(k: nat)
    requires k >= 3
    ensures Pow2(k) % 8 == 0
  {
    hide Pow2Over;
    var m := Pow2Over(k, 3);
    Pow2Monotone(3, 3);
  }

  lemma Pow2Ten()
    ensures Pow2(10) == 1024
  {
    Pow2Monotone(3, 3);
    assert Pow2(10) == 128 * Pow2(3);
  }

  /** Rounding does not pass a power of two. */
  lemma RoundedBelowPower(size: nat, k: nat)
    requires k >= 3 && 0 < size <= Pow2(k)
    ensures Rounded(size) <= Pow2(k)
  {
    hide Pow2, Pow2Over;
    Pow2Even(k);
    Pow2Ten();
    if k < 10 {
      Pow2Monotone(k, 10);
    } else {
      var m := Pow2Over(k, 10);
    }
  }

  /** Fragmentation: a request of at least 4 bytes that fits a page gets an object less than 17/8 of its size;
    * below 4 bytes the smallest class is already too large.
    */
  lemma Fragmentation(geo: seq<Geom>, shift: nat, size: nat, r: Option<nat>)
    requires shift >= 3 && 0 < size <= Pow2(shift)
    requires forall k :: 3 <= k <= shift ==> Covered(geo, Pow2(k))
    requires forall i :: 0 <= i < |geo| ==> geo[i].objSize >= PTR
    requires Picked(geo, size, r)
    ensures r.Some? && r.value < |geo| && size <= geo[r.value].objSize
    ensures 8 * geo[r.value].objSize < 17 * size <==> size >= 4
  {
    var k := Ceiling(size, shift);
    var q := Pow2(k);
    assert Covered(geo, q);
    var i :| 0 <= i < |geo| && q <= geo[i].objSize <= q + q / 16;
    RoundedBelowPower(size, k);
    assert geo[i].objSize >= Rounded(size);
    assert HoldsSize(geo, Rounded(size));
    assert geo[r.value].objSize <= geo[i].objSize;
    Pow2Monotone(3, k);
  }

  /** Later lists of classes only add to earlier ones. */
  ghost predicate Extends(geo: seq<Geom>, geo': seq<Geom>) {
    |geo| <= |geo'| && geo'[..|geo|] == geo
  }

  /** Some class is at least `size` and at most a sixteenth larger. */
  ghost predicate Covered(geo: seq<Geom>, size: nat) {
    exists i :: 0 <= i < |geo| && size <= geo[i].objSize <= size + size / 16
  }

  lemma LargestFirst(geo: seq<Geom>, lookup: seq<nat>)
    requires LookupOk(geo, lookup) && geo != []
    ensures forall i :: 0 <= i < |geo| ==> geo[i].objSize <= SizeAt(geo, lookup, 0)
  {
    forall c | 0 <= c < |geo| ensures geo[c].objSize <= SizeAt(geo, lookup, 0) {
      assert c in lookup;
      var j :| 0 <= j < |lookup| && lookup[j] == c;
      assert SizeAt(geo, lookup, j) == geo[c].objSize;
    }
  }

  lemma FoundFit(geo: seq<Geom>, lookup: seq<nat>, index: nat, size: nat)
    requires LookupOk(geo, lookup) && index < |geo| && SizeAt(geo, lookup, index) >= size
    requires forall i :: index < i < |geo| ==> SizeAt(geo, lookup, i) < size
    ensures BestFit(geo, size, Some(lookup[index]))
  {
    forall c | 0 <= c < |geo| && size <= geo[c].objSize ensures geo[lookup[index]].objSize <= geo[c].objSize {
      assert c in lookup;
      var j :| 0 <= j < |lookup| && lookup[j] == c;
      assert SizeAt(geo, lookup, j) == geo[c].objSize;
      if j < index { assert SizeAt(geo, lookup, j) >= SizeAt(geo, lookup, index); }
    }
  }

  lemma NothingFits(geo: seq<Geom>, lookup: seq<nat>, size: nat)
    requires LookupOk(geo, lookup)
    requires forall i :: 0 <= i < |geo| ==> SizeAt(geo, lookup, i) < size
    ensures BestFit(geo, size, None)
  {
    forall c | 0 <= c < |geo| ensures geo[c].objSize < size {
      assert c in lookup;
      var j :| 0 <= j < |lookup| && lookup[j] == c;
      assert SizeAt(geo, lookup, j) == geo[c].objSize;
    }
  }

  lemma SupplierFits(pg: nat, geo: seq<Geom>, size: nat, gfp: Option<nat>)
    requires SizesOk(pg, geo) && PTR <= size && size + PTR <= pg
    requires gfp.Some? ==> gfp.value < |geo| && UnitSize(size) * 8 <= geo[gfp.value].objSize
    ensures UnitSize(size) <= if gfp.Some? then geo[gfp.value].objSize else pg
  {
  }

  lemma SizesGrow(pg: nat, geo: seq<Geom>, size: nat, pageSize: nat, gfp: Option<nat>)
    requires geo != [] && size >= PTR && UnitSize(size) <= pageSize
    requires geo[|geo| - 1] == MakeGeom(size, pageSize, gfp)
    requires SizesOk(pg, geo[..|geo| - 1])
    requires match gfp case None => pageSize == pg case Some(i) => i < |geo| - 1 && pageSize == geo[i].objSize
    ensures SizesOk(pg, geo)
  {
    hide CalcOk, MakeGeom, UnitSize;
    var g := geo[..|geo| - 1];
    forall i | 0 <= i < |geo| ensures LinkOk(pg, geo, i) && CalcOk(geo[i]) {
      if i < |g| {
        assert LinkOk(pg, g, i) && g[i] == geo[i] && CalcOk(g[i]);
      } else {
        UnitOfMake(size, pageSize, gfp);
      }
    }
  }

  lemma UnitOfMake(size: nat, pageSize: nat, gfp: Option<nat>)
    requires size >= PTR && UnitSize(size) <= pageSize
    ensures var g := MakeGeom(size, pageSize, gfp); g.unitSize == UnitSize(size)
    ensures UnitSize(size) % 8 == 0 && size + PTR <= UnitSize(size)
  {
  }

  // ---------- the insertion loop ----------

  /** Sorted but for slot `index`, whose class is no smaller than those behind it. */
  ghost predicate Sifting(geo: seq<Geom>, lookup: seq<nat>, index: nat) {
    && |lookup| == |geo| && index < |lookup|
    && (forall i :: 0 <= i < |lookup| ==> lookup[i] < |geo|)
    && (forall c :: 0 <= c < |geo| ==> c in lookup)
    && (forall i, j :: 0 <= i < j < |lookup| && i != index && j != index ==>
          SizeAt(geo, lookup, i) >= SizeAt(geo, lookup, j))
    && (forall j :: index < j < |lookup| ==> SizeAt(geo, lookup, index) >= SizeAt(geo, lookup, j))
    && (index > 0 ==> SizeAt(geo, lookup, 0) >= SizeAt(geo, lookup, index))
  }

  lemma SiftStart(geo: seq<Geom>, before: seq<nat>, n: nat)
    requires |geo| == n + 1 && LookupOk(geo[..n], before)
    requires n > 0 ==> before[0] == 0 && geo[n].objSize <= geo[0].objSize
    ensures Sifting(geo, before + [n], n)
  {
    var lookup := before + [n];
    assert forall i :: 0 <= i < n ==> lookup[i] == before[i] && SizeAt(geo, lookup, i) == SizeAt(geo[..n], before, i);
    forall c | 0 <= c < |geo| ensures c in lookup {
      if c < n { assert c in before; } else { assert lookup[n] == c; }
    }
  }

  lemma SiftBounds(geo: seq<Geom>, lookup: seq<nat>, index: nat)
    requires Sifting(geo, lookup, index)
    ensures |lookup| == |geo| && index < |lookup| && forall i :: 0 <= i < |lookup| ==> lookup[i] < |geo|
  {
  }

  lemma SwapMembers(q: seq<nat>, i: nat, k: nat)
    requires i < |q| && k < |q|
    ensures forall c :: c in q ==> c in q[i := q[k]][k := q[i]]
  {
    var r := q[i := q[k]][k := q[i]];
    forall c | c in q ensures c in r {
      var j :| 0 <= j < |q| && q[j] == c;
      assert r[if j == i then k else if j == k then i else j] == c;
    }
  }

  lemma SiftStep(geo: seq<Geom>, lookup: seq<nat>, index: nat)
    requires Sifting(geo, lookup, index) && index > 1
    requires SizeAt(geo, lookup, index) >= SizeAt(geo, lookup, index - 1)
    ensures Sifting(geo, lookup[index := lookup[index - 1]][index - 1 := lookup[index]], index - 1)
  {
    SwapMembers(lookup, index, index - 1);
    var r := lookup[index := lookup[index - 1]][index - 1 := lookup[index]];
    var m := index - 1;
    assert forall i :: 0 <= i < |r| ==> r[i] == lookup[if i == index then m else if i == m then index else i];
    forall i, j | 0 <= i < j < |r| && i != m && j != m ensures SizeAt(geo, r, i) >= SizeAt(geo, r, j) {
      var i', j' := if i == index then m else i, if j == index then m else j;
      assert SizeAt(geo, lookup, i') >= SizeAt(geo, lookup, j');
    }
    forall j | m < j < |r| ensures SizeAt(geo, r, m) >= SizeAt(geo, r, j) {
      if j > index { assert SizeAt(geo, lookup, index) >= SizeAt(geo, lookup, j); }
    }
    assert forall i :: 0 <= i < |r| ==> r[i] < |geo|;
    forall c | 0 <= c < |geo| ensures c in r {
      assert c in lookup;
    }
    assert SizeAt(geo, r, 0) >= SizeAt(geo, r, m);
  }

  lemma SiftDone(geo: seq<Geom>, lookup: seq<nat>, index: nat)
    requires Sifting(geo, lookup, index)
    requires index <= 1 || SizeAt(geo, lookup, index) < SizeAt(geo, lookup, index - 1)
    ensures LookupOk(geo, lookup)
  {
  }
}
