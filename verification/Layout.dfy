/** Sizes of a slab page: how `imemcache_calculate` splits a page into units, and why every colour
  * offset leaves room for them. All sizes are those of a 64-bit build.
  */
module Layout {
  const PTR: nat := 8            // sizeof(void*), also IMROUNDSIZE
  const SLAB_STRUCT: nat := 64   // sizeof(imemslab_t)
  const ARRAY_LIMIT: nat := 128  // IMCACHE_ARRAYLIMIT
  const LRU_COUNT: nat := 8      // IMCACHE_LRU_COUNT

  /** IMROUNDUP: the least multiple of 8 that is not below `x`. */
  function RoundUp(x: nat): (r: nat)
    ensures r % 8 == 0 && x <= r < x + 8
  {
    (x + 7) / 8 * 8
  }

  /** The size of the unit that carries an object and its header word. */
  function UnitSize(objSize: nat): (u: nat)
    ensures u % 8 == 0 && objSize + PTR <= u < objSize + PTR + 8
  {
    RoundUp(objSize + PTR)
  }

  /** What `imemcache_calculate` stores in a cache. */
  datatype Calc = Calc(limit: nat, batchcount: nat, num: nat, colorLimit: nat, offSlab: bool)

  predicate MustBeOnSlab(unitSize: nat, pageSize: nat)
    requires unitSize > 0
  {
    unitSize > RoundUp(SLAB_STRUCT) &&
    pageSize - pageSize / unitSize * unitSize >= RoundUp(SLAB_STRUCT + PTR)
  }

  function MagazineLimit(unitSize: nat): nat
  {
    if unitSize >= 1024 then 32
    else if unitSize >= 256 then 48
    else if unitSize >= 128 then 64
    else if unitSize >= 64 then 96
    else 128
  }

  /** The magazine limit falls from 128 to 32 as units grow, in four steps. */
  lemma MagazineSteps(small: nat, large: nat)
    requires small <= large
    ensures 32 <= MagazineLimit(large) <= MagazineLimit(small) <= 128
    ensures MagazineLimit(63) == 128 && MagazineLimit(64) == MagazineLimit(127) == 96
    ensures MagazineLimit(128) == MagazineLimit(255) == 64 && MagazineLimit(256) == MagazineLimit(1023) == 48
    ensures MagazineLimit(1024) == 32
  {
  }

  /** How a page is split: `n` units are as many as fit, beside a header and a word unless the header is elsewhere.
    * It is elsewhere when the unit takes an eighth of the page, except when a page of larger units leaves room for it.
    */
  predicate Carves(unitSize: nat, pageSize: nat, n: nat, offSlab: bool)
    requires unitSize > 0
  {
    && offSlab == (pageSize < 8 * unitSize + 8 && !(unitSize > 64 && pageSize % unitSize >= 72))
    && var reserved := if offSlab then 0 else 72;
    && n * unitSize + reserved <= pageSize
    && pageSize < (n + 1) * unitSize + reserved
  }

  lemma CarvesOnce(unitSize: nat, pageSize: nat, n: nat, m: nat, offSlab: bool, offSlab': bool)
    requires unitSize > 0 && Carves(unitSize, pageSize, n, offSlab) && Carves(unitSize, pageSize, m, offSlab')
    ensures n == m && offSlab == offSlab'
  {
    var space := pageSize - if offSlab then 0 else 72;
    BracketOrder(unitSize, n * unitSize, n, space, m);
    BracketOrder(unitSize, m * unitSize, m, space, n);
  }

  /** imemcache_calculate. Every subtraction is on `nat`, so well-formedness is the absence of underflow. */
  function Calculate(unitSize: nat, pageSize: nat): (c: Calc)
    requires 16 <= unitSize <= pageSize
  {
    var offSlab := unitSize >= pageSize / 8 && !MustBeOnSlab(unitSize, pageSize);
    var limit := MagazineLimit(unitSize);
    if offSlab then
      RemainderFits(unitSize, pageSize);
      var num := pageSize / unitSize;
      var color := pageSize - num * unitSize;
      Calc(limit, (limit + 1) / 2, num, if color > unitSize then unitSize else color, true)
    else
      OnSlabFits(unitSize, pageSize);
      var num := (pageSize - RoundUp(SLAB_STRUCT) - PTR) / unitSize;
      RemainderFits(unitSize, pageSize - RoundUp(SLAB_STRUCT) - PTR);
      var color := pageSize - num * unitSize - RoundUp(SLAB_STRUCT) - PTR;
      Calc(limit, (limit + 1) / 2, num, if color > unitSize then unitSize else color, false)
  }

  /** What imemcache_calculate computes, as a statement about bytes: the units, the magazine, and the colours, which
    * take what is left of the page but no more than a unit.
    */
  lemma CalculateIs(unitSize: nat, pageSize: nat)
    requires 16 <= unitSize <= pageSize
    ensures var c := Calculate(unitSize, pageSize);
            && Carves(unitSize, pageSize, c.num, c.offSlab)
            && c.limit == MagazineLimit(unitSize) && c.limit <= 2 * c.batchcount <= c.limit + 1
            && var rest := pageSize - c.num * unitSize - (if c.offSlab then 0 else 72);
            && c.colorLimit <= unitSize && c.colorLimit <= rest && (c.colorLimit == unitSize || c.colorLimit == rest)
  {
    var q := pageSize / unitSize;
    RemainderFits(unitSize, pageSize);
    assert pageSize % unitSize == pageSize - q * unitSize;
    if !Calculate(unitSize, pageSize).offSlab {
      OnSlabFits(unitSize, pageSize);
      RemainderFits(unitSize, pageSize - 72);
    }
  }

  lemma RemainderFits(unitSize: nat, space: nat)
    requires unitSize > 0
    ensures space / unitSize * unitSize <= space < (space / unitSize + 1) * unitSize
  {
  }

  lemma ScaleMonotone(a: nat, b: nat, k: nat)
    requires a <= b
    ensures a * k <= b * k
  {
    assert b * k - a * k == (b - a) * k;
  }

  /** The quotient is fixed by the bracket around the dividend. */
  lemma BracketOrder(unitSize: nat, a: nat, m: nat, b: nat, n: nat)
    requires unitSize > 0
    requires m * unitSize <= a
    requires b < (n + 1) * unitSize
    requires a <= b
    ensures m <= n
  {
    if m > n {
      ScaleMonotone(n + 1, m, unitSize);
    }
  }

  lemma OnSlabFits(unitSize: nat, pageSize: nat)
    requires 16 <= unitSize <= pageSize
    requires unitSize < pageSize / 8 || MustBeOnSlab(unitSize, pageSize)
    ensures pageSize >= SLAB_STRUCT + PTR + unitSize
  {
    if unitSize >= pageSize / 8 {
      RemainderFits(unitSize, pageSize);
      BracketOrder(unitSize, unitSize, 1, pageSize, pageSize / unitSize);
      ScaleMonotone(1, pageSize / unitSize, unitSize);
    }
  }

  /** The room left for units in a page when the colour is `color`. */
  function Room(offSlab: bool, pageSize: nat, color: nat): int
  {
    if offSlab then pageSize - color else pageSize - SLAB_STRUCT - color
  }

  predicate ColorReached(c: Calc, color: nat)
  {
    color % 8 == 0 && (color == 0 || color < c.colorLimit)
  }

  /** The units, the reserved header and the colours fit in the page together. */
  lemma ColorFits(unitSize: nat, pageSize: nat)
    requires 16 <= unitSize <= pageSize
    ensures var c := Calculate(unitSize, pageSize);
            c.num * unitSize + c.colorLimit + (if c.offSlab then 0 else SLAB_STRUCT + PTR) <= pageSize
  {
    var c := Calculate(unitSize, pageSize);
    if c.offSlab {
      RemainderFits(unitSize, pageSize);
    } else {
      OnSlabFits(unitSize, pageSize);
      RemainderFits(unitSize, pageSize - SLAB_STRUCT - PTR);
    }
  }

  /** Every page can hold at least one object, and placing the header on the page because a page of
    * units leaves room for it loses no object.
    */
  lemma AtLeastOneUnit(unitSize: nat, pageSize: nat)
    requires 16 <= unitSize <= pageSize
    ensures Calculate(unitSize, pageSize).num >= 1
    ensures MustBeOnSlab(unitSize, pageSize) ==>
              Calculate(unitSize, pageSize).num == pageSize / unitSize && !Calculate(unitSize, pageSize).offSlab
  {
    var c := Calculate(unitSize, pageSize);
    RemainderFits(unitSize, pageSize);
    if c.offSlab {
      BracketOrder(unitSize, unitSize, 1, pageSize, c.num);
    } else {
      OnSlabFits(unitSize, pageSize);
      var space := pageSize - SLAB_STRUCT - PTR;
      RemainderFits(unitSize, space);
      BracketOrder(unitSize, unitSize, 1, space, c.num);
      if MustBeOnSlab(unitSize, pageSize) {
        BracketOrder(unitSize, space, c.num, pageSize, pageSize / unitSize);
        assert pageSize / unitSize * unitSize <= space;
        BracketOrder(unitSize, pageSize / unitSize * unitSize, pageSize / unitSize, space, c.num);
      }
    }
  }

  /** Whatever colour is reached, carving the room left of a page yields exactly `num` units when the
    * slab header is kept elsewhere, and `num` or `num + 1` when it is on the page.
    */
  lemma CarvedUnits(unitSize: nat, pageSize: nat, color: nat, n: nat)
    requires 16 <= unitSize <= pageSize
    requires ColorReached(Calculate(unitSize, pageSize), color)
    requires var room := Room(Calculate(unitSize, pageSize).offSlab, pageSize, color);
             n * unitSize <= room < (n + 1) * unitSize
    ensures var c := Calculate(unitSize, pageSize);
            if c.offSlab then n == c.num else n == c.num || n == c.num + 1
  {
    var c := Calculate(unitSize, pageSize);
    var room := Room(c.offSlab, pageSize, color);
    if c.offSlab {
      RemainderFits(unitSize, pageSize);
      assert c.num * unitSize <= room;
      BracketOrder(unitSize, c.num * unitSize, c.num, room, n);
      BracketOrder(unitSize, n * unitSize, n, pageSize, c.num);
    } else {
      OnSlabFits(unitSize, pageSize);
      var space := pageSize - SLAB_STRUCT - PTR;
      RemainderFits(unitSize, space);
      assert c.num * unitSize <= room;
      BracketOrder(unitSize, c.num * unitSize, c.num, room, n);
      assert (c.num + 2) * unitSize == (c.num + 1) * unitSize + unitSize;
      BracketOrder(unitSize, n * unitSize, n, space + unitSize, c.num + 1);
    }
  }

  /** The colour always leaves room for one unit at least. */
  lemma RoomForOne(unitSize: nat, pageSize: nat, color: nat)
    requires 16 <= unitSize <= pageSize
    requires ColorReached(Calculate(unitSize, pageSize), color)
    ensures Room(Calculate(unitSize, pageSize).offSlab, pageSize, color) >= unitSize
  {
    var c := Calculate(unitSize, pageSize);
    AtLeastOneUnit(unitSize, pageSize);
    ColorFits(unitSize, pageSize);
    ScaleMonotone(1, c.num, unitSize);
  }

  function Pow2(k: nat): (p: nat)
    ensures p > 0
  {
    if k == 0 then 1 else 2 * Pow2(k - 1)
  }

  lemma {:induction false} PowersOrdered(j: nat, k: nat)
    requires j < k
    ensures 2 * Pow2(j) <= Pow2(k)
  {
    if j + 1 < k { PowersOrdered(j, k - 1); }
  }
}
