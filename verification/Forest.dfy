/** Slab pages form a forest: because a cache may take its pages from another cache, a page lies inside
  * a unit of an ancestor or is disjoint from it. Everything the allocator promises about overlap follows.
  */
module Forest {
  import opened Layout
  import opened KmemState

  predicate Supplied(st: State, s: nat)
    requires s in st.slabs && st.slabs[s].extra < |st.geo|
  {
    st.geo[st.slabs[s].extra].gfp.Some?
  }

  /** The unit of the supplier that carries the page of `s`. */
  ghost function Carrier(st: State, s: nat): nat
    requires Shape(st) && s in st.slabs && Supplied(st, s)
  {
    assert PageOk(st, s);
    st.slabs[s].membase - PTR
  }

  /** The slab one of whose units is the page of `s`. */
  ghost function Parent(st: State, s: nat): (t: nat)
    requires Shape(st) && s in st.slabs && Supplied(st, s)
    ensures t in st.slabs && st.slabs[t].extra < st.slabs[s].extra
  {
    assert PageOk(st, s);
    assert LinkOk(st.pg, st.geo, st.slabs[s].extra);
    st.home[Carrier(st, s)]
  }

  /** `t` is an ancestor of `s` in the supplier forest. */
  ghost predicate Under(st: State, s: nat, t: nat)
    requires Shape(st) && s in st.slabs
    decreases st.slabs[s].extra
  {
    Supplied(st, s) && (Parent(st, s) == t || Under(st, Parent(st, s), t))
  }

  predicate PagesApart(st: State, s: nat, t: nat)
    requires s in st.slabs && t in st.slabs
  {
    Apart(st.slabs[s].membase, st.slabs[s].memsize, st.slabs[t].membase, st.slabs[t].memsize)
  }

  /** The page of `s` lies in the object (past the header word) of unit `v` of slab `t`. */
  predicate PageWithin(st: State, s: nat, t: nat, v: nat)
    requires s in st.slabs && t in st.slabs && st.slabs[t].extra < |st.geo|
  {
    && v + PTR <= st.slabs[s].membase
    && st.slabs[s].membase + st.slabs[s].memsize <= v + UnitOf(st.geo, st.slabs[t])
  }

  lemma CarrierHolds(st: State, s: nat)
    requires Shape(st) && s in st.slabs && Supplied(st, s)
    ensures var v := Carrier(st, s);
            && v in st.home && st.home[v] == Parent(st, s)
            && v in st.owner && st.owner[v] == Page(s)
            && PageWithin(st, s, Parent(st, s), v)
  {
    assert PageOk(st, s);
    assert SlabOk(st.geo, s, st.slabs[s]);
    assert LinkOk(st.pg, st.geo, st.slabs[s].extra);
    assert LinkOk(st.pg, st.geo, st.slabs[Parent(st, s)].extra);
  }

  /** Under an ancestor `t`, the page of `s` lies in one unit of `t`, and that unit is held as the page
    * of `s` or of an ancestor of `s`.
    */
  lemma {:induction false} UnderWithin(st: State, s: nat, t: nat) returns (v: nat, a: nat)
    requires Shape(st) && s in st.slabs && Under(st, s, t)
    ensures t in st.slabs && a in st.slabs
    ensures v in st.home && st.home[v] == t
    ensures v in st.owner && st.owner[v] == Page(a)
    ensures a == s || Under(st, s, a)
    ensures PageWithin(st, s, t, v)
    decreases st.slabs[s].extra
  {
    CarrierHolds(st, s);
    var p := Parent(st, s);
    if p == t {
      v, a := Carrier(st, s), s;
    } else {
      v, a := UnderWithin(st, p, t);
      PageInside(st, s);
    }
  }

  /** A page lies inside the page of its parent slab. */
  lemma PageInside(st: State, s: nat)
    requires Shape(st) && s in st.slabs && Supplied(st, s)
    ensures var sl, pl := st.slabs[s], st.slabs[Parent(st, s)];
            pl.membase <= sl.membase && sl.membase + sl.memsize <= pl.membase + pl.memsize
  {
    CarrierHolds(st, s);
    assert UnitIn(st.geo, st.slabs[Parent(st, s)], Carrier(st, s));
  }

  /** The pages of two slabs are disjoint, or one slab is an ancestor of the other. */
  lemma {:induction false} PagesLaminar(st: State, s: nat, t: nat)
    requires Shape(st) && s in st.slabs && t in st.slabs && s != t
    ensures PagesApart(st, s, t) || Under(st, s, t) || Under(st, t, s)
    decreases st.slabs[s].extra + st.slabs[t].extra
  {
    if Supplied(st, s) {
      ClimbFrom(st, s, t);
    } else if Supplied(st, t) {
      ClimbFrom(st, t, s);
    } else {
      assert PageOk(st, s) && PageOk(st, t);
      assert LinkOk(st.pg, st.geo, st.slabs[s].extra) && LinkOk(st.pg, st.geo, st.slabs[t].extra);
    }
  }

  lemma {:induction false} ClimbFrom(st: State, s: nat, t: nat)
    requires Shape(st) && s in st.slabs && t in st.slabs && s != t && Supplied(st, s)
    ensures PagesApart(st, s, t) || Under(st, s, t) || Under(st, t, s)
    decreases st.slabs[s].extra + st.slabs[t].extra, 0
  {
    var p := Parent(st, s);
    if p != t {
      PagesLaminar(st, p, t);
      PageInside(st, s);
      if Under(st, t, p) {
        var v, a := UnderWithin(st, t, p);
        CarrierHolds(st, s);
        if v != Carrier(st, s) { OtherUnitApart(st, s, t, v); }
      }
    }
  }

  /** A page in another unit of the parent of `s` is disjoint from the page of `s`. */
  lemma OtherUnitApart(st: State, s: nat, t: nat, v: nat)
    requires Shape(st) && s in st.slabs && t in st.slabs && Supplied(st, s)
    requires v in st.home && st.home[v] == Parent(st, s) && v != Carrier(st, s)
    requires PageWithin(st, t, Parent(st, s), v)
    ensures PagesApart(st, s, t)
  {
    CarrierHolds(st, s);
    SpacedUnits(st, v, Carrier(st, s));
  }

  lemma SpacedUnits(st: State, u: nat, v: nat)
    requires Shape(st) && u in st.home && v in st.home && st.home[u] == st.home[v] && u != v
    ensures Apart(u, UnitOf(st.geo, st.slabs[st.home[u]]), v, UnitOf(st.geo, st.slabs[st.home[v]]))
  {
  }

  /** Every page lies inside a default page that some slab is carved from. */
  lemma {:induction false} RootPage(st: State, s: nat) returns (top: nat)
    requires Shape(st) && s in st.slabs
    ensures top in st.slabs && !Supplied(st, top) && st.slabs[top].membase in st.pages
    ensures st.slabs[top].membase <= st.slabs[s].membase
    ensures st.slabs[s].membase + st.slabs[s].memsize <= st.slabs[top].membase + st.pg
    decreases st.slabs[s].extra
  {
    if Supplied(st, s) {
      PageInside(st, s);
      top := RootPage(st, Parent(st, s));
    } else {
      assert PageOk(st, s);
      assert LinkOk(st.pg, st.geo, st.slabs[s].extra);
      top := s;
    }
  }

  function UnitAt(st: State, u: nat): nat
    requires u in st.home && st.home[u] in st.slabs && st.slabs[st.home[u]].extra < |st.geo|
  {
    UnitOf(st.geo, st.slabs[st.home[u]])
  }

  /** Two units are disjoint, or one carries (directly or through further suppliers) the other. */
  lemma UnitsLaminar(st: State, u: nat, w: nat)
    requires Shape(st) && u in st.home && w in st.home && u != w
    ensures || Apart(u, UnitAt(st, u), w, UnitAt(st, w))
            || (u + PTR <= w && w + UnitAt(st, w) <= u + UnitAt(st, u) && u in st.owner && st.owner[u].Page?)
            || (w + PTR <= u && u + UnitAt(st, u) <= w + UnitAt(st, w) && w in st.owner && st.owner[w].Page?)
  {
    var s, t := st.home[u], st.home[w];
    if s == t {
      SpacedUnits(st, u, w);
    } else {
      PagesLaminar(st, s, t);
      assert UnitIn(st.geo, st.slabs[s], u) && UnitIn(st.geo, st.slabs[t], w);
      if Under(st, s, t) {
        var v, a := UnderWithin(st, s, t);
        if v != w { SpacedUnits(st, v, w); }
      } else if Under(st, t, s) {
        var v, a := UnderWithin(st, t, s);
        if v != u { SpacedUnits(st, v, u); }
      }
    }
  }

  /** No header word and no unit of another slab lies inside a unit that is not itself carved. */
  lemma NothingInside(st: State, u: nat, w: nat)
    requires Shape(st) && u in st.home && w in st.home && u != w
    requires !(u in st.owner && st.owner[u].Page?)
    ensures w + PTR <= u || u + UnitAt(st, u) <= w
  {
    UnitsLaminar(st, u, w);
    assert UnitIn(st.geo, st.slabs[st.home[u]], u);
    assert LinkOk(st.pg, st.geo, st.slabs[st.home[w]].extra);
    assert LinkOk(st.pg, st.geo, st.slabs[st.home[u]].extra);
  }

  // ---------- slab headers ----------

  predicate OffSlab(st: State, s: nat)
    requires s in st.slabs && st.slabs[s].extra < |st.geo|
  {
    st.geo[st.slabs[s].extra].offSlab
  }

  lemma NodeOutsidePages(st: State, n: nat, s: nat)
    requires Shape(st) && BlocksOk(st) && n in st.nodes && s in st.slabs
    ensures Apart(n, SLAB_STRUCT, st.slabs[s].membase, st.slabs[s].memsize)
  {
    var top := RootPage(st, s);
  }

  /** A slab header lies outside every unit that is not itself carved into a page holding it. */
  lemma HeaderOutsideUnit(st: State, s: nat, u: nat)
    requires Shape(st) && BlocksOk(st) && NodesOk(st)
    requires s in st.slabs && u in st.home && !(u in st.owner && st.owner[u].Page?)
    ensures Apart(s, SLAB_STRUCT, u, UnitAt(st, u))
  {
    var h := st.home[u];
    assert UnitIn(st.geo, st.slabs[h], u);
    if OffSlab(st, s) {
      NodeOutsidePages(st, s, h);
    } else if s != h {
      assert SlabOk(st.geo, s, st.slabs[s]);
      PagesLaminar(st, s, h);
      if Under(st, s, h) {
        var v, a := UnderWithin(st, s, h);
        SpacedUnits(st, v, u);
      } else if Under(st, h, s) {
        var v, a := UnderWithin(st, h, s);
        assert UnitIn(st.geo, st.slabs[s], v);
      }
    }
  }

  /** Slab headers do not overlap each other. */
  lemma HeadersApart(st: State, s: nat, t: nat)
    requires Shape(st) && BlocksOk(st) && NodesOk(st)
    requires s in st.slabs && t in st.slabs && s != t
    ensures Apart(s, SLAB_STRUCT, t, SLAB_STRUCT)
  {
    if OffSlab(st, s) {
      if !OffSlab(st, t) { NodeOutsidePages(st, s, t); }
    } else if OffSlab(st, t) {
      NodeOutsidePages(st, t, s);
    } else {
      PagesLaminar(st, s, t);
      if Under(st, s, t) {
        var v, a := UnderWithin(st, s, t);
        assert UnitIn(st.geo, st.slabs[t], v);
      } else if Under(st, t, s) {
        var v, a := UnderWithin(st, t, s);
        assert UnitIn(st.geo, st.slabs[s], v);
      }
    }
  }
}
