/** The slab queues of all caches as rings in memory: what the queue macros do to the links, next to what the list layer
  * does to the sequences that stand for the queues. A slab is linked by its own address, a queue by the address of its
  * head in the cache record.
  */
module Rings {
  import opened KmemState
  import opened Counters
  import opened ListOps
  import opened Environment
  import Q = Queue

  /** Where the heads of the three queues of each cache are. */
  type Heads = (nat, Class) -> nat

  /** No head is a slab, and no two heads are the same. */
  ghost predicate HeadsOutside(heads: Heads, st: State) {
    && (forall c: nat, k :: heads(c, k) !in st.slabs)
    && (forall c: nat, k, d: nat, j :: (c, k) != (d, j) ==> heads(c, k) != heads(d, j))
  }

  ghost predicate RingsOk(next: map<nat, nat>, prev: map<nat, nat>, heads: Heads, cs: seq<Cache>) {
    forall c: nat, k :: c < |cs| ==> Q.Ring(next, prev, heads(c, k), Queue(cs[c], k))
  }

  /** The nodes of a ring: its head and its slabs. */
  function Nodes(heads: Heads, cs: seq<Cache>, c: nat, k: Class): seq<nat>
    requires c < |cs|
  {
    [heads(c, k)] + Queue(cs[c], k)
  }

  /** Different rings have no node in common. */
  ghost predicate Disjoint(heads: Heads, cs: seq<Cache>) {
    forall c: nat, k, d: nat, j, a :: c < |cs| && d < |cs| && (c, k) != (d, j) && a in Nodes(heads, cs, c, k) ==>
      a !in Nodes(heads, cs, d, j)
  }

  lemma RingNode(heads: Heads, st: State, c: nat, k: Class, a: nat)
    requires c < |st.caches| && a in Nodes(heads, st.caches, c, k) && QueuesOk(st.caches, st.slabs, 0)
    ensures a == heads(c, k) || (a in st.slabs && st.slabs[a].extra == c && Place(st.slabs, 0, a) == k)
  {
    hide QueuesOk, NoDup;
    QueueFacts(st.caches, st.slabs, 0, c);
  }

  lemma RingsDisjoint(heads: Heads, st: State)
    requires HeadsOutside(heads, st) && Inv(st, 0)
    ensures Disjoint(heads, st.caches)
  {
    hide Inv, QueuesOk, Nodes, Place;
    Ready(st);
    forall c: nat, k, d: nat, j, a | c < |st.caches| && d < |st.caches| && (c, k) != (d, j)
           && a in Nodes(heads, st.caches, c, k)
      ensures a !in Nodes(heads, st.caches, d, j)
    {
      RingNode(heads, st, c, k, a);
      if a in Nodes(heads, st.caches, d, j) { RingNode(heads, st, d, j, a); }
    }
  }

  /** Each slab is on exactly one ring: that of its cache and its state. */
  lemma OneRing(heads: Heads, st: State, s: nat, c: nat, k: Class)
    requires HeadsOutside(heads, st) && s in st.slabs && c < |st.caches| && Inv(st, 0)
    ensures s in Nodes(heads, st.caches, c, k) <==> c == st.slabs[s].extra && k == ClassOf(st.slabs[s])
  {
    hide Inv, QueuesOk, SlabsOk;
    Ready(st);
    NoNull(st);
    QueuedWhere(st.caches, st.slabs, 0, s);
    if s in Nodes(heads, st.caches, c, k) { RingNode(heads, st, c, k, s); }
  }

  lemma NoNull(st: State)
    requires SlabsOk(st)
    ensures 0 !in st.slabs
  {
  }

  /** One queue changed, and it is now `q`. */
  ghost predicate OneQueue(cs: seq<Cache>, cs': seq<Cache>, c: nat, k: Class, q: seq<nat>) {
    && |cs'| == |cs| && c < |cs| && Queue(cs'[c], k) == q
    && forall d: nat, j :: d < |cs| && (d, j) != (c, k) ==> Queue(cs'[d], j) == Queue(cs[d], j)
  }

  /** A write to the nodes of one ring leaves the others alone. */
  lemma OthersStay(next: map<nat, nat>, prev: map<nat, nat>, next': map<nat, nat>, prev': map<nat, nat>,
                   heads: Heads, cs: seq<Cache>, cs': seq<Cache>, c: nat, k: Class, q: seq<nat>, nodes: seq<nat>)
    requires RingsOk(next, prev, heads, cs) && OneQueue(cs, cs', c, k, q) && Q.Ring(next', prev', heads(c, k), q)
    requires forall a :: a !in nodes ==>
               (a in next ==> a in next' && next'[a] == next[a]) && (a in prev ==> a in prev' && prev'[a] == prev[a])
    requires forall d: nat, j, a :: d < |cs| && (d, j) != (c, k) && a in Nodes(heads, cs, d, j) ==> a !in nodes
    ensures RingsOk(next', prev', heads, cs')
  {
    hide Q.Ring;
    forall d: nat, j | d < |cs'| && (d, j) != (c, k) ensures Q.Ring(next', prev', heads(d, j), Queue(cs'[d], j)) {
      assert forall a :: a in Nodes(heads, cs, d, j) ==> a !in nodes;
      Q.RingApart(next, prev, next', prev', heads(d, j), Queue(cs[d], j));
    }
  }

  /** iqueue_del of a slab from its queue. */
  method Unhook(l: Q.Links, heads: Heads, ghost cs: seq<Cache>, ghost cs': seq<Cache>, ghost c: nat, ghost k: Class,
                s: nat)
    requires RingsOk(l.next, l.prev, heads, cs) && Disjoint(heads, cs) && c < |cs| && s in Queue(cs[c], k)
    requires OneQueue(cs, cs', c, k, Remove(Queue(cs[c], k), s))
    modifies l
    ensures RingsOk(l.next, l.prev, heads, cs') && Disjoint(heads, cs')
    ensures forall d: nat, j :: d < |cs'| ==> s !in Nodes(heads, cs', d, j)
  {
    hide Q.Ring;
    ghost var next, prev, q := l.next, l.prev, Queue(cs[c], k);
    RingDistinct(next, prev, heads(c, k), q);
    l.Del(s, heads(c, k), q);
    ghost var nodes := [heads(c, k)] + q;
    Unhooked(next, prev, l.next, l.prev, heads, cs, cs', c, k, s, nodes);
  }

  lemma Unhooked(next: map<nat, nat>, prev: map<nat, nat>, next': map<nat, nat>, prev': map<nat, nat>,
                 heads: Heads, cs: seq<Cache>, cs': seq<Cache>, c: nat, k: Class, s: nat, nodes: seq<nat>)
    requires RingsOk(next, prev, heads, cs) && Disjoint(heads, cs) && c < |cs| && nodes == Nodes(heads, cs, c, k)
    requires s in Queue(cs[c], k) && NoDup(Queue(cs[c], k)) && heads(c, k) !in Queue(cs[c], k)
    requires OneQueue(cs, cs', c, k, Remove(Queue(cs[c], k), s))
    requires Q.Ring(next', prev', heads(c, k), Remove(Queue(cs[c], k), s))
    requires forall a :: a !in nodes ==>
               (a in next <==> a in next') && (a in next' ==> next'[a] == next[a])
               && (a in prev <==> a in prev') && (a in prev' ==> prev'[a] == prev[a])
    ensures RingsOk(next', prev', heads, cs') && Disjoint(heads, cs')
    ensures forall d: nat, j :: d < |cs'| ==> s !in Nodes(heads, cs', d, j)
  {
    hide Q.Ring, RingsOk, NoDup;
    var q := Queue(cs[c], k);
    RemoveMembers(q, s);
    OthersStay(next, prev, next', prev', heads, cs, cs', c, k, Remove(q, s), nodes);
    StillDisjoint(heads, cs, cs', c, k, Remove(q, s), nodes);
    forall d: nat, j | d < |cs'| ensures s !in Nodes(heads, cs', d, j) {
      assert s in nodes;
      if (d, j) != (c, k) { assert Nodes(heads, cs', d, j) == Nodes(heads, cs, d, j); }
    }
  }

  lemma RingDistinct(next: map<nat, nat>, prev: map<nat, nat>, head: nat, q: seq<nat>)
    requires Q.Ring(next, prev, head, q)
    ensures NoDup(q) && head !in q
  {
    Q.TailNoDup(head, q);
    forall i | 0 <= i < |q| ensures q[i] != head {
      assert ([head] + q)[0] == head && ([head] + q)[i + 1] == q[i];
    }
  }

  lemma StillDisjoint(heads: Heads, cs: seq<Cache>, cs': seq<Cache>, c: nat, k: Class, q: seq<nat>, nodes: seq<nat>)
    requires Disjoint(heads, cs) && OneQueue(cs, cs', c, k, q)
    requires forall a :: a in [heads(c, k)] + q ==> a in nodes
    requires forall d: nat, j, a :: d < |cs| && (d, j) != (c, k) && a in Nodes(heads, cs, d, j) ==> a !in nodes
    ensures Disjoint(heads, cs')
  {
    hide Queue;
    assert Nodes(heads, cs', c, k) == [heads(c, k)] + q;
    forall d: nat, j | d < |cs'| && (d, j) != (c, k) ensures Nodes(heads, cs', d, j) == Nodes(heads, cs, d, j) {
    }
  }

  /** iqueue_init and iqueue_add or iqueue_add_tail of a slab that is on no queue. */
  method Hook(l: Q.Links, heads: Heads, ghost cs: seq<Cache>, ghost cs': seq<Cache>, c: nat, k: Class, s: nat,
              tail: bool)
    requires RingsOk(l.next, l.prev, heads, cs) && Disjoint(heads, cs) && c < |cs|
    requires forall d: nat, j :: d < |cs| ==> s !in Nodes(heads, cs, d, j)
    requires OneQueue(cs, cs', c, k, if tail then Queue(cs[c], k) + [s] else [s] + Queue(cs[c], k))
    modifies l
    ensures RingsOk(l.next, l.prev, heads, cs') && Disjoint(heads, cs')
  {
    hide Q.Ring;
    ghost var next, prev, q := l.next, l.prev, Queue(cs[c], k);
    assert s !in Nodes(heads, cs, c, k);
    l.Init(s);
    Q.RingApart(next, prev, l.next, l.prev, heads(c, k), q);
    ghost var q' := if tail then q + [s] else [s] + q;
    ghost var nodes := [s, heads(c, k)] + q;
    if tail {
      l.AddTail(s, heads(c, k), q);
    } else {
      l.Add(s, heads(c, k), q);
    }
    forall a | a !in nodes
      ensures (a in next ==> a in l.next && l.next[a] == next[a]) && (a in prev ==> a in l.prev && l.prev[a] == prev[a])
    {
      assert a !in [s];
    }
    forall d: nat, j, a | d < |cs| && (d, j) != (c, k) && a in Nodes(heads, cs, d, j) ensures a !in nodes {
      assert a !in Nodes(heads, cs, c, k);
    }
    OthersStay(next, prev, l.next, l.prev, heads, cs, cs', c, k, q', nodes);
    StillDisjoint(heads, cs, cs', c, k, q', nodes);
  }

  // ---------- the moves of the list layer ----------

  function WithQueue(cache: Cache, k: Class, q: seq<nat>): Cache {
    match k
    case IsPartial => cache.(partial := q)
    case IsFull => cache.(full := q)
    case IsIdle => cache.(idle := q)
  }

  /** Slab `s` went from one queue of cache `c` to an end of another. */
  ghost predicate OneMove(cs: seq<Cache>, cs': seq<Cache>, c: nat, from: Class, to: Class, s: nat, tail: bool) {
    && |cs'| == |cs| && c < |cs| && from != to
    && Queue(cs'[c], from) == Remove(Queue(cs[c], from), s)
    && Queue(cs'[c], to) == (if tail then Queue(cs[c], to) + [s] else [s] + Queue(cs[c], to))
    && (forall j :: j != from && j != to ==> Queue(cs'[c], j) == Queue(cs[c], j))
    && (forall d: nat :: d < |cs| && d != c ==> cs'[d] == cs[d])
  }

  /** iqueue_del, iqueue_init, and iqueue_add or iqueue_add_tail: the rings follow the queues. */
  method Move(l: Q.Links, heads: Heads, ghost cs: seq<Cache>, ghost cs': seq<Cache>,
              c: nat, ghost from: Class, to: Class, s: nat, tail: bool)
    requires RingsOk(l.next, l.prev, heads, cs) && Disjoint(heads, cs) && c < |cs| && s in Queue(cs[c], from)
    requires OneMove(cs, cs', c, from, to, s, tail)
    modifies l
    ensures RingsOk(l.next, l.prev, heads, cs') && Disjoint(heads, cs')
  {
    hide RingsOk, Disjoint, Nodes;
    ghost var mid := cs[c := WithQueue(cs[c], from, Remove(Queue(cs[c], from), s))];
    Unhook(l, heads, cs, mid, c, from, s);
    Hook(l, heads, mid, cs', c, to, s, tail);
  }

  /** imemcache_list_alloc: an idle slab is taken into use, and a slab that became full leaves the partial queue.
    * imemcache_list_free: a full slab has room again, and an empty one becomes idle.
    */
  lemma Moves(cs: seq<Cache>, c: nat, s: nat)
    requires c < |cs|
    ensures OneMove(cs, cs[c := IdleToPartial(cs[c], s)], c, IsIdle, IsPartial, s, false)
    ensures OneMove(cs, cs[c := PartialToFull(Popped(cs[c]), s)], c, IsPartial, IsFull, s, false)
    ensures OneMove(cs, cs[c := FullToPartial(cs[c], s)], c, IsFull, IsPartial, s, true)
    ensures OneMove(cs, cs[c := PartialToIdle(cs[c].(freeObjects := cs[c].freeObjects + 1), s)], c, IsPartial, IsIdle,
            s, false)
  {
  }

  lemma SameRings(next: map<nat, nat>, prev: map<nat, nat>, heads: Heads, cs: seq<Cache>, cs': seq<Cache>)
    requires |cs'| == |cs| && forall d: nat, j :: d < |cs| ==> Queue(cs'[d], j) == Queue(cs[d], j)
    requires RingsOk(next, prev, heads, cs) && Disjoint(heads, cs)
    ensures RingsOk(next, prev, heads, cs') && Disjoint(heads, cs')
  {
    hide Queue;
    assert forall d: nat, j :: d < |cs| ==> Nodes(heads, cs', d, j) == Nodes(heads, cs, d, j);
  }

  /** The links rewritten when imemcache_list_alloc has taken a unit of the slab `s`. */
  method AllocLinks(l: Q.Links, heads: Heads, ghost st: State, c: nat, s: nat, full: bool)
    requires s in st.slabs && s in st.free && st.free[s] != [] && c < |st.caches| && s in st.caches[c].partial
    requires full == (AllocFrom(st, c, s).slabs[s].bufctl == 0)
    requires RingsOk(l.next, l.prev, heads, st.caches) && Disjoint(heads, st.caches)
    modifies l
    ensures RingsOk(l.next, l.prev, heads, AllocFrom(st, c, s).caches) && Disjoint(heads, AllocFrom(st, c, s).caches)
  {
    hide RingsOk, Disjoint, AllocFrom, OneMove;
    AllocForms(st, c, s);
    if full {
      Move(l, heads, st.caches, AllocFrom(st, c, s).caches, c, IsPartial, IsFull, s, false);
    } else {
      SameRings(l.next, l.prev, heads, st.caches, AllocFrom(st, c, s).caches);
    }
  }

  lemma AllocForms(st: State, c: nat, s: nat)
    requires s in st.slabs && s in st.free && st.free[s] != [] && c < |st.caches|
    ensures var cs, st' := st.caches, AllocFrom(st, c, s);
            && s in st'.slabs
            && if st'.slabs[s].bufctl == 0 then OneMove(cs, st'.caches, c, IsPartial, IsFull, s, false)
               else |st'.caches| == |cs| && forall d: nat, j :: d < |cs| ==> Queue(st'.caches[d], j) == Queue(cs[d], j)
  {
    Moves(st.caches, c, s);
  }

  /** The links rewritten when imemcache_list_free finds the slab full. */
  method ReopenLinks(l: Q.Links, heads: Heads, ghost st: State, c: nat, s: nat, full: bool)
    requires s in st.slabs && c < |st.caches| && full == (st.slabs[s].bufctl == 0)
    requires s in (if full then st.caches[c].full else st.caches[c].partial)
    requires RingsOk(l.next, l.prev, heads, st.caches) && Disjoint(heads, st.caches)
    modifies l
    ensures var cs := Reopened(st, c, s).caches;
            |cs| == |st.caches| && RingsOk(l.next, l.prev, heads, cs) && Disjoint(heads, cs) && s in cs[c].partial
  {
    hide RingsOk, Disjoint, OneMove;
    if full {
      Moves(st.caches, c, s);
      Move(l, heads, st.caches, Reopened(st, c, s).caches, c, IsFull, IsPartial, s, true);
    }
  }

  /** All links rewritten when imemcache_list_free has put a unit back on the slab `s`. */
  method FreeLinks(l: Q.Links, heads: Heads, ghost st: State, c: nat, s: nat, ghost u: nat, full: bool, empty: bool)
    requires s in st.slabs && s in st.free && st.slabs[s].inuse > 0 && c < |st.caches|
    requires full == (st.slabs[s].bufctl == 0) && empty == (st.slabs[s].inuse == 1)
    requires s in (if full then st.caches[c].full else st.caches[c].partial)
    requires RingsOk(l.next, l.prev, heads, st.caches) && Disjoint(heads, st.caches)
    modifies l
    ensures RingsOk(l.next, l.prev, heads, FreeInto(st, c, s, u).caches)
            && Disjoint(heads, FreeInto(st, c, s, u).caches)
  {
    hide RingsOk, Disjoint, Reopened, FreeInto, OneMove;
    ReopenLinks(l, heads, st, c, s, full);
    ghost var cs := Reopened(st, c, s).caches;
    FreeForms(st, c, s, u);
    if empty {
      Move(l, heads, cs, FreeInto(st, c, s, u).caches, c, IsPartial, IsIdle, s, false);
    } else {
      SameRings(l.next, l.prev, heads, cs, FreeInto(st, c, s, u).caches);
    }
  }

  lemma FreeForms(st: State, c: nat, s: nat, u: nat)
    requires s in st.slabs && s in st.free && st.slabs[s].inuse > 0 && c < |st.caches|
    ensures var cs, cs' := Reopened(st, c, s).caches, FreeInto(st, c, s, u).caches;
            if st.slabs[s].inuse == 1 then OneMove(cs, cs', c, IsPartial, IsIdle, s, false)
            else |cs'| == |cs| && forall d: nat, j :: d < |cs| ==> Queue(cs'[d], j) == Queue(cs[d], j)
  {
    Moves(Reopened(st, c, s).caches, c, s);
  }
}
