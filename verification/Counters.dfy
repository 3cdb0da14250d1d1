/** The counters of a cache stay equal to what its queues and free lists hold. */
module Counters {
  import opened KmemState

  lemma {:induction false} SumAgree(f: map<nat, seq<nat>>, f': map<nat, seq<nat>>, q: seq<nat>)
    requires forall s :: s in q ==> s in f && s in f' && |f'[s]| == |f[s]|
    ensures FreeSum(f', q) == FreeSum(f, q)
  {
    if q != [] { SumAgree(f, f', q[1..]); }
  }

  lemma {:induction false} SumConcat(f: map<nat, seq<nat>>, p: seq<nat>, q: seq<nat>)
    requires forall s :: s in p || s in q ==> s in f
    ensures forall s :: s in p + q ==> s in f
    ensures FreeSum(f, p + q) == FreeSum(f, p) + FreeSum(f, q)
  {
    if p == [] {
      assert p + q == q;
    } else {
      SumConcat(f, p[1..], q);
      assert (p + q)[1..] == p[1..] + q;
    }
  }

  lemma {:induction false} SumRemove(f: map<nat, seq<nat>>, q: seq<nat>, s: nat)
    requires NoDup(q) && s in q && forall t :: t in q ==> t in f
    ensures forall t :: t in Remove(q, s) ==> t in f
    ensures FreeSum(f, q) == |f[s]| + FreeSum(f, Remove(q, s))
  {
    RemoveMembers(q, s);
    if q[0] != s {
      SumRemove(f, q[1..], s);
      assert Remove(q, s)[1..] == Remove(q[1..], s);
    }
  }

  /** Replacing one free list changes the sum by the difference of lengths. */
  lemma SumUpdate(f: map<nat, seq<nat>>, q: seq<nat>, s: nat, v: seq<nat>)
    requires NoDup(q) && s in q && forall t :: t in q ==> t in f
    ensures FreeSum(f[s := v], q) == FreeSum(f, q) - |f[s]| + |v|
  {
    SumRemove(f, q, s);
    SumRemove(f[s := v], q, s);
    RemoveMembers(q, s);
    SumAgree(f, f[s := v], Remove(q, s));
  }

  ghost predicate Counted(cache: Cache, free: map<nat, seq<nat>>) {
    CountsOk(cache, free) && NoDup(cache.partial) && NoDup(cache.full) && NoDup(cache.idle)
  }

  /** A cache whose slabs keep their free lists keeps its counts. */
  lemma CountsAgree(cache: Cache, free: map<nat, seq<nat>>, free': map<nat, seq<nat>>)
    requires CountsOk(cache, free)
    requires forall s :: s in cache.partial || s in cache.idle ==> s in free' && free'[s] == free[s]
    ensures CountsOk(cache, free')
  {
    SumAgree(free, free', cache.partial);
    SumAgree(free, free', cache.idle);
  }

  function Popped(cache: Cache): Cache {
    cache.(freeObjects := if cache.freeObjects != 0 then cache.freeObjects - 1 else 0)
  }

  lemma CountsPopped(cache: Cache, free: map<nat, seq<nat>>, s: nat)
    requires Counted(cache, free) && s in cache.partial && s !in cache.idle && free[s] != []
    ensures CountsOk(Popped(cache), free[s := free[s][1..]])
  {
    SumUpdate(free, cache.partial, s, free[s][1..]);
    SumAgree(free, free[s := free[s][1..]], cache.idle);
  }

  function PartialToFull(cache: Cache, s: nat): Cache {
    cache.(partial := Remove(cache.partial, s), full := [s] + cache.full,
           countPartial := cache.countPartial - 1, countFull := cache.countFull + 1)
  }

  lemma CountsPartialToFull(cache: Cache, free: map<nat, seq<nat>>, s: nat)
    requires Counted(cache, free) && s in cache.partial && free[s] == []
    ensures CountsOk(PartialToFull(cache, s), free)
  {
    RemoveMembers(cache.partial, s);
    SumRemove(free, cache.partial, s);
  }

  function FullToPartial(cache: Cache, s: nat): Cache {
    cache.(full := Remove(cache.full, s), partial := cache.partial + [s],
           countPartial := cache.countPartial + 1, countFull := cache.countFull - 1)
  }

  lemma CountsFullToPartial(cache: Cache, free: map<nat, seq<nat>>, s: nat)
    requires Counted(cache, free) && s in cache.full && s in free && free[s] == []
    ensures CountsOk(FullToPartial(cache, s), free)
  {
    RemoveMembers(cache.full, s);
    SumConcat(free, cache.partial, [s]);
    assert FreeSum(free, [s]) == 0;
  }

  function IdleToPartial(cache: Cache, s: nat): Cache {
    cache.(idle := Remove(cache.idle, s), partial := [s] + cache.partial,
           countPartial := cache.countPartial + 1, countFree := cache.countFree - 1)
  }

  lemma CountsIdleToPartial(cache: Cache, free: map<nat, seq<nat>>, s: nat)
    requires Counted(cache, free) && s in cache.idle
    ensures CountsOk(IdleToPartial(cache, s), free)
  {
    RemoveMembers(cache.idle, s);
    SumRemove(free, cache.idle, s);
    assert ([s] + cache.partial)[1..] == cache.partial;
  }

  function PartialToIdle(cache: Cache, s: nat): Cache {
    cache.(partial := Remove(cache.partial, s), idle := [s] + cache.idle,
           countPartial := cache.countPartial - 1, countFree := cache.countFree + 1)
  }

  lemma CountsPartialToIdle(cache: Cache, free: map<nat, seq<nat>>, s: nat)
    requires Counted(cache, free) && s in cache.partial
    ensures CountsOk(PartialToIdle(cache, s), free)
  {
    RemoveMembers(cache.partial, s);
    SumRemove(free, cache.partial, s);
    assert ([s] + cache.idle)[1..] == cache.idle;
  }

  lemma CountsPushed(cache: Cache, free: map<nat, seq<nat>>, s: nat, u: nat)
    requires Counted(cache, free) && s in cache.partial && s !in cache.idle
    ensures CountsOk(cache.(freeObjects := cache.freeObjects + 1), free[s := [u] + free[s]])
  {
    SumUpdate(free, cache.partial, s, [u] + free[s]);
    SumAgree(free, free[s := [u] + free[s]], cache.idle);
  }

  /** A new slab of `n` units, put at the head of the partial queue. */
  function NewPartial(cache: Cache, s: nat, n: nat): Cache {
    cache.(partial := [s] + cache.partial, countPartial := cache.countPartial + 1,
           freeObjects := cache.freeObjects + n,
           pagesNew := cache.pagesNew + 1, pagesInuse := cache.pagesInuse + 1)
  }

  lemma CountsNewPartial(cache: Cache, free: map<nat, seq<nat>>, s: nat, us: seq<nat>)
    requires CountsOk(cache, free) && s !in free
    ensures CountsOk(NewPartial(cache, s, |us|), free[s := us])
  {
    SumAgree(free, free[s := us], cache.partial);
    SumAgree(free, free[s := us], cache.idle);
    assert ([s] + cache.partial)[1..] == cache.partial;
  }

  /** An idle slab is taken off its queue and emptied; the counts of free slabs and pages follow later. */
  function IdleReleased(cache: Cache, s: nat, n: nat): Cache {
    cache.(idle := Remove(cache.idle, s), freeObjects := cache.freeObjects - n)
  }

  /** The counters are exact once `slabs` is taken from count_free and `pages` pages are booked as deleted. */
  ghost predicate CountsBehind(cache: Cache, free: map<nat, seq<nat>>, slabs: int, pages: int) {
    CountsOk(cache.(countFree := cache.countFree - slabs,
                    pagesDel := cache.pagesDel + pages, pagesInuse := cache.pagesInuse - pages), free)
  }

  lemma CountsIdleReleased(cache: Cache, free: map<nat, seq<nat>>, s: nat, lag: int)
    requires CountsBehind(cache, free, lag, 0) && NoDup(cache.partial) && NoDup(cache.idle)
    requires s in cache.idle && s !in cache.partial
    ensures CountsBehind(IdleReleased(cache, s, |free[s]|), free - {s}, lag + 1, 1)
  {
    RemoveMembers(cache.idle, s);
    SumRemove(free, cache.idle, s);
    SumAgree(free, free - {s}, cache.partial);
    SumAgree(free, free - {s}, Remove(cache.idle, s));
  }

  /** iqueue_del of the last element. */
  lemma {:induction false} RemoveLast(q: seq<nat>)
    requires q != [] && NoDup(q)
    ensures Remove(q, q[|q| - 1]) == q[..|q| - 1]
  {
    if |q| > 1 {
      RemoveLast(q[1..]);
      assert q[1..][..|q| - 2] == q[1..|q| - 1];
    }
  }
}
