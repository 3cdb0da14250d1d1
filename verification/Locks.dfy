/** The mutexes of the allocator and the order in which one thread takes them: later caches before earlier ones,
  * within a cache the magazine before the list, and the pools last.
  */
module Locks {
  datatype Lock =
    | ArrayLock(cache: nat, slot: nat)  // array[slot].lock
    | ListLock(cache: nat)              // list_lock
    | PagePoolLock                      // imem_gfp_lock
    | HeaderPoolLock                    // imslab_lock
    | LargeLock                         // ikmem_lock

  function Rank(l: Lock): nat {
    match l
    case ArrayLock(c, _) => 2 * c + 2
    case ListLock(c) => 2 * c + 1
    case _ => 0
  }

  /** A thread that holds these locks may take any lock of a rank below `r`. */
  predicate MayTake(held: seq<Lock>, r: nat) {
    forall i :: 0 <= i < |held| ==> Rank(held[i]) >= r
  }

  lemma MayTakeAny(r: nat)
    ensures MayTake([], r)
  {
  }

  /** imutex_lock; nobody takes a lock out of order. */
  ghost function Locked(held: seq<Lock>, l: Lock): (r: seq<Lock>)
    requires MayTake(held, Rank(l) + 1)
    ensures l in r && MayTake(r, Rank(l)) && r != [] && r[|r| - 1] == l && Unlocked(r, l) == held
  {
    held + [l]
  }

  /** imutex_unlock, of the lock taken last. */
  ghost function Unlocked(held: seq<Lock>, l: Lock): seq<Lock>
    requires held != [] && held[|held| - 1] == l
  {
    held[..|held| - 1]
  }

  lemma MayTakeLess(held: seq<Lock>, r: nat, q: nat)
    requires MayTake(held, r) && q <= r
    ensures MayTake(held, q)
  {
  }

  /** A thread that holds some locks and waits for one more. */
  datatype Waiter = Waiter(held: seq<Lock>, want: Lock)

  predicate Orderly(w: Waiter) {
    MayTake(w.held, Rank(w.want) + 1)
  }

  /** Each waits for a lock that the next one holds. */
  predicate Chain(ws: seq<Waiter>) {
    forall i :: 0 <= i < |ws| - 1 ==> ws[i].want in ws[i + 1].held
  }

  lemma {:induction false} ChainFalls(ws: seq<Waiter>)
    requires ws != [] && Chain(ws) && forall i :: 0 <= i < |ws| ==> Orderly(ws[i])
    ensures Rank(ws[|ws| - 1].want) <= Rank(ws[0].want)
  {
    if |ws| > 1 {
      ChainFalls(ws[1..]);
      assert ws[0].want in ws[1].held && Orderly(ws[1]);
    }
  }

  /** Threads that take locks in this order never wait for each other in a circle. */
  lemma NoDeadlock(ws: seq<Waiter>)
    requires ws != [] && Chain(ws) && forall i :: 0 <= i < |ws| ==> Orderly(ws[i])
    ensures ws[|ws| - 1].want !in ws[0].held
  {
    ChainFalls(ws);
    assert Orderly(ws[0]);
  }
}
