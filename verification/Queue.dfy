/** The circular queues of kmem/imembase.h, as the macros rewrite them in place: `next` and `prev` of every node by
  * address. What they refine is the sequence of nodes after the head, which is how KmemState lists a slab queue.
  */
module Queue {
  import opened KmemState

  /** The nodes from the head around to the head again. */
  function Cycle(head: nat, q: seq<nat>): seq<nat> {
    [head] + q + [head]
  }

  predicate Link(next: map<nat, nat>, prev: map<nat, nat>, a: nat, b: nat) {
    a in next && next[a] == b && b in prev && prev[b] == a
  }

  predicate LinkAt(next: map<nat, nat>, prev: map<nat, nat>, c: seq<nat>, i: nat)
    requires i + 1 < |c|
  {
    Link(next, prev, c[i], c[i + 1])
  }

  /** `head` is the head of a well-formed circular queue whose nodes are `q`, from `next` on. */
  ghost predicate Ring(next: map<nat, nat>, prev: map<nat, nat>, head: nat, q: seq<nat>) {
    && NoDup([head] + q)
    && forall i {:trigger LinkAt(next, prev, Cycle(head, q), i)} :: 0 <= i <= |q| ==>
       LinkAt(next, prev, Cycle(head, q), i)
  }

  lemma RingLink(next: map<nat, nat>, prev: map<nat, nat>, head: nat, q: seq<nat>, i: nat)
    requires Ring(next, prev, head, q) && i <= |q|
    ensures Link(next, prev, Cycle(head, q)[i], Cycle(head, q)[i + 1])
  {
    assert LinkAt(next, prev, Cycle(head, q), i);
  }

  /** A queue none of whose nodes is written stays as it is. */
  lemma RingApart(next: map<nat, nat>, prev: map<nat, nat>, next': map<nat, nat>, prev': map<nat, nat>, head: nat,
                  q: seq<nat>)
    requires Ring(next, prev, head, q)
    requires forall a :: a in [head] + q && a in next && a in prev ==>
               a in next' && next'[a] == next[a] && a in prev' && prev'[a] == prev[a]
    ensures Ring(next', prev', head, q)
  {
    var c := Cycle(head, q);
    forall i: nat | i <= |q| ensures LinkAt(next', prev', c, i) {
      RingLink(next, prev, head, q, i);
      if i > 0 { RingLink(next, prev, head, q, i - 1); } else { RingLink(next, prev, head, q, |q|); }
      if i < |q| { RingLink(next, prev, head, q, i + 1); } else { RingLink(next, prev, head, q, 0); }
      assert c[i] in [head] + q && c[i + 1] in [head] + q;
    }
  }

  /** Putting `x` between position `i` of the cycle and the node after it. */
  lemma Inserted(next: map<nat, nat>, prev: map<nat, nat>, head: nat, q: seq<nat>, x: nat, i: nat)
    requires Ring(next, prev, head, q) && i <= |q| && x !in [head] + q
    ensures var a, b := Cycle(head, q)[i], Cycle(head, q)[i + 1];
            Ring(next[x := b][a := x], prev[x := a][b := x], head, q[..i] + [x] + q[i..])
  {
    var c, q' := Cycle(head, q), q[..i] + [x] + q[i..];
    var a, b := c[i], c[i + 1];
    var next', prev' := next[x := b][a := x], prev[x := a][b := x];
    var c' := Cycle(head, q');
    assert c' == c[..i + 1] + [x] + c[i + 1..];
    forall j: nat | j <= |q'| ensures LinkAt(next', prev', c', j) {
      if j < i {
        RingLink(next, prev, head, q, j);
        Distinct(head, q, j, i);
        Distinct(head, q, j + 1, i + 1);
      } else if j > i + 1 {
        RingLink(next, prev, head, q, j - 1);
        Distinct(head, q, j - 1, i);
        Distinct(head, q, j, i + 1);
      }
    }
    JoinNoDup(head, q, x, i);
  }

  lemma JoinNoDup(head: nat, q: seq<nat>, x: nat, i: nat)
    requires NoDup([head] + q) && x !in [head] + q && i <= |q|
    ensures NoDup([head] + (q[..i] + [x] + q[i..]))
  {
    var d, d' := [head] + q, [head] + (q[..i] + [x] + q[i..]);
    forall j, k | 0 <= j < k < |d'| ensures d'[j] != d'[k] {
      if j != i + 1 { assert d'[j] == d[if j <= i then j else j - 1]; }
      if k != i + 1 { assert d'[k] == d[if k <= i then k else k - 1]; }
    }
  }

  /** Positions of a cycle: two starting points of links, or two end points, are different nodes. */
  lemma Distinct(head: nat, q: seq<nat>, i: nat, j: nat)
    requires NoDup([head] + q) && i != j && i < |q| + 2 && j < |q| + 2
    ensures i <= |q| && j <= |q| ==> Cycle(head, q)[i] != Cycle(head, q)[j]
    ensures i > 0 && j > 0 ==> Cycle(head, q)[i] != Cycle(head, q)[j]
  {
    var d := [head] + q;
    if i <= |q| && j <= |q| {
      assert d[i] == Cycle(head, q)[i] && d[j] == Cycle(head, q)[j];
    } else if i > 0 && j > 0 {
      var k := if i <= |q| then i else j;
      assert d[k] != d[0];
    }
  }

  class Links {
    var next: map<nat, nat>
    var prev: map<nat, nat>

    ghost predicate IsQueue(head: nat, q: seq<nat>)
      reads this
    {
      Ring(next, prev, head, q)
    }

    /** Only links of these nodes were written. */
    twostate predicate OnlyWrote(nodes: seq<nat>)
      reads this
    {
      forall a :: a !in nodes ==>
        (a in next <==> a in old(next)) && (a in next ==> next[a] == old(next)[a])
        && (a in prev <==> a in old(prev)) && (a in prev ==> prev[a] == old(prev)[a])
    }

    /** IQUEUE_INIT */
    method Init(ptr: nat)
      modifies this
      ensures IsQueue(ptr, []) && OnlyWrote([ptr])
    {
      next := next[ptr := ptr];
      prev := prev[ptr := ptr];
      assert Cycle(ptr, []) == [ptr, ptr];
    }

    /** IQUEUE_IS_EMPTY */
    method IsEmpty(head: nat, ghost q: seq<nat>) returns (empty: bool)
      requires IsQueue(head, q)
      ensures empty <==> q == []
    {
      RingLink(next, prev, head, q, 0);
      if q != [] { Distinct(head, q, 0, 1); }
      return head == next[head];
    }

    /** IQUEUE_ADD: in front. */
    method Add(node: nat, head: nat, ghost q: seq<nat>)
      requires IsQueue(head, q) && node !in [head] + q
      modifies this
      ensures IsQueue(head, [node] + q) && OnlyWrote([node, head] + q)
    {
      RingLink(next, prev, head, q, 0);
      Inserted(next, prev, head, q, node, 0);
      assert q[..0] + [node] + q[0..] == [node] + q;
      assert Cycle(head, q)[1] in [head] + q;
      prev := prev[node := head];
      next := next[node := next[head]];
      prev := prev[next[head] := node];
      next := next[head := node];
    }

    /** IQUEUE_ADD_TAIL: at the end. */
    method AddTail(node: nat, head: nat, ghost q: seq<nat>)
      requires IsQueue(head, q) && node !in [head] + q
      modifies this
      ensures IsQueue(head, q + [node]) && OnlyWrote([node, head] + q)
    {
      RingLink(next, prev, head, q, |q|);
      Inserted(next, prev, head, q, node, |q|);
      assert q[..|q|] + [node] + q[|q|..] == q + [node];
      assert Cycle(head, q)[|q|] in [head] + q;
      prev := prev[node := prev[head]];
      next := next[node := head];
      next := next[prev[head] := node];
      prev := prev[head := node];
    }

    /** IQUEUE_DEL: the node leaves the queue and its own links are cleared. */
    method Del(entry: nat, ghost head: nat, ghost q: seq<nat>)
      requires IsQueue(head, q) && entry in q
      modifies this
      ensures IsQueue(head, Remove(q, entry)) && OnlyWrote([head] + q)
      ensures entry in next && entry in prev && next[entry] == 0 && prev[entry] == 0
    {
      ghost var i :| 0 <= i < |q| && q[i] == entry;
      RingLink(next, prev, head, q, i);
      RingLink(next, prev, head, q, i + 1);
      Deleted(next, prev, head, q, i);
      assert Cycle(head, q)[i] in [head] + q && Cycle(head, q)[i + 2] in [head] + q;
      prev := prev[next[entry] := prev[entry]];
      next := next[prev[entry] := next[entry]];
      next := next[entry := 0];
      prev := prev[entry := 0];
    }
  }

  /** Unlinking the node at position `i` of the queue. */
  lemma Deleted(next: map<nat, nat>, prev: map<nat, nat>, head: nat, q: seq<nat>, i: nat)
    requires Ring(next, prev, head, q) && i < |q|
    ensures var a, x, b := Cycle(head, q)[i], q[i], Cycle(head, q)[i + 2];
            && a != x && b != x
            && Ring(next[a := b][x := 0], prev[b := a][x := 0], head, Remove(q, x))
  {
    var x := q[i];
    CycleWithout(head, q, i, 0);
    Distinct(head, q, i, i + 1);
    Distinct(head, q, i + 1, i + 2);
    RingWithout(next, prev, head, q, i);
    TailNoDup(head, q);
    RemoveAt(q, i);
    hide Ring;
  }

  lemma TailNoDup(head: nat, q: seq<nat>)
    requires NoDup([head] + q)
    ensures NoDup(q)
  {
    forall j, k | 0 <= j < k < |q| ensures q[j] != q[k] {
      assert q[j] == ([head] + q)[j + 1] && q[k] == ([head] + q)[k + 1];
    }
  }

  lemma CycleWithout(head: nat, q: seq<nat>, i: nat, j: nat)
    requires i < |q| && j <= |q|
    ensures Cycle(head, q)[i + 1] == q[i]
    ensures Cycle(head, q[..i] + q[i + 1..])[j] == Cycle(head, q)[if j <= i then j else j + 1]
  {
  }

  lemma RingWithout(next: map<nat, nat>, prev: map<nat, nat>, head: nat, q: seq<nat>, i: nat)
    requires Ring(next, prev, head, q) && i < |q|
    ensures var c := Cycle(head, q);
            Ring(next[c[i] := c[i + 2]][c[i + 1] := 0], prev[c[i + 2] := c[i]][c[i + 1] := 0], head,
              q[..i] + q[i + 1..])
  {
    var c, q' := Cycle(head, q), q[..i] + q[i + 1..];
    var next', prev' := next[c[i] := c[i + 2]][c[i + 1] := 0], prev[c[i + 2] := c[i]][c[i + 1] := 0];
    Distinct(head, q, i, i + 1);
    Distinct(head, q, i + 1, i + 2);
    forall j: nat | j <= |q'| ensures LinkAt(next', prev', Cycle(head, q'), j) {
      CycleWithout(head, q, i, j);
      CycleWithout(head, q, i, j + 1);
      if j != i { LinkKept(next, prev, head, q, i, if j < i then j else j + 1); }
    }
    SplitNoDup(head, q, i);
  }

  /** The links of a cycle that a deletion at `i` does not touch. */
  lemma LinkKept(next: map<nat, nat>, prev: map<nat, nat>, head: nat, q: seq<nat>, i: nat, j: nat)
    requires Ring(next, prev, head, q) && i < |q| && j <= |q| && j != i && j != i + 1
    ensures var c := Cycle(head, q);
            Link(next[c[i] := c[i + 2]][c[i + 1] := 0], prev[c[i + 2] := c[i]][c[i + 1] := 0], c[j], c[j + 1])
  {
    RingLink(next, prev, head, q, j);
    Distinct(head, q, j, i);
    Distinct(head, q, j, i + 1);
    Distinct(head, q, j + 1, i + 2);
    Distinct(head, q, j + 1, i + 1);
  }

  lemma SplitNoDup(head: nat, q: seq<nat>, i: nat)
    requires NoDup([head] + q) && i < |q|
    ensures NoDup([head] + (q[..i] + q[i + 1..]))
  {
    var d, d' := [head] + q, [head] + (q[..i] + q[i + 1..]);
    forall j, k | 0 <= j < k < |d'| ensures d'[j] != d'[k] {
      assert d'[j] == d[if j <= i then j else j + 1] && d'[k] == d[if k <= i then k else k + 1];
    }
  }

  /** Taking out the only occurrence of a node. */
  lemma {:induction false} RemoveAt(q: seq<nat>, i: nat)
    requires NoDup(q) && i < |q|
    ensures Remove(q, q[i]) == q[..i] + q[i + 1..]
  {
    if i == 0 {
      assert q[..0] + q[1..] == q[1..];
    } else {
      assert q[0] != q[i];
      RemoveAt(q[1..], i - 1);
      assert q[..i] + q[i + 1..] == [q[0]] + (q[1..][..i - 1] + q[1..][i..]);
    }
  }
}
