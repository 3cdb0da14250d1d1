/** IMEMNODE of kmem/imembase.c: numbered buffers on two doubly linked lists threaded through index arrays. */
module MemNode {
  import opened Layout
  import opened KmemState

  const ROUND: nat := 8  // IMROUNDSIZE

  /** A block of memory obtained for buffers. */
  datatype Block = Block(at: nat, size: nat)

  predicate Disjoint(a: Block, b: Block) {
    Apart(a.at, a.size, b.at, b.size)
  }

  /** `l` is a list from `head`: next leads along it, prev leads back, both end in -1. */
  ghost predicate Listed(l: seq<nat>, head: int, next: seq<int>, prev: seq<int>) {
    && |next| == |prev|
    && (forall i {:trigger l[i]} :: 0 <= i < |l| ==> l[i] < |next|)
    && head == (if l == [] then -1 else l[0])
    && (forall i {:trigger next[l[i]]} :: 0 <= i < |l| ==> next[l[i]] == if i + 1 < |l| then l[i + 1] else -1)
    && (forall i {:trigger prev[l[i]]} :: 0 <= i < |l| ==> prev[l[i]] == if i > 0 then l[i - 1] else -1)
  }

  function Without(l: seq<nat>, k: nat): seq<nat>
    requires k < |l|
  {
    l[..k] + l[k + 1..]
  }

  /** Putting a node in front of a list it is not on. */
  lemma Pushed(l: seq<nat>, head: int, next: seq<int>, prev: seq<int>, x: nat, next': seq<int>, prev': seq<int>)
    requires Listed(l, head, next, prev) && NoDup(l) && x < |next| && x !in l
    requires next' == next[x := head]
    requires prev' == if head >= 0 && head < |prev| then prev[x := -1][head := x] else prev[x := -1]
    ensures Listed([x] + l, x, next', prev')
  {
    var m := [x] + l;
    forall i | 0 <= i < |m| ensures m[i] < |next'| && next'[m[i]] == if i + 1 < |m| then m[i + 1] else -1 {
      if i > 0 { assert m[i] == l[i - 1] && l[i - 1] in l; }
    }
    forall i | 0 <= i < |m| ensures m[i] < |prev'| && prev'[m[i]] == if i > 0 then m[i - 1] else -1 {
      if i > 0 {
        assert m[i] == l[i - 1] && l[i - 1] in l;
        if i > 1 { assert l[i - 1] != l[0]; }
      }
    }
  }

  /** Links of nodes off the list do not matter. */
  lemma Untouched(l: seq<nat>, head: int, next: seq<int>, prev: seq<int>, next': seq<int>, prev': seq<int>)
    requires Listed(l, head, next, prev) && |next'| == |prev'|
    requires forall a :: a in l ==> a < |next'| && a < |next| && next'[a] == next[a] && prev'[a] == prev[a]
    ensures Listed(l, head, next', prev')
  {
    forall i | 0 <= i < |l| ensures l[i] < |next'| && next'[l[i]] == next[l[i]] && prev'[l[i]] == prev[l[i]] {
      assert l[i] in l;
    }
  }

  /** Unlinking the node at position `k`. */
  lemma Unlinked(l: seq<nat>, head: int, next: seq<int>, prev: seq<int>, k: nat, next': seq<int>, prev': seq<int>)
    requires Listed(l, head, next, prev) && NoDup(l) && k < |l|
    requires prev' == if k + 1 < |l| then prev[l[k + 1] := prev[l[k]]] else prev
    requires next' == if k > 0 then next[l[k - 1] := next[l[k]]] else next
    ensures l[k] < |next| && Listed(Without(l, k), if k > 0 then head else next[l[k]], next', prev')
  {
    var m := Without(l, k);
    forall i | 0 <= i < |m| ensures m[i] < |next'| && next'[m[i]] == if i + 1 < |m| then m[i + 1] else -1 {
      var o := if i < k then i else i + 1;
      assert m[i] == l[o];
      if k > 0 && o != k - 1 { assert l[o] != l[k - 1]; }
    }
    forall i | 0 <= i < |m| ensures m[i] < |prev'| && prev'[m[i]] == if i > 0 then m[i - 1] else -1 {
      var o := if i < k then i else i + 1;
      assert m[i] == l[o];
      if k + 1 < |l| && o != k + 1 { assert l[o] != l[k + 1]; }
    }
  }

  /** lo, lo + 1, ..., hi - 1 */
  function Range(lo: nat, hi: nat): (r: seq<nat>)
    requires lo <= hi
    ensures |r| == hi - lo && forall i :: 0 <= i < |r| ==> r[i] == lo + i
    decreases hi - lo
  {
    if lo == hi then [] else [lo] + Range(lo + 1, hi)
  }

  ghost predicate Inside(p: nat, size: nat, blocks: seq<Block>) {
    exists b :: b in blocks && b.at <= p && p + size <= b.at + b.size
  }

  function Total(blocks: seq<Block>): nat {
    if blocks == [] then 0 else blocks[|blocks| - 1].size + Total(blocks[..|blocks| - 1])
  }

  /** The buffers of the first `n` nodes: aligned, inside the blocks, apart from each other. */
  ghost predicate BuffersOk(data: seq<nat>, n: nat, size: nat, blocks: seq<Block>) {
    && n <= |data|
    && (forall i {:trigger data[i]} :: 0 <= i < n ==> data[i] % 8 == 0 && Inside(data[i], size, blocks))
    && (forall i, j {:trigger data[i], data[j]} :: 0 <= i < j < n ==> Apart(data[i], size, data[j], size))
  }

  ghost predicate BlocksApart(blocks: seq<Block>) {
    forall i, j :: 0 <= i < j < |blocks| ==> Disjoint(blocks[i], blocks[j])
  }

  lemma OneMoreApart(blocks: seq<Block>, b: Block)
    requires BlocksApart(blocks) && forall c :: c in blocks ==> Disjoint(b, c)
    ensures BlocksApart(blocks + [b]) && Total(blocks + [b]) == Total(blocks) + b.size
  {
    assert (blocks + [b])[..|blocks|] == blocks;
    forall i | 0 <= i < |blocks| ensures Disjoint(blocks[i], b) {
      assert Disjoint(b, blocks[i]);
    }
  }

  /** The two lists and the arrays they are threaded through. */
  datatype Lists = Lists(
    open: seq<nat>,        // the lists themselves, from list_open and list_close on
    close: seq<nat>,
    listOpen: int,
    listClose: int,
    next: seq<int>,
    prev: seq<int>,
    mode: seq<int>,
    nodeFree: int,
    nodeUsed: int)

  /** The two lists are acyclic and disjoint, mode tells them apart, and the counts are their lengths. */
  ghost predicate ListsOk(l: Lists) {
    && |l.next| == |l.prev| == |l.mode|
    && Listed(l.open, l.listOpen, l.next, l.prev) && Listed(l.close, l.listClose, l.next, l.prev)
    && NoDup(l.open) && NoDup(l.close)
    && (forall a :: a in l.open ==> a !in l.close && a < |l.mode| && l.mode[a] == 0)
    && (forall a :: a in l.close ==> a < |l.mode| && l.mode[a] == 1)
    && l.nodeFree == |l.open| && l.nodeUsed == |l.close|
  }

  /** Node `i` goes to the front of the open list. */
  function Added(l: Lists, i: nat): Lists
    requires i < |l.next| == |l.prev| == |l.mode| && l.listOpen < |l.prev|
  {
    l.(open := [i] + l.open, listOpen := i, mode := l.mode[i := 0], nodeFree := l.nodeFree + 1,
       next := l.next[i := l.listOpen],
       prev := if l.listOpen >= 0 then l.prev[i := -1][l.listOpen := i] else l.prev[i := -1])
  }

  lemma AddedOk(l: Lists, i: nat)
    requires ListsOk(l) && i < |l.next| && i !in l.open && i !in l.close
    ensures l.listOpen < |l.prev| && ListsOk(Added(l, i))
  {
    hide Listed;
    PushedOpen(l.open, l.close, l.listOpen, l.listClose, l.next, l.prev, i);
    AppendMembers(l.open, i);
  }

  /** The first open node goes to the front of the closed list. */
  ghost predicate Takable(l: Lists) {
    && l.open != [] && 0 <= l.listOpen < |l.next| == |l.prev| == |l.mode|
    && l.next[l.listOpen] < |l.prev| && l.listClose < |l.prev|
  }

  function UnlinkFirst(l: Lists): seq<int>
    requires 0 <= l.listOpen < |l.next| == |l.prev| && l.next[l.listOpen] < |l.prev|
    ensures |UnlinkFirst(l)| == |l.prev|
  {
    if l.next[l.listOpen] >= 0 then l.prev[l.next[l.listOpen] := -1] else l.prev
  }

  ghost function TakenOpen(l: Lists): Lists
    requires Takable(l)
  {
    var node := l.listOpen;
    var prev1 := UnlinkFirst(l)[node := -1];
    l.(open := Without(l.open, 0), close := [l.open[0]] + l.close, listOpen := l.next[node], listClose := node,
       mode := l.mode[node := 1], nodeFree := l.nodeFree - 1, nodeUsed := l.nodeUsed + 1,
       next := l.next[node := l.listClose],
       prev := if l.listClose >= 0 then prev1[l.listClose := node] else prev1)
  }

  lemma TakenLinks(l: Lists)
    requires ListsOk(l) && l.open != []
    ensures Takable(l) && l.listOpen == l.open[0]
    ensures var t := TakenOpen(l);
            |t.next| == |t.prev| == |l.mode|
            && Listed(t.open, t.listOpen, t.next, t.prev) && Listed(t.close, t.listClose, t.next, t.prev)
  {
    hide Listed, NoDup, Without;
    ListHead(l.open, l.listOpen, l.next, l.prev);
    ListHead(l.close, l.listClose, l.next, l.prev);
    FirstUnlinked(l);
    hide UnlinkFirst;
    Moved(l.open, l.close, l.listOpen, l.listClose, l.next, l.prev, 0);
  }

  lemma FirstUnlinked(l: Lists)
    requires Listed(l.open, l.listOpen, l.next, l.prev) && l.open != []
    ensures 0 <= l.listOpen < |l.next| == |l.prev| && l.next[l.listOpen] < |l.prev|
            && (1 < |l.open| ==> l.open[1] < |l.prev|)
    ensures UnlinkFirst(l) == if 1 < |l.open| then l.prev[l.open[1] := l.prev[l.open[0]]] else l.prev
  {
    assert l.open[0] < |l.next| && l.next[l.open[0]] == if 1 < |l.open| then l.open[1] else -1;
    assert l.prev[l.open[0]] == -1;
    if 1 < |l.open| { assert l.open[1] < |l.next|; }
  }

  lemma TakenOk(l: Lists)
    requires ListsOk(l) && l.open != []
    ensures Takable(l) && ListsOk(TakenOpen(l)) && l.open == [l.listOpen as nat] + TakenOpen(l).open
    ensures TakenOpen(l).close == [l.listOpen as nat] + l.close
  {
    hide Listed, UnlinkFirst;
    TakenLinks(l);
    ModesMoved(l.open, l.close, l.mode, 0, 1);
    WithoutMembers(l.open, 0);
    AppendMembers(l.close, l.open[0]);
  }

  /** A closed node, `x`, goes to the front of the open list. */
  ghost predicate Returnable(l: Lists, x: nat) {
    && x < |l.next| == |l.prev| == |l.mode|
    && l.next[x] < |l.prev| && l.prev[x] < |l.next| && l.listOpen < |l.prev|
  }

  function PrevUnlinked(l: Lists, x: nat): (r: seq<int>)
    requires x < |l.next| == |l.prev| && l.next[x] < |l.prev|
    ensures |r| == |l.prev|
  {
    if l.next[x] >= 0 then l.prev[l.next[x] := l.prev[x]] else l.prev
  }

  function NextUnlinked(l: Lists, x: nat): (r: seq<int>)
    requires x < |l.next| == |l.prev| && l.prev[x] < |l.next|
    ensures |r| == |l.next|
  {
    if l.prev[x] >= 0 then l.next[l.prev[x] := l.next[x]] else l.next
  }

  ghost function Returned(l: Lists, x: nat, k: nat): Lists
    requires Returnable(l, x) && k < |l.close|
  {
    var prev1 := PrevUnlinked(l, x)[x := -1];
    l.(open := [x] + l.open, close := Without(l.close, k), listOpen := x,
       listClose := if l.prev[x] >= 0 then l.listClose else l.next[x],
       mode := l.mode[x := 0], nodeFree := l.nodeFree + 1, nodeUsed := l.nodeUsed - 1,
       next := NextUnlinked(l, x)[x := l.listOpen],
       prev := if l.listOpen >= 0 then prev1[l.listOpen := x] else prev1)
  }

  lemma NodeUnlinked(l: Lists, k: nat)
    requires Listed(l.close, l.listClose, l.next, l.prev) && k < |l.close|
    ensures var x := l.close[k];
            && x < |l.next| == |l.prev| && l.next[x] < |l.prev| && l.prev[x] < |l.next|
            && (k + 1 < |l.close| ==> l.close[k + 1] < |l.prev|) && (k > 0 ==> l.close[k - 1] < |l.next|)
            && l.next[x] == (if k + 1 < |l.close| then l.close[k + 1] else -1)
            && l.prev[x] == (if k > 0 then l.close[k - 1] else -1)
            && PrevUnlinked(l, x) == (if k + 1 < |l.close| then l.prev[l.close[k + 1] := l.prev[x]] else l.prev)
            && NextUnlinked(l, x) == (if k > 0 then l.next[l.close[k - 1] := l.next[x]] else l.next)
  {
    assert l.next[l.close[k]] == if k + 1 < |l.close| then l.close[k + 1] else -1;
    assert l.prev[l.close[k]] == if k > 0 then l.close[k - 1] else -1;
  }

  lemma ReturnedLinks(l: Lists, k: nat)
    requires ListsOk(l) && k < |l.close|
    ensures Returnable(l, l.close[k])
    ensures var t := Returned(l, l.close[k], k);
            |t.next| == |t.prev| == |l.mode|
            && Listed(t.open, t.listOpen, t.next, t.prev) && Listed(t.close, t.listClose, t.next, t.prev)
  {
    hide Listed, NoDup, Without;
    ListHead(l.open, l.listOpen, l.next, l.prev);
    ListIn(l.open, l.listOpen, l.next, l.prev);
    assert l.open != [] ==> l.open[0] in l.open;
    NodeUnlinked(l, k);
    hide PrevUnlinked, NextUnlinked;
    Moved(l.close, l.open, l.listClose, l.listOpen, l.next, l.prev, k);
  }

  lemma ReturnedOk(l: Lists, k: nat)
    requires ListsOk(l) && k < |l.close|
    ensures Returnable(l, l.close[k]) && ListsOk(Returned(l, l.close[k], k))
    ensures l.close[k] !in l.open
    ensures forall a :: a in Without(l.close, k) <==> a in l.close && a != l.close[k]
  {
    hide Listed, PrevUnlinked, NextUnlinked;
    ReturnedLinks(l, k);
    ModesMoved(l.close, l.open, l.mode, k, 0);
    WithoutMembers(l.close, k);
    AppendMembers(l.open, l.close[k]);
  }

  /** The arrays are resized; every listed node keeps its links. */
  lemma ResizedOk(l: Lists, l': Lists)
    requires ListsOk(l) && l' == l.(next := l'.next, prev := l'.prev, mode := l'.mode)
             && |l'.next| == |l'.prev| == |l'.mode|
    requires forall a: nat :: a in l.open || a in l.close ==>
               a < |l'.next| && a < |l.next|
               && l'.next[a] == l.next[a] && l'.prev[a] == l.prev[a] && l'.mode[a] == l.mode[a]
    ensures ListsOk(l')
  {
    hide Listed;
    Untouched(l.open, l.listOpen, l.next, l.prev, l'.next, l'.prev);
    Untouched(l.close, l.listClose, l.next, l.prev, l'.next, l'.prev);
  }

  class Nodes {
    var mprev: seq<int>
    var mnext: seq<int>
    var mmode: seq<int>
    var mdata: seq<nat>
    var mmem: seq<nat>
    var memMax: nat
    var nodeSize: nat
    var nodeFree: int
    var nodeUsed: int
    var nodeMax: nat
    var listOpen: int
    var listClose: int
    var totalMem: nat
    var growLimit: nat
    ghost var open: seq<nat>
    ghost var close: seq<nat>
    ghost var blocks: seq<Block>    // what mmem points to

    ghost function L(): Lists
      reads this
    {
      Lists(open, close, listOpen, listClose, mnext, mprev, mmode, nodeFree, nodeUsed)
    }

    ghost predicate ArraysOk()
      reads this
    {
      && nodeMax <= |mprev| == |mnext| == |mmode| == |mdata|
      && nodeSize % 8 == 0 && nodeSize >= ROUND
    }

    ghost predicate MemOk()
      reads this`mmem, this`blocks, this`memMax, this`totalMem
    {
      && |mmem| == |blocks| <= memMax && (forall i :: 0 <= i < |mmem| ==> mmem[i] == blocks[i].at)
      && BlocksApart(blocks) && totalMem == Total(blocks)
    }

    /** The lists hold every node once, and the buffers are what they should be. */
    ghost predicate Valid()
      reads this
    {
      && ArraysOk() && ListsOk(L()) && MemOk()
      && Covered(open, close, nodeMax)
      && BuffersOk(mdata, nodeMax, nodeSize, blocks)
    }

    /** imnode_init */
    constructor (nodesize: nat)
      ensures Valid() && nodeMax == 0 && growLimit == 0 && nodesize <= nodeSize < nodesize + 2 * ROUND
    {
      mprev, mnext, mmode, mdata, mmem := [], [], [], [], [];
      nodeSize := RoundUp(if nodesize < ROUND then ROUND else nodesize);
      memMax, nodeFree, nodeUsed, nodeMax, listOpen, listClose, totalMem, growLimit := 0, 0, 0, 0, -1, -1, 0, 0;
      open, close, blocks := [], [], [];
    }

    /** imnode_node_resize, taken as all or nothing. */
    method ResizeNodes(n: nat, room: bool) returns (ret: int)
      modifies this`mprev, this`mnext, this`mmode, this`mdata, this`nodeMax
      requires |mprev| == |mnext| == |mmode| == |mdata|
      ensures |mprev| == |mnext| == |mmode| == |mdata|
      ensures ret == if room then 0 else -1
      ensures room ==> nodeMax == n == |mprev|
      ensures room ==> forall k :: 0 <= k < n && k < |old(mprev)| ==>
                mprev[k] == old(mprev)[k] && mnext[k] == old(mnext)[k] && mmode[k] == old(mmode)[k]
                  && mdata[k] == old(mdata)[k]
      ensures !room ==> mprev == old(mprev) && mnext == old(mnext) && mmode == old(mmode) && mdata == old(mdata)
      ensures !room ==> nodeMax == old(nodeMax)
    {
      if !room { return -1; }
      if n <= |mprev| {
        mprev, mnext, mmode, mdata := mprev[..n], mnext[..n], mmode[..n], mdata[..n];
      } else {
        var more: seq<int> := seq(n - |mprev|, _ => 0);
        mprev, mnext, mmode, mdata := mprev + more, mnext + more, mmode + more, mdata + seq(n - |mprev|, _ => 0);
      }
      nodeMax := n;
      return 0;
    }

    /** Where the environment puts a block of this size. */
    ghost predicate Fresh(at: nat, size: nat)
      reads this
    {
      forall b :: b in blocks ==> Disjoint(Block(at, size), b)
    }

    /** imnode_mem_add; `tableRoom` and `room` say which of the two allocations succeed. */
    method AddMem(count: nat, tableRoom: bool, room: bool, at: nat) returns (ret: int, mptr: nat)
      requires MemOk() && Fresh(at, count * nodeSize + ROUND)
      modifies this`mmem, this`memMax, this`totalMem, this`blocks
      ensures MemOk()
      ensures ret == 0 ==> blocks == old(blocks) + [Block(at, count * nodeSize + ROUND)]
      ensures ret == 0 ==> mptr % 8 == 0 && at <= mptr && mptr + count * nodeSize <= at + (count * nodeSize + ROUND)
      ensures ret != 0 ==> blocks == old(blocks)
      ensures var full := |old(mmem)| >= old(memMax);
              ret == if full && !tableRoom then -1 else if !room then -2 else 0
    {
      mptr := 0;
      if |mmem| >= memMax {
        if !tableRoom { return -1, mptr; }
        memMax := if memMax == 0 then ROUND else memMax * 2;
      }
      if !room { return -2, mptr; }
      var newsize := count * nodeSize + ROUND;
      Book(at, newsize);
      mptr := RoundUp(at);
      return 0, mptr;
    }

    /** The new block is entered in the table. */
    method Book(at: nat, size: nat)
      requires MemOk() && |mmem| < memMax && Fresh(at, size)
      modifies this`mmem, this`totalMem, this`blocks
      ensures MemOk() && blocks == old(blocks) + [Block(at, size)]
    {
      hide BlocksApart, Total, Disjoint;
      OneMoreApart(blocks, Block(at, size));
      mmem := mmem + [at];
      totalMem := totalMem + size;
      blocks := blocks + [Block(at, size)];
    }

    /** How many nodes imnode_grow adds. */
    function GrowCount(): (n: nat)
      reads this
      ensures n > 0
    {
      var count := if nodeMax == 0 then ROUND else nodeMax;
      if growLimit > 0 && count > growLimit then growLimit else count
    }

    /** One turn of the loop of imnode_grow: node `i` with its buffer goes to the front of the open list. */
    method AddNode(i: nat, p: nat)
      requires ArraysOk() && ListsOk(L()) && i < nodeMax && i !in open && i !in close
      modifies this`mprev, this`mnext, this`mmode, this`mdata, this`listOpen, this`nodeFree, this`open
      ensures ArraysOk() && ListsOk(L()) && open == [i] + old(open) && mdata == old(mdata)[i := p]
    {
      hide ListsOk;
      AddedOk(L(), i);
      mmode := mmode[i := 0];
      mdata := mdata[i := p];
      mprev := mprev[i := -1];
      mnext := mnext[i := listOpen];
      if listOpen >= 0 { mprev := mprev[listOpen := i]; }
      listOpen := i;
      nodeFree := nodeFree + 1;
      open := [i] + open;
    }

    /** imnode_node_resize to a size that keeps every node in use. */
    method Widen(n: nat, room: bool) returns (ret: int)
      requires ArraysOk() && ListsOk(L()) && forall a: nat :: a in open || a in close ==> a < n
      modifies this`mprev, this`mnext, this`mmode, this`mdata, this`nodeMax
      ensures ArraysOk() && ListsOk(L()) && ret == (if room then 0 else -1)
      ensures |mdata| >= nodeMax == if room then n else old(nodeMax)
      ensures forall k :: 0 <= k < |mdata| && k < |old(mdata)| ==> mdata[k] == old(mdata)[k]
      ensures !room ==> mdata == old(mdata)
    {
      hide ListsOk;
      ret := ResizeNodes(n, room);
      if ret == 0 {
        InRange(old(L()));
        ResizedOk(old(L()), L());
      }
    }

    /** The loop of imnode_grow: the nodes from `start` on, last first, with consecutive buffers from `mptr`. */
    method Thread(start: nat, mptr: nat)
      requires ArraysOk() && ListsOk(L()) && start <= nodeMax && forall a: nat :: a in open || a in close ==> a < start
      modifies this`mprev, this`mnext, this`mmode, this`mdata, this`listOpen, this`nodeFree, this`open
      ensures ArraysOk() && ListsOk(L()) && open == Range(start, nodeMax) + old(open)
      ensures |mdata| == |old(mdata)| && forall k :: 0 <= k < start ==> mdata[k] == old(mdata)[k]
      ensures Strided(mdata, start, nodeMax, mptr, nodeSize)
    {
      hide ListsOk, Range, Strided;
      var i, p := nodeMax, mptr;
      StridedNone(mdata, nodeMax, mptr, nodeSize);
      assert Range(nodeMax, nodeMax) + open == open;
      while i > start
        invariant start <= i <= nodeMax && p == mptr + (nodeMax - i) * nodeSize
        invariant ArraysOk() && ListsOk(L()) && open == Range(i, nodeMax) + old(open)
        invariant |mdata| == |old(mdata)| && forall k :: 0 <= k < start ==> mdata[k] == old(mdata)[k]
        invariant Strided(mdata, i, nodeMax, mptr, nodeSize)
        decreases i
      {
        NotYet(i - 1, i, nodeMax, old(open), open);
        StridedMore(mdata, i, nodeMax, mptr, nodeSize, p);
        AddNode(i - 1, p);
        Further(nodeMax - i, nodeSize);
        RangeMore(i - 1, nodeMax, old(open));
        i := i - 1;
        p := p + nodeSize;
      }
    }

    /** imnode_grow: the pool doubles, or gets 8 nodes if it has none, unless the limit is smaller. A failure leaves
      * every node as it was.
      */
    method Grow(room: bool, tableRoom: bool, memRoom: bool, shrinkRoom: bool, at: nat) returns (ret: int)
      requires Valid() && Fresh(at, GrowCount() * nodeSize + ROUND)
      modifies this
      ensures Valid() && close == old(close) && nodeSize == old(nodeSize) && growLimit == old(growLimit)
      ensures |mdata| >= nodeMax >= old(nodeMax) && |old(mdata)| >= old(nodeMax)
      ensures forall k :: 0 <= k < old(nodeMax) ==> mdata[k] == old(mdata)[k]
      ensures ret == 0 ==> nodeMax == old(nodeMax + GrowCount()) && open == Range(old(nodeMax), nodeMax) + old(open)
      ensures var full := if old(nodeMax) == 0 then 8 else old(nodeMax);
              ret == 0 ==> nodeMax - old(nodeMax) == if 0 < growLimit < full then growLimit else full
      ensures ret != 0 ==> ret < 0 && nodeMax == old(nodeMax) && open == old(open) && blocks == old(blocks)
      ensures room && tableRoom && memRoom ==> ret == 0
    {
      hide ListsOk, BuffersOk, BlocksApart, Total, Range, Nodes.MemOk, Covered;
      var start, count := nodeMax, GrowCount();
      CoveredBelow(open, close, start, start + count);
      CoveredBelow(open, close, start, start);
      ret := Widen(start + count, room);
      if ret != 0 { return -10 + ret; }
      var mptr;
      ret, mptr := AddMem(count, tableRoom, memRoom, at);
      if ret != 0 {
        var undone := Widen(start, shrinkRoom);
        nodeMax := start;
        BuffersSame(old(mdata), mdata, start, nodeSize, blocks);
        return -20 + ret;
      }
      Thread(start, mptr);
      CoveredMore(start, nodeMax, old(open), open, close);
      BuffersGrown(old(mdata), mdata, start, count, nodeSize, old(blocks), Block(at, count * nodeSize + ROUND), mptr);
    }

    /** The rest of imnode_new: from the open list to the closed one. */
    method TakeOpen() returns (node: int)
      requires ListsOk(L()) && open != []
      modifies this`mprev, this`mnext, this`mmode, this`listOpen, this`listClose, this`nodeFree, this`nodeUsed,
               this`open, this`close
      ensures ListsOk(L()) && |mprev| == |mnext| == |mmode| == old(|mprev|)
      ensures node >= 0 && old(open) == [node as nat] + open && close == [node as nat] + old(close)
    {
      hide ListsOk;
      TakenOk(L());
      ghost var l := L();
      node := listOpen;
      var next := mnext[node];
      if next >= 0 { mprev := mprev[next := -1]; }
      listOpen := next;
      mprev := mprev[node := -1];
      mnext := mnext[node := listClose];
      if listClose >= 0 { mprev := mprev[listClose := node]; }
      listClose := node;
      mmode := mmode[node := 1];
      nodeFree := nodeFree - 1;
      nodeUsed := nodeUsed + 1;
      open, close := TakenOpen(l).open, TakenOpen(l).close;
    }

    /** imnode_new: the node at the front of the open list, after growing if there is none. */
    method New(room: bool, tableRoom: bool, memRoom: bool, shrinkRoom: bool, at: nat) returns (node: int)
      requires Valid() && Fresh(at, GrowCount() * nodeSize + ROUND)
      modifies this
      ensures Valid()
      ensures node < 0 ==> node == -2 && old(open) == [] && open == [] && close == old(close) && nodeMax == old(nodeMax)
      ensures node >= 0 ==>
                node < nodeMax && node !in old(close) && close == [node as nat] + old(close)
                && node !in open
      ensures node >= 0 && old(open) != [] ==> nodeMax == old(nodeMax) && old(open) == [node as nat] + open
      ensures old(open) != [] || (room && tableRoom && memRoom) ==> node >= 0
      ensures |mdata| >= nodeMax >= old(nodeMax) && |old(mdata)| >= old(nodeMax)
      ensures forall k :: 0 <= k < old(nodeMax) ==> mdata[k] == old(mdata)[k]
    {
      if listOpen < 0 {
        var ret := Grow(room, tableRoom, memRoom, shrinkRoom, at);
        if ret != 0 { return -2; }
      }
      ghost var was := open;
      node := TakeOpen();
      HeadTail(was, open, node);
    }

    /** imnode_del; `k` is where the node was on the closed list. */
    method Del(index: nat) returns (ghost k: nat)
      requires Valid() && index < nodeMax && index < |mmode| && mmode[index] != 0
      modifies this`mprev, this`mnext, this`mmode, this`listOpen, this`listClose, this`nodeFree, this`nodeUsed,
               this`open, this`close
      ensures Valid() && open == [index] + old(open)
      ensures k < |old(close)| && old(close)[k] == index && close == Without(old(close), k)
    {
      hide ListsOk, Nodes.MemOk, BuffersOk, Covered;
      k := Position(L(), index, nodeMax);
      ReturnedOk(L(), k);
      StillCovered(L(), index, k, nodeMax);
      Relink(index, k);
    }

    /** Its updates, in the order of the source. */
    method Relink(index: nat, ghost k: nat)
      requires Returnable(L(), index) && k < |close|
      modifies this`mprev, this`mnext, this`mmode, this`listOpen, this`listClose, this`nodeFree, this`nodeUsed,
               this`open, this`close
      ensures L() == Returned(old(L()), index, k)
    {
      hide Without;
      var next := mnext[index];
      var prev := mprev[index];
      if next >= 0 { mprev := mprev[next := prev]; }
      if prev >= 0 { mnext := mnext[prev := next]; } else { listClose := next; }
      mprev := mprev[index := -1];
      mnext := mnext[index := listOpen];
      if listOpen >= 0 { mprev := mprev[listOpen := index]; }
      listOpen := index;
      mmode := mmode[index := 0];
      nodeFree := nodeFree + 1;
      nodeUsed := nodeUsed - 1;
      open, close := [index] + open, Without(close, k);
    }
  }

  lemma StillCovered(l: Lists, x: nat, k: nat, n: nat)
    requires Covered(l.open, l.close, n) && k < |l.close| && l.close[k] == x
    requires forall a :: a in Without(l.close, k) <==> a in l.close && a != x
    ensures Covered([x] + l.open, Without(l.close, k), n)
  {
    assert x in l.close;
    assert forall a :: a in [x] + l.open <==> a == x || a in l.open;
  }

  /** A node in use is on the closed list. */
  ghost function Position(l: Lists, x: nat, n: nat): (k: nat)
    requires ListsOk(l) && Covered(l.open, l.close, n) && x < n && x < |l.mode| && l.mode[x] != 0
    ensures k < |l.close| && l.close[k] == x
  {
    assert x in l.close;
    var k: nat :| k < |l.close| && l.close[k] == x;
    k
  }

  /** Every node number is on exactly one list, so the counts add up; mode says which. */
  lemma Census(n: Nodes)
    requires n.Valid()
    ensures n.nodeFree + n.nodeUsed == n.nodeMax
    ensures forall a: nat :: a < n.nodeMax ==>
            a < |n.mmode| && (n.mmode[a] == 1 <==> a in n.close) && (n.mmode[a] == 0 <==> a in n.open)
  {
    var all := n.open + n.close;
    assert forall a :: a in all <==> a in n.open || a in n.close;
    assert NoDup(all) by {
      forall i, j | 0 <= i < j < |all| ensures all[i] != all[j] {
        if i < |n.open| <= j { assert n.open[i] in n.open && n.close[j - |n.open|] in n.close; }
      }
    }
    Counted(all, n.nodeMax);
  }

  /** A list of the numbers below n without repetition has n entries. */
  lemma {:induction false} Counted(q: seq<nat>, n: nat)
    requires NoDup(q) && forall a: nat :: a in q <==> a < n
    ensures |q| == n
  {
    if q == [] {
      assert n - 1 !in q;
    } else {
      assert q[0] in q;
      assert n - 1 in q;
      var k: nat :| k < |q| && q[k] == n - 1;
      WithoutMembers(q, k);
      Counted(Without(q, k), n - 1);
    }
  }

  /** Any two buffers of a pool are apart, whichever calls made it. */
  lemma BuffersApart(n: Nodes, i: nat, j: nat)
    requires n.Valid() && i < n.nodeMax && j < n.nodeMax && i != j
    ensures i < |n.mdata| && j < |n.mdata| && Apart(n.mdata[i], n.nodeSize, n.mdata[j], n.nodeSize)
    ensures n.mdata[i] % 8 == 0
  {
    if i < j {
      assert Apart(n.mdata[i], n.nodeSize, n.mdata[j], n.nodeSize);
    } else {
      assert Apart(n.mdata[j], n.nodeSize, n.mdata[i], n.nodeSize);
    }
  }

  /** Objects of up to `size` bytes placed one word into the buffers, as imem_gfp_alloc and imslab_set_new place
    * pages and headers, are aligned and never overlap.
    */
  lemma PoolObjects(n: Nodes, size: nat, i: nat, j: nat)
    requires n.Valid() && size + ROUND <= n.nodeSize && i < n.nodeMax && j < n.nodeMax && i != j
    ensures i < |n.mdata| && j < |n.mdata|
    ensures (n.mdata[i] + ROUND) % 8 == 0 && Apart(n.mdata[i] + ROUND, size, n.mdata[j] + ROUND, size)
  {
    BuffersApart(n, i, j);
  }

  /** From `hi` down, the buffers follow each other. */
  predicate Strided(data: seq<nat>, lo: nat, hi: nat, base: nat, size: nat) {
    hi <= |data| && forall k {:trigger data[k]} :: lo <= k < hi ==> data[k] == base + (hi - 1 - k) * size
  }

  lemma StridedNone(data: seq<nat>, hi: nat, base: nat, size: nat)
    requires hi <= |data|
    ensures Strided(data, hi, hi, base, size)
  {
  }

  lemma StridedMore(data: seq<nat>, lo: nat, hi: nat, base: nat, size: nat, p: nat)
    requires Strided(data, lo, hi, base, size) && 0 < lo <= hi && p == base + (hi - lo) * size
    ensures lo - 1 < |data| && Strided(data[lo - 1 := p], lo - 1, hi, base, size)
  {
    var data' := data[lo - 1 := p];
    forall k | lo - 1 <= k < hi ensures data'[k] == base + (hi - 1 - k) * size {
      if k >= lo { assert data'[k] == data[k]; }
    }
  }

  lemma RangeMore(lo: nat, hi: nat, rest: seq<nat>)
    requires lo < hi
    ensures [lo] + (Range(lo + 1, hi) + rest) == Range(lo, hi) + rest
  {
    assert Range(lo, hi) == [lo] + Range(lo + 1, hi);
  }

  /** A node number that is still to come. */
  lemma NotYet(x: nat, lo: nat, hi: nat, rest: seq<nat>, open: seq<nat>)
    requires x < lo <= hi && open == Range(lo, hi) + rest && x !in rest
    ensures x !in open
  {
    forall i | 0 <= i < |open| ensures open[i] != x {
      if i < hi - lo { assert open[i] == Range(lo, hi)[i]; } else { assert open[i] == rest[i - (hi - lo)]; }
    }
  }

  lemma Further(n: nat, size: nat)
    ensures (n + 1) * size == n * size + size
  {
  }

  lemma CoveredMore(lo: nat, hi: nat, rest: seq<nat>, open: seq<nat>, close: seq<nat>)
    requires lo <= hi && open == Range(lo, hi) + rest && Covered(rest, close, lo)
    ensures Covered(open, close, hi)
  {
    forall a: nat | lo <= a < hi ensures a in open {
      assert open[a - lo] == a;
    }
    assert forall a :: a in open ==> a in Range(lo, hi) || a in rest;
    assert forall a :: a in rest ==> a in open;
  }

  lemma CoveredBelow(open: seq<nat>, close: seq<nat>, n: nat, m: nat)
    requires Covered(open, close, n) && n <= m
    ensures forall a: nat :: a in open || a in close ==> a < m
  {
  }

  /** Modes and disjointness when position `k` of one list goes to the front of the other. */
  lemma ModesMoved(l: seq<nat>, m: seq<nat>, mode: seq<int>, k: nat, v: int)
    requires k < |l| && NoDup(l) && (forall a :: a in l ==> a !in m && a < |mode| && mode[a] == 1 - v)
    requires forall a :: a in m ==> a < |mode| && mode[a] == v
    ensures l[k] < |mode|
    ensures forall a :: a in Without(l, k) ==> a !in [l[k]] + m && a < |mode| && mode[l[k] := v][a] == 1 - v
    ensures forall a :: a in [l[k]] + m ==> a < |mode| && mode[l[k] := v][a] == v
  {
    WithoutMembers(l, k);
    assert l[k] in l;
  }

  lemma HeadTail(was: seq<nat>, rest: seq<nat>, x: nat)
    requires was == [x] + rest && NoDup(was)
    ensures x !in rest && forall a :: a in was <==> a == x || a in rest
  {
    forall i | 0 <= i < |rest| ensures rest[i] != x {
      assert was[i + 1] == rest[i] && was[0] != was[i + 1];
    }
  }

  ghost predicate Covered(open: seq<nat>, close: seq<nat>, n: nat) {
    forall a: nat :: a in open || a in close <==> a < n
  }

  lemma InRange(l: Lists)
    requires ListsOk(l)
    ensures forall a :: a in l.open || a in l.close ==> a < |l.next|
  {
  }

  lemma ListHead(l: seq<nat>, head: int, next: seq<int>, prev: seq<int>)
    requires Listed(l, head, next, prev)
    ensures head == (if l == [] then -1 else l[0])
  {
  }

  lemma ListIn(l: seq<nat>, head: int, next: seq<int>, prev: seq<int>)
    requires Listed(l, head, next, prev)
    ensures forall a :: a in l ==> a < |next|
  {
  }

  lemma BuffersGrown(data: seq<nat>, data': seq<nat>, start: nat, count: nat, size: nat, blocks: seq<Block>, b: Block,
                     mptr: nat)
    requires BuffersOk(data, start, size, blocks) && start + count <= |data'| && size % 8 == 0 && size > 0
    requires forall k :: 0 <= k < start ==> data'[k] == data[k]
    requires Strided(data', start, start + count, mptr, size)
    requires mptr % 8 == 0 && b.at <= mptr && mptr + count * size <= b.at + b.size
    requires forall c :: c in blocks ==> Disjoint(b, c)
    ensures BuffersOk(data', start + count, size, blocks + [b])
  {
    var n := start + count;
    forall i: nat | i < n ensures data'[i] % 8 == 0 && Inside(data'[i], size, blocks + [b]) {
      if i < start {
        assert data[i] == data'[i];
        StillInside(data[i], size, blocks, b);
      } else {
        Slot(mptr, n - 1 - i, count, size);
        NowInside(data'[i], size, blocks, b);
      }
    }
    hide Inside;
    forall i: nat, j: nat | i < j < n ensures Apart(data'[i], size, data'[j], size) {
      if j < start {
        assert data[i] == data'[i] && data[j] == data'[j];
      } else if i >= start {
        Steps(n - 1 - j, n - 1 - i, size);
      } else {
        assert data[i] == data'[i];
        Slot(mptr, n - 1 - j, count, size);
        OldAndNew(data[i], data'[j], size, blocks, b);
      }
    }
  }

  lemma NowInside(p: nat, size: nat, blocks: seq<Block>, b: Block)
    requires b.at <= p && p + size <= b.at + b.size
    ensures Inside(p, size, blocks + [b])
  {
    assert b in blocks + [b];
  }

  lemma BuffersSame(data: seq<nat>, data': seq<nat>, n: nat, size: nat, blocks: seq<Block>)
    requires BuffersOk(data, n, size, blocks) && n <= |data'| && forall k :: 0 <= k < n ==> data'[k] == data[k]
    ensures BuffersOk(data', n, size, blocks)
  {
  }

  lemma StillInside(p: nat, size: nat, blocks: seq<Block>, b: Block)
    requires Inside(p, size, blocks)
    ensures Inside(p, size, blocks + [b])
  {
    var c :| c in blocks && c.at <= p && p + size <= c.at + c.size;
    assert c in blocks + [b];
  }

  lemma OldAndNew(p: nat, q: nat, size: nat, blocks: seq<Block>, b: Block)
    requires Inside(p, size, blocks) && b.at <= q && q + size <= b.at + b.size
    requires forall c :: c in blocks ==> Disjoint(b, c)
    ensures Apart(p, size, q, size)
  {
    var c :| c in blocks && c.at <= p && p + size <= c.at + c.size;
    assert Disjoint(b, c);
  }

  lemma Slot(mptr: nat, k: nat, count: nat, size: nat)
    requires k < count && mptr % 8 == 0 && size % 8 == 0
    ensures (mptr + k * size) % 8 == 0 && mptr + k * size + size <= mptr + count * size
  {
    Steps(k, count, size);
    var m := size / 8;
    assert k * size == 8 * (k * m);
  }

  lemma Steps(j: nat, k: nat, size: nat)
    requires j < k
    ensures j * size + size <= k * size
  {
    assert (k - j - 1) * size >= 0;
    assert k * size == j * size + size + (k - j - 1) * size;
  }

  /** What imnode_new and imnode_del do to the links: position `k` of one list goes to the front of the other. */
  lemma Moved(l: seq<nat>, m: seq<nat>, headL: int, headM: int, next: seq<int>, prev: seq<int>, k: nat)
    requires Listed(l, headL, next, prev) && Listed(m, headM, next, prev) && NoDup(l) && NoDup(m)
    requires (forall a :: a in l ==> a !in m) && k < |l|
    ensures l[k] < |next| == |prev| && headM < |prev| && (k > 0 ==> l[k - 1] < |next|)
            && (k + 1 < |l| ==> l[k + 1] < |prev|)
    ensures next[l[k]] == (if k + 1 < |l| then l[k + 1] else -1) && prev[l[k]] == (if k > 0 then l[k - 1] else -1)
    ensures var x := l[k];
            var prev1 := if k + 1 < |l| then prev[l[k + 1] := prev[x]] else prev;
            var next1 := if k > 0 then next[l[k - 1] := next[x]] else next;
            var next2 := next1[x := headM];
            var prev2 := if headM >= 0 then prev1[x := -1][headM := x] else prev1[x := -1];
            Listed(Without(l, k), if k > 0 then headL else next[x], next2, prev2) && Listed([x] + m, x, next2, prev2)
  {
    var x := l[k];
    ListIn(l, headL, next, prev);
    ListIn(m, headM, next, prev);
    Ends(l, m, headM, k);
    var prev1 := if k + 1 < |l| then prev[l[k + 1] := prev[x]] else prev;
    var next1 := if k > 0 then next[l[k - 1] := next[x]] else next;
    Unlinked(l, headL, next, prev, k, next1, prev1);
    Untouched(m, headM, next, prev, next1, prev1);
    WithoutMembers(l, k);
    PushedOpen(m, Without(l, k), headM, if k > 0 then headL else next[x], next1, prev1, x);
  }

  lemma Ends(l: seq<nat>, m: seq<nat>, headM: int, k: nat)
    requires k < |l|
    ensures (k > 0 ==> l[k - 1] in l) && (k + 1 < |l| ==> l[k + 1] in l) && l[k] in l && (m != [] ==> m[0] in m)
  {
  }

  lemma WithoutMembers(l: seq<nat>, k: nat)
    requires NoDup(l) && k < |l|
    ensures NoDup(Without(l, k)) && forall a :: a in Without(l, k) <==> a in l && a != l[k]
  {
    var m := Without(l, k);
    forall i, j | 0 <= i < j < |m| ensures m[i] != m[j] {
      assert m[i] == l[if i < k then i else i + 1] && m[j] == l[if j < k then j else j + 1];
    }
    forall a ensures a in m <==> a in l && a != l[k] {
      if a in m {
        var i :| 0 <= i < |m| && m[i] == a;
        assert a == l[if i < k then i else i + 1];
      }
      if a in l && a != l[k] {
        var i :| 0 <= i < |l| && l[i] == a;
        assert a == m[if i < k then i else i - 1];
      }
    }
  }

  lemma PushedOpen(open: seq<nat>, close: seq<nat>, listOpen: int, listClose: int, next: seq<int>, prev: seq<int>,
                   i: nat)
    requires Listed(open, listOpen, next, prev) && Listed(close, listClose, next, prev) && NoDup(open)
    requires (forall a :: a in open ==> a !in close) && i < |next| == |prev| && i !in open && i !in close
    ensures listOpen >= 0 ==> listOpen < |prev|
    ensures var next' := next[i := listOpen];
            var prev' := if listOpen >= 0 then prev[i := -1][listOpen := i] else prev[i := -1];
            Listed([i] + open, i, next', prev') && Listed(close, listClose, next', prev')
  {
    var next' := next[i := listOpen];
    var prev' := if listOpen >= 0 && listOpen < |prev| then prev[i := -1][listOpen := i] else prev[i := -1];
    assert open != [] ==> open[0] in open;
    Pushed(open, listOpen, next, prev, i, next', prev');
    forall a | a in close ensures a < |next'| && a < |next| && next'[a] == next[a] && prev'[a] == prev[a] {
      var k :| 0 <= k < |close| && close[k] == a;
    }
    Untouched(close, listClose, next, prev, next', prev');
  }
}
