/** IVECTOR of kmem/imembase.c: a byte vector in a buffer of power-of-two capacity. */
module Vector {
  import Streams
  import opened Layout

  type byte = Streams.byte

  const LEAST: nat := 8                           // sizeof(char*)
  const HALF: nat := 0x8000_0000_0000_0000        // 2^63; above it the doubling loop would wrap around

  predicate IsPower(b: nat, k: nat) {
    b == Pow2(k)
  }

  /** The capacity for `n` bytes: a power of two, at least 8, at least n, and no larger than it must be. */
  ghost predicate BlockFor(b: nat, n: nat) {
    b >= LEAST && b >= n && (b == LEAST || b / 2 < n) && exists k: nat :: IsPower(b, k)
  }

  /** It is the least such power of two. */
  lemma BlockLeast(b: nat, n: nat, k: nat)
    requires BlockFor(b, n) && Pow2(k) >= n && Pow2(k) >= LEAST
    ensures b <= Pow2(k)
  {
    var j: nat :| IsPower(b, j);
    if k < j { PowersOrdered(k, j); } else if j < k { PowersOrdered(j, k); }
  }

  /** The early return of iv_resize: a larger size that still fits the buffer has the same capacity. */
  lemma BlockGrows(b: nat, n: nat, m: nat)
    requires BlockFor(b, n) && n <= m <= b
    ensures BlockFor(b, m)
  {
  }

  lemma BlockUnique(b: nat, c: nat, n: nat)
    requires BlockFor(b, n) && BlockFor(c, n)
    ensures b == c
  {
    var j: nat :| IsPower(b, j);
    var k: nat :| IsPower(c, k);
    BlockLeast(b, n, k);
    BlockLeast(c, n, j);
  }

  lemma {:induction false} PowerSum(j: nat, k: nat)
    ensures Pow2(j + k) == Pow2(j) * Pow2(k)
  {
    if j > 0 { PowerSum(j - 1, k); }
  }

  lemma Halves()
    ensures Pow2(3) == LEAST && Pow2(63) == HALF
  {
    assert Pow2(3) == 8;
    PowerSum(3, 4);
    PowerSum(7, 8);
    PowerSum(15, 16);
    PowerSum(31, 32);
    assert Pow2(4) == 16;
    PowerSum(4, 4);
    PowerSum(8, 8);
    PowerSum(16, 16);
    assert Pow2(7) == 128 && Pow2(8) == 256 && Pow2(15) == 0x8000 && Pow2(16) == 0x1_0000;
    assert Pow2(31) == 0x8000_0000 && Pow2(32) == 0x1_0000_0000;
  }

  class IVector {
    var data: array?<byte>
    var size: nat
    var block: nat

    /** block is 0 iff size is, and otherwise exactly the capacity for size bytes. */
    ghost predicate Valid()
      reads this, data
    {
      && (size == 0 <==> block == 0) && (block == 0 <==> data == null)
      && (data != null ==> data.Length == block && BlockFor(block, size))
      && size <= HALF
    }

    ghost function Contents(): (s: seq<byte>)
      requires Valid()
      reads this, data
      ensures |s| == size
    {
      if data == null then [] else data[..size]
    }

    /** iv_init */
    constructor ()
      ensures Valid() && size == 0 && data == null
    {
      data, size, block := null, 0, 0;
    }

    /** `for (nblock = sizeof(char*); nblock < newsize; ) nblock <<= 1;` */
    static method Doubled(newsize: nat) returns (nblock: nat)
      requires newsize <= HALF
      ensures BlockFor(nblock, newsize) && nblock <= HALF
    {
      Halves();
      nblock := LEAST;
      ghost var k: nat := 3;
      while nblock < newsize
        invariant IsPower(nblock, k) && LEAST <= nblock <= HALF && (nblock == LEAST || nblock / 2 < newsize)
        decreases newsize - nblock
      {
        if k >= 63 {
          if k > 63 { PowersOrdered(63, k); }
        } else {
          PowersOrdered(k, 63);
        }
        nblock := nblock * 2;
        k := k + 1;
      }
    }

    /** iv_resize; `room` says whether internal_malloc succeeds. The common prefix is kept; a failure changes nothing.
      */
    method Resize(newsize: nat, room: bool) returns (ret: int)
      requires Valid() && newsize <= HALF
      modifies this, data
      ensures Valid() && (data == old(data) || data == null || fresh(data))
      ensures ret == 0 || ret == -1
      ensures ret == 0 ==> size == newsize
      ensures ret == 0 ==> forall k :: 0 <= k < newsize && k < old(size) ==> Contents()[k] == old(Contents())[k]
      ensures ret != 0 ==>
                size == old(size) && block == old(block) && data == old(data)
                && Contents() == old(Contents())
      ensures ret == 0 <==> room || newsize == 0 || BlockFor(old(block), newsize)
    {
      if newsize >= size && newsize <= block {
        if data != null { BlockGrows(block, size, newsize); }
        size := newsize;
        return 0;
      }
      if newsize == 0 {
        if block > 0 {
          block, size, data := 0, 0, null;
        }
        return 0;
      }
      var nblock := Doubled(newsize);
      if nblock == block {
        size := newsize;
        return 0;
      }
      if !room {
        if BlockFor(block, newsize) { BlockUnique(block, nblock, newsize); }
        return -1;
      }
      var lptr := new byte[nblock];
      if data != null {
        var least := if size <= newsize then size else newsize;
        forall k | 0 <= k < least {
          lptr[k] := data[k];
        }
      }
      data, size, block := lptr, newsize, nblock;
      return 0;
    }

    /** iv_push; a null pointer only makes room. */
    method Push(bytes: seq<byte>, room: bool) returns (ret: int)
      requires Valid() && size + |bytes| <= HALF
      modifies this, data
      ensures Valid() && (data == old(data) || data == null || fresh(data))
      ensures ret == if room || old(size) + |bytes| == 0 || BlockFor(old(block), old(size) + |bytes|) then 0 else -1
      ensures Contents() == if ret == 0 then old(Contents()) + bytes else old(Contents())
    {
      var current := size;
      ret := Resize(current + |bytes|, room);
      if ret != 0 { return -1; }
      if |bytes| > 0 {
        forall k | 0 <= k < |bytes| {
          data[current + k] := bytes[k];
        }
      }
      assert forall k :: 0 <= k < current ==> Contents()[k] == old(Contents())[k];
    }

    /** iv_pop. The bytes reported stay where they are exactly when a smaller buffer is needed and cannot be had. */
    method Pop(want: nat, room: bool) returns (count: nat, bytes: seq<byte>)
      requires Valid()
      modifies this, data
      ensures Valid() && (data == old(data) || data == null || fresh(data))
      ensures count == |bytes| == if want >= old(size) then old(size) else want
      ensures bytes == old(Contents())[old(size) - count..]
      ensures Contents() == if room || count == old(size) || BlockFor(old(block), old(size) - count)
                            then old(Contents())[..old(size) - count] else old(Contents())
    {
      var current := size;
      count := if want >= current then current else want;
      bytes := if data == null then [] else data[current - count..current];
      ghost var was := Contents();
      var ret := Resize(current - count, room);
      if ret == 0 { assert Contents() == was[..current - count]; }
    }

    /** iv_erase. When the smaller buffer cannot be had, the tail has moved but its old copy is still at the end. */
    method Erase(pos: nat, count: nat, room: bool) returns (ret: int)
      requires Valid()
      modifies this, data
      ensures Valid()
      ensures pos >= old(size) ==> ret == 0 && Contents() == old(Contents())
      ensures pos < old(size) ==>
                var was := old(Contents());
                var n := if pos + count >= old(size) then old(size) - pos else count;
                && ret == (if room || n == old(size) || n == 0 || BlockFor(old(block), old(size) - n) then 0 else -1)
                && (ret == 0 ==> Contents() == was[..pos] + was[pos + n..])
                && (ret != 0 ==> Contents() == was[..pos] + was[pos + n..] + was[old(size) - n..])
    {
      hide BlockFor, Shifted;
      var current := size;
      ghost var was := Contents();
      if pos >= current { return 0; }
      var n := if pos + count >= current then current - pos else count;
      if n == 0 {
        assert was == was[..pos] + was[pos..];
        return 0;
      }
      Slide(pos, n);
      ghost var moved := Contents();
      Slid(was, moved, pos, n);
      ret := Resize(current - n, room);
      if ret == 0 { Cut(moved, Contents(), was[..pos] + was[pos + n..]); }
    }

    /** memmove(data + pos, data + pos + n, size - pos - n) */
    method Slide(pos: nat, n: nat)
      requires Valid() && pos + n <= size && data != null
      modifies data
      ensures Valid() && Shifted(old(Contents()), Contents(), pos, n)
    {
      forall k | pos <= k < size - n {
        data[k] := data[k + n];
      }
    }
  }

  /** A buffer of 16 bytes with 9 in it: popping one asks for a buffer of 8, and without one the byte stays. */
  method PopLeavesAll() returns (v: IVector, bytes: seq<byte>)
    ensures fresh(v) && v.Valid() && |v.Contents()| == 9 && bytes == [9]
    ensures v.Contents() == [1, 2, 3, 4, 5, 6, 7, 8, 9]
  {
    v := new IVector();
    var ret := v.Push([1, 2, 3, 4, 5, 6, 7, 8, 9], true);
    var count;
    NineInSixteen(v.block);
    count, bytes := v.Pop(1, false);
  }

  lemma NineInSixteen(block: nat)
    requires BlockFor(block, 9)
    ensures block == 16 && !BlockFor(block, 8)
  {
    assert Pow2(4) == 16;
    assert IsPower(16, 4);
    BlockUnique(block, 16, 9);
  }

  predicate Shifted(was: seq<byte>, now: seq<byte>, pos: nat, n: nat) {
    |now| == |was| &&
    forall k {:trigger now[k]} :: 0 <= k < |was| ==> now[k] == if pos <= k && k + n < |was| then was[k + n] else was[k]
  }

  lemma Slid(was: seq<byte>, now: seq<byte>, pos: nat, n: nat)
    requires pos + n <= |was| && Shifted(was, now, pos, n)
    ensures now == was[..pos] + was[pos + n..] + was[|was| - n..]
  {
    var r := was[..pos] + was[pos + n..] + was[|was| - n..];
    forall k | 0 <= k < |was| ensures now[k] == r[k] {
      if k < pos {
        assert r[k] == was[k];
      } else if k < |was| - n {
        assert r[k] == was[pos + n..][k - pos] == was[k + n];
      } else {
        assert r[k] == was[|was| - n..][k - (|was| - n)] == was[k];
      }
    }
  }

  lemma Cut(moved: seq<byte>, now: seq<byte>, kept: seq<byte>)
    requires |kept| == |now| <= |moved| && moved[..|kept|] == kept
    requires forall k :: 0 <= k < |now| ==> now[k] == moved[k]
    ensures now == kept
  {
    assert forall k :: 0 <= k < |now| ==> now[k] == moved[..|kept|][k];
  }
}
