/** Byte streams and the length-prefixed record format of the spill file. */
module Streams {
  type byte = b: int | 0 <= b < 256

  /** The bytes of a text in ASCII; other characters do not occur. */
  function Ascii(s: string): (r: seq<byte>)
    ensures |r| == |s|
  {
    seq(|s|, i requires 0 <= i < |s| => if s[i] as int < 128 then s[i] as int else 0)
  }

  const WORD: nat := 8  // sizeof(size_t)
  const SIZE_LIMIT: nat := 0x1_0000_0000_0000_0000

  function Concat(chunks: seq<seq<byte>>): seq<byte> {
    if chunks == [] then [] else chunks[0] + Concat(chunks[1..])
  }

  lemma {:induction false} ConcatAppend(a: seq<seq<byte>>, b: seq<seq<byte>>)
    ensures Concat(a + b) == Concat(a) + Concat(b)
  {
    if a == [] {
      assert a + b == b;
    } else {
      ConcatAppend(a[1..], b);
      assert (a + b)[1..] == a[1..] + b;
      assert a[0] + (Concat(a[1..]) + Concat(b)) == Concat(a) + Concat(b);
    }
  }

  lemma ConcatLast(a: seq<seq<byte>>, x: seq<byte>)
    ensures Concat(a + [x]) == Concat(a) + x
  {
    ConcatAppend(a, [x]);
    assert Concat([x]) == x;
  }

  // ---------- size_t as bytes, least significant first ----------

  function Little(n: nat, count: nat): (r: seq<byte>)
    ensures |r| == count
  {
    if count == 0 then [] else [n % 256] + Little(n / 256, count - 1)
  }

  function Value(bytes: seq<byte>): nat {
    if bytes == [] then 0 else bytes[0] + 256 * Value(bytes[1..])
  }

  function Power(count: nat): (p: nat)
    ensures p > 0
  {
    if count == 0 then 1 else 256 * Power(count - 1)
  }

  lemma {:induction false} LittleValue(n: nat, count: nat)
    requires n < Power(count)
    ensures Value(Little(n, count)) == n
  {
    if count > 0 { LittleValue(n / 256, count - 1); }
  }

  function LengthPrefix(n: nat): (r: seq<byte>)
    ensures |r| == WORD
  {
    Little(n, WORD)
  }

  lemma PrefixValue(n: nat)
    requires n < SIZE_LIMIT
    ensures Value(LengthPrefix(n)) == n
  {
    assert Power(8) == SIZE_LIMIT by {
      assert Power(4) == 0x1_0000_0000;
      assert Power(6) == 0x1_0000_0000 * 65536;
    }
    LittleValue(n, WORD);
  }

  // ---------- records ----------

  /** Eight bytes, the least significant first. */
  lemma PrefixExample()
    ensures LengthPrefix(0x010302) == [2, 3, 1, 0, 0, 0, 0, 0]
  {
    assert Little(0, 5) == [0] + Little(0, 4) == [0, 0] + Little(0, 3);
    assert Little(0, 3) == [0, 0, 0];
  }

  function Record(data: seq<byte>): (r: seq<byte>)
    ensures |r| == WORD + |data|
  {
    LengthPrefix(|data|) + data
  }

  function Records(chunks: seq<seq<byte>>): seq<byte> {
    if chunks == [] then [] else Record(chunks[0]) + Records(chunks[1..])
  }

  predicate Storable(data: seq<byte>) {
    0 < |data| < SIZE_LIMIT
  }

  lemma {:induction false} RecordsLast(chunks: seq<seq<byte>>, x: seq<byte>)
    ensures Records(chunks + [x]) == Records(chunks) + Record(x)
  {
    if chunks == [] {
      assert chunks + [x] == [x];
      assert Records([x]) == Record(x) + Records([]);
    } else {
      RecordsLast(chunks[1..], x);
      assert (chunks + [x])[1..] == chunks[1..] + [x];
    }
  }

  /** Reading the prefix at the start of a run of records gives the length of the first one, and what follows
    * the prefix is that record, then the rest.
    */
  lemma FirstRecord(file: seq<byte>, pos: nat, chunks: seq<seq<byte>>)
    requires pos <= |file| && file[pos..] == Records(chunks) && chunks != [] && Storable(chunks[0])
    ensures pos + WORD + |chunks[0]| <= |file|
    ensures Value(file[pos..pos + WORD]) == |chunks[0]|
    ensures file[pos + WORD..pos + WORD + |chunks[0]|] == chunks[0]
    ensures file[pos..pos + WORD + |chunks[0]|] == Record(chunks[0])
    ensures file[pos + WORD + |chunks[0]|..] == Records(chunks[1..])
  {
    hide Value, LengthPrefix, Little;
    var x := chunks[0];
    var a, rest := LengthPrefix(|x|), Records(chunks[1..]);
    RecordParts(chunks);
    Slices(file, pos, a, x, rest);
    PrefixValue(|x|);
  }

  lemma RecordParts(chunks: seq<seq<byte>>)
    requires chunks != []
    ensures Records(chunks) == LengthPrefix(|chunks[0]|) + chunks[0] + Records(chunks[1..])
    ensures Record(chunks[0]) == LengthPrefix(|chunks[0]|) + chunks[0]
  {
    hide LengthPrefix;
  }

  lemma Slices(file: seq<byte>, pos: nat, a: seq<byte>, b: seq<byte>, c: seq<byte>)
    requires pos <= |file| && file[pos..] == a + b + c
    ensures pos + |a| + |b| <= |file|
    ensures file[pos..pos + |a|] == a && file[pos + |a|..pos + |a| + |b|] == b
    ensures file[pos..pos + |a| + |b|] == a + b && file[pos + |a| + |b|..] == c
  {
    var rest := file[pos..];
    assert |rest| == |a| + |b| + |c|;
    Part(file, pos, 0, |a|);
    Part(file, pos, |a|, |a| + |b|);
    Part(file, pos, 0, |a| + |b|);
    assert rest[..|a|] == a && rest[|a|..|a| + |b|] == b && rest[..|a| + |b|] == a + b;
    assert file[pos + |a| + |b|..] == rest[|a| + |b|..] == c;
  }

  lemma Part(file: seq<byte>, pos: nat, lo: nat, hi: nat)
    requires pos <= |file| && lo <= hi <= |file| - pos
    ensures file[pos + lo..pos + hi] == file[pos..][lo..hi]
  {
  }

  /** The records of a file are read back as they were written: no two lists of chunks give the same bytes. */
  lemma {:induction false} RecordsInjective(a: seq<seq<byte>>, b: seq<seq<byte>>)
    requires forall r :: r in a || r in b ==> Storable(r)
    requires Records(a) == Records(b)
    ensures a == b
  {
    var file := Records(a);
    assert file[0..] == file;
    if a != [] && b != [] {
      assert a[0] in a && b[0] in b;
      FirstRecord(file, 0, a);
      FirstRecord(file, 0, b);
      RecordsInjective(a[1..], b[1..]);
      assert a == [a[0]] + a[1..] && b == [b[0]] + b[1..];
    }
  }
}
