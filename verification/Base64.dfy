/** Base64Encode and Base64Decode of src/proxy_common.cpp, against section 4 of RFC 4648. */
module Base64 {
  type byte = bv8

  const PAD: byte := 61  // '='

  // ---------- the tables ----------

  /** B64_ENCODE_TABLE: A-Z, a-z, 0-9, +, / */
  function EncodeChar(v: byte): (c: byte)
    requires v < 64
  {
    if v < 26 then v + 65 else if v < 52 then v + 71 else if v < 62 then v - 4 else if v == 62 then 43 else 47
  }

  /** Whether B64_DECODE_TABLE has a value for this byte. */
  predicate InAlphabet(c: byte) {
    65 <= c <= 90 || 97 <= c <= 122 || 48 <= c <= 57 || c == 43 || c == 47
  }

  function DecodeChar(c: byte): (v: byte)
    requires InAlphabet(c)
    ensures v < 64
  {
    if 65 <= c <= 90 then c - 65 else if 97 <= c <= 122 then c - 71 else if 48 <= c <= 57 then c + 4
    else if c == 43 then 62 else 63
  }

  lemma TablesInverse(v: byte)
    requires v < 64
    ensures InAlphabet(EncodeChar(v)) && DecodeChar(EncodeChar(v)) == v && EncodeChar(v) < 128
  {
  }

  lemma TablesInverseBack(c: byte)
    requires InAlphabet(c)
    ensures EncodeChar(DecodeChar(c)) == c
  {
  }

  /** The alphabet of section 4 of RFC 4648, in its order. */
  const CAPITALS: string := "ABCDEFGHIJKLM" + "NOPQRSTUVWXYZ"
  const SMALLS: string := "abcdefghijklm" + "nopqrstuvwxyz"
  const DIGITS: string := "0123456789"
  const ALPHABET: string := CAPITALS + SMALLS + DIGITS + "+/"

  /** Characters in a row of the ASCII code. */
  predicate InRow(s: string, first: char) {
    forall i :: 0 <= i < |s| ==> s[i] as int == first as int + i
  }

  lemma CapitalRow()
    ensures |CAPITALS| == 26 && InRow(CAPITALS, 'A')
  {
    assert InRow("ABCDEFGHIJKLM", 'A') && InRow("NOPQRSTUVWXYZ", 'N');
  }

  lemma SmallRow()
    ensures |SMALLS| == 26 && InRow(SMALLS, 'a')
  {
    assert InRow("abcdefghijklm", 'a') && InRow("nopqrstuvwxyz", 'n');
  }

  lemma DigitRow()
    ensures |DIGITS| == 10 && InRow(DIGITS, '0')
  {
  }

  lemma AlphabetAt(i: nat)
    requires i < 64
    ensures |ALPHABET| == 64
    ensures ALPHABET[i] as int ==
            if i < 26 then 'A' as int + i else if i < 52 then 'a' as int + (i - 26)
            else if i < 62 then '0' as int + (i - 52) else if i == 62 then '+' as int else '/' as int
  {
    CapitalRow();
    SmallRow();
    DigitRow();
    hide InRow;
    if i < 26 {
      assert ALPHABET[i] == CAPITALS[i];
      RowAt(CAPITALS, 'A', i);
    } else if i < 52 {
      assert ALPHABET[i] == SMALLS[i - 26];
      RowAt(SMALLS, 'a', i - 26);
    } else if i < 62 {
      assert ALPHABET[i] == DIGITS[i - 52];
      RowAt(DIGITS, '0', i - 52);
    } else {
      assert ALPHABET[i] == "+/"[i - 62];
    }
  }

  lemma RowAt(s: string, first: char, i: nat)
    requires InRow(s, first) && i < |s|
    ensures s[i] as int == first as int + i
  {
  }

  /** The tables are those of the RFC: value `v` stands for the character at place `v`, and nothing else decodes. */
  lemma TablesAreTheAlphabet(v: byte, c: byte)
    ensures |ALPHABET| == 64
    ensures v < 64 ==> EncodeChar(v) as int == ALPHABET[v as int] as int
    ensures InAlphabet(c) <==> exists i :: 0 <= i < 64 && ALPHABET[i] as int == c as int
    ensures InAlphabet(c) ==> ALPHABET[DecodeChar(c) as int] as int == c as int
    ensures PAD as int == '=' as int
  {
    AlphabetAt(0);
    hide ALPHABET;
    if v < 64 { AlphabetAt(v as int); }
    if InAlphabet(c) { AlphabetAt(DecodeChar(c) as int); }
    if i :| 0 <= i < 64 && ALPHABET[i] as int == c as int {
      AlphabetAt(i);
      assert InAlphabet(c);
    }
  }

  // ---------- groups of bits ----------

  /** The four 6-bit groups of three bytes. */
  function Six0(a: byte): (v: byte) ensures v < 64 { a >> 2 }
  function Six1(a: byte, b: byte): (v: byte) ensures v < 64 { ((a & 3) << 4) | (b >> 4) }
  function Six2(b: byte, c: byte): (v: byte) ensures v < 64 { ((b & 0xf) << 2) | (c >> 6) }
  function Six3(c: byte): (v: byte) ensures v < 64 { c & 0x3f }

  /** The three bytes of four groups. */
  function Eight0(u: byte, v: byte): byte { (u << 2) | ((v & 0x30) >> 4) }
  function Eight1(u: byte, v: byte): byte { ((u & 0xf) << 4) | ((v & 0x3c) >> 2) }
  function Eight2(u: byte, v: byte): byte { ((u & 0x03) << 6) | v }

  lemma GroupsInverse(a: byte, b: byte, c: byte)
    ensures Eight0(Six0(a), Six1(a, b)) == a
    ensures Eight1(Six1(a, b), Six2(b, c)) == b
    ensures Eight2(Six2(b, c), Six3(c)) == c
  {
  }

  predicate SixBits(v: seq<byte>) {
    forall i :: 0 <= i < |v| ==> v[i] < 64
  }

  function Group(x: seq<byte>): (r: seq<byte>)
    requires |x| >= 3
    ensures SixBits(r) && |r| == 4
  {
    [Six0(x[0]), Six1(x[0], x[1]), Six2(x[1], x[2]), Six3(x[2])]
  }

  /** The 6-bit groups of a byte string, the last one padded with zero bits. */
  function Sextets(x: seq<byte>): (r: seq<byte>)
    ensures SixBits(r) && |r| == (4 * |x| + 2) / 3
  {
    if |x| == 0 then []
    else if |x| == 1 then [Six0(x[0]), Six1(x[0], 0)]
    else if |x| == 2 then [Six0(x[0]), Six1(x[0], x[1]), Six2(x[1], 0)]
    else Group(x) + Sextets(x[3..])
  }

  function Trio(v: seq<byte>): (r: seq<byte>)
    requires |v| >= 4
    ensures |r| == 3
  {
    [Eight0(v[0], v[1]), Eight1(v[1], v[2]), Eight2(v[2], v[3])]
  }

  /** The bytes that a run of 6-bit groups holds in full. */
  function Octets(v: seq<byte>): (r: seq<byte>)
    ensures |r| == 3 * |v| / 4
  {
    if |v| < 2 then []
    else if |v| == 2 then [Eight0(v[0], v[1])]
    else if |v| == 3 then [Eight0(v[0], v[1]), Eight1(v[1], v[2])]
    else Trio(v) + Octets(v[4..])
  }

  /** Splitting into groups loses nothing. */
  lemma {:induction false} OctetsOfSextets(x: seq<byte>)
    ensures Octets(Sextets(x)) == x
  {
    hide Six0, Six1, Six2, Six3, Eight0, Eight1, Eight2;
    if |x| == 0 {
    } else if |x| == 1 {
      GroupsInverse(x[0], 0, 0);
    } else if |x| == 2 {
      GroupsInverse(x[0], x[1], 0);
    } else {
      GroupsInverse(x[0], x[1], x[2]);
      OctetsOfSextets(x[3..]);
      assert Sextets(x)[4..] == Sextets(x[3..]);
      assert x == [x[0], x[1], x[2]] + x[3..];
    }
  }

  // ---------- the encoding ----------

  function Chars(v: seq<byte>): (r: seq<byte>)
    requires SixBits(v)
    ensures |r| == |v|
  {
    seq(|v|, i requires 0 <= i < |v| => EncodeChar(v[i]))
  }

  function Pads(n: nat): (r: seq<byte>)
    ensures |r| == n && forall c :: c in r ==> c == PAD
  {
    if n == 0 then [] else [PAD] + Pads(n - 1)
  }

  /** Section 4 of RFC 4648. */
  function Rfc(x: seq<byte>): seq<byte> {
    Chars(Sextets(x)) + Pads(if |x| % 3 == 0 then 0 else 3 - |x| % 3)
  }

  /** An example of section 10 of the RFC: "foobar" becomes "Zm9vYmFy", and "fo" becomes "Zm8=". */
  lemma Foobar()
    ensures Rfc([102, 111, 111, 98, 97, 114]) == [90, 109, 57, 118, 89, 109, 70, 121]
    ensures Rfc([102, 111]) == [90, 109, 56, 61]
  {
    var x: seq<byte> := [102, 111, 111, 98, 97, 114];
    assert x[3..] == [98, 97, 114] && x[3..][3..] == [];
    assert Sextets(x[3..]) == Group([98, 97, 114]) + Sextets([]) == [24, 38, 5, 50];
    assert Sextets(x) == Group(x) + [24, 38, 5, 50] == [25, 38, 61, 47, 24, 38, 5, 50];
    assert Sextets([102, 111]) == [25, 38, 60];
    assert Pads(1) == [PAD] + Pads(0) == [61];
  }

  /** What Base64Encode writes: three pads where there should be none. */
  function Encoded(x: seq<byte>): seq<byte> {
    if x == [] then [] else Chars(Sextets(x)) + Pads(3 - |x| % 3)
  }

  lemma MatchesRfc(x: seq<byte>)
    ensures Encoded(x) == Rfc(x) <==> |x| == 0 || |x| % 3 != 0
    ensures |x| > 0 && |x| % 3 == 0 ==> Encoded(x) == Rfc(x) + Pads(3)
  {
    if |x| == 0 {
      assert Chars(Sextets(x)) + Pads(0) == [];
    } else if |x| % 3 == 0 {
      assert Chars(Sextets(x)) + [] == Chars(Sextets(x));
      assert |Encoded(x)| == |Rfc(x)| + 3;
    }
  }

  /** The bound the source's comment gives. */
  lemma SafeMargin(x: seq<byte>, size: int)
    requires size >= 3 * |x| / 2 + 5
    ensures |Encoded(x)| <= size
  {
  }

  // ---------- the encoder ----------

  /** The group that `b` completes, and the group it begins, in each phase of the loop. */
  function Completed(phase: nat, last: byte, b: byte): byte {
    if phase == 0 then b >> 2 else if phase == 1 then last | (b >> 4) else last | (b >> 6)
  }

  function Begun(phase: nat, b: byte): byte {
    if phase == 0 then (b & 0x3) << 4 else if phase == 1 then (b & 0xf) << 2 else b & 0x3f
  }

  /** What one more byte makes of the groups. */
  function Grown(v: seq<byte>, phase: nat, b: byte): seq<byte>
    requires phase > 0 ==> v != []
  {
    if phase == 0 then v + [Completed(0, 0, b), Begun(0, b)]
    else v[..|v| - 1] + [Completed(phase, v[|v| - 1], b), Begun(phase, b)]
  }

  lemma Bits(a: byte, b: byte)
    ensures Completed(0, 0, b) == Six0(b) && Begun(0, b) == Six1(b, 0)
    ensures Completed(1, Six1(a, 0), b) == Six1(a, b) && Begun(1, b) == Six2(b, 0)
    ensures Completed(2, Six2(a, 0), b) == Six2(a, b) && Begun(2, b) == Six3(b)
  {
  }

  lemma FirstByte(b: byte)
    ensures Sextets([]) == [] && Sextets([b]) == Grown(Sextets([]), 0, b)
  {
    hide Six0, Six1, Six2, Six3, Completed, Begun;
    Bits(0, b);
  }

  lemma SecondByte(a: byte, b: byte)
    ensures Sextets([a]) != [] && Sextets([a, b]) == Grown(Sextets([a]), 1, b)
  {
    hide Six0, Six1, Six2, Six3, Completed, Begun;
    Bits(a, b);
    assert Sextets([a])[..1] == [Six0(a)];
  }

  lemma ThirdByte(a: byte, b: byte, c: byte)
    ensures Sextets([a, b]) != [] && Sextets([a, b, c]) == Grown(Sextets([a, b]), 2, c)
  {
    hide Six0, Six1, Six2, Six3, Completed, Begun;
    Bits(b, c);
    assert [a, b, c][3..] == [];
    assert Sextets([a, b])[..2] == [Six0(a), Six1(a, b)];
  }

  lemma {:induction false} OneMore(p: seq<byte>, b: byte)
    ensures |p| % 3 > 0 ==> Sextets(p) != []
    ensures Sextets(p + [b]) == Grown(Sextets(p), |p| % 3, b)
  {
    hide Six0, Six1, Six2, Six3, Completed, Begun, Grown, Sextets;
    if |p| == 0 {
      assert p == [] && p + [b] == [b];
      FirstByte(b);
    } else if |p| == 1 {
      assert p == [p[0]] && p + [b] == [p[0], b];
      SecondByte(p[0], b);
    } else if |p| == 2 {
      assert p == [p[0], p[1]] && p + [b] == [p[0], p[1], b];
      ThirdByte(p[0], p[1], b);
    } else {
      OneMore(p[3..], b);
      OneMoreGroup(p, b);
    }
  }

  lemma OneMoreGroup(p: seq<byte>, b: byte)
    requires |p| >= 3 && (|p| % 3 > 0 ==> Sextets(p[3..]) != [])
    requires Sextets(p[3..] + [b]) == Grown(Sextets(p[3..]), |p| % 3, b)
    ensures Sextets(p) != [] && Sextets(p + [b]) == Grown(Sextets(p), |p| % 3, b)
  {
    hide Group, Grown, Sextets, SixBits;
    var phase := |p| % 3;
    GroupThen(p);
    GroupThen(p + [b]);
    SameGroup(p, b);
    GrownTail(Group(p), Sextets(p[3..]), phase, b);
  }

  lemma SameGroup(p: seq<byte>, b: byte)
    requires |p| >= 3
    ensures Group(p + [b]) == Group(p) && (p + [b])[3..] == p[3..] + [b]
  {
    hide Six0, Six1, Six2, Six3, SixBits;
  }

  lemma GroupThen(x: seq<byte>)
    requires |x| >= 3
    ensures Sextets(x) == Group(x) + Sextets(x[3..])
  {
    hide Group, SixBits, Six0, Six1, Six2, Six3;
  }

  lemma GrownTail(head: seq<byte>, v: seq<byte>, phase: nat, b: byte)
    requires phase > 0 ==> v != []
    ensures Grown(head + v, phase, b) == head + Grown(v, phase, b)
  {
    hide Completed, Begun;
    if phase > 0 {
      assert (head + v)[..|head + v| - 1] == head + v[..|v| - 1];
    }
  }

  /** `if (space_idx < size) space[space_idx++] = c; else return -1;` */
  method Put(space: array<byte>, idx: nat, size: nat, c: byte) returns (ok: bool)
    requires idx <= size <= space.Length
    modifies space
    ensures ok <==> idx < size
    ensures ok ==> space[idx] == c
    ensures forall k :: 0 <= k < space.Length && k != idx ==> space[k] == old(space[k])
  {
    if idx < size {
      space[idx] := c;
      return true;
    }
    return false;
  }

  /** One turn of the encoding loop. It reads the character it wrote last back through the decoding table. */
  method EncodeByte(b: byte, phase: nat, space: array<byte>, idx: nat, size: nat, ghost v: seq<byte>)
      returns (ok: bool, idx': nat)
    requires phase < 3 && (phase > 0 ==> v != []) && SixBits(v) && SixBits(Grown(v, phase, b))
    requires idx == |v| <= size <= space.Length && space[..idx] == Chars(v)
    modifies space
    ensures ok <==> |Grown(v, phase, b)| <= size
    ensures ok ==> idx' == |Grown(v, phase, b)| && space[..idx'] == Chars(Grown(v, phase, b))
    ensures ok ==> forall k :: idx' <= k < space.Length ==> space[k] == old(space[k])
  {
    hide EncodeChar, DecodeChar, InAlphabet, Grown, Chars, SixBits;
    ghost var was := space[..];
    Fits(v, phase, b);
    idx' := idx;
    if phase == 0 {
      ok := Put(space, idx', size, EncodeChar(b >> 2));
      if !ok { return; }
      idx' := idx' + 1;
      ok := Put(space, idx', size, EncodeChar((b & 0x3) << 4));
    } else {
      LastChar(was, v);
      if phase == 1 {
        space[idx - 1] := EncodeChar(DecodeChar(space[idx - 1]) | (b >> 4));
        ok := Put(space, idx', size, EncodeChar((b & 0xf) << 2));
      } else {
        space[idx - 1] := EncodeChar(DecodeChar(space[idx - 1]) | (b >> 6));
        ok := Put(space, idx', size, EncodeChar(b & 0x3f));
      }
    }
    if ok {
      idx' := idx' + 1;
      CharsGrown(was, space[..], v, phase, b);
    }
  }

  lemma Fits(v: seq<byte>, phase: nat, b: byte)
    requires phase < 3 && (phase > 0 ==> v != []) && SixBits(Grown(v, phase, b))
    ensures |Grown(v, phase, b)| == |v| + if phase == 0 then 2 else 1
    ensures var w := Grown(v, phase, b); var n := |w|;
            && w[n - 2] < 64 && w[n - 1] < 64
            && (phase == 0 ==> w[n - 2] == b >> 2 && w[n - 1] == (b & 0x3) << 4)
            && (phase == 1 ==> w[n - 2] == v[|v| - 1] | (b >> 4) && w[n - 1] == (b & 0xf) << 2)
            && (phase == 2 ==> w[n - 2] == v[|v| - 1] | (b >> 6) && w[n - 1] == b & 0x3f)
  {
  }

  lemma LastChar(space: seq<byte>, v: seq<byte>)
    requires SixBits(v) && 0 < |v| <= |space| && space[..|v|] == Chars(v)
    ensures InAlphabet(space[|v| - 1]) && DecodeChar(space[|v| - 1]) == v[|v| - 1]
  {
    assert space[|v| - 1] == space[..|v|][|v| - 1];
    TablesInverse(v[|v| - 1]);
  }

  lemma CharsGrown(was: seq<byte>, now: seq<byte>, v: seq<byte>, phase: nat, b: byte)
    requires phase < 3 && (phase > 0 ==> v != []) && SixBits(v) && SixBits(Grown(v, phase, b))
    requires |was| == |now| >= |Grown(v, phase, b)| && was[..|v|] == Chars(v)
    requires var w := Grown(v, phase, b); var n := |w|;
             n >= 2 && now[n - 2] == EncodeChar(w[n - 2]) && now[n - 1] == EncodeChar(w[n - 1])
             && forall k :: 0 <= k < n - 2 ==> now[k] == was[k]
    ensures now[..|Grown(v, phase, b)|] == Chars(Grown(v, phase, b))
  {
    hide EncodeChar, Completed, Begun;
    var w := Grown(v, phase, b);
    forall k | 0 <= k < |w| ensures now[k] == Chars(w)[k] {
      if k < |w| - 2 {
        assert now[k] == was[k] == was[..|v|][k] == Chars(v)[k] && w[k] == v[k];
      }
    }
  }

  /** Base64Encode: -1 exactly when the result does not fit. */
  method Base64Encode(ptr: seq<byte>, len: int, space: array<byte>, size: int) returns (ret: int)
    requires len <= |ptr| && size <= space.Length
    modifies space
    ensures len < 0 || size < 0 ==> ret == -1 && space[..] == old(space[..])
    ensures len >= 0 && size >= 0 ==>
              var e := Encoded(ptr[..len]);
              ret == (if |e| <= size then |e| else -1) && (|e| <= size ==> space[..] == e + old(space[..])[|e|..])
  {
    hide Sextets, Chars, SixBits, Pads;
    if len < 0 || size < 0 { return -1; }
    if len == 0 {
      assert space[..] == [] + old(space[..])[0..];
      return 0;
    }
    var ok, idx, phase := EncodeBytes(ptr[..len], space, size);
    if !ok { return -1; }
    ok, idx := PadOut(space, idx, phase, size);
    if !ok { return -1; }
    Spliced(space[..], old(space[..]), Encoded(ptr[..len]));
    return idx;
  }

  /** The encoding loop. */
  method EncodeBytes(x: seq<byte>, space: array<byte>, size: nat) returns (ok: bool, idx: nat, phase: nat)
    requires size <= space.Length
    modifies space
    ensures ok <==> |Sextets(x)| <= size
    ensures ok ==> idx == |Sextets(x)| && phase == |x| % 3 && space[..idx] == Chars(Sextets(x))
    ensures ok ==> forall k :: idx <= k < space.Length ==> space[k] == old(space[k])
  {
    hide Sextets, Chars, SixBits, Grown;
    idx, phase, ok := 0, 0, true;
    var i := 0;
    assert space[..0] == Chars(Sextets(x[..0]));
    while i < |x|
      invariant 0 <= i <= |x| && phase == i % 3
      invariant idx == |Sextets(x[..i])| <= size
      invariant space[..idx] == Chars(Sextets(x[..i]))
      invariant forall k :: idx <= k < space.Length ==> space[k] == old(space[k])
    {
      ghost var p := x[..i];
      assert x[..i + 1] == p + [x[i]];
      OneMore(p, x[i]);
      ok, idx := EncodeByte(x[i], phase, space, idx, size, Sextets(p));
      if !ok { return; }
      phase := if phase == 2 then 0 else phase + 1;
      i := i + 1;
    }
    assert x[..i] == x;
    ok := true;
  }

  lemma Spliced(now: seq<byte>, was: seq<byte>, e: seq<byte>)
    requires |e| <= |now| == |was| && now[..|e|] == e && forall k :: |e| <= k < |now| ==> now[k] == was[k]
    ensures now == e + was[|e|..]
  {
  }

  /** `while (phase++ < 3)`: the padding. */
  method PadOut(space: array<byte>, idx: nat, phase: nat, size: nat) returns (ok: bool, idx': nat)
    requires idx <= size <= space.Length && phase < 3
    modifies space
    ensures ok <==> idx + (3 - phase) <= size
    ensures ok ==> idx' == idx + (3 - phase) && space[..idx'] == old(space[..idx]) + Pads(3 - phase)
    ensures ok ==> forall k :: idx' <= k < space.Length ==> space[k] == old(space[k])
  {
    hide Pads;
    var ph := phase;
    idx' := idx;
    MorePads(0);
    while ph < 3
      invariant phase <= ph <= 3 && idx' == idx + (ph - phase) <= size
      invariant space[..idx'] == old(space[..idx]) + Pads(ph - phase)
      invariant forall k :: idx' <= k < space.Length ==> space[k] == old(space[k])
    {
      MorePads(ph - phase);
      ghost var was := space[..idx'];
      ok := Put(space, idx', size, PAD);
      if !ok { return; }
      assert space[..idx' + 1] == was + [PAD];
      idx' := idx' + 1;
      ph := ph + 1;
    }
    ok := true;
  }

  lemma {:induction false} MorePads(n: nat)
    ensures Pads(n + 1) == Pads(n) + [PAD] && Pads(0) == []
  {
    if n > 0 { MorePads(n - 1); }
  }

  // ---------- the decoder ----------

  /** The values of the alphabet characters of `s`, in order; everything else is skipped. */
  function Values(s: seq<byte>): (r: seq<byte>)
    ensures SixBits(r) && |r| <= |s|
  {
    if s == [] then []
    else
      var c := s[|s| - 1];
      if InAlphabet(c) then Values(s[..|s| - 1]) + [DecodeChar(c)] else Values(s[..|s| - 1])
  }

  function Alphabet(s: seq<byte>): seq<byte> {
    if s == [] then []
    else
      var c := s[|s| - 1];
      if InAlphabet(c) then Alphabet(s[..|s| - 1]) + [c] else Alphabet(s[..|s| - 1])
  }

  /** What Base64Decode writes. */
  function Decoded(s: seq<byte>): seq<byte> {
    Octets(Values(s))
  }

  /** Decoding depends only on the alphabet characters, and `n` of them give 3n/4 bytes, rounded down. */
  lemma {:induction false} OnlyAlphabetCounts(s: seq<byte>)
    ensures Decoded(s) == Decoded(Alphabet(s)) && |Decoded(s)| == 3 * |Alphabet(s)| / 4
    ensures Values(s) == Values(Alphabet(s)) && |Values(s)| == |Alphabet(s)|
  {
    if s != [] {
      OnlyAlphabetCounts(s[..|s| - 1]);
      var c := s[|s| - 1];
      if InAlphabet(c) {
        assert Alphabet(s)[..|Alphabet(s)| - 1] == Alphabet(s[..|s| - 1]);
      }
    }
  }

  lemma {:induction false} ValuesConcat(s: seq<byte>, t: seq<byte>)
    ensures Values(s + t) == Values(s) + Values(t)
  {
    if t == [] {
      assert s + t == s;
      assert Values(t) == [];
    } else {
      ValuesConcat(s, t[..|t| - 1]);
      assert (s + t)[..|s + t| - 1] == s + t[..|t| - 1];
    }
  }

  lemma {:induction false} ValuesOfChars(v: seq<byte>)
    requires SixBits(v)
    ensures Values(Chars(v)) == v
  {
    if v != [] {
      var head := v[..|v| - 1];
      ValuesOfChars(head);
      assert Chars(v)[..|v| - 1] == Chars(head);
      TablesInverse(v[|v| - 1]);
      assert v == head + [v[|v| - 1]];
    }
  }

  lemma {:induction false} ValuesOfPads(n: nat)
    ensures Values(Pads(n)) == []
  {
    if n > 0 {
      MorePads(n - 1);
      ValuesOfPads(n - 1);
      assert Pads(n)[..n - 1] == Pads(n - 1);
    }
  }

  /** Decoding undoes encoding, for every byte string. */
  lemma RoundTrip(x: seq<byte>)
    ensures Decoded(Encoded(x)) == x && Decoded(Rfc(x)) == x
  {
    var v := Sextets(x);
    forall n: nat ensures Values(Chars(v) + Pads(n)) == v {
      ValuesConcat(Chars(v), Pads(n));
      ValuesOfChars(v);
      ValuesOfPads(n);
    }
    OctetsOfSextets(x);
  }

  /** The encoder's output is ASCII, so the decoder accepts it. */
  lemma EncodedAscii(x: seq<byte>)
    ensures forall c :: c in Encoded(x) ==> c < 128
  {
    var v := Sextets(x);
    forall c | c in Chars(v) ensures c < 128 {
      var i :| 0 <= i < |v| && Chars(v)[i] == c;
      TablesInverse(v[i]);
    }
  }

  /** What one more value adds. */
  function Added(v: seq<byte>, d: byte): seq<byte> {
    if |v| % 4 == 0 then [] else [ByteFor(|v| % 4, v[|v| - 1], d)]
  }

  /** The byte that the switch of the decoding loop puts together. */
  function ByteFor(phase: nat, prev: byte, d: byte): byte {
    if phase == 1 then Eight0(prev, d) else if phase == 2 then Eight1(prev, d) else Eight2(prev, d)
  }

  lemma TrioThen(v: seq<byte>)
    requires |v| >= 4
    ensures Octets(v) == Trio(v) + Octets(v[4..])
  {
    hide Trio;
  }

  function More(v: seq<byte>, d: byte): seq<byte> {
    Octets(v) + Added(v, d)
  }

  lemma FirstValue(a: byte)
    ensures Octets([a]) == More([], a)
  {
  }

  lemma SecondValue(a: byte, b: byte)
    ensures Octets([a, b]) == More([a], b)
  {
    hide Eight0;
  }

  lemma ThirdValue(a: byte, b: byte, c: byte)
    ensures Octets([a, b, c]) == More([a, b], c)
  {
    hide Eight0, Eight1;
  }

  lemma FourthValue(a: byte, b: byte, c: byte, d: byte)
    ensures Octets([a, b, c, d]) == More([a, b, c], d)
  {
    hide Eight0, Eight1, Eight2;
    assert [a, b, c, d][4..] == [];
  }

  lemma After0(v: seq<byte>, d: byte)
    requires |v| == 0
    ensures Octets(v + [d]) == More(v, d)
  {
    hide Octets, Added, More;
    assert v == [] && v + [d] == [d];
    FirstValue(d);
  }

  lemma After1(v: seq<byte>, d: byte)
    requires |v| == 1
    ensures Octets(v + [d]) == More(v, d)
  {
    hide Octets, Added, More;
    assert v == [v[0]] && v + [d] == [v[0], d];
    SecondValue(v[0], d);
  }

  lemma After2(v: seq<byte>, d: byte)
    requires |v| == 2
    ensures Octets(v + [d]) == More(v, d)
  {
    hide Octets, Added, More;
    assert v == [v[0], v[1]] && v + [d] == [v[0], v[1], d];
    ThirdValue(v[0], v[1], d);
  }

  lemma After3(v: seq<byte>, d: byte)
    requires |v| == 3
    ensures Octets(v + [d]) == More(v, d)
  {
    hide Octets, Added, More;
    assert v == [v[0], v[1], v[2]] && v + [d] == [v[0], v[1], v[2], d];
    FourthValue(v[0], v[1], v[2], d);
  }

  lemma AddedTail(v: seq<byte>, d: byte)
    requires |v| >= 4
    ensures Added(v, d) == Added(v[4..], d)
  {
    hide Eight0, Eight1, Eight2;
    if |v| % 4 != 0 { assert v[|v| - 1] == v[4..][|v| - 5]; }
  }

  lemma {:induction false} OneMoreValue(v: seq<byte>, d: byte)
    ensures Octets(v + [d]) == More(v, d)
  {
    hide Octets, Added, Trio;
    if |v| == 0 {
      After0(v, d);
    } else if |v| == 1 {
      After1(v, d);
    } else if |v| == 2 {
      After2(v, d);
    } else if |v| == 3 {
      After3(v, d);
    } else {
      OneMoreValue(v[4..], d);
      AddedTail(v, d);
      TrioThen(v);
      TrioThen(v + [d]);
      SameTrio(v, d);
      assert (v + [d])[4..] == v[4..] + [d];
    }
  }

  lemma SameTrio(v: seq<byte>, d: byte)
    requires |v| >= 4
    ensures Trio(v + [d]) == Trio(v)
  {
  }

  /** Base64Decode on ASCII input (the table is indexed with a signed char): -1 exactly when the result does not fit. */
  method Base64Decode(input: seq<byte>, inlen: int, space: array<byte>, size: int) returns (ret: int)
    requires inlen <= |input| && size <= space.Length && forall i :: 0 <= i < |input| ==> input[i] < 128
    modifies space
    ensures inlen < 0 || size < 0 ==> ret == -1 && space[..] == old(space[..])
    ensures inlen >= 0 && size >= 0 ==>
              var d := Decoded(input[..inlen]);
              ret == (if |d| <= size then |d| else -1) && (|d| <= size ==> space[..] == d + old(space[..])[|d|..])
  {
    hide Octets, Values;
    if inlen < 0 || size < 0 { return -1; }
    ghost var x := input[..inlen];
    NoValues();
    if inlen == 0 {
      assert x == [] && space[..] == [] + old(space[..])[0..];
      return 0;
    }
    var idx, phase, i := 0, 0, 0;
    var prev: byte := 0;
    assert x[..0] == [];
    while i < inlen
      invariant 0 <= i <= inlen && phase == |Values(x[..i])| % 4
      invariant |Values(x[..i])| > 0 ==> prev == Values(x[..i])[|Values(x[..i])| - 1]
      invariant idx == |Decoded(x[..i])| <= size && space[..idx] == Decoded(x[..i])
      invariant forall k :: idx <= k < space.Length ==> space[k] == old(space[k])
    {
      ghost var was := x[..i];
      OneMoreChar(was, x, i);
      if InAlphabet(input[i]) {
        var d := DecodeChar(input[i]);
        var ok;
        ok, idx, phase := DecodeValue(d, prev, phase, space, idx, size, Values(was));
        if !ok {
          Longer(x, i + 1);
          return -1;
        }
        prev := d;
      }
      i := i + 1;
    }
    assert x[..i] == x;
    Spliced(space[..], old(space[..]), Decoded(x));
    return idx;
  }

  lemma NoValues()
    ensures Values([]) == [] && Octets([]) == []
  {
  }

  lemma OneMoreChar(was: seq<byte>, x: seq<byte>, i: nat)
    requires i < |x| && was == x[..i]
    ensures InAlphabet(x[i]) ==> Values(x[..i + 1]) == Values(was) + [DecodeChar(x[i])]
    ensures !InAlphabet(x[i]) ==> Values(x[..i + 1]) == Values(was)
  {
    assert x[..i + 1][..i] == was && x[..i + 1][i] == x[i];
  }

  lemma Longer(x: seq<byte>, i: nat)
    requires i <= |x|
    ensures |Decoded(x)| >= |Decoded(x[..i])|
  {
    ValuesConcat(x[..i], x[i..]);
    assert x == x[..i] + x[i..];
  }

  lemma SwitchByte(phase: nat, prev: byte, d: byte)
    ensures ByteFor(phase, prev, d) ==
            if phase == 1 then (prev << 2) | ((d & 0x30) >> 4)
            else if phase == 2 then ((prev & 0xf) << 4) | ((d & 0x3c) >> 2)
            else ((prev & 0x03) << 6) | d
  {
  }

  /** The switch of the decoding loop. */
  method DecodeValue(d: byte, prev: byte, phase: nat, space: array<byte>, idx: nat, size: nat, ghost v: seq<byte>)
      returns (ok: bool, idx': nat, phase': nat)
    requires phase == |v| % 4 && d < 64 && (|v| > 0 ==> prev == v[|v| - 1] < 64)
    requires idx == |Octets(v)| <= size <= space.Length && space[..idx] == Octets(v)
    modifies space
    ensures phase' == |v + [d]| % 4 && (ok <==> |Octets(v + [d])| <= size)
    ensures ok ==> idx' == |Octets(v + [d])| && space[..idx'] == Octets(v + [d])
    ensures ok ==> forall k :: idx' <= k < space.Length ==> space[k] == old(space[k])
  {
    hide Octets, ByteFor;
    OneMoreValue(v, d);
    ok, idx' := true, idx;
    phase' := if phase == 3 then 0 else phase + 1;
    if phase != 0 {
      var c := if phase == 1 then (prev << 2) | ((d & 0x30) >> 4)
               else if phase == 2 then ((prev & 0xf) << 4) | ((d & 0x3c) >> 2)
               else ((prev & 0x03) << 6) | d;
      assert c == ByteFor(phase, prev, d) by { SwitchByte(phase, prev, d); }
      ok := Put(space, idx, size, c);
      if !ok { return; }
      idx' := idx + 1;
      assert space[..idx'] == old(space[..idx]) + [c];
    }
  }
}
