/** Scanning of the proxy's answer: strstrICase of src/proxy_common.cpp and the line loop of parseHttpHeader. */
module Header {
  import opened Streams

  datatype Found = NotFound | At(index: nat)

  // ---------- case-insensitive search ----------

  /** What the byte turns into when the search flips its case. */
  function Flip(c: byte): byte {
    if 'a' as int <= c <= 'z' as int then c - 32 else if 'A' as int <= c <= 'Z' as int then c + 32 else c
  }

  function Lower(c: byte): byte {
    if 'A' as int <= c <= 'Z' as int then c + 32 else c
  }

  predicate Same(c: byte, d: byte) {
    c == d || Flip(c) == d
  }

  lemma SameIgnoresCase(c: byte, d: byte)
    ensures Same(c, d) <==> Lower(c) == Lower(d)
  {
  }

  /** Bytes are compared without case when they are the same byte or the two cases of one letter. */
  lemma LowerIgnoresCase(c: byte, d: byte)
    ensures Lower(c) == Lower(d) <==>
            || c == d
            || ('A' as int <= c <= 'Z' as int && d - 'a' as int == c - 'A' as int)
            || ('A' as int <= d <= 'Z' as int && c - 'a' as int == d - 'A' as int)
  {
  }

  /** Letters match in either case, other characters only themselves. */
  lemma MatchExample()
    ensures MatchAt(Ascii("1 ok@"), 2, Ascii("OK@")) && !MatchAt(Ascii("1 ok`"), 2, Ascii("OK@"))
    ensures !MatchAt(Ascii("1 ok@"), 3, Ascii("OK@"))
  {
    var p := Ascii("OK@");
    assert Lower(p[2]) == 64 && Lower(Ascii("1 ok`")[4]) == 96;
    assert p[0] == 79 && p[1] == 75 && p[2] == 64;
  }

  /** `pattern` stands at `i`, wholly inside the text, letters compared without case. */
  predicate MatchAt(text: seq<byte>, i: nat, pattern: seq<byte>) {
    i + |pattern| <= |text| && forall k :: 0 <= k < |pattern| ==> Lower(text[i + k]) == Lower(pattern[k])
  }

  predicate NulFree(s: seq<byte>) {
    forall i :: 0 <= i < |s| ==> s[i] != 0
  }

  /** A C string read at `i`: its terminator is past its end. */
  function CharAt(s: seq<byte>, i: nat): byte {
    if i < |s| then s[i] else 0
  }

  /** strstrICase: the least match that starts in the range, if there is one. */
  method StrStrICase(text: seq<byte>, pattern: seq<byte>) returns (r: Found)
    requires NulFree(pattern)
    ensures r.At? ==> r.index < |text| && MatchAt(text, r.index, pattern)
                      && forall j :: 0 <= j < r.index ==> !MatchAt(text, j, pattern)
    ensures r.NotFound? ==> forall j :: 0 <= j < |text| ==> !MatchAt(text, j, pattern)
  {
    var p1, p2 := 0, 0;
    while p1 < |text|
      invariant p1 == p2 <= |text|
      invariant forall j :: 0 <= j < p2 ==> !MatchAt(text, j, pattern)
      decreases |text| - p2
    {
      var q := 0;
      while Same(CharAt(text, p1), CharAt(pattern, q)) && CharAt(pattern, q) != 0 && p1 < |text|
        invariant q <= |pattern| && p1 == p2 + q <= |text|
        invariant forall k :: 0 <= k < q ==> Lower(text[p2 + k]) == Lower(pattern[k])
        decreases |text| - p1
      {
        SameIgnoresCase(text[p1], pattern[q]);
        p1 := p1 + 1;
        q := q + 1;
      }
      if CharAt(pattern, q) == 0 {
        assert q == |pattern|;
        return At(p2);
      }
      if p1 < |text| {
        SameIgnoresCase(text[p1], pattern[q]);
      }
      assert !MatchAt(text, p2, pattern);
      p2 := p2 + 1;
      p1 := p2;
    }
    return NotFound;
  }

  /** The text holds the pattern somewhere, letters compared without case. */
  predicate Holds(text: seq<byte>, pattern: seq<byte>) {
    exists j :: 0 <= j < |text| && MatchAt(text, j, pattern)
  }

  // ---------- the blank line ----------

  const CR: byte := 13
  const LF: byte := 10

  predicate CrlfAt(s: seq<byte>, i: int) {
    0 <= i && i + 2 <= |s| && s[i] == CR && s[i + 1] == LF
  }

  /** The text starts with CRLF or contains CRLFCRLF. */
  predicate BlankLine(s: seq<byte>) {
    CrlfAt(s, 0) || exists i :: 0 <= i < |s| && CrlfAt(s, i) && CrlfAt(s, i + 2)
  }

  /** A status line and an empty line; a status line alone; an empty line at once. */
  lemma BlankLineExample()
    ensures BlankLine(Ascii("200\r\n\r\n")) && !BlankLine(Ascii("200\r\n\n\r")) && BlankLine(Ascii("\r\n200"))
  {
    var s, t, u := Ascii("200\r\n\r\n"), Ascii("200\r\n\n\r"), Ascii("\r\n200");
    assert s[3] == 13 && s[4] == 10 && s[5] == 13 && s[6] == 10;
    assert CrlfAt(s, 3) && CrlfAt(s, 5);
    assert t[0] == 50 && t[1] == 48 && t[2] == 48 && t[3] == 13 && t[4] == 10 && t[5] == 10 && t[6] == 13;
    assert u[0] == 13 && u[1] == 10;
  }

  /** strstr(s + from, "\r\n") */
  method FindCrlf(s: seq<byte>, from: nat) returns (r: Found)
    requires from <= |s|
    ensures r.At? ==> from <= r.index && CrlfAt(s, r.index) && forall j :: from <= j < r.index ==> !CrlfAt(s, j)
    ensures r.NotFound? ==> forall j :: from <= j ==> !CrlfAt(s, j)
  {
    var i := from;
    while i + 2 <= |s|
      invariant from <= i && forall j :: from <= j < i ==> !CrlfAt(s, j)
    {
      if s[i] == CR && s[i + 1] == LF { return At(i); }
      i := i + 1;
    }
    return NotFound;
  }

  /** The line loop of parseHttpHeader: it stops at an empty line exactly when the text has a blank line. */
  method FullHeader(s: seq<byte>) returns (full: bool)
    ensures full <==> BlankLine(s)
  {
    var head := 0;
    full := false;
    var tail := FindCrlf(s, head);
    while tail.At?
      invariant head <= |s| && (head == 0 || CrlfAt(s, head - 2))
      invariant forall j :: 0 <= j < head ==> !EmptyLineAt(s, j)
      invariant tail.At? ==> head <= tail.index && CrlfAt(s, tail.index) && forall j :: head <= j < tail.index ==>
                !CrlfAt(s, j)
      invariant tail.NotFound? ==> forall j :: head <= j ==> !CrlfAt(s, j)
      decreases |s| - head
    {
      if tail.index == head {
        full := true;
        assert EmptyLineAt(s, head);
        return;
      }
      forall j | head <= j < tail.index + 2 ensures !EmptyLineAt(s, j) {
        if j == tail.index && j == head + 1 { assert !CrlfAt(s, j - 2); }
      }
      head := tail.index + 2;
      tail := FindCrlf(s, head);
    }
    assert forall j :: 0 <= j < |s| ==> !EmptyLineAt(s, j);
    NoEmptyLine(s);
  }

  predicate EmptyLineAt(s: seq<byte>, j: nat) {
    CrlfAt(s, j) && (j == 0 || CrlfAt(s, j - 2))
  }

  lemma NoEmptyLine(s: seq<byte>)
    requires forall j :: 0 <= j < |s| ==> !EmptyLineAt(s, j)
    ensures !BlankLine(s)
  {
    if CrlfAt(s, 0) { assert EmptyLineAt(s, 0); }
    if i :| 0 <= i < |s| && CrlfAt(s, i) && CrlfAt(s, i + 2) { assert EmptyLineAt(s, i + 2); }
  }

  // ---------- a C string in a buffer ----------

  /** strlen */
  function StrLen(buf: seq<byte>): (n: nat)
    ensures n <= |buf| && NulFree(buf[..n]) && (n < |buf| ==> buf[n] == 0)
  {
    if buf == [] || buf[0] == 0 then 0 else
      var n := StrLen(buf[1..]);
      assert buf[..n + 1] == [buf[0]] + buf[1..][..n];
      n + 1
  }

  function CString(buf: seq<byte>): seq<byte> {
    buf[..StrLen(buf)]
  }

  lemma {:induction false} StrLenIs(buf: seq<byte>, n: nat)
    requires n < |buf| && NulFree(buf[..n]) && buf[n] == 0
    ensures StrLen(buf) == n
  {
    if n > 0 {
      assert buf[0] == buf[..n][0];
      assert buf[1..][..n - 1] == buf[..n][1..];
      StrLenIs(buf[1..], n - 1);
    }
  }

  /** Bytes copied to the end of the string, and a terminator after them, extend it by what precedes a NUL in them. */
  lemma Extended(buf: seq<byte>, buf': seq<byte>, data: seq<byte>)
    requires |buf'| == |buf| && StrLen(buf) + |data| < |buf|
    requires buf'[..StrLen(buf)] == buf[..StrLen(buf)]
    requires buf'[StrLen(buf)..StrLen(buf) + |data|] == data
    requires buf'[StrLen(buf) + |data|] == 0
    ensures CString(buf') == CString(buf) + CString(data) && StrLen(buf') < |buf'|
  {
    hide NulFree, StrLen;
    var head := buf[..StrLen(buf)];
    assert buf'[..|head|] == head;
    ExtendedBy(buf', head, data, StrLen(data));
  }

  lemma ExtendedBy(buf: seq<byte>, head: seq<byte>, data: seq<byte>, m: nat)
    requires |head| + |data| < |buf| && buf[..|head|] == head && buf[|head|..|head| + |data|] == data
    requires m <= |data| && NulFree(head) && NulFree(data[..m])
    requires (m < |data| ==> data[m] == 0) && buf[|head| + |data|] == 0
    ensures StrLen(buf) == |head| + m < |buf| && CString(buf) == head + data[..m]
  {
    hide NulFree, StrLen;
    NulFreeUpTo(buf, head, data, m);
    StrLenIs(buf, |head| + m);
    Joined(buf, head, data, m);
  }

  lemma NulFreeString(s: seq<byte>)
    requires NulFree(s)
    ensures CString(s) == s
  {
    assert s[..|s|] == s;
  }

  lemma NulFreeUpTo(buf: seq<byte>, head: seq<byte>, data: seq<byte>, m: nat)
    requires |head| + |data| < |buf| && buf[..|head|] == head && buf[|head|..|head| + |data|] == data
    requires m <= |data| && NulFree(head) && NulFree(data[..m])
    requires (m < |data| ==> data[m] == 0) && buf[|head| + |data|] == 0
    ensures NulFree(buf[..|head| + m]) && buf[|head| + m] == 0
  {
    forall i | 0 <= i < |head| + m ensures buf[i] != 0 {
      if i < |head| {
        assert buf[i] == head[i];
      } else {
        assert buf[i] == data[i - |head|] == data[..m][i - |head|];
      }
    }
    if m < |data| { assert buf[|head| + m] == data[m]; }
  }

  lemma Joined(buf: seq<byte>, head: seq<byte>, data: seq<byte>, m: nat)
    requires |head| + |data| <= |buf| && buf[..|head|] == head && buf[|head|..|head| + |data|] == data && m <= |data|
    ensures buf[..|head| + m] == head + data[..m]
  {
  }
}
