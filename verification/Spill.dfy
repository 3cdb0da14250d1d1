/** Cache of src/cache.h: chunks in memory, then chunks in the spill file. */
module Spill {
  import opened Streams
  import opened SpillFile
  import opened Connections

  const MAX_IN_MEM: nat := 256 * 1024

  /** A chunk that cache() accepts; its length is compared as an int. */
  predicate Chunk(data: seq<byte>) {
    0 < |data| < 0x8000_0000
  }

  predicate Cut(f: Fault) {
    f.ShortPrefix? || f.ShortData?
  }

  lemma Handed(done: seq<seq<byte>>, left: seq<seq<byte>>)
    requires left != []
    ensures Concat(done + [left[0]]) == Concat(done) + left[0]
    ensures Concat(left) == left[0] + Concat(left[1..])
    ensures Concat(done + [left[0]]) + Concat(left[1..]) == Concat(done) + Concat(left)
  {
    ConcatLast(done, left[0]);
    assert Concat(done) + left[0] + Concat(left[1..]) == Concat(done) + (left[0] + Concat(left[1..]));
  }

  /** A chunk may join the list when no record is unread, or when the records are gone. */
  lemma InMemory(kept: seq<byte>, data: seq<byte>, unread: seq<byte>)
    ensures |unread| == 0 ==> kept + data + unread == kept + unread + data
    ensures Concat([]) == [] && kept + data + [] == kept + data
  {
  }

  /** A chunk kept in memory because its write failed keeps its turn, whatever its bytes, exactly when no record
    * is unread.
    */
  lemma KeepsItsTurn(kept: seq<byte>, unread: seq<byte>)
    ensures (forall data :: Chunk(data) ==> kept + data + unread == kept + unread + data) <==> unread == []
  {
    if unread == [] {
      forall data | Chunk(data) ensures kept + data + unread == kept + unread + data {
        InMemory(kept, data, unread);
      }
    } else {
      var data: seq<byte> := [if unread[0] == 0 then 1 else 0];
      assert Chunk(data);
      assert (kept + data + unread)[|kept|] != (kept + unread + data)[|kept|];
    }
  }

  lemma JoinTail(a: seq<byte>, b: seq<byte>, c: seq<byte>)
    ensures a + b + c == a + (b + c)
  {
  }

  class Cache {
    var list: seq<seq<byte>>    // mCachedList
    const disk: DiskCache
    var lenInMem: nat
    var lenInFile: nat
    ghost var faults: nat       // writes to the file that failed
    ghost var discarded: bool   // bytes went away while they were counted: a clear, or a write cut short

    ghost predicate Valid()
      reads this, disk
    {
      && disk.Valid()
      && (forall c :: c in list ==> Chunk(c))
      && |Concat(list)| <= lenInMem
      && |Concat(disk.unread)| <= lenInFile
      && (faults == 0 ==> lenInMem <= MAX_IN_MEM)
      && (discarded <==> Slack() != (0, 0))
    }

    /** The byte queue that the list and the unread records stand for. */
    ghost function Contents(): seq<byte>
      reads this, disk
    {
      Concat(list) + Concat(disk.unread)
    }

    /** By how much the counters exceed what is held: clear() does not reset them. */
    ghost function Slack(): (int, int)
      reads this, disk
    {
      (lenInMem - |Concat(list)|, lenInFile - |Concat(disk.unread)|)
    }

    constructor ()
      ensures Valid() && Contents() == [] && !discarded && faults == 0 && fresh(disk)
    {
      disk := new DiskCache();
      list, lenInMem, lenInFile, faults, discarded := [], 0, 0, 0, false;
    }

    /** Cache::empty is right about an empty cache exactly while no byte that it held has been discarded. */
    method Empty() returns (r: bool)
      requires Valid()
      ensures r <==> Contents() == [] && !discarded
    {
      NoBytes(list);
      NoBytes(disk.unread);
      return lenInMem == 0 && lenInFile == 0;
    }

    predicate ToDisk(data: seq<byte>)
      reads this
    {
      lenInMem + |data| > MAX_IN_MEM || lenInFile > 0
    }

    /** Cache::cache. Appends to the byte queue, unless the chunk should have gone to the file and the write failed:
      * then it overtakes the records not read yet, or they are lost.
      */
    method Add(data: seq<byte>, fault: Fault)
      requires Valid() && Chunk(data) && Possible(fault, |data|)
      modifies this`list, this`lenInMem, this`lenInFile, this`faults, this`discarded, disk
      ensures Valid()
      ensures var failed := old(ToDisk(data)) && !fault.NoFault? && !(fault.NoFile? && old(disk.open));
              && (!failed ==> Contents() == old(Contents()) + data && Slack() == old(Slack()) && faults == old(faults))
              && (failed ==> faults == old(faults) + 1)
              && discarded == (old(discarded) || (failed && Cut(fault) && old(disk.unread) != []))
              && (failed ==>
                    Slack() == (old(Slack().0),
                                old(Slack().1) + if Cut(fault) then |old(Concat(disk.unread))| else 0))
              && (failed ==>
                    Contents() == old(Concat(list)) + data + if Cut(fault) then [] else old(Concat(disk.unread)))
      ensures old(lenInMem) + |data| <= 0x40000 && old(lenInFile) == 0 ==>
                list == old(list) + [data] && disk.unread == old(disk.unread)
      ensures (old(lenInMem) + |data| > 0x40000 || old(lenInFile) > 0) && fault.NoFault? ==>
                list == old(list) && disk.unread == old(disk.unread) + [data]
      ensures old(!ToDisk(data)) || fault.NoFault? ==> |Concat(list)| <= 0x40000 || old(faults) > 0
    {
      hide Concat, Written;
      ghost var kept, unread := Concat(list), disk.unread;
      if lenInMem + |data| > MAX_IN_MEM || lenInFile > 0 {
        var ret := disk.Write(data, fault);
        if ret == |data| {
          ConcatLast(unread, data);
          JoinTail(kept, Concat(unread), data);
          lenInFile := lenInFile + |data|;
          return;
        }
        faults := faults + 1;
        NoBytes(unread);
        discarded := discarded || disk.unread != unread;
      }
      ConcatLast(list, data);
      lenInMem := lenInMem + |data|;
      list := list + [data];
      InMemory(kept, data, Concat(disk.unread));
    }

    /** Cache::clear: the counters stay as they are. */
    method Clear()
      requires Valid()
      modifies this`list, this`discarded, disk
      ensures Valid() && Contents() == [] && discarded == (old(discarded) || old(Contents()) != [])
              && faults == old(faults)
      ensures Slack() == (old(lenInMem), old(lenInFile))
    {
      discarded := discarded || Contents() != [];
      list := [];
      disk.Clear();
    }

    /** The callback of the cache, as its host sees it: pass the chunk on, or refuse it. */
    method CallHost(conn: Connection, data: seq<byte>, patience: int) returns (took: bool, event: Event)
      requires conn.Valid() && data != []
      modifies conn
      ensures conn.Valid() && took == (patience != 0) && event in {Quiet, OnError}
      ensures Took(old(ViewOf(conn)), ViewOf(conn), if took then data else [], event)
    {
      if patience == 0 {
        assert conn.asked + [] == conn.asked;
        return false, Quiet;
      }
      event := conn.Send(data);
      took := true;
    }

    /** The first loop of Cache::flushAll: the chunks in memory. */
    method FlushList(conn: Connection, patience: int) returns (left: int, event: Event, ghost handed: seq<seq<byte>>)
      requires Valid() && conn.Valid()
      modifies this`list, this`lenInMem, conn
      ensures Valid() && conn.Valid() && Slack() == old(Slack()) && faults == old(faults)
      ensures Concat(handed) + Concat(list) == old(Concat(list))
      ensures event in {Quiet, OnError} && Spent(patience, left, |handed|)
              && (event == Quiet && left != 0 ==> list == [])
      ensures Took(old(ViewOf(conn)), ViewOf(conn), Concat(handed), event)
    {
      hide Concat, Took;
      left, event, handed := patience, Quiet, [];
      ghost var all := Concat(list);
      TookNothing(ViewOf(conn), all);
      while list != []
        invariant Valid() && conn.Valid() && Slack() == old(Slack()) && faults == old(faults)
        invariant Concat(handed) + Concat(list) == all
        invariant Spent(patience, left, |handed|) && event == Quiet
        invariant Took(old(ViewOf(conn)), ViewOf(conn), Concat(handed), event)
        decreases |list|
      {
        Handed(handed, list);
        ghost var before, data := ViewOf(conn), list[0];
        var took;
        took, event := FlushOne(conn, left);
        if !took {
          TookMore(old(ViewOf(conn)), before, ViewOf(conn), Concat(handed), [], event);
          NothingMore(Concat(handed));
          return;
        }
        TookMore(old(ViewOf(conn)), before, ViewOf(conn), Concat(handed), data, event);
        left := if left > 0 then left - 1 else left;
        handed := handed + [data];
        if event == OnError { return; }
      }
    }

    /** One turn of that loop: the chunk leaves the list once the host has taken it. */
    method FlushOne(conn: Connection, patience: int) returns (took: bool, event: Event)
      requires Valid() && conn.Valid() && list != []
      modifies this`list, this`lenInMem, conn
      ensures Valid() && conn.Valid() && Slack() == old(Slack())
      ensures took == (patience != 0) && event in {Quiet, OnError}
      ensures list == if took then old(list)[1..] else old(list)
      ensures Took(old(ViewOf(conn)), ViewOf(conn), if took then old(list)[0] else [], event)
    {
      hide Concat, Took;
      Handed([], list);
      var data := list[0];
      assert Chunk(data);
      took, event := CallHost(conn, data, patience);
      if took {
        lenInMem := lenInMem - |data|;
        list := list[1..];
      }
    }

    /** The second loop of Cache::flushAll: the records of the file, read one at a time. */
    method FlushFile(conn: Connection, patience: int) returns (done: bool, event: Event, ghost handed: seq<seq<byte>>)
      requires Valid() && conn.Valid()
      modifies this`lenInFile, disk, conn
      ensures Valid() && conn.Valid() && Slack() == old(Slack()) && faults == old(faults)
      ensures Concat(handed) + Concat(disk.unread) == old(Concat(disk.unread))
      ensures (done ==> disk.unread == [] && event == Quiet) && (!done && event == Quiet ==> |handed| == patience)
      ensures event in {Quiet, OnError} && (patience >= 0 ==> |handed| <= patience)
      ensures Took(old(ViewOf(conn)), ViewOf(conn), Concat(handed), event)
    {
      hide Concat, Took, Records, Record;
      done, event, handed := false, Quiet, [];
      var left := patience;
      ghost var all := Concat(disk.unread);
      TookNothing(ViewOf(conn), all);
      var sz := disk.PeekSize();
      while sz > 0
        invariant Valid() && conn.Valid() && Slack() == old(Slack()) && faults == old(faults)
        invariant sz == (if disk.unread == [] then 0 else |disk.unread[0]|) && (sz == 0 <==> disk.unread == [])
        invariant Concat(handed) + Concat(disk.unread) == all
        invariant Spent(patience, left, |handed|) && event == Quiet
        invariant Took(old(ViewOf(conn)), ViewOf(conn), Concat(handed), event)
        decreases |disk.unread|
      {
        Handed(handed, disk.unread);
        ghost var before, data := ViewOf(conn), disk.unread[0];
        var took;
        took, event := FlushRecord(conn, sz, left);
        if !took {
          TookMore(old(ViewOf(conn)), before, ViewOf(conn), Concat(handed), [], event);
          NothingMore(Concat(handed));
          return;
        }
        TookMore(old(ViewOf(conn)), before, ViewOf(conn), Concat(handed), data, event);
        left := if left > 0 then left - 1 else left;
        handed := handed + [data];
        if event == OnError { return; }
        sz := disk.PeekSize();
      }
      done := true;
    }

    /** One turn of that loop: the record is read, and rolled back if the host refuses it. */
    method FlushRecord(conn: Connection, sz: nat, patience: int) returns (took: bool, event: Event)
      requires Valid() && conn.Valid() && disk.unread != [] && sz == |disk.unread[0]|
      modifies this`lenInFile, disk, conn
      ensures Valid() && conn.Valid() && Slack() == old(Slack())
      ensures took == (patience != 0) && event in {Quiet, OnError}
      ensures disk.unread == if took then old(disk.unread)[1..] else old(disk.unread)
      ensures Took(old(ViewOf(conn)), ViewOf(conn), if took then old(disk.unread)[0] else [], event)
    {
      hide Concat, Took, Records, Record;
      Handed([], disk.unread);
      var ret, data := disk.Read(sz);
      assert ret == sz;
      took, event := CallHost(conn, data, patience);
      if took {
        lenInFile := lenInFile - sz;
      } else {
        disk.Rollback(sz, data);
      }
    }

    /** Cache::flushAll: the chunks go to the host in order, oldest first, until it refuses one (after `patience`
      * chunks; never, if negative) or reports an error. What was handed over and what is left are together
      * exactly what was there, whichever way it ends.
      */
    method FlushAll(conn: Connection, patience: int) returns (ok: bool, event: Event, ghost handed: seq<seq<byte>>)
      requires Valid() && conn.Valid()
      modifies this`list, this`lenInMem, this`lenInFile, disk, conn
      ensures Valid() && conn.Valid() && Slack() == old(Slack()) && faults == old(faults)
      ensures Concat(handed) + Contents() == old(Contents())
      ensures ok ==> Contents() == [] && event == Quiet
      ensures !ok && event == Quiet ==> |handed| == patience
      ensures event in {Quiet, OnError} && (patience >= 0 ==> |handed| <= patience)
      ensures Took(old(ViewOf(conn)), ViewOf(conn), Concat(handed), event)
    {
      hide Concat, Took;
      var left;
      left, event, handed := FlushList(conn, patience);
      if list != [] || event == OnError {
        HandedOver(Concat(handed), Concat(list), Concat(disk.unread));
        return false, event, handed;
      }
      ghost var more, mid := [], ViewOf(conn);
      ok, event, more := FlushFile(conn, left);
      TookMore(old(ViewOf(conn)), mid, ViewOf(conn), Concat(handed), Concat(more), event);
      NothingLeft(handed, more, old(Concat(list)), old(Concat(disk.unread)), Concat(disk.unread));
      handed := handed + more;
    }
  }

  /** A chunk cached and cleared away: the cache is empty, and Cache::empty denies it. */
  method EmptyDenied() returns (c: Cache, r: bool)
    ensures fresh(c) && c.Valid() && c.Contents() == [] && !r
  {
    c := new Cache();
    c.Add([1], NoFault);
    c.Clear();
    r := c.Empty();
  }

  /** Stored chunks are not empty. */
  lemma NoBytes(chunks: seq<seq<byte>>)
    requires forall c :: c in chunks ==> c != []
    ensures Concat(chunks) == [] <==> chunks == []
  {
    if chunks != [] {
      assert chunks[0] in chunks && Concat(chunks) == chunks[0] + Concat(chunks[1..]);
    }
  }

  lemma NothingMore(s: seq<byte>)
    ensures s + [] == s
  {
  }

  /** After `n` chunks a host of this patience has `left` to spare. */
  predicate Spent(patience: int, left: int, n: nat) {
    if patience < 0 then left == patience else left == patience - n && left >= 0
  }

  datatype View = View(fd: int, status: Status, handled: bool, input: seq<byte>, asked: seq<byte>, wire: seq<byte>,
                       failed: bool, ending: Ending)

  ghost function ViewOf(conn: Connection): View
    reads conn
  {
    View(conn.fd, conn.status, conn.handled, conn.input, conn.asked, conn.wire, conn.failed, conn.ending)
  }

  /** What handing `sent` over does to the connection. */
  ghost predicate Took(v: View, v': View, sent: seq<byte>, event: Event) {
    var up := v.fd >= 0 && v.status == Connected;
    && v'.fd == v.fd && v'.status == v.status && v'.handled == v.handled && v'.input == v.input
    && v'.ending == v.ending
    && v'.asked == v.asked + (if up then sent else [])
    && (!up || sent == [] ==> v'.wire == v.wire && v'.failed == v.failed)
    && (v.handled && !v.failed && up && sent != [] ==> v'.wire <= v'.asked)
    && (event == Quiet || (event == OnError && v'.failed)) && (v.failed ==> v'.failed)
    && (v.handled && !v.failed && v'.failed ==> event == OnError)
  }

  lemma TookNothing(v: View, all: seq<byte>)
    ensures Concat([]) == [] && Took(v, v, Concat([]), Quiet) && Concat([]) + all == all
  {
    assert v.asked + [] == v.asked;
  }

  lemma TookMore(v: View, v1: View, v2: View, sent: seq<byte>, more: seq<byte>, event: Event)
    requires Took(v, v1, sent, Quiet) && Took(v1, v2, more, event)
    ensures Took(v, v2, sent + more, event)
  {
    assert v.asked + sent + more == v.asked + (sent + more);
  }

  lemma HandedOver(done: seq<byte>, list: seq<byte>, unread: seq<byte>)
    ensures done + (list + unread) == done + list + unread
  {
  }

  lemma NothingLeft(handed: seq<seq<byte>>, more: seq<seq<byte>>, list: seq<byte>, file: seq<byte>, rest: seq<byte>)
    requires Concat(handed) + Concat([]) == list && Concat(more) + rest == file
    ensures Concat(handed + more) == Concat(handed) + Concat(more)
    ensures Concat(handed + more) + (Concat([]) + rest) == list + file && Concat([]) == []
  {
    ConcatAppend(handed, more);
    assert Concat(handed) + Concat(more) + rest == Concat(handed) + (Concat(more) + rest);
  }
}
