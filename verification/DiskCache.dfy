/** The spill file of src/disk_cache.cpp: bytes and one read position. */
module SpillFile {
  import opened Streams

  /** What the operating system does to one write. */
  datatype Fault =
    | NoFault
    | NoFile               // tmpfile fails; only possible while no file is open
    | NoTell               // ftell fails
    | NoSeek               // fseek to the end fails
    | ShortPrefix(n: nat)  // only n bytes of the length reach the file
    | ShortData(n: nat)    // only n bytes of the data reach the file

  predicate Possible(f: Fault, size: nat) {
    match f
    case ShortPrefix(n) => n < WORD
    case ShortData(n) => n < size
    case _ => true
  }

  /** A record is written in two steps, and each may be cut short. */
  lemma InParts(data: seq<byte>, n: nat)
    requires n <= |data| || n < WORD
    ensures Record(data) == LengthPrefix(|data|) + data && |LengthPrefix(|data|)| == WORD
    ensures n < WORD ==> Record(data)[..n] == LengthPrefix(|data|)[..n]
    ensures n <= |data| ==> Record(data)[..WORD + n] == LengthPrefix(|data|) + data[..n]
  {
  }

  /** What a write leaves in the file, whole or cut short. */
  ghost predicate Written(before: seq<byte>, after: seq<byte>, data: seq<byte>, fault: Fault, open: bool)
    requires Possible(fault, |data|)
  {
    open ==> after == before + match fault
                               case NoFault => Record(data)
                               case NoFile => Record(data)
                               case ShortPrefix(n) => Record(data)[..n]
                               case ShortData(n) => Record(data)[..WORD + n]
                               case _ => []
  }

  class DiskCache {
    var open: bool           // mpFile != NULL
    var file: seq<byte>
    var pos: nat
    ghost var unread: seq<seq<byte>>

    /** The read position is on a record boundary: what follows it is exactly the unread records. */
    ghost predicate Valid()
      reads this
    {
      && pos <= |file|
      && file[pos..] == Records(unread)
      && (forall r :: r in unread ==> Storable(r))
      && (!open ==> unread == [])
    }

    constructor ()
      ensures Valid() && !open && unread == []
    {
      open, file, pos, unread := false, [], 0, [];
    }

    /** What the file holds once it is open. */
    ghost function Content(): seq<byte>
      reads this
    {
      if open then file else []
    }

    /** DiskCache::write. A write that fails before it reaches the file changes nothing; one that is cut short
      * leaves the position at the end, past every record not read yet.
      */
    method Write(data: seq<byte>, fault: Fault) returns (ret: int)
      requires Valid() && Storable(data) && Possible(fault, |data|)
      modifies this
      ensures Valid()
      ensures fault.NoFault? || (fault.NoFile? && old(open)) ==> ret == |data| && unread == old(unread) + [data]
      ensures open == (old(open) || !fault.NoFile?)
      ensures fault.NoTell? || fault.NoSeek? || (fault.NoFile? && !old(open)) ==> ret < 0 && unread == old(unread)
      ensures fault.ShortPrefix? || fault.ShortData? ==> ret < 0 && unread == []
      ensures Written(old(Content()), file, data, fault, open)
    {
      if !open {
        if fault.NoFile? { return -1; }
        open, file, pos, unread := true, [], 0, [];
      }
      var curpos := pos;
      if fault.NoTell? { return -10; }
      if fault.NoSeek? { return -11; }
      hide Record, Records, LengthPrefix, Storable;
      var head := LengthPrefix(|data|);
      InParts(data, if fault.ShortPrefix? || fault.ShortData? then fault.n else 0);
      if fault.ShortPrefix? {
        file := file + head[..fault.n];
        pos, unread := |file|, [];
        return -2;
      }
      if fault.ShortData? {
        file := file + (head + data[..fault.n]);
        pos, unread := |file|, [];
        return -3;
      }
      ghost var was := file;
      RecordsLast(unread, data);
      file := file + (head + data);
      unread := unread + [data];
      assert file[curpos..] == was[curpos..] + (head + data);
      pos := curpos;
      return |data|;
    }

    /** DiskCache::peeksize: the length of the first unread record, 0 if there is none. */
    method PeekSize() returns (size: nat)
      requires Valid()
      modifies this
      ensures Valid() && open == old(open) && file == old(file) && pos == old(pos) && unread == old(unread)
      ensures size == (if unread == [] then 0 else |unread[0]|) && (size == 0 <==> unread == [])
    {
      assert unread != [] ==> unread[0] in unread;
      if !open { return 0; }
      if |file| - pos < WORD {
        if unread != [] { FirstRecord(file, pos, unread); }
        pos := |file|;
        return 0;
      }
      var bytes := file[pos..pos + WORD];
      pos := pos + WORD;
      size := Value(bytes);
      pos := pos - WORD;
      FirstRecord(file, pos, unread);
    }

    /** DiskCache::read into a buffer of `room` bytes. */
    method Read(room: nat) returns (ret: int, data: seq<byte>)
      requires Valid()
      modifies this
      ensures Valid() && open == old(open) && file == old(file)
      ensures old(unread) == [] ==> ret == 0 && data == [] && pos == old(pos) && unread == []
      ensures old(unread) != [] && room < |old(unread)[0]| ==> ret == -2 && pos == old(pos) && unread == old(unread)
      ensures old(unread) != [] && room >= |old(unread)[0]| ==>
                ret == |data| && old(unread) == [data] + unread && Behind(data) && pos == old(pos) + WORD + |data|
    {
      data := [];
      if !open { return 0, data; }
      var peeksz := PeekSize();
      assert unread != [] ==> unread[0] in unread;
      if peeksz == 0 { return 0, data; }
      if room < peeksz { return -2, data; }
      FirstRecord(file, pos, unread);
      pos := pos + WORD;
      data := file[pos..pos + peeksz];
      pos := pos + peeksz;
      unread := unread[1..];
      assert file[pos - |data| - WORD..pos] == Record(data);
      return |data|, data;
    }

    /** `data` is the record that ends at the read position. */
    ghost predicate Behind(data: seq<byte>)
      reads this
    {
      open && Storable(data) && |data| + WORD <= pos <= |file| && file[pos - |data| - WORD..pos] == Record(data)
    }

    /** DiskCache::rollback, just after the record was read. */
    method Rollback(n: nat, ghost data: seq<byte>)
      requires Valid() && Behind(data) && n == |data|
      modifies this
      ensures Valid() && open == old(open) && file == old(file) && unread == [data] + old(unread)
      ensures pos + WORD + n == old(pos)
    {
      assert file[pos - n - WORD..] == file[pos - n - WORD..pos] + file[pos..];
      pos := pos - (n + WORD);
      unread := [data] + unread;
      assert unread[1..] == old(unread);
    }

    /** DiskCache::clear */
    method Clear()
      requires Valid()
      modifies this
      ensures Valid() && !open && unread == []
    {
      if open {
        open, unread, pos, file := false, [], 0, [];
      }
    }
  }

  /** rollback after read is an exact undo, for any file and any unread record. */
  method ReadThenRollback(d: DiskCache, room: nat)
    requires d.Valid() && d.unread != [] && room >= |d.unread[0]|
    modifies d
    ensures d.Valid() && d.open == old(d.open) && d.file == old(d.file) && d.pos == old(d.pos)
            && d.unread == old(d.unread)
  {
    var ret, data := d.Read(room);
    d.Rollback(ret, data);
  }
}
