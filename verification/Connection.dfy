/** The send queue and the event flags of src/connection.cpp. The kernel is the environment: it takes any part of
  * what it is given, and `errno` may hold anything when it is looked at.
  */
module Connections {
  import opened Streams

  const MAXLEN: nat := 8 * 1024
  const LIMIT_LEN: nat := 1024 * 1024

  datatype Status = Closed | Error | Connecting | Connected

  /** TcpPacket: the bytes from `sentlen` on are still to be sent. */
  datatype Packet = Packet(buf: seq<byte>, sentlen: nat)

  /** How a call of ::connect ends. */
  datatype Dial = NoSocket | NoNonblock | Now | InProgress | Refused

  /** What a recv that brings no bytes means: nothing for now, an error, the end of the stream. */
  datatype Ending = Later | Broken | Eof

  /** What a handler is told. */
  datatype Event = Quiet | OnConnected | OnError | OnDisconnected

  /** What has happened on a socket; closing it changes none of this. */
  datatype Memory = Memory(asked: seq<byte>, wire: seq<byte>, input: seq<byte>, failed: bool, ending: Ending)

  predicate Unsent(p: Packet) {
    p.sentlen < |p.buf|
  }

  predicate QueueOk(ps: seq<Packet>) {
    forall i :: 0 <= i < |ps| ==> Unsent(ps[i]) && (i > 0 ==> ps[i].sentlen == 0)
  }

  function Rest(p: Packet): seq<byte> {
    if p.sentlen <= |p.buf| then p.buf[p.sentlen..] else []
  }

  function Pending(ps: seq<Packet>): seq<byte> {
    if ps == [] then [] else Rest(ps[0]) + Pending(ps[1..])
  }

  lemma {:induction false} PendingLast(ps: seq<Packet>, p: Packet)
    ensures Pending(ps + [p]) == Pending(ps) + Rest(p)
  {
    hide Rest;
    if ps == [] {
      assert Pending([p]) == Rest(p) + Pending([]);
      assert ps + [p] == [p];
    } else {
      PendingLast(ps[1..], p);
      assert (ps + [p])[0] == ps[0] && (ps + [p])[1..] == ps[1..] + [p];
      Assoc(Rest(ps[0]), Pending(ps[1..]), Rest(p));
    }
  }

  /** The packets after the kernel took `n` bytes of the first one. */
  function Advance(ps: seq<Packet>, n: nat): seq<Packet>
    requires ps != [] && Unsent(ps[0]) && n <= |Rest(ps[0])|
  {
    if n == |Rest(ps[0])| then ps[1..] else [ps[0].(sentlen := ps[0].sentlen + n)] + ps[1..]
  }

  lemma AdvancedOk(ps: seq<Packet>, n: nat)
    requires QueueOk(ps) && ps != []
    ensures Unsent(ps[0]) && (n <= |Rest(ps[0])| ==> QueueOk(Advance(ps, n)))
  {
    hide Pending;
    assert Unsent(ps[0]);
  }

  lemma Advanced(w: seq<byte>, ps: seq<Packet>, n: nat)
    requires ps != [] && Unsent(ps[0]) && n <= |Rest(ps[0])|
    ensures w + Rest(ps[0])[..n] + Pending(Advance(ps, n)) == w + Pending(ps)
  {
    var p := ps[0];
    var taken := Rest(p)[..n];
    var tail := Pending(ps[1..]);
    if n < |Rest(p)| {
      var p' := p.(sentlen := p.sentlen + n);
      assert Advance(ps, n)[0] == p' && Advance(ps, n)[1..] == ps[1..];
      assert Pending(Advance(ps, n)) == Rest(p') + tail;
      assert Rest(p) == taken + Rest(p');
      Assoc(taken, Rest(p'), tail);
    } else {
      assert taken == Rest(p);
    }
    Assoc(w, taken, Pending(Advance(ps, n)));
  }

  lemma Assoc(a: seq<byte>, b: seq<byte>, c: seq<byte>)
    ensures a + b + c == a + (b + c)
  {
  }

  lemma TailLeft(w: seq<byte>, data: seq<byte>, n: int)
    requires -1 <= n < |data|
    ensures n > 0 ==> w + data[..n] + data[n..] == w + data
    ensures w + [] == w
  {
    if n > 0 { assert data[..n] + data[n..] == data; }
  }

  lemma AllKept(w: seq<byte>, ps: seq<Packet>, ptr: seq<byte>)
    ensures w + (Pending(ps) + ptr) == w + Pending(ps) + ptr && w <= w + Pending(ps) + ptr
    ensures ps == [] ==> w + Pending(ps) + ptr == w + ptr == w + ptr + Pending(ps)
  {
  }

  class Connection {
    var fd: int
    var status: Status
    var handled: bool           // mHandler != NULL
    var regRead: bool
    var regWrite: bool
    var packets: seq<Packet>
    ghost var asked: seq<byte>  // what send was given on this socket
    ghost var wire: seq<byte>   // what the kernel took on this socket
    ghost var input: seq<byte>  // what the kernel delivered on this socket
    ghost var failed: bool      // checkSocketErrors reported an error on this socket
    ghost var offers: nat       // how often the kernel was offered bytes
    ghost var short: bool       // it took less than it was offered the last time
    ghost var ending: Ending    // what the last recv meant, if it brought no bytes
    ghost var brought: nat      // how many bytes it brought

    ghost predicate Valid()
      reads this
    {
      && QueueOk(packets)
      && (fd < 0 ==> status == Closed && packets == [] && !regRead && !regWrite)
      && (status == Connecting ==> packets == [] && asked == [] && wire == [])
      && (fd >= 0 && !failed ==> wire + Pending(packets) == asked)
      && (status == Connected && !failed ==> (packets != [] <==> regWrite))
    }

    ghost function Remembered(): Memory
      reads this
    {
      Memory(asked, wire, input, failed, ending)
    }

    constructor ()
      ensures Valid() && fd < 0 && !handled && asked == wire == input == [] && !failed
    {
      fd, status, handled, regRead, regWrite, packets := -1, Closed, false, false, false, [];
      asked, wire, input, failed, offers, short, ending := [], [], [], false, 0, false, Later;
    }

    /** Connection::acceptConnection */
    method Accept(connfd: nat, nonblocking: bool) returns (ok: bool)
      requires Valid()
      modifies this
      ensures Valid() && handled == old(handled)
      ensures ok <==> old(fd) < 0 && nonblocking
      ensures ok ==>
                status == Connected && fd == connfd && asked == wire == input == [] && packets == [] && !failed
                && regRead
      ensures old(fd) >= 0 ==> unchanged(this)
      ensures old(fd) < 0 && !ok ==> fd < 0
    {
      if fd >= 0 { return false; }
      fd := connfd;
      if !nonblocking {
        fd := -1;
        return false;
      }
      regRead := true;
      status := Connected;
      asked, wire, input, failed := [], [], [], false;
      return true;
    }

    /** Connection::connect */
    method Connect(newfd: nat, dial: Dial) returns (ok: bool, event: Event)
      requires Valid()
      modifies this
      ensures Valid() && handled == old(handled)
      ensures ok <==> dial.Now? || dial.InProgress?
      ensures ok ==>
                fd == newfd && status == (if dial.Now? then Connected else Connecting)
                && regWrite == dial.InProgress?
      ensures ok ==> asked == wire == input == [] && packets == [] && !failed && regRead == dial.Now?
      ensures !ok ==> fd < 0
      ensures event == if dial.Now? && handled then OnConnected else Quiet
    {
      event := Quiet;
      if fd >= 0 { Shutdown(); }
      if dial.NoSocket? { return false, event; }
      fd := newfd;
      if dial.NoNonblock? || dial.Refused? {
        fd := -1;
        return false, event;
      }
      asked, wire, input, failed := [], [], [], false;
      if dial.Now? {
        regRead := true;
        status := Connected;
        if handled { event := OnConnected; }
      } else {
        status := Connecting;
        regWrite := true;
      }
      return true, event;
    }

    /** Connection::shutdown: unsent packets are dropped. */
    method Shutdown()
      requires Valid()
      modifies this
      ensures Valid() && fd < 0 && status == Closed && packets == [] && !regRead && !regWrite
      ensures handled == old(handled) && Remembered() == old(Remembered())
    {
      if fd < 0 { return; }
      regWrite, regRead := false, false;
      fd := -1;
      status := Closed;
      packets := [];
    }

    method SetHandler(h: bool)
      requires Valid()
      modifies this`handled
      ensures Valid() && handled == h
    {
      handled := h;
    }

    /** ::send; the result is -1 or the number of bytes taken. */
    method KernelSend(data: seq<byte>) returns (n: int)
      modifies this`wire, this`offers, this`short
      ensures -1 <= n <= |data|
      ensures wire == old(wire) + if n > 0 then data[..n] else []
      ensures offers == old(offers) + 1 && short == (n < |data|)
    {
      offers := offers + 1;
      n :| -1 <= n <= |data|;
      wire := wire + if n > 0 then data[..n] else [];
      short := n < |data|;
    }

    /** Connection::tryFlushRemainPacket: the result says whether nothing is left. It offers queued bytes until the
      * kernel takes less than a packet, and no longer watches for room once nothing is queued.
      */
    method TryFlush() returns (empty: bool)
      requires Valid() && fd >= 0 && status == Connected
      modifies this`packets, this`wire, this`regWrite, this`offers, this`short
      ensures Valid() && (empty <==> packets == [])
      ensures old(packets) == [] ==> empty && wire == old(wire) && offers == old(offers) && regWrite == old(regWrite)
      ensures old(packets) != [] ==> offers > old(offers) && short == !empty && regWrite == (old(regWrite) && !empty)
      ensures wire + Pending(packets) == old(wire) + old(Pending(packets)) && old(wire) <= wire
    {
      hide Pending, QueueOk;
      if packets == [] { return true; }
      ghost var all := wire + Pending(packets);
      while packets != []
        invariant QueueOk(packets) && regWrite == old(regWrite)
        invariant wire + Pending(packets) == all && old(wire) <= wire
        invariant offers == old(offers) ==> packets != []
        invariant offers >= old(offers) && (offers > old(offers) ==> !short)
        decreases |packets|
      {
        var p := packets[0];
        AdvancedOk(packets, 0);
        var len := |p.buf| - p.sentlen;
        ghost var before := wire;
        var sentlen := KernelSend(p.buf[p.sentlen..]);
        if sentlen > 0 {
          AdvancedOk(packets, sentlen);
          Advanced(before, packets, sentlen);
        }
        if len == sentlen {
          packets := packets[1..];
          continue;
        }
        if sentlen > 0 {
          packets := [p.(sentlen := p.sentlen + sentlen)] + packets[1..];
        }
        break;
      }
      if packets == [] {
        regWrite := false;
        return true;
      }
      return false;
    }

    /** Connection::checkSocketErrors; `errno` may be stale, so its answer is the environment's. */
    method CheckErrors() returns (err: bool, event: Event)
      modifies this`regRead, this`regWrite, this`failed
      ensures failed == (old(failed) || err)
      ensures !err ==> regRead == old(regRead) && regWrite == old(regWrite) && event == Quiet
      ensures err ==> event == if handled then OnError else Quiet
      ensures err && handled ==> !regRead && !regWrite
      ensures err && !handled ==> regRead == old(regRead) && regWrite == old(regWrite)
    {
      err := *;
      event := Quiet;
      if err {
        failed := true;
        if handled {
          regRead, regWrite := false, false;
          event := OnError;
        }
      }
    }

    /** Connection::send. While no error has been reported, what the kernel took and what is still queued
      * together are all that was ever sent; an error loses at most a tail of it.
      */
    method Send(data: seq<byte>) returns (event: Event)
      requires Valid() && data != []
      modifies this
      ensures Valid() && fd == old(fd) && status == old(status) && handled == old(handled) && input == old(input)
              && ending == old(ending)
      ensures old(status) != Connected ==> unchanged(this) && event == Quiet
      ensures old(status) == Connected ==> asked == old(asked) + data && offers > old(offers)
      ensures old(status) == Connected && old(packets) == [] ==> offers == old(offers) + 1
      ensures old(status) == Connected && !short ==>
                packets == [] && event == Quiet && failed == old(failed)
                  && wire == old(wire) + old(Pending(packets)) + data
      ensures old(status) == Connected && !old(failed) && !failed && short ==>
                regRead == old(regRead) && packets != []
      ensures (event == Quiet || (event == OnError && failed)) && (old(failed) ==> failed)
      ensures handled && !old(failed) && failed ==> event == OnError
      ensures !old(failed) && old(fd) >= 0 ==> wire <= asked && old(wire) <= wire
    {
      hide Pending, QueueOk, Rest;
      event := Quiet;
      if fd < 0 { return; }
      if status != Connected { return; }
      ghost var sent := asked + data;
      var ptr := Offer(data);
      asked := sent;
      if ptr == [] {
        AllKept(wire, packets, []);
        return;
      }
      AllKept(wire, packets, ptr);
      var err;
      err, event := CheckErrors();
      if err { return; }
      CachePacket(ptr);
      regWrite := true;
    }

    /** The first half of send: what is queued is offered first, and `data` once nothing is. The kernel leaves `ptr`. */
    method Offer(data: seq<byte>) returns (ptr: seq<byte>)
      requires Valid() && data != [] && fd >= 0 && status == Connected
      modifies this`packets, this`wire, this`regWrite, this`offers, this`short
      ensures QueueOk(packets) && (packets != [] ==> ptr == data) && short == (ptr != [])
      ensures wire + Pending(packets) + ptr == old(wire) + old(Pending(packets)) + data && old(wire) <= wire
      ensures offers > old(offers) && (old(packets) == [] ==> offers == old(offers) + 1)
      ensures ptr == [] ==> regWrite == (old(regWrite) && old(packets) == [])
    {
      hide Pending, QueueOk, Rest;
      ptr := data;
      var flushed := TryFlush();
      if flushed {
        ghost var before := wire;
        var sentlen := KernelSend(data);
        if sentlen > 0 {
          ptr := data[sentlen..];
        }
        if sentlen == |data| {
          assert data[..sentlen] == data;
          AllKept(before, packets, data);
          AllKept(wire, packets, []);
        } else {
          TailLeft(before, data, sentlen);
          AllKept(before, packets, data);
          AllKept(wire, packets, ptr);
        }
      }
    }

    /** Connection::cachePacket */
    method CachePacket(data: seq<byte>)
      requires QueueOk(packets) && data != []
      modifies this`packets
      ensures QueueOk(packets) && packets == old(packets) + [Packet(data, 0)]
      ensures Pending(packets) == old(Pending(packets)) + data
    {
      PendingLast(packets, Packet(data, 0));
      packets := packets + [Packet(data, 0)];
    }

    /** Connection::handleOutputNotification; `refused` is what getsockopt says about a connection under way. */
    method HandleOutput(refused: bool) returns (event: Event)
      requires Valid() && fd >= 0
      modifies this
      ensures Valid() && fd == old(fd) && handled == old(handled) && asked == old(asked) && input == old(input)
              && ending == old(ending)
      ensures old(status) == Connecting ==>
                status == (if refused then Error else Connected) && wire == [] && failed == old(failed)
                && !regWrite && regRead == (if refused then old(regRead) && !handled else true)
                && event == if !handled then Quiet else if refused then OnError else OnConnected
      ensures old(status) == Connected ==> status == Connected && old(wire) <= wire && event in {Quiet, OnError}
      ensures old(status) == Connected && old(packets) != [] ==> offers > old(offers) && short == (packets != [])
      ensures old(status) == Connected && !old(failed) ==> wire <= asked && (failed && handled ==> event == OnError)
      ensures old(status) != Connecting && old(status) != Connected ==>
              status == old(status) && wire == old(wire) && event == Quiet
      ensures (event == OnError ==> failed || status == Error) && (old(failed) ==> failed)
      ensures event == Quiet && handled ==> failed == old(failed)
    {
      event := Quiet;
      if status == Connecting {
        regWrite := false;
        if refused {
          status := Error;
          if handled {
            regRead, regWrite := false, false;
            event := OnError;
          }
          return;
        }
        regRead := true;
        status := Connected;
        if handled { event := OnConnected; }
      } else if status == Connected {
        var flushed := TryFlush();
        var err;
        err, event := CheckErrors();
      }
    }

    /** recv of at most MAXLEN bytes. */
    method KernelRecv() returns (got: seq<byte>, end: Ending)
      modifies this`input, this`ending, this`brought
      ensures |got| <= MAXLEN && input == old(input) + got
      ensures (ending == if got == [] then end else Later) && brought == |got|
    {
      ghost var nothing: seq<byte> := [];
      assert |nothing| <= MAXLEN;
      got :| |got| <= MAXLEN;
      end := *;
      input := input + got;
      ending, brought := if got == [] then end else Later, |got|;
    }

    /** The loop of handleInputNotification: whatever the kernel delivers comes out once, in order, in one piece
      * of at most LIMIT_LEN bytes, and every recv has MAXLEN bytes of room. Reading stops only when a recv brings
      * less than that, or at LIMIT_LEN.
      */
    method Receive() returns (data: seq<byte>)
      requires Valid()
      modifies this`input, this`status, this`ending, this`brought
      ensures Valid() && input == old(input) + data && |data| <= 0x100000
      ensures old(status) == Connected ==> brought < 0x2000 || |data| == 0x100000
      ensures old(status) != Connected ==> data == [] && status == old(status)
      ensures old(status) == Connected ==>
                status == match ending case Later => Connected case Broken => Error case Eof => Closed
    {
      data := [];
      if status != Connected { return; }
      hide Pending, QueueOk;
      var room := MAXLEN;
      ghost var rounds := 0;
      while true
        invariant status == old(status) && input == old(input) + data
        invariant |data| + MAXLEN <= room && (data != [] ==> ending == Later)
        invariant |data| == rounds * MAXLEN && rounds < LIMIT_LEN / MAXLEN
        decreases LIMIT_LEN - |data|
      {
        var got, end := KernelRecv();
        assert |data| + |got| <= room;
        data := data + got;
        if |got| >= MAXLEN {
          if |data| >= LIMIT_LEN { break; }
          room := |data| + MAXLEN;
          rounds := rounds + 1;
        } else {
          if got == [] {
            if end == Broken { status := Error; }
            else if end == Eof { status := Closed; }
          }
          break;
        }
      }
    }

    /** The end of handleInputNotification, after onRecv. */
    method Ended() returns (event: Event)
      requires Valid()
      modifies this`regRead, this`regWrite
      ensures Valid()
      ensures event == if !handled || (status != Error && status != Closed) then Quiet
                       else if status == Error then OnError else OnDisconnected
      ensures if event == Quiet then unchanged(this) else !regRead && !regWrite
    {
      event := Quiet;
      if handled {
        if status == Error {
          regRead, regWrite := false, false;
          event := OnError;
        } else if status == Closed {
          regRead, regWrite := false, false;
          event := OnDisconnected;
        }
      }
    }
  }

  lemma NothingAsked(conn: Connection)
    requires conn.Valid() && conn.status == Connecting
    ensures conn.asked == []
  {
  }
}
