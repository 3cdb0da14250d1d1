/** The tunnel of src/proxy_tunnel.cpp: CONNECT, buffer what the client sends meanwhile, then relay. */
module Tunnels {
  import opened Streams
  import opened SpillFile
  import opened Connections
  import opened Spill
  import opened Header

  const HEADER_SIZE: nat := 1024

  const OK_LINE: seq<byte> := Ascii("200 Connection established")

  datatype ProxyStatus = ProxyClosed | ProxyError | ProxyConnecting | ProxyConnected

  /** What the owner of the tunnel was last told. */
  datatype Notice = NoNotice | Closing | Failing

  /** What was said and heard in a session. */
  datatype Past = Past(
    started: bool,         // onConnected ran: the CONNECT request was passed on
    over: bool,            // both connections were shut down
    received: seq<byte>,   // local bytes seen by onRecv
    sent: seq<byte>,       // bytes passed to mProxyConn.send
    relayed: seq<byte>,    // bytes passed to mLocalConn.send
    answer: seq<byte>,     // the header that was accepted
    cut: nat,              // how much the proxy had sent by then
    faultsBefore: nat)     // writes to the spill file that had failed before the session

  /** A session so far, with the state it has led to. */
  datatype Story = Story(
    past: Past,
    status: ProxyStatus,
    request: seq<byte>,
    stale: seq<byte>,      // what the cache held when the session began
    cached: seq<byte>,
    sound: bool,           // no write to the spill file failed in this session
    proxy: View,
    local: View)

  /** A full header with the OK line in it has come from the proxy. */
  predicate Answered(s: Story) {
    && BlankLine(s.past.answer) && Holds(s.past.answer, OK_LINE)
    && s.past.cut <= |s.proxy.input|
    && (NulFree(s.proxy.input[..s.past.cut]) ==> s.past.answer == s.proxy.input[..s.past.cut])
  }

  function Asked(s: Story): seq<byte> {
    if s.past.started then s.request else []
  }

  /** What the proxy is to get in the end. */
  function Due(s: Story): seq<byte> {
    Asked(s) + (s.stale + s.past.received)
  }

  lemma DueGrows(s: Story, s': Story, data: seq<byte>)
    requires s'.stale == s.stale && s'.past.received == s.past.received + data && Asked(s') == Asked(s)
    ensures Due(s') == Due(s) + data
  {
    assert s.stale + (s.past.received + data) == s.stale + s.past.received + data;
  }

  /** What holds at every moment of a session, also in the middle of a callback. */
  predicate Told(s: Story) {
    && (s.sound ==> s.past.sent <= Due(s))
    && (s.status == ProxyConnected || |s.past.sent| > |Asked(s)| ==> Answered(s))
    && s.past.cut <= |s.proxy.input|
    && (!s.past.over ==> Going(s))
  }

  predicate Going(s: Story) {
    && s.local.fd >= 0 && s.local.handled && s.proxy.fd >= 0
    && (s.sound ==> s.past.sent + s.cached == Due(s))
    && (s.status == ProxyConnected ==> s.cached == [])
    && (s.status != ProxyConnected ==> s.past.sent == Asked(s) && s.past.relayed == [])
    && (s.status == ProxyClosed ==> !s.past.started)
    && (s.status != ProxyClosed ==> s.past.started)
    && (s.proxy.status == Connected && !s.proxy.failed ==> s.proxy.asked == s.past.sent)
    && (s.proxy.status == Connecting ==> s.status == ProxyClosed)
    && (s.local.status == Connected && !s.local.failed ==> s.local.asked == s.past.relayed)
  }

  /** What holds in addition between two dispatches; `text` is the header read so far. */
  predicate Settled(s: Story, text: seq<byte>) {
    if s.past.over then s.local.fd < 0 && s.proxy.fd < 0
    else s.local.status == Connected && !s.local.failed && s.past.received == s.local.input
         && (s.proxy.handled ==> Listening(s, text)) && (s.status == ProxyConnected ==> s.proxy.handled)
  }

  /** The proxy connection is up or coming up. */
  predicate Listening(s: Story, text: seq<byte>) {
    && s.proxy.status in {Connecting, Connected}
    && (s.proxy.status == Connected ==> s.status in {ProxyConnecting, ProxyConnected})
    && (s.proxy.status == Connecting ==> s.proxy.input == [])
    && Heard(s, s.proxy.input, text)
  }

  /** What the proxy sent is in the header, or was relayed from where the header ended. */
  predicate Heard(s: Story, input: seq<byte>, text: seq<byte>) {
    && !s.proxy.failed && s.past.cut <= |input|
    && (s.status == ProxyConnected ==> s.past.relayed == input[s.past.cut..])
    && (s.status == ProxyConnecting && NulFree(input) ==> text == input)
  }

  /** What was said and heard stays said and heard. */
  predicate SamePast(s: Story, s': Story) {
    && s'.past.(over := s.past.over) == s.past && s'.status == s.status && s'.request == s.request
    && s'.sound == s.sound && s'.stale == s.stale && s'.proxy.input == s.proxy.input
  }

  lemma Ends(s: Story, s': Story, text: seq<byte>)
    requires Told(s) && s'.past.over && s'.local.fd < 0 && s'.proxy.fd < 0 && SamePast(s, s')
    ensures Told(s') && Settled(s', text)
  {
  }

  lemma Ended(s: Story, text: seq<byte>)
    requires Told(s) && Settled(s, text)
    ensures s.past.over <==> s.local.fd < 0
    ensures s.past.over ==> s.proxy.fd < 0
  {
  }

  lemma OverAlready(s: Story, s': Story)
    requires Told(s) && s.past.over && SamePast(s, s') && s'.past == s.past
    ensures Told(s')
  {
  }

  lemma Unheard(s: Story, s': Story)
    requires Told(s) && s' == s.(proxy := s.proxy.(handled := false))
    ensures Told(s')
  {
  }

  /** Bytes of the proxy are passed to the client while the tunnel is up. */
  lemma Relayed(s: Story, s': Story, before: seq<byte>, data: seq<byte>, event: Event, text: seq<byte>)
    requires Told(s) && !s.past.over && s.status == ProxyConnected && s.local.status == Connected && !s.local.failed
    requires Heard(s, before, text) && s.proxy.input == before + data
    requires s' == s.(past := s.past.(relayed := s.past.relayed + data), local := s'.local)
    requires Took(s.local, s'.local, data, event)
    ensures Told(s') && !s'.proxy.failed && s'.local.fd >= 0
    ensures event == Quiet ==> s'.local.status == Connected && !s'.local.failed && Heard(s', s'.proxy.input, text)
  {
    assert (before + data)[s.past.cut..] == before[s.past.cut..] + data;
  }

  lemma HeaderGrew(s: Story, before: seq<byte>, data: seq<byte>, text: seq<byte>, text': seq<byte>)
    requires Heard(s, before, text) && s.proxy.input == before + data && text' == text + CString(data)
    requires s.status == ProxyConnecting
    ensures Heard(s, s.proxy.input, text')
  {
    if NulFree(s.proxy.input) {
      assert NulFree(before) by { assert forall i :: 0 <= i < |before| ==> before[i] == s.proxy.input[i]; }
      assert NulFree(data) by { assert forall i :: 0 <= i < |data| ==> data[i] == s.proxy.input[|before| + i]; }
      NulFreeString(data);
    }
  }

  lemma OkLineNulFree()
    ensures NulFree(OK_LINE)
  {
  }

  lemma Witness(text: seq<byte>, j: nat)
    requires j < |text| && MatchAt(text, j, OK_LINE)
    ensures Holds(text, OK_LINE)
  {
  }

  lemma NoWitness(text: seq<byte>)
    requires forall j :: 0 <= j < |text| ==> !MatchAt(text, j, OK_LINE)
    ensures !Holds(text, OK_LINE)
  {
  }

  lemma StringLength(buf: seq<byte>)
    ensures |CString(buf)| == StrLen(buf)
  {
  }

  lemma TurnedDown(s: Story, s': Story)
    requires Told(s) && !s.past.over && s.status == ProxyConnecting && s' == s.(status := ProxyError)
    ensures Told(s')
  {
  }

  /** The tunnel is established and everything held back is handed over, in order, ahead of later bytes. */
  lemma Accepted(s: Story, s': Story, text: seq<byte>, handed: seq<byte>, event: Event)
    requires Told(s) && !s.past.over && s.status == ProxyConnecting && Heard(s, s.proxy.input, text) && s.proxy.handled
    requires BlankLine(text) && Holds(text, OK_LINE)
    requires s' == s.(status := ProxyConnected, proxy := s'.proxy, cached := s'.cached,
                      past := s.past.(answer := text, cut := |s'.proxy.input|, sent := s.past.sent + handed,
                                      over := event == OnError))
    requires Took(s.proxy, s'.proxy, handed, event) && handed + s'.cached == s.cached
             && (event == Quiet ==> s'.cached == [])
    requires event in {Quiet, OnError}
    ensures Told(s') && (event == Quiet ==> Heard(s', s'.proxy.input, text))
  {
    assert s.proxy.input[..|s.proxy.input|] == s.proxy.input;
    assert s.past.sent + handed + s'.cached == s.past.sent + s.cached;
    assert s.past.sent + handed + [] == s.past.sent + handed;
  }

  lemma Opened(s: Story, text: seq<byte>)
    requires Told(s) && Settled(s, text) && !s.past.over
    ensures s.past.received == s.local.input
    ensures s.local.status == Connected && !s.local.failed && s.local.handled && s.local.fd >= 0 && s.proxy.fd >= 0
    ensures s.status == ProxyConnected ==> s.proxy.handled
    ensures s.proxy.handled ==> Listening(s, text) && !s.proxy.failed
  {
  }

  /** Reading from the local connection may find it at its end. */
  lemma LocalView(s: Story, s': Story, text: seq<byte>)
    requires Told(s) && !s.past.over && (s.proxy.handled ==> Listening(s, text))
    requires s' == s.(local := s.local.(input := s'.local.input, status := s'.local.status, ending := s'.local.ending))
    requires s'.local.status == s.local.status || s'.local.status in {Error, Closed}
    ensures Told(s') && (s.proxy.handled ==> Listening(s', text))
  {
  }

  lemma Unfailed(s: Story, text: seq<byte>)
    requires Told(s)
    ensures !s.past.over && s.proxy.handled && Listening(s, text) ==> !s.proxy.failed
    ensures !s.past.over ==> s.local.handled
  {
  }

  lemma Resettled(s: Story, text: seq<byte>)
    requires Told(s) && !s.past.over && !s.local.failed && (s.proxy.handled ==> Listening(s, text))
    requires s.status == ProxyConnected ==> s.proxy.handled
    requires s.local.status == Connected && s.past.received == s.local.input
    ensures Settled(s, text)
  {
  }

  /** Reading from the proxy connection may find it at its end. */
  lemma ProxyView(s: Story, s': Story, data: seq<byte>, text: seq<byte>)
    requires Told(s) && !s.past.over && (s.proxy.handled ==> Listening(s, text)) && s.proxy.status == Connected
    requires s' == s.(proxy := s.proxy.(input := s'.proxy.input, status := s'.proxy.status, ending := s'.proxy.ending))
    requires s'.proxy.input == s.proxy.input + data && s'.proxy.status in {Connected, Error, Closed}
    ensures Told(s')
    ensures s.proxy.handled ==> s.status in {ProxyConnecting, ProxyConnected} && Heard(s', s.proxy.input, text)
    ensures s.proxy.handled && data == [] ==> Heard(s', s'.proxy.input, text)
  {
    assert s'.proxy.input[..s.past.cut] == s.proxy.input[..s.past.cut];
    assert s.proxy.input + [] == s.proxy.input;
  }

  lemma StillUp(s: Story, text: seq<byte>)
    requires Told(s) && !s.past.over && s.local.status == Connected && !s.local.failed
             && s.past.received == s.local.input
    requires s.status == ProxyConnected ==> s.proxy.handled
    requires s.proxy.handled ==>
               s.proxy.status == Connected && s.status in {ProxyConnecting, ProxyConnected}
                 && Heard(s, s.proxy.input, text)
    ensures Settled(s, text)
  {
  }

  lemma LocalFlushed(s: Story, s': Story, text: seq<byte>)
    requires Told(s) && Settled(s, text) && !s.past.over
    requires s' == s.(local := s.local.(wire := s'.local.wire, failed := s'.local.failed))
    ensures Told(s') && (!s'.local.failed ==> Settled(s', text))
  {
  }

  lemma ProxyFlushed(s: Story, s': Story, event: Event, text: seq<byte>)
    requires Told(s) && Settled(s, text) && !s.past.over
    requires s' == s.(proxy := s.proxy.(wire := s'.proxy.wire, failed := s'.proxy.failed, status := s'.proxy.status))
    requires s.proxy.status == Connecting ==>
               s.proxy.asked == [] && s'.proxy.status in {Connected, Error} && s'.proxy.failed == s.proxy.failed
               && (s.proxy.handled ==> event == if s'.proxy.status == Error then OnError else OnConnected)
               && (!s.proxy.handled ==> event == Quiet)
    requires s.proxy.status != Connecting ==> s'.proxy.status == s.proxy.status && event in {Quiet, OnError}
    requires event == Quiet && s.proxy.handled ==> s'.proxy.failed == s.proxy.failed
    requires s.proxy.failed ==> s'.proxy.failed
    ensures Told(s')
    ensures event == Quiet ==> Settled(s', text)
    ensures event == OnConnected ==> s.proxy.status == Connecting && s'.status == ProxyClosed && s'.proxy.input == []
                                     && s'.proxy.handled && !s'.proxy.failed && s'.proxy.status == Connected
  {
  }

  lemma EndsClosed(s: Story, s': Story, text: seq<byte>)
    requires Told(s) && s'.past.over && s'.local.fd < 0 && s'.proxy.fd < 0 && SamePast(s.(status := ProxyClosed), s')
    ensures Told(s') && Settled(s', text)
  {
  }

  /** While relaying, the cache is empty. */
  lemma FlushedNothing(s: Story, handed: seq<byte>, rest: seq<byte>)
    requires Told(s) && !s.past.over && handed + rest == s.cached
    ensures s.status == ProxyConnected ==> handed == rest == []
  {
  }

  /** Local bytes are passed on while the tunnel is up. */
  lemma PassedOn(s: Story, s': Story, data: seq<byte>, event: Event, text: seq<byte>)
    requires Told(s) && !s.past.over && s.status == ProxyConnected
    requires s' == s.(past := s.past.(received := s.past.received + data, sent := s.past.sent + data),
             proxy := s'.proxy)
    requires Took(s.proxy, s'.proxy, data, event)
    ensures Told(s')
    ensures event == Quiet && s.proxy.handled && Listening(s, text) ==> Listening(s', text)
  {
    assert s.past.sent + data + [] == s.past.sent + data && s.past.sent + [] == s.past.sent;
    DueGrows(s, s', data);
  }

  /** Local bytes are held back before that. */
  lemma HeldBack(s: Story, s': Story, data: seq<byte>, text: seq<byte>)
    requires Told(s) && !s.past.over && s.status != ProxyConnected
    requires s' == s.(past := s.past.(received := s.past.received + data), cached := s'.cached, sound := s'.sound)
    requires s'.sound ==> s.sound && s'.cached == s.cached + data
    ensures Told(s') && (Listening(s, text) ==> Listening(s', text))
  {
    DueGrows(s, s', data);
    assert s.past.sent + (s.cached + data) == s.past.sent + s.cached + data;
  }

  /** A session with nothing in it. */
  lemma Blank(s: Story, text: seq<byte>)
    requires s.status == ProxyClosed && !s.past.started && s.past.received == s.past.sent == s.past.relayed == []
    requires s.cached == s.stale && s.past.cut == 0
    requires !s.past.over ==>
               && s.local.fd >= 0 && s.local.handled && s.local.status == Connected && !s.local.failed
               && s.local.asked == s.local.input == []
               && s.proxy.fd >= 0 && !s.proxy.failed && s.proxy.asked == [] && s.proxy.input == []
    ensures Told(s)
    ensures !s.past.over && s.proxy.status == Connecting ==> Settled(s, text)
  {
    assert [] + (s.stale + []) == s.stale && [] + s.cached == s.cached;
  }

  /** The CONNECT request is passed on. */
  lemma Starts(s: Story, s': Story, event: Event)
    requires Told(s) && !s.past.over && s.status == ProxyClosed && s.proxy.status == Connected && !s.proxy.failed
             && s.proxy.handled
    requires s.local.status == Connected && !s.local.failed && s.proxy.input == [] && s.past.received == s.local.input
    requires s' == s.(status := ProxyConnecting, past := s.past.(started := true, sent := s.request), proxy := s'.proxy)
    requires Took(s.proxy, s'.proxy, s.request, event)
    ensures Told(s') && (event == Quiet ==> Settled(s', []))
  {
    assert [] + s.request == s.request;
    assert [] + s.cached == s.cached && [] + (s.stale + s.past.received) == s.stale + s.past.received;
  }

  /** What comes of bytes of the proxy before the tunnel is up: they are refused when they do not fit in the header,
    * and otherwise the header grows by them. A header without a blank line is waited for, one with the OK line opens
    * the tunnel, and any other is turned down. Only a connection error ends the session.
    */
  predicate HeaderOutcome(text: seq<byte>, data: seq<byte>, s: Story, text': seq<byte>, notice: Notice) {
    if |text| + |data| > 1023 then
      text' == text && !s.past.over && s.status == ProxyConnecting && notice == Failing && !s.proxy.handled
    else
      && text' == text + CString(data)
      && if !BlankLine(text') then !s.past.over && s.status == ProxyConnecting && s.proxy.handled
         else if Holds(text', OK_LINE) then
           s.past.answer == text'
           && if s.past.over then s.proxy.failed else s.status == ProxyConnected && s.proxy.handled
         else !s.past.over && s.status == ProxyError && notice == Failing && !s.proxy.handled
  }

  /** While the tunnel is up every byte is passed on to the client. */
  predicate RelayOutcome(s: Story, data: seq<byte>, s': Story) {
    && s'.past.relayed == s.past.relayed + data && s'.local.asked == s.local.asked + data
    && if s'.past.over then s'.local.failed else s'.proxy.handled && s'.status == ProxyConnected
  }

  /** What onRecv makes of bytes of the proxy. */
  predicate Outcome(s: Story, text: seq<byte>, data: seq<byte>, s': Story, text': seq<byte>, notice: Notice) {
    if s.status == ProxyConnecting then HeaderOutcome(text, data, s', text', notice)
    else if s.status == ProxyConnected && s.local.status == Connected then RelayOutcome(s, data, s')
    else s'.past == s.past && s'.status == s.status && notice == Failing && !s'.proxy.handled
  }

  /** The same when the connection turns out to have ended behind the bytes. */
  predicate Dispatched(s: Story, text: seq<byte>, data: seq<byte>, s': Story, text': seq<byte>, notice: Notice) {
    && (s.status == ProxyConnected && s.proxy.handled ==>
          s'.past.relayed == s.past.relayed + data && s'.local.asked == s.local.asked + data
          && (s'.past.over || s'.proxy.handled))
    && (s.status == ProxyConnecting && s.proxy.handled && data != [] && !s'.past.over ==>
          HeaderOutcome(text, data, s', text', notice))
    && (s'.past.over ==> s'.local.failed || s'.proxy.failed || s'.proxy.ending != Later)
  }

  lemma ThenEnded(was: Story, s: Story, text: seq<byte>, data: seq<byte>, mid: Story, s': Story, text': seq<byte>,
                  notice: Notice, notice': Notice)
    requires s == was.(proxy := s.proxy) && s.proxy.handled == was.proxy.handled
    requires s.local.status == Connected && s.status in {ProxyConnecting, ProxyConnected}
    requires Outcome(s, text, data, mid, text', notice)
    requires if s'.past.over == mid.past.over then s' == mid && notice' == notice
             else s'.past == mid.past.(over := true) && s'.local.asked == mid.local.asked && s'.proxy.ending != Later
    ensures Dispatched(was, text, data, s', text', notice')
  {
    hide HeaderOutcome;
    hide BlankLine, Holds, CString;
    if mid.past.over && s.status == ProxyConnecting { OverFailed(text, data, mid, text', notice); }
  }

  lemma OverFailed(text: seq<byte>, data: seq<byte>, s: Story, text': seq<byte>, notice: Notice)
    requires HeaderOutcome(text, data, s, text', notice) && s.past.over
    ensures s.proxy.failed
  {
    hide BlankLine, Holds, CString;
  }

  lemma NothingSent(s: Story, text: seq<byte>, data: seq<byte>, mid: Story, s': Story, text': seq<byte>, notice: Notice)
    requires !s.past.over && mid.past == s.past && mid.local == s.local && mid.proxy.handled == s.proxy.handled
    requires data == [] || !s.proxy.handled
    requires if s'.past.over == mid.past.over then s' == mid
             else s'.past == mid.past.(over := true) && s'.local.asked == mid.local.asked && s'.proxy.ending != Later
    ensures Dispatched(s, text, data, s', text', notice)
  {
    assert s.past.relayed + [] == s.past.relayed && s.local.asked + [] == s.local.asked;
  }

  lemma Appended(before: seq<byte>, data: seq<byte>)
    ensures before <= before + data && (before + data)[|before|..] == data
  {
  }

  /** The status of a connection after such a recv. */
  function After(e: Ending): Status {
    match e
    case Later => Connected
    case Broken => Error
    case Eof => Closed
  }

  /** What the owner is told of the end of a connection. */
  function Telling(e: Ending): Notice {
    if e == Broken then Failing else Closing
  }

  class Tunnel {
    const local: Connection
    const proxy: Connection
    const cache: Cache
    const header: array<byte>      // mHttpHeader
    var status: ProxyStatus
    var request: seq<byte>         // the CONNECT message for the destination that was set
    var notice: Notice
    ghost var past: Past
    ghost var stale: seq<byte>     // what an earlier session left in the cache

    ghost function Tale(): Story
      reads this, local, proxy, cache, cache.disk
    {
      Story(past, status, request, stale, cache.Contents(), cache.faults == past.faultsBefore, ViewOf(proxy),
        ViewOf(local))
    }

    ghost predicate Apart()
      reads this, local, proxy, cache, cache.disk, header
    {
      && local != proxy
      && header.Length == HEADER_SIZE && StrLen(header[..]) < HEADER_SIZE
      && request != [] && past.faultsBefore <= cache.faults
      && local.Valid() && proxy.Valid() && cache.Valid()
    }

    ghost predicate Sane()
      reads this, local, proxy, cache, cache.disk, header
    {
      Apart() && Told(Tale())
    }

    ghost predicate Valid()
      reads this, local, proxy, cache, cache.disk, header
    {
      Sane() && Settled(Tale(), CString(header[..]))
    }

    constructor (connect: seq<byte>)
      requires connect != []
      ensures Valid() && past.over && cache.Contents() == stale == []
      ensures fresh(local) && fresh(proxy) && fresh(cache) && fresh(cache.disk) && fresh(header)
    {
      local := new Connection();
      proxy := new Connection();
      cache := new Cache();
      header := new byte[HEADER_SIZE](_ => 0);
      status, request, notice := ProxyClosed, connect, NoNotice;
      past := Past(false, true, [], [], [], [], 0, 0);
      stale := [];
    }

    /** ProxyTunnel::acceptLocal. What an earlier session left in the cache goes ahead of the new session's bytes;
      * proxy_client.cpp reuses a tunnel only after cleanup.
      */
    method AcceptLocal(connfd: nat, nonblocking: bool, newfd: nat, dial: Dial) returns (ok: bool)
      requires Valid()
      modifies this, local, proxy, cache, cache.disk, header
      ensures Valid() && request == old(request)
      ensures ok <==> old(past).over && nonblocking && (dial.Now? || dial.InProgress?)
      ensures !old(past).over ==> Tale() == old(Tale())
      ensures stale == old(stale) || stale == old(cache.Contents())
      ensures ok ==> stale == old(cache.Contents())
      ensures ok && past.over ==> proxy.failed
      ensures ok ==> past.received == [] && (!past.over ==> dial.Now? == past.started)
    {
      hide Told, Settled, CString, StrLen, Answered, Connection.Valid, Cache.Contents, Cache.Valid;
      ghost var was := Tale();
      Ended(was, CString(header[..]));
      ok := local.Accept(connfd, nonblocking);
      if !ok {
        if was.past.over { Ends(was, Tale(), CString(header[..])); }
        return;
      }
      local.SetHandler(true);
      OverAlready(was, Tale());
      ok := DialProxy(newfd, dial);
    }

    /** The second half of acceptLocal, from the connection to the proxy on. */
    method DialProxy(newfd: nat, dial: Dial) returns (ok: bool)
      requires Sane() && past.over
      requires local.fd >= 0 && local.handled && local.status == Connected && !local.failed
               && local.asked == local.input == []
      modifies this, local, proxy, cache, cache.disk, header
      ensures Valid() && request == old(request)
      ensures ok <==> dial.Now? || dial.InProgress?
      ensures stale == old(cache.Contents())
      ensures ok && past.over ==> proxy.failed
      ensures ok ==> past.received == [] && (!past.over ==> dial.Now? == past.started)
    {
      hide Told, Settled, CString, StrLen, Answered, Connection.Valid, Cache.Contents, Cache.Valid;
      proxy.SetHandler(true);
      var event;
      ok, event := proxy.Connect(newfd, dial);
      Begin(ok);
      if !ok {
        NoProxy();
      } else if event == OnConnected {
        ProxyUp();
      }
    }

    method Begin(going: bool)
      requires Apart()
      requires going ==>
                 local.fd >= 0 && local.handled && local.status == Connected && !local.failed
                 && local.asked == local.input == []
      requires going ==> proxy.fd >= 0 && !proxy.failed && proxy.asked == proxy.input == []
      modifies this
      ensures stale == cache.Contents()
      ensures Sane() && request == old(request) && status == ProxyClosed && !past.started && past.received == []
              && past.over == !going
      ensures going && proxy.status == Connecting ==> Valid()
    {
      hide Told, Settled, CString, StrLen, Answered, Connection.Valid, Cache.Contents, Cache.Valid;
      status, stale := ProxyClosed, cache.Contents();
      past := Past(false, !going, [], [], [], [], 0, cache.faults);
      Blank(Tale(), CString(header[..]));
    }

    method NoProxy()
      requires Sane() && past.over && proxy.fd < 0
      modifies local, proxy
      ensures Valid()
    {
      hide Told, Settled, CString, StrLen, Answered, Connection.Valid, Cache.Contents, Cache.Valid;
      ghost var was := Tale();
      Drop(local, true);
      proxy.SetHandler(false);
      Ends(was, Tale(), CString(header[..]));
    }

    /** ProxyTunnel::onConnected */
    method ProxyUp()
      requires Sane() && !past.over && status == ProxyClosed && proxy.status == Connected && !proxy.failed
               && proxy.handled
      requires local.status == Connected && !local.failed && proxy.input == [] && past.received == local.input
      modifies this`past, this`status, this`notice, local, proxy, cache, cache.disk, header
      ensures past.over ==> proxy.failed
      ensures Valid() && past.started && past.sent == request && request == old(request)
              && past.received == old(past.received) && past.faultsBefore == old(past.faultsBefore)
    {
      hide Told, Settled, Answered, Connection.Valid, Cache.Contents, Cache.Valid, Took;
      ghost var was := Tale();
      status := ProxyConnecting;
      header[0] := 0;
      past := past.(started := true, sent := request);
      StrLenIs(header[..], 0);
      var event := Pass(proxy, request);
      Starts(was, Tale(), event);
      if event == OnError { ProxyFailed(); }
    }

    /** Connection::send, on either connection of the tunnel. */
    method Pass(conn: Connection, data: seq<byte>) returns (event: Event)
      requires conn.Valid() && data != []
      modifies conn
      ensures conn.Valid() && event in {Quiet, OnError} && Took(old(ViewOf(conn)), ViewOf(conn), data, event)
    {
      event := conn.Send(data);
      assert conn.asked + [] == conn.asked;
    }

    /** shutdown, after setEventHandler(NULL) if `silence`. */
    method Drop(conn: Connection, silence: bool)
      requires conn.Valid()
      modifies conn
      ensures conn.Valid() && conn.fd < 0
      ensures conn.Remembered() == old(conn.Remembered())
      ensures conn.handled == (old(conn.handled) && !silence)
    {
      if silence { conn.SetHandler(false); }
      conn.Shutdown();
    }

    /** ProxyTunnel::onError for the proxy connection */
    method ProxyFailed()
      requires Sane()
      modifies this`past, this`notice, local, proxy, cache, cache.disk
      ensures local.Remembered() == old(local.Remembered()) && proxy.Remembered() == old(proxy.Remembered())
      ensures Valid() && past == old(past).(over := true) && notice == Failing && cache.Contents() == []
              && !local.handled && !proxy.handled
      ensures local.status == Closed
    {
      hide Told, Settled, CString, StrLen, Answered, Connection.Valid, Cache.Contents, Cache.Valid;
      ghost var was := Tale();
      Drop(proxy, true);
      cache.Clear();
      Drop(local, true);
      past := past.(over := true);
      notice := Failing;
      Ends(was, Tale(), CString(header[..]));
    }

    /** ProxyTunnel::onDisconnected for the proxy connection */
    method ProxyGone()
      requires Sane()
      modifies this`past, this`notice, local, proxy, cache, cache.disk
      ensures local.Remembered() == old(local.Remembered()) && proxy.Remembered() == old(proxy.Remembered())
      ensures Valid() && past == old(past).(over := true) && notice == Closing && cache.Contents() == []
    {
      hide Told, Settled, CString, StrLen, Answered, Connection.Valid, Cache.Contents, Cache.Valid;
      ghost var was := Tale();
      Drop(proxy, false);
      cache.Clear();
      Drop(local, false);
      past := past.(over := true);
      notice := Closing;
      Ends(was, Tale(), CString(header[..]));
    }

    /** ProxyTunnel::onDisconnected and onError for the local connection: nothing is left to flush by then. */
    method LocalGone(failed: bool)
      requires Sane() && !past.over && (proxy.handled ==> !proxy.failed)
      modifies this`past, this`notice, this`status, local, proxy, cache, cache.disk
      ensures local.Remembered() == old(local.Remembered())
      ensures proxy.input == old(proxy.input) && proxy.ending == old(proxy.ending)
      ensures Valid() && past == old(past).(over := true) && notice == (if failed then Failing else Closing)
      ensures proxy.handled == (old(proxy.handled) && !failed)
      ensures cache.Contents() == old(cache.Contents())
    {
      hide Told, Settled, CString, StrLen, Answered, Connection.Valid, Cache.Contents, Cache.Valid;
      ghost var was := Tale();
      ghost var handed := CloseBoth(failed);
      FlushedNothing(was, handed, cache.Contents());
      past := past.(over := true);
      notice := if failed then Failing else Closing;
      EndsClosed(was, Tale(), CString(header[..]));
    }

    /** The local connection is closed, what may be flushed is flushed, and the proxy connection is closed. */
    method CloseBoth(failed: bool) returns (ghost sent: seq<byte>)
      requires local != proxy && local.Valid() && proxy.Valid() && cache.Valid()
      modifies this`status, local, proxy, cache`list, cache`lenInMem, cache`lenInFile, cache.disk
      ensures local.Valid() && proxy.Valid() && cache.Valid() && cache.faults == old(cache.faults)
      ensures local.fd < 0 && proxy.fd < 0 && status == ProxyClosed
      ensures local.Remembered() == old(local.Remembered())
      ensures proxy.input == old(proxy.input) && proxy.ending == old(proxy.ending)
      ensures proxy.handled == (old(proxy.handled) && !failed)
      ensures sent + cache.Contents() == old(cache.Contents())
      ensures old(status) != ProxyConnected ==> cache.Contents() == old(cache.Contents())
    {
      hide Connection.Valid, Cache.Contents, Cache.Valid, Took, Concat;
      Drop(local, false);
      var event, handed := FlushLocal();
      sent := Concat(handed);
      status := ProxyClosed;
      Drop(proxy, failed);
    }

    /** ProxyTunnel::flushLocal */
    method FlushLocal() returns (event: Event, ghost handed: seq<seq<byte>>)
      requires cache.Valid() && proxy.Valid()
      modifies cache`list, cache`lenInMem, cache`lenInFile, cache.disk, proxy
      ensures cache.Valid() && proxy.Valid() && cache.faults == old(cache.faults) && event in {Quiet, OnError}
      ensures Concat(handed) + cache.Contents() == old(cache.Contents())
      ensures Took(old(ViewOf(proxy)), ViewOf(proxy), Concat(handed), event)
      ensures (event == OnError ==> proxy.failed) && proxy.ending == old(proxy.ending)
      ensures proxy.input == old(proxy.input) && proxy.handled == old(proxy.handled)
              && proxy.status == old(proxy.status)
      ensures status == ProxyConnected && event == Quiet ==> cache.Contents() == []
      ensures status != ProxyConnected ==> handed == [] && cache.Contents() == old(cache.Contents())
    {
      hide Connection.Valid, Cache.Valid, Cache.Contents, Concat;
      event, handed := Quiet, [];
      TookNothing(ViewOf(proxy), cache.Contents());
      if status == ProxyConnected {
        var ok;
        ok, event, handed := cache.FlushAll(proxy, -1);
      }
    }

    /** ProxyTunnel::cleanup */
    method Cleanup()
      requires Sane()
      modifies this`past, this`status, local, proxy, cache, cache.disk
      ensures Valid() && past == old(past).(over := true) && cache.Contents() == []
      ensures local.fd < 0 && proxy.fd < 0
    {
      hide Told, Settled, CString, StrLen, Answered, Connection.Valid, Cache.Contents, Cache.Valid;
      ghost var was := Tale();
      cache.Clear();
      Drop(local, true);
      status := ProxyClosed;
      Drop(proxy, true);
      past := past.(over := true);
      EndsClosed(was, Tale(), CString(header[..]));
    }

    /** ProxyTunnel::onRecv for bytes of the local client. */
    method LocalData(data: seq<byte>, fault: Fault)
      requires Sane() && !past.over && Chunk(data) && Possible(fault, |data|)
      requires local.status != Connecting && !local.failed && (proxy.handled ==> Listening(Tale(), CString(header[..])))
      modifies this`past, this`status, this`notice, local, proxy, cache, cache.disk
      ensures old(status) == ProxyConnected && old(proxy.status) == Connected && old(proxy.fd) >= 0 ==>
                proxy.asked == old(proxy.asked) + data
      ensures if past.over then proxy.failed && old(status) == ProxyConnected
              else status == old(status) && proxy.handled == old(proxy.handled)
      ensures local.input == old(local.input) && local.ending == old(local.ending)
      ensures Sane() && request == old(request) && past.received == old(past.received) + data
      ensures past.sent == old(past.sent) + (if old(status) == ProxyConnected then data else [])
      ensures old(status) != ProxyConnected && fault == NoFault ==> cache.Contents() == old(cache.Contents()) + data
      ensures past.over || (local.status == old(local.status) && local.input == old(local.input))
      ensures past.over || (!local.failed && (proxy.handled ==> Listening(Tale(), CString(header[..]))))
      ensures past.over ==> Valid() && !local.handled && local.status == Closed
    {
      hide Told, Settled, CString, StrLen, Answered, Connection.Valid, Cache.Contents, Cache.Valid, Took, Listening;
      ghost var was := Tale();
      if status == ProxyConnected {
        past := past.(received := past.received + data, sent := past.sent + data);
        var event := Pass(proxy, data);
        PassedOn(was, Tale(), data, event, CString(header[..]));
        if event == OnError { ProxyFailed(); }
      } else {
        past := past.(received := past.received + data);
        cache.Add(data, fault);
        HeldBack(was, Tale(), data, CString(header[..]));
      }
    }

    /** ProxyTunnel::onRecv for bytes of the proxy; `before` is what the proxy had sent earlier. */
    method ProxyData(data: seq<byte>, ghost before: seq<byte>)
      requires Sane() && !past.over && data != [] && proxy.handled && proxy.input == before + data
      requires !local.failed && Heard(Tale(), before, CString(header[..]))
      modifies this`past, this`status, this`notice, local, proxy, cache, cache.disk, header
      ensures Outcome(old(Tale()), old(CString(header[..])), data, Tale(), CString(header[..]), notice)
      ensures proxy.input == old(proxy.input) && proxy.ending == old(proxy.ending)
      ensures old(local.status) == Connected && !past.over && status == ProxyConnected ==> proxy.handled
      ensures Sane() && request == old(request) && past.received == old(past.received)
      ensures past.over ==> Valid() && !proxy.handled
      ensures !past.over ==>
                local.input == old(local.input) && local.status == old(local.status) && !local.failed
                && proxy.status == old(proxy.status)
      ensures !past.over && proxy.handled ==>
                status in {ProxyConnecting, ProxyConnected} && Heard(Tale(), proxy.input, CString(header[..]))
    {
      hide Told, Settled, CString, Answered, Connection.Valid, Cache.Contents, Cache.Valid, Took, Heard;
      match status {
        case ProxyConnecting => HeaderData(data, before);
        case ProxyConnected =>
          if local.status != Connected {
            Refuse();
          } else {
            RelayData(data, before);
          }
        case _ => Refuse();
      }
    }

    /** setEventHandler(NULL) on the proxy connection, and _onError */
    method Refuse()
      requires Sane() && !past.over && !local.failed
      modifies this`notice, proxy`handled
      ensures Sane() && !proxy.handled && notice == Failing
    {
      hide Told, Settled, CString, StrLen, Answered, Connection.Valid, Cache.Contents, Cache.Valid;
      ghost var was := Tale();
      proxy.SetHandler(false);
      notice := Failing;
      Unheard(was, Tale());
    }

    /** The ProxyConnecting case of onRecv: the header grows by the data, unless it would not fit. */
    method HeaderData(data: seq<byte>, ghost before: seq<byte>)
      requires Sane() && !past.over && data != [] && proxy.handled && proxy.input == before + data
               && status == ProxyConnecting
      requires !local.failed && Heard(Tale(), before, CString(header[..]))
      modifies this`past, this`status, this`notice, local, proxy, cache, cache.disk, header
      ensures HeaderOutcome(old(CString(header[..])), data, Tale(), CString(header[..]), notice)
      ensures proxy.input == old(proxy.input) && proxy.ending == old(proxy.ending)
      ensures Sane() && request == old(request) && past.received == old(past.received)
      ensures past.over ==> Valid() && !proxy.handled
      ensures !past.over ==>
                local.input == old(local.input) && local.status == old(local.status) && !local.failed
                && proxy.status == old(proxy.status)
      ensures !past.over && proxy.handled ==>
                status in {ProxyConnecting, ProxyConnected} && Heard(Tale(), proxy.input, CString(header[..]))
    {
      hide Told, Settled, Answered, Connection.Valid, Cache.Contents, Cache.Valid, Took, Heard, StrLen, CString;
      ghost var text := CString(header[..]);
      var n := StrLen(header[..]);
      StringLength(header[..]);
      if |data| > HEADER_SIZE - 1 - n {
        Refuse();
        return;
      }
      Append(n, data);
      HeaderGrew(Tale(), before, data, text, CString(header[..]));
      ParseHeader();
    }

    /** memcpy and the terminator */
    method Append(n: nat, data: seq<byte>)
      requires header.Length == HEADER_SIZE && n == StrLen(header[..]) && n + |data| < HEADER_SIZE
      modifies header
      ensures StrLen(header[..]) < HEADER_SIZE && CString(header[..]) == old(CString(header[..])) + CString(data)
    {
      hide StrLen, CString;
      ghost var was := header[..];
      forall i | 0 <= i < |data| {
        header[n + i] := data[i];
      }
      header[n + |data|] := 0;
      assert header[..][..n] == was[..n];
      assert header[..][n..n + |data|] == data;
      Extended(was, header[..], data);
    }

    /** ProxyTunnel::parseHttpHeader */
    method ParseHeader()
      requires Sane() && !past.over && proxy.handled && status == ProxyConnecting
      requires !local.failed && Heard(Tale(), proxy.input, CString(header[..]))
      modifies this`past, this`status, this`notice, local, proxy, cache, cache.disk
      ensures var text := CString(header[..]);
              if !BlankLine(text) then Tale() == old(Tale())
              else if Holds(text, OK_LINE) then
                past.answer == text && if past.over then proxy.failed else status == ProxyConnected && proxy.handled
              else !past.over && status == ProxyError && notice == Failing && !proxy.handled
      ensures proxy.input == old(proxy.input) && proxy.ending == old(proxy.ending)
      ensures Sane() && request == old(request) && past.received == old(past.received)
      ensures past.over ==> Valid() && !proxy.handled
      ensures !past.over ==>
                local.input == old(local.input) && local.status == old(local.status) && !local.failed
                && proxy.status == old(proxy.status)
      ensures !past.over && proxy.handled ==>
                status in {ProxyConnecting, ProxyConnected} && Heard(Tale(), proxy.input, CString(header[..]))
    {
      hide Told, Settled, Answered, Connection.Valid, Cache.Contents, Cache.Valid, Took, Heard, StrLen, MatchAt,
           BlankLine, Holds;
      var text := CString(header[..]);
      var full := FullHeader(text);
      if !full { return; }
      OkLineNulFree();
      var found := StrStrICase(text, OK_LINE);
      if found.At? {
        assert Holds(text, OK_LINE) by { Witness(text, found.index); }
        Accept(text);
      } else {
        assert !Holds(text, OK_LINE) by { NoWitness(text); }
        RefuseHeader();
      }
    }

    method RefuseHeader()
      requires Sane() && !past.over && status == ProxyConnecting && !local.failed
      modifies this`notice, this`status, proxy`handled
      ensures Sane() && !proxy.handled && notice == Failing && status == ProxyError
    {
      hide Told, Settled, CString, StrLen, Answered, Connection.Valid, Cache.Contents, Cache.Valid;
      ghost var was := Tale();
      status := ProxyError;
      TurnedDown(was, Tale());
      Refuse();
    }

    /** The tunnel is established: what was held back goes out first. */
    method Accept(text: seq<byte>)
      requires Sane() && !past.over && proxy.handled && status == ProxyConnecting
      requires text == CString(header[..]) && BlankLine(text) && Holds(text, OK_LINE)
      requires !local.failed && Heard(Tale(), proxy.input, text)
      modifies this`past, this`status, this`notice, local, proxy, cache, cache.disk
      ensures if past.over then proxy.failed else proxy.handled
      ensures past.answer == text && (past.over || status == ProxyConnected)
      ensures proxy.input == old(proxy.input) && proxy.ending == old(proxy.ending)
      ensures Sane() && request == old(request) && past.received == old(past.received)
      ensures past.over ==> Valid() && !proxy.handled
      ensures !past.over ==>
                local.input == old(local.input) && local.status == old(local.status) && !local.failed
                && proxy.status == old(proxy.status)
      ensures !past.over ==> status == ProxyConnected && Heard(Tale(), proxy.input, text)
    {
      hide Told, Settled, CString, StrLen, Answered, Connection.Valid, Cache.Contents, Cache.Valid, Took, Heard,
           BlankLine, Holds;
      ghost var was := Tale();
      status := ProxyConnected;
      var event, handed := FlushLocal();
      past := past.(answer := text, cut := |proxy.input|, sent := past.sent + Concat(handed),
                    over := event == OnError);
      Accepted(was, Tale(), text, Concat(handed), event);
      if event == OnError { ProxyFailed(); }
    }

    /** Bytes that come back through the tunnel. */
    method RelayData(data: seq<byte>, ghost before: seq<byte>)
      requires Sane() && !past.over && data != [] && proxy.handled && proxy.input == before + data
               && status == ProxyConnected
      requires local.status == Connected && !local.failed && Heard(Tale(), before, CString(header[..]))
      modifies this`past, this`status, this`notice, local, proxy, cache, cache.disk
      ensures local.asked == old(local.asked) + data && if past.over then local.failed else proxy.handled
      ensures past.relayed == old(past.relayed) + data
      ensures proxy.input == old(proxy.input) && proxy.ending == old(proxy.ending)
      ensures Sane() && request == old(request) && past.received == old(past.received)
      ensures past.over ==> Valid() && !proxy.handled
      ensures !past.over ==>
                local.input == old(local.input) && local.status == old(local.status) && !local.failed
                && proxy.status == old(proxy.status)
      ensures !past.over ==> status == ProxyConnected && Heard(Tale(), proxy.input, CString(header[..]))
    {
      hide Told, Settled, CString, StrLen, Answered, Connection.Valid, Cache.Contents, Cache.Valid, Took, Heard;
      ghost var was := Tale();
      past := past.(relayed := past.relayed + data);
      var event := Pass(local, data);
      Relayed(was, Tale(), before, data, event, CString(header[..]));
      if event == OnError { LocalGone(true); }
    }

    // ---------- what the poller dispatches ----------

    /** handleInputNotification of the local connection. */
    method LocalReadable()
      requires Valid() && !past.over
      modifies this`past, this`status, this`notice, local, proxy, cache, cache.disk
      ensures old(local.input) <= local.input && past.received == old(past.received) + local.input[|old(local.input)|..]
      ensures old(status) == ProxyConnected ==> past.sent == old(past.sent) + local.input[|old(local.input)|..]
      ensures old(status) != ProxyConnected ==> past.sent == old(past.sent)
      ensures past.over && !(proxy.failed && old(status) == ProxyConnected) ==> notice == Telling(local.ending)
      ensures past.over ==> local.ending != Later || (proxy.failed && old(status) == ProxyConnected)
      ensures Valid() && request == old(request) && old(past.received) <= past.received
    {
      hide Told, Settled, CString, StrLen, Answered, Connection.Valid, Cache.Contents, Cache.Valid, Listening;
      ghost var was := Tale();
      Opened(was, CString(header[..]));
      var data := local.Receive();
      Appended(was.local.input, data);
      NothingMore(was.past.received);
      NothingMore(was.past.sent);
      LocalView(was, Tale(), CString(header[..]));
      if data != [] && local.handled {
        assert Possible(NoFault, |data|);
        var fault: Fault :| Possible(fault, |data|);
        LocalData(data, fault);
      }
      LocalEnded();
    }

    /** The end of handleInputNotification: the handler is told of an error or of the end of the stream. */
    method LocalEnded()
      requires Sane() && local.status != Connecting
      requires past.over ==> Valid() && !local.handled
      requires !past.over && status == ProxyConnected ==> proxy.handled
      requires !past.over ==> past.received == local.input
      requires !past.over ==> !local.failed && (proxy.handled ==> Listening(Tale(), CString(header[..])))
      requires !past.over ==> local.status == After(local.ending)
      modifies this`past, this`notice, this`status, local, proxy, cache, cache.disk
      ensures if past.over == old(past.over) then Tale() == old(Tale())
              else past == old(past).(over := true) && local.ending != Later && notice == Telling(local.ending)
      ensures local.input == old(local.input) && local.ending == old(local.ending)
      ensures old(past.over) ==> past.over && proxy.failed == old(proxy.failed)
      ensures Valid() && past.received == old(past.received)
    {
      hide Told, Settled, CString, StrLen, Answered, Connection.Valid, Cache.Contents, Cache.Valid, Listening;
      ghost var was := Tale();
      Unfailed(was, CString(header[..]));
      var event := local.Ended();
      assert Tale() == was;
      if event == OnError {
        LocalGone(true);
      } else if event == OnDisconnected {
        LocalGone(false);
      } else if local.handled {
        Resettled(was, CString(header[..]));
      }
    }

    /** handleInputNotification of the proxy connection. */
    method ProxyReadable()
      requires Valid() && !past.over
      modifies this`past, this`status, this`notice, local, proxy, cache, cache.disk, header
      ensures old(proxy.input) <= proxy.input
      ensures Dispatched(old(Tale()), old(CString(header[..])), proxy.input[|old(proxy.input)|..],
                         Tale(), CString(header[..]), notice)
      ensures Valid() && request == old(request) && past.received == old(past.received)
    {
      hide Told, Settled, CString, StrLen, Answered, Connection.Valid, Cache.Contents, Cache.Valid, Listening, Heard,
           Outcome, Dispatched;
      ghost var was, before, text := Tale(), proxy.input, CString(header[..]);
      Opened(was, text);
      if proxy.status != Connected {
        assert proxy.input[|before|..] == [];
        NothingSent(was, text, [], was, was, text, notice);
        return;
      }
      var data := proxy.Receive();
      Appended(before, data);
      ghost var heard := Tale();
      ProxyView(was, heard, data, text);
      if data != [] && proxy.handled {
        ProxyData(data, before);
      }
      ghost var mid, told := Tale(), notice;
      ProxyEnded();
      if data != [] && was.proxy.handled {
        ThenEnded(was, heard, text, data, mid, Tale(), CString(header[..]), told, notice);
      } else {
        NothingSent(was, text, data, mid, Tale(), CString(header[..]), notice);
      }
    }

    method ProxyEnded()
      requires Sane() && (past.over ==> Valid() && !proxy.handled)
      requires !past.over ==>
                 past.received == local.input && local.status == Connected && !local.failed
                 && proxy.status != Connecting
      requires !past.over && status == ProxyConnected ==> proxy.handled
      requires !past.over && proxy.handled ==>
                 status in {ProxyConnecting, ProxyConnected} && Heard(Tale(), proxy.input, CString(header[..]))
      requires !past.over && proxy.handled ==> proxy.status == After(proxy.ending)
      modifies this`past, this`notice, this`status, local, proxy, cache, cache.disk
      ensures if past.over == old(past.over) then Tale() == old(Tale()) && notice == old(notice)
              else past == old(past).(over := true) && local.asked == old(local.asked) && proxy.ending != Later
                   && notice == Telling(proxy.ending)
      ensures proxy.input == old(proxy.input)
      ensures Valid() && past.received == old(past.received)
    {
      hide Told, Settled, CString, StrLen, Answered, Connection.Valid, Cache.Contents, Cache.Valid, Listening, Heard;
      ghost var was := Tale();
      var event := proxy.Ended();
      assert Tale() == was;
      if event == OnError {
        ProxyFailed();
      } else if event == OnDisconnected {
        ProxyGone();
      } else if !past.over {
        StillUp(was, CString(header[..]));
      }
    }

    /** handleOutputNotification of the local connection. */
    method LocalWritable()
      requires Valid() && !past.over
      modifies this`past, this`notice, this`status, local, proxy, cache, cache.disk
      ensures !past.over && old(local.packets) != [] ==> local.offers > old(local.offers)
      ensures past.over ==> local.failed
      ensures Valid() && past.received == old(past.received)
    {
      hide Told, Settled, CString, StrLen, Answered, Connection.Valid, Cache.Contents, Cache.Valid, Listening;
      ghost var was := Tale();
      Opened(was, CString(header[..]));
      Unfailed(was, CString(header[..]));
      var event := local.HandleOutput(false);
      LocalFlushed(was, Tale(), CString(header[..]));
      if event == OnError {
        LocalGone(true);
      }
    }

    /** handleOutputNotification of the proxy connection; `refused` is the outcome of a connect under way. */
    method ProxyWritable(refused: bool)
      requires Valid() && !past.over
      modifies this`past, this`status, this`notice, local, proxy, cache, cache.disk, header
      ensures old(proxy.status) == Connecting && old(proxy.handled) ==>
                if refused then past.over && notice == Failing else past.started && past.sent == request
      ensures !past.over && old(proxy.status) == Connected && old(proxy.packets) != [] ==>
              proxy.offers > old(proxy.offers)
      ensures past.over ==> proxy.failed || (refused && old(proxy.status) == Connecting)
      ensures Valid() && request == old(request) && past.received == old(past.received)
    {
      hide Told, Settled, CString, StrLen, Answered, Connection.Valid, Cache.Contents, Cache.Valid, Listening, Heard;
      ghost var was := Tale();
      Opened(was, CString(header[..]));
      if proxy.status == Connecting { NothingAsked(proxy); }
      var event := proxy.HandleOutput(refused);
      ProxyFlushed(was, Tale(), event, CString(header[..]));
      if event == OnError {
        ProxyFailed();
      } else if event == OnConnected {
        ProxyUp();
      }
    }
  }

  // ---------- whole runs ----------

  /** The stream to the proxy and the stream back, at any point of any run: what the kernel took, what is queued
    * and what is held back are together the request and all the client has sent, in order; no local byte has been
    * passed on unless a full header with the OK line has come; once it has, nothing is held back, and the client
    * gets what the proxy sent after it.
    */
  ghost predicate Faithful(t: Tunnel)
    reads t, t.local, t.proxy, t.cache, t.cache.disk
  {
    var s := t.Tale();
    && (s.sound ==> s.past.sent <= Due(s))
    && (|s.past.sent| > |Asked(s)| ==> Answered(s))
    && (t.status == ProxyConnected ==> Answered(s))
    && (!s.past.over && t.status == ProxyConnected ==> t.cache.Contents() == [])
    && (!s.past.over ==> s.past.received == t.local.input)
    && (!s.past.over && s.sound && t.proxy.status == Connected && !t.proxy.failed ==>
          t.proxy.wire + Pending(t.proxy.packets) + t.cache.Contents() == Asked(s) + (s.stale + t.local.input))
    && (!s.past.over && t.status == ProxyConnected ==>
          s.past.cut <= |t.proxy.input|
          && t.proxy.handled && t.local.wire + Pending(t.local.packets) == t.proxy.input[s.past.cut..])
  }

  lemma EndToEnd(t: Tunnel)
    requires t.Valid()
    ensures Faithful(t)
  {
  }

  lemma Open(t: Tunnel)
    requires t.Valid()
    ensures t.Sane() && (t.past.over <==> t.local.fd < 0)
  {
  }

  /** Any run: sessions accepted, poller events in any order, and cleanup at any time. With `tidily` the tunnel is
    * cleaned up after every session, as its owner does; then no session sees bytes of an earlier one.
    */
  method Run(t: Tunnel, steps: nat, tidily: bool)
    requires t.Valid() && (tidily ==> t.cache.Contents() == [] && t.stale == [])
    modifies t, t.local, t.proxy, t.cache, t.cache.disk, t.header
    ensures t.Valid() && Faithful(t) && (tidily ==> t.stale == [])
  {
    hide Tunnel.Valid, Tunnel.Sane, Faithful;
    var i := 0;
    Open(t);
    EndToEnd(t);
    while i < steps
      invariant t.Valid() && Faithful(t) && (t.past.over <==> t.local.fd < 0)
      invariant tidily ==> t.stale == [] && (t.past.over ==> t.cache.Contents() == [])
    {
      if t.local.fd < 0 {
        var connfd, newfd: nat, nonblocking, dial := *, *, *, *;
        var ok := t.AcceptLocal(connfd, nonblocking, newfd, dial);
      } else {
        if * { t.LocalReadable(); }
        else if * { t.ProxyReadable(); }
        else if * { t.LocalWritable(); }
        else { var refused: bool := *; t.ProxyWritable(refused); }
      }
      Open(t);
      var tidy: bool := *;
      if tidy || (tidily && t.local.fd < 0) { t.Cleanup(); }
      Open(t);
      EndToEnd(t);
      i := i + 1;
    }
  }
}
