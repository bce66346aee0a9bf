/**
 * What one or two `CallMethod`s do, stated over `Call`, `Open` and
 * `Exchange`: the registry node it reads, how the registry value becomes
 * an endpoint, which failures are reported through the controller and
 * which are not, what is put on the wire, and what becomes of the socket.
 */
module ChannelProperties {
  import opened Basics
  import opened StdString
  import opened Varint
  import opened Controller
  import opened ChannelSpec

  /** The number of connect attempts among `events`. */
  function CountAttempts(events: seq<Event>): nat
  {
    if events == [] then 0
    else CountAttempts(events[..|events| - 1]) + (if events[|events| - 1].ConnectAttempt? then 1 else 0)
  }

  lemma {:induction false} CountAttemptsAppend(a: seq<Event>, b: seq<Event>)
    ensures CountAttempts(a + b) == CountAttempts(a) + CountAttempts(b)
    decreases |b|
  {
    if b == [] {
      assert a + b == a;
    } else {
      assert (a + b)[..|a + b| - 1] == a + b[..|b| - 1];
      CountAttemptsAppend(a, b[..|b| - 1]);
    }
  }

  /** One `newConnect` is one connect attempt, whether or not a socket is closed after it. */
  lemma ConnectEventsCount(ip: string, port: uint16, o: ConnectOutcome)
    ensures CountAttempts(ConnectEvents(ip, port, o)) == 1
  {
    var e := ConnectEvents(ip, port, o);
    if o.ConnectFailed? {
      assert e[..|e| - 1] == [ConnectAttempt(ip, port)];
      assert CountAttempts([ConnectAttempt(ip, port)]) == 1;
    } else {
      assert e[..|e| - 1] == [];
    }
  }

  /**
   * The eager constructor's retry loop makes `AttemptCount` attempts: each
   * `newConnect` contributes exactly one connect attempt to the events.
   */
  lemma {:induction false} AttemptEventsCount(ip: string, port: uint16, attempt: nat -> ConnectOutcome, n: nat)
    ensures CountAttempts(AttemptEvents(ip, port, attempt, n)) == n
  {
    if n > 0 {
      AttemptEventsCount(ip, port, attempt, n - 1);
      CountAttemptsAppend(AttemptEvents(ip, port, attempt, n - 1), ConnectEvents(ip, port, attempt(n - 1)));
      ConnectEventsCount(ip, port, attempt(n - 1));
    }
  }

  /**
   * The constructor with `connectNow` tries between one and four times and
   * stops at the first success; when all four fail it ends unconnected.
   */
  lemma EagerConnectAttempts(port: uint16, attempt: nat -> ConnectOutcome)
    ensures var n := AttemptCount(attempt, 0);
      && 1 <= CountAttempts(AttemptEvents("", port, attempt, n)) <= 4
      && (forall k :: 0 <= k < n - 1 ==> !attempt(k).Connected?)
      && (exists k :: 0 <= k < 4 && attempt(k).Connected?) == attempt(n - 1).Connected?
  {
    var n := AttemptCount(attempt, 0);
    AttemptEventsCount("", port, attempt, n);
    if attempt(n - 1).Connected? {
      assert 0 <= n - 1 < 4;
    }
  }

  /** The events of an exchange are sends, receives and closes on the channel's socket: no lookup, no connect. */
  predicate OnSocket(events: seq<Event>, fd: int)
  {
    forall k :: 0 <= k < |events| ==>
      match events[k]
      case Send(f, _) => f == fd
      case Recv(f, _, _) => f == fd
      case Close(f) => f == fd
      case _ => false
  }

  /**
   * An exchange never touches the channel's fields, reads nothing from the
   * registry, connects nothing, and uses the socket stored in `m_clientfd`.
   */
  lemma ExchangeKeepsChannel(st: ChannelState, status: Status, inp: CallInputs)
    ensures var x := Exchange(st, status, inp);
      x.state == st && x.outcome == Returned && OnSocket(x.events, st.clientfd) && |x.events| <= 3
  {
  }

  /**
   * A call either leaves the status as it was or marks it failed: nothing
   * in `CallMethod` clears a failure recorded before it.
   */
  lemma CallNeverClearsFailure(st: ChannelState, status: Status, inp: CallInputs)
    ensures var r := Call(st, status, inp);
      r.status == status || r.status.failed
  {
  }

  /**
   * Line 193: an unconnected channel reads exactly the node
   * `"/" + service + "/" + method`, first and only once, and keeps both
   * names in its fields.
   */
  lemma CallQueriesMethodPath(st: ChannelState, status: Status, inp: CallInputs)
    requires st.clientfd == -1
    ensures var r := Call(st, status, inp);
      && r.events != [] && r.events[0] == GetData("/" + inp.serviceName + "/" + inp.methodName)
      && (forall k :: 1 <= k < |r.events| ==> !r.events[k].GetData?)
      && r.state.serviceName == inp.serviceName && r.state.methodName == inp.methodName
  {
    var o := Open(st, inp);
    OpenQueriesFirst(st, inp);
    if o.connected {
      var x := Exchange(o.state, status, inp);
      ExchangeKeepsChannel(o.state, status, inp);
      var events := Call(st, status, inp).events;
      assert events == o.events + x.events;
      forall k | 1 <= k < |events|
        ensures !events[k].GetData?
      {
        if k >= |o.events| {
          assert events[k] == x.events[k - |o.events|];
        }
      }
    }
  }

  /** The connection half reads the method's node first, and reads nothing else. */
  lemma OpenQueriesFirst(st: ChannelState, inp: CallInputs)
    ensures var o := Open(st, inp);
      && o.events != [] && o.events[0] == GetData("/" + inp.serviceName + "/" + inp.methodName)
      && (forall k :: 1 <= k < |o.events| ==> !o.events[k].GetData?)
      && o.state.serviceName == inp.serviceName && o.state.methodName == inp.methodName
  {
    var located := Locate(st, inp);
    var o := Open(st, inp);
    var looked := [GetData(MethodPath(inp.serviceName, inp.methodName))];
    match located.port
    case None =>
    case Some(port) =>
      var connecting := ConnectEvents(located.named.ip, port, inp.connect);
      assert o.events == looked + connecting;
      forall k | 1 <= k < |o.events|
        ensures !o.events[k].GetData?
      {
        assert o.events[k] == connecting[k - 1];
      }
  }

  /**
   * Connection reuse (line 41): with a socket in `m_clientfd` there is no
   * lookup and no connect, the fields stay as they were, and the header
   * carries the names stored by the first lookup, not those of this call.
   */
  lemma ReuseSkipsLookup(st: ChannelState, status: Status, inp: CallInputs, hb: seq<byte>)
    requires st.clientfd != -1
    ensures var r := Call(st, status, inp);
      && r.state == st
      && OnSocket(r.events, st.clientfd)
      && (inp.serializeHeader(RpcHeader(st.serviceName, st.methodName, BuildHeader(st, inp.request).argsSize)) == Some(hb)
          ==> r.events[0] == Send(st.clientfd, Frame(hb, inp.request.bytes)))
  {
    ExchangeKeepsChannel(st, status, inp);
  }

  /**
   * Lines 201-205 and 52-54: when the registry has nothing, the lookup
   * gives `" "` and `m_idx` keeps its value; with the initial `m_idx` of 0
   * the channel still connects, to ip `""` and port 0, and with -1 (left
   * by an earlier malformed value) to ip `" "` and port 0.
   */
  lemma EmptyLookupStillConnects(st: ChannelState, status: Status, inp: CallInputs)
    requires st.clientfd == -1 && (st.idx == 0 || st.idx == -1)
    requires inp.registry(MethodPath(inp.serviceName, inp.methodName)) == ""
    ensures var r := Call(st, status, inp);
      && r.outcome == Returned && r.state.idx == st.idx
      && |r.events| >= 2 && r.events[1] == ConnectAttempt(if st.idx == 0 then "" else " ", 0)
  {
    var l := Locate(st, inp);
    if st.idx == 0 {
      assert l.named.ip == "" && l.port == Some(0);
    } else {
      assert l.named.ip == " " && Atoi(" ") == 0;
    }
  }

  /**
   * Lines 207-212: a registry value without `:` gives `" "` and `m_idx`
   * -1; the channel still connects, to ip `" "` and port 0.
   */
  lemma NoColonStillConnects(st: ChannelState, status: Status, inp: CallInputs)
    requires st.clientfd == -1
    requires var data := inp.registry(MethodPath(inp.serviceName, inp.methodName));
      data != "" && ':' !in data
    ensures var r := Call(st, status, inp);
      && r.outcome == Returned && r.state.idx == -1
      && |r.events| >= 2 && r.events[1] == ConnectAttempt(" ", 0)
  {
    var l := Locate(st, inp);
    assert l.named.ip == " " && Atoi(" ") == 0;
  }

  /**
   * Lines 51-63: whatever the lookup gave, a failed connect ends the call
   * with the status untouched (no `SetFailed`), no socket stored and
   * nothing sent.
   */
  lemma ConnectFailureNotReported(st: ChannelState, status: Status, inp: CallInputs)
    requires st.clientfd == -1 && !inp.connect.Connected?
    ensures var r := Call(st, status, inp);
      && r.status == status && r.state.clientfd == -1
      && forall k :: 0 <= k < |r.events| ==> !r.events[k].Send?
  {
  }

  /**
   * Lines 52-54 for a registry value with a `:` at `i`: `m_ip` is the text
   * before the first `:` and holds no `:`, `m_port` is the `atoi` of the
   * text after it truncated to 16 bits, and that is the endpoint connected to.
   */
  lemma SplitsEndpoint(st: ChannelState, status: Status, inp: CallInputs, i: nat)
    requires st.clientfd == -1
    requires var data := inp.registry(MethodPath(inp.serviceName, inp.methodName));
      i < |data| && data[i] == ':' && ':' !in data[..i]
    ensures var data := inp.registry(MethodPath(inp.serviceName, inp.methodName));
      var r := Call(st, status, inp);
      && r.state.idx == i && r.state.ip == data[..i] && ':' !in r.state.ip
      && r.state.port == Atoi(data[i + 1..]) % 0x1_0000
      && |r.events| >= 2 && r.events[1] == ConnectAttempt(data[..i], r.state.port)
  {
    var data := inp.registry(MethodPath(inp.serviceName, inp.methodName));
    assert Find(data, ':') == i;
    SplitAtFirstColon(data, i);
    ExchangeKeepsChannel(Open(st, inp).state, status, inp);
  }

  /**
   * A value registered as `ip:port` (an ip without `:` and a decimal port)
   * is connected to at exactly that ip and port.
   */
  lemma RegisteredEndpointConnects(st: ChannelState, status: Status, inp: CallInputs, ip: string, port: uint16)
    requires st.clientfd == -1 && ':' !in ip
    requires inp.registry(MethodPath(inp.serviceName, inp.methodName)) == ip + ":" + ToDecimal(port)
    ensures var r := Call(st, status, inp);
      && r.state.ip == ip && r.state.port == port
      && |r.events| >= 2 && r.events[1] == ConnectAttempt(ip, port)
  {
    var data := ip + ":" + ToDecimal(port);
    assert data[|ip|] == ':' && data[..|ip|] == ip;
    SplitsEndpoint(st, status, inp, |ip|);
    SplitRenderedEndpoint(ip, port);
  }

  /**
   * A stale `m_idx` of 1 or more (left by an earlier lookup whose connect
   * failed) with an empty registry value makes `substr` at line 54 start
   * past the end of `" "`: `std::out_of_range` escapes `CallMethod`.
   */
  lemma StaleIndexThrows(st: ChannelState, status: Status, inp: CallInputs)
    requires st.clientfd == -1 && st.idx >= 1
    requires inp.registry(MethodPath(inp.serviceName, inp.methodName)) == ""
    ensures var r := Call(st, status, inp);
      && r.outcome == ThrewOutOfRange && r.status == status && r.state.clientfd == -1
      && r.events == [GetData(MethodPath(inp.serviceName, inp.methodName))]
  {
  }

  /**
   * The stale index is reachable from a fresh channel: a first call finds
   * `ip:port` with a non-empty ip but cannot connect, and a second call
   * finds the node empty.
   */
  lemma StaleIndexReachable(st: ChannelState, status: Status, first: CallInputs, second: CallInputs)
    requires st.clientfd == -1 && st.idx == 0
    requires var data := first.registry(MethodPath(first.serviceName, first.methodName));
      ':' in data && data[0] != ':'
    requires !first.connect.Connected?
    requires second.registry(MethodPath(second.serviceName, second.methodName)) == ""
    ensures var r1 := Call(st, status, first);
      && r1.outcome == Returned && r1.status == status
      && Call(r1.state, r1.status, second).outcome == ThrewOutOfRange
  {
    var data := first.registry(MethodPath(first.serviceName, first.methodName));
    var i := Find(data, ':');
    assert i >= 1;
    SplitAtFirstColon(data, i);
    var r1 := Call(st, status, first);
    assert r1.state.idx == i && r1.state.clientfd == -1;
    StaleIndexThrows(r1.state, r1.status, second);
  }

  /**
   * Lines 102-110: the bytes sent are the varint32 of the header length,
   * the header, then the arguments; a receiver decodes the length and
   * recovers both parts exactly.
   */
  lemma FrameSent(st: ChannelState, status: Status, inp: CallInputs, hb: seq<byte>)
    requires inp.serializeHeader(BuildHeader(st, inp.request)) == Some(hb) && |hb| < TwoTo32
    ensures var x := Exchange(st, status, inp);
      && x.events != [] && x.events[0].Send? && x.events[0].fd == st.clientfd
      && DecodeVarint32(x.events[0].frame) == Some((|hb|, |EncodeVarint32(|hb|)|))
      && SplitFrame(x.events[0].frame) == Some((hb, inp.request.bytes))
  {
    var frame := Frame(hb, inp.request.bytes);
    assert frame == EncodeVarint32(|hb|) + (hb + inp.request.bytes);
    DecodeEncode32(|hb|, hb + inp.request.bytes);
    SplitFrameOfFrame(hb, inp.request.bytes);
  }

  /**
   * Lines 71-87 and 114: when the request serialises, the `args_size` in
   * the header is the length of the argument bytes that follow the header
   * on the wire.
   */
  lemma ArgsSizeIsArgsLength(st: ChannelState, status: Status, inp: CallInputs, hb: seq<byte>)
    requires inp.request.ok && |inp.request.bytes| < TwoTo32
    requires inp.serializeHeader(BuildHeader(st, inp.request)) == Some(hb) && |hb| < TwoTo32
    ensures var x := Exchange(st, status, inp);
      && x.events != [] && x.events[0].Send?
      && SplitFrame(x.events[0].frame).Some?
      && BuildHeader(st, inp.request).argsSize == |SplitFrame(x.events[0].frame).value.1|
  {
    FrameSent(st, status, inp, hb);
  }

  /**
   * Lines 73-80: a request that does not serialise is still framed, with
   * `args_size` 0, and sent; the call is marked failed with
   * "serialize request fail" unless a later step fails with its own text.
   */
  lemma RequestFailureStillSends(st: ChannelState, status: Status, inp: CallInputs, hb: seq<byte>)
    requires !inp.request.ok
    requires inp.serializeHeader(RpcHeader(st.serviceName, st.methodName, 0)) == Some(hb)
    ensures var x := Exchange(st, status, inp);
      && x.events != [] && x.events[0] == Send(st.clientfd, Frame(hb, inp.request.bytes))
      && x.status.failed
      && (inp.send.SendOk? && inp.recv.Received? && inp.parse(Received1024(inp.recv.data))
          ==> x.status == Status(true, "serialize request fail"))
  {
  }

  /** Lines 93-100: a header that does not serialise ends the call before anything is sent. */
  lemma HeaderFailureSendsNothing(st: ChannelState, status: Status, inp: CallInputs)
    requires inp.serializeHeader(BuildHeader(st, inp.request)).None?
    ensures var x := Exchange(st, status, inp);
      x.events == [] && x.status == Status(true, "serialize rpc header error!")
  {
  }

  /**
   * Lines 114-120: a failed `send` closes the socket and marks the call
   * failed, but `m_clientfd` keeps the closed descriptor.
   */
  lemma SendFailureKeepsStaleFd(st: ChannelState, status: Status, inp: CallInputs)
    requires inp.serializeHeader(BuildHeader(st, inp.request)).Some? && inp.send.SendFailed?
    ensures var x := Exchange(st, status, inp);
      && x.state.clientfd == st.clientfd
      && |x.events| == 2 && x.events[1] == Close(st.clientfd)
      && x.status == Status(true, inp.send.errText)
  {
  }

  /** Lines 125-131: a failed `recv` marks the call failed and does not close the socket. */
  lemma RecvFailureKeepsSocketOpen(st: ChannelState, status: Status, inp: CallInputs)
    requires inp.serializeHeader(BuildHeader(st, inp.request)).Some?
    requires inp.send.SendOk? && inp.recv.RecvFailed?
    ensures var x := Exchange(st, status, inp);
      && (forall k :: 0 <= k < |x.events| ==> !x.events[k].Close?)
      && |x.events| == 2 && x.events[1] == Recv(st.clientfd, RecvCapacity, None)
      && x.status == Status(true, inp.recv.errText)
  {
  }

  /**
   * Lines 123-140: at most 1024 bytes are read, the first ones waiting;
   * what they parse to decides: a parse failure closes the socket and marks
   * the call failed, a successful parse leaves the status as it was after
   * the request serialisation. Zero bytes are parsed like any other reply.
   */
  lemma ReplyHandling(st: ChannelState, status: Status, inp: CallInputs)
    requires inp.serializeHeader(BuildHeader(st, inp.request)).Some?
    requires inp.send.SendOk? && inp.recv.Received?
    ensures var x := Exchange(st, status, inp);
      var got := Received1024(inp.recv.data);
      && |got| <= 1024 && got == inp.recv.data[..|got|]
      && (|inp.recv.data| <= 1024 ==> got == inp.recv.data)
      && x.events[1] == Recv(st.clientfd, RecvCapacity, Some(got))
      && (inp.parse(got) ==> |x.events| == 2 && x.status == (if inp.request.ok then status else Status(true, "serialize request fail")))
      && (!inp.parse(got) ==> |x.events| == 3 && x.events[2] == Close(st.clientfd) && x.status == Status(true, inp.parseErrText))
  {
  }

  /** A call that succeeds end to end on a serialised request leaves the controller exactly as it was. */
  lemma SuccessLeavesStatus(st: ChannelState, status: Status, inp: CallInputs)
    requires st.clientfd != -1 || inp.connect.Connected?
    requires inp.request.ok && inp.send.SendOk? && inp.recv.Received? && inp.parse(Received1024(inp.recv.data))
    requires inp.serializeHeader(BuildHeader(if st.clientfd != -1 then st else Open(st, inp).state, inp.request)).Some?
    requires st.clientfd == -1 ==> Locate(st, inp).port.Some?
    ensures Call(st, status, inp).status == status
  {
  }

  /**
   * After a send or parse failure the channel keeps the closed descriptor,
   * whether it was connected before the call or connected during it, so
   * the next call neither looks up nor reconnects: it writes to and reads
   * from the socket that was closed.
   */
  lemma ClosedSocketReused(st: ChannelState, status: Status, first: CallInputs, second: CallInputs)
    requires var r1 := Call(st, status, first);
      r1.state.clientfd != -1 && Close(r1.state.clientfd) in r1.events
    ensures var r1 := Call(st, status, first);
      var r2 := Call(r1.state, r1.status, second);
      && (st.clientfd != -1 ==> r1.state.clientfd == st.clientfd && r1.state == st)
      && r2.state == r1.state
      && OnSocket(r2.events, r1.state.clientfd)
  {
    var r1 := Call(st, status, first);
    if st.clientfd != -1 {
      ExchangeKeepsChannel(st, status, first);
    }
    ExchangeKeepsChannel(r1.state, r1.status, second);
  }
}
