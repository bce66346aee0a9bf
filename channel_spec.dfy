/**
 * The client call path of `KrpcChannel`: registry lookup, endpoint split,
 * lazy connection, request framing, send, receive and parse. Everything the
 * channel asks of the outside world (the registry read, the socket calls,
 * the Protocol Buffers serialisers and parser) is an input of the model.
 */
module ChannelSpec {
  import opened Basics
  import opened StdString
  import opened Varint
  import opened Controller

  /** The registry node that holds a method's endpoint. */
  function MethodPath(serviceName: string, methodName: string): string
  {
    "/" + serviceName + "/" + methodName
  }

  /** Reading a node path back into the service and method names it was built from. */
  function SplitMethodPath(path: string): Option<(string, string)>
  {
    if path == [] || path[0] != '/' then None
    else
      var rest := path[1..];
      var k := Find(rest, '/');
      if k == -1 then None else Some((rest[..k], rest[k + 1..]))
  }

  /**
   * The path names the method: as long as the service name has no `/`, the
   * names come back out of it, so distinct methods have distinct nodes.
   */
  lemma SplitMethodPathOfMethodPath(serviceName: string, methodName: string)
    requires '/' !in serviceName
    ensures SplitMethodPath(MethodPath(serviceName, methodName)) == Some((serviceName, methodName))
  {
    var rest := MethodPath(serviceName, methodName)[1..];
    assert rest == serviceName + "/" + methodName;
    assert rest[|serviceName|] == '/' && rest[..|serviceName|] == serviceName;
    assert Find(rest, '/') == |serviceName|;
    assert rest[|serviceName| + 1..] == methodName;
  }

  /** What `QueryServiceHost` returns, and the value it leaves in its `int& idx`. */
  datatype HostLookup = HostLookup(hostData: string, idx: int)

  /**
   * `QueryServiceHost`: read the method's node; an empty value gives `" "`
   * and leaves `idx` alone; a value without `:` gives `" "` and sets `idx`
   * to -1; any other value is returned as it is, with `idx` at its first `:`.
   */
  function QueryServiceHost(registry: string -> string, serviceName: string, methodName: string, idx: int): (r: HostLookup)
    ensures var data := registry(MethodPath(serviceName, methodName));
      data == "" ==> r == HostLookup(" ", idx)
    ensures var data := registry(MethodPath(serviceName, methodName));
      data != "" && ':' !in data ==> r == HostLookup(" ", -1)
    ensures var data := registry(MethodPath(serviceName, methodName));
      ':' in data ==> r.hostData == data && 0 <= r.idx < |data| && data[r.idx] == ':' && ':' !in data[..r.idx]
  {
    var methodPath := MethodPath(serviceName, methodName);
    var hostData := registry(methodPath);
    if hostData == "" then HostLookup(" ", idx)
    else
      var i := Find(hostData, ':');
      if i == -1 then HostLookup(" ", -1)
      else HostLookup(hostData, i)
  }

  /** `m_ip = host_data.substr(0, m_idx)`: a position of -1 wraps to `npos` and keeps everything. */
  function HostIp(hostData: string, idx: int): string
  {
    Substr(hostData, 0, idx).value
  }

  /**
   * `m_port = atoi(host_data.substr(m_idx + 1, host_data.size() - m_idx))`,
   * truncated to `uint16_t`; None when `substr` throws `std::out_of_range`.
   */
  function HostPort(hostData: string, idx: int): Option<uint16>
  {
    match Substr(hostData, idx + 1, |hostData| - idx)
    case None => None
    case Some(text) => Some(Atoi(text) % 0x1_0000)
  }

  /** A registry value with a `:` splits at its first `:` into an ip with no `:` and the `atoi` of the rest. */
  lemma SplitAtFirstColon(data: string, i: nat)
    requires i < |data| && data[i] == ':' && ':' !in data[..i]
    ensures HostIp(data, i) == data[..i] && ':' !in HostIp(data, i)
    ensures HostPort(data, i) == Some(Atoi(data[i + 1..]) % 0x1_0000)
  {
  }

  /** The endpoint a server registers as `ip:port` is the one the client splits out. */
  lemma SplitRenderedEndpoint(ip: string, port: uint16)
    requires ':' !in ip
    ensures var data := ip + ":" + ToDecimal(port);
      HostIp(data, |ip|) == ip && HostPort(data, |ip|) == Some(port)
  {
    var digits := ToDecimal(port);
    var data := ip + ":" + digits;
    AroundColon(ip, digits);
    SplitAtFirstColon(data, |ip|);
    AtoiOfDecimal(port, []);
    assert digits + [] == digits;
  }

  lemma AroundColon(ip: string, rest: string)
    ensures var data := ip + ":" + rest;
      && |ip| < |data| && data[|ip|] == ':'
      && data[..|ip|] == ip && data[|ip| + 1..] == rest
  {
    var data := ip + ":" + rest;
    assert data[..|ip|] == ip;
    assert data[|ip| + 1..] == rest;
  }

  /** How one `newConnect` turns out: `socket` fails, `connect` fails on a new fd, or it connects. */
  datatype ConnectOutcome = SocketFailed | ConnectFailed(fd: nat) | Connected(fd: nat)

  /** The interactions with the outside world, in the order they happen. */
  datatype Event =
    | GetData(path: string)
    | ConnectAttempt(ip: string, port: uint16)
    | Close(fd: int)
    | Send(fd: int, frame: seq<byte>)
    | Recv(fd: int, capacity: nat, got: Option<seq<byte>>)

  /** The events of one `newConnect`: the attempt, and closing the new socket when `connect` fails. */
  function ConnectEvents(ip: string, port: uint16, o: ConnectOutcome): seq<Event>
  {
    [ConnectAttempt(ip, port)] + if o.ConnectFailed? then [Close(o.fd)] else []
  }

  /**
   * The number of connects the eager constructor makes, counting from
   * attempt `i`: `while (!rt && count--)` with `count = 3` allows the first
   * attempt and three more, and stops at the first success.
   */
  function AttemptCount(attempt: nat -> ConnectOutcome, i: nat): (n: nat)
    requires i < 4
    ensures i < n <= 4
    ensures forall k :: i <= k < n - 1 ==> !attempt(k).Connected?
    ensures n < 4 ==> attempt(n - 1).Connected?
    decreases 4 - i
  {
    if attempt(i).Connected? || i == 3 then i + 1 else AttemptCount(attempt, i + 1)
  }

  /** The attempt count is the `n` whose last attempt connects, or 4, when all attempts before it fail. */
  lemma {:induction false} AttemptCountFrom(attempt: nat -> ConnectOutcome, i: nat, n: nat)
    requires i < n <= 4
    requires forall k :: i <= k < n - 1 ==> !attempt(k).Connected?
    requires n == 4 || attempt(n - 1).Connected?
    ensures AttemptCount(attempt, i) == n
    decreases 4 - i
  {
    if i < n - 1 {
      AttemptCountFrom(attempt, i + 1, n);
    }
  }

  /** The events of the first `n` connect attempts. */
  function AttemptEvents(ip: string, port: uint16, attempt: nat -> ConnectOutcome, n: nat): seq<Event>
  {
    if n == 0 then [] else AttemptEvents(ip, port, attempt, n - 1) + ConnectEvents(ip, port, attempt(n - 1))
  }

  /** `SerializeToString`: whether it succeeded, and the bytes it left in the string. */
  datatype Serialized = Serialized(ok: bool, bytes: seq<byte>)

  /** `send`: -1 with the `strerror_r` text, or success. */
  datatype SendOutcome = SendOk | SendFailed(errText: string)

  /** `recv`: -1 with the `strerror_r` text, or the bytes waiting on the socket (possibly none). */
  datatype RecvOutcome = RecvFailed(errText: string) | Received(data: seq<byte>)

  /** `krpc::rpcHeader`; `argsSize` is a `uint32_t`. */
  datatype RpcHeader = RpcHeader(serviceName: string, methodName: string, argsSize: nat)

  /** Everything one `CallMethod` learns from outside the channel. */
  datatype CallInputs = CallInputs(
    serviceName: string,                           // method->service()->name()
    methodName: string,                            // method->name()
    registry: string -> string,                    // ZkClient::GetData, "" on failure
    connect: ConnectOutcome,                       // newConnect, if it is called
    request: Serialized,                           // request->SerializeToString
    serializeHeader: RpcHeader -> Option<seq<byte>>, // rpcHeader::SerializeToString
    send: SendOutcome,
    recv: RecvOutcome,
    parse: seq<byte> -> bool,                      // response->ParseFromArray
    parseErrText: string)                          // strerror_r text after a parse failure

  /** How `CallMethod` ends: it returns, or `substr` throws `std::out_of_range` out of it. */
  datatype Outcome = Returned | ThrewOutOfRange

  /** The fields of a `KrpcChannel`. */
  datatype ChannelState = ChannelState(
    clientfd: int, serviceName: string, methodName: string, ip: string, port: uint16, idx: int)

  /** The channel, the call status and the events after one `CallMethod`. */
  datatype CallResult = CallResult(state: ChannelState, status: Status, events: seq<Event>, outcome: Outcome)

  /** `recv(m_clientfd, recv_buf, 1024, 0)`. */
  const RecvCapacity: nat := 1024

  /** The header `CallMethod` builds: `args_size` stays 0 when the request did not serialise. */
  function BuildHeader(st: ChannelState, request: Serialized): RpcHeader
  {
    RpcHeader(st.serviceName, st.methodName, if request.ok then |request.bytes| % TwoTo32 else 0)
  }

  /** What `recv` copies into the 1024-byte buffer. */
  function Received1024(data: seq<byte>): (got: seq<byte>)
    ensures |got| <= RecvCapacity && |got| <= |data| && got == data[..|got|]
    ensures |data| <= RecvCapacity ==> got == data
  {
    if |data| <= RecvCapacity then data else data[..RecvCapacity]
  }

  /**
   * `CallMethod` from line 70 on, over a connected channel: serialise the
   * request and the header, frame and send, receive once, parse. Only the
   * status and the events change; the channel's fields do not.
   */
  function Exchange(st: ChannelState, status: Status, inp: CallInputs): CallResult
  {
    var afterRequest := if inp.request.ok then status else Status(true, "serialize request fail");
    match inp.serializeHeader(BuildHeader(st, inp.request))
    case None => CallResult(st, Status(true, "serialize rpc header error!"), [], Returned)
    case Some(headerBytes) =>
      var sent := [Send(st.clientfd, Frame(headerBytes, inp.request.bytes))];
      match inp.send
      case SendFailed(err) => CallResult(st, Status(true, err), sent + [Close(st.clientfd)], Returned)
      case SendOk =>
        match inp.recv
        case RecvFailed(err) =>
          CallResult(st, Status(true, err), sent + [Recv(st.clientfd, RecvCapacity, None)], Returned)
        case Received(data) =>
          var got := Received1024(data);
          var received := sent + [Recv(st.clientfd, RecvCapacity, Some(got))];
          if inp.parse(got) then CallResult(st, afterRequest, received, Returned)
          else CallResult(st, Status(true, inp.parseErrText), received + [Close(st.clientfd)], Returned)
  }

  /**
   * One `CallMethod`. Without a connection (`m_clientfd == -1`) it first
   * opens one (`Open`); a call that throws or fails to connect ends there,
   * with the status untouched. With a connection it goes to the exchange.
   */
  function Call(st: ChannelState, status: Status, inp: CallInputs): CallResult
  {
    if st.clientfd != -1 then Exchange(st, status, inp)
    else
      var o := Open(st, inp);
      if !o.connected then CallResult(o.state, status, o.events, o.outcome)
      else
        var x := Exchange(o.state, status, inp);
        x.(events := o.events + x.events)
  }

  /** The channel and the events after `Open`, whether it connected, and how `CallMethod` ends if it did not. */
  datatype Opened = Opened(state: ChannelState, events: seq<Event>, connected: bool, outcome: Outcome)

  /**
   * `CallMethod` lines 38-64 on an unconnected channel: record the names,
   * query the registry with the stored `m_idx`, split the answer into ip and
   * port, and connect.
   */
  function Open(st: ChannelState, inp: CallInputs): Opened
  {
    var located := Locate(st, inp);
    var named := located.named;
    var looked := [GetData(MethodPath(inp.serviceName, inp.methodName))];
    match located.port
    case None => Opened(named, looked, false, ThrewOutOfRange)
    case Some(port) =>
      var attempted := looked + ConnectEvents(named.ip, port, inp.connect);
      if inp.connect.Connected? then Opened(named.(port := port, clientfd := inp.connect.fd), attempted, true, Returned)
      else Opened(named.(port := port), attempted, false, Returned)
  }

  /** The fields after the lookup and the `ip` split, and the port (None when `substr` throws). */
  datatype Located = Located(named: ChannelState, port: Option<uint16>)

  /**
   * `CallMethod` lines 38-54 on an unconnected channel: record the names,
   * query the registry with the stored `m_idx`, and split the answer.
   */
  function Locate(st: ChannelState, inp: CallInputs): Located
  {
    var lookup := QueryServiceHost(inp.registry, inp.serviceName, inp.methodName, st.idx);
    Located(
      st.(serviceName := inp.serviceName, methodName := inp.methodName,
          idx := lookup.idx, ip := HostIp(lookup.hostData, lookup.idx)),
      HostPort(lookup.hostData, lookup.idx))
  }
}
