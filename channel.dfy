/** The `KrpcChannel` object: its fields, its constructor and its methods. */
module Channel {
  import opened Basics
  import opened Varint
  import opened Controller
  import opened ChannelSpec

  class KrpcChannel {
    var clientfd: int
    var serviceName: string
    var ip: string
    var port: uint16
    var methodName: string
    var idx: int
    /** The channel's interactions with the outside world so far. */
    ghost var trace: seq<Event>

    /** The fields as a value. */
    function State(): ChannelState
      reads this
    {
      ChannelState(clientfd, serviceName, methodName, ip, port, idx)
    }

    /**
     * `KrpcChannel(connectNow)`: no connection and `m_idx` at 0. With
     * `connectNow` it connects to the still-empty ip and the uninitialised
     * port (left arbitrary here), retrying up to three times; `attempt(k)`
     * is how the k-th attempt turns out.
     */
    constructor (connectNow: bool, attempt: nat -> ConnectOutcome)
      ensures idx == 0 && ip == "" && serviceName == "" && methodName == ""
      ensures !connectNow ==> clientfd == -1 && trace == []
      ensures connectNow ==>
        var n := AttemptCount(attempt, 0);
        && trace == AttemptEvents("", port, attempt, n)
        && clientfd == if attempt(n - 1).Connected? then attempt(n - 1).fd else -1
    {
      clientfd, idx := -1, 0;
      serviceName, ip, methodName := "", "", "";
      trace := [];
      new;
      if !connectNow {
        return;
      }
      var rt := NewConnect(ip, port, attempt(0));
      var count := 3;
      ghost var made := 1;
      // `while (!rt && count--)`: the test reads `count` before decrementing it.
      while !rt && count != 0
        invariant 0 <= count <= 3 && made == 4 - count
        invariant rt == attempt(made - 1).Connected?
        invariant forall k :: 0 <= k < made - 1 ==> !attempt(k).Connected?
        invariant clientfd == if rt then attempt(made - 1).fd else -1
        invariant trace == AttemptEvents("", port, attempt, made)
        invariant idx == 0 && ip == "" && serviceName == "" && methodName == ""
      {
        count := count - 1;
        rt := NewConnect(ip, port, attempt(3 - count));
        made := made + 1;
      }
      AttemptCountFrom(attempt, 0, made);
    }

    /**
     * `newConnect`: on success the new socket becomes `m_clientfd`; on any
     * failure `m_clientfd` keeps its value.
     */
    method NewConnect(ip: string, port: uint16, outcome: ConnectOutcome) returns (ok: bool)
      modifies this`clientfd, this`trace
      ensures ok == outcome.Connected?
      ensures clientfd == if ok then outcome.fd else old(clientfd)
      ensures trace == old(trace) + ConnectEvents(ip, port, outcome)
    {
      trace := trace + [ConnectAttempt(ip, port)];
      match outcome
      case SocketFailed =>
        ok := false;
      case ConnectFailed(fd) =>
        trace := trace + [Close(fd)];
        ok := false;
      case Connected(fd) =>
        clientfd := fd;
        ok := true;
    }

    /** `CallMethod`, step by step as the source runs it; its effect is `Call`. */
    method CallMethod(inp: CallInputs, controller: KrpcController) returns (outcome: Outcome)
      modifies this, controller
      ensures var r := Call(old(State()), old(controller.State()), inp);
        && State() == r.state
        && controller.State() == r.status
        && trace == old(trace) + r.events
        && outcome == r.outcome
    {
      if clientfd == -1 {
        var connected;
        connected, outcome := Connect(inp);
        if !connected {
          return;
        }
      }
      SendAndReceive(inp, controller);
      outcome := Returned;
    }

    /**
     * The connection half of `CallMethod` on an unconnected channel; its
     * effect is `Open`.
     */
    method Connect(inp: CallInputs) returns (connected: bool, outcome: Outcome)
      modifies this
      ensures var o := Open(old(State()), inp);
        && State() == o.state && trace == old(trace) + o.events
        && connected == o.connected && outcome == o.outcome
    {
      var portNumber := LookUp(inp);
      if portNumber.None? {
        return false, ThrewOutOfRange;
      }
      port := portNumber.value;
      connected := NewConnect(ip, port, inp.connect);
      outcome := Returned;
    }

    /**
     * The lookup half of `CallMethod` on an unconnected channel: store the
     * names, read the registry, store `m_idx` and `m_ip`, and compute the
     * port (None when `substr` throws).
     */
    method LookUp(inp: CallInputs) returns (portNumber: Option<uint16>)
      modifies this`serviceName, this`methodName, this`idx, this`ip, this`trace
      ensures var l := Locate(old(State()), inp);
        State() == l.named && portNumber == l.port
      ensures trace == old(trace) + [GetData(MethodPath(inp.serviceName, inp.methodName))]
    {
      serviceName := inp.serviceName;
      methodName := inp.methodName;
      trace := trace + [GetData(MethodPath(serviceName, methodName))];
      var lookup := QueryServiceHost(inp.registry, serviceName, methodName, idx);
      idx := lookup.idx;
      ip := HostIp(lookup.hostData, idx);
      portNumber := HostPort(lookup.hostData, idx);
    }

    /**
     * The part of `CallMethod` after the connection check (from the request
     * serialisation on); its effect is `Exchange`.
     */
    method SendAndReceive(inp: CallInputs, controller: KrpcController)
      modifies this`trace, controller
      ensures var x := Exchange(State(), old(controller.State()), inp);
        controller.State() == x.status && trace == old(trace) + x.events
    {
      var argsSize := 0;
      var argsStr := inp.request.bytes;
      if inp.request.ok {
        argsSize := |argsStr| % TwoTo32;
      } else {
        controller.SetFailed("serialize request fail");
      }

      var header := RpcHeader(serviceName, methodName, argsSize);
      var headerStr := inp.serializeHeader(header);
      if headerStr.None? {
        controller.SetFailed("serialize rpc header error!");
        return;
      }
      var headerSize := |headerStr.value| % TwoTo32;

      var sendRpcStr := EncodeVarint32(headerSize);
      sendRpcStr := sendRpcStr + headerStr.value;
      sendRpcStr := sendRpcStr + argsStr;

      trace := trace + [Send(clientfd, sendRpcStr)];
      if inp.send.SendFailed? {
        trace := trace + [Close(clientfd)];
        controller.SetFailed(inp.send.errText);
        return;
      }

      if inp.recv.RecvFailed? {
        trace := trace + [Recv(clientfd, RecvCapacity, None)];
        controller.SetFailed(inp.recv.errText);
        return;
      }
      var recvBuf := Received1024(inp.recv.data);
      trace := trace + [Recv(clientfd, RecvCapacity, Some(recvBuf))];

      if !inp.parse(recvBuf) {
        trace := trace + [Close(clientfd)];
        controller.SetFailed(inp.parseErrText);
      }
    }
  }
}
