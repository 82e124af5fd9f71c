/**
  The socket engine: it turns a validated datagram into at most one typed
  callback and re-arms the receive, and it sends the two requests on a fixed
  three-second timer. Network operations are recorded as events in order,
  which is all of them the client can observe.
 */
module UdpSocket {
  import opened Common
  import Protocol
  import Response
  import Request

  /** Ticks of the system clock per second; time points are counted in ticks. */
  const TicksPerSecond: nat := 1_000_000_000

  /** The timer is always armed three seconds past the time it is given. */
  const SendPeriod: nat := 3 * TicksPerSecond

  /** A call into one of the three per-type callbacks, with its decoded payload. */
  datatype Callback =
    | VersionCallback(version: Response.Version)
    | PortInfoCallback(portInfo: Response.PortInfo)
    | PadDataCallback(padData: Response.PadData)

  function TypeOf(cb: Callback): Protocol.Type {
    match cb
    case VersionCallback(_) => Protocol.Version
    case PortInfoCallback(_) => Protocol.PortInfo
    case PadDataCallback(_) => Protocol.PadData
  }

  datatype Event =
    | Delivered(callback: Callback)
    | ReceiveIssued
    | Sent(message: Request.Message)
    | TimerArmed(expiry: int)

  /**
    The callback a received datagram leads to. `kind` is what validation of the
    datagram returned; `version`, `portInfo` and `padData` are the bytes after
    the header read as each of the three payload layouts.
   */
  function Dispatch(kind: Option<Protocol.Type>, version: Response.Version, portInfo: Response.PortInfo,
                    padData: Response.PadData): (r: Option<Callback>)
    ensures r.Some? <==> kind.Some?
    ensures r.Some? ==> TypeOf(r.value) == kind.value
    ensures r == Some(VersionCallback(version)) <==> kind == Some(Protocol.Version)
    ensures r == Some(PortInfoCallback(portInfo)) <==> kind == Some(Protocol.PortInfo)
    ensures r == Some(PadDataCallback(padData)) <==> kind == Some(Protocol.PadData)
  {
    match kind
    case None => None
    case Some(Version) => Some(VersionCallback(version))
    case Some(PortInfo) => Some(PortInfoCallback(portInfo))
    case Some(PadData) => Some(PadDataCallback(padData))
  }

  function Deliveries(cb: Option<Callback>): seq<Event> {
    if cb.Some? then [Delivered(cb.value)] else []
  }

  /** The port-info request sent on every firing: pad id 1 and four zero bytes. */
  function PortInfoMessage(clientId: u32): (m: Request.Message)
    ensures m.clientId == clientId && m.payload.PortInfoRequest?
    ensures m.payload.portInfo.padId == 1
    ensures |m.payload.portInfo.ports| == 4 && forall i :: 0 <= i < 4 ==> m.payload.portInfo.ports[i] == 0
  {
    Request.Message(clientId, Request.PortInfoRequest(Request.PortInfo(1, [0, 0, 0, 0])))
  }

  /** The pad-data request sent on every firing: subscribe by id to pad 0, no MAC. */
  function PadDataMessage(clientId: u32): (m: Request.Message)
    ensures m.clientId == clientId && m.payload.PadDataRequest?
    ensures m.payload.padData.flags == Request.Id && m.payload.padData.padId == 0
    ensures |m.payload.padData.mac| == 6 && forall i :: 0 <= i < 6 ==> m.payload.padData.mac[i] == 0
  {
    Request.Message(clientId, Request.PadDataRequest(Request.PadData(Request.Id, 0, Request.EmptyMac)))
  }

  /** Expiry after the timer has been armed n times, each from the previous expiry. */
  function ExpiryAfter(origin: int, n: nat): int {
    if n == 0 then origin else ExpiryAfter(origin, n - 1) + SendPeriod
  }

  /** Re-arming from the old expiry never drifts: the n-th expiry is n periods after the start. */
  lemma {:induction false} ExpiryAfterIsLinear(origin: int, n: nat)
    ensures ExpiryAfter(origin, n) == origin + n * SendPeriod
  {
    if n > 0 {
      ExpiryAfterIsLinear(origin, n - 1);
    }
  }

  /** Any two expiries of the schedule, the m-th and the n-th, are exactly n - m periods apart. */
  lemma ExpiriesOnePeriodApart(origin: int, m: nat, n: nat)
    requires m <= n
    ensures ExpiryAfter(origin, n) - ExpiryAfter(origin, m) == (n - m) * SendPeriod
  {
    ExpiryAfterIsLinear(origin, m);
    ExpiryAfterIsLinear(origin, n);
  }

  class Socket {
    const clientId: u32
    var expiry: int
    var trace: seq<Event>
    // when the send loop was started, and how often the timer has fired since
    ghost var origin: int
    ghost var firings: nat

    /** The timer is armed for the next firing of the fixed schedule. */
    ghost predicate OnSchedule()
      reads this
    {
      expiry == ExpiryAfter(origin, firings + 1)
    }

    /** A new socket has issued nothing yet; its timer is not armed and no schedule has started. */
    constructor (clientId: u32)
      ensures this.clientId == clientId && trace == []
      ensures expiry == 0 && origin == 0 && firings == 0
    {
      this.clientId := clientId;
      expiry := 0;
      trace := [];
      origin := 0;
      firings := 0;
    }

    method StartSend(from: int)
      modifies this`expiry, this`trace
      ensures expiry == from + SendPeriod
      ensures trace == old(trace) + [TimerArmed(expiry)]
    {
      expiry := from + SendPeriod;
      trace := trace + [TimerArmed(expiry)];
    }

    method StartReceive()
      modifies this`trace
      ensures trace == old(trace) + [ReceiveIssued]
    {
      trace := trace + [ReceiveIssued];
    }

    /** A receive completed: deliver at most one callback, then receive again whatever happened. */
    method HandleReceive(kind: Option<Protocol.Type>, version: Response.Version, portInfo: Response.PortInfo,
                         padData: Response.PadData) returns (delivered: Option<Callback>)
      modifies this`trace
      ensures delivered == Dispatch(kind, version, portInfo, padData)
      ensures trace == old(trace) + Deliveries(delivered) + [ReceiveIssued]
    {
      delivered := None;
      if kind.Some? {
        match kind.value {
          case Version =>
            delivered := Some(VersionCallback(version));
          case PortInfo =>
            delivered := Some(PortInfoCallback(portInfo));
          case PadData =>
            delivered := Some(PadDataCallback(padData));
        }
        trace := trace + [Delivered(delivered.value)];
      }
      StartReceive();
    }

    /** The timer fired: send both requests, then re-arm from the expiry just reached. */
    method HandleSend()
      requires OnSchedule()
      modifies this`expiry, this`trace, this`firings
      ensures OnSchedule() && firings == old(firings) + 1
      ensures expiry == old(expiry) + SendPeriod
      ensures trace == old(trace) + [Sent(PortInfoMessage(clientId)), Sent(PadDataMessage(clientId)), TimerArmed(expiry)]
    {
      var portMessage := PortInfoMessage(clientId);
      trace := trace + [Sent(portMessage)];
      var padMessage := PadDataMessage(clientId);
      trace := trace + [Sent(padMessage)];
      firings := firings + 1;
      StartSend(expiry);
    }
  }

  /** The start of the engine's thread: arm a receive, then the timer from the current time. */
  method SocketLoop(socket: Socket, now: int)
    modifies socket`expiry, socket`trace, socket`origin, socket`firings
    ensures socket.OnSchedule() && socket.origin == now && socket.firings == 0
    ensures socket.expiry == now + SendPeriod
    ensures socket.trace == old(socket.trace) + [ReceiveIssued, TimerArmed(now + SendPeriod)]
  {
    socket.StartReceive();
    socket.StartSend(now);
    socket.origin := now;
    socket.firings := 0;
  }
}
