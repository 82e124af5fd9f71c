/**
  The session: it owns the socket engine, filters pad-data samples by their
  counter and publishes motion and touch together into the shared status.
 */
module UdpClient {
  import opened Common
  import Protocol
  import Response
  import opened Status
  import opened Sampling
  import opened UdpSocket

  class Client {
    const status: DeviceStatus
    const socket: Socket
    // the counter of the last accepted pad-data sample
    var packetSequence: nat

    ghost predicate Valid()
      reads socket
    {
      socket.OnSchedule()
    }

    /** The client and its shared status seen as one value. */
    ghost function State(): Session
      reads this, status
    {
      Session(packetSequence, Published(status.motion, status.touch))
    }

    /** Creates the socket and starts its loop: one receive armed, the timer armed from `now`. */
    constructor (status: DeviceStatus, clientId: u32, now: int)
      ensures Valid() && this.status == status && packetSequence == 0
      ensures fresh(socket) && socket.clientId == clientId && socket.origin == now && socket.firings == 0
      ensures socket.trace == [ReceiveIssued, TimerArmed(now + SendPeriod)]
      ensures unchanged(status)
    {
      this.status := status;
      packetSequence := 0;
      socket := new Socket(clientId);
      new;
      SocketLoop(socket, now);
    }

    /** Version responses are only logged. */
    method OnVersion(data: Response.Version)
      ensures State() == old(State()) && unchanged(status)
    {
    }

    /** Port-info responses are only logged. */
    method OnPortInfo(data: Response.PortInfo)
      ensures State() == old(State()) && unchanged(status)
    {
    }

    /**
      A stale sample is dropped and changes nothing. A fresh one becomes the
      new sequence, and its remapped motion and normalised touch replace the
      published pair together.
     */
    method OnPadData(data: Response.PadData)
      modifies this`packetSequence, status`motion, status`touch
      ensures State() == Step(old(State()), status.calibration, data)
      ensures !Accepts(old(packetSequence), data.packetCounter) ==>
        packetSequence == old(packetSequence) && status.motion == old(status.motion) && status.touch == old(status.touch)
      ensures Accepts(old(packetSequence), data.packetCounter) ==>
        packetSequence == data.packetCounter as nat &&
        status.motion == Motion(RemapAccel(data.accel), RemapGyro(data.gyro)) &&
        status.touch == TouchOf(data.touch1, status.calibration)
    {
      if data.packetCounter as nat <= packetSequence {
        return;
      }
      packetSequence := data.packetCounter as nat;
      var accel := Vec3(-data.accel.x, data.accel.y, -data.accel.z);
      var gyro := Vec3(-data.gyro.pitch, -data.gyro.yaw, data.gyro.roll);
      status.motion := Motion(accel, gyro);
      var isActive := data.touch1.isActive != 0;
      var x, y := Num(0.0), Num(0.0);
      if isActive && status.calibration.Some? {
        var c := status.calibration.value;
        x := NormaliseAxis(data.touch1.x, c.minX, c.maxX);
        y := NormaliseAxis(data.touch1.y, c.minY, c.maxY);
      }
      status.touch := Touch(x, y, isActive);
    }

    /** The three callbacks the client hands to its socket. */
    method Deliver(cb: Callback)
      modifies this`packetSequence, status`motion, status`touch
      ensures State() == if cb.PadDataCallback? then Step(old(State()), status.calibration, cb.padData) else old(State())
    {
      match cb
      case VersionCallback(v) => OnVersion(v);
      case PortInfoCallback(p) => OnPortInfo(p);
      case PadDataCallback(d) => OnPadData(d);
    }

    /**
      A datagram arrived and validation gave `kind`: only a pad-data datagram
      can change the published state, and the socket always receives again.
     */
    method Receive(kind: Option<Protocol.Type>, version: Response.Version, portInfo: Response.PortInfo,
                   padData: Response.PadData)
      requires Valid()
      modifies this`packetSequence, status`motion, status`touch, socket`trace
      ensures Valid()
      ensures socket.trace == old(socket.trace) + Deliveries(Dispatch(kind, version, portInfo, padData)) + [ReceiveIssued]
      ensures State() == if kind == Some(Protocol.PadData) then Step(old(State()), status.calibration, padData) else old(State())
    {
      var delivered := socket.HandleReceive(kind, version, portInfo, padData);
      if delivered.Some? {
        Deliver(delivered.value);
      }
    }
  }
}
