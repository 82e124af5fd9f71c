/** The message type tag that validating a received datagram yields. */
module Protocol {
  datatype Type = Version | PortInfo | PadData
}

/** Payloads of the three response kinds, with the fields the client reads. */
module Response {
  import opened Common

  datatype Version = Version(version: u16)

  datatype PortInfo = PortInfo(id: u8, model: u8, connectionState: u8, battery: u8, mac: seq<u8>)

  /** Accelerometer reading as the server reports it. */
  datatype Accel = Accel(x: real, y: real, z: real)

  /** Gyroscope reading as the server reports it. */
  datatype Gyro = Gyro(pitch: real, yaw: real, roll: real)

  /** One touch point: an activity byte, an id and raw 16-bit coordinates. */
  datatype TouchPad = TouchPad(isActive: u8, id: u8, x: u16, y: u16)

  datatype PadData = PadData(packetCounter: u32, accel: Accel, gyro: Gyro, touch1: TouchPad)
}

/** Payloads of the two request kinds and the message that wraps one for a client id. */
module Request {
  import opened Common

  /** How a pad-data subscription selects its pad. */
  datatype Flags = AllPorts | Id | Mac

  datatype PortInfo = PortInfo(padId: u32, ports: seq<u8>)

  datatype PadData = PadData(flags: Flags, padId: u8, mac: seq<u8>)

  datatype Payload = PortInfoRequest(portInfo: PortInfo) | PadDataRequest(padData: PadData)

  /** A request as it goes on the wire: the header (abstracted to its client id) and the payload. */
  datatype Message = Message(clientId: u32, payload: Payload)

  const EmptyMac: seq<u8> := [0, 0, 0, 0, 0, 0]
}
