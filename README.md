# CemuhookUDP client — a Dafny model

This project models the core of Citra's CemuhookUDP input client
(`src/input_common/udp/client.cpp` and `client.h`). The client asks a
motion-controller server for port information and pad data every three
seconds. It turns each validated datagram into one typed callback. Pad-data
samples go through a staleness filter on their packet counter. An accepted
sample is published into a shared `DeviceStatus`: its motion is re-signed to
the console's axis convention and its first touch point is normalised
against an optional calibration range.

Modules, one per component:

- `Common`: fixed-width unsigned integers (`u8`, `u16`, `u32`) and `Option`.
- `Protocol`, `Response`, `Request`: the message type tag and the payload
  records, with the fields the model needs (the port-info fields are kept
  whole although the client only logs `model`).
- `Status`: the `DeviceStatus` class (`motion`, `touch`, `calibration`) and
  its value types.
- `Sampling`: the pure parts of `Client::OnPadData` (remap, clamp and
  normalise, the filter as a step function). It also has a fold of that step
  over a stream of samples, with lemmas about the fold.
- `UdpSocket`: the `Socket` class. It records every network operation it
  issues as an event in a trace. It also holds the dispatch function and the
  timer schedule.
- `UdpClient`: the `Client` class holding `packetSequence`, the status and
  the socket.

Floating-point values are modelled as `real`. A published touch coordinate
is `Num(r)`, `NaN` or `Undefined`. With `min == max` the source divides 0 by
`0.0f`, and the model gives `NaN`. With `max < min` the call to `std::clamp`
has undefined behaviour, and the model gives `Undefined` for that axis. That
value arises only for a pressed point on a calibrated device, which is the
only case where the source reaches the clamp. No calibration is refused up
front. Time points are integers
counted in clock ticks, at an assumed `TicksPerSecond` of 10^9. The period is
always three seconds.

Facts of the source the model keeps as written:
- The port-info request carries pad id `1` and four zero bytes (client.cpp:90).
- Raw touch `(50, 50)` in `[100, 200] x [50, 150]` gives `(0.0, 0.0, true)`: x clamps up to min_x and y equals min_y (see `Sampling.CalibrationExamples`).
- `CalibrationData` orders its fields min_x, min_y, max_x, max_y (client.h:37-40), and `Status.Calibration` keeps that order.

## Model

| member | source | states |
|---|---|---|
| `Status.DeviceStatus.constructor` | src/input_common/udp/client.h:30-43 | the shared status starts with zero motion, touch `(0, 0, false)` and the owner's optional calibration, whatever its bounds |
| `UdpClient.Client.constructor` | src/input_common/udp/client.cpp:120-135 | a new client has `packetSequence == 0`; its fresh socket has armed one receive and then the timer at `now + 3 s`, in that order |
| `UdpClient.Client.OnPadData` | src/input_common/udp/client.cpp:150-191 | a sample with counter `<=` the sequence changes neither the sequence nor motion nor touch; otherwise the sequence becomes the counter, and motion and touch are both replaced, from the same sample, with the remapped motion and `TouchOf` of the first touch point |
| `UdpClient.Client.OnVersion` | src/input_common/udp/client.cpp:142-144 | a version response changes neither the client nor the shared status (it is only logged) |
| `UdpClient.Client.OnPortInfo` | src/input_common/udp/client.cpp:146-148 | a port-info response changes neither the client nor the shared status (it is only logged) |
| `UdpClient.Client.Deliver` | src/input_common/udp/client.cpp:129-131 | version and port-info callbacks leave the client and status unchanged; a pad-data callback is one filter step |
| `UdpClient.Client.Receive` | src/input_common/udp/client.cpp:60-85 | a received datagram delivers at most the one callback of its validated type and re-arms the receive, and only a pad-data datagram can change the published state |
| `UdpSocket.Dispatch` | src/input_common/udp/client.cpp:61-83 | a callback is produced exactly when validation yields a type, its type is that type, and it carries the payload read in that type's layout (each case as an if-and-only-if) |
| `UdpSocket.Socket.HandleReceive` | src/input_common/udp/client.cpp:60-85 | the trace grows by the dispatched callback (none when validation fails) followed by exactly one new receive, in every case |
| `UdpSocket.Socket.constructor` | src/input_common/udp/client.cpp:33-36 | a new socket keeps the client id, has issued no operation, and has no armed timer and no schedule (expiry, origin and firing count all 0) |
| `UdpSocket.PortInfoMessage` | src/input_common/udp/client.cpp:90-91 | the port-info request is for the client id, with pad id 1 and exactly four port bytes, all zero |
| `UdpSocket.PadDataMessage` | src/input_common/udp/client.cpp:96-97 | the pad-data request is for the client id, subscribes by id (flag `Id`) to pad 0, with a six-byte all-zero MAC |
| `UdpSocket.Socket.StartReceive` | src/input_common/udp/client.cpp:51-57 | exactly one receive is issued |
| `UdpSocket.Socket.StartSend` | src/input_common/udp/client.cpp:46-49 | the timer expiry is the given time plus three seconds, and one wait is armed |
| `UdpSocket.Socket.HandleSend` | src/input_common/udp/client.cpp:87-101 | one port-info request (`1`, four zero bytes), then one pad-data request (flag `Id`, pad 0, empty MAC), both for the client id; then the timer is re-armed at the old expiry plus three seconds, keeping the fixed schedule |
| `UdpSocket.SocketLoop` | src/input_common/udp/client.cpp:120-124 | the loop arms a receive, then the timer from the start time; the schedule starts there with no firings |
| `UdpSocket.ExpiryAfterIsLinear` | src/input_common/udp/client.cpp:46-49 | re-arming from the previous expiry n times gives start + 3n s: no drift from the time the handler runs |
| `UdpSocket.ExpiriesOnePeriodApart` | src/input_common/udp/client.cpp:100 | the m-th and n-th expiries, for m <= n, are exactly n - m periods apart |
| `Sampling.AccelRemapRoundTrip` | src/input_common/udp/client.cpp:163 | the accel sign flips `(-x, y, -z)` are a bijection: the inverse map recovers the server's reading and vice versa |
| `Sampling.GyroRemapRoundTrip` | src/input_common/udp/client.cpp:164 | the gyro map `(-pitch, -yaw, roll)` is a bijection with an explicit inverse |
| `Sampling.RemapAccel` | src/input_common/udp/client.cpp:163 | the published accel `(-x, y, -z)` determines the server's reading: undoing the sign flips recovers it |
| `Sampling.RemapGyro` | src/input_common/udp/client.cpp:164 | the published gyro `(-pitch, -yaw, roll)` determines the server's reading: undoing the sign flips recovers it |
| `Sampling.Publish` | src/input_common/udp/client.cpp:165-190 | the pair an accepted sample writes: motion from which that sample's accel and gyro are recovered, and `TouchOf` of its first touch point, pressed exactly when the activity byte is nonzero |
| `Sampling.Clamp` | src/input_common/udp/client.cpp:183-186 | the result lies in `[lo, hi]`: the value itself when it is inside, otherwise the bound it passed |
| `Sampling.NormaliseAxis` | src/input_common/udp/client.cpp:178-186 | with `lo < hi` the coordinate is a number in `[0, 1]`, exactly 0 at or below `lo` and exactly 1 at or above `hi`; it is NaN exactly when `lo == hi`, and `Undefined` (std::clamp's undefined case) exactly when `hi < lo` |
| `Sampling.NormaliseRoundTrip` | src/input_common/udp/client.cpp:183-186 | scaling the normalised value back over `[lo, hi]` recovers the clamped raw value exactly |
| `Sampling.NormaliseMonotonic` | src/input_common/udp/client.cpp:183-186 | a larger raw coordinate never gives a smaller normalised one |
| `Sampling.TouchOf` | src/input_common/udp/client.cpp:172-189 | any nonzero activity byte counts as pressed; a released point publishes `(0, 0, false)`, a pressed point without calibration `(0, 0, true)`, and a pressed point with calibration its normalised x and y per axis |
| `Sampling.TouchInUnitSquare` | src/input_common/udp/client.cpp:177-186 | with a calibration whose bounds are strictly ordered, both published coordinates are numbers in `[0, 1]` |
| `Sampling.CalibrationExamples` | src/input_common/udp/client.cpp:177-189 | raw `(150, 100)` in `[100, 200] x [50, 150]` gives `(0.5, 0.5, true)`; raw `(50, 50)` gives `(0.0, 0.0, true)`; a released point gives `(0.0, 0.0, false)` even with reversed bounds |
| `Sampling.Step` | src/input_common/udp/client.cpp:152-189 | the new sequence is the larger of the old sequence and the counter; a stale sample leaves the whole state as it was; an accepted one publishes that sample's pair |
| `Sampling.RunSequenceIsMax` | src/input_common/udp/client.cpp:152-159 | after any stream of samples the sequence is the largest counter received, or the starting sequence if that is larger |
| `Sampling.RunMonotonic` | src/input_common/udp/client.h:59 | the sequence never decreases over any stream of samples |
| `Sampling.RunStaleIsNoop` | src/input_common/udp/client.cpp:152-158 | a stream whose counters are all at or below the sequence changes nothing at all |
| `Sampling.ReplayIsNoop` | src/input_common/udp/client.cpp:152-158 | delivering the same stream a second time has no effect (duplicates over UDP are harmless) |
| `Sampling.RunPublishesOneSample` | src/input_common/udp/client.cpp:165-190 | if the sequence did not move, nothing changed; if it moved, the published motion and touch both come from one sample of the stream, the one whose counter is the new sequence, so no pair mixes two samples |
| `Sampling.FirstSample` | src/input_common/udp/client.h:59 | from the initial state (sequence 0), a first sample is dropped exactly when its counter is 0 |
| `Sampling.SaturatedSequenceDropsAll` | src/input_common/udp/client.cpp:152 | once counter 0xFFFFFFFF has been accepted, every later sample is dropped for the client's lifetime |

## Left out

- Sockets, endpoints, `send_to`, `io_service` run/stop and `Socket::Loop`: network I/O and the event loop. The model records the operations the client issues as `UdpSocket.Event`s instead.
- The client thread, its join in `~Client` and `update_mutex`: concurrency. Within `OnPadData` both fields are written in one critical section, and the model treats that as one atomic update of the pair.
- `Response::Validate`, `Request::Create` and the `memcpy` payload decoding: their definitions live in `protocol.h`, which is not part of this model. Validation's result is an input of type `Option<Protocol.Type>`. The three layouts of the received bytes are inputs too. A request message is abstracted to its client id and payload, without header, CRC or byte layout.
- `UdpClient.Client.Receive`: the socket's trace records the callback before the re-armed receive, as in the source. The client's own state change is applied after `HandleReceive` returns. The consumer thread reads only `motion` and `touch`, and it cannot see when the receive is re-issued, so the order makes no observable difference.
- Floating-point rounding of the division and of the sign flips: values are reals. As a result the only `NaN` is the touch coordinate from `0 / 0.0f`. Reals cannot carry the NaN or infinite f32 accel and gyro readings a server may send, which the sign flips at client.cpp:163-164 pass through unchanged.
- The `static_cast<u16>` of the touch coordinates is the identity: the coordinates are 16-bit on the wire, and the model takes them as `u16`.
- Pad-data fields the client never reads (buttons, sticks, the second touch point, timestamps) and the unused error codes of the two completion handlers.
- Logging in `OnVersion`, `OnPortInfo` and on a dropped sample: `Client.OnVersion` and `Client.OnPortInfo` are methods that change nothing.
- `UdpSocket.Socket.HandleSend`: both sends are assumed to return. In the source `send_to` (client.cpp:93, 99) throws on failure, for instance when there is no route to the server. The exception leaves `HandleSend` before the second send and before the re-arm at :100, then escapes `io_service.run()` and the thread's entry function. That ends the process through `std::terminate`, so a failed send stops the 3 s schedule for good.
- `UdpClient.Client.constructor`: it always succeeds. In the source `address_v4::from_string(host)` and binding the ephemeral local port (client.cpp:35-36) can throw, and then no client is constructed.
- `packet_sequence` is a u64 compared against a u32 counter. It only ever holds a u32 value, so it cannot wrap, and it is modelled as a `nat`.
- `src/core/hw/aes/key.h` and `src/core/file_sys/romfs_reader.h`: they hold declarations and a file reader, with no client logic.
