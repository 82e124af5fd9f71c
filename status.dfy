/** The shared status record the client publishes into, and the values it holds. */
module Status {
  import opened Common

  datatype Vec3 = Vec3(x: real, y: real, z: real)

  /** `motion_status`: acceleration and angular rate in the consumer's axis convention. */
  datatype Motion = Motion(accel: Vec3, gyro: Vec3)

  /**
    A published touch coordinate: a value, the NaN that 0 / 0.0f yields, or
    no defined value, where std::clamp is called with its bounds reversed.
   */
  datatype Coord = Num(value: real) | NaN | Undefined

  /** `touch_status`: normalised x, normalised y, and whether the point is pressed. */
  datatype Touch = Touch(x: Coord, y: Coord, active: bool)

  /** `CalibrationData`: the raw coordinate range of the device's touch area. */
  datatype Calibration = Calibration(minX: u16, minY: u16, maxX: u16, maxY: u16)

  const ZeroMotion: Motion := Motion(Vec3(0.0, 0.0, 0.0), Vec3(0.0, 0.0, 0.0))
  const ZeroTouch: Touch := Touch(Num(0.0), Num(0.0), false)

  class DeviceStatus {
    var motion: Motion
    var touch: Touch
    var calibration: Option<Calibration>

    /** Both tuples start value-initialised; the owner supplies the optional calibration. */
    constructor (calibration: Option<Calibration>)
      ensures this.calibration == calibration
      ensures motion == ZeroMotion && touch == ZeroTouch
    {
      motion := ZeroMotion;
      touch := ZeroTouch;
      this.calibration := calibration;
    }
  }
}
