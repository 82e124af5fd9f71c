/**
  What `Client::OnPadData` computes from one pad-data sample: the staleness
  filter, the axis remap, the touch normalisation and the published pair, as
  pure functions, with the state machine they form over a stream of samples.
 */
module Sampling {
  import opened Common
  import Response
  import opened Status

  // ---------------------------------------------------------------- axis remap

  /** The server's accelerometer axes in the consumer's convention: x and z flip sign. */
  function RemapAccel(a: Response.Accel): (v: Vec3)
    ensures UnmapAccel(v) == a
  {
    Vec3(-a.x, a.y, -a.z)
  }

  /** The server's gyro in the consumer's convention: pitch and yaw flip sign, roll is kept. */
  function RemapGyro(g: Response.Gyro): (v: Vec3)
    ensures UnmapGyro(v) == g
  {
    Vec3(-g.pitch, -g.yaw, g.roll)
  }

  /** The reading the server would have to send to make the client publish `v`. */
  function UnmapAccel(v: Vec3): Response.Accel {
    Response.Accel(-v.x, v.y, -v.z)
  }

  function UnmapGyro(v: Vec3): Response.Gyro {
    Response.Gyro(-v.x, -v.y, v.z)
  }

  /** The remap loses nothing: it is a bijection between server readings and published vectors. */
  lemma AccelRemapRoundTrip(a: Response.Accel, v: Vec3)
    ensures UnmapAccel(RemapAccel(a)) == a
    ensures RemapAccel(UnmapAccel(v)) == v
  {
  }

  lemma GyroRemapRoundTrip(g: Response.Gyro, v: Vec3)
    ensures UnmapGyro(RemapGyro(g)) == g
    ensures RemapGyro(UnmapGyro(v)) == v
  {
  }

  // ------------------------------------------------------ touch normalisation

  /** std::clamp(v, lo, hi), which requires lo <= hi. */
  function Clamp(v: int, lo: int, hi: int): (r: int)
    requires lo <= hi
    ensures lo <= r <= hi
    ensures lo <= v <= hi ==> r == v
    ensures v < lo ==> r == lo
    ensures hi < v ==> r == hi
  {
    if v < lo then lo else if hi < v then hi else v
  }

  /**
    One normalised touch coordinate: the raw value clamped into [lo, hi],
    shifted to start at 0, divided by the width of the range. With lo == hi
    the division is 0 / 0.0f, a NaN; with hi < lo std::clamp has no defined
    result at all.
   */
  function NormaliseAxis(raw: u16, lo: u16, hi: u16): (c: Coord)
    ensures c.Undefined? <==> hi < lo
    ensures c.NaN? <==> lo == hi
    ensures c.Num? ==> 0.0 <= c.value <= 1.0
    ensures lo < hi && raw <= lo ==> c == Num(0.0)
    ensures lo < hi && hi <= raw ==> c == Num(1.0)
  {
    if hi < lo then
      Undefined
    else if lo == hi then
      NaN
    else
      var offset := Clamp(raw as int, lo as int, hi as int) - lo as int;
      var width := (hi as int - lo as int) as real;
      FractionInUnit(offset as real, width);
      Num(offset as real / width)
  }

  lemma FractionInUnit(a: real, b: real)
    requires 0.0 <= a <= b && 0.0 < b
    ensures 0.0 <= a / b <= 1.0
    ensures a == 0.0 ==> a / b == 0.0
    ensures a == b ==> a / b == 1.0
  {
    assert a / b * b == a;
  }

  /** Maps a normalised coordinate back into the calibrated raw range. */
  function Denormalise(t: real, lo: u16, hi: u16): real {
    lo as real + t * (hi as int - lo as int) as real
  }

  /** Normalising keeps the clamped raw value: scaling back recovers it exactly. */
  lemma NormaliseRoundTrip(raw: u16, lo: u16, hi: u16)
    requires lo < hi
    ensures NormaliseAxis(raw, lo, hi).Num?
    ensures Denormalise(NormaliseAxis(raw, lo, hi).value, lo, hi) == Clamp(raw as int, lo as int, hi as int) as real
  {
    var offset := (Clamp(raw as int, lo as int, hi as int) - lo as int) as real;
    var width := (hi as int - lo as int) as real;
    assert NormaliseAxis(raw, lo, hi).value * width == offset;
  }

  /** A larger raw coordinate never normalises to a smaller value. */
  lemma NormaliseMonotonic(raw1: u16, raw2: u16, lo: u16, hi: u16)
    requires lo < hi && raw1 <= raw2
    ensures NormaliseAxis(raw1, lo, hi).value <= NormaliseAxis(raw2, lo, hi).value
  {
    var width := (hi as int - lo as int) as real;
    var o1 := (Clamp(raw1 as int, lo as int, hi as int) - lo as int) as real;
    var o2 := (Clamp(raw2 as int, lo as int, hi as int) - lo as int) as real;
    assert o1 <= o2;
    assert o1 / width <= o2 / width by {
      assert (o2 - o1) / width >= 0.0;
      assert o2 / width - o1 / width == (o2 - o1) / width;
    }
  }

  /**
    The published touch point. A nonzero activity byte counts as pressed;
    coordinates are normalised only when the point is pressed and a
    calibration is present, and are 0 otherwise.
   */
  function TouchOf(t: Response.TouchPad, calibration: Option<Calibration>): (r: Touch)
    ensures r.active <==> t.isActive != 0
    ensures t.isActive == 0 ==> r == Touch(Num(0.0), Num(0.0), false)
    ensures t.isActive != 0 && calibration.None? ==> r == Touch(Num(0.0), Num(0.0), true)
    ensures t.isActive != 0 && calibration.Some? ==>
      r.x == NormaliseAxis(t.x, calibration.value.minX, calibration.value.maxX) &&
      r.y == NormaliseAxis(t.y, calibration.value.minY, calibration.value.maxY)
  {
    var active := t.isActive != 0;
    if active && calibration.Some? then
      var c := calibration.value;
      Touch(NormaliseAxis(t.x, c.minX, c.maxX), NormaliseAxis(t.y, c.minY, c.maxY), active)
    else
      Touch(Num(0.0), Num(0.0), active)
  }

  /** With a non-degenerate calibration every published coordinate is a number in [0, 1]. */
  lemma TouchInUnitSquare(t: Response.TouchPad, c: Calibration)
    requires c.minX < c.maxX && c.minY < c.maxY
    ensures TouchOf(t, Some(c)).x.Num? && 0.0 <= TouchOf(t, Some(c)).x.value <= 1.0
    ensures TouchOf(t, Some(c)).y.Num? && 0.0 <= TouchOf(t, Some(c)).y.value <= 1.0
  {
  }

  /**
    Raw (150, 100) in [100, 200] x [50, 150] lands in the middle; (50, 50) clamps to the corner;
    a released point never reaches the calibration, even one with reversed bounds.
   */
  lemma CalibrationExamples()
    ensures TouchOf(Response.TouchPad(1, 0, 150, 100), Some(Calibration(100, 50, 200, 150)))
         == Touch(Num(0.5), Num(0.5), true)
    ensures TouchOf(Response.TouchPad(1, 0, 50, 50), Some(Calibration(100, 50, 200, 150)))
         == Touch(Num(0.0), Num(0.0), true)
    ensures TouchOf(Response.TouchPad(0, 0, 5, 5), Some(Calibration(200, 0, 100, 10)))
         == Touch(Num(0.0), Num(0.0), false)
  {
  }

  // ------------------------------------------------ filter, publish, sequence

  /** The pair written into the shared status under one lock. */
  datatype Published = Published(motion: Motion, touch: Touch)

  /** What a client and its shared status hold between samples. */
  datatype Session = Session(sequence: nat, published: Published)

  const Initial: Session := Session(0, Published(ZeroMotion, ZeroTouch))

  /** Only a counter strictly above the last accepted one is fresh. */
  predicate Accepts(sequence: nat, counter: u32) {
    sequence < counter as nat
  }

  /**
    The pair an accepted sample publishes: its motion, from which the sample's
    accel and gyro readings can be recovered, and its first touch point.
   */
  function Publish(d: Response.PadData, calibration: Option<Calibration>): (r: Published)
    ensures UnmapAccel(r.motion.accel) == d.accel && UnmapGyro(r.motion.gyro) == d.gyro
    ensures r.touch == TouchOf(d.touch1, calibration)
    ensures r.touch.active <==> d.touch1.isActive != 0
  {
    Published(Motion(RemapAccel(d.accel), RemapGyro(d.gyro)), TouchOf(d.touch1, calibration))
  }

  /** One sample through the filter: a stale one leaves everything as it was. */
  function Step(s: Session, calibration: Option<Calibration>, d: Response.PadData): (r: Session)
    ensures r.sequence == Max(s.sequence, d.packetCounter as int)
    ensures !Accepts(s.sequence, d.packetCounter) ==> r == s
    ensures Accepts(s.sequence, d.packetCounter) ==> r.published == Publish(d, calibration)
  {
    if Accepts(s.sequence, d.packetCounter) then Session(d.packetCounter as nat, Publish(d, calibration)) else s
  }

  /** A stream of samples through the filter, in arrival order. */
  function Run(s: Session, calibration: Option<Calibration>, ds: seq<Response.PadData>): Session
    decreases |ds|
  {
    if ds == [] then s else Run(Step(s, calibration, ds[0]), calibration, ds[1..])
  }

  function MaxCounter(ds: seq<Response.PadData>): nat
    decreases |ds|
  {
    if ds == [] then 0 else Max(ds[0].packetCounter as int, MaxCounter(ds[1..]))
  }

  lemma {:induction false} MaxCounterBounds(ds: seq<Response.PadData>, k: nat)
    requires k < |ds|
    ensures ds[k].packetCounter as nat <= MaxCounter(ds)
  {
    if k > 0 {
      MaxCounterBounds(ds[1..], k - 1);
    }
  }

  /** The sequence after a stream is the largest counter seen, or where it started if larger. */
  lemma {:induction false} RunSequenceIsMax(s: Session, calibration: Option<Calibration>, ds: seq<Response.PadData>)
    ensures Run(s, calibration, ds).sequence == Max(s.sequence, MaxCounter(ds))
    decreases |ds|
  {
    if ds != [] {
      RunSequenceIsMax(Step(s, calibration, ds[0]), calibration, ds[1..]);
    }
  }

  /** The sequence never decreases. */
  lemma RunMonotonic(s: Session, calibration: Option<Calibration>, ds: seq<Response.PadData>)
    ensures s.sequence <= Run(s, calibration, ds).sequence
  {
    RunSequenceIsMax(s, calibration, ds);
  }

  /** A stream whose every counter is at or below the sequence changes nothing. */
  lemma {:induction false} RunStaleIsNoop(s: Session, calibration: Option<Calibration>, ds: seq<Response.PadData>)
    requires forall k :: 0 <= k < |ds| ==> ds[k].packetCounter as nat <= s.sequence
    ensures Run(s, calibration, ds) == s
    decreases |ds|
  {
    if ds != [] {
      assert ds[0].packetCounter as nat <= s.sequence;
      assert forall k :: 0 <= k < |ds[1..]| ==> ds[1..][k] == ds[k + 1];
      RunStaleIsNoop(s, calibration, ds[1..]);
    }
  }

  /** Duplicated delivery: receiving the same stream again has no effect. */
  lemma ReplayIsNoop(s: Session, calibration: Option<Calibration>, ds: seq<Response.PadData>)
    ensures Run(Run(s, calibration, ds), calibration, ds) == Run(s, calibration, ds)
  {
    var r := Run(s, calibration, ds);
    RunSequenceIsMax(s, calibration, ds);
    forall k | 0 <= k < |ds|
      ensures ds[k].packetCounter as nat <= r.sequence
    {
      MaxCounterBounds(ds, k);
    }
    RunStaleIsNoop(r, calibration, ds);
  }

  /**
    Whatever a stream leaves published is the motion and touch of one single
    sample of it, the one whose counter is the new sequence, and nothing at
    all changes unless some sample was accepted.
   */
  lemma {:induction false} RunPublishesOneSample(s: Session, calibration: Option<Calibration>, ds: seq<Response.PadData>)
    ensures Run(s, calibration, ds).sequence == s.sequence ==> Run(s, calibration, ds) == s
    ensures Run(s, calibration, ds).sequence != s.sequence ==>
      exists k :: 0 <= k < |ds| &&
        ds[k].packetCounter as nat == Run(s, calibration, ds).sequence &&
        Publish(ds[k], calibration) == Run(s, calibration, ds).published
    decreases |ds|
  {
    if ds != [] {
      var s' := Step(s, calibration, ds[0]);
      var r := Run(s', calibration, ds[1..]);
      assert r == Run(s, calibration, ds);
      RunPublishesOneSample(s', calibration, ds[1..]);
      RunMonotonic(s', calibration, ds[1..]);
      if r.sequence != s'.sequence {
        var k :| 0 <= k < |ds[1..]| && ds[1..][k].packetCounter as nat == r.sequence &&
          Publish(ds[1..][k], calibration) == r.published;
        assert ds[k + 1] == ds[1..][k];
      } else if s' != s {
        assert ds[0].packetCounter as nat == r.sequence && Publish(ds[0], calibration) == r.published;
      }
    }
  }

  /** A fresh client drops a first sample numbered 0 and accepts any other. */
  lemma FirstSample(calibration: Option<Calibration>, d: Response.PadData)
    ensures Step(Initial, calibration, d) == Initial <==> d.packetCounter == 0
  {
  }

  /** Once the largest 32-bit counter has been accepted, no later sample ever is. */
  lemma SaturatedSequenceDropsAll(s: Session, calibration: Option<Calibration>, ds: seq<Response.PadData>)
    requires s.sequence == 0xFFFF_FFFF
    ensures Run(s, calibration, ds) == s
  {
    RunStaleIsNoop(s, calibration, ds);
  }
}
