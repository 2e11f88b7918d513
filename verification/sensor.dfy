/** Sensor stubs and the tag-keyed sensor factory.

    A sensor owns one stored `SensorData` record. Reading it resets that
    record to a fixed stub reading stamped with the current time; updating
    it reads and then calibrates the reading. The wall clock is not part of
    the model: every operation that reads the clock takes the instant as a
    parameter instead.
 */
module Sensors {

  /** A point in wall-clock time, counted in nanoseconds since the epoch.
      The model never computes with it; it is stored and passed through. */
  datatype Instant = Instant(nanos: int)

  /** The record every sensor produces and every processor transforms. */
  datatype SensorData = SensorData(sensorId: string, value: real, timestamp: Instant, valid: bool)

  /** What a call on a stateful receiver (a sensor, a processor, a
      pipeline) produces: the receiver's next state and the reading the
      call returns. */
  datatype Step<S> = Step(next: S, out: SensorData)

  const ImuId: string := "IMU_data"
  const RangeId: string := "Range_data"

  /** The factory's tags for the two sensor kinds. */
  const ImuTag: string := "ImuSensor"
  const RangeTag: string := "RangeSensor"

  /** The offset the sensor-specific calibration adds to every reading. */
  const CalibrationOffset: real := 1.0

  /** The reading a sensor with identifier `id` stores at construction and
      after every raw read at instant `now`. */
  function StubReading(id: string, now: Instant): SensorData
  {
    SensorData(id, 0.0, now, true)
  }

  /** The two sensor kinds, each carrying its stored record. */
  datatype Sensor = Imu(data: SensorData) | Range(data: SensorData)
  {
    /** The identifier every reading of this kind of sensor carries. */
    function Id(): string
    {
      if Imu? then ImuId else RangeId
    }

    /** The same kind of sensor, now storing `d`. */
    function WithData(d: SensorData): (s: Sensor)
      ensures s.data == d
      ensures s.Imu? == Imu?
    {
      if Imu? then Imu(d) else Range(d)
    }

    /** Resets the stored record to the stub reading, whatever it held
        before, and returns a copy of it. */
    function ReadRaw(now: Instant): (r: Step<Sensor>)
      ensures r.next.Imu? == Imu?
      ensures r.out == r.next.data
      ensures r.out.sensorId == Id() && r.out.value == 0.0
      ensures r.out.timestamp == now && r.out.valid
    {
      var d := StubReading(Id(), now);
      Step(WithData(d), d)
    }

    /** The sensor-specific calibration: shifts the value by the offset and
        leaves every other field alone. It does not touch the sensor. */
    function ApplyCalibration(d: SensorData): (r: SensorData)
      ensures r.value == d.value + 1.0
      ensures r.sensorId == d.sensorId && r.timestamp == d.timestamp && r.valid == d.valid
    {
      d.(value := d.value + CalibrationOffset)
    }

    /** Reads raw and calibrates the copy: the stored record keeps the
        uncalibrated stub reading while the returned one is calibrated. */
    function Update(now: Instant): (r: Step<Sensor>)
      ensures r.next.Imu? == Imu?
      ensures r.next.data == StubReading(Id(), now)
      ensures r.out.sensorId == Id() && r.out.value == 1.0
      ensures r.out.timestamp == now && r.out.valid
    {
      var raw := ReadRaw(now);
      Step(raw.next, raw.next.ApplyCalibration(raw.out))
    }
  }

  /** The calibration a sensor gets when it does not supply its own: the
      identity. Both sensor kinds replace it. */
  function DefaultCalibration(d: SensorData): SensorData
  {
    d
  }

  /** A new IMU sensor, stamped with the construction instant. */
  function NewImu(now: Instant): (s: Sensor)
    ensures s.Imu?
    ensures s.data.sensorId == ImuId && s.data.value == 0.0
    ensures s.data.timestamp == now && s.data.valid
  {
    Imu(StubReading(ImuId, now))
  }

  /** A new Range sensor, stamped with the construction instant. */
  function NewRange(now: Instant): (s: Sensor)
    ensures s.Range?
    ensures s.data.sensorId == RangeId && s.data.value == 0.0
    ensures s.data.timestamp == now && s.data.valid
  {
    Range(StubReading(RangeId, now))
  }

  /** The factory's answer: a new sensor, or the tag it did not recognise
      (where the factory itself aborts the process). */
  datatype CreateResult = Created(sensor: Sensor) | UnknownSensorType(tag: string)

  /** Maps a tag to a new sensor of the matching kind. */
  function Create(tag: string, now: Instant): (r: CreateResult)
    ensures r.Created? <==> tag == ImuTag || tag == RangeTag
    ensures r.Created? ==> (r.sensor.Imu? <==> tag == ImuTag)
    ensures r.Created? ==> r.sensor.data == StubReading(r.sensor.Id(), now)
    ensures r.UnknownSensorType? ==> r.tag == tag
  {
    if tag == ImuTag then Created(NewImu(now))
    else if tag == RangeTag then Created(NewRange(now))
    else UnknownSensorType(tag)
  }

  /** The factory tag that creates sensors of the kind of `s`. */
  function Tag(s: Sensor): string
  {
    if s.Imu? then ImuTag else RangeTag
  }

  /** Creating from a sensor's own tag gives a fresh sensor of that kind:
      the factory and `Tag` are inverse on the two kinds. */
  lemma CreateFromTag(s: Sensor, now: Instant)
    ensures Create(Tag(s), now).Created?
    ensures Create(Tag(s), now).sensor == s.WithData(StubReading(s.Id(), now))
  {
  }

  /** A new sensor already stores exactly what a raw read at the same
      instant would store. */
  lemma NewIsReadRawState(s: Sensor, now: Instant)
    requires s == NewImu(now) || s == NewRange(now)
    ensures s.ReadRaw(now).next == s
  {
  }

  /** The sensor-specific calibration differs from the trait default only
      in the value, which it raises by exactly the offset. */
  lemma CalibrationOverridesDefault(s: Sensor, d: SensorData)
    ensures s.ApplyCalibration(d) == DefaultCalibration(d).(value := d.value + CalibrationOffset)
    ensures s.ApplyCalibration(d) != DefaultCalibration(d)
  {
  }

  /** A raw read forgets history: two sensors of the same kind read at the
      same instant end up identical and return identical readings, and a
      second read at that instant changes nothing. */
  lemma ReadRawForgetsHistory(a: Sensor, b: Sensor, now: Instant)
    requires a.Imu? == b.Imu?
    ensures a.ReadRaw(now) == b.ReadRaw(now)
    ensures a.ReadRaw(now).next.ReadRaw(now) == a.ReadRaw(now)
  {
  }

  /** `Update` is `ApplyCalibration` after `ReadRaw`, and so returns the
      same reading whatever the sensor stored before. */
  lemma UpdateIsCalibratedRead(a: Sensor, b: Sensor, now: Instant)
    requires a.Imu? == b.Imu?
    ensures a.Update(now).next == a.ReadRaw(now).next
    ensures a.Update(now).out == a.ApplyCalibration(a.ReadRaw(now).out)
    ensures a.Update(now) == b.Update(now)
  {
  }
}
