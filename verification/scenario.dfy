/** The configuration the program's entry point builds, used as a concrete
    scenario: two sensors from the factory, and one shared pipeline that
    smooths with `alpha = 0.1` and then validates against [-100, 100].
    The console reporting is not modelled; the readings it would print are
    returned instead.
 */
module MainScenario {
  import opened Sensors
  import opened Processing

  /** Smoothing first, then validation. */
  function MainPipeline(): ProcessorPipeline
  {
    var p := AddProcessor(NewPipeline(), LowPass(NewLowPassFilter(0.1)));
    AddProcessor(p, Threshold(NewThresholdValidator(-100.0, 100.0)))
  }

  /** The pipeline holds a fresh filter followed by the validator. */
  lemma MainPipelineShape()
    ensures MainPipeline().processors
         == [LowPass(LowPassFilter(0.1, 0.0)), Threshold(ThresholdValidator(-100.0, 100.0))]
  {
    var p := AddProcessor(NewPipeline(), LowPass(NewLowPassFilter(0.1)));
    assert p.processors == [LowPass(LowPassFilter(0.1, 0.0))];
  }

  /** Two runs on the value 50: the first smooths it to 5 from the filter's
      initial state 0, the second to 9.5 from the state the first run left,
      and both are in range. */
  lemma FilterStatePersists(d: SensorData)
    requires d.value == 50.0
    ensures Run(MainPipeline(), d).out == d.(value := 5.0, valid := true)
    ensures Run(Run(MainPipeline(), d).next, d).out == d.(value := 9.5, valid := true)
  {
    MainPipelineShape();
    var f := LowPass(LowPassFilter(0.1, 0.0));
    var v := Threshold(ThresholdValidator(-100.0, 100.0));
    RunTwo(f, v, d);
    var f1 := f.Process(d).next;
    assert f1 == LowPass(LowPassFilter(0.1, 5.0));
    RunTwo(f1, v, d);
  }

  /** A sensor's updated reading and what the pipeline made of it. */
  datatype Report = Report(raw: SensorData, processed: SensorData)

  /** The sensors and the pipeline after a pass of the reporting loop, with
      one report per sensor. */
  datatype Pass = Pass(sensors: seq<Sensor>, pipeline: ProcessorPipeline, reports: seq<Report>)

  /** Every sensor of `r` is the matching sensor of `sensors` after its
      update at its own instant, every report holds that update's reading,
      and the processed reading keeps the sensor's id and instant. */
  predicate UpdatedEach(sensors: seq<Sensor>, clock: seq<Instant>, r: Pass)
  {
    && |clock| == |sensors| == |r.sensors| == |r.reports|
    && forall i :: 0 <= i < |sensors| ==>
         && r.sensors[i] == sensors[i].Update(clock[i]).next
         && r.reports[i].raw == sensors[i].Update(clock[i]).out
         && r.reports[i].processed.sensorId == sensors[i].Id()
         && r.reports[i].processed.timestamp == clock[i]
  }

  /** One pass of the reporting loop: every sensor in turn is updated at
      its own instant, and its reading runs through the shared pipeline,
      which carries its state on to the next sensor. */
  function Acquire(sensors: seq<Sensor>, p: ProcessorPipeline, clock: seq<Instant>): (r: Pass)
    requires |clock| == |sensors|
    ensures |r.pipeline.processors| == |p.processors|
    ensures UpdatedEach(sensors, clock, r)
    ensures |sensors| > 0 ==> r.reports[0].processed == Run(p, r.reports[0].raw).out
    ensures |sensors| == 0 ==> r.pipeline == p
    decreases |sensors|
  {
    if |sensors| == 0 then Pass([], p, [])
    else
      var update := sensors[0].Update(clock[0]);
      var run := Run(p, update.out);
      var rest := Acquire(sensors[1..], run.next, clock[1..]);
      Pass([update.next] + rest.sensors, rest.pipeline, [Report(update.out, run.out)] + rest.reports)
  }

  /** A pass over one sensor updates it and runs its reading once. */
  lemma AcquireSingle(s: Sensor, p: ProcessorPipeline, t: Instant)
    ensures var u := s.Update(t);
            Acquire([s], p, [t]) == Pass([u.next], Run(p, u.out).next, [Report(u.out, Run(p, u.out).out)])
  {
    assert [s][1..] == [];
    assert [t][1..] == [];
  }

  /** A pass over `s1 + s2` is a pass over `s1` followed by a pass over
      `s2` that starts from the pipeline state the first pass left. */
  lemma {:induction false} AcquireAppend(s1: seq<Sensor>, s2: seq<Sensor>, p: ProcessorPipeline,
                                         c1: seq<Instant>, c2: seq<Instant>)
    requires |c1| == |s1| && |c2| == |s2|
    ensures var a := Acquire(s1, p, c1);
            var b := Acquire(s2, a.pipeline, c2);
            Acquire(s1 + s2, p, c1 + c2) == Pass(a.sensors + b.sensors, b.pipeline, a.reports + b.reports)
    decreases |s1|
  {
    if |s1| == 0 {
      assert s1 + s2 == s2;
      assert c1 + c2 == c2;
      assert Acquire(s1, p, c1) == Pass([], p, []);
    } else {
      var x, t := s1[0], c1[0];
      var u := x.Update(t);
      var run := Run(p, u.out);
      var restA := Acquire(s1[1..], run.next, c1[1..]);
      var b := Acquire(s2, restA.pipeline, c2);
      SplitFirst(s1, s2);
      SplitFirst(c1, c2);
      assert Acquire(s1, p, c1)
          == Pass([u.next] + restA.sensors, restA.pipeline, [Report(u.out, run.out)] + restA.reports) by {
        AcquireCons(x, s1[1..], p, t, c1[1..]);
      }
      assert Acquire(s1 + s2, p, c1 + c2)
          == Pass([u.next] + (restA.sensors + b.sensors), b.pipeline,
                  [Report(u.out, run.out)] + (restA.reports + b.reports)) by {
        AcquireCons(x, s1[1..] + s2, p, t, c1[1..] + c2);
        AcquireAppend(s1[1..], s2, run.next, c1[1..], c2);
      }
      ConsAssoc(u.next, restA.sensors, b.sensors);
      ConsAssoc(Report(u.out, run.out), restA.reports, b.reports);
    }
  }

  /** Splitting off the first element of a non-empty sequence, alone and
      in front of a concatenation. */
  lemma SplitFirst<T>(a: seq<T>, b: seq<T>)
    requires |a| > 0
    ensures a == [a[0]] + a[1..]
    ensures a + b == [a[0]] + (a[1..] + b)
  {
    assert (a + b)[1..] == a[1..] + b;
  }

  lemma ConsAssoc<T>(x: T, a: seq<T>, b: seq<T>)
    ensures [x] + (a + b) == ([x] + a) + b
  {
  }

  /** One unfolding of the pass. */
  lemma AcquireCons(x: Sensor, xs: seq<Sensor>, p: ProcessorPipeline, t: Instant, ts: seq<Instant>)
    requires |ts| == |xs|
    ensures var u := x.Update(t);
            var run := Run(p, u.out);
            var rest := Acquire(xs, run.next, ts);
            Acquire([x] + xs, p, [t] + ts)
            == Pass([u.next] + rest.sensors, rest.pipeline, [Report(u.out, run.out)] + rest.reports)
  {
    assert ([x] + xs)[1..] == xs;
    assert ([t] + ts)[1..] == ts;
  }

  /** The program's own run: an IMU and a Range sensor, each created at its
      own instant and reading 1 after calibration, share one filter, so the
      IMU's reading is smoothed to 0.1 and the Range sensor's to 0.19. Both
      are in range. */
  lemma MainTrace(createdImu: Instant, createdRange: Instant, clock: seq<Instant>)
    requires |clock| == 2
    ensures Create(ImuTag, createdImu).Created? && Create(RangeTag, createdRange).Created?
    ensures var sensors := [Create(ImuTag, createdImu).sensor, Create(RangeTag, createdRange).sensor];
            var out := Acquire(sensors, MainPipeline(), clock).reports;
            && out[0] == Report(SensorData(ImuId, 1.0, clock[0], true), SensorData(ImuId, 0.1, clock[0], true))
            && out[1] == Report(SensorData(RangeId, 1.0, clock[1], true), SensorData(RangeId, 0.19, clock[1], true))
  {
    var imu, range := Create(ImuTag, createdImu).sensor, Create(RangeTag, createdRange).sensor;
    var sensors := [imu, range];
    MainPipelineShape();
    var f := LowPass(LowPassFilter(0.1, 0.0));
    var v := Threshold(ThresholdValidator(-100.0, 100.0));
    var raw0 := imu.Update(clock[0]).out;
    assert raw0 == SensorData(ImuId, 1.0, clock[0], true);
    RunTwo(f, v, raw0);
    var f1 := f.Process(raw0).next;
    assert f1 == LowPass(LowPassFilter(0.1, 0.1));
    var raw1 := range.Update(clock[1]).out;
    assert raw1 == SensorData(RangeId, 1.0, clock[1], true);
    RunTwo(f1, v, raw1);
    var p1 := Run(MainPipeline(), raw0).next;
    assert p1.processors == [f1, v];
    AcquireSingle(imu, MainPipeline(), clock[0]);
    AcquireSingle(range, p1, clock[1]);
    assert sensors == [imu] + [range];
    assert clock == [clock[0]] + [clock[1]];
    AcquireAppend([imu], [range], MainPipeline(), [clock[0]], [clock[1]]);
  }
}
