/** The processing pipeline: an ordered list of stateful processors that a
    reading passes through, each processor's output being the next one's
    input.

    Processors are values that carry their own state. Processing a reading
    returns the processor's next state together with the transformed
    reading, and running the pipeline returns the pipeline with every
    processor in its next state.
 */
module Processing {
  import opened Sensors

  /** Exponential moving average: `lastValue` is the smoothed value, kept
      from one call to the next. The blend factor `alpha` is not checked;
      it smooths as a low-pass filter only when it lies in [0, 1]. */
  datatype LowPassFilter = LowPassFilter(alpha: real, lastValue: real)
  {
    /** Blends the input value into the state and outputs the new state in
        place of the input value. */
    function Process(d: SensorData): (r: Step<LowPassFilter>)
      ensures r.next.alpha == alpha
      ensures r.out == d.(value := r.next.lastValue)
      ensures r.next.lastValue - lastValue == alpha * (d.value - lastValue)
    {
      var next := alpha * d.value + (1.0 - alpha) * lastValue;
      Step(LowPassFilter(alpha, next), d.(value := next))
    }
  }

  /** A filter with blend factor `alpha` that has seen nothing yet. */
  function NewLowPassFilter(alpha: real): (f: LowPassFilter)
    ensures f.alpha == alpha && f.lastValue == 0.0
  {
    LowPassFilter(alpha, 0.0)
  }

  /** Stateless inclusive range check. The bounds are not checked either:
      with `min > max` every reading is marked invalid. */
  datatype ThresholdValidator = ThresholdValidator(min: real, max: real)
  {
    /** Overwrites `valid` with the range check; a reading marked invalid
        upstream becomes valid again when its value is in range. */
    function Process(d: SensorData): (r: Step<ThresholdValidator>)
      ensures r.next == this
      ensures r.out.valid <==> min <= d.value <= max
      ensures r.out.value == d.value && r.out.sensorId == d.sensorId && r.out.timestamp == d.timestamp
    {
      Step(this, d.(valid := d.value >= min && d.value <= max))
    }
  }

  /** A validator for the inclusive range [min, max]. */
  function NewThresholdValidator(min: real, max: real): (v: ThresholdValidator)
    ensures v.min == min && v.max == max
  {
    ThresholdValidator(min, max)
  }

  /** The two processor kinds a pipeline can hold. */
  datatype Processor = LowPass(filter: LowPassFilter) | Threshold(validator: ThresholdValidator)
  {
    /** Dispatches to the processor's own `Process`. */
    function Process(d: SensorData): (r: Step<Processor>)
      ensures SameConfig(this, r.next)
      ensures r.out.sensorId == d.sensorId && r.out.timestamp == d.timestamp
      ensures LowPass? ==> r.out.valid == d.valid
      ensures Threshold? ==> r.next == this && r.out.value == d.value
    {
      match this
      case LowPass(f) =>
        var step := f.Process(d);
        Step(LowPass(step.next), step.out)
      case Threshold(v) =>
        var step := v.Process(d);
        Step(Threshold(step.next), step.out)
    }
  }

  /** `a` and `b` are the same kind of processor with the same
      configuration; only a filter's state may differ. */
  predicate SameConfig(a: Processor, b: Processor)
  {
    match a
    case LowPass(f) => b.LowPass? && b.filter.alpha == f.alpha
    case Threshold(v) => b == a
  }

  /** `qs` is `ps` processor for processor, up to filter states. */
  predicate SameConfigs(ps: seq<Processor>, qs: seq<Processor>)
  {
    |ps| == |qs| && forall i :: 0 <= i < |ps| ==> SameConfig(ps[i], qs[i])
  }

  predicate OnlyFilters(ps: seq<Processor>)
  {
    forall i :: 0 <= i < |ps| ==> ps[i].LowPass?
  }

  predicate OnlyValidators(ps: seq<Processor>)
  {
    forall i :: 0 <= i < |ps| ==> ps[i].Threshold?
  }

  /** Folds `d` through `ps` from first to last. Returns every processor's
      next state, in the same order, and the last processor's output. */
  function RunProcessors(ps: seq<Processor>, d: SensorData): (r: Step<seq<Processor>>)
    ensures |r.next| == |ps|
    ensures r.out.sensorId == d.sensorId && r.out.timestamp == d.timestamp
    ensures OnlyFilters(ps) ==> r.out.valid == d.valid
    ensures OnlyValidators(ps) ==> r.out.value == d.value
    decreases |ps|
  {
    if |ps| == 0 then Step([], d)
    else
      var first := ps[0].Process(d);
      var rest := RunProcessors(ps[1..], first.out);
      Step([first.next] + rest.next, rest.out)
  }

  /** A run never adds, removes or reorders processors, and changes no
      processor's kind or configuration. */
  lemma {:induction false} RunKeepsConfigs(ps: seq<Processor>, d: SensorData)
    ensures SameConfigs(ps, RunProcessors(ps, d).next)
    decreases |ps|
  {
    if |ps| > 0 {
      var first := ps[0].Process(d);
      var rest := RunProcessors(ps[1..], first.out);
      RunKeepsConfigs(ps[1..], first.out);
      var qs := RunProcessors(ps, d).next;
      assert qs == [first.next] + rest.next;
      forall i | 0 <= i < |ps|
        ensures SameConfig(ps[i], qs[i])
      {
        if i > 0 {
          assert qs[i] == rest.next[i - 1];
          assert ps[i] == ps[1..][i - 1];
        }
      }
    }
  }

  datatype ProcessorPipeline = ProcessorPipeline(processors: seq<Processor>)

  /** A pipeline with no processors; running it is the identity. */
  function NewPipeline(): (p: ProcessorPipeline)
    ensures |p.processors| == 0
    ensures forall d :: Run(p, d) == Step(p, d)
  {
    ProcessorPipeline([])
  }

  /** Appends `q` after every processor already registered. */
  function AddProcessor(p: ProcessorPipeline, q: Processor): (r: ProcessorPipeline)
    ensures |r.processors| == |p.processors| + 1
    ensures r.processors[..|p.processors|] == p.processors
    ensures r.processors[|p.processors|] == q
  {
    ProcessorPipeline(p.processors + [q])
  }

  /** Runs `d` through every processor in registration order. The
      pipeline keeps its length and order; only filter states change. */
  function Run(p: ProcessorPipeline, d: SensorData): (r: Step<ProcessorPipeline>)
    ensures SameConfigs(p.processors, r.next.processors)
    ensures r.out.sensorId == d.sensorId && r.out.timestamp == d.timestamp
  {
    var r := RunProcessors(p.processors, d);
    RunKeepsConfigs(p.processors, d);
    Step(ProcessorPipeline(r.next), r.out)
  }

  /** The same run, as a loop over the processors that carries the current
      reading from one processor to the next. */
  method RunLoop(p: ProcessorPipeline, d: SensorData) returns (p': ProcessorPipeline, out: SensorData)
    ensures Step(p', out) == Run(p, d)
  {
    var ps := p.processors;
    var done: seq<Processor> := [];
    var current := d;
    var i := 0;
    while i < |ps|
      invariant 0 <= i <= |ps|
      invariant Step(done, current) == RunProcessors(ps[..i], d)
    {
      var step := ps[i].Process(current);
      RunAppend(ps[..i], [ps[i]], d);
      RunSingle(ps[i], current);
      assert ps[..i + 1] == ps[..i] + [ps[i]];
      done := done + [step.next];
      current := step.out;
      i := i + 1;
    }
    assert ps[..i] == ps;
    p' := ProcessorPipeline(done);
    out := current;
  }

  /** Running `a + b` is running `a` and then running `b` on its output:
      the composition law of the fold. */
  lemma {:induction false} RunAppend(a: seq<Processor>, b: seq<Processor>, d: SensorData)
    ensures RunProcessors(a + b, d)
         == Step(RunProcessors(a, d).next + RunProcessors(b, RunProcessors(a, d).out).next,
                 RunProcessors(b, RunProcessors(a, d).out).out)
  {
    if |a| == 0 {
      assert a + b == b;
      assert RunProcessors(a, d) == Step([], d);
      assert [] + RunProcessors(b, d).next == RunProcessors(b, d).next;
    } else {
      var x, tail := a[0], a[1..];
      var first := x.Process(d);
      var restA := RunProcessors(tail, first.out);
      var restB := RunProcessors(b, restA.out);
      assert RunProcessors(a + b, d) == Step([first.next] + (restA.next + restB.next), restB.out) by {
        assert a + b == [x] + (tail + b);
        RunCons(x, tail + b, d);
        RunAppend(tail, b, first.out);
      }
      assert RunProcessors(a, d) == Step([first.next] + restA.next, restA.out) by {
        assert a == [x] + tail;
        RunCons(x, tail, d);
      }
      assert [first.next] + (restA.next + restB.next) == ([first.next] + restA.next) + restB.next;
    }
  }

  /** One unfolding of the fold. */
  lemma RunCons(x: Processor, ps: seq<Processor>, d: SensorData)
    ensures RunProcessors([x] + ps, d)
         == Step([x.Process(d).next] + RunProcessors(ps, x.Process(d).out).next,
                 RunProcessors(ps, x.Process(d).out).out)
  {
    assert ([x] + ps)[1..] == ps;
  }

  /** A single processor runs on its own. */
  lemma RunSingle(q: Processor, d: SensorData)
    ensures RunProcessors([q], d) == Step([q.Process(d).next], q.Process(d).out)
  {
    assert [q][1..] == [];
    var first := q.Process(d);
    assert RunProcessors([], first.out) == Step([], first.out);
    assert RunProcessors([q], d) == Step([first.next] + [], first.out);
    assert [first.next] + [] == [first.next];
  }

  /** A pipeline of two processors feeds the first one's output to the
      second. */
  lemma RunTwo(s1: Processor, s2: Processor, d: SensorData)
    ensures Run(ProcessorPipeline([s1, s2]), d)
         == Step(ProcessorPipeline([s1.Process(d).next, s2.Process(s1.Process(d).out).next]),
                 s2.Process(s1.Process(d).out).out)
  {
    var first := s1.Process(d);
    assert [s1, s2] == [s1] + [s2];
    RunCons(s1, [s2], d);
    RunSingle(s2, first.out);
    var second := s2.Process(first.out);
    assert RunProcessors([s1, s2], d) == Step([first.next] + [second.next], second.out);
    assert [first.next] + [second.next] == [first.next, second.next];
  }

  /** Running after `AddProcessor` runs the old pipeline and then the new
      processor on its output. */
  lemma RunAfterAdd(p: ProcessorPipeline, q: Processor, d: SensorData)
    ensures Run(AddProcessor(p, q), d)
         == Step(AddProcessor(Run(p, d).next, q.Process(Run(p, d).out).next),
                 q.Process(Run(p, d).out).out)
  {
    RunAppend(p.processors, [q], d);
    var mid := RunProcessors(p.processors, d).out;
    RunSingle(q, mid);
  }

  /** When the last processor is a validator, the run's `valid` flag is its
      range check of the final value, whatever earlier processors decided. */
  lemma LastValidatorDecides(ps: seq<Processor>, v: ThresholdValidator, d: SensorData)
    ensures var out := Run(ProcessorPipeline(ps + [Threshold(v)]), d).out;
            out.valid <==> v.min <= out.value <= v.max
  {
    RunAppend(ps, [Threshold(v)], d);
    var mid := RunProcessors(ps, d).out;
    RunSingle(Threshold(v), mid);
  }

  /** The validator's verdict depends only on the value: an earlier
      verdict is overwritten, not conjoined, and validating twice is
      validating once. */
  lemma ThresholdOverwrites(v: ThresholdValidator, d: SensorData, b: bool)
    ensures v.Process(d.(valid := b)) == v.Process(d)
    ensures v.Process(v.Process(d).out) == v.Process(d)
  {
  }

  /** `x` lies between `a` and `b`, in either order. */
  predicate Between(a: real, x: real, b: real)
  {
    (a <= x <= b) || (b <= x <= a)
  }

  /** With `alpha` in [0, 1] one filter step lands between the previous
      state and the input value: it never overshoots either. */
  lemma {:induction false} LowPassStepBetween(f: LowPassFilter, d: SensorData)
    requires 0.0 <= f.alpha <= 1.0
    ensures Between(f.lastValue, f.Process(d).next.lastValue, d.value)
  {
    var delta := d.value - f.lastValue;
    var step := f.Process(d).next.lastValue - f.lastValue;
    assert step == f.alpha * delta;
    if delta >= 0.0 {
      assert 0.0 <= f.alpha * delta;
      assert (1.0 - f.alpha) * delta >= 0.0;
    } else {
      assert f.alpha * delta <= 0.0;
      assert (1.0 - f.alpha) * delta <= 0.0;
    }
  }

  /** `alpha = 1` passes the value straight through; `alpha = 0` keeps the
      state and outputs it unchanged. */
  lemma LowPassExtremes(f: LowPassFilter, d: SensorData)
    ensures f.alpha == 1.0 ==> f.Process(d).out.value == d.value && f.Process(d).next.lastValue == d.value
    ensures f.alpha == 0.0 ==> f.Process(d).next == f && f.Process(d).out.value == f.lastValue
  {
  }

  /** A filter after a series of calls, with the output of each call. */
  datatype Trace = Trace(filter: LowPassFilter, outs: seq<SensorData>)

  /** Feeds the readings `ds` through `f` one after another. */
  function Feed(f: LowPassFilter, ds: seq<SensorData>): (r: Trace)
    ensures r.filter.alpha == f.alpha
    ensures |r.outs| == |ds|
    ensures forall i :: 0 <= i < |ds| ==> r.outs[i] == ds[i].(value := r.outs[i].value)
    decreases |ds|
  {
    if |ds| == 0 then Trace(f, [])
    else
      var first := f.Process(ds[0]);
      var rest := Feed(first.next, ds[1..]);
      Trace(rest.filter, [first.out] + rest.outs)
  }

  /** A filter with `alpha = 0` never moves: every output is its current
      state, so a new one outputs 0 forever. */
  lemma {:induction false} FrozenFilter(f: LowPassFilter, ds: seq<SensorData>)
    requires f.alpha == 0.0
    ensures Feed(f, ds).filter == f
    ensures forall i :: 0 <= i < |ds| ==> Feed(f, ds).outs[i].value == f.lastValue
    decreases |ds|
  {
    if |ds| > 0 {
      FrozenFilter(f, ds[1..]);
    }
  }

  /** Fed a constant value `v` with `alpha` in [0, 1], the filter's outputs
      approach `v` monotonically from its initial state: each output lies
      between the previous one and `v`, and the final state between the
      initial state and `v`. */
  lemma {:induction false} FeedConstantApproaches(f: LowPassFilter, ds: seq<SensorData>, v: real)
    requires 0.0 <= f.alpha <= 1.0
    requires forall i :: 0 <= i < |ds| ==> ds[i].value == v
    ensures forall i :: 0 <= i < |ds| ==> Between(f.lastValue, Feed(f, ds).outs[i].value, v)
    ensures forall i :: 0 < i < |ds| ==> Between(Feed(f, ds).outs[i - 1].value, Feed(f, ds).outs[i].value, v)
    ensures Between(f.lastValue, Feed(f, ds).filter.lastValue, v)
    decreases |ds|
  {
    if |ds| > 0 {
      LowPassStepBetween(f, ds[0]);
      var f' := f.Process(ds[0]).next;
      FeedConstantApproaches(f', ds[1..], v);
      var outs := Feed(f, ds).outs;
      assert outs[0].value == f'.lastValue;
      assert forall i :: 0 < i < |ds| ==> outs[i] == Feed(f', ds[1..]).outs[i - 1];
    }
  }
}
