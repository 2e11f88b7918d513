# Sensor pipeline, modelled in Dafny

This project models a small sensor-acquisition and processing chain. Sensors
produce timestamped scalar readings (`SensorData`). A `ProcessorPipeline`
holds an ordered list of stateful processors. Running the pipeline passes one
reading through every processor in registration order, and each processor's
output is the next processor's input. There are two processors:

- `LowPassFilter` is an exponential moving average. It keeps `lastValue` from one call to the next.
- `ThresholdValidator` is stateless. It overwrites `valid` with an inclusive range check.

There are two sensor stubs, `Imu` and `Range`, and a factory that maps a
string tag to one of them.

Files:

- `sensor.dfy`, module `Sensors`: the `SensorData` record, the two sensors, calibration and the factory.
- `process.dfy`, module `Processing`: the processors, the pipeline and their properties.
- `scenario.dfy`, module `MainScenario`: the configuration the entry point builds, used as a concrete scenario.

Modelling choices:

- Floating-point values are `real`.
- The wall clock is a parameter `now: Instant`. The model only stores and passes it through.
- The trait objects (`Box<dyn Processor>`, `Box<dyn Sensor>`) are closed datatypes: `Processor = LowPass(..) | Threshold(..)` and `Sensor = Imu(..) | Range(..)`.
- Methods that take `&mut self` are pure functions. Each returns the next state of its receiver together with its result. `Run` returns the pipeline with every processor in its next state, and the next call continues from that state.
- The factory's panic on an unknown tag is the result `UnknownSensorType(tag)`.
- `ProcessorPipeline::default` is the same as `new`, so `NewPipeline` models both.
- Neither constructor checks its arguments, as in the code: `alpha` may lie outside [0, 1], and a validator with `min > max` marks every reading invalid.
- Each call on a stateful receiver returns a `Step(next, out)`: the receiver's next state and the reading it returns.

Validity is overwritten, not accumulated. `ThresholdValidator` replaces
`valid` with its own range check, so a reading marked invalid upstream
becomes valid again when its value is in range (`ThresholdOverwrites`,
`LastValidatorDecides`). The sensors and the factory are modelled too.

## Model

| member | source | states |
|---|---|---|
| Sensors.NewImu | src/sensor.rs:37-46 | A new IMU sensor stores value 0, valid, id "IMU_data", stamped with the construction instant |
| Sensors.NewRange | src/sensor.rs:70-79 | A new Range sensor stores value 0, valid, id "Range_data", stamped with the construction instant |
| Sensors.Sensor.ReadRaw | src/sensor.rs:55-61 | A raw read keeps the sensor's kind, stores the stub reading (value 0, valid, the sensor's id, current instant) and returns exactly what it stored |
| Sensors.ReadRawForgetsHistory | src/sensor.rs:88-94 | A raw read ignores what the sensor stored before: two sensors of one kind read at one instant agree, and a second read at that instant changes nothing |
| Sensors.Sensor.ApplyCalibration | src/sensor.rs:62-66 | Calibration raises the value by exactly 1 and leaves id, timestamp and validity alone |
| Sensors.CalibrationOverridesDefault | src/sensor.rs:30-32 | The trait default calibration is the identity; both sensors' own calibration differs from it in the value only, by the offset |
| Sensors.Sensor.Update | src/sensor.rs:51-54 | An update returns value 1, valid, the sensor's id and the current instant, while the sensor keeps the uncalibrated stub reading |
| Sensors.UpdateIsCalibratedRead | src/sensor.rs:25-28 | Update is calibration applied to a raw read, and its result does not depend on what the sensor stored before |
| Sensors.NewIsReadRawState | src/sensor.rs:36-61 | A new sensor already stores what a raw read at its construction instant would store |
| Sensors.Create | src/sensor.rs:105-110 | The factory succeeds exactly for "ImuSensor" and "RangeSensor", giving the matching kind in its initial state; any other tag is an error that carries the tag |
| Sensors.CreateFromTag | src/sensor.rs:106-108 | The factory, applied to the tag of a sensor kind, creates a fresh sensor of that kind |
| Processing.NewLowPassFilter | src/process.rs:47-52 | A new filter keeps its blend factor and starts from state 0 |
| Processing.LowPassFilter.Process | src/process.rs:56-61 | One step keeps alpha, moves the state towards the input by alpha times the gap, and outputs the new state as the value; id, timestamp and validity pass through |
| Processing.LowPassStepBetween | src/process.rs:40-57 | With alpha in [0, 1] the new state lies between the previous state and the input value |
| Processing.LowPassExtremes | src/process.rs:57 | With alpha 1 the output equals the input value; with alpha 0 the filter keeps its state and outputs it |
| Processing.Feed | src/process.rs:56-61 | Feeding a list of readings through a filter gives one output per reading, each differing from its input in the value only |
| Processing.FrozenFilter | src/process.rs:47-61 | A filter with alpha 0 never changes state, so every output is its initial state |
| Processing.FeedConstantApproaches | src/process.rs:57-59 | Fed a constant value with alpha in [0, 1], each output lies between the previous output and that value: the filter approaches it monotonically and never overshoots |
| Processing.NewThresholdValidator | src/process.rs:70-74 | A new validator keeps the lower and upper bound it was given, in that order |
| Processing.ThresholdValidator.Process | src/process.rs:77-81 | The output is valid exactly when min <= value <= max (both bounds inclusive); value, id and timestamp are unchanged and the validator has no state |
| Processing.ThresholdOverwrites | src/process.rs:79 | The verdict ignores the incoming validity flag, so an invalid reading in range becomes valid; validating twice equals validating once |
| Processing.Processor.Process | src/process.rs:4-6 | Dispatch keeps the processor's kind and configuration; a filter never touches validity, a validator never touches the value or itself |
| Processing.RunProcessors | src/process.rs:25-31 | The fold returns one next state per processor; id and timestamp pass through; with only filters validity passes through, with only validators the value does |
| Processing.RunKeepsConfigs | src/process.rs:24-31 | A run never adds, removes or reorders processors, and changes no processor's kind or configuration |
| Processing.NewPipeline | src/process.rs:14-18 | A new pipeline has no processors, and running it returns the input reading and the pipeline unchanged |
| Processing.AddProcessor | src/process.rs:20-22 | The new processor is appended at the end; the earlier ones keep their order and the length grows by one |
| Processing.Run | src/process.rs:25-31 | Running keeps the processors' number, order and configuration, and passes id and timestamp through |
| Processing.RunLoop | src/process.rs:26-30 | The in-order loop that carries the current reading from one processor to the next computes exactly the fold |
| Processing.RunAppend | src/process.rs:24-31 | Running a concatenation of two processor lists is running the first list, then the second on its output |
| Processing.RunTwo | src/process.rs:27-29 | With processors [S1, S2] the output is S2's processing of S1's output |
| Processing.RunAfterAdd | src/process.rs:20-31 | Running after adding a processor runs the old pipeline and then the new processor on its output |
| Processing.LastValidatorDecides | src/process.rs:77-80 | When the last processor is a validator, the final verdict is its range check of the final value, whatever came before |
| MainScenario.MainPipelineShape | src/main.rs:15-17 | The entry point's pipeline is a fresh filter with alpha 0.1 followed by a validator for [-100, 100] |
| MainScenario.FilterStatePersists | src/process.rs:57-59 | On that pipeline, a first run on 50 gives value 5 and valid; a second run on 50 gives 9.5 and valid, because the filter state carries over |
| MainScenario.Acquire | src/main.rs:20-25 | Each sensor ends in the state its update leaves; each report holds that update's reading and, for the first sensor, the pipeline's output on it; the processed reading keeps the sensor's id and instant; with no sensors the pipeline is unchanged |
| MainScenario.AcquireSingle | src/main.rs:20-23 | A pass over one sensor updates it once and runs its reading through the pipeline once, keeping the pipeline's next state |
| MainScenario.AcquireAppend | src/main.rs:20-25 | A pass over two lists of sensors is a pass over the first followed by a pass over the second that starts from the pipeline state the first pass left |
| MainScenario.MainTrace | src/main.rs:9-25 | The entry point's run, with the two sensors created at their own instants: the IMU reading 1 is smoothed to 0.1, then the Range reading 1 to 0.19 by the same filter; both are valid |

## Left out

- The console output of the entry point (`println!`) is I/O. `Acquire` returns the readings it would print.
- `Utc::now()` and chrono's `DateTime<Utc>` read the wall clock. The model takes the instant as a parameter. `Instant` is a count of nanoseconds that the model never computes with.
- IEEE-754 `f64` arithmetic is not modelled. Values are real numbers, so every numeric property holds for exact arithmetic only: the filter's range and extreme-value lemmas (`LowPassStepBetween`, `FeedConstantApproaches`, `FrozenFilter`, `LowPassExtremes`) and the concrete results (5, 9.5, 0.1, 0.19). With rounding, one filter step can overshoot its target by an ulp, and 0.1 * 50 is not exactly 5. Non-finite values (NaN, positive and negative infinity) are not modelled either: in `f64`, an infinite input makes even an `alpha = 0` filter's state NaN, and a NaN state stays NaN and makes the validator reject every later reading.
- Dynamic dispatch and heap allocation of trait objects are not modelled. There are only two processor kinds and two sensor kinds, so closed datatypes replace them.
- Sensors.Create: the panic that ends the process is an error result instead.
