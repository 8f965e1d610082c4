# le-kiwi control core in Dafny

This project models the control arithmetic and the small per-task state machines of the le-kiwi mobile robot. Each service is a module, and each module owns its task's state.

- **Command arbiter** (`BehaviorRouter`, plus `BehaviorRouterAlt` for the second copy of the file). Each tick it picks a target:
  - the raw command, clamped per axis;
  - the zero command tagged `"timeout"` when the command is stale;
  - the zero command tagged `"estop"` under an emergency stop.

  It then slew-limits the target from the previous output, publishes it, and once a second publishes a health summary.
- **Motor bus** (`MotorBus`). It turns the last arbitrated command into one wheel angular-velocity target per wheel mount. It also publishes a synthetic battery reading.
- **State estimator** (`StateEstimator`). It integrates the last command into a planar pose (dead reckoning) and wraps the heading into [-pi, pi].
- **Recording controller** (`McapLogger`). It handles Start and Stop requests for one recording at a time and closes a recording left open at shutdown.
- **Messages** (`Messages`) and **configuration** (`Config`). These hold the records the services exchange and read. `Utils` holds time, pi, trigonometry and decimal formatting.

Each `run` loop is a class. Its mutable locals are the class's fields. Each arm of its `select!` is a method:
- `Tick`, for the timer arm;
- `OnCommand` / `OnEstop` / `OnControl`, for the receive arms;
- `OnShutdown` / `Shutdown`, for the shutdown arm.

Monotonic instants are `nat` nanoseconds passed in as `nowNs`. Wall-clock stamps (`now_nanos()`) are a separate `stampNs` / `wallNs` parameter. `f32`/`f64` values are `real`. `sin` and `cos` are function values in a `Trig` record, so the model is parametric in them. Where a fact needs them, it assumes only sin 0 = 0 and cos 0 = 1 (`Trig.Anchored`).

Two behaviours of the code that a reader might not expect; the model follows the code:
- The heading wrap leaves -pi unchanged, so headings lie in the closed interval [-pi, pi], not the half-open (-pi, pi] a wrap usually aims for.
- The battery percent is a linear interpolation between the low voltage (0) and the nominal voltage (1), clamped to [0, 1]. The voltage fed into it is the nominal voltage itself, so the published percent is always 1.0 (`MotorBus.BuildPowerState`). `MotorBus.BatteryPercent` states the interpolation for every voltage.

## Model

| member | source | states |
|---|---|---|
| Utils.Elapsed | crates/lekiwi/src/services/behavior_router.rs:41 | Instant differences saturate at zero: `earlier + d == later` when time moved forward, 0 otherwise |
| Utils.TickDt | crates/lekiwi/src/services/state_estimator.rs:33-35 | the integration and slew interval is the measured elapsed time when that is at least 1 ms, and 1 ms otherwise (the same floor at behavior_router.rs:37-39) |
| Utils.DecimalString | crates/lekiwi/src/services/mcap_logger.rs:104 | the decimal rendering of a counter is a non-empty string of digits without a leading zero (except "0" itself) |
| Utils.DecimalRoundTrip | crates/lekiwi/src/services/mcap_logger.rs:104 | the decimal rendering of a counter reads back to the counter |
| Utils.DecimalInjective | crates/lekiwi/src/services/mcap_logger.rs:104 | different counters render to different digit strings |
| Messages.Zero | crates/lekiwi/src/messages.rs:15-26 | the zero command has vx = vy = omega = 0 and priority 0, and keeps the given source and timestamp |
| Messages.ZeroCharacterised | crates/lekiwi/src/messages.rs:151-161 | a command is a zero command exactly when it is still and has priority 0 |
| Messages.DecodeVelocity | crates/lekiwi/src/messages.rs:4-13 | first copy: a missing timestamp reads as 0, and every other field is copied |
| Messages.DecodeVelocityStrict | crates/lekiwi/src/messages.rs:141-149 | second copy: a record decodes iff it carries a timestamp, which is kept |
| Messages.DecodeVelocityCopiesAgree | crates/lekiwi/src/messages.rs:4-13 | the two copies decode a record that carries its timestamp to the same command |
| Messages.DecodeEstop | crates/lekiwi/src/messages.rs:39-46 | first copy: a missing timestamp reads as 0, and the other fields are copied |
| Messages.DecodeEstopStrict | crates/lekiwi/src/messages.rs:173-179 | second copy: a record decodes iff it carries a timestamp, which is kept |
| Messages.DecodeEstopCopiesAgree | crates/lekiwi/src/messages.rs:39-46 | the two copies agree whenever the timestamp is present |
| Messages.LogActionName | crates/lekiwi/src/messages.rs:48-53 | the lower-case wire name is "start" exactly for Start |
| Messages.ParseLogAction | crates/lekiwi/src/messages.rs:48-53 | only "start" and "stop" parse to an action |
| Messages.LogActionRoundTrip | crates/lekiwi/src/messages.rs:48-53 | each action's wire name parses back to the action |
| Messages.StatusName | crates/lekiwi/src/messages.rs:111-117 | each status level has its own lower-case wire name: "ok" exactly for Ok, "warn" exactly for Warn, "error" exactly for Error |
| Messages.ParseStatus | crates/lekiwi/src/messages.rs:111-117 | exactly the three wire names parse to a level, "ok" to Ok, "warn" to Warn and "error" to Error |
| Messages.StatusRoundTrip | crates/lekiwi/src/messages.rs:111-117 | each level's name parses back to that level, so there are exactly three distinct levels |
| BehaviorRouter.Clamp | crates/lekiwi/src/services/behavior_router.rs:128-136 | with max >= 0 the result lies in [-max, max]; a value already in range is returned unchanged |
| BehaviorRouter.ClampNearest | crates/lekiwi/src/services/behavior_router.rs:128-136 | the clamped value is the point of [-max, max] nearest to the input |
| BehaviorRouter.LimitDelta | crates/lekiwi/src/services/behavior_router.rs:138-147 | with step d >= 0: the result is within d of current, lies between current and target (no overshoot), equals target when within one step, and otherwise moves exactly d towards it |
| BehaviorRouter.ClampVelocity | crates/lekiwi/src/services/behavior_router.rs:102-110 | every axis is clamped, the stamp is replaced, and the tag becomes "behavior_router"; with non-negative limits the result is within them, and a command already within them keeps its velocities |
| BehaviorRouter.ApplyRateLimits | crates/lekiwi/src/services/behavior_router.rs:112-126 | the target's tag, stamp and priority are kept; vx and vy are slew-limited by max_accel*dt, omega by max_alpha*dt |
| BehaviorRouter.RateLimitKeepsLimits | crates/lekiwi/src/services/behavior_router.rs:52-53 | slew limiting between two in-limit commands stays within the limits |
| BehaviorRouter.TimedOut | crates/lekiwi/src/services/behavior_router.rs:41 | a command is stale iff the whole milliseconds since it was seen strictly exceed the timeout, i.e. iff at least (timeout+1) ms of nanoseconds have passed |
| BehaviorRouter.EstopPrecedence | crates/lekiwi/src/services/behavior_router.rs:48-50 | an active and enabled stop makes the target the zero command tagged "estop", overriding staleness and a fresh command |
| BehaviorRouter.TimeoutOrClamped | crates/lekiwi/src/services/behavior_router.rs:41-46 | without an enabled stop, a stale command gives zero tagged "timeout", and a fresh one its per-axis clamp tagged "behavior_router" |
| BehaviorRouter.Target | crates/lekiwi/src/services/behavior_router.rs:41-50 | the target carries the tick's stamp; it is tagged "estop" iff the stop is active and enabled, "timeout" iff otherwise the command is stale, and "behavior_router" iff neither; the two zero cases are still; with non-negative limits every target lies within them |
| BehaviorRouter.TickOutput | crates/lekiwi/src/services/behavior_router.rs:36-53 | the published command carries the tick's stamp, and its tag says why: "estop" iff an enabled stop is active, "timeout" iff otherwise the last command is stale, "behavior_router" iff neither |
| BehaviorRouter.TickKeepsLimits | crates/lekiwi/src/services/behavior_router.rs:27-29 | if the previous output is within the limits, so is the tick's output |
| BehaviorRouter.EstopOutput | crates/lekiwi/src/services/behavior_router.rs:48-53 | under an enabled stop the tick output is the previous output slew-limited towards zero tagged "estop" |
| BehaviorRouter.EstopRampsDown | crates/lekiwi/src/services/behavior_router.rs:112-126 | slewing towards the stop: the tag is "estop" at once, no velocity grows in magnitude, and each reaches zero once it fits in one step |
| BehaviorRouter.TowardZero | crates/lekiwi/src/services/behavior_router.rs:138-147 | limiting towards zero never increases a magnitude, and gives zero when the magnitude fits in one step |
| BehaviorRouter.Warnings | crates/lekiwi/src/services/behavior_router.rs:60-66 | "command_timeout" occurs iff timed out and "estop_active" iff the stop flag is set; only these two tags occur, one per active condition; "command_timeout" comes first and "estop_active" last |
| BehaviorRouter.Report | crates/lekiwi/src/services/behavior_router.rs:58-80 | the warnings are exactly `Warnings` of the two conditions: "command_timeout" iff timed out, "estop_active" iff the stop flag is set (even when disabled), no other tag, in that order when both occur; status is Ok iff there are no warnings, otherwise Warn, never Error |
| BehaviorRouter.RampScenario | crates/lekiwi/src/services/behavior_router.rs:112-126 | with 20 ms ticks and a 2 m/s^2 cap, from rest towards 1 m/s the output after n ticks is 0.04 n m/s until it reaches 1 m/s at tick 25 |
| BehaviorRouter.Router.constructor | crates/lekiwi/src/services/behavior_router.rs:26-32 | the task starts with a zero command tagged "behavior_router", seen now, as both the last command and the last output, with the stop flag cleared |
| BehaviorRouter.Router.Tick | crates/lekiwi/src/services/behavior_router.rs:36-84 | the output is the tick function of the prior state and becomes the last output; a health summary is produced iff a second has passed since the last one and is the Report of this tick; the output stays within the limits |
| BehaviorRouter.Router.OnCommand | crates/lekiwi/src/services/behavior_router.rs:85-88 | only the last command and the instant it was seen change |
| BehaviorRouter.Router.OnEstop | crates/lekiwi/src/services/behavior_router.rs:89-92 | only the stop flag changes, and it takes the latest command's value |
| BehaviorRouter.Router.OnShutdown | crates/lekiwi/src/services/behavior_router.rs:93-95 | any change of the shutdown signal ends the loop |
| BehaviorRouterAlt.Clamp | crates/lekiwi/src/services/behavior_router.rs:256-258 | the result never exceeds max_abs, is at least -max_abs when max_abs >= 0, and leaves in-range values unchanged |
| BehaviorRouterAlt.Signum | crates/lekiwi/src/services/behavior_router.rs:263 | signum is +1 for positives, -1 for negatives, and +1 at zero |
| BehaviorRouterAlt.RateLimit | crates/lekiwi/src/services/behavior_router.rs:260-267 | with step d >= 0 the result is within d of current, and equals target when within one step |
| BehaviorRouterAlt.ClampVelocity | crates/lekiwi/src/services/behavior_router.rs:247-254 | every axis is clamped and the stamp replaced, but the producer's tag is kept |
| BehaviorRouterAlt.Target | crates/lekiwi/src/services/behavior_router.rs:182-191 | the target carries the tick's stamp; an active stop gives a still command tagged "estop" regardless of estop_enabled; otherwise a stale command gives a still one tagged "timeout"; otherwise the per-axis clamp keeping the producer's tag and priority; with non-negative limits every target lies within them |
| BehaviorRouterAlt.TickOutput | crates/lekiwi/src/services/behavior_router.rs:180-200 | the output carries the tick's stamp, is tagged "estop" under any active stop, "timeout" when otherwise stale, and keeps the producer's tag otherwise; each velocity moves at most max_accel*0.02 (linear) or max_alpha*0.02 (angular) from the previous output |
| BehaviorRouterAlt.Slew | crates/lekiwi/src/services/behavior_router.rs:193-200 | the target's tag, stamp and priority are kept; vx and vy are `rate_limit`ed from the previous output by max_accel*0.02, omega by max_alpha*0.02 |
| BehaviorRouterAlt.EstopAlwaysOverrides | crates/lekiwi/src/services/behavior_router.rs:189-191 | an active stop yields the previous output slewed towards zero tagged "estop", whatever estop_enabled says |
| BehaviorRouterAlt.Report | crates/lekiwi/src/services/behavior_router.rs:206-216 | a stop is Error with only "estop_active"; otherwise staleness is Warn with only "command_timeout"; otherwise Ok with no warnings |
| BehaviorRouterAlt.ClampsAgree | crates/lekiwi/src/services/behavior_router.rs:256-258 | with a non-negative bound both copies' clamps compute the same value |
| BehaviorRouterAlt.ClampsDisagreeOnNegativeBound | crates/lekiwi/src/services/behavior_router.rs:128-136 | with a negative bound they differ: clamping -2 to bound -1 gives 1 in the first copy and -1 in the second |
| BehaviorRouterAlt.RateLimitsAgree | crates/lekiwi/src/services/behavior_router.rs:260-267 | with a non-negative step `rate_limit` and `limit_delta` compute the same value |
| BehaviorRouterAlt.TickOutputsAgree | crates/lekiwi/src/services/behavior_router.rs:180-204 | with stop handling enabled (or no stop), non-negative limits and a measured tick of exactly 20 ms, both copies publish the same velocities and stamp; their tags differ exactly for a fresh command not already tagged "behavior_router" |
| BehaviorRouterAlt.ReportsAgreeOnOk | crates/lekiwi/src/services/behavior_router.rs:206-216 | both copies report Ok in the same situations; under a stop the first copy says Warn |
| BehaviorRouterAlt.KeepsLimits | crates/lekiwi/src/services/behavior_router.rs:193-202 | the second copy's output also stays within the limits when the previous output did |
| BehaviorRouterAlt.Router.constructor | crates/lekiwi/src/services/behavior_router.rs:171-176 | the task starts with the zero command as last command and output, and with the stop flag cleared |
| BehaviorRouterAlt.Router.Tick | crates/lekiwi/src/services/behavior_router.rs:180-228 | the output is this copy's tick function of the prior state and becomes the last output; the health summary is produced iff due and is this copy's Report; the output stays within the limits |
| BehaviorRouterAlt.Router.OnCommand | crates/lekiwi/src/services/behavior_router.rs:229-232 | only the last command and the instant it was seen change |
| BehaviorRouterAlt.Router.OnEstop | crates/lekiwi/src/services/behavior_router.rs:233-236 | only the stop flag changes, to the latest command's value |
| BehaviorRouterAlt.Router.OnShutdown | crates/lekiwi/src/services/behavior_router.rs:237-241 | the loop ends only when the shutdown signal reads true |
| MotorBus.EffectiveRadius | crates/lekiwi/src/services/motor_bus.rs:60 | the radius is floored at 1e-4 m, so it is positive and the division is defined; a radius at or above the floor is used as configured |
| MotorBus.BuildServoState | crates/lekiwi/src/services/motor_bus.rs:52-84 | exactly one record per wheel mount, in mount order, each the mount's `WheelServo` record for the command |
| MotorBus.WheelVelocity | crates/lekiwi/src/services/motor_bus.rs:64-66 | the wheel's angular velocity times the effective radius is the contact point's tangential speed signed by the mount's direction; a mount with direction 0 never turns |
| MotorBus.WheelServo | crates/lekiwi/src/services/motor_bus.rs:68-77 | each record copies the mount's id and name, carries the wheel's `WheelVelocity`, has zero position, load, temperature and error flags, and the nominal battery voltage |
| MotorBus.StillCommandStillWheels | crates/lekiwi/src/services/motor_bus.rs:65-66 | a still command turns no wheel |
| MotorBus.DirectionFlipsVelocity | crates/lekiwi/src/services/motor_bus.rs:66 | negating a mount's direction negates its wheel velocity |
| MotorBus.WheelVelocityAdditive | crates/lekiwi/src/services/motor_bus.rs:64-66 | the wheel velocity is linear in the command: summed commands give summed velocities |
| MotorBus.ForwardWheelAtZero | crates/lekiwi/src/services/motor_bus.rs:64-66 | a wheel mounted at 0 degrees gets zero velocity from a pure forward command |
| MotorBus.BatteryPercent | crates/lekiwi/src/services/motor_bus.rs:88-94 | the percent lies in [0, 1], is 1 when nominal <= low, 1 at or above nominal, 0 at or below low, and strictly between them is the linear interpolation: percent * (nominal - low) == voltage - low |
| MotorBus.BatteryPercentScenario | crates/lekiwi/src/services/motor_bus.rs:88-94 | with 12 V nominal and 10 V low, the percent is 0 at 10 V, 0.5 at 11 V and 1 at 12 V |
| MotorBus.BuildPowerState | crates/lekiwi/src/services/motor_bus.rs:86-102 | the reading reports the nominal voltage and a percent of 1.0, and is low iff nominal <= low |
| MotorBus.MotorBusTask.constructor | crates/lekiwi/src/services/motor_bus.rs:21-24 | the task starts with a zero command tagged "motor_bus" |
| MotorBus.MotorBusTask.Tick | crates/lekiwi/src/services/motor_bus.rs:28-39 | servo targets are recomputed from the last command on every tick; a power reading is produced iff a second has passed since the last one, and only then does that instant move |
| MotorBus.MotorBusTask.OnCommand | crates/lekiwi/src/services/motor_bus.rs:40-42 | only the last command changes |
| MotorBus.MotorBusTask.OnShutdown | crates/lekiwi/src/services/motor_bus.rs:43-45 | the loop ends |
| StateEstimator.WrapDownBounds | crates/lekiwi/src/services/state_estimator.rs:76-78 | the first loop ends at or below pi, and above -pi when it started above pi |
| StateEstimator.WrapUpBounds | crates/lekiwi/src/services/state_estimator.rs:79-81 | the second loop ends at or above -pi, and stays at or below pi when it started there |
| StateEstimator.WrapDownTurns | crates/lekiwi/src/services/state_estimator.rs:77 | the first loop changes the angle by whole turns |
| StateEstimator.WrapUpTurns | crates/lekiwi/src/services/state_estimator.rs:80 | the second loop changes the angle by whole turns |
| StateEstimator.Normalize | crates/lekiwi/src/services/state_estimator.rs:75-83 | every normalized angle lies in the closed interval [-pi, pi], and angles already there, both ends included, are returned unchanged |
| StateEstimator.NormalizeSameDirection | crates/lekiwi/src/services/state_estimator.rs:75-83 | the result differs from the input by an integer multiple of 2 pi |
| StateEstimator.NormalizeIdempotent | crates/lekiwi/src/services/state_estimator.rs:75-83 | normalizing twice is normalizing once |
| StateEstimator.NormalizeAngle | crates/lekiwi/src/services/state_estimator.rs:75-83 | the two loops terminate and compute the normalized angle, which lies in [-pi, pi] |
| StateEstimator.Integrate | crates/lekiwi/src/services/state_estimator.rs:41-48 | the new heading is in [-pi, pi]; with vx = vy = 0 the position does not move; with omega = 0 a heading in range is unchanged |
| StateEstimator.IntegrateHeading | crates/lekiwi/src/services/state_estimator.rs:39-48 | the integrated heading names the same direction as the old heading plus omega*dt |
| StateEstimator.StraightLine | crates/lekiwi/src/services/state_estimator.rs:41-48 | driving straight ahead at 1 m/s from the origin in 20 ms steps, the pose after n steps is (0.02 n, 0, 0) |
| StateEstimator.StraightLineOneSecond | crates/lekiwi/src/services/state_estimator.rs:41-48 | after 50 such steps x is exactly 1 m |
| StateEstimator.OdometryOf | crates/lekiwi/src/services/state_estimator.rs:50-59 | the odometry carries the pose, echoes the command's velocities and names the configured odometry frame |
| StateEstimator.Estimator.constructor | crates/lekiwi/src/services/state_estimator.rs:24-28 | the task starts at the origin with heading 0 and a zero command tagged "state_estimator" |
| StateEstimator.Estimator.Tick | crates/lekiwi/src/services/state_estimator.rs:32-62 | the pose advances by one `Integrate` step over the floored interval, the heading stays in [-pi, pi], and the published odometry is `OdometryOf` the new pose |
| StateEstimator.Estimator.OnCommand | crates/lekiwi/src/services/state_estimator.rs:63-65 | only the last command changes; the pose changes only on ticks |
| StateEstimator.Estimator.OnShutdown | crates/lekiwi/src/services/state_estimator.rs:66-68 | the loop ends |
| McapLogger.ChosenTopics | crates/lekiwi/src/services/mcap_logger.rs:87-89 | the requested list when present and non-empty, else the default topics |
| McapLogger.ResolveTopics | crates/lekiwi/src/services/mcap_logger.rs:86-99 | the result holds every chosen topic, plus both camera topics when cameras are included, and nothing else |
| McapLogger.RequestReplacesDefaults | crates/lekiwi/src/services/mcap_logger.rs:87-91 | without cameras, a non-empty request is recorded exactly, as a set |
| McapLogger.EmptyRequestUsesDefaults | crates/lekiwi/src/services/mcap_logger.rs:87-89 | an empty or missing request behaves as a request for the defaults |
| McapLogger.LogFileName | crates/lekiwi/src/services/mcap_logger.rs:102-105 | a named session's file is its name plus ".mcap"; an unnamed one's is "session-", the decimal wall-clock stamp and ".mcap"; either way the name ends in ".mcap" |
| McapLogger.DefaultNamesDistinct | crates/lekiwi/src/services/mcap_logger.rs:102-105 | unnamed sessions started at different wall-clock stamps get different file names |
| McapLogger.BuildLogPath | crates/lekiwi/src/services/mcap_logger.rs:101-109 | a path is produced iff the directory could be created, and it is the directory joined with the file name |
| McapLogger.Logger.constructor | crates/lekiwi/src/services/mcap_logger.rs:24-27 | the task starts with no active recording and no writer opened |
| McapLogger.Logger.HandleStart | crates/lekiwi/src/services/mcap_logger.rs:33-55 | while active, nothing changes and nothing is published; otherwise a failed directory or writer creation ends the task, and success opens one writer on the joined path with the resolved topics, records path and start instant, and publishes an active status with that path and no size or duration |
| McapLogger.Logger.HandleStop | crates/lekiwi/src/services/mcap_logger.rs:56-70 | the open writer, if any, is closed; an inactive status is published with the prior path and duration (or none); afterwards all three optional fields are empty |
| McapLogger.Logger.OnControl | crates/lekiwi/src/services/mcap_logger.rs:31-72 | dispatch on the action: Start while active publishes nothing and changes nothing; Start otherwise either ends the task on a failed directory or writer creation, or opens a writer on the directory joined with the session's file name and the resolved topics, records path and start instant and publishes an active status with that path; Stop closes the open writer, if any, clears the recording and publishes an inactive status with the prior path and duration |
| McapLogger.Logger.Shutdown | crates/lekiwi/src/services/mcap_logger.rs:73-81 | the loop ends and a writer left open is closed, so every writer ever opened has been closed exactly once |

## Left out

- The message bus (`bus.rs`), with its broadcast channels, bounded capacity and lag semantics, is not part of this model. Sending on the bus is modelled as a method returning the published record.
- `tokio::select!` scheduling, interval timers and `watch` receivers are not modelled. Each arm is a method the environment may call in any order. `Instant::now()` and `now_nanos()` are parameters.
- Each event has one wall-clock stamp (`stampNs`/`wallNs`), although the source reads `now_nanos()` separately for the target and for the diagnostics. `last_diag.elapsed()` is read at the tick's instant, not a few nanoseconds later.
- Telemetry logging (`telemetry.rs`), the websocket server (`foxglove_server.rs`), configuration file loading (`config.rs`, whose structs are kept as records), `main.rs`, the camera stub and the kinematics placeholder are not part of this model.
- `f32`/`f64` rounding, NaN and infinities are not modelled: arithmetic is exact on `real`. `sin`/`cos` are uninterpreted, and pi is the double-precision literal taken as exact.
- Integer widths are not modelled: `u64` timestamps, `u8` servo ids, `i8` directions, `u32` error flags and the `as u64` of `as_millis` are unbounded integers.
- `priority` is carried through every operation but never read by the source, so nothing depends on it.
- The recording writer, its zstd/chunk options, `fs::create_dir_all` and `handle.close()` are not modelled. Directory and writer creation are boolean outcome parameters, where failure ends the task. Closing is recorded in a ghost log.
- `Path::join` corner cases are not modelled (an absolute or `..` session name). The path is the directory, "/" and the file name.
- `SkillCommand`, `CameraFrame` and the untyped JSON `params` are left out: no core operation reads them. Serde decoding is modelled only for the timestamp defaulting of `VelocityCommand` and `EstopCommand`, which differs between the two copies of `messages.rs`. The log-control request's timestamp differs the same way (a default in the first copy, required in the second), and its decoding is not modelled: `LogControl` is taken as already decoded.
- BehaviorRouter.EstopRampsDown: it states the ramp for the slew steps passed in as `dv = max_accel*dt` and `dw = max_alpha*dt`, with both non-negative. It says nothing for negative limits.
- BehaviorRouterAlt.RateLimit: it does not state that the result lies between current and target. The equality with `BehaviorRouter.LimitDelta` (`RateLimitsAgree`) carries that over for non-negative steps.
