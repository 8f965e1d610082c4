/** The command arbiter (first copy in behavior_router.rs): each tick it picks
    a target (the clamped last raw command, or zero on timeout, or zero on an
    enabled emergency stop), slew-limits it from the previous output and
    publishes it; once a second it also publishes a health summary. */
module BehaviorRouter {
  import opened Utils
  import opened Messages
  import opened Config

  /** Cadence of the health summary. */
  const DiagPeriodNs: nat := NanosPerSecond

  const RouterSource: string := "behavior_router"
  const TimeoutSource: string := "timeout"
  const EstopSource: string := "estop"
  const TimeoutWarning: string := "command_timeout"
  const EstopWarning: string := "estop_active"

  /** Every velocity component lies within its configured maximum. */
  predicate WithinLimits(c: VelocityCommand, limits: LimitsConfig) {
    Abs(c.vx) <= limits.maxVx && Abs(c.vy) <= limits.maxVy && Abs(c.omega) <= limits.maxOmega
  }

  /** `clamp(value, max)`: limit `value` to [-max, max]. */
  function Clamp(value: real, max: real): (r: real)
    ensures max >= 0.0 ==> -max <= r <= max
    ensures -max <= value <= max ==> r == value
  {
    if value > max then max
    else if value < -max then -max
    else value
  }

  /** The clamped value is the point of [-max, max] nearest to `value`. */
  lemma ClampNearest(value: real, max: real, y: real)
    requires -max <= y <= max
    ensures Abs(Clamp(value, max) - value) <= Abs(y - value)
  {
  }

  /** `limit_delta(current, target, max_delta)`: move from `current` towards
      `target` by at most `max_delta`. */
  function LimitDelta(current: real, target: real, maxDelta: real): (r: real)
    ensures maxDelta >= 0.0 ==> -maxDelta <= r - current <= maxDelta
    ensures maxDelta >= 0.0 && current <= target ==> current <= r <= target
    ensures maxDelta >= 0.0 && target <= current ==> target <= r <= current
    ensures -maxDelta <= target - current <= maxDelta ==> r == target
    ensures maxDelta >= 0.0 && target - current > maxDelta ==> r == current + maxDelta
    ensures maxDelta >= 0.0 && target - current < -maxDelta ==> r == current - maxDelta
  {
    var delta := target - current;
    if delta > maxDelta then current + maxDelta
    else if delta < -maxDelta then current - maxDelta
    else target
  }

  /** `clamp_velocity`: clamp every axis, restamp, and retag the command as
      coming from the arbiter. */
  function ClampVelocity(cmd: VelocityCommand, limits: LimitsConfig, stampNs: nat): (r: VelocityCommand)
    ensures r.timestampNs == stampNs && r.source == RouterSource && r.priority == cmd.priority
    ensures r.vx == Clamp(cmd.vx, limits.maxVx) && r.vy == Clamp(cmd.vy, limits.maxVy)
    ensures r.omega == Clamp(cmd.omega, limits.maxOmega)
    ensures limits.NonNegative() ==> WithinLimits(r, limits)
    ensures WithinLimits(cmd, limits) ==> r.vx == cmd.vx && r.vy == cmd.vy && r.omega == cmd.omega
  {
    cmd.(timestampNs := stampNs,
         vx := Clamp(cmd.vx, limits.maxVx),
         vy := Clamp(cmd.vy, limits.maxVy),
         omega := Clamp(cmd.omega, limits.maxOmega),
         source := RouterSource)
  }

  /** `apply_rate_limits`: the target's tag and stamp, with each velocity
      moved from `last` by at most `max_accel * dt` (linear axes) or
      `max_alpha * dt` (rotation). */
  function ApplyRateLimits(last: VelocityCommand, target: VelocityCommand, limits: LimitsConfig, dt: real)
    : (r: VelocityCommand)
    ensures r.source == target.source && r.timestampNs == target.timestampNs
    ensures r.priority == target.priority
    ensures r.vx == LimitDelta(last.vx, target.vx, limits.maxAccel * dt)
    ensures r.vy == LimitDelta(last.vy, target.vy, limits.maxAccel * dt)
    ensures r.omega == LimitDelta(last.omega, target.omega, limits.maxAlpha * dt)
  {
    target.(vx := LimitDelta(last.vx, target.vx, limits.maxAccel * dt),
            vy := LimitDelta(last.vy, target.vy, limits.maxAccel * dt),
            omega := LimitDelta(last.omega, target.omega, limits.maxAlpha * dt))
  }

  /** Slew limiting never leaves the box both ends lie in. */
  lemma RateLimitKeepsLimits(last: VelocityCommand, target: VelocityCommand, limits: LimitsConfig, dt: real)
    requires limits.NonNegative() && dt >= 0.0
    requires WithinLimits(last, limits) && WithinLimits(target, limits)
    ensures WithinLimits(ApplyRateLimits(last, target, limits, dt), limits)
  {
    assert limits.maxAccel * dt >= 0.0 && limits.maxAlpha * dt >= 0.0;
  }

  /** A command is stale when the whole milliseconds since it was seen
      exceed the timeout; without the truncating division, when at least
      `timeout + 1` milliseconds' worth of nanoseconds have passed. */
  function TimedOut(lastSeenNs: nat, nowNs: nat, timeoutMs: nat): (r: bool)
    ensures r <==> lastSeenNs + (timeoutMs + 1) * NanosPerMilli <= nowNs
  {
    var e := Elapsed(nowNs, lastSeenNs);
    var q := e / NanosPerMilli;
    assert q * NanosPerMilli <= e < (q + 1) * NanosPerMilli;
    assert q > timeoutMs ==> (timeoutMs + 1) * NanosPerMilli <= q * NanosPerMilli;
    assert q <= timeoutMs ==> (q + 1) * NanosPerMilli <= (timeoutMs + 1) * NanosPerMilli;
    q > timeoutMs
  }

  /** The target of one tick, before slew limiting. */
  function Target(lastCmd: VelocityCommand, timedOut: bool, estopActive: bool,
                  limits: LimitsConfig, safety: SafetyConfig, stampNs: nat): (r: VelocityCommand)
    ensures r.timestampNs == stampNs
    ensures r.source == EstopSource <==> estopActive && safety.estopEnabled
    ensures r.source == TimeoutSource <==> !(estopActive && safety.estopEnabled) && timedOut
    ensures r.source == RouterSource <==> !(estopActive && safety.estopEnabled) && !timedOut
    ensures r.source != RouterSource ==> r.IsStill()
    ensures limits.NonNegative() ==> WithinLimits(r, limits)
  {
    if estopActive && safety.estopEnabled then Zero(EstopSource, stampNs)
    else if timedOut then Zero(TimeoutSource, stampNs)
    else ClampVelocity(lastCmd, limits, stampNs)
  }

  /** An enabled emergency stop wins over staleness and over a fresh command. */
  lemma EstopPrecedence(lastCmd: VelocityCommand, timedOut: bool, estopActive: bool,
                        limits: LimitsConfig, safety: SafetyConfig, stampNs: nat)
    requires estopActive && safety.estopEnabled
    ensures Target(lastCmd, timedOut, estopActive, limits, safety, stampNs) == Zero(EstopSource, stampNs)
  {
  }

  /** Without an enabled stop, a stale command becomes the zero command
      tagged "timeout", and a fresh one its clamped copy. */
  lemma TimeoutOrClamped(lastCmd: VelocityCommand, timedOut: bool, estopActive: bool,
                         limits: LimitsConfig, safety: SafetyConfig, stampNs: nat)
    requires !(estopActive && safety.estopEnabled)
    ensures var t := Target(lastCmd, timedOut, estopActive, limits, safety, stampNs);
            if timedOut then t == Zero(TimeoutSource, stampNs)
            else t.source == RouterSource && t.vx == Clamp(lastCmd.vx, limits.maxVx)
                 && t.vy == Clamp(lastCmd.vy, limits.maxVy) && t.omega == Clamp(lastCmd.omega, limits.maxOmega)
  {
  }

  /** What one tick publishes, from the state it starts in. */
  function TickOutput(lastCmd: VelocityCommand, lastSeenNs: nat, lastOutput: VelocityCommand,
                      lastUpdateNs: nat, estopActive: bool,
                      limits: LimitsConfig, safety: SafetyConfig, nowNs: nat, stampNs: nat): (r: VelocityCommand)
    ensures r.timestampNs == stampNs
    ensures r.source == EstopSource <==> estopActive && safety.estopEnabled
    ensures r.source == TimeoutSource <==>
              !(estopActive && safety.estopEnabled) && TimedOut(lastSeenNs, nowNs, safety.commandTimeoutMs)
    ensures r.source == RouterSource <==>
              !(estopActive && safety.estopEnabled) && !TimedOut(lastSeenNs, nowNs, safety.commandTimeoutMs)
  {
    var timedOut := TimedOut(lastSeenNs, nowNs, safety.commandTimeoutMs);
    ApplyRateLimits(lastOutput, Target(lastCmd, timedOut, estopActive, limits, safety, stampNs),
                    limits, TickDt(lastUpdateNs, nowNs))
  }

  /** The published output stays within the limits whenever the previous
      output did. */
  lemma TickKeepsLimits(lastCmd: VelocityCommand, lastSeenNs: nat, lastOutput: VelocityCommand,
                        lastUpdateNs: nat, estopActive: bool,
                        limits: LimitsConfig, safety: SafetyConfig, nowNs: nat, stampNs: nat)
    requires limits.NonNegative() && WithinLimits(lastOutput, limits)
    ensures WithinLimits(TickOutput(lastCmd, lastSeenNs, lastOutput, lastUpdateNs, estopActive,
                                    limits, safety, nowNs, stampNs), limits)
  {
    var timedOut := TimedOut(lastSeenNs, nowNs, safety.commandTimeoutMs);
    RateLimitKeepsLimits(lastOutput, Target(lastCmd, timedOut, estopActive, limits, safety, stampNs),
                         limits, TickDt(lastUpdateNs, nowNs));
  }

  /** Under an enabled stop the tick output is the previous output
      slew-limited towards the zero command tagged "estop". */
  lemma EstopOutput(lastCmd: VelocityCommand, lastSeenNs: nat, lastOutput: VelocityCommand,
                    lastUpdateNs: nat, limits: LimitsConfig, safety: SafetyConfig, nowNs: nat, stampNs: nat)
    requires safety.estopEnabled
    ensures TickOutput(lastCmd, lastSeenNs, lastOutput, lastUpdateNs, true, limits, safety, nowNs, stampNs)
            == ApplyRateLimits(lastOutput, Zero(EstopSource, stampNs), limits, TickDt(lastUpdateNs, nowNs))
  {
  }

  /** Slewing towards a stop, with steps `dv` (linear) and `dw` (angular):
      the output is tagged "estop" at once, while each velocity only ramps
      towards zero. It never grows in magnitude and reaches zero once the
      remaining speed fits in one step. */
  lemma EstopRampsDown(lastOutput: VelocityCommand, limits: LimitsConfig, dt: real, stampNs: nat, dv: real, dw: real)
    requires dv == limits.maxAccel * dt && dw == limits.maxAlpha * dt
    requires dv >= 0.0 && dw >= 0.0
    ensures var o := ApplyRateLimits(lastOutput, Zero(EstopSource, stampNs), limits, dt);
            && o.source == EstopSource && o.timestampNs == stampNs && o.priority == 0
            && Abs(o.vx) <= Abs(lastOutput.vx) && Abs(o.vy) <= Abs(lastOutput.vy)
            && Abs(o.omega) <= Abs(lastOutput.omega)
            && (Abs(lastOutput.vx) <= dv ==> o.vx == 0.0)
            && (Abs(lastOutput.vy) <= dv ==> o.vy == 0.0)
            && (Abs(lastOutput.omega) <= dw ==> o.omega == 0.0)
  {
    var o := ApplyRateLimits(lastOutput, Zero(EstopSource, stampNs), limits, dt);
    assert o.vx == LimitDelta(lastOutput.vx, 0.0, dv);
    assert o.vy == LimitDelta(lastOutput.vy, 0.0, dv);
    assert o.omega == LimitDelta(lastOutput.omega, 0.0, dw);
    TowardZero(lastOutput.vx, dv);
    TowardZero(lastOutput.vy, dv);
    TowardZero(lastOutput.omega, dw);
  }

  /** Slew limiting towards zero never increases a magnitude. */
  lemma TowardZero(current: real, maxDelta: real)
    requires maxDelta >= 0.0
    ensures Abs(LimitDelta(current, 0.0, maxDelta)) <= Abs(current)
    ensures Abs(current) <= maxDelta ==> LimitDelta(current, 0.0, maxDelta) == 0.0
  {
  }

  /** The warning tags of a health summary, in the order they are pushed. */
  function Warnings(timedOut: bool, estopActive: bool): (w: seq<string>)
    ensures forall t :: t in w ==> t == TimeoutWarning || t == EstopWarning
    ensures TimeoutWarning in w <==> timedOut
    ensures EstopWarning in w <==> estopActive
    ensures |w| == (if timedOut then 1 else 0) + (if estopActive then 1 else 0)
    ensures timedOut ==> w[0] == TimeoutWarning
    ensures estopActive ==> w[|w| - 1] == EstopWarning
  {
    (if timedOut then [TimeoutWarning] else []) + (if estopActive then [EstopWarning] else [])
  }

  /** The health summary: a tag per active condition (the stop is reported
      even when stop handling is disabled), Ok when there is none and Warn
      otherwise. */
  function Report(timedOut: bool, estopActive: bool, stampNs: nat, uptimeS: real): (d: Diagnostics)
    ensures d.warnings == Warnings(timedOut, estopActive)
    ensures d.status == Ok <==> d.warnings == []
    ensures d.status != Error
    ensures d.lastError.None? && d.timestampNs == stampNs && d.uptimeS == uptimeS
  {
    var warnings := Warnings(timedOut, estopActive);
    Diagnostics(stampNs, if warnings == [] then Ok else Warn, warnings, None, uptimeS)
  }

  /** Whether a health summary is due. */
  predicate DiagDue(lastDiagNs: nat, nowNs: nat) {
    Elapsed(nowNs, lastDiagNs) >= DiagPeriodNs
  }

  /** The output after `n` ticks of length `dt` towards a fixed target. */
  function Ramp(start: VelocityCommand, target: VelocityCommand, limits: LimitsConfig, dt: real, n: nat)
    : VelocityCommand
    decreases n
  {
    if n == 0 then start else ApplyRateLimits(Ramp(start, target, limits, dt, n - 1), target, limits, dt)
  }

  /** Ticks of 20 ms with a 2 m/s^2 acceleration cap, from rest towards
      1 m/s: the output gains 0.04 m/s per tick and reaches 1 m/s after
      exactly 25 ticks, not sooner. */
  lemma {:induction false} RampScenario(start: VelocityCommand, target: VelocityCommand, limits: LimitsConfig, n: nat)
    requires start.vx == 0.0 && target.vx == 1.0 && limits.maxAccel == 2.0
    ensures Ramp(start, target, limits, 0.02, n).vx == if n <= 25 then 0.04 * (n as real) else 1.0
    decreases n
  {
    if n > 0 {
      RampScenario(start, target, limits, n - 1);
    }
  }

  /** The arbiter's task: the rolling state of `run` and one method per
      select arm. Instants are nanoseconds of a monotonic clock. */
  class Router {
    const limits: LimitsConfig
    const safety: SafetyConfig
    const startNs: nat
    var lastCmd: VelocityCommand
    var lastSeenNs: nat
    var lastOutput: VelocityCommand
    var lastUpdateNs: nat
    var lastDiagNs: nat
    var estopActive: bool
    var running: bool

    /** The safety invariant: with sane limits, the last output is in range. */
    ghost predicate Valid()
      reads this
    {
      limits.NonNegative() ==> WithinLimits(lastOutput, limits)
    }

    /** The state before the first event: a zero command seen just now. */
    constructor (limits: LimitsConfig, safety: SafetyConfig, nowNs: nat, stampNs: nat)
      ensures Valid() && running
      ensures this.limits == limits && this.safety == safety && startNs == nowNs
      ensures lastCmd == Zero(RouterSource, stampNs) && lastOutput == lastCmd
      ensures lastSeenNs == nowNs && lastUpdateNs == nowNs && lastDiagNs == nowNs
      ensures !estopActive
    {
      this.limits := limits;
      this.safety := safety;
      startNs := nowNs;
      lastCmd := Zero(RouterSource, stampNs);
      lastSeenNs := nowNs;
      lastOutput := Zero(RouterSource, stampNs);
      lastUpdateNs := nowNs;
      lastDiagNs := nowNs;
      estopActive := false;
      running := true;
    }

    /** The timer arm: publish one arbitrated command and, once a second,
        a health summary. */
    method Tick(nowNs: nat, stampNs: nat) returns (output: VelocityCommand, diag: Option<Diagnostics>)
      requires Valid() && running
      modifies this`lastOutput, this`lastUpdateNs, this`lastDiagNs
      ensures Valid()
      ensures output == TickOutput(old(lastCmd), old(lastSeenNs), old(lastOutput), old(lastUpdateNs),
                                   estopActive, limits, safety, nowNs, stampNs)
      ensures lastOutput == output && lastUpdateNs == nowNs
      ensures diag.Some? <==> DiagDue(old(lastDiagNs), nowNs)
      ensures diag.Some? ==>
                lastDiagNs == nowNs
                && diag.value == Report(TimedOut(lastSeenNs, nowNs, safety.commandTimeoutMs), estopActive,
                                        stampNs, Seconds(Elapsed(nowNs, startNs)))
      ensures diag.None? ==> lastDiagNs == old(lastDiagNs)
    {
      var dt := TickDt(lastUpdateNs, nowNs);
      lastUpdateNs := nowNs;
      var timedOut := Elapsed(nowNs, lastSeenNs) / NanosPerMilli > safety.commandTimeoutMs;
      var target := if timedOut then Zero(TimeoutSource, stampNs) else ClampVelocity(lastCmd, limits, stampNs);
      if estopActive && safety.estopEnabled {
        target := Zero(EstopSource, stampNs);
      }
      output := ApplyRateLimits(lastOutput, target, limits, dt);
      if limits.NonNegative() {
        TickKeepsLimits(lastCmd, lastSeenNs, old(lastOutput), old(lastUpdateNs), estopActive,
                        limits, safety, nowNs, stampNs);
      }
      lastOutput := output;
      diag := None;
      if Elapsed(nowNs, lastDiagNs) >= DiagPeriodNs {
        lastDiagNs := nowNs;
        var warnings := [];
        if timedOut {
          warnings := warnings + [TimeoutWarning];
        }
        if estopActive {
          warnings := warnings + [EstopWarning];
        }
        var status := if warnings == [] then Ok else Warn;
        diag := Some(Diagnostics(stampNs, status, warnings, None, Seconds(Elapsed(nowNs, startNs))));
      }
    }

    /** The raw-command arm: remember the command and when it arrived. */
    method OnCommand(cmd: VelocityCommand, nowNs: nat)
      requires Valid() && running
      modifies this`lastCmd, this`lastSeenNs
      ensures Valid()
      ensures lastCmd == cmd && lastSeenNs == nowNs
    {
      lastCmd := cmd;
      lastSeenNs := nowNs;
    }

    /** The stop arm: the latest stop command decides the flag. */
    method OnEstop(cmd: EstopCommand)
      requires Valid() && running
      modifies this`estopActive
      ensures Valid()
      ensures estopActive == cmd.enabled
    {
      estopActive := cmd.enabled;
    }

    /** The shutdown arm: any change of the signal ends the loop. */
    method OnShutdown()
      modifies this`running
      ensures !running
    {
      running := false;
    }
  }
}
