/** The second copy of the command arbiter in behavior_router.rs. It differs
    from the first in four ways: the slew step assumes a fixed 20 ms tick, an
    active stop overrides the target whether or not stop handling is enabled
    in the configuration, the health summary reports a stop as Error, and a
    clamped command keeps the tag of its producer. The lemmas at the end say
    where the two copies agree. */
module BehaviorRouterAlt {
  import opened Utils
  import opened Messages
  import opened Config
  import BehaviorRouter

  /** The fixed tick length assumed by the slew limiter, in seconds. */
  const FixedDt: real := 0.02

  /** `clamp(value, max_abs)` as `value.max(-max_abs).min(max_abs)`. */
  function Clamp(value: real, maxAbs: real): (r: real)
    ensures r <= maxAbs
    ensures maxAbs >= 0.0 ==> -maxAbs <= r
    ensures -maxAbs <= value <= maxAbs ==> r == value
  {
    Min(Max(value, -maxAbs), maxAbs)
  }

  /** `f32::signum` on a non-NaN value: -1 for negatives, +1 otherwise. */
  function Signum(x: real): (s: real)
    ensures s == 1.0 || s == -1.0
    ensures x > 0.0 ==> s == 1.0
    ensures x < 0.0 ==> s == -1.0
    ensures x == 0.0 ==> s == 1.0
  {
    if x < 0.0 then -1.0 else 1.0
  }

  /** `rate_limit(target, current, max_delta)`: step by `max_delta` in the
      direction of `target` when it is further away, else snap to it. */
  function RateLimit(target: real, current: real, maxDelta: real): (r: real)
    ensures maxDelta >= 0.0 ==> -maxDelta <= r - current <= maxDelta
    ensures -maxDelta <= target - current <= maxDelta ==> r == target
  {
    var delta := target - current;
    if Abs(delta) > maxDelta then current + Signum(delta) * maxDelta else target
  }

  /** `clamp_velocity` of this copy: clamp and restamp, keep the tag. */
  function ClampVelocity(cmd: VelocityCommand, limits: LimitsConfig, stampNs: nat): (r: VelocityCommand)
    ensures r.timestampNs == stampNs && r.source == cmd.source && r.priority == cmd.priority
    ensures r.vx == Clamp(cmd.vx, limits.maxVx) && r.vy == Clamp(cmd.vy, limits.maxVy)
    ensures r.omega == Clamp(cmd.omega, limits.maxOmega)
  {
    cmd.(timestampNs := stampNs,
         vx := Clamp(cmd.vx, limits.maxVx),
         vy := Clamp(cmd.vy, limits.maxVy),
         omega := Clamp(cmd.omega, limits.maxOmega))
  }

  /** The target of one tick: an active stop always overrides. */
  function Target(lastCmd: VelocityCommand, timedOut: bool, estopActive: bool,
                  limits: LimitsConfig, stampNs: nat): (r: VelocityCommand)
    ensures r.timestampNs == stampNs
    ensures estopActive ==> r.source == BehaviorRouter.EstopSource && r.IsStill()
    ensures !estopActive && timedOut ==> r.source == BehaviorRouter.TimeoutSource && r.IsStill()
    ensures !estopActive && !timedOut ==>
              r.source == lastCmd.source && r.priority == lastCmd.priority
              && r.vx == Clamp(lastCmd.vx, limits.maxVx) && r.vy == Clamp(lastCmd.vy, limits.maxVy)
              && r.omega == Clamp(lastCmd.omega, limits.maxOmega)
    ensures limits.NonNegative() ==> BehaviorRouter.WithinLimits(r, limits)
  {
    if estopActive then Zero(BehaviorRouter.EstopSource, stampNs)
    else if timedOut then Zero(BehaviorRouter.TimeoutSource, stampNs)
    else ClampVelocity(lastCmd, limits, stampNs)
  }

  /** The target, slew-limited over the fixed tick length. */
  function Slew(target: VelocityCommand, lastOutput: VelocityCommand, limits: LimitsConfig): (r: VelocityCommand)
    ensures r.source == target.source && r.timestampNs == target.timestampNs && r.priority == target.priority
    ensures r.vx == RateLimit(target.vx, lastOutput.vx, limits.maxAccel * FixedDt)
    ensures r.vy == RateLimit(target.vy, lastOutput.vy, limits.maxAccel * FixedDt)
    ensures r.omega == RateLimit(target.omega, lastOutput.omega, limits.maxAlpha * FixedDt)
  {
    target.(vx := RateLimit(target.vx, lastOutput.vx, limits.maxAccel * FixedDt),
            vy := RateLimit(target.vy, lastOutput.vy, limits.maxAccel * FixedDt),
            omega := RateLimit(target.omega, lastOutput.omega, limits.maxAlpha * FixedDt))
  }

  /** What one tick publishes, from the state it starts in. */
  function TickOutput(lastCmd: VelocityCommand, lastSeenNs: nat, lastOutput: VelocityCommand, estopActive: bool,
                      limits: LimitsConfig, safety: SafetyConfig, nowNs: nat, stampNs: nat): (r: VelocityCommand)
    ensures r.timestampNs == stampNs
    ensures estopActive ==> r.source == BehaviorRouter.EstopSource
    ensures !estopActive && BehaviorRouter.TimedOut(lastSeenNs, nowNs, safety.commandTimeoutMs) ==>
              r.source == BehaviorRouter.TimeoutSource
    ensures !estopActive && !BehaviorRouter.TimedOut(lastSeenNs, nowNs, safety.commandTimeoutMs) ==>
              r.source == lastCmd.source
    ensures limits.maxAccel >= 0.0 ==>
              -limits.maxAccel * FixedDt <= r.vx - lastOutput.vx <= limits.maxAccel * FixedDt
              && -limits.maxAccel * FixedDt <= r.vy - lastOutput.vy <= limits.maxAccel * FixedDt
    ensures limits.maxAlpha >= 0.0 ==>
              -limits.maxAlpha * FixedDt <= r.omega - lastOutput.omega <= limits.maxAlpha * FixedDt
  {
    var timedOut := BehaviorRouter.TimedOut(lastSeenNs, nowNs, safety.commandTimeoutMs);
    Slew(Target(lastCmd, timedOut, estopActive, limits, stampNs), lastOutput, limits)
  }

  /** An active stop wins whatever the configuration says: the output is
      tagged "estop" and is the previous output slewed towards zero. */
  lemma EstopAlwaysOverrides(lastCmd: VelocityCommand, lastSeenNs: nat, lastOutput: VelocityCommand,
                             limits: LimitsConfig, safety: SafetyConfig, nowNs: nat, stampNs: nat)
    ensures TickOutput(lastCmd, lastSeenNs, lastOutput, true, limits, safety, nowNs, stampNs)
            == Slew(Zero(BehaviorRouter.EstopSource, stampNs), lastOutput, limits)
  {
  }

  /** The health summary of this copy: a stop is an Error with the single
      tag "estop_active"; otherwise staleness is a Warn with the single tag
      "command_timeout"; otherwise Ok with no tags. */
  function Report(timedOut: bool, estopActive: bool, stampNs: nat, uptimeS: real): (d: Diagnostics)
    ensures d.status == Error <==> estopActive
    ensures d.status == Warn <==> !estopActive && timedOut
    ensures d.status == Ok <==> d.warnings == []
    ensures estopActive ==> d.warnings == [BehaviorRouter.EstopWarning]
    ensures !estopActive && timedOut ==> d.warnings == [BehaviorRouter.TimeoutWarning]
    ensures d.lastError.None? && d.timestampNs == stampNs && d.uptimeS == uptimeS
  {
    if estopActive then Diagnostics(stampNs, Error, [BehaviorRouter.EstopWarning], None, uptimeS)
    else if timedOut then Diagnostics(stampNs, Warn, [BehaviorRouter.TimeoutWarning], None, uptimeS)
    else Diagnostics(stampNs, Ok, [], None, uptimeS)
  }

  // Agreement between the two copies.

  /** With a non-negative bound both clamps compute the same value. */
  lemma ClampsAgree(value: real, max: real)
    requires max >= 0.0
    ensures Clamp(value, max) == BehaviorRouter.Clamp(value, max)
  {
  }

  /** With a negative bound they do not: the first copy can return -max,
      this one always returns max. */
  lemma ClampsDisagreeOnNegativeBound()
    ensures BehaviorRouter.Clamp(-2.0, -1.0) == 1.0
    ensures Clamp(-2.0, -1.0) == -1.0
  {
  }

  /** With a non-negative step both slew limiters compute the same value. */
  lemma RateLimitsAgree(target: real, current: real, maxDelta: real)
    requires maxDelta >= 0.0
    ensures RateLimit(target, current, maxDelta) == BehaviorRouter.LimitDelta(current, target, maxDelta)
  {
  }

  /** When stop handling is enabled (or no stop is active), the limits are
      non-negative and the measured tick is exactly 20 ms, both copies publish
      the same velocities; the tag differs only for a fresh command, which the
      first copy retags "behavior_router". */
  lemma TickOutputsAgree(lastCmd: VelocityCommand, lastSeenNs: nat, lastOutput: VelocityCommand,
                         lastUpdateNs: nat, estopActive: bool,
                         limits: LimitsConfig, safety: SafetyConfig, nowNs: nat, stampNs: nat)
    requires limits.NonNegative()
    requires safety.estopEnabled || !estopActive
    requires TickDt(lastUpdateNs, nowNs) == FixedDt
    ensures var a := BehaviorRouter.TickOutput(lastCmd, lastSeenNs, lastOutput, lastUpdateNs, estopActive,
                                               limits, safety, nowNs, stampNs);
            var b := TickOutput(lastCmd, lastSeenNs, lastOutput, estopActive, limits, safety, nowNs, stampNs);
            && a.vx == b.vx && a.vy == b.vy && a.omega == b.omega
            && a.timestampNs == b.timestampNs && a.priority == b.priority
            && (a.source == b.source
                <==> estopActive || BehaviorRouter.TimedOut(lastSeenNs, nowNs, safety.commandTimeoutMs)
                     || lastCmd.source == BehaviorRouter.RouterSource)
  {
    var timedOut := BehaviorRouter.TimedOut(lastSeenNs, nowNs, safety.commandTimeoutMs);
    var ta := BehaviorRouter.Target(lastCmd, timedOut, estopActive, limits, safety, stampNs);
    var tb := Target(lastCmd, timedOut, estopActive, limits, stampNs);
    ClampsAgree(lastCmd.vx, limits.maxVx);
    ClampsAgree(lastCmd.vy, limits.maxVy);
    ClampsAgree(lastCmd.omega, limits.maxOmega);
    assert ta.vx == tb.vx && ta.vy == tb.vy && ta.omega == tb.omega;
    var dv, dw := limits.maxAccel * FixedDt, limits.maxAlpha * FixedDt;
    RateLimitsAgree(tb.vx, lastOutput.vx, dv);
    RateLimitsAgree(tb.vy, lastOutput.vy, dv);
    RateLimitsAgree(tb.omega, lastOutput.omega, dw);
  }

  /** Both copies report Ok in exactly the same situations; they differ on
      a stop, which the first reports as Warn and this one as Error. */
  lemma ReportsAgreeOnOk(timedOut: bool, estopActive: bool, stampNs: nat, uptimeS: real)
    ensures (Report(timedOut, estopActive, stampNs, uptimeS).status == Ok)
        <==> (BehaviorRouter.Report(timedOut, estopActive, stampNs, uptimeS).status == Ok)
    ensures estopActive ==> BehaviorRouter.Report(timedOut, estopActive, stampNs, uptimeS).status == Warn
  {
  }

  /** The second copy's task state and select arms. It keeps no tick
      instant of its own: the slew step always assumes 20 ms. */
  class Router {
    const limits: LimitsConfig
    const safety: SafetyConfig
    const startNs: nat
    var lastCmd: VelocityCommand
    var lastSeenNs: nat
    var lastOutput: VelocityCommand
    var estopActive: bool
    var lastDiagNs: nat
    var running: bool

    /** The safety invariant: with sane limits, the last output is in range. */
    ghost predicate Valid()
      reads this
    {
      limits.NonNegative() ==> BehaviorRouter.WithinLimits(lastOutput, limits)
    }

    /** The state before the first event; the stop flag starts cleared
        (`estop_enabled && false`). */
    constructor (limits: LimitsConfig, safety: SafetyConfig, nowNs: nat, stampNs: nat)
      ensures Valid() && running
      ensures this.limits == limits && this.safety == safety && startNs == nowNs
      ensures lastCmd == Zero(BehaviorRouter.RouterSource, stampNs) && lastOutput == lastCmd
      ensures lastSeenNs == nowNs && lastDiagNs == nowNs && !estopActive
    {
      this.limits := limits;
      this.safety := safety;
      startNs := nowNs;
      lastCmd := Zero(BehaviorRouter.RouterSource, stampNs);
      lastSeenNs := nowNs;
      lastOutput := Zero(BehaviorRouter.RouterSource, stampNs);
      estopActive := safety.estopEnabled && false;
      lastDiagNs := nowNs;
      running := true;
    }

    /** The timer arm. */
    method Tick(nowNs: nat, stampNs: nat) returns (output: VelocityCommand, diag: Option<Diagnostics>)
      requires Valid() && running
      modifies this`lastOutput, this`lastDiagNs
      ensures Valid()
      ensures output == TickOutput(lastCmd, lastSeenNs, old(lastOutput), estopActive, limits, safety, nowNs, stampNs)
      ensures lastOutput == output
      ensures diag.Some? <==> BehaviorRouter.DiagDue(old(lastDiagNs), nowNs)
      ensures diag.Some? ==>
                lastDiagNs == nowNs
                && diag.value == Report(BehaviorRouter.TimedOut(lastSeenNs, nowNs, safety.commandTimeoutMs),
                                        estopActive, stampNs, Seconds(Elapsed(nowNs, startNs)))
      ensures diag.None? ==> lastDiagNs == old(lastDiagNs)
    {
      var timedOut := Elapsed(nowNs, lastSeenNs) / NanosPerMilli > safety.commandTimeoutMs;
      var target := if timedOut then Zero(BehaviorRouter.TimeoutSource, stampNs)
                    else ClampVelocity(lastCmd, limits, stampNs);
      if estopActive {
        target := Zero(BehaviorRouter.EstopSource, stampNs);
      }
      ghost var goal := Target(lastCmd, timedOut, estopActive, limits, stampNs);
      assert target == goal;
      var dt := FixedDt;
      target := target.(vx := RateLimit(target.vx, lastOutput.vx, limits.maxAccel * dt));
      target := target.(vy := RateLimit(target.vy, lastOutput.vy, limits.maxAccel * dt));
      target := target.(omega := RateLimit(target.omega, lastOutput.omega, limits.maxAlpha * dt));
      assert target == Slew(goal, lastOutput, limits);
      if limits.NonNegative() {
        KeepsLimits(lastCmd, lastSeenNs, lastOutput, estopActive, limits, safety, nowNs, stampNs);
      }
      lastOutput := target;
      output := target;
      diag := None;
      if Elapsed(nowNs, lastDiagNs) >= BehaviorRouter.DiagPeriodNs {
        var warnings: seq<string> := [];
        var status: DiagnosticStatus;
        if estopActive {
          warnings := warnings + [BehaviorRouter.EstopWarning];
          status := Error;
        } else if timedOut {
          warnings := warnings + [BehaviorRouter.TimeoutWarning];
          status := Warn;
        } else {
          status := Ok;
        }
        diag := Some(Diagnostics(stampNs, status, warnings, None, Seconds(Elapsed(nowNs, startNs))));
        assert diag.value == Report(timedOut, estopActive, stampNs, Seconds(Elapsed(nowNs, startNs)));
        lastDiagNs := nowNs;
      }
    }

    /** The raw-command arm. */
    method OnCommand(cmd: VelocityCommand, nowNs: nat)
      requires Valid() && running
      modifies this`lastCmd, this`lastSeenNs
      ensures Valid()
      ensures lastCmd == cmd && lastSeenNs == nowNs
    {
      lastCmd := cmd;
      lastSeenNs := nowNs;
    }

    /** The stop arm. */
    method OnEstop(cmd: EstopCommand)
      requires Valid() && running
      modifies this`estopActive
      ensures Valid()
      ensures estopActive == cmd.enabled
    {
      estopActive := cmd.enabled;
    }

    /** The shutdown arm: the loop ends only when the signal reads true. */
    method OnShutdown(signal: bool)
      requires running
      modifies this`running
      ensures running == !signal
    {
      if signal {
        running := false;
      }
    }
  }

  /** The output of this copy stays within the limits whenever the previous
      output did. */
  lemma KeepsLimits(lastCmd: VelocityCommand, lastSeenNs: nat, lastOutput: VelocityCommand, estopActive: bool,
                    limits: LimitsConfig, safety: SafetyConfig, nowNs: nat, stampNs: nat)
    requires limits.NonNegative() && BehaviorRouter.WithinLimits(lastOutput, limits)
    ensures BehaviorRouter.WithinLimits(TickOutput(lastCmd, lastSeenNs, lastOutput, estopActive,
                                                   limits, safety, nowNs, stampNs), limits)
  {
    var timedOut := BehaviorRouter.TimedOut(lastSeenNs, nowNs, safety.commandTimeoutMs);
    var t := Target(lastCmd, timedOut, estopActive, limits, stampNs);
    assert BehaviorRouter.WithinLimits(t, limits);
    var dv, dw := limits.maxAccel * FixedDt, limits.maxAlpha * FixedDt;
    RateLimitsAgree(t.vx, lastOutput.vx, dv);
    RateLimitsAgree(t.vy, lastOutput.vy, dv);
    RateLimitsAgree(t.omega, lastOutput.omega, dw);
  }
}
