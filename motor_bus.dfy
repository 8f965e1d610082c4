/** Drive kinematics and the synthetic battery reading. Every tick the last
    arbitrated command is turned into one angular-velocity target per wheel
    mount; once a second a power reading derived from the battery
    configuration alone is published. */
module MotorBus {
  import opened Utils
  import opened Messages
  import opened Config

  const PowerPeriodNs: nat := NanosPerSecond
  /** Smallest wheel radius used in the division, in metres. */
  const MinWheelRadius: real := 0.0001
  const MotorBusSource: string := "motor_bus"

  /** The configured radius, floored so the division is always defined. */
  function EffectiveRadius(drive: DriveConfig): (r: real)
    ensures r >= MinWheelRadius && r > 0.0
    ensures drive.wheelRadiusM >= MinWheelRadius ==> r == drive.wheelRadiusM
  {
    Max(drive.wheelRadiusM, MinWheelRadius)
  }

  /** Speed of the wheel's contact point along its rolling direction. */
  function Tangential(mount: WheelMount, cmd: VelocityCommand, drive: DriveConfig, trig: Trig): real {
    var angle := ToRadians(mount.angleDeg);
    -trig.sin(angle) * cmd.vx + trig.cos(angle) * cmd.vy + drive.wheelDistanceM * cmd.omega
  }

  /** Angular velocity target of one wheel: the one at which a wheel of the
      effective radius rolls its contact point at the tangential speed, signed
      by the mount's direction. */
  function WheelVelocity(mount: WheelMount, cmd: VelocityCommand, drive: DriveConfig, trig: Trig): (w: real)
    ensures w * EffectiveRadius(drive) == Tangential(mount, cmd, drive, trig) * (mount.direction as real)
    ensures mount.direction == 0 ==> w == 0.0
  {
    var t, r, d := Tangential(mount, cmd, drive, trig), EffectiveRadius(drive), mount.direction as real;
    assert (t / r) * r == t;
    assert ((t / r) * d) * r == ((t / r) * r) * d;
    (t / r) * d
  }

  /** The servo record of one wheel: identity from the mount, the computed
      velocity, zero placeholders and the nominal battery voltage. */
  function WheelServo(mount: WheelMount, cmd: VelocityCommand, drive: DriveConfig,
                      battery: BatteryConfig, trig: Trig): (s: ServoState)
    ensures s.id == mount.servoId && s.name == mount.name
    ensures s.velocityRadS == WheelVelocity(mount, cmd, drive, trig)
    ensures s.positionRad == 0.0 && s.load == 0.0 && s.temperatureC == 0.0 && s.errorFlags == 0
    ensures s.voltageV == battery.nominalVoltageV
  {
    ServoState(mount.servoId, mount.name, 0.0, WheelVelocity(mount, cmd, drive, trig),
               0.0, 0.0, battery.nominalVoltageV, 0)
  }

  /** `build_servo_state`: one record per wheel mount, in mount order. */
  method BuildServoState(cmd: VelocityCommand, drive: DriveConfig, battery: BatteryConfig,
                         trig: Trig, stampNs: nat)
    returns (state: ServoStateArray)
    ensures state.timestampNs == stampNs
    ensures |state.servos| == |drive.wheelMounts|
    ensures forall i :: 0 <= i < |drive.wheelMounts| ==>
              state.servos[i] == WheelServo(drive.wheelMounts[i], cmd, drive, battery, trig)
  {
    var servos: seq<ServoState> := [];
    var wheelRadius := Max(drive.wheelRadiusM, MinWheelRadius);
    var wheelDistance := drive.wheelDistanceM;
    for k := 0 to |drive.wheelMounts|
      invariant |servos| == k
      invariant forall i :: 0 <= i < k ==> servos[i] == WheelServo(drive.wheelMounts[i], cmd, drive, battery, trig)
    {
      var mount := drive.wheelMounts[k];
      var angle := ToRadians(mount.angleDeg);
      var v := -trig.sin(angle) * cmd.vx + trig.cos(angle) * cmd.vy + wheelDistance * cmd.omega;
      var omega := (v / wheelRadius) * (mount.direction as real);
      servos := servos + [ServoState(mount.servoId, mount.name, 0.0, omega, 0.0, 0.0, battery.nominalVoltageV, 0)];
    }
    state := ServoStateArray(stampNs, servos);
  }

  /** A still command turns no wheel, whatever the geometry. */
  lemma StillCommandStillWheels(mount: WheelMount, cmd: VelocityCommand, drive: DriveConfig, trig: Trig)
    requires cmd.IsStill()
    ensures WheelVelocity(mount, cmd, drive, trig) == 0.0
  {
  }

  /** Flipping a mount's rotation sign flips its wheel's velocity. */
  lemma DirectionFlipsVelocity(mount: WheelMount, cmd: VelocityCommand, drive: DriveConfig, trig: Trig)
    ensures WheelVelocity(mount.(direction := -mount.direction), cmd, drive, trig)
            == -WheelVelocity(mount, cmd, drive, trig)
  {
    var t := Tangential(mount, cmd, drive, trig) / EffectiveRadius(drive);
    assert (-mount.direction) as real == -(mount.direction as real);
    assert t * (-(mount.direction as real)) == -(t * (mount.direction as real));
  }

  /** The wheel velocity is linear in the command: velocities of summed
      commands add up. */
  lemma WheelVelocityAdditive(mount: WheelMount, a: VelocityCommand, b: VelocityCommand,
                              drive: DriveConfig, trig: Trig)
    ensures var sum := a.(vx := a.vx + b.vx, vy := a.vy + b.vy, omega := a.omega + b.omega);
            WheelVelocity(mount, sum, drive, trig)
            == WheelVelocity(mount, a, drive, trig) + WheelVelocity(mount, b, drive, trig)
  {
    var sum := a.(vx := a.vx + b.vx, vy := a.vy + b.vy, omega := a.omega + b.omega);
    var angle := ToRadians(mount.angleDeg);
    var s, c, l := trig.sin(angle), trig.cos(angle), drive.wheelDistanceM;
    var r, d := EffectiveRadius(drive), mount.direction as real;
    var ta, tb := Tangential(mount, a, drive, trig), Tangential(mount, b, drive, trig);
    assert Tangential(mount, sum, drive, trig) == ta + tb by {
      assert -s * (a.vx + b.vx) == -s * a.vx + -s * b.vx;
      assert c * (a.vy + b.vy) == c * a.vy + c * b.vy;
      assert l * (a.omega + b.omega) == l * a.omega + l * b.omega;
    }
    assert (ta + tb) / r * d == ta / r * d + tb / r * d;
  }

  /** A wheel mounted at 0 degrees with direction +1, under a pure forward
      command, does not turn backwards (with sin 0 = 0 it does not turn). */
  lemma ForwardWheelAtZero(mount: WheelMount, cmd: VelocityCommand, drive: DriveConfig, trig: Trig)
    requires trig.Anchored()
    requires mount.angleDeg == 0.0 && mount.direction == 1
    requires cmd.vx > 0.0 && cmd.vy == 0.0 && cmd.omega == 0.0
    ensures WheelVelocity(mount, cmd, drive, trig) >= 0.0
    ensures WheelVelocity(mount, cmd, drive, trig) == 0.0
  {
    assert ToRadians(0.0) == 0.0;
  }

  /** Battery charge interpolated between the low and nominal voltages,
      clamped to [0, 1]; 1 when the configuration is degenerate. */
  function BatteryPercent(voltage: real, battery: BatteryConfig): (p: real)
    ensures 0.0 <= p <= 1.0
    ensures battery.nominalVoltageV <= battery.lowVoltageV ==> p == 1.0
    ensures battery.nominalVoltageV > battery.lowVoltageV && voltage >= battery.nominalVoltageV ==> p == 1.0
    ensures battery.nominalVoltageV > battery.lowVoltageV && voltage <= battery.lowVoltageV ==> p == 0.0
    ensures battery.lowVoltageV < voltage < battery.nominalVoltageV ==>
              p * (battery.nominalVoltageV - battery.lowVoltageV) == voltage - battery.lowVoltageV
  {
    if battery.nominalVoltageV > battery.lowVoltageV then
      var span := battery.nominalVoltageV - battery.lowVoltageV;
      var f := (voltage - battery.lowVoltageV) / span;
      assert f * span == voltage - battery.lowVoltageV;
      RatioBounds(f, span, voltage - battery.lowVoltageV);
      Min(Max(f, 0.0), 1.0)
    else
      1.0
  }

  /** Where a ratio of a positive span falls, from where its numerator falls. */
  lemma RatioBounds(f: real, span: real, d: real)
    requires span > 0.0 && f * span == d
    ensures d <= 0.0 ==> f <= 0.0
    ensures d >= span ==> f >= 1.0
    ensures 0.0 < d < span ==> 0.0 < f < 1.0
  {
    assert (1.0 - f) * span == span - d;
    if d >= span {
      assert (f - 1.0) * span == d - span;
      NonNegativeFactor(f - 1.0, span);
    }
    if 0.0 < d < span {
      PositiveFactor(1.0 - f, span);
    }
  }

  /** A product of a positive factor is non-negative only when the other one is. */
  lemma NonNegativeFactor(a: real, b: real)
    requires b > 0.0 && a * b >= 0.0
    ensures a >= 0.0
  {
  }

  /** A product of a positive factor is positive only when the other one is. */
  lemma PositiveFactor(a: real, b: real)
    requires b > 0.0 && a * b > 0.0
    ensures a > 0.0
  {
  }

  /** With 12 V nominal and 10 V low: 0 at 10 V, one half at 11 V, 1 at 12 V. */
  lemma BatteryPercentScenario(battery: BatteryConfig)
    requires battery.nominalVoltageV == 12.0 && battery.lowVoltageV == 10.0
    ensures BatteryPercent(10.0, battery) == 0.0
    ensures BatteryPercent(11.0, battery) == 0.5
    ensures BatteryPercent(12.0, battery) == 1.0
  {
  }

  /** `build_power_state`: the reading uses the nominal voltage itself, so it
      always reports a full battery, and reports it low exactly when the
      configuration puts nominal at or below the low threshold. */
  function BuildPowerState(battery: BatteryConfig, stampNs: nat): (p: PowerState)
    ensures p.timestampNs == stampNs
    ensures p.batteryVoltageV == battery.nominalVoltageV
    ensures p.batteryPercent == 1.0
    ensures p.lowBattery <==> battery.nominalVoltageV <= battery.lowVoltageV
  {
    var voltage := battery.nominalVoltageV;
    PowerState(stampNs, voltage, BatteryPercent(voltage, battery), voltage <= battery.lowVoltageV)
  }

  /** The motor task: it keeps only the last arbitrated command, never
      wheel state; servo targets are recomputed from it on every tick. */
  class MotorBusTask {
    const drive: DriveConfig
    const battery: BatteryConfig
    const trig: Trig
    var lastCmd: VelocityCommand
    var lastPowerNs: nat
    var running: bool

    constructor (drive: DriveConfig, battery: BatteryConfig, trig: Trig, nowNs: nat, stampNs: nat)
      ensures this.drive == drive && this.battery == battery && this.trig == trig
      ensures lastCmd == Zero(MotorBusSource, stampNs) && lastPowerNs == nowNs && running
    {
      this.drive := drive;
      this.battery := battery;
      this.trig := trig;
      lastCmd := Zero(MotorBusSource, stampNs);
      lastPowerNs := nowNs;
      running := true;
    }

    /** The timer arm: servo targets every tick, power once a second. */
    method Tick(nowNs: nat, stampNs: nat) returns (servos: ServoStateArray, power: Option<PowerState>)
      requires running
      modifies this`lastPowerNs
      ensures |servos.servos| == |drive.wheelMounts| && servos.timestampNs == stampNs
      ensures forall i :: 0 <= i < |drive.wheelMounts| ==>
                servos.servos[i] == WheelServo(drive.wheelMounts[i], lastCmd, drive, battery, trig)
      ensures power.Some? <==> Elapsed(nowNs, old(lastPowerNs)) >= PowerPeriodNs
      ensures power.Some? ==> power.value == BuildPowerState(battery, stampNs) && lastPowerNs == nowNs
      ensures power.None? ==> lastPowerNs == old(lastPowerNs)
    {
      servos := BuildServoState(lastCmd, drive, battery, trig, stampNs);
      power := None;
      if Elapsed(nowNs, lastPowerNs) >= PowerPeriodNs {
        lastPowerNs := nowNs;
        power := Some(BuildPowerState(battery, stampNs));
      }
    }

    /** The command arm: only the remembered command changes. */
    method OnCommand(cmd: VelocityCommand)
      requires running
      modifies this`lastCmd
      ensures lastCmd == cmd
    {
      lastCmd := cmd;
    }

    method OnShutdown()
      modifies this`running
      ensures !running
    {
      running := false;
    }
  }
}
