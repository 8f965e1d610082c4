/** The configuration records the services read. They are loaded once at
    start-up and never change while the services run. */
module Config {

  datatype BatteryConfig = BatteryConfig(
    kind: string,
    nominalVoltageV: real,
    lowVoltageV: real)

  /** One wheel: its mounting angle in degrees, its servo and a rotation
      sign (+1 or -1 in practice; any `i8` is accepted). */
  datatype WheelMount = WheelMount(
    name: string,
    angleDeg: real,
    servoId: nat,
    direction: int)

  datatype DriveConfig = DriveConfig(
    wheelRadiusM: real,
    wheelDistanceM: real,
    wheelMounts: seq<WheelMount>)

  datatype LimitsConfig = LimitsConfig(
    maxVx: real,
    maxVy: real,
    maxOmega: real,
    maxAccel: real,
    maxAlpha: real)
  {
    /** Every limit is non-negative (the loader does not check this). */
    predicate NonNegative() {
      maxVx >= 0.0 && maxVy >= 0.0 && maxOmega >= 0.0 && maxAccel >= 0.0 && maxAlpha >= 0.0
    }
  }

  datatype SafetyConfig = SafetyConfig(
    commandTimeoutMs: nat,
    estopEnabled: bool,
    servoTempLimitC: real,
    lowBatteryStop: bool)

  datatype FramesConfig = FramesConfig(baseLink: string, odom: string, mapFrame: string)

  datatype LoggingSettings = LoggingSettings(
    directory: string,
    includeCameras: bool,
    rotateOnSizeMb: nat,
    defaultTopics: seq<string>)
}
