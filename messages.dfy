/** The records carried on the bus. Unsigned counters (timestamps, servo
    ids, error flags) are `nat`, `f32`/`f64` quantities are `real`. */
module Messages {
  import opened Utils

  /** A planar velocity request; `priority` is carried but never read. */
  datatype VelocityCommand = VelocityCommand(
    timestampNs: nat,
    vx: real,
    vy: real,
    omega: real,
    source: string,
    priority: int)
  {
    /** All three velocity components are zero. */
    predicate IsStill() { vx == 0.0 && vy == 0.0 && omega == 0.0 }
  }

  /** `VelocityCommand::zero`: a still command tagged with `source`. */
  function Zero(source: string, timestampNs: nat): (r: VelocityCommand)
    ensures r.IsStill() && r.priority == 0
    ensures r.source == source && r.timestampNs == timestampNs
  {
    VelocityCommand(timestampNs, 0.0, 0.0, 0.0, source, 0)
  }

  /** The zero commands are exactly the still, priority-0 commands. */
  lemma ZeroCharacterised(c: VelocityCommand)
    ensures c == Zero(c.source, c.timestampNs) <==> c.IsStill() && c.priority == 0
  {
  }

  datatype EstopCommand = EstopCommand(
    timestampNs: nat,
    enabled: bool,
    reason: string,
    source: string)

  /** Inbound records as a decoder sees them: the timestamp may be absent. */
  datatype VelocityFields = VelocityFields(
    timestampNs: Option<nat>,
    vx: real,
    vy: real,
    omega: real,
    source: string,
    priority: int)

  datatype EstopFields = EstopFields(
    timestampNs: Option<nat>,
    enabled: bool,
    reason: string,
    source: string)

  /** First copy of the record definitions: a missing timestamp reads as 0. */
  function DecodeVelocity(f: VelocityFields): (r: VelocityCommand)
    ensures f.timestampNs.None? ==> r.timestampNs == 0
    ensures f.timestampNs.Some? ==> r.timestampNs == f.timestampNs.value
    ensures r.vx == f.vx && r.vy == f.vy && r.omega == f.omega
    ensures r.source == f.source && r.priority == f.priority
  {
    VelocityCommand(
      match f.timestampNs case Some(t) => t case None => 0,
      f.vx, f.vy, f.omega, f.source, f.priority)
  }

  /** Second copy: the timestamp is a required field. */
  function DecodeVelocityStrict(f: VelocityFields): (r: Option<VelocityCommand>)
    ensures r.Some? <==> f.timestampNs.Some?
    ensures r.Some? ==> r.value.timestampNs == f.timestampNs.value
  {
    match f.timestampNs
    case None => None
    case Some(t) => Some(VelocityCommand(t, f.vx, f.vy, f.omega, f.source, f.priority))
  }

  /** The two copies decode a record that carries its timestamp alike. */
  lemma DecodeVelocityCopiesAgree(f: VelocityFields)
    requires f.timestampNs.Some?
    ensures DecodeVelocityStrict(f) == Some(DecodeVelocity(f))
  {
  }

  function DecodeEstop(f: EstopFields): (r: EstopCommand)
    ensures f.timestampNs.None? ==> r.timestampNs == 0
    ensures f.timestampNs.Some? ==> r.timestampNs == f.timestampNs.value
    ensures r.enabled == f.enabled && r.reason == f.reason && r.source == f.source
  {
    EstopCommand(match f.timestampNs case Some(t) => t case None => 0, f.enabled, f.reason, f.source)
  }

  function DecodeEstopStrict(f: EstopFields): (r: Option<EstopCommand>)
    ensures r.Some? <==> f.timestampNs.Some?
    ensures r.Some? ==> r.value.timestampNs == f.timestampNs.value
  {
    match f.timestampNs
    case None => None
    case Some(t) => Some(EstopCommand(t, f.enabled, f.reason, f.source))
  }

  lemma DecodeEstopCopiesAgree(f: EstopFields)
    requires f.timestampNs.Some?
    ensures DecodeEstopStrict(f) == Some(DecodeEstop(f))
  {
  }

  datatype LogAction = Start | Stop

  /** Lower-case wire names of the log actions. */
  function LogActionName(a: LogAction): (s: string)
    ensures s == "start" <==> a == Start
  {
    match a
    case Start => "start"
    case Stop => "stop"
  }

  function ParseLogAction(s: string): (a: Option<LogAction>)
    ensures a.Some? <==> s == "start" || s == "stop"
  {
    if s == "start" then Some(Start) else if s == "stop" then Some(Stop) else None
  }

  lemma LogActionRoundTrip(a: LogAction)
    ensures ParseLogAction(LogActionName(a)) == Some(a)
  {
  }

  datatype LogControl = LogControl(
    timestampNs: nat,
    action: LogAction,
    topics: Option<seq<string>>,
    sessionName: Option<string>)

  datatype LogStatus = LogStatus(
    timestampNs: nat,
    active: bool,
    filePath: Option<string>,
    sizeBytes: Option<nat>,
    durationS: Option<real>)

  datatype Odometry = Odometry(
    timestampNs: nat,
    x: real,
    y: real,
    theta: real,
    vx: real,
    vy: real,
    omega: real,
    frameId: string)

  datatype ServoState = ServoState(
    id: nat,
    name: string,
    positionRad: real,
    velocityRadS: real,
    load: real,
    temperatureC: real,
    voltageV: real,
    errorFlags: nat)

  datatype ServoStateArray = ServoStateArray(timestampNs: nat, servos: seq<ServoState>)

  datatype PowerState = PowerState(
    timestampNs: nat,
    batteryVoltageV: real,
    batteryPercent: real,
    lowBattery: bool)

  /** The health summary has exactly these three levels. */
  datatype DiagnosticStatus = Ok | Warn | Error

  /** Lower-case wire names of the status levels. */
  function StatusName(s: DiagnosticStatus): (n: string)
    ensures n in {"ok", "warn", "error"}
    ensures n == "ok" <==> s == Ok
    ensures n == "warn" <==> s == Warn
    ensures n == "error" <==> s == Error
  {
    match s
    case Ok => "ok"
    case Warn => "warn"
    case Error => "error"
  }

  function ParseStatus(n: string): (s: Option<DiagnosticStatus>)
    ensures s.Some? <==> n in {"ok", "warn", "error"}
    ensures s == Some(Ok) <==> n == "ok"
    ensures s == Some(Warn) <==> n == "warn"
    ensures s == Some(Error) <==> n == "error"
  {
    if n == "ok" then Some(Ok)
    else if n == "warn" then Some(Warn)
    else if n == "error" then Some(Error)
    else None
  }

  /** Every level has its own name, and the name reads back to the level. */
  lemma StatusRoundTrip(s: DiagnosticStatus)
    ensures ParseStatus(StatusName(s)) == Some(s)
  {
  }

  datatype Diagnostics = Diagnostics(
    timestampNs: nat,
    status: DiagnosticStatus,
    warnings: seq<string>,
    lastError: Option<string>,
    uptimeS: real)
}
