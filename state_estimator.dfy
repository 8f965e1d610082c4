/** Dead reckoning: each tick the last arbitrated command's body-frame
    velocity is rotated by the current heading and integrated into a planar
    pose, and the heading is wrapped back into [-pi, pi]. */
module StateEstimator {
  import opened Utils
  import opened Messages
  import opened Config

  const EstimatorSource: string := "state_estimator"

  /** The first wrap loop: subtract 2 pi while above pi. */
  function WrapDown(theta: real): real
    decreases (theta - Pi).Floor
  {
    if theta > Pi then WrapDown(theta - TwoPi) else theta
  }

  /** The second wrap loop: add 2 pi while below -pi. */
  function WrapUp(theta: real): real
    decreases (-Pi - theta).Floor
  {
    if theta < -Pi then WrapUp(theta + TwoPi) else theta
  }

  /** `normalize_angle` as a function: the two loops one after the other.
      The result lies in the closed interval [-pi, pi], and angles already
      there (both ends included) are left alone. */
  function Normalize(theta: real): (r: real)
    ensures -Pi <= r <= Pi
    ensures -Pi <= theta <= Pi ==> r == theta
  {
    WrapDownBounds(theta);
    WrapUpBounds(WrapDown(theta));
    WrapUp(WrapDown(theta))
  }

  /** A whole number of turns, in radians. */
  function Turns(k: int): real {
    (k as real) * TwoPi
  }

  /** `a` and `b` name the same direction. */
  ghost predicate SameDirection(a: real, b: real) {
    exists k: int :: a == b + Turns(k)
  }

  lemma {:induction false} WrapDownBounds(theta: real)
    ensures WrapDown(theta) <= Pi
    ensures theta > Pi ==> WrapDown(theta) > -Pi
    decreases (theta - Pi).Floor
  {
    if theta > Pi && theta - TwoPi > Pi {
      WrapDownBounds(theta - TwoPi);
    }
  }

  lemma {:induction false} WrapUpBounds(theta: real)
    ensures WrapUp(theta) >= -Pi
    ensures theta <= Pi ==> WrapUp(theta) <= Pi
    decreases (-Pi - theta).Floor
  {
    if theta < -Pi {
      WrapUpBounds(theta + TwoPi);
    }
  }

  lemma {:induction false} WrapDownTurns(theta: real) returns (k: int)
    ensures WrapDown(theta) == theta + Turns(k)
    decreases (theta - Pi).Floor
  {
    if theta > Pi {
      var j := WrapDownTurns(theta - TwoPi);
      k := j - 1;
    } else {
      k := 0;
    }
  }

  lemma {:induction false} WrapUpTurns(theta: real) returns (k: int)
    ensures WrapUp(theta) == theta + Turns(k)
    decreases (-Pi - theta).Floor
  {
    if theta < -Pi {
      var j := WrapUpTurns(theta + TwoPi);
      k := j + 1;
    } else {
      k := 0;
    }
  }

  /** The result differs from the input by a whole number of turns. */
  lemma NormalizeSameDirection(theta: real)
    ensures SameDirection(Normalize(theta), theta)
  {
    var i := WrapDownTurns(theta);
    var j := WrapUpTurns(WrapDown(theta));
    assert Normalize(theta) == theta + Turns(i + j);
  }

  /** Normalizing twice is normalizing once. */
  lemma NormalizeIdempotent(theta: real)
    ensures Normalize(Normalize(theta)) == Normalize(theta)
  {
  }

  /** `normalize_angle`, with its two loops. */
  method NormalizeAngle(theta: real) returns (r: real)
    ensures r == Normalize(theta)
    ensures -Pi <= r <= Pi
  {
    r := theta;
    while r > Pi
      invariant WrapDown(r) == WrapDown(theta)
      decreases (r - Pi).Floor
    {
      r := r - TwoPi;
    }
    ghost var down := r;
    while r < -Pi
      invariant WrapUp(r) == WrapUp(down)
      decreases (-Pi - r).Floor
    {
      r := r + TwoPi;
    }
  }

  datatype Pose = Pose(x: real, y: real, theta: real)


  /** The heading change over one step, omega dt. */
  function HeadingChange(cmd: VelocityCommand, dt: real): real {
    cmd.omega * dt
  }

  /** One dead-reckoning step: the body velocity rotated by the previous
      heading moves the position; the heading then turns by omega dt and is
      wrapped into [-pi, pi]. Without a linear velocity the position does not
      move; without rotation a heading in range does not change. */
  function Integrate(p: Pose, cmd: VelocityCommand, dt: real, trig: Trig): (q: Pose)
    ensures -Pi <= q.theta <= Pi
    ensures cmd.vx == 0.0 && cmd.vy == 0.0 ==> q.x == p.x && q.y == p.y
    ensures cmd.omega == 0.0 && -Pi <= p.theta <= Pi ==> q.theta == p.theta
  {
    var c, s := trig.cos(p.theta), trig.sin(p.theta);
    Pose(p.x + (cmd.vx * c - cmd.vy * s) * dt,
         p.y + (cmd.vx * s + cmd.vy * c) * dt,
         Normalize(p.theta + HeadingChange(cmd, dt)))
  }

  /** The integrated heading points where the old heading turned by
      omega dt points. */
  lemma IntegrateHeading(p: Pose, cmd: VelocityCommand, dt: real, trig: Trig)
    ensures SameDirection(Integrate(p, cmd, dt, trig).theta, p.theta + HeadingChange(cmd, dt))
  {
    NormalizeSameDirection(p.theta + HeadingChange(cmd, dt));
  }

  /** `n` steps of length `dt` under one command. */
  function IntegrateN(p: Pose, cmd: VelocityCommand, dt: real, trig: Trig, n: nat): Pose
    decreases n
  {
    if n == 0 then p else Integrate(IntegrateN(p, cmd, dt, trig, n - 1), cmd, dt, trig)
  }

  /** Driving straight ahead at 1 m/s from the origin in 20 ms steps: after
      `n` steps the pose is (0.02 n, 0, 0); after 50 steps, one second, x is
      exactly 1 m. */
  lemma {:induction false} StraightLine(cmd: VelocityCommand, trig: Trig, n: nat)
    requires trig.Anchored()
    requires cmd.vx == 1.0 && cmd.vy == 0.0 && cmd.omega == 0.0
    ensures IntegrateN(Pose(0.0, 0.0, 0.0), cmd, 0.02, trig, n) == Pose(0.02 * (n as real), 0.0, 0.0)
    decreases n
  {
    if n > 0 {
      StraightLine(cmd, trig, n - 1);
    }
  }

  lemma StraightLineOneSecond(cmd: VelocityCommand, trig: Trig)
    requires trig.Anchored()
    requires cmd.vx == 1.0 && cmd.vy == 0.0 && cmd.omega == 0.0
    ensures IntegrateN(Pose(0.0, 0.0, 0.0), cmd, 0.02, trig, 50).x == 1.0
  {
    StraightLine(cmd, trig, 50);
  }

  /** The odometry published for a pose: it echoes the command's velocities
      and names the configured odometry frame. */
  function OdometryOf(p: Pose, cmd: VelocityCommand, frames: FramesConfig, stampNs: nat): (o: Odometry)
    ensures o.x == p.x && o.y == p.y && o.theta == p.theta
    ensures o.vx == cmd.vx && o.vy == cmd.vy && o.omega == cmd.omega
    ensures o.frameId == frames.odom && o.timestampNs == stampNs
  {
    Odometry(stampNs, p.x, p.y, p.theta, cmd.vx, cmd.vy, cmd.omega, frames.odom)
  }

  /** The estimator task: the pose accumulator and the last command. */
  class Estimator {
    const frames: FramesConfig
    const trig: Trig
    var lastCmd: VelocityCommand
    var poseX: real
    var poseY: real
    var poseTheta: real
    var lastUpdateNs: nat
    var running: bool

    /** The heading is always normalized. */
    ghost predicate Valid()
      reads this
    {
      -Pi <= poseTheta <= Pi
    }

    function CurrentPose(): Pose
      reads this
    {
      Pose(poseX, poseY, poseTheta)
    }

    constructor (frames: FramesConfig, trig: Trig, nowNs: nat, stampNs: nat)
      ensures Valid() && running
      ensures this.frames == frames && this.trig == trig
      ensures lastCmd == Zero(EstimatorSource, stampNs)
      ensures CurrentPose() == Pose(0.0, 0.0, 0.0) && lastUpdateNs == nowNs
    {
      this.frames := frames;
      this.trig := trig;
      lastCmd := Zero(EstimatorSource, stampNs);
      poseX, poseY, poseTheta := 0.0, 0.0, 0.0;
      lastUpdateNs := nowNs;
      running := true;
    }

    /** The timer arm: integrate one step and publish the odometry. */
    method Tick(nowNs: nat, stampNs: nat) returns (odom: Odometry)
      requires Valid() && running
      modifies this`poseX, this`poseY, this`poseTheta, this`lastUpdateNs
      ensures Valid()
      ensures CurrentPose() == Integrate(old(CurrentPose()), lastCmd, TickDt(old(lastUpdateNs), nowNs), trig)
      ensures lastUpdateNs == nowNs
      ensures odom == OdometryOf(CurrentPose(), lastCmd, frames, stampNs)
    {
      var dt := TickDt(lastUpdateNs, nowNs);
      ghost var next := Integrate(CurrentPose(), lastCmd, dt, trig);
      lastUpdateNs := nowNs;
      var vx, vy, omega := lastCmd.vx, lastCmd.vy, lastCmd.omega;
      var cosT, sinT := trig.cos(poseTheta), trig.sin(poseTheta);
      var dx := (vx * cosT - vy * sinT) * dt;
      var dy := (vx * sinT + vy * cosT) * dt;
      var turn := omega * dt;
      assert turn == HeadingChange(lastCmd, dt);
      poseX := poseX + dx;
      poseY := poseY + dy;
      poseTheta := NormalizeAngle(poseTheta + turn);
      assert poseX == next.x;
      assert poseY == next.y;
      assert poseTheta == next.theta;
      odom := Odometry(stampNs, poseX, poseY, poseTheta, lastCmd.vx, lastCmd.vy, lastCmd.omega, frames.odom);
    }

    /** The command arm: only the remembered command changes. */
    method OnCommand(cmd: VelocityCommand)
      requires Valid() && running
      modifies this`lastCmd
      ensures Valid()
      ensures lastCmd == cmd
    {
      lastCmd := cmd;
    }

    method OnShutdown()
      modifies this`running
      ensures !running
    {
      running := false;
    }
  }
}
