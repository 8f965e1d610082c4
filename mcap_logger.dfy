/** The recording session controller: Start and Stop requests open and close
    one recording at a time, and shutdown closes a recording left open. The
    recording writer and the file system are outside the model: their
    outcomes come in as parameters and the writers opened and closed are kept
    as ghost logs. */
module McapLogger {
  import opened Utils
  import opened Messages
  import opened Config

  const CameraBaseTopic: string := "/sensors/camera/base"
  const CameraWristTopic: string := "/sensors/camera/wrist"
  const SessionPrefix: string := "session-"
  const Extension: string := ".mcap"
  const Separator: string := "/"

  /** The requested list when present and non-empty, else the defaults. */
  function ChosenTopics(logging: LoggingSettings, requested: Option<seq<string>>): (topics: seq<string>)
    ensures requested.Some? && requested.value != [] ==> topics == requested.value
    ensures requested.None? || requested.value == [] ==> topics == logging.defaultTopics
  {
    match requested
    case Some(list) => if list != [] then list else logging.defaultTopics
    case None => logging.defaultTopics
  }

  /** `resolve_topics`: the chosen topics as a set, plus both camera topics
      when cameras are included. */
  function ResolveTopics(logging: LoggingSettings, requested: Option<seq<string>>): (r: set<string>)
    ensures forall t :: t in ChosenTopics(logging, requested) ==> t in r
    ensures logging.includeCameras ==> CameraBaseTopic in r && CameraWristTopic in r
    ensures forall t :: t in r ==>
              t in ChosenTopics(logging, requested)
              || (logging.includeCameras && (t == CameraBaseTopic || t == CameraWristTopic))
  {
    var topics := set t | t in ChosenTopics(logging, requested);
    if logging.includeCameras then topics + {CameraBaseTopic, CameraWristTopic} else topics
  }

  /** A non-empty request replaces the defaults entirely (cameras aside). */
  lemma RequestReplacesDefaults(logging: LoggingSettings, list: seq<string>, t: string)
    requires list != [] && !logging.includeCameras
    ensures t in ResolveTopics(logging, Some(list)) <==> t in list
  {
  }

  /** An empty or missing request records the default topics. */
  lemma EmptyRequestUsesDefaults(logging: LoggingSettings, requested: Option<seq<string>>)
    requires requested.None? || requested.value == []
    ensures ResolveTopics(logging, requested) == ResolveTopics(logging, Some(logging.defaultTopics))
  {
    if logging.defaultTopics == [] {
      assert ResolveTopics(logging, Some(logging.defaultTopics)) == ResolveTopics(logging, None);
    }
  }

  /** The recording's file name: the session name, or `session-<stamp>`,
      followed by `.mcap`. */
  function LogFileName(session: Option<string>, wallNs: nat): (name: string)
    ensures session.Some? ==> name == session.value + Extension
    ensures session.None? ==> name == SessionPrefix + DecimalString(wallNs) + Extension
    ensures |name| >= |Extension| && name[|name| - |Extension|..] == Extension
  {
    var stem := match session case Some(s) => s case None => SessionPrefix + DecimalString(wallNs);
    stem + Extension
  }

  /** Unnamed sessions started at different times get different files. */
  lemma {:induction false} DefaultNamesDistinct(m: nat, n: nat)
    requires m != n
    ensures LogFileName(None, m) != LogFileName(None, n)
  {
    DecimalInjective(m, n);
    var a, b := DecimalString(m), DecimalString(n);
    var x, y := SessionPrefix + a + Extension, SessionPrefix + b + Extension;
    var k := |SessionPrefix|;
    if |a| == |b| {
      assert x[k..k + |a|] == a && y[k..k + |b|] == b;
    } else {
      assert |x| != |y|;
    }
  }

  /** `build_log_path`: the file name joined under the logging directory,
      or nothing when the directory cannot be created. */
  function BuildLogPath(dir: string, session: Option<string>, wallNs: nat, dirCreated: bool): (p: Option<string>)
    ensures p.Some? <==> dirCreated
    ensures p.Some? ==> p.value == dir + Separator + LogFileName(session, wallNs)
  {
    if dirCreated then Some(dir + Separator + LogFileName(session, wallNs)) else None
  }

  /** An open recording: the `n`-th writer opened, its file and topic filter. */
  datatype Writer = Writer(id: nat, path: string, topics: set<string>)

  /** The logger task. `active`, `activePath` and `startNs` are the three
      optional fields of `run`; `openedLog` and `closedLog` log the writers
      created and closed, in order. */
  class Logger {
    const logging: LoggingSettings
    var active: Option<Writer>
    var activePath: Option<string>
    var startNs: Option<nat>
    var running: bool
    /** The task ended with an error (a failed directory or writer creation). */
    var failed: bool
    /** Number of writers created so far; each writer's `id` is its rank. */
    var writerCount: nat
    ghost var openedLog: seq<Writer>
    ghost var closedLog: seq<Writer>

    /** The three optional fields are set together; every writer is closed
        at most once, and none is left open once the task has ended. */
    ghost predicate Valid()
      reads this
    {
      && (active.Some? <==> activePath.Some?)
      && (active.Some? <==> startNs.Some?)
      && (active.Some? ==> activePath.value == active.value.path)
      && |openedLog| == writerCount
      && (forall i :: 0 <= i < |openedLog| ==> openedLog[i].id == i)
      && |closedLog| + (if active.Some? then 1 else 0) == |openedLog|
      && (forall i :: 0 <= i < |closedLog| ==> closedLog[i] == openedLog[i])
      && (active.Some? ==> active.value == openedLog[|openedLog| - 1])
      && (!running ==> active.None?)
      && (failed ==> !running)
    }

    constructor (logging: LoggingSettings)
      ensures Valid() && running && !failed && this.logging == logging
      ensures active.None? && openedLog == [] && closedLog == []
    {
      this.logging := logging;
      active, activePath, startNs := None, None, None;
      running, failed := true, false;
      writerCount := 0;
      openedLog, closedLog := [], [];
    }

    /** A Start request. `dirCreated` and `writerCreated` are the outcomes
        of creating the directory and the writer; a failure ends the task. */
    method HandleStart(topics: Option<seq<string>>, session: Option<string>, dirCreated: bool, writerCreated: bool,
                 nowNs: nat, wallNs: nat)
      returns (status: Option<LogStatus>)
      requires Valid() && running
      modifies this
      ensures Valid()
      ensures old(active).Some? ==>
                status.None? && active == old(active) && activePath == old(activePath)
                && startNs == old(startNs) && running && openedLog == old(openedLog) && closedLog == old(closedLog)
      ensures old(active).None? && !(dirCreated && writerCreated) ==>
                status.None? && !running && failed && active.None?
                && openedLog == old(openedLog) && closedLog == old(closedLog)
      ensures old(active).None? && dirCreated && writerCreated ==>
                var path := logging.directory + Separator + LogFileName(session, wallNs);
                && running && !failed
                && active == Some(Writer(|old(openedLog)|, path, ResolveTopics(logging, topics)))
                && activePath == Some(path) && startNs == Some(nowNs)
                && openedLog == old(openedLog) + [active.value] && closedLog == old(closedLog)
                && status == Some(LogStatus(wallNs, true, Some(path), None, None))
    {
      if active.Some? {
        return None;
      }
      var path := BuildLogPath(logging.directory, session, wallNs, dirCreated);
      if path.None? {
        running, failed := false, true;
        return None;
      }
      var filter := ResolveTopics(logging, topics);
      if !writerCreated {
        running, failed := false, true;
        return None;
      }
      var handle := Writer(writerCount, path.value, filter);
      writerCount := writerCount + 1;
      openedLog := openedLog + [handle];
      startNs := Some(nowNs);
      activePath := Some(path.value);
      active := Some(handle);
      status := Some(LogStatus(wallNs, true, Some(path.value), None, None));
    }

    /** A Stop request: close the open writer, if any, and report the
        finished session (or an empty report when none was open). */
    method HandleStop(nowNs: nat, wallNs: nat) returns (status: LogStatus)
      requires Valid() && running
      modifies this
      ensures Valid() && running && failed == old(failed)
      ensures active.None? && activePath.None? && startNs.None?
      ensures openedLog == old(openedLog)
      ensures closedLog == old(closedLog) + (if old(active).Some? then [old(active).value] else [])
      ensures !status.active && status.timestampNs == wallNs && status.sizeBytes.None?
      ensures status.filePath == old(activePath)
      ensures status.durationS == match old(startNs)
                                  case Some(t) => Some(Seconds(Elapsed(nowNs, t)))
                                  case None => None
    {
      if active.Some? {
        closedLog := closedLog + [active.value];
        active := None;
      }
      var durationS := match startNs case Some(t) => Some(Seconds(Elapsed(nowNs, t))) case None => None;
      startNs := None;
      var filePath := activePath;
      activePath := None;
      status := LogStatus(wallNs, false, filePath, None, durationS);
    }

    /** One log-control message, dispatched on its action. */
    method OnControl(cmd: LogControl, dirCreated: bool, writerCreated: bool, nowNs: nat, wallNs: nat)
      returns (status: Option<LogStatus>)
      requires Valid() && running
      modifies this
      ensures Valid()
      ensures cmd.action == Start && old(active).Some? ==>
                status.None? && active == old(active) && activePath == old(activePath)
                && startNs == old(startNs) && running && openedLog == old(openedLog) && closedLog == old(closedLog)
      ensures cmd.action == Start && old(active).None? && !(dirCreated && writerCreated) ==>
                status.None? && !running && failed && active.None?
                && openedLog == old(openedLog) && closedLog == old(closedLog)
      ensures cmd.action == Start && old(active).None? && dirCreated && writerCreated ==>
                var path := logging.directory + Separator + LogFileName(cmd.sessionName, wallNs);
                && running && !failed
                && active == Some(Writer(|old(openedLog)|, path, ResolveTopics(logging, cmd.topics)))
                && activePath == Some(path) && startNs == Some(nowNs)
                && openedLog == old(openedLog) + [active.value] && closedLog == old(closedLog)
                && status == Some(LogStatus(wallNs, true, Some(path), None, None))
      ensures cmd.action == Stop ==>
                && running && failed == old(failed)
                && active.None? && activePath.None? && startNs.None?
                && openedLog == old(openedLog)
                && closedLog == old(closedLog) + (if old(active).Some? then [old(active).value] else [])
                && status == Some(LogStatus(wallNs, false, old(activePath), None,
                                            match old(startNs)
                                            case Some(t) => Some(Seconds(Elapsed(nowNs, t)))
                                            case None => None))
    {
      match cmd.action {
        case Start =>
          status := HandleStart(cmd.topics, cmd.sessionName, dirCreated, writerCreated, nowNs, wallNs);
        case Stop =>
          var s := HandleStop(nowNs, wallNs);
          status := Some(s);
      }
    }

    /** Shutdown: leave the loop and close a writer still open. Afterwards
        every writer ever opened has been closed exactly once. */
    method Shutdown()
      requires Valid() && running
      modifies this
      ensures Valid() && !running && active.None? && failed == old(failed)
      ensures openedLog == old(openedLog)
      ensures closedLog == old(closedLog) + (if old(active).Some? then [old(active).value] else [])
      ensures closedLog == openedLog
    {
      running := false;
      if active.Some? {
        closedLog := closedLog + [active.value];
      }
      // The task's state is dropped when `run` returns.
      active, activePath, startNs := None, None, None;
    }
  }
}
