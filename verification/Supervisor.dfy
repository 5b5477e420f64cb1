/** One service supervisor: what it makes of a worker's outcome, when it starts another, and how long it waits. */
module SupervisorModel {
  import opened Wrappers

  // ----- policy -----

  /** Durations and times are in seconds. */
  const POLL_DELAY := 10
  const LOG_INTERVAL := 300
  const MAX_BACKOFF := 300

  datatype State =
    | Configuration | Session | Storage | Rejected | Version | Occupied | Starting | Network | Failed | Stopping
    | Initialization

  function FromCode(code: int): State {
    match code
    case 10 => Configuration
    case 11 => Session
    case 12 => Storage
    case 13 => Rejected
    case 14 => Version
    case 17 => Network
    case 20 => Initialization
    case _ => Failed
  }

  /** What the local configuration and session look like; none when they cannot be read. */
  type Fingerprint = Option<string>

  predicate AwaitsRepair(reason: State, previous: Fingerprint, current: Fingerprint) {
    reason == Version || (reason == Rejected && previous == current)
  }

  predicate IsTransient(s: State) {
    s == Failed || s == Network
  }

  function Min(a: nat, b: nat): nat {
    if a <= b then a else b
  }

  /** How long to wait now, and the transient delay that the following attempt would wait. */
  function RetryDelay(s: State, backoff: nat): (nat, nat) {
    if IsTransient(s) then (backoff, Min(backoff * 2, MAX_BACKOFF)) else (POLL_DELAY, POLL_DELAY)
  }

  predicate ShouldLog(s: State, previous: State, elapsed: int) {
    s != previous || elapsed >= LOG_INTERVAL
  }

  // ----- memory and history -----

  datatype Block = Block(reason: State, fingerprint: Fingerprint)

  /**
   * A worker was launched, a launch ended with an exit code, or the supervisor, at the given time, settled on a state,
   * perhaps logged it, and waited before its next attempt.
   */
  datatype Event =
    | Started(fingerprint: Fingerprint)
    | Ended(code: int, fingerprint: Fingerprint)
    | Rested(result: State, delay: nat, at: int, logs: bool)

  /** What has happened to a supervisor, latest last. */
  datatype History = Nothing | Then(before: History, event: Event)

  /** What a supervisor remembers; `log` is its history. */
  datatype Memory = Memory(blocked: Option<Block>, state: State, logged: int, backoff: nat, log: History)

  function Initially(now: int): Memory {
    Memory(None, Starting, now - LOG_INTERVAL, POLL_DELAY, Nothing)
  }

  function Blocking(blocked: Option<Block>, current: Fingerprint): Option<State> {
    if blocked.Some? && AwaitsRepair(blocked.value.reason, blocked.value.fingerprint, current)
    then Some(blocked.value.reason)
    else None
  }

  function OnStart(m: Memory, fp: Fingerprint): Memory {
    m.(log := Then(m.log, Started(fp)))
  }

  function OnEnd(m: Memory, fp: Fingerprint, code: int): Memory {
    var result := FromCode(code);
    m.(blocked := if result == Rejected || result == Version then Some(Block(result, fp)) else m.blocked,
       log := Then(m.log, Ended(code, fp)))
  }

  function OnRest(m: Memory, result: State, now: int): Memory {
    var (delay, next) := RetryDelay(result, m.backoff);
    var logs := ShouldLog(result, m.state, now - m.logged);
    m.(logged := if logs then now else m.logged, state := result, backoff := next,
       log := Then(m.log, Rested(result, delay, now, logs)))
  }

  // ----- one supervisor's loop -----

  datatype LockAttempt = Got | Busy | Unavailable

  /** Stopped on request (and not a successful init), or exited with a code. */
  datatype WorkerEnd = StoppedWorker | Exited(code: int)

  /** What the world answers in one turn of the loop. */
  datatype Round = Round(stop: bool, lock: LockAttempt, stopWhileLocking: bool, fingerprint: Fingerprint,
                         worker: WorkerEnd, now: int, stopWhileResting: bool)

  datatype Exit = Running | Finished | Gave(up: State)

  /** One turn: the new memory, and whether the supervisor goes on. */
  function Turn(m: Memory, r: Round, isInit: bool, waiting: bool): (Memory, Exit) {
    if r.stop then (m, if isInit then Gave(Initialization) else Finished)
    else if isInit && r.stopWhileLocking then (m, Gave(Initialization))
    else
      match r.lock
      case Busy => Settle(m, Occupied, r, waiting)
      case Unavailable => Settle(m, Storage, r, waiting)
      case Got =>
        var blocking := Blocking(m.blocked, r.fingerprint);
        if blocking.Some? then Settle(m, blocking.value, r, waiting)
        else AfterWorker(m, r, isInit, waiting)
  }

  function AfterWorker(m: Memory, r: Round, isInit: bool, waiting: bool): (Memory, Exit) {
    var started := OnStart(m, r.fingerprint);
    match r.worker
    case StoppedWorker => (started, if isInit then Gave(Initialization) else Finished)
    case Exited(code) =>
      if code == 0 then (started, Finished)
      else Settle(OnEnd(started, r.fingerprint, code), FromCode(code), r, waiting)
  }

  function Settle(m: Memory, result: State, r: Round, waiting: bool): (Memory, Exit) {
    if !waiting then (m, Gave(result))
    else (OnRest(m, result, r.now), if r.stopWhileResting then Finished else Running)
  }

  function Turns(rounds: seq<Round>, isInit: bool, waiting: bool, now: int): (Memory, Exit) {
    if rounds == [] then (Initially(now), Running)
    else
      var (m, exit) := Turns(rounds[..|rounds| - 1], isInit, waiting, now);
      if exit == Running then Turn(m, rounds[|rounds| - 1], isInit, waiting) else (m, exit)
  }

  lemma {:induction false} TurnsStop(rounds: seq<Round>, k: nat, isInit: bool, waiting: bool, now: int)
    requires k <= |rounds| && Turns(rounds[..k], isInit, waiting, now).1 != Running
    ensures Turns(rounds, isInit, waiting, now) == Turns(rounds[..k], isInit, waiting, now)
  {
    if k < |rounds| {
      var n := |rounds| - 1;
      assert rounds[..n][..k] == rounds[..k];
      TurnsStop(rounds[..n], k, isInit, waiting, now);
    } else {
      assert rounds[..k] == rounds;
    }
  }

  method Supervise(rounds: seq<Round>, isInit: bool, waiting: bool, now: int) returns (m: Memory, exit: Exit)
    ensures (m, exit) == Turns(rounds, isInit, waiting, now)
  {
    var blocked: Option<Block> := None;
    var state := Starting;
    var logged := now - LOG_INTERVAL;
    var backoff: nat := POLL_DELAY;
    m, exit := Initially(now), Running;
    for i := 0 to |rounds|
      invariant exit == Running
      invariant m == Memory(blocked, state, logged, backoff, m.log)
      invariant Turns(rounds[..i], isInit, waiting, now) == (m, Running)
    {
      var r := rounds[i];
      assert rounds[..i + 1][..i] == rounds[..i];
      ghost var turn := Turn(m, r, isInit, waiting);
      assert Turns(rounds[..i + 1], isInit, waiting, now) == turn;
      if turn.1 != Running {
        TurnsStop(rounds, i + 1, isInit, waiting, now);
      }
      if r.stop {
        return m, if isInit then Gave(Initialization) else Finished;
      }
      if isInit && r.stopWhileLocking {
        return m, Gave(Initialization);
      }
      var result := Storage;
      if r.lock == Got {
        var reason := Blocking(blocked, r.fingerprint);
        if reason.Some? {
          result := reason.value;
        } else {
          m := OnStart(m, r.fingerprint);
          match r.worker
          case StoppedWorker =>
            return m, if isInit then Gave(Initialization) else Finished;
          case Exited(code) =>
            if code == 0 {
              return m, Finished;
            }
            result := FromCode(code);
            if result == Rejected || result == Version {
              blocked := Some(Block(result, r.fingerprint));
            }
            m := m.(blocked := blocked, log := Then(m.log, Ended(code, r.fingerprint)));
        }
      } else if r.lock == Busy {
        result := Occupied;
      }
      if !waiting {
        return m, Gave(result);
      }
      var logs := ShouldLog(result, state, r.now - logged);
      if logs {
        logged := r.now;
      }
      state := result;
      var (delay, next) := RetryDelay(result, backoff);
      backoff := next;
      m := Memory(blocked, state, logged, backoff, Then(m.log, Rested(result, delay, r.now, logs)));
      if r.stopWhileResting {
        return m, Finished;
      }
    }
    assert rounds[..|rounds|] == rounds;
  }

  // ----- what the history shows -----

  /** What an exit code other than zero says: eight codes have a meaning, every other one is a plain failure. */
  predicate Says(code: int, s: State) {
    && (s == Configuration <==> code == 10)
    && (s == Session <==> code == 11)
    && (s == Storage <==> code == 12)
    && (s == Rejected <==> code == 13)
    && (s == Version <==> code == 14)
    && (s == Network <==> code == 17)
    && (s == Initialization <==> code == 20)
    && (s == Failed <==> code !in {10, 11, 12, 13, 14, 17, 20})
  }

  lemma CodesSay(code: int)
    ensures Says(code, FromCode(code))
  {
  }

  /** The latest exit that rejected the session (13) or the version (14). */
  function LastRejection(log: History): (r: Option<Event>)
    ensures r.Some? ==> r.value.Ended? && r.value.code in {13, 14}
  {
    match log
    case Nothing => None
    case Then(before, e) => if e.Ended? && (e.code == 13 || e.code == 14) then Some(e) else LastRejection(before)
  }

  /** What is remembered of it. */
  function BlockOf(e: Option<Event>): Option<Block>
    requires e.Some? ==> e.value.Ended?
  {
    if e.Some? then Some(Block(if e.value.code == 14 then Version else Rejected, e.value.fingerprint)) else None
  }

  /** The latest wait. */
  function LastRest(log: History): (r: Option<Event>)
    ensures r.Some? ==> r.value.Rested?
  {
    match log
    case Nothing => None
    case Then(before, e) => if e.Rested? then Some(e) else LastRest(before)
  }

  /** When a line was last logged. */
  function LastLine(log: History): Option<int> {
    match log
    case Nothing => None
    case Then(before, e) => if e.Rested? && e.logs then Some(e.at) else LastLine(before)
  }

  /** Transient failures since the last other result. */
  function Transients(log: History): nat {
    match log
    case Nothing => 0
    case Then(before, e) =>
      if !e.Rested? then Transients(before)
      else if e.result == Failed || e.result == Network then Transients(before) + 1 else 0
  }

  /** The wait after `n` transient failures in a row. */
  function Wait(n: nat): nat {
    if n == 0 then POLL_DELAY else Min(MAX_BACKOFF, 2 * Wait(n - 1))
  }

  function Pow2(n: nat): nat {
    if n == 0 then 1 else 2 * Pow2(n - 1)
  }

  /** Ten seconds doubled n times, up to five minutes. */
  lemma {:induction false} WaitIsCappedPower(n: nat)
    ensures Wait(n) == Min(300, 10 * Pow2(n))
  {
    if n > 0 {
      WaitIsCappedPower(n - 1);
    }
  }

  /** Whether the latest launch has not ended. */
  predicate IsOpen(log: History) {
    log.Then? && log.event.Started?
  }

  /** Nothing is under way. */
  predicate AtRest(log: History) {
    log.Then? ==> log.event.Rested?
  }

  /** A launch is forbidden: the version was rejected, or the session was and looks the same as then. */
  predicate Forbidden(log: History, fp: Fingerprint) {
    var e := LastRejection(log);
    e.Some? && (e.value.code == 14 || e.value.fingerprint == fp)
  }

  /** What a wait may be for: the exit just before it, a lock that was not to be had, or a rejection that still holds. */
  predicate Reasoned(before: History, result: State) {
    if before.Then? && before.event.Ended? then before.event.code != 0 && Says(before.event.code, result)
    else
      || result == Occupied || result == Storage
      || (LastRejection(before).Some? && BlockOf(LastRejection(before)).value.reason == result)
  }

  predicate EventSound(before: History, e: Event) {
    match e
    case Started(fp) => AtRest(before) && !Forbidden(before, fp)
    case Ended(code, fp) => before.Then? && before.event == Started(fp)
    case Rested(result, delay, at, logs) =>
      && Reasoned(before, result)
      && delay == (if result == Failed || result == Network then Wait(Transients(before)) else 10)
      && (logs <==> LastRest(before).None? || LastRest(before).value.result != result
                    || LastLine(before).None? || at - LastLine(before).value >= 300)
  }

  predicate LogSound(log: History) {
    log.Then? ==> LogSound(log.before) && EventSound(log.before, log.event)
  }

  predicate Sound(m: Memory) {
    && m.blocked == BlockOf(LastRejection(m.log))
    && m.backoff == Wait(Transients(m.log))
    && m.state == (if LastRest(m.log).Some? then LastRest(m.log).value.result else Starting)
    && (LastRest(m.log).Some? ==> LastLine(m.log) == Some(m.logged) && m.state != Starting)
    && LogSound(m.log)
  }

  lemma BlockingIsForbidden(m: Memory, fp: Fingerprint)
    requires m.blocked == BlockOf(LastRejection(m.log))
    ensures Blocking(m.blocked, fp).Some? <==> Forbidden(m.log, fp)
    ensures Blocking(m.blocked, fp).Some? ==> Blocking(m.blocked, fp).value == m.blocked.value.reason
  {
  }

  lemma StartSound(m: Memory, fp: Fingerprint)
    requires Sound(m) && AtRest(m.log) && Blocking(m.blocked, fp).None?
    ensures Sound(OnStart(m, fp)) && OnStart(m, fp).log.event == Started(fp)
  {
    BlockingIsForbidden(m, fp);
  }

  lemma EndSound(m: Memory, fp: Fingerprint, code: int)
    requires Sound(m) && m.log.Then? && m.log.event == Started(fp)
    ensures Sound(OnEnd(m, fp, code))
  {
    CodesSay(code);
  }

  lemma RestSound(m: Memory, result: State, now: int)
    requires Sound(m) && Reasoned(m.log, result) && result != Starting
    ensures Sound(OnRest(m, result, now)) && AtRest(OnRest(m, result, now).log)
  {
  }

  lemma SettleSound(m: Memory, result: State, r: Round, waiting: bool)
    requires Sound(m) && Reasoned(m.log, result) && result != Starting
    ensures var (after, exit) := Settle(m, result, r, waiting); Sound(after) && (exit == Running ==> AtRest(after.log))
  {
    RestSound(m, result, r.now);
  }

  lemma {:induction false} TurnsSound(rounds: seq<Round>, isInit: bool, waiting: bool, now: int)
    ensures var (m, exit) := Turns(rounds, isInit, waiting, now); Sound(m) && (exit == Running ==> AtRest(m.log))
  {
    if rounds != [] {
      var before := rounds[..|rounds| - 1];
      TurnsSound(before, isInit, waiting, now);
      var (m, exit) := Turns(before, isInit, waiting, now);
      if exit == Running {
        TurnSound(m, rounds[|rounds| - 1], isInit, waiting);
      }
    }
  }

  lemma TurnSound(m: Memory, r: Round, isInit: bool, waiting: bool)
    requires Sound(m) && AtRest(m.log)
    ensures var (after, exit) := Turn(m, r, isInit, waiting); Sound(after) && (exit == Running ==> AtRest(after.log))
  {
    var blocking := Blocking(m.blocked, r.fingerprint);
    if !r.stop && !(isInit && r.stopWhileLocking) {
      if r.lock == Busy {
        SettleSound(m, Occupied, r, waiting);
      } else if r.lock == Unavailable {
        SettleSound(m, Storage, r, waiting);
      } else if blocking.Some? {
        BlockingIsForbidden(m, r.fingerprint);
        SettleSound(m, blocking.value, r, waiting);
      } else {
        WorkerSound(m, r, isInit, waiting);
      }
    }
  }

  lemma WorkerSound(m: Memory, r: Round, isInit: bool, waiting: bool)
    requires Sound(m) && AtRest(m.log) && Blocking(m.blocked, r.fingerprint).None?
    ensures var (after, exit) := AfterWorker(m, r, isInit, waiting);
            Sound(after) && (exit == Running ==> AtRest(after.log))
  {
    StartSound(m, r.fingerprint);
    if r.worker.Exited? && r.worker.code != 0 {
      var code := r.worker.code;
      var ended := OnEnd(OnStart(m, r.fingerprint), r.fingerprint, code);
      EndSound(OnStart(m, r.fingerprint), r.fingerprint, code);
      CodesSay(code);
      SettleSound(ended, FromCode(code), r, waiting);
    }
  }

  predicate Saw(log: History, e: Event) {
    log.Then? && (log.event == e || Saw(log.before, e))
  }

  /** `part` is what the history was at some time. */
  predicate IsPart(part: History, log: History) {
    part == log || (log.Then? && IsPart(part, log.before))
  }

  lemma {:induction false} PartSound(part: History, log: History)
    requires LogSound(log) && IsPart(part, log)
    ensures LogSound(part)
  {
    if part != log {
      PartSound(part, log.before);
    }
  }

  /** Once a version was rejected, that stays the latest rejection, and no launch is open. */
  lemma {:induction false} VersionStays(log: History, fp: Fingerprint)
    requires LogSound(log) && Saw(log, Ended(14, fp))
    ensures LastRejection(log).Some? && LastRejection(log).value.code == 14
    ensures !IsOpen(log)
  {
    if log.event != Ended(14, fp) {
      VersionStays(log.before, fp);
    }
  }

  /**
   * At every time in every history: no worker starts after one has exited with 14, nor while the fingerprint is the
   * one recorded when one last exited with 13; a wait lasts ten seconds, but min(300, 10·2^k) seconds after a failure
   * with code 17, or one without a meaning of its own, that follows k of that kind; and a line is logged exactly when the state
   * changes or none was logged for five minutes.
   */
  lemma SupervisorHistory(part: History, log: History)
    requires LogSound(log) && IsPart(part, log) && part.Then?
    ensures part.event.Started? ==>
              && (forall fp :: !Saw(part.before, Ended(14, fp)))
              && LastRejection(part.before) != Some(Ended(13, part.event.fingerprint))
    ensures part.event.Rested? ==>
              var failed := part.before.Then? && part.before.event.Ended?
                            && part.before.event.code !in {10, 11, 12, 13, 14, 20};
              part.event.delay == if failed then Min(300, 10 * Pow2(Transients(part.before))) else 10
    ensures part.event.Rested? ==>
              var last, line := LastRest(part.before), LastLine(part.before);
              && (last.None? ==> part.event.logs)
              && (last.Some? && line.Some? ==>
                    (part.event.logs <==> last.value.result != part.event.result || part.event.at >= line.value + 300))
  {
    PartSound(part, log);
    if part.event.Started? {
      StartedRight(part);
    } else if part.event.Rested? {
      WaitIsCappedPower(Transients(part.before));
    }
  }

  lemma StartedRight(part: History)
    requires LogSound(part) && part.Then? && part.event.Started?
    ensures forall fp :: !Saw(part.before, Ended(14, fp))
    ensures LastRejection(part.before) != Some(Ended(13, part.event.fingerprint))
  {
    forall fp ensures !Saw(part.before, Ended(14, fp)) {
      if Saw(part.before, Ended(14, fp)) {
        VersionStays(part.before, fp);
      }
    }
  }

  /** The turn launched a worker. */
  predicate Launches(m: Memory, after: Memory, fp: Fingerprint) {
    IsPart(Then(m.log, Started(fp)), after.log)
  }

  lemma {:induction false} PartShorter(part: History, log: History)
    requires IsPart(part, log)
    ensures Length(part) <= Length(log)
  {
    if part != log {
      PartShorter(part, log.before);
    }
  }

  function Length(log: History): nat {
    if log.Nothing? then 0 else Length(log.before) + 1
  }

  lemma NotLaunched(m: Memory, e: Event, fp: Fingerprint)
    requires !e.Started?
    ensures !IsPart(Then(m.log, Started(fp)), m.log) && !IsPart(Then(m.log, Started(fp)), Then(m.log, e))
  {
    if IsPart(Then(m.log, Started(fp)), m.log) {
      PartShorter(Then(m.log, Started(fp)), m.log);
    }
  }

  /**
   * Exactly when a turn launches a worker: it is not told to stop, gets the lock, and no rejection stands against it.
   */
  lemma LaunchIff(rounds: seq<Round>, r: Round, isInit: bool, waiting: bool, now: int)
    requires Turns(rounds, isInit, waiting, now).1 == Running
    ensures var m := Turns(rounds, isInit, waiting, now).0;
            Launches(m, Turn(m, r, isInit, waiting).0, r.fingerprint)
            <==> !r.stop && !(isInit && r.stopWhileLocking) && r.lock == Got && !Forbidden(m.log, r.fingerprint)
  {
    TurnsSound(rounds, isInit, waiting, now);
    var m := Turns(rounds, isInit, waiting, now).0;
    BlockingIsForbidden(m, r.fingerprint);
    NotLaunched(m, Rested(Failed, 0, 0, true), r.fingerprint);
    var after := Turn(m, r, isInit, waiting).0;
    if after.log.Then? && after.log.before == m.log && after.log.event.Rested? {
      NotLaunched(m, after.log.event, r.fingerprint);
    }
    LaunchedPart(Then(m.log, Started(r.fingerprint)), after.log);
  }

  lemma LaunchedPart(part: History, log: History)
    ensures part == log ==> IsPart(part, log)
    ensures log.Then? && part == log.before ==> IsPart(part, log)
    ensures log.Then? && log.before.Then? && part == log.before.before ==> IsPart(part, log)
  {
  }

  /** How a supervisor ends: the state it gives up with when it does not wait, or the end of its work. */
  lemma ExitIff(rounds: seq<Round>, r: Round, isInit: bool, waiting: bool, now: int)
    requires Turns(rounds, isInit, waiting, now).1 == Running
    ensures var m := Turns(rounds, isInit, waiting, now).0;
            var exit := Turn(m, r, isInit, waiting).1;
            var stopped := r.stop || (isInit && r.stopWhileLocking);
            var launched := !stopped && r.lock == Got && !Forbidden(m.log, r.fingerprint);
            && (stopped || (launched && r.worker.StoppedWorker?) ==>
                  exit == if isInit then Gave(Initialization) else Finished)
            && (launched && r.worker == Exited(0) ==> exit == Finished)
            && (!stopped && r.lock == Busy && !waiting ==> exit == Gave(Occupied))
            && (!stopped && r.lock == Unavailable && !waiting ==> exit == Gave(Storage))
            && (launched && r.worker.Exited? && r.worker.code != 0 && !waiting ==>
                  exit.Gave? && Says(r.worker.code, exit.up))
            && (!stopped && !launched && r.lock == Got && !waiting ==>
                  exit == Gave(BlockOf(LastRejection(m.log)).value.reason))
            && (!stopped && waiting && (launched ==> r.worker.Exited? && r.worker.code != 0) ==>
                  exit == if r.stopWhileResting then Finished else Running)
  {
    TurnsSound(rounds, isInit, waiting, now);
    var m := Turns(rounds, isInit, waiting, now).0;
    BlockingIsForbidden(m, r.fingerprint);
    if r.worker.Exited? {
      CodesSay(r.worker.code);
    }
  }
}
