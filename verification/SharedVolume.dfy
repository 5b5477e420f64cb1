/**
 * Any number of supervisors on one data volume. The volume lock belongs to an open file that a supervisor shares with
 * the worker it launches, so it is free only when neither holds it any more, even after a supervisor has crashed.
 */
module SharedVolume {
  import opened Wrappers
  import opened SupervisorModel

  datatype Phase =
    | Top
    | Holding
    | Working(worker: nat, fp: Fingerprint)
    | Reaped(code: int, fp: Fingerprint)
    | Stopped
    | Resting(until: int)
    | Gone

  datatype Sup = Sup(waiting: bool, memory: Memory, phase: Phase)

  datatype Holder = BySupervisor(id: nat) | ByWorker(id: nat)

  /** A worker is alive, or has exited with a code that nobody has collected yet. */
  datatype Process = Alive | Zombie(code: int)

  datatype World = World(clock: int, sups: map<nat, Sup>, workers: map<nat, Process>, holders: set<Holder>, next: nat)

  const EMPTY := World(0, map[], map[], {}, 0)

  datatype Label =
    | Tick(seconds: nat)
    | Launch(id: nat, waiting: bool)
    | TryLock(id: nat, accessible: bool, again: bool)
    | Judge(id: nat, fp: Fingerprint, launches: bool)
    | Exits(worker: nat, code: int)
    | Collect(id: nat)
    | Kill(id: nat)
    | Conclude(id: nat)
    | Wake(id: nat)
    | Quit(id: nat)
    | Crash(id: nat)

  function Put(w: World, id: nat, s: Sup): World {
    w.(sups := w.sups[id := s])
  }

  function Release(w: World, id: nat): World {
    w.(holders := w.holders - {BySupervisor(id)})
  }

  /** After a result: wait, or give up when not told to wait. */
  function Rest(w: World, id: nat, s: Sup, result: State): World {
    if s.waiting then
      var m := OnRest(s.memory, result, w.clock);
      Put(w, id, s.(memory := m, phase := Resting(w.clock + RetryDelay(result, s.memory.backoff).0)))
    else Put(w, id, s.(phase := Gone))
  }

  function Start(w: World, id: nat, s: Sup, fp: Fingerprint): World {
    Put(w, id, s.(memory := OnStart(s.memory, fp), phase := Working(w.next, fp)))
      .(workers := w.workers[w.next := Alive], holders := w.holders + {ByWorker(w.next)}, next := w.next + 1)
  }

  /** One atomic step of supervisor, worker or operating system, if it is possible. */
  function Do(w: World, l: Label): Option<World> {
    match l
    case Tick(n) => Some(w.(clock := w.clock + n))
    case Launch(id, waiting) =>
      if id in w.sups then None else Some(Put(w, id, Sup(waiting, Initially(w.clock), Top)))
    case Exits(p, code) =>
      if p in w.workers && w.workers[p].Alive? then
        Some(w.(workers := w.workers[p := Zombie(code)], holders := w.holders - {ByWorker(p)}))
      else None
    case _ => if l.id in w.sups then Act(w, l, w.sups[l.id]) else None
  }

  function Act(w: World, l: Label, s: Sup): Option<World>
    requires !l.Tick? && !l.Launch? && !l.Exits? && l.id in w.sups && w.sups[l.id] == s
  {
    match (l, s.phase)
    case (TryLock(id, accessible, again), Top) =>
      if !accessible then Some(Rest(w, id, s, Storage))
      else if w.holders == {} then Some(Put(w, id, s.(phase := Holding)).(holders := {BySupervisor(id)}))
      else if again then Some(w)
      else Some(Rest(w, id, s, Occupied))
    case (Judge(id, fp, launches), Holding) =>
      var blocking := Blocking(s.memory.blocked, fp);
      if blocking.Some? then Some(Rest(Release(w, id), id, s, blocking.value))
      else if launches then Some(Start(w, id, s, fp))
      else Some(Put(w, id, s.(memory := OnStart(s.memory, fp), phase := Reaped(18, fp))))
    case (Collect(id), Working(p, fp)) =>
      if p in w.workers && w.workers[p].Zombie? then
        Some(Put(w, id, s.(phase := Reaped(w.workers[p].code, fp))).(workers := w.workers - {p}))
      else None
    case (Kill(id), Working(p, _)) =>
      Some(Put(w, id, s.(phase := Stopped)).(workers := w.workers - {p}, holders := w.holders - {ByWorker(p)}))
    case (Conclude(id), Reaped(code, fp)) =>
      if code == 0 then Some(Put(Release(w, id), id, s.(phase := Gone)))
      else Some(Rest(Release(w, id), id, s.(memory := OnEnd(s.memory, fp, code)), FromCode(code)))
    case (Conclude(id), Stopped) => Some(Put(Release(w, id), id, s.(phase := Gone)))
    case (Wake(id), Resting(until)) => if w.clock >= until then Some(Put(w, id, s.(phase := Top))) else None
    case (Quit(id), Top) => Some(Put(w, id, s.(phase := Gone)))
    case (Quit(id), Resting(_)) => Some(Put(w, id, s.(phase := Gone)))
    case (Crash(id), _) => Some(Put(Release(w, id), id, s.(phase := Gone)))
    case _ => None
  }

  function Run(w: World, ls: seq<Label>): Option<World>
    decreases |ls|
  {
    if ls == [] then Some(w)
    else
      var t := Do(w, ls[0]);
      if t.Some? then Run(t.value, ls[1..]) else None
  }

  // ----- invariant -----

  predicate Owns(p: Phase) {
    p.Holding? || p.Working? || p.Reaped? || p.Stopped?
  }

  /** How a supervisor's phase shows in the lock. */
  predicate PhaseSound(w: World, id: nat, p: Phase) {
    if p.Working? then
      && p.worker in w.workers
      && w.holders == if w.workers[p.worker].Alive? then {BySupervisor(id), ByWorker(p.worker)} else {BySupervisor(id)}
    else if Owns(p) then w.holders == {BySupervisor(id)}
    else BySupervisor(id) !in w.holders
  }

  ghost predicate Inv(w: World) {
    && (forall id :: id in w.sups ==> PhaseSound(w, id, w.sups[id].phase))
    && (forall p :: p in w.workers ==> p < w.next && (w.workers[p].Alive? <==> ByWorker(p) in w.holders))
    && (forall h :: h in w.holders ==> if h.ByWorker? then h.id in w.workers else h.id in w.sups)
    && (forall p, q :: ByWorker(p) in w.holders && ByWorker(q) in w.holders ==> p == q)
  }

  /** Steps that touch neither the lock nor the workers. */
  lemma PutInv(w: World, id: nat, s: Sup)
    requires Inv(w) && id in w.sups && !Owns(w.sups[id].phase) && !Owns(s.phase)
    ensures Inv(Put(w, id, s))
  {
    var t := Put(w, id, s);
    assert PhaseSound(w, id, w.sups[id].phase);
    forall i | i in t.sups ensures PhaseSound(t, i, t.sups[i].phase) {
      assert i != id ==> PhaseSound(w, i, w.sups[i].phase);
    }
  }

  /** A supervisor that owned the lock alone gives it up. */
  lemma ReleaseInv(w: World, id: nat, s: Sup)
    requires Inv(w) && id in w.sups && !Owns(s.phase)
    ensures Inv(Put(Release(w, id), id, s))
  {
    var t := Put(Release(w, id), id, s);
    forall i | i in t.sups ensures PhaseSound(t, i, t.sups[i].phase) {
      assert PhaseSound(w, i, w.sups[i].phase) && PhaseSound(w, id, w.sups[id].phase);
      if i != id && Owns(w.sups[i].phase) {
        assert BySupervisor(i) in w.holders;
        assert BySupervisor(id) !in w.holders;
        assert t.holders == w.holders;
      }
    }
  }

  lemma RestInv(w: World, id: nat, s: Sup, result: State)
    requires Inv(w) && id in w.sups
    ensures Inv(Rest(Release(w, id), id, s, result))
  {
    ReleaseInv(w, id, s.(phase := Gone));
    ReleaseInv(w, id, s.(memory := OnRest(s.memory, result, w.clock),
                         phase := Resting(w.clock + RetryDelay(result, s.memory.backoff).0)));
  }

  lemma TopRestInv(w: World, id: nat, s: Sup, result: State)
    requires Inv(w) && id in w.sups && w.sups[id] == s && s.phase.Top?
    ensures Inv(Rest(w, id, s, result))
  {
    assert PhaseSound(w, id, s.phase);
    assert w.holders - {BySupervisor(id)} == w.holders;
    assert Release(w, id) == w;
    RestInv(w, id, s, result);
  }

  lemma LockInv(w: World, id: nat)
    requires Inv(w) && id in w.sups && w.sups[id].phase.Top? && w.holders == {}
    ensures Inv(Put(w, id, w.sups[id].(phase := Holding)).(holders := {BySupervisor(id)}))
  {
    var t := Put(w, id, w.sups[id].(phase := Holding)).(holders := {BySupervisor(id)});
    forall i | i in t.sups ensures PhaseSound(t, i, t.sups[i].phase) {
      assert PhaseSound(w, i, w.sups[i].phase);
    }
  }

  /** The owner of the lock is the only one. */
  lemma OwnerAlone(w: World, id: nat, other: nat)
    requires Inv(w) && id in w.sups && other in w.sups && Owns(w.sups[id].phase) && Owns(w.sups[other].phase)
    ensures id == other
  {
    assert PhaseSound(w, id, w.sups[id].phase) && PhaseSound(w, other, w.sups[other].phase);
    assert BySupervisor(id) in w.holders && BySupervisor(other) in w.holders;
  }

  lemma StartInv(w: World, id: nat, fp: Fingerprint)
    requires Inv(w) && id in w.sups && w.sups[id].phase.Holding?
    ensures Inv(Start(w, id, w.sups[id], fp))
  {
    var s := w.sups[id];
    var t := Start(w, id, s, fp);
    assert PhaseSound(w, id, s.phase);
    assert t.holders == {BySupervisor(id), ByWorker(w.next)};
    forall i | i in t.sups ensures PhaseSound(t, i, t.sups[i].phase) {
      if i != id {
        assert PhaseSound(w, i, w.sups[i].phase);
        if Owns(w.sups[i].phase) {
          OwnerAlone(w, id, i);
        }
      }
    }
  }

  /** A change of the owner that leaves it the only holder. */
  lemma KeepInv(w: World, id: nat, s: Sup, workers: map<nat, Process>, holders: set<Holder>)
    requires Inv(w) && id in w.sups && Owns(w.sups[id].phase) && Owns(s.phase) && !s.phase.Working?
    requires holders == {BySupervisor(id)}
    requires forall p :: p in workers ==> p in w.workers && workers[p] == w.workers[p] && !workers[p].Alive?
    ensures Inv(Put(w, id, s).(workers := workers, holders := holders))
  {
    var t := Put(w, id, s).(workers := workers, holders := holders);
    forall i | i in t.sups ensures PhaseSound(t, i, t.sups[i].phase) {
      if i != id {
        assert PhaseSound(w, i, w.sups[i].phase);
        if Owns(w.sups[i].phase) {
          OwnerAlone(w, id, i);
        }
      }
    }
  }

  lemma ExitsInv(w: World, p: nat, code: int)
    requires Inv(w) && p in w.workers && w.workers[p].Alive?
    ensures Inv(w.(workers := w.workers[p := Zombie(code)], holders := w.holders - {ByWorker(p)}))
  {
    var t := w.(workers := w.workers[p := Zombie(code)], holders := w.holders - {ByWorker(p)});
    forall i | i in t.sups ensures PhaseSound(t, i, t.sups[i].phase) {
      assert PhaseSound(w, i, w.sups[i].phase);
      var phase := w.sups[i].phase;
      if phase.Working? {
        assert ByWorker(p) in w.holders;
        assert phase.worker == p;
      } else if Owns(phase) {
        assert ByWorker(p) in w.holders;
      }
    }
  }

  lemma LaunchInv(w: World, id: nat, waiting: bool)
    requires Inv(w) && id !in w.sups
    ensures Inv(Put(w, id, Sup(waiting, Initially(w.clock), Top)))
  {
    var t := Put(w, id, Sup(waiting, Initially(w.clock), Top));
    assert BySupervisor(id) !in w.holders;
    forall i | i in t.sups ensures PhaseSound(t, i, t.sups[i].phase) {
      assert i != id ==> PhaseSound(w, i, w.sups[i].phase);
    }
  }

  lemma JudgeInv(w: World, id: nat, fp: Fingerprint, launches: bool)
    requires Inv(w) && id in w.sups && w.sups[id].phase.Holding?
    ensures Inv(Act(w, Judge(id, fp, launches), w.sups[id]).value)
  {
    var s := w.sups[id];
    assert PhaseSound(w, id, s.phase);
    var blocking := Blocking(s.memory.blocked, fp);
    if blocking.Some? {
      RestInv(w, id, s, blocking.value);
    } else if launches {
      StartInv(w, id, fp);
    } else {
      KeepInv(w, id, s.(memory := OnStart(s.memory, fp), phase := Reaped(18, fp)), w.workers, w.holders);
    }
  }

  lemma WorkingInv(w: World, l: Label)
    requires Inv(w) && (l.Collect? || l.Kill?) && l.id in w.sups && w.sups[l.id].phase.Working?
    requires Act(w, l, w.sups[l.id]).Some?
    ensures Inv(Act(w, l, w.sups[l.id]).value)
  {
    var s := w.sups[l.id];
    var p := s.phase.worker;
    assert PhaseSound(w, l.id, s.phase);
    assert forall q :: q in w.workers && w.workers[q].Alive? ==> ByWorker(q) in w.holders;
    if l.Collect? {
      KeepInv(w, l.id, s.(phase := Reaped(w.workers[p].code, s.phase.fp)), w.workers - {p}, w.holders);
    } else {
      assert w.holders - {ByWorker(p)} == {BySupervisor(l.id)};
      KeepInv(w, l.id, s.(phase := Stopped), w.workers - {p}, w.holders - {ByWorker(p)});
    }
  }

  lemma ConcludeInv(w: World, id: nat)
    requires Inv(w) && id in w.sups && Act(w, Conclude(id), w.sups[id]).Some?
    ensures Inv(Act(w, Conclude(id), w.sups[id]).value)
  {
    var s := w.sups[id];
    assert PhaseSound(w, id, s.phase);
    ReleaseInv(w, id, s.(phase := Gone));
    if s.phase.Reaped? && s.phase.code != 0 {
      var result := FromCode(s.phase.code);
      RestInv(w, id, s.(memory := OnEnd(s.memory, s.phase.fp, s.phase.code)), result);
    }
  }

  lemma TryLockInv(w: World, l: Label)
    requires Inv(w) && l.TryLock? && l.id in w.sups && w.sups[l.id].phase.Top?
    ensures Inv(Act(w, l, w.sups[l.id]).value)
  {
    TopRestInv(w, l.id, w.sups[l.id], Storage);
    TopRestInv(w, l.id, w.sups[l.id], Occupied);
    if w.holders == {} {
      LockInv(w, l.id);
    }
  }

  lemma ActInv(w: World, l: Label)
    requires Inv(w) && !l.Tick? && !l.Launch? && !l.Exits? && l.id in w.sups && Act(w, l, w.sups[l.id]).Some?
    ensures Inv(Act(w, l, w.sups[l.id]).value)
  {
    var s := w.sups[l.id];
    assert PhaseSound(w, l.id, s.phase);
    match l
    case TryLock(_, _, _) => TryLockInv(w, l);
    case Judge(id, fp, launches) => JudgeInv(w, id, fp, launches);
    case Collect(_) => WorkingInv(w, l);
    case Kill(_) => WorkingInv(w, l);
    case Conclude(id) => ConcludeInv(w, id);
    case Wake(id) => PutInv(w, id, s.(phase := Top));
    case Quit(id) => PutInv(w, id, s.(phase := Gone));
    case Crash(id) => ReleaseInv(w, id, s.(phase := Gone));
  }

  lemma TickInv(w: World, n: nat)
    requires Inv(w)
    ensures Inv(w.(clock := w.clock + n))
  {
    var t := w.(clock := w.clock + n);
    assert forall id :: id in t.sups ==> PhaseSound(w, id, w.sups[id].phase);
  }

  lemma StepInv(w: World, l: Label)
    requires Inv(w) && Do(w, l).Some?
    ensures Inv(Do(w, l).value)
  {
    match l
    case Tick(n) => TickInv(w, n);
    case Launch(id, waiting) => LaunchInv(w, id, waiting);
    case Exits(p, code) => ExitsInv(w, p, code);
    case _ => ActInv(w, l);
  }

  lemma {:induction false} RunInv(w: World, ls: seq<Label>)
    requires Inv(w) && Run(w, ls).Some?
    ensures Inv(Run(w, ls).value)
    decreases |ls|
  {
    if ls != [] {
      StepInv(w, ls[0]);
      RunInv(Do(w, ls[0]).value, ls[1..]);
    }
  }

  // ----- histories -----

  /** Every supervisor's history keeps the rules, and a launch is open while its worker is there. */
  ghost predicate Histories(w: World) {
    forall id :: id in w.sups ==> HistorySound(w.sups[id])
  }

  /** A supervisor that waits does so until the delay of its latest event is over. */
  predicate Rests(s: Sup) {
    s.phase.Resting? ==>
      && s.memory.log.Then? && s.memory.log.event.Rested?
      && s.phase.until == s.memory.log.event.at + s.memory.log.event.delay
  }

  predicate HistorySound(s: Sup) {
    && Sound(s.memory)
    && (s.phase.Working? || s.phase.Reaped? ==> s.memory.log.Then? && s.memory.log.event == Started(s.phase.fp))
    && (s.phase.Top? || s.phase.Holding? || s.phase.Resting? ==> AtRest(s.memory.log))
    && Rests(s)
  }

  /** A step that changes one supervisor. */
  lemma OneHistory(w: World, t: World, id: nat)
    requires Histories(w) && id in t.sups && HistorySound(t.sups[id])
    requires forall i :: i in t.sups && i != id ==> i in w.sups && t.sups[i] == w.sups[i]
    ensures Histories(t)
  {
  }

  lemma RestHistory(w: World, id: nat, s: Sup, result: State)
    requires Sound(s.memory) && Reasoned(s.memory.log, result) && result != Starting
    ensures HistorySound(Rest(w, id, s, result).sups[id])
  {
    RestSound(s.memory, result, w.clock);
  }

  lemma JudgeHistory(w: World, id: nat, fp: Fingerprint, launches: bool)
    requires id in w.sups && w.sups[id].phase.Holding? && HistorySound(w.sups[id])
    ensures HistorySound(Act(w, Judge(id, fp, launches), w.sups[id]).value.sups[id])
  {
    var s := w.sups[id];
    var blocking := Blocking(s.memory.blocked, fp);
    if blocking.Some? {
      BlockingIsForbidden(s.memory, fp);
      RestHistory(Release(w, id), id, s, blocking.value);
    } else {
      StartSound(s.memory, fp);
    }
  }

  lemma ConcludeHistory(w: World, id: nat)
    requires id in w.sups && HistorySound(w.sups[id]) && Act(w, Conclude(id), w.sups[id]).Some?
    ensures HistorySound(Act(w, Conclude(id), w.sups[id]).value.sups[id])
  {
    var s := w.sups[id];
    if s.phase.Reaped? && s.phase.code != 0 {
      var code := s.phase.code;
      EndSound(s.memory, s.phase.fp, code);
      CodesSay(code);
      RestHistory(Release(w, id), id, s.(memory := OnEnd(s.memory, s.phase.fp, code)), FromCode(code));
    }
  }

  lemma ActHistory(w: World, l: Label)
    requires !l.Tick? && !l.Launch? && !l.Exits? && l.id in w.sups && HistorySound(w.sups[l.id])
    requires Act(w, l, w.sups[l.id]).Some?
    ensures HistorySound(Act(w, l, w.sups[l.id]).value.sups[l.id])
  {
    var s := w.sups[l.id];
    match l
    case TryLock(id, _, _) =>
      RestHistory(w, id, s, Storage);
      RestHistory(w, id, s, Occupied);
    case Judge(id, fp, launches) => JudgeHistory(w, id, fp, launches);
    case Conclude(id) => ConcludeHistory(w, id);
    case _ =>
  }

  lemma ActChangesOne(w: World, l: Label, i: nat)
    requires !l.Tick? && !l.Launch? && !l.Exits? && l.id in w.sups && Act(w, l, w.sups[l.id]).Some?
    ensures var t := Act(w, l, w.sups[l.id]).value;
            t.sups.Keys == w.sups.Keys && (i in w.sups && i != l.id ==> t.sups[i] == w.sups[i])
  {
  }

  lemma StepHistories(w: World, l: Label)
    requires Histories(w) && Do(w, l).Some?
    ensures Histories(Do(w, l).value)
  {
    var t := Do(w, l).value;
    if l.Launch? {
      assert Wait(0) == POLL_DELAY;
      OneHistory(w, t, l.id);
    } else if !l.Tick? && !l.Exits? {
      forall i ensures t.sups.Keys == w.sups.Keys && (i in w.sups && i != l.id ==> t.sups[i] == w.sups[i]) {
        ActChangesOne(w, l, i);
      }
      ActHistory(w, l);
      OneHistory(w, t, l.id);
    }
  }

  lemma {:induction false} RunHistories(w: World, ls: seq<Label>)
    requires Histories(w) && Run(w, ls).Some?
    ensures Histories(Run(w, ls).value)
    decreases |ls|
  {
    if ls != [] {
      StepHistories(w, ls[0]);
      RunHistories(Do(w, ls[0]).value, ls[1..]);
    }
  }

  /**
   * In every run, with supervisors that start, stop and crash at any point: at most one worker is alive, and every
   * supervisor's history keeps the rules of its policy.
   */
  lemma OneWorker(ls: seq<Label>)
    requires Run(EMPTY, ls).Some?
    ensures var w := Run(EMPTY, ls).value;
            && (forall p, q :: p in w.workers && q in w.workers && w.workers[p].Alive? && w.workers[q].Alive? ==> p == q)
            && (forall id :: id in w.sups ==> LogSound(w.sups[id].memory.log) && Rests(w.sups[id]))
  {
    RunInv(EMPTY, ls);
    RunHistories(EMPTY, ls);
    var w := Run(EMPTY, ls).value;
    assert forall id :: id in w.sups ==> HistorySound(w.sups[id]);
    assert forall p :: p in w.workers && w.workers[p].Alive? ==> ByWorker(p) in w.holders;
  }

  /** A worker outlives a crashed supervisor, and as long as it does nobody else gets the lock. */
  lemma OrphanKeepsLock(ls: seq<Label>, id: nat, p: nat)
    requires Run(EMPTY, ls).Some?
    requires var w := Run(EMPTY, ls).value; p in w.workers && w.workers[p].Alive? && id in w.sups && w.sups[id].phase.Top?
    ensures var w := Run(EMPTY, ls).value;
            Do(w, TryLock(id, true, false)) == Some(Rest(w, id, w.sups[id], Occupied))
  {
    RunInv(EMPTY, ls);
    var w := Run(EMPTY, ls).value;
    assert ByWorker(p) in w.holders;
  }

  /**
   * In every run, a supervisor that looks for the lock gets it exactly when no worker is alive, not even one that
   * outlived its supervisor, and no other supervisor stands between taking the lock and releasing it.
   */
  lemma LockFreeIff(ls: seq<Label>, id: nat)
    requires Run(EMPTY, ls).Some? && id in Run(EMPTY, ls).value.sups && Run(EMPTY, ls).value.sups[id].phase.Top?
    ensures var w := Run(EMPTY, ls).value;
            var t := Do(w, TryLock(id, true, false));
            t.Some? && (t.value.sups[id].phase.Holding?
                        <==> (forall p :: p in w.workers ==> !w.workers[p].Alive?)
                             && (forall i :: i in w.sups ==> !Owns(w.sups[i].phase)))
  {
    RunInv(EMPTY, ls);
    var w := Run(EMPTY, ls).value;
    HoldersAre(w);
    TryOnce(w, id);
  }

  lemma TryOnce(w: World, id: nat)
    requires id in w.sups && w.sups[id].phase.Top?
    ensures var t := Do(w, TryLock(id, true, false));
            t.Some? && (t.value.sups[id].phase.Holding? <==> w.holders == {})
  {
  }

  lemma HoldersAre(w: World)
    requires Inv(w)
    ensures w.holders == {} <==> (forall p :: p in w.workers ==> !w.workers[p].Alive?)
                                 && (forall i :: i in w.sups ==> !Owns(w.sups[i].phase))
  {
    if w.holders == {} {
      forall i | i in w.sups ensures !Owns(w.sups[i].phase) {
        assert PhaseSound(w, i, w.sups[i].phase);
        assert BySupervisor(i) !in w.holders;
      }
      forall p | p in w.workers ensures !w.workers[p].Alive? {
        assert ByWorker(p) !in w.holders;
      }
    }
    if h :| h in w.holders {
      if h.BySupervisor? {
        assert PhaseSound(w, h.id, w.sups[h.id].phase);
      }
    }
  }

  /** A supervisor that rests does so until its time, unless it is stopped or crashes. */
  lemma {:induction false} RestsUntilDue(w: World, ls: seq<Label>, id: nat, until: int)
    requires Run(w, ls).Some? && id in w.sups && w.sups[id].phase == Resting(until)
    requires Quit(id) !in ls && Crash(id) !in ls && Run(w, ls).value.clock < until
    ensures id in Run(w, ls).value.sups && Run(w, ls).value.sups[id].phase == Resting(until)
    decreases |ls|
  {
    if ls != [] {
      ClockRuns(Do(w, ls[0]).value, ls[1..]);
      StaysAtRest(w, ls[0], id, until);
      RestsUntilDue(Do(w, ls[0]).value, ls[1..], id, until);
    }
  }

  lemma StaysAtRest(w: World, l: Label, id: nat, until: int)
    requires Do(w, l).Some? && id in w.sups && w.sups[id].phase == Resting(until)
    requires l != Quit(id) && l != Crash(id) && Do(w, l).value.clock < until
    ensures id in Do(w, l).value.sups && Do(w, l).value.sups[id].phase == Resting(until)
  {
    if !l.Tick? && !l.Launch? && !l.Exits? {
      ActChangesOne(w, l, id);
    }
  }

  lemma {:induction false} ClockRuns(w: World, ls: seq<Label>)
    requires Run(w, ls).Some?
    ensures w.clock <= Run(w, ls).value.clock
    decreases |ls|
  {
    if ls != [] {
      ClockStep(w, ls[0]);
      ClockRuns(Do(w, ls[0]).value, ls[1..]);
    }
  }

  lemma ClockStep(w: World, l: Label)
    requires Do(w, l).Some?
    ensures w.clock <= Do(w, l).value.clock
  {
  }

  /** A worker that cannot be started counts as one that exited with 18, a plain failure. */
  lemma UnstartedWorkerFails(w: World, id: nat, fp: Fingerprint)
    requires id in w.sups && w.sups[id].waiting && w.sups[id].phase.Holding?
    requires Blocking(w.sups[id].memory.blocked, fp).None?
    ensures var t := Run(w, [Judge(id, fp, false), Conclude(id)]); t.Some? && id in t.value.sups
    ensures var log := Run(w, [Judge(id, fp, false), Conclude(id)]).value.sups[id].memory.log;
            && log.Then? && log.event.Rested? && log.event.result == Failed
            && log.before == Then(Then(w.sups[id].memory.log, Started(fp)), Ended(18, fp))
  {
    var ls := [Judge(id, fp, false), Conclude(id)];
    assert ls[1..] == [Conclude(id)] && ls[1..][1..] == [];
    var t := Do(w, ls[0]).value;
    assert Run(t, [Conclude(id)]) == Do(t, Conclude(id));
  }
}
