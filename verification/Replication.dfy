/** The replication protocol end to end: the handler's batches and restarts, driven by the reconnecting event bus. */
module Replication {
  import opened Wrappers
  import opened MailTypes
  import opened ReplicaSpec
  import opened Resolution
  import opened Convergence
  import opened Agreement
  import Bus = EventBus

  /** One application of a log batch by the handler: with which folder list, server answers and fallback order. */
  datatype Application = Application(index: nat, list: seq<FolderInfo>, backend: Backend, order: seq<string>)

  /** The handler applies a batch, or the process is lost and a new one loads the listed folders from disk. */
  datatype Turn = Apply(a: Application) | Restart(list: seq<FolderInfo>)

  /** The batches applied, in order. */
  function Indices(run: seq<Turn>): seq<nat> {
    if run == [] then []
    else Indices(run[..|run| - 1]) + if run[|run| - 1].Apply? then [run[|run| - 1].a.index] else []
  }

  lemma IndicesAppend(run: seq<Turn>, turn: Turn)
    ensures Indices(run + [turn]) == if turn.Apply? then Indices(run) + [turn.a.index] else Indices(run)
  {
    assert (run + [turn])[..|run|] == run;
  }

  /**
   * `a` applies `batch` to `before`, giving `after`; every CREATE in it resolves, so that the batch has the
   * membership effect `effect`.
   */
  ghost predicate Handled(before: Replica, batch: EntityUpdateBatch, effect: Effect, a: Application, after: Replica) {
    && AllResolve(before, a.list, batch, a.backend)
    && Enumerates(a.order, AfterCreates(before, a.list, batch, a.backend).fallback)
    && EffectOf(a.list, batch, a.backend) == effect
    && after == AfterBatch(before, a.list, batch, a.backend, a.order)
  }

  /** What a restart shows: memory is rebuilt from the rows of the listed folders. */
  ghost function Restarted(r: Replica, list: seq<FolderInfo>): Replica {
    Replica(FolderIds(list), Reloaded(r, list), r.rows, r.bodies)
  }

  ghost predicate Turns(before: Replica, turn: Turn, after: Replica, batches: seq<EntityUpdateBatch>,
                        effects: seq<Effect>)
    requires |effects| == |batches|
  {
    match turn
    case Apply(a) => a.index < |batches| && Handled(before, batches[a.index], effects[a.index], a, after)
    case Restart(list) => after == Restarted(before, list)
  }

  /**
   * The handler carries out `run` through the given states. A batch has the same effect each time it is applied:
   * what resolved the first time resolves again.
   */
  ghost predicate Handles(states: seq<Replica>, batches: seq<EntityUpdateBatch>, effects: seq<Effect>,
                          run: seq<Turn>) {
    && |states| == |run| + 1 && |effects| == |batches|
    && forall i :: 0 <= i < |run| ==> Turns(states[i], run[i], states[i + 1], batches, effects)
  }

  /** From truthful answers, the batch leaves each mail it places in one folder at most. */
  ghost predicate KeepsOneFolder(r: Replica, batch: EntityUpdateBatch, a: Application) {
    HonestCreates(batch, a.backend) && Settles(r, a.list, batch, a.backend)
  }

  /** Batches leave each mail in one folder at most, and a restart lists the folders memory had. */
  ghost predicate Survives(r: Replica, turn: Turn, batches: seq<EntityUpdateBatch>) {
    match turn
    case Apply(a) => a.index < |batches| && KeepsOneFolder(r, batches[a.index], a)
    case Restart(list) => r.keys <= FolderIds(list)
  }

  lemma HandledIsEffect(before: Replica, batch: EntityUpdateBatch, effect: Effect, a: Application, after: Replica)
    requires Handled(before, batch, effect, a, after)
    ensures after.members == Resolution.Apply(before.members, effect)
  {
    BatchIsEffect(before, a.list, batch, a.backend, a.order);
  }

  lemma HandledAgrees(before: Replica, batch: EntityUpdateBatch, effect: Effect, a: Application, after: Replica)
    requires Handled(before, batch, effect, a, after) && KeepsOneFolder(before, batch, a) && Agrees(before)
    ensures Agrees(after)
  {
    BatchIsEffect(before, a.list, batch, a.backend, a.order);
    BatchAgreesIff(before, a.list, batch, a.backend);
  }

  lemma HandlesPrefix(states: seq<Replica>, batches: seq<EntityUpdateBatch>, effects: seq<Effect>, run: seq<Turn>,
                      n: nat)
    requires Handles(states, batches, effects, run) && n < |run|
    ensures Handles(states[..n + 1], batches, effects, run[..n])
    ensures states[..n + 1][0] == states[0] && states[..n + 1][n] == states[n]
    ensures Turns(states[n], run[n], states[n + 1], batches, effects)
  {
  }

  lemma TurnKeepsAgreement(before: Replica, turn: Turn, after: Replica, batches: seq<EntityUpdateBatch>,
                           effects: seq<Effect>)
    requires |effects| == |batches| && Turns(before, turn, after, batches, effects)
    requires Survives(before, turn, batches) && Agrees(before)
    ensures Agrees(after)
    ensures after.members == if turn.Apply? then Resolution.Apply(before.members, effects[turn.a.index])
                             else before.members
  {
    match turn
    case Apply(a) =>
      HandledIsEffect(before, batches[a.index], effects[a.index], a, after);
      HandledAgrees(before, batches[a.index], effects[a.index], a, after);
    case Restart(list) =>
      ReloadRestores(before, list);
  }

  lemma ReplayTurn(s: set<Pair>, effects: seq<Effect>, history: seq<nat>, turn: Turn)
    requires Within(history, |effects|) && (turn.Apply? ==> turn.a.index < |effects|)
    ensures turn.Apply? ==> Within(history + [turn.a.index], |effects|)
    ensures turn.Apply? ==> Replay(s, effects, history + [turn.a.index])
                            == Resolution.Apply(Replay(s, effects, history), effects[turn.a.index])
  {
    if turn.Apply? {
      assert (history + [turn.a.index])[..|history|] == history;
    }
  }

  /** Up to the latest restart no batch leaves a mail in two folders, so that memory and disk agree at each restart. */
  ghost predicate RestartsSurvive(states: seq<Replica>, run: seq<Turn>, batches: seq<EntityUpdateBatch>)
    requires |states| == |run| + 1
  {
    forall i, j :: 0 <= i <= j < |run| && run[j].Restart? ==> Agrees(states[0]) && Survives(states[i], run[i], batches)
  }

  lemma {:induction false} AgreesAt(states: seq<Replica>, batches: seq<EntityUpdateBatch>, effects: seq<Effect>,
                                    run: seq<Turn>, n: nat)
    requires Handles(states, batches, effects, run) && n <= |run| && Agrees(states[0])
    requires forall i :: 0 <= i < n ==> Survives(states[i], run[i], batches)
    ensures Agrees(states[n])
  {
    if n > 0 {
      AgreesAt(states, batches, effects, run, n - 1);
      assert Turns(states[n - 1], run[n - 1], states[n], batches, effects);
      TurnKeepsAgreement(states[n - 1], run[n - 1], states[n], batches, effects);
    }
  }

  lemma TurnMembers(states: seq<Replica>, batches: seq<EntityUpdateBatch>, effects: seq<Effect>, run: seq<Turn>, n: nat)
    requires Handles(states, batches, effects, run) && n < |run| && RestartsSurvive(states, run, batches)
    ensures run[n].Apply? ==> run[n].a.index < |effects|
    ensures states[n + 1].members == if run[n].Apply? then Resolution.Apply(states[n].members, effects[run[n].a.index])
                                     else states[n].members
  {
    assert Turns(states[n], run[n], states[n + 1], batches, effects);
    match run[n]
    case Apply(a) => HandledIsEffect(states[n], batches[a.index], effects[a.index], a, states[n + 1]);
    case Restart(list) =>
      assert forall i :: 0 <= i <= n ==> Survives(states[i], run[i], batches);
      AgreesAt(states, batches, effects, run, n);
      ReloadRestores(states[n], list);
  }

  /** One more turn of the run is one more batch of the replay, or none. */
  lemma {:induction false} ReplayMore(s: set<Pair>, before: set<Pair>, after: set<Pair>, effects: seq<Effect>,
                                      run: seq<Turn>)
    requires run != [] && Within(Indices(run[..|run| - 1]), |effects|)
    requires before == Replay(s, effects, Indices(run[..|run| - 1]))
    requires var turn := run[|run| - 1];
             && (turn.Apply? ==> turn.a.index < |effects|)
             && after == if turn.Apply? then Resolution.Apply(before, effects[turn.a.index]) else before
    ensures Within(Indices(run), |effects|) && after == Replay(s, effects, Indices(run))
  {
    var n := |run| - 1;
    assert run == run[..n] + [run[n]];
    IndicesAppend(run[..n], run[n]);
    ReplayTurn(s, effects, Indices(run[..n]), run[n]);
  }

  lemma PrefixSurvives(states: seq<Replica>, run: seq<Turn>, batches: seq<EntityUpdateBatch>, n: nat)
    requires |states| == |run| + 1 && n < |run| && RestartsSurvive(states, run, batches)
    ensures RestartsSurvive(states[..n + 1], run[..n], batches)
  {
    assert forall j :: 0 <= j < n ==> run[..n][j] == run[j] && states[..n + 1][j] == states[j];
  }

  lemma {:induction false} HandleIsReplay(states: seq<Replica>, batches: seq<EntityUpdateBatch>, effects: seq<Effect>,
                                          run: seq<Turn>)
    requires Handles(states, batches, effects, run) && RestartsSurvive(states, run, batches)
    ensures Within(Indices(run), |effects|)
    ensures states[|run|].members == Replay(states[0].members, effects, Indices(run))
    decreases |run|
  {
    if run != [] {
      var n := |run| - 1;
      TurnMembers(states, batches, effects, run, n);
      HandlesPrefix(states, batches, effects, run, n);
      PrefixSurvives(states, run, batches, n);
      HandleIsReplay(states[..n + 1], batches, effects, run[..n]);
      ReplayMore(states[0].members, states[n].members, states[n + 1].members, effects, run);
    }
  }

  /**
   * Replay convergence over every protocol run: let the event bus deliver, drop, reconnect with an undrained
   * channel, crash and restart in any order that never resumes beyond what is queued, memory being rebuilt from disk
   * wherever `run` has a restart. Whenever the last batch applied is the newest one applied so far, memory lists
   * exactly what applying the log once would list.
   */
  lemma ReplicaConverges(log: nat, steps: seq<Bus.Step>, c: Bus.Bus, states: seq<Replica>,
                         batches: seq<EntityUpdateBatch>, effects: seq<Effect>, run: seq<Turn>)
    requires Bus.Reaches(Bus.Initial(log), steps, c, Bus.Careful)
    requires forall k :: 0 <= k < |c.history| ==> c.start <= c.history[k]
    requires Handles(states, batches, effects, run) && RestartsSurvive(states, run, batches)
    requires Indices(run) == Bus.Relative(c.start, c.history) && Indices(run) != []
    requires Bus.End(Indices(run)) == High(Indices(run))
    ensures High(Indices(run)) < |effects|
    ensures states[|run|].members == Fold(states[0].members, effects[..High(Indices(run)) + 1])
  {
    Bus.HistoryGapless(log, steps, c);
    HandleIsReplay(states, batches, effects, run);
    CaughtUp(states[0].members, effects, Indices(run));
  }

  /** Applying a log once and then any suffix of it again, as one reconnect does, changes nothing. */
  lemma SuffixChangesNothing(s: set<Pair>, log: seq<Effect>, k: nat)
    requires k < |log|
    ensures Fold(Fold(s, log), log[k..]) == Fold(s, log)
  {
    var final := Fold(s, log);
    assert log == log[..k] + log[k..];
    forall p ensures p in Fold(final, log[k..]) <==> p in final {
      FoldByVerdict(final, log[k..], p);
      FoldByVerdict(s, log, p);
      LastVerdictConcat(log[..k], log[k..], p);
    }
  }

  /**
   * Without that care the replica can diverge for good, although the cursor stays sound: the channel still holds
   * batches 1 and 2 when a reconnect re-sends 1 and drops; the handler drains 1 and 2 and the next reconnect resumes
   * at 3, so the stale copy of 1 is applied last. If 1 files a mail and 2 removes it, the mail comes back.
   */
  lemma HalfDeliveredReplayDiverges(f: FolderId, m: MailId) returns (steps: seq<Bus.Step>, c: Bus.Bus)
    ensures Bus.Reaches(Bus.Initial(0), steps, c, Bus.NoGap)
    ensures c.log == 4 && c.cursor == Some(4) && c.queue == [] && c.history == [0, 1, 2, 1, 3]
    ensures Bus.AppliedUpTo(c, 4)
    ensures var p := (f, m);
            var none := Effect(None, {}, {}, {});
            var log := [none, none.(adds := {p}), none.(drops := {p}), none];
            && Within(c.history, 4)
            && p in Replay({}, log, c.history)
            && p !in Fold({}, log)
  {
    steps, c := DivergingRun();
    DivergingEffects((f, m));
  }

  lemma DivergingRun() returns (steps: seq<Bus.Step>, c: Bus.Bus)
    ensures Bus.Reaches(Bus.Initial(0), steps, c, Bus.NoGap)
    ensures c.log == 4 && c.cursor == Some(4) && c.queue == [] && c.history == [0, 1, 2, 1, 3]
    ensures Bus.AppliedUpTo(c, 4)
  {
    var mid := Bus.Bus(3, true, 0, 0, false, 2, [1, 2, 1], [0], Some(1), Some(1), false);
    var early := EarlyRun(mid);
    var late;
    late, c := LateRun(mid);
    Bus.Glue(Bus.Initial(0), early, mid, late, c, Bus.NoGap);
    steps := early + late;
    assert c.history[0] == 0 && c.history[1] == 1 && c.history[2] == 2 && c.history[4] == 3;
  }

  lemma EarlyRun(mid: Bus.Bus) returns (steps: seq<Bus.Step>)
    requires mid == Bus.Bus(3, true, 0, 0, false, 2, [1, 2, 1], [0], Some(1), Some(1), false)
    ensures Bus.Reaches(Bus.Initial(0), steps, mid, Bus.NoGap)
  {
    var b0 := Bus.Initial(0);
    var b00 := b0.(listed := true);
    var b1 := b00.(connected := true);
    var b2 := b1.(log := 1);
    var b3 := b2.(log := 2);
    var b4 := b3.(log := 3);
    var b5 := b4.(queue := [0], position := 1);
    var b6 := b5.(queue := [0, 1], position := 2);
    var b7 := b6.(queue := [0, 1, 2], position := 3);
    var b8 := b7.(queue := [1, 2], history := [0], cursor := Some(1), unsaved := true);
    var b9 := b8.(saved := Some(1), unsaved := false);
    var b10 := b9.(connected := false);
    var b11 := b10.(connected := true, position := 1);
    var b12 := b11.(queue := [1, 2, 1], position := 2);
    steps := Bus.Before(b12, Bus.Disconnect, mid, [], mid, Bus.NoGap);
    steps := Bus.Before(b11, Bus.Deliver, b12, steps, mid, Bus.NoGap);
    steps := Bus.Before(b10, Bus.Connect, b11, steps, mid, Bus.NoGap);
    steps := Bus.Before(b9, Bus.Disconnect, b10, steps, mid, Bus.NoGap);
    steps := Bus.Before(b8, Bus.Save, b9, steps, mid, Bus.NoGap);
    steps := Bus.Before(b7, Bus.ApplyNext, b8, steps, mid, Bus.NoGap);
    steps := Bus.Before(b6, Bus.Deliver, b7, steps, mid, Bus.NoGap);
    steps := Bus.Before(b5, Bus.Deliver, b6, steps, mid, Bus.NoGap);
    steps := Bus.Before(b4, Bus.Deliver, b5, steps, mid, Bus.NoGap);
    steps := Bus.Before(b3, Bus.Append, b4, steps, mid, Bus.NoGap);
    steps := Bus.Before(b2, Bus.Append, b3, steps, mid, Bus.NoGap);
    steps := Bus.Before(b1, Bus.Append, b2, steps, mid, Bus.NoGap);
    steps := Bus.Before(b00, Bus.Connect, b1, steps, mid, Bus.NoGap);
    steps := Bus.Before(b0, Bus.List, b00, steps, mid, Bus.NoGap);
  }

  lemma LateRun(mid: Bus.Bus) returns (steps: seq<Bus.Step>, c: Bus.Bus)
    requires mid == Bus.Bus(3, true, 0, 0, false, 2, [1, 2, 1], [0], Some(1), Some(1), false)
    ensures Bus.Reaches(mid, steps, c, Bus.NoGap)
    ensures c == Bus.Bus(4, true, 0, 0, true, 4, [], [0, 1, 2, 1, 3], Some(4), Some(2), true)
  {
    var b14 := mid.(queue := [2, 1], history := [0, 1], cursor := Some(2), unsaved := true);
    var b15 := b14.(saved := Some(2), unsaved := false);
    var b16 := b15.(queue := [1], history := [0, 1, 2], cursor := Some(3), unsaved := true);
    var b17 := b16.(saved := Some(3), unsaved := false);
    var b18 := b17.(connected := true, position := 3);
    var b19 := b18.(log := 4);
    var b20 := b19.(queue := [1, 3], position := 4);
    var b21 := b20.(queue := [3], history := [0, 1, 2, 1], cursor := Some(2), unsaved := true);
    var b22 := b21.(saved := Some(2), unsaved := false);
    c := b22.(queue := [], history := [0, 1, 2, 1, 3], cursor := Some(4), unsaved := true);
    steps := Bus.Before(b22, Bus.ApplyNext, c, [], c, Bus.NoGap);
    steps := Bus.Before(b21, Bus.Save, b22, steps, c, Bus.NoGap);
    steps := Bus.Before(b20, Bus.ApplyNext, b21, steps, c, Bus.NoGap);
    steps := Bus.Before(b19, Bus.Deliver, b20, steps, c, Bus.NoGap);
    steps := Bus.Before(b18, Bus.Append, b19, steps, c, Bus.NoGap);
    steps := Bus.Before(b17, Bus.Connect, b18, steps, c, Bus.NoGap);
    steps := Bus.Before(b16, Bus.Save, b17, steps, c, Bus.NoGap);
    steps := Bus.Before(b15, Bus.ApplyNext, b16, steps, c, Bus.NoGap);
    steps := Bus.Before(b14, Bus.Save, b15, steps, c, Bus.NoGap);
    steps := Bus.Before(mid, Bus.ApplyNext, b14, steps, c, Bus.NoGap);
  }

  lemma DivergingEffects(p: Pair)
    ensures var none := Effect(None, {}, {}, {});
            var log := [none, none.(adds := {p}), none.(drops := {p}), none];
            p in Replay({}, log, [0, 1, 2, 1, 3]) && p !in Fold({}, log)
  {
    var none := Effect(None, {}, {}, {});
    var log := [none, none.(adds := {p}), none.(drops := {p}), none];
    var history: seq<nat> := [0, 1, 2, 1, 3];
    var early := history[..4];
    assert early[3] == 1 && history[4] == 3;
    ApplyByVerdict(Replay({}, log, early[..3]), log[1], p);
    ApplyByVerdict(Replay({}, log, early), log[3], p);
    FoldByVerdict({}, log, p);
    assert Verdict(log[3], p).None? && LastVerdict(log[..3], p) == Some(false) by {
      assert log[..3][2] == log[2];
    }
  }
}
