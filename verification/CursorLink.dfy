/**
 * The cursor maps of the program and the cursor of the catch-up protocol: what `EventHandler` writes under a group's
 * key is the id of the batch that `EventBus` counts up to.
 */
module CursorLink {
  import opened Wrappers
  import opened EventHandler
  import Bus = EventBus

  /** Under the group's key stands the id of the last batch below the cursor, or nothing while there is no cursor. */
  predicate Names(log: seq<string>, cursor: Option<nat>, ids: map<string, string>, group: string) {
    match cursor
    case None => group !in ids
    case Some(n) => 0 < n <= |log| && group in ids && ids[group] == log[n - 1]
  }

  /** `log`: ids of the group's batches; `ids` and `saved`: the cursor maps in memory and on disk. */
  datatype Joint = Joint(log: seq<string>, bus: Bus.Bus, ids: map<string, string>, saved: map<string, string>)

  predicate Linked(j: Joint, group: string) {
    && |j.log| == j.bus.log
    && Names(j.log, j.bus.cursor, j.ids, group)
    && Names(j.log, j.bus.saved, j.saved, group)
    && (forall k :: 0 <= k < |j.bus.queue| ==> j.bus.queue[k] < j.bus.log)
    && (j.bus.position <= j.bus.log)
    && (j.bus.unsaved ==> j.bus.history != [] && j.bus.cursor == Some(Bus.End(j.bus.history) + 1))
  }

  predicate IsBatch(msg: Message, group: string, batch: string) {
    msg.EntityUpdate? && msg.batch.groupId == group && msg.batch.batchId == batch
  }

  predicate IsOther(msg: Message, group: string) {
    msg.EntityUpdate? ==> msg.batch.groupId != group
  }

  /** What the program makes of log and cursor maps at a step of the protocol. */
  ghost predicate Does(j: Joint, step: Bus.Step, k: Joint, group: string)
    requires Bus.Enabled(j.bus, step) && Linked(j, group)
  {
    match step
    case Append => |k.log| == |j.log| + 1 && k.log[..|j.log|] == j.log && k.ids == j.ids && k.saved == j.saved
    case ApplyNext =>
      && k.log == j.log && k.saved == j.saved
      && exists msg :: IsBatch(msg, group, j.log[j.bus.queue[0]]) && CursorsFollow(j.ids, [msg], k.ids)
    case Save =>
      && k.log == j.log && k.ids == j.ids
      && exists msg :: IsBatch(msg, group, j.log[Bus.End(j.bus.history)]) && CursorsFollow(j.saved, [msg], k.saved)
    // A new process starts from what is on disk.
    case Crash(_) => k.log == j.log && k.ids == j.saved && k.saved == j.saved
    case _ => k.log == j.log && k.ids == j.ids && k.saved == j.saved
  }

  /** A step of the protocol, or a message that is no batch of this group. */
  ghost predicate Moves(j: Joint, k: Joint, group: string, guard: (Bus.Bus, Bus.Step) -> bool)
    requires Linked(j, group)
  {
    || (exists step :: Bus.Enabled(j.bus, step) && guard(j.bus, step) && k.bus == Bus.Next(j.bus, step)
                       && Does(j, step, k, group))
    || (k.bus == j.bus && k.log == j.log
        && exists msg :: IsOther(msg, group) && OthersFollow(j.ids, msg, k.ids) && OthersFollow(j.saved, msg, k.saved))
  }

  /** The message is handled, or its cursor is still to be saved. */
  ghost predicate OthersFollow(before: map<string, string>, msg: Message, after: map<string, string>) {
    after == before || CursorsFollow(before, [msg], after)
  }

  lemma OwnBatch(log: seq<string>, ids: map<string, string>, msg: Message, ids': map<string, string>, group: string,
                 i: nat)
    requires i < |log| && IsBatch(msg, group, log[i]) && CursorsFollow(ids, [msg], ids')
    ensures Names(log, Some(i + 1), ids', group)
  {
    assert IsLatest([msg], 0);
  }

  lemma OtherBatch(log: seq<string>, cursor: Option<nat>, ids: map<string, string>, msg: Message,
                   ids': map<string, string>, group: string)
    requires IsOther(msg, group) && OthersFollow(ids, msg, ids') && Names(log, cursor, ids, group)
    ensures Names(log, cursor, ids', group)
  {
    assert !HasBatchOf([msg], group);
  }

  lemma LinkedStep(j: Joint, step: Bus.Step, k: Joint, group: string)
    requires Linked(j, group) && Bus.Enabled(j.bus, step) && k.bus == Bus.Next(j.bus, step) && Does(j, step, k, group)
    ensures Linked(k, group)
  {
    match step
    case ApplyNext =>
      var msg :| IsBatch(msg, group, j.log[j.bus.queue[0]]) && CursorsFollow(j.ids, [msg], k.ids);
      OwnBatch(j.log, j.ids, msg, k.ids, group, j.bus.queue[0]);
    case Save =>
      var msg :| IsBatch(msg, group, j.log[Bus.End(j.bus.history)]) && CursorsFollow(j.saved, [msg], k.saved);
      OwnBatch(j.log, j.saved, msg, k.saved, group, Bus.End(j.bus.history));
    case _ =>
  }

  lemma LinkedMove(j: Joint, k: Joint, group: string, guard: (Bus.Bus, Bus.Step) -> bool)
    requires Linked(j, group) && Moves(j, k, group, guard)
    ensures Linked(k, group)
    ensures k.bus == j.bus || exists step :: Bus.Enabled(j.bus, step) && guard(j.bus, step)
                                             && k.bus == Bus.Next(j.bus, step)
  {
    if step :| Bus.Enabled(j.bus, step) && guard(j.bus, step) && k.bus == Bus.Next(j.bus, step)
               && Does(j, step, k, group) {
      LinkedStep(j, step, k, group);
    } else {
      var msg :| IsOther(msg, group) && OthersFollow(j.ids, msg, k.ids) && OthersFollow(j.saved, msg, k.saved);
      OtherBatch(j.log, j.bus.cursor, j.ids, msg, k.ids, group);
      OtherBatch(j.log, j.bus.saved, j.saved, msg, k.saved, group);
    }
  }

  /** Protocol and program in step, from a session without cursors. */
  ghost predicate JointRun(run: seq<Joint>, group: string, guard: (Bus.Bus, Bus.Step) -> bool) {
    && run != [] && run[0].bus == Bus.Initial(|run[0].log|) && group !in run[0].ids && group !in run[0].saved
    && forall i, k :: 0 <= i && k == i + 1 < |run| ==> Linked(run[i], group) ==> Moves(run[i], run[k], group, guard)
  }

  lemma {:induction false} JointRunLinked(run: seq<Joint>, group: string, guard: (Bus.Bus, Bus.Step) -> bool, n: nat)
    returns (steps: seq<Bus.Step>)
    requires JointRun(run, group, guard) && n < |run|
    ensures Linked(run[n], group) && Bus.Reaches(run[0].bus, steps, run[n].bus, guard)
  {
    if n == 0 {
      steps := [];
    } else {
      steps := JointRunLinked(run, group, guard, n - 1);
      LinkedMove(run[n - 1], run[n], group, guard);
      if run[n].bus != run[n - 1].bus {
        var step :| Bus.Enabled(run[n - 1].bus, step) && guard(run[n - 1].bus, step)
                    && run[n].bus == Bus.Next(run[n - 1].bus, step);
        var last := Bus.Before(run[n - 1].bus, step, run[n].bus, [], run[n].bus, guard);
        Bus.Glue(run[0].bus, steps, run[n - 1].bus, last, run[n].bus, guard);
        steps := steps + last;
      }
    }
  }

  predicate Distinct(log: seq<string>) {
    forall i, j :: 0 <= i < j < |log| ==> log[i] != log[j]
  }

  /**
   * At every time of every run, what a connection asks for is exactly what follows the batch named by the group's
   * cursor, or nothing of the past when there is none; and every batch up to the named one that the listing does not
   * cover has been applied. The same holds of the cursor on disk.
   */
  lemma CursorNamesWhatIsApplied(run: seq<Joint>, group: string, n: nat)
    requires JointRun(run, group, Bus.NoGap) && n < |run| && Distinct(run[n].log)
    ensures var j := run[n];
            && (group !in j.ids ==> Bus.Resume(j.bus) == |j.log|)
            && (group in j.ids ==> j.ids[group] in j.log)
            && (forall i :: group in j.ids && 0 <= i < |j.log| && j.log[i] == j.ids[group] ==>
                  Bus.Resume(j.bus) == i + 1 && Bus.AppliedUpTo(j.bus, i + 1))
            && (forall i :: group in j.saved && 0 <= i < |j.log| && j.log[i] == j.saved[group] ==>
                  Bus.AppliedUpTo(j.bus, i + 1))
  {
    var steps := JointRunLinked(run, group, Bus.NoGap, n);
    Bus.CursorSound(|run[0].log|, steps, run[n].bus);
  }
}
