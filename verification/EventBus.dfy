/**
 * The catch-up protocol of one group: a growing server log, a reconnecting socket, the FIFO channel to the
 * handler, and the cursor kept in memory and on disk. Batch `i` of the group is the log's i-th entry; a cursor
 * `c` stands for "the first `c` batches are processed".
 */
module EventBus {
  import opened Wrappers
  import opened Convergence

  /**
   * `listed`: the full sync of this session has listed the folders, and `base` is the length the log had then, so that
   * the batches below it need not be applied. `start`: where the stream of delivered batches began. `position`: next
   * batch the open socket delivers. `history`: batches applied so far, in order. `unsaved`: the cursor advanced in
   * memory and is not on disk yet.
   */
  datatype Bus = Bus(log: nat, listed: bool, base: nat, start: nat, connected: bool, position: nat, queue: seq<nat>,
                     history: seq<nat>, cursor: Option<nat>, saved: Option<nat>, unsaved: bool)

  /** A session that will run the full sync; the syncer and the socket start independently. */
  function Initial(log: nat): Bus {
    Bus(log, false, log, log, false, log, [], [], None, None, false)
  }

  datatype Step =
    | Append      // the server logs a new batch
    | List        // the full sync lists the folders as the server has them
    | Connect     // open the socket, asking for everything after the cursor
    | Deliver     // one frame from the socket into the channel
    | Disconnect
    | ApplyNext   // the handler applies the batch at the head of the channel and advances the cursor
    | Save        // the cursor reaches the disk
    // The process is lost and what was queued is gone; the cursor restarts from disk. `relists`: the next start runs
    // the full sync again, as it does while no group at all has a cursor on disk or the sync never completed.
    | Crash(relists: bool)

  predicate Enabled(b: Bus, step: Step) {
    match step
    case Append => true
    case List => !b.listed
    case Connect => !b.connected
    case Deliver => b.connected && b.position < b.log
    case Disconnect => b.connected
    // Events are held back until the syncer is done.
    case ApplyNext => b.listed && b.queue != [] && !b.unsaved
    case Save => b.unsaved
    case Crash(relists) => relists || b.listed
  }

  /** Without a cursor the server replays nothing: the stream continues from the end of the log. */
  function Resume(b: Bus): nat {
    if b.cursor.Some? then b.cursor.value else b.log
  }

  function Next(b: Bus, step: Step): Bus
    requires Enabled(b, step)
  {
    match step
    case Append => b.(log := b.log + 1)
    case List => b.(listed := true, base := b.log)
    case Connect =>
      b.(connected := true, position := Resume(b), start := if Stream(b) == [] then Resume(b) else b.start)
    case Deliver => b.(queue := b.queue + [b.position], position := b.position + 1)
    case Disconnect => b.(connected := false)
    case ApplyNext =>
      b.(queue := b.queue[1..], history := b.history + [b.queue[0]], cursor := Some(b.queue[0] + 1), unsaved := true)
    case Save => b.(saved := b.cursor, unsaved := false)
    case Crash(relists) =>
      if b.saved.None? && relists then Initial(b.log)
      // With a cursor on disk the stream resumes there. Without one, but with no full sync either, nothing does.
      else b.(connected := false, queue := [], cursor := b.saved, unsaved := false)
  }

  function End(s: seq<nat>): nat
    requires s != []
  {
    s[|s| - 1]
  }

  /** The stream so far: applied, then still queued. */
  function Stream(b: Bus): seq<nat> {
    b.history + b.queue
  }

  /** What the listing covers, or will cover once it is made. */
  function Base(b: Bus): nat {
    if b.listed then b.base else b.log
  }

  /** Everything logged since the listing up to `n` has been applied or is queued. */
  ghost predicate Covered(b: Bus, n: nat) {
    forall i :: Base(b) <= i < n ==> i in Stream(b)
  }

  // ----- cursor soundness -----

  /**
   * A group without a cursor loses what was logged since the listing, and since the socket last delivered, when the
   * socket opens. And it loses what is queued and not listed when the process ends without a cursor on disk, unless the
   * next start lists all folders again or the socket was about to deliver it once more.
   */
  predicate NoGap(b: Bus, step: Step) {
    match step
    case Connect => b.listed && b.cursor.None? ==> b.base == b.log || b.position == b.log
    case Crash(relists) => b.saved.Some? || relists || forall i :: i in b.queue ==> i < b.base || b.position <= i
    case _ => true
  }

  /** Each queued or applied batch comes after all earlier ones were queued or applied. */
  ghost predicate InOrder(start: nat, s: seq<nat>) {
    forall k, i :: 0 <= k < |s| && start <= i < s[k] ==> i in s[..k]
  }

  predicate Increasing(s: seq<nat>) {
    forall j, k :: 0 <= j < k < |s| ==> s[j] < s[k]
  }

  ghost predicate Sound(b: Bus) {
    && InOrder(Base(b), Stream(b))
    && (b.connected || b.saved.None? ==> Covered(b, b.position) && b.position <= b.log)
    && (!b.listed ==> b.history == [] && b.cursor.None? && b.saved.None?)
    && b.base <= b.log
    && (forall i :: i in Stream(b) ==> b.start <= i < b.log)
    && (b.connected ==> b.start <= b.position)
    && (b.cursor.Some? ==> Reached(b, b.cursor.value))
    && (b.saved.Some? ==> Reached(b, b.saved.value))
    && (!b.unsaved ==> b.cursor == b.saved)
    && (b.unsaved ==> b.cursor.Some?)
    && (b.saved.None? ==> Fresh(b))
  }

  /** A cursor the handler has come to. */
  ghost predicate Reached(b: Bus, n: nat) {
    b.history != [] && AppliedUpTo(b, n) && b.start < n <= b.log
  }

  /** Before a first cursor reaches the disk, batches are applied in log order and never twice. */
  ghost predicate Fresh(b: Bus) {
    && Increasing(b.history)
    && (forall i :: i in b.history ==> i < b.position)
    && (forall i, j :: i in b.history && j in b.queue ==> i < j)
    && (b.cursor.None? ==> Increasing(Stream(b)) && forall i :: i in b.queue ==> i < b.position)
    && (b.cursor.Some? ==> b.history != [] && b.cursor.value == End(b.history) + 1 <= b.position)
  }

  /** Every batch below `n` that the listing does not cover has been applied. */
  ghost predicate AppliedUpTo(b: Bus, n: nat) {
    forall i :: Base(b) <= i < n ==> i in b.history
  }

  lemma AppendInOrder(start: nat, s: seq<nat>, x: nat)
    requires InOrder(start, s) && forall i :: start <= i < x ==> i in s
    ensures InOrder(start, s + [x])
  {
    forall k, i | 0 <= k < |s + [x]| && start <= i < (s + [x])[k] ensures i in (s + [x])[..k] {
      if k < |s| {
        assert (s + [x])[..k] == s[..k];
      } else {
        assert (s + [x])[..k] == s;
      }
    }
  }

  lemma PrefixInOrder(start: nat, a: seq<nat>, b: seq<nat>)
    requires InOrder(start, a + b)
    ensures InOrder(start, a)
  {
    forall k, i | 0 <= k < |a| && start <= i < a[k] ensures i in a[..k] {
      assert (a + b)[k] == a[k] && (a + b)[..k] == a[..k];
    }
  }

  lemma IncreasingAppend(s: seq<nat>, x: nat)
    requires Increasing(s) && forall i :: i in s ==> i < x
    ensures Increasing(s + [x])
  {
    forall j, k | 0 <= j < k < |s + [x]| ensures (s + [x])[j] < (s + [x])[k] {
      assert (s + [x])[j] == s[j] && s[j] in s;
    }
  }

  lemma SoundDeliver(b: Bus)
    requires Sound(b) && Enabled(b, Deliver)
    ensures Sound(Next(b, Deliver))
  {
    var next := Next(b, Deliver);
    assert Stream(next) == Stream(b) + [b.position];
    AppendInOrder(Base(b), Stream(b), b.position);
    if b.saved.None? {
      if b.cursor.None? {
        IncreasingAppend(Stream(b), b.position);
      }
      assert Fresh(next);
    }
  }

  lemma SoundApply(b: Bus)
    requires Sound(b) && Enabled(b, ApplyNext)
    ensures Sound(Next(b, ApplyNext))
  {
    var next := Next(b, ApplyNext);
    var x := b.queue[0];
    assert Stream(next) == Stream(b);
    assert Stream(b)[|b.history|] == x && Stream(b)[..|b.history|] == b.history;
    assert forall i :: b.base <= i < x ==> i in b.history;
    assert x in Stream(b);
    if b.saved.None? {
      ApplyFresh(b);
    }
  }

  lemma ApplyFresh(b: Bus)
    requires Fresh(b) && b.cursor.None? && b.listed && b.queue != []
    ensures Fresh(Next(b.(unsaved := false), ApplyNext))
  {
    var next := Next(b.(unsaved := false), ApplyNext);
    var n, x := |b.history|, b.queue[0];
    assert Stream(b)[n] == x && x in b.queue;
    IncreasingAppend(b.history, x);
    forall i, j | i in next.history && j in next.queue ensures i < j {
      var k :| 0 <= k < |b.queue[1..]| && b.queue[1..][k] == j;
      assert Stream(b)[n + 1 + k] == j;
      assert j in b.queue;
    }
  }

  lemma SoundCrash(b: Bus, relists: bool)
    requires Sound(b) && Enabled(b, Crash(relists)) && NoGap(b, Crash(relists))
    ensures Sound(Next(b, Crash(relists)))
  {
    if b.saved.Some? || !relists {
      var next := Next(b, Crash(relists));
      assert Stream(next) == b.history;
      assert forall i :: i in b.history ==> i in Stream(b);
      PrefixInOrder(Base(b), b.history, b.queue);
      if b.saved.None? {
        forall i | b.base <= i < b.position ensures i in b.history {
          assert i in Stream(b) && i !in b.queue;
        }
      }
    }
  }

  /** The stream, and what was applied, are the same after opening the socket. */
  lemma {:induction false} ConnectCovers(b: Bus)
    requires Sound(b) && Enabled(b, Connect) && NoGap(b, Connect)
    ensures Covered(Next(b, Connect), Resume(b)) && Resume(b) <= b.log
  {
    var next := Next(b, Connect);
    assert Stream(next) == Stream(b);
    assert forall i :: i in b.history ==> i in Stream(b);
  }

  lemma {:induction false} ConnectStarts(b: Bus)
    requires Sound(b) && Enabled(b, Connect)
    ensures var next := Next(b, Connect);
            next.start <= next.position && forall i :: i in Stream(b) ==> next.start <= i < b.log
    ensures b.cursor.Some? ==> Next(b, Connect).start == b.start
    ensures b.saved.Some? ==> Next(b, Connect).start == b.start
  {
    if Stream(b) != [] {
      assert Stream(b)[0] in Stream(b);
    } else {
      assert b.history == [];
    }
  }

  lemma {:induction false} ConnectFresh(b: Bus)
    requires Sound(b) && Enabled(b, Connect) && b.saved.None?
    ensures Fresh(Next(b, Connect))
  {
    assert Stream(Next(b, Connect)) == Stream(b);
    if b.cursor.Some? {
      assert forall i :: i in b.history ==> i <= End(b.history);
    }
  }

  lemma {:induction false} SoundConnect(b: Bus)
    requires Sound(b) && Enabled(b, Connect) && NoGap(b, Connect)
    ensures Sound(Next(b, Connect))
  {
    assert Stream(Next(b, Connect)) == Stream(b);
    ConnectCovers(b);
    ConnectStarts(b);
    if b.saved.None? {
      ConnectFresh(b);
    }
  }

  lemma SoundSave(b: Bus)
    requires Sound(b) && Enabled(b, Save)
    ensures Sound(Next(b, Save))
  {
    assert Stream(Next(b, Save)) == Stream(b);
  }

  lemma SoundAppend(b: Bus)
    requires Sound(b)
    ensures Sound(Next(b, Append))
  {
    assert Stream(Next(b, Append)) == Stream(b);
  }

  lemma SoundList(b: Bus)
    requires Sound(b) && Enabled(b, List)
    ensures Sound(Next(b, List))
  {
    assert Stream(Next(b, List)) == Stream(b);
    assert forall k :: 0 <= k < |Stream(b)| ==> Stream(b)[k] in Stream(b);
  }

  lemma SoundStep(b: Bus, step: Step)
    requires Sound(b) && Enabled(b, step) && NoGap(b, step)
    ensures Sound(Next(b, step))
  {
    match step
    case Append => SoundAppend(b);
    case List => SoundList(b);
    case Connect => SoundConnect(b);
    case Deliver => SoundDeliver(b);
    case Disconnect => assert Stream(Next(b, step)) == Stream(b);
    case ApplyNext => SoundApply(b);
    case Save => SoundSave(b);
    case Crash(relists) => SoundCrash(b, relists);
  }

  /** `steps` is a run from `b` to `c` in which every step is enabled and meets `guard`. */
  ghost predicate Reaches(b: Bus, steps: seq<Step>, c: Bus, guard: (Bus, Step) -> bool)
    decreases |steps|
  {
    if steps == [] then b == c
    else Enabled(b, steps[0]) && guard(b, steps[0]) && Reaches(Next(b, steps[0]), steps[1..], c, guard)
  }

  lemma {:induction false} SoundRun(b: Bus, steps: seq<Step>, c: Bus, guard: (Bus, Step) -> bool)
    requires Sound(b) && Reaches(b, steps, c, guard)
    requires forall x, t :: guard(x, t) ==> NoGap(x, t)
    ensures Sound(c)
    decreases |steps|
  {
    if steps != [] {
      SoundStep(b, steps[0]);
      SoundRun(Next(b, steps[0]), steps[1..], c, guard);
    }
  }

  /**
   * Cursor soundness: in every state of every run, each batch below the in-memory cursor and below the saved one
   * has been applied, so asking the server for what follows never skips a batch, although replays move the cursor
   * back.
   */
  lemma CursorSound(log: nat, steps: seq<Step>, c: Bus)
    requires Reaches(Initial(log), steps, c, NoGap)
    ensures c.cursor.Some? ==> AppliedUpTo(c, c.cursor.value)
    ensures c.saved.Some? ==> AppliedUpTo(c, c.saved.value)
    ensures c.connected ==> Covered(c, c.position)
  {
    assert Sound(Initial(log));
    SoundRun(Initial(log), steps, c, NoGap);
  }

  /** Nothing below the point from which the stream goes on is lost. */
  ghost predicate Intact(b: Bus) {
    Covered(b, if b.cursor.Some? then b.cursor.value else b.position)
  }

  /** The gap condition is exact: a step of a sound state loses nothing if and only if it meets it. */
  lemma NoGapIff(b: Bus, step: Step)
    requires Sound(b) && Enabled(b, step)
    ensures Intact(Next(b, step)) <==> NoGap(b, step)
  {
    var next := Next(b, step);
    if NoGap(b, step) {
      SoundStep(b, step);
      assert next.cursor.Some? ==> forall i :: i in next.history ==> i in Stream(next);
    } else if step.Connect? {
      assert Stream(next) == Stream(b);
      assert forall i :: i in Stream(b) ==> i in b.history || i in b.queue;
      assert b.log - 1 !in Stream(next) && Base(next) <= b.log - 1 < next.position;
    } else {
      var i :| i in b.queue && b.base <= i < b.position;
      assert Stream(next) == b.history && i in Stream(b) && i !in b.history;
    }
  }

  predicate Any(b: Bus, step: Step) {
    true
  }

  /** Put one more step, its successor state spelled out, in front of a run. */
  lemma Before(b: Bus, step: Step, b': Bus, steps: seq<Step>, c: Bus, guard: (Bus, Step) -> bool)
    returns (more: seq<Step>)
    requires Enabled(b, step) && guard(b, step) && Next(b, step) == b' && Reaches(b', steps, c, guard)
    ensures Reaches(b, more, c, guard)
  {
    more := [step] + steps;
    assert more[1..] == steps;
  }

  lemma {:induction false} Glue(a: Bus, s: seq<Step>, b: Bus, t: seq<Step>, c: Bus, guard: (Bus, Step) -> bool)
    requires Reaches(a, s, b, guard) && Reaches(b, t, c, guard)
    ensures Reaches(a, s + t, c, guard)
    decreases |s|
  {
    if s == [] {
      assert s + t == t;
    } else {
      Glue(Next(a, s[0]), s[1..], b, t, c, guard);
      assert (s + t)[1..] == s[1..] + t;
    }
  }

  /** The folders are listed, the socket opens, the first batch is logged and delivered. */
  lemma FirstDelivery(c: Bus) returns (steps: seq<Step>)
    requires c == Bus(1, true, 0, 0, true, 1, [0], [], None, None, false)
    ensures Reaches(Initial(0), steps, c, Any)
  {
    var b0 := Initial(0);
    var b1 := b0.(listed := true);
    var b2 := b1.(connected := true);
    var b3 := b2.(log := 1);
    steps := Before(b3, Deliver, c, [], c, Any);
    steps := Before(b2, Append, b3, steps, c, Any);
    steps := Before(b1, Connect, b2, steps, c, Any);
    steps := Before(b0, List, b1, steps, c, Any);
  }

  /** A reconnect before the first cursor: batch 1 is never applied, yet the cursor ends beyond it. */
  lemma ReconnectWithoutCursorSkips() returns (steps: seq<Step>, c: Bus)
    ensures Reaches(Initial(0), steps, c, Any)
    ensures c.listed && c.base == 0 && c.cursor == Some(3) && c.history == [0, 2] && !AppliedUpTo(c, 3)
  {
    var mid := Bus(1, true, 0, 0, true, 1, [0], [], None, None, false);
    var early := FirstDelivery(mid);
    var late;
    late, c := ReconnectAndApply(mid);
    Glue(Initial(0), early, mid, late, c, Any);
    steps := early + late;
    assert 1 !in c.history;
  }

  lemma ReconnectAndApply(mid: Bus) returns (steps: seq<Step>, c: Bus)
    requires mid == Bus(1, true, 0, 0, true, 1, [0], [], None, None, false)
    ensures Reaches(mid, steps, c, Any)
    ensures c == Bus(3, true, 0, 0, true, 3, [], [0, 2], Some(3), Some(1), true)
  {
    var b4 := mid.(connected := false);
    var b5 := b4.(log := 2);
    var b6 := b5.(connected := true, position := 2);
    var b7 := b6.(log := 3);
    var b8 := b7.(queue := [0, 2], position := 3);
    steps, c := ApplyBoth(b8);
    steps := Before(b7, Deliver, b8, steps, c, Any);
    steps := Before(b6, Append, b7, steps, c, Any);
    steps := Before(b5, Connect, b6, steps, c, Any);
    steps := Before(b4, Append, b5, steps, c, Any);
    steps := Before(mid, Disconnect, b4, steps, c, Any);
  }

  lemma ApplyBoth(b: Bus) returns (steps: seq<Step>, c: Bus)
    requires b == Bus(3, true, 0, 0, true, 3, [0, 2], [], None, None, false)
    ensures Reaches(b, steps, c, Any)
    ensures c == Bus(3, true, 0, 0, true, 3, [], [0, 2], Some(3), Some(1), true)
  {
    var b9 := b.(queue := [2], history := [0], cursor := Some(1), unsaved := true);
    var b10 := b9.(saved := Some(1), unsaved := false);
    c := b10.(queue := [], history := [0, 2], cursor := Some(3), unsaved := true);
    steps := Before(b10, ApplyNext, c, [], c, Any);
    steps := Before(b9, Save, b10, steps, c, Any);
    steps := Before(b, ApplyNext, b9, steps, c, Any);
  }

  /**
   * A restart before this group's first cursor is on disk, while another group's cursor keeps the full sync from
   * running again: batch 0 was queued and is never applied, yet the cursor ends beyond it.
   */
  lemma RestartWithoutCursorSkips() returns (steps: seq<Step>, c: Bus)
    ensures Reaches(Initial(0), steps, c, Any)
    ensures c.listed && c.base == 0 && c.cursor == Some(2) && c.history == [1] && !AppliedUpTo(c, 2)
  {
    var mid := Bus(1, true, 0, 0, true, 1, [0], [], None, None, false);
    var early := FirstDelivery(mid);
    var late;
    late, c := RestartAndApply(mid);
    Glue(Initial(0), early, mid, late, c, Any);
    steps := early + late;
    assert 0 !in c.history;
  }

  lemma RestartAndApply(mid: Bus) returns (steps: seq<Step>, c: Bus)
    requires mid == Bus(1, true, 0, 0, true, 1, [0], [], None, None, false)
    ensures Reaches(mid, steps, c, Any)
    ensures c == Bus(2, true, 0, 1, true, 2, [], [1], Some(2), None, true)
  {
    var b4 := mid.(connected := false, queue := []);
    var b5 := b4.(connected := true, start := 1);
    steps, c := SecondBatch(b5);
    steps := Before(b4, Connect, b5, steps, c, Any);
    steps := Before(mid, Crash(false), b4, steps, c, Any);
  }

  /** With the socket open behind batch 0, batch 1 is logged, delivered and applied. */
  lemma SecondBatch(b: Bus) returns (steps: seq<Step>, c: Bus)
    requires b == Bus(1, true, 0, 1, true, 1, [], [], None, None, false)
    ensures Reaches(b, steps, c, Any)
    ensures c == Bus(2, true, 0, 1, true, 2, [], [1], Some(2), None, true)
  {
    var b6 := b.(log := 2);
    var b7 := b6.(queue := [1], position := 2);
    c := b7.(queue := [], history := [1], cursor := Some(2), unsaved := true);
    steps := Before(b7, ApplyNext, c, [], c, Any);
    steps := Before(b6, Deliver, b7, steps, c, Any);
    steps := Before(b, Append, b6, steps, c, Any);
  }

  /**
   * The full sync lists the folders before the socket first opens: batch 0, logged in between, is neither listed nor
   * delivered, yet the cursor ends beyond it.
   */
  lemma ListedBeforeConnectSkips() returns (steps: seq<Step>, c: Bus)
    ensures Reaches(Initial(0), steps, c, Any)
    ensures c.listed && c.base == 0 && c.cursor == Some(2) && c.history == [1] && !AppliedUpTo(c, 2)
  {
    var b0 := Initial(0);
    var b1 := b0.(listed := true);
    var b2 := b1.(log := 1);
    var b3 := b2.(connected := true, position := 1, start := 1);
    steps, c := SecondBatch(b3);
    steps := Before(b2, Connect, b3, steps, c, Any);
    steps := Before(b1, Append, b2, steps, c, Any);
    steps := Before(b0, List, b1, steps, c, Any);
    assert 0 !in c.history;
  }

  // ----- order of application -----

  /**
   * A reconnect must not resume beyond what is still queued: otherwise an old batch left in the channel by a
   * half-delivered replay is applied on its own, after batches that came later.
   */
  predicate Orderly(b: Bus, step: Step) {
    step.Connect? && Stream(b) != [] ==> Resume(b) <= End(Stream(b)) + 1
  }

  predicate Careful(b: Bus, step: Step) {
    NoGap(b, step) && Orderly(b, step)
  }

  /** Indices relative to the start of the stream. */
  function Relative(start: nat, s: seq<nat>): seq<nat>
    requires forall k :: 0 <= k < |s| ==> start <= s[k]
  {
    seq<nat>(|s|, k requires 0 <= k < |s| => s[k] - start)
  }

  /** Each batch is at most one ahead of the batch before it. */
  predicate NoSkip(s: seq<nat>) {
    forall j, k :: 0 <= j && k == j + 1 < |s| ==> s[k] <= s[j] + 1
  }

  ghost predicate Steady(b: Bus) {
    && (Stream(b) != [] ==> Stream(b)[0] == b.start)
    && NoSkip(Stream(b))
    && (b.connected ==> if Stream(b) == [] then b.position == b.start else b.position <= End(Stream(b)) + 1)
  }

  lemma SteadyDeliver(b: Bus)
    requires Sound(b) && Steady(b) && Enabled(b, Deliver)
    ensures Steady(Next(b, Deliver))
  {
    assert Stream(Next(b, Deliver)) == Stream(b) + [b.position];
  }

  lemma SteadyCrash(b: Bus, relists: bool)
    requires Sound(b) && Steady(b) && Enabled(b, Crash(relists)) && NoGap(b, Crash(relists))
    ensures Steady(Next(b, Crash(relists)))
  {
    if b.saved.Some? || !relists {
      assert Stream(Next(b, Crash(relists))) == b.history;
      assert forall k :: 0 <= k < |b.history| ==> Stream(b)[k] == b.history[k];
    }
  }

  lemma SteadyConnect(b: Bus)
    requires Sound(b) && Steady(b) && Enabled(b, Connect) && Careful(b, Connect)
    ensures Steady(Next(b, Connect))
  {
    assert Stream(Next(b, Connect)) == Stream(b);
  }

  lemma SteadyStep(b: Bus, step: Step)
    requires Sound(b) && Steady(b) && Enabled(b, step) && Careful(b, step)
    ensures Steady(Next(b, step))
  {
    match step
    case Deliver => SteadyDeliver(b);
    case Crash(relists) => SteadyCrash(b, relists);
    case Connect => SteadyConnect(b);
    case _ => assert Stream(Next(b, step)) == Stream(b);
  }

  lemma {:induction false} SteadyRun(b: Bus, steps: seq<Step>, c: Bus)
    requires Sound(b) && Steady(b) && Reaches(b, steps, c, Careful)
    ensures Sound(c) && Steady(c)
    decreases |steps|
  {
    if steps != [] {
      SoundStep(b, steps[0]);
      SteadyStep(b, steps[0]);
      SteadyRun(Next(b, steps[0]), steps[1..], c);
    }
  }

  /**
   * In every careful run the handler's history never skips ahead, and begins no later than where the listing's cover
   * ends.
   */
  lemma HistoryGapless(log: nat, steps: seq<Step>, c: Bus)
    requires Reaches(Initial(log), steps, c, Careful)
    ensures forall k :: 0 <= k < |c.history| ==> c.start <= c.history[k] < c.log
    ensures Gapless(Relative(c.start, c.history))
    ensures c.history != [] ==> c.listed && c.start <= c.base
  {
    SteadyRun(Initial(log), steps, c);
    SteadyGapless(c);
  }

  lemma SteadyGapless(c: Bus)
    requires Sound(c) && Steady(c)
    ensures forall k :: 0 <= k < |c.history| ==> c.start <= c.history[k] < c.log
    ensures Gapless(Relative(c.start, c.history))
    ensures c.history != [] ==> c.listed && c.start <= c.base
  {
    if c.history != [] {
      assert Stream(c)[0] == c.start && c.base !in Stream(c)[..0];
    }
    assert forall k :: 0 <= k < |c.history| ==> Stream(c)[k] == c.history[k] && Stream(c)[k] in Stream(c);
  }

  /** The condition is exact: the first batch a reconnect delivers follows on the stream if and only if it is orderly. */
  lemma OrderlyIff(b: Bus)
    requires Sound(b) && Steady(b) && Enabled(b, Connect) && Enabled(Next(b, Connect), Deliver)
    ensures NoSkip(Stream(Next(Next(b, Connect), Deliver))) <==> Orderly(b, Connect)
  {
    var s, t := Stream(b), Stream(Next(Next(b, Connect), Deliver));
    var n := |s|;
    assert t == s + [Resume(b)];
    if NoSkip(t) && n > 0 {
      assert t[n] <= t[n - 1] + 1;
    }
    if Orderly(b, Connect) {
      forall j, k | 0 <= j && k == j + 1 < |t| ensures t[k] <= t[j] + 1 {
        if k < n {
          assert s[k] <= s[j] + 1;
        }
      }
    }
  }

  /** A drained channel is enough: the cursor then follows the last batch applied. */
  lemma DrainedReconnectIsOrderly(b: Bus)
    requires b.queue == [] && b.history != [] && b.cursor == Some(End(b.history) + 1)
    ensures Orderly(b, Connect)
  {
    assert Stream(b) == b.history;
  }
}
