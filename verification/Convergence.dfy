/** Replaying a batch log: what a reconnect makes the handler apply twice ends where one pass ends. */
module Convergence {
  import opened Wrappers
  import opened MailTypes
  import opened ReplicaSpec
  import opened Resolution

  /** What a batch says about one pair, whatever the state: present, absent, or nothing. */
  function Verdict(e: Effect, p: Pair): Option<bool> {
    if Kills(e, p) then Some(false)
    else if p in e.adds then Some(true)
    else if e.keep.Some? && p.0 !in e.keep.value then Some(false)
    else None
  }

  lemma ApplyByVerdict(s: set<Pair>, e: Effect, p: Pair)
    ensures p in Apply(s, e) <==> if Verdict(e, p).Some? then Verdict(e, p).value else p in s
  {
  }

  /** One pass over the log. */
  function Fold(s: set<Pair>, log: seq<Effect>): set<Pair> {
    if log == [] then s else Apply(Fold(s, log[..|log| - 1]), log[|log| - 1])
  }

  predicate Within(history: seq<nat>, n: nat) {
    forall i :: 0 <= i < |history| ==> history[i] < n
  }

  /** The log batches applied in the order `history` lists them, repetitions included. */
  function Replay(s: set<Pair>, log: seq<Effect>, history: seq<nat>): set<Pair>
    requires Within(history, |log|)
  {
    if history == [] then s
    else
      var n := |history| - 1;
      Apply(Replay(s, log, history[..n]), log[history[n]])
  }

  /** Starts at the beginning and never skips ahead: each batch is the next one, or an earlier one again. */
  predicate Gapless(history: seq<nat>) {
    && (history != [] ==> history[0] == 0)
    && forall i, j :: 0 <= i && j == i + 1 < |history| ==> history[j] <= history[i] + 1
  }

  function High(history: seq<nat>): (h: nat)
    requires history != []
    ensures forall i :: 0 <= i < |history| ==> history[i] <= h
  {
    var n := |history| - 1;
    if n == 0 then history[0]
    else
      var h := High(history[..n]);
      if history[n] > h then history[n] else h
  }

  // ----- which histories converge -----

  /** What a history decides about one pair: the verdict of the latest entry that has one. */
  function HistoryVerdict(log: seq<Effect>, history: seq<nat>, p: Pair): Option<bool>
    requires Within(history, |log|)
  {
    if history == [] then None
    else
      var n := |history| - 1;
      if Verdict(log[history[n]], p).Some? then Verdict(log[history[n]], p) else HistoryVerdict(log, history[..n], p)
  }

  lemma {:induction false} ReplayByVerdict(s: set<Pair>, log: seq<Effect>, history: seq<nat>, p: Pair)
    requires Within(history, |log|)
    ensures var v := HistoryVerdict(log, history, p);
            p in Replay(s, log, history) <==> if v.Some? then v.value else p in s
  {
    if history != [] {
      var n := |history| - 1;
      ReplayByVerdict(s, log, history[..n], p);
      ApplyByVerdict(Replay(s, log, history[..n]), log[history[n]], p);
    }
  }

  /** Some occurrence of `j` has no later `i`. */
  predicate EndsAfter(history: seq<nat>, i: nat, j: nat) {
    exists k :: 0 <= k < |history| && history[k] == j && forall l :: k < l < |history| ==> history[l] != i
  }

  /** Every batch below `n` occurs, and the last occurrences come in log order. */
  predicate EndsInOrder(history: seq<nat>, n: nat) {
    && (forall i :: 0 <= i < n ==> i in history)
    && (forall i, j :: 0 <= i < j < n ==> EndsAfter(history, i, j))
  }

  /** The latest batch with a verdict on `p`, if any. */
  lemma {:induction false} LatestVerdict(log: seq<Effect>, p: Pair) returns (j: nat)
    requires LastVerdict(log, p).Some?
    ensures j < |log| && Verdict(log[j], p) == LastVerdict(log, p)
    ensures forall i :: j < i < |log| ==> Verdict(log[i], p).None?
  {
    var n := |log| - 1;
    if Verdict(log[n], p).Some? {
      j := n;
    } else {
      j := LatestVerdict(log[..n], p);
      forall i | j < i < |log| ensures Verdict(log[i], p).None? {
        assert i < n ==> log[i] == log[..n][i];
      }
    }
  }

  lemma {:induction false} NoVerdict(log: seq<Effect>, p: Pair)
    requires LastVerdict(log, p).None?
    ensures forall i :: 0 <= i < |log| ==> Verdict(log[i], p).None?
  {
    if log != [] {
      NoVerdict(log[..|log| - 1], p);
      forall i | 0 <= i < |log| ensures Verdict(log[i], p).None? {
        assert i < |log| - 1 ==> log[i] == log[..|log| - 1][i];
      }
    }
  }

  /** An entry that has a verdict decides when everything after it is silent or agrees. */
  lemma {:induction false} HistoryDecides(log: seq<Effect>, history: seq<nat>, p: Pair, k: nat, v: Option<bool>)
    requires Within(history, |log|) && k < |history| && v.Some? && Verdict(log[history[k]], p) == v
    requires forall l :: k < l < |history| ==> Verdict(log[history[l]], p) in {None, v}
    ensures HistoryVerdict(log, history, p) == v
  {
    var n := |history| - 1;
    if k < n && Verdict(log[history[n]], p).None? {
      HistoryDecides(log, history[..n], p, k, v);
    }
  }

  lemma {:induction false} HistorySilent(log: seq<Effect>, history: seq<nat>, p: Pair)
    requires Within(history, |log|) && forall l :: 0 <= l < |history| ==> Verdict(log[history[l]], p).None?
    ensures HistoryVerdict(log, history, p).None?
  {
    if history != [] {
      HistorySilent(log, history[..|history| - 1], p);
    }
  }

  /** The last occurrence of `x`. */
  lemma {:induction false} LastOccurrence(history: seq<nat>, x: nat) returns (k: nat)
    requires x in history
    ensures k < |history| && history[k] == x && forall l :: k < l < |history| ==> history[l] != x
  {
    var n := |history| - 1;
    if history[n] == x {
      k := n;
    } else {
      assert history == history[..n] + [history[n]];
      k := LastOccurrence(history[..n], x);
      forall l | k < l < |history| ensures history[l] != x {
        assert l < n ==> history[l] == history[..n][l];
      }
    }
  }

  /** A later batch is not followed by an earlier one, once both have occurred for the last time. */
  lemma LaterStays(history: seq<nat>, n: nat, j: nat, k: nat)
    requires EndsInOrder(history, n) && j < n && k < |history| && history[k] == j
    requires forall l :: k < l < |history| ==> history[l] != j
    ensures forall l :: k < l < |history| ==> history[l] > j
  {
    forall l | k < l < |history| ensures history[l] > j {
      assert history[l] < j ==> EndsAfter(history, history[l], j);
    }
  }

  lemma OrderedConverges(s: set<Pair>, log: seq<Effect>, history: seq<nat>)
    requires Within(history, |log|) && EndsInOrder(history, |log|)
    ensures Replay(s, log, history) == Fold(s, log)
  {
    forall p ensures p in Replay(s, log, history) <==> p in Fold(s, log) {
      ReplayByVerdict(s, log, history, p);
      FoldByVerdict(s, log, p);
      if LastVerdict(log, p).Some? {
        var j := LatestVerdict(log, p);
        var k := LastOccurrence(history, j);
        LaterStays(history, |log|, j, k);
        HistoryDecides(log, history, p, k, LastVerdict(log, p));
      } else {
        NoVerdict(log, p);
        HistorySilent(log, history, p);
      }
    }
  }

  const NOTHING := Effect(None, {}, {}, {})

  /** A log in which only batches `i` and `j` say anything. */
  function TwoEffects(n: nat, i: nat, a: Effect, j: nat, b: Effect): seq<Effect> {
    seq(n, k requires 0 <= k < n => if k == i then a else if k == j then b else NOTHING)
  }

  lemma {:induction false} TwoVerdict(n: nat, i: nat, a: Effect, j: nat, b: Effect, p: Pair)
    requires i < j < n && Verdict(b, p).Some?
    ensures LastVerdict(TwoEffects(n, i, a, j, b), p) == Verdict(b, p)
  {
    var log := TwoEffects(n, i, a, j, b);
    if j < n - 1 {
      TwoVerdict(n - 1, i, a, j, b, p);
      assert log[..n - 1] == TwoEffects(n - 1, i, a, j, b);
    }
  }

  /** A batch that never occurs can be the one that matters. */
  lemma MissingDiverges(history: seq<nat>, n: nat, i: nat, p: Pair)
    requires Within(history, n) && i < n && i !in history
    ensures exists log: seq<Effect> :: |log| == n && Replay({}, log, history) != Fold({}, log)
  {
    var log := TwoEffects(n, i, Effect(None, {p}, {}, {}), n, NOTHING);
    HistorySilent(log, history, p);
    ReplayByVerdict({}, log, history, p);
    FoldByVerdict({}, log, p);
    assert Verdict(log[i], p) == Some(true);
    if LastVerdict(log, p).None? {
      NoVerdict(log, p);
    } else {
      var j := LatestVerdict(log, p);
      assert j == i;
    }
    assert p in Fold({}, log) && p !in Replay({}, log, history);
  }

  /** Out of order, the earlier batch has the last word where the later one should. */
  lemma DisorderDiverges(history: seq<nat>, n: nat, i: nat, j: nat, p: Pair)
    requires Within(history, n) && i < j < n && i in history && !EndsAfter(history, i, j)
    ensures exists log: seq<Effect> :: |log| == n && Replay({}, log, history) != Fold({}, log)
  {
    var add, drop := Effect(None, {p}, {}, {}), Effect(None, {}, {p}, {});
    var log := TwoEffects(n, i, drop, j, add);
    var k := LastOccurrence(history, i);
    HistoryDecides(log, history, p, k, Some(false));
    ReplayByVerdict({}, log, history, p);
    TwoVerdict(n, i, drop, j, add, p);
    FoldByVerdict({}, log, p);
    assert p in Fold({}, log) && p !in Replay({}, log, history);
  }

  /**
   * Exactly which histories converge: a history gives the result of one pass, from every start and for every log of
   * `n` batches, if and only if every batch occurs and the last occurrences come in log order.
   */
  lemma ConvergesIff(history: seq<nat>, n: nat)
    requires Within(history, n)
    ensures (forall s, log :: |log| == n ==> Replay(s, log, history) == Fold(s, log)) <==> EndsInOrder(history, n)
  {
    var p := ("", "");
    if EndsInOrder(history, n) {
      forall s, log | |log| == n ensures Replay(s, log, history) == Fold(s, log) {
        OrderedConverges(s, log, history);
      }
    } else if i :| 0 <= i < n && i !in history {
      MissingDiverges(history, n, i, p);
    } else {
      var i, j :| 0 <= i < j < n && !EndsAfter(history, i, j);
      DisorderDiverges(history, n, i, j, p);
    }
  }

  // ----- gapless histories -----

  /** Climbing by at most one at a time, a gapless history passes through every batch on the way up. */
  lemma {:induction false} PassesThrough(history: seq<nat>, k: nat, j: nat) returns (l: nat)
    requires Gapless(history) && k < |history| && history[k] < j <= history[|history| - 1]
    ensures k < l < |history| && history[l] == j
  {
    var n := |history| - 1;
    if history[n] == j {
      l := n;
    } else {
      assert history[n] <= history[n - 1] + 1;
      assert Gapless(history[..n]) by {
        assert forall i :: 0 <= i < n ==> history[..n][i] == history[i];
      }
      l := PassesThrough(history[..n], k, j);
    }
  }

  lemma GaplessEndsInOrder(history: seq<nat>)
    requires history != [] && Gapless(history) && history[|history| - 1] == High(history)
    ensures EndsInOrder(history, High(history) + 1)
  {
    var n := High(history) + 1;
    forall i | 0 <= i < n ensures i in history {
      if i > 0 {
        var l := PassesThrough(history, 0, i);
      }
    }
    forall i, j | 0 <= i < j < n ensures EndsAfter(history, i, j) {
      var k := LastOccurrence(history, i);
      var l := PassesThrough(history, k, j);
    }
  }

  lemma {:induction false} ReplayPrefix(s: set<Pair>, log: seq<Effect>, history: seq<nat>, n: nat)
    requires n <= |log| && Within(history, n)
    ensures Replay(s, log, history) == Replay(s, log[..n], history)
  {
    if history != [] {
      ReplayPrefix(s, log, history[..|history| - 1], n);
    }
  }

  /** Whenever the handler is back at the newest batch it has seen, membership is that of a single pass. */
  lemma CaughtUp(s: set<Pair>, log: seq<Effect>, history: seq<nat>)
    requires history != [] && Gapless(history) && Within(history, |log|)
    requires history[|history| - 1] == High(history)
    ensures Replay(s, log, history) == Fold(s, log[..High(history) + 1])
  {
    var n := High(history) + 1;
    GaplessEndsInOrder(history);
    ReplayPrefix(s, log, history, n);
    OrderedConverges(s, log[..n], history);
  }

  /**
   * A history that replays one old batch and then skips ahead need not converge: here batch 0 files a mail,
   * batch 1 removes it, batch 0 is applied again and batch 2, which is unrelated, follows.
   */
  lemma SkippingAheadDiverges(f: FolderId, m: MailId)
    ensures var log := [Effect(None, {(f, m)}, {}, {}), Effect(None, {}, {(f, m)}, {}), Effect(None, {}, {}, {})];
            var history := [0, 1, 0, 2];
            && !Gapless(history)
            && (f, m) in Replay({}, log, history)
            && (f, m) !in Fold({}, log)
  {
    var p := (f, m);
    var e0, e1, e2 := Effect(None, {p}, {}, {}), Effect(None, {}, {p}, {}), Effect(None, {}, {}, {});
    var log := [e0, e1, e2];
    var history: seq<nat> := [0, 1, 0, 2];
    assert history[3] == 2 && history[2] == 0;
    assert history[..3][..2] == [0, 1] && history[..3][2] == 0;
    assert p in Replay({}, log, history[..3]) by { ApplyByVerdict(Replay({}, log, history[..3][..2]), e0, p); }
    ApplyByVerdict(Replay({}, log, history[..3]), e2, p);
    assert log[..2] == [e0, e1] && log[..2][1] == e1;
    assert p !in Fold({}, log[..2]) by { ApplyByVerdict(Fold({}, log[..2][..1]), e1, p); }
    ApplyByVerdict(Fold({}, log[..2]), e2, p);
  }

  // ----- replay against a server that has moved on -----

  /**
   * One pair when a batch is applied again, `final` being where the log ended and `known` the folders there are now.
   * A pair that stays is put back if the batch filed it and kept if the batch left it alone. A pair that is finally
   * absent appears only if the batch filed it, and is removed again where the batch removed it.
   */
  predicate RepeatsAt(first: Effect, p: Pair, was: bool, now: bool, known: set<FolderId>, final: set<Pair>) {
    if p in final then
      if Verdict(first, p).Some? then Verdict(first, p).value ==> now else was ==> now
    else
      && (now && !was ==> Verdict(first, p) == Some(true) && p.0 in known)
      && (Kills(first, p) && p.0 in known ==> !now)
  }

  /** `t` is what a second application of the batch makes of `s`. */
  ghost predicate Repeats(first: Effect, s: set<Pair>, t: set<Pair>, known: set<FolderId>, final: set<Pair>) {
    forall p :: RepeatsAt(first, p, p in s, p in t, known, final)
  }

  /** Folder ids are never reused: a folder dropped after a batch filed mail in it is gone for good. */
  ghost predicate NoResurrection(log: seq<Effect>, known: set<FolderId>) {
    forall i, j, p :: 0 <= i <= j < |log| && p in log[i].adds && log[j].keep.Some? && p.0 !in log[j].keep.value
      ==> p.0 !in known
  }

  function LastVerdict(log: seq<Effect>, p: Pair): Option<bool> {
    if log == [] then None
    else if Verdict(log[|log| - 1], p).Some? then Verdict(log[|log| - 1], p)
    else LastVerdict(log[..|log| - 1], p)
  }

  lemma {:induction false} FoldByVerdict(s: set<Pair>, log: seq<Effect>, p: Pair)
    ensures p in Fold(s, log) <==> if LastVerdict(log, p).Some? then LastVerdict(log, p).value else p in s
  {
    if log != [] {
      FoldByVerdict(s, log[..|log| - 1], p);
      ApplyByVerdict(Fold(s, log[..|log| - 1]), log[|log| - 1], p);
    }
  }

  /** Re-applying a suffix batch by batch agrees with what the suffix decided. */
  lemma {:induction false} AgainAgrees(log: seq<Effect>, states: seq<set<Pair>>, known: set<FolderId>,
                                       final: set<Pair>, p: Pair)
    requires |states| == |log| + 1 && NoResurrection(log, known) && states[0] == final
    requires forall i :: 0 <= i < |log| ==> Repeats(log[i], states[i], states[i + 1], known, final)
    ensures p in final && LastVerdict(log, p) != Some(false) ==> p in states[|log|]
    ensures p !in final && LastVerdict(log, p) != Some(true) ==> p !in states[|log|]
    ensures p !in final && p.0 !in known ==> p !in states[|log|]
  {
    if log != [] {
      var n := |log| - 1;
      assert forall i :: 0 <= i < n ==> log[..n][i] == log[i];
      AgainAgrees(log[..n], states[..n + 1], known, final, p);
      assert Repeats(log[n], states[n], states[n + 1], known, final);
      assert RepeatsAt(log[n], p, p in states[n], p in states[n + 1], known, final);
      if LastVerdict(log[..n], p) == Some(true) {
        var i := LastAdd(log[..n], p);
        assert p in log[i].adds;
      }
    }
  }

  lemma {:induction false} LastAdd(log: seq<Effect>, p: Pair) returns (i: nat)
    requires LastVerdict(log, p) == Some(true)
    ensures i < |log| && p in log[i].adds
  {
    var n := |log| - 1;
    if Verdict(log[n], p).Some? {
      i := n;
    } else {
      i := LastAdd(log[..n], p);
    }
  }

  /**
   * Replay convergence against the server as it is now: apply the log, then apply any suffix of it again while
   * folders may have come and gone and mails deleted since can no longer be loaded. Membership does not change.
   */
  lemma SuffixReplayConverges(s: set<Pair>, log: seq<Effect>, k: nat, states: seq<set<Pair>>, known: set<FolderId>)
    requires k <= |log| && |states| == |log| - k + 1 && NoResurrection(log, known)
    requires states[0] == Fold(s, log)
    requires forall i :: 0 <= i < |log| - k ==> Repeats(log[k + i], states[i], states[i + 1], known, Fold(s, log))
    ensures states[|log| - k] == Fold(s, log)
  {
    var final, suffix := Fold(s, log), log[k..];
    assert log == log[..k] + suffix;
    assert forall i :: 0 <= i < |suffix| ==> suffix[i] == log[k + i];
    assert NoResurrection(suffix, known) by {
      forall i, j, p | 0 <= i <= j < |suffix| && p in suffix[i].adds && suffix[j].keep.Some?
                       && p.0 !in suffix[j].keep.value
        ensures p.0 !in known
      {
        assert p in log[k + i].adds && log[k + j].keep.Some?;
      }
    }
    forall p ensures p in states[|suffix|] <==> p in final {
      AgainAgrees(suffix, states, known, final, p);
      FoldByVerdict(s, log, p);
      LastVerdictConcat(log[..k], suffix, p);
    }
  }

  lemma {:induction false} LastVerdictConcat(a: seq<Effect>, b: seq<Effect>, p: Pair)
    ensures LastVerdict(a + b, p) == if LastVerdict(b, p).Some? then LastVerdict(b, p) else LastVerdict(a, p)
  {
    if b == [] {
      assert a + b == a;
    } else {
      assert (a + b)[..|a + b| - 1] == a + b[..|b| - 1];
      LastVerdictConcat(a, b[..|b| - 1], p);
    }
  }

  // ----- any history against a server that keeps moving on -----

  /** No batch after `i` says anything about the pair. */
  ghost predicate Settled(log: seq<Effect>, i: nat, p: Pair) {
    forall j :: i < j < |log| ==> Verdict(log[j], p).None?
  }

  /** The pair was there at the start, or one of the first batches files it. */
  ghost predicate Named(s: set<Pair>, log: seq<Effect>, p: Pair) {
    p in s || exists i :: 0 <= i < |log| && p in log[i].adds
  }

  /** What a server may show that already has batch `i`: settled pairs as they finally are, and no invented pairs. */
  ghost predicate Shows(start: set<Pair>, log: seq<Effect>, i: nat, server: set<Pair>) {
    && (forall p :: Settled(log, i, p) ==> (p in server <==> p in Fold(start, log)))
    && (forall p :: p in server ==> Named(start, log, p))
  }

  /**
   * Batch `i` is applied while the server shows `server` and has the folders `known`. Memory shows known folders only,
   * and the id of a folder that the batch finds gone is not used again.
   */
  ghost predicate AppliedAgainst(start: set<Pair>, log: seq<Effect>, i: nat, s: set<Pair>, t: set<Pair>,
                                 known: set<FolderId>, server: set<Pair>)
    requires i < |log|
  {
    && Repeats(log[i], s, t, known, server)
    && Shows(start, log, i, server)
    && (forall p :: p in t ==> p.0 in known)
    && (log[i].keep.Some? ==>
          forall p: Pair :: p.0 !in log[i].keep.value && Named(start, log[..i + 1], p) ==> p.0 !in known)
  }

  ghost predicate MovingRun(log: seq<Effect>, history: seq<nat>, states: seq<set<Pair>>, known: seq<set<FolderId>>,
                            servers: seq<set<Pair>>) {
    && |states| == |history| + 1 && |known| == |servers| == |history| && Within(history, |log|)
    && forall j :: 0 <= j < |history| ==>
         AppliedAgainst(states[0], log, history[j], states[j], states[j + 1], known[j], servers[j])
  }

  /** Any state of the server's log that has the batch will do. */
  lemma ServerShows(start: set<Pair>, log: seq<Effect>, i: nat, n: nat)
    requires i < n <= |log|
    ensures Shows(start, log, i, Fold(start, log[..n]))
  {
    forall p ensures (Settled(log, i, p) ==> (p in Fold(start, log[..n]) <==> p in Fold(start, log)))
                     && (p in Fold(start, log[..n]) ==> Named(start, log, p))
    {
      FoldByVerdict(start, log[..n], p);
      FoldByVerdict(start, log, p);
      assert log == log[..n] + log[n..];
      LastVerdictConcat(log[..n], log[n..], p);
      if Settled(log, i, p) && LastVerdict(log[n..], p).Some? {
        var j := LatestVerdict(log[n..], p);
        assert log[n..][j] == log[n + j];
      }
      if LastVerdict(log[..n], p) == Some(true) {
        var j := LastAdd(log[..n], p);
        assert p in log[j].adds;
      }
    }
  }

  lemma {:induction false} OnlyNamed(log: seq<Effect>, history: seq<nat>, states: seq<set<Pair>>,
                                     known: seq<set<FolderId>>, servers: seq<set<Pair>>, j: nat, p: Pair)
    requires MovingRun(log, history, states, known, servers) && j <= |history| && p in states[j]
    ensures Named(states[0], log, p)
  {
    if j > 0 && !Named(states[0], log, p) {
      var i := history[j - 1];
      assert AppliedAgainst(states[0], log, i, states[j - 1], states[j], known[j - 1], servers[j - 1]);
      assert RepeatsAt(log[i], p, p in states[j - 1], p in states[j], known[j - 1], servers[j - 1]);
      OnlyNamed(log, history, states, known, servers, j - 1, p);
    }
  }

  lemma NamedByThen(start: set<Pair>, log: seq<Effect>, i: nat, p: Pair)
    requires Named(start, log, p) && Settled(log, i, p) && i < |log|
    ensures Named(start, log[..i + 1], p)
  {
    if p !in start {
      var k :| 0 <= k < |log| && p in log[k].adds;
      assert k > i ==> Verdict(log[k], p).Some?;
      assert log[..i + 1][k] == log[k];
    }
  }

  /** The last batch with a verdict on a pair gives the pair its final status whenever it is applied. */
  lemma VerdictTakes(log: seq<Effect>, history: seq<nat>, states: seq<set<Pair>>, known: seq<set<FolderId>>,
                     servers: seq<set<Pair>>, j: nat, p: Pair)
    requires MovingRun(log, history, states, known, servers) && j < |history|
    requires Settled(log, history[j], p) && Verdict(log[history[j]], p).Some?
    requires Verdict(log[history[j]], p).value <==> p in Fold(states[0], log)
    ensures p in states[j + 1] <==> p in Fold(states[0], log)
  {
    var i, e := history[j], log[history[j]];
    assert AppliedAgainst(states[0], log, i, states[j], states[j + 1], known[j], servers[j]);
    assert RepeatsAt(e, p, p in states[j], p in states[j + 1], known[j], servers[j]);
    if p in states[j + 1] {
      OnlyNamed(log, history, states, known, servers, j + 1, p);
      NamedByThen(states[0], log, i, p);
    }
  }

  /** A batch that says nothing about a settled pair leaves its final status alone. */
  lemma SilentStays(log: seq<Effect>, history: seq<nat>, states: seq<set<Pair>>, known: seq<set<FolderId>>,
                    servers: seq<set<Pair>>, j: nat, p: Pair)
    requires MovingRun(log, history, states, known, servers) && j < |history|
    requires Settled(log, history[j], p) && Verdict(log[history[j]], p).None?
    requires p in states[j] <==> p in Fold(states[0], log)
    ensures p in states[j + 1] <==> p in Fold(states[0], log)
  {
    assert AppliedAgainst(states[0], log, history[j], states[j], states[j + 1], known[j], servers[j]);
    assert RepeatsAt(log[history[j]], p, p in states[j], p in states[j + 1], known[j], servers[j]);
  }

  lemma {:induction false} SilentRun(log: seq<Effect>, history: seq<nat>, states: seq<set<Pair>>,
                                     known: seq<set<FolderId>>, servers: seq<set<Pair>>, t: nat, n: nat, p: Pair)
    requires MovingRun(log, history, states, known, servers) && t <= n <= |history|
    requires forall j :: t <= j < n ==> Settled(log, history[j], p) && Verdict(log[history[j]], p).None?
    requires p in states[t] <==> p in Fold(states[0], log)
    ensures p in states[n] <==> p in Fold(states[0], log)
  {
    if t < n {
      SilentRun(log, history, states, known, servers, t, n - 1, p);
      SilentStays(log, history, states, known, servers, n - 1, p);
    }
  }

  /**
   * Replay convergence with any number of reconnects, while the server moves on between any two applications: when
   * every batch has been applied and the last applications come in log order, membership is that of one pass over the
   * log.
   */
  lemma MovingServerConverges(log: seq<Effect>, history: seq<nat>, states: seq<set<Pair>>,
                              known: seq<set<FolderId>>, servers: seq<set<Pair>>)
    requires MovingRun(log, history, states, known, servers) && EndsInOrder(history, |log|)
    ensures states[|history|] == Fold(states[0], log)
  {
    forall p ensures p in states[|history|] <==> p in Fold(states[0], log) {
      FoldByVerdict(states[0], log, p);
      if LastVerdict(log, p).Some? {
        var k := LatestVerdict(log, p);
        var t := LastOccurrence(history, k);
        LaterStays(history, |log|, k, t);
        VerdictTakes(log, history, states, known, servers, t, p);
        SilentRun(log, history, states, known, servers, t + 1, |history|, p);
      } else {
        NoVerdict(log, p);
        SilentRun(log, history, states, known, servers, 0, |history|, p);
      }
    }
  }
}
