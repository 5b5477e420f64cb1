/** The membership a batch leaves behind, once every CREATE it carries can be resolved. */
module Resolution {
  import opened Wrappers
  import opened MailTypes
  import opened ReplicaSpec
  import opened Reordering

  /** The (folder, mail) pair an entry event speaks about. */
  function EntryPair(ev: EntityUpdateEvent, routes: Routes): Option<Pair> {
    if EntryMail(ev).Some? && ev.instanceListId in routes
    then Some((routes[ev.instanceListId].id, EntryMail(ev).value)) else None
  }

  function EntryPairs(evs: seq<EntityUpdateEvent>, routes: Routes): set<Pair> {
    set ev | ev in evs && EntryPair(ev, routes).Some? :: EntryPair(ev, routes).value
  }

  /** Mails a mail event takes out of every folder: deleted, or updated without being readable any more. */
  predicate Erases(ev: EntityUpdateEvent, b: Backend) {
    ev.operation.Delete? || (ev.operation.Update? && ResolvedMail(b, ev).None?)
  }

  function ErasedMails(evs: seq<EntityUpdateEvent>, b: Backend): set<MailId> {
    set ev | ev in evs && Erases(ev, b) :: ev.instanceId
  }

  /**
   * The CREATE will place the mail its id names: the mail is cached somewhere, rode along in the batch, or
   * the server still has it.
   */
  ghost predicate Resolves(ev: EntityUpdateEvent, routes: Routes, b: Backend, members: set<Pair>, pending: Pending) {
    && EntryPair(ev, routes).Some?
    && var m := EntryPair(ev, routes).value.1;
       || Somewhere(members, m)
       || (m in pending && pending[m].mail.id == m)
       || (m !in pending && ResolvedEntry(b, ev).Some?
           && var id := ResolvedEntry(b, ev).value;
              var answer := b.loadMail(id.0, id.1);
              answer.Ok? && answer.value.Some? && answer.value.value.id == m)
  }

  /** While creates run, a pooled mail is either still pooled or already placed. */
  ghost predicate PoolCovered(c: Creating, pending: Pending) {
    && c.pending.Keys <= pending.Keys
    && forall m :: m in pending ==> (m in c.pending && c.pending[m] == pending[m]) || Somewhere(c.replica.members, m)
  }

  lemma {:induction false} CreateAllResolved(r: Replica, pending: Pending, evs: seq<EntityUpdateEvent>,
                                             routes: Routes, b: Backend)
    requires forall ev :: ev in evs ==> Resolves(ev, routes, b, r.members, pending)
    ensures var c := CreateAll(Creating(r, pending, {}), evs, routes, b);
            && c.replica.members == r.members + EntryPairs(evs, routes)
            && c.fallback == {}
            && PoolCovered(c, pending)
  {
    if evs != [] {
      var n := |evs| - 1;
      var ev := evs[n];
      CreateAllResolved(r, pending, evs[..n], routes, b);
      var c := CreateAll(Creating(r, pending, {}), evs[..n], routes, b);
      assert evs == evs[..n] + [ev];
      assert ev in evs && Resolves(ev, routes, b, r.members, pending);
      assert EntryPairs(evs, routes) == EntryPairs(evs[..n], routes) + {EntryPair(ev, routes).value};
      CreateStepResolved(c, pending, r.members, ev, routes, b);
    }
  }

  lemma CreateStepResolved(c: Creating, pending: Pending, members: set<Pair>, ev: EntityUpdateEvent, routes: Routes,
                           b: Backend)
    requires members <= c.replica.members && PoolCovered(c, pending) && Resolves(ev, routes, b, members, pending)
    ensures var next := CreateStep(c, ev, routes, b);
            && next.replica.members == c.replica.members + {EntryPair(ev, routes).value}
            && next.fallback == c.fallback
            && PoolCovered(next, pending)
  {
    var (f, m) := EntryPair(ev, routes).value;
    var next := CreateStep(c, ev, routes, b);
    if Somewhere(members, m) {
      var g :| (g, m) in members;
      assert Somewhere(c.replica.members, m);
    }
    assert next.replica.members == c.replica.members + {(f, m)};
    assert (f, m) in next.replica.members;
    forall k | k in pending
      ensures (k in next.pending && next.pending[k] == pending[k]) || Somewhere(next.replica.members, k)
    {
      if Somewhere(c.replica.members, k) {
        var g :| (g, k) in c.replica.members;
        assert (g, k) in next.replica.members;
      }
    }
  }

  lemma {:induction false} DeleteAllMembers(r: Replica, evs: seq<EntityUpdateEvent>, routes: Routes)
    ensures DeleteAll(r, evs, routes).members == r.members - EntryPairs(evs, routes)
  {
    if evs != [] {
      var n := |evs| - 1;
      DeleteAllMembers(r, evs[..n], routes);
      assert evs == evs[..n] + [evs[n]];
      assert EntryPairs(evs, routes) == EntryPairs(evs[..n], routes)
             + if EntryPair(evs[n], routes).Some? then {EntryPair(evs[n], routes).value} else {};
    }
  }

  lemma {:induction false} MailAllMembers(r: Replica, evs: seq<EntityUpdateEvent>, b: Backend)
    ensures MailAll(r, evs, b).members == set p | p in r.members && p.1 !in ErasedMails(evs, b)
  {
    if evs != [] {
      var n := |evs| - 1;
      MailAllMembers(r, evs[..n], b);
      assert evs == evs[..n] + [evs[n]];
      assert ErasedMails(evs, b) == ErasedMails(evs[..n], b) + ErasedMails([evs[n]], b);
    }
  }

  /** Every CREATE of the batch resolves, in the state the folder refresh leaves. */
  ghost predicate AllResolve(r: Replica, list: seq<FolderInfo>, batch: EntityUpdateBatch, b: Backend) {
    var k := Buckets(batch.updates);
    forall ev :: ev in k.entryCreates ==>
      Resolves(ev, RoutesOf(ListFor(list, batch, b)), b, Refreshed(r, batch, b).members,
               Predecrypted(b, k.mailCreates))
  }

  /** What a batch does to membership: `adds`, then `drops`, then `erased`, after the folder refresh. */
  datatype Effect = Effect(keep: Option<set<FolderId>>, adds: set<Pair>, drops: set<Pair>, erased: set<MailId>)

  function Apply(s: set<Pair>, e: Effect): set<Pair> {
    set p | p in s + e.adds && Survives(e, p, p in s)
  }

  predicate Kills(e: Effect, p: Pair) {
    p in e.drops || p.1 in e.erased
  }

  predicate Survives(e: Effect, p: Pair, was: bool) {
    !Kills(e, p) && (p in e.adds || (was && (e.keep.Some? ==> p.0 in e.keep.value)))
  }

  function EffectOf(list: seq<FolderInfo>, batch: EntityUpdateBatch, b: Backend): Effect {
    var k := Buckets(batch.updates);
    var routes := RoutesOf(ListFor(list, batch, b));
    Effect(if Refreshes(batch, b) then Some(FolderIds(b.listFolders.value)) else None,
           EntryPairs(k.entryCreates, routes), EntryPairs(k.entryDeletes, routes), ErasedMails(k.mailEvents, b))
  }

  lemma EmptyOrder<T(!new)>(order: seq<T>, s: set<T>)
    requires Enumerates(order, s)
    ensures s == {} ==> order == []
  {
    if order != [] {
      assert order[0] in s;
    }
  }

  /** The batch as the handler runs it has exactly that effect, and asks for no folder listing. */
  lemma BatchIsEffect(r: Replica, list: seq<FolderInfo>, batch: EntityUpdateBatch, b: Backend, order: seq<string>)
    requires AllResolve(r, list, batch, b)
    requires Enumerates(order, AfterCreates(r, list, batch, b).fallback)
    ensures order == []
    ensures AfterBatch(r, list, batch, b, order).members == Apply(r.members, EffectOf(list, batch, b))
  {
    var k := Buckets(batch.updates);
    var routes := RoutesOf(ListFor(list, batch, b));
    var start := Refreshed(r, batch, b);
    CreateAllResolved(start, Predecrypted(b, k.mailCreates), k.entryCreates, routes, b);
    var created := AfterCreates(r, list, batch, b).replica;
    DeleteAllMembers(created, k.entryDeletes, routes);
    MailAllMembers(DeleteAll(created, k.entryDeletes, routes), k.mailEvents, b);
    EmptyOrder(order, AfterCreates(r, list, batch, b).fallback);
  }

  /** The wire meaning of one event. */
  function Meaning(ev: EntityUpdateEvent, routes: Routes, b: Backend): Op {
    if IsEntryCreate(ev) && EntryPair(ev, routes).Some? then Add(EntryPair(ev, routes).value)
    else if IsEntryDelete(ev) && EntryPair(ev, routes).Some? then Drop(EntryPair(ev, routes).value)
    else if IsMailEvent(ev) && Erases(ev, b) then DropMail(ev.instanceId)
    else Skip
  }

  function Meanings(updates: seq<EntityUpdateEvent>, routes: Routes, b: Backend): seq<Op> {
    seq(|updates|, i requires 0 <= i < |updates| => Meaning(updates[i], routes, b))
  }

  lemma MeaningsAre(updates: seq<EntityUpdateEvent>, routes: Routes, b: Backend, op: Op)
    ensures op in Meanings(updates, routes, b) <==> exists ev :: ev in updates && Meaning(ev, routes, b) == op
  {
    var ops := Meanings(updates, routes, b);
    if op in ops {
      var i :| 0 <= i < |ops| && ops[i] == op;
      assert updates[i] in updates;
    }
    if ev :| ev in updates && Meaning(ev, routes, b) == op {
      var i :| 0 <= i < |updates| && updates[i] == ev;
      assert ops[i] == op;
    }
  }

  lemma AddsMentioned(updates: seq<EntityUpdateEvent>, routes: Routes, b: Backend, p: Pair)
    ensures p in EntryPairs(Buckets(updates).entryCreates, routes) <==> HasAdd(Meanings(updates, routes, b), p)
  {
    MeaningsAre(updates, routes, b, Add(p));
    if ev :| ev in updates && Meaning(ev, routes, b) == Add(p) {
      assert ev in Buckets(updates).entryCreates;
    }
  }

  lemma DropsMentioned(updates: seq<EntityUpdateEvent>, routes: Routes, b: Backend, p: Pair)
    ensures p in EntryPairs(Buckets(updates).entryDeletes, routes) <==> Drop(p) in Meanings(updates, routes, b)
  {
    MeaningsAre(updates, routes, b, Drop(p));
    if ev :| ev in updates && Meaning(ev, routes, b) == Drop(p) {
      assert ev in Buckets(updates).entryDeletes;
    }
  }

  lemma ErasuresMentioned(updates: seq<EntityUpdateEvent>, routes: Routes, b: Backend, m: MailId)
    ensures m in ErasedMails(Buckets(updates).mailEvents, b) <==> DropMail(m) in Meanings(updates, routes, b)
  {
    MeaningsAre(updates, routes, b, DropMail(m));
    if ev :| ev in updates && Meaning(ev, routes, b) == DropMail(m) {
      assert ev in Buckets(updates).mailEvents;
    }
  }

  lemma EffectMentions(list: seq<FolderInfo>, batch: EntityUpdateBatch, b: Backend, p: Pair)
    ensures var e := EffectOf(list, batch, b);
            var ops := Meanings(batch.updates, RoutesOf(ListFor(list, batch, b)), b);
            (p in e.adds <==> HasAdd(ops, p)) && (Kills(e, p) <==> HasRemoval(ops, p))
  {
    var routes := RoutesOf(ListFor(list, batch, b));
    AddsMentioned(batch.updates, routes, b, p);
    DropsMentioned(batch.updates, routes, b, p);
    ErasuresMentioned(batch.updates, routes, b, p.1);
  }

  /**
   * Batch reordering, on the handler itself: with every CREATE resolved, applying the batch gives the
   * membership of its events taken in wire order if and only if no pair is removed and then re-created last.
   */
  lemma HandlerFollowsWireIff(r: Replica, list: seq<FolderInfo>, batch: EntityUpdateBatch, b: Backend,
                              order: seq<string>)
    requires AllResolve(r, list, batch, b)
    requires Enumerates(order, AfterCreates(r, list, batch, b).fallback)
    ensures var ops := Meanings(batch.updates, RoutesOf(ListFor(list, batch, b)), b);
            AfterBatch(r, list, batch, b, order).members == Run(Refreshed(r, batch, b).members, ops)
            <==> forall p :: !Clobbered(ops, p)
  {
    var ops := Meanings(batch.updates, RoutesOf(ListFor(list, batch, b)), b);
    var s := Refreshed(r, batch, b).members;
    BatchIsEffect(r, list, batch, b, order);
    forall p ensures p in AfterBatch(r, list, batch, b, order).members <==> p in Run(s, Bucketing(ops)) {
      EffectMentions(list, batch, b, p);
      BucketedLast(ops, p);
      RunByLast(s, Bucketing(ops), p);
    }
    assert AfterBatch(r, list, batch, b, order).members == Run(s, Bucketing(ops));
    ReorderingPreservesIff(s, ops);
  }
}
