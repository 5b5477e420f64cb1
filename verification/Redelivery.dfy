/** Batches delivered a second time while the server has moved on: what the handler then makes of them. */
module Redelivery {
  import opened Wrappers
  import opened MailTypes
  import opened ReplicaSpec
  import opened Resolution
  import opened Convergence
  import opened Agreement
  import opened Replication
  import Bus = EventBus

  // ----- the effect as the server answers now -----

  /** What the events of a batch do to membership: `adds` holds only the pairs its CREATEs manage to place. */
  ghost function EffectNow(r: Replica, list: seq<FolderInfo>, batch: EntityUpdateBatch, b: Backend): Effect {
    Effect(if Refreshes(batch, b) then Some(FolderIds(b.listFolders.value)) else None,
           PlacedBy(r, list, batch, b), DroppedBy(list, batch, b), ErasedBy(batch, b))
  }

  /** The events of any batch have that effect, whatever resolves and whatever is gone. */
  lemma EventsAreEffectNow(r: Replica, list: seq<FolderInfo>, batch: EntityUpdateBatch, b: Backend)
    requires HonestCreates(batch, b)
    ensures AfterEvents(r, list, batch, b).members == Resolution.Apply(r.members, EffectNow(r, list, batch, b))
  {
    var k, routes := Buckets(batch.updates), RoutesOf(ListFor(list, batch, b));
    var start := Refreshed(r, batch, b);
    CreatesRefile(start, Predecrypted(b, k.mailCreates), k.entryCreates, routes, b);
    var created := AfterCreates(r, list, batch, b).replica;
    DeletesTrim(created, k.entryDeletes, routes);
    MailEventsErase(DeleteAll(created, k.entryDeletes, routes), k.mailEvents, b);
    EffectOnMembers(r.members, start.members, AfterEvents(r, list, batch, b).members, EffectNow(r, list, batch, b));
  }

  lemma EffectOnMembers(before: set<Pair>, start: set<Pair>, after: set<Pair>, e: Effect)
    requires forall p :: p in start <==> p in before && (e.keep.Some? ==> p.0 in e.keep.value)
    requires after == set p | p in (start + e.adds) - e.drops && p.1 !in e.erased
    ensures after == Resolution.Apply(before, e)
  {
  }

  // ----- creates: placed, gone, or re-listed -----

  /** Asked for the CREATE's mail, the server says that it is gone. */
  predicate Gone(ev: EntityUpdateEvent, b: Backend) {
    ResolvedEntry(b, ev).Some? && b.loadMail(ResolvedEntry(b, ev).value.0, ResolvedEntry(b, ev).value.1) == Ok(None)
  }

  lemma {:induction false} PlacedOrRelisted(c: Creating, evs: seq<EntityUpdateEvent>, routes: Routes, b: Backend,
                                            ev: EntityUpdateEvent)
    requires ev in evs && EntryPair(ev, routes).Some? && !Gone(ev, b)
    ensures EntryPair(ev, routes).value in Placed(c, evs, routes, b)
            || ev.instanceListId in CreateAll(c, evs, routes, b).fallback
  {
    var n := |evs| - 1;
    assert evs == evs[..n] + [evs[n]];
    if ev in evs[..n] {
      PlacedOrRelisted(c, evs[..n], routes, b, ev);
    }
  }

  lemma {:induction false} PlacedAreNamed(c: Creating, evs: seq<EntityUpdateEvent>, routes: Routes, b: Backend)
    ensures Placed(c, evs, routes, b) <= EntryPairs(evs, routes)
  {
    if evs != [] {
      var n := |evs| - 1;
      assert evs == evs[..n] + [evs[n]];
      PlacedAreNamed(c, evs[..n], routes, b);
    }
  }

  // ----- fallback syncs -----

  /** The listing the server gives for a folder is what the log left in it. */
  ghost predicate ListsFinal(e: string, routes: Routes, b: Backend, final: set<Pair>) {
    e in routes ==>
      && b.folderMails(routes[e]).Ok?
      && forall m :: m in MailIds(b.folderMails(routes[e]).value) <==> (routes[e].id, m) in final
  }

  predicate Relists(order: seq<string>, routes: Routes, f: FolderId) {
    exists i :: 0 <= i < |order| && order[i] in routes && routes[order[i]].id == f
  }

  lemma {:induction false} RelistAllMembers(r: Replica, order: seq<string>, routes: Routes, b: Backend,
                                            final: set<Pair>, p: Pair)
    requires forall i :: 0 <= i < |order| ==> ListsFinal(order[i], routes, b, final)
    ensures p in RelistAll(r, order, routes, b).members
            <==> if Relists(order, routes, p.0) then p in final else p in r.members
  {
    if order != [] {
      var n := |order| - 1;
      RelistAllMembers(r, order[..n], routes, b, final, p);
      RelistsLast(order, routes, p.0);
      assert ListsFinal(order[n], routes, b, final);
      if order[n] in routes && routes[order[n]].id == p.0 {
        assert p == (p.0, p.1);
      }
    }
  }

  lemma RelistsLast(order: seq<string>, routes: Routes, f: FolderId)
    requires order != []
    ensures var n := |order| - 1;
            Relists(order, routes, f)
            <==> Relists(order[..n], routes, f) || (order[n] in routes && routes[order[n]].id == f)
  {
    var n := |order| - 1;
    if Relists(order[..n], routes, f) {
      var i :| 0 <= i < n && order[..n][i] in routes && routes[order[..n][i]].id == f;
      assert order[i] in routes;
    }
    if Relists(order, routes, f) {
      var i :| 0 <= i < |order| && order[i] in routes && routes[order[i]].id == f;
      assert i < n ==> order[..n][i] == order[i];
    }
  }

  // ----- the server then and now -----

  /** The event's folder has the same id then and now, and is routed now if it was then and still exists. */
  predicate SameFolder(ev: EntityUpdateEvent, earlier: Routes, now: Routes, known: set<FolderId>) {
    var e := ev.instanceListId;
    && (e in now ==> e in earlier && now[e].id == earlier[e].id)
    && (e in earlier && earlier[e].id in known ==> e in now)
  }

  /**
   * The server has moved on from the first application to `final`: folders may have gone, mails may have gone, but
   * mails that are finally filed still load, UPDATEs that failed still fail, and listings show what is filed.
   */
  ghost predicate MovedOn(batch: EntityUpdateBatch, first: Application, a: Application, final: set<Pair>) {
    var k := Buckets(batch.updates);
    var earlier, now := RoutesOf(ListFor(first.list, batch, first.backend)), RoutesOf(ListFor(a.list, batch, a.backend));
    && HonestCreates(batch, a.backend)
    && (forall ev :: ev in k.entryCreates || ev in k.entryDeletes ==>
          SameFolder(ev, earlier, now, FolderIds(ListFor(a.list, batch, a.backend))))
    && (forall ev :: ev in k.entryCreates && EntryPair(ev, now).Some? && EntryPair(ev, now).value in final ==>
          !Gone(ev, a.backend))
    && (forall ev :: ev in k.mailEvents && Erases(ev, first.backend) ==> Erases(ev, a.backend))
    && (forall ev :: ev in k.mailEvents && Erases(ev, a.backend) && Somewhere(final, ev.instanceId) ==>
          Erases(ev, first.backend))
    && (forall i :: 0 <= i < |a.order| ==> ListsFinal(a.order[i], now, a.backend, final))
  }

  lemma {:induction false} RoutesListed(list: seq<FolderInfo>, e: string)
    requires e in RoutesOf(list)
    ensures RoutesOf(list)[e].id in FolderIds(list)
  {
    var n := |list| - 1;
    assert list == list[..n] + [list[n]];
    if e != list[n].entriesListId {
      RoutesListed(list[..n], e);
    }
  }

  lemma NamedNowThen(evs: seq<EntityUpdateEvent>, earlier: Routes, now: Routes, known: set<FolderId>, p: Pair)
    requires forall ev :: ev in evs ==> SameFolder(ev, earlier, now, known)
    ensures p in EntryPairs(evs, now) ==> p in EntryPairs(evs, earlier)
    ensures p in EntryPairs(evs, earlier) && p.0 in known ==> p in EntryPairs(evs, now)
  {
    if p in EntryPairs(evs, now) {
      var ev :| ev in evs && EntryPair(ev, now) == Some(p);
      assert SameFolder(ev, earlier, now, known) && EntryPair(ev, earlier) == Some(p);
    }
    if p in EntryPairs(evs, earlier) && p.0 in known {
      var ev :| ev in evs && EntryPair(ev, earlier) == Some(p);
      assert SameFolder(ev, earlier, now, known) && EntryPair(ev, now) == Some(p);
    }
  }

  lemma NamedNowKnown(evs: seq<EntityUpdateEvent>, list: seq<FolderInfo>, p: Pair)
    requires p in EntryPairs(evs, RoutesOf(list))
    ensures p.0 in FolderIds(list)
  {
    var ev :| ev in evs && EntryPair(ev, RoutesOf(list)) == Some(p);
    RoutesListed(list, ev.instanceListId);
  }

  /** What the second application adds, drops and erases, compared with the first. */
  predicate Compares(first: Effect, now: Effect, p: Pair, relisted: bool, known: set<FolderId>, final: set<Pair>) {
    && (p in now.adds ==> p in first.adds && p.0 in known)
    && (p in first.adds && p in final ==> p in now.adds || relisted)
    && (p in now.drops ==> p in first.drops)
    && (p in first.drops && p.0 in known ==> p in now.drops)
    && (p.1 in first.erased ==> p.1 in now.erased)
    && (p.1 in now.erased && p in final ==> p.1 in first.erased)
    && (now.keep.Some? ==> now.keep.value == known)
  }

  lemma ComparedRepeats(first: Effect, now: Effect, p: Pair, relisted: bool, known: set<FolderId>, final: set<Pair>,
                        before: set<Pair>, after: set<Pair>)
    requires Compares(first, now, p, relisted, known, final) && (p in final ==> p.0 in known)
    requires p in after <==> if relisted then p in final else p in Resolution.Apply(before, now)
    ensures RepeatsAt(first, p, p in before, p in after, known, final)
  {
  }

  lemma MovedOnCompares(r: Replica, batch: EntityUpdateBatch, first: Application, a: Application, final: set<Pair>,
                        p: Pair)
    requires MovedOn(batch, first, a, final)
    requires Enumerates(a.order, AfterCreates(r, a.list, batch, a.backend).fallback)
    requires p in final ==> p.0 in FolderIds(ListFor(a.list, batch, a.backend))
    ensures Compares(EffectOf(first.list, batch, first.backend), EffectNow(r, a.list, batch, a.backend), p,
                     Relists(a.order, RoutesOf(ListFor(a.list, batch, a.backend)), p.0),
                     FolderIds(ListFor(a.list, batch, a.backend)), final)
  {
    var k, list := Buckets(batch.updates), ListFor(a.list, batch, a.backend);
    var earlier, now := RoutesOf(ListFor(first.list, batch, first.backend)), RoutesOf(list);
    var known := FolderIds(list);
    NamedNowThen(k.entryCreates, earlier, now, known, p);
    NamedNowThen(k.entryDeletes, earlier, now, known, p);
    PlacedAreNamed(Creating(Refreshed(r, batch, a.backend), Predecrypted(a.backend, k.mailCreates), {}), k.entryCreates,
                   now, a.backend);
    if p in EntryPairs(k.entryCreates, now) {
      NamedNowKnown(k.entryCreates, list, p);
      if p in final {
        StillPlaced(r, batch, first, a, final, p);
      }
    }
    ErasedThenNow(batch, first, a, final, p);
  }

  lemma StillPlaced(r: Replica, batch: EntityUpdateBatch, first: Application, a: Application, final: set<Pair>, p: Pair)
    requires MovedOn(batch, first, a, final) && p in final
    requires Enumerates(a.order, AfterCreates(r, a.list, batch, a.backend).fallback)
    requires p in EntryPairs(Buckets(batch.updates).entryCreates, RoutesOf(ListFor(a.list, batch, a.backend)))
    ensures p in PlacedBy(r, a.list, batch, a.backend)
            || Relists(a.order, RoutesOf(ListFor(a.list, batch, a.backend)), p.0)
  {
    var k, now := Buckets(batch.updates), RoutesOf(ListFor(a.list, batch, a.backend));
    var ev :| ev in k.entryCreates && EntryPair(ev, now) == Some(p);
    PlacedOrRelisted(Creating(Refreshed(r, batch, a.backend), Predecrypted(a.backend, k.mailCreates), {}),
                     k.entryCreates, now, a.backend, ev);
    if ev.instanceListId in AfterCreates(r, a.list, batch, a.backend).fallback {
      assert ev.instanceListId in a.order;
      var i :| 0 <= i < |a.order| && a.order[i] == ev.instanceListId;
    }
  }

  lemma ErasedThenNow(batch: EntityUpdateBatch, first: Application, a: Application, final: set<Pair>, p: Pair)
    requires MovedOn(batch, first, a, final)
    ensures p.1 in ErasedBy(batch, first.backend) ==> p.1 in ErasedBy(batch, a.backend)
    ensures p.1 in ErasedBy(batch, a.backend) && p in final ==> p.1 in ErasedBy(batch, first.backend)
  {
    assert p == (p.0, p.1);
    assert p in final ==> Somewhere(final, p.1);
  }

  /** The handler, applying the batch again, repeats it in the sense of replay convergence. */
  lemma HandlerRepeats(r: Replica, batch: EntityUpdateBatch, first: Application, a: Application, final: set<Pair>)
    requires MovedOn(batch, first, a, final)
    requires Enumerates(a.order, AfterCreates(r, a.list, batch, a.backend).fallback)
    requires forall p :: p in final ==> p.0 in FolderIds(ListFor(a.list, batch, a.backend))
    ensures Repeats(EffectOf(first.list, batch, first.backend), r.members,
                    AfterBatch(r, a.list, batch, a.backend, a.order).members,
                    FolderIds(ListFor(a.list, batch, a.backend)), final)
  {
    var now, known := RoutesOf(ListFor(a.list, batch, a.backend)), FolderIds(ListFor(a.list, batch, a.backend));
    var events, effect := AfterEvents(r, a.list, batch, a.backend), EffectNow(r, a.list, batch, a.backend);
    EventsAreEffectNow(r, a.list, batch, a.backend);
    forall p ensures RepeatsAt(EffectOf(first.list, batch, first.backend), p, p in r.members,
                               p in AfterBatch(r, a.list, batch, a.backend, a.order).members, known, final)
    {
      RelistAllMembers(events, a.order, now, a.backend, final, p);
      MovedOnCompares(r, batch, first, a, final, p);
      ComparedRepeats(EffectOf(first.list, batch, first.backend), effect, p, Relists(a.order, now, p.0), known, final,
                      r.members, AfterBatch(r, a.list, batch, a.backend, a.order).members);
    }
  }

  // ----- a whole suffix -----

  /** Batch `k + i` is applied again in state `i`, against a server that has moved on. */
  ghost predicate Redelivers(states: seq<Replica>, batches: seq<EntityUpdateBatch>, first: seq<Application>, k: nat,
                             again: seq<Application>, known: set<FolderId>, final: set<Pair>)
    requires |first| == |batches|
  {
    && k <= |batches| && |again| == |batches| - k && |states| == |again| + 1
    && forall i :: 0 <= i < |again| ==> RedeliversAt(states, batches, first, k, again, known, final, i)
  }

  ghost predicate RedeliversAt(states: seq<Replica>, batches: seq<EntityUpdateBatch>, first: seq<Application>, k: nat,
                               again: seq<Application>, known: set<FolderId>, final: set<Pair>, i: nat)
    requires |first| == |batches| && |states| == |again| + 1 && |again| + k == |batches| && i < |again|
  {
    RedeliversOne(states[i], batches[k + i], first[k + i], again[i], known, final, states[i + 1])
  }

  ghost predicate RedeliversOne(before: Replica, batch: EntityUpdateBatch, first: Application, a: Application,
                                known: set<FolderId>, final: set<Pair>, after: Replica) {
    && FolderIds(ListFor(a.list, batch, a.backend)) == known
    && MovedOn(batch, first, a, final)
    && Enumerates(a.order, AfterCreates(before, a.list, batch, a.backend).fallback)
    && after == AfterBatch(before, a.list, batch, a.backend, a.order)
  }

  /** The log, batch by batch, each CREATE resolved. */
  ghost predicate FirstPass(states: seq<Replica>, batches: seq<EntityUpdateBatch>, first: seq<Application>) {
    && |first| == |batches| && |states| == |batches| + 1
    && forall i :: 0 <= i < |batches| ==> FirstAt(states, batches, first, i)
  }

  ghost predicate FirstAt(states: seq<Replica>, batches: seq<EntityUpdateBatch>, first: seq<Application>, i: nat)
    requires |first| == |batches| && |states| == |batches| + 1 && i < |batches|
  {
    Handled(states[i], batches[i], EffectOf(first[i].list, batches[i], first[i].backend), first[i], states[i + 1])
  }

  function Effects(batches: seq<EntityUpdateBatch>, first: seq<Application>): seq<Effect>
    requires |first| == |batches|
  {
    seq(|batches|, i requires 0 <= i < |batches| => EffectOf(first[i].list, batches[i], first[i].backend))
  }

  lemma {:induction false} FirstPassFolds(states: seq<Replica>, batches: seq<EntityUpdateBatch>,
                                          first: seq<Application>, n: nat)
    requires FirstPass(states, batches, first) && n <= |batches|
    ensures states[n].members == Fold(states[0].members, Effects(batches, first)[..n])
  {
    if n > 0 {
      FirstPassFolds(states, batches, first, n - 1);
      assert FirstAt(states, batches, first, n - 1);
      var log := Effects(batches, first);
      HandledIsEffect(states[n - 1], batches[n - 1], log[n - 1], first[n - 1], states[n]);
      assert log[..n][..n - 1] == log[..n - 1];
    }
  }

  lemma OneRepeats(before: Replica, batch: EntityUpdateBatch, first: Application, a: Application,
                   known: set<FolderId>, final: set<Pair>, after: Replica)
    requires RedeliversOne(before, batch, first, a, known, final, after) && forall p :: p in final ==> p.0 in known
    ensures Repeats(EffectOf(first.list, batch, first.backend), before.members, after.members, known, final)
  {
    HandlerRepeats(before, batch, first, a, final);
  }

  function MembersOf(states: seq<Replica>): (sets: seq<set<Pair>>)
    ensures |sets| == |states| && forall i :: 0 <= i < |states| ==> sets[i] == states[i].members
  {
    seq(|states|, i requires 0 <= i < |states| => states[i].members)
  }

  lemma {:induction false} SuffixStepRepeats(states: seq<Replica>, batches: seq<EntityUpdateBatch>,
                                             first: seq<Application>, k: nat, again: seq<Application>,
                                             known: set<FolderId>, final: set<Pair>, i: nat)
    requires |first| == |batches| && Redelivers(states, batches, first, k, again, known, final) && i < |again|
    requires forall p :: p in final ==> p.0 in known
    ensures Repeats(Effects(batches, first)[k + i], MembersOf(states)[i], MembersOf(states)[i + 1], known, final)
  {
    assert RedeliversAt(states, batches, first, k, again, known, final, i);
    OneRepeats(states[i], batches[k + i], first[k + i], again[i], known, final, states[i + 1]);
  }

  lemma {:induction false} SuffixRepeats(states: seq<Replica>, batches: seq<EntityUpdateBatch>,
                                         first: seq<Application>, k: nat, again: seq<Application>,
                                         known: set<FolderId>, final: set<Pair>)
    requires |first| == |batches| && Redelivers(states, batches, first, k, again, known, final)
    requires forall p :: p in final ==> p.0 in known
    ensures forall i :: 0 <= i < |again| ==>
              Repeats(Effects(batches, first)[k + i], MembersOf(states)[i], MembersOf(states)[i + 1], known, final)
  {
    forall i | 0 <= i < |again|
      ensures Repeats(Effects(batches, first)[k + i], MembersOf(states)[i], MembersOf(states)[i + 1], known, final)
    {
      SuffixStepRepeats(states, batches, first, k, again, known, final, i);
    }
  }

  lemma FirstPassEnds(states: seq<Replica>, batches: seq<EntityUpdateBatch>, first: seq<Application>)
    requires FirstPass(states, batches, first)
    ensures states[|batches|].members == Fold(states[0].members, Effects(batches, first))
  {
    FirstPassFolds(states, batches, first, |batches|);
    assert Effects(batches, first)[..|batches|] == Effects(batches, first);
  }

  /**
   * Replay convergence on the handler: after one pass over the log, any suffix delivered again to the handler leaves
   * membership as it was, although by now folders are gone, CREATEs of deleted mails find nothing, and other CREATEs
   * fall back to a full sync of their folder.
   */
  lemma RedeliveryConverges(states: seq<Replica>, batches: seq<EntityUpdateBatch>, first: seq<Application>, k: nat,
                            later: seq<Replica>, again: seq<Application>, known: set<FolderId>)
    requires FirstPass(states, batches, first)
    requires Redelivers(later, batches, first, k, again, known, states[|batches|].members)
    requires later[0].members == states[|batches|].members
    requires NoResurrection(Effects(batches, first), known)
    requires forall p :: p in states[|batches|].members ==> p.0 in known
    ensures later[|again|].members == states[|batches|].members
  {
    FirstPassEnds(states, batches, first);
    SuffixRepeats(later, batches, first, k, again, known, states[|batches|].members);
    SuffixReplayConverges(states[0].members, Effects(batches, first), k, MembersOf(later), known);
  }

  // ----- any number of redeliveries -----

  /**
   * One application of batch `a.index`, which takes the replica from `before` to `after` while the server has the
   * folders `known` and shows `server` in them.
   */
  datatype Delivery = Delivery(a: Application, before: Replica, after: Replica, known: set<FolderId>,
                               server: set<Pair>)

  /**
   * The handler applies the batch, and the server's answers fit the log, whose effects are `log`. `reference` says
   * which folder each entries list belongs to and which mails the batch erases. Memory shows listed folders only.
   */
  ghost predicate Fits(start: set<Pair>, log: seq<Effect>, d: Delivery, batch: EntityUpdateBatch,
                       reference: Application)
    requires d.a.index < |log|
  {
    && RedeliversOne(d.before, batch, reference, d.a, d.known, d.server, d.after)
    && Shows(start, log, d.a.index, d.server)
    && (forall p :: p in d.server ==> p.0 in d.known)
    && (forall p :: p in d.before.members ==> p.0 in FolderIds(d.a.list))
    && (log[d.a.index].keep.Some? ==>
          forall p: Pair :: p.0 !in log[d.a.index].keep.value && Named(start, log[..d.a.index + 1], p) ==>
            p.0 !in d.known)
  }

  /** Each application starts with the membership the one before it left, a restart in between included. */
  ghost predicate Delivers(run: seq<Delivery>, batches: seq<EntityUpdateBatch>, reference: seq<Application>)
    requires |reference| == |batches|
  {
    && (forall j :: 0 <= j < |run| ==> run[j].a.index < |batches|)
    && (forall j :: 0 <= j < |run| ==> FitsAt(run, batches, reference, j))
    && Chained(run)
  }

  ghost predicate FitsAt(run: seq<Delivery>, batches: seq<EntityUpdateBatch>, reference: seq<Application>, j: nat)
    requires |reference| == |batches| && j < |run| && run[j].a.index < |batches|
  {
    Fits(run[0].before.members, Effects(batches, reference), run[j], batches[run[j].a.index],
         reference[run[j].a.index])
  }

  /** The handler files mails in listed folders only. */
  lemma AfterWithin(d: Delivery, batch: EntityUpdateBatch, reference: Application, p: Pair)
    requires RedeliversOne(d.before, batch, reference, d.a, d.known, d.server, d.after) && p in d.after.members
    requires forall q :: q in d.server ==> q.0 in d.known
    requires forall q :: q in d.before.members ==> q.0 in FolderIds(d.a.list)
    ensures p.0 in d.known
  {
    var k, routes := Buckets(batch.updates), RoutesOf(ListFor(d.a.list, batch, d.a.backend));
    RelistAllMembers(AfterEvents(d.before, d.a.list, batch, d.a.backend), d.a.order, routes, d.a.backend, d.server, p);
    EventsAreEffectNow(d.before, d.a.list, batch, d.a.backend);
    PlacedAreNamed(Creating(Refreshed(d.before, batch, d.a.backend), Predecrypted(d.a.backend, k.mailCreates), {}),
                   k.entryCreates, routes, d.a.backend);
    if p in EntryPairs(k.entryCreates, routes) {
      NamedNowKnown(k.entryCreates, ListFor(d.a.list, batch, d.a.backend), p);
    }
  }

  lemma DeliveryApplies(start: set<Pair>, log: seq<Effect>, d: Delivery, batch: EntityUpdateBatch,
                        reference: Application)
    requires d.a.index < |log| && log[d.a.index] == EffectOf(reference.list, batch, reference.backend)
    requires Fits(start, log, d, batch, reference)
    ensures AppliedAgainst(start, log, d.a.index, d.before.members, d.after.members, d.known, d.server)
  {
    OneRepeats(d.before, batch, reference, d.a, d.known, d.server, d.after);
    forall p | p in d.after.members ensures p.0 in d.known {
      AfterWithin(d, batch, reference, p);
    }
  }

  function DeliveredIndices(run: seq<Delivery>): seq<nat> {
    seq(|run|, j requires 0 <= j < |run| => run[j].a.index)
  }

  /** The membership before each application, and after the last one. */
  function Passes(run: seq<Delivery>): (states: seq<set<Pair>>)
    requires run != []
    ensures |states| == |run| + 1
  {
    seq(|run|, j requires 0 <= j < |run| => run[j].before.members) + [run[|run| - 1].after.members]
  }

  ghost predicate Chained(run: seq<Delivery>) {
    forall j, k :: 0 <= j && k == j + 1 < |run| ==> run[k].before.members == run[j].after.members
  }

  lemma PassesChain(run: seq<Delivery>, j: nat)
    requires j < |run| && Chained(run)
    ensures Passes(run)[0] == run[0].before.members && Passes(run)[j] == run[j].before.members
    ensures Passes(run)[j + 1] == run[j].after.members
  {
  }

  lemma StepApplies(run: seq<Delivery>, batches: seq<EntityUpdateBatch>, reference: seq<Application>, j: nat)
    requires |reference| == |batches| && j < |run| && Delivers(run, batches, reference)
    ensures var d := run[j];
            AppliedAgainst(Passes(run)[0], Effects(batches, reference), d.a.index, Passes(run)[j], Passes(run)[j + 1],
                           d.known, d.server)
  {
    assert FitsAt(run, batches, reference, j);
    DeliveryApplies(run[0].before.members, Effects(batches, reference), run[j], batches[run[j].a.index],
                    reference[run[j].a.index]);
    PassesChain(run, j);
  }

  /**
   * Replay convergence on the handler for any history of applications, on a server that moves on between any two of
   * them: when every batch was applied and the last applications come in log order, memory lists what one pass over
   * the log lists, although CREATEs found mails or folders gone and fell back to full syncs on the way.
   */
  lemma DeliveriesConverge(run: seq<Delivery>, batches: seq<EntityUpdateBatch>, reference: seq<Application>)
    requires |reference| == |batches| && run != [] && Delivers(run, batches, reference)
    requires EndsInOrder(DeliveredIndices(run), |batches|)
    ensures run[|run| - 1].after.members == Fold(run[0].before.members, Effects(batches, reference))
  {
    var known := seq(|run|, j requires 0 <= j < |run| => run[j].known);
    var servers := seq(|run|, j requires 0 <= j < |run| => run[j].server);
    var log, history, states := Effects(batches, reference), DeliveredIndices(run), Passes(run);
    forall j | 0 <= j < |run|
      ensures AppliedAgainst(states[0], log, history[j], states[j], states[j + 1], known[j], servers[j])
    {
      StepApplies(run, batches, reference, j);
    }
    MovingServerConverges(log, history, states, known, servers);
  }

  /** So does every run of the bus that never resumes beyond what is queued, whenever it is back at its newest batch. */
  lemma CarefulRunConverges(n: nat, steps: seq<Bus.Step>, c: Bus.Bus, run: seq<Delivery>,
                            batches: seq<EntityUpdateBatch>, reference: seq<Application>)
    requires Bus.Reaches(Bus.Initial(n), steps, c, Bus.Careful)
    requires forall k :: 0 <= k < |c.history| ==> c.start <= c.history[k]
    requires |reference| == |batches| && run != [] && Delivers(run, batches, reference)
    requires DeliveredIndices(run) == Bus.Relative(c.start, c.history)
    requires Bus.End(DeliveredIndices(run)) == High(DeliveredIndices(run)) == |batches| - 1
    ensures run[|run| - 1].after.members == Fold(run[0].before.members, Effects(batches, reference))
  {
    Bus.HistoryGapless(n, steps, c);
    GaplessEndsInOrder(DeliveredIndices(run));
    DeliveriesConverge(run, batches, reference);
  }
}
