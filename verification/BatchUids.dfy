/** UIDs over a whole run of the event handler, for a server that answers truthfully. */
module BatchUids {
  import opened MailTypes
  import opened LocalStoreModel
  import opened ReplicaSpec
  import opened Uids
  import opened FolderSync
  import opened SyncUids
  import opened Contents
  import opened BatchRefinement
  import opened EventHandler

  // ----- truthful answers -----

  /** A payload that rode along describes the mail its event names. */
  predicate HonestPool(pending: Pending) {
    forall m :: m in pending ==> pending[m].mail.id == m
  }

  /** Asked for a mail, the server returns that mail or none. */
  ghost predicate HonestLoads(b: Backend) {
    forall list, m :: b.loadMail(list, m).Ok? && b.loadMail(list, m).value.Some? ==>
      b.loadMail(list, m).value.value.id == m
  }

  /** The server never lists a mail twice in one folder. */
  ghost predicate DistinctListings(b: Backend) {
    forall folder :: b.folderMails(folder).Ok? ==> DistinctMails(b.folderMails(folder).value)
  }

  ghost predicate Truthful(batch: EntityUpdateBatch, b: Backend) {
    HonestPool(Predecrypted(b, Buckets(batch.updates).mailCreates)) && HonestLoads(b) && DistinctListings(b)
  }

  // ----- single operations -----

  lemma FiledKeeps(c: Content, f: FolderId, x: StoredMail)
    ensures Keeps(UidsOf(c), UidsOf(Filed(c, f, x.mail.id, x)))
  {
    AssignKeeps(UidsOf(c), f, x.(uid := AsUid(Next(c.next, f))));
  }

  lemma {:induction false} SourceIsHonest(pending: Pending, ev: EntityUpdateEvent, b: Backend, m: MailId, hit: Hit)
    requires HonestPool(pending) && HonestLoads(b) && (hit.Some? ==> hit.value.1.mail.id == m)
    ensures var source := SourceOf(pending, ev, b, m, hit);
            source.Some? ==> source.value.entry.mail.id == source.value.owner
  {
  }

  lemma {:induction false} SourceKeeps(c: Content, f: FolderId, m: MailId, source: Source)
    requires source.entry.mail.id == source.owner
    ensures Keeps(UidsOf(c), UidsOf(Filed(Bodied(c, m, source.body), f, source.owner, source.entry)))
  {
    FiledKeeps(Bodied(c, m, source.body), f, source.entry);
  }

  lemma {:induction false} CreateOneKeeps(c: Filing, ev: EntityUpdateEvent, routes: Routes, b: Backend, hit: Hit)
    requires HonestPool(c.pending) && HonestLoads(b)
    requires EntryMail(ev).Some? && ev.instanceListId in routes ==>
               Answers(c.content.folders, EntryMail(ev).value, hit)
    ensures Keeps(UidsOf(c.content), UidsOf(CreateOne(c, ev, routes, b, hit).content))
    ensures HonestPool(CreateOne(c, ev, routes, b, hit).pending)
  {
    CreateFilesSource(c, ev, routes, b, hit);
    if EntryMail(ev).Some? && ev.instanceListId in routes {
      var m, f := EntryMail(ev).value, routes[ev.instanceListId].id;
      var source := SourceOf(c.pending, ev, b, m, hit);
      SourceIsHonest(c.pending, ev, b, m, hit);
      if source.Some? {
        SourceKeeps(c.content, f, m, source.value);
      }
    }
  }

  lemma {:induction false} CreateSomeKeeps(c: Filing, evs: seq<EntityUpdateEvent>, routes: Routes, b: Backend,
                                           hits: seq<Hit>)
    requires HonestPool(c.pending) && HonestLoads(b) && Searched(c, evs, routes, b, hits)
    ensures Keeps(UidsOf(c.content), UidsOf(CreateSome(c, evs, routes, b, hits).content))
    ensures HonestPool(CreateSome(c, evs, routes, b, hits).pending)
  {
    if evs != [] {
      var n := |evs| - 1;
      SearchedPrefix(c, evs, routes, b, hits, n);
      CreateSomeKeeps(c, evs[..n], routes, b, hits[..n]);
      assert SearchedAt(c, evs, routes, b, hits, n);
      var before := CreateSome(c, evs[..n], routes, b, hits[..n]);
      CreateOneKeeps(before, evs[n], routes, b, hits[n]);
      KeepsTransitive(UidsOf(c.content), UidsOf(before.content), UidsOf(CreateSome(c, evs, routes, b, hits).content));
    }
  }

  lemma DeleteOneKeeps(c: Content, ev: EntityUpdateEvent, routes: Routes)
    ensures Keeps(UidsOf(c), UidsOf(DeleteOne(c, ev, routes)))
  {
    var m := EntryMail(ev);
    if m.Some? && ev.instanceListId in routes {
      RemoveKeeps(UidsOf(c), routes[ev.instanceListId].id, m.value);
    }
  }

  lemma {:induction false} DeleteSomeKeeps(c: Content, evs: seq<EntityUpdateEvent>, routes: Routes)
    ensures Keeps(UidsOf(c), UidsOf(DeleteSome(c, evs, routes)))
  {
    if evs != [] {
      var before := DeleteSome(c, evs[..|evs| - 1], routes);
      DeleteSomeKeeps(c, evs[..|evs| - 1], routes);
      DeleteOneKeeps(before, evs[|evs| - 1], routes);
      KeepsTransitive(UidsOf(c), UidsOf(before), UidsOf(DeleteSome(c, evs, routes)));
    }
  }

  lemma MailOneKeeps(c: Content, ev: EntityUpdateEvent, b: Backend)
    ensures Keeps(UidsOf(c), UidsOf(MailOne(c, ev, b)))
  {
    EraseKeeps(UidsOf(c), ev.instanceId);
    if ev.operation.Update? && ResolvedMail(b, ev).Some? {
      RefreshKeeps(UidsOf(c), ResolvedMail(b, ev).value);
    }
  }

  lemma {:induction false} MailSomeKeeps(c: Content, evs: seq<EntityUpdateEvent>, b: Backend)
    ensures Keeps(UidsOf(c), UidsOf(MailSome(c, evs, b)))
  {
    if evs != [] {
      var before := MailSome(c, evs[..|evs| - 1], b);
      MailSomeKeeps(c, evs[..|evs| - 1], b);
      MailOneKeeps(before, evs[|evs| - 1], b);
      KeepsTransitive(UidsOf(c), UidsOf(before), UidsOf(MailSome(c, evs, b)));
    }
  }

  lemma {:induction false} RelistSomeKeeps(c: Content, order: seq<string>, routes: Routes, b: Backend)
    requires DistinctListings(b)
    ensures Keeps(UidsOf(c), UidsOf(RelistSome(c, order, routes, b)))
  {
    if order != [] {
      var before, entries := RelistSome(c, order[..|order| - 1], routes, b), order[|order| - 1];
      RelistSomeKeeps(c, order[..|order| - 1], routes, b);
      if entries in routes && b.folderMails(routes[entries]).Ok? {
        SyncKeeps(UidsOf(before), routes[entries].id, b.folderMails(routes[entries]).value);
      }
      KeepsTransitive(UidsOf(c), UidsOf(before), UidsOf(RelistSome(c, order, routes, b)));
    }
  }

  // ----- one batch, and a run of messages -----

  lemma BatchKeeps(c: Content, list: seq<FolderInfo>, batch: EntityUpdateBatch, b: Backend, how: How)
    requires HowPossible(c, list, batch, b, how) && Truthful(batch, b)
    ensures Keeps(UidsOf(c), UidsOf(BatchDone(c, list, batch, b, how)))
  {
    var k, routes := Buckets(batch.updates), RoutesOf(ListFor(list, batch, b));
    var refreshed := RefreshedContent(c, batch, b);
    if Refreshes(batch, b) {
      PruneKeeps(UidsOf(c), FolderIds(b.listFolders.value));
    }
    CreateSomeKeeps(StartFiling(c, batch, b), k.entryCreates, routes, b, how.hits);
    var created := Created(c, list, batch, b, how.hits).content;
    var deleted := DeleteSome(created, k.entryDeletes, routes);
    var done := EventsDone(c, list, batch, b, how.hits);
    DeleteSomeKeeps(created, k.entryDeletes, routes);
    MailSomeKeeps(deleted, k.mailEvents, b);
    RelistSomeKeeps(done, how.order, routes, b);
    KeepsTransitive(UidsOf(c), UidsOf(refreshed), UidsOf(created));
    KeepsTransitive(UidsOf(c), UidsOf(created), UidsOf(deleted));
    KeepsTransitive(UidsOf(c), UidsOf(deleted), UidsOf(done));
    KeepsTransitive(UidsOf(c), UidsOf(done), UidsOf(BatchDone(c, list, batch, b, how)));
  }

  ghost predicate TruthfulTurn(turn: Turn) {
    turn.msg.EntityUpdate? ==> Truthful(turn.msg.batch, turn.backend)
  }

  /**
   * UID stability over every run of the handler: distinct UIDs below the counters stay so, and each shown UID belongs
   * to the mail it was first given to.
   */
  lemma {:induction false} RunKeeps(states: seq<Running>, turns: seq<Turn>, n: nat)
    requires Trace(states, turns) && n <= |turns| && forall i :: 0 <= i < |turns| ==> TruthfulTurn(turns[i])
    ensures Keeps(UidsOf(states[0].content), UidsOf(states[n].content))
  {
    if n > 0 {
      RunKeeps(states, turns, n - 1);
      assert Follows(states[n - 1], turns[n - 1], states[n]) && TruthfulTurn(turns[n - 1]);
      TurnKeeps(states[n - 1], turns[n - 1], states[n]);
      KeepsTransitive(UidsOf(states[0].content), UidsOf(states[n - 1].content), UidsOf(states[n].content));
    }
  }

  lemma TurnKeeps(s: Running, turn: Turn, t: Running)
    requires Follows(s, turn, t) && TruthfulTurn(turn)
    ensures Keeps(UidsOf(s.content), UidsOf(t.content))
  {
    if turn.msg.EntityUpdate? {
      BatchKeeps(s.content, s.list, turn.msg.batch, turn.backend, turn.how);
    }
  }

  /** In one folder a UID never passes from one mail to another, at any two times of a run. */
  lemma UidNeverReused(states: seq<Running>, turns: seq<Turn>, i: nat, j: nat, f: FolderId, x: StoredMail,
                       y: StoredMail)
    requires Trace(states, turns) && i <= j <= |turns| && forall k :: 0 <= k < |turns| ==> TruthfulTurn(turns[k])
    requires Stable(UidsOf(states[0].content)) && InRange(states[j].content.next)
    requires f in states[i].content.folders && x in states[i].content.folders[f]
    requires f in states[j].content.folders && y in states[j].content.folders[f]
    ensures x.uid == y.uid ==> x.mail.id == y.mail.id
  {
    RunKeeps(states, turns, i);
    assert Trace(states[i..], turns[i..]) by {
      forall k | 0 <= k < |turns[i..]| ensures Follows(states[i..][k], turns[i..][k], states[i..][k + 1]) {
        assert Follows(states[i + k], turns[i + k], states[i + k + 1]);
      }
    }
    RunKeeps(states[i..], turns[i..], j - i);
    var a, b := UidsOf(states[i].content), UidsOf(states[j].content);
    forall g ensures Next(a.next, g) <= UID_LIMIT {
      assert Next(a.next, g) <= Next(b.next, g);
    }
    NeverSharedOrReused(a, b, f, x, y);
  }
}
