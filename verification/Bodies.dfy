/** Body files: none without a row, through every run. */
module Bodies {
  import opened Wrappers
  import opened MailTypes
  import opened MailStoreModel
  import opened LocalStoreModel
  import opened ReplicaSpec
  import opened FolderSync
  import opened Contents
  import opened BatchUids
  import opened EventHandler

  /** Every body file belongs to a row. */
  predicate BodiesHaveRows(c: Content) {
    c.eml.Keys <= c.table.Keys
  }

  /** A body file goes exactly when its row does, and what stays is not touched. */
  predicate BodiesFollowRows(before: Content, after: Content) {
    after.eml == before.eml - (before.table.Keys - after.table.Keys)
  }

  lemma UnfiledFollows(c: Content, f: FolderId, m: MailId)
    requires BodiesHaveRows(c)
    ensures BodiesFollowRows(c, Unfiled(c, f, m)) && BodiesHaveRows(Unfiled(c, f, m))
  {
  }

  lemma MailOneFollows(c: Content, ev: EntityUpdateEvent, b: Backend)
    requires BodiesHaveRows(c)
    ensures BodiesFollowRows(c, MailOne(c, ev, b)) && BodiesHaveRows(MailOne(c, ev, b))
  {
  }

  lemma PrunedFollows(c: Content, known: set<FolderId>)
    requires BodiesHaveRows(c)
    ensures BodiesFollowRows(c, Pruned(c, known)) && BodiesHaveRows(Pruned(c, known))
  {
  }

  lemma SyncedFollows(c: Content, f: FolderId, listing: seq<Mail>)
    requires BodiesHaveRows(c)
    ensures BodiesFollowRows(c, Synced(c, f, listing)) && BodiesHaveRows(Synced(c, f, listing))
  {
    var known := ByMailId(Folder(c.folders, f));
    var uids := UidsFor(Next(c.next, f), NewIds(listing, known));
    RowsForIds(listing, f, known, uids);
    UpsertRowsFolders(c.table, RowsFor(listing, f, known, uids), f);
    var after := SyncedTable(c.table, f, listing, known, uids);
    assert c.table.Keys - after.Keys == Unlisted(c.table, f, listing, known, uids);
  }

  /** A CREATE changes at most the body file of its own mail, and leaves that one a row. */
  lemma CreateOneBodies(c: Filing, ev: EntityUpdateEvent, routes: Routes, b: Backend, hit: Hit)
    requires BodiesHaveRows(c.content) && HonestPool(c.pending)
    ensures var after := CreateOne(c, ev, routes, b, hit);
            BodiesHaveRows(after.content) && HonestPool(after.pending)
    ensures forall m :: EntryMail(ev) != Some(m) ==>
              var after := CreateOne(c, ev, routes, b, hit).content;
              (m in after.eml <==> m in c.content.eml) && (m in after.eml ==> after.eml[m] == c.content.eml[m])
  {
    CreateFilesSource(c, ev, routes, b, hit);
  }

  lemma {:induction false} CreatesBodies(c: Filing, evs: seq<EntityUpdateEvent>, routes: Routes, b: Backend,
                                         hits: seq<Hit>)
    requires |hits| == |evs| && BodiesHaveRows(c.content) && HonestPool(c.pending)
    ensures var after := CreateSome(c, evs, routes, b, hits); BodiesHaveRows(after.content) && HonestPool(after.pending)
  {
    if evs != [] {
      var n := |evs| - 1;
      CreatesBodies(c, evs[..n], routes, b, hits[..n]);
      CreateOneBodies(CreateSome(c, evs[..n], routes, b, hits[..n]), evs[n], routes, b, hits[n]);
    }
  }

  lemma {:induction false} DeletesBodies(c: Content, evs: seq<EntityUpdateEvent>, routes: Routes)
    requires BodiesHaveRows(c)
    ensures BodiesHaveRows(DeleteSome(c, evs, routes))
  {
    if evs != [] {
      var n := |evs| - 1;
      DeletesBodies(c, evs[..n], routes);
      var m := EntryMail(evs[n]);
      if m.Some? && evs[n].instanceListId in routes {
        UnfiledFollows(DeleteSome(c, evs[..n], routes), routes[evs[n].instanceListId].id, m.value);
      }
    }
  }

  lemma {:induction false} MailEventsBodies(c: Content, evs: seq<EntityUpdateEvent>, b: Backend)
    requires BodiesHaveRows(c)
    ensures BodiesHaveRows(MailSome(c, evs, b))
  {
    if evs != [] {
      var n := |evs| - 1;
      MailEventsBodies(c, evs[..n], b);
      MailOneFollows(MailSome(c, evs[..n], b), evs[n], b);
    }
  }

  lemma {:induction false} RelistsBodies(c: Content, order: seq<string>, routes: Routes, b: Backend)
    requires BodiesHaveRows(c)
    ensures BodiesHaveRows(RelistSome(c, order, routes, b))
  {
    if order != [] {
      var n := |order| - 1;
      RelistsBodies(c, order[..n], routes, b);
      if order[n] in routes && b.folderMails(routes[order[n]]).Ok? {
        SyncedFollows(RelistSome(c, order[..n], routes, b), routes[order[n]].id,
                      b.folderMails(routes[order[n]]).value);
      }
    }
  }

  lemma BatchBodies(c: Content, list: seq<FolderInfo>, batch: EntityUpdateBatch, b: Backend, how: How)
    requires BodiesHaveRows(c) && |how.hits| == |Buckets(batch.updates).entryCreates|
    requires HonestPool(Predecrypted(b, Buckets(batch.updates).mailCreates))
    ensures BodiesHaveRows(BatchDone(c, list, batch, b, how))
  {
    var k, routes := Buckets(batch.updates), RoutesOf(ListFor(list, batch, b));
    if Refreshes(batch, b) {
      PrunedFollows(c, FolderIds(b.listFolders.value));
    }
    CreatesBodies(StartFiling(c, batch, b), k.entryCreates, routes, b, how.hits);
    DeletesBodies(Created(c, list, batch, b, how.hits).content, k.entryDeletes, routes);
    MailEventsBodies(DeleteSome(Created(c, list, batch, b, how.hits).content, k.entryDeletes, routes), k.mailEvents, b);
    RelistsBodies(EventsDone(c, list, batch, b, how.hits), how.order, routes, b);
  }

  /** No run of the handler leaves a body file behind without a row. */
  lemma {:induction false} NoOrphanBodies(states: seq<Running>, turns: seq<Turn>, n: nat)
    requires Trace(states, turns) && n <= |turns| && BodiesHaveRows(states[0].content)
    requires forall i :: 0 <= i < n && turns[i].msg.EntityUpdate? ==>
               HonestPool(Predecrypted(turns[i].backend, Buckets(turns[i].msg.batch.updates).mailCreates))
    ensures BodiesHaveRows(states[n].content)
  {
    if n > 0 {
      NoOrphanBodies(states, turns, n - 1);
      assert Follows(states[n - 1], turns[n - 1], states[n]);
      if turns[n - 1].msg.EntityUpdate? {
        BatchBodies(states[n - 1].content, states[n - 1].list, turns[n - 1].msg.batch, turns[n - 1].backend,
                    turns[n - 1].how);
      }
    }
  }
}
