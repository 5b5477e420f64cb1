/** The full effect of a batch, seen as sets of pairs, is the effect that `ReplicaSpec` names. */
module BatchRefinement {
  import opened Wrappers
  import opened MailTypes
  import opened MailStoreModel
  import opened LocalStoreModel
  import opened ReplicaSpec
  import opened Refinement
  import opened FolderSync
  import opened Contents

  ghost function ViewOfFiling(c: Filing): Creating {
    Creating(ViewOf(c.content), c.pending, c.fallback)
  }

  lemma FiledView(c: Content, f: FolderId, m: MailId, x: StoredMail)
    ensures ViewOf(Filed(c, f, m, x)) == Place(ViewOf(c), f, x.mail.id)
  {
    var y := x.(uid := AsUid(Next(c.next, f)));
    PlaceRefines(c.folders, c.table, c.eml, f, y, Row(y.mail, f, y.uid, false));
  }

  lemma BodiedView(c: Content, m: MailId, body: Option<string>)
    ensures ViewOf(Bodied(c, m, body)) ==
            if body.Some? then ViewOf(c).(bodies := c.eml[m := body.value]) else ViewOf(c)
  {
    assert RowFolders(WithDetails(c.table, m)) == RowFolders(c.table);
  }

  lemma FromPoolView(c: Content, f: FolderId, m: MailId, p: PendingMail, b: Backend)
    ensures ViewOf(FromPool(c, f, m, p, b)) == Place(WithBody(ViewOf(c), m, p, b), f, p.mail.id)
  {
    var body := InlineBody(p, b);
    BodiedView(c, m, body);
    FiledView(Bodied(c, m, body), f, m, StoredMail(p.mail, body.Some?, 0, false));
  }

  lemma {:induction false} CreateOneView(c: Filing, ev: EntityUpdateEvent, routes: Routes, b: Backend, hit: Hit)
    requires EntryMail(ev).Some? && ev.instanceListId in routes ==>
               Answers(c.content.folders, EntryMail(ev).value, hit)
    ensures ViewOfFiling(CreateOne(c, ev, routes, b, hit)) == CreateStep(ViewOfFiling(c), ev, routes, b)
  {
    if EntryMail(ev).Some? && ev.instanceListId in routes {
      var m, f := EntryMail(ev).value, routes[ev.instanceListId].id;
      SomewhereIff(c.content.folders, m);
      if hit.Some? {
        FiledView(c.content, f, m, hit.value.1);
      } else if m in c.pending {
        FromPoolView(c.content, f, m, c.pending[m], b);
      } else if ResolvedEntry(b, ev).Some? {
        var (list, element) := ResolvedEntry(b, ev).value;
        match b.loadMail(list, element)
        case Ok(Some(mail)) => FiledView(c.content, f, element, StoredMail(mail, false, 0, false));
        case _ =>
      }
    }
  }

  lemma SearchedPrefix(c: Filing, evs: seq<EntityUpdateEvent>, routes: Routes, b: Backend, hits: seq<Hit>, n: nat)
    requires Searched(c, evs, routes, b, hits) && n <= |evs|
    ensures Searched(c, evs[..n], routes, b, hits[..n])
  {
    forall i | 0 <= i < n ensures SearchedAt(c, evs[..n], routes, b, hits[..n], i) {
      assert evs[..n][..i] == evs[..i] && hits[..n][..i] == hits[..i];
      assert SearchedAt(c, evs, routes, b, hits, i);
    }
  }

  lemma {:induction false} CreateSomeView(c: Filing, evs: seq<EntityUpdateEvent>, routes: Routes, b: Backend,
                                          hits: seq<Hit>)
    requires Searched(c, evs, routes, b, hits)
    ensures ViewOfFiling(CreateSome(c, evs, routes, b, hits)) == CreateAll(ViewOfFiling(c), evs, routes, b)
  {
    if evs != [] {
      var n := |evs| - 1;
      SearchedPrefix(c, evs, routes, b, hits, n);
      CreateSomeView(c, evs[..n], routes, b, hits[..n]);
      assert SearchedAt(c, evs, routes, b, hits, n);
      CreateOneView(CreateSome(c, evs[..n], routes, b, hits[..n]), evs[n], routes, b, hits[n]);
    }
  }

  lemma UnfiledView(c: Content, f: FolderId, m: MailId)
    ensures ViewOf(Unfiled(c, f, m)) == Unplace(ViewOf(c), f, m)
  {
    RemoveFromMembers(c.folders, f, m);
    SomewhereIff(RemoveFrom(c.folders, f, m), m);
    assert RowFolders(c.table - {m}) == RowFolders(c.table) - {m};
  }

  lemma {:induction false} DeleteSomeView(c: Content, evs: seq<EntityUpdateEvent>, routes: Routes)
    ensures ViewOf(DeleteSome(c, evs, routes)) == DeleteAll(ViewOf(c), evs, routes)
  {
    if evs != [] {
      var n := |evs| - 1;
      DeleteSomeView(c, evs[..n], routes);
      var m := EntryMail(evs[n]);
      if m.Some? && evs[n].instanceListId in routes {
        UnfiledView(DeleteSome(c, evs[..n], routes), routes[evs[n].instanceListId].id, m.value);
      }
    }
  }

  lemma MailOneView(c: Content, ev: EntityUpdateEvent, b: Backend)
    ensures ViewOf(MailOne(c, ev, b)) == MailStep(ViewOf(c), ev, b)
  {
    EraseRefines(c.folders, c.table, c.eml, ev.instanceId);
    if ev.operation.Update? && ResolvedMail(b, ev).Some? {
      var mail := ResolvedMail(b, ev).value;
      RefreshMembers(c.folders, mail);
      assert RowFolders(Updated(c, ev.instanceId, mail).table) == RowFolders(c.table);
    }
  }

  lemma {:induction false} MailSomeView(c: Content, evs: seq<EntityUpdateEvent>, b: Backend)
    ensures ViewOf(MailSome(c, evs, b)) == MailAll(ViewOf(c), evs, b)
  {
    if evs != [] {
      MailSomeView(c, evs[..|evs| - 1], b);
      MailOneView(MailSome(c, evs[..|evs| - 1], b), evs[|evs| - 1], b);
    }
  }

  lemma RelistOneView(c: Content, entries: string, routes: Routes, b: Backend)
    ensures ViewOf(RelistOne(c, entries, routes, b)) == RelistStep(ViewOf(c), entries, routes, b)
  {
    if entries in routes && b.folderMails(routes[entries]).Ok? {
      var f, listing := routes[entries].id, b.folderMails(routes[entries]).value;
      var known := ByMailId(Folder(c.folders, f));
      RelistRefines(c.folders, c.table, c.eml, f, listing, known, UidsFor(Next(c.next, f), NewIds(listing, known)));
    }
  }

  lemma {:induction false} RelistSomeView(c: Content, order: seq<string>, routes: Routes, b: Backend)
    ensures ViewOf(RelistSome(c, order, routes, b)) == RelistAll(ViewOf(c), order, routes, b)
  {
    if order != [] {
      RelistSomeView(c, order[..|order| - 1], routes, b);
      RelistOneView(RelistSome(c, order[..|order| - 1], routes, b), order[|order| - 1], routes, b);
    }
  }

  lemma PrunedView(c: Content, known: set<FolderId>)
    ensures ViewOf(Pruned(c, known)) == Restrict(ViewOf(c), known)
  {
    PruneMembers(c.folders, known);
    var gone := FiledIn(RowFolders(c.table), c.folders.Keys - known);
    assert RowFolders(c.table - gone) == RowFolders(c.table) - gone;
    assert Prune(c.folders, known).Keys == c.folders.Keys * known;
  }

  /** One batch: the set-level replica after it, and the folders that asked for a full sync. */
  lemma BatchView(c: Content, list: seq<FolderInfo>, batch: EntityUpdateBatch, b: Backend, how: How)
    requires HowPossible(c, list, batch, b, how)
    ensures Enumerates(how.order, AfterCreates(ViewOf(c), list, batch, b).fallback)
    ensures ViewOf(BatchDone(c, list, batch, b, how)) == AfterBatch(ViewOf(c), list, batch, b, how.order)
  {
    var k, routes := Buckets(batch.updates), RoutesOf(ListFor(list, batch, b));
    if Refreshes(batch, b) {
      PrunedView(c, FolderIds(b.listFolders.value));
    }
    CreateSomeView(StartFiling(c, batch, b), k.entryCreates, routes, b, how.hits);
    var created := Created(c, list, batch, b, how.hits).content;
    DeleteSomeView(created, k.entryDeletes, routes);
    MailSomeView(DeleteSome(created, k.entryDeletes, routes), k.mailEvents, b);
    RelistSomeView(EventsDone(c, list, batch, b, how.hits), how.order, routes, b);
  }

  // ----- rows stay under their own ids -----

  /** An UPDATE payload describes the mail the event names. */
  predicate HonestUpdate(ev: EntityUpdateEvent, b: Backend) {
    ev.operation.Update? && ResolvedMail(b, ev).Some? ==> ResolvedMail(b, ev).value.id == ev.instanceId
  }

  ghost predicate HonestUpdates(batch: EntityUpdateBatch, b: Backend) {
    forall ev :: ev in Buckets(batch.updates).mailEvents ==> HonestUpdate(ev, b)
  }

  lemma CreateOneKeyed(c: Filing, ev: EntityUpdateEvent, routes: Routes, b: Backend, hit: Hit)
    requires Keyed(c.content.table)
    ensures Keyed(CreateOne(c, ev, routes, b, hit).content.table)
  {
  }

  lemma {:induction false} CreateSomeKeyed(c: Filing, evs: seq<EntityUpdateEvent>, routes: Routes, b: Backend,
                                           hits: seq<Hit>)
    requires Keyed(c.content.table) && |hits| == |evs|
    ensures Keyed(CreateSome(c, evs, routes, b, hits).content.table)
  {
    if evs != [] {
      var n := |evs| - 1;
      CreateSomeKeyed(c, evs[..n], routes, b, hits[..n]);
      CreateOneKeyed(CreateSome(c, evs[..n], routes, b, hits[..n]), evs[n], routes, b, hits[n]);
    }
  }

  lemma {:induction false} DeleteSomeKeyed(c: Content, evs: seq<EntityUpdateEvent>, routes: Routes)
    requires Keyed(c.table)
    ensures Keyed(DeleteSome(c, evs, routes).table)
  {
    if evs != [] {
      DeleteSomeKeyed(c, evs[..|evs| - 1], routes);
    }
  }

  lemma {:induction false} MailSomeKeyed(c: Content, evs: seq<EntityUpdateEvent>, b: Backend)
    requires Keyed(c.table) && forall ev :: ev in evs ==> HonestUpdate(ev, b)
    ensures Keyed(MailSome(c, evs, b).table)
  {
    if evs != [] {
      assert HonestUpdate(evs[|evs| - 1], b);
      MailSomeKeyed(c, evs[..|evs| - 1], b);
    }
  }

  lemma RelistOneKeyed(c: Content, entries: string, routes: Routes, b: Backend)
    requires Keyed(c.table)
    ensures Keyed(RelistOne(c, entries, routes, b).table)
  {
    if entries in routes && b.folderMails(routes[entries]).Ok? {
      var f, listing := routes[entries].id, b.folderMails(routes[entries]).value;
      var known := ByMailId(Folder(c.folders, f));
      RelistKeyed(c.table, f, listing, known, UidsFor(Next(c.next, f), NewIds(listing, known)));
    }
  }

  lemma {:induction false} RelistSomeKeyed(c: Content, order: seq<string>, routes: Routes, b: Backend)
    requires Keyed(c.table)
    ensures Keyed(RelistSome(c, order, routes, b).table)
  {
    if order != [] {
      RelistSomeKeyed(c, order[..|order| - 1], routes, b);
      RelistOneKeyed(RelistSome(c, order[..|order| - 1], routes, b), order[|order| - 1], routes, b);
    }
  }

  lemma BatchKeyed(c: Content, list: seq<FolderInfo>, batch: EntityUpdateBatch, b: Backend, how: How)
    requires HowPossible(c, list, batch, b, how) && Keyed(c.table) && HonestUpdates(batch, b)
    ensures Keyed(BatchDone(c, list, batch, b, how).table)
  {
    var k, routes := Buckets(batch.updates), RoutesOf(ListFor(list, batch, b));
    CreateSomeKeyed(StartFiling(c, batch, b), k.entryCreates, routes, b, how.hits);
    var created := Created(c, list, batch, b, how.hits).content;
    DeleteSomeKeyed(created, k.entryDeletes, routes);
    MailSomeKeyed(DeleteSome(created, k.entryDeletes, routes), k.mailEvents, b);
    RelistSomeKeyed(EventsDone(c, list, batch, b, how.hits), how.order, routes, b);
  }
}
