/** The realtime event handler: applying entity-update batches to memory and disk. */
module EventHandler {
  import opened Wrappers
  import opened MailTypes
  import opened MailStoreModel
  import opened LocalStoreModel
  import opened ReplicaSpec
  import opened FolderSync
  import opened Contents

  ghost function Now(store: MailStore, local: LocalStore): Content
    reads store, local
  {
    Content(store.folders, local.mails, local.eml, local.nextUid, local.issued)
  }

  /** An event of the batch about this type of the mail application. */
  predicate IsEvent(ev: EntityUpdateEvent, updates: seq<EntityUpdateEvent>, typeId: int) {
    ev in updates && ev.application == "tutanota" && ev.typeId == typeId
  }

  /** The buckets hold the entry CREATEs, entry DELETEs, Mail CREATEs and other Mail events of the batch. */
  ghost predicate SortsEvents(updates: seq<EntityUpdateEvent>, k: Bucketed) {
    && (forall ev :: ev in k.entryCreates <==> IsEvent(ev, updates, 1450) && ev.operation == Create)
    && (forall ev :: ev in k.entryDeletes <==> IsEvent(ev, updates, 1450) && ev.operation == Delete)
    && (forall ev :: ev in k.mailCreates <==> IsEvent(ev, updates, 97) && ev.operation == Create)
    && (forall ev :: ev in k.mailEvents <==> IsEvent(ev, updates, 97) && ev.operation != Create)
    && (k.folderListDirty <==> exists ev :: IsEvent(ev, updates, 429))
  }

  lemma BucketsSortEvents(updates: seq<EntityUpdateEvent>)
    ensures SortsEvents(updates, Buckets(updates))
  {
    if ev :| ev in updates && IsFolderEvent(ev) {
      assert IsEvent(ev, updates, 429);
    }
    if ev :| IsEvent(ev, updates, 429) {
      assert IsFolderEvent(ev);
    }
  }

  method BucketUpdates(updates: seq<EntityUpdateEvent>) returns (out: Bucketed)
    ensures out == Buckets(updates)
    ensures SortsEvents(updates, out)
  {
    out := Bucketed([], [], [], [], false);
    for i := 0 to |updates|
      invariant out == Buckets(updates[..i])
    {
      var ev := updates[i];
      BucketsPush(updates[..i], ev);
      assert updates[..i] + [ev] == updates[..i + 1];
      if ev.application != TUTANOTA_APP {
        continue;
      }
      if ev.typeId == MAIL_SET_ENTRY_TYPE_ID {
        if ev.operation.Create? {
          out := out.(entryCreates := out.entryCreates + [ev]);
        } else if ev.operation.Delete? {
          out := out.(entryDeletes := out.entryDeletes + [ev]);
        }
      } else if ev.typeId == MAIL_TYPE_ID {
        if ev.operation.Create? {
          out := out.(mailCreates := out.mailCreates + [ev]);
        } else {
          out := out.(mailEvents := out.mailEvents + [ev]);
        }
      } else if ev.typeId == MAIL_SET_TYPE_ID {
        out := out.(folderListDirty := true);
      }
    }
    assert updates[..|updates|] == updates;
    BucketsSortEvents(updates);
  }

  method PredecryptMailCreates(b: Backend, evs: seq<EntityUpdateEvent>) returns (pool: Pending)
    ensures pool == Predecrypted(b, evs)
    ensures forall m, p :: m in pool && pool[m] == p <==> CarriedLast(evs, b, m, p)
  {
    pool := map[];
    for i := 0 to |evs|
      invariant pool == Predecrypted(b, evs[..i])
    {
      assert evs[..i + 1][..i] == evs[..i];
      var mail := InlineMail(b, evs[i]);
      if mail.None? {
        continue;
      }
      pool := pool[evs[i].instanceId := PendingMail(mail.value, InlineDetails(b, evs[i]))];
    }
    assert evs[..|evs|] == evs;
    forall m, p ensures m in pool && pool[m] == p <==> CarriedLast(evs, b, m, p) {
      PoolIsLatest(b, evs, m, p);
    }
  }

  method FoldersByEntries(list: seq<FolderInfo>) returns (routes: Routes)
    ensures routes == RoutesOf(list)
  {
    routes := map[];
    for i := 0 to |list|
      invariant routes == RoutesOf(list[..i])
    {
      assert list[..i + 1][..i] == list[..i];
      routes := routes[list[i].entriesListId := list[i]];
    }
    assert list[..|list|] == list;
  }

  /**
   * The entry is in the folder under the folder's next UID, which is now spent. Its row names the folder, with the UID
   * it had before if there was one.
   */
  ghost predicate IsFiled(before: Content, f: FolderId, x: StoredMail, after: Content) {
    var n, id := Next(before.next, f), x.mail.id;
    && OnlyIn(f, before.folders, after.folders) && f in after.folders
    && IsUpsert(Folder(before.folders, f), x.(uid := AsUid(n)), after.folders[f])
    && after.table == before.table[id := Row(x.mail, f, if id in before.table then before.table[id].uid else AsUid(n), false)]
    && after.next == before.next[f := n + 1]
    && after.eml == before.eml
  }

  /** Allocate a UID, stamp it, then write the metadata row and the folder entry. */
  method AssignUidAndUpsert(store: MailStore, local: LocalStore, target: FolderInfo, m: MailId, mail: StoredMail)
    modifies store`folders, store`generation, local`mails, local`nextUid, local`issued
    ensures Now(store, local) == Filed(old(Now(store, local)), target.id, m, mail)
    ensures IsFiled(old(Now(store, local)), target.id, mail, Now(store, local))
  {
    OneUid(Next(local.nextUid, target.id), m);
    var uids := local.AllocateFolderUids(target.id, [m]);
    var stored := mail.(uid := uids[m]);
    local.UpsertMailMetadata(Row(stored.mail, target.id, stored.uid, false));
    store.UpsertMailInFolder(target.id, stored);
  }

  lemma OneUid(next: nat, m: MailId)
    ensures UidsFor(next, [m]) == map[m := AsUid(next)]
  {
    assert UidsFor(next, [m][..0]) == map[];
  }

  /** The folder has lost the mail; with its last folder went row and body. */
  ghost predicate IsUnfiled(before: Content, f: FolderId, m: MailId, after: Content) {
    var last := forall g :: g in after.folders ==> m !in Ids(after.folders[g]);
    && OnlyIn(f, before.folders, after.folders) && after.folders.Keys == before.folders.Keys
    && (f in before.folders ==> after.folders[f] == Without(before.folders[f], m))
    && after.table == (if last then before.table - {m} else before.table)
    && after.eml == (if last then before.eml - {m} else before.eml)
    && after.next == before.next && after.issued == before.issued
  }

  method ApplyMailSetEntryDelete(store: MailStore, local: LocalStore, routes: Routes, ev: EntityUpdateEvent)
    modifies store`folders, store`generation, local`mails, local`eml
    ensures Now(store, local) == DeleteOne(old(Now(store, local)), ev, routes)
    ensures if EntryMail(ev).Some? && ev.instanceListId in routes
            then IsUnfiled(old(Now(store, local)), routes[ev.instanceListId].id, EntryMail(ev).value, Now(store, local))
            else Now(store, local) == old(Now(store, local))
  {
    var m := EntryMail(ev);
    if m.None? || ev.instanceListId !in routes {
      return;
    }
    var _ := store.RemoveMailFromFolder(routes[ev.instanceListId].id, m.value);
    var anywhere := store.IsMailAnywhere(m.value);
    if !anywhere {
      local.DeleteMail(m.value);
    }
  }

  method EraseMail(store: MailStore, local: LocalStore, m: MailId)
    modifies store`folders, store`generation, local`mails, local`eml
    ensures Now(store, local) == Erased(old(Now(store, local)), m)
  {
    local.DeleteMail(m);
    store.RemoveMailEverywhere(m);
  }

  /** The mail has the new metadata wherever it is shown and in its row; all else is as it was. */
  ghost predicate IsUpdated(before: Content, m: MailId, mail: Mail, after: Content) {
    && after.folders.Keys == before.folders.Keys
    && (forall f :: f in before.folders ==> ShowsNew(before.folders[f], after.folders[f], mail))
    && after.table.Keys == before.table.Keys
    && (forall k :: k in before.table ==>
          after.table[k] == if k == m then before.table[k].(mail := mail) else before.table[k])
    && after == before.(folders := after.folders, table := after.table)
  }

  /** The mail is in no folder and has neither row nor body; the other entries of each folder keep their order. */
  ghost predicate IsErased(before: Content, m: MailId, after: Content) {
    && after.folders.Keys == before.folders.Keys
    && (forall f :: f in before.folders ==> after.folders[f] == Without(before.folders[f], m))
    && m !in after.table && after.table == before.table - {m}
    && m !in after.eml && after.eml == before.eml - {m}
    && after == before.(folders := after.folders, table := after.table, eml := after.eml)
  }

  method ApplyMailEvent(store: MailStore, local: LocalStore, b: Backend, ev: EntityUpdateEvent)
    modifies store`folders, store`generation, local`mails, local`eml
    ensures Now(store, local) == MailOne(old(Now(store, local)), ev, b)
    ensures forall mail :: ev.operation.Update? && IsPayload(ev, b, mail) ==>
              IsUpdated(old(Now(store, local)), ev.instanceId, mail, Now(store, local))
    ensures ev.operation.Delete? || (ev.operation.Update? && forall mail :: !IsPayload(ev, b, mail)) ==>
              IsErased(old(Now(store, local)), ev.instanceId, Now(store, local))
    ensures !ev.operation.Update? && !ev.operation.Delete? ==> Now(store, local) == old(Now(store, local))
  {
    ResolvedIsPayload(ev, b);
    match ev.operation
    case Delete =>
      EraseMail(store, local, ev.instanceId);
    case Update =>
      var mail := ResolvedMail(b, ev);
      if mail.Some? {
        store.RefreshMailInPlace(mail.value);
        local.RefreshMailFields(ev.instanceId, mail.value);
      } else {
        EraseMail(store, local, ev.instanceId);
      }
    case Create =>
    case Other(_) =>
  }

  method DropFolders(local: LocalStore, removed: set<FolderId>)
    modifies local`mails, local`eml
    ensures var gone := FiledIn(RowFolders(old(local.mails)), removed);
            local.mails == old(local.mails) - gone && local.eml == old(local.eml) - gone
  {
    var todo := removed;
    ghost var table := local.mails;
    while todo != {}
      invariant todo <= removed
      invariant local.mails == table - FiledIn(RowFolders(table), removed - todo)
      invariant local.eml == old(local.eml) - FiledIn(RowFolders(table), removed - todo)
    {
      var f :| f in todo;
      ghost var before := FiledIn(RowFolders(table), removed - todo);
      var ids := local.DeleteFolderMails(f);
      DeleteBodies(local, ids);
      todo := todo - {f};
      assert FiledIn(RowFolders(table), removed - todo) == before + ids;
    }
    assert removed - todo == removed;
  }

  /** Folders that are no longer known are gone, with the rows filed in them and the bodies of those. */
  ghost predicate IsPruned(before: Content, known: set<FolderId>, after: Content) {
    && after.folders.Keys == before.folders.Keys * known
    && (forall f :: f in after.folders ==> after.folders[f] == before.folders[f])
    && (forall m :: m in before.table ==>
          (m in after.table <==> !(before.table[m].folder in before.folders && before.table[m].folder !in known)))
    && (forall m :: m in after.table ==> m in before.table && after.table[m] == before.table[m])
    && after.eml == before.eml - (before.table.Keys - after.table.Keys)
    && after.next == before.next && after.issued == before.issued
  }

  method RefreshFolderList(store: MailStore, local: LocalStore, b: Backend)
    modifies store, local`mails, local`eml
    ensures b.listFolders.Ok? ==>
              && store.folderList == b.listFolders.value
              && Now(store, local) == Pruned(old(Now(store, local)), FolderIds(b.listFolders.value))
              && IsPruned(old(Now(store, local)), FolderIds(b.listFolders.value), Now(store, local))
    ensures b.listFolders.Err? ==> unchanged(store) && unchanged(local)
  {
    if b.listFolders.Err? {
      return;
    }
    var folders := b.listFolders.value;
    store.SetFolderList(folders);
    var removed := store.PruneUnknownFolders(FolderIds(folders));
    ghost var table := local.mails;
    DropFolders(local, removed);
    assert FiledIn(RowFolders(table), removed) == table.Keys - local.mails.Keys;
  }

  method WriteInlineBody(store: MailStore, local: LocalStore, m: MailId, body: Option<string>)
    modifies local`mails, local`eml
    ensures Now(store, local) == Bodied(old(Now(store, local)), m, body)
  {
    if body.Some? {
      local.WriteEml(m, body.value);
      local.MarkHasDetails(m);
    }
  }

  /** A mail that rode in the same batch is used as it came, with its body if that came along. */
  method ApplyPending(store: MailStore, local: LocalStore, b: Backend, target: FolderInfo, m: MailId, p: PendingMail)
    modifies store`folders, store`generation, local`mails, local`nextUid, local`issued, local`eml
    ensures Now(store, local) == FromPool(old(Now(store, local)), target.id, m, p, b)
  {
    var body := InlineBody(p, b);
    WriteInlineBody(store, local, m, body);
    AssignUidAndUpsert(store, local, target, m, StoredMail(p.mail, body.Some?, 0, false));
  }

  /**
   * The folder needs a full sync: the entry names no mail or no known folder, or the mail is neither cached nor in the
   * pool and cannot be asked for, or asking failed. A mail that the server does not have needs none.
   */
  predicate NeedsSync(mem: Memory, pending: Pending, ev: EntityUpdateEvent, routes: Routes, b: Backend) {
    || EntryMail(ev).None?
    || ev.instanceListId !in routes
    || (&& !Anywhere(mem, EntryMail(ev).value)
        && EntryMail(ev).value !in pending
        && match ResolvedEntry(b, ev)
           case None => true
           case Some(id) => b.loadMail(id.0, id.1).Err?)
  }

  /** The pooled mail is taken exactly when it is used. */
  predicate TakesFromPool(mem: Memory, pending: Pending, ev: EntityUpdateEvent, routes: Routes) {
    && EntryMail(ev).Some? && ev.instanceListId in routes
    && !Anywhere(mem, EntryMail(ev).value) && EntryMail(ev).value in pending
  }

  method ApplyMailSetEntryCreate(store: MailStore, local: LocalStore, b: Backend, routes: Routes,
                                 fallback: set<string>, pending: Pending, ev: EntityUpdateEvent)
    returns (fallback': set<string>, pending': Pending, ghost hit: Hit)
    modifies store`folders, store`generation, local`mails, local`nextUid, local`issued, local`eml
    ensures EntryMail(ev).Some? && ev.instanceListId in routes ==>
              Answers(old(store.folders), EntryMail(ev).value, hit)
    ensures Filing(Now(store, local), pending', fallback')
            == CreateOne(Filing(old(Now(store, local)), pending, fallback), ev, routes, b, hit)
    ensures fallback' == fallback + if NeedsSync(old(store.folders), pending, ev, routes, b) then {ev.instanceListId}
                                    else {}
    ensures pending' == if TakesFromPool(old(store.folders), pending, ev, routes) then pending - {EntryMail(ev).value}
                        else pending
  {
    fallback', pending', hit := fallback, pending, None;
    var entry := EntryMail(ev);
    if entry.None? || ev.instanceListId !in routes {
      fallback' := fallback + {ev.instanceListId};
      return;
    }
    var m, target := entry.value, routes[ev.instanceListId];
    var found := store.FindMailAnywhere(m);
    hit := found;
    if found.Some? {
      AssignUidAndUpsert(store, local, target, m, found.value.1);
      return;
    }
    if m in pending {
      pending' := pending - {m};
      ApplyPending(store, local, b, target, m, pending[m]);
      return;
    }
    var tuple := ResolvedEntry(b, ev);
    if tuple.None? {
      fallback' := fallback + {ev.instanceListId};
      return;
    }
    match b.loadMail(tuple.value.0, tuple.value.1)
    case Ok(Some(mail)) =>
      AssignUidAndUpsert(store, local, target, tuple.value.1, StoredMail(mail, false, 0, false));
    case Ok(None) =>
    case Err(_) =>
      fallback' := fallback + {ev.instanceListId};
  }

  method ApplyCreates(store: MailStore, local: LocalStore, b: Backend, routes: Routes, pending: Pending,
                      evs: seq<EntityUpdateEvent>)
    returns (fallback: set<string>, ghost hits: seq<Hit>)
    modifies store`folders, store`generation, local`mails, local`nextUid, local`issued, local`eml
    ensures Searched(Filing(old(Now(store, local)), pending, {}), evs, routes, b, hits)
    ensures var c := CreateSome(Filing(old(Now(store, local)), pending, {}), evs, routes, b, hits);
            Now(store, local) == c.content && fallback == c.fallback
  {
    fallback, hits := {}, [];
    var pool := pending;
    ghost var start := Filing(Now(store, local), pending, {});
    for i := 0 to |evs|
      invariant |hits| == i
      invariant Searched(start, evs[..i], routes, b, hits)
      invariant Filing(Now(store, local), pool, fallback) == CreateSome(start, evs[..i], routes, b, hits)
    {
      ghost var hit;
      ghost var before := hits;
      fallback, pool, hit := ApplyMailSetEntryCreate(store, local, b, routes, fallback, pool, evs[i]);
      hits := before + [hit];
      SearchedMore(start, evs, routes, b, before, hit, i);
    }
    assert evs[..|evs|] == evs;
  }

  lemma SearchedMore(c: Filing, evs: seq<EntityUpdateEvent>, routes: Routes, b: Backend, hits: seq<Hit>, hit: Hit, n: nat)
    requires n < |evs| && |hits| == n && Searched(c, evs[..n], routes, b, hits)
    requires EntryMail(evs[n]).Some? && evs[n].instanceListId in routes ==>
               Answers(CreateSome(c, evs[..n], routes, b, hits).content.folders, EntryMail(evs[n]).value, hit)
    ensures Searched(c, evs[..n + 1], routes, b, hits + [hit])
    ensures CreateSome(c, evs[..n + 1], routes, b, hits + [hit])
            == CreateOne(CreateSome(c, evs[..n], routes, b, hits), evs[n], routes, b, hit)
  {
    var some, all := evs[..n + 1], hits + [hit];
    assert some[..n] == evs[..n] && all[..n] == hits;
    forall i | 0 <= i < |some| ensures SearchedAt(c, some, routes, b, all, i) {
      assert some[..i] == evs[..n][..i] && all[..i] == hits[..i];
      assert i < n ==> SearchedAt(c, evs[..n], routes, b, hits, i);
    }
  }

  method ApplyDeletes(store: MailStore, local: LocalStore, routes: Routes, evs: seq<EntityUpdateEvent>)
    modifies store`folders, store`generation, local`mails, local`eml
    ensures Now(store, local) == DeleteSome(old(Now(store, local)), evs, routes)
  {
    ghost var start := Now(store, local);
    for i := 0 to |evs|
      invariant Now(store, local) == DeleteSome(start, evs[..i], routes)
    {
      assert evs[..i + 1][..i] == evs[..i];
      ApplyMailSetEntryDelete(store, local, routes, evs[i]);
    }
    assert evs[..|evs|] == evs;
  }

  method ApplyMailEvents(store: MailStore, local: LocalStore, b: Backend, evs: seq<EntityUpdateEvent>)
    modifies store`folders, store`generation, local`mails, local`eml
    ensures Now(store, local) == MailSome(old(Now(store, local)), evs, b)
  {
    ghost var start := Now(store, local);
    for i := 0 to |evs|
      invariant Now(store, local) == MailSome(start, evs[..i], b)
    {
      assert evs[..i + 1][..i] == evs[..i];
      ApplyMailEvent(store, local, b, evs[i]);
    }
    assert evs[..|evs|] == evs;
  }

  method FallbackSync(store: MailStore, local: LocalStore, b: Backend, routes: Routes, entries: string)
    modifies store`folders, store`generation, local`mails, local`nextUid, local`issued, local`eml
    ensures Now(store, local) == RelistOne(old(Now(store, local)), entries, routes, b)
  {
    if entries !in routes {
      return;
    }
    var folder := routes[entries];
    var _ := SyncFolder(store, local, folder, b.folderMails(folder));
  }

  /** The fallback set has no order of its own; `order` records the one taken. */
  method FallbackSyncs(store: MailStore, local: LocalStore, b: Backend, routes: Routes, fallback: set<string>)
    returns (ghost order: seq<string>)
    modifies store`folders, store`generation, local`mails, local`nextUid, local`issued, local`eml
    ensures Enumerates(order, fallback)
    ensures Now(store, local) == RelistSome(old(Now(store, local)), order, routes, b)
  {
    ghost var start := Now(store, local);
    order := [];
    var todo := fallback;
    while todo != {}
      invariant todo <= fallback && Enumerates(order, fallback - todo)
      invariant Now(store, local) == RelistSome(start, order, routes, b)
    {
      var entries :| entries in todo;
      FallbackSync(store, local, b, routes, entries);
      assert (order + [entries])[..|order|] == order;
      order := order + [entries];
      todo := todo - {entries};
    }
  }

  method RefreshIfDirty(store: MailStore, local: LocalStore, b: Backend, batch: EntityUpdateBatch, dirty: bool)
    requires dirty == Buckets(batch.updates).folderListDirty
    modifies store, local`mails, local`eml
    ensures store.folderList == ListFor(old(store.folderList), batch, b)
    ensures Now(store, local) == RefreshedContent(old(Now(store, local)), batch, b)
  {
    if dirty {
      RefreshFolderList(store, local, b);
    }
  }

  /** Creates, then deletes, then mail events, then the folders that need a full sync. */
  method ApplyBatch(store: MailStore, local: LocalStore, b: Backend, batch: EntityUpdateBatch)
    returns (ghost how: How)
    modifies store, local`mails, local`nextUid, local`issued, local`eml
    ensures store.folderList == ListFor(old(store.folderList), batch, b)
    ensures HowPossible(old(Now(store, local)), old(store.folderList), batch, b, how)
    ensures Now(store, local) == BatchDone(old(Now(store, local)), old(store.folderList), batch, b, how)
  {
    var k := BucketUpdates(batch.updates);
    RefreshIfDirty(store, local, b, batch, k.folderListDirty);
    var routes := FoldersByEntries(store.folderList);
    var pending := PredecryptMailCreates(b, k.mailCreates);
    var fallback;
    ghost var hits, order;
    fallback, hits := ApplyCreates(store, local, b, routes, pending, k.entryCreates);
    ApplyDeletes(store, local, routes, k.entryDeletes);
    ApplyMailEvents(store, local, b, k.mailEvents);
    order := FallbackSyncs(store, local, b, routes, fallback);
    how := How(hits, order);
  }

  // ----- messages -----

  datatype Message = EntityUpdate(batch: EntityUpdateBatch) | InitialSyncDone | Ignored

  /** Replica and folder list while messages are handled. */
  datatype Running = Running(content: Content, list: seq<FolderInfo>)

  ghost function State(store: MailStore, local: LocalStore): Running
    reads store, local
  {
    Running(Now(store, local), store.folderList)
  }

  /** One message with the server answers it met and what it left open. */
  datatype Turn = Turn(msg: Message, backend: Backend, how: How)

  /** `t` is what handling the message makes of `s`. */
  ghost predicate Follows(s: Running, turn: Turn, t: Running) {
    if turn.msg.EntityUpdate? then
      && HowPossible(s.content, s.list, turn.msg.batch, turn.backend, turn.how)
      && t == Running(BatchDone(s.content, s.list, turn.msg.batch, turn.backend, turn.how),
                      ListFor(s.list, turn.msg.batch, turn.backend))
    else
      t == s
  }

  /** A batch moves its group's cursor to itself; other messages move nothing. */
  function CursorAfter(ids: map<string, string>, msg: Message): map<string, string> {
    if msg.EntityUpdate? then ids[msg.batch.groupId := msg.batch.batchId] else ids
  }

  function Cursors(ids: map<string, string>, msgs: seq<Message>): map<string, string> {
    if msgs == [] then ids else CursorAfter(Cursors(ids, msgs[..|msgs| - 1]), msgs[|msgs| - 1])
  }

  lemma CursorsSnoc(ids: map<string, string>, msgs: seq<Message>, i: nat)
    requires i < |msgs|
    ensures msgs[..i + 1] == msgs[..i] + [msgs[i]]
    ensures Cursors(ids, msgs[..i + 1]) == CursorAfter(Cursors(ids, msgs[..i]), msgs[i])
  {
    assert msgs[..i + 1][..i] == msgs[..i];
  }

  /** No later batch of the queue is of the same group. */
  predicate IsLatest(queue: seq<Message>, i: nat)
    requires i < |queue|
  {
    && queue[i].EntityUpdate?
    && forall j :: i < j < |queue| && queue[j].EntityUpdate? ==> queue[j].batch.groupId != queue[i].batch.groupId
  }

  predicate HasBatchOf(queue: seq<Message>, group: string) {
    exists i :: 0 <= i < |queue| && queue[i].EntityUpdate? && queue[i].batch.groupId == group
  }

  /** The cursor of each group with a batch in the queue is the group's latest batch, all others are as before. */
  ghost predicate CursorsFollow(before: map<string, string>, queue: seq<Message>, after: map<string, string>) {
    && (forall i :: 0 <= i < |queue| && IsLatest(queue, i) ==>
          queue[i].batch.groupId in after && after[queue[i].batch.groupId] == queue[i].batch.batchId)
    && (forall g :: !HasBatchOf(queue, g) ==> (g in after <==> g in before) && (g in before ==> after[g] == before[g]))
  }

  lemma {:induction false} CursorsAreFollowed(ids: map<string, string>, queue: seq<Message>)
    ensures CursorsFollow(ids, queue, Cursors(ids, queue))
  {
    if queue != [] {
      var n := |queue| - 1;
      CursorsAreFollowed(ids, queue[..n]);
      FollowOne(ids, queue[..n], Cursors(ids, queue[..n]), queue[n]);
      assert queue == queue[..n] + [queue[n]];
    }
  }

  lemma {:induction false} FollowOne(ids: map<string, string>, queue: seq<Message>, after: map<string, string>,
                                     msg: Message)
    requires CursorsFollow(ids, queue, after)
    ensures CursorsFollow(ids, queue + [msg], CursorAfter(after, msg))
  {
    var more, n := queue + [msg], |queue|;
    assert more[n] == msg && forall i :: 0 <= i < n ==> more[i] == queue[i];
    forall i | 0 <= i < |more| && IsLatest(more, i)
      ensures var g := more[i].batch.groupId;
              g in CursorAfter(after, msg) && CursorAfter(after, msg)[g] == more[i].batch.batchId
    {
      if i < n {
        assert IsLatest(queue, i);
      }
    }
    forall g | !HasBatchOf(more, g)
      ensures !HasBatchOf(queue, g) && (msg.EntityUpdate? ==> msg.batch.groupId != g)
    {
      assert forall i :: 0 <= i < n && queue[i].EntityUpdate? && queue[i].batch.groupId == g ==> more[i] == queue[i];
    }
  }

  lemma FollowSingle(ids: map<string, string>, msg: Message)
    ensures CursorsFollow(ids, [msg], CursorAfter(ids, msg))
  {
    assert Cursors(ids, [msg][..0]) == ids;
    CursorsAreFollowed(ids, [msg]);
  }

  /**
   * Apply one message, then advance the in-memory cursor and persist it. `atSave` is the state when the cursor is about
   * to reach the disk.
   */
  method Process(store: MailStore, local: LocalStore, b: Backend, ids: map<string, string>, msg: Message)
    returns (ids': map<string, string>, ghost how: How, ghost atSave: Running)
    modifies store, local
    ensures Follows(old(State(store, local)), Turn(msg, b, how), State(store, local))
    ensures ids' == CursorAfter(ids, msg) && local.cursors == CursorAfter(old(local.cursors), msg)
    ensures CursorsFollow(ids, [msg], ids') && CursorsFollow(old(local.cursors), [msg], local.cursors)
    ensures atSave == State(store, local)
    ensures !msg.EntityUpdate? ==> unchanged(store) && unchanged(local)
  {
    ids', how, atSave := ids, How([], []), State(store, local);
    FollowSingle(ids, msg);
    FollowSingle(local.cursors, msg);
    if !msg.EntityUpdate? {
      return;
    }
    how := ApplyBatch(store, local, b, msg.batch);
    ids' := ids'[msg.batch.groupId := msg.batch.batchId];
    atSave := State(store, local);
    local.SetEventBusBatchId(msg.batch.groupId, msg.batch.batchId);
  }

  /** The states a run of messages goes through. */
  ghost predicate Trace(states: seq<Running>, turns: seq<Turn>) {
    |states| == |turns| + 1 && forall i :: 0 <= i < |turns| ==> Follows(states[i], turns[i], states[i + 1])
  }

  lemma TraceExtend(states: seq<Running>, turns: seq<Turn>, turn: Turn, t: Running)
    requires Trace(states, turns) && Follows(states[|turns|], turn, t)
    ensures Trace(states + [t], turns + [turn])
  {
    forall i | 0 <= i <= |turns| ensures Follows((states + [t])[i], (turns + [turn])[i], (states + [t])[i + 1]) {
      if i < |turns| {
        assert (states + [t])[i] == states[i] && (turns + [turn])[i] == turns[i] && (states + [t])[i + 1] == states[i + 1];
      }
    }
  }

  /** The handler's main loop, over all the messages it receives before the channel closes or shutdown. */
  method RunEventHandler(store: MailStore, local: LocalStore, ids0: map<string, string>, queue: seq<Message>,
                         backends: seq<Backend>)
    returns (ids: map<string, string>, ghost states: seq<Running>, ghost turns: seq<Turn>)
    requires |backends| == |queue|
    modifies store, local
    ensures Trace(states, turns) && |turns| == |queue|
    ensures forall i :: 0 <= i < |queue| ==> turns[i].msg == queue[i] && turns[i].backend == backends[i]
    ensures states[0] == old(State(store, local)) && states[|queue|] == State(store, local)
    ensures ids == Cursors(ids0, queue) && local.cursors == Cursors(old(local.cursors), queue)
    ensures CursorsFollow(ids0, queue, ids) && CursorsFollow(old(local.cursors), queue, local.cursors)
  {
    ghost var start, saved := State(store, local), local.cursors;
    ids, states, turns := ids0, [start], [];
    for i := 0 to |queue|
      invariant Trace(states, turns) && |turns| == i
      invariant forall j :: 0 <= j < i ==> turns[j].msg == queue[j] && turns[j].backend == backends[j]
      invariant states[0] == start && states[i] == State(store, local)
      invariant ids == Cursors(ids0, queue[..i]) && local.cursors == Cursors(saved, queue[..i])
    {
      CursorsSnoc(ids0, queue, i);
      CursorsSnoc(saved, queue, i);
      ghost var how, atSave;
      ids, how, atSave := Process(store, local, backends[i], ids, queue[i]);
      ghost var turn := Turn(queue[i], backends[i], how);
      TraceExtend(states, turns, turn, State(store, local));
      states, turns := states + [State(store, local)], turns + [turn];
    }
    assert queue[..|queue|] == queue;
    CursorsAreFollowed(ids0, queue);
    CursorsAreFollowed(saved, queue);
  }
}
