/**
 * UIDs across a restart. On conflict the upsert re-files a row but keeps its UID, while memory shows the fresh one:
 * runs that never create a mail that already has a row survive a restart, others may not.
 */
module UidRestart {
  import opened Wrappers
  import opened MailTypes
  import opened MailStoreModel
  import opened LocalStoreModel
  import opened ReplicaSpec
  import opened Resolution
  import opened Agreement
  import opened Uids
  import opened FolderSync
  import opened Contents
  import opened BatchRefinement
  import opened BatchUids
  import opened EventHandler
  import opened StartupGate

  // ----- the table alone -----

  /** The rows of the folder carry distinct UIDs, so that loading it shows distinct UIDs. */
  predicate RowsDistinct(table: Table, f: FolderId) {
    forall m, n :: m in InFolder(table, f) && n in InFolder(table, f) && m != n ==> table[m].uid != table[n].uid
  }

  lemma LoadedDistinctIff(table: Table, f: FolderId, loaded: seq<StoredMail>, eml: map<MailId, string>)
    requires Keyed(table) && LoadedFrom(loaded, table, f, eml)
    ensures DistinctUids(loaded) <==> RowsDistinct(table, f)
  {
    if DistinctUids(loaded) {
      forall m, n | m in InFolder(table, f) && n in InFolder(table, f) && m != n ensures table[m].uid != table[n].uid {
        var x, y := LoadedEntry(table[m], m in eml), LoadedEntry(table[n], n in eml);
        assert x in loaded && y in loaded && x.mail.id != y.mail.id;
      }
    }
    if RowsDistinct(table, f) {
      forall i, j | 0 <= i < j < |loaded| ensures loaded[i].uid != loaded[j].uid {
        assert loaded[i] in loaded && loaded[j] in loaded;
        var m :| m in InFolder(table, f) && loaded[i] == LoadedEntry(table[m], m in eml);
        var n :| n in InFolder(table, f) && loaded[j] == LoadedEntry(table[n], n in eml);
        assert m != n;
      }
    }
  }

  /** The UID a row keeps: the one it had, if there was a row. */
  function KeptUid(table: Table, row: Row): nat {
    if row.mail.id in table then table[row.mail.id].uid else row.uid
  }

  /** An upsert leaves the folder fit for a restart if and only if no other row of it carries the kept UID. */
  lemma UpsertDistinctIff(table: Table, row: Row)
    requires RowsDistinct(table, row.folder)
    ensures RowsDistinct(UpsertRow(table, row), row.folder) <==>
            forall m :: m in InFolder(table, row.folder) && m != row.mail.id ==> table[m].uid != KeptUid(table, row)
  {
    var id, after, f := row.mail.id, UpsertRow(table, row), row.folder;
    assert after[id].uid == KeptUid(table, row) && id in InFolder(after, f);
    assert forall m :: m != id ==> (m in InFolder(after, f) <==> m in InFolder(table, f));
  }

  // ----- memory and disk in step -----

  predicate Backed(table: Table, f: FolderId, x: StoredMail) {
    x.mail.id in table && table[x.mail.id].uid == x.uid && table[x.mail.id].folder == f
  }

  /** Memory shows each mail with the folder and UID of its row, and every row is shown. */
  ghost predicate OnDisk(mem: Memory, table: Table) {
    && (forall f, x :: f in mem && x in mem[f] ==> Backed(table, f, x))
    && (forall m :: m in table ==> table[m].folder in mem && m in Ids(mem[table[m].folder]))
  }

  lemma FiledOnDisk(c: Content, f: FolderId, owner: MailId, x: StoredMail)
    requires OnDisk(c.folders, c.table) && x.mail.id !in c.table
    ensures var after := Filed(c, f, owner, x); OnDisk(after.folders, after.table)
  {
    var y := x.(uid := AsUid(Next(c.next, f)));
    var s, after := Folder(c.folders, f), Filed(c, f, owner, x);
    assert x.mail.id !in Ids(s) by {
      forall z | z in s ensures z.mail.id != x.mail.id {
        assert Backed(c.table, f, z);
      }
    }
    assert after.folders[f] == s + [y];
    forall g, z | g in after.folders && z in after.folders[g] ensures Backed(after.table, g, z) {
      assert z != y || g != f ==> Backed(c.table, g, z);
    }
    forall m | m in after.table
      ensures after.table[m].folder in after.folders && m in Ids(after.folders[after.table[m].folder])
    {
      if m == x.mail.id {
        assert y in after.folders[f];
      } else {
        var z :| z in c.folders[c.table[m].folder] && z.mail.id == m;
        assert z in after.folders[c.table[m].folder];
      }
    }
  }

  lemma BodiedOnDisk(c: Content, m: MailId, body: Option<string>)
    requires OnDisk(c.folders, c.table)
    ensures var after := Bodied(c, m, body); OnDisk(after.folders, after.table) && after.table.Keys == c.table.Keys
  {
    forall f, x | f in c.folders && x in c.folders[f] ensures Backed(Bodied(c, m, body).table, f, x) {
      assert Backed(c.table, f, x);
    }
  }

  lemma WithoutIds(s: seq<StoredMail>, m: MailId)
    ensures Ids(Without(s, m)) == Ids(s) - {m}
  {
  }

  /** In step, a mail is shown in one folder only. */
  lemma OnlyFolder(mem: Memory, table: Table, f: FolderId, m: MailId)
    requires OnDisk(mem, table) && f in mem && m in Ids(mem[f])
    ensures m in table && table[m].folder == f
  {
    var x :| x in mem[f] && x.mail.id == m;
    assert Backed(table, f, x);
  }

  lemma ErasedOnDisk(c: Content, m: MailId)
    requires OnDisk(c.folders, c.table)
    ensures var after := Erased(c, m); OnDisk(after.folders, after.table)
  {
    forall g | g in c.folders ensures Ids(Without(c.folders[g], m)) == Ids(c.folders[g]) - {m} {
      WithoutIds(c.folders[g], m);
    }
    forall g, x | g in c.folders && x in Without(c.folders[g], m) ensures Backed(c.table - {m}, g, x) {
      assert Backed(c.table, g, x);
    }
  }

  lemma NotElsewhere(mem: Memory, table: Table, f: FolderId, m: MailId, g: FolderId)
    requires OnDisk(mem, table) && f in mem && m in Ids(mem[f]) && g in mem && g != f
    ensures m !in Ids(mem[g])
  {
    OnlyFolder(mem, table, f, m);
    if m in Ids(mem[g]) {
      OnlyFolder(mem, table, g, m);
    }
  }

  lemma ErasedNowhere(mem: Memory, m: MailId)
    ensures !Anywhere(RemoveEverywhere(mem, m), m)
  {
    forall g | g in mem ensures m !in Ids(Without(mem[g], m)) {
      WithoutIds(mem[g], m);
    }
  }

  lemma RemovedInStep(mem: Memory, table: Table, f: FolderId, m: MailId)
    requires OnDisk(mem, table) && f in mem && m in Ids(mem[f])
    ensures RemoveFrom(mem, f, m) == RemoveEverywhere(mem, m) && !Anywhere(RemoveFrom(mem, f, m), m)
  {
    forall g | g in mem ensures g != f ==> Without(mem[g], m) == mem[g] {
      if g != f {
        NotElsewhere(mem, table, f, m, g);
      }
    }
    assert RemoveFrom(mem, f, m) == RemoveEverywhere(mem, m);
    ErasedNowhere(mem, m);
  }

  lemma RemovedFromOther(mem: Memory, table: Table, f: FolderId, m: MailId)
    requires OnDisk(mem, table) && (f in mem ==> m !in Ids(mem[f]))
    ensures RemoveFrom(mem, f, m) == mem && (!Anywhere(mem, m) ==> m !in table)
  {
  }

  /** In step, taking a mail out of its folder erases it; taking it out of any other folder changes nothing. */
  lemma UnfiledInStep(c: Content, f: FolderId, m: MailId)
    requires OnDisk(c.folders, c.table)
    ensures var after := Unfiled(c, f, m);
            if f in c.folders && m in Ids(c.folders[f]) then
              after.folders == RemoveEverywhere(c.folders, m) && after.table == c.table - {m}
            else
              after.folders == c.folders && after.table == c.table
  {
    if f in c.folders && m in Ids(c.folders[f]) {
      RemovedInStep(c.folders, c.table, f, m);
    } else {
      RemovedFromOther(c.folders, c.table, f, m);
      assert m !in c.table ==> c.table - {m} == c.table;
    }
  }

  lemma UnfiledOnDisk(c: Content, f: FolderId, m: MailId)
    requires OnDisk(c.folders, c.table)
    ensures var after := Unfiled(c, f, m); OnDisk(after.folders, after.table)
  {
    UnfiledInStep(c, f, m);
    ErasedOnDisk(c, m);
  }

  lemma UpdatedOnDisk(c: Content, m: MailId, mail: Mail)
    requires OnDisk(c.folders, c.table)
    ensures var after := Updated(c, m, mail); OnDisk(after.folders, after.table)
  {
    var after := Updated(c, m, mail);
    forall f, x | f in after.folders && x in after.folders[f] ensures Backed(after.table, f, x) {
      var i :| 0 <= i < |after.folders[f]| && after.folders[f][i] == x;
      assert Backed(c.table, f, c.folders[f][i]);
    }
  }

  lemma PrunedOnDisk(c: Content, known: set<FolderId>)
    requires OnDisk(c.folders, c.table)
    ensures var after := Pruned(c, known); OnDisk(after.folders, after.table)
  {
    var after := Pruned(c, known);
    forall f, x | f in after.folders && x in after.folders[f] ensures Backed(after.table, f, x) {
      assert Backed(c.table, f, x);
    }
    forall m | m in after.table
      ensures after.table[m].folder in after.folders && m in Ids(after.folders[after.table[m].folder])
    {
      assert m in c.table && after.table[m] == c.table[m];
      assert c.table[m].folder in known;
    }
  }

  // ----- full syncs -----

  /** A listing that repeats no mail and names none that is filed elsewhere. */
  ghost predicate FitsFolder(table: Table, f: FolderId, listing: seq<Mail>) {
    DistinctMails(listing) && forall x :: x in listing && x.id in table ==> table[x.id].folder == f
  }

  predicate DistinctRows(rows: seq<Row>) {
    forall i, j :: 0 <= i < j < |rows| ==> rows[i].mail.id != rows[j].mail.id
  }

  lemma {:induction false} UpsertRowsUid(table: Table, rows: seq<Row>, i: nat)
    requires DistinctRows(rows) && i < |rows|
    ensures rows[i].mail.id in UpsertRows(table, rows)
    ensures UpsertRows(table, rows)[rows[i].mail.id].uid == KeptUid(table, rows[i])
    ensures UpsertRows(table, rows)[rows[i].mail.id].folder == rows[i].folder
  {
    var n := |rows| - 1;
    if i < n {
      UpsertRowsUid(table, rows[..n], i);
    } else {
      UpsertRowsOther(table, rows[..n], rows[n].mail.id);
    }
  }

  lemma {:induction false} UpsertRowsOther(table: Table, rows: seq<Row>, m: MailId)
    requires forall i :: 0 <= i < |rows| ==> rows[i].mail.id != m
    ensures m in UpsertRows(table, rows) <==> m in table
    ensures m in table ==> UpsertRows(table, rows)[m] == table[m]
  {
    if rows != [] {
      UpsertRowsOther(table, rows[..|rows| - 1], m);
    }
  }

  /** The row of a listed mail carries the UID that its entry shows. */
  lemma ListedBacked(c: Content, f: FolderId, listing: seq<Mail>, known: map<MailId, StoredMail>,
                     uids: map<MailId, nat>, i: nat)
    requires OnDisk(c.folders, c.table) && FitsFolder(c.table, f, listing) && i < |listing|
    requires known == ByMailId(Folder(c.folders, f))
    ensures Backed(SyncedTable(c.table, f, listing, known, uids), f, Entry(listing[i], known, uids))
  {
    var rows, x := RowsFor(listing, f, known, uids), listing[i];
    assert x in listing && x.id in MailIds(listing);
    UpsertRowsUid(c.table, rows, i);
    assert x.id in c.table ==> c.table[x.id].folder == f;
    if x.id in known {
      assert Backed(c.table, f, known[x.id]);
    }
  }

  lemma OtherRows(table: Table, f: FolderId, listing: seq<Mail>, known: map<MailId, StoredMail>,
                  uids: map<MailId, nat>, m: MailId)
    requires m !in MailIds(listing)
    ensures var after := SyncedTable(table, f, listing, known, uids);
            (m in after <==> m in table && table[m].folder != f) && (m in after ==> after[m] == table[m])
  {
    var rows := RowsFor(listing, f, known, uids);
    forall i | 0 <= i < |rows| ensures rows[i].mail.id != m {
      assert listing[i] in listing;
    }
    UpsertRowsOther(table, rows, m);
  }

  lemma ListedEntryBacked(c: Content, f: FolderId, listing: seq<Mail>, known: map<MailId, StoredMail>,
                          uids: map<MailId, nat>, x: StoredMail)
    requires OnDisk(c.folders, c.table) && FitsFolder(c.table, f, listing)
    requires known == ByMailId(Folder(c.folders, f)) && x in Entries(listing, known, uids)
    ensures Backed(SyncedTable(c.table, f, listing, known, uids), f, x)
  {
    var i :| 0 <= i < |listing| && x == Entry(listing[i], known, uids);
    ListedBacked(c, f, listing, known, uids, i);
  }

  lemma OtherEntryBacked(c: Content, f: FolderId, listing: seq<Mail>, known: map<MailId, StoredMail>,
                         uids: map<MailId, nat>, g: FolderId, x: StoredMail)
    requires OnDisk(c.folders, c.table) && FitsFolder(c.table, f, listing)
    requires g in c.folders && x in c.folders[g] && g != f
    ensures Backed(SyncedTable(c.table, f, listing, known, uids), g, x)
  {
    assert Backed(c.table, g, x);
    assert x.mail.id !in MailIds(listing);
    OtherRows(c.table, f, listing, known, uids, x.mail.id);
  }

  lemma SyncedBacked(c: Content, f: FolderId, listing: seq<Mail>, g: FolderId, x: StoredMail)
    requires OnDisk(c.folders, c.table) && FitsFolder(c.table, f, listing)
    requires g in Synced(c, f, listing).folders && x in Synced(c, f, listing).folders[g]
    ensures Backed(Synced(c, f, listing).table, g, x)
  {
    var known := ByMailId(Folder(c.folders, f));
    var uids := UidsFor(Next(c.next, f), NewIds(listing, known));
    if g == f {
      ListedEntryBacked(c, f, listing, known, uids, x);
    } else {
      OtherEntryBacked(c, f, listing, known, uids, g, x);
    }
  }

  lemma SyncedRowShown(c: Content, f: FolderId, listing: seq<Mail>, known: map<MailId, StoredMail>,
                       uids: map<MailId, nat>, m: MailId)
    requires OnDisk(c.folders, c.table) && FitsFolder(c.table, f, listing)
    requires known == ByMailId(Folder(c.folders, f)) && m in SyncedTable(c.table, f, listing, known, uids)
    ensures var g := SyncedTable(c.table, f, listing, known, uids)[m].folder;
            if m in MailIds(listing) then g == f else g != f && g in c.folders && m in Ids(c.folders[g])
  {
    if m in MailIds(listing) {
      var i :| 0 <= i < |listing| && listing[i].id == m;
      ListedBacked(c, f, listing, known, uids, i);
    } else {
      OtherRows(c.table, f, listing, known, uids, m);
    }
  }

  lemma SyncedShown(c: Content, f: FolderId, listing: seq<Mail>, m: MailId)
    requires OnDisk(c.folders, c.table) && FitsFolder(c.table, f, listing)
    requires m in Synced(c, f, listing).table
    ensures var after := Synced(c, f, listing);
            after.table[m].folder in after.folders && m in Ids(after.folders[after.table[m].folder])
  {
    var known := ByMailId(Folder(c.folders, f));
    var uids := UidsFor(Next(c.next, f), NewIds(listing, known));
    EntriesIds(listing, known, uids);
    SyncedRowShown(c, f, listing, known, uids, m);
  }

  lemma SyncedOnDisk(c: Content, f: FolderId, listing: seq<Mail>)
    requires OnDisk(c.folders, c.table) && FitsFolder(c.table, f, listing)
    ensures OnDisk(Synced(c, f, listing).folders, Synced(c, f, listing).table)
  {
    forall g, x | g in Synced(c, f, listing).folders && x in Synced(c, f, listing).folders[g]
      ensures Backed(Synced(c, f, listing).table, g, x)
    {
      SyncedBacked(c, f, listing, g, x);
    }
    forall m | m in Synced(c, f, listing).table
      ensures var after := Synced(c, f, listing);
              after.table[m].folder in after.folders && m in Ids(after.folders[after.table[m].folder])
    {
      SyncedShown(c, f, listing, m);
    }
  }

  // ----- one batch -----

  /** A routed CREATE of this mail. */
  predicate Creates(ev: EntityUpdateEvent, routes: Routes, m: MailId) {
    EntryPair(ev, routes).Some? && EntryPair(ev, routes).value.1 == m
  }

  /** No CREATE names a mail that has a row, and no two name the same mail. */
  ghost predicate FirstPlacements(table: Table, evs: seq<EntityUpdateEvent>, routes: Routes) {
    && (forall i, m :: 0 <= i < |evs| && Creates(evs[i], routes, m) ==> m !in table)
    && (forall i, j, m :: 0 <= i < j < |evs| && Creates(evs[i], routes, m) ==> !Creates(evs[j], routes, m))
  }

  /** A CREATE only adds the row of the mail it names. */
  lemma CreateOneOnDisk(c: Filing, ev: EntityUpdateEvent, routes: Routes, b: Backend, hit: Hit)
    requires OnDisk(c.content.folders, c.content.table) && Honest(c.pending, [ev], b)
    requires EntryMail(ev).Some? && ev.instanceListId in routes ==>
               EntryMail(ev).value !in c.content.table && Answers(c.content.folders, EntryMail(ev).value, hit)
    ensures var after := CreateOne(c, ev, routes, b, hit).content;
            && OnDisk(after.folders, after.table)
            && forall m :: m in after.table ==> m in c.content.table || Creates(ev, routes, m)
  {
    CreateFilesSource(c, ev, routes, b, hit);
    if EntryMail(ev).Some? && ev.instanceListId in routes {
      var m, f := EntryMail(ev).value, routes[ev.instanceListId].id;
      var source := SourceOf(c.pending, ev, b, m, hit);
      assert ev in [ev];
      if source.Some? {
        BodiedOnDisk(c.content, m, source.value.body);
        FiledOnDisk(Bodied(c.content, m, source.value.body), f, source.value.owner, source.value.entry);
      }
    }
  }

  /** If the rows are the old ones and those the earlier CREATEs added, the last CREATE names a mail without a row. */
  lemma LastIsNew(table: Table, now: Table, evs: seq<EntityUpdateEvent>, routes: Routes, n: nat)
    requires |evs| == n + 1 && FirstPlacements(table, evs, routes)
    requires forall m :: m in now ==> m in table || exists i :: 0 <= i < n && Creates(evs[..n][i], routes, m)
    ensures forall m :: Creates(evs[n], routes, m) ==> m !in now
  {
  }

  lemma {:induction false} CreateSomeOnDisk(c: Filing, evs: seq<EntityUpdateEvent>, routes: Routes, b: Backend,
                                            hits: seq<Hit>)
    requires OnDisk(c.content.folders, c.content.table) && Honest(c.pending, evs, b)
    requires Searched(c, evs, routes, b, hits) && FirstPlacements(c.content.table, evs, routes)
    ensures var after := CreateSome(c, evs, routes, b, hits);
            && OnDisk(after.content.folders, after.content.table)
            && (forall m :: m in after.content.table ==>
                  m in c.content.table || exists i :: 0 <= i < |evs| && Creates(evs[i], routes, m))
            && after.pending.Keys <= c.pending.Keys
            && forall m :: m in after.pending ==> after.pending[m] == c.pending[m]
  {
    if evs != [] {
      var n := |evs| - 1;
      var rest, ev := evs[..n], evs[n];
      SearchedPrefix(c, evs, routes, b, hits, n);
      assert forall i :: 0 <= i < n ==> rest[i] == evs[i];
      assert Honest(c.pending, rest, b) by {
        assert forall x :: x in rest ==> x in evs;
      }
      CreateSomeOnDisk(c, rest, routes, b, hits[..n]);
      var before := CreateSome(c, rest, routes, b, hits[..n]);
      assert SearchedAt(c, evs, routes, b, hits, n) && ev in evs;
      LastIsNew(c.content.table, before.content.table, evs, routes, n);
      assert EntryPair(ev, routes).Some? ==> Creates(ev, routes, EntryMail(ev).value);
      CreateOneOnDisk(before, ev, routes, b, hits[n]);
      CreateFilesSource(before, ev, routes, b, hits[n]);
    }
  }

  lemma {:induction false} DeleteSomeOnDisk(c: Content, evs: seq<EntityUpdateEvent>, routes: Routes)
    requires OnDisk(c.folders, c.table)
    ensures var after := DeleteSome(c, evs, routes); OnDisk(after.folders, after.table)
  {
    if evs != [] {
      var n := |evs| - 1;
      DeleteSomeOnDisk(c, evs[..n], routes);
      var m := EntryMail(evs[n]);
      if m.Some? && evs[n].instanceListId in routes {
        UnfiledOnDisk(DeleteSome(c, evs[..n], routes), routes[evs[n].instanceListId].id, m.value);
      }
    }
  }

  lemma {:induction false} MailSomeOnDisk(c: Content, evs: seq<EntityUpdateEvent>, b: Backend)
    requires OnDisk(c.folders, c.table)
    ensures var after := MailSome(c, evs, b); OnDisk(after.folders, after.table)
  {
    if evs != [] {
      var n := |evs| - 1;
      var before := MailSome(c, evs[..n], b);
      MailSomeOnDisk(c, evs[..n], b);
      MailOneOnDisk(before, evs[n], b);
    }
  }

  lemma {:induction false} MailOneOnDisk(c: Content, ev: EntityUpdateEvent, b: Backend)
    requires OnDisk(c.folders, c.table)
    ensures var after := MailOne(c, ev, b); OnDisk(after.folders, after.table)
  {
    if ev.operation.Update? && ResolvedMail(b, ev).Some? {
      UpdatedOnDisk(c, ev.instanceId, ResolvedMail(b, ev).value);
    } else if ev.operation.Update? || ev.operation.Delete? {
      ErasedOnDisk(c, ev.instanceId);
    }
  }

  /** Every listing fits the folder at the time it is applied. */
  ghost predicate FittingListings(c: Content, order: seq<string>, routes: Routes, b: Backend) {
    forall i :: 0 <= i < |order| && order[i] in routes && b.folderMails(routes[order[i]]).Ok? ==>
      FitsFolder(RelistSome(c, order[..i], routes, b).table, routes[order[i]].id,
                 b.folderMails(routes[order[i]]).value)
  }

  lemma {:induction false} RelistSomeOnDisk(c: Content, order: seq<string>, routes: Routes, b: Backend)
    requires OnDisk(c.folders, c.table) && FittingListings(c, order, routes, b)
    ensures var after := RelistSome(c, order, routes, b); OnDisk(after.folders, after.table)
  {
    if order != [] {
      var n := |order| - 1;
      assert FittingListings(c, order[..n], routes, b) by {
        assert forall i :: 0 <= i < n ==> order[..n][i] == order[i] && order[..n][..i] == order[..i];
      }
      RelistSomeOnDisk(c, order[..n], routes, b);
      if order[n] in routes && b.folderMails(routes[order[n]]).Ok? {
        SyncedOnDisk(RelistSome(c, order[..n], routes, b), routes[order[n]].id, b.folderMails(routes[order[n]]).value);
      }
    }
  }

  /** A batch that creates only mails without a row, from truthful answers and fitting listings. */
  ghost predicate Settled(c: Content, list: seq<FolderInfo>, batch: EntityUpdateBatch, b: Backend, how: How)
    requires |how.hits| == |Buckets(batch.updates).entryCreates|
  {
    var k, routes := Buckets(batch.updates), RoutesOf(ListFor(list, batch, b));
    && HonestCreates(batch, b)
    && FirstPlacements(RefreshedContent(c, batch, b).table, k.entryCreates, routes)
    && FittingListings(EventsDone(c, list, batch, b, how.hits), how.order, routes, b)
  }

  lemma BatchOnDisk(c: Content, list: seq<FolderInfo>, batch: EntityUpdateBatch, b: Backend, how: How)
    requires OnDisk(c.folders, c.table) && HowPossible(c, list, batch, b, how) && Settled(c, list, batch, b, how)
    ensures var after := BatchDone(c, list, batch, b, how); OnDisk(after.folders, after.table)
  {
    var k, routes := Buckets(batch.updates), RoutesOf(ListFor(list, batch, b));
    if Refreshes(batch, b) {
      PrunedOnDisk(c, FolderIds(b.listFolders.value));
    }
    CreateSomeOnDisk(StartFiling(c, batch, b), k.entryCreates, routes, b, how.hits);
    var created := Created(c, list, batch, b, how.hits).content;
    DeleteSomeOnDisk(created, k.entryDeletes, routes);
    MailSomeOnDisk(DeleteSome(created, k.entryDeletes, routes), k.mailEvents, b);
    RelistSomeOnDisk(EventsDone(c, list, batch, b, how.hits), how.order, routes, b);
  }

  // ----- runs and restarts -----

  ghost predicate SettledTurn(s: Running, turn: Turn) {
    turn.msg.EntityUpdate? ==>
      && |turn.how.hits| == |Buckets(turn.msg.batch.updates).entryCreates|
      && Settled(s.content, s.list, turn.msg.batch, turn.backend, turn.how)
  }

  lemma {:induction false} RunOnDisk(states: seq<Running>, turns: seq<Turn>, n: nat)
    requires Trace(states, turns) && n <= |turns| && forall i :: 0 <= i < |turns| ==> SettledTurn(states[i], turns[i])
    requires OnDisk(states[0].content.folders, states[0].content.table)
    ensures OnDisk(states[n].content.folders, states[n].content.table)
  {
    if n > 0 {
      RunOnDisk(states, turns, n - 1);
      var s, turn := states[n - 1], turns[n - 1];
      assert Follows(s, turn, states[n]) && SettledTurn(s, turn);
      if turn.msg.EntityUpdate? {
        BatchOnDisk(s.content, s.list, turn.msg.batch, turn.backend, turn.how);
      }
    }
  }

  /** What IMAP clients remember of a folder: which mail has which UID. */
  function UidsShown(s: seq<StoredMail>): set<(MailId, nat)> {
    set x | x in s :: (x.mail.id, x.uid)
  }

  lemma ReloadShowsSame(c: Content, f: FolderId, loaded: seq<StoredMail>)
    requires OnDisk(c.folders, c.table) && Keyed(c.table) && LoadedFrom(loaded, c.table, f, c.eml)
    ensures UidsShown(loaded) == UidsShown(Folder(c.folders, f))
  {
    forall p ensures p in UidsShown(loaded) <==> p in UidsShown(Folder(c.folders, f)) {
      if p in UidsShown(loaded) {
        var x :| x in loaded && p == (x.mail.id, x.uid);
        var m :| m in InFolder(c.table, f) && x == LoadedEntry(c.table[m], m in c.eml);
        var y :| y in c.folders[f] && y.mail.id == m;
        assert Backed(c.table, f, y);
      }
      if p in UidsShown(Folder(c.folders, f)) {
        var x :| x in Folder(c.folders, f) && p == (x.mail.id, x.uid);
        assert Backed(c.table, f, x);
        assert LoadedEntry(c.table[x.mail.id], x.mail.id in c.eml) in loaded;
      }
    }
  }

  lemma ShownRowsDistinct(c: Content, f: FolderId)
    requires OnDisk(c.folders, c.table) && DistinctUids(Folder(c.folders, f))
    ensures RowsDistinct(c.table, f)
  {
    forall m, n | m in InFolder(c.table, f) && n in InFolder(c.table, f) && m != n
      ensures c.table[m].uid != c.table[n].uid
    {
      var x :| x in c.folders[f] && x.mail.id == m;
      var y :| y in c.folders[f] && y.mail.id == n;
      assert Backed(c.table, f, x) && Backed(c.table, f, y);
    }
  }

  lemma {:induction false} RunKeyed(states: seq<Running>, turns: seq<Turn>, n: nat)
    requires Trace(states, turns) && n <= |turns| && Keyed(states[0].content.table)
    requires forall i :: 0 <= i < |turns| && turns[i].msg.EntityUpdate? ==>
               HonestUpdates(turns[i].msg.batch, turns[i].backend)
    ensures Keyed(states[n].content.table)
  {
    if n > 0 {
      RunKeyed(states, turns, n - 1);
      assert Follows(states[n - 1], turns[n - 1], states[n]);
      TurnKeyed(states[n - 1], turns[n - 1], states[n]);
    }
  }

  lemma TurnKeyed(s: Running, turn: Turn, t: Running)
    requires Follows(s, turn, t) && Keyed(s.content.table)
    requires turn.msg.EntityUpdate? ==> HonestUpdates(turn.msg.batch, turn.backend)
    ensures Keyed(t.content.table)
  {
    if turn.msg.EntityUpdate? {
      BatchKeyed(s.content, s.list, turn.msg.batch, turn.backend, turn.how);
    }
  }

  /** What a session can start from: memory in step with the disk, and every shown UID in the ledger. */
  ghost predicate Sound(c: Content) {
    OnDisk(c.folders, c.table) && Keyed(c.table) && Stable(UidsOf(c))
  }

  /** The server answers truthfully, and the batch creates only mails that have no row. */
  ghost predicate Calm(s: Running, turn: Turn) {
    && SettledTurn(s, turn) && TruthfulTurn(turn)
    && (turn.msg.EntityUpdate? ==> HonestUpdates(turn.msg.batch, turn.backend))
  }

  /**
   * UIDs survive a restart at any time of a run whose CREATEs are first placements: every folder that is loaded again
   * shows the mails it showed, under the same UIDs, and these are distinct.
   */
  lemma RestartKeepsUids(states: seq<Running>, turns: seq<Turn>, n: nat, f: FolderId, loaded: seq<StoredMail>)
    requires Trace(states, turns) && n <= |turns| && forall i :: 0 <= i < |turns| ==> Calm(states[i], turns[i])
    requires Sound(states[0].content) && InRange(states[n].content.next)
    requires LoadedFrom(loaded, states[n].content.table, f, states[n].content.eml)
    ensures UidsShown(loaded) == UidsShown(Folder(states[n].content.folders, f))
    ensures DistinctUids(loaded)
  {
    var c := states[n].content;
    assert forall i :: 0 <= i < |turns| ==> SettledTurn(states[i], turns[i]) && TruthfulTurn(turns[i]);
    RunOnDisk(states, turns, n);
    RunKeyed(states, turns, n);
    RunKeeps(states, turns, n);
    ReloadShowsSame(c, f, loaded);
    ShownRowsDistinct(c, f);
    LoadedDistinctIff(c.table, f, loaded, c.eml);
  }

  /**
   * A move followed by a restart can show one UID twice: `moved` leaves `from`, where it had UID 1, for `to`, where
   * another mail has UID 1; memory gives it UID 2, but its row still says 1.
   */
  lemma MoveThenRestartDuplicates(from: FolderId, to: FolderId, moved: Mail, other: Mail)
    requires from != to && moved.id != other.id
    ensures var table := map[moved.id := Row(moved, from, 1, false), other.id := Row(other, to, 1, false)];
            var next := map[from := 2, to := 2];
            var x := StoredMail(moved, false, AsUid(Next(next, to)), false);
            var after := UpsertRow(table, Row(moved, to, x.uid, false));
            && x.uid == 2
            && InFolder(after, to) == {moved.id, other.id}
            && after[moved.id].uid == after[other.id].uid == 1
            && RowsDistinct(table, to) && !RowsDistinct(after, to)
  {
    var table := map[moved.id := Row(moved, from, 1, false), other.id := Row(other, to, 1, false)];
    var after := UpsertRow(table, Row(moved, to, 2, false));
    assert InFolder(table, to) == {other.id};
    assert moved.id in InFolder(after, to) && other.id in InFolder(after, to);
  }
}
