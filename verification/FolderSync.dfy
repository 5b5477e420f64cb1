/** `sync_folder` and `load_cached_folder`: replacing one folder from the server or from disk. */
module FolderSync {
  import opened Wrappers
  import opened MailTypes
  import opened MailStoreModel
  import opened LocalStoreModel
  import opened ReplicaSpec
  import opened Refinement
  import opened Uids

  /** The folder's entries by mail id; a later entry wins. */
  function ByMailId(s: seq<StoredMail>): (r: map<MailId, StoredMail>)
    ensures forall m :: m in r <==> m in Ids(s)
    ensures forall m :: m in r ==> r[m] in s && r[m].mail.id == m
  {
    if s == [] then map[] else
      var n := |s| - 1;
      assert s == s[..n] + [s[n]];
      ByMailId(s[..n])[s[n].mail.id := s[n]]
  }

  /** The listed mails not yet known, oldest first: the listing is newest first. */
  function NewIds(listing: seq<Mail>, known: map<MailId, StoredMail>): (r: seq<MailId>)
    ensures forall m :: m in r <==> m in MailIds(listing) && m !in known
  {
    if listing == [] then [] else
      assert listing == [listing[0]] + listing[1..];
      NewIds(listing[1..], known) + if listing[0].id in known then [] else [listing[0].id]
  }

  /** A known mail keeps its UID and body state; a new one gets its allocated UID and no body. */
  function Entry(mail: Mail, known: map<MailId, StoredMail>, uids: map<MailId, nat>): StoredMail {
    if mail.id in known then known[mail.id].(mail := mail)
    else StoredMail(mail, false, if mail.id in uids then uids[mail.id] else 0, false)
  }

  function Entries(listing: seq<Mail>, known: map<MailId, StoredMail>, uids: map<MailId, nat>): seq<StoredMail> {
    seq(|listing|, i requires 0 <= i < |listing| => Entry(listing[i], known, uids))
  }

  function RowsFor(listing: seq<Mail>, f: FolderId, known: map<MailId, StoredMail>, uids: map<MailId, nat>): seq<Row> {
    seq(|listing|, i requires 0 <= i < |listing|
      => Row(listing[i], f, Entry(listing[i], known, uids).uid, false))
  }

  predicate DistinctMails(listing: seq<Mail>) {
    forall i, j :: 0 <= i < j < |listing| ==> listing[i].id != listing[j].id
  }

  /** Upsert the listed rows, then drop the folder's rows that were not listed. */
  function SyncedTable(table: Table, f: FolderId, listing: seq<Mail>, known: map<MailId, StoredMail>,
                       uids: map<MailId, nat>): Table {
    var rows := UpsertRows(table, RowsFor(listing, f, known, uids));
    rows - (InFolder(rows, f) - MailIds(listing))
  }

  /** The folder's rows that were not listed. */
  function Unlisted(table: Table, f: FolderId, listing: seq<Mail>, known: map<MailId, StoredMail>,
                    uids: map<MailId, nat>): set<MailId> {
    InFolder(UpsertRows(table, RowsFor(listing, f, known, uids)), f) - MailIds(listing)
  }

  /** No row is written for a folder that hands out nothing. */
  function Advanced(next: Counters, f: FolderId, n: nat): Counters {
    if n == 0 then next else next[f := Next(next, f) + n]
  }

  /** The UID part of a sync: contents, counter and ledger together. */
  function SyncedUids(a: UidState, f: FolderId, listing: seq<Mail>): UidState {
    var known := ByMailId(Folder(a.folders, f));
    var ids := NewIds(listing, known);
    var n := Next(a.next, f);
    UidState(a.folders[f := Entries(listing, known, UidsFor(n, ids))],
             Advanced(a.next, f, |ids|),
             Issue(a.issued, f, n, ids))
  }

  method SyncFolder(store: MailStore, local: LocalStore, folder: FolderInfo, answer: Result<seq<Mail>, string>)
    returns (ok: bool)
    modifies store`folders, store`generation, local`mails, local`nextUid, local`issued, local`eml
    ensures ok == answer.Ok?
    ensures !ok ==> unchanged(store) && unchanged(local)
    ensures ok ==> UidState(store.folders, local.nextUid, local.issued)
                   == SyncedUids(old(UidState(store.folders, local.nextUid, local.issued)), folder.id, answer.value)
    ensures ok ==> var known := ByMailId(Folder(old(store.folders), folder.id));
                   var uids := UidsFor(Next(old(local.nextUid), folder.id), NewIds(answer.value, known));
                   && local.mails == SyncedTable(old(local.mails), folder.id, answer.value, known, uids)
                   && local.eml == old(local.eml) - Unlisted(old(local.mails), folder.id, answer.value, known, uids)
    ensures ok ==> MemorySynced(old(UidState(store.folders, local.nextUid, local.issued)), folder.id, answer.value,
                                UidState(store.folders, local.nextUid, local.issued))
    ensures ok ==> DiskSynced(old(local.mails), old(local.eml), folder.id, answer.value, store.folders[folder.id],
                              local.mails, local.eml)
  {
    if answer.Err? {
      return false;
    }
    var listing, f := answer.value, folder.id;
    ghost var a, table := UidState(store.folders, local.nextUid, local.issued), local.mails;
    ghost var eml := local.eml;
    var known := ByMailId(Folder(store.folders, f));
    var unseen := CollectNew(listing, known);
    var uids := AllocateNew(local, f, unseen);
    var updated, rows := BuildEntries(listing, f, known, uids);
    PersistListing(local, f, listing, rows);
    store.SetFolder(f, updated);
    ghost var synced := SyncedUids(a, f, listing);
    assert store.folders == synced.folders;
    assert local.nextUid == synced.next;
    assert local.issued == synced.issued;
    SyncsMemory(a, f, listing);
    SyncsDisk(table, eml, f, listing, known, uids);
    return true;
  }

  method AllocateNew(local: LocalStore, f: FolderId, ids: seq<MailId>) returns (uids: map<MailId, nat>)
    modifies local`nextUid, local`issued
    ensures var n := Next(old(local.nextUid), f);
            && uids == UidsFor(n, ids)
            && local.nextUid == Advanced(old(local.nextUid), f, |ids|)
            && local.issued == Issue(old(local.issued), f, n, ids)
  {
    if ids == [] {
      return map[];
    }
    uids := local.AllocateFolderUids(f, ids);
  }

  method PersistListing(local: LocalStore, f: FolderId, listing: seq<Mail>, rows: seq<Row>)
    modifies local`mails, local`eml
    ensures var merged := UpsertRows(old(local.mails), rows);
            var gone := InFolder(merged, f) - MailIds(listing);
            local.mails == merged - gone && local.eml == old(local.eml) - gone
  {
    local.UpsertMailMetadataBatch(rows);
    var deleted := local.DeleteMailsNotIn(f, MailIds(listing));
    DeleteBodies(local, deleted);
  }

  /** The UIDs are handed out oldest first, so the listing is walked backwards. */
  method CollectNew(listing: seq<Mail>, known: map<MailId, StoredMail>) returns (ids: seq<MailId>)
    ensures ids == NewIds(listing, known)
  {
    ids := [];
    for i := |listing| downto 0
      invariant ids == NewIds(listing[i..], known)
    {
      assert listing[i..][0] == listing[i] && listing[i..][1..] == listing[i + 1..];
      if listing[i].id !in known {
        ids := ids + [listing[i].id];
      }
    }
    assert listing[0..] == listing;
  }

  method BuildEntries(listing: seq<Mail>, f: FolderId, known: map<MailId, StoredMail>, uids: map<MailId, nat>)
    returns (updated: seq<StoredMail>, rows: seq<Row>)
    ensures updated == Entries(listing, known, uids)
    ensures rows == RowsFor(listing, f, known, uids)
  {
    updated, rows := [], [];
    for i := 0 to |listing|
      invariant |updated| == |rows| == i
      invariant forall j :: 0 <= j < i ==> updated[j] == Entry(listing[j], known, uids)
      invariant forall j :: 0 <= j < i ==> rows[j] == Row(listing[j], f, Entry(listing[j], known, uids).uid, false)
    {
      var entry := Entry(listing[i], known, uids);
      updated := updated + [entry];
      rows := rows + [Row(listing[i], f, entry.uid, false)];
    }
  }

  method DeleteBodies(local: LocalStore, ids: set<MailId>)
    modifies local`eml
    ensures local.eml == old(local.eml) - ids
  {
    var todo := ids;
    while todo != {}
      invariant todo <= ids
      invariant local.eml == old(local.eml) - (ids - todo)
    {
      var m :| m in todo;
      local.DeleteEml(m);
      todo := todo - {m};
    }
  }

  // ----- what a full sync shows -----

  /** The folder shows the listing. A mail it knew keeps UID and body state, a new one has no body. */
  ghost predicate ShowsListing(before: seq<StoredMail>, listing: seq<Mail>, after: seq<StoredMail>) {
    && |after| == |listing|
    && forall i :: 0 <= i < |listing| ==>
         if listing[i].id in Ids(before) then
           exists y :: y in before && y.mail.id == listing[i].id && after[i] == y.(mail := listing[i])
         else
           after[i] == StoredMail(listing[i], false, after[i].uid, false)
  }

  predicate IsNew(before: seq<StoredMail>, listing: seq<Mail>, i: int) {
    0 <= i < |listing| && listing[i].id !in Ids(before)
  }

  /** Some new mail shows this UID. */
  ghost predicate Taken(before: seq<StoredMail>, listing: seq<Mail>, after: seq<StoredMail>, uid: nat)
    requires |after| == |listing|
  {
    exists i :: IsNew(before, listing, i) && after[i].uid == uid
  }

  /**
   * The new mails take exactly the UIDs from `next` up to the counter's new value, the oldest, which the server lists
   * last, taking the lowest.
   */
  ghost predicate OldestFirst(before: seq<StoredMail>, listing: seq<Mail>, after: seq<StoredMail>, next: nat,
                              next': nat)
    requires |after| == |listing|
  {
    && (forall i, j :: i < j && IsNew(before, listing, i) && IsNew(before, listing, j) ==> after[i].uid > after[j].uid)
    && (forall i :: IsNew(before, listing, i) ==> next <= after[i].uid < next')
    && (forall u :: next <= u < next' ==> Taken(before, listing, after, u))
  }

  /**
   * Listed mails have a row in this folder with the new metadata; a row that was there before, in whatever folder, keeps
   * its UID and what it says about the body. The folder's other rows are gone, rows of other folders stay.
   */
  ghost predicate RowsFollow(table: Table, f: FolderId, listing: seq<Mail>, after: seq<StoredMail>, table': Table)
    requires |after| == |listing|
  {
    && (forall m :: m in table' <==> m in MailIds(listing) || (m in table && table[m].folder != f))
    && (forall m :: m in table' && m !in MailIds(listing) ==> table'[m] == table[m])
    && (forall i :: 0 <= i < |listing| ==>
          var m := listing[i].id;
          table'[m] == if m in table then Row(listing[i], f, table[m].uid, table[m].hasDetails)
                       else Row(listing[i], f, after[i].uid, false))
  }

  predicate Distinct<T(==)>(s: seq<T>) {
    forall i, j :: 0 <= i < j < |s| ==> s[i] != s[j]
  }

  lemma {:induction false} NewIdsDistinct(listing: seq<Mail>, known: map<MailId, StoredMail>)
    requires DistinctMails(listing)
    ensures Distinct(NewIds(listing, known))
  {
    if listing != [] {
      NewIdsDistinct(listing[1..], known);
      var rest := NewIds(listing[1..], known);
      forall i | 0 <= i < |rest| ensures rest[i] != listing[0].id {
        assert rest[i] in rest;
        var x :| x in listing[1..] && x.id == rest[i];
      }
    }
  }

  lemma {:induction false} NewAt(listing: seq<Mail>, known: map<MailId, StoredMail>, i: nat)
    requires i < |listing| && listing[i].id !in known
    ensures var k := |NewIds(listing[i + 1..], known)|;
            k < |NewIds(listing, known)| && NewIds(listing, known)[k] == listing[i].id
  {
    if i > 0 {
      NewAt(listing[1..], known, i - 1);
      assert listing[1..][i..] == listing[i + 1..];
    }
  }

  lemma {:induction false} FewerAfter(listing: seq<Mail>, known: map<MailId, StoredMail>, i: nat, j: nat)
    requires i <= j <= |listing|
    ensures |NewIds(listing[j..], known)| <= |NewIds(listing[i..], known)|
    decreases j - i
  {
    if i < j {
      FewerAfter(listing, known, i + 1, j);
      assert listing[i..][1..] == listing[i + 1..];
    }
  }

  lemma {:induction false} NewWith(listing: seq<Mail>, known: map<MailId, StoredMail>, k: nat) returns (i: nat)
    requires k < |NewIds(listing, known)|
    ensures i < |listing| && listing[i].id !in known && |NewIds(listing[i + 1..], known)| == k
  {
    if k < |NewIds(listing[1..], known)| {
      var later := NewWith(listing[1..], known, k);
      assert listing[1..][later + 1..] == listing[later + 2..];
      i := later + 1;
    } else {
      i := 0;
    }
  }

  /** Without wrap-around, a newly listed mail takes the UID of its place in the allocation. */
  lemma NewUid(next: nat, ids: seq<MailId>, m: MailId) returns (k: nat)
    requires m in ids && next + |ids| <= UID_LIMIT
    ensures k < |ids| && ids[k] == m && UidsFor(next, ids)[m] == next + k
  {
    k :| 0 <= k < |ids| && ids[k] == m && UidsFor(next, ids)[m] == AsUid(next + k);
  }

  /** A new mail's UID lies above the counter by the number of new mails that are older. */
  lemma NewEntryUid(listing: seq<Mail>, known: map<MailId, StoredMail>, next: nat, i: nat)
    requires DistinctMails(listing) && i < |listing| && listing[i].id !in known
    requires next + |NewIds(listing, known)| <= UID_LIMIT
    ensures Entry(listing[i], known, UidsFor(next, NewIds(listing, known))).uid
            == next + |NewIds(listing[i + 1..], known)| < next + |NewIds(listing, known)|
  {
    var ids, k := NewIds(listing, known), |NewIds(listing[i + 1..], known)|;
    NewAt(listing, known, i);
    NewIdsDistinct(listing, known);
    assert listing[i] in listing;
    var k' := NewUid(next, ids, listing[i].id);
    assert k' == k;
  }

  lemma EntriesOldestFirst(before: seq<StoredMail>, listing: seq<Mail>, next: nat)
    requires DistinctMails(listing) && next + |NewIds(listing, ByMailId(before))| <= UID_LIMIT
    ensures var ids := NewIds(listing, ByMailId(before));
            OldestFirst(before, listing, Entries(listing, ByMailId(before), UidsFor(next, ids)), next, next + |ids|)
  {
    var known := ByMailId(before);
    var ids := NewIds(listing, known);
    var after := Entries(listing, known, UidsFor(next, ids));
    forall i | IsNew(before, listing, i)
      ensures after[i].uid == next + |NewIds(listing[i + 1..], known)| < next + |ids|
    {
      NewEntryUid(listing, known, next, i);
    }
    forall i, j | i < j && IsNew(before, listing, i) && IsNew(before, listing, j)
      ensures after[i].uid > after[j].uid
    {
      FewerAfter(listing, known, i + 1, j);
      assert listing[j..][1..] == listing[j + 1..];
    }
    forall u | next <= u < next + |ids| ensures Taken(before, listing, after, u) {
      var i := NewWith(listing, known, u - next);
      assert IsNew(before, listing, i);
    }
  }

  lemma EntriesShowListing(before: seq<StoredMail>, listing: seq<Mail>, uids: map<MailId, nat>)
    ensures ShowsListing(before, listing, Entries(listing, ByMailId(before), uids))
  {
    var known := ByMailId(before);
    forall i | 0 <= i < |listing| && listing[i].id in Ids(before)
      ensures known[listing[i].id] in before && known[listing[i].id].mail.id == listing[i].id
    {
    }
  }

  /** What the table says of a mail after its row was upserted. */
  predicate RowIs(table: Table, row: Row, after: Table) {
    var m := row.mail.id;
    && m in after
    && after[m] == if m in table
                   then row.(uid := table[m].uid, hasDetails := row.hasDetails || table[m].hasDetails)
                   else row
  }

  lemma {:induction false} UpsertedOthers(table: Table, rows: seq<Row>, m: MailId)
    requires forall k :: 0 <= k < |rows| ==> rows[k].mail.id != m
    ensures m in UpsertRows(table, rows) <==> m in table
    ensures m in table ==> UpsertRows(table, rows)[m] == table[m]
  {
    if rows != [] {
      UpsertedOthers(table, rows[..|rows| - 1], m);
    }
  }

  /** A row written in a batch of rows for different mails. */
  lemma {:induction false} UpsertedRow(table: Table, rows: seq<Row>, i: nat)
    requires forall k, l :: 0 <= k < l < |rows| ==> rows[k].mail.id != rows[l].mail.id
    requires i < |rows|
    ensures RowIs(table, rows[i], UpsertRows(table, rows))
  {
    var n := |rows| - 1;
    if i < n {
      UpsertedRow(table, rows[..n], i);
      assert RowIs(table, rows[i], UpsertRows(table, rows[..n]));
    } else {
      UpsertedOthers(table, rows[..n], rows[n].mail.id);
    }
  }

  /** Dropping the folder's unlisted rows from the merged table. */
  lemma PrunedRowsFollow(table: Table, f: FolderId, listing: seq<Mail>, after: seq<StoredMail>, merged: Table)
    requires |after| == |listing| && merged.Keys == table.Keys + MailIds(listing)
    requires forall m :: m in MailIds(listing) ==> merged[m].folder == f
    requires forall m :: m in table && m !in MailIds(listing) ==> merged[m] == table[m]
    requires forall i :: 0 <= i < |listing| ==> RowIs(table, Row(listing[i], f, after[i].uid, false), merged)
    ensures RowsFollow(table, f, listing, after, merged - (InFolder(merged, f) - MailIds(listing)))
    ensures InFolder(merged, f) - MailIds(listing)
            == table.Keys - (merged - (InFolder(merged, f) - MailIds(listing))).Keys
  {
    forall i | 0 <= i < |listing| ensures listing[i].id in MailIds(listing) {
      assert listing[i] in listing;
    }
  }

  lemma {:induction false} ListedRows(table: Table, f: FolderId, listing: seq<Mail>, known: map<MailId, StoredMail>,
                                      uids: map<MailId, nat>, i: nat)
    requires DistinctMails(listing) && i < |listing|
    ensures RowIs(table, Row(listing[i], f, Entry(listing[i], known, uids).uid, false),
                  UpsertRows(table, RowsFor(listing, f, known, uids)))
  {
    UpsertedRow(table, RowsFor(listing, f, known, uids), i);
  }

  lemma {:induction false} SyncedRowsFollow(table: Table, f: FolderId, listing: seq<Mail>,
                                            known: map<MailId, StoredMail>, uids: map<MailId, nat>)
    requires DistinctMails(listing)
    ensures RowsFollow(table, f, listing, Entries(listing, known, uids), SyncedTable(table, f, listing, known, uids))
    ensures Unlisted(table, f, listing, known, uids)
            == table.Keys - SyncedTable(table, f, listing, known, uids).Keys
  {
    var rows, after := RowsFor(listing, f, known, uids), Entries(listing, known, uids);
    RowsForIds(listing, f, known, uids);
    UpsertRowsFolders(table, rows, f);
    forall i | 0 <= i < |listing|
      ensures RowIs(table, Row(listing[i], f, after[i].uid, false), UpsertRows(table, rows))
    {
      ListedRows(table, f, listing, known, uids, i);
    }
    PrunedRowsFollow(table, f, listing, after, UpsertRows(table, rows));
  }

  /** What a full sync does to memory and to the UID counter. */
  ghost predicate MemorySynced(a: UidState, f: FolderId, listing: seq<Mail>, b: UidState) {
    && OnlyIn(f, a.folders, b.folders) && f in b.folders
    && ShowsListing(Folder(a.folders, f), listing, b.folders[f])
    && (DistinctMails(listing) && Next(b.next, f) <= UID_LIMIT ==>
          OldestFirst(Folder(a.folders, f), listing, b.folders[f], Next(a.next, f), Next(b.next, f)))
  }

  /** What it does to rows and body files: a body goes with its row. */
  ghost predicate DiskSynced(table: Table, eml: map<MailId, string>, f: FolderId, listing: seq<Mail>,
                             shown: seq<StoredMail>, table': Table, eml': map<MailId, string>)
    requires |shown| == |listing|
  {
    DistinctMails(listing) ==> RowsFollow(table, f, listing, shown, table') && eml' == eml - (table.Keys - table'.Keys)
  }

  lemma {:induction false} SyncsMemory(a: UidState, f: FolderId, listing: seq<Mail>)
    ensures MemorySynced(a, f, listing, SyncedUids(a, f, listing))
  {
    var before := Folder(a.folders, f);
    var known := ByMailId(before);
    EntriesShowListing(before, listing, UidsFor(Next(a.next, f), NewIds(listing, known)));
    if DistinctMails(listing) && Next(SyncedUids(a, f, listing).next, f) <= UID_LIMIT {
      EntriesOldestFirst(before, listing, Next(a.next, f));
    }
  }

  lemma {:induction false} SyncsDisk(table: Table, eml: map<MailId, string>, f: FolderId, listing: seq<Mail>,
                                     known: map<MailId, StoredMail>, uids: map<MailId, nat>)
    ensures DiskSynced(table, eml, f, listing, Entries(listing, known, uids),
                       SyncedTable(table, f, listing, known, uids), eml - Unlisted(table, f, listing, known, uids))
  {
    if DistinctMails(listing) {
      SyncedRowsFollow(table, f, listing, known, uids);
    }
  }

  /** Every row is filed under its own mail's id. */
  ghost predicate Keyed(table: Table) {
    forall m :: m in table ==> table[m].mail.id == m
  }

  lemma EntriesIds(listing: seq<Mail>, known: map<MailId, StoredMail>, uids: map<MailId, nat>)
    ensures Ids(Entries(listing, known, uids)) == MailIds(listing)
  {
    var s := Entries(listing, known, uids);
    forall m | m in MailIds(listing) ensures m in Ids(s) {
      var i :| 0 <= i < |listing| && listing[i].id == m;
      assert s[i] in s && s[i].mail.id == m;
    }
    forall m | m in Ids(s) ensures m in MailIds(listing) {
      var i :| 0 <= i < |s| && s[i].mail.id == m;
      assert listing[i] in listing;
    }
  }

  function RowIds(rows: seq<Row>): set<MailId> {
    set x | x in rows :: x.mail.id
  }

  lemma {:induction false} UpsertRowsFolders(table: Table, rows: seq<Row>, f: FolderId)
    requires forall x :: x in rows ==> x.folder == f
    ensures UpsertRows(table, rows).Keys == table.Keys + RowIds(rows)
    ensures forall m :: m in RowIds(rows) ==> UpsertRows(table, rows)[m].folder == f
    ensures forall m :: m in table && m !in RowIds(rows) ==> UpsertRows(table, rows)[m] == table[m]
    ensures Keyed(table) ==> Keyed(UpsertRows(table, rows))
  {
    if rows != [] {
      var n := |rows| - 1;
      assert rows == rows[..n] + [rows[n]];
      UpsertRowsFolders(table, rows[..n], f);
      assert RowIds(rows) == RowIds(rows[..n]) + {rows[n].mail.id};
    }
  }

  lemma RowsForIds(listing: seq<Mail>, f: FolderId, known: map<MailId, StoredMail>, uids: map<MailId, nat>)
    ensures RowIds(RowsFor(listing, f, known, uids)) == MailIds(listing)
  {
    var rows := RowsFor(listing, f, known, uids);
    forall m | m in MailIds(listing) ensures m in RowIds(rows) {
      var i :| 0 <= i < |listing| && listing[i].id == m;
      assert rows[i] in rows && rows[i].mail.id == m;
    }
    forall m | m in RowIds(rows) ensures m in MailIds(listing) {
      var i :| 0 <= i < |rows| && rows[i].mail.id == m;
      assert listing[i] in listing;
    }
  }

  lemma MergedRows(table: Table, rows: seq<Row>, f: FolderId)
    requires forall x :: x in rows ==> x.folder == f
    ensures var gone := InFolder(UpsertRows(table, rows), f) - RowIds(rows);
            && gone == InFolder(table, f) - RowIds(rows)
            && RowFolders(UpsertRows(table, rows) - gone)
               == RelistedRows(RowFolders(table), f, RowIds(rows))
            && (Keyed(table) ==> Keyed(UpsertRows(table, rows) - gone))
  {
    UpsertRowsFolders(table, rows, f);
    var merged, ids := UpsertRows(table, rows), RowIds(rows);
    var gone := InFolder(merged, f) - ids;
    assert gone == InFolder(table, f) - ids;
    var left, want := merged - gone, RelistedRows(RowFolders(table), f, ids);
    forall m ensures m in left <==> m in want {
    }
    forall m | m in want ensures left[m].folder == want[m] {
    }
    assert RowFolders(left) == want;
  }

  /** Replacing the folder in memory, and upserting then pruning its rows, is a `Relist`. */
  lemma RelistRefines(mem: Memory, table: Table, eml: map<MailId, string>, f: FolderId, listing: seq<Mail>,
                      known: map<MailId, StoredMail>, uids: map<MailId, nat>)
    ensures Abstract(mem[f := Entries(listing, known, uids)], SyncedTable(table, f, listing, known, uids),
                     eml - Unlisted(table, f, listing, known, uids))
            == Relist(Abstract(mem, table, eml), f, MailIds(listing))
  {
    RowsForIds(listing, f, known, uids);
    MergedRows(table, RowsFor(listing, f, known, uids), f);
    assert FiledIn(RowFolders(table), {f}) == InFolder(table, f);
    EntriesIds(listing, known, uids);
    SetFolderMembers(mem, f, Entries(listing, known, uids));
  }

  lemma RelistKeyed(table: Table, f: FolderId, listing: seq<Mail>, known: map<MailId, StoredMail>,
                    uids: map<MailId, nat>)
    requires Keyed(table)
    ensures Keyed(SyncedTable(table, f, listing, known, uids))
  {
    RowsForIds(listing, f, known, uids);
    MergedRows(table, RowsFor(listing, f, known, uids), f);
  }
}
