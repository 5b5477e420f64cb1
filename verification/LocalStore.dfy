/** The on-disk cache: the `mails`, `sync_state` and `event_bus_state` tables and the body files. */
module LocalStoreModel {
  import opened MailTypes

  /** One row of `mails`; the primary key is the mail's element id. */
  datatype Row = Row(mail: Mail, folder: FolderId, uid: nat, hasDetails: bool)

  type Table = map<MailId, Row>

  /** `sync_state.next_uid`, absent until a folder first hands out a UID. */
  type Counters = map<FolderId, nat>

  /** UIDs are stored as `u32`, counters as `i64`. */
  const UID_LIMIT: nat := 0x1_0000_0000

  /** `next as u32`. */
  function AsUid(next: nat): nat {
    if next < UID_LIMIT then next else next % UID_LIMIT
  }

  /** The cut to 32 bits gives two counter values the same UID exactly when they are a multiple of 2^32 apart. */
  lemma UidsCollideIff(a: nat, b: nat)
    requires a <= b
    ensures AsUid(a) < 0x1_0000_0000
    ensures AsUid(a) == AsUid(b) <==> (b - a) % 0x1_0000_0000 == 0
  {
    assert AsUid(a) == a % UID_LIMIT && AsUid(b) == b % UID_LIMIT;
    var q := (b - a) / UID_LIMIT;
    assert b == a + q * UID_LIMIT + (b - a) % UID_LIMIT;
  }

  /** Every UID ever handed out, with the mail that received it. */
  type Ledger = map<(FolderId, nat), MailId>

  function Next(counters: Counters, f: FolderId): nat {
    if f in counters then counters[f] else 1
  }

  /** Insert, or on conflict overwrite everything except the UID. */
  function UpsertRow(table: Table, row: Row): Table {
    var id := row.mail.id;
    table[id := if id in table then row.(uid := table[id].uid) else row]
  }

  /** The batch form: as `UpsertRow`, except that a known body stays known. */
  function UpsertRowKeepingDetails(table: Table, row: Row): Table {
    var id := row.mail.id;
    table[id := if id in table
                then row.(uid := table[id].uid, hasDetails := row.hasDetails || table[id].hasDetails)
                else row]
  }

  function UpsertRows(table: Table, rows: seq<Row>): Table {
    if rows == [] then table
    else UpsertRowKeepingDetails(UpsertRows(table, rows[..|rows| - 1]), rows[|rows| - 1])
  }

  /** Every id, and no other, has the UID of a place it has in the list. */
  ghost predicate Assigns(uids: map<MailId, nat>, next: nat, ids: seq<MailId>) {
    && (forall m :: m in uids <==> m in ids)
    && forall m :: m in uids ==> exists k :: 0 <= k < |ids| && ids[k] == m && uids[m] == AsUid(next + k)
  }

  lemma AssignsLast(uids: map<MailId, nat>, next: nat, ids: seq<MailId>, n: nat)
    requires |ids| == n + 1 && Assigns(uids, next, ids[..n])
    ensures Assigns(uids[ids[n] := AsUid(next + n)], next, ids)
  {
    var more := uids[ids[n] := AsUid(next + n)];
    assert forall m :: m in ids <==> m in ids[..n] || m == ids[n];
    forall m | m in more ensures exists k :: 0 <= k < |ids| && ids[k] == m && more[m] == AsUid(next + k) {
      if m != ids[n] {
        var k :| 0 <= k < n && ids[..n][k] == m && uids[m] == AsUid(next + k);
        assert ids[k] == m;
      }
    }
  }

  /** Consecutive UIDs from `next` for `ids`; an id listed twice keeps the later one. */
  function UidsFor(next: nat, ids: seq<MailId>): (r: map<MailId, nat>)
    ensures Assigns(r, next, ids)
  {
    if ids == [] then map[]
    else
      var n := |ids| - 1;
      var r := UidsFor(next, ids[..n]);
      AssignsLast(r, next, ids, n);
      r[ids[n] := AsUid(next + n)]
  }

  function Issue(ledger: Ledger, f: FolderId, next: nat, ids: seq<MailId>): Ledger {
    if ids == [] then ledger
    else
      var n := |ids| - 1;
      Issue(ledger, f, next, ids[..n])[(f, AsUid(next + n)) := ids[n]]
  }

  lemma IssueSnoc(ledger: Ledger, f: FolderId, next: nat, ids: seq<MailId>, i: nat)
    requires i < |ids|
    ensures UidsFor(next, ids[..i + 1]) == UidsFor(next, ids[..i])[ids[i] := AsUid(next + i)]
    ensures Issue(ledger, f, next, ids[..i + 1]) == Issue(ledger, f, next, ids[..i])[(f, AsUid(next + i)) := ids[i]]
  {
    assert ids[..i + 1][..i] == ids[..i];
  }

  function InFolder(table: Table, f: FolderId): set<MailId> {
    set m | m in table && table[m].folder == f
  }

  class LocalStore {
    var mails: Table
    var nextUid: Counters
    var eml: map<MailId, string>
    var cursors: map<string, string>
    ghost var issued: Ledger

    constructor ()
      ensures mails == map[] && nextUid == map[] && eml == map[] && cursors == map[] && issued == map[]
    {
      mails, nextUid, eml, cursors, issued := map[], map[], map[], map[], map[];
    }

    method UpsertMailMetadata(row: Row)
      modifies this`mails
      ensures mails == UpsertRow(old(mails), row)
      ensures mails.Keys == old(mails).Keys + {row.mail.id}
      ensures forall m :: m in mails ==>
                mails[m] == if m != row.mail.id then old(mails)[m]
                            else if m in old(mails) then row.(uid := old(mails)[m].uid) else row
    {
      var id := row.mail.id;
      if id in mails {
        mails := mails[id := row.(uid := mails[id].uid)];
      } else {
        mails := mails[id := row];
      }
    }

    method UpsertMailMetadataBatch(rows: seq<Row>)
      modifies this`mails
      ensures mails == UpsertRows(old(mails), rows)
    {
      for i := 0 to |rows|
        invariant mails == UpsertRows(old(mails), rows[..i])
      {
        assert rows[..i + 1][..i] == rows[..i];
        mails := UpsertRowKeepingDetails(mails, rows[i]);
      }
      assert rows[..|rows|] == rows;
    }

    /** Hand out a UID to each of these mails, moving the folder's counter past them. */
    method AllocateFolderUids(f: FolderId, ids: seq<MailId>) returns (uids: map<MailId, nat>)
      modifies this`nextUid, this`issued
      ensures uids == UidsFor(Next(old(nextUid), f), ids)
      ensures nextUid == old(nextUid)[f := Next(old(nextUid), f) + |ids|]
      ensures issued == Issue(old(issued), f, Next(old(nextUid), f), ids)
    {
      var first := Next(nextUid, f);
      var next := first;
      ghost var before := issued;
      uids := map[];
      for i := 0 to |ids|
        invariant next == first + i
        invariant uids == UidsFor(first, ids[..i])
        invariant issued == Issue(before, f, first, ids[..i])
        invariant nextUid == old(nextUid)
      {
        IssueSnoc(before, f, first, ids, i);
        uids := uids[ids[i] := AsUid(next)];
        issued := issued[(f, AsUid(next)) := ids[i]];
        next := next + 1;
      }
      assert ids[..|ids|] == ids;
      nextUid := nextUid[f := next];
    }

    method DeleteMailsNotIn(f: FolderId, keep: set<MailId>) returns (deleted: set<MailId>)
      modifies this`mails
      ensures deleted == InFolder(old(mails), f) - keep
      ensures mails == old(mails) - deleted
    {
      deleted := InFolder(mails, f) - keep;
      mails := mails - deleted;
    }

    method MarkHasDetails(m: MailId)
      modifies this`mails
      ensures mails == if m in old(mails) then old(mails)[m := old(mails)[m].(hasDetails := true)] else old(mails)
    {
      if m in mails {
        mails := mails[m := mails[m].(hasDetails := true)];
      }
    }

    method WriteEml(m: MailId, rfc2822: string)
      modifies this`eml
      ensures eml == old(eml)[m := rfc2822]
    {
      eml := eml[m := rfc2822];
    }

    method DeleteEml(m: MailId)
      modifies this`eml
      ensures eml == old(eml) - {m}
    {
      eml := eml - {m};
    }

    method RefreshMailFields(m: MailId, mail: Mail)
      modifies this`mails
      ensures mails == if m in old(mails) then old(mails)[m := old(mails)[m].(mail := mail)] else old(mails)
    {
      if m in mails {
        mails := mails[m := mails[m].(mail := mail)];
      }
    }

    method DeleteFolderMails(f: FolderId) returns (ids: set<MailId>)
      modifies this`mails
      ensures ids == InFolder(old(mails), f)
      ensures mails == old(mails) - ids
    {
      ids := InFolder(mails, f);
      mails := mails - ids;
    }

    method DeleteMail(m: MailId)
      modifies this`mails, this`eml
      ensures mails == old(mails) - {m} && eml == old(eml) - {m}
    {
      mails := mails - {m};
      DeleteEml(m);
    }

    method SetEventBusBatchId(group: string, batch: string)
      modifies this`cursors
      ensures cursors == old(cursors)[group := batch]
    {
      cursors := cursors[group := batch];
    }
  }
}
