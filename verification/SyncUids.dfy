/** A full folder sync with a duplicate-free listing keeps UIDs stable. */
module SyncUids {
  import opened MailTypes
  import opened MailStoreModel
  import opened LocalStoreModel
  import opened Uids
  import opened FolderSync

  /** Handing out UIDs above everything issued so far only adds to the ledger. */
  lemma {:induction false} IssueExtends(ledger: Ledger, f: FolderId, next: nat, ids: seq<MailId>)
    requires forall k :: k in ledger && k.0 == f ==> k.1 < next
    requires next + |ids| <= UID_LIMIT
    ensures Extends(ledger, Issue(ledger, f, next, ids))
    ensures forall k :: k in Issue(ledger, f, next, ids)
                        <==> k in ledger || (k.0 == f && next <= k.1 < next + |ids|)
    ensures forall i :: 0 <= i < |ids| ==> Issue(ledger, f, next, ids)[(f, next + i)] == ids[i]
  {
    if ids != [] {
      var n := |ids| - 1;
      IssueExtends(ledger, f, next, ids[..n]);
    }
  }

  lemma DistinctElements(s: seq<StoredMail>, x: StoredMail, y: StoredMail)
    requires DistinctUids(s) && x in s && y in s && x != y
    ensures x.uid != y.uid
  {
  }

  lemma TwoEntriesDiffer(s: seq<StoredMail>, ids: seq<MailId>, next: nat, x: Mail, y: Mail)
    requires DistinctUids(s) && x.id != y.id && next + |ids| <= UID_LIMIT
    requires forall z :: z in s ==> z.uid < next
    requires (x.id !in Ids(s) ==> x.id in ids) && (y.id !in Ids(s) ==> y.id in ids)
    ensures Entry(x, ByMailId(s), UidsFor(next, ids)).uid != Entry(y, ByMailId(s), UidsFor(next, ids)).uid
  {
    if x.id in Ids(s) && y.id in Ids(s) {
      DistinctElements(s, ByMailId(s)[x.id], ByMailId(s)[y.id]);
    }
    if x.id !in Ids(s) {
      var _ := NewUid(next, ids, x.id);
    }
    if y.id !in Ids(s) {
      var _ := NewUid(next, ids, y.id);
    }
  }

  lemma EntriesDistinct(s: seq<StoredMail>, listing: seq<Mail>, next: nat)
    requires DistinctMails(listing) && DistinctUids(s)
    requires forall x :: x in s ==> x.uid < next
    requires next + |NewIds(listing, ByMailId(s))| <= UID_LIMIT
    ensures DistinctUids(Entries(listing, ByMailId(s), UidsFor(next, NewIds(listing, ByMailId(s)))))
  {
    var ids := NewIds(listing, ByMailId(s));
    forall i, j | 0 <= i < j < |listing|
      ensures Entry(listing[i], ByMailId(s), UidsFor(next, ids)).uid
              != Entry(listing[j], ByMailId(s), UidsFor(next, ids)).uid
    {
      assert listing[i] in listing && listing[j] in listing;
      TwoEntriesDiffer(s, ids, next, listing[i], listing[j]);
    }
  }

  /** Every requested mail gets a UID that the ledger records as its own. */
  ghost predicate HandsOut(f: FolderId, ids: seq<MailId>, uids: map<MailId, nat>, issued: Ledger) {
    forall m :: m in ids ==> m in uids && (f, uids[m]) in issued && issued[(f, uids[m])] == m
  }

  lemma AllocationHandsOut(ledger: Ledger, f: FolderId, next: nat, ids: seq<MailId>)
    requires forall k :: k in ledger && k.0 == f ==> k.1 < next
    requires next + |ids| <= UID_LIMIT
    ensures HandsOut(f, ids, UidsFor(next, ids), Issue(ledger, f, next, ids))
  {
    IssueExtends(ledger, f, next, ids);
    forall m | m in ids
      ensures var uids, issued := UidsFor(next, ids), Issue(ledger, f, next, ids);
              m in uids && (f, uids[m]) in issued && issued[(f, uids[m])] == m
    {
      var k := NewUid(next, ids, m);
    }
  }

  lemma EntriesOwned(s: seq<StoredMail>, f: FolderId, listing: seq<Mail>, ids: seq<MailId>, uids: map<MailId, nat>,
                     ledger: Ledger, issued: Ledger, x: StoredMail)
    requires forall y :: y in s ==> Owns(ledger, f, y)
    requires Extends(ledger, issued) && HandsOut(f, ids, uids, issued)
    requires forall m :: m in MailIds(listing) && m !in Ids(s) ==> m in ids
    requires x in Entries(listing, ByMailId(s), uids)
    ensures Owns(issued, f, x)
  {
    var i :| 0 <= i < |listing| && Entries(listing, ByMailId(s), uids)[i] == x;
    assert listing[i] in listing;
    if listing[i].id in Ids(s) {
      assert Owns(ledger, f, ByMailId(s)[listing[i].id]);
    }
  }

  lemma LedgerBelow(a: UidState, f: FolderId, ids: seq<MailId>)
    requires Stable(a) && Next(a.next, f) + |ids| <= UID_LIMIT
    ensures forall k :: k in Issue(a.issued, f, Next(a.next, f), ids) ==> k.1 < Next(Advanced(a.next, f, |ids|), k.0)
  {
    IssueExtends(a.issued, f, Next(a.next, f), ids);
  }

  lemma SyncStable(a: UidState, f: FolderId, listing: seq<Mail>)
    requires DistinctMails(listing) && Stable(a)
    requires Next(a.next, f) + |NewIds(listing, ByMailId(Folder(a.folders, f)))| <= UID_LIMIT
    ensures Stable(SyncedUids(a, f, listing))
    ensures Extends(a.issued, SyncedUids(a, f, listing).issued)
  {
    var s, n := Folder(a.folders, f), Next(a.next, f);
    var ids := NewIds(listing, ByMailId(s));
    var entries := Entries(listing, ByMailId(s), UidsFor(n, ids));
    forall x | x in s ensures x.uid < n {
      assert Owns(a.issued, f, x);
    }
    EntriesDistinct(s, listing, n);
    IssueExtends(a.issued, f, n, ids);
    AllocationHandsOut(a.issued, f, n, ids);
    forall x | x in entries ensures Owns(Issue(a.issued, f, n, ids), f, x) {
      EntriesOwned(s, f, listing, ids, UidsFor(n, ids), a.issued, Issue(a.issued, f, n, ids), x);
    }
    LedgerBelow(a, f, ids);
    ReplaceFolderStable(a, f, entries, Advanced(a.next, f, |ids|), Issue(a.issued, f, n, ids));
  }

  lemma SyncKeeps(a: UidState, f: FolderId, listing: seq<Mail>)
    requires DistinctMails(listing)
    ensures Keeps(a, SyncedUids(a, f, listing))
  {
    var b := SyncedUids(a, f, listing);
    if Stable(a) && InRange(b.next) {
      assert Next(b.next, f) <= UID_LIMIT;
      SyncStable(a, f, listing);
    }
  }

  /** `sync_folder` leaves the UID and the body state of every mail it already knew untouched. */
  lemma SyncKeepsKnown(a: UidState, f: FolderId, listing: seq<Mail>, i: nat, j: nat)
    requires f in a.folders && i < |a.folders[f]| && j < |listing| && listing[j].id == a.folders[f][i].mail.id
    requires forall k :: 0 <= k < |a.folders[f]| && k != i ==> a.folders[f][k].mail.id != listing[j].id
    ensures var after := SyncedUids(a, f, listing).folders[f];
            j < |after| && after[j] == a.folders[f][i].(mail := listing[j])
  {
    var s := a.folders[f];
    assert s[i] in s;
    assert ByMailId(s)[listing[j].id] == s[i];
  }
}
