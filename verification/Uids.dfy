/** UID stability within a session: what every operation keeps about the UIDs memory shows. */
module Uids {
  import opened MailTypes
  import opened MailStoreModel
  import opened LocalStoreModel

  datatype UidState = UidState(folders: Memory, next: Counters, issued: Ledger)

  predicate DistinctUids(s: seq<StoredMail>) {
    forall i, j :: 0 <= i < j < |s| ==> s[i].uid != s[j].uid
  }

  /** No counter has left the 32-bit range of a UID. */
  ghost predicate InRange(next: Counters) {
    forall f :: Next(next, f) <= UID_LIMIT
  }

  /** The ledger names the mail of this entry as the owner of its UID. */
  predicate Owns(issued: Ledger, f: FolderId, x: StoredMail) {
    (f, x.uid) in issued && issued[(f, x.uid)] == x.mail.id
  }

  /** Every shown UID was issued to the mail that shows it, is unique in its folder, and lies below the counter. */
  ghost predicate Stable(u: UidState) {
    && (forall f :: f in u.folders ==> DistinctUids(u.folders[f]))
    && (forall f, x :: f in u.folders && x in u.folders[f] ==> Owns(u.issued, f, x))
    && (forall k :: k in u.issued ==> k.1 < Next(u.next, k.0))
  }

  /** The ledger only grows: a (folder, UID) keeps the mail it was first given to. */
  ghost predicate Extends(before: Ledger, after: Ledger) {
    forall k :: k in before ==> k in after && after[k] == before[k]
  }

  ghost predicate Advances(before: Counters, after: Counters) {
    forall f :: Next(before, f) <= Next(after, f)
  }

  /** What a step guarantees as long as no counter overflows. */
  ghost predicate Keeps(a: UidState, b: UidState) {
    && Advances(a.next, b.next)
    && (Stable(a) && InRange(b.next) ==> Stable(b) && Extends(a.issued, b.issued))
  }

  lemma KeepsTransitive(a: UidState, b: UidState, c: UidState)
    requires Keeps(a, b) && Keeps(b, c)
    ensures Keeps(a, c)
  {
    if InRange(c.next) {
      forall f ensures Next(b.next, f) <= UID_LIMIT {
        assert Next(b.next, f) <= Next(c.next, f);
      }
    }
  }

  /** Every folder of `after` shows a part of what the same folder showed before. */
  ghost predicate Shrinks(before: Memory, after: Memory) {
    forall f :: f in after ==>
      && f in before
      && (DistinctUids(before[f]) ==> DistinctUids(after[f]))
      && (forall x :: x in after[f] ==> exists y :: y in before[f] && SameSlot(x, y))
  }

  predicate SameSlot(x: StoredMail, y: StoredMail) {
    x.uid == y.uid && x.mail.id == y.mail.id
  }

  lemma ShrinkKeeps(a: UidState, after: Memory)
    requires Shrinks(a.folders, after)
    ensures Keeps(a, a.(folders := after))
  {
    if Stable(a) {
      forall f, x | f in after && x in after[f] ensures Owns(a.issued, f, x) {
        var y :| y in a.folders[f] && SameSlot(x, y);
        assert Owns(a.issued, f, y);
      }
    }
  }

  lemma {:induction false} WithoutDistinct(s: seq<StoredMail>, m: MailId)
    ensures DistinctUids(s) ==> DistinctUids(Without(s, m))
  {
    if s != [] {
      WithoutDistinct(s[1..], m);
      assert forall x :: x in Without(s[1..], m) ==> x in s[1..];
    }
  }

  lemma RemoveKeeps(a: UidState, f: FolderId, m: MailId)
    ensures Keeps(a, a.(folders := RemoveFrom(a.folders, f, m)))
  {
    if f in a.folders {
      WithoutDistinct(a.folders[f], m);
    }
    ShrinkKeeps(a, RemoveFrom(a.folders, f, m));
  }

  lemma EraseKeeps(a: UidState, m: MailId)
    ensures Keeps(a, a.(folders := RemoveEverywhere(a.folders, m)))
  {
    forall g | g in a.folders ensures DistinctUids(a.folders[g]) ==> DistinctUids(Without(a.folders[g], m)) {
      WithoutDistinct(a.folders[g], m);
    }
    ShrinkKeeps(a, RemoveEverywhere(a.folders, m));
  }

  lemma PruneKeeps(a: UidState, known: set<FolderId>)
    ensures Keeps(a, a.(folders := Prune(a.folders, known)))
  {
    ShrinkKeeps(a, Prune(a.folders, known));
  }

  lemma RefreshKeeps(a: UidState, mail: Mail)
    ensures Keeps(a, a.(folders := Refresh(a.folders, mail)))
  {
    var mem := a.folders;
    forall f, x | f in mem && x in RefreshSeq(mem[f], mail) ensures exists y: StoredMail :: y in mem[f] && SameSlot(x, y) {
      var i :| 0 <= i < |mem[f]| && RefreshSeq(mem[f], mail)[i] == x;
      assert SameSlot(x, mem[f][i]);
    }
    ShrinkKeeps(a, Refresh(mem, mail));
  }

  /** One folder gets new contents, backed by a longer ledger. */
  lemma ReplaceFolderStable(a: UidState, f: FolderId, s: seq<StoredMail>, next: Counters, issued: Ledger)
    requires Stable(a) && DistinctUids(s) && Extends(a.issued, issued)
    requires forall x :: x in s ==> Owns(issued, f, x)
    requires forall k :: k in issued ==> k.1 < Next(next, k.0)
    ensures Stable(UidState(a.folders[f := s], next, issued))
  {
    forall g, x | g in a.folders && x in a.folders[g] ensures Owns(issued, g, x) {
      assert Owns(a.issued, g, x);
    }
  }

  lemma ReplacedDistinct(s: seq<StoredMail>, k: nat, x: StoredMail)
    requires k < |s| && DistinctUids(s) && forall y :: y in s ==> y.uid != x.uid
    ensures DistinctUids(s[k := x])
  {
    assert forall i :: 0 <= i < |s| ==> s[i] in s;
  }

  lemma UpsertDistinct(s: seq<StoredMail>, x: StoredMail)
    requires DistinctUids(s) && forall y :: y in s ==> y.uid != x.uid
    ensures DistinctUids(UpsertSeq(s, x))
    ensures forall y :: y in UpsertSeq(s, x) ==> y == x || y in s
  {
    var r := UpsertSeq(s, x);
    if r == s + [x] {
      assert forall i :: 0 <= i < |s| ==> s[i] in s;
    } else {
      var k :| 0 <= k < |s| && s[k].mail.id == x.mail.id && r == s[k := x];
      ReplacedDistinct(s, k, x);
    }
  }

  lemma IssueOne(ledger: Ledger, f: FolderId, next: nat, m: MailId)
    ensures Issue(ledger, f, next, [m]) == ledger[(f, AsUid(next)) := m]
  {
    assert Issue(ledger, f, next, [m][..0]) == ledger;
  }

  lemma AssignStable(a: UidState, f: FolderId, x: StoredMail)
    requires Stable(a) && x.uid == Next(a.next, f)
    ensures var issued := a.issued[(f, x.uid) := x.mail.id];
            && Stable(UidState(Upsert(a.folders, f, x), a.next[f := x.uid + 1], issued))
            && Extends(a.issued, issued)
  {
    var s, next, issued := Folder(a.folders, f), a.next[f := x.uid + 1], a.issued[(f, x.uid) := x.mail.id];
    forall y | y in s ensures y.uid < x.uid && Owns(issued, f, y) {
      assert Owns(a.issued, f, y);
    }
    UpsertDistinct(s, x);
    assert forall k :: k in issued ==> k.1 < Next(next, k.0);
    ReplaceFolderStable(a, f, UpsertSeq(s, x), next, issued);
  }

  /** Putting a mail with the next UID into a folder. */
  lemma AssignKeeps(a: UidState, f: FolderId, x: StoredMail)
    requires x.uid == AsUid(Next(a.next, f))
    ensures Keeps(a, UidState(Upsert(a.folders, f, x), a.next[f := Next(a.next, f) + 1],
                              Issue(a.issued, f, Next(a.next, f), [x.mail.id])))
  {
    var n := Next(a.next, f);
    var next := a.next[f := n + 1];
    IssueOne(a.issued, f, n, x.mail.id);
    if Stable(a) && InRange(next) {
      assert Next(next, f) <= UID_LIMIT;
      AssignStable(a, f, x);
    }
  }

  // ----- what the guarantees mean -----

  /** Two mails never show one (folder, UID), at the same or at different times of a session. */
  lemma NeverSharedOrReused(a: UidState, b: UidState, f: FolderId, x: StoredMail, y: StoredMail)
    requires Stable(a) && InRange(b.next) && Keeps(a, b)
    requires f in a.folders && x in a.folders[f] && f in b.folders && y in b.folders[f]
    ensures x.uid == y.uid ==> x.mail.id == y.mail.id
    ensures y.uid < Next(b.next, f)
  {
    assert Owns(a.issued, f, x) && Owns(b.issued, f, y);
  }

  /** Any memory with distinct UIDs below the counters can start a session. */
  lemma SessionStart(folders: Memory, next: Counters) returns (issued: Ledger)
    requires forall f :: f in folders ==> DistinctUids(folders[f])
    requires forall f, x :: f in folders && x in folders[f] ==> x.uid < Next(next, f)
    ensures Stable(UidState(folders, next, issued))
  {
    var pairs := set f, x | f in folders && x in folders[f] :: (f, x.uid);
    issued := map k | k in pairs :: OwnerOf(folders, k);
    forall f, x | f in folders && x in folders[f] ensures Owns(issued, f, x) {
      assert (f, x.uid) in pairs;
      var i :| 0 <= i < |folders[f]| && folders[f][i] == x;
      OwnerIs(folders[f], i);
    }
  }

  /** The mail that shows the UID. */
  function OwnerOf(folders: Memory, k: (FolderId, nat)): MailId
    requires k.0 in folders && exists x :: x in folders[k.0] && x.uid == k.1
  {
    WithUid(folders[k.0], k.1)
  }

  function WithUid(s: seq<StoredMail>, uid: nat): MailId
    requires exists x :: x in s && x.uid == uid
  {
    if s[0].uid == uid then s[0].mail.id else WithUid(s[1..], uid)
  }

  lemma {:induction false} OwnerIs(s: seq<StoredMail>, i: nat)
    requires i < |s| && DistinctUids(s)
    ensures WithUid(s, s[i].uid) == s[i].mail.id
  {
    if i > 0 {
      assert s[1..][i - 1] == s[i];
      OwnerIs(s[1..], i - 1);
    }
  }
}
