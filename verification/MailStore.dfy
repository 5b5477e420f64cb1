/** The in-memory mail store: folder id to the mails of that folder. */
module MailStoreModel {
  import opened Wrappers
  import opened MailTypes

  type Memory = map<FolderId, seq<StoredMail>>

  /** The mails of `s` other than `m`, in order. */
  function Without(s: seq<StoredMail>, m: MailId): (r: seq<StoredMail>)
    ensures forall x :: x in r <==> x in s && x.mail.id != m
    ensures |r| <= |s| && (|r| == |s| <==> m !in Ids(s))
    ensures m !in Ids(s) ==> r == s
  {
    if s == [] then [] else
      var rest := Without(s[1..], m);
      assert Ids(s) == {s[0].mail.id} + Ids(s[1..]) by { assert s == [s[0]] + s[1..]; }
      if s[0].mail.id == m then rest else [s[0]] + rest
  }

  /** What stays keeps its order: each part of a list loses the mail's entries on its own. */
  lemma {:induction false} WithoutConcat(a: seq<StoredMail>, b: seq<StoredMail>, m: MailId)
    ensures Without(a + b, m) == Without(a, m) + Without(b, m)
  {
    if a == [] {
      assert a + b == b;
    } else {
      assert (a + b)[1..] == a[1..] + b;
      WithoutConcat(a[1..], b, m);
    }
  }

  ghost predicate IsUpsert(s: seq<StoredMail>, x: StoredMail, r: seq<StoredMail>) {
    && (r == s + [x] || exists k :: 0 <= k < |s| && s[k].mail.id == x.mail.id && r == s[k := x])
    && (x.mail.id !in Ids(s) ==> r == s + [x])
    && Ids(r) == Ids(s) + {x.mail.id}
  }

  lemma UpsertHead(s: seq<StoredMail>, x: StoredMail)
    requires s != [] && s[0].mail.id == x.mail.id
    ensures IsUpsert(s, x, [x] + s[1..])
  {
    var r := [x] + s[1..];
    assert r == s[0 := x];
    assert forall y :: y in r ==> y == x || y in s;
    assert forall y :: y in s ==> y == s[0] || y in r;
    assert s[0] in s && x in r;
  }

  lemma UpsertTail(s: seq<StoredMail>, x: StoredMail, rest: seq<StoredMail>)
    requires s != [] && s[0].mail.id != x.mail.id && IsUpsert(s[1..], x, rest)
    ensures IsUpsert(s, x, [s[0]] + rest)
  {
    var r := [s[0]] + rest;
    assert s == [s[0]] + s[1..];
    assert Ids(s) == {s[0].mail.id} + Ids(s[1..]);
    assert Ids(r) == {s[0].mail.id} + Ids(rest);
    if rest == s[1..] + [x] {
      assert r == s + [x];
    } else {
      var k :| 0 <= k < |s[1..]| && s[1..][k].mail.id == x.mail.id && rest == s[1..][k := x];
      assert r == s[k + 1 := x];
    }
  }

  /** Replace the first entry for the same mail, or append. */
  function UpsertSeq(s: seq<StoredMail>, x: StoredMail): (r: seq<StoredMail>)
    ensures r == s + [x] || exists k :: 0 <= k < |s| && s[k].mail.id == x.mail.id && r == s[k := x]
    ensures x.mail.id !in Ids(s) ==> r == s + [x]
    ensures Ids(r) == Ids(s) + {x.mail.id}
  {
    if s == [] then
      [x]
    else if s[0].mail.id == x.mail.id then
      UpsertHead(s, x);
      [x] + s[1..]
    else
      UpsertTail(s, x, UpsertSeq(s[1..], x));
      [s[0]] + UpsertSeq(s[1..], x)
  }

  /** `s[k]` is the first entry of that mail. */
  predicate IsFirst(s: seq<StoredMail>, k: nat, m: MailId)
    requires k < |s|
  {
    s[k].mail.id == m && forall j :: 0 <= j < k ==> s[j].mail.id != m
  }

  /** Give the first entry for `mail.id` the new metadata; body state and UID stay. */
  function RefreshSeq(s: seq<StoredMail>, mail: Mail): (r: seq<StoredMail>)
    ensures |r| == |s|
    ensures forall i :: 0 <= i < |s| ==> r[i] == s[i] || (s[i].mail.id == mail.id && r[i] == s[i].(mail := mail))
    ensures Ids(r) == Ids(s)
  {
    if s == [] then
      []
    else if s[0].mail.id == mail.id then
      var r := [s[0].(mail := mail)] + s[1..];
      assert forall y :: y in s ==> y == s[0] || y in r;
      assert forall y :: y in r ==> y == r[0] || y in s;
      r
    else
      var rest := RefreshSeq(s[1..], mail);
      var r := [s[0]] + rest;
      assert s == [s[0]] + s[1..];
      assert Ids(s) == {s[0].mail.id} + Ids(s[1..]);
      assert Ids(r) == {s[0].mail.id} + Ids(rest);
      r
  }

  /** The first entry of that mail has the new metadata, with its body state and UID; every other entry is as it was. */
  predicate ShowsNew(before: seq<StoredMail>, after: seq<StoredMail>, mail: Mail) {
    && |after| == |before|
    && forall k :: 0 <= k < |before| ==>
         after[k] == if IsFirst(before, k, mail.id) then before[k].(mail := mail) else before[k]
  }

  lemma {:induction false} RefreshShows(s: seq<StoredMail>, mail: Mail)
    ensures ShowsNew(s, RefreshSeq(s, mail), mail)
  {
    if s != [] && s[0].mail.id != mail.id {
      RefreshShows(s[1..], mail);
      assert forall k :: 0 <= k < |s[1..]| ==> (IsFirst(s, k + 1, mail.id) <==> IsFirst(s[1..], k, mail.id));
    }
  }

  function Folder(mem: Memory, f: FolderId): seq<StoredMail> {
    if f in mem then mem[f] else []
  }

  function Upsert(mem: Memory, f: FolderId, x: StoredMail): Memory {
    mem[f := UpsertSeq(Folder(mem, f), x)]
  }

  function RemoveFrom(mem: Memory, f: FolderId, m: MailId): Memory {
    if f in mem then mem[f := Without(mem[f], m)] else mem
  }

  function RemoveEverywhere(mem: Memory, m: MailId): Memory {
    map f | f in mem :: Without(mem[f], m)
  }

  function Prune(mem: Memory, known: set<FolderId>): Memory {
    map f | f in mem && f in known :: mem[f]
  }

  function Refresh(mem: Memory, mail: Mail): Memory {
    map f | f in mem :: RefreshSeq(mem[f], mail)
  }

  lemma RefreshedEverywhere(mem: Memory, mail: Mail)
    ensures forall f :: f in mem ==> ShowsNew(mem[f], Refresh(mem, mail)[f], mail)
  {
    forall f | f in mem ensures ShowsNew(mem[f], Refresh(mem, mail)[f], mail) {
      RefreshShows(mem[f], mail);
    }
  }

  predicate Anywhere(mem: Memory, m: MailId) {
    exists f :: f in mem && m in Ids(mem[f])
  }

  // ----- walks over all folders, `todo` still ahead -----

  predicate RefreshedSoFar(before: Memory, after: Memory, mail: Mail, todo: set<FolderId>) {
    && after.Keys == before.Keys
    && forall f :: f in before ==> after[f] == if f in todo then before[f] else RefreshSeq(before[f], mail)
  }

  lemma RefreshNext(before: Memory, after: Memory, mail: Mail, todo: set<FolderId>, f: FolderId)
    requires RefreshedSoFar(before, after, mail, todo) && f in todo && f in before
    ensures RefreshedSoFar(before, after[f := RefreshSeq(before[f], mail)], mail, todo - {f})
  {
  }

  predicate RemovedSoFar(before: Memory, after: Memory, m: MailId, todo: set<FolderId>) {
    && after.Keys == before.Keys
    && forall f :: f in before ==> after[f] == if f in todo then before[f] else Without(before[f], m)
  }

  lemma RemoveNext(before: Memory, after: Memory, m: MailId, todo: set<FolderId>, f: FolderId)
    requires RemovedSoFar(before, after, m, todo) && f in todo && f in before
    ensures RemovedSoFar(before, after[f := Without(before[f], m)], m, todo - {f})
  {
  }

  /** Whether a folder passed so far shows the mail. */
  predicate FoundSoFar(mem: Memory, m: MailId, todo: set<FolderId>, found: bool) {
    && (found ==> Anywhere(mem, m))
    && (!found ==> forall f :: f in mem && f !in todo ==> m !in Ids(mem[f]))
  }

  lemma FoundNext(mem: Memory, m: MailId, todo: set<FolderId>, found: bool, f: FolderId)
    requires FoundSoFar(mem, m, todo, found) && f in todo && f in mem
    ensures FoundSoFar(mem, m, todo - {f}, found || m in Ids(mem[f]))
  {
  }

  lemma FoundAll(mem: Memory, m: MailId, found: bool)
    requires FoundSoFar(mem, m, {}, found)
    ensures found <==> Anywhere(mem, m)
  {
  }

  /** Only folder `f` may differ, and nothing but `f` may be new. */
  predicate OnlyIn(f: FolderId, before: Memory, after: Memory) {
    && before.Keys <= after.Keys <= before.Keys + {f}
    && forall g :: g in before && g != f ==> after[g] == before[g]
  }

  /** `MailStore`: `RwLock`s are gone, since every method below is one critical section. */
  class MailStore {
    var folders: Memory
    var folderList: seq<FolderInfo>
    /** Bumped on list-membership changes; IMAP sessions wake on it. */
    var generation: nat

    constructor ()
      ensures folders == map[] && folderList == [] && generation == 0
    {
      folders, folderList, generation := map[], [], 0;
    }

    method SetFolderList(list: seq<FolderInfo>)
      modifies this`folderList, this`generation
      ensures folderList == list && generation == old(generation) + 1
    {
      folderList := list;
      generation := generation + 1;
    }

    method SetFolder(f: FolderId, mails: seq<StoredMail>)
      modifies this`folders, this`generation
      ensures folders == old(folders)[f := mails] && generation == old(generation) + 1
    {
      folders := folders[f := mails];
      generation := generation + 1;
    }

    /** The first hit of an unordered walk over the folders: any folder that holds the mail may answer. */
    method FindMailAnywhere(m: MailId) returns (r: Option<(FolderId, StoredMail)>)
      ensures r.Some? <==> Anywhere(folders, m)
      ensures r.Some? ==> r.value.0 in folders && r.value.1 in folders[r.value.0] && r.value.1.mail.id == m
    {
      var todo := folders.Keys;
      while todo != {}
        invariant todo <= folders.Keys
        invariant forall f :: f in folders && f !in todo ==> m !in Ids(folders[f])
      {
        var f :| f in todo;
        var mails := folders[f];
        for i := 0 to |mails|
          invariant forall j :: 0 <= j < i ==> mails[j].mail.id != m
        {
          if mails[i].mail.id == m {
            assert m in Ids(mails);
            return Some((f, mails[i]));
          }
        }
        todo := todo - {f};
      }
      r := None;
    }

    method IsMailAnywhere(m: MailId) returns (r: bool)
      ensures r == Anywhere(folders, m)
    {
      var found := FindMailAnywhere(m);
      r := found.Some?;
    }

    method RemoveMailFromFolder(f: FolderId, m: MailId) returns (changed: bool)
      modifies this`folders, this`generation
      ensures folders == RemoveFrom(old(folders), f, m) && OnlyIn(f, old(folders), folders)
      ensures changed <==> m in Ids(Folder(old(folders), f))
      ensures generation == old(generation) + if changed then 1 else 0
    {
      if f !in folders {
        return false;
      }
      var before := folders[f];
      var after := Without(before, m);
      folders := folders[f := after];
      changed := |after| != |before|;
      if changed {
        generation := generation + 1;
      }
    }

    method UpsertMailInFolder(f: FolderId, x: StoredMail)
      modifies this`folders, this`generation
      ensures folders == Upsert(old(folders), f, x) && OnlyIn(f, old(folders), folders)
      ensures generation == old(generation) + 1
    {
      var entries := if f in folders then folders[f] else [];
      folders := folders[f := UpsertSeq(entries, x)];
      generation := generation + 1;
    }

    method RefreshMailInPlace(mail: Mail)
      modifies this`folders, this`generation
      ensures folders == Refresh(old(folders), mail)
      ensures folders.Keys == old(folders).Keys
      ensures forall f :: f in folders ==> ShowsNew(old(folders)[f], folders[f], mail)
      ensures generation == old(generation) + if Anywhere(old(folders), mail.id) then 1 else 0
    {
      var before, after := folders, folders;
      var todo, changed := before.Keys, false;
      while todo != {}
        invariant todo <= before.Keys
        invariant RefreshedSoFar(before, after, mail, todo) && FoundSoFar(before, mail.id, todo, changed)
        invariant generation == old(generation)
      {
        var f :| f in todo;
        RefreshNext(before, after, mail, todo, f);
        FoundNext(before, mail.id, todo, changed, f);
        if mail.id in Ids(before[f]) {
          changed := true;
        }
        after := after[f := RefreshSeq(before[f], mail)];
        todo := todo - {f};
      }
      FoundAll(before, mail.id, changed);
      assert after == Refresh(before, mail);
      RefreshedEverywhere(before, mail);
      folders := after;
      if changed {
        generation := generation + 1;
      }
    }

    method PruneUnknownFolders(known: set<FolderId>) returns (removed: set<FolderId>)
      modifies this`folders, this`generation
      ensures folders == Prune(old(folders), known)
      ensures folders.Keys == old(folders).Keys * known && forall f :: f in folders ==> folders[f] == old(folders)[f]
      ensures removed == old(folders).Keys - known
      ensures generation == old(generation) + if removed != {} then 1 else 0
    {
      removed := set f | f in folders && f !in known;
      folders := map f | f in folders && f in known :: folders[f];
      if removed != {} {
        generation := generation + 1;
      }
    }

    method RemoveMailEverywhere(m: MailId)
      modifies this`folders, this`generation
      ensures folders == RemoveEverywhere(old(folders), m)
      ensures generation == old(generation) + if Anywhere(old(folders), m) then 1 else 0
    {
      var before, after := folders, folders;
      var todo, changed := before.Keys, false;
      while todo != {}
        invariant todo <= before.Keys
        invariant RemovedSoFar(before, after, m, todo) && FoundSoFar(before, m, todo, changed)
        invariant generation == old(generation)
      {
        var f :| f in todo;
        RemoveNext(before, after, m, todo, f);
        FoundNext(before, m, todo, changed, f);
        var rest := Without(before[f], m);
        if |rest| != |before[f]| {
          changed := true;
        }
        after := after[f := rest];
        todo := todo - {f};
      }
      FoundAll(before, m, changed);
      assert after == RemoveEverywhere(before, m);
      folders := after;
      if changed {
        generation := generation + 1;
      }
    }
  }
}
