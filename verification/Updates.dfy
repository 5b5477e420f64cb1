/** A mail's metadata after an UPDATE: in every folder that shows the mail, and in its row. */
module Updates {
  import opened Wrappers
  import opened MailTypes
  import opened MailStoreModel
  import opened LocalStoreModel
  import opened ReplicaSpec
  import opened Uids
  import opened FolderSync
  import opened Contents
  import opened BatchRefinement
  import opened BatchUids
  import opened EventHandler
  import opened Moves

  // ----- no folder shows a mail twice -----

  predicate IdsDistinct(s: seq<StoredMail>) {
    forall i, j :: 0 <= i < j < |s| ==> s[i].mail.id != s[j].mail.id
  }

  predicate OnceEach(mem: Memory) {
    forall f :: f in mem ==> IdsDistinct(mem[f])
  }

  lemma UpsertOnce(s: seq<StoredMail>, x: StoredMail)
    requires IdsDistinct(s)
    ensures IdsDistinct(UpsertSeq(s, x))
  {
    var r := UpsertSeq(s, x);
    if x.mail.id !in Ids(s) {
      forall i | 0 <= i < |s| ensures s[i].mail.id != x.mail.id {
        assert s[i] in s;
      }
    } else if r == s + [x] {
      UpsertReplaces(s, x);
    }
  }

  lemma {:induction false} UpsertReplaces(s: seq<StoredMail>, x: StoredMail)
    requires x.mail.id in Ids(s)
    ensures |UpsertSeq(s, x)| == |s|
  {
    if s[0].mail.id != x.mail.id {
      assert s == [s[0]] + s[1..];
      assert x.mail.id in Ids(s[1..]);
      UpsertReplaces(s[1..], x);
    }
  }

  lemma {:induction false} WithoutOnce(s: seq<StoredMail>, m: MailId)
    requires IdsDistinct(s)
    ensures IdsDistinct(Without(s, m))
  {
    if s != [] {
      WithoutOnce(s[1..], m);
      var rest := Without(s[1..], m);
      forall k | 0 <= k < |rest| ensures rest[k].mail.id != s[0].mail.id {
        assert rest[k] in rest;
        var j :| 0 <= j < |s[1..]| && s[1..][j] == rest[k];
        assert s[j + 1] == rest[k];
      }
    }
  }

  lemma FiledOnce(c: Content, f: FolderId, m: MailId, x: StoredMail)
    requires OnceEach(c.folders)
    ensures OnceEach(Filed(c, f, m, x).folders)
  {
    UpsertOnce(Folder(c.folders, f), x.(uid := AsUid(Next(c.next, f))));
  }

  lemma {:induction false} CreatesOnce(c: Filing, evs: seq<EntityUpdateEvent>, routes: Routes, b: Backend,
                                       hits: seq<Hit>)
    requires |hits| == |evs| && OnceEach(c.content.folders)
    ensures OnceEach(CreateSome(c, evs, routes, b, hits).content.folders)
  {
    if evs != [] {
      var n := |evs| - 1;
      var ev, before := evs[n], CreateSome(c, evs[..n], routes, b, hits[..n]);
      CreatesOnce(c, evs[..n], routes, b, hits[..n]);
      CreateFilesSource(before, ev, routes, b, hits[n]);
      if EntryMail(ev).Some? && ev.instanceListId in routes {
        var m, f := EntryMail(ev).value, routes[ev.instanceListId].id;
        var source := SourceOf(before.pending, ev, b, m, hits[n]);
        if source.Some? {
          FiledOnce(Bodied(before.content, m, source.value.body), f, source.value.owner, source.value.entry);
        }
      }
    }
  }

  lemma {:induction false} DeletesOnce(c: Content, evs: seq<EntityUpdateEvent>, routes: Routes)
    requires OnceEach(c.folders)
    ensures OnceEach(DeleteSome(c, evs, routes).folders)
  {
    if evs != [] {
      var n := |evs| - 1;
      var ev, before := evs[n], DeleteSome(c, evs[..n], routes);
      DeletesOnce(c, evs[..n], routes);
      if EntryMail(ev).Some? && ev.instanceListId in routes {
        var f := routes[ev.instanceListId].id;
        if f in before.folders {
          WithoutOnce(before.folders[f], EntryMail(ev).value);
        }
      }
    }
  }

  lemma {:induction false} MailEventsOnce(c: Content, evs: seq<EntityUpdateEvent>, b: Backend)
    requires OnceEach(c.folders)
    ensures OnceEach(MailSome(c, evs, b).folders)
  {
    if evs != [] {
      var n := |evs| - 1;
      MailEventsOnce(c, evs[..n], b);
      MailOnce(MailSome(c, evs[..n], b), evs[n], b);
    }
  }

  lemma MailOnce(c: Content, ev: EntityUpdateEvent, b: Backend)
    requires OnceEach(c.folders)
    ensures OnceEach(MailOne(c, ev, b).folders)
  {
    if ev.operation.Update? && ResolvedMail(b, ev).Some? {
      var mail := ResolvedMail(b, ev).value;
      forall f | f in c.folders ensures IdsDistinct(RefreshSeq(c.folders[f], mail)) {
        RefreshShows(c.folders[f], mail);
      }
    } else {
      forall f | f in c.folders ensures IdsDistinct(Without(c.folders[f], ev.instanceId)) {
        WithoutOnce(c.folders[f], ev.instanceId);
      }
    }
  }

  lemma {:induction false} RelistsOnce(c: Content, order: seq<string>, routes: Routes, b: Backend)
    requires OnceEach(c.folders) && DistinctListings(b)
    ensures OnceEach(RelistSome(c, order, routes, b).folders)
  {
    if order != [] {
      var n := |order| - 1;
      RelistsOnce(c, order[..n], routes, b);
      if order[n] in routes && b.folderMails(routes[order[n]]).Ok? {
        var f, listing := routes[order[n]].id, b.folderMails(routes[order[n]]).value;
        SyncsMemory(UidsOf(RelistSome(c, order[..n], routes, b)), f, listing);
      }
    }
  }

  /** A server that lists no mail twice never makes a folder show one twice. */
  lemma BatchOnce(c: Content, list: seq<FolderInfo>, batch: EntityUpdateBatch, b: Backend, how: How)
    requires OnceEach(c.folders) && DistinctListings(b) && |how.hits| == |Buckets(batch.updates).entryCreates|
    ensures OnceEach(BatchDone(c, list, batch, b, how).folders)
  {
    var k, routes := Buckets(batch.updates), RoutesOf(ListFor(list, batch, b));
    CreatesOnce(StartFiling(c, batch, b), k.entryCreates, routes, b, how.hits);
    DeletesOnce(Created(c, list, batch, b, how.hits).content, k.entryDeletes, routes);
    MailEventsOnce(DeleteSome(Created(c, list, batch, b, how.hits).content, k.entryDeletes, routes), k.mailEvents, b);
    RelistsOnce(EventsDone(c, list, batch, b, how.hits), how.order, routes, b);
  }

  lemma {:induction false} RunOnce(states: seq<Running>, turns: seq<Turn>, n: nat)
    requires Trace(states, turns) && n <= |turns| && OnceEach(states[0].content.folders)
    requires forall i :: 0 <= i < n && turns[i].msg.EntityUpdate? ==> DistinctListings(turns[i].backend)
    ensures OnceEach(states[n].content.folders)
  {
    if n > 0 {
      RunOnce(states, turns, n - 1);
      assert Follows(states[n - 1], turns[n - 1], states[n]);
      if turns[n - 1].msg.EntityUpdate? {
        BatchOnce(states[n - 1].content, states[n - 1].list, turns[n - 1].msg.batch, turns[n - 1].backend,
                  turns[n - 1].how);
      }
    }
  }

  // ----- the update -----

  function WithMail(q: (FolderId, StoredMail), mail: Mail): (FolderId, StoredMail) {
    (q.0, q.1.(mail := mail))
  }

  /** All that is known of the mail, with other metadata: folders, UIDs and body state as before. */
  ghost function Renewed(facts: Facts, mail: Mail): Facts {
    Facts(set q | q in facts.shown :: WithMail(q, mail),
          if facts.row.Some? then Some(facts.row.value.(mail := mail)) else None, facts.body)
  }

  lemma RefreshedShown(mem: Memory, mail: Mail)
    requires OnceEach(mem)
    ensures ShownOf(Refresh(mem, mail), mail.id) == set q | q in ShownOf(mem, mail.id) :: WithMail(q, mail)
  {
    var m, after := mail.id, Refresh(mem, mail);
    forall f | f in mem ensures ShowsNew(mem[f], after[f], mail) {
      RefreshShows(mem[f], mail);
    }
    forall p | p in ShownOf(after, m) ensures p in set q | q in ShownOf(mem, m) :: WithMail(q, mail) {
      var k :| 0 <= k < |after[p.0]| && after[p.0][k] == p.1;
      assert IsFirst(mem[p.0], k, m);
      assert (p.0, mem[p.0][k]) in ShownOf(mem, m) && WithMail((p.0, mem[p.0][k]), mail) == p;
    }
    forall q | q in ShownOf(mem, m) ensures WithMail(q, mail) in ShownOf(after, m) {
      var k :| 0 <= k < |mem[q.0]| && mem[q.0][k] == q.1;
      assert IsFirst(mem[q.0], k, m);
      assert after[q.0][k] == q.1.(mail := mail);
    }
  }

  lemma UpdatedFacts(c: Content, ev: EntityUpdateEvent, b: Backend, mail: Mail)
    requires OnceEach(c.folders) && ev.operation.Update? && IsPayload(ev, b, mail) && mail.id == ev.instanceId
    ensures About(MailOne(c, ev, b), mail.id) == Renewed(About(c, mail.id), mail)
  {
    ResolvedIsPayload(ev, b);
    RefreshedShown(c.folders, mail);
  }

  lemma {:induction false} LaterMailEvents(c: Content, evs: seq<EntityUpdateEvent>, b: Backend, m: MailId, i: nat, n: nat)
    requires i <= n <= |evs| && forall j :: i <= j < n ==> evs[j].instanceId != m && HonestUpdate(evs[j], b)
    ensures About(MailSome(c, evs[..n], b), m) == About(MailSome(c, evs[..i], b), m)
    decreases n
  {
    if i < n {
      LaterMailEvents(c, evs, b, m, i, n - 1);
      assert evs[..n][..n - 1] == evs[..n - 1];
      MailOther(MailSome(c, evs[..n - 1], b), evs[n - 1], b, m);
    }
  }

  /** What the batch has done when it comes to the `i`-th mail event. */
  function UpTo(c: Content, list: seq<FolderInfo>, batch: EntityUpdateBatch, b: Backend, hits: seq<Hit>, i: nat): Content
    requires |hits| == |Buckets(batch.updates).entryCreates| && i <= |Buckets(batch.updates).mailEvents|
  {
    var k := Buckets(batch.updates);
    MailSome(DeleteSome(Created(c, list, batch, b, hits).content, k.entryDeletes, RoutesOf(ListFor(list, batch, b))),
             k.mailEvents[..i], b)
  }

  /** The `i`-th mail event is an UPDATE to `mail`, and the batch's last event of that mail. */
  ghost predicate IsLastUpdate(batch: EntityUpdateBatch, b: Backend, i: nat, mail: Mail) {
    var evs := Buckets(batch.updates).mailEvents;
    && i < |evs| && evs[i].operation.Update? && evs[i].instanceId == mail.id && IsPayload(evs[i], b, mail)
    && forall j :: i < j < |evs| ==> evs[j].instanceId != mail.id
  }

  /**
   * An UPDATE reaches the mail everywhere, in any batch whose last event of the mail it is: every folder that shows the
   * mail by then shows it with the new metadata, under the same UID and with the same body state; so does the row, if
   * there is one; the body file stays.
   */
  lemma UpdateReachesEveryFolder(c: Content, list: seq<FolderInfo>, batch: EntityUpdateBatch, b: Backend,
                                 hits: seq<Hit>, i: nat, mail: Mail)
    requires OnceEach(c.folders) && HonestUpdates(batch, b)
    requires |hits| == |Buckets(batch.updates).entryCreates| && IsLastUpdate(batch, b, i, mail)
    ensures About(EventsDone(c, list, batch, b, hits), mail.id) == Renewed(About(UpTo(c, list, batch, b, hits, i), mail.id), mail)
    ensures var after := EventsDone(c, list, batch, b, hits);
            && (forall f, x :: f in after.folders && x in after.folders[f] && x.mail.id == mail.id ==> x.mail == mail)
            && (mail.id in after.table ==> after.table[mail.id].mail == mail)
  {
    var k, routes := Buckets(batch.updates), RoutesOf(ListFor(list, batch, b));
    var evs := k.mailEvents;
    CreatesOnce(StartFiling(c, batch, b), k.entryCreates, routes, b, hits);
    var created := Created(c, list, batch, b, hits).content;
    DeletesOnce(created, k.entryDeletes, routes);
    var trimmed := DeleteSome(created, k.entryDeletes, routes);
    MailEventsOnce(trimmed, evs[..i], b);
    assert evs[..i + 1][..i] == evs[..i] && evs[..|evs|] == evs;
    UpdatedFacts(MailSome(trimmed, evs[..i], b), evs[i], b, mail);
    LaterMailEvents(trimmed, evs, b, mail.id, i + 1, |evs|);
    ShownRenewed(EventsDone(c, list, batch, b, hits), UpTo(c, list, batch, b, hits, i), mail);
  }

  lemma ShownRenewed(after: Content, before: Content, mail: Mail)
    requires About(after, mail.id) == Renewed(About(before, mail.id), mail)
    ensures forall f, x :: f in after.folders && x in after.folders[f] && x.mail.id == mail.id ==> x.mail == mail
    ensures mail.id in after.table ==> after.table[mail.id].mail == mail
  {
    forall f, x | f in after.folders && x in after.folders[f] && x.mail.id == mail.id ensures x.mail == mail {
      assert (f, x) in About(after, mail.id).shown;
    }
    assert mail.id in after.table ==> About(after, mail.id).row == Some(after.table[mail.id]);
  }
}
