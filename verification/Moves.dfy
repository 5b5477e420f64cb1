/** Moving a mail: a CREATE in the target folder and a DELETE in the source, anywhere among the events of a batch. */
module Moves {
  import opened Wrappers
  import opened MailTypes
  import opened MailStoreModel
  import opened LocalStoreModel
  import opened ReplicaSpec
  import opened Resolution
  import opened Agreement
  import opened Contents
  import opened BatchRefinement

  /** All that the replica holds about one mail: its entries by folder, its row and its body file. */
  datatype Facts = Facts(shown: set<(FolderId, StoredMail)>, row: Option<Row>, body: Option<string>)

  ghost function ShownOf(mem: Memory, m: MailId): set<(FolderId, StoredMail)> {
    set f, x | f in mem && x in mem[f] && x.mail.id == m :: (f, x)
  }

  function Lookup<K, V>(s: map<K, V>, k: K): Option<V> {
    if k in s then Some(s[k]) else None
  }

  ghost function About(c: Content, m: MailId): Facts {
    Facts(ShownOf(c.folders, m), Lookup(c.table, m), Lookup(c.eml, m))
  }

  // ----- operations on other mails -----

  lemma UpsertShown(mem: Memory, f: FolderId, x: StoredMail, m: MailId)
    ensures x.mail.id != m ==> ShownOf(Upsert(mem, f, x), m) == ShownOf(mem, m)
    ensures x.mail.id == m && (forall y :: (f, y) !in ShownOf(mem, m)) ==>
              ShownOf(Upsert(mem, f, x), m) == ShownOf(mem, m) + {(f, x)}
  {
    var s, r := Folder(mem, f), UpsertSeq(Folder(mem, f), x);
    if x.mail.id == m && forall y :: (f, y) !in ShownOf(mem, m) {
      assert m !in Ids(s) by {
        forall y | y in s ensures y.mail.id != m {
          assert f in mem ==> (y.mail.id == m ==> (f, y) in ShownOf(mem, m));
        }
      }
      assert r == s + [x];
    } else if x.mail.id != m {
      forall y: StoredMail ensures y.mail.id == m ==> (y in r <==> y in s) {
        UpsertOthers(s, x, y);
      }
    }
  }

  lemma UpsertOthers(s: seq<StoredMail>, x: StoredMail, y: StoredMail)
    ensures y.mail.id != x.mail.id ==> (y in UpsertSeq(s, x) <==> y in s)
  {
    var r := UpsertSeq(s, x);
    if r != s + [x] {
      var k :| 0 <= k < |s| && s[k].mail.id == x.mail.id && r == s[k := x];
      if y in s && y.mail.id != x.mail.id {
        var i :| 0 <= i < |s| && s[i] == y;
        assert r[i] == y;
      }
    }
  }

  lemma FiledOther(c: Content, f: FolderId, owner: MailId, x: StoredMail, m: MailId)
    requires x.mail.id != m
    ensures About(Filed(c, f, owner, x), m) == About(c, m)
  {
    UpsertShown(c.folders, f, x.(uid := AsUid(Next(c.next, f))), m);
  }

  lemma UnfiledOther(c: Content, f: FolderId, k: MailId, m: MailId)
    requires k != m
    ensures About(Unfiled(c, f, k), m) == About(c, m)
  {
    assert forall x: StoredMail :: f in c.folders && x.mail.id == m ==>
             (x in Without(c.folders[f], k) <==> x in c.folders[f]);
    assert ShownOf(RemoveFrom(c.folders, f, k), m) == ShownOf(c.folders, m);
  }

  lemma MailOther(c: Content, ev: EntityUpdateEvent, b: Backend, m: MailId)
    requires ev.instanceId != m && HonestUpdate(ev, b)
    ensures About(MailOne(c, ev, b), m) == About(c, m)
  {
    match ev.operation
    case Update =>
      if ResolvedMail(b, ev).Some? {
        RefreshOther(c.folders, ResolvedMail(b, ev).value, m);
      } else {
        ErasedOther(c, ev.instanceId, m);
      }
    case Delete => ErasedOther(c, ev.instanceId, m);
    case _ =>
  }

  lemma ErasedOther(c: Content, k: MailId, m: MailId)
    requires k != m
    ensures About(Erased(c, k), m) == About(c, m)
  {
    assert ShownOf(RemoveEverywhere(c.folders, k), m) == ShownOf(c.folders, m);
  }

  lemma RefreshOther(mem: Memory, mail: Mail, m: MailId)
    requires mail.id != m
    ensures ShownOf(Refresh(mem, mail), m) == ShownOf(mem, m)
  {
    forall f, x: StoredMail | f in mem && x.mail.id == m ensures x in RefreshSeq(mem[f], mail) <==> x in mem[f] {
      var s, r := mem[f], RefreshSeq(mem[f], mail);
      if x in s {
        var i :| 0 <= i < |s| && s[i] == x;
        assert r[i] == x;
      }
      if x in r {
        var i :| 0 <= i < |r| && r[i] == x;
        assert s[i] == x;
      }
    }
  }

  // ----- the phases of a batch -----

  /** The event is a routed CREATE or DELETE of this mail. */
  predicate Names(ev: EntityUpdateEvent, routes: Routes, m: MailId) {
    EntryPair(ev, routes).Some? && EntryPair(ev, routes).value.1 == m
  }

  lemma CreateOther(c: Filing, ev: EntityUpdateEvent, routes: Routes, b: Backend, hit: Hit, m: MailId)
    requires Honest(c.pending, [ev], b) && !Names(ev, routes, m)
    requires EntryMail(ev).Some? && ev.instanceListId in routes ==>
               Answers(c.content.folders, EntryMail(ev).value, hit)
    ensures About(CreateOne(c, ev, routes, b, hit).content, m) == About(c.content, m)
  {
    CreateFilesSource(c, ev, routes, b, hit);
    if EntryMail(ev).Some? && ev.instanceListId in routes {
      var k, f := EntryMail(ev).value, routes[ev.instanceListId].id;
      var source := SourceOf(c.pending, ev, b, k, hit);
      assert ev in [ev];
      if source.Some? {
        FiledOther(Bodied(c.content, k, source.value.body), f, source.value.owner, source.value.entry, m);
      }
    }
  }

  lemma {:induction false} PoolShrinks(c: Filing, evs: seq<EntityUpdateEvent>, routes: Routes, b: Backend, hits: seq<Hit>)
    requires |hits| == |evs|
    ensures var after := CreateSome(c, evs, routes, b, hits);
            after.pending.Keys <= c.pending.Keys && forall k :: k in after.pending ==> after.pending[k] == c.pending[k]
  {
    if evs != [] {
      var n := |evs| - 1;
      PoolShrinks(c, evs[..n], routes, b, hits[..n]);
      CreateFilesSource(CreateSome(c, evs[..n], routes, b, hits[..n]), evs[n], routes, b, hits[n]);
    }
  }

  /** CREATEs of other mails leave this one alone. */
  lemma {:induction false} CreatesOther(c: Filing, evs: seq<EntityUpdateEvent>, routes: Routes, b: Backend,
                                        hits: seq<Hit>, m: MailId, i: nat, n: nat)
    requires i <= n <= |evs| && Searched(c, evs, routes, b, hits) && Honest(c.pending, evs, b)
    requires forall j :: i <= j < n ==> !Names(evs[j], routes, m)
    ensures About(CreateSome(c, evs[..n], routes, b, hits[..n]).content, m)
            == About(CreateSome(c, evs[..i], routes, b, hits[..i]).content, m)
    decreases n
  {
    if i < n {
      CreatesOther(c, evs, routes, b, hits, m, i, n - 1);
      var before := CreateSome(c, evs[..n - 1], routes, b, hits[..n - 1]);
      PoolShrinks(c, evs[..n - 1], routes, b, hits[..n - 1]);
      assert evs[..n][..n - 1] == evs[..n - 1] && hits[..n][..n - 1] == hits[..n - 1];
      assert SearchedAt(c, evs, routes, b, hits, n - 1);
      assert evs[n - 1] in evs;
      CreateOther(before, evs[n - 1], routes, b, hits[n - 1], m);
    }
  }

  /** The entry that a move leaves in the target: the one found, under a new UID. */
  function MovedEntry(x: StoredMail, uid: nat): StoredMail {
    x.(uid := uid)
  }

  lemma CreateOwn(c: Filing, ev: EntityUpdateEvent, routes: Routes, b: Backend, hit: Hit, target: FolderId, m: MailId)
    requires EntryPair(ev, routes) == Some((target, m)) && Answers(c.content.folders, m, hit)
    requires About(c.content, m).shown != {}
    requires forall x :: (target, x) !in About(c.content, m).shown
    ensures hit.Some? && hit.value in About(c.content, m).shown
    ensures var uid := AsUid(Next(c.content.next, target));
            var x := hit.value.1;
            About(CreateOne(c, ev, routes, b, hit).content, m)
            == Facts(About(c.content, m).shown + {(target, MovedEntry(x, uid))},
                     Some(UpsertRow(c.content.table, Row(x.mail, target, uid, false))[m]), About(c.content, m).body)
  {
    var p :| p in About(c.content, m).shown;
    assert m in Ids(c.content.folders[p.0]);
    UpsertShown(c.content.folders, target, hit.value.1.(uid := AsUid(Next(c.content.next, target))), m);
  }

  /** DELETEs take the mail out of the folders they name; while some folder keeps it, row and body stay. */
  lemma {:induction false} DeletesKeep(c: Content, evs: seq<EntityUpdateEvent>, routes: Routes, m: MailId,
                                       target: FolderId)
    requires (target, m) !in EntryPairs(evs, routes)
    requires exists x :: (target, x) in About(c, m).shown
    ensures var facts := About(c, m);
            About(DeleteSome(c, evs, routes), m)
            == facts.(shown := set p | p in facts.shown && (p.0, m) !in EntryPairs(evs, routes))
  {
    if evs != [] {
      var n := |evs| - 1;
      var ev, before := evs[n], DeleteSome(c, evs[..n], routes);
      assert evs == evs[..n] + [ev];
      assert EntryPairs(evs, routes) == EntryPairs(evs[..n], routes)
             + if EntryPair(ev, routes).Some? then {EntryPair(ev, routes).value} else {};
      DeletesKeep(c, evs[..n], routes, m, target);
      var x :| (target, x) in About(c, m).shown;
      assert (target, x) in About(before, m).shown;
      if EntryPair(ev, routes).Some? {
        var (f, k) := EntryPair(ev, routes).value;
        if k == m {
          UnfiledOwn(before, f, m, target, x);
        } else {
          UnfiledOther(before, f, k, m);
        }
      }
    }
  }

  lemma UnfiledOwn(c: Content, f: FolderId, m: MailId, target: FolderId, x: StoredMail)
    requires f != target && (target, x) in About(c, m).shown
    ensures About(Unfiled(c, f, m), m) == About(c, m).(shown := set p | p in About(c, m).shown && p.0 != f)
  {
    var left := RemoveFrom(c.folders, f, m);
    assert x in left[target] && m in Ids(left[target]);
    assert ShownOf(left, m) == set p | p in About(c, m).shown && p.0 != f;
  }

  lemma {:induction false} MailEventsOther(c: Content, evs: seq<EntityUpdateEvent>, b: Backend, m: MailId)
    requires forall ev :: ev in evs ==> ev.instanceId != m && HonestUpdate(ev, b)
    ensures About(MailSome(c, evs, b), m) == About(c, m)
  {
    if evs != [] {
      assert evs[|evs| - 1] in evs;
      MailEventsOther(c, evs[..|evs| - 1], b, m);
      MailOther(MailSome(c, evs[..|evs| - 1], b), evs[|evs| - 1], b, m);
    }
  }

  // ----- the move -----

  /** `i` is the one CREATE of the mail, into `target`, which does not show it yet; the batch says nothing else of it. */
  ghost predicate IsMove(c: Content, list: seq<FolderInfo>, batch: EntityUpdateBatch, b: Backend, i: nat,
                         target: FolderId, m: MailId) {
    var k, routes := Buckets(batch.updates), RoutesOf(ListFor(list, batch, b));
    && i < |k.entryCreates| && EntryPair(k.entryCreates[i], routes) == Some((target, m))
    && (forall j :: 0 <= j < |k.entryCreates| && j != i ==> !Names(k.entryCreates[j], routes, m))
    && (target, m) !in EntryPairs(k.entryDeletes, routes)
    && (forall ev :: ev in k.mailEvents ==> ev.instanceId != m && HonestUpdate(ev, b))
    && HonestCreates(batch, b)
    && ShownOf(RefreshedContent(c, batch, b).folders, m) != {}
    && (forall x :: (target, x) !in ShownOf(RefreshedContent(c, batch, b).folders, m))
  }

  /** The creates: everything as before, with one more entry and the row re-filed. */
  lemma CreatesMove(c: Filing, evs: seq<EntityUpdateEvent>, routes: Routes, b: Backend, hits: seq<Hit>, i: nat,
                    target: FolderId, m: MailId)
    returns (from: (FolderId, StoredMail), uid: nat)
    requires Searched(c, evs, routes, b, hits) && Honest(c.pending, evs, b)
    requires i < |evs| && EntryPair(evs[i], routes) == Some((target, m))
    requires forall j :: 0 <= j < |evs| && j != i ==> !Names(evs[j], routes, m)
    requires About(c.content, m).shown != {} && forall x :: (target, x) !in About(c.content, m).shown
    ensures var facts := About(c.content, m);
            && from in facts.shown
            && About(CreateSome(c, evs, routes, b, hits).content, m)
               == Facts(facts.shown + {(target, MovedEntry(from.1, uid))},
                        Some(Row(from.1.mail, target, if facts.row.Some? then facts.row.value.uid else uid, false)),
                        facts.body)
  {
    var before := CreateSome(c, evs[..i], routes, b, hits[..i]);
    CreatesOther(c, evs, routes, b, hits, m, 0, i);
    assert About(before.content, m) == About(c.content, m);
    assert SearchedAt(c, evs, routes, b, hits, i);
    CreateOwn(before, evs[i], routes, b, hits[i], target, m);
    OwnRow(before.content, target, m, hits[i]);
    from, uid := hits[i].value, AsUid(Next(before.content.next, target));
    assert evs[..i + 1][..i] == evs[..i] && hits[..i + 1][..i] == hits[..i];
    CreatesOther(c, evs, routes, b, hits, m, i + 1, |evs|);
    assert evs[..|evs|] == evs && hits[..|hits|] == hits;
  }

  lemma OwnRow(c: Content, target: FolderId, m: MailId, hit: Hit)
    requires Answers(c.folders, m, hit) && hit.Some?
    ensures var x, uid := hit.value.1, AsUid(Next(c.next, target));
            UpsertRow(c.table, Row(x.mail, target, uid, false))[m]
            == Row(x.mail, target, if About(c, m).row.Some? then About(c, m).row.value.uid else uid, false)
  {
  }

  /**
   * A move in any batch: the target shows an entry that the mail had before, metadata and body state included, under
   * a new UID; the folders the batch deletes it from lose it, all others keep it; its row is re-filed with the same
   * metadata; its body file stays. What the server would answer for the mail plays no part.
   */
  lemma MoveKeepsTheMail(c: Content, list: seq<FolderInfo>, batch: EntityUpdateBatch, b: Backend, how: How, i: nat,
                         target: FolderId, m: MailId)
    returns (from: (FolderId, StoredMail), uid: nat)
    requires HowPossible(c, list, batch, b, how) && IsMove(c, list, batch, b, i, target, m)
    ensures var facts := About(RefreshedContent(c, batch, b), m);
            var dropped := DroppedBy(list, batch, b);
            && from in facts.shown
            && About(EventsDone(c, list, batch, b, how.hits), m)
               == Facts((set p | p in facts.shown && (p.0, m) !in dropped) + {(target, MovedEntry(from.1, uid))},
                        Some(Row(from.1.mail, target, if facts.row.Some? then facts.row.value.uid else uid, false)),
                        facts.body)
  {
    var k, routes := Buckets(batch.updates), RoutesOf(ListFor(list, batch, b));
    from, uid := CreatesMove(StartFiling(c, batch, b), k.entryCreates, routes, b, how.hits, i, target, m);
    var created := Created(c, list, batch, b, how.hits).content;
    assert (target, MovedEntry(from.1, uid)) in About(created, m).shown;
    LaterEvents(created, k, routes, b, m, About(RefreshedContent(c, batch, b), m).shown, (target, MovedEntry(from.1, uid)));
  }

  /** The deletes and mail events that follow: only folders the deletes name lose the mail. */
  lemma LaterEvents(created: Content, k: Bucketed, routes: Routes, b: Backend, m: MailId,
                    shown: set<(FolderId, StoredMail)>, moved: (FolderId, StoredMail))
    requires About(created, m).shown == shown + {moved} && (moved.0, m) !in EntryPairs(k.entryDeletes, routes)
    requires forall ev :: ev in k.mailEvents ==> ev.instanceId != m && HonestUpdate(ev, b)
    ensures var after := MailSome(DeleteSome(created, k.entryDeletes, routes), k.mailEvents, b);
            About(after, m)
            == Facts((set p | p in shown && (p.0, m) !in EntryPairs(k.entryDeletes, routes)) + {moved},
                     About(created, m).row, About(created, m).body)
  {
    assert (moved.0, moved.1) in About(created, m).shown;
    DeletesKeep(created, k.entryDeletes, routes, m, moved.0);
    MailEventsOther(DeleteSome(created, k.entryDeletes, routes), k.mailEvents, b, m);
  }
}
