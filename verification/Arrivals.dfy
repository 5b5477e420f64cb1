/** The first time a mail comes in: from the same batch, with or without its body, or loaded from the server. */
module Arrivals {
  import opened Wrappers
  import opened MailTypes
  import opened MailStoreModel
  import opened LocalStoreModel
  import opened ReplicaSpec
  import opened Uids
  import opened Resolution
  import opened Agreement
  import opened Contents
  import opened BatchRefinement
  import opened Moves
  import opened DiskSteps

  /** `i` is the one CREATE of a mail that no folder shows; the batch says nothing else of its entries. */
  ghost predicate IsArrival(c: Content, list: seq<FolderInfo>, batch: EntityUpdateBatch, b: Backend, i: nat,
                            target: FolderId, m: MailId) {
    var k, routes := Buckets(batch.updates), RoutesOf(ListFor(list, batch, b));
    && i < |k.entryCreates| && EntryPair(k.entryCreates[i], routes) == Some((target, m))
    && (forall j :: 0 <= j < |k.entryCreates| && j != i ==> !Names(k.entryCreates[j], routes, m))
    && (target, m) !in EntryPairs(k.entryDeletes, routes)
    && (forall ev :: ev in k.mailEvents ==> ev.instanceId != m && HonestUpdate(ev, b))
    && HonestCreates(batch, b)
    && ShownOf(RefreshedContent(c, batch, b).folders, m) == {}
  }

  /** The CREATE files this entry of the mail, and its body if there is one. */
  ghost predicate Files(c: Filing, ev: EntityUpdateEvent, b: Backend, m: MailId, x: StoredMail, body: Option<string>) {
    SourceOf(c.pending, ev, b, m, None) == Some(Source(m, x, body)) && x.mail.id == m
  }

  /** The mail as its CREATE leaves it. */
  ghost function Arrived(facts: Facts, target: FolderId, x: StoredMail, body: Option<string>, uid: nat): Facts {
    Facts({(target, x.(uid := uid))},
          Some(Row(x.mail, target, if facts.row.Some? then facts.row.value.uid else uid, false)),
          if body.Some? then body else facts.body)
  }

  lemma FiledAlone(c: Content, f: FolderId, m: MailId, x: StoredMail, body: Option<string>)
    requires x.mail.id == m && About(c, m).shown == {}
    ensures About(Filed(Bodied(c, m, body), f, m, x), m) == Arrived(About(c, m), f, x, body, AsUid(Next(c.next, f)))
  {
    UpsertShown(c.folders, f, x.(uid := AsUid(Next(c.next, f))), m);
  }

  lemma {:induction false} PoolKeeps(c: Filing, evs: seq<EntityUpdateEvent>, routes: Routes, b: Backend, hits: seq<Hit>,
                                     m: MailId)
    requires |hits| == |evs| && forall j :: 0 <= j < |evs| ==> !Names(evs[j], routes, m)
    ensures var after := CreateSome(c, evs, routes, b, hits).pending;
            (m in after <==> m in c.pending) && (m in after ==> after[m] == c.pending[m])
  {
    if evs != [] {
      PoolKeeps(c, evs[..|evs| - 1], routes, b, hits[..|evs| - 1], m);
    }
  }

  lemma ArrivalCreate(c: Filing, ev: EntityUpdateEvent, routes: Routes, b: Backend, hit: Hit, target: FolderId,
                      m: MailId, x: StoredMail, body: Option<string>)
    requires EntryPair(ev, routes) == Some((target, m)) && Answers(c.content.folders, m, hit)
    requires About(c.content, m).shown == {} && Files(c, ev, b, m, x, body)
    ensures CreateOne(c, ev, routes, b, hit).content == Filed(Bodied(c.content, m, body), target, m, x)
  {
    AnywhereSlots(c.content.folders, m);
    CreateFilesSource(c, ev, routes, b, hit);
  }

  lemma FilesUnchanged(c: Filing, d: Filing, ev: EntityUpdateEvent, b: Backend, m: MailId, x: StoredMail,
                       body: Option<string>)
    requires Files(c, ev, b, m, x, body)
    requires (m in c.pending <==> m in d.pending) && (m in c.pending ==> d.pending[m] == c.pending[m])
    ensures Files(d, ev, b, m, x, body)
  {
  }

  /** Before its CREATE the mail is nowhere, and the pool has of it what it had. */
  lemma BeforeArrival(c: Filing, evs: seq<EntityUpdateEvent>, routes: Routes, b: Backend, hits: seq<Hit>, i: nat,
                      m: MailId, x: StoredMail, body: Option<string>)
    requires Searched(c, evs, routes, b, hits) && Honest(c.pending, evs, b) && i < |evs|
    requires forall j :: 0 <= j < |evs| && j != i ==> !Names(evs[j], routes, m)
    requires Files(c, evs[i], b, m, x, body)
    ensures var before := CreateSome(c, evs[..i], routes, b, hits[..i]);
            About(before.content, m) == About(c.content, m) && Files(before, evs[i], b, m, x, body)
  {
    CreatesOther(c, evs, routes, b, hits, m, 0, i);
    PoolKeeps(c, evs[..i], routes, b, hits[..i], m);
    FilesUnchanged(c, CreateSome(c, evs[..i], routes, b, hits[..i]), evs[i], b, m, x, body);
  }

  /** The CREATEs of the batch, from the one of this mail on. */
  lemma CreatesArrive(c: Filing, evs: seq<EntityUpdateEvent>, routes: Routes, b: Backend, hits: seq<Hit>, i: nat,
                      target: FolderId, m: MailId, x: StoredMail, body: Option<string>)
    returns (uid: nat)
    requires Searched(c, evs, routes, b, hits) && Honest(c.pending, evs, b)
    requires i < |evs| && EntryPair(evs[i], routes) == Some((target, m))
    requires forall j :: 0 <= j < |evs| && j != i ==> !Names(evs[j], routes, m)
    requires About(c.content, m).shown == {} && Files(c, evs[i], b, m, x, body)
    ensures About(CreateSome(c, evs, routes, b, hits).content, m) == Arrived(About(c.content, m), target, x, body, uid)
    ensures uid == AsUid(Next(CreateSome(c, evs[..i], routes, b, hits[..i]).content.next, target))
  {
    var before := CreateSome(c, evs[..i], routes, b, hits[..i]);
    BeforeArrival(c, evs, routes, b, hits, i, m, x, body);
    assert SearchedAt(c, evs, routes, b, hits, i);
    ArrivalCreate(before, evs[i], routes, b, hits[i], target, m, x, body);
    FiledAlone(before.content, target, m, x, body);
    uid := AsUid(Next(before.content.next, target));
    assert evs[..i + 1][..i] == evs[..i] && hits[..i + 1][..i] == hits[..i];
    CreatesOther(c, evs, routes, b, hits, m, i + 1, |evs|);
    assert evs[..|evs|] == evs && hits[..|hits|] == hits;
  }

  /** Whatever files the mail, it stays as filed through the rest of the events. */
  lemma ArrivalStays(c: Content, list: seq<FolderInfo>, batch: EntityUpdateBatch, b: Backend, how: How, i: nat,
                     target: FolderId, m: MailId, x: StoredMail, body: Option<string>)
    returns (uid: nat)
    requires HowPossible(c, list, batch, b, how) && IsArrival(c, list, batch, b, i, target, m)
    requires Files(StartFiling(c, batch, b), Buckets(batch.updates).entryCreates[i], b, m, x, body)
    ensures About(EventsDone(c, list, batch, b, how.hits), m)
            == Arrived(About(RefreshedContent(c, batch, b), m), target, x, body, uid)
  {
    var k, routes := Buckets(batch.updates), RoutesOf(ListFor(list, batch, b));
    uid := CreatesArrive(StartFiling(c, batch, b), k.entryCreates, routes, b, how.hits, i, target, m, x, body);
    var created := Created(c, list, batch, b, how.hits).content;
    assert About(created, m).shown == {} + {(target, x.(uid := uid))};
    LaterEvents(created, k, routes, b, m, {}, (target, x.(uid := uid)));
  }

  /**
   * A new mail whose own CREATE rides in the batch: the folder shows it as that CREATE has it, without asking the
   * server; with its body, rendered to disk, exactly when its details came along and it has no attachments.
   */
  lemma MailArrivesInBatch(c: Content, list: seq<FolderInfo>, batch: EntityUpdateBatch, b: Backend, how: How, i: nat,
                           target: FolderId, m: MailId, p: PendingMail)
    returns (uid: nat)
    requires HowPossible(c, list, batch, b, how) && IsArrival(c, list, batch, b, i, target, m)
    requires CarriedLast(Buckets(batch.updates).mailCreates, b, m, p)
    ensures var facts := About(RefreshedContent(c, batch, b), m);
            var hasBody := p.details.Some? && p.mail.attachments == 0;
            About(EventsDone(c, list, batch, b, how.hits), m)
            == Facts({(target, StoredMail(p.mail, hasBody, uid, false))},
                     Some(Row(p.mail, target, if facts.row.Some? then facts.row.value.uid else uid, false)),
                     if hasBody then Some(b.render(p.mail, p.details.value)) else facts.body)
  {
    var k := Buckets(batch.updates);
    PoolIsLatest(b, k.mailCreates, m, p);
    var body := InlineBody(p, b);
    uid := ArrivalStays(c, list, batch, b, how, i, target, m, StoredMail(p.mail, body.Some?, 0, false), body);
  }

  /**
   * A new mail without a readable CREATE of its own: its entry's payload names it, the server is asked for it, and the
   * folder shows what the server sent, without a body.
   */
  lemma MailArrivesFromServer(c: Content, list: seq<FolderInfo>, batch: EntityUpdateBatch, b: Backend, how: How, i: nat,
                              target: FolderId, m: MailId, mail: Mail, mailList: string)
    returns (uid: nat)
    requires HowPossible(c, list, batch, b, how) && IsArrival(c, list, batch, b, i, target, m)
    requires forall p :: !CarriedLast(Buckets(batch.updates).mailCreates, b, m, p)
    requires var ev := Buckets(batch.updates).entryCreates[i];
             ev.instance.Some? && b.decryptEntry(ev.instance.value) == Ok(Some((mailList, m)))
    requires b.loadMail(mailList, m) == Ok(Some(mail))
    ensures var facts := About(RefreshedContent(c, batch, b), m);
            About(EventsDone(c, list, batch, b, how.hits), m)
            == Facts({(target, StoredMail(mail, false, uid, false))},
                     Some(Row(mail, target, if facts.row.Some? then facts.row.value.uid else uid, false)), facts.body)
  {
    var k := Buckets(batch.updates);
    var pool, ev := Predecrypted(b, k.mailCreates), k.entryCreates[i];
    if m in pool {
      PoolIsLatest(b, k.mailCreates, m, pool[m]);
    }
    assert ev in k.entryCreates && EntryMail(ev) == Some(m) && ResolvedEntry(b, ev) == Some((mailList, m));
    assert mail.id == m;
    uid := ArrivalStays(c, list, batch, b, how, i, target, m, StoredMail(mail, false, 0, false), None);
  }
}
