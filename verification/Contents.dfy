/**
 * Everything the replica holds, and what one event batch does to it in full: entries, rows, bodies, UID counters and
 * the record of issued UIDs.
 */
module Contents {
  import opened Wrappers
  import opened MailTypes
  import opened MailStoreModel
  import opened LocalStoreModel
  import opened ReplicaSpec
  import opened Uids
  import opened FolderSync

  datatype Content = Content(folders: Memory, table: Table, eml: map<MailId, string>, next: Counters, issued: Ledger)

  /** The replica as sets. */
  ghost function ViewOf(c: Content): Replica {
    Abstract(c.folders, c.table, c.eml)
  }

  function UidsOf(c: Content): UidState {
    UidState(c.folders, c.next, c.issued)
  }

  // ----- single operations -----

  /** File a mail in a folder under the folder's next UID, in memory and on disk. */
  function Filed(c: Content, f: FolderId, m: MailId, x: StoredMail): Content {
    var n := Next(c.next, f);
    var y := x.(uid := AsUid(n));
    Content(Upsert(c.folders, f, y), UpsertRow(c.table, Row(y.mail, f, y.uid, false)), c.eml, c.next[f := n + 1],
            Issue(c.issued, f, n, [m]))
  }

  function WithDetails(table: Table, m: MailId): Table {
    if m in table then table[m := table[m].(hasDetails := true)] else table
  }

  /** Write a body file, if there is a body. */
  function Bodied(c: Content, m: MailId, body: Option<string>): Content {
    if body.None? then c else c.(table := WithDetails(c.table, m), eml := c.eml[m := body.value])
  }

  /** Take a mail out of one folder; its row and body go with its last folder. */
  function Unfiled(c: Content, f: FolderId, m: MailId): Content {
    var left := c.(folders := RemoveFrom(c.folders, f, m));
    if Anywhere(left.folders, m) then left else left.(table := c.table - {m}, eml := c.eml - {m})
  }

  function Erased(c: Content, m: MailId): Content {
    c.(folders := RemoveEverywhere(c.folders, m), table := c.table - {m}, eml := c.eml - {m})
  }

  /** New metadata for a mail, wherever it is shown and in its row. */
  function Updated(c: Content, m: MailId, mail: Mail): Content {
    c.(folders := Refresh(c.folders, mail),
       table := if m in c.table then c.table[m := c.table[m].(mail := mail)] else c.table)
  }

  /** Only the known folders, with the rows and bodies of the others gone. */
  function Pruned(c: Content, known: set<FolderId>): Content {
    var gone := FiledIn(RowFolders(c.table), c.folders.Keys - known);
    c.(folders := Prune(c.folders, known), table := c.table - gone, eml := c.eml - gone)
  }

  /** One folder replaced by the server's listing. */
  function Synced(c: Content, f: FolderId, listing: seq<Mail>): Content {
    var known := ByMailId(Folder(c.folders, f));
    var uids := UidsFor(Next(c.next, f), NewIds(listing, known));
    var u := SyncedUids(UidsOf(c), f, listing);
    Content(u.folders, SyncedTable(c.table, f, listing, known, uids),
            c.eml - Unlisted(c.table, f, listing, known, uids), u.next, u.issued)
  }

  // ----- creates -----

  /** What a search over all folders may answer: any entry of the mail, in any folder that holds it. */
  type Hit = Option<(FolderId, StoredMail)>

  predicate Answers(mem: Memory, m: MailId, hit: Hit) {
    && (hit.Some? <==> Anywhere(mem, m))
    && (hit.Some? ==> hit.value.0 in mem && hit.value.1 in mem[hit.value.0] && hit.value.1.mail.id == m)
  }

  /** The content while creates run, with the pool left to consume and the folders to re-list. */
  datatype Filing = Filing(content: Content, pending: Pending, fallback: set<string>)

  function CreateOne(c: Filing, ev: EntityUpdateEvent, routes: Routes, b: Backend, hit: Hit): Filing {
    var giveUp := c.(fallback := c.fallback + {ev.instanceListId});
    match EntryMail(ev)
    case None => giveUp
    case Some(m) =>
      if ev.instanceListId !in routes then giveUp
      else
        var f := routes[ev.instanceListId].id;
        if hit.Some? then c.(content := Filed(c.content, f, m, hit.value.1))
        else if m in c.pending then
          c.(content := FromPool(c.content, f, m, c.pending[m], b), pending := c.pending - {m})
        else
          match ResolvedEntry(b, ev)
          case None => giveUp
          case Some((list, element)) =>
            match b.loadMail(list, element)
            case Ok(Some(mail)) => c.(content := Filed(c.content, f, element, StoredMail(mail, false, 0, false)))
            case Ok(None) => c
            case Err(_) => giveUp
  }

  /** A mail that rode in the same batch is filed with its body, if that came along. */
  function FromPool(c: Content, f: FolderId, m: MailId, p: PendingMail, b: Backend): Content {
    var body := InlineBody(p, b);
    Filed(Bodied(c, m, body), f, m, StoredMail(p.mail, body.Some?, 0, false))
  }

  /** What a CREATE of mail `m` files: the entry, the mail its UID is issued to, and the body that came along. */
  datatype Source = Source(owner: MailId, entry: StoredMail, body: Option<string>)

  function SourceOf(pending: Pending, ev: EntityUpdateEvent, b: Backend, m: MailId, hit: Hit): Option<Source> {
    if hit.Some? then Some(Source(m, hit.value.1, None))
    else if m in pending then
      var body := InlineBody(pending[m], b);
      Some(Source(m, StoredMail(pending[m].mail, body.Some?, 0, false), body))
    else
      var id := ResolvedEntry(b, ev);
      var mail := if id.Some? then Got(b.loadMail(id.value.0, id.value.1)) else None;
      if mail.Some? then Some(Source(id.value.1, StoredMail(mail.value, false, 0, false), None)) else None
  }

  /** A CREATE files its source in the target folder, or leaves the content alone. */
  lemma CreateFilesSource(c: Filing, ev: EntityUpdateEvent, routes: Routes, b: Backend, hit: Hit)
    ensures var after := CreateOne(c, ev, routes, b, hit);
            && after.pending.Keys <= c.pending.Keys
            && (forall k :: k in after.pending ==> after.pending[k] == c.pending[k])
            && if EntryMail(ev).Some? && ev.instanceListId in routes
                  && SourceOf(c.pending, ev, b, EntryMail(ev).value, hit).Some? then
                 var m, f := EntryMail(ev).value, routes[ev.instanceListId].id;
                 var source := SourceOf(c.pending, ev, b, m, hit).value;
                 after.content == Filed(Bodied(c.content, m, source.body), f, source.owner, source.entry)
               else
                 after.content == c.content
  {
  }

  function CreateSome(c: Filing, evs: seq<EntityUpdateEvent>, routes: Routes, b: Backend, hits: seq<Hit>): Filing
    requires |hits| == |evs|
  {
    if evs == [] then c
    else
      var n := |evs| - 1;
      CreateOne(CreateSome(c, evs[..n], routes, b, hits[..n]), evs[n], routes, b, hits[n])
  }

  /** Each search that was made answered truthfully at its time. */
  ghost predicate Searched(c: Filing, evs: seq<EntityUpdateEvent>, routes: Routes, b: Backend, hits: seq<Hit>) {
    && |hits| == |evs|
    && forall i :: 0 <= i < |evs| ==> SearchedAt(c, evs, routes, b, hits, i)
  }

  ghost predicate SearchedAt(c: Filing, evs: seq<EntityUpdateEvent>, routes: Routes, b: Backend, hits: seq<Hit>, i: nat)
    requires |hits| == |evs| && i < |evs|
  {
    var m := EntryMail(evs[i]);
    m.Some? && evs[i].instanceListId in routes ==>
      Answers(CreateSome(c, evs[..i], routes, b, hits[..i]).content.folders, m.value, hits[i])
  }

  // ----- deletes, mail events, fallback syncs -----

  function DeleteOne(c: Content, ev: EntityUpdateEvent, routes: Routes): Content {
    var m := EntryMail(ev);
    if m.Some? && ev.instanceListId in routes then Unfiled(c, routes[ev.instanceListId].id, m.value) else c
  }

  function DeleteSome(c: Content, evs: seq<EntityUpdateEvent>, routes: Routes): Content {
    if evs == [] then c else DeleteOne(DeleteSome(c, evs[..|evs| - 1], routes), evs[|evs| - 1], routes)
  }

  function MailOne(c: Content, ev: EntityUpdateEvent, b: Backend): Content {
    match ev.operation
    case Delete => Erased(c, ev.instanceId)
    case Update =>
      var mail := ResolvedMail(b, ev);
      if mail.Some? then Updated(c, ev.instanceId, mail.value) else Erased(c, ev.instanceId)
    case Create => c
    case Other(_) => c
  }

  function MailSome(c: Content, evs: seq<EntityUpdateEvent>, b: Backend): Content {
    if evs == [] then c else MailOne(MailSome(c, evs[..|evs| - 1], b), evs[|evs| - 1], b)
  }

  function RelistOne(c: Content, entries: string, routes: Routes, b: Backend): Content {
    if entries in routes && b.folderMails(routes[entries]).Ok? then
      Synced(c, routes[entries].id, b.folderMails(routes[entries]).value)
    else c
  }

  function RelistSome(c: Content, order: seq<string>, routes: Routes, b: Backend): Content {
    if order == [] then c
    else RelistOne(RelistSome(c, order[..|order| - 1], routes, b), order[|order| - 1], routes, b)
  }

  // ----- one batch -----

  function RefreshedContent(c: Content, batch: EntityUpdateBatch, b: Backend): Content {
    if Refreshes(batch, b) then Pruned(c, FolderIds(b.listFolders.value)) else c
  }

  /** What the batch left open: what each search found, and the order of the fallback folders. */
  datatype How = How(hits: seq<Hit>, order: seq<string>)

  function StartFiling(c: Content, batch: EntityUpdateBatch, b: Backend): Filing {
    Filing(RefreshedContent(c, batch, b), Predecrypted(b, Buckets(batch.updates).mailCreates), {})
  }

  function Created(c: Content, list: seq<FolderInfo>, batch: EntityUpdateBatch, b: Backend, hits: seq<Hit>): Filing
    requires |hits| == |Buckets(batch.updates).entryCreates|
  {
    CreateSome(StartFiling(c, batch, b), Buckets(batch.updates).entryCreates, RoutesOf(ListFor(list, batch, b)), b, hits)
  }

  function EventsDone(c: Content, list: seq<FolderInfo>, batch: EntityUpdateBatch, b: Backend, hits: seq<Hit>): Content
    requires |hits| == |Buckets(batch.updates).entryCreates|
  {
    var k := Buckets(batch.updates);
    MailSome(DeleteSome(Created(c, list, batch, b, hits).content, k.entryDeletes, RoutesOf(ListFor(list, batch, b))),
             k.mailEvents, b)
  }

  ghost predicate HowPossible(c: Content, list: seq<FolderInfo>, batch: EntityUpdateBatch, b: Backend, how: How) {
    && Searched(StartFiling(c, batch, b), Buckets(batch.updates).entryCreates, RoutesOf(ListFor(list, batch, b)), b,
                how.hits)
    && Enumerates(how.order, Created(c, list, batch, b, how.hits).fallback)
  }

  /** The whole batch. */
  function BatchDone(c: Content, list: seq<FolderInfo>, batch: EntityUpdateBatch, b: Backend, how: How): Content
    requires |how.hits| == |Buckets(batch.updates).entryCreates|
  {
    RelistSome(EventsDone(c, list, batch, b, how.hits), how.order, RoutesOf(ListFor(list, batch, b)), b)
  }
}
