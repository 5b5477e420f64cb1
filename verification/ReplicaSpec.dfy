/**
 * What one event batch does to the replica, seen as sets: which mails memory lists in which folder,
 * and which folder each disk row names.
 */
module ReplicaSpec {
  import opened Wrappers
  import opened MailTypes
  import opened MailStoreModel
  import opened LocalStoreModel
  import MailSetEntryId

  type Pair = (FolderId, MailId)

  /**
   * `keys`: folders present in memory, even empty; `members`: what memory lists; `rows`: the folder of
   * each disk row; `bodies`: the body files.
   */
  datatype Replica = Replica(keys: set<FolderId>, members: set<Pair>, rows: map<MailId, FolderId>,
                             bodies: map<MailId, string>)

  ghost function Members(mem: Memory): set<Pair> {
    set f, x | f in mem && x in mem[f] :: (f, x.mail.id)
  }

  function RowFolders(table: Table): map<MailId, FolderId> {
    map m | m in table :: table[m].folder
  }

  ghost function Abstract(mem: Memory, table: Table, eml: map<MailId, string>): Replica {
    Replica(mem.Keys, Members(mem), RowFolders(table), eml)
  }

  ghost predicate Somewhere(members: set<Pair>, m: MailId) {
    exists f :: (f, m) in members
  }

  // ----- the elementary moves -----

  function Place(r: Replica, f: FolderId, m: MailId): Replica {
    Replica(r.keys + {f}, r.members + {(f, m)}, r.rows[m := f], r.bodies)
  }

  ghost function Unplace(r: Replica, f: FolderId, m: MailId): Replica {
    var members := r.members - {(f, m)};
    if Somewhere(members, m) then r.(members := members)
    else Replica(r.keys, members, r.rows - {m}, r.bodies - {m})
  }

  function Erase(r: Replica, m: MailId): Replica {
    Replica(r.keys, (set p | p in r.members && p.1 != m), r.rows - {m}, r.bodies - {m})
  }

  function FiledIn(rows: map<MailId, FolderId>, folders: set<FolderId>): set<MailId> {
    set m | m in rows && rows[m] in folders
  }

  /** Keep only the folders in `known`; rows and bodies of the folders dropped from memory go too. */
  function Restrict(r: Replica, known: set<FolderId>): Replica {
    Replica(r.keys * known, (set p | p in r.members && p.0 in known),
            r.rows - FiledIn(r.rows, r.keys - known), r.bodies - FiledIn(r.rows, r.keys - known))
  }

  function RelistedRows(rows: map<MailId, FolderId>, f: FolderId, listing: set<MailId>): map<MailId, FolderId> {
    map m | m in rows.Keys + listing && (m in listing || rows[m] != f) :: if m in listing then f else rows[m]
  }

  /** A full folder sync: the folder holds exactly the server's listing. */
  function Relist(r: Replica, f: FolderId, listing: set<MailId>): Replica {
    Replica(r.keys + {f},
            (set p | p in r.members && p.0 != f) + (set m | m in listing :: (f, m)),
            RelistedRows(r.rows, f, listing),
            r.bodies - (FiledIn(r.rows, {f}) - listing))
  }

  // ----- one batch -----

  const TUTANOTA_APP := "tutanota"
  const MAIL_TYPE_ID := 97
  const MAIL_SET_ENTRY_TYPE_ID := 1450
  const MAIL_SET_TYPE_ID := 429

  predicate IsEntryCreate(ev: EntityUpdateEvent) {
    ev.application == TUTANOTA_APP && ev.typeId == MAIL_SET_ENTRY_TYPE_ID && ev.operation.Create?
  }

  predicate IsEntryDelete(ev: EntityUpdateEvent) {
    ev.application == TUTANOTA_APP && ev.typeId == MAIL_SET_ENTRY_TYPE_ID && ev.operation.Delete?
  }

  predicate IsMailCreate(ev: EntityUpdateEvent) {
    ev.application == TUTANOTA_APP && ev.typeId == MAIL_TYPE_ID && ev.operation.Create?
  }

  predicate IsMailEvent(ev: EntityUpdateEvent) {
    ev.application == TUTANOTA_APP && ev.typeId == MAIL_TYPE_ID && !ev.operation.Create?
  }

  predicate IsFolderEvent(ev: EntityUpdateEvent) {
    ev.application == TUTANOTA_APP && ev.typeId == MAIL_SET_TYPE_ID
  }

  function Filter<T(!new)>(s: seq<T>, keep: T -> bool): (r: seq<T>)
    ensures forall x :: x in r <==> x in s && keep(x)
  {
    if s == [] then [] else
      var n := |s| - 1;
      assert forall x :: x in s <==> x in s[..n] || x == s[n];
      Filter(s[..n], keep) + if keep(s[n]) then [s[n]] else []
  }

  datatype Bucketed = Bucketed(entryCreates: seq<EntityUpdateEvent>, entryDeletes: seq<EntityUpdateEvent>,
                               mailCreates: seq<EntityUpdateEvent>, mailEvents: seq<EntityUpdateEvent>,
                               folderListDirty: bool)

  function Buckets(updates: seq<EntityUpdateEvent>): Bucketed {
    Bucketed(Filter(updates, IsEntryCreate), Filter(updates, IsEntryDelete), Filter(updates, IsMailCreate),
             Filter(updates, IsMailEvent), exists ev :: ev in updates && IsFolderEvent(ev))
  }

  /** One more event lands in at most one bucket. */
  function Push(k: Bucketed, ev: EntityUpdateEvent): Bucketed {
    if IsEntryCreate(ev) then k.(entryCreates := k.entryCreates + [ev])
    else if IsEntryDelete(ev) then k.(entryDeletes := k.entryDeletes + [ev])
    else if IsMailCreate(ev) then k.(mailCreates := k.mailCreates + [ev])
    else if IsMailEvent(ev) then k.(mailEvents := k.mailEvents + [ev])
    else if IsFolderEvent(ev) then k.(folderListDirty := true)
    else k
  }

  lemma FilterPush<T(!new)>(s: seq<T>, x: T, keep: T -> bool)
    ensures Filter(s + [x], keep) == Filter(s, keep) + if keep(x) then [x] else []
  {
    assert (s + [x])[..|s|] == s;
  }

  lemma BucketsPush(s: seq<EntityUpdateEvent>, ev: EntityUpdateEvent)
    ensures Buckets(s + [ev]) == Push(Buckets(s), ev)
  {
    FilterPush(s, ev, IsEntryCreate);
    FilterPush(s, ev, IsEntryDelete);
    FilterPush(s, ev, IsMailCreate);
    FilterPush(s, ev, IsMailEvent);
    FolderEventPush(s, ev);
  }

  lemma FolderEventPush(s: seq<EntityUpdateEvent>, ev: EntityUpdateEvent)
    ensures (exists e :: e in s + [ev] && IsFolderEvent(e))
            <==> (exists e :: e in s && IsFolderEvent(e)) || IsFolderEvent(ev)
  {
    assert forall e :: e in s + [ev] <==> e in s || e == ev;
  }

  datatype PendingMail = PendingMail(mail: Mail, details: Option<Details>)

  type Pending = map<MailId, PendingMail>

  /** `Ok(Some(_))` or nothing. */
  function Got<T>(r: Result<Option<T>, string>): Option<T> {
    if r.Ok? then r.value else None
  }

  function InlineMail(b: Backend, ev: EntityUpdateEvent): Option<Mail> {
    if ev.instance.Some? then Got(b.decryptMail(ev.instance.value)) else None
  }

  function InlineDetails(b: Backend, ev: EntityUpdateEvent): Option<Details> {
    if ev.blobInstance.Some? then Got(b.decryptDetails(ev.blobInstance.value)) else None
  }

  /** The pool of mails whose CREATE carried a readable payload. */
  function Predecrypted(b: Backend, evs: seq<EntityUpdateEvent>): Pending {
    if evs == [] then map[] else
      var n := |evs| - 1;
      var pool := Predecrypted(b, evs[..n]);
      match InlineMail(b, evs[n])
      case None => pool
      case Some(mail) => pool[evs[n].instanceId := PendingMail(mail, InlineDetails(b, evs[n]))]
  }

  /** The event carries the mail, and the blob its details, in readable form. */
  predicate Carries(ev: EntityUpdateEvent, b: Backend, p: PendingMail) {
    && ev.instance.Some? && b.decryptMail(ev.instance.value) == Ok(Some(p.mail))
    && p.details == if ev.blobInstance.Some? && b.decryptDetails(ev.blobInstance.value).Ok?
                    then b.decryptDetails(ev.blobInstance.value).value else None
  }

  /** The last of these events that carries the mail of this id in readable form. */
  ghost predicate CarriedLast(evs: seq<EntityUpdateEvent>, b: Backend, m: MailId, p: PendingMail) {
    exists j :: 0 <= j < |evs| && evs[j].instanceId == m && Carries(evs[j], b, p)
                && forall l :: j < l < |evs| && evs[l].instanceId == m ==> forall q :: !Carries(evs[l], b, q)
  }

  lemma {:induction false} PoolIsLatest(b: Backend, evs: seq<EntityUpdateEvent>, m: MailId, p: PendingMail)
    ensures m in Predecrypted(b, evs) && Predecrypted(b, evs)[m] == p <==> CarriedLast(evs, b, m, p)
  {
    if evs != [] {
      var n := |evs| - 1;
      PoolIsLatest(b, evs[..n], m, p);
      LastCarrier(evs, b, m, p);
      InlineIsCarried(evs[n], b);
      assert InlineMail(b, evs[n]).Some? ==>
          Carries(evs[n], b, PendingMail(InlineMail(b, evs[n]).value, InlineDetails(b, evs[n])));
    }
  }

  lemma InlineIsCarried(ev: EntityUpdateEvent, b: Backend)
    ensures InlineMail(b, ev).Some? ==>
              forall q :: Carries(ev, b, q) <==> q == PendingMail(InlineMail(b, ev).value, InlineDetails(b, ev))
    ensures InlineMail(b, ev).None? ==> forall q :: !Carries(ev, b, q)
  {
  }

  lemma LastCarrier(evs: seq<EntityUpdateEvent>, b: Backend, m: MailId, p: PendingMail)
    requires evs != []
    ensures var n := |evs| - 1;
            CarriedLast(evs, b, m, p) <==>
            if evs[n].instanceId == m && exists q :: Carries(evs[n], b, q) then Carries(evs[n], b, p)
            else CarriedLast(evs[..n], b, m, p)
  {
    var n := |evs| - 1;
    if j :| 0 <= j < n && evs[..n][j].instanceId == m && Carries(evs[..n][j], b, p)
            && forall l :: j < l < n && evs[..n][l].instanceId == m ==> forall q :: !Carries(evs[..n][l], b, q) {
      assert forall l :: j < l < n ==> evs[..n][l] == evs[l];
      assert evs[j] == evs[..n][j];
    }
    if j :| 0 <= j < |evs| && evs[j].instanceId == m && Carries(evs[j], b, p)
            && forall l :: j < l < |evs| && evs[l].instanceId == m ==> forall q :: !Carries(evs[l], b, q) {
      if j < n {
        assert evs[..n][j] == evs[j];
        assert forall l :: j < l < n ==> evs[..n][l] == evs[l];
      }
    }
  }

  function EntryMail(ev: EntityUpdateEvent): Option<MailId> {
    match MailSetEntryId.Deconstruct(ev.instanceId)
    case Ok(pair) => Some(pair.1)
    case Err(_) => None
  }

  /** The mail an entry CREATE refers to, read from its inline payload. */
  function ResolvedEntry(b: Backend, ev: EntityUpdateEvent): Option<(string, string)> {
    if ev.instance.Some? then Got(b.decryptEntry(ev.instance.value)) else None
  }

  /** Inline payload first, then the server; `None` when neither knows the mail. */
  function ResolvedMail(b: Backend, ev: EntityUpdateEvent): Option<Mail> {
    var inline := InlineMail(b, ev);
    if inline.Some? then inline else Got(b.loadMail(ev.instanceListId, ev.instanceId))
  }

  /** The event's own payload says so, or, when that cannot be read, the server does. */
  predicate IsPayload(ev: EntityUpdateEvent, b: Backend, mail: Mail) {
    if ev.instance.Some? && b.decryptMail(ev.instance.value).Ok? && b.decryptMail(ev.instance.value).value.Some? then
      b.decryptMail(ev.instance.value).value == Some(mail)
    else
      b.loadMail(ev.instanceListId, ev.instanceId) == Ok(Some(mail))
  }

  lemma ResolvedIsPayload(ev: EntityUpdateEvent, b: Backend)
    ensures forall mail :: IsPayload(ev, b, mail) <==> ResolvedMail(b, ev) == Some(mail)
  {
  }

  type Routes = map<string, FolderInfo>

  /** Folders by entries-list id; on a clash the later folder wins. */
  function RoutesOf(list: seq<FolderInfo>): Routes {
    if list == [] then map[]
    else RoutesOf(list[..|list| - 1])[list[|list| - 1].entriesListId := list[|list| - 1]]
  }

  /** A mail that arrived with its details and has no attachments is rendered to disk at once. */
  function InlineBody(p: PendingMail, b: Backend): Option<string> {
    if p.details.Some? && p.mail.attachments == 0 then Some(b.render(p.mail, p.details.value)) else None
  }

  function WithBody(r: Replica, m: MailId, p: PendingMail, b: Backend): Replica {
    match InlineBody(p, b)
    case None => r
    case Some(text) => r.(bodies := r.bodies[m := text])
  }

  /** The replica while creates run, with the pool left to consume and the folders to re-list. */
  datatype Creating = Creating(replica: Replica, pending: Pending, fallback: set<string>)

  ghost function CreateStep(c: Creating, ev: EntityUpdateEvent, routes: Routes, b: Backend): Creating {
    var giveUp := c.(fallback := c.fallback + {ev.instanceListId});
    match EntryMail(ev)
    case None => giveUp
    case Some(m) =>
      if ev.instanceListId !in routes then giveUp
      else
        var f := routes[ev.instanceListId].id;
        if Somewhere(c.replica.members, m) then c.(replica := Place(c.replica, f, m))
        else if m in c.pending then
          c.(replica := Place(WithBody(c.replica, m, c.pending[m], b), f, c.pending[m].mail.id),
             pending := c.pending - {m})
        else
          match ResolvedEntry(b, ev)
          case None => giveUp
          case Some((list, element)) =>
            match b.loadMail(list, element)
            case Ok(Some(mail)) => c.(replica := Place(c.replica, f, mail.id))
            case Ok(None) => c
            case Err(_) => giveUp
  }

  ghost function CreateAll(c: Creating, evs: seq<EntityUpdateEvent>, routes: Routes, b: Backend): Creating {
    if evs == [] then c
    else CreateStep(CreateAll(c, evs[..|evs| - 1], routes, b), evs[|evs| - 1], routes, b)
  }

  ghost function DeleteStep(r: Replica, ev: EntityUpdateEvent, routes: Routes): Replica {
    var m := EntryMail(ev);
    if m.Some? && ev.instanceListId in routes then Unplace(r, routes[ev.instanceListId].id, m.value) else r
  }

  ghost function DeleteAll(r: Replica, evs: seq<EntityUpdateEvent>, routes: Routes): Replica {
    if evs == [] then r else DeleteStep(DeleteAll(r, evs[..|evs| - 1], routes), evs[|evs| - 1], routes)
  }

  function MailStep(r: Replica, ev: EntityUpdateEvent, b: Backend): Replica {
    match ev.operation
    case Delete => Erase(r, ev.instanceId)
    case Update => if ResolvedMail(b, ev).Some? then r else Erase(r, ev.instanceId)
    case Create => r
    case Other(_) => r
  }

  function MailAll(r: Replica, evs: seq<EntityUpdateEvent>, b: Backend): Replica {
    if evs == [] then r else MailStep(MailAll(r, evs[..|evs| - 1], b), evs[|evs| - 1], b)
  }

  function RelistStep(r: Replica, entries: string, routes: Routes, b: Backend): Replica {
    if entries in routes && b.folderMails(routes[entries]).Ok? then
      Relist(r, routes[entries].id, MailIds(b.folderMails(routes[entries]).value))
    else r
  }

  function RelistAll(r: Replica, order: seq<string>, routes: Routes, b: Backend): Replica {
    if order == [] then r else RelistStep(RelistAll(r, order[..|order| - 1], routes, b), order[|order| - 1], routes, b)
  }

  /** `order` walks the set, each element once, in any order. */
  ghost predicate Enumerates<T(!new)>(order: seq<T>, s: set<T>) {
    && (forall x :: x in order <==> x in s)
    && (forall i, j :: 0 <= i < j < |order| ==> order[i] != order[j])
  }

  predicate Refreshes(batch: EntityUpdateBatch, b: Backend) {
    Buckets(batch.updates).folderListDirty && b.listFolders.Ok?
  }

  /** The folder list in force while the batch is applied. */
  function ListFor(list: seq<FolderInfo>, batch: EntityUpdateBatch, b: Backend): seq<FolderInfo> {
    if Refreshes(batch, b) then b.listFolders.value else list
  }

  function Refreshed(r: Replica, batch: EntityUpdateBatch, b: Backend): Replica {
    if Refreshes(batch, b) then Restrict(r, FolderIds(b.listFolders.value)) else r
  }

  /** The state once every entry CREATE of the batch has run. */
  ghost function AfterCreates(r: Replica, list: seq<FolderInfo>, batch: EntityUpdateBatch, b: Backend): Creating {
    var k := Buckets(batch.updates);
    CreateAll(Creating(Refreshed(r, batch, b), Predecrypted(b, k.mailCreates), {}), k.entryCreates,
              RoutesOf(ListFor(list, batch, b)), b)
  }

  ghost function AfterEvents(r: Replica, list: seq<FolderInfo>, batch: EntityUpdateBatch, b: Backend): Replica {
    var k := Buckets(batch.updates);
    MailAll(DeleteAll(AfterCreates(r, list, batch, b).replica, k.entryDeletes, RoutesOf(ListFor(list, batch, b))),
            k.mailEvents, b)
  }

  /** The whole batch, the fallback folders being re-listed in the given order. */
  ghost function AfterBatch(r: Replica, list: seq<FolderInfo>, batch: EntityUpdateBatch, b: Backend,
                            order: seq<string>): Replica {
    RelistAll(AfterEvents(r, list, batch, b), order, RoutesOf(ListFor(list, batch, b)), b)
  }
}
