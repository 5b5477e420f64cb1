/**
 * Startup: the syncer loads cached folders from disk, and possibly re-lists them all, while events already arrive.
 * The handler holds them back until the syncer has signalled or has ended.
 */
module StartupGate {
  import opened Wrappers
  import opened MailTypes
  import opened MailStoreModel
  import opened LocalStoreModel
  import opened ReplicaSpec
  import opened Refinement
  import opened FolderSync
  import opened Agreement

  // ----- loading one folder, and all of them -----

  /** The entry a row is loaded as: the body file decides whether the body is available. */
  function LoadedEntry(row: Row, hasBody: bool): StoredMail {
    StoredMail(row.mail, hasBody, row.uid, false)
  }

  /** `table` up to healed `has_details` flags. */
  ghost predicate SameButDetails(before: Table, after: Table) {
    && after.Keys == before.Keys
    && forall m :: m in before ==> after[m].(hasDetails := false) == before[m].(hasDetails := false)
  }

  /** The rows of these mails say that the body is there when it is; nothing else changed. */
  ghost predicate Healed(before: Table, after: Table, ids: set<MailId>, eml: map<MailId, string>) {
    && after.Keys == before.Keys
    && forall m :: m in before ==>
         after[m] == if m in ids && m in eml then before[m].(hasDetails := true) else before[m]
  }

  lemma HealedIsSame(before: Table, after: Table, ids: set<MailId>, eml: map<MailId, string>)
    requires Healed(before, after, ids, eml)
    ensures SameButDetails(before, after)
  {
  }

  /** The entries are those of these rows, each once. */
  ghost predicate LoadedRows(loaded: seq<StoredMail>, table: Table, ids: set<MailId>, eml: map<MailId, string>)
    requires ids <= table.Keys
  {
    && (forall x :: x in loaded <==>
          exists m :: m in ids && x == StoredMail(table[m].mail, m in eml, table[m].uid, false))
    && (forall i, j :: 0 <= i < j < |loaded| ==> loaded[i].mail.id != loaded[j].mail.id)
  }

  ghost predicate LoadedFrom(loaded: seq<StoredMail>, table: Table, f: FolderId, eml: map<MailId, string>) {
    LoadedRows(loaded, table, InFolder(table, f), eml)
  }

  predicate NewestFirst(loaded: seq<StoredMail>) {
    forall i, j :: 0 <= i < j < |loaded| ==> loaded[j].mail.receivedMs <= loaded[i].mail.receivedMs
  }

  predicate IsNewest(table: Table, ids: set<MailId>, m: MailId)
    requires ids <= table.Keys
  {
    m in ids && forall k :: k in ids ==> table[k].mail.receivedMs <= table[m].mail.receivedMs
  }

  lemma {:induction false} NewestExists(table: Table, ids: set<MailId>) returns (m: MailId)
    requires ids <= table.Keys && ids != {}
    ensures IsNewest(table, ids, m)
    decreases |ids|
  {
    m :| m in ids;
    if ids != {m} {
      assert ids - {m} != {};
      var other := NewestExists(table, ids - {m});
      if table[m].mail.receivedMs < table[other].mail.receivedMs {
        m := other;
      }
    }
  }

  /** What is loaded so far is in order and not older than what is still to come. */
  predicate LoadedInOrder(loaded: seq<StoredMail>, table: Table, todo: set<MailId>)
    requires todo <= table.Keys
  {
    && NewestFirst(loaded)
    && forall i, k :: 0 <= i < |loaded| && k in todo ==> table[k].mail.receivedMs <= loaded[i].mail.receivedMs
  }

  lemma NextInOrder(loaded: seq<StoredMail>, table: Table, todo: set<MailId>, m: MailId, x: StoredMail)
    requires todo <= table.Keys && LoadedInOrder(loaded, table, todo) && IsNewest(table, todo, m)
    requires x.mail == table[m].mail
    ensures LoadedInOrder(loaded + [x], table, todo - {m})
  {
  }

  lemma {:induction false} NextLoaded(loaded: seq<StoredMail>, table: Table, done: set<MailId>, m: MailId,
                                      eml: map<MailId, string>)
    requires Keyed(table) && done <= table.Keys && m in table && m !in done && LoadedRows(loaded, table, done, eml)
    ensures LoadedRows(loaded + [LoadedEntry(table[m], m in eml)], table, done + {m}, eml)
  {
    var next := loaded + [LoadedEntry(table[m], m in eml)];
    forall i | 0 <= i < |loaded| ensures loaded[i].mail.id != m {
      assert loaded[i] in loaded;
    }
    forall x ensures x in next <==> exists k :: k in done + {m} && x == LoadedEntry(table[k], k in eml) {
      assert x in next <==> x in loaded || x == LoadedEntry(table[m], m in eml);
      assert m in done + {m};
    }
  }

  /** Rows are read newest first; healing a flag in between changes no date. */
  method PickNewest(current: Table, ghost table: Table, todo: set<MailId>) returns (m: MailId)
    requires SameButDetails(table, current) && todo <= table.Keys && todo != {}
    ensures IsNewest(table, todo, m)
  {
    ghost var newest := NewestExists(current, todo);
    m :| m in todo && forall k :: k in todo ==> current[k].mail.receivedMs <= current[m].mail.receivedMs;
    assert forall k :: k in todo ==> current[k].(hasDetails := false) == table[k].(hasDetails := false);
  }

  method LoadCachedFolder(store: MailStore, local: LocalStore, f: FolderId)
    requires Keyed(local.mails)
    modifies store`folders, store`generation, local`mails
    ensures Healed(old(local.mails), local.mails, InFolder(old(local.mails), f), local.eml)
    ensures f in store.folders && store.folders == old(store.folders)[f := store.folders[f]]
    ensures LoadedFrom(store.folders[f], old(local.mails), f, local.eml) && NewestFirst(store.folders[f])
  {
    var todo := InFolder(local.mails, f);
    ghost var rows, table := todo, local.mails;
    var loaded: seq<StoredMail> := [];
    while todo != {}
      invariant todo <= rows == InFolder(table, f)
      invariant LoadedInOrder(loaded, table, todo)
      invariant Healed(table, local.mails, rows - todo, local.eml)
      invariant LoadedRows(loaded, table, rows - todo, local.eml)
      invariant store.folders == old(store.folders)
    {
      HealedIsSame(table, local.mails, rows - todo, local.eml);
      var m := PickNewest(local.mails, table, todo);
      var row := local.mails[m];
      if m in local.eml && !row.hasDetails {
        local.MarkHasDetails(m);
      }
      assert LoadedEntry(row, m in local.eml) == LoadedEntry(table[m], m in local.eml);
      NextInOrder(loaded, table, todo, m, LoadedEntry(row, m in local.eml));
      NextLoaded(loaded, table, rows - todo, m, local.eml);
      assert rows - (todo - {m}) == (rows - todo) + {m};
      loaded := loaded + [LoadedEntry(row, m in local.eml)];
      todo := todo - {m};
    }
    store.SetFolder(f, loaded);
  }

  lemma SameButDetailsLoads(table: Table, current: Table, f: FolderId, loaded: seq<StoredMail>,
                            eml: map<MailId, string>)
    requires SameButDetails(table, current) && LoadedFrom(loaded, current, f, eml)
    ensures LoadedFrom(loaded, table, f, eml)
  {
    assert forall m :: m in table ==> LoadedEntry(current[m], m in eml) == LoadedEntry(table[m], m in eml);
    assert InFolder(current, f) == InFolder(table, f);
  }

  method LoadCachedFolders(store: MailStore, local: LocalStore, list: seq<FolderInfo>)
    requires Keyed(local.mails) && store.folders == map[]
    modifies store`folders, store`generation, local`mails
    ensures Healed(old(local.mails), local.mails, FiledIn(RowFolders(old(local.mails)), FolderIds(list)), local.eml)
    ensures store.folders.Keys == FolderIds(list)
    ensures forall f :: f in store.folders ==>
              LoadedFrom(store.folders[f], old(local.mails), f, local.eml) && NewestFirst(store.folders[f])
  {
    ghost var table := local.mails;
    for i := 0 to |list|
      invariant Healed(table, local.mails, FiledIn(RowFolders(table), FolderIds(list[..i])), local.eml)
      invariant store.folders.Keys == FolderIds(list[..i])
      invariant forall f :: f in store.folders ==>
        LoadedFrom(store.folders[f], table, f, local.eml) && NewestFirst(store.folders[f])
    {
      ghost var current, before := local.mails, FiledIn(RowFolders(table), FolderIds(list[..i]));
      HealedIsSame(table, current, before, local.eml);
      LoadCachedFolder(store, local, list[i].id);
      SameButDetailsLoads(table, current, list[i].id, store.folders[list[i].id], local.eml);
      assert list[..i + 1] == list[..i] + [list[i]];
      HealMore(table, current, local.mails, before, list[i].id, local.eml);
      assert FiledIn(RowFolders(table), FolderIds(list[..i + 1])) == before + InFolder(table, list[i].id);
    }
    assert list[..|list|] == list;
  }

  lemma HealMore(table: Table, current: Table, after: Table, ids: set<MailId>, f: FolderId, eml: map<MailId, string>)
    requires Healed(table, current, ids, eml) && Healed(current, after, InFolder(current, f), eml)
    ensures Healed(table, after, ids + InFolder(table, f), eml)
  {
  }

  lemma LoadedIds(table: Table, f: FolderId, loaded: seq<StoredMail>, eml: map<MailId, string>)
    requires Keyed(table) && LoadedFrom(loaded, table, f, eml)
    ensures Ids(loaded) == InFolder(table, f)
  {
    forall m | m in InFolder(table, f) ensures m in Ids(loaded) {
      assert LoadedEntry(table[m], m in eml) in loaded;
    }
    forall m | m in Ids(loaded) ensures m in InFolder(table, f) {
      var x :| x in loaded && x.mail.id == m;
      var k :| k in InFolder(table, f) && x == LoadedEntry(table[k], k in eml);
      assert table[k].mail.id == k;
    }
  }

  /** After loading, memory and disk agree exactly when every row names a folder that was loaded. */
  lemma LoadAgreesIff(mem: Memory, table: Table, eml: map<MailId, string>, list: seq<FolderInfo>)
    requires Keyed(table) && mem.Keys == FolderIds(list)
    requires forall f :: f in mem ==> LoadedFrom(mem[f], table, f, eml)
    ensures Members(mem) == Reloaded(Abstract(mem, table, eml), list)
    ensures Agrees(Abstract(mem, table, eml)) <==> forall m :: m in table ==> table[m].folder in FolderIds(list)
  {
    var r := Abstract(mem, table, eml);
    forall f | f in mem ensures Ids(mem[f]) == InFolder(table, f) {
      LoadedIds(table, f, mem[f], eml);
    }
    forall f, m ensures (f, m) in r.members <==> f in mem && m in table && table[m].folder == f {
      MembersAt(mem, f, m);
    }
    forall p ensures p in Members(mem) <==> p in Reloaded(r, list) {
      MembersAt(mem, p.0, p.1);
      assert p == (p.0, p.1);
      assert p.1 in r.rows ==> r.rows[p.1] == table[p.1].folder;
    }
    if Agrees(r) {
      forall m | m in table ensures table[m].folder in FolderIds(list) {
        assert (table[m].folder, m) in r.members;
      }
    }
  }

  // ----- the gate -----

  /** Where the syncer is: `Loading(i, snapshot)` has read folder `i` from disk once `snapshot` is set. */
  datatype Syncer =
    | Loading(next: nat, snapshot: Option<set<MailId>>)
    | Syncing(next: nat)
    | Signalled
    | Ended

  /**
   * `gated` is the handler's wait for the startup signal. `base` is the replica when the syncer last replaced a
   * folder, `applied` the events applied since the session began.
   */
  datatype Session = Session(list: seq<FolderInfo>, fullSync: bool, replica: Replica, syncer: Syncer,
                             queue: seq<Input>, gated: bool, base: Replica, applied: seq<Input>)

  datatype Move =
    | Snapshot                         // the blocking task reads one folder's rows
    | Publish                          // ... and the folder is replaced in memory
    | SyncOne(listing: set<MailId>)    // one folder of the full sync
    | SyncFails                        // the server did not list that folder; the syncer goes on
    | Signal                           // startup done
    | End                              // the syncer returns without signalling
    | Arrive(input: Input)             // the event bus queues a batch
    | Open                             // the handler sees the signal, or the dropped sender
    | Handle                           // the handler applies the batch at the head of the queue

  /** Replace one folder in memory; the disk is left alone. */
  function Show(r: Replica, f: FolderId, mails: set<MailId>): Replica {
    r.(keys := r.keys + {f}, members := (set p | p in r.members && p.0 != f) + (set m | m in mails :: (f, m)))
  }

  predicate AtSync(s: Session) {
    s.fullSync && ((s.syncer.Loading? && s.syncer.next == |s.list| && 0 < |s.list|)
                   || (s.syncer.Syncing? && s.syncer.next < |s.list|))
  }

  function SyncIndex(s: Session): nat {
    if s.syncer.Syncing? then s.syncer.next else 0
  }

  predicate Possible(s: Session, move: Move) {
    match move
    case Snapshot => s.syncer.Loading? && s.syncer.next < |s.list| && s.syncer.snapshot.None?
    case Publish => s.syncer.Loading? && s.syncer.next < |s.list| && s.syncer.snapshot.Some?
    case SyncOne(_) => AtSync(s)
    case SyncFails => AtSync(s)
    case Signal =>
      if s.fullSync && 0 < |s.list| then s.syncer == Syncing(|s.list|) else s.syncer.Loading? && s.syncer.next == |s.list|
    case End => !s.syncer.Signalled? && !s.syncer.Ended?
    case Arrive(_) => true
    case Open => s.gated && (s.syncer.Signalled? || s.syncer.Ended?)
    case Handle => !s.gated && s.queue != []
  }

  /** What the handler makes of the replica with one queued batch. */
  type Handler = (Replica, Input) -> Replica

  function Take(s: Session, move: Move, handle: Handler): Session
    requires Possible(s, move)
  {
    match move
    case Snapshot => s.(syncer := Loading(s.syncer.next, Some(FiledIn(s.replica.rows, {s.list[s.syncer.next].id}))))
    case Publish =>
      var r := Show(s.replica, s.list[s.syncer.next].id, s.syncer.snapshot.value);
      s.(replica := r, base := r, syncer := Loading(s.syncer.next + 1, None))
    case SyncOne(listing) =>
      var r := Relist(s.replica, s.list[SyncIndex(s)].id, listing);
      s.(replica := r, base := r, syncer := Syncing(SyncIndex(s) + 1))
    case SyncFails => s.(syncer := Syncing(SyncIndex(s) + 1))
    case Signal => s.(syncer := Signalled)
    case End => s.(syncer := Ended)
    case Arrive(input) => s.(queue := s.queue + [input])
    case Open => s.(gated := false)
    case Handle =>
      var i := s.queue[0];
      s.(replica := handle(s.replica, i), queue := s.queue[1..], applied := s.applied + [i])
  }

  /** The syncer replaces a folder. */
  predicate Replaces(move: Move) {
    move.Publish? || move.SyncOne?
  }

  function AfterAll(r: Replica, inputs: seq<Input>, handle: Handler): Replica {
    if inputs == [] then r
    else handle(AfterAll(r, inputs[..|inputs| - 1], handle), inputs[|inputs| - 1])
  }

  function Started(list: seq<FolderInfo>, fullSync: bool, rows: map<MailId, FolderId>, bodies: map<MailId, string>)
    : Session
  {
    var r := Replica({}, {}, rows, bodies);
    Session(list, fullSync, r, Loading(0, None), [], true, r, [])
  }

  /** Folders published so far show exactly their rows, and a snapshot in hand is still what the disk says. */
  ghost predicate LoadedSoFar(s: Session) {
    && s.syncer.Loading? && s.syncer.next <= |s.list|
    && (s.syncer.snapshot.Some? ==> s.syncer.next < |s.list|)
    && (s.syncer.snapshot.Some? ==>
          s.syncer.snapshot.value == FiledIn(s.replica.rows, {s.list[s.syncer.next].id}))
    && s.replica.members == Reloaded(s.replica, s.list[..s.syncer.next])
    && s.replica.keys == FolderIds(s.list[..s.syncer.next])
  }

  ghost predicate Gated(s: Session, handle: Handler) {
    && (s.gated ==> s.applied == [] && s.replica == s.base)
    && (!s.gated ==> s.syncer.Signalled? || s.syncer.Ended?)
    && s.replica == AfterAll(s.base, s.applied, handle)
    && (s.syncer.Loading? ==> s.gated && LoadedSoFar(s))
    && (!s.fullSync && s.syncer.Signalled? ==>
          s.base.members == Reloaded(s.base, s.list) && s.base.keys == FolderIds(s.list))
  }

  lemma PublishLoads(s: Session, handle: Handler)
    requires Gated(s, handle) && Possible(s, Publish)
    ensures LoadedSoFar(Take(s, Publish, handle))
  {
    var i := s.syncer.next;
    var f, next := s.list[i].id, Take(s, Publish, handle);
    assert s.list[..i + 1] == s.list[..i] + [s.list[i]];
    assert FolderIds(s.list[..i + 1]) == FolderIds(s.list[..i]) + {f};
    forall p ensures p in next.replica.members <==> p in Reloaded(next.replica, s.list[..i + 1]) {
      assert p == (p.0, p.1);
      assert p in s.replica.members <==> p in Reloaded(s.replica, s.list[..i]);
    }
  }

  lemma GatedMove(s: Session, move: Move, handle: Handler)
    requires Gated(s, handle) && Possible(s, move)
    ensures Gated(Take(s, move, handle), handle)
    ensures Replaces(move) ==> s.applied == []
  {
    match move
    case Publish => PublishLoads(s, handle);
    case Handle =>
      assert (s.applied + [s.queue[0]])[..|s.applied|] == s.applied;
    case Signal =>
      if s.syncer.Loading? {
        assert s.list[..s.syncer.next] == s.list;
      }
    case _ =>
  }

  /** `moves` is a possible interleaving from `s` to `t`. */
  ghost predicate Interleaves(s: Session, moves: seq<Move>, t: Session, handle: Handler)
    decreases |moves|
  {
    if moves == [] then s == t
    else Possible(s, moves[0]) && Interleaves(Take(s, moves[0], handle), moves[1..], t, handle)
  }

  lemma {:induction false} GatedRun(s: Session, moves: seq<Move>, t: Session, handle: Handler)
    requires Gated(s, handle) && Interleaves(s, moves, t, handle)
    ensures Gated(t, handle)
    decreases |moves|
  {
    if moves != [] {
      GatedMove(s, moves[0], handle);
      GatedRun(Take(s, moves[0], handle), moves[1..], t, handle);
    }
  }

  /**
   * The startup gate, in every interleaving and whether or not the syncer ever signals: memory is the events
   * applied on top of what the syncer left, and a folder is only ever replaced before the first event is applied.
   * After a signalled cache load, what the syncer left is the disk's own placement of the listed folders. This holds
   * whatever the handler makes of a batch.
   */
  lemma NoReplacementAfterAnEvent(list: seq<FolderInfo>, fullSync: bool, rows: map<MailId, FolderId>,
                                  bodies: map<MailId, string>, moves: seq<Move>, t: Session, next: Move,
                                  handle: Handler)
    requires Interleaves(Started(list, fullSync, rows, bodies), moves, t, handle) && Possible(t, next)
    ensures t.replica == AfterAll(t.base, t.applied, handle)
    ensures Replaces(next) ==> t.applied == []
    ensures !t.fullSync && t.syncer.Signalled? ==> t.base.members == Reloaded(t.base, t.list)
  {
    StartsGated(list, fullSync, rows, bodies, handle);
    GatedRun(Started(list, fullSync, rows, bodies), moves, t, handle);
    GatedMove(t, next, handle);
  }

  lemma StartsGated(list: seq<FolderInfo>, fullSync: bool, rows: map<MailId, FolderId>, bodies: map<MailId, string>,
                    handle: Handler)
    ensures Gated(Started(list, fullSync, rows, bodies), handle)
  {
  }

  /**
   * Without the gate an event applied between snapshot and publication is overwritten: a mail erased from disk
   * and memory reappears in memory.
   */
  lemma UngatedLosesAnEvent(f: FolderInfo, m: MailId)
    ensures var r := Replica({}, {}, map[m := f.id], map[]);
            var snapshot := FiledIn(r.rows, {f.id});
            var after := Show(Erase(r, m), f.id, snapshot);
            (f.id, m) in after.members && m !in after.rows && !Agrees(after)
  {
    var r := Replica({}, {}, map[m := f.id], map[]);
    assert m in FiledIn(r.rows, {f.id});
    var after := Show(Erase(r, m), f.id, FiledIn(r.rows, {f.id}));
    assert (f.id, m) in after.members;
  }
}
