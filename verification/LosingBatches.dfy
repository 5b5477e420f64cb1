/** Batches that show where the handler does less than one might hope. */
module LosingBatches {
  import opened Wrappers
  import opened MailTypes
  import opened ReplicaSpec
  import opened Reordering
  import opened Resolution
  import opened Convergence
  import opened Agreement
  import opened Replication
  import MailSetEntryId
  import Base64

  // ----- entry events -----

  /** The id of a mail's entry in a folder. */
  function EntryId(m: MailId): string
    requires MailSetEntryId.IsMailId(m)
  {
    Base64.Encode(Base64.URL_SAFE, MailSetEntryId.EntryBytes(0, m))
  }

  function EntryEvent(f: FolderInfo, m: MailId, operation: Operation, payload: Option<string>): EntityUpdateEvent
    requires MailSetEntryId.IsMailId(m)
  {
    EntityUpdateEvent(TUTANOTA_APP, MAIL_SET_ENTRY_TYPE_ID, f.entriesListId, EntryId(m), operation, payload, None)
  }

  /** An entry event in a listed folder speaks about that folder and the mail. */
  lemma EntryEventPair(list: seq<FolderInfo>, f: FolderInfo, m: MailId, operation: Operation, payload: Option<string>)
    requires MailSetEntryId.IsMailId(m) && f.entriesListId in RoutesOf(list) && RoutesOf(list)[f.entriesListId] == f
    ensures EntryPair(EntryEvent(f, m, operation, payload), RoutesOf(list)) == Some((f.id, m))
  {
    MailSetEntryId.DeconstructConstruct(0, m);
  }

  lemma OneRoute(f: FolderInfo)
    ensures RoutesOf([f]) == map[f.entriesListId := f]
  {
    assert [f][..0] == [];
  }

  lemma TwoRoutes(here: FolderInfo, there: FolderInfo)
    requires here.entriesListId != there.entriesListId
    ensures RoutesOf([here, there]) == map[here.entriesListId := here, there.entriesListId := there]
  {
    OneRoute(here);
    assert [here, there][..1] == [here];
  }

  // ----- batches of one and of two events -----

  lemma OneBucket(ev: EntityUpdateEvent)
    ensures Buckets([ev]) == Push(Bucketed([], [], [], [], false), ev)
  {
    BucketsPush([], ev);
    assert [] + [ev] == [ev];
  }

  lemma TwoBuckets(ev: EntityUpdateEvent, ev': EntityUpdateEvent)
    ensures Buckets([ev, ev']) == Push(Push(Bucketed([], [], [], [], false), ev), ev')
  {
    OneBucket(ev);
    BucketsPush([ev], ev');
    assert [ev] + [ev'] == [ev, ev'];
  }

  lemma {:induction false} CreateOne(c: Creating, ev: EntityUpdateEvent, routes: Routes, b: Backend)
    ensures CreateAll(c, [ev], routes, b) == CreateStep(c, ev, routes, b)
  {
    assert [ev][..0] == [];
  }

  lemma {:induction false} CreateTwo(c: Creating, ev: EntityUpdateEvent, ev': EntityUpdateEvent, routes: Routes,
                                     b: Backend)
    ensures CreateAll(c, [ev, ev'], routes, b) == CreateStep(CreateStep(c, ev, routes, b), ev', routes, b)
  {
    CreateOne(c, ev, routes, b);
    assert [ev, ev'][..1] == [ev];
  }

  /** The first and only batch of a log, applied with this folder list and these answers. */
  ghost predicate HandledAlone(r: Replica, evs: seq<EntityUpdateEvent>, effect: Effect, list: seq<FolderInfo>,
                               b: Backend, after: Replica) {
    Handled(r, EntityUpdateBatch("", "", evs), effect, Application(0, list, b, []), after)
  }

  /** A batch of nothing but CREATEs. */
  lemma {:induction false} CreatesOnly(r: Replica, list: seq<FolderInfo>, batch: EntityUpdateBatch, b: Backend)
    requires Buckets(batch.updates) == Bucketed(batch.updates, [], [], [], false)
    ensures var routes := RoutesOf(list);
            var c := CreateAll(Creating(r, map[], {}), batch.updates, routes, b);
            && AfterCreates(r, list, batch, b) == c
            && AfterBatch(r, list, batch, b, []) == c.replica
            && EffectOf(list, batch, b) == Effect(None, EntryPairs(batch.updates, routes), {}, {})
  {
  }

  lemma {:induction false} CreatesResolve(r: Replica, list: seq<FolderInfo>, batch: EntityUpdateBatch, b: Backend)
    requires Buckets(batch.updates) == Bucketed(batch.updates, [], [], [], false)
    requires forall ev :: ev in batch.updates ==> Resolves(ev, RoutesOf(list), b, r.members, map[])
    ensures AllResolve(r, list, batch, b)
  {
  }

  lemma {:induction false} OnlyCreates(r: Replica, list: seq<FolderInfo>, evs: seq<EntityUpdateEvent>, b: Backend)
    requires Buckets(evs) == Bucketed(evs, [], [], [], false)
    requires forall ev :: ev in evs ==> Resolves(ev, RoutesOf(list), b, r.members, map[])
    requires CreateAll(Creating(r, map[], {}), evs, RoutesOf(list), b).fallback == {}
    ensures HandledAlone(r, evs, Effect(None, EntryPairs(evs, RoutesOf(list)), {}, {}), list, b,
                         CreateAll(Creating(r, map[], {}), evs, RoutesOf(list), b).replica)
  {
    CreatesOnly(r, list, EntityUpdateBatch("", "", evs), b);
    CreatesResolve(r, list, EntityUpdateBatch("", "", evs), b);
  }

  // ----- two folders, one row -----

  /** A routed CREATE, alone in its batch, of a mail that is cached somewhere. */
  lemma CachedCreate(r: Replica, list: seq<FolderInfo>, ev: EntityUpdateEvent, f: FolderId, m: MailId, b: Backend)
    requires IsEntryCreate(ev) && EntryPair(ev, RoutesOf(list)) == Some((f, m)) && Somewhere(r.members, m)
    ensures HandledAlone(r, [ev], Effect(None, {(f, m)}, {}, {}), list, b, Place(r, f, m))
  {
    OneBucket(ev);
    CreateOne(Creating(r, map[], {}), ev, RoutesOf(list), b);
    OnlyCreates(r, list, [ev], b);
    assert EntryPairs([ev], RoutesOf(list)) == {(f, m)};
  }

  /** A CREATE whose payload leads to the mail. */
  predicate Loads(ev: EntityUpdateEvent, m: MailId, b: Backend) {
    && ResolvedEntry(b, ev).Some?
    && var id := ResolvedEntry(b, ev).value;
       var answer := b.loadMail(id.0, id.1);
       answer.Ok? && answer.value.Some? && answer.value.value.id == m
  }

  lemma LoadPlaces(r: Replica, ev: EntityUpdateEvent, routes: Routes, f: FolderId, m: MailId, b: Backend,
                   members: set<Pair>)
    requires EntryPair(ev, routes) == Some((f, m)) && Loads(ev, m, b)
    ensures CreateStep(Creating(r, map[], {}), ev, routes, b) == Creating(Place(r, f, m), map[], {})
    ensures Resolves(ev, routes, b, members, map[])
  {
  }

  /** Two CREATEs of one mail, alone in their batch. */
  lemma TwoCreates(r: Replica, list: seq<FolderInfo>, ev: EntityUpdateEvent, ev': EntityUpdateEvent, f: FolderId,
                   g: FolderId, m: MailId, b: Backend)
    requires IsEntryCreate(ev) && IsEntryCreate(ev') && Loads(ev, m, b) && Loads(ev', m, b)
    requires EntryPair(ev, RoutesOf(list)) == Some((f, m)) && EntryPair(ev', RoutesOf(list)) == Some((g, m))
    ensures HandledAlone(r, [ev, ev'], Effect(None, {(f, m), (g, m)}, {}, {}), list, b, Place(Place(r, f, m), g, m))
  {
    var routes := RoutesOf(list);
    TwoBuckets(ev, ev');
    CreateTwo(Creating(r, map[], {}), ev, ev', routes, b);
    LoadPlaces(r, ev, routes, f, m, b, r.members);
    LoadPlaces(Place(r, f, m), ev', routes, g, m, b, r.members);
    OnlyCreates(r, list, [ev, ev'], b);
    TwoPairs(ev, ev', routes);
  }

  lemma TwoPairs(ev: EntityUpdateEvent, ev': EntityUpdateEvent, routes: Routes)
    requires EntryPair(ev, routes).Some? && EntryPair(ev', routes).Some?
    ensures EntryPairs([ev, ev'], routes) == {EntryPair(ev, routes).value, EntryPair(ev', routes).value}
  {
    assert ev in [ev, ev'] && ev' in [ev, ev'];
  }

  /** A replica that knows two folders, and a mail filed in the first and then in the second. */
  function TwoFolders(here: FolderInfo, there: FolderInfo): Replica {
    Replica({here.id, there.id}, {}, map[], map[])
  }

  lemma FiledTwice(m: MailId, here: FolderInfo, there: FolderInfo)
    requires here.id != there.id
    ensures var first := Place(TwoFolders(here, there), here.id, m);
            var after := Place(first, there.id, m);
            && Agrees(TwoFolders(here, there)) && Agrees(first)
            && first.members == {(here.id, m)}
            && after.members == {(here.id, m), (there.id, m)}
            && Restarted(after, [here, there]).members == {(there.id, m)}
  {
    var list, first := [here, there], Place(TwoFolders(here, there), here.id, m);
    var after := Place(first, there.id, m);
    assert list[1] == there && there.id in FolderIds(list);
    assert first.rows == map[m := here.id] && after.rows == map[m := there.id];
    forall p ensures p in Reloaded(after, list) <==> p == (there.id, m) {
      assert p == (p.0, p.1);
      assert m in after.rows && after.rows[m] == there.id;
    }
    assert forall g, k :: (g, k) in first.members <==> k in first.rows && first.rows[k] == g;
  }

  lemma OneIndex(a: Application, list: seq<FolderInfo>)
    ensures Indices([Replication.Apply(a), Restart(list)]) == [a.index]
  {
    var first := Replication.Apply(a);
    IndicesAppend([], first);
    IndicesAppend([first], Restart(list));
    assert [] + [first] == [first] && [first] + [Restart(list)] == [first, Restart(list)];
  }

  /** A run of one batch and one restart, as `Replication` runs it. */
  ghost predicate OneBatchRun(states: seq<Replica>, evs: seq<EntityUpdateEvent>, effect: Effect, run: seq<Turn>,
                              list: seq<FolderInfo>) {
    && Handles(states, [EntityUpdateBatch("", "", evs)], [effect], run)
    && |run| == 2 && run[1] == Restart(list) && Indices(run) == [0]
  }

  lemma OneThenRestart(before: Replica, evs: seq<EntityUpdateEvent>, effect: Effect, list: seq<FolderInfo>, b: Backend,
                       after: Replica)
    returns (states: seq<Replica>, run: seq<Turn>)
    requires HandledAlone(before, evs, effect, list, b, after)
    ensures states == [before, after, Restarted(after, list)] && OneBatchRun(states, evs, effect, run, list)
    ensures Fold(before.members, [effect]) == after.members
  {
    var a, batch := Application(0, list, b, []), EntityUpdateBatch("", "", evs);
    states, run := [before, after, Restarted(after, list)], [Replication.Apply(a), Restart(list)];
    assert Turns(states[0], run[0], states[1], [batch], [effect]);
    assert Turns(states[1], run[1], states[2], [batch], [effect]);
    HandledIsEffect(before, batch, effect, a, after);
    assert [effect][..0] == [];
    OneIndex(a, list);
  }

  /**
   * A CREATE that leaves the mail in its old folder as well splits memory from disk: applied once, the log lists the
   * mail in both folders, but a restart finds only the latest one.
   */
  lemma RestartLosesSecondFolder(m: MailId, here: FolderInfo, there: FolderInfo, b: Backend)
    returns (states: seq<Replica>, evs: seq<EntityUpdateEvent>, effect: Effect, run: seq<Turn>)
    requires MailSetEntryId.IsMailId(m) && here.id != there.id && here.entriesListId != there.entriesListId
    ensures OneBatchRun(states, evs, effect, run, [here, there])
    ensures Agrees(states[0]) && states[0].members == {(here.id, m)}
    ensures Fold(states[0].members, [effect]) == {(here.id, m), (there.id, m)}
    ensures states[2].members == {(there.id, m)}
  {
    var list, before := [here, there], Place(TwoFolders(here, there), here.id, m);
    evs, effect := [EntryEvent(there, m, Create, None)], Effect(None, {(there.id, m)}, {}, {});
    FiledTwice(m, here, there);
    assert (here.id, m) in before.members;
    TwoRoutes(here, there);
    EntryEventPair(list, there, m, Create, None);
    CachedCreate(before, list, evs[0], there.id, m, b);
    states, run := OneThenRestart(before, evs, effect, list, b, Place(before, there.id, m));
  }

  /**
   * So do two CREATEs of a new mail in one batch, although each is a first placement: one pass lists both folders, a
   * restart finds only that of the last CREATE.
   */
  lemma TwoCreatesLoseOne(m: MailId, here: FolderInfo, there: FolderInfo, payload: string, b: Backend)
    returns (states: seq<Replica>, evs: seq<EntityUpdateEvent>, effect: Effect, run: seq<Turn>)
    requires MailSetEntryId.IsMailId(m) && here.id != there.id && here.entriesListId != there.entriesListId
    requires Loads(EntryEvent(here, m, Create, Some(payload)), m, b)
    ensures evs == [EntryEvent(here, m, Create, Some(payload)), EntryEvent(there, m, Create, Some(payload))]
    ensures OneBatchRun(states, evs, effect, run, [here, there])
    ensures Agrees(states[0]) && states[0].members == {}
    ensures Fold(states[0].members, [effect]) == {(here.id, m), (there.id, m)}
    ensures states[2].members == {(there.id, m)}
  {
    var list, before := [here, there], TwoFolders(here, there);
    evs := [EntryEvent(here, m, Create, Some(payload)), EntryEvent(there, m, Create, Some(payload))];
    effect := Effect(None, {(here.id, m), (there.id, m)}, {}, {});
    FiledTwice(m, here, there);
    TwoRoutes(here, there);
    EntryEventPair(list, here, m, Create, Some(payload));
    EntryEventPair(list, there, m, Create, Some(payload));
    TwoCreates(before, list, evs[0], evs[1], here.id, there.id, m, b);
    states, run := OneThenRestart(before, evs, effect, list, b, Place(Place(before, here.id, m), there.id, m));
  }

  // ----- removed and created again -----

  /** What the two events mean on the wire: the pair goes and comes back. */
  lemma DropAddMeanings(f: FolderInfo, m: MailId, b: Backend)
    requires MailSetEntryId.IsMailId(m)
    ensures Meanings([EntryEvent(f, m, Delete, None), EntryEvent(f, m, Create, None)], RoutesOf([f]), b)
            == [Drop((f.id, m)), Add((f.id, m))]
  {
    OneRoute(f);
    EntryEventPair([f], f, m, Delete, None);
    EntryEventPair([f], f, m, Create, None);
  }

  /**
   * A DELETE and then a CREATE of one pair, in one batch: the wire order ends with the mail in its folder, the handler
   * without it.
   */
  lemma RecreatedMailIsLost(r: Replica, f: FolderInfo, m: MailId, b: Backend) returns (batch: EntityUpdateBatch)
    requires MailSetEntryId.IsMailId(m) && (f.id, m) in r.members
    ensures var p := (f.id, m);
            && AllResolve(r, [f], batch, b)
            && Meanings(batch.updates, RoutesOf([f]), b) == [Drop(p), Add(p)]
            && p in Run(r.members, Meanings(batch.updates, RoutesOf([f]), b))
            && p !in AfterBatch(r, [f], batch, b, []).members
  {
    var del, add := EntryEvent(f, m, Delete, None), EntryEvent(f, m, Create, None);
    batch := EntityUpdateBatch("", "", [del, add]);
    OneRoute(f);
    EntryEventPair([f], f, m, Delete, None);
    EntryEventPair([f], f, m, Create, None);
    TwoBuckets(del, add);
    DropAddMeanings(f, m, b);
    CachedDropAdd(r, f, m, del, add, b);
    assert [Drop((f.id, m)), Add((f.id, m))][..1] == [Drop((f.id, m))];
  }

  lemma CachedDropAdd(r: Replica, f: FolderInfo, m: MailId, del: EntityUpdateEvent, add: EntityUpdateEvent, b: Backend)
    requires (f.id, m) in r.members && IsEntryDelete(del) && IsEntryCreate(add)
    requires EntryPair(del, RoutesOf([f])) == EntryPair(add, RoutesOf([f])) == Some((f.id, m))
    ensures var batch := EntityUpdateBatch("", "", [del, add]);
            && AllResolve(r, [f], batch, b)
            && (f.id, m) !in AfterBatch(r, [f], batch, b, []).members
  {
    var batch := EntityUpdateBatch("", "", [del, add]);
    TwoBuckets(del, add);
    assert Somewhere(r.members, m);
    CreateOne(Creating(r, map[], {}), add, RoutesOf([f]), b);
    BatchIsEffect(r, [f], batch, b, []);
    assert del in Buckets(batch.updates).entryDeletes;
  }
}
