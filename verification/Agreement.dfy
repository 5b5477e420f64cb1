/**
 * Crash-restart agreement: disk rows and memory describe the same mail-to-folder map, so that reloading every
 * known folder after a crash rebuilds the membership that was lost.
 */
module Agreement {
  import opened Wrappers
  import opened MailTypes
  import opened ReplicaSpec
  import opened Resolution

  /** A mail is listed in a folder exactly when its row names that folder. */
  ghost predicate Agrees(r: Replica) {
    && (forall f, m :: (f, m) in r.members <==> m in r.rows && r.rows[m] == f)
    && (forall p :: p in r.members ==> p.0 in r.keys)
  }

  // ----- creates -----

  /** What the server hands out for a CREATE is the mail the entry id names. */
  ghost predicate Honest(pending: Pending, evs: seq<EntityUpdateEvent>, b: Backend) {
    && (forall m :: m in pending ==> pending[m].mail.id == m)
    && (forall ev :: ev in evs && EntryMail(ev).Some? && ResolvedEntry(b, ev).Some? ==>
          var id := ResolvedEntry(b, ev).value;
          var answer := b.loadMail(id.0, id.1);
          answer.Ok? && answer.value.Some? ==> answer.value.value.id == EntryMail(ev).value)
  }

  /** Whether the CREATE places its mail: it may also be given up, or name a mail that is gone. */
  ghost predicate Places(c: Creating, ev: EntityUpdateEvent, routes: Routes, b: Backend) {
    && EntryPair(ev, routes).Some?
    && var m := EntryPair(ev, routes).value.1;
       || Somewhere(c.replica.members, m)
       || m in c.pending
       || (ResolvedEntry(b, ev).Some?
           && var id := ResolvedEntry(b, ev).value;
              var answer := b.loadMail(id.0, id.1);
              answer.Ok? && answer.value.Some?)
  }

  ghost function Placed(c: Creating, evs: seq<EntityUpdateEvent>, routes: Routes, b: Backend): set<Pair> {
    if evs == [] then {}
    else
      var n := |evs| - 1;
      Placed(c, evs[..n], routes, b)
      + if Places(CreateAll(c, evs[..n], routes, b), evs[n], routes, b) then {EntryPair(evs[n], routes).value} else {}
  }

  function Retarget(targets: map<MailId, FolderId>, placed: Option<Pair>): map<MailId, FolderId> {
    if placed.Some? then targets[placed.value.1 := placed.value.0] else targets
  }

  /** The folder of the last CREATE that places each mail. */
  ghost function Targets(c: Creating, evs: seq<EntityUpdateEvent>, routes: Routes, b: Backend): map<MailId, FolderId> {
    if evs == [] then map[]
    else
      var n := |evs| - 1;
      Retarget(Targets(c, evs[..n], routes, b),
               if Places(CreateAll(c, evs[..n], routes, b), evs[n], routes, b) then EntryPair(evs[n], routes) else None)
  }

  /** `after` is `before` with the mails of `placed` re-filed. */
  ghost predicate Refiled(before: Replica, after: Replica, placed: set<Pair>) {
    && after.members == before.members + placed
    && (forall p :: p in placed ==> p.0 in after.keys)
    && before.keys <= after.keys
    && (forall m :: Somewhere(placed, m) ==> m in after.rows && (after.rows[m], m) in placed)
    && (forall m :: !Somewhere(placed, m) ==> (m in after.rows <==> m in before.rows))
    && (forall m :: !Somewhere(placed, m) && m in before.rows ==> after.rows[m] == before.rows[m])
  }

  lemma RefiledOne(before: Replica, mid: Replica, after: Replica, placed: set<Pair>, f: FolderId, m: MailId)
    requires Refiled(before, mid, placed)
    requires after.members == mid.members + {(f, m)} && after.keys == mid.keys + {f} && after.rows == mid.rows[m := f]
    ensures Refiled(before, after, placed + {(f, m)})
  {
    var more := placed + {(f, m)};
    assert (f, m) in more;
    forall k ensures Somewhere(more, k) <==> Somewhere(placed, k) || k == m {
      if Somewhere(placed, k) {
        var g :| (g, k) in placed;
        assert (g, k) in more;
      }
    }
  }

  lemma CreateStepFiles(c: Creating, ev: EntityUpdateEvent, routes: Routes, b: Backend)
    requires Honest(c.pending, [ev], b)
    ensures var next := CreateStep(c, ev, routes, b);
            && next.pending.Keys <= c.pending.Keys && (forall m :: m in next.pending ==> next.pending[m] == c.pending[m])
            && if Places(c, ev, routes, b) then
                 var (f, m) := EntryPair(ev, routes).value;
                 && next.replica.members == c.replica.members + {(f, m)}
                 && next.replica.keys == c.replica.keys + {f}
                 && next.replica.rows == c.replica.rows[m := f]
               else
                 next.replica == c.replica
  {
    assert ev in [ev];
  }

  /** The CREATEs of a batch re-file exactly the mails they place. */
  lemma {:induction false} CreatesRefile(r: Replica, pending: Pending, evs: seq<EntityUpdateEvent>, routes: Routes,
                                         b: Backend)
    requires Honest(pending, evs, b)
    ensures var c := CreateAll(Creating(r, pending, {}), evs, routes, b);
            && c.pending.Keys <= pending.Keys && (forall m :: m in c.pending ==> c.pending[m] == pending[m])
            && Refiled(r, c.replica, Placed(Creating(r, pending, {}), evs, routes, b))
  {
    var start := Creating(r, pending, {});
    if evs != [] {
      var n := |evs| - 1;
      var ev := evs[n];
      assert evs == evs[..n] + [ev];
      CreatesRefile(r, pending, evs[..n], routes, b);
      var c := CreateAll(start, evs[..n], routes, b);
      CreateStepFiles(c, ev, routes, b);
      if Places(c, ev, routes, b) {
        var (f, m) := EntryPair(ev, routes).value;
        RefiledOne(r, c.replica, CreateStep(c, ev, routes, b).replica, Placed(start, evs[..n], routes, b), f, m);
      }
    }
  }

  /** The row of a mail names the folder of the last CREATE that places it. */
  lemma {:induction false} CreatesTarget(r: Replica, pending: Pending, evs: seq<EntityUpdateEvent>, routes: Routes,
                                         b: Backend)
    requires Honest(pending, evs, b)
    ensures var start := Creating(r, pending, {});
            CreateAll(start, evs, routes, b).replica.rows == r.rows + Targets(start, evs, routes, b)
  {
    if evs != [] {
      var n := |evs| - 1;
      assert evs == evs[..n] + [evs[n]];
      CreatesTarget(r, pending, evs[..n], routes, b);
      HonestLast(r, pending, evs, routes, b);
      var start := Creating(r, pending, {});
      TargetStep(CreateAll(start, evs[..n], routes, b), evs[n], routes, b, r.rows,
                 Targets(start, evs[..n], routes, b));
    }
  }

  lemma HonestLast(r: Replica, pending: Pending, evs: seq<EntityUpdateEvent>, routes: Routes, b: Backend)
    requires evs != [] && Honest(pending, evs, b)
    ensures Honest(CreateAll(Creating(r, pending, {}), evs[..|evs| - 1], routes, b).pending, [evs[|evs| - 1]], b)
  {
    var n := |evs| - 1;
    assert forall ev :: ev in evs[..n] ==> ev in evs;
    CreatesRefile(r, pending, evs[..n], routes, b);
    assert evs[n] in evs;
  }

  lemma RowsRetarget(rows: map<MailId, FolderId>, targets: map<MailId, FolderId>, f: FolderId, m: MailId)
    ensures (rows + targets)[m := f] == rows + targets[m := f]
  {
  }

  lemma TargetStep(c: Creating, ev: EntityUpdateEvent, routes: Routes, b: Backend, rows: map<MailId, FolderId>,
                   targets: map<MailId, FolderId>)
    requires Honest(c.pending, [ev], b) && c.replica.rows == rows + targets
    ensures CreateStep(c, ev, routes, b).replica.rows
            == rows + Retarget(targets, if Places(c, ev, routes, b) then EntryPair(ev, routes) else None)
  {
    CreateStepFiles(c, ev, routes, b);
    if Places(c, ev, routes, b) {
      RowsRetarget(rows, targets, EntryPair(ev, routes).value.0, EntryPair(ev, routes).value.1);
    }
  }

  /** The mails with a target are those placed, and each is placed in its target. */
  ghost predicate Targeted(placed: set<Pair>, targets: map<MailId, FolderId>) {
    (forall p :: p in placed ==> p.1 in targets) && forall m :: m in targets ==> (targets[m], m) in placed
  }

  lemma TargetedStep(placed: set<Pair>, targets: map<MailId, FolderId>, f: FolderId, m: MailId)
    requires Targeted(placed, targets)
    ensures Targeted(placed + {(f, m)}, targets[m := f])
  {
  }

  lemma {:induction false} TargetsPlaced(c: Creating, evs: seq<EntityUpdateEvent>, routes: Routes, b: Backend)
    ensures Targeted(Placed(c, evs, routes, b), Targets(c, evs, routes, b))
  {
    if evs != [] {
      var n := |evs| - 1;
      TargetsPlaced(c, evs[..n], routes, b);
      if Places(CreateAll(c, evs[..n], routes, b), evs[n], routes, b) {
        var (f, m) := EntryPair(evs[n], routes).value;
        TargetedStep(Placed(c, evs[..n], routes, b), Targets(c, evs[..n], routes, b), f, m);
      }
    }
  }

  // ----- deletes and mail events -----

  /** Rows survive deletes unless their mail was mentioned and is left nowhere. */
  ghost predicate Trimmed(before: Replica, after: Replica, dropped: set<Pair>) {
    && after.keys == before.keys
    && after.members == before.members - dropped
    && (forall m :: m in after.rows <==>
          m in before.rows && (Somewhere(dropped, m) ==> Somewhere(after.members, m)))
    && (forall m :: m in after.rows ==> after.rows[m] == before.rows[m])
  }

  lemma TrimmedOne(before: Replica, mid: Replica, dropped: set<Pair>, f: FolderId, m: MailId)
    requires Trimmed(before, mid, dropped)
    ensures Trimmed(before, Unplace(mid, f, m), dropped + {(f, m)})
  {
    var after, more := Unplace(mid, f, m), dropped + {(f, m)};
    assert (f, m) in more;
    assert after.members == before.members - more;
    forall k ensures Somewhere(more, k) <==> Somewhere(dropped, k) || k == m {
      if Somewhere(dropped, k) {
        var g :| (g, k) in dropped;
        assert (g, k) in more;
      }
    }
    forall k ensures k != m ==> (Somewhere(after.members, k) <==> Somewhere(mid.members, k)) {
      if k != m && Somewhere(mid.members, k) {
        var g :| (g, k) in mid.members;
        assert (g, k) in after.members;
      }
      if Somewhere(after.members, k) {
        var g :| (g, k) in after.members;
        assert (g, k) in mid.members;
      }
    }
    if Somewhere(after.members, m) {
      var g :| (g, m) in after.members;
      assert (g, m) in mid.members;
    }
  }

  lemma {:induction false} DeletesTrim(r: Replica, evs: seq<EntityUpdateEvent>, routes: Routes)
    ensures Trimmed(r, DeleteAll(r, evs, routes), EntryPairs(evs, routes))
  {
    if evs != [] {
      var n := |evs| - 1;
      var pair := EntryPair(evs[n], routes);
      assert evs == evs[..n] + [evs[n]];
      DeletesTrim(r, evs[..n], routes);
      assert EntryPairs(evs, routes) == EntryPairs(evs[..n], routes) + if pair.Some? then {pair.value} else {};
      if pair.Some? {
        TrimmedOne(r, DeleteAll(r, evs[..n], routes), EntryPairs(evs[..n], routes), pair.value.0, pair.value.1);
      }
    }
  }

  lemma {:induction false} MailEventsErase(r: Replica, evs: seq<EntityUpdateEvent>, b: Backend)
    ensures var after := MailAll(r, evs, b);
            && after.keys == r.keys
            && after.members == (set p | p in r.members && p.1 !in ErasedMails(evs, b))
            && after.rows == r.rows - ErasedMails(evs, b)
  {
    if evs != [] {
      var n := |evs| - 1;
      assert evs == evs[..n] + [evs[n]];
      MailEventsErase(r, evs[..n], b);
      assert ErasedMails(evs, b) == ErasedMails(evs[..n], b) + if Erases(evs[n], b) then {evs[n].instanceId} else {};
    }
  }

  // ----- the whole batch -----

  ghost predicate Leaves(all: set<Pair>, dropped: set<Pair>, m: MailId) {
    forall q :: q in all && q.1 == m ==> q in dropped
  }

  ghost predicate LeavesOnly(all: set<Pair>, dropped: set<Pair>, m: MailId, t: FolderId) {
    (t, m) !in dropped && forall q :: q in all && q.1 == m && q.0 != t ==> q in dropped
  }

  /**
   * `all` is every pair that was there or that the batch places. Each mail placed and not erased is deleted from all
   * of its folders, or from all but the target of its last CREATE.
   */
  ghost predicate OneHome(all: set<Pair>, targets: map<MailId, FolderId>, dropped: set<Pair>, erased: set<MailId>) {
    forall m :: m in targets && m !in erased ==> Leaves(all, dropped, m) || LeavesOnly(all, dropped, m, targets[m])
  }

  lemma EventsAgreeIff(r: Replica, created: Replica, trimmed: Replica, after: Replica, placed: set<Pair>,
                       targets: map<MailId, FolderId>, dropped: set<Pair>, erased: set<MailId>)
    requires Agrees(r) && Refiled(r, created, placed) && Trimmed(created, trimmed, dropped)
    requires created.rows == r.rows + targets && Targeted(placed, targets)
    requires after.keys == trimmed.keys && after.rows == trimmed.rows - erased
    requires after.members == set p | p in trimmed.members && p.1 !in erased
    ensures Agrees(after) <==> OneHome(r.members + placed, targets, dropped, erased)
  {
    var all := r.members + placed;
    if Agrees(after) {
      forall m | m in targets && m !in erased
        ensures Leaves(all, dropped, m) || LeavesOnly(all, dropped, m, targets[m])
      {
        HomeNeeded(created, trimmed, after, all, dropped, erased, m);
      }
    }
    if OneHome(all, targets, dropped, erased) {
      forall f, m ensures (f, m) in after.members <==> m in after.rows && after.rows[m] == f {
        if m in targets {
          PlacedAgrees(created, trimmed, after, all, targets[m], dropped, erased, f, m);
        } else {
          OtherAgrees(r, created, trimmed, after, placed, dropped, erased, f, m);
        }
      }
    }
  }

  /** Agreement leaves a mail at most in the folder its row names. */
  lemma HomeNeeded(created: Replica, trimmed: Replica, after: Replica, all: set<Pair>, dropped: set<Pair>,
                   erased: set<MailId>, m: MailId)
    requires Agrees(after) && created.members == all && Trimmed(created, trimmed, dropped) && m in created.rows
    requires after.rows == trimmed.rows - erased && m !in erased
    requires after.members == set p | p in trimmed.members && p.1 !in erased
    ensures Leaves(all, dropped, m) || LeavesOnly(all, dropped, m, created.rows[m])
  {
    forall q | q in all && q.1 == m && q !in dropped ensures q.0 == created.rows[m] {
      assert (q.0, q.1) in after.members;
    }
  }

  lemma PlacedAgrees(created: Replica, trimmed: Replica, after: Replica, all: set<Pair>, t: FolderId,
                     dropped: set<Pair>, erased: set<MailId>, f: FolderId, m: MailId)
    requires created.members == all && Trimmed(created, trimmed, dropped) && m in created.rows && created.rows[m] == t
    requires (t, m) in all && after.rows == trimmed.rows - erased
    requires after.members == set p | p in trimmed.members && p.1 !in erased
    requires m !in erased ==> Leaves(all, dropped, m) || LeavesOnly(all, dropped, m, t)
    ensures (f, m) in after.members <==> m in after.rows && after.rows[m] == f
  {
    if m !in erased {
      if (t, m) in dropped {
        assert Somewhere(dropped, m);
        assert forall g :: (g, m) !in trimmed.members;
      } else {
        assert (t, m) in trimmed.members && Somewhere(trimmed.members, m);
      }
    }
  }

  lemma OtherAgrees(r: Replica, created: Replica, trimmed: Replica, after: Replica, placed: set<Pair>,
                    dropped: set<Pair>, erased: set<MailId>, f: FolderId, m: MailId)
    requires Agrees(r) && Refiled(r, created, placed) && Trimmed(created, trimmed, dropped) && !Somewhere(placed, m)
    requires after.rows == trimmed.rows - erased
    requires after.members == set p | p in trimmed.members && p.1 !in erased
    ensures (f, m) in after.members <==> m in after.rows && after.rows[m] == f
  {
    assert forall g :: (g, m) in created.members <==> (g, m) in r.members;
    if m !in erased && m in r.rows {
      var g := r.rows[m];
      assert (g, m) in r.members && created.rows[m] == g;
      if (g, m) in dropped {
        assert Somewhere(dropped, m);
      } else {
        assert (g, m) in trimmed.members && Somewhere(trimmed.members, m);
      }
    }
  }

  /** A folder-list refresh drops memory and rows of the same folders. */
  lemma RefreshAgrees(r: Replica, known: set<FolderId>)
    requires Agrees(r)
    ensures Agrees(Restrict(r, known))
  {
  }

  /** A full sync keeps agreement exactly when the listing names no mail that memory shows in another folder. */
  lemma RelistAgreesIff(r: Replica, f: FolderId, listing: set<MailId>)
    requires Agrees(r)
    ensures Agrees(Relist(r, f, listing)) <==> forall p :: p in r.members && p.1 in listing ==> p.0 == f
  {
    var after := Relist(r, f, listing);
    if Agrees(after) {
      forall p | p in r.members && p.1 in listing ensures p.0 == f {
        assert (p.0, p.1) in r.members && (f, p.1) in after.members;
        assert p.0 != f ==> (p.0, p.1) in after.members;
      }
    }
  }

  ghost function PlacedBy(r: Replica, list: seq<FolderInfo>, batch: EntityUpdateBatch, b: Backend): set<Pair> {
    var k := Buckets(batch.updates);
    Placed(Creating(Refreshed(r, batch, b), Predecrypted(b, k.mailCreates), {}), k.entryCreates,
           RoutesOf(ListFor(list, batch, b)), b)
  }

  ghost function TargetsBy(r: Replica, list: seq<FolderInfo>, batch: EntityUpdateBatch, b: Backend)
    : map<MailId, FolderId>
  {
    var k := Buckets(batch.updates);
    Targets(Creating(Refreshed(r, batch, b), Predecrypted(b, k.mailCreates), {}), k.entryCreates,
            RoutesOf(ListFor(list, batch, b)), b)
  }

  ghost function DroppedBy(list: seq<FolderInfo>, batch: EntityUpdateBatch, b: Backend): set<Pair> {
    EntryPairs(Buckets(batch.updates).entryDeletes, RoutesOf(ListFor(list, batch, b)))
  }

  ghost function ErasedBy(batch: EntityUpdateBatch, b: Backend): set<MailId> {
    ErasedMails(Buckets(batch.updates).mailEvents, b)
  }

  ghost predicate HonestCreates(batch: EntityUpdateBatch, b: Backend) {
    var k := Buckets(batch.updates);
    Honest(Predecrypted(b, k.mailCreates), k.entryCreates, b)
  }

  /** The batch leaves each mail it places without a folder, or in one folder only: that of the mail's last CREATE. */
  ghost predicate Settles(r: Replica, list: seq<FolderInfo>, batch: EntityUpdateBatch, b: Backend) {
    OneHome(Refreshed(r, batch, b).members + PlacedBy(r, list, batch, b), TargetsBy(r, list, batch, b),
            DroppedBy(list, batch, b), ErasedBy(batch, b))
  }

  /**
   * Crash-restart agreement through the events of any batch: disk and memory still describe the same map if and only
   * if each mail the batch places, and does not erase, is deleted by the batch from all of its folders, or from all
   * but the target of its last CREATE.
   */
  lemma BatchAgreesIff(r: Replica, list: seq<FolderInfo>, batch: EntityUpdateBatch, b: Backend)
    requires Agrees(r) && HonestCreates(batch, b)
    ensures Agrees(AfterEvents(r, list, batch, b)) <==> Settles(r, list, batch, b)
  {
    var k := Buckets(batch.updates);
    var routes := RoutesOf(ListFor(list, batch, b));
    var start := Refreshed(r, batch, b);
    var creating := Creating(start, Predecrypted(b, k.mailCreates), {});
    if Refreshes(batch, b) {
      RefreshAgrees(r, FolderIds(b.listFolders.value));
    }
    CreatesRefile(start, creating.pending, k.entryCreates, routes, b);
    CreatesTarget(start, creating.pending, k.entryCreates, routes, b);
    TargetsPlaced(creating, k.entryCreates, routes, b);
    var created := AfterCreates(r, list, batch, b).replica;
    DeletesTrim(created, k.entryDeletes, routes);
    var trimmed := DeleteAll(created, k.entryDeletes, routes);
    MailEventsErase(trimmed, k.mailEvents, b);
    EventsAgreeIff(start, created, trimmed, MailAll(trimmed, k.mailEvents, b), PlacedBy(r, list, batch, b),
                   TargetsBy(r, list, batch, b), EntryPairs(k.entryDeletes, routes), ErasedMails(k.mailEvents, b));
  }

  /** At most one CREATE per mail, and none of a pair the batch also deletes. */
  ghost predicate OneTarget(placed: set<Pair>, dropped: set<Pair>) {
    && (forall p, q :: p in placed && q in placed && p.1 == q.1 ==> p == q)
    && placed !! dropped
  }

  /** Each mail a CREATE places leaves every other folder that held it, in the same batch. */
  ghost predicate Moves(members: set<Pair>, placed: set<Pair>, dropped: set<Pair>, erased: set<MailId>) {
    forall p, q :: p in placed && q in members && q.1 == p.1 && q != p ==> q in dropped || q.1 in erased
  }

  lemma OneHomeMoves(members: set<Pair>, placed: set<Pair>, targets: map<MailId, FolderId>, dropped: set<Pair>,
                     erased: set<MailId>)
    requires OneTarget(placed, dropped) && Targeted(placed, targets)
    ensures OneHome(members + placed, targets, dropped, erased) <==> Moves(members, placed, dropped, erased)
  {
    var all := members + placed;
    if Moves(members, placed, dropped, erased) {
      forall m | m in targets && m !in erased ensures LeavesOnly(all, dropped, m, targets[m]) {
        forall q | q in all && q.1 == m && q.0 != targets[m] ensures q in dropped {
          assert q != (targets[m], m);
        }
      }
    }
    if OneHome(all, targets, dropped, erased) {
      forall p, q | p in placed && q in members && q.1 == p.1 && q != p ensures q in dropped || q.1 in erased {
        var t := (targets[p.1], p.1);
        assert t == p && t in all && t !in dropped;
        assert q == (q.0, q.1);
      }
    }
  }

  /** For at most one CREATE per mail: every CREATE is a first placement or a move whose source the batch deletes. */
  lemma MoveShapedAgreesIff(r: Replica, list: seq<FolderInfo>, batch: EntityUpdateBatch, b: Backend)
    requires Agrees(r) && HonestCreates(batch, b)
    requires OneTarget(PlacedBy(r, list, batch, b), DroppedBy(list, batch, b))
    ensures Agrees(AfterEvents(r, list, batch, b))
            <==> Moves(Refreshed(r, batch, b).members, PlacedBy(r, list, batch, b), DroppedBy(list, batch, b),
                       ErasedBy(batch, b))
  {
    var k := Buckets(batch.updates);
    BatchAgreesIff(r, list, batch, b);
    TargetsPlaced(Creating(Refreshed(r, batch, b), Predecrypted(b, k.mailCreates), {}), k.entryCreates,
                  RoutesOf(ListFor(list, batch, b)), b);
    OneHomeMoves(Refreshed(r, batch, b).members, PlacedBy(r, list, batch, b), TargetsBy(r, list, batch, b),
                 DroppedBy(list, batch, b), ErasedBy(batch, b));
  }

  /** Every fallback listing is consistent with where memory shows the listed mails when it is applied. */
  ghost predicate ConsistentListings(r: Replica, order: seq<string>, routes: Routes, b: Backend) {
    forall i :: 0 <= i < |order| && order[i] in routes && b.folderMails(routes[order[i]]).Ok? ==>
      forall p :: p in RelistAll(r, order[..i], routes, b).members
                  && p.1 in MailIds(b.folderMails(routes[order[i]]).value)
        ==> p.0 == routes[order[i]].id
  }

  lemma {:induction false} FallbacksAgree(r: Replica, order: seq<string>, routes: Routes, b: Backend)
    requires Agrees(r) && ConsistentListings(r, order, routes, b)
    ensures Agrees(RelistAll(r, order, routes, b))
  {
    if order != [] {
      var n := |order| - 1;
      assert ConsistentListings(r, order[..n], routes, b) by {
        assert forall i :: 0 <= i < n ==> order[..n][i] == order[i] && order[..n][..i] == order[..i];
      }
      FallbacksAgree(r, order[..n], routes, b);
      if order[n] in routes && b.folderMails(routes[order[n]]).Ok? {
        RelistAgreesIff(RelistAll(r, order[..n], routes, b), routes[order[n]].id,
                        MailIds(b.folderMails(routes[order[n]]).value));
      }
    }
  }

  /** One batch as the handler meets it, with what the server and the fallback order contributed. */
  datatype Input = Input(list: seq<FolderInfo>, batch: EntityUpdateBatch, backend: Backend, order: seq<string>)

  /** A batch that leaves each mail in one folder at most, with truthful answers and consistent listings. */
  ghost predicate WellBehaved(r: Replica, i: Input) {
    && HonestCreates(i.batch, i.backend)
    && Settles(r, i.list, i.batch, i.backend)
    && ConsistentListings(AfterEvents(r, i.list, i.batch, i.backend), i.order,
                          RoutesOf(ListFor(i.list, i.batch, i.backend)), i.backend)
  }

  /** What memory lists after a restart: each known folder, reloaded from the rows that name it. */
  ghost function Reloaded(r: Replica, list: seq<FolderInfo>): set<Pair> {
    set m | m in r.rows && r.rows[m] in FolderIds(list) :: (r.rows[m], m)
  }

  lemma ReloadRestores(r: Replica, list: seq<FolderInfo>)
    requires Agrees(r) && r.keys <= FolderIds(list)
    ensures Reloaded(r, list) == r.members
  {
    forall p | p in r.members ensures p in Reloaded(r, list) {
      assert (p.0, p.1) in r.members;
    }
    forall p | p in Reloaded(r, list) ensures p in r.members {
      assert (r.rows[p.1], p.1) in r.members;
    }
  }

  /** Every row and every pair lies in a folder that memory has. */
  ghost predicate Housed(r: Replica) {
    && (forall m :: m in r.rows ==> r.rows[m] in r.keys)
    && (forall p :: p in r.members ==> p.0 in r.keys)
  }

  lemma ReloadRestoresIff(r: Replica, list: seq<FolderInfo>)
    requires Housed(r) && r.keys <= FolderIds(list)
    ensures Reloaded(r, list) == r.members <==> Agrees(r)
  {
    if Agrees(r) {
      ReloadRestores(r, list);
    }
    if Reloaded(r, list) == r.members {
      forall f, m ensures (f, m) in r.members <==> m in r.rows && r.rows[m] == f {
        assert (f, m) in Reloaded(r, list) <==> m in r.rows && r.rows[m] == f;
      }
    }
  }

  lemma RefiledHoused(before: Replica, after: Replica, placed: set<Pair>)
    requires Housed(before) && Refiled(before, after, placed)
    ensures Housed(after)
  {
    forall m | m in after.rows ensures after.rows[m] in after.keys {
      if Somewhere(placed, m) {
        assert (after.rows[m], m) in placed;
      }
    }
  }

  lemma EventsHoused(r: Replica, list: seq<FolderInfo>, batch: EntityUpdateBatch, b: Backend)
    requires Housed(r) && HonestCreates(batch, b)
    ensures Housed(AfterEvents(r, list, batch, b))
  {
    var k := Buckets(batch.updates);
    var routes := RoutesOf(ListFor(list, batch, b));
    var start := Refreshed(r, batch, b);
    assert Housed(start);
    CreatesRefile(start, Predecrypted(b, k.mailCreates), k.entryCreates, routes, b);
    var created := AfterCreates(r, list, batch, b).replica;
    RefiledHoused(start, created, PlacedBy(r, list, batch, b));
    DeletesTrim(created, k.entryDeletes, routes);
    MailEventsErase(DeleteAll(created, k.entryDeletes, routes), k.mailEvents, b);
  }

  /**
   * The process is lost right after the events of any batch: a restart that lists the folders memory had shows the
   * same mails in the same folders if and only if the batch leaves each mail it places in one folder at most, that of
   * the mail's last CREATE.
   */
  lemma RestartRestoresIff(r: Replica, list: seq<FolderInfo>, batch: EntityUpdateBatch, b: Backend,
                           restart: seq<FolderInfo>)
    requires Agrees(r) && HonestCreates(batch, b)
    requires AfterEvents(r, list, batch, b).keys <= FolderIds(restart)
    ensures Reloaded(AfterEvents(r, list, batch, b), restart) == AfterEvents(r, list, batch, b).members
            <==> Settles(r, list, batch, b)
  {
    assert forall m :: m in r.rows ==> (r.rows[m], m) in r.members;
    EventsHoused(r, list, batch, b);
    ReloadRestoresIff(AfterEvents(r, list, batch, b), restart);
    BatchAgreesIff(r, list, batch, b);
  }

  /**
   * Over every run of well-behaved batches, crash at any point between two of them: reloading all known folders
   * rebuilds the membership memory had.
   */
  lemma {:induction false} CrashRestartAgrees(states: seq<Replica>, inputs: seq<Input>, n: nat, list: seq<FolderInfo>)
    requires |states| == |inputs| + 1 && n < |states| && Agrees(states[0])
    requires forall i :: 0 <= i < |inputs| ==> WellBehaved(states[i], inputs[i])
    requires forall i :: 0 <= i < |inputs| ==>
               states[i + 1] == AfterBatch(states[i], inputs[i].list, inputs[i].batch, inputs[i].backend,
                                           inputs[i].order)
    requires states[n].keys <= FolderIds(list)
    ensures Agrees(states[n]) && Reloaded(states[n], list) == states[n].members
  {
    RunAgrees(states, inputs, n);
    ReloadRestores(states[n], list);
  }

  lemma WellBehavedAgrees(r: Replica, i: Input)
    requires Agrees(r) && WellBehaved(r, i)
    ensures Agrees(AfterBatch(r, i.list, i.batch, i.backend, i.order))
  {
    BatchAgreesIff(r, i.list, i.batch, i.backend);
    FallbacksAgree(AfterEvents(r, i.list, i.batch, i.backend), i.order, RoutesOf(ListFor(i.list, i.batch, i.backend)),
                   i.backend);
  }

  lemma {:induction false} RunAgrees(states: seq<Replica>, inputs: seq<Input>, n: nat)
    requires |states| == |inputs| + 1 && n < |states| && Agrees(states[0])
    requires forall i :: 0 <= i < |inputs| ==> WellBehaved(states[i], inputs[i])
    requires forall i :: 0 <= i < |inputs| ==>
               states[i + 1] == AfterBatch(states[i], inputs[i].list, inputs[i].batch, inputs[i].backend,
                                           inputs[i].order)
    ensures Agrees(states[n])
  {
    if n > 0 {
      RunAgrees(states, inputs, n - 1);
      WellBehavedAgrees(states[n - 1], inputs[n - 1]);
    }
  }
}
