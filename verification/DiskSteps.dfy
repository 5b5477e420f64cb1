/** Exactly which batches leave memory and disk with the same folder and the same UID for every mail. */
module DiskSteps {
  import opened Wrappers
  import opened MailTypes
  import opened MailStoreModel
  import opened LocalStoreModel
  import opened ReplicaSpec
  import opened Resolution
  import opened Agreement
  import opened Contents
  import opened BatchRefinement
  import opened Moves
  import opened UidRestart

  // ----- one mail -----

  /** Where memory shows one mail and under which UIDs, and what its row says. */
  datatype Slots = Slots(shown: set<(FolderId, nat)>, row: Option<(FolderId, nat)>)

  function SlotOf(q: (FolderId, StoredMail)): (FolderId, nat) {
    (q.0, q.1.uid)
  }

  ghost function SlotsIn(facts: Facts): Slots {
    Slots(set q | q in facts.shown :: SlotOf(q),
          if facts.row.Some? then Some((facts.row.value.folder, facts.row.value.uid)) else None)
  }

  ghost function SlotsOf(c: Content, m: MailId): Slots {
    SlotsIn(About(c, m))
  }

  /** Memory shows the mail exactly as its row says. */
  ghost predicate InStep(s: Slots) {
    s.shown == if s.row.Some? then {s.row.value} else {}
  }

  lemma SlotsShown(c: Content, m: MailId, f: FolderId, x: StoredMail)
    requires f in c.folders && x in c.folders[f] && x.mail.id == m
    ensures (f, x.uid) in SlotsOf(c, m).shown
  {
    assert (f, x) in About(c, m).shown && SlotOf((f, x)) == (f, x.uid);
  }

  /** Memory and disk are in step if and only if they are for every mail. */
  lemma OnDiskIff(c: Content)
    ensures OnDisk(c.folders, c.table) <==> forall m :: InStep(SlotsOf(c, m))
  {
    if OnDisk(c.folders, c.table) {
      forall m ensures InStep(SlotsOf(c, m)) {
        MailInStep(c, m);
      }
    }
    if forall m :: InStep(SlotsOf(c, m)) {
      forall f, x | f in c.folders && x in c.folders[f] ensures Backed(c.table, f, x) {
        SlotsShown(c, x.mail.id, f, x);
        assert InStep(SlotsOf(c, x.mail.id));
      }
      forall m | m in c.table ensures c.table[m].folder in c.folders && m in Ids(c.folders[c.table[m].folder]) {
        assert InStep(SlotsOf(c, m));
        assert (c.table[m].folder, c.table[m].uid) in SlotsOf(c, m).shown;
      }
    }
  }

  lemma MailInStep(c: Content, m: MailId)
    requires OnDisk(c.folders, c.table)
    ensures InStep(SlotsOf(c, m))
  {
    forall q | q in About(c, m).shown ensures SlotsOf(c, m).row == Some(SlotOf(q)) {
      assert Backed(c.table, q.0, q.1);
    }
    if m in c.table {
      var f := c.table[m].folder;
      var x :| x in c.folders[f] && x.mail.id == m;
      SlotsShown(c, m, f, x);
      assert Backed(c.table, f, x);
    }
  }

  // ----- deletes -----

  /** What DELETEs leave of a mail: its row goes with its last folder. */
  ghost function Trim(s: Slots, m: MailId, dropped: set<Pair>): Slots {
    var left := set q | q in s.shown && (q.0, m) !in dropped;
    Slots(left, if left == {} && Somewhere(dropped, m) then None else s.row)
  }

  lemma LeftSlots(shown: set<(FolderId, StoredMail)>, f: FolderId)
    ensures (set q | q in shown && q.0 != f :: SlotOf(q)) == set p | p in (set q | q in shown :: SlotOf(q)) && p.0 != f
  {
    forall p | p in (set q | q in shown :: SlotOf(q)) && p.0 != f
      ensures p in set q | q in shown && q.0 != f :: SlotOf(q)
    {
      var q :| q in shown && SlotOf(q) == p;
      assert q.0 != f;
    }
  }

  lemma AnywhereSlots(mem: Memory, m: MailId)
    ensures Anywhere(mem, m) <==> ShownOf(mem, m) != {}
  {
    if Anywhere(mem, m) {
      var g :| g in mem && m in Ids(mem[g]);
      var x: StoredMail :| x in mem[g] && x.mail.id == m;
      assert (g, x) in ShownOf(mem, m);
    }
    if ShownOf(mem, m) != {} {
      var q :| q in ShownOf(mem, m);
      assert m in Ids(mem[q.0]);
    }
  }

  lemma RemovedShown(mem: Memory, f: FolderId, m: MailId)
    ensures ShownOf(RemoveFrom(mem, f, m), m) == set q | q in ShownOf(mem, m) && q.0 != f
  {
  }

  lemma UnfiledFacts(c: Content, f: FolderId, m: MailId)
    ensures var facts, after := About(c, m), About(Unfiled(c, f, m), m);
            && after.shown == (set q | q in facts.shown && q.0 != f)
            && after.row == if after.shown == {} then None else facts.row
  {
    RemovedShown(c.folders, f, m);
    AnywhereSlots(RemoveFrom(c.folders, f, m), m);
  }

  lemma UnfiledSlots(c: Content, f: FolderId, m: MailId)
    ensures var s := SlotsOf(c, m);
            var left := set q | q in s.shown && q.0 != f;
            SlotsOf(Unfiled(c, f, m), m) == Slots(left, if left == {} then None else s.row)
  {
    UnfiledFacts(c, f, m);
    LeftSlots(About(c, m).shown, f);
    KeptSlots(About(Unfiled(c, f, m), m).shown, SlotsOf(Unfiled(c, f, m), m).shown);
  }

  lemma KeptSlots(kept: set<(FolderId, StoredMail)>, slots: set<(FolderId, nat)>)
    requires slots == set q | q in kept :: SlotOf(q)
    ensures kept == {} <==> slots == {}
  {
    if kept != {} {
      var q :| q in kept;
      assert SlotOf(q) in slots;
    }
  }

  lemma TrimOne(s: Slots, m: MailId, dropped: set<Pair>, f: FolderId)
    ensures var t := Trim(s, m, dropped);
            var left := set q | q in t.shown && q.0 != f;
            Trim(s, m, dropped + {(f, m)}) == Slots(left, if left == {} then None else t.row)
  {
    assert (f, m) in dropped + {(f, m)};
    assert Somewhere(dropped + {(f, m)}, m);
  }

  lemma TrimOther(s: Slots, m: MailId, dropped: set<Pair>, p: Pair)
    requires p.1 != m
    ensures Trim(s, m, dropped + {p}) == Trim(s, m, dropped)
  {
    var more := dropped + {p};
    if Somewhere(dropped, m) {
      var g :| (g, m) in dropped;
      assert (g, m) in more;
    }
    if Somewhere(more, m) {
      var g :| (g, m) in more;
      assert (g, m) in dropped;
    }
    assert Trim(s, m, more).shown == Trim(s, m, dropped).shown;
  }

  lemma DeleteTrims(before: Content, s: Slots, f: FolderId, k: MailId, m: MailId, dropped: set<Pair>)
    requires SlotsOf(before, m) == Trim(s, m, dropped)
    ensures SlotsOf(Unfiled(before, f, k), m) == Trim(s, m, dropped + {(f, k)})
  {
    if k == m {
      UnfiledSlots(before, f, m);
      TrimOne(s, m, dropped, f);
    } else {
      UnfiledOther(before, f, k, m);
      TrimOther(s, m, dropped, (f, k));
    }
  }

  lemma {:induction false} PairsSnoc(evs: seq<EntityUpdateEvent>, routes: Routes)
    requires evs != []
    ensures var n := |evs| - 1;
            EntryPairs(evs, routes)
            == EntryPairs(evs[..n], routes) + if EntryPair(evs[n], routes).Some? then {EntryPair(evs[n], routes).value} else {}
  {
    assert evs == evs[..|evs| - 1] + [evs[|evs| - 1]];
  }

  lemma {:induction false} DeletesTrimSlots(c: Content, evs: seq<EntityUpdateEvent>, routes: Routes, m: MailId)
    ensures SlotsOf(DeleteSome(c, evs, routes), m) == Trim(SlotsOf(c, m), m, EntryPairs(evs, routes))
  {
    if evs == [] {
      assert Trim(SlotsOf(c, m), m, {}) == SlotsOf(c, m);
    } else {
      var n := |evs| - 1;
      var pair, dropped := EntryPair(evs[n], routes), EntryPairs(evs[..n], routes);
      PairsSnoc(evs, routes);
      DeletesTrimSlots(c, evs[..n], routes, m);
      if pair.Some? {
        DeleteTrims(DeleteSome(c, evs[..n], routes), SlotsOf(c, m), pair.value.0, pair.value.1, m, dropped);
      }
    }
  }

  // ----- mail events -----

  lemma ErasedSlots(c: Content, m: MailId)
    ensures SlotsOf(Erased(c, m), m) == Slots({}, None)
  {
    assert ShownOf(RemoveEverywhere(c.folders, m), m) == {};
  }

  lemma RefreshedSlots(mem: Memory, mail: Mail, p: (FolderId, nat))
    ensures (exists q :: q in ShownOf(Refresh(mem, mail), mail.id) && SlotOf(q) == p)
            <==> exists q :: q in ShownOf(mem, mail.id) && SlotOf(q) == p
  {
    var m, after := mail.id, Refresh(mem, mail);
    if q :| q in ShownOf(after, m) && SlotOf(q) == p {
      var i :| 0 <= i < |after[q.0]| && after[q.0][i] == q.1;
      assert (q.0, mem[q.0][i]) in ShownOf(mem, m) && SlotOf((q.0, mem[q.0][i])) == p;
    }
    if q :| q in ShownOf(mem, m) && SlotOf(q) == p {
      var i :| 0 <= i < |mem[q.0]| && mem[q.0][i] == q.1;
      assert (q.0, after[q.0][i]) in ShownOf(after, m) && SlotOf((q.0, after[q.0][i])) == p;
    }
  }

  lemma UpdatedSlots(c: Content, mail: Mail)
    ensures SlotsOf(Updated(c, mail.id, mail), mail.id) == SlotsOf(c, mail.id)
  {
    forall p ensures p in SlotsOf(Updated(c, mail.id, mail), mail.id).shown <==> p in SlotsOf(c, mail.id).shown {
      RefreshedSlots(c.folders, mail, p);
    }
  }

  lemma {:induction false} MailEventsSlots(c: Content, evs: seq<EntityUpdateEvent>, b: Backend, m: MailId)
    requires forall ev :: ev in evs ==> HonestUpdate(ev, b)
    ensures SlotsOf(MailSome(c, evs, b), m) == if m in ErasedMails(evs, b) then Slots({}, None) else SlotsOf(c, m)
  {
    if evs != [] {
      var n := |evs| - 1;
      var ev, before := evs[n], MailSome(c, evs[..n], b);
      assert evs == evs[..n] + [ev] && ev in evs;
      assert ErasedMails(evs, b) == ErasedMails(evs[..n], b) + if Erases(ev, b) then {ev.instanceId} else {};
      MailEventsSlots(c, evs[..n], b, m);
      if ev.instanceId != m {
        MailOther(before, ev, b, m);
      } else {
        OwnMailEvent(before, ev, b);
      }
    }
  }

  lemma OwnMailEvent(c: Content, ev: EntityUpdateEvent, b: Backend)
    requires HonestUpdate(ev, b)
    ensures SlotsOf(MailOne(c, ev, b), ev.instanceId)
            == if Erases(ev, b) then Slots({}, None) else SlotsOf(c, ev.instanceId)
    ensures SlotsOf(c, ev.instanceId) == Slots({}, None) ==>
              SlotsOf(MailOne(c, ev, b), ev.instanceId) == Slots({}, None)
  {
    ErasedSlots(c, ev.instanceId);
    if ev.operation.Update? && ResolvedMail(b, ev).Some? {
      UpdatedSlots(c, ResolvedMail(b, ev).value);
    }
  }

  // ----- creates -----

  /** Every row is of a mail that memory shows. */
  ghost predicate RowsShown(c: Content) {
    forall m :: m in c.table ==> Anywhere(c.folders, m)
  }

  lemma FiledShown(c: Content, f: FolderId, owner: MailId, x: StoredMail)
    requires RowsShown(c)
    ensures RowsShown(Filed(c, f, owner, x))
  {
    var y, after := x.(uid := AsUid(Next(c.next, f))), Filed(c, f, owner, x);
    forall m | m in after.table ensures Anywhere(after.folders, m) {
      if m == x.mail.id {
        UpsertHolds(Folder(c.folders, f), y);
        assert m in Ids(after.folders[f]);
      } else {
        var g :| g in c.folders && m in Ids(c.folders[g]);
        var z :| z in c.folders[g] && z.mail.id == m;
        UpsertOthers(Folder(c.folders, f), y, z);
        assert z in after.folders[g];
      }
    }
  }

  lemma UpsertHolds(s: seq<StoredMail>, x: StoredMail)
    ensures x in UpsertSeq(s, x)
  {
    var r := UpsertSeq(s, x);
    if r != s + [x] {
      var k :| 0 <= k < |s| && s[k].mail.id == x.mail.id && r == s[k := x];
      assert r[k] == x;
    }
  }

  lemma {:induction false} CreatesShown(c: Filing, evs: seq<EntityUpdateEvent>, routes: Routes, b: Backend,
                                        hits: seq<Hit>)
    requires |hits| == |evs| && RowsShown(c.content)
    ensures RowsShown(CreateSome(c, evs, routes, b, hits).content)
  {
    if evs != [] {
      var n := |evs| - 1;
      CreatesShown(c, evs[..n], routes, b, hits[..n]);
      var before, ev := CreateSome(c, evs[..n], routes, b, hits[..n]), evs[n];
      CreateFilesSource(before, ev, routes, b, hits[n]);
      if EntryPair(ev, routes).Some? {
        var (f, m) := EntryPair(ev, routes).value;
        var source := SourceOf(before.pending, ev, b, m, hits[n]);
        if source.Some? {
          FiledShown(Bodied(before.content, m, source.value.body), f, source.value.owner, source.value.entry);
        }
      }
    }
  }

  // ----- the whole batch -----

  /** After the CREATEs, every entry that the batch then neither deletes nor erases has its folder and UID in a row. */
  ghost predicate KeptBacked(created: Content, dropped: set<Pair>, erased: set<MailId>) {
    forall f, x :: f in created.folders && x in created.folders[f] && (f, x.mail.id) !in dropped
                   && x.mail.id !in erased ==>
      Backed(created.table, f, x)
  }

  lemma TrimInStep(c: Content, dropped: set<Pair>, m: MailId)
    requires RowsShown(c)
    ensures InStep(Trim(SlotsOf(c, m), m, dropped))
            <==> forall q :: q in About(c, m).shown && (q.0, m) !in dropped ==> Backed(c.table, q.0, q.1)
  {
    var s := SlotsOf(c, m);
    var left := Trim(s, m, dropped).shown;
    forall q | q in About(c, m).shown && (q.0, m) !in dropped
      ensures SlotOf(q) in left && (Backed(c.table, q.0, q.1) <==> s.row == Some(SlotOf(q)))
    {
      assert SlotOf(q) in s.shown;
    }
    if left == {} && s.row.Some? {
      RowDropped(c, dropped, m);
    }
    if left != {} {
      var p :| p in left;
      var q :| q in About(c, m).shown && SlotOf(q) == p;
    }
  }

  /** A mail that has a row and loses all of its folders is named by a DELETE. */
  lemma RowDropped(c: Content, dropped: set<Pair>, m: MailId)
    requires RowsShown(c) && m in c.table && Trim(SlotsOf(c, m), m, dropped).shown == {}
    ensures Somewhere(dropped, m)
  {
    var f :| f in c.folders && m in Ids(c.folders[f]);
    var x :| x in c.folders[f] && x.mail.id == m;
    SlotsShown(c, m, f, x);
    assert (f, x.uid) !in Trim(SlotsOf(c, m), m, dropped).shown;
    assert (f, m) in dropped;
  }

  lemma KeptInStep(created: Content, dropped: set<Pair>, erased: set<MailId>)
    requires RowsShown(created)
    ensures KeptBacked(created, dropped, erased)
            <==> forall m :: m !in erased ==> InStep(Trim(SlotsOf(created, m), m, dropped))
  {
    if KeptBacked(created, dropped, erased) {
      forall m | m !in erased ensures InStep(Trim(SlotsOf(created, m), m, dropped)) {
        TrimInStep(created, dropped, m);
      }
    }
    if forall m :: m !in erased ==> InStep(Trim(SlotsOf(created, m), m, dropped)) {
      forall f, x | f in created.folders && x in created.folders[f] && (f, x.mail.id) !in dropped
                    && x.mail.id !in erased
        ensures Backed(created.table, f, x)
      {
        TrimInStep(created, dropped, x.mail.id);
        assert (f, x) in About(created, x.mail.id).shown;
      }
    }
  }

  /**
   * UIDs on disk through the events of any batch: memory and disk still give every mail the same folder and the same
   * UID if and only if the batch deletes or erases every entry that its CREATEs leave without a row to match.
   */
  lemma EventsOnDiskIff(c: Content, list: seq<FolderInfo>, batch: EntityUpdateBatch, b: Backend, hits: seq<Hit>)
    requires OnDisk(c.folders, c.table) && HonestUpdates(batch, b)
    requires |hits| == |Buckets(batch.updates).entryCreates|
    ensures var after := EventsDone(c, list, batch, b, hits);
            var k, routes := Buckets(batch.updates), RoutesOf(ListFor(list, batch, b));
            OnDisk(after.folders, after.table)
            <==> KeptBacked(Created(c, list, batch, b, hits).content, EntryPairs(k.entryDeletes, routes),
                            ErasedMails(k.mailEvents, b))
  {
    var k, routes := Buckets(batch.updates), RoutesOf(ListFor(list, batch, b));
    var created, dropped := Created(c, list, batch, b, hits).content, EntryPairs(k.entryDeletes, routes);
    if Refreshes(batch, b) {
      PrunedOnDisk(c, FolderIds(b.listFolders.value));
    }
    CreatesShown(StartFiling(c, batch, b), k.entryCreates, routes, b, hits);
    OnDiskIff(EventsDone(c, list, batch, b, hits));
    KeptInStep(created, dropped, ErasedMails(k.mailEvents, b));
    forall m
      ensures SlotsOf(EventsDone(c, list, batch, b, hits), m)
              == if m in ErasedMails(k.mailEvents, b) then Slots({}, None) else Trim(SlotsOf(created, m), m, dropped)
    {
      DeletesTrimSlots(created, k.entryDeletes, routes, m);
      MailEventsSlots(DeleteSome(created, k.entryDeletes, routes), k.mailEvents, b, m);
    }
  }

  /** CREATEs never change the UID of a row: an entry they add to a mail with a row matches only by its old UID. */
  lemma {:induction false} RowsKeepUids(c: Filing, evs: seq<EntityUpdateEvent>, routes: Routes, b: Backend,
                                        hits: seq<Hit>, m: MailId)
    requires |hits| == |evs| && m in c.content.table
    ensures var after := CreateSome(c, evs, routes, b, hits).content;
            m in after.table && after.table[m].uid == c.content.table[m].uid
  {
    if evs != [] {
      var n := |evs| - 1;
      RowsKeepUids(c, evs[..n], routes, b, hits[..n], m);
      CreateFilesSource(CreateSome(c, evs[..n], routes, b, hits[..n]), evs[n], routes, b, hits[n]);
    }
  }

  /**
   * A moved mail is in step with its row after the batch if and only if the batch deletes it from every other folder
   * and the UID it gets in the target happens to be the one its row keeps.
   */
  lemma MovedInStepIff(c: Content, list: seq<FolderInfo>, batch: EntityUpdateBatch, b: Backend, how: How, i: nat,
                       target: FolderId, m: MailId)
    returns (from: (FolderId, StoredMail), uid: nat)
    requires HowPossible(c, list, batch, b, how) && IsMove(c, list, batch, b, i, target, m)
    ensures var facts, dropped := About(RefreshedContent(c, batch, b), m), DroppedBy(list, batch, b);
            && from in facts.shown
            && (target, MovedEntry(from.1, uid)) in About(EventsDone(c, list, batch, b, how.hits), m).shown
            && (InStep(SlotsOf(EventsDone(c, list, batch, b, how.hits), m))
                <==> (forall q :: q in facts.shown ==> (q.0, m) in dropped)
                     && (facts.row.Some? ==> facts.row.value.uid == uid))
  {
    from, uid := MoveKeepsTheMail(c, list, batch, b, how, i, target, m);
    var facts, dropped := About(RefreshedContent(c, batch, b), m), DroppedBy(list, batch, b);
    MovedSlots(facts, dropped, m, from, uid, target, About(EventsDone(c, list, batch, b, how.hits), m));
  }

  lemma MovedSlots(facts: Facts, dropped: set<Pair>, m: MailId, from: (FolderId, StoredMail), uid: nat,
                   target: FolderId, after: Facts)
    requires forall x :: (target, x) !in facts.shown
    requires after.shown == (set q | q in facts.shown && (q.0, m) !in dropped) + {(target, MovedEntry(from.1, uid))}
    requires after.row.Some? && after.row.value.folder == target
    requires after.row.value.uid == if facts.row.Some? then facts.row.value.uid else uid
    ensures InStep(SlotsIn(after)) <==> (forall q :: q in facts.shown ==> (q.0, m) in dropped)
                                        && (facts.row.Some? ==> facts.row.value.uid == uid)
  {
    var s, moved := SlotsIn(after), (target, MovedEntry(from.1, uid));
    assert moved in after.shown && SlotOf(moved) == (target, uid);
    assert (target, uid) in s.shown;
    if InStep(s) {
      forall q | q in facts.shown ensures (q.0, m) in dropped {
        assert (q.0, m) !in dropped ==> q in after.shown;
        assert q in after.shown ==> SlotOf(q) in s.shown;
        assert (target, q.1) !in facts.shown && q == (q.0, q.1);
      }
    }
  }
}
