/** Each table or memory operation has the set-level effect that `ReplicaSpec` names. */
module Refinement {
  import opened MailTypes
  import opened MailStoreModel
  import opened LocalStoreModel
  import opened ReplicaSpec

  lemma MembersAt(mem: Memory, f: FolderId, m: MailId)
    ensures (f, m) in Members(mem) <==> f in mem && m in Ids(mem[f])
  {
  }

  lemma SomewhereIff(mem: Memory, m: MailId)
    ensures Somewhere(Members(mem), m) <==> Anywhere(mem, m)
  {
    if f :| f in mem && m in Ids(mem[f]) {
      MembersAt(mem, f, m);
    }
    if f :| (f, m) in Members(mem) {
      MembersAt(mem, f, m);
    }
  }

  /** Two memories list the same pairs when every folder holds the same ids. */
  lemma MembersBy(mem: Memory, pairs: set<Pair>)
    requires forall f, m :: (f, m) in pairs <==> f in mem && m in Ids(mem[f])
    ensures Members(mem) == pairs
  {
    forall p | p in Members(mem) ensures p in pairs {
      MembersAt(mem, p.0, p.1);
    }
    forall p | p in pairs ensures p in Members(mem) {
      MembersAt(mem, p.0, p.1);
    }
  }

  lemma PlaceRefines(mem: Memory, table: Table, eml: map<MailId, string>, f: FolderId, x: StoredMail, row: Row)
    requires row.mail == x.mail && row.folder == f
    ensures Abstract(Upsert(mem, f, x), UpsertRow(table, row), eml) == Place(Abstract(mem, table, eml), f, x.mail.id)
  {
    var after := Upsert(mem, f, x);
    forall g, m ensures (g, m) in Members(mem) + {(f, x.mail.id)} <==> g in after && m in Ids(after[g]) {
      MembersAt(mem, g, m);
    }
    MembersBy(after, Members(mem) + {(f, x.mail.id)});
  }

  lemma RemoveFromMembers(mem: Memory, f: FolderId, m: MailId)
    ensures Members(RemoveFrom(mem, f, m)) == Members(mem) - {(f, m)}
  {
    var after := RemoveFrom(mem, f, m);
    forall g, n ensures (g, n) in Members(mem) - {(f, m)} <==> g in after && n in Ids(after[g]) {
      MembersAt(mem, g, n);
    }
    MembersBy(after, Members(mem) - {(f, m)});
  }

  lemma EraseRefines(mem: Memory, table: Table, eml: map<MailId, string>, m: MailId)
    ensures Abstract(RemoveEverywhere(mem, m), table - {m}, eml - {m}) == Erase(Abstract(mem, table, eml), m)
  {
    var after, want := RemoveEverywhere(mem, m), Erase(Abstract(mem, table, eml), m);
    forall g, n ensures (g, n) in want.members <==> g in after && n in Ids(after[g]) {
      MembersAt(mem, g, n);
    }
    MembersBy(after, want.members);
    assert RowFolders(table - {m}) == want.rows;
  }

  lemma RefreshMembers(mem: Memory, mail: Mail)
    ensures Members(Refresh(mem, mail)) == Members(mem) && Refresh(mem, mail).Keys == mem.Keys
  {
    forall g, n ensures (g, n) in Members(mem) <==> g in Refresh(mem, mail) && n in Ids(Refresh(mem, mail)[g]) {
      MembersAt(mem, g, n);
    }
    MembersBy(Refresh(mem, mail), Members(mem));
  }

  lemma PruneMembers(mem: Memory, known: set<FolderId>)
    ensures Members(Prune(mem, known)) == set p | p in Members(mem) && p.0 in known
  {
    var want := set p | p in Members(mem) && p.0 in known;
    forall g, n ensures (g, n) in want <==> g in Prune(mem, known) && n in Ids(Prune(mem, known)[g]) {
      MembersAt(mem, g, n);
    }
    MembersBy(Prune(mem, known), want);
  }

  lemma SetFolderMembers(mem: Memory, f: FolderId, s: seq<StoredMail>)
    ensures Members(mem[f := s]) == (set p | p in Members(mem) && p.0 != f) + (set m | m in Ids(s) :: (f, m))
  {
    var want := (set p | p in Members(mem) && p.0 != f) + (set m | m in Ids(s) :: (f, m));
    var after := mem[f := s];
    forall g, n ensures (g, n) in want <==> g in after && n in Ids(after[g]) {
      MembersAt(mem, g, n);
    }
    MembersBy(after, want);
  }
}
