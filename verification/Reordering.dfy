/**
 * Inside a batch the handler runs creates, then deletes, then mail events. This module says exactly when
 * that order leaves the same membership as the order on the wire.
 */
module Reordering {
  import opened Wrappers
  import opened MailTypes
  import opened ReplicaSpec

  /** What an event means for membership, by itself. */
  datatype Op = Add(pair: Pair) | Drop(pair: Pair) | DropMail(mail: MailId) | Skip

  predicate Removes(op: Op, p: Pair) {
    op == Drop(p) || op == DropMail(p.1)
  }

  /** The wire reading: one event after the other. */
  function Step(s: set<Pair>, op: Op): set<Pair> {
    match op
    case Add(p) => s + {p}
    case Drop(p) => s - {p}
    case DropMail(m) => set p | p in s && p.1 != m
    case Skip => s
  }

  function Run(s: set<Pair>, ops: seq<Op>): set<Pair> {
    if ops == [] then s else Step(Run(s, ops[..|ops| - 1]), ops[|ops| - 1])
  }

  predicate IsAdd(op: Op) {
    op.Add?
  }

  predicate IsDrop(op: Op) {
    op.Drop?
  }

  predicate IsDropMail(op: Op) {
    op.DropMail?
  }

  /** The handler's reading: additions, then removals from a folder, then removals of a mail. */
  function Bucketing(ops: seq<Op>): seq<Op> {
    Filter(ops, IsAdd) + Filter(ops, IsDrop) + Filter(ops, IsDropMail)
  }

  /** The last event about `p` decides: present, absent, or never mentioned. */
  function Last(ops: seq<Op>, p: Pair): Option<bool> {
    if ops == [] then None
    else
      var op := ops[|ops| - 1];
      if op == Add(p) then Some(true)
      else if Removes(op, p) then Some(false)
      else Last(ops[..|ops| - 1], p)
  }

  lemma {:induction false} RunByLast(s: set<Pair>, ops: seq<Op>, p: Pair)
    ensures p in Run(s, ops) <==> if Last(ops, p).Some? then Last(ops, p).value else p in s
  {
    if ops != [] {
      RunByLast(s, ops[..|ops| - 1], p);
    }
  }

  lemma {:induction false} LastConcat(a: seq<Op>, b: seq<Op>, p: Pair)
    ensures Last(a + b, p) == if Last(b, p).Some? then Last(b, p) else Last(a, p)
  {
    if b == [] {
      assert a + b == a;
    } else {
      var n := |b| - 1;
      assert (a + b)[..|a + b| - 1] == a + b[..n];
      LastConcat(a, b[..n], p);
    }
  }

  /** When all events that mention `p` agree, any of them decides. */
  lemma {:induction false} LastUniform(ops: seq<Op>, p: Pair)
    ensures (forall op :: op in ops ==> op != Add(p) && !Removes(op, p)) <==> Last(ops, p).None?
    ensures (forall op :: op in ops ==> op != Add(p)) ==> Last(ops, p) != Some(true)
    ensures (forall op :: op in ops ==> !Removes(op, p)) ==> Last(ops, p) != Some(false)
  {
    if ops != [] {
      var n := |ops| - 1;
      LastUniform(ops[..n], p);
      assert forall op :: op in ops <==> op in ops[..n] || op == ops[n];
    }
  }

  ghost predicate HasAdd(ops: seq<Op>, p: Pair) {
    Add(p) in ops
  }

  ghost predicate HasRemoval(ops: seq<Op>, p: Pair) {
    Drop(p) in ops || DropMail(p.1) in ops
  }

  lemma OneKind(ops: seq<Op>, p: Pair)
    ensures (forall op :: op in ops ==> op.Add?) ==> Last(ops, p) == if Add(p) in ops then Some(true) else None
    ensures (forall op :: op in ops ==> op.Drop?) ==> Last(ops, p) == if Drop(p) in ops then Some(false) else None
    ensures (forall op :: op in ops ==> op.DropMail?)
            ==> Last(ops, p) == if DropMail(p.1) in ops then Some(false) else None
  {
    LastUniform(ops, p);
    if Add(p) in ops {
      assert Last(ops, p).Some?;
    }
    if Drop(p) in ops {
      assert Removes(Drop(p), p);
    }
    if DropMail(p.1) in ops {
      assert Removes(DropMail(p.1), p);
    }
  }

  /** In bucketed order a removal always wins over an addition. */
  lemma BucketedLast(ops: seq<Op>, p: Pair)
    ensures Last(Bucketing(ops), p)
            == if HasRemoval(ops, p) then Some(false) else if HasAdd(ops, p) then Some(true) else None
  {
    var adds := Filter(ops, IsAdd);
    var drops := Filter(ops, IsDrop);
    var mails := Filter(ops, IsDropMail);
    LastConcat(adds + drops, mails, p);
    LastConcat(adds, drops, p);
    OneKind(adds, p);
    OneKind(drops, p);
    OneKind(mails, p);
    assert forall op :: op in adds <==> op in ops && IsAdd(op);
    assert forall op :: op in drops <==> op in ops && IsDrop(op);
    assert forall op :: op in mails <==> op in ops && IsDropMail(op);
  }

  /** `p` is removed earlier in the batch and (re-)created by the last event that mentions it. */
  ghost predicate Clobbered(ops: seq<Op>, p: Pair) {
    Last(ops, p) == Some(true) && HasRemoval(ops, p)
  }

  /** Bucketing preserves the meaning of a batch exactly when no pair is clobbered, whatever the start. */
  lemma ReorderingPreservesIff(s: set<Pair>, ops: seq<Op>)
    ensures Run(s, Bucketing(ops)) == Run(s, ops) <==> forall p :: !Clobbered(ops, p)
  {
    forall p ensures (p in Run(s, Bucketing(ops)) <==> p in Run(s, ops)) <==> !Clobbered(ops, p) {
      RunByLast(s, ops, p);
      RunByLast(s, Bucketing(ops), p);
      BucketedLast(ops, p);
      LastUniform(ops, p);
    }
    if Run(s, Bucketing(ops)) == Run(s, ops) {
      forall p ensures !Clobbered(ops, p) {
      }
    }
  }

  /** A removal followed by a re-creation of the same pair ends with the mail absent. */
  lemma ReorderingFails(f: FolderId, m: MailId)
    ensures var ops := [Drop((f, m)), Add((f, m))];
            (f, m) in Run({}, ops) && (f, m) !in Run({}, Bucketing(ops))
  {
    var ops := [Drop((f, m)), Add((f, m))];
    RunByLast({}, ops, (f, m));
    RunByLast({}, Bucketing(ops), (f, m));
    BucketedLast(ops, (f, m));
  }
}
