/** Permanent deletion of mails: which requests are sent. */
module DeleteBatches {
  datatype Id = Id(list: string, element: string)

  /** The most mails the server accepts in one request. */
  const MAIL_BATCH_LIMIT: nat := 50

  // ----- groups -----

  predicate HasList(group: seq<Id>, list: string) {
    group != [] && group[0].list == list
  }

  /** The position of the group for this list, or the number of groups. */
  function GroupIndex(groups: seq<seq<Id>>, list: string): (i: nat)
    ensures i <= |groups| && (i < |groups| ==> HasList(groups[i], list))
    ensures forall j :: 0 <= j < i ==> !HasList(groups[j], list)
  {
    if groups == [] then 0 else if HasList(groups[0], list) then 0 else GroupIndex(groups[1..], list) + 1
  }

  function AddTo(groups: seq<seq<Id>>, m: Id): seq<seq<Id>> {
    var i := GroupIndex(groups, m.list);
    if i < |groups| then groups[i := groups[i] + [m]] else groups + [[m]]
  }

  /** Mails by list, each once, lists and mails in the order they are first seen. */
  function Grouped(mails: seq<Id>): seq<seq<Id>> {
    if mails == [] then []
    else
      var before, m := mails[..|mails| - 1], mails[|mails| - 1];
      if m in before then Grouped(before) else AddTo(Grouped(before), m)
  }

  function Chunks(group: seq<Id>): seq<seq<Id>> {
    if |group| <= MAIL_BATCH_LIMIT then if group == [] then [] else [group]
    else [group[..MAIL_BATCH_LIMIT]] + Chunks(group[MAIL_BATCH_LIMIT..])
  }

  function AllChunks(groups: seq<seq<Id>>): seq<seq<Id>> {
    if groups == [] then [] else Chunks(groups[0]) + AllChunks(groups[1..])
  }

  /** The requests for a list of mails, when all succeed. */
  function Requests(mails: seq<Id>): seq<seq<Id>> {
    AllChunks(Grouped(mails))
  }

  // ----- sending -----

  /** The index table knows the group of every list. */
  ghost predicate Indexes(listIndices: map<string, nat>, groups: seq<seq<Id>>) {
    && (forall l :: (if l in listIndices then listIndices[l] else |groups|) == GroupIndex(groups, l))
    && (forall l :: l in listIndices ==> listIndices[l] < |groups|)
    && (forall i :: 0 <= i < |groups| ==> groups[i] != [])
  }

  lemma IndexesNew(listIndices: map<string, nat>, groups: seq<seq<Id>>, m: Id)
    requires Indexes(listIndices, groups) && m.list !in listIndices
    ensures Indexes(listIndices[m.list := |groups|], groups + [[m]]) && AddTo(groups, m) == groups + [[m]]
  {
    forall l ensures (if l in listIndices[m.list := |groups|] then listIndices[m.list := |groups|][l] else |groups| + 1)
                     == GroupIndex(groups + [[m]], l) {
      GroupIndexSnoc(groups, [m], l);
    }
  }

  lemma IndexesOld(listIndices: map<string, nat>, groups: seq<seq<Id>>, m: Id)
    requires Indexes(listIndices, groups) && m.list in listIndices
    ensures var i := listIndices[m.list];
            Indexes(listIndices, groups[i := groups[i] + [m]]) && AddTo(groups, m) == groups[i := groups[i] + [m]]
  {
    var i := listIndices[m.list];
    assert i == GroupIndex(groups, m.list);
    forall l ensures (if l in listIndices then listIndices[l] else |groups|)
                     == GroupIndex(groups[i := groups[i] + [m]], l) {
      GroupIndexUpdate(groups, i, m, l);
    }
  }

  lemma GroupedStep(mails: seq<Id>, k: nat)
    requires k < |mails|
    ensures mails[..k + 1] == mails[..k] + [mails[k]]
    ensures Grouped(mails[..k + 1]) ==
            if mails[k] in mails[..k] then Grouped(mails[..k]) else AddTo(Grouped(mails[..k]), mails[k])
  {
    assert mails[..k + 1][..k] == mails[..k];
  }

  method Group(mails: seq<Id>) returns (byList: seq<seq<Id>>)
    ensures byList == Grouped(mails)
  {
    byList := [];
    var listIndices: map<string, nat> := map[];
    var seen: set<Id> := {};
    for k := 0 to |mails|
      invariant byList == Grouped(mails[..k])
      invariant forall m :: m in seen <==> m in mails[..k]
      invariant Indexes(listIndices, byList)
    {
      var mail := mails[k];
      GroupedStep(mails, k);
      if mail in seen {
        continue;
      }
      seen := seen + {mail};
      if mail.list !in listIndices {
        IndexesNew(listIndices, byList, mail);
        listIndices := listIndices[mail.list := |byList|];
        byList := byList + [[mail]];
      } else {
        IndexesOld(listIndices, byList, mail);
        var index := listIndices[mail.list];
        byList := byList[index := byList[index] + [mail]];
      }
    }
    assert mails[..|mails|] == mails;
  }

  lemma {:induction false} GroupIndexSnoc(groups: seq<seq<Id>>, g: seq<Id>, list: string)
    ensures GroupIndex(groups + [g], list) ==
            if GroupIndex(groups, list) < |groups| then GroupIndex(groups, list)
            else if HasList(g, list) then |groups| else |groups| + 1
  {
    if groups != [] {
      assert (groups + [g])[1..] == groups[1..] + [g];
      GroupIndexSnoc(groups[1..], g, list);
    }
  }

  lemma {:induction false} GroupIndexUpdate(groups: seq<seq<Id>>, i: nat, m: Id, list: string)
    requires i < |groups| && groups[i] != []
    ensures GroupIndex(groups[i := groups[i] + [m]], list) == GroupIndex(groups, list)
  {
    var more := groups[i := groups[i] + [m]];
    if i > 0 {
      assert more[1..] == groups[1..][i - 1 := groups[1..][i - 1] + [m]];
      GroupIndexUpdate(groups[1..], i - 1, m, list);
    } else {
      assert more[1..] == groups[1..];
    }
  }

  predicate AllAccepted(requests: seq<seq<Id>>, accepts: seq<Id> -> bool) {
    requests == [] || (accepts(requests[0]) && AllAccepted(requests[1..], accepts))
  }

  /** The requests up to and including the first that is refused. */
  function Sent(requests: seq<seq<Id>>, accepts: seq<Id> -> bool): seq<seq<Id>> {
    if requests == [] then []
    else if !accepts(requests[0]) then [requests[0]]
    else [requests[0]] + Sent(requests[1..], accepts)
  }

  /** Sending stops right after the first refusal and nowhere else. */
  lemma {:induction false} SentPrefix(requests: seq<seq<Id>>, accepts: seq<Id> -> bool)
    ensures Sent(requests, accepts) <= requests
    ensures AllAccepted(requests, accepts) <==> forall c :: c in requests ==> accepts(c)
    ensures AllAccepted(requests, accepts) ==> Sent(requests, accepts) == requests
    ensures !AllAccepted(requests, accepts) ==>
              var sent := Sent(requests, accepts);
              && sent != [] && !accepts(sent[|sent| - 1])
              && forall i :: 0 <= i < |sent| - 1 ==> accepts(sent[i])
  {
    if requests != [] && accepts(requests[0]) {
      SentPrefix(requests[1..], accepts);
      assert requests == [requests[0]] + requests[1..];
    }
  }

  lemma {:induction false} AcceptedConcat(a: seq<seq<Id>>, b: seq<seq<Id>>, accepts: seq<Id> -> bool)
    ensures AllAccepted(a + b, accepts) <==> AllAccepted(a, accepts) && AllAccepted(b, accepts)
  {
    if a == [] {
      assert a + b == b;
    } else {
      assert (a + b)[1..] == a[1..] + b;
      AcceptedConcat(a[1..], b, accepts);
    }
  }

  lemma {:induction false} SentConcat(a: seq<seq<Id>>, b: seq<seq<Id>>, accepts: seq<Id> -> bool)
    ensures AllAccepted(a, accepts) ==> Sent(a + b, accepts) == a + Sent(b, accepts)
    ensures !AllAccepted(a, accepts) ==> Sent(a + b, accepts) == Sent(a, accepts)
  {
    if a == [] {
      assert a + b == b;
    } else {
      assert (a + b)[1..] == a[1..] + b;
      SentConcat(a[1..], b, accepts);
    }
  }

  lemma FirstChunk(rest: seq<Id>, size: nat)
    requires rest != [] && size == if |rest| <= MAIL_BATCH_LIMIT then |rest| else MAIL_BATCH_LIMIT
    ensures Chunks(rest) == [rest[..size]] + Chunks(rest[size..])
  {
    if |rest| <= MAIL_BATCH_LIMIT {
      assert rest[..size] == rest;
    }
  }

  datatype Sending = Sending(sent: seq<seq<Id>>, ok: bool)

  /** What becomes of pending requests after those already sent. */
  function Outlook(sent: seq<seq<Id>>, pending: seq<seq<Id>>, accepts: seq<Id> -> bool): Sending {
    Sending(sent + Sent(pending, accepts), AllAccepted(pending, accepts))
  }

  lemma OutlookStep(sent: seq<seq<Id>>, next: seq<seq<Id>>, later: seq<seq<Id>>, accepts: seq<Id> -> bool)
    ensures Outlook(sent, next + later, accepts) ==
            if AllAccepted(next, accepts) then Outlook(sent + next, later, accepts)
            else Sending(sent + Sent(next, accepts), false)
  {
    AcceptedConcat(next, later, accepts);
    SentConcat(next, later, accepts);
    assert sent + (next + Sent(later, accepts)) == sent + next + Sent(later, accepts);
  }

  lemma OutlookEnd(sent: seq<seq<Id>>, accepts: seq<Id> -> bool)
    ensures Outlook(sent, [], accepts) == Sending(sent, true)
  {
    assert sent + [] == sent;
  }

  lemma OneRequest(c: seq<Id>, accepts: seq<Id> -> bool)
    ensures AllAccepted([c], accepts) == accepts(c) && Sent([c], accepts) == [c]
  {
    assert [c][1..] == [];
  }

  method SendGroup(group: seq<Id>, accepts: seq<Id> -> bool, before: seq<seq<Id>>)
    returns (sent: seq<seq<Id>>, ok: bool)
    ensures Sending(sent, ok) == Outlook(before, Chunks(group), accepts)
  {
    sent := before;
    var rest := group;
    while rest != []
      invariant Outlook(sent, Chunks(rest), accepts) == Outlook(before, Chunks(group), accepts)
      decreases |rest|
    {
      var size := if |rest| <= MAIL_BATCH_LIMIT then |rest| else MAIL_BATCH_LIMIT;
      var chunk := rest[..size];
      FirstChunk(rest, size);
      OutlookStep(sent, [chunk], Chunks(rest[size..]), accepts);
      OneRequest(chunk, accepts);
      sent := sent + [chunk];
      if !accepts(chunk) {
        ok := false;
        return;
      }
      rest := rest[size..];
    }
    OutlookEnd(sent, accepts);
    ok := true;
  }

  lemma AllChunksStep(groups: seq<seq<Id>>, i: nat)
    requires i < |groups|
    ensures AllChunks(groups[i..]) == Chunks(groups[i]) + AllChunks(groups[i + 1..])
  {
    assert groups[i..][1..] == groups[i + 1..];
  }

  method SendAll(byList: seq<seq<Id>>, accepts: seq<Id> -> bool) returns (sent: seq<seq<Id>>, ok: bool)
    ensures Sending(sent, ok) == Outlook([], AllChunks(byList), accepts)
  {
    sent := [];
    for i := 0 to |byList|
      invariant Outlook(sent, AllChunks(byList[i..]), accepts) == Outlook([], AllChunks(byList), accepts)
    {
      ghost var chunks := Chunks(byList[i]);
      AllChunksStep(byList, i);
      OutlookStep(sent, chunks, AllChunks(byList[i + 1..]), accepts);
      SentPrefix(chunks, accepts);
      sent, ok := SendGroup(byList[i], accepts, sent);
      if !ok {
        return;
      }
    }
    OutlookEnd(sent, accepts);
    ok := true;
  }

  /** Sends until the first refusal; `ok` when nothing was refused. */
  method DeleteMails(mails: seq<Id>, accepts: seq<Id> -> bool) returns (sent: seq<seq<Id>>, ok: bool)
    ensures ok == AllAccepted(Requests(mails), accepts)
    ensures sent == Sent(Requests(mails), accepts)
  {
    var byList := Group(mails);
    sent, ok := SendAll(byList, accepts);
    assert [] + Sent(Requests(mails), accepts) == Sent(Requests(mails), accepts);
  }

  // ----- what the requests are -----

  /** Where an id, or any mail of its list, first occurs. */
  function First(mails: seq<Id>, m: Id): (i: nat)
    requires m in mails
    ensures i < |mails| && mails[i] == m && forall j :: 0 <= j < i ==> mails[j] != m
  {
    if mails[0] == m then 0 else First(mails[1..], m) + 1
  }

  function FirstOfList(mails: seq<Id>, list: string): (i: nat)
    requires exists m :: m in mails && m.list == list
    ensures i < |mails| && mails[i].list == list && forall j :: 0 <= j < i ==> mails[j].list != list
  {
    if mails[0].list == list then 0
    else
      var m :| m in mails && m.list == list;
      assert m in mails[1..];
      FirstOfList(mails[1..], list) + 1
  }

  /** Lists in the order they are first seen, and within a list mails in the order they are first seen. */
  predicate Precedes(mails: seq<Id>, a: Id, b: Id) {
    && a in mails
    && b in mails
    && (FirstOfList(mails, a.list) < FirstOfList(mails, b.list)
        || (a.list == b.list && First(mails, a) < First(mails, b)))
  }

  lemma FirstIs(mails: seq<Id>, i: nat)
    requires i < |mails|
    ensures (forall j :: 0 <= j < i ==> mails[j] != mails[i]) ==> First(mails, mails[i]) == i
    ensures (forall j :: 0 <= j < i ==> mails[j].list != mails[i].list) ==> FirstOfList(mails, mails[i].list) == i
  {
  }

  lemma FirstStays(mails: seq<Id>, m: Id, x: Id)
    requires x in mails
    ensures x in mails + [m] && First(mails + [m], x) == First(mails, x)
    ensures FirstOfList(mails + [m], x.list) == FirstOfList(mails, x.list)
  {
    var more := mails + [m];
    var i, k := First(mails, x), FirstOfList(mails, x.list);
    assert more[i] == x && more[k].list == x.list;
    FirstIs(more, i);
    FirstIs(more, k);
  }

  lemma PrecedesStays(mails: seq<Id>, m: Id, a: Id, b: Id)
    requires Precedes(mails, a, b)
    ensures Precedes(mails + [m], a, b)
  {
    FirstStays(mails, m, a);
    FirstStays(mails, m, b);
  }

  /** A mail not seen before comes last in its list, and its list last if that is new too. */
  lemma NewIsLast(mails: seq<Id>, m: Id, x: Id)
    requires m !in mails && x in mails
    requires x.list == m.list || forall y :: y in mails ==> y.list != m.list
    ensures Precedes(mails + [m], x, m)
  {
    var more := mails + [m];
    FirstStays(mails, m, x);
    assert more[|mails|] == m;
    assert forall j :: 0 <= j < |mails| ==> more[j] in mails;
    FirstIs(more, |mails|);
  }

  /** The groups hold the given mails, each group one list, in order. */
  ghost predicate GroupsSound(mails: seq<Id>, groups: seq<seq<Id>>) {
    && (forall i :: 0 <= i < |groups| ==> GroupSound(mails, groups[i]))
    && (forall i, j :: 0 <= i < j < |groups| ==> GroupBefore(mails, groups[i], groups[j]))
    && (forall m :: m in mails ==> exists i :: 0 <= i < |groups| && m in groups[i])
  }

  ghost predicate GroupSound(mails: seq<Id>, g: seq<Id>) {
    && g != []
    && (forall x :: x in g ==> x in mails && x.list == g[0].list)
    && Ordered(mails, g)
  }

  ghost predicate Ordered(mails: seq<Id>, s: seq<Id>) {
    forall i, j :: 0 <= i < j < |s| ==> Precedes(mails, s[i], s[j])
  }

  ghost predicate GroupBefore(mails: seq<Id>, g: seq<Id>, h: seq<Id>) {
    forall x, y :: x in g && y in h ==> x.list != y.list && Precedes(mails, x, y)
  }

  lemma GroupStays(mails: seq<Id>, m: Id, g: seq<Id>)
    requires GroupSound(mails, g)
    ensures GroupSound(mails + [m], g)
  {
    forall i, j | 0 <= i < j < |g| ensures Precedes(mails + [m], g[i], g[j]) {
      PrecedesStays(mails, m, g[i], g[j]);
    }
  }

  lemma BeforeStays(mails: seq<Id>, m: Id, g: seq<Id>, h: seq<Id>)
    requires GroupBefore(mails, g, h)
    ensures GroupBefore(mails + [m], g, h)
  {
    forall x, y | x in g && y in h ensures Precedes(mails + [m], x, y) {
      PrecedesStays(mails, m, x, y);
    }
  }

  lemma GroupsStay(mails: seq<Id>, m: Id, groups: seq<seq<Id>>)
    requires GroupsSound(mails, groups)
    ensures forall i :: 0 <= i < |groups| ==> GroupSound(mails + [m], groups[i])
    ensures forall i, j :: 0 <= i < j < |groups| ==> GroupBefore(mails + [m], groups[i], groups[j])
  {
    forall i | 0 <= i < |groups| ensures GroupSound(mails + [m], groups[i]) {
      GroupStays(mails, m, groups[i]);
    }
    forall i, j | 0 <= i < j < |groups| ensures GroupBefore(mails + [m], groups[i], groups[j]) {
      BeforeStays(mails, m, groups[i], groups[j]);
    }
  }

  /** A mail already seen changes nothing. */
  lemma SeenSound(mails: seq<Id>, m: Id, groups: seq<seq<Id>>)
    requires GroupsSound(mails, groups) && m in mails
    ensures GroupsSound(mails + [m], groups)
  {
    GroupsStay(mails, m, groups);
  }

  lemma UnknownList(mails: seq<Id>, list: string, groups: seq<seq<Id>>, y: Id)
    requires GroupsSound(mails, groups) && GroupIndex(groups, list) == |groups| && y in mails
    ensures y.list != list
  {
    var i :| 0 <= i < |groups| && y in groups[i];
    assert GroupSound(mails, groups[i]) && !HasList(groups[i], list);
  }

  lemma CoversMore(mails: seq<Id>, m: Id, groups: seq<seq<Id>>, more: seq<seq<Id>>, k: nat)
    requires GroupsSound(mails, groups) && |groups| <= |more| && k < |more| && m in more[k]
    requires forall i, x :: 0 <= i < |groups| && x in groups[i] ==> x in more[i]
    ensures forall x :: x in mails + [m] ==> exists i :: 0 <= i < |more| && x in more[i]
  {
    forall x | x in mails + [m] ensures exists i :: 0 <= i < |more| && x in more[i] {
      if x != m {
        var i :| 0 <= i < |groups| && x in groups[i];
        assert x in more[i];
      }
    }
  }

  lemma NewListLast(mails: seq<Id>, m: Id, g: seq<Id>)
    requires GroupSound(mails, g) && m !in mails && forall y :: y in mails ==> y.list != m.list
    ensures GroupBefore(mails + [m], g, [m])
  {
    forall x | x in g ensures x.list != m.list && Precedes(mails + [m], x, m) {
      NewIsLast(mails, m, x);
    }
  }

  lemma OneGroup(mails: seq<Id>, m: Id)
    requires m in mails
    ensures GroupSound(mails, [m])
  {
  }

  lemma NewListSound(mails: seq<Id>, m: Id, groups: seq<seq<Id>>)
    requires GroupsSound(mails, groups) && m !in mails && GroupIndex(groups, m.list) == |groups|
    ensures GroupsSound(mails + [m], groups + [[m]])
  {
    var more, gs := mails + [m], groups + [[m]];
    GroupsStay(mails, m, groups);
    forall y | y in mails ensures y.list != m.list {
      UnknownList(mails, m.list, groups, y);
    }
    OneGroup(more, m);
    forall i | 0 <= i < |gs| ensures GroupSound(more, gs[i]) {
      assert i < |groups| ==> gs[i] == groups[i];
    }
    forall i, j | 0 <= i < j < |gs| ensures GroupBefore(more, gs[i], gs[j]) {
      if j == |groups| {
        NewListLast(mails, m, groups[i]);
      }
    }
    CoversMore(mails, m, groups, gs, |groups|);
  }

  lemma GrownGroup(mails: seq<Id>, m: Id, g: seq<Id>)
    requires GroupSound(mails, g) && m !in mails && g[0].list == m.list
    ensures GroupSound(mails + [m], g + [m])
  {
    var more, h := mails + [m], g + [m];
    GroupStays(mails, m, g);
    forall i, j | 0 <= i < j < |h| ensures Precedes(more, h[i], h[j]) {
      if j == |g| {
        NewIsLast(mails, m, g[i]);
      }
    }
  }

  /** A new mail of a list takes the place of its list among other lists. */
  lemma ListPlace(mails: seq<Id>, m: Id, x: Id, y: Id)
    requires m !in mails && x in mails && y in mails && x.list == m.list && y.list != m.list
    ensures Precedes(mails, x, y) ==> Precedes(mails + [m], m, y)
    ensures Precedes(mails, y, x) ==> Precedes(mails + [m], y, m)
  {
    FirstStays(mails, m, x);
    FirstStays(mails, m, y);
  }

  lemma GrownFirst(mails: seq<Id>, m: Id, g: seq<Id>, h: seq<Id>)
    requires m !in mails && g != [] && g[0].list == m.list && GroupBefore(mails, g, h)
    ensures GroupBefore(mails + [m], g + [m], h)
  {
    BeforeStays(mails, m, g, h);
    forall y | y in h ensures y in mails && y.list != m.list && Precedes(mails + [m], m, y) {
      assert g[0] in g;
      ListPlace(mails, m, g[0], y);
    }
  }

  lemma GrownSecond(mails: seq<Id>, m: Id, g: seq<Id>, h: seq<Id>)
    requires m !in mails && h != [] && h[0].list == m.list && GroupBefore(mails, g, h)
    ensures GroupBefore(mails + [m], g, h + [m])
  {
    BeforeStays(mails, m, g, h);
    forall x | x in g ensures x in mails && x.list != m.list && Precedes(mails + [m], x, m) {
      assert h[0] in h;
      ListPlace(mails, m, h[0], x);
    }
  }

  lemma OldListSound(mails: seq<Id>, m: Id, groups: seq<seq<Id>>)
    requires GroupsSound(mails, groups) && m !in mails && GroupIndex(groups, m.list) < |groups|
    ensures GroupsSound(mails + [m], AddTo(groups, m))
  {
    var more, gs, k := mails + [m], AddTo(groups, m), GroupIndex(groups, m.list);
    GroupsStay(mails, m, groups);
    GrownGroup(mails, m, groups[k]);
    forall i | 0 <= i < |gs| ensures GroupSound(more, gs[i]) {
      assert i != k ==> gs[i] == groups[i];
    }
    forall i, j | 0 <= i < j < |gs| ensures GroupBefore(more, gs[i], gs[j]) {
      if i == k {
        GrownFirst(mails, m, groups[i], groups[j]);
      } else if j == k {
        GrownSecond(mails, m, groups[i], groups[j]);
      }
    }
    CoversMore(mails, m, groups, gs, k);
  }

  lemma {:induction false} GroupedSound(mails: seq<Id>)
    ensures GroupsSound(mails, Grouped(mails))
  {
    if mails != [] {
      var before, m := mails[..|mails| - 1], mails[|mails| - 1];
      assert mails == before + [m];
      GroupedSound(before);
      if m in before {
        SeenSound(before, m, Grouped(before));
      } else if GroupIndex(Grouped(before), m.list) < |Grouped(before)| {
        OldListSound(before, m, Grouped(before));
      } else {
        NewListSound(before, m, Grouped(before));
      }
    }
  }

  // ----- the main property -----

  function Flatten(requests: seq<seq<Id>>): seq<Id> {
    if requests == [] then [] else requests[0] + Flatten(requests[1..])
  }

  lemma {:induction false} FlattenConcat(a: seq<seq<Id>>, b: seq<seq<Id>>)
    ensures Flatten(a + b) == Flatten(a) + Flatten(b)
  {
    if a == [] {
      assert a + b == b;
    } else {
      assert (a + b)[1..] == a[1..] + b;
      FlattenConcat(a[1..], b);
    }
  }

  lemma {:induction false} ChunksFlatten(group: seq<Id>)
    ensures Flatten(Chunks(group)) == group
    ensures forall c :: c in Chunks(group) ==> 0 < |c| <= MAIL_BATCH_LIMIT && forall x :: x in c ==> x in group
    decreases |group|
  {
    if |group| > MAIL_BATCH_LIMIT {
      ChunksFlatten(group[MAIL_BATCH_LIMIT..]);
      assert group == group[..MAIL_BATCH_LIMIT] + group[MAIL_BATCH_LIMIT..];
    }
  }

  lemma {:induction false} AllChunksFlatten(groups: seq<seq<Id>>)
    ensures Flatten(AllChunks(groups)) == Flatten(groups)
  {
    if groups != [] {
      ChunksFlatten(groups[0]);
      AllChunksFlatten(groups[1..]);
      FlattenConcat(Chunks(groups[0]), AllChunks(groups[1..]));
    }
  }

  lemma {:induction false} ChunkOf(groups: seq<seq<Id>>, c: seq<Id>) returns (g: seq<Id>)
    requires c in AllChunks(groups)
    ensures 0 < |c| <= MAIL_BATCH_LIMIT && g in groups && forall x :: x in c ==> x in g
  {
    ChunksFlatten(groups[0]);
    if c in Chunks(groups[0]) {
      g := groups[0];
    } else {
      g := ChunkOf(groups[1..], c);
    }
  }

  lemma {:induction false} FlattenMembers(groups: seq<seq<Id>>, x: Id)
    ensures x in Flatten(groups) <==> exists i :: 0 <= i < |groups| && x in groups[i]
  {
    if groups != [] {
      FlattenMembers(groups[1..], x);
      assert forall i :: 0 <= i < |groups[1..]| ==> groups[1..][i] == groups[i + 1];
      if i :| 0 <= i < |groups| && x in groups[i] {
        assert i > 0 ==> x in groups[1..][i - 1];
      }
    }
  }

  lemma {:induction false} FlattenOrdered(mails: seq<Id>, groups: seq<seq<Id>>)
    requires forall i :: 0 <= i < |groups| ==> GroupSound(mails, groups[i])
    requires forall i, j :: 0 <= i < j < |groups| ==> GroupBefore(mails, groups[i], groups[j])
    ensures Ordered(mails, Flatten(groups))
  {
    if groups != [] {
      var g, rest := groups[0], Flatten(groups[1..]);
      FlattenOrdered(mails, groups[1..]);
      forall y | y in rest ensures forall x :: x in g ==> Precedes(mails, x, y) {
        FlattenMembers(groups[1..], y);
        var i :| 0 <= i < |groups[1..]| && y in groups[1..][i];
        assert GroupBefore(mails, groups[0], groups[i + 1]);
      }
      assert GroupSound(mails, g);
      OrderedConcat(mails, g, rest);
    }
  }

  lemma OrderedConcat(mails: seq<Id>, a: seq<Id>, b: seq<Id>)
    requires Ordered(mails, a) && Ordered(mails, b)
    requires forall x, y :: x in a && y in b ==> Precedes(mails, x, y)
    ensures Ordered(mails, a + b)
  {
    var s := a + b;
    forall i, j | 0 <= i < j < |s| ensures Precedes(mails, s[i], s[j]) {
      if j < |a| {
        assert s[i] == a[i] && s[j] == a[j];
      } else if i < |a| {
        assert s[i] == a[i] && s[j] == b[j - |a|];
        assert a[i] in a && b[j - |a|] in b;
      } else {
        assert s[i] == b[i - |a|] && s[j] == b[j - |a|];
      }
    }
  }

  /** A request is full when the next one is of the same list: no mail of a list could have gone along earlier. */
  ghost predicate Filled(requests: seq<seq<Id>>) {
    forall i, j :: 0 <= i && j == i + 1 < |requests| ==> FullOrLast(requests[i], requests[j])
  }

  predicate FullOrLast(c: seq<Id>, d: seq<Id>) {
    c != [] && d != [] && c[0].list == d[0].list ==> |c| == 50
  }

  lemma {:induction false} ChunksFilled(group: seq<Id>)
    ensures Filled(Chunks(group))
    decreases |group|
  {
    if |group| > MAIL_BATCH_LIMIT {
      var rest := Chunks(group[MAIL_BATCH_LIMIT..]);
      ChunksFilled(group[MAIL_BATCH_LIMIT..]);
      FilledConcat([group[..MAIL_BATCH_LIMIT]], rest);
    }
  }

  lemma FilledConcat(a: seq<seq<Id>>, b: seq<seq<Id>>)
    requires Filled(a) && Filled(b) && (a != [] && b != [] ==> FullOrLast(a[|a| - 1], b[0]))
    ensures Filled(a + b)
  {
    var s := a + b;
    forall i, j | 0 <= i && j == i + 1 < |s| ensures FullOrLast(s[i], s[j]) {
      if j < |a| {
        assert s[i] == a[i] && s[j] == a[j];
      } else if i >= |a| {
        assert s[i] == b[i - |a|] && s[j] == b[j - |a|];
      }
    }
  }

  lemma ChunkInGroup(group: seq<Id>, c: seq<Id>)
    requires c in Chunks(group)
    ensures c != [] && c[0] in group
  {
    ChunksFlatten(group);
    assert c[0] in c;
  }

  lemma ListsDiffer(mails: seq<Id>, g: seq<Id>, h: seq<Id>, c: seq<Id>, d: seq<Id>)
    requires GroupBefore(mails, g, h) && c != [] && d != [] && c[0] in g && d[0] in h
    ensures FullOrLast(c, d)
  {
  }

  lemma {:induction false} AllChunksFilled(mails: seq<Id>, groups: seq<seq<Id>>)
    requires forall i :: 0 <= i < |groups| ==> GroupSound(mails, groups[i])
    requires forall i, j :: 0 <= i < j < |groups| ==> GroupBefore(mails, groups[i], groups[j])
    ensures Filled(AllChunks(groups))
  {
    if groups != [] {
      var a, b := Chunks(groups[0]), AllChunks(groups[1..]);
      ChunksFilled(groups[0]);
      AllChunksFilled(mails, groups[1..]);
      if a != [] && b != [] {
        ChunkInGroup(groups[0], a[|a| - 1]);
        var g := ChunkOf(groups[1..], b[0]);
        var i :| 0 <= i < |groups[1..]| && groups[1..][i] == g;
        ListsDiffer(mails, groups[0], groups[i + 1], a[|a| - 1], b[0]);
      }
      FilledConcat(a, b);
    }
  }

  /**
   * The requests are never empty, hold at most 50 mails of one list each, and together name every given mail exactly
   * once, in as few requests as that takes: lists in the order they are first seen, mails of a list likewise. (What precedes differs, so the order also
   * says that nothing is sent twice.)
   */
  lemma RequestsSound(mails: seq<Id>)
    ensures forall c :: c in Requests(mails) ==> 0 < |c| <= 50 && forall x, y :: x in c && y in c ==> x.list == y.list
    ensures forall m :: m in Flatten(Requests(mails)) <==> m in mails
    ensures Ordered(mails, Flatten(Requests(mails))) && Filled(Requests(mails))
    ensures forall i, j :: 0 <= i < j < |Flatten(Requests(mails))| ==>
              Flatten(Requests(mails))[i] != Flatten(Requests(mails))[j]
  {
    var groups := Grouped(mails);
    GroupedSound(mails);
    AllChunksFlatten(groups);
    FlattenOrdered(mails, groups);
    AllChunksFilled(mails, groups);
    forall m ensures m in Flatten(groups) <==> m in mails {
      FlattenMembers(groups, m);
    }
    forall c | c in Requests(mails) ensures 0 < |c| <= 50 && forall x, y :: x in c && y in c ==> x.list == y.list {
      var g := ChunkOf(groups, c);
      assert GroupSound(mails, g);
    }
  }
}
