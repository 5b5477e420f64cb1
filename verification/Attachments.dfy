/** Loading a mail's attachments: one request per list, the answer checked, keys assigned, blobs put together. */
module Attachments {
  import opened Wrappers
  import opened DeleteBatches

  // ----- entities and the server -----

  datatype Reason =
    | NotInMailAttachments | IncompleteBatch | DuplicateInBatch | WrongList | KeyUnavailable | NoBucketEntry
    | AmbiguousBucketEntries | GroupReferenceUnsupported | UnsupportedGroupContext

  datatype Error = Contract(reason: Reason) | Transport | Indeterminate

  datatype ApiError = RestClient | ServerResponse | InternalSdk

  datatype BucketError = NoEntry | AmbiguousEntries | GroupReference | Resolution

  function Classify(e: ApiError): (r: Error)
    ensures r == Transport <==> e.RestClient? || e.ServerResponse?
    ensures r == Indeterminate <==> e.InternalSdk?
  {
    if e.InternalSdk? then Indeterminate else Transport
  }

  function ClassifyBucket(e: BucketError): (r: Error)
    ensures r == Contract(NoBucketEntry) <==> e.NoEntry?
    ensures r == Contract(AmbiguousBucketEntries) <==> e.AmbiguousEntries?
    ensures r == Contract(GroupReferenceUnsupported) <==> e.GroupReference?
    ensures r == Indeterminate <==> e.Resolution?
  {
    match e
    case NoEntry => Contract(NoBucketEntry)
    case AmbiguousEntries => Contract(AmbiguousBucketEntries)
    case GroupReference => Contract(GroupReferenceUnsupported)
    case Resolution => Indeterminate
  }

  datatype ResolvedKey = ResolvedKey(session: string, envelope: string, version: nat)

  /** A File as it was loaded, still encrypted. */
  datatype Parsed = Parsed(id: Option<Id>, hasOwnKey: bool, group: Option<string>, payload: string)

  datatype Blob = Blob(archive: string, id: string)

  datatype File = File(id: Option<Id>, blobs: seq<Blob>, hasErrors: bool, ownerKeyVersion: Option<nat>,
                       ownerEnvelope: Option<string>, metadata: string)

  datatype Mail = Mail(attachments: seq<Id>, bucket: Option<string>, ownerGroup: Option<string>)

  /** What the server and the cryptography answer. */
  datatype Server = Server(load: (string, seq<string>) -> Result<seq<Parsed>, ApiError>,
                           ownKey: Parsed -> Option<ResolvedKey>,
                           bucketKeys: (string, string, seq<Id>) -> Result<seq<ResolvedKey>, BucketError>,
                           decrypt: (Parsed, ResolvedKey) -> Result<File, ApiError>,
                           download: (string, Id, seq<string>) -> Result<map<string, string>, ApiError>,
                           open: (string, string) -> Option<string>)

  /** The bucket answers with one key for each File asked about. */
  ghost predicate Lawful(s: Server) {
    forall bucket, group, ids :: s.bucketKeys(bucket, group, ids).Ok? ==> |s.bucketKeys(bucket, group, ids).value| == |ids|
  }

  // ----- the requests -----

  predicate Distinct(ids: seq<Id>) {
    forall i, j :: 0 <= i < j < |ids| ==> ids[i] != ids[j]
  }

  /** The elements of one list, in order. */
  function ElementsOf(ids: seq<Id>, list: string): (r: seq<string>)
    ensures forall e :: e in r <==> Id(list, e) in ids
  {
    if ids == [] then []
    else
      var before, m := ids[..|ids| - 1], ids[|ids| - 1];
      assert ids == before + [m];
      ElementsOf(before, list) + if m.list == list then [m.element] else []
  }

  datatype Request = Request(list: string, elements: seq<string>)

  /** One request for each list that occurs, each with all its elements. */
  ghost predicate Covers(lists: seq<Request>, ids: seq<Id>) {
    && (forall k :: 0 <= k < |lists| ==> lists[k].elements == ElementsOf(ids, lists[k].list))
    && (forall k, l :: 0 <= k < l < |lists| ==> lists[k].list != lists[l].list)
    && (forall id :: id in ids ==> exists k :: 0 <= k < |lists| && lists[k].list == id.list)
    && (forall k :: 0 <= k < |lists| ==> lists[k].elements != [])
  }

  function IndexOf(lists: seq<Request>, list: string): (k: nat)
    ensures k <= |lists| && (k < |lists| ==> lists[k].list == list)
    ensures forall l :: 0 <= l < k ==> lists[l].list != list
  {
    if lists == [] || lists[0].list == list then 0 else IndexOf(lists[1..], list) + 1
  }

  lemma ElementsSnoc(ids: seq<Id>, m: Id, list: string)
    ensures ElementsOf(ids + [m], list) == ElementsOf(ids, list) + if m.list == list then [m.element] else []
  {
    assert (ids + [m])[..|ids|] == ids;
  }

  lemma {:induction false} NoElements(ids: seq<Id>, list: string)
    requires forall id :: id in ids ==> id.list != list
    ensures ElementsOf(ids, list) == []
  {
    if ids != [] {
      NoElements(ids[..|ids| - 1], list);
    }
  }

  lemma CoversOld(lists: seq<Request>, ids: seq<Id>, m: Id, k: nat)
    requires Covers(lists, ids) && k < |lists| && lists[k].list == m.list
    ensures Covers(lists[k := Request(m.list, lists[k].elements + [m.element])], ids + [m])
  {
    var more := lists[k := Request(m.list, lists[k].elements + [m.element])];
    forall l | 0 <= l < |more| ensures more[l].elements == ElementsOf(ids + [m], more[l].list) {
      ElementsSnoc(ids, m, more[l].list);
    }
    forall id | id in ids + [m] ensures exists l :: 0 <= l < |more| && more[l].list == id.list {
      if id == m {
        assert more[k].list == id.list;
      } else {
        var l :| 0 <= l < |lists| && lists[l].list == id.list;
        assert more[l].list == id.list;
      }
    }
  }

  lemma NewElements(lists: seq<Request>, ids: seq<Id>, m: Id)
    requires Covers(lists, ids) && forall l :: 0 <= l < |lists| ==> lists[l].list != m.list
    ensures ElementsOf(ids + [m], m.list) == [m.element]
    ensures forall l :: 0 <= l < |lists| ==> lists[l].elements == ElementsOf(ids + [m], lists[l].list)
  {
    forall id | id in ids ensures id.list != m.list {
      var l :| 0 <= l < |lists| && lists[l].list == id.list;
    }
    NoElements(ids, m.list);
    ElementsSnoc(ids, m, m.list);
    forall l | 0 <= l < |lists| ensures lists[l].elements == ElementsOf(ids + [m], lists[l].list) {
      ElementsSnoc(ids, m, lists[l].list);
    }
  }

  lemma CoversNew(lists: seq<Request>, ids: seq<Id>, m: Id)
    requires Covers(lists, ids) && forall l :: 0 <= l < |lists| ==> lists[l].list != m.list
    ensures Covers(lists + [Request(m.list, [m.element])], ids + [m])
  {
    var more := lists + [Request(m.list, [m.element])];
    NewElements(lists, ids, m);
    forall id | id in ids + [m] ensures exists l :: 0 <= l < |more| && more[l].list == id.list {
      if id == m {
        assert more[|lists|].list == id.list;
      } else {
        var l :| 0 <= l < |lists| && lists[l].list == id.list;
        assert more[l].list == id.list;
      }
    }
  }

  lemma DistinctSnoc(ids: seq<Id>, k: nat)
    requires k < |ids| && Distinct(ids[..k])
    ensures Distinct(ids[..k + 1]) <==> ids[k] !in ids[..k]
    ensures ids[..k + 1] == ids[..k] + [ids[k]]
    ensures Distinct(ids) ==> ids[k] !in ids[..k]
  {
    if ids[k] in ids[..k] {
      var j :| 0 <= j < k && ids[..k][j] == ids[k];
      assert ids[..k + 1][j] == ids[..k + 1][k];
    }
  }

  /** Collects the references by list and refuses the second reference to a File. */
  method GroupRequests(ids: seq<Id>) returns (r: Result<seq<Request>, Error>)
    ensures r.Ok? <==> Distinct(ids)
    ensures r.Ok? ==> Covers(r.value, ids)
    ensures r.Err? ==> r.error == Contract(DuplicateInBatch)
  {
    var lists: seq<Request> := [];
    for k := 0 to |ids|
      invariant Covers(lists, ids[..k])
      invariant Distinct(ids[..k])
    {
      var id := ids[k];
      DistinctSnoc(ids, k);
      var i := IndexOf(lists, id.list);
      if i < |lists| {
        if id.element in lists[i].elements {
          return Err(Contract(DuplicateInBatch));
        }
        CoversOld(lists, ids[..k], id, i);
        lists := lists[i := Request(id.list, lists[i].elements + [id.element])];
      } else {
        CoversNew(lists, ids[..k], id);
        lists := lists + [Request(id.list, [id.element])];
      }
    }
    assert ids[..|ids|] == ids;
    return Ok(lists);
  }

  // ----- the answers -----

  predicate Fits(q: Request, p: Parsed) {
    p.id.Some? && p.id.value.list == q.list && p.id.value.element in q.elements
  }

  /** Every File has an id among those asked for, and no id comes twice. */
  predicate Sound(q: Request, loaded: seq<Parsed>) {
    && (forall i :: 0 <= i < |loaded| ==> Fits(q, loaded[i]))
    && (forall i, j :: 0 <= i < j < |loaded| ==> loaded[i].id != loaded[j].id)
  }

  /** Every id asked for is there, too. */
  ghost predicate Complete(q: Request, loaded: seq<Parsed>) {
    && Sound(q, loaded)
    && (forall e :: e in q.elements ==> exists i :: 0 <= i < |loaded| && loaded[i].id == Some(Id(q.list, e)))
  }

  /** The files hold exactly these answers besides what was there before. */
  ghost predicate Adds(before: map<Id, Parsed>, loaded: seq<Parsed>, after: map<Id, Parsed>) {
    && (forall i :: 0 <= i < |loaded| ==>
          loaded[i].id.Some? && loaded[i].id.value in after && after[loaded[i].id.value] == loaded[i])
    && (forall id :: id in before ==> id in after && after[id] == before[id])
    && (forall id :: id in after && id !in before ==> exists i :: 0 <= i < |loaded| && loaded[i].id == Some(id))
  }

  /** What is wrong with an answer, in the order it is checked. */
  function Fault(q: Request, p: Parsed, files: map<Id, Parsed>): Option<Error> {
    if p.id.None? then Some(Indeterminate)
    else if p.id.value.list != q.list then Some(Contract(WrongList))
    else if p.id.value.element !in q.elements then Some(Contract(NotInMailAttachments))
    else if p.id.value in files then Some(Contract(DuplicateInBatch))
    else None
  }

  lemma AddsOne(before: map<Id, Parsed>, loaded: seq<Parsed>, after: map<Id, Parsed>, p: Parsed)
    requires Adds(before, loaded, after) && p.id.Some? && p.id.value !in after
    ensures Adds(before, loaded + [p], after[p.id.value := p])
  {
    var more, files := loaded + [p], after[p.id.value := p];
    forall id | id in files && id !in before ensures exists i :: 0 <= i < |more| && more[i].id == Some(id) {
      if id == p.id.value {
        assert more[|loaded|].id == Some(id);
      } else {
        var i :| 0 <= i < |loaded| && loaded[i].id == Some(id);
        assert more[i].id == Some(id);
      }
    }
  }

  lemma SoundOne(q: Request, loaded: seq<Parsed>, k: nat, before: map<Id, Parsed>, after: map<Id, Parsed>)
    requires k < |loaded| && Sound(q, loaded[..k]) && Adds(before, loaded[..k], after)
    requires forall id :: id in before ==> id.list != q.list
    ensures loaded[..k + 1] == loaded[..k] + [loaded[k]]
    ensures Fault(q, loaded[k], after).None? ==> Sound(q, loaded[..k + 1])
    ensures Fault(q, loaded[k], after).Some? ==> !Sound(q, loaded)
  {
    var p := loaded[k];
    if Fits(q, p) && p.id.value in after {
      var i :| 0 <= i < k && loaded[..k][i].id == p.id;
      assert loaded[i].id == loaded[k].id;
    }
  }

  /** A refusal names something that is really wrong with the answer. */
  predicate Justified(q: Request, loaded: seq<Parsed>, e: Error) {
    match e
    case Contract(WrongList) => exists p :: p in loaded && p.id.Some? && p.id.value.list != q.list
    case Contract(NotInMailAttachments) => exists p :: p in loaded && p.id.Some? && p.id.value.element !in q.elements
    case Contract(DuplicateInBatch) => exists i, j :: 0 <= i < j < |loaded| && loaded[i].id == loaded[j].id
    case Indeterminate => exists p :: p in loaded && p.id.None?
    case _ => false
  }

  lemma FaultJustified(q: Request, loaded: seq<Parsed>, k: nat, before: map<Id, Parsed>, after: map<Id, Parsed>)
    requires k < |loaded| && Adds(before, loaded[..k], after)
    requires forall id :: id in before ==> id.list != q.list
    requires Fault(q, loaded[k], after).Some?
    ensures Justified(q, loaded, Fault(q, loaded[k], after).value)
  {
    var p := loaded[k];
    assert p in loaded;
    if Fits(q, p) {
      var i :| 0 <= i < k && loaded[..k][i].id == p.id;
      assert loaded[i].id == loaded[k].id;
    }
  }

  /** One answer, checked File by File and entered in the map. */
  method CheckAnswer(q: Request, loaded: seq<Parsed>, files: map<Id, Parsed>) returns (r: Result<map<Id, Parsed>, Error>)
    requires forall id :: id in files ==> id.list != q.list
    ensures r.Ok? <==> Sound(q, loaded)
    ensures r.Ok? ==> Adds(files, loaded, r.value)
    ensures r.Err? ==> Justified(q, loaded, r.error)
  {
    var all := files;
    for k := 0 to |loaded|
      invariant Sound(q, loaded[..k])
      invariant Adds(files, loaded[..k], all)
    {
      var p := loaded[k];
      SoundOne(q, loaded, k, files, all);
      var fault := Fault(q, p, all);
      if fault.Some? {
        FaultJustified(q, loaded, k, files, all);
        return Err(fault.value);
      }
      AddsOne(files, loaded[..k], all, p);
      all := all[p.id.value := p];
    }
    assert loaded[..|loaded|] == loaded;
    return Ok(all);
  }

  function Answer(s: Server, q: Request): Result<seq<Parsed>, ApiError> {
    s.load(q.list, q.elements)
  }

  /** The files are exactly the answers to these requests. */
  ghost predicate Collected(s: Server, lists: seq<Request>, files: map<Id, Parsed>) {
    && (forall k, i :: 0 <= k < |lists| && Answer(s, lists[k]).Ok? && 0 <= i < |Answer(s, lists[k]).value| ==>
          var p := Answer(s, lists[k]).value[i];
          p.id.Some? && p.id.value in files && files[p.id.value] == p)
    && (forall id :: id in files ==>
          exists k :: 0 <= k < |lists| && lists[k].list == id.list && Answer(s, lists[k]).Ok?
                      && files[id] in Answer(s, lists[k]).value && files[id].id == Some(id))
  }

  lemma CollectedOne(s: Server, lists: seq<Request>, k: nat, before: map<Id, Parsed>, after: map<Id, Parsed>)
    requires k < |lists| && Collected(s, lists[..k], before) && Answer(s, lists[k]).Ok?
    requires Sound(lists[k], Answer(s, lists[k]).value) && Adds(before, Answer(s, lists[k]).value, after)
    ensures Collected(s, lists[..k + 1], after)
  {
    var some, loaded := lists[..k + 1], Answer(s, lists[k]).value;
    assert some[..k] == lists[..k];
    forall l, i | 0 <= l < |some| && Answer(s, some[l]).Ok? && 0 <= i < |Answer(s, some[l]).value|
      ensures var p := Answer(s, some[l]).value[i]; p.id.Some? && p.id.value in after && after[p.id.value] == p
    {
      if l < k {
        assert some[l] == lists[..k][l];
      }
    }
    forall id | id in after
      ensures exists l :: 0 <= l < |some| && some[l].list == id.list && Answer(s, some[l]).Ok?
                          && after[id] in Answer(s, some[l]).value && after[id].id == Some(id)
    {
      if id in before {
        var l :| 0 <= l < k && lists[..k][l].list == id.list && Answer(s, lists[..k][l]).Ok?
                 && before[id] in Answer(s, lists[..k][l]).value && before[id].id == Some(id);
        assert some[l] == lists[..k][l];
      } else {
        var i :| 0 <= i < |loaded| && loaded[i].id == Some(id);
        assert some[k] == lists[k] && Fits(lists[k], loaded[i]);
      }
    }
  }

  /** Why the answer to a request is no good. */
  predicate AnswerFault(s: Server, q: Request, e: Error) {
    var a := Answer(s, q);
    if a.Err? then e == Classify(a.error) else !Sound(q, a.value) && Justified(q, a.value, e)
  }

  predicate SoundlyAnswered(s: Server, mail: Mail, list: string) {
    Answer(s, RequestOf(mail, list)).Ok? && Sound(RequestOf(mail, list), Answer(s, RequestOf(mail, list)).value)
  }

  /** Why the Files cannot be loaded. */
  ghost predicate FileFault(s: Server, mail: Mail, e: Error) {
    if !Distinct(mail.attachments) then e == Contract(DuplicateInBatch)
    else
      || (exists id :: id in mail.attachments && AnswerFault(s, RequestOf(mail, id.list), e))
      || (e == Contract(IncompleteBatch)
          && (forall id :: id in mail.attachments ==> SoundlyAnswered(s, mail, id.list))
          && exists id :: id in mail.attachments
                          && forall p :: p in Answer(s, RequestOf(mail, id.list)).value ==> p.id != Some(id))
  }

  method LoadLists(s: Server, lists: seq<Request>) returns (r: Result<map<Id, Parsed>, Error>)
    requires forall k, l :: 0 <= k < l < |lists| ==> lists[k].list != lists[l].list
    ensures r.Ok? <==> forall k :: 0 <= k < |lists| ==> Answer(s, lists[k]).Ok? && Sound(lists[k], Answer(s, lists[k]).value)
    ensures r.Ok? ==> Collected(s, lists, r.value)
    ensures r.Err? ==> exists k :: 0 <= k < |lists| && AnswerFault(s, lists[k], r.error)
  {
    var files: map<Id, Parsed> := map[];
    for k := 0 to |lists|
      invariant forall l :: 0 <= l < k ==> Answer(s, lists[l]).Ok? && Sound(lists[l], Answer(s, lists[l]).value)
      invariant Collected(s, lists[..k], files)
    {
      var q := lists[k];
      var loaded := Answer(s, q);
      if loaded.Err? {
        assert AnswerFault(s, lists[k], Classify(loaded.error));
        return Err(Classify(loaded.error));
      }
      forall id | id in files ensures id.list != q.list {
        var l :| 0 <= l < k && lists[..k][l].list == id.list;
        assert lists[l].list == id.list;
      }
      var checked := CheckAnswer(q, loaded.value, files);
      if checked.Err? {
        assert AnswerFault(s, lists[k], checked.error);
        return Err(checked.error);
      }
      CollectedOne(s, lists, k, files, checked.value);
      files := checked.value;
    }
    assert lists[..|lists|] == lists;
    return Ok(files);
  }

  /** What the server answers for a list of the mail. */
  function RequestOf(mail: Mail, list: string): Request {
    Request(list, ElementsOf(mail.attachments, list))
  }

  /** Every list is answered completely and with nothing else. */
  ghost predicate AllAnswered(s: Server, mail: Mail) {
    forall id :: id in mail.attachments ==>
      Answer(s, RequestOf(mail, id.list)).Ok? && Complete(RequestOf(mail, id.list), Answer(s, RequestOf(mail, id.list)).value)
  }

  /** The answered File with this id. */
  function Find(loaded: seq<Parsed>, id: Id): Option<Parsed> {
    if loaded == [] then None else if loaded[0].id == Some(id) then Some(loaded[0]) else Find(loaded[1..], id)
  }

  lemma {:induction false} FindIt(loaded: seq<Parsed>, p: Parsed, id: Id)
    requires p in loaded && p.id == Some(id)
    requires forall i, j :: 0 <= i < j < |loaded| ==> loaded[i].id != loaded[j].id
    ensures Find(loaded, id) == Some(p)
  {
    if loaded[0].id != Some(id) {
      FindIt(loaded[1..], p, id);
    } else {
      var i :| 0 <= i < |loaded| && loaded[i] == p;
      assert i > 0 ==> loaded[0].id != loaded[i].id;
    }
  }

  /** The File the server has for a reference. */
  function FileFor(s: Server, mail: Mail, id: Id): Option<Parsed> {
    var a := Answer(s, RequestOf(mail, id.list));
    if a.Ok? then Find(a.value, id) else None
  }

  lemma Answered(s: Server, mail: Mail, lists: seq<Request>, files: map<Id, Parsed>, id: Id)
    requires Covers(lists, mail.attachments) && Collected(s, lists, files)
    requires forall k :: 0 <= k < |lists| ==> Answer(s, lists[k]).Ok? && Sound(lists[k], Answer(s, lists[k]).value)
    requires id in files
    ensures FileFor(s, mail, id) == Some(files[id]) && id in mail.attachments
  {
    var k :| 0 <= k < |lists| && lists[k].list == id.list && Answer(s, lists[k]).Ok?
             && files[id] in Answer(s, lists[k]).value && files[id].id == Some(id);
    assert lists[k] == RequestOf(mail, id.list);
    var loaded := Answer(s, lists[k]).value;
    FindIt(loaded, files[id], id);
    var i :| 0 <= i < |loaded| && loaded[i] == files[id];
    assert Fits(lists[k], loaded[i]);
  }

  /** With everything there, every list is complete; and conversely. */
  lemma AnsweredIff(s: Server, mail: Mail, lists: seq<Request>, files: map<Id, Parsed>)
    requires Covers(lists, mail.attachments) && Collected(s, lists, files)
    requires forall k :: 0 <= k < |lists| ==> Answer(s, lists[k]).Ok? && Sound(lists[k], Answer(s, lists[k]).value)
    ensures (forall id :: id in mail.attachments ==> id in files) <==> AllAnswered(s, mail)
  {
    if forall id :: id in mail.attachments ==> id in files {
      forall id | id in mail.attachments
        ensures Answer(s, RequestOf(mail, id.list)).Ok?
        ensures Complete(RequestOf(mail, id.list), Answer(s, RequestOf(mail, id.list)).value)
      {
        var k :| 0 <= k < |lists| && lists[k].list == id.list;
        assert lists[k] == RequestOf(mail, id.list);
        ListComplete(s, mail, lists, files, k);
      }
    }
    if AllAnswered(s, mail) {
      forall id | id in mail.attachments ensures id in files {
        var k :| 0 <= k < |lists| && lists[k].list == id.list;
        assert lists[k] == RequestOf(mail, id.list);
        assert id.element in lists[k].elements;
        var i :| 0 <= i < |Answer(s, lists[k]).value| && Answer(s, lists[k]).value[i].id == Some(Id(id.list, id.element));
      }
    }
  }

  lemma ListComplete(s: Server, mail: Mail, lists: seq<Request>, files: map<Id, Parsed>, k: nat)
    requires Covers(lists, mail.attachments) && Collected(s, lists, files) && k < |lists|
    requires Answer(s, lists[k]).Ok? && Sound(lists[k], Answer(s, lists[k]).value)
    requires forall id :: id in mail.attachments ==> id in files
    ensures Complete(lists[k], Answer(s, lists[k]).value)
  {
    var q, loaded := lists[k], Answer(s, lists[k]).value;
    forall e | e in q.elements ensures exists i :: 0 <= i < |loaded| && loaded[i].id == Some(Id(q.list, e)) {
      var id := Id(q.list, e);
      var l :| 0 <= l < |lists| && lists[l].list == id.list && Answer(s, lists[l]).Ok?
               && files[id] in Answer(s, lists[l]).value && files[id].id == Some(id);
      assert l == k;
      var i :| 0 <= i < |loaded| && loaded[i] == files[id];
    }
  }

  method LoadFiles(s: Server, mail: Mail) returns (r: Result<map<Id, Parsed>, Error>)
    ensures r.Ok? <==> Distinct(mail.attachments) && AllAnswered(s, mail)
    ensures r.Ok? ==> forall id :: id in r.value <==> id in mail.attachments
    ensures r.Ok? ==> forall id :: id in mail.attachments ==> FileFor(s, mail, id) == Some(r.value[id])
    ensures r.Err? ==> FileFault(s, mail, r.error)
  {
    var requests := GroupRequests(mail.attachments);
    if requests.Err? {
      return Err(requests.error);
    }
    var lists := requests.value;
    var loaded := LoadLists(s, lists);
    if loaded.Err? {
      ghost var k :| 0 <= k < |lists| && AnswerFault(s, lists[k], loaded.error);
      assert lists[k] == RequestOf(mail, lists[k].list) && lists[k].elements[0] in lists[k].elements;
      assert Id(lists[k].list, lists[k].elements[0]) in mail.attachments;
      return Err(loaded.error);
    }
    var files := loaded.value;
    AnsweredIff(s, mail, lists, files);
    forall id | id in files ensures FileFor(s, mail, id) == Some(files[id]) && id in mail.attachments {
      Answered(s, mail, lists, files, id);
    }
    if exists id :: id in mail.attachments && id !in files {
      ghost var missing :| missing in mail.attachments && missing !in files;
      forall id | id in mail.attachments ensures SoundlyAnswered(s, mail, id.list) {
        ghost var k :| 0 <= k < |lists| && lists[k].list == id.list;
        assert lists[k] == RequestOf(mail, id.list);
      }
      forall p | p in Answer(s, RequestOf(mail, missing.list)).value ensures p.id != Some(missing) {
        ghost var k :| 0 <= k < |lists| && lists[k].list == missing.list;
        assert lists[k] == RequestOf(mail, missing.list);
      }
      return Err(Contract(IncompleteBatch));
    }
    return Ok(files);
  }

  // ----- keys -----

  /** The references whose File has no key of its own, in order. */
  function Keyless(ids: seq<Id>, files: map<Id, Parsed>): (r: seq<Id>)
    requires forall id :: id in ids ==> id in files
    ensures forall id :: id in r <==> id in ids && !files[id].hasOwnKey
  {
    if ids == [] then []
    else
      var before, m := ids[..|ids| - 1], ids[|ids| - 1];
      assert ids == before + [m];
      Keyless(before, files) + if files[m].hasOwnKey then [] else [m]
  }

  function Position(ids: seq<Id>, id: Id): (i: nat)
    requires id in ids
    ensures i < |ids| && ids[i] == id
  {
    if ids[0] == id then 0 else Position(ids[1..], id) + 1
  }

  /** The bucket can be asked for these references. */
  predicate BucketUsable(s: Server, mail: Mail, files: map<Id, Parsed>, keyless: seq<Id>)
    requires forall id :: id in keyless ==> id in files
  {
    && mail.bucket.Some?
    && mail.ownerGroup.Some?
    && (forall id :: id in keyless ==> files[id].group == mail.ownerGroup)
    && s.bucketKeys(mail.bucket.value, mail.ownerGroup.value, keyless).Ok?
  }

  /** A key for every reference: its own, or one from the bucket. */
  predicate KeysAvailable(s: Server, mail: Mail, files: map<Id, Parsed>)
    requires forall id :: id in mail.attachments ==> id in files
  {
    && (forall id :: id in mail.attachments && files[id].hasOwnKey ==> s.ownKey(files[id]).Some?)
    && (Keyless(mail.attachments, files) != [] ==> BucketUsable(s, mail, files, Keyless(mail.attachments, files)))
  }

  function KeyFor(s: Server, mail: Mail, files: map<Id, Parsed>, id: Id): ResolvedKey
    requires Lawful(s) && (forall i :: i in mail.attachments ==> i in files) && id in mail.attachments
    requires KeysAvailable(s, mail, files)
  {
    if files[id].hasOwnKey then s.ownKey(files[id]).value
    else
      var keyless := Keyless(mail.attachments, files);
      s.bucketKeys(mail.bucket.value, mail.ownerGroup.value, keyless).value[Position(keyless, id)]
  }

  lemma KeylessSnoc(ids: seq<Id>, files: map<Id, Parsed>, k: nat)
    requires (forall id :: id in ids ==> id in files) && k < |ids|
    ensures Keyless(ids[..k + 1], files) == Keyless(ids[..k], files) + if files[ids[k]].hasOwnKey then [] else [ids[k]]
  {
    assert ids[..k + 1][..k] == ids[..k];
  }

  lemma {:induction false} KeylessDistinct(ids: seq<Id>, files: map<Id, Parsed>)
    requires (forall id :: id in ids ==> id in files) && Distinct(ids)
    ensures Distinct(Keyless(ids, files))
  {
    if ids != [] {
      var before, m := ids[..|ids| - 1], ids[|ids| - 1];
      KeylessDistinct(before, files);
      assert m !in before;
    }
  }

  /** The own keys of these references. */
  ghost predicate Own(s: Server, ids: seq<Id>, files: map<Id, Parsed>, keys: map<Id, ResolvedKey>)
    requires forall id :: id in ids ==> id in files
  {
    && (forall id :: id in keys <==> id in ids && files[id].hasOwnKey)
    && (forall id :: id in keys ==> s.ownKey(files[id]) == Some(keys[id]))
  }

  lemma OwnStep(s: Server, ids: seq<Id>, files: map<Id, Parsed>, keys: map<Id, ResolvedKey>, k: nat)
    requires (forall id :: id in ids ==> id in files) && k < |ids| && Own(s, ids[..k], files, keys)
    ensures !files[ids[k]].hasOwnKey ==> Own(s, ids[..k + 1], files, keys)
    ensures files[ids[k]].hasOwnKey && s.ownKey(files[ids[k]]).Some? ==>
              Own(s, ids[..k + 1], files, keys[ids[k] := s.ownKey(files[ids[k]]).value])
  {
    assert ids[..k + 1] == ids[..k] + [ids[k]];
  }

  method OwnKeys(s: Server, ids: seq<Id>, files: map<Id, Parsed>)
    returns (r: Option<map<Id, ResolvedKey>>, fromBucket: seq<Id>)
    requires forall id :: id in ids ==> id in files
    ensures r.Some? <==> forall id :: id in ids && files[id].hasOwnKey ==> s.ownKey(files[id]).Some?
    ensures r.Some? ==> fromBucket == Keyless(ids, files) && Own(s, ids, files, r.value)
  {
    var keys: map<Id, ResolvedKey> := map[];
    fromBucket := [];
    for k := 0 to |ids|
      invariant fromBucket == Keyless(ids[..k], files)
      invariant Own(s, ids[..k], files, keys)
    {
      var id := ids[k];
      KeylessSnoc(ids, files, k);
      OwnStep(s, ids, files, keys, k);
      if files[id].hasOwnKey {
        var key := s.ownKey(files[id]);
        if key.None? {
          assert id in ids;
          return None, [];
        }
        keys := keys[id := key.value];
      } else {
        fromBucket := fromBucket + [id];
      }
    }
    assert ids[..|ids|] == ids;
    assert forall id :: id in ids && files[id].hasOwnKey ==> id in keys;
    r := Some(keys);
  }

  method AddBucketKeys(keys: map<Id, ResolvedKey>, ids: seq<Id>, resolved: seq<ResolvedKey>) returns (r: map<Id, ResolvedKey>)
    requires |ids| == |resolved| && Distinct(ids) && forall id :: id in ids ==> id !in keys
    ensures forall id :: id in r <==> id in keys || id in ids
    ensures forall id :: id in r ==> r[id] == if id in ids then resolved[Position(ids, id)] else keys[id]
  {
    r := keys;
    for k := 0 to |ids|
      invariant forall id :: id in r <==> id in keys || id in ids[..k]
      invariant forall i :: 0 <= i < k ==> ids[i] in r && r[ids[i]] == resolved[i]
      invariant forall id :: id in keys ==> id in r && r[id] == keys[id]
    {
      assert ids[..k + 1] == ids[..k] + [ids[k]];
      r := r[ids[k] := resolved[k]];
    }
    assert ids[..|ids|] == ids;
  }

  /** Every key before any decryption. */
  /**
   * Why keys are missing: a File's own key counts first; for Files without one then the bucket, its group, and its
   * answer.
   */
  predicate KeyFault(s: Server, mail: Mail, files: map<Id, Parsed>, e: Error)
    requires forall id :: id in mail.attachments ==> id in files
  {
    var keyless := Keyless(mail.attachments, files);
    if exists id :: id in mail.attachments && files[id].hasOwnKey && s.ownKey(files[id]).None? then e == Indeterminate
    else if keyless == [] then false
    else if mail.bucket.None? then e == Contract(KeyUnavailable)
    else if mail.ownerGroup.None? then e == Indeterminate
    else if exists id :: id in keyless && files[id].group != mail.ownerGroup then e == Contract(UnsupportedGroupContext)
    else
      var answer := s.bucketKeys(mail.bucket.value, mail.ownerGroup.value, keyless);
      answer.Err? && e == ClassifyBucket(answer.error)
  }

  lemma {:induction false} PositionAt(ids: seq<Id>, i: nat)
    requires Distinct(ids) && i < |ids|
    ensures Position(ids, ids[i]) == i
  {
    if i > 0 {
      PositionAt(ids[1..], i - 1);
    }
  }

  method ResolveKeys(s: Server, mail: Mail, files: map<Id, Parsed>) returns (r: Result<map<Id, ResolvedKey>, Error>)
    requires Lawful(s) && Distinct(mail.attachments) && forall id :: id in mail.attachments ==> id in files
    ensures r.Ok? <==> KeysAvailable(s, mail, files)
    ensures r.Ok? ==> forall id :: id in mail.attachments ==> id in r.value && r.value[id] == KeyFor(s, mail, files, id)
    ensures r.Ok? ==>
              var keyless := Keyless(mail.attachments, files);
              forall i :: 0 <= i < |keyless| ==>
                r.value[keyless[i]] == s.bucketKeys(mail.bucket.value, mail.ownerGroup.value, keyless).value[i]
    ensures r.Err? ==> KeyFault(s, mail, files, r.error)
    ensures r.Ok? ==> forall e :: !KeyFault(s, mail, files, e)
  {
    var own, fromBucket := OwnKeys(s, mail.attachments, files);
    if own.None? {
      return Err(Indeterminate);
    }
    if fromBucket == [] {
      return Ok(own.value);
    }
    if mail.bucket.None? {
      return Err(Contract(KeyUnavailable));
    }
    if mail.ownerGroup.None? {
      return Err(Indeterminate);
    }
    if exists id :: id in fromBucket && files[id].group != mail.ownerGroup {
      return Err(Contract(UnsupportedGroupContext));
    }
    var resolved := s.bucketKeys(mail.bucket.value, mail.ownerGroup.value, fromBucket);
    if resolved.Err? {
      return Err(ClassifyBucket(resolved.error));
    }
    KeylessDistinct(mail.attachments, files);
    var keys := AddBucketKeys(own.value, fromBucket, resolved.value);
    forall i | 0 <= i < |fromBucket| ensures keys[fromBucket[i]] == resolved.value[i] {
      PositionAt(fromBucket, i);
    }
    return Ok(keys);
  }

  // ----- the bytes -----

  function BlobsOf(blobs: seq<Blob>, archive: string): (r: seq<string>)
    ensures forall b :: b in r <==> Blob(archive, b) in blobs
  {
    if blobs == [] then []
    else
      var before, b := blobs[..|blobs| - 1], blobs[|blobs| - 1];
      assert blobs == before + [b];
      BlobsOf(before, archive) + if b.archive == archive then [b.id] else []
  }

  /** What the server sends for one archive. */
  function Sent(s: Server, instance: Id, blobs: seq<Blob>, archive: string): Result<map<string, string>, ApiError> {
    s.download(archive, instance, BlobsOf(blobs, archive))
  }

  /** The archive can be read: it is sent, and all that is sent can be decrypted. */
  predicate Readable(s: Server, instance: Id, blobs: seq<Blob>, archive: string, key: string) {
    var sent := Sent(s, instance, blobs, archive);
    sent.Ok? && forall b :: b in sent.value ==> s.open(key, sent.value[b]).Some?
  }

  predicate BlobReady(s: Server, instance: Id, blobs: seq<Blob>, b: Blob, key: string) {
    Readable(s, instance, blobs, b.archive, key) && b.id in Sent(s, instance, blobs, b.archive).value
  }

  function Plain(s: Server, instance: Id, blobs: seq<Blob>, b: Blob, key: string): string
    requires BlobReady(s, instance, blobs, b, key)
  {
    s.open(key, Sent(s, instance, blobs, b.archive).value[b.id]).value
  }

  /** The decrypted blobs one after another. */
  function Joined(s: Server, instance: Id, all: seq<Blob>, blobs: seq<Blob>, key: string): string
    requires forall b :: b in blobs ==> BlobReady(s, instance, all, b, key)
  {
    if blobs == [] then ""
    else Joined(s, instance, all, blobs[..|blobs| - 1], key) + Plain(s, instance, all, blobs[|blobs| - 1], key)
  }

  predicate DataReady(s: Server, file: File, key: string) {
    file.blobs == [] ||
    (file.id.Some? && forall b :: b in file.blobs ==> BlobReady(s, file.id.value, file.blobs, b, key))
  }

  function DataOf(s: Server, file: File, key: string): string
    requires DataReady(s, file, key)
  {
    if file.blobs == [] then "" else Joined(s, file.id.value, file.blobs, file.blobs, key)
  }

  /** In the order of the list, an id as often as it is there. */
  lemma {:induction false} BlobsConcat(a: seq<Blob>, b: seq<Blob>, archive: string)
    ensures BlobsOf(a + b, archive) == BlobsOf(a, archive) + BlobsOf(b, archive)
    ensures |b| == 1 ==> BlobsOf(b, archive) == if b[0].archive == archive then [b[0].id] else []
  {
    assert |b| == 1 ==> b[..0] == [];
    if b == [] {
      assert a + b == a;
    } else {
      var n := |b| - 1;
      assert (a + b)[..|a + b| - 1] == a + b[..n] && (a + b)[|a + b| - 1] == b[n];
      BlobsConcat(a, b[..n], archive);
    }
  }

  /** The data is that of the blobs one after another, each what the key opens of the bytes sent under its id. */
  lemma {:induction false} JoinedConcat(s: Server, instance: Id, all: seq<Blob>, a: seq<Blob>, b: seq<Blob>, key: string)
    requires forall x :: x in a || x in b ==> BlobReady(s, instance, all, x, key)
    ensures Joined(s, instance, all, a + b, key) == Joined(s, instance, all, a, key) + Joined(s, instance, all, b, key)
  {
    if b == [] {
      assert a + b == a;
    } else {
      var n := |b| - 1;
      assert (a + b)[..|a + b| - 1] == a + b[..n] && (a + b)[|a + b| - 1] == b[n];
      JoinedConcat(s, instance, all, a, b[..n], key);
    }
  }

  lemma JoinedOne(s: Server, instance: Id, all: seq<Blob>, b: Blob, key: string)
    requires BlobReady(s, instance, all, b, key)
    ensures var sent := s.download(b.archive, instance, BlobsOf(all, b.archive));
            && sent.Ok? && b.id in sent.value
            && s.open(key, sent.value[b.id]) == Some(Joined(s, instance, all, [b], key))
  {
    assert [b][..0] == [];
    assert Joined(s, instance, all, [], key) == "";
    assert "" + Plain(s, instance, all, b, key) == Plain(s, instance, all, b, key);
  }

  method ByArchive(blobs: seq<Blob>) returns (archives: map<string, seq<string>>)
    ensures forall a :: a in archives <==> exists b :: b in blobs && b.archive == a
    ensures forall a :: a in archives ==> archives[a] == BlobsOf(blobs, a)
  {
    archives := map[];
    for k := 0 to |blobs|
      invariant forall a :: (if a in archives then archives[a] else []) == BlobsOf(blobs[..k], a)
      invariant forall a :: a in archives ==> archives[a] != []
    {
      var b := blobs[k];
      assert blobs[..k + 1][..k] == blobs[..k];
      archives := archives[b.archive := (if b.archive in archives then archives[b.archive] else []) + [b.id]];
    }
    assert blobs[..|blobs|] == blobs;
    forall a ensures a in archives <==> exists b :: b in blobs && b.archive == a {
      if a in archives {
        assert Blob(a, archives[a][0]) in blobs;
      }
      if b :| b in blobs && b.archive == a {
        assert b == Blob(a, b.id) && b.id in BlobsOf(blobs, a);
      }
    }
  }

  /** The decrypted blobs of the archives that were read. */
  ghost predicate ChunksOf(s: Server, instance: Id, blobs: seq<Blob>, key: string, archives: set<string>,
                           chunks: map<Blob, string>)
  {
    && (forall a :: a in archives ==> Readable(s, instance, blobs, a, key))
    && (forall b :: b in chunks <==> b.archive in archives && Readable(s, instance, blobs, b.archive, key)
                                     && b.id in Sent(s, instance, blobs, b.archive).value)
    && (forall b :: b in chunks ==> s.open(key, Sent(s, instance, blobs, b.archive).value[b.id]) == Some(chunks[b]))
  }

  lemma ChunksMore(s: Server, instance: Id, blobs: seq<Blob>, key: string, archives: set<string>, chunks: map<Blob, string>,
                   a: string)
    requires ChunksOf(s, instance, blobs, key, archives, chunks) && a !in archives && Readable(s, instance, blobs, a, key)
    ensures ChunksOf(s, instance, blobs, key, archives + {a}, chunks + Opened(s, key, a, Sent(s, instance, blobs, a).value))
  {
  }

  function Opened(s: Server, key: string, a: string, sent: map<string, string>): map<Blob, string>
    requires forall b :: b in sent ==> s.open(key, sent[b]).Some?
  {
    map id | id in sent :: Blob(a, id) := s.open(key, sent[id]).value
  }

  /** Why an archive's blobs cannot be read: they were not sent, or something sent cannot be opened. */
  predicate DataFault(s: Server, instance: Id, blobs: seq<Blob>, a: string, e: Error) {
    var sent := Sent(s, instance, blobs, a);
    e == if sent.Err? then Classify(sent.error) else Indeterminate
  }

  predicate Unreadable(s: Server, instance: Id, blobs: seq<Blob>, a: string, key: string, e: Error) {
    !Readable(s, instance, blobs, a, key) && DataFault(s, instance, blobs, a, e)
  }

  method ReadArchive(s: Server, instance: Id, blobs: seq<Blob>, a: string, ids: seq<string>, key: string)
    returns (r: Result<map<Blob, string>, Error>)
    requires ids == BlobsOf(blobs, a)
    ensures r.Ok? <==> Readable(s, instance, blobs, a, key)
    ensures r.Ok? ==> r.value == Opened(s, key, a, Sent(s, instance, blobs, a).value)
    ensures r.Err? ==> Unreadable(s, instance, blobs, a, key, r.error)
  {
    var sent := s.download(a, instance, ids);
    if sent.Err? {
      return Err(Classify(sent.error));
    }
    if exists b :: b in sent.value && s.open(key, sent.value[b]).None? {
      return Err(Indeterminate);
    }
    return Ok(Opened(s, key, a, sent.value));
  }

  /** Archive by archive, in any order. */
  method ReadArchives(s: Server, instance: Id, blobs: seq<Blob>, archives: map<string, seq<string>>, key: string)
    returns (r: Result<map<Blob, string>, Error>)
    requires forall a :: a in archives ==> archives[a] == BlobsOf(blobs, a)
    ensures r.Ok? <==> forall a :: a in archives ==> Readable(s, instance, blobs, a, key)
    ensures r.Ok? ==> ChunksOf(s, instance, blobs, key, archives.Keys, r.value)
    ensures r.Err? ==> exists a :: a in archives && Unreadable(s, instance, blobs, a, key, r.error)
  {
    var rest := archives.Keys;
    ghost var done: set<string> := {};
    var chunks: map<Blob, string> := map[];
    while rest != {}
      invariant done + rest == archives.Keys && done !! rest
      invariant ChunksOf(s, instance, blobs, key, done, chunks)
      decreases |rest|
    {
      var a :| a in rest;
      assert a in archives;
      var read := ReadArchive(s, instance, blobs, a, archives[a], key);
      if read.Err? {
        return Err(read.error);
      }
      ChunksMore(s, instance, blobs, key, done, chunks, a);
      chunks := chunks + read.value;
      done := done + {a};
      rest := rest - {a};
    }
    return Ok(chunks);
  }

  method JoinChunks(s: Server, instance: Id, blobs: seq<Blob>, key: string, chunks: map<Blob, string>,
                    ghost archives: set<string>)
    returns (r: Option<string>)
    requires ChunksOf(s, instance, blobs, key, archives, chunks) && forall b :: b in blobs ==> b.archive in archives
    ensures r.Some? <==> forall b :: b in blobs ==> BlobReady(s, instance, blobs, b, key)
    ensures r.Some? ==> r.value == Joined(s, instance, blobs, blobs, key)
  {
    var result := "";
    for k := 0 to |blobs|
      invariant forall b :: b in blobs[..k] ==> BlobReady(s, instance, blobs, b, key)
      invariant result == Joined(s, instance, blobs, blobs[..k], key)
    {
      var b := blobs[k];
      if b !in chunks {
        return None;
      }
      assert blobs[..k + 1] == blobs[..k] + [b] && blobs[..k + 1][..k] == blobs[..k];
      result := result + chunks[b];
    }
    assert blobs[..|blobs|] == blobs;
    return Some(result);
  }

  /** The bytes of a File: its decrypted blobs in the order of `blobs`, however the archives are read. */
  method LoadData(s: Server, file: File, key: string) returns (r: Result<string, Error>)
    ensures r.Ok? <==> DataReady(s, file, key)
    ensures r.Ok? ==> r.value == DataOf(s, file, key)
    ensures r.Ok? <==> file.blobs == [] ||
                       (file.id.Some? && forall b :: b in file.blobs ==>
                          var sent := s.download(b.archive, file.id.value, BlobsOf(file.blobs, b.archive));
                          sent.Ok? && b.id in sent.value && forall x :: x in sent.value ==> s.open(key, sent.value[x]).Some?)
    ensures r.Err? && r.error != Indeterminate ==>
              file.id.Some? && exists b :: b in file.blobs && DataFault(s, file.id.value, file.blobs, b.archive, r.error)
  {
    if file.blobs == [] {
      return Ok("");
    }
    if file.id.None? {
      return Err(Indeterminate);
    }
    var archives := ByArchive(file.blobs);
    var read := ReadArchives(s, file.id.value, file.blobs, archives, key);
    if read.Err? {
      ghost var a :| a in archives && Unreadable(s, file.id.value, file.blobs, a, key, read.error);
      ghost var b :| b in file.blobs && b.archive == a;
      assert !BlobReady(s, file.id.value, file.blobs, b, key);
      return Err(read.error);
    }
    var joined := JoinChunks(s, file.id.value, file.blobs, key, read.value, archives.Keys);
    if joined.None? {
      return Err(Indeterminate);
    }
    return Ok(joined.value);
  }

  // ----- everything together -----

  datatype Attachment = Attachment(file: File, data: string)

  /** The File as it is handed out: the key that opened it is recorded in it. */
  function WithKey(file: File, key: ResolvedKey): File {
    file.(ownerKeyVersion := Some(key.version), ownerEnvelope := Some(key.envelope))
  }

  const TWO_63 := 0x8000_0000_0000_0000

  predicate FileReady(s: Server, p: Parsed, key: ResolvedKey) {
    var f := s.decrypt(p, key);
    f.Ok? && !f.value.hasErrors && key.version < TWO_63 && DataReady(s, WithKey(f.value, key), key.session)
  }

  function AttachmentOf(s: Server, p: Parsed, key: ResolvedKey): Attachment
    requires FileReady(s, p, key)
  {
    var file := WithKey(s.decrypt(p, key).value, key);
    Attachment(file, DataOf(s, file, key.session))
  }

  method OpenFile(s: Server, p: Parsed, key: ResolvedKey) returns (r: Result<Attachment, Error>)
    ensures r.Ok? <==> FileReady(s, p, key)
    ensures r.Ok? ==> r.value == AttachmentOf(s, p, key)
    ensures r.Ok? ==> && s.decrypt(p, key).Ok? && !s.decrypt(p, key).value.hasErrors
                      && key.version < 0x8000_0000_0000_0000
                      && r.value.file == s.decrypt(p, key).value.(ownerKeyVersion := Some(key.version),
                                                                  ownerEnvelope := Some(key.envelope))
                      && DataReady(s, r.value.file, key.session)
                      && r.value.data == DataOf(s, r.value.file, key.session)
    ensures r.Err? && s.decrypt(p, key).Err? ==> r.error == Classify(s.decrypt(p, key).error)
    ensures r.Err? && s.decrypt(p, key).Ok? ==>
              || r.error == Indeterminate
              || exists a, f: File :: f.id.Some? && DataFault(s, f.id.value, f.blobs, a, r.error)
  {
    var f := s.decrypt(p, key);
    if f.Err? {
      return Err(Classify(f.error));
    }
    if f.value.hasErrors || key.version >= TWO_63 {
      return Err(Indeterminate);
    }
    var file := WithKey(f.value, key);
    var data := LoadData(s, file, key.session);
    if data.Err? {
      return Err(data.error);
    }
    return Ok(Attachment(file, data.value));
  }

  /** The files the server has for the references, when it has them all. */
  ghost function FilesOf(s: Server, mail: Mail): map<Id, Parsed>
  {
    map id | id in mail.attachments && FileFor(s, mail, id).Some? :: FileFor(s, mail, id).value
  }

  /** Every reference has a key that opens its File. */
  ghost predicate Openable(s: Server, mail: Mail, files: map<Id, Parsed>)
    requires Lawful(s)
  {
    && (forall id :: id in mail.attachments ==> id in files)
    && KeysAvailable(s, mail, files)
    && (forall id :: id in mail.attachments ==> FileReady(s, files[id], KeyFor(s, mail, files, id)))
  }

  ghost predicate Loadable(s: Server, mail: Mail)
    requires Lawful(s)
  {
    Distinct(mail.attachments) && AllAnswered(s, mail) && Openable(s, mail, FilesOf(s, mail))
  }

  /** The attachment for each reference, in the same order, with its own key. */
  ghost predicate IsOutput(s: Server, mail: Mail, files: map<Id, Parsed>, out: seq<Attachment>)
    requires Lawful(s) && Openable(s, mail, files)
  {
    && |out| == |mail.attachments|
    && forall i :: 0 <= i < |out| ==>
         out[i] == AttachmentOf(s, files[mail.attachments[i]], KeyFor(s, mail, files, mail.attachments[i]))
  }

  method OpenAll(s: Server, mail: Mail, files: map<Id, Parsed>, keys: map<Id, ResolvedKey>)
    returns (r: Result<seq<Attachment>, Error>)
    requires forall id :: id in mail.attachments ==> id in files && id in keys
    ensures r.Ok? <==> forall id :: id in mail.attachments ==> FileReady(s, files[id], keys[id])
    ensures r.Ok? ==>
              && |r.value| == |mail.attachments|
              && forall i :: 0 <= i < |mail.attachments| ==>
                   r.value[i] == AttachmentOf(s, files[mail.attachments[i]], keys[mail.attachments[i]])
  {
    var out: seq<Attachment> := [];
    for k := 0 to |mail.attachments|
      invariant |out| == k
      invariant forall i :: 0 <= i < k ==>
                  var id := mail.attachments[i];
                  FileReady(s, files[id], keys[id]) && out[i] == AttachmentOf(s, files[id], keys[id])
    {
      var id := mail.attachments[k];
      var attachment := OpenFile(s, files[id], keys[id]);
      if attachment.Err? {
        return Err(attachment.error);
      }
      out := out + [attachment.value];
    }
    return Ok(out);
  }

  method OpenWith(s: Server, mail: Mail, files: map<Id, Parsed>) returns (r: Result<seq<Attachment>, Error>)
    requires Lawful(s) && Distinct(mail.attachments) && forall id :: id in mail.attachments ==> id in files
    ensures r.Ok? <==> Openable(s, mail, files)
    ensures r.Ok? ==> IsOutput(s, mail, files, r.value)
  {
    var resolved := ResolveKeys(s, mail, files);
    if resolved.Err? {
      return Err(resolved.error);
    }
    r := OpenAll(s, mail, files, resolved.value);
    assert forall id :: id in mail.attachments ==> resolved.value[id] == KeyFor(s, mail, files, id);
    assert forall i :: 0 <= i < |mail.attachments| ==> mail.attachments[i] in mail.attachments;
  }

  lemma FilesAre(s: Server, mail: Mail, files: map<Id, Parsed>)
    requires forall id :: id in files <==> id in mail.attachments
    requires forall id :: id in mail.attachments ==> FileFor(s, mail, id) == Some(files[id])
    ensures files == FilesOf(s, mail)
    ensures forall id :: id in mail.attachments ==> files[id].id == Some(id)
  {
    forall id | id in mail.attachments ensures files[id].id == Some(id) {
      FoundId(Answer(s, RequestOf(mail, id.list)).value, id);
    }
  }

  /**
   * All or nothing: with every reference distinct, answered, keyed and readable, one attachment per reference in
   * the same order, each with the key that is its own; in every other case only an error.
   */
  method LoadAttachments(s: Server, mail: Mail) returns (r: Result<seq<Attachment>, Error>)
    requires Lawful(s)
    ensures r.Ok? <==> Loadable(s, mail)
    ensures r.Ok? ==> IsOutput(s, mail, FilesOf(s, mail), r.value)
    ensures r.Ok? ==> forall id :: id in mail.attachments ==> FilesOf(s, mail)[id].id == Some(id)
  {
    if mail.attachments == [] {
      return Ok([]);
    }
    var loaded := LoadFiles(s, mail);
    if loaded.Err? {
      return Err(loaded.error);
    }
    FilesAre(s, mail, loaded.value);
    r := OpenWith(s, mail, loaded.value);
  }

  lemma {:induction false} FoundId(loaded: seq<Parsed>, id: Id)
    ensures Find(loaded, id).Some? ==> Find(loaded, id).value.id == Some(id)
  {
    if loaded != [] && loaded[0].id != Some(id) {
      FoundId(loaded[1..], id);
    }
  }
}
