/** IMAP SEARCH keys and their evaluation against one message (section 6.4.4 of RFC 3501). */
module SearchKeys {
  import opened Wrappers
  import Calendar

  /** `1`, `3:9` or `5:*`; no upper end stands for `*`. */
  datatype SeqRange = SeqRange(start: nat, end: Option<nat>)

  datatype SeqSet = SeqSet(ranges: seq<SeqRange>)

  predicate InRange(r: SeqRange, value: nat) {
    match r.end
    case None => value >= r.start
    case Some(end) => if r.start <= end then r.start <= value <= end else end <= value <= r.start
  }

  predicate InSet(s: SeqSet, value: nat) {
    exists r :: r in s.ranges && InRange(r, value)
  }

  datatype SearchKey =
    | All
    | And(keys: seq<SearchKey>)
    | Or(left: SearchKey, right: SearchKey)
    | Not(key: SearchKey)
    | Seen | Unseen | Answered | Unanswered | Flagged | Unflagged | Draft | Undraft | Deleted | Undeleted
    | Recent | New | Old | Keyword | Unkeyword
    | Subject(text: string) | From(text: string) | To(text: string) | Cc(text: string) | Bcc(text: string)
    | Body(text: string) | Text(text: string)
    | Header(name: string, value: string)
    | Before(day: int) | On(day: int) | Since(day: int)
    | SentBefore(day: int) | SentOn(day: int) | SentSince(day: int)
    | Larger(size: nat) | Smaller(size: nat)
    | Uid(set_: SeqSet) | Sequence(set_: SeqSet)

  datatype Field = SubjectField | FromField | ToField | CcField | BccField | HeaderBlock

  /**
   * One message. `contains` is the case-insensitive substring test on a field, `header` the test for a header line:
   * both are the message's own, since they depend on Unicode case folding.
   */
  datatype MsgView = MsgView(seqNumber: nat, uid: nat, elementId: string, contains: (Field, string) -> bool,
                             header: (string, string) -> bool, dateMs: nat, sentMs: nat, unread: bool, deleted: bool,
                             size: nat)

  /** Full-text hits by search term. */
  datatype Context = Context(bodyHits: map<string, set<string>>)

  predicate BodyMatches(ctx: Context, term: string, id: string) {
    term in ctx.bodyHits && id in ctx.bodyHits[term]
  }

  const MS_PER_DAY := 86_400_000

  function Day(ms: nat): nat {
    ms / MS_PER_DAY
  }

  /** A key's answer, given the answer of each single criterion. */
  predicate Eval(key: SearchKey, meets: SearchKey -> bool) {
    match key
    case And(keys) => forall k :: k in keys ==> Eval(k, meets)
    case Or(a, b) => Eval(a, meets) || Eval(b, meets)
    case Not(k) => !Eval(k, meets)
    case _ => meets(key)
  }

  function Criteria(m: MsgView, ctx: Context): SearchKey -> bool {
    k => IsCriterion(k) && Meets(k, m, ctx)
  }

  predicate Matches(key: SearchKey, m: MsgView, ctx: Context) {
    Eval(key, Criteria(m, ctx))
  }

  /** A single criterion: no AND, OR or NOT. */
  predicate IsCriterion(key: SearchKey) {
    !key.And? && !key.Or? && !key.Not?
  }

  predicate Meets(key: SearchKey, m: MsgView, ctx: Context)
    requires IsCriterion(key)
  {
    match key
    case All => true
    case Seen => !m.unread
    case Unseen => m.unread
    case Answered => false
    case Unanswered => true
    case Flagged => false
    case Unflagged => true
    case Draft => false
    case Undraft => true
    case Deleted => m.deleted
    case Undeleted => !m.deleted
    case Recent => false
    case New => false
    case Old => true
    case Keyword => false
    case Unkeyword => true
    case Subject(s) => m.contains(SubjectField, s)
    case From(s) => m.contains(FromField, s)
    case To(s) => m.contains(ToField, s)
    case Cc(s) => m.contains(CcField, s)
    case Bcc(s) => m.contains(BccField, s)
    case Body(s) => BodyMatches(ctx, s, m.elementId)
    case Text(s) => m.contains(HeaderBlock, s) || BodyMatches(ctx, s, m.elementId)
    case Header(name, value) => m.header(name, value)
    case Before(d) => Day(m.dateMs) < d
    case On(d) => Day(m.dateMs) == d
    case Since(d) => Day(m.dateMs) >= d
    case SentBefore(d) => Day(m.sentMs) < d
    case SentOn(d) => Day(m.sentMs) == d
    case SentSince(d) => Day(m.sentMs) >= d
    case Larger(n) => m.size > n
    case Smaller(n) => m.size < n
    case Uid(s) => InSet(s, m.uid)
    case Sequence(s) => InSet(s, m.seqNumber)
  }

  // ----- what a client sees -----

  datatype Flag = SeenFlag | AnsweredFlag | FlaggedFlag | DeletedFlag | DraftFlag | RecentFlag

  /** The flags that FETCH shows of a message; none of them is a keyword. */
  function ShownFlags(m: MsgView): set<Flag> {
    (if m.unread then {} else {SeenFlag}) + (if m.deleted then {DeletedFlag} else {})
  }

  function FlagKey(f: Flag): SearchKey {
    match f
    case SeenFlag => Seen
    case AnsweredFlag => Answered
    case FlaggedFlag => Flagged
    case DeletedFlag => Deleted
    case DraftFlag => Draft
    case RecentFlag => Recent
  }

  function UnflagKey(f: Flag): SearchKey {
    match f
    case SeenFlag => Unseen
    case AnsweredFlag => Unanswered
    case FlaggedFlag => Unflagged
    case DeletedFlag => Undeleted
    case DraftFlag => Undraft
    case RecentFlag => Old
  }

  lemma {:induction false} CriterionAnswer(key: SearchKey, m: MsgView, ctx: Context)
    requires IsCriterion(key)
    ensures Matches(key, m, ctx) <==> Meets(key, m, ctx)
  {
  }

  /** Searching by a flag, or by its absence, finds exactly the messages that FETCH shows with it, or without it. */
  lemma {:induction false} FlagKeysMatchFetch(f: Flag, m: MsgView, ctx: Context)
    ensures Matches(FlagKey(f), m, ctx) <==> f in ShownFlags(m)
    ensures Matches(UnflagKey(f), m, ctx) <==> f !in ShownFlags(m)
  {
    FlagKeyMatches(f, FlagKey(f), m, ctx);
    UnflagKeyMatches(f, UnflagKey(f), m, ctx);
  }

  lemma {:induction false} FlagKeyMatches(f: Flag, key: SearchKey, m: MsgView, ctx: Context)
    requires key == FlagKey(f)
    ensures Matches(key, m, ctx) <==> f in ShownFlags(m)
  {
    CriterionAnswer(key, m, ctx);
  }

  lemma {:induction false} UnflagKeyMatches(f: Flag, key: SearchKey, m: MsgView, ctx: Context)
    requires key == UnflagKey(f)
    ensures Matches(key, m, ctx) <==> f !in ShownFlags(m)
  {
    CriterionAnswer(key, m, ctx);
  }

  /** NEW is RECENT and UNSEEN. */
  lemma {:induction false} NewMatchesFetch(m: MsgView, ctx: Context)
    ensures Matches(New, m, ctx) <==> RecentFlag in ShownFlags(m) && SeenFlag !in ShownFlags(m)
    ensures Matches(All, m, ctx)
  {
  }

  /** No message has a keyword. */
  lemma {:induction false} NoKeywords(m: MsgView, ctx: Context)
    ensures !Matches(Keyword, m, ctx) && Matches(Unkeyword, m, ctx)
  {
  }

  function FieldKey(f: Field, s: string): SearchKey {
    match f
    case SubjectField => Subject(s)
    case FromField => From(s)
    case ToField => To(s)
    case CcField => Cc(s)
    case BccField => Bcc(s)
    case HeaderBlock => Text(s)
  }

  /** Each text key looks at its own field; BODY asks the index, TEXT asks the index and the header block. */
  lemma {:induction false} TextKeysMatchFields(f: Field, m: MsgView, ctx: Context, s: string)
    ensures Matches(FieldKey(f, s), m, ctx)
            <==> m.contains(f, s) || (f == HeaderBlock && s in ctx.bodyHits && m.elementId in ctx.bodyHits[s])
    ensures Matches(Body(s), m, ctx) <==> s in ctx.bodyHits && m.elementId in ctx.bodyHits[s]
  {
  }

  lemma {:induction false} HeaderKeyMatchesLine(m: MsgView, ctx: Context, name: string, value: string)
    ensures Matches(Header(name, value), m, ctx) <==> m.header(name, value)
  {
  }

  /** LARGER and SMALLER are strict: they exclude each other, and both miss exactly the messages of that size. */
  lemma {:induction false} SizeKeysAreStrict(m: MsgView, ctx: Context, n: nat)
    ensures Matches(Larger(n), m, ctx) <==> n < m.size
    ensures !(Matches(Larger(n), m, ctx) && Matches(Smaller(n), m, ctx))
    ensures !Matches(Larger(n), m, ctx) && !Matches(Smaller(n), m, ctx) <==> m.size == n
  {
  }

  /** The value lies between the ends, in either order, or not below the start when there is no end. */
  predicate Spans(r: SeqRange, value: nat) {
    if r.end.None? then r.start <= value
    else r.start <= value <= r.end.value || r.end.value <= value <= r.start
  }

  predicate Selects(s: SeqSet, value: nat) {
    exists k :: 0 <= k < |s.ranges| && Spans(s.ranges[k], value)
  }

  lemma SelectsIff(s: SeqSet, value: nat)
    ensures InSet(s, value) <==> Selects(s, value)
  {
    if InSet(s, value) {
      var r :| r in s.ranges && InRange(r, value);
      var k :| 0 <= k < |s.ranges| && s.ranges[k] == r;
    }
    if Selects(s, value) {
      var k :| 0 <= k < |s.ranges| && Spans(s.ranges[k], value);
      assert InRange(s.ranges[k], value);
    }
  }

  /** UID looks at the UID, a bare set at the sequence number. */
  lemma {:induction false} NumberKeysMatchNumbers(m: MsgView, ctx: Context, s: SeqSet)
    ensures Matches(Uid(s), m, ctx) <==> Selects(s, m.uid)
    ensures Matches(Sequence(s), m, ctx) <==> Selects(s, m.seqNumber)
  {
    SelectsIff(s, m.uid);
    SelectsIff(s, m.seqNumber);
  }

  lemma {:induction false} AndIsConjunction(keys: seq<SearchKey>, m: MsgView, ctx: Context)
    ensures Matches(And(keys), m, ctx) <==> forall i :: 0 <= i < |keys| ==> Matches(keys[i], m, ctx)
  {
    assert forall i :: 0 <= i < |keys| ==> keys[i] in keys;
  }

  lemma {:induction false} OrAndNotAreBoolean(a: SearchKey, b: SearchKey, m: MsgView, ctx: Context)
    ensures Matches(Or(a, b), m, ctx) <==> Matches(a, m, ctx) || Matches(b, m, ctx)
    ensures Matches(Not(a), m, ctx) <==> !Matches(a, m, ctx)
  {
  }

  // ----- full-text terms -----

  /** The terms whose hits a key depends on. */
  function Terms(key: SearchKey): set<string> {
    match key
    case And(keys) => TermsOfAll(keys)
    case Or(a, b) => Terms(a) + Terms(b)
    case Not(k) => Terms(k)
    case Body(s) => {s}
    case Text(s) => {s}
    case _ => {}
  }

  function TermsOfAll(keys: seq<SearchKey>): set<string> {
    if keys == [] then {} else Terms(keys[0]) + TermsOfAll(keys[1..])
  }

  function Elements(s: seq<string>): set<string> {
    set x | x in s
  }

  lemma ElementsAppend(s: seq<string>, x: string)
    ensures Elements(s + [x]) == Elements(s) + {x}
  {
  }

  /** Push every BODY and TEXT argument of the key onto the list. */
  method CollectBodyTermsInto(key: SearchKey, terms: seq<string>) returns (r: seq<string>)
    ensures Elements(r) == Elements(terms) + Terms(key)
    decreases key
  {
    match key
    case And(keys) =>
      r := terms;
      for i := 0 to |keys|
        invariant Elements(r) + TermsOfAll(keys[i..]) == Elements(terms) + TermsOfAll(keys)
      {
        assert keys[i..][1..] == keys[i + 1..];
        r := CollectBodyTermsInto(keys[i], r);
      }
    case Or(a, b) =>
      r := CollectBodyTermsInto(a, terms);
      r := CollectBodyTermsInto(b, r);
    case Not(k) =>
      r := CollectBodyTermsInto(k, terms);
    case Body(s) =>
      r := terms + [s];
      ElementsAppend(terms, s);
    case Text(s) =>
      r := terms + [s];
      ElementsAppend(terms, s);
    case _ =>
      r := terms;
  }

  /** The order of strings: by their first different character, prefixes first. */
  predicate Less(a: string, b: string) {
    b != "" && (a == "" || a[0] < b[0] || (a[0] == b[0] && Less(a[1..], b[1..])))
  }

  lemma {:induction false} LessTransitive(a: string, b: string, c: string)
    requires Less(a, b) && Less(b, c)
    ensures Less(a, c)
  {
    if a != "" && a[0] == b[0] == c[0] {
      LessTransitive(a[1..], b[1..], c[1..]);
    }
  }

  lemma {:induction false} LessTotal(a: string, b: string)
    requires !Less(a, b) && a != b
    ensures Less(b, a)
  {
    if a != "" && b != "" && a[0] == b[0] {
      assert a == [a[0]] + a[1..] && b == [b[0]] + b[1..];
      LessTotal(a[1..], b[1..]);
    }
  }

  predicate DiffersAt(a: string, b: string, k: int) {
    0 <= k < |a| && k < |b| && a[..k] == b[..k] && a[k] < b[k]
  }

  lemma DiffersBehind(a: string, b: string, k: int)
    requires a != "" && b != "" && a[0] == b[0]
    ensures DiffersAt(a[1..], b[1..], k) ==> DiffersAt(a, b, k + 1)
    ensures DiffersAt(a, b, k) ==> DiffersAt(a[1..], b[1..], k - 1)
  {
    if DiffersAt(a[1..], b[1..], k) {
      assert a[..k + 1] == [a[0]] + a[1..][..k] && b[..k + 1] == [b[0]] + b[1..][..k];
    }
    if DiffersAt(a, b, k) {
      assert a[1..][..k - 1] == a[..k][1..] && b[1..][..k - 1] == b[..k][1..];
    }
  }

  lemma DiffersInFront(a: string, b: string, k: int)
    requires a != "" && b != "" && a[0] != b[0]
    ensures DiffersAt(a, b, 0) <==> a[0] < b[0]
    ensures DiffersAt(a, b, k) ==> DiffersAt(a, b, 0)
  {
    assert a[..0] == b[..0];
    assert 0 < k <= |a| ==> a[0] == a[..k][0];
    assert 0 < k <= |b| ==> b[0] == b[..k][0];
  }

  /** A proper prefix, or smaller at the first difference. */
  lemma {:induction false} LessIff(a: string, b: string)
    ensures Less(a, b) <==> (a <= b && a != b) || exists k :: DiffersAt(a, b, k)
  {
    if a != "" && b != "" {
      assert a == [a[0]] + a[1..] && b == [b[0]] + b[1..];
      if a[0] == b[0] {
        LessIff(a[1..], b[1..]);
        forall k ensures DiffersAt(a[1..], b[1..], k) ==> DiffersAt(a, b, k + 1)
                 ensures DiffersAt(a, b, k) ==> DiffersAt(a[1..], b[1..], k - 1)
        {
          DiffersBehind(a, b, k);
        }
        if k :| DiffersAt(a, b, k) {
          assert DiffersAt(a[1..], b[1..], k - 1);
        }
        if k :| DiffersAt(a[1..], b[1..], k) {
          assert DiffersAt(a, b, k + 1);
        }
      } else {
        forall k ensures DiffersAt(a, b, k) ==> DiffersAt(a, b, 0) {
          DiffersInFront(a, b, k);
        }
        DiffersInFront(a, b, 0);
      }
    }
  }

  predicate Ascending(s: seq<string>) {
    forall i, j :: 0 <= i < j < |s| ==> Less(s[i], s[j])
  }

  /** A term put in its place, unless it is there. */
  function InsertTerm(x: string, s: seq<string>): seq<string> {
    if s == [] then [x]
    else if x == s[0] then s
    else if Less(x, s[0]) then [x] + s
    else [s[0]] + InsertTerm(x, s[1..])
  }

  lemma ElementsCons(x: string, s: seq<string>)
    ensures Elements([x] + s) == {x} + Elements(s)
  {
  }

  lemma {:induction false} InsertElements(x: string, s: seq<string>)
    ensures Elements(InsertTerm(x, s)) == Elements(s) + {x}
  {
    if s != [] {
      InsertElements(x, s[1..]);
      ElementsCons(s[0], s[1..]);
      ElementsCons(s[0], InsertTerm(x, s[1..]));
      ElementsCons(x, s);
      assert s == [s[0]] + s[1..];
    }
  }

  lemma {:induction false} InsertAscending(x: string, s: seq<string>)
    requires Ascending(s)
    ensures Ascending(InsertTerm(x, s))
  {
    if s != [] && x != s[0] {
      if Less(x, s[0]) {
        forall j | 0 <= j < |s| ensures Less(x, s[j]) {
          if j > 0 {
            LessTransitive(x, s[0], s[j]);
          }
        }
      } else {
        LessTotal(x, s[0]);
        InsertAscending(x, s[1..]);
        InsertElements(x, s[1..]);
        var r := InsertTerm(x, s[1..]);
        forall j | 0 <= j < |r| ensures Less(s[0], r[j]) {
          assert r[j] in Elements(r);
        }
      }
    }
  }

  /** Each distinct term once, in ascending order. */
  method CollectBodyTerms(key: SearchKey) returns (r: seq<string>)
    ensures Elements(r) == Terms(key)
    ensures Ascending(r)
  {
    var all := CollectBodyTermsInto(key, []);
    r := [];
    for i := 0 to |all|
      invariant Elements(r) == Elements(all[..i])
      invariant Ascending(r)
    {
      assert all[..i + 1] == all[..i] + [all[i]];
      ElementsAppend(all[..i], all[i]);
      InsertElements(all[i], r);
      InsertAscending(all[i], r);
      r := InsertTerm(all[i], r);
    }
    assert all[..|all|] == all;
  }

  ghost predicate AgreeOn(a: Context, b: Context, terms: set<string>) {
    forall t, id :: t in terms ==> (BodyMatches(a, t, id) <==> BodyMatches(b, t, id))
  }

  lemma {:induction false} TermsOfMember(keys: seq<SearchKey>, k: SearchKey)
    requires k in keys
    ensures Terms(k) <= TermsOfAll(keys)
  {
    if keys[0] != k {
      TermsOfMember(keys[1..], k);
    }
  }

  lemma CriterionFrame(key: SearchKey, a: Context, b: Context, m: MsgView)
    requires AgreeOn(a, b, Terms(key)) && IsCriterion(key)
    ensures Criteria(m, a)(key) == Criteria(m, b)(key)
  {
  }

  ghost predicate SameOn(key: SearchKey, f: SearchKey -> bool, g: SearchKey -> bool) {
    match key
    case And(keys) => forall k :: k in keys ==> SameOn(k, f, g)
    case Or(a, b) => SameOn(a, f, g) && SameOn(b, f, g)
    case Not(k) => SameOn(k, f, g)
    case _ => f(key) == g(key)
  }

  lemma {:induction false} EvalFrame(key: SearchKey, f: SearchKey -> bool, g: SearchKey -> bool)
    requires SameOn(key, f, g)
    ensures Eval(key, f) == Eval(key, g)
  {
    match key
    case And(keys) =>
      forall k | k in keys ensures Eval(k, f) == Eval(k, g) {
        EvalFrame(k, f, g);
      }
    case Or(x, y) =>
      EvalFrame(x, f, g);
      EvalFrame(y, f, g);
    case Not(k) =>
      EvalFrame(k, f, g);
    case _ =>
  }

  lemma {:induction false} TermsDecide(key: SearchKey, a: Context, b: Context, m: MsgView)
    requires AgreeOn(a, b, Terms(key))
    ensures SameOn(key, Criteria(m, a), Criteria(m, b))
  {
    match key
    case And(keys) =>
      forall k | k in keys ensures SameOn(k, Criteria(m, a), Criteria(m, b)) {
        TermsOfMember(keys, k);
        TermsDecide(k, a, b, m);
      }
    case Or(x, y) =>
      TermsDecide(x, a, b, m);
      TermsDecide(y, a, b, m);
    case Not(k) =>
      TermsDecide(k, a, b, m);
    case _ =>
      CriterionFrame(key, a, b, m);
  }

  /** Resolving the collected terms is enough: other terms never influence the answer, on any message. */
  lemma {:induction false} TermsFrame(key: SearchKey, a: Context, b: Context, m: MsgView)
    requires AgreeOn(a, b, Terms(key))
    ensures Matches(key, m, a) <==> Matches(key, m, b)
  {
    TermsDecide(key, a, b, m);
    EvalFrame(key, Criteria(m, a), Criteria(m, b));
  }

  // ----- replacing a criterion -----

  /** A key with one criterion left open. */
  datatype Hole =
    | Here
    | InAnd(before: seq<SearchKey>, hole: Hole, after: seq<SearchKey>)
    | InOrLeft(hole: Hole, right: SearchKey)
    | InOrRight(left: SearchKey, hole: Hole)
    | InNot(hole: Hole)

  function Plug(h: Hole, key: SearchKey): SearchKey {
    match h
    case Here => key
    case InAnd(before, inner, after) => And(before + [Plug(inner, key)] + after)
    case InOrLeft(inner, right) => Or(Plug(inner, key), right)
    case InOrRight(left, inner) => Or(left, Plug(inner, key))
    case InNot(inner) => Not(Plug(inner, key))
  }

  predicate IsTextTest(key: SearchKey, term: string) {
    key == Body(term) || key == Text(term)
  }

  /** BODY or TEXT with this argument stands somewhere in the key. */
  ghost predicate Occurs(key: SearchKey, term: string) {
    exists h, k :: Plug(h, k) == key && IsTextTest(k, term)
  }

  lemma {:induction false} TermsOfSome(keys: seq<SearchKey>, t: string)
    ensures t in TermsOfAll(keys) <==> exists i :: 0 <= i < |keys| && t in Terms(keys[i])
  {
    if keys != [] {
      TermsOfSome(keys[1..], t);
      if i :| 0 <= i < |keys[1..]| && t in Terms(keys[1..][i]) {
        assert t in Terms(keys[i + 1]);
      }
      if i :| 0 <= i < |keys| && t in Terms(keys[i]) {
        assert i > 0 ==> keys[1..][i - 1] == keys[i];
      }
    }
  }

  lemma {:induction false} PluggedTerms(h: Hole, key: SearchKey)
    ensures Terms(key) <= Terms(Plug(h, key))
  {
    match h
    case Here =>
    case InAnd(before, inner, after) =>
      PluggedTerms(inner, key);
      var keys := before + [Plug(inner, key)] + after;
      assert keys[|before|] == Plug(inner, key);
      TermsOfMember(keys, Plug(inner, key));
    case InOrLeft(inner, _) => PluggedTerms(inner, key);
    case InOrRight(_, inner) => PluggedTerms(inner, key);
    case InNot(inner) => PluggedTerms(inner, key);
  }

  lemma {:induction false} PlugInAnd(keys: seq<SearchKey>, i: nat, inner: Hole, k: SearchKey)
    requires i < |keys| && Plug(inner, k) == keys[i]
    ensures Plug(InAnd(keys[..i], inner, keys[i + 1..]), k) == And(keys)
  {
    assert keys[..i] + [keys[i]] + keys[i + 1..] == keys;
  }

  lemma {:induction false} TermOccurs(key: SearchKey, t: string) returns (h: Hole, k: SearchKey)
    requires t in Terms(key)
    ensures Plug(h, k) == key && IsTextTest(k, t)
  {
    match key
    case And(keys) =>
      TermsOfSome(keys, t);
      var i :| 0 <= i < |keys| && t in Terms(keys[i]);
      var inner;
      inner, k := TermOccurs(keys[i], t);
      h := InAnd(keys[..i], inner, keys[i + 1..]);
      PlugInAnd(keys, i, inner, k);
    case Or(a, b) =>
      var inner;
      if t in Terms(a) {
        inner, k := TermOccurs(a, t);
        h := InOrLeft(inner, b);
      } else {
        inner, k := TermOccurs(b, t);
        h := InOrRight(a, inner);
      }
    case Not(a) =>
      var inner;
      inner, k := TermOccurs(a, t);
      h := InNot(inner);
    case _ =>
      h, k := Here, key;
  }

  lemma {:induction false} OwnTerm(k: SearchKey, t: string)
    requires IsTextTest(k, t)
    ensures t in Terms(k)
  {
  }

  /** Exactly the arguments of BODY and TEXT are collected, however deep in the key they stand. */
  lemma {:induction false} TermsIff(key: SearchKey, t: string)
    ensures t in Terms(key) <==> Occurs(key, t)
  {
    if t in Terms(key) {
      var h, k := TermOccurs(key, t);
    }
    if h, k :| Plug(h, k) == key && IsTextTest(k, t) {
      PluggedTerms(h, k);
      OwnTerm(k, t);
    }
  }

  /** Whether the open criterion lies under an odd number of NOTs. */
  predicate Negated(h: Hole) {
    match h
    case Here => false
    case InAnd(_, inner, _) => Negated(inner)
    case InOrLeft(inner, _) => Negated(inner)
    case InOrRight(_, inner) => Negated(inner)
    case InNot(inner) => !Negated(inner)
  }

  /** A conjunction follows each of its members. */
  lemma {:induction false} AndWidens(before: seq<SearchKey>, k: SearchKey, wider: SearchKey, after: seq<SearchKey>,
                                     meets: SearchKey -> bool)
    requires Eval(k, meets) ==> Eval(wider, meets)
    ensures Eval(And(before + [k] + after), meets) ==> Eval(And(before + [wider] + after), meets)
  {
    var keys, others := before + [k] + after, before + [wider] + after;
    assert k in keys;
    assert forall x :: x in others ==> x in keys || x == wider;
  }

  ghost predicate Widens(negated: bool, before: bool, after: bool) {
    if negated then after ==> before else before ==> after
  }

  lemma {:induction false} AndWidensEither(negated: bool, before: seq<SearchKey>, k: SearchKey, l: SearchKey,
                                           after: seq<SearchKey>, meets: SearchKey -> bool)
    requires Widens(negated, Eval(k, meets), Eval(l, meets))
    ensures Widens(negated, Eval(And(before + [k] + after), meets), Eval(And(before + [l] + after), meets))
  {
    if negated {
      AndWidens(before, l, k, after, meets);
    } else {
      AndWidens(before, k, l, after, meets);
    }
  }

  lemma {:induction false} AndHoleWidens(h: Hole, key: SearchKey, wider: SearchKey, meets: SearchKey -> bool)
    requires h.InAnd? && Widens(Negated(h.hole), Eval(Plug(h.hole, key), meets), Eval(Plug(h.hole, wider), meets))
    ensures Widens(Negated(h), Eval(Plug(h, key), meets), Eval(Plug(h, wider), meets))
  {
    AndWidensEither(Negated(h.hole), h.before, Plug(h.hole, key), Plug(h.hole, wider), h.after, meets);
  }

  lemma {:induction false} EvalWidens(h: Hole, key: SearchKey, wider: SearchKey, meets: SearchKey -> bool)
    requires Eval(key, meets) ==> Eval(wider, meets)
    ensures Widens(Negated(h), Eval(Plug(h, key), meets), Eval(Plug(h, wider), meets))
  {
    match h
    case Here =>
    case InAnd(before, inner, after) =>
      EvalWidens(inner, key, wider, meets);
      AndHoleWidens(h, key, wider, meets);
    case InOrLeft(inner, right) =>
      EvalWidens(inner, key, wider, meets);
    case InOrRight(left, inner) =>
      EvalWidens(inner, key, wider, meets);
    case InNot(inner) =>
      EvalWidens(inner, key, wider, meets);
  }

  /**
   * Widening a criterion under an even number of NOTs never hides a message, and under an odd number never shows a
   * new one.
   */
  lemma {:induction false} WideningIsMonotone(h: Hole, key: SearchKey, wider: SearchKey, m: MsgView, ctx: Context)
    requires Matches(key, m, ctx) ==> Matches(wider, m, ctx)
    ensures !Negated(h) ==> (Matches(Plug(h, key), m, ctx) ==> Matches(Plug(h, wider), m, ctx))
    ensures Negated(h) ==> (Matches(Plug(h, wider), m, ctx) ==> Matches(Plug(h, key), m, ctx))
  {
    EvalWidens(h, key, wider, Criteria(m, ctx));
  }

  /** Nothing around the open criterion decides the answer on its own. */
  ghost predicate Neutral(h: Hole, meets: SearchKey -> bool) {
    match h
    case Here => true
    case InAnd(before, inner, after) =>
      (forall k :: k in before || k in after ==> Eval(k, meets)) && Neutral(inner, meets)
    case InOrLeft(inner, right) => !Eval(right, meets) && Neutral(inner, meets)
    case InOrRight(left, inner) => !Eval(left, meets) && Neutral(inner, meets)
    case InNot(inner) => Neutral(inner, meets)
  }

  lemma {:induction false} AndDiffers(before: seq<SearchKey>, k: SearchKey, l: SearchKey, after: seq<SearchKey>,
                                      meets: SearchKey -> bool)
    ensures Eval(And(before + [k] + after), meets) != Eval(And(before + [l] + after), meets)
            <==> Eval(k, meets) != Eval(l, meets) && forall x :: x in before || x in after ==> Eval(x, meets)
  {
    AndAnswers(before, k, after, meets);
    AndAnswers(before, l, after, meets);
  }

  lemma {:induction false} AndAnswers(before: seq<SearchKey>, k: SearchKey, after: seq<SearchKey>,
                                      meets: SearchKey -> bool)
    ensures Eval(And(before + [k] + after), meets)
            <==> Eval(k, meets) && forall x :: x in before || x in after ==> Eval(x, meets)
  {
    var keys := before + [k] + after;
    assert forall x :: x in keys <==> x in before || x == k || x in after;
  }

  /** One level around the criterion: the answers differ if and only if they differ inside and the level is neutral. */
  ghost predicate Differs(inside: bool, outer: bool, neutral: bool) {
    outer <==> inside && neutral
  }

  lemma {:induction false} AndHoleDiffers(h: Hole, key: SearchKey, other: SearchKey, meets: SearchKey -> bool)
    requires h.InAnd?
    requires Differs(Eval(key, meets) != Eval(other, meets),
                     Eval(Plug(h.hole, key), meets) != Eval(Plug(h.hole, other), meets), Neutral(h.hole, meets))
    ensures Differs(Eval(key, meets) != Eval(other, meets), Eval(Plug(h, key), meets) != Eval(Plug(h, other), meets),
                    Neutral(h, meets))
  {
    AndDiffers(h.before, Plug(h.hole, key), Plug(h.hole, other), h.after, meets);
  }

  lemma {:induction false} EvalDiffers(h: Hole, key: SearchKey, other: SearchKey, meets: SearchKey -> bool)
    ensures Differs(Eval(key, meets) != Eval(other, meets), Eval(Plug(h, key), meets) != Eval(Plug(h, other), meets),
                    Neutral(h, meets))
  {
    match h
    case Here =>
    case InAnd(before, inner, after) =>
      EvalDiffers(inner, key, other, meets);
      AndHoleDiffers(h, key, other, meets);
    case InOrLeft(inner, right) =>
      EvalDiffers(inner, key, other, meets);
    case InOrRight(left, inner) =>
      EvalDiffers(inner, key, other, meets);
    case InNot(inner) =>
      EvalDiffers(inner, key, other, meets);
  }

  /**
   * A wider criterion decides when it newly matches and its surroundings are neutral: then the whole key stops matching
   * under an odd number of NOTs and starts matching under an even number, and otherwise its answer stays.
   */
  ghost predicate Decides(negated: bool, neutral: bool, narrow: bool, wide: bool, before: bool, after: bool) {
    var decides := !narrow && wide && neutral;
    (before && !after <==> decides && negated) && (!before && after <==> decides && !negated)
  }

  lemma SignDecides(negated: bool, neutral: bool, narrow: bool, wide: bool, before: bool, after: bool)
    requires narrow ==> wide
    requires Widens(negated, before, after) && Differs(narrow != wide, before != after, neutral)
    ensures Decides(negated, neutral, narrow, wide, before, after)
  {
  }

  /** Exactly when a wider criterion hides or shows a message, in every key around it. */
  lemma {:induction false} WideningIff(h: Hole, key: SearchKey, wider: SearchKey, meets: SearchKey -> bool)
    requires Eval(key, meets) ==> Eval(wider, meets)
    ensures Decides(Negated(h), Neutral(h, meets), Eval(key, meets), Eval(wider, meets), Eval(Plug(h, key), meets),
                    Eval(Plug(h, wider), meets))
  {
    EvalWidens(h, key, wider, meets);
    EvalDiffers(h, key, wider, meets);
    SignDecides(Negated(h), Neutral(h, meets), Eval(key, meets), Eval(wider, meets), Eval(Plug(h, key), meets),
                Eval(Plug(h, wider), meets));
  }

  // ----- dates -----

  lemma DateOrder(n: nat, c: Calendar.Date)
    requires Calendar.IsDate(c)
    ensures n < Calendar.DayNumber(c) <==> Calendar.Earlier(Calendar.DateOf(n), c)
    ensures n == Calendar.DayNumber(c) <==> Calendar.DateOf(n) == c
  {
    Calendar.DateOfInverse(n);
    Calendar.DayNumberOrder(Calendar.DateOf(n), c);
  }

  /** The three comparisons of a day with a day number. */
  lemma {:induction false} ReceivedCriteria(m: MsgView, ctx: Context, n: int)
    ensures Matches(Before(n), m, ctx) <==> Day(m.dateMs) < n
    ensures Matches(On(n), m, ctx) <==> Day(m.dateMs) == n
    ensures Matches(Since(n), m, ctx) <==> !(Day(m.dateMs) < n)
  {
  }

  lemma {:induction false} SentCriteria(m: MsgView, ctx: Context, n: int)
    ensures Matches(SentBefore(n), m, ctx) <==> Day(m.sentMs) < n
    ensures Matches(SentOn(n), m, ctx) <==> Day(m.sentMs) == n
    ensures Matches(SentSince(n), m, ctx) <==> !(Day(m.sentMs) < n)
  {
  }

  /** `day` days of 86 400 seconds have gone by at that time, and not one more. */
  predicate IsDayOf(day: nat, ms: nat) {
    day * 86_400_000 <= ms < (day + 1) * 86_400_000
  }

  lemma DayIsWholeDays(day: nat, ms: nat)
    ensures IsDayOf(day, ms) <==> day == Day(ms)
  {
  }

  /** BEFORE, ON and SINCE compare the message's calendar date (in UTC) with the date given. */
  lemma {:induction false} DateCriteria(m: MsgView, ctx: Context, c: Calendar.Date, n: int, day: nat)
    requires Calendar.IsDate(c) && n == Calendar.DayNumber(c) && IsDayOf(day, m.dateMs)
    ensures Matches(Before(n), m, ctx) <==> Calendar.Earlier(Calendar.DateOf(day), c)
    ensures Matches(On(n), m, ctx) <==> Calendar.DateOf(day) == c
    ensures Matches(Since(n), m, ctx) <==> !Calendar.Earlier(Calendar.DateOf(day), c)
  {
    ReceivedCriteria(m, ctx, n);
    DayIsWholeDays(day, m.dateMs);
    DateOrder(day, c);
  }

  /** Their SENT forms do the same with the date it was sent. */
  lemma {:induction false} SentDateCriteria(m: MsgView, ctx: Context, c: Calendar.Date, n: int, day: nat)
    requires Calendar.IsDate(c) && n == Calendar.DayNumber(c) && IsDayOf(day, m.sentMs)
    ensures Matches(SentBefore(n), m, ctx) <==> Calendar.Earlier(Calendar.DateOf(day), c)
    ensures Matches(SentOn(n), m, ctx) <==> Calendar.DateOf(day) == c
    ensures Matches(SentSince(n), m, ctx) <==> !Calendar.Earlier(Calendar.DateOf(day), c)
  {
    SentCriteria(m, ctx, n);
    DayIsWholeDays(day, m.sentMs);
    DateOrder(day, c);
  }
}
