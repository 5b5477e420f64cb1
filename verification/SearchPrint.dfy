/** SEARCH keys written as fully parenthesised RFC 3501 text, and read back. */
module SearchPrint {
  import opened Wrappers
  import opened SearchKeys
  import opened SearchTokens
  import opened SearchArguments
  import opened SearchParser
  import Calendar

  /** Arguments that have a text: dates from 1970 on, 64-bit sizes, sequence sets that name some 32-bit number. */
  predicate Printable(key: SearchKey) {
    match key
    case And(keys) => forall k :: k in keys ==> Printable(k)
    case Or(a, b) => Printable(a) && Printable(b)
    case Not(k) => Printable(k)
    case Before(d) => PrintableDay(d)
    case On(d) => PrintableDay(d)
    case Since(d) => PrintableDay(d)
    case SentBefore(d) => PrintableDay(d)
    case SentOn(d) => PrintableDay(d)
    case SentSince(d) => PrintableDay(d)
    case Larger(n) => n < TWO_64
    case Smaller(n) => n < TWO_64
    case Uid(s) => FitsSet(s)
    case Sequence(s) => FitsSet(s)
    case _ => true
  }

  predicate PrintableDay(d: int) {
    0 <= d && Calendar.DateOf(d).year < TWO_63
  }

  // ----- writing -----

  function BareName(key: SearchKey): string {
    match key
    case Seen => "SEEN"
    case Unseen => "UNSEEN"
    case Answered => "ANSWERED"
    case Unanswered => "UNANSWERED"
    case Flagged => "FLAGGED"
    case Unflagged => "UNFLAGGED"
    case Draft => "DRAFT"
    case Undraft => "UNDRAFT"
    case Deleted => "DELETED"
    case Undeleted => "UNDELETED"
    case Recent => "RECENT"
    case New => "NEW"
    case Old => "OLD"
    case _ => "ALL"
  }

  function TextName(f: TextField): string {
    match f
    case SubjectText => "SUBJECT"
    case FromText => "FROM"
    case ToText => "TO"
    case CcText => "CC"
    case BccText => "BCC"
    case BodyText => "BODY"
    case TextText => "TEXT"
  }

  function DateName(f: DateField): string {
    match f
    case BeforeDate => "BEFORE"
    case OnDate => "ON"
    case SinceDate => "SINCE"
    case SentBeforeDate => "SENTBEFORE"
    case SentOnDate => "SENTON"
    case SentSinceDate => "SENTSINCE"
  }

  /** How a keyword is spelled. */
  function Name(w: Word): string {
    match w
    case Bare(key) => BareName(key)
    case OrWord => "OR"
    case NotWord => "NOT"
    case CharsetWord => "CHARSET"
    case TextWord(f) => TextName(f)
    case KeywordWord => "KEYWORD"
    case UnkeywordWord => "UNKEYWORD"
    case HeaderWord => "HEADER"
    case DateWord(f) => DateName(f)
    case LargerWord => "LARGER"
    case SmallerWord => "SMALLER"
    case UidWord => "UID"
    case OtherWord => ""
  }

  predicate IsBare(key: SearchKey) {
    key in {All, Seen, Unseen, Answered, Unanswered, Flagged, Unflagged, Draft, Undraft, Deleted, Undeleted,
            Recent, New, Old}
  }

  /** The keyword of a criterion. */
  function WordFor(key: SearchKey): (w: Word)
    requires IsCriterion(key) && !key.Sequence?
    ensures w.Bare? ==> w.key == key && IsBare(key)
    ensures w != OtherWord
  {
    match key
    case Keyword => KeywordWord
    case Unkeyword => UnkeywordWord
    case Subject(_) => TextWord(SubjectText)
    case From(_) => TextWord(FromText)
    case To(_) => TextWord(ToText)
    case Cc(_) => TextWord(CcText)
    case Bcc(_) => TextWord(BccText)
    case Body(_) => TextWord(BodyText)
    case Text(_) => TextWord(TextText)
    case Header(_, _) => HeaderWord
    case Before(_) => DateWord(BeforeDate)
    case On(_) => DateWord(OnDate)
    case Since(_) => DateWord(SinceDate)
    case SentBefore(_) => DateWord(SentBeforeDate)
    case SentOn(_) => DateWord(SentOnDate)
    case SentSince(_) => DateWord(SentSinceDate)
    case Larger(_) => LargerWord
    case Smaller(_) => SmallerWord
    case Uid(_) => UidWord
    case _ => Bare(key)
  }

  function DayText(d: int): string
    requires PrintableDay(d)
  {
    DateText(Calendar.DateOf(d))
  }

  function Arguments(key: SearchKey): seq<Token>
    requires Printable(key)
  {
    match key
    case Keyword => [Atom("k")]
    case Unkeyword => [Atom("k")]
    case Subject(s) => [Quoted(s)]
    case From(s) => [Quoted(s)]
    case To(s) => [Quoted(s)]
    case Cc(s) => [Quoted(s)]
    case Bcc(s) => [Quoted(s)]
    case Body(s) => [Quoted(s)]
    case Text(s) => [Quoted(s)]
    case Header(name, value) => [Quoted(name), Quoted(value)]
    case Before(d) => [Atom(DayText(d))]
    case On(d) => [Atom(DayText(d))]
    case Since(d) => [Atom(DayText(d))]
    case SentBefore(d) => [Atom(DayText(d))]
    case SentOn(d) => [Atom(DayText(d))]
    case SentSince(d) => [Atom(DayText(d))]
    case Larger(n) => [Atom(Decimal(n))]
    case Smaller(n) => [Atom(Decimal(n))]
    case Uid(s) => [Atom(SetText(s))]
    case _ => []
  }

  function CriterionTokens(key: SearchKey): seq<Token>
    requires Printable(key) && IsCriterion(key)
  {
    if key.Sequence? then [Atom(SetText(key.set_))] else [Atom(Name(WordFor(key)))] + Arguments(key)
  }

  function KeyTokens(key: SearchKey): seq<Token>
    requires Printable(key)
  {
    match key
    case And(keys) => [LParen] + (if keys == [] then [Atom(Name(Bare(All)))] else KeysTokens(keys)) + [RParen]
    case Or(a, b) => [LParen, Atom(Name(OrWord))] + KeyTokens(a) + KeyTokens(b) + [RParen]
    case Not(k) => [LParen, Atom(Name(NotWord))] + KeyTokens(k) + [RParen]
    case _ => CriterionTokens(key)
  }

  function KeysTokens(keys: seq<SearchKey>): seq<Token>
    requires forall k :: k in keys ==> Printable(k)
  {
    if keys == [] then [] else KeyTokens(keys[0]) + KeysTokens(keys[1..])
  }

  /** Keys side by side, as the argument string of a SEARCH command. */
  function Print(keys: seq<SearchKey>): string
    requires forall k :: k in keys ==> Printable(k)
  {
    Render(KeysTokens(keys))
  }

  // ----- what is read back -----

  /** The same key with groups of fewer than two members dissolved. */
  function Norm(key: SearchKey): SearchKey {
    match key
    case And(keys) => FoldAnd(NormAll(keys))
    case Or(a, b) => Or(Norm(a), Norm(b))
    case Not(k) => Not(Norm(k))
    case _ => key
  }

  function NormAll(keys: seq<SearchKey>): (r: seq<SearchKey>)
    ensures |r| == |keys|
  {
    if keys == [] then [] else [Norm(keys[0])] + NormAll(keys[1..])
  }

  lemma FoldAndEval(keys: seq<SearchKey>, meets: SearchKey -> bool)
    requires meets(All)
    ensures Eval(FoldAnd(keys), meets) <==> forall k :: k in keys ==> Eval(k, meets)
  {
    if |keys| == 1 {
      assert keys == [keys[0]];
    }
  }

  lemma {:induction false} NormEval(key: SearchKey, meets: SearchKey -> bool)
    requires meets(All)
    ensures Eval(Norm(key), meets) <==> Eval(key, meets)
  {
    match key
    case And(keys) =>
      NormAllEval(keys, meets);
      FoldAndEval(NormAll(keys), meets);
    case Or(a, b) =>
      NormEval(a, meets);
      NormEval(b, meets);
    case Not(k) =>
      NormEval(k, meets);
    case _ =>
  }

  lemma {:induction false} NormAllEval(keys: seq<SearchKey>, meets: SearchKey -> bool)
    requires meets(All)
    ensures (forall k :: k in NormAll(keys) ==> Eval(k, meets)) <==> forall k :: k in keys ==> Eval(k, meets)
  {
    if keys != [] {
      NormEval(keys[0], meets);
      NormAllEval(keys[1..], meets);
      assert keys == [keys[0]] + keys[1..];
    }
  }

  // ----- reading criteria -----

  /** Case mapping leaves ASCII text alone that has no letter to change. */
  ghost predicate MapsAscii(cm: CaseMap) {
    && (forall s {:trigger cm.upper(s)} :: (forall i :: 0 <= i < |s| ==> s[i] < 'a') ==> cm.upper(s) == s)
    && (forall s {:trigger cm.lower(s)} :: IsLowerCase(s) ==> cm.lower(s) == s)
  }

  predicate IsUpperCase(s: string) {
    forall i :: 0 <= i < |s| ==> 'A' <= s[i] <= 'Z'
  }

  ghost predicate Reads(s: string, w: Word) {
    s != "" && IsUpperCase(s) && WordOf(s) == w
  }

  lemma BareNameReads(key: SearchKey)
    requires IsBare(key)
    ensures Reads(BareName(key), Bare(key))
  {
  }

  lemma TextNameReads(f: TextField)
    ensures Reads(TextName(f), TextWord(f))
  {
  }

  lemma ReceivedNameReads(f: DateField)
    requires f.BeforeDate? || f.OnDate? || f.SinceDate?
    ensures Reads(DateName(f), DateWord(f))
  {
  }

  lemma SentNameReads(f: DateField)
    requires f.SentBeforeDate? || f.SentOnDate? || f.SentSinceDate?
    ensures Reads(DateName(f), DateWord(f))
  {
  }

  lemma DateNameReads(f: DateField)
    ensures Reads(DateName(f), DateWord(f))
  {
    match f
    case BeforeDate => ReceivedNameReads(f);
    case OnDate => ReceivedNameReads(f);
    case SinceDate => ReceivedNameReads(f);
    case _ => SentNameReads(f);
  }

  lemma PrefixNameReads(w: Word)
    requires w.OrWord? || w.NotWord? || w.CharsetWord?
    ensures Reads(Name(w), w)
  {
  }

  lemma KeywordNameReads()
    ensures Reads(Name(KeywordWord), KeywordWord)
  {
  }

  lemma UnkeywordNameReads()
    ensures Reads(Name(UnkeywordWord), UnkeywordWord)
  {
  }

  lemma HeaderNameReads()
    ensures Reads(Name(HeaderWord), HeaderWord)
  {
  }

  lemma LargerNameReads()
    ensures Reads(Name(LargerWord), LargerWord)
  {
  }

  lemma SmallerNameReads()
    ensures Reads(Name(SmallerWord), SmallerWord)
  {
  }

  lemma UidNameReads()
    ensures Reads(Name(UidWord), UidWord)
  {
  }

  /** Every keyword is read as itself. */
  lemma NameReads(w: Word)
    requires w != OtherWord && (w.Bare? ==> IsBare(w.key))
    ensures Reads(Name(w), w)
  {
    match w
    case Bare(key) => BareNameReads(key);
    case TextWord(f) => TextNameReads(f);
    case DateWord(f) => DateNameReads(f);
    case OrWord => PrefixNameReads(w);
    case NotWord => PrefixNameReads(w);
    case CharsetWord => PrefixNameReads(w);
    case KeywordWord => KeywordNameReads();
    case UnkeywordWord => UnkeywordNameReads();
    case HeaderWord => HeaderNameReads();
    case UidWord => UidNameReads();
    case LargerWord => LargerNameReads();
    case SmallerWord => SmallerNameReads();
  }

  lemma NameMapped(w: Word, cm: CaseMap)
    requires MapsAscii(cm) && w != OtherWord && (w.Bare? ==> IsBare(w.key))
    ensures WordOf(cm.upper(Name(w))) == w && IsAtomText(Name(w))
  {
    NameReads(w);
  }

  lemma ReadDay(d: int, cm: CaseMap)
    requires MapsAscii(cm) && PrintableDay(d)
    ensures ParseDate(DayText(d), cm.lower) == Some(d)
  {
    var c := Calendar.DateOf(d);
    MonthNames(c.month);
    ParseDateText(c, cm.lower);
    Calendar.DateOfInverse(d);
  }

  lemma ArgumentFirst(t: Token, rest: seq<Token>)
    requires t.Atom? || t.Quoted?
    ensures NextArg([t] + rest) == Parsed(Some(t.text), rest)
  {
    assert ([t] + rest)[1..] == rest;
  }

  /** A day number given as an argument is read back. */
  lemma DateCriterionRead(f: DateField, atom: string, d: int, rest: seq<Token>, cm: CaseMap)
    requires MapsAscii(cm) && PrintableDay(d)
    ensures SimpleKey(atom, DateWord(f), [Atom(DayText(d))] + rest, cm) == Parsed(DateKey(f, d), rest)
  {
    ReadDay(d, cm);
    ArgumentFirst(Atom(DayText(d)), rest);
  }

  lemma TextCriterionRead(f: TextField, atom: string, s: string, rest: seq<Token>, cm: CaseMap)
    ensures SimpleKey(atom, TextWord(f), [Quoted(s)] + rest, cm) == Parsed(TextKey(f, s), rest)
  {
    ArgumentFirst(Quoted(s), rest);
  }

  lemma HeaderCriterionRead(atom: string, name: string, value: string, rest: seq<Token>, cm: CaseMap)
    ensures SimpleKey(atom, HeaderWord, [Quoted(name), Quoted(value)] + rest, cm) == Parsed(Header(name, value), rest)
  {
    var ts := [Quoted(name), Quoted(value)] + rest;
    assert ts == [Quoted(name)] + ([Quoted(value)] + rest);
    ArgumentFirst(Quoted(name), [Quoted(value)] + rest);
    ArgumentFirst(Quoted(value), rest);
  }

  lemma FlagCriterionRead(key: SearchKey, atom: string, rest: seq<Token>, cm: CaseMap)
    requires key.Keyword? || key.Unkeyword?
    ensures SimpleKey(atom, WordFor(key), Arguments(key) + rest, cm) == Parsed(key, rest)
  {
    ArgumentFirst(Arguments(key)[0], rest);
  }

  lemma SizeCriterionRead(key: SearchKey, atom: string, rest: seq<Token>, cm: CaseMap)
    requires Printable(key) && (key.Larger? || key.Smaller?)
    ensures SimpleKey(atom, WordFor(key), Arguments(key) + rest, cm) == Parsed(key, rest)
  {
    ArgumentFirst(Arguments(key)[0], rest);
    ParseDecimal(key.size, TWO_64);
  }

  lemma UidCriterionRead(key: SearchKey, atom: string, rest: seq<Token>, cm: CaseMap)
    requires Printable(key) && key.Uid?
    ensures SimpleKey(atom, WordFor(key), Arguments(key) + rest, cm) == Parsed(key, rest)
  {
    ArgumentFirst(Arguments(key)[0], rest);
    SetOfText(key.set_);
  }

  /** A criterion is read from its own arguments, whatever comes after them. */
  lemma ArgumentsRead(key: SearchKey, atom: string, rest: seq<Token>, cm: CaseMap)
    requires MapsAscii(cm) && Printable(key) && IsCriterion(key) && !key.Sequence?
    ensures SimpleKey(atom, WordFor(key), Arguments(key) + rest, cm) == Parsed(key, rest)
  {
    var w := WordFor(key);
    match w
    case Bare(_) => assert [] + rest == rest;
    case TextWord(f) => TextCriterionRead(f, atom, key.text, rest, cm);
    case DateWord(f) => DateCriterionRead(f, atom, key.day, rest, cm);
    case HeaderWord => HeaderCriterionRead(atom, key.name, key.value, rest, cm);
    case UidWord => UidCriterionRead(key, atom, rest, cm);
    case LargerWord => SizeCriterionRead(key, atom, rest, cm);
    case SmallerWord => SizeCriterionRead(key, atom, rest, cm);
    case _ => FlagCriterionRead(key, atom, rest, cm);
  }

  lemma KeyAtAtom(atom: string, word: Word, ts: seq<Token>, cm: CaseMap)
    requires WordOf(cm.upper(atom)) == word
    ensures KeyAt([Atom(atom)] + ts, cm) == var k := WordKey(word, atom, ts, cm); Parsed(Some(k.value), k.rest)
  {
    assert ([Atom(atom)] + ts)[1..] == ts;
  }

  /** A keyword in front decides how the rest is read. */
  lemma KeyAtName(w: Word, ts: seq<Token>, cm: CaseMap)
    requires MapsAscii(cm) && w != OtherWord && (w.Bare? ==> IsBare(w.key))
    ensures KeyAt([Atom(Name(w))] + ts, cm) == var k := WordKey(w, Name(w), ts, cm); Parsed(Some(k.value), k.rest)
  {
    NameMapped(w, cm);
    KeyAtAtom(Name(w), w, ts, cm);
  }

  /** No keyword starts with anything but a letter. */
  lemma OtherStart(s: string)
    requires s != "" && !('A' <= s[0] <= 'Z')
    ensures WordOf(s) == OtherWord
  {
  }

  lemma SetTextIsOther(s: SeqSet, cm: CaseMap)
    requires MapsAscii(cm) && FitsSet(s)
    ensures WordOf(cm.upper(SetText(s))) == OtherWord
  {
    var text := SetText(s);
    SetOfText(s);
    assert forall i :: 0 <= i < |text| ==> IsSetChar(text[i]);
    assert cm.upper(text) == text;
    OtherStart(text);
  }

  lemma SetTextIsAtom(s: SeqSet)
    requires FitsSet(s)
    ensures IsAtomText(SetText(s))
  {
    SetOfText(s);
    var text := SetText(s);
    assert forall i :: 0 <= i < |text| ==> IsSetChar(text[i]);
  }

  lemma SequenceRead(s: SeqSet, rest: seq<Token>, cm: CaseMap)
    requires MapsAscii(cm) && FitsSet(s)
    ensures KeyAt([Atom(SetText(s))] + rest, cm) == Parsed(Some(Sequence(s)), rest)
  {
    SetTextIsOther(s, cm);
    KeyAtAtom(SetText(s), OtherWord, rest, cm);
    SetOfText(s);
  }

  lemma NamedRead(key: SearchKey, rest: seq<Token>, cm: CaseMap)
    requires MapsAscii(cm) && Printable(key) && IsCriterion(key) && !key.Sequence?
    ensures KeyAt([Atom(Name(WordFor(key)))] + (Arguments(key) + rest), cm) == Parsed(Some(key), rest)
  {
    var w := WordFor(key);
    KeyAtName(w, Arguments(key) + rest, cm);
    ArgumentsRead(key, Name(w), rest, cm);
  }

  lemma CriterionSplit(key: SearchKey, rest: seq<Token>)
    requires Printable(key) && IsCriterion(key) && !key.Sequence?
    ensures CriterionTokens(key) + rest == [Atom(Name(WordFor(key)))] + (Arguments(key) + rest)
  {
  }

  lemma CriterionRead(key: SearchKey, rest: seq<Token>, cm: CaseMap)
    requires MapsAscii(cm) && Printable(key) && IsCriterion(key)
    ensures KeyAt(CriterionTokens(key) + rest, cm) == Parsed(Some(key), rest)
  {
    if key.Sequence? {
      SequenceRead(key.set_, rest, cm);
    } else {
      NamedRead(key, rest, cm);
      CriterionSplit(key, rest);
    }
  }

  // ----- reading keys -----

  lemma GroupRead(ts: seq<Token>, cm: CaseMap)
    ensures KeyAt([LParen] + ts, cm) == var g := KeysAt(ts, true, cm); Parsed(Some(FoldAnd(g.value)), g.rest)
  {
    assert ([LParen] + ts)[1..] == ts;
  }

  /** A group around one key that is read on its own. */
  lemma GroupOfOne(ts: seq<Token>, k: SearchKey, rest: seq<Token>, cm: CaseMap)
    requires KeyAt(ts, cm) == Parsed(Some(k), [RParen] + rest)
    ensures KeyAt([LParen] + ts, cm) == Parsed(Some(k), rest)
  {
    GroupRead(ts, cm);
    CloseGroup(rest, cm);
    KeysAtStep(ts, true, cm);
  }

  lemma CloseGroup(rest: seq<Token>, cm: CaseMap)
    ensures KeysAt([RParen] + rest, true, cm) == Parsed([], rest)
  {
    assert ([RParen] + rest)[1..] == rest;
  }

  lemma KeysAtStep(ts: seq<Token>, inGroup: bool, cm: CaseMap)
    requires KeyAt(ts, cm).value.Some?
    ensures var k, more := KeyAt(ts, cm), KeysAt(KeyAt(ts, cm).rest, inGroup, cm);
            KeysAt(ts, inGroup, cm) == Parsed([k.value.value] + more.value, more.rest)
  {
  }

  lemma {:induction false} KeyRead(key: SearchKey, rest: seq<Token>, cm: CaseMap)
    requires MapsAscii(cm) && Printable(key)
    ensures KeyAt(KeyTokens(key) + rest, cm) == Parsed(Some(Norm(key)), rest)
    decreases key, 1
  {
    match key
    case And(keys) => AndRead(keys, rest, cm);
    case Or(a, b) => OrRead(a, b, rest, cm);
    case Not(k) => NotRead(k, rest, cm);
    case _ => CriterionRead(key, rest, cm);
  }

  lemma NotGroup(inner: seq<Token>, a: SearchKey, rest: seq<Token>, cm: CaseMap)
    requires MapsAscii(cm) && KeyAt(inner, cm) == Parsed(Some(a), [RParen] + rest)
    ensures KeyAt([LParen] + ([Atom(Name(NotWord))] + inner), cm) == Parsed(Some(Not(a)), rest)
  {
    KeyAtName(NotWord, inner, cm);
    GroupOfOne([Atom(Name(NotWord))] + inner, Not(a), rest, cm);
  }

  lemma OrGroup(inner: seq<Token>, a: SearchKey, b: SearchKey, rest: seq<Token>, cm: CaseMap)
    requires MapsAscii(cm) && KeyAt(inner, cm).value == Some(a)
    requires KeyAt(KeyAt(inner, cm).rest, cm) == Parsed(Some(b), [RParen] + rest)
    ensures KeyAt([LParen] + ([Atom(Name(OrWord))] + inner), cm) == Parsed(Some(Or(a, b)), rest)
  {
    KeyAtName(OrWord, inner, cm);
    GroupOfOne([Atom(Name(OrWord))] + inner, Or(a, b), rest, cm);
  }

  lemma Regroup(l: Token, name: Token, middle: seq<Token>, r: Token, rest: seq<Token>)
    ensures [l, name] + middle + [r] + rest == [l] + ([name] + (middle + ([r] + rest)))
  {
  }

  lemma RegroupTwo(l: Token, name: Token, first: seq<Token>, second: seq<Token>, r: Token, rest: seq<Token>)
    ensures [l, name] + (first + second) + [r] + rest == [l] + ([name] + (first + (second + ([r] + rest))))
  {
  }

  lemma {:induction false} OrTokens(a: SearchKey, b: SearchKey)
    requires Printable(a) && Printable(b)
    ensures KeyTokens(Or(a, b)) == [LParen, Atom(Name(OrWord))] + (KeyTokens(a) + KeyTokens(b)) + [RParen]
  {
  }

  lemma {:induction false} NotRead(k: SearchKey, rest: seq<Token>, cm: CaseMap)
    requires MapsAscii(cm) && Printable(k)
    ensures KeyAt(KeyTokens(Not(k)) + rest, cm) == Parsed(Some(Norm(Not(k))), rest)
    decreases Not(k), 0
  {
    var tail := [RParen] + rest;
    KeyRead(k, tail, cm);
    NotGroup(KeyTokens(k) + tail, Norm(k), rest, cm);
    Regroup(LParen, Atom(Name(NotWord)), KeyTokens(k), RParen, rest);
  }

  lemma {:induction false} OrRead(a: SearchKey, b: SearchKey, rest: seq<Token>, cm: CaseMap)
    requires MapsAscii(cm) && Printable(a) && Printable(b)
    ensures KeyAt(KeyTokens(Or(a, b)) + rest, cm) == Parsed(Some(Norm(Or(a, b))), rest)
    decreases Or(a, b), 0
  {
    var tail := [RParen] + rest;
    var second := KeyTokens(b) + tail;
    KeyRead(a, second, cm);
    KeyRead(b, tail, cm);
    OrGroup(KeyTokens(a) + second, Norm(a), Norm(b), rest, cm);
    OrTokens(a, b);
    RegroupTwo(LParen, Atom(Name(OrWord)), KeyTokens(a), KeyTokens(b), RParen, rest);
  }

  lemma {:induction false} AndTokens(keys: seq<SearchKey>, rest: seq<Token>)
    requires Printable(And(keys))
    ensures KeyTokens(And(keys)) + rest
            == [LParen] + ((if keys == [] then CriterionTokens(All) else KeysTokens(keys)) + ([RParen] + rest))
  {
  }

  /** A group whose keys are read up to its closing parenthesis. */
  lemma GroupOfKeys(ts: seq<Token>, keys: seq<SearchKey>, tail: seq<Token>, rest: seq<Token>, cm: CaseMap)
    requires tail == [RParen] + rest
    requires KeysAt(ts, true, cm).value == keys + KeysAt(tail, true, cm).value
    requires KeysAt(ts, true, cm).rest == KeysAt(tail, true, cm).rest
    ensures KeyAt([LParen] + ts, cm) == Parsed(Some(FoldAnd(keys)), rest)
  {
    CloseGroup(rest, cm);
    GroupRead(ts, cm);
    assert keys + [] == keys;
  }

  lemma {:induction false} AndRead(keys: seq<SearchKey>, rest: seq<Token>, cm: CaseMap)
    requires MapsAscii(cm) && Printable(And(keys))
    ensures KeyAt(KeyTokens(And(keys)) + rest, cm) == Parsed(Some(Norm(And(keys))), rest)
    decreases And(keys), 0
  {
    var tail := [RParen] + rest;
    AndTokens(keys, rest);
    if keys == [] {
      CriterionRead(All, tail, cm);
      GroupOfOne(CriterionTokens(All) + tail, All, rest, cm);
    } else {
      KeysRead(keys, tail, true, cm);
      GroupOfKeys(KeysTokens(keys) + tail, NormAll(keys), tail, rest, cm);
    }
  }

  /** Keys side by side, followed by anything. */
  lemma {:induction false} KeysRead(keys: seq<SearchKey>, tail: seq<Token>, inGroup: bool, cm: CaseMap)
    requires MapsAscii(cm) && forall k :: k in keys ==> Printable(k)
    ensures KeysAt(KeysTokens(keys) + tail, inGroup, cm).value == NormAll(keys) + KeysAt(tail, inGroup, cm).value
    ensures KeysAt(KeysTokens(keys) + tail, inGroup, cm).rest == KeysAt(tail, inGroup, cm).rest
    decreases keys, 0
  {
    if keys == [] {
      assert KeysTokens(keys) + tail == tail;
    } else {
      var more := KeysTokens(keys[1..]) + tail;
      assert KeysTokens(keys) + tail == KeyTokens(keys[0]) + more;
      KeyRead(keys[0], more, cm);
      KeysRead(keys[1..], tail, inGroup, cm);
      KeysAtStep(KeyTokens(keys[0]) + more, inGroup, cm);
    }
  }

  // ----- the text -----

  lemma DayTextIsAtom(d: int)
    requires PrintableDay(d)
    ensures IsAtomText(DayText(d))
  {
    var c := Calendar.DateOf(d);
    MonthNames(c.month);
    var parts := [Decimal(c.day), MONTHS[c.month - 1], Decimal(c.year)];
    assert parts[1..] == [MONTHS[c.month - 1], Decimal(c.year)];
    assert parts[1..][1..] == [Decimal(c.year)];
    assert Join(parts[1..][1..], '-') == Decimal(c.year);
    assert Join(parts[1..], '-') == MONTHS[c.month - 1] + ['-'] + Decimal(c.year);
  }

  lemma ArgumentsWritable(key: SearchKey)
    requires Printable(key)
    ensures forall t :: t in Arguments(key) ==> Writable(t)
  {
    match key
    case Before(d) => DayTextIsAtom(d);
    case On(d) => DayTextIsAtom(d);
    case Since(d) => DayTextIsAtom(d);
    case SentBefore(d) => DayTextIsAtom(d);
    case SentOn(d) => DayTextIsAtom(d);
    case SentSince(d) => DayTextIsAtom(d);
    case Uid(s) => SetOfText(s); assert IsAtomText(SetText(s));
    case Larger(n) => assert IsAtomText(Decimal(n));
    case Smaller(n) => assert IsAtomText(Decimal(n));
    case _ =>
  }

  lemma {:induction false} TokensWritable(key: SearchKey, cm: CaseMap)
    requires MapsAscii(cm) && Printable(key)
    ensures forall t :: t in KeyTokens(key) ==> Writable(t)
  {
    match key
    case And(keys) =>
      NameMapped(Bare(All), cm);
      AllTokensWritable(keys, cm);
    case Or(a, b) =>
      NameMapped(OrWord, cm);
      TokensWritable(a, cm);
      TokensWritable(b, cm);
    case Not(k) =>
      NameMapped(NotWord, cm);
      TokensWritable(k, cm);
    case _ =>
      CriterionWritable(key, cm);
  }

  lemma CriterionWritable(key: SearchKey, cm: CaseMap)
    requires MapsAscii(cm) && Printable(key) && IsCriterion(key)
    ensures forall t :: t in CriterionTokens(key) ==> Writable(t)
  {
    if key.Sequence? {
      SetTextIsAtom(key.set_);
    } else {
      NameMapped(WordFor(key), cm);
      ArgumentsWritable(key);
    }
  }

  lemma {:induction false} AllTokensWritable(keys: seq<SearchKey>, cm: CaseMap)
    requires MapsAscii(cm) && forall k :: k in keys ==> Printable(k)
    ensures forall t :: t in KeysTokens(keys) ==> Writable(t)
  {
    if keys != [] {
      TokensWritable(keys[0], cm);
      AllTokensWritable(keys[1..], cm);
    }
  }

  /** The text of a list of keys is read as those keys. */
  lemma PrintRead(keys: seq<SearchKey>, cm: CaseMap)
    requires MapsAscii(cm) && forall k :: k in keys ==> Printable(k)
    ensures Meaning(Print(keys), cm) == FoldAnd(NormAll(keys))
  {
    AllTokensWritable(keys, cm);
    TokensRender(KeysTokens(keys));
    KeysRead(keys, [], false, cm);
    assert KeysTokens(keys) + [] == KeysTokens(keys);
    assert NormAll(keys) + [] == NormAll(keys);
  }

  /**
   * Written out and parsed again, any keys select the same messages: those that match every one of them. A single
   * key is the list of just that key.
   */
  lemma PrintKeepsMeaning(keys: seq<SearchKey>, cm: CaseMap, m: MsgView, ctx: Context)
    requires MapsAscii(cm) && forall k :: k in keys ==> Printable(k)
    ensures Matches(Meaning(Print(keys), cm), m, ctx) <==> forall k :: k in keys ==> Matches(k, m, ctx)
  {
    PrintRead(keys, cm);
    FoldAndEval(NormAll(keys), Criteria(m, ctx));
    NormAllEval(keys, Criteria(m, ctx));
  }

  // ----- unknown criteria -----

  lemma UnknownRead(atom: string, rest: seq<Token>, cm: CaseMap)
    requires MapsAscii(cm) && WordOf(cm.upper(atom)) == OtherWord && !IsSeqSet(atom)
    ensures KeyAt([Atom(atom)] + rest, cm) == Parsed(Some(All), rest)
    ensures KeyAt([Atom(Name(NotWord))] + ([Atom(atom)] + rest), cm) == Parsed(Some(Not(All)), rest)
  {
    KeyAtAtom(atom, OtherWord, rest, cm);
    KeyAtName(NotWord, [Atom(atom)] + rest, cm);
  }

  /** A keyword the parser does not know restricts nothing where it stands, but under NOT it hides every message. */
  lemma UnknownCriterion(atom: string, rest: seq<Token>, cm: CaseMap, m: MsgView, ctx: Context)
    requires MapsAscii(cm) && WordOf(cm.upper(atom)) == OtherWord && !IsSeqSet(atom)
    ensures KeyAt([Atom(atom)] + rest, cm) == Parsed(Some(All), rest)
    ensures KeyAt([Atom(Name(NotWord)), Atom(atom)] + rest, cm) == Parsed(Some(Not(All)), rest)
    ensures Matches(All, m, ctx) && !Matches(Not(All), m, ctx)
  {
    UnknownRead(atom, rest, cm);
    assert [Atom(Name(NotWord)), Atom(atom)] + rest == [Atom(Name(NotWord))] + ([Atom(atom)] + rest);
  }
}
