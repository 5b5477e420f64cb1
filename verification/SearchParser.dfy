/** Recursive descent over SEARCH tokens. */
module SearchParser {
  import opened Wrappers
  import opened SearchKeys
  import opened SearchTokens
  import opened SearchArguments

  /** Unicode case mapping. */
  datatype CaseMap = CaseMap(upper: string -> string, lower: string -> string)

  // ----- keywords -----

  datatype TextField = SubjectText | FromText | ToText | CcText | BccText | BodyText | TextText

  datatype DateField = BeforeDate | OnDate | SinceDate | SentBeforeDate | SentOnDate | SentSinceDate

  /** What a criterion's keyword asks for next. */
  datatype Word =
    | Bare(key: SearchKey)
    | OrWord
    | NotWord
    | CharsetWord
    | TextWord(text: TextField)
    | KeywordWord
    | UnkeywordWord
    | HeaderWord
    | DateWord(date: DateField)
    | LargerWord
    | SmallerWord
    | UidWord
    | OtherWord

  /** Keywords without arguments. */
  function BareWord(s: string): Option<SearchKey> {
    if s == "ALL" then Some(All)
    else if s == "ANSWERED" then Some(Answered)
    else if s == "UNANSWERED" then Some(Unanswered)
    else if s == "SEEN" then Some(Seen)
    else if s == "UNSEEN" then Some(Unseen)
    else if s == "FLAGGED" then Some(Flagged)
    else if s == "UNFLAGGED" then Some(Unflagged)
    else if s == "DELETED" then Some(Deleted)
    else if s == "UNDELETED" then Some(Undeleted)
    else if s == "DRAFT" then Some(Draft)
    else if s == "UNDRAFT" then Some(Undraft)
    else if s == "RECENT" then Some(Recent)
    else if s == "NEW" then Some(New)
    else if s == "OLD" then Some(Old)
    else None
  }

  function ArgumentWord(s: string): Word {
    if s == "OR" then OrWord
    else if s == "NOT" then NotWord
    else if s == "CHARSET" then CharsetWord
    else if s == "SUBJECT" then TextWord(SubjectText)
    else if s == "FROM" then TextWord(FromText)
    else if s == "TO" then TextWord(ToText)
    else if s == "CC" then TextWord(CcText)
    else if s == "BCC" then TextWord(BccText)
    else if s == "BODY" then TextWord(BodyText)
    else if s == "TEXT" then TextWord(TextText)
    else if s == "KEYWORD" then KeywordWord
    else if s == "UNKEYWORD" then UnkeywordWord
    else if s == "HEADER" then HeaderWord
    else if s == "BEFORE" then DateWord(BeforeDate)
    else if s == "ON" then DateWord(OnDate)
    else if s == "SINCE" then DateWord(SinceDate)
    else if s == "SENTBEFORE" then DateWord(SentBeforeDate)
    else if s == "SENTON" then DateWord(SentOnDate)
    else if s == "SENTSINCE" then DateWord(SentSinceDate)
    else if s == "LARGER" then LargerWord
    else if s == "SMALLER" then SmallerWord
    else if s == "UID" then UidWord
    else OtherWord
  }

  function WordOf(s: string): Word {
    var bare := BareWord(s);
    if bare.Some? then Bare(bare.value) else ArgumentWord(s)
  }

  function TextKey(f: TextField, s: string): SearchKey {
    match f
    case SubjectText => Subject(s)
    case FromText => From(s)
    case ToText => To(s)
    case CcText => Cc(s)
    case BccText => Bcc(s)
    case BodyText => Body(s)
    case TextText => Text(s)
  }

  function DateKey(f: DateField, d: int): SearchKey {
    match f
    case BeforeDate => Before(d)
    case OnDate => On(d)
    case SinceDate => Since(d)
    case SentBeforeDate => SentBefore(d)
    case SentOnDate => SentOn(d)
    case SentSinceDate => SentSince(d)
  }

  // ----- the grammar, on token suffixes -----

  datatype Parsed<T> = Parsed(value: T, rest: seq<Token>)

  function NextArg(ts: seq<Token>): (r: Parsed<Option<string>>)
    ensures |r.rest| <= |ts|
  {
    if ts != [] && (ts[0].Atom? || ts[0].Quoted?) then Parsed(Some(ts[0].text), ts[1..]) else Parsed(None, ts)
  }

  function OrEmpty(s: Option<string>): string {
    if s.Some? then s.value else ""
  }

  function OrAll(k: Option<SearchKey>): SearchKey {
    if k.Some? then k.value else All
  }

  function DateOrAll(f: DateField, s: Option<string>, cm: CaseMap): SearchKey {
    var d := if s.Some? then ParseDate(s.value, cm.lower) else None;
    if d.Some? then DateKey(f, d.value) else All
  }

  function SizeOf(s: Option<string>): Option<nat> {
    if s.Some? then ParseUnsigned(s.value, TWO_64) else None
  }

  /** A criterion whose arguments, if any, are plain strings. */
  function SimpleKey(atom: string, word: Word, ts: seq<Token>, cm: CaseMap): (r: Parsed<SearchKey>)
    ensures |r.rest| <= |ts|
  {
    var arg := NextArg(ts);
    match word
    case Bare(key) => Parsed(key, ts)
    case TextWord(f) => Parsed(TextKey(f, OrEmpty(arg.value)), arg.rest)
    case KeywordWord => Parsed(Keyword, arg.rest)
    case UnkeywordWord => Parsed(Unkeyword, arg.rest)
    case HeaderWord =>
      var second := NextArg(arg.rest);
      Parsed(Header(OrEmpty(arg.value), OrEmpty(second.value)), second.rest)
    case DateWord(f) => Parsed(DateOrAll(f, arg.value, cm), arg.rest)
    case LargerWord => Parsed(if SizeOf(arg.value).Some? then Larger(SizeOf(arg.value).value) else All, arg.rest)
    case SmallerWord => Parsed(if SizeOf(arg.value).Some? then Smaller(SizeOf(arg.value).value) else All, arg.rest)
    case UidWord => Parsed(Uid(if arg.value.Some? then SetOf(arg.value.value) else SeqSet([])), arg.rest)
    case _ => Parsed(if IsSeqSet(atom) then Sequence(SetOf(atom)) else All, ts)
  }

  function FoldAnd(keys: seq<SearchKey>): SearchKey {
    if keys == [] then All else if |keys| == 1 then keys[0] else And(keys)
  }

  /** One key. There is none at the end of the input and at a closing parenthesis, which is consumed. */
  function KeyAt(ts: seq<Token>, cm: CaseMap): (r: Parsed<Option<SearchKey>>)
    ensures |r.rest| <= |ts| && (ts != [] ==> |r.rest| < |ts|)
    ensures r.value.None? <==> ts == [] || ts[0] == RParen
    decreases |ts|, 0
  {
    if ts == [] then Parsed(None, [])
    else
      match ts[0]
      case LParen => var group := KeysAt(ts[1..], true, cm); Parsed(Some(FoldAnd(group.value)), group.rest)
      case RParen => Parsed(None, ts[1..])
      case Quoted(_) => Parsed(Some(All), ts[1..])
      case Atom(atom) => var k := AtomKey(atom, ts[1..], cm); Parsed(Some(k.value), k.rest)
  }

  function AtomKey(atom: string, ts: seq<Token>, cm: CaseMap): (r: Parsed<SearchKey>)
    ensures |r.rest| <= |ts|
    decreases |ts|, 2
  {
    WordKey(WordOf(cm.upper(atom)), atom, ts, cm)
  }

  function WordKey(word: Word, atom: string, ts: seq<Token>, cm: CaseMap): (r: Parsed<SearchKey>)
    ensures |r.rest| <= |ts|
    decreases |ts|, 1
  {
    match word
    case OrWord =>
      var a := KeyAt(ts, cm);
      var b := KeyAt(a.rest, cm);
      Parsed(Or(OrAll(a.value), OrAll(b.value)), b.rest)
    case NotWord => var a := KeyAt(ts, cm); Parsed(Not(OrAll(a.value)), a.rest)
    case CharsetWord => var k := KeyAt(NextArg(ts).rest, cm); Parsed(OrAll(k.value), k.rest)
    case _ => SimpleKey(atom, word, ts, cm)
  }

  /** Keys up to the end of the input, or in a group to its closing parenthesis, which is consumed. */
  function KeysAt(ts: seq<Token>, inGroup: bool, cm: CaseMap): (r: Parsed<seq<SearchKey>>)
    ensures |r.rest| <= |ts|
    decreases |ts|, 1
  {
    if ts == [] then Parsed([], [])
    else if ts[0] == RParen then if inGroup then Parsed([], ts[1..]) else KeysAt(ts[1..], inGroup, cm)
    else
      var k := KeyAt(ts, cm);
      var more := KeysAt(k.rest, inGroup, cm);
      Parsed([k.value.value] + more.value, more.rest)
  }

  /** What a SEARCH argument string means. */
  function Meaning(s: string, cm: CaseMap): SearchKey {
    FoldAnd(KeysAt(Tokens(s), false, cm).value)
  }

  /** The whole input is read, whatever it is. */
  lemma {:induction false} AllTokensConsumed(ts: seq<Token>, cm: CaseMap)
    ensures KeysAt(ts, false, cm).rest == []
    decreases |ts|
  {
    if ts != [] {
      if ts[0] == RParen {
        AllTokensConsumed(ts[1..], cm);
      } else {
        AllTokensConsumed(KeyAt(ts, cm).rest, cm);
      }
    }
  }

  // ----- the parser, advancing an index -----

  method TakeArg(tokens: seq<Token>, i: nat) returns (arg: Option<string>, j: nat)
    requires i <= |tokens|
    ensures i <= j <= |tokens|
    ensures NextArg(tokens[i..]) == Parsed(arg, tokens[j..])
  {
    if i < |tokens| && (tokens[i].Atom? || tokens[i].Quoted?) {
      return Some(tokens[i].text), i + 1;
    }
    return None, i;
  }

  method ParseSimple(atom: string, word: Word, tokens: seq<Token>, i: nat, cm: CaseMap)
    returns (key: SearchKey, j: nat)
    requires i <= |tokens|
    ensures i <= j <= |tokens|
    ensures SimpleKey(atom, word, tokens[i..], cm) == Parsed(key, tokens[j..])
  {
    var arg: Option<string>;
    match word
    case Bare(k) =>
      key, j := k, i;
    case TextWord(f) =>
      arg, j := TakeArg(tokens, i);
      key := TextKey(f, OrEmpty(arg));
    case KeywordWord =>
      arg, j := TakeArg(tokens, i);
      key := Keyword;
    case UnkeywordWord =>
      arg, j := TakeArg(tokens, i);
      key := Unkeyword;
    case HeaderWord =>
      var value;
      arg, j := TakeArg(tokens, i);
      value, j := TakeArg(tokens, j);
      key := Header(OrEmpty(arg), OrEmpty(value));
    case DateWord(f) =>
      arg, j := TakeArg(tokens, i);
      key := DateOrAll(f, arg, cm);
    case LargerWord =>
      arg, j := TakeArg(tokens, i);
      var n := SizeOf(arg);
      key := if n.Some? then Larger(n.value) else All;
    case SmallerWord =>
      arg, j := TakeArg(tokens, i);
      var n := SizeOf(arg);
      key := if n.Some? then Smaller(n.value) else All;
    case UidWord =>
      arg, j := TakeArg(tokens, i);
      var s := SeqSet([]);
      if arg.Some? {
        s := ParseSeqSet(arg.value);
      }
      key := Uid(s);
    case _ =>
      j := i;
      if IsSeqSet(atom) {
        var s := ParseSeqSet(atom);
        key := Sequence(s);
      } else {
        key := All;
      }
  }

  method ParseKey(tokens: seq<Token>, i: nat, cm: CaseMap) returns (key: Option<SearchKey>, j: nat)
    requires i <= |tokens|
    ensures i <= j <= |tokens|
    ensures KeyAt(tokens[i..], cm) == Parsed(key, tokens[j..])
    decreases |tokens| - i, 0
  {
    if i == |tokens| {
      return None, i;
    }
    assert tokens[i..][1..] == tokens[i + 1..];
    match tokens[i]
    case LParen =>
      var keys;
      keys, j := ParseKeyList(tokens, i + 1, true, cm);
      key := Some(FoldAnd(keys));
    case RParen =>
      return None, i + 1;
    case Quoted(_) =>
      return Some(All), i + 1;
    case Atom(atom) =>
      var k;
      k, j := ParseAtomKey(atom, tokens, i + 1, cm);
      key := Some(k);
  }

  method ParseAtomKey(atom: string, tokens: seq<Token>, i: nat, cm: CaseMap) returns (key: SearchKey, j: nat)
    requires i <= |tokens|
    ensures i <= j <= |tokens|
    ensures AtomKey(atom, tokens[i..], cm) == Parsed(key, tokens[j..])
    decreases |tokens| - i, 1
  {
    var word := WordOf(cm.upper(atom));
    var a: Option<SearchKey>, b: Option<SearchKey>;
    match word
    case OrWord =>
      a, j := ParseKey(tokens, i, cm);
      b, j := ParseKey(tokens, j, cm);
      key := Or(OrAll(a), OrAll(b));
    case NotWord =>
      a, j := ParseKey(tokens, i, cm);
      key := Not(OrAll(a));
    case CharsetWord =>
      var name;
      name, j := TakeArg(tokens, i);
      a, j := ParseKey(tokens, j, cm);
      key := OrAll(a);
    case _ =>
      key, j := ParseSimple(atom, word, tokens, i, cm);
  }

  /** The keys of a whole list are those read so far and those still ahead. */
  ghost predicate SoFar(whole: Parsed<seq<SearchKey>>, keys: seq<SearchKey>, ts: seq<Token>, inGroup: bool, cm: CaseMap) {
    whole.value == keys + KeysAt(ts, inGroup, cm).value && whole.rest == KeysAt(ts, inGroup, cm).rest
  }

  lemma SoFarEnds(whole: Parsed<seq<SearchKey>>, keys: seq<SearchKey>, ts: seq<Token>, inGroup: bool, cm: CaseMap)
    requires SoFar(whole, keys, ts, inGroup, cm)
    ensures ts == [] ==> whole == Parsed(keys, ts)
    ensures ts != [] && ts[0] == RParen ==>
              if inGroup then whole == Parsed(keys, ts[1..]) else SoFar(whole, keys, ts[1..], inGroup, cm)
  {
    assert keys + [] == keys;
  }

  lemma SoFarKey(whole: Parsed<seq<SearchKey>>, keys: seq<SearchKey>, ts: seq<Token>, inGroup: bool, cm: CaseMap)
    requires SoFar(whole, keys, ts, inGroup, cm) && ts != [] && ts[0] != RParen
    ensures KeyAt(ts, cm).value.Some?
    ensures SoFar(whole, keys + [KeyAt(ts, cm).value.value], KeyAt(ts, cm).rest, inGroup, cm)
  {
  }

  method ParseKeyList(tokens: seq<Token>, i: nat, inGroup: bool, cm: CaseMap) returns (keys: seq<SearchKey>, j: nat)
    requires i <= |tokens|
    ensures i <= j <= |tokens|
    ensures KeysAt(tokens[i..], inGroup, cm) == Parsed(keys, tokens[j..])
    decreases |tokens| - i, 1
  {
    ghost var whole := KeysAt(tokens[i..], inGroup, cm);
    keys := [];
    j := i;
    while j < |tokens|
      invariant i <= j <= |tokens|
      invariant SoFar(whole, keys, tokens[j..], inGroup, cm)
      decreases |tokens| - j
    {
      ghost var ts := tokens[j..];
      assert ts[0] == tokens[j] && ts[1..] == tokens[j + 1..];
      SoFarEnds(whole, keys, ts, inGroup, cm);
      if tokens[j] == RParen {
        j := j + 1;
        if inGroup {
          return;
        }
        continue;
      }
      SoFarKey(whole, keys, ts, inGroup, cm);
      var k, next := ParseKey(tokens, j, cm);
      assert |tokens[next..]| < |ts|;
      if k.None? {
        break;
      }
      keys := keys + [k.value];
      j := next;
    }
    SoFarEnds(whole, keys, tokens[j..], inGroup, cm);
  }

  /** Every argument string is parsed to its end. */
  method Parse(args: string, cm: CaseMap) returns (key: SearchKey)
    ensures key == Meaning(args, cm)
  {
    var tokens := Tokenize(args);
    assert tokens[0..] == tokens;
    var keys, i := ParseKeyList(tokens, 0, false, cm);
    AllTokensConsumed(tokens, cm);
    assert i == |tokens|;
    key := FoldAnd(keys);
  }
}
