/** What the SEARCH reader makes of each piece of text, malformed text included. */
module SearchTexts {
  import opened Wrappers
  import opened SearchKeys
  import opened SearchTokens
  import opened SearchArguments
  import opened SearchParser
  import opened SearchPrint
  import Calendar

  // ----- characters -----

  lemma BlanksAndParens(c: char, tail: string)
    ensures c in " \t\r\n" ==> Tokens([c] + tail) == Tokens(tail)
    ensures c == '(' ==> Tokens([c] + tail) == [LParen] + Tokens(tail)
    ensures c == ')' ==> Tokens([c] + tail) == [RParen] + Tokens(tail)
  {
    assert ([c] + tail)[1..] == tail;
  }

  /** An atom runs up to a space, a tab, a parenthesis or a quote; a line break inside it does not end it. */
  lemma AtomReaches(atom: string, tail: string)
    requires atom != "" && atom[0] != '\r' && atom[0] != '\n'
    requires forall i :: 0 <= i < |atom| ==> atom[i] !in " \t()\""
    requires tail == "" || tail[0] in " \t()\""
    ensures Tokens(atom + tail) == [Atom(atom)] + Tokens(tail)
  {
    LexAtom(atom, tail);
  }

  predicate IsPlain(s: string) {
    '"' !in s && '\\' !in s
  }

  lemma PlainFront(s: string, more: string)
    requires s != "" && IsPlain(s)
    ensures IsPlain(s[1..])
    ensures QuotedPart(s + more) == Scan([s[0]] + QuotedPart(s[1..] + more).text, QuotedPart(s[1..] + more).rest)
  {
    assert s[0] in s && (s + more)[1..] == s[1..] + more;
  }

  /** Between quotes characters stand for themselves. */
  lemma {:induction false} PlainReaches(s: string, more: string)
    requires IsPlain(s)
    ensures QuotedPart(s + more) == Scan(s + QuotedPart(more).text, QuotedPart(more).rest)
  {
    if s == "" {
      assert "" + more == more && "" + QuotedPart(more).text == QuotedPart(more).text;
    } else {
      PlainFront(s, more);
      PlainReaches(s[1..], more);
      assert s == [s[0]] + s[1..];
      assert [s[0]] + (s[1..] + QuotedPart(more).text) == s + QuotedPart(more).text;
    }
  }

  /** A quote ends the string. */
  lemma ClosedString(s: string, tail: string)
    requires IsPlain(s)
    ensures Tokens(['"'] + (s + (['"'] + tail))) == [Quoted(s)] + Tokens(tail)
  {
    assert (['"'] + tail)[1..] == tail;
    PlainReaches(s, ['"'] + tail);
    assert s + "" == s;
    OpenQuote(s + (['"'] + tail));
  }

  /** A backslash is dropped, and the character after it stands for itself, whatever it is. */
  lemma EscapedCharacter(s: string, c: char, t: string, tail: string)
    requires IsPlain(s) && IsPlain(t)
    ensures Tokens(['"'] + (s + (['\\', c] + (t + (['"'] + tail))))) == [Quoted(s + ([c] + t))] + Tokens(tail)
  {
    var more := t + (['"'] + tail);
    assert (['\\', c] + more)[2..] == more && (['"'] + tail)[1..] == tail;
    PlainReaches(t, ['"'] + tail);
    assert t + "" == t;
    PlainReaches(s, ['\\', c] + more);
    OpenQuote(s + (['\\', c] + more));
  }

  /** The end of the text ends the string, too, a last backslash being dropped. */
  lemma UnclosedString(s: string)
    requires IsPlain(s)
    ensures Tokens(['"'] + s) == [Quoted(s)] == Tokens(['"'] + (s + ['\\']))
  {
    PlainReaches(s, "");
    PlainReaches(s, ['\\']);
    assert s + "" == s;
    OpenQuote(s);
    OpenQuote(s + ['\\']);
  }

  lemma OpenQuote(more: string)
    ensures Tokens(['"'] + more) == [Quoted(QuotedPart(more).text)] + Tokens(QuotedPart(more).rest)
  {
    assert (['"'] + more)[1..] == more;
  }

  // ----- keywords -----

  predicate HasArgument(ts: seq<Token>) {
    ts != [] && ts[0] != LParen && ts[0] != RParen
  }

  /** The argument in front, empty when there is none. */
  function ArgumentText(ts: seq<Token>): string {
    if HasArgument(ts) then ts[0].text else ""
  }

  function AfterArgument(ts: seq<Token>): seq<Token> {
    if HasArgument(ts) then ts[1..] else ts
  }

  lemma ArgumentIsNext(ts: seq<Token>)
    ensures NextArg(ts) == Parsed(if HasArgument(ts) then Some(ArgumentText(ts)) else None, AfterArgument(ts))
  {
  }

  /** The keyword, in any case, reads as this key and leaves these tokens. */
  predicate ReadsAs(atom: string, ts: seq<Token>, cm: CaseMap, key: SearchKey, rest: seq<Token>) {
    KeyAt([Atom(atom)] + ts, cm) == Parsed(Some(key), rest)
  }

  lemma WordReads(atom: string, w: Word, ts: seq<Token>, cm: CaseMap)
    requires WordOf(cm.upper(atom)) == w
    ensures var k := WordKey(w, atom, ts, cm); ReadsAs(atom, ts, cm, k.value, k.rest)
  {
    KeyAtAtom(atom, w, ts, cm);
  }

  lemma BareReads(atom: string, key: SearchKey, ts: seq<Token>, cm: CaseMap)
    requires BareWord(cm.upper(atom)) == Some(key)
    ensures ReadsAs(atom, ts, cm, key, ts)
  {
    WordReads(atom, Bare(key), ts, cm);
  }

  lemma FlagKeywords(atom: string, ts: seq<Token>, cm: CaseMap)
    ensures cm.upper(atom) == "SEEN" ==> ReadsAs(atom, ts, cm, Seen, ts)
    ensures cm.upper(atom) == "UNSEEN" ==> ReadsAs(atom, ts, cm, Unseen, ts)
    ensures cm.upper(atom) == "DELETED" ==> ReadsAs(atom, ts, cm, Deleted, ts)
    ensures cm.upper(atom) == "UNDELETED" ==> ReadsAs(atom, ts, cm, Undeleted, ts)
    ensures cm.upper(atom) == "ANSWERED" ==> ReadsAs(atom, ts, cm, Answered, ts)
    ensures cm.upper(atom) == "UNANSWERED" ==> ReadsAs(atom, ts, cm, Unanswered, ts)
    ensures cm.upper(atom) == "FLAGGED" ==> ReadsAs(atom, ts, cm, Flagged, ts)
    ensures cm.upper(atom) == "UNFLAGGED" ==> ReadsAs(atom, ts, cm, Unflagged, ts)
    ensures cm.upper(atom) == "DRAFT" ==> ReadsAs(atom, ts, cm, Draft, ts)
    ensures cm.upper(atom) == "UNDRAFT" ==> ReadsAs(atom, ts, cm, Undraft, ts)
  {
    if BareWord(cm.upper(atom)).Some? {
      BareReads(atom, BareWord(cm.upper(atom)).value, ts, cm);
    }
  }

  lemma OtherBareKeywords(atom: string, ts: seq<Token>, cm: CaseMap)
    ensures cm.upper(atom) == "ALL" ==> ReadsAs(atom, ts, cm, All, ts)
    ensures cm.upper(atom) == "RECENT" ==> ReadsAs(atom, ts, cm, Recent, ts)
    ensures cm.upper(atom) == "NEW" ==> ReadsAs(atom, ts, cm, New, ts)
    ensures cm.upper(atom) == "OLD" ==> ReadsAs(atom, ts, cm, Old, ts)
  {
    if BareWord(cm.upper(atom)).Some? {
      BareReads(atom, BareWord(cm.upper(atom)).value, ts, cm);
    }
  }

  lemma TextReads(atom: string, f: TextField, ts: seq<Token>, cm: CaseMap)
    requires WordOf(cm.upper(atom)) == TextWord(f)
    ensures ReadsAs(atom, ts, cm, TextKey(f, ArgumentText(ts)), AfterArgument(ts))
  {
    WordReads(atom, TextWord(f), ts, cm);
    ArgumentIsNext(ts);
  }

  /** A text criterion takes one argument, and looks for the empty string when there is none. */
  lemma ContentKeywords(atom: string, ts: seq<Token>, cm: CaseMap)
    ensures cm.upper(atom) == "SUBJECT" ==> ReadsAs(atom, ts, cm, Subject(ArgumentText(ts)), AfterArgument(ts))
    ensures cm.upper(atom) == "BODY" ==> ReadsAs(atom, ts, cm, Body(ArgumentText(ts)), AfterArgument(ts))
    ensures cm.upper(atom) == "TEXT" ==> ReadsAs(atom, ts, cm, Text(ArgumentText(ts)), AfterArgument(ts))
  {
    if WordOf(cm.upper(atom)).TextWord? {
      TextReads(atom, WordOf(cm.upper(atom)).text, ts, cm);
    }
  }

  lemma AddressKeywords(atom: string, ts: seq<Token>, cm: CaseMap)
    ensures cm.upper(atom) == "FROM" ==> ReadsAs(atom, ts, cm, From(ArgumentText(ts)), AfterArgument(ts))
    ensures cm.upper(atom) == "TO" ==> ReadsAs(atom, ts, cm, To(ArgumentText(ts)), AfterArgument(ts))
    ensures cm.upper(atom) == "CC" ==> ReadsAs(atom, ts, cm, Cc(ArgumentText(ts)), AfterArgument(ts))
    ensures cm.upper(atom) == "BCC" ==> ReadsAs(atom, ts, cm, Bcc(ArgumentText(ts)), AfterArgument(ts))
  {
    if WordOf(cm.upper(atom)).TextWord? {
      TextReads(atom, WordOf(cm.upper(atom)).text, ts, cm);
    }
  }

  /** HEADER takes a name and a value. */
  lemma HeaderKeyword(atom: string, ts: seq<Token>, cm: CaseMap)
    requires cm.upper(atom) == "HEADER"
    ensures ReadsAs(atom, ts, cm, Header(ArgumentText(ts), ArgumentText(AfterArgument(ts))),
                    AfterArgument(AfterArgument(ts)))
  {
    WordReads(atom, HeaderWord, ts, cm);
    ArgumentIsNext(ts);
    ArgumentIsNext(AfterArgument(ts));
  }

  /** KEYWORD and UNKEYWORD skip their argument. */
  lemma KeywordKeywords(atom: string, ts: seq<Token>, cm: CaseMap, un: bool)
    requires cm.upper(atom) == if un then "UNKEYWORD" else "KEYWORD"
    ensures ReadsAs(atom, ts, cm, if un then Unkeyword else Keyword, AfterArgument(ts))
  {
    WordReads(atom, if un then UnkeywordWord else KeywordWord, ts, cm);
    ArgumentIsNext(ts);
  }

  lemma DateReads(atom: string, f: DateField, ts: seq<Token>, cm: CaseMap, day: Option<int>)
    requires WordOf(cm.upper(atom)) == DateWord(f) && day == ParseDate(ArgumentText(ts), cm.lower)
    ensures ReadsAs(atom, ts, cm, if day.Some? then DateKey(f, day.value) else All, AfterArgument(ts))
  {
    WordReads(atom, DateWord(f), ts, cm);
    ArgumentIsNext(ts);
    assert Split("", '-') == [""];
  }

  lemma ReceivedWordNamed(name: string, k: nat)
    requires k < 3 && name == ["BEFORE", "ON", "SINCE"][k]
    ensures WordOf(name) == DateWord([BeforeDate, OnDate, SinceDate][k])
  {
  }

  lemma SentWordNamed(name: string, k: nat)
    requires k < 3 && name == ["SENTBEFORE", "SENTON", "SENTSINCE"][k]
    ensures WordOf(name) == DateWord([SentBeforeDate, SentOnDate, SentSinceDate][k])
  {
  }

  /** The date criterion of this field, if there is a day. */
  lemma DateWordReads(atom: string, f: DateField, ts: seq<Token>, cm: CaseMap)
    requires WordOf(cm.upper(atom)) == DateWord(f)
    ensures match ParseDate(ArgumentText(ts), cm.lower)
            case None => ReadsAs(atom, ts, cm, All, AfterArgument(ts))
            case Some(d) => ReadsAs(atom, ts, cm, DateKey(f, d), AfterArgument(ts))
  {
    DateReads(atom, f, ts, cm, ParseDate(ArgumentText(ts), cm.lower));
  }

  /** A date criterion takes one date; it restricts nothing when that is missing or no date. */
  lemma DateKeywords(atom: string, k: nat, ts: seq<Token>, cm: CaseMap)
    requires k < 3 && cm.upper(atom) == ["BEFORE", "ON", "SINCE"][k]
    ensures match ParseDate(ArgumentText(ts), cm.lower)
            case None => ReadsAs(atom, ts, cm, All, AfterArgument(ts))
            case Some(d) => ReadsAs(atom, ts, cm, [Before(d), On(d), Since(d)][k], AfterArgument(ts))
  {
    ReceivedWordNamed(cm.upper(atom), k);
    DateWordReads(atom, [BeforeDate, OnDate, SinceDate][k], ts, cm);
  }

  lemma SentDateKeywords(atom: string, k: nat, ts: seq<Token>, cm: CaseMap)
    requires k < 3 && cm.upper(atom) == ["SENTBEFORE", "SENTON", "SENTSINCE"][k]
    ensures match ParseDate(ArgumentText(ts), cm.lower)
            case None => ReadsAs(atom, ts, cm, All, AfterArgument(ts))
            case Some(d) => ReadsAs(atom, ts, cm, [SentBefore(d), SentOn(d), SentSince(d)][k], AfterArgument(ts))
  {
    SentWordNamed(cm.upper(atom), k);
    DateWordReads(atom, [SentBeforeDate, SentOnDate, SentSinceDate][k], ts, cm);
  }

  lemma SizeReads(atom: string, w: Word, ts: seq<Token>, cm: CaseMap, size: Option<nat>)
    requires (w == LargerWord || w == SmallerWord) && WordOf(cm.upper(atom)) == w
    requires size == ParseUnsigned(ArgumentText(ts), 0x1_0000_0000_0000_0000)
    ensures ReadsAs(atom, ts, cm, if size.None? then All else if w == LargerWord then Larger(size.value)
                                  else Smaller(size.value), AfterArgument(ts))
  {
    WordReads(atom, w, ts, cm);
    ArgumentIsNext(ts);
  }

  /** A size that is missing or no 64-bit number restricts nothing. */
  lemma SizeKeywords(atom: string, ts: seq<Token>, cm: CaseMap, larger: bool)
    requires cm.upper(atom) == if larger then "LARGER" else "SMALLER"
    ensures match ParseUnsigned(ArgumentText(ts), 0x1_0000_0000_0000_0000)
            case None => ReadsAs(atom, ts, cm, All, AfterArgument(ts))
            case Some(n) => ReadsAs(atom, ts, cm, if larger then Larger(n) else Smaller(n), AfterArgument(ts))
  {
    SizeReads(atom, if larger then LargerWord else SmallerWord, ts, cm,
              ParseUnsigned(ArgumentText(ts), 0x1_0000_0000_0000_0000));
  }

  /** A missing UID set selects nothing. */
  lemma UidKeyword(atom: string, ts: seq<Token>, cm: CaseMap)
    requires cm.upper(atom) == "UID"
    ensures ReadsAs(atom, ts, cm, Uid(if HasArgument(ts) then SetOf(ArgumentText(ts)) else SeqSet([])), AfterArgument(ts))
  {
    WordReads(atom, UidWord, ts, cm);
    ArgumentIsNext(ts);
  }

  /** An atom that is no keyword but a set selects by sequence number; any other restricts nothing. */
  lemma OtherAtoms(atom: string, ts: seq<Token>, cm: CaseMap)
    requires WordOf(cm.upper(atom)) == OtherWord
    ensures ReadsAs(atom, ts, cm,
                    if atom != "" && forall i :: 0 <= i < |atom| ==> atom[i] in "0123456789:,*" then Sequence(SetOf(atom))
                    else All, ts)
  {
    WordReads(atom, OtherWord, ts, cm);
    SetCharacters(atom);
  }

  lemma SetCharacters(atom: string)
    ensures IsSeqSet(atom) <==> atom != "" && forall i :: 0 <= i < |atom| ==> atom[i] in "0123456789:,*"
  {
    assert forall c: char :: IsSetChar(c) <==> c in "0123456789:,*";
  }

  /** OR takes two keys, NOT one; a key that is missing is ALL, and the parenthesis found in its place is gone. */
  lemma ConnectiveKeywords(atom: string, ts: seq<Token>, cm: CaseMap)
    ensures var a := KeyAt(ts, cm);
            var b := KeyAt(a.rest, cm);
            && (cm.upper(atom) == "OR" ==>
                  ReadsAs(atom, ts, cm, Or(if a.value.Some? then a.value.value else All,
                                           if b.value.Some? then b.value.value else All), b.rest))
            && (cm.upper(atom) == "NOT" ==>
                  ReadsAs(atom, ts, cm, Not(if a.value.Some? then a.value.value else All), a.rest))
  {
    WordReads(atom, WordOf(cm.upper(atom)), ts, cm);
  }

  /** CHARSET and its argument are skipped. */
  lemma CharsetIsSkipped(atom: string, ts: seq<Token>, cm: CaseMap)
    requires cm.upper(atom) == "CHARSET"
    ensures var k := KeyAt(AfterArgument(ts), cm);
            KeyAt([Atom(atom)] + ts, cm) == if k.value.Some? then k else Parsed(Some(All), k.rest)
  {
    WordReads(atom, CharsetWord, ts, cm);
    ArgumentIsNext(ts);
  }

  // ----- what stands where no keyword stands -----

  /** A quoted string in place of a key restricts nothing; a parenthesis closed too often is passed over. */
  lemma StrayTokens(s: string, ts: seq<Token>, cm: CaseMap)
    ensures KeyAt([Quoted(s)] + ts, cm) == Parsed(Some(All), ts)
    ensures KeysAt([RParen] + ts, false, cm) == KeysAt(ts, false, cm)
    ensures KeysAt([RParen] + ts, true, cm) == Parsed([], ts)
    ensures KeyAt([RParen] + ts, cm) == Parsed(None, ts) && KeyAt([], cm) == Parsed(None, [])
  {
    assert ([Quoted(s)] + ts)[1..] == ts && ([RParen] + ts)[1..] == ts;
  }

  /** Keys side by side and in a group must all match; none at all match everything. */
  lemma KeysSideBySide(ts: seq<Token>, cm: CaseMap, m: MsgView, ctx: Context)
    ensures Matches(FoldAnd(KeysAt(ts, false, cm).value), m, ctx)
            <==> forall k :: k in KeysAt(ts, false, cm).value ==> Matches(k, m, ctx)
    ensures KeyAt([LParen] + ts, cm).value.Some?
            && (Matches(KeyAt([LParen] + ts, cm).value.value, m, ctx)
                <==> forall k :: k in KeysAt(ts, true, cm).value ==> Matches(k, m, ctx))
  {
    GroupRead(ts, cm);
    FoldAndEval(KeysAt(ts, false, cm).value, Criteria(m, ctx));
    FoldAndEval(KeysAt(ts, true, cm).value, Criteria(m, ctx));
  }

  // ----- numbers and dates -----

  lemma {:induction false} LeadingZeros(zeros: string, s: string)
    requires (forall i :: 0 <= i < |zeros| ==> zeros[i] == '0') && AllDigits(s)
    ensures AllDigits(zeros + s) && Value(zeros + s) == Value(s)
  {
    if s == "" {
      assert zeros + s == zeros;
      if zeros != "" {
        LeadingZeros(zeros[..|zeros| - 1], "");
        assert zeros[..|zeros| - 1] + "" == zeros[..|zeros| - 1];
      }
    } else {
      var n := |s| - 1;
      LeadingZeros(zeros, s[..n]);
      assert (zeros + s)[..|zeros + s| - 1] == zeros + s[..n];
    }
  }

  /** Digits make a number below the limit, with any number of zeros and at most one plus sign in front. */
  lemma NumbersRead(plus: bool, zeros: string, n: nat, limit: nat)
    requires forall i :: 0 <= i < |zeros| ==> zeros[i] == '0'
    ensures ParseUnsigned((if plus then "+" else "") + (zeros + Decimal(n)), limit) == if n < limit then Some(n) else None
  {
    LeadingZeros(zeros, Decimal(n));
    ValueDecimal(n);
    var s := zeros + Decimal(n);
    assert IsDigit(s[0]) && "" + s == s && ("+" + s)[1..] == s;
  }

  /** Nothing else is a number. */
  lemma OthersAreNoNumbers(s: string, limit: nat)
    requires s == "" || s == "+" || exists i :: 0 <= i < |s| && !('0' <= s[i] <= '9') && (i > 0 || s[0] != '+')
    ensures ParseUnsigned(s, limit) == None
  {
    if s != "" && s[0] == '+' {
      if i :| 0 < i < |s| && !('0' <= s[i] <= '9') {
        assert s[1..][i - 1] == s[i];
      }
    }
  }

  lemma {:induction false} SplitParts(s: string, sep: char)
    ensures Join(Split(s, sep), sep) == s && forall p :: p in Split(s, sep) ==> sep !in p
  {
    if s != "" {
      SplitParts(s[1..], sep);
      var more := Split(s[1..], sep);
      var r := Split(s, sep);
      assert r[1..] == if s[0] == sep then more else more[1..];
      if s[0] == sep {
        assert Join(r, sep) == "" + [sep] + Join(more, sep);
      } else {
        assert sep !in more[0];
        assert Join(r, sep) == [s[0]] + Join(more, sep);
      }
    }
  }

  /** A date is a day, a month's name and a year between two dashes, and nothing else is one. */
  lemma DatesRead(s: string, lower: string -> string, day: int)
    ensures ParseDate(s, lower) == Some(day) <==>
            exists d, m, y :: '-' !in d && '-' !in m && '-' !in y && s == Join([d, m, y], '-')
                              && IsDateOf(d, lower(m), y, day)
  {
    SplitParts(s, '-');
    var parts := Split(s, '-');
    if ParseDate(s, lower) == Some(day) {
      assert parts == [parts[0], parts[1], parts[2]];
      assert IsDateOf(parts[0], lower(parts[1]), parts[2], day);
    }
    if d, m, y :| '-' !in d && '-' !in m && '-' !in y && s == Join([d, m, y], '-') && IsDateOf(d, lower(m), y, day) {
      SplitJoin([d, m, y], '-');
    }
  }

  predicate IsDateOf(d: string, month: string, y: string, day: int) {
    && ParseSigned(d).Some? && MonthOf(month).Some? && ParseSigned(y).Some?
    && day == Calendar.DaysFromCivil(ParseSigned(y).value, MonthOf(month).value, ParseSigned(d).value)
  }

  lemma MonthRead(name: string, month: int, lower: string -> string)
    requires MonthOf(lower(name)) == Some(month) && '-' !in name
    ensures ParseDate("1-" + name + "-1970", lower) == Some(Calendar.DaysFromCivil(1970, month, 1))
  {
    var parts := ["1", name, "1970"];
    SplitJoin(parts, '-');
    assert parts[1..] == [name, "1970"] && parts[1..][1..] == ["1970"];
    assert Join(parts[1..], '-') == name + ['-'] + "1970";
    assert Join(parts, '-') == "1" + ['-'] + (name + ['-'] + "1970");
    assert "1-" + name + "-1970" == Join(parts, '-');
    assert Decimal(1970) == "1970" by {
      assert Decimal(19) == "19" && Decimal(197) == "197";
    }
    assert Decimal(1) == "1";
    ParseDecimal(1, TWO_63);
    ParseDecimal(1970, TWO_63);
  }

  /** Days from New Year to the first of each month, in a year that is no leap year. */
  const DAYS_BEFORE: seq<int> := [0, 31, 59, 90, 120, 151, 181, 212, 243, 273, 304, 334]

  lemma FirstOfMonth(month: int)
    requires 1 <= month <= 12
    ensures Calendar.DaysFromCivil(1970, month, 1) == DAYS_BEFORE[month - 1]
  {
  }

  lemma MonthNamed(name: string, month: int)
    requires 1 <= month <= 12
    requires name == ["jan", "feb", "mar", "apr", "may", "jun", "jul", "aug", "sep", "oct", "nov", "dec"][month - 1]
    ensures MonthOf(name) == Some(month)
  {
  }

  /** The first of each month of 1970, whatever the case of the month's name. */
  lemma MonthsOf1970(name: string, month: int, lower: string -> string)
    requires '-' !in name && 1 <= month <= 12
    requires lower(name)
             == ["jan", "feb", "mar", "apr", "may", "jun", "jul", "aug", "sep", "oct", "nov", "dec"][month - 1]
    ensures ParseDate("1-" + name + "-1970", lower) == Some(DAYS_BEFORE[month - 1])
  {
    MonthNamed(lower(name), month);
    MonthRead(name, month, lower);
    FirstOfMonth(month);
  }
}
