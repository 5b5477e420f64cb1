/** The SEARCH tokenizer and its inverse. */
module SearchTokens {
  import opened Wrappers

  datatype Token =
    | LParen
    | RParen
    | Atom(text: string)
    | Quoted(text: string)

  predicate IsSpace(c: char) {
    c == ' ' || c == '\t' || c == '\r' || c == '\n'
  }

  /** What ends an atom; a line break does not, although it is skipped between tokens. */
  predicate EndsAtom(c: char) {
    c == ' ' || c == '\t' || c == '(' || c == ')' || c == '"'
  }

  // ----- tokens of a text -----

  datatype Scan = Scan(text: string, rest: string)

  /** The text of a quoted string after its opening quote. It may be unterminated, or end in a lone backslash. */
  function QuotedPart(s: string): (r: Scan)
    ensures |r.rest| <= |s|
  {
    if s == "" then Scan("", "")
    else if s[0] == '\\' then
      if |s| == 1 then Scan("", "")
      else var more := QuotedPart(s[2..]); Scan([s[1]] + more.text, more.rest)
    else if s[0] == '"' then Scan("", s[1..])
    else var more := QuotedPart(s[1..]); Scan([s[0]] + more.text, more.rest)
  }

  function AtomPart(s: string): (r: Scan)
    ensures |r.rest| <= |s| && (s != "" && !EndsAtom(s[0]) ==> |r.rest| < |s|)
  {
    if s == "" || EndsAtom(s[0]) then Scan("", s)
    else var more := AtomPart(s[1..]); Scan([s[0]] + more.text, more.rest)
  }

  datatype Lexed = Lexed(token: Option<Token>, rest: string)

  /** The token at the front, or none when the text starts with white space. */
  function Lex(s: string): (r: Lexed)
    requires s != ""
    ensures |r.rest| < |s|
  {
    if IsSpace(s[0]) then Lexed(None, s[1..])
    else if s[0] == '(' then Lexed(Some(LParen), s[1..])
    else if s[0] == ')' then Lexed(Some(RParen), s[1..])
    else if s[0] == '"' then var q := QuotedPart(s[1..]); Lexed(Some(Quoted(q.text)), q.rest)
    else var a := AtomPart(s); Lexed(Some(Atom(a.text)), a.rest)
  }

  function Listed(t: Option<Token>): seq<Token> {
    if t.Some? then [t.value] else []
  }

  function Tokens(s: string): seq<Token>
    decreases |s|
  {
    if s == "" then [] else Listed(Lex(s).token) + Tokens(Lex(s).rest)
  }

  /** The scan of a quoted string is the text read so far and a scan of what is ahead. */
  ghost predicate QuotedSoFar(whole: Scan, text: string, ahead: string) {
    whole == Scan(text + QuotedPart(ahead).text, QuotedPart(ahead).rest)
  }

  lemma QuotedSoFarStep(whole: Scan, text: string, ahead: string)
    requires QuotedSoFar(whole, text, ahead) && ahead != ""
    ensures ahead[0] == '\\' ==>
              if |ahead| == 1 then QuotedSoFar(whole, text, ahead[1..])
              else QuotedSoFar(whole, text + [ahead[1]], ahead[2..])
    ensures ahead[0] == '"' ==> whole == Scan(text, ahead[1..])
    ensures ahead[0] != '\\' && ahead[0] != '"' ==> QuotedSoFar(whole, text + [ahead[0]], ahead[1..])
  {
    if ahead[0] == '\\' && |ahead| > 1 {
      assert text + ([ahead[1]] + QuotedPart(ahead[2..]).text) == text + [ahead[1]] + QuotedPart(ahead[2..]).text;
    } else if ahead[0] != '"' && ahead[0] != '\\' {
      assert text + ([ahead[0]] + QuotedPart(ahead[1..]).text) == text + [ahead[0]] + QuotedPart(ahead[1..]).text;
    }
  }

  method ScanQuoted(input: string, start: nat) returns (s: string, i: nat)
    requires start <= |input|
    ensures start <= i <= |input|
    ensures QuotedPart(input[start..]) == Scan(s, input[i..])
  {
    ghost var whole := QuotedPart(input[start..]);
    i := start;
    s := "";
    while i < |input|
      invariant start <= i <= |input|
      invariant QuotedSoFar(whole, s, input[i..])
    {
      var c := input[i];
      QuotedSoFarStep(whole, s, input[i..]);
      assert input[i..][1..] == input[i + 1..];
      assert i + 1 < |input| ==> input[i..][2..] == input[i + 2..] && input[i..][1] == input[i + 1];
      i := i + 1;
      if c == '\\' {
        if i < |input| {
          s := s + [input[i]];
          i := i + 1;
        }
      } else if c == '"' {
        return;
      } else {
        s := s + [c];
      }
    }
    assert input[i..] == "";
  }

  method ScanAtom(input: string, start: nat) returns (s: string, i: nat)
    requires start <= |input|
    ensures start <= i <= |input|
    ensures AtomPart(input[start..]) == Scan(s, input[i..])
  {
    ghost var whole := AtomPart(input[start..]);
    i := start;
    s := "";
    while i < |input| && !EndsAtom(input[i])
      invariant start <= i <= |input|
      invariant AtomSoFar(whole, s, input[i..])
    {
      AtomSoFarStep(whole, s, input[i..]);
      assert input[i..][1..] == input[i + 1..];
      s := s + [input[i]];
      i := i + 1;
    }
    AtomSoFarEnd(whole, s, input[i..]);
  }

  /** The scan of an atom is the text read so far and a scan of what is ahead. */
  ghost predicate AtomSoFar(whole: Scan, text: string, ahead: string) {
    whole == Scan(text + AtomPart(ahead).text, AtomPart(ahead).rest)
  }

  lemma {:induction false} AtomSoFarStep(whole: Scan, text: string, ahead: string)
    requires AtomSoFar(whole, text, ahead) && ahead != "" && !EndsAtom(ahead[0])
    ensures AtomSoFar(whole, text + [ahead[0]], ahead[1..])
  {
    assert text + ([ahead[0]] + AtomPart(ahead[1..]).text) == text + [ahead[0]] + AtomPart(ahead[1..]).text;
  }

  lemma {:induction false} AtomSoFarEnd(whole: Scan, text: string, ahead: string)
    requires AtomSoFar(whole, text, ahead) && (ahead == "" || EndsAtom(ahead[0]))
    ensures whole == Scan(text, ahead)
  {
    assert text + "" == text;
  }

  method ScanToken(input: string, start: nat) returns (token: Option<Token>, i: nat)
    requires start < |input|
    ensures start < i <= |input|
    ensures Tokens(input[start..]) == Listed(token) + Tokens(input[i..])
  {
    token, i := ScanLex(input, start);
    assert |input[i..]| < |input[start..]|;
  }

  method ScanLex(input: string, start: nat) returns (token: Option<Token>, i: nat)
    requires start < |input|
    ensures start <= i <= |input|
    ensures Lex(input[start..]) == Lexed(token, input[i..])
  {
    var c := input[start];
    assert input[start..][1..] == input[start + 1..];
    if IsSpace(c) {
      token, i := None, start + 1;
    } else if c == '(' {
      token, i := Some(LParen), start + 1;
    } else if c == ')' {
      token, i := Some(RParen), start + 1;
    } else if c == '"' {
      var s;
      s, i := ScanQuoted(input, start + 1);
      token := Some(Quoted(s));
    } else {
      var s;
      s, i := ScanAtom(input, start);
      token := Some(Atom(s));
    }
  }

  method Tokenize(input: string) returns (tokens: seq<Token>)
    ensures tokens == Tokens(input)
  {
    tokens := [];
    var i := 0;
    assert input[0..] == input;
    while i < |input|
      invariant 0 <= i <= |input|
      invariant Tokens(input) == tokens + Tokens(input[i..])
    {
      var token;
      token, i := ScanToken(input, i);
      ListedNext(tokens, token, Tokens(input[i..]));
      if token.Some? {
        tokens := tokens + [token.value];
      }
    }
    assert input[i..] == "";
  }

  lemma ListedNext(tokens: seq<Token>, token: Option<Token>, rest: seq<Token>)
    ensures tokens + (Listed(token) + rest) == (if token.Some? then tokens + [token.value] else tokens) + rest
  {
  }

  // ----- writing tokens -----

  /** A text that stays one atom: not empty, no delimiter inside and no line break in front. */
  predicate IsAtomText(s: string) {
    s != "" && !IsSpace(s[0]) && forall i :: 0 <= i < |s| ==> !EndsAtom(s[i])
  }

  predicate Writable(t: Token) {
    t.Atom? ==> IsAtomText(t.text)
  }

  function Escaped(s: string): string {
    if s == "" then ""
    else (if s[0] == '"' || s[0] == '\\' then ['\\', s[0]] else [s[0]]) + Escaped(s[1..])
  }

  function Written(t: Token): string {
    match t
    case LParen => "("
    case RParen => ")"
    case Atom(s) => s
    case Quoted(s) => ['"'] + Escaped(s) + ['"']
  }

  /** Tokens as a client writes them: a space between two tokens, but none just inside a parenthesis. */
  function Render(ts: seq<Token>): string {
    if ts == [] then ""
    else if |ts| == 1 then Written(ts[0])
    else Written(ts[0]) + (if ts[0] == LParen || ts[1] == RParen then "" else " ") + Render(ts[1..])
  }

  lemma EscapedFront(s: string, tail: string)
    requires s != ""
    ensures var more := Escaped(s[1..]) + ['"'] + tail;
            Escaped(s) + ['"'] + tail ==
            if s[0] == '"' || s[0] == '\\' then ['\\', s[0]] + more else [s[0]] + more
  {
  }

  lemma QuotedPartFront(c: char, more: string)
    ensures QuotedPart(['\\', c] + more) == Scan([c] + QuotedPart(more).text, QuotedPart(more).rest)
    ensures c != '"' && c != '\\' ==>
              QuotedPart([c] + more) == Scan([c] + QuotedPart(more).text, QuotedPart(more).rest)
  {
    assert (['\\', c] + more)[2..] == more;
    assert ([c] + more)[1..] == more;
  }

  /** Escaping undone, whatever follows the closing quote. */
  lemma {:induction false} QuotedPartEscaped(s: string, tail: string)
    ensures QuotedPart(Escaped(s) + ['"'] + tail) == Scan(s, tail)
  {
    if s == "" {
      assert Escaped(s) + ['"'] + tail == ['"'] + tail;
      assert (['"'] + tail)[1..] == tail;
    } else {
      QuotedPartEscaped(s[1..], tail);
      EscapedFront(s, tail);
      QuotedPartFront(s[0], Escaped(s[1..]) + ['"'] + tail);
      assert [s[0]] + s[1..] == s;
    }
  }

  lemma {:induction false} AtomPartStops(s: string, tail: string)
    requires forall i :: 0 <= i < |s| ==> !EndsAtom(s[i])
    requires tail == "" || EndsAtom(tail[0])
    ensures AtomPart(s + tail) == Scan(s, tail)
  {
    if s == "" {
      assert s + tail == tail;
    } else {
      assert (s + tail)[1..] == s[1..] + tail;
      AtomPartStops(s[1..], tail);
    }
  }

  lemma LexAtom(s: string, tail: string)
    requires IsAtomText(s) && (tail == "" || EndsAtom(tail[0]))
    ensures Lex(s + tail) == Lexed(Some(Atom(s)), tail)
  {
    AtomPartStops(s, tail);
    assert (s + tail)[0] == s[0];
  }

  lemma LexQuoted(s: string, tail: string)
    ensures Lex(['"'] + Escaped(s) + ['"'] + tail) == Lexed(Some(Quoted(s)), tail)
  {
    var text := ['"'] + Escaped(s) + ['"'] + tail;
    assert text[1..] == Escaped(s) + ['"'] + tail;
    QuotedPartEscaped(s, tail);
  }

  lemma LexParen(c: char, tail: string)
    requires c == '(' || c == ')'
    ensures Lex([c] + tail) == Lexed(Some(if c == '(' then LParen else RParen), tail)
  {
    assert ([c] + tail)[1..] == tail;
  }

  /** One token in front of a text that cannot continue it. */
  lemma LexWritten(t: Token, tail: string)
    requires Writable(t)
    requires t.Atom? ==> tail == "" || EndsAtom(tail[0])
    ensures Written(t) != "" && Lex(Written(t) + tail) == Lexed(Some(t), tail)
  {
    match t
    case LParen => LexParen('(', tail);
    case RParen => LexParen(')', tail);
    case Atom(s) => LexAtom(s, tail);
    case Quoted(s) => LexQuoted(s, tail);
  }

  lemma FirstToken(t: Token, tail: string)
    requires Writable(t)
    requires t.Atom? ==> tail == "" || EndsAtom(tail[0])
    ensures Tokens(Written(t) + tail) == [t] + Tokens(tail)
  {
    LexWritten(t, tail);
  }

  lemma SpaceSkipped(s: string)
    ensures Tokens(" " + s) == Tokens(s)
  {
    assert (" " + s)[1..] == s;
  }

  lemma JoinGap(a: string, gap: string, b: string)
    ensures a + gap + b == a + (gap + b) && "" + b == b
  {
  }

  lemma {:induction false} RenderOne(t: Token, ts: seq<Token>)
    requires ts != []
    ensures Render([t] + ts) == Written(t) + if t == LParen || ts[0] == RParen then Render(ts) else " " + Render(ts)
  {
    assert ([t] + ts)[1..] == ts;
    JoinGap(Written(t), if t == LParen || ts[0] == RParen then "" else " ", Render(ts));
  }

  lemma {:induction false} RenderStart(ts: seq<Token>)
    requires ts != [] && ts[0] == RParen
    ensures Render(ts) != "" && Render(ts)[0] == ')'
  {
  }

  lemma {:induction false} RenderFront(t: Token, ts: seq<Token>)
    requires Writable(t) && ts != []
    ensures Tokens(Render([t] + ts)) == [t] + Tokens(Render(ts))
  {
    var rest := Render(ts);
    RenderOne(t, ts);
    if t == LParen || ts[0] == RParen {
      if ts[0] == RParen {
        RenderStart(ts);
      }
      FirstToken(t, rest);
    } else {
      FirstToken(t, " " + rest);
      SpaceSkipped(rest);
    }
  }

  /** The tokenizer inverts writing, for every list of tokens. */
  lemma {:induction false} TokensRender(ts: seq<Token>)
    requires forall t :: t in ts ==> Writable(t)
    ensures Tokens(Render(ts)) == ts
  {
    if |ts| == 1 {
      assert Written(ts[0]) + "" == Written(ts[0]);
      FirstToken(ts[0], "");
    } else if |ts| > 1 {
      assert ts[0] in ts;
      TokensRender(ts[1..]);
      assert ts == [ts[0]] + ts[1..];
      RenderFront(ts[0], ts[1..]);
    }
  }
}
