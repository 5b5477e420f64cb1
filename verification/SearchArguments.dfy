/** Arguments of SEARCH criteria: numbers, dates and sequence sets, read from text and written to it. */
module SearchArguments {
  import opened Wrappers
  import opened SearchKeys
  import Calendar

  // ----- splitting -----

  /** The parts between separators; always at least one. */
  function Split(s: string, sep: char): (r: seq<string>)
    ensures r != []
  {
    if s == "" then [""]
    else
      var more := Split(s[1..], sep);
      if s[0] == sep then [""] + more else [[s[0]] + more[0]] + more[1..]
  }

  function Join(parts: seq<string>, sep: char): string
    requires parts != []
  {
    if |parts| == 1 then parts[0] else parts[0] + [sep] + Join(parts[1..], sep)
  }

  lemma {:induction false} SplitOne(s: string, sep: char)
    requires sep !in s
    ensures Split(s, sep) == [s]
  {
    if s != "" {
      assert s[0] in s;
      SplitOne(s[1..], sep);
      assert [s[0]] + s[1..] == s;
    }
  }

  lemma {:induction false} SplitFirst(s: string, sep: char, tail: string)
    requires sep !in s
    ensures Split(s + [sep] + tail, sep) == [s] + Split(tail, sep)
  {
    var text := s + [sep] + tail;
    if s == "" {
      assert text[1..] == tail;
    } else {
      assert text[1..] == s[1..] + [sep] + tail;
      assert s[0] in s && text[0] == s[0];
      SplitFirst(s[1..], sep, tail);
      assert [s[0]] + s[1..] == s;
    }
  }

  lemma {:induction false} SplitJoin(parts: seq<string>, sep: char)
    requires parts != [] && forall p :: p in parts ==> sep !in p
    ensures Split(Join(parts, sep), sep) == parts
  {
    if |parts| == 1 {
      SplitOne(parts[0], sep);
    } else {
      SplitJoin(parts[1..], sep);
      SplitFirst(parts[0], sep, Join(parts[1..], sep));
    }
  }

  /** Up to the first separator, and what follows it. */
  function SplitOnce(s: string, sep: char): Option<(string, string)> {
    if s == "" then None
    else if s[0] == sep then Some(("", s[1..]))
    else
      match SplitOnce(s[1..], sep)
      case None => None
      case Some(p) => Some(([s[0]] + p.0, p.1))
  }

  lemma {:induction false} SplitOnceAt(a: string, sep: char, b: string)
    requires sep !in a
    ensures SplitOnce(a + [sep] + b, sep) == Some((a, b))
  {
    var text := a + [sep] + b;
    if a == "" {
      assert text[1..] == b;
    } else {
      assert text[1..] == a[1..] + [sep] + b;
      assert a[0] in a && text[0] == a[0];
      SplitOnceAt(a[1..], sep, b);
      assert [a[0]] + a[1..] == a;
    }
  }

  lemma {:induction false} NotSplit(s: string, sep: char)
    requires sep !in s
    ensures SplitOnce(s, sep) == None
  {
    if s != "" {
      assert s[0] in s;
      NotSplit(s[1..], sep);
    }
  }

  // ----- numbers -----

  predicate IsDigit(c: char) {
    '0' <= c <= '9'
  }

  predicate AllDigits(s: string) {
    forall i :: 0 <= i < |s| ==> IsDigit(s[i])
  }

  function Value(s: string): nat
    requires AllDigits(s)
  {
    if s == "" then 0 else 10 * Value(s[..|s| - 1]) + (s[|s| - 1] as int - '0' as int)
  }

  /** Decimal digits below `limit`, at least one of them. */
  function ParseDigits(s: string, limit: nat): Option<nat> {
    if s != "" && AllDigits(s) && Value(s) < limit then Some(Value(s)) else None
  }

  const TWO_32 := 0x1_0000_0000
  const TWO_63 := 0x8000_0000_0000_0000
  const TWO_64 := 0x1_0000_0000_0000_0000

  /** An unsigned number: a leading plus sign is allowed. */
  function ParseUnsigned(s: string, limit: nat): Option<nat> {
    if s != "" && s[0] == '+' then ParseDigits(s[1..], limit) else ParseDigits(s, limit)
  }

  /** A signed 64-bit number. */
  function ParseSigned(s: string): Option<int> {
    if s != "" && s[0] == '-' then
      var n := ParseDigits(s[1..], TWO_63 + 1);
      if n.Some? then Some(0 - n.value) else None
    else
      ParseUnsigned(s, TWO_63)
  }

  function DigitOf(n: nat): char
    requires n < 10
  {
    '0' + n as char
  }

  function Decimal(n: nat): (s: string)
    ensures s != "" && AllDigits(s)
  {
    if n < 10 then [DigitOf(n)] else Decimal(n / 10) + [DigitOf(n % 10)]
  }

  lemma {:induction false} ValueDecimal(n: nat)
    ensures Value(Decimal(n)) == n
  {
    var s := Decimal(n);
    if n < 10 {
      assert s[..0] == "";
    } else {
      ValueDecimal(n / 10);
      assert s[..|s| - 1] == Decimal(n / 10);
    }
  }

  lemma ParseDecimal(n: nat, limit: nat)
    requires n < limit
    ensures ParseUnsigned(Decimal(n), limit) == Some(n)
    ensures limit == TWO_63 ==> ParseSigned(Decimal(n)) == Some(n)
  {
    ValueDecimal(n);
    assert IsDigit(Decimal(n)[0]);
  }

  // ----- dates -----

  const MONTHS := ["jan", "feb", "mar", "apr", "may", "jun", "jul", "aug", "sep", "oct", "nov", "dec"]

  function MonthOf(name: string): Option<int> {
    if name == "jan" then Some(1)
    else if name == "feb" then Some(2)
    else if name == "mar" then Some(3)
    else if name == "apr" then Some(4)
    else if name == "may" then Some(5)
    else if name == "jun" then Some(6)
    else if name == "jul" then Some(7)
    else if name == "aug" then Some(8)
    else if name == "sep" then Some(9)
    else if name == "oct" then Some(10)
    else if name == "nov" then Some(11)
    else if name == "dec" then Some(12)
    else None
  }

  predicate IsLowerCase(s: string) {
    forall i :: 0 <= i < |s| ==> 'a' <= s[i] <= 'z'
  }

  lemma MonthNames(m: int)
    requires 1 <= m <= 12
    ensures MonthOf(MONTHS[m - 1]) == Some(m)
    ensures IsLowerCase(MONTHS[m - 1])
  {
  }

  /** `dd-Mon-yyyy` as a day number; `lower` folds case. The day and the year may have any number of digits. */
  function ParseDate(s: string, lower: string -> string): Option<int> {
    var parts := Split(s, '-');
    if |parts| != 3 then None
    else
      match (ParseSigned(parts[0]), MonthOf(lower(parts[1])), ParseSigned(parts[2]))
      case (Some(day), Some(month), Some(year)) => Some(Calendar.DaysFromCivil(year, month, day))
      case _ => None
  }

  function DateText(c: Calendar.Date): string
    requires Calendar.IsDate(c) && c.year >= 0
  {
    Join([Decimal(c.day), MONTHS[c.month - 1], Decimal(c.year)], '-')
  }

  lemma ParseDateText(c: Calendar.Date, lower: string -> string)
    requires Calendar.IsDate(c) && 0 <= c.year < TWO_63
    requires lower(MONTHS[c.month - 1]) == MONTHS[c.month - 1]
    ensures ParseDate(DateText(c), lower) == Some(Calendar.DayNumber(c))
  {
    MonthNames(c.month);
    var parts := [Decimal(c.day), MONTHS[c.month - 1], Decimal(c.year)];
    SplitJoin(parts, '-');
    ParseDecimal(c.day, TWO_63);
    ParseDecimal(c.year, TWO_63);
  }

  // ----- sequence sets -----

  predicate IsSetChar(c: char) {
    IsDigit(c) || c == ':' || c == ',' || c == '*'
  }

  predicate IsSeqSet(s: string) {
    s != "" && AllSetChars(s)
  }

  predicate AllSetChars(s: string) {
    forall i :: 0 <= i < |s| ==> IsSetChar(s[i])
  }

  function OrZero(n: Option<nat>): nat {
    if n.Some? then n.value else 0
  }

  /** One comma-separated part. An unreadable start is 0 and an unreadable end is open; other parts are dropped. */
  function ParseRange(part: string): seq<SeqRange> {
    match SplitOnce(part, ':')
    case Some(p) =>
      [SeqRange(if p.0 == "*" then 0 else OrZero(ParseUnsigned(p.0, TWO_32)),
                if p.1 == "*" then None else ParseUnsigned(p.1, TWO_32))]
    case None =>
      if part == "*" then [SeqRange(0, None)]
      else
        match ParseUnsigned(part, TWO_32)
        case Some(n) => [SeqRange(n, Some(n))]
        case None => []
  }

  function ParseRanges(parts: seq<string>): seq<SeqRange> {
    if parts == [] then [] else ParseRange(parts[0]) + ParseRanges(parts[1..])
  }

  function SetOf(s: string): SeqSet {
    SeqSet(ParseRanges(Split(s, ',')))
  }

  lemma {:induction false} ParseRangesSnoc(parts: seq<string>, p: string)
    ensures ParseRanges(parts + [p]) == ParseRanges(parts) + ParseRange(p)
  {
    if parts == [] {
      assert parts + [p] == [p];
    } else {
      assert (parts + [p])[1..] == parts[1..] + [p];
      ParseRangesSnoc(parts[1..], p);
    }
  }

  method ParseSeqSet(s: string) returns (r: SeqSet)
    ensures r == SetOf(s)
  {
    var ranges: seq<SeqRange> := [];
    var parts := Split(s, ',');
    for k := 0 to |parts|
      invariant ranges == ParseRanges(parts[..k])
    {
      var part := parts[k];
      assert parts[..k + 1] == parts[..k] + [part];
      ParseRangesSnoc(parts[..k], part);
      if part == "" {
        continue;
      }
      var split := SplitOnce(part, ':');
      if split.Some? {
        var start := if split.value.0 == "*" then 0 else OrZero(ParseUnsigned(split.value.0, TWO_32));
        var end := if split.value.1 == "*" then None else ParseUnsigned(split.value.1, TWO_32);
        ranges := ranges + [SeqRange(start, end)];
      } else if part == "*" {
        ranges := ranges + [SeqRange(0, None)];
      } else {
        var n := ParseUnsigned(part, TWO_32);
        if n.Some? {
          ranges := ranges + [SeqRange(n.value, Some(n.value))];
        }
      }
    }
    assert parts[..|parts|] == parts;
    r := SeqSet(ranges);
  }

  function RangeText(r: SeqRange): string {
    if r.end == Some(r.start) then Decimal(r.start)
    else if r == SeqRange(0, None) then "*"
    else Decimal(r.start) + ":" + (if r.end.Some? then Decimal(r.end.value) else "*")
  }

  predicate FitsRange(r: SeqRange) {
    r.start < TWO_32 && (r.end.Some? ==> r.end.value < TWO_32)
  }

  lemma ParseRangeText(r: SeqRange)
    requires FitsRange(r)
    ensures ParseRange(RangeText(r)) == [r]
  {
    var end := if r.end.Some? then Decimal(r.end.value) else "*";
    SplitOnceAt(Decimal(r.start), ':', end);
    NotSplit(Decimal(r.start), ':');
    NotSplit("*", ':');
    ParseDecimal(r.start, TWO_32);
    assert IsDigit(Decimal(r.start)[0]);
    if r.end.Some? {
      ParseDecimal(r.end.value, TWO_32);
      assert IsDigit(Decimal(r.end.value)[0]);
    }
  }

  predicate FitsSet(s: SeqSet) {
    s.ranges != [] && forall r :: r in s.ranges ==> FitsRange(r)
  }

  function RangeTexts(rs: seq<SeqRange>): (r: seq<string>)
    ensures |r| == |rs|
  {
    if rs == [] then [] else [RangeText(rs[0])] + RangeTexts(rs[1..])
  }

  function SetText(s: SeqSet): string
    requires s.ranges != []
  {
    Join(RangeTexts(s.ranges), ',')
  }

  lemma {:induction false} RangeTextsRead(rs: seq<SeqRange>)
    requires forall r :: r in rs ==> FitsRange(r)
    ensures ParseRanges(RangeTexts(rs)) == rs
    ensures forall t :: t in RangeTexts(rs) ==> IsSeqSet(t) && ',' !in t
  {
    if rs != [] {
      RangeTextsRead(rs[1..]);
      ParseRangeText(rs[0]);
    }
  }

  lemma {:induction false} JoinChars(parts: seq<string>)
    requires parts != []
    requires forall t :: t in parts ==> IsSeqSet(t)
    ensures IsSeqSet(Join(parts, ','))
  {
    if |parts| > 1 {
      assert parts[0] in parts && forall t :: t in parts[1..] ==> t in parts;
      JoinChars(parts[1..]);
    }
  }

  /** Every set that fits 32 bits is read back from its text. */
  lemma SetOfText(s: SeqSet)
    requires FitsSet(s)
    ensures IsSeqSet(SetText(s)) && SetOf(SetText(s)) == s
  {
    RangeTextsRead(s.ranges);
    SplitJoin(RangeTexts(s.ranges), ',');
    JoinChars(RangeTexts(s.ranges));
  }

  // ----- what a set text means -----

  /** One end of a part: a number of any size, a star, or nothing at all. */
  datatype Bound = Number(n: nat) | Star | Missing

  datatype Part = Single(bound: Bound) | Span(first: Bound, last: Bound)

  function BoundText(b: Bound): string {
    match b
    case Number(n) => Decimal(n)
    case Star => "*"
    case Missing => ""
  }

  function PartText(p: Part): string {
    match p
    case Single(b) => BoundText(b)
    case Span(a, b) => BoundText(a) + ":" + BoundText(b)
  }

  predicate Fits(b: Bound) {
    b.Number? && b.n < TWO_32
  }

  predicate Between(a: nat, value: nat, b: nat) {
    a <= value <= b || b <= value <= a
  }

  /** Which numbers a part names: a star alone is every number, a star or an unusable end leaves its side open. */
  predicate PartHas(p: Part, value: nat) {
    match p
    case Single(b) => b == Star || (Fits(b) && value == b.n)
    case Span(a, b) =>
      var low := if Fits(a) then a.n else 0;
      if Fits(b) then Between(low, value, b.n) else low <= value
  }

  lemma BoundRead(b: Bound)
    ensures ':' !in BoundText(b) && ',' !in BoundText(b)
    ensures ParseUnsigned(BoundText(b), TWO_32) == if Fits(b) then Some(b.n) else None
    ensures BoundText(b) == "*" <==> b == Star
  {
    if b.Number? {
      ValueDecimal(b.n);
      assert IsDigit(Decimal(b.n)[0]);
    }
  }

  /** The range that stands for a part, if there is one. */
  lemma PartRead(p: Part, value: nat)
    ensures (exists k :: 0 <= k < |ParseRange(PartText(p))| && Spans(ParseRange(PartText(p))[k], value)) <==> PartHas(p, value)
    ensures ',' !in PartText(p)
  {
    match p
    case Single(b) =>
      BoundRead(b);
      NotSplit(BoundText(b), ':');
      OneRange(ParseRange(PartText(p)), value);
    case Span(a, b) =>
      BoundRead(a);
      BoundRead(b);
      SplitOnceAt(BoundText(a), ':', BoundText(b));
      assert PartText(p) == BoundText(a) + [':'] + BoundText(b);
      OneRange(ParseRange(PartText(p)), value);
  }

  lemma OneRange(rs: seq<SeqRange>, value: nat)
    requires |rs| <= 1
    ensures (exists k :: 0 <= k < |rs| && Spans(rs[k], value)) <==> |rs| == 1 && Spans(rs[0], value)
  {
  }

  function PartTexts(parts: seq<Part>): (r: seq<string>)
    ensures |r| == |parts|
  {
    if parts == [] then [] else [PartText(parts[0])] + PartTexts(parts[1..])
  }

  predicate AnyHas(parts: seq<Part>, value: nat) {
    exists k :: 0 <= k < |parts| && PartHas(parts[k], value)
  }

  lemma {:induction false} PartsRead(parts: seq<Part>, value: nat)
    ensures Selects(SeqSet(ParseRanges(PartTexts(parts))), value) <==> AnyHas(parts, value)
    ensures forall t :: t in PartTexts(parts) ==> ',' !in t
  {
    if parts != [] {
      PartRead(parts[0], value);
      PartsRead(parts[1..], value);
      FirstRanges(ParseRange(PartText(parts[0])), ParseRanges(PartTexts(parts[1..])), value);
      FirstPart(parts, value);
    }
  }

  lemma FirstRanges(a: seq<SeqRange>, b: seq<SeqRange>, value: nat)
    ensures Selects(SeqSet(a + b), value)
            <==> (exists k :: 0 <= k < |a| && Spans(a[k], value)) || Selects(SeqSet(b), value)
  {
    if k :| 0 <= k < |a| && Spans(a[k], value) {
      assert (a + b)[k] == a[k];
    }
    if k :| 0 <= k < |b| && Spans(b[k], value) {
      assert (a + b)[|a| + k] == b[k];
    }
    if k :| 0 <= k < |a + b| && Spans((a + b)[k], value) {
      assert (a + b)[k] == if k < |a| then a[k] else b[k - |a|];
    }
  }

  lemma FirstPart(parts: seq<Part>, value: nat)
    requires parts != []
    ensures AnyHas(parts, value) <==> PartHas(parts[0], value) || AnyHas(parts[1..], value)
  {
    if k :| 0 <= k < |parts[1..]| && PartHas(parts[1..][k], value) {
      assert parts[k + 1] == parts[1..][k];
    }
    if k :| 0 <= k < |parts| && PartHas(parts[k], value) {
      assert k > 0 ==> parts[1..][k - 1] == parts[k];
    }
  }

  /** A text of parts joined by commas, in any mix, selects the numbers that one of its parts names. */
  lemma SetReadsParts(parts: seq<Part>, value: nat)
    requires parts != []
    ensures Selects(SetOf(Join(PartTexts(parts), ',')), value) <==> AnyHas(parts, value)
  {
    PartsRead(parts, value);
    SplitJoin(PartTexts(parts), ',');
  }

  // ----- the star -----

  /** A part as section 9 of RFC 3501 has it: positive 32-bit numbers and stars. */
  predicate IsRfcPart(p: Part) {
    match p
    case Single(b) => IsRfcBound(b)
    case Span(a, b) => IsRfcBound(a) && IsRfcBound(b)
  }

  predicate IsRfcBound(b: Bound) {
    b == Star || (Fits(b) && b.n > 0)
  }

  /** A star stands for the largest number in use. */
  function RfcValue(b: Bound, max: nat): nat {
    if b.Number? then b.n else max
  }

  predicate RfcHas(p: Part, max: nat, value: nat) {
    match p
    case Single(b) => value == RfcValue(b, max)
    case Span(a, b) => Between(RfcValue(a, max), value, RfcValue(b, max))
  }

  predicate IsLargest(max: nat, used: set<nat>) {
    max in used && forall v :: v in used ==> v <= max
  }

  /** The part selects, among the numbers in use, what the standard says. */
  predicate ReadsLikeRfc(p: Part, used: set<nat>, max: nat) {
    forall v :: v in used ==> (PartHas(p, v) <==> RfcHas(p, max, v))
  }

  /**
   * A star at the end of a range is read as the standard says exactly when the range starts at or below the largest
   * number in use; a star alone or in front exactly when one number is in use and the range does not end below it.
   * Parts without a star are always read so.
   */
  lemma StarReadIff(p: Part, used: set<nat>, max: nat)
    requires IsRfcPart(p) && IsLargest(max, used)
    ensures ReadsLikeRfc(p, used, max) <==>
            match p
            case Single(b) => b == Star ==> used == {max}
            case Span(a, b) =>
              && (a == Star ==> used == {max} && (b.Number? ==> max <= b.n))
              && (a.Number? && b == Star ==> a.n <= max)
  {
    OthersBesides(max, used);
    if ReadsLikeRfc(p, used, max) {
      assert PartHas(p, max) <==> RfcHas(p, max, max);
    }
  }

  lemma OthersBesides(max: nat, used: set<nat>)
    requires max in used
    ensures used == {max} <==> forall v :: v in used ==> v == max
  {
  }

  /** With numbers up to 8 in use, `*` should select 8 alone, and `9:*` should select 8. */
  lemma StarMisread()
    ensures Selects(SetOf("*"), 1) && !RfcHas(Single(Star), 8, 1)
    ensures !Selects(SetOf("9:*"), 8) && RfcHas(Span(Number(9), Star), 8, 8)
  {
    assert PartHas(Single(Star), 1);
    SetReadsParts([Single(Star)], 1);
    assert PartTexts([Single(Star)]) == ["*"];
    assert AnyHas([Single(Star)], 1) by {
      assert PartHas([Single(Star)][0], 1);
    }
    SetReadsParts([Span(Number(9), Star)], 8);
    assert Decimal(9) == "9";
    assert PartText(Span(Number(9), Star)) == "9" + ":" + "*" == "9:*";
    assert PartTexts([Span(Number(9), Star)]) == ["9:*"];
    assert !PartHas(Span(Number(9), Star), 8);
  }
}
