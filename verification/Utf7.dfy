/** The UTF-7 variant in which section 5.1.3 of RFC 3501 writes folder names. */
module Utf7 {
  import opened Wrappers
  import opened Base64

  type Unit = x: int | 0 <= x < 0x1_0000

  /** Printable ASCII except `&`. */
  predicate IsDirect(c: char) {
    ' ' <= c <= '~' && c != '&'
  }

  // ----- UTF-16 -----

  function Units(c: char): (r: seq<Unit>)
    ensures r != []
  {
    var n := c as int;
    if n < 0x1_0000 then [n]
    else [0xD800 + (n - 0x1_0000) / 0x400, 0xDC00 + (n - 0x1_0000) % 0x400]
  }

  function Utf16(s: string): seq<Unit> {
    if s == [] then [] else Units(s[0]) + Utf16(s[1..])
  }

  /** `String::from_utf16`: a surrogate must be half of a pair. */
  function FromUtf16(units: seq<Unit>): (r: Option<string>) {
    if units == [] then Some([])
    else
      var u := units[0];
      if u < 0xD800 || 0xE000 <= u then Prepend([u as char], FromUtf16(units[1..]))
      else if u < 0xDC00 && |units| > 1 && 0xDC00 <= units[1] < 0xE000 then
        Prepend([Combine(u, units[1])], FromUtf16(units[2..]))
      else None
  }

  function Combine(high: Unit, low: Unit): char
    requires 0xD800 <= high < 0xDC00 <= low < 0xE000
  {
    (0x1_0000 + (high as int - 0xD800) * 0x400 + (low - 0xDC00)) as char
  }

  function Prepend(s: string, r: Option<string>): Option<string> {
    if r.Some? then Some(s + r.value) else None
  }

  lemma UnitsInverse(c: char, rest: seq<Unit>)
    ensures FromUtf16(Units(c) + rest) == Prepend([c], FromUtf16(rest))
  {
    var n := c as int;
    if n < 0x1_0000 {
      assert (Units(c) + rest)[1..] == rest;
    } else {
      var all := Units(c) + rest;
      assert all[2..] == rest && all[0] == Units(c)[0] && all[1] == Units(c)[1];
      assert Combine(all[0], all[1]) as int == n;
    }
  }

  lemma {:induction false} Utf16Inverse(s: string)
    ensures FromUtf16(Utf16(s)) == Some(s)
  {
    if s != [] {
      Utf16Inverse(s[1..]);
      UnitsInverse(s[0], Utf16(s[1..]));
      assert s == [s[0]] + s[1..];
    }
  }

  lemma {:induction false} Utf16Append(s: string, c: char)
    ensures Utf16(s + [c]) == Utf16(s) + Units(c)
  {
    if s == [] {
      assert [c] == s + [c] && [c][1..] == [];
      assert Utf16([c]) == Units(c) + Utf16([]);
    } else {
      Utf16Append(s[1..], c);
      assert (s + [c])[1..] == s[1..] + [c] && (s + [c])[0] == s[0];
    }
  }

  // ----- bytes -----

  function ToBytes(units: seq<Unit>): (r: seq<Byte>)
    ensures |r| == 2 * |units|
  {
    if units == [] then [] else [units[0] / 256, units[0] % 256] + ToBytes(units[1..])
  }

  function FromBytes(bytes: seq<Byte>): (r: seq<Unit>)
    requires |bytes| % 2 == 0
  {
    if bytes == [] then [] else [bytes[0] as int * 256 + bytes[1]] + FromBytes(bytes[2..])
  }

  lemma {:induction false} BytesInverse(units: seq<Unit>)
    ensures FromBytes(ToBytes(units)) == units
  {
    if units != [] {
      BytesInverse(units[1..]);
      assert ToBytes(units)[2..] == ToBytes(units[1..]);
      assert units == [units[0]] + units[1..];
    }
  }

  // ----- encoding -----

  function Shift(units: seq<Unit>): string {
    "&" + Base64.Encode(MODIFIED, ToBytes(units)) + "-"
  }

  function Flush(units: seq<Unit>): string {
    if units == [] then "" else Shift(units)
  }

  /** The text for `s` when the units `shifted` are still waiting to be flushed. */
  function EncodeFrom(s: string, shifted: seq<Unit>): string {
    if s == [] then Flush(shifted)
    else if s[0] == '&' then Flush(shifted) + "&-" + EncodeFrom(s[1..], [])
    else if IsDirect(s[0]) then Flush(shifted) + [s[0]] + EncodeFrom(s[1..], [])
    else EncodeFrom(s[1..], shifted + Units(s[0]))
  }

  lemma EncodeStep(s: string, shifted: seq<Unit>, out: string)
    requires s != [] && (s[0] == '&' || IsDirect(s[0]))
    ensures out + EncodeFrom(s, shifted)
            == out + Flush(shifted) + (if s[0] == '&' then "&-" else [s[0]]) + EncodeFrom(s[1..], [])
  {
    var flushed, head, tail := Flush(shifted), if s[0] == '&' then "&-" else [s[0]], EncodeFrom(s[1..], []);
    assert out + (flushed + head + tail) == out + flushed + head + tail;
  }

  method Encode(input: string) returns (out: string)
    ensures out == EncodeFrom(input, [])
  {
    out := "";
    var shifted: seq<Unit> := [];
    assert input[0..] == input;
    for i := 0 to |input|
      invariant out + EncodeFrom(input[i..], shifted) == EncodeFrom(input, [])
    {
      var c := input[i];
      assert input[i..][0] == c && input[i..][1..] == input[i + 1..];
      if c == '&' {
        EncodeStep(input[i..], shifted, out);
        out := out + Flush(shifted) + "&-";
        shifted := [];
      } else if IsDirect(c) {
        EncodeStep(input[i..], shifted, out);
        out := out + Flush(shifted) + [c];
        shifted := [];
      } else {
        shifted := shifted + Units(c);
      }
    }
    out := out + Flush(shifted);
  }

  // ----- decoding -----

  function Position(t: string, c: char): (r: Option<nat>)
    ensures r.Some? ==> r.value < |t| && t[r.value] == c && c !in t[..r.value]
    ensures r.None? ==> c !in t
  {
    if t == [] then None
    else if t[0] == c then Some(0)
    else
      match Position(t[1..], c)
      case None => None
      case Some(k) => assert t[..k + 1] == [t[0]] + t[1..][..k]; Some(k + 1)
  }

  /** The characters between `&` and `-`. */
  function DecodeChunk(chunk: string): (r: Option<string>) {
    if chunk == [] then Some("&")
    else
      match Base64.Decode(MODIFIED, chunk)
      case None => None
      case Some(bytes) => if |bytes| % 2 != 0 then None else FromUtf16(FromBytes(bytes))
  }

  function DecodeText(t: string): (r: Option<string>)
    decreases |t|
  {
    if t == [] then Some([])
    else if t[0] == '&' then
      match Position(t[1..], '-')
      case None => None
      case Some(k) =>
        match DecodeChunk(t[1..][..k])
        case None => None
        case Some(x) => Prepend(x, DecodeText(t[k + 2..]))
    else Prepend([t[0]], DecodeText(t[1..]))
  }

  /** A byte string read one character per byte, as the decoder does. */
  function Latin(bytes: seq<Byte>): string {
    seq(|bytes|, i requires 0 <= i < |bytes| => bytes[i] as char)
  }

  /** `decode`: an index walks the bytes of the wire text. */
  method Decode(bytes: seq<Byte>) returns (r: Option<string>)
    ensures r == DecodeText(Latin(bytes))
  {
    var input := Latin(bytes);
    var out, i := "", 0;
    assert input[0..] == input;
    assert forall x: string :: "" + x == x;
    while i < |input|
      invariant i <= |input|
      invariant Prepend(out, DecodeText(input[i..])) == DecodeText(input)
    {
      var rest := input[i..];
      if input[i] == '&' {
        var end := Position(rest[1..], '-');
        if end.None? {
          return None;
        }
        var chunk := DecodeChunk(rest[1..][..end.value]);
        if chunk.None? {
          return None;
        }
        assert input[i + end.value + 2..] == rest[end.value + 2..];
        AppendPrepend(out, chunk.value, DecodeText(rest[end.value + 2..]));
        out := out + chunk.value;
        i := i + end.value + 2;
      } else {
        assert input[i + 1..] == rest[1..];
        AppendPrepend(out, [input[i]], DecodeText(rest[1..]));
        out := out + [input[i]];
        i := i + 1;
      }
    }
    assert input[i..] == [] && out + [] == out;
    return Some(out);
  }

  lemma AppendPrepend(a: string, b: string, r: Option<string>)
    ensures Prepend(a, Prepend(b, r)) == Prepend(a + b, r)
  {
    if r.Some? {
      assert a + (b + r.value) == a + b + r.value;
    }
  }

  // ----- round trip -----

  lemma NoDash(units: seq<Unit>)
    ensures '-' !in Base64.Encode(MODIFIED, ToBytes(units))
  {
    forall i: Sextet ensures MODIFIED.symbol(i) != '-' {
    }
  }

  lemma {:induction false} PositionAfter(a: string, rest: string)
    requires '-' !in a
    ensures Position(a + "-" + rest, '-') == Some(|a|)
  {
    var t := a + "-" + rest;
    if a != [] {
      assert t[1..] == a[1..] + "-" + rest;
      assert a[0] in a && '-' !in a[1..];
      PositionAfter(a[1..], rest);
    }
  }

  lemma ModifiedInverse(bytes: seq<Byte>)
    ensures Base64.Decode(MODIFIED, Base64.Encode(MODIFIED, bytes)) == Some(bytes)
  {
    AlphabetsValid();
    DecodeEncode(MODIFIED, bytes);
  }

  lemma ChunkInverse(run: string)
    requires run != []
    ensures Utf16(run) != []
    ensures DecodeChunk(Base64.Encode(MODIFIED, ToBytes(Utf16(run)))) == Some(run)
  {
    var units := Utf16(run);
    ChunkOf(ToBytes(units));
    BytesInverse(units);
    Utf16Inverse(run);
  }

  lemma ChunkOf(bytes: seq<Byte>)
    requires bytes != [] && |bytes| % 2 == 0
    ensures DecodeChunk(Base64.Encode(MODIFIED, bytes)) == FromUtf16(FromBytes(bytes))
  {
    ModifiedInverse(bytes);
    assert |Base64.Encode(MODIFIED, bytes)| == (4 * |bytes| + 2) / 3;
  }

  /** Decoding a shifted run whose base64 text is known. */
  lemma {:induction false} ShiftedFront(text: string, x: string, rest: string)
    requires '-' !in text && DecodeChunk(text) == Some(x)
    ensures DecodeText("&" + text + "-" + rest) == Prepend(x, DecodeText(rest))
  {
    var t := "&" + text + "-" + rest;
    assert t[1..] == text + "-" + rest;
    PositionAfter(text, rest);
    assert t[1..][..|text|] == text && t[|text| + 2..] == rest;
  }

  /** A flushed run decodes to the run, whatever follows. */
  lemma {:induction false} FlushInverse(run: string, rest: string)
    ensures DecodeText(Flush(Utf16(run)) + rest) == Prepend(run, DecodeText(rest))
  {
    if run == [] {
      assert Flush(Utf16(run)) + rest == rest;
      assert DecodeText(rest).Some? ==> [] + DecodeText(rest).value == DecodeText(rest).value;
    } else {
      ChunkInverse(run);
      var text := Base64.Encode(MODIFIED, ToBytes(Utf16(run)));
      NoDash(Utf16(run));
      ShiftedFront(text, run, rest);
      assert Flush(Utf16(run)) + rest == "&" + text + "-" + rest;
    }
  }

  lemma AmpersandInverse(rest: string)
    ensures DecodeText("&-" + rest) == Prepend("&", DecodeText(rest))
  {
    var t := "&-" + rest;
    assert t[1..] == "" + "-" + rest;
    PositionAfter("", rest);
    assert t[1..][..0] == [] && t[2..] == rest;
  }

  /** One character that is not shifted, then text that decodes to `rest`. */
  lemma {:induction false} DirectFront(c: char, tail: string, rest: string)
    requires c == '&' || IsDirect(c)
    requires DecodeText(tail) == Some(rest)
    ensures DecodeText((if c == '&' then "&-" else [c]) + tail) == Some([c] + rest)
  {
    if c == '&' {
      AmpersandInverse(tail);
    } else {
      assert ([c] + tail)[1..] == tail;
    }
  }

  lemma {:induction false} Regroup(a: string, b: string, c: string)
    ensures a + b + c == a + (b + c)
  {
  }

  lemma {:induction false} FlushThen(run: string, head: string, tail: string, x: string)
    requires DecodeText(head + tail) == Some(x)
    ensures DecodeText(Flush(Utf16(run)) + head + tail) == Some(run + x)
  {
    FlushInverse(run, head + tail);
    Regroup(Flush(Utf16(run)), head, tail);
  }

  /** A pending run, then one character that is not shifted, then text that decodes to `rest`. */
  lemma {:induction false} DirectInverse(c: char, run: string, tail: string, rest: string)
    requires c == '&' || IsDirect(c)
    requires DecodeText(tail) == Some(rest)
    ensures DecodeText(Flush(Utf16(run)) + (if c == '&' then "&-" else [c]) + tail) == Some(run + ([c] + rest))
  {
    DirectFront(c, tail, rest);
    FlushThen(run, if c == '&' then "&-" else [c], tail, [c] + rest);
  }

  /** With `run` pending in shifted form, decoding gives `run` followed by `s`. */
  lemma {:induction false} EncodeFromInverse(s: string, run: string)
    ensures DecodeText(EncodeFrom(s, Utf16(run))) == Some(run + s)
    decreases |s|
  {
    if s == [] {
      FlushInverse(run, []);
      assert Flush(Utf16(run)) + [] == Flush(Utf16(run));
    } else {
      var rest := s[1..];
      assert s == [s[0]] + rest;
      if s[0] == '&' || IsDirect(s[0]) {
        EncodeFromInverse(rest, []);
        assert [] + rest == rest;
        DirectInverse(s[0], run, EncodeFrom(rest, []), rest);
      } else {
        Utf16Append(run, s[0]);
        EncodeFromInverse(rest, run + [s[0]]);
        assert run + [s[0]] + rest == run + s;
      }
    }
  }

  predicate Printable(t: string) {
    forall i :: 0 <= i < |t| ==> ' ' <= t[i] <= '~'
  }

  lemma SymbolPrintable(i: Sextet)
    ensures ' ' <= MODIFIED.symbol(i) <= '~'
  {
  }

  lemma {:induction false} FlushPrintable(units: seq<Unit>)
    ensures Printable(Flush(units))
  {
    forall i: Sextet ensures ' ' <= MODIFIED.symbol(i) <= '~' {
      SymbolPrintable(i);
    }
  }

  lemma {:induction false} EncodeFromPrintable(s: string, shifted: seq<Unit>)
    ensures Printable(EncodeFrom(s, shifted))
    decreases |s|
  {
    FlushPrintable(shifted);
    if s != [] {
      if s[0] == '&' || IsDirect(s[0]) {
        EncodeFromPrintable(s[1..], []);
      } else {
        EncodeFromPrintable(s[1..], shifted + Units(s[0]));
      }
    }
  }

  /** The bytes of an ASCII text. */
  function AsciiBytes(t: string): seq<Byte>
    requires Printable(t)
  {
    seq(|t|, i requires 0 <= i < |t| => t[i] as int)
  }

  /** For every string of Unicode scalar values, the wire text is printable ASCII and decodes to the string. */
  lemma RoundTrip(s: string)
    ensures Printable(EncodeFrom(s, []))
    ensures DecodeText(Latin(AsciiBytes(EncodeFrom(s, [])))) == Some(s)
  {
    EncodeFromPrintable(s, []);
    EncodeFromInverse(s, []);
    assert [] + s == s;
    assert Latin(AsciiBytes(EncodeFrom(s, []))) == EncodeFrom(s, []);
  }

  /** Different names never share a wire text. */
  lemma EncodeInjective(s: string, t: string)
    requires EncodeFrom(s, []) == EncodeFrom(t, [])
    ensures s == t
  {
    RoundTrip(s);
    RoundTrip(t);
  }

  // ----- which accepted texts are encodings -----

  /** Every character has to be shifted. */
  predicate MustShift(x: string) {
    forall i :: 0 <= i < |x| ==> x[i] != '&' && !IsDirect(x[i])
  }

  /** A chunk that holds only characters that have to be shifted. */
  predicate OnlyShifted(chunk: string) {
    DecodeChunk(chunk).Some? && MustShift(DecodeChunk(chunk).value)
  }

  /**
   * Direct characters are printable, chunks hold only what has to be shifted, and no two chunks meet. `shifted`: the
   * text follows a chunk.
   */
  predicate Canonical(t: string, shifted: bool)
    decreases |t|
  {
    if t == [] then true
    else if t[0] == '&' then
      match Position(t[1..], '-')
      case None => false
      case Some(k) =>
        if k == 0 then Canonical(t[2..], false)
        else !shifted && OnlyShifted(t[1..][..k]) && Canonical(t[k + 2..], true)
    else IsDirect(t[0]) && Canonical(t[1..], false)
  }

  lemma {:induction false} FromUtf16Inverse(units: seq<Unit>)
    requires FromUtf16(units).Some?
    ensures Utf16(FromUtf16(units).value) == units
  {
    if units != [] {
      var s, n := FromUtf16(units).value, if units[0] < 0xD800 || 0xE000 <= units[0] then 1 else 2;
      FromUtf16Inverse(units[n..]);
      assert s == [s[0]] + FromUtf16(units[n..]).value;
      assert s[1..] == FromUtf16(units[n..]).value;
      assert Units(s[0]) == units[..n];
    }
  }

  lemma {:induction false} FromBytesInverse(bytes: seq<Byte>)
    requires |bytes| % 2 == 0
    ensures ToBytes(FromBytes(bytes)) == bytes
  {
    if bytes != [] {
      FromBytesInverse(bytes[2..]);
      assert FromBytes(bytes)[1..] == FromBytes(bytes[2..]);
      assert bytes == [bytes[0], bytes[1]] + bytes[2..];
    }
  }

  /** A chunk is the one shifted form of what it decodes to. */
  lemma {:induction false} ChunkUnique(chunk: string)
    requires chunk != [] && DecodeChunk(chunk).Some?
    ensures Utf16(DecodeChunk(chunk).value) != []
    ensures Shift(Utf16(DecodeChunk(chunk).value)) == "&" + chunk + "-"
  {
    var bytes := Base64.Decode(MODIFIED, chunk).value;
    FromUtf16Inverse(FromBytes(bytes));
    FromBytesInverse(bytes);
    AlphabetsValid();
    EncodeDecode(MODIFIED, chunk);
  }

  lemma {:induction false} ShiftRun(x: string, rest: string, units: seq<Unit>)
    requires MustShift(x)
    ensures EncodeFrom(x + rest, units) == EncodeFrom(rest, units + Utf16(x))
    decreases |x|
  {
    if x == [] {
      assert x + rest == rest && units + Utf16(x) == units;
    } else {
      assert (x + rest)[0] == x[0] && (x + rest)[1..] == x[1..] + rest;
      ShiftRun(x[1..], rest, units + Units(x[0]));
      assert units + Units(x[0]) + Utf16(x[1..]) == units + Utf16(x);
    }
  }

  lemma {:induction false} SplitChunk(t: string, k: nat)
    requires t != [] && t[0] == '&' && k + 1 < |t| && t[k + 1] == '-'
    ensures t == "&" + t[1..][..k] + "-" + t[k + 2..]
  {
  }

  lemma {:induction false} ChunkEncodes(t: string, k: nat, rest: string)
    requires t != [] && t[0] == '&' && Position(t[1..], '-') == Some(k) && 0 < k && OnlyShifted(t[1..][..k])
    ensures var x := DecodeChunk(t[1..][..k]).value;
            && Utf16(x) != []
            && EncodeFrom(x + rest, []) == EncodeFrom(rest, Utf16(x))
            && Flush(Utf16(x)) + t[k + 2..] == t
  {
    var x := DecodeChunk(t[1..][..k]).value;
    ChunkUnique(t[1..][..k]);
    ShiftRun(x, rest, []);
    assert [] + Utf16(x) == Utf16(x);
    SplitChunk(t, k);
  }

  lemma {:induction false} DirectHead(c: char, rest: string, units: seq<Unit>)
    requires c == '&' || IsDirect(c)
    ensures EncodeFrom([c] + rest, units)
            == Flush(units) + (if c == '&' then "&-" else [c]) + EncodeFrom(rest, [])
  {
    assert ([c] + rest)[1..] == rest;
  }

  lemma {:induction false} DirectEncodes(t: string, n: nat, c: char, rest: string, units: seq<Unit>)
    requires n <= |t| && (c == '&' || IsDirect(c)) && t[..n] == if c == '&' then "&-" else [c]
    requires EncodeFrom(rest, []) == t[n..]
    ensures EncodeFrom([c] + rest, units) == Flush(units) + t
  {
    DirectHead(c, rest, units);
    Regroup(Flush(units), t[..n], t[n..]);
    assert t == t[..n] + t[n..];
  }

  /** A text that begins with a chunk, when what follows is given back. */
  lemma {:induction false} ChunkThenEncodes(t: string, k: nat)
    requires t != [] && t[0] == '&' && Position(t[1..], '-') == Some(k) && 0 < k && OnlyShifted(t[1..][..k])
    requires DecodeText(t).Some?
    requires var u := Utf16(DecodeChunk(t[1..][..k]).value);
             EncodeFrom(DecodeText(t[k + 2..]).value, u) == Flush(u) + t[k + 2..]
    ensures EncodeFrom(DecodeText(t).value, []) == t
  {
    ChunkEncodes(t, k, DecodeText(t[k + 2..]).value);
  }

  /** A text that begins with an escaped ampersand, when what follows is given back. */
  lemma {:induction false} AmpersandThenEncodes(t: string, units: seq<Unit>)
    requires t != [] && t[0] == '&' && Position(t[1..], '-') == Some(0) && DecodeText(t).Some?
    requires EncodeFrom(DecodeText(t[2..]).value, []) == t[2..]
    ensures EncodeFrom(DecodeText(t).value, units) == Flush(units) + t
  {
    assert t[1..][..0] == [] && t[..2] == "&-";
    DirectEncodes(t, 2, '&', DecodeText(t[2..]).value, units);
  }

  lemma {:induction false} DirectThenEncodes(t: string, units: seq<Unit>)
    requires t != [] && IsDirect(t[0]) && DecodeText(t).Some?
    requires EncodeFrom(DecodeText(t[1..]).value, []) == t[1..]
    ensures EncodeFrom(DecodeText(t).value, units) == Flush(units) + t
  {
    DirectEncodes(t, 1, t[0], DecodeText(t[1..]).value, units);
  }

  lemma NothingPending(t: string)
    ensures Flush([]) + t == t
  {
  }

  /** Encoding gives a canonical text back, with what was pending in front of it. */
  lemma {:induction false} CanonicalEncodes(t: string, units: seq<Unit>)
    requires Canonical(t, units != []) && DecodeText(t).Some?
    ensures EncodeFrom(DecodeText(t).value, units) == Flush(units) + t
    decreases |t|
  {
    if t == [] {
      assert Flush(units) + t == Flush(units);
    } else if t[0] == '&' {
      var k := Position(t[1..], '-').value;
      if k == 0 {
        CanonicalEncodes(t[2..], []);
        NothingPending(t[2..]);
        AmpersandThenEncodes(t, units);
      } else {
        ChunkUnique(t[1..][..k]);
        CanonicalEncodes(t[k + 2..], Utf16(DecodeChunk(t[1..][..k]).value));
        ChunkThenEncodes(t, k);
        NothingPending(t);
      }
    } else {
      CanonicalEncodes(t[1..], []);
      NothingPending(t[1..]);
      DirectThenEncodes(t, units);
    }
  }

  lemma {:induction false} ChunkFront(text: string, rest: string)
    requires '-' !in text && text != [] && OnlyShifted(text) && Canonical(rest, true)
    ensures Canonical("&" + text + "-" + rest, false)
  {
    var t := "&" + text + "-" + rest;
    assert t[1..] == text + "-" + rest;
    PositionAfter(text, rest);
    assert t[1..][..|text|] == text && t[|text| + 2..] == rest;
  }

  lemma {:induction false} FlushCanonical(run: string, rest: string)
    requires MustShift(run) && Canonical(rest, run != [])
    ensures Canonical(Flush(Utf16(run)) + rest, false)
  {
    if run == [] {
      assert Flush(Utf16(run)) + rest == rest;
    } else {
      ChunkInverse(run);
      var text := Base64.Encode(MODIFIED, ToBytes(Utf16(run)));
      NoDash(Utf16(run));
      ChunkFront(text, rest);
      assert Flush(Utf16(run)) + rest == "&" + text + "-" + rest;
    }
  }

  lemma {:induction false} HeadCanonical(c: char, tail: string, shifted: bool)
    requires (c == '&' || IsDirect(c)) && Canonical(tail, false)
    ensures Canonical((if c == '&' then "&-" else [c]) + tail, shifted)
  {
    var t := (if c == '&' then "&-" else [c]) + tail;
    if c == '&' {
      assert t[1..] == "" + "-" + tail && t[2..] == tail;
      PositionAfter("", tail);
    } else {
      assert t[1..] == tail;
    }
  }

  lemma {:induction false} FlushThenCanonical(run: string, head: string, tail: string)
    requires MustShift(run) && Canonical(head + tail, run != [])
    ensures Canonical(Flush(Utf16(run)) + head + tail, false)
  {
    FlushCanonical(run, head + tail);
    Regroup(Flush(Utf16(run)), head, tail);
  }

  lemma {:induction false} DirectCanonical(c: char, run: string, tail: string)
    requires MustShift(run) && (c == '&' || IsDirect(c)) && Canonical(tail, false)
    ensures Canonical(Flush(Utf16(run)) + (if c == '&' then "&-" else [c]) + tail, false)
  {
    HeadCanonical(c, tail, run != []);
    FlushThenCanonical(run, if c == '&' then "&-" else [c], tail);
  }

  lemma {:induction false} EncodingCanonical(s: string, run: string)
    requires MustShift(run)
    ensures Canonical(EncodeFrom(s, Utf16(run)), false)
    decreases |s|
  {
    if s == [] {
      FlushCanonical(run, []);
      assert Flush(Utf16(run)) + [] == Flush(Utf16(run));
    } else if s[0] == '&' || IsDirect(s[0]) {
      EncodingCanonical(s[1..], []);
      DirectCanonical(s[0], run, EncodeFrom(s[1..], []));
    } else {
      Utf16Append(run, s[0]);
      EncodingCanonical(s[1..], run + [s[0]]);
    }
  }

  /** Exactly which accepted texts encoding gives back: the canonical ones. */
  lemma EncodesBackIff(t: string)
    requires DecodeText(t).Some?
    ensures EncodeFrom(DecodeText(t).value, []) == t <==> Canonical(t, false)
  {
    EncodingCanonical(DecodeText(t).value, []);
    if Canonical(t, false) {
      CanonicalEncodes(t, []);
      assert Flush([]) + t == t;
    }
  }

  /** The converse fails: `a` written as a shifted run is accepted although encoding never produces it. */
  lemma DecodeAcceptsMore()
    ensures DecodeText(Shift(Utf16("a"))) == Some("a") && EncodeFrom("a", []) != Shift(Utf16("a"))
  {
    FlushInverse("a", []);
    ChunkInverse("a");
    assert Flush(Utf16("a")) + [] == Shift(Utf16("a"));
    assert EncodeFrom("a", [])[0] == 'a';
  }
}
