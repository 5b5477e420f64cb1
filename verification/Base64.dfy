/** Unpadded base64 over an arbitrary 64-symbol alphabet, rejecting non-zero trailing bits. */
module Base64 {
  import opened Wrappers

  type Byte = x: int | 0 <= x < 256
  type Sextet = x: int | 0 <= x < 64

  /** An alphabet is a symbol table together with its reverse lookup. */
  datatype Alphabet = Alphabet(symbol: Sextet -> char, value: char -> Option<Sextet>) {
    /** The table is injective and the lookup is exactly its inverse. */
    ghost predicate Valid() {
      && (forall i: Sextet :: value(symbol(i)) == Some(i))
      && (forall c: char :: value(c).Some? ==> symbol(value(c).value) == c)
    }
  }

  function Pack(bytes: seq<Byte>): (r: seq<Sextet>)
    ensures |r| == (4 * |bytes| + 2) / 3
  {
    if |bytes| == 0 then []
    else
      var b0 := bytes[0];
      if |bytes| == 1 then [b0 / 4, b0 % 4 * 16]
      else
        var b1 := bytes[1];
        if |bytes| == 2 then [b0 / 4, b0 % 4 * 16 + b1 / 16, b1 % 16 * 4]
        else
          var b2 := bytes[2];
          [b0 / 4, b0 % 4 * 16 + b1 / 16, b1 % 16 * 4 + b2 / 64, b2 % 64] + Pack(bytes[3..])
  }

  function Unpack(s: seq<Sextet>): (r: Option<seq<Byte>>) {
    if |s| == 0 then Some([])
    else if |s| == 1 then None
    else
      var b0: Byte := s[0] as int * 4 + s[1] / 16;
      if |s| == 2 then if s[1] % 16 == 0 then Some([b0]) else None
      else
        var b1: Byte := (s[1] % 16) as int * 16 + s[2] / 4;
        if |s| == 3 then if s[2] % 4 == 0 then Some([b0, b1]) else None
        else
          var b2: Byte := (s[2] % 4) as int * 64 + s[3];
          match Unpack(s[4..])
          case None => None
          case Some(rest) => Some([b0, b1, b2] + rest)
  }

  lemma {:induction false} PackShort(bytes: seq<Byte>)
    requires |bytes| <= 2
    ensures Unpack(Pack(bytes)) == Some(bytes)
  {
    if |bytes| == 1 {
      assert bytes == [bytes[0]];
    } else if |bytes| == 2 {
      assert bytes == [bytes[0], bytes[1]];
    }
  }

  /** Three bytes become four sextets and three bytes again. */
  lemma {:induction false} PackGroup(bytes: seq<Byte>)
    requires |bytes| >= 3 && Unpack(Pack(bytes[3..])) == Some(bytes[3..])
    ensures Unpack(Pack(bytes)) == Some(bytes)
  {
    assert Pack(bytes)[4..] == Pack(bytes[3..]);
    assert bytes == [bytes[0], bytes[1], bytes[2]] + bytes[3..];
  }

  lemma {:induction false} UnpackPack(bytes: seq<Byte>)
    ensures Unpack(Pack(bytes)) == Some(bytes)
  {
    if |bytes| < 3 {
      PackShort(bytes);
    } else {
      UnpackPack(bytes[3..]);
      PackGroup(bytes);
    }
  }

  lemma {:induction false} PackUnpack(s: seq<Sextet>)
    requires Unpack(s).Some?
    ensures Pack(Unpack(s).value) == s
  {
    if |s| >= 4 {
      PackUnpack(s[4..]);
      var bytes := Unpack(s).value;
      assert bytes[3..] == Unpack(s[4..]).value;
      assert s == [s[0], s[1], s[2], s[3]] + s[4..];
    }
  }

  function Encode(a: Alphabet, bytes: seq<Byte>): (text: string)
    ensures |text| == (4 * |bytes| + 2) / 3
  {
    var p := Pack(bytes);
    seq(|p|, i requires 0 <= i < |p| => a.symbol(p[i]))
  }

  predicate InAlphabet(a: Alphabet, text: string) {
    forall i :: 0 <= i < |text| ==> a.value(text[i]).Some?
  }

  function Sextets(a: Alphabet, text: string): (s: seq<Sextet>)
    requires InAlphabet(a, text)
  {
    seq(|text|, i requires 0 <= i < |text| => a.value(text[i]).value)
  }

  function Decode(a: Alphabet, text: string): (r: Option<seq<Byte>>) {
    if InAlphabet(a, text) then Unpack(Sextets(a, text)) else None
  }

  lemma DecodeEncode(a: Alphabet, bytes: seq<Byte>)
    requires a.Valid()
    ensures Decode(a, Encode(a, bytes)) == Some(bytes)
  {
    assert Sextets(a, Encode(a, bytes)) == Pack(bytes);
    UnpackPack(bytes);
  }

  /** Decoding accepts canonical texts only. */
  lemma EncodeDecode(a: Alphabet, text: string)
    requires a.Valid() && Decode(a, text).Some?
    ensures Encode(a, Decode(a, text).value) == text
  {
    PackUnpack(Sextets(a, text));
  }

  /** `A-Z a-z 0-9` followed by two alphabet-specific symbols. */
  function StandardSymbol(i: Sextet, c62: char, c63: char): char {
    if i < 26 then 'A' + i as char
    else if i < 52 then 'a' + (i - 26) as char
    else if i < 62 then '0' + (i - 52) as char
    else if i == 62 then c62 else c63
  }

  function StandardValue(c: char, c62: char, c63: char): Option<Sextet> {
    if 'A' <= c <= 'Z' then Some(c as int - 'A' as int)
    else if 'a' <= c <= 'z' then Some(c as int - 'a' as int + 26)
    else if '0' <= c <= '9' then Some(c as int - '0' as int + 52)
    else if c == c62 then Some(62) else if c == c63 then Some(63) else None
  }

  /** Tuta's order-preserving `base64ext`: `- 0-9 A-Z _ a-z`. */
  function ExtSymbol(i: Sextet): char {
    if i == 0 then '-'
    else if i < 11 then '0' + (i - 1) as char
    else if i < 37 then 'A' + (i - 11) as char
    else if i == 37 then '_'
    else 'a' + (i - 38) as char
  }

  function ExtValue(c: char): Option<Sextet> {
    if c == '-' then Some(0)
    else if '0' <= c <= '9' then Some(c as int - '0' as int + 1)
    else if 'A' <= c <= 'Z' then Some(c as int - 'A' as int + 11)
    else if c == '_' then Some(37)
    else if 'a' <= c <= 'z' then Some(c as int - 'a' as int + 38)
    else None
  }

  /** Section 5.1.3 of RFC 3501: `/` becomes `,`. */
  const MODIFIED := Alphabet((i: Sextet) => StandardSymbol(i, '+', ','), c => StandardValue(c, '+', ','))

  const URL_SAFE := Alphabet((i: Sextet) => StandardSymbol(i, '-', '_'), c => StandardValue(c, '-', '_'))

  const EXT := Alphabet((i: Sextet) => ExtSymbol(i), c => ExtValue(c))

  lemma StandardValid(c62: char, c63: char)
    requires c62 != c63 && c62 < '0' && (c63 < '0' || c63 == '_')
    ensures forall i: Sextet :: StandardValue(StandardSymbol(i, c62, c63), c62, c63) == Some(i)
    ensures forall c: char :: StandardValue(c, c62, c63).Some?
                              ==> StandardSymbol(StandardValue(c, c62, c63).value, c62, c63) == c
  {
    forall c: char | StandardValue(c, c62, c63).Some?
      ensures StandardSymbol(StandardValue(c, c62, c63).value, c62, c63) == c
    {
    }
  }

  lemma ExtSymbolInverse(i: Sextet)
    ensures ExtValue(ExtSymbol(i)) == Some(i)
  {
  }

  lemma ExtValueInverse(c: char)
    ensures ExtValue(c).Some? ==> ExtSymbol(ExtValue(c).value) == c
  {
  }

  /** The three alphabets in use are injective. */
  lemma AlphabetsValid()
    ensures MODIFIED.Valid() && URL_SAFE.Valid() && EXT.Valid()
  {
    assert MODIFIED.Valid() by { StandardValid('+', ','); }
    assert URL_SAFE.Valid() by { StandardValid('-', '_'); }
    assert EXT.Valid() by {
      forall i: Sextet { ExtSymbolInverse(i); }
      forall c: char { ExtValueInverse(c); }
    }
  }
}
