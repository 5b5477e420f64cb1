/** The codecs against the tables and bit strings of their standards. */
module WireBits {
  import opened Wrappers
  import opened Base64
  import Utf7
  import MailSetEntryId

  // ----- bits -----

  /** The lowest `width` bits of a number, highest first. */
  function BitsOf(n: nat, width: nat): (r: seq<bool>)
    ensures |r| == width
  {
    if width == 0 then [] else BitsOf(n / 2, width - 1) + [n % 2 == 1]
  }

  function Pow2(k: nat): (r: nat)
    ensures r > 0
  {
    if k == 0 then 1 else 2 * Pow2(k - 1)
  }

  lemma Halves(a: nat, b: nat, p: nat)
    requires p > 0 && b < 2 * p
    ensures (a * (2 * p) + b) / 2 == a * p + b / 2 && (a * (2 * p) + b) % 2 == b % 2
  {
    assert a * (2 * p) + b == 2 * (a * p + b / 2) + b % 2;
  }

  /** A number put together from a high and a low part has the bits of both. */
  lemma {:induction false} BitsConcat(a: nat, high: nat, b: nat, low: nat)
    requires b < Pow2(low)
    ensures BitsOf(a * Pow2(low) + b, high + low) == BitsOf(a, high) + BitsOf(b, low)
  {
    if low > 0 {
      Halves(a, b, Pow2(low - 1));
      BitsConcat(a, high, b / 2, low - 1);
      assert BitsOf(a, high) + BitsOf(b / 2, low - 1) + [b % 2 == 1]
             == BitsOf(a, high) + (BitsOf(b / 2, low - 1) + [b % 2 == 1]);
    }
  }

  lemma SmallPowers()
    ensures Pow2(1) == 2 && Pow2(2) == 4 && Pow2(4) == 16 && Pow2(6) == 64 && Pow2(8) == 256
  {
    assert Pow2(3) == 8 && Pow2(5) == 32 && Pow2(7) == 128;
  }

  function ByteBits(bytes: seq<Byte>): (r: seq<bool>)
    ensures |r| == 8 * |bytes|
  {
    if bytes == [] then [] else BitsOf(bytes[0], 8) + ByteBits(bytes[1..])
  }

  function SextetBits(s: seq<Sextet>): (r: seq<bool>)
    ensures |r| == 6 * |s|
  {
    if s == [] then [] else BitsOf(s[0], 6) + SextetBits(s[1..])
  }

  predicate AllZero(s: seq<bool>) {
    forall i :: 0 <= i < |s| ==> !s[i]
  }

  lemma {:induction false} ByteBitsConcat(a: seq<Byte>, b: seq<Byte>)
    ensures ByteBits(a + b) == ByteBits(a) + ByteBits(b)
  {
    if a == [] {
      assert a + b == b;
    } else {
      assert (a + b)[1..] == a[1..] + b;
      ByteBitsConcat(a[1..], b);
    }
  }

  lemma {:induction false} SextetBitsConcat(a: seq<Sextet>, b: seq<Sextet>)
    ensures SextetBits(a + b) == SextetBits(a) + SextetBits(b)
  {
    if a == [] {
      assert a + b == b;
    } else {
      assert (a + b)[1..] == a[1..] + b;
      SextetBitsConcat(a[1..], b);
    }
  }

  // ----- base64 -----

  lemma OneByte(b0: Byte)
    ensures BitsOf(b0, 8) == BitsOf(b0 / 4, 6) + BitsOf(b0 % 4, 2)
    ensures BitsOf(b0, 8) == BitsOf(b0 / 16, 4) + BitsOf(b0 % 16, 4)
    ensures BitsOf(b0, 8) == BitsOf(b0 / 64, 2) + BitsOf(b0 % 64, 6)
  {
    SmallPowers();
    BitsConcat(b0 / 4, 6, b0 % 4, 2);
    BitsConcat(b0 / 16, 4, b0 % 16, 4);
    BitsConcat(b0 / 64, 2, b0 % 64, 6);
  }

  lemma MixedSextets(b0: Byte, b1: Byte, b2: Byte)
    ensures BitsOf(b0 % 4 * 16 + b1 / 16, 6) == BitsOf(b0 % 4, 2) + BitsOf(b1 / 16, 4)
    ensures BitsOf(b1 % 16 * 4 + b2 / 64, 6) == BitsOf(b1 % 16, 4) + BitsOf(b2 / 64, 2)
  {
    SmallPowers();
    BitsConcat(b0 % 4, 2, b1 / 16, 4);
    BitsConcat(b1 % 16, 4, b2 / 64, 2);
  }

  lemma {:induction false} Sextets(p: Sextet, q: Sextet, rest: seq<Sextet>)
    ensures SextetBits([p, q] + rest) == BitsOf(p, 6) + BitsOf(q, 6) + SextetBits(rest)
  {
    assert ([p, q] + rest)[1..] == [q] + rest && ([q] + rest)[1..] == rest;
  }

  lemma {:induction false} OneSextet(p: Sextet)
    ensures SextetBits([p]) == BitsOf(p, 6)
  {
    assert [p][1..] == [];
  }

  lemma {:induction false} Bytes(p: Byte, rest: seq<Byte>)
    ensures ByteBits([p] + rest) == BitsOf(p, 8) + ByteBits(rest)
  {
    assert ([p] + rest)[1..] == rest;
  }

  lemma HighHalf(b0: Byte, b1: Byte)
    ensures BitsOf(b0 / 4, 6) + BitsOf(b0 % 4 * 16 + b1 / 16, 6) == BitsOf(b0, 8) + BitsOf(b1 / 16, 4)
  {
    OneByte(b0);
    MixedSextets(b0, b1, 0);
    Behind(BitsOf(b0 / 4, 6), BitsOf(b0 % 4, 2), BitsOf(b1 / 16, 4));
  }

  lemma LowHalf(b1: Byte, b2: Byte)
    ensures BitsOf(b1 % 16 * 4 + b2 / 64, 6) + BitsOf(b2 % 64, 6) == BitsOf(b1 % 16, 4) + BitsOf(b2, 8)
  {
    OneByte(b2);
    MixedSextets(0, b1, b2);
    Behind(BitsOf(b1 % 16, 4), BitsOf(b2 / 64, 2), BitsOf(b2 % 64, 6));
  }

  lemma GroupOfThree(b0: Byte, b1: Byte, b2: Byte, s: seq<Sextet>)
    ensures SextetBits([b0 / 4, b0 % 4 * 16 + b1 / 16, b1 % 16 * 4 + b2 / 64, b2 % 64] + s)
            == BitsOf(b0, 8) + BitsOf(b1, 8) + BitsOf(b2, 8) + SextetBits(s)
  {
    var p, q, r, t: Sextet := b0 / 4, b0 % 4 * 16 + b1 / 16, b1 % 16 * 4 + b2 / 64, b2 % 64;
    HighHalf(b0, b1);
    LowHalf(b1, b2);
    OneByte(b1);
    Sextets(p, q, [r, t] + s);
    Sextets(r, t, s);
    assert [p, q, r, t] + s == [p, q] + ([r, t] + s);
    Middle(BitsOf(b0, 8), BitsOf(b1 / 16, 4), BitsOf(b1 % 16, 4), BitsOf(b2, 8), SextetBits(s));
  }

  lemma Middle(a: seq<bool>, b: seq<bool>, c: seq<bool>, d: seq<bool>, e: seq<bool>)
    ensures (a + b) + ((c + d) + e) == a + (b + c) + d + e
  {
  }

  lemma Behind(a: seq<bool>, b: seq<bool>, c: seq<bool>)
    ensures a + (b + c) == a + b + c
  {
  }

  lemma LowEnd(b1: Byte)
    ensures BitsOf(b1 % 16 * 4, 6) == BitsOf(b1 % 16, 4) + BitsOf(0, 2)
  {
    SmallPowers();
    BitsConcat(b1 % 16, 4, 0, 2);
  }

  lemma GroupOfTwo(b0: Byte, b1: Byte)
    ensures SextetBits([b0 / 4, b0 % 4 * 16 + b1 / 16, b1 % 16 * 4]) == BitsOf(b0, 8) + BitsOf(b1, 8) + BitsOf(0, 2)
  {
    var p, q, r: Sextet := b0 / 4, b0 % 4 * 16 + b1 / 16, b1 % 16 * 4;
    HighHalf(b0, b1);
    OneByte(b1);
    LowEnd(b1);
    Sextets(p, q, [r]);
    OneSextet(r);
    assert [p, q, r] == [p, q] + [r];
    Middle(BitsOf(b0, 8), BitsOf(b1 / 16, 4), BitsOf(b1 % 16, 4), BitsOf(0, 2), []);
  }

  lemma GroupOfOne(b0: Byte)
    ensures SextetBits([b0 / 4, b0 % 4 * 16]) == BitsOf(b0, 8) + BitsOf(0, 4)
  {
    var p, q: Sextet := b0 / 4, b0 % 4 * 16;
    HighHalf(b0, 0);
    Sextets(p, q, []);
    assert [p, q] == [p, q] + [];
  }

  lemma {:induction false} ZeroBits(width: nat)
    ensures AllZero(BitsOf(0, width))
  {
    if width > 0 {
      ZeroBits(width - 1);
    }
  }

  lemma {:induction false} PackUnfolds(bytes: seq<Byte>)
    requires |bytes| >= 3
    ensures var b0, b1, b2 := bytes[0], bytes[1], bytes[2];
            Pack(bytes) == [b0 / 4, b0 % 4 * 16 + b1 / 16, b1 % 16 * 4 + b2 / 64, b2 % 64] + Pack(bytes[3..])
  {
  }

  lemma {:induction false} PackThree(bytes: seq<Byte>)
    requires |bytes| >= 3
    ensures SextetBits(Pack(bytes))
            == BitsOf(bytes[0], 8) + BitsOf(bytes[1], 8) + BitsOf(bytes[2], 8) + SextetBits(Pack(bytes[3..]))
  {
    PackUnfolds(bytes);
    GroupOfThree(bytes[0], bytes[1], bytes[2], Pack(bytes[3..]));
  }

  lemma {:induction false} PackTwo(b0: Byte, b1: Byte)
    ensures SextetBits(Pack([b0, b1])) == ByteBits([b0, b1]) + BitsOf(0, 2)
  {
    GroupOfTwo(b0, b1);
    Bytes(b0, [b1]);
    Bytes(b1, []);
    assert [b0, b1] == [b0] + [b1] && [b1] == [b1] + [];
    assert BitsOf(b0, 8) + (BitsOf(b1, 8) + []) == BitsOf(b0, 8) + BitsOf(b1, 8);
  }

  lemma {:induction false} PackOne(b0: Byte)
    ensures SextetBits(Pack([b0])) == ByteBits([b0]) + BitsOf(0, 4)
  {
    GroupOfOne(b0);
    Bytes(b0, []);
    assert [b0] == [b0] + [];
  }

  lemma ThreeBytes(b0: Byte, b1: Byte, b2: Byte, rest: seq<Byte>)
    ensures ByteBits([b0, b1, b2] + rest) == BitsOf(b0, 8) + BitsOf(b1, 8) + BitsOf(b2, 8) + ByteBits(rest)
  {
    assert [b0, b1, b2] + rest == [b0] + ([b1] + ([b2] + rest));
    Bytes(b0, [b1] + ([b2] + rest));
    Bytes(b1, [b2] + rest);
    Bytes(b2, rest);
  }

  /** The sextets carry exactly the bits of the bytes, in order, with fewer than six zeros behind them. */
  lemma {:induction false} PackKeepsBits(bytes: seq<Byte>) returns (zeros: seq<bool>)
    ensures SextetBits(Pack(bytes)) == ByteBits(bytes) + zeros && |zeros| < 6 && AllZero(zeros)
  {
    if bytes == [] {
      zeros := [];
    } else if |bytes| == 1 {
      PackOne(bytes[0]);
      ZeroBits(4);
      zeros := BitsOf(0, 4);
      assert bytes == [bytes[0]];
    } else if |bytes| == 2 {
      PackTwo(bytes[0], bytes[1]);
      ZeroBits(2);
      zeros := BitsOf(0, 2);
      assert bytes == [bytes[0], bytes[1]];
    } else {
      zeros := PackKeepsBits(bytes[3..]);
      PackThree(bytes);
      ThreeBytes(bytes[0], bytes[1], bytes[2], bytes[3..]);
      assert bytes == [bytes[0], bytes[1], bytes[2]] + bytes[3..];
      Behind(BitsOf(bytes[0], 8) + BitsOf(bytes[1], 8) + BitsOf(bytes[2], 8), ByteBits(bytes[3..]), zeros);
    }
  }

  // ----- alphabets -----

  const UPPER := "ABCDEFGHIJKLMNOPQRSTUVWXYZ"
  const LOWER := "abcdefghijklmnopqrstuvwxyz"
  const DIGITS := "0123456789"

  lemma LetterAt(i: nat)
    requires i < 26
    ensures UPPER[i] == 'A' + i as char && LOWER[i] == 'a' + i as char
  {
  }

  lemma DigitAt(i: nat)
    requires i < 10
    ensures DIGITS[i] == '0' + i as char
  {
  }

  lemma StandardTable(i: Sextet, c62: char, c63: char)
    ensures StandardSymbol(i, c62, c63) == (UPPER + LOWER + DIGITS + [c62, c63])[i]
  {
    if i < 26 {
      LetterAt(i);
    } else if i < 52 {
      LetterAt(i - 26);
    } else if i < 62 {
      DigitAt(i - 52);
    }
  }

  lemma ExtTable(i: Sextet)
    ensures ExtSymbol(i) == ("-" + DIGITS + UPPER + "_" + LOWER)[i]
  {
    if 1 <= i < 11 {
      DigitAt(i - 1);
    } else if 11 <= i < 37 {
      LetterAt(i - 11);
    } else if i >= 38 {
      LetterAt(i - 38);
    }
  }

  /** The symbols of the three alphabets, in the order of their values. */
  lemma AlphabetTables(i: Sextet)
    ensures MODIFIED.symbol(i) == (UPPER + LOWER + DIGITS + "+,")[i]
    ensures URL_SAFE.symbol(i) == (UPPER + LOWER + DIGITS + "-_")[i]
    ensures EXT.symbol(i) == ("-" + DIGITS + UPPER + "_" + LOWER)[i]
  {
    StandardTable(i, '+', ',');
    StandardTable(i, '-', '_');
    ExtTable(i);
  }

  // ----- modified UTF-7 -----

  function UnitBits(units: seq<Utf7.Unit>): seq<bool> {
    if units == [] then [] else BitsOf(units[0], 16) + UnitBits(units[1..])
  }

  lemma UnitIsTwoBytes(u: Utf7.Unit)
    ensures BitsOf(u, 16) == BitsOf(u / 256, 8) + BitsOf(u % 256, 8)
  {
    SmallPowers();
    BitsConcat(u / 256, 8, u % 256, 8);
  }

  lemma {:induction false} FirstUnit(u: Utf7.Unit, rest: seq<Byte>)
    ensures ByteBits([u / 256, u % 256] + rest) == BitsOf(u, 16) + ByteBits(rest)
  {
    var high, low: Byte := u / 256, u % 256;
    UnitIsTwoBytes(u);
    Bytes(high, [low] + rest);
    Bytes(low, rest);
    assert [high, low] + rest == [high] + ([low] + rest);
    Behind(BitsOf(high, 8), BitsOf(low, 8), ByteBits(rest));
  }

  /** Units are written highest byte first. */
  lemma {:induction false} UnitsKeepBits(units: seq<Utf7.Unit>)
    ensures ByteBits(Utf7.ToBytes(units)) == UnitBits(units)
  {
    if units != [] {
      UnitsKeepBits(units[1..]);
      FirstUnit(units[0], Utf7.ToBytes(units[1..]));
    }
  }

  /** UTF-16: a character is one unit, or a high and a low surrogate that hold what it has beyond 16 bits. */
  lemma UnitsOfCharacter(c: char)
    ensures var u := Utf7.Units(c);
            if c as int < 0x1_0000 then u == [c as int]
            else |u| == 2 && 0xD800 <= u[0] < 0xDC00 <= u[1] < 0xE000
                 && c as int == 0x1_0000 + (u[0] as int - 0xD800) * 0x400 + (u[1] as int - 0xDC00)
  {
  }

  predicate IsPlain(c: char) {
    ' ' <= c <= '~' && c != '&'
  }

  /** Printable characters stand for themselves, an ampersand is written with a dash. */
  lemma DirectText(c: char, rest: string)
    ensures IsPlain(c) ==> Utf7.EncodeFrom([c] + rest, []) == [c] + Utf7.EncodeFrom(rest, [])
    ensures c == '&' ==> Utf7.EncodeFrom([c] + rest, []) == "&-" + Utf7.EncodeFrom(rest, [])
  {
    if c == '&' || IsPlain(c) {
      Utf7.DirectHead(c, rest, []);
    }
  }

  /**
   * A run of other characters is written between an ampersand and a dash, in symbols of the table that carry exactly
   * the bits of its UTF-16 units, padded with fewer than six zeros.
   */
  lemma ShiftedText(run: string, rest: string) returns (text: string, values: seq<Sextet>, zeros: seq<bool>)
    requires run != [] && forall i :: 0 <= i < |run| ==> !IsPlain(run[i]) && run[i] != '&'
    requires rest == [] || IsPlain(rest[0]) || rest[0] == '&'
    ensures Utf7.EncodeFrom(run + rest, []) == "&" + text + "-" + Utf7.EncodeFrom(rest, [])
    ensures |values| == |text| && forall i :: 0 <= i < |text| ==> text[i] == (UPPER + LOWER + DIGITS + "+,")[values[i]]
    ensures SextetBits(values) == UnitBits(Utf7.Utf16(run)) + zeros && |zeros| < 6 && AllZero(zeros)
  {
    var units := Utf7.Utf16(run);
    values := Pack(Utf7.ToBytes(units));
    text := Encode(MODIFIED, Utf7.ToBytes(units));
    forall i | 0 <= i < |text| ensures text[i] == (UPPER + LOWER + DIGITS + "+,")[values[i]] {
      AlphabetTables(values[i]);
    }
    zeros := PackKeepsBits(Utf7.ToBytes(units));
    UnitsKeepBits(units);
    RunShifts(run, rest, text);
  }

  lemma RunShifts(run: string, rest: string, text: string)
    requires run != [] && Utf7.MustShift(run) && (rest == [] || Utf7.IsDirect(rest[0]) || rest[0] == '&')
    requires text == Encode(MODIFIED, Utf7.ToBytes(Utf7.Utf16(run)))
    ensures Utf7.EncodeFrom(run + rest, []) == "&" + text + "-" + Utf7.EncodeFrom(rest, [])
  {
    var units := Utf7.Utf16(run);
    Utf7.ChunkInverse(run);
    Utf7.ShiftRun(run, rest, []);
    assert [] + units == units;
    if rest != [] {
      Utf7.DirectHead(rest[0], rest[1..], units);
      Utf7.DirectHead(rest[0], rest[1..], []);
      assert [rest[0]] + rest[1..] == rest;
    }
  }

  /** The text between ampersand and dash that stands for some characters. */
  predicate StandsFor(chunk: string, x: string) {
    if chunk == "" then x == "&" else Encode(MODIFIED, Utf7.ToBytes(Utf7.Utf16(x))) == chunk
  }

  lemma {:induction false} ChunkRead(chunk: string, x: string)
    ensures Utf7.DecodeChunk(chunk) == Some(x) <==> StandsFor(chunk, x)
  {
    if chunk != "" {
      if Utf7.DecodeChunk(chunk) == Some(x) {
        Utf7.ChunkUnique(chunk);
        SameText(Utf7.Utf16(x), chunk);
      } else if StandsFor(chunk, x) {
        assert x != "";
        Utf7.ChunkInverse(x);
      }
    }
  }

  lemma SameText(units: seq<Utf7.Unit>, chunk: string)
    requires Utf7.Shift(units) == "&" + chunk + "-"
    ensures Encode(MODIFIED, Utf7.ToBytes(units)) == chunk
  {
    var text := Encode(MODIFIED, Utf7.ToBytes(units));
    assert |text| == |chunk|;
    forall i | 0 <= i < |text| ensures text[i] == chunk[i] {
      assert ("&" + text + "-")[i + 1] == ("&" + chunk + "-")[i + 1];
    }
  }

  /**
   * Decoding, piece by piece: characters other than the ampersand stand for themselves; between an ampersand and the
   * next dash stands what encodes to it, or the whole text is refused, as it is without that dash.
   */
  lemma DecodedText(c: char, chunk: string, rest: string)
    requires c != '&' && '-' !in chunk
    ensures Utf7.DecodeText([c] + rest) == Utf7.Prepend([c], Utf7.DecodeText(rest)) && Utf7.DecodeText("") == Some("")
    ensures forall x :: StandsFor(chunk, x) ==>
              Utf7.DecodeText("&" + chunk + "-" + rest) == Utf7.Prepend(x, Utf7.DecodeText(rest))
    ensures (forall x :: !StandsFor(chunk, x)) ==> Utf7.DecodeText("&" + chunk + "-" + rest) == None
    ensures Utf7.DecodeText("&" + chunk) == None
  {
    assert ([c] + rest)[1..] == rest;
    forall x ensures Utf7.DecodeChunk(chunk) == Some(x) <==> StandsFor(chunk, x) {
      ChunkRead(chunk, x);
    }
    ClosedChunk(chunk, rest);
    assert ("&" + chunk)[1..] == chunk;
  }

  lemma ClosedChunk(chunk: string, rest: string)
    requires '-' !in chunk
    ensures Utf7.DecodeText("&" + chunk + "-" + rest)
            == match Utf7.DecodeChunk(chunk) case None => None case Some(x) => Utf7.Prepend(x, Utf7.DecodeText(rest))
  {
    var t := "&" + chunk + "-" + rest;
    assert t[1..] == chunk + "-" + rest;
    Utf7.PositionAfter(chunk, rest);
    assert t[1..][..|chunk|] == chunk && t[|chunk| + 2..] == rest;
  }

  // ----- entry ids -----

  lemma LastByte(t: nat, high: nat)
    ensures BitsOf(t, high + 8) == BitsOf(t / 256, high) + BitsOf(t % 256, 8)
  {
    SmallPowers();
    BitsConcat(t / 256, high, t % 256, 8);
  }

  lemma StampBits(t: int)
    requires 0 <= t < MailSetEntryId.U32
    ensures ByteBits(MailSetEntryId.BigEndian(t)) == BitsOf(t, 32)
  {
    var a, b, c, d: Byte := t / 256 / 256 / 256, t / 256 / 256 % 256, t / 256 % 256, t % 256;
    LastByte(t, 24);
    LastByte(t / 256, 16);
    LastByte(t / 256 / 256, 8);
    ThreeBytes(a, b, c, [d]);
    Bytes(d, []);
    assert MailSetEntryId.BigEndian(t) == [a, b, c] + [d] && [d] == [d] + [];
  }

  /**
   * An entry's id is the url-safe text of 32 bits of the date, in units of 1024 ms and highest bit first, followed by
   * the 72 bits that the mail's id spells in the other alphabet.
   */
  lemma EntryIdBits(millis: nat, mailId: string) returns (date: seq<Byte>, mail: seq<Byte>)
    requires MailSetEntryId.IsMailId(mailId)
    ensures MailSetEntryId.EntryBytes(millis, mailId) == date + mail && |date| == 4 && |mail| == 9
    ensures ByteBits(date) == BitsOf(millis / 1024 % 0x1_0000_0000, 32)
    ensures Encode(EXT, mail) == mailId
  {
    date, mail := MailSetEntryId.BigEndian(millis / 1024 % 0x1_0000_0000), Decode(EXT, mailId).value;
    StampBits(millis / 1024 % 0x1_0000_0000);
    AlphabetsValid();
    EncodeDecode(EXT, mailId);
  }

  /** Exactly the texts of thirteen bytes are entry ids. */
  lemma EntryIdIff(id: string)
    ensures MailSetEntryId.Deconstruct(id).Ok? <==> exists bytes :: |bytes| == 13 && id == Encode(URL_SAFE, bytes)
  {
    AlphabetsValid();
    if MailSetEntryId.Deconstruct(id).Ok? {
      EncodeDecode(URL_SAFE, id);
    }
    if bytes :| |bytes| == 13 && id == Encode(URL_SAFE, bytes) {
      DecodeEncode(URL_SAFE, bytes);
    }
  }
}
