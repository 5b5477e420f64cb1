/** The 13-byte element id of a `MailSetEntry`: four bytes of received date, nine bytes of mail id. */
module MailSetEntryId {
  import opened Wrappers
  import opened Base64

  const MAIL_ID_BYTES := 9
  const TIMESTAMP_BYTES := 4
  const ENTRY_ID_BYTES := 13
  const TICK := 1024
  const U32 := 0x1_0000_0000

  datatype IdError = InvalidBase64Url | WrongLength(got: nat)

  /** `u32::to_be_bytes`. */
  function BigEndian(t: int): (r: seq<Byte>)
    requires 0 <= t < U32
    ensures |r| == TIMESTAMP_BYTES
  {
    [t / 256 / 256 / 256, t / 256 / 256 % 256, t / 256 % 256, t % 256]
  }

  function FromBigEndian(b: seq<Byte>): (t: int)
    requires |b| == TIMESTAMP_BYTES
    ensures 0 <= t < U32
  {
    ((b[0] as int * 256 + b[1]) * 256 + b[2]) * 256 + b[3]
  }

  lemma BigEndianInverse(t: int)
    requires 0 <= t < U32
    ensures FromBigEndian(BigEndian(t)) == t
  {
  }

  lemma FromBigEndianInverse(b: seq<Byte>)
    requires |b| == TIMESTAMP_BYTES
    ensures BigEndian(FromBigEndian(b)) == b
  {
    var high := (b[0] as int * 256 + b[1]) * 256 + b[2];
    assert FromBigEndian(b) / 256 == high && high / 256 == b[0] as int * 256 + b[1];
  }

  /** A well-formed Tuta `GeneratedId` of a mail: anything else makes `construct` panic. */
  predicate IsMailId(mailId: string) {
    var bytes := Decode(EXT, mailId);
    bytes.Some? && |bytes.value| == MAIL_ID_BYTES
  }

  /** The bytes of an entry id: the date loses its low ten bits and wraps at 32 bits. */
  function EntryBytes(millis: nat, mailId: string): (r: seq<Byte>)
    requires IsMailId(mailId)
    ensures |r| == ENTRY_ID_BYTES
  {
    BigEndian(millis / TICK % U32) + Decode(EXT, mailId).value
  }

  /** `construct`: fill a fixed buffer, then encode it. */
  method Construct(millis: nat, mailId: string) returns (id: string)
    requires IsMailId(mailId)
    ensures id == Encode(URL_SAFE, EntryBytes(millis, mailId))
  {
    var buffer := new Byte[ENTRY_ID_BYTES](_ => 0);
    var stamp := BigEndian(millis / TICK % U32);
    for i := 0 to TIMESTAMP_BYTES
      invariant buffer[..i] == stamp[..i]
    {
      buffer[i] := stamp[i];
    }
    assert stamp[..TIMESTAMP_BYTES] == stamp;
    var mail := Decode(EXT, mailId).value;
    for i := 0 to MAIL_ID_BYTES
      invariant buffer[..TIMESTAMP_BYTES] == stamp
      invariant buffer[TIMESTAMP_BYTES..TIMESTAMP_BYTES + i] == mail[..i]
    {
      buffer[TIMESTAMP_BYTES + i] := mail[i];
    }
    assert mail[..MAIL_ID_BYTES] == mail;
    assert buffer[..] == stamp + mail;
    id := Encode(URL_SAFE, buffer[..]);
  }

  /** `deconstruct`: the received date (a multiple of 1024 ms) and the mail id. */
  function Deconstruct(id: string): (r: Result<(nat, string), IdError>) {
    match Decode(URL_SAFE, id)
    case None => Err(InvalidBase64Url)
    case Some(buffer) =>
      if |buffer| != ENTRY_ID_BYTES then Err(WrongLength(|buffer|))
      else Ok((FromBigEndian(buffer[..TIMESTAMP_BYTES]) * TICK, Encode(EXT, buffer[TIMESTAMP_BYTES..])))
  }

  /** Decoding a constructed id gives the mail id back and the date reduced to 32 ticks-bits. */
  lemma DeconstructConstruct(millis: nat, mailId: string)
    requires IsMailId(mailId)
    ensures Deconstruct(Encode(URL_SAFE, EntryBytes(millis, mailId)))
            == Ok((millis / TICK % U32 * TICK, mailId))
  {
    AlphabetsValid();
    var bytes := EntryBytes(millis, mailId);
    DecodeEncode(URL_SAFE, bytes);
    BigEndianInverse(millis / TICK % U32);
    assert bytes[..TIMESTAMP_BYTES] == BigEndian(millis / TICK % U32);
    assert bytes[TIMESTAMP_BYTES..] == Decode(EXT, mailId).value;
    EncodeDecode(EXT, mailId);
  }

  lemma RoundingIff(millis: nat)
    ensures millis / TICK % U32 * TICK == millis - millis % TICK <==> millis < U32 * TICK
  {
    var ticks := millis / TICK;
    assert millis - millis % TICK == ticks * TICK;
    assert ticks % U32 == ticks <==> ticks < U32;
  }

  /** The date survives up to rounding down to a multiple of 1024 exactly for dates below 2^42 ms. */
  lemma DateSurvivesIff(millis: nat, mailId: string)
    requires IsMailId(mailId)
    ensures Deconstruct(Encode(URL_SAFE, EntryBytes(millis, mailId))) == Ok((millis - millis % TICK, mailId))
            <==> millis < U32 * TICK
  {
    DeconstructConstruct(millis, mailId);
    RoundingIff(millis);
  }

  lemma MailTextIsId(mail: seq<Byte>)
    requires |mail| == MAIL_ID_BYTES
    ensures IsMailId(Encode(EXT, mail)) && Decode(EXT, Encode(EXT, mail)) == Some(mail)
  {
    AlphabetsValid();
    DecodeEncode(EXT, mail);
  }

  lemma StampSurvives(stamp: seq<Byte>)
    requires |stamp| == TIMESTAMP_BYTES
    ensures BigEndian(FromBigEndian(stamp) * TICK / TICK % U32) == stamp
  {
    FromBigEndianInverse(stamp);
    TickMultiple(FromBigEndian(stamp));
  }

  lemma EntryBytesOnto(buffer: seq<Byte>)
    requires |buffer| == ENTRY_ID_BYTES
    ensures var millis := FromBigEndian(buffer[..TIMESTAMP_BYTES]) * TICK;
            var mailId := Encode(EXT, buffer[TIMESTAMP_BYTES..]);
            IsMailId(mailId) && EntryBytes(millis, mailId) == buffer
  {
    MailTextIsId(buffer[TIMESTAMP_BYTES..]);
    StampSurvives(buffer[..TIMESTAMP_BYTES]);
    assert buffer[..TIMESTAMP_BYTES] + buffer[TIMESTAMP_BYTES..] == buffer;
  }

  lemma TickMultiple(ticks: nat)
    ensures ticks * TICK % TICK == 0 && ticks * TICK / TICK == ticks
  {
  }

  lemma CanonicalText(id: string)
    requires Decode(URL_SAFE, id).Some?
    ensures Encode(URL_SAFE, Decode(URL_SAFE, id).value) == id
  {
    AlphabetsValid();
    EncodeDecode(URL_SAFE, id);
  }

  /** Every accepted id is the one and only id of the pair it decodes to. */
  lemma ConstructDeconstruct(id: string)
    requires Deconstruct(id).Ok?
    ensures var (millis, mailId) := Deconstruct(id).value;
            IsMailId(mailId) && millis % TICK == 0 && Encode(URL_SAFE, EntryBytes(millis, mailId)) == id
  {
    var buffer := Decode(URL_SAFE, id).value;
    EntryBytesOnto(buffer);
    CanonicalText(id);
    TickMultiple(FromBigEndian(buffer[..TIMESTAMP_BYTES]));
  }
}
