/** The wire envelope and the replication response inside it. */
module Envelope {
  import opened Integers
  import opened Bytes

  const MAGIC: seq<Byte> := [0xB9, 0x0E, 0x43, 0xB4]
  const MIN_HEADER_LEN: nat := 8
  const REPLICATION_RESPONSE: Byte := 3

  datatype Checked<T> =
    | Missing | WrongMagic | WrongVersion | WrongType | WrongHeader | WrongCrc | TooShort | Panic | Good(value: T)

  /** Version 0, a header of eight bytes, no flags. */
  function ResponseHeader(): (h: seq<Byte>)
    ensures |h| == 8
  {
    MAGIC + [0x00, 8, 0x00, REPLICATION_RESPONSE]
  }

  predicate HasBit0(flags: Byte) {
    flags % 2 == 1
  }

  /** The payload behind a valid header; a header length past the end of the data panics. */
  function CheckEnvelope(data: seq<Byte>, expected: Byte, crc: Digest): Checked<seq<Byte>> {
    if |data| < MIN_HEADER_LEN then Missing
    else if data[..4] != MAGIC then WrongMagic
    else if data[4] != 0 then WrongVersion
    else if data[5] > |data| then Panic
    else if data[7] != expected then WrongType
    else if HasBit0(data[6]) && data[5] != MIN_HEADER_LEN + 4 then WrongHeader
    else if HasBit0(data[6]) && GetUInt(data, 8, 4) != crc(data[12..]) then WrongCrc
    else Good(data[data[5]..])
  }

  datatype Response = Response(epoch: nat, hw: int, messages: seq<Byte>)

  function Unmarshal(data: seq<Byte>, crc: Digest): Checked<Response> {
    match CheckEnvelope(data, REPLICATION_RESPONSE, crc)
    case Good(payload) =>
      if |payload| < 16 then TooShort
      else Good(Response(GetUInt(payload, 0, 8), GetInt64(payload, 8), payload[16..]))
    case Missing => Missing
    case WrongMagic => WrongMagic
    case WrongVersion => WrongVersion
    case WrongType => WrongType
    case WrongHeader => WrongHeader
    case WrongCrc => WrongCrc
    case TooShort => TooShort
    case Panic => Panic
  }

  predicate Sendable(r: Response) {
    r.epoch < U64 && Int64(r.hw)
  }

  function Marshal(r: Response): (data: seq<Byte>)
    requires Sendable(r)
    ensures |data| == 24 + |r.messages|
  {
    ResponseHeader() + BE(r.epoch, 8) + PutInt64(r.hw) + r.messages
  }

  lemma {:induction false} PayloadOf(h: seq<Byte>, e: seq<Byte>, w: seq<Byte>, m: seq<Byte>)
    requires |h| == 8 && |e| == 8 && |w| == 8
    ensures var data := h + e + w + m;
            && data[8..] == e + w + m && data[..8] == h && (e + w + m)[16..] == m
            && (e + w + m)[0..8] == e && (e + w + m)[8..16] == w
  {
  }

  lemma {:induction false} FieldsOf(e: nat, hw: int, m: seq<Byte>)
    requires e < U64 && Int64(hw)
    ensures var payload := BE(e, 8) + PutInt64(hw) + m; GetUInt(payload, 0, 8) == e && GetInt64(payload, 8) == hw
  {
    var a, b := BE(e, 8), PutInt64(hw);
    Widths();
    FieldReadsBack([], e, 8, b + m);
    assert [] + a + (b + m) == a + b + m;
    Int64ReadsBack(a, hw, m);
  }

  lemma {:induction false} HeaderAccepted(data: seq<Byte>, crc: Digest)
    requires |data| >= 8 && data[..8] == ResponseHeader()
    ensures CheckEnvelope(data, REPLICATION_RESPONSE, crc) == Good(data[8..])
  {
  }

  /** What a receiver takes: the magic number, version 0, the expected type, a header no longer than the data and, if
      the flag says so, a checksum that is right and nothing else in the header. */
  lemma {:induction false} EnvelopeAccepted(data: seq<Byte>, expected: Byte, crc: Digest)
    ensures CheckEnvelope(data, expected, crc).Good? <==>
            && |data| >= 8 && MAGIC <= data && data[4] == 0 && data[7] == expected && data[5] <= |data|
            && (data[6] % 2 == 1 ==> data[5] == 12 && GetUInt(data, 8, 4) == crc(data[12..]))
    ensures CheckEnvelope(data, expected, crc).Good? ==> CheckEnvelope(data, expected, crc).value == data[data[5]..]
  {
    if |data| >= 8 {
      assert MAGIC <= data <==> data[..4] == MAGIC;
    }
  }

  /** So no response is taken after a change of its magic number, version or type. */
  lemma {:induction false} ChangedHeaderRefused(r: Response, i: nat, b: Byte, crc: Digest)
    requires Sendable(r) && (i < 5 || i == 7) && b != Marshal(r)[i]
    ensures !Unmarshal(Marshal(r)[i := b], crc).Good?
  {
    var data := Marshal(r)[i := b];
    EnvelopeAccepted(data, REPLICATION_RESPONSE, crc);
    var h := ResponseHeader();
    assert Marshal(r)[i] == h[i];
    if i < 4 {
      assert data[i] != MAGIC[i];
    }
  }

  /** What was written is what is read. */
  lemma {:induction false} ResponseReadsBack(r: Response, crc: Digest)
    requires Sendable(r)
    ensures Unmarshal(Marshal(r), crc) == Good(r)
  {
    PayloadOf(ResponseHeader(), BE(r.epoch, 8), PutInt64(r.hw), r.messages);
    HeaderAccepted(Marshal(r), crc);
    FieldsOf(r.epoch, r.hw, r.messages);
  }
}
