/** The 16-byte header the pusher writes in front of every frame, and the
    packet (header plus payload) it builds for sending. */
module FrameHeader {
  import opened BoundedInts
  import opened Wrappers
  import opened LittleEndian

  const HEADER_SIZE: nat := 16

  /** The three header fields: media type, payload length, presentation time. */
  datatype Header = Header(fourcc: uint32, length: int32, timestamp: int64)

  /** fourcc as uint32 at offset 0, length as int32 at offset 4, timestamp
      as int64 at offset 8, each little-endian. */
  function EncodeHeader(h: Header): (r: seq<byte>)
    ensures |r| == HEADER_SIZE
    ensures DecodeHeader(r) == Some(h)
  {
    var r := EncodeUInt32(h.fourcc) + EncodeInt32(h.length) + EncodeInt64(h.timestamp);
    assert r[0..4] == EncodeUInt32(h.fourcc);
    assert r[4..8] == EncodeInt32(h.length);
    assert r[8..16] == EncodeInt64(h.timestamp);
    r
  }

  /** Reads the header off the front of a byte string; None when fewer than
      16 bytes are present. */
  function DecodeHeader(b: seq<byte>): (r: Option<Header>)
    ensures r.Some? <==> |b| >= HEADER_SIZE
  {
    if |b| < HEADER_SIZE then None
    else Some(Header(DecodeUInt32(b[0..4]), DecodeInt32(b[4..8]), DecodeInt64(b[8..16])))
  }

  /** Whatever follows the header does not disturb its decoding. */
  lemma DecodeHeaderPrefix(h: Header, rest: seq<byte>)
    ensures DecodeHeader(EncodeHeader(h) + rest) == Some(h)
  {
    var e := EncodeHeader(h);
    assert (e + rest)[..HEADER_SIZE] == e;
    assert (e + rest)[0..4] == e[0..4];
    assert (e + rest)[4..8] == e[4..8];
    assert (e + rest)[8..16] == e[8..16];
  }

  /** Every 16 bytes are the header of exactly one (fourcc, length, timestamp). */
  lemma EncodeDecodeHeader(b: seq<byte>)
    requires |b| >= HEADER_SIZE
    ensures DecodeHeader(b).Some?
    ensures EncodeHeader(DecodeHeader(b).value) == b[..HEADER_SIZE]
  {
    EncodeDecodeFields(b[0..4], b[8..16]);
    EncodeDecodeFields(b[4..8], b[8..16]);
    assert b[..HEADER_SIZE] == b[0..4] + b[4..8] + b[8..16];
  }

  /** The byte layout of the wire table: byte i of the header is one base-256
      digit of the fourcc, of the length's two's-complement bits, or of the
      timestamp's two's-complement bits. */
  lemma HeaderLayout(h: Header, i: nat)
    requires i < HEADER_SIZE
    ensures EncodeHeader(h)[i] ==
      if i < 4 then (h.fourcc / Pow256(i)) % 256
      else if i < 8 then (Int32Bits(h.length) / Pow256(i - 4)) % 256
      else (Int64Bits(h.timestamp) / Pow256(i - 8)) % 256
  {
    Pow256Widths();
    if i < 4 {
      ToLEByte(h.fourcc, 4, i);
    } else if i < 8 {
      ToLEByte(Int32Bits(h.length), 4, i - 4);
    } else {
      ToLEByte(Int64Bits(h.timestamp), 8, i - 8);
    }
  }

  /** What the pusher transmits for one frame: the header buffer and the
      payload buffer, sent back to back. */
  datatype Packet = Packet(header: seq<byte>, payload: seq<byte>) {
    function Wire(): seq<byte> {
      header + payload
    }
  }

  /** The receiver's view of one packet: the header, then exactly as many
      payload bytes as the header's length field announces. */
  function DecodePacket(wire: seq<byte>): (r: Option<(Header, seq<byte>)>)
    ensures r.Some? <==> |wire| >= HEADER_SIZE && DecodeHeader(wire).value.length == |wire| - HEADER_SIZE
    ensures r.Some? ==> r.value.1 == wire[HEADER_SIZE..]
    ensures r.Some? ==> EncodeHeader(r.value.0) + r.value.1 == wire
  {
    match DecodeHeader(wire)
    case None => None
    case Some(h) =>
      if h.length == |wire| - HEADER_SIZE then
        EncodeDecodeHeader(wire);
        Some((h, wire[HEADER_SIZE..]))
      else None
  }

  /** The framing round trip: a packet built from a header whose length field
      is the payload's length decodes back to that header and payload. */
  lemma PacketRoundTrip(h: Header, payload: seq<byte>)
    requires h.length == |payload|
    ensures DecodePacket(Packet(EncodeHeader(h), payload).Wire()) == Some((h, payload))
  {
    var wire := EncodeHeader(h) + payload;
    DecodeHeaderPrefix(h, payload);
    assert wire[HEADER_SIZE..] == payload;
  }
}
