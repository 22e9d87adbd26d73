/** The two layers of a tunnel datagram that are plain encodings: the clear header and the inner
    type byte. */
module Datagram {
  import opened Wrappers
  import opened Bytes

  const HEADER_LEN: nat := 16
  const TAG_LEN: nat := 16
  const TYPE_DATA: byte := 1
  const FLAG_EPOCH_OVERLAP: byte := 1

  datatype TunnelError =
    | Short
    | BadType(t: byte)
    | ReservedBits
    | BadInner(t: byte)
    | Trailing(n: nat)
    | Closed
    | UnknownIndex(index: u32)
    | Replay
    | AuthenticationFailed
    | CounterExhausted

  datatype Header = Header(kind: byte, flags: byte, receiverIndex: u32, counter: u64)

  function EncodeHeader(h: Header): (b: seq<byte>)
    ensures |b| == HEADER_LEN
  {
    [h.kind, h.flags, 0, 0] + ToBe(h.receiverIndex, 4) + ToBe(h.counter, 8)
  }

  function DecodeHeader(b: seq<byte>): Result<(Header, seq<byte>), TunnelError> {
    if |b| < HEADER_LEN then Err(Short)
    else if b[0] != TYPE_DATA then Err(BadType(b[0]))
    else if b[2] != 0 || b[3] != 0 || b[1] > FLAG_EPOCH_OVERLAP then Err(ReservedBits)
    else Ok((Header(b[0], b[1], U32(b[4..8]), U64(b[8..16])), b[HEADER_LEN..]))
  }

  lemma HeaderFields(h: Header, body: seq<byte>)
    ensures var b := EncodeHeader(h) + body;
            && b[0] == h.kind && b[1] == h.flags && b[2] == 0 && b[3] == 0
            && U32(b[4..8]) == h.receiverIndex && U64(b[8..16]) == h.counter && b[HEADER_LEN..] == body
  {
    var b := EncodeHeader(h) + body;
    assert b[4..8] == ToBe(h.receiverIndex, 4) && b[8..16] == ToBe(h.counter, 8);
    RoundTrip32(h.receiverIndex);
    RoundTrip64(h.counter);
  }

  /** A header survives the wire exactly when it is a data header with no reserved flag set. */
  lemma HeaderRoundTrip(h: Header, body: seq<byte>)
    ensures DecodeHeader(EncodeHeader(h) + body) == Ok((h, body)) <==>
            h.kind == TYPE_DATA && h.flags <= FLAG_EPOCH_OVERLAP
  {
    HeaderFields(h, body);
  }

  /** Whatever is accepted as a header is the encoding of what was read from it. */
  lemma HeaderCanonical(b: seq<byte>, h: Header, body: seq<byte>)
    requires DecodeHeader(b) == Ok((h, body))
    ensures EncodeHeader(h) + body == b
  {
    PowersOf256();
    ToBeFromBe(b[4..8]);
    ToBeFromBe(b[8..16]);
    assert b == b[..4] + b[4..8] + b[8..16] + b[16..];
    assert b[..4] == [h.kind, h.flags, 0, 0];
  }

  lemma HeaderInjective(g: Header, h: Header)
    requires EncodeHeader(g) == EncodeHeader(h)
    ensures g == h
  {
    HeaderFields(g, []);
    HeaderFields(h, []);
    assert EncodeHeader(g) + [] == EncodeHeader(g) && EncodeHeader(h) + [] == EncodeHeader(h);
  }

  /** The plaintext of a data packet. */
  datatype Inner = IpPacket(packet: seq<byte>) | Control(frame: seq<byte>) | Keepalive

  function EncodeInner(i: Inner): seq<byte> {
    match i
    case IpPacket(p) => [0] + p
    case Control(f) => [1] + f
    case Keepalive => [2]
  }

  function DecodeInner(b: seq<byte>): Result<Inner, TunnelError> {
    if b == [] then Err(Short)
    else if b[0] == 0 then Ok(IpPacket(b[1..]))
    else if b[0] == 1 then Ok(Control(b[1..]))
    else if b[0] == 2 then (if |b| == 1 then Ok(Keepalive) else Err(Trailing(|b| - 1)))
    else Err(BadInner(b[0]))
  }

  lemma InnerRoundTrip(i: Inner)
    ensures DecodeInner(EncodeInner(i)) == Ok(i)
  {
    match i
    case IpPacket(p) => assert ([0] + p)[1..] == p;
    case Control(f) => assert ([1] + f)[1..] == f;
    case Keepalive =>
  }

  lemma InnerCanonical(b: seq<byte>, i: Inner)
    requires DecodeInner(b) == Ok(i)
    ensures EncodeInner(i) == b
  {
    assert b == [b[0]] + b[1..];
  }

  function MaxUdpPayload(overlayMtu: u16): nat {
    HEADER_LEN + 1 + overlayMtu + TAG_LEN
  }
}
