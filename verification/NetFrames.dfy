/**
  The frame codec of the coop network, and the uncut reading of a byte stream
  as frames.
 */
module NetFrames {

  type Byte = b: int | 0 <= b < 0x100
  type Bytes = seq<Byte>
  type U16 = n: int | 0 <= n < 0x1_0000

  const FRAME_VERSION: Byte := 1
  const HEADER_LEN := 8
  const MAX_RELIABLE_MESSAGE := 65535

  datatype Decoded =
    | Frame(kind: Byte, peer: U16, data: Bytes, used: nat)
    | Incomplete
    | Invalid

  function U16Bytes(n: U16): Bytes {
    [n / 0x100, n % 0x100]
  }

  /** Big-endian bytes of `length as u32`, which keeps the low 32 bits. */
  function U32Bytes(length: nat): Bytes {
    var n := length % 0x1_0000_0000;
    [n / 0x100 / 0x100 / 0x100, n / 0x100 / 0x100 % 0x100, n / 0x100 % 0x100, n % 0x100]
  }

  function FromU16(a: int, b: int): int {
    a * 0x100 + b
  }

  function FromU32(a: int, b: int, c: int, d: int): int {
    ((a * 0x100 + b) * 0x100 + c) * 0x100 + d
  }

  /** The layout of a frame on the wire. */
  function Wire(kind: Byte, peer: U16, data: Bytes): Bytes {
    [FRAME_VERSION, kind] + U16Bytes(peer) + U32Bytes(|data|) + data
  }

  method Encode(kind: Byte, peer: U16, data: Bytes) returns (out: Bytes)
    ensures out == Wire(kind, peer, data)
  {
    out := [];
    out := out + [FRAME_VERSION];
    out := out + [kind];
    out := out + U16Bytes(peer);
    out := out + U32Bytes(|data|);
    out := out + data;
  }

  function Decode(buf: Bytes): Decoded {
    if |buf| < HEADER_LEN then Incomplete
    else if buf[0] != FRAME_VERSION then Invalid
    else
      var length := FromU32(buf[4], buf[5], buf[6], buf[7]);
      if length > MAX_RELIABLE_MESSAGE then Invalid
      else if |buf| < HEADER_LEN + length then Incomplete
      else Frame(buf[1], FromU16(buf[2], buf[3]), buf[HEADER_LEN..HEADER_LEN + length], HEADER_LEN + length)
  }

  // ---------- The layout ----------

  /** The number some bytes stand for, the most significant first. */
  function BigEndian(bytes: Bytes): nat {
    if bytes == [] then 0 else BigEndian(bytes[..|bytes| - 1]) * 0x100 + bytes[|bytes| - 1]
  }

  /** Version, kind, then peer and length in network order, then the data. */
  lemma HeaderLayout(kind: Byte, peer: U16, data: Bytes)
    ensures var wire := Wire(kind, peer, data);
      && |wire| == 8 + |data|
      && wire[0] == 1 && wire[1] == kind
      && BigEndian(wire[2..4]) == peer
      && BigEndian(wire[4..8]) == |data| % 0x1_0000_0000
      && wire[8..] == data
  {
    var wire := Wire(kind, peer, data);
    BigEndianOfFour(0, 0, wire[2], wire[3]);
    BigEndianOfFour(wire[4], wire[5], wire[6], wire[7]);
    assert wire[2..4] == U16Bytes(peer) && wire[4..8] == U32Bytes(|data|);
    LengthSurvives(|data|);
  }

  lemma BigEndianOfFour(a: Byte, b: Byte, c: Byte, d: Byte)
    ensures BigEndian([c, d]) == FromU16(c, d) && BigEndian([a, b, c, d]) == FromU32(a, b, c, d)
  {
    var four := [a, b, c, d];
    assert four[..3] == [a, b, c] && four[..3][..2] == [a, b] && [a, b][..1] == [a] && [a][..0] == [];
    assert [c, d][..1] == [c] && [c][..0] == [];
    assert BigEndian([a]) == a && BigEndian([c]) == c;
    assert BigEndian([a, b]) == a * 0x100 + b;
  }

  // ---------- Encode and decode are inverse ----------

  lemma LengthSurvives(length: nat)
    ensures var b := U32Bytes(length); FromU32(b[0], b[1], b[2], b[3]) == length % 0x1_0000_0000
  {
  }

  /**
    A frame decodes to what was encoded, whatever follows it, exactly when its
    data is no longer than a reliable message may be.
   */
  lemma DecodeInvertsEncode(kind: Byte, peer: U16, data: Bytes, rest: Bytes)
    ensures Decode(Wire(kind, peer, data) + rest) == Frame(kind, peer, data, 8 + |data|)
       <==> |data| <= 65_535
  {
    LengthSurvives(|data|);
    var buf := Wire(kind, peer, data) + rest;
    assert buf[4..8] == U32Bytes(|data|);
    if |data| <= MAX_RELIABLE_MESSAGE {
      assert buf[HEADER_LEN..HEADER_LEN + |data|] == data;
    }
  }

  /** The bytes a decoded frame used are the encoding of what it decoded to. */
  lemma EncodeInvertsDecode(buf: Bytes)
    requires Decode(buf).Frame?
    ensures var f := Decode(buf);
      && |f.data| <= MAX_RELIABLE_MESSAGE && f.used == HEADER_LEN + |f.data| <= |buf|
      && Wire(f.kind, f.peer, f.data) == buf[..f.used]
  {
    hide FromU16, FromU32, U16Bytes, U32Bytes;
    var f := Decode(buf);
    PeerRebuilds(buf[2], buf[3]);
    HeaderRebuilds(buf[4], buf[5], buf[6], buf[7]);
    assert U16Bytes(f.peer) == buf[2..4];
    assert U32Bytes(|f.data|) == buf[4..8];
    assert buf[..f.used] == buf[..2] + buf[2..4] + buf[4..8] + buf[8..f.used];
  }

  lemma PeerRebuilds(a: Byte, b: Byte)
    ensures 0 <= FromU16(a, b) < 0x1_0000 && U16Bytes(FromU16(a, b)) == [a, b]
  {
    LastByte(a, b);
  }

  lemma HeaderRebuilds(a: Byte, b: Byte, c: Byte, d: Byte)
    ensures FromU32(a, b, c, d) >= 0 && U32Bytes(FromU32(a, b, c, d)) == [a, b, c, d]
  {
    var n := FromU32(a, b, c, d);
    assert n % 0x1_0000_0000 == n;
    LastByte((a * 0x100 + b) * 0x100 + c, d);
    LastByte(a * 0x100 + b, c);
    LastByte(a, b);
  }

  lemma LastByte(high: nat, low: Byte)
    ensures (high * 0x100 + low) / 0x100 == high && (high * 0x100 + low) % 0x100 == low
  {
  }

  /** Once a buffer shows a frame or an error, more bytes do not change that. */
  lemma VerdictIsStable(buf: Bytes, more: Bytes)
    requires !Decode(buf).Incomplete?
    ensures Decode(buf + more) == Decode(buf)
  {
    if Decode(buf).Frame? {
      var end := Decode(buf).used;
      assert (buf + more)[HEADER_LEN..end] == buf[HEADER_LEN..end];
    }
  }

  /** No frame is the beginning of a different one. */
  lemma FramesAreAPrefixCode(kind: Byte, peer: U16, data: Bytes, kind': Byte, peer': U16, data': Bytes)
    requires |data| <= MAX_RELIABLE_MESSAGE && |data'| <= MAX_RELIABLE_MESSAGE
    requires Wire(kind, peer, data) <= Wire(kind', peer', data')
    ensures kind == kind' && peer == peer' && data == data'
  {
    var whole := Wire(kind', peer', data');
    var rest := whole[|Wire(kind, peer, data)|..];
    assert whole == Wire(kind, peer, data) + rest && whole == whole + [];
    DecodeInvertsEncode(kind, peer, data, rest);
    DecodeInvertsEncode(kind', peer', data', []);
  }

  /** What is left once no whole frame remains is shorter than the longest frame. */
  lemma LeftoverIsShort(buf: Bytes)
    requires Decode(buf).Incomplete?
    ensures |buf| < HEADER_LEN + MAX_RELIABLE_MESSAGE
  {
  }

  // ---------- Reading a whole stream ----------

  datatype Packet = Packet(kind: Byte, peer: U16, data: Bytes)

  /** A stream read to its end: its frames, what is left over, and whether that is no frame at all. */
  datatype Unframed = Unframed(packets: seq<Packet>, rest: Bytes, invalid: bool)

  function Unframe(stream: Bytes): Unframed
    decreases |stream|
  {
    match Decode(stream)
    case Frame(kind, peer, data, used) =>
      var later := Unframe(stream[used..]);
      later.(packets := [Packet(kind, peer, data)] + later.packets)
    case Incomplete => Unframed([], stream, false)
    case Invalid => Unframed([], stream, true)
  }

  function WireAll(packets: seq<Packet>): Bytes {
    if packets == [] then [] else Wire(packets[0].kind, packets[0].peer, packets[0].data) + WireAll(packets[1..])
  }

  /** A stream is its frames one after the other, then the rest. */
  lemma {:induction false} UnframeLosesNothing(stream: Bytes)
    ensures WireAll(Unframe(stream).packets) + Unframe(stream).rest == stream
    decreases |stream|
  {
    hide Decode, Wire;
    var d := Decode(stream);
    if d.Frame? {
      EncodeInvertsDecode(stream);
      UnframeLosesNothing(stream[d.used..]);
      var later := Unframe(stream[d.used..]);
      assert Unframe(stream).packets[1..] == later.packets;
      assert stream == stream[..d.used] + stream[d.used..];
    }
  }

  /** Frames sent back to back are read back as they were sent. */
  lemma {:induction false} UnframeInvertsWireAll(packets: seq<Packet>)
    requires forall p :: p in packets ==> |p.data| <= MAX_RELIABLE_MESSAGE
    ensures Unframe(WireAll(packets)) == Unframed(packets, [], false)
  {
    if packets != [] {
      var p, later := packets[0], WireAll(packets[1..]);
      DecodeInvertsEncode(p.kind, p.peer, p.data, later);
      assert WireAll(packets)[HEADER_LEN + |p.data|..] == later;
      UnframeInvertsWireAll(packets[1..]);
    }
  }
}
