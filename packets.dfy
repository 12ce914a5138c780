/** Packet framing of the Quotes Direct API. Every FAST payload is preceded by
    a 5-byte preamble: a big-endian 32-bit sequence number, then a one-byte
    sub-channel. A UDP datagram is exactly preamble + payload; on TCP the
    preamble is itself preceded by a stop-bit length equal to 5 + payload
    length. The blocking and the asynchronous readers and writers of the
    library share this one wire format, so both are modelled by the members
    here. */
module Packets {
  import opened Wire
  import opened VarUint

  /** A packet as read from UDP or TCP (the UDP payload borrows the datagram,
      the TCP payload is owned; both are a byte sequence here). */
  datatype Packet = Packet(seqNum: u32, subChannel: u8, payload: seq<u8>)

  /** The unsigned value of four bytes, most significant first. */
  function BigEndian32(b: seq<u8>): u32
    requires |b| == 4
  {
    (b[0] as int) * 0x100_0000 + (b[1] as int) * 0x1_0000 + (b[2] as int) * 0x100 + b[3] as int
  }

  /** The preamble bytes: `(seq_num >> 24) as u8`, `(seq_num >> 16) as u8`,
      `(seq_num >> 8) as u8`, `seq_num as u8`, then the sub-channel. */
  function Preamble(seqNum: u32, subChannel: u8): (r: seq<u8>)
    ensures |r| == 5 && r[4] == subChannel
    ensures BigEndian32(r[..4]) == seqNum
  {
    BigEndianOfPreamble(seqNum);
    [seqNum / 0x100_0000 % 0x100, seqNum / 0x1_0000 % 0x100, seqNum / 0x100 % 0x100, seqNum % 0x100, subChannel]
  }

  lemma BigEndianOfPreamble(n: u32)
    ensures BigEndian32([n / 0x100_0000 % 0x100, n / 0x1_0000 % 0x100, n / 0x100 % 0x100, n % 0x100]) == n
  {
    var n1, n2, n3 := n / 0x100, n / 0x1_0000, n / 0x100_0000;
    assert n == n1 * 0x100 + n % 0x100;
    assert n2 == n1 / 0x100;
    assert n1 == n2 * 0x100 + n1 % 0x100;
    assert n3 == n2 / 0x100;
    assert n2 == n3 * 0x100 + n2 % 0x100;
    assert n3 % 0x100 == n3;
  }

  /** Decoding four bytes and writing them back gives the same bytes. */
  lemma PreambleOfBigEndian(b: seq<u8>, subChannel: u8)
    requires |b| == 4
    ensures Preamble(BigEndian32(b), subChannel) == b + [subChannel]
  {
    var n := BigEndian32(b);
    var b0, b1, b2, b3 := b[0] as int, b[1] as int, b[2] as int, b[3] as int;
    var n2 := b0 * 0x100 + b1;
    var n1 := n2 * 0x100 + b2;
    assert n == n1 * 0x100 + b3;
    ByteSplit(n1, b3);
    ByteSplit(n2, b2);
    ByteSplit(b0, b1);
    ShiftTwice(n);
    assert [n / 0x100_0000 % 0x100, n / 0x1_0000 % 0x100, n / 0x100 % 0x100, n % 0x100] == b;
  }

  /** Appending the byte `r` below `q` and shifting it out again. */
  lemma ByteSplit(q: nat, r: nat)
    requires r < 0x100
    ensures (q * 0x100 + r) / 0x100 == q && (q * 0x100 + r) % 0x100 == r
  {
  }

  /** Shifting right by 16 or 24 bits is shifting by 8 bits two or three
      times. */
  lemma ShiftTwice(n: nat)
    ensures n / 0x1_0000 == n / 0x100 / 0x100
    ensures n / 0x100_0000 == n / 0x100 / 0x100 / 0x100
  {
  }

  /** `UDPPacket::read`: a datagram shorter than the preamble is rejected with
      its length; otherwise the preamble is decoded and the rest is the
      payload. */
  function ReadUdp(buffer: seq<u8>): (r: Result<Packet, Error>)
    ensures r.Err? <==> |buffer| < 5
    ensures r.Err? ==> r.error == InvalidPacketLength(|buffer|)
    ensures r.Ok? ==> Preamble(r.value.seqNum, r.value.subChannel) + r.value.payload == buffer
    ensures r.Ok? ==> |r.value.payload| == |buffer| - 5
  {
    if |buffer| < 5 then
      Err(InvalidPacketLength(|buffer|))
    else
      PreambleOfBigEndian(buffer[..4], buffer[4]);
      assert buffer[..4] + [buffer[4]] + buffer[5..] == buffer;
      Ok(Packet(BigEndian32(buffer[..4]), buffer[4], buffer[5..]))
  }

  /** A datagram made of a preamble and a payload reads back as that packet;
      a bare preamble gives an empty payload. */
  lemma UdpRoundTrip(seqNum: u32, subChannel: u8, payload: seq<u8>)
    ensures ReadUdp(Preamble(seqNum, subChannel) + payload) == Ok(Packet(seqNum, subChannel, payload))
  {
    var buffer := Preamble(seqNum, subChannel) + payload;
    assert buffer[..4] == Preamble(seqNum, subChannel)[..4];
    assert buffer[5..] == payload;
  }

  /** The bytes `TCPPacket::write` emits: the length 5 + payload length as a
      stop-bit integer, the preamble, the payload. */
  function Frame(p: Packet): (r: seq<u8>)
    requires 5 + |p.payload| < U64_LIMIT
    ensures |r| == |Encode(5 + |p.payload|)| + 5 + |p.payload|
  {
    Encode(5 + |p.payload|) + Preamble(p.seqNum, p.subChannel) + p.payload
  }

  /** What `TCPPacket::read` makes of a stream holding `s`: end of stream when
      the length cannot even start, `InvalidPacketLength` for a length below
      5, otherwise exactly 5 preamble bytes and `len - 5` payload bytes. */
  function ParseTcp(s: seq<u8>): (p: Parsed<Packet>)
    ensures p.Eof? <==> s == []
    ensures p.Got? ==> |p.rest| < |s|
  {
    match ParseVarUint(s)
    case Eof => Eof
    case Fail(e, rest) => Fail(e, rest)
    case Got(len, rest) =>
      if len < 5 then Fail(InvalidPacketLength(len), rest)
      else if |rest| < 5 then Fail(Io(UnexpectedEof), [])
      else if |rest| - 5 < len - 5 then Fail(Io(UnexpectedEof), [])
      else Got(Packet(BigEndian32(rest[..4]), rest[4], rest[5..len]), rest[len..])
  }

  /** A length field below the preamble size is refused with that length, and
      the stream is left just after the length field. */
  lemma ShortLengthRejected(len: u64, rest: seq<u8>)
    requires len < 5
    ensures ParseTcp(Encode(len) + rest) == Fail(InvalidPacketLength(len), rest)
  {
    VarUintRoundTrip(len, rest);
  }

  /** A frame whose payload is cut short is an I/O error, not end of stream. */
  lemma TruncatedFrameIsError(p: Packet, k: nat)
    requires 5 + |p.payload| < U64_LIMIT
    requires |Encode(5 + |p.payload|)| <= k < |Frame(p)|
    ensures ParseTcp(Frame(p)[..k]) == Fail(Io(UnexpectedEof), [])
  {
    var len := 5 + |p.payload|;
    var e := Encode(len);
    var f := Frame(p);
    var tail := f[|e|..k];
    assert f[..k] == e + tail;
    assert |tail| < len;
    VarUintRoundTrip(len, tail);
    assert ParseVarUint(f[..k]) == Got(len, tail);
  }

  /** Reading a frame back gives the packet that was written, and consumes
      exactly the frame. */
  lemma {:induction false} TcpRoundTrip(p: Packet, rest: seq<u8>)
    requires 5 + |p.payload| < U64_LIMIT
    ensures ParseTcp(Frame(p) + rest) == Got(p, rest)
  {
    var len := 5 + |p.payload|;
    var pre := Preamble(p.seqNum, p.subChannel);
    var after := pre + p.payload + rest;
    assert Frame(p) + rest == Encode(len) + after;
    VarUintRoundTrip(len, after);
    assert after[..4] == pre[..4];
    assert after[5..len] == p.payload;
    assert after[len..] == rest;
  }

  /** `TCPPacket::read` on a blocking or asynchronous stream. */
  method ReadTcp(input: InputStream) returns (r: Result<Option<Packet>, Error>)
    modifies input
    ensures Yields(ParseTcp(old(input.rest)), r, input.rest)
  {
    ghost var s := input.rest;
    var lenRead := ReadVarUint(input);
    ghost var pv := ParseVarUint(s);
    if lenRead.Err? {
      return Err(lenRead.error);
    }
    if lenRead.value.None? {
      return Ok(None);
    }
    var len := lenRead.value.value;
    ghost var after := input.rest;
    assert pv == Got(len, after);
    if len < 5 {
      return Err(InvalidPacketLength(len));
    }
    var preamble := input.ReadExact(5);
    if preamble.Err? {
      assert ParseTcp(s) == Fail(Io(UnexpectedEof), []);
      return Err(Io(preamble.error));
    }
    var payload := input.ReadExact(len - 5);
    if payload.Err? {
      assert ParseTcp(s) == Fail(Io(UnexpectedEof), []);
      return Err(Io(payload.error));
    }
    assert after == preamble.value + payload.value + input.rest;
    assert after[5..len] == payload.value && after[..4] == preamble.value[..4];
    assert after[len..] == input.rest;
    r := Ok(Some(Packet(BigEndian32(preamble.value[..4]), preamble.value[4], payload.value)));
  }

  /** `TCPPacket::write`: length, preamble and payload in three writes. When
      one of them fails the bytes of the earlier ones stay written. The
      packet itself is a value and is not changed. */
  method WriteTcp(packet: Packet, output: OutputStream) returns (r: Result<(), Error>)
    requires 5 + |packet.payload| < U64_LIMIT
    modifies output
    ensures r.Ok? <==> |Frame(packet)| <= old(output.capacity)
    ensures r.Ok? ==> output.data == old(output.data) + Frame(packet)
    ensures r.Err? ==> r.error == Io(BrokenPipe)
    ensures r.Err? ==> old(output.data) <= output.data < old(output.data) + Frame(packet)
  {
    var len := 5 + |packet.payload|;
    var w := WriteVarUint(output, len);
    if w.Err? {
      return w;
    }
    var w2 := output.WriteAll(Preamble(packet.seqNum, packet.subChannel));
    if w2.Err? {
      return Err(Io(w2.error));
    }
    var w3 := output.WriteAll(packet.payload);
    if w3.Err? {
      return Err(Io(w3.error));
    }
    r := Ok(());
  }
}
