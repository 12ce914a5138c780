/** The security-definition session (`SDSConnection`): a TCP stream or a
    recorded file of TCP frames, a FAST decoder, the next packet and message
    sequence numbers it expects to receive, the sequence number of the next
    FIX message it sends, and the part of the last packet not decoded yet.

    A sequence number that differs from the expected one is logged and the
    counter is resynchronised past it; it never fails a read. */
module Connection {
  import opened Wire
  import opened Packets
  import opened Fast
  import Fix

  /** Where the frames come from. Only a TCP source can be written to. */
  datatype DataSource =
    | Tcp(input: InputStream, output: OutputStream)
    | File(input: InputStream)

  datatype SessionError =
    | NotOpened                        // the TCP connection or the file could not be opened
    | SourceNotInitialized             // a read before `connect` or `read_file`
    | Transport(failure: Error)        // framing or I/O error while reading a packet
    | Decode(reason: DecodeError)      // the FAST decoder refused the buffer
    | UnexpectedMessage(msg: Message)  // a decoded message the session does not expect
    | WriteFailed(kind: IoError)       // a FIX message could not be written

  /** Heartbeat interval, in seconds, announced at logon. */
  const HEART_BT_INT: u32 := 60

  /** The counter after a number `got` was received while `expected` was
      expected. On a mismatch it is first set to `got + 1` and then, like in
      the matching case, incremented: so it lands on `got + 2`. */
  function NextExpected(expected: nat, got: u32): (n: nat)
    ensures n == got + 1 <==> got == expected
    ensures got != expected ==> n == got + 2
  {
    (if got != expected then got + 1 else expected) + 1
  }

  // ---------------------------------------------------------------------
  // Sequence-number traces

  /** The counter after the numbers `got` arrived in this order. */
  function Track(expected: nat, got: seq<u32>): nat
    decreases |got|
  {
    if got == [] then expected else Track(NextExpected(expected, got[0]), got[1..])
  }

  /** The received numbers that were logged as mismatches, in order. */
  function Reported(expected: nat, got: seq<u32>): seq<u32>
    decreases |got|
  {
    if got == [] then []
    else (if got[0] != expected then [got[0]] else []) + Reported(NextExpected(expected, got[0]), got[1..])
  }

  /** `got` counts up by one from `first`. */
  predicate Consecutive(first: nat, got: seq<u32>)
  {
    forall i :: 0 <= i < |got| ==> got[i] == first + i
  }

  /** Numbers that arrive in order are never reported, and the counter moves
      past the last of them. */
  lemma {:induction false} InOrderNotReported(expected: nat, got: seq<u32>)
    requires Consecutive(expected, got)
    ensures Track(expected, got) == expected + |got|
    ensures Reported(expected, got) == []
    decreases |got|
  {
    if got != [] {
      assert NextExpected(expected, got[0]) == expected + 1;
      assert Consecutive(expected + 1, got[1..]) by {
        forall i | 0 <= i < |got| - 1
          ensures got[1..][i] == expected + 1 + i
        {
          assert got[1..][i] == got[i + 1];
        }
      }
      InOrderNotReported(expected + 1, got[1..]);
    }
  }

  /** After a number `s` other than the expected one, the session expects
      `s + 2`, not `s + 1`: the number right after `s` is reported as a
      mismatch too. Only a stream that goes on at `s + 2`, skipping `s + 1`,
      is in order again; `StaysOff` states what happens to one that does not. */
  lemma ResyncAfterGap(expected: nat, s: u32, rest: seq<u32>)
    requires s != expected
    requires Consecutive(s + 2, rest)
    ensures Track(expected, [s] + rest) == s + 2 + |rest|
    ensures Reported(expected, [s] + rest) == [s]
    ensures s + 1 < U32_LIMIT ==> Reported(expected, [s, s + 1]) == [s, s + 1]
  {
    assert ([s] + rest)[1..] == rest;
    InOrderNotReported(s + 2, rest);
    if s + 1 < U32_LIMIT {
      assert [s, s + 1][1..] == [s + 1];
      assert NextExpected(s + 2, s + 1) == s + 3;
      assert Reported(s + 2, [s + 1]) == [s + 1] + Reported(s + 3, []);
    }
  }

  /** A gap followed by a stream without further gaps: every number from the
      gap on is reported, and the counter stays one ahead of the stream for
      good. */
  lemma {:induction false} StaysOff(expected: nat, got: seq<u32>)
    requires got != [] && got[0] != expected && Consecutive(got[0], got)
    ensures Reported(expected, got) == got
    ensures Track(expected, got) == got[0] + |got| + 1
    decreases |got|
  {
    var n := NextExpected(expected, got[0]);
    if |got| > 1 {
      assert got[1] as int == got[0] as int + 1;
      assert Consecutive(got[1..][0], got[1..]) by {
        forall i | 0 <= i < |got| - 1
          ensures got[1..][i] == got[1..][0] + i
        {
          assert got[1..][i] == got[i + 1];
        }
      }
      StaysOff(n, got[1..]);
      assert got == [got[0]] + got[1..];
    }
  }

  /** The reset the code evidently intends: after `got`, expect `got + 1`.
      It agrees with `NextExpected` on a match and is one below it after a
      mismatch. */
  function Resync(expected: nat, got: u32): (n: nat)
    ensures got == expected ==> n == NextExpected(expected, got)
    ensures got != expected ==> n + 1 == NextExpected(expected, got)
  {
    got + 1
  }

  /** `Track` and `Reported` under the intended reset. */
  function TrackIntended(expected: nat, got: seq<u32>): nat
    decreases |got|
  {
    if got == [] then expected else TrackIntended(Resync(expected, got[0]), got[1..])
  }

  function ReportedIntended(expected: nat, got: seq<u32>): seq<u32>
    decreases |got|
  {
    if got == [] then []
    else (if got[0] != expected then [got[0]] else []) + ReportedIntended(Resync(expected, got[0]), got[1..])
  }

  /** Under the intended reset a stream without further gaps is reported at
      most once, at its first number, and the counter is back in step after
      it. */
  lemma {:induction false} CatchesUp(expected: nat, got: seq<u32>)
    requires got != [] && Consecutive(got[0], got)
    ensures ReportedIntended(expected, got) == if got[0] != expected then [got[0]] else []
    ensures TrackIntended(expected, got) == got[0] + |got|
    decreases |got|
  {
    if |got| > 1 {
      assert Consecutive(got[1..][0], got[1..]) by {
        forall i | 0 <= i < |got| - 1
          ensures got[1..][i] == got[1..][0] + i
        {
          assert got[1..][i] == got[i + 1];
        }
      }
      CatchesUp(Resync(expected, got[0]), got[1..]);
    }
  }

  /** Packets 5, 6, 7, 8 while 1 is expected: as written all four are
      reported; under the intended reset only 5 is. */
  lemma GapExample()
    ensures Reported(1, [5, 6, 7, 8]) == [5, 6, 7, 8] && Track(1, [5, 6, 7, 8]) == 10
    ensures ReportedIntended(1, [5, 6, 7, 8]) == [5] && TrackIntended(1, [5, 6, 7, 8]) == 9
  {
    var got: seq<u32> := [5, 6, 7, 8];
    assert Consecutive(5, got);
    StaysOff(1, got);
    CatchesUp(1, got);
  }

  /** Packets 1, 2, 5, 6 from a fresh session: 5 and 6 are both reported and
      the session then expects 8. */
  lemma ResyncExample()
    ensures Track(1, [1, 2, 5, 6]) == 8
    ensures Reported(1, [1, 2, 5, 6]) == [5, 6]
  {
    var got: seq<u32> := [1, 2, 5, 6];
    assert got[1..] == [2, 5, 6] && got[2..] == [5, 6] && got[3..] == [6];
    assert [2, 5, 6][1..] == [5, 6];
    assert [5, 6][1..] == [6];
    assert [6][1..] == [];
  }

  // ---------------------------------------------------------------------
  // Reading, as a function of the session's state

  /** What a read depends on and changes: the two receive counters, the
      undecoded rest of the last packet, the decoder state and the bytes the
      source will still deliver (`None` when there is no source). */
  datatype Reader = Reader(inSeqNumPkt: nat, inSeqNumMsg: nat, buff: seq<u8>,
                           state: DecoderState, unread: Option<seq<u8>>)

  datatype Step = Step(next: Reader, result: Result<Option<Message>, SessionError>)

  /** `read_message`: a new packet is read only when the buffer is empty; its
      sequence number is checked and its payload becomes the buffer. Then one
      message is decoded from the buffer. */
  function ReadStep(decode: Decoder, s: Reader): Step
  {
    if s.buff != [] then DecodeStep(decode, s)
    else match s.unread
      case None => Step(s, Err(SourceNotInitialized))
      case Some(u) =>
        match ParseTcp(u)
        case Eof => Step(s, Ok(None))
        case Fail(e, rest) => Step(s.(unread := Some(rest)), Err(Transport(e)))
        case Got(p, rest) =>
          DecodeStep(decode, s.(inSeqNumPkt := NextExpected(s.inSeqNumPkt, p.seqNum),
                                buff := p.payload, unread := Some(rest)))
  }

  /** Decoding one message from the buffer and checking its kind and its
      sequence number. */
  function DecodeStep(decode: Decoder, s: Reader): Step
  {
    var d := decode(s.state, s.buff);
    var t := s.(buff := d.rest, state := d.state);
    match d.result
    case Err(e) => Step(t, Err(Decode(e)))
    case Ok(m) =>
      if !IsSdsMessage(m) then Step(t, Err(UnexpectedMessage(m)))
      else Step(t.(inSeqNumMsg := NextExpected(s.inSeqNumMsg, m.header.msgSeqNum)), Ok(Some(m)))
  }

  /** With nothing buffered, a packet read from the source is checked and
      its payload decoded. */
  lemma PacketStep(decode: Decoder, s: Reader, p: Packet, rest: seq<u8>)
    requires s.buff == [] && s.unread.Some? && ParseTcp(s.unread.value) == Got(p, rest)
    ensures ReadStep(decode, s)
            == DecodeStep(decode, s.(inSeqNumPkt := NextExpected(s.inSeqNumPkt, p.seqNum),
                                     buff := p.payload, unread := Some(rest)))
  {
  }

  /** Without a buffered rest and without a source a read fails; at the end
      of the source it reports no message and changes nothing. */
  lemma ReadWithoutPacket(decode: Decoder, s: Reader)
    requires s.buff == []
    ensures s.unread.None? ==> ReadStep(decode, s) == Step(s, Err(SourceNotInitialized))
    ensures s.unread == Some([]) ==> ReadStep(decode, s) == Step(s, Ok(None))
  {
    if s.unread == Some([]) {
      assert ParseTcp([]) == Eof;
    }
  }

  /** While the buffer holds the rest of a packet, a read takes nothing from
      the source and leaves the packet counter alone. */
  lemma BufferedReadSkipsSource(decode: Decoder, s: Reader)
    requires s.buff != []
    ensures ReadStep(decode, s).next.unread == s.unread
    ensures ReadStep(decode, s).next.inSeqNumPkt == s.inSeqNumPkt
  {
  }

  /** A packet read from the source moves the packet counter by the resync
      rule, whatever then happens to the decoding; a framing error leaves both
      counters and the decoder alone. */
  lemma PacketCheck(decode: Decoder, s: Reader, u: seq<u8>)
    requires s.buff == [] && s.unread == Some(u)
    ensures ParseTcp(u).Got? ==>
              ReadStep(decode, s).next.inSeqNumPkt == NextExpected(s.inSeqNumPkt, ParseTcp(u).value.seqNum)
              && ReadStep(decode, s).next.unread == Some(ParseTcp(u).rest)
    ensures ParseTcp(u).Fail? ==>
              ReadStep(decode, s) == Step(s.(unread := Some(ParseTcp(u).rest)), Err(Transport(ParseTcp(u).error)))
  {
  }

  /** A read returns only messages the session expects, and moves the message
      counter by the resync rule on exactly those; a mismatch alone never
      fails the read. A refused or undecodable message leaves the message
      counter alone. */
  lemma MessageCheck(decode: Decoder, s: Reader)
    ensures var st := ReadStep(decode, s);
            st.result.Ok? && st.result.value.Some? ==>
              IsSdsMessage(st.result.value.value)
              && st.next.inSeqNumMsg == NextExpected(s.inSeqNumMsg, st.result.value.value.header.msgSeqNum)
    ensures var st := ReadStep(decode, s);
            st.result.Err? ==> st.next.inSeqNumMsg == s.inSeqNumMsg
    ensures s.buff != [] && decode(s.state, s.buff).result.Ok? && IsSdsMessage(decode(s.state, s.buff).result.value) ==>
              ReadStep(decode, s).result == Ok(Some(decode(s.state, s.buff).result.value))
  {
  }

  // ---------------------------------------------------------------------
  // The connection object

  class SDSConnection {
    var source: Option<DataSource>
    const decode: Decoder
    var state: DecoderState
    var inSeqNumPkt: nat
    var inSeqNumMsg: nat
    var outSeqNum: u32
    var buff: seq<u8>

    /** The streams the source owns. */
    function Streams(): set<object>
      reads this
    {
      match source
      case None => {}
      case Some(Tcp(i, o)) => {i, o}
      case Some(File(i)) => {i}
    }

    function Inputs(): set<object>
      reads this
    {
      if source.None? then {} else {source.value.input}
    }

    function Outputs(): set<object>
      reads this
    {
      if IsTcp() then {source.value.output} else {}
    }

    predicate IsTcp()
      reads this
    {
      source.Some? && source.value.Tcp?
    }

    /** The part of the state a read works on. */
    function Reading(): Reader
      reads this, Inputs()
    {
      Reader(inSeqNumPkt, inSeqNumMsg, buff, state,
             if source.None? then None else Some(source.value.input.rest))
    }

    /** `SDSConnection::new`: no source, all counters at 1, empty buffer, a
        decoder built from the message templates. */
    constructor (decode: Decoder)
      ensures source.None? && inSeqNumPkt == 1 && inSeqNumMsg == 1 && outSeqNum == 1
      ensures buff == [] && state == INITIAL_STATE && this.decode == decode
    {
      source := None;
      this.decode := decode;
      state := INITIAL_STATE;
      inSeqNumPkt := 1;
      inSeqNumMsg := 1;
      outSeqNum := 1;
      buff := [];
    }

    /** `connect`: the stream pair of an established TCP connection, or
        `None` when it could not be established. */
    method Connect(stream: Option<(InputStream, OutputStream)>) returns (r: Result<(), SessionError>)
      modifies this
      ensures stream.None? ==> r == Err(NotOpened) && source == old(source)
      ensures stream.Some? ==> r == Ok(()) && source == Some(Tcp(stream.value.0, stream.value.1))
      ensures buff == old(buff) && state == old(state) && outSeqNum == old(outSeqNum)
      ensures inSeqNumPkt == old(inSeqNumPkt) && inSeqNumMsg == old(inSeqNumMsg)
    {
      if stream.None? {
        return Err(NotOpened);
      }
      source := Some(Tcp(stream.value.0, stream.value.1));
      r := Ok(());
    }

    /** `read_file`: the reader of an opened file, or `None` when it could not
        be opened. */
    method ReadFile(file: Option<InputStream>) returns (r: Result<(), SessionError>)
      modifies this
      ensures file.None? ==> r == Err(NotOpened) && source == old(source)
      ensures file.Some? ==> r == Ok(()) && source == Some(File(file.value))
      ensures buff == old(buff) && state == old(state) && outSeqNum == old(outSeqNum)
      ensures inSeqNumPkt == old(inSeqNumPkt) && inSeqNumMsg == old(inSeqNumMsg)
    {
      if file.None? {
        return Err(NotOpened);
      }
      source := Some(File(file.value));
      r := Ok(());
    }

    /** Writes `msg` on a TCP source and moves `outSeqNum` on; on any other
        source nothing is sent. */
    method Send(msg: seq<u8>) returns (r: Result<(), SessionError>)
      requires IsTcp() ==> outSeqNum + 1 < U32_LIMIT
      modifies this, Outputs()
      ensures source == old(source) && Reading() == old(Reading())
      ensures !IsTcp() ==> r == Ok(()) && outSeqNum == old(outSeqNum)
      ensures old(IsTcp()) ==>
                (r.Ok? <==> |msg| <= old(source.value.output.capacity))
                && (r.Ok? ==> source.value.output.data == old(source.value.output.data) + msg
                              && outSeqNum == old(outSeqNum) + 1)
                && (r.Err? ==> r == Err(WriteFailed(BrokenPipe))
                               && source.value.output.data == old(source.value.output.data)
                               && outSeqNum == old(outSeqNum))
    {
      if IsTcp() {
        var w := source.value.output.WriteAll(msg);
        if w.Err? {
          return Err(WriteFailed(w.error));
        }
        outSeqNum := outSeqNum + 1;
      }
      r := Ok(());
    }

    /** `login`: a FIX logon with the current outgoing number. */
    method Login(user: seq<u8>, password: seq<u8>, sendingTime: seq<u8>) returns (r: Result<(), SessionError>)
      requires IsTcp() ==> outSeqNum + 1 < U32_LIMIT
      modifies this, Outputs()
      ensures source == old(source) && Reading() == old(Reading())
      ensures !IsTcp() ==> r == Ok(()) && outSeqNum == old(outSeqNum)
      ensures old(IsTcp()) ==>
                var msg := Fix.Login(old(outSeqNum), user, password, HEART_BT_INT, sendingTime);
                (r.Ok? <==> |msg| <= old(source.value.output.capacity))
                && (r.Ok? ==> source.value.output.data == old(source.value.output.data) + msg
                              && outSeqNum == old(outSeqNum) + 1)
                && (r.Err? ==> r == Err(WriteFailed(BrokenPipe))
                               && source.value.output.data == old(source.value.output.data)
                               && outSeqNum == old(outSeqNum))
    {
      r := Send(Fix.Login(outSeqNum, user, password, HEART_BT_INT, sendingTime));
    }

    /** `request`: a FIX security-definition request for one feed. */
    method Request(feedId: u32, sendingTime: seq<u8>) returns (r: Result<(), SessionError>)
      requires IsTcp() ==> outSeqNum + 1 < U32_LIMIT
      modifies this, Outputs()
      ensures source == old(source) && Reading() == old(Reading())
      ensures !IsTcp() ==> r == Ok(()) && outSeqNum == old(outSeqNum)
      ensures old(IsTcp()) ==>
                var msg := Fix.Request(old(outSeqNum), feedId, sendingTime);
                (r.Ok? <==> |msg| <= old(source.value.output.capacity))
                && (r.Ok? ==> source.value.output.data == old(source.value.output.data) + msg
                              && outSeqNum == old(outSeqNum) + 1)
                && (r.Err? ==> r == Err(WriteFailed(BrokenPipe))
                               && source.value.output.data == old(source.value.output.data)
                               && outSeqNum == old(outSeqNum))
    {
      r := Send(Fix.Request(outSeqNum, feedId, sendingTime));
    }

    /** `logout`: a FIX logout with the text `Logout`. */
    method Logout(sendingTime: seq<u8>) returns (r: Result<(), SessionError>)
      requires IsTcp() ==> outSeqNum + 1 < U32_LIMIT
      modifies this, Outputs()
      ensures source == old(source) && Reading() == old(Reading())
      ensures !IsTcp() ==> r == Ok(()) && outSeqNum == old(outSeqNum)
      ensures old(IsTcp()) ==>
                var msg := Fix.Logout(old(outSeqNum), Fix.Ascii("Logout"), sendingTime);
                (r.Ok? <==> |msg| <= old(source.value.output.capacity))
                && (r.Ok? ==> source.value.output.data == old(source.value.output.data) + msg
                              && outSeqNum == old(outSeqNum) + 1)
                && (r.Err? ==> r == Err(WriteFailed(BrokenPipe))
                               && source.value.output.data == old(source.value.output.data)
                               && outSeqNum == old(outSeqNum))
    {
      r := Send(Fix.Logout(outSeqNum, Fix.Ascii("Logout"), sendingTime));
    }

    /** `read_message`: one message, `None` at the end of the source. */
    method ReadMessage() returns (r: Result<Option<Message>, SessionError>)
      modifies this, Inputs()
      ensures Step(Reading(), r) == ReadStep(decode, old(Reading()))
      ensures source == old(source) && outSeqNum == old(outSeqNum)
    {
      if |buff| == 0 {
        var stop := NextPacket();
        if stop.Some? {
          return stop.value;
        }
      }
      r := DecodeMessage();
    }

    /** The packet half of `read_message`, with nothing buffered: either the
        read ends here with the result in `stop`, or the next packet has been
        checked and its payload is now the buffer to decode. */
    method NextPacket() returns (stop: Option<Result<Option<Message>, SessionError>>)
      requires buff == []
      modifies this, Inputs()
      ensures stop.Some? ==> Step(Reading(), stop.value) == ReadStep(decode, old(Reading()))
      ensures stop.None? ==> DecodeStep(decode, Reading()) == ReadStep(decode, old(Reading()))
      ensures source == old(source) && outSeqNum == old(outSeqNum)
    {
      if source.None? {
        return Some(Err(SourceNotInitialized));
      }
      ghost var s0 := Reading();
      ghost var u := source.value.input.rest;
      var read := ReadTcp(source.value.input);
      if read.Err? {
        return Some(Err(Transport(read.error)));
      }
      if read.value.None? {
        return Some(Ok(None));
      }
      var packet := read.value.value;
      assert ParseTcp(u) == Got(packet, source.value.input.rest);
      PacketStep(decode, s0, packet, source.value.input.rest);
      if packet.seqNum != inSeqNumPkt {
        inSeqNumPkt := packet.seqNum + 1;  // resynchronise
      }
      inSeqNumPkt := inSeqNumPkt + 1;
      buff := packet.payload;
      stop := None;
    }

    /** The decoding half of `read_message`, on the buffer as it stands. */
    method DecodeMessage() returns (r: Result<Option<Message>, SessionError>)
      modifies this
      ensures Step(Reading(), r) == DecodeStep(decode, old(Reading()))
      ensures source == old(source) && outSeqNum == old(outSeqNum)
    {
      var d := decode(state, buff);
      state := d.state;
      buff := d.rest;
      if d.result.Err? {
        return Err(Decode(d.result.error));
      }
      var msg := d.result.value;
      if !IsSdsMessage(msg) {
        return Err(UnexpectedMessage(msg));
      }
      var seqNum: nat := msg.header.msgSeqNum;
      if seqNum != inSeqNumMsg {
        inSeqNumMsg := seqNum + 1;  // resynchronise
      }
      inSeqNumMsg := inSeqNumMsg + 1;
      r := Ok(Some(msg));
    }

    /** `reset`: the decoder forgets its dictionaries; counters, buffer and
        source stay as they are. */
    method Reset()
      modifies this
      ensures state == INITIAL_STATE
      ensures source == old(source) && buff == old(buff) && outSeqNum == old(outSeqNum)
      ensures inSeqNumPkt == old(inSeqNumPkt) && inSeqNumMsg == old(inSeqNumMsg)
    {
      state := INITIAL_STATE;
    }
  }
}
