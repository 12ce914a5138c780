/** The FAST messages of the Quotes Direct API, reduced to what the session
    layer reads: every message carries a header with its sequence number, and
    a security definition also names the expected number of definitions, the
    security and the feed (`ApplID`) it belongs to. The FAST decoder itself is
    an outside library; it appears here as a function value that turns the
    decoder's dictionary state and a byte buffer into one message, the bytes
    it leaves and the dictionary state after it. */
module Fast {
  import opened Wire

  datatype MsgHeader = MsgHeader(msgSeqNum: u32)

  /** One variant per template of the Quotes Direct message set. */
  datatype Message =
    | MDIncRefresh(header: MsgHeader)
    | MDSecurityDefinition(header: MsgHeader, totNumReports: u32, securityId: u32, applId: string)
    | MDSnapshotFullRefresh(header: MsgHeader)
    | MDHeartbeat(header: MsgHeader)
    | MDLogon(header: MsgHeader)
    | MDLogout(header: MsgHeader)
    | MDSecurityDefinitionRequest(header: MsgHeader)
    | SequenceReset(header: MsgHeader)
    | MDSecurityStatus(header: MsgHeader)
    | News(header: MsgHeader)
    | ApplicationMessageRequestAck(header: MsgHeader)
    | UserNotification(header: MsgHeader)

  /** The kinds a security-definition (SDS) session expects to receive. */
  predicate IsSdsMessage(m: Message)
  {
    m.MDSecurityDefinition? || m.MDHeartbeat? || m.MDLogon? || m.MDLogout?
    || m.MDSecurityDefinitionRequest?
  }

  /** The decoder's memory between messages: the previous value of each
      dictionary entry, keyed by entry. */
  datatype DecoderState = DecoderState(previous: map<nat, seq<u8>>)

  /** The state of a freshly built or reset decoder. */
  const INITIAL_STATE: DecoderState := DecoderState(map[])

  datatype DecodeError = DecodeError(reason: string)

  /** What one decoding call yields: the message or an error, the part of the
      buffer it did not consume, and the new dictionary state. */
  datatype Decoding = Decoding(result: Result<Message, DecodeError>, rest: seq<u8>, state: DecoderState)

  type Decoder = (DecoderState, seq<u8>) -> Decoding
}
