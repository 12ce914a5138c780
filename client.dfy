/** The security-definition client (`SDSClient`): a session plus a catalog of
    the security definitions received so far. A definition is identified by
    its feed (the `ApplID`, parsed as a `u32`) and its security id; the
    catalog keeps the set of identifiers seen, how many there are, and the
    total the server announced in the last definition. */
module Client {
  import opened Wire
  import opened Fast
  import opened Connection
  import Feeds
  import Fix

  datatype ClientError =
    | Session(cause: SessionError)
    | InvalidApplId(applId: string)   // the definition's `ApplID` is not a `u32`

  /** The catalog part of the client. */
  datatype Catalog = Catalog(defsCountTotal: u32, defsCount: nat, secIds: set<(u32, u32)>)

  const EMPTY_CATALOG: Catalog := Catalog(0, 0, {})

  /** The count is the number of distinct identifiers. */
  predicate Counted(c: Catalog)
  {
    c.defsCount == |c.secIds|
  }

  /** `is_subscribed`: as many definitions as announced. */
  predicate Complete(c: Catalog)
  {
    c.defsCount == c.defsCountTotal
  }

  /** The catalog after one message, and the `is_update` flag or the error
      returned with it. */
  datatype Recorded = Recorded(next: Catalog, isUpdate: Result<bool, ClientError>)

  /** The catalog side of `read_message`. The announced total is taken from
      every definition before its `ApplID` is parsed. Messages other than
      definitions are returned with `false` and leave the catalog alone. */
  function Record(c: Catalog, m: Message): Recorded
  {
    if !m.MDSecurityDefinition? then Recorded(c, Ok(false))
    else
      var withTotal := c.(defsCountTotal := m.totNumReports);
      match Feeds.ParseU32(m.applId)
      case None => Recorded(withTotal, Err(InvalidApplId(m.applId)))
      case Some(feedId) =>
        var key := (feedId, m.securityId);
        if key in c.secIds then Recorded(withTotal, Ok(true))
        else Recorded(withTotal.(defsCount := c.defsCount + 1, secIds := c.secIds + {key}), Ok(false))
  }

  /** The identifier a message adds to the catalog, if any. */
  function KeyOf(m: Message): set<(u32, u32)>
  {
    if m.MDSecurityDefinition? && Feeds.ParseU32(m.applId).Some? then
      {(Feeds.ParseU32(m.applId).value, m.securityId)}
    else {}
  }

  /** A definition with a known identifier is an update and changes neither
      the set nor the count; a new one is inserted and counted once. Either
      way the count stays the number of identifiers. */
  lemma RecordDeduplicates(c: Catalog, m: Message)
    requires Counted(c)
    requires m.MDSecurityDefinition? && Feeds.ParseU32(m.applId).Some?
    ensures var key := (Feeds.ParseU32(m.applId).value, m.securityId);
            var r := Record(c, m);
            r.isUpdate == Ok(key in c.secIds)
            && r.next.secIds == c.secIds + {key}
            && (key in c.secIds ==> r.next.defsCount == c.defsCount)
            && (key !in c.secIds ==> r.next.defsCount == c.defsCount + 1)
            && Counted(r.next)
  {
    var key := (Feeds.ParseU32(m.applId).value, m.securityId);
    if key in c.secIds {
      assert c.secIds + {key} == c.secIds;
    }
  }

  /** Every definition sets the announced total, even one whose `ApplID`
      then fails to parse; that failure leaves the identifiers and the count
      alone. */
  lemma RecordTotalFirst(c: Catalog, m: Message)
    requires m.MDSecurityDefinition?
    ensures Record(c, m).next.defsCountTotal == m.totNumReports
    ensures Feeds.ParseU32(m.applId).None? ==>
              Record(c, m) == Recorded(c.(defsCountTotal := m.totNumReports), Err(InvalidApplId(m.applId)))
  {
  }

  /** Heartbeats, logons, logouts and definition requests pass through. */
  lemma RecordPassesOthers(c: Catalog, m: Message)
    requires !m.MDSecurityDefinition?
    ensures Record(c, m) == Recorded(c, Ok(false))
  {
  }

  /** The catalog after the messages `ms`, whatever each call returned. */
  function RecordAll(c: Catalog, ms: seq<Message>): Catalog
    decreases |ms|
  {
    if ms == [] then c else RecordAll(Record(c, ms[0]).next, ms[1..])
  }

  /** The identifiers of the definitions in `ms`. */
  function Keys(ms: seq<Message>): set<(u32, u32)>
    decreases |ms|
  {
    if ms == [] then {} else KeyOf(ms[0]) + Keys(ms[1..])
  }

  /** After any sequence of messages the catalog holds exactly the
      identifiers seen, and counts each of them once. */
  lemma {:induction false} RecordAllCounts(c: Catalog, ms: seq<Message>)
    requires Counted(c)
    ensures RecordAll(c, ms).secIds == c.secIds + Keys(ms)
    ensures Counted(RecordAll(c, ms))
    decreases |ms|
  {
    if ms != [] {
      var next := Record(c, ms[0]).next;
      if ms[0].MDSecurityDefinition? && Feeds.ParseU32(ms[0].applId).Some? {
        RecordDeduplicates(c, ms[0]);
      }
      assert next.secIds == c.secIds + KeyOf(ms[0]) && Counted(next);
      RecordAllCounts(next, ms[1..]);
    }
  }

  /** The announced total is the one of the last definition received;
      without a definition it stays what it was. */
  lemma {:induction false} RecordAllTotal(c: Catalog, ms: seq<Message>, i: nat)
    requires i < |ms| && ms[i].MDSecurityDefinition?
    requires forall j :: i < j < |ms| ==> !ms[j].MDSecurityDefinition?
    ensures RecordAll(c, ms).defsCountTotal == ms[i].totNumReports
    decreases |ms|
  {
    var next := Record(c, ms[0]).next;
    if i == 0 {
      NoDefinitionKeepsTotal(next, ms[1..]);
    } else {
      RecordAllTotal(next, ms[1..], i - 1);
    }
  }

  lemma {:induction false} NoDefinitionKeepsTotal(c: Catalog, ms: seq<Message>)
    requires forall j :: 0 <= j < |ms| ==> !ms[j].MDSecurityDefinition?
    ensures RecordAll(c, ms).defsCountTotal == c.defsCountTotal
    decreases |ms|
  {
    if ms != [] {
      NoDefinitionKeepsTotal(Record(c, ms[0]).next, ms[1..]);
    }
  }

  /** The FIX requests `subscribe_feeds` sends for `ids`, one per feed in
      order, numbered on from `first`. */
  function RequestMessages(first: nat, ids: seq<u32>, times: seq<seq<u8>>): (r: seq<seq<u8>>)
    requires |times| == |ids| && first + |ids| <= U32_LIMIT
    ensures |r| == |ids|
    decreases |ids|
  {
    if ids == [] then []
    else [Fix.Request(first, ids[0], times[0])] + RequestMessages(first + 1, ids[1..], times[1..])
  }

  /** The `i`-th request carries the number `first + i` and the `i`-th feed. */
  lemma {:induction false} RequestMessagesAt(first: nat, ids: seq<u32>, times: seq<seq<u8>>, i: nat, seqNum: u32)
    requires |times| == |ids| && first + |ids| <= U32_LIMIT && i < |ids| && seqNum == first + i
    ensures RequestMessages(first, ids, times)[i] == Fix.Request(seqNum, ids[i], times[i])
    decreases i
  {
    if i > 0 {
      RequestMessagesAt(first + 1, ids[1..], times[1..], i - 1, seqNum);
    }
  }

  /** The bytes of the first `k` messages of `msgs`, written one after the
      other. */
  function Concat(msgs: seq<seq<u8>>, k: nat): seq<u8>
    requires k <= |msgs|
  {
    if k == 0 then [] else Concat(msgs, k - 1) + msgs[k - 1]
  }

  /** What was written for fewer messages is a prefix of what is written for
      more: a later request never alters an earlier one. */
  lemma {:induction false} ConcatPrefix(msgs: seq<seq<u8>>, j: nat, k: nat)
    requires j <= k <= |msgs|
    ensures Concat(msgs, j) <= Concat(msgs, k)
    decreases k
  {
    if j < k {
      ConcatPrefix(msgs, j, k - 1);
    }
  }

  /** Writing message `i` after the first `i` extends them to `i + 1`. */
  lemma ConcatStep(msgs: seq<seq<u8>>, i: nat, before: seq<u8>, prev: seq<u8>, next: seq<u8>)
    requires i < |msgs| && prev == before + Concat(msgs, i) && next == prev + msgs[i]
    ensures next == before + Concat(msgs, i + 1)
  {
  }

  /** `subscribe_feeds` on TCP: the output went from `before` to `after`
      by the first `k` requests, `k` the distance the outgoing number moved,
      and it succeeded exactly when all of them were written. */
  ghost predicate Sent(before: seq<u8>, after: seq<u8>, first: nat, next: nat, ids: seq<u32>,
                       times: seq<seq<u8>>, r: Result<(), ClientError>)
    requires |times| == |ids| && first + |ids| <= U32_LIMIT
  {
    var k := next - first;
    0 <= k <= |ids|
    && (r.Ok? <==> k == |ids|)
    && after == before + Concat(RequestMessages(first, ids, times), k)
    && (r.Err? ==> r == Err(Session(WriteFailed(BrokenPipe))))
  }

  class SDSClient {
    var defsCountTotal: u32
    var defsCount: u32
    const sds: SDSConnection
    var secIds: set<(u32, u32)>

    function Cat(): Catalog
      reads this
    {
      Catalog(defsCountTotal, defsCount, secIds)
    }

    predicate Valid()
      reads this
    {
      Counted(Cat())
    }

    /** `SDSClient::new`: a fresh session and an empty catalog, which already
        counts as subscribed. */
    constructor (decode: Decoder)
      ensures Cat() == EMPTY_CATALOG && Valid() && Complete(Cat())
      ensures fresh(sds) && sds.source.None? && sds.decode == decode
      ensures sds.inSeqNumPkt == 1 && sds.inSeqNumMsg == 1 && sds.outSeqNum == 1 && sds.buff == []
    {
      sds := new SDSConnection(decode);
      secIds := {};
      defsCountTotal := 0;
      defsCount := 0;
    }

    /** `is_subscribed`. */
    method IsSubscribed() returns (b: bool)
      ensures b <==> defsCount == defsCountTotal
    {
      b := defsCount == defsCountTotal;
    }

    /** `connect`: opens the session and logs in. */
    method Connect(stream: Option<(InputStream, OutputStream)>, user: seq<u8>, password: seq<u8>,
                   sendingTime: seq<u8>) returns (r: Result<(), ClientError>)
      requires sds.outSeqNum + 1 < U32_LIMIT
      modifies sds, if stream.Some? then {stream.value.1} else {}
      ensures stream.None? ==> r == Err(Session(NotOpened)) && sds.source == old(sds.source)
                               && sds.outSeqNum == old(sds.outSeqNum)
      ensures stream.Some? ==>
                var out := stream.value.1;
                var msg := Fix.Login(old(sds.outSeqNum), user, password, HEART_BT_INT, sendingTime);
                sds.source == Some(Tcp(stream.value.0, out))
                && (r.Ok? <==> |msg| <= old(out.capacity))
                && (r.Ok? ==> out.data == old(out.data) + msg && sds.outSeqNum == old(sds.outSeqNum) + 1)
                && (r.Err? ==> r == Err(Session(WriteFailed(BrokenPipe)))
                               && out.data == old(out.data) && sds.outSeqNum == old(sds.outSeqNum))
      ensures sds.buff == old(sds.buff) && sds.inSeqNumPkt == old(sds.inSeqNumPkt)
      ensures sds.inSeqNumMsg == old(sds.inSeqNumMsg) && sds.state == old(sds.state)
    {
      var c := sds.Connect(stream);
      if c.Err? {
        return Err(Session(c.error));
      }
      var l := sds.Login(user, password, sendingTime);
      if l.Err? {
        return Err(Session(l.error));
      }
      r := Ok(());
    }

    /** `subscribe`: a security-definition request for one feed. */
    method Subscribe(feedId: u32, sendingTime: seq<u8>) returns (r: Result<(), ClientError>)
      requires sds.IsTcp() ==> sds.outSeqNum + 1 < U32_LIMIT
      modifies sds, sds.Outputs()
      ensures sds.source == old(sds.source) && sds.Reading() == old(sds.Reading())
      ensures !sds.IsTcp() ==> r == Ok(()) && sds.outSeqNum == old(sds.outSeqNum)
      ensures old(sds.IsTcp()) ==>
                var msg := Fix.Request(old(sds.outSeqNum), feedId, sendingTime);
                (r.Ok? <==> |msg| <= old(sds.source.value.output.capacity))
                && (r.Ok? ==> sds.source.value.output.data == old(sds.source.value.output.data) + msg
                              && sds.outSeqNum == old(sds.outSeqNum) + 1)
                && (r.Err? ==> r == Err(Session(WriteFailed(BrokenPipe)))
                               && sds.source.value.output.data == old(sds.source.value.output.data)
                               && sds.outSeqNum == old(sds.outSeqNum))
    {
      var sent := sds.Request(feedId, sendingTime);
      if sent.Err? {
        return Err(Session(sent.error));
      }
      r := Ok(());
    }

    /** `subscribe_feeds`: one request per feed, in the list's order,
        stopping at the first that cannot be sent. On TCP, `k` requests sent
        move the outgoing number on by `k`; on a file nothing is sent. */
    method SubscribeFeeds(feeds: Feeds.Feeds, sendingTimes: seq<seq<u8>>) returns (r: Result<(), ClientError>)
      requires |sendingTimes| == |feeds.ids|
      requires sds.IsTcp() ==> sds.outSeqNum + |feeds.ids| < U32_LIMIT
      modifies sds, sds.Outputs()
      ensures sds.source == old(sds.source) && sds.Reading() == old(sds.Reading())
      ensures !sds.IsTcp() ==> r == Ok(()) && sds.outSeqNum == old(sds.outSeqNum)
      ensures old(sds.IsTcp()) ==>
                Sent(old(sds.source.value.output.data), sds.source.value.output.data,
                     old(sds.outSeqNum), sds.outSeqNum, feeds.ids, sendingTimes, r)
    {
      var ids := feeds.ids;
      if sds.IsTcp() {
        r := SendRequests(ids, sendingTimes);
      } else {
        r := SubscribeOffline(ids, sendingTimes);
      }
    }

    /** The loop of `subscribe_feeds` on a file source, where `subscribe`
        has nothing to write to: every call succeeds and changes nothing. */
    method SubscribeOffline(ids: seq<u32>, sendingTimes: seq<seq<u8>>) returns (r: Result<(), ClientError>)
      requires |sendingTimes| == |ids| && !sds.IsTcp()
      modifies sds, sds.Outputs()
      ensures sds.source == old(sds.source) && sds.Reading() == old(sds.Reading())
      ensures r == Ok(()) && sds.outSeqNum == old(sds.outSeqNum)
    {
      var i := 0;
      while i < |ids|
        invariant sds.source == old(sds.source) && sds.Reading() == old(sds.Reading())
        invariant sds.outSeqNum == old(sds.outSeqNum)
      {
        var sent := Subscribe(ids[i], sendingTimes[i]);
        i := i + 1;
      }
      r := Ok(());
    }

    /** The loop of `subscribe_feeds` on a TCP session: the requests go out
        one by one until one fails. */
    method SendRequests(ids: seq<u32>, sendingTimes: seq<seq<u8>>) returns (r: Result<(), ClientError>)
      requires |sendingTimes| == |ids|
      requires sds.IsTcp() && sds.outSeqNum + |ids| < U32_LIMIT
      modifies sds, sds.Outputs()
      ensures sds.source == old(sds.source) && sds.Reading() == old(sds.Reading())
      ensures Sent(old(sds.source.value.output.data), sds.source.value.output.data,
                   old(sds.outSeqNum), sds.outSeqNum, ids, sendingTimes, r)
    {
      ghost var out := sds.source.value.output;
      ghost var before := out.data;
      ghost var first := sds.outSeqNum;
      ghost var msgs := RequestMessages(first, ids, sendingTimes);
      var i := 0;
      r := Ok(());
      while i < |ids|
        invariant 0 <= i <= |ids|
        invariant sds.source == old(sds.source) && sds.Reading() == old(sds.Reading())
        invariant sds.outSeqNum == first + i
        invariant out.data == before + Concat(msgs, i)
      {
        var sent := SubscribeNext(ids, sendingTimes, i, first, before);
        if sent.Err? {
          return sent;
        }
        i := i + 1;
      }
    }

    /** One turn of that loop: `subscribe` for the `i`-th feed, after the
        first `i` requests have been written. */
    method SubscribeNext(ids: seq<u32>, sendingTimes: seq<seq<u8>>, i: nat, ghost first: nat, ghost before: seq<u8>)
      returns (r: Result<(), ClientError>)
      requires |sendingTimes| == |ids| && i < |ids| && first + |ids| < U32_LIMIT
      requires sds.IsTcp() && sds.outSeqNum == first + i
      requires sds.source.value.output.data == before + Concat(RequestMessages(first, ids, sendingTimes), i)
      modifies sds, sds.Outputs()
      ensures sds.source == old(sds.source) && sds.Reading() == old(sds.Reading())
      ensures r.Ok? ==> sds.outSeqNum == first + i + 1
                        && sds.source.value.output.data == before + Concat(RequestMessages(first, ids, sendingTimes), i + 1)
      ensures r.Err? ==> r == Err(Session(WriteFailed(BrokenPipe))) && sds.outSeqNum == first + i
                         && sds.source.value.output.data == before + Concat(RequestMessages(first, ids, sendingTimes), i)
    {
      ghost var prev := sds.source.value.output.data;
      RequestMessagesAt(first, ids, sendingTimes, i, sds.outSeqNum);
      r := Subscribe(ids[i], sendingTimes[i]);
      if r.Ok? {
        ConcatStep(RequestMessages(first, ids, sendingTimes), i, before, prev, sds.source.value.output.data);
      }
    }

    /** `read_message`: the next message of the session with its `is_update`
        flag, the catalog recording it. */
    method ReadMessage() returns (r: Result<Option<(Message, bool)>, ClientError>)
      requires Valid()
      requires defsCount + 1 < U32_LIMIT
      modifies this, sds, sds.Inputs()
      ensures Valid()
      ensures var st := ReadStep(sds.decode, old(sds.Reading()));
              sds.Reading() == st.next
              && (st.result.Err? ==> r == Err(Session(st.result.error)) && Cat() == old(Cat()))
              && (st.result == Ok(None) ==> r == Ok(None) && Cat() == old(Cat()))
              && (st.result.Ok? && st.result.value.Some? ==>
                    var m := st.result.value.value;
                    var rec := Record(old(Cat()), m);
                    Cat() == rec.next
                    && (rec.isUpdate.Err? ==> r == Err(rec.isUpdate.error))
                    && (rec.isUpdate.Ok? ==> r == Ok(Some((m, rec.isUpdate.value)))))
      ensures sds.source == old(sds.source) && sds.outSeqNum == old(sds.outSeqNum)
    {
      var read := sds.ReadMessage();
      if read.Err? {
        return Err(Session(read.error));
      }
      if read.value.None? {
        return Ok(None);
      }
      var message := read.value.value;
      if message.MDSecurityDefinition? {
        defsCountTotal := message.totNumReports;
        var feedId := Feeds.ParseU32(message.applId);
        if feedId.None? {
          return Err(InvalidApplId(message.applId));
        }
        var key := (feedId.value, message.securityId);
        var isUpdate := key in secIds;
        if !isUpdate {
          secIds := secIds + {key};
          defsCount := defsCount + 1;
        }
        return Ok(Some((message, isUpdate)));
      }
      // the session lets only heartbeats, logons, logouts and definition
      // requests through besides definitions (see `MessageCheck`)
      r := Ok(Some((message, false)));
    }

    /** `logout`. */
    method Logout(sendingTime: seq<u8>) returns (r: Result<(), ClientError>)
      requires sds.IsTcp() ==> sds.outSeqNum + 1 < U32_LIMIT
      modifies sds, sds.Outputs()
      ensures sds.source == old(sds.source) && sds.Reading() == old(sds.Reading())
      ensures !sds.IsTcp() ==> r == Ok(()) && sds.outSeqNum == old(sds.outSeqNum)
      ensures old(sds.IsTcp()) ==>
                var msg := Fix.Logout(old(sds.outSeqNum), Fix.Ascii("Logout"), sendingTime);
                (r.Ok? <==> |msg| <= old(sds.source.value.output.capacity))
                && (r.Ok? ==> sds.source.value.output.data == old(sds.source.value.output.data) + msg
                              && sds.outSeqNum == old(sds.outSeqNum) + 1)
                && (r.Err? ==> r == Err(Session(WriteFailed(BrokenPipe)))
                               && sds.source.value.output.data == old(sds.source.value.output.data)
                               && sds.outSeqNum == old(sds.outSeqNum))
    {
      var l := sds.Logout(sendingTime);
      if l.Err? {
        return Err(Session(l.error));
      }
      r := Ok(());
    }
  }
}
