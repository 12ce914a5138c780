# Quotes Direct session layer in Dafny

A model of the framing and session layer of the Rust Quotes Direct client
(`rs-quotesdirectlib` and the example security-definition client). It has
eight modules:

- `Wire` (`wire.dfy`): machine integer ranges, the library's `Error` enum,
  and two stream classes:
  - a reader whose `read_exact` either fills its buffer or fails with
    `UnexpectedEof`;
  - a writer whose `write_all` is accepted whole or fails with `BrokenPipe`.
- `VarUint` (`varuint.dfy`): the FAST 1.1 stop-bit integer used for TCP frame
  lengths. `read_var_uint` and `write_var_uint` are loops over the streams,
  each proved against a pure specification (`ParseVarUint`, `Encode`).
- `Packets` (`packets.dfy`):
  - the 5-byte preamble, a big-endian sequence number then the sub-channel;
  - `UDPPacket::read`;
  - `TCPPacket::read`/`write`, each proved against `ParseTcp`/`Frame`;
  - the round trips between them.

  The blocking (`sync/packets.rs`) and asynchronous (`packets.rs`) versions
  share one wire format, so one model covers both.
- `Fix` (`fix.dfy`): the FIX logon, logout and security-definition request
  builders, with `header` and `fixit` (BodyLength, delimiter substitution,
  CheckSum). Messages are read back into their `tag=value` fields as the
  unit tests do.
- `Feeds` (`feeds.dfy`): the feed-set argument parser (`N`, `N-M`, `!N`,
  `!N-M`):
  - `from_strs` is a method over two id sets;
  - `from_str` is the space-splitting front end;
  - both are proved against `Classify`, the selection the tokens denote, and
    `Lists`, the unique strictly ascending list of a set.
- `Fast` (`fast.dfy`): the FAST message kinds, reduced to the fields the
  session reads. The decoder is an outside library and appears as a function
  value.
- `Connection` (`connection.dfy`): `SDSConnection` as a class:
  - its counters, buffer, decoder state and source;
  - `read_message`, proved against the state function `ReadStep`;
  - the resynchronisation rule for mismatched sequence numbers.
- `Client` (`client.dfy`): `SDSClient` as a class:
  - the catalog of security definitions (deduplication, counting, announced
    total), specified by `Record`/`RecordAll`;
  - `subscribe_feeds`, proved against the list of request messages it writes.

## Model

| member | source | states |
|---|---|---|
| `VarUint.FirstStop` | rs-quotesdirectlib/src/sync/packets.rs:141-149 | the index found is that of the first byte with the stop bit (every earlier byte lacks it), or the length when no byte has it |
| `VarUint.ParseVarUint` | rs-quotesdirectlib/src/sync/packets.rs:132-150 | end of stream exactly on empty input; an `UnexpectedEof` error exactly when no byte carries the stop bit; otherwise it consumes a prefix ending at the first stop byte, all earlier bytes without it |
| `VarUint.Digits` | rs-quotesdirectlib/src/sync/packets.rs:152-161 | the 7-bit groups pushed after the first one never carry the stop bit |
| `VarUint.DigitsLength` | rs-quotesdirectlib/src/sync/packets.rs:152-161 | a value below 128^k has at most k groups |
| `VarUint.Encode` | rs-quotesdirectlib/src/sync/packets.rs:152-165 | the written form of a u64 has 1 to 10 bytes, the stop bit on the last byte only, and 0 is written as `[0x80]` |
| `VarUint.StepSplits` | rs-quotesdirectlib/src/sync/packets.rs:141-149 | one shift-and-or step on a value that fits is `q * 128 + b % 128` |
| `VarUint.AccumulateDigits` | rs-quotesdirectlib/src/sync/packets.rs:141-149 | folding the shift-and-or step over the groups of a value rebuilds the value |
| `VarUint.VarUintRoundTrip` | rs-quotesdirectlib/src/sync/packets.rs:132-165 | reading back what `write_var_uint` wrote yields the value and consumes exactly the written bytes, whatever follows |
| `VarUint.AccumulateEncode` | rs-quotesdirectlib/src/sync/packets.rs:141-149 | the decoder's accumulator over the written bytes is the value written; the stop bit does not reach it |
| `VarUint.TruncatedIsError` | rs-quotesdirectlib/src/sync/packets.rs:146-148 | a multi-byte integer cut before its stop byte is an I/O error, not end of stream |
| `VarUint.ReadVarUint` | rs-quotesdirectlib/src/packets.rs:87-105 | the loop's result and the bytes it leaves unread are those `ParseVarUint` gives for the stream's contents (same loop as sync/packets.rs:132-150) |
| `VarUint.WriteVarUint` | rs-quotesdirectlib/src/packets.rs:107-120 | the push-then-reverse loop writes exactly `Encode(value)`, or fails with `BrokenPipe` having written nothing (same loop as sync/packets.rs:152-165) |
| `Packets.Preamble` | rs-quotesdirectlib/src/sync/packets.rs:114-125 | five bytes whose first four read back big-endian as the sequence number and whose last is the sub-channel |
| `Packets.BigEndianOfPreamble` | rs-quotesdirectlib/src/sync/packets.rs:118-125 | shifting the sequence number into four bytes and reassembling them big-endian gives the number back |
| `Packets.PreambleOfBigEndian` | rs-quotesdirectlib/src/sync/packets.rs:44-48 | any four bytes decoded big-endian and written back are the same four bytes |
| `Packets.ReadUdp` | rs-quotesdirectlib/src/sync/packets.rs:40-52 | fails with `InvalidPacketLength(len)` exactly when the datagram is shorter than 5 bytes; otherwise preamble plus payload is the datagram, the payload being everything after byte 5 |
| `Packets.UdpRoundTrip` | rs-quotesdirectlib/src/sync/packets.rs:44-51 | a datagram made of a preamble and a payload reads back as that packet, so a bare preamble gives an empty payload |
| `Packets.Frame` | rs-quotesdirectlib/src/sync/packets.rs:114-129 | the written frame is the length field, 5 preamble bytes and the payload |
| `Packets.ParseTcp` | rs-quotesdirectlib/src/sync/packets.rs:79-109 | end of stream exactly on an empty stream; every packet read consumes input |
| `Packets.ShortLengthRejected` | rs-quotesdirectlib/src/sync/packets.rs:80-87 | a length below 5 is refused with that length, leaving the stream right after the length field |
| `Packets.TruncatedFrameIsError` | rs-quotesdirectlib/src/sync/packets.rs:89-99 | a frame cut anywhere after its length field is an `UnexpectedEof` error |
| `Packets.TcpRoundTrip` | rs-quotesdirectlib/src/sync/packets.rs:79-129 | reading a written frame gives back the same sequence number, sub-channel and payload and consumes exactly the frame |
| `Packets.ReadTcp` | rs-quotesdirectlib/src/packets.rs:40-67 | the packet or error returned and the bytes left are those `ParseTcp` gives for the stream's contents (same code as sync/packets.rs:79-109) |
| `Packets.WriteTcp` | rs-quotesdirectlib/src/packets.rs:69-84 | succeeds exactly when the whole frame fits and then appends exactly `Frame(packet)`; a failure leaves a proper prefix of the frame written (same code as sync/packets.rs:114-129) |
| `Fix.Dec` | rs-quotesdirectlib/src/fix.rs:63 | a number prints as one or more decimal digits |
| `Fix.DecRoundTrip` | rs-quotesdirectlib/src/fix.rs:63 | the printed digits read back as the number, without a leading zero |
| `Fix.SohForPipe` | rs-quotesdirectlib/src/fix.rs:68 | the substitution keeps the length |
| `Fix.SohForPipeAppend` | rs-quotesdirectlib/src/fix.rs:68 | substitution distributes over concatenation |
| `Fix.SohForPipeKeeps` | rs-quotesdirectlib/src/fix.rs:68 | text without the `pipe` delimiter (0x7C) is left as it is |
| `Fix.Checksum` | rs-quotesdirectlib/src/fix.rs:69-72 | the `wrapping_add` fold of the bytes is below 256 |
| `Fix.Fixit` | rs-quotesdirectlib/src/fix.rs:66-74 | frames a pipe-separated text as a FIX message; `FixitFraming`, `FixitJoin` and `FixitFields` state its BeginString, BodyLength, body and CheckSum, and `CrcVector` its bytes for the checksum test |
| `Fix.Trailer` | rs-quotesdirectlib/src/fix.rs:73 | the closing CheckSum field; `CheckFieldJoin` states it is `10=<sum>` followed by SOH |
| `Fix.Header` | rs-quotesdirectlib/src/fix.rs:61-64 | the standard header; `HeaderJoin` and `HeaderSeparators` state its four fields and their order |
| `Fix.FixitFraming` | rs-quotesdirectlib/src/fix.rs:66-74 | the message is BeginString, BodyLength equal to the byte count of the body and its delimiter (text length + 1), the body, and CheckSum over everything before it; no pipe byte is left anywhere, even from caller values |
| `Fix.ToFieldOfTagValue` | rs-quotesdirectlib/src/fix.rs:98 | `tag=value` splits at its first `=` into that tag and that value |
| `Fix.ToFieldOfDigits` | rs-quotesdirectlib/src/fix.rs:98 | a digit-only tag has no `=` in it, so the split falls right after it |
| `Fix.JoinAppend` | rs-quotesdirectlib/src/fix.rs:68 | joining two lists of fields is joining each |
| `Fix.SohForPipeJoin` | rs-quotesdirectlib/src/fix.rs:68 | fields free of both delimiters joined with pipes become the same fields joined with SOH |
| `Fix.SplitPiece` | rs-quotesdirectlib/src/fix.rs:93 | splitting at a separator that a leading piece does not contain cuts that piece off |
| `Fix.SplitJoin` | rs-quotesdirectlib/src/fix.rs:93 | splitting separator-terminated pieces gives the pieces and one final empty piece |
| `Fix.NonEmptyKeeps` | rs-quotesdirectlib/src/fix.rs:94-100 | dropping empty pieces removes only that final empty piece |
| `Fix.FieldsOfJoin` | rs-quotesdirectlib/src/fix.rs:90-103 | the test helper's reading of SOH-joined non-empty pieces gives the pieces' fields in order |
| `Fix.FixitJoin` | rs-quotesdirectlib/src/fix.rs:66-74 | the message built from a pipe-separated text `t1`, …, `tn` is the SOH-terminated list BeginString, BodyLength, `t1` … `tn`, CheckSum |
| `Fix.BeginAndLengthJoin` | rs-quotesdirectlib/src/fix.rs:68 | the leading `8=FIX.5.0.SP2` and `9=<n>` text is the two fields with SOH after each |
| `Fix.CheckFieldJoin` | rs-quotesdirectlib/src/fix.rs:73 | the trailer is the CheckSum field followed by SOH |
| `Fix.FixitFields` | rs-quotesdirectlib/src/fix.rs:66-74 | the message read back field by field is BeginString `FIX.5.0.SP2`, BodyLength = text length + 1, the text's fields in order, then CheckSum with the byte sum modulo 256 in plain decimal |
| `Fix.BeginStringPlain` | rs-quotesdirectlib/src/fix.rs:68 | `FIX.5.0.SP2` has neither delimiter |
| `Fix.TagValueFree` | rs-quotesdirectlib/src/fix.rs:63 | `tag=value` is non-empty and delimiter-free when the value is |
| `Fix.AllFree` | rs-quotesdirectlib/src/fix.rs:68 | all fields of a message are non-empty and SOH-free |
| `Fix.TagValues` | rs-quotesdirectlib/src/fix.rs:25 | one `tag=value` piece per tag |
| `Fix.Pairs` | rs-quotesdirectlib/src/fix.rs:109 | one field per tag |
| `Fix.ToFieldsOfTagValues` | rs-quotesdirectlib/src/fix.rs:98 | the pieces `tag=value` read back as the pairs (tag, value) |
| `Fix.TagValuesPlain` | rs-quotesdirectlib/src/fix.rs:25 | pieces with plain values are non-empty and plain |
| `Fix.AppendField` | rs-quotesdirectlib/src/fix.rs:25 | appending a pipe, `<tag>=<value>` to a text made of pieces adds exactly one piece at the end |
| `Fix.MessageFields` | rs-quotesdirectlib/src/fix.rs:66-74 | a message built from `tag=value` pieces reads back as BeginString, BodyLength, the pairs in order, then the CheckSum tag |
| `Fix.HeaderSeparators` | rs-quotesdirectlib/src/fix.rs:63 | the header's literals before tags 35, 34, 49 and 52 are the pipe delimiter (none before 35), the decimal tag and `=` |
| `Fix.LoginSeparators` | rs-quotesdirectlib/src/fix.rs:25 | the logon's literals before tags 108, 553 and 554 are the pipe delimiter, the decimal tag and `=` |
| `Fix.LogoutSeparator` | rs-quotesdirectlib/src/fix.rs:42 | the logout's literal before tag 58 is the pipe delimiter, the decimal tag and `=` |
| `Fix.RequestSeparator` | rs-quotesdirectlib/src/fix.rs:58 | the request's literal before tag 1180 is the pipe delimiter, the decimal tag and `=` |
| `Fix.HeaderJoin` | rs-quotesdirectlib/src/fix.rs:61-64 | the header is exactly the fields MsgType, MsgSeqNum (decimal), SenderCompID `CQG`, SendingTime, in this order |
| `Fix.DecPlain` | rs-quotesdirectlib/src/fix.rs:63 | a printed number contains no delimiter |
| `Fix.LoginText` | rs-quotesdirectlib/src/fix.rs:22-27 | the logon body; `LoginTextJoin` states its fields |
| `Fix.Login` | rs-quotesdirectlib/src/fix.rs:22-27 | the framed logon; `LoginFields` states the fields it reads back as |
| `Fix.LoginTextJoin` | rs-quotesdirectlib/src/fix.rs:22-27 | the logon text is the header with type `A`, then HeartBtInt, user and password fields, in this order |
| `Fix.LoginFields` | rs-quotesdirectlib/src/fix.rs:22-27 | a logon reads back as BeginString, BodyLength = 35 fixed bytes + the variable parts, MsgType `A`, MsgSeqNum, `CQG`, SendingTime, HeartBtInt, user name, password, CheckSum |
| `Fix.LogoutText` | rs-quotesdirectlib/src/fix.rs:40-43 | the logout body; `LogoutTextJoin` states its fields |
| `Fix.Logout` | rs-quotesdirectlib/src/fix.rs:40-43 | the framed logout; `LogoutFields` states the fields it reads back as |
| `Fix.LogoutTextJoin` | rs-quotesdirectlib/src/fix.rs:40-43 | the logout text is the header with type `5`, then the Text field |
| `Fix.LogoutFields` | rs-quotesdirectlib/src/fix.rs:40-43 | a logout reads back as BeginString, BodyLength = 24 + the variable parts, MsgType `5`, MsgSeqNum, `CQG`, SendingTime, Text, CheckSum |
| `Fix.RequestText` | rs-quotesdirectlib/src/fix.rs:56-59 | the request body; `RequestTextJoin` states its fields |
| `Fix.Request` | rs-quotesdirectlib/src/fix.rs:56-59 | the framed request; `RequestFields` states the fields it reads back as |
| `Fix.RequestTextJoin` | rs-quotesdirectlib/src/fix.rs:56-59 | the request text is the header with type `c`, then the feed id under tag 1180 |
| `Fix.RequestFields` | rs-quotesdirectlib/src/fix.rs:56-59 | a request reads back as BeginString, BodyLength = 26 + the variable parts, MsgType `c`, MsgSeqNum, `CQG`, SendingTime, ApplID = the feed id, CheckSum |
| `Fix.LoginExample` | rs-quotesdirectlib/src/fix.rs:105-118 | `login(1, "user", "password", 60)` with any 17-byte time has BodyLength 67 and the field values the test looks up |
| `Fix.PairsAt` | rs-quotesdirectlib/src/fix.rs:109 | a run of fields equal to the pairs holds each pair at its offset |
| `Fix.LoginTagLiterals` | rs-quotesdirectlib/src/fix.rs:115-117 | tags 108, 553, 554 print as the test's keys |
| `Fix.LogoutExample` | rs-quotesdirectlib/src/fix.rs:120-131 | `logout(2, "Logout")` with any 17-byte time has BodyLength 48 and the field values the test looks up |
| `Fix.RequestExample` | rs-quotesdirectlib/src/fix.rs:133-144 | `request(3, 85)` with any 17-byte time has BodyLength 46 and the field values the test looks up |
| `Fix.ByteSumAppend` | rs-quotesdirectlib/src/fix.rs:69-72 | the plain byte sum of two runs of bytes is the sum of their sums |
| `Fix.AsciiAppend` | rs-quotesdirectlib/src/fix.rs:68 | the bytes of two strings one after the other are the bytes of each |
| `Fix.WireSumAppend` | rs-quotesdirectlib/src/fix.rs:68-72 | after the delimiter substitution the byte sum still splits over concatenation |
| `Fix.ChecksumOfSums` | rs-quotesdirectlib/src/fix.rs:66-74 | the CheckSum of a message is the sum of its head bytes, its body bytes and the trailing SOH, taken modulo 256 |
| `Fix.FixitLiteral` | rs-quotesdirectlib/src/fix.rs:66-74 | a text whose head, byte sums and trailer are known frames as exactly that head, text and trailer |
| `Fix.CrcVector` | rs-quotesdirectlib/src/fix.rs:81-88 | the checksum test: framing the logon text with sending time `20250620-10:22:47` gives exactly `8=FIX.5.0.SP2`, `9=67`, the text and `10=117`, SOH-delimited |
| `Fix.CrcHead` | rs-quotesdirectlib/src/fix.rs:81-88 | the test's head `8=FIX.5.0.SP2` and `9=67` is the BeginString and BodyLength of a 67-byte body |
| `Fix.CrcTail` | rs-quotesdirectlib/src/fix.rs:81-88 | the test's tail is the CheckSum field with value 117 |
| `Fix.CrcHeadSum` | rs-quotesdirectlib/src/fix.rs:81-88 | the head bytes sum to 1029 |
| `Fix.CrcTextSum` | rs-quotesdirectlib/src/fix.rs:81-88 | the bytes of the test's text sum to 3951 |
| `Fix.CrcPiece1` | rs-quotesdirectlib/src/fix.rs:81-88 | the byte sum of piece 1 of the test vector |
| `Fix.CrcPiece2` | rs-quotesdirectlib/src/fix.rs:81-88 | the byte sum of piece 2 of the test vector |
| `Fix.CrcPiece3` | rs-quotesdirectlib/src/fix.rs:81-88 | the byte sum of piece 3 of the test vector |
| `Fix.CrcPiece4` | rs-quotesdirectlib/src/fix.rs:81-88 | the byte sum of piece 4 of the test vector |
| `Fix.CrcPiece5` | rs-quotesdirectlib/src/fix.rs:81-88 | the byte sum of piece 5 of the test vector |
| `Fix.CrcPiece6` | rs-quotesdirectlib/src/fix.rs:81-88 | the byte sum of piece 6 of the test vector |
| `Fix.CrcPiece7` | rs-quotesdirectlib/src/fix.rs:81-88 | the byte sum of piece 7 of the test vector |
| `Fix.CrcPiece8` | rs-quotesdirectlib/src/fix.rs:81-88 | the byte sum of piece 8 of the test vector |
| `Fix.CrcPiece9` | rs-quotesdirectlib/src/fix.rs:81-88 | the byte sum of piece 9 of the test vector |
| `Fix.CrcPiece10` | rs-quotesdirectlib/src/fix.rs:81-88 | the byte sum of piece 10 of the test vector |
| `Fix.RequestLiterals` | rs-quotesdirectlib/src/fix.rs:139-143 | tag 1180 and the numbers 3, 85, 46 print as the test expects |
| `Feeds.NumberHasNoDash` | examples/src/client/feeds.rs:28-30 | a string that parses as a `u32` has no `-` in it |
| `Feeds.AllDigitsIndex` | examples/src/client/feeds.rs:28-30 | a digit string has a digit at every index |
| `Feeds.ParseU32` | examples/src/client/feeds.rs:28-30 | `parse::<u32>`: an optional `+` and decimal digits below 2^32; `NumberHasNoDash` and `RenderRoundTrip` state what it accepts |
| `Feeds.Render` | examples/src/client/feeds.rs:28-30 | the shortest decimal spelling is a non-empty digit string whose value is the number |
| `Feeds.RenderDec` | rs-quotesdirectlib/src/fix.rs:63 | the characters of the feed-id spelling are the bytes `format!` prints into a FIX message |
| `Feeds.RenderRoundTrip` | examples/src/client/feeds.rs:28-30 | `parse::<u32>` reads back any rendered u32, with or without a leading `+` |
| `Feeds.Dash` | examples/src/client/feeds.rs:33 | the index found lies inside the token |
| `Feeds.ParseRange` | examples/src/client/feeds.rs:31-37 | `N-M` split at its first `-` into two u32s; `RangeToken` states what it stands for |
| `Feeds.DashFinds` | examples/src/client/feeds.rs:33 | `splitn(2, '-')` cuts at the first `-`, and there is no cut exactly when there is no `-` |
| `Feeds.Between` | examples/src/client/feeds.rs:43-45 | the ids from the lower bound up to, not including, the upper bound |
| `Feeds.Span` | examples/src/client/feeds.rs:43-45 | `start..=end` is exactly the ids between them, both included, and nothing when `start > end` |
| `Feeds.ParseToken` | examples/src/client/feeds.rs:39-47 | one argument, with or without `!`, as its ids or the error naming it; `ParseAllFails`, `NumberToken` and `RangeToken` state its cases |
| `Feeds.Parsed` | examples/src/client/feeds.rs:55-62 | one result per argument |
| `Feeds.CollectAll` | examples/src/client/feeds.rs:55-62 | the loop succeeds exactly when every argument is valid and then keeps the tokens in order; otherwise it fails with the first invalid one |
| `Feeds.CollectConcat` | examples/src/client/feeds.rs:55-62 | two runs of arguments one after the other: the first error, or the tokens of both |
| `Feeds.ParsedConcat` | examples/src/client/feeds.rs:55-62 | reading arguments one by one distributes over concatenation |
| `Feeds.ParseAll` | examples/src/client/feeds.rs:55-62 | the loop over the arguments, stopping at the first error; `ParseAllFails`, `ParseAllTokens` and `ParseAllConcat` state it |
| `Feeds.ParseAllFails` | examples/src/client/feeds.rs:46-47 | parsing fails exactly when some argument is invalid, with the error naming the first invalid one |
| `Feeds.ParseAllTokens` | examples/src/client/feeds.rs:55-62 | a successful parse gives one token per argument, in order |
| `Feeds.Classify` | examples/src/client/feeds.rs:52-62 | the first error or the added and removed ids; `ClassifyCovers`, `OrderIndependent` and `Idempotent` state its meaning |
| `Feeds.Selected` | examples/src/client/feeds.rs:52-62 | the added and removed id sets of a run of tokens; `SelectedMembers`, `SelectedConcat` and `AbsorbToken` state them |
| `Feeds.SelectedMembers` | examples/src/client/feeds.rs:52-62 | an id is in the id set exactly when some non-`!` token stands for it and in the ignore set exactly when some `!` token does |
| `Feeds.ClassifyCovers` | examples/src/client/feeds.rs:52-62 | the same, stated for the arguments themselves |
| `Feeds.SelectedConcat` | examples/src/client/feeds.rs:52-62 | the sets of two token lists one after the other are the unions |
| `Feeds.ParseAllConcat` | examples/src/client/feeds.rs:55-62 | parsing two argument lists one after the other: the first error, or both lists' tokens |
| `Feeds.OrderIndependent` | examples/src/client/feeds.rs:52-70 | swapping two blocks of arguments keeps validity and the selection |
| `Feeds.ParseAllSingle` | examples/src/client/feeds.rs:55-62 | one argument parses to its token or its error |
| `Feeds.ClassifyAppend` | examples/src/client/feeds.rs:55-62 | one more argument leaves an earlier error alone, fails with its own error, or pushes its token |
| `Feeds.ClassifyStep` | examples/src/client/feeds.rs:55-62 | one more valid argument pushes its token onto the selection so far |
| `Feeds.ClassifyTwo` | examples/src/client/feeds.rs:55-62 | two valid arguments push their tokens in order |
| `Feeds.ClassifyThree` | examples/src/client/feeds.rs:55-62 | three valid arguments push their tokens in order |
| `Feeds.ClassifyFails` | examples/src/client/feeds.rs:46-47 | an invalid argument after valid ones is the error |
| `Feeds.ClassifyFirst` | examples/src/client/feeds.rs:55-62 | a single valid argument selects what its token stands for |
| `Feeds.Idempotent` | examples/src/client/feeds.rs:52-62 | repeating an argument anywhere after its first occurrence changes neither the selection nor the error |
| `Feeds.AbsorbToken` | examples/src/client/feeds.rs:52-62 | a token already among the tokens adds nothing to the sets when it comes again |
| `Feeds.RepeatAbsorbed` | examples/src/client/feeds.rs:52-62 | an argument already among the earlier ones changes nothing when it comes again |
| `Feeds.ClassifyPrefixFails` | examples/src/client/feeds.rs:58-60 | once a prefix of the arguments fails, the whole parse fails the same way |
| `Feeds.NoTokens` | examples/src/client/feeds.rs:103-108 | no arguments select nothing, and the only list of nothing is empty |
| `Feeds.NumberToken` | examples/src/client/feeds.rs:40-41 | a rendered number stands for itself alone |
| `Feeds.DashAfter` | examples/src/client/feeds.rs:33 | the first `-` after a dash-free word is right after it |
| `Feeds.RangeToken` | examples/src/client/feeds.rs:42-45 | `N-M` stands for `N..=M`, and a reversed range is accepted and stands for nothing |
| `Feeds.ListsTail` | examples/src/client/feeds.rs:64-71 | the head of the sorted list is the least id and the tail lists the others |
| `Feeds.ListsUnique` | examples/src/client/feeds.rs:64-71 | there is only one strictly ascending list of a set, so the result is determined |
| `Feeds.ListsEmpty` | examples/src/client/feeds.rs:64-71 | the list is empty exactly when the set is |
| `Feeds.DistinctAscending` | examples/src/client/feeds.rs:64-71 | sorting ids without repetition gives a strictly ascending list |
| `Feeds.RepeatCounted` | examples/src/client/feeds.rs:64-71 | a value at two indices occurs at least twice |
| `Feeds.SortUnstable` | examples/src/client/feeds.rs:71 | the result is ascending and a permutation of the input |
| `Feeds.InsertAscending` | examples/src/client/feeds.rs:71 | inserting before the first element not below the new one keeps the list ascending and adds exactly that element |
| `Feeds.ParseAndPush` | examples/src/client/feeds.rs:39-50 | an invalid token fails naming it; a valid one adds exactly its ids to the set (a range id by id up to and including its end) |
| `Feeds.FromStrs` | examples/src/client/feeds.rs:27-74 | fails exactly when `Classify` does, with the same error; otherwise the result is the strictly ascending list of the added ids not removed |
| `Feeds.IsWhitespace` | examples/src/client/feeds.rs:17 | `char::is_whitespace`, the Unicode White_Space characters; `TrimStart` and `TrimEnd` use it |
| `Feeds.Trim` | examples/src/client/feeds.rs:17 | `str::trim`; `TrimStart`, `TrimEnd` and `KeepWords` state what it keeps |
| `Feeds.TrimStart` | examples/src/client/feeds.rs:17 | trimming the front leaves a suffix |
| `Feeds.TrimEnd` | examples/src/client/feeds.rs:17 | trimming the back leaves a prefix |
| `Feeds.SplitSpaces` | examples/src/client/feeds.rs:15 | splitting always yields at least one piece |
| `Feeds.Keep` | examples/src/client/feeds.rs:16-19 | no kept piece is empty |
| `Feeds.SplitWord` | examples/src/client/feeds.rs:15 | a space-free word followed by a space splits off as one piece |
| `Feeds.SplitLastWord` | examples/src/client/feeds.rs:15 | a space-free word is one piece |
| `Feeds.WordHasNoSpace` | examples/src/client/feeds.rs:15 | a whitespace-free word has no space |
| `Feeds.SplitJoined` | examples/src/client/feeds.rs:15 | words joined by single spaces split back into the words |
| `Feeds.KeepWords` | examples/src/client/feeds.rs:16-19 | trimming and filtering keep whitespace-free words as they are |
| `Feeds.TokenizeJoined` | examples/src/client/feeds.rs:14-20 | tokenizing words separated by single spaces gives back the words |
| `Feeds.Tokenize` | examples/src/client/feeds.rs:14-20 | split on spaces, trimmed, empty pieces dropped; `Keep` and `TokenizeJoined` state the result |
| `Feeds.FromStr` | examples/src/client/feeds.rs:13-22 | the same outcome as `from_strs` on the tokens of the string |
| `Feeds.ExampleWords` | examples/src/client/feeds.rs:166-167 | `"1-5 !2 !4"` tokenizes as `1-5`, `!2`, `!4` |
| `Feeds.ExampleTokens` | examples/src/client/feeds.rs:166-167 | those tokens stand for 1..=5 added and 2 and 4 removed |
| `Feeds.RangeWithExclusions` | examples/src/client/feeds.rs:166-173 | `1-5 !2 !4` adds 1..=5 and removes 2 and 4 |
| `Feeds.ExcludedRangeTokens` | examples/src/client/feeds.rs:156-157 | `1-5` and `!2-3` stand for the two ranges |
| `Feeds.ExcludedRange` | examples/src/client/feeds.rs:155-163 | `["1-5", "!2-3"]` adds 1..=5 and removes 2..=3 |
| `Feeds.IncludeThenExclude` | examples/src/client/feeds.rs:55-62 | one added token then removed ones give those sets |
| `Feeds.ExampleSpans` | examples/src/client/feeds.rs:43-45 | the ranges of the tests element by element |
| `Feeds.ExampleLists` | examples/src/client/feeds.rs:147-173 | the results are `[1, 3, 5]` and `[1, 4, 5]` |
| `Feeds.SmallRenders` | examples/src/client/feeds.rs:28-30 | 0 to 5 render as single digits |
| `Feeds.MoreRenders` | examples/src/client/feeds.rs:28-30 | 7, 8, 9 and 13 render as the tests write them |
| `Feeds.SomeFeeds` | examples/src/client/feeds.rs:111-117 | `["7", "13"]` selects 7 and 13 and lists `[7, 13]` |
| `Feeds.FeedsRange` | examples/src/client/feeds.rs:120-127 | `["7-9"]` selects 7..=9 and lists `[7, 8, 9]` |
| `Feeds.RangeListed` | examples/src/client/feeds.rs:120-127 | that range lists as `[7, 8, 9]` |
| `Feeds.FeedRanges` | examples/src/client/feeds.rs:130-139 | `["1-3", "7-8"]` selects 1..=3 and 7..=8 |
| `Feeds.RangesListed` | examples/src/client/feeds.rs:130-139 | those ranges list as `[1, 2, 3, 7, 8]` |
| `Feeds.IgnoreFeed` | examples/src/client/feeds.rs:147-153 | `["1-3", "!2"]` adds 1..=3, removes 2 and lists `[1, 3]` |
| `Feeds.BadToken` | examples/src/client/feeds.rs:141-144 | `["0", "abc", "3-1"]` fails on `abc`, and `3-1` alone would be accepted as empty |
| `Feeds.WordToken` | examples/src/client/feeds.rs:46-47 | `abc` is neither a number nor a range and is the error |
| `Connection.NextExpected` | examples/src/client/connection.rs:100-107 | the counter becomes `got + 1` exactly when the number matched, and `got + 2` after a mismatch |
| `Connection.Track` | examples/src/client/connection.rs:100-107 | the counter after a run of numbers; `InOrderNotReported`, `ResyncAfterGap` and `ResyncExample` state it |
| `Connection.Reported` | examples/src/client/connection.rs:100-107 | the numbers logged as mismatches; the same lemmas state which they are |
| `Connection.ReadStep` | examples/src/client/connection.rs:87-136 | one `read_message` step on the session state; `PacketStep`, `ReadWithoutPacket`, `BufferedReadSkipsSource`, `PacketCheck` and `MessageCheck` state its cases |
| `Connection.DecodeStep` | examples/src/client/connection.rs:113-136 | one decode from the buffer and the message check; `MessageCheck` states it |
| `Connection.InOrderNotReported` | examples/src/client/connection.rs:100-107 | numbers arriving in order are never reported and the counter moves past the last |
| `Connection.ResyncAfterGap` | examples/src/client/connection.rs:100-107 | after a mismatch `s` the session expects `s + 2`, not `s + 1`: `s + 1` is reported as a mismatch too, and only a stream that skips `s + 1` is in order again |
| `Connection.StaysOff` | examples/src/client/connection.rs:100-107 | after a gap, a stream without further gaps is reported number by number, every one of them, and the counter stays one ahead of it |
| `Connection.Resync` | examples/src/client/connection.rs:105-107 | the intended reset to `got + 1`: equal to the code's counter on a match and one below it after a mismatch |
| `Connection.TrackIntended` | examples/src/client/connection.rs:105-107 | the counter after a run of numbers under the intended reset; `CatchesUp` states it |
| `Connection.ReportedIntended` | examples/src/client/connection.rs:100-107 | the numbers logged under the intended reset; `CatchesUp` states which |
| `Connection.CatchesUp` | examples/src/client/connection.rs:105-107 | under the intended reset a stream without further gaps is reported at most at its first number, and the counter is back in step after it |
| `Connection.GapExample` | examples/src/client/connection.rs:100-107 | 1 expected, then 5, 6, 7, 8: as written all four are reported and the counter ends at 10; intended, only 5 is and it ends at 9 |
| `Connection.ResyncExample` | examples/src/client/connection.rs:127-134 | numbers 1, 2, 5, 6 from a fresh session report 5 and 6 and leave the counter at 8 |
| `Connection.PacketStep` | examples/src/client/connection.rs:95-110 | with nothing buffered, a packet read from the source updates the packet counter and becomes the buffer before decoding |
| `Connection.ReadWithoutPacket` | examples/src/client/connection.rs:90-97 | with nothing buffered, a read without a source fails and a read at end of stream returns nothing and changes nothing |
| `Connection.BufferedReadSkipsSource` | examples/src/client/connection.rs:88 | while the buffer holds data, a read takes nothing from the source and leaves the packet counter alone |
| `Connection.PacketCheck` | examples/src/client/connection.rs:99-107 | a packet moves the packet counter by the resync rule; a framing error leaves counters and decoder alone |
| `Connection.MessageCheck` | examples/src/client/connection.rs:113-136 | only the five SDS kinds are returned, and the message counter moves by the resync rule on exactly those; a refused or undecodable message leaves it alone |
| `Connection.SDSConnection.constructor` | examples/src/client/connection.rs:31-41 | no source, all three counters at 1, empty buffer, fresh decoder |
| `Connection.SDSConnection.Connect` | examples/src/client/connection.rs:43-48 | the source becomes the TCP stream, or an error when it could not be opened; nothing else changes |
| `Connection.SDSConnection.ReadFile` | examples/src/client/connection.rs:50-54 | the source becomes the file, or an error when it could not be opened; nothing else changes |
| `Connection.SDSConnection.Send` | examples/src/client/connection.rs:58-63 | on TCP the message is appended and `out_seq_num` moves on by one exactly when the write succeeds; elsewhere nothing is sent |
| `Connection.SDSConnection.Login` | examples/src/client/connection.rs:56-65 | on TCP a logon numbered with the current `out_seq_num` and heartbeat 60 is written and the number moves on by one, or, when it does not fit, a broken pipe is returned and neither the output nor the number changes; elsewhere nothing changes |
| `Connection.SDSConnection.Request` | examples/src/client/connection.rs:67-75 | on TCP a request for the feed numbered with the current `out_seq_num` is written and the number moves on by one; elsewhere nothing changes |
| `Connection.SDSConnection.Logout` | examples/src/client/connection.rs:77-85 | on TCP a logout with text `Logout` is written and the number moves on by one, or, when it does not fit, a broken pipe is returned and neither the output nor the number changes; elsewhere nothing changes |
| `Connection.SDSConnection.ReadMessage` | examples/src/client/connection.rs:87-137 | the result and the new counters, buffer, decoder state and source position are those `ReadStep` gives for the old ones |
| `Connection.SDSConnection.NextPacket` | examples/src/client/connection.rs:88-111 | either the read ends with `ReadStep`'s result, or the checked packet's payload is the buffer and decoding it completes `ReadStep` |
| `Connection.SDSConnection.DecodeMessage` | examples/src/client/connection.rs:113-136 | decodes one message from the buffer and checks its kind and number, as `DecodeStep` says |
| `Connection.SDSConnection.Reset` | examples/src/client/connection.rs:139-141 | only the decoder state is reset; counters, buffer and source are unchanged |
| `Client.Record` | examples/src/client/mod.rs:58-82 | one message into the catalog; `RecordDeduplicates`, `RecordTotalFirst` and `RecordPassesOthers` state its cases |
| `Client.RecordAll` | examples/src/client/mod.rs:58-82 | a run of messages into the catalog; `RecordAllCounts` and `RecordAllTotal` state the result |
| `Client.RecordDeduplicates` | examples/src/client/mod.rs:65-74 | a known (feed, security) key is an update and changes neither set nor count; a new one is inserted and counted once; the count stays the number of keys |
| `Client.RecordTotalFirst` | examples/src/client/mod.rs:64-67 | every definition sets the announced total, even when its `ApplID` then fails to parse, which leaves keys and count alone |
| `Client.RecordPassesOthers` | examples/src/client/mod.rs:76-79 | heartbeats, logons, logouts and definition requests return `false` and leave the catalog alone |
| `Client.RecordAllCounts` | examples/src/client/mod.rs:58-82 | after any messages the catalog holds exactly the keys seen and counts each once |
| `Client.RecordAllTotal` | examples/src/client/mod.rs:65 | the announced total is the last definition's (last write wins) |
| `Client.NoDefinitionKeepsTotal` | examples/src/client/mod.rs:76-79 | without definitions the total stays what it was |
| `Client.RequestMessages` | examples/src/client/mod.rs:51-56 | one request per feed |
| `Client.RequestMessagesAt` | examples/src/client/mod.rs:51-56 | the `i`-th request carries number `first + i` and the `i`-th feed |
| `Client.ConcatStep` | examples/src/client/mod.rs:52-54 | writing the next request extends the requests written so far by one |
| `Client.ConcatPrefix` | examples/src/client/mod.rs:51-56 | what was written for fewer requests is a prefix of what is written for more |
| `Client.SDSClient.constructor` | examples/src/client/mod.rs:24-31 | empty catalog with both counts 0, so it is already complete; a fresh session |
| `Client.SDSClient.IsSubscribed` | examples/src/client/mod.rs:89-91 | true exactly when the count equals the announced total |
| `Client.SDSClient.Connect` | examples/src/client/mod.rs:33-43 | opens the TCP session, then sends the logon; the first failure is returned, and a logon that does not fit leaves the output and the number as they were; the decoder state, the buffer and the receive counters never change |
| `Client.SDSClient.Subscribe` | examples/src/client/mod.rs:46-49 | on TCP a request for the feed is written and the number moves on by one exactly when the write succeeds |
| `Client.SDSClient.SubscribeFeeds` | examples/src/client/mod.rs:51-56 | on TCP the output grows by the first `k` requests in list order, numbered on from the old `out_seq_num`, which moves by `k`; success exactly when all were sent; on a file nothing is sent |
| `Client.SDSClient.SubscribeOffline` | examples/src/client/mod.rs:51-56 | on a file source every request is a no-op and the call succeeds |
| `Client.SDSClient.SendRequests` | examples/src/client/mod.rs:51-56 | on TCP the requests go out in order until the first failure, which is returned |
| `Client.SDSClient.SubscribeNext` | examples/src/client/mod.rs:52-54 | one more request extends the written requests by one or fails leaving them as they were |
| `Client.SDSClient.ReadMessage` | examples/src/client/mod.rs:58-82 | the session advances as `ReadStep` says; a message is recorded in the catalog as `Record` says, keeping the count equal to the number of keys, and returned with its `is_update` flag |
| `Client.SDSClient.Logout` | examples/src/client/mod.rs:84-86 | sends the session's logout; on failure the output and the number are unchanged |

## Left out

- The FAST decoder (`fastlib`) and `Decoder::new_from_xml` are not modelled. A decoder is a function value from the dictionary state and the buffer to a message or error, the unconsumed rest and the new state. `reset` sets the state to an empty dictionary.
- `TcpStream::connect` and `File::open` are outside the model. Their outcome is a parameter: an opened stream or `None`, which gives `NotOpened`.
- `Utc::now()`: the sending time is a parameter of every message builder and method that sends.
- `flush` and the `BufStream`/`BufReader` buffering: a write counts as delivered once `write_all` succeeds.
- async/await: the blocking and asynchronous packet code is the same wire logic and is modelled once.
- A failing `write_all` here writes nothing. A real one may have written a part of the buffer before it failed.
- `Connection.NextExpected`: the receive counters are unbounded integers, so the u32 overflow of `seq_num + 1` and `+= 1` (a panic in debug builds) is not modelled.
- Connection.SDSConnection.Send: the outgoing number is bounded by a precondition instead of modelling the overflow panic of `out_seq_num += 1`. Login, Request, Logout and the client methods that send inherit that precondition.
- Client.SDSClient.ReadMessage: a precondition keeps `defs_count + 1` within u32 instead of modelling the overflow panic.
- `SDSClient::progress` uses floating-point division and is not modelled.
- `HashSet` iteration order is an arbitrary choice in the model; the list is sorted afterwards, so the result does not depend on it.
- `error!`/`debug!` logging: `Reported` lists which sequence numbers a run of reads logs as mismatches; nothing else of the logging is kept.
- The `unreachable!()` arm of `SDSClient::read_message` has no counterpart. `MessageCheck` proves that the session returns only the five kinds the client matches.
- Fix.LoginExample: `login` reads the clock, so the example takes any 17-byte sending time and states the fields the test looks up; the CheckSum `10=117` in the test's comment belongs to the time written there and is proved for that time by `CrcVector`.
- Fix.LogoutExample: the `10=98` in the test's comment belongs to the time written in that comment, which the test itself does not use (it calls the clock); the CheckSum value is not stated.
- Fix.RequestExample: as for `LogoutExample`, the `10=227` of the comment is not stated.
- Text is handled as bytes, and literals are ASCII. Rust `&str` values are taken as their UTF-8 bytes, which is what `len()` and the checksum fold see.
- `Feeds::iter` and the two `IntoIterator` impls only expose the list, which is the `ids` field here.
- Where the prose description of the client and the code differ, the model follows the code:
  - after a sequence-number mismatch with received number `s`, the next expected number is `s + 2`, not `s + 1` (see Findings);
  - the CheckSum is printed as plain decimal without zero padding;
  - a reversed range `N-M` with `N > M` is accepted and selects nothing.

## Findings

| source | as written | input that shows it | evidently intended | confidence | as-written member | corrected member |
|---|---|---|---|---|---|---|
| examples/src/client/connection.rs:100-107 (and the same pattern at 127-134) | on a mismatch the counter is reset to `got + 1` and then incremented again, so it lands on `got + 2` | expected 1, then packets 5, 6, 7, 8: all four are logged as mismatches and the counter ends at 10 | reset to `got + 1`, so only 5 is logged and the counter ends at 9, in step with the stream | high, not executed | `Connection.StaysOff` | `Connection.CatchesUp` |

`GapExample` states both outcomes for that input. The session operations (`ReadStep`, `DecodeStep` and the class methods) keep the counter as the code computes it, because the counter only decides which numbers are logged. `Resync`, `TrackIntended`, `ReportedIntended` and `CatchesUp` give the intended rule beside it.
