/** The outgoing session control messages (logon, logout, security
    definition request) in FIX tag=value text. Fields are written with `|`
    between them and every `|` is then replaced by SOH (0x01); BodyLength
    (tag 9) and CheckSum (tag 10) follow the FIXT.1.1 Standard Header and
    Standard Trailer, except that the checksum is printed as plain decimal
    without zero padding.

    Text is handled as its UTF-8 bytes, so lengths are byte counts as in the
    source. The sending time (`Utc::now()` formatted `%Y%m%d-%H:%M:%S`) is a
    parameter. */
module Fix {
  import opened Wire

  const SOH: u8 := 0x01
  const PIPE: u8 := 0x7C    // '|'
  const EQUALS: u8 := 0x3D  // '='

  // FIX tag numbers
  const BEGIN_STRING: nat := 8
  const BODY_LENGTH: nat := 9
  const CHECK_SUM: nat := 10
  const MSG_SEQ_NUM: nat := 34
  const MSG_TYPE: nat := 35
  const SENDER_COMP_ID: nat := 49
  const SENDING_TIME: nat := 52
  const TEXT: nat := 58
  const HEART_BT_INT: nat := 108
  const APPL_ID: nat := 1180
  const USERNAME: nat := 553
  const PASSWORD: nat := 554

  /** The bytes of an ASCII literal (every literal used here is ASCII, so
      keeping the low seven bits of each character changes nothing). */
  function Ascii(s: string): (r: seq<u8>)
    ensures |r| == |s|
  {
    seq(|s|, i requires 0 <= i < |s| => (s[i] as int) % 0x80)
  }

  predicate IsDigit(b: u8)
  {
    0x30 <= b <= 0x39
  }

  /** Decimal rendering of `n` as `format!("{n}")` prints it. */
  function Dec(n: nat): (r: seq<u8>)
    ensures 1 <= |r| && forall i :: 0 <= i < |r| ==> IsDigit(r[i])
  {
    if n < 10 then [0x30 + n] else Dec(n / 10) + [0x30 + n % 10]
  }

  lemma TwoDigits(n: nat)
    requires 10 <= n < 100
    ensures Dec(n) == [0x30 + n / 10, 0x30 + n % 10]
  {
  }

  lemma ThreeDigits(n: nat)
    requires 100 <= n < 1000
    ensures Dec(n) == [0x30 + n / 100, 0x30 + n / 10 % 10, 0x30 + n % 10]
  {
    TwoDigits(n / 10);
  }

  lemma FourDigits(n: nat)
    requires 1000 <= n < 10000
    ensures Dec(n) == [0x30 + n / 1000, 0x30 + n / 100 % 10, 0x30 + n / 10 % 10, 0x30 + n % 10]
  {
    ThreeDigits(n / 10);
  }

  /** The number a string of decimal digits stands for. */
  function DecValue(d: seq<u8>): nat
    requires forall i :: 0 <= i < |d| ==> IsDigit(d[i])
  {
    if d == [] then 0
    else
      assert IsDigit(d[|d| - 1]);
      DecValue(d[..|d| - 1]) * 10 + (d[|d| - 1] as int - 0x30)
  }

  /** Reading the printed number back gives the number, and it never starts
      with a superfluous zero. */
  lemma {:induction false} DecRoundTrip(n: nat)
    ensures DecValue(Dec(n)) == n
    ensures |Dec(n)| > 1 ==> Dec(n)[0] != 0x30
  {
    if n >= 10 {
      var d := Dec(n / 10);
      DecRoundTrip(n / 10);
      assert (d + [0x30 + n % 10])[..|d|] == d;
    }
  }

  /** `.replace('|', SOH)`: every `|` becomes SOH, every other byte stays. */
  function SohForPipe(s: seq<u8>): (r: seq<u8>)
    ensures |r| == |s|
  {
    seq(|s|, i requires 0 <= i < |s| => if s[i] == PIPE then SOH else s[i])
  }

  /** Sum of the bytes. */
  function ByteSum(s: seq<u8>): nat
  {
    if s == [] then 0 else s[0] + ByteSum(s[1..])
  }

  /** The checksum: the bytes added with `u8::wrapping_add`, i.e. their sum
      modulo 256. */
  function Checksum(s: seq<u8>): (c: nat)
    ensures c < 256
  {
    ByteSum(s) % 256
  }

  /** `fixit`: prefix BeginString and BodyLength, substitute the delimiter,
      and append the CheckSum field. */
  function Fixit(text: seq<u8>): (r: seq<u8>)
  {
    var framed := SohForPipe(Ascii("8=FIX.5.0.SP2|9=") + Dec(|text| + 1) + [PIPE] + text + [PIPE]);
    framed + Trailer(framed)
  }

  /** The CheckSum field closing the message `framed`. */
  function Trailer(framed: seq<u8>): seq<u8>
  {
    Ascii("10=") + Dec(Checksum(framed)) + [SOH]
  }

  /** The standard header fields: `35=<type>|34=<seq>|49=CQG|52=<time>`. */
  function Header(seqNum: u32, msgType: seq<u8>, sendingTime: seq<u8>): seq<u8>
  {
    Ascii("35=") + msgType + Ascii("|34=") + Dec(seqNum) + Ascii("|49=CQG|52=") + sendingTime
  }

  /** Logon (`A`) with HeartBtInt (108), user (553) and password (554). */
  function Login(seqNum: u32, user: seq<u8>, password: seq<u8>, heartbeatIntervalSec: u32,
                 sendingTime: seq<u8>): seq<u8>
  {
    Fixit(LoginText(seqNum, user, password, heartbeatIntervalSec, sendingTime))
  }

  function LoginText(seqNum: u32, user: seq<u8>, password: seq<u8>, heartbeatIntervalSec: u32,
                     sendingTime: seq<u8>): seq<u8>
  {
    Header(seqNum, Ascii("A"), sendingTime) + Ascii("|108=") + Dec(heartbeatIntervalSec)
    + Ascii("|553=") + user + Ascii("|554=") + password
  }

  /** Logout (`5`) with Text (58). */
  function Logout(seqNum: u32, message: seq<u8>, sendingTime: seq<u8>): seq<u8>
  {
    Fixit(LogoutText(seqNum, message, sendingTime))
  }

  function LogoutText(seqNum: u32, message: seq<u8>, sendingTime: seq<u8>): seq<u8>
  {
    Header(seqNum, Ascii("5"), sendingTime) + Ascii("|58=") + message
  }

  /** Security Definition Request (`c`) with the feed id (1180). */
  function Request(seqNum: u32, feedId: u32, sendingTime: seq<u8>): seq<u8>
  {
    Fixit(RequestText(seqNum, feedId, sendingTime))
  }

  function RequestText(seqNum: u32, feedId: u32, sendingTime: seq<u8>): seq<u8>
  {
    Header(seqNum, Ascii("c"), sendingTime) + Ascii("|1180=") + Dec(feedId)
  }

  // ---------------------------------------------------------------------
  // Framing properties

  lemma SohForPipeAppend(a: seq<u8>, b: seq<u8>)
    ensures SohForPipe(a + b) == SohForPipe(a) + SohForPipe(b)
  {
  }

  lemma SohForPipeKeeps(a: seq<u8>)
    requires PIPE !in a
    ensures SohForPipe(a) == a
  {
  }

  /** The delimiter-substituted text plus its trailing delimiter: the bytes
      BodyLength counts. */
  function Body(text: seq<u8>): (b: seq<u8>)
  {
    SohForPipe(text + [PIPE])
  }

  /** BeginString and BodyLength fields for a body of `bodyLength` bytes. */
  function BeginAndLength(bodyLength: nat): seq<u8>
  {
    Ascii("8=FIX.5.0.SP2") + [SOH] + Ascii("9=") + Dec(bodyLength) + [SOH]
  }

  /** What `fixit` produces, in the terms of the FIXT.1.1 Standard Header and
      Trailer: BeginString, then BodyLength equal to the number of bytes
      after its own delimiter up to the CheckSum field, the body, then
      CheckSum equal to the byte sum modulo 256 of everything before it. No
      `|` is left anywhere. */
  lemma FixitFraming(text: seq<u8>)
    ensures var head := BeginAndLength(|Body(text)|);
            Fixit(text) == head + Body(text) + Trailer(head + Body(text))
    ensures |Body(text)| == |text| + 1
    ensures PIPE !in Fixit(text)
  {
    var lead := Ascii("8=FIX.5.0.SP2|9=");
    var n := Dec(|text| + 1);
    assert SohForPipe(lead) == Ascii("8=FIX.5.0.SP2") + [SOH] + Ascii("9=");
    SohForPipeKeeps(n);
    SohForPipeAppend(lead + n + [PIPE], text + [PIPE]);
    SohForPipeAppend(lead + n, [PIPE]);
    SohForPipeAppend(lead, n);
    assert lead + n + [PIPE] + text + [PIPE] == (lead + n + [PIPE]) + (text + [PIPE]);
    var head := BeginAndLength(|Body(text)|);
    var framed := SohForPipe(lead + n + [PIPE] + text + [PIPE]);
    assert framed == head + Body(text);
    var r := Fixit(text);
    assert r == framed + Trailer(framed);
    assert PIPE !in framed;
    assert PIPE !in Ascii("10=");
    assert PIPE !in Dec(Checksum(framed));
    assert PIPE !in Trailer(framed);
  }

  // ---------------------------------------------------------------------
  // Reading a message back into its fields

  /** A `tag=value` pair. */
  datatype Field = Field(tag: seq<u8>, value: seq<u8>)

  /** A piece split at its first `=` (`split_once('=')`); a piece without
      `=` is all tag. */
  function ToField(piece: seq<u8>): Field
  {
    if piece == [] then Field([], [])
    else if piece[0] == EQUALS then Field([], piece[1..])
    else
      var f := ToField(piece[1..]);
      Field([piece[0]] + f.tag, f.value)
  }

  /** `split(sep)`: the pieces between separators, including the empty
      ones; the last piece is what follows the last separator. */
  function Split(s: seq<u8>, sep: u8): (r: seq<seq<u8>>)
    ensures |r| >= 1
  {
    if s == [] then [[]]
    else
      var t := Split(s[1..], sep);
      if s[0] == sep then [[]] + t else [[s[0]] + t[0]] + t[1..]
  }

  /** The pieces that are not empty, in order. */
  function NonEmpty(pieces: seq<seq<u8>>): seq<seq<u8>>
  {
    if pieces == [] then []
    else (if pieces[0] == [] then [] else [pieces[0]]) + NonEmpty(pieces[1..])
  }

  /** The fields of a message the way the tests read them: split on SOH,
      drop the empty pieces, split each piece at its first `=`. */
  function Fields(msg: seq<u8>): seq<Field>
  {
    ToFields(NonEmpty(Split(msg, SOH)))
  }

  /** Each piece followed by the separator. */
  function Join(pieces: seq<seq<u8>>, sep: u8): seq<u8>
  {
    if pieces == [] then [] else pieces[0] + [sep] + Join(pieces[1..], sep)
  }

  function ToFields(pieces: seq<seq<u8>>): (r: seq<Field>)
    ensures |r| == |pieces|
    ensures forall i :: 0 <= i < |pieces| ==> r[i] == ToField(pieces[i])
  {
    if pieces == [] then [] else [ToField(pieces[0])] + ToFields(pieces[1..])
  }

  /** Text free of both delimiters. */
  predicate Plain(s: seq<u8>)
  {
    PIPE !in s && SOH !in s
  }

  /** `tag=value` as bytes. */
  function TagValue(tag: nat, value: seq<u8>): seq<u8>
  {
    Dec(tag) + [EQUALS] + value
  }

  lemma ToFieldOfTagValue(tag: nat, value: seq<u8>)
    ensures ToField(TagValue(tag, value)) == Field(Dec(tag), value)
  {
    ToFieldOfDigits(Dec(tag), value);
  }

  lemma {:induction false} ToFieldOfDigits(digits: seq<u8>, value: seq<u8>)
    requires forall i :: 0 <= i < |digits| ==> IsDigit(digits[i])
    ensures ToField(digits + [EQUALS] + value) == Field(digits, value)
  {
    var p := digits + [EQUALS] + value;
    if digits == [] {
      assert p == [EQUALS] + value;
    } else {
      assert p[1..] == digits[1..] + [EQUALS] + value;
      ToFieldOfDigits(digits[1..], value);
      assert [digits[0]] + digits[1..] == digits;
    }
  }

  lemma {:induction false} JoinAppend(a: seq<seq<u8>>, b: seq<seq<u8>>, sep: u8)
    ensures Join(a + b, sep) == Join(a, sep) + Join(b, sep)
  {
    if a == [] {
      assert a + b == b;
    } else {
      assert (a + b)[0] == a[0];
      assert (a + b)[1..] == a[1..] + b;
      JoinAppend(a[1..], b, sep);
    }
  }

  lemma {:induction false} SohForPipeJoin(pieces: seq<seq<u8>>)
    requires forall i :: 0 <= i < |pieces| ==> Plain(pieces[i])
    ensures SohForPipe(Join(pieces, PIPE)) == Join(pieces, SOH)
  {
    if pieces != [] {
      SohForPipeJoin(pieces[1..]);
      SohForPipeKeeps(pieces[0]);
      SohForPipeAppend(pieces[0] + [PIPE], Join(pieces[1..], PIPE));
      SohForPipeAppend(pieces[0], [PIPE]);
    }
  }

  lemma {:induction false} SplitPiece(p: seq<u8>, sep: u8, r: seq<u8>)
    requires sep !in p
    ensures Split(p + [sep] + r, sep) == [p] + Split(r, sep)
  {
    var s := p + [sep] + r;
    if p == [] {
      assert s[1..] == r;
    } else {
      assert s[1..] == p[1..] + [sep] + r;
      SplitPiece(p[1..], sep, r);
      assert [p[0]] + p[1..] == p;
    }
  }

  lemma {:induction false} SplitJoin(pieces: seq<seq<u8>>, sep: u8)
    requires forall i :: 0 <= i < |pieces| ==> sep !in pieces[i]
    ensures Split(Join(pieces, sep), sep) == pieces + [[]]
  {
    if pieces != [] {
      SplitPiece(pieces[0], sep, Join(pieces[1..], sep));
      SplitJoin(pieces[1..], sep);
      assert pieces == [pieces[0]] + pieces[1..];
    }
  }

  lemma {:induction false} NonEmptyKeeps(pieces: seq<seq<u8>>)
    requires forall i :: 0 <= i < |pieces| ==> pieces[i] != []
    ensures NonEmpty(pieces + [[]]) == pieces
  {
    if pieces == [] {
      assert NonEmpty([[]]) == [] + NonEmpty([]);
    } else {
      assert (pieces + [[]])[1..] == pieces[1..] + [[]];
      NonEmptyKeeps(pieces[1..]);
      assert pieces == [pieces[0]] + pieces[1..];
    }
  }

  /** Splitting a joined list of non-empty, SOH-free pieces gives the pieces. */
  lemma FieldsOfJoin(pieces: seq<seq<u8>>)
    requires forall i :: 0 <= i < |pieces| ==> pieces[i] != [] && SOH !in pieces[i]
    ensures Fields(Join(pieces, SOH)) == ToFields(pieces)
  {
    SplitJoin(pieces, SOH);
    NonEmptyKeeps(pieces);
  }

  /** The CheckSum field of the message built from `text`. */
  function CheckField(text: seq<u8>): seq<u8>
  {
    TagValue(CHECK_SUM, Dec(Checksum(BeginAndLength(|Body(text)|) + Body(text))))
  }

  /** A message whose text is `t1|t2|...|tn` is the SOH-terminated list
      BeginString, BodyLength, `t1` ... `tn`, CheckSum. */
  lemma FixitJoin(text: seq<u8>, pieces: seq<seq<u8>>)
    requires text + [PIPE] == Join(pieces, PIPE)
    requires forall i :: 0 <= i < |pieces| ==> Plain(pieces[i])
    ensures Fixit(text) == Join([TagValue(BEGIN_STRING, Ascii("FIX.5.0.SP2")), TagValue(BODY_LENGTH, Dec(|text| + 1))] + pieces
                                + [CheckField(text)], SOH)
  {
    FixitFraming(text);
    var body := Body(text);
    SohForPipeJoin(pieces);
    assert body == Join(pieces, SOH);
    var begin, length, check := TagValue(BEGIN_STRING, Ascii("FIX.5.0.SP2")), TagValue(BODY_LENGTH, Dec(|body|)), CheckField(text);
    var head := BeginAndLength(|body|);
    var tail := Trailer(head + body);
    BeginAndLengthJoin(|body|);
    assert head == Join([begin, length], SOH);
    CheckFieldJoin(text);
    assert tail == Join([check], SOH);
    JoinAppend([begin, length], pieces, SOH);
    JoinAppend([begin, length] + pieces, [check], SOH);
    assert Join([begin, length] + pieces + [check], SOH) == head + body + tail;
    assert Fixit(text) == head + body + tail;
  }

  lemma BeginAndLengthJoin(n: nat)
    ensures BeginAndLength(n) == Join([TagValue(BEGIN_STRING, Ascii("FIX.5.0.SP2")), TagValue(BODY_LENGTH, Dec(n))], SOH)
  {
    var length := TagValue(BODY_LENGTH, Dec(n));
    assert Ascii("8=FIX.5.0.SP2") == Dec(BEGIN_STRING) + [EQUALS] + Ascii("FIX.5.0.SP2");
    assert Ascii("9=") == Dec(BODY_LENGTH) + [EQUALS];
    assert Join([length], SOH) == length + [SOH];
  }

  lemma CheckFieldJoin(text: seq<u8>)
    ensures Trailer(BeginAndLength(|Body(text)|) + Body(text)) == Join([CheckField(text)], SOH)
  {
    assert Ascii("10=") == Dec(CHECK_SUM) + [EQUALS];
  }

  /** A message whose text is `t1|t2|...|tn` reads back as BeginString,
      BodyLength, the fields `t1` ... `tn` in order, then CheckSum. */
  lemma FixitFields(text: seq<u8>, pieces: seq<seq<u8>>)
    requires text + [PIPE] == Join(pieces, PIPE)
    requires forall i :: 0 <= i < |pieces| ==> pieces[i] != [] && Plain(pieces[i])
    ensures var f := Fields(Fixit(text));
            && |f| == |pieces| + 3
            && f[0] == Field(Dec(BEGIN_STRING), Ascii("FIX.5.0.SP2"))
            && f[1] == Field(Dec(BODY_LENGTH), Dec(|text| + 1))
            && (forall i :: 0 <= i < |pieces| ==> f[i + 2] == ToField(pieces[i]))
            && f[|f| - 1] == Field(Dec(CHECK_SUM), Dec(Checksum(BeginAndLength(|text| + 1) + Body(text))))
  {
    FixitJoin(text, pieces);
    var cs := Dec(Checksum(BeginAndLength(|Body(text)|) + Body(text)));
    var begin, length, check := TagValue(BEGIN_STRING, Ascii("FIX.5.0.SP2")), TagValue(BODY_LENGTH, Dec(|text| + 1)), TagValue(CHECK_SUM, cs);
    var all := [begin, length] + pieces + [check];
    BeginStringPlain();
    TagValueFree(8, Ascii("FIX.5.0.SP2"));
    TagValueFree(9, Dec(|text| + 1));
    TagValueFree(10, cs);
    AllFree(begin, length, pieces, check);
    FieldsOfJoin(all);
    var f := Fields(Fixit(text));
    assert f == ToFields(all);
    ToFieldOfTagValue(BEGIN_STRING, Ascii("FIX.5.0.SP2"));
    ToFieldOfTagValue(BODY_LENGTH, Dec(|text| + 1));
    ToFieldOfTagValue(CHECK_SUM, cs);
    assert forall i :: 0 <= i < |pieces| ==> all[i + 2] == pieces[i];
  }

  lemma BeginStringPlain()
    ensures Plain(Ascii("FIX.5.0.SP2"))
  {
    var v := "FIX.5.0.SP2";
    assert forall i :: 0 <= i < |v| ==> Ascii(v)[i] >= 0x2E && Ascii(v)[i] != PIPE;
  }

  lemma TagValueFree(tag: nat, value: seq<u8>)
    requires Plain(value)
    ensures TagValue(tag, value) != [] && Plain(TagValue(tag, value))
  {
    assert forall i :: 0 <= i < |Dec(tag)| ==> IsDigit(Dec(tag)[i]);
  }

  lemma AllFree(begin: seq<u8>, length: seq<u8>, pieces: seq<seq<u8>>, check: seq<u8>)
    requires begin != [] && SOH !in begin && length != [] && SOH !in length && check != [] && SOH !in check
    requires forall i :: 0 <= i < |pieces| ==> pieces[i] != [] && Plain(pieces[i])
    ensures var all := [begin, length] + pieces + [check];
            forall i :: 0 <= i < |all| ==> all[i] != [] && SOH !in all[i]
  {
    var all := [begin, length] + pieces + [check];
    forall i | 0 <= i < |all|
      ensures all[i] != [] && SOH !in all[i]
    {
      if 2 <= i < |all| - 1 {
        assert all[i] == pieces[i - 2];
      }
    }
  }

  // ---------------------------------------------------------------------
  // The three session messages, field by field

  /** The pieces `tag=value` for parallel lists of tags and values. */
  function TagValues(tags: seq<nat>, values: seq<seq<u8>>): (r: seq<seq<u8>>)
    requires |tags| == |values|
    ensures |r| == |tags|
  {
    seq(|tags|, i requires 0 <= i < |tags| => TagValue(tags[i], values[i]))
  }

  /** The fields for parallel lists of tags and values. */
  function Pairs(tags: seq<nat>, values: seq<seq<u8>>): (r: seq<Field>)
    requires |tags| == |values|
    ensures |r| == |tags|
  {
    seq(|tags|, i requires 0 <= i < |tags| => Field(Dec(tags[i]), values[i]))
  }

  lemma ToFieldsOfTagValues(tags: seq<nat>, values: seq<seq<u8>>)
    requires |tags| == |values|
    ensures ToFields(TagValues(tags, values)) == Pairs(tags, values)
  {
    forall i | 0 <= i < |tags|
      ensures ToFields(TagValues(tags, values))[i] == Pairs(tags, values)[i]
    {
      ToFieldOfTagValue(tags[i], values[i]);
    }
  }

  lemma TagValuesPlain(tags: seq<nat>, values: seq<seq<u8>>)
    requires |tags| == |values|
    requires forall i :: 0 <= i < |values| ==> Plain(values[i])
    ensures forall i :: 0 <= i < |tags| ==> TagValues(tags, values)[i] != [] && Plain(TagValues(tags, values)[i])
  {
    forall i | 0 <= i < |tags|
      ensures TagValues(tags, values)[i] != [] && Plain(TagValues(tags, values)[i])
    {
      TagValueFree(tags[i], values[i]);
    }
  }

  /** Appending `|<tag>=<value>` to a text made of pieces adds one piece. */
  lemma AppendField(prefix: seq<u8>, tags: seq<nat>, values: seq<seq<u8>>, tag: nat, value: seq<u8>)
    requires |tags| == |values|
    requires prefix + [PIPE] == Join(TagValues(tags, values), PIPE)
    ensures prefix + ([PIPE] + Dec(tag) + [EQUALS]) + value + [PIPE] == Join(TagValues(tags + [tag], values + [value]), PIPE)
  {
    var field := TagValue(tag, value);
    assert TagValues(tags + [tag], values + [value]) == TagValues(tags, values) + [field];
    JoinAppend(TagValues(tags, values), [field], PIPE);
    assert Join([field], PIPE) == field + [PIPE];
    Regroup(prefix, Dec(tag), value);
  }

  lemma Regroup(prefix: seq<u8>, tag: seq<u8>, value: seq<u8>)
    ensures prefix + ([PIPE] + tag + [EQUALS]) + value + [PIPE] == (prefix + [PIPE]) + (tag + [EQUALS] + value + [PIPE])
  {
  }

  /** A message built by `fixit` from `tag=value` pieces reads back as
      BeginString, BodyLength, the pieces' fields in order, then CheckSum. */
  lemma MessageFields(text: seq<u8>, tags: seq<nat>, values: seq<seq<u8>>)
    requires |tags| == |values|
    requires text + [PIPE] == Join(TagValues(tags, values), PIPE)
    requires forall i :: 0 <= i < |values| ==> Plain(values[i])
    ensures var f := Fields(Fixit(text));
            && |f| == |tags| + 3
            && f[0] == Field(Dec(BEGIN_STRING), Ascii("FIX.5.0.SP2"))
            && f[1] == Field(Dec(BODY_LENGTH), Dec(|text| + 1))
            && f[2..|f| - 1] == Pairs(tags, values)
            && f[|f| - 1].tag == Dec(CHECK_SUM)
  {
    var pieces := TagValues(tags, values);
    TagValuesPlain(tags, values);
    FixitFields(text, pieces);
    ToFieldsOfTagValues(tags, values);
    MiddleFields(Fields(Fixit(text)), pieces);
  }

  /** The fields between the two leading ones and the last one. */
  lemma MiddleFields(f: seq<Field>, pieces: seq<seq<u8>>)
    requires |f| == |pieces| + 3
    requires forall i :: 0 <= i < |pieces| ==> f[i + 2] == ToField(pieces[i])
    ensures f[2..|f| - 1] == ToFields(pieces)
  {
  }

  /** Each `|<tag>=` literal of the message builders is the delimiter, the
      decimal tag and `=`. */
  lemma HeaderSeparators()
    ensures Ascii("35=") == Dec(MSG_TYPE) + [EQUALS]
    ensures Ascii("|34=") == [PIPE] + Dec(MSG_SEQ_NUM) + [EQUALS]
    ensures Ascii("|49=") == [PIPE] + Dec(SENDER_COMP_ID) + [EQUALS]
    ensures Ascii("|52=") == [PIPE] + Dec(SENDING_TIME) + [EQUALS]
  {
    TwoDigits(MSG_TYPE);
    TwoDigits(MSG_SEQ_NUM);
    TwoDigits(SENDER_COMP_ID);
    TwoDigits(SENDING_TIME);
  }

  lemma LoginSeparators()
    ensures Ascii("|108=") == [PIPE] + Dec(HEART_BT_INT) + [EQUALS]
    ensures Ascii("|553=") == [PIPE] + Dec(USERNAME) + [EQUALS]
    ensures Ascii("|554=") == [PIPE] + Dec(PASSWORD) + [EQUALS]
  {
    ThreeDigits(HEART_BT_INT);
    ThreeDigits(USERNAME);
    ThreeDigits(PASSWORD);
  }

  lemma LogoutSeparator()
    ensures Ascii("|58=") == [PIPE] + Dec(TEXT) + [EQUALS]
  {
  }

  lemma RequestSeparator()
    ensures Ascii("|1180=") == [PIPE] + Dec(APPL_ID) + [EQUALS]
  {
    FourDigits(APPL_ID);
  }

  const HEADER_TAGS: seq<nat> := [MSG_TYPE, MSG_SEQ_NUM, SENDER_COMP_ID, SENDING_TIME]

  lemma HeaderJoin(seqNum: u32, msgType: seq<u8>, sendingTime: seq<u8>)
    ensures Header(seqNum, msgType, sendingTime) + [PIPE]
         == Join(TagValues(HEADER_TAGS, [msgType, Dec(seqNum), Ascii("CQG"), sendingTime]), PIPE)
  {
    HeaderSeparators();
    var p1 := Ascii("35=") + msgType;
    var f1 := TagValue(MSG_TYPE, msgType);
    assert TagValues([MSG_TYPE], [msgType]) == [f1];
    assert Join([f1], PIPE) == f1 + [PIPE];
    var p2 := p1 + Ascii("|34=") + Dec(seqNum);
    AppendField(p1, [MSG_TYPE], [msgType], MSG_SEQ_NUM, Dec(seqNum));
    assert [MSG_TYPE] + [MSG_SEQ_NUM] == [MSG_TYPE, MSG_SEQ_NUM];
    assert [msgType] + [Dec(seqNum)] == [msgType, Dec(seqNum)];
    var p3 := p2 + Ascii("|49=") + Ascii("CQG");
    AppendField(p2, [MSG_TYPE, MSG_SEQ_NUM], [msgType, Dec(seqNum)], SENDER_COMP_ID, Ascii("CQG"));
    assert [MSG_TYPE, MSG_SEQ_NUM] + [SENDER_COMP_ID] == [MSG_TYPE, MSG_SEQ_NUM, SENDER_COMP_ID];
    assert [msgType, Dec(seqNum)] + [Ascii("CQG")] == [msgType, Dec(seqNum), Ascii("CQG")];
    var p4 := p3 + Ascii("|52=") + sendingTime;
    AppendField(p3, [MSG_TYPE, MSG_SEQ_NUM, SENDER_COMP_ID], [msgType, Dec(seqNum), Ascii("CQG")], SENDING_TIME, sendingTime);
    assert [MSG_TYPE, MSG_SEQ_NUM, SENDER_COMP_ID] + [SENDING_TIME] == HEADER_TAGS;
    assert [msgType, Dec(seqNum), Ascii("CQG")] + [sendingTime] == [msgType, Dec(seqNum), Ascii("CQG"), sendingTime];
    assert Ascii("|49=CQG|52=") == Ascii("|49=") + Ascii("CQG") + Ascii("|52=");
    assert Header(seqNum, msgType, sendingTime) == p4;
  }

  /** Plain letters and digits. */
  lemma LiteralsPlain()
    ensures Plain(Ascii("A")) && Plain(Ascii("5")) && Plain(Ascii("c")) && Plain(Ascii("CQG"))
  {
  }

  lemma DecPlain(n: nat)
    ensures Plain(Dec(n))
  {
    assert forall i :: 0 <= i < |Dec(n)| ==> IsDigit(Dec(n)[i]);
  }

  lemma AllPlain5(a: seq<u8>, b: seq<u8>, c: seq<u8>, d: seq<u8>, e: seq<u8>)
    requires Plain(a) && Plain(b) && Plain(c) && Plain(d) && Plain(e)
    ensures var v := [a, b, c, d, e]; forall i :: 0 <= i < |v| ==> Plain(v[i])
  {
  }

  lemma AllPlain7(a: seq<u8>, b: seq<u8>, c: seq<u8>, d: seq<u8>, e: seq<u8>, f: seq<u8>, g: seq<u8>)
    requires Plain(a) && Plain(b) && Plain(c) && Plain(d) && Plain(e) && Plain(f) && Plain(g)
    ensures var v := [a, b, c, d, e, f, g]; forall i :: 0 <= i < |v| ==> Plain(v[i])
  {
  }

  lemma LoginTextJoin(seqNum: u32, user: seq<u8>, password: seq<u8>, heartbeatIntervalSec: u32, sendingTime: seq<u8>)
    ensures LoginText(seqNum, user, password, heartbeatIntervalSec, sendingTime) + [PIPE]
         == Join(TagValues(HEADER_TAGS + [HEART_BT_INT, USERNAME, PASSWORD],
                           [Ascii("A"), Dec(seqNum), Ascii("CQG"), sendingTime, Dec(heartbeatIntervalSec), user, password]), PIPE)
  {
    LoginSeparators();
    var hv := [Ascii("A"), Dec(seqNum), Ascii("CQG"), sendingTime];
    var hb := Dec(heartbeatIntervalSec);
    var p0 := Header(seqNum, Ascii("A"), sendingTime);
    HeaderJoin(seqNum, Ascii("A"), sendingTime);
    AppendField(p0, HEADER_TAGS, hv, HEART_BT_INT, hb);
    var p1 := p0 + Ascii("|108=") + hb;
    assert p1 + [PIPE] == Join(TagValues(HEADER_TAGS + [HEART_BT_INT], hv + [hb]), PIPE);
    AppendField(p1, HEADER_TAGS + [HEART_BT_INT], hv + [hb], USERNAME, user);
    var p2 := p1 + Ascii("|553=") + user;
    assert HEADER_TAGS + [HEART_BT_INT] + [USERNAME] == HEADER_TAGS + [HEART_BT_INT, USERNAME];
    assert hv + [hb] + [user] == hv + [hb, user];
    assert p2 + [PIPE] == Join(TagValues(HEADER_TAGS + [HEART_BT_INT, USERNAME], hv + [hb, user]), PIPE);
    AppendField(p2, HEADER_TAGS + [HEART_BT_INT, USERNAME], hv + [hb, user], PASSWORD, password);
    assert HEADER_TAGS + [HEART_BT_INT, USERNAME] + [PASSWORD] == HEADER_TAGS + [HEART_BT_INT, USERNAME, PASSWORD];
    assert hv + [hb, user] + [password] == [Ascii("A"), Dec(seqNum), Ascii("CQG"), sendingTime, hb, user, password];
  }


  /** `login`: read back field by field, the message carries BeginString,
      BodyLength, then MsgType `A`, MsgSeqNum, SenderCompID `CQG`,
      SendingTime, HeartBtInt, user name and password in this order, then
      CheckSum. BodyLength counts the 35 bytes of tags, delimiters and fixed
      values plus the variable parts. */
  lemma LoginFields(seqNum: u32, user: seq<u8>, password: seq<u8>, heartbeatIntervalSec: u32, sendingTime: seq<u8>)
    requires Plain(user) && Plain(password) && Plain(sendingTime)
    ensures var f := Fields(Login(seqNum, user, password, heartbeatIntervalSec, sendingTime));
            && |f| == 10
            && f[0] == Field(Dec(BEGIN_STRING), Ascii("FIX.5.0.SP2"))
            && f[1] == Field(Dec(BODY_LENGTH), Dec(35 + |Dec(seqNum)| + |Dec(heartbeatIntervalSec)| + |user| + |password| + |sendingTime|))
            && f[2..9] == Pairs([MSG_TYPE, MSG_SEQ_NUM, SENDER_COMP_ID, SENDING_TIME, HEART_BT_INT, USERNAME, PASSWORD],
                                [Ascii("A"), Dec(seqNum), Ascii("CQG"), sendingTime, Dec(heartbeatIntervalSec), user, password])
            && f[9].tag == Dec(CHECK_SUM)
  {
    var text := LoginText(seqNum, user, password, heartbeatIntervalSec, sendingTime);
    var values := [Ascii("A"), Dec(seqNum), Ascii("CQG"), sendingTime, Dec(heartbeatIntervalSec), user, password];
    LoginTextJoin(seqNum, user, password, heartbeatIntervalSec, sendingTime);
    LiteralsPlain();
    DecPlain(seqNum);
    DecPlain(heartbeatIntervalSec);
    AllPlain7(Ascii("A"), Dec(seqNum), Ascii("CQG"), sendingTime, Dec(heartbeatIntervalSec), user, password);
    MessageFields(text, HEADER_TAGS + [HEART_BT_INT, USERNAME, PASSWORD], values);
    assert |text| + 1 == 35 + |Dec(seqNum)| + |Dec(heartbeatIntervalSec)| + |user| + |password| + |sendingTime|;
  }

  lemma LogoutTextJoin(seqNum: u32, message: seq<u8>, sendingTime: seq<u8>)
    ensures LogoutText(seqNum, message, sendingTime) + [PIPE]
         == Join(TagValues(HEADER_TAGS + [TEXT], [Ascii("5"), Dec(seqNum), Ascii("CQG"), sendingTime, message]), PIPE)
  {
    LogoutSeparator();
    var hv := [Ascii("5"), Dec(seqNum), Ascii("CQG"), sendingTime];
    HeaderJoin(seqNum, Ascii("5"), sendingTime);
    AppendField(Header(seqNum, Ascii("5"), sendingTime), HEADER_TAGS, hv, TEXT, message);
    assert hv + [message] == [Ascii("5"), Dec(seqNum), Ascii("CQG"), sendingTime, message];
  }

  /** `logout`: BeginString, BodyLength, MsgType `5`, MsgSeqNum,
      SenderCompID `CQG`, SendingTime, Text, CheckSum; BodyLength counts 24
      fixed bytes plus the variable parts. */
  lemma LogoutFields(seqNum: u32, message: seq<u8>, sendingTime: seq<u8>)
    requires Plain(message) && Plain(sendingTime)
    ensures var f := Fields(Logout(seqNum, message, sendingTime));
            && |f| == 8
            && f[0] == Field(Dec(BEGIN_STRING), Ascii("FIX.5.0.SP2"))
            && f[1] == Field(Dec(BODY_LENGTH), Dec(24 + |Dec(seqNum)| + |sendingTime| + |message|))
            && f[2..7] == Pairs([MSG_TYPE, MSG_SEQ_NUM, SENDER_COMP_ID, SENDING_TIME, TEXT],
                                [Ascii("5"), Dec(seqNum), Ascii("CQG"), sendingTime, message])
            && f[7].tag == Dec(CHECK_SUM)
  {
    var text := LogoutText(seqNum, message, sendingTime);
    var values := [Ascii("5"), Dec(seqNum), Ascii("CQG"), sendingTime, message];
    LogoutTextJoin(seqNum, message, sendingTime);
    LiteralsPlain();
    DecPlain(seqNum);
    AllPlain5(Ascii("5"), Dec(seqNum), Ascii("CQG"), sendingTime, message);
    MessageFields(text, HEADER_TAGS + [TEXT], values);
    assert |text| + 1 == 24 + |Dec(seqNum)| + |sendingTime| + |message|;
  }

  lemma RequestTextJoin(seqNum: u32, feedId: u32, sendingTime: seq<u8>)
    ensures RequestText(seqNum, feedId, sendingTime) + [PIPE]
         == Join(TagValues(HEADER_TAGS + [APPL_ID], [Ascii("c"), Dec(seqNum), Ascii("CQG"), sendingTime, Dec(feedId)]), PIPE)
  {
    RequestSeparator();
    var hv := [Ascii("c"), Dec(seqNum), Ascii("CQG"), sendingTime];
    HeaderJoin(seqNum, Ascii("c"), sendingTime);
    AppendField(Header(seqNum, Ascii("c"), sendingTime), HEADER_TAGS, hv, APPL_ID, Dec(feedId));
    assert hv + [Dec(feedId)] == [Ascii("c"), Dec(seqNum), Ascii("CQG"), sendingTime, Dec(feedId)];
  }

  /** `request`: BeginString, BodyLength, MsgType `c`, MsgSeqNum,
      SenderCompID `CQG`, SendingTime, the feed id under tag 1180, CheckSum;
      BodyLength counts 26 fixed bytes plus the variable parts. */
  lemma RequestFields(seqNum: u32, feedId: u32, sendingTime: seq<u8>)
    requires Plain(sendingTime)
    ensures var f := Fields(Request(seqNum, feedId, sendingTime));
            && |f| == 8
            && f[0] == Field(Dec(BEGIN_STRING), Ascii("FIX.5.0.SP2"))
            && f[1] == Field(Dec(BODY_LENGTH), Dec(26 + |Dec(seqNum)| + |sendingTime| + |Dec(feedId)|))
            && f[2..7] == Pairs([MSG_TYPE, MSG_SEQ_NUM, SENDER_COMP_ID, SENDING_TIME, APPL_ID],
                                [Ascii("c"), Dec(seqNum), Ascii("CQG"), sendingTime, Dec(feedId)])
            && f[7].tag == Dec(CHECK_SUM)
  {
    var text := RequestText(seqNum, feedId, sendingTime);
    var values := [Ascii("c"), Dec(seqNum), Ascii("CQG"), sendingTime, Dec(feedId)];
    RequestTextJoin(seqNum, feedId, sendingTime);
    LiteralsPlain();
    DecPlain(seqNum);
    DecPlain(feedId);
    AllPlain5(Ascii("c"), Dec(seqNum), Ascii("CQG"), sendingTime, Dec(feedId));
    MessageFields(text, HEADER_TAGS + [APPL_ID], values);
    assert |text| + 1 == 26 + |Dec(seqNum)| + |sendingTime| + |Dec(feedId)|;
  }

  // ---------------------------------------------------------------------
  // The unit tests' messages, with any 17-byte `%Y%m%d-%H:%M:%S` time

  /** `login(1, "user", "password", 60)`: BodyLength 67 and the fields the
      test looks up. */
  lemma LoginExample(sendingTime: seq<u8>)
    requires Plain(sendingTime) && |sendingTime| == 17
    ensures var f := Fields(Login(1, Ascii("user"), Ascii("password"), 60, sendingTime));
            && |f| == 10
            && f[0] == Field(Ascii("8"), Ascii("FIX.5.0.SP2"))
            && f[1] == Field(Ascii("9"), Ascii("67"))
            && f[2] == Field(Ascii("35"), Ascii("A"))
            && f[3] == Field(Ascii("34"), Ascii("1"))
            && f[4] == Field(Ascii("49"), Ascii("CQG"))
            && f[6] == Field(Ascii("108"), Ascii("60"))
            && f[7] == Field(Ascii("553"), Ascii("user"))
            && f[8] == Field(Ascii("554"), Ascii("password"))
  {
    HeaderLiterals();
    LoginLiterals();
    LoginTagLiterals();
    LoginFields(1, Ascii("user"), Ascii("password"), 60, sendingTime);
    var f := Fields(Login(1, Ascii("user"), Ascii("password"), 60, sendingTime));
    PairsAt(f, 2, [MSG_TYPE, MSG_SEQ_NUM, SENDER_COMP_ID, SENDING_TIME, HEART_BT_INT, USERNAME, PASSWORD],
            [Ascii("A"), Dec(1), Ascii("CQG"), sendingTime, Dec(60), Ascii("user"), Ascii("password")]);
  }

  /** Reading a run of fields laid out by `Pairs` one at a time. */
  lemma PairsAt(f: seq<Field>, lo: nat, tags: seq<nat>, values: seq<seq<u8>>)
    requires |tags| == |values| && lo + |tags| <= |f|
    requires f[lo..lo + |tags|] == Pairs(tags, values)
    ensures forall i :: 0 <= i < |tags| ==> f[lo + i] == Field(Dec(tags[i]), values[i])
  {
    forall i | 0 <= i < |tags|
      ensures f[lo + i] == Field(Dec(tags[i]), values[i])
    {
      assert f[lo..lo + |tags|][i] == f[lo + i];
    }
  }

  lemma HeaderLiterals()
    ensures Dec(BEGIN_STRING) == Ascii("8") && Dec(BODY_LENGTH) == Ascii("9")
    ensures Dec(MSG_TYPE) == Ascii("35") && Dec(MSG_SEQ_NUM) == Ascii("34") && Dec(SENDER_COMP_ID) == Ascii("49")
  {
  }

  lemma LoginLiterals()
    ensures Plain(Ascii("user")) && Plain(Ascii("password"))
    ensures Dec(1) == Ascii("1") && Dec(60) == Ascii("60") && Dec(67) == Ascii("67")
  {
  }

  lemma LoginTagLiterals()
    ensures Dec(HEART_BT_INT) == Ascii("108")
    ensures Dec(USERNAME) == Ascii("553")
    ensures Dec(PASSWORD) == Ascii("554")
  {
    ThreeDigits(HEART_BT_INT);
    ThreeDigits(USERNAME);
    ThreeDigits(PASSWORD);
  }

  /** `logout(2, "Logout")`: BodyLength 48 and the fields the test looks up. */
  lemma LogoutExample(sendingTime: seq<u8>)
    requires Plain(sendingTime) && |sendingTime| == 17
    ensures var f := Fields(Logout(2, Ascii("Logout"), sendingTime));
            && |f| == 8
            && f[0] == Field(Ascii("8"), Ascii("FIX.5.0.SP2"))
            && f[1] == Field(Ascii("9"), Ascii("48"))
            && f[2] == Field(Ascii("35"), Ascii("5"))
            && f[3] == Field(Ascii("34"), Ascii("2"))
            && f[4] == Field(Ascii("49"), Ascii("CQG"))
            && f[6] == Field(Ascii("58"), Ascii("Logout"))
  {
    HeaderLiterals();
    LogoutLiterals();
    LogoutFields(2, Ascii("Logout"), sendingTime);
    var f := Fields(Logout(2, Ascii("Logout"), sendingTime));
    PairsAt(f, 2, [MSG_TYPE, MSG_SEQ_NUM, SENDER_COMP_ID, SENDING_TIME, TEXT],
            [Ascii("5"), Dec(2), Ascii("CQG"), sendingTime, Ascii("Logout")]);
  }

  lemma LogoutLiterals()
    ensures Plain(Ascii("Logout"))
    ensures Dec(TEXT) == Ascii("58") && Dec(2) == Ascii("2") && Dec(48) == Ascii("48")
  {
  }

  /** `request(3, 85)`: BodyLength 46 and the fields the test looks up. */
  lemma RequestExample(sendingTime: seq<u8>)
    requires Plain(sendingTime) && |sendingTime| == 17
    ensures var f := Fields(Request(3, 85, sendingTime));
            && |f| == 8
            && f[0] == Field(Ascii("8"), Ascii("FIX.5.0.SP2"))
            && f[1] == Field(Ascii("9"), Ascii("46"))
            && f[2] == Field(Ascii("35"), Ascii("c"))
            && f[3] == Field(Ascii("34"), Ascii("3"))
            && f[4] == Field(Ascii("49"), Ascii("CQG"))
            && f[6] == Field(Ascii("1180"), Ascii("85"))
  {
    HeaderLiterals();
    RequestLiterals();
    RequestFields(3, 85, sendingTime);
    var f := Fields(Request(3, 85, sendingTime));
    PairsAt(f, 2, [MSG_TYPE, MSG_SEQ_NUM, SENDER_COMP_ID, SENDING_TIME, APPL_ID],
            [Ascii("c"), Dec(3), Ascii("CQG"), sendingTime, Dec(85)]);
  }

  lemma RequestLiterals()
    ensures Dec(APPL_ID) == Ascii("1180") && Dec(3) == Ascii("3") && Dec(85) == Ascii("85") && Dec(46) == Ascii("46")
  {
    FourDigits(APPL_ID);
    TwoDigits(85);
    TwoDigits(46);
  }

  // ---------------------------------------------------------------------
  // The checksum test's vector, whose sending time is written out

  /** The logon text of the checksum test, cut into pieces short enough for
      their byte sums to be added up one at a time. */
  const CRC_TEXT: string := "35=A|34=1|" + "49=CQG|52=" + "20250620-" + "10:22:47|" + "108=60|" + "553=user|" + "554=passw" + "ord"

  lemma {:induction false} ByteSumAppend(a: seq<u8>, b: seq<u8>)
    ensures ByteSum(a + b) == ByteSum(a) + ByteSum(b)
  {
    if a == [] {
      assert a + b == b;
    } else {
      assert (a + b)[0] == a[0];
      assert (a + b)[1..] == a[1..] + b;
      ByteSumAppend(a[1..], b);
    }
  }

  lemma AsciiAppend(a: string, b: string)
    ensures Ascii(a + b) == Ascii(a) + Ascii(b)
  {
  }

  /** The byte sum of a literal as sent (every `|` an SOH) adds up piece by
      piece. */
  lemma WireSumAppend(a: string, b: string)
    ensures ByteSum(SohForPipe(Ascii(a + b))) == ByteSum(SohForPipe(Ascii(a))) + ByteSum(SohForPipe(Ascii(b)))
  {
    AsciiAppend(a, b);
    SohForPipeAppend(Ascii(a), Ascii(b));
    ByteSumAppend(SohForPipe(Ascii(a)), SohForPipe(Ascii(b)));
  }

  /** The CheckSum of a framed text, from the byte sums of its header and its
      text: `wraps` times 256 plus the checksum. */
  lemma ChecksumOfSums(head: seq<u8>, text: seq<u8>, headSum: nat, textSum: nat, wraps: nat, sum: nat)
    requires ByteSum(head) == headSum && ByteSum(SohForPipe(text)) == textSum
    requires headSum + textSum + 1 == 256 * wraps + sum && sum < 256
    ensures Checksum(head + Body(text)) == sum
  {
    SohForPipeAppend(text, [PIPE]);
    assert SohForPipe([PIPE]) == [SOH];
    ByteSumAppend(SohForPipe(text), [SOH]);
    ByteSumAppend(head, Body(text));
    assert ByteSum(head + Body(text)) == 256 * wraps + sum;
  }

  /** `fixit(text)` is the `|`-separated message `head`, `text`, `tail` with
      SOH substituted, when `head` spells BeginString and the BodyLength of
      `text`, and `tail` spells the delimiter and the CheckSum field whose
      value the byte sums give. */
  lemma FixitLiteral(text: seq<u8>, head: seq<u8>, tail: seq<u8>, length: nat, headSum: nat, textSum: nat,
                     wraps: nat, sum: nat)
    requires |text| + 1 == length && SohForPipe(head) == BeginAndLength(length)
    requires ByteSum(SohForPipe(head)) == headSum && ByteSum(SohForPipe(text)) == textSum
    requires headSum + textSum + 1 == 256 * wraps + sum && sum < 256
    requires SohForPipe(tail) == [SOH] + Ascii("10=") + Dec(sum) + [SOH]
    ensures Fixit(text) == SohForPipe(head + text + tail)
  {
    FixitFraming(text);
    ChecksumOfSums(SohForPipe(head), text, headSum, textSum, wraps, sum);
    SohForPipeAppend(head, text);
    SohForPipeAppend(head + text, tail);
    SohForPipeAppend(text, [PIPE]);
  }

  /** `test_crc`: the logon text with its sending time written out frames as
      BodyLength 67 and CheckSum 117, exactly the expected bytes. */
  lemma CrcVector()
    ensures Fixit(Ascii(CRC_TEXT)) == SohForPipe(Ascii("8=FIX.5.0.SP2|9=67|" + CRC_TEXT + "|10=117|"))
  {
    AsciiAppend("8=FIX.5.0.SP2|9=67|", CRC_TEXT);
    AsciiAppend("8=FIX.5.0.SP2|9=67|" + CRC_TEXT, "|10=117|");
    CrcHead();
    CrcHeadSum();
    CrcTextSum();
    CrcTail();
    FixitLiteral(Ascii(CRC_TEXT), Ascii("8=FIX.5.0.SP2|9=67|"), Ascii("|10=117|"), 67, 1029, 3951, 19, 117);
  }

  lemma CrcHead()
    ensures SohForPipe(Ascii("8=FIX.5.0.SP2|9=67|")) == BeginAndLength(67)
  {
    TwoDigits(67);
  }

  lemma CrcTail()
    ensures SohForPipe(Ascii("|10=117|")) == [SOH] + Ascii("10=") + Dec(117) + [SOH]
  {
    ThreeDigits(117);
  }

  lemma CrcHeadSum()
    ensures ByteSum(SohForPipe(Ascii("8=FIX.5.0.SP2|9=67|"))) == 1029
  {
    CrcPiece9();
    CrcPiece10();
    assert "8=FIX.5.0.SP2|9=67|" == "8=FIX.5.0." + "SP2|9=67|";
    WireSumAppend("8=FIX.5.0.", "SP2|9=67|");
  }

  lemma CrcTextSum()
    ensures ByteSum(SohForPipe(Ascii(CRC_TEXT))) == 3951
  {
    CrcPiece1();
    CrcPiece2();
    CrcPiece3();
    CrcPiece4();
    CrcPiece5();
    CrcPiece6();
    CrcPiece7();
    CrcPiece8();
    WireSumAppend("35=A|34=1|", "49=CQG|52=");
    WireSumAppend("35=A|34=1|" + "49=CQG|52=", "20250620-");
    WireSumAppend("35=A|34=1|" + "49=CQG|52=" + "20250620-", "10:22:47|");
    WireSumAppend("35=A|34=1|" + "49=CQG|52=" + "20250620-" + "10:22:47|", "108=60|");
    WireSumAppend("35=A|34=1|" + "49=CQG|52=" + "20250620-" + "10:22:47|" + "108=60|", "553=user|");
    WireSumAppend("35=A|34=1|" + "49=CQG|52=" + "20250620-" + "10:22:47|" + "108=60|" + "553=user|", "554=passw");
    WireSumAppend("35=A|34=1|" + "49=CQG|52=" + "20250620-" + "10:22:47|" + "108=60|" + "553=user|" + "554=passw", "ord");
  }

  lemma CrcPiece1()
    ensures ByteSum(SohForPipe(Ascii("35=A|34=1|"))) == 445
  {
    assert SohForPipe(Ascii("35=A|34=1|")) == [51, 53, 61, 65, 1] + [51, 52, 61, 49, 1];
    ByteSumAppend([51, 53, 61, 65, 1], [51, 52, 61, 49, 1]);
  }

  lemma CrcPiece2()
    ensures ByteSum(SohForPipe(Ascii("49=CQG|52="))) == 554
  {
    assert SohForPipe(Ascii("49=CQG|52=")) == [52, 57, 61, 67, 81] + [71, 1, 53, 50, 61];
    ByteSumAppend([52, 57, 61, 67, 81], [71, 1, 53, 50, 61]);
  }

  lemma CrcPiece3()
    ensures ByteSum(SohForPipe(Ascii("20250620-"))) == 446
  {
    assert SohForPipe(Ascii("20250620-")) == [50, 48, 50, 53] + [48, 54, 50, 48, 45];
    ByteSumAppend([50, 48, 50, 53], [48, 54, 50, 48, 45]);
  }

  lemma CrcPiece4()
    ensures ByteSum(SohForPipe(Ascii("10:22:47|"))) == 421
  {
    assert SohForPipe(Ascii("10:22:47|")) == [49, 48, 58, 50] + [50, 58, 52, 55, 1];
    ByteSumAppend([49, 48, 58, 50], [50, 58, 52, 55, 1]);
  }

  lemma CrcPiece5()
    ensures ByteSum(SohForPipe(Ascii("108=60|"))) == 317
  {
    assert SohForPipe(Ascii("108=60|")) == [49, 48, 56] + [61, 54, 48, 1];
    ByteSumAppend([49, 48, 56], [61, 54, 48, 1]);
  }

  lemma CrcPiece6()
    ensures ByteSum(SohForPipe(Ascii("553=user|"))) == 666
  {
    assert SohForPipe(Ascii("553=user|")) == [53, 53, 51, 61] + [117, 115, 101, 114, 1];
    ByteSumAppend([53, 53, 51, 61], [117, 115, 101, 114, 1]);
  }

  lemma CrcPiece7()
    ensures ByteSum(SohForPipe(Ascii("554=passw"))) == 777
  {
    assert SohForPipe(Ascii("554=passw")) == [53, 53, 52, 61] + [112, 97, 115, 115, 119];
    ByteSumAppend([53, 53, 52, 61], [112, 97, 115, 115, 119]);
  }

  lemma CrcPiece8()
    ensures ByteSum(SohForPipe(Ascii("ord"))) == 325
  {
    assert SohForPipe(Ascii("ord")) == [111] + [114, 100];
    ByteSumAppend([111], [114, 100]);
  }

  lemma CrcPiece9()
    ensures ByteSum(SohForPipe(Ascii("8=FIX.5.0."))) == 587
  {
    assert SohForPipe(Ascii("8=FIX.5.0.")) == [56, 61, 70, 73, 88] + [46, 53, 46, 48, 46];
    ByteSumAppend([56, 61, 70, 73, 88], [46, 53, 46, 48, 46]);
  }

  lemma CrcPiece10()
    ensures ByteSum(SohForPipe(Ascii("SP2|9=67|"))) == 442
  {
    assert SohForPipe(Ascii("SP2|9=67|")) == [83, 80, 50, 1] + [57, 61, 54, 55, 1];
    ByteSumAppend([83, 80, 50, 1], [57, 61, 54, 55, 1]);
  }
}
