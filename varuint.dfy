/** The stop-bit variable-length unsigned integer of FAST 1.1, as used for
    TCP frame lengths: 7-bit groups, most significant group first, the high
    bit (0x80) set on the last byte only.

    Bit operations are written arithmetically on bytes in 0..255:
    `b & 0x80 == 0x80` is `b >= 128`, `b & 0x7f` is `b % 128`, and
    `(v << 7) | (b & 0x7f)` on a u64 is `(v * 128 + b % 128) % 2^64`. */
module VarUint {
  import opened Wire

  /** One decoding step: shift the accumulator left by 7 bits, dropping the
      bits pushed out of the 64-bit word, and put the low 7 bits of `b` in. */
  function Step(acc: u64, b: u8): u64
  {
    (acc * 128 + b % 128) % U64_LIMIT
  }

  /** The decoder's accumulator after the bytes `s`, folded left to right from 0. */
  function Accumulate(s: seq<u8>): u64
  {
    if s == [] then 0 else Step(Accumulate(s[..|s| - 1]), s[|s| - 1])
  }

  /** Index of the first byte carrying the stop bit, or `|s|` when there is none. */
  function FirstStop(s: seq<u8>): (j: nat)
    ensures j <= |s|
    ensures forall k :: 0 <= k < j ==> s[k] < 128
    ensures j < |s| ==> s[j] >= 128
  {
    if s == [] then 0 else if s[0] >= 128 then 0 else 1 + FirstStop(s[1..])
  }

  /** What `read_var_uint` makes of a stream holding `s`: end of stream when
      not even one byte is there, a hard error when the input ends before a
      stop bit, otherwise the accumulated value of the bytes up to and
      including the first stop byte. */
  function ParseVarUint(s: seq<u8>): (p: Parsed<u64>)
    ensures p.Eof? <==> s == []
    ensures p.Fail? <==> s != [] && forall k :: 0 <= k < |s| ==> s[k] < 128
    ensures p.Fail? ==> p == Fail(Io(UnexpectedEof), [])
    ensures p.Got? ==> |p.rest| < |s| && s == s[..|s| - |p.rest|] + p.rest
    ensures p.Got? ==> s[|s| - |p.rest| - 1] >= 128
    ensures p.Got? ==> forall k :: 0 <= k < |s| - |p.rest| - 1 ==> s[k] < 128
  {
    if s == [] then Eof
    else
      var j := FirstStop(s);
      if j == |s| then Fail(Io(UnexpectedEof), [])
      else Got(Accumulate(s[..j + 1]), s[j + 1..])
  }

  /** The 7-bit groups of `w`, most significant first, none of them with the
      stop bit; empty for 0. */
  function Digits(w: nat): (d: seq<u8>)
    ensures forall k :: 0 <= k < |d| ==> d[k] < 128
  {
    if w == 0 then [] else Digits(w / 128) + [w % 128]
  }

  function Pow128(k: nat): (r: nat)
    ensures r >= 1
  {
    if k == 0 then 1 else 128 * Pow128(k - 1)
  }

  lemma {:induction false} DigitsLength(w: nat, k: nat)
    requires w < Pow128(k)
    ensures |Digits(w)| <= k
  {
    if w != 0 {
      DigitsLength(w / 128, k - 1);
    }
  }

  /** The bytes `write_var_uint` emits for `v`. */
  function Encode(v: u64): (e: seq<u8>)
    ensures 1 <= |e| <= 10
    ensures e[|e| - 1] >= 128
    ensures forall k :: 0 <= k < |e| - 1 ==> e[k] < 128
    ensures v == 0 ==> e == [0x80]
  {
    assert Pow128(9) == 0x8000_0000_0000_0000;
    DigitsLength(v / 128, 9);
    Digits(v / 128) + [v % 128 + 128]
  }

  lemma {:induction false} AccumulateDigits(w: nat)
    requires w < U64_LIMIT
    ensures Accumulate(Digits(w)) == w
  {
    if w != 0 {
      var q, m := w / 128, w % 128;
      var d := Digits(q);
      AccumulateDigits(q);
      assert (d + [m])[..|d|] == d;
      assert Accumulate(d + [m]) == Step(q, m);
      StepSplits(q, m);
      assert m % 128 == m;
    }
  }

  /** A step undoes the split of a value into its high part and its last group. */
  lemma StepSplits(q: nat, b: u8)
    requires q * 128 + b % 128 < U64_LIMIT
    ensures Step(q, b) == q * 128 + b % 128
  {
  }

  /** Reading back what `write_var_uint` wrote yields the value and consumes
      exactly the written bytes, whatever follows them. */
  lemma {:induction false} VarUintRoundTrip(v: u64, rest: seq<u8>)
    ensures ParseVarUint(Encode(v) + rest) == Got(v, rest)
  {
    var e := Encode(v);
    var s := e + rest;
    var d := Digits(v / 128);
    assert e == d + [v % 128 + 128];
    var j := FirstStop(s);
    assert forall k :: 0 <= k < |e| ==> s[k] == e[k];
    assert s[|e| - 1] >= 128;
    assert j == |e| - 1;
    assert s[..j + 1] == e;
    AccumulateEncode(v);
    assert s[j + 1..] == rest;
  }

  lemma AccumulateEncode(v: u64)
    ensures Accumulate(Encode(v)) == v
  {
    var q, m := v / 128, v % 128;
    var d := Digits(q);
    assert Encode(v) == d + [m + 128];
    AccumulateLast(d, m + 128);
    AccumulateDigits(q);
    StopBitDropped(m);
    StepSplits(q, m + 128);
  }

  /** The stop bit does not reach the accumulator. */
  lemma StopBitDropped(m: nat)
    requires m < 128
    ensures (m + 128) % 128 == m
  {
  }

  /** The accumulator after one more byte is one more step. */
  lemma AccumulateLast(d: seq<u8>, b: u8)
    ensures Accumulate(d + [b]) == Step(Accumulate(d), b)
  {
    assert (d + [b])[..|d|] == d;
  }

  /** A sequence cut short before any stop bit is an error, not end of stream. */
  lemma TruncatedIsError(v: u64)
    requires v >= 128
    ensures ParseVarUint(Encode(v)[..|Encode(v)| - 1]) == Fail(Io(UnexpectedEof), [])
  {
  }

  function Reversed(s: seq<u8>): (r: seq<u8>)
    ensures |r| == |s|
  {
    if s == [] then [] else [s[|s| - 1]] + Reversed(s[..|s| - 1])
  }

  /** `read_var_uint`: pulls one byte at a time, stops after the first byte
      with the stop bit. */
  method ReadVarUint(input: InputStream) returns (r: Result<Option<u64>, Error>)
    modifies input
    ensures Yields(ParseVarUint(old(input.rest)), r, input.rest)
  {
    ghost var s := input.rest;
    var value: u64 := 0;
    var first := input.ReadExact(1);
    if first.Err? {
      // failing to read the first byte means the stream has ended
      return Ok(None);
    }
    var b := first.value[0];
    ghost var n := 1;
    while true
      invariant 1 <= n <= |s| && input.rest == s[n..] && b == s[n - 1]
      invariant forall k :: 0 <= k < n - 1 ==> s[k] < 128
      invariant value == Accumulate(s[..n - 1])
      decreases |input.rest|
    {
      assert s[..n][..n - 1] == s[..n - 1];
      value := Step(value, b);
      if b >= 128 {
        assert FirstStop(s) == n - 1;
        return Ok(Some(value));
      }
      var next := input.ReadExact(1);
      if next.Err? {
        assert FirstStop(s) == |s|;
        return Err(Io(next.error));
      }
      b := next.value[0];
      n := n + 1;
    }
  }

  /** `write_var_uint`: pushes the groups least significant first (the first
      one with the stop bit), reverses the buffer and writes it in one call. */
  method WriteVarUint(output: OutputStream, value: u64) returns (r: Result<(), Error>)
    modifies output
    ensures r.Ok? <==> |Encode(value)| <= old(output.capacity)
    ensures r.Ok? ==> output.data == old(output.data) + Encode(value)
    ensures r.Err? ==> r.error == Io(BrokenPipe) && output.data == old(output.data)
    ensures r.Err? ==> output.capacity == 0
    ensures r.Ok? ==> output.capacity == old(output.capacity) - |Encode(value)|
  {
    var v: nat := value;
    var buf: seq<u8> := [v % 128 + 128];
    while true
      invariant Digits(v / 128) + Reversed(buf) == Encode(value)
      decreases v
    {
      v := v / 128;
      if v == 0 {
        break;
      }
      assert (buf + [v % 128])[..|buf|] == buf;
      buf := buf + [v % 128];
    }
    var w := output.WriteAll(Reversed(buf));
    if w.Err? {
      return Err(Io(w.error));
    }
    r := Ok(());
  }
}
