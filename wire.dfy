/** Machine integer ranges, the library's error type and the two byte-stream
    endpoints (a reader and a writer) that the packet framing works on. */
module Wire {

  const U32_LIMIT: int := 0x1_0000_0000
  const U64_LIMIT: int := 0x1_0000_0000_0000_0000

  type u8 = x: int | 0 <= x < 0x100
  type u32 = x: int | 0 <= x < 0x1_0000_0000
  type u64 = x: int | 0 <= x < 0x1_0000_0000_0000_0000

  datatype Option<+T> = None | Some(value: T)

  datatype Result<+T, +E> = Ok(value: T) | Err(error: E)

  /** The kinds of I/O failure the framing code can observe. */
  datatype IoError =
    | UnexpectedEof   // `read_exact` ran out of input before filling its buffer
    | BrokenPipe      // `write_all` could not hand its bytes to the peer

  /** The library's error enum: a bad TCP length or UDP size, or an I/O error. */
  datatype Error = InvalidPacketLength(len: u64) | Io(kind: IoError)

  /** Outcome of reading one item from the front of a byte sequence, with the
      bytes left unread afterwards. */
  datatype Parsed<+T> =
    | Eof                                  // nothing at all could be read
    | Fail(error: Error, rest: seq<u8>)
    | Got(value: T, rest: seq<u8>)

  /** `r` and the remaining input `rest` are what the parse `p` describes. */
  predicate Yields<T(==)>(p: Parsed<T>, r: Result<Option<T>, Error>, rest: seq<u8>)
  {
    match p
    case Eof => r == Ok(None) && rest == []
    case Fail(e, s) => r == Err(e) && rest == s
    case Got(v, s) => r == Ok(Some(v)) && rest == s
  }

  /** A blocking byte source (a TCP stream or a recorded file): the bytes it
      will still deliver. */
  class InputStream {
    var rest: seq<u8>

    constructor (bytes: seq<u8>)
      ensures rest == bytes
    {
      rest := bytes;
    }

    /** `read_exact`: exactly `n` bytes, or `UnexpectedEof` when fewer are
        left, in which case the remaining bytes are consumed and lost. */
    method ReadExact(n: nat) returns (r: Result<seq<u8>, IoError>)
      modifies this
      ensures n <= |old(rest)| ==> r == Ok(old(rest)[..n]) && rest == old(rest)[n..]
      ensures n > |old(rest)| ==> r == Err(UnexpectedEof) && rest == []
      ensures r.Ok? ==> |r.value| == n && old(rest) == r.value + rest
    {
      if n <= |rest| {
        r := Ok(rest[..n]);
        rest := rest[n..];
      } else {
        r := Err(UnexpectedEof);
        rest := [];
      }
    }
  }

  /** A byte sink: what the peer has accepted so far, and how many more bytes
      it accepts before the connection breaks. */
  class OutputStream {
    var data: seq<u8>
    var capacity: nat

    constructor (capacity: nat)
      ensures data == [] && this.capacity == capacity
    {
      data := [];
      this.capacity := capacity;
    }

    /** `write_all`: the whole buffer is accepted, or the call fails with
        `BrokenPipe` and the stream accepts nothing more. */
    method WriteAll(buf: seq<u8>) returns (r: Result<(), IoError>)
      modifies this
      ensures r.Ok? <==> |buf| <= old(capacity)
      ensures r.Ok? ==> data == old(data) + buf && capacity == old(capacity) - |buf|
      ensures r.Err? ==> r.error == BrokenPipe && data == old(data) && capacity == 0
    {
      if |buf| <= capacity {
        data := data + buf;
        capacity := capacity - |buf|;
        r := Ok(());
      } else {
        capacity := 0;
        r := Err(BrokenPipe);
      }
    }
  }
}
