/** Shared vocabulary of the SOCKS5 engine: bytes, the error taxonomy, the
    results of reading from the client, and the client connection itself
    (a buffered reader with a cursor and a writer that only appends). */
module Wire {

  /** One octet on the wire. */
  type Byte = b: int | 0 <= b < 256

  /** An IP address as Go's net.IP holds it: 4 or 16 bytes when it is a
      valid address, the empty sequence for a nil address. */
  type IP = seq<Byte>

  /** The protocol version byte of SOCKS 5 (socks5Version). */
  const Socks5Version: Byte := 5

  datatype Option<T> = None | Some(value: T)

  /** The errors the engine returns. Constructors with a `cause` are the
      `fmt.Errorf("...: %v", err)` wrappers of the source. */
  datatype Error =
    | Eof                                   // io.EOF: nothing left to read
    | UnexpectedEof                         // io.ErrUnexpectedEOF: a read ended part way
    | UnsupportedSocksVersion(version: Byte)
    | FailedToAuthenticate(cause: Error)
    | FailedToHandleRequest(cause: Error)
    | FailedToGetAuthMethods(cause: Error)
    | UnsupportedAuthVersion(version: Byte)
    | UserAuthFailed
    | NoSupportedAuth
    | FailedToGetCommandVersion(cause: Error)
    | UnsupportedCommandVersion(version: Byte)
    | UnrecognizedAddrType
    | FailedToReadDestination(cause: Error)
    | FailedToResolve(fqdn: seq<Byte>)
    | UnsupportedCommand(command: Byte)
    | BlockedByRules(command: Byte)
    | ConnectFailed(message: string)
    | RelayFailed(message: string)
    | FailedToFormatAddress
    | FailedToSendReply(cause: Error)
    | NilAddressDereference                 // a Go run-time panic, not an error value

  datatype Result<T> = Ok(value: T) | Err(error: Error)

  /** What reading a field from the front of the unread input gives: the
      value or the error, and how many bytes the reader consumed. */
  datatype Parsed<T> = Done(value: T, used: nat) | Failed(err: Error, used: nat)
  {
    function ToResult(): Result<T>
    {
      match this
      case Done(v, _) => Ok(v)
      case Failed(e, _) => Err(e)
    }
  }

  /** What one protocol stage does to a connection: the error it returns
      (None for Go's nil), how many input bytes it consumed, and the bytes
      it wrote back to the client. */
  datatype Exchange = Exchange(err: Option<Error>, used: nat, out: seq<Byte>)

  /** A one-byte `Read` on the buffered reader. */
  function TakeByte(s: seq<Byte>): (r: Parsed<Byte>)
    ensures r.used <= |s|
    ensures r.Done? <==> |s| > 0
    ensures r.Done? ==> r.value == s[0] && r.used == 1
    ensures r.Failed? ==> r == Failed(Eof, 0)
  {
    if |s| == 0 then Failed(Eof, 0) else Done(s[0], 1)
  }

  /** `io.ReadAtLeast(r, buf, n)` with `len(buf) == n`: it succeeds exactly
      when n bytes are available; otherwise it consumes what is left and
      reports EOF if that was nothing, an unexpected EOF if not. */
  function TakeFull(s: seq<Byte>, n: nat): (r: Parsed<seq<Byte>>)
    ensures r.used <= |s|
    ensures r.Done? <==> n <= |s|
    ensures r.Done? ==> r.value == s[..n] && r.used == n
    ensures r.Failed? ==> r.used == |s| && r.err == (if |s| == 0 then Eof else UnexpectedEof)
  {
    if n <= |s| then Done(s[..n], n)
    else if |s| == 0 then Failed(Eof, 0)
    else Failed(UnexpectedEof, |s|)
  }

  /** `binary.BigEndian.Uint16` of two bytes. */
  function BigEndian16(hi: Byte, lo: Byte): (v: int)
    ensures 0 <= v < 0x1_0000
  {
    hi * 256 + lo
  }

  /** `binary.BigEndian.PutUint16` of `uint16(v)`: Go's conversion keeps the
      low 16 bits, which is `v % 0x1_0000` for negative v as well. */
  function PutUint16(v: int): (b: seq<Byte>)
    ensures |b| == 2
    ensures BigEndian16(b[0], b[1]) == v % 0x1_0000
  {
    var w := v % 0x1_0000;
    [w / 256, w % 256]
  }

  /** `strings.Contains(s, t)`: t occurs in s at some offset. */
  predicate Contains(s: string, t: string): (r: bool)
    ensures r <==> exists i :: 0 <= i <= |s| - |t| && t <= s[i..]
    decreases |s|
  {
    if t <= s then
      assert t <= s[0..];
      true
    else if |s| == 0 then false
    else
      var r := Contains(s[1..], t);
      assert forall i :: 1 <= i <= |s| ==> s[1..][i - 1..] == s[i..];
      r
  }

  /** An occurrence of t at offset i is found by Contains. */
  lemma {:induction false} ContainsAt(s: string, t: string, i: nat)
    requires i + |t| <= |s| && s[i..i + |t|] == t
    ensures Contains(s, t)
    decreases i
  {
    if i == 0 {
      assert t <= s;
    } else {
      assert s[1..][i - 1..i - 1 + |t|] == s[i..i + |t|];
      ContainsAt(s[1..], t, i - 1);
    }
  }

  /** Prepending text keeps every occurrence: Contains(s, t) implies Contains(p + s, t). */
  lemma {:induction false} ContainsAfterPrefix(p: string, s: string, t: string)
    requires Contains(s, t)
    ensures Contains(p + s, t)
    decreases |p|
  {
    if p == [] {
      assert p + s == s;
    } else {
      assert (p + s)[1..] == p[1..] + s;
      ContainsAfterPrefix(p[1..], s, t);
    }
  }

  lemma AppendAssociative<T>(a: seq<T>, b: seq<T>, c: seq<T>)
    ensures a + b + c == a + (b + c)
  {
  }

  /** The client connection as the engine sees it: every byte the client
      sends, the cursor of the buffered reader over them, every byte written
      back, and the peer address `RemoteAddr()` reports. */
  class Conn {
    const input: seq<Byte>
    var pos: nat
    var output: seq<Byte>
    var closed: bool
    const remoteIP: IP
    const remotePort: int

    constructor (input: seq<Byte>, remoteIP: IP, remotePort: int)
      ensures this.input == input && this.remoteIP == remoteIP && this.remotePort == remotePort
      ensures pos == 0 && output == [] && !closed
      ensures Valid()
    {
      this.input := input;
      this.remoteIP := remoteIP;
      this.remotePort := remotePort;
      pos := 0;
      output := [];
      closed := false;
    }

    predicate Valid()
      reads this
    {
      pos <= |input|
    }

    /** The bytes the reader has not consumed yet. */
    function Unread(): seq<Byte>
      reads this
      requires Valid()
    {
      input[pos..]
    }

    /** `Read` into a one-byte buffer. */
    method ReadByte() returns (r: Result<Byte>)
      requires Valid()
      modifies this`pos
      ensures Valid()
      ensures var p := TakeByte(old(Unread()));
        r == p.ToResult() && pos == old(pos) + p.used
    {
      if pos == |input| {
        return Err(Eof);
      }
      r := Ok(input[pos]);
      pos := pos + 1;
    }

    /** `io.ReadAtLeast` into a buffer of n bytes. */
    method ReadFull(n: nat) returns (r: Result<seq<Byte>>)
      requires Valid()
      modifies this`pos
      ensures Valid()
      ensures var p := TakeFull(old(Unread()), n);
        r == p.ToResult() && pos == old(pos) + p.used
    {
      if pos + n <= |input| {
        assert input[pos..][..n] == input[pos..pos + n];
        r := Ok(input[pos..pos + n]);
        pos := pos + n;
      } else if pos == |input| {
        r := Err(Eof);
      } else {
        r := Err(UnexpectedEof);
        pos := |input|;
      }
    }

    /** `Write`: appends the whole buffer. */
    method Write(b: seq<Byte>)
      modifies this`output
      ensures output == old(output) + b
    {
      output := output + b;
    }

    method Close()
      modifies this`closed
      ensures closed
    {
      closed := true;
    }
  }
}
