/** Length-prefixed frames between the command line and the service. */
module Framing {
  import opened Outcomes

  type Byte = b: int | 0 <= b < 256

  const MAX_FRAME_BYTES: nat := 8 * 1024 * 1024
  const U32_SIZE: nat := 0x1_0000_0000
  const PREFIX: nat := 4

  datatype FrameError = TooLarge | StreamEnded

  /** A cast to `u32` keeps the low 32 bits. */
  function AsU32(n: nat): (r: nat)
    ensures r < U32_SIZE
  {
    n % U32_SIZE
  }

  /** Big-endian bytes of a `u32`. */
  function Encode(n: nat): (bytes: seq<Byte>)
    requires n < U32_SIZE
    ensures |bytes| == PREFIX
  {
    [n / 0x100_0000, n / 0x1_0000 % 256, n / 0x100 % 256, n % 256]
  }

  function Digit(bytes: seq<Byte>, i: nat): (n: nat)
    requires i < |bytes|
    ensures n < 256
  {
    bytes[i]
  }

  function Decode(bytes: seq<Byte>): (n: nat)
    requires |bytes| >= PREFIX
  {
    ((Digit(bytes, 0) * 256 + Digit(bytes, 1)) * 256 + Digit(bytes, 2)) * 256 + Digit(bytes, 3)
  }

  lemma LengthRoundTrip(n: nat, rest: seq<Byte>)
    requires n < U32_SIZE
    ensures Decode(Encode(n) + rest) == n
  {
  }

  lemma DecodedIsLength(bytes: seq<Byte>)
    requires |bytes| >= PREFIX
    ensures Decode(bytes) < U32_SIZE && Encode(Decode(bytes)) == bytes[..PREFIX]
  {
    var n := Decode(bytes);
    assert n / 0x100 == (Digit(bytes, 0) * 256 + Digit(bytes, 1)) * 256 + Digit(bytes, 2);
    assert n / 0x1_0000 == Digit(bytes, 0) * 256 + Digit(bytes, 1);
    assert n / 0x100_0000 == Digit(bytes, 0);
    assert bytes[..PREFIX] == [bytes[0], bytes[1], bytes[2], bytes[3]];
  }

  function Frame(payload: seq<Byte>): seq<Byte>
    requires |payload| <= MAX_FRAME_BYTES
  {
    Encode(|payload|) + payload
  }

  /** A byte stream with what was written and what is still to be read. */
  class Stream {
    var written: seq<Byte>
    var unread: seq<Byte>

    constructor (unread: seq<Byte>)
      ensures written == [] && this.unread == unread
    {
      written, this.unread := [], unread;
    }

    /** Writes a frame; a payload that is too large writes nothing at all. */
    method WriteFrame(payload: seq<Byte>) returns (r: Result<(), FrameError>)
      modifies this
      ensures unread == old(unread)
      ensures |payload| > MAX_FRAME_BYTES ==> r == Err(TooLarge) && written == old(written)
      ensures |payload| <= MAX_FRAME_BYTES ==> r == Ok(()) && written == old(written) + Frame(payload)
    {
      if |payload| > MAX_FRAME_BYTES {
        return Err(TooLarge);
      }
      assert AsU32(|payload|) == |payload|;
      written := written + Encode(AsU32(|payload|));
      written := written + payload;
      return Ok(());
    }

    /** Reads exactly `n` bytes, or fails and takes what there is. */
    method ReadExact(n: nat) returns (r: Result<seq<Byte>, FrameError>)
      modifies this
      ensures written == old(written)
      ensures n <= |old(unread)| ==> r == Ok(old(unread)[..n]) && unread == old(unread)[n..]
      ensures n > |old(unread)| ==> r == Err(StreamEnded) && unread == []
    {
      if n > |unread| {
        unread := [];
        return Err(StreamEnded);
      }
      r := Ok(unread[..n]);
      unread := unread[n..];
    }

    method ReadFrame() returns (r: Result<seq<Byte>, FrameError>)
      modifies this
      ensures written == old(written)
      ensures var p := Parse(old(unread)); r == p.0 && unread == p.1
    {
      var prefix := ReadExact(PREFIX);
      if prefix.Err? {
        return Err(StreamEnded);
      }
      var length := Decode(prefix.value);
      if length > MAX_FRAME_BYTES {
        return Err(TooLarge);
      }
      ghost var stream := old(unread);
      r := ReadExact(length);
      assert PREFIX + length <= |stream| ==>
        stream[PREFIX..][..length] == stream[PREFIX..PREFIX + length] && stream[PREFIX..][length..] == stream[PREFIX + length..];
    }
  }

  /** What reading a frame makes of a stream: the payload or the error, and what remains. */
  function Parse(stream: seq<Byte>): (Result<seq<Byte>, FrameError>, seq<Byte>) {
    if |stream| < PREFIX then (Err(StreamEnded), [])
    else if Decode(stream[..PREFIX]) > MAX_FRAME_BYTES then (Err(TooLarge), stream[PREFIX..])
    else if PREFIX + Decode(stream[..PREFIX]) > |stream| then (Err(StreamEnded), [])
    else (Ok(stream[PREFIX..PREFIX + Decode(stream[..PREFIX])]), stream[PREFIX + Decode(stream[..PREFIX])..])
  }

  predicate AllFit(payloads: seq<seq<Byte>>) {
    forall i :: 0 <= i < |payloads| ==> |payloads[i]| <= MAX_FRAME_BYTES
  }

  function Frames(payloads: seq<seq<Byte>>): seq<Byte>
    requires AllFit(payloads)
  {
    if payloads == [] then [] else Frame(payloads[0]) + Frames(payloads[1..])
  }

  /** Reading succeeds exactly on streams that start with a frame, and takes exactly that frame. */
  lemma ParseInvertsFrame(stream: seq<Byte>, payload: seq<Byte>, rest: seq<Byte>)
    ensures Parse(stream) == (Ok(payload), rest) <==> |payload| <= MAX_FRAME_BYTES && stream == Frame(payload) + rest
  {
    if |payload| <= MAX_FRAME_BYTES && stream == Frame(payload) + rest {
      var prefix := Encode(|payload|);
      assert stream[..PREFIX] == prefix && prefix + [] == prefix;
      LengthRoundTrip(|payload|, []);
      assert stream[PREFIX..PREFIX + |payload|] == payload && stream[PREFIX + |payload|..] == rest;
    }
    if Parse(stream) == (Ok(payload), rest) {
      DecodedIsLength(stream);
      var n := Decode(stream);
      assert Decode(stream[..PREFIX]) == n && |payload| == n;
      assert stream == stream[..PREFIX] + stream[PREFIX..PREFIX + n] + stream[PREFIX + n..];
    }
  }

  lemma ReadOneOf(payloads: seq<seq<Byte>>, rest: seq<Byte>)
    requires payloads != [] && AllFit(payloads)
    ensures Parse(Frames(payloads) + rest) == (Ok(payloads[0]), Frames(payloads[1..]) + rest)
  {
    var first, after := Frame(payloads[0]), Frames(payloads[1..]);
    assert (first + after) + rest == first + (after + rest);
    ParseInvertsFrame(first + (after + rest), payloads[0], after + rest);
  }

  /** Reading frame after frame: the payloads and what remains, if no reading fails. */
  function ParseMany(stream: seq<Byte>, n: nat): Option<(seq<seq<Byte>>, seq<Byte>)> {
    if n == 0 then Some(([], stream))
    else
      match Parse(stream)
      case (Err(_), _) => None
      case (Ok(payload), rest) =>
        match ParseMany(rest, n - 1)
        case None => None
        case Some((payloads, left)) => Some(([payload] + payloads, left))
  }

  /** Reading as many frames as were written returns exactly the payloads and leaves the rest of the stream. */
  lemma {:induction false} ReadBackFrames(payloads: seq<seq<Byte>>, rest: seq<Byte>)
    requires AllFit(payloads)
    ensures ParseMany(Frames(payloads) + rest, |payloads|) == Some((payloads, rest))
  {
    if payloads == [] {
      assert [] + rest == rest;
    } else {
      ReadOneOf(payloads, rest);
      ReadBackFrames(payloads[1..], rest);
      assert payloads == [payloads[0]] + payloads[1..];
    }
  }

  lemma FrameInFront(payload: seq<Byte>, payloads: seq<seq<Byte>>, rest: seq<Byte>)
    requires |payload| <= MAX_FRAME_BYTES && AllFit(payloads)
    ensures AllFit([payload] + payloads)
    ensures Frame(payload) + (Frames(payloads) + rest) == Frames([payload] + payloads) + rest
  {
    assert ([payload] + payloads)[1..] == payloads;
  }

  /** Conversely, whatever can be read as frames was written as frames. */
  lemma {:induction false} ReadFramesWereWritten(stream: seq<Byte>, n: nat)
    requires ParseMany(stream, n).Some?
    ensures var (payloads, rest) := ParseMany(stream, n).value;
            |payloads| == n && AllFit(payloads) && stream == Frames(payloads) + rest
  {
    if n > 0 {
      var (head, after) := Parse(stream);
      ReadFramesWereWritten(after, n - 1);
      var (tail, rest) := ParseMany(after, n - 1).value;
      ParseInvertsFrame(stream, head.value, after);
      FrameInFront(head.value, tail, rest);
    } else {
      assert stream == [] + stream;
    }
  }

  /** The number that four bytes stand for, the most significant first. */
  function BigEndian(b: seq<Byte>): int
    requires |b| >= 4
  {
    var (b0, b1, b2, b3) := (b[0] as int, b[1] as int, b[2] as int, b[3] as int);
    b0 * 16_777_216 + b1 * 65_536 + b2 * 256 + b3
  }

  lemma BytesAddUp(n: nat)
    requires n < U32_SIZE
    ensures n / 0x100_0000 * 16_777_216 + n / 0x1_0000 % 256 * 65_536 + n / 0x100 % 256 * 256 + n % 256 == n
  {
    var a, b, c := n / 0x100, n / 0x1_0000, n / 0x100_0000;
    assert n == a * 256 + n % 256;
    assert a / 256 == b && a == b * 256 + a % 256;
    assert b / 256 == c && b == c * 256 + b % 256;
  }

  lemma BytesOfLength(n: nat, rest: seq<Byte>)
    requires n < U32_SIZE
    ensures BigEndian(Encode(n) + rest) == n
  {
    var b := Encode(n) + rest;
    assert b[0] == Encode(n)[0] && b[1] == Encode(n)[1] && b[2] == Encode(n)[2] && b[3] == Encode(n)[3];
    BytesAddUp(n);
  }

  /** A frame is the length in four bytes, the most significant first, and then the payload. */
  lemma FrameLayout(payload: seq<Byte>)
    requires |payload| <= 8_388_608
    ensures var f := Frame(payload);
            |f| == 4 + |payload| && f[4..] == payload && BigEndian(f) == |payload|
  {
    BytesOfLength(|payload|, payload);
  }

  /** A frame is refused as too large exactly when it announces more than 8 MiB. */
  lemma LimitIsEightMegabytes(stream: seq<Byte>)
    ensures Parse(stream).0 == Err(TooLarge) <==> |stream| >= 4 && BigEndian(stream) > 8_388_608
  {
    if |stream| >= 4 {
      var prefix := stream[..PREFIX];
      assert prefix[0] == stream[0] && prefix[1] == stream[1] && prefix[2] == stream[2] && prefix[3] == stream[3];
    }
  }
}
