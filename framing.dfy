/**
 * `read_stream` of the networking crate: reading one frame from a
 * connected socket.  The socket is the sequence of bytes the peer still
 * sends (everything up to the moment it closes) and the bytes this side
 * has written; reads consume it from the front.
 */
module Framing {
  import opened Wrappers
  import opened Wire
  import opened Errors
  import Definitions

  /** `MAX_PAYLOAD_SIZE`: a declared length above this is not read. */
  const MaxPayloadSize: nat := 2048

  /** What tokio's `read_exact` fails with when the stream ends first. */
  const EarlyEof := IoError(UnexpectedEof, "early eof")
  /** What tokio's `read_u8` and `read_u16` fail with when the stream ends first: `ErrorKind::UnexpectedEof`'s own message. */
  const EndOfFile := IoError(UnexpectedEof, "unexpected end of file")
  const PeerGone := IoError(BrokenPipe, "broken pipe")

  /** A TCP stream as the connection code sees it. */
  class TcpStream {
    /** What the peer sends from now until it closes the connection. */
    var incoming: seq<Byte>
    /** What this side has written so far. */
    var outgoing: seq<Byte>
    /** Whether the peer still takes writes. */
    const writable: bool

    constructor (incoming: seq<Byte>, writable: bool)
      ensures this.incoming == incoming && outgoing == [] && this.writable == writable
    {
      this.incoming := incoming;
      this.outgoing := [];
      this.writable := writable;
    }

    /** tokio's `read_u8`. */
    method ReadU8() returns (r: Result<Byte, IoError>)
      modifies this`incoming
      ensures old(incoming) == [] ==> r == Err(EndOfFile) && incoming == []
      ensures old(incoming) != [] ==> r == Ok(old(incoming)[0]) && incoming == old(incoming)[1..]
    {
      if incoming == [] {
        r := Err(EndOfFile);
      } else {
        r := Ok(incoming[0]);
        incoming := incoming[1..];
      }
    }

    /** tokio's `read_u16`: two bytes, big-endian; a stream that ends first is drained. */
    method ReadU16() returns (r: Result<U16, IoError>)
      modifies this`incoming
      ensures |old(incoming)| < 2 ==> r == Err(EndOfFile) && incoming == []
      ensures |old(incoming)| >= 2 ==>
        r == Ok(BigEndianU16(old(incoming)[0], old(incoming)[1])) && incoming == old(incoming)[2..]
    {
      if |incoming| < 2 {
        r := Err(EndOfFile);
        incoming := [];
      } else {
        r := Ok(BigEndianU16(incoming[0], incoming[1]));
        incoming := incoming[2..];
      }
    }

    /** tokio's `read_exact` into a buffer of `n` bytes; a stream that ends first is drained. */
    method ReadExact(n: nat) returns (r: Result<seq<Byte>, IoError>)
      modifies this`incoming
      ensures |old(incoming)| < n ==> r == Err(EarlyEof) && incoming == []
      ensures |old(incoming)| >= n ==> r == Ok(old(incoming)[..n]) && incoming == old(incoming)[n..]
    {
      if |incoming| < n {
        r := Err(EarlyEof);
        incoming := [];
      } else {
        r := Ok(incoming[..n]);
        incoming := incoming[n..];
      }
    }

    /** tokio's `write_all`. */
    method WriteAll(bytes: seq<Byte>) returns (r: Result<(), IoError>)
      modifies this`outgoing
      ensures writable ==> r == Ok(()) && outgoing == old(outgoing) + bytes
      ensures !writable ==> r == Err(PeerGone) && outgoing == old(outgoing)
    {
      if writable {
        outgoing := outgoing + bytes;
        r := Ok(());
      } else {
        r := Err(PeerGone);
      }
    }
  }

  /** A frame as `read_stream` returns it: its type and its payload bytes. */
  datatype Received = Received(mtype: Definitions.MessageType, payload: seq<Byte>)

  /** How `read_stream` ends, and what is left of the incoming bytes afterwards. */
  datatype Decoded = Decoded(exit: Exit<Result<Received, CommunicationError>>, rest: seq<Byte>)

  /**
   * What `read_stream` does to the incoming bytes.  Whenever it returns a
   * frame, the bytes it consumed are exactly that frame's encoding and the
   * payload is within the limit; in every case it only consumes a prefix.
   */
  function DecodeFrame(input: seq<Byte>): (d: Decoded)
    ensures |d.rest| <= |input| && d.rest == input[|input| - |d.rest|..]
    ensures d.exit.Return? && d.exit.value.Ok? ==>
      var f := d.exit.value.value;
      |f.payload| <= MaxPayloadSize &&
      input == Frame(Definitions.Discriminant(f.mtype), f.payload) + d.rest
  {
    if |input| < 1 then Decoded(Return(Err(ReadError(EndOfFile))), [])
    else match Definitions.TryFrom(input[0])
      case Err(e) => Decoded(Return(Err(Io(e))), input[1..])
      case Ok(mtype) =>
        if |input| < 3 then Decoded(Return(Err(ReadError(EndOfFile))), [])
        else
          var size := BigEndianU16(input[1], input[2]);
          if size > MaxPayloadSize then Decoded(Panicked(Todo), input[3..])
          else if |input| < 3 + size then Decoded(Return(Err(ReadError(EarlyEof))), [])
          else
            var payload := input[3..3 + size];
            HeaderAndPayloadFormFrame(input, size);
            Decoded(Return(Ok(Received(mtype, payload))), input[3 + size..])
  }

  /** Bytes with a two-byte length header of `size` followed by `size` bytes start with a frame. */
  lemma HeaderAndPayloadFormFrame(input: seq<Byte>, size: nat)
    requires |input| >= 3 + size && size == BigEndianU16(input[1], input[2])
    ensures input == Frame(input[0], input[3..3 + size]) + input[3 + size..]
  {
    LengthBytesOfBigEndian(input[1], input[2]);
    assert input == [input[0]] + [input[1], input[2]] + input[3..3 + size] + input[3 + size..];
  }

  /** `read_stream` itself, consuming the stream piece by piece. */
  method ReadStream(stream: TcpStream) returns (exit: Exit<Result<Received, CommunicationError>>)
    modifies stream`incoming
    ensures DecodeFrame(old(stream.incoming)) == Decoded(exit, stream.incoming)
  {
    ghost var input := stream.incoming;
    var tag := stream.ReadU8();
    if tag.Err? {
      return Return(Err(ReadError(tag.error)));
    }
    var mtype := Definitions.TryFrom(tag.value);
    if mtype.Err? {
      return Return(Err(Io(mtype.error)));  // `?` converts the io error
    }
    var size := stream.ReadU16();
    if size.Err? {
      return Return(Err(ReadError(size.error)));
    }
    if size.value > MaxPayloadSize {
      return Panicked(Todo);
    }
    assert stream.incoming == input[3..];
    var payload := stream.ReadExact(size.value);
    if payload.Err? {
      return Return(Err(ReadError(payload.error)));
    }
    assert payload.value == input[3..3 + size.value] && stream.incoming == input[3 + size.value..];
    return Return(Ok(Received(mtype.value, payload.value)));
  }

  /** A tag outside {128, 1} fails after one byte, before the length is read. */
  lemma UnknownTagFailsFirst(input: seq<Byte>)
    requires |input| >= 1 && input[0] != 0x80 && input[0] != 0x01
    ensures DecodeFrame(input) == Decoded(Return(Err(Io(Definitions.InvalidMessageType))), input[1..])
  {
  }

  /**
   * A declared length above 2048 never yields a frame: it reaches the
   * `todo!()` after the three header bytes, without reading the payload.
   */
  lemma OversizeNeverReturnsFrame(input: seq<Byte>)
    requires |input| >= 3 && Definitions.TryFrom(input[0]).Ok?
    requires BigEndianU16(input[1], input[2]) > MaxPayloadSize
    ensures DecodeFrame(input) == Decoded(Panicked(Todo), input[3..])
  {
  }

  /** A stream that ends inside the header is a read error of the integer reads, and is drained. */
  lemma HeaderCutShort(input: seq<Byte>)
    requires |input| < 3 && (|input| == 0 || Definitions.TryFrom(input[0]).Ok?)
    ensures DecodeFrame(input) == Decoded(Return(Err(ReadError(EndOfFile))), [])
  {
  }

  /** A valid header whose payload is cut short ends in a read error, never a shorter frame. */
  lemma ShortPayloadIsReadError(input: seq<Byte>)
    requires |input| >= 3 && Definitions.TryFrom(input[0]).Ok?
    requires BigEndianU16(input[1], input[2]) <= MaxPayloadSize
    requires |input| < 3 + BigEndianU16(input[1], input[2])
    ensures DecodeFrame(input) == Decoded(Return(Err(ReadError(EarlyEof))), [])
  {
  }

  /**
   * Round trip: the frame `encode` writes for a payload of at most 2048
   * bytes is read back as the same type and payload, and the bytes after
   * it are left in the stream.
   */
  lemma DecodeEncode(mtype: Definitions.MessageType, payload: seq<Byte>, rest: seq<Byte>)
    requires |payload| <= MaxPayloadSize
    ensures DecodeFrame(Frame(Definitions.Discriminant(mtype), payload) + rest)
         == Decoded(Return(Ok(Received(mtype, payload))), rest)
  {
    var input := Frame(Definitions.Discriminant(mtype), payload) + rest;
    assert input[3..3 + |payload|] == payload;
    assert input[3 + |payload|..] == rest;
  }

  /** A payload of exactly 2048 bytes is still accepted. */
  lemma MaxSizeAccepted(mtype: Definitions.MessageType, payload: seq<Byte>)
    requires |payload| == MaxPayloadSize
    ensures DecodeFrame(Frame(Definitions.Discriminant(mtype), payload)).exit == Return(Ok(Received(mtype, payload)))
  {
    DecodeEncode(mtype, payload, []);
    assert Frame(Definitions.Discriminant(mtype), payload) + [] == Frame(Definitions.Discriminant(mtype), payload);
  }
}
