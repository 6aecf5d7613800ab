/**
 * `definitions.rs`: the message tags the connection code uses and the
 * encoder of a tagged, length-prefixed frame.
 */
module Definitions {
  import opened Wrappers
  import opened Wire
  import opened Errors

  datatype MessageType = Link | TextMessage

  /** `m as u8` under `#[repr(u8)]`. */
  function Discriminant(m: MessageType): Byte {
    match m
    case Link => 0x80  // 1 << 7
    case TextMessage => 0x01
  }

  const InvalidMessageType := IoError(InvalidInput, "invalid value given to convert to message type")

  /**
   * `TryFrom<u8> for MessageType`: exactly 128 and 1 are accepted, each
   * as the variant whose discriminant it is.
   */
  function TryFrom(value: Byte): (r: Result<MessageType, IoError>)
    ensures r.Ok? <==> value == 128 || value == 1
    ensures forall m :: r == Ok(m) <==> Discriminant(m) == value
    ensures r.Err? ==> r.error == InvalidMessageType
  {
    match value
    case 128 => Ok(Link)
    case 1 => Ok(TextMessage)
    case _ => Err(InvalidMessageType)
  }

  /** `encode` builds its buffer with `put_u8`, `put_u16` and the payload's own encoding. */
  method Encode(mtype: MessageType, message: seq<Byte>) returns (frame: seq<Byte>)
    ensures frame == Frame(Discriminant(mtype), message)
    ensures frame[0] == Discriminant(mtype)
    ensures BigEndianU16(frame[1], frame[2]) == |message| % 0x1_0000
    ensures frame[3..] == message && |frame| == 3 + |message|
  {
    var buf: seq<Byte> := [];
    buf := buf + [Discriminant(mtype)];
    var length: U16 := |message| % 0x1_0000;  // `encoded_len() as u16`
    buf := buf + [length / 0x100, length % 0x100];
    buf := buf + message;
    frame := buf;
  }

  /** The two tags are distinct, so a tag byte names one message type. */
  lemma DiscriminantInjective(m: MessageType, n: MessageType)
    ensures Discriminant(m) == Discriminant(n) <==> m == n
  {
  }
}
