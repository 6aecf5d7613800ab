/**
 * `protocol.rs`: the wider tag set of transfers (it adds
 * `PrepareFileTransfer`) and its own copy of the frame encoder.
 */
module Protocol {
  import opened Wrappers
  import opened Wire
  import opened Errors
  import Definitions

  datatype TransferType = Link | PrepareFileTransfer | TextMessage

  /** `t as u8` under `#[repr(u8)]`. */
  function Discriminant(t: TransferType): Byte {
    match t
    case Link => 0x80  // 1 << 7
    case PrepareFileTransfer => 0x02
    case TextMessage => 0x01
  }

  /**
   * `TryFrom<u8> for TransferType`: exactly 128, 1 and 2 are accepted,
   * each as the variant whose discriminant it is.
   */
  function TryFrom(value: Byte): (r: Result<TransferType, IoError>)
    ensures r.Ok? <==> value == 128 || value == 1 || value == 2
    ensures forall t :: r == Ok(t) <==> Discriminant(t) == value
    ensures r.Err? ==> r.error == Definitions.InvalidMessageType
  {
    match value
    case 128 => Ok(Link)
    case 1 => Ok(TextMessage)
    case 2 => Ok(PrepareFileTransfer)
    case _ => Err(Definitions.InvalidMessageType)
  }

  /** The same step-by-step buffer construction as `definitions::encode`. */
  method Encode(ttype: TransferType, message: seq<Byte>) returns (frame: seq<Byte>)
    ensures frame == Frame(Discriminant(ttype), message)
    ensures frame[0] == Discriminant(ttype)
    ensures BigEndianU16(frame[1], frame[2]) == |message| % 0x1_0000
    ensures frame[3..] == message && |frame| == 3 + |message|
  {
    var buf: seq<Byte> := [];
    buf := buf + [Discriminant(ttype)];
    var length: U16 := |message| % 0x1_0000;  // `encoded_len() as u16`
    buf := buf + [length / 0x100, length % 0x100];
    buf := buf + message;
    frame := buf;
  }

  /** The three tags are pairwise distinct. */
  lemma DiscriminantInjective(t: TransferType, u: TransferType)
    ensures Discriminant(t) == Discriminant(u) <==> t == u
  {
  }

  /**
   * `Link` and `TextMessage` carry the same tag here as in `MessageType`,
   * so both encoders write the same frame for them, and a frame of either
   * is read back by the other's `try_from`; `PrepareFileTransfer` has a tag
   * that `MessageType` rejects.
   */
  lemma TagsAgreeWithMessageType(message: seq<Byte>)
    ensures Discriminant(Link) == Definitions.Discriminant(Definitions.Link)
    ensures Discriminant(TextMessage) == Definitions.Discriminant(Definitions.TextMessage)
    ensures Frame(Discriminant(Link), message) == Frame(Definitions.Discriminant(Definitions.Link), message)
    ensures Frame(Discriminant(TextMessage), message) == Frame(Definitions.Discriminant(Definitions.TextMessage), message)
    ensures Definitions.TryFrom(Discriminant(PrepareFileTransfer)).Err?
  {
  }
}
