/** Clipboard packets, the limits both ends agree on, and the outgoing queue. */
module Wire {
  type Byte = b: int | 0 <= b < 256

  type Bytes = seq<Byte>

  /** First values that no longer fit a u16 and a u32. */
  const U16: nat := 0x1_0000
  const U32: nat := 0x1_0000_0000

  /** The data of one full `ClipChunk`: a 4096-byte payload less its 2-byte index. */
  const CHUNK_SIZE: nat := 4094

  const FORMAT_TEXT: nat := 0
  const FORMAT_IMAGE: nat := 1
  const FORMAT_FILE: nat := 2

  const MAX_TEXT_BYTES: nat := 256 * 1024
  const MAX_IMAGE_BYTES: nat := 20 * 1024 * 1024
  const MAX_FILE_PAYLOAD_BYTES: nat := 20 * 1024 * 1024 + 4096 + 2

  datatype Option<+T> = None | Some(value: T)

  datatype Result<+T, +E> = Ok(value: T) | Err(error: E)

  datatype Message =
    | ClipOffer(format: nat, totalLen: nat)
    | ClipChunk(index: nat, data: Bytes)
    | ClipDecline(format: nat)

  /** The unbounded channel drained by the writer thread. */
  class PacketQueue {
    var packets: seq<Message>

    constructor ()
      ensures packets == []
    {
      packets := [];
    }

    method Send(m: Message)
      modifies this
      ensures packets == old(packets) + [m]
    {
      packets := packets + [m];
    }
  }
}
