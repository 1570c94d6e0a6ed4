/** The receiving end: `IncomingClipboard` and the value-level machine it refines. */
module Reassembly {
  import opened Wire
  import opened OrderedMap

  /** One call of `commit_text`, `commit_image` or `commit_file`. */
  datatype Handoff = Handoff(format: nat, bytes: Bytes)

  /** The three receive switches, as read when an offer arrives. */
  datatype Toggles = Toggles(text: bool, images: bool, files: bool)

  datatype Rx = Rx(expectedLen: nat, expectedFormat: nat,
                   received: seq<Entry>, receivedTotal: nat,
                   progress: nat, total: nat,
                   handoffs: seq<Handoff>)

  const EMPTY: Rx := Rx(0, 0, [], 0, 0, 0, [])

  predicate KnownFormat(format: nat) {
    format == FORMAT_TEXT || format == FORMAT_IMAGE || format == FORMAT_FILE
  }

  predicate Declined(t: Toggles, format: nat) {
    || (format == FORMAT_TEXT && !t.text)
    || (format == FORMAT_IMAGE && !t.images)
    || (format == FORMAT_FILE && !t.files)
  }

  function Cap(format: nat): nat {
    if format == FORMAT_IMAGE then MAX_IMAGE_BYTES
    else if format == FORMAT_TEXT then MAX_TEXT_BYTES
    else MAX_FILE_PAYLOAD_BYTES
  }

  /** The offers that arm reassembly. */
  predicate Accepted(t: Toggles, format: nat, totalLen: nat) {
    KnownFormat(format) && !Declined(t, format) && totalLen <= Cap(format)
  }

  function SaturatingAdd(a: nat, b: nat): nat {
    if a + b < U32 then a + b else U32 - 1
  }

  /** A u32 product. The source multiplies plainly, so overflow must be excluded. */
  function MulU32(a: nat, b: nat): (r: nat)
    requires a * b < U32
    ensures r < U32
  {
    a * b
  }

  function Cleared(rx: Rx): Rx {
    EMPTY.(handoffs := rx.handoffs)
  }

  function Offer(rx: Rx, t: Toggles, format: nat, totalLen: nat): Rx {
    if Accepted(t, format, totalLen)
    then Rx(totalLen, format, [], 0, 0, totalLen, rx.handoffs)
    else Cleared(rx)
  }

  /** The answer sent back for an offer. */
  function Reply(t: Toggles, format: nat): Option<Message> {
    if KnownFormat(format) && Declined(t, format) then Some(ClipDecline(format)) else None
  }

  function Commit(rx: Rx): Rx {
    var buf := Values(rx.received);
    if CountsUp(rx.received) && |buf| % U32 == rx.expectedLen && KnownFormat(rx.expectedFormat)
    then Cleared(rx).(handoffs := rx.handoffs + [Handoff(rx.expectedFormat, buf)])
    else Cleared(rx)
  }

  /** A chunk stored, and counted only when its index is new. */
  function Stored(rx: Rx, index: nat, data: Bytes): Rx {
    var added := |data| % U32;
    var kept := rx.(received := Insert(rx.received, index, data));
    if Find(rx.received, index).Some? then kept
    else kept.(receivedTotal := SaturatingAdd(rx.receivedTotal, added), progress := rx.progress + added)
  }

  function Chunk(rx: Rx, index: nat, data: Bytes): Rx {
    if rx.expectedLen == 0 then rx
    else
      var kept := Stored(rx, index, data);
      if kept.receivedTotal >= kept.expectedLen then Commit(kept) else kept
  }

  /**
   * What holds between any two calls: the running total has not reached the declared
   * length, the length is within the cap of a known format, the indices are u16s and
   * every stored chunk fits a packet.
   */
  ghost predicate Sound(rx: Rx) {
    && (rx.receivedTotal < rx.expectedLen || (rx.expectedLen == 0 && rx.receivedTotal == 0))
    && rx.expectedLen <= MAX_FILE_PAYLOAD_BYTES
    && (rx.expectedLen > 0 ==> KnownFormat(rx.expectedFormat) && rx.expectedLen <= Cap(rx.expectedFormat))
    && Packed(rx.received)
    && rx.progress == rx.receivedTotal
    && rx.total == rx.expectedLen
  }

  ghost predicate Packed(es: seq<Entry>) {
    Ordered(es) && forall i | 0 <= i < |es| :: Decodable(es[i].key, es[i].data)
  }

  /** The decoder's guarantee for every `ClipChunk` it hands over. */
  predicate Decodable(index: nat, data: Bytes) {
    index < U16 && |data| <= CHUNK_SIZE
  }

  lemma InsertKeepsPacked(es: seq<Entry>, index: nat, data: Bytes)
    requires Packed(es) && Decodable(index, data)
    ensures Packed(Insert(es, index, data))
  {
    InsertKeepsOrder(es, index, data);
    var inserted := Insert(es, index, data);
    forall i | 0 <= i < |inserted| ensures Decodable(inserted[i].key, inserted[i].data) {
      InsertAddsOnly(es, index, data, i);
    }
  }

  lemma SoundForever(rx: Rx, t: Toggles, format: nat, totalLen: nat, index: nat, data: Bytes)
    requires Sound(rx)
    ensures Sound(Cleared(rx)) && Sound(Offer(rx, t, format, totalLen)) && Sound(Commit(rx))
    ensures Decodable(index, data) ==> Sound(Chunk(rx, index, data))
  {
    if Decodable(index, data) { InsertKeepsPacked(rx.received, index, data); }
  }

  /**
   * Inside one chunk step nothing overflows: the saturating add never saturates, the
   * running total stays below the declared length plus one chunk, and both milestone
   * products fit a u32.
   */
  lemma StepArithmetic(rx: Rx, index: nat, data: Bytes)
    requires Sound(rx) && Decodable(index, data) && rx.expectedLen > 0
    ensures var total := Stored(rx, index, data).receivedTotal;
            && total == rx.receivedTotal + (if Find(rx.received, index).Some? then 0 else |data|)
            && total < rx.expectedLen + CHUNK_SIZE
            && total * 4 < U32 && total * 100 < U32
  {
  }

  lemma {:induction false} ValuesBound(es: seq<Entry>)
    requires forall i | 0 <= i < |es| :: |es[i].data| <= 4094
    ensures |Values(es)| <= |es| * 4094
  {
    if es != [] { ValuesBound(es[1..]); }
  }

  /** The reassembled buffer is far below 2^32 bytes, so its u32 length is exact. */
  lemma BufferLengthIsExact(es: seq<Entry>)
    requires Packed(es)
    ensures |Values(es)| < U32
  {
    if es != [] { PositionBound(es, |es| - 1); }
    ValuesBound(es);
  }

  /** The percentage logged when a quarter of the declared length is crossed. */
  method Milestone(before: nat, after: nat, expected: nat) returns (percent: Option<nat>)
    requires before <= after && 0 < expected && after * 100 < U32
  {
    percent := None;
    if MulU32(after, 4) / expected > MulU32(before, 4) / expected {
      percent := Some(MulU32(after, 100) / expected);
    }
  }

  class IncomingClipboard {
    var expectedLen: nat
    var expectedFormat: nat
    var received: seq<Entry>
    var receivedTotal: nat
    var incomingProgress: nat
    var incomingTotal: nat
    /** The payloads handed to the three commit routines so far. */
    var handoffs: seq<Handoff>

    ghost function View(): Rx
      reads this
    {
      Rx(expectedLen, expectedFormat, received, receivedTotal, incomingProgress, incomingTotal, handoffs)
    }

    ghost predicate Valid()
      reads this
    {
      Sound(View())
    }

    constructor ()
      ensures Valid() && View() == EMPTY
    {
      expectedLen, expectedFormat := 0, 0;
      received, receivedTotal := [], 0;
      incomingProgress, incomingTotal := 0, 0;
      handoffs := [];
    }

    method Reset()
      modifies this
      ensures View() == Cleared(old(View())) && Valid()
    {
      expectedLen, expectedFormat := 0, 0;
      received, receivedTotal := [], 0;
      incomingProgress, incomingTotal := 0, 0;
    }

    method OnOffer(t: Toggles, format: nat, totalLen: nat) returns (reply: Option<Message>)
      requires Valid()
      modifies this
      ensures Valid()
      ensures View() == Offer(old(View()), t, format, totalLen)
      ensures reply == Reply(t, format)
    {
      reply := None;
      if format != FORMAT_TEXT && format != FORMAT_IMAGE && format != FORMAT_FILE {
        Reset();
        return;
      }
      if format == FORMAT_TEXT && !t.text {
        Reset();
        return Some(ClipDecline(format));
      }
      if format == FORMAT_IMAGE && !t.images {
        Reset();
        return Some(ClipDecline(format));
      }
      if format == FORMAT_FILE && !t.files {
        Reset();
        return Some(ClipDecline(format));
      }
      var overCap := match format
        case 1 => totalLen > MAX_IMAGE_BYTES
        case 0 => totalLen > MAX_TEXT_BYTES
        case _ => totalLen > MAX_FILE_PAYLOAD_BYTES;
      if overCap {
        Reset();
        return;
      }
      expectedLen, expectedFormat := totalLen, format;
      received, receivedTotal := [], 0;
      incomingTotal, incomingProgress := totalLen, 0;
    }

    method OnChunk(index: nat, data: Bytes)
      requires Valid() && Decodable(index, data)
      modifies this
      ensures Valid()
      ensures View() == Chunk(old(View()), index, data)
    {
      if expectedLen == 0 {
        return;
      }
      SoundForever(View(), Toggles(true, true, true), 0, 0, index, data);
      StepArithmetic(View(), index, data);
      assert Valid();
      var added := |data| % U32;
      var isNew := Find(received, index).None?;
      received := Insert(received, index, data);
      if isNew {
        var before := receivedTotal;
        receivedTotal := SaturatingAdd(receivedTotal, added);
        incomingProgress := incomingProgress + added;
        var percent := Milestone(before, receivedTotal, expectedLen);
      }
      if receivedTotal >= expectedLen {
        CommitPayload();
      }
    }

    method CommitPayload()
      modifies this
      ensures View() == Commit(old(View())) && Valid()
    {
      var i, contiguous := 0, true;
      while i < |received| && contiguous
        invariant 0 <= i <= |received|
        invariant contiguous <==> forall j | 0 <= j < i :: received[j].key == j
      {
        contiguous := received[i].key == i;
        i := i + 1;
      }
      if !contiguous {
        Reset();
        return;
      }
      assert CountsUp(received);
      var buf: Bytes := [];
      while received != []
        invariant buf + Values(received) == Values(old(received))
        invariant expectedLen == old(expectedLen) && expectedFormat == old(expectedFormat)
        invariant handoffs == old(handoffs)
        decreases |received|
      {
        buf, received := buf + received[0].data, received[1..];
      }
      assert buf == Values(old(received));
      if |buf| % U32 != expectedLen {
        Reset();
        return;
      }
      if expectedFormat == FORMAT_TEXT || expectedFormat == FORMAT_IMAGE || expectedFormat == FORMAT_FILE {
        handoffs := handoffs + [Handoff(expectedFormat, buf)];
      }
      Reset();
    }
  }
}
