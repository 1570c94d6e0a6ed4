/** How one payload is cut into an offer and its chunks (`emit_offer_and_chunks`). */
module ClipSender {
  import opened Wire

  /** Rust's `payload.chunks(CHUNK_SIZE)`. */
  function Chunks(payload: Bytes): seq<Bytes> {
    if |payload| == 0 then []
    else if |payload| <= CHUNK_SIZE then [payload]
    else [payload[..CHUNK_SIZE]] + Chunks(payload[CHUNK_SIZE..])
  }

  function Concat(parts: seq<Bytes>): Bytes {
    if parts == [] then [] else parts[0] + Concat(parts[1..])
  }

  /** Chunk packets numbered from `from`, each index cut down to a u16. */
  function Numbered(parts: seq<Bytes>, from: nat): seq<Message> {
    if parts == [] then []
    else [ClipChunk(from % U16, parts[0])] + Numbered(parts[1..], from + 1)
  }

  /** Everything one transfer puts on the queue. */
  function Emission(format: nat, payload: Bytes): seq<Message> {
    [ClipOffer(format, |payload| % U32)] + Numbered(Chunks(payload), 0)
  }

  method EmitOfferAndChunks(queue: PacketQueue, format: nat, payload: Bytes)
    modifies queue
    ensures queue.packets == old(queue.packets) + Emission(format, payload)
  {
    queue.Send(ClipOffer(format, |payload| % U32));
    var rest, idx := payload, 0;
    while rest != []
      invariant queue.packets + Numbered(Chunks(rest), idx) == old(queue.packets) + Emission(format, payload)
      decreases |rest|
    {
      var size := if |rest| <= CHUNK_SIZE then |rest| else CHUNK_SIZE;
      var chunk := rest[..size];
      assert chunk == Chunks(rest)[0] && Chunks(rest)[1..] == Chunks(rest[size..]);
      queue.Send(ClipChunk(idx % U16, chunk));
      rest, idx := rest[size..], idx + 1;
    }
  }

  lemma {:induction false} ConcatSplit(a: seq<Bytes>, b: seq<Bytes>)
    ensures Concat(a + b) == Concat(a) + Concat(b)
  {
    if a == [] {
      assert a + b == b;
    } else {
      assert (a + b)[1..] == a[1..] + b;
      ConcatSplit(a[1..], b);
    }
  }

  /** Nothing is lost or reordered by the cutting. */
  lemma {:induction false} ConcatOfChunks(payload: Bytes)
    ensures Concat(Chunks(payload)) == payload
  {
    if |payload| > CHUNK_SIZE {
      ConcatOfChunks(payload[CHUNK_SIZE..]);
      assert Chunks(payload)[1..] == Chunks(payload[CHUNK_SIZE..]);
    }
  }

  /** No chunk is empty and none is larger than a packet can carry. */
  lemma {:induction false} ChunkSizes(payload: Bytes, i: nat)
    requires i < |Chunks(payload)|
    ensures 0 < |Chunks(payload)[i]| <= CHUNK_SIZE
  {
    if |payload| > CHUNK_SIZE && i > 0 {
      ChunkSizes(payload[CHUNK_SIZE..], i - 1);
    }
  }

  lemma {:induction false} ChunkCountBound(payload: Bytes, k: nat)
    requires |payload| <= k * 4094
    ensures |Chunks(payload)| <= k
  {
    if |payload| > CHUNK_SIZE {
      ChunkCountBound(payload[CHUNK_SIZE..], k - 1);
    }
  }

  lemma {:induction false} NumberedAt(parts: seq<Bytes>, from: nat, i: nat)
    requires i < |parts|
    ensures |Numbered(parts, from)| == |parts|
    ensures Numbered(parts, from)[i] == ClipChunk((from + i) % U16, parts[i])
  {
    if |parts| > 1 {
      NumberedAt(parts[1..], from + 1, if i == 0 then 0 else i - 1);
    }
  }

  lemma EmissionLength(format: nat, payload: Bytes)
    ensures |Emission(format, payload)| == 1 + |Chunks(payload)|
  {
    if Chunks(payload) != [] { NumberedAt(Chunks(payload), 0, 0); }
  }

  /**
   * Within the largest cap the 16-bit index and the 32-bit length are exact: packet
   * `i + 1` of the transfer is chunk `i`, under its own index.
   */
  lemma EmissionIsExact(format: nat, payload: Bytes)
    requires |payload| <= MAX_FILE_PAYLOAD_BYTES
    ensures Emission(format, payload)[0] == ClipOffer(format, |payload|)
    ensures |Chunks(payload)| <= U16
    ensures |Emission(format, payload)| == 1 + |Chunks(payload)|
    ensures forall i | 0 <= i < |Chunks(payload)| ::
              Emission(format, payload)[1 + i] == ClipChunk(i, Chunks(payload)[i])
  {
    ChunkCountBound(payload, 65536);
    var parts := Chunks(payload);
    forall i | 0 <= i < |parts|
      ensures |Numbered(parts, 0)| == |parts|
      ensures Numbered(parts, 0)[i] == ClipChunk(i, parts[i])
    {
      NumberedAt(parts, 0, i);
    }
  }
}
