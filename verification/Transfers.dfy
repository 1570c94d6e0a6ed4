/**
 * Whole runs of sender, lossy wire and receiver: a transfer's offer arrives, then any
 * selection of its chunk packets, in any order and any number of times, before the next
 * offer.
 */
module Transfers {
  import opened Wire
  import opened OrderedMap
  import opened ClipSender
  import opened Reassembly

  /** `arrivals[j]` is the chunk that the j-th delivered chunk packet carries. */
  datatype Transfer = Transfer(format: nat, payload: Bytes, toggles: Toggles, arrivals: seq<nat>)

  predicate InRange(arrivals: seq<nat>, n: int) {
    forall j | 0 <= j < |arrivals| :: arrivals[j] < n
  }

  /** The payload length is an exact u32 and the wire only delivers packets that were sent. */
  ghost predicate Possible(t: Transfer) {
    && |t.payload| < U32
    && InRange(t.arrivals, |Chunks(t.payload)|)
  }

  function Picked(packets: seq<Message>, arrivals: seq<nat>): seq<Message>
    requires InRange(arrivals, |packets| - 1)
  {
    if arrivals == [] then []
    else Picked(packets, arrivals[..|arrivals| - 1]) + [packets[1 + arrivals[|arrivals| - 1]]]
  }

  /** The packets of one transfer that reach the receiver. */
  ghost function Delivered(t: Transfer): seq<Message>
    requires Possible(t)
  {
    EmissionLength(t.format, t.payload);
    [Emission(t.format, t.payload)[0]] + Picked(Emission(t.format, t.payload), t.arrivals)
  }

  function Receive(rx: Rx, t: Toggles, m: Message): Rx {
    match m
    case ClipOffer(format, len) => Offer(rx, t, format, len)
    case ClipChunk(index, data) => Chunk(rx, index, data)
    case ClipDecline(_) => rx
  }

  function ReceiveAll(rx: Rx, t: Toggles, ms: seq<Message>): Rx {
    if ms == [] then rx else Receive(ReceiveAll(rx, t, ms[..|ms| - 1]), t, ms[|ms| - 1])
  }

  ghost function RunAll(rx: Rx, ts: seq<Transfer>): Rx
    requires forall t | t in ts :: Possible(t)
  {
    if ts == [] then rx
    else
      var last := ts[|ts| - 1];
      ReceiveAll(RunAll(rx, ts[..|ts| - 1]), last.toggles, Delivered(last))
  }

  /** The receiver is willing, and there is something to send. */
  ghost predicate Takeable(t: Transfer) {
    t.payload != [] && Accepted(t.toggles, t.format, |t.payload|)
  }

  /** Every chunk of a payload that the receiver was willing to take arrived. */
  ghost predicate Complete(t: Transfer) {
    && Takeable(t)
    && forall i: nat | i < |Chunks(t.payload)| :: i in t.arrivals
  }

  ghost function Completed(ts: seq<Transfer>): seq<Handoff> {
    if ts == [] then []
    else
      var last := ts[|ts| - 1];
      Completed(ts[..|ts| - 1]) + (if Complete(last) then [Handoff(last.format, last.payload)] else [])
  }

  // ----- Sums over subsets of the chunks

  ghost function SumOver(parts: seq<Bytes>, picked: set<nat>): nat {
    if parts == [] then 0
    else
      var last := |parts| - 1;
      SumOver(parts[..last], picked) + (if last in picked then |parts[last]| else 0)
  }

  lemma {:induction false} SumAdd(parts: seq<Bytes>, picked: set<nat>, i: nat)
    requires i < |parts| && i !in picked
    ensures SumOver(parts, picked + {i}) == SumOver(parts, picked) + |parts[i]|
  {
    var last := |parts| - 1;
    if i < last {
      SumAdd(parts[..last], picked, i);
    } else {
      SumFrame(parts[..last], picked, i);
    }
  }

  lemma {:induction false} SumFrame(parts: seq<Bytes>, picked: set<nat>, i: nat)
    requires |parts| <= i
    ensures SumOver(parts, picked + {i}) == SumOver(parts, picked)
  {
    if parts != [] { SumFrame(parts[..|parts| - 1], picked, i); }
  }

  lemma {:induction false} SumBounded(parts: seq<Bytes>, picked: set<nat>)
    ensures SumOver(parts, picked) <= |Concat(parts)|
    ensures (forall i: nat | i < |parts| :: i in picked) ==> SumOver(parts, picked) == |Concat(parts)|
  {
    if parts != [] {
      var last := |parts| - 1;
      SumBounded(parts[..last], picked);
      assert parts == parts[..last] + [parts[last]];
      ConcatSplit(parts[..last], [parts[last]]);
    }
  }

  /**
   * The subset-sum argument: with no empty chunk, the lengths of a set of chunks add up
   * to the whole payload only when the set leaves no chunk out.
   */
  lemma FullSumMeansAll(parts: seq<Bytes>, picked: set<nat>)
    requires forall i | 0 <= i < |parts| :: parts[i] != []
    ensures SumOver(parts, picked) == |Concat(parts)| <==> forall i: nat | i < |parts| :: i in picked
  {
    SumBounded(parts, picked);
    if i: nat :| i < |parts| && i !in picked {
      SumAdd(parts, picked, i);
      SumBounded(parts, picked + {i});
    }
  }

  // ----- One transfer

  ghost predicate Cut(parts: seq<Bytes>, payload: Bytes) {
    Concat(parts) == payload && forall i | 0 <= i < |parts| :: 0 < |parts[i]| <= CHUNK_SIZE
  }

  lemma ChunksCut(payload: Bytes)
    ensures Cut(Chunks(payload), payload)
  {
    ConcatOfChunks(payload);
    forall i | 0 <= i < |Chunks(payload)|
      ensures 0 < |Chunks(payload)[i]| <= CHUNK_SIZE
    {
      ChunkSizes(payload, i);
    }
  }

  ghost function Seen(arrivals: seq<nat>): set<nat> {
    set a | a in arrivals
  }

  ghost predicate HasAll(parts: seq<Bytes>, seen: set<nat>) {
    forall i: nat | i < |parts| :: i in seen
  }

  lemma SeenMeansArrived(parts: seq<Bytes>, arrivals: seq<nat>)
    ensures HasAll(parts, Seen(arrivals)) <==> forall i: nat | i < |parts| :: i in arrivals
  {
    assert forall i: nat :: i in Seen(arrivals) <==> i in arrivals;
  }

  /** The store holds exactly the chunks in `seen`, each under its own index. */
  ghost predicate Holds(es: seq<Entry>, parts: seq<Bytes>, seen: set<nat>) {
    && Ordered(es)
    && (forall k | k in seen :: k < |parts|)
    && (forall k: nat :: Find(es, k) == if k in seen && k < |parts| then Some(parts[k]) else None)
  }

  /** The receiver part-way through an accepted transfer. */
  ghost predicate Filling(rx: Rx, format: nat, parts: seq<Bytes>, seen: set<nat>, before: seq<Handoff>) {
    && rx.expectedLen == |Concat(parts)| && rx.expectedFormat == format
    && Holds(rx.received, parts, seen)
    && rx.receivedTotal == SumOver(parts, seen)
    && rx.handoffs == before
  }

  /** With every chunk stored, concatenating in key order rebuilds the payload. */
  lemma AllStoredIsPayload(es: seq<Entry>, parts: seq<Bytes>, seen: set<nat>)
    requires Holds(es, parts, seen) && HasAll(parts, seen)
    ensures CountsUp(es) && Values(es) == Concat(parts)
  {
    forall i: nat | i < |es|
      ensures es[i].key < |parts| && es[i].data == parts[es[i].key]
    {
      EntryIsFound(es, i);
    }
    StoredCount(es, parts);
    assert Segment(es);
    CountsUpIffSegment(es);
    ValuesAreConcat(es, parts);
  }

  /** An ordered store in which exactly the indices of `parts` are found has that many entries. */
  lemma StoredCount(es: seq<Entry>, parts: seq<Bytes>)
    requires Ordered(es) && forall k: nat :: Find(es, k).Some? <==> k < |parts|
    ensures |es| == |parts|
  {
    if |es| > 0 {
      PositionBound(es, |es| - 1);
      EntryIsFound(es, |es| - 1);
    }
    if |parts| > 0 { RoomFor(es, |parts| - 1); }
  }

  /** If 0..n are all found in an ordered store, it has more than `n` entries. */
  lemma {:induction false} RoomFor(es: seq<Entry>, n: nat)
    requires Ordered(es) && forall k: nat | k <= n :: Find(es, k).Some?
    ensures n < |es|
    ensures es[n].key <= n
  {
    if n == 0 {
      FindMeansPresent(es, 0);
    } else {
      RoomFor(es, n - 1);
      FindMeansPresent(es, n);
      var e := Entry(n, Find(es, n).value);
      var j :| 0 <= j < |es| && es[j] == e;
    }
  }

  lemma {:induction false} ValuesAreConcat(es: seq<Entry>, parts: seq<Bytes>)
    requires |es| == |parts| && forall i | 0 <= i < |es| :: es[i].data == parts[i]
    ensures Values(es) == Concat(parts)
  {
    if es != [] { ValuesAreConcat(es[1..], parts[1..]); }
  }

  /** Storing one delivered chunk, new or repeated, keeps the running total a subset sum. */
  lemma StoringFills(rx: Rx, format: nat, parts: seq<Bytes>, seen: set<nat>, before: seq<Handoff>, a: nat)
    requires Cut(parts, Concat(parts)) && |Concat(parts)| <= MAX_FILE_PAYLOAD_BYTES
    requires Filling(rx, format, parts, seen, before) && a < |parts|
    ensures Filling(Stored(rx, a, parts[a]), format, parts, seen + {a}, before)
    ensures SumOver(parts, seen + {a}) <= |Concat(parts)|
  {
    SumBounded(parts, seen + {a});
    InsertKeepsOrder(rx.received, a, parts[a]);
    forall k: nat
      ensures Find(Insert(rx.received, a, parts[a]), k) == if k == a then Some(parts[a]) else Find(rx.received, k)
    {
      InsertFinds(rx.received, a, parts[a], k);
    }
    if a in seen {
      assert seen + {a} == seen;
    } else {
      SumAdd(parts, seen, a);
    }
  }

  lemma CommitDelivers(rx: Rx, buf: Bytes)
    requires KnownFormat(rx.expectedFormat) && |buf| == rx.expectedLen < U32
    requires CountsUp(rx.received) && Values(rx.received) == buf
    ensures Commit(rx) == EMPTY.(handoffs := rx.handoffs + [Handoff(rx.expectedFormat, buf)])
  {
  }

  /** Idle again with the payload handed over once all of it is seen, filling until then. */
  ghost predicate Reached(rx: Rx, format: nat, parts: seq<Bytes>, seen: set<nat>, before: seq<Handoff>) {
    if HasAll(parts, seen)
    then rx == EMPTY.(handoffs := before + [Handoff(format, Concat(parts))])
    else Filling(rx, format, parts, seen, before)
  }

  /** One more delivered chunk of an accepted transfer. */
  lemma ChunkReaches(rx: Rx, format: nat, parts: seq<Bytes>, seen: set<nat>, before: seq<Handoff>, a: nat)
    requires KnownFormat(format) && Cut(parts, Concat(parts)) && 0 < |Concat(parts)| <= MAX_FILE_PAYLOAD_BYTES
    requires Reached(rx, format, parts, seen, before) && a < |parts|
    ensures Reached(Chunk(rx, a, parts[a]), format, parts, seen + {a}, before)
  {
    if !HasAll(parts, seen) {
      StoringFills(rx, format, parts, seen, before, a);
      FullSumMeansAll(parts, seen + {a});
      var kept := Stored(rx, a, parts[a]);
      if HasAll(parts, seen + {a}) {
        AllStoredIsPayload(kept.received, parts, seen + {a});
        CommitDelivers(kept, Concat(parts));
      }
    }
  }

  /** The chunk packets of a transfer, `ReceiveAll` for arrivals `arrivals`. */
  ghost function After(rx: Rx, t: Transfer, arrivals: seq<nat>): Rx
    requires InRange(arrivals, |Chunks(t.payload)|)
  {
    EmissionLength(t.format, t.payload);
    var packets := Emission(t.format, t.payload);
    ReceiveAll(rx, t.toggles, [packets[0]] + Picked(packets, arrivals))
  }

  lemma AfterOffer(rx: Rx, t: Transfer)
    ensures After(rx, t, []) == Offer(rx, t.toggles, t.format, |t.payload| % U32)
  {
    EmissionLength(t.format, t.payload);
    var packets := Emission(t.format, t.payload);
    var ms := [packets[0]] + Picked(packets, []);
    assert ms == [packets[0]] && ms[..0] == [];
    assert ReceiveAll(rx, t.toggles, ms) == Receive(rx, t.toggles, packets[0]);
  }

  lemma AfterChunk(rx: Rx, t: Transfer, arrivals: seq<nat>)
    requires arrivals != [] && InRange(arrivals, |Chunks(t.payload)|)
    ensures var last := |arrivals| - 1;
            After(rx, t, arrivals)
            == Chunk(After(rx, t, arrivals[..last]), arrivals[last] % U16, Chunks(t.payload)[arrivals[last]])
  {
    EmissionLength(t.format, t.payload);
    var packets, last := Emission(t.format, t.payload), |arrivals| - 1;
    var ms := [packets[0]] + Picked(packets, arrivals);
    assert ms[..|ms| - 1] == [packets[0]] + Picked(packets, arrivals[..last]);
    NumberedAt(Chunks(t.payload), 0, arrivals[last]);
  }

  lemma OfferArms(rx: Rx, t: Transfer)
    requires Takeable(t)
    ensures Reached(After(rx, t, []), t.format, Chunks(t.payload), {}, rx.handoffs)
  {
    var parts := Chunks(t.payload);
    ChunksCut(t.payload);
    AfterOffer(rx, t);
    SumOfNone(parts);
    assert 0 < |parts| && 0 !in {};
    assert Holds([], parts, {});
  }

  lemma SeenGrows(arrivals: seq<nat>)
    requires arrivals != []
    ensures Seen(arrivals) == Seen(arrivals[..|arrivals| - 1]) + {arrivals[|arrivals| - 1]}
  {
    assert arrivals == arrivals[..|arrivals| - 1] + [arrivals[|arrivals| - 1]];
  }

  lemma {:induction false} AcceptedTransfer(rx: Rx, t: Transfer, arrivals: seq<nat>)
    requires Takeable(t) && InRange(arrivals, |Chunks(t.payload)|)
    ensures Reached(After(rx, t, arrivals), t.format, Chunks(t.payload), Seen(arrivals), rx.handoffs)
  {
    if arrivals == [] {
      OfferArms(rx, t);
      assert Seen(arrivals) == {};
    } else {
      var last := |arrivals| - 1;
      AcceptedTransfer(rx, t, arrivals[..last]);
      AfterChunk(rx, t, arrivals);
      SeenGrows(arrivals);
      NextChunk(After(rx, t, arrivals[..last]), t, Seen(arrivals[..last]), rx.handoffs, arrivals[last]);
    }
  }

  lemma NextChunk(rx: Rx, t: Transfer, seen: set<nat>, before: seq<Handoff>, a: nat)
    requires Takeable(t) && a < |Chunks(t.payload)|
    requires Reached(rx, t.format, Chunks(t.payload), seen, before)
    ensures Reached(Chunk(rx, a % U16, Chunks(t.payload)[a]), t.format, Chunks(t.payload), seen + {a}, before)
  {
    hide Reached, Chunk, Chunks;
    ChunksCut(t.payload);
    ChunkCountBound(t.payload, 65536);
    ChunkReaches(rx, t.format, Chunks(t.payload), seen, before, a);
  }

  lemma {:induction false} SumOfNone(parts: seq<Bytes>)
    ensures SumOver(parts, {}) == 0
  {
    if parts != [] { SumOfNone(parts[..|parts| - 1]); }
  }

  /** An offer that is refused, or declares nothing, leaves all its chunks ignored. */
  lemma {:induction false} RefusedTransfer(rx: Rx, t: Transfer, arrivals: seq<nat>)
    requires |t.payload| < U32 && !Takeable(t)
    requires InRange(arrivals, |Chunks(t.payload)|)
    ensures After(rx, t, arrivals).handoffs == rx.handoffs && After(rx, t, arrivals).expectedLen == 0
    ensures !Accepted(t.toggles, t.format, |t.payload|) ==> After(rx, t, arrivals) == Cleared(rx)
  {
    if arrivals == [] {
      AfterOffer(rx, t);
    } else {
      RefusedTransfer(rx, t, arrivals[..|arrivals| - 1]);
      AfterChunk(rx, t, arrivals);
    }
  }

  /**
   * The main theorem. From any receiver state, whatever is dropped, duplicated or
   * reordered inside each transfer, the payloads handed over are exactly those of the
   * transfers that arrived complete: byte for byte, once each, in order.
   */
  lemma {:induction false} ExactlyTheCompleteTransfers(rx: Rx, ts: seq<Transfer>)
    requires forall t | t in ts :: Possible(t)
    ensures RunAll(rx, ts).handoffs == rx.handoffs + Completed(ts)
  {
    if ts != [] {
      var last := ts[|ts| - 1];
      var mid := RunAll(rx, ts[..|ts| - 1]);
      ExactlyTheCompleteTransfers(rx, ts[..|ts| - 1]);
      assert Possible(last) && RunAll(rx, ts) == After(mid, last, last.arrivals);
      if Takeable(last) {
        AcceptedTransfer(mid, last, last.arrivals);
        ChunksCut(last.payload);
        SeenMeansArrived(Chunks(last.payload), last.arrivals);
      } else {
        RefusedTransfer(mid, last, last.arrivals);
      }
    }
  }
}
