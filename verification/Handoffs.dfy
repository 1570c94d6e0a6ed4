/**
 * The receiver against an arbitrary peer: any offers and chunks in any order. Every
 * payload that is handed over is accounted for by positions in the event history.
 */
module Handoffs {
  import opened Wire
  import opened OrderedMap
  import opened ClipSender
  import opened Reassembly

  datatype Event =
    | Offered(toggles: Toggles, format: nat, len: nat)
    | Chunked(index: nat, data: Bytes)
    | Dropped  // `reset`: disconnect, new handshake or cancel

  function Step(rx: Rx, e: Event): Rx {
    match e
    case Offered(t, format, len) => Offer(rx, t, format, len)
    case Chunked(index, data) => Chunk(rx, index, data)
    case Dropped => Cleared(rx)
  }

  function Run(h: seq<Event>): Rx {
    if h == [] then EMPTY else Step(Run(h[..|h| - 1]), h[|h| - 1])
  }

  ghost predicate FromDecoder(h: seq<Event>) {
    forall j | 0 <= j < |h| && h[j].Chunked? :: Decodable(h[j].index, h[j].data)
  }

  /**
   * The offers the receiver is meant to take: a format it knows, whose switch is on, within
   * that format's cap.
   */
  predicate Wanted(e: Event) {
    && e.Offered?
    && (|| (e.format == FORMAT_TEXT && e.toggles.text && e.len <= MAX_TEXT_BYTES)
        || (e.format == FORMAT_IMAGE && e.toggles.images && e.len <= MAX_IMAGE_BYTES)
        || (e.format == FORMAT_FILE && e.toggles.files && e.len <= MAX_FILE_PAYLOAD_BYTES))
  }

  /** A known format whose switch is off. */
  predicate SwitchedOff(e: Event) {
    && e.Offered?
    && (|| (e.format == FORMAT_TEXT && !e.toggles.text)
        || (e.format == FORMAT_IMAGE && !e.toggles.images)
        || (e.format == FORMAT_FILE && !e.toggles.files))
  }

  /** Exactly the wanted offers arm the receiver; every other one leaves it idle. */
  lemma WantedOffersArm(h: seq<Event>, e: Event)
    requires e.Offered?
    ensures Run(h + [e])
            == if Wanted(e) then Rx(e.len, e.format, [], 0, 0, e.len, Run(h).handoffs)
               else Rx(0, 0, [], 0, 0, 0, Run(h).handoffs)
  {
    assert (h + [e])[..|h|] == h;
  }

  /** What the receiver answers over a history. */
  function Answers(h: seq<Event>): seq<Message> {
    if h == [] then []
    else
      var e := h[|h| - 1];
      var reply := if e.Offered? then Reply(e.toggles, e.format) else None;
      Answers(h[..|h| - 1]) + (if reply.Some? then [reply.value] else [])
  }

  function DeclinesOf(h: seq<Event>): seq<Message> {
    if h == [] then []
    else
      DeclinesOf(h[..|h| - 1])
      + (if SwitchedOff(h[|h| - 1]) then [ClipDecline(h[|h| - 1].format)] else [])
  }

  /** It answers with one decline per offer whose format is switched off, naming it, in order. */
  lemma {:induction false} AnswersAreDeclines(h: seq<Event>)
    ensures Answers(h) == DeclinesOf(h)
  {
    if h != [] { AnswersAreDeclines(h[..|h| - 1]); }
  }

  /** The data most recently written under `index` by the events `h[from..to]`. */
  function LastWritten(h: seq<Event>, from: nat, to: nat, index: nat): Option<Bytes>
    requires to <= |h|
  {
    if to <= from then None
    else if h[to - 1].Chunked? && h[to - 1].index == index then Some(h[to - 1].data)
    else LastWritten(h, from, to - 1, index)
  }

  /** Where a hand-off came from: its offer, the chunk that triggered it, its pieces. */
  datatype Origin = Origin(offer: nat, chunk: nat, parts: seq<Bytes>)

  /** `h[from..to]` leaves exactly the pieces `parts`, under the indices 0, 1, 2, ... */
  ghost predicate WrittenAs(h: seq<Event>, from: nat, to: nat, parts: seq<Bytes>)
    requires to <= |h|
  {
    forall k: nat :: LastWritten(h, from, to, k) == if k < |parts| then Some(parts[k]) else None
  }

  ghost predicate StoreMatches(h: seq<Event>, from: nat, es: seq<Entry>) {
    forall k: nat :: Find(es, k) == LastWritten(h, from, |h|, k)
  }

  ghost predicate Explained(h: seq<Event>, o: Origin, x: Handoff) {
    && o.offer < o.chunk < |h|
    && Wanted(h[o.offer])
    && (forall j | o.offer < j <= o.chunk :: h[j].Chunked?)
    && WrittenAs(h, o.offer + 1, o.chunk + 1, o.parts)
    && x == Handoff(h[o.offer].format, Concat(o.parts))
    && |x.bytes| == h[o.offer].len
  }

  /** One origin per hand-off, in order and without sharing an offer. */
  ghost predicate Explains(h: seq<Event>, os: seq<Origin>, xs: seq<Handoff>) {
    && |os| == |xs|
    && (forall k | 0 <= k < |os| :: Explained(h, os[k], xs[k]))
    && (forall k | 0 < k < |os| :: os[k - 1].chunk < os[k].offer)
  }

  /** The offer at `p` is armed and only chunks came after it. */
  ghost predicate Live(h: seq<Event>, p: nat, rx: Rx) {
    && p < |h| && Wanted(h[p])
    && rx.expectedLen == h[p].len && rx.expectedFormat == h[p].format
    && (forall j | p < j < |h| :: h[j].Chunked?)
    && StoreMatches(h, p + 1, rx.received)
  }

  lemma {:induction false} WrittenInPrefix(h: seq<Event>, n: nat, from: nat, to: nat, index: nat)
    requires to <= n <= |h|
    ensures LastWritten(h[..n], from, to, index) == LastWritten(h, from, to, index)
  {
    if from < to { WrittenInPrefix(h, n, from, to - 1, index); }
  }

  lemma ExplainedLater(h: seq<Event>, n: nat, o: Origin, x: Handoff)
    requires n <= |h| && Explained(h[..n], o, x)
    ensures Explained(h, o, x)
  {
    var from, to := o.offer + 1, o.chunk + 1;
    forall k: nat ensures LastWritten(h, from, to, k) == LastWritten(h[..n], from, to, k) {
      WrittenInPrefix(h, n, from, to, k);
    }
    forall j | o.offer < j <= o.chunk ensures h[j].Chunked? {
      assert h[j] == h[..n][j];
    }
  }

  /** Storing a chunk keeps the store equal to what was last written per index. */
  lemma StoredIsLastWritten(h: seq<Event>, p: nat, before: Rx, k: nat)
    requires h != [] && p < |h| - 1 && h[|h| - 1].Chunked? && Live(h[..|h| - 1], p, before)
    ensures Find(Stored(before, h[|h| - 1].index, h[|h| - 1].data).received, k) == LastWritten(h, p + 1, |h|, k)
  {
    var n := |h| - 1;
    InsertFinds(before.received, h[n].index, h[n].data, k);
    WrittenInPrefix(h, n, p + 1, n, k);
  }

  function DataOf(es: seq<Entry>): seq<Bytes> {
    seq(|es|, i requires 0 <= i < |es| => es[i].data)
  }

  lemma {:induction false} ValuesOfData(es: seq<Entry>)
    ensures Values(es) == Concat(DataOf(es))
  {
    if es != [] {
      ValuesOfData(es[1..]);
      assert DataOf(es)[1..] == DataOf(es[1..]);
    }
  }

  /** A store that passed the contiguity test, read as pieces. */
  lemma PiecesOfStore(es: seq<Entry>, k: nat)
    requires Ordered(es) && CountsUp(es)
    ensures Find(es, k) == if k < |es| then Some(DataOf(es)[k]) else None
  {
    CountsUpIffSegment(es);
    assert Segment(es);
    if k < |es| { EntryIsFound(es, k); }
  }

  /** A contiguous store that matches the history is what was written. */
  lemma StoreIsWrittenAs(h: seq<Event>, from: nat, es: seq<Entry>)
    requires StoreMatches(h, from, es) && Ordered(es) && CountsUp(es)
    ensures WrittenAs(h, from, |h|, DataOf(es)) && Values(es) == Concat(DataOf(es))
  {
    hide LastWritten, Find, Values, CountsUp;
    ValuesOfData(es);
    forall k: nat
      ensures LastWritten(h, from, |h|, k) == if k < |DataOf(es)| then Some(DataOf(es)[k]) else None
    {
      PiecesOfStore(es, k);
    }
  }

  /** What handing over says about the store. */
  lemma CommitHandsOver(kept: Rx)
    requires Packed(kept.received) && |Commit(kept).handoffs| > |kept.handoffs|
    ensures CountsUp(kept.received) && |Values(kept.received)| == kept.expectedLen
    ensures Commit(kept).handoffs == kept.handoffs + [Handoff(kept.expectedFormat, Values(kept.received))]
  {
    hide Values;
    BufferLengthIsExact(kept.received);
  }

  /** A commit that hands over explains its payload by the live offer. */
  lemma CommitExplained(h: seq<Event>, p: nat, kept: Rx)
    requires Live(h, p, kept) && p + 1 < |h| && Packed(kept.received)
    requires |Commit(kept).handoffs| > |kept.handoffs|
    ensures Commit(kept).handoffs == kept.handoffs + [Handoff(kept.expectedFormat, Values(kept.received))]
    ensures Explained(h, Origin(p, |h| - 1, DataOf(kept.received)),
                      Handoff(kept.expectedFormat, Values(kept.received)))
  {
    hide Commit, WrittenAs, StoreMatches, Values, DataOf, CountsUp;
    CommitHandsOver(kept);
    StoreIsWrittenAs(h, p + 1, kept.received);
  }

  lemma {:induction false} RunIsSound(h: seq<Event>)
    requires FromDecoder(h)
    ensures Sound(Run(h))
  {
    if h != [] {
      var n := |h| - 1;
      RunIsSound(h[..n]);
      match h[n]
      case Offered(t, format, len) => SoundForever(Run(h[..n]), t, format, len, 0, []);
      case Chunked(index, data) => SoundForever(Run(h[..n]), Toggles(true, true, true), 0, 0, index, data);
      case Dropped =>
    }
  }

  /** Origins so far, and the position of the armed offer if there is one. */
  ghost predicate Tracks(h: seq<Event>, os: seq<Origin>, p: nat) {
    && Explains(h, os, Run(h).handoffs)
    && (Run(h).expectedLen > 0 ==> Live(h, p, Run(h)) && (os != [] ==> os[|os| - 1].chunk < p))
  }

  lemma ExplainsLater(h: seq<Event>, os: seq<Origin>, xs: seq<Handoff>)
    requires h != [] && Explains(h[..|h| - 1], os, xs)
    ensures Explains(h, os, xs)
  {
    forall k | 0 <= k < |os| ensures Explained(h, os[k], xs[k]) {
      ExplainedLater(h, |h| - 1, os[k], xs[k]);
    }
  }

  lemma StoredStaysLive(h: seq<Event>, p: nat, before: Rx)
    requires h != [] && h[|h| - 1].Chunked? && Live(h[..|h| - 1], p, before)
    ensures Live(h, p, Stored(before, h[|h| - 1].index, h[|h| - 1].data))
  {
    var n, from := |h| - 1, p + 1;
    var es := Stored(before, h[n].index, h[n].data).received;
    forall k: nat ensures Find(es, k) == LastWritten(h, from, |h|, k) {
      StoredIsLastWritten(h, p, before, k);
    }
    forall j | p < j < |h| ensures h[j].Chunked? {
      assert j < n ==> h[j] == h[..n][j];
    }
  }

  /** What one chunk does to an armed receiver: it keeps filling, gives up, or hands over. */
  lemma ChunkOutcome(rx: Rx, index: nat, data: Bytes)
    requires rx.expectedLen > 0
    ensures var next, kept := Chunk(rx, index, data), Stored(rx, index, data);
            || next == kept
            || next == Cleared(rx)
            || (next == Commit(kept) && |next.handoffs| > |kept.handoffs| && next.expectedLen == 0)
  {
  }

  lemma HandoverExplained(h: seq<Event>, os: seq<Origin>, p: nat, before: Rx) returns (o: Origin)
    requires h != [] && h[|h| - 1].Chunked? && Decodable(h[|h| - 1].index, h[|h| - 1].data)
    requires Sound(before) && Live(h[..|h| - 1], p, before)
    requires var kept := Stored(before, h[|h| - 1].index, h[|h| - 1].data);
             |Commit(kept).handoffs| > |kept.handoffs|
    ensures var kept := Stored(before, h[|h| - 1].index, h[|h| - 1].data);
            && o.offer == p
            && Explained(h, o, Handoff(kept.expectedFormat, Values(kept.received)))
            && Commit(kept).handoffs == before.handoffs + [Handoff(kept.expectedFormat, Values(kept.received))]
  {
    var index, data := h[|h| - 1].index, h[|h| - 1].data;
    var kept := Stored(before, index, data);
    StoredStaysLive(h, p, before);
    InsertKeepsPacked(before.received, index, data);
    CommitExplained(h, p, kept);
    o := Origin(p, |h| - 1, DataOf(kept.received));
  }

  lemma ExplainsOneMore(h: seq<Event>, os: seq<Origin>, xs: seq<Handoff>, o: Origin, x: Handoff)
    requires Explains(h, os, xs) && Explained(h, o, x) && (os != [] ==> os[|os| - 1].chunk < o.offer)
    ensures Explains(h, os + [o], xs + [x])
  {
  }

  lemma ChunkTracked(h: seq<Event>, os: seq<Origin>, p: nat) returns (os': seq<Origin>)
    requires h != [] && FromDecoder(h) && h[|h| - 1].Chunked? && Tracks(h[..|h| - 1], os, p)
    ensures Tracks(h, os', p)
  {
    var n := |h| - 1;
    var before, index, data := Run(h[..n]), h[n].index, h[n].data;
    assert Run(h) == Chunk(before, index, data);
    ExplainsLater(h, os, before.handoffs);
    os' := os;
    if before.expectedLen > 0 {
      RunIsSound(h[..n]);
      ChunkOutcome(before, index, data);
      var kept := Stored(before, index, data);
      if |Run(h).handoffs| > |before.handoffs| {
        var o := HandoverExplained(h, os, p, before);
        ExplainsOneMore(h, os, before.handoffs, o, Handoff(kept.expectedFormat, Values(kept.received)));
        os' := os + [o];
      } else {
        StoredStaysLive(h, p, before);
      }
    }
  }

  lemma {:induction false} TrackRun(h: seq<Event>) returns (os: seq<Origin>, p: nat)
    requires FromDecoder(h)
    ensures Tracks(h, os, p)
  {
    if h == [] {
      os, p := [], 0;
    } else {
      var n := |h| - 1;
      os, p := TrackRun(h[..n]);
      ExplainsLater(h, os, Run(h[..n]).handoffs);
      if h[n].Chunked? {
        os := ChunkTracked(h, os, p);
      } else {
        p := n;
      }
    }
  }

  /**
   * Whatever the peer sends, every payload handed over is the concatenation, in index
   * order from 0 without a gap, of the data last written per index since one accepted
   * offer, whose format's switch was on and whose length within its cap; it has exactly the
   * declared length and that offer's format; and no offer is used twice.
   */
  lemma EveryHandoffIsAccountedFor(h: seq<Event>)
    requires FromDecoder(h)
    ensures exists os :: Explains(h, os, Run(h).handoffs)
  {
    var os, p := TrackRun(h);
  }

  /**
   * In every reachable state, one further chunk cannot overflow any u32 computation and
   * cannot move the running total past the declared length by a whole chunk.
   */
  lemma NoOverflowEver(h: seq<Event>, index: nat, data: Bytes)
    requires FromDecoder(h) && Decodable(index, data) && Run(h).expectedLen > 0
    ensures Run(h).receivedTotal < Run(h).expectedLen
    ensures var total := Stored(Run(h), index, data).receivedTotal;
            && total == Run(h).receivedTotal + (if Find(Run(h).received, index).Some? then 0 else |data|)
            && total < Run(h).expectedLen + CHUNK_SIZE && total * 100 < U32
    ensures |Values(Stored(Run(h), index, data).received)| < U32
  {
    RunIsSound(h);
    StepArithmetic(Run(h), index, data);
    InsertKeepsPacked(Run(h).received, index, data);
    BufferLengthIsExact(Stored(Run(h), index, data).received);
  }
}
