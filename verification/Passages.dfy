/**
 * Whole runs of sender, wire and receiver when offers are lost as well as chunks. Chunks
 * carry no transfer id, so those of a transfer whose offer is lost fall to whatever offer
 * came through last.
 */
module Passages {
  import opened Wire
  import opened OrderedMap
  import opened ClipSender
  import opened Reassembly
  import opened Transfers
  import Handoffs

  /** One transfer, and whether its offer came through. */
  datatype Passage = Passage(transfer: Transfer, offered: bool)

  ghost predicate AllPossible(gs: seq<Passage>) {
    forall g | g in gs :: Possible(g.transfer)
  }

  /** The chunk packets that came through. */
  ghost function ChunksOf(g: Passage): (cs: seq<Message>)
    requires Possible(g.transfer)
  {
    EmissionLength(g.transfer.format, g.transfer.payload);
    Picked(Emission(g.transfer.format, g.transfer.payload), g.transfer.arrivals)
  }

  ghost function Through(g: Passage): seq<Message>
    requires Possible(g.transfer)
  {
    (if g.offered then [Emission(g.transfer.format, g.transfer.payload)[0]] else []) + ChunksOf(g)
  }

  ghost function Received(gs: seq<Passage>): Rx
    requires AllPossible(gs)
  {
    if gs == [] then EMPTY
    else
      var last := gs[|gs| - 1];
      ReceiveAll(Received(gs[..|gs| - 1]), last.transfer.toggles, Through(last))
  }

  /** The payloads of which every packet came through, to a receiver that takes them. */
  ghost function Whole(gs: seq<Passage>): seq<Handoff> {
    if gs == [] then []
    else
      var g := gs[|gs| - 1];
      Whole(gs[..|gs| - 1])
      + (if g.offered && Complete(g.transfer) then [Handoff(g.transfer.format, g.transfer.payload)] else [])
  }

  // ----- Chunk lists

  /** The data latest among `cs` under `index`. */
  function Latest(cs: seq<Message>, index: nat): Option<Bytes> {
    if cs == [] then None
    else
      var c := cs[|cs| - 1];
      if c.ClipChunk? && c.index == index then Some(c.data) else Latest(cs[..|cs| - 1], index)
  }

  /** How many bytes `cs` brings, counting each index once, when it first comes. */
  function FirstBytes(cs: seq<Message>): nat {
    if cs == [] then 0
    else
      var front, c := cs[..|cs| - 1], cs[|cs| - 1];
      FirstBytes(front) + (if c.ClipChunk? && Latest(front, c.index).None? then |c.data| else 0)
  }

  ghost predicate LeavesPieces(cs: seq<Message>, parts: seq<Bytes>) {
    forall k: nat :: Latest(cs, k) == if k < |parts| then Some(parts[k]) else None
  }

  /** The latest data have the indices 0, 1, 2, ... and `len` bytes in all. */
  ghost predicate Gapless(cs: seq<Message>, len: nat) {
    exists parts: seq<Bytes> :: LeavesPieces(cs, parts) && |Concat(parts)| == len
  }

  /** With its last chunk, `cs` first reaches `len` bytes, and then leaves no gap. */
  ghost predicate Completes(cs: seq<Message>, len: nat) {
    && cs != [] && FirstBytes(cs[..|cs| - 1]) < len <= FirstBytes(cs)
    && Gapless(cs, len)
  }

  /** The latest offer that came through, with every chunk since; `len` is 0 if it was refused. */
  datatype Stretch = Stretch(format: nat, len: nat, chunks: seq<Message>)

  ghost function StretchOf(gs: seq<Passage>): Stretch
    requires AllPossible(gs)
  {
    if gs == [] then Stretch(0, 0, [])
    else
      var g := gs[|gs| - 1];
      if g.offered
      then Stretch(g.transfer.format, if Takeable(g.transfer) then |g.transfer.payload| else 0, ChunksOf(g))
      else
        var before := StretchOf(gs[..|gs| - 1]);
        before.(chunks := before.chunks + ChunksOf(g))
  }

  ghost predicate CompletedBy(sg: Stretch, more: seq<Message>) {
    exists j: nat :: CompletedAt(sg, more, j)
  }

  ghost predicate CompletedAt(sg: Stretch, more: seq<Message>, j: nat) {
    0 < j <= |more| && Completes(sg.chunks + more[..j], sg.len)
  }

  /**
   * Some transfer whose own offer was lost has a chunk that completes what an earlier offer
   * left unfinished.
   */
  ghost predicate Spliced(gs: seq<Passage>)
    requires AllPossible(gs)
  {
    gs != [] &&
    var front, g := gs[..|gs| - 1], gs[|gs| - 1];
    Spliced(front) || (!g.offered && CompletedBy(StretchOf(front), ChunksOf(g)))
  }

  // ----- The store is the latest data

  ghost predicate Stores(es: seq<Entry>, cs: seq<Message>) {
    Ordered(es) && forall k: nat :: Find(es, k) == Latest(cs, k)
  }

  /** The receiver's state told from the stretch. */
  ghost predicate Tracks(rx: Rx, sg: Stretch) {
    if FirstBytes(sg.chunks) < sg.len
    then && rx.expectedLen == sg.len && rx.expectedFormat == sg.format
         && Stores(rx.received, sg.chunks) && rx.receivedTotal == FirstBytes(sg.chunks)
    else rx.expectedLen == 0
  }

  lemma LatestSnoc(cs: seq<Message>, c: Message, k: nat)
    ensures Latest(cs + [c], k) == if c.ClipChunk? && c.index == k then Some(c.data) else Latest(cs, k)
  {
    assert (cs + [c])[..|cs|] == cs;
  }

  lemma FirstBytesSnoc(cs: seq<Message>, c: Message)
    ensures FirstBytes(cs + [c])
            == FirstBytes(cs) + if c.ClipChunk? && Latest(cs, c.index).None? then |c.data| else 0
  {
    assert (cs + [c])[..|cs|] == cs;
  }

  lemma InsertStores(es: seq<Entry>, cs: seq<Message>, index: nat, data: Bytes)
    requires Stores(es, cs)
    ensures Stores(Insert(es, index, data), cs + [ClipChunk(index, data)])
  {
    hide Latest, Find, Insert, Ordered;
    InsertKeepsOrder(es, index, data);
    forall k: nat ensures Find(Insert(es, index, data), k) == Latest(cs + [ClipChunk(index, data)], k) {
      InsertFinds(es, index, data, k);
      LatestSnoc(cs, ClipChunk(index, data), k);
    }
  }

  /** The commit test passes exactly when the latest data leave no gap and have that length. */
  lemma GaplessIff(es: seq<Entry>, cs: seq<Message>, len: nat)
    requires Stores(es, cs)
    ensures CountsUp(es) && |Values(es)| == len <==> Gapless(cs, len)
  {
    hide Latest, Values, Concat;
    if CountsUp(es) && |Values(es)| == len {
      StoreLeaves(es, cs);
    }
    if Gapless(cs, len) {
      var parts :| LeavesPieces(cs, parts) && |Concat(parts)| == len;
      PiecesAreStore(es, cs, parts);
    }
  }

  lemma StoreLeaves(es: seq<Entry>, cs: seq<Message>)
    requires Stores(es, cs) && CountsUp(es)
    ensures LeavesPieces(cs, Handoffs.DataOf(es)) && Concat(Handoffs.DataOf(es)) == Values(es)
  {
    hide Latest, Find;
    Handoffs.ValuesOfData(es);
    forall k: nat
      ensures Latest(cs, k) == if k < |Handoffs.DataOf(es)| then Some(Handoffs.DataOf(es)[k]) else None
    {
      Handoffs.PiecesOfStore(es, k);
    }
  }

  lemma PiecesAreStore(es: seq<Entry>, cs: seq<Message>, parts: seq<Bytes>)
    requires Stores(es, cs) && LeavesPieces(cs, parts)
    ensures CountsUp(es) && Values(es) == Concat(parts)
  {
    hide Latest, Find, Values, Concat;
    forall k: nat ensures Find(es, k).Some? <==> k < |parts| {
      assert Find(es, k) == Latest(cs, k);
    }
    StoredCount(es, parts);
    assert Segment(es);
    CountsUpIffSegment(es);
    forall i | 0 <= i < |es| ensures es[i].data == parts[i] {
      EntryIsFound(es, i);
      assert Find(es, i) == Latest(cs, i);
    }
    ValuesAreConcat(es, parts);
  }

  // ----- One more chunk

  /** Storing a chunk of an unfinished stretch. */
  lemma StoringTracks(rx: Rx, sg: Stretch, index: nat, data: Bytes)
    requires Sound(rx) && Tracks(rx, sg) && Decodable(index, data) && rx.expectedLen > 0
    ensures var kept, more := Stored(rx, index, data), sg.chunks + [ClipChunk(index, data)];
            && kept.receivedTotal == FirstBytes(more) && Packed(kept.received) && Stores(kept.received, more)
            && kept.expectedLen == sg.len && kept.expectedFormat == sg.format && kept.handoffs == rx.handoffs
            && FirstBytes(sg.chunks) < sg.len
  {
    hide Stores, Insert, Packed, Latest;
    StepArithmetic(rx, index, data);
    FirstBytesSnoc(sg.chunks, ClipChunk(index, data));
    InsertStores(rx.received, sg.chunks, index, data);
    InsertKeepsPacked(rx.received, index, data);
    assert Find(rx.received, index) == Latest(sg.chunks, index) by { StoresLatest(rx.received, sg.chunks, index); }
  }

  lemma StoresLatest(es: seq<Entry>, cs: seq<Message>, k: nat)
    requires Stores(es, cs)
    ensures Find(es, k) == Latest(cs, k)
  {
  }

  /** Committing clears, and hands over exactly a gapless store of the declared length. */
  lemma CommitTracks(kept: Rx, cs: seq<Message>)
    requires Packed(kept.received) && Stores(kept.received, cs) && KnownFormat(kept.expectedFormat)
    ensures Commit(kept).expectedLen == 0 && kept.handoffs <= Commit(kept).handoffs
    ensures |Commit(kept).handoffs| == |kept.handoffs| + if Gapless(cs, kept.expectedLen) then 1 else 0
  {
    hide Packed, Stores, Gapless, Values, CountsUp;
    BufferLengthIsExact(kept.received);
    GaplessIff(kept.received, cs, kept.expectedLen);
  }

  /** What one chunk does to the state, told from the stretch. */
  lemma ChunkTracks(rx: Rx, sg: Stretch, index: nat, data: Bytes)
    requires Sound(rx) && Tracks(rx, sg) && Decodable(index, data)
    ensures var more := sg.chunks + [ClipChunk(index, data)];
            var after := Chunk(rx, index, data);
            && Sound(after) && Tracks(after, sg.(chunks := more))
            && rx.handoffs <= after.handoffs
            && |after.handoffs| == |rx.handoffs| + (if Completes(more, sg.len) then 1 else 0)
  {
    var more := sg.chunks + [ClipChunk(index, data)];
    assert more[..|sg.chunks|] == sg.chunks;
    SoundForever(rx, Toggles(true, true, true), 0, 0, index, data);
    hide Stores, Stored, Packed, Commit, Gapless;
    if rx.expectedLen > 0 {
      StoringTracks(rx, sg, index, data);
      CommitTracks(Stored(rx, index, data), more);
    } else {
      FirstBytesSnoc(sg.chunks, ClipChunk(index, data));
    }
  }

  // ----- One passage

  /** How many times `more`, chunk by chunk, completes the stretch. */
  ghost function Completions(sg: Stretch, more: seq<Message>): nat {
    if more == [] then 0
    else
      Completions(sg, more[..|more| - 1]) + (if Completes(sg.chunks + more, sg.len) then 1 else 0)
  }

  lemma {:induction false} CompletionsIff(sg: Stretch, more: seq<Message>)
    ensures Completions(sg, more) > 0 <==> CompletedBy(sg, more)
  {
    hide Completes;
    if more != [] {
      var front := more[..|more| - 1];
      CompletionsIff(sg, front);
      assert more[..|more|] == more;
      if CompletedBy(sg, front) {
        var j: nat :| CompletedAt(sg, front, j);
        assert front[..j] == more[..j];
        assert CompletedAt(sg, more, j);
      }
      if CompletedBy(sg, more) {
        var j: nat :| CompletedAt(sg, more, j);
        if j < |more| {
          assert front[..j] == more[..j];
          assert CompletedAt(sg, front, j);
        }
      }
      if Completes(sg.chunks + more, sg.len) {
        assert CompletedAt(sg, more, |more|);
      }
    }
  }

  /** The state after the chunks `more`, and how the hand-offs have grown. */
  ghost predicate Followed(before: Rx, after: Rx, sg: Stretch, more: seq<Message>) {
    && Sound(after) && Tracks(after, sg.(chunks := sg.chunks + more))
    && before.handoffs <= after.handoffs
    && |after.handoffs| == |before.handoffs| + Completions(sg, more)
  }

  lemma FollowedByOne(before: Rx, after: Rx, sg: Stretch, more: seq<Message>, index: nat, data: Bytes)
    requires Followed(before, after, sg, more) && Decodable(index, data)
    ensures Followed(before, Chunk(after, index, data), sg, more + [ClipChunk(index, data)])
  {
    hide Sound, Tracks, Completes, Chunk;
    var longer := more + [ClipChunk(index, data)];
    assert longer[..|more|] == more;
    assert sg.chunks + longer == sg.chunks + more + [ClipChunk(index, data)];
    ChunkTracks(after, sg.(chunks := sg.chunks + more), index, data);
  }

  lemma PieceIsDecodable(format: nat, payload: Bytes, i: nat)
    requires i < |Chunks(payload)|
    ensures |Emission(format, payload)| == 1 + |Chunks(payload)|
    ensures Emission(format, payload)[1 + i] == ClipChunk(i % U16, Chunks(payload)[i])
    ensures Decodable(i % U16, Chunks(payload)[i])
  {
    EmissionLength(format, payload);
    NumberedAt(Chunks(payload), 0, i);
    ChunkSizes(payload, i);
  }

  lemma {:induction false} ChunksFollow(rx: Rx, t: Transfer, arrivals: seq<nat>, sg: Stretch)
    requires InRange(arrivals, |Chunks(t.payload)|) && Sound(rx) && Tracks(rx, sg)
    ensures |Emission(t.format, t.payload)| == 1 + |Chunks(t.payload)|
    ensures var more := Picked(Emission(t.format, t.payload), arrivals);
            Followed(rx, ReceiveAll(rx, t.toggles, more), sg, more)
  {
    EmissionLength(t.format, t.payload);
    var packets := Emission(t.format, t.payload);
    var more := Picked(packets, arrivals);
    if arrivals == [] {
      assert sg.chunks + [] == sg.chunks;
    } else {
      var front, i := arrivals[..|arrivals| - 1], arrivals[|arrivals| - 1];
      var before := Picked(packets, front);
      hide Followed, Emission, Chunks, Chunk, Sound, Tracks;
      ChunksFollow(rx, t, front, sg);
      PieceIsDecodable(t.format, t.payload, i);
      assert more == before + [packets[1 + i]] && more[..|more| - 1] == before;
      FollowedByOne(rx, ReceiveAll(rx, t.toggles, before), sg, before, i % U16, Chunks(t.payload)[i]);
    }
  }

  /** An offer that comes through starts a new stretch. */
  lemma OfferTracks(rx: Rx, t: Transfer)
    requires Sound(rx) && |t.payload| < U32
    ensures var after := Offer(rx, t.toggles, t.format, |t.payload|);
            && Sound(after) && after.handoffs == rx.handoffs
            && Tracks(after, Stretch(t.format, if Takeable(t) then |t.payload| else 0, []))
  {
    SoundForever(rx, t.toggles, t.format, |t.payload|, 0, []);
  }

  lemma ReceiveCons(rx: Rx, t: Toggles, m: Message, ms: seq<Message>)
    ensures ReceiveAll(rx, t, [m] + ms) == ReceiveAll(Receive(rx, t, m), t, ms)
    decreases |ms|
  {
    if ms == [] {
      assert [m] + ms == [m] && [m][..0] == [];
      assert ReceiveAll(rx, t, [m]) == Receive(ReceiveAll(rx, t, []), t, m);
    } else {
      assert ([m] + ms)[..|ms|] == [m] + ms[..|ms| - 1];
      ReceiveCons(rx, t, m, ms[..|ms| - 1]);
    }
  }

  lemma OfferedTracks(rx: Rx, g: Passage)
    requires Possible(g.transfer) && g.offered && Sound(rx)
    ensures var t := g.transfer;
            var after := ReceiveAll(rx, t.toggles, Through(g));
            Sound(after) && Tracks(after, Stretch(t.format, if Takeable(t) then |t.payload| else 0, ChunksOf(g)))
  {
    var t := g.transfer;
    var sg := Stretch(t.format, if Takeable(t) then |t.payload| else 0, []);
    var armed := Offer(rx, t.toggles, t.format, |t.payload|);
    assert Emission(t.format, t.payload)[0] == ClipOffer(t.format, |t.payload|);
    hide Sound, Tracks, Takeable, Emission, Chunks, Offer;
    OfferTracks(rx, t);
    ReceiveCons(rx, t.toggles, ClipOffer(t.format, |t.payload|), ChunksOf(g));
    ChunksFollow(armed, t, t.arrivals, sg);
    assert [] + ChunksOf(g) == ChunksOf(g);
  }

  /** With its offer, a transfer hands over its payload if and only if it is complete. */
  lemma OfferedHandsOver(rx: Rx, g: Passage)
    requires Possible(g.transfer) && g.offered
    ensures var t := g.transfer;
            ReceiveAll(rx, t.toggles, Through(g)).handoffs
            == rx.handoffs + if Complete(t) then [Handoff(t.format, t.payload)] else []
  {
    var t := g.transfer;
    assert Through(g) == Delivered(t);
    var ts := [t];
    assert ts[..0] == [];
    assert RunAll(rx, ts) == ReceiveAll(RunAll(rx, []), t.toggles, Delivered(t));
    assert Completed(ts) == Completed([]) + if Complete(t) then [Handoff(t.format, t.payload)] else [];
    ExactlyTheCompleteTransfers(rx, ts);
  }

  lemma LostOfferTracks(rx: Rx, g: Passage, sg: Stretch)
    requires Possible(g.transfer) && !g.offered && Sound(rx) && Tracks(rx, sg)
    ensures Followed(rx, ReceiveAll(rx, g.transfer.toggles, Through(g)), sg, ChunksOf(g))
  {
    hide Followed, Sound, Tracks;
    ChunksFollow(rx, g.transfer, g.transfer.arrivals, sg);
    assert [] + ChunksOf(g) == ChunksOf(g);
  }

  // ----- Whole runs

  /** `a` is what is left of `b` when some elements are struck out. */
  ghost predicate Subsequence(a: seq<Handoff>, b: seq<Handoff>) {
    || a == []
    || (b != [] && Subsequence(a, b[..|b| - 1]))
    || (b != [] && a[|a| - 1] == b[|b| - 1] && Subsequence(a[..|a| - 1], b[..|b| - 1]))
  }

  lemma SubsequenceBoth(a: seq<Handoff>, b: seq<Handoff>, x: Handoff)
    requires Subsequence(a, b)
    ensures Subsequence(a + [x], b + [x])
  {
    assert (a + [x])[..|a|] == a && (b + [x])[..|b|] == b;
  }

  lemma {:induction false} SubsequenceLonger(a: seq<Handoff>, b: seq<Handoff>, c: seq<Handoff>)
    requires Subsequence(a, b) && b <= c
    ensures Subsequence(a, c)
    decreases |c|
  {
    if |b| < |c| {
      SubsequenceLonger(a, b, c[..|c| - 1]);
    } else {
      assert b == c;
    }
  }

  /** How many hand-offs were completed by a chunk of a transfer whose offer was lost. */
  ghost function Splices(gs: seq<Passage>): nat
    requires AllPossible(gs)
  {
    if gs == [] then 0
    else
      var front, g := gs[..|gs| - 1], gs[|gs| - 1];
      Splices(front) + (if g.offered then 0 else Completions(StretchOf(front), ChunksOf(g)))
  }

  ghost predicate Followable(gs: seq<Passage>)
    requires AllPossible(gs)
  {
    var rx := Received(gs);
    && Sound(rx) && Tracks(rx, StretchOf(gs))
    && Subsequence(Whole(gs), rx.handoffs)
    && |rx.handoffs| == |Whole(gs)| + Splices(gs)
    && (Splices(gs) == 0 ==> rx.handoffs == Whole(gs))
  }

  lemma UnfoldOffered(gs: seq<Passage>)
    requires AllPossible(gs) && gs != [] && gs[|gs| - 1].offered
    ensures var front, t := gs[..|gs| - 1], gs[|gs| - 1].transfer;
            && Received(gs) == ReceiveAll(Received(front), t.toggles, Through(gs[|gs| - 1]))
            && Whole(gs) == Whole(front) + (if Complete(t) then [Handoff(t.format, t.payload)] else [])
            && StretchOf(gs) == Stretch(t.format, if Takeable(t) then |t.payload| else 0, ChunksOf(gs[|gs| - 1]))
            && Splices(gs) == Splices(front)
  {
    hide Complete, Takeable, ReceiveAll, Through, ChunksOf, Possible;
  }

  /** Handing over one more whole transfer, or none, on both sides. */
  lemma BothGrow(whole: seq<Handoff>, given: seq<Handoff>, one: seq<Handoff>)
    requires Subsequence(whole, given) && |one| <= 1
    ensures Subsequence(whole + one, given + one)
  {
    if one == [] {
      assert whole + one == whole && given + one == given;
    } else {
      SubsequenceBoth(whole, given, one[0]);
      assert one == [one[0]];
    }
  }

  lemma FollowOffered(gs: seq<Passage>)
    requires AllPossible(gs) && gs != [] && gs[|gs| - 1].offered && Followable(gs[..|gs| - 1])
    ensures Followable(gs)
  {
    var front, g := gs[..|gs| - 1], gs[|gs| - 1];
    assert Possible(g.transfer);
    UnfoldOffered(gs);
    hide Sound, Tracks, Complete, Takeable, Through, ReceiveAll, Possible, Received, Whole, StretchOf, Splices,
      Subsequence;
    OfferedTracks(Received(front), g);
    OfferedHandsOver(Received(front), g);
    BothGrow(Whole(front), Received(front).handoffs,
             if Complete(g.transfer) then [Handoff(g.transfer.format, g.transfer.payload)] else []);
  }

  lemma FollowLost(gs: seq<Passage>)
    requires AllPossible(gs) && gs != [] && !gs[|gs| - 1].offered && Followable(gs[..|gs| - 1])
    ensures Followable(gs)
  {
    var front, g := gs[..|gs| - 1], gs[|gs| - 1];
    assert Possible(g.transfer);
    hide Sound, Tracks, Complete, Takeable, Emission, Through, ReceiveAll, Possible, Completions;
    LostOfferTracks(Received(front), g, StretchOf(front));
    assert Whole(gs) == Whole(front) + [] == Whole(front);
    SubsequenceLonger(Whole(front), Received(front).handoffs, Received(gs).handoffs);
  }

  lemma {:induction false} RunIsFollowed(gs: seq<Passage>)
    requires AllPossible(gs)
    ensures Followable(gs)
  {
    if gs != [] {
      RunIsFollowed(gs[..|gs| - 1]);
      hide Followable;
      if gs[|gs| - 1].offered { FollowOffered(gs); } else { FollowLost(gs); }
    }
  }

  lemma {:induction false} SplicesIff(gs: seq<Passage>)
    requires AllPossible(gs)
    ensures Splices(gs) > 0 <==> Spliced(gs)
  {
    if gs != [] {
      var front, g := gs[..|gs| - 1], gs[|gs| - 1];
      hide CompletedBy, Completions;
      SplicesIff(front);
      assert Possible(g.transfer);
      CompletionsIff(StretchOf(front), ChunksOf(g));
    }
  }

  /**
   * Whatever is lost, offers included, and whatever chunks are repeated or reordered: every
   * whole transfer is handed over, in order; and nothing else is, if and only if no chunk
   * of a transfer whose offer was lost completes what an earlier offer left unfinished.
   */
  lemma ExactlyTheWholeIff(gs: seq<Passage>)
    requires AllPossible(gs)
    ensures Subsequence(Whole(gs), Received(gs).handoffs)
    ensures Received(gs).handoffs == Whole(gs) <==> !Spliced(gs)
  {
    hide Subsequence;
    RunIsFollowed(gs);
    SplicesIff(gs);
  }

  /** It is enough that no chunk comes through whose own offer was lost. */
  lemma NothingHeadless(gs: seq<Passage>)
    requires AllPossible(gs) && forall g | g in gs :: g.offered || g.transfer.arrivals == []
    ensures Received(gs).handoffs == Whole(gs)
  {
    NotSpliced(gs);
    ExactlyTheWholeIff(gs);
  }

  lemma {:induction false} NotSpliced(gs: seq<Passage>)
    requires AllPossible(gs) && forall g | g in gs :: g.offered || g.transfer.arrivals == []
    ensures !Spliced(gs)
  {
    if gs != [] {
      NotSpliced(gs[..|gs| - 1]);
      assert gs[|gs| - 1] in gs;
    }
  }

  lemma ReceivedSnoc(before: seq<Passage>, g: Passage)
    requires AllPossible(before) && Possible(g.transfer)
    ensures AllPossible(before + [g])
    ensures Received(before + [g]) == ReceiveAll(Received(before), g.transfer.toggles, Through(g))
  {
    assert (before + [g])[..|before|] == before;
  }

  lemma WholeSnoc(gs: seq<Passage>, g: Passage)
    ensures Whole(gs + [g])
            == Whole(gs)
               + if g.offered && Complete(g.transfer) then [Handoff(g.transfer.format, g.transfer.payload)] else []
  {
    assert (gs + [g])[..|gs|] == gs;
  }

  lemma ReceiveOne(rx: Rx, t: Toggles, m: Message)
    ensures ReceiveAll(rx, t, [m]) == Receive(rx, t, m)
  {
    assert [m][..0] == [];
    assert ReceiveAll(rx, t, [m]) == Receive(ReceiveAll(rx, t, []), t, m);
  }

  // ----- Two halves

  lemma TwoPieces(payload: Bytes)
    requires CHUNK_SIZE < |payload| <= 2 * CHUNK_SIZE
    ensures Chunks(payload) == [payload[..CHUNK_SIZE], payload[CHUNK_SIZE..]]
  {
    assert Chunks(payload[CHUNK_SIZE..]) == [payload[CHUNK_SIZE..]];
  }

  lemma HalvesCommit(kept: Rx, x: Bytes, y: Bytes)
    requires kept.received == [Entry(0, x), Entry(1, y)] && Values(kept.received) == x + y && kept.handoffs == []
    requires kept.expectedFormat == FORMAT_TEXT && kept.expectedLen == |x + y| < U32
    ensures Commit(kept) == EMPTY.(handoffs := [Handoff(FORMAT_TEXT, x + y)])
  {
    CommitDelivers(kept, x + y);
    assert [] + [Handoff(FORMAT_TEXT, x + y)] == [Handoff(FORMAT_TEXT, x + y)];
  }

  /** A receiver left with half of one text takes the other half of another. */
  lemma HalvesJoin(a: Bytes, b: Bytes, t: Toggles)
    requires t.text && CHUNK_SIZE < |a| == |b| <= 2 * CHUNK_SIZE
    ensures var rx := Chunk(Offer(EMPTY, t, FORMAT_TEXT, |a|), 0, a[..CHUNK_SIZE]);
            Chunk(rx, 1, b[CHUNK_SIZE..])
            == EMPTY.(handoffs := [Handoff(FORMAT_TEXT, a[..CHUNK_SIZE] + b[CHUNK_SIZE..])])
  {
    var x, y := a[..CHUNK_SIZE], b[CHUNK_SIZE..];
    var es := [Entry(0, x), Entry(1, y)];
    var rx := Rx(|a|, FORMAT_TEXT, [Entry(0, x)], CHUNK_SIZE, CHUNK_SIZE, |a|, []);
    assert Insert([], 0, x) == [Entry(0, x)] && Find([], 0).None?;
    assert Chunk(Offer(EMPTY, t, FORMAT_TEXT, |a|), 0, x) == rx;
    assert [Entry(0, x)][1..] == [] && es[1..] == [Entry(1, y)] && es[1..][1..] == [];
    assert Insert([Entry(0, x)], 1, y) == es by { assert Insert([], 1, y) == [Entry(1, y)]; }
    assert Find([Entry(0, x)], 1).None?;
    assert Values(es) == x + y by {
      assert Values([Entry(1, y)]) == y + [] == y;
      assert Values(es) == x + Values(es[1..]);
    }
    var kept := Stored(rx, 1, y);
    assert kept.received == es && kept.receivedTotal == |a|;
    hide Stored, Values, CountsUp;
    HalvesCommit(kept, x, y);
  }
}
