/**
 * What a run of the writer means for the payloads that were queued: which of them the host
 * commits, and when the counters are back at zero.
 */
module WriterRuns {
  import opened Wire
  import opened ClipSender
  import opened Reassembly
  import opened Transfers
  import opened Passages
  import opened WriterProgress
  import opened LinkWriter

  // ----- Fates, transfer by transfer

  function UpTo(fates: seq<Fate>, n: nat): seq<Fate> {
    if |fates| <= n then fates else fates[..n]
  }

  function From(fates: seq<Fate>, n: nat): seq<Fate> {
    if |fates| <= n then [] else fates[n..]
  }

  /** The fates of the packets of the last of the payloads `ps`. */
  function OfLast(ps: seq<Payload>, fates: seq<Fate>): seq<Fate>
    requires ps != []
  {
    From(fates, |Stream(ps[..|ps| - 1])|)
  }

  function OfEarlier(ps: seq<Payload>, fates: seq<Fate>): seq<Fate>
    requires ps != []
  {
    UpTo(fates, |Stream(ps[..|ps| - 1])|)
  }

  function SentChunks(mine: seq<Fate>): seq<nat> {
    if |mine| <= 1 then []
    else SentChunks(mine[..|mine| - 1]) + (if mine[|mine| - 1].Sent? then [|mine| - 2] else [])
  }

  /** A transfer whose packets met the fates `mine`; a packet still queued is not through. */
  function PassageOf(p: Payload, mine: seq<Fate>): Passage {
    var offered := mine != [] && mine[0].Sent?;
    var t := if offered then mine[0].toggles else Toggles(false, false, false);
    Passage(Transfer(p.format, p.bytes, t, SentChunks(mine)), offered)
  }

  function PassagesOf(ps: seq<Payload>, fates: seq<Fate>): seq<Passage> {
    if ps == [] then []
    else PassagesOf(ps[..|ps| - 1], OfEarlier(ps, fates)) + [PassageOf(ps[|ps| - 1], OfLast(ps, fates))]
  }

  /** No packet was dropped or is still queued, and the host took the offer. */
  predicate SentAndTaken(p: Payload, mine: seq<Fate>) {
    && |mine| == |Emission(p.format, p.bytes)| && (forall f | f in mine :: f.Sent?)
    && p.bytes != [] && Accepted(mine[0].toggles, p.format, |p.bytes|)
  }

  /** The payloads none of whose packets was dropped. */
  function WhollySent(ps: seq<Payload>, fates: seq<Fate>): seq<Handoff> {
    if ps == [] then []
    else
      var last := ps[|ps| - 1];
      WhollySent(ps[..|ps| - 1], OfEarlier(ps, fates))
      + (if SentAndTaken(last, OfLast(ps, fates)) then [Handoff(last.format, last.bytes)] else [])
  }

  /** The fates are those of these payloads' packets, as far as the writer has come. */
  ghost predicate FatesOf(ps: seq<Payload>, fates: seq<Fate>) {
    && MessagesOf(fates) <= Stream(ps)
    && forall p | p in ps :: |p.bytes| < U32
  }

  // ----- One transfer

  lemma {:induction false} SentChunksRange(mine: seq<Fate>, n: nat)
    requires |mine| <= 1 + n
    ensures InRange(SentChunks(mine), n)
  {
    if |mine| > 1 { SentChunksRange(mine[..|mine| - 1], n); }
  }

  lemma {:induction false} SentChunksIff(mine: seq<Fate>, i: nat)
    ensures i in SentChunks(mine) <==> i + 1 < |mine| && mine[i + 1].Sent?
  {
    if |mine| > 1 { SentChunksIff(mine[..|mine| - 1], i); }
  }

  lemma PassagePossible(p: Payload, mine: seq<Fate>)
    requires |p.bytes| < U32 && |mine| <= |Emission(p.format, p.bytes)|
    ensures Possible(PassageOf(p, mine).transfer)
  {
    EmissionLength(p.format, p.bytes);
    SentChunksRange(mine, |Chunks(p.bytes)|);
  }

  lemma MessagesFront(fates: seq<Fate>, ms: seq<Message>)
    requires fates != [] && MessagesOf(fates) <= ms
    ensures MessagesOf(fates[..|fates| - 1]) <= ms && |fates| <= |ms|
    ensures fates[|fates| - 1].message == ms[|fates| - 1]
  {
    assert MessagesOf(fates)[|fates| - 1] == fates[|fates| - 1].message;
    assert MessagesOf(fates[..|fates| - 1]) == MessagesOf(fates)[..|fates| - 1];
  }

  /** The host, fed the fates, is the host fed the packets of the passage. */
  lemma {:induction false} PassageReceives(rx: Rx, p: Payload, mine: seq<Fate>)
    requires |p.bytes| < U32 && MessagesOf(mine) <= Emission(p.format, p.bytes)
    ensures Possible(PassageOf(p, mine).transfer)
    ensures var g := PassageOf(p, mine);
            HostAfter(rx, mine) == ReceiveAll(rx, g.transfer.toggles, Through(g))
  {
    var packets := Emission(p.format, p.bytes);
    assert |MessagesOf(mine)| == |mine|;
    PassagePossible(p, mine);
    if |mine| <= 1 {
      OfferReceives(rx, p, mine);
    } else {
      var front := mine[..|mine| - 1];
      MessagesFront(mine, packets);
      hide Emission, HostAfter, ReceiveAll, PassageOf, Possible, Through, MessagesOf;
      PassagePossible(p, front);
      PassageReceives(rx, p, front);
      LaterIsChunk(p, |mine| - 1);
      ThroughSnoc(p, mine);
      var g := PassageOf(p, front);
      ChunkReceives(rx, front, mine[|mine| - 1], g.transfer.toggles, Through(g));
      assert front + [mine[|mine| - 1]] == mine;
    }
  }

  lemma LaterIsChunk(p: Payload, k: nat)
    requires 0 < k < |Emission(p.format, p.bytes)|
    ensures Emission(p.format, p.bytes)[k].ClipChunk?
  {
    EmissionLength(p.format, p.bytes);
    PieceIsDecodable(p.format, p.bytes, k - 1);
  }

  lemma OfferReceives(rx: Rx, p: Payload, mine: seq<Fate>)
    requires |p.bytes| < U32 && MessagesOf(mine) <= Emission(p.format, p.bytes) && |mine| <= 1
    requires Possible(PassageOf(p, mine).transfer)
    ensures var g := PassageOf(p, mine);
            HostAfter(rx, mine) == ReceiveAll(rx, g.transfer.toggles, Through(g))
  {
    hide *;
    FirstThrough(p, mine);
    var t := PassageOf(p, mine).transfer.toggles;
    NothingYet(rx, t);
    if mine != [] {
      HostSnoc(rx, [], mine[0]);
      assert [] + [mine[0]] == mine;
      ReceiveOne(rx, t, mine[0].message);
    }
  }

  lemma NothingYet(rx: Rx, t: Toggles)
    ensures HostAfter(rx, []) == rx && ReceiveAll(rx, t, []) == rx
  {
  }

  /** Of at most one packet, the offer comes through if it was sent. */
  lemma FirstThrough(p: Payload, mine: seq<Fate>)
    requires |p.bytes| < U32 && MessagesOf(mine) <= Emission(p.format, p.bytes) && |mine| <= 1
    requires Possible(PassageOf(p, mine).transfer)
    ensures var g := PassageOf(p, mine);
            && Through(g) == (if mine != [] && mine[0].Sent? then [mine[0].message] else [])
            && (mine != [] && mine[0].Sent? ==> g.transfer.toggles == mine[0].toggles)
  {
    var g := PassageOf(p, mine);
    hide Possible, Emission;
    assert ChunksOf(g) == [];
    if mine != [] { MessagesFront(mine, Emission(p.format, p.bytes)); }
  }

  /** One more chunk packet leaves the passage as it was, or adds itself. */
  lemma ThroughSnoc(p: Payload, mine: seq<Fate>)
    requires |p.bytes| < U32 && 1 < |mine| <= |Emission(p.format, p.bytes)|
    requires Possible(PassageOf(p, mine).transfer) && Possible(PassageOf(p, mine[..|mine| - 1]).transfer)
    ensures var g, h, n := PassageOf(p, mine[..|mine| - 1]), PassageOf(p, mine), |mine| - 1;
            && h.transfer.toggles == g.transfer.toggles
            && Through(h) == Through(g) + if mine[n].Sent? then [Emission(p.format, p.bytes)[n]] else []
  {
    var front, n := mine[..|mine| - 1], |mine| - 1;
    hide Emission, Chunks, Possible;
    assert front[0] == mine[0];
    if mine[n].Sent? {
      assert SentChunks(mine) == SentChunks(front) + [n - 1];
      assert SentChunks(mine)[..|SentChunks(front)|] == SentChunks(front);
    } else {
      assert SentChunks(mine) == SentChunks(front) + [] == SentChunks(front);
    }
  }

  lemma ChunkReceives(rx: Rx, front: seq<Fate>, f: Fate, t: Toggles, ms: seq<Message>)
    requires HostAfter(rx, front) == ReceiveAll(rx, t, ms) && f.message.ClipChunk?
    ensures HostAfter(rx, front + [f]) == ReceiveAll(rx, t, ms + if f.Sent? then [f.message] else [])
  {
    HostSnoc(rx, front, f);
    hide HostAfter, ReceiveAll;
    if f.Sent? {
      ReceiveSnoc(rx, t, ms, f.message);
      TogglesMatterNotToChunks(ReceiveAll(rx, t, ms), f.toggles, t, f.message);
    } else {
      assert ms + [] == ms;
    }
  }

  lemma TogglesMatterNotToChunks(rx: Rx, t: Toggles, u: Toggles, m: Message)
    requires m.ClipChunk?
    ensures Receive(rx, t, m) == Receive(rx, u, m)
  {
  }

  lemma ReceiveSnoc(rx: Rx, t: Toggles, ms: seq<Message>, m: Message)
    ensures ReceiveAll(rx, t, ms + [m]) == Receive(ReceiveAll(rx, t, ms), t, m)
  {
    assert (ms + [m])[..|ms|] == ms;
  }

  // ----- All transfers

  lemma {:induction false} HostSplit(rx: Rx, a: seq<Fate>, b: seq<Fate>)
    ensures HostAfter(rx, a + b) == HostAfter(HostAfter(rx, a), b)
  {
    if b == [] {
      assert a + b == a;
    } else {
      assert (a + b)[..|a + b| - 1] == a + b[..|b| - 1];
      HostSplit(rx, a, b[..|b| - 1]);
    }
  }

  lemma FatesSplit(ps: seq<Payload>, fates: seq<Fate>)
    requires ps != [] && FatesOf(ps, fates)
    ensures fates == OfEarlier(ps, fates) + OfLast(ps, fates)
    ensures FatesOf(ps[..|ps| - 1], OfEarlier(ps, fates))
    ensures MessagesOf(OfLast(ps, fates)) <= Emission(ps[|ps| - 1].format, ps[|ps| - 1].bytes)
  {
    var front, last := ps[..|ps| - 1], ps[|ps| - 1];
    var n := |Stream(front)|;
    assert Stream(ps) == Stream(front) + Emission(last.format, last.bytes);
    assert |MessagesOf(fates)| == |fates|;
    hide Stream, Emission;
    assert MessagesOf(UpTo(fates, n)) == MessagesOf(fates)[..|UpTo(fates, n)|];
    if |fates| > n {
      assert MessagesOf(fates[n..]) == MessagesOf(fates)[n..];
    }
  }

  lemma {:induction false} FatesReceived(ps: seq<Payload>, fates: seq<Fate>)
    requires FatesOf(ps, fates)
    ensures AllPossible(PassagesOf(ps, fates))
    ensures Passages.Received(PassagesOf(ps, fates)) == HostAfter(EMPTY, fates)
  {
    if ps == [] {
      assert |MessagesOf(fates)| == |fates|;
    } else {
      var front, last := ps[..|ps| - 1], ps[|ps| - 1];
      var before, mine := OfEarlier(ps, fates), OfLast(ps, fates);
      FatesSplit(ps, fates);
      assert last in ps;
      hide OfEarlier, OfLast, Emission, Stream, PassageOf, Possible, HostAfter, MessagesOf;
      FatesReceived(front, before);
      PassageReceives(HostAfter(EMPTY, before), last, mine);
      HostSplit(EMPTY, before, mine);
      ReceivedSnoc(PassagesOf(front, before), PassageOf(last, mine));
    }
  }

  lemma TakenIff(p: Payload, mine: seq<Fate>)
    requires |p.bytes| < U32 && |mine| <= |Emission(p.format, p.bytes)|
    ensures var g := PassageOf(p, mine);
            g.offered && Complete(g.transfer) <==> SentAndTaken(p, mine)
  {
    var g, n := PassageOf(p, mine), |Chunks(p.bytes)|;
    EmissionLength(p.format, p.bytes);
    hide Emission, Chunks, Accepted;
    forall i: nat ensures i in SentChunks(mine) <==> i + 1 < |mine| && mine[i + 1].Sent? {
      SentChunksIff(mine, i);
    }
    if g.offered && Complete(g.transfer) {
      SomeChunk(p.bytes);
      assert n - 1 in g.transfer.arrivals;
      forall f | f in mine ensures f.Sent? {
        var j :| 0 <= j < |mine| && mine[j] == f;
        if j > 0 { assert j - 1 in g.transfer.arrivals; }
      }
    }
  }

  lemma SomeChunk(payload: Bytes)
    requires payload != []
    ensures Chunks(payload) != []
  {
  }

  lemma {:induction false} WhollySentIsWhole(ps: seq<Payload>, fates: seq<Fate>)
    requires FatesOf(ps, fates)
    ensures WhollySent(ps, fates) == Whole(PassagesOf(ps, fates))
  {
    if ps != [] {
      var front, last := ps[..|ps| - 1], ps[|ps| - 1];
      var before, mine := OfEarlier(ps, fates), OfLast(ps, fates);
      FatesSplit(ps, fates);
      assert last in ps && |MessagesOf(mine)| == |mine|;
      hide OfEarlier, OfLast, Emission, Stream, PassageOf, MessagesOf, SentAndTaken, Complete;
      WhollySentIsWhole(front, before);
      TakenIff(last, mine);
      WholeSnoc(PassagesOf(front, before), PassageOf(last, mine));
      PassageKeepsPayload(last, mine);
    }
  }

  lemma PassageKeepsPayload(p: Payload, mine: seq<Fate>)
    ensures PassageOf(p, mine).transfer.format == p.format && PassageOf(p, mine).transfer.payload == p.bytes
  {
  }

  /** At any moment of a run, the fates are those of the queued packets, in order. */
  lemma RunHasFatesOf(l: Link, run: seq<Action>, ps: seq<Payload>)
    requires Fresh(l) && Clips(Puts(run)) <= Stream(ps) && forall p | p in ps :: |p.bytes| < U32
    ensures FatesOf(ps, Run(l, run).fates)
  {
    var end := Run(l, run);
    hide *;
    PacketsInOrder(l, run);
    FlowStartsWithFates(end);
    PrefixOf(MessagesOf(end.fates), Clips(Puts(run)), Stream(ps));
    FatesOfThese(ps, end.fates);
  }

  lemma FlowStartsWithFates(l: Link)
    ensures MessagesOf(l.fates) <= Flow(l)
  {
  }

  lemma PrefixOf(a: seq<Message>, b: seq<Message>, c: seq<Message>)
    requires a <= b <= c
    ensures a <= c
  {
  }

  lemma FatesOfThese(ps: seq<Payload>, fates: seq<Fate>)
    requires MessagesOf(fates) <= Stream(ps) && forall p | p in ps :: |p.bytes| < U32
    ensures FatesOf(ps, fates)
  {
  }

  /**
   * Queue whole transfers, and let declines, the user and other packets meddle at any
   * moment: the host commits every payload that it takes and none of whose packets is
   * dropped, in order; and nothing else, if and only if no chunk is sent whose own offer
   * was dropped and that completes what an earlier offer left unfinished.
   */
  lemma CommittedIff(l: Link, run: seq<Action>, ps: seq<Payload>)
    requires Fresh(l) && Clips(Puts(run)) <= Stream(ps) && forall p | p in ps :: |p.bytes| < U32
    ensures var fates := Run(l, run).fates;
            && AllPossible(PassagesOf(ps, fates))
            && Subsequence(WhollySent(ps, fates), Run(l, run).host.handoffs)
            && (Run(l, run).host.handoffs == WhollySent(ps, fates) <==> !Spliced(PassagesOf(ps, fates)))
  {
    var fates := Run(l, run).fates;
    hide *;
    RunHasFatesOf(l, run, ps);
    HostFollowsFates(l, run);
    FatesReceived(ps, fates);
    WhollySentIsWhole(ps, fates);
    ExactlyTheWholeIff(PassagesOf(ps, fates));
  }

  /** So it does as long as nobody raises the flag, whatever the host refuses. */
  lemma CommittedWithoutCancel(l: Link, run: seq<Action>, ps: seq<Payload>)
    requires Fresh(l) && Clips(Puts(run)) <= Stream(ps) && forall p | p in ps :: |p.bytes| < U32
    requires !l.cancel && Cancel !in run && Decline !in run
    ensures Run(l, run).host.handoffs == WhollySent(ps, Run(l, run).fates)
    ensures forall f | f in Run(l, run).fates :: f.Sent?
  {
    var fates := Run(l, run).fates;
    assert l.fates == [];
    hide *;
    SentWhileClear(l, run);
    RunHasFatesOf(l, run, ps);
    CommittedIff(l, run, ps);
    NothingDropped(ps, fates);
    NotSpliced(PassagesOf(ps, fates));
  }

  lemma {:induction false} NothingDropped(ps: seq<Payload>, fates: seq<Fate>)
    requires FatesOf(ps, fates) && forall f | f in fates :: f.Sent?
    ensures forall g | g in PassagesOf(ps, fates) :: g.offered || g.transfer.arrivals == []
  {
    if ps != [] {
      var front := ps[..|ps| - 1];
      var before, mine := OfEarlier(ps, fates), OfLast(ps, fates);
      FatesSplit(ps, fates);
      assert forall f | f in before :: f in fates;
      assert forall f | f in mine :: f in fates;
      hide FatesOf, OfEarlier, OfLast, Stream, Emission;
      NothingDropped(front, before);
    }
  }

  // ----- When the counters return to zero

  /** The length that the latest offer declared. */
  function LatestLen(ms: seq<Message>): nat {
    if ms == [] then 0
    else if ms[|ms| - 1].ClipOffer? then ms[|ms| - 1].totalLen
    else LatestLen(ms[..|ms| - 1])
  }

  /** The bytes of all chunks since, whatever transfer they belong to. */
  function BytesSince(ms: seq<Message>): nat {
    if ms == [] || ms[|ms| - 1].ClipOffer? then 0
    else BytesSince(ms[..|ms| - 1]) + (if ms[|ms| - 1].ClipChunk? then |ms[|ms| - 1].data| else 0)
  }

  /** The last of the packets is a chunk that brings the bytes since the latest offer up to its length. */
  predicate JustReached(ms: seq<Message>) {
    && ms != [] && ms[|ms| - 1].ClipChunk?
    && BytesSince(ms[..|ms| - 1]) < LatestLen(ms) <= BytesSince(ms)
  }

  predicate NothingEmpty(ms: seq<Message>) {
    forall m | m in ms :: (m.ClipOffer? && m.totalLen > 0) || (m.ClipChunk? && m.data != [])
  }

  lemma {:induction false} CountersClosed(ms: seq<Message>)
    ensures var c := AccountAll(ZERO, ms);
            if BytesSince(ms) < LatestLen(ms) then c.total == LatestLen(ms) && c.progress == BytesSince(ms)
            else c.total == 0
    ensures NothingEmpty(ms) ==>
              var c := AccountAll(ZERO, ms);
              (c.progress == 0 && c.total == 0 <==> ms == [] || JustReached(ms))
  {
    if ms != [] {
      assert ms[|ms| - 1] in ms;
      assert forall m | m in ms[..|ms| - 1] :: m in ms;
      CountersClosed(ms[..|ms| - 1]);
    }
  }

  /**
   * As long as nobody presses Cancel, the writer reports a transfer in flight exactly while
   * the chunks sent since the latest offer sent - whatever transfer they belong to - fall
   * short of its length; and after each packet both counters are zero exactly if that
   * packet made up the length, or none was sent at all.
   */
  lemma InFlightIff(l: Link, run: seq<Action>, ps: seq<Payload>)
    requires Fresh(l) && NoZeroing(run) && Clips(Puts(run)) <= Stream(ps)
    requires forall p | p in ps :: Sendable(p)
    requires !Run(l, run).place.Counting?
    ensures var end := Run(l, run);
            var sent := SentMessages(end.fates);
            && (end.counters.total > end.counters.progress <==> BytesSince(sent) < LatestLen(sent))
            && (end.counters.total == 0 == end.counters.progress <==> sent == [] || JustReached(sent))
  {
    var end := Run(l, run);
    assert forall p | p in ps :: |p.bytes| < U32;
    CountersFollowFates(l, run);
    assert SameNumbers(end.counters, AccountAll(ZERO, SentMessages(end.fates)));
    hide Run, Do, BytesSince, LatestLen, JustReached, NothingEmpty, Stream, AccountAll, SentMessages, Clips, Puts,
      FatesOf;
    RunHasFatesOf(l, run, ps);
    SentNotEmpty(ps, end.fates);
    CountersClosed(SentMessages(end.fates));
  }

  lemma {:induction false} StreamNotEmpty(ps: seq<Payload>)
    requires forall p | p in ps :: Sendable(p)
    ensures NothingEmpty(Stream(ps))
  {
    if ps != [] {
      var last := ps[|ps| - 1];
      StreamNotEmpty(ps[..|ps| - 1]);
      assert last in ps;
      EmissionNotEmpty(last);
    }
  }

  lemma EmissionNotEmpty(p: Payload)
    requires Sendable(p)
    ensures NothingEmpty(Emission(p.format, p.bytes))
  {
    var packets := Emission(p.format, p.bytes);
    EmissionLength(p.format, p.bytes);
    assert packets[0] == ClipOffer(p.format, |p.bytes|);
    hide Emission, Chunks;
    forall m | m in packets ensures (m.ClipOffer? && m.totalLen > 0) || (m.ClipChunk? && m.data != []) {
      var j :| 0 <= j < |packets| && packets[j] == m;
      if j > 0 {
        PieceIsDecodable(p.format, p.bytes, j - 1);
        ChunkSizes(p.bytes, j - 1);
      }
    }
  }

  lemma {:induction false} SentAreMessages(fates: seq<Fate>)
    ensures forall m | m in SentMessages(fates) :: m in MessagesOf(fates)
  {
    if fates != [] {
      SentAreMessages(fates[..|fates| - 1]);
      assert MessagesOf(fates) == MessagesOf(fates[..|fates| - 1]) + [fates[|fates| - 1].message];
    }
  }

  lemma SentNotEmpty(ps: seq<Payload>, fates: seq<Fate>)
    requires FatesOf(ps, fates) && forall p | p in ps :: Sendable(p)
    ensures NothingEmpty(SentMessages(fates))
  {
    hide Stream, SentMessages;
    StreamNotEmpty(ps);
    SentAreMessages(fates);
    assert forall m | m in MessagesOf(fates) :: m in Stream(ps);
  }

  lemma {:induction false} TotalStaysZero(l: Link, run: seq<Action>)
    requires l.counters.total == 0
    requires forall k | 0 <= k < |run| && run[k] == Count :: !CountsAnOffer(Run(l, run[..k]))
    ensures Run(l, run).counters.total == 0
  {
    if run != [] {
      var front := run[..|run| - 1];
      assert forall k | 0 <= k < |front| :: front[k] == run[k] && front[..k] == run[..k];
      TotalStaysZero(l, front);
      assert run[..|run| - 1] == front;
    }
  }

  /** The three steps of the user's Cancel. */
  function Cancelled(l: Link): Link {
    Do(Do(Do(l, Cancel), ZeroProgress), ZeroTotal)
  }

  /**
   * Cancel raises the flag and zeroes both counters, and touches nothing else; from then on
   * nothing is in flight until another offer is counted.
   */
  lemma QuietUntilAnOffer(l: Link, run: seq<Action>)
    requires forall k | 0 <= k < |run| && run[k] == Count :: !CountsAnOffer(Run(Cancelled(l), run[..k]))
    ensures Cancelled(l) == l.(cancel := true, counters := Counters(0, 0, l.counters.fileLabel))
    ensures Run(Cancelled(l), run).counters.total == 0
  {
    CancelledIs(l);
    hide *;
    TotalStaysZero(Cancelled(l), run);
  }

  lemma CancelledIs(l: Link)
    ensures Cancelled(l) == l.(cancel := true, counters := Counters(0, 0, l.counters.fileLabel))
  {
  }

  predicate CountsAnOffer(l: Link) {
    l.place.Counting? && l.place.message.ClipOffer?
  }
}
