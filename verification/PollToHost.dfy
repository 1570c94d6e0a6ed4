/** Runs of the poll thread and of the writer together: from the clipboard to the host. */
module PollToHost {
  import opened Wire
  import opened ClipSender
  import opened Dedup
  import opened FileNameGuard
  import opened PollLoop
  import opened PollRuns
  import PollQueue
  import Reassembly
  import Passages
  import LinkWriter
  import WriterRuns
  import WriterFailures
  import WriterProgress

  type Payload = WriterProgress.Payload

  /**
   * Whatever the poll thread has queued is whole transfers; and whatever the writer does
   * with them, under declines, the user's Cancel and packets of other kinds, the host
   * commits exactly the payloads it takes none of whose packets is dropped, if and only if
   * no chunk whose own offer was dropped completes what an earlier offer left unfinished.
   */
  lemma WhatIsWrittenIsCommitted(start: World, run: seq<Action>, l: LinkWriter.Link, moves: seq<LinkWriter.Action>)
    returns (ps: seq<Payload>)
    requires start.poll.out == [] && PollQueue.AllHonest(run) && LinkWriter.Fresh(l)
    requires LinkWriter.Clips(LinkWriter.Puts(moves)) <= Run(start, run).poll.out
    ensures PollQueue.Grew([], Run(start, run).poll.out, ps)
    ensures var end := LinkWriter.Run(l, moves);
            && Passages.AllPossible(WriterRuns.PassagesOf(ps, end.fates))
            && Passages.Subsequence(WriterRuns.WhollySent(ps, end.fates), end.host.handoffs)
            && (end.host.handoffs == WriterRuns.WhollySent(ps, end.fates)
                <==> !Passages.Spliced(WriterRuns.PassagesOf(ps, end.fates)))
  {
    ps := PollQueue.QueueIsWholeTransfers(start, run);
    assert [] + WriterProgress.Stream(ps) == WriterProgress.Stream(ps);
    FitsInU32(ps);
    hide *;
    WriterRuns.CommittedIff(l, moves, ps);
  }

  lemma FitsInU32(ps: seq<Payload>)
    requires PollQueue.AllFit(ps)
    ensures forall p | p in ps :: |p.bytes| < U32
  {
  }

  // ----- A text lost for good

  /** Kicked, the pass finds a new file and, beside it, a new text. */
  predicate NewFileAndText(p: Poll, i: Input) {
    && i.kicked && i.linkUp && i.sendFiles && i.sendText && i.image == None
    && i.changeCount != p.changeCount && i.file.Some? && i.file.value.Ready?
    && !MatchesFile(p.seen, i.file.value.hash) && 0 < |i.file.value.packed| <= MAX_FILE_PAYLOAD_BYTES
    && i.text.Some? && i.text.value.content != [] && !MatchesText(p.seen, i.text.value.hash)
    && 0 < |i.text.value.bytes| <= MAX_TEXT_BYTES
    && !AnyMatch(Pushed(p.names, i.file.value.name, i.now), i.text.value.content, i.now)
  }

  lemma FileAndTextPass(p: Poll, i: Input, gap: seq<Stamp>)
    requires NewFileAndText(p, i)
    ensures Ships(p, i) && Candidate(i) == i.text
    ensures InterleavedPass(p, i, gap).out
            == p.out + Emission(FORMAT_FILE, i.file.value.packed) + Emission(FORMAT_TEXT, i.text.value.bytes)
  {
    var q := AtCheck(p, i);
    hide Pushed, AnyMatch, Refreshed, Emission, ApplyAll;
    assert q.names == Pushed(p.names, i.file.value.name, i.now);
    assert q.out == p.out + Emission(FORMAT_FILE, i.file.value.packed) && q.seen == p.seen;
  }

  /**
   * To a host that refuses files: such a pass queues the file and the text, and there is a
   * run of the writer, without a Cancel, after which nothing is left to send, the host has
   * committed nothing, and the file counts as in flight.
   */
  lemma TextBesideRefusedFileIsLost(start: World, i: Input, gap: seq<Stamp>, l: LinkWriter.Link,
                                       t: Reassembly.Toggles)
    returns (moves: seq<LinkWriter.Action>)
    requires start.poll.out == [] && NewFileAndText(start.poll, i)
    requires LinkWriter.Fresh(l) && !l.cancel && !t.files && t.text
    ensures WriterFailures.NoCancel(moves)
    ensures LinkWriter.Clips(LinkWriter.Puts(moves)) == Step(start, Tick(i, gap)).poll.out
    ensures var end := LinkWriter.Run(l, moves);
            && end.queue == [] && end.place == LinkWriter.Ready && end.host.handoffs == []
            && end.counters.progress == 0 && end.counters.total == |i.file.value.packed|
  {
    var file, text := i.file.value.packed, i.text.value.bytes;
    FileAndTextPass(start.poll, i, gap);
    WriterFailures.StreamOfTwo(WriterProgress.Payload(FORMAT_FILE, file), WriterProgress.Payload(FORMAT_TEXT, text));
    assert [] + Emission(FORMAT_FILE, file) + Emission(FORMAT_TEXT, text)
      == Emission(FORMAT_FILE, file) + Emission(FORMAT_TEXT, text);
    assert Step(start, Tick(i, gap)).poll == InterleavedPass(start.poll, i, gap);
    hide *;
    moves := WriterFailures.TextBehindRefusedFileIsLost(l, file, text, t);
  }

  lemma {:induction false} ShippedGrows(start: World, run: seq<Action>)
    ensures start.shipped <= Run(start, run).shipped
  {
    if run != [] { ShippedGrows(start, run[..|run| - 1]); }
  }

  lemma {:induction false} RunFrom(start: World, a: Action, more: seq<Action>)
    ensures Run(start, [a] + more) == Run(Step(start, a), more)
    decreases |more|
  {
    if more == [] {
      assert [a] + more == [a] && [a][..0] == [];
      assert Run(start, [a]) == Step(Run(start, []), a);
    } else {
      hide Step;
      assert ([a] + more)[..|more|] == [a] + more[..|more| - 1];
      RunFrom(start, a, more[..|more| - 1]);
    }
  }

  /**
   * And the text is not sent again: with few texts in play and no reset, it is shipped by
   * that pass and no later one.
   */
  lemma LostTextIsNotResent(start: World, i: Input, gap: seq<Stamp>, more: seq<Action>)
    requires Fresh(start) && NewFileAndText(start.poll, i)
    requires NoReset([Tick(i, gap)] + more)
    requires |Elements(Run(start, [Tick(i, gap)] + more).stamped)| <= TEXT_HISTORY
    ensures var shipped := Run(start, [Tick(i, gap)] + more).shipped;
            shipped != [] && shipped[0] == i.text.value.hash && NoDuplicates(shipped)
  {
    FileAndTextPass(start.poll, i, gap);
    assert Step(start, Tick(i, gap)).shipped == [] + [i.text.value.hash];
    hide Step, Ships, NewFileAndText;
    NothingShipsTwice(start, [Tick(i, gap)] + more);
    RunFrom(start, Tick(i, gap), more);
    ShippedGrows(Step(start, Tick(i, gap)), more);
  }
}
