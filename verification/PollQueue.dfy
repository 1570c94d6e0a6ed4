/**
 * What whole runs of the poll thread put on the queue, followed through the writer's
 * counters and a willing receiver to the payloads that are committed.
 */
module PollQueue {
  import opened Wire
  import opened ClipSender
  import opened Reassembly
  import opened Dedup
  import opened FileNameGuard
  import opened PollLoop
  import opened PollRuns
  import WriterProgress
  import Transfers

  type Payload = WriterProgress.Payload

  /**
   * What the pass relies on from outside: packing kept the file within its cap, and
   * neither a non-empty text nor a packed file nor a PNG is zero bytes long.
   */
  predicate Honest(i: Input) {
    && (i.file.Some? && i.file.value.Ready? ==> 0 < |i.file.value.packed| <= MAX_FILE_PAYLOAD_BYTES)
    && (i.text.Some? && i.text.value.content != [] ==> i.text.value.bytes != [])
    && (i.image.Some? && i.image.value.png.Some? ==> i.image.value.png.value != [])
  }

  ghost predicate AllHonest(run: seq<Action>) {
    forall k | 0 <= k < |run| && run[k].Tick? :: Honest(run[k].i)
  }

  /** What a receiver that lets the format in takes. */
  predicate Fits(p: Payload) {
    p.bytes != [] && KnownFormat(p.format) && |p.bytes| <= Cap(p.format)
  }

  ghost predicate AllFit(ps: seq<Payload>) {
    forall p | p in ps :: Fits(p)
  }

  lemma StreamSnoc(ps: seq<Payload>, p: Payload)
    ensures WriterProgress.Stream(ps + [p]) == WriterProgress.Stream(ps) + Emission(p.format, p.bytes)
  {
    assert (ps + [p])[..|ps|] == ps;
  }

  /** `after` is `before` followed by whole transfers of fitting payloads. */
  ghost predicate Grew(before: seq<Message>, after: seq<Message>, ps: seq<Payload>) {
    AllFit(ps) && after == before + WriterProgress.Stream(ps)
  }

  lemma GrewByOne(before: seq<Message>, middle: seq<Message>, ps: seq<Payload>, p: Payload)
    requires Grew(before, middle, ps) && Fits(p)
    ensures Grew(before, middle + Emission(p.format, p.bytes), ps + [p])
  {
    StreamSnoc(ps, p);
  }

  /** A branch that queued nothing, or one transfer. */
  ghost predicate QueuedAtMostOne(before: seq<Message>, after: seq<Message>) {
    after == before || exists p: Payload :: Fits(p) && after == before + Emission(p.format, p.bytes)
  }

  lemma FileQueues(p: Poll, i: Input)
    requires Honest(i)
    ensures QueuedAtMostOne(p.out, FileStage(p, i).out)
  {
    if FileStage(p, i).out != p.out {
      assert Fits(WriterProgress.Payload(FORMAT_FILE, i.file.value.packed));
    }
  }

  lemma TextQueues(p: Poll, t: Text)
    requires t.bytes != []
    ensures QueuedAtMostOne(p.out, TextShip(p, t).out)
  {
    if TextShip(p, t).out != p.out {
      assert Fits(WriterProgress.Payload(FORMAT_TEXT, t.bytes));
    }
  }

  lemma ImageQueues(p: Poll, i: Input)
    requires Honest(i)
    ensures QueuedAtMostOne(p.out, ImageStage(p, i).out)
  {
    if ImageStage(p, i).out != p.out {
      assert Fits(WriterProgress.Payload(FORMAT_IMAGE, i.image.value.png.value));
    }
  }

  lemma Grow(before: seq<Message>, middle: seq<Message>, after: seq<Message>, ps: seq<Payload>)
    returns (qs: seq<Payload>)
    requires Grew(before, middle, ps) && QueuedAtMostOne(middle, after)
    ensures Grew(before, after, qs) && |qs| <= |ps| + 1
  {
    qs := ps;
    if after != middle {
      var p: Payload :| Fits(p) && after == middle + Emission(p.format, p.bytes);
      GrewByOne(before, middle, ps, p);
      qs := ps + [p];
    }
  }

  /** One pass, whatever lands in its gap, queues at most a file, a text and an image, each whole. */
  lemma PassQueuesWholeTransfers(p: Poll, i: Input, gap: seq<Stamp>) returns (ps: seq<Payload>)
    requires Honest(i)
    ensures Grew(p.out, InterleavedPass(p, i, gap).out, ps) && |ps| <= 3
  {
    var checked := TextProbe(AtCheck(p, i), i);
    var disturbed := checked.(seen := ApplyAll(checked.seen, gap));
    var texted := AtImage(p, i, gap);
    FileQueues(p.(inFlight := false), i);
    if Ships(p, i) { TextQueues(disturbed, Candidate(i).value); }
    ImageQueues(texted, i);
    hide FileStage, TextShip, ImageStage;
    assert Grew(p.out, p.out, []);
    ps := Grow(p.out, p.out, AtCheck(p, i).out, []);
    ps := Grow(p.out, AtCheck(p, i).out, texted.out, ps);
    ps := Grow(p.out, texted.out, ImageStage(texted, i).out, ps);
  }

  lemma {:induction false} StreamSplit(a: seq<Payload>, b: seq<Payload>)
    ensures WriterProgress.Stream(a + b) == WriterProgress.Stream(a) + WriterProgress.Stream(b)
  {
    if b == [] {
      assert a + b == a;
    } else {
      var front, last := b[..|b| - 1], b[|b| - 1];
      assert a + b == (a + front) + [last] && b == front + [last];
      StreamSnoc(a + front, last);
      StreamSplit(a, front);
    }
  }

  lemma GrewMore(before: seq<Message>, middle: seq<Message>, after: seq<Message>, ps: seq<Payload>, qs: seq<Payload>)
    requires Grew(before, middle, ps) && Grew(middle, after, qs)
    ensures Grew(before, after, ps + qs)
  {
    StreamSplit(ps, qs);
  }

  lemma StepQueuesWholeTransfers(before: seq<Message>, w: World, a: Action, ps: seq<Payload>)
    returns (qs: seq<Payload>)
    requires Grew(before, w.poll.out, ps) && (a.Tick? ==> Honest(a.i))
    ensures Grew(before, Step(w, a).poll.out, qs)
  {
    hide InterleavedPass, Ships, Candidate, Apply, Honest, Grew;
    qs := ps;
    if a.Tick? {
      var more := PassQueuesWholeTransfers(w.poll, a.i, a.gap);
      GrewMore(before, w.poll.out, Step(w, a).poll.out, ps, more);
      qs := ps + more;
    }
  }

  /** In every interleaved run the queue is a sequence of whole transfers that fit a receiver. */
  lemma {:induction false} QueueIsWholeTransfers(start: World, run: seq<Action>) returns (ps: seq<Payload>)
    requires AllHonest(run)
    ensures Grew(start.poll.out, Run(start, run).poll.out, ps)
  {
    if run == [] {
      ps := [];
    } else {
      hide Grew, Step, Honest;
      var front, a := run[..|run| - 1], run[|run| - 1];
      ps := QueueIsWholeTransfers(start, front);
      ps := StepQueuesWholeTransfers(start.poll.out, Run(start, front), a, ps);
    }
  }

  // ----- To the other end

  lemma {:induction false} ReceiveSplit(rx: Rx, t: Toggles, a: seq<Message>, b: seq<Message>)
    ensures Transfers.ReceiveAll(rx, t, a + b) == Transfers.ReceiveAll(Transfers.ReceiveAll(rx, t, a), t, b)
  {
    if b == [] {
      assert a + b == a;
    } else {
      assert (a + b)[..|a + b| - 1] == a + b[..|b| - 1];
      ReceiveSplit(rx, t, a, b[..|b| - 1]);
    }
  }

  /** 0, 1, 2, ...: every piece once, in order. */
  function UpTo(n: nat): (r: seq<nat>)
    ensures |r| == n && forall i: nat :: i < n ==> r[i] == i
  {
    if n == 0 then [] else UpTo(n - 1) + [n - 1]
  }

  lemma {:induction false} PickedInOrder(packets: seq<Message>, arrivals: seq<nat>)
    requires |arrivals| < |packets| && forall i: nat :: i < |arrivals| ==> arrivals[i] == i
    ensures Transfers.InRange(arrivals, |packets| - 1)
    ensures Transfers.Picked(packets, arrivals) == packets[1..1 + |arrivals|]
  {
    if arrivals != [] {
      var n := |arrivals| - 1;
      PickedInOrder(packets, arrivals[..n]);
      assert packets[1..2 + n] == packets[1..1 + n] + [packets[1 + n]];
    }
  }

  /** A transfer of which every piece arrives once, in order. */
  function InOrder(p: Payload, t: Toggles): Transfers.Transfer {
    Transfers.Transfer(p.format, p.bytes, t, UpTo(|Chunks(p.bytes)|))
  }

  lemma InOrderFacts(rx: Rx, t: Toggles, p: Payload)
    requires Fits(p)
    ensures var tr := InOrder(p, t);
            && |p.bytes| < U32 && Transfers.InRange(tr.arrivals, |Chunks(p.bytes)|)
            && Transfers.After(rx, tr, tr.arrivals) == Transfers.ReceiveAll(rx, t, Emission(p.format, p.bytes))
            && (Transfers.Takeable(tr) <==> !Declined(t, p.format))
            && (Accepted(t, p.format, |p.bytes|) <==> !Declined(t, p.format))
  {
    var tr := InOrder(p, t);
    FitsMeans(tr);
    hide Chunks, Emission, Transfers.After, Transfers.ReceiveAll, Fits, Declined, Accepted, Transfers.Takeable;
    AfterAll(rx, tr);
  }

  lemma DeclinedIsIgnored(rx: Rx, t: Toggles, p: Payload)
    requires Fits(p) && Declined(t, p.format)
    ensures Transfers.ReceiveAll(rx, t, Emission(p.format, p.bytes)) == EMPTY.(handoffs := rx.handoffs)
  {
    var tr := InOrder(p, t);
    InOrderFacts(rx, t, p);
    assert tr.format == p.format && tr.payload == p.bytes && tr.toggles == t;
    hide *;
    Transfers.RefusedTransfer(rx, tr, tr.arrivals);
    ClearedIs(rx);
  }

  lemma TakenIsCommitted(rx: Rx, t: Toggles, p: Payload)
    requires Fits(p) && !Declined(t, p.format)
    ensures Transfers.ReceiveAll(rx, t, Emission(p.format, p.bytes))
            == EMPTY.(handoffs := rx.handoffs + [Handoff(p.format, p.bytes)])
  {
    var tr := InOrder(p, t);
    InOrderFacts(rx, t, p);
    UpToIsAll(|Chunks(p.bytes)|);
    assert tr.format == p.format && tr.payload == p.bytes && tr.toggles == t;
    assert tr.arrivals == UpTo(|Chunks(p.bytes)|);
    hide *;
    Transfers.AcceptedTransfer(rx, tr, tr.arrivals);
    AllSeen(rx, tr);
  }

  /** One whole transfer, arriving in order, is committed if its format is let in. */
  lemma TransferIsCommitted(rx: Rx, t: Toggles, p: Payload)
    requires Fits(p)
    ensures Transfers.ReceiveAll(rx, t, Emission(p.format, p.bytes))
            == EMPTY.(handoffs := rx.handoffs + (if Declined(t, p.format) then [] else [Handoff(p.format, p.bytes)]))
  {
    hide *;
    if Declined(t, p.format) {
      DeclinedIsIgnored(rx, t, p);
      assert rx.handoffs + [] == rx.handoffs;
    } else {
      TakenIsCommitted(rx, t, p);
    }
  }

  lemma ClearedIs(rx: Rx)
    ensures Cleared(rx) == EMPTY.(handoffs := rx.handoffs)
  {
  }

  lemma UpToIsAll(n: nat)
    ensures forall i: nat :: i < n ==> i in UpTo(n)
  {
    forall i: nat | i < n ensures i in UpTo(n) { assert UpTo(n)[i] == i; }
  }

  lemma FitsMeans(t: Transfers.Transfer)
    requires Fits(WriterProgress.Payload(t.format, t.payload))
    ensures Transfers.Takeable(t) <==> !Declined(t.toggles, t.format)
    ensures Accepted(t.toggles, t.format, |t.payload|) <==> !Declined(t.toggles, t.format)
    ensures |t.payload| < U32
  {
  }

  lemma AfterAll(rx: Rx, t: Transfers.Transfer)
    requires |t.arrivals| == |Chunks(t.payload)| && forall i: nat :: i < |t.arrivals| ==> t.arrivals[i] == i
    ensures Transfers.InRange(t.arrivals, |Chunks(t.payload)|)
    ensures Transfers.After(rx, t, t.arrivals) == Transfers.ReceiveAll(rx, t.toggles, Emission(t.format, t.payload))
  {
    var packets := Emission(t.format, t.payload);
    EmissionLength(t.format, t.payload);
    hide Chunks, Emission;
    PickedInOrder(packets, t.arrivals);
    assert packets == [packets[0]] + packets[1..1 + |t.arrivals|];
  }

  lemma AllSeen(rx: Rx, t: Transfers.Transfer)
    requires Transfers.InRange(t.arrivals, |Chunks(t.payload)|)
    requires forall i: nat :: i < |Chunks(t.payload)| ==> i in t.arrivals
    requires Transfers.Reached(Transfers.After(rx, t, t.arrivals), t.format, Chunks(t.payload),
                               Transfers.Seen(t.arrivals), rx.handoffs)
    ensures Transfers.After(rx, t, t.arrivals) == EMPTY.(handoffs := rx.handoffs + [Handoff(t.format, t.payload)])
  {
    hide Chunks;
    Transfers.SeenMeansArrived(Chunks(t.payload), t.arrivals);
    ConcatOfChunks(t.payload);
  }

  /** The payloads of formats that are let in. */
  function Committed(ps: seq<Payload>, t: Toggles): seq<Handoff> {
    if ps == [] then []
    else
      var last := ps[|ps| - 1];
      Committed(ps[..|ps| - 1], t) + (if Declined(t, last.format) then [] else [Handoff(last.format, last.bytes)])
  }

  lemma {:induction false} StreamIsCommitted(ps: seq<Payload>, t: Toggles)
    requires AllFit(ps)
    ensures Transfers.ReceiveAll(EMPTY, t, WriterProgress.Stream(ps)) == EMPTY.(handoffs := Committed(ps, t))
  {
    if ps != [] {
      var front, last := ps[..|ps| - 1], ps[|ps| - 1];
      StreamIsCommitted(front, t);
      ReceiveSplit(EMPTY, t, WriterProgress.Stream(front), Emission(last.format, last.bytes));
      TransferIsCommitted(EMPTY.(handoffs := Committed(front, t)), t, last);
    }
  }

  /** The payloads as they are handed over. */
  function HandedOver(ps: seq<Payload>): seq<Handoff> {
    seq(|ps|, k requires 0 <= k < |ps| => Handoff(ps[k].format, ps[k].bytes))
  }

  lemma {:induction false} NothingDeclined(ps: seq<Payload>, t: Toggles)
    requires t == Toggles(true, true, true)
    ensures Committed(ps, t) == HandedOver(ps)
  {
    if ps != [] {
      NothingDeclined(ps[..|ps| - 1], t);
      assert HandedOver(ps) == HandedOver(ps[..|ps| - 1]) + [Handoff(ps[|ps| - 1].format, ps[|ps| - 1].bytes)];
    }
  }

  /**
   * From the clipboard to the other end, if the writer drops nothing and the host takes
   * files: whatever a run of the poll thread queues is whole transfers `ps`; the host's
   * receiver commits exactly these payloads, in order, and is idle again; and the writer's
   * counters are back at zero. (`PollToHost` says what becomes of it otherwise.)
   */
  lemma WhatIsQueuedIsCommitted(start: World, run: seq<Action>) returns (ps: seq<Payload>)
    requires start.poll.out == [] && AllHonest(run)
    ensures Grew([], Run(start, run).poll.out, ps)
    ensures Transfers.ReceiveAll(EMPTY, Toggles(true, true, true), Run(start, run).poll.out)
            == EMPTY.(handoffs := HandedOver(ps))
    ensures var c := WriterProgress.AccountAll(WriterProgress.Counters(0, 0, ""), Run(start, run).poll.out);
            c.progress == 0 && c.total == 0
  {
    ps := QueueIsWholeTransfers(start, run);
    assert [] + WriterProgress.Stream(ps) == WriterProgress.Stream(ps);
    StreamIsCommitted(ps, Toggles(true, true, true));
    NothingDeclined(ps, Toggles(true, true, true));
    WriterProgress.BetweenTransfers(WriterProgress.Counters(0, 0, ""), ps);
  }

  // ----- The file-name guard inside the poll thread

  /** The calls one pass makes to the guard: a sent file's name first, then this pass's text. */
  function CallsOf(p: Poll, i: Input): seq<Call> {
    Sent(p, i) + Probed(i)
  }

  function Probed(i: Input): seq<Call> {
    if Candidate(i).Some? then [Probe(Candidate(i).value.content, i.now)] else []
  }

  function Sent(p: Poll, i: Input): seq<Call> {
    if SendsFile(p, i) && i.file.Some? && i.file.value.Ready? then [Push(i.file.value.name, i.now)] else []
  }

  function CallsIn(start: World, run: seq<Action>): seq<Call> {
    if run == [] then []
    else
      var front := run[..|run| - 1];
      CallsIn(start, front)
      + (match run[|run| - 1] case Tick(i, _) => CallsOf(Run(start, front).poll, i) case Reader(_) => [])
  }

  lemma PlaySnoc(calls: seq<Call>, c: Call)
    ensures Play(calls + [c])
            == if c.Push? then Pushed(Play(calls), c.name, c.now) else Refreshed(Play(calls), c.name, c.now)
  {
    assert (calls + [c])[..|calls|] == calls;
  }

  lemma NamesAtCheck(p: Poll, i: Input, calls: seq<Call>)
    requires p.names == Play(calls)
    ensures AtCheck(p, i).names == Play(calls + Sent(p, i))
  {
    if Sent(p, i) != [] {
      PlaySnoc(calls, Sent(p, i)[0]);
    } else {
      assert calls + Sent(p, i) == calls;
    }
  }

  lemma NamesProbed(calls: seq<Call>, i: Input)
    ensures Play(calls + Probed(i))
            == if Candidate(i).Some? then Refreshed(Play(calls), Candidate(i).value.content, i.now) else Play(calls)
  {
    hide Play, Candidate, Refreshed;
    if Candidate(i).Some? {
      PlaySnoc(calls, Probed(i)[0]);
    } else {
      assert calls + Probed(i) == calls;
    }
  }

  lemma CallsInOrder(calls: seq<Call>, p: Poll, i: Input)
    ensures calls + CallsOf(p, i) == calls + Sent(p, i) + Probed(i)
  {
    hide Sent, Probed;
  }

  lemma NamesAfterPass(p: Poll, i: Input, gap: seq<Stamp>, calls: seq<Call>)
    requires p.names == Play(calls)
    ensures InterleavedPass(p, i, gap).names == Play(calls + CallsOf(p, i))
  {
    hide *;
    NamesAtCheck(p, i, calls);
    PassOnNames(p, i, gap);
    CallsInOrder(calls, p, i);
    NamesProbed(calls + Sent(p, i), i);
  }

  /** After the check, only the probe touches the remembered names. */
  lemma PassOnNames(p: Poll, i: Input, gap: seq<Stamp>)
    ensures InterleavedPass(p, i, gap).names
            == if Candidate(i).Some? then Refreshed(AtCheck(p, i).names, Candidate(i).value.content, i.now)
               else AtCheck(p, i).names
  {
    hide AtCheck, Candidate;
  }

  lemma {:induction false} NamesFollowCalls(start: World, run: seq<Action>)
    requires Fresh(start)
    ensures Run(start, run).poll.names == Play(CallsIn(start, run))
  {
    if run != [] {
      var front, a := run[..|run| - 1], run[|run| - 1];
      NamesFollowCalls(start, front);
      if a.Tick? {
        NamesAfterPass(Run(start, front).poll, a.i, a.gap, CallsIn(start, front));
      } else {
        assert CallsIn(start, run) == CallsIn(start, front) + [] == CallsIn(start, front);
      }
    }
  }

  lemma MonotoneFront(calls: seq<Call>, c: Call)
    requires Monotone(calls + [c])
    ensures Monotone(calls) && (calls != [] ==> calls[|calls| - 1].now <= c.now)
  {
    var all := calls + [c];
    assert all[|calls|] == c && forall k | 0 <= k < |calls| :: all[k] == calls[k];
  }

  lemma GuardStopsNames(p: Poll, i: Input)
    requires Candidate(i).Some?
    ensures NamesASentFile(AtCheck(p, i), i) == AnyMatch(AtCheck(p, i).names, Candidate(i).value.content, i.now)
    ensures Ships(p, i) ==> !NamesASentFile(AtCheck(p, i), i)
  {
    hide AtCheck, Candidate, AnyMatch;
  }

  /**
   * In every run, under a clock that never goes back, the name of a recently sent file is
   * never shipped as text, not even by the pass that sends the file; and the guard keeps
   * back nothing else.
   */
  lemma SentNamesAreKeptBack(start: World, run: seq<Action>, i: Input)
    requires Fresh(start) && Candidate(i).Some?
    requires Monotone(CallsIn(start, run) + CallsOf(Run(start, run).poll, i))
    ensures var p := Run(start, run).poll;
            var calls := CallsIn(start, run) + Sent(p, i);
            && (NamesASentFile(AtCheck(p, i), i) <==> Recognised(calls, Candidate(i).value.content, i.now))
            && (Ships(p, i) ==> !Recognised(calls, Candidate(i).value.content, i.now))
  {
    var p := Run(start, run).poll;
    var calls := CallsIn(start, run) + Sent(p, i);
    var text := Candidate(i).value.content;
    NamesFollowCalls(start, run);
    NamesAtCheck(p, i, CallsIn(start, run));
    GuardStopsNames(p, i);
    assert CallsIn(start, run) + CallsOf(p, i) == calls + [Probe(text, i.now)];
    hide *;
    MonotoneFront(calls, Probe(text, i.now));
    GuardRefinesHistory(calls, text, i.now);
  }

  // ----- Images

  /** Nothing but the image `img` is seen, and nobody else touches the image stamps. */
  ghost predicate ImageStands(run: seq<Action>, img: Image) {
    forall k | 0 <= k < |run| :: LeavesImage(run[k], img)
  }

  ghost predicate LeavesImage(a: Action, img: Image) {
    match a
    case Reader(s) => !s.ImageStamp? && !s.Forget?
    case Tick(i, gap) =>
      (i.image.None? || i.image == Some(img)) && forall s | s in gap :: !s.ImageStamp? && !s.Forget?
  }

  /** The pass sends its image or reports it as too large. */
  predicate ActsOnImage(p: Poll, i: Input, gap: seq<Stamp>) {
    ImageStage(AtImage(p, i, gap), i) != AtImage(p, i, gap)
  }

  function ImageActions(start: World, run: seq<Action>): nat {
    if run == [] then 0
    else
      var front, a := run[..|run| - 1], run[|run| - 1];
      ImageActions(start, front) + (if a.Tick? && ActsOnImage(Run(start, front).poll, a.i, a.gap) then 1 else 0)
  }

  lemma {:induction false} StampsLeaveImage(l: LastSeen, ss: seq<Stamp>)
    requires forall s | s in ss :: !s.ImageStamp? && !s.Forget?
    ensures ApplyAll(l, ss).image == l.image && ApplyAll(l, ss).oversizeImage == l.oversizeImage
  {
    if ss != [] {
      StampsLeaveImage(l, ss[..|ss| - 1]);
      assert ss[|ss| - 1] in ss;
    }
  }

  lemma PassLeavesImage(p: Poll, i: Input, gap: seq<Stamp>)
    requires forall s | s in gap :: !s.ImageStamp? && !s.Forget?
    ensures AtImage(p, i, gap).seen.image == p.seen.image
    ensures AtImage(p, i, gap).seen.oversizeImage == p.seen.oversizeImage
  {
    StampsLeaveImage(TextProbe(AtCheck(p, i), i).seen, gap);
  }

  /** A known image is left alone, and acting on one makes it known. */
  lemma KnownImageStays(w: World, a: Action, img: Image)
    requires LeavesImage(a, img)
    ensures MatchesImage(w.poll.seen, img.hash) ==> MatchesImage(Step(w, a).poll.seen, img.hash)
    ensures a.Tick? && ActsOnImage(w.poll, a.i, a.gap) ==>
              !MatchesImage(w.poll.seen, img.hash) && MatchesImage(Step(w, a).poll.seen, img.hash)
  {
    if a.Tick? {
      PassLeavesImage(w.poll, a.i, a.gap);
      hide AtImage;
    }
  }

  /** An image that stays on the clipboard is sent or reported at most once in the whole run. */
  lemma {:induction false} StandingImageIsQuiet(start: World, run: seq<Action>, img: Image)
    requires ImageStands(run, img)
    ensures ImageActions(start, run) <= 1
    ensures ImageActions(start, run) == 1 ==> MatchesImage(Run(start, run).poll.seen, img.hash)
  {
    if run != [] {
      var front, a := run[..|run| - 1], run[|run| - 1];
      assert ImageStands(front, img) && LeavesImage(a, img);
      StandingImageIsQuiet(start, front, img);
      KnownImageStays(Run(start, front), a, img);
      hide Step, ActsOnImage;
    }
  }

  /** Acting is queueing the image's transfer, or one more toast for it. */
  lemma ImageActionIs(p: Poll, i: Input, gap: seq<Stamp>)
    requires ActsOnImage(p, i, gap)
    ensures i.image.Some? && i.image.value.png.Some?
    ensures var before, after, png := AtImage(p, i, gap), InterleavedPass(p, i, gap), i.image.value.png.value;
            if |png| <= MAX_IMAGE_BYTES
            then after.out == before.out + Emission(FORMAT_IMAGE, png) && after.imageToasts == before.imageToasts
            else after.out == before.out && after.imageToasts == before.imageToasts + 1
  {
    hide AtImage;
  }
}
