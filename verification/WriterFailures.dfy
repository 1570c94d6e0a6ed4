/**
 * Runs of the writer in which a payload that was queued is lost, or committed in pieces.
 */
module WriterFailures {
  import opened Wire
  import opened ClipSender
  import opened Reassembly
  import opened Transfers
  import opened WriterProgress
  import opened LinkWriter
  import opened WriterRuns
  import Passages

  // ----- Building runs

  lemma {:induction false} RunSplit(l: Link, a: seq<Action>, b: seq<Action>)
    ensures Run(l, a + b) == Run(Run(l, a), b)
    ensures Puts(a + b) == Puts(a) + Puts(b)
  {
    if b == [] {
      assert a + b == a;
    } else {
      hide Do;
      assert (a + b)[..|a + b| - 1] == a + b[..|b| - 1];
      RunSplit(l, a, b[..|b| - 1]);
    }
  }

  lemma {:induction false} ClipsSplit(a: seq<Packet>, b: seq<Packet>)
    ensures Clips(a + b) == Clips(a) + Clips(b)
  {
    if b == [] {
      assert a + b == a;
    } else {
      hide Clip;
      assert (a + b)[..|a + b| - 1] == a + b[..|b| - 1];
      ClipsSplit(a, b[..|b| - 1]);
    }
  }

  /** Cancel is only pressed while the progress row, with its button, is on the screen. */
  ghost predicate ByTheButton(l: Link, run: seq<Action>) {
    run != [] ==>
      var front := run[..|run| - 1];
      ByTheButton(l, front) && (run[|run| - 1] == Cancel ==> Run(l, front).counters.total > 0)
  }

  predicate IsCancel(a: Action) {
    a == Cancel || a == ZeroProgress || a == ZeroTotal
  }

  /** Nobody presses it. */
  ghost predicate NoCancel(run: seq<Action>) {
    forall a | a in run :: !IsCancel(a)
  }

  /** `run` puts the offers and chunks `ms` on the queue and leads to `end`. */
  ghost predicate Leads(l: Link, run: seq<Action>, end: Link, ms: seq<Message>) {
    Run(l, run) == end && Clips(Puts(run)) == ms && ByTheButton(l, run)
  }

  lemma Begin(l: Link)
    ensures Leads(l, [], l, []) && NoCancel([])
  {
  }

  lemma Then(l: Link, run: seq<Action>, end: Link, ms: seq<Message>, a: Action) returns (more: seq<Action>)
    requires Leads(l, run, end, ms) && !a.Put? && (a == Cancel ==> end.counters.total > 0)
    ensures Leads(l, more, Do(end, a), ms)
    ensures NoCancel(run) && !IsCancel(a) ==> NoCancel(more)
  {
    hide Do, Clips;
    more := run + [a];
    assert more[..|run|] == run;
    assert Puts(more) == Puts(run) + [] == Puts(run);
  }

  lemma ThenPut(l: Link, run: seq<Action>, end: Link, ms: seq<Message>, p: Packet) returns (more: seq<Action>)
    requires Leads(l, run, end, ms)
    ensures Leads(l, more, end.(queue := end.queue + [p]), ms + Clip(p))
    ensures NoCancel(run) ==> NoCancel(more)
  {
    hide Clips, Clip;
    more := run + [Put(p)];
    assert more[..|run|] == run;
    ClipsSnoc(Puts(run), p);
  }

  lemma {:induction false} ButtonSplit(l: Link, a: seq<Action>, b: seq<Action>)
    requires ByTheButton(l, a) && ByTheButton(Run(l, a), b)
    ensures ByTheButton(l, a + b)
  {
    if b == [] {
      assert a + b == a;
    } else {
      hide Do;
      assert (a + b)[..|a + b| - 1] == a + b[..|b| - 1];
      ButtonSplit(l, a, b[..|b| - 1]);
      RunSplit(l, a, b[..|b| - 1]);
    }
  }

  lemma Join(l: Link, run: seq<Action>, mid: Link, ms: seq<Message>, rest: seq<Action>, end: Link, ns: seq<Message>)
    requires Leads(l, run, mid, ms) && Leads(mid, rest, end, ns)
    ensures Leads(l, run + rest, end, ms + ns)
    ensures NoCancel(run) && NoCancel(rest) ==> NoCancel(run + rest)
  {
    hide ByTheButton;
    RunSplit(l, run, rest);
    ClipsSplit(Puts(run), Puts(rest));
    ButtonSplit(l, run, rest);
  }

  lemma LeadsMeans(l: Link, run: seq<Action>, end: Link, ms: seq<Message>)
    requires Leads(l, run, end, ms)
    ensures Run(l, run) == end && Clips(Puts(run)) == ms && ByTheButton(l, run)
  {
  }

  /** All packets are queued before the writer takes the first. */
  lemma {:induction false} PutAll(l: Link, ps: seq<Packet>) returns (run: seq<Action>)
    requires l.queue == []
    ensures Leads(l, run, l.(queue := ps), Clips(ps)) && NoCancel(run)
  {
    if ps == [] {
      run := [];
      Begin(l);
    } else {
      var front, p := ps[..|ps| - 1], ps[|ps| - 1];
      assert front + [p] == ps;
      hide Leads, NoCancel;
      run := PutAll(l, front);
      run := ThenPut(l, run, l.(queue := front), Clips(front), p);
    }
  }

  /** The writer stands before the packet `p`. */
  ghost predicate Before(l: Link, p: Packet, rest: seq<Packet>) {
    l.place == Ready && l.queue == [p] + rest
  }

  lemma TakesIt(l: Link, p: Packet, rest: seq<Packet>)
    requires Before(l, p, rest)
    ensures Dequeued(l) == l.(place := Holding(p), queue := rest)
  {
    assert l.queue[1..] == rest;
  }

  /** The flag being down, the packet is sent and counted. */
  function AfterSending(l: Link, m: Message, rest: seq<Packet>, t: Toggles): Link {
    l.(queue := rest, counters := Account(l.counters, m), host := Receive(l.host, t, m),
       declines := l.declines + (if m.ClipOffer? && Reply(t, m.format).Some? then 1 else 0),
       fates := l.fates + [Sent(m, t)])
  }

  lemma SendsIt(l: Link, m: Message, rest: seq<Packet>, t: Toggles)
    requires Before(l, Carries(m), rest) && !l.cancel && !m.ClipDecline?
    ensures Counted(Written(Looked(Dequeued(l)), t)) == AfterSending(l, m, rest, t)
  {
    TakesIt(l, Carries(m), rest);
    hide Dequeued, Account, Receive, Reply;
  }

  lemma SendNext(l: Link, m: Message, rest: seq<Packet>, t: Toggles) returns (run: seq<Action>)
    requires Before(l, Carries(m), rest) && !l.cancel && !m.ClipDecline?
    ensures Leads(l, run, AfterSending(l, m, rest, t), []) && NoCancel(run)
  {
    Begin(l);
    SendsIt(l, m, rest, t);
    hide Leads, NoCancel, Dequeued, Looked, Written, Counted, AfterSending;
    run := Then(l, [], l, [], Dequeue);
    run := Then(l, run, Dequeued(l), [], Look);
    run := Then(l, run, Looked(Dequeued(l)), [], Write(t));
    run := Then(l, run, Written(Looked(Dequeued(l)), t), [], Count);
  }

  lemma DropsIt(l: Link, m: Message, rest: seq<Packet>)
    requires Before(l, Carries(m), rest) && l.cancel && !m.ClipDecline?
    ensures Looked(Dequeued(l)) == l.(queue := rest, fates := l.fates + [Dropped(m)])
  {
    TakesIt(l, Carries(m), rest);
    hide Dequeued;
  }

  /** The flag being up, it is dropped. */
  lemma DropNext(l: Link, m: Message, rest: seq<Packet>) returns (run: seq<Action>)
    requires Before(l, Carries(m), rest) && l.cancel && !m.ClipDecline?
    ensures Leads(l, run, l.(queue := rest, fates := l.fates + [Dropped(m)]), []) && NoCancel(run)
  {
    Begin(l);
    DropsIt(l, m, rest);
    hide Leads, NoCancel, Dequeued, Looked;
    run := Then(l, [], l, [], Dequeue);
    run := Then(l, run, Dequeued(l), [], Look);
  }

  lemma LowersIt(l: Link, rest: seq<Packet>, t: Toggles)
    requires Before(l, Other(0), rest) && l.cancel
    ensures Written(Rearmed(Looked(Dequeued(l))), t)
            == l.(queue := rest, cancel := false, passed := l.passed + [Other(0)])
  {
    TakesIt(l, Other(0), rest);
    hide Dequeued;
  }

  /** A packet of another kind lowers the flag. */
  lemma LowerNext(l: Link, rest: seq<Packet>, t: Toggles) returns (run: seq<Action>)
    requires Before(l, Other(0), rest) && l.cancel
    ensures Leads(l, run, l.(queue := rest, cancel := false, passed := l.passed + [Other(0)]), [])
  {
    Begin(l);
    LowersIt(l, rest, t);
    hide Leads, NoCancel, Dequeued, Looked, Rearmed, Written;
    run := Then(l, [], l, [], Dequeue);
    run := Then(l, run, Dequeued(l), [], Look);
    run := Then(l, run, Looked(Dequeued(l)), [], Rearm);
    run := Then(l, run, Rearmed(Looked(Dequeued(l))), [], Write(t));
  }

  function Carried(ms: seq<Message>): seq<Packet> {
    seq(|ms|, i requires 0 <= i < |ms| => Carries(ms[i]))
  }

  function AllDropped(ms: seq<Message>): seq<Fate> {
    seq(|ms|, i requires 0 <= i < |ms| => Dropped(ms[i]))
  }

  ghost predicate NoDeclines(ms: seq<Message>) {
    forall m | m in ms :: !m.ClipDecline?
  }

  lemma {:induction false} ClipsOfCarried(ms: seq<Message>)
    requires NoDeclines(ms)
    ensures Clips(Carried(ms)) == ms
  {
    if ms != [] {
      var front, m := ms[..|ms| - 1], ms[|ms| - 1];
      assert m in ms && forall x | x in front :: x in ms;
      assert Carried(ms) == Carried(front) + [Carries(m)];
      assert ms == front + [m] && Clip(Carries(m)) == [m];
      hide Clips, Carried, Clip;
      ClipsOfCarried(front);
      ClipsSnoc(Carried(front), Carries(m));
    }
  }

  lemma FirstOf(ms: seq<Message>, rest: seq<Packet>, fates: seq<Fate>)
    requires ms != [] && NoDeclines(ms)
    ensures Carried(ms) + rest == [Carries(ms[0])] + (Carried(ms[1..]) + rest)
    ensures fates + AllDropped(ms) == fates + [Dropped(ms[0])] + AllDropped(ms[1..])
    ensures !ms[0].ClipDecline? && NoDeclines(ms[1..])
  {
    assert forall m | m in ms[1..] :: m in ms;
  }

  /** As long as the flag is up, all of them are dropped. */
  lemma {:induction false} DrainDrops(l: Link, ms: seq<Message>, rest: seq<Packet>) returns (run: seq<Action>)
    requires l.place == Ready && l.cancel && l.queue == Carried(ms) + rest && NoDeclines(ms)
    ensures Leads(l, run, l.(queue := rest, fates := l.fates + AllDropped(ms)), []) && NoCancel(run)
    decreases |ms|
  {
    if ms == [] {
      run := [];
      Begin(l);
      assert l.fates + AllDropped(ms) == l.fates && Carried(ms) + rest == rest;
    } else {
      run := DrainOneMore(l, ms, rest);
      var left := Carried(ms[1..]) + rest;
      var mid := l.(queue := left, fates := l.fates + [Dropped(ms[0])]);
      FirstOf(ms, rest, l.fates);
      var nothing: seq<Message> := [];
      assert nothing + nothing == nothing;
      hide Leads, NoCancel, Carried, AllDropped, NoDeclines;
      var last := DrainDrops(mid, ms[1..], rest);
      Join(l, run, mid, [], last, l.(queue := rest, fates := l.fates + AllDropped(ms)), []);
      run := run + last;
    }
  }

  lemma DrainOneMore(l: Link, ms: seq<Message>, rest: seq<Packet>) returns (run: seq<Action>)
    requires l.place == Ready && l.cancel && l.queue == Carried(ms) + rest && NoDeclines(ms) && ms != []
    ensures Leads(l, run, l.(queue := Carried(ms[1..]) + rest, fates := l.fates + [Dropped(ms[0])]), [])
    ensures NoCancel(run)
  {
    FirstOf(ms, rest, l.fates);
    assert Before(l, Carries(ms[0]), Carried(ms[1..]) + rest);
    run := DropNext(l, ms[0], Carried(ms[1..]) + rest);
  }

  // ----- A refused file takes the text behind it along

  lemma RefusalComesBack(l: Link, ms: seq<Message>, t: Toggles)
    requires Fresh(l) && ms != [] && ms[0].ClipOffer? && Reply(t, ms[0].format).Some?
    ensures var back := Heeded(AfterSending(l.(queue := Carried(ms)), ms[0], Carried(ms[1..]), t));
            && back.place == Ready && back.cancel && back.queue == Carried(ms[1..]) + [] && back.host == EMPTY
            && back.fates == [Sent(ms[0], t)]
            && back.counters.progress == 0 && back.counters.total == ms[0].totalLen
  {
    hide Carried;
    assert Carried(ms[1..]) + [] == Carried(ms[1..]);
    assert [] + [Sent(ms[0], t)] == [Sent(ms[0], t)];
  }

  /** The offer is sent, and the decline comes back while the rest is still queued. */
  lemma OfferIsRefused(l: Link, ms: seq<Message>, t: Toggles) returns (run: seq<Action>)
    requires Fresh(l) && !l.cancel && ms != [] && NoDeclines(ms)
    ensures Leads(l, run, Heeded(AfterSending(l.(queue := Carried(ms)), ms[0], Carried(ms[1..]), t)), ms)
    ensures NoCancel(run)
  {
    var queued := l.(queue := Carried(ms));
    var sent := AfterSending(queued, ms[0], Carried(ms[1..]), t);
    FirstOf(ms, [], []);
    assert Carried(ms) + [] == Carried(ms) && Carried(ms[1..]) + [] == Carried(ms[1..]);
    assert Before(queued, Carries(ms[0]), Carried(ms[1..]));
    assert ms + [] == ms && l.queue == [];
    ClipsOfCarried(ms);
    assert Do(sent, Decline) == Heeded(sent);
    assert !queued.cancel && !IsCancel(Decline);
    hide *;
    run := PutAll(l, Carried(ms));
    var next := SendNext(queued, ms[0], Carried(ms[1..]), t);
    Join(l, run, queued, ms, next, sent, []);
    run := Then(l, run + next, sent, ms, Decline);
  }

  lemma AllButTheOffer(l: Link, ms: seq<Message>, t: Toggles) returns (run: seq<Action>, end: Link)
    requires Fresh(l) && !l.cancel && ms != [] && NoDeclines(ms)
    requires ms[0].ClipOffer? && Reply(t, ms[0].format).Some?
    ensures Leads(l, run, end, ms) && NoCancel(run)
    ensures end.place == Ready && end.queue == [] && end.fates == [Sent(ms[0], t)] + AllDropped(ms[1..])
    ensures end.host == EMPTY && end.counters.progress == 0 && end.counters.total == ms[0].totalLen
  {
    var back := Heeded(AfterSending(l.(queue := Carried(ms)), ms[0], Carried(ms[1..]), t));
    FirstOf(ms, [], []);
    RefusalComesBack(l, ms, t);
    assert ms + [] == ms;
    hide *;
    run := OfferIsRefused(l, ms, t);
    var next := DrainDrops(back, ms[1..], []);
    end := back.(queue := [], fates := back.fates + AllDropped(ms[1..]));
    Join(l, run, back, ms, next, end, []);
    run := run + next;
  }

  /**
   * A file that the host refuses, and a text queued behind it: the decline makes the writer
   * drop the text too. The host commits nothing, although it would have taken the text, and
   * the file stays in flight with nothing left to send.
   */
  lemma TextBehindRefusedFileIsLost(l: Link, file: Bytes, text: Bytes, t: Toggles) returns (run: seq<Action>)
    requires Fresh(l) && !l.cancel && !t.files && t.text
    requires 0 < |file| <= MAX_FILE_PAYLOAD_BYTES && 0 < |text| <= MAX_TEXT_BYTES
    ensures NoCancel(run) && Run(l, run).queue == [] && Run(l, run).place == Ready
    ensures Clips(Puts(run)) == Stream([Payload(FORMAT_FILE, file), Payload(FORMAT_TEXT, text)])
    ensures SentMessages(Run(l, run).fates) == [ClipOffer(FORMAT_FILE, |file|)]
    ensures Run(l, run).host.handoffs == []
    ensures Run(l, run).counters.progress == 0 && Run(l, run).counters.total == |file|
  {
    var ms := Stream([Payload(FORMAT_FILE, file), Payload(FORMAT_TEXT, text)]);
    FileThenText(file, text);
    OneSent(ms, t);
    hide Stream, SentMessages, AllDropped, Leads, NoCancel, Fresh;
    var end;
    run, end := AllButTheOffer(l, ms, t);
    LeadsMeans(l, run, end, ms);
  }

  lemma StreamOfTwo(p: Payload, q: Payload)
    ensures Stream([p]) == Emission(p.format, p.bytes)
    ensures Stream([p, q]) == Emission(p.format, p.bytes) + Emission(q.format, q.bytes)
  {
    hide Emission;
    assert [p, q][..1] == [p] && [p][..0] == [];
    assert Stream([p]) == [] + Emission(p.format, p.bytes);
  }

  lemma FileThenText(file: Bytes, text: Bytes)
    requires 0 < |file| <= MAX_FILE_PAYLOAD_BYTES && 0 < |text| <= MAX_TEXT_BYTES
    ensures var ms := Stream([Payload(FORMAT_FILE, file), Payload(FORMAT_TEXT, text)]);
            && ms == Emission(FORMAT_FILE, file) + Emission(FORMAT_TEXT, text)
            && ms != [] && ms[0] == ClipOffer(FORMAT_FILE, |file|) && NoDeclines(ms)
  {
    var f, t := Payload(FORMAT_FILE, file), Payload(FORMAT_TEXT, text);
    StreamOfTwo(f, t);
    EmissionNotEmpty(f);
    EmissionNotEmpty(t);
    assert Emission(FORMAT_FILE, file)[0] == ClipOffer(FORMAT_FILE, |file|);
  }

  lemma OneSent(ms: seq<Message>, t: Toggles)
    requires ms != []
    ensures SentMessages([Sent(ms[0], t)] + AllDropped(ms[1..])) == [ms[0]]
  {
    var f := Sent(ms[0], t);
    assert [f][..0] == [];
    assert SentMessages([f]) == [] + [f.message];
    SentThenDropped([f], ms[1..]);
  }

  lemma {:induction false} SentThenDropped(fates: seq<Fate>, ms: seq<Message>)
    ensures SentMessages(fates + AllDropped(ms)) == SentMessages(fates)
  {
    if ms == [] {
      assert fates + AllDropped(ms) == fates;
    } else {
      var front, m := ms[..|ms| - 1], ms[|ms| - 1];
      SentThenDropped(fates, front);
      HostSnoc(EMPTY, fates + AllDropped(front), Dropped(m));
      assert fates + AllDropped(ms) == fates + AllDropped(front) + [Dropped(m)];
      assert SentMessages(fates) + [] == SentMessages(fates);
    }
  }

  // ----- Two texts are spliced

  /** What becomes of two texts of two pieces each when the flag is up in the middle. */
  function SpliceFates(a: Bytes, b: Bytes, t: Toggles): seq<Fate>
    requires CHUNK_SIZE < |a| && CHUNK_SIZE < |b|
  {
    [Sent(ClipOffer(FORMAT_TEXT, |a|), t),
     Sent(ClipChunk(0, a[..CHUNK_SIZE]), t),
     Dropped(ClipChunk(1, a[CHUNK_SIZE..]))]
    + [Dropped(ClipOffer(FORMAT_TEXT, |b|)),
       Dropped(ClipChunk(0, b[..CHUNK_SIZE])),
       Sent(ClipChunk(1, b[CHUNK_SIZE..]), t)]
  }

  lemma TwoPieceEmission(payload: Bytes)
    requires CHUNK_SIZE < |payload| <= 2 * CHUNK_SIZE
    ensures Emission(FORMAT_TEXT, payload)
            == [ClipOffer(FORMAT_TEXT, |payload|),
                ClipChunk(0, payload[..CHUNK_SIZE]), ClipChunk(1, payload[CHUNK_SIZE..])]
  {
    Passages.TwoPieces(payload);
    var x, y := payload[..CHUNK_SIZE], payload[CHUNK_SIZE..];
    var none: seq<Bytes> := [];
    assert [x, y][1..] == [y] && [y][1..] == none;
    assert Numbered([y], 1) == [ClipChunk(1, y)] + [];
    assert Numbered([x, y], 0) == [ClipChunk(0, x)] + Numbered([y], 1);
  }

  lemma SpliceStream(a: Bytes, b: Bytes, t: Toggles)
    requires CHUNK_SIZE < |a| == |b| <= 2 * CHUNK_SIZE
    ensures var first, second := Payload(FORMAT_TEXT, a), Payload(FORMAT_TEXT, b);
            && MessagesOf(SpliceFates(a, b, t)) == Stream([first, second])
            && |Stream([first])| == 3
  {
    var first, second := Payload(FORMAT_TEXT, a), Payload(FORMAT_TEXT, b);
    StreamOfTwo(first, second);
    TwoPieceEmission(a);
    TwoPieceEmission(b);
    hide Emission, Stream;
  }

  lemma SpliceHost(a: Bytes, b: Bytes, t: Toggles)
    requires t.text && CHUNK_SIZE < |a| == |b| <= 2 * CHUNK_SIZE
    ensures HostAfter(EMPTY, SpliceFates(a, b, t)).handoffs
            == [Handoff(FORMAT_TEXT, a[..CHUNK_SIZE] + b[CHUNK_SIZE..])]
  {
    var fates := SpliceFates(a, b, t);
    Passages.HalvesJoin(a, b, t);
    hide Offer, Chunk;
    var mid := HostAfter(EMPTY, fates[..3]);
    assert fates == fates[..3] + fates[3..];
    HostSplit(EMPTY, fates[..3], fates[3..]);
    HostOfThree(EMPTY, fates[0], fates[1], fates[2]);
    HostOfThree(mid, fates[3], fates[4], fates[5]);
    assert fates[..3] == [fates[0], fates[1], fates[2]] && fates[3..] == [fates[3], fates[4], fates[5]];
  }

  function Met(rx: Rx, f: Fate): Rx {
    if f.Sent? then Receive(rx, f.toggles, f.message) else rx
  }

  lemma HostOfThree(rx: Rx, f: Fate, g: Fate, h: Fate)
    ensures HostAfter(rx, [f, g, h]) == Met(Met(Met(rx, f), g), h)
  {
    hide Receive;
    assert [] + [f] == [f] && [f] + [g] == [f, g] && [f, g] + [h] == [f, g, h];
    HostSnoc(rx, [], f);
    HostSnoc(rx, [f], g);
    HostSnoc(rx, [f, g], h);
  }

  lemma NothingWhole(first: Payload, second: Payload, fates: seq<Fate>)
    requires |fates| == 6 && fates[2].Dropped? && fates[3].Dropped?
    requires |Stream([first])| == 3
    ensures WhollySent([first, second], fates) == []
  {
    var ps := [first, second];
    assert ps[..1] == [first] && [first][..0] == [];
    assert |Stream([first][..0])| == 0;
    hide Stream, Emission, Accepted;
    assert OfLast(ps, fates) == fates[3..] && OfEarlier(ps, fates) == fates[..3];
    assert fates[3..][0].Dropped? && fates[3..][0] in fates[3..];
    assert OfLast([first], fates[..3]) == fates[..3];
    assert fates[..3][2].Dropped? && fates[..3][2] in fates[..3];
    assert WhollySent([first], fates[..3]) == [];
  }

  /** The first text's offer and first piece are sent, and then Cancel is pressed. */
  lemma CancelHalfway(l: Link, a: Bytes, rest: seq<Packet>, t: Toggles) returns (run: seq<Action>, end: Link)
    requires CHUNK_SIZE < |a| && l.place == Ready && !l.cancel && l.fates == []
    requires l.queue == [Carries(ClipOffer(FORMAT_TEXT, |a|)), Carries(ClipChunk(0, a[..CHUNK_SIZE]))] + rest
    ensures Leads(l, run, end, [])
    ensures end.place == Ready && end.cancel && end.queue == rest
    ensures end.fates == [Sent(ClipOffer(FORMAT_TEXT, |a|), t), Sent(ClipChunk(0, a[..CHUNK_SIZE]), t)]
  {
    var o, c := ClipOffer(FORMAT_TEXT, |a|), ClipChunk(0, a[..CHUNK_SIZE]);
    var left := [Carries(c)] + rest;
    var one := AfterSending(l, o, left, t);
    var two := AfterSending(one, c, rest, t);
    HalfSent(l, o, c, rest, t);
    var none: seq<Message> := [];
    assert none + none == none;
    hide Leads, NoCancel, Before, AfterSending;
    run := SendNext(l, o, left, t);
    var next := SendNext(one, c, rest, t);
    Join(l, run, one, [], next, two, []);
    run, end := PressCancel(l, run + next, two);
  }

  lemma HalfSent(l: Link, o: Message, c: Message, rest: seq<Packet>, t: Toggles)
    requires o.ClipOffer? && c.ClipChunk? && |c.data| < o.totalLen
    requires l.queue == [Carries(o), Carries(c)] + rest && l.place == Ready && !l.cancel && l.fates == []
    ensures var left := [Carries(c)] + rest;
            var one := AfterSending(l, o, left, t);
            var two := AfterSending(one, c, rest, t);
            && Before(l, Carries(o), left) && Before(one, Carries(c), rest) && !one.cancel
            && two.place == Ready && two.queue == rest && two.counters.total > 0
            && two.fates == [Sent(o, t), Sent(c, t)]
  {
    hide Receive, Reply;
    assert [Carries(o), Carries(c)] + rest == [Carries(o)] + ([Carries(c)] + rest);
    assert [] + [Sent(o, t)] + [Sent(c, t)] == [Sent(o, t), Sent(c, t)];
  }

  /** The flag goes up, and then both counters to zero. */
  lemma PressCancel(l: Link, run: seq<Action>, at: Link) returns (more: seq<Action>, end: Link)
    requires Leads(l, run, at, []) && at.counters.total > 0
    ensures Leads(l, more, end, [])
    ensures end.place == at.place && end.cancel && end.queue == at.queue && end.fates == at.fates
  {
    hide Leads, NoCancel;
    more := Then(l, run, at, [], Cancel);
    end := Do(at, Cancel);
    more := Then(l, more, end, [], ZeroProgress);
    end := Do(end, ZeroProgress);
    more := Then(l, more, end, [], ZeroTotal);
    end := Do(end, ZeroTotal);
  }

  /** Three packets are dropped, another lowers the flag, and the last is sent. */
  lemma LoweredHalfway(l: Link, ms: seq<Message>, last: Message, t: Toggles) returns (run: seq<Action>, end: Link)
    requires l.place == Ready && l.cancel && NoDeclines(ms) && !last.ClipDecline?
    requires l.queue == Carried(ms) + [Other(0), Carries(last)]
    ensures Leads(l, run, end, []) && end.fates == l.fates + AllDropped(ms) + [Sent(last, t)]
  {
    var rest := [Other(0), Carries(last)];
    var dropped := l.(queue := rest, fates := l.fates + AllDropped(ms));
    var low := dropped.(queue := [Carries(last)], cancel := false, passed := l.passed + [Other(0)]);
    assert Before(dropped, Other(0), [Carries(last)]) && Before(low, Carries(last), []);
    var none: seq<Message> := [];
    assert none + none == none;
    end := AfterSending(low, last, [], t);
    assert end.fates == l.fates + AllDropped(ms) + [Sent(last, t)];
    hide Leads, NoCancel, Before, Carried, AllDropped, NoDeclines, AfterSending;
    var first := DrainDrops(l, ms, rest);
    var second := LowerNext(dropped, [Carries(last)], t);
    var third := SendNext(low, last, [], t);
    Join(l, first, dropped, [], second, low, []);
    Join(l, first + second, low, [], third, end, []);
    run := first + second + third;
  }

  /** The pieces of the two texts that stay behind. */
  function Behind(a: Bytes, b: Bytes): (ms: seq<Message>)
    requires CHUNK_SIZE < |a| && CHUNK_SIZE < |b|
    ensures NoDeclines(ms)
  {
    [ClipChunk(1, a[CHUNK_SIZE..]), ClipOffer(FORMAT_TEXT, |b|), ClipChunk(0, b[..CHUNK_SIZE])]
  }

  /** The two texts' packets, with one of another kind, a key say, before the last. */
  function SpliceQueue(a: Bytes, b: Bytes): seq<Packet>
    requires CHUNK_SIZE < |a| && CHUNK_SIZE < |b|
  {
    [Carries(ClipOffer(FORMAT_TEXT, |a|)), Carries(ClipChunk(0, a[..CHUNK_SIZE]))]
    + (Carried(Behind(a, b)) + [Other(0), Carries(ClipChunk(1, b[CHUNK_SIZE..]))])
  }

  lemma SpliceClips(a: Bytes, b: Bytes, t: Toggles)
    requires CHUNK_SIZE < |a| && CHUNK_SIZE < |b|
    ensures Clips(SpliceQueue(a, b)) == MessagesOf(SpliceFates(a, b, t))
  {
    var o, c, e := ClipOffer(FORMAT_TEXT, |a|), ClipChunk(0, a[..CHUNK_SIZE]), ClipChunk(1, b[CHUNK_SIZE..]);
    var ms := Behind(a, b);
    var rest := Carried(ms) + [Other(0), Carries(e)];
    SpliceMessages(a, b, t);
    PairClips(Carries(o), Carries(c));
    PairClips(Other(0), Carries(e));
    assert Clip(Carries(o)) + Clip(Carries(c)) == [o, c] && Clip(Other(0)) + Clip(Carries(e)) == [e];
    hide Clips, Clip, Carried, MessagesOf, SpliceFates, Behind;
    ClipsOfCarried(ms);
    ClipsSplit(Carried(ms), [Other(0), Carries(e)]);
    ClipsSplit([Carries(o), Carries(c)], rest);
  }

  lemma SpliceMessages(a: Bytes, b: Bytes, t: Toggles)
    requires CHUNK_SIZE < |a| && CHUNK_SIZE < |b|
    ensures MessagesOf(SpliceFates(a, b, t))
            == [ClipOffer(FORMAT_TEXT, |a|), ClipChunk(0, a[..CHUNK_SIZE])]
               + (Behind(a, b) + [ClipChunk(1, b[CHUNK_SIZE..])])
  {
  }

  lemma PairClips(p: Packet, q: Packet)
    ensures Clips([p, q]) == Clip(p) + Clip(q)
  {
    assert [] + [p] == [p] && [p] + [q] == [p, q];
    ClipsSnoc([], p);
    ClipsSnoc([p], q);
  }

  lemma SpliceEnds(a: Bytes, b: Bytes, t: Toggles)
    requires CHUNK_SIZE < |a| && CHUNK_SIZE < |b|
    ensures [Sent(ClipOffer(FORMAT_TEXT, |a|), t), Sent(ClipChunk(0, a[..CHUNK_SIZE]), t)] + AllDropped(Behind(a, b))
            + [Sent(ClipChunk(1, b[CHUNK_SIZE..]), t)] == SpliceFates(a, b, t)
  {
  }

  /**
   * Cancelled halfway through a text, with the flag lowered again halfway through the text
   * behind it, the writer leaves the host with half of each. If the lengths are equal, the
   * host commits the two halves as one text, which nobody has sent.
   */
  lemma TextsAreSpliced(l: Link, a: Bytes, b: Bytes, t: Toggles) returns (run: seq<Action>)
    requires Fresh(l) && !l.cancel && t.text && CHUNK_SIZE < |a| == |b| <= 2 * CHUNK_SIZE
    ensures Clips(Puts(run)) == Stream([Payload(FORMAT_TEXT, a), Payload(FORMAT_TEXT, b)]) && ByTheButton(l, run)
    ensures Run(l, run).host.handoffs == [Handoff(FORMAT_TEXT, a[..CHUNK_SIZE] + b[CHUNK_SIZE..])]
    ensures WhollySent([Payload(FORMAT_TEXT, a), Payload(FORMAT_TEXT, b)], Run(l, run).fates) == []
  {
    var fates := SpliceFates(a, b, t);
    SpliceStream(a, b, t);
    NothingWhole(Payload(FORMAT_TEXT, a), Payload(FORMAT_TEXT, b), fates);
    SpliceHost(a, b, t);
    SpliceClips(a, b, t);
    SpliceEnds(a, b, t);
    var rest := Carried(Behind(a, b)) + [Other(0), Carries(ClipChunk(1, b[CHUNK_SIZE..]))];
    var queued := l.(queue := SpliceQueue(a, b));
    assert l.place == Ready && l.fates == [] && l.queue == [];
    assert MessagesOf(fates) + [] + [] == MessagesOf(fates);
    assert queued.queue == [Carries(ClipOffer(FORMAT_TEXT, |a|)), Carries(ClipChunk(0, a[..CHUNK_SIZE]))] + rest;
    hide *;
    run := PutAll(l, SpliceQueue(a, b));
    var second, mid := CancelHalfway(queued, a, rest, t);
    var third, end := LoweredHalfway(mid, Behind(a, b), ClipChunk(1, b[CHUNK_SIZE..]), t);
    Join(l, run, queued, MessagesOf(fates), second, mid, []);
    Join(l, run + second, mid, MessagesOf(fates) + [], third, end, []);
    run := run + second + third;
    LeadsMeans(l, run, end, MessagesOf(fates) + [] + []);
    HostFollowsFates(l, run);
  }
}
