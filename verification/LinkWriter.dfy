/**
 * The writer thread between the queue and the wire, with the cancel flag that a decline
 * from the host or the user's Cancel raises and the writer lowers. Threads take turns one
 * access at a time; the wire loses nothing.
 */
module LinkWriter {
  import opened Wire
  import opened Reassembly
  import opened Transfers
  import opened WriterProgress

  datatype Packet = Carries(message: Message) | Other(id: nat)

  /** What became of an offer or chunk, with the host's switches when it arrived. */
  datatype Fate = Sent(message: Message, toggles: Toggles) | Dropped(message: Message)

  /** Where the writer stands in its loop. */
  datatype Place =
    | Ready
    | Holding(packet: Packet)
    | TimedOut
    | Rearming(next: Option<Packet>)
    | Passing(packet: Packet)
    | Counting(message: Message)

  /**
   * `declines` counts the refusals on their way back. `fates`, and `passed` for the packets
   * of another kind that were sent, are history variables, oldest first.
   */
  datatype Link = Link(queue: seq<Packet>, place: Place, cancel: bool, declines: nat,
                       counters: Counters, host: Rx, fates: seq<Fate>, passed: seq<Packet>)

  /** The last three are the user's Cancel, which raises the flag and then zeroes the counters. */
  datatype Action =
    | Put(packet: Packet)
    | Dequeue
    | TimeOut
    | Look
    | Rearm
    | Write(toggles: Toggles)
    | Count
    | Decline
    | Cancel
    | ZeroProgress
    | ZeroTotal

  predicate IsClip(p: Packet) {
    p.Carries? && !p.message.ClipDecline?
  }

  predicate Encodable(p: Packet) {
    p.Carries? && p.message.ClipChunk? ==> Decodable(p.message.index, p.message.data)
  }

  // ----- The steps, on values

  function Dequeued(l: Link): Link {
    if l.place == Ready && l.queue != [] then l.(place := Holding(l.queue[0]), queue := l.queue[1..]) else l
  }

  function WaitedOut(l: Link): Link {
    if l.place == Ready && l.queue == [] then l.(place := TimedOut) else l
  }

  /** The flag is loaded: a clip packet under the flag is dropped. */
  function Looked(l: Link): Link {
    match l.place
    case Holding(p) =>
      if IsClip(p) && l.cancel then l.(place := Ready, fates := l.fates + [Dropped(p.message)])
      else if l.cancel then l.(place := Rearming(Some(p)))
      else l.(place := Passing(p))
    case TimedOut => l.(place := if l.cancel then Rearming(None) else Ready)
    case _ => l
  }

  function Rearmed(l: Link): Link {
    match l.place
    case Rearming(next) => l.(cancel := false, place := if next.Some? then Passing(next.value) else Ready)
    case _ => l
  }

  function Written(l: Link, t: Toggles): Link {
    if !l.place.Passing? then l
    else
      var p := l.place.packet;
      if p.Other? then l.(place := Ready, passed := l.passed + [p])
      else
        var refused := p.message.ClipOffer? && Reply(t, p.message.format).Some?;
        l.(place := Counting(p.message), host := Receive(l.host, t, p.message),
           declines := l.declines + (if refused then 1 else 0),
           fates := l.fates + (if IsClip(p) then [Sent(p.message, t)] else []),
           passed := l.passed + (if IsClip(p) then [] else [p]))
  }

  function Counted(l: Link): Link {
    if l.place.Counting? then l.(place := Ready, counters := Account(l.counters, l.place.message)) else l
  }

  /** The reader takes a decline off the wire. */
  function Heeded(l: Link): Link {
    if l.declines == 0 then l
    else l.(declines := l.declines - 1, cancel := true, counters := l.counters.(fileLabel := ""))
  }

  function Do(l: Link, a: Action): Link {
    match a
    case Put(p) => l.(queue := l.queue + [p])
    case Dequeue => Dequeued(l)
    case TimeOut => WaitedOut(l)
    case Look => Looked(l)
    case Rearm => Rearmed(l)
    case Write(t) => Written(l, t)
    case Count => Counted(l)
    case Decline => Heeded(l)
    case Cancel => l.(cancel := true)
    case ZeroProgress => l.(counters := l.counters.(progress := 0))
    case ZeroTotal => l.(counters := l.counters.(total := 0))
  }

  function Run(l: Link, run: seq<Action>): Link {
    if run == [] then l else Do(Run(l, run[..|run| - 1]), run[|run| - 1])
  }

  /** A link just opened, to a host that has just been reset; the flag may still be up. */
  ghost predicate Fresh(l: Link) {
    && l.queue == [] && l.place == Ready && l.declines == 0 && l.fates == [] && l.passed == []
    && l.counters.progress == 0 && l.counters.total == 0 && l.host == EMPTY
  }

  // ----- The writer itself

  class WriterThread {
    var queue: seq<Packet>
    var place: Place
    var outgoingCancel: bool
    var declines: nat
    const counters: ProgressCounters
    const host: IncomingClipboard
    ghost var fates: seq<Fate>
    ghost var passed: seq<Packet>

    ghost function View(): Link
      reads this, counters, host
    {
      Link(queue, place, outgoingCancel, declines, counters.View(), host.View(), fates, passed)
    }

    ghost predicate Valid()
      reads this, host
    {
      host.Valid() && Packed()
    }

    /** Every chunk in hand or queued is one that a packet can carry. */
    ghost predicate Packed()
      reads this
    {
      && (forall p | p in queue :: Encodable(p))
      && (place.Holding? || place.Passing? ==> Encodable(place.packet))
      && (place.Rearming? && place.next.Some? ==> Encodable(place.next.value))
    }

    constructor (counters: ProgressCounters, host: IncomingClipboard, outgoingCancel: bool)
      requires host.Valid()
      ensures Valid() && this.counters == counters && this.host == host
      ensures View() == Link([], Ready, outgoingCancel, 0, counters.View(), host.View(), [], [])
    {
      queue, place, declines, fates, passed := [], Ready, 0, [], [];
      this.outgoingCancel, this.counters, this.host := outgoingCancel, counters, host;
    }

    /** A packet, or nothing for the whole heartbeat interval. */
    method RecvTimeout()
      requires Valid() && place == Ready
      modifies this`queue, this`place
      ensures Valid() && View() == WaitedOut(Dequeued(old(View())))
    {
      if queue != [] {
        place, queue := Holding(queue[0]), queue[1..];
      } else {
        place := TimedOut;
      }
    }

    method LoadCancel()
      requires Valid()
      modifies this`place, this`fates
      ensures Valid() && View() == Looked(old(View()))
    {
      match place
      case Holding(p) =>
        var isClip := p.Carries? && !p.message.ClipDecline?;
        if isClip && outgoingCancel {
          fates := fates + [Dropped(p.message)];
          place := Ready;
        } else if outgoingCancel {
          place := Rearming(Some(p));
        } else {
          place := Passing(p);
        }
      case TimedOut =>
        place := if outgoingCancel then Rearming(None) else Ready;
      case _ =>
    }

    method StoreCancel()
      requires Valid()
      modifies this`place, this`outgoingCancel
      ensures Valid() && View() == Rearmed(old(View()))
    {
      if place.Rearming? {
        outgoingCancel := false;
        place := if place.next.Some? then Passing(place.next.value) else Ready;
      }
    }

    method TransportSend(t: Toggles)
      requires Valid()
      modifies this`place, this`declines, this`fates, this`passed, host
      ensures Valid() && View() == Written(old(View()), t)
    {
      if !place.Passing? {
        return;
      }
      var p := place.packet;
      if p.Other? {
        passed := passed + [p];
        place := Ready;
        return;
      }
      match p.message {
        case ClipOffer(format, len) =>
          var reply := host.OnOffer(t, format, len);
          if reply.Some? {
            declines := declines + 1;
          }
        case ClipChunk(index, data) => host.OnChunk(index, data);
        case ClipDecline(_) =>
      }
      if IsClip(p) {
        fates := fates + [Sent(p.message, t)];
      } else {
        passed := passed + [p];
      }
      place := Counting(p.message);
    }

    method ApplyOutgoingProgress()
      requires Valid()
      modifies this`place, counters
      ensures Valid() && View() == Counted(old(View()))
    {
      if place.Counting? {
        counters.Apply(place.message);
        place := Ready;
      }
    }

    /** The reader's answer to a decline, in the order of its two stores. */
    method ApplyClipDecline()
      requires Valid()
      modifies this`declines, this`outgoingCancel, counters
      ensures Valid() && View() == Heeded(old(View()))
    {
      if declines > 0 {
        declines := declines - 1;
        outgoingCancel := true;
        counters.currentOutgoingLabel := "";
      }
    }
  }

  // ----- Every offer and chunk has one fate, in order

  function MessagesOf(fates: seq<Fate>): seq<Message> {
    seq(|fates|, i requires 0 <= i < |fates| => fates[i].message)
  }

  function Clips(ps: seq<Packet>): seq<Message> {
    if ps == [] then []
    else Clips(ps[..|ps| - 1]) + Clip(ps[|ps| - 1])
  }

  function Clip(p: Packet): seq<Message> {
    if p.Carries? && (p.message.ClipOffer? || p.message.ClipChunk?) then [p.message] else []
  }

  /** What the run put on the queue. */
  function Puts(run: seq<Action>): seq<Packet> {
    if run == [] then []
    else Puts(run[..|run| - 1]) + (if run[|run| - 1].Put? then [run[|run| - 1].packet] else [])
  }

  function InHand(place: Place): seq<Message> {
    match place
    case Holding(p) => Clip(p)
    case Passing(p) => Clip(p)
    case Rearming(next) => if next.Some? then Clip(next.value) else []
    case _ => []
  }

  lemma ClipsSnoc(ps: seq<Packet>, p: Packet)
    ensures Clips(ps + [p]) == Clips(ps) + Clip(p)
  {
    assert (ps + [p])[..|ps|] == ps;
  }

  lemma {:induction false} ClipsCons(ps: seq<Packet>)
    requires ps != []
    ensures Clips(ps) == Clip(ps[0]) + Clips(ps[1..])
  {
    hide Clip;
    var n := |ps| - 1;
    if n == 0 {
      assert ps[..0] == [] && ps[1..] == [];
      assert Clips(ps) == [] + Clip(ps[0]) && Clip(ps[0]) + [] == Clip(ps[0]);
    } else {
      ClipsCons(ps[..n]);
      var rest := Clips(ps[..n][1..]);
      assert ps[..n][1..] == ps[1..][..n - 1] && ps[1..][n - 1] == ps[n];
      assert Clips(ps[1..]) == rest + Clip(ps[n]);
      assert (Clip(ps[0]) + rest) + Clip(ps[n]) == Clip(ps[0]) + (rest + Clip(ps[n]));
    }
  }

  lemma MessagesSnoc(fates: seq<Fate>, f: Fate)
    ensures MessagesOf(fates + [f]) == MessagesOf(fates) + [f.message]
  {
  }

  /** Everything put on the queue so far: decided on, in hand, or waiting. */
  function Flow(l: Link): seq<Message> {
    MessagesOf(l.fates) + InHand(l.place) + Clips(l.queue)
  }

  lemma LookFlows(l: Link)
    ensures Flow(Looked(l)) == Flow(l)
  {
    hide MessagesOf, Clips;
    if l.place.Holding? && IsClip(l.place.packet) && l.cancel {
      var m := l.place.packet.message;
      MessagesSnoc(l.fates, Dropped(m));
      assert InHand(l.place) == [m];
      assert Flow(Looked(l)) == MessagesOf(l.fates) + [m] + [] + Clips(l.queue);
    }
  }

  lemma WriteFlows(l: Link, t: Toggles)
    ensures Flow(Written(l, t)) == Flow(l)
  {
    hide MessagesOf, Clips;
    if l.place.Passing? && IsClip(l.place.packet) {
      var m := l.place.packet.message;
      MessagesSnoc(l.fates, Sent(m, t));
      assert InHand(l.place) == [m];
      assert Flow(Written(l, t)) == MessagesOf(l.fates) + [m] + [] + Clips(l.queue);
    } else if l.place.Passing? && l.place.packet.Carries? {
      assert l.fates + [] == l.fates;
    }
  }

  lemma StepFlows(l: Link, a: Action)
    ensures Flow(Do(l, a)) == Flow(l) + (if a.Put? then Clip(a.packet) else [])
  {
    hide MessagesOf, Clips, Looked, Written;
    match a
    case Put(p) => ClipsSnoc(l.queue, p);
    case Dequeue => if l.place == Ready && l.queue != [] { ClipsCons(l.queue); }
    case Look => LookFlows(l);
    case Write(t) => WriteFlows(l, t);
    case _ =>
  }

  /** No offer or chunk is lost track of, doubled or overtaken on its way to its fate. */
  lemma {:induction false} PacketsInOrder(l: Link, run: seq<Action>)
    requires Fresh(l)
    ensures Flow(Run(l, run)) == Clips(Puts(run))
  {
    if run == [] {
      assert Flow(l) == [];
    } else {
      hide Flow, Do, Clips;
      var front, a := run[..|run| - 1], run[|run| - 1];
      PacketsInOrder(l, front);
      StepFlows(Run(l, front), a);
      if a.Put? { ClipsSnoc(Puts(front), a.packet); } else { assert Puts(run) == Puts(front) + [] == Puts(front); }
    }
  }

  // ----- Packets of other kinds

  function Others(ps: seq<Packet>): seq<Packet> {
    if ps == [] then []
    else Others(ps[..|ps| - 1]) + NotClip(ps[|ps| - 1])
  }

  function NotClip(p: Packet): seq<Packet> {
    if Clip(p) != [] then [] else [p]
  }

  function OtherInHand(place: Place): seq<Packet> {
    match place
    case Holding(p) => NotClip(p)
    case Passing(p) => NotClip(p)
    case Rearming(next) => if next.Some? then NotClip(next.value) else []
    case _ => []
  }

  lemma OthersSnoc(ps: seq<Packet>, p: Packet)
    ensures Others(ps + [p]) == Others(ps) + NotClip(p)
  {
    assert (ps + [p])[..|ps|] == ps;
  }

  lemma {:induction false} OthersCons(ps: seq<Packet>)
    requires ps != []
    ensures Others(ps) == NotClip(ps[0]) + Others(ps[1..])
  {
    hide NotClip;
    var n := |ps| - 1;
    if n == 0 {
      assert ps[..0] == [] && ps[1..] == [];
      assert Others(ps) == [] + NotClip(ps[0]) && NotClip(ps[0]) + [] == NotClip(ps[0]);
    } else {
      OthersCons(ps[..n]);
      var rest := Others(ps[..n][1..]);
      assert ps[..n][1..] == ps[1..][..n - 1] && ps[1..][n - 1] == ps[n];
      assert Others(ps[1..]) == rest + NotClip(ps[n]);
      assert (NotClip(ps[0]) + rest) + NotClip(ps[n]) == NotClip(ps[0]) + (rest + NotClip(ps[n]));
    }
  }

  function OtherFlow(l: Link): seq<Packet> {
    l.passed + OtherInHand(l.place) + Others(l.queue)
  }

  lemma StepPasses(l: Link, a: Action)
    ensures OtherFlow(Do(l, a)) == OtherFlow(l) + (if a.Put? then NotClip(a.packet) else [])
  {
    hide Others, Receive, Reply, Account;
    if a.Put? { OthersSnoc(l.queue, a.packet); }
    if a.Dequeue? && l.place == Ready && l.queue != [] { OthersCons(l.queue); }
  }

  /**
   * Whatever raises and lowers the flag, every packet of another kind is sent, once and in
   * order: it has been, is in hand, or waits.
   */
  lemma {:induction false} OthersAllPass(l: Link, run: seq<Action>)
    requires Fresh(l)
    ensures OtherFlow(Run(l, run)) == Others(Puts(run))
  {
    if run == [] {
      assert OtherFlow(l) == [];
    } else {
      hide OtherFlow, Do, Others;
      var front, a := run[..|run| - 1], run[|run| - 1];
      OthersAllPass(l, front);
      StepPasses(Run(l, front), a);
      if a.Put? { OthersSnoc(Puts(front), a.packet); } else { assert Puts(run) == Puts(front) + [] == Puts(front); }
    }
  }

  /** What the host makes of the fates. */
  function HostAfter(rx: Rx, fates: seq<Fate>): Rx {
    if fates == [] then rx
    else
      var before, f := HostAfter(rx, fates[..|fates| - 1]), fates[|fates| - 1];
      if f.Sent? then Receive(before, f.toggles, f.message) else before
  }

  function SentMessages(fates: seq<Fate>): seq<Message> {
    if fates == [] then []
    else SentMessages(fates[..|fates| - 1]) + (if fates[|fates| - 1].Sent? then [fates[|fates| - 1].message] else [])
  }

  ghost predicate SameNumbers(a: Counters, b: Counters) {
    a.progress == b.progress && a.total == b.total
  }

  lemma HostSnoc(rx: Rx, fates: seq<Fate>, f: Fate)
    ensures HostAfter(rx, fates + [f])
            == if f.Sent? then Receive(HostAfter(rx, fates), f.toggles, f.message) else HostAfter(rx, fates)
    ensures SentMessages(fates + [f]) == SentMessages(fates) + if f.Sent? then [f.message] else []
  {
    assert (fates + [f])[..|fates|] == fates;
  }

  lemma StepReaches(l: Link, a: Action)
    requires l.host == HostAfter(EMPTY, l.fates)
    ensures Do(l, a).host == HostAfter(EMPTY, Do(l, a).fates)
  {
    hide HostAfter, Chunk, Offer;
    if (a.Look? && l.place.Holding?) || (a.Write? && l.place.Passing?) {
      var p := l.place.packet;
      if IsClip(p) {
        HostSnoc(EMPTY, l.fates, if a.Look? then Dropped(p.message) else Sent(p.message, a.toggles));
      } else {
        assert l.fates + [] == l.fates;
      }
    }
  }

  lemma {:induction false} HostFollowsFates(l: Link, run: seq<Action>)
    requires Fresh(l)
    ensures Run(l, run).host == HostAfter(EMPTY, Run(l, run).fates)
  {
    if run != [] {
      hide Do;
      HostFollowsFates(l, run[..|run| - 1]);
      StepReaches(Run(l, run[..|run| - 1]), run[|run| - 1]);
    }
  }

  // ----- The counters

  const ZERO := Counters(0, 0, "")

  /** Nobody has pressed Cancel. */
  ghost predicate NoZeroing(run: seq<Action>) {
    ZeroProgress !in run && ZeroTotal !in run
  }

  lemma AccountSnoc(c: Counters, ms: seq<Message>, m: Message)
    ensures AccountAll(c, ms + [m]) == Account(AccountAll(c, ms), m)
  {
    assert (ms + [m])[..|ms|] == ms;
  }

  /** Once the packet just sent is counted, the counters are those of everything sent. */
  ghost predicate CountsSent(l: Link) {
    SameNumbers(Counted(l).counters, AccountAll(ZERO, SentMessages(l.fates)))
  }

  lemma StepCounts(l: Link, a: Action)
    requires CountsSent(l) && a != ZeroProgress && a != ZeroTotal
    ensures CountsSent(Do(l, a))
  {
    hide SentMessages, AccountAll, HostAfter, Chunk, Offer;
    if (a.Look? && l.place.Holding?) || (a.Write? && l.place.Passing?) {
      var p := l.place.packet;
      if IsClip(p) {
        HostSnoc(EMPTY, l.fates, if a.Look? then Dropped(p.message) else Sent(p.message, a.toggles));
        AccountSnoc(ZERO, SentMessages(l.fates), p.message);
        assert SentMessages(l.fates) + [] == SentMessages(l.fates);
      } else {
        assert l.fates + [] == l.fates;
      }
    }
  }

  lemma {:induction false} CountersFollowFates(l: Link, run: seq<Action>)
    requires Fresh(l) && NoZeroing(run)
    ensures CountsSent(Run(l, run))
  {
    if run != [] {
      hide Do, CountsSent;
      assert NoZeroing(run[..|run| - 1]) && run[|run| - 1] in run;
      CountersFollowFates(l, run[..|run| - 1]);
      StepCounts(Run(l, run[..|run| - 1]), run[|run| - 1]);
    }
  }

  // ----- The flag

  /**
   * With the flag up and until the writer lowers it, no offer or chunk is sent except one
   * that the writer has already let past.
   */
  lemma {:induction false} DroppedWhileFlagged(l: Link, run: seq<Action>)
    requires l.cancel && Rearm !in run
    ensures Run(l, run).cancel && |l.fates| <= |Run(l, run).fates|
    ensures Run(l, run).place.Passing? && IsClip(Run(l, run).place.packet) ==>
              Run(l, run).place == l.place && Run(l, run).fates == l.fates
    ensures forall k | |l.fates| <= k < |Run(l, run).fates| ::
              || Run(l, run).fates[k].Dropped?
              || (k == |l.fates| && l.place == Passing(Carries(Run(l, run).fates[k].message)))
  {
    if run != [] {
      hide Receive, Reply, Account;
      var n := |run| - 1;
      assert run[n] in run;
      DroppedWhileFlagged(l, run[..n]);
    }
  }

  /** With the flag down and until someone raises it, none is dropped. */
  lemma {:induction false} SentWhileClear(l: Link, run: seq<Action>)
    requires !l.cancel && Cancel !in run && Decline !in run
    ensures !Run(l, run).cancel && |l.fates| <= |Run(l, run).fates|
    ensures forall k | |l.fates| <= k < |Run(l, run).fates| :: Run(l, run).fates[k].Sent?
  {
    if run != [] {
      hide Receive, Reply, Account;
      var n := |run| - 1;
      assert run[n] in run;
      SentWhileClear(l, run[..n]);
    }
  }

  /** It takes a packet exactly if one is queued, and times out exactly if none is. */
  lemma TakesOrTimesOut(l: Link)
    ensures Do(l, Dequeue) != l <==> l.place == Ready && l.queue != []
    ensures Do(l, TimeOut) != l <==> l.place == Ready && l.queue == []
  {
    if l.queue != [] { assert |l.queue[1..]| < |l.queue|; }
  }

  /**
   * The writer lowers the flag only after it found it up, and nothing queued or a packet of
   * another kind; so it lowers none that was raised after it looked and found it down.
   */
  lemma {:induction false} LoweredBehindOthersOnly(l: Link, run: seq<Action>)
    requires Fresh(l)
    ensures var at := Run(l, run).place;
            at.Rearming? ==> Run(l, run).cancel && (at.next.Some? ==> Clip(at.next.value) == [])
  {
    if run != [] {
      LoweredBehindOthersOnly(l, run[..|run| - 1]);
    }
  }

  // ----- The flag and the declines over a run

  /** How many offers were sent of a format that the host had switched off when they arrived. */
  function Refusals(fates: seq<Fate>): nat {
    if fates == [] then 0
    else
      var f := fates[|fates| - 1];
      Refusals(fates[..|fates| - 1])
      + (if f.Sent? && f.message.ClipOffer?
            && (|| (f.message.format == FORMAT_TEXT && !f.toggles.text)
                || (f.message.format == FORMAT_IMAGE && !f.toggles.images)
                || (f.message.format == FORMAT_FILE && !f.toggles.files))
         then 1 else 0)
  }

  /** How many declines the reader has taken off the wire. */
  function HeededIn(l: Link, run: seq<Action>): nat {
    if run == [] then 0
    else
      var front := run[..|run| - 1];
      HeededIn(l, front) + (if run[|run| - 1] == Decline && Run(l, front).declines > 0 then 1 else 0)
  }

  /** The flag, told from who raised it and where the writer lowered it. */
  function FlagUp(l: Link, run: seq<Action>): bool {
    if run == [] then l.cancel
    else
      var front, a := run[..|run| - 1], run[|run| - 1];
      if a == Cancel || (a == Decline && Run(l, front).declines > 0) then true
      else if a == Rearm && Run(l, front).place.Rearming? then false
      else FlagUp(l, front)
  }

  lemma RefusalsSnoc(fates: seq<Fate>, f: Fate)
    ensures Refusals(fates + [f]) == Refusals(fates) + Refusals([f])
    ensures f.Sent? && f.message.ClipOffer? ==>
              Refusals([f]) == if Reply(f.toggles, f.message.format).Some? then 1 else 0
    ensures !f.Sent? || !f.message.ClipOffer? ==> Refusals([f]) == 0
  {
    assert (fates + [f])[..|fates|] == fates && [f][..0] == [];
  }

  lemma StepRefuses(l: Link, a: Action)
    ensures Refusals(Do(l, a).fates) + l.declines
            == Refusals(l.fates) + Do(l, a).declines + (if a == Decline && l.declines > 0 then 1 else 0)
    ensures Do(l, a).cancel
            == (a == Cancel || (a == Decline && l.declines > 0) || (l.cancel && !(a == Rearm && l.place.Rearming?)))
    ensures a == Decline && l.declines > 0 ==> Do(l, a).counters == l.counters.(fileLabel := "")
  {
    hide Refusals, Receive, Account, Reply;
    if (a.Look? && l.place.Holding?) || (a.Write? && l.place.Passing?) {
      var p := l.place.packet;
      if IsClip(p) {
        RefusalsSnoc(l.fates, if a.Look? then Dropped(p.message) else Sent(p.message, a.toggles));
      } else {
        assert l.fates + [] == l.fates;
      }
    }
  }

  /**
   * In every interleaving, each offer sent of a format that the host has switched off makes
   * one decline, which is either still on its way or has been heeded; and the flag is up
   * exactly if a heeded decline or the user raised it after the writer last lowered it.
   */
  lemma {:induction false} EveryRefusalComesBack(l: Link, run: seq<Action>)
    requires Fresh(l)
    ensures Run(l, run).declines + HeededIn(l, run) == Refusals(Run(l, run).fates)
    ensures Run(l, run).cancel == FlagUp(l, run)
  {
    if run != [] {
      hide Do, Refusals;
      EveryRefusalComesBack(l, run[..|run| - 1]);
      StepRefuses(Run(l, run[..|run| - 1]), run[|run| - 1]);
    }
  }

  // ----- One turn of the writer

  /** The writer's loop body with nobody in between; a step that does not apply changes nothing. */
  function Turn(l: Link, t: Toggles): Link {
    Counted(Written(Rearmed(Looked(WaitedOut(Dequeued(l)))), t))
  }

  /**
   * One turn decides on the first packet: an offer or chunk is dropped under the flag and
   * else sent, with the host's answer on its way and the counters moved; any other is sent
   * and lowers the flag, as does an empty queue.
   */
  lemma TurnDecides(l: Link, t: Toggles)
    requires l.place == Ready
    ensures l.queue == [] ==> Turn(l, t) == l.(cancel := false)
    ensures l.queue != [] && Clip(l.queue[0]) != [] && l.cancel ==>
              Turn(l, t) == l.(queue := l.queue[1..], fates := l.fates + [Dropped(l.queue[0].message)])
    ensures l.queue != [] && Clip(l.queue[0]) != [] && !l.cancel ==>
              var m := l.queue[0].message;
              Turn(l, t)
              == l.(queue := l.queue[1..], fates := l.fates + [Sent(m, t)], host := Receive(l.host, t, m),
                    counters := Account(l.counters, m),
                    declines := l.declines + (if m.ClipOffer? && Reply(t, m.format).Some? then 1 else 0))
    ensures l.queue != [] && Clip(l.queue[0]) == [] ==>
              Turn(l, t) == l.(queue := l.queue[1..], cancel := false, passed := l.passed + [l.queue[0]])
  {
    hide Reply;
    if l.queue != [] {
      assert l.fates + [] == l.fates;
      var p := l.queue[0];
      assert IsClip(p) <==> Clip(p) != [];
      if p.Carries? && p.message.ClipDecline? { DeclinesAreIgnored(l, t, p.message); }
      hide Receive, Account;
    }
  }

  lemma DeclinesAreIgnored(l: Link, t: Toggles, m: Message)
    requires m.ClipDecline?
    ensures Receive(l.host, t, m) == l.host && Account(l.counters, m) == l.counters
  {
  }

  /** From wherever it stands, the writer gets back to the top without waiting for anybody. */
  lemma TurnEnds(l: Link, t: Toggles)
    ensures Turn(l, t).place == Ready
  {
    hide Receive, Account, Reply;
  }

  function Turns(l: Link, ts: seq<Toggles>): Link
    decreases |ts|
  {
    if ts == [] then l else Turns(Turn(l, ts[0]), ts[1..])
  }

  /** As many turns as packets wait leave nothing waiting: each has been decided on. */
  lemma {:induction false} TurnsDrain(l: Link, ts: seq<Toggles>)
    requires l.place == Ready && |ts| >= |l.queue|
    ensures Turns(l, ts).queue == [] && Turns(l, ts).place == Ready
    ensures Flow(Turns(l, ts)) == Flow(l) && OtherFlow(Turns(l, ts)) == OtherFlow(l)
    decreases |ts|
  {
    if ts != [] {
      TurnEnds(l, ts[0]);
      TurnDecides(l, ts[0]);
      TurnFlows(l, ts[0]);
      hide Turn, Flow, OtherFlow, Receive, Account, Reply, Clip;
      TurnsDrain(Turn(l, ts[0]), ts[1..]);
    }
  }

  lemma TurnFlows(l: Link, t: Toggles)
    ensures Flow(Turn(l, t)) == Flow(l) && OtherFlow(Turn(l, t)) == OtherFlow(l)
  {
    hide Flow, OtherFlow, Dequeued, WaitedOut, Looked, Rearmed, Written, Counted;
    var a := Dequeued(l);
    var b := WaitedOut(a);
    var c := Looked(b);
    var d := Rearmed(c);
    var e := Written(d, t);
    StepFlows(l, Dequeue);
    StepPasses(l, Dequeue);
    StepFlows(a, TimeOut);
    StepPasses(a, TimeOut);
    StepFlows(b, Look);
    StepPasses(b, Look);
    StepFlows(c, Rearm);
    StepPasses(c, Rearm);
    StepFlows(d, Write(t));
    StepPasses(d, Write(t));
    StepFlows(e, Count);
    StepPasses(e, Count);
  }
}
