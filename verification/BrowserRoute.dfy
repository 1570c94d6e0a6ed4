/**
 * The browser companion route: handlers, their input pumps, the link reader and the link
 * supervisor, interleaved at every lock section and send. Locks are only ever held within
 * one step.
 */
module BrowserRoute {
  import opened Wire

  type Id = nat

  /** Where one `handle_browser_connection` stands. */
  datatype Phase =
    | Waiting    // has its id, has not yet taken the slot lock
    | Greeting   // owns the slot, no input pump yet
    | Pumping    // input pump running
    | Joined     // input pump finished and joined
    | Leaving    // past the reset section, or gave up early; the guard is still to drop
    | Gone

  datatype Event =
    | Installed(id: Id)
    | Sent(id: Id, packet: nat)
    | HandlerReset(id: Id)  // stream-0 reset queued by the handler's own teardown
    | ReaderReset(id: Id)   // stream-0 reset queued by the reader when the relay is full
    | Quiet(id: Id)         // teardown that queued no reset
    | Forgot                // `forget_host_generation`
    | LinkSet

  /** An event, and the value of `link_up` when it happened. */
  datatype Entry = Entry(event: Event, link: bool)

  datatype State = State(phases: seq<Phase>, slot: Option<Id>, link: bool, log: seq<Entry>)

  const START: State := State([], None, false, [])

  datatype Action =
    | Connect
    | Install(id: Id)
    | GiveUp(id: Id)     // write, clone or timeout failure before the pump starts
    | StartPump(id: Id)
    | Forward(id: Id, packet: nat)
    | StopPump(id: Id)
    | Teardown(id: Id)
    | DropGuard(id: Id)
    | RelayFull
    | Forget
    | SetLink(up: bool)

  predicate In(s: State, id: Id, phase: Phase) {
    id < |s.phases| && s.phases[id] == phase
  }

  function Move(s: State, id: Id, phase: Phase): State
    requires id < |s.phases|
  {
    s.(phases := s.phases[id := phase])
  }

  function Log(s: State, e: Event): State {
    s.(log := s.log + [Entry(e, s.link)])
  }

  /** One step. An action whose thread is not at that point changes nothing. */
  function Do(s: State, a: Action): State {
    match a
    case Connect => s.(phases := s.phases + [Waiting])
    case Install(id) =>
      if !In(s, id, Waiting) then s
      else if s.slot.Some? then Move(s, id, Gone)
      else Log(Move(s, id, Greeting).(slot := Some(id)), Installed(id))
    case GiveUp(id) => if In(s, id, Greeting) then Move(s, id, Leaving) else s
    case StartPump(id) => if In(s, id, Greeting) then Move(s, id, Pumping) else s
    case Forward(id, packet) =>
      if In(s, id, Pumping) && s.slot == Some(id) then Log(s, Sent(id, packet)) else s
    case StopPump(id) => if In(s, id, Pumping) then Move(s, id, Joined) else s
    case Teardown(id) =>
      if !In(s, id, Joined) then s
      else Log(Move(s, id, Leaving), if s.slot == Some(id) && s.link then HandlerReset(id) else Quiet(id))
    case DropGuard(id) =>
      if !In(s, id, Leaving) then s
      else Move(s, id, Gone).(slot := if s.slot == Some(id) then None else s.slot)
    case RelayFull =>
      if s.slot.Some? then Log(s, ReaderReset(s.slot.value)).(slot := None) else s
    case Forget => Log(s, Forgot).(slot := None)
    case SetLink(up) => Log(s.(link := up), LinkSet)
  }

  function Run(actions: seq<Action>): State {
    if actions == [] then START else Do(Run(actions[..|actions| - 1]), actions[|actions| - 1])
  }

  /** The slot behind its lock, the queue and the gate; each method is one lock section. */
  class SharedRoute {
    var phases: seq<Phase>
    var slot: Option<Id>
    var linkUp: bool
    var log: seq<Entry>

    ghost function View(): State
      reads this
    {
      State(phases, slot, linkUp, log)
    }

    constructor ()
      ensures View() == START
    {
      phases, slot, linkUp, log := [], None, false, [];
    }

    method Record(e: Event)
      modifies this`log
      ensures log == old(log) + [Entry(e, linkUp)]
    {
      log := log + [Entry(e, linkUp)];
    }

    /** A second companion is turned away while the slot is taken. */
    method TryInstall(id: Id) returns (installed: bool)
      requires In(View(), id, Waiting)
      modifies this
      ensures View() == Do(old(View()), Install(id)) && installed == old(slot).None?
    {
      if slot.Some? {
        phases := phases[id := Gone];
        return false;
      }
      slot := Some(id);
      phases := phases[id := Greeting];
      Record(Installed(id));
      installed := true;
    }

    /** Ownership check and enqueue under one lock. */
    method ForwardInput(id: Id, packet: nat) returns (forwarded: bool)
      requires In(View(), id, Pumping)
      modifies this`log
      ensures View() == Do(old(View()), Forward(id, packet)) && forwarded == (slot == Some(id))
    {
      forwarded := slot.Some? && slot.value == id;
      if forwarded { Record(Sent(id, packet)); }
    }

    method ResetStreams(id: Id)
      requires In(View(), id, Joined)
      modifies this
      ensures View() == Do(old(View()), Teardown(id))
    {
      phases := phases[id := Leaving];
      if slot.Some? && slot.value == id && linkUp { Record(HandlerReset(id)); } else { Record(Quiet(id)); }
    }

    /** Only the guard's own registration is cleared. */
    method ReleaseSlot(id: Id)
      requires In(View(), id, Leaving)
      modifies this
      ensures View() == Do(old(View()), DropGuard(id))
    {
      phases := phases[id := Gone];
      if slot.Some? && slot.value == id { slot := None; }
    }

    /** The reader could not hand a packet on: it resets the companion and takes its slot. */
    method CloseFullRelay()
      modifies this
      ensures View() == Do(old(View()), RelayFull)
    {
      if slot.Some? {
        Record(ReaderReset(slot.value));
        slot := None;
      }
    }

    method ForgetHostGeneration()
      modifies this
      ensures View() == Do(old(View()), Forget)
    {
      Record(Forgot);
      slot := None;
    }
  }

  // ----- Reading a log

  predicate OnWire(e: Event, id: Id) {
    (e.Sent? || e.HandlerReset? || e.ReaderReset?) && e.id == id
  }

  function LatestInstall(log: seq<Entry>): Option<Id> {
    if log == [] then None
    else if log[|log| - 1].event.Installed? then Some(log[|log| - 1].event.id)
    else LatestInstall(log[..|log| - 1])
  }

  function Subject(e: Event): set<Id> {
    if e.Forgot? || e.LinkSet? then {} else {e.id}
  }

  /** Every companion the log is about. */
  function Mentioned(log: seq<Entry>): set<Id> {
    if log == [] then {} else Mentioned(log[..|log| - 1]) + Subject(log[|log| - 1].event)
  }

  function HandlerResets(log: seq<Entry>): set<Id> {
    if log == [] then {}
    else
      HandlerResets(log[..|log| - 1])
      + (if log[|log| - 1].event.HandlerReset? then {log[|log| - 1].event.id} else {})
  }

  function ReaderResets(log: seq<Entry>): set<Id> {
    if log == [] then {}
    else
      ReaderResets(log[..|log| - 1])
      + (if log[|log| - 1].event.ReaderReset? then {log[|log| - 1].event.id} else {})
  }

  /** A reset of `id`, a forgotten host, or a moment with the link down. */
  predicate Seals(e: Entry, id: Id) {
    e.event == HandlerReset(id) || e.event == ReaderReset(id) || e.event == Forgot || !e.link
  }

  /** The companions whose latest packet has not been sealed off since. */
  function Unsealed(log: seq<Entry>): set<Id> {
    if log == [] then {}
    else
      var last := log[|log| - 1];
      (set id | id in Unsealed(log[..|log| - 1]) && !Seals(last, id))
      + (if last.event.Sent? then {last.event.id} else {})
  }

  /** What every event must find when it happens. */
  ghost predicate Legal(log: seq<Entry>, e: Event) {
    match e
    case Installed(id) => id !in Mentioned(log)
    case Sent(id, _) =>
      && LatestInstall(log) == Some(id)
      && id !in HandlerResets(log) && id !in ReaderResets(log)
      && Unsealed(log) <= {id}
    case HandlerReset(id) =>
      && LatestInstall(log) == Some(id)
      && id !in HandlerResets(log) && id !in ReaderResets(log)
    case ReaderReset(id) =>
      && LatestInstall(log) == Some(id)
      && id !in ReaderResets(log)
    case _ => true
  }

  ghost predicate AllLegal(log: seq<Entry>) {
    forall k | 0 <= k < |log| :: Legal(log[..k], log[k].event)
  }

  // ----- The invariant

  predicate PumpOver(s: State, id: Id) {
    In(s, id, Leaving) || In(s, id, Gone)
  }

  predicate PastWaiting(s: State, id: Id) {
    id < |s.phases| && s.phases[id] != Waiting
  }

  /** A companion with unsealed packets still owns the slot and has not been torn down. */
  predicate Talking(s: State, id: Id) {
    s.slot == Some(id) && (In(s, id, Pumping) || In(s, id, Joined))
  }

  ghost predicate Inv(s: State) {
    && AllLegal(s.log)
    && (s.slot.Some? ==>
          && PastWaiting(s, s.slot.value) && !In(s, s.slot.value, Gone)
          && LatestInstall(s.log) == s.slot && s.slot.value !in ReaderResets(s.log))
    && (forall id | id in Mentioned(s.log) :: PastWaiting(s, id))
    && (forall id | id in HandlerResets(s.log) :: PumpOver(s, id))
    && (forall id | id in Unsealed(s.log) :: Talking(s, id))
  }

  lemma LegalAppend(log: seq<Entry>, e: Entry)
    requires AllLegal(log) && Legal(log, e.event)
    ensures AllLegal(log + [e])
    ensures LatestInstall(log + [e]) == if e.event.Installed? then Some(e.event.id) else LatestInstall(log)
    ensures Mentioned(log + [e]) == Mentioned(log) + Subject(e.event)
    ensures HandlerResets(log + [e]) == HandlerResets(log) + (if e.event.HandlerReset? then {e.event.id} else {})
    ensures ReaderResets(log + [e]) == ReaderResets(log) + (if e.event.ReaderReset? then {e.event.id} else {})
    ensures Unsealed(log + [e])
            == (set id | id in Unsealed(log) && !Seals(e, id)) + (if e.event.Sent? then {e.event.id} else {})
  {
    assert (log + [e])[..|log|] == log;
    forall k | 0 <= k < |log + [e]| ensures Legal((log + [e])[..k], (log + [e])[k].event) {
      if k < |log| { assert (log + [e])[..k] == log[..k]; }
    }
  }

  lemma {:induction false} ResetsAreMentioned(log: seq<Entry>)
    ensures ReaderResets(log) <= Mentioned(log)
  {
    if log != [] { ResetsAreMentioned(log[..|log| - 1]); }
  }

  /** Whatever a step logs is legal where it is logged. */
  lemma StepIsLegal(s: State, a: Action)
    requires Inv(s)
    ensures var t := Do(s, a);
            t.log == s.log
            || (|t.log| == |s.log| + 1 && t.log == s.log + [t.log[|s.log|]] && Legal(s.log, t.log[|s.log|].event))
  {
  }

  /** Steps that log nothing only move one handler along and at most free its slot. */
  lemma SilentStepKeeps(s: State, a: Action)
    requires Inv(s) && Do(s, a).log == s.log
    ensures Inv(Do(s, a))
  {
  }

  lemma DoKeeps(s: State, a: Action)
    requires Inv(s)
    ensures Inv(Do(s, a))
  {
    hide AllLegal, LatestInstall, Mentioned, HandlerResets, ReaderResets, Unsealed;
    var t := Do(s, a);
    StepIsLegal(s, a);
    if t.log == s.log {
      SilentStepKeeps(s, a);
    } else {
      LegalAppend(s.log, t.log[|s.log|]);
      ResetsAreMentioned(s.log);
    }
  }

  lemma {:induction false} InvAlways(actions: seq<Action>)
    ensures Inv(Run(actions))
  {
    if actions != [] {
      InvAlways(actions[..|actions| - 1]);
      DoKeeps(Run(actions[..|actions| - 1]), actions[|actions| - 1]);
    }
  }

  // ----- From sets back to positions

  lemma {:induction false} ResetIsRecorded(log: seq<Entry>, i: nat)
    requires i < |log|
    ensures log[i].event.HandlerReset? ==> log[i].event.id in HandlerResets(log)
    ensures log[i].event.ReaderReset? ==> log[i].event.id in ReaderResets(log)
    ensures Subject(log[i].event) <= Mentioned(log)
  {
    if i < |log| - 1 { ResetIsRecorded(log[..|log| - 1], i); }
  }

  lemma {:induction false} SealIsThere(log: seq<Entry>, i: nat, id: Id) returns (k: nat)
    requires i < |log| && log[i].event.Sent? && log[i].event.id == id && id !in Unsealed(log)
    ensures i < k < |log| && Seals(log[k], id)
  {
    var n := |log| - 1;
    if i < n && id !in Unsealed(log[..n]) {
      k := SealIsThere(log[..n], i, id);
    } else {
      k := n;
    }
  }

  lemma {:induction false} LatestIsThere(log: seq<Entry>, id: Id) returns (p: nat)
    requires LatestInstall(log) == Some(id)
    ensures p < |log| && log[p].event == Installed(id)
    ensures forall q | p < q < |log| :: !log[q].event.Installed?
  {
    var n := |log| - 1;
    if log[n].event.Installed? {
      p := n;
    } else {
      p := LatestIsThere(log[..n], id);
      forall q | p < q < |log| ensures !log[q].event.Installed? {
        assert q < n ==> log[q] == log[..n][q];
      }
    }
  }

  // ----- The theorems

  /** Every companion is installed at most once. */
  lemma InstalledOnce(actions: seq<Action>, i: nat, j: nat)
    requires i < j < |Run(actions).log| && Run(actions).log[i].event.Installed?
    ensures Run(actions).log[j].event != Run(actions).log[i].event
  {
    var log := Run(actions).log;
    InvAlways(actions);
    ResetIsRecorded(log[..j], i);
    assert Legal(log[..j], log[j].event);
  }

  /**
   * No packet follows a reset of the same companion. The handler's reset can be followed
   * by the reader's, and nothing follows the reader's.
   */
  lemma SilentAfterReset(actions: seq<Action>, i: nat, j: nat, id: Id)
    requires i < j < |Run(actions).log|
    requires OnWire(Run(actions).log[i].event, id) && OnWire(Run(actions).log[j].event, id)
    ensures !Run(actions).log[i].event.ReaderReset?
    ensures Run(actions).log[i].event.HandlerReset? ==> Run(actions).log[j].event.ReaderReset?
  {
    var log := Run(actions).log;
    InvAlways(actions);
    ResetIsRecorded(log[..j], i);
    assert Legal(log[..j], log[j].event);
  }

  /**
   * A companion that has queued its own reset is reset once more exactly when the relay
   * fills up between its reset and the drop of its guard, while the slot is still its own.
   */
  lemma SecondResetIff(actions: seq<Action>, a: Action, id: Id)
    requires id in HandlerResets(Run(actions).log)
    ensures Do(Run(actions), a).log == Run(actions).log + [Entry(ReaderReset(id), Run(actions).link)]
            <==> a == RelayFull && In(Run(actions), id, Leaving) && Run(actions).slot == Some(id)
  {
    var s := Run(actions);
    InvAlways(actions);
    hide AllLegal, LatestInstall, Mentioned, HandlerResets, ReaderResets, Unsealed;
    LogGrowsBy(s, a);
    assert s.slot == Some(id) ==> !In(s, id, Gone) && PumpOver(s, id);
  }

  /** Only a full relay makes the reader reset somebody, and then it is the owner. */
  lemma LogGrowsBy(s: State, a: Action)
    ensures var t := Do(s, a);
            && (a == RelayFull && s.slot.Some? ==> t.log == s.log + [Entry(ReaderReset(s.slot.value), s.link)])
            && (forall id: Id ::
                  t.log == s.log + [Entry(ReaderReset(id), s.link)] ==> a == RelayFull && s.slot == Some(id))
  {
    var t := Do(s, a);
    forall id: Id | t.log == s.log + [Entry(ReaderReset(id), s.link)] ensures a == RelayFull && s.slot == Some(id) {
      assert t.log[|s.log|].event == ReaderReset(id);
    }
  }

  lemma RunSnoc(actions: seq<Action>, a: Action)
    ensures Run(actions + [a]) == Do(Run(actions), a)
  {
    assert (actions + [a])[..|actions|] == actions;
  }

  /** It can happen. */
  lemma CompanionIsResetTwice() returns (actions: seq<Action>)
    ensures Run(actions).log
            == [Entry(LinkSet, true), Entry(Installed(0), true), Entry(HandlerReset(0), true),
              Entry(ReaderReset(0), true)]
  {
    actions := [SetLink(true)];
    assert actions[..0] == [];
    assert Run(actions) == State([], None, true, [Entry(LinkSet, true)]);
    hide Run;
    RunSnoc(actions, Connect);
    RunSnoc(actions + [Connect], Install(0));
    actions := actions + [Connect] + [Install(0)];
    assert Run(actions) == State([Greeting], Some(0), true, [Entry(LinkSet, true), Entry(Installed(0), true)]);
    RunSnoc(actions, StartPump(0));
    RunSnoc(actions + [StartPump(0)], StopPump(0));
    actions := actions + [StartPump(0)] + [StopPump(0)];
    assert Run(actions) == State([Joined], Some(0), true, [Entry(LinkSet, true), Entry(Installed(0), true)]);
    RunSnoc(actions, Teardown(0));
    RunSnoc(actions + [Teardown(0)], RelayFull);
    actions := actions + [Teardown(0)] + [RelayFull];
  }

  /**
   * Between a packet of one companion and a later packet of another lies the first one's
   * reset, a forgotten host, or a moment with the link down.
   */
  lemma PacketsAreSeparated(actions: seq<Action>, i: nat, j: nat) returns (k: nat)
    requires i < j < |Run(actions).log|
    requires Run(actions).log[i].event.Sent? && Run(actions).log[j].event.Sent?
    requires Run(actions).log[i].event.id != Run(actions).log[j].event.id
    ensures i < k < j && Seals(Run(actions).log[k], Run(actions).log[i].event.id)
  {
    var log := Run(actions).log;
    InvAlways(actions);
    assert Legal(log[..j], log[j].event);
    k := SealIsThere(log[..j], i, log[i].event.id);
  }

  /** Each packet or reset belongs to the companion installed most recently before it. */
  lemma OwnerInstalledLatest(actions: seq<Action>, k: nat, id: Id) returns (p: nat)
    requires k < |Run(actions).log| && OnWire(Run(actions).log[k].event, id)
    ensures p < k && Run(actions).log[p].event == Installed(id)
    ensures forall q | p < q < k :: !Run(actions).log[q].event.Installed?
  {
    var log := Run(actions).log;
    InvAlways(actions);
    assert Legal(log[..k], log[k].event);
    p := LatestIsThere(log[..k], id);
    forall q | p < q < k ensures !log[q].event.Installed? {
      assert log[..k][q] == log[q];
    }
  }

  /** The queue is a sequence of contiguous blocks, one per companion, in order of installation. */
  lemma BlocksInInstallOrder(actions: seq<Action>, i: nat, j: nat, a: Id, b: Id) returns (p: nat, q: nat)
    requires i < j < |Run(actions).log| && a != b
    requires OnWire(Run(actions).log[i].event, a) && OnWire(Run(actions).log[j].event, b)
    ensures p < i < q < j
    ensures Run(actions).log[p].event == Installed(a) && Run(actions).log[q].event == Installed(b)
    ensures forall k | j < k < |Run(actions).log| :: !OnWire(Run(actions).log[k].event, a)
  {
    var log := Run(actions).log;
    p := OwnerInstalledLatest(actions, i, a);
    q := OwnerInstalledLatest(actions, j, b);
    forall k | j < k < |log| ensures !OnWire(log[k].event, a) {
      if OnWire(log[k].event, a) {
        var r := OwnerInstalledLatest(actions, k, a);
        assert q <= r;
        InstalledOnce(actions, p, r);
      }
    }
  }

  // ----- What each companion gets onto the queue

  /** The packets that the log has of a companion. */
  function SentBy(log: seq<Entry>, id: Id): seq<nat> {
    if log == [] then []
    else
      var e := log[|log| - 1].event;
      SentBy(log[..|log| - 1], id) + (if e.Sent? && e.id == id then [e.packet] else [])
  }

  datatype Stage = Before | Running | Over

  /** Of an installed companion, told from the actions since: is its window open? */
  function WindowStage(after: seq<Action>, id: Id): Stage {
    if after == [] then Before
    else
      var stage, a := WindowStage(after[..|after| - 1], id), after[|after| - 1];
      if Loses(a) || (a == GiveUp(id) && stage == Before) || (a == StopPump(id) && stage == Running)
      then Over
      else if a == StartPump(id) && stage == Before then Running
      else stage
  }

  /** What is forwarded from the start of the pump to its end, or to the loss of the slot. */
  function Window(after: seq<Action>, id: Id): seq<nat> {
    if after == [] then []
    else
      var front, a := after[..|after| - 1], after[|after| - 1];
      Window(front, id)
      + (if a.Forward? && a.id == id && WindowStage(front, id) == Running then [a.packet] else [])
  }

  /** The slot is taken from its owner. */
  predicate Loses(a: Action) { a == RelayFull || a == Forget }

  ghost predicate Undisturbed(after: seq<Action>) {
    forall a | a in after :: !Loses(a)
  }

  /** An installed companion's state, told from the actions since its installation. */
  ghost predicate Follows(s: State, after: seq<Action>, id: Id) {
    && id < |s.phases| && s.phases[id] != Waiting
    && (s.slot == Some(id) <==> Undisturbed(after) && s.phases[id] != Gone)
    && (WindowStage(after, id) == Before <==> s.slot == Some(id) && s.phases[id] == Greeting)
    && (WindowStage(after, id) == Running <==> s.slot == Some(id) && s.phases[id] == Pumping)
  }

  lemma StepFollows(s: State, after: seq<Action>, id: Id, a: Action)
    requires Follows(s, after, id)
    ensures Follows(Do(s, a), after + [a], id)
  {
    assert (after + [a])[..|after|] == after;
    assert Undisturbed(after + [a]) <==> Undisturbed(after) && !Loses(a) by {
      assert forall x :: x in after + [a] <==> x in after || x == a;
    }
    hide Undisturbed;
  }

  lemma SentBySnoc(log: seq<Entry>, e: Entry, id: Id)
    ensures SentBy(log + [e], id)
            == SentBy(log, id) + if e.event.Sent? && e.event.id == id then [e.event.packet] else []
  {
    assert (log + [e])[..|log|] == log;
  }

  lemma StepSends(s: State, a: Action, id: Id)
    ensures SentBy(Do(s, a).log, id)
            == SentBy(s.log, id)
               + if a.Forward? && a.id == id && In(s, id, Pumping) && s.slot == Some(id) then [a.packet] else []
  {
    hide SentBy;
    var t := Do(s, a);
    if t.log == s.log {
      assert SentBy(s.log, id) + [] == SentBy(s.log, id);
    } else {
      var e := t.log[|s.log|];
      assert t.log == s.log + [e];
      SentBySnoc(s.log, e, id);
    }
  }

  lemma {:induction false} UnmentionedSentNothing(log: seq<Entry>, id: Id)
    requires id !in Mentioned(log)
    ensures SentBy(log, id) == []
  {
    if log != [] { UnmentionedSentNothing(log[..|log| - 1], id); }
  }

  /** The companion takes the slot at this point. */
  predicate TakesSlot(s: State, id: Id) {
    In(s, id, Waiting) && s.slot == None
  }

  lemma {:induction false} WindowFollows(before: seq<Action>, id: Id, after: seq<Action>)
    requires TakesSlot(Run(before), id)
    ensures var s := Run(before + [Install(id)] + after);
            Follows(s, after, id) && SentBy(s.log, id) == Window(after, id)
  {
    var start := before + [Install(id)];
    if after == [] {
      assert start + after == start;
      RunSnoc(before, Install(id));
      InvAlways(before);
      UnmentionedSentNothing(Run(before).log, id);
      SentBySnoc(Run(before).log, Entry(Installed(id), Run(before).link), id);
    } else {
      var front, a := after[..|after| - 1], after[|after| - 1];
      WindowFollows(before, id, front);
      assert start + after == start + front + [a] && front + [a] == after;
      RunSnoc(start + front, a);
      StepFollows(Run(start + front), front, id, a);
      StepSends(Run(start + front), a, id);
      hide Do, Run, SentBy, WindowStage;
    }
  }

  /**
   * In every interleaving: the packets of a companion on the queue are exactly, once each
   * and in order, those it forwarded between the start and the end of its pump, up to the
   * moment a full relay or a forgotten host took its slot.
   */
  lemma QueueIsItsWindow(before: seq<Action>, id: Id, after: seq<Action>)
    requires TakesSlot(Run(before), id)
    ensures SentBy(Run(before + [Install(id)] + after).log, id) == Window(after, id)
  {
    WindowFollows(before, id, after);
  }

  /** The latest value of `link_up`. */
  function LinkNow(actions: seq<Action>): bool {
    if actions == [] then false
    else if actions[|actions| - 1].SetLink? then actions[|actions| - 1].up
    else LinkNow(actions[..|actions| - 1])
  }

  lemma {:induction false} LinkFollows(actions: seq<Action>)
    ensures Run(actions).link == LinkNow(actions)
  {
    if actions != [] { LinkFollows(actions[..|actions| - 1]); }
  }

  /**
   * A companion whose pump is over queues its reset exactly if nothing took its slot since
   * it was installed and the link is up; and then the slot is free for the next one.
   */
  lemma TeardownResetsIff(before: seq<Action>, id: Id, after: seq<Action>)
    requires TakesSlot(Run(before), id)
    requires var actions := before + [Install(id)] + after;
             In(Run(actions), id, Joined)
    ensures var actions := before + [Install(id)] + after;
            var s := Run(actions);
            var owner := Undisturbed(after);
            && Do(s, Teardown(id)).log
               == s.log + [Entry(if owner && LinkNow(actions) then HandlerReset(id) else Quiet(id), LinkNow(actions))]
            && Do(Do(s, Teardown(id)), DropGuard(id)).slot == if owner then None else s.slot
  {
    var actions := before + [Install(id)] + after;
    WindowFollows(before, id, after);
    LinkFollows(actions);
    hide Run;
  }
}
