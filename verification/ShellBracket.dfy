/**
 * Concurrent `wd --exec` and interactive handlers over the one outgoing queue, interleaved
 * at every lock, send and guard drop. Each handler reads the host's generation once, from a
 * cache that the link's reader fills on handshake and empties on loss of the link.
 */
module ShellBracket {
  import opened Wire
  import opened ShellChannel

  type Id = nat

  datatype Phase =
    | New
    | Ready     // past the link gate
    | Decided   // has read which generation the host is
    | Claimed   // holds its claim on the channel
    | Locked    // exec only: also holds `single_inflight`
    | Opened    // its open is on the queue
    | Closing   // done with the queue, guards still held
    | Unlocked  // exec only: `single_inflight` released, claim still held
    | Done

  /** `dual`: what the handler read, and the dialect it speaks from then on. */
  datatype Handler = Handler(kind: Kind, dual: bool, phase: Phase)

  datatype Packet =
    | ShellOpen | ShellOpenPty | ShellInput(data: nat) | ShellClose
    | PtyOpen | PtyInput(data: nat) | PtyResize(size: nat) | PtyClose
    | Abandoned  // not on the wire: the handler unwound after its open without a close

  /** `slot` is where the sender's session lives. */
  datatype Entry = Entry(id: Id, slot: Kind, packet: Packet)

  /** `info` is the host-info cache, reduced to whether the host has a slot per kind. */
  datatype State = State(handlers: seq<Handler>, channel: Channel, inflight: Option<Id>,
                         info: Option<bool>, linkUp: bool, log: seq<Entry>)

  const START: State := State([], Channel(0, false), None, None, false, [])

  datatype Action =
    | SetInfo(dual: bool)            // handshake
    | ClearInfo                      // reader or supervisor losing the link
    | SetLink(up: bool)
    | Connect(kind: Kind)
    | Gate(id: Id)                   // link up, and for a console a filled cache
    | Read(id: Id)                   // `host_supports_pty_slot`: an empty cache reads as false
    | Claim(id: Id)
    | Lock(id: Id)
    | GiveUp(id: Id)                 // any failure before the open
    | Open(id: Id)
    | Input(id: Id, packet: Packet)
    | Close(id: Id)
    | Abandon(id: Id)                // `try_clone` failed, or a panic, after the open
    | Unlock(id: Id)
    | Unclaim(id: Id)

  /** The handler an action is about. */
  function Actor(a: Action): Option<Id> {
    match a
    case SetInfo(_) => None
    case ClearInfo => None
    case SetLink(_) => None
    case Connect(_) => None
    case _ => Some(a.id)
  }

  predicate At(s: State, id: Id, kind: Kind, phase: Phase) {
    id < |s.handlers| && s.handlers[id].kind == kind && s.handlers[id].phase == phase
  }

  function Move(s: State, id: Id, phase: Phase): State
    requires id < |s.handlers|
  {
    s.(handlers := s.handlers[id := s.handlers[id].(phase := phase)])
  }

  /** Where a session lives on the host: a console has a slot of its own only in the dual dialect. */
  function SlotOf(h: Handler): Kind {
    if h.kind == Interactive && h.dual then Interactive else Exec
  }

  function Emit(s: State, id: Id, packet: Packet): State
    requires id < |s.handlers|
  {
    s.(log := s.log + [Entry(id, SlotOf(s.handlers[id]), packet)])
  }

  function OpenPacket(h: Handler): Packet {
    if h.kind == Exec then ShellOpen else if h.dual then PtyOpen else ShellOpenPty
  }

  function ClosePacket(h: Handler): Packet {
    if h.kind == Interactive && h.dual then PtyClose else ShellClose
  }

  /** What a handler forwards in mid-session; a console's own `ShellInput` is re-addressed. */
  function InputPacket(h: Handler, p: Packet): Option<Packet> {
    match p
    case ShellInput(data) => Some(if h.kind == Interactive && h.dual then PtyInput(data) else p)
    case PtyInput(_) => if h.kind == Interactive then Some(p) else None
    case PtyResize(_) => if h.kind == Interactive then Some(p) else None
    case _ => None
  }

  function Do(s: State, a: Action): State {
    match a
    case SetInfo(dual) => s.(info := Some(dual))
    case ClearInfo => s.(info := None)
    case SetLink(up) => s.(linkUp := up)
    case Connect(kind) => s.(handlers := s.handlers + [Handler(kind, false, New)])
    case Gate(id) =>
      if id >= |s.handlers| || s.handlers[id].phase != New then s
      else Move(s, id, if s.linkUp && (s.handlers[id].kind == Exec || s.info.Some?) then Ready else Done)
    case Read(id) =>
      if id >= |s.handlers| || s.handlers[id].phase != Ready then s
      else s.(handlers := s.handlers[id := Handler(s.handlers[id].kind, s.info == Some(true), Decided)])
    case Claim(id) =>
      if id >= |s.handlers| || s.handlers[id].phase != Decided then s
      else if !Grants(s.channel, s.handlers[id].kind, s.handlers[id].dual) then Move(s, id, Done)
      else Move(s, id, Claimed).(channel := Acquired(s.channel, s.handlers[id].kind))
    case Lock(id) =>
      if At(s, id, Exec, Claimed) && s.inflight == None then Move(s, id, Locked).(inflight := Some(id)) else s
    case GiveUp(id) =>
      if At(s, id, Exec, Claimed) then Move(s, id, Unlocked)
      else if At(s, id, Exec, Locked) || At(s, id, Interactive, Claimed) then Move(s, id, Closing)
      else s
    case Open(id) =>
      if At(s, id, Exec, Locked) || At(s, id, Interactive, Claimed)
      then Emit(Move(s, id, Opened), id, OpenPacket(s.handlers[id]))
      else s
    case Input(id, p) =>
      if id < |s.handlers| && s.handlers[id].phase == Opened && InputPacket(s.handlers[id], p).Some?
      then Emit(s, id, InputPacket(s.handlers[id], p).value)
      else s
    case Close(id) =>
      if id < |s.handlers| && s.handlers[id].phase == Opened
      then Emit(Move(s, id, Closing), id, ClosePacket(s.handlers[id]))
      else s
    case Abandon(id) =>
      if id < |s.handlers| && s.handlers[id].phase == Opened
      then Emit(Move(s, id, Closing), id, Abandoned)
      else s
    case Unlock(id) =>
      if At(s, id, Exec, Closing) then Move(s, id, Unlocked).(inflight := None) else s
    case Unclaim(id) =>
      if At(s, id, Exec, Unlocked) || At(s, id, Interactive, Closing)
      then Move(s, id, Done).(channel := Released(s.channel, s.handlers[id].kind))
      else s
  }

  function Run(actions: seq<Action>): State {
    if actions == [] then START
    else Do(Run(actions[..|actions| - 1]), actions[|actions| - 1])
  }

  // ----- Lanes

  /**
   * Each opcode family is a lane. `PtyInput` and `PtyResize` are passed on as they come in
   * either dialect, and belong to their sender's slot.
   */
  function LaneOf(e: Entry): Kind {
    match e.packet
    case PtyOpen => Interactive
    case PtyClose => Interactive
    case PtyInput(_) => e.slot
    case PtyResize(_) => e.slot
    case Abandoned => e.slot
    case _ => Exec
  }

  datatype Bracket = Idle | OpenBy(id: Id) | Broken

  predicate IsOpen(p: Packet) { p == ShellOpen || p == ShellOpenPty || p == PtyOpen }

  predicate IsClose(p: Packet) { p == ShellClose || p == PtyClose }

  /** One packet read by the automaton of (open input* close)*, each bracket by one handler. */
  function Next(b: Bracket, e: Entry): Bracket {
    if e.packet == Abandoned then b
    else if IsOpen(e.packet) then (if b == Idle then OpenBy(e.id) else Broken)
    else if b != OpenBy(e.id) then Broken
    else if IsClose(e.packet) then Idle
    else b
  }

  function Scan(log: seq<Entry>, lane: Kind): Bracket {
    if log == [] then Idle
    else
      var before := Scan(log[..|log| - 1], lane);
      if LaneOf(log[|log| - 1]) == lane then Next(before, log[|log| - 1]) else before
  }

  /** Some session of the lane was left without a close. */
  function Stranded(log: seq<Entry>, lane: Kind): bool {
    log != [] &&
    (Stranded(log[..|log| - 1], lane)
     || (LaneOf(log[|log| - 1]) == lane && log[|log| - 1].packet == Abandoned))
  }

  /** A session of the lane was opened after one had been left without a close. */
  function Reopened(log: seq<Entry>, lane: Kind): bool {
    log != [] &&
    (Reopened(log[..|log| - 1], lane)
     || (LaneOf(log[|log| - 1]) == lane && IsOpen(log[|log| - 1].packet)
         && Stranded(log[..|log| - 1], lane)))
  }

  predicate InLane(h: Handler, lane: Kind) {
    h.phase == Opened && SlotOf(h) == lane
  }

  /** A console that read `false` beside an exec run that read `true`. */
  predicate Mixed(a: Handler, b: Handler) {
    a.kind != b.kind && (if a.kind == Exec then a.dual && !b.dual else b.dual && !a.dual)
  }

  /** The step opens a session while a mixed one of the same slot is open. */
  ghost predicate Collides(s: State, a: Action) {
    && a.Open? && (At(s, a.id, Exec, Locked) || At(s, a.id, Interactive, Claimed))
    && exists other: Id :: other < |s.handlers| && InLane(s.handlers[other], SlotOf(s.handlers[a.id]))
                           && Mixed(s.handlers[a.id], s.handlers[other])
  }

  /** Such a step happened, on the lane. */
  ghost function Collided(actions: seq<Action>, lane: Kind): bool {
    actions != [] &&
    var front, a := actions[..|actions| - 1], actions[|actions| - 1];
    Collided(front, lane)
    || (Collides(Run(front), a) && SlotOf(Run(front).handlers[a.id]) == lane)
  }

  // ----- Who holds what

  /** Past its claim and before giving it back. */
  predicate Holds(h: Handler) {
    h.phase != New && h.phase != Ready && h.phase != Decided && h.phase != Done
  }

  /** Exec handlers between taking and releasing `single_inflight`. */
  predicate HoldsLock(h: Handler) {
    h.kind == Exec && (h.phase == Locked || h.phase == Opened || h.phase == Closing)
  }

  function ExecHolders(s: State): set<Id> {
    set id | 0 <= id < |s.handlers| && s.handlers[id].kind == Exec && Holds(s.handlers[id])
  }

  predicate HoldsConsole(h: Handler) {
    h.kind == Interactive && Holds(h)
  }

  /** Only one handler at a time is between taking and releasing `single_inflight`. */
  ghost predicate LockOwned(s: State) {
    forall id: Id | id < |s.handlers| && HoldsLock(s.handlers[id]) :: s.inflight == Some(id)
  }

  ghost predicate OneConsole(s: State) {
    forall a: Id, b: Id | a < |s.handlers| && b < |s.handlers|
                          && HoldsConsole(s.handlers[a]) && HoldsConsole(s.handlers[b]) ::
      a == b
  }

  /** The channel counts the exec claims and knows of the console. */
  ghost predicate Counted(s: State) {
    && s.channel.execRefs == |ExecHolders(s)|
    && (forall a: Id | a < |s.handlers| && HoldsConsole(s.handlers[a]) :: s.channel.interactive)
  }

  /** Beside a console that read `false` there are only exec runs that read `true`. */
  ghost predicate Apart(s: State) {
    forall a: Id, e: Id | a < |s.handlers| && e < |s.handlers| && HoldsConsole(s.handlers[a]) && !s.handlers[a].dual
                          && s.handlers[e].kind == Exec && Holds(s.handlers[e]) ::
      s.handlers[e].dual
  }

  ghost predicate Exclusive(s: State) {
    LockOwned(s) && OneConsole(s) && Counted(s) && Apart(s)
  }

  lemma HolderCounted(s: State, id: Id)
    requires id < |s.handlers| && s.handlers[id].kind == Exec && Holds(s.handlers[id])
    ensures ExecHolders(s) != {}
  {
    assert id in ExecHolders(s);
  }

  /** Of a slot, two handlers can be between claim and release only as a mixed pair. */
  lemma TwoOnASlotAreMixed(s: State, a: Id, b: Id)
    requires Exclusive(s) && a < |s.handlers| && b < |s.handlers| && a != b
    requires SlotOf(s.handlers[a]) == SlotOf(s.handlers[b])
    requires HoldsLock(s.handlers[a]) || HoldsConsole(s.handlers[a])
    requires HoldsLock(s.handlers[b]) || HoldsConsole(s.handlers[b])
    ensures Mixed(s.handlers[a], s.handlers[b])
  {
  }

  lemma MovedHolders(s: State, id: Id, phase: Phase)
    requires id < |s.handlers|
    ensures ExecHolders(Move(s, id, phase))
            == if s.handlers[id].kind == Interactive then ExecHolders(s)
               else if Holds(s.handlers[id].(phase := phase)) then ExecHolders(s) + {id}
               else ExecHolders(s) - {id}
    ensures id in ExecHolders(s) <==> s.handlers[id].kind == Exec && Holds(s.handlers[id])
  {
  }

  lemma ClaimCounted(s: State, id: Id)
    requires Counted(s) && id < |s.handlers| && s.handlers[id].phase == Decided
    requires Grants(s.channel, s.handlers[id].kind, s.handlers[id].dual)
    ensures Counted(Do(s, Claim(id)))
  {
    var t := Do(s, Claim(id));
    MovedHolders(s, id, Claimed);
    assert ExecHolders(t) == ExecHolders(Move(s, id, Claimed));
  }

  lemma UnclaimCounted(s: State, id: Id)
    requires Counted(s) && OneConsole(s)
    requires At(s, id, Exec, Unlocked) || At(s, id, Interactive, Closing)
    ensures Counted(Do(s, Unclaim(id)))
  {
    var t := Do(s, Unclaim(id));
    MovedHolders(s, id, Done);
    assert ExecHolders(t) == ExecHolders(Move(s, id, Done));
  }

  predicate Granted(s: State, a: Action) {
    a.Claim? && a.id < |s.handlers| && s.handlers[a.id].phase == Decided
    && Grants(s.channel, s.handlers[a.id].kind, s.handlers[a.id].dual)
  }

  predicate GivenBack(s: State, a: Action) {
    a.Unclaim? && (At(s, a.id, Exec, Unlocked) || At(s, a.id, Interactive, Closing))
  }

  /** Only a granted claim and giving it back change who holds one; nobody's kind changes. */
  lemma HoldersKept(s: State, a: Action)
    requires !Granted(s, a) && !GivenBack(s, a)
    ensures var t := Do(s, a);
            && t.channel == s.channel && |s.handlers| <= |t.handlers|
            && forall id: Id | id < |s.handlers| :: Holds(t.handlers[id]) == Holds(s.handlers[id])
  {
  }

  /** Handlers are only added, never change kind, and all but the acting one stay put. */
  lemma StepShape(s: State, a: Action)
    ensures var t := Do(s, a);
            && |s.handlers| <= |t.handlers|
            && (forall id: Id | id < |s.handlers| :: t.handlers[id].kind == s.handlers[id].kind)
            && (forall id: Id | id < |s.handlers| && Holds(s.handlers[id]) ::
                  t.handlers[id].dual == s.handlers[id].dual)
            && (forall id: Id | |s.handlers| <= id < |t.handlers| :: t.handlers[id].phase == New)
            && (forall id: Id | id < |s.handlers| && Actor(a) != Some(id) :: t.handlers[id] == s.handlers[id])
  {
    OthersStay(s, a);
    if Actor(a).Some? && Actor(a).value < |s.handlers| { ActorKeepsKind(s, a, Actor(a).value); }
    hide Do;
  }

  lemma OthersStay(s: State, a: Action)
    ensures var t := Do(s, a);
            && |s.handlers| <= |t.handlers|
            && (forall id: Id | |s.handlers| <= id < |t.handlers| :: t.handlers[id].phase == New)
            && (forall id: Id | id < |s.handlers| && Actor(a) != Some(id) :: t.handlers[id] == s.handlers[id])
  {
  }

  lemma ActorKeepsKind(s: State, a: Action, id: Id)
    requires id < |s.handlers|
    ensures id < |Do(s, a).handlers| && Do(s, a).handlers[id].kind == s.handlers[id].kind
    ensures Holds(s.handlers[id]) ==> Do(s, a).handlers[id].dual == s.handlers[id].dual
  {
  }

  lemma CountedKept(s: State, a: Action)
    requires Counted(s) && OneConsole(s)
    ensures Counted(Do(s, a))
  {
    var t := Do(s, a);
    if Granted(s, a) {
      ClaimCounted(s, a.id);
    } else if GivenBack(s, a) {
      UnclaimCounted(s, a.id);
    } else {
      HoldersKept(s, a);
      StepShape(s, a);
      hide Do;
      assert ExecHolders(t) == ExecHolders(s);
    }
  }

  lemma ConsoleKept(s: State, a: Action)
    requires Counted(s) && OneConsole(s)
    ensures OneConsole(Do(s, a))
  {
    StepShape(s, a);
    var t := Do(s, a);
    if !Granted(s, a) {
      if !GivenBack(s, a) { HoldersKept(s, a); }
      assert forall id: Id | id < |s.handlers| && HoldsConsole(t.handlers[id]) :: HoldsConsole(s.handlers[id]);
    }
  }

  lemma LockKept(s: State, a: Action)
    requires LockOwned(s)
    ensures LockOwned(Do(s, a))
  {
    if Actor(a).Some? {
      if Actor(a).value < |s.handlers| { LockMoves(s, a, Actor(a).value); }
      OthersStay(s, a);
      hide Do;
    }
  }

  /** `single_inflight` is taken when free and only given up by the one that holds it. */
  lemma LockMoves(s: State, a: Action, id: Id)
    requires Actor(a) == Some(id) && id < |s.handlers|
    ensures var t := Do(s, a);
            && id < |t.handlers| == |s.handlers|
            && (if HoldsLock(t.handlers[id]) == HoldsLock(s.handlers[id]) then t.inflight == s.inflight
                else if HoldsLock(t.handlers[id]) then s.inflight == None && t.inflight == Some(id)
                else true)
  {
  }

  lemma ApartKept(s: State, a: Action)
    requires Exclusive(s)
    ensures Apart(Do(s, a))
  {
    StepShape(s, a);
    var t := Do(s, a);
    if Granted(s, a) {
      if s.handlers[a.id].kind == Interactive && !s.handlers[a.id].dual { assert ExecHolders(s) == {}; }
      forall e: Id | e < |s.handlers| && s.handlers[e].kind == Exec && Holds(s.handlers[e])
        ensures ExecHolders(s) != {}
      {
        HolderCounted(s, e);
      }
    } else {
      if !GivenBack(s, a) { HoldersKept(s, a); }
      assert forall id: Id | id < |s.handlers| && Holds(t.handlers[id]) :: Holds(s.handlers[id]);
    }
  }

  lemma {:induction false} ExclusiveAlways(actions: seq<Action>)
    ensures Exclusive(Run(actions))
  {
    if actions != [] {
      var s, a := Run(actions[..|actions| - 1]), actions[|actions| - 1];
      ExclusiveAlways(actions[..|actions| - 1]);
      CountedKept(s, a);
      ConsoleKept(s, a);
      LockKept(s, a);
      ApartKept(s, a);
    }
  }

  // ----- The queue follows the handlers

  /** The automaton's state mirrors who is between open and close, until the lane is broken. */
  ghost predicate Mirrors(s: State, lane: Kind, collided: bool) {
    var b := Scan(s.log, lane);
    && (b == Broken <==> Reopened(s.log, lane) || collided)
    && (b != Broken ==>
          && (forall id: Id | id < |s.handlers| && InLane(s.handlers[id], lane) ::
                b == OpenBy(id) && !Stranded(s.log, lane))
          && (b == Idle ==> !Stranded(s.log, lane))
          && (b.OpenBy? && !Stranded(s.log, lane) ==>
                b.id < |s.handlers| && InLane(s.handlers[b.id], lane)))
  }

  lemma ScanAppend(log: seq<Entry>, e: Entry, lane: Kind)
    ensures Scan(log + [e], lane)
            == if LaneOf(e) == lane then Next(Scan(log, lane), e) else Scan(log, lane)
    ensures Stranded(log + [e], lane)
            == (Stranded(log, lane) || (LaneOf(e) == lane && e.packet == Abandoned))
    ensures Reopened(log + [e], lane)
            == (Reopened(log, lane) || (LaneOf(e) == lane && IsOpen(e.packet) && Stranded(log, lane)))
  {
    assert (log + [e])[..|log|] == log;
  }

  /** A step that queues nothing changes nobody's place between open and close. */
  lemma SilentMirrors(s: State, a: Action, lane: Kind, collided: bool)
    requires Mirrors(s, lane, collided) && Do(s, a).log == s.log
    ensures Mirrors(Do(s, a), lane, collided)
    ensures !Collides(s, a)
  {
    var t := Do(s, a);
    StepShape(s, a);
    SilentLanes(s, a, lane);
    hide Do;
    assert forall id: Id | |s.handlers| <= id < |t.handlers| :: !InLane(t.handlers[id], lane);
  }

  lemma SilentLanes(s: State, a: Action, lane: Kind)
    requires Do(s, a).log == s.log
    ensures var t := Do(s, a);
            |s.handlers| <= |t.handlers|
            && forall id: Id | id < |s.handlers| :: InLane(t.handlers[id], lane) == InLane(s.handlers[id], lane)
    ensures !Collides(s, a)
  {
  }

  /** What a step that queues something looks like. */
  ghost predicate Queues(s: State, t: State, e: Entry) {
    && t.log == s.log + [e]
    && e.id < |s.handlers| && e.slot == SlotOf(s.handlers[e.id])
    && |t.handlers| == |s.handlers|
    && t.handlers == s.handlers[e.id := t.handlers[e.id]]
    && LaneOf(e) == e.slot && SlotOf(t.handlers[e.id]) == e.slot
    && (if IsOpen(e.packet)
        then (HoldsLock(s.handlers[e.id]) || HoldsConsole(s.handlers[e.id]))
             && s.handlers[e.id].phase != Opened && t.handlers[e.id].phase == Opened
        else s.handlers[e.id].phase == Opened
             && (t.handlers[e.id].phase == Opened <==> e.packet != Abandoned && !IsClose(e.packet)))
  }

  lemma QueuingStep(s: State, a: Action)
    requires Do(s, a).log != s.log
    ensures |Do(s, a).log| == |s.log| + 1
    ensures var e := Do(s, a).log[|s.log|];
            && Queues(s, Do(s, a), e)
            && Actor(a) == Some(e.id)
            && (a.Open? <==> IsOpen(e.packet))
            && (a.Open? ==> At(s, a.id, Exec, Locked) || At(s, a.id, Interactive, Claimed))
  {
  }

  /** The lane after a queuing step; an open beside an open session breaks it. */
  lemma QueuingMirrors(s: State, t: State, e: Entry, lane: Kind, collided: bool, collides: bool)
    requires Mirrors(s, lane, collided) && Queues(s, t, e)
    requires collides
             <==> IsOpen(e.packet) && exists other: Id :: other < |s.handlers| && InLane(s.handlers[other], e.slot)
    ensures Mirrors(t, lane, collided || (collides && e.slot == lane))
  {
    ScanAppend(s.log, e, lane);
    assert forall x: Id | x < |s.handlers| && x != e.id :: t.handlers[x] == s.handlers[x];
  }

  lemma MirrorsKept(s: State, a: Action, lane: Kind, collided: bool)
    requires Exclusive(s) && Mirrors(s, lane, collided)
    ensures Mirrors(Do(s, a), lane, collided || (Collides(s, a) && SlotOf(s.handlers[a.id]) == lane))
  {
    if Do(s, a).log == s.log {
      SilentMirrors(s, a, lane, collided);
    } else {
      QueuingStep(s, a);
      var e := Do(s, a).log[|s.log|];
      CollidesIff(s, a, e);
      hide Do, Mirrors, Queues;
      QueuingMirrors(s, Do(s, a), e, lane, collided, Collides(s, a));
    }
  }

  lemma CollidesIff(s: State, a: Action, e: Entry)
    requires Exclusive(s) && Queues(s, Do(s, a), e) && Actor(a) == Some(e.id) && (a.Open? <==> IsOpen(e.packet))
    requires a.Open? ==> At(s, a.id, Exec, Locked) || At(s, a.id, Interactive, Claimed)
    ensures Collides(s, a)
            <==> IsOpen(e.packet) && exists other: Id :: other < |s.handlers| && InLane(s.handlers[other], e.slot)
  {
    hide Do, Exclusive;
    if IsOpen(e.packet) {
      forall other: Id | other < |s.handlers| && InLane(s.handlers[other], e.slot)
        ensures Mixed(s.handlers[e.id], s.handlers[other])
      {
        TwoOnASlotAreMixed(s, e.id, other);
      }
    }
  }

  lemma {:induction false} MirrorsAlways(actions: seq<Action>, lane: Kind)
    ensures Mirrors(Run(actions), lane, Collided(actions, lane))
  {
    if actions != [] {
      var front, a := actions[..|actions| - 1], actions[|actions| - 1];
      MirrorsAlways(front, lane);
      ExclusiveAlways(front);
      MirrorsKept(Run(front), a, lane, Collided(front, lane));
    }
  }

  // ----- The theorems

  /**
   * In every interleaving each lane of the queue is a prefix of (open input* close)*, each
   * bracket by one handler - except exactly when a session is opened on a lane on which an
   * earlier one unwound after its open without a close, or when a console that read the
   * cache as empty and an exec run that read it as dual are open on one slot.
   */
  lemma BracketedIff(actions: seq<Action>, lane: Kind)
    ensures Scan(Run(actions).log, lane) != Broken
            <==> !Reopened(Run(actions).log, lane) && !Collided(actions, lane)
  {
    MirrorsAlways(actions, lane);
  }

  /**
   * Two handlers whose events go to one slot are between installing their consumer and
   * dropping its guard at once only as such a mixed pair; otherwise the guard's
   * unconditional clear only ever clears its own handler's registration.
   */
  lemma GuardsOverlapOnlyMixed(actions: seq<Action>, a: Id, b: Id)
    requires var hs := Run(actions).handlers;
             && a < |hs| && b < |hs| && a != b && SlotOf(hs[a]) == SlotOf(hs[b])
             && (HoldsLock(hs[a]) || HoldsConsole(hs[a])) && (HoldsLock(hs[b]) || HoldsConsole(hs[b]))
    ensures Mixed(Run(actions).handlers[a], Run(actions).handlers[b])
  {
    ExclusiveAlways(actions);
    TwoOnASlotAreMixed(Run(actions), a, b);
  }

  /** The claim that makes a mixed pair: an exec run that read `true`, beside a console that read `false`. */
  ghost predicate MixedClaim(s: State, a: Action) {
    && Granted(s, a) && s.handlers[a.id].kind == Exec && s.handlers[a.id].dual
    && exists c: Id :: c < |s.handlers| && HoldsConsole(s.handlers[c]) && !s.handlers[c].dual
  }

  ghost predicate NeverMixed(actions: seq<Action>) {
    actions == [] ||
    var front := actions[..|actions| - 1];
    NeverMixed(front) && !MixedClaim(Run(front), actions[|actions| - 1])
  }

  /** No console that read `false` holds the channel together with an exec run. */
  ghost predicate Strict(s: State) {
    forall a: Id, e: Id | a < |s.handlers| && e < |s.handlers| && HoldsConsole(s.handlers[a]) && !s.handlers[a].dual
                          && s.handlers[e].kind == Exec ::
      !Holds(s.handlers[e])
  }

  lemma StrictKept(s: State, a: Action)
    requires Exclusive(s) && Strict(s) && !MixedClaim(s, a)
    ensures Strict(Do(s, a))
  {
    StepShape(s, a);
    var t := Do(s, a);
    if Granted(s, a) {
      if s.handlers[a.id].kind == Interactive && !s.handlers[a.id].dual { assert ExecHolders(s) == {}; }
      forall e: Id | e < |s.handlers| && s.handlers[e].kind == Exec && Holds(s.handlers[e])
        ensures ExecHolders(s) != {}
      {
        HolderCounted(s, e);
      }
    } else {
      if !GivenBack(s, a) { HoldersKept(s, a); }
      assert forall id: Id | id < |s.handlers| && Holds(t.handlers[id]) :: Holds(s.handlers[id]);
    }
  }

  lemma {:induction false} StrictAlways(actions: seq<Action>)
    requires NeverMixed(actions)
    ensures Strict(Run(actions)) && !Collided(actions, Exec) && !Collided(actions, Interactive)
  {
    if actions != [] {
      var front := actions[..|actions| - 1];
      StrictAlways(front);
      ExclusiveAlways(front);
      StrictKept(Run(front), actions[|actions| - 1]);
    }
  }

  /** Without a mixed claim, a slot has one handler between install and guard drop at a time. */
  lemma GuardsNeverOverlap(actions: seq<Action>, a: Id, b: Id)
    requires NeverMixed(actions)
    requires var hs := Run(actions).handlers;
             && a < |hs| && b < |hs| && SlotOf(hs[a]) == SlotOf(hs[b])
             && (HoldsLock(hs[a]) || HoldsConsole(hs[a])) && (HoldsLock(hs[b]) || HoldsConsole(hs[b]))
    ensures a == b
  {
    StrictAlways(actions);
    if a != b { GuardsOverlapOnlyMixed(actions, a, b); }
  }

  /** One host throughout: the cache is only ever filled with `d`, before the link is up, and never emptied. */
  ghost predicate OneHost(actions: seq<Action>, d: bool) {
    actions == [] ||
    var front, a := actions[..|actions| - 1], actions[|actions| - 1];
    && OneHost(front, d)
    && a != ClearInfo && (a.SetInfo? ==> a.dual == d) && (a == SetLink(true) ==> Run(front).info.Some?)
  }

  /** Every handler that has looked, has read `d`. */
  ghost predicate AllRead(s: State, d: bool) {
    && (s.info.Some? ==> s.info == Some(d))
    && (s.linkUp ==> s.info.Some?)
    && (forall id: Id | id < |s.handlers| && s.handlers[id].phase == Ready :: s.info.Some?)
    && (forall id: Id | id < |s.handlers| && (s.handlers[id].phase == Decided || Holds(s.handlers[id])) ::
          s.handlers[id].dual == d)
  }

  /** How a handler gets past the gate and to its reading. */
  lemma ReadingComesFromTheCache(s: State, a: Action, id: Id)
    requires id < |s.handlers|
    ensures var before, after := s.handlers[id], Do(s, a).handlers[id];
            && (after.phase == Ready ==> before.phase == Ready || s.linkUp)
            && (after.phase == Decided || Holds(after) ==>
                  || (before.phase == Ready && after.dual == (s.info == Some(true)))
                  || ((before.phase == Decided || Holds(before)) && after.dual == before.dual))
  {
  }

  lemma AllReadKept(s: State, a: Action, d: bool)
    requires AllRead(s, d)
    requires a != ClearInfo && (a.SetInfo? ==> a.dual == d) && (a == SetLink(true) ==> s.info.Some?)
    ensures AllRead(Do(s, a), d)
  {
    var t := Do(s, a);
    assert (t.info.Some? ==> t.info == Some(d)) && (t.linkUp ==> t.info.Some?) && (s.info.Some? ==> t.info.Some?);
    StepShape(s, a);
    hide Do;
    forall id: Id | id < |s.handlers|
      ensures t.handlers[id].phase == Ready ==> t.info.Some?
      ensures t.handlers[id].phase == Decided || Holds(t.handlers[id]) ==> t.handlers[id].dual == d
    {
      ReadingComesFromTheCache(s, a, id);
    }
  }

  /** So only losing the link can make a claim mixed. */
  lemma {:induction false} OneHostNeverMixes(actions: seq<Action>, d: bool)
    requires OneHost(actions, d)
    ensures NeverMixed(actions) && AllRead(Run(actions), d)
  {
    if actions != [] {
      var front, a := actions[..|actions| - 1], actions[|actions| - 1];
      OneHostNeverMixes(front, d);
      AllReadKept(Run(front), a, d);
      hide Do;
    }
  }

  ghost predicate NoFailureAfterOpen(actions: seq<Action>) {
    forall k | 0 <= k < |actions| :: !actions[k].Abandon?
  }

  lemma QueuesNoFailure(s: State, a: Action)
    requires !a.Abandon?
    ensures var t := Do(s, a);
            t.log == s.log
            || (|t.log| == |s.log| + 1 && t.log == s.log + [t.log[|s.log|]] && t.log[|s.log|].packet != Abandoned)
  {
  }

  lemma {:induction false} NothingStranded(actions: seq<Action>, lane: Kind)
    requires NoFailureAfterOpen(actions)
    ensures !Stranded(Run(actions).log, lane) && !Reopened(Run(actions).log, lane)
  {
    if actions != [] {
      var s, a := Run(actions[..|actions| - 1]), actions[|actions| - 1];
      NothingStranded(actions[..|actions| - 1], lane);
      assert NoFailureAfterOpen(actions[..|actions| - 1]) && !a.Abandon?;
      QueuesNoFailure(s, a);
      if Do(s, a).log != s.log {
        ScanAppend(s.log, Do(s, a).log[|s.log|], lane);
      }
    }
  }

  /** Without such a failure or claim both lanes are well bracketed in every interleaving. */
  lemma AlwaysBracketed(actions: seq<Action>, lane: Kind)
    requires NoFailureAfterOpen(actions) && NeverMixed(actions)
    ensures Scan(Run(actions).log, lane) != Broken
  {
    BracketedIff(actions, lane);
    NothingStranded(actions, lane);
    StrictAlways(actions);
  }

  // ----- Runs that break a lane

  lemma RunSnoc(actions: seq<Action>, a: Action)
    ensures Run(actions + [a]) == Do(Run(actions), a)
  {
    assert (actions + [a])[..|actions|] == actions;
  }

  lemma Then(actions: seq<Action>, a: Action) returns (more: seq<Action>)
    ensures more == actions + [a] && Run(more) == Do(Run(actions), a)
    ensures NoFailureAfterOpen(actions) && !a.Abandon? ==> NoFailureAfterOpen(more)
  {
    more := actions + [a];
    RunSnoc(actions, a);
  }

  /** A host of either generation, shaken hands with. */
  lemma LinkComesUp(dual: bool) returns (actions: seq<Action>)
    ensures Run(actions) == START.(info := Some(dual), linkUp := true) && NoFailureAfterOpen(actions)
  {
    assert Run([]) == START && NoFailureAfterOpen([]);
    hide Run, NoFailureAfterOpen;
    actions := Then([], SetInfo(dual));
    actions := Then(actions, SetLink(true));
  }

  /** A handler connects, passes the gate and reads the cache. */
  lemma HandlerReads(start: seq<Action>, kind: Kind, dual: bool) returns (actions: seq<Action>)
    requires Run(start).info == Some(dual) && Run(start).linkUp
    ensures Run(actions) == Run(start).(handlers := Run(start).handlers + [Handler(kind, dual, Decided)])
    ensures NoFailureAfterOpen(start) ==> NoFailureAfterOpen(actions)
  {
    hide Run, NoFailureAfterOpen;
    var id := |Run(start).handlers|;
    actions := Then(start, Connect(kind));
    actions := Then(actions, Gate(id));
    assert Run(actions) == Run(start).(handlers := Run(start).handlers + [Handler(kind, false, Ready)]);
    actions := Then(actions, Read(id));
  }

  lemma ExecOpens(dual: bool) returns (actions: seq<Action>)
    ensures Run(actions)
            == State([Handler(Exec, dual, Opened)], Channel(1, false), Some(0), Some(dual), true,
                     [Entry(0, Exec, ShellOpen)])
  {
    hide Run, NoFailureAfterOpen;
    actions := LinkComesUp(dual);
    actions := HandlerReads(actions, Exec, dual);
    assert Run(actions) == State([Handler(Exec, dual, Decided)], Channel(0, false), None, Some(dual), true, []);
    actions := Then(actions, Claim(0));
    actions := Then(actions, Lock(0));
    assert Run(actions) == State([Handler(Exec, dual, Locked)], Channel(1, false), Some(0), Some(dual), true, []);
    actions := Then(actions, Open(0));
  }

  /** An exec run that unwinds right after its open. */
  lemma StrandedRun(dual: bool) returns (actions: seq<Action>)
    ensures Run(actions)
            == State([Handler(Exec, dual, Unlocked)], Channel(1, false), None, Some(dual), true,
                     [Entry(0, Exec, ShellOpen), Entry(0, Exec, Abandoned)])
  {
    hide Run, NoFailureAfterOpen;
    actions := ExecOpens(dual);
    actions := Then(actions, Abandon(0));
    actions := Then(actions, Unlock(0));
  }

  /** A second run started after it. */
  lemma RunAfterStranded(dual: bool) returns (actions: seq<Action>)
    ensures Run(actions).log
            == [Entry(0, Exec, ShellOpen), Entry(0, Exec, Abandoned)] + [Entry(1, Exec, ShellOpen)]
  {
    actions := StrandedRun(dual);
    hide Run, NoFailureAfterOpen;
    actions := HandlerReads(actions, Exec, dual);
    assert Run(actions).handlers == [Handler(Exec, dual, Unlocked), Handler(Exec, dual, Decided)];
    actions := Then(actions, Claim(1));
    actions := Then(actions, Lock(1));
    assert Run(actions).handlers == [Handler(Exec, dual, Unlocked), Handler(Exec, dual, Locked)];
    actions := Then(actions, Open(1));
  }

  /**
   * One such failure is enough: the open of a second exec run, even one that itself goes
   * well, meets a lane that was never closed.
   */
  lemma OneFailureBreaksTheNextRun(dual: bool)
    ensures exists actions :: Scan(Run(actions).log, Exec) == Broken
  {
    var actions := RunAfterStranded(dual);
    var e0, e1, e2 := Entry(0, Exec, ShellOpen), Entry(0, Exec, Abandoned), Entry(1, Exec, ShellOpen);
    ScanAppend([], e0, Exec);
    ScanAppend([e0], e1, Exec);
    ScanAppend([e0, e1], e2, Exec);
    assert [] + [e0] == [e0] && [e0] + [e1] == [e0, e1];
    assert Scan(Run(actions).log, Exec) == Broken;
  }

  /** On a dual host: an exec run reads the cache, a console passes the gate, and the cache is emptied. */
  lemma ConsoleReadsEmptyCache() returns (actions: seq<Action>)
    ensures Run(actions)
            == State([Handler(Exec, true, Decided), Handler(Interactive, false, Decided)],
                     Channel(0, false), None, None, true, [])
    ensures NoFailureAfterOpen(actions)
  {
    hide Run, NoFailureAfterOpen;
    actions := LinkComesUp(true);
    actions := HandlerReads(actions, Exec, true);
    actions := Then(actions, Connect(Interactive));
    assert Run(actions)
        == State([Handler(Exec, true, Decided), Handler(Interactive, false, New)],
                 Channel(0, false), None, Some(true), true, []);
    actions := Then(actions, Gate(1));
    actions := Then(actions, ClearInfo);
    actions := Then(actions, Read(1));
  }

  /**
   * On one and the same dual host, a cache emptied between a console's gate and its read is
   * enough to let both kinds open on the `Shell*` lane, nobody having failed.
   */
  lemma EmptiedCacheBreaksTheLane() returns (actions: seq<Action>)
    ensures Scan(Run(actions).log, Exec) == Broken && !Reopened(Run(actions).log, Exec)
    ensures Collided(actions, Exec) && NoFailureAfterOpen(actions)
    ensures Run(actions).handlers == [Handler(Exec, true, Opened), Handler(Interactive, false, Opened)]
  {
    actions := ConsoleReadsEmptyCache();
    hide Run, NoFailureAfterOpen;
    actions := Then(actions, Claim(1));
    actions := Then(actions, Claim(0));
    assert Run(actions).handlers == [Handler(Exec, true, Claimed), Handler(Interactive, false, Claimed)];
    actions := Then(actions, Open(1));
    actions := Then(actions, Lock(0));
    assert Run(actions).handlers == [Handler(Exec, true, Locked), Handler(Interactive, false, Opened)];
    actions := Then(actions, Open(0));
    var e0, e1 := Entry(1, Exec, ShellOpenPty), Entry(0, Exec, ShellOpen);
    assert Run(actions).log == [e0] + [e1];
    ScanAppend([], e0, Exec);
    ScanAppend([e0], e1, Exec);
    assert [] + [e0] == [e0];
    BracketedIff(actions, Exec);
  }
}
