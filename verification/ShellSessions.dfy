/** What the shell handlers' packets mean to the host, and what each handler says. */
module ShellSessions {
  import opened Wire
  import opened ShellChannel
  import opened ShellBracket

  // ----- What runs on the host

  datatype Mode = Shut | Pipe | Pty

  /** A slot of the host, told from the packets alone. */
  function ModeAfter(m: Mode, slot: Kind, p: Packet): Mode {
    match p
    case ShellOpen => if slot == Exec then Pipe else m
    case ShellOpenPty => if slot == Exec then Pty else m
    case ShellClose => if slot == Exec then Shut else m
    case PtyOpen => if slot == Interactive then Pty else m
    case PtyClose => if slot == Interactive then Shut else m
    case _ => m
  }

  function ModeOf(log: seq<Entry>, slot: Kind): Mode {
    if log == [] then Shut else ModeAfter(ModeOf(log[..|log| - 1], slot), slot, log[|log| - 1].packet)
  }

  /** Who has a session on the slot: an exec run, or a console that read the host so. */
  predicate On(h: Handler, slot: Kind) {
    h.phase == Opened && (if slot == Interactive then h.kind == Interactive && h.dual else h.kind == Exec || !h.dual)
  }

  ghost predicate Runs(s: State, slot: Kind, kind: Kind) {
    exists id: Id :: id < |s.handlers| && On(s.handlers[id], slot) && s.handlers[id].kind == kind
  }

  ghost predicate ModesFit(s: State, slot: Kind) {
    && (ModeOf(s.log, slot) == Pipe <==> Runs(s, slot, Exec))
    && (ModeOf(s.log, slot) == Pty <==> Runs(s, slot, Interactive))
  }

  /** At most one handler has a session on the slot, and no session was left open. */
  ghost predicate OneOn(s: State, slot: Kind) {
    forall a: Id, b: Id | a < |s.handlers| && b < |s.handlers|
                          && On(s.handlers[a], slot) && On(s.handlers[b], slot) ::
      a == b
  }

  lemma ModeSnoc(log: seq<Entry>, e: Entry, slot: Kind)
    ensures ModeOf(log + [e], slot) == ModeAfter(ModeOf(log, slot), slot, e.packet)
  {
    assert (log + [e])[..|log|] == log;
  }

  lemma SilentModes(s: State, a: Action, slot: Kind)
    requires ModesFit(s, slot) && Do(s, a).log == s.log
    ensures ModesFit(Do(s, a), slot)
  {
    var t := Do(s, a);
    StepShape(s, a);
    SilentOn(s, a, slot);
    hide Do, On, ModeOf;
    forall id: Id, kind: Kind | id < |s.handlers| && On(s.handlers[id], slot) && s.handlers[id].kind == kind
      ensures Runs(t, slot, kind)
    {
      assert On(t.handlers[id], slot) && t.handlers[id].kind == kind;
    }
    forall id: Id, kind: Kind | id < |t.handlers| && On(t.handlers[id], slot) && t.handlers[id].kind == kind
      ensures Runs(s, slot, kind)
    {
      assert On(s.handlers[id], slot) && s.handlers[id].kind == kind;
    }
  }

  lemma SilentOn(s: State, a: Action, slot: Kind)
    requires Do(s, a).log == s.log
    ensures var t := Do(s, a);
            && |s.handlers| <= |t.handlers|
            && (forall id: Id | id < |s.handlers| :: On(t.handlers[id], slot) == On(s.handlers[id], slot))
            && (forall id: Id | |s.handlers| <= id < |t.handlers| :: !On(t.handlers[id], slot))
  {
  }

  /** A step that opens, feeds or closes a session. */
  lemma LoudModes(s: State, a: Action, slot: Kind)
    requires ModesFit(s, slot) && Do(s, a).log != s.log && !a.Abandon?
    requires OneOn(s, slot) && OneOn(Do(s, a), slot)
    ensures ModesFit(Do(s, a), slot)
  {
    var t := Do(s, a);
    QueuingStep(s, a);
    var e := t.log[|s.log|];
    ModeSnoc(s.log, e, slot);
    LoudStep(s, a, e, slot);
    OthersStay(s, a);
    ActorKeepsKind(s, a, e.id);
    hide Do, ModeOf, On, Queues;
    var kind := s.handlers[e.id].kind;
    if On(t.handlers[e.id], slot) { assert Runs(t, slot, kind); }
    if On(s.handlers[e.id], slot) { assert Runs(s, slot, kind); }
    OthersRun(s, t, e.id, slot);
  }

  lemma LoudStep(s: State, a: Action, e: Entry, slot: Kind)
    requires Do(s, a).log == s.log + [e] && !a.Abandon?
    ensures var t := Do(s, a);
            && Actor(a) == Some(e.id) && e.id < |s.handlers| == |t.handlers|
            && forall m: Mode ::
                 ModeAfter(m, slot, e.packet)
                 == if On(t.handlers[e.id], slot) == On(s.handlers[e.id], slot) then m
                    else if !On(t.handlers[e.id], slot) then Shut
                    else if s.handlers[e.id].kind == Exec then Pipe else Pty
  {
    assert e == Do(s, a).log[|s.log|];
  }

  /**
   * In every interleaving without such a failure or claim, the host's pipe slot has a pipe
   * shell exactly while an exec run is between its open and its close, and a pty exactly
   * while a console is that read the host as having one slot; and the pty slot has a pty
   * exactly while any other console is.
   */
  lemma HostRunsWhatIsOpen(actions: seq<Action>, slot: Kind)
    requires NoFailureAfterOpen(actions) && NeverMixed(actions)
    ensures ModeOf(Run(actions).log, slot) == Pipe <==> Runs(Run(actions), slot, Exec)
    ensures ModeOf(Run(actions).log, slot) == Pty <==> Runs(Run(actions), slot, Interactive)
  {
    ModesAlways(actions, slot);
  }

  lemma {:induction false} ModesAlways(actions: seq<Action>, slot: Kind)
    requires NoFailureAfterOpen(actions) && NeverMixed(actions)
    ensures ModesFit(Run(actions), slot) && OneOn(Run(actions), slot)
  {
    OneOnAlways(actions, slot);
    if actions != [] {
      var front, a := actions[..|actions| - 1], actions[|actions| - 1];
      assert NoFailureAfterOpen(front) && !a.Abandon?;
      hide Do, ModesFit, OneOn;
      ModesAlways(front, slot);
      if Run(actions).log == Run(front).log {
        SilentModes(Run(front), a, slot);
      } else {
        LoudModes(Run(front), a, slot);
      }
    } else {
      hide NoFailureAfterOpen, NeverMixed;
    }
  }

  lemma OneOnAlways(actions: seq<Action>, slot: Kind)
    requires NoFailureAfterOpen(actions) && NeverMixed(actions)
    ensures OneOn(Run(actions), slot)
  {
    StrictAlways(actions);
    ExclusiveAlways(actions);
    var s := Run(actions);
    hide Run, NeverMixed, NoFailureAfterOpen, Collided, Counted, Apart;
    forall a: Id, b: Id | a < |s.handlers| && b < |s.handlers| && On(s.handlers[a], slot) && On(s.handlers[b], slot)
      ensures a == b
    {
      assert HoldsLock(s.handlers[a]) || HoldsConsole(s.handlers[a]);
      assert HoldsLock(s.handlers[b]) || HoldsConsole(s.handlers[b]);
    }
  }

  lemma OthersRun(s: State, t: State, id: Id, slot: Kind)
    requires id < |s.handlers| == |t.handlers|
    requires forall x: Id | x < |s.handlers| && x != id :: t.handlers[x] == s.handlers[x]
    requires t.handlers[id].kind == s.handlers[id].kind
    requires OneOn(s, slot) && OneOn(t, slot)
    ensures forall kind: Kind ::
              Runs(t, slot, kind)
              <==> if On(t.handlers[id], slot) then kind == t.handlers[id].kind
                   else Runs(s, slot, kind) && !(On(s.handlers[id], slot) && kind == s.handlers[id].kind)
  {
    hide On;
    forall kind: Kind
      ensures Runs(t, slot, kind)
              <==> if On(t.handlers[id], slot) then kind == t.handlers[id].kind
                   else Runs(s, slot, kind) && !(On(s.handlers[id], slot) && kind == s.handlers[id].kind)
    {
      if x: Id :| x < |s.handlers| && x != id && On(s.handlers[x], slot) && s.handlers[x].kind == kind {
        assert On(t.handlers[x], slot) && t.handlers[x].kind == kind;
      }
    }
  }

  // ----- What one handler says

  /** The packets that the log has of a handler. */
  function PacketsOf(log: seq<Entry>, id: Id): seq<Packet> {
    if log == [] then []
    else PacketsOf(log[..|log| - 1], id) + (if log[|log| - 1].id == id then [log[|log| - 1].packet] else [])
  }

  /** What a handler of the kind passes on. */
  predicate Forwardable(kind: Kind, p: Packet) {
    p.ShellInput? || (kind == Interactive && (p.PtyInput? || p.PtyResize?))
  }

  /** How the session that opened before these actions ended: with a close, a failure or not yet. */
  function Ending(after: seq<Action>, id: Id): Option<Action> {
    if after == [] then None
    else
      var ended, a := Ending(after[..|after| - 1], id), after[|after| - 1];
      if ended == None && (a == Close(id) || a == Abandon(id)) then Some(a) else ended
  }

  /** The same contents; a console's own input in the dialect that it read the host to speak. */
  function Readdressed(h: Handler, given: Packet): Packet {
    if given.ShellInput? && h.kind == Interactive && h.dual then PtyInput(given.data) else given
  }

  /** What a handler with an open session says at a step. */
  function SaysNow(h: Handler, id: Id, a: Action): seq<Packet> {
    if a.Input? && a.id == id && Forwardable(h.kind, a.packet) then [Readdressed(h, a.packet)]
    else if a == Close(id) then [ClosePacket(h)]
    else if a == Abandon(id) then [Abandoned]
    else []
  }

  /** Its open, what it was given to pass on until the session ended, and that end. */
  function Script(h: Handler, id: Id, after: seq<Action>): seq<Packet> {
    if after == [] then [OpenPacket(h)]
    else
      var front := after[..|after| - 1];
      Script(h, id, front) + (if Ending(front, id) == None then SaysNow(h, id, after[|after| - 1]) else [])
  }

  /** Nothing is said before the open. */
  ghost predicate QuietBefore(s: State) {
    && (forall id: Id | id < |s.handlers| && s.handlers[id].phase in {New, Ready, Decided, Claimed, Locked} ::
          PacketsOf(s.log, id) == [])
    && (forall id: Id | |s.handlers| <= id :: PacketsOf(s.log, id) == [])
  }

  lemma PacketsSnoc(log: seq<Entry>, e: Entry, id: Id)
    ensures PacketsOf(log + [e], id) == PacketsOf(log, id) + if e.id == id then [e.packet] else []
  {
    assert (log + [e])[..|log|] == log;
  }

  lemma StepSays(s: State, a: Action, id: Id)
    ensures PacketsOf(Do(s, a).log, id)
            == PacketsOf(s.log, id)
               + if |Do(s, a).log| > |s.log| && Actor(a) == Some(id) then [Do(s, a).log[|s.log|].packet] else []
  {
    var t := Do(s, a);
    if t.log == s.log {
      assert PacketsOf(s.log, id) + [] == PacketsOf(s.log, id);
    } else {
      QueuingStep(s, a);
      hide Do, PacketsOf;
      PacketsSnoc(s.log, t.log[|s.log|], id);
    }
  }

  lemma EarlyStepsAreSilent(s: State, a: Action, id: Id)
    requires id < |s.handlers| && Do(s, a).handlers[id].phase in {New, Ready, Decided, Claimed, Locked}
    requires id < |Do(s, a).handlers|
    ensures s.handlers[id].phase in {New, Ready, Decided, Claimed, Locked}
    ensures Actor(a) == Some(id) ==> Do(s, a).log == s.log
  {
  }

  lemma QuietKept(s: State, a: Action)
    requires QuietBefore(s)
    ensures QuietBefore(Do(s, a))
  {
    var t := Do(s, a);
    OthersStay(s, a);
    if t.log != s.log { QueuingStep(s, a); }
    hide Do, PacketsOf, Queues;
    forall id: Id | id < |t.handlers| ==> t.handlers[id].phase in {New, Ready, Decided, Claimed, Locked}
      ensures PacketsOf(t.log, id) == []
    {
      StepSays(s, a, id);
      if id < |s.handlers| { EarlyStepsAreSilent(s, a, id); }
    }
  }

  lemma {:induction false} QuietAlways(actions: seq<Action>)
    ensures QuietBefore(Run(actions))
  {
    if actions != [] {
      QuietAlways(actions[..|actions| - 1]);
      QuietKept(Run(actions[..|actions| - 1]), actions[|actions| - 1]);
    }
  }

  /** The handler's open goes onto the queue at this point. */
  predicate Opens(s: State, id: Id) {
    At(s, id, Exec, Locked) || At(s, id, Interactive, Claimed)
  }

  /** The phase since, told from the actions since. */
  ghost predicate PhaseFits(s: State, h: Handler, after: seq<Action>, id: Id) {
    && id < |s.handlers| && s.handlers[id].kind == h.kind
    && (s.handlers[id].phase == Opened <==> Ending(after, id) == None)
    && (s.handlers[id].phase == Opened ==> s.handlers[id].dual == h.dual)
    && s.handlers[id].phase !in {New, Ready, Decided, Claimed, Locked}
  }

  lemma PhaseKept(s: State, h: Handler, after: seq<Action>, id: Id, a: Action)
    requires PhaseFits(s, h, after, id)
    ensures PhaseFits(Do(s, a), h, after + [a], id)
  {
    assert (after + [a])[..|after|] == after;
  }

  /** What a step adds to what the handler has said. */
  lemma SaysMore(s: State, h: Handler, after: seq<Action>, id: Id, a: Action)
    requires PhaseFits(s, h, after, id)
    ensures PacketsOf(Do(s, a).log, id)
            == PacketsOf(s.log, id) + if Ending(after, id) == None then SaysNow(h, id, a) else []
  {
    hide Do, PacketsOf, Ending;
    StepSays(s, a, id);
    if Actor(a) == Some(id) { ActorSays(s, h, id, a); }
  }

  lemma ActorSays(s: State, h: Handler, id: Id, a: Action)
    requires id < |s.handlers| && s.handlers[id].kind == h.kind && Actor(a) == Some(id)
    requires s.handlers[id].phase !in {New, Ready, Decided, Claimed, Locked}
    requires s.handlers[id].phase == Opened ==> s.handlers[id].dual == h.dual
    ensures var t := Do(s, a);
            var says := if s.handlers[id].phase == Opened then SaysNow(h, id, a) else [];
            && |t.log| == |s.log| + |says|
            && (says != [] ==> t.log[|s.log|].packet == says[0])
  {
  }

  lemma ScriptBegins(before: seq<Action>, id: Id)
    requires Opens(Run(before), id)
    ensures var s := Run(before + [Open(id)]);
            var h := Run(before).handlers[id];
            PhaseFits(s, h, [], id) && PacketsOf(s.log, id) == Script(h, id, [])
  {
    var s, h := Run(before), Run(before).handlers[id];
    RunSnoc(before, Open(id));
    QuietAlways(before);
    hide Run, PacketsOf, QuietBefore;
    assert PacketsOf(s.log, id) == [] by { QuietSoFar(s, id); }
    PacketsSnoc(s.log, Entry(id, SlotOf(h), OpenPacket(h)), id);
  }

  lemma QuietSoFar(s: State, id: Id)
    requires QuietBefore(s) && Opens(s, id)
    ensures PacketsOf(s.log, id) == []
  {
  }

  lemma {:induction false} ScriptFollows(before: seq<Action>, id: Id, after: seq<Action>)
    requires Opens(Run(before), id)
    ensures var s := Run(before + [Open(id)] + after);
            var h := Run(before).handlers[id];
            PhaseFits(s, h, after, id) && PacketsOf(s.log, id) == Script(h, id, after)
  {
    var start, h := before + [Open(id)], Run(before).handlers[id];
    if after == [] {
      assert start + after == start;
      ScriptBegins(before, id);
    } else {
      var front, a := after[..|after| - 1], after[|after| - 1];
      assert start + after == start + front + [a] && front + [a] == after;
      hide Do, Run, PacketsOf, Ending, PhaseFits, SaysNow, Opens;
      ScriptFollows(before, id, front);
      RunSnoc(start + front, a);
      PhaseKept(Run(start + front), h, front, id, a);
      SaysMore(Run(start + front), h, front, id, a);
    }
  }

  /**
   * In every interleaving, what a handler says from its open on is its open, what it was
   * given to pass on until its session ended - a console's own input in the dialect it read
   * the host to speak - and its close or its failure, in order and once each.
   */
  lemma HandlerSaysItsScript(before: seq<Action>, id: Id, after: seq<Action>)
    requires Opens(Run(before), id)
    ensures PacketsOf(Run(before + [Open(id)] + after).log, id) == Script(Run(before).handlers[id], id, after)
  {
    ScriptFollows(before, id, after);
  }

  // ----- Who gets through

  /** The latest value of the link flag. */
  function LinkNow(actions: seq<Action>): bool {
    actions != [] &&
    if actions[|actions| - 1].SetLink? then actions[|actions| - 1].up else LinkNow(actions[..|actions| - 1])
  }

  /** What the host-info cache holds. */
  function InfoNow(actions: seq<Action>): Option<bool> {
    if actions == [] then None
    else match actions[|actions| - 1]
      case SetInfo(dual) => Some(dual)
      case ClearInfo => None
      case _ => InfoNow(actions[..|actions| - 1])
  }

  lemma CacheStep(s: State, a: Action)
    ensures Do(s, a).linkUp == (if a.SetLink? then a.up else s.linkUp)
    ensures Do(s, a).info == match a case SetInfo(dual) => Some(dual) case ClearInfo => None case _ => s.info
  {
  }

  lemma {:induction false} CacheFollows(actions: seq<Action>)
    ensures Run(actions).linkUp == LinkNow(actions) && Run(actions).info == InfoNow(actions)
  {
    if actions != [] {
      CacheFollows(actions[..|actions| - 1]);
      CacheStep(Run(actions[..|actions| - 1]), actions[|actions| - 1]);
      hide Do;
    }
  }

  ghost predicate SomeConsole(s: State) {
    exists c: Id :: c < |s.handlers| && HoldsConsole(s.handlers[c])
  }

  ghost predicate SomeExec(s: State) {
    exists e: Id :: e < |s.handlers| && s.handlers[e].kind == Exec && Holds(s.handlers[e])
  }

  ghost predicate SomeLock(s: State) {
    exists e: Id :: e < |s.handlers| && HoldsLock(s.handlers[e])
  }

  /** The channel and the lock are never held by nobody. */
  ghost predicate NothingLeaks(s: State) {
    && (s.channel.interactive ==> SomeConsole(s))
    && (s.inflight.Some? ==> s.inflight.value < |s.handlers| && HoldsLock(s.handlers[s.inflight.value]))
  }

  lemma ActorMoves(s: State, a: Action, id: Id)
    requires Actor(a) == Some(id) && id < |s.handlers|
    ensures var h, t := s.handlers[id], Do(s, a);
            && id < |t.handlers|
            && (HoldsConsole(h) && !HoldsConsole(t.handlers[id]) ==> !t.channel.interactive)
            && (t.channel.interactive && !s.channel.interactive ==> HoldsConsole(t.handlers[id]))
            && (HoldsLock(h) && !HoldsLock(t.handlers[id]) ==> t.inflight == None)
            && (t.inflight != s.inflight && t.inflight.Some? ==> t.inflight == Some(id) && HoldsLock(t.handlers[id]))
  {
  }

  lemma NothingLeaksKept(s: State, a: Action)
    requires NothingLeaks(s) && OneConsole(s)
    ensures NothingLeaks(Do(s, a))
  {
    var t := Do(s, a);
    OthersStay(s, a);
    if Actor(a).Some? && Actor(a).value < |s.handlers| {
      ActorMoves(s, a, Actor(a).value);
    } else {
      NobodyActs(s, a);
    }
    hide Do, HoldsConsole, HoldsLock;
    if t.channel.interactive {
      if s.channel.interactive {
        var c: Id :| c < |s.handlers| && HoldsConsole(s.handlers[c]);
        assert HoldsConsole(t.handlers[c]);
      } else {
        assert HoldsConsole(t.handlers[Actor(a).value]);
      }
    }
  }

  lemma NobodyActs(s: State, a: Action)
    requires Actor(a).Some? ==> Actor(a).value >= |s.handlers|
    ensures Do(s, a).channel == s.channel && Do(s, a).inflight == s.inflight
  {
  }

  lemma {:induction false} NothingLeaksEver(actions: seq<Action>)
    ensures NothingLeaks(Run(actions))
  {
    if actions != [] {
      var front := actions[..|actions| - 1];
      NothingLeaksEver(front);
      ExclusiveAlways(front);
      hide Do, NothingLeaks, OneConsole, Counted, Apart, LockOwned;
      NothingLeaksKept(Run(front), actions[|actions| - 1]);
    }
  }

  lemma ExecsCounted(s: State)
    requires Counted(s)
    ensures s.channel.execRefs > 0 <==> SomeExec(s)
  {
    if e: Id :| e < |s.handlers| && s.handlers[e].kind == Exec && Holds(s.handlers[e]) { HolderCounted(s, e); }
    if s.channel.execRefs > 0 {
      var e :| e in ExecHolders(s);
    }
  }

  /**
   * In every interleaving, who gets past each check: the gate with the link up and, for a
   * console, the cache filled; the claim if nobody is in the way - for a console another
   * console, and an exec run unless it read the host as having two slots, for an exec run a
   * console on the same condition; the lock if no exec run has it.
   */
  lemma WhoGetsThrough(actions: seq<Action>, id: Id)
    requires id < |Run(actions).handlers|
    ensures id < |Do(Run(actions), Gate(id)).handlers| && id < |Do(Run(actions), Read(id)).handlers|
    ensures id < |Do(Run(actions), Claim(id)).handlers| && id < |Do(Run(actions), Lock(id)).handlers|
    ensures var s, h := Run(actions), Run(actions).handlers[id];
            && (h.phase == New ==>
                  Do(s, Gate(id)).handlers[id].phase
                  == if LinkNow(actions) && (h.kind == Exec || InfoNow(actions).Some?) then Ready else Done)
            && (h.phase == Ready ==>
                  Do(s, Read(id)).handlers[id] == h.(dual := InfoNow(actions) == Some(true), phase := Decided))
            && (h.phase == Decided ==>
                  Do(s, Claim(id)).handlers[id].phase
                  == if (h.kind == Exec && (h.dual || !SomeConsole(s)))
                        || (h.kind == Interactive && !SomeConsole(s) && (h.dual || !SomeExec(s)))
                     then Claimed else Done)
            && (h.phase == Claimed && h.kind == Exec ==>
                  Do(s, Lock(id)).handlers[id].phase == if SomeLock(s) then Claimed else Locked)
  {
    var s, h := Run(actions), Run(actions).handlers[id];
    CacheFollows(actions);
    ExclusiveAlways(actions);
    NothingLeaksEver(actions);
    OthersStay(s, Gate(id));
    OthersStay(s, Read(id));
    OthersStay(s, Claim(id));
    OthersStay(s, Lock(id));
    hide Run, Do, Exclusive, NothingLeaks, SomeConsole, SomeExec, SomeLock, LinkNow, InfoNow;
    if h.phase == New { PassesGate(s, id); }
    if h.phase == Ready { ReadsCache(s, id); }
    if h.phase == Decided { IsGranted(s, id); }
    if h.phase == Claimed && h.kind == Exec { GetsLock(s, id); }
  }

  lemma PassesGate(s: State, id: Id)
    requires id < |s.handlers| && s.handlers[id].phase == New
    ensures id < |Do(s, Gate(id)).handlers|
    ensures Do(s, Gate(id)).handlers[id].phase
            == if s.linkUp && (s.handlers[id].kind == Exec || s.info.Some?) then Ready else Done
  {
  }

  lemma ReadsCache(s: State, id: Id)
    requires id < |s.handlers| && s.handlers[id].phase == Ready
    ensures id < |Do(s, Read(id)).handlers|
    ensures Do(s, Read(id)).handlers[id] == s.handlers[id].(dual := s.info == Some(true), phase := Decided)
  {
  }

  lemma IsGranted(s: State, id: Id)
    requires Exclusive(s) && NothingLeaks(s) && id < |s.handlers| && s.handlers[id].phase == Decided
    ensures id < |Do(s, Claim(id)).handlers|
    ensures var h := s.handlers[id];
            Do(s, Claim(id)).handlers[id].phase
            == if (h.kind == Exec && (h.dual || !SomeConsole(s)))
                  || (h.kind == Interactive && !SomeConsole(s) && (h.dual || !SomeExec(s)))
               then Claimed else Done
  {
    ExecsCounted(s);
    assert s.channel.interactive <==> SomeConsole(s);
    hide Exclusive, NothingLeaks, SomeConsole, SomeExec;
  }

  lemma GetsLock(s: State, id: Id)
    requires Exclusive(s) && NothingLeaks(s) && At(s, id, Exec, Claimed)
    ensures id < |Do(s, Lock(id)).handlers|
    ensures Do(s, Lock(id)).handlers[id].phase == if SomeLock(s) then Claimed else Locked
  {
    assert s.inflight.Some? <==> SomeLock(s);
    hide Exclusive, NothingLeaks, SomeLock;
  }

  /** A handler's own steps, one after the other. */
  function Own(s: State, steps: seq<Action>): State {
    if steps == [] then s else Do(Own(s, steps[..|steps| - 1]), steps[|steps| - 1])
  }

  lemma OwnStep(s: State, steps: seq<Action>, a: Action) returns (more: seq<Action>)
    ensures more == steps + [a] && Own(s, more) == Do(Own(s, steps), a)
  {
    more := steps + [a];
    assert more[..|steps|] == steps;
  }

  ghost predicate AllBy(steps: seq<Action>, id: Id) {
    forall a | a in steps :: Actor(a) == Some(id)
  }

  /** Where a handler's way out leads next. */
  function WayOut(h: Handler, id: Id): Action {
    if h.phase == Opened then Close(id)
    else if h.phase == Claimed || h.phase == Locked then GiveUp(id)
    else if h.kind == Exec && h.phase == Closing then Unlock(id)
    else Unclaim(id)
  }

  function StepsOut(h: Handler): nat {
    if h.kind == Exec && h.phase in {Locked, Opened} then 3
    else if h.phase in {Claimed, Opened} || (h.kind == Exec && h.phase == Closing) then 2
    else if Holds(h) then 1 else 0
  }

  lemma WayOutLeads(s: State, id: Id)
    requires id < |s.handlers| && Holds(s.handlers[id])
    requires s.handlers[id].kind == Interactive ==> s.handlers[id].phase !in {Locked, Unlocked}
    ensures var h, t := s.handlers[id], Do(s, WayOut(s.handlers[id], id));
            && id < |t.handlers| && t.handlers[id].kind == h.kind && StepsOut(t.handlers[id]) + 1 == StepsOut(h)
            && (h.kind == Interactive ==> t.handlers[id].phase !in {Locked, Unlocked})
            && t.handlers[id].phase != Opened && (Holds(t.handlers[id]) || t.handlers[id].phase == Done)
            && t.log == s.log + (if h.phase == Opened then [Entry(id, SlotOf(h), ClosePacket(h))] else [])
  {
    assert s.log + [] == s.log;
  }

  lemma {:induction false} LeavesFrom(s: State, id: Id) returns (steps: seq<Action>)
    requires id < |s.handlers| && (Holds(s.handlers[id]) || s.handlers[id].phase == Done)
    requires s.handlers[id].kind == Interactive ==> s.handlers[id].phase !in {Locked, Unlocked}
    ensures AllBy(steps, id) && id < |Own(s, steps).handlers| && Own(s, steps).handlers[id].phase == Done
    ensures Own(s, steps).log
            == s.log + if s.handlers[id].phase == Opened
                       then [Entry(id, SlotOf(s.handlers[id]), ClosePacket(s.handlers[id]))] else []
    decreases if id < |s.handlers| then StepsOut(s.handlers[id]) else 0
  {
    steps := [];
    assert Own(s, []) == s && s.log + [] == s.log;
    if s.handlers[id].phase != Done {
      var a := WayOut(s.handlers[id], id);
      WayOutLeads(s, id);
      hide Do, Own, SlotOf, ClosePacket;
      var t := Do(s, a);
      var rest := LeavesFrom(t, id);
      var first := OwnStep(s, [], a);
      OwnSplit(s, first, rest);
      steps := first + rest;
      assert t.log + [] == t.log;
    }
  }

  lemma {:induction false} OwnSplit(s: State, a: seq<Action>, b: seq<Action>)
    ensures Own(s, a + b) == Own(Own(s, a), b)
  {
    if b == [] {
      assert a + b == a;
    } else {
      hide Do;
      assert (a + b)[..|a + b| - 1] == a + b[..|b| - 1];
      OwnSplit(s, a, b[..|b| - 1]);
    }
  }

  /** Only exec runs are ever at the phases of their lock. */
  lemma {:induction false} ConsolesHaveNoLock(actions: seq<Action>, id: Id)
    requires id < |Run(actions).handlers| && Run(actions).handlers[id].kind == Interactive
    ensures Run(actions).handlers[id].phase !in {Locked, Unlocked}
  {
    if actions != [] {
      var front, a := actions[..|actions| - 1], actions[|actions| - 1];
      OthersStay(Run(front), a);
      if id < |Run(front).handlers| {
        ActorKeepsKind(Run(front), a, id);
        ConsolesHaveNoLock(front, id);
        ConsoleStep(Run(front), a, id);
      }
      hide Do;
    }
  }

  lemma ConsoleStep(s: State, a: Action, id: Id)
    requires id < |s.handlers| && s.handlers[id].kind == Interactive && s.handlers[id].phase !in {Locked, Unlocked}
    ensures id < |Do(s, a).handlers| && Do(s, a).handlers[id].phase !in {Locked, Unlocked}
  {
  }

  /**
   * In every interleaving, wherever a handler is past its claim, it can leave by its own
   * steps, waiting for nobody: without a packet if its session is not open, and with just
   * its close if it is.
   */
  lemma HandlerCanLeave(actions: seq<Action>, id: Id) returns (steps: seq<Action>)
    requires id < |Run(actions).handlers| && Holds(Run(actions).handlers[id])
    ensures AllBy(steps, id)
    ensures var s, t := Run(actions), Own(Run(actions), steps);
            && id < |t.handlers| && t.handlers[id].phase == Done
            && t.log == s.log + if s.handlers[id].phase != Opened then []
                                else [Entry(id, SlotOf(s.handlers[id]), ClosePacket(s.handlers[id]))]
  {
    if Run(actions).handlers[id].kind == Interactive { ConsolesHaveNoLock(actions, id); }
    hide Run, Own;
    steps := LeavesFrom(Run(actions), id);
  }
}
