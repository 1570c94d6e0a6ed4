/**
 * `Service::drop` against the reconnecting worker and its reader thread, interleaved at
 * every lock section, atomic access and socket call. A call that can wait for the other
 * end of a socket leaves the state unchanged for as long as it waits.
 */
module ServiceDrop {
  import opened Wire

  /** `shut` is our side's `shutdown(Both)`, `closed` the peer's; `inbox` counts unread frames. */
  datatype Socket = Socket(shut: bool, closed: bool, inbox: nat)

  datatype WorkerPc =
    | Top         // `while alive`
    | Connecting
    | Installing  // the control section of `relay`
    | Greeting    // writing the connect frame
    | AwaitAck
    | Spawning    // cloning for the reader and starting it
    | LoopCheck   // `while alive && connected`
    | LoopBody
    | Writing
    | Closing     // about to shut its own socket
    | Joining     // waiting for the reader
    | Clearing    // `control = None`
    | Resetting
    | Recheck     // the second `alive` check
    | Parking
    | Parked
    | Finished

  datatype DropPc = Running | Stopped | Reached | Unparked | Returned

  datatype State = State(
    alive: bool, control: Option<nat>, sockets: seq<Socket>, token: bool,
    pc: WorkerPc, sock: nat, reading: bool, connected: bool, drop: DropPc)

  const START := State(true, None, [], false, Top, 0, false, false, Running)

  /** How a call whose result is not decided here went. */
  datatype Outcome = Good | Bad | TimedOut

  datatype Action =
    | Worker(outcome: Outcome)
    | Reader(outcome: Outcome)
    | Dropper
    | ListenerFails  // a listener thread gives up and stops the service
    | PeerSends(socket: nat)
    | PeerCloses(socket: nat)

  predicate HasSocket(s: State) { s.sock < |s.sockets| }

  function Current(s: State): Socket
    requires HasSocket(s)
  {
    s.sockets[s.sock]
  }

  function WithSocket(s: State, k: Socket): State
    requires HasSocket(s)
  {
    s.(sockets := s.sockets[s.sock := k])
  }

  predicate ReaderMayRun(pc: WorkerPc) {
    pc == LoopCheck || pc == LoopBody || pc == Writing || pc == Closing || pc == Joining
  }

  /** From the installation of a socket until `control` is cleared again. */
  predicate Installed(pc: WorkerPc) {
    pc == Greeting || pc == AwaitAck || pc == Spawning || ReaderMayRun(pc)
  }

  /** Where a step on an installed socket leads; nowhere while the call still waits. */
  function PcAfter(s: State, o: Outcome): WorkerPc
    requires HasSocket(s)
  {
    var k := Current(s);
    match s.pc
    case Greeting => if !k.shut && o == Good then AwaitAck else Clearing
    case AwaitAck =>
      if k.inbox > 0 then (if o == Good then Spawning else Clearing)
      else if k.shut || k.closed || o == TimedOut then Clearing
      else AwaitAck
    case Spawning => if o == Good then LoopCheck else Clearing
    case LoopCheck => if s.alive && s.connected then LoopBody else Closing
    case LoopBody =>
      if o == Good then Writing                       // a message to send
      else if o == Bad && !s.reading then Closing     // the reader has hung up
      else LoopCheck
    case Writing => if !k.shut && o == Good then LoopBody else LoopCheck
    case Closing => Joining
    case Joining => if s.reading then Joining else Clearing
    case pc => pc
  }

  /** What it does to the socket: take a frame from it, or shut it. */
  function SocketAfter(pc: WorkerPc, k: Socket): Socket {
    if pc == AwaitAck && k.inbox > 0 then k.(inbox := k.inbox - 1)
    else if pc == Closing then k.(shut := true)
    else k
  }

  function OnSocket(s: State, o: Outcome): State
    requires HasSocket(s)
  {
    var started := s.pc == Spawning && o == Good;
    var broken := s.pc == Writing && PcAfter(s, o) == LoopCheck;
    s.(pc := PcAfter(s, o), sockets := s.sockets[s.sock := SocketAfter(s.pc, Current(s))],
       reading := s.reading || started, connected := (s.connected || started) && !broken)
  }

  function WorkerStep(s: State, o: Outcome): State {
    match s.pc
    case Top => s.(pc := if s.alive then Connecting else Finished)
    case Connecting =>
      if o == Good
      then s.(sock := |s.sockets|, sockets := s.sockets + [Socket(false, false, 0)], pc := Installing)
      else s.(pc := Clearing)
    case Installing =>
      if s.alive && o == Good then s.(control := Some(s.sock), pc := Greeting) else s.(pc := Clearing)
    case Clearing => s.(control := None, pc := Resetting)
    case Resetting => s.(pc := Recheck)
    case Recheck => s.(pc := if s.alive then Parking else Finished)
    case Parking => s.(pc := Parked)
    case Parked => if s.token || o == TimedOut then s.(token := false, pc := Top) else s
    case Finished => s
    case _ => if HasSocket(s) then OnSocket(s, o) else s
  }

  function ReaderStep(s: State, o: Outcome): State {
    if !s.reading || !HasSocket(s) then s
    else
      var k := Current(s);
      if k.inbox > 0 then
        var t := WithSocket(s, k.(inbox := k.inbox - 1));
        if o == Good then t else t.(reading := false, connected := false)
      else if k.shut || k.closed then s.(reading := false, connected := false)
      else s
  }

  function DropStep(s: State): State {
    match s.drop
    case Running => s.(alive := false, drop := Stopped)
    case Stopped =>
      if s.control.Some? && s.control.value < |s.sockets|
      then s.(sockets := s.sockets[s.control.value := s.sockets[s.control.value].(shut := true)], drop := Reached)
      else s.(drop := Reached)
    case Reached => s.(token := true, drop := Unparked)
    case Unparked => if s.pc == Finished then s.(drop := Returned) else s
    case Returned => s
  }

  function Do(s: State, a: Action): State {
    match a
    case Worker(o) => WorkerStep(s, o)
    case Reader(o) => ReaderStep(s, o)
    case Dropper => DropStep(s)
    case ListenerFails => s.(alive := false)
    case PeerSends(i) =>
      if i < |s.sockets| && !s.sockets[i].shut
      then s.(sockets := s.sockets[i := s.sockets[i].(inbox := s.sockets[i].inbox + 1)]) else s
    case PeerCloses(i) =>
      if i < |s.sockets| then s.(sockets := s.sockets[i := s.sockets[i].(closed := true)]) else s
  }

  function Run(actions: seq<Action>): State {
    if actions == [] then START
    else Do(Run(actions[..|actions| - 1]), actions[|actions| - 1])
  }

  /** The three places that take the `control` lock, each one lock section. */
  class SharedControl {
    var state: State

    /** The stop check and the installation, together; cloning the socket may fail. */
    method InstallSocket(cloned: bool) returns (installed: bool)
      requires state.pc == Installing
      modifies this
      ensures state == WorkerStep(old(state), if cloned then Good else Bad)
      ensures installed == (old(state).alive && cloned)
    {
      if !state.alive {
        state := state.(pc := Clearing);
        return false;
      }
      if !cloned {
        state := state.(pc := Clearing);
        return false;
      }
      state := state.(control := Some(state.sock));
      state := state.(pc := Greeting);
      installed := true;
    }

    method ClearControl(o: Outcome)
      requires state.pc == Clearing
      modifies this
      ensures state == WorkerStep(old(state), o)
    {
      state := state.(control := None);
      state := state.(pc := Resetting);
    }

    method ShutDownInstalled()
      requires state.drop == Stopped && (state.control.Some? ==> state.control.value < |state.sockets|)
      modifies this
      ensures state == DropStep(old(state))
    {
      if state.control.Some? {
        var i := state.control.value;
        state := state.(sockets := state.sockets[i := state.sockets[i].(shut := true)]);
      }
      state := state.(drop := Reached);
    }
  }

  // ----- The invariant

  /** `drop` has left its control section. */
  predicate Swept(s: State) { s.drop == Reached || s.drop == Unparked || s.drop == Returned }

  /** The worker has read `alive` as true and not looked since. */
  predicate HeadingForPark(pc: WorkerPc) { pc == Parking || pc == Parked }

  predicate Inv(s: State) {
    && (s.alive ==> s.drop == Running)
    && (Installed(s.pc) || s.pc == Installing ==> HasSocket(s))
    && (Installed(s.pc) ==> s.control == Some(s.sock))
    && (s.control.Some? ==> s.control == Some(s.sock) && HasSocket(s) && (Installed(s.pc) || s.pc == Clearing))
    && (s.reading ==> ReaderMayRun(s.pc))
    && (s.pc == Joining ==> Current(s).shut)
    && (Swept(s) && Installed(s.pc) ==> Current(s).shut)
    && ((s.drop == Unparked || s.drop == Returned) && HeadingForPark(s.pc) ==> s.token)
    && (s.pc == Finished ==> !s.alive)
    && (s.drop == Returned ==> s.pc == Finished)
  }

  /** What a step on the socket leaves alone, and where it can lead. */
  lemma OnSocketLeaves(s: State, o: Outcome)
    requires HasSocket(s) && Installed(s.pc)
    ensures var t := OnSocket(s, o);
            && t.alive == s.alive && t.control == s.control && t.drop == s.drop && t.sock == s.sock
            && |t.sockets| == |s.sockets|
            && (Installed(t.pc) || t.pc == Clearing)
  {
  }

  lemma OnSocketShuts(s: State, o: Outcome)
    requires HasSocket(s) && Installed(s.pc)
    requires (s.reading ==> ReaderMayRun(s.pc)) && (s.pc == Joining ==> Current(s).shut)
    ensures var t := OnSocket(s, o);
            && HasSocket(t) && (Current(s).shut ==> Current(t).shut)
            && (t.reading ==> ReaderMayRun(t.pc))
            && (t.pc == Joining ==> Current(t).shut)
  {
    match s.pc
    case Greeting =>
    case AwaitAck =>
    case Spawning =>
    case LoopCheck =>
    case LoopBody =>
    case Writing =>
    case Closing =>
    case Joining =>
  }

  lemma StepOnSocket(s: State, o: Outcome)
    requires HasSocket(s) && Installed(s.pc)
    ensures WorkerStep(s, o) == OnSocket(s, o)
  {
    hide OnSocket;
  }

  lemma OnSocketKeeps(s: State, o: Outcome)
    requires Inv(s) && Installed(s.pc)
    ensures Inv(OnSocket(s, o))
  {
    hide OnSocket;
    OnSocketLeaves(s, o);
    OnSocketShuts(s, o);
  }

  lemma OffSocketKeeps(s: State, o: Outcome)
    requires Inv(s) && !Installed(s.pc)
    ensures Inv(WorkerStep(s, o))
  {
    hide OnSocket;
    match s.pc
    case Top =>
    case Connecting =>
    case Installing =>
    case Clearing =>
    case Resetting =>
    case Recheck =>
    case Parking =>
    case Parked =>
    case Finished =>
  }

  lemma WorkerKeeps(s: State, o: Outcome)
    requires Inv(s)
    ensures Inv(WorkerStep(s, o))
  {
    hide OnSocket, WorkerStep;
    if Installed(s.pc) {
      StepOnSocket(s, o);
      OnSocketKeeps(s, o);
    } else {
      OffSocketKeeps(s, o);
    }
  }

  lemma ReaderKeeps(s: State, o: Outcome)
    requires Inv(s)
    ensures Inv(ReaderStep(s, o))
  {
  }

  lemma DropKeeps(s: State)
    requires Inv(s)
    ensures Inv(DropStep(s))
  {
  }

  lemma InvKept(s: State, a: Action)
    requires Inv(s)
    ensures Inv(Do(s, a))
  {
    hide OnSocket, WorkerStep, ReaderStep, DropStep;
    match a
    case Worker(o) => WorkerKeeps(s, o);
    case Reader(o) => ReaderKeeps(s, o);
    case Dropper => DropKeeps(s);
    case ListenerFails =>
    case PeerSends(i) =>
    case PeerCloses(i) =>
  }

  lemma {:induction false} InvAlways(actions: seq<Action>)
    ensures Inv(Run(actions))
  {
    if actions != [] {
      InvAlways(actions[..|actions| - 1]);
      InvKept(Run(actions[..|actions| - 1]), actions[|actions| - 1]);
    }
  }

  /**
   * In every interleaving, once `drop` has left its control section, either the worker has
   * no socket installed and reads `alive` as false at its next check, or the socket it can
   * be waiting on, itself or through its reader, has been shut down.
   */
  lemma DropMissesNoSocket(actions: seq<Action>)
    requires Swept(Run(actions))
    ensures var s := Run(actions);
            && !s.alive
            && (Installed(s.pc) || s.reading ==> HasSocket(s) && Current(s).shut)
            && (!Installed(s.pc) ==> !s.reading && (s.pc == Clearing || s.control == None))
  {
    InvAlways(actions);
  }

  // ----- The worker ends without help from the peer or from a timer

  /** Steps left to the worker and its reader at most, once `alive` is false and the sweep is done. */
  function Rank(s: State): nat {
    var unread :=
      if HasSocket(s) && (s.reading || s.pc == Greeting || s.pc == AwaitAck || s.pc == Spawning)
      then Current(s).inbox + 1 else 0;
    unread +
    match s.pc
    case Finished => 0
    case Top => 1
    case Parked => 2
    case Parking => 3
    case Recheck => 1
    case Resetting => 2
    case Clearing => 3
    case Installing => 4
    case Connecting => 5
    case Joining => 4
    case Closing => 5
    case LoopCheck => 6
    case Writing => 7
    case LoopBody => 8
    case Spawning => 9
    case AwaitAck => 10
    case Greeting => 11
  }

  /** Who must move for the worker to get on. */
  function Mover(s: State, o: Outcome): Action {
    if s.pc == Joining && s.reading then Reader(o) else Worker(o)
  }

  lemma AckDescends(s: State, o: Outcome)
    requires Inv(s) && Swept(s) && s.pc == AwaitAck
    ensures OnSocket(s, o) == s || Rank(OnSocket(s, o)) < Rank(s)
  {
  }

  lemma OtherCallDescends(s: State, o: Outcome)
    requires Inv(s) && Swept(s) && Installed(s.pc) && s.pc != AwaitAck
    ensures OnSocket(s, o) == s || Rank(OnSocket(s, o)) < Rank(s)
  {
    assert s.sockets[s.sock := Current(s)] == s.sockets;
  }

  lemma SocketStepDescends(s: State, o: Outcome)
    requires Inv(s) && Swept(s) && Installed(s.pc)
    ensures OnSocket(s, o) == s || Rank(OnSocket(s, o)) < Rank(s)
  {
    hide OnSocket, Rank;
    if s.pc == AwaitAck { AckDescends(s, o); } else { OtherCallDescends(s, o); }
  }

  lemma WorkerDescends(s: State, o: Outcome)
    requires Inv(s) && Swept(s)
    ensures WorkerStep(s, o) == s || Rank(WorkerStep(s, o)) < Rank(s)
    ensures WorkerStep(s, o).drop == s.drop
  {
    hide OnSocket, WorkerStep, Rank;
    if Installed(s.pc) {
      StepOnSocket(s, o);
      SocketStepDescends(s, o);
      OnSocketLeaves(s, o);
    } else {
      OffSocketDescends(s, o);
    }
  }

  lemma OffSocketDescends(s: State, o: Outcome)
    requires Inv(s) && Swept(s) && !Installed(s.pc)
    ensures WorkerStep(s, o) == s || Rank(WorkerStep(s, o)) < Rank(s)
    ensures WorkerStep(s, o).drop == s.drop
  {
    hide OnSocket;
  }

  lemma ReaderDescends(s: State, o: Outcome)
    requires Inv(s) && Swept(s)
    ensures ReaderStep(s, o) == s || Rank(ReaderStep(s, o)) < Rank(s)
    ensures ReaderStep(s, o).drop == s.drop
  {
  }

  /** Whatever moves, and whatever the outcome, no step leads away from the end. */
  lemma NothingPutsItOff(s: State, a: Action)
    requires Inv(s) && Swept(s)
    ensures Swept(Do(s, a))
    ensures Rank(Do(s, a)) <= Rank(s)
    ensures a.Worker? || a.Reader? ==> Do(s, a) == s || Rank(Do(s, a)) < Rank(s)
  {
    hide OnSocket, WorkerStep, ReaderStep, Rank, DropStep;
    match a
    case Worker(o) => WorkerDescends(s, o);
    case Reader(o) => ReaderDescends(s, o);
    case Dropper => OthersDoNotDelay(s, a);
    case ListenerFails => OthersDoNotDelay(s, a);
    case PeerSends(_) => OthersDoNotDelay(s, a);
    case PeerCloses(_) => OthersDoNotDelay(s, a);
  }

  lemma OthersDoNotDelay(s: State, a: Action)
    requires Inv(s) && Swept(s) && !a.Worker? && !a.Reader?
    ensures Swept(Do(s, a)) && Rank(Do(s, a)) <= Rank(s)
  {
    hide Inv, Rank, Do;
    if a.PeerSends? || a.PeerCloses? { PeerDoesNotDelay(s, a); } else { OursDoNotDelay(s, a); }
  }

  lemma PeerDoesNotDelay(s: State, a: Action)
    requires Inv(s) && Swept(s) && (a.PeerSends? || a.PeerCloses?)
    ensures Swept(Do(s, a)) && Rank(Do(s, a)) <= Rank(s)
  {
  }

  lemma OursDoNotDelay(s: State, a: Action)
    requires Inv(s) && Swept(s) && (a.Dropper? || a.ListenerFails?)
    ensures Swept(Do(s, a)) && Rank(Do(s, a)) <= Rank(s)
  {
  }

  lemma SocketCallReturns(s: State, o: Outcome)
    requires Inv(s) && s.drop == Unparked && Installed(s.pc) && !(s.pc == Joining && s.reading)
    ensures OnSocket(s, o).pc != s.pc
  {
  }

  /** After the unpark no call waits, however it ends. */
  lemma NothingWaits(s: State, o: Outcome)
    requires Inv(s) && s.drop == Unparked && s.pc != Finished
    ensures Rank(Do(s, Mover(s, o))) < Rank(s) && Do(s, Mover(s, o)).drop == Unparked
  {
    NothingPutsItOff(s, Mover(s, o));
    hide OnSocket, Rank;
    if Installed(s.pc) && Mover(s, o).Worker? {
      SocketCallReturns(s, o);
    }
  }

  /** The worker and its reader on their own, each call ending as the next outcome says. */
  function Drive(s: State, outcomes: seq<Outcome>): State
    decreases |outcomes|
  {
    if outcomes == [] then s else Drive(Do(s, Mover(s, outcomes[0])), outcomes[1..])
  }

  lemma {:induction false} FinishesWithinRank(s: State, outcomes: seq<Outcome>)
    requires Inv(s) && s.drop == Unparked && |outcomes| >= Rank(s)
    ensures Drive(s, outcomes).pc == Finished && Drive(s, outcomes).drop == Unparked
    decreases |outcomes|
  {
    if outcomes != [] {
      if s.pc == Finished { assert Do(s, Mover(s, outcomes[0])) == s; }
      hide Do, Inv, Rank, Mover;
      InvKept(s, Mover(s, outcomes[0]));
      if s.pc != Finished { NothingWaits(s, outcomes[0]); }
      FinishesWithinRank(Do(s, Mover(s, outcomes[0])), outcomes[1..]);
    }
  }

  /**
   * From every reachable point after the unpark the worker ends, within a number of steps
   * fixed there, with the peer silent, no timer firing, and every call ending either way;
   * then the join returns.
   */
  lemma DropReturns(actions: seq<Action>, outcomes: seq<Outcome>)
    requires Run(actions).drop == Unparked && |outcomes| >= Rank(Run(actions))
    ensures Do(Drive(Run(actions), outcomes), Dropper).drop == Returned
  {
    InvAlways(actions);
    FinishesWithinRank(Run(actions), outcomes);
  }

  function Rest(s: State, actions: seq<Action>): State {
    if actions == [] then s else Do(Rest(s, actions[..|actions| - 1]), actions[|actions| - 1])
  }

  lemma NothingInstalledBy(s: State, a: Action)
    requires Inv(s) && Swept(s)
    ensures var t := Do(s, a);
            && (t.control == None || t.control == s.control)
            && |t.sockets| == |s.sockets| + (if s.pc == Connecting && t.pc == Installing then 1 else 0)
            && (t.pc == Connecting ==> s.pc == Connecting)
  {
    hide OnSocket, ReaderStep;
    if a.Worker? && Installed(s.pc) { OnSocketLeaves(s, a.outcome); }
    if a.Reader? { ReaderLeaves(s, a.outcome); }
  }

  lemma ReaderLeaves(s: State, o: Outcome)
    ensures var t := ReaderStep(s, o);
            t.control == s.control && t.pc == s.pc && |t.sockets| == |s.sockets|
  {
  }

  /** Once swept, no socket is ever installed again and no relay is begun from the top. */
  lemma {:induction false} NothingInstalledAfterTheSweep(s: State, actions: seq<Action>)
    requires Inv(s) && Swept(s)
    ensures var t := Rest(s, actions);
            && Inv(t) && Swept(t) && Rank(t) <= Rank(s)
            && (t.control == None || t.control == s.control)
            && |s.sockets| <= |t.sockets| <= |s.sockets| + (if s.pc == Connecting then 1 else 0)
            && (t.pc == Connecting ==> s.pc == Connecting && |t.sockets| == |s.sockets|)
  {
    if actions != [] {
      var u, a := Rest(s, actions[..|actions| - 1]), actions[|actions| - 1];
      NothingInstalledAfterTheSweep(s, actions[..|actions| - 1]);
      InvKept(u, a);
      NothingPutsItOff(u, a);
      NothingInstalledBy(u, a);
    }
  }

  // ----- Until then it keeps coming back

  /** The shortest way back to the top: every call fails, and a wait ends by its timer. */
  function HomeStep(s: State): Action {
    match s.pc
    case AwaitAck => Worker(TimedOut)
    case Parked => Worker(TimedOut)
    case LoopBody => Worker(if s.reading then Good else Bad)
    case Joining => if s.reading then Reader(Bad) else Worker(Bad)
    case _ => Worker(Bad)
  }

  function HomeRank(s: State): nat {
    match s.pc
    case Top => 0
    case Parked => 1
    case Parking => 2
    case Recheck => 3
    case Resetting => 4
    case Clearing => 5
    case Joining => if s.reading then 7 else 6
    case Closing => 8
    case LoopCheck => if s.connected then 12 else 9
    case Writing => 10
    case LoopBody => 11
    case _ => 6
  }

  lemma HomeStepDescends(s: State)
    requires Inv(s) && s.alive && s.pc != Top
    ensures var t := Do(s, HomeStep(s));
            HomeRank(t) < HomeRank(s) && t.alive && |t.sockets| == |s.sockets| && t.drop == s.drop
  {
  }

  /** Only the worker, its reader and the peer move. */
  predicate OnlyTheWorker(steps: seq<Action>) {
    forall a | a in steps :: a.Worker? || a.Reader? || a.PeerSends?
  }

  lemma RestSnoc(s: State, steps: seq<Action>, a: Action)
    ensures Rest(s, steps + [a]) == Do(Rest(s, steps), a)
    ensures OnlyTheWorker(steps) && (a.Worker? || a.Reader? || a.PeerSends?) ==> OnlyTheWorker(steps + [a])
  {
    assert (steps + [a])[..|steps|] == steps;
  }

  lemma {:induction false} RestSplit(s: State, a: seq<Action>, b: seq<Action>)
    ensures Rest(s, a + b) == Rest(Rest(s, a), b)
  {
    if b == [] {
      assert a + b == a;
    } else {
      hide Do;
      assert (a + b)[..|a + b| - 1] == a + b[..|b| - 1];
      RestSplit(s, a, b[..|b| - 1]);
    }
  }

  lemma {:induction false} ComesHome(s: State) returns (steps: seq<Action>)
    requires Inv(s) && s.alive
    ensures OnlyTheWorker(steps)
    ensures var t := Rest(s, steps);
            Inv(t) && t.pc == Top && t.alive && |t.sockets| == |s.sockets| && t.drop == s.drop
    decreases HomeRank(s)
  {
    if s.pc == Top {
      steps := [];
    } else {
      var a := HomeStep(s);
      var t := Do(s, a);
      HomeStepDescends(s);
      InvKept(s, a);
      assert a.Worker? || a.Reader?;
      hide Do, Inv, HomeRank, HomeStep;
      var rest := ComesHome(t);
      assert Rest(s, [a]) == t by { assert [a][..0] == []; }
      RestSplit(s, [a], rest);
      steps := [a] + rest;
    }
  }

  lemma Follow(s: State, steps: seq<Action>, a: Action) returns (more: seq<Action>)
    requires OnlyTheWorker(steps) && (a.Worker? || a.Reader? || a.PeerSends?)
    ensures OnlyTheWorker(more) && Rest(s, more) == Do(Rest(s, steps), a)
  {
    RestSnoc(s, steps, a);
    more := steps + [a];
  }

  /** From the top the worker connects, installs the socket and waits for the answer. */
  lemma Connects(s: State) returns (steps: seq<Action>)
    requires s.pc == Top && s.alive
    ensures OnlyTheWorker(steps)
    ensures Rest(s, steps)
            == s.(sockets := s.sockets + [Socket(false, false, 0)], sock := |s.sockets|,
                  control := Some(|s.sockets|), pc := AwaitAck)
  {
    assert Rest(s, []) == s && OnlyTheWorker([]);
    hide Rest, OnlyTheWorker;
    steps := Follow(s, [], Worker(Good));
    steps := Follow(s, steps, Worker(Good));
    steps := Follow(s, steps, Worker(Good));
    steps := Follow(s, steps, Worker(Good));
  }

  lemma AnswerIsRead(s: State)
    requires s.pc == AwaitAck && HasSocket(s) && Current(s) == Socket(false, false, 0)
    ensures Do(Do(s, PeerSends(s.sock)), Worker(Good)) == s.(pc := Spawning)
  {
    var t := Do(s, PeerSends(s.sock));
    assert t == WithSocket(s, Socket(false, false, 1));
    StepOnSocket(t, Good);
    assert s.sockets[s.sock := Socket(false, false, 1)][s.sock := Socket(false, false, 0)] == s.sockets;
    hide WorkerStep;
  }

  lemma LoopBegins(s: State)
    requires s.pc == Spawning && s.alive && HasSocket(s)
    ensures Do(Do(s, Worker(Good)), Worker(Good)) == s.(pc := LoopBody, reading := true, connected := true)
  {
    assert s.sockets[s.sock := Current(s)] == s.sockets;
    var t := s.(pc := LoopCheck, reading := true, connected := true);
    StepOnSocket(s, Good);
    StepOnSocket(t, Good);
    hide WorkerStep;
    assert OnSocket(s, Good) == t;
  }

  /** Once the peer has answered, the relay loop runs with its reader. */
  lemma RelayRuns(s: State) returns (steps: seq<Action>)
    requires s.pc == AwaitAck && s.alive && HasSocket(s) && Current(s) == Socket(false, false, 0)
    ensures OnlyTheWorker(steps)
    ensures Rest(s, steps) == s.(pc := LoopBody, reading := true, connected := true)
  {
    assert Rest(s, []) == s && OnlyTheWorker([]);
    AnswerIsRead(s);
    LoopBegins(s.(pc := Spawning));
    hide Rest, OnlyTheWorker, Do;
    steps := Follow(s, [], PeerSends(s.sock));
    steps := Follow(s, steps, Worker(Good));
    steps := Follow(s, steps, Worker(Good));
    steps := Follow(s, steps, Worker(Good));
  }

  /**
   * As long as the service is alive, whatever has happened, the worker can come back: by
   * its own and its reader's steps it leaves a broken connection, makes a new one, and
   * relays on it as soon as the peer answers.
   */
  lemma AliveReconnects(actions: seq<Action>) returns (steps: seq<Action>)
    requires Run(actions).alive
    ensures OnlyTheWorker(steps)
    ensures var s, t := Run(actions), Rest(Run(actions), steps);
            && t.alive && t.pc == LoopBody && t.reading && t.connected
            && |t.sockets| == |s.sockets| + 1 && t.control == Some(|s.sockets|)
  {
    var s := Run(actions);
    InvAlways(actions);
    hide Run, Inv, Rest, OnlyTheWorker, Do;
    var home := ComesHome(s);
    var top := Rest(s, home);
    var connect := Connects(top);
    var waiting := Rest(top, connect);
    var relay := RelayRuns(waiting);
    RestSplit(s, home, connect);
    RestSplit(s, home + connect, relay);
    BothOnly(home, connect);
    BothOnly(home + connect, relay);
    steps := home + connect + relay;
  }

  lemma BothOnly(a: seq<Action>, b: seq<Action>)
    requires OnlyTheWorker(a) && OnlyTheWorker(b)
    ensures OnlyTheWorker(a + b)
  {
  }

  // ----- The drop itself, and the reader

  function DropSteps(actions: seq<Action>): nat {
    if actions == [] then 0
    else DropSteps(actions[..|actions| - 1]) + (if actions[|actions| - 1].Dropper? then 1 else 0)
  }

  /** Up to the join, each of drop's own steps takes it on, whatever the others are at. */
  lemma {:induction false} DropWaitsOnlyToJoin(actions: seq<Action>)
    ensures var s, n := Run(actions), DropSteps(actions);
            && (n == 0 <==> s.drop == Running) && (n == 1 <==> s.drop == Stopped) && (n == 2 <==> s.drop == Reached)
            && (n > 0 ==> !s.alive)
            && (s.drop == Returned ==> s.pc == Finished)
  {
    InvAlways(actions);
    if actions != [] {
      var front, a := actions[..|actions| - 1], actions[|actions| - 1];
      DropWaitsOnlyToJoin(front);
      OnlyDropMovesDrop(Run(front), a);
      hide Do, Inv;
    }
  }

  lemma OnlyDropMovesDrop(s: State, a: Action)
    ensures !a.Dropper? ==> Do(s, a).drop == s.drop && (Do(s, a).alive ==> s.alive)
    ensures a.Dropper? ==>
              match s.drop
              case Running => Do(s, a).drop == Stopped && !Do(s, a).alive
              case Stopped => Do(s, a).drop == Reached && Do(s, a).alive == s.alive
              case Reached => Do(s, a).drop == Unparked && Do(s, a).alive == s.alive
              case Unparked =>
                Do(s, a).drop == (if s.pc == Finished then Returned else Unparked) && Do(s, a).alive == s.alive
              case Returned => Do(s, a) == s
  {
  }

  /**
   * The reader takes one frame at a time, and ends, marking the connection broken, exactly
   * on a bad frame, or with no frame left on a socket that either side has closed.
   */
  lemma ReaderEndsIff(actions: seq<Action>, o: Outcome)
    requires Run(actions).reading
    ensures HasSocket(Run(actions))
    ensures var s, k := Run(actions), Current(Run(actions));
            var t := Do(s, Reader(o));
            && HasSocket(t) && Current(t) == k.(inbox := if k.inbox > 0 then k.inbox - 1 else 0)
            && (t.reading <==> if k.inbox > 0 then o == Good else !k.shut && !k.closed)
            && (t.connected <==> s.connected && t.reading)
  {
    InvAlways(actions);
    hide Run;
  }

  /** The reader, given good frames, reads what is left and ends. */
  lemma {:induction false} ReaderDrains(s: State) returns (steps: seq<Action>)
    requires s.reading && HasSocket(s) && Current(s).closed
    ensures OnlyTheWorker(steps)
    ensures Rest(s, steps) == WithSocket(s, Current(s).(inbox := 0)).(reading := false, connected := false)
    decreases Current(s).inbox
  {
    var t := Do(s, Reader(Good));
    if Current(s).inbox == 0 {
      steps := [Reader(Good)];
      assert steps[..0] == [] && s.sockets[s.sock := Current(s)] == s.sockets;
      assert Rest(s, steps) == Do(Rest(s, []), Reader(Good));
    } else {
      var rest := ReaderDrains(t);
      assert [Reader(Good)][..0] == [];
      assert Rest(s, [Reader(Good)]) == Do(Rest(s, []), Reader(Good)) == t;
      RestSplit(s, [Reader(Good)], rest);
      steps := [Reader(Good)] + rest;
    }
  }

  /**
   * A connection that the peer has closed is left, whether or not anybody stops the service,
   * and without a timer: the reader reads what is left and ends, and the worker clears up.
   */
  lemma PeerCloseIsNoticed(actions: seq<Action>, o: Outcome) returns (steps: seq<Action>)
    requires var s := Run(actions); s.pc == LoopCheck && s.reading && HasSocket(s) && Current(s).closed
    ensures OnlyTheWorker(steps) && Rest(Run(actions), steps).pc == Clearing
  {
    var s := Run(actions);
    hide Run, Rest, OnlyTheWorker;
    steps := ReaderDrains(s);
    steps := Follow(s, steps, Worker(o));
    steps := Follow(s, steps, Worker(o));
    steps := Follow(s, steps, Worker(o));
  }

  // ----- When the worker waits, and when it leaves a connection

  /**
   * The worker's own step changes nothing exactly while it waits: for an answer on a socket
   * that nobody has closed, for its reader, or parked with no token; and when it has ended.
   */
  lemma WaitsIff(actions: seq<Action>, o: Outcome)
    ensures var s := Run(actions);
            Do(s, Worker(o)) == s
            <==> || (s.pc == AwaitAck && HasSocket(s) && Current(s) == Socket(false, false, 0) && o != TimedOut)
                 || (s.pc == Joining && s.reading)
                 || (s.pc == Parked && !s.token && o != TimedOut)
                 || s.pc == Finished
    ensures Run(actions).pc == Parked ==>
              Do(Run(actions), Worker(o)) in {Run(actions), Run(actions).(token := false, pc := Top)}
  {
    InvAlways(actions);
    var s := Run(actions);
    hide Run;
    if HasSocket(s) { assert s.sockets[s.sock := Current(s)] == s.sockets; }
  }

  /** On a socket that has been shut no write goes through: the worker gives it up, however the call ends. */
  lemma ShutSocketIsGivenUp(actions: seq<Action>, o: Outcome)
    requires var s := Run(actions); HasSocket(s) && Current(s).shut && (s.pc == Greeting || s.pc == Writing)
    ensures var s, t := Run(actions), Do(Run(actions), Worker(o));
            if s.pc == Greeting then t.pc == Clearing else t.pc == LoopCheck && !t.connected
  {
  }

  predicate InLoop(pc: WorkerPc) { pc == LoopCheck || pc == LoopBody || pc == Writing }

  /** A write has failed since the relay loop was entered. */
  function WriteFailed(actions: seq<Action>): bool {
    actions != [] &&
    var s, a := Run(actions[..|actions| - 1]), actions[|actions| - 1];
    if a.Worker? && s.pc == Spawning then false
    else if a.Worker? && s.pc == Writing && HasSocket(s) then
      WriteFailed(actions[..|actions| - 1]) || a.outcome != Good || Current(s).shut
    else WriteFailed(actions[..|actions| - 1])
  }

  ghost predicate MarkFits(s: State, failed: bool) {
    && (s.connected ==> s.reading)
    && (InLoop(s.pc) ==> (s.connected <==> s.reading && !failed))
    && (s.pc == Writing || s.pc == LoopBody ==> !failed)
  }

  lemma {:induction false} ConnectedFollows(actions: seq<Action>)
    ensures MarkFits(Run(actions), WriteFailed(actions))
  {
    if actions != [] {
      var front, a := actions[..|actions| - 1], actions[|actions| - 1];
      ConnectedFollows(front);
      InvAlways(front);
      MarkKept(Run(front), a, WriteFailed(front));
    }
  }

  lemma MarkKept(s: State, a: Action, failed: bool)
    requires Inv(s) && MarkFits(s, failed)
    ensures MarkFits(Do(s, a), if a.Worker? && s.pc == Spawning then false
                               else if a.Worker? && s.pc == Writing && HasSocket(s)
                               then failed || a.outcome != Good || Current(s).shut
                               else failed)
  {
    if a.Worker? {
      if Installed(s.pc) { StepOnSocket(s, a.outcome); } else { MarkKeptOff(s, a.outcome, failed); }
      hide WorkerStep;
    } else {
      MarkKeptByOthers(s, a, failed);
      hide Do;
    }
  }

  lemma MarkKeptOff(s: State, o: Outcome, failed: bool)
    requires Inv(s) && MarkFits(s, failed) && !Installed(s.pc)
    ensures MarkFits(WorkerStep(s, o), failed)
  {
    hide OnSocket;
  }

  lemma MarkKeptByOthers(s: State, a: Action, failed: bool)
    requires MarkFits(s, failed) && !a.Worker?
    ensures MarkFits(Do(s, a), failed)
  {
    if a.Reader? { ReaderMarks(s, a.outcome); } else { OthersLeaveMarks(s, a); }
    hide Do;
  }

  lemma ReaderMarks(s: State, o: Outcome)
    ensures var t := Do(s, Reader(o));
            t.pc == s.pc && ((t.reading == s.reading && t.connected == s.connected) || (!t.reading && !t.connected))
  {
  }

  lemma OthersLeaveMarks(s: State, a: Action)
    requires !a.Worker? && !a.Reader?
    ensures Do(s, a).pc == s.pc && Do(s, a).reading == s.reading && Do(s, a).connected == s.connected
  {
  }

  /**
   * The relay loop is left exactly when its check finds the service stopped, the reader
   * ended or a write failed, or when there is nothing to read and the reader has ended; a
   * message is written only if there is one, and a failed write leads back to the check.
   */
  lemma LoopIsLeftIff(actions: seq<Action>, o: Outcome)
    requires InLoop(Run(actions).pc)
    ensures var s, t := Run(actions), Do(Run(actions), Worker(o));
            && HasSocket(s)
            && (t.pc == Closing
                <==> || (s.pc == LoopCheck && (!s.alive || !s.reading || WriteFailed(actions)))
                     || (s.pc == LoopBody && o == Bad && !s.reading))
            && (t.pc == Writing <==> s.pc == LoopBody && o == Good)
            && (s.pc == Writing ==> t.pc == if o == Good && !Current(s).shut then LoopBody else LoopCheck)
            && (t.pc == Closing || InLoop(t.pc))
  {
    InvAlways(actions);
    ConnectedFollows(actions);
    hide Run, WriteFailed;
  }
}
