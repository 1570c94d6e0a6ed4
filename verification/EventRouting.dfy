/** Which consumer a shell event from the host reaches (`ShellSlots`, `deliver`, `route`). */
module EventRouting {
  import opened Wire
  import opened ShellChannel

  type Event = nat

  /**
   * Where the reader stands with an event: done with it, turned away by the slot it is
   * addressed to, or about to try the other one.
   */
  datatype Routing = Resting | Missed(kind: Kind, event: Event) | Armed(kind: Kind, event: Event)

  /** Consumers are numbered in order of installation; `queues[c]` is what was sent to `c`. */
  datatype Slots = Slots(exec: Option<nat>, pty: Option<nat>, legacyFallback: bool, routing: Routing,
                         queues: seq<seq<Event>>)

  const EMPTY_SLOTS: Slots := Slots(None, None, false, Resting, [])

  function Slot(s: Slots, kind: Kind): Option<nat> {
    if kind == Exec then s.exec else s.pty
  }

  function SetSlot(s: Slots, kind: Kind, c: Option<nat>): Slots {
    if kind == Exec then s.(exec := c) else s.(pty := c)
  }

  function Other(kind: Kind): Kind {
    if kind == Exec then Interactive else Exec
  }

  ghost predicate Sane(s: Slots) {
    && (s.exec.Some? ==> s.exec.value < |s.queues|)
    && (s.pty.Some? ==> s.pty.value < |s.queues|)
    && (s.exec.Some? ==> s.exec != s.pty)
  }

  function Delivered(s: Slots, kind: Kind, e: Event): Slots {
    var c := Slot(s, kind);
    if c.Some? && c.value < |s.queues|
    then s.(queues := s.queues[c.value := s.queues[c.value] + [e]])
    else s
  }

  // The three steps of `route`: the slot the opcode names, the flag, the other slot.

  function Offered(s: Slots, kind: Kind, e: Event): Slots {
    if s.routing != Resting then s
    else if Slot(s, kind).Some? then Delivered(s, kind, e)
    else s.(routing := Missed(kind, e))
  }

  function Loaded(s: Slots): Slots {
    match s.routing
    case Missed(kind, e) => s.(routing := if s.legacyFallback then Armed(kind, e) else Resting)
    case _ => s
  }

  function FellBack(s: Slots): Slots {
    match s.routing
    case Armed(kind, e) => Delivered(s, Other(kind), e).(routing := Resting)
    case _ => s
  }

  /** Where an event of this kind goes if nothing happens in between. */
  function Destination(s: Slots, kind: Kind): Option<nat> {
    if Slot(s, kind).Some? then Slot(s, kind)
    else if s.legacyFallback then Slot(s, Other(kind))
    else None
  }

  function Routed(s: Slots, kind: Kind, e: Event): Slots {
    var d := Destination(s, kind);
    if d.Some? && d.value < |s.queues|
    then s.(queues := s.queues[d.value := s.queues[d.value] + [e]])
    else s
  }

  function Installed(s: Slots, kind: Kind): Slots {
    SetSlot(s, kind, Some(|s.queues|)).(queues := s.queues + [[]])
  }

  class ShellSlots {
    var exec: Option<nat>
    var pty: Option<nat>
    var legacyFallback: bool
    var routing: Routing
    var queues: seq<seq<Event>>

    ghost function View(): Slots
      reads this
    {
      Slots(exec, pty, legacyFallback, routing, queues)
    }

    ghost predicate Valid()
      reads this
    {
      Sane(View())
    }

    constructor ()
      ensures Valid() && View() == EMPTY_SLOTS
    {
      exec, pty, legacyFallback, routing, queues := None, None, false, Resting, [];
    }

    /** `ExecSlotGuard::install`: a new channel replaces whatever the slot held. */
    method Install(kind: Kind) returns (c: nat)
      requires Valid()
      modifies this
      ensures Valid() && View() == Installed(old(View()), kind) && c == |old(queues)|
    {
      c := |queues|;
      queues := queues + [[]];
      if kind == Exec { exec := Some(c); } else { pty := Some(c); }
    }

    /** Dropping a guard empties the slot without asking who is in it. */
    method DropGuard(kind: Kind)
      requires Valid()
      modifies this
      ensures Valid() && View() == SetSlot(old(View()), kind, None)
    {
      if kind == Exec { exec := None; } else { pty := None; }
    }

    method Handshake(supportsPtySlot: bool)
      requires Valid()
      modifies this`legacyFallback
      ensures Valid() && legacyFallback == !supportsPtySlot
    {
      legacyFallback := !supportsPtySlot;
    }

    method ForgetHostGeneration()
      requires Valid()
      modifies this`legacyFallback
      ensures Valid() && !legacyFallback
    {
      legacyFallback := false;
    }

    /** True when the slot had a consumer; the event is then on its queue. */
    method Deliver(kind: Kind, e: Event) returns (taken: bool)
      requires Valid()
      modifies this`queues
      ensures Valid() && taken == Slot(old(View()), kind).Some?
      ensures View() == Delivered(old(View()), kind, e)
    {
      var slot := if kind == Exec then exec else pty;
      if slot.None? {
        return false;
      }
      queues := queues[slot.value := queues[slot.value] + [e]];
      taken := true;
    }

    /** First step: one lock section on the slot the opcode names. */
    method Offer(kind: Kind, e: Event)
      requires Valid() && routing == Resting
      modifies this`queues, this`routing
      ensures Valid() && View() == Offered(old(View()), kind, e)
    {
      var taken := Deliver(kind, e);
      if !taken { routing := Missed(kind, e); }
    }

    /** Second step: one load of the flag. */
    method LoadFallback()
      requires Valid()
      modifies this`routing
      ensures Valid() && View() == Loaded(old(View()))
    {
      if routing.Missed? {
        routing := if legacyFallback then Armed(routing.kind, routing.event) else Resting;
      }
    }

    /** Third step: one lock section on the other slot. */
    method FallBack()
      requires Valid()
      modifies this`queues, this`routing
      ensures Valid() && View() == FellBack(old(View()))
    {
      if routing.Armed? {
        var taken := Deliver(Other(routing.kind), routing.event);
        routing := Resting;
      }
    }

    /** Uninterrupted, the three steps deliver to the first consumer willing to take it. */
    method Route(kind: Kind, e: Event)
      requires Valid() && routing == Resting
      modifies this`queues, this`routing
      ensures Valid() && View() == Routed(old(View()), kind, e)
    {
      Offer(kind, e);
      LoadFallback();
      FallBack();
    }
  }

  // ----- Runs

  datatype Op =
    | Install(kind: Kind)
    | Drop(kind: Kind)
    | Handshake(legacy: bool)
    | Forget
    | Offer(kind: Kind, event: Event)
    | Load
    | FallBack

  function Apply(s: Slots, op: Op): Slots {
    match op
    case Install(kind) => Installed(s, kind)
    case Drop(kind) => SetSlot(s, kind, None)
    case Handshake(legacy) => s.(legacyFallback := legacy)
    case Forget => s.(legacyFallback := false)
    case Offer(kind, e) => Offered(s, kind, e)
    case Load => Loaded(s)
    case FallBack => FellBack(s)
  }

  function Run(ops: seq<Op>): Slots {
    if ops == [] then EMPTY_SLOTS else Apply(Run(ops[..|ops| - 1]), ops[|ops| - 1])
  }

  function Installs(ops: seq<Op>): nat {
    if ops == [] then 0 else Installs(ops[..|ops| - 1]) + (if ops[|ops| - 1].Install? then 1 else 0)
  }

  /** Position `p` installs consumer `c` in the slot `kind`. */
  ghost predicate InstalledAt(ops: seq<Op>, p: nat, c: nat, kind: Kind) {
    p < |ops| && ops[p] == Install(kind) && Installs(ops[..p]) == c
  }

  /** An install or a guard drop on the slot ends the stay of whoever is in it. */
  predicate Evicts(op: Op, kind: Kind) {
    (op.Install? || op.Drop?) && op.kind == kind
  }

  /** Nothing evicted the consumer installed at `p` before position `q`. */
  ghost predicate StillIn(ops: seq<Op>, p: nat, q: nat, kind: Kind)
    requires q <= |ops|
  {
    forall j | p < j < q :: !Evicts(ops[j], kind)
  }

  /** The event the reader takes up with this step, if it is done with the one before. */
  function TakenUp(s: Slots, op: Op): seq<(Kind, Event)> {
    if op.Offer? && s.routing == Resting then [(op.kind, op.event)] else []
  }

  /** The events of one kind taken up between two positions, in order. */
  function OfKind(ops: seq<Op>, from: nat, to: nat, kind: Kind): seq<Event>
    requires to <= |ops|
  {
    if to <= from then []
    else
      var taken := TakenUp(Run(ops[..to - 1]), ops[to - 1]);
      OfKind(ops, from, to - 1, kind) + (if taken != [] && taken[0].0 == kind then [taken[0].1] else [])
  }

  /** All events taken up between two positions, in order. */
  function OfAnyKind(ops: seq<Op>, from: nat, to: nat): seq<Event>
    requires to <= |ops|
  {
    if to <= from then []
    else
      var taken := TakenUp(Run(ops[..to - 1]), ops[to - 1]);
      OfAnyKind(ops, from, to - 1) + (if taken != [] then [taken[0].1] else [])
  }

  lemma SaneStep(s: Slots, op: Op)
    requires Sane(s)
    ensures Sane(Apply(s, op)) && |Apply(s, op).queues| == |s.queues| + (if op.Install? then 1 else 0)
  {
  }

  lemma {:induction false} RunSane(ops: seq<Op>)
    ensures Sane(Run(ops)) && |Run(ops).queues| == Installs(ops)
  {
    if ops != [] {
      hide Apply, Sane;
      RunSane(ops[..|ops| - 1]);
      SaneStep(Run(ops[..|ops| - 1]), ops[|ops| - 1]);
    }
  }

  /** A consumer already there keeps its slot unless evicted, and takes no other. */
  lemma SlotAfter(s: Slots, op: Op, c: nat, kind: Kind)
    requires c < |s.queues|
    ensures c < |Apply(s, op).queues|
    ensures Slot(Apply(s, op), kind) == Some(c) <==> Slot(s, kind) == Some(c) && !Evicts(op, kind)
    ensures Slot(Apply(s, op), Other(kind)) == Some(c) ==> Slot(s, Other(kind)) == Some(c)
  {
  }

  lemma FreshConsumer(ops: seq<Op>, c: nat, kind: Kind)
    requires ops != [] && InstalledAt(ops, |ops| - 1, c, kind)
    ensures c < |Run(ops).queues| && Run(ops).queues[c] == []
    ensures Slot(Run(ops), kind) == Some(c) && Slot(Run(ops), Other(kind)) != Some(c)
  {
    RunSane(ops[..|ops| - 1]);
  }

  lemma StayGoesOn(ops: seq<Op>, p: nat, kind: Kind)
    requires p < |ops| - 1
    ensures StillIn(ops, p, |ops|, kind)
            <==> StillIn(ops[..|ops| - 1], p, |ops| - 1, kind) && !Evicts(ops[|ops| - 1], kind)
  {
    assert forall j | p < j < |ops| - 1 :: ops[..|ops| - 1][j] == ops[j];
  }

  /** A consumer is in its slot until evicted, and in no slot afterwards. */
  lemma {:induction false} WhoIsIn(ops: seq<Op>, p: nat, c: nat, kind: Kind)
    requires InstalledAt(ops, p, c, kind)
    ensures c < |Run(ops).queues|
    ensures Slot(Run(ops), kind) == Some(c) <==> StillIn(ops, p, |ops|, kind)
    ensures Slot(Run(ops), Other(kind)) != Some(c)
  {
    var n := |ops| - 1;
    if p == n {
      FreshConsumer(ops, c, kind);
    } else {
      assert ops[..n][..p] == ops[..p];
      hide Apply, Slot, Installs;
      WhoIsIn(ops[..n], p, c, kind);
      SlotAfter(Run(ops[..n]), ops[n], c, kind);
      StayGoesOn(ops, p, kind);
    }
  }

  /** The end of the stay: the last position up to which nothing evicted the consumer. */
  ghost predicate Stay(ops: seq<Op>, p: nat, q: nat, kind: Kind) {
    p < q <= |ops| && StillIn(ops, p, q, kind) && (q < |ops| ==> Evicts(ops[q], kind))
  }

  /** The fallback is on: the latest handshake was with a legacy host, not forgotten since. */
  function FallbackOn(ops: seq<Op>): bool {
    ops != [] &&
    match ops[|ops| - 1]
    case Handshake(legacy) => legacy
    case Forget => false
    case _ => FallbackOn(ops[..|ops| - 1])
  }

  lemma {:induction false} FallbackFollows(ops: seq<Op>)
    ensures Run(ops).legacyFallback == FallbackOn(ops)
  {
    if ops != [] { FallbackFollows(ops[..|ops| - 1]); }
  }

  /** The fallback is off at every load, and no event is past its load when the stay begins. */
  ghost predicate StrictDuring(ops: seq<Op>, p: nat, q: nat)
    requires p < q <= |ops|
  {
    && !Run(ops[..p + 1]).routing.Armed?
    && forall j | p < j < q && ops[j].Load? :: !FallbackOn(ops[..j])
  }

  /** Legacy host at every load, and never anybody in the other slot. */
  ghost predicate SoleLegacyDuring(ops: seq<Op>, p: nat, q: nat, kind: Kind)
    requires q <= |ops|
  {
    forall j | p < j < q ::
      Slot(Run(ops[..j]), Other(kind)).None? && (ops[j].Load? ==> FallbackOn(ops[..j]))
  }

  /** An event of the other kind on its way to this slot. */
  function InFlight(s: Slots, kind: Kind): seq<Event> {
    if s.routing != Resting && s.routing.kind == Other(kind) then [s.routing.event] else []
  }

  /** What a consumer in the slot `kind` gets from the operations `ops[from..to]`. */
  function Heard(ops: seq<Op>, from: nat, to: nat, kind: Kind): seq<Event>
    requires to <= |ops|
  {
    if to <= from then []
    else Heard(ops, from, to - 1, kind) + HeardAt(Run(ops[..to - 1]), ops[to - 1], kind)
  }

  function HeardAt(s: Slots, op: Op, kind: Kind): seq<Event> {
    if op.Offer? && s.routing == Resting && op.kind == kind then [op.event]
    else if op.FallBack? && s.routing.Armed? && s.routing.kind == Other(kind) then [s.routing.event]
    else []
  }

  lemma StepHeard(s: Slots, op: Op, c: nat, kind: Kind)
    requires Sane(s) && Slot(s, kind) == Some(c) && !Evicts(op, kind)
    ensures c < |s.queues| && c < |Apply(s, op).queues|
    ensures Apply(s, op).queues[c] == s.queues[c] + HeardAt(s, op, kind)
  {
  }

  lemma StepUnheard(s: Slots, op: Op, c: nat, kind: Kind)
    requires c < |s.queues| && Slot(s, kind) != Some(c) && Slot(s, Other(kind)) != Some(c)
    ensures c < |Apply(s, op).queues| && Apply(s, op).queues[c] == s.queues[c]
  {
  }

  lemma {:induction false} HeardInPrefix(ops: seq<Op>, n: nat, from: nat, to: nat, kind: Kind)
    requires to <= n <= |ops|
    ensures Heard(ops[..n], from, to, kind) == Heard(ops, from, to, kind)
  {
    if from < to {
      HeardInPrefix(ops, n, from, to - 1, kind);
      assert ops[..n][..to - 1] == ops[..to - 1];
    }
  }

  lemma PrefixStay(ops: seq<Op>, n: nat, p: nat, c: nat, kind: Kind)
    requires p < n <= |ops|
    ensures InstalledAt(ops[..n], p, c, kind) <==> InstalledAt(ops, p, c, kind)
    ensures StillIn(ops[..n], p, n, kind) <==> StillIn(ops, p, n, kind)
  {
    assert ops[..n][..p] == ops[..p];
    assert forall j | p < j < n :: ops[..n][j] == ops[j];
  }

  /** While it is in its slot, a consumer hears what `Heard` says. */
  lemma {:induction false} HeardWhileIn(ops: seq<Op>, p: nat, c: nat, kind: Kind)
    requires InstalledAt(ops, p, c, kind) && StillIn(ops, p, |ops|, kind)
    ensures c < |Run(ops).queues| && Run(ops).queues[c] == Heard(ops, p + 1, |ops|, kind)
  {
    var n := |ops| - 1;
    hide Apply, HeardAt, Slot, Installs;
    if p == n {
      FreshConsumer(ops, c, kind);
    } else {
      PrefixStay(ops, n, p, c, kind);
      HeardWhileIn(ops[..n], p, c, kind);
      HearsNext(ops, p, c, kind);
    }
  }

  lemma HearsNext(ops: seq<Op>, p: nat, c: nat, kind: Kind)
    requires p < |ops| - 1 && InstalledAt(ops[..|ops| - 1], p, c, kind)
    requires StillIn(ops, p, |ops|, kind) && StillIn(ops[..|ops| - 1], p, |ops| - 1, kind)
    requires c < |Run(ops[..|ops| - 1]).queues|
             && Run(ops[..|ops| - 1]).queues[c] == Heard(ops[..|ops| - 1], p + 1, |ops| - 1, kind)
    ensures c < |Run(ops).queues| && Run(ops).queues[c] == Heard(ops, p + 1, |ops|, kind)
  {
    var n := |ops| - 1;
    RunSane(ops[..n]);
    WhoIsIn(ops[..n], p, c, kind);
    HeardInPrefix(ops, n, p + 1, n, kind);
    StepHeard(Run(ops[..n]), ops[n], c, kind);
    hide Apply, HeardAt, Slot, InstalledAt, StillIn;
  }

  /** Once evicted, a consumer hears nothing more. */
  lemma {:induction false} SilentOnceEvicted(ops: seq<Op>, n: nat, p: nat, c: nat, kind: Kind)
    requires p < n <= |ops| && InstalledAt(ops, p, c, kind) && !StillIn(ops, p, n, kind)
    ensures c < |Run(ops).queues| && c < |Run(ops[..n]).queues|
    ensures Run(ops).queues[c] == Run(ops[..n]).queues[c]
  {
    hide Apply;
    if n == |ops| {
      assert ops[..n] == ops;
      WhoIsIn(ops, p, c, kind);
    } else {
      var m := |ops| - 1;
      var front := ops[..m];
      assert front[..n] == ops[..n];
      PrefixStay(ops, m, p, c, kind);
      assert !StillIn(front, p, n, kind) by {
        var j :| p < j < n && Evicts(ops[j], kind);
        assert front[j] == ops[j];
      }
      SilentOnceEvicted(front, n, p, c, kind);
      WhoIsIn(front, p, c, kind);
      StepUnheard(Run(front), ops[m], c, kind);
    }
  }

  lemma {:induction false} StrictHearsItsKind(ops: seq<Op>, p: nat, q: nat, kind: Kind)
    requires p < q <= |ops| && StrictDuring(ops, p, q)
    ensures Heard(ops, p + 1, q, kind) == OfKind(ops, p + 1, q, kind)
    ensures !Run(ops[..q]).routing.Armed?
  {
    if p + 1 < q {
      hide Apply, HeardAt, TakenUp, Run;
      StrictHearsItsKind(ops, p, q - 1, kind);
      FallbackFollows(ops[..q - 1]);
      OneMoreOfItsKind(ops, p, q, kind);
    }
  }

  lemma OneMoreOfItsKind(ops: seq<Op>, p: nat, q: nat, kind: Kind)
    requires p + 1 < q <= |ops| && !Run(ops[..q - 1]).routing.Armed?
    requires ops[q - 1].Load? ==> !Run(ops[..q - 1]).legacyFallback
    requires Heard(ops, p + 1, q - 1, kind) == OfKind(ops, p + 1, q - 1, kind)
    ensures Heard(ops, p + 1, q, kind) == OfKind(ops, p + 1, q, kind)
    ensures !Run(ops[..q]).routing.Armed?
  {
    hide Apply, HeardAt, TakenUp;
    assert ops[..q][..q - 1] == ops[..q - 1];
    StrictStep(Run(ops[..q - 1]), ops[q - 1], kind);
  }

  lemma StrictStep(s: Slots, op: Op, kind: Kind)
    requires !s.routing.Armed? && (op.Load? ==> !s.legacyFallback)
    ensures !Apply(s, op).routing.Armed?
    ensures var taken := TakenUp(s, op);
            HeardAt(s, op, kind) == if taken != [] && taken[0].0 == kind then [taken[0].1] else []
  {
  }

  lemma {:induction false} OwnSlotFilled(ops: seq<Op>, p: nat, q: nat, kind: Kind)
    requires p < q <= |ops| && StillIn(ops, p, q, kind) && ops[p] == Install(kind)
    ensures Slot(Run(ops[..q]), kind).Some?
  {
    assert ops[..q][..q - 1] == ops[..q - 1];
    if p + 1 < q { OwnSlotFilled(ops, p, q - 1, kind); }
  }

  lemma {:induction false} SoleLegacyHearsAll(ops: seq<Op>, p: nat, q: nat, kind: Kind)
    requires p < q <= |ops| && SoleLegacyDuring(ops, p, q, kind) && StillIn(ops, p, q, kind)
    requires ops[p] == Install(kind)
    ensures Heard(ops, p + 1, q, kind) + InFlight(Run(ops[..q]), kind)
            == InFlight(Run(ops[..p + 1]), kind) + OfAnyKind(ops, p + 1, q)
  {
    hide Apply, HeardAt, InFlight, TakenUp, Slot, Run;
    if p + 1 < q {
      SoleLegacyHearsAll(ops, p, q - 1, kind);
      FallbackFollows(ops[..q - 1]);
      OwnSlotFilled(ops, p, q - 1, kind);
      hide StillIn;
      OneMoreHeard(ops, p, q, kind);
    }
  }

  lemma OneMoreHeard(ops: seq<Op>, p: nat, q: nat, kind: Kind)
    requires p + 1 < q <= |ops| && Slot(Run(ops[..q - 1]), kind).Some?
    requires Slot(Run(ops[..q - 1]), Other(kind)).None? && !Evicts(ops[q - 1], kind)
    requires ops[q - 1].Load? ==> Run(ops[..q - 1]).legacyFallback
    requires Heard(ops, p + 1, q - 1, kind) + InFlight(Run(ops[..q - 1]), kind)
             == InFlight(Run(ops[..p + 1]), kind) + OfAnyKind(ops, p + 1, q - 1)
    ensures Heard(ops, p + 1, q, kind) + InFlight(Run(ops[..q]), kind)
            == InFlight(Run(ops[..p + 1]), kind) + OfAnyKind(ops, p + 1, q)
  {
    hide Apply, HeardAt, InFlight, TakenUp, Slot;
    var before, op := Run(ops[..q - 1]), ops[q - 1];
    assert ops[..q][..q - 1] == ops[..q - 1] && Run(ops[..q]) == Apply(before, op);
    LegacyStep(before, op, kind);
    var taken := TakenUp(before, op);
    var t := if taken != [] then [taken[0].1] else [];
    hide Run;
    Regroup(Heard(ops, p + 1, q - 1, kind), HeardAt(before, op, kind),
            InFlight(Run(ops[..q]), kind), InFlight(before, kind), t,
            InFlight(Run(ops[..p + 1]), kind), OfAnyKind(ops, p + 1, q - 1));
  }

  lemma Regroup(h: seq<Event>, ha: seq<Event>, after: seq<Event>, before: seq<Event>, t: seq<Event>,
                start: seq<Event>, oa: seq<Event>)
    requires h + before == start + oa && ha + after == before + t
    ensures (h + ha) + after == start + (oa + t)
  {
    assert (h + ha) + after == h + (ha + after) == (h + before) + t;
  }

  /** One step beside a sole legacy consumer: nothing is lost, nothing overtakes. */
  lemma LegacyStep(s: Slots, op: Op, kind: Kind)
    requires Slot(s, kind).Some? && Slot(s, Other(kind)).None? && !Evicts(op, kind)
    requires op.Load? ==> s.legacyFallback
    ensures var taken := TakenUp(s, op);
            HeardAt(s, op, kind) + InFlight(Apply(s, op), kind)
            == InFlight(s, kind) + (if taken != [] then [taken[0].1] else [])
    ensures TakenUp(s, op) != [] ==> InFlight(s, kind) == []
    ensures Slot(Apply(s, op), kind).Some?
  {
  }

  lemma QueueIsHeard(ops: seq<Op>, p: nat, q: nat, c: nat, kind: Kind)
    requires InstalledAt(ops, p, c, kind) && Stay(ops, p, q, kind)
    ensures c < |Run(ops).queues| && Run(ops).queues[c] == Heard(ops, p + 1, q, kind)
  {
    hide Heard, Run, Installs;
    PrefixStay(ops, q, p, c, kind);
    HeardWhileIn(ops[..q], p, c, kind);
    HeardInPrefix(ops, q, p + 1, q, kind);
    if q == |ops| {
      assert ops[..q] == ops;
    } else {
      EvictionIsSilent(ops, p, q, c, kind);
      PrefixStay(ops, q + 1, p, c, kind);
      assert !StillIn(ops, p, q + 1, kind);
      SilentOnceEvicted(ops, q + 1, p, c, kind);
    }
  }

  /** The step that evicts a consumer sends it nothing. */
  lemma EvictionIsSilent(ops: seq<Op>, p: nat, q: nat, c: nat, kind: Kind)
    requires p < q < |ops| && InstalledAt(ops[..q], p, c, kind) && Evicts(ops[q], kind)
    ensures c < |Run(ops[..q]).queues| && c < |Run(ops[..q + 1]).queues|
    ensures Run(ops[..q + 1]).queues[c] == Run(ops[..q]).queues[c]
  {
    WhoIsIn(ops[..q], p, c, kind);
    assert ops[..q + 1][..q] == ops[..q] && ops[..q + 1][q] == ops[q];
    hide InstalledAt, StillIn;
  }

  /**
   * Against a host with both slots, a consumer's queue is exactly the events of its own
   * kind taken up during its stay, in order. Against a legacy host, a consumer that is
   * alone gets the events of both kinds, in order of arrival, but for one that may be on
   * its way when the stay begins or ends.
   */
  lemma QueueIsItsWindow(ops: seq<Op>, p: nat, q: nat, c: nat, kind: Kind)
    requires InstalledAt(ops, p, c, kind) && Stay(ops, p, q, kind)
    ensures c < |Run(ops).queues|
    ensures StrictDuring(ops, p, q) ==> Run(ops).queues[c] == OfKind(ops, p + 1, q, kind)
    ensures SoleLegacyDuring(ops, p, q, kind) ==>
              Run(ops).queues[c] + InFlight(Run(ops[..q]), kind)
              == InFlight(Run(ops[..p + 1]), kind) + OfAnyKind(ops, p + 1, q)
  {
    hide Heard, OfKind, OfAnyKind, Run, InFlight;
    QueueIsHeard(ops, p, q, c, kind);
    if StrictDuring(ops, p, q) { StrictHearsItsKind(ops, p, q, kind); }
    if SoleLegacyDuring(ops, p, q, kind) { SoleLegacyHearsAll(ops, p, q, kind); }
  }

  ghost predicate DistinctEvents(ops: seq<Op>) {
    forall i, j | 0 <= i < j < |ops| && ops[i].Offer? && ops[j].Offer? :: ops[i].event != ops[j].event
  }

  ghost predicate IsOffered(ops: seq<Op>, e: Event) {
    exists j :: 0 <= j < |ops| && ops[j].Offer? && ops[j].event == e
  }

  /** The event has left the reader's hands for some queue. */
  ghost predicate Heeded(s: Slots, e: Event) {
    exists c: nat :: c < |s.queues| && e in s.queues[c]
  }

  /** What is queued or on its way has been offered; what is on its way is not queued. */
  lemma {:induction false} HeardWasOffered(ops: seq<Op>)
    requires DistinctEvents(ops)
    ensures forall e: Event :: Heeded(Run(ops), e) ==> IsOffered(ops, e)
    ensures Run(ops).routing != Resting
            ==> IsOffered(ops, Run(ops).routing.event) && !Heeded(Run(ops), Run(ops).routing.event)
  {
    if ops != [] {
      var n := |ops| - 1;
      assert DistinctEvents(ops[..n]);
      HeardWasOffered(ops[..n]);
      forall e: Event | IsOffered(ops[..n], e) ensures IsOffered(ops, e) { StillOffered(ops, e); }
      NewOffer(ops);
      HeededByStep(Run(ops[..n]), ops[n]);
      hide Heeded, IsOffered, DistinctEvents;
    }
  }

  lemma StillOffered(ops: seq<Op>, e: Event)
    requires ops != [] && IsOffered(ops[..|ops| - 1], e)
    ensures IsOffered(ops, e)
  {
    var j :| 0 <= j < |ops| - 1 && ops[..|ops| - 1][j].Offer? && ops[..|ops| - 1][j].event == e;
    assert ops[j].Offer?;
  }

  lemma NewOffer(ops: seq<Op>)
    requires ops != [] && DistinctEvents(ops)
    ensures ops[|ops| - 1].Offer?
            ==> IsOffered(ops, ops[|ops| - 1].event) && !IsOffered(ops[..|ops| - 1], ops[|ops| - 1].event)
  {
  }

  /** A step queues nothing but the event it offers or had on its way, and then it rests. */
  lemma HeededByStep(s: Slots, op: Op)
    ensures forall e: Event | Heeded(Apply(s, op), e) ::
              || Heeded(s, e)
              || (op.Offer? && e == op.event && Apply(s, op).routing == Resting)
              || (op.FallBack? && s.routing.Armed? && e == s.routing.event && Apply(s, op).routing == Resting)
    ensures Apply(s, op).routing == Resting || Apply(s, op).queues == s.queues || op.Install?
    ensures Apply(s, op).routing != Resting ==>
              || (s.routing != Resting && Apply(s, op).routing.event == s.routing.event)
              || (op.Offer? && Apply(s, op).routing.event == op.event)
  {
  }

  /** In either mode no event ever reaches two consumers. */
  lemma {:induction false} EachEventReachesAtMostOne(ops: seq<Op>, c: nat, d: nat, e: Event)
    requires DistinctEvents(ops)
    requires c < |Run(ops).queues| && e in Run(ops).queues[c]
    requires d < |Run(ops).queues| && e in Run(ops).queues[d]
    ensures c == d
  {
    var n := |ops| - 1;
    var before := Run(ops[..n]);
    assert DistinctEvents(ops[..n]);
    if Heeded(before, e) {
      HeardWasOffered(ops[..n]);
      NewOffer(ops);
      OldEventIsNotQueuedAgain(before, ops[n], e, c);
      OldEventIsNotQueuedAgain(before, ops[n], e, d);
      EachEventReachesAtMostOne(ops[..n], c, d, e);
    } else {
      NewEventIsQueuedOnce(before, ops[n], e, c, d);
    }
  }

  lemma OldEventIsNotQueuedAgain(s: Slots, op: Op, e: Event, c: nat)
    requires op.Offer? ==> e != op.event
    requires s.routing != Resting ==> e != s.routing.event
    requires c < |Apply(s, op).queues| && e in Apply(s, op).queues[c]
    ensures c < |s.queues| && e in s.queues[c]
  {
  }

  lemma NewEventIsQueuedOnce(s: Slots, op: Op, e: Event, c: nat, d: nat)
    requires !Heeded(s, e)
    requires c < |Apply(s, op).queues| && e in Apply(s, op).queues[c]
    requires d < |Apply(s, op).queues| && e in Apply(s, op).queues[d]
    ensures c == d
  {
    assert c < |s.queues| ==> e !in s.queues[c];
    assert d < |s.queues| ==> e !in s.queues[d];
  }

  // ----- One call of `route`

  /** A step of somebody else than the reader. */
  predicate IsOthers(op: Op) { !op.Offer? && !op.Load? && !op.FallBack? }

  ghost predicate AllOthers(ops: seq<Op>) {
    forall op | op in ops :: IsOthers(op)
  }

  /** The queue of a consumer, empty if it is yet to be installed. */
  function QueueOf(s: Slots, c: nat): seq<Event> {
    if c < |s.queues| then s.queues[c] else []
  }

  lemma OthersLeave(s: Slots, op: Op, c: nat)
    requires IsOthers(op)
    ensures Apply(s, op).routing == s.routing && QueueOf(Apply(s, op), c) == QueueOf(s, c)
    ensures |s.queues| <= |Apply(s, op).queues|
  {
  }

  lemma RunSnoc(ops: seq<Op>, op: Op)
    ensures Run(ops + [op]) == Apply(Run(ops), op)
  {
    assert (ops + [op])[..|ops|] == ops;
  }

  lemma {:induction false} OthersBetween(ops: seq<Op>, between: seq<Op>, c: nat)
    requires AllOthers(between)
    ensures Run(ops + between).routing == Run(ops).routing
    ensures QueueOf(Run(ops + between), c) == QueueOf(Run(ops), c)
  {
    if between == [] {
      assert ops + between == ops;
    } else {
      var front, op := between[..|between| - 1], between[|between| - 1];
      assert ops + between == ops + front + [op];
      hide Apply, Run, QueueOf;
      OthersBetween(ops, front, c);
      RunSnoc(ops + front, op);
      OthersLeave(Run(ops + front), op, c);
    }
  }

  /** Whom an event reaches: told from the slots at the first step and the third, and the flag at the second. */
  function Receiver(first: Slots, fallback: bool, third: Slots, kind: Kind): Option<nat> {
    if Slot(first, kind).Some? then Slot(first, kind)
    else if fallback then Slot(third, Other(kind))
    else None
  }

  lemma OfferSends(s: Slots, kind: Kind, e: Event, c: nat)
    requires Sane(s) && s.routing == Resting
    ensures var t := Apply(s, Offer(kind, e));
            && QueueOf(t, c) == QueueOf(s, c) + (if Slot(s, kind) == Some(c) then [e] else [])
            && t.routing == if Slot(s, kind).Some? then Resting else Missed(kind, e)
  {
    assert QueueOf(s, c) + [] == QueueOf(s, c);
  }

  lemma FallBackSends(s: Slots, c: nat)
    requires Sane(s) && !s.routing.Missed?
    ensures var t := Apply(s, FallBack);
            && t.routing == Resting
            && QueueOf(t, c)
               == QueueOf(s, c)
                  + (if s.routing.Armed? && Slot(s, Other(s.routing.kind)) == Some(c) then [s.routing.event] else [])
  {
    assert QueueOf(s, c) + [] == QueueOf(s, c);
  }

  /**
   * One call of `route`, with anything by others between its steps: the event goes to the
   * consumer in the slot it is addressed to, else - if the fallback is on when it is looked
   * at - to the one then in the other slot, else to nobody; no other queue changes, and the
   * reader is done with it.
   */
  lemma RouteReaches(ops: seq<Op>, kind: Kind, e: Event, a: seq<Op>, b: seq<Op>, c: nat)
    requires Run(ops).routing == Resting && AllOthers(a) && AllOthers(b)
    ensures var loading := ops + [Offer(kind, e)] + a;
            var falling := loading + [Load] + b;
            var end := Run(falling + [FallBack]);
            && end.routing == Resting
            && QueueOf(end, c)
               == QueueOf(Run(ops), c)
                  + (if Receiver(Run(ops), FallbackOn(loading), Run(falling), kind) == Some(c) then [e] else [])
  {
    var offered := ops + [Offer(kind, e)];
    var loading := offered + a;
    var loaded := loading + [Load];
    var falling := loaded + b;
    RunSane(ops);
    RunSane(falling);
    RunSnoc(ops, Offer(kind, e));
    OfferSends(Run(ops), kind, e, c);
    OthersBetween(offered, a, c);
    RunSnoc(loading, Load);
    FallbackFollows(loading);
    LoadArms(Run(loading), c);
    OthersBetween(loaded, b, c);
    RunSnoc(falling, FallBack);
    FallBackSends(Run(falling), c);
    var before := QueueOf(Run(ops), c);
    assert before + [e] + [] == before + [e] && before + [] == before;
    hide Run, Apply, QueueOf, Slot, FallbackOn, Sane;
  }

  lemma LoadArms(s: Slots, c: nat)
    ensures var t := Apply(s, Load);
            && QueueOf(t, c) == QueueOf(s, c)
            && t.routing == match s.routing
                            case Missed(kind, e) => if s.legacyFallback then Armed(kind, e) else Resting
                            case other => other
  {
  }

  /** Uninterrupted, it is what the reader's method does. */
  lemma UninterruptedRoute(s: Slots, kind: Kind, e: Event)
    requires s.routing == Resting
    ensures FellBack(Loaded(Offered(s, kind, e))) == Routed(s, kind, e)
  {
  }
}
