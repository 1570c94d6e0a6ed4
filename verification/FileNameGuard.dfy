/** The short memory of sent file names that keeps Finder's filename-as-text off the wire. */
module FileNameGuard {
  import opened Wire

  /** Nanoseconds on the monotonic clock. */
  type Time = nat

  const WINDOW: Time := 30_000_000_000
  const CAPACITY: nat := 4

  datatype Sent = Sent(name: string, at: Time)

  /** `Instant::duration_since`, which saturates at zero. */
  function Elapsed(now: Time, at: Time): nat {
    if now >= at then now - at else 0
  }

  predicate Matches(e: Sent, text: string, now: Time) {
    e.name == text && Elapsed(now, e.at) <= WINDOW
  }

  function Pushed(es: seq<Sent>, name: string, now: Time): seq<Sent> {
    var longer := [Sent(name, now)] + es;
    if |longer| <= CAPACITY then longer else longer[..CAPACITY]
  }

  /** The first entry that matches, refreshed to `now`. */
  function Refreshed(es: seq<Sent>, text: string, now: Time): seq<Sent> {
    if es == [] then []
    else if Matches(es[0], text, now) then [es[0].(at := now)] + es[1..]
    else [es[0]] + Refreshed(es[1..], text, now)
  }

  predicate AnyMatch(es: seq<Sent>, text: string, now: Time) {
    exists i | 0 <= i < |es| :: Matches(es[i], text, now)
  }

  class SentFileNames {
    var entries: seq<Sent>

    constructor ()
      ensures entries == []
    {
      entries := [];
    }

    method PushSentFileName(name: string, now: Time)
      modifies this
      ensures entries == Pushed(old(entries), name, now)
    {
      entries := [Sent(name, now)] + entries;
      if |entries| > CAPACITY {
        entries := entries[..CAPACITY];
      }
    }

    method RecentFileNamesContains(text: string, now: Time) returns (found: bool)
      modifies this
      ensures found == AnyMatch(old(entries), text, now)
      ensures entries == Refreshed(old(entries), text, now)
    {
      var i := 0;
      while i < |entries| && !Matches(entries[i], text, now)
        invariant 0 <= i <= |entries| && entries == old(entries)
        invariant forall j | 0 <= j < i :: !Matches(entries[j], text, now)
      {
        i := i + 1;
      }
      RefreshAt(entries, text, now, i);
      found := i < |entries|;
      if found {
        entries := entries[i := entries[i].(at := now)];
      }
    }
  }

  lemma {:induction false} RefreshAt(es: seq<Sent>, text: string, now: Time, i: nat)
    requires i <= |es| && (forall j | 0 <= j < i :: !Matches(es[j], text, now))
    requires i < |es| ==> Matches(es[i], text, now)
    ensures Refreshed(es, text, now) == if i < |es| then es[i := es[i].(at := now)] else es
  {
    if i > 0 {
      RefreshAt(es[1..], text, now, i - 1);
    }
  }

  // ----- What the guard remembers, told from the history of calls alone

  datatype Call = Push(name: string, now: Time) | Probe(name: string, now: Time)

  function Play(calls: seq<Call>): seq<Sent> {
    if calls == [] then []
    else
      var before := Play(calls[..|calls| - 1]);
      match calls[|calls| - 1]
      case Push(name, now) => Pushed(before, name, now)
      case Probe(text, now) => Refreshed(before, text, now)
  }

  ghost predicate Monotone(calls: seq<Call>) {
    forall i, j | 0 <= i < j < |calls| :: calls[i].now <= calls[j].now
  }

  /** How many pushes came after the latest push of `name`; none if it was never pushed. */
  function PushesSince(calls: seq<Call>, name: string): Option<nat> {
    if calls == [] then None
    else
      var before := PushesSince(calls[..|calls| - 1], name);
      match calls[|calls| - 1]
      case Push(n, _) => if n == name then Some(0) else if before.Some? then Some(before.value + 1) else None
      case Probe(_, _) => before
  }

  /** The time of the latest push of `name`, or of a later probe that recognised it. */
  function LastTouch(calls: seq<Call>, name: string): Time
    decreases |calls|, 0
  {
    if calls == [] then 0
    else
      var front := calls[..|calls| - 1];
      match calls[|calls| - 1]
      case Push(n, now) => if n == name then now else LastTouch(front, name)
      case Probe(n, now) => if n == name && Recognised(front, name, now) then now else LastTouch(front, name)
  }

  /** Fewer than four pushes since its own, and touched within the last thirty seconds. */
  predicate Recognised(calls: seq<Call>, name: string, now: Time)
    decreases |calls|, 1
  {
    && PushesSince(calls, name).Some?
    && PushesSince(calls, name).value < 4
    && now <= LastTouch(calls, name) + 30_000_000_000
  }

  /** The front-most entry of each remembered name stands where its pushes put it. */
  ghost predicate Placed(calls: seq<Call>, es: seq<Sent>, name: string) {
    match PushesSince(calls, name)
    case Some(n) =>
      if n < CAPACITY
      then n < |es| && es[n] == Sent(name, LastTouch(calls, name)) && (forall j | 0 <= j < n :: es[j].name != name)
      else forall j | 0 <= j < |es| :: es[j].name != name
    case None => forall j | 0 <= j < |es| :: es[j].name != name
  }

  /** Timestamps of equal names never increase from front to back, and none is in the future. */
  ghost predicate NewestFirst(es: seq<Sent>, now: Time) {
    && |es| <= CAPACITY
    && (forall i, j | 0 <= i < j < |es| && es[i].name == es[j].name :: es[i].at >= es[j].at)
    && (forall i | 0 <= i < |es| :: es[i].at <= now)
  }

  lemma PlacedDecides(calls: seq<Call>, es: seq<Sent>, name: string, now: Time)
    requires Placed(calls, es, name) && NewestFirst(es, now)
    ensures AnyMatch(es, name, now) <==> Recognised(calls, name, now)
    ensures Refreshed(es, name, now)
            == if Recognised(calls, name, now)
               then es[PushesSince(calls, name).value := Sent(name, now)]
               else es
  {
    if Recognised(calls, name, now) {
      RefreshAt(es, name, now, PushesSince(calls, name).value);
      assert Matches(es[PushesSince(calls, name).value], name, now);
    } else {
      RefreshAt(es, name, now, |es|);
    }
  }

  lemma PushKeepsOrder(es: seq<Sent>, name: string, now: Time)
    requires NewestFirst(es, now)
    ensures NewestFirst(Pushed(es, name, now), now)
  {
    var es' := Pushed(es, name, now);
    assert forall i | 0 < i < |es'| :: es'[i] == es[i - 1];
  }

  lemma PushPlaces(calls: seq<Call>, es: seq<Sent>, name: string)
    requires calls != [] && calls[|calls| - 1].Push?
    requires Placed(calls[..|calls| - 1], es, name) && |es| <= CAPACITY
    ensures var last := calls[|calls| - 1]; Placed(calls, Pushed(es, last.name, last.now), name)
  {
    var last := calls[|calls| - 1];
    var es' := Pushed(es, last.name, last.now);
    assert forall i | 0 < i < |es'| :: es'[i] == es[i - 1];
  }

  lemma RefreshKeepsOrder(calls: seq<Call>, es: seq<Sent>, text: string, now: Time)
    requires Placed(calls, es, text) && NewestFirst(es, now)
    ensures NewestFirst(Refreshed(es, text, now), now)
  {
    PlacedDecides(calls, es, text, now);
  }

  lemma ProbePlaces(calls: seq<Call>, es: seq<Sent>, name: string)
    requires calls != [] && calls[|calls| - 1].Probe?
    requires Placed(calls[..|calls| - 1], es, name) && NewestFirst(es, calls[|calls| - 1].now)
    requires Placed(calls[..|calls| - 1], es, calls[|calls| - 1].name)
    ensures var last := calls[|calls| - 1]; Placed(calls, Refreshed(es, last.name, last.now), name)
  {
    var last := calls[|calls| - 1];
    PlacedDecides(calls[..|calls| - 1], es, last.name, last.now);
  }

  lemma NewestLater(es: seq<Sent>, earlier: Time, now: Time)
    requires NewestFirst(es, earlier) && earlier <= now
    ensures NewestFirst(es, now)
  {
    forall i | 0 <= i < |es| ensures es[i].at <= now { assert es[i].at <= earlier; }
  }

  lemma {:induction false} PlayPlaces(calls: seq<Call>, name: string, now: Time)
    requires Monotone(calls) && (calls != [] ==> calls[|calls| - 1].now <= now)
    ensures Placed(calls, Play(calls), name) && NewestFirst(Play(calls), now)
  {
    if calls != [] {
      var n := |calls| - 1;
      var front, last := calls[..n], calls[n];
      var es := Play(front);
      PlayPlaces(front, name, last.now);
      match last
      case Push(pushed, at) =>
        PushPlaces(calls, es, name);
        PushKeepsOrder(es, pushed, at);
        NewestLater(Pushed(es, pushed, at), at, now);
      case Probe(probed, at) =>
        PlayPlaces(front, probed, at);
        ProbePlaces(calls, es, name);
        RefreshKeepsOrder(front, es, probed, at);
        NewestLater(Refreshed(es, probed, at), at, now);
    }
  }

  /**
   * The guard suppresses a text exactly when it names a file sent with fewer than four
   * sends after it and pushed or recognised within the last thirty seconds.
   */
  lemma GuardRefinesHistory(calls: seq<Call>, text: string, now: Time)
    requires Monotone(calls) && (calls != [] ==> calls[|calls| - 1].now <= now)
    ensures AnyMatch(Play(calls), text, now) <==> Recognised(calls, text, now)
  {
    PlayPlaces(calls, text, now);
    PlacedDecides(calls, Play(calls), text, now);
  }
}
