/**
 * Whole runs of the poll thread beside the reader thread, which stamps committed
 * contents and resets the stamps between passes, and between the check and the stamp of
 * one pass.
 */
module PollRuns {
  import opened Wire
  import opened ClipSender
  import opened Dedup
  import opened PollLoop

  /**
   * What another thread does in one step: a lock section on the shared stamps, or putting a
   * committed text on the OS clipboard, which comes before that text's own stamp.
   */
  datatype Stamp = TextStamp(hash: Hash) | ImageStamp(hash: Hash) | FileStamp(hash: Hash) | Forget | Put(hash: Hash)

  /** `gap` is what lands between a pass's check of the text history and its own stamp. */
  datatype Action = Tick(i: Input, gap: seq<Stamp>) | Reader(stamp: Stamp)

  function Apply(l: LastSeen, s: Stamp): LastSeen {
    match s
    case TextStamp(h) => StampText(l, h)
    case ImageStamp(h) => StampImage(l, h)
    case FileStamp(h) => StampFile(l, h)
    case Forget => NOTHING_SEEN
    case Put(_) => l
  }

  function ApplyAll(l: LastSeen, ss: seq<Stamp>): LastSeen {
    if ss == [] then l else Apply(ApplyAll(l, ss[..|ss| - 1]), ss[|ss| - 1])
  }

  /** The state in which a pass checks the text history. */
  function AtCheck(p: Poll, i: Input): Poll {
    FileStage(p.(inFlight := false), i)
  }

  /**
   * The pass decides to send its text, and stamps it. A text over `MAX_TEXT_BYTES` is
   * stamped as well, but not queued.
   */
  predicate Ships(p: Poll, i: Input) {
    Verdict(AtCheck(p, i), i) == Some(Send)
  }

  /** The state in which such a pass comes to its image. */
  function AtImage(p: Poll, i: Input, gap: seq<Stamp>): Poll {
    var checked := TextProbe(AtCheck(p, i), i);
    var disturbed := checked.(seen := ApplyAll(checked.seen, gap));
    if Ships(p, i) then TextShip(disturbed, Candidate(i).value) else disturbed
  }

  /** A pass in which `gap` lands between check and stamp of its text. */
  function InterleavedPass(p: Poll, i: Input, gap: seq<Stamp>): Poll {
    ImageStage(AtImage(p, i, gap), i)
  }

  /** With nothing in between, it is the pass that the thread's method performs. */
  lemma UndisturbedPass(p: Poll, i: Input)
    ensures InterleavedPass(p, i, []) == Pass(p, i)
  {
    var checked := TextProbe(AtCheck(p, i), i);
    assert checked.(seen := ApplyAll(checked.seen, [])) == checked;
  }

  /** The poll state with two history variables: texts stamped since the last reset, and stamped by passes as sent. */
  datatype World = World(poll: Poll, stamped: seq<Hash>, shipped: seq<Hash>)

  function NewStamps(ss: seq<Stamp>, stamped: seq<Hash>): seq<Hash> {
    if ss == [] then stamped
    else
      var before := NewStamps(ss[..|ss| - 1], stamped);
      match ss[|ss| - 1]
      case TextStamp(h) => before + [h]
      case Forget => []
      case _ => before
  }

  function Step(w: World, a: Action): World {
    match a
    case Reader(s) => w.(poll := w.poll.(seen := Apply(w.poll.seen, s)), stamped := NewStamps([s], w.stamped))
    case Tick(i, gap) =>
      var own := if Ships(w.poll, i) then [Candidate(i).value.hash] else [];
      World(InterleavedPass(w.poll, i, gap), NewStamps(gap, w.stamped) + own, w.shipped + own)
  }

  function Run(start: World, run: seq<Action>): World {
    if run == [] then start else Step(Run(start, run[..|run| - 1]), run[|run| - 1])
  }

  /** A freshly started thread, to whose link `start.stamped` are the texts stamped so far. */
  ghost predicate Fresh(start: World) {
    && start.poll.pending == None && start.poll.names == [] && start.shipped == []
    && start.poll.seen.textHistory == Stamped(start.stamped)
  }

  /** The thread starts fresh: what is on the clipboard is stamped on top of earlier stamps, and nothing is sent. */
  lemma StartupIsFresh(seen: LastSeen, stamped: seq<Hash>, queued: seq<Message>,
                       text: Option<Text>, image: Option<Hash>, changeCount: int, file: Option<FileOutcome>)
    requires seen.textHistory == Stamped(stamped)
    ensures var found := if text.Some? && text.value.content != [] then [text.value.hash] else [];
            Fresh(World(Startup(seen, queued, text, image, changeCount, file), stamped + found, []))
    ensures Startup(seen, queued, text, image, changeCount, file).out == queued
  {
    if text.Some? && text.value.content != [] {
      StampedAppend(stamped, text.value.hash);
    } else {
      assert stamped + [] == stamped;
    }
  }

  // ----- The history is the stamps

  lemma {:induction false} HistoryAfterStamps(l: LastSeen, ss: seq<Stamp>, stamped: seq<Hash>)
    requires l.textHistory == Stamped(stamped)
    ensures ApplyAll(l, ss).textHistory == Stamped(NewStamps(ss, stamped))
  {
    if ss != [] {
      HistoryAfterStamps(l, ss[..|ss| - 1], stamped);
      if ss[|ss| - 1].TextStamp? {
        var before := NewStamps(ss[..|ss| - 1], stamped);
        assert (before + [ss[|ss| - 1].hash])[..|before|] == before;
      }
    }
  }

  /** What one pass does to the text history and to the pending hash. */
  lemma PassOnTexts(p: Poll, i: Input, gap: seq<Stamp>)
    ensures var disturbed := ApplyAll(AtCheck(p, i).seen, gap).textHistory;
            InterleavedPass(p, i, gap).seen.textHistory
            == if Ships(p, i) then Touch(disturbed, Candidate(i).value.hash) else disturbed
    ensures InterleavedPass(p, i, gap).pending
            == if Verdict(AtCheck(p, i), i) == Some(Hold) then Some(Candidate(i).value.hash) else None
    ensures AtCheck(p, i).seen.textHistory == p.seen.textHistory && AtCheck(p, i).pending == p.pending
  {
  }

  lemma StampedAppend(stamped: seq<Hash>, h: Hash)
    ensures Stamped(stamped + [h]) == Touch(Stamped(stamped), h)
  {
    assert (stamped + [h])[..|stamped|] == stamped;
  }

  lemma StepHistory(w: World, a: Action)
    requires w.poll.seen.textHistory == Stamped(w.stamped)
    ensures Step(w, a).poll.seen.textHistory == Stamped(Step(w, a).stamped)
  {
    match a
    case Reader(s) =>
      HistoryAfterStamps(w.poll.seen, [s], w.stamped);
      assert [s][..0] == [];
      assert ApplyAll(w.poll.seen, [s]) == Apply(ApplyAll(w.poll.seen, []), s);
    case Tick(i, gap) =>
      PassOnTexts(w.poll, i, gap);
      HistoryAfterStamps(AtCheck(w.poll, i).seen, gap, w.stamped);
      if Ships(w.poll, i) {
        StampedAppend(NewStamps(gap, w.stamped), Candidate(i).value.hash);
      } else {
        assert NewStamps(gap, w.stamped) + [] == NewStamps(gap, w.stamped);
      }
  }

  lemma {:induction false} HistoryIsStamped(start: World, run: seq<Action>)
    requires Fresh(start)
    ensures Run(start, run).poll.seen.textHistory == Stamped(Run(start, run).stamped)
  {
    if run != [] {
      HistoryIsStamped(start, run[..|run| - 1]);
      StepHistory(Run(start, run[..|run| - 1]), run[|run| - 1]);
    }
  }

  // ----- No echo, no repetition

  ghost predicate NoReset(run: seq<Action>) {
    forall k | 0 <= k < |run| ::
      match run[k]
      case Reader(s) => s != Forget
      case Tick(_, gap) => Forget !in gap
  }

  lemma {:induction false} StampsOnlyGrow(ss: seq<Stamp>, stamped: seq<Hash>)
    requires Forget !in ss
    ensures stamped <= NewStamps(ss, stamped)
    ensures forall h :: h in NewStamps(ss, stamped) <==> h in stamped || TextStamp(h) in ss
  {
    if ss != [] {
      assert ss == ss[..|ss| - 1] + [ss[|ss| - 1]];
      StampsOnlyGrow(ss[..|ss| - 1], stamped);
    }
  }

  lemma StepOnlyAdds(w: World, a: Action)
    requires NoReset([a])
    ensures w.stamped <= Step(w, a).stamped
    ensures a.Tick? && Ships(w.poll, a.i) ==> Candidate(a.i).value.hash in Step(w, a).stamped
  {
    assert [a][0] == a;
    match a
    case Reader(s) => StampsOnlyGrow([s], w.stamped);
    case Tick(_, gap) => StampsOnlyGrow(gap, w.stamped);
  }

  lemma ElementsMonotone(a: seq<Hash>, b: seq<Hash>)
    requires a <= b
    ensures Elements(a) <= Elements(b)
  {
    forall x | x in a ensures x in b {
      var k :| 0 <= k < |a| && a[k] == x;
      assert b[k] == x;
    }
  }

  lemma FewInPrefix(a: seq<Hash>, b: seq<Hash>)
    requires a <= b && |Elements(b)| <= TEXT_HISTORY
    ensures |Elements(a)| <= TEXT_HISTORY
  {
    ElementsMonotone(a, b);
    SmallerSet(Elements(a), Elements(b));
  }

  /** With few values in play, a pass only ships what had not been stamped at its check. */
  lemma ShippedWasNew(start: World, run: seq<Action>, i: Input)
    requires Fresh(start) && |Elements(Run(start, run).stamped)| <= TEXT_HISTORY
    requires Ships(Run(start, run).poll, i)
    ensures Candidate(i).value.hash !in Run(start, run).stamped
  {
    HistoryIsStamped(start, run);
    FewValuesNeverForgotten(Run(start, run).stamped, Candidate(i).value.hash);
  }

  lemma {:induction false} NothingShipsTwice(start: World, run: seq<Action>)
    requires Fresh(start) && NoReset(run) && |Elements(Run(start, run).stamped)| <= TEXT_HISTORY
    ensures NoDuplicates(Run(start, run).shipped)
    ensures forall h | h in Run(start, run).shipped :: h in Run(start, run).stamped
  {
    if run != [] {
      var front, a := run[..|run| - 1], run[|run| - 1];
      var w := Run(start, front);
      assert NoReset([a]) && NoReset(front);
      StepOnlyAdds(w, a);
      FewInPrefix(w.stamped, Run(start, run).stamped);
      ElementsMonotone(w.stamped, Run(start, run).stamped);
      NothingShipsTwice(start, front);
      forall h | h in w.stamped ensures h in Run(start, run).stamped {
        assert h in Elements(w.stamped);
      }
      if a.Tick? && Ships(w.poll, a.i) {
        ShippedWasNew(start, front, a.i);
      }
    }
  }

  /**
   * No echo, whatever the order of passes, kicks and commits, while at most four distinct
   * hashes are stamped and nothing is reset. A pass ships a text that is already stamped
   * at its own stamp exactly when a commit of that very text slipped in between the check
   * and the stamp of the same pass; and no text is ever shipped twice.
   */
  lemma EchoOnlyInsideTheGap(start: World, run: seq<Action>, i: Input, gap: seq<Stamp>)
    requires Fresh(start) && NoReset(run + [Tick(i, gap)])
    requires |Elements(Run(start, run + [Tick(i, gap)]).stamped)| <= TEXT_HISTORY
    requires Ships(Run(start, run).poll, i)
    ensures var h := Candidate(i).value.hash;
            && (h in NewStamps(gap, Run(start, run).stamped) <==> TextStamp(h) in gap)
            && NoDuplicates(Run(start, run).shipped + [h])
  {
    var whole := run + [Tick(i, gap)];
    assert whole[..|whole| - 1] == run && whole[|whole| - 1] == Tick(i, gap);
    assert NoReset([Tick(i, gap)]) by { assert whole[|run|] == Tick(i, gap); }
    var w := Run(start, run);
    StepOnlyAdds(w, Tick(i, gap));
    FewInPrefix(w.stamped, Run(start, whole).stamped);
    ShippedWasNew(start, run, i);
    StampsOnlyGrow(gap, w.stamped);
    NothingShipsTwice(start, whole);
  }

  /** Stamped, and fewer than four other texts stamped since. */
  ghost predicate Remembered(stamped: seq<Hash>, h: Hash) {
    h in stamped && |Since(stamped, h)| < TEXT_HISTORY
  }

  /**
   * When a pass ships a text at all: exactly when the text is not remembered at the pass's
   * check, and the pass was kicked or the pass before held it.
   */
  lemma ShipsIff(start: World, run: seq<Action>, i: Input)
    requires Fresh(start) && Candidate(i).Some?
    requires !NamesASentFile(AtCheck(Run(start, run).poll, i), i)
    ensures var h := Candidate(i).value.hash;
            Ships(Run(start, run).poll, i)
            <==> !Remembered(Run(start, run).stamped, h) && (i.kicked || HeldByLatest(start, run) == Some(h))
  {
    HistoryIsStamped(start, run);
    SuppressedIff(Run(start, run).stamped, Candidate(i).value.hash);
    PendingIsHeld(start, run);
  }

  /** The step stamps the text: the reader, alone or in a pass's gap, or the pass that ships it. */
  ghost predicate StampsText(w: World, a: Action, h: Hash) {
    match a
    case Reader(s) => s == TextStamp(h)
    case Tick(i, gap) => TextStamp(h) in gap || (Ships(w.poll, i) && Candidate(i).value.hash == h)
  }

  /** Some step from position `k` on stamps the text. */
  ghost predicate StampedFrom(start: World, run: seq<Action>, k: nat, h: Hash) {
    k < |run| &&
    var front := run[..|run| - 1];
    StampedFrom(start, front, k, h) || StampsText(Run(start, front), run[|run| - 1], h)
  }

  /** A text not stamped before position `k` is stamped exactly if some step since then stamps it. */
  lemma {:induction false} StampedSince(start: World, run: seq<Action>, k: nat, h: Hash)
    requires k <= |run| && NoReset(run) && h !in Run(start, run[..k]).stamped
    ensures h in Run(start, run).stamped <==> StampedFrom(start, run, k, h)
    decreases |run|
  {
    hide Step, StampsText, NoReset;
    if k == |run| {
      assert run[..k] == run;
    } else {
      var front, a := run[..|run| - 1], run[|run| - 1];
      NoResetBefore(run);
      assert front[..k] == run[..k];
      StampedSince(start, front, k, h);
      StampedByStep(Run(start, front), a, h);
    }
  }

  lemma NoResetBefore(run: seq<Action>)
    requires run != [] && NoReset(run)
    ensures NoReset(run[..|run| - 1])
    ensures match run[|run| - 1] case Reader(s) => s != Forget case Tick(_, gap) => Forget !in gap
  {
  }

  lemma StampedByStep(w: World, a: Action, h: Hash)
    requires match a case Reader(s) => s != Forget case Tick(_, gap) => Forget !in gap
    ensures h in Step(w, a).stamped <==> h in w.stamped || StampsText(w, a, h)
  {
    match a
    case Reader(s) =>
      assert forall x :: x in [s] <==> x == s;
      StampsOnlyGrow([s], w.stamped);
    case Tick(_, gap) => StampsOnlyGrow(gap, w.stamped);
  }

  /**
   * A text not stamped before position `k`, where a commit puts it on the clipboard, say:
   * a later pass that reads it sends it back exactly when the pass was kicked or the pass
   * before it held the text, and either nothing has stamped it from `k` to the pass's
   * check - the commit's own stamp is still to come - or four others were stamped since.
   */
  lemma CommittedTextIsEchoedIff(start: World, run: seq<Action>, k: nat, i: Input)
    requires Fresh(start) && NoReset(run) && k <= |run|
    requires Candidate(i).Some? && !NamesASentFile(AtCheck(Run(start, run).poll, i), i)
    requires Candidate(i).value.hash !in Run(start, run[..k]).stamped
    ensures var h := Candidate(i).value.hash;
            Ships(Run(start, run).poll, i)
            <==> && (!StampedFrom(start, run, k, h) || |Since(Run(start, run).stamped, h)| >= TEXT_HISTORY)
                 && (i.kicked || HeldByLatest(start, run) == Some(h))
  {
    hide StampedFrom, Ships, HeldByLatest, Since;
    ShipsIff(start, run, i);
    StampedSince(start, run, k, Candidate(i).value.hash);
  }

  /** It can happen: a kicked pass between the put and the stamp. */
  lemma UnstampedCommitIsEchoed(start: World, i: Input)
    requires Fresh(start) && Candidate(i).Some? && !NamesASentFile(AtCheck(start.poll, i), i)
    requires i.kicked && !MatchesText(start.poll.seen, Candidate(i).value.hash)
    ensures var h := Candidate(i).value.hash;
            var put := Step(start, Reader(Put(h)));
            var sent := Step(put, Tick(i, []));
            h in sent.shipped && h in Step(sent, Reader(TextStamp(h))).stamped
  {
    var h := Candidate(i).value.hash;
    assert [Put(h)][..0] == [] && [TextStamp(h)][..0] == [];
    assert NewStamps([], start.stamped) == start.stamped;
    assert Ships(Step(start, Reader(Put(h))).poll, i);
  }

  // ----- Debounce

  /** The hash held over by the latest pass, if that pass held one. */
  function HeldByLatest(start: World, run: seq<Action>): Option<Hash> {
    if run == [] then None
    else
      var w := Run(start, run[..|run| - 1]);
      match run[|run| - 1]
      case Reader(_) => HeldByLatest(start, run[..|run| - 1])
      case Tick(i, _) =>
        if Verdict(AtCheck(w.poll, i), i) == Some(Hold) then Some(Candidate(i).value.hash) else None
  }

  lemma {:induction false} PendingIsHeld(start: World, run: seq<Action>)
    requires Fresh(start)
    ensures Run(start, run).poll.pending == HeldByLatest(start, run)
  {
    if run != [] {
      PendingIsHeld(start, run[..|run| - 1]);
    }
  }

  /**
   * Without a kick, a pass ships a text only if the pass just before it - with sending
   * enabled and the link up - saw and held the same hash.
   */
  lemma OnlyStableTextShips(start: World, run: seq<Action>, i: Input)
    requires Fresh(start) && Ships(Run(start, run).poll, i) && !i.kicked
    ensures exists k :: 0 <= k < |run| && HeldAt(start, run, k, Candidate(i).value.hash)
                        && forall j | k < j < |run| :: run[j].Reader?
  {
    PendingIsHeld(start, run);
    var k := LatestHold(start, run, Candidate(i).value.hash);
  }

  /** Action `k` is a pass that saw `h`, was free to send, and held it. */
  ghost predicate HeldAt(start: World, run: seq<Action>, k: nat, h: Hash)
    requires k < |run|
  {
    && run[k].Tick? && Candidate(run[k].i).Some? && Candidate(run[k].i).value.hash == h
    && run[k].i.sendText && run[k].i.linkUp
    && Verdict(AtCheck(Run(start, run[..k]).poll, run[k].i), run[k].i) == Some(Hold)
  }

  lemma {:induction false} LatestHold(start: World, run: seq<Action>, h: Hash) returns (k: nat)
    requires HeldByLatest(start, run) == Some(h)
    ensures k < |run| && HeldAt(start, run, k, h) && forall j | k < j < |run| :: run[j].Reader?
  {
    var n := |run| - 1;
    if run[n].Tick? {
      k := n;
    } else {
      k := LatestHold(start, run[..n], h);
      assert run[..n][..k] == run[..k] && run[..n][k] == run[k];
      forall j | k < j < |run| ensures run[j].Reader? { assert j < n ==> run[j] == run[..n][j]; }
    }
  }

  /**
   * A text that a pass reads, and that names no recently sent file, is in the history after
   * the pass exactly when the pass stamps it - the history did not have it, and the pass was
   * kicked or the pass before held it - or the stamps so far, with those that land before
   * the pass's own, leave it there.
   */
  lemma StableTextSettles(start: World, run: seq<Action>, i: Input, gap: seq<Stamp>)
    requires Fresh(start) && Candidate(i).Some?
    requires !NamesASentFile(AtCheck(Run(start, run).poll, i), i)
    ensures var h := Candidate(i).value.hash;
            var before := Run(start, run).stamped;
            MatchesText(Run(start, run + [Tick(i, gap)]).poll.seen, h)
            <==> || (!Remembered(before, h) && (i.kicked || HeldByLatest(start, run) == Some(h)))
                 || Remembered(NewStamps(gap, before), h)
  {
    var h := Candidate(i).value.hash;
    var w := Run(start, run);
    RunSnoc(start, run, Tick(i, gap));
    PassOnTexts(w.poll, i, gap);
    HistoryIsStamped(start, run);
    HistoryAfterStamps(AtCheck(w.poll, i).seen, gap, w.stamped);
    StampKeepsFront(ApplyAll(AtCheck(w.poll, i).seen, gap).textHistory, h);
    SuppressedIff(NewStamps(gap, w.stamped), h);
    ShipsIff(start, run, i);
    hide Ships, AtCheck, HeldByLatest, ApplyAll, NewStamps, InterleavedPass, Touch, Stamped, NamesASentFile, Run;
  }

  lemma StampKeepsFront(history: seq<Hash>, h: Hash)
    ensures h in Touch(history, h)
  {
    assert Touch(history, h)[0] == h;
  }

  /** A fresh start, and one text of one byte that every pass sees. */
  const QUIET := World(Startup(NOTHING_SEEN, [], None, None, 0, None), [], [])
  const SEEN := Input(false, true, true, false, false, 0, None, Some(Text("a", [97], 4)), None, 0)

  lemma RunSnoc(start: World, run: seq<Action>, a: Action)
    ensures Run(start, run + [a]) == Step(Run(start, run), a)
  {
    assert (run + [a])[..|run|] == run;
  }

  lemma PassRuns(start: World, run: seq<Action>, i: Input, gap: seq<Stamp>) returns (more: seq<Action>)
    ensures more == run + [Tick(i, gap)]
    ensures Run(start, more).poll == InterleavedPass(Run(start, run).poll, i, gap)
  {
    hide InterleavedPass;
    more := run + [Tick(i, gap)];
    RunSnoc(start, run, Tick(i, gap));
  }

  lemma ReaderStamps(start: World, run: seq<Action>, h: Hash) returns (more: seq<Action>)
    ensures more == run + [Reader(TextStamp(h))]
    ensures Run(start, more).poll
            == Run(start, run).poll.(seen := StampText(Run(start, run).poll.seen, h))
  {
    more := run + [Reader(TextStamp(h))];
    RunSnoc(start, run, Reader(TextStamp(h)));
  }

  /** A new text pushes the oldest out of a full history. */
  lemma PushesOut(history: seq<Hash>, h: Hash)
    requires |history| == TEXT_HISTORY && h !in history
    ensures Touch(history, h) == [h] + history[..TEXT_HISTORY - 1]
  {
    assert history[..|history|] == history;
    RemoveFirstSplit(history, h, |history|);
  }

  /** The reader commits the texts 4, 3, 2 and 1, and a pass skips 4. */
  lemma KnownTextIsSkipped() returns (run: seq<Action>)
    ensures Fresh(QUIET) && run != [] && run[|run| - 1] == Tick(SEEN, [])
    ensures Run(QUIET, run).poll.seen.textHistory == [1, 2, 3, 4]
    ensures Run(QUIET, run).poll.pending == None && Run(QUIET, run).poll.names == []
  {
    assert Run(QUIET, []) == QUIET;
    hide Run;
    run := ReaderStamps(QUIET, [], 4);
    run := ReaderStamps(QUIET, run, 3);
    assert Run(QUIET, run).poll.seen.textHistory == [3, 4];
    run := ReaderStamps(QUIET, run, 2);
    run := ReaderStamps(QUIET, run, 1);
    assert Run(QUIET, run).poll.seen.textHistory == [1, 2, 3, 4];
    assert Run(QUIET, run).poll.pending == None && Run(QUIET, run).poll.names == [];
    RunSnoc(QUIET, run, Tick(SEEN, []));
    PassOnTexts(Run(QUIET, run).poll, SEEN, []);
    run := run + [Tick(SEEN, [])];
  }

  /** A pass on the text in a quiet state neither knows it nor ships it. */
  lemma UnknownTextIsHeld(p: Poll)
    requires p.pending == None && p.names == [] && !MatchesText(p.seen, 4)
    ensures InterleavedPass(p, SEEN, []).seen.textHistory == p.seen.textHistory
  {
    PassOnTexts(p, SEEN, []);
  }

  /** One commit between two passes evicts the text, and the second pass only holds it. */
  lemma KnownTextMayBeLostBetweenPasses() returns (run: seq<Action>)
    ensures Fresh(QUIET) && |run| >= 3
    ensures run[|run| - 3] == Tick(SEEN, []) && run[|run| - 2].Reader? && run[|run| - 1] == Tick(SEEN, [])
    ensures MatchesText(Run(QUIET, run[..|run| - 2]).poll.seen, 4)
    ensures !MatchesText(Run(QUIET, run).poll.seen, 4)
  {
    hide InterleavedPass, Touch, Run, Fresh, Startup;
    var known := KnownTextIsSkipped();
    var evicted := ReaderStamps(QUIET, known, 9);
    PushesOut([1, 2, 3, 4], 9);
    var p := Run(QUIET, evicted).poll;
    assert p.seen.textHistory == [9] + [1, 2, 3];
    UnknownTextIsHeld(p);
    run := PassRuns(QUIET, evicted, SEEN, []);
    assert run[..|run| - 2] == known && run[|run| - 3] == known[|known| - 1];
  }

  lemma FreshStamp(l: LastSeen, ss: seq<Stamp>, h: Hash, a: Hash, b: Hash, c: Hash, d: Hash)
    returns (more: seq<Stamp>)
    requires ApplyAll(l, ss).textHistory == [a, b, c, d] && h != a && h != b && h != c && h != d
    ensures ApplyAll(l, more).textHistory == [h, a, b, c] && |more| == |ss| + 1
  {
    more := ss + [TextStamp(h)];
    assert more[..|ss|] == ss;
    PushesOut([a, b, c, d], h);
  }

  /** Four new texts push everything out. */
  lemma FourStamps(l: LastSeen) returns (gap: seq<Stamp>)
    requires l.textHistory == [1, 2, 3, 4]
    ensures |gap| == 4 && ApplyAll(l, gap).textHistory == [6, 7, 8, 9]
  {
    assert ApplyAll(l, []) == l;
    hide ApplyAll;
    gap := FreshStamp(l, [], 9, 1, 2, 3, 4);
    gap := FreshStamp(l, gap, 8, 9, 1, 2, 3);
    gap := FreshStamp(l, gap, 7, 8, 9, 1, 2);
    gap := FreshStamp(l, gap, 6, 7, 8, 9, 1);
  }

  /** So do four commits between the second pass's check, which still knows the text, and its end. */
  lemma KnownTextMayBeLostInsideAPass() returns (run: seq<Action>)
    ensures Fresh(QUIET) && |run| >= 2 && run[|run| - 2] == Tick(SEEN, [])
    ensures run[|run| - 1].Tick? && run[|run| - 1].i == SEEN && |run[|run| - 1].gap| == 4
    ensures MatchesText(Run(QUIET, run[..|run| - 1]).poll.seen, 4)
    ensures !MatchesText(Run(QUIET, run).poll.seen, 4)
  {
    hide InterleavedPass, Run, Fresh, Startup, ApplyAll;
    var known := KnownTextIsSkipped();
    var p := Run(QUIET, known).poll;
    var gap := FourStamps(AtCheck(p, SEEN).seen);
    KnownTextStaysUnshipped(p, gap);
    run := PassRuns(QUIET, known, SEEN, gap);
    assert run[..|run| - 1] == known && run[|run| - 2] == known[|known| - 1];
  }

  /** A pass that knows the text leaves the history to the gap. */
  lemma KnownTextStaysUnshipped(p: Poll, gap: seq<Stamp>)
    requires MatchesText(p.seen, 4)
    ensures InterleavedPass(p, SEEN, gap).seen.textHistory == ApplyAll(AtCheck(p, SEEN).seen, gap).textHistory
  {
    PassOnTexts(p, SEEN, gap);
  }

  // ----- Files

  /** The pasteboard counter the thread last compared against. */
  function LastCount(start: World, run: seq<Action>): int {
    if run == [] then start.poll.changeCount
    else match run[|run| - 1]
      case Reader(_) => LastCount(start, run[..|run| - 1])
      case Tick(i, _) => i.changeCount
  }

  lemma {:induction false} CounterFollowsPasteboard(start: World, run: seq<Action>)
    ensures Run(start, run).poll.changeCount == LastCount(start, run)
  {
    if run != [] {
      hide InterleavedPass, Ships, Candidate;
      var front, a := run[..|run| - 1], run[|run| - 1];
      CounterFollowsPasteboard(start, front);
      if a.Tick? { PassOnCounter(Run(start, front).poll, a.i, a.gap); }
    }
  }

  lemma PassOnCounter(p: Poll, i: Input, gap: seq<Stamp>)
    ensures InterleavedPass(p, i, gap).changeCount == i.changeCount
  {
  }

  /** How many file transfers a run put on the queue. */
  function FileSends(start: World, run: seq<Action>): nat {
    if run == [] then 0
    else
      var w := Run(start, run[..|run| - 1]);
      FileSends(start, run[..|run| - 1])
      + (if run[|run| - 1].Tick? && SendsFile(w.poll, run[|run| - 1].i) then 1 else 0)
  }

  /** The pass puts a file transfer on the queue. */
  predicate SendsFile(p: Poll, i: Input) {
    |AtCheck(p, i).out| > |p.out|
  }

  /** How many pasteboard changes its passes observed with file sending on and the link up. */
  function OpenChanges(start: World, run: seq<Action>): nat {
    if run == [] then 0
    else
      OpenChanges(start, run[..|run| - 1])
      + (match run[|run| - 1]
         case Reader(_) => 0
         case Tick(i, _) =>
           if i.changeCount != LastCount(start, run[..|run| - 1]) && i.sendFiles && i.linkUp then 1 else 0)
  }

  /**
   * A pass sends a file exactly when it is the first to observe a change, sending is on,
   * the link is up, the pasteboard holds a readable file, and its contents are not
   * already known; what it queues is then that file's transfer, ahead of anything else.
   */
  lemma FileSentIff(start: World, run: seq<Action>, i: Input)
    ensures var p := Run(start, run).poll;
            && (SendsFile(p, i)
                <==> && i.changeCount != LastCount(start, run) && i.sendFiles && i.linkUp
                     && i.file.Some? && i.file.value.Ready? && !MatchesFile(p.seen, i.file.value.hash))
            && (SendsFile(p, i) ==> AtCheck(p, i).out == p.out + Emission(FORMAT_FILE, i.file.value.packed))
  {
    CounterFollowsPasteboard(start, run);
  }

  /** So each observed change is sent at most once, and a change seen while sending is off never. */
  lemma {:induction false} AtMostOneSendPerChange(start: World, run: seq<Action>)
    ensures FileSends(start, run) <= OpenChanges(start, run)
  {
    if run != [] {
      AtMostOneSendPerChange(start, run[..|run| - 1]);
      if run[|run| - 1].Tick? {
        FileSentIff(start, run[..|run| - 1], run[|run| - 1].i);
      }
    }
  }

  ghost predicate QuietPasteboard(run: seq<Action>, count: int) {
    forall k | 0 <= k < |run| && run[k].Tick? :: run[k].i.changeCount == count
  }

  /**
   * A pass reports a file as too large exactly when it is the first to observe a change,
   * sending is on, the link is up, and the file on the pasteboard is over the cap and its
   * path not already known.
   */
  lemma FileToastIff(start: World, run: seq<Action>, i: Input, gap: seq<Stamp>)
    ensures var p := Run(start, run).poll;
            InterleavedPass(p, i, gap).fileToasts
            == p.fileToasts
               + if i.changeCount != LastCount(start, run) && i.sendFiles && i.linkUp
                    && i.file.Some? && i.file.value.Oversize? && !MatchesFile(p.seen, i.file.value.pathHash)
                 then 1 else 0
  {
    CounterFollowsPasteboard(start, run);
    PassOnToasts(Run(start, run).poll, i, gap);
  }

  /** After the file branch a pass reports no file. */
  lemma PassOnToasts(p: Poll, i: Input, gap: seq<Stamp>)
    ensures InterleavedPass(p, i, gap).fileToasts == AtCheck(p, i).fileToasts
  {
  }

  /** While the counter stands still no file is sent and no file toast is shown, whatever the switches do. */
  lemma {:induction false} NothingWithoutANewChange(start: World, run: seq<Action>)
    requires QuietPasteboard(run, start.poll.changeCount)
    ensures FileSends(start, run) == 0 && Run(start, run).poll.fileToasts == start.poll.fileToasts
    ensures LastCount(start, run) == start.poll.changeCount
  {
    if run != [] {
      var front, a := run[..|run| - 1], run[|run| - 1];
      NothingWithoutANewChange(start, front);
      if a.Tick? {
        FileSentIff(start, front, a.i);
        FileToastIff(start, front, a.i, a.gap);
      }
    }
  }

  /**
   * So a file over the size cap that was on the pasteboard at startup is reported by no
   * pass before something new is copied - although startup has not stamped it, so that
   * the first pass to observe a change to the same file does report it.
   */
  lemma OversizeAtStartupIsSilent(seen: LastSeen, queued: seq<Message>, text: Option<Text>, image: Option<Hash>,
                                  changeCount: int, pathHash: Hash, run: seq<Action>, stamped: seq<Hash>)
    requires QuietPasteboard(run, changeCount)
    ensures var p := Startup(seen, queued, text, image, changeCount, Some(Oversize(pathHash)));
            && (MatchesFile(p.seen, pathHash) <==> MatchesFile(seen, pathHash))
            && Run(World(p, stamped, []), run).poll.fileToasts == 0
  {
    var p := Startup(seen, queued, text, image, changeCount, Some(Oversize(pathHash)));
    NothingWithoutANewChange(World(p, stamped, []), run);
  }
}
