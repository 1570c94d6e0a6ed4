/** The shared dedup stamps (`LastSeen`, `ClipboardState`). Contents are seen only as hashes. */
module Dedup {
  import opened Wire

  type Hash = nat

  const TEXT_HISTORY: nat := 4

  datatype LastSeen = LastSeen(textHistory: seq<Hash>,
                               image: Option<Hash>, oversizeImage: Option<Hash>,
                               file: Option<Hash>, oversizeFile: Option<Hash>)

  const NOTHING_SEEN: LastSeen := LastSeen([], None, None, None, None)

  predicate MatchesText(l: LastSeen, h: Hash) { h in l.textHistory }

  predicate MatchesImage(l: LastSeen, h: Hash) { l.image == Some(h) || l.oversizeImage == Some(h) }

  predicate MatchesFile(l: LastSeen, h: Hash) { l.file == Some(h) || l.oversizeFile == Some(h) }

  /** `hs` without the first occurrence of `h`. */
  function RemoveFirst(hs: seq<Hash>, h: Hash): seq<Hash> {
    if hs == [] then [] else if hs[0] == h then hs[1..] else [hs[0]] + RemoveFirst(hs[1..], h)
  }

  function Take(hs: seq<Hash>, n: nat): seq<Hash> {
    if |hs| <= n then hs else hs[..n]
  }

  function Touch(history: seq<Hash>, h: Hash): seq<Hash> {
    if history != [] && history[0] == h then history
    else Take([h] + RemoveFirst(history, h), TEXT_HISTORY)
  }

  function StampText(l: LastSeen, h: Hash): LastSeen {
    l.(textHistory := Touch(l.textHistory, h))
  }

  function StampImage(l: LastSeen, h: Hash): LastSeen {
    l.(image := Some(h), oversizeImage := if l.oversizeImage == Some(h) then None else l.oversizeImage)
  }

  function StampFile(l: LastSeen, h: Hash): LastSeen {
    l.(file := Some(h), oversizeFile := if l.oversizeFile == Some(h) then None else l.oversizeFile)
  }

  class ClipboardState {
    var last: LastSeen

    constructor ()
      ensures last == NOTHING_SEEN
    {
      last := NOTHING_SEEN;
    }

    method SetText(h: Hash)
      modifies this
      ensures last == StampText(old(last), h)
    {
      var history := last.textHistory;
      if history != [] && history[0] == h {
        return;
      }
      var pos := Position(history, h);
      if pos.Some? {
        history := history[..pos.value] + history[pos.value + 1..];
      }
      history := [h] + history;
      while |history| > TEXT_HISTORY
        invariant Take(history, TEXT_HISTORY) == Touch(old(last).textHistory, h)
      {
        history := history[..|history| - 1];
      }
      last := last.(textHistory := history);
    }

    method SetImage(h: Hash)
      modifies this
      ensures last == StampImage(old(last), h)
    {
      last := last.(image := Some(h));
      if last.oversizeImage == Some(h) { last := last.(oversizeImage := None); }
    }

    method SetOversizeImage(h: Hash)
      modifies this
      ensures last == old(last).(oversizeImage := Some(h))
    {
      last := last.(oversizeImage := Some(h));
    }

    method SetFile(h: Hash)
      modifies this
      ensures last == StampFile(old(last), h)
    {
      last := last.(file := Some(h));
      if last.oversizeFile == Some(h) { last := last.(oversizeFile := None); }
    }

    method SetOversizeFile(h: Hash)
      modifies this
      ensures last == old(last).(oversizeFile := Some(h))
    {
      last := last.(oversizeFile := Some(h));
    }

    method Reset()
      modifies this
      ensures last == NOTHING_SEEN
    {
      last := NOTHING_SEEN;
    }
  }

  /** The position of the first occurrence, and what removing it leaves. */
  method Position(hs: seq<Hash>, h: Hash) returns (pos: Option<nat>)
    ensures pos.None? ==> h !in hs && RemoveFirst(hs, h) == hs
    ensures pos.Some? ==> pos.value < |hs| && hs[pos.value] == h && h !in hs[..pos.value]
    ensures pos.Some? ==> hs[..pos.value] + hs[pos.value + 1..] == RemoveFirst(hs, h)
  {
    var i := 0;
    while i < |hs| && hs[i] != h
      invariant 0 <= i <= |hs| && h !in hs[..i]
    {
      i := i + 1;
    }
    RemoveFirstSplit(hs, h, i);
    pos := if i < |hs| then Some(i) else None;
  }

  lemma {:induction false} RemoveFirstSplit(hs: seq<Hash>, h: Hash, i: nat)
    requires i <= |hs| && h !in hs[..i] && (i < |hs| ==> hs[i] == h)
    ensures RemoveFirst(hs, h) == if i < |hs| then hs[..i] + hs[i + 1..] else hs
  {
    if i > 0 {
      assert hs[0] == hs[..i][0];
      assert hs[1..][..i - 1] == hs[..i][1..];
      RemoveFirstSplit(hs[1..], h, i - 1);
    }
  }

  // ----- The history over whole runs

  function Stamped(hs: seq<Hash>): seq<Hash> {
    if hs == [] then [] else Touch(Stamped(hs[..|hs| - 1]), hs[|hs| - 1])
  }

  function Without(hs: seq<Hash>, h: Hash): seq<Hash> {
    if hs == [] then []
    else (if hs[0] == h then [] else [hs[0]]) + Without(hs[1..], h)
  }

  /** Every distinct value ever stamped, most recent first: the list with no bound. */
  function Recent(hs: seq<Hash>): seq<Hash> {
    if hs == [] then [] else [hs[|hs| - 1]] + Without(Recent(hs[..|hs| - 1]), hs[|hs| - 1])
  }

  ghost predicate NoDuplicates(hs: seq<Hash>) {
    forall i, j | 0 <= i < j < |hs| :: hs[i] != hs[j]
  }

  lemma {:induction false} WithoutFacts(hs: seq<Hash>, h: Hash)
    ensures forall x :: x in Without(hs, h) <==> x in hs && x != h
    ensures NoDuplicates(hs) ==> NoDuplicates(Without(hs, h)) && Without(hs, h) == RemoveFirst(hs, h)
    ensures h !in hs ==> Without(hs, h) == hs
  {
    if hs != [] {
      WithoutFacts(hs[1..], h);
      if NoDuplicates(hs) {
        assert hs[0] !in hs[1..];
        assert NoDuplicates(hs[1..]);
      }
    }
  }

  lemma {:induction false} RecentFacts(hs: seq<Hash>)
    ensures NoDuplicates(Recent(hs))
    ensures forall x :: x in Recent(hs) <==> x in hs
  {
    if hs != [] {
      var n := |hs| - 1;
      RecentFacts(hs[..n]);
      WithoutFacts(Recent(hs[..n]), hs[n]);
      assert hs == hs[..n] + [hs[n]];
    }
  }

  /** Cutting a list before removing one value keeps the first `n - 1` survivors. */
  lemma {:induction false} RemoveFromTake(hs: seq<Hash>, h: Hash, n: nat)
    requires NoDuplicates(hs) && n > 0
    ensures Take(RemoveFirst(Take(hs, n), h), n - 1) == Take(RemoveFirst(hs, h), n - 1)
  {
    if hs != [] && n > 1 {
      assert Take(hs, n)[0] == hs[0] && Take(hs, n)[1..] == Take(hs[1..], n - 1);
      if hs[0] != h {
        var cut, whole := RemoveFirst(Take(hs[1..], n - 1), h), RemoveFirst(hs[1..], h);
        RemoveFromTake(hs[1..], h, n - 1);
        assert Take([hs[0]] + cut, n - 1) == [hs[0]] + Take(cut, n - 2);
        assert Take([hs[0]] + whole, n - 1) == [hs[0]] + Take(whole, n - 2);
      }
    }
  }

  lemma TouchOfTake(hs: seq<Hash>, h: Hash)
    requires NoDuplicates(hs)
    ensures Touch(Take(hs, TEXT_HISTORY), h) == Take([h] + RemoveFirst(hs, h), TEXT_HISTORY)
  {
    RemoveFromTake(hs, h, TEXT_HISTORY);
    if hs != [] && hs[0] == h {
      assert [h] + RemoveFirst(hs, h) == hs;
    } else {
      var cut, whole := RemoveFirst(Take(hs, TEXT_HISTORY), h), RemoveFirst(hs, h);
      assert Take([h] + cut, TEXT_HISTORY) == [h] + Take(cut, TEXT_HISTORY - 1);
      assert Take([h] + whole, TEXT_HISTORY) == [h] + Take(whole, TEXT_HISTORY - 1);
    }
  }

  /**
   * The bounded history is always the first four of the distinct stamped values in
   * most-recent-first order: evicting never disturbs what is kept.
   */
  lemma {:induction false} HistoryIsRecentPrefix(hs: seq<Hash>)
    ensures Stamped(hs) == Take(Recent(hs), TEXT_HISTORY)
  {
    if hs != [] {
      var n := |hs| - 1;
      HistoryIsRecentPrefix(hs[..n]);
      RecentFacts(hs[..n]);
      WithoutFacts(Recent(hs[..n]), hs[n]);
      TouchOfTake(Recent(hs[..n]), hs[n]);
    }
  }

  /** The distinct values stamped after the last time `h` was. */
  ghost function Since(hs: seq<Hash>, h: Hash): set<Hash> {
    if hs == [] || hs[|hs| - 1] == h then {} else Since(hs[..|hs| - 1], h) + {hs[|hs| - 1]}
  }

  ghost function Elements(hs: seq<Hash>): set<Hash> {
    set x | x in hs
  }

  lemma {:induction false} DistinctCount(hs: seq<Hash>)
    requires NoDuplicates(hs)
    ensures |Elements(hs)| == |hs|
  {
    if hs != [] {
      DistinctCount(hs[1..]);
      assert Elements(hs) == Elements(hs[1..]) + {hs[0]} && hs[0] !in hs[1..];
    }
  }

  /** `h` stands in the unbounded list behind exactly the values stamped since. */
  lemma {:induction false} RecentPosition(hs: seq<Hash>, h: Hash) returns (before: seq<Hash>, after: seq<Hash>)
    requires h in hs
    ensures Recent(hs) == before + [h] + after && Elements(before) == Since(hs, h)
  {
    var n := |hs| - 1;
    if hs[n] == h {
      before, after := [], Without(Recent(hs[..n]), h);
    } else {
      assert hs == hs[..n] + [hs[n]];
      var b, a := RecentPosition(hs[..n], h);
      WithoutSplit(b, h, a, hs[n]);
      WithoutFacts(b, hs[n]);
      before, after := [hs[n]] + Without(b, hs[n]), Without(a, hs[n]);
      assert Elements(before) == Elements(b) + {hs[n]};
    }
  }

  lemma {:induction false} WithoutSplit(b: seq<Hash>, h: Hash, a: seq<Hash>, x: Hash)
    requires x != h
    ensures Without(b + [h] + a, x) == Without(b, x) + [h] + Without(a, x)
  {
    if b == [] {
      assert [] + [h] + a == [h] + a;
    } else {
      assert (b + [h] + a)[1..] == b[1..] + [h] + a;
      WithoutSplit(b[1..], h, a, x);
    }
  }

  /**
   * A hash is still suppressed exactly when it was stamped and fewer than four distinct
   * other hashes were stamped since.
   */
  lemma SuppressedIff(hs: seq<Hash>, h: Hash)
    ensures h in Stamped(hs) <==> h in hs && |Since(hs, h)| < TEXT_HISTORY
  {
    HistoryIsRecentPrefix(hs);
    RecentFacts(hs);
    if h in hs {
      var before, after := RecentPosition(hs, h);
      var all := Recent(hs);
      assert all[|before|] == h;
      assert NoDuplicates(before) by {
        assert forall i | 0 <= i < |before| :: before[i] == all[i];
      }
      DistinctCount(before);
      if |before| < TEXT_HISTORY {
        assert Take(all, TEXT_HISTORY)[|before|] == h;
      }
    }
  }

  lemma {:induction false} SinceIsOther(hs: seq<Hash>, h: Hash)
    ensures Since(hs, h) <= Elements(hs) - {h}
  {
    if hs != [] && hs[|hs| - 1] != h {
      SinceIsOther(hs[..|hs| - 1], h);
    }
  }

  lemma {:induction false} SmallerSet(a: set<Hash>, b: set<Hash>)
    requires a <= b
    ensures |a| <= |b|
  {
    if a != {} {
      var x :| x in a;
      SmallerSet(a - {x}, b - {x});
    }
  }

  /** With at most four distinct hashes in play nothing stamped is ever forgotten. */
  lemma FewValuesNeverForgotten(hs: seq<Hash>, h: Hash)
    requires |Elements(hs)| <= TEXT_HISTORY
    ensures h in Stamped(hs) <==> h in hs
  {
    SuppressedIff(hs, h);
    if h in hs {
      SinceIsOther(hs, h);
      SmallerSet(Since(hs, h), Elements(hs) - {h});
    }
  }
}
