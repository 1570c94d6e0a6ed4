/** A map kept in ascending key order, the way a `BTreeMap` is iterated. */
module OrderedMap {
  import opened Wire

  datatype Entry = Entry(key: nat, data: Bytes)

  ghost predicate Ordered(es: seq<Entry>) {
    forall i, j | 0 <= i < j < |es| :: es[i].key < es[j].key
  }

  function Insert(es: seq<Entry>, key: nat, data: Bytes): seq<Entry> {
    if es == [] then [Entry(key, data)]
    else if key < es[0].key then [Entry(key, data)] + es
    else if key == es[0].key then [Entry(key, data)] + es[1..]
    else [es[0]] + Insert(es[1..], key, data)
  }

  function Find(es: seq<Entry>, key: nat): Option<Bytes> {
    if es == [] then None
    else if es[0].key == key then Some(es[0].data)
    else Find(es[1..], key)
  }

  /** All values, in key order. */
  function Values(es: seq<Entry>): Bytes {
    if es == [] then [] else es[0].data + Values(es[1..])
  }

  /** Keys are exactly 0, 1, 2, ... */
  predicate CountsUp(es: seq<Entry>) {
    forall i | 0 <= i < |es| :: es[i].key == i
  }

  lemma {:induction false} InsertFinds(es: seq<Entry>, key: nat, data: Bytes, k: nat)
    ensures Find(Insert(es, key, data), k) == if k == key then Some(data) else Find(es, k)
  {
    if es != [] && es[0].key < key {
      InsertFinds(es[1..], key, data, k);
      assert Insert(es, key, data)[1..] == Insert(es[1..], key, data);
    } else if es != [] && key < es[0].key {
      assert Insert(es, key, data)[1..] == es;
    }
  }

  /** Insertion brings in no entry but its own. */
  lemma {:induction false} InsertAddsOnly(es: seq<Entry>, key: nat, data: Bytes, i: nat)
    requires i < |Insert(es, key, data)|
    ensures Insert(es, key, data)[i] == Entry(key, data) || Insert(es, key, data)[i] in es
  {
    if es != [] && es[0].key < key && i > 0 {
      InsertAddsOnly(es[1..], key, data, i - 1);
    }
  }

  lemma {:induction false} InsertKeepsOrder(es: seq<Entry>, key: nat, data: Bytes)
    requires Ordered(es)
    ensures Ordered(Insert(es, key, data))
  {
    if es != [] && es[0].key < key {
      var rest := Insert(es[1..], key, data);
      InsertKeepsOrder(es[1..], key, data);
      forall j | 0 <= j < |rest| ensures es[0].key < rest[j].key {
        InsertAddsOnly(es[1..], key, data, j);
      }
      assert Insert(es, key, data) == [es[0]] + rest;
    }
  }

  lemma {:induction false} FindMeansPresent(es: seq<Entry>, key: nat)
    ensures Find(es, key).Some? ==> Entry(key, Find(es, key).value) in es
    ensures (exists e :: e in es && e.key == key) ==> Find(es, key).Some?
  {
    if es != [] && es[0].key != key {
      FindMeansPresent(es[1..], key);
      if e :| e in es && e.key == key { assert e in es[1..]; }
    }
  }

  /** In an ordered map the entry at position `i` is the one `Find` returns for its key. */
  lemma {:induction false} EntryIsFound(es: seq<Entry>, i: nat)
    requires Ordered(es) && i < |es|
    ensures Find(es, es[i].key) == Some(es[i].data)
  {
    if i > 0 {
      assert es[0].key < es[i].key;
      EntryIsFound(es[1..], i - 1);
    }
  }

  lemma {:induction false} PositionBound(es: seq<Entry>, i: nat)
    requires Ordered(es) && i < |es|
    ensures i <= es[i].key
  {
    if i > 0 { PositionBound(es, i - 1); }
  }

  /** The keys are exactly the numbers below the number of entries. */
  ghost predicate Segment(es: seq<Entry>) {
    forall k: nat :: Find(es, k).Some? <==> k < |es|
  }

  /** With no key at or above the length, keys cannot run ahead of their position. */
  lemma {:induction false} KeyCeiling(es: seq<Entry>, i: nat)
    requires Ordered(es) && i < |es| && Segment(es)
    ensures es[i].key <= i
    decreases |es| - i
  {
    EntryIsFound(es, i);
    if i + 1 < |es| { KeyCeiling(es, i + 1); }
  }

  /**
   * An ordered map counts up exactly when its keys are an initial segment: the test the
   * source makes on positions is the test it means on key sets.
   */
  lemma CountsUpIffSegment(es: seq<Entry>)
    requires Ordered(es)
    ensures CountsUp(es) <==> Segment(es)
  {
    if CountsUp(es) {
      forall k: nat ensures Find(es, k).Some? <==> k < |es| {
        FindMeansPresent(es, k);
        if k < |es| { EntryIsFound(es, k); }
      }
      assert Segment(es);
    }
    if Segment(es) {
      forall i | 0 <= i < |es| ensures es[i].key == i {
        PositionBound(es, i);
        KeyCeiling(es, i);
      }
    }
  }
}
