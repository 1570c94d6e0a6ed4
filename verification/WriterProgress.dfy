/** The writer thread's progress counters (`apply_outgoing_progress_with_label`). */
module WriterProgress {
  import opened Wire
  import opened ClipSender

  datatype Counters = Counters(progress: nat, total: nat, fileLabel: string)

  function Account(c: Counters, m: Message): Counters {
    match m
    case ClipOffer(_, len) => c.(progress := 0, total := len)
    case ClipChunk(_, data) =>
      if c.total > 0 && c.progress + |data| >= c.total then Counters(0, 0, "")
      else c.(progress := c.progress + |data|)
    case ClipDecline(_) => c
  }

  function AccountAll(c: Counters, ms: seq<Message>): Counters {
    if ms == [] then c else Account(AccountAll(c, ms[..|ms| - 1]), ms[|ms| - 1])
  }

  class ProgressCounters {
    var outgoingProgress: nat
    var outgoingTotal: nat
    var currentOutgoingLabel: string

    ghost function View(): Counters
      reads this
    {
      Counters(outgoingProgress, outgoingTotal, currentOutgoingLabel)
    }

    /** Called after each packet that was written to the wire. */
    method Apply(m: Message)
      modifies this
      ensures View() == Account(old(View()), m)
    {
      match m
      case ClipOffer(_, len) =>
        outgoingTotal := len;
        outgoingProgress := 0;
      case ClipChunk(_, data) =>
        outgoingProgress := outgoingProgress + |data|;
        if outgoingTotal > 0 && outgoingProgress >= outgoingTotal {
          outgoingTotal, outgoingProgress := 0, 0;
          currentOutgoingLabel := "";
        }
      case ClipDecline(_) =>
    }
  }

  datatype Payload = Payload(format: nat, bytes: Bytes)

  ghost predicate Sendable(p: Payload) {
    p.bytes != [] && |p.bytes| < U32
  }

  /** The packets of back-to-back transfers, as they leave the queue. */
  function Stream(ps: seq<Payload>): seq<Message> {
    if ps == [] then []
    else Stream(ps[..|ps| - 1]) + Emission(ps[|ps| - 1].format, ps[|ps| - 1].bytes)
  }

  function DataBytes(ms: seq<Message>): nat {
    if ms == [] then 0
    else DataBytes(ms[..|ms| - 1]) + (if ms[|ms| - 1].ClipChunk? then |ms[|ms| - 1].data| else 0)
  }

  lemma {:induction false} AccountSplit(c: Counters, a: seq<Message>, b: seq<Message>)
    ensures AccountAll(c, a + b) == AccountAll(AccountAll(c, a), b)
  {
    if b == [] {
      assert a + b == a;
    } else {
      assert (a + b)[..|a + b| - 1] == a + b[..|b| - 1];
      AccountSplit(c, a, b[..|b| - 1]);
    }
  }

  lemma {:induction false} PrefixBytes(p: Payload, k: nat)
    requires k <= |Chunks(p.bytes)|
    ensures 1 + k <= |Emission(p.format, p.bytes)|
    ensures DataBytes(Emission(p.format, p.bytes)[..1 + k]) == |Concat(Chunks(p.bytes)[..k])|
  {
    EmissionLength(p.format, p.bytes);
    var sent, parts := Emission(p.format, p.bytes)[..1 + k], Chunks(p.bytes);
    if k == 0 {
      assert sent[..0] == [];
    } else {
      PrefixBytes(p, k - 1);
      assert sent[..k] == Emission(p.format, p.bytes)[..k];
      NumberedAt(parts, 0, k - 1);
      ConcatAppend(parts, k);
    }
  }

  lemma ConcatAppend(parts: seq<Bytes>, k: nat)
    requires 0 < k <= |parts|
    ensures Concat(parts[..k]) == Concat(parts[..k - 1]) + parts[k - 1]
  {
    assert parts[..k] == parts[..k - 1] + [parts[k - 1]];
    ConcatSplit(parts[..k - 1], [parts[k - 1]]);
  }

  /** Part of the chunks is part of the bytes; all bytes only with the last chunk. */
  lemma {:induction false} PartialBytes(payload: Bytes, k: nat)
    requires k <= |Chunks(payload)|
    ensures |Concat(Chunks(payload)[..k])| <= |payload|
    ensures |Concat(Chunks(payload)[..k])| == |payload| <==> k == |Chunks(payload)|
    decreases |Chunks(payload)| - k
  {
    var parts := Chunks(payload);
    if k == |parts| {
      assert parts[..k] == parts;
      ConcatOfChunks(payload);
    } else {
      PartialBytes(payload, k + 1);
      ConcatAppend(parts, k + 1);
      ChunkSizes(payload, k);
    }
  }

  lemma {:induction false} WithinTransfer(c: Counters, p: Payload, k: nat)
    requires Sendable(p) && k <= |Chunks(p.bytes)|
    ensures 1 + k <= |Emission(p.format, p.bytes)|
    ensures AccountAll(c, Emission(p.format, p.bytes)[..1 + k])
            == if k < |Chunks(p.bytes)| then Counters(|Concat(Chunks(p.bytes)[..k])|, |p.bytes|, c.fileLabel)
               else Counters(0, 0, "")
  {
    EmissionLength(p.format, p.bytes);
    var packets, parts := Emission(p.format, p.bytes), Chunks(p.bytes);
    var sent := packets[..1 + k];
    if k == 0 {
      assert sent == [packets[0]] && sent[..0] == [];
      assert AccountAll(c, sent) == Account(AccountAll(c, sent[..0]), packets[0]);
    } else {
      WithinTransfer(c, p, k - 1);
      assert sent[..k] == packets[..k];
      NumberedAt(parts, 0, k - 1);
      ConcatAppend(parts, k);
      PartialBytes(p.bytes, k);
      PartialBytes(p.bytes, k - 1);
    }
  }

  lemma {:induction false} BetweenTransfers(c: Counters, ps: seq<Payload>)
    requires c.progress == 0 && c.total == 0 && forall p | p in ps :: Sendable(p)
    ensures var after := AccountAll(c, Stream(ps));
            after.progress == 0 && after.total == 0
            && after.fileLabel == if ps == [] then c.fileLabel else ""
  {
    if ps != [] {
      var last := ps[|ps| - 1];
      BetweenTransfers(c, ps[..|ps| - 1]);
      var packets := Emission(last.format, last.bytes);
      AccountSplit(c, Stream(ps[..|ps| - 1]), packets);
      WithinTransfer(AccountAll(c, Stream(ps[..|ps| - 1])), last, |Chunks(last.bytes)|);
      EmissionLength(last.format, last.bytes);
      assert packets[..1 + |Chunks(last.bytes)|] == packets;
    }
  }

  /**
   * After any number of complete transfers and `k` chunks of the next: progress is the
   * number of data bytes of the current transfer already on the wire and is below the
   * total while chunks remain; with the last chunk both counters return to zero.
   */
  lemma ProgressTracksTheWire(c: Counters, ps: seq<Payload>, next: Payload, k: nat)
    requires c.progress == 0 && c.total == 0 && forall p | p in ps :: Sendable(p)
    requires Sendable(next) && k <= |Chunks(next.bytes)|
    ensures 1 + k <= |Emission(next.format, next.bytes)|
    ensures var sent := Emission(next.format, next.bytes)[..1 + k];
            var after := AccountAll(c, Stream(ps) + sent);
            if k < |Chunks(next.bytes)|
            then after.progress == DataBytes(sent) < after.total == |next.bytes|
            else after.progress == 0 == after.total
  {
    EmissionLength(next.format, next.bytes);
    var sent := Emission(next.format, next.bytes)[..1 + k];
    BetweenTransfers(c, ps);
    AccountSplit(c, Stream(ps), sent);
    WithinTransfer(AccountAll(c, Stream(ps)), next, k);
    PrefixBytes(next, k);
    PartialBytes(next.bytes, k);
  }

  /**
   * The file-name label survives until the last chunk and is then cleared, whatever the
   * format: a text or image transfer ahead of a queued file erases that file's label.
   */
  lemma EveryCompletionClearsTheLabel(c: Counters, p: Payload, k: nat)
    requires Sendable(p) && k <= |Chunks(p.bytes)|
    ensures 1 + k <= |Emission(p.format, p.bytes)|
    ensures AccountAll(c, Emission(p.format, p.bytes)[..1 + k]).fileLabel
            == if k < |Chunks(p.bytes)| then c.fileLabel else ""
  {
    WithinTransfer(c, p, k);
  }
}
