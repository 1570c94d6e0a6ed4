/** One pass of the clipboard poll thread (`spawn_poll_thread`). */
module PollLoop {
  import opened Wire
  import opened ClipSender
  import opened Dedup
  import opened FileNameGuard

  datatype FileOutcome =
    | Ready(name: string, hash: Hash, packed: Bytes)
    | Oversize(pathHash: Hash)
    | Skipped

  datatype Text = Text(content: string, bytes: Bytes, hash: Hash)

  /** A clipboard image: the hash of its pixels, and its PNG unless encoding failed. */
  datatype Image = Image(hash: Hash, png: Option<Bytes>)

  /** Everything one pass reads from outside: kick, switches, pasteboard and clock. */
  datatype Input = Input(kicked: bool, linkUp: bool,
                         sendText: bool, sendImages: bool, sendFiles: bool,
                         changeCount: int, file: Option<FileOutcome>,
                         text: Option<Text>, image: Option<Image>, now: Time)

  datatype Poll = Poll(seen: LastSeen, names: seq<Sent>, pending: Option<Hash>,
                       changeCount: int, out: seq<Message>,
                       inFlight: bool, fileLabel: string,
                       fileToasts: nat, imageToasts: nat)

  datatype Decision = Send | Hold | Skip

  function DecideTextSend(hash: Hash, alreadySent: bool, pending: Option<Hash>, kicked: bool): Decision {
    if alreadySent then Skip
    else if kicked || pending == Some(hash) then Send
    else Hold
  }

  // ----- The three branches of a pass, on values

  function FileStage(p: Poll, i: Input): Poll {
    if i.changeCount == p.changeCount then p
    else
      var q := p.(changeCount := i.changeCount);
      if i.file.None? || !i.sendFiles || !i.linkUp then q
      else match i.file.value
        case Ready(name, hash, packed) =>
          if MatchesFile(q.seen, hash) then q
          else q.(fileLabel := name, names := Pushed(q.names, name, i.now),
                  out := q.out + Emission(FORMAT_FILE, packed))
        case Oversize(pathHash) =>
          if MatchesFile(q.seen, pathHash) then q
          else q.(seen := q.seen.(oversizeFile := Some(pathHash)), fileToasts := q.fileToasts + 1)
        case Skipped => q
  }

  /** The text the pass considers: sending enabled, link up, something on the clipboard. */
  function Candidate(i: Input): Option<Text> {
    if i.sendText && i.linkUp && i.text.Some? && i.text.value.content != [] then i.text else None
  }

  predicate NamesASentFile(p: Poll, i: Input) {
    Candidate(i).Some? && AnyMatch(p.names, Candidate(i).value.content, i.now)
  }

  /** The decision on this pass's text, `None` when there is none to decide on. */
  function Verdict(p: Poll, i: Input): Option<Decision> {
    if Candidate(i).None? || NamesASentFile(p, i) then None
    else
      var h := Candidate(i).value.hash;
      Some(DecideTextSend(h, MatchesText(p.seen, h), p.pending, i.kicked))
  }

  /** Check and decide; the lock on the stamps is released before anything is shipped. */
  function TextProbe(p: Poll, i: Input): Poll {
    p.(names := if Candidate(i).Some? then Refreshed(p.names, Candidate(i).value.content, i.now) else p.names,
       pending := if Verdict(p, i) == Some(Hold) then Some(Candidate(i).value.hash) else None)
  }

  function TextShip(p: Poll, t: Text): Poll {
    var q := p.(seen := StampText(p.seen, t.hash));
    if |t.bytes| > MAX_TEXT_BYTES then q
    else q.(inFlight := true, out := q.out + Emission(FORMAT_TEXT, t.bytes))
  }

  function TextStage(p: Poll, i: Input): Poll {
    if Verdict(p, i) == Some(Send) then TextShip(TextProbe(p, i), Candidate(i).value) else TextProbe(p, i)
  }

  function ImageStage(p: Poll, i: Input): Poll {
    if !i.sendImages || !i.linkUp || i.image.None? then p
    else
      var img := i.image.value;
      if MatchesImage(p.seen, img.hash) || img.png.None? then p
      else if |img.png.value| > MAX_IMAGE_BYTES
      then p.(imageToasts := p.imageToasts + 1, seen := p.seen.(oversizeImage := Some(img.hash)))
      else p.(seen := StampImage(p.seen, img.hash), out := p.out + Emission(FORMAT_IMAGE, img.png.value))
  }

  function Pass(p: Poll, i: Input): Poll {
    ImageStage(TextStage(FileStage(p.(inFlight := false), i), i), i)
  }

  /**
   * Startup: what is already on the pasteboard is stamped, not sent. The link's threads may
   * have stamped and queued before.
   */
  function Startup(seen: LastSeen, queued: seq<Message>,
                   text: Option<Text>, image: Option<Hash>, changeCount: int, file: Option<FileOutcome>): Poll
  {
    var s0 := if text.Some? && text.value.content != [] then StampText(seen, text.value.hash) else seen;
    var s1 := if image.Some? then StampImage(s0, image.value) else s0;
    var s2 := if changeCount != -1 && file.Some? && file.value.Ready? then StampFile(s1, file.value.hash) else s1;
    Poll(s2, [], None, changeCount, queued, false, "", 0, 0)
  }

  // ----- The thread itself

  class PollThread {
    const state: ClipboardState
    const queue: PacketQueue
    const sentFileNames: SentFileNames
    var pendingTextHash: Option<Hash>
    var fileChangeCount: int
    var textInFlight: bool
    var outgoingLabel: string
    var fileToasts: nat
    var imageToasts: nat

    ghost function View(): Poll
      reads this, state, queue, sentFileNames
    {
      Poll(state.last, sentFileNames.entries, pendingTextHash, fileChangeCount,
           queue.packets, textInFlight, outgoingLabel, fileToasts, imageToasts)
    }

    constructor (state: ClipboardState, queue: PacketQueue,
                 text: Option<Text>, image: Option<Hash>, changeCount: int, file: Option<FileOutcome>)
      modifies state
      ensures this.state == state && this.queue == queue && fresh(sentFileNames)
      ensures View() == Startup(old(state.last), old(queue.packets), text, image, changeCount, file)
    {
      this.state, this.queue := state, queue;
      sentFileNames := new SentFileNames();
      pendingTextHash, fileChangeCount := None, -1;
      textInFlight, outgoingLabel, fileToasts, imageToasts := false, "", 0, 0;
      new;
      if text.Some? && text.value.content != [] {
        state.SetText(text.value.hash);
      }
      if image.Some? {
        state.SetImage(image.value);
      }
      var probe := PollFileUrl(changeCount, file);
      if probe.Some? && probe.value.Ready? {
        state.SetFile(probe.value.hash);
      }
    }

    /** The change-counter contract of `poll_file_url`: one report per observed change. */
    method PollFileUrl(current: int, file: Option<FileOutcome>) returns (found: Option<FileOutcome>)
      modifies this`fileChangeCount
      ensures fileChangeCount == current
      ensures found == if current == old(fileChangeCount) then None else file
    {
      if current == fileChangeCount {
        return None;
      }
      fileChangeCount := current;
      found := file;
    }

    method FileBranch(i: Input)
      modifies this, state, queue, sentFileNames
      ensures View() == FileStage(old(View()), i)
    {
      var found := PollFileUrl(i.changeCount, i.file);
      if found.None? || !i.sendFiles || !i.linkUp {
        return;
      }
      match found.value
      case Ready(name, hash, packed) =>
        if MatchesFile(state.last, hash) {
          return;
        }
        outgoingLabel := name;
        sentFileNames.PushSentFileName(name, i.now);
        EmitOfferAndChunks(queue, FORMAT_FILE, packed);
      case Oversize(pathHash) =>
        if MatchesFile(state.last, pathHash) {
          return;
        }
        fileToasts := fileToasts + 1;
        state.SetOversizeFile(pathHash);
      case Skipped =>
    }

    method TextBranch(i: Input)
      modifies this, state, queue, sentFileNames
      ensures View() == TextStage(old(View()), i)
    {
      if !i.sendText || !i.linkUp || i.text.None? || i.text.value.content == [] {
        pendingTextHash := None;
        return;
      }
      var text := i.text.value;
      var isSentFileName := sentFileNames.RecentFileNamesContains(text.content, i.now);
      if isSentFileName {
        pendingTextHash := None;
        return;
      }
      match DecideTextSend(text.hash, MatchesText(state.last, text.hash), pendingTextHash, i.kicked)
      case Skip => pendingTextHash := None;
      case Hold => pendingTextHash := Some(text.hash);
      case Send =>
        pendingTextHash := None;
        state.SetText(text.hash);
        if |text.bytes| <= MAX_TEXT_BYTES {
          textInFlight := true;
          EmitOfferAndChunks(queue, FORMAT_TEXT, text.bytes);
        }
    }

    method ImageBranch(i: Input)
      modifies this, state, queue
      ensures View() == ImageStage(old(View()), i)
    {
      if !i.sendImages || !i.linkUp || i.image.None? {
        return;
      }
      var img := i.image.value;
      if MatchesImage(state.last, img.hash) || img.png.None? {
        return;
      }
      if |img.png.value| > MAX_IMAGE_BYTES {
        imageToasts := imageToasts + 1;
        state.SetOversizeImage(img.hash);
        return;
      }
      state.SetImage(img.hash);
      EmitOfferAndChunks(queue, FORMAT_IMAGE, img.png.value);
    }

    method Tick(i: Input)
      modifies this, state, queue, sentFileNames
      ensures View() == Pass(old(View()), i)
    {
      textInFlight := false;
      FileBranch(i);
      TextBranch(i);
      ImageBranch(i);
    }
  }
}
