/**
 * What a run of the poll thread sends and reports, told from what its passes read and what
 * others stamped: the state of the thread itself is not looked at.
 */
module PollEffects {
  import opened Wire
  import opened ClipSender
  import opened Dedup
  import opened PollLoop
  import opened PollRuns

  // ----- The stamps that images and files leave

  /** A stamp, a report of something too large, or a reset. */
  datatype Mark = Seen(hash: Hash) | TooLarge(hash: Hash) | Wiped

  /** The latest stamp since the last reset is this one. */
  predicate SeenLast(marks: seq<Mark>, h: Hash) {
    marks != [] &&
    match marks[|marks| - 1]
    case Seen(x) => x == h
    case TooLarge(_) => SeenLast(marks[..|marks| - 1], h)
    case Wiped => false
  }

  /** The latest report since the last reset is of this one, and it was not stamped since. */
  predicate ReportStands(marks: seq<Mark>, h: Hash) {
    marks != [] &&
    match marks[|marks| - 1]
    case Seen(x) => x != h && ReportStands(marks[..|marks| - 1], h)
    case TooLarge(x) => x == h
    case Wiped => false
  }

  predicate Known(marks: seq<Mark>, h: Hash) {
    SeenLast(marks, h) || ReportStands(marks, h)
  }

  ghost predicate Fit(seen: Option<Hash>, oversize: Option<Hash>, marks: seq<Mark>) {
    forall h: Hash :: (seen == Some(h) <==> SeenLast(marks, h)) && (oversize == Some(h) <==> ReportStands(marks, h))
  }

  lemma FitSnoc(seen: Option<Hash>, oversize: Option<Hash>, marks: seq<Mark>, m: Mark)
    requires Fit(seen, oversize, marks)
    ensures match m
            case Seen(h) => Fit(Some(h), if oversize == Some(h) then None else oversize, marks + [m])
            case TooLarge(h) => Fit(seen, Some(h), marks + [m])
            case Wiped => Fit(None, None, marks + [m])
  {
    assert (marks + [m])[..|marks|] == marks;
  }

  // ----- Images

  function ImageMark(s: Stamp): seq<Mark> {
    match s
    case ImageStamp(h) => [Seen(h)]
    case Forget => [Wiped]
    case _ => []
  }

  function ImageMarksOf(ss: seq<Stamp>): seq<Mark> {
    if ss == [] then [] else ImageMarksOf(ss[..|ss| - 1]) + ImageMark(ss[|ss| - 1])
  }

  /** There is an image to send or to report. */
  predicate ImageDue(i: Input, marks: seq<Mark>) {
    && i.sendImages && i.linkUp && i.image.Some? && i.image.value.png.Some?
    && !Known(marks, i.image.value.hash)
  }

  predicate SendsImage(i: Input, marks: seq<Mark>) {
    ImageDue(i, marks) && |i.image.value.png.value| <= MAX_IMAGE_BYTES
  }

  predicate ReportsImage(i: Input, marks: seq<Mark>) {
    ImageDue(i, marks) && |i.image.value.png.value| > MAX_IMAGE_BYTES
  }

  function OwnImageMark(i: Input, marks: seq<Mark>): seq<Mark> {
    if SendsImage(i, marks) then [Seen(i.image.value.hash)]
    else if ReportsImage(i, marks) then [TooLarge(i.image.value.hash)]
    else []
  }

  /** What a run adds to the marks that images have left before it. */
  function ImageMarks(earlier: seq<Mark>, run: seq<Action>): seq<Mark> {
    if run == [] then earlier
    else
      var before := ImageMarks(earlier, run[..|run| - 1]);
      match run[|run| - 1]
      case Reader(s) => before + ImageMark(s)
      case Tick(i, gap) =>
        var marks := before + ImageMarksOf(gap);
        marks + OwnImageMark(i, marks)
  }

  ghost predicate ImagesFit(l: LastSeen, marks: seq<Mark>) {
    Fit(l.image, l.oversizeImage, marks)
  }

  lemma StampFitsImages(l: LastSeen, marks: seq<Mark>, s: Stamp)
    requires ImagesFit(l, marks)
    ensures ImagesFit(Apply(l, s), marks + ImageMark(s))
  {
    hide Fit;
    if ImageMark(s) != [] {
      FitSnoc(l.image, l.oversizeImage, marks, ImageMark(s)[0]);
    } else {
      assert marks + [] == marks;
    }
  }

  lemma {:induction false} StampsFitImages(l: LastSeen, marks: seq<Mark>, ss: seq<Stamp>)
    requires ImagesFit(l, marks)
    ensures ImagesFit(ApplyAll(l, ss), marks + ImageMarksOf(ss))
  {
    hide ImagesFit, ImageMark;
    if ss == [] {
      assert marks + [] == marks;
    } else {
      var front, s := ss[..|ss| - 1], ss[|ss| - 1];
      StampsFitImages(l, marks, front);
      StampFitsImages(ApplyAll(l, front), marks + ImageMarksOf(front), s);
      assert marks + ImageMarksOf(ss) == marks + ImageMarksOf(front) + ImageMark(s);
    }
  }

  /** The text branch leaves the image stamps to the gap, and the file branch leaves them alone. */
  lemma ImageStampsAtImage(p: Poll, i: Input, gap: seq<Stamp>)
    ensures AtCheck(p, i).seen.image == p.seen.image && AtCheck(p, i).seen.oversizeImage == p.seen.oversizeImage
    ensures AtImage(p, i, gap).seen.image == ApplyAll(AtCheck(p, i).seen, gap).image
    ensures AtImage(p, i, gap).seen.oversizeImage == ApplyAll(AtCheck(p, i).seen, gap).oversizeImage
    ensures AtImage(p, i, gap).imageToasts == p.imageToasts
  {
  }

  /** What the image branch does, told from the marks. */
  lemma ImageStageDoes(p: Poll, i: Input, marks: seq<Mark>)
    requires ImagesFit(p.seen, marks)
    ensures var q := ImageStage(p, i);
            && q.out == p.out + (if SendsImage(i, marks) then Emission(FORMAT_IMAGE, i.image.value.png.value) else [])
            && q.imageToasts == p.imageToasts + (if ReportsImage(i, marks) then 1 else 0)
            && ImagesFit(q.seen, marks + OwnImageMark(i, marks))
  {
    hide Emission, SeenLast, ReportStands;
    if i.image.Some? {
      var h := i.image.value.hash;
      assert MatchesImage(p.seen, h) <==> Known(marks, h);
      FitSnoc(p.seen.image, p.seen.oversizeImage, marks, Seen(h));
      FitSnoc(p.seen.image, p.seen.oversizeImage, marks, TooLarge(h));
    }
    hide Fit;
    assert marks + [] == marks && p.out + [] == p.out;
  }

  lemma PassFitsImages(p: Poll, i: Input, gap: seq<Stamp>, before: seq<Mark>)
    requires ImagesFit(p.seen, before)
    ensures ImagesFit(AtImage(p, i, gap).seen, before + ImageMarksOf(gap))
    ensures var marks := before + ImageMarksOf(gap);
            ImagesFit(InterleavedPass(p, i, gap).seen, marks + OwnImageMark(i, marks))
  {
    ImageStampsAtImage(p, i, gap);
    StampsFitImages(AtCheck(p, i).seen, before, gap);
    ImageStageDoes(AtImage(p, i, gap), i, before + ImageMarksOf(gap));
    hide AtImage, AtCheck, ImageStage, ApplyAll, Fit, OwnImageMark;
  }

  lemma {:induction false} ImagesAreMarked(start: World, run: seq<Action>, earlier: seq<Mark>)
    requires ImagesFit(start.poll.seen, earlier)
    ensures ImagesFit(Run(start, run).poll.seen, ImageMarks(earlier, run))
  {
    if run != [] {
      var front, a := run[..|run| - 1], run[|run| - 1];
      hide ImagesFit, InterleavedPass, Apply, OwnImageMark, ImageMark, Ships, Candidate;
      ImagesAreMarked(start, front, earlier);
      match a
      case Reader(s) => StampFitsImages(Run(start, front).poll.seen, ImageMarks(earlier, front), s);
      case Tick(i, gap) => PassFitsImages(Run(start, front).poll, i, gap, ImageMarks(earlier, front));
    }
  }

  /**
   * In every interleaved run a pass queues its image's transfer exactly when sending images
   * is on, the link is up, and there is an image that can be encoded, is within the cap and
   * is not known: not the latest stamped since the last reset, nor reported as too large
   * since. One above the cap is reported instead. Nothing else is queued or reported then.
   */
  lemma ImageSentIff(start: World, run: seq<Action>, i: Input, gap: seq<Stamp>, earlier: seq<Mark>)
    requires ImagesFit(start.poll.seen, earlier)
    ensures var p := Run(start, run).poll;
            var marks := ImageMarks(earlier, run) + ImageMarksOf(gap);
            && InterleavedPass(p, i, gap).out
               == AtImage(p, i, gap).out
                  + (if SendsImage(i, marks) then Emission(FORMAT_IMAGE, i.image.value.png.value) else [])
            && InterleavedPass(p, i, gap).imageToasts == p.imageToasts + (if ReportsImage(i, marks) then 1 else 0)
  {
    var p := Run(start, run).poll;
    ImagesAreMarked(start, run, earlier);
    PassFitsImages(p, i, gap, ImageMarks(earlier, run));
    ImageStageDoes(AtImage(p, i, gap), i, ImageMarks(earlier, run) + ImageMarksOf(gap));
    ImageStampsAtImage(p, i, gap);
    hide AtImage, ImageStage, Run, ImagesFit, ImageMarks, ImageMarksOf, SendsImage, ReportsImage, OwnImageMark;
  }

  // ----- Files

  function FileMark(s: Stamp): seq<Mark> {
    match s
    case FileStamp(h) => [Seen(h)]
    case Forget => [Wiped]
    case _ => []
  }

  function FileMarksOf(ss: seq<Stamp>): seq<Mark> {
    if ss == [] then [] else FileMarksOf(ss[..|ss| - 1]) + FileMark(ss[|ss| - 1])
  }

  /** The pass is the first to observe the change that put a file there, and may send files. */
  predicate FileIsNew(i: Input, count: int) {
    i.changeCount != count && i.sendFiles && i.linkUp && i.file.Some?
  }

  predicate SendsFileOf(i: Input, count: int, marks: seq<Mark>) {
    FileIsNew(i, count) && i.file.value.Ready? && !Known(marks, i.file.value.hash)
  }

  predicate ReportsFileOf(i: Input, count: int, marks: seq<Mark>) {
    FileIsNew(i, count) && i.file.value.Oversize? && !Known(marks, i.file.value.pathHash)
  }

  function OwnFileMark(i: Input, count: int, marks: seq<Mark>): seq<Mark> {
    if ReportsFileOf(i, count, marks) then [TooLarge(i.file.value.pathHash)] else []
  }

  /** The counter as the latest pass saw it. */
  function CountAfter(count: int, run: seq<Action>): int {
    if run == [] then count
    else match run[|run| - 1]
      case Reader(_) => CountAfter(count, run[..|run| - 1])
      case Tick(i, _) => i.changeCount
  }

  function FileMarks(earlier: seq<Mark>, count: int, run: seq<Action>): seq<Mark> {
    if run == [] then earlier
    else
      var front := run[..|run| - 1];
      var before := FileMarks(earlier, count, front);
      match run[|run| - 1]
      case Reader(s) => before + FileMark(s)
      case Tick(i, gap) => before + OwnFileMark(i, CountAfter(count, front), before) + FileMarksOf(gap)
  }

  ghost predicate FilesFit(l: LastSeen, marks: seq<Mark>) {
    Fit(l.file, l.oversizeFile, marks)
  }

  lemma StampFitsFiles(l: LastSeen, marks: seq<Mark>, s: Stamp)
    requires FilesFit(l, marks)
    ensures FilesFit(Apply(l, s), marks + FileMark(s))
  {
    hide Fit;
    if FileMark(s) != [] {
      FitSnoc(l.file, l.oversizeFile, marks, FileMark(s)[0]);
    } else {
      assert marks + [] == marks;
    }
  }

  lemma {:induction false} StampsFitFiles(l: LastSeen, marks: seq<Mark>, ss: seq<Stamp>)
    requires FilesFit(l, marks)
    ensures FilesFit(ApplyAll(l, ss), marks + FileMarksOf(ss))
  {
    hide FilesFit, FileMark;
    if ss == [] {
      assert marks + [] == marks;
    } else {
      var front, s := ss[..|ss| - 1], ss[|ss| - 1];
      StampsFitFiles(l, marks, front);
      StampFitsFiles(ApplyAll(l, front), marks + FileMarksOf(front), s);
      assert marks + FileMarksOf(ss) == marks + FileMarksOf(front) + FileMark(s);
    }
  }

  /** What the file branch does, told from the marks. */
  lemma FileStageDoes(p: Poll, i: Input, marks: seq<Mark>)
    requires FilesFit(p.seen, marks)
    ensures var q := FileStage(p, i);
            && q.out
               == p.out
                  + (if SendsFileOf(i, p.changeCount, marks) then Emission(FORMAT_FILE, i.file.value.packed) else [])
            && q.fileLabel == (if SendsFileOf(i, p.changeCount, marks) then i.file.value.name else p.fileLabel)
            && q.fileToasts == p.fileToasts + (if ReportsFileOf(i, p.changeCount, marks) then 1 else 0)
            && FilesFit(q.seen, marks + OwnFileMark(i, p.changeCount, marks))
  {
    hide Emission, SeenLast, ReportStands;
    if i.file.Some? && !i.file.value.Skipped? {
      var h := if i.file.value.Ready? then i.file.value.hash else i.file.value.pathHash;
      assert MatchesFile(p.seen, h) <==> Known(marks, h);
      FitSnoc(p.seen.file, p.seen.oversizeFile, marks, TooLarge(h));
    }
    hide Fit;
    assert marks + [] == marks && p.out + [] == p.out;
  }

  /** After the file branch a pass leaves the file stamps to the gap. */
  lemma FileStampsAfter(p: Poll, i: Input, gap: seq<Stamp>)
    ensures InterleavedPass(p, i, gap).seen.file == ApplyAll(AtCheck(p, i).seen, gap).file
    ensures InterleavedPass(p, i, gap).seen.oversizeFile == ApplyAll(AtCheck(p, i).seen, gap).oversizeFile
    ensures InterleavedPass(p, i, gap).fileToasts == AtCheck(p, i).fileToasts
    ensures InterleavedPass(p, i, gap).fileLabel == AtCheck(p, i).fileLabel
    ensures InterleavedPass(p, i, gap).changeCount == AtCheck(p, i).changeCount == i.changeCount
  {
  }

  lemma PassFitsFiles(p: Poll, i: Input, gap: seq<Stamp>, before: seq<Mark>)
    requires FilesFit(p.seen, before)
    ensures FilesFit(InterleavedPass(p, i, gap).seen,
                     before + OwnFileMark(i, p.changeCount, before) + FileMarksOf(gap))
  {
    FileStageDoes(p.(inFlight := false), i, before);
    StampsFitFiles(AtCheck(p, i).seen, before + OwnFileMark(i, p.changeCount, before), gap);
    FileStampsAfter(p, i, gap);
    hide InterleavedPass, FileStage, ApplyAll, Fit, OwnFileMark, FileMarksOf;
  }

  lemma {:induction false} FilesAreMarked(start: World, run: seq<Action>, earlier: seq<Mark>)
    requires FilesFit(start.poll.seen, earlier)
    ensures FilesFit(Run(start, run).poll.seen, FileMarks(earlier, start.poll.changeCount, run))
    ensures Run(start, run).poll.changeCount == CountAfter(start.poll.changeCount, run)
  {
    if run != [] {
      var front, a := run[..|run| - 1], run[|run| - 1];
      hide FilesFit, InterleavedPass, Apply, OwnFileMark, FileMark, Ships, Candidate;
      FilesAreMarked(start, front, earlier);
      match a
      case Reader(s) =>
        StampFitsFiles(Run(start, front).poll.seen, FileMarks(earlier, start.poll.changeCount, front), s);
      case Tick(i, gap) =>
        PassFitsFiles(Run(start, front).poll, i, gap, FileMarks(earlier, start.poll.changeCount, front));
        FileStampsAfter(Run(start, front).poll, i, gap);
    }
  }

  // ----- One pass of any run

  /** There is a text to send: none of the names of the files sent lately, new, and kicked or held. */
  ghost predicate TextDue(start: World, run: seq<Action>, i: Input) {
    && i.sendText && i.linkUp && i.text.Some? && i.text.value.content != []
    && !NamesASentFile(AtCheck(Run(start, run).poll, i), i)
    && !Remembered(Run(start, run).stamped, i.text.value.hash)
    && (i.kicked || HeldByLatest(start, run) == Some(i.text.value.hash))
  }

  ghost predicate SendsTextOf(start: World, run: seq<Action>, i: Input) {
    TextDue(start, run, i) && |i.text.value.bytes| <= MAX_TEXT_BYTES
  }

  lemma TextDueIff(start: World, run: seq<Action>, i: Input)
    requires Fresh(start)
    ensures Ships(Run(start, run).poll, i) <==> TextDue(start, run, i)
    ensures Ships(Run(start, run).poll, i) ==> Candidate(i) == i.text
  {
    var p := Run(start, run).poll;
    assert Ships(p, i) ==> Candidate(i).Some? && !NamesASentFile(AtCheck(p, i), i);
    assert Candidate(i).Some? <==> i.sendText && i.linkUp && i.text.Some? && i.text.value.content != [];
    assert Candidate(i).Some? ==> Candidate(i) == i.text;
    hide Ships, NamesASentFile, AtCheck, Remembered, HeldByLatest, Run;
    if Candidate(i).Some? && !NamesASentFile(AtCheck(p, i), i) { ShipsIff(start, run, i); }
  }

  /** What the text branch adds to the queue. */
  lemma TextStageDoes(p: Poll, i: Input, gap: seq<Stamp>)
    ensures var sends := Ships(p, i) && |Candidate(i).value.bytes| <= MAX_TEXT_BYTES;
            && AtImage(p, i, gap).out
               == AtCheck(p, i).out + (if sends then Emission(FORMAT_TEXT, Candidate(i).value.bytes) else [])
            && (InterleavedPass(p, i, gap).inFlight <==> sends)
  {
    assert AtCheck(p, i).out + [] == AtCheck(p, i).out;
  }

  /**
   * In every interleaved run, what the next pass puts on the queue is its file's transfer,
   * its text's and its image's, in this order, each exactly when it is due; the text counts
   * as in flight exactly when it was queued, and the label is the name of the file queued
   * last.
   */
  lemma WhatAPassQueues(start: World, run: seq<Action>, i: Input, gap: seq<Stamp>,
                        images: seq<Mark>, files: seq<Mark>)
    requires Fresh(start) && ImagesFit(start.poll.seen, images) && FilesFit(start.poll.seen, files)
    ensures var p, q := Run(start, run).poll, InterleavedPass(Run(start, run).poll, i, gap);
            var count := CountAfter(start.poll.changeCount, run);
            var fileMarks := FileMarks(files, start.poll.changeCount, run);
            var imageMarks := ImageMarks(images, run) + ImageMarksOf(gap);
            && q.out
               == p.out
                  + (if SendsFileOf(i, count, fileMarks) then Emission(FORMAT_FILE, i.file.value.packed) else [])
                  + (if SendsTextOf(start, run, i) then Emission(FORMAT_TEXT, i.text.value.bytes) else [])
                  + (if SendsImage(i, imageMarks) then Emission(FORMAT_IMAGE, i.image.value.png.value) else [])
            && (q.inFlight <==> SendsTextOf(start, run, i))
            && q.fileLabel == (if SendsFileOf(i, count, fileMarks) then i.file.value.name else p.fileLabel)
            && q.fileToasts == p.fileToasts + (if ReportsFileOf(i, count, fileMarks) then 1 else 0)
            && q.imageToasts == p.imageToasts + (if ReportsImage(i, imageMarks) then 1 else 0)
  {
    var p := Run(start, run).poll;
    var marks := FileMarks(files, start.poll.changeCount, run);
    FilesAreMarked(start, run, files);
    FileStageDoes(p.(inFlight := false), i, marks);
    FileStampsAfter(p, i, gap);
    TextStageDoes(p, i, gap);
    TextDueIff(start, run, i);
    ImageSentIff(start, run, i, gap, images);
    hide *;
  }

  // ----- What follows

  ghost predicate NoFileStamps(run: seq<Action>, h: Hash) {
    forall k | 0 <= k < |run| ::
      match run[k]
      case Reader(s) => s != Forget && (s.FileStamp? ==> s.hash == h)
      case Tick(_, gap) => forall s | s in gap :: s != Forget && (s.FileStamp? ==> s.hash == h)
  }

  lemma {:induction false} GapKeepsSeen(marks: seq<Mark>, ss: seq<Stamp>, h: Hash)
    requires SeenLast(marks, h) && forall s | s in ss :: s != Forget && (s.FileStamp? ==> s.hash == h)
    ensures SeenLast(marks + FileMarksOf(ss), h)
  {
    if ss == [] {
      assert marks + [] == marks;
    } else {
      var front, s := ss[..|ss| - 1], ss[|ss| - 1];
      assert forall x | x in front :: x in ss;
      GapKeepsSeen(marks, front, h);
      var before := marks + FileMarksOf(front);
      assert s in ss;
      if FileMark(s) != [] { assert (before + FileMark(s))[..|before|] == before; }
      assert marks + FileMarksOf(ss) == before + FileMark(s);
      assert before + [] == before;
    }
  }

  lemma {:induction false} SeenStays(marks: seq<Mark>, count: int, run: seq<Action>, h: Hash)
    requires SeenLast(marks, h) && NoFileStamps(run, h)
    ensures SeenLast(FileMarks(marks, count, run), h)
  {
    if run != [] {
      var front, a := run[..|run| - 1], run[|run| - 1];
      assert NoFileStamps(front, h) by { assert forall k | 0 <= k < |front| :: front[k] == run[k]; }
      SeenStays(marks, count, front, h);
      var before := FileMarks(marks, count, front);
      match a
      case Reader(s) =>
        assert [s][..0] == [] && FileMarksOf([s]) == [] + FileMark(s);
        GapKeepsSeen(before, [s], h);
      case Tick(i, gap) =>
        var own := OwnFileMark(i, CountAfter(count, front), before);
        if own != [] { assert (before + own)[..|before|] == before; } else { assert before + own == before; }
        GapKeepsSeen(before + own, gap, h);
    }
  }

  /**
   * A file that was received is not sent back: from its stamp on, as long as nothing is
   * reset and no other file received, no pass sends it, however often it is copied.
   */
  lemma ReceivedFileIsNotSentBack(start: World, run: seq<Action>, i: Input, h: Hash)
    requires NoFileStamps(run, h) && i.file.Some? && i.file.value.Ready? && i.file.value.hash == h
    ensures var w := Step(start, Reader(FileStamp(h)));
            !SendsFile(Run(w, run).poll, i)
  {
    var w := Step(start, Reader(FileStamp(h)));
    var earlier := [Seen(h)];
    SomeMarks(w.poll.seen, h);
    var marks: seq<Mark> :| FilesFit(w.poll.seen, marks) && SeenLast(marks, h);
    SeenStays(marks, w.poll.changeCount, run, h);
    FilesAreMarked(w, run, marks);
    FileStageDoes(Run(w, run).poll.(inFlight := false), i, FileMarks(marks, w.poll.changeCount, run));
    assert Run(w, run).poll.out + [] == Run(w, run).poll.out;
  }

  /** Any stamps are those of some history that ends in the stamp of the file. */
  lemma SomeMarks(l: LastSeen, h: Hash)
    requires l.file == Some(h)
    ensures exists marks: seq<Mark> :: FilesFit(l, marks) && SeenLast(marks, h)
  {
    var none: seq<Mark> := [];
    assert Fit(None, None, none);
    FitSnoc(None, None, none, Seen(h));
    assert none + [Seen(h)] == [Seen(h)];
    var marks := [Seen(h)];
    if l.oversizeFile.Some? {
      FitSnoc(Some(h), None, marks, TooLarge(l.oversizeFile.value));
      marks := marks + [TooLarge(l.oversizeFile.value)];
    }
    assert FilesFit(l, marks) && SeenLast(marks, h);
  }

  ghost predicate OnlyThisFile(run: seq<Action>, pathHash: Hash) {
    forall k | 0 <= k < |run| ::
      match run[k]
      case Reader(s) => !s.FileStamp? && s != Forget
      case Tick(i, gap) =>
        && (i.file.Some? && i.file.value.Oversize? ==> i.file.value.pathHash == pathHash)
        && forall s | s in gap :: !s.FileStamp? && s != Forget
  }

  lemma {:induction false} GapLeavesFileMarks(ss: seq<Stamp>)
    requires forall s | s in ss :: !s.FileStamp? && s != Forget
    ensures FileMarksOf(ss) == []
  {
    if ss != [] {
      assert ss[|ss| - 1] in ss;
      GapLeavesFileMarks(ss[..|ss| - 1]);
    }
  }

  /**
   * A file above the cap is reported at most once, however often it is copied, as long as
   * no other such file comes up, none is received and nothing is reset.
   */
  lemma {:induction false} LargeFileIsReportedOnce(start: World, run: seq<Action>, pathHash: Hash, earlier: seq<Mark>)
    requires FilesFit(start.poll.seen, earlier) && OnlyThisFile(run, pathHash)
    ensures Run(start, run).poll.fileToasts <= start.poll.fileToasts + 1
    ensures Run(start, run).poll.fileToasts > start.poll.fileToasts ==>
              ReportStands(FileMarks(earlier, start.poll.changeCount, run), pathHash)
  {
    if run != [] {
      var front, a := run[..|run| - 1], run[|run| - 1];
      assert OnlyThisFile(front, pathHash) by { assert forall k | 0 <= k < |front| :: front[k] == run[k]; }
      assert OnlyThisFile([a], pathHash) by { assert [a][0] == run[|run| - 1]; }
      LargeFileIsReportedOnce(start, front, pathHash, earlier);
      FilesAreMarked(start, front, earlier);
      LargeFileStep(Run(start, front), a, pathHash, FileMarks(earlier, start.poll.changeCount, front));
      hide Step, FilesFit, ReportStands, OwnFileMark, FileMark, FileMarksOf;
    }
  }

  lemma LargeFileStep(w: World, a: Action, pathHash: Hash, marks: seq<Mark>)
    requires FilesFit(w.poll.seen, marks) && OnlyThisFile([a], pathHash)
    ensures var after := match a
                         case Reader(s) => marks + FileMark(s)
                         case Tick(i, gap) => marks + OwnFileMark(i, w.poll.changeCount, marks) + FileMarksOf(gap);
            && (ReportStands(marks, pathHash) ==> ReportStands(after, pathHash))
            && Step(w, a).poll.fileToasts
               <= w.poll.fileToasts
                  + (if !ReportStands(marks, pathHash) && ReportStands(after, pathHash) then 1 else 0)
  {
    assert [a][0] == a;
    assert marks + [] == marks;
    if a.Tick? {
      var own := OwnFileMark(a.i, w.poll.changeCount, marks);
      GapLeavesFileMarks(a.gap);
      if own != [] { assert (marks + own)[..|marks|] == marks; }
      assert marks + own + [] == marks + own;
      FileStageDoes(w.poll.(inFlight := false), a.i, marks);
      FileStampsAfter(w.poll, a.i, a.gap);
      hide InterleavedPass, Ships, Candidate;
    }
  }

  /** How many offers of the format are on the queue. */
  function Offers(ms: seq<Message>, format: nat): nat {
    if ms == [] then 0
    else
      Offers(ms[..|ms| - 1], format)
      + (if ms[|ms| - 1].ClipOffer? && ms[|ms| - 1].format == format then 1 else 0)
  }

  lemma {:induction false} OffersSplit(a: seq<Message>, b: seq<Message>, format: nat)
    ensures Offers(a + b, format) == Offers(a, format) + Offers(b, format)
  {
    if b == [] {
      assert a + b == a;
    } else {
      assert (a + b)[..|a + b| - 1] == a + b[..|b| - 1];
      OffersSplit(a, b[..|b| - 1], format);
    }
  }

  lemma {:induction false} NoOffersIn(parts: seq<Bytes>, from: nat, format: nat)
    ensures Offers(Numbered(parts, from), format) == 0
  {
    if parts != [] {
      NoOffersIn(parts[1..], from + 1, format);
      var one := [ClipChunk(from % U16, parts[0])];
      assert one[..0] == [];
      OffersSplit(one, Numbered(parts[1..], from + 1), format);
    }
  }

  lemma EmissionOffersOnce(format: nat, payload: Bytes, other: nat)
    ensures Offers(Emission(format, payload), other) == if other == format then 1 else 0
  {
    var one := [ClipOffer(format, |payload| % U32)];
    assert one[..0] == [];
    OffersSplit(one, Numbered(Chunks(payload), 0), other);
    NoOffersIn(Chunks(payload), 0, other);
  }

  /** The pass may not send the format. */
  predicate Off(i: Input, format: nat) {
    || !i.linkUp
    || (format == FORMAT_TEXT && !i.sendText)
    || (format == FORMAT_IMAGE && !i.sendImages)
    || (format == FORMAT_FILE && !i.sendFiles)
  }

  ghost predicate OffThroughout(run: seq<Action>, format: nat) {
    forall k | 0 <= k < |run| && run[k].Tick? :: Off(run[k].i, format)
  }

  /** A pass offers at most its due file, text and image. */
  lemma OffersOfAPass(before: seq<Message>, f: seq<Message>, t: seq<Message>, m: seq<Message>, format: nat)
    ensures Offers(before + f + t + m, format)
            == Offers(before, format) + Offers(f, format) + Offers(t, format) + Offers(m, format)
  {
    OffersSplit(before + f + t, m, format);
    OffersSplit(before + f, t, format);
    OffersSplit(before, f, format);
  }

  lemma PassWhileOff(start: World, run: seq<Action>, i: Input, gap: seq<Stamp>, format: nat,
                     images: seq<Mark>, files: seq<Mark>)
    requires Fresh(start) && ImagesFit(start.poll.seen, images) && FilesFit(start.poll.seen, files)
    requires format in {FORMAT_TEXT, FORMAT_IMAGE, FORMAT_FILE} && Off(i, format)
    ensures var p, q := Run(start, run).poll, InterleavedPass(Run(start, run).poll, i, gap);
            && Offers(q.out, format) == Offers(p.out, format)
            && (format == FORMAT_FILE ==> q.fileToasts == p.fileToasts)
            && (format == FORMAT_IMAGE ==> q.imageToasts == p.imageToasts)
  {
    WhatAPassQueues(start, run, i, gap, images, files);
    var p := Run(start, run).poll;
    var marks := FileMarks(files, start.poll.changeCount, run);
    var sendsFile := SendsFileOf(i, CountAfter(start.poll.changeCount, run), marks);
    var sendsImage := SendsImage(i, ImageMarks(images, run) + ImageMarksOf(gap));
    var f := if sendsFile then Emission(FORMAT_FILE, i.file.value.packed) else [];
    var t := if SendsTextOf(start, run, i) then Emission(FORMAT_TEXT, i.text.value.bytes) else [];
    var m := if sendsImage then Emission(FORMAT_IMAGE, i.image.value.png.value) else [];
    OffersOfAPass(p.out, f, t, m, format);
    if sendsFile { EmissionOffersOnce(FORMAT_FILE, i.file.value.packed, format); }
    if SendsTextOf(start, run, i) { EmissionOffersOnce(FORMAT_TEXT, i.text.value.bytes, format); }
    if sendsImage { EmissionOffersOnce(FORMAT_IMAGE, i.image.value.png.value, format); }
    hide Run, InterleavedPass, Emission, Offers, Remembered, NamesASentFile, HeldByLatest, Known, FileMarks,
      ImageMarks;
  }

  /**
   * While a format's switch is off or the link is down, a run offers nothing of the format
   * and reports nothing of it as too large.
   */
  lemma {:induction false} NothingWhileOff(start: World, run: seq<Action>, format: nat,
                                           images: seq<Mark>, files: seq<Mark>)
    requires Fresh(start) && ImagesFit(start.poll.seen, images) && FilesFit(start.poll.seen, files)
    requires format in {FORMAT_TEXT, FORMAT_IMAGE, FORMAT_FILE} && OffThroughout(run, format)
    ensures var p, q := start.poll, Run(start, run).poll;
            && Offers(q.out, format) == Offers(p.out, format)
            && (format == FORMAT_FILE ==> q.fileToasts == p.fileToasts)
            && (format == FORMAT_IMAGE ==> q.imageToasts == p.imageToasts)
  {
    if run != [] {
      var front, a := run[..|run| - 1], run[|run| - 1];
      assert OffThroughout(front, format) by { assert forall k | 0 <= k < |front| :: front[k] == run[k]; }
      hide Fresh, ImagesFit, FilesFit, Offers, InterleavedPass, Off, Ships, Candidate, Apply;
      NothingWhileOff(start, front, format, images, files);
      if a.Tick? { PassWhileOff(start, front, a.i, a.gap, format, images, files); }
    }
  }

  // ----- Startup

  /** Startup leaves the stamps of what it found on top of the earlier ones, and nothing else behind. */
  lemma StartupIsMarked(seen: LastSeen, queued: seq<Message>, text: Option<Text>, image: Option<Hash>,
                        changeCount: int, file: Option<FileOutcome>, images: seq<Mark>, files: seq<Mark>)
    requires ImagesFit(seen, images) && FilesFit(seen, files)
    ensures var p := Startup(seen, queued, text, image, changeCount, file);
            var foundFile := changeCount != -1 && file.Some? && file.value.Ready?;
            && ImagesFit(p.seen, images + (if image.Some? then [Seen(image.value)] else []))
            && FilesFit(p.seen, files + (if foundFile then [Seen(file.value.hash)] else []))
            && p.changeCount == changeCount && p.out == queued
            && !p.inFlight && p.fileLabel == "" && p.fileToasts == 0 && p.imageToasts == 0
  {
    hide SeenLast, ReportStands;
    if image.Some? { FitSnoc(seen.image, seen.oversizeImage, images, Seen(image.value)); }
    if file.Some? && file.value.Ready? { FitSnoc(seen.file, seen.oversizeFile, files, Seen(file.value.hash)); }
    hide Fit;
    assert images + [] == images && files + [] == files;
  }

  /**
   * What was on the clipboard when the thread started is not sent by its first pass, kicked
   * or not, even if it has been copied once more.
   */
  lemma FirstPassSendsNothingOld(seen: LastSeen, queued: seq<Message>, text: Option<Text>, image: Option<Hash>,
                                 changeCount: int, file: Option<FileOutcome>, i: Input)
    requires i.text.Some? ==> i.text == text
    requires i.image.Some? ==> image == Some(i.image.value.hash)
    requires i.file.Some? && i.file.value.Ready? && i.changeCount != changeCount
             ==> changeCount != -1 && i.file == file
    ensures Pass(Startup(seen, queued, text, image, changeCount, file), i).out == queued
  {
    var p := Startup(seen, queued, text, image, changeCount, file);
    if i.text.Some? && i.text.value.content != [] {
      StampKeepsFront(seen.textHistory, i.text.value.hash);
      assert MatchesText(p.seen, i.text.value.hash);
    }
    hide Touch, Emission, MatchesText;
    var q := FileStage(p.(inFlight := false), i);
    assert q.out == queued && q.seen.textHistory == p.seen.textHistory && q.seen.image == p.seen.image;
    hide FileStage, Startup;
    TextSkips(q, i);
  }

  lemma TextSkips(p: Poll, i: Input)
    requires i.text.Some? && i.text.value.content != [] ==> MatchesText(p.seen, i.text.value.hash)
    ensures TextStage(p, i).out == p.out && TextStage(p, i).seen == p.seen
  {
  }
}
