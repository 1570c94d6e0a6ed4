# WireDesk, modelled and verified

WireDesk shares one serial-like wire between a Mac or Windows client and a Windows host.
Clipboard payloads, shell sessions and browser streams all pass through shared queues, and
one machine's keyboard can be captured for the other. This project models the parts whose
correctness is a statement about whole runs, and proves those statements for every run.

Code that changes things step by step is modelled by classes and loops whose contracts tie
each method to a function on values (`View()`, `Now()`); the statements about runs are
lemmas about those functions. Threads that share state are interleaved one lock section,
atomic access or send at a time.

| module | what it covers |
|---|---|
| `Wire`, `OrderedMap`, `Text`, `Utf8` | packets and queue; a `BTreeMap` as it is iterated; string operations; UTF-8 |
| `ClipSender`, `Reassembly`, `Transfers`, `Passages`, `Handoffs`, `WriterProgress` | cutting a payload into chunks, reassembling it when chunks or offers are lost, progress on the wire |
| `Dedup`, `FileNameGuard`, `PollLoop`, `PollRuns`, `PollEffects` | the sender's memory of what it has seen, the poll thread, and what it sends and reports |
| `PollQueue` | the poll thread's queue, followed to the payloads a receiver at the other end commits |
| `LinkWriter`, `WriterRuns`, `WriterFailures`, `PollToHost` | the writer thread and its cancel flag between queue and wire, and what reaches the host |
| `BrowserRoute`, `ShellChannel`, `ShellBracket`, `ShellSessions`, `EventRouting` | the concurrent relay in the client |
| `ServiceDrop`, `HttpAuth`, `HttpRequests`, `HttpDiscovery` | the browser companion: shutdown, token check, target discovery |
| `KeyboardHook` | the Windows keyboard hook |

## Where the code does not meet its description

Each of these has a lemma with a run that shows it and, unless said otherwise, another that
says exactly when it happens.

- A text or image transfer that completes clears the file label of a file still queued
  behind it; the comment at `clipboard.rs:657-661` says the label is left alone
  (`WriterProgress.EveryCompletionClearsTheLabel` says it of every transfer).
- A declined file takes along what is queued behind it: the host's decline raises a flag
  under which the writer drops every queued offer and chunk, not only the file's
  (`link.rs:343-358`, `clipboard.rs:620-645`). A text queued by the same pass can be lost;
  it stays stamped and is not sent again. The counters stop with the file in flight, although
  the host has refused it (`PollToHost.TextBesideRefusedFileIsLost`,
  `PollToHost.LostTextIsNotResent`; `LinkWriter.DroppedWhileFlagged`,
  `WriterRuns.InFlightIff`).
- The flag is lowered by the first packet of another kind, which the comment at
  `link.rs:361` takes for the end of the cancelled batch, but which may lie in the middle of a
  transfer whose offer was dropped. The rest of that transfer then goes out without an offer and falls to
  the one before it, so that the host can commit a payload nobody sent
  (`WriterFailures.TextsAreSpliced`; `WriterRuns.CommittedIff`,
  `Passages.ExactlyTheWholeIff`).
- A file over the size cap found at startup is not reported until something new is copied:
  the comment at `clipboard.rs:955-956` leaves the toast to the first pass, but the change
  counter has already been moved on (`PollRuns.OversizeAtStartupIsSilent`;
  `PollRuns.FileToastIff`).
- A text seen on two consecutive passes need not be in the history after the second
  (`PollRuns.KnownTextMayBeLostBetweenPasses`, `PollRuns.KnownTextMayBeLostInsideAPass`;
  `PollRuns.StableTextSettles`).
- A committed text is on the OS clipboard before it is stamped, and can be sent back in
  between (`PollRuns.UnstampedCommitIsEchoed`; `PollRuns.CommittedTextIsEchoedIff`). The
  poll pass also checks the stamps and sets its own in two lock sections
  (`PollRuns.EchoOnlyInsideTheGap`).
- Two things break the bracketing of shell sessions on the queue: a handler that returns
  between its open and its close (`ipc.rs:634-640`, `ipc.rs:1013-1016`), and a console
  whose gate sees the host-info cache filled and whose dialect read sees it emptied
  (`ipc.rs:901-911`, `link.rs:561-568`), so that it takes a dual host's exec slot beside an
  exec run (`ShellBracket.OneFailureBreaksTheNextRun`,
  `ShellBracket.EmptiedCacheBreaksTheLane`; `ShellBracket.BracketedIff`).
- A key can stay pressed on the host with every key up, until capture is switched off,
  because releases are swallowed by virtual key and held keys are tracked by scan code
  (`KeyboardHook.EnterSticksBesideNumpad`), and when a press repeats on the other side of a
  Ctrl change (`KeyboardHook.EnterSticksAfterCtrl`; `KeyboardHook.EnterSticksUnderCtrl`,
  which takes a second keyboard or injected input). `KeyboardHook.StaysPressedIff` says
  exactly when one release does, `KeyboardHook.StuckIff` which keys are stuck after a run.
- What `read_discovery` returns depends on how the bytes arrive when anything follows a
  body shorter than one read, or the header nears its limit
  (`HttpDiscovery.ResponseMayFail`; `HttpDiscovery.IndependentIff`).
- A companion can be reset twice: a relay that fills up lets the link reader reset it
  (`link.rs:709-728`) after the handler's own reset
  (`BrowserRoute.CompanionIsResetTwice`; `BrowserRoute.SecondResetIff`).
- A forwarded request reads differently to a recipient that lets a bare newline end a line
  (section 2.2 of RFC 9112) when a kept field holds one (`HttpAuth.BareNewlinePasses`;
  `HttpAuth.ReadAlikeIff`).

## Model

| member | source | states |
|---|---|---|
| ClipSender.EmitOfferAndChunks | apps/wiredesk-client/src/clipboard.rs:554-572 | the queue grows by exactly one offer and the payload's numbered pieces, in order |
| ClipSender.ConcatOfChunks | apps/wiredesk-client/src/clipboard.rs:563 | the pieces put together again are the payload |
| ClipSender.ChunkSizes | apps/wiredesk-client/src/clipboard.rs:89 | no piece is empty and none exceeds what a packet carries |
| ClipSender.EmissionIsExact | apps/wiredesk-client/src/clipboard.rs:554-572 | for payloads within the largest cap the 16-bit index never wraps and the 32-bit length is exact |
| OrderedMap.InsertFinds | apps/wiredesk-client/src/clipboard.rs:1555 | storing a chunk replaces what its index held and disturbs no other index |
| OrderedMap.CountsUpIffSegment | apps/wiredesk-client/src/clipboard.rs:1629-1641 | the positional test for contiguous indices holds exactly when the key set is 0..n-1 |
| Reassembly.SoundForever | apps/wiredesk-client/src/clipboard.rs:1440-1587 | every offer, chunk, commit and reset keeps the running total below the declared length and the length within its format's cap |
| Reassembly.BufferLengthIsExact | apps/wiredesk-client/src/clipboard.rs:1653 | a reassembled buffer is below 2^32 bytes, so comparing its truncated length is exact |
| Reassembly.IncomingClipboard.Reset | apps/wiredesk-client/src/clipboard.rs:1600-1606 | reassembly and progress are zero afterwards and hand-offs are untouched |
| Reassembly.IncomingClipboard.OnOffer | apps/wiredesk-client/src/clipboard.rs:1440-1538 | arms reassembly exactly for accepted offers, clears it for all others, and declines exactly for a switched-off known format; `Handoffs.WantedOffersArm` and `Handoffs.AnswersAreDeclines` say which these are |
| Reassembly.IncomingClipboard.OnChunk | apps/wiredesk-client/src/clipboard.rs:1540-1587 | ignored without an offer; else stored, counted on first arrival only, and committed when the count reaches the length |
| Reassembly.IncomingClipboard.CommitPayload | apps/wiredesk-client/src/clipboard.rs:1622-1681 | hands over the index-ordered bytes exactly when indices are contiguous and the length is as declared, and clears in every case |
| Transfers.FullSumMeansAll | apps/wiredesk-client/src/clipboard.rs:1578 | with no empty piece, the lengths of a set of pieces sum to the whole exactly when no piece is missing |
| Transfers.AllStoredIsPayload | apps/wiredesk-client/src/clipboard.rs:1628-1651 | with every piece stored under its index, the contiguity test passes and the buffer is the payload |
| Transfers.AcceptedTransfer | apps/wiredesk-client/src/clipboard.rs:1440-1681 | during one accepted transfer the receiver is filling with exactly the pieces seen, and has handed over the payload once, at the moment the last missing piece came |
| Transfers.RefusedTransfer | apps/wiredesk-client/src/clipboard.rs:1447-1537 | a refused or empty offer hands nothing over, whatever chunks follow |
| Transfers.ExactlyTheCompleteTransfers | apps/wiredesk-client/src/clipboard.rs:554-572 | over any run of transfers with chunks dropped, repeated or reordered, the hand-offs are exactly the transfers that arrived complete, byte for byte, once each, in order |
| Passages.ExactlyTheWholeIff | apps/wiredesk-client/src/clipboard.rs:1540-1587 | with offers lost as well as chunks, every whole transfer is handed over, in order; and nothing else, exactly unless a chunk whose own offer was lost completes what an earlier offer left unfinished |
| Passages.NothingHeadless | apps/wiredesk-client/src/clipboard.rs:1541-1549 | if no chunk comes through whose own offer was lost, the hand-offs are exactly the whole transfers |
| Handoffs.EveryHandoffIsAccountedFor | apps/wiredesk-client/src/clipboard.rs:1529-1587 | against any offers and chunks, each hand-off is the gap-free index-ordered concatenation of the data last written per index since one offer of a format switched on and within its cap, of its length and format, and no offer is used twice |
| Handoffs.WantedOffersArm | apps/wiredesk-client/src/clipboard.rs:1440-1538 | after any history exactly the offers of a known format that is switched on, within that format's cap, arm the receiver; every other leaves it idle |
| Handoffs.AnswersAreDeclines | apps/wiredesk-client/src/clipboard.rs:1469-1505 | over any history the receiver answers with one decline per offer of a format switched off, naming it, in order |
| Handoffs.RunIsSound | apps/wiredesk-client/src/clipboard.rs:1440-1681 | the receiver invariant holds after every event sequence |
| Handoffs.NoOverflowEver | apps/wiredesk-client/src/clipboard.rs:1551-1575 | in every reachable state one more chunk cannot saturate the total, overflow a milestone product or overshoot the length by a whole chunk |
| WriterProgress.ProgressCounters.Apply | apps/wiredesk-client/src/clipboard.rs:679-735 | an offer restarts the counters, a chunk advances them, and the chunk that reaches the total clears both and the label |
| WriterProgress.BetweenTransfers | apps/wiredesk-client/src/clipboard.rs:679-735 | after any number of whole transfers both counters are zero |
| WriterProgress.ProgressTracksTheWire | apps/wiredesk-client/src/clipboard.rs:679-735 | mid-transfer, progress is the number of the current transfer's bytes on the wire and strictly below the total |
| WriterProgress.EveryCompletionClearsTheLabel | apps/wiredesk-client/src/clipboard.rs:717-731 | the label survives every chunk but the last and is then cleared, whatever the format |
| Dedup.ClipboardState.SetText | apps/wiredesk-client/src/clipboard.rs:188-202 | moves the hash to the front of the history and keeps the first four; all other stamps stay |
| Dedup.ClipboardState.SetImage | apps/wiredesk-client/src/clipboard.rs:204-213 | stamps the image and lifts an oversize stamp of the same hash only |
| Dedup.ClipboardState.SetFile | apps/wiredesk-client/src/clipboard.rs:223-231 | stamps the file and lifts an oversize stamp of the same hash only |
| Dedup.ClipboardState.Reset | apps/wiredesk-client/src/clipboard.rs:262-265 | nothing is remembered |
| Dedup.HistoryIsRecentPrefix | apps/wiredesk-client/src/clipboard.rs:188-202 | after any stamps the bounded history is the first four of the unbounded most-recent-first list of distinct values |
| Dedup.SuppressedIff | apps/wiredesk-client/src/clipboard.rs:147-149 | a hash is suppressed exactly when it was stamped and fewer than four distinct others were stamped since |
| Dedup.FewValuesNeverForgotten | apps/wiredesk-client/src/clipboard.rs:137 | with at most four distinct hashes in play nothing stamped is forgotten |
| FileNameGuard.SentFileNames.PushSentFileName | apps/wiredesk-client/src/clipboard.rs:818-825 | the name goes in front and the oldest beyond four goes |
| FileNameGuard.SentFileNames.RecentFileNamesContains | apps/wiredesk-client/src/clipboard.rs:857-872 | true exactly when some entry matches within the window, and then only the first such entry is refreshed |
| FileNameGuard.PlayPlaces | apps/wiredesk-client/src/clipboard.rs:818-872 | in every run each remembered name stands where its pushes put it with its latest touch, and equal names are ordered newest first |
| FileNameGuard.GuardRefinesHistory | apps/wiredesk-client/src/clipboard.rs:857-872 | a text is recognised exactly when it was pushed with fewer than four pushes after its latest push and its last push or match is at most thirty seconds old |
| PollLoop.PollThread.constructor | apps/wiredesk-client/src/clipboard.rs:917-997 | what is on the clipboard at startup is stamped and the counter taken, and nothing is sent |
| PollLoop.PollThread.PollFileUrl | apps/wiredesk-client/src/clipboard_files.rs:111-119 | a change is reported at most once, and counted even when its contents are rejected |
| PollLoop.PollThread.FileBranch | apps/wiredesk-client/src/clipboard.rs:1065-1150 | the change is consumed before the switches are looked at; an unknown file is labelled, remembered by name and queued; an oversize one is stamped and reported once |
| PollLoop.PollThread.TextBranch | apps/wiredesk-client/src/clipboard.rs:1152-1240 | skip, hold or send, with the pending hash surviving only a hold |
| PollLoop.PollThread.ImageBranch | apps/wiredesk-client/src/clipboard.rs:1252-1304 | an unknown encodable image is stamped and queued, or stamped as oversize and reported |
| PollLoop.PollThread.Tick | apps/wiredesk-client/src/clipboard.rs:999-1306 | one whole pass refines the pass on values, file before text before image |
| PollRuns.StartupIsFresh | apps/wiredesk-client/src/clipboard.rs:917-997 | whatever the link's threads have stamped and queued before, startup adds exactly the found text to the history and queues nothing |
| PollRuns.UndisturbedPass | apps/wiredesk-client/src/clipboard.rs:999-1306 | with nothing between check and stamp the interleaved pass is the thread's own pass |
| PollRuns.HistoryIsStamped | apps/wiredesk-client/src/clipboard.rs:1191-1228 | in every interleaving the history is what the stamps since the last reset make of it |
| PollRuns.NothingShipsTwice | apps/wiredesk-client/src/clipboard.rs:787-800 | without a reset and with at most four distinct stamped hashes no hash is sent twice |
| PollRuns.EchoOnlyInsideTheGap | apps/wiredesk-client/src/clipboard.rs:1191-1228 | in such a run a text already stamped is sent exactly when its commit fell between check and stamp of that very pass |
| PollRuns.ShipsIff | apps/wiredesk-client/src/clipboard.rs:1191-1228 | in every interleaved run a pass ships its text exactly when the text is not among those stamped with fewer than four others since, and the pass was kicked or the one before held it |
| PollRuns.StampedSince | apps/wiredesk-client/src/clipboard.rs:188-202 | without a reset, a text is among the stamped exactly when a commit or a shipping pass stamped it since it was not |
| PollRuns.CommittedTextIsEchoedIff | apps/wiredesk-client/src/clipboard.rs:1689-1709 | a text that a commit puts on the clipboard, not stamped before, is sent back by a pass that reads it exactly when nothing has stamped it by the pass's check, or four others came after, and the pass was kicked or the one before held it |
| PollRuns.UnstampedCommitIsEchoed | apps/wiredesk-client/src/clipboard.rs:1697-1709 | a kicked pass between the put and the stamp sends the text back |
| PollRuns.OnlyStableTextShips | apps/wiredesk-client/src/clipboard.rs:787-800 | an un-kicked pass sends a text only if the pass just before it, with sending on and the link up, saw and held the same hash |
| PollRuns.StableTextSettles | apps/wiredesk-client/src/clipboard.rs:1191-1228 | in every interleaved run a text that a pass reads is in the history afterwards exactly when the pass stamps it, being new and kicked or held by the pass before, or the stamps up to then leave it there |
| PollRuns.KnownTextMayBeLostBetweenPasses | apps/wiredesk-client/src/clipboard.rs:1191-1228 | from a fresh start, one commit between two passes can evict a known text so that the second pass only holds it |
| PollRuns.KnownTextMayBeLostInsideAPass | apps/wiredesk-client/src/clipboard.rs:1191-1228 | so can four commits after the second pass's check |
| PollRuns.FileSentIff | apps/wiredesk-client/src/clipboard.rs:1065-1124 | a file is sent exactly by the pass that first observes its change with sending on, the link up and the contents unknown, and then that file's transfer is what is queued |
| PollRuns.AtMostOneSendPerChange | apps/wiredesk-client/src/clipboard_files.rs:180-184 | file sends never exceed changes observed with the switch on and the link up |
| PollRuns.FileToastIff | apps/wiredesk-client/src/clipboard.rs:1065-1145 | a pass reports a file as too large exactly when it first observes the change with sending on, the link up, the file over the cap and its path unknown |
| PollRuns.NothingWithoutANewChange | apps/wiredesk-client/src/clipboard.rs:949-977 | while the counter stands still no file is sent and no file toast shown, whatever the switches do |
| PollRuns.OversizeAtStartupIsSilent | apps/wiredesk-client/src/clipboard.rs:952-977 | an oversize file found at startup is not stamped and yet reported by no pass before the counter moves |
| PollEffects.ImageSentIff | apps/wiredesk-client/src/clipboard.rs:1252-1304 | in every interleaved run a pass queues exactly its image's transfer if sending images is on, the link up, and the image encodable, within the cap and not among the stamps the run left, reports it if it is above the cap, and does neither otherwise |
| PollEffects.WhatAPassQueues | apps/wiredesk-client/src/clipboard.rs:1065-1304 | in every interleaved run a pass adds exactly the transfers due of its file, its text and its image, in this order; with the toasts, the text's in-flight mark and the file label |
| PollEffects.NothingWhileOff | apps/wiredesk-client/src/clipboard.rs:1065-1304 | with a format switched off, or the link down, throughout a run, nothing of the format is offered or reported |
| PollEffects.ReceivedFileIsNotSentBack | apps/wiredesk-client/src/clipboard.rs:223-231 | from a received file's stamp on, until a reset or another file is received, no pass sends it, however often it is copied |
| PollEffects.LargeFileIsReportedOnce | apps/wiredesk-client/src/clipboard.rs:1125-1145 | a file above the cap is reported at most once, however often it is copied, until another such file, a received one or a reset |
| PollEffects.StartupIsMarked | apps/wiredesk-client/src/clipboard.rs:917-997 | startup leaves the stamps of the image and the file it found on top of the earlier ones, the counter, and nothing else |
| PollEffects.FirstPassSendsNothingOld | apps/wiredesk-client/src/clipboard.rs:917-997 | what was on the clipboard at startup is not sent by the first pass, kicked or not |
| PollQueue.PassQueuesWholeTransfers | apps/wiredesk-client/src/clipboard.rs:1065-1304 | one pass, whatever lands in its gap, adds at most three whole transfers, each within the cap its receiver enforces |
| PollQueue.QueueIsWholeTransfers | apps/wiredesk-client/src/clipboard.rs:999-1306 | after any interleaved run the queue is a sequence of whole transfers, never one inside another |
| PollQueue.TransferIsCommitted | apps/wiredesk-host/src/clipboard.rs:969-1237 | a whole transfer arriving in order is committed as its payload, once, or ignored where its format is switched off, and leaves the receiver idle |
| PollQueue.WhatIsQueuedIsCommitted | apps/wiredesk-host/src/clipboard.rs:969-1237 | if the writer drops nothing and the host takes files, the host's receiver commits exactly the payloads a run queued, in order, and the writer's counters end at zero |
| PollQueue.SentNamesAreKeptBack | apps/wiredesk-client/src/clipboard.rs:1186-1190 | in every run the guard keeps back a text exactly when it names a file recently sent or recognised, counting a file sent by the same pass, and no such text ships |
| PollQueue.KnownImageStays | apps/wiredesk-client/src/clipboard.rs:1265-1297 | a known image stays known through any step that stamps no other, and a pass acts only on an unknown one |
| PollQueue.StandingImageIsQuiet | apps/wiredesk-client/src/clipboard.rs:1252-1304 | over any run in which only one image is seen and nobody else stamps images, at most one pass sends it or reports it as too large |
| PollQueue.ImageActionIs | apps/wiredesk-client/src/clipboard.rs:1279-1303 | acting on an image is queueing its transfer within the cap, or one toast above it |
| LinkWriter.WriterThread.constructor | apps/wiredesk-client/src/link.rs:300-328 | nothing queued, decided or refused yet; the flag is as it was left |
| LinkWriter.WriterThread.RecvTimeout | apps/wiredesk-client/src/link.rs:338-342 | takes the first queued packet, or times out on an empty queue |
| LinkWriter.WriterThread.LoadCancel | apps/wiredesk-client/src/link.rs:344-361 | drops an offer or chunk under the flag, goes on to lower the flag for any other packet or an empty queue, and lets everything else pass |
| LinkWriter.WriterThread.StoreCancel | apps/wiredesk-client/src/link.rs:361-372 | lowers the flag and goes on with the packet in hand, if any |
| LinkWriter.WriterThread.TransportSend | apps/wiredesk-host/src/session.rs:965-974 | the host has the packet, and a refusal is on its way back exactly for a refused offer |
| LinkWriter.WriterThread.ApplyOutgoingProgress | apps/wiredesk-client/src/link.rs:393-402 | counts the packet just sent, and no other |
| LinkWriter.WriterThread.ApplyClipDecline | apps/wiredesk-client/src/clipboard.rs:620-645 | a decline raises the flag and clears the label |
| LinkWriter.PacketsInOrder | apps/wiredesk-client/src/link.rs:342-403 | in every interleaving each offer and chunk is sent or dropped once, in the order queued |
| LinkWriter.DroppedWhileFlagged | apps/wiredesk-client/src/link.rs:348-358 | while the flag is up every offer and chunk is dropped, whatever it belongs to, except one already let past |
| LinkWriter.SentWhileClear | apps/wiredesk-client/src/link.rs:348-392 | while nobody raises the flag none is dropped |
| LinkWriter.TakesOrTimesOut | apps/wiredesk-client/src/link.rs:338-342 | the writer takes a packet exactly if one is queued and times out exactly if none is |
| LinkWriter.LoweredBehindOthersOnly | apps/wiredesk-client/src/link.rs:361-411 | the writer lowers the flag only having found it up, on a packet of another kind or an empty queue |
| LinkWriter.OthersAllPass | apps/wiredesk-client/src/link.rs:361-392 | in every interleaving each packet of another kind is sent, once and in order, whatever becomes of the flag |
| LinkWriter.EveryRefusalComesBack | apps/wiredesk-client/src/link.rs:744-751 | in every interleaving each offer sent of a format the host has off makes one decline, on its way or heeded, and the flag is up exactly if a heeded decline or the user raised it after the writer last lowered it |
| LinkWriter.TurnDecides | apps/wiredesk-client/src/link.rs:338-411 | one undisturbed turn of the writer's loop: what becomes of the first packet, the flag, the counters and the host in each case |
| LinkWriter.TurnEnds | apps/wiredesk-client/src/link.rs:330-411 | from wherever it stands the writer gets back to the top of its loop by its own steps |
| LinkWriter.TurnsDrain | apps/wiredesk-client/src/link.rs:330-411 | as many turns as packets wait leave nothing waiting, every offer and chunk decided on and every other packet sent |
| WriterRuns.CommittedIff | apps/wiredesk-client/src/link.rs:342-411 | whatever declines, Cancel and other packets do, the host commits every payload it takes of which no packet was dropped, in order; and nothing else, exactly unless a chunk sent without its own offer completes what an earlier offer left unfinished |
| WriterRuns.CommittedWithoutCancel | apps/wiredesk-client/src/link.rs:342-403 | as long as nobody raises the flag the host commits exactly the payloads it takes, whatever it refuses |
| WriterRuns.InFlightIff | apps/wiredesk-client/src/link.rs:520-526 | without a Cancel a transfer counts as in flight exactly while the bytes sent since the latest offer sent fall short of its length, and both counters are zero exactly if the packet just counted made it up, or none was sent |
| WriterRuns.QuietUntilAnOffer | apps/wiredesk-client/src/app.rs:529-531 | Cancel raises the flag, zeroes both counters and touches nothing else, and nothing is in flight until another offer is counted |
| WriterFailures.TextBehindRefusedFileIsLost | apps/wiredesk-client/src/link.rs:744-751 | a run without a Cancel in which a host that takes texts but no files refuses a file and never gets the text queued behind it, the file staying in flight |
| WriterFailures.TextsAreSpliced | apps/wiredesk-client/src/link.rs:361-372 | a run, with Cancel pressed once during a transfer, in which the host commits the first half of one text and the second half of the next as one |
| PollToHost.WhatIsWrittenIsCommitted | apps/wiredesk-client/src/clipboard.rs:999-1306 | from the clipboard to the host: the same over every run of the poll thread and every run of the writer |
| PollToHost.TextBesideRefusedFileIsLost | apps/wiredesk-client/src/clipboard.rs:1065-1240 | a kicked pass that finds a new file and a new text queues both, and to a host that refuses files the text can be lost |
| PollToHost.LostTextIsNotResent | apps/wiredesk-client/src/clipboard.rs:1191-1228 | with few texts in play and no reset, no later pass ships it again |
| BrowserRoute.SharedRoute.TryInstall | apps/wiredesk-client/src/ipc.rs:325-344 | takes a free slot under a new id, and leaves a taken one to its owner |
| BrowserRoute.SharedRoute.ForwardInput | apps/wiredesk-client/src/ipc.rs:408-417 | enqueues exactly when the slot still belongs to the companion |
| BrowserRoute.SharedRoute.ResetStreams | apps/wiredesk-client/src/ipc.rs:434-447 | queues the reset exactly when still owner with the link up |
| BrowserRoute.SharedRoute.ReleaseSlot | apps/wiredesk-client/src/ipc.rs:349-357 | clears the slot only if it is its own |
| BrowserRoute.SharedRoute.CloseFullRelay | apps/wiredesk-client/src/link.rs:709-728 | resets and evicts the owner, if there is one |
| BrowserRoute.SharedRoute.ForgetHostGeneration | apps/wiredesk-client/src/exec_bridge.rs:62-67 | evicts whoever is installed |
| BrowserRoute.InstalledOnce | apps/wiredesk-client/src/ipc.rs:323-344 | no companion is installed twice |
| BrowserRoute.SilentAfterReset | apps/wiredesk-client/src/ipc.rs:395-447 | in every interleaving no packet of a companion follows its own reset; only the reader's reset can follow the handler's |
| BrowserRoute.SecondResetIff | apps/wiredesk-client/src/link.rs:709-728 | a companion that has queued its reset is reset again exactly when the relay fills up before its guard drops, the slot still its own |
| BrowserRoute.CompanionIsResetTwice | apps/wiredesk-client/src/link.rs:709-728 | a run in which this happens |
| BrowserRoute.PacketsAreSeparated | apps/wiredesk-client/src/ipc.rs:395-447 | between a packet of one companion and a later packet of another lies the first one's reset, a forgotten host, or a moment with the link down |
| BrowserRoute.OwnerInstalledLatest | apps/wiredesk-client/src/ipc.rs:395-417 | every packet and reset belongs to the companion installed most recently before it |
| BrowserRoute.BlocksInInstallOrder | apps/wiredesk-client/src/ipc.rs:325-447 | the queue is a sequence of contiguous blocks, one per companion, in install order |
| BrowserRoute.QueueIsItsWindow | apps/wiredesk-client/src/ipc.rs:408-417 | in every interleaving a companion's packets on the queue are exactly, once each and in order, those it forwarded from the start of its pump to its end, or to the loss of its slot |
| BrowserRoute.TeardownResetsIff | apps/wiredesk-client/src/ipc.rs:434-447 | the teardown queues a reset exactly if nothing took the slot since the installation and the link is up, and the guard then frees exactly its own slot |
| ShellChannel.SharedShellOwner.TryAcquire | apps/wiredesk-client/src/shell_channel.rs:163-193 | grants exec claims and the one console exactly as the host's generation allows, and registers what it grants |
| ShellChannel.SharedShellOwner.DropGuard | apps/wiredesk-client/src/shell_channel.rs:129-142 | gives back exactly the guard's own claim |
| ShellBracket.ExclusiveAlways | apps/wiredesk-client/src/ipc.rs:503-595 | in every interleaving, whatever each handler read of the host, the exec claims are counted, one console and one running exec hold their locks, and beside a console that read false there are only execs that read true |
| ShellBracket.BracketedIff | apps/wiredesk-client/src/ipc.rs:540-696 | each opcode lane of the queue is a prefix of (open input* close)*, each bracket by one handler, exactly unless a session opens after one that unwound without its close, or beside an open one of a mixed pair |
| ShellBracket.AlwaysBracketed | apps/wiredesk-client/src/ipc.rs:977-1176 | with no such unwinding and no claim by an exec that read true beside a console that read false, both opcode families are well bracketed in every interleaving |
| ShellBracket.OneHostNeverMixes | apps/wiredesk-client/src/link.rs:666-698 | as long as the cache is filled before the link is up, always alike, and not emptied, no claim is mixed |
| ShellBracket.GuardsOverlapOnlyMixed | apps/wiredesk-client/src/exec_bridge.rs:121-136 | two handlers of one slot are between install and guard drop at once only as a mixed pair |
| ShellBracket.GuardsNeverOverlap | apps/wiredesk-client/src/exec_bridge.rs:121-136 | without a mixed claim they never are, so the unconditional clear is safe |
| ShellBracket.OneFailureBreaksTheNextRun | apps/wiredesk-client/src/ipc.rs:634-640 | one failed clone after the open is enough to break the next run's bracket, on a host of either generation |
| ShellBracket.EmptiedCacheBreaksTheLane | apps/wiredesk-client/src/ipc.rs:901-917 | on one dual host, a cache emptied between a console's gate and its read breaks the lane with nobody failing |
| ShellSessions.HostRunsWhatIsOpen | apps/wiredesk-client/src/ipc.rs:977-989 | read by the packets alone, without such failure or claim: a host slot has a pipe shell exactly while an exec run's session is open there, and a pty exactly while a console's is |
| ShellSessions.HandlerSaysItsScript | apps/wiredesk-client/src/ipc.rs:1028-1090 | in every interleaving a handler's packets are its open, what it was given to pass on until its session ended, a console's own input in its host's dialect, and its close or failure, in order |
| ShellSessions.WhoGetsThrough | apps/wiredesk-client/src/ipc.rs:901-930 | in every interleaving a handler passes the gate, reads the cache, is granted its claim and gets the lock exactly when link, cache and the other handlers' holdings say so |
| ShellSessions.HandlerCanLeave | apps/wiredesk-client/src/ipc.rs:595-640 | from wherever it holds something a handler can leave by its own steps, with no packet but the close of an open session |
| EventRouting.ShellSlots.Install | apps/wiredesk-client/src/exec_bridge.rs:121-124 | a new consumer with an empty queue replaces whatever the slot held |
| EventRouting.ShellSlots.DropGuard | apps/wiredesk-client/src/exec_bridge.rs:127-136 | empties the guard's slot and nothing else |
| EventRouting.ShellSlots.ForgetHostGeneration | apps/wiredesk-client/src/exec_bridge.rs:62-67 | the strict mode is back, the consumers stay |
| EventRouting.ShellSlots.Deliver | apps/wiredesk-client/src/exec_bridge.rs:143-156 | the event is appended to the slot's consumer if there is one, and no other queue changes |
| EventRouting.ShellSlots.Offer | apps/wiredesk-client/src/exec_bridge.rs:172-179 | the addressed slot's consumer gets the event, or the reader keeps it as missed |
| EventRouting.ShellSlots.LoadFallback | apps/wiredesk-client/src/exec_bridge.rs:180 | a missed event goes on to the other slot exactly if the flag is on at this load |
| EventRouting.ShellSlots.FallBack | apps/wiredesk-client/src/exec_bridge.rs:181 | the other slot's consumer, if any, gets it, and the reader is done |
| EventRouting.ShellSlots.Route | apps/wiredesk-client/src/exec_bridge.rs:172-183 | uninterrupted, the three steps grow at most one queue: the addressed slot's, or the other's against a legacy host |
| EventRouting.WhoIsIn | apps/wiredesk-client/src/exec_bridge.rs:121-136 | a consumer is in its slot exactly until the next install or guard drop there, and never in the other slot |
| EventRouting.HeardWhileIn | apps/wiredesk-client/src/exec_bridge.rs:143-183 | during its stay a consumer's queue is what was offered to its slot, and what fell back to it, in order |
| EventRouting.SilentOnceEvicted | apps/wiredesk-client/src/exec_bridge.rs:127-136 | after its stay a consumer's queue never changes |
| EventRouting.QueueIsItsWindow | apps/wiredesk-client/src/exec_bridge.rs:143-183 | with installs and drops between the steps of a route, a queue in strict mode is exactly its kind's events during the stay, in order; a sole legacy consumer gets both kinds in arrival order, but for one on its way at either end |
| EventRouting.HeardWasOffered | apps/wiredesk-client/src/exec_bridge.rs:143-183 | nothing is queued that was not offered, and an event on its way is in no queue |
| EventRouting.EachEventReachesAtMostOne | apps/wiredesk-client/src/exec_bridge.rs:172-183 | no event reaches two consumers, in either mode, whatever happens between the steps |
| EventRouting.RouteReaches | apps/wiredesk-client/src/exec_bridge.rs:172-183 | one call of `route`, with anything by others between its steps: the event goes to the consumer then in its slot, else, if the latest handshake was with a legacy host, to the one then in the other slot, else to nobody, and the reader is done |
| EventRouting.UninterruptedRoute | apps/wiredesk-client/src/exec_bridge.rs:172-183 | with nothing in between, the three steps are what the reader's call does |
| ServiceDrop.SharedControl.InstallSocket | apps/wiredesk-browser/src/service.rs:157-163 | a socket is installed exactly when the service is alive at that lock section and the clone succeeds |
| ServiceDrop.SharedControl.ClearControl | apps/wiredesk-browser/src/service.rs:85 | no socket is installed once a relay has returned |
| ServiceDrop.SharedControl.ShutDownInstalled | apps/wiredesk-browser/src/service.rs:130-132 | an installed socket is shut down |
| ServiceDrop.DropMissesNoSocket | apps/wiredesk-browser/src/service.rs:127-163 | in every interleaving, once drop has left its control section the worker either has nothing installed and will read the stop flag, or the socket it or its reader can wait on has been shut down |
| ServiceDrop.NothingInstalledAfterTheSweep | apps/wiredesk-browser/src/service.rs:82-163 | from then on no socket is installed, at most the one connection under way is still made, and the worker only gets nearer its end |
| ServiceDrop.NothingPutsItOff | apps/wiredesk-browser/src/service.rs:82-95 | no step of anyone lengthens what the worker has left, and each of its own shortens it |
| ServiceDrop.DropReturns | apps/wiredesk-browser/src/service.rs:133-136 | after the unpark the worker ends within a fixed number of its own and its reader's steps, with the peer silent, no timer firing and every call ending either way, and the join returns |
| ServiceDrop.DropWaitsOnlyToJoin | apps/wiredesk-browser/src/service.rs:127-136 | in every interleaving each of drop's own steps up to the join takes it on, and it returns only once the worker has ended |
| ServiceDrop.AliveReconnects | apps/wiredesk-browser/src/service.rs:82-95 | from every reachable point with the service alive, the worker can come back on a new connection by its own and its reader's steps and an answer of the peer |
| ServiceDrop.ReaderEndsIff | apps/wiredesk-browser/src/service.rs:180-190 | the reader takes one frame a step and ends, marking the connection broken, exactly on a bad frame or on a closed socket with nothing left |
| ServiceDrop.PeerCloseIsNoticed | apps/wiredesk-browser/src/service.rs:180-205 | a connection the peer has closed is left by the worker, alive or not and without a timer |
| ServiceDrop.WaitsIff | apps/wiredesk-browser/src/service.rs:82-95 | in every interleaving the worker's step changes nothing exactly while it waits: for an answer on an open socket, for its reader, or parked without a token, and once it has ended |
| ServiceDrop.ShutSocketIsGivenUp | apps/wiredesk-browser/src/service.rs:127-164 | on a socket that has been shut neither the connect frame nor a message goes through, and the worker gives it up |
| ServiceDrop.LoopIsLeftIff | apps/wiredesk-browser/src/service.rs:191-210 | the relay loop is left exactly when the service is found stopped, the reader ended or a write failed |
| Text.LinesOfTerminated | apps/wiredesk-browser/src/http.rs:48 | splitting at CRLF undoes ending each line with it |
| Text.SplitJoin | apps/wiredesk-browser/src/http.rs:57-70 | splitting undoes joining for parts free of the separator |
| Text.BlankLineEnds | apps/wiredesk-browser/src/http.rs:42-46 | after non-empty lines the first blank line is the one that ends them |
| Text.NamedIff | apps/wiredesk-browser/src/http.rs:80 | a field has a name exactly if it is spelled so letter by letter, in either case |
| Text.Trims | apps/wiredesk-browser/src/http.rs:79 | a value is trimmed of the spaces at both ends, and of those only |
| Text.EitherEndIsTaken | apps/wiredesk-browser/src/http.rs:151-161 | lines ended by a bare newline or by CRLF, in any mixture, are read as what they are |
| Text.DigitsIff | apps/wiredesk-browser/src/http.rs:158 | digits read as a number exactly if they are its decimal form with any zeros in front |
| Utf8.DecodeEncode | apps/wiredesk-browser/src/http.rs:47 | decoding undoes encoding |
| Utf8.EncodeDecode | apps/wiredesk-browser/src/http.rs:47 | bytes that decode are the encoding of the result: no overlong form, surrogate or stray byte passes |
| Utf8.HeaderEndEncoded | apps/wiredesk-browser/src/http.rs:42-46 | the first blank line of a text is the first in its bytes, whatever bytes follow |
| HttpAuth.ReadPairs | apps/wiredesk-browser/src/http.rs:54-65 | accepts exactly no token pair or a single right one, and keeps all other pairs in order |
| HttpAuth.ReadFields | apps/wiredesk-browser/src/http.rs:72-115 | returns the first fault among the fields, or forwards all but Authorization and Origin in order and counts the Host fields |
| HttpAuth.Authenticate | apps/wiredesk-browser/src/http.rs:41-123 | the loops together compute the outcome on values, with the first error in source order |
| HttpAuth.PassesExactly | apps/wiredesk-browser/src/http.rs:41-117 | a message passes exactly when its header reads as a request with at most one right token pair, at most one right Authorization, one of the two, exactly one Host, and only allowed Host and Origin values |
| HttpAuth.WrittenParses | apps/wiredesk-browser/src/http.rs:66-120 | parsing undoes writing for every well-formed request |
| HttpAuth.MeaningIsPreserved | apps/wiredesk-browser/src/http.rs:41-123 | re-parsed, the output has the same method and path, the same pairs without token and empty ones, the same fields without Authorization and Origin, and the same bytes after its first blank line |
| HttpAuth.AdmissibleIsForwarded | apps/wiredesk-browser/src/http.rs:41-123 | every admissible request sent as bytes with any body is forwarded as exactly the bytes of its stripped self and that body |
| HttpAuth.CredentialsAreGone | apps/wiredesk-browser/src/http.rs:38-40 | the forwarded message would itself be refused as unauthorized |
| HttpAuth.ReadAlikeIff | apps/wiredesk-browser/src/http.rs:48 | a reader that lets a bare newline end a line sees the gateway's own lines in a written request exactly if no field holds one |
| HttpAuth.OtherFieldIsAdmissible | apps/wiredesk-browser/src/http.rs:72-113 | a field other than Host, Authorization and Origin does not change whether a request passes, and is forwarded |
| HttpAuth.BareNewlinePasses | apps/wiredesk-browser/src/http.rs:72-115 | any admissible request may be given a field with a bare newline, passes, and is then read differently |
| HttpAuth.FieldIsCheckedIff | apps/wiredesk-browser/src/http.rs:80-101 | a field is checked as Host, Authorization or Origin exactly if its name is that in any spelling |
| HttpAuth.SpellingDoesNotMatter | apps/wiredesk-browser/src/http.rs:72-113 | respelling field names in another case changes neither whether a request passes nor which fields are kept |
| HttpRequests.HostAllowedIff | apps/wiredesk-browser/src/http.rs:80-91 | a Host is accepted exactly if it names this machine by number or as localhost at the gateway's own port, or as wiredesk.localhost with port 19223, 80 or none where the gateway's is 19223 |
| HttpRequests.OriginAllowedIff | apps/wiredesk-browser/src/http.rs:101-107 | after `http://` an Origin is accepted exactly if it is a Host accepted at 19223, other than with port 80 |
| HttpRequests.OriginsArePlain | apps/wiredesk-browser/src/http.rs:101-107 | no Origin without `http://` is accepted |
| HttpRequests.FirstLineIff | apps/wiredesk-browser/src/http.rs:49-53 | a first line of words is taken exactly if there are three, the second a path and the third the version |
| HttpRequests.PageIsForwarded | apps/wiredesk-browser/src/http.rs:41-123 | `GET /?token=..` with a localhost Host line and any body is forwarded as `GET /` with that line and body |
| HttpRequests.BearerIsForwarded | apps/wiredesk-browser/src/http.rs:41-123 | so is `GET /` with the token in an Authorization field |
| HttpDiscovery.Stream.ReadHeader | apps/wiredesk-browser/src/http.rs:20-36 | returns what has been read when the header is first complete, or fails at the end or past the limit |
| HttpDiscovery.Stream.ReadExact | apps/wiredesk-browser/src/http.rs:171 | fills the rest of the buffer in place with the next bytes in any pieces, exactly when there are enough |
| HttpDiscovery.ReadLength | apps/wiredesk-browser/src/http.rs:142-165 | the checks on what has been read decide by the header alone |
| HttpDiscovery.Stream.ReadDiscovery | apps/wiredesk-browser/src/http.rs:138-172 | the reads and checks together compute the outcome for that way of cutting the stream |
| HttpDiscovery.NeverOtherBytes | apps/wiredesk-browser/src/http.rs:166-172 | no way of cutting yields anything but the declared body |
| HttpDiscovery.IndependentIff | apps/wiredesk-browser/src/http.rs:138-172 | every way of cutting yields the body exactly when it is complete and in cap, nothing follows it or no read can reach past it, and no read that completes the header can pass the header limit |
| HttpDiscovery.ResponseMayFail | apps/wiredesk-browser/src/http.rs:166-172 | a response of two bytes and a newline after them, which one cutting turns into the body and another into an error |
| HttpDiscovery.SomeCuttingSucceedsIff | apps/wiredesk-browser/src/http.rs:138-172 | some way of cutting succeeds exactly when header and body are within their limits and complete |
| HttpDiscovery.FramedHeaderDeclares | apps/wiredesk-browser/src/http.rs:150-165 | a response with one decimal Content-Length and no Transfer-Encoding declares that length |
| HttpDiscovery.DeclaredIff | apps/wiredesk-browser/src/http.rs:142-165 | bytes declare a length exactly if they encode a text with the status, one line naming a readable length and none naming a transfer coding |
| HttpDiscovery.ParseSizeIff | apps/wiredesk-browser/src/http.rs:157-160 | a length is read exactly off its decimal form with any zeros and at most one plus in front, in the range of a usize |
| HttpDiscovery.FramedInAnySpelling | apps/wiredesk-browser/src/http.rs:150-165 | a response is framed alike however its field names are spelled |
| HttpDiscovery.LengthFieldIff | apps/wiredesk-browser/src/http.rs:155-162 | Content-Length and Transfer-Encoding are recognised in any spelling and no other name is |
| HttpDiscovery.AnyCuttingYieldsTheBody | apps/wiredesk-browser/src/http.rs:138-172 | such a response followed by exactly its body yields that body however it is cut, its header being one read short of the limit |
| KeyboardHook.HostReadsTheSameKey | apps/wiredesk-client/src/keyboard_tap.rs:980-990 | the host unpacks every composed scan code to the same key and flag |
| KeyboardHook.Hook.HookProc | apps/wiredesk-client/src/keyboard_tap.rs:1124-1235 | each callback refines the stroke on values and says whether the local desktop sees it |
| KeyboardHook.Hook.ReleaseHeldKeys | apps/wiredesk-client/src/keyboard_tap.rs:1085-1110 | one key-up for every held key in ascending order, and nothing held afterwards |
| KeyboardHook.Hook.Enable | apps/wiredesk-client/src/keyboard_tap.rs:238-241 | capture on, passive off, nothing else changed |
| KeyboardHook.Hook.Disable | apps/wiredesk-client/src/keyboard_tap.rs:264-297 | both modes off and every held key released |
| KeyboardHook.Hook.EnablePassive | apps/wiredesk-client/src/keyboard_tap.rs:246-252 | held keys are released when capture was on, then only passive is on |
| KeyboardHook.HeldMirrorsTheHost | apps/wiredesk-client/src/keyboard_tap.rs:1065-1068 | after every sequence of strokes and switches the held set is what the host believes pressed, and empty whenever capture is off |
| KeyboardHook.NothingStaysAfterSwitchingOff | apps/wiredesk-client/src/keyboard_tap.rs:246-297 | after disabling or going passive the host believes nothing pressed |
| KeyboardHook.HotkeyDownIff | apps/wiredesk-client/src/keyboard_tap.rs:1069-1075 | a key is remembered as a hotkey exactly when a press since its last release was taken as one |
| KeyboardHook.StaysPressedIff | apps/wiredesk-client/src/keyboard_tap.rs:1146-1158 | a release leaves the host believing the key pressed exactly if it did before and a press since the last release was taken as a hotkey |
| KeyboardHook.StuckIff | apps/wiredesk-client/src/keyboard_tap.rs:1124-1235 | after every run the host believes a key pressed that is not exactly if its latest stroke was a release under capture, of a key believed pressed, after a press of its virtual key was taken as a hotkey, and capture was not switched off since |
| KeyboardHook.StrokeHasItsFate | apps/wiredesk-client/src/keyboard_tap.rs:1124-1235 | told from the strokes and switches so far: whether a stroke goes to the host and as what, raises which event, and is kept from the local desktop, which under capture gets the modifiers only |
| KeyboardHook.NoKeySticks | apps/wiredesk-client/src/keyboard_tap.rs:1124-1235 | any number of scan codes to a virtual key: when no virtual key is both forwarded, under any of them, and taken as a hotkey between press and release, the host never believes a key pressed that is not |
| KeyboardHook.EnterSticksBesideNumpad | apps/wiredesk-client/src/keyboard_tap.rs:1146-1158 | Enter held, then Ctrl and the numpad's Enter: with all keys up again the host has Enter pressed |
| KeyboardHook.EnterSticksUnderCtrl | apps/wiredesk-client/src/keyboard_tap.rs:1160-1187 | Ctrl going down between a press of Enter and a repeat of it leaves Enter pressed on the host with no key down |
| KeyboardHook.EnterSticksAfterCtrl | apps/wiredesk-client/src/keyboard_tap.rs:1146-1158 | so does letting go of Ctrl before Enter after Ctrl+Enter |

## Left out

- OS clipboard, pasteboard, hook and tap calls, file writes, PNG coding and hashing are foreign code: contents are seen as hashes, a commit as a hand-off, an image as its hash and encoded bytes.
- What `commit_text`, `commit_image` and `commit_file` do with a hand-off, including the cache file removed by `reset`, is not modelled.
- Payload routing by the link reader other than shell events, offers, chunks, declines and browser packets, and the switch with which the user cancels an incoming transfer, are not modelled.
- WriterRuns.InFlightIff: says nothing about runs in which the user presses Cancel, whose stores can fall between a packet and its counting; `QuietUntilAnOffer` covers the time after them. The counters being zeroed on disconnect is not modelled: a run of the writer is one link.
- WriterRuns.CommittedIff: the wire delivers every packet that is sent; failing sends end the link. Packets the wire itself loses are covered by `Passages.ExactlyTheWholeIff`. A packet too large to encode, which the writer skips, does not occur among offers and chunks.
- LinkWriter.WriterThread.ApplyOutgoingProgress: the writer's accesses to the two counters and the label for one packet are one step, and so are the two stores for a decline.
- PollRuns.EchoOnlyInsideTheGap: a text counts as received from its stamp on, not from the moment it is put on the OS clipboard; `CommittedTextIsEchoedIff` covers the time in between.
- PollQueue.WhatIsQueuedIsCommitted: covers a host that takes files and a writer that drops nothing; `PollToHost.WhatIsWrittenIsCommitted` covers the others. The receiver is the client's `IncomingClipboard`, whose steps `apps/wiredesk-host/src/clipboard.rs:969-1237` repeats with text and image switches always on; the host's own resets and sender state are not modelled. It assumes that a file does not grow between its size check and its read (`clipboard.rs:465-484`), which the code does not exclude.
- The gap between check and stamp is modelled for texts; an image, or an oversize file, is checked and stamped in one step. Other threads step between passes and in that gap, not between a pass's file branch and its text check (`clipboard.rs:1082-1191`): a reset there is not a run of the model.
- Transfers.ExactlyTheCompleteTransfers: every offer arrives; lost offers are `Passages.ExactlyTheWholeIff`.
- Mutex poisoning, thread-spawn failure and panics are not modelled, except a handler that unwinds between open and close; companion ids do not run out.
- ShellBracket.AlwaysBracketed: a lane is followed over the whole queue, also across a reconnect; what the host itself does with an unclosed session when the link is lost is not modelled.
- The runner that decides what a `wd --exec` sends is reduced to any number of inputs between open and close; an open's shell name and terminal size are left out.
- ServiceDrop.DropReturns: connecting to the local socket, sleeping in the relay loop and the dispatch to the hub are single steps that return; the listeners' threads and the hub are not part of the model.
- HttpDiscovery.Stream.ReadDiscovery: the body is returned as bytes; parsing and rewriting it as JSON is left out, and a read after the last byte fails whether the connection closes or times out.
- The source of the key state (`GetAsyncKeyState`, `MapVirtualKeyW`) is an input of each stroke; the Mac tap, and a callback racing a mode switch inside one step, are not modelled.
- Logging, milestones' wording, configuration, windows and the viewer are interface code.
