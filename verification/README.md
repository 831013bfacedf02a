# Verified models of the Mux toolchain

Dafny models of the parts of Mux whose correctness is an argument over whole
runs or whole inputs, with proofs of what they promise.  `dafny verify
dfyconfig.toml` checks everything.

- **Language server** (`Lsp*.dfy`).  Event loop and analysis worker share three
  locked cells and two FIFO channels.  Every access to one of them is a step of
  its own, a run is any interleaving of the two threads with any client
  messages, and the client is part of the state: responses received and
  diagnostics shown per URI (LSP 3.17, sections "Cancellation Support",
  "Response Message" and "PublishDiagnostics Notification"; JSON-RPC 2.0,
  section 5).  `LspRuns`, `LspDocuments` and `LspReplies` are about whole runs.
  `LspServer` gives the event loop and the worker as methods on their fields and
  proves them to follow the machine.
- **Updater** (`Update*.dfy`).  The file system is a map from paths to contents
  in an object whose operations can fail at any time; a ghost counter says how
  many did.  The transaction is proved for any number of files and any failure,
  and to succeed exactly when nothing failed or stood in its way.  Its contract
  is then used by
  a machine of one installation, any number of registering installers, updaters
  and compilers, and their lock.
- **Text** (`Text`, `TextEncodings`, `TextPositions`, `LineIndex`,
  `SemanticTokens`).  Texts are sequences of Unicode scalars with their UTF-8
  bytes (RFC 3629, section 3) and UTF-16 code units (RFC 2781, section 2.1).
- **Enums** (`Walks`, `EnumOrder`, `EnumLayout`).  The order enums are laid out
  in, and the slots payloads get.
- **Test coverage** (`CoverageBlanking`, `CoverageLines`, `CoverageMerge`,
  `CoverageTotals`, `Lcov`, `CoverageReport`).  From a source with tests to the LCOV report, and
  back from the report to the counters.
- **Fixes** (`FixEdits`, `FixApply`, `FixValidation`).  Applying edits, and
  finding out whether only old errors remain.
- **DLL closure** (`DllIndex`, `DllClosure`, `DllShadowing`).  What the bundler
  copies, and which binaries it never looks at.

`Options` and `Collections` hold what several of these share.

What the proofs found out about the code:

- Position round trip: `position_to_offset` cannot return to an offset behind a
  `\r` that precedes `\n` or ends the text.  `TextPositions.RoundTrip` has this
  as an if-and-only-if.
- The comment above `enum_generation_order` says that a self-embedding enum is
  emitted last.  The code drops self-references from the dependencies, so such
  an enum comes out with those that are ready; only cycles of two or more enums
  are held back.  Comments beside the layout code also say that construction
  rejects a recursive payload; `store_constructor_field` boxes it.  The model
  follows the code in both (`EnumLayout.RecursivePayloadIsBoxed`).
- A receipt without its lock file is not protected: a compiler can look for the
  lock file, then for the receipt while an updater has moved it, and run
  unguarded.  Nor is a first registration: a compiler that found no lock file
  before `register_install` created it can run unguarded through a later update.
  `UpdateLock.LockFileIsExactlyEnough` shows that a lock file from the start is
  precisely what is missing wherever an update is possible at all.
- In a case-sensitive directory a second executable whose name differs from an
  earlier one in case only is never inspected, since its name is known by then.
  Success is certain to mean that every binary has its DLLs if and only if each
  binary has the content of one that is the first of its name
  (`DllShadowing.CompleteExactlyIfLed`).  For any directory where one does not,
  `bundle` can succeed while a DLL it imports is nowhere
  (`DllShadowing.BundleLeavesOut`).
- The declaration that the test runner puts before the body is mapped to the
  tested file too, to the line after its last.

## Model

| member | source | states |
|---|---|---|
| `LspRuns.AcceptedDiagnosticsAreExact` | `mux-compiler/src/lsp.rs:456-463` | in every run, accepting a diagnostics result leaves the client showing, on every URI, exactly what the analysis finds in the current documents, nothing if none is open; the published URIs are the open documents and those with findings |
| `LspRuns.QuiescentClientIsUpToDate` | `mux-compiler/src/lsp.rs:533-617` | whenever both queues are empty and both threads wait, the client shows on every URI what the analysis finds in the current documents, so skipping a stale task never loses the last word |
| `LspRuns.NoLostWakeup` | `mux-compiler/src/lsp.rs:541-590` | in every reachable state `signal_queued` says that exactly one signal is about to be sent, queued or taken but not yet acted on, and a stored task always has its signal |
| `LspRuns.AtMostOneResponse` | `mux-compiler/src/lsp.rs:283-320` | in every run each id is answered at most as often as it was asked, and that is at most once, cancellations included |
| `LspRuns.ExactlyOneResponseAtQuiescence` | `mux-compiler/src/lsp.rs:432-467` | once everything has drained each request has exactly one response, `outstanding` is empty and no cancellation mark is left |
| `LspRuns.CancelledIsInFlight` | `mux-compiler/src/lsp.rs:413-420` | an id in `cancelled` still has exactly one task or result on its way, and its one response has been sent |
| `LspRuns.DeliveredReplyIsForCurrentDocuments` | `mux-compiler/src/lsp.rs:436-454` | a reply reaches the client as computed if and only if the documents are those the request was asked about, otherwise error -32801 |
| `LspRuns.AcceptedWhenAsked` | `mux-compiler/src/lsp.rs:307-319` | the snapshot a request is answered from is the document map at the moment it was asked |
| `LspRuns.EqualRevisionsMeanEqualDocuments` | `mux-compiler/src/lsp.rs:345-391` | at any two moments of any run, equal revision maps mean equal document maps and the other way round, over opens, changes, closes, reopens and watched-file bumps |
| `LspRuns.LostEntryNeverReturns` | `mux-compiler/src/lsp.rs:339-391` | a (URI, revision) pair that has left the document map never comes back |
| `LspReplies.EveryResponseIsRight` | `mux-compiler/src/lsp.rs:280-320` | in every run each response is justified: `shutdown` acknowledged, an unknown method refused with -32601, and any other request answered by its handler from the documents and folders when it was asked, by -32801 where the documents were no longer those, or by -32800 after a cancellation |
| `LspReplies.CancelAnswersAtOnce` | `mux-compiler/src/lsp.rs:400-421` | a cancellation is answered at once, exactly if its request was asked and has no response yet |
| `LspReplies.AskedIsAnswered` | `mux-compiler/src/lsp.rs:533-617` | from every reachable state before `exit`, between two iterations, a request can be asked, and once the queues have drained by themselves it has its handler's answer about the documents as they are |
| `LspReplies.CancelledAreSkipped` | `mux-compiler/src/lsp.rs:619-630` | a request is answered only after the worker looked for its cancellation and found none; one found cancelled is dropped together with its mark |
| `LspReplies.StaleAreSkipped` | `mux-compiler/src/lsp.rs:595-597` | documents are analysed only after the worker found their revisions to be the latest; a stale task is dropped |
| `LspDocuments.OpenExactlySinceOpened` | `mux-compiler/src/lsp.rs:352-393` | a document is in the map exactly if it was opened as a file and has not been closed since |
| `LspDocuments.TextIsLastBrought` | `mux-compiler/src/lsp.rs:352-386` | its text and version are those of the last opening, or of the last change with a newer version, whose last content change is the whole text |
| `LspDocuments.WatchedFilesOutdateAll` | `mux-compiler/src/lsp.rs:337-351` | a change to a watched Mux file gives every open document a revision it never had, and changes no text |
| `LspDocuments.FoldersAreLast` | `mux-compiler/src/lsp.rs:330-336` | the workspace folders are those of the last message about them |
| `LspDocuments.StopsAfterExit` | `mux-compiler/src/lsp.rs:256-269` | the event loop takes no message after `exit`, and stops only then |
| `LspRuns.RunKeepsInv` | `mux-compiler/src/lsp.rs:256-269` | the invariant behind all of these holds in every state of every interleaving with fewer than 2^64 edits |
| `LspRuns.FollowsKeepsInv` | `mux-compiler/src/lsp.rs:256-269` | the same from any state that has the invariant, not only from the start |
| `LspRuns.QuiescentIsUpToDate` | `mux-compiler/src/lsp.rs:533-617` | in any state with the invariant where nothing is left to do, the client shows on every URI what the analysis finds in the current documents |
| `LspInvariants.PipelineAfterAccept` | `mux-compiler/src/lsp.rs:456-463` | accepting a result keeps every queued task and result on a `published_uris` base that covers what the client shows |
| `LspInvariants.EditExtends` | `mux-compiler/src/lsp.rs:322-398` | an edit only ever mints (URI, revision) pairs never seen before |
| `LspInvariants.SignalKept` | `mux-compiler/src/lsp.rs:533-590` | no step of either thread breaks the one-signal rule |
| `LspDelivery.RevisionsDetermineDocuments` | `mux-compiler/src/lsp.rs:526-531` | two recorded document maps with equal revision maps are equal |
| `LspDelivery.DeliverExactly` | `mux-compiler/src/lsp.rs:4193-4206` | a batch that covers all URIs on show replaces everything by exactly its report |
| `LspDelivery.PublishedRenders` | `mux-compiler/src/lsp.rs:4189-4206` | what publishing queues renders the collected report, and mentions every URI published before |
| `LspDelivery.PublishedExactly` | `mux-compiler/src/lsp.rs:4180-4206` | publishing queues one message for each URI published before, each open document and each URI with findings, with exactly what was found there and the version of the document if it is open |
| `LspDraining.Drains` | `mux-compiler/src/lsp.rs:432-467` | from any state short of `exit` the two threads can empty all queues without the client |
| `LspDraining.WorkShrinksLoad` | `mux-compiler/src/lsp.rs:570-703` | every step that is neither a client message nor an empty poll uses up load, so draining cannot go on for ever |
| `LspServer.PublishAllDiagnostics` | `mux-compiler/src/lsp.rs:4189-4206` | the loops queue exactly one message for each URI published before or reported now, with what the analysis finds there, and return the open documents and the URIs with findings |
| `LspServer.SchedulingFollows` | `mux-compiler/src/lsp.rs:533-561` | running `schedule_diagnostics` without interruption is a run of the small-step machine |
| `LspServer.DrainingFollows` | `mux-compiler/src/lsp.rs:432-467` | running `send_worker_results` without interruption is a run of the small-step machine |
| `LspServer.LanguageServer.HandleRequest` | `mux-compiler/src/lsp.rs:283-320` | the whole state after a request is the one the machine reaches, and the invariant holds again |
| `LspServer.LanguageServer.HandleCancellation` | `mux-compiler/src/lsp.rs:400-420` | the whole state after a cancellation is the one the machine reaches, and the invariant holds again |
| `LspServer.LanguageServer.HandleNotification` | `mux-compiler/src/lsp.rs:322-398` | the whole state after a notification and the scheduling it asks for is the one the machine reaches, and the invariant holds again |
| `LspServer.LanguageServer.ScheduleDiagnostics` | `mux-compiler/src/lsp.rs:533-561` | revisions, latest task and signal as the machine leaves them |
| `LspServer.LanguageServer.SendWorkerResults` | `mux-compiler/src/lsp.rs:432-467` | draining the result queue turn by turn ends where the machine ends, with the invariant |
| `LspServer.LanguageServer.WorkerAccess` | `mux-compiler/src/lsp.rs:570-703` | each access of the worker is an enabled step of the machine, has its effect and keeps the invariant |
| `LspServer.LanguageServer.Iterate` | `mux-compiler/src/lsp.rs:256-269` | one uninterrupted iteration of the event loop, on a message or a timeout, keeps the invariant and empties the result queue; if nothing is left to do afterwards the client is up to date |
| `LspServer.IterationKeepsSound` | `mux-compiler/src/lsp.rs:256-269` | the same of the machine's steps |
| `UpdateInstall.Install` | `mux-update/src/transaction.rs:19-72` | all or nothing for any number of files and any failure.  The new release is in place if and only if no operation failed, the bundle is complete and no destination is taken by an unowned file or a directory; otherwise every path outside staging is as before, unless at least two operations failed, and then the old content of every file is at its place or at a planned backup of its own |
| `UpdateInstall.InstallStaged` | `mux-update/src/transaction.rs:39-71` | the same from the moment the staging directories exist |
| `UpdateInstall.Prepare` | `mux-update/src/transaction.rs:112-175` | it yields a plan if and only if nothing fails and every destination may be replaced; every new file is staged without touching anything installed, all paths of the plan are distinct, and no destination lies in a staging directory |
| `UpdateInstall.PlanIsSeparate` | `mux-update/src/transaction.rs:123-173` | destinations, replacements and backups of all items and the receipt are pairwise distinct, and every destination lies outside both staging directories |
| `UpdateInstall.PlanIsBeside` | `mux-update/src/transaction.rs:31-38` | new and old content of every item are staged in the directory of its destination, so that no rename crosses a volume |
| `UpdateInstall.ApplyItems` | `mux-update/src/transaction.rs:42-54` | up to the first failure the first `applied` items are backed up and the rest untouched; exactly without failure all are replaced |
| `UpdateInstall.AllReplaced` | `mux-update/src/transaction.rs:41-58` | all items replaced is exactly the new release in place of the old |
| `UpdateInstall.AllRestored` | `mux-update/src/transaction.rs:199-223` | all items rolled back is exactly the installation before |
| `UpdateInstall.AllPreserved` | `mux-update/src/transaction.rs:199-216` | even when rollback steps fail, the old content of every file that existed is at its destination or at the backup planned for it |
| `UpdateInstall.AllRecoverable` | `mux-update/src/transaction.rs:59-68` | and with the kept staging directories that plan is enough to restore the old release, file by file |
| `UpdateInstall.PlanBacksUp` | `mux-update/src/transaction.rs:148-158` | the plan gives every destination a backup of its own inside the staging directories |
| `UpdateInstall.Undo` | `mux-update/src/transaction.rs:59-70` | rollback after a failure restores everything exactly if no further operation fails, and loses nothing otherwise |
| `UpdateInstall.ApplyOrUndo` | `mux-update/src/transaction.rs:41-71` | no failure means everything applied, exactly one means everything undone, only a second one leaves anything to recover |
| `UpdateInstall.BundleFiles` | `mux-update/src/receipt.rs:190-246` | a bundle is accepted exactly if its names are safe and distinct and launcher and runtime are there, and then its files are listed |
| `UpdateTransaction.Rollback` | `mux-update/src/transaction.rs:199-223` | items are undone last to first, past errors, none losing old content; every item is restored exactly if no operation fails |
| `UpdateTransaction.BackupsDiffer` | `mux-update/src/transaction.rs:148-158` | no two destinations share a backup |
| `UpdatePaths.StagingNamesDiffer` | `mux-update/src/transaction.rs:137-152` | index-based staging names of different items or purposes never coincide |
| `UpdatePaths.DestinationsDiffer` | `mux-update/src/receipt.rs:104-134` | safe names in two different directories never share a destination, nor take the receipt's |
| `UpdatePaths.SafeNames` | `mux-update/src/receipt.rs:126-135` | a name is accepted exactly if it is one path component, not a special one, and has not the updater's own prefix |
| `UpdateLock.GuardedCompilerSeesOneVersion` | `mux-update/src/receipt.rs:65-77` | over all interleavings, a compiler holding a guard sees an unchanging installation with receipt and files of one release |
| `UpdateLock.NoneRunsUnguarded` | `mux-update/src/receipt.rs:69-74` | with the lock file there from the start no compiler ever runs without a guard, though the receipt is absent for a while |
| `UpdateLock.SlipsWithoutLockFile` | `mux-update/src/receipt.rs:69-74` | without the lock file, from a receipt or before one is registered, there is an interleaving in which a compiler runs unguarded beside an updater |
| `UpdateLock.LockFileIsExactlyEnough` | `mux-update/src/receipt.rs:44-77` | whatever installers, updaters and compilers do, no compiler can slip past in any run if and only if the lock file was there at the start or there is no receipt and none will be registered |
| `UpdateLock.NobodyUpdates` | `mux-update/src/lib.rs:52-57` | without a receipt, and without an installer that registers one, no updater ever gets as far as the lock |
| `UpdateLock.UninterruptedCompiler` | `mux-update/src/receipt.rs:65-77` | left alone, a compiler of the machine runs unguarded exactly if it finds neither lock file nor receipt, and guarded exactly if nobody holds the lock alone and the receipt loads |
| `UpdateLock.UninterruptedUpdater` | `mux-update/src/lib.rs:78-85` | left alone, an updater installs exactly if nobody holds the lock and its receipt is still the one that loads |
| `UpdateLock.LoadsExactly` | `mux-update/src/receipt.rs:85-117` | what loads is exactly a receipt written there, for this place and another library directory, with safe distinct names and a launcher |
| `UpdateLock.RegisteredIsCoherent` | `mux-update/src/receipt.rs:247-278` | registering, whether it succeeds or fails, leaves no loadable receipt that is untrue of the files |
| `UpdateLock.EndedIsOneVersion` | `mux-update/src/transaction.rs:59-71` | an update that ends leaves receipt and files of one release, the old or the new |
| `UpdateLock.RunKeepsLockInv` | `mux-update/src/lib.rs:78-94` | mutual exclusion, and a receipt that tells the truth while nobody holds the lock alone, hold in every state of every run |
| `UpdateCommands.Installation.Lock` | `mux-update/src/receipt.rs:44-64` | the lock file exists afterwards, and the lock is granted exactly if nobody holds it in a conflicting way |
| `UpdateCommands.Installation.SharedInstallationLock` | `mux-update/src/receipt.rs:65-77` | no guard exactly if neither lock file nor receipt exist; a guard exactly if the lock is free and the receipt loads; and this is what becomes of the machine's compiler |
| `UpdateCommands.Installation.Run` | `mux-update/src/lib.rs:76-94` | busy exactly if the lock is held, no receipt or a changed one exactly if that is what loads under the lock, installed exactly if besides nothing failed or was in the way; the machine's updater gets as far; nothing changed where the update did not start, and the lock is always given back |
| `UpdateCommands.Installation.RegisterInstall` | `mux-update/src/receipt.rs:247-278` | a receipt is registered exactly if target, version, bundle and directories are accepted, the lock is free, all files are there and nothing fails; it loads again and leaves the lock file behind |
| `TextPositions.RoundTrip` | `mux-compiler/src/lsp.rs:4316-4352` | offset to position and back is the identity on a character boundary if and only if it is not behind a `\r` that precedes `\n` or ends the text |
| `TextPositions.RoundsDown` | `mux-compiler/src/lsp.rs:4327-4352` | any position at all becomes a character boundary whose own position is not past it |
| `TextPositions.RoundsToLast` | `mux-compiler/src/lsp.rs:4327-4352` | and no later addressable boundary would do |
| `TextPositions.Monotone` | `mux-compiler/src/lsp.rs:4327-4352` | later positions never mean earlier offsets |
| `TextPositions.OffsetToPositionIsPositionAt` | `mux-compiler/src/lsp.rs:4316-4325` | counting bytes and encoding UTF-16 gives the newlines before the offset, and the UTF-16 code units of its line before it |
| `TextPositions.PositionToOffset` | `mux-compiler/src/lsp.rs:4327-4352` | the loops over lines and characters find that boundary |
| `TextPositions.SumsFit` | `mux-compiler/src/lsp.rs:4338-4344` | in texts below 4 GiB the 32-bit sum of UTF-16 lengths never overflows |
| `TextPositions.PositionCounts` | `mux-compiler/src/lsp.rs:4316-4325` | the position of a scalar counts the newlines before it and the code units since the last of them |
| `TextEncodings.Utf16ReadsBack` | `mux-compiler/src/lsp.rs:4323` | the code units counted are the UTF-16 of the text: all fit sixteen bits, and a decoder with surrogate pairs gives the text back |
| `TextEncodings.Utf8ReadsBack` | `mux-compiler/src/lsp.rs:4316-4325` | the bytes offsets count are the UTF-8 of the text: a decoder that refuses overlong forms gives the text back |
| `Text.FloorCharBoundary` | `mux-compiler/src/lsp.rs:4354-4359` | stepping down byte by byte finds the start of the character |
| `Text.BoundariesAreOffsets` | `mux-compiler/src/source.rs:11-16` | the byte test for boundaries finds exactly the starts of characters in UTF-8 |
| `LineIndex.LineStarts` | `mux-compiler/src/source.rs:5-9` | the table holds the offsets of all line starts |
| `LineIndex.PartitionPoint` | `mux-compiler/src/source.rs:49-52` | bisection finds the boundary between entries up to the offset and entries past it |
| `LineIndex.LineCol` | `mux-compiler/src/source.rs:47-60` | the bisected line is one plus the newlines before the floored offset, the column one plus the display width since the line start |
| `LineIndex.WidthsAdd` | `mux-compiler/src/source.rs:54-58` | the display width of a stretch is the sum of the widths of its characters |
| `LineIndex.SameLineAsPosition` | `mux-compiler/src/source.rs:47-52` | this is the line `offset_to_position` computes |
| `LineIndex.LineRange` | `mux-compiler/src/source.rs:140-156` | the range of a line, none exactly for numbers no line has |
| `LineIndex.LineShape` | `mux-compiler/src/source.rs:140-156` | no `\n` inside a line; what lies between lines is `\n` or `\r\n` |
| `LineIndex.LinesReassemble` | `mux-compiler/src/source.rs:159-168` | all lines with their endings are the source |
| `SemanticTokens.EncodeSemanticTokens` | `mux-compiler/src/lsp.rs:2361-2444` | the client decodes the sorted, deduplicated segments, with increasing starts; for tokens in order, exactly the segments in text order |
| `SemanticTokens.EncodeSorted` | `mux-compiler/src/lsp.rs:2417-2439` | delta encoding decodes to what was encoded and no subtraction goes below zero |
| `SemanticTokens.SplitRange` | `mux-compiler/src/lsp.rs:2386-2414` | the loop cuts a token at line ends into its pieces |
| `SemanticTokens.PushSegment` | `mux-compiler/src/lsp.rs:2636-2658` | a piece becomes its line, column and number of UTF-16 code units; the saturating subtraction is exact and nothing is skipped |
| `SemanticTokens.RawIncreases` | `mux-compiler/src/lsp.rs:2386-2414` | segments of tokens in order come with strictly increasing (line, start) |
| `SemanticTokens.SegmentsStayOnLines` | `mux-compiler/src/lsp.rs:2384-2414` | every segment covers a stretch of one line inside one token with sensible ends, has the newlines and code units before it as line and start and its own code units as length, and holds no part of a line ending |
| `SemanticTokens.EveryScalarIsShown` | `mux-compiler/src/lsp.rs:2386-2414` | every character of a token that has a style, line endings excepted, is covered by a segment of that style |
| `SemanticTokens.StrictOrderUnique` | `mux-compiler/src/lsp.rs:2415-2416` | with distinct keys the unstable sort has one possible result |
| `SemanticTokens.DedupIsStrict` | `mux-compiler/src/lsp.rs:2415-2416` | after sorting and deduplicating starts increase strictly |
| `SemanticTokens.DedupKeepsKeys` | `mux-compiler/src/lsp.rs:2415-2416` | deduplication drops only segments whose start is kept, and invents none |
| `EnumOrder.EnumGenerationOrder` | `mux-compiler/src/codegen/classes.rs:138-177` | for distinct names the loop ends with every enum once: first, round by round and in source order within a round, exactly those that reach no cycle of two or more enums carrying one another, each after all it carries, then the rest in source order |
| `EnumOrder.RoundsUnique` | `mux-compiler/src/codegen/classes.rs:154-169` | the order in rounds is the only one: what is ready after the enums listed so far, in source order |
| `EnumOrder.Fixpoint` | `mux-compiler/src/codegen/classes.rs:154-169` | when nothing is ready any more, the listed enums are exactly those that reach no cycle |
| `EnumOrder.SelfEmbeddingIsNoCycle` | `mux-compiler/src/codegen/classes.rs:203-224` | an enum whose payloads name no enum but itself is not held back |
| `Walks.ListedAreAcyclic` | `mux-compiler/src/codegen/classes.rs:154-169` | nothing in a list with successors first reaches a cycle |
| `Walks.StuckReachesCycle` | `mux-compiler/src/codegen/classes.rs:170-175` | where every node has a successor among the stuck ones, each reaches a cycle |
| `EnumLayout.AcyclicPayloadsFit` | `mux-compiler/src/codegen/classes.rs:1020-1117` | every payload of an enum outside cycles that does not embed itself there fits its slot, and `slot_fits` says so |
| `EnumLayout.RecursivePayloadIsBoxed` | `mux-compiler/src/codegen/constructors.rs:191-204` | an enum not laid out before the one embedding it, itself included, never passes `slot_fits` |
| `EnumLayout.SettledPayloadFits` | `mux-compiler/src/codegen/constructors.rs:191-202` | otherwise a payload fits exactly if its position could be laid out, holds no nested enum, or the payload fits a pointer |
| `EnumLayout.NestedPayloadFits` | `mux-compiler/src/codegen/classes.rs:1073-1117` | with a nested enum at a position payloads fit if and only if all candidates can be laid out or the payload is no wider than a pointer |
| `EnumLayout.PlainPayloadFits` | `mux-compiler/src/codegen/classes.rs:1081-1094` | without one every payload fits |
| `EnumLayout.UniformSlotIsPayload` | `mux-compiler/src/codegen/classes.rs:1081-1092` | a position that is the same in every variant, without nested enum, gets the payload's own type, except that characters and bytes get a pointer |
| `EnumLayout.SlotsAreUsed` | `mux-compiler/src/codegen/classes.rs:1027-1048` | there is a slot exactly for the positions at which some variant has a payload |
| `EnumLayout.RuntimeEnumsArePointers` | `mux-compiler/src/codegen/classes.rs:1074-1080` | optionals and results are pointers, any other declared enum is a nested one |
| `EnumLayout.WordsFor` | `mux-compiler/src/codegen/classes.rs:1108-1117` | eight times the word count covers the widest candidate, and one word less would not |
| `EnumLayout.RoundUpIsLeast` | `mux-compiler/src/codegen/classes.rs:1108-1117` | rounding up to an alignment gives its least multiple that is no smaller |
| `EnumLayout.StrictestField` | `mux-compiler/src/codegen/classes.rs:870-893` | a struct is aligned as strictly as its strictest field |
| `EnumLayout.FieldsInTurn` | `mux-compiler/src/codegen/classes.rs:870-893` | each field of a struct comes after those before it, on its own alignment |
| `EnumLayout.WidestPayloadType` | `mux-compiler/src/codegen/classes.rs:1108-1117` | an array of that many words, exactly when every candidate has a shape and the count fits 32 bits |
| `EnumLayout.DetermineUnionFieldType` | `mux-compiler/src/codegen/classes.rs:1064-1095` | with a nested enum the widest payload decides, or a pointer if that cannot be laid out; without one the single type or a pointer |
| `EnumLayout.CodeGenerator.GenerateEnumType` | `mux-compiler/src/codegen/classes.rs:870-893` | the struct gets one slot per position, sized from all variants, and no other entry of the type map changes |
| `EnumLayout.CodeGenerator.GenerateUserEnums` | `mux-compiler/src/codegen/classes.rs:95-112` | all enums are laid out one after another in that order |
| `CoverageBlanking.BlankTests` | `mux-compiler/src/main.rs:946-957` | blanking keeps the byte length; inside test ranges every byte but `\n` and `\r` becomes a space, outside nothing changes |
| `CoverageBlanking.BlankTextBytes` | `mux-compiler/src/main.rs:948-954` | replacing characters by spaces of their UTF-8 length blanks byte by byte |
| `CoverageLines.BlankingKeepsLines` | `mux-compiler/src/main.rs:946-957` | every byte stays on its line |
| `CoverageLines.RenamingKeepsLines` | `mux-compiler/src/main.rs:975-1004` | so does renaming `main` |
| `CoverageLines.RenamesOnlyMain` | `mux-compiler/src/main.rs:989-998` | renaming replaces the name `main` and nothing else |
| `CoverageLines.AssembleTest` | `mux-compiler/src/main.rs:1017-1033` | the recorded lines are those of the body's first byte and one past that of its last |
| `CoverageLines.RunnerIsGood` | `mux-compiler/src/main.rs:1022-1029` | the declaration and names the runner inserts span no line break, as the three lemmas below ask |
| `CoverageLines.FrontMapsBack` | `mux-compiler/src/main.rs:1243-1266` | code outside tests is reported on its own line of the file; the declaration the runner adds, on the line after the last |
| `CoverageLines.BodyMapsBack` | `mux-compiler/src/main.rs:1258-1263` | code of the body is reported on the line it has in the tested file |
| `CoverageLines.TailMapsBack` | `mux-compiler/src/main.rs:1252-1257` | nothing behind the body is reported |
| `CoverageLines.OtherFilesStay` | `mux-compiler/src/main.rs:1243-1266` | what other files recorded keeps file and line; lines of the generated program are dropped exactly from the runner's lines on, and otherwise belong to the tested file |
| `CoverageTotals.MergeCoverage` | `mux-compiler/src/main.rs:1454-1482` | merging succeeds exactly if no record is malformed, no sum passes 2^64-1 and some site was declared; the maps then hold exactly the statements and branch outcomes that site lines or records name, each with the sum of the counts of the records of its kind whose location maps to it |
| `CoverageTotals.TotalIsRecordTotal` | `mux-compiler/src/main.rs:1351-1403` | the total of a counter is the sum of the counts of the records that name it, an outcome `1` counting for taken and `0` for not taken |
| `CoverageMerge.OrderDoesNotMatter` | `mux-compiler/src/main.rs:1466-1480` | success and maps are the same for any order of the tests |
| `CoverageMerge.TotalsCommute` | `mux-compiler/src/main.rs:1466-1480` | totals depend on the tests, not on their order |
| `CoverageMerge.Accumulators.MergeSites` | `mux-compiler/src/main.rs:1268-1330` | one test's sites are declared, or merging fails for good |
| `CoverageMerge.Accumulators.MergeRecords` | `mux-compiler/src/main.rs:1332-1406` | one test's hits are added with checked sums, or merging fails for good |
| `CoverageMerge.Accumulators.MergeHits` | `mux-compiler/src/main.rs:1352-1403` | a record is refused exactly if it is malformed or its counter would pass 64 bits |
| `Lcov.AppendLcovSource` | `mux-compiler/src/main.rs:1408-1452` | the loops write the record of a source that the lemmas below are about |
| `Lcov.SummariesAlwaysAgree` | `mux-compiler/src/main.rs:1419-1448` | LF, LH, BRF and BRH of a record count its DA and BRDA lines |
| `Lcov.SummariesArePresent` | `mux-compiler/src/main.rs:1414-1451` | each record names its source, has its LF and LH, its BRF and BRH exactly if there are branches, and an end |
| `Lcov.DataLinesAreStatements` | `mux-compiler/src/main.rs:1425-1429` | a DA line for exactly the statements of the source, with their counts |
| `Lcov.DataLinesAreBranches` | `mux-compiler/src/main.rs:1442-1447` | a BRDA line for exactly the outcomes of the branches of the source, with their counts |
| `CoverageReport.WriteRecords` | `mux-compiler/src/main.rs:1484-1490` | the report is one record for each source named by a statement or branch, each source once |
| `CoverageReport.ReadRecord` | `mux-compiler/src/main.rs:1408-1452` | reading a record back gives its statements and outcomes, under its source |
| `CoverageReport.ReportHoldsEveryCounterOnce` | `mux-compiler/src/main.rs:1484-1490` | reading the whole report gives every source once, every merged statement once and every outcome of every merged branch once, with their counts, and nothing else |
| `CoverageReport.ReportCoverage` | `mux-compiler/src/main.rs:1454-1490` | the whole of `merge_coverage`: a report comes out exactly on good records with a site, and what a reader finds in it are the sums over the records of all tests |
| `FixApply.ApplyInMemory` | `mux-compiler/src/diagnostic/fix.rs:176-246` | an edit is refused exactly if `Validate` refuses it, the first such edit being named; otherwise two edits of one file overlap, wherever they stand, or every file has all its edits applied, its text is UTF-8 again, and changed are exactly the files whose text differs |
| `FixApply.AcceptedExactly` | `mux-compiler/src/diagnostic/fix.rs:220-254` | accepted are exactly the edits that are machine-applicable, name a known file that is not embedded, lie inside its text between characters, and lay claim to no place of recovered source |
| `FixApply.OverlapsExactly` | `mux-compiler/src/diagnostic/fix.rs:290-301` | an overlap is found exactly if two edits of one file lay claim to one place: a byte both replace, or the place where one inserts |
| `FixApply.UpdatedIsSpliced` | `mux-compiler/src/diagnostic/fix.rs:202-207` | an updated file is the old text with each range, front to back, replaced by its replacement |
| `FixEdits.NeighboursDecide` | `mux-compiler/src/diagnostic/fix.rs:191-196` | looking at neighbours in sorted order finds an overlap exactly if any two edits overlap |
| `FixEdits.AnyOverlap` | `mux-compiler/src/diagnostic/fix.rs:192-196` | without an overlap of neighbours the sorted edits lie one after another |
| `FixApply.ReplaceAll` | `mux-compiler/src/diagnostic/fix.rs:202-207` | applying edits last to first keeps the original ranges valid and between characters, so that `replace_range` never panics |
| `FixApply.EditedIsText` | `mux-compiler/src/diagnostic/fix.rs:202-207` | edits between characters turn a UTF-8 text into a UTF-8 text, each replacing a range between characters of the text it finds |
| `FixEdits.SpanKept` | `mux-compiler/src/analysis.rs:234-258` | a span no edit reaches into is found again, with the same text, where the sum of growths says |
| `FixValidation.ErrorKeyOf` | `mux-compiler/src/analysis.rs:224-264` | the loop over the edits computes that sum, or finds a touching edit |
| `FixValidation.KeyFindsText` | `mux-compiler/src/analysis.rs:234-264` | for edits in any order, the text at the shifted span is the text at the old one |
| `FixValidation.KeyExactly` | `mux-compiler/src/analysis.rs:239-256` | an error has a key if and only if no edit of its file touches it |
| `FixValidation.FirstNewError` | `mux-compiler/src/analysis.rs:183-215` | none is found exactly if nothing is new; otherwise the first error that is |
| `FixValidation.NothingNewExactly` | `mux-compiler/src/analysis.rs:190-214` | nothing is new exactly if every remaining error has a key and no key is that of more errors than were there before |
| `FixValidation.PathlessKeyStays` | `mux-compiler/src/analysis.rs:224-263` | an error of no known file keeps its place whatever is edited |
| `FixValidation.AcceptedErrorsAreOld` | `mux-compiler/src/analysis.rs:148-181` | when nothing new is found every remaining error was there before, with the same file, code, message and text under it |
| `DllIndex.IndexDlls` | `scripts/ci/bundle-windows-dlls.py:23-31` | an index, or an error exactly for two DLLs with the same folded name |
| `DllIndex.DllSources` | `scripts/ci/bundle-windows-dlls.py:39-47` | the last directory wins, and all finds of a name have the same content; an error exactly otherwise |
| `DllClosure.Bundle` | `scripts/ci/bundle-windows-dlls.py:74-92` | an error exactly where names are duplicate or sources conflict, no binaries exactly where there are none; otherwise success exactly if no reachable binary has an import nobody can satisfy, and then the directory is closed under imports, for the first binary of each folded name |
| `DllClosure.Bundler.Run` | `scripts/ci/bundle-windows-dlls.py:84-92` | the worklist ends, on cyclic imports too, with each name inspected at most once |
| `DllClosure.Bundler.AddDependency` | `scripts/ci/bundle-windows-dlls.py:50-71` | an import is satisfied afterwards, or it cannot be |
| `DllClosure.SatisfiedExactly` | `scripts/ci/bundle-windows-dlls.py:50-71` | an import without directory part is satisfied exactly if its folded name begins with `api-ms-` or `ext-ms-`, is beside the binaries, or is Windows' own and in no search directory; it is bad exactly if none can come about |
| `DllClosure.ClosedAtEnd` | `scripts/ci/bundle-windows-dlls.py:84-92` | with the queue empty, what is present is exactly what is reachable and all its imports are satisfied |
| `DllClosure.ClosedMeansNoFailure` | `scripts/ci/bundle-windows-dlls.py:84-92` | so a closed directory leaves no unsatisfiable import to find |
| `DllShadowing.CompleteExactlyIfLed` | `scripts/ci/bundle-windows-dlls.py:80-92` | for any directory: success with whatever imports the inspector can report leaves no binary without its imports if and only if every binary has the content of one that is the first of its folded name |
| `DllShadowing.BundleLeavesOut` | `scripts/ci/bundle-windows-dlls.py:74-92` | where a binary has no such lead, `bundle` reports success although a DLL that this binary imports, with a well-formed name, is in no directory |
| `DllShadowing.InspectedExactlyIfFirst` | `scripts/ci/bundle-windows-dlls.py:84-89` | a binary of the directory is inspected exactly if it is the first of its folded name |
| `DllShadowing.DllNamesAreValid` | `scripts/ci/bundle-windows-dlls.py:20-21` | a name that the inspector's pattern lets through is never refused as having a directory part |

## Left out

- JSON, stdio, `Connection` and threads that stop or panic: messages are values, sending never fails, and the machine stops at `exit`; a failed `publish_all_diagnostics` is not part of this model.
- What analysis and request handlers compute: one function of the snapshot each, which always yields one message; client capabilities are fixed inside it.
- Runs with 2^64 or more edits, whose revision counter wraps: the theorems about whole runs exclude them.
- A reply computed from workspace folders that have changed since: the source compares documents only, and so does the model.
- Which URIs a batch lists first within its two groups: hash order, left open.
- LspServer.LanguageServer.WorkerAccess: one access at a time is specified, the endless loop around it is the machine's.
- Windows branches of the updater and launcher, symbolic links and permissions: paths are sequences of names, files are regular, names are compared exactly.
- Probing binaries, downloads and signals: each is a check that may fail at any point.
- Which targets and version strings are accepted: `validate_target` depends on the platform and version syntax is the `semver` crate's, so both are parameters.
- UpdateInstall.Union: the source goes through the files in sorted order, here the order is open; staging names only need distinct indices. `bundle_files` sorts likewise.
- `install_bundle` and the clean-up of old launchers: the first repeats `run` without the download, the second is for Windows.
- What an installer copies before it registers: the machine takes the receipts that get registered to be true of the files in place.
- An updater whose rollback fails: the machine with compilers assumes that every failed update rolled back; `UpdateInstall.Install` says what is kept when one did not.
- TextPositions.OffsetToPosition: lines and columns wrap at 2^32 as the casts do; theorems that read them as numbers ask for texts below 4 GiB.
- TextPositions.PositionToOffset: the source adds UTF-16 lengths in 32 bits, the model without a bound; they agree in texts below 4 GiB (`TextPositions.SumsFit`), longer lines are outside the model.
- Which style a token has: lexer kinds and semantic maps are a parameter of the token.
- EnumLayout.Size: the data layout is a parameter for alignments; scalars, pointers and structs have the sizes of a 64-bit target.
- EnumLayout.CodeGenerator.GenerateUserEnums: generic enums, whose instantiations the source stamps out on the way, are left out, because which ones there are is found while instructions are emitted.
- Class fields and all emitted instructions; variant names are taken to be distinct.
- EnumLayout.AcyclicPayloadsFit: payloads must have a type that can be laid out (`void` and `auto` cannot) and no more than 2^32-1 words.
- Parsing of annotations, spawning tests, timeouts, clean-up; where tests and `main` stand in a source comes from the parser as ranges.
- CoverageTotals.MergeCoverage: records arrive split into fields; a file that is missing, has no valid frame or a path that does not decode is one unreadable record, and which of several errors is reported first is left open.
- Order of the lines in an LCOV record and of the records in a report: the source sorts, here the order of the given entries is kept.
- FixValidation.KeyFindsText: files are identified by path, as `error_key` does.
- `apply_and_validate`: it applies edits and asks the analyser about the result; the two halves are `FixApply.ApplyInMemory` and `FixValidation.FirstNewError`.
- DllIndex.DllSources: equal digests are taken to mean equal content, and `casefold` is a parameter.
- Running the DLL inspector, which here never fails; the order of the initial queue is that of the directory.
- Tables and user interface: formatting, address-taken analysis, banner, linker arguments, module resolution.
