# Models of automonique's bounded cores, with proofs

This project models five parts of automonique in Dafny and proves what they are for:

- **The quota filesystem** (`spikes/tempfs-quota`): an in-memory tree of inodes whose growth is
  admitted against a ledger of bytes and objects.
- **Provider streams** (`rust/crates/automonique-agents`): a Codex byte stream cut into lines,
  normalized into a transcript, under a strict or a lenient policy; and the JCode frame decoder,
  per-turn adapter and turn collector.
- **Resumable AG-UI delivery** (`adapters/ag-ui`): progress frames become numbered native events, a
  cursor splits them into a replay and a live part, a translator expands each into several
  server-sent events, and `Last-Event-ID` (WHATWG HTML, section 9.2, Server-sent events) names one.
- **The parity oracle's release boundary** (`tools/oracle`): one record from the custody side becomes
  a verdict drawn from a closed vocabulary.
- **The session store's path codec** (`rust/crates/automonique-acp`).

`dafny verify dfyconfig.toml` checks everything.

## How the models are built

State that the source updates in place is a class (`Ledger`, `State`, `Normalizer`,
`ProviderEventStream`, `JcodeFrameDecoder`, `JcodeNativeAdapter`, `JcodeTurnCollector`, `Emitter`,
`NativeStreamTranslator`, `Writer`) whose methods are written as the source writes them and are proved equal, branch by branch,
to a step function on values. What is promised is then proved about runs of those step functions,
each time against something defined independently of them:

| part | judged against |
|---|---|
| ledger | usage replayed from the calls that were admitted, and the list of refusals made |
| filesystem | a flat relation of names and objects with no counters, parent pointers or flags; every count is a recount |
| file contents | a byte-by-byte definition: the last edit covering a position, else zero |
| provider stream | the lines of the whole byte sequence, read in order |
| transcript | a grammar over the finished list of events |
| JCode decoder, adapter, collector | the complete lines of the stream; counts over the calls made; sums and balances over the accepted events |
| AG-UI delivery | the uninterrupted delivery list; a reader that rebuilds the message and the open tool from the events |
| AG-UI translator | a law over the list of events: which may follow which, read off the events before it |
| oracle | the explicit set of verdicts a registry leaves room for, counted by combinatorics; the fewest bytes JSON can write each record in |
| path codec | the inverse function |

The parsers the code calls and does not define (UTF-8, JSON, the JCode frame grammar), the field
checks of the AG-UI translator, the approval lookup and the hash behind tool identifiers are arbitrary
function parameters. Statements hold whichever functions they are, with three exceptions that say what
they ask: which verdicts are attained asks the record reader to read JSON (`Attained.ReadsJson`),
resuming asks the number parser to read plain decimals (`Cursor.ReadsDecimals`), and the two stream
examples ask for lines the parsers read as given events (`StreamExamples.Scripted`). Resuming is proved
for every deterministic translator; the adapter's own is modelled in `StreamTranslator`.

## Where a promise does not hold as stated

- An operation that answers with an error leaves the tree alone, except a write of 2^32 bytes or more
  that fits: `filesystem.rs:269-290` stores it and then cannot express its length
  (`FsRuns.ErrorsChangeNothing` gives the exact condition, `FsRuns.AnErrorThatChangedTheTree` the
  input). The size of a FUSE write request is a 32-bit field, so no kernel can deliver such a write;
  only a direct caller can.
- Every name is reachable from the root unless a rename puts a directory at or beneath itself, which
  `filesystem.rs:572-629` does not check for and answers with success, where POSIX.1-2017 `rename()`
  asks for `EINVAL` (`Reachability.ServeKeepsRoot`, `Reachability.ADirectoryMovedIntoItself`). A Linux
  kernel refuses such a rename before it reaches the filesystem.
- `peak_objects` is the most the ledger ever held, which includes the object of a symbolic link whose
  target was then refused; it is not the most the tree ever held (`FsAudit.APeakNeverHeld`).
- `released_value_count` is never reached, whatever the reader and the limit
  (`Attained.ClaimedSizeIsNeverReached`). Under the field-relations policy at least two of the values it
  counts are never released, under outcomes alone at least one. It is missed by exactly that
  (`Attained.ClaimedSizeIsMissedBy`, for limits of 512 bytes or more) if and only if there are two fields
  or more, all masked under field relations and not all masked under outcomes alone, and the longest
  record needed fits the limit. `scan_rejected` is never released at all; `duplicate_field` and
  `field_not_requested` need two fields; `mask_not_registered` needs an unmasked one. From 59 fields on,
  the verdict that reports them all does not fit the 4096 bytes the source allows
  (`Attained.ARegistryTooWide`). The number released is exactly that of `ExactSize.ExactCount`, with 25
  ways to report or leave out each masked field and 21 each other, if and only if the longest record fits
  (`ExactSize.ReleasedExactly`). For the eight fields the repository declares it does, at 766 bytes, and
  there are 24 + 3 * 25^2 * 21^6 verdicts where 25 + 3 * 25^8 are claimed
  (`ExactSize.TheRepositorysAlphabet`).
- How decoding JCode frames ends, refused or with which decoder and events, depends on how the bytes are
  cut exactly when the stream is acceptable as a whole, holds a complete line, and its unfinished tail is
  longer than a frame (`JcodeDecoder.CutMattersExactly`). A refused stream may have handed over more or
  fewer events before its refusal under another cut; they are always a first part of the events of the
  lines before the first that is no frame (`JcodeDecoder.HandedIsReadable`).
- A run without a single progress frame can be streamed and cannot be resumed: every id it handed out is
  answered with `resync_required` (`ExactlyOnce.EveryIdResumes`, `Reader.ARunWithoutAFrame`).
- A reader cut off inside the last event of a run that threw is answered with 503 and never gets the
  rest of that event (`ExactlyOnce.EveryIdResumes`, `Reader.AReaderLeftBehind`).
- The id of the 66th or a later projection of one event is printed and then refused
  (`ExactlyOnce.EveryIdResumes`, `Reader.AProjectionTooFar`). The adapter's own translator gives no
  event that many.
- A run can end as finished and its delivery still end in an error. Apart from the translator's bound
  on events and its field checks, that happens exactly when, among the frames the run took in, a turn
  starts after something was said, a tool starts while another is held, a tool is still held at the
  end, or the last completion of some tool had no text (`FrameLaw.FramesThatFinish`;
  `TranslatorRuns.AToolWithoutAResult` is the last case).
- `finish_session` says that a non-zero exit becomes a failed disposition. The code keeps a disposition
  that was already reached (`StreamRuns.SessionEnding`, `StreamExamples.AFailedProcessThatSucceeded`).
- `normalize_jsonl` and the stream are said to accept the same events; the stream also refuses more than
  4096 of them (`WholeBuffer.StreamRefinesWholeBuffer`, `StreamExamples.ABufferTheStreamRefuses`).

## Model

| member | source | states |
|---|---|---|
| `Ledger.Ledger.ReserveBytes` | spikes/tempfs-quota/src/ledger.rs:220-240 | all or nothing: the counters move or exactly one refusal is counted and recorded, as the step function says |
| `Ledger.Ledger.ReserveObject` | spikes/tempfs-quota/src/ledger.rs:250-266 | the same for one object |
| `Ledger.Ledger.ReleaseBytes` | spikes/tempfs-quota/src/ledger.rs:245-247 | usage falls by the amount, saturating at zero; nothing else moves |
| `Ledger.Ledger.ReleaseObject` | spikes/tempfs-quota/src/ledger.rs:269-271 | object usage falls by one, saturating at zero; nothing else moves |
| `Ledger.Ledger.Record` | spikes/tempfs-quota/src/ledger.rs:273-277 | a refusal is kept verbatim while fewer than 64 are |
| `Ledger.CountersTrackUsage` | spikes/tempfs-quota/src/ledger.rs:220-271 | over any calls, the counters equal usage replayed from the admitted calls alone |
| `Ledger.PeaksAreMaxima` | spikes/tempfs-quota/src/ledger.rs:220-266 | each peak is attained at some point of the run and exceeded at none |
| `Ledger.RefusalsAreRecorded` | spikes/tempfs-quota/src/ledger.rs:220-277 | refusal counts equal the refusals made, and what is kept is exactly the first 64 of them in order with the usage at that moment |
| `Ledger.StatfsReadback` | spikes/tempfs-quota/src/ledger.rs:283-294 | read back through statfs the byte ceiling is exact, bytes used are rounded up to a block, objects used are exact, and nothing underflows |
| `FileBytes.ReplayMatchesReference` | spikes/tempfs-quota/src/filesystem.rs:246-290 | after any writes, truncations and preallocations every byte is the one the last edit covering it left, else zero, and the length is the reference length |
| `FileBytes.ReadReturnsReferenceBytes` | spikes/tempfs-quota/src/filesystem.rs:671-681 | a read at any offset and size returns the clamped slice of that reference |
| `FileBytes.ShrinkThenGrowReadsZeros` | spikes/tempfs-quota/src/filesystem.rs:246-266 | bytes cut off by a truncation read as zero after growing back |
| `FsRuns.ServeKeeps` | spikes/tempfs-quota/src/filesystem.rs:195-741 | every request keeps: no dangling entry, exactly one name per object or none and an open handle, recounted usage within both ceilings |
| `FsRuns.RunsAreWellFormed` | spikes/tempfs-quota/src/filesystem.rs:128-290 | so does every run from an empty tree |
| `FsRuns.ErrorsChangeNothing` | spikes/tempfs-quota/src/filesystem.rs:269-290 | an error leaves the tree unchanged if and only if it is not an oversized write that fits and changes bytes |
| `FsRuns.AnErrorThatChangedTheTree` | spikes/tempfs-quota/src/filesystem.rs:269-290 | the input on which an error changes the tree |
| `FsRuns.FilesHoldTheirEdits` | spikes/tempfs-quota/src/filesystem.rs:246-290 | in every run a file holds what its own accepted edits make of an empty file; no other request reaches it |
| `FsRuns.ReadsAreExact` | spikes/tempfs-quota/src/filesystem.rs:659-685 | a read at any point of any run answers with the byte-by-byte reference of that file's edits |
| `FsAudit.AuditCounts` | spikes/tempfs-quota/src/ledger.rs:220-271 | the ledger computed from recounts alone has usage equal to the recount and peaks that are the maxima over the run |
| `FsAudit.AuditRefusals` | spikes/tempfs-quota/src/ledger.rs:220-277 | its refusals are exactly the requests a recount of the grown tree puts over a ceiling, first 64 kept |
| `FsAudit.APeakNeverHeld` | spikes/tempfs-quota/src/filesystem.rs:204-214 | the object peak can exceed anything the tree held |
| `Reachability.ServeKeepsRoot` | spikes/tempfs-quota/src/filesystem.rs:572-629 | from a tree reachable from the root, a request leaves one if and only if it is not a rename that passes its checks and moves a directory at or beneath itself |
| `Reachability.RenameGuard` | spikes/tempfs-quota/src/filesystem.rs:572-629 | a rename succeeds if and only if neither exchange nor whiteout is asked for, the new name is legal, the source exists, the new parent is a directory and the target may be replaced |
| `Reachability.RunsAreRooted` | spikes/tempfs-quota/src/filesystem.rs:195-629 | in every run without such a rename every named object is reachable from the root |
| `Reachability.ADirectoryMovedIntoItself` | spikes/tempfs-quota/src/filesystem.rs:572-629 | the input that is answered with success and cuts a directory off |
| `InodeRefinement.StepAgrees` | spikes/tempfs-quota/src/filesystem.rs:369-904 | serving any request from the inodes gives the reference's answer and tree, parent pointers and unlinked flags consistent with the names, and the ledger the recounts give |
| `InodeRefinement.RenameAgrees` | spikes/tempfs-quota/src/filesystem.rs:572-629 | the rename that displaces a target, moves an entry and reparents is the reference's relabelling, including its error order |
| `InodeRefinement.RemoveAgrees` | spikes/tempfs-quota/src/filesystem.rs:499-541 | unlink and rmdir agree with removing one name and keeping an object held open |
| `InodeRefinement.MakeAgrees` | spikes/tempfs-quota/src/filesystem.rs:195-226 | creating an object agrees, including the rollback of its reservation when a target does not fit |
| `InodeRefinement.ReleaseAgrees` | spikes/tempfs-quota/src/filesystem.rs:719-741 | the last close of an unlinked file frees it and its bytes, and no other close frees anything |
| `InodeRefinement.WriteAgrees` | spikes/tempfs-quota/src/filesystem.rs:269-290 | a write is refused exactly when the recounted growth exceeds the ceiling |
| `InodeRefinement.RunsAgree` | spikes/tempfs-quota/src/filesystem.rs:128-904 | in every run: same answers, same tree, and a ledger equal to the audit, so releases never saturate |
| `Filesystem.State.constructor` | spikes/tempfs-quota/src/filesystem.rs:128-145 | a root directory, nothing charged |
| `Filesystem.State.CreateObject` | spikes/tempfs-quota/src/filesystem.rs:195-226 | reserves, rolls back, inserts and links as the step says |
| `Filesystem.State.DropNode` | spikes/tempfs-quota/src/filesystem.rs:230-235 | removes a node and gives back its bytes and its object |
| `Filesystem.State.Mknod` | spikes/tempfs-quota/src/filesystem.rs:433-468 | new state and answer of the step, regular files only |
| `Filesystem.State.Mkdir` | spikes/tempfs-quota/src/filesystem.rs:470-497 | new state and answer of the step |
| `Filesystem.State.Symlink` | spikes/tempfs-quota/src/filesystem.rs:543-569 | new state and answer of the step, target bytes charged |
| `Filesystem.State.Create` | spikes/tempfs-quota/src/filesystem.rs:834-869 | new state and answer of the step, one handle open |
| `Filesystem.State.Unlink` | spikes/tempfs-quota/src/filesystem.rs:499-524 | new state and answer of the step, held files kept |
| `Filesystem.State.Rmdir` | spikes/tempfs-quota/src/filesystem.rs:526-541 | new state and answer of the step, empty directories only |
| `Filesystem.State.Rename` | spikes/tempfs-quota/src/filesystem.rs:572-629 | new state and answer of the step |
| `Filesystem.State.Open` | spikes/tempfs-quota/src/filesystem.rs:644-656 | one more handle |
| `Filesystem.State.Release` | spikes/tempfs-quota/src/filesystem.rs:719-741 | one handle fewer, and the node dropped with the last when unlinked |
| `Filesystem.State.Resize` | spikes/tempfs-quota/src/filesystem.rs:246-266 | reserve before growing, release after shrinking |
| `Filesystem.State.Write` | spikes/tempfs-quota/src/filesystem.rs:269-290 | new state and answer of the step, length overflow and oversized counts included |
| `Filesystem.State.SetAttr` | spikes/tempfs-quota/src/filesystem.rs:369-418 | the size part of setattr |
| `Filesystem.State.Fallocate` | spikes/tempfs-quota/src/filesystem.rs:872-904 | growth only, mode zero only |
| `Filesystem.State.Read` | spikes/tempfs-quota/src/filesystem.rs:659-685 | the clamped slice, state untouched |
| `Filesystem.ServeAll` | spikes/tempfs-quota/src/filesystem.rs:369-904 | the object driven through any requests ends sound for the reference tree, with its answers and the audited ledger |
| `Normalize.Normalizer.PushLine` | rust/crates/automonique-agents/src/normalize.rs:51-68 | one line moves the turn as the step says, and a refused line leaves it as it was |
| `Normalize.Normalizer.ThreadStarted` | rust/crates/automonique-agents/src/normalize.rs:102-120 | session binding, started or resumed |
| `Normalize.Normalizer.StartTurn` | rust/crates/automonique-agents/src/normalize.rs:122-129 | at most one turn start |
| `Normalize.Normalizer.ItemStarted` | rust/crates/automonique-agents/src/normalize.rs:131-153 | one active item, tool starts recorded |
| `Normalize.Normalizer.ItemUpdated` | rust/crates/automonique-agents/src/normalize.rs:155-179 | updates only to the active item |
| `Normalize.Normalizer.ItemCompleted` | rust/crates/automonique-agents/src/normalize.rs:181-225 | completion closes the item it names |
| `Normalize.Normalizer.Notice` | rust/crates/automonique-agents/src/normalize.rs:232-244 | a provider notice at any time of the turn |
| `Normalize.Normalizer.CompleteTurn` | rust/crates/automonique-agents/src/normalize.rs:246-299 | usage then completion, only with nothing active and a message seen |
| `Normalize.Normalizer.FailTurn` | rust/crates/automonique-agents/src/normalize.rs:301-315 | fault then completion |
| `Grammar.PushKeeps` | rust/crates/automonique-agents/src/normalize.rs:51-68 | every accepted line keeps the invariant behind the grammar |
| `Grammar.PushExtends` | rust/crates/automonique-agents/src/normalize.rs:51-68 | events are only appended, and the turn is over exactly after a terminal line |
| `Grammar.FinishIsGrammatical` | rust/crates/automonique-agents/src/normalize.rs:79-100 | both ways of finishing give a grammatical transcript, and exactly when they succeed |
| `Grammar.EveryTranscriptIsGrammatical` | rust/crates/automonique-agents/src/normalize.rs:79-345 | over any lines: sequences 1..n under one session, session event first and once, turn completion once and last after usage or fault, usage exactly on success, tools alternating and closed on success, a message before success |
| `ProviderStream.ProviderEventStream.PushBytes` | rust/crates/automonique-agents/src/stream.rs:140-152 | feeds a chunk, counts the new events, remembers the first refusal |
| `ProviderStream.ProviderEventStream.ConsumeChunk` | rust/crates/automonique-agents/src/stream.rs:237-269 | the loop over newlines equals the recursive consumption, held bytes included |
| `ProviderStream.ProviderEventStream.AcceptNext` | rust/crates/automonique-agents/src/stream.rs:271-286 | bounds, blank, UTF-8, push, event ceiling, in that order |
| `StreamRuns.ChunkingIsIrrelevant` | rust/crates/automonique-agents/src/stream.rs:237-269 | after any chunks the stream is what reading the lines of the concatenation makes it |
| `StreamRuns.AnyTwoChunkings` | rust/crates/automonique-agents/src/stream.rs:140-152 | two ways of cutting the same bytes give the same events, refusal and warning count |
| `StreamRuns.RefusalIsLasting` | rust/crates/automonique-agents/src/stream.rs:140-152 | a refused stream takes nothing more |
| `StreamRuns.StreamTranscriptsAreGrammatical` | rust/crates/automonique-agents/src/stream.rs:182-235 | every transcript of a stream is grammatical, under either policy and ending |
| `StreamRuns.SessionEnding` | rust/crates/automonique-agents/src/stream.rs:209-235 | when a session ends with a transcript, with which disposition, and how many warnings |
| `Lenient.LenientIsStrictOnParsed` | rust/crates/automonique-agents/src/stream.rs:246-286 | a lenient reading succeeds if and only if the strict reading without the junk lines does, lines are short and no unparsed line follows the end; same events, and warnings count the lines removed |
| `Lenient.LenientStreamIsStrictOnFiltered` | rust/crates/automonique-agents/src/stream.rs:246-286 | the same for streams of bytes in any chunks |
| `WholeBuffer.NormalizeJsonl` | rust/crates/automonique-agents/src/codex.rs:192-227 | the whole-buffer loop computes the whole-buffer reading |
| `WholeBuffer.StreamRefinesWholeBuffer` | rust/crates/automonique-agents/src/stream.rs:182-202 | a strict stream finishes with a transcript if and only if the whole-buffer parser returns it and it has at most 4096 events |
| `StreamExamples.ABufferTheStreamRefuses` | rust/crates/automonique-agents/src/codex.rs:192-227 | for all parsers and any lines they read as the events given: a session start, a turn start, 4096 notices and a failure normalize as a buffer, and no stream of the same bytes finishes, however it is cut |
| `StreamExamples.AFailedProcessThatSucceeded` | rust/crates/automonique-agents/src/stream.rs:209-235 | for all parsers and any lines they read as the events given, however cut: a session that completes its turn keeps its success when its process fails |
| `JcodeDecoder.JcodeFrameDecoder.PushBytes` | rust/crates/automonique-agents/src/jcode.rs:802-830 | bounds, then frames drained in order |
| `JcodeDecoder.DecodingIgnoresChunks` | rust/crates/automonique-agents/src/jcode.rs:802-843 | with a tail within a frame, chunks are accepted if and only if the stream is acceptable as a whole, and give its lines' events in order |
| `JcodeDecoder.AcceptedIsAcceptable` | rust/crates/automonique-agents/src/jcode.rs:802-830 | whatever the tail, accepted chunks were acceptable as a whole and gave its events |
| `JcodeDecoder.LongTailDependsOnChunks` | rust/crates/automonique-agents/src/jcode.rs:802-830 | with a longer tail two cuts of the same bytes differ |
| `JcodeDecoder.NoNewlineIsRefused` | rust/crates/automonique-agents/src/jcode.rs:802-830 | more than a frame without a newline is refused however it is cut |
| `JcodeDecoder.CutMattersExactly` | rust/crates/automonique-agents/src/jcode.rs:802-843 | every way of cutting a stream into chunks ends the same if and only if it is not acceptable as a whole with a complete line and a tail longer than a frame |
| `JcodeDecoder.HandedIsReadable` | rust/crates/automonique-agents/src/jcode.rs:802-843 | however the bytes are cut, the events handed over before a refusal are a first part of the events of the lines before the first that is no frame |
| `JcodeDecoder.HandedAgree` | rust/crates/automonique-agents/src/jcode.rs:802-843 | of two cuts of the same bytes one hands over a first part of what the other does |
| `JcodeAdapter.JcodeNativeAdapter.ObserveDecoded` | rust/crates/automonique-agents/src/jcode.rs:685-756 | handshake, session binding, acceptance and terminal as the step says, also when refused |
| `JcodeAdapter.JcodeNativeAdapter.Push` | rust/crates/automonique-agents/src/jcode.rs:624-631 | decodes a chunk and observes its events until one is refused |
| `JcodeAdapter.JcodeNativeAdapter.SettleEof` | rust/crates/automonique-agents/src/jcode.rs:645-669 | settles once, never as completed |
| `JcodeAdapter.JcodeNativeAdapter.MarkCancellationRequested` | rust/crates/automonique-agents/src/jcode.rs:672-678 | one mark, before the end |
| `JcodeAdapter.ErrorFreeRunsAreOrderly` | rust/crates/automonique-agents/src/jcode.rs:645-776 | contiguous sequences from 1; at most one terminal envelope and it last; completion exactly on a turn's end after one acceptance and no mark, cancellation exactly with a mark; end of input never completes |
| `JcodeAdapter.SessionsNeverChange` | rust/crates/automonique-agents/src/jcode.rs:685-756 | a bound session never changes, whatever calls succeed or fail |
| `JcodeAdapter.EnvelopesCarryTheSession` | rust/crates/automonique-agents/src/jcode.rs:758-775 | every envelope that names a session names the bound one |
| `JcodeAdapter.EndedStaysEnded` | rust/crates/automonique-agents/src/jcode.rs:645-756 | after the terminal nothing is enveloped and nothing changes |
| `JcodeCollector.JcodeTurnCollector.ObserveEvent` | rust/crates/automonique-agents/src/jcode.rs:908-987 | moves as the step says, and a rejected event leaves the collector unchanged |
| `JcodeCollector.JcodeTurnCollector.PermissionResolved` | rust/crates/automonique-agents/src/jcode.rs:989-995 | resolves a pending permission or changes nothing |
| `JcodeCollector.JcodeTurnCollector.InputResolved` | rust/crates/automonique-agents/src/jcode.rs:997-1003 | resolves a pending input or changes nothing |
| `JcodeCollector.CollectorsAreFaithful` | rust/crates/automonique-agents/src/jcode.rs:908-1003 | at any time: open tools, permissions and inputs are exactly those started and not ended, text is the concatenation of accepted deltas within its bound, usage is the last report |
| `JcodeCollector.FinishedTurnsAreBalanced` | rust/crates/automonique-agents/src/jcode.rs:1005-1016 | a finished turn has every tool, permission and input balanced per id and nothing of its session after its end |
| `JcodeCollector.ToolsAlternate` | rust/crates/automonique-agents/src/jcode.rs:908-987 | per id, at every point, starts lead completions by at most one |
| `Cursor.CursorRoundTrip` | adapters/ag-ui/src/platform-authority.ts:568-582 | a printed native cursor is read back as its sequence and frame |
| `Cursor.CursorsAreDistinct` | adapters/ag-ui/src/platform-authority.ts:573 | two places of a run never print the same cursor |
| `Cursor.AdmitsFormatted` | adapters/ag-ui/src/runtime.ts:323-354 | a printed Last-Event-ID is admitted as what it was printed from when that is within the bounds, and refused otherwise |
| `Cursor.AdmittedIsFormatted` | adapters/ag-ui/src/runtime.ts:327-354 | everything admitted is spelled the one way this side prints it |
| `PercentCoding.DecodeRoundTrip` | adapters/ag-ui/src/runtime.ts:323-325 | percent-decoding a percent-encoded cursor returns it, for all of Unicode |
| `Generator.Emitter.Emit` | adapters/ag-ui/src/platform-authority.ts:320 | an event joins the replay or the live part by its sequence, and the hand-over is as of the first live one |
| `Generator.Make` | adapters/ag-ui/src/platform-authority.ts:515-516 | a frame's events are numbered on from the announcement, or the whole frame is refused |
| `Generator.ProjectionsAreModest` | adapters/ag-ui/src/platform-authority.ts:508-562 | a frame gives at most four events of its own and only a turn's start announces the run |
| `Generator.Generate` | adapters/ag-ui/src/platform-authority.ts:260-343 | the generator hands over, yields and throws exactly as the fold over the frames says |
| `GeneratorRuns.RunsAreOrderly` | adapters/ag-ui/src/platform-authority.ts:273-341 | over a whole run native sequences strictly increase, each cursor prints its own sequence, ordinals are 1 to 5, or 7 for the terminal alone, the run is announced first, and it is ended once, last, exactly when nothing was thrown |
| `GeneratorRuns.HandOverIsComplete` | adapters/ag-ui/src/platform-authority.ts:391-404 | when the stream is handed over the replay is exactly the events at or below the cursor and the live part exactly the rest |
| `GeneratorContents.PreviewsRebuildTheMessage` | adapters/ag-ui/src/platform-authority.ts:520-526 | a reader that replaces and appends previews as told holds the server's message |
| `GeneratorContents.EventsAreAboutTheOpenTool` | adapters/ag-ui/src/platform-authority.ts:527-557 | arguments, ends and results name the tool open at that point, and an approval follows its snapshots and its tool's end |
| `GeneratorContents.RunsEndAsTheyWent` | adapters/ag-ui/src/platform-authority.ts:328-340 | the terminal event is finished, refused by policy or failed exactly as faults seen and the receipt say |
| `Pump.Writer.Put` | adapters/ag-ui/src/runtime.ts:194-201 | one delivery is written, is too long, or is lost; size, count, last id and terminal flag follow |
| `Pump.Serve` | adapters/ag-ui/src/runtime.ts:163-253 | a connection sends exactly the longest first part of what it intends that its limits allow, and closes as the source does |
| `Resume.Handle` | adapters/ag-ui/src/runtime.ts:104-161 | a request is answered with the stream its header names, or with none |
| `Resume.IdsComeBack` | adapters/ag-ui/src/runtime.ts:327-354 | every id delivered is admitted as the place it was sent from when its projection index is at most 64, and refused otherwise |
| `Resume.RestIsTailAndAfter` | adapters/ag-ui/src/runtime.ts:185-217 | the rest of the named event's projections and the live events are exactly the rest of the full delivery |
| `ExactlyOnce.EveryIdResumes` | adapters/ag-ui/src/runtime.ts:181-217 | for every run and every deterministic translator, reconnecting with any delivered id is refused when its index is over 64, else answered with a resync when there are no frames, else with 503 when the run threw right after the named event with projections outstanding, else with exactly the deliveries after it |
| `ExactlyOnce.IdsAreUnique` | adapters/ag-ui/src/runtime.ts:323-325 | no id is used twice in a run, whatever the translator |
| `ExactlyOnce.NothingIsLostOrRepeated` | adapters/ag-ui/src/runtime.ts:181-217 | over any number of cuts the reader holds a first part of the full delivery, each event once and in order; and it always gets as much as its cuts leave room for if and only if it can go on from every place before the end |
| `Sessions.WholeExactly` | adapters/ag-ui/src/runtime.ts:104-161 | for any way of answering that only ever sends the rest, sessions are whole under all cuts if and only if every place before the end is answered |
| `Reader.Read` | adapters/ag-ui/src/runtime.ts:104-253 | connecting over one wire after another with the last id received gives a first part of the full delivery, as long as the wires and the answers allow |
| `Reader.HeldGrows` | adapters/ag-ui/src/runtime.ts:181-217 | a further connection never loses anything, and gains whenever the reader can go on and the wire admits its next delivery |
| `Reader.HeldToTheEnd` | adapters/ag-ui/src/runtime.ts:181-217 | a wire that admits all that is left brings a reader that can go on to the end |
| `Reader.TheAdapterLosesNothing` | adapters/ag-ui/src/runtime.ts:181-217 | with the adapter's translator, a run that has frames and does not throw is always received whole |
| `Reader.ARunWithoutAFrame` | adapters/ag-ui/src/platform-authority.ts:391-404 | the run that is streamed and whose ids are answered with a resync |
| `Reader.AReaderLeftBehind` | adapters/ag-ui/src/runtime.ts:181-217 | the run and the id that is answered with 503 while deliveries are outstanding |
| `Reader.AProjectionTooFar` | adapters/ag-ui/src/runtime.ts:327-354 | a translator and the id it delivers that is refused |
| `StreamTranslator.NativeStreamTranslator.Push` | adapters/ag-ui/src/translator.ts:173-246 | an event is let through or refused as the guard says, and is translated when let through |
| `StreamTranslator.GuardEnforcesTheLaw` | adapters/ag-ui/src/translator.ts:173-246 | a stream is let through if and only if it starts with one run start, increases, stays within 4096 events, ends at a terminal, and each tool event, approval and ending is allowed by the events before it |
| `TranslatorRuns.RunsLetThrough` | adapters/ag-ui/src/translator.ts:173-246 | a run that ends is let through if and only if its events are valid and within the bound, announced once, and every tool it ends gets its result |
| `TranslatorRuns.DeliveriesThatFinish` | adapters/ag-ui/src/translator.ts:248-251 | an uninterrupted delivery closes without an error exactly for those runs, among the ones that did not throw |
| `FrameLaw.RunsInOrder` | adapters/ag-ui/src/platform-authority.ts:508-562 | a run's events are disciplined if and only if the frames it took in start a turn only before anything was said, start no tool while one is held, and at the end hold no tool and have none silenced, but the one an approval asks about |
| `FrameLaw.FramesThatFinish` | adapters/ag-ui/src/translator.ts:173-251 | an uninterrupted delivery closes without an error if and only if the run did not throw, its events are valid and within the bound, and its frames were so in order |
| `TranslatorRuns.AToolWithoutAResult` | adapters/ag-ui/src/platform-authority.ts:527-557 | the run that finishes and whose delivery ends in an error |
| `Vocabulary.CountReleasedValues` | tools/oracle/vocabulary.py:257-272 | the accumulation equals 28 + 3 (25^fields - 1), or 31 for outcomes alone |
| `Release.ReadDocument` | tools/oracle/release.py:117-188 | the loop with its early refusals computes the verdict of the record |
| `Release.ClaimIsPermitted` | tools/oracle/release.py:150-174 | a claim stands if and only if it would alone and its field is not claimed yet, and what it releases is registered, requested and masked only where allowed |
| `Release.ClaimsAreIndependent` | tools/oracle/release.py:148-174 | a list of claims is accepted if and only if each is good alone and no field repeats |
| `VerdictOrder.VerdictsIgnoreOrder` | tools/oracle/release.py:186-188 | every permutation of an accepted record's differences is accepted with the identical verdict |
| `VerdictOrder.AcceptedVerdicts` | tools/oracle/release.py:176-188 | an accepted verdict's fields are permitted and in strictly increasing registry order, and present exactly when the outcome demands differences |
| `Capacity.ListsAreSorted` | tools/oracle/release.py:186-188 | the enumerated difference lists are exactly the sorted permitted ones |
| `Capacity.ListsSize` | tools/oracle/vocabulary.py:267-268 | there are as many as the product of one plus the options of each field |
| `Accepting.EveryAcceptedIsReleased` | tools/oracle/release.py:117-188 | every accepted verdict of the list has a record released as it |
| `Accepting.AcceptedSizeIsABound` | tools/oracle/vocabulary.py:257-272 | the accepted verdicts number at most what is claimed for them, and exactly that when every field is masked and requested, or, with outcomes alone, when some field can be reported |
| `Refusing.RefusalsExactly` | tools/oracle/release.py:117-188 | some record is refused for a reason if and only if the registry and the request leave it a use |
| `Refusing.EachRefusalHappens` | tools/oracle/release.py:117-188 | the record behind each such refusal, and that all but one are within 512 bytes |
| `Alphabet.NothingElseIsReleased` | tools/oracle/channel.py:125-196 | whatever the custody side does and whatever bytes arrive, the verdict is in the alphabet, and the final scan never rejects it |
| `RecordSize.RecordIsSpelled` | tools/oracle/release.py:117-188 | a record that is not refused is, value for value, the record for the outcome and the differences it claims |
| `RecordSize.AcceptedRecordSize` | tools/oracle/release.py:117-188 | every record released as a verdict with differences takes as many bytes as the verdict's own record |
| `RecordSize.FullestIs` | tools/oracle/vocabulary.py:257-272 | no list of differences takes more bytes than the one that reports every field at its longest |
| `Attained.DetailedExactly` | tools/oracle/release.py:76-114 | a verdict with its differences ends some comparison if and only if its own record fits the limit |
| `Attained.CrowdExactly` | tools/oracle/release.py:145-146 | too_many_differences ends some comparison if and only if 78 bytes and two for each field fit the limit |
| `Attained.EverythingIsReleased` | tools/oracle/channel.py:125-196 | for every reader of JSON and every limit of 512 bytes or more, every verdict of the alphabet ends some comparison if and only if the longest record needed fits |
| `Attained.ReleasedAreAll` | tools/oracle/channel.py:125-196 | the verdicts counted are all that any comparison ends with |
| `Attained.ARegistryTooWide` | tools/oracle/release.py:96-97 | with 59 fields or more the verdict that reports them all at their longest is never released within 4096 bytes |
| `Alphabet.ListedAgainstClaim` | tools/oracle/vocabulary.py:257-272 | the alphabet is at least two smaller than the claimed count, or one with outcomes alone, and by exactly that if and only if there are two fields or more and all are masked, respectively not all |
| `Attained.ClaimedSizeIsNeverReached` | tools/oracle/vocabulary.py:257-272 | whatever the reader and the limit, the verdicts that are released stay that far below the claimed count |
| `Attained.ClaimedSizeIsMissedBy` | tools/oracle/vocabulary.py:257-272 | for every reader of JSON and every limit of 512 bytes or more they come that near if and only if there are two fields or more, all masked, respectively not all, and the longest record needed fits |
| `ExactSize.ReleasedExactly` | tools/oracle/vocabulary.py:257-272 | for every registry the verdicts released number at most the exact count, and exactly that, for every reader of JSON and every limit of 512 bytes or more, if and only if the longest record needed fits |
| `ExactSize.LongestInLetters` | tools/oracle/release.py:117-188 | the longest record needed takes 92 bytes, one and 68 and its identifier for each field, and four more for each masked one |
| `ExactSize.TheRepositorysAlphabet` | tools/oracle/fields.json:1-53 | for the registry the repository declares: its longest record takes 766 bytes, and under the limit of 4096 exactly 24 + 3 * 25^2 * 21^6 verdicts are released, or 30 with outcomes alone |
| `PathCodec.EncodePaths` | rust/crates/automonique-acp/src/session_store.rs:307-317 | the printing loop computes the encoding, or refuses a path of 2^32 bytes or more |
| `PathCodec.DecodePaths` | rust/crates/automonique-acp/src/session_store.rs:319-339 | the parsing loop computes the decoding, with every refusal |
| `PathCodec.DecodeInvertsEncode` | rust/crates/automonique-acp/src/session_store.rs:307-354 | decoding an encoding returns the list if and only if every path is non-empty and free of NUL |
| `PathCodec.EncodeInvertsDecode` | rust/crates/automonique-acp/src/session_store.rs:319-354 | re-encoding anything the decoder accepts reproduces its bytes |
| `PathCodec.OneSpelling` | rust/crates/automonique-acp/src/session_store.rs:319-354 | a list has one accepted spelling |

## Left out

- FUSE replies, permissions, timestamps, `readdir` paging, `lookup`, `getattr`, `readlink`, hard-link refusal and the mutex around the state; a request is one atomic step.
- Memory exhaustion while a file grows, 32-bit hosts, and wrap-around of inode numbers and handle counts, which the model leaves unbounded.
- `spikes/tempfs-quota/src/mount.rs` and the parsing of mount information.
- The internals of UTF-8, JSON and JCode frame parsing, and the encoding of JCode requests.
- Codex invocation plans and executable inspection, and the argument checks of the JCode adapter's constructors.
- Hash-derived identifiers: nothing is claimed about their collisions.
- The field checks of the AG-UI translator, the mixing of two runs or threads in one stream, and timestamps; the checks are an arbitrary predicate here.
- Submitting runs, polling receipts, resolving approvals and cancelling; the receipt polled for is a parameter.
- Filesystem.State.SetAttr: models the size change of setattr and not its mode, owner or times, which touch neither names nor bytes.
- Generator.Generate: event timestamps are not modelled; the announcement and the terminal of a run may carry the time of the connection that sent them.
- Pump.Serve: an abort signal, a slow consumer and a broken pipe are one thing, the number of writes that get through.
- Resume.Handle: the second subscription made when the daemon no longer retains a run's first frame is not modelled; the frames given are those of the run from its first.
- ExactlyOnce.NothingIsLostOrRepeated: asks for frames numbered as the daemon numbers them and a run name of at most 478 bytes without control characters; the adapter's own are within these.
- ExactlyOnce.EveryIdResumes: the lookups the projection makes are taken to answer a reconnection as they answered before.
- Attained.EverythingIsReleased: asks for a limit of at least 512 bytes and field identifiers as the registry parser admits them; which refusals a smaller limit still lets through is stated only for the two verdicts above.
- Attained.ClaimedSizeIsMissedBy: asks for the same.
- ExactSize.ReleasedExactly: asks for the same in its second half.
- Alphabet.NothingElseIsReleased: the final scan compares values; that a released string is the same object as a constant of this side has no counterpart in a model of values.
- Reachability.RunsAreRooted: states reachability for runs without a rename beneath itself; a later rename that brings a cut-off directory back is not followed.
