# Project memory hub: verification of its stateful cores

Project memory hub reads the session logs that coding agents write, captures what their completed
turns declare, and keeps it per project. This project models, in Dafny 4.11, the parts of it where
a mistake would lose, invent or misattribute something, and proves what they promise.

Check it with `dafny verify dfyconfig.toml`.

## What is modelled

**The resumable log reader and its transaction.** A JSONL file grows; the reader takes it in bounded
slices and carries a lifecycle state (session, metadata id, open turn contexts, and whether it is
inside an oversized line it discards). `Lifecycle` gives the meaning of a whole file as one pass over
its complete lines. `Chunks` and `CodexReader` are the slice parser, as functions and as the
imperative code that updates the contexts dictionary and the warning counter in place. `Checkpoints`
is what is saved and what is accepted back, `LiveRuns` a sequence of reads that goes through saved
checkpoints, `EvictionWitness` one log on
which those checkpoints matter, `Ingestion` the transaction with its compare-and-swap checkpoint, any number of
ingesters, appends and failures, and `Replay` the re-reading of a checkpointed prefix. `Provenance`
traces every record back to the lines that vouch for it, and `RuntimeModel` is the resolver that
answers which model a thread runs. Four modules say what these operations come to without naming
them: `LineMeaning` what a line says, by the fields of its JSON object; `Production` when a record is
produced and what is warned about, by the events of the log alone; `CheckpointGuards` when a
checkpoint is resumed, by its own fields; `IngestionVerdicts` what a transaction and a whole history
of them record, by the verdict on each record.

**The capture block** inside a final message: `CaptureMarkers` (code fences and marker pairs),
`CaptureBlock` (labels), `CitationSuffix` and `Words`. The reader takes the label parser as a
parameter; these modules are that parser. `CaptureMeaning` is the grammar they accept: where a block
stands in a message, how each line of it reads, and which labels that makes.

**The snapshot worktree**: reservation, publication and rollback while other processes rename public
entries and move the branch ref. `SnapshotLog` is one ordered log of everything that happens to the
files, with what each transition of the run's own may be, what has to follow a foreign entry that was
moved aside, and the scope that a run may reach; `SnapshotRollback` is the program, whose
files are always those the log leads to; `SnapshotSweep` is one run of it.

**The asset publication** (`AssetPublication`): a nested tree is replaced all at once or restored. The
trace of its contents starts with the files found, ends with those there now, and goes one file at a
time. `Steps` is the script of coming failures that it and the importer count their steps on.

**The ChatGPT importer**: `ProjectMatcher`, `ConversationBranch` and `ConversationImport`.

**The managed block of AGENTS.md** (`ManagedBlock`), **the PNG chunk walk** (`PngWalk`) and **the
line-framed JSON-RPC broker** (`Broker`).

## Assumptions

- A log file is an append-only byte string that stays as it is while one read looks at it. Equality of
  prefix hashes is equality of prefixes.
- JSON decoding, the redactor, identifier and path checks, timestamps, UTF-8 sizes, UUIDs, CRCs, image
  decoding and regular-expression evidence are total deterministic functions, passed in as fields of
  a record; what is assumed of them is that record's `Valid`.
- A database transaction is atomic and compares the checkpoint it expects.
- `sorted()` lists every element once in key order.
- Failures are explicit: a schedule says which primitive fails, and what other processes do before it.

## Properties that do not hold as one would expect

- The reader's own checkpoint is accepted back exactly when the context limit is at least 2, the size
  of an empty JSON object; the configuration check only asks for more than 0
  (`Checkpoints.OwnCheckpointAcceptedIff`, `Checkpoints.TinyContextLimitRestarts`).
- A checkpoint stores contexts in key order, but eviction drops the oldest insertion. So reading a log
  in two resumed reads can produce a record that one pass in memory, as replaying makes it, does not
  (`EvictionWitness.EvictionDependsOnSaving` has a log of six lines). One eviction leaves similar
  states exactly when both orders drop the same turn or the new turn fits in neither
  (`DictOrder.EvictionOrderMatters`). Equality across saved checkpoints is proved where nothing is
  evicted; splitting within one process needs no such condition.
- Pruning after a failed publication passes over a directory whose parent cannot be opened, and the
  verification that follows does not look for empty directories while the marker is present. An empty
  directory can therefore stay (`AssetPublication.PruneLeavesEmptyDirectory`). After a successful
  pruning a directory is left exactly when it is occupied or was passed over, each one passed over for
  a fault of its own or a missing parent (`AssetPublication.Workspace.Prune`); so every empty one that
  stays was struck by a fault, and none stays when no fault is to come
  (`AssetPublication.CalmLeavesNothingEmpty`).
- A reservation that fails removes whatever empty directory stands under the last name it tried, and
  under "worktree" in the anchor it had opened there, without comparing identities. After 32
  collisions that is a directory it never made (`SnapshotSweep.ReservationSweepsForeignDirectory`).
  It removes such a directory exactly when the sweep is not struck by a fault and an empty directory
  that it had not made stands under that very name (`SnapshotLog.ForeignExactlyWhen`), and left alone
  exactly when all 32 names are taken and the last one names an empty directory
  (`SnapshotRollback.Run.Reserve`). Identity is compared from the reservation on.
- A reservation records the directories it opened under the names it had made. If the anchor has a
  public name, another process may have swapped in a directory in between; under a private name it
  is the one made (`SnapshotRollback.Run.Reserve`).
- The PNG walk itself knows no length bound, where section 5.3 of the PNG specification stops at
  2^31 - 1. A document it accepts is also printed within the bound exactly when no chunk is longer
  (`PngWalk.SpecExactlyWhen`), and there is one that is not (`PngWalk.LongChunkAccepted`). Documents
  below 2^31 bytes always are, and with the default file limit of 16 MiB nothing longer reaches the
  walk (`PngWalk.ScanDocument`).

## Model

| member | source | states |
|---|---|---|
| CodexTypes.SourceIdUnambiguous | src/project_memory_hub/adapters/codex.py:1129-1138 | a composite record identifier names one session and one turn |
| Chunks.SplitIndependence | src/project_memory_hub/adapters/codex.py:842-935 | however an append-only file is cut into reads, records, warning counts and final state equal one pass over the complete lines consumed |
| Chunks.AnyTwoCutsAgree | src/project_memory_hub/adapters/codex.py:842-935 | two ways to cut the same file that consume the same bytes give the same records, warnings and state |
| Chunks.DiscardedLineEqualsWholeLine | src/project_memory_hub/adapters/codex.py:863-895 | an oversized line discarded across reads has the effect, counted once, of the same line seen whole |
| Chunks.ParseChunkExtendsScan | src/project_memory_hub/adapters/codex.py:842-935 | one parse from the state of any prefix carries the one-pass result to that of the bytes it consumed and stops where a reader may stop |
| Chunks.ConsumeExtendsScan | src/project_memory_hub/adapters/codex.py:877-935 | the same for the line loop with its record budget, at every line boundary |
| Lifecycle.RunConcat | src/project_memory_hub/adapters/codex.py:877-935 | the meaning of two batches of events is that of the first followed by the second from the state it left |
| DictOrder.RunAlike | src/project_memory_hub/adapters/codex.py:1041-1073 | from states that differ only in dictionary order, histories without eviction give equal records and warnings and states that again differ only in order |
| DictOrder.EvictionOrderMatters | src/project_memory_hub/adapters/codex.py:1065-1066 | when a full dictionary takes one more turn, the states stay similar if and only if both orders evict the same turn, or the new turn fits in neither |
| EvictionWitness.EvictionDependsOnSaving | src/project_memory_hub/adapters/codex.py:375-491 | a log whose two incremental reads, the second resumed without a warning from the checkpoint the first saved, produce a record that one pass over the same bytes does not |
| Checkpoints.StepSound | src/project_memory_hub/adapters/codex.py:811-840 | every event keeps the conditions the resume check asks for |
| Checkpoints.ParseChunkSound | src/project_memory_hub/adapters/codex.py:842-935 | so does every slice, whatever it holds |
| Checkpoints.SavedCheckpointAccepted | src/project_memory_hub/adapters/codex.py:741-809 | a checkpoint saved from a sound state resumes at its offset with the same lifecycle after any append, without a restart; `CheckpointGuards` has the other direction, for any checkpoint and any file |
| Checkpoints.OwnCheckpointAcceptedIff | src/project_memory_hub/adapters/codex.py:463-482 | the reader's own checkpoint is accepted if and only if the context limit is at least 2 |
| Checkpoints.TinyContextLimitRestarts | src/project_memory_hub/adapters/codex.py:811-840 | below that limit every checkpoint is refused and the file is read again from 0 |
| CheckpointGuards.ResumesExactlyWhen | src/project_memory_hub/adapters/codex.py:741-840 | a supplied checkpoint is resumed, at its offset and with its lifecycle and without a warning, if and only if its adapter scope, versions, policy and file identity are the current ones, its remembered bytes are still the start of the file, and its lifecycle is one the reader can have saved; otherwise the read starts at 0 with the restart warning |
| CheckpointGuards.RestartedReadIsFirstRead | src/project_memory_hub/adapters/codex.py:375-491 | a read that restarts returns the records, warnings but one, and next checkpoint of a first read |
| CheckpointGuards.RewrittenRestarts | src/project_memory_hub/adapters/codex.py:779-781 | so does every read after the committed bytes were changed or cut, or the file was replaced |
| CheckpointGuards.OwnRestartsExactlyWhen | src/project_memory_hub/adapters/codex.py:741-809 | the reader's own checkpoint is refused on a later file exactly when that file is not the one it was saved from with more bytes appended, or the context limit is too small |
| ContextDict.CanonicalIffSorted | src/project_memory_hub/adapters/codex.py:1819-1825 | serialising keeps the dictionary's order exactly when its keys are already sorted |
| LiveRuns.ReadTracks | src/project_memory_hub/adapters/codex.py:375-491 | a read from a checkpoint that tracks the file returns exactly the records and warnings of the bytes it consumed, and its next checkpoint tracks the file; which checkpoints are resumed at all is `CheckpointGuards.ResumesExactlyWhen` |
| LiveRuns.ReadKeepsOwn | src/project_memory_hub/adapters/codex.py:375-491 | a read from the reader's own checkpoint resumes, never moves it backwards, and saves one that is accepted back |
| Ingestion.Prepare | src/project_memory_hub/adapters/base.py:116-159 | a batch is prepared unless some record is rejected; captures and deferrals are the selected records in order |
| Ingestion.Database.WriteCaptures | src/project_memory_hub/adapters/base.py:179-216 | captures are written in order until a fault |
| Ingestion.Database.WriteDeferrals | src/project_memory_hub/adapters/base.py:218-222 | deferrals are written in order within both capacity limits, keeping an existing locator |
| Ingestion.Database.Ingest | src/project_memory_hub/adapters/base.py:98-260 | either the whole batch is recorded and the checkpoint moves, or nothing changes, for a fault at any write; what is recorded, record by record, is `IngestionVerdicts.CommitByVerdict` |
| Ingestion.ApplyKeeps | src/project_memory_hub/adapters/base.py:98-260 | every append, load, read, commit and failure of any ingester keeps the accounting and the locators |
| Ingestion.NoLossNoDuplication | src/project_memory_hub/adapters/base.py:98-260 | over every interleaving, captured plus deferred records are, as a multiset, those of one pass up to the committed offset; which of them are captured and which deferred is `IngestionVerdicts.HistoryByVerdict` |
| IngestionVerdicts.SelectedExactly | src/project_memory_hub/adapters/base.py:137-159 | the records selected for a verdict are exactly those with that verdict, in their order |
| IngestionVerdicts.DeferAllExactly | src/project_memory_hub/adapters/base.py:218-222 | deferrals are accepted exactly when the identifiers they add fit both limits; then each has a locator, an older one where it had one, and no other identifier gained one |
| IngestionVerdicts.CommitByVerdict | src/project_memory_hub/adapters/base.py:98-260 | a batch is committed if and only if its identifiers are unique, none of its records is rejected, the checkpoint is the expected one and there is room; it then adds to the captured records exactly the prepared ones, and to the deferred records and locators exactly those without a project |
| IngestionVerdicts.HistoryByVerdict | src/project_memory_hub/adapters/base.py:98-260 | over every interleaving, the store holds the prepared records of the committed batches as captures, those without a project as deferrals with a locator each, in commit order, and nothing else |
| Replay.ReplayProgress | src/project_memory_hub/adapters/codex.py:546-574 | every replay step from a cut point strictly advances, unless what is left is an unfinished tail shorter than any discard |
| Replay.ReplayDeferred | src/project_memory_hub/adapters/codex.py:493-606 | replaying a locator from byte 0 ends at its prefix length and yields its record, or the error that applies |
| Replay.DeferredRecordsReplay | src/project_memory_hub/adapters/codex.py:493-606 | over every interleaving, each locator replays to exactly one deferred record unless its identifier occurs twice or the scan limit is passed |
| Replay.ReplaysExactlyWhen | src/project_memory_hub/adapters/codex.py:493-606 | a replay yields a record if and only if the locator was written by this parser under this policy, is within the scan limit, names the inode and device of this very file and remembers its first bytes, ends where a reader may stop, and the record is the only one of its identifier in a pass over those bytes |
| Replay.ReplayFails | src/project_memory_hub/adapters/codex.py:493-537 | which error a refused locator gets: another parser or policy is rejected, then the limit, then another file counts as changed; ambiguous means that no record is the only one |
| Replay.CompletePrefixLength | src/project_memory_hub/adapters/codex.py:1806-1816 | a nonzero result is the longest prefix that ends in a line feed; zero means the searched tail holds none |
| Replay.ReplayRecords | src/project_memory_hub/adapters/codex.py:608-739 | succeeds exactly when every requested identifier occurs once in the complete lines and the limits hold, answers in request order, and never reports missing progress; a request is rejected exactly when it names none or more than 256 identifiers, an unsafe one, or one twice |
| Provenance.SessionHasSource | src/project_memory_hub/adapters/codex.py:957-986 | a known session comes from a line that started it, with no other session or invalidation since |
| Provenance.ContextHasSource | src/project_memory_hub/adapters/codex.py:987-1073 | an open context comes from a turn line of its own session with exactly its directory and model, undisturbed since its latest insertion |
| Provenance.EveryRecordIsVouched | src/project_memory_hub/adapters/codex.py:937-1164 | every record of any byte string has a session line, a turn line and a completion line that vouch for all of its fields; `Production` has the converse |
| LineMeaning.ReadsSession | src/project_memory_hub/adapters/codex.py:957-986 | a line starts a session with this metadata id exactly when its object is a session_meta whose session_id, or id where there is none, and id are those, each accepted |
| LineMeaning.ReadsDeclaration | src/project_memory_hub/adapters/codex.py:987-1040 | a line declares a turn with this directory and model exactly when its object is a turn_context with those texts under turn_id, cwd and model, each accepted by its check, and an accepted summary |
| LineMeaning.ReadsCompletion | src/project_memory_hub/adapters/codex.py:1074-1128 | a line completes a turn with these labels at this time exactly when its object is a task_complete event of that turn whose message is not blank, whose timestamp reads as that time and whose message reads as those labels |
| LineMeaning.EndObject | src/project_memory_hub/adapters/codex.py:1074-1128 | which fields make an event an abort, an incomplete or a badly timed completion, one to ignore, or a refused one |
| LineMeaning.NoRecordSays | src/project_memory_hub/adapters/codex.py:887-934 | what a line that is no record object does: too long, not decoded, or large but of an ignored kind |
| Production.StateFromEvents | src/project_memory_hub/adapters/codex.py:937-1164 | while the live turns fit the limits, the state of one pass is read off the events: which line founded the session that is held, and for every turn whether it is absent, open with the one pair it was declared as, or blocked |
| Production.ProducedExactlyWhenEarned | src/project_memory_hub/adapters/codex.py:1079-1164 | an event then produces a record if and only if it completes, with parsed labels and an accepted identifier, a turn that was declared under the held session, since its last end, always as one pair |
| Production.ScanProducesEarnings | src/project_memory_hub/adapters/codex.py:937-1164 | so the records of one pass over any bytes are exactly those its lines earn, in order |
| Production.ProducedInSession | src/project_memory_hub/adapters/codex.py:937-1164 | the same for one session on its own, whatever came before: the line that names it for the first time, no line that ends it, and room for its live turns |
| Production.RepeatedDeclarationProduces | src/project_memory_hub/adapters/codex.py:1047-1055 | a turn declared any number of times as the same pair still produces its record |
| Production.EndWarns | src/project_memory_hub/adapters/codex.py:1079-1164 | the warning of a completion, by what was declared before it: orphan, ambiguous, incomplete, without a block, with a bad one, or with an unsafe identifier |
| Production.DeclarationWarns | src/project_memory_hub/adapters/codex.py:987-1073 | a declaration is warned about exactly when it is unusable or the turn was already declared otherwise |
| CodexReader.Turns.BlockTurn | src/project_memory_hub/adapters/codex.py:1317-1332 | blocking a turn in place is the specified step, including the overflow clear |
| CodexReader.Turns.InvalidateLifecycle | src/project_memory_hub/adapters/codex.py:1271-1277 | clears contexts, session and metadata id and counts one warning |
| CodexReader.Turns.TurnContext | src/project_memory_hub/adapters/codex.py:987-1073 | the turn-context branch in place is the specified step; what that step comes to is `Production.DeclarationWarns` and `Production.StateFromEvents` |
| CodexReader.Turns.FinishTurn | src/project_memory_hub/adapters/codex.py:1079-1164 | the completion branch in place is the specified step |
| CodexReader.Turns.ProcessRecord | src/project_memory_hub/adapters/codex.py:937-1164 | updating the dictionary and the counter in place is one lifecycle step on the decoded value |
| CodexReader.Turns.ProcessLine | src/project_memory_hub/adapters/codex.py:887-934 | so is the handling of one raw line with its size limits and both decodings |
| CodexReader.ReadLines | src/project_memory_hub/adapters/codex.py:877-935 | the imperative line loop computes the specified chunk |
| CodexReader.ParseChunk | src/project_memory_hub/adapters/codex.py:842-935 | the imperative slice parser computes the specified chunk, also while discarding |
| RuntimeModel.SplitFile | src/project_memory_hub/adapters/codex.py:1449-1501 | reads of any positive size yield exactly the newline split, and fail exactly when a line is too long or the last one is unfinished |
| RuntimeModel.ModelFromLines | src/project_memory_hub/adapters/codex.py:1504-1632 | the fold answers a model exactly when all lines are valid, every open turn declared one pair since its last end, and the turns open at the directory have that one model; what a line declares or ends is `LineMeaning` |
| RuntimeModel.RuntimeModelOf | src/project_memory_hub/adapters/codex.py:276-326 | the same for a whole file with its size limits; what a line declares or ends is `LineMeaning` |
| LineMeaning.HearsDeclaration | src/project_memory_hub/adapters/codex.py:1565-1604 | the resolver hears this turn, directory and model exactly when the line is a whole turn_context with those texts under turn_id, cwd and model, each accepted by its check |
| LineMeaning.HearsEnding | src/project_memory_hub/adapters/codex.py:1605-1624 | it hears the end of this turn exactly when the line is a task_complete or turn_aborted event of it |
| LineMeaning.HearsSession | src/project_memory_hub/adapters/codex.py:1533-1564 | it hears these identifiers exactly when the line is a session_meta that holds them |
| CaptureMarkers.FindMarkers | src/project_memory_hub/adapters/codex.py:1335-1370 | the loop finds the markers outside fences |
| CaptureMarkers.ScanConcat | src/project_memory_hub/adapters/codex.py:1335-1353 | the markers of joined texts are those of the first and those of the second from the fence it left open |
| CaptureMarkers.FencedBodyNeverMatters | src/project_memory_hub/adapters/codex.py:1335-1370 | whatever stands inside a fence, and on however many lines: the markers before it are the same, those after it only move by the difference in lines, and the fence left open is the same |
| CaptureMeaning.FenceOpens | src/project_memory_hub/adapters/codex.py:1356-1366 | outside a fence, a line opens one exactly when, after at most three spaces, it begins with at least three backticks and has no other, or with at least three tildes; the fence is of that mark and length |
| CaptureMeaning.FenceCloses | src/project_memory_hub/adapters/codex.py:1368-1370 | inside a fence, a line closes it exactly when, after at most three spaces, it is at least as many of its marks and then white space; any other line leaves it open |
| CaptureMeaning.VisibleExactlyWhen | src/project_memory_hub/adapters/codex.py:1335-1353 | a line counts as a marker exactly when it is one of the two and stands outside fences |
| CaptureMarkers.SelectBlock | src/project_memory_hub/adapters/codex.py:1170-1193 | the pairing loop selects a block exactly when the last marker is an end, the one before it a start, and no start was open before; it reports a missing block exactly when there is no start |
| CitationSuffix.ValidBody | src/project_memory_hub/adapters/codex.py:1384-1414 | accepts exactly the texts of some citation |
| CitationSuffix.ValidSuffix | src/project_memory_hub/adapters/codex.py:1373-1414 | accepts exactly blank lines, or one citation between blank lines, within 512 lines |
| CaptureBlock.ParseLine | src/project_memory_hub/adapters/codex.py:1210-1233 | one label line, with the first matching heading, the bounds and the normalisation |
| CaptureBlock.ParseBlock | src/project_memory_hub/adapters/codex.py:1194-1268 | the loop over a mutable dictionary accepts exactly the blocks whose grouped items satisfy all limits, and returns them |
| CaptureBlock.ParseLabels | src/project_memory_hub/adapters/codex.py:1167-1268 | the parse of a message is that of the lines between the deciding markers before a valid suffix |
| CaptureBlock.BlockRoundTrip | src/project_memory_hub/adapters/codex.py:1167-1268 | closed prose, then a rendered block of valid normalised labels, then a valid suffix, parses back to exactly those labels |
| CaptureBlock.ParsedLabelsRoundTrip | src/project_memory_hub/adapters/codex.py:1194-1268 | what any block was parsed to, written out again, parses to the same labels, given a redactor that accepts its own output |
| CaptureMeaning.ItemExactlyWhen | src/project_memory_hub/adapters/codex.py:1210-1233 | a line is an item exactly when it is one of the headings and a value that is not empty and within the limits, before and after it is normalised |
| CaptureMeaning.ItemsExactlyWhen | src/project_memory_hub/adapters/codex.py:1203-1233 | a block has these items exactly when its lines that are not empty read as them, one by one |
| CaptureMeaning.LabelsMade | src/project_memory_hub/adapters/codex.py:1224-1234 | every label lists exactly the values given for it, in order; resolved issues once each, in the order in which they were first given |
| CaptureMeaning.SizesAdd | src/project_memory_hub/adapters/codex.py:1239-1244 | the size of a list of values is the sum of the sizes of its values |
| CaptureMeaning.TotalIsOfAll | src/project_memory_hub/adapters/codex.py:1239-1244 | the total size is that of the values of all eleven labels |
| CaptureMeaning.BlockExactlyWhen | src/project_memory_hub/adapters/codex.py:1194-1268 | a block is accepted exactly when it is short enough, reads as items, and these make one objective, one outcome, no issue both open and resolved, short lists, a total within the limit and portable labels |
| CaptureMeaning.ParsedExactlyWhen | src/project_memory_hub/adapters/codex.py:1167-1268 | a message is parsed to these labels if and only if it is prose that closes its fences and leaves no start open, the start line, a block of these labels, the end line, and a valid suffix, with no visible marker in the block or after it |
| CaptureMeaning.MissingExactlyWhen | src/project_memory_hub/adapters/codex.py:1170-1193 | a block is missing, rather than invalid, exactly when no visible start marker stands anywhere |
| Words.CollapseSettles | src/project_memory_hub/adapters/codex.py:1226-1230 | collapsed white space stays as it is and has nothing to strip |
| SnapshotLog.OthersKeepPrivate | scripts/prepare_public_snapshot.py:1361-1409 | whatever others do to public names leaves entries under private names as they are |
| SnapshotLog.MoveKeepsNodes | scripts/prepare_public_snapshot.py:773-819 | a rename onto a free name loses no node |
| SnapshotLog.NothingElseIsLost | scripts/prepare_public_snapshot.py:1589-1622 | over every log: every node linked at the start still is, unless this run unlinked it, a sweep removed it, or others did |
| SnapshotLog.UnlinkedLiesUnderRecorded | scripts/prepare_public_snapshot.py:1412-1494 | everything this run unlinks stood under a private name, was empty if a directory, and is a recorded directory or was seen under one, step by step |
| SnapshotLog.OwnRefChanges | scripts/prepare_public_snapshot.py:1609-1614 | this run moves the ref only from nothing to a commit, and from exactly a commit it had created to nothing |
| SnapshotLog.ForeignExactlyWhen | scripts/prepare_public_snapshot.py:654-739 | a sweep removes a directory the run did not make exactly when it meets no fault and such an empty directory stands under its name |
| SnapshotLog.GivenBackOrRefused | scripts/prepare_public_snapshot.py:1340-1409 | over every orderly log: an entry that was moved aside and is not one of ours is rejected next, and is then back under its name, unless that very move was struck by a fault or found the name taken |
| SnapshotRollback.Run.Isolate | scripts/prepare_public_snapshot.py:1361-1409 | an isolated entry is the expected one under a private name; a replaced one is given back, or kept under the private name where the last move was struck by a fault or found the name taken; left alone, an entry is isolated exactly when it is the expected one, and otherwise the files stay as they were |
| SnapshotRollback.Run.Restore | scripts/prepare_public_snapshot.py:1340-1358 | the rejected entry is back under its name, or a fault struck the move, or the name was seen to be taken; left alone, it is given back exactly when its name is free |
| SnapshotRollback.Run.RemoveContents | scripts/prepare_public_snapshot.py:1412-1470 | removes only what it saw inside an owned directory, at any depth; success means that no step was struck, and that everything the directory held when it was listed was looked at and unlinked; left alone and deep enough, it empties the directory and touches nothing above |
| SnapshotRollback.Run.RemoveEntry | scripts/prepare_public_snapshot.py:1473-1494 | success means that the owned node was unlinked, its listed contents with it, and no step was struck; left alone, it succeeds and removes only the entry and what lay below it, and where something else has the name it fails and changes nothing |
| SnapshotRollback.Run.RemoveWorktree | scripts/prepare_public_snapshot.py:1520-1562 | removes the worktree from whichever of its two names it has; left alone, it fails and changes nothing exactly when it is under both or neither |
| SnapshotRollback.Run.CleanupReserved | scripts/prepare_public_snapshot.py:1520-1586 | success means that worktree and metadata were emptied and unlinked, and the anchor too unless it was not found under its name; left alone, all three are gone where they stood, a worktree that is not found stops it before any change, and something else under the metadata name stays where it is |
| SnapshotRollback.Run.DeleteRef | scripts/prepare_public_snapshot.py:1609-1614 | the only deletion is from exactly this run's commit to nothing; it is not tried exactly when the look at the ref is struck or shows another value; left alone, it happens exactly when the ref holds that commit |
| SnapshotRollback.Run.Rollback | scripts/prepare_public_snapshot.py:1589-1622 | over every failure and interleaving: records nothing but the metadata that the marker names, and only when none was bound; everything it renames, looks into and unlinks stays within what was reserved and bound, and the ref is deleted only from this run's commit; left alone, metadata that can be bound is bound, and worktree, metadata, anchor and ref are undone; left alone, a worktree that is not found leaves all files as they were, and something else under the metadata name stays |
| SnapshotRollback.Run.MakeAnchor | scripts/prepare_public_snapshot.py:676-684 | the first candidate name that is free; every one before it was seen to be taken |
| SnapshotRollback.Run.MakeStaging | scripts/prepare_public_snapshot.py:686-711 | made inside the anchor, and both seen again under their names |
| SnapshotRollback.Run.Reserve | scripts/prepare_public_snapshot.py:654-739 | records exactly the directories it saw under the names it had made, the anchor itself if its name is private; on failure records nothing and sweeps at most two names, the last candidate and the staging name under the anchor it opened; left alone, the outcome is determined |
| SnapshotRollback.Run.BindMetadata | scripts/prepare_public_snapshot.py:943-1040 | records exactly the directory that the marker names, after seeing it there, or nothing; left alone, it binds exactly when anchor and worktree stand and the marker names a directory |
| SnapshotRollback.Run.Publish | scripts/prepare_public_snapshot.py:1120-1181 | success means the public name was seen to be the staged worktree, the anchor was emptied and unlinked, and no step was struck; left alone, with everything in place, it succeeds, and only the worktree has moved and the anchor is gone |
| SnapshotRollback.Run.Fill | scripts/prepare_public_snapshot.py:1625-1715 | the steps after the reservation in order: creates no other ref value than the commit, records only the metadata, and on success the ref holds the commit and no step was struck; left alone, with everything in place, it succeeds |
| SnapshotRollback.Run.Prepare | scripts/prepare_public_snapshot.py:1625-1715 | over the whole run, its undo included, it records exactly anchor, staging and the metadata bound or bound again, and nothing without a reservation; every directory it makes or sweeps, every rename and every unlink stays within the names it tried, those directories, and the announced move; on success the ref holds the commit and the public name was seen to be the worktree; after a failure the undo ran; left alone, with no ref, a free candidate, a free public name and metadata in place, it succeeds; and nothing foreign is moved aside without the attempt to give it back (`Orderly`) |
| SnapshotRollback.OnlyReservedIsRemoved | scripts/prepare_public_snapshot.py:1589-1622 | a preparation unlinks only its anchor, its worktree, the metadata bound or bound again, and what it saw, step by step, inside one of them; without a reservation it unlinks and renames nothing |
| SnapshotRollback.Run.GoPublic | scripts/prepare_public_snapshot.py:1120-1174 | the one rename of the publication, from the staging name to the public name, after the looks that have to come before it and followed by the look at where the worktree arrived, none of them struck where it succeeds |
| SnapshotRollback.Run.FillOrUndo | scripts/prepare_public_snapshot.py:1674-1709 | either every step succeeded, or the undo ran from the place where one failed; undisturbed from there, it undoes all that stands |
| SnapshotSweep.ReservationSweepsForeignDirectory | scripts/prepare_public_snapshot.py:654-739 | a run in which all 32 names are taken, and the failed reservation removes the last directory, which it never made |
| AssetPublication.PublishOrderLists | src/project_memory_hub/demo/runtime.py:526-533 | the publish order has each name once, manifests after everything else |
| AssetPublication.Workspace.AtomicReplace | src/project_memory_hub/demo/runtime.py:919-952 | one file is replaced or untouched, whichever step fails; success means that every one of its steps was taken and none failed; no temporary file stays after a single fault |
| AssetPublication.Workspace.WriteTemporary | src/project_memory_hub/demo/runtime.py:919-952 | the name is replaced exactly when creating, writing and renaming do not fail and the name is no directory; it succeeds exactly when the sync of the parent and the clean-up do not fail either; a temporary file stays exactly when it was made, not renamed and could not be removed |
| AssetPublication.Workspace.UnlinkFile | src/project_memory_hub/demo/runtime.py:1093-1121 | a file is removed or untouched; a removal succeeds only with every step, its sync included; success without a removal means that the name is free, a directory above it is missing, or its parent could not be opened |
| AssetPublication.Workspace.RemoveAdded | src/project_memory_hub/demo/runtime.py:186-187 | success means that every name that is none of the originals, in reverse order, was left alone or removed without a failed step |
| AssetPublication.Workspace.Settle | src/project_memory_hub/demo/runtime.py:175-181 | success means that the tree verifies, has exactly these files and the marker as before, and was synced |
| AssetPublication.OverlayUnmixed | src/project_memory_hub/demo/runtime.py:173-174 | at every point of the publish order no new manifest stands beside an old asset |
| AssetPublication.Workspace.Forward | src/project_memory_hub/demo/runtime.py:173-174 | so in every content the tree has in the forward phase, and at its end the tree is the documents; it succeeds when no fault is to come |
| AssetPublication.Workspace.Restore | src/project_memory_hub/demo/runtime.py:183-195 | a restore that succeeds leaves exactly the originals, no temporary file, and no empty directory that a fault did not strike; it succeeds when no fault is to come |
| AssetPublication.Workspace.Publish | src/project_memory_hub/demo/runtime.py:144-204 | success leaves exactly the documents and met no failed step, a failure that was rolled back exactly the old tree, for a failure at any step; every content is either one of the forward phase, without a mixture, or comes from putting an original back or removing what is none; where no name is also a directory of another, a valid publication without a fault succeeds, and with at most one fault the tree is never left between the two, nor is an empty directory left behind |
| AssetPublication.Workspace.PruneOne | src/project_memory_hub/demo/runtime.py:1124-1156 | one directory is removed exactly when it is there and empty, unless its parent cannot be opened, for a named cause |
| AssetPublication.Workspace.Prune | src/project_memory_hub/demo/runtime.py:1124-1156 | a directory is left if and only if it is occupied or was passed over, each one passed over for a fault of its own or a missing parent; none is when no fault is to come |
| AssetPublication.CalmLeavesNothingEmpty | src/project_memory_hub/demo/runtime.py:1124-1156 | when no fault was to come, every directory left is occupied |
| AssetPublication.PruneLeavesEmptyDirectory | src/project_memory_hub/demo/runtime.py:1124-1156 | a tree and a schedule on which pruning and verification succeed and an empty directory stays |
| AssetPublication.StaysOccupied | src/project_memory_hub/demo/runtime.py:1124-1156 | removing a directory leaves every directory at least as deep as occupied as it was |
| ProjectMatcher.Match | src/project_memory_hub/adapters/chatgpt.py:171-301 | candidates, ranking and blockers computed row by row give a decision that depends only on the set of rows |
| ProjectMatcher.ChosenExactlyWhen | src/project_memory_hub/adapters/chatgpt.py:234-301 | a project is chosen without confirmation if and only if it is an enabled survivor that every other survivor scores below and no disabled survivor lies at or below |
| ProjectMatcher.DecisionExactlyWhen | src/project_memory_hub/adapters/chatgpt.py:234-301 | the decision is blocked exactly when a disabled survivor is outscored by no enabled one or lies at or below a best one, whatever the registry says; otherwise it asks for reconciliation exactly when a best row is out of date; otherwise the best rows are what is matched, and a single one is chosen |
| ProjectMatcher.DecisionReports | src/project_memory_hub/adapters/chatgpt.py:238-301 | its confidence is the best score, and its evidence the kinds of the scores, of the rows that decided |
| ProjectMatcher.EvidenceOfChoice | src/project_memory_hub/adapters/chatgpt.py:171-232 | the evidence of a choice is how that project was found: by its path, else by its remote, else by its name where the text shows coding |
| ProjectMatcher.PathMatchesAntichain | src/project_memory_hub/adapters/chatgpt.py:1296-1310 | surviving path matches are an antichain, not empty when any path matched |
| ProjectMatcher.DisabledOnlyBlocks | src/project_memory_hub/adapters/chatgpt.py:238-278 | a disabled project can block a choice, but never turn it to another project |
| ProjectMatcher.FindByName | src/project_memory_hub/adapters/chatgpt.py:214-232 | after the name groups every row with evidence is a candidate with its best score and no other row is |
| ProjectMatcher.MergeStep | src/project_memory_hub/adapters/chatgpt.py:1317-1327 | merging raises one row's candidate to the higher score and changes no other |
| ConversationImport.ResumedRun | src/project_memory_hub/adapters/chatgpt.py:722-1036 | stopping after any conversation and importing the archive again equals one uninterrupted run, also when that stops |
| ConversationImport.CompetingImportsAreOneRun | src/project_memory_hub/adapters/chatgpt.py:655-720 | however importers of one archive begin, take turns and crash, the store is that of one run over a prefix |
| ConversationImport.SecondRunChangesNothing | src/project_memory_hub/adapters/chatgpt.py:722-1036 | a second full run changes nothing |
| ConversationImport.LaterRunCapturesOnlyLeftOver | src/project_memory_hub/adapters/chatgpt.py:851-864 | a later run under any other registry captures only conversations the first left without a receipt |
| ConversationImport.ImportAdds | src/project_memory_hub/adapters/chatgpt.py:655-720 | one transaction only adds, only the conversation's own captures, and leaves its receipt unless a disabled project matched; exactly what it leaves is `ConversationImport.ImportLeaves` |
| ConversationImport.ImportLeaves | src/project_memory_hub/adapters/chatgpt.py:655-720 | a transaction leaves this store if and only if, for planned captures, each in plan order was judged new and stored or judged a duplicate and not stored, for a confirmation, exactly its details are kept, and the receipt is left with them |
| ConversationImport.EveryCaptureAccounted | src/project_memory_hub/adapters/chatgpt.py:689-712 | every planned capture of an accepted import is stored by it, at the place where the store then ended, or was judged a duplicate of what was stored before it |
| ConversationImport.RunAccountsForCaptures | src/project_memory_hub/adapters/chatgpt.py:722-1036 | so for every receipt that a run leaves for planned captures |
| ConversationImport.Database.CommitConversation | src/project_memory_hub/adapters/chatgpt.py:655-720 | captures, confirmation and receipt together or not at all, as the specified transaction; refused for a changed registry exactly when the last answer of the registry was a change, and otherwise only for a capture that is not accepted; on success the registry was asked before and after and had not changed, and it counts as a duplicate exactly when every capture was judged one; what is then stored is `ConversationImport.ImportLeaves` |
| ConversationImport.Database.ImportOne | src/project_memory_hub/adapters/chatgpt.py:786-1019 | one conversation in the imperative loop is the specified transaction, and rejected only where that is; a dry run writes nothing; whether it counts as a duplicate, how often the registry is asked, and that an answer of change stops it at once; with an unchanged registry nothing else stops it |
| ConversationImport.Database.ImportZip | src/project_memory_hub/adapters/chatgpt.py:722-1036 | what is stored in the end is one run over the conversations reached; it reports the number of duplicates among them; refused exactly for repeated ids or too many conversations; with an unchanged registry it succeeds exactly when the run over all conversations does, and a dry run exactly when every conversation can be planned |
| ConversationBranch.NewestLeaf | src/project_memory_hub/adapters/chatgpt.py:1071-1072 | the chosen leaf is the maximum of the childless nodes, or of all nodes when none is childless |
| ConversationBranch.OneLeaf | src/project_memory_hub/adapters/chatgpt.py:1250-1257 | that maximum is unique |
| ConversationBranch.OneOutcome | src/project_memory_hub/adapters/chatgpt.py:1073-1090 | the parent walk and the way it ends are determined by the mapping |
| ConversationBranch.Branch | src/project_memory_hub/adapters/chatgpt.py:1038-1090 | terminates, accepts exactly when a repeat-free root-to-leaf path with agreeing links exists, returns it, and otherwise names the cycle or the broken link |
| ConversationBranch.BranchMeans | src/project_memory_hub/adapters/chatgpt.py:1038-1090 | a branch ends at the newest node without children, or at the newest of all where every node has some, begins at a node without a parent, and at every step the parent named and the children listed agree, without repeats |
| ConversationBranch.BeforeMeans | src/project_memory_hub/adapters/chatgpt.py:1250-1257 | older means without a time, or with an earlier one, or with the same and an id that comes first |
| ConversationBranch.EndsMean | src/project_memory_hub/adapters/chatgpt.py:1073-1090 | a walk is an orphan exactly where the named parent is missing or does not list the node, and a cycle exactly where it does and was already walked |
| ManagedBlock.ManagedMarkersValid | src/project_memory_hub/integration/agents.py:16-20 | the two managed markers satisfy what the algebra needs of markers |
| ManagedBlock.CountSplit | src/project_memory_hub/integration/agents.py:411-418 | counting splits wherever no marker can reach over the border |
| ManagedBlock.SpanAround | src/project_memory_hub/integration/agents.py:411-436 | a document around one well-placed block has the span of that block with the line feeds on both sides |
| ManagedBlock.SpanIsAround | src/project_memory_hub/integration/agents.py:411-436 | every document with a span is such a document |
| ManagedBlock.InstallThenRemove | src/project_memory_hub/integration/agents.py:111-167 | removing after installing equals removing; a document without markers comes back exactly |
| ManagedBlock.InstallSettles | src/project_memory_hub/integration/agents.py:88-138 | installing again changes nothing, and what is installed is inspected as current |
| ManagedBlock.InstallAcceptsExactly | src/project_memory_hub/integration/agents.py:111-193 | install refuses exactly malformed marker pairs and documents that are or would be over 8 MiB |
| ManagedBlock.CurrentExactlyWhen | src/project_memory_hub/integration/agents.py:88-109 | a document is current if and only if installing would leave it as it is |
| ManagedBlock.RemoveLeavesMissing | src/project_memory_hub/integration/agents.py:140-167 | joining the two sides never makes a new marker |
| PngWalk.ChunkRoundTrip | src/project_memory_hub/demo/privacy.py:485-498 | a chunk is read at an offset exactly when its printed form stands there |
| PngWalk.PrintUnique | src/project_memory_hub/demo/privacy.py:472-531 | no two chunk lists print the same document |
| PngWalk.ScanPng | src/project_memory_hub/demo/privacy.py:472-531 | the walk accepts if and only if the document is what a printer emits and its text, dimensions and raster pass, and then returns the header's dimensions; any other document is refused for the chunk it leads the walk to, be it metadata, too much of it, or a bad end, and as no PNG where it leads to none |
| PngWalk.VerdictExactlyWhen | src/project_memory_hub/demo/privacy.py:517-531 | a printed document is accepted as so wide and so high exactly when its header was printed with these numbers, both are at least 1, their product is within the limit, and text and raster pass |
| PngWalk.ScanDocument | src/project_memory_hub/demo/privacy.py:226-250 | larger documents than the file limit are refused before the walk; with a limit below 2^31 bytes exactly the documents are accepted that a printer within the length bound emits and whose text, dimensions and raster pass |
| PngWalk.SpecExactlyWhen | src/project_memory_hub/demo/privacy.py:472-531 | a printed document is printed within the length bound if and only if no chunk is longer |
| PngWalk.LongChunkAccepted | src/project_memory_hub/demo/privacy.py:472-531 | a document with a longer chunk that no printer within the bound emits, and that the walk accepts |
| PngWalk.NextIsRead | src/project_memory_hub/demo/privacy.py:485-516 | each step keeps the document before the offset equal to the printed chunks |
| Broker.LinesOfIsSplit | src/project_memory_hub/integration/mcp_broker.py:404-420 | the lines of a stream are its newline split and lose nothing |
| Broker.ReadLine | src/project_memory_hub/integration/mcp_broker.py:404-420 | one bounded read delivers exactly the next line, flagged oversized precisely when its stripped length exceeds the limit |
| Broker.ContentMeans | src/project_memory_hub/integration/mcp_broker.py:404-420 | the content of a line is the line without its line feed and one carriage return before it, and nothing else is taken off |
| Broker.DrainLine | src/project_memory_hub/integration/mcp_broker.py:423-427 | draining takes the rest of the line and nothing of the next |
| Broker.McpBroker.Handle | src/project_memory_hub/integration/mcp_broker.py:185-216 | the two flags answer every message as the transcript says |
| Broker.McpBroker.Serve | src/project_memory_hub/integration/mcp_broker.py:154-183 | every line of any byte stream is handled once and in order, and the sink holds the responses |
| Broker.OneAnswerEach | src/project_memory_hub/integration/mcp_broker.py:154-216 | every line gets one response except well-formed notifications, which get none |
| Broker.ToolsWaitForLifecycle | src/project_memory_hub/integration/mcp_broker.py:229-319 | a tool runs only after an accepted initialize and, after that, an initialized notification |
| Broker.RefusedUntilReady | src/project_memory_hub/integration/mcp_broker.py:229-254 | a ping or tool request is refused as uninitialised exactly until then |
| Broker.ToolRunsExactlyWhen | src/project_memory_hub/integration/mcp_broker.py:229-319 | a tool runs if and only if a request calls it after the lifecycle is done, it is one of the two tools, and its arguments are accepted |
| Broker.PlainRequestsAnswered | src/project_memory_hub/integration/mcp_broker.py:255-276 | then a ping is answered by an empty result and a list request by the tools, unless their parameters are refused |
| Broker.InitializesExactlyWhen | src/project_memory_hub/integration/mcp_broker.py:286-314 | an initialize request is accepted exactly when its parameters are and none was accepted before |
| Broker.InitializedOnce | src/project_memory_hub/integration/mcp_broker.py:286-314 | at most one initialize is ever accepted |
| Broker.AnswersCarryTheId | src/project_memory_hub/integration/mcp_broker.py:185-216 | the response to a well-formed request carries its id |

## Left out

- LiveRuns.ReadTracks: assumes that no context is evicted from the file; without that the claim is false, see above.
- Ingestion.NoLossNoDuplication: assumes the same, and a context limit of at least 2; liveness is not stated, since a batch with a repeated id is refused for good.
- Ingestion.Database.Ingest: does not model project rows that change during the transaction, capture statistics or timestamps; capacity used by other scopes is a parameter.
- Replay.ReplayDeferred: does not model descriptors, permissions and the repeated identity checks of the open file; whether a renumbered inode is tolerated is a parameter.
- CaptureBlock.ParseLabels: takes lines, so the splitting of text into lines is not modelled.
- SnapshotRollback.Run.Publish: does not model the bytes of the metadata back reference; rewriting and comparing it is a step that may fail.
- SnapshotRollback.Run.BindMetadata: reading the marker and the back reference inside the metadata is not modelled; what the marker says is a parameter.
- SnapshotRollback.Run.Fill: what Git does, the materialisation of the tree and the checks of its content are among the actions of others and the failures of a step.
- SnapshotRollback.Run.RemoveContents: a recursion bound stands for the interpreter's; reaching it is a failure like any other.
- SnapshotRollback.Run.Intact: owner, mode and link-count comparisons and the walk of an absolute path are part of the failures a step may have.
- AssetPublication.Workspace.VerifyOutput: states the walk's verdict over the whole tree; ownership and permission checks are part of its possible failure.
- AssetPublication.Workspace.Publish: while a failed publication is being restored, a new manifest may stand beside a restored asset, as in the code.
- ConversationBranch.Branch: Unicode checks of ids and the extraction of messages from the branch.
- ConversationImport.Database.ImportOne: what normalising, matching and extracting decide for a conversation is one function of archive and registry; report counters other than duplicates.
- ManagedBlock.InstallSettles: takes the rendered block as given, with each marker once; target files, backups and atomic replacement.
- PngWalk.ScanPng: the CRC polynomial, the scan of readable text and the image decoder are parameters.
- Broker.McpBroker.HandleRequest: what a tool does is a parameter of the call and its position; container construction and closing are part of it.
- The WebP, SVG and text scanners of the privacy policy, the demo generator and seed, and workspace cleanup.
- Discovery of session files, directory traversal and all real file system, Git and SQLite calls.
- The capture service, checkpoint repository, project repository, redactor and archive reader: only what the parameter records assume of them.
- The improvement analyzer, control services, command line and release scripts.
