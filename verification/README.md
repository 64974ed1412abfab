# Pitboss verification models

A Dafny 4.11 project that models the parts of Pitboss whose fast, concurrent or crash-prone form
must agree with a simple specification, and proves that it does. `dafny verify dfyconfig.toml`
checks all of it.

| part | files | what is modelled |
|---|---|---|
| Communication plane | `Framing`, `Topology`, `Journal`, `Codecs`, `Plane`, `PlaneCalls`, `PlaneJournal`, `PlaneEpoch`, `PlaneAccess`, `PlaneTheorems`, `Mailbox` | the mailbox and artifact store of a tree of actors: handlers as interleaved steps (count, check, memory write, append), torn and failed appends, crashes and resumes, quotas and files |
| Run stream | `Sorting`, `Stream` | disk replay, poll-and-diff tail, live continuation |
| Log follower | `Follower` | the incremental line splitter behind `attach` |
| Control bridge | `Bridge` | the locked map of connection generations and their pumps, and the write lock senders share, byte by byte |
| Run directories and prune | `RunDirs`, `Prune` | classification, the synthesized summary, the temp-then-rename write and the sweep, with a process death at any call |
| Rollups and reports | `Ranking`, `Sums`, `Rollups`, `Failures`, `Reports` | cost and failure rollups, cross-run aggregation, the diff report |
| Failure classifier | `Text`, `ResetTime`, `Classify` | two-stage matching over a log, excerpts, the calendar arithmetic of reset times |
| Terminal UI state | `Tui`, `TuiState` | focus over snapshots and the pending-approval queue over all event runs |

State that the program updates in place is a class whose methods are proved equal to steps of a
specification function; what the program promises is proved about those functions. Runs are
sequences of steps, and an invariant lemma per step carries each property over all of them.
Lemmas switch automatic induction off, so each proof spells out what it uses.

## Findings

Places where a promise of the code or its comments needs a condition. Each has an exact condition or a
concrete run among the members below.

- A resumed process can lose an ack or grant although every append succeeded: the memory lock is
  dropped before the append, so an ack's record can overtake its message's (`OvertakingAckIsLost`,
  `ReplayEqualsLiveIffInTime`).
- The journal comments promise that a torn line is tolerated. A torn line without newline also costs
  the next record, and a line cut inside a code point makes the whole journal unreadable
  (`TornTailLosesNextRecord`, `PoisonIsForever`).
- A terminated sub-lead's workers have no parent between two lock acquisitions
  (`DetachedWorkerIsOrphaned`; exactly when: `ParentsNeverChange`).
- A refused list scope is an error only on a non-empty store (`ListMessages`, `WorkerListsAllOfNone`,
  `WorkerListsAllOfOne`).
- A task record rewritten with the same end time is never sent to a tailing reader
  (`RewriteWithSameEndIsMissed`; exactly when: `TickConvergesIff`).
- Growth between the follower's size check and its read is read again by the next poll, so lines are
  shown twice or spoilt (`GrowthInsidePollDuplicates`; exactly when it holds anything but newlines:
  `SessionExactIff`).
- An artifact whose put returned Ok can be gone after a restart, its file left without an entry, although
  no crash met the put: append errors are swallowed (`UnrecordedPutIsLost`; never without a harmed
  append: `LostWasHarmed`; exactly when: `UnreadIffOwed`, `UnreadIffNoRecordSurvives`).
- A `send_op` that fetched its entry just before the pump's clean-up writes to the dead connection
  (`StaleSendMissesNewConnection`; exactly when: `SendLandsOnRegisteredIff`); the same-channel guard of
  that clean-up, on the other hand, never fails (`CleanupRemovesOwnEntry`).
- A `send_op` that fails or is dropped half-way leaves a beginning of its line on the socket, and the
  next op is glued to it (`CutLineIsGlued`; exactly when: `WireIsHelloThenLines`).
- An interrupted `prune --remove` can make an Aborted run show as Running (`RemovalShowsRunning`;
  exactly when: `InterruptedRemoval`).
- `diff` looks a model up in the resolved map only, so its totals can differ from those of `analyze`
  (`OpusUnderSonnetEntry`; exactly when: `CostsAgreeIff` for a record, `TotalsDifferByGaps` for a run).
- A reset banner whose 40-byte cut falls inside a code point aborts the classifier, and so does the
  80-byte cut of the excerpt it logs when it finds no reset time (`WideFortiethByteAborts`,
  `LoggedExcerptAborts`; exactly when: `ClassifyAbortsIff`).
- A 29 February already past is returned as a past reset time (`LeapDayBannerIsPast`; exactly when:
  `ResetWithinAYear`).
- After a run is over the TUI keeps its client, so an approval reopened from the list can be answered
  into a dead connection (`AnswerAfterTheEndIsAccepted`; exactly when: `DeadAnswerIff`).

## Model

| member | source | states |
|---|---|---|
| `Framing.FileUtf8` | crates/pitboss-cli/src/communication.rs:296-316 | The journal file is valid UTF-8 exactly when no append stopped inside a code point; otherwise the read returns with nothing replayed |
| `Framing.ReadRecoversEntries` | crates/pitboss-cli/src/communication.rs:296-325 | For any codec whose parser undoes its encoder, reading the bytes of any sequence of whole, torn, newline-less and failed appends gives exactly the records the entry-level description says survive |
| `Framing.TearCostsAtMostTwo` | crates/pitboss-cli/src/communication.rs:401-448 | Without a cut inside a code point, the recovered records lie, in order, between those whose own append and the one before it were complete and those whose text reached the file whole: one tear costs its record and the next one at most |
| `Framing.TornTailLosesNextRecord` | crates/pitboss-cli/src/communication.rs:434-448 | A file left without its newline loses the next, completely written record too |
| `Framing.PoisonIsForever` | crates/pitboss-cli/src/communication.rs:302-316 | One append cut inside a code point makes the whole journal, and every later state of it, unreadable |
| `Framing.WholeAppends` | crates/pitboss-cli/src/communication.rs:401-448 | Whole lines appended to a cleanly ended journal are all read back, in order |
| `Codecs.JournalCodecExists` | crates/pitboss-cli/src/communication.rs:165-209 | The codec hypotheses can be met for the journal's own records: a parser that undoes the encoder, encodings in UTF-8 without newlines, no part or concatenation of parts of encodings parsing as another |
| `Topology.ParentIsHome` | crates/pitboss-cli/src/communication.rs:1008-1038 | The parent lookup, over the index, the root workers, the live and the archived layers, never answers anything but the layer under which the worker was registered |
| `Topology.ParentIsFound` | crates/pitboss-cli/src/communication.rs:1008-1038 | Exactly when the lookup answers: the worker is indexed, a root worker, or held by a layer that is live or archived |
| `Topology.ChecksFollowHome` | crates/pitboss-cli/src/communication.rs:927-995 | Whatever the send and observe checks allow is allowed by registration alone |
| `Topology.TreeStepFits` | crates/pitboss-cli/src/communication.rs:1008-1070 | Registering workers and sub-leads, reaping index entries, detaching and archiving a layer keep the tree consistent with registration |
| `Topology.ArchivingKeepsParents` | crates/pitboss-cli/src/communication.rs:1018-1037 | Detaching and archiving a layer leaves every worker's parent as it was, whatever other layers are between the two lists |
| `Topology.ParentsNeverChange` | crates/pitboss-cli/src/communication.rs:1008-1038 | Over any run of registrations, reapings, removals and archivings, a parent once answered never changes; the lookup answers nothing exactly while the worker is neither indexed nor a root worker and all its layers are between the two lists |
| `Topology.ArchivedWorkersHaveTheirParent` | crates/pitboss-cli/src/dispatch/sublead.rs:1096-1111 | Whatever happens around a termination, its workers have their parent once the layer is archived |
| `Topology.DetachedWorkerIsOrphaned` | crates/pitboss-cli/src/dispatch/sublead.rs:1096-1111 | Between the removal from the live map and the push onto the terminated list a worker has no parent: a tree where the lookup fails |
| `Journal.ReplayJournal` | crates/pitboss-cli/src/communication.rs:296-393 | The reader loop equals the fold of the parsed lines over the empty memory |
| `Journal.HeldIffEffective` | crates/pitboss-cli/src/communication.rs:358-366 | After replaying records with fresh ids, an ack or grant is held exactly if it was before or some copy of it follows the record it acts on |
| `Journal.SameStoreIffOnTime` | crates/pitboss-cli/src/communication.rs:330-393 | Two orders of the same records rebuild the same messages and artifacts exactly when every ack and grant is on time in the second, given that it is in the first |
| `Journal.PrefixBelow` | crates/pitboss-cli/src/communication.rs:330-393 | Replaying a prefix of a journal never shows more than replaying all of it |
| `Journal.ReplayCores` | crates/pitboss-cli/src/communication.rs:330-393 | Everything in a rebuilt message or artifact except acks and grants is what its own record, or the memory before, says |
| `PlaneCalls.CallsInvStep` | crates/pitboss-cli/src/communication.rs:574-896 | Every step of every call, of the dispatcher and of a restart keeps the invariant of calls: roles, cleared recipients, held files, and a written memory behind each pending record |
| `PlaneJournal.JournalInvStep` | crates/pitboss-cli/src/communication.rs:602-614 | Every step keeps what replay would rebuild inside the live memory, with ids apart from those of pending calls |
| `PlaneEpoch.EpochInvStep` | crates/pitboss-cli/src/communication.rs:602-614 | Every step keeps the balance: records written to memory since the start are those appended plus those still owed |
| `PlaneEpoch.CountInvStep` | crates/pitboss-cli/src/communication.rs:262-282 | Every step keeps each live counter equal to the replayed one, plus calls in progress, plus calls that ended without a record |
| `PlaneAccess.AccessInvStep` | crates/pitboss-cli/src/communication.rs:927-995 | Every step keeps senders, recipients and ackers of messages within the tree |
| `PlaneAccess.DiskInvStep` | crates/pitboss-cli/src/communication.rs:707-799 | Every step keeps quotas, the agreement of files with artifacts, and every file accounted for by an artifact, a put in flight or a stray |
| `PlaneAccess.StraysInvStep` | crates/pitboss-cli/src/communication.rs:707-799 | Every step keeps stray files on disk, and no artifact takes their ids |
| `PlaneTheorems.ReplayInventsNothing` | crates/pitboss-cli/src/communication.rs:330-393 | In every run, replay rebuilds only messages, acks, artifacts and grants that live memory has, and each of those was written by a step of the run |
| `PlaneTheorems.ReplayEqualsLiveIffInTime` | crates/pitboss-cli/src/communication.rs:602-614 | With nothing pending and no harmed append, replay equals live messages and artifacts if and only if every ack and grant record reached the journal in time |
| `PlaneTheorems.CountersNeverAhead` | crates/pitboss-cli/src/communication.rs:337-392 | In every run a replayed counter is at most the live one |
| `PlaneTheorems.CountersEqualIff` | crates/pitboss-cli/src/communication.rs:618-690 | Without harmed appends a counter is rebuilt exactly when its actor has no call in progress and none that ended without a record (a list, a read, an error) |
| `PlaneTheorems.MessagesFollowTheTree` | crates/pitboss-cli/src/communication.rs:927-959 | Every stored message goes from the lead to anyone, from a sub-lead to root, itself or its own workers, or from a worker to its parent or itself, and every acker could read it |
| `PlaneTheorems.StraysHaveACause` | crates/pitboss-cli/src/communication.rs:738-774 | In every run a file is listed as stray for one of four reasons exactly if some step of the run made it so: a write that stopped half-way, a failed unlink, a restart that met its put in flight or before its record was appended, or a restart that met neither and yet does not find it |
| `PlaneTheorems.FilesAndQuotas` | crates/pitboss-cli/src/communication.rs:707-799 | In every run no owner is over the limit, each artifact file holds the bytes that were put, within the size limit, and the files without an entry are exactly those of puts in flight and those that a step of the run made stray |
| `PlaneTheorems.UnreadIffOwed` | crates/pitboss-cli/src/communication.rs:782-792 | With no append harmed since the last start, replay misses exactly the artifacts whose put still owes its record |
| `PlaneTheorems.UnreadIffNoRecordSurvives` | crates/pitboss-cli/src/communication.rs:782-792 | In every run, replay misses a live artifact exactly when its put still owes its record, or the record was appended and none that puts the artifact can be read |
| `PlaneTheorems.LostWasHarmed` | crates/pitboss-cli/src/communication.rs:401-448 | In every run, an artifact that a restart does not find, though it met no step of its put, had its record appended, and an append since the start before was harmed or that start found a journal that was unterminated or unreadable |
| `Mailbox.UnrecordedPutIsLost` | crates/pitboss-cli/src/communication.rs:782-792 | A put whose append fails returns Ok; no call is in progress, and a restart finds the file without its entry |
| `PlaneTheorems.WorkerReadsOnlyFromAbove` | crates/pitboss-cli/src/communication.rs:867-995 | If a worker can read an artifact it does not own, the run contains a grant to it by the root lead or its own parent sub-lead, who could read the artifact at that step |
| `PlaneTheorems.GrantSource` | crates/pitboss-cli/src/communication.rs:867-898 | The step and the grantor behind a grant held by a worker, for every run |
| `Mailbox.OvertakingAckIsLost` | crates/pitboss-cli/src/communication.rs:684-703 | A run where the ack record overtakes the send record: nothing pending, no harmed append, and a resumed process has the message without its ack |
| `Mailbox.VisibleStaysInTheSubtree` | crates/pitboss-cli/src/communication.rs:627-645 | A sub-lead or worker that lists visible messages sees its own and, for a sub-lead, those of its own workers only |
| `Mailbox.CommunicationStore.constructor` | crates/pitboss-cli/src/communication.rs:221-249 | A store opened on a journal holds the replay of its lines |
| `Mailbox.CommunicationStore.InsertMessage` | crates/pitboss-cli/src/communication.rs:585-609 | The send's memory write is the plane's step |
| `Mailbox.CommunicationStore.Ack` | crates/pitboss-cli/src/communication.rs:684-701 | Not found, forbidden or acked under the lock: memory, record and error are those of the plane's step |
| `Mailbox.CommunicationStore.CountOwned` | crates/pitboss-cli/src/communication.rs:757-761 | Counting over any iteration order gives the number of artifacts of the owner |
| `Mailbox.CommunicationStore.InsertArtifact` | crates/pitboss-cli/src/communication.rs:755-780 | The quota check and the insertion under one lock are the plane's step, for any iteration order |
| `Mailbox.CommunicationStore.Grant` | crates/pitboss-cli/src/communication.rs:876-893 | Not found, forbidden or granted under the lock, as the plane's step |
| `Mailbox.CommunicationStore.ListMessages` | crates/pitboss-cli/src/communication.rs:618-653 | The listing is the one sorted listing of the messages in scope; a refused scope is reported only if the store holds a message |
| `Mailbox.WorkerListsAllOfNone` | crates/pitboss-cli/src/communication.rs:618-653 | A worker that asks an empty store for all messages gets an empty list |
| `Mailbox.WorkerListsAllOfOne` | crates/pitboss-cli/src/communication.rs:618-653 | A worker that asks a store of one message for all messages is refused |
| `Mailbox.CommunicationStore.NoteMessageOp` | crates/pitboss-cli/src/communication.rs:262-271 | Only the named actor's message counter rises, by one; its artifact counter and every other actor stay, and the empty id is not counted |
| `Mailbox.CommunicationStore.NoteArtifactOp` | crates/pitboss-cli/src/communication.rs:273-282 | Only the named actor's artifact counter rises, by one; its message counter and every other actor stay, and the empty id is not counted |
| `Sorting.SortedVisitIsListing` | crates/pitboss-core/src/stream.rs:495-500 | Sorting the values of a map visited in any order gives the one ascending listing |
| `Sorting.ListingUnique` | crates/pitboss-core/src/stream.rs:495-500 | There is only one listing by end time and id |
| `Stream.BuildReplayItems` | crates/pitboss-core/src/stream.rs:479-526 | Replay items do not depend on map iteration order |
| `Stream.Tailer.EmitDiff` | crates/pitboss-core/src/stream.rs:405-477 | One poll does all of the specified tick, or stops at the refused send after a proper prefix of it |
| `Stream.TickInv` | crates/pitboss-core/src/stream.rs:405-477 | A tick keeps gap-free numbers from 1, rising end times per task, at most one closing item, and the consumer's view equal to what was sent |
| `Stream.TickConvergesIff` | crates/pitboss-core/src/stream.rs:405-456 | A tick leaves the consumer with exactly the snapshot if and only if the snapshot advances what it had |
| `Stream.TailConverges` | crates/pitboss-core/src/stream.rs:371-477 | Over any sequence of advancing snapshots the last-wins fold of emitted tasks is the latest snapshot, numbers are 1, 2, 3, ..., end times rise per task, and a single Finalized comes last |
| `Stream.TailOrdered` | crates/pitboss-core/src/stream.rs:371-477 | Numbering, rising end times and the single closing item need no condition on the snapshots |
| `Stream.RewriteWithSameEndIsMissed` | crates/pitboss-core/src/stream.rs:428-435 | A record rewritten with the same end time is never sent again |
| `Stream.FirstTickIsReplay` | crates/pitboss-core/src/stream.rs:405-526 | The first tick and replay send the same items, equal in full exactly when finalized, empty, or in a directory named by the nil id |
| `Stream.ForwardLive` | crates/pitboss-core/src/stream.rs:273-301 | Live items are numbered onward from the start, sticking at the largest 64-bit number |
| `Stream.ReplayThenLive` | crates/pitboss-core/src/stream.rs:148-177 | Replay followed by live has gap-free numbers across the seam until saturation |
| `Follower.LogFollower.PollOnce` | crates/pitboss-cli/src/attach.rs:236-294 | One poll: stat, read from the offset, split, drain, as the specification function says, with the stop rule |
| `Follower.LogFollower.SplitBuffer` | crates/pitboss-cli/src/attach.rs:260-289 | The in-place scan writes every complete non-empty line and keeps the unterminated rest |
| `Follower.ChunksDoNotMatter` | crates/pitboss-cli/src/attach.rs:232-296 | However an append-only file is cut into polls, the lines written are the complete non-empty lines after the seed, each once, and the buffer is the unterminated suffix |
| `Follower.ExitsOnFirstResult` | crates/pitboss-cli/src/attach.rs:280-293 | Formatted mode leaves on the first poll that completes a result event, having written all of that poll's lines |
| `Follower.PollExactIff` | crates/pitboss-cli/src/attach.rs:243-260 | From an exact state, one poll leaves the offset, the lines and the buffer in step with each other if and only if nothing grew between check and read, or only newlines did at a line boundary |
| `Follower.SessionExactIff` | crates/pitboss-cli/src/attach.rs:243-260 | Over any session on a growing file: the lines written and the buffer are those of the bytes read, each once, if and only if every byte that arrived inside an earlier poll is a newline |
| `Follower.GrowthInsidePollDuplicates` | crates/pitboss-cli/src/attach.rs:243-260 | Two lines, the second arriving inside a poll: it is written twice |
| `Follower.SeamIsSoundIff` | crates/pitboss-cli/src/attach.rs:207-228 | Seed and tail together show the file's lines exactly when the seed stops at a line boundary or just before a newline |
| `Bridge.Reachable` | crates/pitboss-web/src/control_bridge.rs:127-318 | Every interleaving of subscriptions, lock acquisitions, chunk writes, releases, dropped sends and pump exits keeps: a generation is registered, under its own run, exactly until its pump has cleaned up; a lock has one holder, the last sender to take it; a wire is its hello and what each turn wrote |
| `Bridge.OneLiveGenerationPerRun` | crates/pitboss-web/src/control_bridge.rs:149-152 | At most one connection of a run has a pump that has not cleaned up |
| `Bridge.CleanupRemovesOwnEntry` | crates/pitboss-web/src/control_bridge.rs:300-312 | At clean-up the registered entry is always the pump's own (the same-channel guard never fails), no other entry is touched, and the next call registers a new generation |
| `Bridge.LiveEntryIsReused` | crates/pitboss-web/src/control_bridge.rs:149-153 | While a pump is up, further calls share its connection |
| `Bridge.OneWriterAtATime` | crates/pitboss-web/src/control_bridge.rs:116-144 | Two senders never hold one connection's write lock at once |
| `Bridge.WireIsHelloThenLines` | crates/pitboss-web/src/control_bridge.rs:116-144 | In every run a socket carries its hello and then, in the order the lock was taken, each sender's line, or the beginning of it that an error or a dropped future left; the dispatcher reads the hello and exactly the whole lines if and only if no whole line follows a cut one |
| `Bridge.CutLineIsGlued` | crates/pitboss-web/src/control_bridge.rs:141-143 | Any send dropped after some bytes of its text, with another op waiting: the dispatcher reads that op, sent whole, glued to those bytes |
| `Bridge.SendLandsOnRegisteredIff` | crates/pitboss-web/src/control_bridge.rs:136-144 | In every run the bytes of a write go to the connection its sender took, to no other, and that is the registered one if and only if its pump has not cleaned up |
| `Bridge.StaleSendMissesNewConnection` | crates/pitboss-web/src/control_bridge.rs:136-144 | A run in which a sender's op goes to the dead connection while a new one is registered and gets nothing |
| `Bridge.ControlBridge.EnsureConnected` | crates/pitboss-web/src/control_bridge.rs:149-318 | Success gives a registered connection whose pump is up; a missing socket, a refused and a broken connection are told apart and register nothing |
| `Bridge.ControlBridge.BeginSend` | crates/pitboss-web/src/control_bridge.rs:127-137 | A client hello is refused before connecting; on success one more sender waits, on a registered connection |
| `Bridge.ControlBridge.TryLock` | crates/pitboss-web/src/control_bridge.rs:141 | The lock is taken exactly if it is free |
| `Bridge.ControlBridge.WriteAll` | crates/pitboss-web/src/control_bridge.rs:138-144 | However the socket cuts the line into chunks, success puts exactly the line on it and an error a beginning of the line, and the lock is given back |
| `Bridge.ControlBridge.FinishPump` | crates/pitboss-web/src/control_bridge.rs:300-312 | The pump's exit removes only its own entry |
| `Codecs.LawfulFormatsExist` | crates/pitboss-core/src/store/record.rs:204-241 | Some summary format reads back as written |
| `RunDirs.OverlayIdempotent` | crates/pitboss-core/src/store/summary.rs:117-141 | Overlaying the rows again on their own result changes nothing |
| `RunDirs.ListingReadsBack` | crates/pitboss-core/src/store/summary.rs:98-115 | The sorted tasks of a snapshot read back into the same map |
| `RunDirs.CountsAgree` | crates/pitboss-cli/src/diff.rs:63-66 | Failures counted over the sorted tasks are those counted over the map |
| `RunDirs.SynthesizedIff` | crates/pitboss-cli/src/prune.rs:200-228 | For a selected run a summary can be built exactly when meta.json reads, and it is marked interrupted |
| `RunDirs.UntouchedReadsAlike` | crates/pitboss-core/src/atomic_write.rs:13-20 | A leftover temporary file changes no reading of the directory |
| `RunDirs.PrunedRunReadsBack` | crates/pitboss-cli/src/prune.rs:182-228 | A pruned run is Cancelled and never selected again; its tasks read back unchanged, its failure count is the one listed before, and its total falls to the settled count exactly if more task directories than records existed |
| `Prune.SettledIsOldOrCancelled` | crates/pitboss-cli/src/prune.rs:182-190 | Whatever point the sweep is cut at, a selected run keeps its entry or is Cancelled, never anything read from a half-written summary, with the same tasks and failures |
| `Prune.InterruptedRemoval` | crates/pitboss-cli/src/prune.rs:230-239 | A removal cut off half-way is never finalized; it shows as Running exactly if the unreadable summary is gone while the socket answers or the rows are recent |
| `Prune.RemovalShowsRunning` | crates/pitboss-cli/src/prune.rs:230-239 | A directory with an unparseable summary and fresh rows: Aborted before, Running after the summary alone is removed |
| `Prune.BuildSynthesized` | crates/pitboss-cli/src/prune.rs:200-228 | The summary built by collecting, sorting and counting equals the specified one, for any iteration order |
| `Prune.RunsBase.WriteAtomic` | crates/pitboss-core/src/atomic_write.rs:23-41 | Byte by byte, with every call free to fail or be the last: the target is its old self or the whole new contents, success means written and the temporary gone, a reported failure means unchanged |
| `Prune.RunsBase.SynthesizeSummary` | crates/pitboss-cli/src/prune.rs:182-190 | Success means the directory holds the built summary; a reported failure means nothing but the temporary file changed |
| `Prune.RunsBase.RemoveRun` | crates/pitboss-cli/src/prune.rs:230-239 | Files and task directories go one by one, in any order; success means the run is gone, otherwise some may be and the rest are as they were; its leftover socket goes only after the directory, and no other run's |
| `Prune.RunsBase.RemoveAll` | crates/pitboss-cli/src/prune.rs:231-232 | Whatever call fails or is the last, what remains is part of what was there |
| `Prune.RunsBase.SelectCandidates` | crates/pitboss-cli/src/prune.rs:143-180 | Exactly the Stale runs, and the Aborted ones on request, that are old enough, each once, with status, age and counts |
| `Prune.RunsBase.Sweep` | crates/pitboss-cli/src/prune.rs:113-139 | Runs not selected keep directory and socket, a dry run changes nothing, and each outcome is as reported, also if the process dies on the way |
| `Ranking.RankAll` | crates/pitboss-cli/src/analyze.rs:451-452 | Entries by falling score, ties in key order, each once |
| `Ranking.RankingUnique` | crates/pitboss-cli/src/analyze.rs:451-452 | A ranking is determined by its map |
| `Sums.BucketsMean` | crates/pitboss-cli/src/analyze.rs:426-448 | The bucket map has an entry for exactly the keys that occur, and each field of an entry is the sum over that key's items |
| `Sums.RollupConserves` | crates/pitboss-cli/src/analyze.rs:401-460 | Summing the rows of a rollup gives the total of the records, for tasks, every token field and cost |
| `Rollups.BuildCostRollup` | crates/pitboss-cli/src/analyze.rs:401-460 | Total cost is lead plus worker cost and the sum over records, the rows are the ranked rollup by model, priced and unpriced records add up |
| `Rollups.AggregateModels` | crates/pitboss-cli/src/analyze.rs:606-641 | The cross-run model table is the rollup of the runs' rows |
| `Rollups.AggregateIsOneRollup` | crates/pitboss-cli/src/analyze.rs:562-641 | Aggregating the runs' rollups is one rollup over all their records: same rows, same order, same sums; the cross-run total is their cost |
| `Failures.BuildFailureGroups` | crates/pitboss-cli/src/analyze.rs:462-493 | The groups are the ranking, by count, of the buckets |
| `Failures.GroupsDescribe` | crates/pitboss-cli/src/analyze.rs:464-488 | A kind has a group exactly if a failed record has it; the group lists exactly its members in order, the first excerpt there is, and each status once |
| `Failures.GroupsPartitionFailures` | crates/pitboss-cli/src/analyze.rs:462-493 | Group counts add up to the number of failed records, kinds are distinct, counts fall |
| `Failures.BuildHistogram` | crates/pitboss-cli/src/analyze.rs:588-637 | The histogram is the ranking of the bars over all runs |
| `Failures.ExampleIsFromNewestRun` | crates/pitboss-cli/src/analyze.rs:588-603 | Each bar's example comes from the first run, newest first, that has failures of the kind |
| `Failures.BarsCountEveryFailure` | crates/pitboss-cli/src/analyze.rs:592-603 | A bar counts exactly the failures of its kind over all records of all runs |
| `Reports.ComputeTotals` | crates/pitboss-cli/src/diff.rs:245-275 | Run totals are the counts and the wall time of the summary, and the sums of every token field and of the costs found through the model map |
| `Reports.CostsAgreeIff` | crates/pitboss-cli/src/diff.rs:251-260 | diff and analyze put the same cost on a record exactly when it is stored, the record names no model, its own family is the map's, or it used no tokens |
| `Reports.TotalsDifferByGaps` | crates/pitboss-cli/src/diff.rs:245-275 | For every run the totals of the two reports are apart by the summed gaps of its records off that basis, so they are equal if and only if the gaps cancel; token sums always agree |
| `Reports.SwappedModelsCancel` | crates/pitboss-cli/src/diff.rs:255-258 | Two records off the basis, Opus under a Sonnet entry and Sonnet under an Opus entry, hide each other: the totals are equal |
| `Reports.ReportsAgree` | crates/pitboss-cli/src/diff.rs:245-275 | The totals of the two reports agree when every record is priced on the same basis; token sums always do |
| `Reports.OneOffBasisTotalsDiffer` | crates/pitboss-cli/src/diff.rs:251-260 | A run with exactly one record off that basis gets two totals, apart by that record's two prices |
| `Reports.OpusUnderSonnetEntry` | crates/pitboss-cli/src/diff.rs:255-258 | A record naming an Opus model where the manifest has Sonnet: analyze reports five times the cost diff does |
| `Reports.BuildReport` | crates/pitboss-cli/src/diff.rs:282-326 | Run ids, pairs, only-A and only-B as specified from the two record lists, and the totals of each run, A's as A's |
| `Reports.ReportPartitionsIds` | crates/pitboss-cli/src/diff.rs:293-316 | Over unique ids each id is listed exactly once, as a pair, as only-A or as only-B |
| `Reports.PairsAreFaithful` | crates/pitboss-cli/src/diff.rs:227-243 | A pair sets status, duration, tokens and cost of the two runs' own records of that id side by side, A's on the left |
| `Text.ContainsByLine` | crates/pitboss-core/src/failure_classify.rs:194-298 | A marker without line ends occurs in a log exactly if it occurs in one of its lines |
| `Classify.ClassifyIsVerdict` | crates/pitboss-core/src/failure_classify.rs:67-136 | The kind is a function of which event lines and marked lines exist |
| `Classify.KindIgnoresLineOrder` | crates/pitboss-core/src/failure_classify.rs:67-136 | Logs with the same lines in any order get the same kind, unless one cuts a code point where its banner is read |
| `Classify.AuthWins` | crates/pitboss-core/src/failure_classify.rs:73-113 | On every log that does not abort: auth failure exactly when an event says so, or the markers do and no event reports an overlong context; a rate limit only without any auth evidence, and exactly when an event or, without an argument event, a marker says so |
| `Classify.ExcerptFits` | crates/pitboss-core/src/failure_classify.rs:377-501 | Every excerpt has at most 240 code points and is the end of the last line or of a message in its event, or the truncation marker with the last 80 |
| `Classify.MessagesFit` | crates/pitboss-core/src/failure_classify.rs:67-136 | The message of every verdict has at most 240 code points |
| `Classify.ResetAbortsIff` | crates/pitboss-core/src/failure_classify.rs:230-237 | Reading a reset time, and cutting the excerpt for the log, abort exactly when no separator follows and byte 40, or byte 80, falls inside a code point |
| `Classify.WideFortiethByteAborts` | crates/pitboss-core/src/failure_classify.rs:511-514 | A concrete family of banners on which it aborts |
| `Classify.ClassifyAbortsIff` | crates/pitboss-core/src/failure_classify.rs:67-136 | Classification aborts exactly on a rate-limit event whose message is cut inside a code point at byte 40, or where the banner decides, is marked, and is so cut at byte 40, or has no reset time, warnings are on, and is cut at byte 80 |
| `Classify.LoggedExcerptAborts` | crates/pitboss-core/src/failure_classify.rs:215 | A log whose byte 40 is a boundary and whose byte 80 is not: with warnings on, writing the warning aborts |
| `Calendar.YearStartFormula` | crates/pitboss-core/src/failure_classify.rs:527-541 | The day number of a new year has the closed Gregorian form, for years before and after the first |
| `Calendar.NextYearSameDate` | crates/pitboss-core/src/failure_classify.rs:535-540 | A date falls 365 or 366 days later in the next year |
| `ResetTime.ResetWithinAYear` | crates/pitboss-core/src/failure_classify.rs:511-543 | The reset time is at or after now and less than 366 days ahead, exactly when it is not a 29 February already past, which comes back as the past instant |
| `ResetTime.LeapDayBannerIsPast` | crates/pitboss-core/src/failure_classify.rs:532-543 | "resets Feb 29, 1am" read a minute past that in any leap year gives an instant a minute ago |
| `ResetTime.BannerReadsBack` | crates/pitboss-core/src/failure_classify.rs:511-530 | Every month, day and time, written as a banner, is read back |
| `ResetTime.ResetDependsOnNowAlone` | crates/pitboss-core/src/failure_classify.rs:522-543 | Every instant lies in a year, and the reset time is the same for every year it could be said to lie in |
| `ResetTime.ResetIsNextOccurrence` | crates/pitboss-core/src/failure_classify.rs:532-543 | No year has the banner's date and time between now and the returned instant |
| `ResetTime.ClockReadsBack` | crates/pitboss-core/src/failure_classify.rs:565-589 | Every time of day, written on the twelve-hour clock with or without minutes, is read back |
| `ResetTime.TwelveHourClockIsOneToOne` | crates/pitboss-core/src/failure_classify.rs:582-587 | The twelve-hour conversion is one to one onto the hours of the day, with pm the upper half |
| `Tui.PagesPartitionTiles` | crates/pitboss-tui/src/state.rs:509-543 | Each tile is on exactly one page; the completed page lists each once, latest first |
| `Tui.SnapshotFocusInRange` | crates/pitboss-tui/src/state.rs:946-992 | After any snapshot from any state the focus is in range when tasks exist, and on the grid it is on an active tile if there is one |
| `Tui.FocusMovesOnlyWithNotice` | crates/pitboss-tui/src/state.rs:549-574 | The focus keeps its id while present and allowed to; gone ids are named in the notice; otherwise it moves to the first active tile and a notice stands |
| `Tui.QueueStaysConsistent` | crates/pitboss-tui/src/app.rs:916-984 | Over all runs of events queued ids are unique, the selection is in range, and an open modal shows a queued request |
| `Tui.RequestsLeaveOnlyAnswered` | crates/pitboss-tui/src/app.rs:1372-1432 | A queued request leaves only by its own answer, sent while there is a client, or by a run switch |
| `Tui.ConnectedIff` | crates/pitboss-tui/src/app.rs:133-134 | Over all runs of events the TUI counts as connected exactly if the last start or run switch obtained a client and no end of the connection followed |
| `Tui.DeadAnswerIff` | crates/pitboss-tui/src/app.rs:1372-1404 | After any run, a key sends an answer over a dead connection if and only if a client was obtained, the connection has ended since, and a modal is open in which that key answers |
| `Tui.ModalWasReopened` | crates/pitboss-tui/src/app.rs:971-984 | In any run, an open modal was opened by a request or from the list after the last end of the connection |
| `Tui.AnswerAfterTheEndIsAccepted` | crates/pitboss-tui/src/app.rs:971-984 | Such a run: a request reopened from the list after the end is answered and leaves the queue |
| `TuiState.AppState.ApplySnapshot` | crates/pitboss-tui/src/state.rs:946-992 | The in-place update is the specified one |
| `TuiState.AppState.EnsureActiveFocus` | crates/pitboss-tui/src/state.rs:549-574 | The in-place refocus is the specified one |
| `TuiState.AppState.EnterDetailFor` | crates/pitboss-tui/src/state.rs:641-696 | Entering the detail view focuses the viewed tile and remembers the page |
| `TuiState.AppState.LeaveDetail` | crates/pitboss-tui/src/state.rs:701-708 | Leaving the detail view never opens a modal: from a consistent state it ends on the grid or the completed page, with the queue invariant kept |
| `TuiState.AppState.ApplyApprovalRequest` | crates/pitboss-tui/src/app.rs:924-970 | A request is queued once, opens the modal, and keeps the queue invariant |
| `TuiState.AppState.ApplyConnectionEnded` | crates/pitboss-tui/src/app.rs:971-984 | The end of the connection closes an open modal, keeps the client, and leaves every queued request and the queue invariant in place |
| `TuiState.AppState.ApplyApproveToList` | crates/pitboss-tui/src/app.rs:1417-1432 | The named request is taken out and the selection clamped |
| `TuiState.AppState.SubmitAnswer` | crates/pitboss-tui/src/app.rs:1372-1404 | Without a client nothing is sent and nothing leaves the queue |
| `TuiState.AppState.HandleApprovalKey` | crates/pitboss-tui/src/app.rs:1110-1274 | A key in the modal is the machine's step and keeps the queue invariant; control-C, and a plain q in the overview only, quit with nothing sent or removed |
| `TuiState.AppState.MoveSelectionDown` | crates/pitboss-tui/src/approval_list.rs:27-31 | The selection moves down modulo the queue |
| `TuiState.AppState.MoveSelectionUp` | crates/pitboss-tui/src/approval_list.rs:33-41 | The selection moves up modulo the queue |
| `TuiState.AppState.OpenCurrent` | crates/pitboss-tui/src/app.rs:544-563 | With a consistent, non-empty queue the modal opens on the selected request, which is queued, with its plan and kind |
| `TuiState.AppState.SwitchRun` | crates/pitboss-tui/src/app.rs:178-208 | A switch is the machine's step and leaves a consistent queue from any state, consistent or not |

## Left out

- Checks and commit of one send or grant call: resolving the recipient and the send check are one step
  (the code takes several locks in a row); the memory write is a separate, later step.
- Ids, digests, uris and clocks: message and artifact ids are fresh ids drawn from one set, SHA-256 and
  uri fields are not kept, times are parameters.
- JSON and base64: abstract codecs; the hypotheses are that parsing undoes encoding and that encodings
  are UTF-8 without newlines and not prefixes of each other. Base64 decoding either gives bytes or fails.
- An append is one indivisible prefix of its line: short writes of two calls interleaved in the journal,
  or a line above the file buffer split by another append, are not modelled.
- Power loss: a crash ends the process; what was written to a file stays written. Artifact files are
  not synced by the code, so this model says nothing about them after a power loss.
- Roles are bound to ids, and an id is registered under one layer only; the configured limits do not
  change over a resume.
- Contents returned by `message_read`, `artifact_read` and `artifact_list`: queries count and end; the
  message listing is modelled.
- Disk errors while reading, and readers running while a writer is half-way: each read sees one state.
- `RunSnapshotReader`: the incremental reader is taken as the map it maintains, one record per task id.
- The seed of the log follower is the size it read, with the seam condition stated for it; sleeping,
  terminal output and event formatting are not modelled.
- The choice between TCP and Unix sockets of the control bridge, its writer drain task and the delivery of
  events to subscribers; what dialling comes to is a parameter. A text that cannot be serialized.
- Order of the prune report and of the run list by modification time; a directory read error.
- Rounding: costs are reals, token sums unbounded naturals.
- Headers, hotspots, `top_runs`, labels and rendering of the analysis: short selections without a
  cross-function property.
- `resolve_run_dir_by_prefix`: a short scan with an exact-match shortcut.
- `enrich_with_resume_hint`, and the text of the classifier's log lines; whether warnings are logged is
  a parameter.
- The range of years of the date library: years are unbounded integers.
- Failure reasons in the reports are a kind label with its rendered text.
- Terminal UI handlers other than the approval modal, the list pane and the snapshot are one step that
  changes mode, focus and pane arbitrarily outside the modal; quitting elsewhere than in the modal, mouse
  rectangles, scrolling, the policy editor and the sub-tree containers are not modelled.
- Stream.ReplayThenLive: reconnection and the handshake with the dispatcher are not modelled.
