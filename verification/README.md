# Atlas: a verified model of its durable protocols

Atlas is a single-owner agent runtime. Its hard parts are protocols over durable rows: compare-and-set
steps, crash recovery, cursors and ledgers. This project models those protocols in Dafny and proves what
they promise, over every input, every interleaving or every run.

| files | part of Atlas |
|---|---|
| `Ledger`, `LedgerInvariants`, `LedgerWrites`, `LedgerRuns`, `LedgerTheorems`, `AuthorityStore` | the action authority ledger: actions, owner attention, run status, and the races around them |
| `Discovery`, `SweepFairness` | the background memory discovery sweep: no turn skipped, bounded waiting |
| `TranscriptIndex`, `IndexRuns`, `Coverage` | greedy chunking from a durable cursor, and the report made about the index |
| `RankFusion` | reciprocal-rank fusion of two retrievers |
| `WorkingContext` | staged reduction of a prompt under a token budget |
| `RateLimiter` | the sliding-window limiter against a full-history specification |
| `ExplicitObligation` | settlement of explicit memory requests |
| `Whitespace`, `EvidenceKey`, `Candidates`, `CandidateTheorems` | intake of memory candidates and their dedupe key |
| `Processes`, `SessionLog`, `CodingSession` | process groups, the replayed log of a session, and the coding session machine |
| `BackupTree`, `Backup`, `BackupRun`, `Restore` | crash-safe backup and restore |

The shape is the same throughout. Each transaction or operation is a function on the committed rows; classes
carry the imperative form of the source and are proved equal to those functions; a `Next`/`Run` machine lets
the steps interleave wherever the code opens separate sessions; and the theorems are about whole runs.
The Python code works in place, so `AuthorityStore`, `DiscoveryService`, `TranscriptIndexer`, `Limiter`,
`ObligationStore`, `CandidateRepository`, `Session`, `Volume` and `Target` are classes whose methods loop and
assign as the source does.

`dafny verify dfyconfig.toml` checks everything.

## Assumptions

- SHA-256 is collision-free: a digest is modelled by what was digested.
- Turns are appended in increasing order of sequence, and a deleted turn never returns.
- An action's `target_hash` is never rewritten; everything else stored about a proposal may be (`Tamper`).
- Clocks are monotone. A process id is not reused within one clock tick, nor while a process or group uses it.
- A process joins a group only while the group has a live member, and a session leader keeps its group.
- Identifiers are row positions, so they are never reused.
- Rank arithmetic is over real numbers.

## What the proofs found

- **Run status can be stored stale.** `begin_automatic_execution`, `record_execution` and the first half of
  abandoned-run recovery do not recompute the run. `LedgerInvariants.AgreementKeptExactly` says precisely when
  a transaction leaves the stored status different from the derived one; `LedgerTheorems.StoredStatusCanBeStale`
  reaches such a state in three steps.
- **An index bound beyond the transcript hides later turns.** `index_transcript` moves its cursor to the bound
  when there is nothing to index. `IndexRuns.IndexThroughExactly` gives the exact condition, and
  `IndexRuns.OverreachSkipsForever` a turn that no later call can index. The cutoffs `run_once` itself chooses
  never overreach (`IndexRuns.CutoffWithin`).
- **A resolution of "published" passed by a caller fails the command.** `ExplicitObligation.AgreementKeptExactly`
  is the exact condition; `ExplicitObligation.PublishedButFailed` is the case. The two callers that name a
  resolution today pass "superseded" and "evidence_purged", so none of them meets it.
- **The rate bound is for half-open windows.** A closed window holds at most the limit exactly when every accepted
  attempt had room with the far end of its window counted (`RateLimiter.ClosedWindowsExactly`), which can be read
  off the bucket's deque before the call if the clock has moved since the last attempt; at an equal reading the deque
  falls short by what an attempt at that reading has popped (`RateLimiter.RoomTest`). For every limit there is a run in which it does
  not (`RateLimiter.ClosedWindowOverflows`).
- **A stale attempt can be counted twice.** When recording a stale discovery attempt raises, it counts as stale and
  as a failure. The counters exceed the batch by exactly the number of such attempts, so they add up to it if and only
  if there is none (`SweepFairness.DiscoveryService.RunOnce`); `SweepFairness.CountedTwice` is such an attempt.
- **An attempt that leaves no stamp can be repeated, and can starve others.** The waiting bound holds with the number
  of such attempts added (`SweepFairness.AttemptedWithinBound`). Without that it is false: for every batch size, with
  one transcript more than a batch holds, there are runs of any length in which the last one stays eligible and is
  never attempted (`SweepFairness.UnstampedStarves`).
- **A second explicit request for one candidate is left pending.** Two requests that cite the same evidence meet the
  same open candidate, and settling it resolves the oldest only. After a terminal settlement none is pending if and only
  if there was at most one (`ExplicitObligation.TerminalSettlesExactly`, `ExplicitObligation.SecondRequestLeft`).
- **Claiming a queued run overwrites its status.** That keeps an uncertain run uncertain only because a queued run owns
  no action (`LedgerInvariants.ClaimKeepsExactly`).
- **The dedupe key compares reference text.** `evidence_set_hash` alone tells a repeated citation from a single
  one (`EvidenceKey.BareHashSeesRepetition`); `enqueue` removes repetitions first. One block cited under two
  spellings of its span has two keys (`CandidateTheorems.SpellingsDiffer`); spans of a turn share a key exactly when
  their collapsed text is the same (`CandidateTheorems.SpanKeysExactly`).
- **The group liveness test can mistake a stranger for its own group.** The start time is compared only while
  the leader is alive, and only if it could be read. `Processes.AliveExactly` gives the wrong cases, `Processes.ReusedNumberAlarms` an
  instance. The error is on the safe side for "is it dead", which is what cancellation relies on.
- **A cancelled session's group can outlive its cancellation.** The scan for group members reads one process after
  another. A group whose live members take turns, none of them there from the first read to the last, can pass it
  unseen, and only such a group can (`Processes.ScanMissesExactly`, `Processes.ScanCanMiss`). So "cancel returned,
  nothing is alive", "not running, so dead" and "no turn beside a live one" hold with that exception, and each
  contract of `CodingSession.Session` names it (`SessionLog.Missed`), over a log that is a replay of what happened. It
  takes a process entering the group: where nobody enters it during the call, it is dead (`SessionLog.UndisturbedSeen`).
  After a kill signal that reaches every member there is no exception.
- **A launch whose record is lost cannot be cancelled.** After a spawn, everything alive is within reach of a
  cancellation if and only if the record was written, short of a coincidence of process numbers
  (`CodingSession.LostLaunchExactly`, `CodingSession.Session.Launch`); otherwise the next turn is launched beside it
  (`CodingSession.LostLaunchDoubles`).
- **A directory added to a backup goes unseen.** Under the original marker, a snapshot is acceptable exactly when its
  regular files are the original ones (`BackupTree.AlteredExactly`). Directories are not in the manifest, so an added
  one is restored with the rest (`Restore.AddedDirectoryRestored`).
- **Restore tests artifact rows last.** The comment that a partial directory is never restorable holds, but the
  rows are compared with the artifacts after the targets were written. `Restore.Target.RestoreFrom` states exactly
  when that leaves written targets behind a failure; `Restore.LateTestExample` is a snapshot that does it; a
  finished backup never does (`Restore.BackupRoundTrip`).

## Model

| member | source | states |
|---|---|---|
| `Authority.AuthorityStore.RecomputeRun` | backend/atlas/actions/authority.py:335-360 | the scan of a run's actions stores the one label whose meaning fits them and the inference, with a finish time exactly when nothing of the run is open; no other row changes |
| `Authority.AuthorityStore.Create` | backend/atlas/actions/authority.py:115-127 | refused exactly when the transcript has a live foreground run; otherwise a running row with a fresh heartbeat is appended and nothing else changes; the invariant is kept |
| `Authority.AuthorityStore.PrepareProposal` | backend/atlas/actions/authority.py:148-180 | exactly for a run that is there and not blocked by its task: one prepared row, intact for an hour and not after, one open attention row, a recomputed run; the invariant is kept |
| `Authority.AuthorityStore.Record` | backend/atlas/actions/authority.py:129-146 | one finished row is added and nothing else written; the invariant is kept; the run keeps agreeing with its derived status unless a failure is recorded on a run stored as succeeded or cancelled |
| `Authority.AuthorityStore.Begin` | backend/atlas/actions/authority.py:207-223 | exactly for a prepared action whose evidence is intact, unexpired and of the reviewed digest, under an active task: that row becomes executing from now; each refusal names its cause; the invariant is kept |
| `Authority.AuthorityStore.BeginAutomaticExecution` | backend/atlas/actions/authority.py:225-248 | one executing row without approval is added and nothing else written; the invariant is kept; the run keeps agreeing exactly when it was stored as running or uncertain |
| `Authority.AuthorityStore.CancelAction` | backend/atlas/actions/authority.py:372-382 | exactly a prepared action becomes cancelled; its open attention is resolved, its run recomputed, no other row changes; the invariant is kept |
| `Authority.AuthorityStore.CompleteAction` | backend/atlas/actions/authority.py:384-408 | exactly an executing action takes exactly the outcome given; uncertain leaves one open row in doubt, another outcome resolves it; the run is recomputed and no other row changes; the invariant is kept |
| `Authority.AuthorityStore.AcknowledgeAction` | backend/atlas/actions/authority.py:304-320 | exactly an uncertain action not yet acknowledged is marked so and its open row resolved; runs stay; the invariant is kept |
| `Authority.AuthorityStore.Finish` | backend/atlas/actions/authority.py:362-370 | exactly a running, active inference ends, as succeeded or failed as told, and the run is recomputed; actions and attention stay; the invariant is kept |
| `Authority.AuthorityStore.NoteUncertainOutcome` | backend/atlas/actions/authority.py:438-467 | with at most one open row: it says uncertain afterwards, or a new one does, and the run is uncertain and unfinished; no other row changes |
| `Authority.AuthorityStore.ResolveOpen` | backend/atlas/actions/authority.py:469-476 | with at most one open row: it is resolved and the run recomputed; no other row changes |
| `Authority.AuthorityStore.ReconcileStaleExecutions` | backend/atlas/actions/authority.py:411-436 | each execution begun before the bound whose run has no active inference with a beat since becomes uncertain, no other action changes, their number is returned, and the invariant is kept |
| `Authority.AuthorityStore.SettledActions` | backend/atlas/api/app.py:1414-1449 | the loop over the pending list returns exactly the actions the checkpoint may drop |
| `LedgerWrites.DerivedExactly` | backend/atlas/actions/authority.py:335-360 | each run status holds exactly when what it means does: succeeded when every action succeeded, interrupted or failed by the inference or a failed action, waiting, running, uncertain; it is final exactly when nothing is open |
| `LedgerWrites.PrepareWrites` | backend/atlas/actions/authority.py:148-180 | a proposal names the run, operation and arguments, is sealed to the owner, and its evidence verifies at exactly the moments of the next hour |
| `LedgerWrites.BeginWrites` | backend/atlas/actions/authority.py:182-223 | what beginning an execution takes, if and only if; and what each refusal says |
| `LedgerWrites.HeadIsFirst` | backend/atlas/actions/authority.py:159 | the default capability is what comes before the first dot of the operation |
| `LedgerWrites.CompleteWrites` | backend/atlas/actions/authority.py:384-408 | the exact condition and the rows of a completion, and which refusal is given when |
| `LedgerInvariants.CommitKeepsInv` | backend/atlas/actions/authority.py:115-476 | every transaction keeps the agreement of actions, attention and runs |
| `LedgerInvariants.CommitEvolves` | backend/atlas/actions/authority.py:207-436 | every transaction moves each action along the allowed transitions and never rewrites its identity or digest |
| `LedgerInvariants.NeverMultipleRows` | backend/atlas/actions/authority.py:469-476 | the at-most-one-open-row query never finds two |
| `LedgerInvariants.RefreshAgrees` | backend/atlas/actions/authority.py:335-360 | after every step that recomputes a run its stored status is the derived one |
| `LedgerInvariants.AgreementKeptExactly` | backend/atlas/actions/authority.py:129-146 | a transaction keeps a run's stored status equal to the derived one if and only if it is not one of the enumerated stale-leaving writes |
| `LedgerInvariants.InterruptKeeps` | backend/atlas/runtime/recovery.py:77-169 | interrupting a running or queued run ends its inference as interrupted, turns exactly its executing actions uncertain, leaves at least one open notice if no managed task answers for it, recomputes the run and keeps the invariant |
| `LedgerInvariants.DismissKeeps` | backend/atlas/actions/authority.py:278-302 | dismissing interruption notices resolves every one of them, leaves the rows of actions and resolved rows alone and keeps the invariant |
| `LedgerInvariants.AbandonKeeps` | backend/atlas/runtime/recovery.py:172-201 | withdrawing inference ownership keeps the invariant |
| `LedgerInvariants.QueueRunKeeps` | backend/atlas/schedules/runner.py:38-54 | queueing an occurrence keeps the invariant, and the new run owns no action |
| `LedgerInvariants.ClaimKeepsExactly` | backend/atlas/schedules/runner.py:141-158 | claiming a queued run keeps the invariant if and only if it owns no uncertain action |
| `LedgerWrites.ClaimedOnce` | backend/atlas/schedules/runner.py:141-158 | a claim is won once: the run then works and beats, a second claim changes nothing, and its end is accepted |
| `LedgerWrites.BeatSpares` | backend/atlas/runtime/recovery.py:38-50 | a beat spares a run's executions from exactly the sweeps whose bound it reaches, if its inference is active |
| `LedgerWrites.AbandonedRun` | backend/atlas/runtime/recovery.py:172-201 | a run whose ownership was withdrawn cannot end itself any more, is spared by no sweep and can be interrupted |
| `LedgerRuns.NextKeepsInv` | backend/atlas/api/app.py:785-856 | review, approve, dispatch, finish, crash, sweep and every transaction, interleaved at will, keep the world's invariant |
| `LedgerRuns.TokenKeeps` | backend/atlas/api/app.py:826-856 | the process whose begin commits becomes the only one able to dispatch the action |
| `LedgerRuns.TokenSpent` | backend/atlas/api/app.py:826-856 | dispatching uses that right up |
| `LedgerRuns.ReachableInv` | backend/atlas/actions/authority.py:115-476 | the invariant holds in every reachable state |
| `LedgerTheorems.OutcomesAbsorb` | backend/atlas/actions/authority.py:372-436 | succeeded, failed, cancelled and uncertain never change again along any run |
| `LedgerTheorems.EntersAtMostOnce` | backend/atlas/actions/authority.py:207-248 | an action enters executing at most once, and not at all once it has left prepared |
| `LedgerTheorems.ExecutionsConserved` | backend/atlas/actions/authority.py:384-436 | executions entered equal executions settled plus those still executing |
| `LedgerTheorems.OneRacerSettles` | backend/atlas/actions/authority.py:384-436 | of a late completion, sweepers and interruptions racing for one execution, exactly one takes effect |
| `LedgerTheorems.LateRacerChangesNothing` | backend/atlas/actions/authority.py:384-436 | a completion or sweep that comes after the outcome changes no row |
| `LedgerTheorems.AtMostOnce` | backend/atlas/api/app.py:826-856 | in every run each action is executed, settled and dispatched at most once |
| `LedgerTheorems.DispatchedAsProposed` | backend/atlas/actions/authority.py:148-223 | whatever is done to the stored evidence, a dispatched proposal carries the operation and arguments prepared, under an approval of the digest that seals them with principal and capability, given within the hour |
| `LedgerTheorems.ApprovalBindsProposal` | backend/atlas/actions/authority.py:182-205 | whatever was written over the stored evidence, it verifies if and only if it still renders to what was prepared and the hour has not passed |
| `LedgerTheorems.AttentionAgreesWithActions` | backend/atlas/actions/authority.py:166-180 | in every reachable state: at most one row per action ever, exactly one open for prepared, none open for succeeded, failed or cancelled, and for uncertain open exactly until acknowledged |
| `LedgerTheorems.SettledTestsAgree` | backend/atlas/api/app.py:1414-1449 | the acknowledged flag and "attention seen, none open" agree for every uncertain action |
| `LedgerTheorems.PruningIsSafe` | backend/atlas/api/app.py:1414-1449 | an action dropped from the pending list is never again prepared, executing or in need of the owner |
| `LedgerTheorems.UncertainForever` | backend/atlas/actions/authority.py:462-467 | once an action is uncertain its run stays uncertain and unfinished |
| `LedgerTheorems.SweeperIsConservative` | backend/atlas/actions/reconciliation.py:17-31 | even with a stale selection, a sweeper settles only executions older than its bound whose run has no fresh heartbeat |
| `LedgerTheorems.RecordingWhileActiveAgrees` | backend/atlas/actions/authority.py:129-146 | recording a finished execution while inference is active keeps stored and derived status equal |
| `LedgerTheorems.StoredStatusCanBeStale` | backend/atlas/actions/authority.py:225-248 | some reachable state stores a status that is not the derived one |
| `LedgerTheorems.SweepOutcome` | backend/atlas/actions/authority.py:411-436 | sweeping the selected rows one by one settles exactly the abandoned executions and counts them |
| `Discovery.Window` | backend/atlas/memory/discovery.py:237-281 | the first unscanned live turns in order, at most the window size, with none omitted before the last taken |
| `Discovery.TakeScanOk` | backend/atlas/memory/discovery.py:237-281 | a snapshot covers every live turn between its cursor and its end |
| `Discovery.TakeScanAnchored` | backend/atlas/memory/discovery.py:237-281 | the end of a snapshot is the sequence of its last turn, which no other turn of it exceeds |
| `Discovery.WindowSize` | backend/atlas/memory/discovery.py:237-281 | a snapshot holds all unscanned live turns or, if there are more than the limit, as many as the limit |
| `Discovery.AdvanceConsumes` | backend/atlas/memory/discovery.py:344-376 | after an advance the cursor is the sequence of one of the scanned turns and none of them lies above it; what remains unscanned is what remained before less exactly the window |
| `Discovery.AdvanceKeeps` | backend/atlas/memory/discovery.py:344-376 | the compare-and-set advance keeps "everything live at or below the cursor was scanned" |
| `Discovery.NextKeepsInv` | backend/atlas/memory/discovery.py:344-382 | so do appends, purges, rewinds, deletions and other workers' scans |
| `Discovery.NoLiveTurnSkipped` | backend/atlas/memory/discovery.py:237-376 | in every reachable state each live turn at or below the cursor was in the window of a completed scan |
| `Discovery.AdvanceRaises` | backend/atlas/memory/discovery.py:344-376 | in every reachable state a successful advance strictly raises the cursor, completes its scan and leaves unscanned exactly what was unscanned before less the window |
| `Discovery.LoserIsRefused` | backend/atlas/memory/discovery.py:344-376 | of two scans from one cursor, the second to arrive is refused |
| `SweepFairness.EligibleTranscripts` | backend/atlas/memory/discovery.py:204-235 | the batch is the least eligible transcripts in the order never attempted, least recently attempted, least recently updated, identifier |
| `SweepFairness.DiscoveryService.RunOnce` | backend/atlas/memory/discovery.py:133-202 | one run attempts exactly its batch, stamps every member whose attempt was recorded, and each counter is the number of attempts that ended its way; they add up to the batch if and only if no stale attempt failed to be recorded |
| `SweepFairness.CountedTwice` | backend/atlas/memory/discovery.py:189-201 | an attempt counted twice: its turn purged meanwhile, the record of the stale attempt raising |
| `SweepFairness.DiscoveryService.AttemptOne` | backend/atlas/memory/discovery.py:144-202 | one attempt: scan, model, advance or touch, with whatever raises caught and recorded if that works; an attempt that advanced leaves unscanned exactly what its window did not hold, so nothing if that was everything |
| `SweepFairness.AttemptConsumes` | backend/atlas/memory/discovery.py:144-187 | an attempt that advanced takes its whole window off the unscanned turns, and leaves the transcript not eligible if it held all of them and none was appended |
| `SweepFairness.AttemptStamps` | backend/atlas/memory/discovery.py:189-202 | every recorded attempt, failed and stale ones too, moves the attempt time forward |
| `SweepFairness.AttemptRecorded` | backend/atlas/memory/discovery.py:144-202 | an attempt is recorded if the transcript is still eligible at its snapshot and a failure can be recorded |
| `SweepFairness.PassedOverConsumes` | backend/atlas/memory/discovery.py:204-235 | a run that passes a transcript over fills its batch with transcripts not stamped since |
| `SweepFairness.WaitBound` | backend/atlas/memory/discovery.py:133-235 | the runs a steadily eligible transcript waits through, times the batch size, stay below the number of transcripts plus the attempts that left no stamp |
| `SweepFairness.AttemptedWithinBound` | backend/atlas/memory/discovery.py:133-235 | it is attempted within the ceiling of transcripts plus unstamped attempts over batch size, even when others always fail |
| `SweepFairness.UnstampedStarves` | backend/atlas/memory/discovery.py:196-201 | for every batch size, runs of any length in which unstamped attempts keep an eligible transcript from being attempted |
| `SweepFairness.RunIsSweep` | backend/atlas/memory/discovery.py:133-202 | a run of the service is a step of the scheduling model those bounds are about |
| `TranscriptIndex.ChunkRows` | backend/atlas/memory/indexer.py:49-74 | the loop produces the greedy packing, with each chunk's text joined from its turns |
| `TranscriptIndex.PackFlattens` | backend/atlas/memory/indexer.py:49-74 | the chunks, laid end to end, are the turns that have text, in order |
| `TranscriptIndex.PackFits` | backend/atlas/memory/indexer.py:49-74 | a chunk of several turns never exceeds the limit, although the running count overcounts after a flush |
| `TranscriptIndex.PackTight` | backend/atlas/memory/indexer.py:49-74 | a chunk is closed only when the next turn would have brought it within two characters of the limit or over |
| `TranscriptIndex.JoinFlatten` | backend/atlas/memory/indexer.py:55-74 | joining the chunk texts reproduces the join of the turn texts |
| `IndexRuns.TranscriptIndexer.IndexTranscript` | backend/atlas/memory/indexer.py:102-146 | the stored chunks and cursor afterwards, and the two counts returned |
| `IndexRuns.CursorExactly` | backend/atlas/memory/indexer.py:102-146 | the cursor stays for a bound it has reached, moves to the bound if no turn is due, and otherwise to the last turn due; earlier chunks stay |
| `IndexRuns.IndexThroughKeeps` | backend/atlas/memory/indexer.py:102-146 | indexing up to a bound within the transcript keeps the index faithful and never lowers the cursor |
| `IndexRuns.IndexThroughExactly` | backend/atlas/memory/indexer.py:102-146 | it keeps the index faithful if and only if the bound is within the transcript or there is something to index |
| `IndexRuns.OverreachSkipsForever` | backend/atlas/memory/indexer.py:102-146 | from any faithful index: after a call past the transcript that finds nothing, every turn later given a sequence up to its bound is indexed by no call |
| `IndexRuns.PassedForever` | backend/atlas/memory/indexer.py:102-146 | a turn the cursor has passed unindexed stays unindexed through any appends and index calls |
| `IndexRuns.CutoffWithin` | backend/atlas/memory/indexer.py:148-159 | the active cutoff never reaches past the transcript |
| `IndexRuns.CutoffExactly` | backend/atlas/memory/indexer.py:148-159 | exactly as many of the owner's turns as asked lie above the cutoff of an open transcript, and one fewer above the next sequence; zero when it has fewer; a closed one is indexed whole |
| `IndexRuns.InvalidateKeeps` | backend/atlas/memory/lifecycle.py:2066-2113 | a purge that drops chunks and rewinds the cursor keeps the index faithful |
| `IndexRuns.InvalidateExactly` | backend/atlas/memory/lifecycle.py:2080-2104 | a purge drops exactly the chunks that reach the purged sequence, and rewinds right below the first of them or right below the purged sequence |
| `IndexRuns.NextKeeps` | backend/atlas/memory/indexer.py:161-184 | every append, index run with any tail, purge and deletion keeps the index faithful |
| `IndexRuns.CursorNeverDecreases` | backend/atlas/memory/indexer.py:102-184 | across any appends and index runs the cursor never decreases |
| `IndexRuns.InExactlyOneChunk` | backend/atlas/memory/indexer.py:102-146 | each turn with text at or below the cursor is in exactly one chunk |
| `IndexRuns.IndexIsFaithful` | backend/atlas/memory/indexer.py:49-184 | in every reachable state chunk ranges are disjoint and increasing, the joined chunks are the joined turn texts up to the cursor, and chunks of several turns fit |
| `Coverage.Cover` | backend/atlas/memory/repository.py:293-360 | on every faithful index the report is truthful: the least and greatest sequence and the number of turns, indexed exactly when every requested sequence is at or below the cursor, no gap exactly then and none of them empty, and boundary-complete exactly when also every turn before the boundary is searchable |
| `Coverage.GapsAreExact` | backend/atlas/memory/repository.py:316-325 | the gaps are exactly the requested range minus the indexed range |
| `Coverage.TurnsRequested` | backend/atlas/memory/repository.py:299-306 | a turn is in the requested range exactly when it lies before the boundary |
| `Coverage.OneStraddles` | backend/atlas/memory/repository.py:326-333 | at most one chunk straddles a boundary, so the cap of ten hides nothing |
| `Coverage.CompleteMeansReachable` | backend/atlas/memory/repository.py:132-136 | boundary-complete implies that every non-empty turn before the boundary lies in a searchable chunk |
| `Coverage.BoundaryCompleteExactly` | backend/atlas/memory/repository.py:351-353 | over an indexed range, boundary-complete holds if and only if all those turns are searchable |
| `Coverage.CoverageIsTruthful` | backend/atlas/memory/repository.py:293-360 | in every reachable state of the index the report is truthful and at most one chunk straddles the boundary |
| `RankFusion.BothBeatsOne` | backend/atlas/memory/repository.py:88-107 | with lists of at most forty, a hit of both retrievers outscores any hit of one |
| `RankFusion.OneEach` | backend/atlas/memory/repository.py:88-107 | of a lexical hit at place p and a semantic one at place q, each found by one retriever only, the lexical one scores higher exactly when 10(60 + p) < 11(60 + q) |
| `RankFusion.DominanceScores` | backend/atlas/memory/repository.py:88-107 | no worse in both lists and better in one means a higher score |
| `RankFusion.FillTable` | backend/atlas/memory/repository.py:88-107 | the two loops fill the tables with each retrieved item once, in the order of retrieval, and its score |
| `RankFusion.Fuse` | backend/atlas/memory/repository.py:39-120 | the first k of the duplicate-free union by score, of equal scores by later end, and of those by which was retrieved first; k clamped to one through ten |
| `RankFusion.BetterComesFirst` | backend/atlas/memory/repository.py:112-120 | a retrieved item that outscores a returned one is returned before it |
| `RankFusion.BothComeFirst` | backend/atlas/memory/repository.py:88-120 | an item of both retrievers is returned before every returned item of only one |
| `RankFusion.DominatingComesFirst` | backend/atlas/memory/repository.py:88-120 | an item no worse in both lists and better in one is returned before the other |
| `RankFusion.Search` | backend/atlas/memory/repository.py:39-120 | from all matches, cut to at most forty a retriever: at most ten results, hits of both before hits of one, dominating before dominated, and a hit of one retriever before a hit of the other that it outweighs |
| `WorkingContext.Assemble` | backend/atlas/api/app.py:956-1019 | the returned form is the first on the ladder that fits, else the last, and is the form its reported stage stands for: at the second stage exactly the compactable tool turns with the given number of owner turns after them are compacted; the reported tokens are its own; budget exceeded if and only if no form fits |
| `WorkingContext.OlderExactly` | backend/atlas/runtime/conversation.py:80-91 | a turn is among the older ones compacted first if and only if it may be compacted and at least the given number of owner turns come after it |
| `WorkingContext.LatestStayRaw` | backend/atlas/api/app.py:961-967 | so no tool turn of the latest exchanges is compacted there |
| `WorkingContext.TrimHistory` | backend/atlas/api/app.py:982-994 | the descending loop stops at the first number of exchanges that fits, or at one |
| `WorkingContext.FirstFitFacts` | backend/atlas/api/app.py:956-1019 | what first fit means: everything before it does not fit, and it fits unless nothing does |
| `WorkingContext.CompactableIds` | backend/atlas/api/app.py:943-954 | exactly the tool turns with observations none of whose phases is protected |
| `WorkingContext.RecentNested` | backend/atlas/runtime/conversation.py:71-77 | keeping k exchanges of the latest j is keeping the latest k |
| `WorkingContext.RecentCounts` | backend/atlas/runtime/conversation.py:71-77 | the last k exchanges are a suffix with exactly k owner turns |
| `RateLimiter.Limiter.RateLimit` | backend/atlas/auth/api.py:21-32 | popping, refusing and appending on the bucket's deque, as the specification says |
| `RateLimiter.DecisionIsSpec` | backend/atlas/auth/api.py:26-32 | an attempt is accepted if and only if fewer than the limit of its bucket's accepted attempts lie in the window, over the full history |
| `RateLimiter.LimiterMeetsSpec` | backend/atlas/auth/api.py:18-32 | over any request sequence: the specification, at most the limit in every window of a bucket, deques no longer than the limit, at most 4097 buckets |
| `RateLimiter.OwnBucketExactly` | backend/atlas/auth/api.py:22-26 | over any request sequence, a request is counted in its own bucket exactly when its key is among the first 4096, and in the shared one otherwise |
| `RateLimiter.EveryWindowBounded` | backend/atlas/auth/api.py:28-32 | the acceptance rule alone bounds every half-open window, wherever it starts |
| `RateLimiter.ClosedWindowsExactly` | backend/atlas/auth/api.py:28-32 | no closed window of a bucket holds more than the limit if and only if every accepted attempt had room with the far end of its window counted |
| `RateLimiter.RoomTest` | backend/atlas/auth/api.py:28-32 | that room, read off the deque before the call, short by exactly the attempts at the far end it has dropped; none if the clock has moved since the last attempt |
| `RateLimiter.ClosedWindowOverflows` | backend/atlas/auth/api.py:21-32 | for every limit, served requests that put one too many into a closed window |
| `ExplicitObligation.ObligationStore.PendingObligation` | backend/atlas/memory/explicit.py:54-69 | the oldest pending explicit obligation of the candidate |
| `ExplicitObligation.ObligationStore.SettleExplicit` | backend/atlas/memory/explicit.py:72-163 | found exactly when a request is pending; then only the oldest changes: published, a failure more and ended at the third, or ended under the name given or its status; its command is applied, failed or left to match |
| `ExplicitObligation.SettledExactly` | backend/atlas/memory/explicit.py:72-163 | which statuses end an obligation, under which name, and what becomes of its command |
| `ExplicitObligation.AgreementKeptExactly` | backend/atlas/memory/explicit.py:72-163 | a settlement keeps obligation and command in agreement if and only if it is not a caller's own claim of publication against a pending obligation with a command |
| `ExplicitObligation.PublishedButFailed` | backend/atlas/memory/explicit.py:148-163 | the failing case: obligation published, command failed |
| `ExplicitObligation.RunAgrees` | backend/atlas/memory/explicit.py:54-172 | along any run of requests, retries and settlements: pending with pending, published with applied, any other resolution with failed, and at most three failures |
| `ExplicitObligation.ResolvedForever` | backend/atlas/memory/explicit.py:54-69 | a resolved obligation never changes again |
| `ExplicitObligation.SettlesOnlyTheOldest` | backend/atlas/memory/explicit.py:54-69 | a settlement touches no other obligation |
| `ExplicitObligation.TerminalSettlesExactly` | backend/atlas/memory/explicit.py:54-163 | a terminal settlement leaves no pending request of the candidate if and only if there was at most one |
| `ExplicitObligation.SecondRequestLeft` | backend/atlas/memory/explicit.py:54-69 | two requests, one publication: the second is still pending |
| `ExplicitObligation.ThirdFailureTerminates` | backend/atlas/memory/explicit.py:128-146 | a failure counts once, and the third ends the obligation visibly |
| `Whitespace.CollapseIdempotent` | backend/atlas/memory/candidates.py:110-124 | collapsing white space twice is collapsing it once |
| `Whitespace.CollapseShortens` | backend/atlas/memory/candidates.py:110-124 | collapsing never lengthens a text |
| `EvidenceKey.HashIffSameMultiset` | backend/atlas/memory/candidates.py:157-159 | equal digests mean equal multisets of references, and conversely, through sorting, joining and digesting |
| `EvidenceKey.KeyIffSameSet` | backend/atlas/memory/candidates.py:203-241 | two proposals share a key if and only if they cite the same set, whatever order or repetition |
| `EvidenceKey.BareHashSeesRepetition` | backend/atlas/memory/candidates.py:157-159 | without the removal of repetitions the digest would differ |
| `Candidates.UniqueRefs` | backend/atlas/memory/candidates.py:118-129 | the loop keeps the first of each normal reference |
| `Candidates.ResolveRefs` | backend/atlas/memory/candidates.py:189-202 | every reference resolved, in order, or the refusal of the first that stands for nothing |
| `Candidates.FindFault` | backend/atlas/memory/candidates.py:221-237 | the fault of the first reference that has one |
| `Candidates.CandidateRepository.Enqueue` | backend/atlas/memory/candidates.py:174-308 | the table and the result after one proposal, refusals included |
| `Candidates.CandidateRepository.EnqueueMany` | backend/atlas/memory/candidates.py:315-362 | at most eight proposals judged one after another, and their tally |
| `CandidateTheorems.NormalizedIdempotent` | backend/atlas/memory/candidates.py:110-132 | normalising a normal candidate changes nothing; the field limits make its truncations idle |
| `CandidateTheorems.NormalizedExactly` | backend/atlas/memory/candidates.py:110-132 | a valid candidate is refused exactly for blank content or a blank handle |
| `CandidateTheorems.EvidenceExactly` | backend/atlas/memory/candidates.py:188-237 | evidence is accepted if and only if every reference stands for something and everything stood for is visible, known, live, of the transcript and names a text block; it is then exactly that set |
| `CandidateTheorems.RefusedBecause` | backend/atlas/memory/candidates.py:188-237 | every refusal of a valid candidate names a thing that is wrong with it |
| `CandidateTheorems.BlockExactly` | backend/atlas/memory/candidates.py:226-237 | a span that spells out a block number is accepted exactly when the turn has that block and it is text; a negative one never is |
| `CandidateTheorems.AdmitExactly` | backend/atlas/memory/candidates.py:239-308 | a row is created exactly when no open candidate cites the set; otherwise nothing changes and the one that does is returned |
| `CandidateTheorems.EnqueueExactly` | backend/atlas/memory/candidates.py:174-308 | the same after any history of intake, lifecycle moves, confirmations and deletions |
| `CandidateTheorems.OneOpenRowPerSet` | backend/atlas/persistence/models.py:279-288 | after any history no two open candidates cite the same set |
| `CandidateTheorems.TallyAddsUp` | backend/atlas/memory/candidates.py:329-362 | each proposal is counted once and each category counts its own refusals |
| `CandidateTheorems.BatchCounts` | backend/atlas/memory/candidates.py:329-362 | the counts sum to the smaller of eight and the batch, the categories to the rejected, and the accepted to the rows created |
| `CandidateTheorems.SpellingsDiffer` | backend/atlas/memory/candidates.py:226-237 | whenever a block is cited and accepted, the spelling with a space before its number is accepted, names the same block and has another key |
| `CandidateTheorems.SpanKeysExactly` | backend/atlas/memory/candidates.py:157-159 | two accepted citations of one turn share a key if and only if their collapsed spans are the same text |
| `Processes.AfterLater` | backend/atlas/integrations/coding_mcp_server.py:123-133 | whatever processes do, a founded group without live members stays dead |
| `Processes.LiveIsSeen` | backend/atlas/integrations/coding_mcp_server.py:123-133 | the liveness test never misses a live group, with or without a leader |
| `Processes.AliveExactly` | backend/atlas/integrations/coding_mcp_server.py:123-133 | it says alive if and only if the group is, or the number belongs to a later group whose founder is gone, or, with an unread birth, to any later live process |
| `Processes.ReusedNumberAlarms` | backend/atlas/integrations/coding_mcp_server.py:123-133 | an instance of that false alarm |
| `Processes.ScanSound` | backend/atlas/integrations/coding_mcp_server.py:103-120 | a scan that reads each process at a moment of its own sees a group alive at its end, if nobody entered the group meanwhile |
| `Processes.ScanMissesExactly` | backend/atlas/integrations/coding_mcp_server.py:103-120 | some order of reading misses a group if and only if no process is a live member from the first moment to the last |
| `Processes.ScanCanMiss` | backend/atlas/integrations/coding_mcp_server.py:103-120 | otherwise a fork can slip past it |
| `CodingSession.Session.Alive` | backend/atlas/integrations/coding_mcp_server.py:88-133 | leader, listing and each process read at moments of their own: a negative answer is right when given, unless the group was relayed past exactly the moments of this call, which replay the world |
| `SessionLog.RelayedExactly` | backend/atlas/integrations/coding_mcp_server.py:103-120 | relaying is exactly what lets a scan miss a live group, and needs a process entering the group meanwhile |
| `SessionLog.UndisturbedSeen` | backend/atlas/integrations/coding_mcp_server.py:103-133 | where nobody enters a group between two logs, none of the scans in between missed it |
| `SessionLog.WentThen` | backend/atlas/integrations/coding_mcp_server.py:143-181 | the logs of successive steps join into one replay, every kernel following from the one before |
| `CodingSession.Session.Terminate` | backend/atlas/integrations/coding_mcp_server.py:143-181 | a normal return means the group is dead unless a scan made here missed it; once killed, or on failure, dead without exception unless a member is stuck; kill follows terminate after the grace period only |
| `CodingSession.Session.Refresh` | backend/atlas/integrations/coding_mcp_server.py:221-261 | from the log as read last: completed exactly if its last deciding event is a completion, failed exactly if it is a failure or an error, interrupted exactly if it has none, unless a process answered for the group, and the thread is the first it names; any status but running means the latest group is dead, unless the scan made here missed it |
| `CodingSession.StatusExactly` | backend/atlas/integrations/coding_mcp_server.py:221-231 | what the events say of a dead group: completed, failed or interrupted, each exactly by the last deciding event |
| `CodingSession.Session.Launch` | backend/atlas/integrations/coding_mcp_server.py:300-365 | a group is launched exactly when nothing refuses it; all that is alive is then within reach of a cancellation if and only if the record was written, or numbers coincide |
| `CodingSession.RefusalExactly` | backend/atlas/integrations/coding_mcp_server.py:300-333 | what it takes to launch, and what each refusal says |
| `CodingSession.Session.AwaitThread` | backend/atlas/integrations/coding_mcp_server.py:367-412 | the wait for a thread id keeps the session's invariant; a mismatch is reported only for a resumed run, with its group dead unless a scan made here missed it, and is on record as failed |
| `CodingSession.Session.Start` | backend/atlas/integrations/coding_mcp_server.py:435-458 | an existing record refuses the start; one made by a cancellation does so as cancelled before launch |
| `CodingSession.Session.Send` | backend/atlas/integrations/coding_mcp_server.py:461-468 | no turn is launched beside a live one unless a scan of this call missed it, and never if nobody entered the previous group during the call; nor in a session cancelled before its start |
| `CodingSession.Session.GetStatus` | backend/atlas/integrations/coding_mcp_server.py:482-487 | the status answered is the one the last deciding event gives, exactly, or running with a process that answered; other than running it means nothing is alive unless a scan missed it; if nobody entered the latest group during the call, it is dead |
| `CodingSession.Session.Cancel` | backend/atlas/integrations/coding_mcp_server.py:507-546 | a normal return means no group of the session is alive unless a scan missed it; if nobody entered the latest group during the call, it is dead; it answers completed or failed exactly if the log read says so and cancelled otherwise; a failed return leaves the latest group dead unless a member is stuck |
| `CodingSession.Session.Serve` | backend/atlas/integrations/coding_mcp_server.py:435-546 | along any calls, whose log is a replay, only the group of the latest run on record is alive, and any other only if a scan missed it; a session cancelled before its start launches nothing ever |
| `CodingSession.LostLaunchExactly` | backend/atlas/integrations/coding_mcp_server.py:334-365 | after a spawn everything alive is within reach if and only if the record was written, or the latest run on record names the new group too |
| `CodingSession.LostLaunchDoubles` | backend/atlas/integrations/coding_mcp_server.py:461-468 | for every resumable session in a still world: two turns sent, the first lost by the record, leave two groups alive |
| `BackupTree.AcceptableExactly` | backend/atlas/maintenance/backup.py:133-149 | a whole snapshot is acceptable if and only if its marker is the digest of its manifest |
| `BackupTree.AlteredExactly` | backend/atlas/maintenance/backup.py:135-149 | under the original marker an altered snapshot is acceptable if and only if it has no links or special files and its regular files are the original ones |
| `BackupTree.DirectoryUnseen` | backend/atlas/maintenance/backup.py:146-149 | an added empty directory goes unseen |
| `Backup.Volume.CopyTree` | backend/atlas/maintenance/backup.py:49-69 | the walk reproduces the tree below the target, refuses links and special files, overwrites nothing and touches nothing else |
| `Backup.VerifyArtifacts` | backend/atlas/maintenance/backup.py:86-98 | true exactly when every row has a file of its size and digest |
| `Backup.CrashExactly` | backend/atlas/maintenance/backup.py:101-130 | after a crash with arbitrary loss of unsynced data, restore accepts what is left if and only if the marker survived in full, and then all else is exactly what was backed up |
| `Backup.TornMarkerRefused` | backend/atlas/maintenance/backup.py:125-128 | a missing or shortened marker is always refused |
| `BackupRun.BackUp` | backend/atlas/maintenance/backup.py:101-130 | success exactly on sound live state, leaving the finished snapshot durable, and each refusal exactly for its cause; the disk is the replay of the recorded steps, and after every number of them there is no marker or only the marker is not durable |
| `BackupRun.Publish` | backend/atlas/maintenance/backup.py:118-130 | the steps replayed, the marker appears only once all else is durable |
| `BackupRun.BodyTrees` | backend/atlas/maintenance/backup.py:108-117 | a snapshot holds both live trees unchanged |
| `Restore.Inspect` | backend/atlas/maintenance/backup.py:133-149 | the checks in order accept exactly the acceptable snapshots |
| `Restore.Target.RestoreFrom` | backend/atlas/maintenance/backup.py:133-182 | the exact condition of success, the restored targets, untouched targets when a check refuses, and written targets exactly when the last test fails |
| `Restore.BackupRoundTrip` | backend/atlas/maintenance/backup.py:101-182 | a finished backup is acceptable, brings back trees, rows and marker, and passes the last test |
| `Restore.CrashRoundTrip` | backend/atlas/maintenance/backup.py:101-182 | after a crash at any moment of a backup, restore refuses or brings back the whole live state |
| `Restore.CrashThenRestore` | backend/atlas/maintenance/backup.py:101-182 | any live state backed up, stopped after any number of steps with any loss, and restored: success if and only if the marker holds the full digest, the live state back then, untouched targets otherwise |
| `Restore.AlteredRoundTrip` | backend/atlas/maintenance/backup.py:133-182 | whatever was done to a finished backup short of its marker: if restore takes it, rows, owner marker and every file come back, and the whole state does if and only if the directories are the original ones |
| `Restore.AddedDirectoryRestored` | backend/atlas/maintenance/backup.py:133-182 | for every finished backup an added directory is accepted and restored |
| `Restore.LateTestExample` | backend/atlas/maintenance/backup.py:169-173 | an acceptable snapshot that fails the last test |
| `Restore.RoundTrip` | backend/atlas/maintenance/backup.py:101-182 | backing up and restoring into empty targets gives the live state back, durably |

## Left out

- Ledger: notifications, stored result evidence, observation sinks and the schedule's copy of a run's last status are not rows of the model.
- Ledger: the task state machine is a managed and an active flag; how tasks change is an environment step.
- LedgerTheorems.UncertainForever: the scheduler's queue and claim are no steps of the runs; `LedgerInvariants.ClaimKeepsExactly` says what a claim needs, and executors work for claimed runs only.
- Discovery: what the model proposes is a success or failure of the attempt; candidates it yields are the subject of intake.
- Index: the projection of a turn's blocks to text, embeddings and index versions; a turn carries its text.
- Coverage: embedding counts and the totals over transcripts, which are sums of the per-transcript parts.
- Rank fusion: the text search and vector queries, the anti-join that hides guarded text, and rounding. The same fusion in the durable-memory repository is not repeated.
- Working context: case folding of phases is for ASCII letters. Message rendering and token counting are a function parameter; memory guards and the task state text are part of it.
- Rate limiter: how a key is taken from the request headers.
- Explicit obligations: receipts and outcome lines shown to the owner.
- Candidates: kinds, scopes, confidence and other fields that do not enter the dedupe key; a malformed proposal carries the category its schema refusal has. Digits outside ASCII in a span's number.
- Coding session: log files, prompts and results; the process directory is listed in order of number.
- Coding session: that "cancelled" or the thread id stays on record, which the source does not promise since both are recomputed from the latest log.
- CodingSession.Session.Serve: supposes each launch reaches the record, because otherwise the claim is false (`CodingSession.LostLaunchExactly`), and excepts groups relayed past a scan, because for those it is false too (`Processes.ScanMissesExactly`).
- Backup: a directory is walked parents first, so making a file's parent never adds anything; storage keys are plain relative names; path overlap is one flag; modes of files are not modelled.
- The schema migrations, whose partial unique indexes and constraints appear as facts about writes.
- Continuity capsules, which use the same compare-and-set as discovery with weaker promises.
- HTTP routing, sessions, WebAuthn, provider clients, the user interface and other plumbing.
