# A verified model of the cat-door monitor's pipelines

The repository watches a cat door: an edge device streams JPEG parts, a compute tier
collects frames, sweeps them with analyzers, names the cats it sees against a gallery of
embedded crops, and scores how well it does so. This project models the parts of it whose
correctness is hardest to see by reading, and proves what they promise.

| files | what they model |
|---|---|
| `SweepModel`, `BatchConsumer`, `StatelessSweep`, `StatelessTheorems`, `ConsumerLoop` | the stateless sweep: a producer thread, a bounded queue, an abort flag and a sentinel, and a batching consumer, as a transition system over every interleaving, and the consumer's own loop |
| `WindowedSweep` | the windowed sweep: a deque of decode futures feeding a stateful analyzer, with batched writes |
| `OracleWorker`, `OracleCoverage`, `OracleTick` | the always-on detection worker among the collector, evictions, operators and `/api/clear`; what its coverage rests on; its tick as its code runs |
| `LiveWorker`, `LiveCoverage`, `LiveTick` | the same for the worker that names closed visits |
| `JobQueue`, `JobQueueTheorems`, `JobManager` | the queue both job managers are built on, over whole runs, and the manager object with its replaceable stop events |
| `TrainingRun`, `Embedding`, `Identify` | what a training job does between promotion and its record; the embedding engine; one identify pass |
| `GalleryCap`, `Separability`, `VisitScoring`, `HeldOutScoring`, `StrangerScoring`, `IdentityVote` | the arithmetic: the per-cat cap, the AUC and threshold, held-out scoring, held-out cats, the vote |
| `WireText`, `Wire`, `WireParsing`, `PartStream`, `StreamReading`, `StreamTruncation`, `StreamClient` | the stream wire format, printer and reader, byte by byte, and what the parser makes of any block |
| `Suntimes` | the day/night classifier |

Conventions. A sweep's or worker's concurrency is a state machine whose actions carry every
nondeterministic choice; a run is a sequence of states and actions. Objects the source updates in
place are classes, and each of their methods is proved against a function of the old state.
Decoding, analyzers, the embedder's model, sun times and the vote rule are parameters. Distances
and thresholds are exact reals; float text is a pair of functions that undo each other. The store is
a map with ascending iterators and atomic batch writes.

## What came out of it

Some of what the documentation says is not quite what the code does. The code was kept as it is and
the exact condition proved.

- A sweep over a windowed analyzer whose iterator fails stops with exactly the last `lookahead` frames it
  yielded (or all, if fewer) decoded but not analyzed, and with verdicts not yet written; the serial loop
  would have done them (`WindowedSweep.Sweep.Run`).
- The oracle worker covers every stored frame up to its watermark only while no row is inserted behind
  it: at or below the watermark, or at or below the furthest place a tick under way has already listed,
  passed or clamped to. An insert costs a row exactly if it lands there (`OracleCoverage.LosesIff`), and
  the id SQLite hands out next can: when the newest row is deleted right after it was swept
  (`OracleCoverage.ReusedRowIsMissed`), or while its chunk is being detected, above the watermark
  (`OracleCoverage.NextIdCanBePassed`). Ids not reused since the last re-seed are enough
  (`OracleWorker.FreshIdsSuffice`); what happened before it does not matter.
- `start` reads its horizon before its seed, so a clear in between leaves the watermark above the emptied
  store (`OracleCoverage.ClearDuringStartSeedsStale`). The next tick clamps it to the store's latest row,
  and coverage holds from there on; the rows stored in between are lost
  (`OracleCoverage.ClampHeals`), for good until a re-seed moves the watermark back
  (`OracleCoverage.StrandedForGood`).
- The live worker's first seed does not bump the epoch, so a late one of two overlapping first starts can
  make a tick step over a visit (`LiveCoverage.LateFirstSeedLosesVisit`, a run from a fresh process). With
  first starts one at a time it cannot (`LiveCoverage.SerialSeedsAreQuiet`). Exactly which first seeds and
  which closing visits cost a visit is `LiveCoverage.LosesIff`; a visit closing under reused ids can be one
  above the watermark too (`LiveCoverage.ReclosedVisitCanBeLost`).
- The embedder's last report never cancels, so that a cancel arriving when all embeddings are there
  discards nothing. But the report after the last full batch does cancel: a completed run can be
  discarded exactly if its readable crops fill whole batches (`Embedding.LateCancelDiscardsIff`).
  The identify pass honours a cancel after its last batch too, when every row is already written.
- Against an empty gallery a frame that embeds gets neither a match nor a marker, so the pass does not
  converge on it (`Identify.ConvergesIff`).
- `_best_threshold`'s comment allows that leaving out the different-cat distances might change the
  threshold when the two sides are identical. It never does (`Separability.SameCandidatesSuffice`).
- A stream cut anywhere yields exactly the frames that had arrived whole if and only if no body is empty
  (`StreamTruncation.CutWireStreamIff`). Cut before the area line, a part with an empty body is read as a
  frame that had not arrived, altered unless its area is zero (`StreamTruncation.EmptyBodyIsAltered`).
- The three-day window of the night classifier misses a sunset two or more UTC dates back
  (`Suntimes.WindowMissesIff`). On a date whose sunrise precedes its sunset the classifier is `is_night`
  exactly from sunrise on, or after a date of the same kind; after a date that does not resolve or whose
  sunset came first it says day until sunrise (`Suntimes.AgreesWithIsNightIff`).

## Model

| member | source | states |
|---|---|---|
| `BatchConsumer.BatchCallMatchesPerImage` | compute/analysis/runner.py:455-517 | When the batch call answers every image, zipping its answers with the batch gives the rows the per-image loop gives |
| `BatchConsumer.MoveKeeps` | compute/analysis/runner.py:519-556 | Every consumer step keeps: what is persisted and batched is the serial rows of the frames resolved, one shape per batch, and each frame taken is done, an error or in hand |
| `StatelessSweep.StepKeepsInv` | compute/analysis/runner.py:429-568 | Every step of either thread keeps the queue equal to the items put and not taken (then the sentinel), and lets at most the one put past its check land after abort |
| `StatelessTheorems.NeverWedged` | compute/analysis/runner.py:519-575 | In no interleaving does the consumer wait on an empty queue of a finished producer; until the sweep has ended some thread has a step that brings it nearer, and it ends with the producer joined |
| `StatelessTheorems.TimeoutOnlyWhileConsumerCanMove` | compute/analysis/runner.py:143-160 | A put times out only while the consumer can move |
| `StatelessTheorems.RunsAreBounded` | compute/analysis/runner.py:416-575 | Every run takes at most eleven steps a frame, fifteen more, and two per put timeout |
| `StatelessTheorems.TeardownIsBounded` | compute/analysis/runner.py:557-568 | From the moment abort is set every schedule, timeouts included, ends within 2 * batch size + 9 steps, with the producer joined |
| `StatelessTheorems.AtMostOneLatePut` | compute/analysis/runner.py:143-160 | At most one item lands after abort is set |
| `StatelessTheorems.PersistedRefinesSerial` | compute/analysis/runner.py:429-575 | In every interleaving the persisted rows are a prefix of the serial rows: all of them for an uncancelled finish, those of the frames taken for a cancelled one |
| `StatelessTheorems.BatchesPartitionTheFrames` | compute/analysis/runner.py:455-548 | Every oracle call has one shape and between one and batch-size images, and the calls end to end are the decodable frames in order, none skipped or repeated |
| `StatelessTheorems.CallsAreAsLargeAsCanBe` | compute/analysis/runner.py:539-550 | In every interleaving each oracle call but the last is full or was cut off by an image of another shape |
| `StatelessTheorems.TalliesAccountForEveryFrame` | compute/analysis/runner.py:480-568 | At the end done plus errors is the frames taken, done the rows persisted, present the positive ones; after a failed write the difference is the unwritten rows and at most one frame in hand |
| `StatelessTheorems.IteratorFaultSurfaces` | compute/analysis/runner.py:449-453 | With no stop and no failed write the job fails exactly when the iterator did, after every yielded frame has its row |
| `StatelessTheorems.OutcomeHasItsCause` | compute/analysis/runner.py:503-556 | The consumer has left with a failed write exactly if a write raised, and canceled exactly if it looked at the stop flag after a full batch and it was set |
| `StatelessTheorems.StopIsPrompt` | compute/analysis/runner.py:436-556 | Once the stop is set the producer ships at most one frame more and the consumer takes at most what is queued and that one; from the first look at the flag on it takes and persists nothing and ends canceled |
| `ConsumerLoop.AnalyzeBatch` | compute/analysis/runner.py:455-517 | The rows of a batch are those of the per-image analyzer whether there is no batched call, it raises, or it comes back with what its contract promises; no image it has answered is analyzed again |
| `ConsumerLoop.Sweep.Flush` | compute/analysis/runner.py:455-517 | A flush of a batch that is not empty makes one write and fails exactly if that write raises, leaving the store and the written tallies as they were; otherwise the rows are appended and counted |
| `ConsumerLoop.Sweep.Consume` | compute/analysis/runner.py:522-556 | Handed each frame's item in order and then the sentinel, the loop is left by the first write that raises, canceled at the first look at the flag that sees it set (one look for each full batch, none else), or finished; it persists exactly the serial rows of the frames taken, short of the batch whose write raised; the batches are the decodable frames in order, one shape each, none smaller than it must be |
| `ConsumerLoop.Sweep.Take` | compute/analysis/runner.py:522-556 | One item: a decode failure counted, a shape change flushed first, a full batch flushed and then the stop flag looked at. It goes on exactly while no write has raised and no look has seen a stop |
| `WindowedSweep.SerialFoldFeedsDecodable` | compute/analysis/runner.py:369-397 | The reference fold gives the stateful analyzer the decodable frames in iterator order |
| `WindowedSweep.SerialFoldIsTheAnalyzer` | compute/analysis/runner.py:369-397 | Its state and its rows are those of the analyzer run over the decodable frames alone, each with the state all before it left, failed calls included |
| `WindowedSweep.Sweep.SubmitNext` | compute/analysis/runner.py:357-364 | The deque is the frames pulled and not awaited, in order with the futures of their decodes, and never longer than the lookahead |
| `WindowedSweep.Sweep.Analyze` | compute/analysis/runner.py:376-393 | Awaiting the head and analyzing it is one step of the reference fold |
| `WindowedSweep.Sweep.Run` | compute/analysis/runner.py:323-409 | For any answers and any order of decode completions, persisted and then pending rows are the serial fold's for the frames awaited. The sweep is canceled exactly at the first check that sees the stop, fails with the first write that raises, or with the iterator when it is asked for one frame too many, and then exactly the last lookahead of its frames (or all) are unanalyzed; otherwise every frame is awaited and every row written, in as few full batches as that takes |
| `WindowedSweep.Sweep.FinalFlush` | compute/analysis/runner.py:398-409 | The last flush persists what is pending, or fails exactly if its write raises, the canceled path included |
| `WindowedSweep.AccountedRows` | compute/analysis/runner.py:369-409 | At any end what is persisted is a prefix of all serial rows, all of the awaited frames' rows if nothing is pending, and rows and errors add up to the frames awaited |
| `OracleWorker.StepKeepsInv` | compute/learning/yolo_oracle.py:261-528 | Every step of any thread, delete, start, stop or clear, and every insert ahead of the worker, keeps what the current ticks know is behind them |
| `OracleWorker.InsertKeepsInvIff` | compute/learning/yolo_oracle.py:322-337 | An insert keeps that invariant exactly if its row lands ahead of the watermark and of every place a current tick has listed, passed or clamped to |
| `OracleWorker.ReseedRestores` | compute/learning/yolo_oracle.py:515-528 | A re-seed restores the invariant from any state, whatever ids were handed out before |
| `OracleWorker.WatermarkMeansCovered` | compute/learning/yolo_oracle.py:315-371 | From any re-seed on, while no row has been inserted behind the worker, every stored frame above the last seed and at or below the in-memory watermark was in a chunk whose detect completed without a stop, in every reachable state |
| `OracleWorker.FreshIdsSuffice` | compute/learning/yolo_oracle.py:322-337 | Row ids not reused since that re-seed are enough for it |
| `OracleCoverage.LosesIff` | compute/learning/yolo_oracle.py:322-337 | Exactly which steps cost coverage: after an insert behind the worker some future without another loses the row, after any other step none does |
| `OracleCoverage.ReusedRowIsMissed` | compute/learning/yolo_oracle.py:322-337 | Deleting the newest row, already swept, and inserting the next capture loses it at once |
| `OracleCoverage.NextIdCanBePassed` | compute/learning/yolo_oracle.py:322-337 | A reachable state in which the next id lies above the watermark and is still lost: its row was deleted while its chunk was being detected |
| `OracleCoverage.StrandedForGood` | compute/learning/yolo_oracle.py:344-371 | An unswept row behind the watermark with no tick about to list it is never swept while it is stored and no re-seed comes |
| `OracleWorker.StaleTickNeverWrites` | compute/learning/yolo_oracle.py:380-395 | A tick whose snapshot predates a re-seed never changes the watermark after it, old threads included |
| `OracleWorker.OnlyCurrentTicksWrite` | compute/learning/yolo_oracle.py:380-395 | Only re-seeds and ticks of the present epoch move the watermark |
| `OracleWorker.EpochStep` | compute/learning/yolo_oracle.py:515-528 | The epoch counts the re-seeds of start and reset_watermark, nothing else |
| `OracleWorker.TickKeepsItsEpoch` | compute/learning/yolo_oracle.py:318-337 | Between two snapshots of a thread its tick keeps the epoch of the first |
| `OracleWorker.OneThreadAtATime` | compute/learning/yolo_oracle.py:399-475 | However starts and stops interleave, the threads not told to stop are the current one while the worker runs, and no other |
| `OracleWorker.StaleTickIsAbandoned` | compute/learning/yolo_oracle.py:332-371 | A tick that a re-seed has overtaken begins at most one more detect before its thread's next snapshot |
| `OracleWorker.StoppedThreadBeginsNothing` | compute/learning/yolo_oracle.py:344-351 | A thread that was told to stop never begins another detect |
| `OracleCoverage.ClearDuringStartSeedsStale` | compute/learning/yolo_oracle.py:399-447 | Example: a clear between start's horizon read and its seed leaves the watermark above an emptied store |
| `OracleCoverage.ClampHeals` | compute/learning/yolo_oracle.py:322-341 | The next tick brings it to the store's latest row and coverage holds from there; every unswept row up to there is stranded |
| `OracleTick.ChunksPartition` | compute/learning/yolo_oracle.py:344-371 | The chunks of a tick partition its window, in order, each id in exactly one, all but the last of exactly the yield granularity |
| `OracleTick.YoloOracleManager.Tick` | compute/learning/yolo_oracle.py:261-378 | Of its window's chunks a tick counts exactly those before the first that found a stop or a busy GPU, whose detect raised or was cut short, or that a re-seed met; detect is asked for these and at most that one more; the watermark ends at the last counted, or where a re-seed put it; an error is recorded exactly if a detect raised. Undisturbed, it reaches min(latest, watermark + 2000) |
| `OracleTick.YoloOracleManager.Walk` | compute/learning/yolo_oracle.py:344-378 | The chunk loop advances past a chunk exactly if no stop or busy signal was seen before it, its detect ran whole, no stop was seen after it and no re-seed had landed, and ends at the first other one |
| `LiveWorker.StepKeepsInv` | compute/learning/live_identify.py:278-530 | Every step of any thread keeps what the current ticks know is behind them, but for a visit closing behind the worker and a first seed that strands one |
| `LiveWorker.CloseKeepsInvIff` | compute/learning/live_identify.py:350-398 | A closing visit keeps that invariant exactly if it starts ahead of the watermark and of every place a current tick has listed, passed or clamped to |
| `LiveWorker.FirstSeedKeepsInvIff` | compute/learning/live_identify.py:419-442 | A first seed keeps it exactly if no current tick is past an unnamed visit above the new seed |
| `LiveWorker.WatermarkMeansNamed` | compute/learning/live_identify.py:350-398 | From any reset or quiet first seed on, while neither has happened, each closed visit above the last seed that starts at or below the in-memory watermark had both its detect and its identify complete |
| `LiveCoverage.LosesIff` | compute/learning/live_identify.py:350-442 | Exactly which steps cost a visit: after one of those two some future without another loses one, after any other step none does |
| `LiveCoverage.ReclosedVisitCanBeLost` | compute/learning/live_identify.py:331-398 | A run in which a listed visit's rows are deleted, their ids reused, and the visit that closes under them, above the watermark, is lost |
| `LiveCoverage.SerialSeedsAreQuiet` | compute/learning/live_identify.py:419-442 | If at most one start is between its flag test and its clearing of the flag, every first seed comes before there is any thread and strands nothing |
| `LiveCoverage.OrderSuffices` | compute/learning/live_identify.py:350-442 | First starts one at a time and visits closing above those closed before are enough for coverage |
| `LiveCoverage.LateFirstSeedLosesVisit` | compute/learning/live_identify.py:419-462 | A run of two overlapping first starts after which the late seed loses a visit |
| `LiveWorker.StaleTickNeverWrites` | compute/learning/live_identify.py:400-415 | A tick whose snapshot predates a reset never changes the watermark after it |
| `LiveWorker.TickKeepsItsEpoch` | compute/learning/live_identify.py:331-349 | Between two snapshots of a thread its tick keeps the epoch of the first |
| `LiveWorker.OneThreadAtATime` | compute/learning/live_identify.py:419-480 | However starts and stops interleave, the threads not told to stop are the current one while the worker runs, and no other |
| `LiveWorker.StaleTickIsAbandoned` | compute/learning/live_identify.py:347-392 | A tick that a reset has overtaken begins at most one more detect before its thread's next snapshot |
| `LiveWorker.StoppedThreadBeginsNothing` | compute/learning/live_identify.py:350-361 | A thread that was told to stop never begins another detect |
| `LiveTick.LiveIdentifyManager.Tick` | compute/learning/live_identify.py:278-398 | Of the listed visits, at most the cap, a tick names exactly those before the first that found a stop or a busy GPU, had a pass incomplete, or met a reset; detect and identify are asked for these and at most that one more; the watermark ends at the last one's end, or where a reset put it; an error is recorded exactly if a pass raised |
| `LiveTick.LiveIdentifyManager.Walk` | compute/learning/live_identify.py:350-398 | The visit loop advances past a visit exactly if no stop or busy signal was seen before it, both passes completed and no reset had landed, and ends at the first other one |
| `LiveTick.LiveIdentifyManager.BothPasses` | compute/learning/live_identify.py:356-392 | A visit is complete exactly if detect ran whole and identify returned; identify is asked for only after a whole detect |
| `JobQueue.StepKeepsInv` | compute/analysis/runner.py:815-1015 | Every enqueue, cancel, clear and completion keeps one worker, acceptance order, distinct live keys, and stop set exactly for targeted jobs |
| `JobQueue.LiveAndFinishedAreDistinct` | compute/analysis/runner.py:815-850 | Finished, running and pending together are the accepted ids minus the dropped, each once |
| `JobQueueTheorems.OneAtATime` | compute/analysis/runner.py:927-1015 | Never two workers, nothing pending without one that will promote it, and every finish leaves one live job fewer |
| `JobQueueTheorems.SweepsAreDeduplicated` | compute/analysis/runner.py:614-624 | No two live sweeps share a key in any reachable state |
| `JobQueueTheorems.ServedInOrder` | compute/analysis/runner.py:927-960 | Finished, then running, then pending is the accepted jobs in order of acceptance minus those dropped |
| `JobQueueTheorems.EveryJobInOnePlace` | compute/analysis/runner.py:868-907 | Every accepted job is in exactly one of finished, running, pending and dropped, and the numbers add up |
| `JobQueueTheorems.ReportIsHonest` | compute/analysis/runner.py:815-850 | The reported position is the index of the live job that will answer the request; deduped exactly if one has its key (for trainings: only the running one) |
| `JobQueueTheorems.PositionIsJobsAhead` | compute/analysis/runner.py:719-722 | When the job reported at position p runs, at most p jobs have finished since, exactly p unless one ahead was dropped |
| `JobQueueTheorems.CancelHitsOnlyTheCurrentJob` | compute/analysis/runner.py:854-907 | A cancel sets the event of the job current at that moment and nobody else's; a promoted job starts with a clear one |
| `JobQueueTheorems.DropsExactly` | compute/analysis/runner.py:868-907 | A cancel by id drops exactly that pending job, a clear and a stop all exactly the pending ones, every other action none |
| `JobQueueTheorems.OthersKeepTheirPlace` | compute/analysis/runner.py:868-907 | No drop touches the running job, and the jobs not dropped keep their order: a cancel by id takes that one job out of the pending ones |
| `JobQueueTheorems.DroppedWasAskedFor` | compute/analysis/runner.py:868-907 | In every run a job was dropped only by a cancel of its own id or by a clear, while it was waiting |
| `JobQueueTheorems.CanceledMeansTargeted` | compute/analysis/runner.py:982-1015 | A record says canceled only of a job that a cancel hit while it was running |
| `JobQueueTheorems.SweepVerdictIsExact` | compute/analysis/runner.py:986-1012 | A sweep's record is failed exactly if it raised and canceled exactly if it did not and was targeted |
| `JobQueueTheorems.TrainingVerdictIsExact` | compute/learning/runner.py:526-571 | A training's record is failed exactly if it raised, and canceled exactly if it did not, came back without a summary, and was targeted |
| `JobQueueTheorems.AbortIsRecordedCanceled` | compute/learning/runner.py:526-563 | A training run that aborted on a poll is recorded canceled, one that came back with its summary done however late it was targeted |
| `JobQueueTheorems.StopAllPromotesNothing` | compute/analysis/runner.py:897-907 | After stop_all and until the next request nothing is promoted and the running job keeps its event set |
| `JobQueueTheorems.StopAllEndsIdle` | compute/analysis/runner.py:897-907 | Once that job has finished the queue is idle and stays so |
| `JobManager.Manager.Enqueue` | compute/analysis/runner.py:815-850 | The method is the queue's enqueue, its reply the honest report, and its fresh event fresh exactly if it promoted |
| `JobManager.Manager.FindPending` | compute/analysis/runner.py:834-837 | The loop finds the first pending job with the key |
| `JobManager.Manager.Promote` | compute/analysis/runner.py:927-960 | Promotion installs a fresh event and leaves the old one as it was |
| `JobManager.Manager.Cancel` | compute/analysis/runner.py:854-866 | A cancel sets the current event in place and nothing when idle |
| `JobManager.Manager.CancelJob` | compute/analysis/runner.py:868-886 | By id: the running job's event, or that one pending job taken out (`JobQueueTheorems.OthersKeepTheirPlace`), or nothing |
| `JobManager.Manager.ClearPending` | compute/analysis/runner.py:888-895 | Pending is emptied, the running job untouched |
| `JobManager.Manager.StopAll` | compute/analysis/runner.py:897-907 | Both in one step |
| `JobManager.Manager.RecordAndPromote` | compute/analysis/runner.py:986-1015 | The worker's finally records, clears and promotes in one step |
| `JobManager.Manager.RecordOutcome` | compute/learning/runner.py:534-571 | The terminal state: failed over a returned summary over a set event |
| `JobQueue.RemoveAt` | compute/analysis/runner.py:883-886 | Taking out the found job is dropping exactly its id |
| `TrainingRun.SelectCrops` | compute/identification/gallery.py:204-224 | A gallery enrols the rows of the crops cut at the geometry asked for, capped per cat |
| `TrainingRun.RowsAtAre` | compute/identification/gallery.py:211-212 | Those are exactly the crops of that geometry, each as often as it is listed and in that order |
| `TrainingRun.FloorSurvivesTheCap` | compute/identification/gallery.py:216-228 | The cap never turns a buildable set into an insufficient one, nor back |
| `TrainingRun.TwoCatsIff` | compute/identification/gallery.py:226-228 | The floor is that some two labels are of different cats |
| `TrainingRun.TrainingStore.Build` | compute/identification/gallery.py:227-281 | Two floors around the embedding; aborted exactly if the labels pass the first and a poll sees the event set; faulted exactly if the artifact was reached and its write raised; a directory exactly if it was reached |
| `TrainingRun.TrainingStore.RunFeasibility` | compute/learning/runner.py:578-670 | One feasibility_runs row, exactly if nothing failed before it, or none; the job raises exactly if the write, the insert or the prune did, with the first of them; a failed insert takes the report away |
| `TrainingRun.TrainingStore.RunGalleryBuild` | compute/learning/runner.py:672-761 | Over the crops it enrols: one model_versions row or none, never without its artifact; the job raises exactly if the write or the insert did; a failed insert and too little data take the directory away |
| `TrainingRun.CanceledWroteNoRow` | compute/learning/runner.py:540-558 | Whatever the event says by then, a job recorded canceled wrote no row |
| `TrainingRun.RunIdentify` | compute/learning/runner.py:763-790 | Without an active model an error and nothing written; else it aborts exactly at the first progress report answered no, with the batches before it written |
| `TrainingRun.RunVisitIdentify` | compute/learning/runner.py:792-858 | A detect that raises fails the job, a stop during detect returns no summary, and neither writes an identification; no active model is a success |
| `Embedding.EmbedItems` | compute/identification/embed.py:368-452 | The vectors are the model's for exactly the readable items, aligned with their input indices; cancelled exactly if a cancelable report was answered no, at the first such |
| `Embedding.KeptAreReadable` | compute/identification/embed.py:412-452 | Kept indices are readable items in ascending order |
| `Embedding.ReadableAreKept` | compute/identification/embed.py:412-452 | Every readable item is kept |
| `Embedding.LateCancelDiscardsIff` | compute/identification/embed.py:398-406 | A report that may cancel is made with every embedding complete exactly if the kept items fill whole batches |
| `Embedding.LateCancelExample` | compute/identification/embed.py:445-449 | Two readable crops at batch size two: a no after them discards both |
| `Identify.KeptAlignsWithMatches` | compute/identification/gallery.py:516-521 | Through both layers of skipping the j-th vector belongs to the j-th matching frame |
| `Identify.BatchPersists` | compute/identification/gallery.py:504-532 | Writing a batch's matches and then its markers gives each frame its own row |
| `Identify.DroppedGetsAMarker` | compute/identification/gallery.py:522-528 | A boxed frame gets a marker exactly if the embedder dropped its crop |
| `Identify.MarkersAreExpected` | compute/identification/gallery.py:511-528 | The two comprehensions give one marker per frame without a crop and nothing else |
| `Identify.IdentifyPass.Flush` | compute/identification/gallery.py:504-532 | One flush writes its batch's rows, counts the named ones still stored, and leaves other rows alone |
| `Identify.IdentifyPass.MatchRows` | compute/identification/gallery.py:516-521 | The zip of matches and kept indices is the expected match rows in order |
| `Identify.IdentifyPass.Run` | compute/identification/gallery.py:498-540 | A pass gives every visited frame still stored its row and touches no other; it reports once before the first batch and once after each, and stops exactly at the first report answered no; n_identified is the match rows inserted |
| `Identify.MatchIsNearest` | compute/identification/gallery.py:387-400 | A match row names the cat of the first gallery vector nearest to the frame's own crop |
| `Identify.ConvergesIff` | compute/identification/gallery.py:396-397 | No visited frame stays without a row exactly if the gallery has vectors or none of them embeds |
| `Separability.RankAucIsAllPairs` | compute/identification/feasibility.py:107-120 | The sort and binary-search formula is the all-pairs count with ties at one half, for all multisets |
| `Separability.AucComplement` | compute/identification/feasibility.py:107-120 | Swapping the sides gives one minus it |
| `Separability.SearchCounts` | compute/identification/feasibility.py:113-119 | Searching the sorted distances counts the unsorted ones below and up to a value |
| `Separability.BestThresholdIsGlobal` | compute/identification/feasibility.py:123-153 | The threshold maximises balanced accuracy over every real threshold; a smaller one as good lies below every distance and only when the best is one half |
| `Separability.SameCandidatesSuffice` | compute/identification/feasibility.py:129-141 | It equals the first maximiser over same and different distances together, on every input |
| `VisitScoring.VotesAreForLiveColumns` | compute/identification/feasibility.py:362-367 | Every vote is for the nearest column outside the visit and the mask, at its true distance, exactly if there is one |
| `VisitScoring.ScoreableHasLiveColumn` | compute/identification/feasibility.py:345-367 | Outside stranger mode a scored visit always has one |
| `VisitScoring.VisitsAreConserved` | compute/identification/feasibility.py:369-371 | Correct, wrong and unknown make up the scored; scored and unscoreable the visits |
| `VisitScoring.ImpersonationsAreConserved` | compute/identification/feasibility.py:373-375 | Rejected and the three buckets make up the scored |
| `VisitScoring.RowSumsToScored` | compute/identification/feasibility.py:372 | A confusion row sums to its cat's scored visits |
| `VisitScoring.CellsOfARow` | compute/identification/feasibility.py:205-222 | Diagonal, last cell and rest of a row are the cat's correct, declined and wrong visits |
| `VisitScoring.CatsAddUp` | compute/identification/feasibility.py:180-222 | Counting cat by cat loses and repeats nothing |
| `VisitScoring.TrialsNameInRange` | compute/identification/feasibility.py:156-177 | A name from the span is a cat of this run |
| `VisitScoring.StrangersAreNeverCorrect` | compute/identification/feasibility.py:319-327 | With every crop of a cat masked out none of its visits is correct |
| `HeldOutScoring.HasOther` | compute/identification/feasibility.py:345-352 | The flag array finds whether the true cat has a crop left |
| `HeldOutScoring.NearestColumn` | compute/identification/feasibility.py:362-367 | Masking the row in place and taking its argmin gives the vote |
| `HeldOutScoring.Scoring.SkipUnscoreable` | compute/identification/feasibility.py:352-360 | A skipped visit is counted for its cat and nowhere else |
| `HeldOutScoring.Scoring.CountOutcome` | compute/identification/feasibility.py:369-375 | A scored visit's outcome, bucket and confusion cell are counted once |
| `HeldOutScoring.Scoring.CountCurve` | compute/identification/feasibility.py:379-385 | The same votes are counted at every threshold of the curve, once for each time it is listed |
| `HeldOutScoring.Scoring.Run` | compute/identification/feasibility.py:276-459 | Afterwards every counter, cell, named cat and curve point is the count of the held-out trials, a repeated threshold's times its repetitions |
| `HeldOutScoring.Scoring.PerCatRows` | compute/identification/feasibility.py:180-222 | Each cat's row is its visits by outcome, with recall over those named and the declined share, or none without visits |
| `HeldOutScoring.ScoresAreConserved` | compute/identification/feasibility.py:369-385 | At every threshold correct, wrong and unknown make up the same scored visits |
| `StrangerScoring.PassIsOfCat` | compute/identification/feasibility.py:513-527 | A cat's pass is over exactly that cat's visits |
| `StrangerScoring.Pass` | compute/identification/feasibility.py:386-421 | A stranger pass reports its trials' counts, the impersonated by subtraction and as whom, and their share; a curve point counts outcomes once for each time its threshold is listed, visits once |
| `StrangerScoring.NamedAreTheImpersonated` | compute/identification/feasibility.py:394-409 | The named list's counts add up to the impersonated |
| `StrangerScoring.StrangerBlock` | compute/identification/feasibility.py:469-569 | Totals and rates are those of every visit taken as a stranger, with one row per cat, and so is the curve, a repeated threshold's point added once for each time it is listed; unavailable exactly for no index, under three cats, or no visits |
| `StrangerScoring.DistinctCurve` | compute/identification/feasibility.py:507-567 | Thresholds listed once have the plain counts |
| `StrangerScoring.StrangersAreConserved` | compute/identification/feasibility.py:507-569 | The totals equal the visits, rejected plus the three buckets equal scored, and no outcome is correct |
| `IdentityVote.AggregateNamesFromSpan` | compute/collection/store.py:4948-5025 | The vote Run uses names a cat of the span or nobody, for every span and threshold |
| `IdentityVote.AggregateIsThePlurality` | compute/collection/store.py:5004-5025 | Somebody is named exactly if a vote is at or under the threshold; no cat has more such votes, none with as many a vote nearer than the winner's nearest, and a full tie goes to the cat seen first |
| `GalleryCap.CapIsFair` | compute/identification/gallery.py:54-107 | Exactly min(n, N) distinct crops of each cat, no better grade dropped for a worse, no cat lost, what was cut back in time order |
| `GalleryCap.CapSpreads` | compute/identification/gallery.py:84-106 | Of each grade of a cat over the cap exactly these are kept: all L of them if they fit in the room b the better grades leave, none if there is no room, else those at the positions i * L / b in time order |
| `GalleryCap.RowsOfCounts` | compute/identification/gallery.py:81-83 | Grouping the labels by cat loses and makes up nothing |
| `GalleryCap.CapAscends` | compute/identification/gallery.py:84-106 | The capped labels come cat by cat, ascending |
| `GalleryCap.StrideIsEven` | compute/identification/gallery.py:101-103 | The positions `GalleryCap.CapSpreads` names strictly increase by floor or ceiling of L / b, and the clamp is never reached |
| `GalleryCap.CapIsIdempotent` | compute/identification/gallery.py:54-107 | Capping what is capped changes nothing, order included |
| `GalleryCap.KeepsTheCap` | compute/identification/gallery.py:84-106 | min(n, N) crops of one cat are kept |
| `GalleryCap.NeverDropsABetterGrade` | compute/identification/gallery.py:90-105 | A kept crop is of a grade no worse than any left out |
| `GalleryCap.KeepsOnlyItsOwn` | compute/identification/gallery.py:84-106 | Nothing is kept twice or invented |
| `GalleryCap.TierByGrade` | compute/identification/gallery.py:110-116 | The dictionary holds each rank's rows in order |
| `GalleryCap.SpendTiers` | compute/identification/gallery.py:89-103 | The budget loop spends whole tiers, then strides the one that overflows; what that keeps is `GalleryCap.CapSpreads` |
| `GalleryCap.CapPerCat` | compute/identification/gallery.py:54-107 | The dictionary, tier and stride loops select exactly those rows in that order, and all of them without a cap of at least one |
| `Wire.BlockRoundTrips` | shared/wire.py:146-222 | Parsing a printed block gives the frame back, without its box if there is no motion, and the content length |
| `Wire.BoxRoundTrips` | shared/wire.py:130-143 | A printed box is parsed back |
| `Wire.GetIsLookup` | shared/wire.py:195-207 | Reading the printed lines by lowered name finds the field of that name |
| `WireParsing.AcceptsIff` | shared/wire.py:208-220 | A block, whoever printed it, is accepted exactly if the three integer headers are there and integers, the motion header is one of its two texts, and a box or an area that is there is numbers |
| `WireParsing.AcceptedMeans` | shared/wire.py:208-222 | Then the frame says what its headers say, without a box exactly if there is no such header, with area zero if there is none |
| `WireParsing.BoxIff` | shared/wire.py:130-143 | A box text is accepted exactly if it is four numbers separated by commas, and is these |
| `WireParsing.ParseIntIff` | shared/wire.py:273-301 | Exactly which texts are integers: whitespace around, one sign, digits with single underscores between |
| `WireParsing.UnknownIsIgnored` | shared/wire.py:188-207 | Unknown headers, the boundary and lines without a colon are ignored wherever they stand |
| `WireParsing.OrderIsIrrelevant` | shared/wire.py:188-207 | Headers of different names may come in any order |
| `WireParsing.CaseIsIrrelevant` | shared/wire.py:188-207 | And their names in any case |
| `WireParsing.StripIs` | shared/wire.py:207 | Stripping takes whitespace off both ends and leaves none there |
| `WireParsing.SplitUnsplit` | shared/wire.py:196-205 | Splitting a block into lines loses nothing and leaves no line end inside a line |
| `WireText.ParseIntText` | shared/wire.py:273-301 | Parsing a printed integer gives it back, negative ones included |
| `PartStream.StreamRoundTrips` | compute/ingest/client.py:206-213 | For any agreeing printer and reader of parts, reading a stream yields its frames and a clean end |
| `PartStream.CutStreamYieldsWholeFrames` | compute/ingest/client.py:206-213 | And a stream cut anywhere yields exactly the frames that had arrived whole |
| `StreamReading.PartIsRead` | compute/ingest/client.py:322-380 | A printed part is read back with its body and the rest of the stream untouched, whatever bytes the body holds |
| `StreamReading.BlockIsRead` | compute/ingest/client.py:322-360 | The header reader stops exactly at the end of a printed block |
| `StreamReading.SeparatorIs` | compute/ingest/client.py:339-350 | Of any stream the first loop skips exactly the blank lines; then there is nothing, a line that is the boundary, or one that is not |
| `StreamReading.PartIs` | compute/ingest/client.py:170-226 | Of any stream a part is exactly blank lines, a well-formed block that starts with the boundary, and as many body bytes as it says |
| `StreamReading.NoBoundaryNoPart` | compute/ingest/client.py:346-349 | Where a boundary is expected anything else ends the stream as corrupt |
| `StreamTruncation.CutKeepsTheLength` | compute/ingest/client.py:352-360 | A cut block that still has a frame id has its content length unaltered |
| `StreamTruncation.WireFrames` | compute/ingest/client.py:322-380 | The wire's printer and reader agree: read back in place, line ends skipped, cut parts yield nothing |
| `StreamTruncation.WireStreamRoundTrips` | compute/ingest/client.py:206-213 | Reading the concatenated parts yields exactly the frames, boxes cleared without motion, then a clean end |
| `StreamTruncation.CutWireStream` | compute/ingest/client.py:206-213 | On any prefix, with non-empty bodies, exactly the frames whose headers and body had arrived, never an altered one |
| `StreamTruncation.CutWireStreamIff` | compute/ingest/client.py:206-213 | Every prefix of a stream yields exactly the frames that had arrived whole, if and only if no body is empty |
| `StreamTruncation.EmptyBodyIsAltered` | compute/ingest/client.py:354-359 | With an empty body a cut before the area line is read as a frame of area zero, the frame itself exactly if its area is zero |
| `StreamClient.Reader.ReadHeaderBlock` | compute/ingest/client.py:322-360 | The two loops read the block the function describes |
| `StreamClient.Reader.ReadExact` | compute/ingest/client.py:363-380 | However the transport splits its reads, exactly n bytes or none |
| `StreamClient.FillHeaders` | shared/wire.py:195-207 | The dictionary holds the last value of each lowered name |
| `StreamClient.ParsePartHeaders` | shared/wire.py:184-222 | The parser with its early exits is the parse function |
| `StreamClient.IterStream` | compute/ingest/client.py:170-226 | The generator's loop yields the frames of the stream and ends as it does |
| `Suntimes.WindowIsEnough` | compute/analysis/suntimes.py:124-142 | If each day's events fall on its own UTC date and one lies in the window by then, the window gives the answer of all days |
| `Suntimes.WindowMissesIff` | compute/analysis/suntimes.py:135-140 | Otherwise the answer is day, wrong exactly if the latest event is a sunset |
| `Suntimes.YesterdayIsEnough` | compute/analysis/suntimes.py:128-134 | A resolvable day before always provides such an event |
| `Suntimes.AgreesWithIsNightIff` | compute/analysis/suntimes.py:72-142 | On a date whose sunrise precedes its sunset the classifier is the simple test exactly from sunrise on, or after a date of the same kind |
| `Suntimes.DisagreesAfterSunsetFirst` | compute/analysis/suntimes.py:101-107 | A date whose sunset came first, after which the two differ before sunrise |
| `Suntimes.NightClassifier.TimesFor` | compute/analysis/suntimes.py:116-122 | A lookup answers as the provider does and caches it, failures included; no date is ever asked for twice |
| `Suntimes.NightClassifier.Classify` | compute/analysis/suntimes.py:124-142 | Whatever is cached, the answer is the provider's alone |

## Left out

- Real time: socket timeouts, put timeouts, backoff, join timeouts and decode scheduling appear only as
  nondeterministic steps; a decode's result is fixed by its file, not by when it runs.
- Float rounding: scoring, thresholds and the stride are exact; a float stride could round an index
  differently.
- Persisted watermarks: only the in-memory value is modelled; the stored one is written after the lock
  is released.
- The store's SQL, its visit clustering and its eviction rule: frames and rows are maps, closed visits
  are listed by contract, eviction removes frames or whole oldest visits, a purge of the newest rows
  drops the visits it cuts into.
- LiveTick.LiveIdentifyManager.SeedOnFirstStart: the flag test, the watermark write and the clearing of
  the flag are one step here; `LiveWorker` interleaves them.
- OracleTick.YoloOracleManager.Tick: a fault before the chunk loop (building the analyzer, reading the store's
  latest id) ends the tick with the error recorded; so in `LiveTick`.
- StatelessTheorems.PersistedRefinesSerial: assumes a batch size of at least one and analyzers that give
  the same verdict batched and alone, as the analyzer contract asks.
- Identify.IdentifyPass.Run: rows of frames evicted during the pass are unconstrained; the embedder's
  model is per crop, batch-independent.
- HeldOutScoring.Scoring.Run: the per-visit outcome list, the day/night cross table and the caps
  forecast are not modelled.
- TrainingRun.TrainingStore.Build: the canonical form of a geometry stamp, charts and the contents of
  artifacts; the probe's own crop selection is given.
- Process-level exceptions, logging and its throttles, progress counters of the status poll.
- The HTTP endpoints, web pages, command-line tools, the edge server, collector, cleanup jobs and motion
  detection.
- The `/status` JSON parser: field checks without the framing that makes the stream hard.
