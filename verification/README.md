# Gopeed download core: a verified model

Gopeed downloads files over HTTP with many connections at once, schedules
downloads under a cap, and extracts archives when they are complete. This
project models the parts of that core whose correctness depends on
interleavings or on exact arithmetic, and proves what they keep over every run.

`dafny verify dfyconfig.toml` checks everything.

## What is modelled

**The ranged downloader** (`internal/protocol/http/fetcher.go`). A file of known
size is cut into inclusive byte ranges (section 14.1.2 of RFC 9110), one per
connection. Slow start splits ranges, finished connections steal half of a slow
one's remainder, connections fail, retry, pause, resume and are restored from
disk. Completion is decided by a byte counter.

* `RangedDownload` is the transition system: every section that runs under a lock (the
  connection lock, the slow-start controller's or the file's) is an event of its own.
  Reserving a read, writing it to disk and accounting for it are three events;
  registering a failure, telling the controller and marking the connection are three;
  a round of the download loop is four (signal, completion test, splits, commit). Any
  other goroutine may act in between. `Possible` is what the code itself requires for an event, `Honest`
  is what is assumed of the server, `Enabled` is both.
* `RangedInvariant` is what every event keeps, `RangedTheorems` the properties of
  whole runs and of whole lives (sessions separated by crashes and restores),
  `RangedBounds` fragmentation, termination and growth bounds. `RangedReads` follows one read
  from the network to the counters, `RangedChoices` says in numbers which ranges are divided
  and how, `RangedFailures` which failures count and what a start takes up again, and
  `RangedCompletion` what can always still be done: complete, pause, and go on.
* `HttpFetcher` is the fetcher as the source has it: shared mutable connection and
  chunk objects, a target file written in place, loops over the connection list.
  Each method is proved to perform exactly its event, `Fetcher.Step` that the
  invariant survives it, and `Fetcher.Run` that the object follows any run of the
  transition system. `SlowStart` does the same for the batch controller.
* `Prefetch` is how the prefix that resolving has fetched reaches the target file, and
  what becomes of it when a pause comes first.

**The scheduler** (`pkg/download/downloader.go`): `Scheduler` has the calls as
functions and their properties, `SchedulerOutcomes` what each call does to each download by
status and place in the list, `Downloader` the object whose loops perform them.

**The multi-part extraction claim** (same file): `ExtractionClaim`, the four steps
of each part under every interleaving, and the claim table as an object.

**The extraction queue** (`pkg/download/extract_queue.go`): `ExtractionQueue`, one
worker at a time, shutdown and restart, done channels; `ExtractionHistory` tells what becomes
of each job from the events alone.

**The concatenating reader** (`pkg/download/extract_zip.go`): `MultiPartReader`.

**File names** (`pkg/util/path.go`): `SafeFilename` on top of `Utf8` (RFC 3629,
sections 3 and 4), and `DuplicateName`.

`Basics` and `Sums` are small helpers.

## Assumptions

* The server answers a range request with the file's bytes inside the requested
  range. It may send more than was asked, and then anything. A body that ends
  cleanly has delivered the whole requested range; a short body is an error.
* The resource has a positive known size and supports ranges; at least one
  connection is configured (`fetcher.go:326-332` enforces this).
* The target file is open while connections run. `Start` comes when no goroutine
  runs, in the state resolved, paused or error.
* The prefetch holds the file's first bytes. That they reach the target file is not
  assumed: the finished file is right exactly when they did.
* A connection's measured speed is an arbitrary number at each accounting; time,
  retry delays and timeouts do not appear.
* Only private steps of a goroutine are merged into the event they follow, and a start with
  its resets and its first round is one event: no other goroutine of the download runs then.
* A snapshot of the connections is taken atomically. Bytes written to the target file survive
  a crash of the program; the program never flushes the file to disk, so a crash of the whole
  machine is not covered.
* Scheduler calls and wake-ups run one at a time with a fixed cap, and saved state
  can be restored; the effect of a restore failure is stated exactly. Download
  entries are compared by identity where the source compares unique random ids.
* The claim protocol has a fixed set of part downloads, and each job is given to the
  extraction queue once.
* Part files do not change between being measured and being read.

## Where the natural claim is false

* A range given up after a 403 causes no error, and nobody takes it over: a download
  can end in the done state with bytes missing (`ForbiddenDownloadEndsDone`).
  `FinishOutcome` states exactly when it does, and which bytes are missing.
* A start from a pause does not take up a range that was given up, nor does anybody else
  (`GivenUpStaysOwed`); a start after an error, or after a restore, takes up everything
  (`RetryAfterError`, `RestoredCanComplete`). Every start that leaves nothing given up can
  complete the file (`StartCanComplete`).
* A running download can get stuck, in exactly one case: all goroutines have stopped while the
  download loop waits for a signal (`StuckIff`); never after a resume (`ResumedIsNeverStuck`).
* A slow-start batch does not wake the expander as soon as all its connections have
  answered: if the last of those answers is a failure after some success, it takes another
  answer. `BatchSignalsIff` says when it is woken, for every list of answers.
* A pause between resolving and the first start removes the prefetched bytes but keeps
  their count. The finished file is then right exactly when the target held those bytes
  anyway, and likewise wherever a failed write was ignored while copying
  (`PrefetchedDownloadIsCompleteIff`); a small file can even be done at once with nothing
  fetched (`LostPrefetchEndsDone`).
* Extraction is at least once, not exactly once (`ExtractedTwice`). An archive is extracted at
  most once exactly as long as nobody claims it after its extraction was over
  (`ExtractedOnceIff`).
* The wait queue may hold stale entries and duplicates. A filtered pause leaves the
  entry (`FilteredPauseLeavesEntry`), and a wake-up may then start a paused download
  (`WakeUpStartsPausedTask`); `PausedIsWokenUp` is a run in which it does.
* Deleting removes one queue entry: a download that was queued twice stays queued after
  it was deleted (`DeleteLeavesDuplicate`, with the run of `WaiterIsQueuedTwice`).
* If a waiter's saved state cannot be restored when its turn comes, it is lost
  (`FailedRestoreLosesWaiter`, with the run of `WaiterIsLost`).
* A read that ends before the buffer is full returns no error, although the
  documentation of Go's `io.ReaderAt` demands one (`Reader.ReadAt`).
* The comment on `SafeFilename` promises correct truncation of multi-byte characters.
  The result is well-formed UTF-8 exactly when the part of the name that is never cut
  is (`SafeNameIsValidIff`).
* `CheckDuplicateAndRename` uses the name as a format template, so "a%%" becomes
  "a% (1)". Among names whose verbs are "%%", "%d" and "%T", the promised name results
  exactly when there is no '%' at all (`PromiseHoldsIff`, `PercentIsSwallowed`). A name with
  "%T" makes it try one and the same name for ever if that is taken
  (`TypeIsTriedForever`); `SearchEndsIff` says when the search ends. For other verbs, such as
  "%*d", `AnySearchEndsIff` says it in terms of how many names the formatter can print. It
  also never ends if every name tried is refused with another error than "does not exist".

## Model

| member | source | states |
|---|---|---|
| SlowStart.CommitKeepsGrowth | internal/protocol/http/fetcher.go:197-205 | Committing an offered batch keeps: the next batch is 2^k, launched connections are at most the configured maximum and 2^k - 1, and exactly the smaller of the two if all batches were full. |
| SlowStart.BatchesGrowExponentially | internal/protocol/http/fetcher.go:175-205 | For every list of offered batches, at most min(max, 2^k - 1) connections are launched; exactly that many when each batch had the size offered. |
| SlowStart.BatchSignalsIff | internal/protocol/http/fetcher.go:138-171 | After committing a batch of n connections and any list of answers, of any length: the download loop has a signal exactly when it had one, a success came as the n-th answer or later, or n failures were counted. |
| SlowStart.SlowStartController.OnConnectSuccess | internal/protocol/http/fetcher.go:138-152 | The whole new controller state; reports and signals exactly when all pending connections of the batch answered. |
| SlowStart.SlowStartController.OnConnectFailed | internal/protocol/http/fetcher.go:155-171 | The whole new state: one pending connection fewer, a signal when none is left. |
| SlowStart.SlowStartController.GetNextBatchSize | internal/protocol/http/fetcher.go:175-194 | The doubled size capped by the free slots, 0 when there are none. |
| SlowStart.SlowStartController.CommitBatch | internal/protocol/http/fetcher.go:197-205 | The whole new state after a batch is launched. |
| RangedInvariant.ShrinkKeepsConn | internal/protocol/http/fetcher.go:843-857 | A range may lose its end as long as a full buffer still fits: whatever read its connection has in flight stays inside it. |
| RangedInvariant.SplitKeepsTiling | internal/protocol/http/fetcher.go:855-857 | The halves of a split cover exactly what the range covered: every offset stays in exactly one range. |
| RangedInvariant.SplitKeepsLayout | internal/protocol/http/fetcher.go:832-870 | Splitting any splittable range keeps the tiling, the byte counter, in-flight reads, fetched content and the minimum extent. |
| RangedInvariant.StealKeepsTiling | internal/protocol/http/fetcher.go:1408-1413 | A theft moves the latter half; the helper's finished range is retired, and no offset is lost or doubled. |
| RangedInvariant.StealKeepsLayout | internal/protocol/http/fetcher.go:1371-1414 | The same for a theft, at any moment of the victim's reserve, write and account steps. |
| RangedInvariant.ReplaceKeepsLayout | internal/protocol/http/fetcher.go:1063-1119 | A connection that writes only inside its own remainder and accounts only what it wrote keeps everybody's ranges and bytes intact. |
| RangedInvariant.FileStepImproves | internal/protocol/http/fetcher.go:1087-1095 | A disk write, even one that fails half-way, only turns wrong offsets into right ones. |
| RangedInvariant.ConnStepKeepsConn | internal/protocol/http/fetcher.go:978-1128 | Every step of a connection, under an honest server, keeps its range, its in-flight read and its accounted bytes right. |
| RangedInvariant.StartKeepsInv | internal/protocol/http/fetcher.go:600-688 | Starting, resuming and retrying after an error keep the invariant. |
| RangedInvariant.ExpandKeepsInv | internal/protocol/http/fetcher.go:769-879 | Splitting off a batch of any size, or none, keeps the invariant; the new connections are in the list but have no goroutine yet. |
| RangedInvariant.CommitKeepsInv | internal/protocol/http/fetcher.go:881-888 | So does committing and launching the batch, whatever the other connections did since the splits. |
| RangedInvariant.HelpKeepsInv | internal/protocol/http/fetcher.go:1371-1414 | A connection that helps, or finds nobody to help, keeps the invariant. |
| RangedInvariant.NextKeepsInv | internal/protocol/http/fetcher.go:769-1128 | Every enabled event in every state keeps the invariant: tiling without gap or overlap, every remainder at least 0, counter plus remainders equal to the size, accounted bytes right, reserved reads inside their range. |
| RangedInvariant.NextImprovesFile | internal/protocol/http/fetcher.go:1087-1100 | No event ever spoils an offset that holds the server's byte. |
| RangedTheorems.RunKeepsInv | internal/protocol/http/fetcher.go:690-739 | The invariant holds in every state of every run. |
| RangedTheorems.RunIsLater | internal/protocol/http/fetcher.go:1087-1100 | Over any stretch of a run, right offsets stay right and nothing below the prefix is written. |
| RangedTheorems.RestoreKeepsInv | internal/protocol/http/fetcher_manager.go:73-101 | A snapshot is never ahead of the file: restoring it onto the file of any later step gives a state that satisfies the invariant again. |
| RangedTheorems.LifeKeepsInv | internal/protocol/http/fetcher_manager.go:84-101 | The invariant holds in every state of every life: any number of sessions, each restored from any snapshot of the one before. |
| RangedTheorems.RangesAreDisjoint | internal/protocol/http/fetcher.go:1408-1413 | No offset lies in two ranges, current or retired. |
| RangedTheorems.RangesCoverFile | internal/protocol/http/fetcher.go:806-814 | Every offset beyond the prefix lies in some range. |
| RangedTheorems.WritesAreDisjoint | internal/protocol/http/fetcher.go:1063-1119 | The bytes a connection has in flight lie inside its own range and meet no other connection's range or flight, nor any retired range, even when victim and helper run together and the server sends too much. |
| RangedTheorems.ReservationHolds | internal/protocol/http/fetcher.go:1070-1100 | From reserving through writing until it is accounted for, through any splits and thefts by others, a read starts at its range's next offset and fits what is left of it; one that was cut is all that is left; once written, its bytes are right on disk. |
| RangedReads.ReadIsKept | internal/protocol/http/fetcher.go:1063-1119 | In every run, whatever others do between reserving and accounting: the bytes of a read there was room for stand in the file where the range was at, range and connection counter grow by exactly their number, and the attempt ends exactly if some were left out. |
| RangedReads.AsksForWhatItOwes | internal/protocol/http/fetcher.go:985-1002 | A request asks for the offsets the range still owes, and is not sent if there are none. |
| RangedReads.LateReadIsDropped | internal/protocol/http/fetcher.go:1070-1078 | A read that comes after the range was fetched or taken is written nowhere and ends the attempt. |
| RangedReads.FailedWriteIsNotCounted | internal/protocol/http/fetcher.go:1087-1095 | A write that fails half-way leaves right bytes behind, counts none of them, and is a failure without a status. |
| RangedTheorems.CounterMatchesCoverage | internal/protocol/http/fetcher.go:1465-1493 | The byte counter never exceeds the size, and reaches it exactly when no range has bytes left. |
| RangedTheorems.FetchedOrOwed | internal/protocol/http/fetcher.go:1097-1100 | Each offset beyond the prefix is right on disk or still owed by a connection. |
| RangedTheorems.CompleteRangesAreCorrect | internal/protocol/http/fetcher.go:1475-1493 | When no range has bytes left, the file beyond the prefix is the server's. |
| RangedTheorems.NextReducesRemaining | internal/protocol/http/fetcher.go:1097-1100 | No event adds to the bytes owed; accounting removes exactly what it accounts. |
| RangedTheorems.ProgressIsMonotone | internal/protocol/http/fetcher.go:1709-1725 | Reported progress never falls over a run, across pauses, resumes and retries. |
| RangedTheorems.FinishOutcome | internal/protocol/http/fetcher.go:1462-1536 | When all goroutines have exited uncancelled, the outcome is an error exactly when some connection gave up on something other than a 403; otherwise the missing bytes are exactly the remainders of those that met a 403. |
| RangedTheorems.DoneIsCorrect | internal/protocol/http/fetcher.go:786-803 | A download that becomes done, by its last goroutine or in a first start that finds everything prefetched, has the server's content beyond the prefix unless a range was abandoned. |
| RangedTheorems.DoneMeansComplete | internal/protocol/http/fetcher.go:1462-1536 | In every life, both ways of becoming done, with no abandoned range: the server's content beyond the prefix, and the whole content exactly when the prefix was in place at first. |
| Prefetch.Prefetch.Receive | internal/protocol/http/fetcher.go:494-502 | Bytes and count grow together. |
| Prefetch.Prefetch.Cleanup | internal/protocol/http/fetcher.go:562-572 | The bytes are gone, the count stays. |
| Prefetch.Prefetch.StopAndCopy | internal/protocol/http/fetcher.go:516-560 | The buffered copy puts the temporary file at the beginning of the target, except from the first byte that the disk refuses to the end of that buffer, which goes unnoticed; the count is returned whether or not there was a file. |
| Prefetch.Prefetch.WriteBuffer | internal/protocol/http/fetcher.go:548-551 | One write up to the first byte that the disk refuses: exactly which bytes changed. |
| Prefetch.PrefixInPlaceIff | internal/protocol/http/fetcher.go:538-559 | After the copy the prefix is right exactly when the target held the right byte already wherever none was written. |
| Prefetch.PrefetchedDownloadIsCompleteIff | internal/protocol/http/fetcher.go:532-559 | A run that starts with the prefetch, paused before or not, and becomes done either way with no abandoned range, has the server's content exactly under that condition: with no temporary file left, exactly when the target held the whole prefix already. |
| Prefetch.LostPrefetchEndsDone | internal/protocol/http/fetcher.go:786-803 | After a pause that lost a complete prefetch, the start is done at once and leaves a wrong file wrong. |
| RangedBounds.CoverBelowCountsOffsets | internal/protocol/http/fetcher.go:81-83 | Summing the cover over offsets equals summing lengths over ranges. |
| RangedBounds.ExtentsAddUp | internal/protocol/http/fetcher.go:806-814 | All range lengths add up to the bytes beyond the prefix. |
| RangedBounds.DivisionsCountRanges | internal/protocol/http/fetcher.go:859-869 | Over any run, current and retired ranges grow in number by exactly the splits and thefts. |
| RangedBounds.DivisionsAreBounded | internal/protocol/http/fetcher.go:829-857 | If any split or theft happened in a run, (1 + splits + thefts) * 262143 is at most size minus prefix. |
| RangedBounds.LifeDivisionsAreBounded | internal/protocol/http/fetcher_manager.go:84-101 | The same over a whole life: the splits and thefts behind a state, in its session and behind the snapshots it goes back to, obey the same bound. |
| RangedBounds.HelpReducesIdle | internal/protocol/http/fetcher.go:1371-1414 | A theft leaves one running connection fewer with nothing to do; finding nobody changes nothing. |
| RangedBounds.ProductiveEventsDecrease | internal/protocol/http/fetcher.go:911-925 | Each accounted read, split, theft and completion decreases bytes owed, free slots and idle connections lexicographically. |
| RangedBounds.ProductiveEventsAreBounded | internal/protocol/http/fetcher.go:905-972 | Within a session, however goroutines interleave and whatever fails, such events number at most twice the bytes owed plus free slots plus idle connections at its start. |
| RangedBounds.ConnectionsGrowExponentially | internal/protocol/http/fetcher.go:690-739 | In a first session connections number what the controller launched plus a batch about to be committed, at most min(max, 2^k - 1) with k batches, exactly that if every batch was full. |
| RangedBounds.ExpansionProgresses | internal/protocol/http/fetcher.go:769-879 | Each later round splits off at least one new connection and at most the batch, or ends the expansion with every range unchanged. |
| RangedBounds.CommitLaunchesBatch | internal/protocol/http/fetcher.go:881-888 | Committing launches exactly what was split off, and the controller counts every connection. |
| RangedBounds.FirstRound | internal/protocol/http/fetcher.go:783-824 | The first round gives everything beyond the prefix to one connection credited with the prefix, or is done when the prefix covers the file. |
| RangedBounds.SlowestIsFirstMaximum | internal/protocol/http/fetcher.go:1375-1402 | If anyone is worth robbing the helper finds a victim, and it is the first of those that need longest. |
| RangedBounds.LargestIsFirstMaximum | internal/protocol/http/fetcher.go:832-852 | Likewise the first of the largest ranges worth splitting. |
| RangedChoices.HelpDecides | internal/protocol/http/fetcher.go:1371-1414 | If some other working connection has at least 512 KiB and, at its measured speed, four seconds left, the helper takes the latter half of what the first of the slowest has left (one or two bytes more than it keeps) and starts on it with a clean record; if none has, it is done. Everybody else stays as before. |
| RangedChoices.SplitDecides | internal/protocol/http/fetcher.go:832-869 | A split happens exactly if some working connection has more than 1 MiB left, and gives the latter half of what the first of the largest has left (or one byte less) to a new connection. |
| RangedChoices.SplitsAreGreedy | internal/protocol/http/fetcher.go:829-870 | A batch is a chain of such splits, as long as the batch allows or until nothing is worth splitting. |
| RangedChoices.ExpandDecides | internal/protocol/http/fetcher.go:769-888 | A round offers the smaller of the free slots and 2^k after k batches; expansion ends exactly if no slot is free or nothing is worth splitting, and otherwise the splits are to be committed. |
| RangedChoices.SignalsNeedAnswers | internal/protocol/http/fetcher.go:138-171 | In every run the download loop wakes at most once per answer of a connection. |
| RangedChoices.CheckGoesOnIff | internal/protocol/http/fetcher.go:1538-1574 | The loop goes on expanding exactly if bytes are missing and some connection has neither completed nor failed. |
| RangedBounds.ResumeSkipsAbandoned | internal/protocol/http/fetcher.go:1429-1433 | Resuming leaves a range given up after a 403 alone. |
| RangedFailures.RetryAfterError | internal/protocol/http/fetcher.go:608-627 | A start after an error launches every connection that has not completed with a clean record, those given up after a 403 or three failures included, and leaves completed ones alone. |
| RangedFailures.ResumeLaunchesIff | internal/protocol/http/fetcher.go:1416-1452 | Any other start launches exactly the connections that have neither completed nor been given up, leaves the others as they are, and changes no range. |
| RangedFailures.GivenUpStaysOwed | internal/protocol/http/fetcher.go:1429-1438 | After such a start, in every run until the next, a range that was given up stays as it is and bytes are missing. |
| RangedFailures.FailedAttemptEnds | internal/protocol/http/fetcher.go:927-965 | From an error its goroutine has one way to go: a 5xx, 408, 429, 440, 499 or a failure without status is retried and not counted, a 403 ends it, any other status is counted and ends it the third time. |
| RangedFailures.FailedFlagIff | internal/protocol/http/fetcher.go:937-951 | Over all events: the failure flag is set exactly by a failure that is not transient and cleared exactly by an answer or a new launch. |
| RangedFailures.StatesChangeIff | internal/protocol/http/fetcher.go:896-965 | Over all events: which ones, and no others, complete a connection, put it into the failed state or take it out, and set or clear its last error. |
| RangedFailures.ThirdStrikeGivesUp | internal/protocol/http/fetcher.go:948-965 | In every run a connection gives up exactly at the third counted failure since it began or last took over a range; there is never a fourth. |
| RangedFailures.StatesTell | internal/protocol/http/fetcher.go:1045-1055 | In every run a connection has the state NotStarted until it begins and another one from then on, and Downloading whenever it receives, so that it can be helped. |
| RangedFailures.FirstFailureIsReported | internal/protocol/http/fetcher.go:1475-1514 | The error reported at the end is that of the first connection that gave up on something other than a 403; none is reported if there is none. |
| RangedFailures.RefusedNeverRetries | internal/protocol/http/fetcher.go:938-947 | In every run a connection that met a 403 sends no request until the next start, and nobody takes over the bytes it owes. |
| RangedBounds.RestoreRetriesEverything | internal/protocol/http/fetcher_manager.go:16-19 | Failure flags are not saved, so after a restore a start is possible and takes up exactly the connections that had not completed, hence every range with bytes left. |
| RangedCompletion.StartCanComplete | internal/protocol/http/fetcher.go:600-739 | From every state that satisfies the invariant and in which a start is possible, after an error always and otherwise unless a range was given up, there is a run of honest events that begins with the start and ends done with everything beyond the prefix fetched. |
| RangedCompletion.FailedCanComplete | internal/protocol/http/fetcher.go:590-627 | A download that ended with an error can be started again and brought to the complete file, whatever had been given up. |
| RangedCompletion.RestoreKeepsRanges | internal/protocol/http/fetcher_manager.go:73-101 | A restore brings back every range, counter and completion as saved, hence the progress; failure flags and speeds are forgotten. |
| RangedCompletion.RestoredCanComplete | internal/protocol/http/fetcher_manager.go:84-101 | Any snapshot on the file of any later moment can be brought to the complete file, ranges given up before included. |
| RangedCompletion.CanPause | internal/protocol/http/fetcher.go:1648-1679 | From every state but the resolved one a pause can take hold, whatever the goroutines are at; the progress is kept and a start is possible again. |
| RangedCompletion.RunEndsLoop | internal/protocol/http/fetcher.go:690-739 | In every run a download that is paused, failed or done has no download loop, unless its first round found everything prefetched. |
| RangedCompletion.StuckIff | internal/protocol/http/fetcher.go:715-739 | In every run, a running download that was not cancelled can take no step exactly if all its goroutines have stopped while the loop waits for a signal it has not got. |
| RangedCompletion.ResumedIsNeverStuck | internal/protocol/http/fetcher.go:704-713 | In every run that starts with connections, until the next start, it can always take one. |
| RangedBounds.ForbiddenDownloadEndsDone | internal/protocol/http/fetcher.go:1475-1493 | A run, for any file and server content, that ends done with nothing fetched. |
| HttpFetcher.Connection.Reserve | internal/protocol/http/fetcher.go:1063-1085 | How much of a read is to be written, and where: the connection's whole new state. |
| HttpFetcher.Connection.Account | internal/protocol/http/fetcher.go:1097-1118 | Range and connection counters grow by the written count; ends the attempt if the read was cut. |
| HttpFetcher.Connection.Register | internal/protocol/http/fetcher.go:931-951 | A 403 marks the connection as failed, another counted failure is counted, anything else is marked for a retry. |
| HttpFetcher.Connection.Told | internal/protocol/http/fetcher.go:943-955 | Once the controller knows, the goroutine returns after a 403. |
| HttpFetcher.Connection.Mark | internal/protocol/http/fetcher.go:955-965 | The connection is marked as failed, and gives up after three counted failures. |
| HttpFetcher.Connection.TakeHalf | internal/protocol/http/fetcher.go:1408-1413 | Both ranges after a theft. |
| HttpFetcher.Connection.Reset | internal/protocol/http/fetcher.go:618-626 | What a retry after an error forgets. |
| HttpFetcher.Connection.Resume | internal/protocol/http/fetcher.go:1421-1444 | Which connections a resume skips and what it resets. |
| HttpFetcher.Fetcher.constructor | internal/protocol/http/fetcher.go:574-600 | A resolved fetcher satisfies the invariant. |
| HttpFetcher.Fetcher.Store | internal/protocol/http/fetcher_manager.go:73-82 | What is saved of each connection. |
| HttpFetcher.Fetcher.Restored | internal/protocol/http/fetcher_manager.go:84-101 | The object restored from saved connections is the restored state of the transition system. |
| HttpFetcher.Fetcher.Write | internal/protocol/http/fetcher.go:1087-1095 | The file after writing the reserved bytes in place; nothing else changes. |
| HttpFetcher.Fetcher.WriteError | internal/protocol/http/fetcher.go:1089-1093 | The file and the connection after a write that failed part-way. |
| HttpFetcher.Fetcher.FindSlowest | internal/protocol/http/fetcher.go:1375-1406 | The scan finds the victim of the specification. |
| HttpFetcher.Fetcher.Help | internal/protocol/http/fetcher.go:1371-1414 | Performs the help event: theft in place, or nobody to help. |
| HttpFetcher.Fetcher.Complete | internal/protocol/http/fetcher.go:914-918 | Performs the completion. |
| HttpFetcher.Fetcher.Announce | internal/protocol/http/fetcher.go:1053-1055 | The controller learns of an answer, after the connection was marked as downloading. |
| HttpFetcher.Fetcher.Report | internal/protocol/http/fetcher.go:943-954 | The controller learns of a counted failure. |
| HttpFetcher.Fetcher.FindLargest | internal/protocol/http/fetcher.go:833-852 | The scan finds the range to split. |
| HttpFetcher.Fetcher.SplitOne | internal/protocol/http/fetcher.go:854-869 | The victim object shrinks, a new connection object owns the rest, all others are untouched. |
| HttpFetcher.Fetcher.SplitBatch | internal/protocol/http/fetcher.go:831-870 | The splitting loop performs a whole batch. |
| HttpFetcher.Fetcher.Progress | internal/protocol/http/fetcher.go:1709-1725 | The sum of the connections' byte counters. |
| HttpFetcher.Fetcher.CheckCompletion | internal/protocol/http/fetcher.go:1538-1574 | True exactly when the counter reached the size or no connection is pending. |
| HttpFetcher.Fetcher.Receive | internal/protocol/http/fetcher.go:722-722 | The download loop takes a signal. |
| HttpFetcher.Fetcher.Check | internal/protocol/http/fetcher.go:724-728 | It tests for completion. |
| HttpFetcher.Fetcher.Expand | internal/protocol/http/fetcher.go:769-879 | It splits off a batch, or stops expanding. |
| HttpFetcher.Fetcher.Commit | internal/protocol/http/fetcher.go:881-888 | It commits the batch and launches exactly its connections. |
| HttpFetcher.Fetcher.Start | internal/protocol/http/fetcher.go:600-688 | Performs the start event: reset, resume, or first connection. |
| HttpFetcher.Fetcher.FirstConnection | internal/protocol/http/fetcher.go:783-824 | The state after the first round. |
| HttpFetcher.Fetcher.ResumeConnections | internal/protocol/http/fetcher.go:1416-1452 | All connections after reset and resume. |
| HttpFetcher.Fetcher.PauseDone | internal/protocol/http/fetcher.go:1648-1679 | Pausing changes the stage only. |
| HttpFetcher.Fetcher.FindError | internal/protocol/http/fetcher.go:1475-1514 | The first reportable connection, or none if the download counts as complete. |
| HttpFetcher.Fetcher.OnDownloadComplete | internal/protocol/http/fetcher.go:1462-1536 | Performs the finish event. |
| HttpFetcher.Fetcher.Step | internal/protocol/http/fetcher.go:690-1128 | For every enabled event the object does exactly what the transition system says and keeps the invariant. |
| HttpFetcher.Fetcher.Run | internal/protocol/http/fetcher.go:690-1128 | The object follows any run, of any length. |
| Scheduler.CreateKeepsInv | pkg/download/downloader.go:1128-1142 | Creating keeps the cap and loses no waiter. |
| Scheduler.NotifyKeepsInv | pkg/download/downloader.go:411-426 | So does waking the head of the queue, stale or not. |
| Scheduler.PauseKeepsInv | pkg/download/downloader.go:524-561 | So does pausing some or all. |
| Scheduler.ContinueFillsTheCap | pkg/download/downloader.go:564-618 | A filtered Continue leaves exactly min(cap, running + requested) running: the first of the requested, in place of exactly as many pre-empted as needed, which were running. |
| Scheduler.ContinueAllStartsRoom | pkg/download/downloader.go:621-648 | An unfiltered Continue pre-empts nobody and starts exactly as many as there is room for. |
| Scheduler.ContinueAllFillsTheCap | pkg/download/downloader.go:621-648 | Afterwards exactly min(cap, running + startable) run. |
| Scheduler.ContinueLeavesOthers | pkg/download/downloader.go:584-608 | After a filtered Continue those pre-empted or refused wait in the queue, and no status changes but theirs and those of the started. |
| Scheduler.CreateTakesFreeSlot | pkg/download/downloader.go:1132-1141 | A new download takes a free slot if there is one, otherwise it waits at the end of the queue; nobody else changes. |
| Scheduler.WakeUpTakesFreeSlot | pkg/download/downloader.go:411-426 | A wake-up gives a free slot to a stopped, listed head of the queue: one more runs, the queue loses its head. |
| Scheduler.PauseStopsMatching | pkg/download/downloader.go:524-543 | A filtered pause stops exactly what its filter matches, with the excluded statuses overwritten by paused, failed and done. |
| Scheduler.PauseAllStopsEverything | pkg/download/downloader.go:545-561 | An unfiltered pause stops everything not done, and empties the queue. |
| Scheduler.PauseAllThenContinueAll | pkg/download/downloader.go:545-648 | Pausing and then continuing everything runs min(cap, downloads not done), whatever the state was before. |
| Scheduler.RemoveEachMembers | pkg/download/downloader.go:684-697 | Deleting drops from the list exactly what it should, and from the queue nobody else. |
| Scheduler.DeleteKeepsInv | pkg/download/downloader.go:664-709 | Delete removes exactly the matching entries and keeps cap and queue. |
| Scheduler.NextKeepsInv | pkg/download/downloader.go:411-648 | Every call keeps the cap and loses no waiter. |
| Scheduler.CapAndQueueHold | pkg/download/downloader.go:411-648 | After any sequence of calls, wake-ups, completions and failures, at most the cap run and everyone who waits is queued. |
| Scheduler.FailedRestoreLosesWaiter | pkg/download/downloader.go:420-424 | If the head's saved state cannot be restored, a waiter is lost exactly when the head is listed, waits and was queued once. |
| Scheduler.WaiterIsLost | pkg/download/downloader.go:411-426 | A sequence of calls from an empty list after which that happens. |
| Scheduler.WakeUpStartsPausedTask | pkg/download/downloader.go:411-426 | A wake-up starts a paused entry exactly when a stale entry for it heads the queue and a slot is free. |
| Scheduler.PausedIsWokenUp | pkg/download/downloader.go:411-426 | A sequence of calls from an empty list after which that happens. |
| Scheduler.DeleteLeavesDuplicate | pkg/download/downloader.go:684-697 | A deleted download leaves the list, and leaves the queue exactly if it was not queued more than once. |
| Scheduler.WaiterIsQueuedTwice | pkg/download/downloader.go:601-608 | A sequence of calls from an empty list that queues a waiter twice, so that it stays queued when deleted. |
| Scheduler.FilteredPauseLeavesEntry | pkg/download/downloader.go:524-543 | A filtered pause of a waiter leaves its queue entry. |
| SchedulerOutcomes.RequestedIff | pkg/download/downloader.go:569-576 | A filtered Continue asks for exactly the listed downloads that pass its identifiers and statuses and are neither running nor done. |
| SchedulerOutcomes.SelectInOrder | pkg/download/downloader.go:862-911 | Selected downloads stand in list order. |
| SchedulerOutcomes.ContinueDecides | pkg/download/downloader.go:578-618 | The new status of each listed download: of those asked for, the first in the list run, as many as the cap allows, the others wait; of those running the first wait, as many as must; nobody else changes. |
| SchedulerOutcomes.ContinueQueues | pkg/download/downloader.go:591-608 | Who has to wait is appended to the queue in list order, those who gave way first; the exact length and place. |
| SchedulerOutcomes.ContinueOne | pkg/download/downloader.go:564-618 | Continuing one stopped or failed download runs it whenever the cap is at least 1, and makes at most the first running one wait. |
| SchedulerOutcomes.ContinueAllDecides | pkg/download/downloader.go:621-648 | Without a filter the first stopped downloads fill the free slots, the others wait, and nobody else changes. |
| SchedulerOutcomes.ContinueAllQueues | pkg/download/downloader.go:629-639 | Those who wait are appended to the queue in list order. |
| SchedulerOutcomes.WakeUpDecides | pkg/download/downloader.go:411-426 | In every state: with a free slot and a queue the head leaves it and runs unless it is done; nothing else happens. |
| SchedulerOutcomes.FreedSlotGoesToHead | pkg/download/downloader.go:985-1068 | A slot freed by success or failure goes to the head of the queue at the next wake-up, and the one that gave it up keeps its outcome. |
| SchedulerOutcomes.OnlyFailedIsContinued | pkg/download/downloader.go:569-576 | Continued by id, a failed download runs again and a finished one stays done. |
| SchedulerOutcomes.PauseDecides | pkg/download/downloader.go:524-543 | A filtered pause changes nothing but the status of what passes the identifiers and statuses and is not paused, failed or done. |
| SchedulerOutcomes.DeleteDecides | pkg/download/downloader.go:664-709 | A filtered delete unlists exactly what passes the filter, takes one queue entry for each of them, and changes no status. |
| SchedulerOutcomes.DeleteAllThenCreate | pkg/download/downloader.go:711-730 | After deleting everything nothing is listed or queued, and a new download runs at once. |
| Scheduler.RemoveFirstAt | pkg/download/downloader.go:684-697 | The first occurrence is cut out and the rest keeps its order. |
| Downloader.Downloader.RemainRunningCount | pkg/download/downloader.go:428-436 | The cap minus the running entries. |
| Downloader.Downloader.GetTasksByFilter | pkg/download/downloader.go:862-911 | Exactly the matching entries, in list order. |
| Downloader.Downloader.DoCreate | pkg/download/downloader.go:1128-1142 | Performs Create and keeps the invariant. |
| Downloader.Downloader.NotifyRunning | pkg/download/downloader.go:411-426 | Performs a wake-up. |
| Downloader.Downloader.PauseSome | pkg/download/downloader.go:524-543 | Performs a filtered pause; reports whether anything matched, as the source's not-found error does. |
| Downloader.Downloader.PauseAll | pkg/download/downloader.go:545-561 | Performs an unfiltered pause. |
| Downloader.Downloader.PreemptRunning | pkg/download/downloader.go:584-599 | The loop pauses and queues exactly the first running entries it needs. |
| Downloader.Downloader.ContinueSome | pkg/download/downloader.go:564-618 | Performs a filtered Continue, object by object; reports whether anything matched. |
| Downloader.Downloader.ContinueAll | pkg/download/downloader.go:621-648 | Performs an unfiltered Continue. |
| Downloader.Downloader.DeleteSome | pkg/download/downloader.go:664-709 | Performs a filtered Delete on list and queue. |
| Downloader.Downloader.DeleteAll | pkg/download/downloader.go:711-730 | Empties list and queue. |
| Downloader.Downloader.OnDone | pkg/download/downloader.go:985-995 | A completion. |
| Downloader.Downloader.DoOnError | pkg/download/downloader.go:1058-1068 | A failure. |
| ExtractionClaim.NextKeepsInv | pkg/download/downloader.go:1385-1551 | In every interleaving: the claim table names exactly those extracting; who found it taken was not the first; once all parts have checked, one of them saw all done. |
| ExtractionClaim.AtMostOneClaim | pkg/download/downloader.go:1487-1497 | Never two claims on one archive. |
| ExtractionClaim.SomePartExtracts | pkg/download/downloader.go:1385-1435 | Once every part has passed its check and attempt, one has claimed the extraction. |
| ExtractionClaim.LastCheckSeesAll | pkg/download/downloader.go:1451-1482 | The last part to check finds all parts done. |
| ExtractionClaim.ClaimSucceedsIffFree | pkg/download/downloader.go:1487-1497 | A ready part extracts exactly when nobody extracts the archive at that moment, whatever happened before. |
| ExtractionClaim.CheckMeetsMissingPart | pkg/download/downloader.go:1394-1403 | A check ends in waiting exactly if some part of the archive is still downloading, and otherwise in ready; nobody else changes. |
| ExtractionClaim.ExtractedOnlyWhenComplete | pkg/download/downloader.go:1471-1481 | In every state of every run, a part that is about to claim, extracts or has extracted has all parts of its archive downloaded. |
| ExtractionClaim.NextOnceIff | pkg/download/downloader.go:1487-1551 | One event makes an archive extracted more than once exactly when it is a claim that comes after an extraction and during none. |
| ExtractionClaim.ExtractedOnceIff | pkg/download/downloader.go:1385-1551 | Over any run, an archive has been extracted at most once exactly as long as there was no such claim. |
| ExtractionClaim.ExtractedTwice | pkg/download/downloader.go:1499-1551 | A run in which one archive is extracted twice. |
| ExtractionClaim.Claims.AllTasksDone | pkg/download/downloader.go:1451-1482 | True exactly when the archive has parts and all are done. |
| ExtractionClaim.Claims.FinishPart | pkg/download/downloader.go:991-991 | A part's download completes. |
| ExtractionClaim.Claims.CheckPart | pkg/download/downloader.go:1391-1403 | Performs a part's check. |
| ExtractionClaim.Claims.TryClaim | pkg/download/downloader.go:1487-1497 | Performs the atomic claim and reports whether it succeeded. |
| ExtractionClaim.Claims.ReleaseClaim | pkg/download/downloader.go:1501-1503 | Performs the release. |
| ExtractionQueue.NextKeepsInv | pkg/download/extract_queue.go:52-186 | Every section of every goroutine keeps: one worker at most, each job in exactly one place, done signals exactly for executed and dropped jobs, order of arrival. |
| ExtractionQueue.EachJobOnce | pkg/download/extract_queue.go:52-186 | Over any run with stops and restarts: at most one worker and one executing job; every job is exactly once among pending, current, executed and discarded; its done channel is closed at most once, and exactly when it was executed or dropped. |
| ExtractionQueue.ExitReleasesWaiters | pkg/download/extract_queue.go:162-171 | When a worker exits, the done channel of every job enqueued so far is closed and nothing is pending. |
| ExtractionQueue.FirstInFirstOut | pkg/download/extract_queue.go:173-184 | Execution order is a subsequence of the order of arrival. |
| ExtractionQueue.NothingLostWithoutDiscards | pkg/download/extract_queue.go:81-97 | If nothing was dropped, executed, current and pending jobs in this order are all jobs in order of arrival. |
| ExtractionHistory.FlagsFollow | pkg/download/extract_queue.go:52-79 | A worker runs from a Start to its exit; the queue is shut down from a Stop that meets a worker to the next Start that meets none; jobs are recorded in the order they were enqueued. |
| ExtractionHistory.DroppedIff | pkg/download/extract_queue.go:84-186 | In every run a job was dropped exactly if it came while the queue was shut down, was removed while pending, or was pending when a worker left. |
| ExtractionHistory.ExecutedIff | pkg/download/extract_queue.go:178-184 | A job counts as executed exactly if a worker held it and completed it. |
| ExtractionHistory.NothingDroppedUnlessStopped | pkg/download/extract_queue.go:84-186 | In a run without Stop and Remove nothing is dropped: executed, current and pending jobs are all that were enqueued, in order. |
| ExtractionHistory.ArrivalIsPending | pkg/download/extract_queue.go:92-97 | A job that comes while the queue is not shut down is appended to the pending ones, its done channel open. |
| ExtractionHistory.WorkerDrains | pkg/download/extract_queue.go:155-186 | From every state with a worker that is not shutting down, taking and completing executes the current and all pending jobs in order and drops none. |
| ExtractionQueue.Job.Close | pkg/download/extract_queue.go:184-184 | A done channel is closed only if it is open; closing it twice would panic. |
| ExtractionQueue.Queue.Start | pkg/download/extract_queue.go:52-64 | Performs Start. |
| ExtractionQueue.Queue.Stop | pkg/download/extract_queue.go:68-76 | Raises the shutdown flag if a worker runs. |
| ExtractionQueue.StopReleasesEverybody | pkg/download/extract_queue.go:66-79 | Once the wait for the worker is over, every job enqueued before has been executed or dropped and its waiters released. |
| ExtractionQueue.Queue.Enqueue | pkg/download/extract_queue.go:84-97 | Performs Enqueue; a job that comes during shutdown is signalled at once. |
| ExtractionQueue.Queue.RemovePendingJob | pkg/download/extract_queue.go:135-149 | Removes and signals the first pending job with the id, or reports that there is none and changes nothing. |
| ExtractionQueue.Queue.WorkerTake | pkg/download/extract_queue.go:173-176 | The worker dequeues the head. |
| ExtractionQueue.Queue.WorkerComplete | pkg/download/extract_queue.go:178-184 | The executed job is signalled. |
| ExtractionQueue.Queue.WorkerExit | pkg/download/extract_queue.go:162-171 | The exiting worker signals every pending job and empties the queue. |
| ExtractionQueue.Queue.Step | pkg/download/extract_queue.go:52-186 | Every enabled event on the objects does what the transition system says, closes no channel twice, and keeps the invariant. |
| MultiPartReader.PartIsSlice | pkg/download/extract_zip.go:46-55 | Part i is exactly the slice of the concatenation between its offset and the next. |
| MultiPartReader.CopyOn | pkg/download/extract_zip.go:84-92 | Appending what was read of a part extends the stretch copied so far. |
| MultiPartReader.Handle.ReadAt | pkg/download/extract_zip.go:90-90 | One file's positional read, including I/O errors after any number of bytes. |
| MultiPartReader.Reader.Init | pkg/download/extract_zip.go:101-131 | Opens all parts or none: an open reader is left alone; success exactly when every part can be opened and measured; on failure every file opened so far is closed. |
| MultiPartReader.Reader.Size | pkg/download/extract_zip.go:133-138 | The length of the concatenation, 0 if it cannot be opened. |
| MultiPartReader.Reader.ReadAt | pkg/download/extract_zip.go:140-181 | For any parts, empty ones included, and any offset: min(len(p), total - off) bytes equal to that slice of the concatenation, the rest of p untouched, end of file beyond it, an error for a negative offset; after an I/O error the bytes returned are still right. Also after Close and a new Init. |
| MultiPartReader.Reader.Close | pkg/download/extract_zip.go:183-191 | Every file ever opened is closed. |
| Utf8.DecodeEncode | pkg/util/path.go:302-304 | An encoded character is recognised and read back, whatever follows (RFC 3629, section 3). |
| Utf8.ValidIffEncoded | pkg/util/path.go:302-304 | The byte sequences of RFC 3629, section 4, are exactly the encoded texts. |
| SafeFilename.ListsAreForbidding | pkg/util/path_windows.go:3-3 | The forbidden characters of both platforms, and that they are ASCII and neither underscore nor dot. |
| SafeFilename.TruncateAtValidUtf8Boundary | pkg/util/path.go:290-310 | The loop finds the longest well-formed prefix within the limit. |
| SafeFilename.TruncateFilename | pkg/util/path.go:254-286 | Performs the truncation that keeps the extension, for every limit. |
| SafeFilename.SafeFilename | pkg/util/path.go:197-238 | The sequence of replacements equals replacing each forbidden byte, followed by truncation to 100 bytes. |
| SafeFilename.CleaningKeepsValidity | pkg/util/path.go:202-205 | Replacing ASCII characters neither makes nor breaks well-formedness. |
| SafeFilename.CutLosesAtMostThree | pkg/util/path.go:298-307 | Truncation of well-formed text loses at most three bytes below the limit. |
| SafeFilename.CutKeepsWholeCharacters | pkg/util/path.go:290-310 | A truncated text is the text of exactly the leading characters that fit. |
| SafeFilename.TruncatedIsBounded | pkg/util/path.go:254-286 | For every limit: within it, idempotent, well formed if the name was, and at most three bytes short. |
| SafeFilename.SafeNameIsSafe | pkg/util/path.go:192-238 | At most 100 bytes, no forbidden character; short names are only cleaned; long well-formed ones keep at least 97 bytes. |
| SafeFilename.SafeNameIsValidIff | pkg/util/path.go:196-238 | The result is well formed exactly when the part never cut is: so whenever the name was. |
| SafeFilename.SafeNameIsIdempotent | pkg/util/path.go:197-238 | Making a safe name safe changes nothing. |
| SafeFilename.SafeNameKeepsExtension | pkg/util/path.go:212-237 | The recognised extension survives, after a prefix of the base name. |
| SafeFilename.ExtensionIsBehindDot | pkg/util/path.go:262-270 | "x.y" has the extension ".y" exactly if x and y are not empty and ".y" has fewer than 20 bytes. |
| SafeFilename.LongNameKeepsBehindDot | pkg/util/path.go:197-286 | Then the safe name of "x.y" is as much of x as there is room for, followed by ".y", with forbidden characters replaced: all of x if it fits, and otherwise at most three bytes short of the room if x is well formed. |
| SafeFilename.ShortNameKeepsCharacters | pkg/util/path.go:202-205 | A name of at most 100 bytes changes only at its forbidden characters, which become underscores. |
| DuplicateName.DecimalRoundTrip | pkg/util/path.go:68-68 | A printed index is read back, so printing is injective. |
| DuplicateName.CandidateIs | pkg/util/path.go:55-68 | The names tried in closed form: the number is printed by the first verb of the stem, if it has one, and otherwise behind the stem. |
| DuplicateName.CandidatesAreDistinctIff | pkg/util/path.go:67-68 | Names tried are pairwise distinct exactly when the first verb is not "%T". |
| DuplicateName.PromiseHoldsIff | pkg/util/path.go:38-41 | The name tried is the documented one exactly when the name has no percent sign. |
| DuplicateName.PercentIsSwallowed | pkg/util/path.go:61-68 | A name for which it is not. |
| DuplicateName.TypeIsTriedForever | pkg/util/path.go:67-73 | A name for which one and the same name is tried over and over. |
| DuplicateName.SearchEndsIff | pkg/util/path.go:67-73 | In every finite directory some name tried is free exactly when the first verb is not "%T", or that one name is free. |
| DuplicateName.AnySearchEndsIff | pkg/util/path.go:67-73 | Whatever the formatter prints for the numbers: in every finite directory some name tried is free exactly when infinitely many names can be tried, or one of the finitely many is free. |
| DuplicateName.FewProbes | pkg/util/path.go:67-73 | Where the number is printed, the first free name comes after at most one probe more than there are entries. |
| DuplicateName.PlainNameIsNumbered | pkg/util/path.go:38-41 | For names without a percent sign in a finite directory the search ends, soon enough, with the documented name. |
| DuplicateName.NumberBeforeExtension | pkg/util/path.go:55-66 | "x.y", with x not empty and neither dot nor separator in y, becomes "x (i).y". |
| DuplicateName.NumberAtEnd | pkg/util/path.go:55-61 | A name whose last dot is its first character, is followed by a separator, or does not exist gets the number at its end. |
| DuplicateName.EveryNameHasItsPlace | pkg/util/path.go:55-66 | Every name is of exactly one of these two kinds. |
| DuplicateName.PlainExtensionIsKept | pkg/util/path.go:38-41 | What is tried for a plain "x.y" is "x (i).y". |
| DuplicateName.DecimalIsCanonical | pkg/util/path.go:68-68 | Numbers are printed as digits without leading zeros. |
| DuplicateName.CheckDuplicateAndRename | pkg/util/path.go:42-74 | For every name, every directory, finite or not, and every formatter: an unused name is kept, an unreadable one is an error, and a used one gets the least index that makes it unused. |

## Left out

- Downloads without range support or of unknown size: their single range is a dummy, so completion says nothing about coverage.
- Servers that ignore the range header, or end a body early without an error.
- A prefetch that receives more bytes than the file has, or whose temporary file cannot be read back.
- A snapshot taken while a connection is between two assignments of one accounting step; `Store` takes no lock. The storage that keeps a pointer instead of a copy.
- The abandoned read of the timeout reader, which could still fill a shared buffer.
- The extra goroutine that waits for completion after an expansion that launched nothing (`fetcher.go:877`), and races between two waiters.
- That a download comes to its end by itself, beyond what `StuckIff` and `StartCanComplete` say, and work conservation of the scheduler.
- 64-bit overflow of byte counts, connection roles and identifiers, speed averaging, redirects and adaptive timeouts.
- Interleavings inside one scheduler call, `ContinueBatch`, changes of the cap while running, and errors from pausing or deleting.
- Part downloads that are added or removed while an archive is being claimed, and the displayed extraction status.
- DuplicateName.CheckDuplicateAndRename: requires that some name tried is free, because the search of the source does not end otherwise; `SearchEndsIff` says when one is.
- DuplicateName.SearchEndsIff: covers names whose verbs are "%%", "%d" and "%T"; what Go prints for any other verb is not part of this model, and `AnySearchEndsIff` leaves it open.
- ExtractionQueue.Queue.Stop: does not wait for the worker; the end of that wait is the moment `StopReleasesEverybody` speaks of.
- ExtractionClaim.SomePartExtracts: says nothing about a part whose process ends between check and claim.
- BitTorrent, archive formats, storage, the extension engine, webhooks, scripts, the REST server, the updater and the user interface.
