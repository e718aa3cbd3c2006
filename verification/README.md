# Models of the transfer, lock, queue, sweep and registry code

Each module below models one protocol or algorithm of the repository and proves what its
documentation and tests promise, for all inputs, all replies of the other side and all
interleavings. Where a promise does not hold, a lemma gives an input on which it fails and
another states exactly when it holds. `dafny verify dfyconfig.toml` checks everything.

- **FTP writes** (`FtpPaths`, `FtpServer`, `FtpWrite`, `FtpMkdir`): `put`, `replace` and
  `mkdir` against a server that may answer anything. Methods change a `Server` object, which
  records each state it passes through; promises are about every recorded state, so a client
  that dies at any point is covered. The commands are those of section 4.1.3 of RFC 959 (CWD:
  section 4.1.1) and SIZE of section 4 of RFC 3659.
- **Fleet engine** (`FleetWorkers`, `FleetGate`, `FleetStop`): the mkdir and delete workers as
  loops over the same server, the streaming download and the stop flag of `delete` as state
  machines of threads.
- **Renewed lock** (`RedisLock`, `LockRenewal`, `TaskLog`): timed state machine of
  invocations, watchdogs and an expiring key; the tolerance of the renewal schedule; the
  record list.
- **Lease queue** (`ItemQueue`, `ItemQueueWorker`): one step per Redis command for any number
  of workers, and the methods themselves as paths of that machine.
- **Row sweep** (`SweepArithmetic`, `RowSweep`, `SweepTightness`, `SweepSimulation`,
  `ClockSlots`): the sharp coverage theorem under churn, the simulated week, and the clock.
- **Agreement with a simple specification** (`Calendar`, `ListDate`, `SearchPages`,
  `DateFolders`, `Retention`, `JobRegistry`).
- `Wrappers` and `Sequences` hold the shared option, result and sorting notions.

Assumptions: a good FTP reply means the command ran, a clean refusal that it did not, a lost
or undecodable reply either; a reply that timed out never turns up as the answer to a later
command; RNTO replaces a file atomically or refuses; MKD needs an existing
parent; the random temp name is unused; nobody else writes to the server; Redis commands and
scripts are atomic, and a key whose expiry has come is absent; the search result set is fixed
and ranked by the request's sort; an object listing is the common-prefix rollup of the keys,
with the object named like the prefix itself among its entries. Random draws, clocks,
handler verdicts, callbacks and transfer cut-offs are arbitrary.

Where the code and its documentation differ, the models follow the code:

- `replace` (line 565 of `ftp_handler/core/client.py`) says the target is untouched when it
  drops the temp, but an undecodable RNTO reply leads there too, and the rename may have run.
  `FtpWrite.GarbledRenameReplaces` is such a case, and `FtpWrite.RefusalMeansUntouched` says
  exactly when the comment is right. The target is complete either way.
- `delete` (line 786 of `fleet_downloader.py`) says that an abandoned host sends no further
  DELE or RMD once the caller has been told; the entry already past the check still goes out
  (`FleetStop.ToldTooEarly`), and only that one (`FleetStop.StopIsFinalIff`).
- The fence of `download` also holds when it ends by an exception, unless that is an interrupt
  inside the loop that closes the gates, which leaves later ones open
  (`FleetGate.BrokenOffIsNotFenced`).
- A lock orphaned by a crash can outlast its ttl by one more if an extend was on its way
  (`RedisLock.OrphanBound`).
- A failed push of a record is swallowed, so the list may show an end without its start
  (`RedisLock.LogsPairUp` has the exact condition).
- The overlap that churn needs is a little less than half the larger edit count when
  insertions and deletions differ by at least a slot count; `SweepTightness.CoverageIff` has
  the exact value.
- `slot_count` in `weekly_sweep.py` says the period must reach the interval; because it
  rounds, any period above half the interval is accepted.
- A worker of an abandoned host lists a file that its closed gate dropped; the report leaves
  that worker out altogether.
- Overlapping `reclaim_expired` calls can duplicate an item without any live lease running
  out (`ItemQueue.OverlappingReclaimsDuplicate`).
- `max_records` 0 keeps every task record, since `LTRIM 0 -1` trims nothing.
- `list_date_folders` takes a folder marker or a doubled slash under a month for a day of
  that month, and `delete_older_than` then removes more than the dated files
  (`Retention.RetentionExactIff` has the exact condition).
- A year-less listing time of 29 February of the year before cannot be parsed.
- The comment about an evicted job in `jobs.py` (line 128) describes a case that cannot occur.

## Model

| member | source | states |
|---|---|---|
| FtpWrite.FtpClient.Put | ftp_handler/core/client.py:474-522 | Writing a new file or overwriting one, against every sequence of good, refused, lost and undecodable replies: at every recorded state the other paths are untouched, the target is as before, absent (only when overwriting, and then the temp holds all the data) or holds all the data, so old content and new content are never both gone. Without `overwrite` and with an accurate SIZE an existing target is never touched, no byte is sent before a SIZE found nothing there, and each rename comes right after such a SIZE. A normal return means target complete and no temp; an exception names the temp whenever it may be left, whenever the rename or DELE is uncertain, and whenever the DELE may have run. After a clean refusal, a lost connection before the rename, a tripped deadline or TargetExists the target is as before, unless a DELE may have run. The exception is that of a command that failed; with the connection up and no DELE of the target the last command is the DELE of the temp, which is named exactly if that got no good reply; the connection is dropped exactly on TransferUncertain and TransferTimeout, and then the temp is named. With `overwrite` each rename comes right after a SIZE that found nothing or a DELE that got a good reply. With a helpful server it returns |
| FtpWrite.FtpClient.PutAt | ftp_handler/core/client.py:474-522 | The same promises for any target and temp path that differ |
| FtpWrite.FtpClient.PutStaged | ftp_handler/core/client.py:482-522 | The same promises from the STOR on |
| FtpWrite.FtpClient.StageChecked | ftp_handler/core/client.py:482-491 | STOR and second look: the target is as before whatever happens, and going on means the temp is complete and, without `overwrite`, that SIZE has just found nothing |
| FtpWrite.FtpClient.FailInstall | ftp_handler/core/client.py:508-522 | Which failures of the rename keep the temp, name it, delete it, or drop the connection |
| FtpWrite.FtpClient.RenameOver | ftp_handler/core/client.py:507-522 | The rename with its handlers: the error, the clean-up and the target after each reply |
| FtpWrite.FtpClient.Install | ftp_handler/core/client.py:492-522 | From a complete temp: DELE if overwriting, then rename; what each reply leads to, that a failure after a possible DELE keeps and names the temp, and that a clean failure without one leaves the target as it was |
| FtpWrite.FtpClient.Clear | ftp_handler/core/client.py:494-506 | The old target goes only while the temp holds everything; a DELE that is not cleanly refused is taken as having run; going on means that SIZE found nothing or the DELE got a good reply, and a DELE goes out only right after a SIZE that found the target |
| FtpWrite.FtpClient.Replace | ftp_handler/core/client.py:544-566 | Never absent if it was there, never partial, other paths untouched, never deleted; normal return means the new data and no temp; a cleanly refused rename, a failed STOR or a tripped deadline leaves the old content; the exception is that of the command that failed, the last command then is the DELE of the temp unless the connection was dropped, and the temp is named exactly if it may remain |
| FtpWrite.FtpClient.ReplaceAt | ftp_handler/core/client.py:550-566 | The same promises for any target and temp path that differ |
| FtpWrite.RefusalMeansUntouched | ftp_handler/core/client.py:538-566 | Exactly when the reply to the rename means that the target is untouched: it is a clean refusal |
| FtpWrite.GarbledRenameReplaces | ftp_handler/core/client.py:564-566 | An input for which the handler of a refused rename runs although the old content is gone |
| FtpWrite.FtpClient.Stage | ftp_handler/core/client.py:479-491 | The transfer to the temp, cut at any byte or at the deadline, leaves the target alone, and a good reply means all of it arrived |
| FtpWrite.FtpClient.Abandon | ftp_handler/core/client.py:487-491 | Giving up deletes the temp and nothing else if the connection is up, and names it exactly if that got no good reply or nothing could be sent |
| FtpWrite.FtpClient.DropTemp | ftp_handler/core/client.py:568-575 | One DELE, and no name on the exception exactly when it got a good reply, the temp then being gone; on a discarded connection nothing is sent and the temp is named |
| FtpWrite.FtpClient.Exists | ftp_handler/core/client.py:577-589 | SIZE goes out only right after a good TYPE I; yes only for a path that is there (a server may give a directory a size), no exactly on a 550, which means no file there if SIZE is accurate; any other refusal propagates; nothing changes |
| FtpWrite.TempIsNotTarget | ftp_handler/core/client.py:476 | The temp name never resolves to the target or to the root, whatever the path text (`..`, `.`, trailing slash) and the session directory |
| FtpPaths.RenderRoundTrip | ftp_handler/core/client.py:636-647 | The text PWD gives for a directory leads back to that directory from anywhere |
| FtpMkdir.Mkdir | ftp_handler/core/client.py:612-623 | For any path, floor and replies: MKD goes to the places that one more part of the path leads to each, in order, from the floor on (or from the start without one) through the last, or up to the one that failed, and all before that one are directories then; it is sent only from the starting directory and only for strict descendants of the floor; a missing floor stays missing and the call fails without changing anything; success means the path is a directory; nothing is removed; every exit is in the original directory or with the connection dropped; refusals of levels that exist are survived, and a server that refuses only what cannot be done lets the call succeed whenever the floor is a directory and no level is a file |
| FtpMkdir.MakeLevels | ftp_handler/core/client.py:618-623 | The loop over the levels past the floor: which MKDs went out, which levels are directories after it, and when it must not fail |
| FtpMkdir.ProbeCovered | ftp_handler/core/client.py:613-617 | Nothing to make: success exactly if the probe enters the directory |
| FtpMkdir.LevelAt | ftp_handler/core/client.py:73-75 | The k-th level leads where k + 1 parts of the path lead |
| FtpMkdir.MakeLevel | ftp_handler/core/client.py:619-623 | One level: MKD, and a look inside after a permanent refusal |
| FtpMkdir.ProbeDir | ftp_handler/core/client.py:629-651 | CWD in and back: yes only for a directory, and on a server that refuses only what cannot be done for every directory; the connection is dropped exactly when a CWD in was not answered clearly or one back not well, so the session is never left inside |
| FtpMkdir.FloorAccepted | ftp_handler/core/client.py:73-86 | Without `..` and from a common origin, the component test accepts a floor exactly when it resolves to the directory or an ancestor |
| FtpMkdir.LevelsBelowFloor | ftp_handler/core/client.py:73-86 | Every level past the floor resolves strictly below it, and the last one to the directory asked for |
| FtpMkdir.FirstLevelHasNoParent | ftp_handler/core/client.py:618-620 | With the floor missing, the first MKD has no parent directory to succeed in |
| FleetWorkers.MkdirWorker | ftp_handler/direct_downloader/fleet_downloader.py:1092-1122 | Every MKD is sent from the login directory, and nothing after the directory is lost; unless login or PWD fails each entry is reported once; a result is a directory; nothing is removed; with tolerable replies, or on a server that refuses only what cannot be done when no file is in the way, every entry succeeds |
| FleetWorkers.RunMkdirs | ftp_handler/direct_downloader/fleet_downloader.py:1095-1116 | The same over the work list in an open session |
| FleetWorkers.MakeDirs | ftp_handler/direct_downloader/fleet_downloader.py:1237-1251 | `mkdir -p`: MKD goes to each non-empty prefix in order, the shortest first, through the whole path or up to the one that failed; success means the path is a directory; the directory counts as lost exactly if the record does not end at home |
| FleetWorkers.MakePrefix | ftp_handler/direct_downloader/fleet_downloader.py:1242-1251 | One prefix: MKD, settled by a look inside exactly if it was permanently refused, and failing with that refusal |
| FleetWorkers.PrefixResolves | ftp_handler/direct_downloader/fleet_downloader.py:1237-1241 | The i-th prefix names the directory after the first i components |
| FleetWorkers.CwdHome | ftp_handler/direct_downloader/fleet_downloader.py:1254-1266 | Back in the login directory, or lost; an unknown login directory counts as lost |
| FleetWorkers.DeleteWorker | ftp_handler/direct_downloader/fleet_downloader.py:1132-1164 | Every DELE and RMD is sent from the login directory, DELE for the files and then RMD for the directories, in their order and each once: for every entry up to the stop, or up to the one that lost the session, from which on all have failed; only requested paths disappear; each entry up to the stop is reported once; a result was removed and is gone, or both SIZE and CWD answered 550 |
| FleetWorkers.RunDeletes | ftp_handler/direct_downloader/fleet_downloader.py:1138-1159 | The same over the work list, stopping where the flag is first seen: a removal was sent for each entry accounted for, unless the session was lost |
| FleetWorkers.RemoveOrAbsent | ftp_handler/direct_downloader/fleet_downloader.py:1289-1310 | One removal, probed exactly after a permanent refusal; success exactly when it got a good reply or both probes answered 550; the session is lost exactly if the record does not end at home, and any other failure is the refusal, or that of asking for the size |
| FleetWorkers.Settle | ftp_handler/direct_downloader/fleet_downloader.py:1292-1310 | The probes after a refusal change nothing, succeed exactly when both answer 550, and lose the session exactly if they do not end at home |
| FleetWorkers.DisciplineMeans | ftp_handler/direct_downloader/fleet_downloader.py:1254-1272 | What the session tracking amounts to: in an unbroken record everything but CWD is sent from home, and once the session has left, only a CWD home follows, and only after a clearly good reply |
| FleetGate.CallbackFence | ftp_handler/direct_downloader/fleet_downloader.py:602-610 | In every interleaving of the main thread and the workers, once `download` has returned no callback runs, starts or completes, and the report no longer changes |
| FleetGate.ReportSound | ftp_handler/direct_downloader/fleet_downloader.py:883-930 | A report returned normally, by multiplicity: of a host given up on one failure and nothing else; of any other exactly one HostFailure if it could not be reached, each failed listing and each failed file once, and each file once whose callback completed; both lists are in spec order |
| FleetGate.ReportComplete | ftp_handler/direct_downloader/fleet_downloader.py:883-956 | Every host was given up on (its gate was closed, or its worker raised before any file) or finished; of one that finished and was reached every path is in the report once, as a file or as a failure, and a path that was retrieved is a failure exactly if its callback raised |
| FleetGate.StopsSoon | ftp_handler/direct_downloader/fleet_downloader.py:943-948 | Once its gate is closed a worker begins no file any more, so it is through with at most the one in hand |
| FleetGate.FailuresAreIsolated | ftp_handler/direct_downloader/fleet_downloader.py:919-926 | One host never sinks the fleet: without an interrupt or a BaseException of a callback no failure of a listing, a file, a callback or a worker interrupts the download |
| FleetGate.RunsEnd | ftp_handler/direct_downloader/fleet_downloader.py:883-930 | Every interleaving is finite: no longer than its listings and paths allow |
| FleetGate.NeverStuck | ftp_handler/direct_downloader/fleet_downloader.py:883-930 | And none ever gets stuck: until the download has ended some step is possible that is neither an interrupt nor a timeout, closing a gate included |
| FleetGate.HostFence | ftp_handler/direct_downloader/fleet_downloader.py:907-912 | From the moment one host's gate is closed, long before `download` returns, no callback of that host runs, starts or completes in any later state |
| FleetGate.AbandonedIsFenced | ftp_handler/direct_downloader/fleet_downloader.py:907-930 | Hence once a host is recorded as failed, whether given up on or raising, it emits no success any more |
| FleetGate.BrokenOffIsNotFenced | ftp_handler/direct_downloader/fleet_downloader.py:702-704 | The fence needs the closing loop to finish: after an interrupt in it a gate is still open and a callback starts |
| FleetStop.ToldMeansStopped | ftp_handler/direct_downloader/fleet_downloader.py:786-798 | However the flag and the worker of `delete` race: once the caller has been told that the host failed, at most the entry then in hand is still sent |
| FleetStop.StopIsPrompt | ftp_handler/direct_downloader/fleet_downloader.py:1138-1141 | The same from the moment the flag is set |
| FleetStop.StopIsFinalIff | ftp_handler/direct_downloader/fleet_downloader.py:1138-1141 | With the flag set another removal can go out exactly if the worker is between its check and the command |
| FleetStop.WorkerEnds | ftp_handler/direct_downloader/fleet_downloader.py:1132-1164 | Each step of the worker brings it closer to its end |
| FleetStop.EndOf | ftp_handler/direct_downloader/fleet_downloader.py:1132-1164 | What ends the worker: no session, the flag seen set, the list exhausted or the session lost, and nothing else |
| FleetStop.ToldTooEarly | ftp_handler/direct_downloader/fleet_downloader.py:786-787 | A run in which that happens after the caller was told |
| FleetStop.SendsPrefix | ftp_handler/direct_downloader/fleet_downloader.py:1138-1140 | All the flag ever does is to cut the work list off at one entry: the entries sent are the first ones in order, and all of them if the worker neither saw the flag nor lost its session |
| FleetGate.StepKeepsInv | ftp_handler/direct_downloader/fleet_downloader.py:1202-1219 | Every action of every thread keeps the invariant: the lock is held exactly during a callback, a closed gate is not locked, and a file listed by a live gate was delivered |
| FleetGate.RunKeepsInv | ftp_handler/direct_downloader/fleet_downloader.py:883-930 | The invariant in every state of every run |
| RedisLock.MutualExclusion | api/extension.py:402-425 | In every run with any number of invocations, crashes, lost replies and failed renewals: no two are inside the wrapped function while both are less than ttl past their last arm |
| RedisLock.OwnerSafety | api/extension.py:340-349 | Over every run: an invocation past its acquire that does not own the live key (released, lapsed or taken over) never owns it again, so no extend racing the release revives or takes the key, and while the key is live under another token none of its steps changes it |
| RedisLock.ReleaseFrees | api/extension.py:413-425 | The release of an owner leaves no live key |
| RedisLock.LiveKeyHasOwner | api/extension.py:402-425 | Over every run a live key belongs to an invocation between acquire and release, or to one that crashed or ended without a release that is known to have worked, and was armed less than ttl ago |
| RedisLock.SkipsOnlyIfHeld | api/extension.py:402-406 | A fire is skipped only for such another invocation, and once everybody has released the next one can acquire |
| RedisLock.RemainingLife | api/extension.py:340-342 | The key never has more than ttl to live |
| RedisLock.OrphanBound | api/extension.py:411-425 | The key of a crashed invocation is free ttl after its last arm; nothing arms it after the crash but an extend then on its way, and so it is free twice ttl after the last arm before the crash at the latest |
| RedisLock.OrphanOutlastsTtl | api/extension.py:411-425 | The second bound is needed: a run in which an extend on its way at the crash keeps the key past ttl |
| RedisLock.LostReplyHoldsKey | api/extension.py:402-406 | An acquire that ran with its reply lost holds the key with nobody to release it |
| RedisLock.WatchdogStaysOn | api/extension.py:340-352 | While the job is inside, the watchdog keeps renewing unless the lock is already lost |
| RedisLock.InvocationEnds | api/extension.py:402-425 | Every step of an invocation but a tick of its watchdog brings it closer to its end, and the watchdog ticks no more once the job is left |
| RedisLock.AddingBreaksTheBound | api/extension.py:326-328 | Why `replace_ttl` is needed: a run in which one adding extend breaks the bound on remaining life |
| RedisLock.LapseBreaksExclusion | api/extension.py:402-409 | Why the renewal gap is needed: a gap of exactly ttl puts two invocations inside |
| RedisLock.StepKeepsInv | api/extension.py:402-425 | Each atomic step keeps the relation between key, owners and last arms |
| RedisLock.LogsPairUp | api/extension.py:183-222 | While arms are less than ttl apart, each end or error push directly follows its own start push among all invocations; the stored records do so exactly when no start push failed whose closing push worked |
| RedisLock.LostStartLeavesEnd | api/extension.py:183-189 | A run with a swallowed failure of the start push: the list shows an end alone |
| RedisLock.InvocationGrammar | api/schedule.py:396-405 | One invocation pushes nothing, one skip, or a start followed by at most one closing record, by how far it has come; the list has these, but for any whose push failed |
| LockRenewal.ToleratedFailures | api/extension.py:339-349 | With renewal interval I = max(ttl // 3, 1) and no latency, k failed renewals in a row are always survived exactly when (k + 1) * I < ttl |
| LockRenewal.OneAndTwoFailures | api/extension.py:339 | Punctual renewal needs ttl >= 2, one failure ttl >= 3, two failures also a ttl that is no multiple of 3 |
| LockRenewal.DriveAgrees | api/extension.py:340-349 | The schedule of ticks and the lock protocol agree: the holder owns the live key after any pattern of ticks exactly when none came too late |
| TaskLog.TaskLogger.Record | api/extension.py:175-189 | The list after each record is what all pushed records leave; a failed push changes nothing |
| TaskLog.KeepsNewest | api/extension.py:184-187 | The list is always the newest `max_records` of the history exactly when `max_records` is at least 1 |
| TaskLog.StoredIsNewest | api/extension.py:184-187 | The pushes and trims refine "the newest m, newest first" |
| ItemQueue.Conservation | airflow_mgmt/scripts/item_check_queue.py:159-210 | One step per Redis command, any number of workers, late workers and overlapping reclaims included: a loaded item is always in pending, processing, done or failed, or in the hand-over window of a live worker, unless a worker died in that window holding it |
| ItemQueue.DyingInTheWindowLoses | airflow_mgmt/scripts/item_check_queue.py:175-186 | The exception is real: a death between LPOP and ZADD loses the item |
| ItemQueue.Partition | airflow_mgmt/scripts/item_check_queue.py:159-210 | Item by item: unless a scan takes it from a live worker or a worker dies with it in a window, a loaded item is in exactly one structure or window, whatever happens to the others; an item that was not loaded is nowhere, in every run |
| ItemQueue.PlacedOrLost | airflow_mgmt/scripts/item_check_queue.py:159-210 | Without scans from a live worker's hand a loaded item is in exactly one place, or nowhere, the second precisely when some worker has died in a window holding it |
| ItemQueue.ScanSafeIffClean | airflow_mgmt/scripts/item_check_queue.py:159-168 | From any good state a scan keeps the item in one place through every later run without further scans exactly when no live worker has it in hand |
| ItemQueue.OverlappingReclaimsDuplicate | airflow_mgmt/scripts/item_check_queue.py:159-168 | Two workers reclaiming a dead worker's item between each other's commands put it into pending twice, though no live worker outlived its lease |
| ItemQueue.CompletionsBounded | airflow_mgmt/scripts/item_check_queue.py:258-292 | As long as no scan takes a loaded item from a live worker, and whoever dies whenever, a generation of n distinct items needs at most n * max(1, max_retries) handler completions: the remaining retries bound them in every state |
| ItemQueue.DuplicateCompletesTwice | airflow_mgmt/scripts/item_check_queue.py:159-168 | Without that hypothesis it fails: after overlapping reclaims an item with one try is completed twice |
| ItemQueue.RetriesHold | airflow_mgmt/scripts/item_check_queue.py:201-210 | An item with which nobody died has retries below max(1, max_retries) until it is terminal or just being settled, and exactly the completing steps use one up |
| ItemQueue.StepKeepsItem | airflow_mgmt/scripts/item_check_queue.py:159-210 | Each single command keeps the one-place invariant of an item |
| ItemQueueWorker.ItemCheckQueue.RunCheckChunk | airflow_mgmt/scripts/item_check_queue.py:243-294 | The whole chunk is a path of the step machine: every lease expired on entry goes back to pending first, the first min(batch_size, length) pending items are then claimed and handled once each; how the handler's calls end decides which items end in done, failed or at the end of pending, and what the retries, errors and results hashes hold; every figure of the summary; without a generation nothing is touched |
| ItemQueueWorker.FatesMean | airflow_mgmt/scripts/item_check_queue.py:264-282 | An item is done exactly if its handler returned, failed exactly if it raised with the tries used up, and back in pending exactly if it raised before; its retries, error and result are those of its own call |
| ItemQueueWorker.DoneIsReturned | airflow_mgmt/scripts/item_check_queue.py:276-282 | The items marked done are those whose handler returned, in their order |
| ItemQueueWorker.ItemCheckQueue.CheckItems | airflow_mgmt/scripts/item_check_queue.py:264-282 | The loop over the claimed items as a path of the step machine: each is handled once and goes where the end of its handler's call says |
| ItemQueueWorker.ItemCheckQueue.TakeBatch | airflow_mgmt/scripts/item_check_queue.py:258-259 | Reclaim, then claim: the batch is the front of pending followed by the expired items |
| ItemQueueWorker.ItemCheckQueue.ReclaimExpired | airflow_mgmt/scripts/item_check_queue.py:159-173 | Precisely the expired leases move to the end of pending, each once and by deadline; the count is their number, and the time is noted only if there were any |
| ItemQueueWorker.ItemCheckQueue.Claim | airflow_mgmt/scripts/item_check_queue.py:175-192 | The first `batch_size` pending items move into leases, in order; the time is noted only if there were any |
| ItemQueueWorker.ItemCheckQueue.MarkDone | airflow_mgmt/scripts/item_check_queue.py:194-199 | From processing to done as three machine steps, with the result kept if there is one |
| ItemQueueWorker.ItemCheckQueue.MarkFailed | airflow_mgmt/scripts/item_check_queue.py:201-210 | Counted once and the error kept, then failed at `max_retries` or back to pending |
| ItemQueueWorker.ItemCheckQueue.LoadGeneration | airflow_mgmt/scripts/item_check_queue.py:124-151 | The items pending, every other structure empty, the four meta fields, and the pointer at this generation |
| ItemQueueWorker.LeadsIsRun | airflow_mgmt/scripts/item_check_queue.py:231-294 | A path of the methods is a run of the machine, so every theorem about runs holds for it |
| SweepTightness.CoverageIff | airflow_mgmt/scripts/row_cycler.py:58-68 | Over one aligned sweep of S slots with at most d deletions and i insertions anywhere in each gap, every row that stays is visited, whatever the churn, exactly when S = 1 or 2 * overlap >= max(i, d) - abs(i - d) // S; churning by exactly d and i in every gap is already the worst case |
| SweepTightness.TooLittleHides | airflow_mgmt/scripts/row_cycler.py:118-129 | Below the bound, frames and edits that hide a row from the whole sweep |
| SweepTightness.HalfTheLargerCount | airflow_mgmt/scripts/row_cycler.py:23-28 | 2 * overlap >= max(i, d) suffices, and is needed as soon as the counts differ by fewer than S |
| SweepTightness.BenchmarkScenarios | airflow_mgmt/scripts/row_cycler.py:220-231 | The overlap each benchmark scenario needs, for every frame and order of edits; the default covers them all |
| RowSweep.SweepVisits | airflow_mgmt/scripts/row_cycler.py:118-129 | The sufficient half for one row: a gap that carries it across a boundary unseen needs more edits than the overlap allows for |
| RowSweep.ChurnShifts | airflow_mgmt/scripts/row_cycler.py:124-129 | The churn of one gap moves a surviving row by no more than the deletions to the left and the insertions to the right, and keeps ids distinct |
| SweepArithmetic.CrossingNeedsDrift | airflow_mgmt/scripts/row_cycler.py:64-67 | Floor-division boundaries: crossing one with its margin on both sides needs drift beyond the bound |
| SweepSimulation.SimulateWeek | airflow_mgmt/scripts/row_cycler.py:112-153 | The simulated week with arbitrary random draws: every figure of its report (slice sizes, survivors, missed ones and what percentage of the survivors they are, fewest visits, for original and inserted rows) is that of the frames walked; with enough overlap no original is missed and each is visited at least `cycles` times |
| SweepSimulation.EveryCycleVisits | airflow_mgmt/scripts/row_cycler.py:118-121 | At least one visit per aligned sweep over any number of sweeps |
| SweepSimulation.Churn | airflow_mgmt/scripts/row_cycler.py:124-129 | One gap of random deletions and insertions: no row comes back, fresh ids stay fresh |
| ClockSlots.EverySlotOnce | airflow_mgmt/scripts/weekly_sweep.py:76-79 | Any `slots` consecutive runs, from any instant before or after the epoch and for any non-zero interval, hit every slot exactly once |
| ClockSlots.OneSlotPerRow | airflow_mgmt/scripts/weekly_sweep.py:89-91 | With overlap 0 every row is in exactly one slot, for every n |
| ClockSlots.OneRunPerRow | airflow_mgmt/scripts/weekly_sweep.py:76-91 | Both together: any `slots` consecutive runs over an unchanged frame handle each row exactly once |
| ClockSlots.FoldsAgreeIff | airflow_mgmt/scripts/row_cycler.py:53-55 | The two files' `current_slot` agree at every instant exactly when the cycle length divides 168 |
| ClockSlots.HourOfWeek | airflow_mgmt/scripts/row_cycler.py:53-55 | Weekday and hour on the KST clock count the hours since the Monday epoch modulo 168 |
| ClockSlots.SlotCountAccepts | airflow_mgmt/scripts/weekly_sweep.py:57-60 | A positive interval is accepted exactly when it is less than twice the period |
| ClockSlots.RoundIsNearest | airflow_mgmt/scripts/weekly_sweep.py:57 | The rounding is to the nearest integer, to the even one on a tie |
| ClockSlots.WholePeriod | airflow_mgmt/scripts/weekly_sweep.py:57 | A period of k whole intervals has k slots |
| ClockSlots.FloorDiv | airflow_mgmt/scripts/weekly_sweep.py:78 | Floor division for either sign of the divisor |
| ListDate.RoundTripIff | ftp_handler/core/client.py:178-185 | Exactly which minute-precision times survive the year-less form: this year's up to the horizon, and last year's whose date exists this year past the horizon |
| ListDate.RecentTimesRoundTrip | ftp_handler/core/client.py:178-185 | Every time of the last 364 days and at most a day ahead comes back, but for 29 February of the year before |
| ListDate.LeapDayIsRefused | ftp_handler/core/client.py:180-182 | 29 February of the year before raises ValueError |
| ListDate.LeapDayWitness | ftp_handler/core/client.py:180-182 | A concrete recent file to which that happens |
| ListDate.NeverBeyondHorizon | ftp_handler/core/client.py:180-183 | Every parsed year-less time is at most a day after now, on the printed day, in this year or the last |
| ListDate.YearFormKeepsDay | ftp_handler/core/client.py:184-185 | The dated form keeps the day and comes back exact only at midnight |
| ListDate.DosRoundTrip | ftp_handler/core/client.py:205-216 | The MS-DOS form comes back exactly when a two-digit year is in 2000 to 2099, or a four-digit one is at least 100 |
| Calendar.OrdinalOrders | ftp_handler/core/client.py:180-182 | Day numbers order valid dates as the calendar does |
| Calendar.EveryDayIsADate | ftp_handler/core/client.py:180-182 | The valid dates are all days from 1 January of year 1 to 31 December 9999, numbered without a gap |
| SearchPages.SearchAllHits | ops_store/search.py:147-176 | The loop ends and returns the concatenated pages cut to `max_rows`; a page size of 0 fails unless `max_rows` is 0, a negative one is refused; with fewer hits than a batch, or no more wanted than one, the first `max_rows` hits come back whatever their ties |
| SearchPages.OnePageIsEnough | ops_store/search.py:147-176 | With everything that is asked for on one page ties do not matter |
| SearchPages.OneQuery | ops_store/search.py:162-176 | Without ties the result is the whole ranking or its first `max_rows` hits, independent of the batch size |
| SearchPages.NoLossIff | ops_store/search.py:150-155 | Every page size returns everything exactly when no two hits share both sort value and `_id` |
| SearchPages.NoLossAtIff | ops_store/search.py:147-176 | One page size returns everything exactly when no tie stands across one of its page boundaries |
| SearchPages.StrictPagesAreWhole | ops_store/search.py:162-172 | Pages of a ranking without ties join up to the ranking |
| SearchPages.TieIsLost | ops_store/search.py:162-172 | Two neighbours with one key fall between two pages of the right size and the second is lost |
| Retention.Bucket.ListDateFolders | minio_handler/object.py:520-543 | The walk returns exactly the folders it reaches, sorted by date, each once on a regular bucket |
| Retention.Bucket.DeleteOlderThan | minio_handler/object.py:567-592 | Selected are the found folders before the cutoff; a dry run changes nothing; otherwise exactly the objects under them go, but for those the server refuses, which are the errors |
| Retention.NothingOldIsKept | minio_handler/object.py:567-586 | Everything under a valid date folder before the cutoff is asked to be removed, whatever else is in the bucket |
| Retention.NothingElseGoes | minio_handler/object.py:567-586 | On a regular bucket nothing else is |
| Retention.RetentionExactIff | minio_handler/object.py:567-592 | For every cutoff and key, what goes is exactly what stands under a date before the cutoff, precisely on regular buckets: a marker, a doubled slash after a month, or an empty segment after an anchor named like a year always takes some undated key along |
| Retention.MarkerDoomsTheMonth | minio_handler/object.py:532-540 | How far that goes for a folder marker at a month: everything under the month is removed once the day with the month's number is past |
| Retention.KeptDayGoes | minio_handler/object.py:532-540 | Two objects and a cutoff for which a file that has to stay goes |
| DateFolders.ListedIff | minio_handler/object.py:523-540 | The walk finds precisely the valid date folders that hold an object, exactly when no empty segment follows a month folder or an anchor named like a year |
| DateFolders.ProperIsListed | minio_handler/object.py:523-540 | No valid date folder that holds an object is overlooked, on any bucket |
| DateFolders.MarkerReadsAsDay | minio_handler/object.py:493-498 | A marker object at a month folder is listed as a day |
| DateFolders.ChildParses | minio_handler/object.py:28-39 | A child parses by its own segment, or by its parent's when its own is empty |
| DateFolders.ChildIff | minio_handler/object.py:493-498 | What a listing counts as a child folder |
| JobRegistry.RunningIsNeverEvicted | ftp_handler/web_app/jobs.py:96-145 | In every interleaving of submissions and completions a job whose work is out is listed and running, and only such jobs are |
| JobRegistry.EveryOutcomeIsRecorded | ftp_handler/web_app/jobs.py:126-132 | Hence the branch for a vanished job is dead and each outcome is recorded |
| JobRegistry.StatusChangesOnce | ftp_handler/web_app/jobs.py:126-132 | Over every run a finished job never changes until it is evicted, and then stays away |
| JobRegistry.SubmitBounds | ftp_handler/web_app/jobs.py:138-145 | After a submission at most `keep_last` entries remain or no finished one does; nothing goes before the bound is passed, and no more than the excess |
| JobRegistry.SubmitEvictsOldest | ftp_handler/web_app/jobs.py:140-145 | An evicted job is no newer than any finished job that stays |
| JobRegistry.SubmitKeepsOthers | ftp_handler/web_app/jobs.py:98-103 | The new job runs, no running job leaves, other entries stay as they were |
| JobRegistry.BackgroundJobs.Submit | ftp_handler/web_app/jobs.py:98-103 | The critical section has exactly the effect of the submission step |
| JobRegistry.BackgroundJobs.EvictLocked | ftp_handler/web_app/jobs.py:134-145 | Removes exactly the oldest finished jobs above the bound |
| JobRegistry.BackgroundJobs.Finish | ftp_handler/web_app/jobs.py:126-132 | The critical section has exactly the effect of the completion step |
| JobRegistry.SnapshotTells | ftp_handler/web_app/jobs.py:113-115 | What a poll learns in any state of any run: a running snapshot means the work is out, a finished one shows exactly how it ended, and no snapshot means the id was never issued or its work has ended |
| JobRegistry.FinishedSnapshotIsFinal | ftp_handler/web_app/jobs.py:113-132 | After a finished snapshot every later poll shows the same job or none |
| Sequences.SortBySorts | ftp_handler/web_app/jobs.py:140-143 | The stable sort: a permutation, ordered, equal keys in their order |

## Left out

- FtpWrite.FtpClient.Put: several writers on one target are not modelled; the code documents no-clobber as best effort for a single writer.
- FtpWrite.FtpClient.Exists: an inaccurate SIZE (550 for a file that is there) may come, and then the no-clobber clause is not promised.
- FtpServer.Server.Send: symbolic links, permissions and case-insensitive names are not modelled; a server is a tree of files and directories.
- FleetWorkers.DeleteWorker: evidence that a path is gone is what the probes answered, since a server may answer 550 for other reasons.
- FleetGate.ReportSound: an interrupt, or a callback that raises something other than an Exception, leaves no report; the fence of `FleetGate.CallbackFence` is promised then if the closing loop finishes, and that of `FleetGate.HostFence` for every gate it closed.
- ItemQueueWorker.ItemCheckQueue.ReclaimExpired: items with the same deadline come in some order, while Redis orders them by name.
- RedisLock.MutualExclusion: holds while renewals succeed in time; after ownership is lost the watchdog stops but the job goes on, so nothing unconditional holds.
- LockRenewal.ToleratedFailures: calls take no time in the schedule; latency is covered by the ttl condition of `RedisLock.MutualExclusion`.
- ItemQueue.Partition: needs distinct items and no scan from a live worker's hand; without these an item can be in two places, as `ItemQueue.OverlappingReclaimsDuplicate` shows.
- ItemQueueWorker.ItemCheckQueue.RunCheckChunk: one worker uninterrupted; other workers between its commands, and clocks read before the command they are used in, are the subject of `ItemQueue`.
- ItemQueueWorker.ItemCheckQueue.LoadGeneration: one object holds one generation's keys; structures of other generations are not modelled.
- SweepSimulation.SimulateWeek: percentages are exact reals, while the code divides doubles.
- ClockSlots.SlotCountAccepts: the quotient is exact, while the code divides to a double before rounding; historical changes of the KST offset are not modelled.
- ListDate.DosRoundTrip: starts from the matched tokens; the patterns over raw LIST lines are not modelled.
- SearchPages.SearchAllHits: sort values and ids are numbers; the request body, index names and the server's limit on page size are not modelled.
- DateFolders.ListedIff: digits are ASCII; a bucket listing is one consistent snapshot.
- Retention.Bucket.DeleteOlderThan: which objects the server refuses to delete is arbitrary.
- JobRegistry.RunningIsNeverEvicted: a work that ends with something other than an Exception, or is submitted after shutdown, stays running for good.
- Uploads, downloads, listings and sizing of the fleet: their workers have the shape of the ones modelled.
- Web routes, proxies, DAG wiring, configuration loading, index and lifecycle bodies, URL shortener: serialization and constants.
