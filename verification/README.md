# PrintBridge: a verified model

PrintBridge is a local print agent. Browsers submit jobs over WebSocket, a remote server is polled for more, one
serial worker prints them, and an outbox reports the results back. This project models that pipeline and the
algebraic parts beside it, and proves what they guarantee.

## How the model is built

* **Stores, queue, worker, download, office conversion, proxy, configuration** are classes whose methods change
  fields, as the code does. Every method is proved against a function of the old state; the laws are lemmas about
  those functions (`JobQueue`, `RemoteStore`, `TaskHistory`, `Polling`, `Reporting`, `Download`, `Office`,
  `PrintWorker`, `Proxy`, `ConfigTransfer`, `Server`). What the functions themselves decide is stated again by exact
  conditions that do not mention them (`JobSettings`, `ReportingLaws`, `PollingLaws`, and beside each function).
* **The running agent** is one transition system (`Pipeline`): connections, poller, worker, outbox and restarts step
  in any order, a step is as small as the code's own points of interruption, and tables alone survive a restart. Its
  steps call the very functions the methods are proved against. `PipelineQueue`, `PipelineProgress`,
  `PipelineIntake`, `PipelineReports` and `PipelineConnections` hold the invariants of every run; `PipelineRefinement`
  and `PollRefinement` tie its steps to the methods. `PipelineLosses` and `PipelineOutcomes` say exactly what becomes
  of every recorded job, `PipelineDelivery` what a client has received.
* **The launch gate** is a transition system too (`LaunchGate`).
* **Everything outside** is a parameter: `Library` (URL parsing, base64), `World` (what download, conversion,
  rendering, printing and tracking answer for one job), `Environment` (clocks, fresh ids, store faults), `Answer`
  (what the server says to one report), `Readers`, `Network`.

Conventions: paper sizes are integers in hundredths of a millimetre, negative ones included; stored times are opaque
ordered numbers; 32- and 64-bit limits are written out where the code saturates or casts.

## Findings

* A failed copy of a PDF, or a failed write of an image's PDF, leaves its part behind: the clean-up of
  `print_downloaded_file` is reached only after a successful preparation. `JobTraces.LeftoverExactly` says exactly when
  (the job gets as far as that write, and the write fails half-way) and what stays; `HalfCopyStays` and `HalfImageStays`
  give an input for each kind.
* A recorded remote job can be lost for good, in two ways; intake is at most once, never at least once. It may never
  reach the queue: `PipelineLosses.LostIffDropped` says exactly when, over every run: some step ended the poll while it
  held the job. That step is a restart, a later job of the task that is invalid or cannot be stored, or a refusal by the
  queue; each is shown to happen (`LostByRestart`, `LostByInvalidSibling`, `LostByFailedSibling`, `LostByRefusal`).
  Or it reaches the queue, which lives in memory only, and a restart comes before its report is complete:
  `PipelineOutcomes.CutShortExactly` says that this is the only way as long as reports can be stored, `CutShortIsFinal`
  that nothing makes up for it, and `CutWhilePending` and `CutInWork` show both moments.
* A negative paper size does not survive the CUPS media option, and acceptance does not look at paper sizes: on the
  CUPS path the option built for such a size does not stand for it (`CupsMedia.AcceptedPaperPrintsAsAsked`). The size
  check of crates/core/src/protocol.rs:127 is made only when an image is converted (crates/runtime/src/document.rs:108).
* A job id is the key of remote deduplication (docs/printbridge-technical.md:651), so the laws speak of job ids.
* Adding a PATH entry that holds a separator, or a blank one, need not be idempotent nor make it found:
  `PathEditor.AddTwice` and `AddedIsContained` say exactly when.
* A blank token is the one exported setting that a merge does not carry over (`ConfigTransfer.BlankTokenIsNotCarried`),
  and a configuration that `save_config` accepts can still export a payload that no merge accepts: port 0 or an
  endpoint that is no web address (`ConfigTransfer.ExportIsMergeable`).
* The exact-loopback test of the WebSocket side compares the host text, which keeps the brackets of an IPv6 literal
  (section 3.2.2 of RFC 3986). Only pages that name 127.0.0.1 are tested against the connection's origin
  (`Server.OriginTestExactly`); a page at `http://[::1]/` is queued for any connection, without an origin
  (`Server.Ipv6LoopbackIsNotTested`). Whether it may then be loaded is left to the resource policy.

## Model

| member | source | states |
|---|---|---|
| JobQueue.QueueState.AcceptQueuedJob | crates/core/src/queue.rs:64-73 | A single job is refused for its page, then for a repeated id; otherwise it is appended and remembered; a refusal changes nothing |
| JobQueue.QueueState.AcceptBatchWithLocalOrigin | crates/core/src/queue.rs:133-170 | A batch is accepted whole or not at all: page, batch id, ids inside the batch and ids seen before, in this order |
| JobQueue.QueueState.PopNext | crates/core/src/queue.rs:173-176 | Takes exactly the oldest pending job and keeps both memories |
| QueueHistory.EveryRunLawful | crates/core/src/queue.rs:64-197 | After any accepts and pops: popped then pending is what was accepted, in order; ids distinct; batches contiguous; the seen set is exactly the accepted ids; an attached origin is the origin of that job's URL |
| QueueHistory.RefusedIffAdmittedBefore | crates/core/src/queue.rs:64-73 | After any run a loadable single job is refused exactly when its id was accepted before |
| QueueHistory.AcceptableHasSource | crates/core/src/queue.rs:199-212 | The queue's page check never rejects a job that passed `validate_for_acceptance` |
| QueueHistory.AcceptedEntriesCarryTheirIds | crates/core/src/queue.rs:64-170 | What is accepted stands behind what was pending, job by job, under the request and batch ids of its submission; an origin is kept exactly for a page of that origin |
| Protocol.AcceptedExactly | crates/core/src/protocol.rs:159-275 | A job is accepted exactly when its format's fields are there, no others are, its data decode within the limit in megabytes of 1,048,576 bytes, and a page waits at most 30 seconds |
| Protocol.RefusalsAreTrue | crates/core/src/protocol.rs:159-275 | Whatever error a job is refused with is true of it |
| Server.HandleClientText | crates/runtime/src/server.rs:375-486 | A print message is screened, handed to the queue and answered; the worker is notified exactly when it was accepted, and the followed ids are the message's ids |
| Server.EveryMessageIsDecided | crates/runtime/src/server.rs:375-526 | Which answer a message gets has an exact condition: batch too large, first invalid job, foreign origin, batch or job id seen, else accepted under the batch's or the job's id; a rejection changes nothing, an acceptance appends exactly the jobs |
| Server.QueuedLocalPagesAreTheClientsOwn | crates/runtime/src/server.rs:489-526 | Accepted jobs are appended in order; a page that passes the exact-loopback test (its host text is 127.0.0.1) is queued only for a connection of that page's own origin, and carries exactly that origin |
| Server.NeverRefusedForAPage | crates/runtime/src/server.rs:375-486 | A message that passed validation is never rejected by the queue for its page |
| Server.OriginTestExactly | crates/runtime/src/server.rs:489-526 | With bracketed IPv6 hosts, the origin test applies exactly to pages whose host is literally 127.0.0.1: without one the message passes with no origin, with one it passes exactly when the connection's own loopback origin is that of all of them |
| Server.Ipv6LoopbackIsNotTested | crates/runtime/src/server.rs:524-526 | A page at the IPv6 loopback address is queued for any connection and carries no origin |
| RemoteStore.Store.RecordJobIfNew | crates/runtime/src/remote_store.rs:92-102 | Inserts unless the job id is known, and says which |
| RemoteStore.Store.InsertStatusEvent | crates/runtime/src/remote_store.rs:105-133 | Appends one pending event unless its id or its job and status are there already |
| RemoteStore.Store.MarkDeliveryFailed | crates/runtime/src/remote_store.rs:169-207 | Counts the failure with saturation and gives up exactly when the limit is reached; an unknown event is an error and changes nothing |
| RemoteStore.DueEventsMeaning | crates/runtime/src/remote_store.rs:136-155 | The due query returns distinct pending due rows, oldest first, and leaves out only later ones |
| RemoteStore.FailedReportWaits | crates/runtime/src/remote_store.rs:136-207 | A report whose delivery failed is not due before its retry time, and from then on exactly if it was not given up; nothing else of it or of other rows changes |
| RemoteStore.NewReportIsStoredAsItIs | crates/runtime/src/remote_store.rs:105-133 | A new report is stored with all its fields, pending and untried, and is due from its own time on |
| Polling.PollOnce | crates/runtime/src/remote_worker.rs:87-144 | A poll refines its specification: each task recorded job by job, handed over as one submission, notified; tables, queue, counters and errors are all fixed |
| Polling.TakeTask | crates/runtime/src/remote_worker.rs:114-131 | Jobs of a task are validated and recorded in order, stopping at the first error |
| PollingLaws.TakeJobsLaw | crates/runtime/src/remote_worker.rs:114-131 | Newly recorded jobs are distinct, were unknown, are acceptable; new plus repeated is all, ids repeated inside one batch included |
| PollingLaws.PollAccountsForEveryJob | crates/runtime/src/remote_worker.rs:87-144 | On every successful poll enqueued plus duplicated is the number of fetched jobs, whatever else uses the queue |
| PollingLaws.PollWakesPerHandover | crates/runtime/src/remote_worker.rs:87-144 | In an undisturbed poll the print worker is woken once for every task that changed the queue, the jobs counted as enqueued are those appended, and each is a remote entry under the ids of its own task |
| PollingLaws.RecordingStopsAtTheFirst | crates/runtime/src/remote_worker.rs:114-131 | Recording a task stops exactly at its first invalid or unstorable job, with that job's error, and the ids before it are known |
| PollingLaws.FailedPollLearnsAnId | crates/runtime/src/remote_worker.rs:106-140 | A poll of acceptable tasks fails only for a repeated id or batch, and only after recording a new id |
| PollingLaws.RepollingFailsBoundedly | crates/runtime/src/remote_worker.rs:106-140 | Re-polling the same acceptable tasks fails at most as often as they have unrecorded ids |
| PollingLaws.SettledPollOnlyRepeats | crates/runtime/src/remote_worker.rs:106-140 | Once all ids are recorded a poll succeeds, hands nothing over and counts every job as a repeat |
| Reporting.ReportPendingOnce | crates/runtime/src/remote_worker.rs:156-197 | A report round refines its specification: due events in order, at most twenty, each delivered, retried or abandoned, until an error |
| Reporting.RoundLaw | crates/runtime/src/remote_worker.rs:156-197 | A round changes only the rows it fetched, never a settled one; on success delivered, retried and abandoned add up to the fetched events |
| ReportingLaws.RoundShowsItsAnswers | crates/runtime/src/remote_worker.rs:169-194 | After a successful round each fetched report shows its own answer: delivered now, or failed with that error and retry time, one retry more, abandoned exactly at the limit |
| ReportingLaws.RoundCounts | crates/runtime/src/remote_worker.rs:169-196 | Delivered, will retry and abandoned each count exactly their own answers |
| ReportingLaws.RoundStopsAtTheFirst | crates/runtime/src/remote_worker.rs:169-194 | A round ends early exactly at its first misconfigured answer or store fault, with what was reached by then |
| ReportingLaws.AttemptSpendsBudget | crates/runtime/src/remote_store.rs:157-207 | Each counted failure takes exactly one from the sum of remaining retries; a delivery takes the rest of its row |
| ReportingLaws.RoundSpendsBudget | crates/runtime/src/remote_worker.rs:156-197 | The sum of remaining retries falls by at least one per counted failure and per delivery of a round |
| ReportingLaws.RetriesAreBounded | crates/runtime/src/remote_store.rs:169-207 | Over any history every event's counter is its number of counted failures, at most the limit; abandoned means exactly the limit |
| ReportingLaws.SettledReportsAreFinal | crates/runtime/src/remote_store.rs:136-207 | Delivered and abandoned rows never change again |
| TaskHistory.Store.RecordEvent | crates/runtime/src/task_history.rs:57-110 | Appends the event and updates the summary together, or changes nothing |
| TaskHistory.Store.RecentJobs | crates/runtime/src/task_history.rs:113-127 | The most recently updated summaries, newest first, up to the limit |
| TaskHistory.Store.EventsForJob | crates/runtime/src/task_history.rs:129-141 | Exactly the job's events, oldest first |
| TaskHistory.SummariesFollowTheLog | crates/runtime/src/task_history.rs:57-149 | After any records and clears each summary says what the job's events say: last status and message, first creation, last update, latest terminal time, latest non-null printer, paper and copies |
| PrintWorker.Worker.ProcessJob | crates/runtime/src/queue.rs:96-102 | Broadcast, outbox and history after a job are those of its whole trace, and the files are those before plus its leftover |
| PrintWorker.Worker.PrintHtmlJob | crates/runtime/src/queue.rs:198-257 | Rendering, printing and cleaning up, with the rendered file removed wherever it was put; no file stays |
| PrintWorker.Worker.PrintRawJob | crates/runtime/src/queue.rs:136-195 | Printer, data, encoding and size checked in order; then submitted and tracked |
| PrintWorker.Worker.PrintFileJob | crates/runtime/src/queue.rs:126-133 | Downloading is reported first; then the checks, the conversion and the printing in order; the download is always removed |
| PrintWorker.Worker.PushLog | crates/runtime/src/queue.rs:650-698 | One status goes to the broadcast, the history and, for remote jobs and reportable statuses, to the outbox |
| PrintWorker.StatusReachesItsSinks | crates/runtime/src/queue.rs:650-764 | A status goes to broadcast, history and outbox under the job's own ids with its message, printer, paper and copies; the outbox hears acceptance, success and failure of remote jobs only, due at once |
| JobSettings.EveryStatusCarriesTheSettings | crates/runtime/src/queue.rs:343-393 | Every printing, submission and tracking status of every job carries the job's own printer, paper and copies, the defaults only where the job is silent, and copies between one and the maximum |
| JobSettings.SubmittedExactly | crates/runtime/src/queue.rs:96-466 | A job reaches the print queue exactly when it has its settings, its data or file arrives, its kind fits its format and becomes a PDF, and the print system takes it |
| JobSettings.FailuresAreTrue | crates/runtime/src/queue.rs:96-466 | Whatever a job fails for is true of the job or of the answers it met |
| JobTraces.TraceIsAWord | crates/runtime/src/queue.rs:96-340 | For every job and every outcome of its steps the reported statuses are exactly the word of its format and course |
| JobTraces.EveryWordHappens | crates/runtime/src/queue.rs:96-340 | Conversely an acceptable job of each format can take each course: the language is exact |
| JobTraces.TraceShape | crates/core/src/activity.rs:62-67 | The last status is terminal; before it only a submission is, right after an announcement; only what follows a submission is kept from the server |
| JobTraces.TraceReports | crates/runtime/src/queue.rs:721-764 | A job's reports are acceptance and then one result; a tracking failure adds none |
| JobTraces.LeftoverExactly | crates/runtime/src/queue.rs:398-466 | Something stays behind exactly when the job gets as far as writing its PDF (checks hold, kind fits, an image decodes) and that write fails half-way; what stays is that part |
| JobTraces.OnlyHalfWrittenPdfStays | crates/runtime/src/queue.rs:260-288 | A job that leaves something behind has failed before printing |
| JobTraces.HalfCopyStays | crates/runtime/src/queue.rs:454-466 | A concrete PDF job whose failed copy is not cleaned up |
| JobTraces.HalfImageStays | crates/runtime/src/queue.rs:432-449 | A concrete image job whose failed conversion is not cleaned up |
| Download.DownloadToPath | crates/runtime/src/download.rs:37-90 | Leaves exactly the downloaded file or, for any error, nothing |
| Download.WritePdfDataUrlToPath | crates/runtime/src/download.rs:92-115 | A data URL is checked, decoded within the limit and stored, or leaves nothing |
| Download.DownloadedFileFits | crates/runtime/src/download.rs:37-90 | A file that was downloaded is complete and within the limit |
| Download.WebDownloadExactly | crates/runtime/src/download.rs:37-90 | A web download succeeds exactly when the address is HTTP(S) and the whole body is received, stored and flushed within the limit |
| Download.DataUrlDownloadExactly | crates/runtime/src/download.rs:92-115 | A PDF data URL is stored exactly when it parses and its data decode to no more than the limit and can be written |
| Download.DownloadErrorsAreTrue | crates/runtime/src/download.rs:37-115 | Whatever a download fails with is true of the address, the answer or the disk it met |
| Download.PdfDataUrlForward | crates/core/src/protocol.rs:457-475 | A PDF data URL is `data:`, a PDF media type, parameters with `base64` among them in any case, a comma and data |
| Download.PdfDataUrlBackward | crates/core/src/protocol.rs:457-475 | Conversely every text of that form is one |
| Office.OfficeToPdf | crates/runtime/src/office.rs:137-219 | Succeeds exactly when the converter succeeds and leaves six bytes or more with a PDF header; leaves the PDF on success and nothing on failure; the work directory is gone either way, whatever the converter littered |
| PipelineRefinement.UninterruptedJobIsItsEmissions | crates/runtime/src/queue.rs:96-102 | The steps of the transition system refine the worker's methods: a job that nothing interrupts leaves broadcast and outbox exactly as `ProcessJob` does |
| PollRefinement.UninterruptedPollIsPollOnce | crates/runtime/src/remote_worker.rs:87-144 | Likewise a poll that nothing interrupts leaves recorded ids, queue and outcome exactly as the specification of `PollOnce`, notifies the print worker as often as that counts, and succeeds exactly when that has no error |
| PollRefinement.UninterruptedRoundIsItsAttempts | crates/runtime/src/remote_worker.rs:156-197 | And a batch of due reports can be delivered step by step, with exactly the tables that the round leaves |
| PipelineQueue.AlwaysQueueLawful | crates/core/src/queue.rs:64-197 | In every interleaving the queue keeps all laws of its own history |
| PipelineQueue.AlwaysSerial | crates/runtime/src/queue.rs:76-102 | In every interleaving the broadcast is the complete reports of the jobs taken, one job after the other, then the beginning of the current one's |
| PipelineQueue.AlwaysWoken | crates/runtime/src/queue.rs:88-92 | The worker waits beside pending jobs only while a permit is stored or a producer is between its accept and its notify |
| PipelineQueue.AlwaysStopsSoon | crates/runtime/src/queue.rs:76-93 | After cancellation at most one more job is taken |
| PipelineQueue.StoppedMeansFinished | crates/runtime/src/queue.rs:76-93 | Once the worker has stopped, every job it took is reported to its end |
| PipelineProgress.NoStepDelaysTheWorker | crates/runtime/src/queue.rs:76-93 | Whoever steps, the first pending job is taken or stays first with the worker no farther from it |
| PipelineProgress.PendingJobIsTaken | crates/runtime/src/queue.rs:76-93 | From every reachable state without cancellation the run can go on, in boundedly many steps, until the first pending job is taken |
| PipelineIntake.AlwaysAtMostOnce | crates/runtime/src/remote_store.rs:92-102 | Over all polls and restarts no job id enters a queue as a remote job twice |
| PipelineIntake.AlwaysAccounted | crates/runtime/src/remote_worker.rs:87-144 | In every interleaving a successful poll accounts for each fetched job |
| PipelineLosses.LostAfterStep | crates/runtime/src/remote_worker.rs:106-138 | After a step a recorded job is lost exactly when it was before, or the poller held it and the step ended the poll: a restart, an invalid or unstorable later job, a refusal |
| PipelineLosses.LostIffDropped | crates/runtime/src/remote_worker.rs:121-138 | Over every run a job is recorded, never queued and not in hand exactly when some step of the run dropped it that way |
| PipelineLosses.LostStaysLost | crates/runtime/src/remote_store.rs:92-102 | Whatever the run does later, polls and restarts included, a lost job is never queued |
| PipelineLosses.LostByRestart | crates/runtime/src/remote_worker.rs:199-218 | Any acceptable job is lost by a restart between recording and queueing |
| PipelineLosses.LostByInvalidSibling | crates/runtime/src/remote_worker.rs:121-124 | Any acceptable job is lost by an invalid later job of its batch |
| PipelineLosses.LostByFailedSibling | crates/runtime/src/remote_worker.rs:121-124 | Any acceptable job is lost by a store fault on a later job of its batch |
| PipelineLosses.LostByRefusal | crates/runtime/src/remote_worker.rs:129-138 | Any acceptable job is lost when the queue refuses its batch, as for a batch id that a client used before |
| PipelineReports.AlwaysReported | crates/runtime/src/remote_store.rs:105-133 | Over every run, restarts included, the reports of each job begin acceptance and one result (a subsequence of it when stores fail or event ids collide); the current job's are exactly those due so far |
| PipelineReports.NeverBothResults | crates/runtime/src/queue.rs:721-764 | Success and failure are never both reported for one job, whatever stores fail |
| PipelineOutcomes.EveryDoneJobIsReported | crates/runtime/src/queue.rs:96-102 | In every run in which every report was stored, every remote job of the process that the worker is through with has its complete report: acceptance and exactly one result |
| PipelineOutcomes.FullReportIsFinal | crates/runtime/src/remote_store.rs:105-133 | Over every continuation, restarts and failing stores included, a complete report is never added to or changed |
| PipelineOutcomes.CutShortExactly | crates/runtime/src/remote_worker.rs:121-138 | Over every run in which every report was stored, a remote job that entered the queue is pending, in work or completely reported, except exactly when some restart came while it was pending or in work and not yet completely reported |
| PipelineOutcomes.EveryRecordedJobIsAccountedFor | crates/runtime/src/remote_worker.rs:87-144 | Over every run in which every report was stored, a recorded job is with the poller, pending, in work or completely reported exactly when no step dropped it before the queue and no restart cut it short after |
| PipelineOutcomes.CutShortIsFinal | crates/runtime/src/remote_store.rs:92-102 | A job cut short by a restart is never queued again and never completely reported, whatever follows |
| PipelineOutcomes.CutWhilePending | crates/runtime/src/remote_worker.rs:129-138 | Any acceptable job is cut short, with nothing reported, by a restart while it is pending |
| PipelineOutcomes.CutInWork | crates/runtime/src/queue.rs:76-102 | Any acceptable job is cut short, with nothing reported, by a restart right after the worker took it |
| PipelineConnections.ConnectionsHearTheirOwnJobs | crates/runtime/src/server.rs:154-231 | A connection that never lagged was sent exactly the broadcast statuses of its own jobs, in order, each after the answer that accepted the job; never those of another connection or of a remote job |
| PipelineConnections.AlwaysServed | crates/runtime/src/server.rs:154-231 | Also with lag: what was sent are the connection's own entries among the positions it received; the sets of different connections are disjoint |
| PipelineConnections.AcceptedIdsAreNew | crates/runtime/src/server.rs:394-401 | The ids a connection starts to follow are exactly the ids new to the queue |
| PipelineDelivery.UpToDateClientHasEverything | crates/runtime/src/server.rs:154-231 | A connection that never lagged and has read the whole broadcast was sent, of each of its jobs that is through, the complete reports of that job in their order and nothing else under its id |
| CupsMedia.CustomTokenRoundTrip | crates/runtime/src/printing/cups.rs:453-576 | A custom media token parses back to its size exactly when no side is negative |
| CupsMedia.PrintedMediaHasRequestedSize | crates/runtime/src/printing/mod.rs:145-240 | Whether or not a driver paper matched, the media option parses to the requested size exactly when no side is negative |
| CupsMedia.AcceptedPaperPrintsAsAsked | crates/core/src/protocol.rs:159-278 | Acceptance lets any paper size pass, and the printed media option stands for it exactly when no side is negative |
| CupsMedia.KnownSizesAreStandard | crates/runtime/src/printing/cups.rs:478-525 | The listed papers have their standard sizes: halved sheets from A3 and Japanese B4, the American ones in quarters of an inch |
| CupsMedia.NamedPaperHasItsSize | crates/runtime/src/printing/cups.rs:453-525 | A driver's choice that names a listed paper, in any case and between other parts, stands for that paper's size |
| CupsMedia.InchesAreRead | crates/runtime/src/printing/cups.rs:527-570 | A pair in inches is read at 25.4 millimetres an inch, rounded to the hundredth |
| CupsMedia.UnitIsGuessed | crates/runtime/src/printing/cups.rs:527-570 | Without a unit a pair is in inches exactly when neither side is over 20 |
| PaperSizes.TrimmingKeepsInteger | crates/runtime/src/printing/mod.rs:205-215 | Trimming zeros never reaches the integer digits |
| PaperSizes.FormatParses | crates/runtime/src/printing/mod.rs:205-215 | The text of a size reads back as the size |
| ConfigTransfer.MergePayload | crates/cli/src/config_transfer.rs:364-438 | Succeeds exactly when the file kind is right and every selected field is valid, with the overlay; otherwise names the first bad field |
| ConfigTransfer.MergeSucceedsExactly | crates/cli/src/config_transfer.rs:364-438 | A merge succeeds exactly for this format and version without port 0, an ill-written origin, an invalid address, a non-web endpoint, fewer than 3 seconds or 0 retries; otherwise the first such field is named |
| ConfigTransfer.MergeTwice | crates/cli/src/config_transfer.rs:364-438 | Merging a payload again changes nothing |
| ConfigTransfer.TransferRoundTrip | crates/cli/src/config_transfer.rs:237-438 | Between saveable configurations a transfer succeeds exactly when an exported port is not 0 and an exported endpoint is absent or a web address; then it carries what was exported, in normal form, and nothing else, the result is saveable as it is, and repeating it changes nothing |
| ConfigTransfer.BlankTokenIsNotCarried | crates/cli/src/config_transfer.rs:405-413 | The token is carried over exactly when it is not blank or there is none to keep |
| ConfigTransfer.ConfigState.SaveConfig | crates/runtime/src/state.rs:124-154 | Checks first, then the file, then the shared configuration and the wake-up; any error changes nothing |
| ConfigTransfer.SavedStaysSaveable | crates/runtime/src/state.rs:124-154 | What was saved can be saved again, unchanged |
| ConfigTransfer.MergedIsSaveable | crates/runtime/src/state.rs:124-154 | A merge onto a saveable configuration is saveable exactly as it is |
| ConfigTransfer.ExportIsMergeable | crates/cli/src/config_transfer.rs:364-438 | The export of a saveable configuration merges exactly when its port is not 0 and its endpoint is absent or a web address |
| ConfigTransfer.PreviewPayload | crates/cli/src/config_transfer.rs:441-541 | One item per selected field in the fixed order, or the merge's error |
| ConfigTransfer.PreviewListsTheSelection | crates/cli/src/config_transfer.rs:441-541 | The items are exactly the selected fields, each once, with the current values and those the merge produces: numbers, switches and texts as they are, lists by length; the token announcement is truthful |
| ConfigTransfer.PreviewHidesTokens | crates/cli/src/config_transfer.rs:441-541 | Two previews that differ in nothing but set tokens are the same: no token shows |
| AllowedIps.NormalizeAllowedIps | crates/core/src/ip_whitelist.rs:8-22 | The loop computes the normal form |
| AllowedIps.NormalizedHolds | crates/core/src/ip_whitelist.rs:8-22 | The normal form starts with loopback, is distinct and trimmed, and holds exactly the trimmed non-blank entries besides it |
| AllowedIps.NormalizingTwice | crates/core/src/ip_whitelist.rs:8-22 | Normalizing twice is normalizing once |
| AllowedIps.ValidStaysValid | crates/core/src/ip_whitelist.rs:25-50 | Normalization keeps valid entries valid |
| AllowedIps.EntriesAccepted | crates/core/src/ip_whitelist.rs:25-50 | An accepted entry is one address or a network with a prefix, never one that stands for all addresses |
| AllowedIps.ValidEntryLeavesOut | crates/core/src/ip_whitelist.rs:25-50 | Hence no single accepted entry lets everyone in: of either family some address is left out |
| AllowedIps.LoopbackClients | crates/core/src/ip_whitelist.rs:53-57 | Loopback clients are exactly 127.0.0.0 to 127.255.255.255 and ::1 |
| AllowedIps.NormalizationKeepsClients | crates/core/src/ip_whitelist.rs:8-73 | No client that the entries let in is shut out by normalizing them |
| AllowedIps.AllowedByNormalized | crates/core/src/ip_whitelist.rs:53-73 | Exactly loopback clients and those named by a trimmed entry, by address or by shared prefix, are let in |
| LaunchGate.AlwaysGuarded | crates/runtime/src/html/browser.rs:409-474 | In every interleaving the flag is set exactly while one guard lives, at most one closure runs, and no sleeper is left beside a free flag without a woken thread |
| LaunchGate.NobodyPassesALaunch | crates/runtime/src/html/browser.rs:444-474 | While a launch lasts nobody else gets the guard, whether or not its caller still waits |
| LaunchGate.GuardOutlivesCaller | crates/runtime/src/html/browser.rs:444-474 | After a timeout the closure may still run with the flag set |
| LaunchGate.LaunchFirstAvailable | crates/runtime/src/html/browser.rs:477-495 | Only plain failures move on to the next candidate; the result and all failure texts are those of the candidates tried, in order |
| Cidr.ContainsIsPrefixMatch | crates/runtime/src/html/resource_policy.rs:311-317 | Lying between network and broadcast address is agreeing on the whole prefix, bit by bit (section 3.1 of RFC 4632) |
| ResourcePolicy.PublicV4 | crates/runtime/src/html/resource_policy.rs:297-335 | The blocked IPv4 networks leave exactly the public octets |
| ResourcePolicy.PublicV6 | crates/runtime/src/html/resource_policy.rs:297-337 | The blocked IPv6 networks leave exactly the public numbers, written as leading groups and intervals |
| ResourcePolicy.PublicSharesNoPrefix | crates/runtime/src/html/resource_policy.rs:297-337 | An address of either family is public exactly when it shares the prefix of no listed network |
| ResourcePolicy.ApprovedIsReachable | crates/runtime/src/html/resource_policy.rs:213-284 | An approved address is public, or loopback for a page of that very origin named literally; a name with one bad address is refused whole |
| ResourcePolicy.ApprovedExactly | crates/runtime/src/html/resource_policy.rs:213-284 | What is approved is the literal address or the first of several all public, with the URL's own port and authority text |
| ResourcePolicy.ReachableIsApproved | crates/runtime/src/html/resource_policy.rs:213-284 | Conversely whatever a target so leads to is approved |
| ResourcePolicy.LoopbackOnlyForItsOwnOrigin | crates/runtime/src/html/resource_policy.rs:213-284 | For every target, an address that is not public is approved exactly when the target names loopback literally and is of the page's very origin; an allowed origin gives nothing to targets of another |
| Proxy.FilteringProxy.Handle | crates/runtime/src/html/proxy.rs:275-305 | The connections attempted are exactly those of the requests served, in order; the answer is fixed, and a blocked resource of the page is recorded |
| Proxy.EveryConnectionIsApproved | crates/runtime/src/html/proxy.rs:332-447 | After any history every connection went to an address and port approved for the URL of a request that was served: public, or loopback named literally by a request to the page's own origin |
| Proxy.FilteringProxy.HandleConnect | crates/runtime/src/html/proxy.rs:332-401 | A tunnel goes to the address approved for its authority and is answered once connected; the synthetic page needs no connection |
| Proxy.FilteringProxy.HandleHttp | crates/runtime/src/html/proxy.rs:403-447 | A plain request connects only for an http URL that was approved; no connection, a request that cannot be forwarded and a failed exchange are answered as the errors they are |
| Proxy.RepliesMeanWhatTheySay | crates/runtime/src/html/proxy.rs:275-447 | A blocked answer names the URL asked for, and is given exactly when the policy refuses; synthetic answers open no connection; an approved request is called invalid only if it is plain and cannot be forwarded |
| Proxy.WantedExactly | crates/runtime/src/html/proxy.rs:275-484 | A request wants from the network exactly the URL it asks for, by authority, absolute target or host, path and query; plain requests want http pages only, and requests for the synthetic page nothing |
| Proxy.AttributionExactly | crates/runtime/src/html/proxy.rs:53-65 | A request belongs to the page exactly when its Referer or its Origin header has the page's own origin |
| Proxy.RememberedIsFirst | crates/runtime/src/html/proxy.rs:67-84 | The remembered rejection is the page's first since the last clearing, and absent exactly without one |
| PathEditor.AddAppends | apps/desktop/src-tauri/src/cli_integration/windows.rs:18-28 | Adding appends the entry behind all entries, or changes nothing |
| PathEditor.RemoveKeepsOthers | apps/desktop/src-tauri/src/cli_integration/windows.rs:30-37 | Removing keeps exactly the unrelated entries, in order |
| PathEditor.AddedIsContained | apps/desktop/src-tauri/src/cli_integration/windows.rs:9-28 | After adding, an entry is found exactly if it was before, or is not blank and holds no separator |
| PathEditor.AddTwice | apps/desktop/src-tauri/src/cli_integration/windows.rs:18-28 | Adding twice is adding once exactly when the entry is there already, is neither blank nor holds a separator, or is made of separators only |
| PathEditor.RemovedIsAbsent | apps/desktop/src-tauri/src/cli_integration/windows.rs:30-37 | After removing, the entry is never found |
| PathEditor.RemoveUndoesAdd | apps/desktop/src-tauri/src/cli_integration/windows.rs:18-37 | Removing after adding equals removing alone, as strings, exactly for entries without a separator or made of blanks |
| PathEditor.ComparedByCore | apps/desktop/src-tauri/src/cli_integration/windows.rs:1-7 | Outer space, quotes and trailing slashes do not matter, nor does the case of ASCII letters |
| PathEditor.BareEntriesCompareByLetters | apps/desktop/src-tauri/src/cli_integration/windows.rs:1-7 | Bare entries are the same exactly when they are equal but for the case of ASCII letters |
| PathEditor.FoundHoweverWritten | apps/desktop/src-tauri/src/cli_integration/windows.rs:9-28 | An entry is found, and not added again, however it is written there and asked for |
| Framing.Stream.WriteFrame | crates/cli/src/client.rs:130-147 | Writes one frame, or nothing for a payload over the limit |
| Framing.Stream.ReadFrame | crates/cli/src/client.rs:150-169 | Reads what the specification parses and leaves its rest |
| Framing.ParseInvertsFrame | crates/cli/src/client.rs:129-169 | Reading gives a payload and a rest exactly when the stream is that payload's frame and that rest |
| Framing.ReadBackFrames | crates/cli/src/client.rs:129-169 | Reading as many frames as were written returns exactly the payloads and leaves the rest |
| Framing.ReadFramesWereWritten | crates/cli/src/client.rs:129-169 | Whatever can be read as frames is a concatenation of frames |
| Framing.FrameLayout | crates/cli/src/client.rs:130-147 | A frame is the length in four bytes, the most significant first, then the payload |
| Framing.LimitIsEightMegabytes | crates/cli/src/client.rs:150-169 | A frame is refused as too large exactly when it announces more than 8,388,608 bytes |
| GrowingBuffer.ReadBuffer | crates/runtime/src/printing/windows_buffer.rs:10-36 | At most four queries with strictly growing capacities that fit 32 bits, each led to by the answer before; the result is the last answer's |

## Left out

- PipelineProgress.PendingJobIsTaken: says that the run can always go on to the pop and that no step delays it; that the scheduler is fair is outside the model.
- Download.DownloadedFileFits: the limit is compared with a 64-bit saturating counter, as in the code.
- LaunchGate.AlwaysGuarded: the order in which the condition variable wakes sleepers is left open.
- PrintJobs.Describe: texts of the operating system, the HTTP library and converters stand for themselves.
- Removals of files and directories are assumed to succeed; their failures are ignored by the code.
- The renderer's profile directory, shared with a launch thread that may outlive the render, and the CUPS temporary file for raw data.
- The time a step takes: sleeps, deadlines and polling intervals are free choices; stored times are compared, never computed.
- The liveness of the polling worker across configuration saves, and the order in which reports are delivered: the code promises neither.
- The bounded in-memory log store: a ring that only the user interface reads.
- `cleanup_delivered_before`: nothing calls it.
- The doubly optional fields of an exported file: a field left out, null or given is a JSON matter.
- JSON, HTTP, WebSocket, SQLite and file formats themselves; of SQL the uniqueness, COALESCE, ORDER BY and LIMIT rules are modelled.
- URL, base64 and IP address parsing: parameters, with the few facts needed named where they are used.
- Cryptography of the configuration file, `doctor`, command line parsing, the command service, translations, tray and updater.
- Windows printing through foreign calls, PowerShell Office scripts and the registry; only the PATH text and the buffer loop are modelled.
- Image layout and PDF generation, which compute with floating point; paper sizes are exact hundredths instead of floats.
- Tray, media type and resolution listings of CUPS, `lp` job id parsing and completion polling.
