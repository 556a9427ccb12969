/** The print messages of a WebSocket client: what is checked before the queue, and what the connection learns. */
module Server {
  import opened Outcomes
  import opened Protocol
  import opened Activity
  import opened JobQueue

  datatype ClientMessage =
    | Print(requestId: string, job: PrintJob)
    | PrintBatch(requestId: string, batchId: string, jobs: seq<PrintJob>)

  datatype Limits = Limits(maxFileSizeMb: nat, maxBatchJobs: nat)

  datatype ErrorCode = BatchTooLarge | InvalidJob(error: JobError) | InvalidOrigin | Refused(refusal: QueueError)

  /** What goes back to the client. */
  datatype Response = Accepted(id: string) | Rejected(code: ErrorCode)

  /** What `Url::parse(origin)` gives for the connection's Origin header. */
  type Header = Option<string>

  function MessageJobs(m: ClientMessage): seq<PrintJob> {
    match m
    case Print(_, job) => [job]
    case PrintBatch(_, _, jobs) => jobs
  }

  function MessageIds(m: ClientMessage): (ids: seq<string>)
    ensures |ids| == |MessageJobs(m)|
    ensures forall i :: 0 <= i < |ids| ==> ids[i] == MessageJobs(m)[i].jobId
  {
    seq(|MessageJobs(m)|, i requires 0 <= i < |MessageJobs(m)| => MessageJobs(m)[i].jobId)
  }

  function MessageBatch(m: ClientMessage): Option<string> {
    if m.PrintBatch? then Some(m.batchId) else None
  }

  /** The host text of an IPv6 literal keeps its brackets, so only the IPv4 address can match. */
  predicate IsExactLoopback(url: Url) {
    url.host == Some("127.0.0.1") || url.host == Some("::1")
  }

  /** The page of an HTML job that is served from this very machine. */
  function LoopbackPage(lib: Library, job: PrintJob): Option<Url> {
    if job.format != Html || job.fileUrl.None? then None
    else
      match HtmlPage(lib, job.fileUrl.value)
      case None => None
      case Some(url) => if IsExactLoopback(url) then Some(url) else None
  }

  /** The connection's own origin, if it is a loopback address. */
  function LoopbackOrigin(lib: Library, header: Header): Option<Origin> {
    if header.None? then None
    else
      match lib.parseUrl(header.value)
      case None => None
      case Some(url) => if IsExactLoopback(url) then Some(url.origin) else None
  }

  predicate NoLoopbackPages(lib: Library, jobs: seq<PrintJob>) {
    forall i :: 0 <= i < |jobs| ==> LoopbackPage(lib, jobs[i]).None?
  }

  predicate AllPagesFrom(lib: Library, jobs: seq<PrintJob>, origin: Origin) {
    forall i :: 0 <= i < |jobs| && LoopbackPage(lib, jobs[i]).Some? ==> SameOrigin(LoopbackPage(lib, jobs[i]).value.origin, origin)
  }

  /** The origin whose local pages the jobs may load; `Err` when a local page is not the client's own. */
  function HtmlLocalOrigin(lib: Library, jobs: seq<PrintJob>, header: Header): Result<Option<string>, ()> {
    if NoLoopbackPages(lib, jobs) then Ok(None)
    else
      match LoopbackOrigin(lib, header)
      case None => Err(())
      case Some(origin) => if AllPagesFrom(lib, jobs, origin) then Ok(Some(Serialized(origin))) else Err(())
  }

  predicate AllAcceptable(lib: Library, jobs: seq<PrintJob>, maxFileSizeMb: nat) {
    forall i :: 0 <= i < |jobs| ==> Acceptable(lib, jobs[i], maxFileSizeMb)
  }

  function FirstInvalid(lib: Library, jobs: seq<PrintJob>, maxFileSizeMb: nat): Option<JobError> {
    if jobs == [] then None
    else if FirstInvalid(lib, jobs[..|jobs| - 1], maxFileSizeMb).Some? then FirstInvalid(lib, jobs[..|jobs| - 1], maxFileSizeMb)
    else ValidateForAcceptance(lib, jobs[|jobs| - 1], maxFileSizeMb)
  }

  /** What reaches the queue, or why nothing does. */
  function Screen(lib: Library, limits: Limits, header: Header, m: ClientMessage): Result<Submission, ErrorCode> {
    var jobs := MessageJobs(m);
    if m.PrintBatch? && |jobs| > limits.maxBatchJobs then Err(BatchTooLarge)
    else if FirstInvalid(lib, jobs, limits.maxFileSizeMb).Some? then
      Err(InvalidJob(FirstInvalid(lib, jobs, limits.maxFileSizeMb).value))
    else
      match HtmlLocalOrigin(lib, jobs, header)
      case Err(_) => Err(InvalidOrigin)
      case Ok(origin) => Ok(Submission(m.requestId, MessageBatch(m), jobs, origin, false))
  }

  /** What becomes of one message: the queue, the answer, the ids the connection may follow. */
  datatype Handled = Handled(queue: Contents, response: Response, ids: seq<string>)

  ghost function Handle(lib: Library, limits: Limits, header: Header, m: ClientMessage, c: Contents): Handled {
    match Screen(lib, limits, header, m)
    case Err(code) => Handled(c, Rejected(code), [])
    case Ok(s) =>
      if Refusal(lib, c, s).Some? then Handled(c, Rejected(Refused(Refusal(lib, c, s).value)), [])
      else Handled(Accept(lib, c, s), Accepted(if m.Print? then m.job.jobId else m.batchId), MessageIds(m))
  }

  /** Handles a message; `notified` says whether the print worker was woken. */
  method HandleClientText(lib: Library, limits: Limits, header: Header, m: ClientMessage, queue: QueueState)
    returns (response: Response, ids: seq<string>, notified: bool)
    modifies queue
    ensures Handled(queue.Snapshot(), response, ids) == Handle(lib, limits, header, m, old(queue.Snapshot()))
    ensures notified <==> response.Accepted?
  {
    var jobs := MessageJobs(m);
    if m.PrintBatch? && |jobs| > limits.maxBatchJobs {
      return Rejected(BatchTooLarge), [], false;
    }
    assert jobs[..0] == [];
    for i := 0 to |jobs|
      invariant FirstInvalid(lib, jobs[..i], limits.maxFileSizeMb).None?
      invariant queue.Snapshot() == old(queue.Snapshot())
    {
      var invalid := ValidateForAcceptance(lib, jobs[i], limits.maxFileSizeMb);
      assert jobs[..i + 1][..i] == jobs[..i];
      if invalid.Some? {
        InvalidStays(lib, jobs, limits.maxFileSizeMb, i + 1);
        return Rejected(InvalidJob(invalid.value)), [], false;
      }
    }
    assert jobs[..|jobs|] == jobs;
    var origin := HtmlLocalOrigin(lib, jobs, header);
    if origin.Err? {
      return Rejected(InvalidOrigin), [], false;
    }
    var refused: Option<QueueError>;
    match m {
      case Print(requestId, job) =>
        refused := queue.AcceptJobWithLocalOrigin(lib, requestId, job, origin.value);
      case PrintBatch(requestId, batchId, _) =>
        refused := queue.AcceptBatchWithLocalOrigin(lib, requestId, batchId, jobs, false, origin.value);
    }
    if refused.Some? {
      return Rejected(Refused(refused.value)), [], false;
    }
    return Accepted(if m.Print? then m.job.jobId else m.batchId), MessageIds(m), true;
  }

  lemma {:induction false} InvalidStays(lib: Library, jobs: seq<PrintJob>, maxFileSizeMb: nat, n: nat)
    requires n <= |jobs| && FirstInvalid(lib, jobs[..n], maxFileSizeMb).Some?
    ensures FirstInvalid(lib, jobs, maxFileSizeMb) == FirstInvalid(lib, jobs[..n], maxFileSizeMb)
  {
    if n == |jobs| {
      assert jobs[..n] == jobs;
    } else {
      var shorter := jobs[..|jobs| - 1];
      assert shorter[..n] == jobs[..n];
      InvalidStays(lib, shorter, maxFileSizeMb, n);
    }
  }

  lemma {:induction false} ValidMeansAllAcceptable(lib: Library, jobs: seq<PrintJob>, maxFileSizeMb: nat)
    ensures FirstInvalid(lib, jobs, maxFileSizeMb).None? <==> AllAcceptable(lib, jobs, maxFileSizeMb)
  {
    if jobs != [] {
      var n := |jobs| - 1;
      ValidMeansAllAcceptable(lib, jobs[..n], maxFileSizeMb);
      assert forall i :: 0 <= i < n ==> jobs[..n][i] == jobs[i];
    }
  }

  /** The entry's page can be loaded; a local page has the connection's origin, and the entry carries it. */
  ghost predicate PageIsTheClients(lib: Library, header: Header, e: QueuedJob) {
    && HtmlSourceOk(lib, e.job)
    && var page := LoopbackPage(lib, e.job);
       page.Some? ==>
         && page.value.origin.Tuple? && LoopbackOrigin(lib, header) == Some(page.value.origin)
         && e.localOrigin == Some(page.value.origin.text)
  }

  /**
   * A local page enters the queue only from a connection of that page's own origin, and its entry carries
   * exactly that origin. The jobs of the message are appended in order, and every page can be loaded.
   */
  lemma QueuedLocalPagesAreTheClientsOwn(lib: Library, limits: Limits, header: Header, m: ClientMessage, c: Contents)
    requires Handle(lib, limits, header, m, c).response.Accepted?
    ensures var after, jobs := Handle(lib, limits, header, m, c).queue.pending, MessageJobs(m);
            && |after| == |c.pending| + |jobs| && after[..|c.pending|] == c.pending
            && forall i :: 0 <= i < |jobs| ==>
                 after[|c.pending| + i].job == jobs[i] && PageIsTheClients(lib, header, after[|c.pending| + i])
  {
    var s, jobs := Screen(lib, limits, header, m).value, MessageJobs(m);
    ValidMeansAllAcceptable(lib, jobs, limits.maxFileSizeMb);
    var entries := Entries(lib, s);
    assert Handle(lib, limits, header, m, c).queue.pending == c.pending + entries;
    forall i | 0 <= i < |jobs| ensures entries[i].job == jobs[i] && PageIsTheClients(lib, header, entries[i]) {
      if LoopbackPage(lib, jobs[i]).Some? { OwnPageKeepsItsOrigin(lib, jobs, header, i); }
    }
  }

  /** Once a message passes, each of its local pages has the connection's origin. */
  lemma OwnPageKeepsItsOrigin(lib: Library, jobs: seq<PrintJob>, header: Header, i: nat)
    requires HtmlLocalOrigin(lib, jobs, header).Ok? && i < |jobs| && LoopbackPage(lib, jobs[i]).Some?
    ensures var page := LoopbackPage(lib, jobs[i]).value;
            && page.origin.Tuple? && LoopbackOrigin(lib, header) == Some(page.origin)
            && LocalOriginForJob(lib, jobs[i], HtmlLocalOrigin(lib, jobs, header).value) == Some(page.origin.text)
  {
    assert !NoLoopbackPages(lib, jobs);
  }

  /** The URL parser writes IPv6 hosts in brackets (section 3.2.2 of RFC 3986), so no host text is a bare `::1`. */
  ghost predicate BracketsIpv6(lib: Library) {
    forall text :: lib.parseUrl(text).Some? ==> lib.parseUrl(text).value.host != Some("::1")
  }

  /** The job is an HTML page whose host text is literally 127.0.0.1. */
  predicate NamesIpv4Loopback(lib: Library, job: PrintJob) {
    && job.format == Html && job.fileUrl.Some?
    && HtmlPage(lib, job.fileUrl.value).Some? && HtmlPage(lib, job.fileUrl.value).value.host == Some("127.0.0.1")
  }

  /** The pages that are tested against the connection's origin are exactly those that name 127.0.0.1. */
  lemma OnlyIpv4LoopbackIsTested(lib: Library, job: PrintJob)
    requires BracketsIpv6(lib)
    ensures LoopbackPage(lib, job).Some? <==> NamesIpv4Loopback(lib, job)
  {
    if job.fileUrl.Some? { assert lib.parseUrl(job.fileUrl.value).Some? ==> lib.parseUrl(job.fileUrl.value).value.host != Some("::1"); }
  }

  /**
   * What a message needs besides valid jobs: pages that name 127.0.0.1 must all have the connection's own origin,
   * which must be such a loopback origin itself. Any other page, `http://[::1]` and `http://localhost` included,
   * is passed on without an origin test and without an origin.
   */
  lemma OriginTestExactly(lib: Library, jobs: seq<PrintJob>, header: Header)
    requires BracketsIpv6(lib)
    ensures var named := exists i :: 0 <= i < |jobs| && NamesIpv4Loopback(lib, jobs[i]);
            && (HtmlLocalOrigin(lib, jobs, header) == Ok(None) <==> !named)
            && (HtmlLocalOrigin(lib, jobs, header).Ok? <==>
                  !named || (LoopbackOrigin(lib, header).Some? && AllPagesFrom(lib, jobs, LoopbackOrigin(lib, header).value)))
  {
    forall i | 0 <= i < |jobs| ensures LoopbackPage(lib, jobs[i]).Some? <==> NamesIpv4Loopback(lib, jobs[i]) {
      OnlyIpv4LoopbackIsTested(lib, jobs[i]);
    }
  }

  /** A page on the IPv6 loopback address is queued for any connection, whatever its origin, and carries none. */
  lemma Ipv6LoopbackIsNotTested(lib: Library, limits: Limits, header: Header, requestId: string, job: PrintJob, c: Contents)
    requires job.format == Html && job.fileUrl.Some? && Acceptable(lib, job, limits.maxFileSizeMb)
    requires HtmlPage(lib, job.fileUrl.value).Some? && HtmlPage(lib, job.fileUrl.value).value.host == Some("[::1]")
    requires job.jobId !in c.seenJobs
    ensures var h := Handle(lib, limits, header, Print(requestId, job), c);
            && h.response == Accepted(job.jobId)
            && h.queue.pending == c.pending + [QueuedJob(requestId, None, job, None, false)]
  {
    var m, s := Print(requestId, job), Submission(requestId, None, [job], None, false);
    ValidMeansAllAcceptable(lib, MessageJobs(m), limits.maxFileSizeMb);
    assert NoLoopbackPages(lib, [job]) && Screen(lib, limits, header, m) == Ok(s);
    assert JobIds([job]) == {job.jobId} by { assert [job][0] == job; }
    assert Refusal(lib, c, s).None?;
    assert Entries(lib, s) == [QueuedJob(requestId, None, job, None, false)];
  }

  lemma NeverRefusedForAPage(lib: Library, limits: Limits, header: Header, m: ClientMessage, c: Contents)
    ensures Handle(lib, limits, header, m, c).response != Rejected(Refused(InvalidMessage))
  {
    if Screen(lib, limits, header, m).Ok? {
      ValidMeansAllAcceptable(lib, MessageJobs(m), limits.maxFileSizeMb);
    }
  }

  // -------------------------------------------------------------------------
  // The whole decision, without the steps that lead to it
  // -------------------------------------------------------------------------

  predicate TooManyJobs(limits: Limits, m: ClientMessage) {
    m.PrintBatch? && |m.jobs| > limits.maxBatchJobs
  }

  /** `error` is what is wrong with the first job that is not acceptable. */
  ghost predicate FirstError(lib: Library, jobs: seq<PrintJob>, maxFileSizeMb: nat, error: JobError) {
    exists i :: 0 <= i < |jobs| && ValidateForAcceptance(lib, jobs[i], maxFileSizeMb) == Some(error)
             && AllAcceptable(lib, jobs[..i], maxFileSizeMb)
  }

  /** The connection names 127.0.0.1 as its origin, and so do all pages of the message that are on 127.0.0.1: the same one. */
  ghost predicate OriginFits(lib: Library, jobs: seq<PrintJob>, header: Header) {
    && header.Some? && lib.parseUrl(header.value).Some? && lib.parseUrl(header.value).value.host == Some("127.0.0.1")
    && forall i :: 0 <= i < |jobs| && NamesIpv4Loopback(lib, jobs[i]) ==>
         SameOrigin(HtmlPage(lib, jobs[i].fileUrl.value).value.origin, lib.parseUrl(header.value).value.origin)
  }

  ghost predicate OriginPasses(lib: Library, jobs: seq<PrintJob>, header: Header) {
    (forall i :: 0 <= i < |jobs| ==> !NamesIpv4Loopback(lib, jobs[i])) || OriginFits(lib, jobs, header)
  }

  /** The message may go to the queue. */
  ghost predicate PassesScreen(lib: Library, limits: Limits, header: Header, m: ClientMessage) {
    !TooManyJobs(limits, m) && AllAcceptable(lib, MessageJobs(m), limits.maxFileSizeMb) && OriginPasses(lib, MessageJobs(m), header)
  }

  predicate BatchSeen(m: ClientMessage, c: Contents) {
    m.PrintBatch? && m.batchId in c.seenBatches
  }

  ghost predicate JobSeen(m: ClientMessage, c: Contents) {
    || (exists i :: 0 <= i < |MessageJobs(m)| && MessageJobs(m)[i].jobId in c.seenJobs)
    || (exists i, j :: 0 <= i < j < |MessageJobs(m)| && MessageJobs(m)[i].jobId == MessageJobs(m)[j].jobId)
  }

  /** Each answer has its own exact condition. */
  ghost predicate AnswersRightly(lib: Library, limits: Limits, header: Header, m: ClientMessage, c: Contents, response: Response) {
    var jobs := MessageJobs(m);
    && (response == Rejected(BatchTooLarge) <==> TooManyJobs(limits, m))
    && (response.Rejected? && response.code.InvalidJob? <==> !TooManyJobs(limits, m) && !AllAcceptable(lib, jobs, limits.maxFileSizeMb))
    && (response.Rejected? && response.code.InvalidJob? ==> FirstError(lib, jobs, limits.maxFileSizeMb, response.code.error))
    && (response == Rejected(InvalidOrigin) <==>
          !TooManyJobs(limits, m) && AllAcceptable(lib, jobs, limits.maxFileSizeMb) && !OriginPasses(lib, jobs, header))
    && (response == Rejected(Refused(DuplicateBatchId)) <==> PassesScreen(lib, limits, header, m) && BatchSeen(m, c))
    && (response == Rejected(Refused(DuplicateJobId)) <==> PassesScreen(lib, limits, header, m) && !BatchSeen(m, c) && JobSeen(m, c))
    && (response.Accepted? <==> PassesScreen(lib, limits, header, m) && !BatchSeen(m, c) && !JobSeen(m, c))
    && (response.Accepted? ==> response.id == if m.Print? then m.job.jobId else m.batchId)
  }

  /** The entry stands for the `i`-th job of the message, under the message's ids, as a client's. */
  ghost predicate EntersAs(m: ClientMessage, i: nat, e: QueuedJob) {
    && i < |MessageJobs(m)| && e.job == MessageJobs(m)[i] && !e.remote && e.requestId == m.requestId
    && e.batchId == if m.PrintBatch? then Some(m.batchId) else None
  }

  /** The jobs of the message stand behind what was pending, in order. */
  ghost predicate Appends(m: ClientMessage, before: seq<QueuedJob>, after: seq<QueuedJob>) {
    && |after| == |before| + |MessageJobs(m)| && after[..|before|] == before
    && forall k :: |before| <= k < |after| ==> EntersAs(m, k - |before|, after[k])
  }

  /** A rejection leaves everything as it was; an acceptance appends the jobs in order and remembers their ids. */
  ghost predicate QueuesRightly(m: ClientMessage, before: Contents, h: Handled) {
    if h.response.Rejected? then h.queue == before && h.ids == []
    else
      && Appends(m, before.pending, h.queue.pending)
      && (forall id :: id in h.queue.seenJobs <==> id in before.seenJobs || id in h.ids)
      && h.queue.seenBatches == before.seenBatches + (if m.PrintBatch? then {m.batchId} else {})
      && |h.ids| == |MessageJobs(m)| && (forall i :: 0 <= i < |h.ids| ==> h.ids[i] == MessageJobs(m)[i].jobId)
  }

  lemma {:induction false} FirstInvalidIsFirst(lib: Library, jobs: seq<PrintJob>, maxFileSizeMb: nat)
    requires FirstInvalid(lib, jobs, maxFileSizeMb).Some?
    ensures FirstError(lib, jobs, maxFileSizeMb, FirstInvalid(lib, jobs, maxFileSizeMb).value)
  {
    var n := |jobs| - 1;
    if FirstInvalid(lib, jobs[..n], maxFileSizeMb).Some? {
      FirstInvalidIsFirst(lib, jobs[..n], maxFileSizeMb);
      var error := FirstInvalid(lib, jobs[..n], maxFileSizeMb).value;
      var i :| 0 <= i < n && ValidateForAcceptance(lib, jobs[..n][i], maxFileSizeMb) == Some(error)
            && AllAcceptable(lib, jobs[..n][..i], maxFileSizeMb);
      assert jobs[..n][..i] == jobs[..i] && jobs[..n][i] == jobs[i];
    } else {
      ValidMeansAllAcceptable(lib, jobs[..n], maxFileSizeMb);
    }
  }

  lemma OriginTestDecides(lib: Library, jobs: seq<PrintJob>, header: Header)
    requires BracketsIpv6(lib)
    ensures HtmlLocalOrigin(lib, jobs, header).Ok? <==> OriginPasses(lib, jobs, header)
  {
    OriginTestExactly(lib, jobs, header);
    forall i | 0 <= i < |jobs| ensures LoopbackPage(lib, jobs[i]).Some? <==> NamesIpv4Loopback(lib, jobs[i]) {
      OnlyIpv4LoopbackIsTested(lib, jobs[i]);
    }
  }

  /** The queue refuses a client's message, once screened, exactly for ids it has seen. */
  lemma RefusalOfMessage(lib: Library, limits: Limits, m: ClientMessage, c: Contents, s: Submission)
    requires AllAcceptable(lib, MessageJobs(m), limits.maxFileSizeMb)
    requires s.jobs == MessageJobs(m) && s.batchId == MessageBatch(m)
    ensures Refusal(lib, c, s) == if BatchSeen(m, c) then Some(DuplicateBatchId) else if JobSeen(m, c) then Some(DuplicateJobId) else None
  {
    var jobs := MessageJobs(m);
    if exists i :: 0 <= i < |jobs| && jobs[i].jobId in c.seenJobs {
      var i :| 0 <= i < |jobs| && jobs[i].jobId in c.seenJobs;
      assert jobs[i].jobId in JobIds(jobs) * c.seenJobs;
    } else {
      assert JobIds(jobs) * c.seenJobs == {};
    }
  }

  /**
   * The decision on any message, over any queue: which of the answers is given has an exact condition on the message,
   * the connection and the ids seen; a rejection changes nothing, an acceptance appends exactly the jobs.
   */
  lemma EveryMessageIsDecided(lib: Library, limits: Limits, header: Header, m: ClientMessage, c: Contents)
    requires BracketsIpv6(lib)
    ensures var h := Handle(lib, limits, header, m, c);
            AnswersRightly(lib, limits, header, m, c, h.response) && QueuesRightly(m, c, h)
  {
    AnswerIsDecided(lib, limits, header, m, c);
    QueueIsDecided(lib, limits, header, m, c);
  }

  lemma AnswerIsDecided(lib: Library, limits: Limits, header: Header, m: ClientMessage, c: Contents)
    requires BracketsIpv6(lib)
    ensures AnswersRightly(lib, limits, header, m, c, Handle(lib, limits, header, m, c).response)
  {
    var jobs := MessageJobs(m);
    ValidMeansAllAcceptable(lib, jobs, limits.maxFileSizeMb);
    OriginTestDecides(lib, jobs, header);
    if FirstInvalid(lib, jobs, limits.maxFileSizeMb).Some? {
      FirstInvalidIsFirst(lib, jobs, limits.maxFileSizeMb);
    } else if Screen(lib, limits, header, m).Ok? {
      RefusalOfMessage(lib, limits, m, c, Screen(lib, limits, header, m).value);
    }
  }

  lemma EntriesEnter(lib: Library, m: ClientMessage, pending: seq<QueuedJob>, origin: Option<string>)
    ensures Appends(m, pending, pending + Entries(lib, Submission(m.requestId, MessageBatch(m), MessageJobs(m), origin, false)))
  {
  }

  lemma IdsAreRemembered(m: ClientMessage, id: string)
    ensures id in JobIds(MessageJobs(m)) <==> id in MessageIds(m)
  {
    var jobs, ids := MessageJobs(m), MessageIds(m);
    if id in ids {
      var i :| 0 <= i < |ids| && ids[i] == id;
      assert jobs[i].jobId == id;
    }
    if id in JobIds(jobs) {
      var i :| 0 <= i < |jobs| && jobs[i].jobId == id;
      assert ids[i] == id;
    }
  }

  lemma QueueIsDecided(lib: Library, limits: Limits, header: Header, m: ClientMessage, c: Contents)
    ensures QueuesRightly(m, c, Handle(lib, limits, header, m, c))
  {
    var h := Handle(lib, limits, header, m, c);
    if h.response.Accepted? {
      EntriesEnter(lib, m, c.pending, Screen(lib, limits, header, m).value.localOrigin);
      forall id ensures id in h.queue.seenJobs <==> id in c.seenJobs || id in h.ids {
        IdsAreRemembered(m, id);
      }
    }
  }

  /** A connection hears of a status exactly when it follows the job. */
  function StatusForConnection(entry: LogEntry, followed: set<string>): Option<LogEntry> {
    if entry.jobId in followed then Some(entry) else None
  }
}
