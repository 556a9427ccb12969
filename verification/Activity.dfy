/** Job statuses and the entries that report them. */
module Activity {
  import opened Outcomes

  datatype JobStatus = Queued | Downloading | Printing | Submitted | Completed | Failed | Unknown | Cancelled

  /** Statuses that end a job's life. */
  predicate IsTerminal(s: JobStatus) {
    s.Submitted? || s.Completed? || s.Failed? || s.Unknown? || s.Cancelled?
  }

  datatype Source = WebSocket | Remote | Test

  /** One broadcast line of the task log. */
  datatype LogEntry = LogEntry(requestId: string, batchId: Option<string>, jobId: string, status: JobStatus, message: string)
}
