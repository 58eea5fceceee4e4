/**
 * The CUPS client library as the wrapper sees it. Nothing of the library is modelled: each call is replaced
 * by the data it hands back (a count and records, a status, the global last-error state right after the
 * call). The calls `print` and the `JobGuard` destructor make are recorded as `NativeCall` values in a
 * ghost log.
 */
module Native {
  import opened Expected

  /** One `cups_option_t`: an option name and its value. */
  datatype NativeOption = NativeOption(name: string, value: string)

  /** One `cups_dest_t` as `cupsGetDests` fills it in; a null `instance` pointer is `None`. */
  datatype NativeDest = NativeDest(name: string, instance: Option<string>, isDefault: int, options: seq<NativeOption>)

  /** The global last-error state: what `cupsLastError` and `cupsLastErrorString` report. */
  datatype LastError = LastError(code: int, text: string)

  /** What one `cupsGetDests` call produced: the count it returned, the array, and the last-error state after it. */
  datatype DestsReply = DestsReply(count: int, dests: seq<NativeDest>, lastError: LastError)

  /** What one fallible call of the job protocol produced: its return value and the last-error state after it. */
  datatype Reply = Reply(status: int, lastError: LastError)

  /** The replies of the four phases of a job: `cupsCreateJob` (status is the job id), `cupsStartDocument`,
      `cupsWriteRequestData` and `cupsFinishDocument`. A phase that is never reached leaves its reply unread. */
  datatype JobReplies = JobReplies(create: Reply, start: Reply, write: Reply, finish: Reply)

  /** `HTTP_STATUS_CONTINUE` of `http_status_t`. */
  const HttpContinue: int := 100
  /** `IPP_STATUS_OK` of `ipp_status_t`. */
  const IppStatusOk: int := 0

  /** How each call of the job protocol signals success; each call has its own test. */
  predicate JobCreated(jobId: int) { jobId >= 0 }
  predicate DocumentStarted(status: int) { status == HttpContinue }
  predicate DataWritten(status: int) { status == HttpContinue }
  predicate DocumentFinished(status: int) { status == IppStatusOk }

  /** The calls into the library that the wrapper issues, in the order it issues them. */
  datatype NativeCall =
    | CupsCreateJob(dest: string, title: string, options: seq<NativeOption>)
    | CupsStartDocument(dest: string, jobId: int, docName: string, format: string, lastDocument: bool)
    | CupsWriteRequestData(data: string)
    | CupsFinishDocument(dest: string)
    | CupsCancelJob(dest: string, jobId: int)

  /** The cancel requests in a log, in order. */
  function Cancels(calls: seq<NativeCall>): seq<NativeCall>
  {
    if calls == [] then []
    else
      var last := calls[|calls| - 1];
      Cancels(calls[..|calls| - 1]) + if last.CupsCancelJob? then [last] else []
  }

  /** Extending a log by one call extends its cancels by that call when it is a cancel. */
  lemma CancelsSnoc(calls: seq<NativeCall>, c: NativeCall)
    ensures Cancels(calls + [c]) == Cancels(calls) + if c.CupsCancelJob? then [c] else []
  {
    assert (calls + [c])[..|calls|] == calls;
  }
}
