/** The reference definition of one capture: the termination code returned
    and the trace of side effects, as functions of the handler's
    configuration and the collaborators' answers. */
module CaptureSpec {
  import opened CrashTypes
  import opened Collaborators
  import opened Events

  /** The handler's configuration, fixed at construction. */
  datatype CrashReportExceptionHandler = CrashReportExceptionHandler(
    hasUploadThread: bool,                       // upload_thread_ is non-null
    processAnnotations: map<string, string>,     // *process_annotations_
    attachments: seq<FilePath>)                  // *attachments_

  datatype Outcome = Outcome(code: u32, trace: seq<Event>)

  /** The events of the reporting part of a capture and the metric it ends with. */
  datatype ReportRun = ReportRun(events: seq<Event>, result: CaptureResult)

  /** The client id left after the settings lookup: zero unless a stored id was read. */
  function ClientIDFor(settings: SettingsOracle): Uuid {
    if settings.StoredClientID? then settings.id else ZeroUuid
  }

  /** One iteration of the attachment loop, for the `i`-th path. */
  function AttachmentStep(i: nat, path: FilePath, w: World): seq<Event> {
    if !w.attachmentOpens(i) then [OpenAttachment(path)]
    else if !w.attachmentSinkCreated(i) then [OpenAttachment(path), AddAttachment(BaseName(path))]
    else [OpenAttachment(path), AddAttachment(BaseName(path)), CopyFileContent(path, BaseName(path))]
  }

  /** The whole attachment loop over `paths`: at least one call per path, and none without a path. */
  function AttachmentEvents(paths: seq<FilePath>, w: World): (events: seq<Event>)
    ensures |paths| <= |events|
    ensures events == [] <==> paths == []
    decreases |paths|
  {
    if paths == [] then []
    else AttachmentEvents(paths[..|paths| - 1], w) + AttachmentStep(|paths| - 1, paths[|paths| - 1], w)
  }

  /** The trace `before` extended by the dialog, the settings lookup, and the
      client id and annotations bound to the snapshot. */
  function Identified(h: CrashReportExceptionHandler, w: World, before: seq<Event>): seq<Event> {
    before + [Dialog, GetSettings, SetClientID(ClientIDFor(w.settings)), SetAnnotations(h.processAnnotations)]
  }

  /** ... then the request for a new report. */
  function Prepared(h: CrashReportExceptionHandler, w: World, before: seq<Event>): seq<Event> {
    Identified(h, w, before) + [PrepareNewCrashReport]
  }

  /** ... then the report id bound to the snapshot and the minidump written from it. */
  function Written(h: CrashReportExceptionHandler, w: World, before: seq<Event>, reportId: Uuid): seq<Event> {
    Prepared(h, w, before)
      + [SetReportID(reportId), WriteMinidump(ClientIDFor(w.settings), reportId, h.processAnnotations)]
  }

  /** ... then the attachment loop and the request to finish the report. */
  function Finished(h: CrashReportExceptionHandler, w: World, before: seq<Event>, reportId: Uuid): seq<Event> {
    Written(h, w, before, reportId) + AttachmentEvents(h.attachments, w) + [FinishedWriting]
  }

  /** The reporting part of a capture, from the trace `before` recorded so far:
      how far it gets and the metric it ends with. */
  function ReportFrom(h: CrashReportExceptionHandler, w: World, before: seq<Event>): ReportRun {
    if w.newReport.None? then
      ReportRun(Prepared(h, w, before), PrepareNewCrashReportFailed)
    else if !w.minidumpWritten then
      ReportRun(Written(h, w, before, w.newReport.value), MinidumpWriteFailed)
    else if w.finishedUuid.None? then
      ReportRun(Finished(h, w, before, w.newReport.value), FinishedWritingCrashReportFailed)
    else if h.hasUploadThread then
      ReportRun(Finished(h, w, before, w.newReport.value) + [ReportPending(w.finishedUuid.value)], Success)
    else
      ReportRun(Finished(h, w, before, w.newReport.value), Success)
  }

  /** A whole call of ExceptionHandlerServerException. */
  function Capture(h: CrashReportExceptionHandler, w: World): (o: Outcome)
    ensures w.snapshot.SnapshotFails? ==> o.code == TerminationCodeSnapshotFailed
    ensures w.snapshot.Captured? ==> o.code == w.snapshot.exceptionCode
  {
    var entered := [ExceptionEncountered, Suspend, TakeSnapshot];
    match w.snapshot
    case SnapshotFails =>
      Outcome(TerminationCodeSnapshotFailed, entered + [CaptureMetric(SnapshotFailed), Resume])
    case Captured(code, behavior) =>
      Outcome(code, CaptureTail(h, w, entered + [ExceptionCode(code)]))
  }

  /** The rest of a capture once the exception code is fixed and recorded in `coded`. */
  function CaptureTail(h: CrashReportExceptionHandler, w: World, coded: seq<Event>): seq<Event>
    requires w.snapshot.Captured?
  {
    var run := if w.snapshot.handlerBehavior == Disabled then ReportRun(coded, Success) else ReportFrom(h, w, coded);
    run.events + [CaptureMetric(run.result), Resume]
  }
}
