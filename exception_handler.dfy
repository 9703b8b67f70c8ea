/** CrashReportExceptionHandler::ExceptionHandlerServerException: the
    orchestration of one crash capture, step by step. */
module ExceptionHandler {
  import opened CrashTypes
  import opened Collaborators
  import opened Events
  import opened CaptureSpec
  import opened ProcessSnapshotWin

  /** Handles one exception of a monitored process. `world` supplies the
      collaborators' answers; `trace` records the side effects in order.
      The process is suspended on entry and resumed on every return. */
  method ExceptionHandlerServerException(handler: CrashReportExceptionHandler, world: World)
    returns (terminationCode: u32, ghost trace: seq<Event>)
    ensures world.snapshot.SnapshotFails? ==> terminationCode == TerminationCodeSnapshotFailed
    ensures world.snapshot.Captured? ==> terminationCode == world.snapshot.exceptionCode
    ensures terminationCode == Capture(handler, world).code
    ensures trace == Capture(handler, world).trace
  {
    trace := [ExceptionEncountered];

    // ScopedProcessSuspend: released when this scope is left, on every return below.
    trace := trace + [Suspend];

    var processSnapshot := new ProcessSnapshot();
    trace := trace + [TakeSnapshot];
    assert trace == [ExceptionEncountered, Suspend, TakeSnapshot];
    var initialized := processSnapshot.Initialize(world.snapshot);
    if !initialized {
      trace := trace + [CaptureMetric(SnapshotFailed)];
      terminationCode := TerminationCodeSnapshotFailed;
      trace := trace + [Resume];
      return;
    }

    // From here on every return yields the exception's own code.
    terminationCode := processSnapshot.Exception();
    trace := trace + [ExceptionCode(terminationCode)];
    ghost var entry := trace;

    var clientOptions := processSnapshot.GetCrashpadOptions();
    if clientOptions != Disabled {
      trace := trace + [Dialog];

      var clientId := ZeroUuid;
      trace := trace + [GetSettings];
      if !world.settings.NoSettings? {
        // A failed lookup leaves the all-zero default in place.
        if world.settings.StoredClientID? {
          clientId := world.settings.id;
        }
      }

      processSnapshot.SetClientID(clientId);
      trace := trace + [SetClientID(clientId)];
      processSnapshot.SetAnnotationsSimpleMap(handler.processAnnotations);
      trace := trace + [SetAnnotations(handler.processAnnotations)];

      trace := trace + [PrepareNewCrashReport];
      assert trace == Prepared(handler, world, entry);
      var newReport := world.newReport;
      if newReport.None? {
        assert ReportFrom(handler, world, entry) == ReportRun(trace, PrepareNewCrashReportFailed);
        trace := trace + [CaptureMetric(PrepareNewCrashReportFailed), Resume];
        return;
      }

      processSnapshot.SetReportID(newReport.value);
      trace := trace + [SetReportID(newReport.value)];

      trace := trace + [WriteMinidump(processSnapshot.clientId, processSnapshot.reportId,
                                      processSnapshot.annotationsSimpleMap)];
      assert trace == Written(handler, world, entry, newReport.value);
      if !world.minidumpWritten {
        assert ReportFrom(handler, world, entry) == ReportRun(trace, MinidumpWriteFailed);
        trace := trace + [CaptureMetric(MinidumpWriteFailed), Resume];
        return;
      }

      ghost var attachmentEvents := CopyAttachments(handler.attachments, world);
      trace := trace + attachmentEvents;

      trace := trace + [FinishedWriting];
      assert trace == Finished(handler, world, entry, newReport.value);
      var finishedUuid := world.finishedUuid;
      if finishedUuid.None? {
        assert ReportFrom(handler, world, entry) == ReportRun(trace, FinishedWritingCrashReportFailed);
        trace := trace + [CaptureMetric(FinishedWritingCrashReportFailed), Resume];
        return;
      }

      if handler.hasUploadThread {
        trace := trace + [ReportPending(finishedUuid.value)];
      }
      assert ReportFrom(handler, world, entry) == ReportRun(trace, Success);
    }

    trace := trace + [CaptureMetric(Success), Resume];
  }

  /** The attachment loop: every path is tried in turn; one that cannot be
      opened, or whose sink cannot be created, is skipped. `events` records
      the file-reader, sink and copy calls in order. */
  method CopyAttachments(attachments: seq<FilePath>, world: World) returns (ghost events: seq<Event>)
    ensures events == AttachmentEvents(attachments, world)
  {
    events := [];
    for i := 0 to |attachments|
      invariant events == AttachmentEvents(attachments[..i], world)
    {
      var attachment := attachments[i];
      assert attachments[..i + 1][..i] == attachments[..i];
      events := events + [OpenAttachment(attachment)];
      var readerOpen := world.attachmentOpens(i);
      if !readerOpen {
        continue;
      }

      var filename := BaseName(attachment);
      events := events + [AddAttachment(filename)];
      var sinkCreated := world.attachmentSinkCreated(i);
      if !sinkCreated {
        continue;
      }

      events := events + [CopyFileContent(attachment, filename)];
    }
    assert attachments[..|attachments|] == attachments;
  }
}
