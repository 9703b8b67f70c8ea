# Crash capture orchestration of the Windows crash report handler

This project models `CrashReportExceptionHandler::ExceptionHandlerServerException`,
the routine a crash handler process runs when a monitored process raises a fatal
exception, and proves properties of that model in Dafny.

The routine does the following, in order:

- counts the exception;
- suspends the crashed process;
- takes a snapshot of it;
- fixes the termination code from the exception record;
- unless the client's `crashpad_handler_behavior` option is `kDisabled`, it writes a crash report:
  - shows the report dialog;
  - looks up the settings for the client id;
  - binds the client id and the process annotations to the snapshot;
  - prepares a new report in the database;
  - binds the report id to the snapshot;
  - writes the minidump;
  - copies the attachments;
  - finishes the report;
  - tells the upload thread about it.

Every way out records exactly one capture-result metric. The process is resumed when
the function returns.

The model is built from these parts:

- `ExceptionHandler.ExceptionHandlerServerException` is the step-by-step method.
  - The snapshot is a `ProcessSnapshot` object whose client id, annotations and report id are set in place.
  - The attachment loop is the method `CopyAttachments`.
- The collaborators (snapshot capture, settings, report database, minidump writer, file
  reader, attachment sinks) become a `World` value of answers.
- The side effects become a ghost trace of `Event`s: metrics, suspend and resume, every
  collaborator call and its arguments.
- `CaptureSpec.Capture` is the reference definition of one call. It gives the termination
  code and the trace as functions of the handler's configuration and the `World`.
  The method is proved to return exactly that code and that trace.
- `CaptureProperties` and `AttachmentProperties` prove what the routine promises, as lemmas over `Capture`.
  - The termination code is fixed once the snapshot exists.
  - There is one metric, and it names the failing stage.
  - The suspension covers the whole call.
  - A disabled policy writes no report.
  - The reporting steps happen in one fixed order, with the right arguments.
  - The attachment loop follows its rules.

Files:

| file | module | contents |
|---|---|---|
| crash_types.dfy | CrashTypes | `u32`, `Uuid`, `TriState`, `CaptureResult`, the reserved termination code, `BaseName` |
| collaborators.dfy | Collaborators | the answers of the collaborators (`World`) |
| events.dfy | Events | the trace alphabet, `Count` and the projection `Stages` onto the reporting steps |
| process_snapshot.dfy | ProcessSnapshotWin | the `ProcessSnapshot` class |
| capture_spec.dfy | CaptureSpec | the handler configuration and the reference definition `Capture` |
| exception_handler.dfy | ExceptionHandler | the method and its attachment loop |
| attachment_properties.dfy | AttachmentProperties | properties of the attachment loop |
| capture_properties.dfy | CaptureProperties | properties of a whole call |

## Model

| member | source | states |
|---|---|---|
| ExceptionHandler.ExceptionHandlerServerException | handler/win/crash_report_exception_handler.cc:377-485 | returns the reserved snapshot-failed code when the snapshot cannot be taken and the exception's own code otherwise; its trace of side effects is exactly the one `Capture` defines, which the lemmas below characterise |
| ExceptionHandler.CopyAttachments | handler/win/crash_report_exception_handler.cc:448-466 | the loop's events are those of every path in turn (`AttachmentEvents`): the path is opened; a sink named after its base name is requested only if the open succeeded; content is copied only into a sink that was created; a failure skips to the next path |
| ProcessSnapshotWin.ProcessSnapshot.constructor | handler/win/crash_report_exception_handler.cc:385 | a fresh snapshot holds the all-zero client id and report id and no annotations |
| ProcessSnapshotWin.ProcessSnapshot.Initialize | handler/win/crash_report_exception_handler.cc:386-389 | succeeds exactly when the capture succeeds, and then holds the captured exception code and handler-behavior option |
| ProcessSnapshotWin.ProcessSnapshot.SetClientID | handler/win/crash_report_exception_handler.cc:421 | the snapshot's client id becomes the given one and nothing else changes |
| ProcessSnapshotWin.ProcessSnapshot.SetAnnotationsSimpleMap | handler/win/crash_report_exception_handler.cc:422 | the snapshot's annotations become the given map and nothing else changes |
| ProcessSnapshotWin.ProcessSnapshot.SetReportID | handler/win/crash_report_exception_handler.cc:434 | the snapshot's report id becomes the given one and nothing else changes |
| CrashTypes.BaseNameIsSuffix | handler/win/crash_report_exception_handler.cc:456 | the base name is a suffix of the path that starts at the path's beginning or just after a separator |
| CrashTypes.BaseNameHasNoSeparator | handler/win/crash_report_exception_handler.cc:456 | the base name contains no separator, so it is the last path component |
| AttachmentProperties.AttachmentStepCounts | handler/win/crash_report_exception_handler.cc:449-465 | one iteration starts by opening its path and opens it once; it requests one sink exactly when the open succeeded, and copies once exactly when the open succeeded and the sink was created |
| AttachmentProperties.AttachmentStepKinds | handler/win/crash_report_exception_handler.cc:456-465 | one iteration does only attachment work; the sink it requests and the copy it makes are both named after the path's base name |
| AttachmentProperties.AttachmentStepSource | handler/win/crash_report_exception_handler.cc:448-450 | one iteration opens exactly its own path |
| AttachmentProperties.OnlyAttachmentSteps | handler/win/crash_report_exception_handler.cc:448-466 | the loop does nothing but open, sink and copy steps |
| AttachmentProperties.EveryPathTriedInOrder | handler/win/crash_report_exception_handler.cc:448-466 | the files opened are exactly the configured paths, in order and each once: no failure stops the loop |
| AttachmentProperties.AttachmentLoopCounts | handler/win/crash_report_exception_handler.cc:448-466 | N paths give N opens; the sink requests equal the number of paths whose file opened; the copies equal the number of paths that opened and got a sink |
| AttachmentProperties.CopiesNamedAfterSource | handler/win/crash_report_exception_handler.cc:456-465 | every copy reads a configured path and writes the sink named after that path's base name |
| CaptureSpec.Capture | handler/win/crash_report_exception_handler.cc:377-485 | the reference definition of one call; its termination code is the reserved snapshot-failed code when the snapshot cannot be taken and otherwise the exception's own code, whatever the later stages do |
| CaptureSpec.AttachmentEvents | handler/win/crash_report_exception_handler.cc:448-466 | the reference definition of the attachment loop; every path yields at least one call, so the loop is empty exactly when there are no paths |
| CrashTypes.BaseName | handler/win/crash_report_exception_handler.cc:456 | the name given to an attachment sink is no longer than the path and, when not empty, ends with the path's last character |
| ProcessSnapshotWin.ProcessSnapshot.Exception | handler/win/crash_report_exception_handler.cc:396-397 | returns the exception code that `Initialize` captured |
| ProcessSnapshotWin.ProcessSnapshot.GetCrashpadOptions | handler/win/crash_report_exception_handler.cc:405-406 | returns the `crashpad_handler_behavior` option that `Initialize` captured |
| CaptureProperties.CaptureDecomposes | handler/win/crash_report_exception_handler.cc:377-485 | a call is its opening events, the reporting steps up to the minidump, the attachment loop, the remaining reporting steps, then one metric and the resume; each part is given independently by stage outcome |
| CaptureProperties.SnapshotFailureEndsCapture | handler/win/crash_report_exception_handler.cc:385-392 | a failed snapshot returns the reserved snapshot-failed code and records only the SnapshotFailed metric before resuming: no exception code, no dialog, no settings lookup, no report |
| CaptureProperties.TerminationCodeDependsOnlyOnSnapshot | handler/win/crash_report_exception_handler.cc:394-484 | the code returned depends on the snapshot alone; once a snapshot exists it is the exception's code, whatever the dialog, database, minidump writer, attachments or upload thread do |
| CaptureProperties.ExactlyOneCaptureMetric | handler/win/crash_report_exception_handler.cc:385-484 | every call records exactly one capture-result metric, as the last event before the resume, and its value is the first stage that failed (SnapshotFailed, PrepareNewCrashReportFailed, MinidumpWriteFailed, FinishedWritingCrashReportFailed) or Success |
| CaptureProperties.SuspendedForWholeCall | handler/win/crash_report_exception_handler.cc:381-485 | the exception is counted, then the process is suspended, before the snapshot is taken; it is suspended once and resumed exactly once, as the last event of every call |
| CaptureProperties.DisabledPolicySkipsReport | handler/win/crash_report_exception_handler.cc:405-484 | a disabled handler-behavior option gives no dialog, no settings lookup, no report, no attachments and no upload; the metric is Success and the exception code is returned |
| CaptureProperties.ReportStagesInOrder | handler/win/crash_report_exception_handler.cc:407-481 | the reporting steps run as a prefix of dialog, settings lookup, client id, annotations, prepare, report id, minidump, finish, upload notification, with none skipped or reordered; the prefix ends where a stage failed, or where there is no upload thread |
| CaptureProperties.StageCounts | handler/win/crash_report_exception_handler.cc:407-481 | each reporting step happens once if every stage before it succeeded and never otherwise |
| CaptureProperties.ReportPendingOnlyWithUploadThread | handler/win/crash_report_exception_handler.cc:467-480 | the upload thread is told of a report exactly once if the report was finished and there is an upload thread, and never otherwise |
| CaptureProperties.StageArguments | handler/win/crash_report_exception_handler.cc:411-480 | the client id set is the stored one, or all zeros when there are no settings or the lookup fails; the annotations are the process annotations; the report id is the prepared report's; the minidump is written from those three values; the upload thread gets the uuid the finished report was given, and only when it exists |
| CaptureProperties.AttachmentsAfterMinidump | handler/win/crash_report_exception_handler.cc:441-470 | every attachment step comes after exactly the first seven reporting steps: after the minidump was written and before the report is finished |
| CaptureProperties.AttachmentPathsInCapture | handler/win/crash_report_exception_handler.cc:441-466 | the configured paths are all opened, in order, when the minidump was written, and none is opened otherwise |
| CaptureProperties.AttachmentCountsInCapture | handler/win/crash_report_exception_handler.cc:441-466 | within a call, the open, sink and copy counts are those of the attachment loop when the minidump was written, and zero otherwise |

## Left out

- The report dialog (`ShowReportDialog` and its window code, lines 88-375 and 410) is one opaque `Dialog` event.
- Metrics are `ExceptionEncountered`, `ExceptionCode` and `CaptureMetric` trace events. The metrics backend is not modelled.
- `LOG(ERROR)` messages are not modelled.
- The process handle and the two addresses passed to the snapshot are not modelled. Whether the capture succeeds, and what it finds, is the `World`'s snapshot answer.
- Minidump contents are not modelled: `MinidumpFileWriter::InitializeFromSnapshot`, the user extension streams (`AddUserExtensionStreams`, `user_stream_data_sources_`) and `WriteEverything` internals. The write is one success answer. The `WriteMinidump` event records the client id, report id and annotations that the snapshot holds when the write happens.
- `CopyFileContent` moves bytes; the model records only which source goes to which sink.
- `base::WideToUTF8` on the attachment name is not modelled; names are kept as strings.
- CrashTypes.BaseName: takes the text after the last `\` or `/`. It does not model `base::FilePath::BaseName`'s handling of drive letters or trailing separators.
- Database results are simplified. `PrepareNewCrashReport` and `FinishedWritingCrashReport` statuses become a report id or uuid, or a failure. `GetSettings` and `GetClientID` become no settings, an unreadable id, or a stored id.
- Abandoning the unfinished report when an early return destroys `new_report` is the database's job and is not modelled.
- The upload thread's work after `ReportPending` is not modelled, and neither is the concurrency between the handler and that thread.
- The attachment answers are indexed by the path's position in the list. The same path listed twice may therefore get different answers, as files on disk may.
- The constructor, destructor and `ExceptionHandlerServerStarted` (lines 36-50) only store or do nothing. The handler's configuration is the `CrashReportExceptionHandler` value: the upload thread's presence, the annotations and the attachment list.
- The value `0xffff7002` of `kTerminationCodeSnapshotFailed` comes from `util/win/termination_codes.h`, which is not part of this model.
- The dialog's result `rdata` is never used (line 410), and the model drops it.
- Reporting is skipped only when `crashpad_handler_behavior` is exactly `kDisabled` (line 407), so an unset option reports.
- The settings lookup is one `GetSettings` event. The `GetClientID` call made when settings exist (line 418) is not a separate event; its answer is part of the `World`'s settings answer, and the client id it yields is recorded by `SetClientID`.
