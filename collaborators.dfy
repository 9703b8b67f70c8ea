/** The collaborators of the exception handler, reduced to the answers they
    give the orchestration: the snapshot of the crashed process, the
    database's settings and report staging, the minidump writer, the
    attachment file reader and the attachment sinks. */
module Collaborators {
  import opened CrashTypes

  /** What ProcessSnapshotWin::Initialize and GetCrashpadOptions yield. */
  datatype SnapshotOracle =
    | SnapshotFails
    | Captured(exceptionCode: u32, handlerBehavior: TriState)

  /** What CrashReportDatabase::GetSettings and Settings::GetClientID yield:
      no settings object, a settings object whose lookup fails, or a stored id. */
  datatype SettingsOracle =
    | NoSettings
    | ClientIDUnreadable
    | StoredClientID(id: Uuid)

  /** The answers of every collaborator during one capture. The attachment
      answers are indexed by the position of the attachment in the list. */
  datatype World = World(
    snapshot: SnapshotOracle,
    settings: SettingsOracle,
    // PrepareNewCrashReport: the new report's id, or None on a status other than kNoError
    newReport: Option<Uuid>,
    // MinidumpFileWriter::WriteEverything
    minidumpWritten: bool,
    // FileReader::Open for the i-th attachment path
    attachmentOpens: nat -> bool,
    // NewReport::AddAttachment for the i-th attachment returns a non-null writer
    attachmentSinkCreated: nat -> bool,
    // FinishedWritingCrashReport: the finished report's uuid, or None on failure
    finishedUuid: Option<Uuid>)
}
