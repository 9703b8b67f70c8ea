/** The observable side effects of one capture, in the order they happen. */
module Events {
  import opened CrashTypes

  datatype Event =
    | ExceptionEncountered                                  // Metrics::ExceptionEncountered
    | Suspend                                               // ScopedProcessSuspend constructed
    | TakeSnapshot                                          // ProcessSnapshotWin::Initialize
    | ExceptionCode(code: u32)                              // Metrics::ExceptionCode
    | Dialog                                                // ShowReportDialog
    | GetSettings                                           // CrashReportDatabase::GetSettings
    | SetClientID(clientId: Uuid)
    | SetAnnotations(annotations: map<string, string>)     // SetAnnotationsSimpleMap
    | PrepareNewCrashReport
    | SetReportID(reportId: Uuid)
    | WriteMinidump(dumpClientId: Uuid, dumpReportId: Uuid, dumpAnnotations: map<string, string>)
    | OpenAttachment(path: FilePath)                        // FileReader::Open
    | AddAttachment(name: string)                           // NewReport::AddAttachment
    | CopyFileContent(source: FilePath, sink: string)
    | FinishedWriting                                       // FinishedWritingCrashReport
    | ReportPending(uuid: Uuid)                             // CrashReportUploadThread::ReportPending
    | CaptureMetric(result: CaptureResult)                  // Metrics::ExceptionCaptureResult
    | Resume                                                // ScopedProcessSuspend destroyed
  {
    function Kind(): EventKind {
      match this
      case ExceptionEncountered => KEncountered
      case Suspend => KSuspend
      case TakeSnapshot => KSnapshot
      case ExceptionCode(_) => KExceptionCode
      case Dialog => KDialog
      case GetSettings => KGetSettings
      case SetClientID(_) => KSetClientID
      case SetAnnotations(_) => KSetAnnotations
      case PrepareNewCrashReport => KPrepare
      case SetReportID(_) => KSetReportID
      case WriteMinidump(_, _, _) => KWriteMinidump
      case OpenAttachment(_) => KOpen
      case AddAttachment(_) => KAddAttachment
      case CopyFileContent(_, _) => KCopy
      case FinishedWriting => KFinish
      case ReportPending(_) => KReportPending
      case CaptureMetric(_) => KMetric
      case Resume => KResume
    }

    /** An event of the attachment loop. */
    predicate IsAttachmentStep() {
      OpenAttachment? || AddAttachment? || CopyFileContent?
    }
  }

  /** The constructor of an event, without its arguments. */
  datatype EventKind =
    | KEncountered | KSuspend | KSnapshot | KExceptionCode
    | KDialog | KGetSettings | KSetClientID | KSetAnnotations | KPrepare | KSetReportID | KWriteMinidump
    | KOpen | KAddAttachment | KCopy
    | KFinish | KReportPending | KMetric | KResume
  {
    /** A step of the reporting sequence that runs once per capture, if at all. */
    predicate IsReportStage() {
      || KDialog? || KGetSettings? || KSetClientID? || KSetAnnotations? || KPrepare?
      || KSetReportID? || KWriteMinidump? || KFinish? || KReportPending?
    }
  }

  /** The reporting steps in the one order they may happen. */
  const ReportStages: seq<EventKind> :=
    [KDialog, KGetSettings, KSetClientID, KSetAnnotations, KPrepare, KSetReportID, KWriteMinidump, KFinish, KReportPending]

  /** The number of events of kind `k` in `t`. */
  function Count(t: seq<Event>, k: EventKind): (n: nat)
    ensures n <= |t|
    ensures n == 0 <==> forall i :: 0 <= i < |t| ==> t[i].Kind() != k
    decreases |t|
  {
    if t == [] then 0
    else Count(t[..|t| - 1], k) + (if t[|t| - 1].Kind() == k then 1 else 0)
  }

  /** The kinds of the reporting steps in `t`, in order. */
  function Stages(t: seq<Event>): (s: seq<EventKind>)
    ensures |s| <= |t|
    ensures forall i :: 0 <= i < |s| ==> s[i].IsReportStage()
    decreases |t|
  {
    if t == [] then []
    else
      var e := t[|t| - 1];
      Stages(t[..|t| - 1]) + (if e.Kind().IsReportStage() then [e.Kind()] else [])
  }

  lemma {:induction false} CountAppend(a: seq<Event>, b: seq<Event>, k: EventKind)
    ensures Count(a + b, k) == Count(a, k) + Count(b, k)
    decreases |b|
  {
    if b == [] {
      assert a + b == a;
    } else {
      assert (a + b)[..|a + b| - 1] == a + b[..|b| - 1];
      CountAppend(a, b[..|b| - 1], k);
    }
  }

  lemma {:induction false} StagesAppend(a: seq<Event>, b: seq<Event>)
    ensures Stages(a + b) == Stages(a) + Stages(b)
    decreases |b|
  {
    if b == [] {
      assert a + b == a;
    } else {
      assert (a + b)[..|a + b| - 1] == a + b[..|b| - 1];
      StagesAppend(a, b[..|b| - 1]);
    }
  }

  /** A trace with no reporting step projects to no stages. */
  lemma {:induction false} StagesOfNone(t: seq<Event>)
    requires forall i :: 0 <= i < |t| ==> !t[i].Kind().IsReportStage()
    ensures Stages(t) == []
    decreases |t|
  {
    if t != [] {
      StagesOfNone(t[..|t| - 1]);
    }
  }

  /** A trace made only of reporting steps projects to the kinds of its events. */
  lemma {:induction false} StagesOfAll(t: seq<Event>)
    requires forall i :: 0 <= i < |t| ==> t[i].Kind().IsReportStage()
    ensures |Stages(t)| == |t|
    ensures forall i :: 0 <= i < |t| ==> Stages(t)[i] == t[i].Kind()
    decreases |t|
  {
    if t != [] {
      StagesOfAll(t[..|t| - 1]);
    }
  }
}
