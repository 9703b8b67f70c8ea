/** What one call of ExceptionHandlerServerException promises, stated over
    the reference definition `Capture` (which the method is proved equal to). */
module CaptureProperties {
  import opened CrashTypes
  import opened Collaborators
  import opened Events
  import opened CaptureSpec
  import opened AttachmentProperties

  /** The metric a call must record: the first stage that failed, or success
      (also when the policy switches reporting off). */
  function ExpectedCaptureResult(w: World): CaptureResult {
    match w.snapshot
    case SnapshotFails => SnapshotFailed
    case Captured(_, behavior) =>
      if behavior == Disabled then Success
      else if w.newReport.None? then PrepareNewCrashReportFailed
      else if !w.minidumpWritten then MinidumpWriteFailed
      else if w.finishedUuid.None? then FinishedWritingCrashReportFailed
      else Success
  }

  /** A snapshot was taken and its policy does not switch reporting off. */
  predicate Reporting(w: World) {
    w.snapshot.Captured? && w.snapshot.handlerBehavior != Disabled
  }

  /** A minidump was written, so the attachment loop runs. */
  predicate ReachesAttachments(w: World) {
    Reporting(w) && w.newReport.Some? && w.minidumpWritten
  }

  /** How many of the eight reporting steps (ReportStages) a call performs. */
  function StagesReached(h: CrashReportExceptionHandler, w: World): nat {
    if !Reporting(w) then 0
    else if w.newReport.None? then 5
    else if !w.minidumpWritten then 7
    else if w.finishedUuid.None? || !h.hasUploadThread then 8
    else 9
  }

  /** The values an event hands to a collaborator are the ones the capture
      obtained: the client id, the process annotations, the new report's id,
      and the uuid the finished report was given. */
  predicate CarriesCaptureValues(h: CrashReportExceptionHandler, w: World, e: Event) {
    && (e.SetClientID? ==> e.clientId == ClientIDFor(w.settings))
    && (e.SetAnnotations? ==> e.annotations == h.processAnnotations)
    && (e.SetReportID? ==> w.newReport == Some(e.reportId))
    && (e.WriteMinidump? ==>
          && e.dumpClientId == ClientIDFor(w.settings)
          && w.newReport == Some(e.dumpReportId)
          && e.dumpAnnotations == h.processAnnotations)
    && (e.ReportPending? ==> h.hasUploadThread && w.finishedUuid == Some(e.uuid))
  }

  // ---------------------------------------------------------------------
  // A call in five parts

  /** The events before any reporting step. */
  function Head(w: World): seq<Event> {
    match w.snapshot
    case SnapshotFails => [ExceptionEncountered, Suspend, TakeSnapshot]
    case Captured(code, _) => [ExceptionEncountered, Suspend, TakeSnapshot, ExceptionCode(code)]
  }

  /** The reporting steps up to the minidump, as far as they get. */
  function Preparation(h: CrashReportExceptionHandler, w: World): seq<Event> {
    if !Reporting(w) then []
    else if w.newReport.None? then
      [Dialog, GetSettings, SetClientID(ClientIDFor(w.settings)), SetAnnotations(h.processAnnotations),
       PrepareNewCrashReport]
    else
      [Dialog, GetSettings, SetClientID(ClientIDFor(w.settings)), SetAnnotations(h.processAnnotations),
       PrepareNewCrashReport,
       SetReportID(w.newReport.value), WriteMinidump(ClientIDFor(w.settings), w.newReport.value, h.processAnnotations)]
  }

  /** The attachment loop, when a minidump was written. */
  function Loop(h: CrashReportExceptionHandler, w: World): seq<Event> {
    if ReachesAttachments(w) then AttachmentEvents(h.attachments, w) else []
  }

  /** The reporting steps after the attachment loop. */
  function Completion(h: CrashReportExceptionHandler, w: World): seq<Event> {
    if !ReachesAttachments(w) then []
    else if w.finishedUuid.Some? && h.hasUploadThread then [FinishedWriting, ReportPending(w.finishedUuid.value)]
    else [FinishedWriting]
  }

  /** The one metric and the resume that end every call. */
  function Stop(w: World): seq<Event> {
    [CaptureMetric(ExpectedCaptureResult(w)), Resume]
  }

  /** Every call is its opening events, the reporting steps up to the
      minidump, the attachment loop, the remaining reporting steps, and the
      one metric followed by the resume. */
  lemma CaptureDecomposes(h: CrashReportExceptionHandler, w: World)
    ensures Capture(h, w).trace == Head(w) + Preparation(h, w) + Loop(h, w) + Completion(h, w) + Stop(w)
  {
    if Reporting(w) {
      var coded := [ExceptionEncountered, Suspend, TakeSnapshot] + [ExceptionCode(w.snapshot.exceptionCode)];
      assert coded == Head(w);
      assert Prepared(h, w, coded) == Head(w) + Preparation(h, w)[..5];
      if w.newReport.Some? {
        var r := w.newReport.value;
        assert Written(h, w, coded, r) == Head(w) + Preparation(h, w);
        if w.minidumpWritten {
          assert Finished(h, w, coded, r) == Head(w) + Preparation(h, w) + Loop(h, w) + [FinishedWriting];
        }
      }
    }
  }

  lemma CountParts(a: seq<Event>, b: seq<Event>, c: seq<Event>, d: seq<Event>, e: seq<Event>, k: EventKind)
    ensures Count(a + b + c + d + e, k) == Count(a, k) + Count(b, k) + Count(c, k) + Count(d, k) + Count(e, k)
  {
    CountAppend(a, b, k);
    CountAppend(a + b, c, k);
    CountAppend(a + b + c, d, k);
    CountAppend(a + b + c + d, e, k);
  }

  lemma StagesParts(a: seq<Event>, b: seq<Event>, c: seq<Event>, d: seq<Event>, e: seq<Event>)
    ensures Stages(a + b + c + d + e) == Stages(a) + Stages(b) + Stages(c) + Stages(d) + Stages(e)
  {
    StagesAppend(a, b);
    StagesAppend(a + b, c);
    StagesAppend(a + b + c, d);
    StagesAppend(a + b + c + d, e);
  }

  lemma OpenedSourcesParts(a: seq<Event>, b: seq<Event>, c: seq<Event>, d: seq<Event>, e: seq<Event>)
    ensures OpenedSources(a + b + c + d + e)
         == OpenedSources(a) + OpenedSources(b) + OpenedSources(c) + OpenedSources(d) + OpenedSources(e)
  {
    OpenedSourcesAppend(a, b);
    OpenedSourcesAppend(a + b, c);
    OpenedSourcesAppend(a + b + c, d);
    OpenedSourcesAppend(a + b + c + d, e);
  }

  /** A trace of reporting and attachment steps holds no event of any other kind. */
  lemma CountOutsideWork(t: seq<Event>, k: EventKind)
    requires forall i :: 0 <= i < |t| ==> t[i].Kind().IsReportStage() || t[i].IsAttachmentStep()
    requires !k.IsReportStage() && k != KOpen && k != KAddAttachment && k != KCopy
    ensures Count(t, k) == 0
  {
  }

  /** The preparation and completion steps are all reporting steps. */
  lemma StagesOnly(h: CrashReportExceptionHandler, w: World)
    ensures forall i :: 0 <= i < |Preparation(h, w)| ==> Preparation(h, w)[i].Kind().IsReportStage()
    ensures forall i :: 0 <= i < |Completion(h, w)| ==> Completion(h, w)[i].Kind().IsReportStage()
  {
  }

  /** The opening suspends the process once and neither records a metric nor resumes. */
  lemma HeadBookkeeping(w: World, k: EventKind)
    requires k == KSuspend || k == KMetric || k == KResume
    ensures Count(Head(w), k) == (if k == KSuspend then 1 else 0)
  {
    var entered := [ExceptionEncountered, Suspend, TakeSnapshot];
    assert entered[..2] == [ExceptionEncountered, Suspend];
    assert entered[..2][..1] == [ExceptionEncountered];
    assert [ExceptionEncountered][..0] == [];
    if w.snapshot.Captured? {
      assert Head(w)[..3] == entered;
    }
  }

  /** The closing records one metric and resumes once. */
  lemma StopBookkeeping(w: World, k: EventKind)
    requires k == KSuspend || k == KMetric || k == KResume
    ensures Count(Stop(w), k) == (if k == KSuspend then 0 else 1)
  {
    assert Stop(w)[..1] == [CaptureMetric(ExpectedCaptureResult(w))];
    assert [CaptureMetric(ExpectedCaptureResult(w))][..0] == [];
  }

  /** The reporting steps and the loop neither suspend, record a metric nor resume. */
  lemma WorkBookkeeping(h: CrashReportExceptionHandler, w: World, k: EventKind)
    requires k == KSuspend || k == KMetric || k == KResume
    ensures Count(Preparation(h, w), k) == 0
    ensures Count(Loop(h, w), k) == 0
    ensures Count(Completion(h, w), k) == 0
  {
    StagesOnly(h, w);
    CountOutsideWork(Preparation(h, w), k);
    CountOutsideWork(Completion(h, w), k);
    OnlyAttachmentSteps(h.attachments, w);
    CountOutsideWork(Loop(h, w), k);
  }

  /** Only the opening suspends the process, and only the closing records
      a metric and resumes. */
  lemma Bookkeeping(h: CrashReportExceptionHandler, w: World, k: EventKind)
    requires k == KSuspend || k == KMetric || k == KResume
    ensures Count(Head(w), k) == (if k == KSuspend then 1 else 0)
    ensures Count(Preparation(h, w), k) == 0
    ensures Count(Loop(h, w), k) == 0
    ensures Count(Completion(h, w), k) == 0
    ensures Count(Stop(w), k) == (if k == KSuspend then 0 else 1)
  {
    HeadBookkeeping(w, k);
    WorkBookkeeping(h, w, k);
    StopBookkeeping(w, k);
  }

  lemma StagesOfPreparation(h: CrashReportExceptionHandler, w: World)
    ensures Stages(Preparation(h, w)) == ReportStages[..if StagesReached(h, w) < 7 then StagesReached(h, w) else 7]
  {
    StagesOnly(h, w);
    StagesOfAll(Preparation(h, w));
  }

  lemma StagesOfCompletion(h: CrashReportExceptionHandler, w: World)
    ensures Stages(Completion(h, w)) == ReportStages[7..if StagesReached(h, w) < 7 then 7 else StagesReached(h, w)]
  {
    StagesOnly(h, w);
    StagesOfAll(Completion(h, w));
  }

  /** The opening, the loop and the closing hold no reporting step. */
  lemma NoStagesOutsideReport(h: CrashReportExceptionHandler, w: World)
    ensures Stages(Head(w)) == []
    ensures Stages(Loop(h, w)) == []
    ensures Stages(Stop(w)) == []
  {
    assert Stages(Head(w)) == [] by { StagesOfNone(Head(w)); }
    assert Stages(Stop(w)) == [] by { StagesOfNone(Stop(w)); }
    assert Stages(Loop(h, w)) == [] by {
      OnlyAttachmentSteps(h.attachments, w);
      StagesOfNone(Loop(h, w));
    }
  }

  /** The stage events of `t` are the stages, with their multiplicities. */
  lemma {:induction false} CountOfStage(t: seq<Event>, k: EventKind)
    requires k.IsReportStage()
    ensures Count(t, k) == multiset(Stages(t))[k]
    decreases |t|
  {
    if t != [] {
      CountOfStage(t[..|t| - 1], k);
    }
  }

  /** In a sequence without repetitions every element occurs once. */
  lemma {:induction false} OccurrencesInDistinct(s: seq<EventKind>, k: EventKind)
    requires forall i, j :: 0 <= i < j < |s| ==> s[i] != s[j]
    ensures multiset(s)[k] == (if k in s then 1 else 0)
    decreases |s|
  {
    if s != [] {
      var init := s[..|s| - 1];
      OccurrencesInDistinct(init, k);
      assert s == init + [s[|s| - 1]];
      assert k == s[|s| - 1] ==> k !in init;
    }
  }

  // ---------------------------------------------------------------------
  // The termination code

  /** A failed snapshot ends the call at once: no exception code, no report,
      only the SnapshotFailed metric, and the reserved termination code. */
  lemma SnapshotFailureEndsCapture(h: CrashReportExceptionHandler, w: World)
    requires w.snapshot.SnapshotFails?
    ensures Capture(h, w).code == TerminationCodeSnapshotFailed
    ensures Capture(h, w).trace == [ExceptionEncountered, Suspend, TakeSnapshot, CaptureMetric(SnapshotFailed), Resume]
  {
  }

  /** Once a snapshot exists the call returns the exception's own code,
      whatever happens to the report: the code depends on the snapshot alone. */
  lemma TerminationCodeDependsOnlyOnSnapshot(h1: CrashReportExceptionHandler, w1: World,
                                             h2: CrashReportExceptionHandler, w2: World)
    requires w1.snapshot == w2.snapshot
    ensures Capture(h1, w1).code == Capture(h2, w2).code
    ensures w1.snapshot.Captured? ==> Capture(h1, w1).code == w1.snapshot.exceptionCode
  {
  }

  // ---------------------------------------------------------------------
  // Metrics, suspension, policy

  /** Every call records exactly one capture-result metric, right before
      the process is resumed, and it names the first stage that failed. */
  lemma ExactlyOneCaptureMetric(h: CrashReportExceptionHandler, w: World)
    ensures var t := Capture(h, w).trace;
      |t| >= 2 && Count(t, KMetric) == 1 && t[|t| - 2] == CaptureMetric(ExpectedCaptureResult(w))
  {
    CaptureDecomposes(h, w);
    CountParts(Head(w), Preparation(h, w), Loop(h, w), Completion(h, w), Stop(w), KMetric);
    Bookkeeping(h, w, KMetric);
  }

  /** The process is suspended before the snapshot is taken and resumed
      exactly once, as the very last thing the call does. */
  lemma SuspendedForWholeCall(h: CrashReportExceptionHandler, w: World)
    ensures var t := Capture(h, w).trace;
      && |t| >= 3 && t[0] == ExceptionEncountered && t[1] == Suspend && t[2] == TakeSnapshot
      && t[|t| - 1] == Resume
      && Count(t, KSuspend) == 1 && Count(t, KResume) == 1
  {
    CaptureDecomposes(h, w);
    assert Count(Capture(h, w).trace, KSuspend) == 1 by {
      CountParts(Head(w), Preparation(h, w), Loop(h, w), Completion(h, w), Stop(w), KSuspend);
      Bookkeeping(h, w, KSuspend);
    }
    assert Count(Capture(h, w).trace, KResume) == 1 by {
      CountParts(Head(w), Preparation(h, w), Loop(h, w), Completion(h, w), Stop(w), KResume);
      Bookkeeping(h, w, KResume);
    }
  }

  /** A disabled crashpad_handler_behavior option: no dialog, no report and
      no upload; the metric is Success and the exception code is returned. */
  lemma DisabledPolicySkipsReport(h: CrashReportExceptionHandler, w: World)
    requires w.snapshot.Captured? && w.snapshot.handlerBehavior == Disabled
    ensures Capture(h, w).code == w.snapshot.exceptionCode
    ensures Capture(h, w).trace == [ExceptionEncountered, Suspend, TakeSnapshot,
                                    ExceptionCode(w.snapshot.exceptionCode), CaptureMetric(Success), Resume]
  {
  }

  // ---------------------------------------------------------------------
  // The reporting steps

  /** The reporting steps happen in their one fixed order, none skipped:
      a call performs a prefix of ReportStages, as long as the stages so
      far succeeded. In particular the client id and the annotations are
      set before the report is prepared, and ReportPending comes last. */
  lemma ReportStagesInOrder(h: CrashReportExceptionHandler, w: World)
    ensures Stages(Capture(h, w).trace) == ReportStages[..StagesReached(h, w)]
  {
    CaptureDecomposes(h, w);
    StagesParts(Head(w), Preparation(h, w), Loop(h, w), Completion(h, w), Stop(w));
    NoStagesOutsideReport(h, w);
    StagesOfPreparation(h, w);
    StagesOfCompletion(h, w);
  }

  /** Each reporting step happens at most once, and exactly when the stages
      before it succeeded. */
  lemma StageCounts(h: CrashReportExceptionHandler, w: World, k: EventKind)
    requires k.IsReportStage()
    ensures Count(Capture(h, w).trace, k) == (if k in ReportStages[..StagesReached(h, w)] then 1 else 0)
  {
    var t := Capture(h, w).trace;
    var prefix := ReportStages[..StagesReached(h, w)];
    ReportStagesInOrder(h, w);
    CountOfStage(t, k);
    ReportStagesDistinct();
    assert forall i :: 0 <= i < |prefix| ==> prefix[i] == ReportStages[i];
    OccurrencesInDistinct(prefix, k);
  }

  /** No reporting step is listed twice. */
  lemma ReportStagesDistinct()
    ensures forall i, j :: 0 <= i < j < |ReportStages| ==> ReportStages[i] != ReportStages[j]
  {
  }

  /** ReportPending is the last of the reporting steps. */
  lemma ReportPendingIsLast(n: nat)
    requires n <= |ReportStages|
    ensures KReportPending in ReportStages[..n] <==> n == |ReportStages|
  {
    var first8 := [KDialog, KGetSettings, KSetClientID, KSetAnnotations, KPrepare, KSetReportID, KWriteMinidump, KFinish];
    if n < |ReportStages| {
      assert ReportStages[..n] == first8[..n];
      assert KReportPending !in first8;
    } else {
      assert ReportStages[..n][8] == KReportPending;
    }
  }

  /** A finished report is announced to the upload thread exactly once when
      there is one, and never otherwise. */
  lemma ReportPendingOnlyWithUploadThread(h: CrashReportExceptionHandler, w: World)
    ensures Count(Capture(h, w).trace, KReportPending)
         == if Reporting(w) && w.newReport.Some? && w.minidumpWritten && w.finishedUuid.Some? && h.hasUploadThread
            then 1 else 0
  {
    StageCounts(h, w, KReportPending);
    ReportPendingIsLast(StagesReached(h, w));
  }

  /** Each part of a call hands on only the values the capture obtained. */
  lemma PartValues(h: CrashReportExceptionHandler, w: World)
    ensures forall e :: e in Head(w) ==> CarriesCaptureValues(h, w, e)
    ensures forall e :: e in Preparation(h, w) ==> CarriesCaptureValues(h, w, e)
    ensures forall e :: e in Loop(h, w) ==> CarriesCaptureValues(h, w, e)
    ensures forall e :: e in Completion(h, w) ==> CarriesCaptureValues(h, w, e)
    ensures forall e :: e in Stop(w) ==> CarriesCaptureValues(h, w, e)
  {
    OnlyAttachmentSteps(h.attachments, w);
  }

  /** Every value handed to a collaborator is the one the capture obtained:
      a client id that defaults to zero, the process annotations, the new
      report's id, and the uuid the finished report was given. */
  lemma StageArguments(h: CrashReportExceptionHandler, w: World)
    ensures forall e :: e in Capture(h, w).trace ==> CarriesCaptureValues(h, w, e)
  {
    CaptureDecomposes(h, w);
    PartValues(h, w);
  }

  // ---------------------------------------------------------------------
  // The attachment loop inside a call

  /** Outside the loop a call does no attachment work. */
  lemma NoAttachmentWorkOutsideLoop(h: CrashReportExceptionHandler, w: World)
    ensures forall i :: 0 <= i < |Head(w)| ==> !Head(w)[i].IsAttachmentStep()
    ensures forall i :: 0 <= i < |Preparation(h, w)| ==> !Preparation(h, w)[i].IsAttachmentStep()
    ensures forall i :: 0 <= i < |Completion(h, w)| ==> !Completion(h, w)[i].IsAttachmentStep()
    ensures forall i :: 0 <= i < |Stop(w)| ==> !Stop(w)[i].IsAttachmentStep()
  {
  }

  /** In a trace whose attachment steps all lie in its middle part, each of
      them comes after the reporting steps of the first part. */
  lemma StagesBeforeMiddle(before: seq<Event>, loop: seq<Event>, after: seq<Event>)
    requires forall i :: 0 <= i < |before| ==> !before[i].IsAttachmentStep()
    requires forall i :: 0 <= i < |loop| ==> loop[i].IsAttachmentStep()
    requires forall i :: 0 <= i < |after| ==> !after[i].IsAttachmentStep()
    ensures forall j :: 0 <= j < |before + loop + after| && (before + loop + after)[j].IsAttachmentStep() ==>
      |before| <= j < |before| + |loop| && Stages((before + loop + after)[..j]) == Stages(before)
  {
    var t := before + loop + after;
    forall j | |before| <= j < |before| + |loop|
      ensures Stages(t[..j]) == Stages(before)
    {
      var part := loop[..j - |before|];
      assert t[..j] == before + part;
      StagesOfNone(part);
      StagesAppend(before, part);
    }
  }

  /** Attachments are written only after the minidump and before the report
      is finished: every attachment step comes after exactly the first seven
      reporting steps. */
  lemma AttachmentsAfterMinidump(h: CrashReportExceptionHandler, w: World)
    ensures var t := Capture(h, w).trace;
      forall j :: 0 <= j < |t| && t[j].IsAttachmentStep() ==> Stages(t[..j]) == ReportStages[..7]
  {
    var before, loop, after := Head(w) + Preparation(h, w), Loop(h, w), Completion(h, w) + Stop(w);
    assert Capture(h, w).trace == before + loop + after by { CaptureDecomposes(h, w); }
    assert forall i :: 0 <= i < |before| ==> !before[i].IsAttachmentStep() by { NoAttachmentWorkOutsideLoop(h, w); }
    assert forall i :: 0 <= i < |after| ==> !after[i].IsAttachmentStep() by { NoAttachmentWorkOutsideLoop(h, w); }
    assert forall i :: 0 <= i < |loop| ==> loop[i].IsAttachmentStep() by { OnlyAttachmentSteps(h.attachments, w); }
    StagesBeforeMiddle(before, loop, after);
    if ReachesAttachments(w) {
      assert Stages(before) == ReportStages[..7] by {
        NoStagesOutsideReport(h, w);
        StagesOfPreparation(h, w);
        StagesAppend(Head(w), Preparation(h, w));
      }
    } else {
      assert loop == [];
    }
  }

  /** Every configured path is opened, in order, when a minidump was
      written; none is opened otherwise. */
  lemma AttachmentPathsInCapture(h: CrashReportExceptionHandler, w: World)
    ensures OpenedSources(Capture(h, w).trace) == (if ReachesAttachments(w) then h.attachments else [])
  {
    var hd, prep, loop, done, stop := Head(w), Preparation(h, w), Loop(h, w), Completion(h, w), Stop(w);
    CaptureDecomposes(h, w);
    NoAttachmentWorkOutsideLoop(h, w);
    OpenedSourcesParts(hd, prep, loop, done, stop);
    NoAttachmentOpened(hd);
    NoAttachmentOpened(prep);
    NoAttachmentOpened(done);
    NoAttachmentOpened(stop);
    EveryPathTriedInOrder(h.attachments, w);
  }

  lemma CountWithoutAttachmentWork(t: seq<Event>, k: EventKind)
    requires forall i :: 0 <= i < |t| ==> !t[i].IsAttachmentStep()
    requires k == KOpen || k == KAddAttachment || k == KCopy
    ensures Count(t, k) == 0
  {
  }

  /** Outside the loop there is no attachment event of any kind. */
  lemma AttachmentKindsOutsideLoop(h: CrashReportExceptionHandler, w: World, k: EventKind)
    requires k == KOpen || k == KAddAttachment || k == KCopy
    ensures Count(Head(w), k) == 0 && Count(Preparation(h, w), k) == 0
    ensures Count(Completion(h, w), k) == 0 && Count(Stop(w), k) == 0
  {
    NoAttachmentWorkOutsideLoop(h, w);
    CountWithoutAttachmentWork(Head(w), k);
    CountWithoutAttachmentWork(Preparation(h, w), k);
    CountWithoutAttachmentWork(Completion(h, w), k);
    CountWithoutAttachmentWork(Stop(w), k);
  }

  /** Within a call, all attachment work is the loop's. */
  lemma AttachmentCountIsLoops(h: CrashReportExceptionHandler, w: World, k: EventKind)
    requires k == KOpen || k == KAddAttachment || k == KCopy
    ensures Count(Capture(h, w).trace, k) == Count(Loop(h, w), k)
  {
    CaptureDecomposes(h, w);
    CountParts(Head(w), Preparation(h, w), Loop(h, w), Completion(h, w), Stop(w), k);
    AttachmentKindsOutsideLoop(h, w, k);
  }

  /** Within a call the attachment loop's counts hold when a minidump was
      written, and there is no attachment work otherwise. */
  lemma AttachmentCountsInCapture(h: CrashReportExceptionHandler, w: World)
    ensures var t := Capture(h, w).trace;
      && Count(t, KOpen) == (if ReachesAttachments(w) then |h.attachments| else 0)
      && Count(t, KAddAttachment) == (if ReachesAttachments(w) then |OpenedIndices(|h.attachments|, w)| else 0)
      && Count(t, KCopy) == (if ReachesAttachments(w) then |CopiedIndices(|h.attachments|, w)| else 0)
  {
    AttachmentLoopCounts(h.attachments, w);
    AttachmentCountIsLoops(h, w, KOpen);
    AttachmentCountIsLoops(h, w, KAddAttachment);
    AttachmentCountIsLoops(h, w, KCopy);
  }
}
