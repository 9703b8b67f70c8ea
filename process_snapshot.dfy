/** The part of ProcessSnapshotWin the exception handler uses: the captured
    exception code and client options, and the three fields the handler
    binds after the capture (client id, annotations, report id). */
module ProcessSnapshotWin {
  import opened CrashTypes
  import opened Collaborators

  class ProcessSnapshot {
    var exceptionCode: u32
    var handlerBehavior: TriState
    var clientId: Uuid
    var annotationsSimpleMap: map<string, string>
    var reportId: Uuid

    /** A snapshot that has not been initialised yet. */
    constructor ()
      ensures clientId == ZeroUuid && reportId == ZeroUuid && annotationsSimpleMap == map[]
    {
      exceptionCode := 0;
      handlerBehavior := Unset;
      clientId := ZeroUuid;
      annotationsSimpleMap := map[];
      reportId := ZeroUuid;
    }

    /** Captures the suspended process; `oracle` is what the capture finds. */
    method Initialize(oracle: SnapshotOracle) returns (ok: bool)
      modifies this`exceptionCode, this`handlerBehavior
      ensures ok <==> oracle.Captured?
      ensures ok ==> exceptionCode == oracle.exceptionCode && handlerBehavior == oracle.handlerBehavior
    {
      ok := oracle.Captured?;
      if ok {
        exceptionCode := oracle.exceptionCode;
        handlerBehavior := oracle.handlerBehavior;
      }
    }

    /** The code of the exception that triggered the capture. */
    function Exception(): (code: u32)
      reads this
      ensures code == exceptionCode
    {
      exceptionCode
    }

    /** The `crashpad_handler_behavior` client option. */
    function GetCrashpadOptions(): (behavior: TriState)
      reads this
      ensures behavior == handlerBehavior
    {
      handlerBehavior
    }

    method SetClientID(id: Uuid)
      modifies this`clientId
      ensures clientId == id
    {
      clientId := id;
    }

    method SetAnnotationsSimpleMap(annotations: map<string, string>)
      modifies this`annotationsSimpleMap
      ensures annotationsSimpleMap == annotations
    {
      annotationsSimpleMap := annotations;
    }

    method SetReportID(id: Uuid)
      modifies this`reportId
      ensures reportId == id
    {
      reportId := id;
    }
  }
}
