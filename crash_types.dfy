/** Value types shared by the crash-capture model: termination codes, UUIDs,
    the tri-state handler behaviour option, the capture-result metric and
    attachment file paths. */
module CrashTypes {

  /** The Windows `unsigned int` returned as the process termination code. */
  newtype u32 = x: int | 0 <= x < 0x1_0000_0000

  datatype Option<T> = None | Some(value: T)

  /** A 16-byte UUID (client id, report id, finished-report uuid). */
  type Uuid = s: seq<bv8> | |s| == 16 witness [0, 0, 0, 0, 0, 0, 0, 0, 0, 0, 0, 0, 0, 0, 0, 0]

  /** The value a default-constructed UUID holds. */
  const ZeroUuid: Uuid := [0, 0, 0, 0, 0, 0, 0, 0, 0, 0, 0, 0, 0, 0, 0, 0]

  /** The reserved termination code used when no snapshot could be taken
      (kTerminationCodeSnapshotFailed). */
  const TerminationCodeSnapshotFailed: u32 := 0xffff7002

  /** The client option `crashpad_handler_behavior`. */
  datatype TriState = Unset | Enabled | Disabled

  /** The outcomes recorded through Metrics::ExceptionCaptureResult by this handler. */
  datatype CaptureResult =
    | Success
    | SnapshotFailed
    | PrepareNewCrashReportFailed
    | MinidumpWriteFailed
    | FinishedWritingCrashReportFailed

  type FilePath = string

  predicate IsSeparator(c: char) {
    c == '\\' || c == '/'
  }

  /** The last component of a path: the text after its last separator. */
  function BaseName(path: FilePath): (name: string)
    ensures |name| <= |path|
    ensures name != [] ==> name[|name| - 1] == path[|path| - 1]
    decreases |path|
  {
    if path == [] || IsSeparator(path[|path| - 1]) then []
    else BaseName(path[..|path| - 1]) + [path[|path| - 1]]
  }

  /** BaseName is a suffix of the path, and one that runs up to a separator
      or to the start of the path. */
  lemma {:induction false} BaseNameIsSuffix(path: FilePath)
    ensures |BaseName(path)| <= |path|
    ensures BaseName(path) == path[|path| - |BaseName(path)|..]
    ensures |BaseName(path)| < |path| ==> IsSeparator(path[|path| - |BaseName(path)| - 1])
    decreases |path|
  {
    if path != [] && !IsSeparator(path[|path| - 1]) {
      var init, last := path[..|path| - 1], path[|path| - 1];
      BaseNameIsSuffix(init);
      var rest := BaseName(init);
      assert BaseName(path) == rest + [last];
      assert init[|init| - |rest|..] + [last] == path[|path| - |rest| - 1..];
      if |rest| < |init| {
        assert path[|path| - |rest| - 2] == init[|init| - |rest| - 1];
      }
    }
  }

  /** BaseName holds no separator. */
  lemma {:induction false} BaseNameHasNoSeparator(path: FilePath)
    ensures forall i :: 0 <= i < |BaseName(path)| ==> !IsSeparator(BaseName(path)[i])
    decreases |path|
  {
    if path != [] && !IsSeparator(path[|path| - 1]) {
      var init, last := path[..|path| - 1], path[|path| - 1];
      BaseNameHasNoSeparator(init);
      var rest := BaseName(init);
      assert BaseName(path) == rest + [last];
    }
  }
}
