/** What the attachment loop promises: every configured path is tried, in
    order; a path whose file cannot be opened gets no sink; a path whose sink
    cannot be created gets no copy; and the loop never stops early. */
module AttachmentProperties {
  import opened CrashTypes
  import opened Collaborators
  import opened Events
  import opened CaptureSpec

  /** The positions among the first `n` attachments whose file opens. */
  function OpenedIndices(n: nat, w: World): set<nat> {
    set i: nat | i < n && w.attachmentOpens(i)
  }

  /** The positions among the first `n` attachments whose file opens and whose sink is created. */
  function CopiedIndices(n: nat, w: World): set<nat> {
    set i: nat | i < n && w.attachmentOpens(i) && w.attachmentSinkCreated(i)
  }

  /** The paths of the attachment files opened in `t`, in order. */
  function OpenedSources(t: seq<Event>): seq<FilePath>
    decreases |t|
  {
    if t == [] then []
    else OpenedSources(t[..|t| - 1]) + (if t[|t| - 1].OpenAttachment? then [t[|t| - 1].path] else [])
  }

  lemma {:induction false} OpenedSourcesAppend(a: seq<Event>, b: seq<Event>)
    ensures OpenedSources(a + b) == OpenedSources(a) + OpenedSources(b)
    decreases |b|
  {
    if b == [] {
      assert a + b == a;
    } else {
      assert (a + b)[..|a + b| - 1] == a + b[..|b| - 1];
      OpenedSourcesAppend(a, b[..|b| - 1]);
    }
  }

  /** A trace without attachment work opens no attachment. */
  lemma {:induction false} NoAttachmentOpened(t: seq<Event>)
    requires forall i :: 0 <= i < |t| ==> !t[i].IsAttachmentStep()
    ensures OpenedSources(t) == []
    decreases |t|
  {
    if t != [] {
      NoAttachmentOpened(t[..|t| - 1]);
    }
  }

  /** One iteration for the `i`-th path: the file is opened first; a sink
      is asked for only if the open succeeded; the content is copied only
      if the sink was created. */
  lemma AttachmentStepCounts(i: nat, path: FilePath, w: World)
    ensures var s := AttachmentStep(i, path, w);
      && s[0] == OpenAttachment(path)
      && Count(s, KOpen) == 1
      && Count(s, KAddAttachment) == (if w.attachmentOpens(i) then 1 else 0)
      && Count(s, KCopy) == (if w.attachmentOpens(i) && w.attachmentSinkCreated(i) then 1 else 0)
  {
    var open, add, copy := OpenAttachment(path), AddAttachment(BaseName(path)), CopyFileContent(path, BaseName(path));
    assert [open, add][..1] == [open];
    assert [open, add, copy][..2] == [open, add];
    assert [open][..0] == [];
  }

  /** One iteration does nothing but attachment work, and the sink it asks
      for, and copies into, is named after the path's base name. */
  lemma AttachmentStepKinds(i: nat, path: FilePath, w: World)
    ensures var s := AttachmentStep(i, path, w);
      && (forall j :: 0 <= j < |s| ==> s[j].IsAttachmentStep())
      && (forall j :: 0 <= j < |s| && s[j].AddAttachment? ==> s[j].name == BaseName(path))
      && (forall j :: 0 <= j < |s| && s[j].CopyFileContent? ==> s[j] == CopyFileContent(path, BaseName(path)))
  {
  }

  /** One iteration opens exactly its own path. */
  lemma AttachmentStepSource(i: nat, path: FilePath, w: World)
    ensures OpenedSources(AttachmentStep(i, path, w)) == [path]
  {
    var open, add, copy := OpenAttachment(path), AddAttachment(BaseName(path)), CopyFileContent(path, BaseName(path));
    assert [open][..0] == [];
    assert OpenedSources([open]) == [path];
    assert [open, add][..1] == [open];
    assert OpenedSources([open, add]) == [path];
    assert [open, add, copy][..2] == [open, add];
  }

  /** The loop does nothing but attachment work. */
  lemma {:induction false} OnlyAttachmentSteps(paths: seq<FilePath>, w: World)
    ensures forall j :: 0 <= j < |AttachmentEvents(paths, w)| ==> AttachmentEvents(paths, w)[j].IsAttachmentStep()
    decreases |paths|
  {
    if paths != [] {
      OnlyAttachmentSteps(paths[..|paths| - 1], w);
      AttachmentStepKinds(|paths| - 1, paths[|paths| - 1], w);
    }
  }

  /** Every path is tried exactly once, in the configured order, whatever
      happened to the paths before it. */
  lemma {:induction false} EveryPathTriedInOrder(paths: seq<FilePath>, w: World)
    ensures OpenedSources(AttachmentEvents(paths, w)) == paths
    decreases |paths|
  {
    if paths != [] {
      var n := |paths| - 1;
      var init, last := paths[..n], paths[n];
      assert paths == init + [last];
      var before, step := AttachmentEvents(init, w), AttachmentStep(n, last, w);
      assert AttachmentEvents(paths, w) == before + step;
      EveryPathTriedInOrder(init, w);
      AttachmentStepSource(n, last, w);
      OpenedSourcesAppend(before, step);
    }
  }

  lemma OpenedIndicesNext(n: nat, w: World)
    ensures OpenedIndices(n + 1, w) == OpenedIndices(n, w) + (if w.attachmentOpens(n) then {n} else {})
    ensures n !in OpenedIndices(n, w)
  {
  }

  lemma CopiedIndicesNext(n: nat, w: World)
    ensures CopiedIndices(n + 1, w)
         == CopiedIndices(n, w) + (if w.attachmentOpens(n) && w.attachmentSinkCreated(n) then {n} else {})
    ensures n !in CopiedIndices(n, w)
  {
  }

  /** N paths give N opens; one sink request per path that opened; one copy
      per path that both opened and got a sink. */
  lemma {:induction false} AttachmentLoopCounts(paths: seq<FilePath>, w: World)
    ensures Count(AttachmentEvents(paths, w), KOpen) == |paths|
    ensures Count(AttachmentEvents(paths, w), KAddAttachment) == |OpenedIndices(|paths|, w)|
    ensures Count(AttachmentEvents(paths, w), KCopy) == |CopiedIndices(|paths|, w)|
    decreases |paths|
  {
    if paths == [] {
      assert OpenedIndices(0, w) == {};
      assert CopiedIndices(0, w) == {};
    } else {
      var n := |paths| - 1;
      var init := paths[..n];
      AttachmentLoopCounts(init, w);
      AttachmentStepCounts(n, paths[n], w);
      var before, step := AttachmentEvents(init, w), AttachmentStep(n, paths[n], w);
      CountAppend(before, step, KOpen);
      CountAppend(before, step, KAddAttachment);
      CountAppend(before, step, KCopy);
      OpenedIndicesNext(n, w);
      CopiedIndicesNext(n, w);
    }
  }

  /** Every copy goes from a configured path into a sink named after that
      path's base name. */
  lemma {:induction false} CopiesNamedAfterSource(paths: seq<FilePath>, w: World)
    ensures forall j :: 0 <= j < |AttachmentEvents(paths, w)| && AttachmentEvents(paths, w)[j].CopyFileContent? ==>
      AttachmentEvents(paths, w)[j].source in paths &&
      AttachmentEvents(paths, w)[j].sink == BaseName(AttachmentEvents(paths, w)[j].source)
    decreases |paths|
  {
    if paths != [] {
      var n := |paths| - 1;
      CopiesNamedAfterSource(paths[..n], w);
      AttachmentStepKinds(n, paths[n], w);
      assert forall p :: p in paths[..n] ==> p in paths;
    }
  }
}
