/** Folding a run's output events into the compact attempt output. */
module Output {
  import opened Text
  import opened Contracts
  import opened Machine

  const PREVIEW_LIMIT: nat := 16 * 1024

  datatype Stream = Stdout | Stderr | NoStream

  /** "output" is the older name of the standard output stream. */
  function StreamOf(e: RunEvent): Stream {
    if e.event == "stdout" || e.event == "output" then Stdout else if e.event == "stderr" then Stderr else NoStream
  }

  predicate PayloadOk(e: RunEvent) {
    !StreamOf(e).NoStream? ==> e.data.Some? && (e.byteCount == 0 || e.byteCount == |e.data.value|)
  }

  /** Everything the events wrote to one stream, in order. */
  function Written(events: seq<RunEvent>, stream: Stream): seq<Byte> {
    if events == [] then []
    else
      var last := events[|events| - 1];
      Written(events[..|events| - 1], stream) + Chunk(last, stream)
  }

  function First(s: seq<Byte>, n: nat): seq<Byte> { if |s| <= n then s else s[..n] }

  datatype OutputReply = Folded(output: Option<AttemptOutput>) | BadPayload

  function AppendOutputPreview(preview: seq<Byte>, data: seq<Byte>): seq<Byte> {
    if |preview| >= PREVIEW_LIMIT then preview
    else preview + First(data, PREVIEW_LIMIT - |preview|)
  }

  lemma PreviewStep(all: seq<Byte>, data: seq<Byte>)
    ensures AppendOutputPreview(First(all, PREVIEW_LIMIT), data) == First(all + data, PREVIEW_LIMIT)
  {
  }

  /** The summary the two streams call for: total byte counts, the first 16 KiB of each, whether more was written. */
  function OutputOf(events: seq<RunEvent>): (r: OutputReply)
    ensures r.Folded? && r.output.Some? ==> r.output.value.Valid()
  {
    if exists e :: e in events && !PayloadOk(e) then BadPayload
    else
      var out, err := Written(events, Stdout), Written(events, Stderr);
      if out == [] && err == [] then Folded(None)
      else Folded(Some(AttemptOutput(|out|, |err|, First(out, PREVIEW_LIMIT), First(err, PREVIEW_LIMIT),
                                     |out| > PREVIEW_LIMIT, |err| > PREVIEW_LIMIT)))
  }

  // --- What the summary says of the events

  /** The bytes of the events with one of the given names, in order. */
  ghost function BytesOf(events: seq<RunEvent>, names: set<string>): seq<Byte> {
    if events == [] then []
    else
      var last := events[|events| - 1];
      BytesOf(events[..|events| - 1], names) + if last.event in names && last.data.Some? then last.data.value else []
  }

  const STDOUT_NAMES: set<string> := {"stdout", "output"}
  const STDERR_NAMES: set<string> := {"stderr"}

  /** An event of one of these names must carry decodable data of the length it says, if it says one. */
  ghost predicate Damaged(e: RunEvent) {
    (e.event == "stdout" || e.event == "output" || e.event == "stderr") &&
    (e.data.None? || (e.byteCount != 0 && e.byteCount != |e.data.value|))
  }

  /** The count, preview and truncation of one stream. */
  ghost predicate Summarizes(bytes: int, preview: seq<Byte>, truncated: bool, all: seq<Byte>) {
    && bytes == |all|
    && (truncated <==> |all| > 16384)
    && preview == if |all| > 16384 then all[..16384] else all
  }

  /** "stdout" and "output" events are the standard output, "stderr" events the standard error; without any bytes
      there is no output. */
  ghost predicate Tells(events: seq<RunEvent>, output: Option<AttemptOutput>) {
    var out, err := BytesOf(events, STDOUT_NAMES), BytesOf(events, STDERR_NAMES);
    && (output.None? <==> out == [] && err == [])
    && (output.Some? ==>
          && Summarizes(output.value.stdoutBytes, output.value.stdoutPreview, output.value.stdoutTruncated, out)
          && Summarizes(output.value.stderrBytes, output.value.stderrPreview, output.value.stderrTruncated, err))
  }

  lemma {:induction false} WrittenByName(events: seq<RunEvent>)
    ensures Written(events, Stdout) == BytesOf(events, STDOUT_NAMES)
    ensures Written(events, Stderr) == BytesOf(events, STDERR_NAMES)
  {
    if events != [] { WrittenByName(events[..|events| - 1]); }
  }

  /** The events fold exactly when none is damaged, into the counts, previews and truncation of what they wrote. */
  lemma OutputMeaning(events: seq<RunEvent>)
    ensures OutputOf(events).BadPayload? <==> exists e :: e in events && Damaged(e)
    ensures OutputOf(events).Folded? ==> Tells(events, OutputOf(events).output)
  {
    WrittenByName(events);
    assert forall e :: Damaged(e) <==> !PayloadOk(e);
  }

  /** What one event adds to a stream. */
  function Chunk(e: RunEvent, stream: Stream): seq<Byte> {
    if StreamOf(e) == stream && e.data.Some? then e.data.value else []
  }

  /** The total and the preview of a stream after the first i events. */
  ghost predicate Folding(events: seq<RunEvent>, i: nat, stream: Stream, bytes: int, preview: seq<Byte>) {
    i <= |events| && bytes == |Written(events[..i], stream)| &&
      preview == First(Written(events[..i], stream), PREVIEW_LIMIT)
  }

  lemma FoldingStep(events: seq<RunEvent>, i: nat, stream: Stream, bytes: int, preview: seq<Byte>)
    requires i < |events| && Folding(events, i, stream, bytes, preview)
    ensures Folding(events, i + 1, stream, bytes + |Chunk(events[i], stream)|,
      AppendOutputPreview(preview, Chunk(events[i], stream)))
    ensures Chunk(events[i], stream) == [] ==> Folding(events, i + 1, stream, bytes, preview)
  {
    assert events[..i + 1][..i] == events[..i];
    PreviewStep(Written(events[..i], stream), Chunk(events[i], stream));
  }

  lemma ChunksOf(e: RunEvent)
    ensures StreamOf(e).Stdout? && e.data.Some? ==> Chunk(e, Stdout) == e.data.value && Chunk(e, Stderr) == []
    ensures StreamOf(e).Stderr? && e.data.Some? ==> Chunk(e, Stderr) == e.data.value && Chunk(e, Stdout) == []
    ensures StreamOf(e).NoStream? ==> Chunk(e, Stdout) == [] && Chunk(e, Stderr) == []
  {
  }

  lemma FoldedOutput(events: seq<RunEvent>, outBytes: int, outPreview: seq<Byte>, errBytes: int, errPreview: seq<Byte>)
    requires Folding(events, |events|, Stdout, outBytes, outPreview)
    requires Folding(events, |events|, Stderr, errBytes, errPreview)
    requires forall e :: e in events ==> PayloadOk(e)
    ensures OutputOf(events) ==
      if outBytes == 0 && errBytes == 0 then Folded(None)
      else Folded(Some(AttemptOutput(outBytes, errBytes, outPreview, errPreview,
             outPreview != [] && outBytes > |outPreview|, errPreview != [] && errBytes > |errPreview|)))
  {
    assert events[..|events|] == events;
  }

  /** The single pass over the events, which never holds more than the previews, computes that summary. */
  method AttemptOutputFromEvents(events: seq<RunEvent>) returns (r: OutputReply)
    ensures r == OutputOf(events)
  {
    var stdoutBytes, stderrBytes := 0, 0;
    var stdoutPreview: seq<Byte>, stderrPreview: seq<Byte> := [], [];
    for i := 0 to |events|
      invariant forall j :: 0 <= j < i ==> PayloadOk(events[j])
      invariant Folding(events, i, Stdout, stdoutBytes, stdoutPreview)
      invariant Folding(events, i, Stderr, stderrBytes, stderrPreview)
    {
      var event := events[i];
      ChunksOf(event);
      FoldingStep(events, i, Stdout, stdoutBytes, stdoutPreview);
      FoldingStep(events, i, Stderr, stderrBytes, stderrPreview);
      if StreamOf(event).NoStream? {
        continue;
      }
      if event.data.None? || (event.byteCount != 0 && event.byteCount != |event.data.value|) {
        assert !PayloadOk(event) && event in events;
        return BadPayload;
      }
      var data := event.data.value;
      if StreamOf(event).Stdout? {
        stdoutBytes := stdoutBytes + |data|;
        stdoutPreview := AppendOutputPreview(stdoutPreview, data);
      } else {
        stderrBytes := stderrBytes + |data|;
        stderrPreview := AppendOutputPreview(stderrPreview, data);
      }
    }
    FoldedOutput(events, stdoutBytes, stdoutPreview, stderrBytes, stderrPreview);
    if stdoutBytes == 0 && stderrBytes == 0 {
      return Folded(None);
    }
    return Folded(Some(AttemptOutput(
      stdoutBytes, stderrBytes, stdoutPreview, stderrPreview,
      stdoutPreview != [] && stdoutBytes > |stdoutPreview|, stderrPreview != [] && stderrBytes > |stderrPreview|)));
  }
}
