/** Server-sent events taken from a text that arrives in arbitrary pieces. */
module Framing {
  import opened Wrappers
  import opened Text

  lemma CompletedStep(sofar: string, chunk: string, sep: string)
    requires sep != ""
    ensures Completed(sofar + chunk, sep) == Completed(sofar, sep) + Completed(Unfinished(sofar, sep) + chunk, sep)
    ensures Unfinished(sofar + chunk, sep) == Unfinished(Unfinished(sofar, sep) + chunk, sep)
  {
    SplitConcat(sofar, chunk, sep);
    SplitTail(Completed(sofar, sep), SplitOn(Unfinished(sofar, sep) + chunk, sep));
  }

  lemma SplitTail(a: seq<string>, b: seq<string>)
    requires b != []
    ensures (a + b)[..|a + b| - 1] == a + b[..|b| - 1] && (a + b)[|a + b| - 1] == b[|b| - 1]
  {
  }

  lemma NothingCompleted(sep: string)
    requires sep != ""
    ensures Completed("", sep) == [] && Unfinished("", sep) == ""
  {
    FindMeaning("", sep);
  }

  lemma ChunkStep(chunks: seq<string>, i: nat)
    requires i < |chunks|
    ensures ConcatAll(chunks[..i + 1]) == ConcatAll(chunks[..i]) + chunks[i]
  {
    assert chunks[..i + 1] == chunks[..i] + [chunks[i]];
    ConcatSnoc(chunks[..i], chunks[i]);
  }

  // ---------------------------------------------------------------- the image stream

  /** A parsed `data:` payload: JSON null, or a value with an optional text field. */
  datatype Json = Null | Value(text: Option<string>)

  datatype SseEvent = SseEvent(kind: string, data: Json)

  datatype Stop = Interrupted(data: Json) | Finished(data: Json) | Failed(data: Json)

  /** Event type and concatenated data of the lines of one frame; the last type wins. */
  function FrameFields(lines: seq<string>): (string, string) {
    if lines == [] then ("", "")
    else
      var (kind, data) := FrameFields(lines[..|lines| - 1]);
      var line := lines[|lines| - 1];
      if "event: " <= line then (line[7..], data)
      else if "data: " <= line then (kind, data + line[6..])
      else (kind, data)
  }

  /** The event of a frame; None when it has no type or its data is not JSON. */
  function FrameEvent(frame: string, parse: string -> Option<Json>): Option<SseEvent> {
    var (kind, data) := FrameFields(SplitOn(frame, "\n"));
    if kind == "" then None
    else match parse(data)
      case None => None
      case Some(json) => Some(SseEvent(kind, json))
  }

  function DataLines(pieces: seq<string>): (lines: seq<string>)
    ensures |lines| == |pieces| && forall i :: 0 <= i < |pieces| ==> lines[i] == "data: " + pieces[i]
  {
    seq(|pieces|, i requires 0 <= i < |pieces| => "data: " + pieces[i])
  }

  /** A frame as a server writes it: a line with the type, and one for each piece of the data. */
  function WrittenFrame(kind: string, pieces: seq<string>): string {
    Join(["event: " + kind] + DataLines(pieces), "\n")
  }

  /** Read back, it is the event with that type and the parsed data; the pieces are put
      together. Without a type, or if the data does not parse, there is none. */
  lemma WrittenFrameRead(kind: string, pieces: seq<string>, parse: string -> Option<Json>)
    requires '\n' !in kind && forall i :: 0 <= i < |pieces| ==> '\n' !in pieces[i]
    ensures kind == "" ==> FrameEvent(WrittenFrame(kind, pieces), parse) == None
    ensures kind != "" ==> FrameEvent(WrittenFrame(kind, pieces), parse) ==
                           match parse(ConcatAll(pieces)) { case None => None case Some(json) => Some(SseEvent(kind, json)) }
  {
    var lines := ["event: " + kind] + DataLines(pieces);
    forall i | 0 <= i < |lines| ensures '\n' !in lines[i] { }
    SplitOfJoin(lines, '\n');
    FieldsOfWritten(kind, pieces);
  }

  lemma {:induction false} FieldsOfWritten(kind: string, pieces: seq<string>)
    ensures FrameFields(["event: " + kind] + DataLines(pieces)) == (kind, ConcatAll(pieces))
  {
    var lines := ["event: " + kind] + DataLines(pieces);
    if pieces == [] {
      assert lines == ["event: " + kind] && lines[..0] == [];
      assert ("event: " + kind)[7..] == kind;
    } else {
      var n := |pieces| - 1;
      FieldsOfWritten(kind, pieces[..n]);
      assert lines[..|lines| - 1] == ["event: " + kind] + DataLines(pieces[..n]);
      DataLine(pieces[n]);
      assert pieces == pieces[..n] + [pieces[n]];
      ConcatSnoc(pieces[..n], pieces[n]);
    }
  }

  lemma DataLine(piece: string)
    ensures var line := "data: " + piece; !("event: " <= line) && "data: " <= line && line[6..] == piece
  {
    assert ("data: " + piece)[0] == 'd';
  }

  /** Of several types in one frame the last counts; lines that are neither are skipped. */
  lemma FieldsOneMore(lines: seq<string>, line: string)
    ensures var (kind, data), (kind', data') := FrameFields(lines), FrameFields(lines + [line]);
            && (forall rest :: line == "event: " + rest ==> kind' == rest && data' == data)
            && (forall rest :: line == "data: " + rest ==> kind' == kind && data' == data + rest)
            && ((forall rest :: line != "event: " + rest && line != "data: " + rest) ==> kind' == kind && data' == data)
  {
    assert (lines + [line])[..|lines|] == lines;
    if "event: " <= line { assert line == "event: " + line[7..]; }
    if "data: " <= line { assert line == "data: " + line[6..]; }
    forall rest | line == "data: " + rest ensures !("event: " <= line) && line[6..] == rest { DataLine(rest); }
    forall rest | line == "event: " + rest ensures line[7..] == rest { }
  }

  /** What the stream has shown so far: the streamed text, and why it stopped. */
  datatype Progress = Progress(text: string, stop: Option<Stop>)

  /** Handling one event. Reading a field of a null payload throws, and the handler's catch
      turns that into "skip this frame". */
  function HandleEvent(p: Progress, event: SseEvent): Progress {
    if event.data.Null? then p
    else if event.kind == "model_stream" then p.(text := p.text + event.data.text.GetOr(""))
    else if event.kind == "interrupt" then p.(stop := Some(Interrupted(event.data)))
    else if event.kind == "final" then p.(stop := Some(Finished(event.data)))
    else if event.kind == "error" then p.(stop := Some(Failed(event.data)))
    else p
  }

  function HandleFrame(p: Progress, frame: string, parse: string -> Option<Json>): Progress {
    match FrameEvent(frame, parse)
    case None => p
    case Some(event) => HandleEvent(p, event)
  }

  /** Frames in order, up to the one that stops the stream. */
  function HandleFrames(p: Progress, frames: seq<string>, parse: string -> Option<Json>): Progress
    decreases |frames|
  {
    if frames == [] || p.stop.Some? then p
    else HandleFrames(HandleFrame(p, frames[0], parse), frames[1..], parse)
  }

  lemma {:induction false} HandleFramesConcat(p: Progress, a: seq<string>, b: seq<string>, parse: string -> Option<Json>)
    ensures HandleFrames(p, a + b, parse) == HandleFrames(HandleFrames(p, a, parse), b, parse)
    decreases |a|
  {
    if a == [] {
      assert a + b == b;
    } else if p.stop.None? {
      assert (a + b)[0] == a[0] && (a + b)[1..] == a[1..] + b;
      HandleFramesConcat(HandleFrame(p, a[0], parse), a[1..], b, parse);
    }
  }

  /** The frame carries a non-null event that ends the stream, and which. */
  function StopOf(frame: string, parse: string -> Option<Json>): Option<Stop> {
    match FrameEvent(frame, parse)
    case None => None
    case Some(SseEvent(kind, data)) =>
      if data.Null? then None
      else if kind == "interrupt" then Some(Interrupted(data))
      else if kind == "final" then Some(Finished(data))
      else if kind == "error" then Some(Failed(data)) else None
  }

  /** The piece of streamed text that a frame carries. */
  function FrameText(frame: string, parse: string -> Option<Json>): string {
    match FrameEvent(frame, parse)
    case None => ""
    case Some(SseEvent(kind, data)) => if kind == "model_stream" && data.Value? then data.text.GetOr("") else ""
  }

  function StreamedText(frames: seq<string>, parse: string -> Option<Json>): string {
    if frames == [] then "" else FrameText(frames[0], parse) + StreamedText(frames[1..], parse)
  }

  lemma OneFrame(p: Progress, frame: string, parse: string -> Option<Json>)
    requires p.stop.None?
    ensures HandleFrame(p, frame, parse).stop == StopOf(frame, parse)
    ensures HandleFrame(p, frame, parse).text == if StopOf(frame, parse).None? then p.text + FrameText(frame, parse) else p.text
  {
    AppendNothing(p.text);
  }

  /** What handling frames comes to: the streamed text of the frames before the first one that
      ends the stream, and the reason that frame gives; without such a frame, all the text. */
  lemma {:induction false} FirstStopDecides(p: Progress, frames: seq<string>, parse: string -> Option<Json>, n: nat)
    requires p.stop.None? && n <= |frames| && forall i :: 0 <= i < n ==> StopOf(frames[i], parse).None?
    requires n < |frames| ==> StopOf(frames[n], parse).Some?
    ensures HandleFrames(p, frames, parse) ==
            Progress(p.text + StreamedText(frames[..n], parse), if n < |frames| then StopOf(frames[n], parse) else None)
    decreases |frames|
  {
    if frames != [] { OneFrame(p, frames[0], parse); }
    AppendNothing(p.text);
    if n > 0 {
      assert forall i :: 0 <= i < n - 1 ==> frames[1..][i] == frames[i + 1];
      FirstStopDecides(HandleFrame(p, frames[0], parse), frames[1..], parse, n - 1);
      assert frames[..n][1..] == frames[1..][..n - 1] && frames[..n][0] == frames[0];
      Associate(p.text, FrameText(frames[0], parse), StreamedText(frames[1..][..n - 1], parse));
    }
  }

  /** The read loop. Whatever the cuts between the chunks, even inside a blank line, the
      result is that of handling the completed frames of the whole text at once, up to the
      frame that stops the stream; reading ends there. */
  method ReadImageStream(chunks: seq<string>, parse: string -> Option<Json>) returns (p: Progress)
    ensures p == HandleFrames(Progress("", None), Completed(ConcatAll(chunks), "\n\n"), parse)
  {
    p := Progress("", None);
    var buffer := "";
    NothingCompleted("\n\n");
    ghost var start := p;
    for i := 0 to |chunks|
      invariant p.stop.None? && buffer == Unfinished(ConcatAll(chunks[..i]), "\n\n")
      invariant p == HandleFrames(start, Completed(ConcatAll(chunks[..i]), "\n\n"), parse)
    {
      var whole := buffer + chunks[i];
      var frames := Completed(whole, "\n\n");
      ChunkStep(chunks, i);
      CompletedStep(ConcatAll(chunks[..i]), chunks[i], "\n\n");
      HandleFramesConcat(start, Completed(ConcatAll(chunks[..i]), "\n\n"), frames, parse);
      buffer := Unfinished(whole, "\n\n");
      p := HandleBatch(p, frames, parse);
      if p.stop.Some? {
        StoppedEarly(start, chunks, i + 1, parse);
        return;
      }
    }
    assert chunks[..|chunks|] == chunks;
  }

  /** The inner loop over the frames of one read. */
  method HandleBatch(before: Progress, frames: seq<string>, parse: string -> Option<Json>) returns (p: Progress)
    requires before.stop.None?
    ensures p == HandleFrames(before, frames, parse)
  {
    p := before;
    assert frames[0..] == frames;
    for i := 0 to |frames|
      invariant p.stop.None? && HandleFrames(before, frames, parse) == HandleFrames(p, frames[i..], parse)
    {
      p := HandleFrame(p, frames[i], parse);
      assert frames[i..][1..] == frames[i + 1..];
      if p.stop.Some? { return; }
    }
  }

  lemma {:induction false} StoppedEarly(start: Progress, chunks: seq<string>, i: nat, parse: string -> Option<Json>)
    requires i <= |chunks|
    requires HandleFrames(start, Completed(ConcatAll(chunks[..i]), "\n\n"), parse).stop.Some?
    ensures HandleFrames(start, Completed(ConcatAll(chunks), "\n\n"), parse)
         == HandleFrames(start, Completed(ConcatAll(chunks[..i]), "\n\n"), parse)
    decreases |chunks| - i
  {
    if i == |chunks| {
      assert chunks[..i] == chunks;
    } else {
      var sofar := ConcatAll(chunks[..i]);
      ChunkStep(chunks, i);
      CompletedStep(sofar, chunks[i], "\n\n");
      HandleFramesConcat(start, Completed(sofar, "\n\n"), Completed(Unfinished(sofar, "\n\n") + chunks[i], "\n\n"), parse);
      StoppedEarly(start, chunks, i + 1, parse);
    }
  }
}
