/** The line-based stream of a submit: lines survive any chunking, events do not. */
module SubmitStream {
  import opened Text
  import opened Framing

  datatype LineEvent = LineEvent(kind: string, data: string)

  predicate IsSpace(c: char) {
    || '\t' <= c <= '\r' || c in {' ', '\U{A0}', '\U{1680}', '\U{2028}', '\U{2029}', '\U{202F}', '\U{205F}', '\U{3000}', '\U{FEFF}'}
    || '\U{2000}' <= c <= '\U{200A}'
  }

  lemma SpaceMeaning(c: char)
    ensures c in " \t\r\n" ==> IsSpace(c)
    ensures ' ' < c <= '~' ==> !IsSpace(c)
  {
  }

  /** JavaScript's `trim()`. */
  function Trim(s: string): string
    decreases |s|
  {
    if s != "" && IsSpace(s[0]) then Trim(s[1..])
    else if s != "" && IsSpace(s[|s| - 1]) then Trim(s[..|s| - 1])
    else s
  }

  predicate IsEventLine(line: string) {
    "event: " <= line
  }

  predicate IsDataLine(line: string) {
    "data: " <= line && !IsEventLine(line)
  }

  /** The events that a run of lines yields when `kind` is the pending event type. */
  function Recognise(kind: string, lines: seq<string>): seq<LineEvent>
    decreases |lines|
  {
    if lines == [] then []
    else if IsEventLine(lines[0]) then Recognise(Trim(lines[0][7..]), lines[1..])
    else if IsDataLine(lines[0]) && kind != "" then
      [LineEvent(kind, Trim(lines[0][6..]))] + Recognise("", lines[1..])
    else Recognise(kind, lines[1..])
  }

  /** Line by line: an event line sets the type, a data line behind one completes the event, and
      any other line changes nothing. */
  lemma LineRecognised(kind: string, text: string, line: string, rest: seq<string>)
    ensures Recognise(kind, ["event: " + text] + rest) == Recognise(Trim(text), rest)
    ensures Recognise(kind, ["data: " + text] + rest) ==
            if kind == "" then Recognise("", rest) else [LineEvent(kind, Trim(text))] + Recognise("", rest)
    ensures !("event: " <= line) && !("data: " <= line) ==> Recognise(kind, [line] + rest) == Recognise(kind, rest)
  {
    var a, b := "event: " + text, "data: " + text;
    assert a[7..] == text && b[6..] == text && b[0] == 'd';
    assert ([a] + rest)[1..] == rest && ([b] + rest)[1..] == rest && ([line] + rest)[1..] == rest;
  }

  ghost predicate Spaces(s: string) {
    forall i :: 0 <= i < |s| ==> IsSpace(s[i])
  }

  /** Trimming takes the spaces off both ends and nothing else. */
  lemma {:induction false} TrimMeaning(s: string) returns (lead: string, tail: string)
    ensures s == lead + Trim(s) + tail && Spaces(lead) && Spaces(tail)
    ensures Trim(s) != "" ==> !IsSpace(Trim(s)[0]) && !IsSpace(Trim(s)[|Trim(s)| - 1])
    decreases |s|
  {
    lead, tail := "", "";
    if s != "" && IsSpace(s[0]) {
      lead, tail := TrimMeaning(s[1..]);
      lead := [s[0]] + lead;
    } else if s != "" && IsSpace(s[|s| - 1]) {
      lead, tail := TrimMeaning(s[..|s| - 1]);
      tail := tail + [s[|s| - 1]];
    }
  }

  /** Nothing to trim. */
  predicate IsTrimmed(s: string) {
    s == "" || (!IsSpace(s[0]) && !IsSpace(s[|s| - 1]))
  }

  /** Events as a server writes them: the type, the data, and an empty line. */
  function WrittenLines(events: seq<LineEvent>): seq<string> {
    if events == [] then []
    else ["event: " + events[0].kind, "data: " + events[0].data, ""] + WrittenLines(events[1..])
  }

  /** Read back, they are the same events. */
  lemma {:induction false} WrittenLinesRead(events: seq<LineEvent>)
    requires forall i :: 0 <= i < |events| ==> events[i].kind != "" && IsTrimmed(events[i].kind) && IsTrimmed(events[i].data)
    ensures Recognise("", WrittenLines(events)) == events
  {
    if events != [] {
      var e, rest := events[0], WrittenLines(events[1..]);
      WrittenLinesRead(events[1..]);
      RecogniseOne("", e, rest);
      assert events == [e] + events[1..];
    }
  }

  lemma RecogniseOne(kind: string, e: LineEvent, rest: seq<string>)
    requires e.kind != "" && IsTrimmed(e.kind) && IsTrimmed(e.data)
    ensures Recognise(kind, ["event: " + e.kind, "data: " + e.data, ""] + rest) == [e] + Recognise("", rest)
  {
    var a, b := "event: " + e.kind, "data: " + e.data;
    assert a[7..] == e.kind && b[6..] == e.data && b[0] == 'd';
    assert ([a, b, ""] + rest)[1..] == [b, ""] + rest && ([b, ""] + rest)[1..] == [""] + rest && ([""] + rest)[1..] == rest;
    assert Recognise(e.kind, [b, ""] + rest) == [LineEvent(e.kind, e.data)] + Recognise("", [""] + rest);
  }

  /** The event type still pending after the lines. */
  function Pending(kind: string, lines: seq<string>): string
    decreases |lines|
  {
    if lines == [] then kind
    else if IsEventLine(lines[0]) then Pending(Trim(lines[0][7..]), lines[1..])
    else if IsDataLine(lines[0]) then Pending("", lines[1..])
    else Pending(kind, lines[1..])
  }

  lemma {:induction false} RecogniseConcat(kind: string, a: seq<string>, b: seq<string>)
    ensures Recognise(kind, a + b) == Recognise(kind, a) + Recognise(Pending(kind, a), b)
    decreases |a|
  {
    if a == [] {
      assert a + b == b;
    } else {
      assert (a + b)[0] == a[0] && (a + b)[1..] == a[1..] + b;
      var next := if IsEventLine(a[0]) then Trim(a[0][7..]) else if IsDataLine(a[0]) then "" else kind;
      RecogniseConcat(next, a[1..], b);
    }
  }

  /** An out-of-credit event ends the work on the current read: its later lines are dropped. */
  function UpToCredit(events: seq<LineEvent>, isJson: string -> bool): seq<LineEvent> {
    if events == [] then []
    else if events[0].kind == "credit_exhausted" && isJson(events[0].data) then [events[0]]
    else [events[0]] + UpToCredit(events[1..], isJson)
  }

  /** The completed lines of each read: cut the buffer, keep the unfinished line. */
  function Batches(buffer: string, chunks: seq<string>): seq<seq<string>>
    decreases |chunks|
  {
    if chunks == [] then []
    else [Completed(buffer + chunks[0], "\n")] + Batches(Unfinished(buffer + chunks[0], "\n"), chunks[1..])
  }

  function Flatten<T>(ss: seq<seq<T>>): seq<T> {
    if ss == [] then [] else ss[0] + Flatten(ss[1..])
  }

  /** All events handled, read by read: the pending type starts empty in each. */
  function HandledPerRead(batches: seq<seq<string>>, isJson: string -> bool): seq<LineEvent> {
    if batches == [] then []
    else UpToCredit(Recognise("", batches[0]), isJson) + HandledPerRead(batches[1..], isJson)
  }

  /** The read loop: reads, the lines of each, the events handled. */
  method ReadSubmitStream(chunks: seq<string>, isJson: string -> bool)
    returns (batches: seq<seq<string>>, handled: seq<LineEvent>)
    ensures batches == Batches("", chunks)
    ensures handled == HandledPerRead(batches, isJson)
  {
    batches, handled := [], [];
    var buffer := "";
    assert chunks[0..] == chunks;
    for i := 0 to |chunks|
      invariant Batches("", chunks) == batches + Batches(buffer, chunks[i..])
      invariant handled == HandledPerRead(batches, isJson)
    {
      assert chunks[i..][1..] == chunks[i + 1..];
      var lines := Completed(buffer + chunks[i], "\n");
      buffer := Unfinished(buffer + chunks[i], "\n");
      var events := HandleLines(lines, isJson);
      HandledSnoc(batches, lines, isJson);
      handled := handled + events;
      Associate(batches, [lines], Batches(buffer, chunks[i + 1..]));
      batches := batches + [lines];
    }
  }

  lemma SnocTail<T>(s: seq<T>, x: T)
    requires s != []
    ensures (s + [x])[0] == s[0] && (s + [x])[1..] == s[1..] + [x]
  {
  }

  lemma {:induction false} HandledSnoc(batches: seq<seq<string>>, lines: seq<string>, isJson: string -> bool)
    ensures HandledPerRead(batches + [lines], isJson)
         == HandledPerRead(batches, isJson) + UpToCredit(Recognise("", lines), isJson)
  {
    if batches == [] {
      assert (batches + [lines])[1..] == [];
    } else {
      SnocTail(batches, lines);
      HandledSnoc(batches[1..], lines, isJson);
      Associate(UpToCredit(Recognise("", batches[0]), isJson), HandledPerRead(batches[1..], isJson),
                UpToCredit(Recognise("", lines), isJson));
    }
  }

  /** The inner loop over the lines of one read. */
  method HandleLines(lines: seq<string>, isJson: string -> bool) returns (handled: seq<LineEvent>)
    ensures handled == UpToCredit(Recognise("", lines), isJson)
  {
    handled := [];
    var kind := "";
    assert lines[0..] == lines;
    for i := 0 to |lines|
      invariant UpToCredit(Recognise("", lines), isJson) == handled + UpToCredit(Recognise(kind, lines[i..]), isJson)
    {
      var line := lines[i];
      DropOne(lines, i);
      if IsEventLine(line) {
        kind := Trim(line[7..]);
      } else if IsDataLine(line) && kind != "" {
        var event := LineEvent(kind, Trim(line[6..]));
        var rest := Recognise("", lines[i + 1..]);
        UpToCreditCons(event, rest, isJson);
        Associate(handled, [event], UpToCredit(rest, isJson));
        handled := handled + [event];
        if event.kind == "credit_exhausted" && isJson(event.data) { return; }
        kind := "";
      }
    }
  }

  lemma DropOne<T>(s: seq<T>, i: nat)
    requires i < |s|
    ensures s[i..] != [] && s[i..][0] == s[i] && s[i..][1..] == s[i + 1..]
  {
  }

  lemma UpToCreditCons(event: LineEvent, rest: seq<LineEvent>, isJson: string -> bool)
    ensures UpToCredit([event] + rest, isJson)
         == if event.kind == "credit_exhausted" && isJson(event.data) then [event] else [event] + UpToCredit(rest, isJson)
  {
    assert ([event] + rest)[1..] == rest;
  }

  // ---------------------------------------------------------------- lines survive chunking

  /** The lines of all reads together are the completed lines of the whole text. */
  lemma {:induction false} LinesIndependentOfChunking(buffer: string, chunks: seq<string>)
    requires Completed(buffer, "\n") == [] && Unfinished(buffer, "\n") == buffer
    ensures Flatten(Batches(buffer, chunks)) == Completed(buffer + ConcatAll(chunks), "\n")
    decreases |chunks|
  {
    if chunks == [] {
      assert buffer + "" == buffer;
    } else {
      var whole := buffer + chunks[0];
      var rest := Unfinished(whole, "\n");
      UnfinishedIsAtomic(whole);
      LinesIndependentOfChunking(rest, chunks[1..]);
      CompletedStep(whole, ConcatAll(chunks[1..]), "\n");
      ConcatCons(chunks);
      Associate(buffer, chunks[0], ConcatAll(chunks[1..]));
    }
  }

  lemma {:induction false} UnfinishedIsAtomic(s: string)
    ensures Completed(Unfinished(s, "\n"), "\n") == [] && Unfinished(Unfinished(s, "\n"), "\n") == Unfinished(s, "\n")
  {
    PiecesAreSepFree(s, "\n");
  }

  // ---------------------------------------------------------------- events do not

  /** The next event or data line after `lines` start is a data line. */
  predicate DataComesFirst(lines: seq<string>)
    decreases |lines|
  {
    lines != [] && (IsDataLine(lines[0]) || (!IsEventLine(lines[0]) && DataComesFirst(lines[1..])))
  }

  /** No read boundary falls between an event line and its data line. */
  ghost predicate Intact(kind: string, batches: seq<seq<string>>)
    decreases |batches|
  {
    batches == [] ||
    (!(kind != "" && DataComesFirst(batches[0])) && Intact(Pending(kind, batches[0]), batches[1..]))
  }

  /** A pending type costs nothing unless a data line comes first, and then one event. */
  lemma {:induction false} PendingMatters(kind: string, lines: seq<string>)
    ensures if kind != "" && DataComesFirst(lines) then |Recognise(kind, lines)| == |Recognise("", lines)| + 1
            else Recognise(kind, lines) == Recognise("", lines)
    decreases |lines|
  {
    if lines != [] && !IsEventLine(lines[0]) && !IsDataLine(lines[0]) {
      PendingMatters(kind, lines[1..]);
    }
  }

  function RecognisedPerRead(batches: seq<seq<string>>): seq<LineEvent> {
    if batches == [] then [] else Recognise("", batches[0]) + RecognisedPerRead(batches[1..])
  }

  lemma {:induction false} PerReadAgainstWhole(kind: string, batches: seq<seq<string>>)
    ensures |RecognisedPerRead(batches)| <= |Recognise(kind, Flatten(batches))|
    ensures RecognisedPerRead(batches) == Recognise(kind, Flatten(batches)) <==> Intact(kind, batches)
    decreases |batches|
  {
    if batches != [] {
      var first, rest := batches[0], batches[1..];
      RecogniseConcat(kind, first, Flatten(rest));
      PendingMatters(kind, first);
      PerReadAgainstWhole(Pending(kind, first), rest);
      PrefixCancel(Recognise("", first), RecognisedPerRead(rest), Recognise(Pending(kind, first), Flatten(rest)));
    }
  }

  lemma PrefixCancel<T>(p: seq<T>, a: seq<T>, b: seq<T>)
    ensures p + a == p + b <==> a == b
  {
    if p + a == p + b {
      assert a == (p + a)[|p|..] && b == (p + b)[|p|..];
    }
  }

  ghost predicate NoCredit(events: seq<LineEvent>) {
    forall i :: 0 <= i < |events| ==> events[i].kind != "credit_exhausted"
  }

  lemma {:induction false} UpToCreditIdentity(events: seq<LineEvent>, isJson: string -> bool)
    requires NoCredit(events)
    ensures UpToCredit(events, isJson) == events
  {
    if events != [] {
      UpToCreditIdentity(events[1..], isJson);
      assert events == [events[0]] + events[1..];
    }
  }

  lemma {:induction false} HandledWithoutCredit(batches: seq<seq<string>>, isJson: string -> bool)
    requires NoCredit(RecognisedPerRead(batches))
    ensures HandledPerRead(batches, isJson) == RecognisedPerRead(batches)
    decreases |batches|
  {
    if batches != [] {
      var first, rest := Recognise("", batches[0]), RecognisedPerRead(batches[1..]);
      forall i | 0 <= i < |first| ensures first[i].kind != "credit_exhausted" { assert (first + rest)[i] == first[i]; }
      forall i | 0 <= i < |rest| ensures rest[i].kind != "credit_exhausted" { assert (first + rest)[|first| + i] == rest[i]; }
      UpToCreditIdentity(first, isJson);
      HandledWithoutCredit(batches[1..], isJson);
    }
  }

  /** For a stream without out-of-credit events: the events handled read by read are the
      events of the whole text exactly when no read boundary falls between an event line
      and its data line. */
  lemma EventsDependOnChunking(chunks: seq<string>, isJson: string -> bool)
    requires NoCredit(RecognisedPerRead(Batches("", chunks)))
    ensures HandledPerRead(Batches("", chunks), isJson) == Recognise("", Completed(ConcatAll(chunks), "\n"))
       <==> Intact("", Batches("", chunks))
  {
    NothingCompleted("\n");
    LinesIndependentOfChunking("", chunks);
    assert "" + ConcatAll(chunks) == ConcatAll(chunks);
    HandledWithoutCredit(Batches("", chunks), isJson);
    PerReadAgainstWhole("", Batches("", chunks));
  }

  // ---------------------------------------------------------------- out-of-credit events

  predicate HasCredit(events: seq<LineEvent>, isJson: string -> bool) {
    exists i :: 0 <= i < |events| && events[i].kind == "credit_exhausted" && isJson(events[i].data)
  }

  /** What is handled in the reads after the first one that brings an out-of-credit event. */
  function AfterCredit(batches: seq<seq<string>>, isJson: string -> bool): seq<LineEvent> {
    if batches == [] then []
    else if HasCredit(Recognise("", batches[0]), isJson) then HandledPerRead(batches[1..], isJson)
    else AfterCredit(batches[1..], isJson)
  }

  lemma {:induction false} UpToCreditConcat(a: seq<LineEvent>, b: seq<LineEvent>, isJson: string -> bool)
    ensures UpToCredit(a + b, isJson) == if HasCredit(a, isJson) then UpToCredit(a, isJson) else a + UpToCredit(b, isJson)
    ensures !HasCredit(a, isJson) ==> UpToCredit(a, isJson) == a
  {
    if a == [] {
      assert a + b == b;
    } else {
      var e, rest := a[0], a[1..];
      assert a == [e] + rest && a + b == [e] + (rest + b);
      UpToCreditConcat(rest, b, isJson);
      UpToCreditCons(e, rest + b, isJson);
      UpToCreditCons(e, rest, isJson);
      CreditCons(e, rest, isJson);
      Associate([e], rest, UpToCredit(b, isJson));
    }
  }

  lemma CreditCons(e: LineEvent, rest: seq<LineEvent>, isJson: string -> bool)
    ensures HasCredit([e] + rest, isJson) <==> (e.kind == "credit_exhausted" && isJson(e.data)) || HasCredit(rest, isJson)
  {
    var a := [e] + rest;
    if e.kind == "credit_exhausted" && isJson(e.data) { assert a[0] == e; }
    if i :| 0 <= i < |rest| && rest[i].kind == "credit_exhausted" && isJson(rest[i].data) { assert a[i + 1] == rest[i]; }
    if i :| 0 <= i < |a| && a[i].kind == "credit_exhausted" && isJson(a[i].data) {
      if i > 0 { assert a[i] == rest[i - 1]; }
    }
  }

  /** Any stream: what is handled is what the reads recognise up to the first out-of-credit
      event, and then whatever the later reads bring, because the event ends the work on
      its own read alone. */
  lemma {:induction false} CreditEndsOneRead(batches: seq<seq<string>>, isJson: string -> bool)
    ensures HandledPerRead(batches, isJson) == UpToCredit(RecognisedPerRead(batches), isJson) + AfterCredit(batches, isJson)
  {
    if batches != [] {
      var first, rest := Recognise("", batches[0]), RecognisedPerRead(batches[1..]);
      CreditEndsOneRead(batches[1..], isJson);
      UpToCreditConcat(first, rest, isJson);
      if !HasCredit(first, isJson) {
        Associate(first, UpToCredit(rest, isJson), AfterCredit(batches[1..], isJson));
      }
    }
  }

  /** Against one read of the whole text: if no boundary cuts an event from its data, the
      reads handle the same events and then those that later reads bring after an
      out-of-credit event; the two agree exactly when there are none. */
  lemma CreditAgainstWhole(chunks: seq<string>, isJson: string -> bool)
    requires Intact("", Batches("", chunks))
    ensures var whole := UpToCredit(Recognise("", Completed(ConcatAll(chunks), "\n")), isJson);
            var handled := HandledPerRead(Batches("", chunks), isJson);
            && handled == whole + AfterCredit(Batches("", chunks), isJson)
            && (handled == whole <==> AfterCredit(Batches("", chunks), isJson) == [])
  {
    NothingCompleted("\n");
    LinesIndependentOfChunking("", chunks);
    assert "" + ConcatAll(chunks) == ConcatAll(chunks);
    PerReadAgainstWhole("", Batches("", chunks));
    CreditEndsOneRead(Batches("", chunks), isJson);
    var whole, later := UpToCredit(RecognisedPerRead(Batches("", chunks)), isJson), AfterCredit(Batches("", chunks), isJson);
    if whole + later == whole { assert |later| == 0; }
  }
}
