/** Collecting the intervals of tool calls, and what reads saw, from the events of a trace. */
module Collecting {
  import opened Wrappers
  import opened Lists
  import opened Text
  import opened Intervals
  import opened Observations
  import opened ReadLines
  import opened Recovery
  import opened Heads

  /** A tool argument: absent, a string, or some other (truthy) value. */
  datatype RawPath = Missing | Str(s: string) | NotAString

  /** A hydrated trace event. Empty strings stand for absent ids and names;
      `resultStatus` is the lower-cased status of the tool's own result. */
  datatype TraceEvent = TraceEvent(
    eventId: string, sequence: int, kind: string, status: string, resultStatus: string,
    toolCallId: string, toolName: string, agentName: string,
    filePath: RawPath, pathArg: RawPath, args: Args, output: Option<seq<Line>>, payloadIds: seq<string>)

  /** `args.get("file_path") or args.get("path")`. */
  function RawPathOf(e: TraceEvent): RawPath {
    if e.filePath == Missing || e.filePath == Str("") then e.pathArg else e.filePath
  }

  predicate IsSuccessfulToolEnd(e: TraceEvent) {
    e.kind == "tool_end" && e.status == "completed" && e.resultStatus != "error"
  }

  // ---------------------------------------------------------------- paths

  /** The white space of Python's `str.strip`. */
  predicate IsWhite(c: char) {
    || IsLineBreak(c) || c in {' ', '\t', '\U{1F}', '\U{A0}', '\U{1680}', '\U{202F}', '\U{205F}', '\U{3000}'}
    || '\U{2000}' <= c <= '\U{200A}'
  }

  predicate IsBlank(s: string) {
    forall i :: 0 <= i < |s| ==> IsWhite(s[i])
  }

  /** `value.replace("\\", "/")`. */
  function ForwardSlashes(s: string): (r: string)
    ensures |r| == |s| && forall i :: 0 <= i < |s| ==> r[i] == if s[i] == '\\' then '/' else s[i]
  {
    seq(|s|, i requires 0 <= i < |s| => if s[i] == '\\' then '/' else s[i])
  }

  /** `value.lstrip("/")`. */
  function StripSlashes(s: string): string {
    if s != "" && s[0] == '/' then StripSlashes(s[1..]) else s
  }

  function Rooted(raw: RawPath): string {
    if !raw.Str? || IsBlank(raw.s) then "" else "/" + StripSlashes(ForwardSlashes(raw.s))
  }

  /** The gate's `_normalize_path`. */
  function GatePath(raw: RawPath): string {
    Rooted(raw)
  }

  /** The recovery's `_normalize_path`: also drops a leading "/workspace". */
  function RecoveryPath(raw: RawPath): string {
    var path := Rooted(raw);
    if path == "" then ""
    else if "/workspace" <= path then (if path == "/workspace" then "/" else path[10..])
    else path
  }

  /** `body` spells `rest`, perhaps with backslashes. */
  ghost predicate Spells(body: string, rest: string) {
    |body| == |rest| && forall i :: 0 <= i < |rest| ==> body[i] == rest[i] || (body[i] == '\\' && rest[i] == '/')
  }

  /** What the paths are: slashes and backslashes in front are one slash, backslashes are
      slashes; the recovery then drops a leading "/workspace". A blank path, or none, is none. */
  lemma PathMeaning(lead: string, body: string, rest: string)
    requires (forall i :: 0 <= i < |lead| ==> lead[i] in {'/', '\\'}) && Spells(body, rest)
    requires rest != "" && rest[0] != '/' && '\\' !in rest && !IsBlank(rest)
    ensures GatePath(Str(lead + body)) == "/" + rest
    ensures RecoveryPath(Str(lead + body)) ==
            if !("workspace" <= rest) then "/" + rest else if rest == "workspace" then "/" else rest[9..]
  {
    var s := lead + body;
    NotBlank(lead, body, rest);
    assert ForwardSlashes(s) == ForwardSlashes(lead) + rest;
    SlashesStripped(ForwardSlashes(lead), rest);
    WorkspaceDropped(rest);
  }

  lemma NotBlank(lead: string, body: string, rest: string)
    requires Spells(body, rest) && !IsBlank(rest)
    ensures !IsBlank(lead + body)
  {
    var i :| 0 <= i < |rest| && !IsWhite(rest[i]);
    assert (lead + body)[|lead| + i] == body[i];
  }

  lemma {:induction false} SlashesStripped(slashes: string, rest: string)
    requires (forall i :: 0 <= i < |slashes| ==> slashes[i] == '/') && (rest == "" || rest[0] != '/')
    ensures StripSlashes(slashes + rest) == rest
  {
    if slashes == "" {
      assert slashes + rest == rest;
    } else {
      SlashesStripped(slashes[1..], rest);
      assert (slashes + rest)[1..] == slashes[1..] + rest;
    }
  }

  lemma WorkspaceDropped(rest: string)
    ensures var path := "/" + rest;
            && ("/workspace" <= path <==> "workspace" <= rest) && (path == "/workspace" <==> rest == "workspace")
            && ("workspace" <= rest ==> path[10..] == rest[9..])
  {
    var path := "/" + rest;
    assert "/workspace"[1..] == "workspace" && path[1..] == rest;
    if "workspace" <= rest { assert path[..10] == "/" + rest[..9] == "/workspace"; }
    if "/workspace" <= path { assert rest[..9] == path[..10][1..] == "workspace"; }
  }

  lemma BlankMeaning(s: string)
    ensures (forall i :: 0 <= i < |s| ==> s[i] in " \t\r\n") ==> IsBlank(s)
    ensures (exists i :: 0 <= i < |s| && ' ' < s[i] <= '~') ==> !IsBlank(s)
  {
  }

  lemma NoPath(raw: RawPath)
    requires !raw.Str? || IsBlank(raw.s)
    ensures GatePath(raw) == "" && RecoveryPath(raw) == ""
  {
  }

  lemma VersionedPathShape(path: string)
    requires IsVersionedPath(path)
    ensures |path| > 3 && path[0] == '/' && path[1] in "dosncwr" && !("/workspace" <= path)
  {
    var prefix := "/workspace";
    assert prefix[1] == 'w' && prefix[4] == 'k';
  }

  /** The two normalisations agree on versioned paths, and a versioned path is its own
      normal form. */
  lemma PathsAgree(raw: RawPath)
    ensures IsVersionedPath(GatePath(raw)) ==> RecoveryPath(raw) == GatePath(raw)
    ensures IsVersionedPath(RecoveryPath(raw)) ==> GatePath(Str(RecoveryPath(raw))) == RecoveryPath(raw)
  {
    if IsVersionedPath(GatePath(raw)) { VersionedPathShape(GatePath(raw)); }
    if IsVersionedPath(RecoveryPath(raw)) {
      NoBackslash(raw);
      NormalAlready(RecoveryPath(raw));
    }
  }

  lemma NormalAlready(p: string)
    requires IsVersionedPath(p) && '\\' !in p
    ensures GatePath(Str(p)) == p
  {
    VersionedPathShape(p);
    assert ForwardSlashes(p) == p;
    assert p[1..][0] == p[1];
    assert StripSlashes(p) == p[1..];
    assert !IsBlank(p) by { assert !IsWhite(p[0]); }
    assert p == "/" + p[1..];
  }

  lemma {:induction false} StripSlashesSuffix(s: string) returns (k: nat)
    ensures k <= |s| && StripSlashes(s) == s[k..]
  {
    if s != "" && s[0] == '/' {
      var j := StripSlashesSuffix(s[1..]);
      k := j + 1;
    } else {
      k := 0;
    }
  }

  lemma NoBackslash(raw: RawPath)
    ensures forall i :: 0 <= i < |RecoveryPath(raw)| ==> RecoveryPath(raw)[i] != '\\'
  {
    if raw.Str? && !IsBlank(raw.s) {
      var s := ForwardSlashes(raw.s);
      var k := StripSlashesSuffix(s);
      assert forall i :: 0 <= i < |Rooted(raw)| ==> Rooted(raw)[i] != '\\';
    }
  }

  // ---------------------------------------------------------------- collecting intervals

  /** The last start event of a tool call (a later one replaces an earlier one). */
  function StartOf(events: seq<TraceEvent>, toolCallId: string): Option<TraceEvent> {
    if events == [] then None
    else
      var e := events[|events| - 1];
      if e.kind == "tool_start" && e.toolCallId != "" && e.toolCallId == toolCallId then Some(e)
      else StartOf(events[..|events| - 1], toolCallId)
  }

  ghost predicate DistinctEventIds(events: seq<TraceEvent>) {
    forall i, j :: 0 <= i < j < |events| ==> events[i].eventId != events[j].eventId
  }

  /** Successful, with an id and with a start event somewhere in the trace. */
  predicate IsCollected(all: seq<TraceEvent>, e: TraceEvent) {
    IsSuccessfulToolEnd(e) && e.toolCallId != "" && StartOf(all, e.toolCallId).Some?
  }

  function IntervalOf(all: seq<TraceEvent>, e: TraceEvent): ToolInterval
    requires IsCollected(all, e)
  {
    var start := StartOf(all, e.toolCallId).value;
    ToolInterval(e.eventId, start.sequence, e.sequence, e.toolCallId, e.toolName,
                 if e.agentName == "" then "unknown" else e.agentName,
                 RecoveryPath(RawPathOf(e)), e.args, Dedupe(start.payloadIds + e.payloadIds))
  }

  /** The write intervals of `events`, in trace order. */
  function WriteIntervals(all: seq<TraceEvent>, events: seq<TraceEvent>): seq<ToolInterval> {
    if events == [] then []
    else
      var e := events[|events| - 1];
      WriteIntervals(all, events[..|events| - 1])
      + if IsCollected(all, e) && IsWriteTool(e.toolName) then [IntervalOf(all, e)] else []
  }

  predicate WritesAs(all: seq<TraceEvent>, e: TraceEvent, a: ToolInterval) {
    IsCollected(all, e) && IsWriteTool(e.toolName) && IntervalOf(all, e) == a
  }

  lemma {:induction false} WriteIntervalsMember(all: seq<TraceEvent>, events: seq<TraceEvent>, a: ToolInterval)
    ensures a in WriteIntervals(all, events) <==> WrittenBy(all, events, a)
  {
    if events != [] {
      var init, last := events[..|events| - 1], events[|events| - 1];
      WriteIntervalsMember(all, init, a);
      WrittenByOneMore(all, init, last, a);
      InitAndLast(events);
    }
  }

  ghost predicate WrittenBy(all: seq<TraceEvent>, events: seq<TraceEvent>, a: ToolInterval) {
    exists e :: e in events && WritesAs(all, e, a)
  }

  lemma WrittenByOneMore(all: seq<TraceEvent>, init: seq<TraceEvent>, last: TraceEvent, a: ToolInterval)
    ensures WrittenBy(all, init + [last], a) <==> WrittenBy(all, init, a) || WritesAs(all, last, a)
  {
    if WritesAs(all, last, a) { assert last in init + [last]; }
    if e :| e in init && WritesAs(all, e, a) { assert e in init + [last]; }
  }

  /** What one collected read observes: its interval, its path and its parsed lines. */
  ghost predicate Observes(all: seq<TraceEvent>, e: TraceEvent, o: ReadObservation) {
    && IsRead(all, e) && WellNumbered(e.output.value) && Stands(e.output.value, o.lines) && o.lines != map[]
    && o == ReadObservation(StartOf(all, e.toolCallId).value.sequence, e.sequence, RecoveryPath(RawPathOf(e)),
                            o.lines, e.eventId, IntervalOf(all, e).payloadIds)
  }

  predicate IsRead(all: seq<TraceEvent>, e: TraceEvent) {
    IsCollected(all, e) && e.toolName in {"read_file", "read"} && e.output.Some?
  }

  /** A collected read whose output parses to at least one line. */
  ghost predicate IsUsableRead(all: seq<TraceEvent>, e: TraceEvent) {
    && IsRead(all, e)
    && WellNumbered(e.output.value) && exists n: nat :: LineText(e.output.value, n).Some?
  }

  /** One observation per usable read, in trace order. */
  ghost predicate ObservationsOf(all: seq<TraceEvent>, events: seq<TraceEvent>, observations: seq<ReadObservation>) {
    Chosen(events, (e: TraceEvent) => IsUsableRead(all, e), (e: TraceEvent, o: ReadObservation) => Observes(all, e, o), observations)
  }

  lemma ObservedMore(all: seq<TraceEvent>, events: seq<TraceEvent>, observations: seq<ReadObservation>, e: TraceEvent, o: ReadObservation)
    requires ObservationsOf(all, events, observations) && IsUsableRead(all, e) && Observes(all, e, o)
    ensures ObservationsOf(all, events + [e], observations + [o])
  {
    ChosenMore(events, (e: TraceEvent) => IsUsableRead(all, e), (e: TraceEvent, o: ReadObservation) => Observes(all, e, o),
               observations, e, o);
  }

  lemma ObservedNoMore(all: seq<TraceEvent>, events: seq<TraceEvent>, observations: seq<ReadObservation>, e: TraceEvent)
    requires ObservationsOf(all, events, observations) && !IsUsableRead(all, e)
    ensures ObservationsOf(all, events + [e], observations)
  {
    ChosenSame(events, (e: TraceEvent) => IsUsableRead(all, e), (e: TraceEvent, o: ReadObservation) => Observes(all, e, o),
               observations, e);
  }

  lemma UsableWhenParsed(lines: seq<Line>, parsed: map<nat, string>)
    requires Stands(lines, parsed)
    ensures parsed != map[] <==> exists n: nat :: LineText(lines, n).Some?
  {
    if n: nat :| LineText(lines, n).Some? { assert n in parsed; }
    if parsed != map[] {
      var n :| n in parsed;
      assert LineText(lines, n).Some?;
    }
  }

  lemma ReadUsable(all: seq<TraceEvent>, e: TraceEvent, parsed: map<nat, string>, o: ReadObservation)
    requires IsRead(all, e)
    requires if WellNumbered(e.output.value) then Stands(e.output.value, parsed) else parsed == map[]
    requires var a := IntervalOf(all, e); o == ReadObservation(a.start, a.end, a.path, parsed, e.eventId, a.payloadIds)
    ensures IsUsableRead(all, e) <==> parsed != map[]
    ensures parsed != map[] ==> Observes(all, e, o)
  {
    if WellNumbered(e.output.value) { UsableWhenParsed(e.output.value, parsed); }
  }

  /** One more event that is no read, or one whose output does not parse, adds nothing; a
      read that shows a line adds what it observes. */
  lemma ReadSeen(all: seq<TraceEvent>, init: seq<TraceEvent>, observations: seq<ReadObservation>, e: TraceEvent,
                 parsed: map<nat, string>, o: ReadObservation)
    requires ObservationsOf(all, init, observations) && IsRead(all, e)
    requires if WellNumbered(e.output.value) then Stands(e.output.value, parsed) else parsed == map[]
    requires var a := IntervalOf(all, e); o == ReadObservation(a.start, a.end, a.path, parsed, e.eventId, a.payloadIds)
    ensures parsed != map[] ==> ObservationsOf(all, init + [e], observations + [o])
    ensures parsed == map[] ==> ObservationsOf(all, init + [e], observations)
  {
    ReadUsable(all, e, parsed, o);
    if parsed != map[] {
      ObservedMore(all, init, observations, e, o);
    } else {
      ObservedNoMore(all, init, observations, e);
    }
  }

  lemma WrittenMore(all: seq<TraceEvent>, init: seq<TraceEvent>, e: TraceEvent)
    ensures var operations := WriteIntervals(all, init);
            WriteIntervals(all, init + [e])
            == if IsCollected(all, e) && IsWriteTool(e.toolName) then operations + [IntervalOf(all, e)] else operations
  {
    assert (init + [e])[..|init|] == init;
  }

  // ---------------------------------------------------------------- the collected lists, said of the events

  /** The event at `j` is the last start with the call id of the end event at `i`. */
  ghost predicate StartsCall(events: seq<TraceEvent>, i: nat, j: nat) {
    && i < |events| && j < |events| && events[i].toolCallId != ""
    && events[j].kind == "tool_start" && events[j].toolCallId == events[i].toolCallId
    && forall k :: j < k < |events| ==> !(events[k].kind == "tool_start" && events[k].toolCallId == events[i].toolCallId)
  }

  /** `a` lasts from the start of the call to its end, and is what both events say. */
  ghost predicate Lasts(start: TraceEvent, e: TraceEvent, a: ToolInterval) {
    && a.start == start.sequence && a.end == e.sequence
    && a.eventId == e.eventId && a.toolCallId == e.toolCallId && a.toolName == e.toolName && a.args == e.args
    && a.agentName == (if e.agentName == "" then "unknown" else e.agentName)
    && a.path == RecoveryPath(if e.filePath == Missing || e.filePath == Str("") then e.pathArg else e.filePath)
    && Distinct(a.payloadIds) && forall id :: id in a.payloadIds <==> id in start.payloadIds || id in e.payloadIds
  }

  /** A tool call that ended well, of one of these tools, with a start event in the trace. */
  ghost predicate EndsWell(events: seq<TraceEvent>, i: nat, tools: set<string>) {
    && i < |events|
    && events[i].kind == "tool_end" && events[i].status == "completed" && events[i].resultStatus != "error"
    && events[i].toolCallId != "" && events[i].toolName in tools
    && exists j :: 0 <= j < |events| && events[j].kind == "tool_start" && events[j].toolCallId == events[i].toolCallId
  }

  /** `ends` are the indices of such events, in order. */
  ghost predicate EndsOf(events: seq<TraceEvent>, tools: set<string>, ends: seq<nat>) {
    Increasing(ends) && forall i: nat :: i in ends <==> EndsWell(events, i, tools)
  }

  ghost predicate OperationAt(events: seq<TraceEvent>, i: nat, a: ToolInterval) {
    exists j: nat :: StartsCall(events, i, j) && Lasts(events[j], events[i], a)
  }

  /** One operation for each write call that ended well, in trace order. */
  ghost predicate CollectsWrites(events: seq<TraceEvent>, ends: seq<nat>, operations: seq<ToolInterval>) {
    && EndsOf(events, {"write_file", "edit_file"}, ends) && |operations| == |ends|
    && forall k :: 0 <= k < |ends| ==> OperationAt(events, ends[k], operations[k])
  }

  /** What one read call saw: the lines its output stands for, at least one. */
  ghost predicate SawLines(e: TraceEvent, lines: map<nat, string>) {
    e.output.Some? && WellNumbered(e.output.value) && Stands(e.output.value, lines) && lines != map[]
  }

  ghost predicate ReadAt(events: seq<TraceEvent>, i: nat, o: ReadObservation) {
    && i < |events| && SawLines(events[i], o.lines)
    && exists a :: OperationAt(events, i, a) && o.start == a.start && o.end == a.end && o.path == a.path
                   && o.eventId == a.eventId && o.payloadIds == a.payloadIds
  }

  ghost predicate ShowsLines(e: TraceEvent) {
    e.output.Some? && WellNumbered(e.output.value) && exists n: nat :: LineText(e.output.value, n).Some?
  }

  /** A read call that ended well and showed a line. */
  ghost predicate ReadsWell(events: seq<TraceEvent>, i: nat) {
    EndsWell(events, i, {"read_file", "read"}) && ShowsLines(events[i])
  }

  /** One observation for each read call that ended well and showed a line, in trace order. */
  ghost predicate CollectsReads(events: seq<TraceEvent>, ends: seq<nat>, observations: seq<ReadObservation>) {
    && Increasing(ends) && (forall i: nat :: i in ends <==> ReadsWell(events, i)) && |observations| == |ends|
    && forall k :: 0 <= k < |ends| ==> ReadAt(events, ends[k], observations[k])
  }

  lemma {:induction false} StartFound(events: seq<TraceEvent>, id: string) returns (j: nat)
    ensures StartOf(events, id).None? ==>
              id == "" || forall k :: 0 <= k < |events| ==> !(events[k].kind == "tool_start" && events[k].toolCallId == id)
    ensures StartOf(events, id).Some? ==>
              && id != "" && j < |events| && events[j] == StartOf(events, id).value
              && events[j].kind == "tool_start" && events[j].toolCallId == id
              && forall k :: j < k < |events| ==> !(events[k].kind == "tool_start" && events[k].toolCallId == id)
  {
    if events == [] {
      j := 0;
    } else {
      var n := |events| - 1;
      j := StartFound(events[..n], id);
      if events[n].kind == "tool_start" && events[n].toolCallId != "" && events[n].toolCallId == id {
        j := n;
      } else {
        assert forall k :: 0 <= k < n ==> events[..n][k] == events[k];
      }
    }
  }

  /** Which events are collected, and what as. */
  lemma WhichCollected(events: seq<TraceEvent>, i: nat, tools: set<string>)
    requires i < |events|
    ensures EndsWell(events, i, tools) <==> IsCollected(events, events[i]) && events[i].toolName in tools
  {
    var j := StartFound(events, events[i].toolCallId);
  }

  lemma CollectedMeaning(events: seq<TraceEvent>, i: nat)
    requires i < |events|
    ensures IsCollected(events, events[i]) ==> OperationAt(events, i, IntervalOf(events, events[i]))
  {
    var e := events[i];
    var j := StartFound(events, e.toolCallId);
    if IsCollected(events, e) {
      assert StartsCall(events, i, j);
      DedupeMeaning(events[j].payloadIds + e.payloadIds);
      assert Lasts(events[j], e, IntervalOf(events, e));
    }
  }

  lemma {:induction false} WritesChosen(all: seq<TraceEvent>, events: seq<TraceEvent>, wanted: TraceEvent -> bool,
                                        fits: (TraceEvent, ToolInterval) -> bool)
    requires forall e :: wanted(e) <==> IsCollected(all, e) && IsWriteTool(e.toolName)
    requires forall e :: wanted(e) ==> fits(e, IntervalOf(all, e))
    ensures Chosen(events, wanted, fits, WriteIntervals(all, events))
  {
    if events != [] {
      var init, last := events[..|events| - 1], events[|events| - 1];
      WritesChosen(all, init, wanted, fits);
      assert init + [last] == events;
      if wanted(last) {
        ChosenMore(init, wanted, fits, WriteIntervals(all, init), last, IntervalOf(all, last));
      } else {
        ChosenSame(init, wanted, fits, WriteIntervals(all, init), last);
        AppendNothing(WriteIntervals(all, init));
      }
    }
  }

  lemma WritesCollected(events: seq<TraceEvent>) returns (ends: seq<nat>)
    ensures CollectsWrites(events, ends, WriteIntervals(events, events))
  {
    var wanted := (e: TraceEvent) => IsCollected(events, e) && IsWriteTool(e.toolName);
    var fits := (e: TraceEvent, a: ToolInterval) => IsCollected(events, e) && a == IntervalOf(events, e);
    WritesChosen(events, events, wanted, fits);
    ends := ChosenPlaces(events, wanted, fits, WriteIntervals(events, events));
    forall i: nat ensures i in ends <==> EndsWell(events, i, {"write_file", "edit_file"}) {
      if i < |events| { WriteMeaning(events, i); }
    }
    forall k | 0 <= k < |ends| ensures OperationAt(events, ends[k], WriteIntervals(events, events)[k]) {
      WriteMeaning(events, ends[k]);
    }
  }

  lemma WriteMeaning(events: seq<TraceEvent>, i: nat)
    requires i < |events|
    ensures EndsWell(events, i, {"write_file", "edit_file"}) <==> IsCollected(events, events[i]) && IsWriteTool(events[i].toolName)
    ensures IsCollected(events, events[i]) ==> OperationAt(events, i, IntervalOf(events, events[i]))
  {
    WhichCollected(events, i, {"write_file", "edit_file"});
    CollectedMeaning(events, i);
  }

  lemma ReadWanted(events: seq<TraceEvent>, i: nat)
    requires i < |events|
    ensures IsUsableRead(events, events[i]) <==> ReadsWell(events, i)
  {
    WhichCollected(events, i, {"read_file", "read"});
    assert IsUsableRead(events, events[i]) <==> IsRead(events, events[i]) && ShowsLines(events[i]);
  }

  lemma ReadMeaning(events: seq<TraceEvent>, i: nat, o: ReadObservation)
    requires i < |events| && Observes(events, events[i], o)
    ensures ReadAt(events, i, o)
  {
    CollectedMeaning(events, i);
    var a := IntervalOf(events, events[i]);
    assert OperationAt(events, i, a) && o.start == a.start && o.end == a.end && o.path == a.path;
  }

  lemma ReadsCollected(events: seq<TraceEvent>, observations: seq<ReadObservation>) returns (ends: seq<nat>)
    requires ObservationsOf(events, events, observations)
    ensures CollectsReads(events, ends, observations)
  {
    ends := ChosenPlaces(events, (e: TraceEvent) => IsUsableRead(events, e), (e: TraceEvent, o: ReadObservation) => Observes(events, e, o),
                         observations);
    forall i: nat ensures i in ends <==> ReadsWell(events, i) {
      if i < |events| { ReadWanted(events, i); }
    }
    forall k | 0 <= k < |ends| ensures ReadAt(events, ends[k], observations[k]) {
      ReadMeaning(events, ends[k], observations[k]);
    }
  }

  /** The operations are the write calls that ended well, in trace order, each from the
      sequence of its start to that of its end; the observations likewise are the read calls
      that showed a line. */
  method CollectIntervals(events: seq<TraceEvent>)
    returns (operations: seq<ToolInterval>, observations: seq<ReadObservation>)
    ensures operations == WriteIntervals(events, events)
    ensures ObservationsOf(events, events, observations)
    ensures exists ends :: CollectsWrites(events, ends, operations)
    ensures exists ends :: CollectsReads(events, ends, observations)
  {
    operations, observations := [], [];
    ghost var done := [];
    for i := 0 to |events|
      invariant done == events[..i]
      invariant operations == WriteIntervals(events, done)
      invariant ObservationsOf(events, done, observations)
    {
      var e := events[i];
      WrittenMore(events, done, e);
      if !IsRead(events, e) { ObservedNoMore(events, done, observations, e); }
      if IsCollected(events, e) {
        var interval := IntervalOf(events, e);
        if IsWriteTool(e.toolName) {
          operations := operations + [interval];
        } else if e.toolName in {"read_file", "read"} && e.output.Some? {
          var lines := ParseReadLines(e.output.value);
          var o := ReadObservation(interval.start, interval.end, interval.path, lines, e.eventId, interval.payloadIds);
          ReadSeen(events, done, observations, e, lines, o);
          if lines != map[] {
            observations := observations + [o];
          }
        }
      }
      done := done + [e];
    }
    assert events[..|events|] == events;
    var writes := WritesCollected(events);
    var usable := ReadsCollected(events, observations);
  }

  /** Every end event comes after the start events of its call, and sequences do not fall. */
  ghost predicate StartsBeforeEnds(events: seq<TraceEvent>) {
    && (forall i, j :: 0 <= i < j < |events| ==> events[i].sequence <= events[j].sequence)
    && forall i, j :: 0 <= i <= j < |events| ==> !(EndsCallOf(events[i], events[j]))
  }

  /** `e` is the end and `start` a start of the same call. */
  predicate EndsCallOf(e: TraceEvent, start: TraceEvent) {
    e.kind == "tool_end" && start.kind == "tool_start" && e.toolCallId != "" && e.toolCallId == start.toolCallId
  }

  lemma OperationTime(events: seq<TraceEvent>, i: nat, a: ToolInterval)
    requires StartsBeforeEnds(events) && i < |events| && events[i].kind == "tool_end" && OperationAt(events, i, a)
    ensures a.start <= a.end
  {
    var j: nat :| StartsCall(events, i, j) && Lasts(events[j], events[i], a);
    assert EndsCallOf(events[i], events[j]);
  }

  /** In such a trace the collected intervals are well timed: the orders exist. */
  lemma CollectedTimes(events: seq<TraceEvent>, ends: seq<nat>, operations: seq<ToolInterval>)
    requires StartsBeforeEnds(events) && CollectsWrites(events, ends, operations)
    ensures WellTimed(OpsOf(operations))
  {
    forall a | a in OpsOf(operations) ensures a.start <= a.end {
      var k :| 0 <= k < |operations| && operations[k] == a;
      assert ends[k] in ends;
      OperationTime(events, ends[k], a);
    }
  }

  lemma ReadTimes(events: seq<TraceEvent>, ends: seq<nat>, observations: seq<ReadObservation>)
    requires StartsBeforeEnds(events) && CollectsReads(events, ends, observations)
    ensures forall o :: o in observations ==> o.start <= o.end
  {
    forall o | o in observations ensures o.start <= o.end {
      var k :| 0 <= k < |observations| && observations[k] == o;
      assert ends[k] in ends;
      var a :| OperationAt(events, ends[k], a) && o.start == a.start && o.end == a.end;
      OperationTime(events, ends[k], a);
    }
  }
}
