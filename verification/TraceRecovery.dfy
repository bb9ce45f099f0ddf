/** From the events of a trace to the recovered head: a write and two overlapping edits on
    different sides of a separator are recovered as the one text that has both. */
module TraceRecovery {
  import opened Wrappers
  import opened Lists
  import opened Text
  import opened Intervals
  import opened Replay
  import opened Search
  import opened Observations
  import opened Confluence
  import opened EditsApart
  import opened Recovery
  import opened Heads
  import opened Collecting

  /** The call of an event, without its times. */
  function CallOf(e: TraceEvent): ToolInterval {
    ToolInterval(e.eventId, 0, 0, e.toolCallId, e.toolName, e.agentName, "", e.args, [])
  }

  /** Where the three calls end, and where they start. */
  datatype Indices = Indices(w: nat, a: nat, b: nat, startW: nat, startA: nat, startB: nat)

  ghost predicate WritesPath(events: seq<TraceEvent>, i: nat, path: string) {
    EndsWell(events, i, {"write_file", "edit_file"}) && RecoveryPath(RawPathOf(events[i])) == path
  }

  /** The writes to `path` are a write and two edits that start after it has ended, and overlap. */
  ghost predicate WriteThenEdits(events: seq<TraceEvent>, path: string, at: Indices) {
    && StartsCall(events, at.w, at.startW) && StartsCall(events, at.a, at.startA) && StartsCall(events, at.b, at.startB)
    && at.w != at.a && at.w != at.b && at.a != at.b
    && (forall i: nat :: WritesPath(events, i, path) <==> i == at.w || i == at.a || i == at.b)
    && events[at.startW].sequence <= events[at.w].sequence
    && events[at.startA].sequence <= events[at.a].sequence && events[at.startB].sequence <= events[at.b].sequence
    && events[at.w].sequence < events[at.startA].sequence && events[at.w].sequence < events[at.startB].sequence
    && events[at.startA].sequence <= events[at.b].sequence && events[at.startB].sequence <= events[at.a].sequence
  }

  /** What they do: the write puts a separator between two texts, and each edit finds its old
      text on its own side alone, whether or not the other was made. */
  ghost predicate EditsTwoSides(events: seq<TraceEvent>, at: Indices, l: string, sep: char, r: string) {
    && at.w < |events| && at.a < |events| && at.b < |events|
    && events[at.w].toolName == "write_file" && events[at.w].args.content == Some(l + [sep] + r)
    && Undisturbed(CallOf(events[at.a]), CallOf(events[at.b]), sep, l, r)
  }

  // ---------------------------------------------------------------- the three operations

  /** `c` is the collected operation of the call that ends at `i` and starts at `j`. */
  ghost predicate Is(events: seq<TraceEvent>, i: nat, j: nat, c: ToolInterval) {
    StartsCall(events, i, j) && Lasts(events[j], events[i], c)
  }

  lemma OperationOf(events: seq<TraceEvent>, ends: seq<nat>, operations: seq<ToolInterval>, i: nat, j: nat) returns (k: nat)
    requires CollectsWrites(events, ends, operations) && StartsCall(events, i, j) && EndsWell(events, i, {"write_file", "edit_file"})
    ensures k < |operations| && k < |ends| && ends[k] == i && Is(events, i, j, operations[k])
  {
    assert i in ends;
    k :| k < |ends| && ends[k] == i;
    assert OperationAt(events, ends[k], operations[k]);
    var other: nat :| StartsCall(events, i, other) && Lasts(events[other], events[i], operations[k]);
    LastStart(events, i, j, other);
  }

  lemma LastStart(events: seq<TraceEvent>, i: nat, j: nat, k: nat)
    requires StartsCall(events, i, j) && StartsCall(events, i, k)
    ensures j == k
  {
  }

  /** The three operations, and no other for the path. */
  lemma ThreeOperations(events: seq<TraceEvent>, ends: seq<nat>, operations: seq<ToolInterval>, path: string, at: Indices)
    returns (w: ToolInterval, a: ToolInterval, b: ToolInterval)
    requires CollectsWrites(events, ends, operations) && WriteThenEdits(events, path, at) && IsVersionedPath(path)
    ensures Is(events, at.w, at.startW, w) && Is(events, at.a, at.startA, a) && Is(events, at.b, at.startB, b)
    ensures OpsOf(WritesTo(operations, path)) == {w, a, b}
  {
    var i, j, k := ThreePlaces(events, ends, operations, path, at);
    w, a, b := operations[i], operations[j], operations[k];
    WriteOf(events, at.w, at.startW, path, w);
    WriteOf(events, at.a, at.startA, path, a);
    WriteOf(events, at.b, at.startB, path, b);
    forall c | c in operations && c.path == path ensures c == w || c == a || c == b {
      NoOther(events, ends, operations, path, at, i, j, k, c);
    }
    JustThese(operations, path, w, a, b);
  }

  lemma JustThese(operations: seq<ToolInterval>, path: string, w: ToolInterval, a: ToolInterval, b: ToolInterval)
    requires w in operations && a in operations && b in operations
    requires IsVersionedWrite(w) && IsVersionedWrite(a) && IsVersionedWrite(b) && w.path == path && a.path == path && b.path == path
    requires forall c :: c in operations && c.path == path ==> c == w || c == a || c == b
    ensures OpsOf(WritesTo(operations, path)) == {w, a, b}
  {
  }

  lemma NoOther(events: seq<TraceEvent>, ends: seq<nat>, operations: seq<ToolInterval>, path: string, at: Indices,
                i: nat, j: nat, k: nat, c: ToolInterval)
    requires CollectsWrites(events, ends, operations) && WriteThenEdits(events, path, at) && c in operations && c.path == path
    requires i < |operations| && j < |operations| && k < |operations| && |ends| == |operations|
    requires ends[i] == at.w && ends[j] == at.a && ends[k] == at.b
    ensures c == operations[i] || c == operations[j] || c == operations[k]
  {
    var n := PlaceOf(events, ends, operations, path, c);
    OneOfThree(events, path, at, ends[n]);
    OnlyPlaces(ends, n, i, j, k);
  }

  lemma ThreePlaces(events: seq<TraceEvent>, ends: seq<nat>, operations: seq<ToolInterval>, path: string, at: Indices)
    returns (i: nat, j: nat, k: nat)
    requires CollectsWrites(events, ends, operations) && WriteThenEdits(events, path, at)
    ensures i < |operations| && j < |operations| && k < |operations| && |ends| == |operations| && Increasing(ends)
    ensures ends[i] == at.w && ends[j] == at.a && ends[k] == at.b
    ensures Is(events, at.w, at.startW, operations[i]) && Is(events, at.a, at.startA, operations[j])
    ensures Is(events, at.b, at.startB, operations[k])
    ensures WritesPath(events, at.w, path) && WritesPath(events, at.a, path) && WritesPath(events, at.b, path)
  {
    TheWrites(events, path, at);
    i := OperationOf(events, ends, operations, at.w, at.startW);
    j := OperationOf(events, ends, operations, at.a, at.startA);
    k := OperationOf(events, ends, operations, at.b, at.startB);
  }

  lemma OneOfThree(events: seq<TraceEvent>, path: string, at: Indices, n: nat)
    requires WriteThenEdits(events, path, at) && WritesPath(events, n, path)
    ensures n == at.w || n == at.a || n == at.b
  {
  }

  lemma WriteOf(events: seq<TraceEvent>, i: nat, j: nat, path: string, c: ToolInterval)
    requires Is(events, i, j, c) && WritesPath(events, i, path) && IsVersionedPath(path)
    ensures IsVersionedWrite(c) && c.path == path
  {
  }

  lemma TheWrites(events: seq<TraceEvent>, path: string, at: Indices)
    requires WriteThenEdits(events, path, at)
    ensures WritesPath(events, at.w, path) && WritesPath(events, at.a, path) && WritesPath(events, at.b, path)
  {
  }

  lemma OnlyPlaces(ends: seq<nat>, n: nat, i: nat, j: nat, k: nat)
    requires Increasing(ends) && n < |ends| && i < |ends| && j < |ends| && k < |ends|
    requires ends[n] == ends[i] || ends[n] == ends[j] || ends[n] == ends[k]
    ensures n == i || n == j || n == k
  {
  }

  lemma PlaceOf(events: seq<TraceEvent>, ends: seq<nat>, operations: seq<ToolInterval>, path: string, c: ToolInterval) returns (n: nat)
    requires CollectsWrites(events, ends, operations) && c in operations && c.path == path
    ensures n < |operations| && n < |ends| && operations[n] == c && WritesPath(events, ends[n], path)
  {
    n :| n < |operations| && operations[n] == c;
    assert ends[n] in ends;
    assert OperationAt(events, ends[n], operations[n]);
  }

  // ---------------------------------------------------------------- their orders

  lemma UndisturbedCalls(x: ToolInterval, y: ToolInterval, a: ToolInterval, b: ToolInterval, sep: char, l: string, r: string)
    requires Undisturbed(x, y, sep, l, r) && a.toolName == x.toolName && a.args == x.args && b.toolName == y.toolName && b.args == y.args
    ensures Undisturbed(a, b, sep, l, r) && Edited(a, l) == Edited(x, l) && Edited(b, r) == Edited(y, r)
  {
  }

  lemma ThreeTimed(events: seq<TraceEvent>, path: string, at: Indices, w: ToolInterval, a: ToolInterval, b: ToolInterval)
    requires DistinctEventIds(events)
    requires WriteThenEdits(events, path, at)
    requires Is(events, at.w, at.startW, w) && Is(events, at.a, at.startA, a) && Is(events, at.b, at.startB, b)
    ensures MustPrecede(w, a) && MustPrecede(w, b) && Concurrent(a, b) && WellTimed({w, a, b}) && a != b && w != a && w != b
  {
    Differ(events, at.w, at.a);
    Differ(events, at.w, at.b);
    Differ(events, at.a, at.b);
  }

  lemma Differ(events: seq<TraceEvent>, i: nat, j: nat)
    requires i < |events| && j < |events| && i != j
    requires DistinctEventIds(events)
    ensures events[i].eventId != events[j].eventId
  {
  }

  lemma SubsetSize<T>(s: set<T>, t: set<T>)
    requires s <= t
    ensures |s| <= |t|
  {
    if s != {} {
      var x :| x in s;
      SubsetSize(s - {x}, t - {x});
    }
  }

  lemma FewPrefixes(w: ToolInterval, a: ToolInterval, b: ToolInterval)
    requires MustPrecede(w, a) && MustPrecede(w, b)
    ensures |ValidPrefixes({w, a, b}, None)| <= 6
  {
    var all := {[], [w], [w, a], [w, b], [w, a, b], [w, b, a]};
    forall p | p in ValidPrefixes({w, a, b}, None) ensures p in all { OnePrefix(p, w, a, b); }
    SubsetSize(ValidPrefixes({w, a, b}, None), all);
    SixAtMost([], [w], [w, a], [w, b], [w, a, b], [w, b, a]);
  }

  lemma SixAtMost<T>(a: T, b: T, c: T, d: T, e: T, f: T)
    ensures |{a, b, c, d, e, f}| <= 6
  {
  }

  lemma OnePrefix(p: seq<ToolInterval>, w: ToolInterval, a: ToolInterval, b: ToolInterval)
    requires MustPrecede(w, a) && MustPrecede(w, b) && p in ValidPrefixes({w, a, b}, None)
    ensures p == [] || p == [w] || p == [w, a] || p == [w, b] || p == [w, a, b] || p == [w, b, a]
  {
    ValidPrefixesMeaning(p, {w, a, b}, None);
    assert forall i :: 0 <= i < |p| ==> p[i] in {w, a, b};
    if p != [] {
      assert w !in p[..0];
      assert p[0] == w;
      AtMostThree(p, w, a, b);
    }
  }

  lemma AtMostThree(p: seq<ToolInterval>, w: ToolInterval, a: ToolInterval, b: ToolInterval)
    requires Distinct(p) && (forall i :: 0 <= i < |p| ==> p[i] in {w, a, b}) && p != [] && p[0] == w
    ensures |p| <= 3 && forall i :: 1 <= i < |p| ==> p[i] == a || p[i] == b
    ensures |p| == 3 ==> p[1] != p[2]
  {
    DistinctLength(p, {w, a, b});
    assert forall i :: 1 <= i < |p| ==> p[i] != p[0];
  }

  lemma {:induction false} DistinctLength<T>(p: seq<T>, s: set<T>)
    requires Distinct(p) && forall i :: 0 <= i < |p| ==> p[i] in s
    ensures |p| <= |s|
    decreases |p|
  {
    if p != [] {
      var n := |p| - 1;
      assert forall i :: 0 <= i < n ==> p[i] != p[n];
      DistinctLength(p[..n], s - {p[n]});
    }
  }

  // ---------------------------------------------------------------- the head

  /** With one outcome within the limit, that is the recovered content, whatever was read. */
  lemma OneOutcome(path: string, operations: seq<ToolInterval>, observations: seq<ReadObservation>, text: string,
                   answer: Result<Head, RecoveryError>)
    requires ReconstructSpec(path, operations, observations, answer)
    requires Outcomes(OpsOf(operations), None) == {text} && |ValidPrefixes(OpsOf(operations), None)| <= MAX_LINEARIZATIONS
    requires operations != []
    ensures answer.Ok? && answer.value.path == path && answer.value.content == text && answer.value.hash == Sha256(text)
  {
    var ops := OpsOf(operations);
    assert Survivors(ops, observations) == {text};
    var c: Candidate :| Survivors(ops, observations) == {c.content} && IsWitness(c.order, ops, None, c.content)
                        && answer == MakeHead(path, c, observations);
    assert c.content in {text};
    assert operations[0] in ops && operations[0] in c.order;
  }

  /** The trace of a write and two overlapping edits on different sides of a separator, with
      any other events and reads around them, is recovered: the head of the path has the text
      with both edits made. */
  lemma OverlappingEditsRecovered(events: seq<TraceEvent>, ends: seq<nat>, operations: seq<ToolInterval>,
                                  observations: seq<ReadObservation>, path: string, at: Indices, l: string, sep: char, r: string,
                                  answer: Result<Head, RecoveryError>)
    requires DistinctEventIds(events)
    requires CollectsWrites(events, ends, operations) && IsVersionedPath(path)
    requires WriteThenEdits(events, path, at) && EditsTwoSides(events, at, l, sep, r)
    requires HeadFor(operations, observations, path, answer)
    ensures var text := Edited(CallOf(events[at.a]), l) + [sep] + Edited(CallOf(events[at.b]), r);
            answer.Ok? && answer.value.path == path && answer.value.content == text && answer.value.hash == Sha256(text)
  {
    var w, a, b := ThreeOperations(events, ends, operations, path, at);
    ThreeTimed(events, path, at, w, a, b);
    UndisturbedCalls(CallOf(events[at.a]), CallOf(events[at.b]), a, b, sep, l, r);
    OverlappingEdits(w, a, b, sep, l, r);
    FewPrefixes(w, a, b);
    assert w in OpsOf(WritesTo(operations, path));
    OneOutcome(path, WritesTo(operations, path), ReadsOf(observations, path), Edited(a, l) + [sep] + Edited(b, r), answer);
  }
}
