/** The evidence gate that consumes the recovered heads, and the theorem that connects it to
    the recovery. */
module Eligibility {
  import opened Wrappers
  import opened Text
  import opened Intervals
  import opened Observations
  import opened ReadLines
  import opened Recovery
  import opened Heads
  import opened Collecting

  // ---------------------------------------------------------------- the gate

  predicate IsSuccessfulWrite(e: TraceEvent) {
    IsSuccessfulToolEnd(e) && IsWriteTool(e.toolName) && e.toolCallId != "" && IsVersionedPath(GatePath(RawPathOf(e)))
  }

  /** The versioned paths the gate expects a revision for. */
  function ExpectedPaths(events: seq<TraceEvent>): set<string> {
    set e | e in events && IsSuccessfulWrite(e) :: GatePath(RawPathOf(e))
  }

  /** The paths of the revisions that a recovery stored, as the gate reads them. */
  function RecoveredPaths(heads: seq<Head>): set<string> {
    set h | h in heads :: GatePath(Str(h.path))
  }

  /** N in `artifact_revision_missing:N` once recovery revisions exist. */
  function MissingWriteCount(events: seq<TraceEvent>, heads: seq<Head>): nat {
    |ExpectedPaths(events) - RecoveredPaths(heads)|
  }

  /** Some successful write to `path` has its start event. */
  ghost predicate HasStartedWrite(events: seq<TraceEvent>, path: string) {
    exists e :: e in events && IsCollected(events, e) && IsWriteTool(e.toolName) && RecoveryPath(RawPathOf(e)) == path
  }

  lemma WrittenPathsMeaning(events: seq<TraceEvent>, path: string)
    ensures path in WrittenPaths(WriteIntervals(events, events)) <==> IsVersionedPath(path) && HasStartedWrite(events, path)
  {
    var operations := WriteIntervals(events, events);
    if path in WrittenPaths(operations) {
      var a :| a in operations && IsVersionedWrite(a) && a.path == path;
      WriteIntervalsMember(events, events, a);
    }
    if IsVersionedPath(path) && HasStartedWrite(events, path) {
      var e :| e in events && IsCollected(events, e) && IsWriteTool(e.toolName) && RecoveryPath(RawPathOf(e)) == path;
      WriteIntervalsMember(events, events, IntervalOf(events, e));
      assert WritesAs(events, e, IntervalOf(events, e));
    }
  }

  /** The recovered paths, as the gate reads them, are exactly the versioned paths that the
      recovery saw a started write to. */
  lemma RecoveredPathsMeaning(events: seq<TraceEvent>, heads: seq<Head>, path: string)
    requires forall p :: p in PathsOf(heads) <==> p in WrittenPaths(WriteIntervals(events, events))
    ensures path in RecoveredPaths(heads) <==> IsVersionedPath(path) && HasStartedWrite(events, path)
  {
    forall h | h in heads ensures GatePath(Str(h.path)) == h.path && h.path in PathsOf(heads) {
      var i :| 0 <= i < |heads| && heads[i] == h;
      assert PathsOf(heads)[i] == h.path;
      WrittenPathsMeaning(events, h.path);
      var e :| e in events && IsCollected(events, e) && IsWriteTool(e.toolName) && RecoveryPath(RawPathOf(e)) == h.path;
      PathsAgree(RawPathOf(e));
    }
    WrittenPathsMeaning(events, path);
    if path in PathsOf(heads) {
      var i :| 0 <= i < |PathsOf(heads)| && PathsOf(heads)[i] == path;
      assert heads[i] in heads && GatePath(Str(heads[i].path)) == path;
    }
  }

  /** Recovery closes the gap: after a successful recovery the gate misses no write exactly
      when every expected path has some successful write whose start event is in the trace. */
  lemma RecoveryClosesGap(events: seq<TraceEvent>, heads: seq<Head>)
    requires forall p :: p in PathsOf(heads) <==> p in WrittenPaths(WriteIntervals(events, events))
    ensures MissingWriteCount(events, heads) == 0 <==> forall p :: p in ExpectedPaths(events) ==> HasStartedWrite(events, p)
    ensures (forall e :: e in events && IsSuccessfulWrite(e) ==> IsCollected(events, e)) ==> MissingWriteCount(events, heads) == 0
  {
    var missing := ExpectedPaths(events) - RecoveredPaths(heads);
    forall p | p in ExpectedPaths(events) ensures p in missing <==> !HasStartedWrite(events, p) {
      RecoveredPathsMeaning(events, heads, p);
    }
    if missing != {} {
      var p :| p in missing;
      assert p in ExpectedPaths(events) && !HasStartedWrite(events, p);
    }
    if forall e :: e in events && IsSuccessfulWrite(e) ==> IsCollected(events, e) {
      forall p | p in ExpectedPaths(events) ensures HasStartedWrite(events, p) {
        var e :| e in events && IsSuccessfulWrite(e) && GatePath(RawPathOf(e)) == p;
        PathsAgree(RawPathOf(e));
      }
    }
  }

  // ---------------------------------------------------------------- the count, said of the events

  /** A write call with an id that ended well. */
  ghost predicate WroteWell(e: TraceEvent) {
    && e.kind == "tool_end" && e.status == "completed" && e.resultStatus != "error" && e.toolCallId != ""
    && (e.toolName == "write_file" || e.toolName == "edit_file")
  }

  /** The gate expects a revision of `path`: some write to it ended well. */
  ghost predicate IsExpected(events: seq<TraceEvent>, path: string) {
    IsVersionedPath(path) && exists e :: e in events && WroteWell(e) && GatePath(RawPathOf(e)) == path
  }

  /** Such an event, and a start of its call. */
  ghost predicate StartsWrite(start: TraceEvent, e: TraceEvent, path: string) {
    && WroteWell(e) && RecoveryPath(RawPathOf(e)) == path
    && start.kind == "tool_start" && start.toolCallId == e.toolCallId
  }

  ghost predicate IsStarted(events: seq<TraceEvent>, path: string) {
    exists start, e :: start in events && e in events && StartsWrite(start, e, path)
  }

  /** `missing` are the paths with writes that ended well, none of which started in the trace. */
  ghost predicate LacksStarts(events: seq<TraceEvent>, missing: set<string>) {
    forall path :: path in missing <==> IsExpected(events, path) && !IsStarted(events, path)
  }

  lemma ExpectedMeaning(events: seq<TraceEvent>, path: string)
    ensures path in ExpectedPaths(events) <==> IsExpected(events, path)
  {
    if IsExpected(events, path) {
      var e :| e in events && WroteWell(e) && GatePath(RawPathOf(e)) == path;
      assert IsSuccessfulWrite(e);
    }
  }

  lemma StartedMeaning(events: seq<TraceEvent>, path: string)
    ensures HasStartedWrite(events, path) <==> IsStarted(events, path)
  {
    if HasStartedWrite(events, path) {
      var e :| e in events && IsCollected(events, e) && IsWriteTool(e.toolName) && RecoveryPath(RawPathOf(e)) == path;
      var j := StartFound(events, e.toolCallId);
      assert StartsWrite(events[j], e, path);
    }
    if IsStarted(events, path) {
      var start, e :| start in events && e in events && StartsWrite(start, e, path);
      var j := StartFound(events, e.toolCallId);
      assert IsCollected(events, e);
    }
  }

  lemma MissingExactly(events: seq<TraceEvent>, heads: seq<Head>)
    requires forall p :: p in PathsOf(heads) <==> p in WrittenPaths(WriteIntervals(events, events))
    ensures LacksStarts(events, ExpectedPaths(events) - RecoveredPaths(heads))
  {
    forall path ensures path in ExpectedPaths(events) - RecoveredPaths(heads) <==> IsExpected(events, path) && !IsStarted(events, path) {
      ExpectedMeaning(events, path);
      StartedMeaning(events, path);
      RecoveredPathsMeaning(events, heads, path);
    }
  }

  ghost predicate Collected(events: seq<TraceEvent>, operations: seq<ToolInterval>, observations: seq<ReadObservation>) {
    && (exists ends :: CollectsWrites(events, ends, operations))
    && exists ends :: CollectsReads(events, ends, observations)
  }

  lemma NoneLacking(events: seq<TraceEvent>, missing: set<string>)
    requires LacksStarts(events, missing)
    ensures |missing| == 0 <==> forall path :: IsExpected(events, path) ==> IsStarted(events, path)
  {
    if missing != {} {
      var path :| path in missing;
      assert IsExpected(events, path) && !IsStarted(events, path);
    }
  }

  lemma CollectedIdsUnique(events: seq<TraceEvent>)
    requires DistinctEventIds(events)
    ensures UniqueIds(OpsOf(WriteIntervals(events, events)))
  {
    forall a, b | a in WriteIntervals(events, events) && b in WriteIntervals(events, events) && a.eventId == b.eventId
      ensures a == b
    {
      WriteIntervalsMember(events, events, a);
      WriteIntervalsMember(events, events, b);
      var e :| e in events && WritesAs(events, e, a);
      var f :| f in events && WritesAs(events, f, b);
      SameId(events, e, f);
    }
  }

  lemma SameId(events: seq<TraceEvent>, e: TraceEvent, f: TraceEvent)
    requires DistinctEventIds(events) && e in events && f in events && e.eventId == f.eventId
    ensures e == f
  {
  }

  /** Recover a trace and count the writes that the gate still misses: the versioned paths with
      writes that ended well, none of which has its start event in the trace. */
  method RecoverAndCount(events: seq<TraceEvent>) returns (r: Result<nat, RecoveryError>)
    requires DistinctEventIds(events)
    ensures r.Ok? ==> exists missing :: LacksStarts(events, missing) && r.value == |missing|
    ensures r.Err? ==> exists operations, observations, path, earlier ::
                         Collected(events, operations, observations) && FailsAt(operations, observations, path, earlier, r.error)
    ensures r.Ok? ==> (r.value == 0 <==> forall path :: IsExpected(events, path) ==> IsStarted(events, path))
    ensures r.Ok? && (forall e :: e in events && IsSuccessfulWrite(e) ==> IsCollected(events, e)) ==> r.value == 0
  {
    var operations, observations := CollectIntervals(events);
    CollectedIdsUnique(events);
    var heads := ReconstructHeads(operations, observations);
    if heads.Err? { return Err(heads.error); }
    RecoveryClosesGap(events, heads.value);
    MissingExactly(events, heads.value);
    NoneLacking(events, ExpectedPaths(events) - RecoveredPaths(heads.value));
    return Ok(MissingWriteCount(events, heads.value));
  }

  // ---------------------------------------------------------------- the candidate query

  /** The columns of a run that decide whether it may be a source. `approved` is 0 for NULL;
      `auditReason` is the reason inside the cancel audit, if there is one. */
  datatype RunRow = RunRow(schemaVersion: int, service: string, workload: string, integrity: string, status: string,
                           auditReason: Option<string>, approved: int, revokedAt: Option<string>)

  /** `_is_approved_user_stop`: Python truthiness. */
  predicate IsApprovedUserStop(row: RunRow) {
    && row.status == "cancelled" && row.approved != 0
    && (row.revokedAt.None? || row.revokedAt == Some("")) && row.auditReason == Some("user_stop")
  }

  /** No source gap in the full assessment. */
  predicate SourceAccepted(row: RunRow) {
    && row.schemaVersion >= 2 && row.service == "executor" && row.workload == "creation"
    && (row.status == "completed" || IsApprovedUserStop(row)) && row.integrity == "verified"
  }

  /** The WHERE clause of the candidate query. */
  predicate QuerySelects(row: RunRow) {
    && row.schemaVersion >= 2 && row.service == "executor" && row.workload == "creation" && row.integrity == "verified"
    && (row.status == "completed"
        || (row.status == "cancelled" && row.auditReason == Some("user_stop") && row.approved == 1 && row.revokedAt.None?))
  }
}
