/** Live traces: events of a run arrive one by one, in any order and possibly again, and each
    arrival projects the sorted events anew. */
module LiveTrace {
  import opened Wrappers
  import opened Text
  import opened TraceNodes
  import opened TraceProjection

  /** The part of a run summary that events update. */
  datatype Run = Run(traceId: string, status: string, eventCount: int)

  datatype Detail = Detail(run: Run, events: seq<TraceEvent>, nodes: seq<Node>, context: seq<Segment>, todos: seq<TraceEvent>)

  function Max(a: int, b: int): int {
    if a < b then b else a
  }

  /** `updateRunFromEvent`. */
  function UpdateRun(run: Run, e: TraceEvent): Run {
    if e.kind.RunEnd? || e.kind.RunError? || e.kind.RunCancelled? then run.(status := e.status, eventCount := e.sequence)
    else if e.kind.RunAwaiting? then run.(status := "awaiting_input", eventCount := Max(run.eventCount, e.sequence))
    else run.(status := if e.status == "failed" then "failed" else run.status, eventCount := Max(run.eventCount, e.sequence))
  }

  function RunNode(run: Run, events: seq<TraceEvent>): Node {
    Node(RunId, None, RunKind, run.status, events, None)
  }

  function WithoutId(events: seq<TraceEvent>, id: string): seq<TraceEvent> {
    if events == [] then []
    else (if events[0].eventId == id then [] else [events[0]]) + WithoutId(events[1..], id)
  }

  /** The place of the last element in a stable sort: after everything that is not larger. */
  function InsertBySequence(sorted: seq<TraceEvent>, e: TraceEvent): seq<TraceEvent> {
    if sorted == [] || sorted[|sorted| - 1].sequence <= e.sequence then sorted + [e]
    else InsertBySequence(sorted[..|sorted| - 1], e) + [sorted[|sorted| - 1]]
  }

  /** `sort((left, right) => left.sequence - right.sequence)`. */
  function SortBySequence(events: seq<TraceEvent>): seq<TraceEvent> {
    if events == [] then [] else InsertBySequence(SortBySequence(events[..|events| - 1]), events[|events| - 1])
  }

  /** One projection of a whole event list. */
  function Batch(run: Run, events: seq<TraceEvent>): Detail {
    Detail(run, events, [RunNode(run, events)] + Projection(events), StateAfter(events).context, StateAfter(events).todos)
  }

  /** The events of the trace that are on display. */
  function EventsOf(current: Option<Detail>, traceId: string): seq<TraceEvent> {
    if current.Some? && current.value.run.traceId == traceId then current.value.events else []
  }

  function NextEvents(events: seq<TraceEvent>, e: TraceEvent): seq<TraceEvent> {
    SortBySequence(WithoutId(events, e.eventId) + [e])
  }

  function Append(current: Option<Detail>, e: TraceEvent, fallback: Run): Detail {
    var base := if current.Some? && current.value.run.traceId == e.traceId then current.value.run else fallback;
    Batch(UpdateRun(base, e), NextEvents(EventsOf(current, e.traceId), e))
  }

  // ---------------------------------------------------------------- sorted lists

  ghost predicate Sorted(events: seq<TraceEvent>) {
    forall i, j :: 0 <= i < j < |events| ==> events[i].sequence <= events[j].sequence
  }

  lemma NotAfter(rest: seq<TraceEvent>, init: seq<TraceEvent>, e: TraceEvent, last: TraceEvent)
    requires multiset(rest) == multiset(init) + multiset{e} && e.sequence <= last.sequence
    requires forall i :: 0 <= i < |init| ==> init[i].sequence <= last.sequence
    ensures forall i :: 0 <= i < |rest| ==> rest[i].sequence <= last.sequence
  {
    forall i | 0 <= i < |rest| ensures rest[i].sequence <= last.sequence {
      assert rest[i] in multiset(rest);
    }
  }

  lemma SortedSnoc(events: seq<TraceEvent>, e: TraceEvent)
    requires Sorted(events) && forall i :: 0 <= i < |events| ==> events[i].sequence <= e.sequence
    ensures Sorted(events + [e])
  {
  }

  lemma CountParts(sorted: seq<TraceEvent>, rest: seq<TraceEvent>, e: TraceEvent)
    requires sorted != [] && multiset(rest) == multiset(sorted[..|sorted| - 1]) + multiset{e}
    ensures multiset(rest + [sorted[|sorted| - 1]]) == multiset(sorted) + multiset{e}
  {
    InitAndLast(sorted);
  }

  lemma {:induction false} InsertSorted(sorted: seq<TraceEvent>, e: TraceEvent)
    requires Sorted(sorted)
    ensures Sorted(InsertBySequence(sorted, e))
    ensures multiset(InsertBySequence(sorted, e)) == multiset(sorted) + multiset{e}
  {
    if sorted == [] || sorted[|sorted| - 1].sequence <= e.sequence {
      SortedSnoc(sorted, e);
    } else {
      var init, last := sorted[..|sorted| - 1], sorted[|sorted| - 1];
      InsertSorted(init, e);
      NotAfter(InsertBySequence(init, e), init, e, last);
      SortedSnoc(InsertBySequence(init, e), last);
      CountParts(sorted, InsertBySequence(init, e), e);
    }
  }

  lemma {:induction false} SortedBySequence(events: seq<TraceEvent>)
    ensures Sorted(SortBySequence(events)) && multiset(SortBySequence(events)) == multiset(events)
  {
    if events != [] {
      SortedBySequence(events[..|events| - 1]);
      InsertSorted(SortBySequence(events[..|events| - 1]), events[|events| - 1]);
      InitAndLast(events);
    }
  }

  ghost predicate SameElements(a: seq<TraceEvent>, b: seq<TraceEvent>) {
    forall e :: e in a <==> e in b
  }

  /** No two different events share a sequence number. */
  ghost predicate DistinctSequences(events: seq<TraceEvent>) {
    forall e, f :: e in events && f in events && e.sequence == f.sequence ==> e == f
  }

  ghost predicate NoRepeats(events: seq<TraceEvent>) {
    forall i, j :: 0 <= i < j < |events| ==> events[i] != events[j]
  }

  /** A set of events with distinct sequence numbers has one sorted listing. */
  lemma {:induction false} SortedUnique(a: seq<TraceEvent>, b: seq<TraceEvent>)
    requires Sorted(a) && Sorted(b) && NoRepeats(a) && NoRepeats(b) && SameElements(a, b) && DistinctSequences(a)
    ensures a == b
    decreases |a|
  {
    HasMember(a);
    HasMember(b);
    if a != [] {
      LastIsLargest(a, b);
      InitElements(a);
      InitElements(b);
      var initA, initB := a[..|a| - 1], b[..|b| - 1];
      forall e ensures e in initA <==> e in initB {
        assert e in a <==> e in b;
      }
      SortedUnique(a[..|a| - 1], b[..|b| - 1]);
      InitAndLast(a);
      InitAndLast(b);
    }
  }

  lemma HasMember(a: seq<TraceEvent>)
    ensures a == [] || exists e :: e in a
  {
    if a != [] { assert a[0] in a; }
  }

  lemma LastIsLargest(a: seq<TraceEvent>, b: seq<TraceEvent>)
    requires Sorted(a) && Sorted(b) && SameElements(a, b) && DistinctSequences(a) && a != [] && b != []
    ensures a[|a| - 1] == b[|b| - 1]
  {
    var x, y := a[|a| - 1], b[|b| - 1];
    assert x in b && y in a;
    var i :| 0 <= i < |b| && b[i] == x;
    var j :| 0 <= j < |a| && a[j] == y;
  }

  lemma InitElements(a: seq<TraceEvent>)
    requires NoRepeats(a) && a != []
    ensures NoRepeats(a[..|a| - 1]) && forall e :: e in a[..|a| - 1] <==> e in a && e != a[|a| - 1]
  {
    InitAndLast(a);
  }

  lemma {:induction false} WithoutIdElements(events: seq<TraceEvent>, id: string)
    ensures forall e :: e in WithoutId(events, id) <==> e in events && e.eventId != id
    ensures UniqueEventIds(events) ==> UniqueEventIds(WithoutId(events, id))
  {
    if events != [] {
      WithoutIdElements(events[1..], id);
      assert events == [events[0]] + events[1..];
    }
  }

  // ---------------------------------------------------------------- arrivals

  /** The events shown after some arrivals. */
  function Arrived(start: seq<TraceEvent>, feed: seq<TraceEvent>): seq<TraceEvent> {
    if feed == [] then start else NextEvents(Arrived(start, feed[..|feed| - 1]), feed[|feed| - 1])
  }

  /** The last version of each event. */
  ghost predicate IsLatest(feed: seq<TraceEvent>, e: TraceEvent) {
    feed != [] &&
    (e == feed[|feed| - 1] || (e.eventId != feed[|feed| - 1].eventId && IsLatest(feed[..|feed| - 1], e)))
  }

  lemma NextElements(events: seq<TraceEvent>, e: TraceEvent)
    requires UniqueEventIds(events)
    ensures Sorted(NextEvents(events, e)) && UniqueEventIds(NextEvents(events, e))
    ensures forall x :: x in NextEvents(events, e) <==> x == e || (x in events && x.eventId != e.eventId)
  {
    var kept := WithoutId(events, e.eventId);
    WithoutIdElements(events, e.eventId);
    SortedBySequence(kept + [e]);
    SameMultiset(NextEvents(events, e), kept + [e]);
  }

  lemma SameMultiset(a: seq<TraceEvent>, b: seq<TraceEvent>)
    requires multiset(a) == multiset(b) && UniqueEventIds(b)
    ensures UniqueEventIds(a) && forall e :: e in a <==> e in b
  {
    forall e ensures e in a <==> e in b {
      assert e in multiset(a) <==> e in multiset(b);
    }
    forall i, j | 0 <= i < j < |a| ensures a[i].eventId != a[j].eventId {
      if a[i].eventId == a[j].eventId {
        assert a[i] in b && a[j] in b;
        Twice(a, i, j);
        AtMostOnce(b, a[i]);
      }
    }
  }

  lemma Twice(a: seq<TraceEvent>, i: int, j: int)
    requires 0 <= i < j < |a| && a[i] == a[j]
    ensures multiset(a)[a[i]] >= 2
  {
    assert a == a[..j] + [a[j]] + a[j + 1..];
    assert a[i] in a[..j];
  }

  lemma {:induction false} AtMostOnce(b: seq<TraceEvent>, e: TraceEvent)
    requires UniqueEventIds(b)
    ensures multiset(b)[e] <= 1
  {
    if b != [] {
      AtMostOnce(b[1..], e);
      assert b == [b[0]] + b[1..];
      if e == b[0] { assert e !in b[1..]; }
    }
  }

  lemma {:induction false} ArrivedElements(feed: seq<TraceEvent>)
    ensures Sorted(Arrived([], feed)) && UniqueEventIds(Arrived([], feed))
    ensures forall e :: e in Arrived([], feed) <==> IsLatest(feed, e)
  {
    if feed != [] {
      var init, last := feed[..|feed| - 1], feed[|feed| - 1];
      ArrivedElements(init);
      NextElements(Arrived([], init), last);
    }
  }

  /** A repeated id always brings the same event. */
  ghost predicate Consistent(feed: seq<TraceEvent>) {
    forall e, f :: e in feed && f in feed && e.eventId == f.eventId ==> e == f
  }

  lemma {:induction false} LatestIsAny(feed: seq<TraceEvent>, e: TraceEvent)
    requires Consistent(feed)
    ensures IsLatest(feed, e) <==> e in feed
  {
    if feed != [] {
      LatestIsAny(feed[..|feed| - 1], e);
      InitAndLast(feed);
    }
  }

  /** Whatever order the events arrive in and however often: two feeds of the same events show
      the same list, so every node but the run node, all context and all todos agree. */
  lemma OrderIrrelevant(feed: seq<TraceEvent>, other: seq<TraceEvent>)
    requires SameElements(feed, other) && Consistent(feed) && DistinctSequences(feed)
    ensures Arrived([], feed) == Arrived([], other)
  {
    ArrivedElements(feed);
    ArrivedElements(other);
    forall e ensures (e in Arrived([], feed) <==> e in feed) && (e in Arrived([], other) <==> e in feed) {
      LatestIsAny(feed, e);
      LatestIsAny(other, e);
      assert e in feed <==> e in other;
    }
    SortedUnique(Arrived([], feed), Arrived([], other));
  }

  /** The list shown live is what sorting a complete list of the events gives. */
  lemma LiveIsSorted(feed: seq<TraceEvent>, complete: seq<TraceEvent>)
    requires SameElements(feed, complete) && UniqueEventIds(complete) && Consistent(feed) && DistinctSequences(feed)
    ensures Arrived([], feed) == SortBySequence(complete)
  {
    ArrivedElements(feed);
    SortedBySequence(complete);
    SameMultiset(SortBySequence(complete), complete);
    forall e ensures e in Arrived([], feed) <==> e in SortBySequence(complete) {
      LatestIsAny(feed, e);
      assert e in feed <==> e in complete;
    }
    forall e, f | e in Arrived([], feed) && f in Arrived([], feed) && e.sequence == f.sequence ensures e == f {
      LatestIsAny(feed, e);
      LatestIsAny(feed, f);
    }
    SortedUnique(Arrived([], feed), SortBySequence(complete));
  }

  /** The detail is a projection of its own events. */
  ghost predicate IsProjected(d: Detail) {
    && d.nodes == [RunNode(d.run, d.events)] + Projection(d.events)
    && d.nodes[0].id == RunId && d.nodes[0].parent.None? && d.nodes[0].kind.RunKind?
    && d.nodes[0].status == d.run.status && d.nodes[0].events == d.events
    && d.context == StateAfter(d.events).context && d.todos == StateAfter(d.events).todos
  }

  /** Any number of arrivals of one trace, starting without a detail. */
  method Follow(feed: seq<TraceEvent>, fallback: Run) returns (detail: Option<Detail>)
    requires forall e :: e in feed ==> e.traceId == fallback.traceId
    ensures detail.None? <==> feed == []
    ensures detail.Some? ==> detail.value.run.traceId == fallback.traceId && detail.value.events == Arrived([], feed)
    ensures detail.Some? ==> IsProjected(detail.value)
  {
    detail := None;
    for i := 0 to |feed|
      invariant detail.None? <==> i == 0
      invariant detail.Some? ==> detail.value.run.traceId == fallback.traceId
      invariant EventsOf(detail, fallback.traceId) == Arrived([], feed[..i])
      invariant detail.Some? ==> IsProjected(detail.value)
    {
      ArrivedOne(feed, i);
      AppendIsProjected(detail, feed[i], fallback);
      var next := AppendLiveTraceEvent(detail, feed[i], fallback);
      detail := Some(next);
    }
    assert feed[..|feed|] == feed;
  }

  lemma AppendIsProjected(current: Option<Detail>, e: TraceEvent, fallback: Run)
    requires e.traceId == fallback.traceId
    ensures var next := Append(current, e, fallback);
            && next.run.traceId == fallback.traceId
            && next.events == NextEvents(EventsOf(current, e.traceId), e) && IsProjected(next)
  {
  }

  lemma ArrivedOne(feed: seq<TraceEvent>, i: nat)
    requires i < |feed|
    ensures Arrived([], feed[..i + 1]) == NextEvents(Arrived([], feed[..i]), feed[i])
  {
    assert feed[..i + 1][..i] == feed[..i];
  }

  /** Live equals batch: after all arrivals, in any order and with repeats, everything but the
      run node is what one projection of the sorted events gives. */
  method FollowAndCompare(feed: seq<TraceEvent>, complete: seq<TraceEvent>, fallback: Run)
    returns (live: Option<Detail>, batch: Detail)
    requires forall e :: e in feed ==> e.traceId == fallback.traceId
    requires feed != [] && SameElements(feed, complete) && UniqueEventIds(complete)
    requires Consistent(feed) && DistinctSequences(feed)
    ensures live.Some? && live.value.events == batch.events == SortBySequence(complete)
    ensures |live.value.nodes| > 0 && |batch.nodes| > 0
    ensures live.value.nodes[1..] == batch.nodes[1..] == Projection(SortBySequence(complete))
    ensures live.value.context == batch.context && live.value.todos == batch.todos
  {
    live := Follow(feed, fallback);
    var events := SortBySequence(complete);
    var nodes, context, todos := ProjectTraceDetail(events);
    batch := Detail(fallback, events, [RunNode(fallback, events)] + nodes, context, todos);
    LiveIsSorted(feed, complete);
  }

  /** `e` stands behind all events that are not later. */
  ghost predicate LastOfItsSequence(events: seq<TraceEvent>, e: TraceEvent) {
    exists k :: 0 <= k < |events| && events[k] == e && forall j :: k < j < |events| ==> events[j].sequence > e.sequence
  }

  lemma {:induction false} InsertedLast(sorted: seq<TraceEvent>, e: TraceEvent)
    requires Sorted(sorted)
    ensures LastOfItsSequence(InsertBySequence(sorted, e), e)
  {
    var r := InsertBySequence(sorted, e);
    if sorted == [] || sorted[|sorted| - 1].sequence <= e.sequence {
      assert r[|r| - 1] == e;
    } else {
      var init := InsertBySequence(sorted[..|sorted| - 1], e);
      InsertedLast(sorted[..|sorted| - 1], e);
      var k :| 0 <= k < |init| && init[k] == e && forall j :: k < j < |init| ==> init[j].sequence > e.sequence;
      assert r[k] == e;
    }
  }

  /** The list after the arrival of `e`, when `events` were shown before. */
  ghost predicate Placed(events: seq<TraceEvent>, e: TraceEvent, shown: seq<TraceEvent>) {
    && Sorted(shown) && LastOfItsSequence(shown, e)
    && (UniqueEventIds(events) ==>
          && UniqueEventIds(shown)
          && forall x :: x in shown <==> x == e || (x in events && x.eventId != e.eventId))
  }

  lemma AppendedEvents(events: seq<TraceEvent>, e: TraceEvent)
    ensures Placed(events, e, NextEvents(events, e))
  {
    var kept := WithoutId(events, e.eventId);
    assert (kept + [e])[..|kept|] == kept;
    SortedBySequence(kept);
    SortedBySequence(kept + [e]);
    InsertedLast(SortBySequence(kept), e);
    if UniqueEventIds(events) { NextElements(events, e); }
  }

  /** `appendLiveTraceEvent`: the arrived event replaces the one with its id, all others of
      its trace stay; the list is in sequence order, the event behind all that are not later,
      and the nodes, context and todos are the projection of exactly this list. */
  method AppendLiveTraceEvent(current: Option<Detail>, e: TraceEvent, fallback: Run) returns (detail: Detail)
    ensures detail == Append(current, e, fallback)
    ensures Arrives(EventsOf(current, e.traceId), e, detail)
    ensures current.None? || current.value.run.traceId != e.traceId ==> detail.events == [e] && Updates(fallback, e, detail.run)
    ensures current.Some? && current.value.run.traceId == e.traceId ==> Updates(current.value.run, e, detail.run)
    ensures current.Some? && current.value.run.traceId == e.traceId && UniqueEventIds(current.value.events) ==>
              forall x :: x in detail.events <==> x == e || (x in current.value.events && x.eventId != e.eventId)
  {
    var base := if current.Some? && current.value.run.traceId == e.traceId then current.value.run else fallback;
    var events := NextEvents(EventsOf(current, e.traceId), e);
    var run := UpdateRun(base, e);
    var nodes, context, todos := ProjectTraceDetail(events);
    AppendArrives(current, e, fallback);
    AloneAtFirst(e);
    UpdatesRun(base, e);
    return Detail(run, events, [RunNode(run, events)] + nodes, context, todos);
  }

  /** What one event does to the summary: an end, an error or a cancellation sets status and
      count; a pause sets its own status; a failure is noted; and the count never falls. */
  ghost predicate Updates(run: Run, e: TraceEvent, after: Run) {
    var ended := e.kind.RunEnd? || e.kind.RunError? || e.kind.RunCancelled?;
    && after.traceId == run.traceId
    && (ended ==> after.status == e.status && after.eventCount == e.sequence)
    && (!ended ==> && run.eventCount <= after.eventCount && e.sequence <= after.eventCount
                   && (after.eventCount == run.eventCount || after.eventCount == e.sequence))
    && (e.kind.RunAwaiting? ==> after.status == "awaiting_input")
    && (!ended && !e.kind.RunAwaiting? ==> after.status == if e.status == "failed" then "failed" else run.status)
  }

  lemma UpdatesRun(run: Run, e: TraceEvent)
    ensures Updates(run, e, UpdateRun(run, e))
  {
  }

  lemma AloneAtFirst(e: TraceEvent)
    ensures NextEvents([], e) == [e]
  {
    assert WithoutId([], e.eventId) + [e] == [e];
    assert SortBySequence([e]) == InsertBySequence(SortBySequence([]), e) by { assert [e][..0] == []; }
    assert [] + [e] == [e];
  }

  /** What the detail shows after the arrival of `e`, when `events` were shown before. */
  ghost predicate Arrives(events: seq<TraceEvent>, e: TraceEvent, detail: Detail) {
    && IsProjected(detail) && Placed(events, e, detail.events)
    && Noted(detail.run, e)
  }

  /** The run has the status of a final event, and counts up to the event. */
  ghost predicate Noted(run: Run, e: TraceEvent) {
    if IsFinal(e) then run.status == e.status && run.eventCount == e.sequence else run.eventCount >= e.sequence
  }

  lemma UpdateNotes(run: Run, e: TraceEvent)
    ensures Noted(UpdateRun(run, e), e)
  {
  }

  lemma AppendArrives(current: Option<Detail>, e: TraceEvent, fallback: Run)
    ensures Arrives(EventsOf(current, e.traceId), e, Append(current, e, fallback))
  {
    AppendedEvents(EventsOf(current, e.traceId), e);
    UpdateNotes(if current.Some? && current.value.run.traceId == e.traceId then current.value.run else fallback, e);
  }

  // ---------------------------------------------------------------- where arrival shows

  /** All reorderings, with or without repeats, show the same list exactly when the events
      have different sequence numbers. */
  lemma ReorderingShowsExactly(feed: seq<TraceEvent>)
    requires Consistent(feed)
    ensures DistinctSequences(feed) <==> forall other :: SameElements(feed, other) ==> Arrived([], other) == Arrived([], feed)
  {
    if DistinctSequences(feed) {
      forall other | SameElements(feed, other) ensures Arrived([], other) == Arrived([], feed) {
        OrderIrrelevant(feed, other);
      }
    } else {
      var other := DifferentlyShown(feed);
    }
  }

  lemma DifferentlyShown(feed: seq<TraceEvent>) returns (other: seq<TraceEvent>)
    requires Consistent(feed) && !DistinctSequences(feed)
    ensures SameElements(feed, other) && Arrived([], other) != Arrived([], feed)
  {
    var e, f := SharedSequence(feed);
    Repeated(feed, e, f);
    Repeated(feed, f, e);
    RepeatShows(feed, e, f);
    other := if Arrived([], feed + [e, f]) != Arrived([], feed) then feed + [e, f] else feed + [f, e];
  }

  lemma Repeated(feed: seq<TraceEvent>, e: TraceEvent, f: TraceEvent)
    requires e in feed && f in feed
    ensures SameElements(feed, feed + [e, f])
  {
  }

  lemma SharedSequence(feed: seq<TraceEvent>) returns (e: TraceEvent, f: TraceEvent)
    requires Consistent(feed) && !DistinctSequences(feed)
    ensures e in feed && f in feed && e.sequence == f.sequence && e.eventId != f.eventId
  {
    e, f :| e in feed && f in feed && e.sequence == f.sequence && e != f;
  }

  /** Two events of one sequence number stand in the order in which they came last. */
  lemma RepeatShows(feed: seq<TraceEvent>, e: TraceEvent, f: TraceEvent)
    requires e.sequence == f.sequence && e.eventId != f.eventId
    ensures Arrived([], feed + [e, f]) != Arrived([], feed + [f, e])
  {
    LastTwo(feed, e, f);
    LastTwo(feed, f, e);
    var one, two := Arrived([], feed + [e, f]), Arrived([], feed + [f, e]);
    if one == two { OneBehind(one, e, f); }
  }

  lemma LastTwo(feed: seq<TraceEvent>, e: TraceEvent, f: TraceEvent)
    requires e.eventId != f.eventId
    ensures var shown := Arrived([], feed + [e, f]);
            UniqueEventIds(shown) && e in shown && LastOfItsSequence(shown, f)
  {
    var whole := feed + [e, f];
    assert whole[..|whole| - 1] == feed + [e];
    assert (feed + [e])[..|feed|] == feed;
    ArrivedElements(feed);
    AppendedEvents(Arrived([], feed), e);
    AppendedEvents(Arrived([], feed + [e]), f);
  }

  lemma OneBehind(shown: seq<TraceEvent>, e: TraceEvent, f: TraceEvent)
    requires UniqueEventIds(shown) && e.eventId != f.eventId && e.sequence == f.sequence
    requires LastOfItsSequence(shown, e)
    ensures !LastOfItsSequence(shown, f)
  {
  }

  // ---------------------------------------------------------------- the run summary

  predicate IsFinal(e: TraceEvent) {
    e.kind.RunEnd? || e.kind.RunError? || e.kind.RunCancelled?
  }

  /** The status that an event sets, if it sets one. */
  function SetsStatus(e: TraceEvent): Option<string> {
    if IsFinal(e) then Some(e.status)
    else if e.kind.RunAwaiting? then Some("awaiting_input")
    else if e.status == "failed" then Some("failed") else None
  }

  /** The summary after some arrivals. */
  function RunAfter(run: Run, feed: seq<TraceEvent>): Run {
    if feed == [] then run else UpdateRun(RunAfter(run, feed[..|feed| - 1]), feed[|feed| - 1])
  }

  /** `i` is the last place where `p` holds. */
  ghost predicate LastAt(feed: seq<TraceEvent>, i: nat, p: TraceEvent -> bool) {
    i < |feed| && p(feed[i]) && forall j :: i < j < |feed| ==> !p(feed[j])
  }

  /** What the summary shows: the status of the last event that sets one, and the greatest
      sequence number among the last final event and those that came after it. What came
      before the last final event is forgotten. */
  lemma {:induction false} SummaryMeaning(run: Run, feed: seq<TraceEvent>, i: nat)
    ensures LastAt(feed, i, e => SetsStatus(e).Some?) ==> Some(RunAfter(run, feed).status) == SetsStatus(feed[i])
    ensures (forall j :: 0 <= j < |feed| ==> SetsStatus(feed[j]).None?) ==> RunAfter(run, feed).status == run.status
    ensures LastAt(feed, i, IsFinal) ==>
              && (forall j :: i <= j < |feed| ==> feed[j].sequence <= RunAfter(run, feed).eventCount)
              && exists j :: i <= j < |feed| && feed[j].sequence == RunAfter(run, feed).eventCount
    ensures (forall j :: 0 <= j < |feed| ==> !IsFinal(feed[j])) ==>
              && run.eventCount <= RunAfter(run, feed).eventCount
              && (forall j :: 0 <= j < |feed| ==> feed[j].sequence <= RunAfter(run, feed).eventCount)
              && (RunAfter(run, feed).eventCount == run.eventCount
                  || exists j :: 0 <= j < |feed| && feed[j].sequence == RunAfter(run, feed).eventCount)
    decreases |feed|
  {
    if feed != [] {
      var n := |feed| - 1;
      var init := feed[..n];
      SummaryMeaning(run, init, i);
      StatusStep(run, feed, i);
      CountStep(run, feed, i);
    }
  }

  lemma StatusStep(run: Run, feed: seq<TraceEvent>, i: nat)
    requires feed != []
    requires var init := feed[..|feed| - 1];
             && (LastAt(init, i, e => SetsStatus(e).Some?) ==> Some(RunAfter(run, init).status) == SetsStatus(init[i]))
             && ((forall j :: 0 <= j < |init| ==> SetsStatus(init[j]).None?) ==> RunAfter(run, init).status == run.status)
    ensures LastAt(feed, i, e => SetsStatus(e).Some?) ==> Some(RunAfter(run, feed).status) == SetsStatus(feed[i])
    ensures (forall j :: 0 <= j < |feed| ==> SetsStatus(feed[j]).None?) ==> RunAfter(run, feed).status == run.status
  {
    var n := |feed| - 1;
    var init := feed[..n];
    assert forall j :: 0 <= j < n ==> init[j] == feed[j];
    if LastAt(feed, i, e => SetsStatus(e).Some?) && i < n {
      assert LastAt(init, i, e => SetsStatus(e).Some?);
    }
  }

  lemma CountStep(run: Run, feed: seq<TraceEvent>, i: nat)
    requires feed != []
    requires var init := feed[..|feed| - 1];
             && (LastAt(init, i, IsFinal) ==>
                   && (forall j :: i <= j < |init| ==> init[j].sequence <= RunAfter(run, init).eventCount)
                   && exists j :: i <= j < |init| && init[j].sequence == RunAfter(run, init).eventCount)
             && ((forall j :: 0 <= j < |init| ==> !IsFinal(init[j])) ==>
                   && run.eventCount <= RunAfter(run, init).eventCount
                   && (forall j :: 0 <= j < |init| ==> init[j].sequence <= RunAfter(run, init).eventCount)
                   && (RunAfter(run, init).eventCount == run.eventCount
                       || exists j :: 0 <= j < |init| && init[j].sequence == RunAfter(run, init).eventCount))
    ensures LastAt(feed, i, IsFinal) ==>
              && (forall j :: i <= j < |feed| ==> feed[j].sequence <= RunAfter(run, feed).eventCount)
              && exists j :: i <= j < |feed| && feed[j].sequence == RunAfter(run, feed).eventCount
    ensures (forall j :: 0 <= j < |feed| ==> !IsFinal(feed[j])) ==>
              && run.eventCount <= RunAfter(run, feed).eventCount
              && (forall j :: 0 <= j < |feed| ==> feed[j].sequence <= RunAfter(run, feed).eventCount)
              && (RunAfter(run, feed).eventCount == run.eventCount
                  || exists j :: 0 <= j < |feed| && feed[j].sequence == RunAfter(run, feed).eventCount)
  {
    var n := |feed| - 1;
    var init := feed[..n];
    assert forall j :: 0 <= j < n ==> init[j] == feed[j];
    assert feed[n].sequence <= RunAfter(run, feed).eventCount;
    if LastAt(feed, i, IsFinal) && i < n {
      assert LastAt(init, i, IsFinal);
    }
  }

  /** Two arrivals can change places in the summary exactly when they do not set different
      statuses and no final event is followed or preceded by a greater sequence number. */
  lemma RunShowsArrival(run: Run, e: TraceEvent, f: TraceEvent)
    ensures RunAfter(run, [e, f]) == RunAfter(run, [f, e]) <==>
              && (SetsStatus(e).None? || SetsStatus(f).None? || SetsStatus(e) == SetsStatus(f))
              && (IsFinal(e) ==> f.sequence <= e.sequence)
              && (IsFinal(f) ==> e.sequence <= f.sequence)
  {
    assert [e, f][..1] == [e] && [f, e][..1] == [f] && [e][..0] == [] && [f][..0] == [];
  }
}
