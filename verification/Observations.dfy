/** Reads as observations: where in a linearization a read may fall, and whether a
    linearization explains what was read. */
module Observations {
  import opened Wrappers
  import opened Text
  import opened Intervals
  import opened Replay

  /** A successful read; `lines` holds the numbered lines it returned. */
  datatype ReadObservation = ReadObservation(
    start: int, end: int, path: string, lines: map<nat, string>, eventId: string, payloadIds: seq<string>)

  /** Placing the read between `order[k - 1]` and `order[k]` keeps every "ended before
      started" pair in order. */
  ghost predicate CanInsert(order: seq<ToolInterval>, o: ReadObservation, k: int) {
    && 0 <= k <= |order|
    && (forall i :: 0 <= i < k ==> !(o.end < order[i].start))
    && (forall i :: k <= i < |order| ==> !(order[i].end < o.start))
  }

  /** Does a file with this content show all the lines the read returned? */
  predicate MatchesObservation(content: string, lines: map<nat, string>) {
    var all := SplitLines(content);
    forall n <- lines.Keys :: 0 < n <= |all| && all[n - 1] == lines[n]
  }

  /** The index window [minimum, maximum] of one read in one order. */
  method Window(order: seq<ToolInterval>, o: ReadObservation) returns (minimum: nat, maximum: nat)
    ensures minimum <= |order| && maximum <= |order|
    ensures forall k :: minimum <= k <= maximum <==> CanInsert(order, o, k)
  {
    minimum, maximum := 0, |order|;
    for index := 0 to |order|
      invariant minimum <= index && maximum <= |order|
      invariant minimum > 0 ==> order[minimum - 1].end < o.start
      invariant forall i :: minimum <= i < index ==> !(order[i].end < o.start)
      invariant maximum < |order| ==> maximum < index && o.end < order[maximum].start
      invariant forall i :: 0 <= i < index && i < maximum ==> !(o.end < order[i].start)
    {
      if order[index].end < o.start { minimum := index + 1; }
      if order[index].start > o.end { maximum := if index < maximum then index else maximum; }
    }
  }

  /** Operations with their own ids, each starting before it ends. */
  ghost predicate WellFormed(order: seq<ToolInterval>) {
    && (forall i :: 0 <= i < |order| ==> order[i].start <= order[i].end)
    && (forall i, j :: 0 <= i < j < |order| ==> order[i].eventId != order[j].eventId)
  }

  /** In a linearization there is always room for a read: the window is never empty. */
  lemma WindowNonEmpty(order: seq<ToolInterval>, o: ReadObservation) returns (k: nat)
    requires WellFormed(order) && Respects(order) && o.start <= o.end
    ensures CanInsert(order, o, k)
  {
    k := 0;
    for index := 0 to |order|
      invariant k <= index
      invariant k > 0 ==> order[k - 1].end < o.start
      invariant forall i :: k <= i < index ==> !(order[i].end < o.start)
    {
      if order[index].end < o.start { k := index + 1; }
    }
    forall i | 0 <= i < k ensures !(o.end < order[i].start) {
      if i < k - 1 { assert !MustPrecede(order[k - 1], order[i]); }
    }
  }

  // ---------------------------------------------------------------- states along an order

  /** The content before, between and after the operations, up to the first invalid one. */
  function States(file: File, order: seq<ToolInterval>): (r: seq<File>)
    ensures 1 <= |r| <= |order| + 1
    decreases |order|
  {
    if order == [] || Apply(file, order[0]).None? then [file]
    else [file] + States(Apply(file, order[0]), order[1..])
  }

  /** The state at index k is what replaying the first k operations gives. */
  lemma {:induction false} StatesMeaning(file: File, order: seq<ToolInterval>, k: nat)
    requires k <= |order|
    ensures k < |States(file, order)| <==> Run(file, order[..k]).Reached?
    ensures k < |States(file, order)| ==> Run(file, order[..k]) == Reached(States(file, order)[k])
    decreases |order|
  {
    if k > 0 {
      assert order[..k] == [order[0]] + order[1..][..k - 1];
      if Apply(file, order[0]).Some? { StatesMeaning(Apply(file, order[0]), order[1..], k - 1); }
    }
  }

  method StatesForOrder(order: seq<ToolInterval>) returns (states: seq<File>)
    ensures states == States(None, order)
  {
    states := [None];
    var content: File := None;
    ghost var earlier: seq<File> := [];
    assert order[0..] == order;
    for i := 0 to |order|
      invariant states == earlier + [content]
      invariant States(None, order) == earlier + States(content, order[i..])
    {
      StatesStep(content, order, i);
      var applied := Apply(content, order[i]);
      if applied.None? { return; }
      ghost var later := States(applied, order[i + 1..]);
      Associate(earlier, [content], later);
      earlier := earlier + [content];
      content := applied;
      states := states + [content];
    }
  }

  lemma StatesStep(content: File, order: seq<ToolInterval>, i: nat)
    requires i < |order|
    ensures States(content, order[i..]) == if Apply(content, order[i]).None? then [content]
                                           else [content] + States(Apply(content, order[i]), order[i + 1..])
  {
    assert order[i..][1..] == order[i + 1..];
  }

  // ---------------------------------------------------------------- fitting

  /** The read may fall at index `k`, where the file shows all the lines it returned. */
  ghost predicate ShownAt(order: seq<ToolInterval>, o: ReadObservation, k: int) {
    && CanInsert(order, o, k)
    && Run(None, order[..k]).Reached? && Run(None, order[..k]).file.Some?
    && MatchesObservation(Run(None, order[..k]).file.value, o.lines)
  }

  /** Some point where the read may fall shows a state with all the lines it returned. */
  ghost predicate Explains(order: seq<ToolInterval>, o: ReadObservation) {
    exists k :: ShownAt(order, o, k)
  }

  ghost predicate Fits(order: seq<ToolInterval>, observations: seq<ReadObservation>) {
    forall i :: 0 <= i < |observations| ==> Explains(order, observations[i])
  }

  /** The filter on candidates: true exactly when every read, taken on its own, is
      explained at some point where it may fall. */
  method ObservationsFit(order: seq<ToolInterval>, states: seq<File>, observations: seq<ReadObservation>)
    returns (fit: bool)
    requires states == States(None, order)
    ensures fit <==> Fits(order, observations)
  {
    for i := 0 to |observations|
      invariant forall j :: 0 <= j < i ==> Explains(order, observations[j])
    {
      var o := observations[i];
      var minimum, maximum := Window(order, o);
      var shown := exists k :: minimum <= k <= maximum && k < |states|
                               && states[k].Some? && MatchesObservation(states[k].value, o.lines);
      ShownExplains(order, states, o, minimum, maximum, shown);
      if minimum > maximum || !shown { return false; }
    }
    return true;
  }

  lemma ShownExplains(order: seq<ToolInterval>, states: seq<File>, o: ReadObservation, minimum: nat, maximum: nat,
                      shown: bool)
    requires states == States(None, order) && minimum <= |order| && maximum <= |order|
    requires forall k :: minimum <= k <= maximum <==> CanInsert(order, o, k)
    requires shown <==> exists k :: minimum <= k <= maximum && k < |states|
                                    && states[k].Some? && MatchesObservation(states[k].value, o.lines)
    ensures Explains(order, o) <==> minimum <= maximum && shown
  {
    if Explains(order, o) {
      var k :| ShownAt(order, o, k);
      StatesMeaning(None, order, k);
    }
    if minimum <= maximum && shown {
      var k :| minimum <= k <= maximum && k < |states| && states[k].Some?
               && MatchesObservation(states[k].value, o.lines);
      StatesMeaning(None, order, k);
      assert ShownAt(order, o, k);
    }
  }

  /** The meaning of the window in time: the read can be given a moment inside its own
      interval, next to the moments of the operations around it, exactly at the indices
      of the window. */
  lemma WindowInTime(order: seq<ToolInterval>, o: ReadObservation, k: nat)
    requires k <= |order| && o.start <= o.end && Respects(order) && WellFormed(order)
    requires forall i :: 0 <= i < |order| ==> order[i].eventId != o.eventId
    ensures CanInsert(order, o, k) <==> exists points :: PointsFor(Inserted(order, ReadAsInterval(o), k), points)
  {
    var x := ReadAsInterval(o);
    var whole := Inserted(order, x, k);
    InsertedWellFormed(order, x, k);
    LinearizationPoints(whole);
    InsertedRespects(order, x, k);
  }

  function Inserted(order: seq<ToolInterval>, x: ToolInterval, k: nat): (whole: seq<ToolInterval>)
    requires k <= |order|
    ensures |whole| == |order| + 1 && whole[k] == x
    ensures forall i :: 0 <= i < k ==> whole[i] == order[i]
    ensures forall i :: k < i < |whole| ==> whole[i] == order[i - 1]
  {
    order[..k] + [x] + order[k..]
  }

  lemma InsertedWellFormed(order: seq<ToolInterval>, x: ToolInterval, k: nat)
    requires k <= |order| && WellFormed(order) && x.start <= x.end
    requires forall i :: 0 <= i < |order| ==> order[i].eventId != x.eventId
    ensures WellFormed(Inserted(order, x, k))
  {
  }

  lemma InsertedRespects(order: seq<ToolInterval>, x: ToolInterval, k: nat)
    requires k <= |order| && Respects(order) && forall i :: 0 <= i < |order| ==> order[i].eventId != x.eventId
    ensures Respects(Inserted(order, x, k))
       <==> && (forall i :: 0 <= i < k ==> !(x.end < order[i].start))
            && (forall i :: k <= i < |order| ==> !(order[i].end < x.start))
  {
    var whole := Inserted(order, x, k);
    if Respects(whole) {
      forall i | 0 <= i < k ensures !(x.end < order[i].start) { assert !MustPrecede(whole[k], whole[i]); }
      forall i | k <= i < |order| ensures !(order[i].end < x.start) { assert !MustPrecede(whole[i + 1], whole[k]); }
    }
  }

  /** A read seen as one more interval of the trace. */
  function ReadAsInterval(o: ReadObservation): ToolInterval {
    ToolInterval(o.eventId, o.start, o.end, "", "read_file", "", o.path, Args(None, None, None, false), o.payloadIds)
  }
}
