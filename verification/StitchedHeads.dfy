/** What the fallback of the recovery answers: it does not depend on the order in which
    the calls are listed, it leaves out the calls that overlap the prefix read, and it fails
    when these are all. */
module StitchedHeads {
  import opened Wrappers
  import opened Text
  import opened Intervals
  import opened Replay
  import opened Search
  import opened LinearizedContents
  import opened Observations
  import opened ReadWindows
  import opened Recovery

  // ---------------------------------------------------------------- the list of calls as a set

  /** No two calls end at the same sequence number. */
  ghost predicate DistinctEnds(operations: seq<ToolInterval>) {
    forall a, b :: a in operations && b in operations && a.end == b.end ==> a == b
  }

  ghost predicate ByEnd(s: seq<ToolInterval>) {
    forall i, j :: 0 <= i < j < |s| ==> s[i].end <= s[j].end
  }

  lemma {:induction false} InsertByEndMeaning(x: ToolInterval, s: seq<ToolInterval>)
    requires ByEnd(s)
    ensures ByEnd(InsertByEnd(x, s)) && multiset(InsertByEnd(x, s)) == multiset(s) + multiset{x}
  {
    if s != [] && x.end > s[0].end {
      InsertByEndMeaning(x, s[1..]);
      assert s == [s[0]] + s[1..];
      InsertedInside(x, s, InsertByEnd(x, s[1..]));
    }
  }

  lemma InsertedInside(x: ToolInterval, s: seq<ToolInterval>, t: seq<ToolInterval>)
    requires s != [] && ByEnd(s) && s[0].end < x.end && ByEnd(t) && multiset(t) == multiset(s[1..]) + multiset{x}
    ensures ByEnd([s[0]] + t)
  {
    forall j | 0 <= j < |t| ensures s[0].end <= t[j].end {
      assert t[j] in multiset(t);
      assert t[j] == x || t[j] in s[1..];
    }
  }

  lemma {:induction false} SortedByEndMeaning(operations: seq<ToolInterval>)
    ensures ByEnd(SortedByEnd(operations)) && multiset(SortedByEnd(operations)) == multiset(operations)
  {
    if operations != [] {
      SortedByEndMeaning(operations[1..]);
      InsertByEndMeaning(operations[0], SortedByEnd(operations[1..]));
      assert operations == [operations[0]] + operations[1..];
    }
  }

  lemma {:induction false} ByEndUnique(s: seq<ToolInterval>, t: seq<ToolInterval>)
    requires ByEnd(s) && ByEnd(t) && multiset(s) == multiset(t) && DistinctEnds(s)
    ensures s == t
  {
    SameMembers(s, t);
    if s != [] {
      SameHead(s, t);
      TailBag(s);
      TailBag(t);
      TailByEnd(s);
      TailByEnd(t);
      ByEndUnique(s[1..], t[1..]);
      assert s == [s[0]] + s[1..] && t == [t[0]] + t[1..];
    }
  }

  lemma SameHead(s: seq<ToolInterval>, t: seq<ToolInterval>)
    requires ByEnd(s) && ByEnd(t) && DistinctEnds(s) && s != [] && t != [] && forall a :: a in s <==> a in t
    ensures s[0] == t[0]
  {
    assert t[0] in s && s[0] in t;
    var i :| 0 <= i < |s| && s[i] == t[0];
    var j :| 0 <= j < |t| && t[j] == s[0];
    assert s[0].end <= s[i].end && t[0].end <= t[j].end;
  }

  lemma TailByEnd(s: seq<ToolInterval>)
    requires s != []
    ensures ByEnd(s) ==> ByEnd(s[1..])
    ensures DistinctEnds(s) ==> DistinctEnds(s[1..])
  {
  }

  lemma SameMembers(s: seq<ToolInterval>, t: seq<ToolInterval>)
    requires multiset(s) == multiset(t)
    ensures |s| == |t| && forall a :: a in s <==> a in t
  {
    assert |s| == |multiset(s)| && |t| == |multiset(t)|;
    forall a ensures a in s <==> a in t {
      assert a in s <==> a in multiset(s);
      assert a in t <==> a in multiset(t);
    }
  }

  lemma TailBag(s: seq<ToolInterval>)
    requires s != []
    ensures multiset(s[1..]) == multiset(s) - multiset{s[0]}
  {
    assert s == [s[0]] + s[1..];
  }

  lemma {:induction false} FinalEndMeaning(operations: seq<ToolInterval>)
    requires operations != []
    ensures exists a :: a in operations && a.end == FinalEnd(operations)
    ensures forall a :: a in operations ==> a.end <= FinalEnd(operations)
  {
    InitAndLast(operations);
    if |operations| > 1 { FinalEndMeaning(operations[..|operations| - 1]); }
  }

  lemma {:induction false} FirstToEndMeaning(operations: seq<ToolInterval>)
    requires operations != []
    ensures FirstToEnd(operations) in operations
    ensures forall a :: a in operations ==> FirstToEnd(operations).end <= a.end
  {
    InitAndLast(operations);
    if |operations| > 1 { FirstToEndMeaning(operations[..|operations| - 1]); }
  }

  /** The same calls in another order. */
  ghost predicate Permuted(one: seq<ToolInterval>, two: seq<ToolInterval>) {
    multiset(one) == multiset(two)
  }

  lemma PermutedMembers(one: seq<ToolInterval>, two: seq<ToolInterval>)
    requires Permuted(one, two)
    ensures forall a :: a in one <==> a in two
    ensures OpsOf(one) == OpsOf(two)
    ensures one == [] <==> two == []
    ensures forall prefix :: StartedAfter(one, prefix) == StartedAfter(two, prefix)
  {
    forall a ensures a in one <==> a in two {
      assert a in one <==> a in multiset(one);
      assert a in two <==> a in multiset(two);
    }
    if one != [] { assert one[0] in one; }
    if two != [] { assert two[0] in two; }
  }

  lemma PermutedEnds(one: seq<ToolInterval>, two: seq<ToolInterval>)
    requires Permuted(one, two) && DistinctEnds(one) && one != []
    ensures two != [] && FinalEnd(one) == FinalEnd(two) && TrailingNewline(one) == TrailingNewline(two)
    ensures SortedByEnd(one) == SortedByEnd(two)
  {
    PermutedMembers(one, two);
    FinalEndMeaning(one);
    FinalEndMeaning(two);
    FirstToEndMeaning(one);
    FirstToEndMeaning(two);
    SortedByEndMeaning(one);
    SortedByEndMeaning(two);
    forall a | a in SortedByEnd(one) ensures a in one {
      assert a in multiset(SortedByEnd(one));
    }
    ByEndUnique(SortedByEnd(one), SortedByEnd(two));
  }

  lemma PermutedStitches(one: seq<ToolInterval>, two: seq<ToolInterval>, observations: seq<ReadObservation>)
    requires Permuted(one, two) && DistinctEnds(one) && one != []
    ensures two != []
    ensures forall prefix, replayed, content :: Stitches(one, observations, prefix, replayed, content)
                                                <==> Stitches(two, observations, prefix, replayed, content)
  {
    PermutedMembers(one, two);
    PermutedEnds(one, two);
  }

  lemma PermutedStitched(one: seq<ToolInterval>, two: seq<ToolInterval>, observations: seq<ReadObservation>, content: string)
    requires Permuted(one, two) && DistinctEnds(one) && one != []
    ensures two != []
    ensures Stitched(one, observations, content) <==> Stitched(two, observations, content)
  {
    PermutedStitches(one, two, observations);
    if prefix, t :| Stitches(one, observations, prefix, t, content) {
      assert Stitches(two, observations, prefix, t, content);
    }
    if prefix, t :| Stitches(two, observations, prefix, t, content) {
      assert Stitches(one, observations, prefix, t, content);
    }
  }

  lemma PermutedCredits(one: seq<ToolInterval>, two: seq<ToolInterval>, observations: seq<ReadObservation>, c: Candidate)
    requires Permuted(one, two) && DistinctEnds(one) && one != [] && two != [] && Credits(one, observations, c)
    ensures Credits(two, observations, c)
  {
    PermutedMembers(one, two);
    PermutedEnds(one, two);
    PermutedStitches(one, two, observations);
    var i: nat, t :| Latest(one, observations, i, t, c.content)
                     && CreditedOrder(one, PrefixReads(observations)[i], t, c.order);
    PermutedLatest(one, two, observations, i, t, c.content);
  }

  lemma PermutedLatest(one: seq<ToolInterval>, two: seq<ToolInterval>, observations: seq<ReadObservation>,
                       i: nat, t: string, content: string)
    requires Permuted(one, two) && DistinctEnds(one) && one != [] && two != [] && Latest(one, observations, i, t, content)
    ensures Latest(two, observations, i, t, content)
  {
    PermutedMembers(one, two);
    PermutedStitches(one, two, observations);
    forall j: nat, other | StitchesAt(two, observations, j, other, content)
      ensures j < i || (j == i && NoLater(two, PrefixReads(observations)[i], other, t))
    {
      assert StitchesAt(one, observations, j, other, content);
    }
  }

  /** The order in which the calls are listed does not matter, whichever way the content is
      found: the answer is the same for every permutation of the list. */
  lemma InputOrderIrrelevant(path: string, one: seq<ToolInterval>, two: seq<ToolInterval>,
                             observations: seq<ReadObservation>, r1: Result<Head, RecoveryError>,
                             r2: Result<Head, RecoveryError>)
    requires Permuted(one, two) && DistinctEnds(one) && UniqueIds(OpsOf(one))
    requires ReconstructSpec(path, one, observations, r1) && ReconstructSpec(path, two, observations, r2)
    ensures r1 == r2
  {
    PermutedMembers(one, two);
    if |ValidPrefixes(OpsOf(one), None)| > MAX_LINEARIZATIONS || Survivors(OpsOf(one), observations) != {} {
      ReplayIgnoresOrder(path, one, two, observations, r1, r2);
    } else {
      StitchIgnoresOrder(path, one, two, observations, r1, r2);
    }
  }

  lemma StitchIgnoresOrder(path: string, one: seq<ToolInterval>, two: seq<ToolInterval>,
                           observations: seq<ReadObservation>, r1: Result<Head, RecoveryError>,
                           r2: Result<Head, RecoveryError>)
    requires Permuted(one, two) && DistinctEnds(one) && UniqueIds(OpsOf(one))
    requires StitchSpec(path, one, observations, r1) && StitchSpec(path, two, observations, r2)
    ensures r1 == r2
  {
    PermutedMembers(one, two);
    if one != [] && observations != [] {
      forall content ensures Stitched(one, observations, content) <==> Stitched(two, observations, content) {
        PermutedStitched(one, two, observations, content);
      }
      SameOnlyStitched(one, two, observations);
      if exists content :: OnlyStitched(one, observations, content) {
        SameCredit(path, one, two, observations, r1, r2);
      }
    }
  }

  lemma SameOnlyStitched(one: seq<ToolInterval>, two: seq<ToolInterval>, observations: seq<ReadObservation>)
    requires one != [] && two != []
    requires forall content :: Stitched(one, observations, content) <==> Stitched(two, observations, content)
    ensures forall content :: OnlyStitched(one, observations, content) <==> OnlyStitched(two, observations, content)
  {
  }

  lemma SameCredit(path: string, one: seq<ToolInterval>, two: seq<ToolInterval>, observations: seq<ReadObservation>,
                   r1: Result<Head, RecoveryError>, r2: Result<Head, RecoveryError>)
    requires Permuted(one, two) && DistinctEnds(one) && UniqueIds(OpsOf(one)) && one != [] && two != []
    requires exists c: Candidate :: OnlyStitched(one, observations, c.content) && Credits(one, observations, c)
                                    && r1 == MakeHead(path, c, observations)
    requires exists c: Candidate :: OnlyStitched(two, observations, c.content) && Credits(two, observations, c)
                                    && r2 == MakeHead(path, c, observations)
    ensures r1 == r2
  {
    var c: Candidate :| OnlyStitched(one, observations, c.content) && Credits(one, observations, c)
                        && r1 == MakeHead(path, c, observations);
    var d: Candidate :| OnlyStitched(two, observations, d.content) && Credits(two, observations, d)
                        && r2 == MakeHead(path, d, observations);
    PermutedMembers(one, two);
    PermutedStitched(one, two, observations, c.content);
    PermutedCredits(one, two, observations, c);
    assert OpsOf(two) == set a | a in two;
    CreditUnique(two, observations, c, d);
  }

  // ---------------------------------------------------------------- calls that overlap the prefix read

  /** Neither over when the read starts nor started after it ended. */
  predicate OverlapsRead(a: ToolInterval, o: ReadObservation) {
    !(a.end <= o.start) && !(a.start > o.end)
  }

  lemma {:induction false} EndedByMembers(s: seq<ToolInterval>, time: int)
    ensures forall a :: a in EndedBy(s, time) <==> a in s && a.end <= time
  {
    if s != [] {
      EndedByMembers(s[1..], time);
      assert s == [s[0]] + s[1..];
    }
  }

  /** The credited order lists exactly the calls that do not overlap the prefix read. */
  lemma CreditedMembers(operations: seq<ToolInterval>, prefix: ReadObservation, replayed: string, order: seq<ToolInterval>)
    requires CreditedOrder(operations, prefix, replayed, order)
    ensures forall a :: a in order <==> a in operations && !OverlapsRead(a, prefix)
  {
    var sorted := SortedByEnd(operations);
    var tail :| IsLastWitness(tail, StartedAfter(operations, prefix), Some(PrefixText(prefix)), replayed)
                && order == EndedBy(sorted, prefix.start) + tail;
    SortedByEndMeaning(operations);
    SameMembers(sorted, operations);
    EndedByMembers(sorted, prefix.start);
    forall a ensures a in order <==> a in operations && !OverlapsRead(a, prefix) {
      assert a in order <==> a in EndedBy(sorted, prefix.start) || a in tail;
      assert a in tail <==> a in StartedAfter(operations, prefix);
    }
  }

  // ---------------------------------------------------------------- the credited order

  /** The calls that end at `t`, in the order of the list. */
  function EndingAt(s: seq<ToolInterval>, t: int): seq<ToolInterval> {
    if s == [] then [] else (if s[0].end == t then [s[0]] else []) + EndingAt(s[1..], t)
  }

  lemma {:induction false} InsertKeepsTies(x: ToolInterval, s: seq<ToolInterval>, t: int)
    requires ByEnd(s)
    ensures EndingAt(InsertByEnd(x, s), t) == (if x.end == t then [x] else []) + EndingAt(s, t)
  {
    if s == [] || x.end <= s[0].end {
      EndingAtCons(x, s, t);
    } else {
      InsertKeepsTies(x, s[1..], t);
      EndingAtCons(s[0], InsertByEnd(x, s[1..]), t);
    }
  }

  lemma EndingAtCons(x: ToolInterval, s: seq<ToolInterval>, t: int)
    ensures EndingAt([x] + s, t) == (if x.end == t then [x] else []) + EndingAt(s, t)
  {
    assert ([x] + s)[1..] == s;
  }

  lemma {:induction false} SortKeepsTies(operations: seq<ToolInterval>, t: int)
    ensures EndingAt(SortedByEnd(operations), t) == EndingAt(operations, t)
  {
    if operations != [] {
      SortKeepsTies(operations[1..], t);
      SortedByEndMeaning(operations[1..]);
      InsertKeepsTies(operations[0], SortedByEnd(operations[1..]), t);
    }
  }

  lemma {:induction false} EndedByKeepsTies(s: seq<ToolInterval>, time: int, t: int)
    requires t <= time
    ensures EndingAt(EndedBy(s, time), t) == EndingAt(s, t)
  {
    if s != [] {
      EndedByKeepsTies(s[1..], time, t);
      if s[0].end <= time { assert EndedBy(s, time)[1..] == EndedBy(s[1..], time); }
      else { assert EndedBy(s, time) == EndedBy(s[1..], time); }
    }
  }

  lemma {:induction false} EndedByStaysSorted(s: seq<ToolInterval>, time: int)
    requires ByEnd(s)
    ensures ByEnd(EndedBy(s, time))
  {
    if s != [] {
      EndedByStaysSorted(s[1..], time);
      EndedByMembers(s[1..], time);
      var rest := EndedBy(s[1..], time);
      assert forall j :: 0 <= j < |rest| ==> rest[j] in rest;
    }
  }

  /** The credited order in sequence: first the calls that had ended when the prefix read
      starts, by their ends, and calls that end together as the operations list them; then
      the calls that started after it, in an order that replays from what it showed. */
  lemma CreditedSequence(operations: seq<ToolInterval>, prefix: ReadObservation, replayed: string, order: seq<ToolInterval>)
    returns (k: nat)
    requires CreditedOrder(operations, prefix, replayed, order)
    ensures k <= |order| && (forall i :: 0 <= i < k ==> order[i].end <= prefix.start)
    ensures forall i, j :: 0 <= i < j < k ==> order[i].end <= order[j].end
    ensures forall t :: t <= prefix.start ==> EndingAt(order[..k], t) == EndingAt(operations, t)
    ensures Completes(order[k..], StartedAfter(operations, prefix), Some(PrefixText(prefix)), replayed)
  {
    var front := EndedBy(SortedByEnd(operations), prefix.start);
    var tail :| IsLastWitness(tail, StartedAfter(operations, prefix), Some(PrefixText(prefix)), replayed) && order == front + tail;
    k := |front|;
    assert order[..k] == front && order[k..] == tail;
    SortedByEndMeaning(operations);
    EndedByMembers(SortedByEnd(operations), prefix.start);
    EndedByStaysSorted(SortedByEnd(operations), prefix.start);
    forall i | 0 <= i < k ensures order[i].end <= prefix.start { assert front[i] in front; }
    forall i, j | 0 <= i < j < k ensures order[i].end <= order[j].end { assert front[i].end <= front[j].end; }
    forall t | t <= prefix.start ensures EndingAt(front, t) == EndingAt(operations, t) {
      EndedByKeepsTies(SortedByEnd(operations), prefix.start, t);
      SortKeepsTies(operations, t);
    }
  }

  lemma {:induction false} EndedByInsert(x: ToolInterval, s: seq<ToolInterval>, time: int)
    requires ByEnd(s)
    ensures EndedBy(InsertByEnd(x, s), time) == if x.end <= time then InsertByEnd(x, EndedBy(s, time)) else EndedBy(s, time)
  {
    if s != [] && x.end > s[0].end {
      EndedByInsert(x, s[1..], time);
      assert InsertByEnd(x, s)[1..] == InsertByEnd(x, s[1..]);
      if s[0].end <= time { assert EndedBy(s, time)[1..] == EndedBy(s[1..], time); }
      else { NothingEnded(s, time); NothingEnded(s[1..], time); }
    } else {
      assert InsertByEnd(x, s)[1..] == s;
      if s != [] && s[0].end > time { NothingEnded(s, time); }
    }
  }

  lemma {:induction false} NothingEnded(s: seq<ToolInterval>, time: int)
    requires ByEnd(s) && (s != [] ==> s[0].end > time)
    ensures EndedBy(s, time) == []
  {
    if s != [] { NothingEnded(s[1..], time); }
  }

  /** Sorting and selecting commute. */
  lemma {:induction false} EndedBySorted(s: seq<ToolInterval>, time: int)
    ensures EndedBy(SortedByEnd(s), time) == SortedByEnd(EndedBy(s, time))
  {
    if s != [] {
      SortedByEndMeaning(s[1..]);
      EndedBySorted(s[1..], time);
      EndedByInsert(s[0], SortedByEnd(s[1..]), time);
      if s[0].end <= time { assert EndedBy(s, time)[1..] == EndedBy(s[1..], time); }
      else { assert EndedBy(s, time) == EndedBy(s[1..], time); }
    }
  }

  lemma {:induction false} EndedByConcat(s: seq<ToolInterval>, t: seq<ToolInterval>, time: int)
    ensures EndedBy(s + t, time) == EndedBy(s, time) + EndedBy(t, time)
  {
    if s == [] {
      assert s + t == t;
    } else {
      var first := if s[0].end <= time then [s[0]] else [];
      EndedByConcat(s[1..], t, time);
      EndedByCons(s, t, time);
      Associate(first, EndedBy(s[1..], time), EndedBy(t, time));
    }
  }

  lemma EndedByCons(s: seq<ToolInterval>, t: seq<ToolInterval>, time: int)
    requires s != []
    ensures EndedBy(s + t, time) == (if s[0].end <= time then [s[0]] else []) + EndedBy(s[1..] + t, time)
    ensures EndedBy(s, time) == (if s[0].end <= time then [s[0]] else []) + EndedBy(s[1..], time)
  {
    assert (s + t)[0] == s[0] && (s + t)[1..] == s[1..] + t;
  }

  /** A call that overlaps the prefix read takes no part: put any other call with the same
      interval in its place, and the prefix read stitches to the same contents, credited to
      the same order. (The trailing newline is taken from the first call to end, wherever
      that one lies.) */
  lemma OverlappingCallIgnored(before: seq<ToolInterval>, a: ToolInterval, b: ToolInterval, after: seq<ToolInterval>,
                               observations: seq<ReadObservation>, prefix: ReadObservation, replayed: string,
                               content: string, order: seq<ToolInterval>)
    requires OverlapsRead(a, prefix) && a.start == b.start && a.end == b.end
    requires TrailingNewline(before + [a] + after) == TrailingNewline(before + [b] + after)
    ensures Stitches(before + [a] + after, observations, prefix, replayed, content)
       <==> Stitches(before + [b] + after, observations, prefix, replayed, content)
    ensures CreditedOrder(before + [a] + after, prefix, replayed, order)
       <==> CreditedOrder(before + [b] + after, prefix, replayed, order)
  {
    var one, two := before + [a] + after, before + [b] + after;
    assert StartedAfter(one, prefix) == StartedAfter(two, prefix);
    SameFinalEnd(before, a, b, after);
    EndedWithout(before, a, after, prefix.start);
    EndedWithout(before, b, after, prefix.start);
  }

  lemma SameFinalEnd(before: seq<ToolInterval>, a: ToolInterval, b: ToolInterval, after: seq<ToolInterval>)
    requires a.end == b.end
    ensures FinalEnd(before + [a] + after) == FinalEnd(before + [b] + after)
  {
    var one, two := before + [a] + after, before + [b] + after;
    FinalEndMeaning(one);
    FinalEndMeaning(two);
    assert forall x :: x in one <==> x in before || x == a || x in after;
    assert forall x :: x in two <==> x in before || x == b || x in after;
    var x :| x in one && x.end == FinalEnd(one);
    var y :| y in two && y.end == FinalEnd(two);
    assert b in two && a in one;
  }

  lemma EndedWithout(before: seq<ToolInterval>, a: ToolInterval, after: seq<ToolInterval>, time: int)
    requires a.end > time
    ensures EndedBy(SortedByEnd(before + [a] + after), time) == SortedByEnd(EndedBy(before, time) + EndedBy(after, time))
  {
    EndedBySorted(before + [a] + after, time);
    EndedByConcat(before + [a], after, time);
    EndedByConcat(before, [a], time);
    assert EndedBy([a], time) == [] by { assert [a][1..] == []; }
    AppendNothing(EndedBy(before, time));
  }

  // ---------------------------------------------------------------- the error on an empty order

  lemma LatestUnique(operations: seq<ToolInterval>, observations: seq<ReadObservation>, content: string,
                     i: nat, s: string, j: nat, t: string)
    requires operations != [] && Latest(operations, observations, i, s, content) && Latest(operations, observations, j, t, content)
    ensures i == j
  {
  }

  /** `content` is the one content stitched, and all calls overlap the prefix read that is
      credited with it. */
  ghost predicate AllOverlap(operations: seq<ToolInterval>, observations: seq<ReadObservation>, content: string, i: nat, t: string)
    requires operations != []
  {
    && OnlyStitched(operations, observations, content)
    && Latest(operations, observations, i, t, content)
    && forall a :: a in operations ==> OverlapsRead(a, PrefixReads(observations)[i])
  }

  /** When the recovery fails on an empty order instead of reporting its own error: exactly
      when the replay leaves nothing, one content is stitched, and all calls overlap the
      prefix read that is credited with it. */
  lemma NoFinalOperationExactly(path: string, operations: seq<ToolInterval>, observations: seq<ReadObservation>,
                                r: Result<Head, RecoveryError>)
    requires ReconstructSpec(path, operations, observations, r)
    ensures r == Err(NoFinalOperation)
       <==> && |ValidPrefixes(OpsOf(operations), None)| <= MAX_LINEARIZATIONS
            && Survivors(OpsOf(operations), observations) == {}
            && operations != [] && observations != []
            && exists content, i: nat, t :: AllOverlap(operations, observations, content, i, t)
  {
    var ops := OpsOf(operations);
    if |ValidPrefixes(ops, None)| <= MAX_LINEARIZATIONS && |Survivors(ops, observations)| <= 1 {
      if Survivors(ops, observations) != {} {
        ReplayNeverEmpty(path, ops, observations, r);
      } else {
        EmptyExactly(path, operations, observations, r);
      }
    }
  }

  lemma ReplayNeverEmpty(path: string, ops: set<ToolInterval>, observations: seq<ReadObservation>, r: Result<Head, RecoveryError>)
    requires exists c: Candidate :: Survivors(ops, observations) == {c.content} && IsWitness(c.order, ops, None, c.content)
                                    && r == MakeHead(path, c, observations)
    ensures r.Ok?
  {
  }

  lemma EmptyExactly(path: string, operations: seq<ToolInterval>, observations: seq<ReadObservation>, r: Result<Head, RecoveryError>)
    requires StitchSpec(path, operations, observations, r)
    ensures r == Err(NoFinalOperation)
       <==> operations != [] && observations != []
            && exists content, i: nat, t :: AllOverlap(operations, observations, content, i, t)
  {
    if operations != [] && observations != [] && exists c :: OnlyStitched(operations, observations, c) {
      var c: Candidate :| OnlyStitched(operations, observations, c.content) && Credits(operations, observations, c)
                          && r == MakeHead(path, c, observations);
      CreditedEmpty(operations, observations, c);
    }
  }

  lemma CreditedEmpty(operations: seq<ToolInterval>, observations: seq<ReadObservation>, c: Candidate)
    requires operations != [] && OnlyStitched(operations, observations, c.content) && Credits(operations, observations, c)
    ensures c.order == [] <==> exists content, i: nat, t :: AllOverlap(operations, observations, content, i, t)
  {
    var i: nat, t :| Latest(operations, observations, i, t, c.content)
                     && CreditedOrder(operations, PrefixReads(observations)[i], t, c.order);
    CreditedMembers(operations, PrefixReads(observations)[i], t, c.order);
    if c.order == [] {
      assert AllOverlap(operations, observations, c.content, i, t);
    } else {
      assert c.order[0] in c.order;
      forall content, j: nat, s ensures !AllOverlap(operations, observations, content, j, s) {
        if AllOverlap(operations, observations, content, j, s) {
          LatestUnique(operations, observations, c.content, i, t, j, s);
        }
      }
    }
  }

  /** An edit, and a read while it runs: the one line that was read is taken for the whole
      file, and no call is left to credit with it. */
  const EDIT := ToolInterval("e", 1, 10, "e", "edit_file", "writer", "/novel.md",
                             Args(None, Some("a"), Some("b"), false), [])
  const SEEN := ReadObservation(5, 6, "/novel.md", map[1 := "x"], "r", [])

  lemma EditDuringRead(r: Result<Head, RecoveryError>)
    requires ReconstructSpec("/novel.md", [EDIT], [SEEN], r)
    ensures r == Err(NoFinalOperation)
  {
    NothingReplays();
    ReadIsStitched();
    NoFinalOperationExactly("/novel.md", [EDIT], [SEEN], r);
  }

  lemma NothingReplays()
    ensures |ValidPrefixes(OpsOf([EDIT]), None)| <= MAX_LINEARIZATIONS
    ensures Survivors(OpsOf([EDIT]), [SEEN]) == {}
  {
    var ops := OpsOf([EDIT]);
    assert ops == {EDIT};
    assert Apply(None, EDIT).None?;
    assert ValidPrefixes(ops, None) == {[]};
    forall text ensures text !in Outcomes(ops, None) { OutcomesStep(text, ops, None); }
  }

  lemma ReadIsStitched()
    ensures AllOverlap([EDIT], [SEEN], "x", 0, "x")
  {
    SeenIsPrefix();
    OnlyX();
    LatestX();
  }

  lemma OnlyX()
    ensures OnlyStitched([EDIT], [SEEN], "x")
  {
    OnlyThisStitch(SEEN, "x", "x");
    forall content | Stitched([EDIT], [SEEN], content) ensures content == "x" {
      var prefix, t :| Stitches([EDIT], [SEEN], prefix, t, content);
      OnlyThisStitch(prefix, t, content);
    }
  }

  lemma LatestX()
    ensures Latest([EDIT], [SEEN], 0, "x", "x")
  {
    SeenIsPrefix();
    OnlyThisStitch(SEEN, "x", "x");
    NoLaterSelf([EDIT], SEEN, "x");
    forall j: nat, other | StitchesAt([EDIT], [SEEN], j, other, "x") ensures j == 0 && other == "x" {
      OnlyThisStitch(PrefixReads([SEEN])[j], other, "x");
    }
  }

  lemma SeenIsPrefix()
    ensures PrefixReads([SEEN]) == [SEEN]
  {
    assert [SEEN][..0] == [];
  }

  lemma OnlyThisStitch(prefix: ReadObservation, t: string, content: string)
    ensures Stitches([EDIT], [SEEN], prefix, t, content) <==> prefix == SEEN && t == "x" && content == "x"
  {
    SeenIsPrefix();
    assert prefix in [SEEN] <==> prefix == SEEN;
    assert StartedAfter([EDIT], SEEN) == {};
    OneLineRead();
    OutcomesStep(t, {}, Some("x"));
  }

  lemma OneLineRead()
    ensures PrefixText(SEEN) == "x"
    ensures Merged([EDIT], [SEEN], "x") == map[1 := "x"]
    ensures Contiguous(map[1 := "x"]) && TextOf(map[1 := "x"], TrailingNewline([EDIT])) == "x"
  {
    assert (map[1 := "x"]).Keys == {1};
    assert MaxKey({1}) == 1;
    assert LinesUpTo(map[1 := "x"], 1) == ["x"] by { assert LinesUpTo(map[1 := "x"], 0) == []; }
    SplitLinesSingle("x");
    assert Numbered(["x"]) == map[1 := "x"] by { assert ["x"][..0] == []; }
    assert FinalEnd([EDIT]) == 10;
    assert [SEEN][..0] == [];
    assert ReadsAfter([SEEN], 10) == [];
    assert Range(1) == {1} by { assert Range(0) == {}; }
  }
}
