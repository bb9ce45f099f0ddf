/** When does the read filter see enough? The filter looks at one recorded order per
    content; it is exact when the recorded order explains a read as soon as any order with
    the same final content does. The recovery loses nothing if it is exact, or if there is only
    one content to choose. This module states both, and the conditions on the intervals and the
    sort key under which they hold whatever the calls and the read contain. */
module FilterShape {
  import opened Wrappers
  import opened Intervals
  import opened Replay
  import opened Observations
  import opened Recovery
  import opened Confluence

  /** Some valid linearization that ends in `text` explains the reads. */
  ghost predicate Explained(ops: set<ToolInterval>, observations: seq<ReadObservation>, text: string) {
    exists order :: Completes(order, ops, None, text) && Fits(order, observations)
  }

  /** The filter keeps exactly the contents that some order explains. */
  ghost predicate FilterExact(ops: set<ToolInterval>, observations: seq<ReadObservation>) {
    forall text :: text in Outcomes(ops, None) ==>
                     (WitnessFits(ops, observations, text) <==> Explained(ops, observations, text))
  }

  /** The recovery loses no content that some order explains: what the recorded orders speak
      against is dropped only where there are several contents. */
  ghost predicate NothingLost(ops: set<ToolInterval>, observations: seq<ReadObservation>) {
    forall text :: Explained(ops, observations, text) ==> text in Survivors(ops, observations)
  }

  // ---------------------------------------------------------------- the calls around a read

  /** The calls that ended before the read started, ... */
  function Before(ops: set<ToolInterval>, o: ReadObservation): set<ToolInterval> {
    set a | a in ops && a.end < o.start
  }

  /** ... those that started after it ended, ... */
  function After(ops: set<ToolInterval>, o: ReadObservation): set<ToolInterval> {
    set a | a in ops && o.end < a.start
  }

  /** ... and those that overlap it. */
  function During(ops: set<ToolInterval>, o: ReadObservation): set<ToolInterval> {
    set a | a in ops && !(a.end < o.start) && !(o.end < a.start)
  }

  ghost predicate KeysInOrder(first: set<ToolInterval>, second: set<ToolInterval>) {
    forall a, b :: a in first && b in second ==> KeyLess(a, b)
  }

  /** All others in `ops` are over when `y` starts. */
  ghost predicate AllPrecede(ops: set<ToolInterval>, y: ToolInterval) {
    forall a :: a in ops && a != y ==> MustPrecede(a, y)
  }

  /** One call overlaps the read, none comes later, and the earlier ones do not overlap. */
  ghost predicate LastOneRunning(ops: set<ToolInterval>, o: ReadObservation) {
    After(ops, o) == {} && |During(ops, o)| == 1 && Sequential(Before(ops, o))
  }

  /** One call is over and one is running. */
  ghost predicate OneEach(ops: set<ToolInterval>, o: ReadObservation) {
    |Before(ops, o)| == 1 && |During(ops, o)| == 1
  }

  /** Two calls are running, none is over, and all later ones come after both. */
  ghost predicate JustTwoRunning(ops: set<ToolInterval>, o: ReadObservation) {
    && Before(ops, o) == {} && |During(ops, o)| == 2
    && forall a :: a in After(ops, o) ==> AllPrecede(During(ops, o), a)
  }

  /** There are three calls, one of them after the two others, none after the read, and at
      most one over. */
  ghost predicate ThreeInAll(ops: set<ToolInterval>, o: ReadObservation) {
    && After(ops, o) == {} && |ops| == 3 && |Before(ops, o)| <= 1
    && exists y :: y in ops && AllPrecede(ops, y)
  }

  /** The condition. All calls are over, or none has started. Otherwise the calls that
      overlap the read come before the later ones in key order; and no two calls that are
      over or running overlap, or one of the four small cases applies. */
  ghost predicate Decided(ops: set<ToolInterval>, o: ReadObservation) {
    var over, running, later := Before(ops, o), During(ops, o), After(ops, o);
    || running + later == {}
    || over + running == {}
    || (KeysInOrder(running, later) &&
        (|| Sequential(over + running)
         || LastOneRunning(ops, o) || OneEach(ops, o) || JustTwoRunning(ops, o) || ThreeInAll(ops, o)))
  }

  ghost predicate Overlap(ops: set<ToolInterval>, a: ToolInterval, b: ToolInterval) {
    a in ops && b in ops && a != b && Concurrent(a, b)
  }

  /** No two calls overlap, but for one pair. */
  ghost predicate OnePairOverlaps(ops: set<ToolInterval>) {
    forall a, b, c, d :: Overlap(ops, a, b) && Overlap(ops, c, d) ==> {a, b} == {c, d}
  }

  /** There are three calls, none after the read, and at most one over. */
  ghost predicate OnlyThree(ops: set<ToolInterval>, o: ReadObservation) {
    After(ops, o) == {} && |ops| == 3 && |Before(ops, o)| <= 1
  }

  /** The read is decided, or there are too few orders for the recovery to have a choice of
      contents and to forget an order at the same time. */
  ghost predicate Harmless(ops: set<ToolInterval>, o: ReadObservation) {
    Decided(ops, o) || OnePairOverlaps(ops) || OnlyThree(ops, o)
  }

  // ---------------------------------------------------------------- other calls, same intervals

  datatype Call = Call(toolName: string, args: Args)

  /** The same intervals with the calls of `calls`, by event id. */
  function Dress(a: ToolInterval, calls: string -> Call): ToolInterval {
    a.(toolName := calls(a.eventId).toolName, args := calls(a.eventId).args)
  }

  function Dressed(ops: set<ToolInterval>, calls: string -> Call): set<ToolInterval> {
    set a | a in ops :: Dress(a, calls)
  }

  lemma DressedTimed(ops: set<ToolInterval>, calls: string -> Call)
    requires UniqueIds(ops) && WellTimed(ops)
    ensures UniqueIds(Dressed(ops, calls)) && WellTimed(Dressed(ops, calls))
  {
  }

  lemma {:induction false} DressedSize(ops: set<ToolInterval>, calls: string -> Call)
    requires UniqueIds(ops)
    ensures |Dressed(ops, calls)| == |ops|
  {
    if a :| a in ops {
      DressedSize(ops - {a}, calls);
      assert Dress(a, calls) !in Dressed(ops - {a}, calls);
      assert Dressed(ops, calls) == Dressed(ops - {a}, calls) + {Dress(a, calls)};
    }
  }

  lemma DressedParts(ops: set<ToolInterval>, o: ReadObservation, calls: string -> Call)
    ensures Before(Dressed(ops, calls), o) == Dressed(Before(ops, o), calls)
    ensures During(Dressed(ops, calls), o) == Dressed(During(ops, o), calls)
    ensures After(Dressed(ops, calls), o) == Dressed(After(ops, o), calls)
  {
  }

  lemma DressedSequential(ops: set<ToolInterval>, calls: string -> Call)
    requires Sequential(ops)
    ensures Sequential(Dressed(ops, calls))
  {
    forall x, y | x in Dressed(ops, calls) && y in Dressed(ops, calls) && x != y ensures !Concurrent(x, y) {
      var a, b :| a in ops && b in ops && x == Dress(a, calls) && y == Dress(b, calls);
      assert !Concurrent(a, b);
    }
  }

  lemma DressedUnion(one: set<ToolInterval>, two: set<ToolInterval>, calls: string -> Call)
    ensures Dressed(one + two, calls) == Dressed(one, calls) + Dressed(two, calls)
  {
  }

  lemma DressedKeys(one: set<ToolInterval>, two: set<ToolInterval>, calls: string -> Call)
    requires KeysInOrder(one, two)
    ensures KeysInOrder(Dressed(one, calls), Dressed(two, calls))
  {
  }

  lemma DressedPrecede(ops: set<ToolInterval>, y: ToolInterval, calls: string -> Call)
    requires AllPrecede(ops, y)
    ensures AllPrecede(Dressed(ops, calls), Dress(y, calls))
  {
  }

  /** The condition is about the intervals alone. */
  lemma DressedDecided(ops: set<ToolInterval>, o: ReadObservation, calls: string -> Call)
    requires UniqueIds(ops) && Decided(ops, o)
    ensures Decided(Dressed(ops, calls), o)
  {
    var over, running, later := Before(ops, o), During(ops, o), After(ops, o);
    DressedParts(ops, o, calls);
    if running + later != {} && over + running != {} {
      DressedKeys(running, later, calls);
      DressedUnion(over, running, calls);
      if Sequential(over + running) {
        DressedSequential(over + running, calls);
      } else {
        DressedSmall(ops, o, calls);
      }
    }
  }

  lemma DressedSmall(ops: set<ToolInterval>, o: ReadObservation, calls: string -> Call)
    requires UniqueIds(ops)
    ensures LastOneRunning(ops, o) ==> LastOneRunning(Dressed(ops, calls), o)
    ensures OneEach(ops, o) ==> OneEach(Dressed(ops, calls), o)
    ensures JustTwoRunning(ops, o) ==> JustTwoRunning(Dressed(ops, calls), o)
    ensures ThreeInAll(ops, o) ==> ThreeInAll(Dressed(ops, calls), o)
  {
    DressedParts(ops, o, calls);
    DressedSizes(ops, Before(ops, o), During(ops, o), calls);
    if LastOneRunning(ops, o) { DressedSequential(Before(ops, o), calls); }
    if JustTwoRunning(ops, o) { DressedFollow(During(ops, o), After(ops, o), calls); }
    if ThreeInAll(ops, o) {
      var y :| y in ops && AllPrecede(ops, y);
      DressedPrecede(ops, y, calls);
      assert Dress(y, calls) in Dressed(ops, calls);
    }
  }

  lemma DressedSizes(ops: set<ToolInterval>, one: set<ToolInterval>, two: set<ToolInterval>, calls: string -> Call)
    requires UniqueIds(ops) && one <= ops && two <= ops
    ensures |Dressed(ops, calls)| == |ops| && |Dressed(one, calls)| == |one| && |Dressed(two, calls)| == |two|
  {
    DressedSize(ops, calls);
    DressedSize(one, calls);
    DressedSize(two, calls);
  }

  lemma DressedFollow(ops: set<ToolInterval>, later: set<ToolInterval>, calls: string -> Call)
    requires forall a :: a in later ==> AllPrecede(ops, a)
    ensures forall b :: b in Dressed(later, calls) ==> AllPrecede(Dressed(ops, calls), b)
  {
    forall b | b in Dressed(later, calls) ensures AllPrecede(Dressed(ops, calls), b) {
      var a :| a in later && b == Dress(a, calls);
      DressedPrecede(ops, a, calls);
    }
  }
}
