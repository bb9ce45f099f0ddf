/** The exact condition: for given intervals of the calls and of a read, the recovery loses no
    content that some order explains, whatever the calls and the read contain, if and only if
    the read is decided or there are too few orders. */
module FilterExactly {
  import opened Intervals
  import opened Replay
  import opened Observations
  import opened Recovery
  import opened Confluence
  import opened FilterShape
  import opened FilterTools
  import opened FilterOpen
  import opened FilterHarmless
  import opened FilterDressed

  lemma LossShown(ops: set<ToolInterval>, o: ReadObservation) returns (lines: map<nat, string>)
    requires Loses(ops, o)
    ensures !NothingLost(ops, [o.(lines := lines)])
  {
    var line, text :| Explained(ops, [OneLine(o, line)], text) && text !in Survivors(ops, [OneLine(o, line)]);
    lines := map[1 := line];
    assert OneLine(o, line) == o.(lines := lines);
  }

  /** The condition is about the intervals alone. */
  lemma DressedHarmless(ops: set<ToolInterval>, o: ReadObservation, calls: string -> Call, lines: map<nat, string>)
    requires UniqueIds(ops) && Harmless(ops, o)
    ensures Harmless(Dressed(ops, calls), o.(lines := lines))
  {
    var other := o.(lines := lines);
    LinesDoNotDecide(ops, o, lines);
    if Decided(ops, o) {
      DressedDecided(ops, other, calls);
    } else if OnePairOverlaps(ops) {
      DressedOnePair(ops, calls);
    } else {
      DressedThree(ops, other, calls);
    }
  }

  lemma DressedThree(ops: set<ToolInterval>, o: ReadObservation, calls: string -> Call)
    requires UniqueIds(ops) && OnlyThree(ops, o)
    ensures OnlyThree(Dressed(ops, calls), o)
  {
    DressedParts(ops, o, calls);
    DressedSizes(ops, Before(ops, o), During(ops, o), calls);
  }

  lemma LinesDoNotDecide(ops: set<ToolInterval>, o: ReadObservation, lines: map<nat, string>)
    ensures Decided(ops, o.(lines := lines)) <==> Decided(ops, o)
    ensures OnlyThree(ops, o.(lines := lines)) <==> OnlyThree(ops, o)
  {
    var other := o.(lines := lines);
    assert Before(ops, other) == Before(ops, o) && During(ops, other) == During(ops, o) && After(ops, other) == After(ops, o);
  }

  lemma DressedOnePair(ops: set<ToolInterval>, calls: string -> Call)
    requires OnePairOverlaps(ops)
    ensures OnePairOverlaps(Dressed(ops, calls))
  {
    var dressed := Dressed(ops, calls);
    forall i, j, k, l | Overlap(dressed, i, j) && Overlap(dressed, k, l) ensures {i, j} == {k, l} {
      var a, b := DressedOverlap(ops, calls, i, j);
      var c, d := DressedOverlap(ops, calls, k, l);
      assert {a, b} == {c, d};
      assert (a == c && b == d) || (a == d && b == c);
    }
  }

  lemma DressedOverlap(ops: set<ToolInterval>, calls: string -> Call, i: ToolInterval, j: ToolInterval)
    returns (a: ToolInterval, b: ToolInterval)
    requires Overlap(Dressed(ops, calls), i, j)
    ensures Overlap(ops, a, b) && i == Dress(a, calls) && j == Dress(b, calls)
  {
    a := DressedAll(ops, calls, i);
    b := DressedAll(ops, calls, j);
  }

  /** For the given intervals of the calls and of one read: the recovery keeps every content
      that some order explains, for all contents of the calls and all lines of the read, if
      and only if the read is decided or there are too few orders. */
  lemma ExactExactly(ops: set<ToolInterval>, o: ReadObservation)
    requires UniqueIds(ops) && WellTimed(ops) && o.start <= o.end
    ensures Harmless(ops, o)
       <==> forall calls: string -> Call, lines: map<nat, string> ::
              NothingLost(Dressed(ops, calls), [o.(lines := lines)])
  {
    if Harmless(ops, o) {
      forall calls: string -> Call, lines: map<nat, string>
        ensures NothingLost(Dressed(ops, calls), [o.(lines := lines)])
      {
        DressedTimed(ops, calls);
        DressedHarmless(ops, o, calls, lines);
        NothingLostFor(Dressed(ops, calls), [o.(lines := lines)]);
      }
    } else {
      var flaw := FindFlaw(ops, o);
      var calls := FlawFails(ops, o, flaw);
      var lines := LossShown(Dressed(ops, calls), o);
    }
  }
}
