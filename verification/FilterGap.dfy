/** The read filter looks at one recorded order per content. A concrete trace shows what
    that loses when a read overlaps a call. */
module FilterGap {
  import opened Wrappers
  import opened Text
  import opened Intervals
  import opened Replay
  import opened Observations
  import opened Recovery

  function Write(id: string, start: int, end: int, content: string): ToolInterval {
    ToolInterval(id, start, end, id, "write_file", "writer", "/novel.md",
                 Args(Some(content), None, None, false), [])
  }

  const B := Write("b", 1, 5, "B")
  const C := Write("c", 2, 6, "C")
  const A := Write("a", 3, 20, "A")
  const OPS := {A, B, C}

  /** A read that saw "B", after calls b and c ended and while call a was running. */
  const READ := ReadObservation(7, 8, "/novel.md", map[1 := "B"], "r", [])

  lemma OneLine(x: char)
    requires x in "ABC"
    ensures SplitLines([x]) == [[x]]
  {
    SplitLinesSingle([x]);
  }

  lemma ShowsB(content: string)
    requires content in {"A", "B", "C"}
    ensures MatchesObservation(content, READ.lines) <==> content == "B"
  {
    assert content == [content[0]];
    OneLine(content[0]);
    assert 1 in READ.lines.Keys;
  }

  lemma RunOf(order: seq<ToolInterval>, file: File)
    requires order != [] && forall i :: 0 <= i < |order| ==> order[i] in OPS
    ensures Run(file, order) == Reached(order[|order| - 1].args.content)
  {
    if |order| > 1 { RunOf(order[1..], order[0].args.content); }
  }

  /** Any order of the three calls. */
  ghost predicate IsOrder(order: seq<ToolInterval>) {
    || order == [A, B, C] || order == [A, C, B] || order == [B, A, C]
    || order == [B, C, A] || order == [C, A, B] || order == [C, B, A]
  }

  lemma LinearizationsOfThree(order: seq<ToolInterval>)
    ensures Linearization(order, OPS) <==> IsOrder(order)
  {
    if Linearization(order, OPS) {
      LinearizationLength(order, OPS);
      assert |OPS| == 3;
      assert order == [order[0], order[1], order[2]];
      assert order[0] in order && order[1] in order && order[2] in order;
    }
    if IsOrder(order) {
      assert order == [order[0], order[1], order[2]];
      assert forall x :: x in order <==> x == order[0] || x == order[1] || x == order[2];
    }
  }

  lemma EndsIn(order: seq<ToolInterval>, text: string)
    ensures Completes(order, OPS, None, text) <==> IsOrder(order) && order[2].args.content == Some(text)
  {
    LinearizationsOfThree(order);
    if IsOrder(order) { RunOf(order, None); }
  }

  /** Call a may still be running when the read happens; calls b and c are over. */
  lemma Insertable(order: seq<ToolInterval>, k: int)
    requires IsOrder(order)
    ensures CanInsert(order, READ, k) <==> k == 3 || (k == 2 && order[2] == A)
  {
    if k == 0 || k == 1 {
      assert order[0] == A ==> order[1].end < READ.start;
      assert order[0] != A ==> order[0].end < READ.start && (order[1] == A || order[1].end < READ.start);
      assert order[1] == A ==> order[2].end < READ.start;
    }
  }

  lemma FitsWhen(order: seq<ToolInterval>)
    requires IsOrder(order)
    ensures Fits(order, [READ]) <==> order[2] == B || order == [C, B, A]
  {
    forall k ensures CanInsert(order, READ, k) <==> k == 3 || (k == 2 && order[2] == A) { Insertable(order, k); }
    RunOf(order[..2], None);
    RunOf(order[..3], None);
    ShowsB(order[1].args.content.value);
    ShowsB(order[2].args.content.value);
    var o := [READ][0];
    if order[2] == B { assert ShownAt(order, READ, 3) && Explains(order, READ); }
    if order == [C, B, A] { assert ShownAt(order, READ, 2) && Explains(order, READ); }
    if Fits(order, [READ]) { assert Explains(order, o); }
  }

  /** Each content is reached by two orders; the recorded one is the first of them. */
  lemma WitnessOfTwo(first: seq<ToolInterval>, second: seq<ToolInterval>, text: string)
    requires IsOrder(first) && first[2].args.content == Some(text) && second != [] && KeyLess(first[0], second[0])
    requires forall order: seq<ToolInterval> :: IsOrder(order) && order[2].args.content == Some(text) ==> order == first || order == second
    ensures IsWitness(first, OPS, None, text)
    ensures text in Outcomes(OPS, None)
    ensures WitnessFits(OPS, [READ], text) <==> first[2] == B || first == [C, B, A]
  {
    EndsIn(first, text);
    OutcomesMeaning(text, OPS, None);
    forall other | Completes(other, OPS, None, text) ensures LexLe(first, other) {
      EndsIn(other, text);
      LexLeReflexive(first);
    }
    FitIsWitnessFit(first, OPS, [READ], text);
    FitsWhen(first);
  }

  lemma ContentA()
    ensures "A" in Outcomes(OPS, None) && !WitnessFits(OPS, [READ], "A")
  {
    WitnessOfTwo([B, C, A], [C, B, A], "A");
  }

  lemma ContentB()
    ensures "B" in Outcomes(OPS, None) && WitnessFits(OPS, [READ], "B")
  {
    WitnessOfTwo([C, A, B], [A, C, B], "B");
  }

  lemma ContentC()
    ensures "C" in Outcomes(OPS, None) && !WitnessFits(OPS, [READ], "C")
  {
    WitnessOfTwo([B, A, C], [A, B, C], "C");
  }

  /** Two contents, "A" and "B", are ends of valid linearizations that explain the read,
      yet "B" alone survives: for "A" the recorded order is b, c, a, which does not. So a
      single surviving content does not mean that the trace allows only that one. */
  lemma FilterForgetsOrders()
    ensures Survivors(OPS, [READ]) == {"B"}
    ensures Completes([C, B, A], OPS, None, "A") && Fits([C, B, A], [READ])
  {
    LostOrder();
    forall text: string ensures text in Survivors(OPS, [READ]) <==> text == "B" {
      SurvivesOnlyB(text);
    }
  }

  lemma LostOrder()
    ensures Completes([C, B, A], OPS, None, "A") && Fits([C, B, A], [READ])
  {
    EndsIn([C, B, A], "A");
    FitsWhen([C, B, A]);
  }

  lemma SurvivesOnlyB(text: string)
    ensures text in Survivors(OPS, [READ]) <==> text == "B"
  {
    ContentA();
    ContentB();
    ContentC();
    TwoElements(Outcomes(OPS, None), "A", "B");
    if text in Outcomes(OPS, None) { OnlyThree(text); }
  }

  lemma OnlyThree(text: string)
    requires text in Outcomes(OPS, None)
    ensures text in {"A", "B", "C"}
  {
    OutcomesMeaning(text, OPS, None);
    var order :| Completes(order, OPS, None, text);
    EndsIn(order, text);
  }
}
