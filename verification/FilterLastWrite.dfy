/** Traces on which the recovery drops an explained content: a last write hides what came
    before it, and it is the last one only in some of the orders. */
module FilterLastWrite {
  import opened Wrappers
  import opened Text
  import opened Intervals
  import opened Replay
  import opened Observations
  import opened Recovery
  import opened Confluence
  import opened FilterShape
  import opened FilterTools

  // ---------------------------------------------------------------- dots, one edit, one last write

  /** Writes a letter and a dot. */
  ghost predicate IsDot(a: ToolInterval) {
    && a.toolName == "write_file" && a.args.content.Some?
    && var text := a.args.content.value;
    && |text| == 2 && text[1] == '.' && text[0] != '.' && text[0] != '+' && text[0] != '#' && BreakFree(text)
  }

  /** All calls write a letter and a dot or change nothing, but for `e`, which may replace the
      dot, and `g`, which writes "#.". */
  ghost predicate Dots(ops: set<ToolInterval>, e: ToolInterval, g: ToolInterval) {
    && g in ops && IsWrite(g, "#.")
    && forall a :: a in ops && a != g ==> IsDot(a) || IsKeep(a) || (a == e && IsSwap(e, '.', '+'))
  }

  /** The calls besides `g` that change the file. */
  ghost predicate Active(a: ToolInterval, e: ToolInterval) {
    IsDot(a) || (a == e && IsSwap(e, '.', '+'))
  }

  lemma DotsTame(ops: set<ToolInterval>, e: ToolInterval, g: ToolInterval)
    requires Dots(ops, e, g)
    ensures forall a :: a in ops ==> Tame(a)
  {
    forall a | a in ops ensures Tame(a) {
      if a == g { WriteTame(g, "#."); }
      else if IsDot(a) { WriteTame(a, a.args.content.value); }
      else if IsKeep(a) { EditTame(a, "~", "~", false); }
      else { EditTame(e, ".", "+", false); }
    }
  }

  /** A sign, and the dot if it has not been replaced. */
  ghost predicate Dotted(text: string, edited: bool) {
    |text| == 2 && text[0] != '.' && (!edited ==> text[1] == '.')
  }

  lemma SwapDot(e: ToolInterval, c: char)
    requires IsSwap(e, '.', '+') && c != '.'
    ensures Apply(Some([c, '.']), e) == Some([c, '+'])
  {
    EditApplied(e, [c, '.'], ".", "+", false);
    ReplaceFront(c, ".", '.', "+");
    ReplaceFront('.', "", '.', "+");
    ReplaceNothing('.', "+");
    assert [c, '.'] == [c] + "." && "." == ['.'] + "" && [c] + ("+" + "") == [c, '+'];
  }

  /** Every order that begins with a write is valid. */
  lemma {:induction false} DotsSoFar(p: seq<ToolInterval>, ops: set<ToolInterval>, e: ToolInterval, g: ToolInterval)
    requires Dots(ops, e, g) && p != [] && (IsDot(p[0]) || p[0] == g) && Distinct(p) && forall a :: a in p ==> a in ops
    ensures Run(None, p).Reached? && Run(None, p).file.Some? && Dotted(Run(None, p).file.value, e in p && IsSwap(e, '.', '+'))
    decreases |p|
  {
    var n := |p| - 1;
    if n == 0 {
      RunSnoc(None, [], p[0]);
      assert p == [] + [p[0]];
    } else {
      var q, a := p[..n], p[n];
      assert p == q + [a] && a in p && a !in q;
      forall b | b in q ensures b in ops { assert b in p; }
      DotsSoFar(q, ops, e, g);
      RunSnoc(None, q, a);
      DotsStep(a, ops, e, g, Run(None, q).file.value, e in q && IsSwap(e, '.', '+'));
    }
  }

  lemma DotsStep(a: ToolInterval, ops: set<ToolInterval>, e: ToolInterval, g: ToolInterval, text: string, edited: bool)
    requires Dots(ops, e, g) && a in ops && Dotted(text, edited) && (edited ==> a != e)
    ensures Apply(Some(text), a).Some? && Dotted(Apply(Some(text), a).value, edited || (a == e && IsSwap(e, '.', '+')))
  {
    if !IsDot(a) && a != g {
      if IsKeep(a) {
        KeepApplied(a, Some(text));
      } else {
        assert text == [text[0], '.'];
        SwapDot(e, text[0]);
      }
    }
  }

  /** `g` comes after all other calls that change the file. */
  ghost predicate LastActive(p: seq<ToolInterval>, e: ToolInterval, g: ToolInterval) {
    exists j :: 0 <= j < |p| && p[j] == g && forall i :: j < i < |p| ==> !Active(p[i], e)
  }

  /** Then the order ends in "#.". */
  lemma DotsComplete(p: seq<ToolInterval>, ops: set<ToolInterval>, e: ToolInterval, g: ToolInterval)
    requires Dots(ops, e, g) && Linearization(p, ops) && p != [] && IsDot(p[0]) && LastActive(p, e, g)
    ensures Completes(p, ops, None, "#.")
  {
    var j: nat :| j < |p| && p[j] == g && forall i :: j < i < |p| ==> !Active(p[i], e);
    var q, rest := p[..j], p[j + 1..];
    assert p == (q + [g]) + rest;
    AroundOne(p, ops, j);
    forall b | b in rest ensures IsKeep(b) {
      var i :| 0 <= i < |rest| && rest[i] == b;
      assert p[j + 1 + i] == b;
    }
    if j > 0 {
      assert q[0] == p[0];
      DotsSoFar(q, ops, e, g);
    }
    RunSnoc(None, q, g);
    RunConcat(None, q + [g], rest);
    KeepsRun(Some("#."), rest);
  }

  /** Which calls make which contents. */
  lemma DotsMake(ops: set<ToolInterval>, e: ToolInterval, g: ToolInterval)
    requires Dots(ops, e, g)
    ensures OnlyMaker(ops, g, "#.")
    ensures forall c :: OnlyMaker(ops, e, [c, '+'])
  {
    forall a | a in ops && a != g ensures !Makes(a, "#.") {
      if IsDot(a) { WriteMakes(a, a.args.content.value, "#."); }
      else if IsKeep(a) { KeepMakes(a, "#."); }
      else { SwapMakes(e, '.', '+', "#."); }
    }
    forall c, a | a in ops && a != e ensures !Makes(a, [c, '+']) {
      if IsDot(a) { WriteMakes(a, a.args.content.value, [c, '+']); }
      else if IsKeep(a) { KeepMakes(a, [c, '+']); }
      else { WriteMakes(g, "#.", [c, '+']); }
    }
  }

  /** Each dot is made by the call that writes it. */
  lemma DotMake(ops: set<ToolInterval>, e: ToolInterval, g: ToolInterval, a: ToolInterval, text: string)
    requires Dots(ops, e, g) && |text| == 2 && text[1] == '.' && text[0] != '+' && text[0] != '#'
    requires forall b :: b in ops && b != a && IsDot(b) ==> b.args.content.value != text
    ensures OnlyMaker(ops, a, text)
  {
    forall b | b in ops && b != a ensures !Makes(b, text) {
      if b == g { WriteMakes(g, "#.", text); }
      else if IsDot(b) { WriteMakes(b, b.args.content.value, text); }
      else if IsKeep(b) { KeepMakes(b, text); }
      else { SwapMakes(e, '.', '+', text); }
    }
  }

  /** With something active after `g`, the order ends in another content. */
  lemma EndsElsewhere(p: seq<ToolInterval>, ops: set<ToolInterval>, e: ToolInterval, g: ToolInterval, i: nat, j: nat)
    returns (other: string)
    requires Dots(ops, e, g) && Linearization(p, ops) && p != [] && (IsDot(p[0]) || p[0] == g)
    requires i < j < |p| && p[i] == g && Active(p[j], e)
    ensures Completes(p, ops, None, other) && other != "#."
  {
    DotsSoFar(p, ops, e, g);
    other := Run(None, p).file.value;
    AroundOne(p, ops, j);
    var q, w, rest := p[..j], p[j], p[j + 1..];
    assert q[0] == p[0] && q[i] == g;
    DotsSoFar(q, ops, e, g);
    RunSnoc(None, q, w);
    RunConcat(None, q + [w], rest);
    ActiveLeaves(w, ops, e, g, Run(None, q).file.value);
    DotsMake(ops, e, g);
    forall b | b in rest ensures !Makes(b, "#.") {
      var n :| 0 <= n < |rest| && rest[n] == b;
      assert b == p[j + 1 + n];
    }
    if Run(None, q + [w]).Reached? { NeverMade(Run(None, q + [w]).file, rest, "#."); }
  }

  lemma ActiveLeaves(w: ToolInterval, ops: set<ToolInterval>, e: ToolInterval, g: ToolInterval, text: string)
    requires Dots(ops, e, g) && w in ops && Active(w, e) && |text| == 2
    ensures Apply(Some(text), w) != Some("#.")
  {
    if !IsDot(w) {
      assert text == [text[0], text[1]];
      EditApplied(e, text, ".", "+", false);
      EditOfTwo(text[0], text[1]);
    }
  }

  lemma EditOfTwo(c: char, d: char)
    ensures ReplaceAll([c, d], ".", "+") == [if c == '.' then '+' else c, if d == '.' then '+' else d]
    ensures Count([c, d], ".") == (if c == '.' then 1 else 0) + (if d == '.' then 1 else 0)
  {
    ReplaceFront(c, [d], '.', "+");
    ReplaceFront(d, "", '.', "+");
    ReplaceNothing('.', "+");
    assert [c, d] == [c] + [d] && [d] == [d] + "";
  }

  /** A valid order that ends in "#." begins with a dot, if there is a dot. */
  lemma DotFirst(p: seq<ToolInterval>, ops: set<ToolInterval>, e: ToolInterval, g: ToolInterval, f: ToolInterval)
    requires Dots(ops, e, g) && Completes(p, ops, None, "#.") && f in ops && IsDot(f)
    ensures p != [] && p[0] in ops && IsDot(p[0])
  {
    assert f in p && p[0] in p;
    if p[0] == g {
      var j: nat :| j < |p| && p[j] == f;
      var other := EndsElsewhere(p, ops, e, g, 0, j);
    } else if !IsDot(p[0]) {
      CompletesCons(p, ops, None, "#.");
    }
  }

  /** The recorded order of "#.": `f` first, all others by key. */
  lemma DotsRecorded(f: ToolInterval, rest: seq<ToolInterval>, ops: set<ToolInterval>, e: ToolInterval, g: ToolInterval)
    requires UniqueIds(ops) && WellTimed(ops) && Dots(ops, e, g) && f in ops && f != g && IsDot(f) && Ready(f, ops)
    requires forall b :: b in ops && b != f && Active(b, e) ==> KeyLess(b, g)
    requires forall b :: b in ops && b != f && IsDot(b) ==> !Ready(b, ops) || KeyLess(f, b)
    requires SortedByKey(rest) && Linearization(rest, ops - {f})
    ensures IsWitness([f] + rest, ops, None, "#.")
  {
    LinearizationCons(f, rest, ops);
    BehindByKey([f], rest, ops - {f}, e, g);
    DotsComplete([f] + rest, ops, e, g);
    forall p | Completes(p, ops, None, "#.") && p != [] ensures p[0] == f || KeyLess(f, p[0]) {
      DotFirst(p, ops, e, g, f);
      CompletesCons(p, ops, None, "#.");
    }
    FrontRecorded(f, rest, ops, "#.");
  }

  /** In a last stretch by key, `g` stands behind the active calls of smaller key. */
  lemma BehindByKey(front: seq<ToolInterval>, rest: seq<ToolInterval>, part: set<ToolInterval>, e: ToolInterval, g: ToolInterval)
    requires SortedByKey(rest) && Linearization(rest, part) && g in part
    requires forall b :: b in part && Active(b, e) ==> b == g || KeyLess(b, g)
    requires !Active(g, e)
    ensures LastActive(front + rest, e, g)
  {
    assert g in rest;
    var j: nat :| j < |rest| && rest[j] == g;
    var p, n := front + rest, |front| + j;
    assert p[n] == g;
    forall i | n < i < |p| ensures !Active(p[i], e) {
      var b := rest[i - |front|];
      assert p[i] == b && b in rest;
      KeyLessTotal(b, g);
    }
  }

  /** A closed part in front of the read, all others behind it by key, `g` among them. */
  lemma ShowsAndEnds(head: seq<ToolInterval>, first: set<ToolInterval>, rest: seq<ToolInterval>, ops: set<ToolInterval>,
                     o: ReadObservation, e: ToolInterval, g: ToolInterval, line: string)
    requires Dots(ops, e, g) && first <= ops && g !in first && !Active(g, e)
    requires forall b :: b in ops - first && Active(b, e) ==> KeyLess(b, g)
    requires (forall b :: b in first ==> !IsLater(b, o)) && (forall b :: b in ops - first ==> !IsOver(b, o))
    requires Linearization(head, first) && head != [] && IsDot(head[0])
    requires BreakFree(line) && line != "" && Run(None, head) == Reached(Some(line))
    requires SortedByKey(rest) && Linearization(rest, ops - first) && Linearization(head + rest, ops)
    ensures Completes(head + rest, ops, None, "#.") && Explains(head + rest, OneLine(o, line))
  {
    BehindByKey(head, rest, ops - first, e, g);
    DotsComplete(head + rest, ops, e, g);
    RoomBehind(head, first, rest, ops - first, o);
    assert (head + rest)[..|head|] == head;
    IsShownAt(head + rest, o, line, |head|);
  }

  /** A second content: begin with the dot `b`, place `g` as early as possible, and the active
      call `w`, which overlaps it, after it. */
  lemma OtherContent(ops: set<ToolInterval>, e: ToolInterval, g: ToolInterval, b: ToolInterval, w: ToolInterval)
    returns (q: seq<ToolInterval>, other: string)
    requires UniqueIds(ops) && WellTimed(ops) && Dots(ops, e, g) && b in ops && Ready(b, ops) && (IsDot(b) || b == g)
    requires w in ops && w != b && w != g && Concurrent(g, w) && Active(w, e)
    ensures Completes(q, ops, None, other) && other != "#."
  {
    var first := Down(ops, g) + {b};
    DownClosed(ops, g, b);
    var front, rest := Staged(b, first, ops);
    q := front + rest;
    assert g in front && w in rest;
    var i: nat :| i < |front| && front[i] == g;
    var j: nat :| j < |rest| && rest[j] == w;
    assert q[i] == g && q[|front| + j] == w && q[0] == b;
    other := EndsElsewhere(q, ops, e, g, i, |front| + j);
  }

  lemma DownClosed(ops: set<ToolInterval>, g: ToolInterval, b: ToolInterval)
    requires UniqueIds(ops) && WellTimed(ops) && g in ops && b in ops && Ready(b, ops)
    ensures var first := Down(ops, g) + {b};
            first <= ops && Ready(b, first) && Downward(first, ops - first)
  {
    var first := Down(ops, g) + {b};
    forall x, y | x in first && y in ops - first ensures !MustPrecede(y, x) {
      if MustPrecede(y, x) && x != b && x != g { assert MustPrecede(y, g); }
    }
  }
}
