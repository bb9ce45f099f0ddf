/** A family of intervals around a read that leaves its order open, with the calls for which
    the recovery drops an explained content: the last write hides which of two calls that are
    over came first. */
module FilterOverwritten {
  import opened Wrappers
  import opened Text
  import opened Intervals
  import opened Replay
  import opened Observations
  import opened Recovery
  import opened Confluence
  import opened FilterShape
  import opened FilterTools
  import opened FilterLastWrite

  // ---------------------------------------------------------------- tools

  /** Of the calls that are over, all others come after `f`. */
  ghost predicate FirstOver(ops: set<ToolInterval>, o: ReadObservation, f: ToolInterval) {
    forall b :: b in ops && IsOver(b, o) && b != f ==> MustPrecede(f, b)
  }

  /** Of the calls that are over, all others come before `l`. */
  ghost predicate LastOver(ops: set<ToolInterval>, o: ReadObservation, l: ToolInterval) {
    forall b :: b in ops && IsOver(b, o) && b != l ==> MustPrecede(b, l)
  }

  ghost predicate GreatestOver(ops: set<ToolInterval>, o: ReadObservation, l: ToolInterval) {
    forall b :: b in ops && IsOver(b, o) && b != l ==> KeyLess(b, l)
  }

  /** Where two calls stand when `f` is first and the others are in key order. */
  lemma InOrder(w: seq<ToolInterval>, rest: seq<ToolInterval>, ops: set<ToolInterval>, f: ToolInterval,
                u: ToolInterval, v: ToolInterval) returns (i: nat, j: nat)
    requires u in ops && v in ops && KeyLess(u, v) && f != v && w == [f] + rest
    requires SortedByKey(rest) && Linearization(rest, ops - {f})
    ensures i < j < |w| && w[i] == u && w[j] == v
  {
    assert v in rest;
    var n: nat :| n < |rest| && rest[n] == v;
    j := n + 1;
    if u == f {
      i := 0;
    } else {
      assert u in rest;
      var m: nat :| m < |rest| && rest[m] == u;
      KeyLessTotal(u, v);
      i := m + 1;
    }
  }

  /** The edit of the dot behind `c` is never seen if it is never made there. */
  lemma NoEditOf(s: seq<ToolInterval>, ops: set<ToolInterval>, e: ToolInterval, g: ToolInterval, c: char)
    requires Dots(ops, e, g) && IsSwap(e, '.', '+') && Distinct(s) && forall b :: b in s ==> b in ops
    requires c != '.' && c != '+'
    requires forall j :: 0 <= j < |s| && s[j] == e ==> Run(None, s[..j]) != Reached(Some([c, '.']))
    ensures Run(None, s) != Reached(Some([c, '+']))
  {
    DotsMake(ops, e, g);
    if e in s {
      var j: nat :| j < |s| && s[j] == e;
      NoEditAt(s, ops, e, g, c, j);
    } else {
      NotWithout(s, ops, e, [c, '+']);
    }
  }

  lemma NoEditAt(s: seq<ToolInterval>, ops: set<ToolInterval>, e: ToolInterval, g: ToolInterval, c: char, j: nat)
    requires Dots(ops, e, g) && IsSwap(e, '.', '+') && Distinct(s) && forall b :: b in s ==> b in ops
    requires c != '.' && c != '+'
    requires j < |s| && s[j] == e && Run(None, s[..j]) != Reached(Some([c, '.']))
    ensures Run(None, s) != Reached(Some([c, '+']))
  {
    AroundOne(s, ops, j);
    EditedElsewhere(s[..j], ops, e, g, c);
    RunSnoc(None, s[..j], e);
    RunConcat(None, s[..j] + [e], s[j + 1..]);
    if Run(None, s[..j] + [e]).Reached? {
      DotsMake(ops, e, g);
      NeverMade(Run(None, s[..j] + [e]).file, s[j + 1..], [c, '+']);
    }
  }

  /** No call makes a line of other length: all contents have two characters. */
  lemma {:induction false} TwoLong(p: seq<ToolInterval>, ops: set<ToolInterval>, e: ToolInterval, g: ToolInterval, file: File)
    requires Dots(ops, e, g) && (forall b :: b in p ==> b in ops) && (file.Some? ==> |file.value| == 2)
    ensures Run(file, p).Reached? && Run(file, p).file.Some? ==> |Run(file, p).file.value| == 2
    decreases |p|
  {
    if p != [] && Apply(file, p[0]).Some? {
      assert p[0] in p;
      if file.Some? && p[0] == e && IsSwap(e, '.', '+') {
        assert file.value == [file.value[0], file.value[1]];
        EditApplied(e, file.value, ".", "+", false);
        EditOfTwo(file.value[0], file.value[1]);
      } else if IsKeep(p[0]) {
        KeepApplied(p[0], file);
      }
      TwoLong(p[1..], ops, e, g, Apply(file, p[0]));
    }
  }

  lemma EditedElsewhere(pre: seq<ToolInterval>, ops: set<ToolInterval>, e: ToolInterval, g: ToolInterval, c: char)
    requires Dots(ops, e, g) && IsSwap(e, '.', '+') && c != '.' && c != '+' && forall b :: b in pre ==> b in ops
    requires Run(None, pre) != Reached(Some([c, '.']))
    ensures Run(None, pre).Reached? ==> Apply(Run(None, pre).file, e) != Some([c, '+'])
  {
    TwoLong(pre, ops, e, g, None);
    if Run(None, pre).Reached? && Run(None, pre).file.Some? { EditOfPlain(Run(None, pre).file.value, e, c); }
  }

  lemma EditOfPlain(text: string, e: ToolInterval, c: char)
    requires IsSwap(e, '.', '+') && |text| == 2 && c != '.' && c != '+' && text != [c, '.']
    ensures Apply(Some(text), e) != Some([c, '+'])
  {
    assert text == [text[0], text[1]];
    EditApplied(e, text, ".", "+", false);
    EditOfTwo(text[0], text[1]);
  }

  // ---------------------------------------------------------------- which of two calls was over last

  /** `f` can be first; `u` and `v` are over, and overlap; either `f` is `u` and `v` could be
      first too, or all calls that are over come after `f`. The last write is `g`. It overlaps
      `w`, which is `v`, or the last `e` of the calls that are over, or another `h` that is
      not over; where `e` and `h` play no part they are `g`. */
  ghost predicate Tail(ops: set<ToolInterval>, o: ReadObservation, f: ToolInterval, u: ToolInterval, v: ToolInterval,
                       e: ToolInterval, g: ToolInterval, h: ToolInterval, w: ToolInterval)
  {
    && f in ops && u in ops && v in ops && e in ops && g in ops && h in ops
    && KeyLess(u, v) && Concurrent(u, v) && f != v
    && IsOver(f, o) && IsOver(u, o) && IsOver(v, o) && !IsOver(g, o)
    && Ready(f, ops) && (if f == u then Ready(v, ops) else FirstOver(ops, o, f))
    && (e != g ==> IsOver(e, o) && e != u && e != v && e != f && GreatestOver(ops, o, e))
    && (h != g ==> !IsOver(h, o) && KeyLess(h, g))
    && (w == v || w == e || w == h) && w != g && Concurrent(g, w)
  }

  ghost predicate TailCalls(ops: set<ToolInterval>, f: ToolInterval, u: ToolInterval, v: ToolInterval, e: ToolInterval,
                            g: ToolInterval, h: ToolInterval)
  {
    && f in ops && u in ops && v in ops && e in ops && g in ops && h in ops
    && u != v && f != v && f != g && u != g && v != g && e != u && e != v && e != f && h != u && h != v && h != f
    && (e == h ==> e == g)
    && IsWrite(u, "U.") && IsWrite(v, "V.") && (f != u ==> IsWrite(f, "F.")) && IsWrite(g, "#.")
    && (e != g ==> IsSwap(e, '.', '+')) && (h != g ==> IsWrite(h, "H."))
    && forall b :: b in ops && b != f && b != u && b != v && b != e && b != g && b != h ==> IsKeep(b)
  }

  /** What the read saw: the dot of `u`, or its edit. */
  function TailLine(e: ToolInterval, g: ToolInterval): string {
    if e == g then "U." else "U+"
  }

  lemma TailDots(ops: set<ToolInterval>, f: ToolInterval, u: ToolInterval, v: ToolInterval, e: ToolInterval,
                 g: ToolInterval, h: ToolInterval)
    requires TailCalls(ops, f, u, v, e, g, h)
    ensures Dots(ops, e, g) && IsDot(f) && IsDot(u) && IsDot(v) && !Active(g, e)
    ensures forall b :: b in ops && IsDot(b) ==> b == f || b == u || b == v || (b == h && h != g)
    ensures e != g ==> Active(e, e)
    ensures h != g ==> Active(h, e)
    ensures OnlyMaker(ops, u, "U.")
  {
    DotMake(ops, e, g, u, "U.");
  }

  /** In the recorded order `v` comes after `u`: once both are done, "U." is gone. */
  lemma TailUnseen(w: seq<ToolInterval>, rest: seq<ToolInterval>, ops: set<ToolInterval>, o: ReadObservation,
                   f: ToolInterval, u: ToolInterval, v: ToolInterval, e: ToolInterval, g: ToolInterval, h: ToolInterval,
                   x: ToolInterval)
    requires Tail(ops, o, f, u, v, e, g, h, x) && TailCalls(ops, f, u, v, e, g, h) && w == [f] + rest
    requires SortedByKey(rest) && Linearization(rest, ops - {f}) && Linearization(w, ops)
    ensures !Explains(w, OneLine(o, TailLine(e, g)))
  {
    TailDots(ops, f, u, v, e, g, h);
    DotsTame(ops, e, g);
    var i, j := InOrder(w, rest, ops, f, u, v);
    forall k: nat | k <= |w| ensures !ShownAt(w, OneLine(o, TailLine(e, g)), k) {
      if CanInsert(w, o, k) {
        assert j < k;
        PartOf(w, ops, k);
        assert w[..k][i] == u && w[..k][j] == v;
        if e == g {
          LaterWins(w[..k], ops, u, v, "V.", "U.", i, j);
        } else {
          TailNoEdit(w, rest, ops, o, f, u, v, e, g, h, x, i, j, k);
        }
        NotShownAt(w, o, TailLine(e, g), k);
      }
    }
  }

  lemma TailNoEdit(w: seq<ToolInterval>, rest: seq<ToolInterval>, ops: set<ToolInterval>, o: ReadObservation,
                   f: ToolInterval, u: ToolInterval, v: ToolInterval, e: ToolInterval, g: ToolInterval, h: ToolInterval,
                   x: ToolInterval, i: nat, j: nat, k: nat)
    requires Tail(ops, o, f, u, v, e, g, h, x) && TailCalls(ops, f, u, v, e, g, h) && w == [f] + rest && e != g
    requires SortedByKey(rest) && Linearization(rest, ops - {f}) && Linearization(w, ops)
    requires i < j < k <= |w| && w[i] == u && w[j] == v
    ensures Run(None, w[..k]) != Reached(Some("U+"))
  {
    TailDots(ops, f, u, v, e, g, h);
    assert KeyLess(v, e);
    var jj, n := InOrder(w, rest, ops, f, v, e);
    SamePlace(w, j, jj);
    PartOf(w, ops, k);
    forall m | 0 <= m < |w[..k]| && w[..k][m] == e ensures Run(None, w[..k][..m]) != Reached(Some("U.")) {
      SamePlace(w, m, n);
      assert w[..k][..m] == w[..n];
      PartOf(w, ops, n);
      assert w[..n][i] == u && w[..n][j] == v;
      LaterWins(w[..n], ops, u, v, "V.", "U.", i, j);
    }
    NoEditOf(w[..k], ops, e, g, 'U');
  }

  /** What has to be over when `v` is, among the calls that are over. */
  function OverWith(ops: set<ToolInterval>, o: ReadObservation, v: ToolInterval): set<ToolInterval> {
    set b | b in ops && IsOver(b, o) && (b == v || MustPrecede(b, v))
  }

  /** The other order: all that `v` needs, `v`, the other calls that are over, the rest. */
  lemma TailSeen(ops: set<ToolInterval>, o: ReadObservation, f: ToolInterval, u: ToolInterval, v: ToolInterval,
                 e: ToolInterval, g: ToolInterval, h: ToolInterval, x: ToolInterval)
    returns (p: seq<ToolInterval>)
    requires Timed(ops, o) && Tail(ops, o, f, u, v, e, g, h, x) && TailCalls(ops, f, u, v, e, g, h)
    ensures Completes(p, ops, None, "#.") && Explains(p, OneLine(o, TailLine(e, g)))
  {
    var over, first := Before(ops, o), OverWith(ops, o, v);
    var b := if f == u then v else f;
    TailStages(ops, o, f, u, v, e, g, h, x);
    var front, mid, rest := StagedTwice(b, first, over, ops);
    TailDots(ops, f, u, v, e, g, h);
    TailRun(front, mid, ops, o, f, u, v, e, g, h, x);
    p := front + mid + rest;
    TailBehind(ops, o, f, u, v, e, g, h, x);
    ShowsAndEnds(front + mid, over, rest, ops, o, e, g, TailLine(e, g));
  }

  lemma TailBehind(ops: set<ToolInterval>, o: ReadObservation, f: ToolInterval, u: ToolInterval, v: ToolInterval,
                   e: ToolInterval, g: ToolInterval, h: ToolInterval, x: ToolInterval)
    requires Timed(ops, o) && Tail(ops, o, f, u, v, e, g, h, x) && TailCalls(ops, f, u, v, e, g, h)
    ensures forall b :: b in ops - Before(ops, o) && Active(b, e) ==> KeyLess(b, g)
    ensures forall b :: b in Before(ops, o) ==> KeyLess(b, g)
  {
    TailDots(ops, f, u, v, e, g, h);
  }

  lemma TailStages(ops: set<ToolInterval>, o: ReadObservation, f: ToolInterval, u: ToolInterval, v: ToolInterval,
                   e: ToolInterval, g: ToolInterval, h: ToolInterval, x: ToolInterval)
    requires Timed(ops, o) && Tail(ops, o, f, u, v, e, g, h, x) && TailCalls(ops, f, u, v, e, g, h)
    ensures var over, first := Before(ops, o), OverWith(ops, o, v);
            && first <= over && Downward(first, over - first) && Downward(over, ops - over)
            && v in first && u in over - first && g !in over && f in over
            && (e != g ==> e in over - first)
            && (f == u ==> Ready(v, first)) && (f != u ==> Ready(f, first))
  {
    KeyLessTotal(u, v);
    if e != g { KeyLessTotal(v, e); }
  }

  lemma TailRun(front: seq<ToolInterval>, mid: seq<ToolInterval>, ops: set<ToolInterval>, o: ReadObservation,
                f: ToolInterval, u: ToolInterval, v: ToolInterval, e: ToolInterval, g: ToolInterval, h: ToolInterval,
                x: ToolInterval)
    requires Timed(ops, o) && Tail(ops, o, f, u, v, e, g, h, x) && TailCalls(ops, f, u, v, e, g, h)
    requires var over, first := Before(ops, o), OverWith(ops, o, v);
             && Linearization(front, first) && Linearization(mid, over - first) && SortedByKey(mid)
    requires front != [] && front[0] == if f == u then v else f
    ensures Run(None, front + mid) == Reached(Some(TailLine(e, g)))
  {
    var over, first := Before(ops, o), OverWith(ops, o, v);
    TailStages(ops, o, f, u, v, e, g, h, x);
    TailDots(ops, f, u, v, e, g, h);
    forall a | a in front ensures a in ops { assert a in first; }
    DotsSoFar(front, ops, e, g);
    RunConcat(None, front, mid);
    assert f != u ==> front[0] in front && f in first;
    if e == g {
      TailMid(Run(None, front).file, mid, over - first, ops, f, u, v, e, g, h, o);
    } else {
      TailMidEdit(Run(None, front).file, mid, over - first, ops, f, u, v, e, g, h, o);
    }
  }

  lemma TailMidEdit(file: File, mid: seq<ToolInterval>, part: set<ToolInterval>, ops: set<ToolInterval>, f: ToolInterval,
                    u: ToolInterval, v: ToolInterval, e: ToolInterval, g: ToolInterval, h: ToolInterval, o: ReadObservation)
    requires TailCalls(ops, f, u, v, e, g, h) && file.Some? && SortedByKey(mid) && Linearization(mid, part) && e != g
    requires part <= Before(ops, o) && u in part && v !in part && (f != u ==> f !in part) && e in part
    requires !IsOver(g, o) && !IsOver(h, o) && forall b :: b in part && b != e ==> KeyLess(b, e)
    ensures Run(file, mid) == Reached(Some("U+"))
  {
    GreatestLast(mid, part, e);
    var n := |mid| - 1;
    assert mid == mid[..n] + [e];
    InitOf(mid, part, e);
    TailMid(file, mid[..n], part - {e}, ops, f, u, v, e, g, h, o);
    RunSnoc(file, mid[..n], e);
    SwapDot(e, 'U');
  }

  lemma InitOf(s: seq<ToolInterval>, part: set<ToolInterval>, e: ToolInterval)
    requires Linearization(s, part) && s != [] && s[|s| - 1] == e
    ensures Linearization(s[..|s| - 1], part - {e})
  {
    var n := |s| - 1;
    RemoveOne(e, s[..n], [], part);
    assert s[..n] + [e] + [] == s && s[..n] + [] == s[..n];
  }

  /** Among the calls in between only `u` changes the file. */
  lemma TailMid(file: File, mid: seq<ToolInterval>, part: set<ToolInterval>, ops: set<ToolInterval>, f: ToolInterval,
                u: ToolInterval, v: ToolInterval, e: ToolInterval, g: ToolInterval, h: ToolInterval, o: ReadObservation)
    requires TailCalls(ops, f, u, v, e, g, h) && file.Some? && Linearization(mid, part)
    requires part <= Before(ops, o) && u in part && v !in part && (f != u ==> f !in part) && e !in part
    requires !IsOver(g, o) && !IsOver(h, o)
    ensures Run(file, mid) == Reached(Some("U."))
  {
    assert u in mid;
    forall b | b in mid && b != u ensures IsKeep(b) {
      assert b in part && b in ops && IsOver(b, o);
    }
    OneActs(file, mid, u);
  }

  lemma TailLost(ops: set<ToolInterval>, o: ReadObservation, f: ToolInterval, u: ToolInterval, v: ToolInterval,
                 e: ToolInterval, g: ToolInterval, h: ToolInterval, w: ToolInterval)
    requires Timed(ops, o) && Tail(ops, o, f, u, v, e, g, h, w) && TailCalls(ops, f, u, v, e, g, h)
    ensures Explained(ops, [OneLine(o, TailLine(e, g))], "#.") && "#." !in Survivors(ops, [OneLine(o, TailLine(e, g))])
  {
    TailDots(ops, f, u, v, e, g, h);
    var rest := ByKey(ops - {f});
    TailFirst(ops, o, f, u, v, e, g, h, w);
    TailBehind(ops, o, f, u, v, e, g, h, w);
    DotsRecorded(f, rest, ops, e, g);
    TailUnseen([f] + rest, rest, ops, o, f, u, v, e, g, h, w);
    var p := TailSeen(ops, o, f, u, v, e, g, h, w);
    var q, other := OtherContent(ops, e, g, f, w);
    Lost([f] + rest, p, q, ops, OneLine(o, TailLine(e, g)), "#.", other);
  }

  lemma TailFirst(ops: set<ToolInterval>, o: ReadObservation, f: ToolInterval, u: ToolInterval, v: ToolInterval,
                  e: ToolInterval, g: ToolInterval, h: ToolInterval, w: ToolInterval)
    requires Timed(ops, o) && Tail(ops, o, f, u, v, e, g, h, w) && TailCalls(ops, f, u, v, e, g, h)
    ensures forall b :: b in ops && b != f && IsDot(b) ==> !Ready(b, ops) || KeyLess(f, b)
    ensures w in ops && w != f && Active(w, e)
  {
    TailDots(ops, f, u, v, e, g, h);
  }
}
