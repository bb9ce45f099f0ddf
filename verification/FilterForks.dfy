/** More families of intervals with their calls: which of two writes was edited, an edit that
    came early, and calls that may but need not wait for the read. */
module FilterForks {
  import opened Wrappers
  import opened Text
  import opened Intervals
  import opened Replay
  import opened Observations
  import opened Recovery
  import opened Confluence
  import opened FilterShape
  import opened FilterSuffices
  import opened FilterTools
  import opened FilterLastWrite
  import opened FilterOverwritten

  // ---------------------------------------------------------------- which of two writes was edited

  /** All calls that `y` waits for are among `p` and `q`, and so are all that are over. */
  ghost predicate OnlyBehind(ops: set<ToolInterval>, o: ReadObservation, p: ToolInterval, q: ToolInterval, y: ToolInterval) {
    forall b :: b in ops && b != p && b != q ==> !IsOver(b, o) && !MustPrecede(b, y)
  }

  /** `p` and `q` can both be first, and `y` comes after these two alone; the last write is `g`,
      which overlaps one of them or another `h`; where `h` plays no part it is `g`. */
  ghost predicate Fork(ops: set<ToolInterval>, o: ReadObservation, p: ToolInterval, q: ToolInterval, y: ToolInterval,
                       g: ToolInterval, h: ToolInterval, w: ToolInterval)
  {
    && p in ops && q in ops && y in ops && g in ops && h in ops && g != p && g != q && g != y
    && Ready(p, ops) && Ready(q, ops) && KeyLess(p, q) && MustPrecede(p, y) && MustPrecede(q, y) && KeyLess(y, g)
    && !IsLater(p, o) && !IsLater(q, o) && !IsLater(y, o)
    && OnlyBehind(ops, o, p, q, y)
    && (h != g ==> h != p && h != q && h != y && KeyLess(h, g))
    && (w == p || w == q || w == y || w == h) && w != g && Concurrent(g, w)
  }

  /** `l`, the last of the calls that are over, overlaps `x`, which is running and needs only
      calls that are over; `f` is the first of them, and not `l`. The last write is `g`. */
  ghost predicate Late(ops: set<ToolInterval>, o: ReadObservation, f: ToolInterval, l: ToolInterval, x: ToolInterval,
                       g: ToolInterval, h: ToolInterval, w: ToolInterval)
  {
    && f in ops && l in ops && x in ops && g in ops && h in ops && f != l && g != x
    && IsOver(f, o) && IsOver(l, o) && !IsOver(x, o) && !IsLater(x, o) && !IsOver(g, o) && KeyLess(x, g)
    && FirstOver(ops, o, f) && LastOver(ops, o, l) && NeedsOver(ops, o, x) && !MustPrecede(l, x)
    && (h != g ==> !IsOver(h, o) && h != x && KeyLess(h, g))
    && (w == l || w == x || w == h) && w != g && Concurrent(g, w)
  }

  ghost predicate NeedsOver(ops: set<ToolInterval>, o: ReadObservation, x: ToolInterval) {
    forall b :: b in ops && MustPrecede(b, x) ==> IsOver(b, o)
  }

  /** Two writes, an edit of the dot, the last write, and perhaps one more. */
  ghost predicate ForkCalls(ops: set<ToolInterval>, p: ToolInterval, q: ToolInterval, y: ToolInterval, g: ToolInterval,
                            h: ToolInterval)
  {
    && p in ops && q in ops && y in ops && g in ops && h in ops
    && p != q && p != y && p != g && q != y && q != g && y != g && h != p && h != q && h != y
    && IsWrite(p, "P.") && IsWrite(q, "Q.") && IsSwap(y, '.', '+') && IsWrite(g, "#.") && (h != g ==> IsWrite(h, "H."))
    && forall b :: b in ops && b != p && b != q && b != y && b != g && b != h ==> IsKeep(b)
  }

  lemma ForkDots(ops: set<ToolInterval>, p: ToolInterval, q: ToolInterval, y: ToolInterval, g: ToolInterval, h: ToolInterval)
    requires ForkCalls(ops, p, q, y, g, h)
    ensures Dots(ops, y, g) && IsDot(p) && IsDot(q) && Active(y, y) && !Active(g, y)
    ensures forall b :: b in ops && IsDot(b) ==> b == p || b == q || (b == h && h != g)
    ensures h != g ==> Active(h, y)
    ensures OnlyMaker(ops, p, "P.") && OnlyMaker(ops, q, "Q.")
  {
    DotMake(ops, y, g, p, "P.");
    DotMake(ops, y, g, q, "Q.");
  }

  lemma ForkUnseen(s: seq<ToolInterval>, rest: seq<ToolInterval>, ops: set<ToolInterval>, o: ReadObservation,
                   p: ToolInterval, q: ToolInterval, y: ToolInterval, g: ToolInterval, h: ToolInterval)
    requires WellTimed(ops) && ForkCalls(ops, p, q, y, g, h) && MustPrecede(q, y) && s == [p] + rest
    requires SortedByKey(rest) && Linearization(rest, ops - {p}) && Linearization(s, ops)
    ensures !Explains(s, OneLine(o, "P+"))
  {
    ForkDots(ops, p, q, y, g, h);
    DotsTame(ops, y, g);
    var i, j := InOrder(s, rest, ops, p, q, y);
    forall k: nat | k <= |s| ensures !ShownAt(s, OneLine(o, "P+"), k) {
      PartOf(s, ops, k);
      forall n | 0 <= n < |s[..k]| && s[..k][n] == y ensures Run(None, s[..k][..n]) != Reached(Some("P.")) {
        SamePlace(s, n, j);
        assert s[..k][..n] == s[..j];
        PartOf(s, ops, j);
        assert s[..j][0] == p && s[..j][i] == q;
        LaterWins(s[..j], ops, p, q, "Q.", "P.", 0, i);
      }
      NoEditOf(s[..k], ops, y, g, 'P');
      NotShownAt(s, o, "P+", k);
    }
  }

  lemma ForkSeen(ops: set<ToolInterval>, o: ReadObservation, p: ToolInterval, q: ToolInterval, y: ToolInterval,
                 g: ToolInterval, h: ToolInterval, w: ToolInterval)
    returns (s: seq<ToolInterval>)
    requires Timed(ops, o) && Fork(ops, o, p, q, y, g, h, w) && ForkCalls(ops, p, q, y, g, h)
    ensures Completes(s, ops, None, "#.") && Explains(s, OneLine(o, "P+"))
  {
    var first := {q, p, y};
    ForkDots(ops, p, q, y, g, h);
    ForkStage(ops, o, p, q, y, g, h, w);
    var front, rest := Staged(q, first, ops);
    ForkFront(front, q, p, y);
    ForkRun(ops, p, q, y, g, h);
    s := front + rest;
    ShowsAndEnds(front, first, rest, ops, o, y, g, "P+");
  }

  lemma ForkStage(ops: set<ToolInterval>, o: ReadObservation, p: ToolInterval, q: ToolInterval, y: ToolInterval,
                  g: ToolInterval, h: ToolInterval, w: ToolInterval)
    requires Fork(ops, o, p, q, y, g, h, w)
    ensures {q, p, y} <= ops && Ready(q, {q, p, y}) && Downward({q, p, y}, ops - {q, p, y})
  {
  }

  lemma ForkFront(front: seq<ToolInterval>, q: ToolInterval, p: ToolInterval, y: ToolInterval)
    requires Linearization(front, {q, p, y}) && front != [] && front[0] == q && MustPrecede(p, y) && q != p && q != y
    ensures front == [q, p, y]
  {
    LinearizationLength(front, {q, p, y});
    assert |{q, p, y}| == 3;
    assert front[1] in front && front[2] in front && front[1] != front[0] && front[2] != front[0] && front[1] != front[2];
  }

  lemma ForkRun(ops: set<ToolInterval>, p: ToolInterval, q: ToolInterval, y: ToolInterval, g: ToolInterval, h: ToolInterval)
    requires ForkCalls(ops, p, q, y, g, h)
    ensures Run(None, [q, p, y]) == Reached(Some("P+"))
  {
    RunSnoc(None, [], q);
    RunSnoc(None, [q], p);
    RunSnoc(None, [q, p], y);
    SwapDot(y, 'P');
    assert [] + [q] == [q] && [q] + [p] == [q, p] && [q, p] + [y] == [q, p, y];
  }

  /** The first dots that an order can begin with, and the keys below that of the last write. */
  lemma ForkFirst(ops: set<ToolInterval>, o: ReadObservation, p: ToolInterval, q: ToolInterval, y: ToolInterval,
                  g: ToolInterval, h: ToolInterval, w: ToolInterval)
    requires Timed(ops, o) && Fork(ops, o, p, q, y, g, h, w) && ForkCalls(ops, p, q, y, g, h)
    ensures forall b :: b in ops && b != p && Active(b, y) ==> KeyLess(b, g)
    ensures w in ops && Active(w, y)
  {
    ForkDots(ops, p, q, y, g, h);
  }

  lemma ForkLost(ops: set<ToolInterval>, o: ReadObservation, p: ToolInterval, q: ToolInterval, y: ToolInterval,
                 g: ToolInterval, h: ToolInterval, w: ToolInterval)
    requires Timed(ops, o) && Fork(ops, o, p, q, y, g, h, w) && ForkCalls(ops, p, q, y, g, h)
    ensures Explained(ops, [OneLine(o, "P+")], "#.") && "#." !in Survivors(ops, [OneLine(o, "P+")])
  {
    ForkDots(ops, p, q, y, g, h);
    ForkFirst(ops, o, p, q, y, g, h, w);
    var s, sorted := ForkRecorded(ops, o, p, q, y, g, h, w);
    ForkUnseen(s, sorted, ops, o, p, q, y, g, h);
    var t := ForkSeen(ops, o, p, q, y, g, h, w);
    var r, other := OtherContent(ops, y, g, if w == p then q else p, w);
    Lost(s, t, r, ops, OneLine(o, "P+"), "#.", other);
  }

  /** The order that the recovery keeps begins with `p`, or with a call of smaller key. */
  lemma ForkRecorded(ops: set<ToolInterval>, o: ReadObservation, p: ToolInterval, q: ToolInterval, y: ToolInterval,
                     g: ToolInterval, h: ToolInterval, w: ToolInterval)
    returns (s: seq<ToolInterval>, rest: seq<ToolInterval>)
    requires Timed(ops, o) && Fork(ops, o, p, q, y, g, h, w) && ForkCalls(ops, p, q, y, g, h)
    requires h == g || !Ready(h, ops) || KeyLess(p, h)
    ensures s == [p] + rest && SortedByKey(rest) && Linearization(rest, ops - {p}) && Linearization(s, ops)
    ensures IsWitness(s, ops, None, "#.")
  {
    ForkDots(ops, p, q, y, g, h);
    ForkFirst(ops, o, p, q, y, g, h, w);
    rest := ByKey(ops - {p});
    s := [p] + rest;
    DotsRecorded(p, rest, ops, y, g);
  }

  // ---------------------------------------------------------------- an edit that came late

  lemma LateUnseen(s: seq<ToolInterval>, rest: seq<ToolInterval>, ops: set<ToolInterval>, o: ReadObservation,
                   f: ToolInterval, l: ToolInterval, x: ToolInterval, g: ToolInterval, h: ToolInterval)
    requires WellTimed(ops) && ForkCalls(ops, f, x, l, g, h) && KeyLess(l, x) && s == [f] + rest
    requires SortedByKey(rest) && Linearization(rest, ops - {f}) && Linearization(s, ops)
    ensures !Explains(s, OneLine(o, "Q+"))
  {
    ForkDots(ops, f, x, l, g, h);
    DotsTame(ops, l, g);
    var i, j := InOrder(s, rest, ops, f, l, x);
    forall k: nat | k <= |s| ensures !ShownAt(s, OneLine(o, "Q+"), k) {
      PartOf(s, ops, k);
      forall n | 0 <= n < |s[..k]| && s[..k][n] == l ensures Run(None, s[..k][..n]) != Reached(Some("Q.")) {
        SamePlace(s, n, i);
        assert s[..k][..n] == s[..i];
        PartOf(s, ops, i);
        NotYet(s, i, j);
        NotWithout(s[..i], ops, x, "Q.");
      }
      NoEditOf(s[..k], ops, l, g, 'Q');
      NotShownAt(s, o, "Q+", k);
    }
  }

  lemma NotYet(s: seq<ToolInterval>, i: nat, j: nat)
    requires Distinct(s) && i <= j < |s|
    ensures s[j] !in s[..i]
  {
  }

  lemma LateSeen(ops: set<ToolInterval>, o: ReadObservation, f: ToolInterval, l: ToolInterval, x: ToolInterval,
                 g: ToolInterval, h: ToolInterval, w: ToolInterval)
    returns (s: seq<ToolInterval>)
    requires Timed(ops, o) && Late(ops, o, f, l, x, g, h, w) && ForkCalls(ops, f, x, l, g, h)
    ensures Completes(s, ops, None, "#.") && Explains(s, OneLine(o, "Q+"))
  {
    var second := Before(ops, o) + {x};
    var first := second - {l};
    LateStages(ops, o, f, l, x, g, h, w);
    var front, mid, rest := StagedTwice(f, first, second, ops);
    LateRun(front, mid, ops, o, f, l, x, g, h, w);
    ForkDots(ops, f, x, l, g, h);
    s := front + mid + rest;
    LateKeys(ops, o, f, l, x, g, h, w);
    ShowsAndEnds(front + mid, second, rest, ops, o, l, g, "Q+");
  }

  lemma LateKeys(ops: set<ToolInterval>, o: ReadObservation, f: ToolInterval, l: ToolInterval, x: ToolInterval,
                 g: ToolInterval, h: ToolInterval, w: ToolInterval)
    requires Timed(ops, o) && Late(ops, o, f, l, x, g, h, w) && ForkCalls(ops, f, x, l, g, h)
    ensures forall b :: b in ops && b != f && Active(b, l) ==> KeyLess(b, g)
    ensures forall b :: b in ops && b != f && IsDot(b) ==> KeyLess(f, b)
    ensures w in ops && Active(w, l) && Ready(f, ops)
  {
    ForkDots(ops, f, x, l, g, h);
  }

  lemma LateStages(ops: set<ToolInterval>, o: ReadObservation, f: ToolInterval, l: ToolInterval, x: ToolInterval,
                   g: ToolInterval, h: ToolInterval, w: ToolInterval)
    requires Timed(ops, o) && Late(ops, o, f, l, x, g, h, w)
    ensures var second := Before(ops, o) + {x};
            var first := second - {l};
            && first <= second && second <= ops && Ready(f, first) && g !in second
            && Downward(first, second - first) && Downward(second, ops - second)
            && second - first == {l} && x in first
  {
  }

  lemma LateRun(front: seq<ToolInterval>, mid: seq<ToolInterval>, ops: set<ToolInterval>, o: ReadObservation,
                f: ToolInterval, l: ToolInterval, x: ToolInterval, g: ToolInterval, h: ToolInterval, w: ToolInterval)
    requires Timed(ops, o) && Late(ops, o, f, l, x, g, h, w) && ForkCalls(ops, f, x, l, g, h)
    requires Linearization(front, Before(ops, o) + {x} - {l}) && front != [] && front[0] == f
    requires Linearization(mid, {l})
    ensures Run(None, front + mid) == Reached(Some("Q+"))
  {
    LinearizationLength(mid, {l});
    assert l in mid && mid == [l];
    var t := front[1..];
    assert front == [f] + t;
    assert x in front && x in t;
    forall b | b in t && b != x ensures IsKeep(b) {
      assert b in front;
      var n :| 0 <= n < |t| && t[n] == b;
      assert front[n + 1] == b && b != front[0];
    }
    ConsRun(None, f, t);
    OneActs(Some("P."), t, x);
    RunSnoc(None, front, l);
    SwapDot(l, 'Q');
  }

  lemma LateLost(ops: set<ToolInterval>, o: ReadObservation, f: ToolInterval, l: ToolInterval, x: ToolInterval,
                 g: ToolInterval, h: ToolInterval, w: ToolInterval)
    requires Timed(ops, o) && Late(ops, o, f, l, x, g, h, w) && ForkCalls(ops, f, x, l, g, h)
    ensures Explained(ops, [OneLine(o, "Q+")], "#.") && "#." !in Survivors(ops, [OneLine(o, "Q+")])
  {
    ForkDots(ops, f, x, l, g, h);
    LateKeys(ops, o, f, l, x, g, h, w);
    var rest := ByKey(ops - {f});
    DotsRecorded(f, rest, ops, l, g);
    LinearizationCons(f, rest, ops);
    LateUnseen([f] + rest, rest, ops, o, f, l, x, g, h);
    var s := LateSeen(ops, o, f, l, x, g, h, w);
    var r, other := OtherContent(ops, l, g, f, w);
    Lost([f] + rest, s, r, ops, OneLine(o, "Q+"), "#.", other);
  }

  // ---------------------------------------------------------------- one call before the read

  /** `x` overlaps the read, all others come after it, and `e` has the smallest key of all. The
      last write `g` overlaps `w`. */
  ghost predicate Lonely(ops: set<ToolInterval>, o: ReadObservation, x: ToolInterval, e: ToolInterval, g: ToolInterval,
                         w: ToolInterval)
  {
    && x in ops && e in ops && g in ops && w in ops && e != x && g != x && g != e && w != g && Concurrent(g, w)
    && !IsOver(x, o) && !IsLater(x, o) && AllLater(ops, o, x) && KeyFirst(ops, e)
  }

  ghost predicate AllLater(ops: set<ToolInterval>, o: ReadObservation, x: ToolInterval) {
    forall b :: b in ops && b != x ==> IsLater(b, o)
  }

  ghost predicate KeyFirst(ops: set<ToolInterval>, e: ToolInterval) {
    forall b :: b in ops && b != e ==> KeyLess(e, b)
  }

  ghost predicate LonelyCalls(ops: set<ToolInterval>, x: ToolInterval, e: ToolInterval, g: ToolInterval, w: ToolInterval) {
    && x in ops && e in ops && g in ops && w in ops && x != e && g != x && g != e && w != g
    && IsWrite(x, "X.") && IsWrite(e, "E.") && IsWrite(g, "#.") && (w != x && w != e ==> IsWrite(w, "W."))
    && forall b :: b in ops && b != x && b != e && b != g && b != w ==> IsKeep(b)
  }

  lemma LonelyDots(ops: set<ToolInterval>, x: ToolInterval, e: ToolInterval, g: ToolInterval, w: ToolInterval)
    requires LonelyCalls(ops, x, e, g, w)
    ensures Dots(ops, g, g) && IsDot(x) && IsDot(e) && IsDot(w) && !Active(g, g)
    ensures forall b :: b in ops && Active(b, g) ==> b == x || b == e || b == w
  {
  }

  /** Begin with `f`, then everything that need not come after `g`, then `g`. */
  lemma LonelyOrder(ops: set<ToolInterval>, o: ReadObservation, x: ToolInterval, e: ToolInterval, g: ToolInterval,
                    w: ToolInterval, f: ToolInterval)
    returns (s: seq<ToolInterval>)
    requires Timed(ops, o) && Lonely(ops, o, x, e, g, w) && LonelyCalls(ops, x, e, g, w)
    requires f == x || f == e
    ensures Completes(s, ops, None, "#.") && s != [] && s[0] == f
  {
    var first := set b | b in ops && b != g && !MustPrecede(g, b);
    LonelyStage(ops, o, x, e, g, w, f, first);
    var front, rest := Staged(f, first, ops);
    s := front + rest;
    LonelyDots(ops, x, e, g, w);
    BehindByKey(front, rest, ops - first, g, g);
    DotsComplete(s, ops, g, g);
  }

  lemma LonelyStage(ops: set<ToolInterval>, o: ReadObservation, x: ToolInterval, e: ToolInterval, g: ToolInterval,
                    w: ToolInterval, f: ToolInterval, first: set<ToolInterval>)
    requires Timed(ops, o) && Lonely(ops, o, x, e, g, w) && LonelyCalls(ops, x, e, g, w)
    requires first == set b | b in ops && b != g && !MustPrecede(g, b)
    requires f == x || f == e
    ensures first <= ops && Ready(f, first) && Downward(first, ops - first)
    ensures g in ops - first && forall b :: b in ops - first && Active(b, g) ==> b == g
  {
    LonelyDots(ops, x, e, g, w);
    LonelyReady(ops, o, x, e, g, w);
    KeyLessTotal(e, g);
    assert x in first && e in first && w in first;
  }

  lemma LonelyReady(ops: set<ToolInterval>, o: ReadObservation, x: ToolInterval, e: ToolInterval, g: ToolInterval,
                    w: ToolInterval)
    requires Timed(ops, o) && Lonely(ops, o, x, e, g, w)
    ensures Ready(x, ops) && Ready(e, ops) && !MustPrecede(g, x) && !MustPrecede(g, e)
  {
    forall b | b in ops ensures !MustPrecede(b, e) { KeyLessTotal(b, e); }
  }

  lemma LonelyUnseen(s: seq<ToolInterval>, ops: set<ToolInterval>, o: ReadObservation, e: ToolInterval, line: string)
    requires Linearization(s, ops) && s != [] && s[0] == e && IsLater(e, o)
    ensures !Explains(s, OneLine(o, line))
  {
    forall k: nat | k <= |s| ensures !ShownAt(s, OneLine(o, line), k) {
      assert s[..0] == [];
    }
  }

  lemma LonelyLost(ops: set<ToolInterval>, o: ReadObservation, x: ToolInterval, e: ToolInterval, g: ToolInterval, w: ToolInterval)
    requires Timed(ops, o) && Lonely(ops, o, x, e, g, w) && LonelyCalls(ops, x, e, g, w)
    ensures Explained(ops, [OneLine(o, "X.")], "#.") && "#." !in Survivors(ops, [OneLine(o, "X.")])
  {
    LonelyDots(ops, x, e, g, w);
    LonelyReady(ops, o, x, e, g, w);
    var early := LonelyOrder(ops, o, x, e, g, w, e);
    OutcomesMeaning("#.", ops, None);
    var s := WitnessExists(ops, None, "#.");
    LinearizationLength(s, ops);
    LinearizationLength(early, ops);
    FirstLe(s, early);
    assert s[0] in s;
    KeyLessTotal(s[0], e);
    LonelyUnseen(s, ops, o, e, "X.");
    var t := LonelyOrder(ops, o, x, e, g, w, x);
    LonelySeen(t, ops, o, x, e, g, w);
    var r, other := OtherContent(ops, g, g, if w == e then x else e, w);
    Lost(s, t, r, ops, OneLine(o, "X."), "#.", other);
  }

  lemma LonelySeen(t: seq<ToolInterval>, ops: set<ToolInterval>, o: ReadObservation, x: ToolInterval, e: ToolInterval,
                   g: ToolInterval, w: ToolInterval)
    requires Timed(ops, o) && Lonely(ops, o, x, e, g, w) && LonelyCalls(ops, x, e, g, w)
    requires Linearization(t, ops) && t != [] && t[0] == x
    ensures Explains(t, OneLine(o, "X."))
  {
    assert t[..1] == [x] && [] + [x] == [x];
    RunSnoc(None, [], x);
    forall i | 1 <= i < |t| ensures !(t[i].end < o.start) { assert t[i] in t && t[i] != t[0]; }
    IsShownAt(t, o, "X.", 1);
  }

  // ---------------------------------------------------------------- a later call of smaller key

  /** `m` and `t` overlap and can both be first; `s` comes after the read, although it has a
      smaller key than `t`. */
  ghost predicate Early(ops: set<ToolInterval>, o: ReadObservation, m: ToolInterval, s: ToolInterval, t: ToolInterval) {
    && m in ops && s in ops && t in ops && m != t && m != s
    && Ready(m, ops) && Ready(t, ops) && KeyLess(s, t) && IsLater(s, o) && !IsLater(m, o) && !IsLater(t, o)
  }

  ghost predicate EarlyCalls(ops: set<ToolInterval>, m: ToolInterval, t: ToolInterval) {
    && m in ops && t in ops && m != t && IsWrite(m, "M.") && IsWrite(t, "#.")
    && forall b :: b in ops && b != m && b != t ==> IsKeep(b)
  }

  lemma EarlyDots(ops: set<ToolInterval>, m: ToolInterval, t: ToolInterval)
    requires EarlyCalls(ops, m, t)
    ensures Dots(ops, t, t) && IsDot(m) && !Active(t, t) && forall b :: b in ops && Active(b, t) ==> b == m
  {
  }

  /** In the recorded order `s` comes before `t`, so that "#." is there only after `s`. */
  lemma EarlyUnseen(w: seq<ToolInterval>, rest: seq<ToolInterval>, ops: set<ToolInterval>, o: ReadObservation,
                    m: ToolInterval, s: ToolInterval, t: ToolInterval)
    requires Early(ops, o, m, s, t) && EarlyCalls(ops, m, t) && w == [m] + rest
    requires SortedByKey(rest) && Linearization(rest, ops - {m}) && Linearization(w, ops)
    ensures !Explains(w, OneLine(o, "#."))
  {
    EarlyDots(ops, m, t);
    DotsTame(ops, t, t);
    DotsMake(ops, t, t);
    var i, j := InOrder(w, rest, ops, m, s, t);
    forall k: nat | k <= |w| ensures !ShownAt(w, OneLine(o, "#."), k) {
      if CanInsert(w, o, k) {
        assert k <= i;
        PartOf(w, ops, k);
        NotYet(w, k, j);
        NotWithout(w[..k], ops, t, "#.");
        NotShownAt(w, o, "#.", k);
      }
    }
  }

  lemma EarlySeen(ops: set<ToolInterval>, o: ReadObservation, m: ToolInterval, s: ToolInterval, t: ToolInterval)
    returns (p: seq<ToolInterval>)
    requires Timed(ops, o) && Early(ops, o, m, s, t) && EarlyCalls(ops, m, t)
    ensures Completes(p, ops, None, "#.") && Explains(p, OneLine(o, "#."))
  {
    var first := Before(ops, o) + {m, t};
    EarlyStage(ops, o, m, s, t);
    var front, rest := Staged(m, first, ops);
    p := front + rest;
    EarlyEnd(p, ops, m, t);
    EarlyRun(front, first, ops, m, t);
    RoomBehind(front, first, rest, ops - first, o);
    assert p[..|front|] == front;
    IsShownAt(p, o, "#.", |front|);
  }

  lemma EarlyEnd(p: seq<ToolInterval>, ops: set<ToolInterval>, m: ToolInterval, t: ToolInterval)
    requires EarlyCalls(ops, m, t) && Linearization(p, ops) && p != [] && p[0] == m
    ensures Completes(p, ops, None, "#.")
  {
    EarlyDots(ops, m, t);
    assert t in p;
    var j: nat :| j < |p| && p[j] == t;
    forall i | j < i < |p| ensures !Active(p[i], t) { assert p[i] in p && p[i] != p[0]; }
    DotsComplete(p, ops, t, t);
  }

  lemma EarlyRun(front: seq<ToolInterval>, first: set<ToolInterval>, ops: set<ToolInterval>, m: ToolInterval, t: ToolInterval)
    requires EarlyCalls(ops, m, t) && first <= ops && t in first && Linearization(front, first) && front != [] && front[0] == m
    ensures Run(None, front) == Reached(Some("#."))
  {
    assert front == [m] + front[1..];
    assert t in front && t in front[1..];
    forall b | b in front[1..] && b != t ensures IsKeep(b) {
      var n :| 0 <= n < |front[1..]| && front[1..][n] == b;
      assert front[n + 1] == b && b in front && b != front[0] && b in first;
    }
    ConsRun(None, m, front[1..]);
    OneActs(Some("M."), front[1..], t);
  }

  lemma EarlyStage(ops: set<ToolInterval>, o: ReadObservation, m: ToolInterval, s: ToolInterval, t: ToolInterval)
    requires Timed(ops, o) && Early(ops, o, m, s, t)
    ensures var first := Before(ops, o) + {m, t};
            && first <= ops && Ready(m, first) && Downward(first, ops - first)
            && (forall b :: b in first ==> !IsLater(b, o)) && forall b :: b in ops - first ==> !IsOver(b, o)
  {
  }

  lemma EarlyLost(ops: set<ToolInterval>, o: ReadObservation, m: ToolInterval, s: ToolInterval, t: ToolInterval)
    requires Timed(ops, o) && Early(ops, o, m, s, t) && EarlyCalls(ops, m, t)
    ensures Explained(ops, [OneLine(o, "#.")], "#.") && "#." !in Survivors(ops, [OneLine(o, "#.")])
  {
    EarlyDots(ops, m, t);
    var rest := ByKey(ops - {m});
    LinearizationCons(m, rest, ops);
    DotsRecorded(m, rest, ops, t, t);
    EarlyUnseen([m] + rest, rest, ops, o, m, s, t);
    var p := EarlySeen(ops, o, m, s, t);
    assert Concurrent(t, m);
    var q, other := OtherContent(ops, t, t, t, m);
    Lost([m] + rest, p, q, ops, OneLine(o, "#."), "#.", other);
  }
}
