/** Families of intervals with edits that the sort key puts the other way round than the
    read saw them. */
module FilterEdits {
  import opened Wrappers
  import opened Text
  import opened Intervals
  import opened Replay
  import opened Observations
  import opened Recovery
  import opened Confluence
  import opened FilterShape
  import opened FilterTools

  // ---------------------------------------------------------------- edits of single characters

  function Swapped(c: char, from: char, to: char): char {
    if c == from then to else c
  }

  /** Every `from` becomes `to`. */
  function Mapped(s: string, from: char, to: char): string {
    seq(|s|, i requires 0 <= i < |s| => Swapped(s[i], from, to))
  }

  lemma {:induction false} CharsReplaced(s: string, from: char, to: char)
    ensures ReplaceAll(s, [from], [to]) == Mapped(s, from, to)
    ensures (Count(s, [from]) > 0 <==> from in s)
  {
    if s == "" {
      ReplaceNothing(from, [to]);
    } else {
      var c, t := s[0], s[1..];
      assert s == [c] + t;
      CharsReplaced(t, from, to);
      ReplaceFront(c, t, from, [to]);
      assert Mapped(s, from, to) == [Swapped(c, from, to)] + Mapped(t, from, to);
    }
  }

  lemma {:induction false} FoundOnce(s: string, from: char, i: nat)
    requires i < |s| && s[i] == from && forall j :: 0 <= j < |s| && j != i ==> s[j] != from
    ensures Count(s, [from]) == 1
    decreases i
  {
    var c, t := s[0], s[1..];
    assert s == [c] + t;
    ReplaceFront(c, t, from, "");
    if i == 0 {
      assert from !in t;
      CharsReplaced(t, from, from);
    } else {
      FoundOnce(t, from, i - 1);
    }
  }

  lemma OnceApplied(a: ToolInterval, s: string, from: char, to: char, i: nat)
    requires IsSwap(a, from, to) && from != to && BreakFree([from]) && BreakFree([to])
    requires i < |s| && s[i] == from && forall j :: 0 <= j < |s| && j != i ==> s[j] != from
    ensures Apply(Some(s), a) == Some(Mapped(s, from, to))
  {
    EditApplied(a, s, [from], [to], false);
    FoundOnce(s, from, i);
    CharsReplaced(s, from, to);
  }

  lemma AllApplied(a: ToolInterval, s: string, from: char, to: char)
    requires IsEdit(a, [from], [to], true) && from != to && BreakFree([from]) && BreakFree([to]) && from in s
    ensures Apply(Some(s), a) == Some(Mapped(s, from, to))
  {
    EditApplied(a, s, [from], [to], true);
    CharsReplaced(s, from, to);
  }

  // ---------------------------------------------------------------- a call with a smaller key moves up

  /** The first call behind `w[i]` with a smaller key. */
  lemma {:induction false} FirstSmaller(w: seq<ToolInterval>, i: nat, j: nat) returns (n: nat)
    requires i < j < |w| && KeyLess(w[j], w[i])
    ensures i < n <= j && KeyLess(w[n], w[i]) && forall m :: i < m < n ==> !KeyLess(w[m], w[i])
    decreases j
  {
    if m :| i < m < j && KeyLess(w[m], w[i]) { n := FirstSmaller(w, i, m); } else { n := j; }
  }

  /** Where a call of smaller key comes later, the order is not the first of its kind: moving
      the first such call up gives an earlier one. */
  lemma MoveUp(w: seq<ToolInterval>, ops: set<ToolInterval>, i: nat, n: nat) returns (up: seq<ToolInterval>)
    requires UniqueIds(ops) && WellTimed(ops) && Linearization(w, ops) && i < n < |w| && KeyLess(w[n], w[i])
    requires forall m :: i < m < n ==> !KeyLess(w[m], w[i])
    ensures up == w[..i] + [w[n]] + w[i..n] + w[n + 1..]
    ensures Linearization(up, ops) && !LexLe(w, up)
  {
    up := w[..i] + [w[n]] + w[i..n] + w[n + 1..];
    MovedLinear(w, ops, i, n, up);
    MovedEarlier(w, ops, i, n, up);
  }

  lemma MovedAt(w: seq<ToolInterval>, i: nat, n: nat, up: seq<ToolInterval>)
    requires i < n < |w| && up == w[..i] + [w[n]] + w[i..n] + w[n + 1..]
    ensures |up| == |w| && up[i] == w[n]
    ensures forall m :: 0 <= m < |w| && (m < i || m > n) ==> up[m] == w[m]
    ensures forall m :: i < m <= n ==> up[m] == w[m - 1]
  {
  }

  /** The place in `up` of what stands at `m` in `w`. */
  function MovedTo(i: nat, n: nat, m: nat): nat {
    if m == n then i else if i <= m < n then m + 1 else m
  }

  lemma MovedLinear(w: seq<ToolInterval>, ops: set<ToolInterval>, i: nat, n: nat, up: seq<ToolInterval>)
    requires UniqueIds(ops) && WellTimed(ops) && Linearization(w, ops) && i < n < |w| && KeyLess(w[n], w[i])
    requires forall m :: i < m < n ==> !KeyLess(w[m], w[i])
    requires up == w[..i] + [w[n]] + w[i..n] + w[n + 1..]
    ensures Linearization(up, ops)
  {
    MovedAt(w, i, n, up);
    forall a ensures a in up <==> a in ops {
      if a in up {
        var m :| 0 <= m < |up| && up[m] == a;
        assert up[m] == w[if m == i then n else if i < m <= n then m - 1 else m];
        assert a in w;
      }
      if a in ops {
        assert a in w;
        var m: nat :| m < |w| && w[m] == a;
        assert up[MovedTo(i, n, m)] == a;
      }
    }
    forall l, m | 0 <= l < m < |up| ensures up[l] != up[m] && !MustPrecede(up[m], up[l]) {
      MovedPair(w, ops, i, n, up, l, m);
    }
  }

  lemma MovedPair(w: seq<ToolInterval>, ops: set<ToolInterval>, i: nat, n: nat, up: seq<ToolInterval>, l: nat, m: nat)
    requires UniqueIds(ops) && WellTimed(ops) && Linearization(w, ops) && i < n < |w| && KeyLess(w[n], w[i])
    requires forall m :: i < m < n ==> !KeyLess(w[m], w[i])
    requires up == w[..i] + [w[n]] + w[i..n] + w[n + 1..] && l < m < |up|
    ensures up[l] != up[m] && !MustPrecede(up[m], up[l])
  {
    MovedAt(w, i, n, up);
    if l == i && m <= n {
      assert up[l] == w[n] && up[m] == w[m - 1];
      assert w[n] in w && w[m - 1] in w && w[i] in w;
      if m - 1 > i { KeyLessTotal(w[m - 1], w[i]); }
    } else {
      assert up[l] == w[if l == i then n else if i < l <= n then l - 1 else l];
      assert up[m] == w[if m == i then n else if i < m <= n then m - 1 else m];
    }
  }

  lemma MovedEarlier(w: seq<ToolInterval>, ops: set<ToolInterval>, i: nat, n: nat, up: seq<ToolInterval>)
    requires i < n < |w| && KeyLess(w[n], w[i]) && up == w[..i] + [w[n]] + w[i..n] + w[n + 1..]
    ensures !LexLe(w, up)
  {
    MovedAt(w, i, n, up);
    NotLexLe(w, up, i);
  }

  lemma {:induction false} NotLexLe(w: seq<ToolInterval>, up: seq<ToolInterval>, i: nat)
    requires i < |w| && i < |up| && KeyLess(up[i], w[i]) && forall m :: 0 <= m < i ==> w[m] == up[m]
    ensures !LexLe(w, up)
    decreases i
  {
    KeyLessTotal(w[0], up[0]);
    if i > 0 { NotLexLe(w[1..], up[1..], i - 1); }
  }

  // ---------------------------------------------------------------- two edits, and a pair that tells the orders apart

  /** Who does what: `m` writes four characters, `s`, `t` and `x` edit one each, where `x` may
      be `s` or `t`, and `y` edits the last character together with what `x` left. */
  datatype Roles = Roles(m: ToolInterval, s: ToolInterval, t: ToolInterval, x: ToolInterval, y: ToolInterval)

  ghost predicate PairCalls(ops: set<ToolInterval>, r: Roles) {
    && r.m in ops && r.s in ops && r.t in ops && r.x in ops && r.y in ops && Different(r)
    && IsWrite(r.m, "abpY")
    && IsSwap(r.s, 'a', if r.s == r.x then 'Y' else 'A') && IsSwap(r.t, 'b', if r.t == r.x then 'Y' else 'B')
    && (r.x != r.s && r.x != r.t ==> IsSwap(r.x, 'p', 'Y')) && IsEdit(r.y, "Y", "C", true)
    && forall b :: b in ops && b != r.m && b != r.s && b != r.t && b != r.x && b != r.y ==> IsKeep(b)
  }

  ghost predicate Different(r: Roles) {
    r.m != r.s && r.m != r.t && r.m != r.x && r.m != r.y && r.s != r.t && r.y != r.s && r.y != r.t && r.y != r.x
  }

  /** The character that `a` edits. */
  ghost function Slot(p: seq<ToolInterval>, r: Roles, a: ToolInterval, from: char, plain: char): char {
    if a !in p then from else if a != r.x then plain else if Then(p, r.x, r.y) then 'C' else 'Y'
  }

  /** The content after `p`, which begins with `m`. */
  ghost function Slots(p: seq<ToolInterval>, r: Roles): string {
    [Slot(p, r, r.s, 'a', 'A'), Slot(p, r, r.t, 'b', 'B'),
     if r.x == r.s || r.x == r.t then 'p' else Slot(p, r, r.x, 'p', 'P'), if r.y in p then 'C' else 'Y']
  }

  lemma ThenSnoc(q: seq<ToolInterval>, a: ToolInterval, x: ToolInterval, y: ToolInterval)
    requires a !in q && x != y
    ensures Then(q + [a], x, y) <==> Then(q, x, y) || (a == y && x in q)
  {
    var p := q + [a];
    if Then(q, x, y) {
      var i, j :| 0 <= i < j < |q| && q[i] == x && q[j] == y;
      assert p[i] == x && p[j] == y;
    } else if a == y && x in q {
      var i :| 0 <= i < |q| && q[i] == x;
      assert p[i] == x && p[|q|] == y;
    }
    if Then(p, x, y) {
      var i, j :| 0 <= i < j < |p| && p[i] == x && p[j] == y;
      assert q[i] == x;
      if j < |q| { assert q[j] == y; }
    }
  }

  lemma SlotSnoc(q: seq<ToolInterval>, a: ToolInterval, r: Roles, b: ToolInterval, from: char, plain: char)
    requires a !in q && b != r.y && r.x != r.y && plain != 'Y' && from != 'Y'
    ensures Slot(q + [a], r, b, from, plain)
         == if a == b then (if b == r.x then 'Y' else plain)
            else if a == r.y then Swapped(Slot(q, r, b, from, plain), 'Y', 'C') else Slot(q, r, b, from, plain)
  {
    ThenSnoc(q, a, r.x, r.y);
    assert Then(q, r.x, r.y) ==> r.y in q && r.x in q;
  }

  lemma {:induction false} SlotsSoFar(p: seq<ToolInterval>, ops: set<ToolInterval>, r: Roles)
    requires PairCalls(ops, r) && p != [] && p[0] == r.m && Distinct(p) && forall a :: a in p ==> a in ops
    ensures Run(None, p) == Reached(Some(Slots(p, r)))
    decreases |p|
  {
    var n := |p| - 1;
    var q, a := p[..n], p[n];
    assert p == q + [a] && a in p && a !in q;
    if n == 0 {
      SlotsFirst(ops, r);
      assert p == [r.m];
    } else {
      forall b | b in q ensures b in ops { assert b in p; }
      assert p[0] == q[0];
      SlotsSoFar(q, ops, r);
      SlotsNext(q, a, ops, r);
    }
  }

  lemma SlotsFirst(ops: set<ToolInterval>, r: Roles)
    requires PairCalls(ops, r)
    ensures Run(None, [r.m]) == Reached(Some(Slots([r.m], r)))
  {
    RunSnoc(None, [], r.m);
    assert [] + [r.m] == [r.m];
    assert Slots([r.m], r) == "abpY";
  }

  lemma SlotsNext(q: seq<ToolInterval>, a: ToolInterval, ops: set<ToolInterval>, r: Roles)
    requires PairCalls(ops, r) && a in ops && a !in q && a != r.m && Run(None, q) == Reached(Some(Slots(q, r)))
    ensures Run(None, q + [a]) == Reached(Some(Slots(q + [a], r)))
  {
    RunSnoc(None, q, a);
    SlotsStep(q, a, ops, r);
  }

  lemma SlotsStep(q: seq<ToolInterval>, a: ToolInterval, ops: set<ToolInterval>, r: Roles)
    requires PairCalls(ops, r) && a in ops && a !in q && a != r.m
    ensures Apply(Some(Slots(q, r)), a) == Some(Slots(q + [a], r))
  {
    SlotsMore(q, a, r);
    var text := Slots(q, r);
    if a == r.y {
      AllApplied(a, text, 'Y', 'C');
    } else if a == r.s {
      OnceApplied(a, text, 'a', if a == r.x then 'Y' else 'A', 0);
    } else if a == r.t {
      OnceApplied(a, text, 'b', if a == r.x then 'Y' else 'B', 1);
    } else if a == r.x {
      OnceApplied(a, text, 'p', 'Y', 2);
    } else {
      KeepApplied(a, Some(text));
    }
  }

  /** Each call changes its own character, and `y` every 'Y'. */
  lemma SlotsMore(q: seq<ToolInterval>, a: ToolInterval, r: Roles)
    requires Different(r) && a !in q && a != r.m
    ensures Slots(q + [a], r)
         == if a == r.y then Mapped(Slots(q, r), 'Y', 'C')
            else if a == r.s then Mapped(Slots(q, r), 'a', if a == r.x then 'Y' else 'A')
            else if a == r.t then Mapped(Slots(q, r), 'b', if a == r.x then 'Y' else 'B')
            else if a == r.x then Mapped(Slots(q, r), 'p', 'Y') else Slots(q, r)
  {
    SlotSnoc(q, a, r, r.s, 'a', 'A');
    SlotSnoc(q, a, r, r.t, 'b', 'B');
    SlotSnoc(q, a, r, r.x, 'p', 'P');
  }

  /** What an order ends in, if the first of the pair is `c`. */
  function Last(r: Roles, c: ToolInterval): string {
    var mark := if c == r.x then 'C' else 'Y';
    [if r.x == r.s then mark else 'A', if r.x == r.t then mark else 'B',
     if r.x == r.s || r.x == r.t then 'p' else mark, 'C']
  }

  lemma LastTells(r: Roles)
    requires Different(r)
    ensures Last(r, r.x) != Last(r, r.y)
  {
    var n := if r.x == r.s then 0 else if r.x == r.t then 1 else 2;
    assert Last(r, r.x)[n] != Last(r, r.y)[n];
  }

  /** Valid orders begin with the write, and end in what the pair says. */
  lemma PairEnds(p: seq<ToolInterval>, ops: set<ToolInterval>, r: Roles)
    requires PairCalls(ops, r) && Linearization(p, ops)
    ensures p != []
    ensures p[0] != r.m ==> Run(None, p).Broken?
    ensures p[0] == r.m ==> Completes(p, ops, None, Last(r, if Then(p, r.x, r.y) then r.x else r.y))
  {
    assert r.m in p && r.s in p && r.t in p && r.x in p && r.y in p;
    if p[0] == r.m {
      SlotsSoFar(p, ops, r);
      assert Slots(p, r) == Last(r, if Then(p, r.x, r.y) then r.x else r.y);
    } else {
      assert p[0] in p;
    }
  }

  lemma PairTame(ops: set<ToolInterval>, r: Roles)
    requires PairCalls(ops, r)
    ensures forall a :: a in ops ==> Tame(a)
  {
    forall a | a in ops ensures Tame(a) {
      if a == r.m { WriteTame(a, "abpY"); }
      else if a == r.s { EditTame(a, "a", [if a == r.x then 'Y' else 'A'], false); }
      else if a == r.t { EditTame(a, "b", [if a == r.x then 'Y' else 'B'], false); }
      else if a == r.x { EditTame(a, "p", "Y", false); }
      else if a == r.y { EditTame(a, "Y", "C", true); }
      else { EditTame(a, "~", "~", false); }
    }
  }

  // ---------------------------------------------------------------- the sort key against the read

  /** What has to come first if `t` is to be placed before the read. */
  function UpTo(ops: set<ToolInterval>, o: ReadObservation, m: ToolInterval, t: ToolInterval): set<ToolInterval> {
    set a | a in ops && (IsOver(a, o) || a == m || a == t || MustPrecede(a, t))
  }

  /** `m` can be first. `t` may be placed before the read and `s` after it, although `s` has
      the smaller key. */
  ghost predicate Inversion(ops: set<ToolInterval>, o: ReadObservation, m: ToolInterval, s: ToolInterval, t: ToolInterval) {
    && m in ops && s in ops && t in ops && m != s && m != t
    && Ready(m, ops) && KeyLess(s, t) && Concurrent(s, t) && !IsLater(m, o) && !IsLater(t, o) && !IsOver(s, o)
  }

  /** A second pair overlaps, `c` and `d`; moving calls of smaller key than `t` in front of `t`
      does not turn it round. */
  ghost predicate Detected(ops: set<ToolInterval>, o: ReadObservation, r: Roles, c: ToolInterval, d: ToolInterval) {
    && Inversion(ops, o, r.m, r.s, r.t) && Different(r) && r.x in ops && r.y in ops && Concurrent(r.x, r.y)
    && ((c == r.x && d == r.y) || (c == r.y && d == r.x))
    && (KeyLess(c, d) || (c == r.t && MustPrecede(r.s, d)))
    && (d in UpTo(ops, o, r.m, r.t) ==> c in UpTo(ops, o, r.m, r.t))
  }

  lemma UpToClosed(ops: set<ToolInterval>, o: ReadObservation, m: ToolInterval, s: ToolInterval, t: ToolInterval)
    requires Timed(ops, o) && Inversion(ops, o, m, s, t)
    ensures s !in UpTo(ops, o, m, t) && t in UpTo(ops, o, m, t) && m in UpTo(ops, o, m, t) && UpTo(ops, o, m, t) <= ops
    ensures Downward(UpTo(ops, o, m, t), ops - UpTo(ops, o, m, t)) && Ready(m, UpTo(ops, o, m, t))
    ensures forall a :: a in UpTo(ops, o, m, t) ==> !IsLater(a, o)
    ensures forall a :: a in ops - UpTo(ops, o, m, t) ==> !IsOver(a, o)
  {
    KeyLessTotal(s, t);
  }

  /** Moving up a call of smaller key than `t` does not turn the pair round. */
  lemma MoveKeepsPair(w: seq<ToolInterval>, up: seq<ToolInterval>, ops: set<ToolInterval>, o: ReadObservation, r: Roles,
                      c: ToolInterval, d: ToolInterval, i: nat, n: nat)
    requires UniqueIds(ops) && WellTimed(ops) && Detected(ops, o, r, c, d) && Linearization(w, ops) && Then(w, c, d)
    requires i < n < |w| && w[i] == r.t && KeyLess(w[n], w[i]) && forall m :: i < m < n ==> !KeyLess(w[m], w[i])
    requires Then(w, r.t, r.s) && up == w[..i] + [w[n]] + w[i..n] + w[n + 1..]
    ensures Then(up, c, d)
  {
    var e, f := PlacesInOrder(w, c, d);
    NotTurned(w, ops, o, r, c, d, i, n, e);
    MovedThen(w, i, n, up, e, f);
  }

  lemma MovedThen(w: seq<ToolInterval>, i: nat, n: nat, up: seq<ToolInterval>, e: nat, f: nat)
    requires i < n < |w| && up == w[..i] + [w[n]] + w[i..n] + w[n + 1..]
    requires e < f < |w| && (f != n || e < i)
    ensures Then(up, w[e], w[f])
  {
    MovedAt(w, i, n, up);
    assert up[MovedTo(i, n, e)] == w[e] && up[MovedTo(i, n, f)] == w[f];
  }

  lemma NotTurned(w: seq<ToolInterval>, ops: set<ToolInterval>, o: ReadObservation, r: Roles,
                  c: ToolInterval, d: ToolInterval, i: nat, n: nat, e: nat)
    requires UniqueIds(ops) && WellTimed(ops) && Detected(ops, o, r, c, d) && Linearization(w, ops) && Then(w, r.t, r.s)
    requires i < n < |w| && e < |w| && w[i] == r.t && w[e] == c && KeyLess(w[n], w[i])
    requires forall m :: i < m < n ==> !KeyLess(w[m], w[i])
    ensures w[n] != d || e < i || n <= e
  {
    if KeyLess(c, d) {
      if w[n] == d {
        KeyLessTransitive(c, d, r.t);
        KeyLessTotal(c, r.t);
      }
    } else {
      var g, j := PlacesInOrder(w, r.t, r.s);
      SamePlace(w, g, i);
      NotAhead(w, ops, i, j, n);
    }
  }

  lemma NotAhead(w: seq<ToolInterval>, ops: set<ToolInterval>, i: nat, j: nat, n: nat)
    requires WellTimed(ops) && Linearization(w, ops) && i < j < |w| && n < |w| && KeyLess(w[j], w[i])
    requires forall m :: i < m < n ==> !KeyLess(w[m], w[i])
    ensures !MustPrecede(w[j], w[n])
  {
    assert w[j] in w;
  }

  /** The recorded order has the pair as its content says, and `s` before `t`. */
  lemma PairRecorded(w: seq<ToolInterval>, ops: set<ToolInterval>, o: ReadObservation, r: Roles, c: ToolInterval, d: ToolInterval)
    requires UniqueIds(ops) && WellTimed(ops) && Detected(ops, o, r, c, d) && PairCalls(ops, r)
    requires IsWitness(w, ops, None, Last(r, c))
    ensures w != [] && w[0] == r.m && Then(w, r.s, r.t)
  {
    PairEnds(w, ops, r);
    LastTells(r);
    EitherWay(w, ops, r.x, r.y);
    assert Then(w, c, d);
    EitherWay(w, ops, r.s, r.t);
    if Then(w, r.t, r.s) {
      var i, j := PlacesInOrder(w, r.t, r.s);
      var n := FirstSmaller(w, i, j);
      var up := MoveUp(w, ops, i, n);
      MoveKeepsPair(w, up, ops, o, r, c, d, i, n);
      assert i > 0 && up[0] == w[0];
      PairEnds(up, ops, r);
      EitherWay(up, ops, r.x, r.y);
    }
  }

  /** `s` first: the edit of `t` is never seen without that of `s`. */
  lemma PairUnseen(w: seq<ToolInterval>, ops: set<ToolInterval>, o: ReadObservation, r: Roles, line: string)
    requires PairCalls(ops, r) && Linearization(w, ops) && w != [] && w[0] == r.m && Then(w, r.s, r.t)
    requires |line| == 4 && line[0] == 'a' && line[1] != 'b'
    ensures !Explains(w, OneLine(o, line))
  {
    PairTame(ops, r);
    var i, j := PlacesInOrder(w, r.s, r.t);
    forall k: nat | k <= |w| ensures !ShownAt(w, OneLine(o, line), k) {
      if k > 0 {
        PartOf(w, ops, k);
        assert w[..k][0] == w[0];
        SlotsSoFar(w[..k], ops, r);
        EditBefore(w, i, j, k);
        assert Slots(w[..k], r)[0] != 'a' || Slots(w[..k], r)[1] == 'b';
      }
      NotShownAt(w, o, line, k);
    }
  }

  lemma EditBefore(w: seq<ToolInterval>, i: nat, j: nat, k: nat)
    requires Distinct(w) && i < j < |w| && k <= |w|
    ensures w[j] in w[..k] ==> w[i] in w[..k]
  {
    if w[j] in w[..k] {
      var n :| 0 <= n < k && w[..k][n] == w[j];
      SamePlace(w, n, j);
      assert w[..k][i] == w[i];
    }
  }

  lemma StagedPair(front: seq<ToolInterval>, rest: seq<ToolInterval>, ops: set<ToolInterval>, o: ReadObservation, r: Roles,
                   c: ToolInterval, d: ToolInterval)
    requires Timed(ops, o) && Detected(ops, o, r, c, d)
    requires Linearization(front, UpTo(ops, o, r.m, r.t)) && Linearization(rest, ops - UpTo(ops, o, r.m, r.t))
    requires front != [] && front[0] == r.m && SortedByKey(front[1..]) && SortedByKey(rest)
    ensures Then(front + rest, c, d)
  {
    UpToClosed(ops, o, r.m, r.s, r.t);
    assert c in front || c in rest;
    assert d in front || d in rest;
    if c in front && d in rest {
      BetweenPieces(front, rest, c, d);
    } else if c in front {
      assert KeyLess(c, d);
      assert front == [r.m] + front[1..];
      SortedThen(front[1..], c, d);
      ThenWithin([r.m], front[1..], rest, c, d);
    } else {
      assert KeyLess(c, d);
      SortedThen(rest, c, d);
      ThenWithin(front, rest, [], c, d);
      assert front + rest + [] == front + rest;
    }
  }

  lemma BetweenPieces(front: seq<ToolInterval>, rest: seq<ToolInterval>, c: ToolInterval, d: ToolInterval)
    requires c in front && d in rest
    ensures Then(front + rest, c, d)
  {
    var i: nat :| i < |front| && front[i] == c;
    var j: nat :| j < |rest| && rest[j] == d;
    assert (front + rest)[i] == c && (front + rest)[|front| + j] == d;
  }

  lemma SortedThen(s: seq<ToolInterval>, c: ToolInterval, d: ToolInterval)
    requires SortedByKey(s) && c in s && d in s && KeyLess(c, d)
    ensures Then(s, c, d)
  {
    var i: nat :| i < |s| && s[i] == c;
    var j: nat :| j < |s| && s[j] == d;
    KeyLessTotal(c, d);
    assert i < j;
  }

  lemma ThenWithin(a: seq<ToolInterval>, b: seq<ToolInterval>, e: seq<ToolInterval>, c: ToolInterval, d: ToolInterval)
    requires Then(b, c, d)
    ensures Then(a + b + e, c, d)
  {
    var i, j := PlacesInOrder(b, c, d);
    assert (a + b + e)[|a| + i] == c && (a + b + e)[|a| + j] == d;
  }

  /** The order that explains the read: up to `t` before it, all others behind it. */
  lemma PairSeen(ops: set<ToolInterval>, o: ReadObservation, r: Roles, c: ToolInterval, d: ToolInterval)
    returns (p: seq<ToolInterval>, line: string)
    requires Timed(ops, o) && Detected(ops, o, r, c, d) && PairCalls(ops, r)
    ensures Completes(p, ops, None, Last(r, c)) && Explains(p, OneLine(o, line))
    ensures |line| == 4 && line[0] == 'a' && line[1] != 'b'
  {
    var first := UpTo(ops, o, r.m, r.t);
    UpToClosed(ops, o, r.m, r.s, r.t);
    var front, rest := Staged(r.m, first, ops);
    p := front + rest;
    StagedPair(front, rest, ops, o, r, c, d);
    PairCompletes(p, ops, r, c, d);
    RoomBehind(front, first, rest, ops - first, o);
    line := PairLine(front, first, ops, r);
    assert p[..|front|] == front;
    IsShownAt(p, o, line, |front|);
  }

  lemma PairCompletes(p: seq<ToolInterval>, ops: set<ToolInterval>, r: Roles, c: ToolInterval, d: ToolInterval)
    requires PairCalls(ops, r) && Linearization(p, ops) && p != [] && p[0] == r.m && Then(p, c, d)
    requires (c == r.x && d == r.y) || (c == r.y && d == r.x)
    ensures Completes(p, ops, None, Last(r, c))
  {
    EitherWay(p, ops, r.x, r.y);
    PairEnds(p, ops, r);
  }

  lemma PairLine(front: seq<ToolInterval>, first: set<ToolInterval>, ops: set<ToolInterval>, r: Roles) returns (line: string)
    requires PairCalls(ops, r) && first <= ops && Linearization(front, first) && front != [] && front[0] == r.m
    requires r.t in first && r.s !in first
    ensures |line| == 4 && line[0] == 'a' && line[1] != 'b' && BreakFree(line)
    ensures Run(None, front) == Reached(Some(line))
  {
    assert r.t in front && r.s !in front;
    SlotsSoFar(front, ops, r);
    line := Slots(front, r);
  }

  /** The other content: `d` as early as possible, and before `c`. */
  lemma PairTurned(ops: set<ToolInterval>, o: ReadObservation, r: Roles, c: ToolInterval, d: ToolInterval) returns (p: seq<ToolInterval>)
    requires Timed(ops, o) && Detected(ops, o, r, c, d) && PairCalls(ops, r)
    ensures Completes(p, ops, None, Last(r, d))
  {
    var first := {r.m} + Down(ops, d);
    DownOf(ops, d);
    UnionDownward({r.m}, Down(ops, d), ops);
    var front, rest := Staged(r.m, first, ops);
    p := front + rest;
    assert d in front && c in rest;
    BetweenPieces(front, rest, d, c);
    PairCompletes(p, ops, r, d, c);
  }

  lemma DetectedLost(ops: set<ToolInterval>, o: ReadObservation, r: Roles, c: ToolInterval, d: ToolInterval)
    requires Timed(ops, o) && Detected(ops, o, r, c, d) && PairCalls(ops, r)
    ensures Loses(ops, o)
  {
    var p, line := PairSeen(ops, o, r, c, d);
    var q := PairTurned(ops, o, r, c, d);
    LastTells(r);
    OutcomesMeaning(Last(r, c), ops, None);
    var w := WitnessExists(ops, None, Last(r, c));
    PairRecorded(w, ops, o, r, c, d);
    PairUnseen(w, ops, o, r, line);
    Lost(w, p, q, ops, OneLine(o, line), Last(r, c), Last(r, d));
  }
}
