/** Tool calls as intervals of a trace, the order they impose on each other, and the
    linear extensions of that order. */
module Intervals {
  import opened Wrappers
  import opened Text

  /** The arguments of a write or edit call; None stands for "absent or not a string". */
  datatype Args = Args(content: Option<string>, oldString: Option<string>, newString: Option<string>, replaceAll: bool)

  datatype ToolInterval = ToolInterval(
    eventId: string, start: int, end: int, toolCallId: string, toolName: string,
    agentName: string, path: string, args: Args, payloadIds: seq<string>)

  /** `a` ended before `b` started, so every linearization puts `a` first. */
  predicate MustPrecede(a: ToolInterval, b: ToolInterval) {
    a.eventId != b.eventId && a.end < b.start
  }

  ghost predicate UniqueIds(ops: set<ToolInterval>) {
    forall a, b :: a in ops && b in ops && a.eventId == b.eventId ==> a == b
  }

  /** A tool call starts before it ends. */
  ghost predicate WellTimed(ops: set<ToolInterval>) {
    forall a :: a in ops ==> a.start <= a.end
  }

  // ---------------------------------------------------------------- linear extensions

  ghost predicate Distinct<T>(s: seq<T>) {
    forall i, j :: 0 <= i < j < |s| ==> s[i] != s[j]
  }

  ghost predicate Respects(order: seq<ToolInterval>) {
    forall i, j :: 0 <= i < j < |order| ==> !MustPrecede(order[j], order[i])
  }

  /** `order` lists `ops` once each and never contradicts "ended before started". */
  ghost predicate Linearization(order: seq<ToolInterval>, ops: set<ToolInterval>) {
    && Distinct(order)
    && (forall a :: a in order <==> a in ops)
    && Respects(order)
  }

  /** No remaining operation has to come before `a`. */
  predicate Ready(a: ToolInterval, remaining: set<ToolInterval>) {
    a in remaining && forall b :: b in remaining ==> !MustPrecede(b, a)
  }

  /** A linearization is a ready operation followed by a linearization of the rest. */
  lemma LinearizationCons(a: ToolInterval, tail: seq<ToolInterval>, ops: set<ToolInterval>)
    ensures Linearization([a] + tail, ops) <==> Ready(a, ops) && Linearization(tail, ops - {a})
  {
    var order := [a] + tail;
    assert order[0] == a && order[1..] == tail;
    if Linearization(order, ops) {
      assert a in order;
      forall b | b in ops ensures !MustPrecede(b, a) {
        assert b in order;
        var j :| 0 <= j < |order| && order[j] == b;
        if j > 0 { assert !MustPrecede(order[j], order[0]); }
      }
      ConsTail(a, tail, ops);
    }
    if Ready(a, ops) && Linearization(tail, ops - {a}) {
      ConsWhole(a, tail, ops);
    }
  }

  lemma ConsTail(a: ToolInterval, tail: seq<ToolInterval>, ops: set<ToolInterval>)
    requires Linearization([a] + tail, ops)
    ensures Linearization(tail, ops - {a})
  {
    var order := [a] + tail;
    forall i, j | 0 <= i < j < |tail| ensures tail[i] != tail[j] && !MustPrecede(tail[j], tail[i]) {
      assert order[i + 1] == tail[i] && order[j + 1] == tail[j];
    }
    forall b ensures b in tail <==> b in ops - {a} {
      if b in tail {
        var i :| 0 <= i < |tail| && tail[i] == b;
        assert order[i + 1] == b && order[0] == a;
        assert b in order;
      }
      if b in ops - {a} { assert b in order; }
    }
  }

  lemma ConsWhole(a: ToolInterval, tail: seq<ToolInterval>, ops: set<ToolInterval>)
    requires Ready(a, ops) && Linearization(tail, ops - {a})
    ensures Linearization([a] + tail, ops)
  {
    var order := [a] + tail;
    forall i, j | 0 <= i < j < |order| ensures order[i] != order[j] && !MustPrecede(order[j], order[i]) {
      assert order[j] == tail[j - 1] && tail[j - 1] in tail;
      if i > 0 { assert order[i] == tail[i - 1]; }
    }
    forall b ensures b in order <==> b in ops {
      assert b in order <==> b == a || b in tail;
    }
  }

  lemma {:induction false} LinearizationLength(order: seq<ToolInterval>, ops: set<ToolInterval>)
    requires Linearization(order, ops)
    ensures |order| == |ops|
  {
    if order == [] {
      forall a ensures a !in ops { assert a in order <==> a in ops; }
      assert ops == {};
    } else {
      assert order == [order[0]] + order[1..];
      LinearizationCons(order[0], order[1..], ops);
      LinearizationLength(order[1..], ops - {order[0]});
    }
  }

  // ---------------------------------------------------------------- progress

  lemma {:induction false} EarliestEnd(ops: set<ToolInterval>) returns (a: ToolInterval)
    requires ops != {}
    ensures a in ops && forall b :: b in ops ==> a.end <= b.end
  {
    a :| a in ops;
    if ops != {a} {
      var b := EarliestEnd(ops - {a});
      if b.end < a.end { a := b; }
    }
  }

  /** While operations remain, one of them is ready: the one that ended first. */
  lemma SomeOperationReady(ops: set<ToolInterval>) returns (a: ToolInterval)
    requires ops != {} && WellTimed(ops)
    ensures Ready(a, ops) && forall b :: b in ops ==> a.end <= b.end
  {
    a := EarliestEnd(ops);
  }

  /** Every set of well-timed intervals has a linearization: sort by end. */
  lemma {:induction false} LinearizationExists(ops: set<ToolInterval>) returns (order: seq<ToolInterval>)
    requires WellTimed(ops)
    ensures Linearization(order, ops)
    ensures forall i, j :: 0 <= i < j < |order| ==> order[i].end <= order[j].end
    decreases ops
  {
    if ops == {} {
      order := [];
    } else {
      var a := SomeOperationReady(ops);
      var tail := LinearizationExists(ops - {a});
      LinearizationCons(a, tail, ops);
      order := [a] + tail;
      forall j | 0 <= j < |tail| ensures a.end <= tail[j].end { assert tail[j] in tail; }
    }
  }

  // ---------------------------------------------------------------- meaning in time

  /** Moments, one in each interval, in the order of the list. */
  ghost predicate PointsFor(order: seq<ToolInterval>, points: seq<int>) {
    && |points| == |order|
    && (forall i :: 0 <= i < |order| ==> order[i].start <= points[i] <= order[i].end)
    && (forall i, j :: 0 <= i < j < |order| ==> points[i] <= points[j])
  }

  ghost function LatestStart(order: seq<ToolInterval>): int
    requires order != []
  {
    var n := |order| - 1;
    if n == 0 then order[0].start
    else
      var m := LatestStart(order[..n]);
      if m < order[n].start then order[n].start else m
  }

  lemma {:induction false} LatestStartMeaning(order: seq<ToolInterval>) returns (k: nat)
    requires order != []
    ensures k < |order| && order[k].start == LatestStart(order)
    ensures forall i :: 0 <= i < |order| ==> order[i].start <= LatestStart(order)
  {
    var n := |order| - 1;
    k := n;
    if n > 0 {
      var m := LatestStartMeaning(order[..n]);
      forall i | 0 <= i < n ensures order[i].start <= LatestStart(order[..n]) {
        assert order[..n][i] == order[i];
      }
      if order[n].start <= LatestStart(order[..n]) { k := m; }
    }
  }

  lemma LatestStartGrows(order: seq<ToolInterval>, i: nat, j: nat)
    requires i < j < |order|
    ensures LatestStart(order[..i + 1]) <= LatestStart(order[..j + 1])
  {
    var a, b := order[..i + 1], order[..j + 1];
    var k := LatestStartMeaning(a);
    var _ := LatestStartMeaning(b);
    assert b[k] == a[k];
  }

  /** What an order that respects the intervals is for: it is exactly an order in which
      every operation can take effect at one moment between its start and its end. */
  lemma LinearizationPoints(order: seq<ToolInterval>)
    requires forall i :: 0 <= i < |order| ==> order[i].start <= order[i].end
    requires forall i, j :: 0 <= i < j < |order| ==> order[i].eventId != order[j].eventId
    ensures Respects(order) <==> exists points :: PointsFor(order, points)
  {
    if Respects(order) {
      var points := PointsOfOrder(order);
    }
    if points :| PointsFor(order, points) {
      forall i, j | 0 <= i < j < |order| ensures !MustPrecede(order[j], order[i]) {
        assert points[i] <= points[j];
      }
    }
  }

  lemma PointsOfOrder(order: seq<ToolInterval>) returns (points: seq<int>)
    requires forall i :: 0 <= i < |order| ==> order[i].start <= order[i].end
    requires forall i, j :: 0 <= i < j < |order| ==> order[i].eventId != order[j].eventId
    requires Respects(order)
    ensures PointsFor(order, points)
  {
    points := LatestStarts(order);
    forall i | 0 <= i < |order| ensures order[i].start <= points[i] <= order[i].end {
      LatestStartInside(order, i);
    }
    forall i, j | 0 <= i < j < |order| ensures points[i] <= points[j] {
      LatestStartGrows(order, i, j);
    }
  }

  ghost function LatestStarts(order: seq<ToolInterval>): (points: seq<int>)
    ensures |points| == |order|
    ensures forall i :: 0 <= i < |order| ==> points[i] == LatestStart(order[..i + 1])
  {
    seq(|order|, i requires 0 <= i < |order| => LatestStart(order[..i + 1]))
  }

  lemma LatestStartInside(order: seq<ToolInterval>, i: nat)
    requires i < |order| && order[i].start <= order[i].end
    requires forall k :: 0 <= k < i ==> order[i].eventId != order[k].eventId && !MustPrecede(order[i], order[k])
    ensures order[i].start <= LatestStart(order[..i + 1]) <= order[i].end
  {
    var a := order[..i + 1];
    assert a[i] == order[i];
    var k := LatestStartMeaning(a);
    assert a[k] == order[k];
  }

  // ---------------------------------------------------------------- the search's sort key

  /** `(end_sequence, start_sequence, event_id)` compared as a Python tuple. */
  predicate KeyLess(a: ToolInterval, b: ToolInterval) {
    || a.end < b.end
    || (a.end == b.end && a.start < b.start)
    || (a.end == b.end && a.start == b.start && StringLess(a.eventId, b.eventId))
  }

  lemma KeyLessTotal(a: ToolInterval, b: ToolInterval)
    ensures a.eventId != b.eventId ==> KeyLess(a, b) || KeyLess(b, a)
    ensures !(KeyLess(a, b) && KeyLess(b, a))
    ensures !KeyLess(a, a)
  {
    StringLessTrichotomy(a.eventId, b.eventId);
    StringLessTrichotomy(a.eventId, a.eventId);
  }

  lemma KeyLessTransitive(a: ToolInterval, b: ToolInterval, c: ToolInterval)
    requires KeyLess(a, b) && KeyLess(b, c)
    ensures KeyLess(a, c)
  {
    if StringLess(a.eventId, b.eventId) && StringLess(b.eventId, c.eventId) {
      StringLessTransitive(a.eventId, b.eventId, c.eventId);
    }
  }

  lemma {:induction false} KeyMin(ops: set<ToolInterval>) returns (a: ToolInterval)
    requires UniqueIds(ops) && ops != {}
    ensures a in ops && forall b :: b in ops && b != a ==> KeyLess(a, b)
    decreases ops
  {
    a :| a in ops;
    if ops != {a} {
      var m := KeyMin(ops - {a});
      KeyLessTotal(a, m);
      if KeyLess(m, a) {
        a := m;
      } else {
        forall b | b in ops && b != a ensures KeyLess(a, b) {
          if b != m { KeyLessTransitive(a, m, b); }
        }
      }
    }
  }

  lemma {:induction false} KeyMax(ops: set<ToolInterval>) returns (a: ToolInterval)
    requires UniqueIds(ops) && ops != {}
    ensures a in ops && forall b :: b in ops && b != a ==> KeyLess(b, a)
    decreases ops
  {
    a :| a in ops;
    if ops != {a} {
      var m := KeyMax(ops - {a});
      KeyLessTotal(a, m);
      if KeyLess(a, m) {
        a := m;
      } else {
        forall b | b in ops && b != a ensures KeyLess(b, a) {
          if b != m { KeyLessTransitive(b, m, a); }
        }
      }
    }
  }

  ghost predicate SortedByKey(s: seq<ToolInterval>) {
    forall i, j :: 0 <= i < j < |s| ==> KeyLess(s[i], s[j])
  }

  function InsertByKey(s: seq<ToolInterval>, x: ToolInterval): seq<ToolInterval> {
    if s == [] || KeyLess(x, s[0]) then [x] + s else [s[0]] + InsertByKey(s[1..], x)
  }

  lemma {:induction false} InsertByKeySorted(s: seq<ToolInterval>, x: ToolInterval)
    requires SortedByKey(s)
    requires forall y :: y in s ==> y.eventId != x.eventId
    ensures SortedByKey(InsertByKey(s, x))
    ensures forall y :: y in InsertByKey(s, x) <==> y in s || y == x
  {
    if s == [] {
    } else if KeyLess(x, s[0]) {
      forall j | 0 <= j < |s| ensures KeyLess(x, s[j]) {
        if j > 0 { KeyLessTransitive(x, s[0], s[j]); }
      }
    } else {
      KeyLessTotal(x, s[0]);
      InsertByKeySorted(s[1..], x);
      var tail := InsertByKey(s[1..], x);
      forall j | 0 <= j < |tail| ensures KeyLess(s[0], tail[j]) {
        assert tail[j] in tail;
        assert tail[j] == x || tail[j] in s[1..];
      }
      assert s == [s[0]] + s[1..];
    }
  }

  /** Python's `sorted` over a set of operations with the search's key. */
  method SortByKey(ops: set<ToolInterval>) returns (r: seq<ToolInterval>)
    requires UniqueIds(ops)
    ensures SortedByKey(r)
    ensures forall a :: a in r <==> a in ops
  {
    r := [];
    var todo := ops;
    while todo != {}
      invariant todo <= ops
      invariant SortedByKey(r)
      invariant forall a :: a in r <==> a in ops - todo
      decreases todo
    {
      var x :| x in todo;
      InsertByKeySorted(r, x);
      r := InsertByKey(r, x);
      todo := todo - {x};
    }
  }

  /** Lexicographic order on lists of equal length, by the search's key. */
  ghost predicate LexLe(s: seq<ToolInterval>, t: seq<ToolInterval>) {
    || s == []
    || (t != [] && (KeyLess(s[0], t[0]) || (s[0] == t[0] && LexLe(s[1..], t[1..]))))
  }

  lemma {:induction false} LexLeReflexive(s: seq<ToolInterval>)
    ensures LexLe(s, s)
  {
    if s != [] { LexLeReflexive(s[1..]); }
  }

  lemma {:induction false} LexLeAntisymmetric(s: seq<ToolInterval>, t: seq<ToolInterval>)
    requires |s| == |t| && LexLe(s, t) && LexLe(t, s)
    ensures s == t
  {
    if s != [] {
      KeyLessTotal(s[0], t[0]);
      LexLeAntisymmetric(s[1..], t[1..]);
      assert s == [s[0]] + s[1..] && t == [t[0]] + t[1..];
    }
  }
}
