/** Families of intervals where two calls can both be first: which of them wrote last, or
    whether an edit came before the second one, is not told by the final content alone. */
module FilterRaces {
  import opened Wrappers
  import opened Text
  import opened Intervals
  import opened Replay
  import opened Observations
  import opened Recovery
  import opened Confluence
  import opened FilterShape
  import opened FilterTools
  import opened FilterEdits

  // ---------------------------------------------------------------- two starts

  /** An inversion whose two edits wait for `d`, which can be first, as `m` can. */
  ghost predicate TwoStarts(ops: set<ToolInterval>, o: ReadObservation, m: ToolInterval, d: ToolInterval, s: ToolInterval,
                            t: ToolInterval)
  {
    Inversion(ops, o, m, s, t) && d in ops && d != m && Ready(d, ops) && MustPrecede(d, s) && MustPrecede(d, t)
  }

  /** `m` and `d` write "ab" with a letter of their own, `s` and `t` edit one character each. */
  ghost predicate StartCalls(ops: set<ToolInterval>, m: ToolInterval, d: ToolInterval, s: ToolInterval, t: ToolInterval) {
    && m in ops && d in ops && s in ops && t in ops && m != d && m != s && m != t && d != s && d != t && s != t
    && IsWrite(m, "abm") && IsWrite(d, "abd") && IsSwap(s, 'a', 'A') && IsSwap(t, 'b', 'B')
    && forall b :: b in ops && b != m && b != d && b != s && b != t ==> IsKeep(b)
  }

  function Edited(first: bool, second: bool, letter: char): string {
    [if first then 'A' else 'a', if second then 'B' else 'b', letter]
  }

  lemma EditStep(a: ToolInterval, ops: set<ToolInterval>, m: ToolInterval, d: ToolInterval, s: ToolInterval, t: ToolInterval,
                 f: bool, g: bool, c: char)
    requires StartCalls(ops, m, d, s, t) && a in ops && a != m && a != d && (a == s ==> !f) && (a == t ==> !g)
    requires c == 'm' || c == 'd'
    ensures Apply(Some(Edited(f, g, c)), a) == Some(Edited(f || a == s, g || a == t, c))
  {
    var text := Edited(f, g, c);
    if a == s {
      OnceApplied(a, text, 'a', 'A', 0);
      assert Mapped(text, 'a', 'A') == Edited(true, g, c);
    } else if a == t {
      OnceApplied(a, text, 'b', 'B', 1);
      assert Mapped(text, 'b', 'B') == Edited(f, true, c);
    } else {
      KeepApplied(a, Some(text));
    }
  }

  /** Up to `i` only writes, there the last of them, `x`; then come the edits. */
  ghost predicate WrittenAt(p: seq<ToolInterval>, ops: set<ToolInterval>, m: ToolInterval, d: ToolInterval, s: ToolInterval,
                            t: ToolInterval, x: ToolInterval, i: nat)
  {
    && i < |p| && p[i] == x && (x == m || x == d) && (p[0] == m || p[0] == d) && Distinct(p)
    && (forall b :: b in p ==> b in ops)
    && (forall j :: 0 <= j < i ==> p[j] != s && p[j] != t) && forall j :: i < j < |p| ==> p[j] != m && p[j] != d
  }

  lemma {:induction false} WritesRun(p: seq<ToolInterval>, ops: set<ToolInterval>, m: ToolInterval, d: ToolInterval,
                                     s: ToolInterval, t: ToolInterval)
    requires StartCalls(ops, m, d, s, t) && p != [] && (p[0] == m || p[0] == d)
    requires forall b :: b in p ==> b in ops && b != s && b != t
    ensures Run(None, p).Reached? && Run(None, p).file.Some?
    decreases |p|
  {
    var n := |p| - 1;
    var q, a := p[..n], p[n];
    assert p == q + [a] && a in p;
    RunSnoc(None, q, a);
    if n > 0 {
      forall b | b in q ensures b in p { }
      WritesRun(q, ops, m, d, s, t);
      if a != m && a != d { KeepApplied(a, Run(None, q).file); }
    } else {
      assert q == [];
    }
  }

  lemma {:induction false} StartsSoFar(p: seq<ToolInterval>, ops: set<ToolInterval>, m: ToolInterval, d: ToolInterval,
                                       s: ToolInterval, t: ToolInterval, x: ToolInterval, i: nat)
    requires StartCalls(ops, m, d, s, t) && WrittenAt(p, ops, m, d, s, t, x, i)
    ensures Run(None, p) == Reached(Some(Edited(s in p, t in p, if x == m then 'm' else 'd')))
    decreases |p|
  {
    var n := |p| - 1;
    var q, a := p[..n], p[n];
    assert p == q + [a] && a in p && a !in q;
    if n == i {
      StartWritten(q, ops, m, d, s, t, x, p);
    } else {
      forall b | b in q ensures b in ops { assert b in p; }
      StartsSoFar(q, ops, m, d, s, t, x, i);
      RunSnoc(None, q, a);
      EditStep(a, ops, m, d, s, t, s in q, t in q, if x == m then 'm' else 'd');
    }
  }

  lemma StartWritten(q: seq<ToolInterval>, ops: set<ToolInterval>, m: ToolInterval, d: ToolInterval,
                     s: ToolInterval, t: ToolInterval, x: ToolInterval, p: seq<ToolInterval>)
    requires StartCalls(ops, m, d, s, t) && p == q + [x] && WrittenAt(p, ops, m, d, s, t, x, |q|)
    ensures Run(None, p) == Reached(Some(Edited(s in p, t in p, if x == m then 'm' else 'd')))
  {
    forall b | b in q ensures b in ops && b != s && b != t {
      assert b in p;
      var j :| 0 <= j < |q| && q[j] == b;
      assert p[j] == b;
    }
    if q != [] {
      assert q[0] == p[0];
      WritesRun(q, ops, m, d, s, t);
    }
    RunSnoc(None, q, x);
  }

  /** The letter of a write stays until the next write. */
  lemma {:induction false} LetterStays(file: File, p: seq<ToolInterval>, ops: set<ToolInterval>, m: ToolInterval, d: ToolInterval,
                                       s: ToolInterval, t: ToolInterval)
    requires StartCalls(ops, m, d, s, t) && (forall b :: b in p ==> b in ops && b != m && b != d)
    requires file.Some? && |file.value| == 3 && file.value[2] == 'm' && Run(file, p).Reached?
    ensures Run(file, p).file.Some? && |Run(file, p).file.value| == 3 && Run(file, p).file.value[2] == 'm'
    decreases |p|
  {
    if p != [] {
      assert p[0] in p;
      LetterKept(file.value, p[0], ops, m, d, s, t);
      LetterStays(Apply(file, p[0]), p[1..], ops, m, d, s, t);
    }
  }

  lemma LetterKept(text: string, a: ToolInterval, ops: set<ToolInterval>, m: ToolInterval, d: ToolInterval,
                   s: ToolInterval, t: ToolInterval)
    requires StartCalls(ops, m, d, s, t) && a in ops && a != m && a != d && |text| == 3 && text[2] == 'm'
    requires Apply(Some(text), a).Some?
    ensures |Apply(Some(text), a).value| == 3 && Apply(Some(text), a).value[2] == 'm'
  {
    if a == s {
      EditApplied(a, text, "a", "A", false);
      CharsReplaced(text, 'a', 'A');
    } else if a == t {
      EditApplied(a, text, "b", "B", false);
      CharsReplaced(text, 'b', 'B');
    } else {
      KeepApplied(a, Some(text));
    }
  }

  lemma StartTame(ops: set<ToolInterval>, m: ToolInterval, d: ToolInterval, s: ToolInterval, t: ToolInterval)
    requires StartCalls(ops, m, d, s, t)
    ensures forall a :: a in ops ==> Tame(a)
  {
    forall a | a in ops ensures Tame(a) {
      if a == m { WriteTame(a, "abm"); }
      else if a == d { WriteTame(a, "abd"); }
      else if a == s { EditTame(a, "a", "A", false); }
      else if a == t { EditTame(a, "b", "B", false); }
      else { EditTame(a, "~", "~", false); }
    }
  }

  /** An order that begins with `m` ends in "ABd". */
  lemma StartsWith(p: seq<ToolInterval>, ops: set<ToolInterval>, o: ReadObservation, m: ToolInterval, d: ToolInterval,
                   s: ToolInterval, t: ToolInterval) returns (i: nat)
    requires TwoStarts(ops, o, m, d, s, t) && StartCalls(ops, m, d, s, t) && Linearization(p, ops) && p != [] && p[0] == m
    ensures 0 < i < |p| && p[i] == d && forall j :: 0 <= j < i ==> p[j] != s && p[j] != t && p[j] != d
    ensures WrittenAt(p, ops, m, d, s, t, d, i) && Completes(p, ops, None, "ABd")
  {
    assert d in p && s in p && t in p;
    i :| i < |p| && p[i] == d;
    forall j | 0 <= j < i ensures p[j] != s && p[j] != t { assert !MustPrecede(p[i], p[j]); }
    StartsSoFar(p, ops, m, d, s, t, d, i);
  }

  /** An order that ends in "ABd" begins with `m`. */
  lemma StartsOnly(p: seq<ToolInterval>, ops: set<ToolInterval>, m: ToolInterval, d: ToolInterval,
                   s: ToolInterval, t: ToolInterval)
    requires StartCalls(ops, m, d, s, t) && Completes(p, ops, None, "ABd")
    ensures p != [] && p[0] == m
  {
    assert m in p && p[0] in p;
    if p[0] != m {
      var i: nat :| i < |p| && p[i] == m;
      if p[0] == d {
        WrittenLast(p, ops, m, d, s, t, i);
      } else {
        CompletesCons(p, ops, None, "ABd");
      }
    }
  }

  lemma WrittenLast(p: seq<ToolInterval>, ops: set<ToolInterval>, m: ToolInterval, d: ToolInterval,
                    s: ToolInterval, t: ToolInterval, i: nat)
    requires StartCalls(ops, m, d, s, t) && Linearization(p, ops) && 0 < i < |p| && p[0] == d && p[i] == m
    ensures Run(None, p) != Reached(Some("ABd"))
  {
    AroundOne(p, ops, i);
    var post := p[i + 1..];
    forall b | b in post ensures b != d {
      var n :| 0 <= n < |post| && post[n] == b;
      assert b == p[n + i + 1];
    }
    WrittenBetween(p[..i], post, ops, m, d, s, t);
  }

  lemma WrittenBetween(pre: seq<ToolInterval>, post: seq<ToolInterval>, ops: set<ToolInterval>, m: ToolInterval, d: ToolInterval,
                       s: ToolInterval, t: ToolInterval)
    requires StartCalls(ops, m, d, s, t) && forall b :: b in post ==> b in ops && b != m && b != d
    ensures Run(None, (pre + [m]) + post) != Reached(Some("ABd"))
  {
    RunConcat(None, pre + [m], post);
    RunSnoc(None, pre, m);
    if Run(None, pre).Reached? && Run(Some("abm"), post).Reached? { LetterStays(Some("abm"), post, ops, m, d, s, t); }
  }

  /** `m` and the others by key: `s` is edited before `t`. */
  lemma StartsUnseen(w: seq<ToolInterval>, rest: seq<ToolInterval>, ops: set<ToolInterval>, o: ReadObservation,
                     m: ToolInterval, d: ToolInterval, s: ToolInterval, t: ToolInterval)
    requires TwoStarts(ops, o, m, d, s, t) && StartCalls(ops, m, d, s, t) && w == [m] + rest
    requires SortedByKey(rest) && Linearization(rest, ops - {m}) && Linearization(w, ops)
    ensures !Explains(w, OneLine(o, "aBd"))
  {
    StartTame(ops, m, d, s, t);
    var i := StartsWith(w, ops, o, m, d, s, t);
    var a, b := EditsByKey(w, rest, ops, m, s, t);
    forall k: nat | k <= |w| ensures !ShownAt(w, OneLine(o, "aBd"), k) {
      if k > 0 {
        PartOf(w, ops, k);
        EditBefore(w, a, b, k);
        PartWritten(w, ops, m, d, s, t, i, k);
      }
      NotShownAt(w, o, "aBd", k);
    }
  }

  lemma EditsByKey(w: seq<ToolInterval>, rest: seq<ToolInterval>, ops: set<ToolInterval>, m: ToolInterval,
                   s: ToolInterval, t: ToolInterval) returns (a: nat, b: nat)
    requires KeyLess(s, t) && s in ops - {m} && t in ops - {m} && w == [m] + rest
    requires SortedByKey(rest) && Linearization(rest, ops - {m})
    ensures a < b < |w| && w[a] == s && w[b] == t
  {
    assert s in rest && t in rest;
    SortedThen(rest, s, t);
    var i, j := PlacesInOrder(rest, s, t);
    a, b := i + 1, j + 1;
  }

  lemma PartWritten(w: seq<ToolInterval>, ops: set<ToolInterval>, m: ToolInterval, d: ToolInterval,
                    s: ToolInterval, t: ToolInterval, i: nat, k: nat)
    requires StartCalls(ops, m, d, s, t) && WrittenAt(w, ops, m, d, s, t, d, i) && w[0] == m && 0 < k <= |w|
    requires Distinct(w[..k]) && forall c :: c in w[..k] ==> c in ops
    requires t in w[..k] ==> s in w[..k]
    ensures Run(None, w[..k]) != Reached(Some("aBd"))
  {
    if k > i {
      StartsSoFar(w[..k], ops, m, d, s, t, d, i);
    } else {
      StartsSoFar(w[..k], ops, m, d, s, t, m, 0);
    }
  }

  lemma StartsSeen(ops: set<ToolInterval>, o: ReadObservation, m: ToolInterval, d: ToolInterval, s: ToolInterval, t: ToolInterval)
    returns (p: seq<ToolInterval>)
    requires Timed(ops, o) && TwoStarts(ops, o, m, d, s, t) && StartCalls(ops, m, d, s, t)
    ensures Completes(p, ops, None, "ABd") && Explains(p, OneLine(o, "aBd"))
  {
    var first := UpTo(ops, o, m, t);
    UpToClosed(ops, o, m, s, t);
    var front, rest := Staged(m, first, ops);
    p := front + rest;
    var i := StartsWith(p, ops, o, m, d, s, t);
    RoomBehind(front, first, rest, ops - first, o);
    StartsFront(front, first, rest, ops, o, m, d, s, t, i);
    assert p[..|front|] == front;
    IsShownAt(p, o, "aBd", |front|);
  }

  lemma StartsFront(front: seq<ToolInterval>, first: set<ToolInterval>, rest: seq<ToolInterval>, ops: set<ToolInterval>,
                    o: ReadObservation, m: ToolInterval, d: ToolInterval, s: ToolInterval, t: ToolInterval, i: nat)
    requires TwoStarts(ops, o, m, d, s, t) && StartCalls(ops, m, d, s, t) && first == UpTo(ops, o, m, t)
    requires Linearization(front, first) && Linearization(front + rest, ops) && s !in first && t in first
    requires WrittenAt(front + rest, ops, m, d, s, t, d, i)
    ensures Run(None, front) == Reached(Some("aBd"))
  {
    assert t in front && d in first && d in front && s !in front;
    var j: nat :| j < |front| && front[j] == d;
    assert (front + rest)[j] == d;
    SamePlace(front + rest, i, j);
    assert front[0] == (front + rest)[0];
    assert forall n :: 0 <= n < |front| ==> front[n] == (front + rest)[n];
    StartsSoFar(front, ops, m, d, s, t, d, i);
  }

  /** The other content: `d`, then `m`. */
  lemma StartsOther(ops: set<ToolInterval>, o: ReadObservation, m: ToolInterval, d: ToolInterval, s: ToolInterval, t: ToolInterval)
    returns (p: seq<ToolInterval>)
    requires Timed(ops, o) && TwoStarts(ops, o, m, d, s, t) && StartCalls(ops, m, d, s, t)
    ensures Completes(p, ops, None, "ABm")
  {
    var rest := PairThenRest(ops, d, m);
    p := [d, m] + rest;
    assert s in p && t in p;
    StartsSoFar(p, ops, m, d, s, t, m, 1);
  }

  lemma TwoInOrder(s: seq<ToolInterval>, a: ToolInterval, b: ToolInterval)
    requires a != b && Linearization(s, {a, b}) && s != [] && s[0] == a
    ensures s == [a, b]
  {
    LinearizationLength(s, {a, b});
    assert |s| == 2;
    assert s[1] in s && s[1] != s[0];
  }

  lemma PairThenRest(ops: set<ToolInterval>, q: ToolInterval, p: ToolInterval) returns (rest: seq<ToolInterval>)
    requires UniqueIds(ops) && WellTimed(ops) && p != q && Ready(p, ops) && Ready(q, ops)
    ensures Linearization(rest, ops - {q, p}) && Linearization([q, p] + rest, ops)
  {
    ReadyPair(ops, p, q);
    var front;
    front, rest := Staged(q, {q, p}, ops);
    TwoInOrder(front, q, p);
  }

  lemma TwoStartsLost(ops: set<ToolInterval>, o: ReadObservation, m: ToolInterval, d: ToolInterval, s: ToolInterval, t: ToolInterval)
    requires Timed(ops, o) && TwoStarts(ops, o, m, d, s, t) && StartCalls(ops, m, d, s, t)
    ensures Explained(ops, [OneLine(o, "aBd")], "ABd") && "ABd" !in Survivors(ops, [OneLine(o, "aBd")])
  {
    var rest := ByKey(ops - {m});
    var w := [m] + rest;
    LinearizationCons(m, rest, ops);
    var i := StartsWith(w, ops, o, m, d, s, t);
    forall p | Completes(p, ops, None, "ABd") && p != [] ensures p[0] == m || KeyLess(m, p[0]) {
      StartsOnly(p, ops, m, d, s, t);
    }
    FrontRecorded(m, rest, ops, "ABd");
    StartsUnseen(w, rest, ops, o, m, d, s, t);
    var p := StartsSeen(ops, o, m, d, s, t);
    var q := StartsOther(ops, o, m, d, s, t);
    Lost(w, p, q, ops, OneLine(o, "aBd"), "ABd", "ABm");
  }

  // ---------------------------------------------------------------- two writes and a later edit

  /** `p` and `q` overlap the read, all others come after it; `a` need not wait for `q`. */
  ghost predicate Race(ops: set<ToolInterval>, o: ReadObservation, p: ToolInterval, q: ToolInterval, a: ToolInterval) {
    && p in ops && q in ops && a in ops && a != p && a != q
    && Ready(p, ops) && Ready(q, ops) && KeyLess(p, q) && !MustPrecede(q, a)
    && !IsLater(p, o) && !IsLater(q, o) && NoneOver(ops, o) && IsLater(a, o)
  }

  ghost predicate NoneOver(ops: set<ToolInterval>, o: ReadObservation) {
    forall b :: b in ops ==> !IsOver(b, o)
  }

  ghost predicate RaceCalls(ops: set<ToolInterval>, p: ToolInterval, q: ToolInterval, a: ToolInterval) {
    && p in ops && q in ops && a in ops && p != q && a != p && a != q
    && IsWrite(p, "P") && IsWrite(q, "QP") && IsEdit(a, "P", "QP", false)
    && forall b :: b in ops && b != p && b != q && b != a ==> IsKeep(b)
  }

  lemma RaceTame(ops: set<ToolInterval>, p: ToolInterval, q: ToolInterval, a: ToolInterval)
    requires RaceCalls(ops, p, q, a)
    ensures forall b :: b in ops ==> Tame(b)
  {
    forall b | b in ops ensures Tame(b) {
      if b == p { WriteTame(p, "P"); }
      else if b == q { WriteTame(q, "QP"); }
      else if b == a { EditTame(a, "P", "QP", false); }
      else { EditTame(b, "~", "~", false); }
    }
  }

  /** In a stretch in which only `act` changes the file. */
  lemma RaceStretch(file: File, s: seq<ToolInterval>, act: ToolInterval, ops: set<ToolInterval>,
                    p: ToolInterval, q: ToolInterval, a: ToolInterval)
    requires RaceCalls(ops, p, q, a) && Distinct(s) && act in s && file.Some? && forall b :: b in s ==> b in ops
    requires forall b :: b in s && (b == p || b == q || b == a) ==> b == act
    ensures Run(file, s) == if Apply(file, act).None? then Broken else Reached(Apply(file, act))
  {
    OneActs(file, s, act);
  }

  lemma RaceEdit(ops: set<ToolInterval>, p: ToolInterval, q: ToolInterval, a: ToolInterval)
    requires RaceCalls(ops, p, q, a)
    ensures Apply(Some("P"), a) == Some("QP") && Apply(Some("QP"), a) == Some("QQP")
  {
    GrowOnce();
    assert BreakFree("P") && BreakFree("QP");
    EditApplied(a, "P", "P", "QP", false);
    EditApplied(a, "QP", "P", "QP", false);
  }

  lemma GrowOnce()
    ensures Count("P", "P") == 1 && ReplaceAll("P", "P", "QP") == "QP"
    ensures Count("QP", "P") == 1 && ReplaceAll("QP", "P", "QP") == "QQP"
  {
    ReplaceNothing('P', "QP");
    ReplaceFront('P', "", 'P', "QP");
    assert "P" == ['P'] + "" && "QP" + "" == "QP";
    ReplaceFront('Q', "P", 'P', "QP");
    assert "QP" == ['Q'] + "P" && ['Q'] + "QP" == "QQP";
  }

  /** An order through `p`, `a`, `q`: it ends in "QP" and begins with `p`. */
  lemma ThroughEdit(ops: set<ToolInterval>, o: ReadObservation, p: ToolInterval, q: ToolInterval, a: ToolInterval)
    returns (s: seq<ToolInterval>)
    requires Timed(ops, o) && Race(ops, o, p, q, a) && RaceCalls(ops, p, q, a)
    ensures Completes(s, ops, None, "QP") && s != [] && s[0] == p
  {
    var first := {p} + Down(ops, a);
    DownOf(ops, a);
    UnionDownward({p}, Down(ops, a), ops);
    var front, rest := Staged(p, first, ops);
    s := front + rest;
    ThroughEditRun(front, rest, first, ops, p, q, a);
  }

  lemma ThroughEditRun(front: seq<ToolInterval>, rest: seq<ToolInterval>, first: set<ToolInterval>, ops: set<ToolInterval>,
                       p: ToolInterval, q: ToolInterval, a: ToolInterval)
    requires RaceCalls(ops, p, q, a) && first <= ops && p in first && a in first && q !in first
    requires Linearization(front, first) && Linearization(rest, ops - first) && front != [] && front[0] == p
    ensures Run(None, front + rest) == Reached(Some("QP"))
  {
    var t := front[1..];
    assert front == [p] + t;
    LinearizationCons(p, t, first);
    RaceEdit(ops, p, q, a);
    assert a in t && q in rest;
    RaceStretch(Some("P"), t, a, ops, p, q, a);
    RaceStretch(Some("QP"), rest, q, ops, p, q, a);
    ConsRun(None, p, t);
    RunConcat(None, front, rest);
  }

  /** An order through `q`, `p`, `a`: it shows "QP" first and ends in it again. */
  lemma ThroughWrite(ops: set<ToolInterval>, o: ReadObservation, p: ToolInterval, q: ToolInterval, a: ToolInterval)
    returns (s: seq<ToolInterval>)
    requires Timed(ops, o) && Race(ops, o, p, q, a) && RaceCalls(ops, p, q, a)
    ensures Completes(s, ops, None, "QP") && Explains(s, OneLine(o, "QP"))
  {
    var rest := PairThenRest(ops, q, p);
    s := [q, p] + rest;
    RaceStart(ops, p, q, a);
    RaceEdit(ops, p, q, a);
    RaceEnd([q, p], rest, "P", "QP", ops, p, q, a);
    RaceRoom(s, ops, o, q);
  }

  /** After the two writes only the edit changes the file. */
  lemma RaceEnd(start: seq<ToolInterval>, rest: seq<ToolInterval>, text: string, other: string, ops: set<ToolInterval>,
                p: ToolInterval, q: ToolInterval, a: ToolInterval)
    requires RaceCalls(ops, p, q, a) && Linearization(rest, ops - {q, p})
    requires Run(None, start) == Reached(Some(text)) && Apply(Some(text), a) == Some(other)
    ensures Run(None, start + rest) == Reached(Some(other))
  {
    assert a in rest;
    RaceStretch(Some(text), rest, a, ops, p, q, a);
    RunConcat(None, start, rest);
  }

  lemma RaceStart(ops: set<ToolInterval>, p: ToolInterval, q: ToolInterval, a: ToolInterval)
    requires RaceCalls(ops, p, q, a)
    ensures Run(None, [q]) == Reached(Some("QP")) && Run(None, [q, p]) == Reached(Some("P"))
    ensures Run(None, [p]) == Reached(Some("P")) && Run(None, [p, q]) == Reached(Some("QP"))
  {
    RunSnoc(None, [], q);
    RunSnoc(None, [q], p);
    RunSnoc(None, [], p);
    RunSnoc(None, [p], q);
    assert [] + [q] == [q] && [q] + [p] == [q, p] && [] + [p] == [p] && [p] + [q] == [p, q];
  }

  lemma RaceRoom(s: seq<ToolInterval>, ops: set<ToolInterval>, o: ReadObservation, q: ToolInterval)
    requires Linearization(s, ops) && NoneOver(ops, o) && s != [] && s[0] == q && !IsLater(q, o)
    requires Run(None, [q]) == Reached(Some("QP"))
    ensures Explains(s, OneLine(o, "QP"))
  {
    forall i | 1 <= i < |s| ensures !(s[i].end < o.start) { assert s[i] in s; }
    assert s[..1] == [q];
    IsShownAt(s, o, "QP", 1);
  }

  /** The other content: `p`, `q`, and the edit after both. */
  lemma ThroughBoth(ops: set<ToolInterval>, o: ReadObservation, p: ToolInterval, q: ToolInterval, a: ToolInterval)
    returns (s: seq<ToolInterval>)
    requires Timed(ops, o) && Race(ops, o, p, q, a) && RaceCalls(ops, p, q, a)
    ensures Completes(s, ops, None, "QQP")
  {
    var rest := PairThenRest(ops, p, q);
    s := [p, q] + rest;
    assert {p, q} == {q, p};
    RaceStart(ops, p, q, a);
    RaceEdit(ops, p, q, a);
    RaceEnd([p, q], rest, "QP", "QQP", ops, p, q, a);
  }

  /** With `p` first and the edit behind `q`, the order ends in something else. */
  lemma EditBehind(w: seq<ToolInterval>, ops: set<ToolInterval>, p: ToolInterval, q: ToolInterval, a: ToolInterval, i: nat, j: nat)
    requires RaceCalls(ops, p, q, a) && Linearization(w, ops) && 0 < i < j < |w| && w[0] == p && w[i] == q && w[j] == a
    ensures Run(None, w) == Reached(Some("QQP"))
  {
    var t, post := w[1..j], w[j + 1..];
    assert w == ([p] + t + [a]) + post;
    assert t[i - 1] == q;
    RacePieces(w, ops, i, j, p, q, a);
    EditWritten(t, ops, p, q, a);
    KeptBehind([p] + t + [a], post, "QQP");
  }

  lemma KeptBehind(pre: seq<ToolInterval>, post: seq<ToolInterval>, text: string)
    requires Run(None, pre) == Reached(Some(text)) && forall b :: b in post ==> IsKeep(b)
    ensures Run(None, pre + post) == Reached(Some(text))
  {
    RunConcat(None, pre, post);
    KeepsRun(Some(text), post);
  }

  lemma EditWritten(t: seq<ToolInterval>, ops: set<ToolInterval>, p: ToolInterval, q: ToolInterval, a: ToolInterval)
    requires RaceCalls(ops, p, q, a) && Distinct(t) && q in t && forall b :: b in t ==> b in ops && b != p && b != a
    ensures Run(None, [p] + t + [a]) == Reached(Some("QQP"))
  {
    RaceStretch(Some("P"), t, q, ops, p, q, a);
    RaceEdit(ops, p, q, a);
    ConsRun(None, p, t);
    RunSnoc(None, [p] + t, a);
  }

  lemma RacePieces(w: seq<ToolInterval>, ops: set<ToolInterval>, i: nat, j: nat, p: ToolInterval, q: ToolInterval, a: ToolInterval)
    requires RaceCalls(ops, p, q, a) && Linearization(w, ops) && 0 < i < j < |w| && w[0] == p && w[i] == q && w[j] == a
    ensures Distinct(w[1..j]) && forall b :: b in w[1..j] ==> b in ops && b != p && b != a
    ensures forall b :: b in w[j + 1..] ==> IsKeep(b)
  {
    forall b | b in w[1..j] ensures b in ops && b != p && b != a {
      var n :| 0 <= n < j - 1 && w[1..j][n] == b;
      assert b == w[n + 1] && b in w;
    }
    forall b | b in w[j + 1..] ensures IsKeep(b) {
      var n :| 0 <= n < |w| - j - 1 && w[j + 1..][n] == b;
      assert b == w[n + j + 1] && b in w;
    }
  }

  lemma RaceUnseen(w: seq<ToolInterval>, ops: set<ToolInterval>, o: ReadObservation, p: ToolInterval, q: ToolInterval, a: ToolInterval)
    requires Race(ops, o, p, q, a) && RaceCalls(ops, p, q, a) && Completes(w, ops, None, "QP") && w != [] && w[0] == p
    ensures !Explains(w, OneLine(o, "QP"))
  {
    RaceTame(ops, p, q, a);
    assert q in w && a in w;
    var i: nat :| i < |w| && w[i] == q;
    var j: nat :| j < |w| && w[j] == a;
    if i < j { EditBehind(w, ops, p, q, a, i, j); }
    forall k: nat | k <= |w| ensures !ShownAt(w, OneLine(o, "QP"), k) {
      if CanInsert(w, o, k) && k > 0 {
        assert k <= j;
        OnlyFirstActs(w, ops, p, q, a, i, j, k);
      }
      if CanInsert(w, o, k) { NotShownAt(w, o, "QP", k); }
    }
  }

  lemma OnlyFirstActs(w: seq<ToolInterval>, ops: set<ToolInterval>, p: ToolInterval, q: ToolInterval, a: ToolInterval,
                      i: nat, j: nat, k: nat)
    requires RaceCalls(ops, p, q, a) && Linearization(w, ops) && w != [] && w[0] == p && 0 < k <= j <= i < |w|
    requires w[i] == q && w[j] == a
    ensures Run(None, w[..k]) == Reached(Some("P"))
  {
    assert w[..k] == [p] + w[1..k];
    forall b | b in w[1..k] ensures IsKeep(b) {
      var n :| 0 <= n < k - 1 && w[1..k][n] == b;
      assert b == w[n + 1] && b in w;
    }
    KeepsRun(Some("P"), w[1..k]);
    ConsRun(None, p, w[1..k]);
  }

  lemma RaceLost(ops: set<ToolInterval>, o: ReadObservation, p: ToolInterval, q: ToolInterval, a: ToolInterval)
    requires Timed(ops, o) && Race(ops, o, p, q, a) && RaceCalls(ops, p, q, a)
    ensures Explained(ops, [OneLine(o, "QP")], "QP") && "QP" !in Survivors(ops, [OneLine(o, "QP")])
  {
    var s := ThroughEdit(ops, o, p, q, a);
    OutcomesMeaning("QP", ops, None);
    var w := WitnessExists(ops, None, "QP");
    RaceFirst(w, s, ops, p, q, a);
    RaceUnseen(w, ops, o, p, q, a);
    var t := ThroughWrite(ops, o, p, q, a);
    var r := ThroughBoth(ops, o, p, q, a);
    Lost(w, t, r, ops, OneLine(o, "QP"), "QP", "QQP");
  }

  lemma RaceFirst(w: seq<ToolInterval>, s: seq<ToolInterval>, ops: set<ToolInterval>, p: ToolInterval, q: ToolInterval, a: ToolInterval)
    requires RaceCalls(ops, p, q, a) && KeyLess(p, q) && IsWitness(w, ops, None, "QP")
    requires Completes(s, ops, None, "QP") && s != [] && s[0] == p
    ensures w != [] && w[0] == p
  {
    LinearizationLength(w, ops);
    LinearizationLength(s, ops);
    assert w[0] in w && LexLe(w, s);
    KeyLessTotal(p, q);
    CompletesCons(w, ops, None, "QP");
  }
}
