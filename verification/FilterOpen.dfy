/** Every read that the intervals leave open, and for which there are not too few orders,
    shows one of the families for which some calls lose a content. */
module FilterOpen {
  import opened Intervals
  import opened Observations
  import opened Confluence
  import opened FilterShape
  import opened FilterTools
  import opened FilterOverwritten
  import opened FilterForks
  import opened FilterErased
  import opened FilterEdits
  import opened FilterRaces
  import opened FilterFlaws

  /** Two distinct calls that overlap, the one with the smaller key first. */
  lemma Overlapping(ops: set<ToolInterval>) returns (a: ToolInterval, b: ToolInterval)
    requires UniqueIds(ops) && !Sequential(ops)
    ensures a in ops && b in ops && KeyLess(a, b) && Concurrent(a, b)
  {
    a, b :| a in ops && b in ops && a != b && Concurrent(a, b);
    KeyLessTotal(a, b);
    if KeyLess(b, a) { a, b := b, a; }
  }

  /** In a set without overlaps, the smaller key is over before the greater one starts. */
  lemma SequentialByKey(ops: set<ToolInterval>, a: ToolInterval, b: ToolInterval)
    requires UniqueIds(ops) && WellTimed(ops) && Sequential(ops) && a in ops && b in ops && KeyLess(a, b)
    ensures MustPrecede(a, b)
  {
    KeyLessTotal(a, b);
    assert !Concurrent(a, b);
  }

  /** The calls that are not over. */
  function Open(ops: set<ToolInterval>, o: ReadObservation): set<ToolInterval> {
    set b | b in ops && !IsOver(b, o)
  }

  /** There are more than two orders, and more than three calls or one is later or two are over. */
  ghost predicate Enough(ops: set<ToolInterval>, o: ReadObservation) {
    !OnePairOverlaps(ops) && !OnlyThree(ops, o)
  }

  // ---------------------------------------------------------------- a later call of smaller key

  lemma OutOfOrder(ops: set<ToolInterval>, o: ReadObservation, x: ToolInterval, a: ToolInterval) returns (flaw: Flaw)
    requires Timed(ops, o) && Enough(ops, o) && x in During(ops, o) && a in After(ops, o) && KeyLess(a, x)
    ensures HasFlaw(ops, o, flaw)
  {
    var early := Before(ops, o) + During(ops, o);
    if early == {x} {
      flaw := OnlyOneEarly(ops, o, x, a);
    } else {
      assert early - {x} != {};
      var y := KeyMin(early - {x});
      if Ready(y, ops) {
        flaw := InversionFlaw(ops, o, y, a, x);
      } else {
        BehindOne(ops, o, x, y);
        KeyLessTransitive(a, x, y);
        flaw := InversionFlaw(ops, o, x, a, y);
      }
    }
  }

  lemma BehindOne(ops: set<ToolInterval>, o: ReadObservation, x: ToolInterval, y: ToolInterval)
    requires Timed(ops, o) && x in During(ops, o) && !Ready(y, ops)
    requires y in Before(ops, o) + During(ops, o) && y != x
    requires forall b :: b in Before(ops, o) + During(ops, o) && b != x && b != y ==> KeyLess(y, b)
    ensures Ready(x, ops) && MustPrecede(x, y) && KeyLess(x, y)
  {
    var b :| b in ops && MustPrecede(b, y);
    assert b in Before(ops, o) + During(ops, o);
    assert b == x;
    forall c | c in ops ensures !MustPrecede(c, x) {
      assert c in After(ops, o) || c in Before(ops, o) + During(ops, o);
    }
  }

  lemma OnlyOneEarly(ops: set<ToolInterval>, o: ReadObservation, x: ToolInterval, a: ToolInterval) returns (flaw: Flaw)
    requires Timed(ops, o) && Enough(ops, o) && Before(ops, o) + During(ops, o) == {x}
    requires x in During(ops, o) && a in After(ops, o) && KeyLess(a, x)
    ensures HasFlaw(ops, o, flaw)
  {
    var e := KeyMin(ops);
    FirstIsLater(ops, o, x, a, e);
    var c, d := AnotherPair(ops, x, e);
    var g := if c != x && c != e then c else d;
    var w := if g == c then d else c;
    assert KeyFirst(ops, e);
    flaw := Alone(x, e, g, w);
  }

  lemma FirstIsLater(ops: set<ToolInterval>, o: ReadObservation, x: ToolInterval, a: ToolInterval, e: ToolInterval)
    requires Before(ops, o) + During(ops, o) == {x} && a in After(ops, o) && KeyLess(a, x) && e in ops
    requires forall b :: b in ops && b != e ==> KeyLess(e, b)
    ensures e != x && AllLater(ops, o, x)
  {
    KeyLessTotal(a, x);
    forall b | b in ops && b != x ensures IsLater(b, o) { assert b !in Before(ops, o) + During(ops, o); }
  }

  // ---------------------------------------------------------------- calls that are over overlap

  lemma FirstOfOver(ops: set<ToolInterval>, o: ReadObservation) returns (f: ToolInterval)
    requires Timed(ops, o) && Before(ops, o) != {}
    ensures f in Before(ops, o) && Ready(f, ops) && forall b :: b in Before(ops, o) && b != f ==> KeyLess(f, b)
  {
    f := KeyMin(Before(ops, o));
    forall c | c in ops ensures !MustPrecede(c, f) {
      assert c in Before(ops, o) || !(c.end < o.start);
    }
  }

  /** If nothing else that is over can be first, all of it comes after `f`. */
  lemma AllBehind(ops: set<ToolInterval>, o: ReadObservation, f: ToolInterval)
    requires Timed(ops, o) && f in Before(ops, o)
    requires forall b :: b in Before(ops, o) && b != f ==> !Ready(b, ops)
    ensures FirstOver(ops, o, f)
  {
    var loose := set b | b in Before(ops, o) && b != f && !MustPrecede(f, b);
    if loose != {} {
      var d := KeyMin(loose);
      BehindAsWell(ops, o, f, d, loose);
      assert false;
    }
    forall b | b in Before(ops, o) && b != f ensures MustPrecede(f, b) { assert b !in loose; }
    assert forall b :: b in ops && IsOver(b, o) ==> b in Before(ops, o);
  }

  lemma BehindAsWell(ops: set<ToolInterval>, o: ReadObservation, f: ToolInterval, d: ToolInterval, loose: set<ToolInterval>)
    requires Timed(ops, o) && f in Before(ops, o) && d in loose && !Ready(d, ops)
    requires loose == set b | b in Before(ops, o) && b != f && !MustPrecede(f, b)
    ensures exists b :: b in loose && b != d && !KeyLess(d, b)
  {
    var b :| b in ops && MustPrecede(b, d);
    assert b in loose;
    KeyLessTotal(b, d);
  }

  /** `f` is the first of the calls that are over, and `u` and `v` are two of them whose order
      is open. */
  ghost predicate OpenPair(ops: set<ToolInterval>, o: ReadObservation, f: ToolInterval, u: ToolInterval, v: ToolInterval) {
    && f in ops && u in ops && v in ops && KeyLess(u, v) && Concurrent(u, v) && f != v
    && IsOver(f, o) && IsOver(u, o) && IsOver(v, o) && Ready(f, ops)
    && (if f == u then Ready(v, ops) else FirstOver(ops, o, f))
    && forall b :: b in ops && IsOver(b, o) && b != f ==> KeyLess(f, b)
  }

  lemma PairOver(ops: set<ToolInterval>, o: ReadObservation) returns (f: ToolInterval, u: ToolInterval, v: ToolInterval)
    requires Timed(ops, o) && !Sequential(Before(ops, o))
    ensures OpenPair(ops, o, f, u, v)
  {
    var over := Before(ops, o);
    u, v := Overlapping(over);
    f := FirstOfOver(ops, o);
    assert forall b :: b in ops && IsOver(b, o) ==> b in over;
    if other :| other in over && other != f && Ready(other, ops) {
      u, v := f, other;
    } else {
      AllBehind(ops, o, f);
      KeyLessTotal(u, v);
    }
  }

  lemma OverlapOver(ops: set<ToolInterval>, o: ReadObservation) returns (flaw: Flaw)
    requires Timed(ops, o) && Enough(ops, o) && !Sequential(Before(ops, o)) && During(ops, o) + After(ops, o) != {}
    ensures HasFlaw(ops, o, flaw)
  {
    var f, u, v := PairOver(ops, o);
    if !Sequential(Open(ops, o)) {
      var h, g := Overlapping(Open(ops, o));
      KeyLessTotal(h, g);
      flaw := Tailed(f, u, v, g, g, h, h);
    } else if g, b :| g in Open(ops, o) && b in Before(ops, o) && Concurrent(g, b) {
      flaw := TailAcross(ops, o, f, u, v, g, b);
    } else {
      SomeOpen(ops, o);
      flaw := OverApart(ops, o, f);
    }
  }

  lemma SomeOpen(ops: set<ToolInterval>, o: ReadObservation)
    requires During(ops, o) + After(ops, o) != {} && o.start <= o.end && WellTimed(ops)
    ensures Open(ops, o) != {}
  {
    var b :| b in During(ops, o) + After(ops, o);
    assert b in Open(ops, o);
  }

  /** A call that is not over overlaps one that is, so it overlaps the last of these. */
  lemma LastOverlaps(ops: set<ToolInterval>, o: ReadObservation, g: ToolInterval, b: ToolInterval) returns (l: ToolInterval)
    requires Timed(ops, o) && g in Open(ops, o) && b in Before(ops, o) && Concurrent(g, b)
    ensures l in Before(ops, o) && Concurrent(g, l) && GreatestOver(ops, o, l)
  {
    l := KeyMax(Before(ops, o));
    assert b == l || KeyLess(b, l);
    assert forall c :: c in ops && IsOver(c, o) ==> c in Before(ops, o);
  }

  lemma TailAcross(ops: set<ToolInterval>, o: ReadObservation, f: ToolInterval, u: ToolInterval, v: ToolInterval,
                   g: ToolInterval, b: ToolInterval) returns (flaw: Flaw)
    requires Timed(ops, o) && OpenPair(ops, o, f, u, v) && g in Open(ops, o) && b in Before(ops, o) && Concurrent(g, b)
    ensures HasFlaw(ops, o, flaw)
  {
    var l := LastOverlaps(ops, o, g, b);
    if v == l {
      flaw := Tailed(f, u, v, g, g, g, v);
    } else {
      KeyLessTotal(u, v);
      KeyLessTotal(v, l);
      KeyLessTotal(f, v);
      flaw := Tailed(f, u, v, l, g, g, l);
    }
  }

  // ---------------------------------------------------------------- all that is over comes before the rest

  /** What is over comes before all the rest, and the rest does not overlap; `z` is its first. */
  ghost predicate SplitBy(ops: set<ToolInterval>, o: ReadObservation, z: ToolInterval) {
    && z in ops && !IsOver(z, o)
    && (forall b :: b in ops && IsOver(b, o) ==> MustPrecede(b, z))
    && forall c, d :: Overlap(ops, c, d) ==> IsOver(c, o) && IsOver(d, o)
  }

  /** No call that is over overlaps one that is not. */
  ghost predicate NoneAcross(ops: set<ToolInterval>, o: ReadObservation) {
    forall g, b :: g in Open(ops, o) && b in Before(ops, o) ==> !Concurrent(g, b)
  }

  lemma SplitHere(ops: set<ToolInterval>, o: ReadObservation) returns (z: ToolInterval)
    requires Timed(ops, o) && Sequential(Open(ops, o)) && Open(ops, o) != {}
    requires NoneAcross(ops, o)
    ensures SplitBy(ops, o, z)
  {
    z :| z in Open(ops, o);
    forall b | b in ops && IsOver(b, o) ensures MustPrecede(b, z) {
      assert b in Before(ops, o) && !Concurrent(z, b);
    }
    forall c, d | Overlap(ops, c, d) ensures IsOver(c, o) && IsOver(d, o) {
      if !IsOver(c, o) { NotAcross(ops, o, c, d); }
      if !IsOver(d, o) { NotAcross(ops, o, d, c); }
    }
  }

  lemma NotAcross(ops: set<ToolInterval>, o: ReadObservation, g: ToolInterval, b: ToolInterval)
    requires Sequential(Open(ops, o)) && g in ops && !IsOver(g, o) && b in ops && g != b
    requires NoneAcross(ops, o)
    ensures !Concurrent(g, b)
  {
    assert g in Open(ops, o);
    assert (b in Open(ops, o) || b in Before(ops, o));
  }

  lemma OverApart(ops: set<ToolInterval>, o: ReadObservation, f: ToolInterval) returns (flaw: Flaw)
    requires Timed(ops, o) && Enough(ops, o) && f in ops && IsOver(f, o) && Ready(f, ops) && Open(ops, o) != {}
    requires Sequential(Open(ops, o)) && NoneAcross(ops, o)
    ensures HasFlaw(ops, o, flaw)
  {
    var z := SplitHere(ops, o);
    var beside := set b | b in ops && b != f && Concurrent(f, b);
    if beside != {} {
      var y := KeyMin(beside);
      flaw := FirstOverlaps(ops, o, f, y, z);
    } else {
      assert forall b :: b in ops && b != f && Concurrent(f, b) ==> b in beside;
      flaw := FirstApart(ops, o, f, z);
    }
  }

  /** `f` and `y` can both be first, and overlap. */
  lemma FirstOverlaps(ops: set<ToolInterval>, o: ReadObservation, f: ToolInterval, y: ToolInterval, z: ToolInterval) returns (flaw: Flaw)
    requires Timed(ops, o) && Enough(ops, o) && SplitBy(ops, o, z) && f in ops && IsOver(f, o) && Ready(f, ops)
    requires Overlap(ops, f, y) && forall b :: b in ops && b != f && b != y && Concurrent(f, b) ==> KeyLess(y, b)
    ensures HasFlaw(ops, o, flaw)
  {
    BesideReady(ops, f, y);
    if w :| Overlap(ops, f, w) && w != y {
      flaw := Erased(Cast(y, y, f, w, w, z));
      assert Overlap(ops, f, w) && Overlap(ops, f, y);
    } else if w :| Overlap(ops, y, w) && w != f {
      flaw := Erased(Cast(f, f, y, w, w, z));
      assert Overlap(ops, y, w) && Overlap(ops, f, y);
    } else {
      var c, d := AnotherPair(ops, f, y);
      NotBeside(ops, f, y, c, d);
      BothBehind(ops, f, y, c);
      BothBehind(ops, f, y, d);
      flaw := ErasedTwice(Cast(f, f, y, c, d, z));
    }
  }

  lemma BesideReady(ops: set<ToolInterval>, f: ToolInterval, y: ToolInterval)
    requires UniqueIds(ops) && WellTimed(ops) && Ready(f, ops) && Overlap(ops, f, y)
    requires forall b :: b in ops && b != f && b != y && Concurrent(f, b) ==> KeyLess(y, b)
    ensures Ready(y, ops)
  {
    forall e | e in ops ensures !MustPrecede(e, y) {
      if MustPrecede(e, y) {
        AlsoOverlaps(ops, f, y, e);
        Related(ops, e, y);
      }
    }
  }

  lemma NotBeside(ops: set<ToolInterval>, f: ToolInterval, y: ToolInterval, c: ToolInterval, d: ToolInterval)
    requires (forall w :: Overlap(ops, f, w) ==> w == y) && (forall w :: Overlap(ops, y, w) ==> w == f)
    requires Overlap(ops, c, d) && !SamePair(c, d, f, y)
    ensures c != f && c != y && d != f && d != y && !Overlap(ops, f, c) && !Overlap(ops, f, d)
    ensures !Overlap(ops, y, c) && !Overlap(ops, y, d)
  {
    assert Overlap(ops, d, c);
  }

  lemma BothBehind(ops: set<ToolInterval>, f: ToolInterval, y: ToolInterval, c: ToolInterval)
    requires UniqueIds(ops) && WellTimed(ops) && Ready(f, ops) && Ready(y, ops) && f in ops && y in ops && c in ops
    requires c != f && c != y && !Overlap(ops, f, c) && !Overlap(ops, y, c)
    ensures MustPrecede(f, c) && MustPrecede(y, c)
  {
    Related(ops, f, c);
    Related(ops, y, c);
  }

  // ---------------------------------------------------------------- nothing overlaps the first call

  ghost predicate Lone(ops: set<ToolInterval>, f: ToolInterval) {
    f in ops && Ready(f, ops) && forall b :: b in ops && b != f ==> MustPrecede(f, b)
  }

  lemma FirstApart(ops: set<ToolInterval>, o: ReadObservation, f: ToolInterval, z: ToolInterval) returns (flaw: Flaw)
    requires Timed(ops, o) && Enough(ops, o) && SplitBy(ops, o, z) && f in ops && IsOver(f, o) && Ready(f, ops)
    requires forall b :: b in ops && b != f ==> !Concurrent(f, b)
    ensures HasFlaw(ops, o, flaw)
  {
    assert Lone(ops, f);
    if u, v, w :| Overlap(ops, v, u) && Overlap(ops, v, w) && u != w {
      flaw := ThreeInARow(ops, o, f, z, u, v, w);
    } else {
      flaw := TwoPairs(ops, o, f, z);
    }
  }

  lemma ThreeInARow(ops: set<ToolInterval>, o: ReadObservation, f: ToolInterval, z: ToolInterval,
                    u: ToolInterval, v: ToolInterval, w: ToolInterval) returns (flaw: Flaw)
    requires Timed(ops, o) && SplitBy(ops, o, z) && Lone(ops, f) && IsOver(f, o)
    requires Overlap(ops, v, u) && Overlap(ops, v, w) && u != w
    ensures HasFlaw(ops, o, flaw)
  {
    Related(ops, u, w);
    Related(ops, w, u);
    if MustPrecede(w, u) {
      flaw := Erased(Cast(f, w, v, u, u, z));
    } else {
      flaw := Erased(Cast(f, u, v, w, w, z));
    }
  }

  /** No call overlaps two others. */
  ghost predicate OnlyPairs(ops: set<ToolInterval>) {
    forall u, v, w :: Overlap(ops, v, u) && Overlap(ops, v, w) ==> u == w
  }

  lemma TwoPairs(ops: set<ToolInterval>, o: ReadObservation, f: ToolInterval, z: ToolInterval) returns (flaw: Flaw)
    requires Timed(ops, o) && Enough(ops, o) && SplitBy(ops, o, z) && Lone(ops, f) && IsOver(f, o) && OnlyPairs(ops)
    ensures HasFlaw(ops, o, flaw)
  {
    var a, b := AnotherPair(ops, f, f);
    var c, d := AnotherPair(ops, a, b);
    DifferentPairs(ops, a, b, c, d);
    if MustPrecede(a, c) {
      PairBehind(ops, a, b, c, d);
      flaw := ErasedTwice(Cast(f, a, b, c, d, z));
    } else {
      PairBehind(ops, c, d, a, b);
      flaw := ErasedTwice(Cast(f, c, d, a, b, z));
    }
  }

  lemma DifferentPairs(ops: set<ToolInterval>, a: ToolInterval, b: ToolInterval, c: ToolInterval, d: ToolInterval)
    requires UniqueIds(ops) && WellTimed(ops) && OnlyPairs(ops) && Overlap(ops, a, b) && Overlap(ops, c, d) && !SamePair(c, d, a, b)
    ensures a != c && a != d && b != c && b != d && (MustPrecede(a, c) || MustPrecede(c, a))
  {
    assert Overlap(ops, b, a) && Overlap(ops, d, c);
    Related(ops, a, c);
    assert a != c ==> !Overlap(ops, a, c);
  }

  lemma PairBehind(ops: set<ToolInterval>, a: ToolInterval, b: ToolInterval, c: ToolInterval, d: ToolInterval)
    requires UniqueIds(ops) && WellTimed(ops) && OnlyPairs(ops) && Overlap(ops, a, b) && Overlap(ops, c, d)
    requires a != c && a != d && b != c && b != d && MustPrecede(a, c)
    ensures MustPrecede(a, d) && MustPrecede(b, c) && MustPrecede(b, d)
  {
    NotConcurrent(ops, a, b, d);
    NotConcurrent(ops, b, a, c);
    NotConcurrent(ops, b, a, d);
    if MustPrecede(d, a) { Between(ops, d, a, c); }
    if MustPrecede(c, b) { Between(ops, a, c, b); }
    if MustPrecede(d, b) { Between(ops, a, d, b); }
  }

  lemma NotConcurrent(ops: set<ToolInterval>, a: ToolInterval, b: ToolInterval, d: ToolInterval)
    requires UniqueIds(ops) && WellTimed(ops) && OnlyPairs(ops) && Overlap(ops, a, b) && d in ops && d != a && d != b
    ensures MustPrecede(a, d) || MustPrecede(d, a)
  {
    Related(ops, a, d);
    assert !Overlap(ops, a, d);
  }

  // ---------------------------------------------------------------- what is over does not overlap, but something is

  lemma SomeOver(ops: set<ToolInterval>, o: ReadObservation) returns (flaw: Flaw)
    requires Timed(ops, o) && Enough(ops, o) && Before(ops, o) != {} && Sequential(Before(ops, o))
    requires KeysInOrder(During(ops, o), After(ops, o)) && !Sequential(Before(ops, o) + During(ops, o))
    requires !LastOneRunning(ops, o) && !OneEach(ops, o)
    ensures HasFlaw(ops, o, flaw)
  {
    var f := FirstOfOver(ops, o);
    if !Sequential(During(ops, o)) {
      var s, t := Overlapping(During(ops, o));
      flaw := InversionFlaw(ops, o, f, s, t);
    } else {
      var l := KeyMax(Before(ops, o));
      var x := FirstRunning(ops, o, l);
      EndsOfSequence(ops, o, f, l);
      if f != l {
        AnotherOpen(ops, o, x);
        FirstOfOpen(ops, o, x);
        flaw := OverdueFlaw(ops, o, f, l, x);
      } else {
        flaw := OneOver(ops, o, f, x);
      }
    }
  }

  lemma EndsOfSequence(ops: set<ToolInterval>, o: ReadObservation, f: ToolInterval, l: ToolInterval)
    requires Timed(ops, o) && Sequential(Before(ops, o)) && f in Before(ops, o) && l in Before(ops, o)
    requires forall b :: b in Before(ops, o) && b != f ==> KeyLess(f, b)
    requires forall b :: b in Before(ops, o) && b != l ==> KeyLess(b, l)
    ensures FirstOver(ops, o, f) && LastOver(ops, o, l) && (f == l ==> Before(ops, o) == {f})
  {
    var over := Before(ops, o);
    assert forall b :: b in ops && IsOver(b, o) ==> b in over;
    forall b | b in over ensures (b != f ==> MustPrecede(f, b)) && (b != l ==> MustPrecede(b, l)) {
      if b != f { SequentialByKey(over, f, b); }
      if b != l { SequentialByKey(over, b, l); }
    }
    if f == l {
      forall b | b in over ensures b == f { KeyLessTotal(b, f); }
    }
  }

  /** The first of the running calls overlaps the last of those that are over. */
  lemma FirstRunning(ops: set<ToolInterval>, o: ReadObservation, l: ToolInterval) returns (x: ToolInterval)
    requires Timed(ops, o) && Sequential(Before(ops, o)) && Sequential(During(ops, o))
    requires !Sequential(Before(ops, o) + During(ops, o))
    requires l in Before(ops, o) && forall b :: b in Before(ops, o) && b != l ==> KeyLess(b, l)
    ensures x in During(ops, o) && Concurrent(l, x) && NeedsOver(ops, o, x)
    ensures forall b :: b in During(ops, o) && b != x ==> KeyLess(x, b) && MustPrecede(x, b)
  {
    var over, running := Before(ops, o), During(ops, o);
    var c, y := Overlapping(over + running);
    assert c in over && y in running by { KeyLessTotal(c, y); }
    x := KeyMin(running);
    forall b | b in running && b != x ensures MustPrecede(x, b) { SequentialByKey(running, x, b); }
    assert c == l || KeyLess(c, l);
    assert y == x || MustPrecede(x, y);
    forall b | b in ops && MustPrecede(b, x) ensures IsOver(b, o) { assert b !in After(ops, o) && b !in running; }
  }

  /** Something besides `x` is not over. */
  lemma AnotherOpen(ops: set<ToolInterval>, o: ReadObservation, x: ToolInterval)
    requires Timed(ops, o) && x in During(ops, o) && Sequential(Before(ops, o)) && !LastOneRunning(ops, o)
    ensures Open(ops, o) - {x} != {}
  {
    if After(ops, o) != {} {
      var b :| b in After(ops, o);
      assert b in Open(ops, o) - {x};
    } else {
      assert During(ops, o) != {x};
      assert During(ops, o) - {x} != {};
      var b :| b in During(ops, o) - {x};
      assert b in Open(ops, o) - {x};
    }
  }

  /** `f` and `l` are the first and the last of the calls that are over, and `x` is the first
      of all others, and runs; it overlaps `l`. */
  ghost predicate Overdue(ops: set<ToolInterval>, o: ReadObservation, f: ToolInterval, l: ToolInterval, x: ToolInterval) {
    && f in ops && l in ops && x in ops && f != l && IsOver(f, o) && IsOver(l, o) && !IsOver(x, o) && !IsLater(x, o)
    && FirstOver(ops, o, f) && LastOver(ops, o, l) && NeedsOver(ops, o, x) && Concurrent(l, x)
    && forall b :: b in ops && !IsOver(b, o) && b != x ==> KeyLess(x, b)
  }

  lemma FirstOfOpen(ops: set<ToolInterval>, o: ReadObservation, x: ToolInterval)
    requires KeysInOrder(During(ops, o), After(ops, o)) && x in During(ops, o)
    requires forall b :: b in During(ops, o) && b != x ==> KeyLess(x, b)
    ensures forall b :: b in ops && !IsOver(b, o) && b != x ==> KeyLess(x, b)
  {
    forall b | b in ops && !IsOver(b, o) && b != x ensures KeyLess(x, b) {
      assert b in During(ops, o) || b in After(ops, o);
    }
  }

  lemma OverdueFlaw(ops: set<ToolInterval>, o: ReadObservation, f: ToolInterval, l: ToolInterval, x: ToolInterval) returns (flaw: Flaw)
    requires Timed(ops, o) && Enough(ops, o) && Sequential(Before(ops, o)) && Overdue(ops, o, f, l, x) && Open(ops, o) - {x} != {}
    ensures HasFlaw(ops, o, flaw)
  {
    var rest := Open(ops, o) - {x};
    if !Sequential(rest) {
      flaw := OverduePair(ops, o, f, l, x);
    } else {
      flaw := OverdueSequential(ops, o, f, l, x, rest);
    }
  }

  lemma OverdueSequential(ops: set<ToolInterval>, o: ReadObservation, f: ToolInterval, l: ToolInterval, x: ToolInterval,
                          rest: set<ToolInterval>) returns (flaw: Flaw)
    requires Timed(ops, o) && Enough(ops, o) && Sequential(Before(ops, o)) && Overdue(ops, o, f, l, x)
    requires rest == Open(ops, o) - {x} && rest != {} && Sequential(rest)
    ensures HasFlaw(ops, o, flaw)
  {
    if g, w :| g in rest && w in ops - rest && Concurrent(g, w) {
      flaw := OverdueAcross(ops, o, f, l, x, g, w);
    } else {
      var z :| z in rest;
      flaw := OverdueApart(ops, o, f, l, x, z, rest);
    }
  }

  lemma OverduePair(ops: set<ToolInterval>, o: ReadObservation, f: ToolInterval, l: ToolInterval, x: ToolInterval) returns (flaw: Flaw)
    requires Timed(ops, o) && Overdue(ops, o, f, l, x) && !Sequential(Open(ops, o) - {x})
    ensures HasFlaw(ops, o, flaw)
  {
    var h, g := Overlapping(Open(ops, o) - {x});
    KeyLessTotal(h, g);
    flaw := Delayed(f, l, x, g, h, h);
  }

  lemma OverdueAcross(ops: set<ToolInterval>, o: ReadObservation, f: ToolInterval, l: ToolInterval, x: ToolInterval,
                      g: ToolInterval, w: ToolInterval) returns (flaw: Flaw)
    requires Timed(ops, o) && Overdue(ops, o, f, l, x) && g in Open(ops, o) - {x} && w in ops && Concurrent(g, w)
    requires w == x || IsOver(w, o)
    ensures HasFlaw(ops, o, flaw)
  {
    if w == x {
      flaw := Delayed(f, l, x, g, g, x);
    } else {
      Related(ops, g, l);
      assert w == l || MustPrecede(w, l);
      flaw := Delayed(f, l, x, g, g, l);
    }
  }

  lemma OverdueApart(ops: set<ToolInterval>, o: ReadObservation, f: ToolInterval, l: ToolInterval, x: ToolInterval,
                     z: ToolInterval, rest: set<ToolInterval>) returns (flaw: Flaw)
    requires Timed(ops, o) && Enough(ops, o) && Sequential(Before(ops, o)) && Overdue(ops, o, f, l, x)
    requires rest == Open(ops, o) - {x} && z in rest && Sequential(rest)
    requires forall g, w :: g in rest && w in ops - rest ==> !Concurrent(g, w)
    ensures HasFlaw(ops, o, flaw)
  {
    var u := OverduePartner(ops, o, l, x, rest);
    BeforeRest(ops, o, rest, z, x);
    OverdueStart(ops, o, f, l, x, u);
    assert f in ops - rest && u in ops - rest && l in ops - rest && x in ops - rest;
    flaw := Erased(Cast(f, u, x, l, l, z));
  }

  /** What is over and overlaps `x`, besides `l`. */
  lemma OverduePartner(ops: set<ToolInterval>, o: ReadObservation, l: ToolInterval, x: ToolInterval, rest: set<ToolInterval>)
    returns (u: ToolInterval)
    requires Timed(ops, o) && Enough(ops, o) && Sequential(Before(ops, o)) && rest == Open(ops, o) - {x} && Sequential(rest)
    requires forall g, w :: g in rest && w in ops - rest ==> !Concurrent(g, w)
    ensures u in Before(ops, o) && Overlap(ops, u, x) && u != l
  {
    var c, d := AnotherPair(ops, l, x);
    NotInRest(ops, rest, c, d);
    NotInRest(ops, rest, d, c);
    assert c in Before(ops, o) + {x} && d in Before(ops, o) + {x};
    u := if c == x then d else c;
  }

  lemma NotInRest(ops: set<ToolInterval>, rest: set<ToolInterval>, c: ToolInterval, d: ToolInterval)
    requires Sequential(rest) && rest <= ops && Overlap(ops, c, d)
    requires forall g, w :: g in rest && w in ops - rest ==> !Concurrent(g, w)
    ensures c !in rest
  {
    assert d in rest || d in ops - rest;
  }

  lemma BeforeRest(ops: set<ToolInterval>, o: ReadObservation, rest: set<ToolInterval>, z: ToolInterval, x: ToolInterval)
    requires Timed(ops, o) && rest == Open(ops, o) - {x} && z in rest && x in ops && !IsOver(x, o) && KeyLess(x, z)
    requires forall g, w :: g in rest && w in ops - rest ==> !Concurrent(g, w)
    ensures forall w :: w in ops - rest ==> MustPrecede(w, z)
  {
    forall w | w in ops - rest ensures MustPrecede(w, z) {
      assert !Concurrent(z, w);
      Related(ops, w, z);
    }
  }

  /** Where the order may start: at `u` or `x` if `u` is `f`, which otherwise precedes `u`. */
  lemma OverdueStart(ops: set<ToolInterval>, o: ReadObservation, f: ToolInterval, l: ToolInterval, x: ToolInterval, u: ToolInterval)
    requires Timed(ops, o) && Overdue(ops, o, f, l, x) && u in Before(ops, o) && Concurrent(u, x) && u != l
    ensures Ready(f, ops) && (if f == u then Ready(x, ops) else MustPrecede(f, u)) && !MustPrecede(l, u)
  {
    Related(ops, u, l);
    if f == u {
      forall e | e in ops ensures !MustPrecede(e, x) {
        if MustPrecede(e, x) && e != f { Between(ops, f, e, x); }
      }
    }
  }

  // ---------------------------------------------------------------- two calls that can be first, and a third

  lemma OneOver(ops: set<ToolInterval>, o: ReadObservation, f: ToolInterval, x: ToolInterval) returns (flaw: Flaw)
    requires Timed(ops, o) && Enough(ops, o) && KeysInOrder(During(ops, o), After(ops, o)) && !OneEach(ops, o)
    requires Before(ops, o) == {f} && x in During(ops, o) && Concurrent(f, x) && Ready(f, ops) && NeedsOver(ops, o, x)
    requires forall b :: b in During(ops, o) && b != x ==> KeyLess(x, b) && MustPrecede(x, b)
    ensures HasFlaw(ops, o, flaw)
  {
    assert f in Before(ops, o);
    assert During(ops, o) != {x};
    assert During(ops, o) - {x} != {};
    var y := KeyMin(During(ops, o) - {x});
    OneOverReady(ops, o, f, x);
    Related(ops, f, x);
    Related(ops, f, y);
    flaw := ForkOf(ops, o, f, x, y);
  }

  lemma OneOverReady(ops: set<ToolInterval>, o: ReadObservation, f: ToolInterval, x: ToolInterval)
    requires Before(ops, o) == {f} && x in ops && Concurrent(f, x) && NeedsOver(ops, o, x)
    ensures Ready(x, ops)
  {
    forall e | e in ops ensures !MustPrecede(e, x) {
      assert IsOver(e, o) ==> e in Before(ops, o);
    }
  }

  /** `p` and `q` can both be first, `y` comes next; all others are neither over nor needed. */
  ghost predicate Forking(ops: set<ToolInterval>, o: ReadObservation, p: ToolInterval, q: ToolInterval, y: ToolInterval) {
    && p in ops && q in ops && y in ops
    && Ready(p, ops) && Ready(q, ops) && KeyLess(p, q) && MustPrecede(p, y) && MustPrecede(q, y)
    && !IsLater(p, o) && !IsLater(q, o) && !IsLater(y, o) && !IsOver(q, o) && !IsOver(y, o)
    && forall b :: b in ops && b != p && b != q && b != y ==> KeyLess(y, b) && !IsOver(b, o)
  }

  /** Two calls that can be first, `y` next, and not just these three. */
  lemma ForkOf(ops: set<ToolInterval>, o: ReadObservation, p: ToolInterval, q: ToolInterval, y: ToolInterval) returns (flaw: Flaw)
    requires Timed(ops, o) && Enough(ops, o) && KeysInOrder(During(ops, o), After(ops, o))
    requires Ready(p, ops) && Ready(q, ops) && KeyLess(p, q) && MustPrecede(p, y) && MustPrecede(q, y) && p in ops
    requires q in During(ops, o) && y in During(ops, o) && p !in After(ops, o) && Before(ops, o) <= {p}
    requires forall b :: b in During(ops, o) && b != p && b != q && b != y ==> KeyLess(y, b)
    ensures HasFlaw(ops, o, flaw)
  {
    IsForking(ops, o, p, q, y);
    NotOnlyThree(ops, o, p, q, y);
    var rest := ops - {p, q, y};
    if g, w :| g in rest && w in {p, q, y} && Concurrent(g, w) {
      KeyLessTotal(p, q);
      ForkBehind(ops, o, p, q, y);
      flaw := Forked(p, q, y, g, g, w);
    } else {
      var c, d := AnotherPair(ops, p, q);
      PairInRest(ops, o, p, q, y, c, d);
      ForkBehind(ops, o, p, q, y);
      flaw := Forked(p, q, y, d, c, c);
    }
  }

  lemma ForkBehind(ops: set<ToolInterval>, o: ReadObservation, p: ToolInterval, q: ToolInterval, y: ToolInterval)
    requires Timed(ops, o) && Forking(ops, o, p, q, y)
    ensures FilterForks.OnlyBehind(ops, o, p, q, y)
  {
    forall b | b in ops && b != p && b != q ensures !IsOver(b, o) && !MustPrecede(b, y) {
      if b != y { Related(ops, y, b); }
    }
  }

  lemma IsForking(ops: set<ToolInterval>, o: ReadObservation, p: ToolInterval, q: ToolInterval, y: ToolInterval)
    requires Timed(ops, o) && KeysInOrder(During(ops, o), After(ops, o))
    requires Ready(p, ops) && Ready(q, ops) && KeyLess(p, q) && MustPrecede(p, y) && MustPrecede(q, y) && p in ops
    requires q in During(ops, o) && y in During(ops, o) && p !in After(ops, o) && Before(ops, o) <= {p}
    requires forall b :: b in During(ops, o) && b != p && b != q && b != y ==> KeyLess(y, b)
    ensures Forking(ops, o, p, q, y)
  {
    forall b | b in ops && b != p && b != q && b != y ensures KeyLess(y, b) && !IsOver(b, o) {
      assert b !in Before(ops, o);
      assert b in During(ops, o) || b in After(ops, o);
    }
  }

  lemma NotOnlyThree(ops: set<ToolInterval>, o: ReadObservation, p: ToolInterval, q: ToolInterval, y: ToolInterval)
    requires Timed(ops, o) && Forking(ops, o, p, q, y) && !OnlyThree(ops, o) && Before(ops, o) <= {p}
    ensures ops != {p, q, y}
  {
    KeyLessTotal(p, q);
    ThreeSize(p, q, y);
    if ops == {p, q, y} {
      assert After(ops, o) == {};
      SubsetOfOne(Before(ops, o), p);
    }
  }

  lemma PairInRest(ops: set<ToolInterval>, o: ReadObservation, p: ToolInterval, q: ToolInterval, y: ToolInterval,
                   c: ToolInterval, d: ToolInterval)
    requires Timed(ops, o) && Forking(ops, o, p, q, y) && Overlap(ops, c, d) && !SamePair(c, d, p, q)
    requires forall g, w :: g in ops - {p, q, y} && w in {p, q, y} ==> !Concurrent(g, w)
    ensures c != p && c != q && c != y && d != p && d != q && d != y
  {
    assert d in ops - {p, q, y} && c in {p, q, y} ==> !Concurrent(d, c);
    assert c in ops - {p, q, y} && d in {p, q, y} ==> !Concurrent(c, d);
  }

  // ---------------------------------------------------------------- no call is over

  lemma NothingOver(ops: set<ToolInterval>, o: ReadObservation) returns (flaw: Flaw)
    requires Timed(ops, o) && Enough(ops, o) && Before(ops, o) == {} && !Sequential(During(ops, o))
    requires KeysInOrder(During(ops, o), After(ops, o)) && !JustTwoRunning(ops, o)
    ensures HasFlaw(ops, o, flaw)
  {
    var running := During(ops, o);
    var p := KeyMin(running);
    ReadyRunning(ops, o, p, p);
    if !Sequential(running - {p}) {
      var s, t := Overlapping(running - {p});
      flaw := InversionFlaw(ops, o, p, s, t);
    } else {
      var q := SecondRunning(ops, o, p);
      ReadyRunning(ops, o, p, q);
      if !Sequential(running - {q}) {
        var s, t := Overlapping(running - {q});
        flaw := InversionFlaw(ops, o, q, s, t);
      } else {
        flaw := TwoFirstRunning(ops, o, p, q);
      }
    }
  }

  lemma ReadyRunning(ops: set<ToolInterval>, o: ReadObservation, p: ToolInterval, q: ToolInterval)
    requires Timed(ops, o) && Before(ops, o) == {} && q in During(ops, o) && !MustPrecede(p, q)
    requires forall b :: b in During(ops, o) && b != p && b != q ==> KeyLess(q, b)
    ensures Ready(q, ops)
  {
    forall c | c in ops ensures !MustPrecede(c, q) {
      assert c in During(ops, o) || c in After(ops, o) || c in Before(ops, o);
    }
  }

  lemma SecondRunning(ops: set<ToolInterval>, o: ReadObservation, p: ToolInterval) returns (q: ToolInterval)
    requires Timed(ops, o) && !Sequential(During(ops, o)) && p in During(ops, o)
    requires Sequential(During(ops, o) - {p}) && forall b :: b in During(ops, o) && b != p ==> KeyLess(p, b)
    ensures q in During(ops, o) && q != p && KeyLess(p, q) && !MustPrecede(p, q)
    ensures forall b :: b in During(ops, o) && b != p && b != q ==> KeyLess(q, b)
  {
    var others := During(ops, o) - {p};
    var c, d := Overlapping(During(ops, o));
    KeyLessTotal(c, d);
    KeyLessTotal(p, c);
    assert c in others && d in others ==> !Concurrent(c, d);
    assert c == p && d in others;
    q := KeyMin(others);
    if q != d { SequentialByKey(others, q, d); }
  }

  lemma TwoFirstRunning(ops: set<ToolInterval>, o: ReadObservation, p: ToolInterval, q: ToolInterval) returns (flaw: Flaw)
    requires Timed(ops, o) && Enough(ops, o) && Before(ops, o) == {} && KeysInOrder(During(ops, o), After(ops, o))
    requires !JustTwoRunning(ops, o)
    requires p in During(ops, o) && q in During(ops, o) && KeyLess(p, q) && Ready(p, ops) && Ready(q, ops)
    requires forall b :: b in During(ops, o) && b != p && b != q ==> KeyLess(q, b)
    requires Sequential(During(ops, o) - {p}) && Sequential(During(ops, o) - {q})
    ensures HasFlaw(ops, o, flaw)
  {
    var running := During(ops, o);
    KeyLessTotal(p, q);
    if running == {p, q} {
      var a := EarlyLater(ops, o, p, q);
      flaw := Raced(p, q, a);
    } else {
      var y := ThirdRunning(ops, o, p, q);
      flaw := ForkOf(ops, o, p, q, y);
    }
  }

  lemma ThirdRunning(ops: set<ToolInterval>, o: ReadObservation, p: ToolInterval, q: ToolInterval) returns (y: ToolInterval)
    requires Timed(ops, o) && p in During(ops, o) && q in During(ops, o) && KeyLess(p, q) && During(ops, o) != {p, q}
    requires forall b :: b in During(ops, o) && b != p && b != q ==> KeyLess(q, b)
    requires Sequential(During(ops, o) - {p}) && Sequential(During(ops, o) - {q})
    ensures y in During(ops, o) && MustPrecede(p, y) && MustPrecede(q, y)
    ensures forall b :: b in During(ops, o) && b != p && b != q && b != y ==> KeyLess(y, b)
  {
    var running := During(ops, o);
    assert running - {p, q} != {};
    y := KeyMin(running - {p, q});
    KeyLessTotal(p, q);
    KeyLessTransitive(p, q, y);
    SequentialByKey(running - {q}, p, y);
    SequentialByKey(running - {p}, q, y);
  }

  /** Of two running calls, a later one does not wait for the second. */
  lemma EarlyLater(ops: set<ToolInterval>, o: ReadObservation, p: ToolInterval, q: ToolInterval) returns (a: ToolInterval)
    requires Timed(ops, o) && !JustTwoRunning(ops, o) && Before(ops, o) == {} && During(ops, o) == {p, q} && KeyLess(p, q)
    requires Ready(p, ops) && Ready(q, ops)
    ensures Race(ops, o, p, q, a)
  {
    KeyLessTotal(p, q);
    a := NotBehindBoth(ops, o, p, q);
    assert p in During(ops, o) && q in During(ops, o);
    assert !MustPrecede(q, a);
    forall b | b in ops ensures !IsOver(b, o) { assert b !in Before(ops, o); }
  }

  lemma NotBehindBoth(ops: set<ToolInterval>, o: ReadObservation, p: ToolInterval, q: ToolInterval) returns (a: ToolInterval)
    requires !JustTwoRunning(ops, o) && Before(ops, o) == {} && During(ops, o) == {p, q} && p != q
    ensures a in After(ops, o) && (!MustPrecede(p, a) || !MustPrecede(q, a))
  {
    PairSize(p, q);
    a :| a in After(ops, o) && !AllPrecede(During(ops, o), a);
  }

  lemma PairSize<T>(x: T, y: T)
    requires x != y
    ensures |{x, y}| == 2
  {
  }

  // ---------------------------------------------------------------- together

  /** Whenever the condition fails, the intervals have a flaw. */
  lemma FindFlaw(ops: set<ToolInterval>, o: ReadObservation) returns (flaw: Flaw)
    requires Timed(ops, o) && !Harmless(ops, o)
    ensures HasFlaw(ops, o, flaw)
  {
    if !KeysInOrder(During(ops, o), After(ops, o)) {
      var x, a :| x in During(ops, o) && a in After(ops, o) && !KeyLess(x, a);
      KeyLessTotal(x, a);
      flaw := OutOfOrder(ops, o, x, a);
    } else if !Sequential(Before(ops, o)) {
      flaw := OverlapOver(ops, o);
    } else if Before(ops, o) != {} {
      flaw := SomeOver(ops, o);
    } else {
      assert Before(ops, o) + During(ops, o) == During(ops, o);
      flaw := NothingOver(ops, o);
    }
  }
}
