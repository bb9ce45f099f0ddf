/** What leaves a read open: the families of intervals for which some calls lose an explained
    content, and the first step of finding one, from two calls that the sort key puts the
    other way round than the read may have seen them. */
module FilterFlaws {
  import opened Intervals
  import opened Observations
  import opened Confluence
  import opened FilterShape
  import opened FilterTools
  import opened FilterOverwritten
  import opened FilterForks
  import opened FilterErased
  import opened FilterEdits
  import opened FilterRaces

  /** The calls that can lose a content, by the way in which the order is open. */
  datatype Flaw =
    | Opposed(r: Roles, c: ToolInterval, d: ToolInterval)
    | Started(m: ToolInterval, b: ToolInterval, s: ToolInterval, t: ToolInterval)
    | Hurried(m: ToolInterval, s: ToolInterval, t: ToolInterval)
    | Raced(p: ToolInterval, q: ToolInterval, a: ToolInterval)
    | Tailed(f: ToolInterval, u: ToolInterval, v: ToolInterval, e: ToolInterval, g: ToolInterval, h: ToolInterval, w: ToolInterval)
    | Forked(p: ToolInterval, q: ToolInterval, y: ToolInterval, g: ToolInterval, h: ToolInterval, w: ToolInterval)
    | Delayed(f: ToolInterval, l: ToolInterval, x: ToolInterval, g: ToolInterval, h: ToolInterval, w: ToolInterval)
    | Alone(x: ToolInterval, e: ToolInterval, g: ToolInterval, w: ToolInterval)
    | Erased(cast: Cast)
    | ErasedTwice(cast: Cast)

  ghost predicate HasFlaw(ops: set<ToolInterval>, o: ReadObservation, flaw: Flaw) {
    match flaw
    case Opposed(r, c, d) => Detected(ops, o, r, c, d)
    case Started(m, b, s, t) => TwoStarts(ops, o, m, b, s, t)
    case Hurried(m, s, t) => Early(ops, o, m, s, t)
    case Raced(p, q, a) => Race(ops, o, p, q, a)
    case Tailed(f, u, v, e, g, h, w) => Tail(ops, o, f, u, v, e, g, h, w)
    case Forked(p, q, y, g, h, w) => Fork(ops, o, p, q, y, g, h, w)
    case Delayed(f, l, x, g, h, w) => Late(ops, o, f, l, x, g, h, w)
    case Alone(x, e, g, w) => Lonely(ops, o, x, e, g, w)
    case Erased(r) => Erasable(ops, o, r)
    case ErasedTwice(r) => ErasablePair(ops, o, r)
  }

  // ---------------------------------------------------------------- overlapping pairs

  ghost predicate SamePair(a: ToolInterval, b: ToolInterval, c: ToolInterval, d: ToolInterval) {
    (a == c && b == d) || (a == d && b == c)
  }

  /** A pair that overlaps, besides a given one; the smaller key first. */
  lemma AnotherPair(ops: set<ToolInterval>, a: ToolInterval, b: ToolInterval) returns (c: ToolInterval, d: ToolInterval)
    requires UniqueIds(ops) && !OnePairOverlaps(ops)
    ensures Overlap(ops, c, d) && KeyLess(c, d) && !SamePair(c, d, a, b)
  {
    var i, j, k, l :| Overlap(ops, i, j) && Overlap(ops, k, l) && {i, j} != {k, l};
    if SamePair(i, j, a, b) {
      NotSamePair(i, j, k, l, a, b);
      c, d := k, l;
    } else {
      c, d := i, j;
    }
    KeyLessTotal(c, d);
    if !KeyLess(c, d) { c, d := d, c; }
  }

  lemma NotSamePair(i: ToolInterval, j: ToolInterval, k: ToolInterval, l: ToolInterval, a: ToolInterval, b: ToolInterval)
    requires {i, j} != {k, l} && SamePair(i, j, a, b)
    ensures !SamePair(k, l, a, b)
  {
  }

  /** The relations of two calls of a trace. */
  lemma Related(ops: set<ToolInterval>, a: ToolInterval, b: ToolInterval)
    requires UniqueIds(ops) && WellTimed(ops) && a in ops && b in ops
    ensures a != b ==> Concurrent(a, b) || MustPrecede(a, b) || MustPrecede(b, a)
    ensures MustPrecede(a, b) ==> KeyLess(a, b) && !KeyLess(b, a)
    ensures KeyLess(a, b) ==> a != b && !MustPrecede(b, a)
  {
    KeyLessTotal(a, b);
  }

  lemma Between(ops: set<ToolInterval>, a: ToolInterval, b: ToolInterval, c: ToolInterval)
    requires UniqueIds(ops) && WellTimed(ops) && a in ops && b in ops && c in ops && MustPrecede(a, b) && MustPrecede(b, c)
    ensures MustPrecede(a, c)
  {
  }

  // ---------------------------------------------------------------- an inversion and a pair apart from its start

  /** Who plays which part when the pair `c`, `d` is to tell the orders apart. */
  lemma RolesFor(m: ToolInterval, s: ToolInterval, t: ToolInterval, c: ToolInterval, d: ToolInterval) returns (r: Roles)
    requires m != s && m != t && s != t && c != d && c != m && d != m && !SamePair(c, d, s, t)
    ensures r.m == m && r.s == s && r.t == t && Different(r) && SamePair(r.x, r.y, c, d)
  {
    if c == s || c == t {
      r := Roles(m, s, t, c, d);
    } else if d == s || d == t {
      r := Roles(m, s, t, d, c);
    } else {
      r := Roles(m, s, t, c, d);
    }
  }

  lemma OpposedBy(ops: set<ToolInterval>, o: ReadObservation, m: ToolInterval, s: ToolInterval, t: ToolInterval,
                  c: ToolInterval, d: ToolInterval) returns (flaw: Flaw)
    requires Inversion(ops, o, m, s, t) && s != t && Overlap(ops, c, d) && !SamePair(c, d, s, t) && c != m && d != m
    requires KeyLess(c, d) || (c == t && MustPrecede(s, d))
    requires d in UpTo(ops, o, m, t) ==> c in UpTo(ops, o, m, t)
    ensures HasFlaw(ops, o, flaw)
  {
    var r := RolesFor(m, s, t, c, d);
    flaw := Opposed(r, c, d);
  }

  /** The first call in key order that need not come before the read. */
  lemma FirstBehind(ops: set<ToolInterval>, o: ReadObservation, m: ToolInterval, s: ToolInterval, t: ToolInterval)
    returns (s': ToolInterval)
    requires Timed(ops, o) && Inversion(ops, o, m, s, t)
    ensures Inversion(ops, o, m, s', t) && s' != t && s' !in UpTo(ops, o, m, t)
    ensures forall b :: b in ops && b !in UpTo(ops, o, m, t) && b != s' ==> KeyLess(s', b)
  {
    UpToClosed(ops, o, m, s, t);
    assert s in ops - UpTo(ops, o, m, t);
    s' := KeyMin(ops - UpTo(ops, o, m, t));
    if s' != s { KeyLessTransitive(s', s, t); }
    Related(ops, s', t);
  }

  /** An overlapping pair without `m`: it tells the orders apart, or another one does. */
  lemma PairWithout(ops: set<ToolInterval>, o: ReadObservation, m: ToolInterval, s: ToolInterval, t: ToolInterval,
                    c: ToolInterval, d: ToolInterval) returns (flaw: Flaw)
    requires Timed(ops, o) && Inversion(ops, o, m, s, t)
    requires Overlap(ops, c, d) && KeyLess(c, d) && !SamePair(c, d, s, t) && c != m && d != m
    ensures HasFlaw(ops, o, flaw)
  {
    Related(ops, s, t);
    if d in UpTo(ops, o, m, t) && c !in UpTo(ops, o, m, t) {
      OnlyAtEnd(ops, o, m, t, c, d);
      UpToClosed(ops, o, m, s, t);
      var s' := FirstBehind(ops, o, m, s, t);
      flaw := TurnedAt(ops, o, m, s', t, if c == s' then s else c);
    } else {
      flaw := OpposedBy(ops, o, m, s, t, c, d);
    }
  }

  /** A smaller key is before the read with a greater one that has to be, unless that is `t`. */
  lemma OnlyAtEnd(ops: set<ToolInterval>, o: ReadObservation, m: ToolInterval, t: ToolInterval, c: ToolInterval, d: ToolInterval)
    requires UniqueIds(ops) && c in ops && t in ops && KeyLess(c, d) && d != m
    requires d in UpTo(ops, o, m, t) && c !in UpTo(ops, o, m, t)
    ensures d == t
  {
  }

  /** `c` overlaps `t` and may come behind the read. */
  lemma TurnedAt(ops: set<ToolInterval>, o: ReadObservation, m: ToolInterval, s: ToolInterval, t: ToolInterval, c: ToolInterval)
    returns (flaw: Flaw)
    requires Timed(ops, o) && Inversion(ops, o, m, s, t) && s != t && s !in UpTo(ops, o, m, t)
    requires forall b :: b in ops && b !in UpTo(ops, o, m, t) && b != s ==> KeyLess(s, b)
    requires Overlap(ops, c, t) && c != s && c !in UpTo(ops, o, m, t)
    ensures HasFlaw(ops, o, flaw)
  {
    Related(ops, s, c);
    if Concurrent(s, c) {
      flaw := OpposedBy(ops, o, m, s, t, s, c);
    } else {
      flaw := OpposedBy(ops, o, m, s, t, t, c);
    }
  }

  // ---------------------------------------------------------------- all other pairs share the start

  /** Every overlapping pair but `s` and `t` has `m` in it. */
  ghost predicate AllWith(ops: set<ToolInterval>, m: ToolInterval, s: ToolInterval, t: ToolInterval) {
    forall c, d :: Overlap(ops, c, d) ==> c == m || d == m || SamePair(c, d, s, t)
  }

  /** The calls besides `s` and `t` that overlap `m`. */
  function Others(ops: set<ToolInterval>, m: ToolInterval, s: ToolInterval, t: ToolInterval): set<ToolInterval> {
    set b | b in ops && b != m && b != s && b != t && Concurrent(m, b)
  }

  /** Whatever must precede a call that overlaps `m` overlaps `m` as well. */
  lemma AlsoOverlaps(ops: set<ToolInterval>, m: ToolInterval, b: ToolInterval, e: ToolInterval)
    requires UniqueIds(ops) && WellTimed(ops) && Ready(m, ops) && b in ops && b != m && Concurrent(m, b)
    requires e in ops && MustPrecede(e, b)
    ensures e != m && Concurrent(m, e)
  {
    Related(ops, m, e);
    if MustPrecede(m, e) { Between(ops, m, e, b); }
  }

  /** `d` can be first as well: then `s` and `t` wait for it. */
  lemma StartsBoth(ops: set<ToolInterval>, o: ReadObservation, m: ToolInterval, s: ToolInterval, t: ToolInterval, d: ToolInterval)
    requires Timed(ops, o) && Inversion(ops, o, m, s, t) && AllWith(ops, m, s, t) && d in Others(ops, m, s, t) && Ready(d, ops)
    ensures TwoStarts(ops, o, m, d, s, t)
  {
    Related(ops, d, s);
    Related(ops, d, t);
    assert !Overlap(ops, d, s) && !Overlap(ops, d, t);
  }

  /** `s` and `t` come before `d`, can be first, and overlap `m`. */
  ghost predicate AllFirst(ops: set<ToolInterval>, m: ToolInterval, s: ToolInterval, t: ToolInterval, d: ToolInterval) {
    && MustPrecede(s, d) && MustPrecede(t, d) && Concurrent(m, s) && Concurrent(m, t) && Ready(s, ops) && Ready(t, ops)
  }

  lemma BothBefore(ops: set<ToolInterval>, o: ReadObservation, m: ToolInterval, s: ToolInterval, t: ToolInterval, d: ToolInterval,
                   b: ToolInterval)
    requires Timed(ops, o) && Inversion(ops, o, m, s, t) && AllWith(ops, m, s, t) && d in Others(ops, m, s, t)
    requires b in ops && MustPrecede(b, d) && (b == s || b == t)
    ensures MustPrecede(s, d) && MustPrecede(t, d) && Concurrent(m, s) && Concurrent(m, t)
  {
    Related(ops, d, s);
    Related(ops, d, t);
    assert !Overlap(ops, d, s) && !Overlap(ops, d, t);
    if b == s && MustPrecede(d, t) { Between(ops, s, d, t); }
    if b == t && MustPrecede(d, s) { Between(ops, t, d, s); }
    AlsoOverlaps(ops, m, d, s);
    AlsoOverlaps(ops, m, d, t);
  }

  lemma BothFirst(ops: set<ToolInterval>, o: ReadObservation, m: ToolInterval, s: ToolInterval, t: ToolInterval, d: ToolInterval)
    requires Timed(ops, o) && Inversion(ops, o, m, s, t) && AllWith(ops, m, s, t) && d in Others(ops, m, s, t) && !Ready(d, ops)
    requires forall b :: b in Others(ops, m, s, t) && b != d ==> KeyLess(d, b)
    ensures AllFirst(ops, m, s, t, d)
  {
    var b :| b in ops && MustPrecede(b, d);
    AlsoOverlaps(ops, m, d, b);
    NotSmaller(ops, m, s, t, d, b);
    BothBefore(ops, o, m, s, t, d, b);
    forall e | e in ops ensures !MustPrecede(e, s) && !MustPrecede(e, t) {
      if MustPrecede(e, s) {
        AlsoOverlaps(ops, m, s, e);
        Between(ops, e, s, d);
        NotSmaller(ops, m, s, t, d, e);
      }
      if MustPrecede(e, t) {
        AlsoOverlaps(ops, m, t, e);
        Between(ops, e, t, d);
        NotSmaller(ops, m, s, t, d, e);
      }
    }
  }

  /** What must precede the least of the others is `s` or `t`, if it overlaps `m`. */
  lemma NotSmaller(ops: set<ToolInterval>, m: ToolInterval, s: ToolInterval, t: ToolInterval, d: ToolInterval, b: ToolInterval)
    requires UniqueIds(ops) && WellTimed(ops) && d in Others(ops, m, s, t)
    requires forall b :: b in Others(ops, m, s, t) && b != d ==> KeyLess(d, b)
    requires b in ops && b != m && Concurrent(m, b) && MustPrecede(b, d)
    ensures b == s || b == t
  {
    Related(ops, b, d);
    assert b in Others(ops, m, s, t) || b == s || b == t;
  }

  /** The greater key of an inversion is not over either. */
  lemma NeitherOver(ops: set<ToolInterval>, o: ReadObservation, m: ToolInterval, s: ToolInterval, t: ToolInterval)
    requires Inversion(ops, o, m, s, t)
    ensures !IsOver(t, o)
  {
  }

  /** Three calls that can be first, and `d` after two of them: begin with `s` instead. */
  lemma StartElsewhere(ops: set<ToolInterval>, o: ReadObservation, m: ToolInterval, s: ToolInterval, t: ToolInterval, d: ToolInterval)
    returns (flaw: Flaw)
    requires Timed(ops, o) && Inversion(ops, o, m, s, t) && d in Others(ops, m, s, t) && AllFirst(ops, m, s, t, d) && !IsLater(s, o)
    ensures HasFlaw(ops, o, flaw)
  {
    NeitherOver(ops, o, m, s, t);
    Related(ops, s, t);
    Related(ops, m, t);
    KeyLessTotal(m, t);
    assert !IsOver(d, o) && !IsOver(m, o);
    if KeyLess(t, m) {
      flaw := OpposedBy(ops, o, s, t, m, m, d);
    } else {
      KeyLessTotal(m, d);
      if KeyLess(m, d) {
        flaw := OpposedBy(ops, o, s, m, t, m, d);
      } else {
        flaw := OpposedBy(ops, o, s, m, t, d, m);
      }
    }
  }

  lemma WithOthers(ops: set<ToolInterval>, o: ReadObservation, m: ToolInterval, s: ToolInterval, t: ToolInterval)
    returns (flaw: Flaw)
    requires Timed(ops, o) && Inversion(ops, o, m, s, t) && AllWith(ops, m, s, t) && Others(ops, m, s, t) != {}
    ensures HasFlaw(ops, o, flaw)
  {
    var d := KeyMin(Others(ops, m, s, t));
    if Ready(d, ops) {
      StartsBoth(ops, o, m, s, t, d);
      flaw := Started(m, d, s, t);
    } else {
      BothFirst(ops, o, m, s, t, d);
      if IsLater(s, o) {
        flaw := Hurried(m, s, t);
      } else {
        flaw := StartElsewhere(ops, o, m, s, t, d);
      }
    }
  }

  // ---------------------------------------------------------------- only the three overlap

  /** `m` overlaps `s` or `t`, and nothing else does. */
  ghost predicate JustThese(ops: set<ToolInterval>, m: ToolInterval, s: ToolInterval, t: ToolInterval) {
    AllWith(ops, m, s, t) && Others(ops, m, s, t) == {} && (Concurrent(m, s) || Concurrent(m, t))
  }

  lemma AreThese(ops: set<ToolInterval>, m: ToolInterval, s: ToolInterval, t: ToolInterval, c: ToolInterval, d: ToolInterval)
    requires AllWith(ops, m, s, t) && Others(ops, m, s, t) == {} && Overlap(ops, c, d) && !SamePair(c, d, s, t)
    ensures JustThese(ops, m, s, t)
  {
    assert c == m || d == m;
    var b := if c == m then d else c;
    assert b !in Others(ops, m, s, t);
  }

  /** Nothing else must precede `s` or `t`, if it overlaps `m`. */
  lemma NoOther(ops: set<ToolInterval>, m: ToolInterval, s: ToolInterval, t: ToolInterval, x: ToolInterval, e: ToolInterval)
    requires UniqueIds(ops) && WellTimed(ops) && Ready(m, ops) && Others(ops, m, s, t) == {} && x in ops && x != m
    requires Concurrent(m, x) && e in ops && MustPrecede(e, x)
    ensures e == s || e == t
  {
    AlsoOverlaps(ops, m, x, e);
    assert e in Others(ops, m, s, t) || e == s || e == t;
  }

  lemma LaterInversion(ops: set<ToolInterval>, o: ReadObservation, m: ToolInterval, s: ToolInterval, t: ToolInterval)
    requires Timed(ops, o) && Inversion(ops, o, m, s, t) && JustThese(ops, m, s, t) && IsLater(s, o)
    ensures Early(ops, o, m, s, t)
  {
    Related(ops, m, t);
    assert Concurrent(m, t);
    forall e | e in ops ensures !MustPrecede(e, t) {
      if MustPrecede(e, t) {
        NoOther(ops, m, s, t, t, e);
      }
    }
  }

  /** Any fourth call comes after the three. */
  lemma FourthBehind(ops: set<ToolInterval>, o: ReadObservation, m: ToolInterval, s: ToolInterval, t: ToolInterval, u: ToolInterval)
    requires Timed(ops, o) && Inversion(ops, o, m, s, t) && JustThese(ops, m, s, t)
    requires u in ops && u != m && u != s && u != t
    ensures MustPrecede(m, u) && MustPrecede(s, u) && MustPrecede(t, u)
  {
    assert u !in Others(ops, m, s, t);
    assert !Overlap(ops, u, s) && !Overlap(ops, u, t);
    Related(ops, m, u);
    Related(ops, s, u);
    Related(ops, t, u);
    if MustPrecede(u, s) { Between(ops, m, u, s); }
    if MustPrecede(u, t) { Between(ops, m, u, t); }
    if MustPrecede(u, s) && MustPrecede(t, u) { Between(ops, t, u, s); }
    if MustPrecede(u, t) && MustPrecede(s, u) { Between(ops, s, u, t); }
  }

  lemma FourthExists(ops: set<ToolInterval>, o: ReadObservation, m: ToolInterval, s: ToolInterval, t: ToolInterval)
    returns (u: ToolInterval)
    requires Timed(ops, o) && Inversion(ops, o, m, s, t) && !OnlyThree(ops, o) && !IsLater(s, o)
    ensures u in ops && u != m && u != s && u != t
  {
    NotJustThree(ops, o, m, s, t);
    assert ops - {m, s, t} != {};
    u :| u in ops - {m, s, t};
  }

  lemma NotJustThree(ops: set<ToolInterval>, o: ReadObservation, m: ToolInterval, s: ToolInterval, t: ToolInterval)
    requires Timed(ops, o) && Inversion(ops, o, m, s, t) && !OnlyThree(ops, o) && !IsLater(s, o)
    ensures ops != {m, s, t}
  {
    NeitherOver(ops, o, m, s, t);
    Related(ops, s, t);
    ThreeSize(m, s, t);
    if ops == {m, s, t} {
      assert After(ops, o) == {};
      SubsetOfOne(Before(ops, o), m);
    }
  }

  lemma ThreeSize<T>(x: T, y: T, z: T)
    requires x != y && x != z && y != z
    ensures |{x, y, z}| == 3
  {
  }

  lemma SubsetOfOne<T>(s: set<T>, x: T)
    requires s <= {x}
    ensures |s| <= 1
  {
    assert s == {} || s == {x};
  }

  lemma ThreeErased(ops: set<ToolInterval>, o: ReadObservation, m: ToolInterval, s: ToolInterval, t: ToolInterval, u: ToolInterval)
    returns (flaw: Flaw)
    requires Timed(ops, o) && Inversion(ops, o, m, s, t) && JustThese(ops, m, s, t) && !IsLater(s, o)
    requires u in ops && u != m && u != s && u != t
    ensures HasFlaw(ops, o, flaw)
  {
    FourthBehind(ops, o, m, s, t, u);
    NeitherOver(ops, o, m, s, t);
    Related(ops, s, t);
    if Concurrent(m, s) {
      ReadyWith(ops, o, m, s, t, s);
      flaw := Erased(Cast(m, m, s, t, t, u));
    } else {
      ReadyWith(ops, o, m, s, t, t);
      flaw := Erased(Cast(m, m, t, s, s, u));
    }
  }

  lemma ReadyWith(ops: set<ToolInterval>, o: ReadObservation, m: ToolInterval, s: ToolInterval, t: ToolInterval, x: ToolInterval)
    requires Timed(ops, o) && Inversion(ops, o, m, s, t) && JustThese(ops, m, s, t) && (x == s || x == t) && Concurrent(m, x)
    ensures Ready(x, ops)
  {
    forall e | e in ops ensures !MustPrecede(e, x) {
      if MustPrecede(e, x) {
        NoOther(ops, m, s, t, x, e);
      }
    }
  }

  // ---------------------------------------------------------------- together

  /** An inversion, and not too few orders: the intervals have a flaw. */
  lemma InversionFlaw(ops: set<ToolInterval>, o: ReadObservation, m: ToolInterval, s: ToolInterval, t: ToolInterval)
    returns (flaw: Flaw)
    requires Timed(ops, o) && Inversion(ops, o, m, s, t) && !OnePairOverlaps(ops) && !OnlyThree(ops, o)
    ensures HasFlaw(ops, o, flaw)
  {
    if !AllWith(ops, m, s, t) {
      var c, d :| Overlap(ops, c, d) && c != m && d != m && !SamePair(c, d, s, t);
      KeyLessTotal(c, d);
      if KeyLess(c, d) { flaw := PairWithout(ops, o, m, s, t, c, d); } else { flaw := PairWithout(ops, o, m, s, t, d, c); }
    } else if Others(ops, m, s, t) != {} {
      flaw := WithOthers(ops, o, m, s, t);
    } else {
      var c, d := AnotherPair(ops, s, t);
      AreThese(ops, m, s, t, c, d);
      if IsLater(s, o) {
        LaterInversion(ops, o, m, s, t);
        flaw := Hurried(m, s, t);
      } else {
        var u := FourthExists(ops, o, m, s, t);
        flaw := ThreeErased(ops, o, m, s, t, u);
      }
    }
  }
}
