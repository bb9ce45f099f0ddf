/** Where the read filter is exact: when the calls before and during a read leave no
    choice that matters, whatever they contain; and, whatever the intervals, when reads
    keep clear of all calls and what was over before them commutes. */
module FilterSuffices {
  import opened Wrappers
  import opened Intervals
  import opened Replay
  import opened Observations
  import opened Recovery
  import opened Confluence
  import opened FilterShape

  // ---------------------------------------------------------------- orders that begin alike

  /** No call outside `p[..i]` could have come instead of `p[i]`, unless it had to. */
  ghost predicate Forced(p: seq<ToolInterval>, ops: set<ToolInterval>, k: nat)
    requires k <= |p|
  {
    forall i, v :: 0 <= i < k && v in ops && v !in p[..i] && KeyLess(v, p[i]) ==> MustPrecede(v, p[i])
  }

  /** Then an order that is met no later than `p` begins like `p`. */
  lemma {:induction false} BeginAlike(w: seq<ToolInterval>, p: seq<ToolInterval>, ops: set<ToolInterval>, k: nat)
    requires Linearization(w, ops) && Linearization(p, ops) && LexLe(w, p) && k <= |p| && Forced(p, ops, k)
    ensures |w| == |p| && w[..k] == p[..k]
    decreases k
  {
    LinearizationLength(w, ops);
    LinearizationLength(p, ops);
    if k > 0 {
      var a, t := p[0], p[1..];
      assert p == [a] + t && w == [w[0]] + w[1..];
      LinearizationCons(a, t, ops);
      LinearizationCons(w[0], w[1..], ops);
      assert p[..0] == [];
      assert w[0] == a;
      ForcedTail(p, ops, k);
      BeginAlike(w[1..], t, ops - {a}, k - 1);
      assert w[..k] == [a] + w[1..][..k - 1] && p[..k] == [a] + t[..k - 1];
    }
  }

  lemma ForcedTail(p: seq<ToolInterval>, ops: set<ToolInterval>, k: nat)
    requires 0 < k <= |p| && Forced(p, ops, k)
    ensures Forced(p[1..], ops - {p[0]}, k - 1)
  {
    var t := p[1..];
    forall i, v | 0 <= i < k - 1 && v in ops - {p[0]} && v !in t[..i] && KeyLess(v, t[i])
      ensures MustPrecede(v, t[i])
    {
      assert p[..i + 1] == [p[0]] + t[..i];
      assert v !in p[..i + 1] && p[i + 1] == t[i];
    }
  }

  /** Two orders of the same calls with the same beginning leave the same room and show
      the same file there. */
  lemma ShownAlike(w: seq<ToolInterval>, p: seq<ToolInterval>, ops: set<ToolInterval>, o: ReadObservation, k: nat)
    requires Linearization(w, ops) && Linearization(p, ops) && |w| == |p| && k <= |p| && w[..k] == p[..k]
    requires ShownAt(p, o, k)
    ensures ShownAt(w, o, k)
  {
    forall i | 0 <= i < k ensures w[i] == p[i] { assert w[i] == w[..k][i]; }
    forall i | k <= i < |w| ensures !(w[i].end < o.start) {
      assert w[i] in w && w[i] in p;
      var j :| 0 <= j < |p| && p[j] == w[i];
      NotPlacedTwice(w, i, k);
      PlacedIn(p, j, k);
    }
  }

  lemma PlacedIn(p: seq<ToolInterval>, j: nat, k: nat)
    requires j < |p| && k <= |p|
    ensures j < k ==> p[j] in p[..k]
  {
    if j < k { assert p[..k][j] == p[j]; }
  }

  lemma NotPlacedTwice(p: seq<ToolInterval>, i: nat, k: nat)
    requires k <= i < |p| && Distinct(p)
    ensures p[i] !in p[..k]
  {
  }

  // ---------------------------------------------------------------- before the read, the order is known

  /** The calls placed before the read are over or running, and those over are placed. */
  lemma PlacedBefore(p: seq<ToolInterval>, ops: set<ToolInterval>, o: ReadObservation, k: nat)
    requires Linearization(p, ops) && CanInsert(p, o, k)
    ensures forall i :: 0 <= i < k ==> p[i] in Before(ops, o) + During(ops, o)
    ensures forall d :: d in Before(ops, o) ==> d in p[..k]
  {
    forall i | 0 <= i < k ensures p[i] in Before(ops, o) + During(ops, o) { assert p[i] in p; }
    forall d | d in Before(ops, o) ensures d in p[..k] {
      assert d in p;
      var j :| 0 <= j < |p| && p[j] == d;
      assert j < k;
      assert p[..k][j] == d;
    }
  }

  /** A read is not explained before the first call. */
  lemma ShownLater(p: seq<ToolInterval>, o: ReadObservation, k: nat)
    requires ShownAt(p, o, k)
    ensures k >= 1
  {
    assert p[..0] == [];
  }

  lemma NotAfter(p: seq<ToolInterval>, o: ReadObservation, k: nat, n: nat)
    requires CanInsert(p, o, k) && n < |p| && o.end < p[n].start
    ensures k <= n
  {
  }

  lemma NotBefore(p: seq<ToolInterval>, o: ReadObservation, k: nat, n: nat)
    requires CanInsert(p, o, k) && n < |p| && p[n].end < o.start
    ensures n < k
  {
  }

  lemma SequentialForced(p: seq<ToolInterval>, ops: set<ToolInterval>, o: ReadObservation, k: nat)
    requires Linearization(p, ops) && UniqueIds(ops) && WellTimed(ops) && o.start <= o.end && CanInsert(p, o, k)
    requires Sequential(Before(ops, o) + During(ops, o)) && KeysInOrder(During(ops, o), After(ops, o))
    ensures Forced(p, ops, k)
  {
    PlacedBefore(p, ops, o, k);
    forall i, v | 0 <= i < k && v in ops && v !in p[..i] && KeyLess(v, p[i]) ensures MustPrecede(v, p[i]) {
      var u := p[i];
      assert u in Before(ops, o) + During(ops, o);
      KeyLessTotal(u, v);
      if v in After(ops, o) {
        assert false;
      } else {
        assert !Concurrent(u, v);
      }
    }
  }

  /** One call overlaps the read, all others are over and do not overlap: the read falls
      before that call, when all others are done, or at the very end. */
  lemma LastOneForced(p: seq<ToolInterval>, ops: set<ToolInterval>, o: ReadObservation, k: nat)
    requires Linearization(p, ops) && UniqueIds(ops) && WellTimed(ops) && CanInsert(p, o, k) && k < |p|
    requires After(ops, o) == {} && |During(ops, o)| == 1 && Sequential(Before(ops, o))
    ensures Forced(p, ops, k)
  {
    var x := TheOne(During(ops, o));
    PlacedBefore(p, ops, o, k);
    assert p[k] in p && p[k] !in Before(ops, o) && p[k] !in After(ops, o);
    assert p[k] in During(ops, o);
    forall i | 0 <= i < k ensures p[i] in Before(ops, o) { assert p[i] != p[k]; }
    forall i, v | 0 <= i < k && v in ops && v !in p[..i] && KeyLess(v, p[i]) ensures MustPrecede(v, p[i]) {
      KeyLessTotal(v, p[i]);
      assert v in Before(ops, o);
      assert !Concurrent(p[i], v);
    }
  }

  lemma TheOne<T>(s: set<T>) returns (x: T)
    requires |s| == 1
    ensures s == {x}
  {
    x :| x in s;
    assert |s - {x}| == 0;
  }

  lemma TheTwo<T>(s: set<T>) returns (x: T, y: T)
    requires |s| == 2
    ensures s == {x, y} && x != y
  {
    x :| x in s;
    y := TheOne(s - {x});
    assert s == {x} + (s - {x});
  }

  // ---------------------------------------------------------------- two calls that both wrote first

  /** The first call of a valid order is a write: it shows the same file wherever it stands. */
  lemma FirstIsWrite(p: seq<ToolInterval>, ops: set<ToolInterval>, text: string)
    requires Completes(p, ops, None, text) && p != []
    ensures forall file: File :: Apply(file, p[0]) == p[0].args.content && p[0].args.content.Some?
  {
    CompletesCons(p, ops, None, text);
  }

  lemma RunOne(a: ToolInterval)
    ensures Run(None, [a]) == if Apply(None, a).None? then Broken else Reached(Apply(None, a))
  {
    ConsRun(None, a, []);
    assert [a] + [] == [a];
  }

  /** Two valid orders that begin with the same two calls, the other way round. */
  ghost predicate Swapped(w: seq<ToolInterval>, p: seq<ToolInterval>) {
    |p| >= 2 && |w| >= 2 && w[0] == p[1] && w[1] == p[0]
  }

  /** What one shows after its first call the other shows after its second. */
  lemma SwappedShows(w: seq<ToolInterval>, p: seq<ToolInterval>, ops: set<ToolInterval>, text: string, k: nat)
    requires Completes(w, ops, None, text) && Completes(p, ops, None, text) && Swapped(w, p) && 1 <= k <= 2
    ensures Run(None, w[..3 - k]) == Run(None, p[..k]) && Run(None, p[..k]).Reached?
  {
    FirstIsWrite(w, ops, text);
    FirstIsWrite(p, ops, text);
    assert p[..1] == [p[0]] && w[..1] == [w[0]];
    assert p[..2] == [p[0], w[0]] && w[..2] == [w[0], p[0]];
    RunOne(p[0]);
    RunOne(w[0]);
    RunTwo(None, p[0], w[0]);
    RunTwo(None, w[0], p[0]);
  }

  lemma FirstLe(w: seq<ToolInterval>, p: seq<ToolInterval>)
    requires LexLe(w, p) && |w| == |p| && p != []
    ensures w[0] == p[0] || KeyLess(w[0], p[0])
    ensures w[0] == p[0] && |p| > 1 ==> w[1] == p[1] || KeyLess(w[1], p[1])
  {
    if w[0] == p[0] && |p| > 1 {
      KeyLessTotal(w[0], p[0]);
      assert LexLe(w[1..], p[1..]);
    }
  }

  // ---------------------------------------------------------------- the small cases

  /** The recorded order `w` and an order `p` with the same final content. */
  ghost predicate Rivals(w: seq<ToolInterval>, p: seq<ToolInterval>, ops: set<ToolInterval>, text: string) {
    Completes(w, ops, None, text) && Completes(p, ops, None, text) && LexLe(w, p) && |w| == |p| == |ops|
  }

  lemma AreRivals(w: seq<ToolInterval>, p: seq<ToolInterval>, ops: set<ToolInterval>, text: string)
    requires IsWitness(w, ops, None, text) && Completes(p, ops, None, text)
    ensures Rivals(w, p, ops, text)
  {
    LinearizationLength(w, ops);
    LinearizationLength(p, ops);
  }

  /** A read at the very end sees the final content in any order. */
  lemma AtTheEnd(w: seq<ToolInterval>, p: seq<ToolInterval>, ops: set<ToolInterval>, o: ReadObservation, text: string)
    requires Rivals(w, p, ops, text) && ShownAt(p, o, |p|)
    ensures Explains(w, o)
  {
    assert w[..|w|] == w && p[..|p|] == p;
    forall i | 0 <= i < |w| ensures !(o.end < w[i].start) {
      assert w[i] in w && w[i] in p;
    }
    assert ShownAt(w, o, |w|);
  }

  lemma BeginLikeShown(w: seq<ToolInterval>, p: seq<ToolInterval>, ops: set<ToolInterval>, o: ReadObservation,
                       text: string, k: nat)
    requires Rivals(w, p, ops, text) && ShownAt(p, o, k) && Forced(p, ops, k)
    ensures Explains(w, o)
  {
    BeginAlike(w, p, ops, k);
    ShownAlike(w, p, ops, o, k);
  }

  lemma SwapShown(w: seq<ToolInterval>, p: seq<ToolInterval>, ops: set<ToolInterval>, o: ReadObservation,
                  text: string, k: nat)
    requires Rivals(w, p, ops, text) && Swapped(w, p) && 1 <= k <= 2 && ShownAt(p, o, k) && CanInsert(w, o, 3 - k)
    ensures Explains(w, o)
  {
    SwappedShows(w, p, ops, text, k);
    assert ShownAt(w, o, 3 - k);
  }

  // one call over, one running, the later ones later in key order

  /** The calls around the read: `c` is over, `x` is running, all others come later, and
      later in key order. */
  ghost predicate OneOverOneRunning(ops: set<ToolInterval>, o: ReadObservation, c: ToolInterval, x: ToolInterval) {
    && c in ops && x in ops && c != x && c.end < o.start && !(x.end < o.start) && !(o.end < x.start)
    && forall v :: v in ops && v != c && v != x ==> o.end < v.start && KeyLess(x, v)
  }

  lemma OneAndOne(w: seq<ToolInterval>, p: seq<ToolInterval>, ops: set<ToolInterval>, o: ReadObservation, text: string,
                  c: ToolInterval, x: ToolInterval, k: nat)
    requires Rivals(w, p, ops, text) && WellTimed(ops) && o.start <= o.end && ShownAt(p, o, k)
    requires OneOverOneRunning(ops, o, c, x)
    ensures Explains(w, o)
  {
    PlacedBefore(p, ops, o, k);
    assert c in p[..k];
    OnlyTwo(p, k, c, x);
    NothingBefore(ops, o, c, x);
    assert w[0] in w && (k == 2 ==> w[1] in w);
    FirstLe(w, p);
    if p[0] == c {
      assert p[..0] == [] && (k == 2 ==> p[..1] == [c]);
      BeginLikeShown(w, p, ops, o, text, k);
    } else if w[0] == x {
      assert w[..2] == [x, c] && p[..2] == [x, c];
      ShownAlike(w, p, ops, o, 2);
    } else {
      ShownAlone(w, p, ops, o, text, c, x);
    }
  }

  lemma OnlyTwo(p: seq<ToolInterval>, k: nat, c: ToolInterval, x: ToolInterval)
    requires k <= |p| && Distinct(p) && c != x && c in p[..k]
    requires forall i :: 0 <= i < k ==> p[i] == c || p[i] == x
    ensures p[..k] == [c] || p[..k] == [c, x] || p[..k] == [x, c]
  {
    assert k > 0;
    if k > 2 {
      Differ(p, 0, 1);
      Differ(p, 0, 2);
      Differ(p, 1, 2);
      assert false;
    } else if k == 2 {
      Differ(p, 0, 1);
    }
  }

  lemma Differ(p: seq<ToolInterval>, i: nat, j: nat)
    requires i < j < |p| && Distinct(p)
    ensures p[i] != p[j]
  {
  }

  lemma NothingBefore(ops: set<ToolInterval>, o: ReadObservation, c: ToolInterval, x: ToolInterval)
    requires WellTimed(ops) && o.start <= o.end && OneOverOneRunning(ops, o, c, x)
    ensures forall v :: v in ops ==> !KeyLess(v, c)
    ensures forall v :: v in ops && KeyLess(v, x) ==> v == c
  {
    forall v | v in ops ensures !KeyLess(v, c) && (KeyLess(v, x) ==> v == c) {
      KeyLessTotal(v, c);
      KeyLessTotal(v, x);
    }
  }

  /** `c` first, then the read: the file is what it is after `x` and `c`. */
  lemma ShownAlone(w: seq<ToolInterval>, p: seq<ToolInterval>, ops: set<ToolInterval>, o: ReadObservation, text: string,
                   c: ToolInterval, x: ToolInterval)
    requires Rivals(w, p, ops, text) && OneOverOneRunning(ops, o, c, x) && o.start <= o.end && WellTimed(ops)
    requires |p| >= 2 && p[..2] == [x, c] && w[0] == c && ShownAt(p, o, 2)
    ensures Explains(w, o)
  {
    FirstIsWrite(w, ops, text);
    FirstIsWrite(p, ops, text);
    assert w[..1] == [c] && p[0] == p[..2][0];
    RunOne(c);
    RunTwo(None, x, c);
    forall i | 1 <= i < |w| ensures !(w[i].end < o.start) {
      assert w[i] in w && w[i] != w[0];
    }
    assert ShownAt(w, o, 1);
  }

  // two calls running, none over, all others after both

  ghost predicate TwoRunning(ops: set<ToolInterval>, o: ReadObservation, a: ToolInterval, b: ToolInterval) {
    && a in ops && b in ops && a != b
    && (forall v :: v in ops ==> !(v.end < o.start))
    && !(o.end < a.start) && !(o.end < b.start)
    && forall v :: v in ops && v != a && v != b ==> o.end < v.start && MustPrecede(a, v) && MustPrecede(b, v)
  }

  lemma TwoFirst(w: seq<ToolInterval>, ops: set<ToolInterval>, a: ToolInterval, b: ToolInterval)
    requires Linearization(w, ops) && a in ops && b in ops && a != b
    requires forall v :: v in ops && v != a && v != b ==> MustPrecede(a, v) && MustPrecede(b, v)
    ensures |w| >= 2 && {w[0], w[1]} == {a, b}
  {
    assert a in w && b in w;
    var i, j :| 0 <= i < |w| && w[i] == a && 0 <= j < |w| && w[j] == b;
    forall n | 0 <= n < |w| && w[n] != a && w[n] != b ensures n > i && n > j {
      assert w[n] in w;
    }
    assert w[0] != w[1];
  }

  lemma TwoAndLater(w: seq<ToolInterval>, p: seq<ToolInterval>, ops: set<ToolInterval>, o: ReadObservation, text: string,
                    a: ToolInterval, b: ToolInterval, k: nat)
    requires Rivals(w, p, ops, text) && TwoRunning(ops, o, a, b) && ShownAt(p, o, k)
    ensures Explains(w, o)
  {
    TwoFirst(w, ops, a, b);
    TwoFirst(p, ops, a, b);
    assert w[0] in {a, b} && w[1] in {a, b} && p[0] in {a, b} && p[1] in {a, b};
    assert w[0] != w[1] && p[0] != p[1];
    forall i | 2 <= i < |p| ensures o.end < p[i].start { assert p[i] in p && p[i] != p[0] && p[i] != p[1]; }
    ShownLater(p, o, k);
    if |p| > 2 { NotAfter(p, o, k, 2); }
    if w[0] == p[0] {
      assert w[..2] == p[..2];
      assert w[..k] == w[..2][..k] && p[..k] == p[..2][..k];
      ShownAlike(w, p, ops, o, k);
    } else {
      forall i | 0 <= i < |w| ensures !(w[i].end < o.start) { assert w[i] in w; }
      SwapShown(w, p, ops, o, text, k);
    }
  }

  // three calls, one of them after the two others

  ghost predicate TwoThenOne(ops: set<ToolInterval>, o: ReadObservation, a: ToolInterval, b: ToolInterval, y: ToolInterval) {
    && ops == {a, b, y} && a != b && MustPrecede(a, y) && MustPrecede(b, y)
    && (forall v :: v in ops ==> !(o.end < v.start)) && !(y.end < o.start)
    && !(a.end < o.start && b.end < o.start)
  }

  lemma ThreeCalls(w: seq<ToolInterval>, p: seq<ToolInterval>, ops: set<ToolInterval>, o: ReadObservation, text: string,
                   a: ToolInterval, b: ToolInterval, y: ToolInterval, k: nat)
    requires Rivals(w, p, ops, text) && TwoThenOne(ops, o, a, b, y) && ShownAt(p, o, k)
    ensures Explains(w, o)
  {
    TwoFirst(w, ops, a, b);
    TwoFirst(p, ops, a, b);
    assert w[0] in {a, b} && w[1] in {a, b} && p[0] in {a, b} && p[1] in {a, b};
    assert w[0] != w[1] && p[0] != p[1];
    assert |p| == 3;
    ShownLater(p, o, k);
    if k == 3 {
      AtTheEnd(w, p, ops, o, text);
    } else if w[0] == p[0] {
      assert w[..2] == p[..2];
      assert w[..k] == w[..2][..k] && p[..k] == p[..2][..k];
      ShownAlike(w, p, ops, o, k);
    } else {
      assert w[2] in w && w[2] == y;
      FirstLe(w, p);
      SwapShown(w, p, ops, o, text, k);
    }
  }

  // ---------------------------------------------------------------- the condition suffices

  /** Under the condition, a recorded order explains a read as soon as some order with the
      same final content does. */
  lemma DecidedShows(w: seq<ToolInterval>, p: seq<ToolInterval>, ops: set<ToolInterval>, o: ReadObservation, text: string)
    requires UniqueIds(ops) && WellTimed(ops) && o.start <= o.end && Decided(ops, o)
    requires IsWitness(w, ops, None, text) && Completes(p, ops, None, text) && Explains(p, o)
    ensures Explains(w, o)
  {
    AreRivals(w, p, ops, text);
    var k: nat :| ShownAt(p, o, k);
    var over, running, later := Before(ops, o), During(ops, o), After(ops, o);
    PlacedBefore(p, ops, o, k);
    if running + later == {} {
      AllOver(p, ops, o, k);
      AtTheEnd(w, p, ops, o, text);
    } else if over + running == {} {
      ShownLater(p, o, k);
      assert false;
    } else if Sequential(over + running) {
      SequentialForced(p, ops, o, k);
      BeginLikeShown(w, p, ops, o, text, k);
    } else if LastOneRunning(ops, o) {
      if k == |p| {
        AtTheEnd(w, p, ops, o, text);
      } else {
        LastOneForced(p, ops, o, k);
        BeginLikeShown(w, p, ops, o, text, k);
      }
    } else {
      SmallCases(w, p, ops, o, text, k);
    }
  }

  lemma AllOver(p: seq<ToolInterval>, ops: set<ToolInterval>, o: ReadObservation, k: nat)
    requires Linearization(p, ops) && CanInsert(p, o, k) && During(ops, o) + After(ops, o) == {}
    ensures k == |p|
  {
    if p != [] {
      assert p[|p| - 1] in p;
      assert p[|p| - 1] !in During(ops, o) + After(ops, o);
      NotBefore(p, o, k, |p| - 1);
    }
  }

  lemma SmallCases(w: seq<ToolInterval>, p: seq<ToolInterval>, ops: set<ToolInterval>, o: ReadObservation, text: string, k: nat)
    requires Rivals(w, p, ops, text) && ShownAt(p, o, k)
    requires UniqueIds(ops) && WellTimed(ops) && o.start <= o.end
    requires KeysInOrder(During(ops, o), After(ops, o))
    requires OneEach(ops, o) || JustTwoRunning(ops, o) || ThreeInAll(ops, o)
    ensures Explains(w, o)
  {
    if OneEach(ops, o) {
      var c, x := TheOverAndTheRunning(ops, o);
      OneAndOne(w, p, ops, o, text, c, x, k);
    } else if JustTwoRunning(ops, o) {
      var a, b := TheTwoRunning(ops, o);
      TwoAndLater(w, p, ops, o, text, a, b, k);
    } else {
      var a, b, y := TheThree(ops, o);
      ThreeCalls(w, p, ops, o, text, a, b, y, k);
    }
  }

  lemma TheOverAndTheRunning(ops: set<ToolInterval>, o: ReadObservation) returns (c: ToolInterval, x: ToolInterval)
    requires |Before(ops, o)| == 1 && |During(ops, o)| == 1 && KeysInOrder(During(ops, o), After(ops, o))
    ensures OneOverOneRunning(ops, o, c, x)
  {
    c := TheOne(Before(ops, o));
    x := TheOne(During(ops, o));
    assert c in Before(ops, o) && x in During(ops, o);
    forall v | v in ops && v != c && v != x ensures o.end < v.start && KeyLess(x, v) {
      assert v !in Before(ops, o) && v !in During(ops, o);
      assert v in After(ops, o);
    }
  }

  lemma TheTwoRunning(ops: set<ToolInterval>, o: ReadObservation) returns (a: ToolInterval, b: ToolInterval)
    requires Before(ops, o) == {} && |During(ops, o)| == 2
    requires forall v :: v in After(ops, o) ==> AllPrecede(During(ops, o), v)
    ensures TwoRunning(ops, o, a, b)
  {
    a, b := TheTwo(During(ops, o));
    assert a in During(ops, o) && b in During(ops, o);
    forall v | v in ops ensures !(v.end < o.start) { assert v !in Before(ops, o); }
    forall v | v in ops && v != a && v != b ensures o.end < v.start && MustPrecede(a, v) && MustPrecede(b, v) {
      assert v !in During(ops, o);
      assert v in After(ops, o);
    }
  }

  lemma TheThree(ops: set<ToolInterval>, o: ReadObservation) returns (a: ToolInterval, b: ToolInterval, y: ToolInterval)
    requires After(ops, o) == {} && |ops| == 3 && |Before(ops, o)| <= 1 && WellTimed(ops)
    requires exists y :: y in ops && AllPrecede(ops, y)
    ensures TwoThenOne(ops, o, a, b, y)
  {
    y :| y in ops && AllPrecede(ops, y);
    a, b := TheTwo(ops - {y});
    assert ops == {y} + (ops - {y});
    assert a in ops - {y} && b in ops - {y};
    forall v | v in ops ensures !(o.end < v.start) { assert v !in After(ops, o); }
    if a.end < o.start && b.end < o.start { TwoElements(Before(ops, o), a, b); }
    if y.end < o.start { TwoElements(Before(ops, o), a, y); }
  }

  // ---------------------------------------------------------------- reads apart from all calls

  /** No call overlaps the read, and the calls that are over commute where they overlap. */
  ghost predicate Apart(ops: set<ToolInterval>, o: ReadObservation) {
    During(ops, o) == {} && OverlapsCommute(Before(ops, o), None)
  }

  /** Such a read falls right after the calls that are over, in every order. */
  lemma PlacedIsOver(p: seq<ToolInterval>, ops: set<ToolInterval>, o: ReadObservation, k: nat)
    requires Linearization(p, ops) && During(ops, o) == {} && CanInsert(p, o, k)
    ensures Linearization(p[..k], Before(ops, o))
  {
    PlacedBefore(p, ops, o, k);
    forall a ensures a in p[..k] <==> a in Before(ops, o) {
      if a in p[..k] {
        var i :| 0 <= i < k && p[..k][i] == a;
        assert p[i] in Before(ops, o) + During(ops, o);
      }
    }
  }

  lemma ApartShows(w: seq<ToolInterval>, p: seq<ToolInterval>, ops: set<ToolInterval>, o: ReadObservation)
    requires UniqueIds(ops) && WellTimed(ops) && o.start <= o.end && Apart(ops, o)
    requires Linearization(w, ops) && Linearization(p, ops) && Explains(p, o)
    ensures Explains(w, o)
  {
    var k: nat :| ShownAt(p, o, k);
    assert WellFormed(w) by { OfUniqueIds(w, ops); }
    var n := WindowNonEmpty(w, o);
    PlacedIsOver(p, ops, o, k);
    PlacedIsOver(w, ops, o, n);
    Confluent(p[..k], w[..n], Before(ops, o), None);
    assert ShownAt(w, o, n);
  }

  lemma OfUniqueIds(w: seq<ToolInterval>, ops: set<ToolInterval>)
    requires UniqueIds(ops) && WellTimed(ops) && Linearization(w, ops)
    ensures WellFormed(w)
  {
    forall i | 0 <= i < |w| ensures w[i] in ops { assert w[i] in w; }
  }

  // ---------------------------------------------------------------- all reads together

  /** The filter keeps exactly the contents that some order explains, if each read is
      decided by the intervals, whatever the calls and the read contain, or lies apart from
      all calls. Reads made after the last call, and traces without overlaps, are among them. */
  lemma FilterExactFor(ops: set<ToolInterval>, observations: seq<ReadObservation>)
    requires UniqueIds(ops) && WellTimed(ops)
    requires forall i :: 0 <= i < |observations| ==> observations[i].start <= observations[i].end
    requires forall i :: 0 <= i < |observations| ==> Decided(ops, observations[i]) || Apart(ops, observations[i])
    ensures FilterExact(ops, observations)
  {
    forall text | text in Outcomes(ops, None)
      ensures WitnessFits(ops, observations, text) <==> Explained(ops, observations, text)
    {
      var w := WitnessExists(ops, None, text);
      FitIsWitnessFit(w, ops, observations, text);
      if p :| Completes(p, ops, None, text) && Fits(p, observations) {
        forall i | 0 <= i < |observations| ensures Explains(w, observations[i]) {
          if Decided(ops, observations[i]) {
            DecidedShows(w, p, ops, observations[i], text);
          } else {
            ApartShows(w, p, ops, observations[i]);
          }
        }
      }
    }
  }

  /** What survives, when the reads are needed and nothing is lost: the contents that some
      order which explains all reads ends in. One survivor means that the trace and the reads
      allow only that one. */
  lemma SurvivorsExact(ops: set<ToolInterval>, observations: seq<ReadObservation>, text: string)
    requires NothingLost(ops, observations) && |Outcomes(ops, None)| > 1 && observations != []
    ensures text in Survivors(ops, observations) <==> Explained(ops, observations, text)
  {
    if text in Survivors(ops, observations) {
      var w :| IsWitness(w, ops, None, text) && Fits(w, observations);
    }
  }
}
