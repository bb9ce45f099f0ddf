/** Where nothing is lost although the intervals do not decide the read: there are too few
    orders for several contents and a forgotten order at the same time. */
module FilterHarmless {
  import opened Wrappers
  import opened Text
  import opened Intervals
  import opened Replay
  import opened Observations
  import opened Recovery
  import opened Confluence
  import opened EditsApart
  import opened FilterShape
  import opened FilterSuffices
  import opened FilterTools

  lemma AnotherContent(ops: set<ToolInterval>, text: string) returns (q: seq<ToolInterval>, other: string)
    requires text in Outcomes(ops, None) && Outcomes(ops, None) != {text}
    ensures Completes(q, ops, None, other) && other != text
  {
    other :| other in Outcomes(ops, None) && other != text;
    OutcomesMeaning(other, ops, None);
    q :| Completes(q, ops, None, other);
  }

  // ---------------------------------------------------------------- one overlapping pair

  /** The two orders have every overlapping pair the same way round. */
  ghost predicate SameTurn(p: seq<ToolInterval>, q: seq<ToolInterval>, ops: set<ToolInterval>) {
    forall a, b :: Overlap(ops, a, b) && Then(p, a, b) ==> Then(q, a, b)
  }

  lemma {:induction false} SameOrder(p: seq<ToolInterval>, q: seq<ToolInterval>, ops: set<ToolInterval>)
    requires UniqueIds(ops) && Linearization(p, ops) && Linearization(q, ops) && SameTurn(p, q, ops)
    ensures p == q
    decreases |p|
  {
    LinearizationLength(p, ops);
    LinearizationLength(q, ops);
    if p != [] {
      SameFirst(p, q, ops);
      assert p == [p[0]] + p[1..] && q == [q[0]] + q[1..];
      LinearizationCons(p[0], p[1..], ops);
      LinearizationCons(q[0], q[1..], ops);
      SameTurnTail(p, q, ops);
      SameOrder(p[1..], q[1..], ops - {p[0]});
    }
  }

  lemma SameFirst(p: seq<ToolInterval>, q: seq<ToolInterval>, ops: set<ToolInterval>)
    requires UniqueIds(ops) && Linearization(p, ops) && Linearization(q, ops) && SameTurn(p, q, ops) && p != [] && q != []
    ensures p[0] == q[0]
  {
    var a, b := p[0], q[0];
    assert a in p && b in q && a in q && b in p;
    if a != b {
      var i: nat :| i < |p| && p[i] == b;
      var j: nat :| j < |q| && q[j] == a;
      assert Then(p, a, b) && Then(q, b, a);
      assert Overlap(ops, a, b);
      EitherWay(q, ops, a, b);
    }
  }

  lemma SameTurnTail(p: seq<ToolInterval>, q: seq<ToolInterval>, ops: set<ToolInterval>)
    requires SameTurn(p, q, ops) && p != [] && q != [] && p[0] == q[0] && Distinct(p) && Distinct(q)
    ensures SameTurn(p[1..], q[1..], ops - {p[0]})
  {
    forall a, b | Overlap(ops - {p[0]}, a, b) && Then(p[1..], a, b) ensures Then(q[1..], a, b) {
      var i, j := PlacesInOrder(p[1..], a, b);
      assert p[i + 1] == a && p[j + 1] == b;
      assert Overlap(ops, a, b) && Then(p, a, b);
      var k, l := PlacesInOrder(q, a, b);
      assert q[1..][k - 1] == a && q[1..][l - 1] == b;
    }
  }

  /** With one overlapping pair there are two orders at most. */
  lemma TwoOrders(p: seq<ToolInterval>, q: seq<ToolInterval>, w: seq<ToolInterval>, ops: set<ToolInterval>)
    requires UniqueIds(ops) && OnePairOverlaps(ops)
    requires Linearization(p, ops) && Linearization(q, ops) && Linearization(w, ops)
    ensures p == q || w == q || p == w
  {
    if !SameTurn(p, q, ops) && !SameTurn(w, q, ops) {
      var a, b := Turned(p, q, ops);
      var c, d := Turned(w, q, ops);
      EitherWay(q, ops, a, b);
      PairIsThePair(ops, a, b, c, d);
      OneTurn(p, w, ops, a, b);
      SameOrder(p, w, ops);
    } else if SameTurn(p, q, ops) {
      SameOrder(p, q, ops);
    } else {
      SameOrder(w, q, ops);
    }
  }

  lemma Turned(p: seq<ToolInterval>, q: seq<ToolInterval>, ops: set<ToolInterval>) returns (a: ToolInterval, b: ToolInterval)
    requires Linearization(q, ops) && !SameTurn(p, q, ops)
    ensures Overlap(ops, a, b) && Then(p, a, b) && Then(q, b, a)
  {
    a, b :| Overlap(ops, a, b) && Then(p, a, b) && !Then(q, a, b);
    EitherWay(q, ops, a, b);
  }

  lemma PairIsThePair(ops: set<ToolInterval>, a: ToolInterval, b: ToolInterval, c: ToolInterval, d: ToolInterval)
    requires OnePairOverlaps(ops) && Overlap(ops, a, b) && Overlap(ops, c, d)
    ensures (a == c && b == d) || (a == d && b == c)
  {
    assert {a, b} == {c, d};
    assert a in {c, d} && b in {c, d} && c in {a, b} && d in {a, b};
  }

  lemma OneTurn(p: seq<ToolInterval>, w: seq<ToolInterval>, ops: set<ToolInterval>, a: ToolInterval, b: ToolInterval)
    requires OnePairOverlaps(ops) && Overlap(ops, a, b) && Then(p, a, b) && Then(w, a, b) && Linearization(p, ops)
    ensures SameTurn(p, w, ops)
  {
    forall c, d | Overlap(ops, c, d) && Then(p, c, d) ensures Then(w, c, d) {
      assert {a, b} == {c, d};
      EitherWay(p, ops, a, b);
    }
  }

  // ---------------------------------------------------------------- calls that change nothing

  lemma {:induction false} ReplacedLength(s: string, o: string, n: string)
    ensures |n| >= |o| && Count(s, o) > 0 ==> |ReplaceAll(s, o, n)| >= |s| + (|n| - |o|)
    ensures |n| <= |o| && Count(s, o) > 0 ==> |ReplaceAll(s, o, n)| <= |s| - (|o| - |n|)
    ensures Count(s, o) == 0 ==> ReplaceAll(s, o, n) == s
    decreases |s|
  {
    if o == "" {
      if s != "" { ReplacedLength(s[1..], o, n); }
    } else if Find(s, o).Some? {
      FindMeaning(s, o);
      ReplacedLength(s[Find(s, o).value + |o|..], o, n);
    }
  }

  /** An edit that leaves a content as it is replaces a text by itself. */
  lemma NothingReplaced(s: string, o: string, n: string)
    requires Count(s, o) > 0 && (ReplaceAll(s, o, n) == s || ReplaceFirst(s, o, n) == s)
    ensures o == n
  {
    ReplacedLength(s, o, n);
    var k := Find(s, o);
    FindMeaning(s, o);
    if o == "" {
      assert OccursAt("", s, 0);
    } else {
      assert k.Some?;
      var i := k.value;
      assert s[i..i + |o|] == o;
      if |n| == |o| {
        assert ReplaceAll(s, o, n)[i..i + |o|] == n;
        assert ReplaceFirst(s, o, n)[i..i + |o|] == n;
      }
    }
  }

  /** A call that leaves one content as it is writes that content, or leaves every file as it is. */
  lemma NoChange(a: ToolInterval, text: string)
    requires Apply(Some(text), a) == Some(text)
    ensures a.toolName == "write_file" || forall file: File :: file.Some? ==> Apply(file, a) == file
    ensures a.toolName == "write_file" ==> a.args.content == Some(text)
  {
    if a.toolName != "write_file" {
      var o, n := UnixNewlines(a.args.oldString.value), UnixNewlines(a.args.newString.value);
      if o != n { NothingReplaced(text, o, n); }
    }
  }

  // ---------------------------------------------------------------- three calls

  /** No call comes after the read, and at most one is over. */
  ghost predicate Few(ops: set<ToolInterval>, o: ReadObservation) {
    && (forall a :: a in ops ==> !IsLater(a, o))
    && forall a, b :: a in ops && b in ops && a != b ==> !IsOver(a, o) || !IsOver(b, o)
  }

  lemma AreFew(ops: set<ToolInterval>, o: ReadObservation)
    requires OnlyThree(ops, o)
    ensures Few(ops, o)
  {
    forall a | a in ops ensures !IsLater(a, o) { assert a !in After(ops, o); }
    forall a, b | a in ops && b in ops && a != b ensures !IsOver(a, o) || !IsOver(b, o) {
      if IsOver(a, o) && IsOver(b, o) { TwoElements(Before(ops, o), a, b); }
    }
  }

  ghost predicate OrderOf(p: seq<ToolInterval>, ops: set<ToolInterval>, x: ToolInterval, y: ToolInterval, z: ToolInterval) {
    p == [x, y, z] && ops == {x, y, z} && x != y && x != z && y != z
  }

  lemma ThreeInOrder(p: seq<ToolInterval>, ops: set<ToolInterval>) returns (x: ToolInterval, y: ToolInterval, z: ToolInterval)
    requires Linearization(p, ops) && |ops| == 3
    ensures OrderOf(p, ops, x, y, z)
  {
    LinearizationLength(p, ops);
    x, y, z := p[0], p[1], p[2];
    assert p == [x, y, z];
    assert x in p && y in p && z in p;
    assert p[0] != p[1] && p[0] != p[2] && p[1] != p[2];
    forall a | a in ops ensures a in {x, y, z} { assert a in p; }
  }

  /** The stages of an order of three calls. */
  lemma StagesOfThree(x: ToolInterval, y: ToolInterval, z: ToolInterval, ops: set<ToolInterval>, text: string)
    requires Completes([x, y, z], ops, None, text)
    ensures x.toolName == "write_file" && Run(None, [x, y, z][..1]) == Reached(x.args.content) && x.args.content.Some?
    ensures Run(None, [x, y, z][..2]) == Reached(Apply(x.args.content, y)) && Apply(x.args.content, y).Some?
    ensures Apply(Apply(x.args.content, y), z) == Some(text)
  {
    assert [x, y, z][..1] == [x] && [x, y, z][..2] == [x, y] && [x] + [y, z] == [x, y, z];
    RunOne(x);
    RunTwo(None, x, y);
    ConsRun(None, x, [y, z]);
    RunTwo(Apply(None, x), y, z);
  }

  /** A read that some stage of `p` shows is explained by the same stage of `w`, if only calls
      follow there that are not over. */
  lemma ShownWith(w: seq<ToolInterval>, p: seq<ToolInterval>, ops: set<ToolInterval>, o: ReadObservation, j: nat, k: nat)
    requires Few(ops, o) && Linearization(w, ops) && ShownAt(p, o, k) && j <= |w| && k <= |p|
    requires Run(None, w[..j]) == Run(None, p[..k]) && forall i :: j <= i < |w| ==> !IsOver(w[i], o)
    ensures Explains(w, o)
  {
    forall i | 0 <= i < j ensures !(o.end < w[i].start) { assert w[i] in w; }
    assert ShownAt(w, o, j);
  }

  lemma NotOverFirst(a: ToolInterval, b: ToolInterval, o: ReadObservation)
    requires KeyLess(a, b) && IsOver(b, o)
    ensures IsOver(a, o)
  {
  }

  /** The two orders differ in what comes after the first call. */
  lemma LaterTwoTurned(w: seq<ToolInterval>, p: seq<ToolInterval>, ops: set<ToolInterval>, o: ReadObservation, text: string,
                       x: ToolInterval, y: ToolInterval, z: ToolInterval, q: seq<ToolInterval>, other: string, k: nat)
    requires UniqueIds(ops) && Few(ops, o) && Rivals(w, p, ops, text) && OrderOf(p, ops, x, y, z) && w == [x, z, y]
    requires Completes(q, ops, None, other) && other != text && 1 <= k <= 2 && ShownAt(p, o, k)
    ensures Explains(w, o)
  {
    StagesOfThree(x, y, z, ops, text);
    StagesOfThree(x, z, y, ops, text);
    NotOverBehind(w, p, o, x, y, z, k, ops);
    if k == 1 {
      ShownWith(w, p, ops, o, 1, 1);
    } else {
      OtherFirst(w, p, q, ops, text, other, x, y, z);
      TurnedShows(w, p, ops, o, text, x, y, z, q[0]);
    }
  }

  lemma NotOverBehind(w: seq<ToolInterval>, p: seq<ToolInterval>, o: ReadObservation,
                      x: ToolInterval, y: ToolInterval, z: ToolInterval, k: nat, ops: set<ToolInterval>)
    requires UniqueIds(ops) && OrderOf(p, ops, x, y, z) && w == [x, z, y] && LexLe(w, p) && 1 <= k <= 2 && CanInsert(p, o, k)
    ensures !IsOver(y, o) && !IsOver(z, o)
  {
    assert p[2] == z;
    FirstLe(w, p);
    assert KeyLess(z, y);
    if IsOver(y, o) { NotOverFirst(z, y, o); }
  }

  /** An order of another content begins with another call. */
  lemma OtherFirst(w: seq<ToolInterval>, p: seq<ToolInterval>, q: seq<ToolInterval>, ops: set<ToolInterval>, text: string, other: string,
                   x: ToolInterval, y: ToolInterval, z: ToolInterval)
    requires Completes(w, ops, None, text) && Completes(p, ops, None, text) && OrderOf(p, ops, x, y, z) && w == [x, z, y]
    requires Completes(q, ops, None, other) && other != text
    ensures q != [] && (q[0] == y || q[0] == z) && q[0].toolName == "write_file"
  {
    LinearizationLength(p, ops);
    var a, b, c := ThreeInOrder(q, ops);
    StagesOfThree(a, b, c, ops, other);
    SameThree(p, q, ops, x, y, z, a, b, c);
  }

  lemma SameThree(p: seq<ToolInterval>, q: seq<ToolInterval>, ops: set<ToolInterval>, x: ToolInterval, y: ToolInterval, z: ToolInterval,
                  a: ToolInterval, b: ToolInterval, c: ToolInterval)
    requires OrderOf(p, ops, x, y, z) && OrderOf(q, ops, a, b, c)
    ensures a == x || a == y || a == z
    ensures a == x ==> q == p || q == [x, z, y]
  {
    assert a in {x, y, z} && b in {x, y, z} && c in {x, y, z};
  }

  lemma TurnedShows(w: seq<ToolInterval>, p: seq<ToolInterval>, ops: set<ToolInterval>, o: ReadObservation, text: string,
                    x: ToolInterval, y: ToolInterval, z: ToolInterval, a: ToolInterval)
    requires Few(ops, o) && Rivals(w, p, ops, text) && OrderOf(p, ops, x, y, z) && w == [x, z, y] && ShownAt(p, o, 2)
    requires !IsOver(y, o) && !IsOver(z, o) && (a == y || a == z) && a.toolName == "write_file"
    ensures Explains(w, o)
  {
    StagesOfThree(x, y, z, ops, text);
    StagesOfThree(x, z, y, ops, text);
    if a == z {
      NoChange(y, text);
      ShownWith(w, p, ops, o, if y.toolName == "write_file" then 2 else 1, 2);
    } else {
      assert w[..3] == w;
      ShownWith(w, p, ops, o, 3, 2);
    }
  }

  /** The recorded order begins with another call: both first calls are writes. */
  lemma FirstTurned(w: seq<ToolInterval>, p: seq<ToolInterval>, ops: set<ToolInterval>, o: ReadObservation, text: string,
                    x: ToolInterval, y: ToolInterval, z: ToolInterval, a: ToolInterval, b: ToolInterval, c: ToolInterval, k: nat)
    requires UniqueIds(ops) && Few(ops, o) && Rivals(w, p, ops, text) && OrderOf(p, ops, x, y, z) && OrderOf(w, ops, a, b, c)
    requires a != x && 1 <= k <= 2 && ShownAt(p, o, k)
    ensures Explains(w, o)
  {
    FirstNotOver(w, p, o, x, y, z, a, k);
    SameThree(p, w, ops, x, y, z, a, b, c);
    SameThree(w, p, ops, a, b, c, x, y, z);
    if a == y {
      SecondFirst(w, p, ops, o, text, x, y, z, k);
    } else {
      ThirdFirst(w, p, ops, o, text, x, y, z, k);
    }
  }

  lemma SecondFirst(w: seq<ToolInterval>, p: seq<ToolInterval>, ops: set<ToolInterval>, o: ReadObservation, text: string,
                    x: ToolInterval, y: ToolInterval, z: ToolInterval, k: nat)
    requires Few(ops, o) && Rivals(w, p, ops, text) && OrderOf(p, ops, x, y, z) && (w == [y, x, z] || w == [y, z, x])
    requires 1 <= k <= 2 && ShownAt(p, o, k) && !IsOver(x, o) && !IsOver(z, o)
    ensures Explains(w, o)
  {
    var j := SecondStage(w, p, ops, text, x, y, z, k);
    ShownWith(w, p, ops, o, j, k);
  }

  /** The stage of `w` that shows what `p` shows at index `k`. */
  lemma SecondStage(w: seq<ToolInterval>, p: seq<ToolInterval>, ops: set<ToolInterval>, text: string,
                    x: ToolInterval, y: ToolInterval, z: ToolInterval, k: nat) returns (j: nat)
    requires Completes(w, ops, None, text) && Completes(p, ops, None, text) && p == [x, y, z]
    requires (w == [y, x, z] || w == [y, z, x]) && 1 <= k <= 2
    ensures 1 <= j <= 3 && Run(None, w[..j]) == Run(None, p[..k])
  {
    StagesOfThree(x, y, z, ops, text);
    StagesOfThree(w[0], w[1], w[2], ops, text);
    assert w[..3] == w;
    j := if k == 2 then 1 else if w == [y, x, z] then 2 else 3;
  }

  lemma ThirdFirst(w: seq<ToolInterval>, p: seq<ToolInterval>, ops: set<ToolInterval>, o: ReadObservation, text: string,
                   x: ToolInterval, y: ToolInterval, z: ToolInterval, k: nat)
    requires Few(ops, o) && Rivals(w, p, ops, text) && OrderOf(p, ops, x, y, z) && (w == [z, x, y] || w == [z, y, x])
    requires 1 <= k <= 2 && ShownAt(p, o, k) && !IsOver(x, o) && (k == 1 ==> !IsOver(y, o))
    ensures Explains(w, o)
  {
    var j := ThirdStage(w, p, ops, text, x, y, z, k);
    ShownWith(w, p, ops, o, j, k);
  }

  lemma ThirdStage(w: seq<ToolInterval>, p: seq<ToolInterval>, ops: set<ToolInterval>, text: string,
                   x: ToolInterval, y: ToolInterval, z: ToolInterval, k: nat) returns (j: nat)
    requires Completes(w, ops, None, text) && Completes(p, ops, None, text) && p == [x, y, z]
    requires (w == [z, x, y] || w == [z, y, x]) && 1 <= k <= 2
    ensures 2 <= j <= 3 && (j == 2 ==> w[2] == if k == 1 then y else x) && Run(None, w[..j]) == Run(None, p[..k])
  {
    StagesOfThree(x, y, z, ops, text);
    StagesOfThree(w[0], w[1], w[2], ops, text);
    assert w[..3] == w;
    j := if (w == [z, x, y]) == (k == 1) then 2 else 3;
  }

  /** Then `x` is not over if the recorded order leaves it behind. */
  lemma FirstNotOver(w: seq<ToolInterval>, p: seq<ToolInterval>, o: ReadObservation,
                     x: ToolInterval, y: ToolInterval, z: ToolInterval, a: ToolInterval, k: nat)
    requires p == [x, y, z] && |w| == 3 && w[0] == a && a != x && LexLe(w, p) && CanInsert(p, o, k) && 1 <= k <= 2
    ensures IsOver(x, o) ==> IsOver(a, o)
    ensures !IsOver(z, o) && (k == 1 ==> !IsOver(y, o))
  {
    FirstLe(w, p);
    assert p[2] == z && p[1] == y;
    if IsOver(x, o) { NotOverFirst(a, x, o); }
  }

  lemma ThreeShow(w: seq<ToolInterval>, p: seq<ToolInterval>, q: seq<ToolInterval>, ops: set<ToolInterval>, o: ReadObservation,
                  text: string, other: string)
    requires UniqueIds(ops) && |ops| == 3 && Few(ops, o) && IsWitness(w, ops, None, text)
    requires Completes(p, ops, None, text) && Explains(p, o) && Completes(q, ops, None, other) && other != text
    ensures Explains(w, o)
  {
    AreRivals(w, p, ops, text);
    var k: nat :| ShownAt(p, o, k);
    ShownLater(p, o, k);
    var x, y, z := ThreeInOrder(p, ops);
    var a, b, c := ThreeInOrder(w, ops);
    if k == 3 {
      AtTheEnd(w, p, ops, o, text);
    } else if a != x {
      FirstTurned(w, p, ops, o, text, x, y, z, a, b, c, k);
    } else if b == y {
      assert w == p;
    } else {
      assert w == [x, z, y];
      LaterTwoTurned(w, p, ops, o, text, x, y, z, q, other, k);
    }
  }

  // ---------------------------------------------------------------- together

  /** Where each read is decided by the intervals, or lies apart from all calls, or there are
      too few orders, no content that some order explains is lost. */
  lemma NothingLostFor(ops: set<ToolInterval>, observations: seq<ReadObservation>)
    requires UniqueIds(ops) && WellTimed(ops)
    requires forall i :: 0 <= i < |observations| ==> observations[i].start <= observations[i].end
    requires forall i :: 0 <= i < |observations| ==> Harmless(ops, observations[i]) || Apart(ops, observations[i])
    ensures NothingLost(ops, observations)
  {
    forall text | Explained(ops, observations, text) ensures text in Survivors(ops, observations) {
      var p :| Completes(p, ops, None, text) && Fits(p, observations);
      OutcomesMeaning(text, ops, None);
      var w := WitnessExists(ops, None, text);
      FitIsWitnessFit(w, ops, observations, text);
      if |Outcomes(ops, None)| > 1 {
        assert Outcomes(ops, None) != {text};
        var q, other := AnotherContent(ops, text);
        forall i | 0 <= i < |observations| ensures Explains(w, observations[i]) {
          if Harmless(ops, observations[i]) {
            HarmlessShows(w, p, q, ops, observations[i], text, other);
          } else {
            ApartShows(w, p, ops, observations[i]);
          }
        }
      }
    }
  }

  lemma HarmlessShows(w: seq<ToolInterval>, p: seq<ToolInterval>, q: seq<ToolInterval>, ops: set<ToolInterval>, o: ReadObservation,
                      text: string, other: string)
    requires Timed(ops, o) && Harmless(ops, o) && IsWitness(w, ops, None, text)
    requires Completes(p, ops, None, text) && Explains(p, o) && Completes(q, ops, None, other) && other != text
    ensures Explains(w, o)
  {
    if Decided(ops, o) {
      DecidedShows(w, p, ops, o, text);
    } else if OnePairOverlaps(ops) {
      TwoOrders(p, q, w, ops);
    } else {
      AreFew(ops, o);
      ThreeShow(w, p, q, ops, o, text, other);
    }
  }
}
