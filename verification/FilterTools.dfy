/** Building orders out of sorted pieces, and calls on a file of one line: what the traces on
    which the recovery loses a content are made of. */
module FilterTools {
  import opened Wrappers
  import opened Text
  import opened Intervals
  import opened Replay
  import opened Observations
  import opened Recovery
  import opened Confluence
  import opened EditsApart
  import opened LineEndings
  import opened FilterShape

  ghost predicate Timed(ops: set<ToolInterval>, o: ReadObservation) {
    UniqueIds(ops) && WellTimed(ops) && o.start <= o.end
  }

  /** Over before the read starts, and not started before it ends. */
  predicate IsOver(a: ToolInterval, o: ReadObservation) {
    a.end < o.start
  }

  predicate IsLater(a: ToolInterval, o: ReadObservation) {
    o.end < a.start
  }

  /** What has to come before `g`, and `g`. */
  function Down(ops: set<ToolInterval>, g: ToolInterval): set<ToolInterval> {
    set b | b in ops && (b == g || MustPrecede(b, g))
  }

  lemma DownOf(ops: set<ToolInterval>, g: ToolInterval)
    requires UniqueIds(ops) && WellTimed(ops) && g in ops
    ensures g in Down(ops, g) && Down(ops, g) <= ops && Downward(Down(ops, g), ops - Down(ops, g))
  {
    forall x, y | x in Down(ops, g) && y in ops - Down(ops, g) ensures !MustPrecede(y, x) {
      if MustPrecede(y, x) && x != g { assert MustPrecede(y, g); }
    }
  }

  /** Closed parts have closed unions. */
  lemma UnionDownward(one: set<ToolInterval>, two: set<ToolInterval>, ops: set<ToolInterval>)
    requires Downward(one, ops - one) && Downward(two, ops - two)
    ensures Downward(one + two, ops - (one + two))
  {
  }

  lemma BeforeDownward(ops: set<ToolInterval>, o: ReadObservation)
    requires WellTimed(ops)
    ensures Downward(Before(ops, o), ops - Before(ops, o))
  {
  }

  lemma InsideDownward(first: set<ToolInterval>, second: set<ToolInterval>, ops: set<ToolInterval>)
    requires Downward(first, ops - first) && second <= ops
    ensures Downward(first, second - first)
  {
  }

  // ---------------------------------------------------------------- orders from pieces

  /** `first` is closed under "ended before started" in the union. */
  ghost predicate Downward(first: set<ToolInterval>, rest: set<ToolInterval>) {
    forall a, b :: a in first && b in rest ==> !MustPrecede(b, a)
  }

  lemma Concatenated(s: seq<ToolInterval>, first: set<ToolInterval>, t: seq<ToolInterval>, rest: set<ToolInterval>)
    requires Linearization(s, first) && Linearization(t, rest) && first !! rest && Downward(first, rest)
    ensures Linearization(s + t, first + rest)
  {
    var order := s + t;
    forall i | 0 <= i < |order|
      ensures if i < |s| then order[i] in first else order[i] in rest
    {
      if i < |s| { assert order[i] in s; } else { assert order[i] == t[i - |s|] && order[i] in t; }
    }
    forall i, j | 0 <= i < j < |order| ensures order[i] != order[j] && !MustPrecede(order[j], order[i]) {
      if i >= |s| { assert order[i] == t[i - |s|] && order[j] == t[j - |s|]; }
    }
  }

  lemma One(a: ToolInterval)
    ensures Linearization([a], {a})
  {
  }

  lemma SortedLinear(s: seq<ToolInterval>, ops: set<ToolInterval>)
    requires WellTimed(ops) && SortedByKey(s) && forall a :: a in s <==> a in ops
    ensures Linearization(s, ops)
  {
    forall i, j | 0 <= i < j < |s| ensures s[i] != s[j] && !MustPrecede(s[j], s[i]) {
      assert s[i] in s && s[j] in s;
      KeyLessTotal(s[i], s[j]);
    }
  }

  /** The calls by sort key: always a linearization. */
  lemma {:induction false} ByKey(ops: set<ToolInterval>) returns (s: seq<ToolInterval>)
    requires UniqueIds(ops) && WellTimed(ops)
    ensures SortedByKey(s) && Linearization(s, ops)
    decreases ops
  {
    if ops == {} {
      s := [];
    } else {
      var a := KeyMin(ops);
      var t := ByKey(ops - {a});
      s := [a] + t;
      forall j | 0 <= j < |t| ensures KeyLess(a, t[j]) { assert t[j] in t; }
      SortedLinear(s, ops);
    }
  }

  /** It is the first of all linearizations. */
  lemma {:induction false} ByKeyFirst(s: seq<ToolInterval>, t: seq<ToolInterval>, ops: set<ToolInterval>)
    requires UniqueIds(ops) && SortedByKey(s) && Linearization(s, ops) && Linearization(t, ops)
    ensures LexLe(s, t)
    decreases |s|
  {
    LinearizationLength(s, ops);
    LinearizationLength(t, ops);
    if s != [] {
      assert s == [s[0]] + s[1..] && t == [t[0]] + t[1..];
      LinearizationCons(s[0], s[1..], ops);
      LinearizationCons(t[0], t[1..], ops);
      assert t[0] in s;
      if t[0] == s[0] { ByKeyFirst(s[1..], t[1..], ops - {s[0]}); }
    }
  }

  /** Put `f` first and the others by key: the recorded order of `text`, if it ends in
      `text` and no order that begins with a smaller key does. */
  lemma FrontRecorded(f: ToolInterval, s: seq<ToolInterval>, ops: set<ToolInterval>, text: string)
    requires UniqueIds(ops) && SortedByKey(s) && Linearization(s, ops - {f}) && Completes([f] + s, ops, None, text)
    requires forall p :: Completes(p, ops, None, text) && p != [] ==> p[0] == f || KeyLess(f, p[0])
    ensures IsWitness([f] + s, ops, None, text)
  {
    var w := [f] + s;
    LinearizationLength(w, ops);
    forall p | Completes(p, ops, None, text) ensures LexLe(w, p) {
      LinearizationLength(p, ops);
      assert w[1..] == s && p == [p[0]] + p[1..];
      if p[0] == f {
        LinearizationCons(f, p[1..], ops);
        ByKeyFirst(s, p[1..], ops - {f});
      }
    }
  }

  /** First `f`, then the rest of a closed part by key, then all others by key. */
  lemma Staged(f: ToolInterval, first: set<ToolInterval>, ops: set<ToolInterval>)
    returns (front: seq<ToolInterval>, rest: seq<ToolInterval>)
    requires UniqueIds(ops) && WellTimed(ops) && first <= ops && Ready(f, first) && Downward(first, ops - first)
    ensures front != [] && front[0] == f && SortedByKey(front[1..]) && Linearization(front, first)
    ensures SortedByKey(rest) && Linearization(rest, ops - first)
    ensures Linearization(front + rest, ops)
  {
    var head := ByKey(first - {f});
    LinearizationCons(f, head, first);
    front := [f] + head;
    assert front[1..] == head;
    rest := ByKey(ops - first);
    Concatenated(front, first, rest, ops - first);
    assert first + (ops - first) == ops;
  }

  /** The same with two closed parts, one inside the other. */
  lemma StagedTwice(f: ToolInterval, first: set<ToolInterval>, second: set<ToolInterval>, ops: set<ToolInterval>)
    returns (front: seq<ToolInterval>, mid: seq<ToolInterval>, rest: seq<ToolInterval>)
    requires UniqueIds(ops) && WellTimed(ops) && first <= second && second <= ops && Ready(f, first)
    requires Downward(first, second - first) && Downward(second, ops - second)
    ensures front != [] && front[0] == f && Linearization(front, first)
    ensures Linearization(mid, second - first) && Linearization(front + mid, second)
    ensures SortedByKey(front[1..]) && SortedByKey(mid) && SortedByKey(rest)
    ensures Linearization(rest, ops - second) && Linearization((front + mid) + rest, ops)
  {
    front, mid := Staged(f, first, second);
    rest := ByKey(ops - second);
    Concatenated(front + mid, second, rest, ops - second);
    assert second + (ops - second) == ops;
  }

  /** And with three. */
  lemma StagedThrice(f: ToolInterval, first: set<ToolInterval>, second: set<ToolInterval>, third: set<ToolInterval>,
                     ops: set<ToolInterval>)
    returns (a: seq<ToolInterval>, b: seq<ToolInterval>, c: seq<ToolInterval>, rest: seq<ToolInterval>)
    requires UniqueIds(ops) && WellTimed(ops) && first <= second <= third <= ops && Ready(f, first)
    requires Downward(first, second - first) && Downward(second, third - second) && Downward(third, ops - third)
    ensures a != [] && a[0] == f && Linearization(a, first)
    ensures Linearization(b, second - first) && Linearization(c, third - second) && Linearization(a + b + c, third)
    ensures Linearization(rest, ops - third) && Linearization((a + b + c) + rest, ops)
  {
    a, b, c := StagedTwice(f, first, second, third);
    rest := ByKey(ops - third);
    Concatenated((a + b) + c, third, rest, ops - third);
    assert third + (ops - third) == ops;
  }

  lemma ReadyPair(ops: set<ToolInterval>, p: ToolInterval, q: ToolInterval)
    requires Ready(p, ops) && Ready(q, ops)
    ensures {q, p} <= ops && Ready(q, {q, p}) && Downward({q, p}, ops - {q, p})
  {
  }

  // ---------------------------------------------------------------- places in an order

  /** `a` somewhere before `b`. */
  ghost predicate Then(p: seq<ToolInterval>, a: ToolInterval, b: ToolInterval) {
    exists i, j :: 0 <= i < j < |p| && p[i] == a && p[j] == b
  }

  lemma PlacesInOrder(w: seq<ToolInterval>, a: ToolInterval, b: ToolInterval) returns (i: nat, j: nat)
    requires Then(w, a, b)
    ensures i < j < |w| && w[i] == a && w[j] == b
  {
    i, j :| i < j < |w| && w[i] == a && w[j] == b;
  }

  lemma EitherWay(p: seq<ToolInterval>, ops: set<ToolInterval>, a: ToolInterval, b: ToolInterval)
    requires Linearization(p, ops) && a in ops && b in ops && a != b
    ensures Then(p, a, b) || Then(p, b, a)
    ensures !(Then(p, a, b) && Then(p, b, a))
  {
    assert a in p && b in p;
    var i: nat :| i < |p| && p[i] == a;
    var j: nat :| j < |p| && p[j] == b;
    assert i < j || j < i;
  }

  lemma SamePlace(w: seq<ToolInterval>, i: nat, j: nat)
    requires Distinct(w) && i < |w| && j < |w| && w[i] == w[j]
    ensures i == j
  {
  }

  lemma PartOf(w: seq<ToolInterval>, ops: set<ToolInterval>, k: nat)
    requires Linearization(w, ops) && k <= |w|
    ensures Distinct(w[..k]) && forall c :: c in w[..k] ==> c in ops
  {
    forall c | c in w[..k] ensures c in ops {
      var n :| 0 <= n < k && w[..k][n] == c;
      assert w[n] in w;
    }
  }

  /** The call with the greatest key ends an order by key. */
  lemma GreatestLast(s: seq<ToolInterval>, ops: set<ToolInterval>, z: ToolInterval)
    requires SortedByKey(s) && Linearization(s, ops) && z in ops && forall b :: b in ops && b != z ==> KeyLess(b, z)
    ensures s != [] && s[|s| - 1] == z
  {
    assert z in s;
    var i :| 0 <= i < |s| && s[i] == z;
    if i < |s| - 1 {
      assert s[|s| - 1] in s;
      KeyLessTotal(s[i], s[|s| - 1]);
    }
  }

  /** The recovery has several contents to choose from, and drops one that some order
      explains the read with: its recorded order does not. */
  lemma Lost(w: seq<ToolInterval>, p: seq<ToolInterval>, q: seq<ToolInterval>, ops: set<ToolInterval>, o: ReadObservation,
             text: string, other: string)
    requires IsWitness(w, ops, None, text) && !Explains(w, o)
    requires Completes(p, ops, None, text) && Explains(p, o)
    requires Completes(q, ops, None, other) && other != text
    ensures Explained(ops, [o], text) && text !in Survivors(ops, [o])
  {
    OutcomesMeaning(text, ops, None);
    OutcomesMeaning(other, ops, None);
    TwoElements(Outcomes(ops, None), text, other);
    assert [o][0] == o;
    assert Fits(p, [o]) && !Fits(w, [o]);
    FitIsWitnessFit(w, ops, [o], text);
  }

  /** For some line, the recovery drops a content although an order that explains the read
      ends in it. */
  ghost predicate Loses(ops: set<ToolInterval>, o: ReadObservation) {
    exists line, text :: Explained(ops, [OneLine(o, line)], text) && text !in Survivors(ops, [OneLine(o, line)])
  }

  /** `first` lists the calls of a closed part, which holds all calls that are over and none
      that comes after the read: the read may fall right behind it. */
  lemma RoomBehind(s: seq<ToolInterval>, first: set<ToolInterval>, t: seq<ToolInterval>, rest: set<ToolInterval>,
                   o: ReadObservation)
    requires Linearization(s, first) && Linearization(t, rest)
    requires (forall a :: a in first ==> !IsLater(a, o)) && (forall a :: a in rest ==> !IsOver(a, o))
    ensures CanInsert(s + t, o, |s|)
  {
    var p := s + t;
    forall i | 0 <= i < |s| ensures !(o.end < p[i].start) { assert p[i] == s[i] && s[i] in s; }
    forall i | |s| <= i < |p| ensures !(p[i].end < o.start) { assert p[i] == t[i - |s|] && t[i - |s|] in t; }
  }

  lemma AroundOne(s: seq<ToolInterval>, ops: set<ToolInterval>, j: nat)
    requires Distinct(s) && j < |s| && forall b :: b in s ==> b in ops
    ensures s == (s[..j] + [s[j]]) + s[j + 1..]
    ensures Distinct(s[..j]) && forall b :: b in s[..j] ==> b in ops && b != s[j]
    ensures forall b :: b in s[j + 1..] ==> b in ops && b != s[j]
  {
    forall b | b in s[j + 1..] ensures b in ops && b != s[j] {
      var n :| 0 <= n < |s| - j - 1 && s[j + 1..][n] == b;
      assert b == s[n + j + 1] && b in s;
    }
    forall b | b in s[..j] ensures b in ops && b != s[j] {
      var n :| 0 <= n < j && s[..j][n] == b;
      assert b == s[n] && b in s;
    }
  }

  // ---------------------------------------------------------------- calls on one line of text

  ghost predicate IsWrite(a: ToolInterval, text: string) {
    a.toolName == "write_file" && a.args.content == Some(text)
  }

  ghost predicate IsEdit(a: ToolInterval, old_: string, new_: string, all: bool) {
    a.toolName != "write_file" && a.args.oldString == Some(old_) && a.args.newString == Some(new_) && a.args.replaceAll == all
  }

  /** Replaces one character where it occurs once. */
  ghost predicate IsSwap(a: ToolInterval, from: char, to: char) {
    IsEdit(a, [from], [to], false)
  }

  /** Changes nothing. */
  ghost predicate IsKeep(a: ToolInterval) {
    IsSwap(a, '~', '~')
  }

  lemma KeepApplied(a: ToolInterval, file: File)
    requires IsKeep(a)
    ensures Apply(file, a) == file
  {
  }

  lemma UnixSame(s: string)
    requires BreakFree(s)
    ensures UnixNewlines(s) == s
  {
    NormalForm(s);
  }

  /** An edit of a line: all occurrences of the old text, if there is one, or several and the
      edit may replace them all. */
  lemma EditApplied(a: ToolInterval, s: string, old_: string, new_: string, all: bool)
    requires IsEdit(a, old_, new_, all) && BreakFree(old_) && BreakFree(new_) && old_ != new_
    ensures Apply(Some(s), a) == if Count(s, old_) == 0 || (Count(s, old_) > 1 && !all) then None
                                 else Some(ReplaceAll(s, old_, new_))
  {
    UnixSame(old_);
    UnixSame(new_);
    if Count(s, old_) == 1 { UniqueOccurrenceReplace(s, old_, new_); }
  }

  lemma FindFirst(c: char, s: string, from: char)
    ensures Find([c] + s, [from]) == if c == from then Some(0)
                                     else if Find(s, [from]).Some? then Some(1 + Find(s, [from]).value) else None
  {
    var t := [c] + s;
    FindMeaning(t, [from]);
    FindMeaning(s, [from]);
    assert t[0..1] == [c];
    assert OccursAt([from], t, 0) <==> c == from;
    forall k: nat ensures OccursAt([from], t, k + 1) <==> OccursAt([from], s, k) {
      if k + 1 <= |s| { assert t[k + 1..k + 2] == s[k..k + 1]; }
    }
    if Find(t, [from]).Some? && Find(t, [from]).value > 0 { assert OccursAt([from], s, Find(t, [from]).value - 1); }
    if Find(s, [from]).Some? { assert OccursAt([from], t, Find(s, [from]).value + 1); }
  }

  /** Counting and replacing one character, from the front. */
  lemma ReplaceFront(c: char, s: string, from: char, new_: string)
    ensures Count([c] + s, [from]) == (if c == from then 1 else 0) + Count(s, [from])
    ensures ReplaceAll([c] + s, [from], new_) == (if c == from then new_ else [c]) + ReplaceAll(s, [from], new_)
  {
    if c == from {
      ReplaceHere(s, from, new_);
    } else if Find(s, [from]).Some? {
      ReplaceLater(c, s, from, new_, Find(s, [from]).value);
    } else {
      FindFirst(c, s, from);
      NothingFound(s, [from], new_);
      NothingFound([c] + s, [from], new_);
    }
  }

  lemma ReplaceHere(s: string, c: char, new_: string)
    ensures Count([c] + s, [c]) == 1 + Count(s, [c])
    ensures ReplaceAll([c] + s, [c], new_) == new_ + ReplaceAll(s, [c], new_)
  {
    FindFirst(c, s, c);
    assert ([c] + s)[1..] == s;
    CountFound([c] + s, [c], 0, s);
    ReplaceFound([c] + s, [c], new_, 0, "", s);
    assert "" + new_ == new_;
  }

  lemma ReplaceLater(c: char, s: string, from: char, new_: string, k: nat)
    requires c != from && Find(s, [from]) == Some(k)
    ensures Count([c] + s, [from]) == Count(s, [from])
    ensures ReplaceAll([c] + s, [from], new_) == [c] + ReplaceAll(s, [from], new_)
  {
    FindFirst(c, s, from);
    var t := [c] + s;
    assert t[..k + 1] == [c] + s[..k] && t[k + 2..] == s[k + 1..];
    SameRest(t, k + 1, s, k, [from]);
    ReplaceBehind(t, k + 1, [c], s, k, [from], new_);
  }

  lemma ReplaceNothing(from: char, new_: string)
    ensures Count("", [from]) == 0 && ReplaceAll("", [from], new_) == ""
  {
    FindMeaning("", [from]);
    NothingFound("", [from], new_);
  }

  // ---------------------------------------------------------------- one line stays one line

  lemma {:induction false} ReplacedBreakFree(s: string, old_: string, new_: string)
    requires BreakFree(s) && BreakFree(new_)
    ensures BreakFree(ReplaceAll(s, old_, new_))
    decreases |s|
  {
    if old_ == "" {
      if s != "" { ReplacedBreakFree(s[1..], old_, new_); }
    } else {
      var k := Find(s, old_);
      if k.Some? { ReplacedBreakFree(s[k.value + |old_|..], old_, new_); }
    }
  }

  /** From a file of one line, the call leads to a file of one line. */
  ghost predicate Tame(a: ToolInterval) {
    forall file: File :: Apply(file, a).Some? && (file.Some? ==> BreakFree(file.value)) ==> BreakFree(Apply(file, a).value)
  }

  lemma WriteTame(a: ToolInterval, text: string)
    requires IsWrite(a, text) && BreakFree(text)
    ensures Tame(a)
  {
  }

  lemma EditTame(a: ToolInterval, old_: string, new_: string, all: bool)
    requires IsEdit(a, old_, new_, all) && BreakFree(old_) && BreakFree(new_)
    ensures Tame(a)
  {
    forall file: File | Apply(file, a).Some? && (file.Some? ==> BreakFree(file.value)) ensures BreakFree(Apply(file, a).value) {
      UnixSame(old_);
      UnixSame(new_);
      if old_ != new_ {
        EditApplied(a, file.value, old_, new_, all);
        ReplacedBreakFree(file.value, old_, new_);
      }
    }
  }

  lemma {:induction false} TameRun(file: File, s: seq<ToolInterval>)
    requires (file.Some? ==> BreakFree(file.value)) && forall a :: a in s ==> Tame(a)
    ensures Run(file, s).Reached? && Run(file, s).file.Some? ==> BreakFree(Run(file, s).file.value)
    decreases |s|
  {
    if s != [] && Apply(file, s[0]).Some? {
      assert s[0] in s;
      TameRun(Apply(file, s[0]), s[1..]);
    }
  }

  /** A read of one line. */
  function OneLine(o: ReadObservation, line: string): ReadObservation {
    o.(lines := map[1 := line])
  }

  lemma ShowsLine(text: string, line: string)
    requires BreakFree(text) && line != ""
    ensures MatchesObservation(text, map[1 := line]) <==> text == line
  {
    assert 1 in (map[1 := line]).Keys;
    if text != "" { SplitLinesSingle(text); }
  }

  lemma NotShownAt(p: seq<ToolInterval>, o: ReadObservation, line: string, k: nat)
    requires k <= |p| && line != "" && forall a :: a in p ==> Tame(a)
    requires Run(None, p[..k]) != Reached(Some(line))
    ensures !ShownAt(p, OneLine(o, line), k)
  {
    TameRun(None, p[..k]);
    if Run(None, p[..k]).Reached? && Run(None, p[..k]).file.Some? { ShowsLine(Run(None, p[..k]).file.value, line); }
  }

  lemma IsShownAt(p: seq<ToolInterval>, o: ReadObservation, line: string, k: nat)
    requires BreakFree(line) && line != "" && CanInsert(p, o, k) && Run(None, p[..k]) == Reached(Some(line))
    ensures Explains(p, OneLine(o, line))
  {
    ShowsLine(line, line);
    assert ShownAt(p, OneLine(o, line), k);
  }

  // ---------------------------------------------------------------- runs

  ghost predicate Makes(a: ToolInterval, text: string) {
    exists file: File :: file != Some(text) && Apply(file, a) == Some(text)
  }

  /** A content that no call makes is not there in the end. */
  lemma {:induction false} NeverMade(file: File, s: seq<ToolInterval>, text: string)
    requires file != Some(text) && forall a :: a in s ==> !Makes(a, text)
    ensures Run(file, s) != Reached(Some(text))
    decreases |s|
  {
    if s != [] && Apply(file, s[0]).Some? {
      assert s[0] in s;
      NeverMade(Apply(file, s[0]), s[1..], text);
    }
  }

  lemma {:induction false} KeepsRun(file: File, s: seq<ToolInterval>)
    requires file.Some? && forall a :: a in s ==> IsKeep(a)
    ensures Run(file, s) == Reached(file)
    decreases |s|
  {
    if s != [] {
      assert s[0] in s;
      KeepApplied(s[0], file);
      KeepsRun(file, s[1..]);
    }
  }

  lemma RunSnoc(file: File, s: seq<ToolInterval>, a: ToolInterval)
    ensures Run(file, s + [a]) == if Run(file, s).Broken? || Apply(Run(file, s).file, a).None? then Broken
                                  else Reached(Apply(Run(file, s).file, a))
  {
    RunConcat(file, s, [a]);
    if Run(file, s).Reached? { ConsRun(Run(file, s).file, a, []); }
    assert [a] + [] == [a];
  }

  /** One call changes the file, all others keep it. */
  lemma {:induction false} OneActs(file: File, s: seq<ToolInterval>, a: ToolInterval)
    requires file.Some? && Distinct(s) && a in s && forall b :: b in s && b != a ==> IsKeep(b)
    ensures Run(file, s) == if Apply(file, a).None? then Broken else Reached(Apply(file, a))
    decreases |s|
  {
    var b, t := s[0], s[1..];
    assert s == [b] + t;
    assert b in s && b !in t;
    forall c | c in t ensures c in s && c != b { }
    if b == a {
      if Apply(file, a).Some? { KeepsRun(Apply(file, a), t); }
    } else {
      KeepApplied(b, file);
      OneActs(file, t, a);
    }
  }

  /** A swap leaves its new character behind. */
  lemma SwapMakes(a: ToolInterval, from: char, to: char, text: string)
    requires IsSwap(a, from, to) && BreakFree([from]) && BreakFree([to]) && from != to && to !in text
    ensures !Makes(a, text)
  {
    UnixSame([from]);
    UnixSame([to]);
    forall file: File | file != Some(text) ensures Apply(file, a) != Some(text) {
      if file.Some? { LeavesBehind(file.value, from, to); }
    }
  }

  lemma LeavesBehind(s: string, from: char, to: char)
    ensures Count(s, [from]) > 0 ==> to in ReplaceFirst(s, [from], [to])
  {
    var k := Find(s, [from]);
    if k.Some? { assert ReplaceFirst(s, [from], [to])[k.value] == to; }
  }

  lemma KeepMakes(a: ToolInterval, text: string)
    requires IsKeep(a)
    ensures !Makes(a, text)
  {
    forall file: File ensures Apply(file, a) == file { KeepApplied(a, file); }
  }

  lemma WriteMakes(a: ToolInterval, one: string, text: string)
    requires IsWrite(a, one) && one != text
    ensures !Makes(a, text)
  {
  }

  ghost predicate OnlyMaker(ops: set<ToolInterval>, a: ToolInterval, text: string) {
    forall b :: b in ops && b != a ==> !Makes(b, text)
  }

  /** Without the one call that makes it, a content is never there. */
  lemma NotWithout(s: seq<ToolInterval>, ops: set<ToolInterval>, a: ToolInterval, text: string)
    requires OnlyMaker(ops, a, text) && a !in s && forall b :: b in s ==> b in ops
    ensures Run(None, s) != Reached(Some(text))
  {
    NeverMade(None, s, text);
  }

  /** After a later write of something else it is gone. */
  lemma LaterWins(s: seq<ToolInterval>, ops: set<ToolInterval>, a: ToolInterval, b: ToolInterval, other: string,
                  text: string, i: nat, j: nat)
    requires OnlyMaker(ops, a, text) && Distinct(s) && forall c :: c in s ==> c in ops
    requires i < j < |s| && s[i] == a && s[j] == b && IsWrite(b, other) && other != text
    ensures Run(None, s) != Reached(Some(text))
  {
    var pre, post := s[..j], s[j + 1..];
    assert s == (pre + [b]) + post;
    RunConcat(None, pre + [b], post);
    RunSnoc(None, pre, b);
    forall c | c in post ensures c in s && c != a {
      var n :| 0 <= n < |post| && post[n] == c;
      assert c == s[n + j + 1];
    }
    if Run(None, pre).Reached? { NeverMade(Some(other), post, text); }
  }
}
