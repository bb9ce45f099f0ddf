/** Families of intervals with calls whose traces are erased by a later edit: the contents
    before it tell the orders apart, the contents after it only some of them. */
module FilterErased {
  import opened Wrappers
  import opened Text
  import opened Intervals
  import opened Replay
  import opened Observations
  import opened Recovery
  import opened Confluence
  import opened FilterShape
  import opened FilterTools

  // ---------------------------------------------------------------- marks in front of a letter

  function Times(k: nat, mark: string): string {
    if k == 0 then "" else mark + Times(k - 1, mark)
  }

  /** Marks, a bar, and a letter. */
  function Marked(k: nat, letter: char): string {
    Times(k, "x") + "|" + [letter]
  }

  lemma {:induction false} TimesLength(k: nat, mark: string)
    requires mark == "x"
    ensures |Times(k, mark)| == k && forall i :: 0 <= i < k ==> Times(k, mark)[i] == 'x'
  {
    if k > 0 { TimesLength(k - 1, mark); }
  }

  lemma MarkedSame(k: nat, c: char, l: nat, d: char)
    ensures Marked(k, c) == Marked(l, d) <==> k == l && c == d
    ensures |Marked(k, c)| == k + 2
  {
    TimesLength(k, "x");
    TimesLength(l, "x");
    assert Marked(k, c)[k + 1] == c && Marked(l, d)[l + 1] == d;
  }

  lemma MarkedBreakFree(k: nat, c: char)
    requires BreakFree([c])
    ensures BreakFree(Marked(k, c))
  {
    TimesLength(k, "x");
    assert [c][0] == c;
  }

  /** Replacing the marks. */
  lemma {:induction false} ReplaceMarks(k: nat, c: char, new_: string)
    requires c != 'x'
    ensures Count(Marked(k, c), "x") == k
    ensures ReplaceAll(Marked(k, c), "x", new_) == Times(k, new_) + "|" + [c]
  {
    if k == 0 {
      ReplaceFront('|', [c], 'x', new_);
      ReplaceFront(c, "", 'x', new_);
      ReplaceNothing('x', new_);
      assert Marked(0, c) == ['|'] + [c] && [c] == [c] + "";
      assert "" + "|" + [c] == ['|'] + [c];
    } else {
      ReplaceMarks(k - 1, c, new_);
      ReplaceFront('x', Marked(k - 1, c), 'x', new_);
      assert Marked(k, c) == ['x'] + Marked(k - 1, c);
      Associate(new_, Times(k - 1, new_), "|" + [c]);
      Associate(Times(k - 1, new_), "|", [c]);
      Associate(Times(k, new_), "|", [c]);
    }
  }

  lemma {:induction false} TimesTwo(k: nat)
    ensures Times(k, "xx") == Times(2 * k, "x")
  {
    if k > 0 {
      TimesTwo(k - 1);
      assert Times(2 * k, "x") == "x" + ("x" + Times(2 * k - 2, "x"));
      assert "xx" + Times(k - 1, "xx") == "x" + ("x" + Times(k - 1, "xx"));
    }
  }

  lemma {:induction false} TimesNothing(k: nat)
    ensures Times(k, "") == ""
  {
    if k > 0 { TimesNothing(k - 1); }
  }

  /** One more mark in front of the bar. */
  lemma {:induction false} ReplaceBar(k: nat, c: char)
    requires c != '|'
    ensures Count(Marked(k, c), "|") == 1
    ensures ReplaceAll(Marked(k, c), "|", "x|") == Marked(k + 1, c)
  {
    if k == 0 {
      ReplaceBarAlone(c);
    } else {
      ReplaceBar(k - 1, c);
      MarkedMore(k - 1, c);
      MarkedMore(k, c);
      ReplaceBehindMark(Marked(k - 1, c), Marked(k, c), Marked(k, c), Marked(k + 1, c));
    }
  }

  lemma ReplaceBehindMark(s: string, t: string, more: string, replaced: string)
    requires Count(s, "|") == 1 && ReplaceAll(s, "|", "x|") == t && more == ['x'] + s && replaced == ['x'] + t
    ensures Count(more, "|") == 1 && ReplaceAll(more, "|", "x|") == replaced
  {
    ReplaceFront('x', s, '|', "x|");
  }

  lemma ReplaceBarAlone(c: char)
    requires c != '|'
    ensures Count(Marked(0, c), "|") == 1 && ReplaceAll(Marked(0, c), "|", "x|") == Marked(1, c)
  {
    ReplaceFront('|', [c], '|', "x|");
    ReplaceFront(c, "", '|', "x|");
    ReplaceNothing('|', "x|");
    assert Marked(0, c) == ['|'] + [c] && [c] == [c] + "";
    MarkedMore(0, c);
    assert "x|" + [c] == ['x'] + (['|'] + [c]);
  }

  lemma MarkedMore(k: nat, c: char)
    ensures Marked(k + 1, c) == ['x'] + Marked(k, c)
  {
    assert Times(k + 1, "x") == "x" + Times(k, "x");
  }

  // ---------------------------------------------------------------- the calls

  /** Who does what: `u`, `v` and perhaps `f` write one mark with a letter of their own, `c`
      doubles the marks, `d` adds one, `z` erases them. Where `f` plays no part it is `u`, and
      `d` is `c`. */
  datatype Cast = Cast(f: ToolInterval, u: ToolInterval, v: ToolInterval, c: ToolInterval, d: ToolInterval, z: ToolInterval)

  ghost predicate Apart(r: Cast) {
    && r.u != r.v && r.f != r.v && r.f != r.c && r.f != r.d && r.f != r.z && r.u != r.c && r.u != r.d && r.u != r.z
    && r.v != r.c && r.v != r.d && r.v != r.z && r.c != r.z && r.d != r.z
  }

  ghost predicate MarkCalls(ops: set<ToolInterval>, r: Cast) {
    && r.f in ops && r.u in ops && r.v in ops && r.c in ops && r.d in ops && r.z in ops && Apart(r)
    && IsWrite(r.u, "x|b") && IsWrite(r.v, "x|a") && (r.f != r.u ==> IsWrite(r.f, "x|c"))
    && IsEdit(r.c, "x", "xx", true) && (r.d != r.c ==> IsEdit(r.d, "|", "x|", false)) && IsEdit(r.z, "x", "", true)
    && forall b :: b in ops && b != r.f && b != r.u && b != r.v && b != r.c && b != r.d && b != r.z ==> IsKeep(b)
  }

  predicate Writes(a: ToolInterval, r: Cast) {
    a == r.u || a == r.v || a == r.f
  }

  function LetterOf(a: ToolInterval, r: Cast): char {
    if a == r.u then 'b' else if a == r.v then 'a' else 'c'
  }

  /** The letter of the last write. */
  function Letter(p: seq<ToolInterval>, r: Cast): char {
    if p == [] then 'c'
    else if Writes(p[|p| - 1], r) then LetterOf(p[|p| - 1], r) else Letter(p[..|p| - 1], r)
  }

  /** What one call makes of the number of marks. */
  function Step(n: nat, a: ToolInterval, r: Cast): nat {
    if Writes(a, r) then 1 else if a == r.c then 2 * n else if a == r.d then n + 1 else if a == r.z then 0 else n
  }

  /** The number of marks. */
  function Marks(p: seq<ToolInterval>, r: Cast): nat {
    if p == [] then 0 else Step(Marks(p[..|p| - 1], r), p[|p| - 1], r)
  }

  /** Nothing changes the file after it was erased. */
  ghost predicate ErasedLast(p: seq<ToolInterval>, z: ToolInterval) {
    forall i, j :: 0 <= i < j < |p| && p[i] == z ==> IsKeep(p[j])
  }

  /** The order is valid, and shows the marks and the letter. */
  ghost predicate Shows(p: seq<ToolInterval>, r: Cast) {
    && Run(None, p) == Reached(Some(Marked(Marks(p, r), Letter(p, r))))
    && (if r.z in p then Marks(p, r) == 0 else Marks(p, r) >= 1)
    && Letter(p, r) in {'a', 'b', 'c'}
  }

  /** Every order that begins with a write is valid. */
  lemma {:induction false} MarksSoFar(p: seq<ToolInterval>, ops: set<ToolInterval>, r: Cast)
    requires MarkCalls(ops, r) && p != [] && Writes(p[0], r)
    requires Distinct(p) && ErasedLast(p, r.z) && forall a :: a in p ==> a in ops
    ensures Shows(p, r)
    decreases |p|
  {
    var n := |p| - 1;
    var q, a := p[..n], p[n];
    assert p == q + [a] && a in p && a !in q;
    if n == 0 {
      ShowsFirst(a, ops, r);
      assert [a] == [] + [a];
    } else {
      InitIn(p, ops);
      MarksSoFar(q, ops, r);
      ShowsSnoc(q, a, ops, r);
    }
  }

  lemma ShowsFirst(a: ToolInterval, ops: set<ToolInterval>, r: Cast)
    requires MarkCalls(ops, r) && Writes(a, r)
    ensures Shows([] + [a], r)
  {
    WriteStep(a, ops, r, None);
    MarksSnoc([], a, r);
    RunSnoc(None, [], a);
  }

  lemma ShowsSnoc(q: seq<ToolInterval>, a: ToolInterval, ops: set<ToolInterval>, r: Cast)
    requires MarkCalls(ops, r) && Shows(q, r) && a !in q && a in ops && ErasedLast(q + [a], r.z)
    ensures Shows(q + [a], r)
  {
    MarksMore(q + [a], q, a, ops, r);
    MarksSnoc(q, a, r);
    RunSnoc(None, q, a);
  }

  lemma InitIn(p: seq<ToolInterval>, ops: set<ToolInterval>)
    requires p != [] && forall a :: a in p ==> a in ops
    ensures forall a :: a in p[..|p| - 1] ==> a in ops
  {
  }

  lemma MarksSnoc(q: seq<ToolInterval>, a: ToolInterval, r: Cast)
    ensures Marks(q + [a], r) == Step(Marks(q, r), a, r)
    ensures Letter(q + [a], r) == if Writes(a, r) then LetterOf(a, r) else Letter(q, r)
  {
    assert (q + [a])[..|q|] == q;
  }

  lemma MarksMore(p: seq<ToolInterval>, q: seq<ToolInterval>, a: ToolInterval, ops: set<ToolInterval>, r: Cast)
    requires MarkCalls(ops, r) && p == q + [a] && a !in q && a in ops && ErasedLast(p, r.z)
    requires if r.z in q then Marks(q, r) == 0 else Marks(q, r) >= 1
    requires Letter(q, r) in {'a', 'b', 'c'}
    ensures Apply(Some(Marked(Marks(q, r), Letter(q, r))), a)
         == Some(Marked(Step(Marks(q, r), a, r), if Writes(a, r) then LetterOf(a, r) else Letter(q, r)))
    ensures if r.z in p then Step(Marks(q, r), a, r) == 0 else Step(Marks(q, r), a, r) >= 1
  {
    if r.z in q {
      ErasedKeeps(p, q, a, ops, r);
    } else if Writes(a, r) {
      WriteStep(a, ops, r, Some(Marked(Marks(q, r), Letter(q, r))));
    } else {
      MarkStep(a, ops, r, Marks(q, r), Letter(q, r));
    }
  }

  lemma WriteStep(a: ToolInterval, ops: set<ToolInterval>, r: Cast, file: File)
    requires MarkCalls(ops, r) && Writes(a, r)
    ensures Apply(file, a) == Some(Marked(1, LetterOf(a, r))) && !IsKeep(a)
  {
    MarkedOne('a');
    MarkedOne('b');
    MarkedOne('c');
    assert "x|" + ['a'] == "x|a" && "x|" + ['b'] == "x|b" && "x|" + ['c'] == "x|c";
  }

  lemma MarkedOne(c: char)
    ensures Marked(1, c) == "x|" + [c]
  {
    assert Times(1, "x") == "x" + Times(0, "x");
    assert "x" + "" + "|" == "x|";
  }

  lemma ErasedKeeps(p: seq<ToolInterval>, q: seq<ToolInterval>, a: ToolInterval, ops: set<ToolInterval>, r: Cast)
    requires MarkCalls(ops, r) && p == q + [a] && r.z in q && ErasedLast(p, r.z) && a !in q
    ensures IsKeep(a) && !Writes(a, r) && forall n: nat :: Step(n, a, r) == n
    ensures forall file: File :: Apply(file, a) == file
  {
    var i: nat :| i < |q| && q[i] == r.z;
    assert p[i] == r.z && p[|q|] == a;
    forall file: File ensures Apply(file, a) == file { KeepApplied(a, file); }
  }

  lemma MarkStep(a: ToolInterval, ops: set<ToolInterval>, r: Cast, n: nat, letter: char)
    requires MarkCalls(ops, r) && a in ops && !Writes(a, r) && n >= 1 && letter in {'a', 'b', 'c'}
    ensures Apply(Some(Marked(n, letter)), a) == Some(Marked(Step(n, a, r), letter))
    ensures a != r.z ==> Step(n, a, r) >= 1
  {
    if a == r.c {
      EditApplied(a, Marked(n, letter), "x", "xx", true);
      ReplaceMarks(n, letter, "xx");
      TimesTwo(n);
    } else if a == r.d {
      EditApplied(a, Marked(n, letter), "|", "x|", false);
      ReplaceBar(n, letter);
    } else if a == r.z {
      EditApplied(a, Marked(n, letter), "x", "", true);
      ReplaceMarks(n, letter, "");
      TimesNothing(n);
    } else {
      KeepApplied(a, Some(Marked(n, letter)));
    }
  }

  lemma MarksTame(ops: set<ToolInterval>, r: Cast)
    requires MarkCalls(ops, r)
    ensures forall a :: a in ops ==> Tame(a)
  {
    forall a | a in ops ensures Tame(a) {
      if a == r.u { WriteTame(a, "x|b"); }
      else if a == r.v { WriteTame(a, "x|a"); }
      else if a == r.f { WriteTame(a, "x|c"); }
      else if a == r.c { EditTame(a, "x", "xx", true); }
      else if a == r.d { EditTame(a, "|", "x|", false); }
      else if a == r.z { EditTame(a, "x", "", true); }
      else { EditTame(a, "~", "~", false); }
    }
  }

  // ---------------------------------------------------------------- reading off an order

  ghost predicate NoWriteAfter(p: seq<ToolInterval>, j: nat, r: Cast) {
    forall i :: j < i < |p| ==> !Writes(p[i], r)
  }

  lemma {:induction false} LetterAfter(p: seq<ToolInterval>, j: nat, r: Cast)
    requires j < |p| && Writes(p[j], r) && NoWriteAfter(p, j, r)
    ensures Letter(p, r) == LetterOf(p[j], r)
    decreases |p|
  {
    if j < |p| - 1 { LetterAfter(p[..|p| - 1], j, r); }
  }

  /** After the last write: one mark, doubled if `c` comes, unless erased. */
  lemma {:induction false} MarksAfter(p: seq<ToolInterval>, j: nat, r: Cast)
    requires j < |p| && Writes(p[j], r) && NoWriteAfter(p, j, r) && r.z !in p && r.d == r.c && Distinct(p) && Apart(r)
    ensures Marks(p, r) == if exists i :: j < i < |p| && p[i] == r.c then 2 else 1
    decreases |p|
  {
    var n := |p| - 1;
    if j < n {
      var q := p[..n];
      MarksAfter(q, j, r);
      assert p[n] in p;
      if p[n] == r.c {
        assert forall i :: j < i < |q| ==> q[i] == p[i] && p[i] != p[n];
      } else if i: nat :| j < i < |p| && p[i] == r.c {
        assert q[i] == r.c;
      }
    }
  }

  /** With `c` and `d` after the last write, their order shows. */
  lemma {:induction false} MarksBehind(p: seq<ToolInterval>, j: nat, i: nat, k: nat, r: Cast)
    requires j < |p| && Writes(p[j], r) && NoWriteAfter(p, j, r) && r.z !in p && r.d != r.c && Distinct(p) && Apart(r)
    requires j < i < |p| && j < k < |p| && p[i] == r.c && p[k] == r.d
    ensures Marks(p, r) == if i < k then 3 else 4
    decreases |p|
  {
    var n := |p| - 1;
    var q := p[..n];
    assert p[n] in p;
    if i < n && k < n {
      MarksBehind(q, j, i, k, r);
      assert p[n] != p[i] && p[n] != p[k] && p[n] != p[j];
    } else if i == n {
      MarksOne(q, j, k, r, false);
    } else {
      MarksOne(q, j, i, r, true);
    }
  }

  /** One of the two edits after the last write makes two marks. */
  lemma {:induction false} MarksOne(p: seq<ToolInterval>, j: nat, k: nat, r: Cast, double: bool)
    requires j < |p| && Writes(p[j], r) && NoWriteAfter(p, j, r) && r.z !in p && r.d != r.c && Distinct(p) && Apart(r)
    requires j < k < |p| && p[k] == (if double then r.c else r.d)
    requires forall i :: j < i < |p| && i != k ==> p[i] != r.c && p[i] != r.d
    ensures Marks(p, r) == 2
    decreases |p|
  {
    var n := |p| - 1;
    var q := p[..n];
    assert p[n] in p;
    if k < n {
      MarksOne(q, j, k, r, double);
    } else {
      MarksNone(q, j, r);
    }
  }

  lemma {:induction false} MarksNone(p: seq<ToolInterval>, j: nat, r: Cast)
    requires j < |p| && Writes(p[j], r) && NoWriteAfter(p, j, r) && r.z !in p && Apart(r)
    requires forall i :: j < i < |p| ==> p[i] != r.c && p[i] != r.d
    ensures Marks(p, r) == 1
    decreases |p|
  {
    var n := |p| - 1;
    assert p[n] in p;
    if j < n { MarksNone(p[..n], j, r); }
  }

  // ---------------------------------------------------------------- whole orders

  /** `z` waits for all calls that change the file; `f` can be first, and `u` waits for it. If
      `f` plays no part, `u` and `v` can both be first. */
  ghost predicate Frame(ops: set<ToolInterval>, r: Cast) {
    && r.f in ops && r.u in ops && r.v in ops && r.c in ops && r.d in ops && r.z in ops
    && r.u != r.v && Concurrent(r.u, r.v) && r.f != r.v && r.f != r.c && r.f != r.d && r.u != r.c && r.u != r.d
    && r.v != r.c && r.v != r.d
    && MustPrecede(r.u, r.z) && MustPrecede(r.v, r.z) && MustPrecede(r.c, r.z) && MustPrecede(r.d, r.z)
    && Ready(r.f, ops) && (if r.f == r.u then Ready(r.v, ops) else MustPrecede(r.f, r.u))
  }

  lemma LinErased(p: seq<ToolInterval>, ops: set<ToolInterval>, r: Cast)
    requires WellTimed(ops) && MarkCalls(ops, r) && Frame(ops, r) && Linearization(p, ops)
    ensures ErasedLast(p, r.z)
  {
    forall i, j | 0 <= i < j < |p| && p[i] == r.z ensures IsKeep(p[j]) {
      assert p[j] in p && p[i] in p && p[j] != p[i] && !MustPrecede(p[j], p[i]);
    }
  }

  lemma LinPart(p: seq<ToolInterval>, ops: set<ToolInterval>, r: Cast, k: nat)
    requires Linearization(p, ops) && k <= |p| && ErasedLast(p, r.z)
    ensures Distinct(p[..k]) && ErasedLast(p[..k], r.z) && forall a :: a in p[..k] ==> a in ops
  {
    forall a | a in p[..k] ensures a in ops {
      var n :| 0 <= n < k && p[..k][n] == a;
      assert p[n] in p;
    }
  }

  /** An order that begins with a write ends in the letter of its last write, all marks erased. */
  lemma MarksEnd(p: seq<ToolInterval>, ops: set<ToolInterval>, r: Cast, j: nat)
    requires WellTimed(ops) && MarkCalls(ops, r) && Frame(ops, r) && Linearization(p, ops)
    requires j < |p| && Writes(p[0], r) && Writes(p[j], r) && NoWriteAfter(p, j, r)
    ensures Completes(p, ops, None, Marked(0, LetterOf(p[j], r)))
  {
    LinErased(p, ops, r);
    MarksSoFar(p, ops, r);
    LetterAfter(p, j, r);
    assert r.z in p;
  }

  lemma FirstWrites(p: seq<ToolInterval>, ops: set<ToolInterval>, r: Cast, text: string)
    requires MarkCalls(ops, r) && Completes(p, ops, None, text)
    ensures p != [] && Writes(p[0], r)
  {
    assert r.u in p;
    assert p[0] in p;
    CompletesCons(p, ops, None, text);
  }

  /** An order that ends in "|a" has `u` before `v`. */
  lemma LetterTells(p: seq<ToolInterval>, ops: set<ToolInterval>, r: Cast) returns (i: nat, j: nat)
    requires WellTimed(ops) && MarkCalls(ops, r) && Frame(ops, r) && Completes(p, ops, None, Marked(0, 'a'))
    ensures InPlace(p, r, i, j)
  {
    assert r.u in p && r.v in p && r.f in p;
    i :| i < |p| && p[i] == r.u;
    j :| j < |p| && p[j] == r.v;
    FirstWrites(p, ops, r, Marked(0, 'a'));
    FrontFirst(p, ops, r, i);
    if j < i {
      MarksEnd(p, ops, r, i);
      MarkedSame(0, 'a', 0, 'b');
    }
  }

  lemma FrontFirst(p: seq<ToolInterval>, ops: set<ToolInterval>, r: Cast, i: nat)
    requires Frame(ops, r) && Linearization(p, ops) && i < |p| && p[i] == r.u
    ensures r.f != r.u ==> exists n :: 0 <= n < i && p[n] == r.f
    ensures forall n :: i < n < |p| ==> p[n] != r.f
  {
    if r.f != r.u {
      assert r.f in p;
      var n: nat :| n < |p| && p[n] == r.f;
      assert n < i;
    }
  }

  lemma MarksShown(p: seq<ToolInterval>, ops: set<ToolInterval>, r: Cast, k: nat)
    requires WellTimed(ops) && MarkCalls(ops, r) && Frame(ops, r) && Linearization(p, ops) && p != [] && Writes(p[0], r)
    requires 1 <= k <= |p|
    ensures Shows(p[..k], r)
  {
    LinErased(p, ops, r);
    LinPart(p, ops, r, k);
    assert p[..k][0] == p[0];
    MarksSoFar(p[..k], ops, r);
  }

  /** `u` at `i`, `v` at `j`, and `f` before both. */
  ghost predicate InPlace(p: seq<ToolInterval>, r: Cast, i: nat, j: nat) {
    && i < j < |p| && p[i] == r.u && p[j] == r.v && Writes(p[0], r)
    && (r.f != r.u ==> exists n :: 0 <= n < i && p[n] == r.f)
  }

  /** What such an order shows at index `k`, read off the places of `u` and `v`. */
  lemma MarksAt(p: seq<ToolInterval>, ops: set<ToolInterval>, r: Cast, i: nat, j: nat, k: nat)
    requires WellTimed(ops) && MarkCalls(ops, r) && Frame(ops, r) && Linearization(p, ops) && InPlace(p, r, i, j)
    requires 1 <= k <= |p|
    ensures Shows(p[..k], r)
    ensures k > j ==> Letter(p[..k], r) == 'a' && NoWriteAfter(p[..k], j, r)
    ensures i < k <= j ==> Letter(p[..k], r) == 'b' && NoWriteAfter(p[..k], i, r) && r.z !in p[..k]
    ensures k <= i ==> Letter(p[..k], r) == 'c'
  {
    MarksShown(p, ops, r, k);
    FrontFirst(p, ops, r, i);
    NoWriteBetween(p, r, i, j, k);
    if k > j {
      LetterAfter(p[..k], j, r);
    } else if k > i {
      LetterAfter(p[..k], i, r);
      NotErasedYet(p, ops, r, j, k);
    } else {
      var n :| 0 <= n < i && p[n] == r.f;
      OnlyFront(p, r, i, j, k, n);
    }
  }

  lemma NoWriteBetween(p: seq<ToolInterval>, r: Cast, i: nat, j: nat, k: nat)
    requires Distinct(p) && i < j < |p| && p[i] == r.u && p[j] == r.v && k <= |p|
    requires forall n :: i < n < |p| ==> p[n] != r.f
    ensures k > j ==> NoWriteAfter(p[..k], j, r)
    ensures i < k <= j ==> NoWriteAfter(p[..k], i, r)
  {
  }

  lemma NotErasedYet(p: seq<ToolInterval>, ops: set<ToolInterval>, r: Cast, j: nat, k: nat)
    requires Frame(ops, r) && Linearization(p, ops) && k <= j < |p| && p[j] == r.v
    ensures r.z !in p[..k]
  {
  }

  lemma OnlyFront(p: seq<ToolInterval>, r: Cast, i: nat, j: nat, k: nat, n: nat)
    requires Distinct(p) && i < j < |p| && p[i] == r.u && p[j] == r.v && 1 <= k <= i && n < i && p[n] == r.f && r.f != r.u
    requires Writes(p[0], r) && r.f != r.v
    ensures Letter(p[..k], r) == 'c'
  {
    assert p[0] != p[i] && p[0] != p[j];
    assert n == 0;
    assert forall m :: 0 < m < k ==> p[m] != p[0] && p[m] != p[i] && p[m] != p[j];
    LetterAfter(p[..k], 0, r);
  }

  // ---------------------------------------------------------------- one edit between or after two writes

  /** `v` overlaps the edit `c`, which need not wait for `u`'s sake; none of the four is later,
      and the erasing call is not over. Either `v` need not be over, or `c` is. */
  ghost predicate Erasable(ops: set<ToolInterval>, o: ReadObservation, r: Cast) {
    && Frame(ops, r) && r.d == r.c && Concurrent(r.v, r.c) && !MustPrecede(r.c, r.u)
    && !IsLater(r.f, o) && !IsLater(r.u, o) && !IsLater(r.v, o) && !IsLater(r.c, o) && !IsOver(r.z, o)
    && (!IsOver(r.v, o) || IsOver(r.c, o))
  }

  /** The edit is before `v` in the recorded order: two marks are never seen with "a". */
  lemma UnseenAfter(p: seq<ToolInterval>, ops: set<ToolInterval>, o: ReadObservation, r: Cast, i: nat, j: nat, n: nat)
    requires WellTimed(ops) && MarkCalls(ops, r) && Frame(ops, r) && r.d == r.c && Linearization(p, ops)
    requires InPlace(p, r, i, j) && n < j && p[n] == r.c
    ensures !Explains(p, OneLine(o, Marked(2, 'a')))
  {
    MarksTame(ops, r);
    MarkedSame(2, 'a', 2, 'a');
    forall k: nat | k <= |p| ensures !ShownAt(p, OneLine(o, Marked(2, 'a')), k) {
      if k > 0 {
        MarksAt(p, ops, r, i, j, k);
        MarkedSame(2, 'a', Marks(p[..k], r), Letter(p[..k], r));
        if k > j && r.z !in p[..k] { MarksAfter(p[..k], j, r); }
      }
      NotShownAt(p, o, Marked(2, 'a'), k);
    }
  }

  /** The edit is after `v`: two marks are never seen with "b". */
  lemma UnseenBefore(p: seq<ToolInterval>, ops: set<ToolInterval>, o: ReadObservation, r: Cast, i: nat, j: nat, n: nat)
    requires WellTimed(ops) && MarkCalls(ops, r) && Frame(ops, r) && r.d == r.c && Linearization(p, ops)
    requires InPlace(p, r, i, j) && j < n < |p| && p[n] == r.c
    ensures !Explains(p, OneLine(o, Marked(2, 'b')))
  {
    MarksTame(ops, r);
    MarkedSame(2, 'b', 2, 'b');
    forall k: nat | k <= |p| ensures !ShownAt(p, OneLine(o, Marked(2, 'b')), k) {
      if k > 0 {
        MarksAt(p, ops, r, i, j, k);
        MarkedSame(2, 'b', Marks(p[..k], r), Letter(p[..k], r));
        if i < k <= j { MarksAfter(p[..k], i, r); }
      }
      NotShownAt(p, o, Marked(2, 'b'), k);
    }
  }

  /** The edit is after `v`, and over: one mark is never seen with "a". */
  lemma UnseenOver(p: seq<ToolInterval>, ops: set<ToolInterval>, o: ReadObservation, r: Cast, i: nat, j: nat, n: nat)
    requires WellTimed(ops) && MarkCalls(ops, r) && Frame(ops, r) && r.d == r.c && Linearization(p, ops)
    requires InPlace(p, r, i, j) && j < n < |p| && p[n] == r.c && IsOver(r.c, o)
    ensures !Explains(p, OneLine(o, Marked(1, 'a')))
  {
    MarksTame(ops, r);
    MarkedSame(1, 'a', 1, 'a');
    forall k: nat | k <= |p| ensures !ShownAt(p, OneLine(o, Marked(1, 'a')), k) {
      if CanInsert(p, o, k) {
        assert n < k;
        MarksAt(p, ops, r, i, j, k);
        MarkedSame(1, 'a', Marks(p[..k], r), Letter(p[..k], r));
        assert p[..k][n] == r.c;
        if r.z !in p[..k] { MarksAfter(p[..k], j, r); }
        NotShownAt(p, o, Marked(1, 'a'), k);
      }
    }
  }

  /** An order with `u` before `v`, seen at index `k` before the marks are erased. */
  lemma SeenIn(p: seq<ToolInterval>, ops: set<ToolInterval>, o: ReadObservation, r: Cast, i: nat, j: nat, k: nat)
    requires WellTimed(ops) && MarkCalls(ops, r) && Frame(ops, r) && Linearization(p, ops) && InPlace(p, r, i, j)
    requires 1 <= k <= |p| && CanInsert(p, o, k)
    ensures Completes(p, ops, None, Marked(0, 'a'))
    ensures Explains(p, OneLine(o, Marked(Marks(p[..k], r), Letter(p[..k], r))))
  {
    FrontFirst(p, ops, r, i);
    assert p[..|p|] == p;
    NoWriteBetween(p, r, i, j, |p|);
    MarksEnd(p, ops, r, j);
    MarksAt(p, ops, r, i, j, k);
    MarkedBreakFree(Marks(p[..k], r), Letter(p[..k], r));
    MarkedSame(Marks(p[..k], r), 'a', 0, 'a');
    IsShownAt(p, o, Marked(Marks(p[..k], r), Letter(p[..k], r)), k);
  }

  /** Where calls of three pieces stand. */
  lemma InPieces(a: seq<ToolInterval>, b: seq<ToolInterval>, c: seq<ToolInterval>, u: ToolInterval, x: ToolInterval, y: ToolInterval)
    returns (i: nat, j: nat, n: nat)
    requires u in a && x in b && y in c
    ensures i < |a| <= j < |a| + |b| <= n < |a + b + c|
    ensures (a + b + c)[i] == u && (a + b + c)[j] == x && (a + b + c)[n] == y
  {
    i :| i < |a| && a[i] == u;
    var l: nat :| l < |b| && b[l] == x;
    var m: nat :| m < |c| && c[m] == y;
    j, n := |a| + l, |a| + |b| + m;
  }

  lemma InTwoPieces(a: seq<ToolInterval>, b: seq<ToolInterval>, c: seq<ToolInterval>, u: ToolInterval, x: ToolInterval)
    returns (i: nat, j: nat)
    requires u in a && x in b
    ensures i < |a| <= j < |a| + |b| && (a + b + c)[i] == u && (a + b + c)[j] == x
  {
    i :| i < |a| && a[i] == u;
    var l: nat :| l < |b| && b[l] == x;
    j := |a| + l;
  }

  /** The closed parts: what `u` needs, then also what `x` needs, then also `y` and all that is over. */
  lemma MarkStages(ops: set<ToolInterval>, o: ReadObservation, f: ToolInterval, u: ToolInterval, x: ToolInterval, y: ToolInterval)
    returns (first: set<ToolInterval>, second: set<ToolInterval>, third: set<ToolInterval>)
    requires Timed(ops, o) && f in ops && u in ops && x in ops && y in ops && Ready(f, ops)
    ensures first == {f} + Down(ops, u) && second == first + Down(ops, x) && third == second + Down(ops, y) + Before(ops, o)
    ensures first <= second <= third <= ops && Ready(f, first)
    ensures Downward(first, second - first) && Downward(second, third - second) && Downward(third, ops - third)
  {
    first := {f} + Down(ops, u);
    second := first + Down(ops, x);
    third := second + Down(ops, y) + Before(ops, o);
    DownOf(ops, u);
    DownOf(ops, x);
    DownOf(ops, y);
    BeforeDownward(ops, o);
    UnionDownward({f}, Down(ops, u), ops);
    UnionDownward(first, Down(ops, x), ops);
    UnionDownward(second, Down(ops, y), ops);
    UnionDownward(second + Down(ops, y), Before(ops, o), ops);
    InsideDownward(first, second, ops);
    InsideDownward(second, third, ops);
  }

  /** After `u`, `x` may come, and then `y`, all before the read. */
  ghost predicate MayFollow(ops: set<ToolInterval>, o: ReadObservation, r: Cast, x: ToolInterval, y: ToolInterval) {
    && x in ops && y in ops && !IsOver(r.z, o)
    && !IsLater(r.f, o) && !IsLater(r.u, o) && !IsLater(x, o) && !IsLater(y, o)
    && x != r.f && x != r.u && !MustPrecede(x, r.u)
    && y != r.f && y != r.u && y != x && !MustPrecede(y, r.u) && !MustPrecede(y, x)
    && !MustPrecede(r.z, x) && !MustPrecede(r.z, y) && x != r.z && y != r.z
  }

  /** An order through `u`, then `x`, then whatever is over and `y`, which is last of these or
      not over, then the rest. */
  lemma Through(ops: set<ToolInterval>, o: ReadObservation, r: Cast, x: ToolInterval, y: ToolInterval)
    returns (p: seq<ToolInterval>, i: nat, j: nat, n: nat, k: nat)
    requires Timed(ops, o) && Frame(ops, r) && MayFollow(ops, o, r, x, y)
    ensures Linearization(p, ops) && k <= |p| && CanInsert(p, o, k)
    ensures i < j < n < k && p[i] == r.u && p[j] == x && p[n] == y && p[0] == r.f && r.z !in p[..k]
    ensures forall m :: 0 <= m <= i ==> p[m] in {r.f} + Down(ops, r.u)
  {
    var first, second, third, a, b, c, rest := Pieces(ops, o, r, x, y);
    ThroughParts(ops, o, r, x, y, first, second, third);
    p, i, j, n, k := ThroughOrder(a, b, c, rest, first, second, third, ops, r, x, y);
    RoomBehind(a + b + c, third, rest, ops - third, o);
  }

  lemma Pieces(ops: set<ToolInterval>, o: ReadObservation, r: Cast, x: ToolInterval, y: ToolInterval)
    returns (first: set<ToolInterval>, second: set<ToolInterval>, third: set<ToolInterval>,
             a: seq<ToolInterval>, b: seq<ToolInterval>, c: seq<ToolInterval>, rest: seq<ToolInterval>)
    requires Timed(ops, o) && Frame(ops, r) && x in ops && y in ops
    ensures first == {r.f} + Down(ops, r.u) && second == first + Down(ops, x) && third == second + Down(ops, y) + Before(ops, o)
    ensures third <= ops && a != [] && a[0] == r.f && Linearization(a, first)
    ensures Linearization(b, second - first) && Linearization(c, third - second) && Linearization(a + b + c, third)
    ensures Linearization(rest, ops - third) && Linearization((a + b + c) + rest, ops)
  {
    first, second, third := MarkStages(ops, o, r.f, r.u, x, y);
    a, b, c, rest := StagedThrice(r.f, first, second, third, ops);
  }

  lemma ThroughOrder(a: seq<ToolInterval>, b: seq<ToolInterval>, c: seq<ToolInterval>, rest: seq<ToolInterval>,
                     first: set<ToolInterval>, second: set<ToolInterval>, third: set<ToolInterval>,
                     ops: set<ToolInterval>, r: Cast, x: ToolInterval, y: ToolInterval)
    returns (p: seq<ToolInterval>, i: nat, j: nat, n: nat, k: nat)
    requires a != [] && a[0] == r.f && Linearization(a, first) && Linearization(b, second - first)
    requires Linearization(c, third - second) && Linearization(a + b + c, third) && Linearization((a + b + c) + rest, ops)
    requires r.u in first && x in second - first && y in third - second && r.z !in third
    ensures p == (a + b + c) + rest && k == |a + b + c| && k <= |p|
    ensures i < j < n < k && p[i] == r.u && p[j] == x && p[n] == y && p[0] == r.f && r.z !in p[..k]
    ensures forall m :: 0 <= m <= i ==> p[m] in first
  {
    assert r.u in a && x in b && y in c;
    i, j, n := InPieces(a, b, c, r.u, x, y);
    var head := a + b + c;
    p, k := head + rest, |head|;
    assert p[..k] == head && head[0] == a[0];
    assert r.z in head <==> r.z in third;
    forall m | 0 <= m <= i ensures p[m] in first { assert p[m] == a[m] && a[m] in a; }
  }

  lemma NoneLater(ops: set<ToolInterval>, o: ReadObservation, a: ToolInterval)
    requires WellTimed(ops) && !IsLater(a, o)
    ensures forall b :: b in Down(ops, a) ==> !IsLater(b, o)
  {
  }

  lemma ThroughParts(ops: set<ToolInterval>, o: ReadObservation, r: Cast, x: ToolInterval, y: ToolInterval,
                     first: set<ToolInterval>, second: set<ToolInterval>, third: set<ToolInterval>)
    requires Timed(ops, o) && Frame(ops, r) && MayFollow(ops, o, r, x, y)
    requires first == {r.f} + Down(ops, r.u) && second == first + Down(ops, x)
    requires third == second + Down(ops, y) + Before(ops, o)
    ensures r.u in first && x in second - first && y in third - second && r.z !in third
    ensures (forall b :: b in third ==> !IsLater(b, o)) && forall b :: b in ops - third ==> !IsOver(b, o)
  {
    NoneLater(ops, o, r.u);
    NoneLater(ops, o, x);
    NoneLater(ops, o, y);
    NotErased(ops, o, r, x, y);
    ThroughMembers(ops, o, r, x, y);
  }

  lemma ThroughMembers(ops: set<ToolInterval>, o: ReadObservation, r: Cast, x: ToolInterval, y: ToolInterval)
    requires Frame(ops, r) && MayFollow(ops, o, r, x, y)
    ensures r.u in Down(ops, r.u) && x in Down(ops, x) && y in Down(ops, y)
    ensures x !in {r.f} + Down(ops, r.u) && y !in {r.f} + Down(ops, r.u) + Down(ops, x)
  {
  }

  lemma NotErased(ops: set<ToolInterval>, o: ReadObservation, r: Cast, x: ToolInterval, y: ToolInterval)
    requires Timed(ops, o) && Frame(ops, r) && MayFollow(ops, o, r, x, y)
    ensures r.z != r.f && r.z !in Down(ops, r.u) && r.z !in Down(ops, x) && r.z !in Down(ops, y) && r.z !in Before(ops, o)
  {
  }

  /** An order through `u`, then `y` and whatever is over, then the read, then `v`. */
  lemma Within(ops: set<ToolInterval>, o: ReadObservation, r: Cast, y: ToolInterval)
    returns (p: seq<ToolInterval>, i: nat, n: nat, j: nat, k: nat)
    requires Timed(ops, o) && Frame(ops, r) && MayFollow(ops, o, r, y, r.v) && !IsOver(r.v, o)
    ensures Linearization(p, ops) && k <= |p| && CanInsert(p, o, k)
    ensures i < n < k <= j < |p| && p[i] == r.u && p[n] == y && p[j] == r.v && p[0] == r.f && r.z !in p[..k]
  {
    var first, second, third, a, b, c, rest := Pieces(ops, o, r, y, y);
    WithinParts(ops, o, r, y, first, second, third);
    p, i, n, j, k := WithinOrder(a, b, c, rest, first, second, third, ops, r, y);
    RoomBehind(a + b + c, third, rest, ops - third, o);
  }

  lemma WithinOrder(a: seq<ToolInterval>, b: seq<ToolInterval>, c: seq<ToolInterval>, rest: seq<ToolInterval>,
                    first: set<ToolInterval>, second: set<ToolInterval>, third: set<ToolInterval>,
                    ops: set<ToolInterval>, r: Cast, y: ToolInterval)
    returns (p: seq<ToolInterval>, i: nat, n: nat, j: nat, k: nat)
    requires a != [] && a[0] == r.f && Linearization(a, first) && Linearization(b, second - first)
    requires Linearization(a + b + c, third) && Linearization(rest, ops - third) && Linearization((a + b + c) + rest, ops)
    requires r.u in first && y in second - first && r.v in ops - third && r.z !in third
    ensures p == (a + b + c) + rest && k == |a + b + c| && k <= |p|
    ensures i < n < k <= j < |p| && p[i] == r.u && p[n] == y && p[j] == r.v && p[0] == r.f && r.z !in p[..k]
  {
    assert r.u in a && y in b && r.v in rest;
    var head := a + b + c;
    p, k := head + rest, |head|;
    i, n := InTwoPieces(a, b, c, r.u, y);
    var m: nat :| m < |rest| && rest[m] == r.v;
    j := k + m;
    assert p[..k] == head && head[0] == a[0];
    assert r.z in head <==> r.z in third;
  }

  lemma WithinParts(ops: set<ToolInterval>, o: ReadObservation, r: Cast, y: ToolInterval,
                    first: set<ToolInterval>, second: set<ToolInterval>, third: set<ToolInterval>)
    requires Timed(ops, o) && Frame(ops, r) && MayFollow(ops, o, r, y, r.v) && !IsOver(r.v, o)
    requires first == {r.f} + Down(ops, r.u) && second == first + Down(ops, y)
    requires third == second + Down(ops, y) + Before(ops, o)
    ensures r.u in first && y in second - first && r.v in ops - third && r.z !in third
    ensures (forall b :: b in third ==> !IsLater(b, o)) && forall b :: b in ops - third ==> !IsOver(b, o)
  {
    NoneLater(ops, o, r.u);
    NoneLater(ops, o, y);
    NotErased(ops, o, r, y, r.v);
    ThroughMembers(ops, o, r, y, r.v);
  }

  // ---------------------------------------------------------------- the lost contents

  /** A second content: `v` before `u`. */
  lemma OtherLetter(ops: set<ToolInterval>, r: Cast) returns (p: seq<ToolInterval>)
    requires UniqueIds(ops) && WellTimed(ops) && MarkCalls(ops, r) && Frame(ops, r)
    ensures Completes(p, ops, None, Marked(0, 'b'))
  {
    var start := if r.f == r.u then r.v else r.f;
    var first := {start} + Down(ops, r.v);
    DownOf(ops, r.v);
    UnionDownward({start}, Down(ops, r.v), ops);
    var front, rest := Staged(start, first, ops);
    p := front + rest;
    assert r.v in front && r.u in rest && r.u !in front;
    var i: nat :| i < |rest| && rest[i] == r.u;
    var j := |front| + i;
    assert p[j] == r.u && p[0] == start;
    OnlyBehindFront(p, front, rest, j, r, start);
    MarksEnd(p, ops, r, j);
  }

  lemma OnlyBehindFront(p: seq<ToolInterval>, front: seq<ToolInterval>, rest: seq<ToolInterval>, j: nat, r: Cast, start: ToolInterval)
    requires p == front + rest && Distinct(p) && |front| <= j < |p| && p[j] == r.u && r.v in front && front != []
    requires front[0] == start && start == if r.f == r.u then r.v else r.f
    ensures NoWriteAfter(p, j, r)
  {
    var n: nat :| n < |front| && front[n] == r.v;
    assert p[n] == r.v && p[0] == start;
  }

  lemma MarksLost(w: seq<ToolInterval>, p: seq<ToolInterval>, ops: set<ToolInterval>, o: ReadObservation, r: Cast,
                  i: nat, j: nat, k: nat)
    requires UniqueIds(ops) && WellTimed(ops) && MarkCalls(ops, r) && Frame(ops, r)
    requires IsWitness(w, ops, None, Marked(0, 'a')) && Linearization(p, ops) && InPlace(p, r, i, j)
    requires 1 <= k <= |p| && CanInsert(p, o, k)
    requires !Explains(w, OneLine(o, Marked(Marks(p[..k], r), Letter(p[..k], r))))
    ensures Loses(ops, o)
  {
    SeenIn(p, ops, o, r, i, j, k);
    var q := OtherLetter(ops, r);
    MarkedSame(0, 'a', 0, 'b');
    Lost(w, p, q, ops, OneLine(o, Marked(Marks(p[..k], r), Letter(p[..k], r))), Marked(0, 'a'), Marked(0, 'b'));
  }

  lemma ErasableMay(ops: set<ToolInterval>, o: ReadObservation, r: Cast)
    requires WellTimed(ops) && Erasable(ops, o, r)
    ensures MayFollow(ops, o, r, r.v, r.c) && MayFollow(ops, o, r, r.c, r.v)
  {
    assert r.u.start <= r.u.end && r.v.start <= r.v.end;
  }

  /** Where the recorded order has the edit decides what the read must have seen. */
  lemma ErasableLost(ops: set<ToolInterval>, o: ReadObservation, r: Cast)
    requires Timed(ops, o) && Erasable(ops, o, r) && MarkCalls(ops, r)
    ensures Loses(ops, o)
  {
    var w, a, b, c := ErasableRecorded(ops, o, r);
    if c < b {
      var p, i, j, k := ErasableOrder(ops, o, r);
      UnseenAfter(w, ops, o, r, a, b, c);
      MarksLost(w, p, ops, o, r, i, j, k);
    } else {
      ErasableOther(ops, o, r, w, a, b, c);
    }
  }

  lemma ErasableOrder(ops: set<ToolInterval>, o: ReadObservation, r: Cast) returns (p: seq<ToolInterval>, i: nat, j: nat, k: nat)
    requires Timed(ops, o) && Erasable(ops, o, r) && MarkCalls(ops, r)
    ensures Linearization(p, ops) && InPlace(p, r, i, j) && 1 <= k <= |p| && CanInsert(p, o, k)
    ensures Marks(p[..k], r) == 2 && Letter(p[..k], r) == 'a'
  {
    ErasableMay(ops, o, r);
    var n;
    p, i, j, n, k := Through(ops, o, r, r.v, r.c);
    ThroughMarks(p, ops, r, i, j, n, k);
  }

  lemma ErasableRecorded(ops: set<ToolInterval>, o: ReadObservation, r: Cast) returns (w: seq<ToolInterval>, a: nat, b: nat, c: nat)
    requires Timed(ops, o) && Erasable(ops, o, r) && MarkCalls(ops, r)
    ensures IsWitness(w, ops, None, Marked(0, 'a')) && InPlace(w, r, a, b) && c < |w| && w[c] == r.c
  {
    var p, i, j, k := ErasableOrder(ops, o, r);
    SeenIn(p, ops, o, r, i, j, k);
    OutcomesMeaning(Marked(0, 'a'), ops, None);
    w := WitnessExists(ops, None, Marked(0, 'a'));
    a, b := LetterTells(w, ops, r);
    assert r.c in w;
    c :| c < |w| && w[c] == r.c;
  }

  /** With the edit after `v`, two marks and "a". */
  lemma ThroughMarks(p: seq<ToolInterval>, ops: set<ToolInterval>, r: Cast, i: nat, j: nat, n: nat, k: nat)
    requires WellTimed(ops) && MarkCalls(ops, r) && Frame(ops, r) && r.d == r.c && Linearization(p, ops) && InPlace(p, r, i, j)
    requires j < n < k <= |p| && p[n] == r.c && r.z !in p[..k]
    ensures Marks(p[..k], r) == 2 && Letter(p[..k], r) == 'a'
  {
    MarksAt(p, ops, r, i, j, k);
    assert p[..k][n] == r.c;
    MarksAfter(p[..k], j, r);
  }

  lemma ErasableOther(ops: set<ToolInterval>, o: ReadObservation, r: Cast, w: seq<ToolInterval>, a: nat, b: nat, c: nat)
    requires Timed(ops, o) && Erasable(ops, o, r) && MarkCalls(ops, r) && IsWitness(w, ops, None, Marked(0, 'a'))
    requires InPlace(w, r, a, b) && b < c < |w| && w[c] == r.c
    ensures Loses(ops, o)
  {
    ErasableMay(ops, o, r);
    if IsOver(r.c, o) {
      UnseenOver(w, ops, o, r, a, b, c);
      var p, i, n, j, k := Through(ops, o, r, r.c, r.v);
      PlainMarks(p, ops, r, i, n, j, k);
      MarksLost(w, p, ops, o, r, i, j, k);
    } else {
      UnseenBefore(w, ops, o, r, a, b, c);
      var p, i, n, j, k := Within(ops, o, r, r.c);
      EarlyMarks(p, ops, r, i, n, j, k);
      MarksLost(w, p, ops, o, r, i, j, k);
    }
  }

  /** With the edit before `v`, one mark and "a". */
  lemma PlainMarks(p: seq<ToolInterval>, ops: set<ToolInterval>, r: Cast, i: nat, n: nat, j: nat, k: nat)
    requires WellTimed(ops) && MarkCalls(ops, r) && Frame(ops, r) && r.d == r.c && Linearization(p, ops) && InPlace(p, r, i, j)
    requires n < j < k <= |p| && p[n] == r.c && r.z !in p[..k]
    ensures Marks(p[..k], r) == 1 && Letter(p[..k], r) == 'a'
  {
    MarksAt(p, ops, r, i, j, k);
    assert forall m :: j < m < k ==> p[m] != p[n];
    MarksAfter(p[..k], j, r);
  }

  /** With the edit after `u`, and `v` not yet there, two marks and "b". */
  lemma EarlyMarks(p: seq<ToolInterval>, ops: set<ToolInterval>, r: Cast, i: nat, n: nat, j: nat, k: nat)
    requires WellTimed(ops) && MarkCalls(ops, r) && Frame(ops, r) && r.d == r.c && Linearization(p, ops) && InPlace(p, r, i, j)
    requires i < n < k <= j && p[n] == r.c
    ensures Marks(p[..k], r) == 2 && Letter(p[..k], r) == 'b'
  {
    MarksAt(p, ops, r, i, j, k);
    assert p[..k][n] == r.c;
    MarksAfter(p[..k], i, r);
  }

  // ---------------------------------------------------------------- two edits after two writes

  /** `c` and `d` overlap, wait for `u` and `v`, and are over, while the erasing call is not. */
  ghost predicate ErasablePair(ops: set<ToolInterval>, o: ReadObservation, r: Cast) {
    && Frame(ops, r) && r.d != r.c && Concurrent(r.c, r.d)
    && MustPrecede(r.u, r.c) && MustPrecede(r.u, r.d) && MustPrecede(r.v, r.c) && MustPrecede(r.v, r.d)
    && IsOver(r.c, o) && IsOver(r.d, o) && !IsOver(r.z, o)
  }

  lemma PairMay(ops: set<ToolInterval>, o: ReadObservation, r: Cast)
    requires Timed(ops, o) && ErasablePair(ops, o, r)
    ensures MayFollow(ops, o, r, r.c, r.d) && MayFollow(ops, o, r, r.d, r.c)
  {
    assert r.u.start <= r.u.end && r.v.start <= r.v.end && r.f.start <= r.f.end;
    assert r.c.start <= r.c.end && r.d.start <= r.d.end && r.z.start <= r.z.end;
  }

  /** An order of the writes and then `x` and `y`, the two edits, seen behind all that is over. */
  lemma PairOrder(ops: set<ToolInterval>, o: ReadObservation, r: Cast, x: ToolInterval, y: ToolInterval)
    returns (p: seq<ToolInterval>, i: nat, j: nat, k: nat)
    requires Timed(ops, o) && ErasablePair(ops, o, r) && MarkCalls(ops, r)
    requires (x == r.c && y == r.d) || (x == r.d && y == r.c)
    ensures Linearization(p, ops) && InPlace(p, r, i, j) && 1 <= k <= |p| && CanInsert(p, o, k)
    ensures Marks(p[..k], r) == (if x == r.c then 3 else 4) && Letter(p[..k], r) == 'a'
  {
    PairMay(ops, o, r);
    var l, n;
    p, i, l, n, k := Through(ops, o, r, x, y);
    assert r.v in p;
    j :| j < |p| && p[j] == r.v;
    PairPlaces(p, ops, o, r, i, j, l, n, x, y);
    PairMarks(p, ops, r, i, j, if x == r.c then l else n, if x == r.c then n else l, k);
  }

  lemma PairMarks(p: seq<ToolInterval>, ops: set<ToolInterval>, r: Cast, i: nat, j: nat, l: nat, n: nat, k: nat)
    requires WellTimed(ops) && MarkCalls(ops, r) && Frame(ops, r) && r.d != r.c && Linearization(p, ops) && InPlace(p, r, i, j)
    requires j < l < k <= |p| && j < n < k && p[l] == r.c && p[n] == r.d && r.z !in p[..k]
    ensures Marks(p[..k], r) == (if l < n then 3 else 4) && Letter(p[..k], r) == 'a'
  {
    MarksAt(p, ops, r, i, j, k);
    assert p[..k][l] == r.c && p[..k][n] == r.d && p[..k][j] == r.v;
    MarksBehind(p[..k], j, l, n, r);
  }

  lemma PairPlaces(p: seq<ToolInterval>, ops: set<ToolInterval>, o: ReadObservation, r: Cast, i: nat, j: nat, l: nat, n: nat,
                   x: ToolInterval, y: ToolInterval)
    requires WellTimed(ops) && ErasablePair(ops, o, r) && Linearization(p, ops)
    requires (x == r.c && y == r.d) || (x == r.d && y == r.c)
    requires i < l < n < |p| && p[i] == r.u && p[l] == x && p[n] == y && p[0] == r.f
    requires j < |p| && p[j] == r.v && forall m :: 0 <= m <= i ==> p[m] in {r.f} + Down(ops, r.u)
    ensures InPlace(p, r, i, j) && j < l
  {
    assert !MustPrecede(p[j], p[l]) || j < l;
    assert r.v !in {r.f} + Down(ops, r.u);
  }

  /** What a recorded order never shows, by the order of its two edits. */
  lemma PairUnseen(w: seq<ToolInterval>, ops: set<ToolInterval>, o: ReadObservation, r: Cast, a: nat, b: nat, c: nat, d: nat)
    requires Timed(ops, o) && ErasablePair(ops, o, r) && MarkCalls(ops, r) && Linearization(w, ops) && InPlace(w, r, a, b)
    requires c < |w| && w[c] == r.c && d < |w| && w[d] == r.d
    ensures !Explains(w, OneLine(o, Marked(if c < d then 4 else 3, 'a')))
  {
    var n: nat := if c < d then 4 else 3;
    MarksTame(ops, r);
    MarkedSame(n, 'a', n, 'a');
    assert b < c && b < d by { assert !MustPrecede(w[b], w[c]) || b < c; assert !MustPrecede(w[b], w[d]) || b < d; }
    forall k: nat | k <= |w| ensures !ShownAt(w, OneLine(o, Marked(n, 'a')), k) {
      if CanInsert(w, o, k) {
        assert c < k && d < k;
        MarksAt(w, ops, r, a, b, k);
        MarkedSame(n, 'a', Marks(w[..k], r), Letter(w[..k], r));
        assert w[..k][c] == r.c && w[..k][d] == r.d;
        if r.z !in w[..k] { MarksBehind(w[..k], b, c, d, r); }
        NotShownAt(w, o, Marked(n, 'a'), k);
      }
    }
  }

  lemma PairLost(ops: set<ToolInterval>, o: ReadObservation, r: Cast)
    requires Timed(ops, o) && ErasablePair(ops, o, r) && MarkCalls(ops, r)
    ensures Loses(ops, o)
  {
    var s, e, f, g := PairOrder(ops, o, r, r.c, r.d);
    SeenIn(s, ops, o, r, e, f, g);
    OutcomesMeaning(Marked(0, 'a'), ops, None);
    var w := WitnessExists(ops, None, Marked(0, 'a'));
    var a, b := LetterTells(w, ops, r);
    assert r.c in w && r.d in w;
    var c: nat :| c < |w| && w[c] == r.c;
    var d: nat :| d < |w| && w[d] == r.d;
    PairUnseen(w, ops, o, r, a, b, c, d);
    if c < d {
      var p, i, j, k := PairOrder(ops, o, r, r.d, r.c);
      MarksLost(w, p, ops, o, r, i, j, k);
    } else {
      MarksLost(w, s, ops, o, r, e, f, g);
    }
  }
}
