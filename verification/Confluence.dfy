/** When the order of overlapping calls cannot matter. */
module Confluence {
  import opened Wrappers
  import opened Intervals
  import opened Replay

  /** Neither call ended before the other started. */
  predicate Concurrent(a: ToolInterval, b: ToolInterval) {
    !MustPrecede(a, b) && !MustPrecede(b, a)
  }

  /** On this file, both orders are valid or neither is, and they give the same content. */
  ghost predicate CommuteAt(file: File, a: ToolInterval, b: ToolInterval) {
    Run(file, [a, b]) == Run(file, [b, a])
  }

  /** Wherever the replay of the trace can stand with two overlapping calls still to come,
      it may take them in either order. Files that no valid prefix reaches do not matter. */
  ghost predicate OverlapsCommute(ops: set<ToolInterval>, file: File) {
    forall p, a, b :: Meet(p, a, b, ops, file) ==> CommuteAt(Run(file, p).file, a, b)
  }

  /** The replay can stand after `p`, with both `a` and `b` still to come, and they overlap. */
  ghost predicate Meet(p: seq<ToolInterval>, a: ToolInterval, b: ToolInterval, ops: set<ToolInterval>, file: File)
    ensures Meet(p, a, b, ops, file) ==> Run(file, p).Reached?
  {
    && p in ValidPrefixes(ops, file) && Run(file, p).Reached?
    && a in ops && b in ops && a != b && Concurrent(a, b) && a !in p && b !in p
  }

  /** `a` may change places with the call before it, at every place in `pre` that is reached. */
  ghost predicate Bubbles(file: File, pre: seq<ToolInterval>, a: ToolInterval) {
    forall i :: 0 <= i < |pre| && Run(file, pre[..i]).Reached? ==> CommuteAt(Run(file, pre[..i]).file, pre[i], a)
  }

  lemma BubblesTail(file: File, pre: seq<ToolInterval>, a: ToolInterval)
    requires pre != [] && Bubbles(file, pre, a)
    ensures CommuteAt(file, pre[0], a)
    ensures Apply(file, pre[0]).Some? ==> Bubbles(Apply(file, pre[0]), pre[1..], a)
  {
    var x, rest := pre[0], pre[1..];
    assert Run(file, pre[..0]) == Reached(file);
    if Apply(file, x).Some? {
      forall i | 0 <= i < |rest| && Run(Apply(file, x), rest[..i]).Reached?
        ensures CommuteAt(Run(Apply(file, x), rest[..i]).file, rest[i], a)
      {
        assert pre[..i + 1] == [x] + rest[..i];
        ConsRun(file, x, rest[..i]);
      }
    }
  }

  lemma {:induction false} BubbleToFront(file: File, a: ToolInterval, pre: seq<ToolInterval>, post: seq<ToolInterval>)
    requires Bubbles(file, pre, a)
    ensures Run(file, pre + [a] + post) == Run(file, [a] + pre + post)
    decreases |pre|
  {
    if pre == [] {
      assert pre + [a] + post == [a] + pre + post;
    } else {
      var x, rest := pre[0], pre[1..];
      BubblesTail(file, pre, a);
      if Apply(file, x).Some? { BubbleToFront(Apply(file, x), a, rest, post); }
      assert pre + [a] + post == [x] + (rest + [a] + post);
      assert [x] + ([a] + rest + post) == [x, a] + (rest + post);
      assert [a] + pre + post == [a, x] + (rest + post);
      RunConcat(file, [x, a], rest + post);
      RunConcat(file, [a, x], rest + post);
      RunConcat(file, [x], rest + [a] + post);
      RunConcat(file, [x], [a] + rest + post);
    }
  }

  lemma RemoveOne(a: ToolInterval, pre: seq<ToolInterval>, post: seq<ToolInterval>, ops: set<ToolInterval>)
    requires Linearization(pre + [a] + post, ops)
    ensures Linearization(pre + post, ops - {a})
    ensures forall x :: x in pre ==> x in ops && x != a && !MustPrecede(a, x)
  {
    var whole, cut, n := pre + [a] + post, pre + post, |pre|;
    assert whole[n] == a;
    forall i | 0 <= i < |cut| ensures cut[i] == whole[if i < n then i else i + 1] && cut[i] != a {
      if i < n { assert whole[i] != whole[n]; } else { assert whole[n] != whole[i + 1]; }
    }
    forall x | x in pre ensures x in ops && x != a && !MustPrecede(a, x) {
      var i :| 0 <= i < n && pre[i] == x;
      assert whole[i] == x && x in whole;
    }
    forall b ensures b in cut <==> b in ops - {a} {
      assert b in whole <==> b in pre || b == a || b in post;
    }
  }

  lemma CutAt(a: ToolInterval, t: seq<ToolInterval>) returns (pre: seq<ToolInterval>, post: seq<ToolInterval>)
    requires a in t
    ensures t == pre + [a] + post
  {
    var n :| 0 <= n < |t| && t[n] == a;
    pre, post := t[..n], t[n + 1..];
  }

  /** What a linearization has placed before index `i` is a node of the search, if it replays. */
  lemma {:induction false} PrefixOfLinearization(t: seq<ToolInterval>, ops: set<ToolInterval>, file: File, i: nat)
    requires Linearization(t, ops) && i <= |t| && Run(file, t[..i]).Reached?
    ensures t[..i] in ValidPrefixes(ops, file)
    decreases i
  {
    if i > 0 {
      var a, rest := t[0], t[1..];
      assert t == [a] + rest && t[..i] == [a] + rest[..i - 1];
      LinearizationCons(a, rest, ops);
      ConsRun(file, a, rest[..i - 1]);
      PrefixOfLinearization(rest, ops - {a}, Apply(file, a), i - 1);
      ValidPrefixesCons(a, rest[..i - 1], ops, file);
    }
  }

  lemma AllCommute(a: ToolInterval, pre: seq<ToolInterval>, post: seq<ToolInterval>, ops: set<ToolInterval>, file: File)
    requires Linearization(pre + [a] + post, ops) && OverlapsCommute(ops, file) && Ready(a, ops)
    ensures Bubbles(file, pre, a)
  {
    var t := pre + [a] + post;
    RemoveOne(a, pre, post, ops);
    forall i | 0 <= i < |pre| && Run(file, pre[..i]).Reached?
      ensures CommuteAt(Run(file, pre[..i]).file, pre[i], a)
    {
      assert t[..i] == pre[..i] && t[i] == pre[i] && pre[i] in pre;
      PrefixOfLinearization(t, ops, file, i);
      assert Concurrent(pre[i], a);
      assert Meet(t[..i], pre[i], a, ops, file);
    }
  }

  /** A ready call can be moved to the front of any linearization. */
  lemma MoveToFront(a: ToolInterval, t: seq<ToolInterval>, ops: set<ToolInterval>, file: File)
    returns (rest: seq<ToolInterval>)
    requires Linearization(t, ops) && OverlapsCommute(ops, file) && Ready(a, ops) && a in t
    ensures Linearization(rest, ops - {a}) && Run(file, t) == Run(file, [a] + rest)
  {
    var pre, post := CutAt(a, t);
    RemoveOne(a, pre, post, ops);
    AllCommute(a, pre, post, ops, file);
    BubbleToFront(file, a, pre, post);
    rest := pre + post;
    assert [a] + pre + post == [a] + rest;
  }

  lemma OverlapsCommuteTail(a: ToolInterval, ops: set<ToolInterval>, file: File)
    requires OverlapsCommute(ops, file) && Ready(a, ops) && Apply(file, a).Some?
    ensures OverlapsCommute(ops - {a}, Apply(file, a))
  {
    forall p, x, y | Meet(p, x, y, ops - {a}, Apply(file, a))
      ensures CommuteAt(Run(Apply(file, a), p).file, x, y)
    {
      ValidPrefixesCons(a, p, ops, file);
      ConsRun(file, a, p);
      assert Meet([a] + p, x, y, ops, file);
    }
  }

  /** Confluence: if overlapping calls commute on the files that the replay reaches, all
      linearizations of the trace replay to the same outcome: all of them break, or all
      end in the same content. */
  lemma {:induction false} Confluent(s: seq<ToolInterval>, t: seq<ToolInterval>, ops: set<ToolInterval>, file: File)
    requires Linearization(s, ops) && Linearization(t, ops) && OverlapsCommute(ops, file)
    ensures Run(file, s) == Run(file, t)
    decreases |s|
  {
    LinearizationLength(s, ops);
    LinearizationLength(t, ops);
    if s != [] {
      var a, rest := s[0], s[1..];
      assert s == [a] + rest;
      LinearizationCons(a, rest, ops);
      assert a in t;
      var other := MoveToFront(a, t, ops, file);
      if Apply(file, a).Some? {
        OverlapsCommuteTail(a, ops, file);
        Confluent(rest, other, ops - {a}, Apply(file, a));
      }
      ConsRun(file, a, rest);
      ConsRun(file, a, other);
    }
  }

  lemma ConsRun(file: File, a: ToolInterval, tail: seq<ToolInterval>)
    ensures Run(file, [a] + tail) == if Apply(file, a).None? then Broken else Run(Apply(file, a), tail)
  {
    assert ([a] + tail)[1..] == tail;
  }

  lemma RunTwo(file: File, a: ToolInterval, b: ToolInterval)
    ensures Run(file, [a, b]) == if Apply(file, a).None? || Apply(Apply(file, a), b).None? then Broken
                                 else Reached(Apply(Apply(file, a), b))
  {
    ConsRun(file, a, [b]);
    assert [a] + [b] == [a, b];
  }

  ghost function FinalContents(outcome: Outcome): set<string> {
    match outcome
    case Reached(Some(text)) => {text}
    case _ => {}
  }

  /** So the search finds at most one content, and it finds one exactly when some
      linearization (equivalently, any) replays. */
  lemma ConfluentOutcome(order: seq<ToolInterval>, ops: set<ToolInterval>, file: File)
    requires Linearization(order, ops) && OverlapsCommute(ops, file)
    ensures Outcomes(ops, file) == FinalContents(Run(file, order))
  {
    var contents := FinalContents(Run(file, order));
    forall text: string ensures text in Outcomes(ops, file) <==> text in contents {
      ConfluentText(text, order, ops, file);
      FinalMeaning(Run(file, order), text);
    }
  }

  lemma FinalMeaning(outcome: Outcome, text: string)
    ensures text in FinalContents(outcome) <==> outcome == Reached(Some(text))
  {
  }

  lemma ConfluentText(text: string, order: seq<ToolInterval>, ops: set<ToolInterval>, file: File)
    requires Linearization(order, ops) && OverlapsCommute(ops, file)
    ensures text in Outcomes(ops, file) <==> Run(file, order) == Reached(Some(text))
  {
    OutcomesMeaning(text, ops, file);
    if other :| Completes(other, ops, file, text) { Confluent(order, other, ops, file); }
    if Run(file, order) == Reached(Some(text)) { assert Completes(order, ops, file, text); }
  }

  /** No two calls overlap. */
  ghost predicate Sequential(ops: set<ToolInterval>) {
    forall a, b :: a in ops && b in ops && a != b ==> !Concurrent(a, b)
  }

  /** Without overlaps there is one linearization: the calls by their end. */
  lemma SequentialCollapse(s: seq<ToolInterval>, ops: set<ToolInterval>)
    requires WellTimed(ops) && Sequential(ops)
    requires Distinct(s) && (forall a :: a in s <==> a in ops)
    ensures Linearization(s, ops) <==> forall i, j :: 0 <= i < j < |s| ==> s[i].end < s[j].end
    ensures forall t :: Linearization(s, ops) && Linearization(t, ops) ==> s == t
  {
    if Linearization(s, ops) {
      forall i, j | 0 <= i < j < |s| ensures s[i].end < s[j].end {
        assert s[i] in s && s[j] in s && !Concurrent(s[i], s[j]);
        assert !MustPrecede(s[j], s[i]);
      }
      forall t | Linearization(t, ops) ensures s == t { SequentialUnique(s, t, ops); }
    }
    if forall i, j :: 0 <= i < j < |s| ==> s[i].end < s[j].end {
      forall i, j | 0 <= i < j < |s| ensures !MustPrecede(s[j], s[i]) {
        assert s[i] in s && s[j] in s;
      }
    }
  }

  lemma {:induction false} SequentialUnique(s: seq<ToolInterval>, t: seq<ToolInterval>, ops: set<ToolInterval>)
    requires Linearization(s, ops) && Linearization(t, ops) && Sequential(ops)
    ensures s == t
    decreases |s|
  {
    LinearizationLength(s, ops);
    LinearizationLength(t, ops);
    if s != [] {
      assert s == [s[0]] + s[1..] && t == [t[0]] + t[1..];
      LinearizationCons(s[0], s[1..], ops);
      LinearizationCons(t[0], t[1..], ops);
      assert s[0] == t[0];
      SequentialUnique(s[1..], t[1..], ops - {s[0]});
    }
  }

  /** A trace without overlaps recovers the fold of its calls in end order, or nothing. */
  lemma SequentialOutcome(order: seq<ToolInterval>, ops: set<ToolInterval>, file: File)
    requires WellTimed(ops) && Sequential(ops)
    requires Distinct(order) && (forall a :: a in order <==> a in ops)
    requires forall i, j :: 0 <= i < j < |order| ==> order[i].end < order[j].end
    ensures Outcomes(ops, file) == FinalContents(Run(file, order))
  {
    SequentialCollapse(order, ops);
    ConfluentOutcome(order, ops, file);
  }
}
