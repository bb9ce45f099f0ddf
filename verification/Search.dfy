/** The exhaustive search over linearizations, with its node limit and its table of
    final contents. */
module Search {
  import opened Wrappers
  import opened Intervals
  import opened Replay

  const MAX_LINEARIZATIONS := 200_000

  /** A content hash: a free constructor, so that equal hashes mean equal contents. */
  datatype Digest = Sha256(content: string)

  datatype Candidate = Candidate(content: string, order: seq<ToolInterval>)

  // ---------------------------------------------------------------- counting search nodes

  ghost function PrependAll(a: ToolInterval, ps: set<seq<ToolInterval>>): set<seq<ToolInterval>> {
    set p | p in ps :: [a] + p
  }

  lemma {:induction false} PrependAllSize(a: ToolInterval, ps: set<seq<ToolInterval>>)
    ensures |PrependAll(a, ps)| == |ps|
  {
    if p :| p in ps {
      PrependAllSize(a, ps - {p});
      var rest := PrependAll(a, ps - {p});
      assert PrependAll(a, ps) == rest + {[a] + p};
      forall q | q in ps - {p} ensures [a] + q != [a] + p {
        assert ([a] + q)[1..] == q && ([a] + p)[1..] == p;
      }
    }
  }

  /** The nonempty valid prefixes whose first operation is in `firsts`. */
  ghost function Covered(firsts: set<ToolInterval>, ops: set<ToolInterval>, file: File): set<seq<ToolInterval>> {
    set p | p in ValidPrefixes(ops, file) && p != [] && p[0] in firsts
  }

  ghost function SubtreeSize(a: ToolInterval, ops: set<ToolInterval>, file: File): nat {
    |Below(a, ops, file)|
  }

  lemma PrependAllMember(p: seq<ToolInterval>, a: ToolInterval, ps: set<seq<ToolInterval>>)
    ensures p in PrependAll(a, ps) <==> p != [] && p[0] == a && p[1..] in ps
  {
    if p != [] { assert p == [p[0]] + p[1..]; }
    if p in PrependAll(a, ps) {
      var q :| q in ps && p == [a] + q;
      assert p[1..] == q;
    }
  }

  ghost function Below(a: ToolInterval, ops: set<ToolInterval>, file: File): set<seq<ToolInterval>> {
    if Apply(file, a).None? then {} else ValidPrefixes(ops - {a}, Apply(file, a))
  }

  lemma CoveredMember(p: seq<ToolInterval>, a: ToolInterval, firsts: set<ToolInterval>, ops: set<ToolInterval>, file: File)
    requires Ready(a, ops) && a !in firsts
    ensures p in Covered(firsts + {a}, ops, file)
       <==> p in Covered(firsts, ops, file) || p in PrependAll(a, Below(a, ops, file))
    ensures !(p in Covered(firsts, ops, file) && p in PrependAll(a, Below(a, ops, file)))
  {
    PrependAllMember(p, a, Below(a, ops, file));
    if p != [] {
      assert p == [p[0]] + p[1..];
      ValidPrefixesCons(p[0], p[1..], ops, file);
    }
  }

  lemma CoveredStep(a: ToolInterval, firsts: set<ToolInterval>, ops: set<ToolInterval>, file: File)
    requires Ready(a, ops) && a !in firsts
    ensures |Covered(firsts + {a}, ops, file)| == |Covered(firsts, ops, file)| + SubtreeSize(a, ops, file)
  {
    var whole, part, sub := Covered(firsts + {a}, ops, file), Covered(firsts, ops, file), PrependAll(a, Below(a, ops, file));
    forall p ensures (p in whole <==> p in part || p in sub) && !(p in part && p in sub) {
      CoveredMember(p, a, firsts, ops, file);
    }
    DisjointUnionSize(whole, part, sub);
    PrependAllSize(a, Below(a, ops, file));
  }

  lemma DisjointUnionSize<T>(whole: set<T>, a: set<T>, b: set<T>)
    requires forall x :: x in whole <==> x in a || x in b
    requires forall x :: !(x in a && x in b)
    ensures |whole| == |a| + |b|
  {
    assert whole == a + b;
  }

  /** One node for the empty prefix, and one for each prefix below it. */
  lemma CoveredSome(firsts: set<ToolInterval>, ops: set<ToolInterval>, file: File)
    ensures |ValidPrefixes(ops, file)| >= 1 + |Covered(firsts, ops, file)|
  {
    var all, covered := ValidPrefixes(ops, file), Covered(firsts, ops, file);
    assert [] in all && [] !in covered;
    SubsetSize(covered + {[]}, all);
  }

  lemma CoveredAll(firsts: set<ToolInterval>, ops: set<ToolInterval>, file: File)
    requires forall a :: Ready(a, ops) ==> a in firsts
    ensures |ValidPrefixes(ops, file)| == 1 + |Covered(firsts, ops, file)|
  {
    var all, covered := ValidPrefixes(ops, file), Covered(firsts, ops, file);
    forall p ensures p in all <==> p in covered || p in {[]} {
      if p != [] { FirstIsReady(p, ops, file); }
    }
    DisjointUnionSize(all, covered, {[]});
  }

  lemma FirstIsReady(p: seq<ToolInterval>, ops: set<ToolInterval>, file: File)
    requires p != []
    ensures p in ValidPrefixes(ops, file) ==> Ready(p[0], ops)
  {
    assert p == [p[0]] + p[1..];
    ValidPrefixesCons(p[0], p[1..], ops, file);
  }

  lemma SubsetSize<T>(a: set<T>, b: set<T>)
    requires a <= b
    ensures |a| <= |b|
  {
    assert b == a + (b - a);
  }

  // ---------------------------------------------------------------- the table of candidates

  /** The entry that the search keeps for `text`, below the node that `ordered` reaches. */
  ghost predicate Recorded(c: Candidate, ordered: seq<ToolInterval>, ops: set<ToolInterval>, file: File, text: string) {
    && c.content == text
    && ordered <= c.order
    && IsWitness(c.order[|ordered|..], ops, file, text)
  }

  /** `after` is `before` plus one entry for each new outcome of the operations in `ops`. */
  ghost predicate Extended(before: map<Digest, Candidate>, after: map<Digest, Candidate>,
                           ordered: seq<ToolInterval>, ops: set<ToolInterval>, file: File)
  {
    && (forall d :: d in after <==> d in before || d.content in Outcomes(ops, file))
    && (forall d :: d in before ==> after[d] == before[d])
    && (forall d :: d in after && d !in before ==> Recorded(after[d], ordered, ops, file, d.content))
  }

  ghost predicate LeadsTo(firsts: set<ToolInterval>, text: string, ops: set<ToolInterval>, file: File) {
    exists a :: a in firsts && text in OutcomesVia(a, ops, file)
  }

  lemma LeadsToOneMore(firsts: set<ToolInterval>, a: ToolInterval, text: string, ops: set<ToolInterval>, file: File)
    ensures LeadsTo(firsts + {a}, text, ops, file) <==> LeadsTo(firsts, text, ops, file) || text in OutcomesVia(a, ops, file)
  {
    if text in OutcomesVia(a, ops, file) { assert a in firsts + {a}; }
    if b :| b in firsts && text in OutcomesVia(b, ops, file) { assert b in firsts + {a}; }
  }

  /** The same while only the ready operations in `done` have been followed. */
  ghost predicate ExtendedVia(done: set<ToolInterval>, before: map<Digest, Candidate>, after: map<Digest, Candidate>,
                              ordered: seq<ToolInterval>, ops: set<ToolInterval>, file: File)
  {
    && (forall d :: d in after <==> d in before || LeadsTo(done, d.content, ops, file))
    && (forall d :: d in before ==> after[d] == before[d])
    && (forall d :: d in after && d !in before ==> Recorded(after[d], ordered, ops, file, d.content))
  }

  /** Following one more operation, the next one in key order. */
  lemma FollowOne(a: ToolInterval, done: set<ToolInterval>, before: map<Digest, Candidate>, mid: map<Digest, Candidate>,
                  after: map<Digest, Candidate>, ordered: seq<ToolInterval>, ops: set<ToolInterval>, file: File)
    requires UniqueIds(ops) && Ready(a, ops) && Apply(file, a).Some?
    requires forall b :: Ready(b, ops) && KeyLess(b, a) ==> b in done
    requires ExtendedVia(done, before, mid, ordered, ops, file)
    requires Extended(mid, after, ordered + [a], ops - {a}, Apply(file, a))
    ensures ExtendedVia(done + {a}, before, after, ordered, ops, file)
  {
    forall d: Digest ensures d in after <==> d in before || LeadsTo(done + {a}, d.content, ops, file) {
      LeadsToOneMore(done, a, d.content, ops, file);
      assert d in mid <==> d in before || LeadsTo(done, d.content, ops, file);
    }
    forall d | d in after && d !in before ensures Recorded(after[d], ordered, ops, file, d.content) {
      if d !in mid {
        assert !LeadsTo(done, d.content, ops, file);
        RecordedThrough(after[d], a, ordered, ops, file, d.content);
      }
    }
  }

  lemma RecordedThrough(c: Candidate, a: ToolInterval, ordered: seq<ToolInterval>, ops: set<ToolInterval>, file: File,
                        text: string)
    requires UniqueIds(ops) && Ready(a, ops) && Apply(file, a).Some?
    requires forall b :: Ready(b, ops) && KeyLess(b, a) ==> text !in OutcomesVia(b, ops, file)
    requires Recorded(c, ordered + [a], ops - {a}, Apply(file, a), text)
    ensures Recorded(c, ordered, ops, file, text)
  {
    var n := |ordered|;
    var tail := c.order[n + 1..];
    assert |ordered + [a]| == n + 1;
    WitnessStep(a, tail, ops, file, text);
    assert c.order[n] == (ordered + [a])[n];
    assert c.order[n..] == [a] + tail;
  }

  lemma FollowedAll(done: set<ToolInterval>, before: map<Digest, Candidate>, after: map<Digest, Candidate>,
                    ordered: seq<ToolInterval>, ops: set<ToolInterval>, file: File)
    requires ops != {} && ExtendedVia(done, before, after, ordered, ops, file)
    requires forall a :: Ready(a, ops) <==> a in done
    ensures Extended(before, after, ordered, ops, file)
  {
    forall d: Digest ensures d.content in Outcomes(ops, file)
                        <==> LeadsTo(done, d.content, ops, file) {
      OutcomesStep(d.content, ops, file);
    }
  }

  lemma Leaf(before: map<Digest, Candidate>, after: map<Digest, Candidate>, ordered: seq<ToolInterval>, file: File)
    requires after == if file.Some? && Sha256(file.value) !in before
                      then before[Sha256(file.value) := Candidate(file.value, ordered)] else before
    ensures Extended(before, after, ordered, {}, file)
    ensures |ValidPrefixes({}, file)| == 1
  {
    assert ValidPrefixes({}, file) == {[]};
    forall d: Digest ensures d.content in Outcomes({}, file) <==> file == Some(d.content) {
      OutcomesStep(d.content, {}, file);
    }
    if file.Some? {
      assert Completes([], {}, file, file.value);
      assert ordered[|ordered|..] == [];
      assert IsWitness([], {}, file, file.value);
    }
  }

  /** Where the loop over the ready operations stands: `nodes` nodes below this one
      visited, and everything reached through `done` in the table. */
  ghost predicate Progress(done: set<ToolInterval>, nodes: int, before: map<Digest, Candidate>,
                           now: map<Digest, Candidate>, ordered: seq<ToolInterval>, ops: set<ToolInterval>, file: File)
  {
    && nodes == |Covered(done, ops, file)|
    && ExtendedVia(done, before, now, ordered, ops, file)
  }

  /** The ready operations before the `i`-th. */
  function Firsts(ready: seq<ToolInterval>, i: nat): set<ToolInterval>
    requires i <= |ready|
  {
    set a | a in ready[..i]
  }

  lemma ProgressAtStart(ready: seq<ToolInterval>, table: map<Digest, Candidate>, ordered: seq<ToolInterval>,
                        ops: set<ToolInterval>, file: File)
    ensures Progress(Firsts(ready, 0), 0, table, table, ordered, ops, file)
  {
    assert Firsts(ready, 0) == {};
    assert Covered({}, ops, file) == {};
  }

  /** The nodes below the next ready operation are new, and all of them are needed. */
  lemma NextNodes(ready: seq<ToolInterval>, i: nat, ops: set<ToolInterval>, file: File)
    requires i < |ready| && SortedByKey(ready)
    requires forall a :: a in ready <==> Ready(a, ops)
    ensures Ready(ready[i], ops) && Firsts(ready, i + 1) == Firsts(ready, i) + {ready[i]}
    ensures forall b :: Ready(b, ops) && KeyLess(b, ready[i]) ==> b in Firsts(ready, i)
    ensures |Covered(Firsts(ready, i) + {ready[i]}, ops, file)| == |Covered(Firsts(ready, i), ops, file)| + SubtreeSize(ready[i], ops, file)
    ensures |ValidPrefixes(ops, file)| >= 1 + |Covered(Firsts(ready, i), ops, file)| + SubtreeSize(ready[i], ops, file)
  {
    assert ready[i] in ready;
    NextInKeyOrder(ready, i);
    assert ready[..i + 1] == ready[..i] + [ready[i]];
    CoveredStep(ready[i], Firsts(ready, i), ops, file);
    CoveredSome(Firsts(ready, i) + {ready[i]}, ops, file);
  }

  lemma ProgressSkip(a: ToolInterval, done: set<ToolInterval>, nodes: int, before: map<Digest, Candidate>,
                     now: map<Digest, Candidate>, ordered: seq<ToolInterval>, ops: set<ToolInterval>, file: File)
    requires Progress(done, nodes, before, now, ordered, ops, file) && Apply(file, a).None?
    requires |Covered(done + {a}, ops, file)| == nodes
    ensures Progress(done + {a}, nodes, before, now, ordered, ops, file)
  {
  }

  lemma ProgressFollow(a: ToolInterval, done: set<ToolInterval>, nodes: int, before: map<Digest, Candidate>,
                       mid: map<Digest, Candidate>, after: map<Digest, Candidate>, ordered: seq<ToolInterval>,
                       ops: set<ToolInterval>, file: File)
    requires UniqueIds(ops) && Ready(a, ops) && Apply(file, a).Some?
    requires forall b :: Ready(b, ops) && KeyLess(b, a) ==> b in done
    requires Progress(done, nodes, before, mid, ordered, ops, file)
    requires |Covered(done + {a}, ops, file)| == nodes + SubtreeSize(a, ops, file)
    requires Extended(mid, after, ordered + [a], ops - {a}, Apply(file, a))
    ensures Progress(done + {a}, nodes + SubtreeSize(a, ops, file), before, after, ordered, ops, file)
  {
    FollowOne(a, done, before, mid, after, ordered, ops, file);
  }

  lemma ProgressAtEnd(ready: seq<ToolInterval>, nodes: int, before: map<Digest, Candidate>,
                      now: map<Digest, Candidate>, ordered: seq<ToolInterval>, ops: set<ToolInterval>, file: File)
    requires ops != {} && Progress(Firsts(ready, |ready|), nodes, before, now, ordered, ops, file)
    requires forall a :: a in ready <==> Ready(a, ops)
    ensures Extended(before, now, ordered, ops, file)
    ensures |ValidPrefixes(ops, file)| == 1 + nodes
  {
    var done := Firsts(ready, |ready|);
    assert ready[..|ready|] == ready;
    FollowedAll(done, before, now, ordered, ops, file);
    CoveredAll(done, ops, file);
  }

  method ReadyInOrder(remaining: set<ToolInterval>) returns (ready: seq<ToolInterval>)
    requires UniqueIds(remaining)
    ensures SortedByKey(ready)
    ensures forall a :: a in ready <==> Ready(a, remaining)
  {
    ready := SortByKey(set a | a in remaining && Ready(a, remaining));
  }

  class LinearizationSearch {
    var explored: nat
    var candidates: map<Digest, Candidate>

    constructor ()
      ensures explored == 0 && candidates == map[]
    {
      explored, candidates := 0, map[];
    }

    /** Explore everything below the node reached by `ordered`. `ok` is false when the
        node limit stops the search: exactly when the valid partial linearizations below
        this node, counted with the nodes explored before, exceed the limit. Otherwise
        the table gains exactly one entry per new outcome, holding its least witness. */
    method Visit(ordered: seq<ToolInterval>, remaining: set<ToolInterval>, file: File) returns (ok: bool)
      requires UniqueIds(remaining)
      modifies this
      ensures ok <==> old(explored) + |ValidPrefixes(remaining, file)| <= MAX_LINEARIZATIONS
      ensures ok ==> explored == old(explored) + |ValidPrefixes(remaining, file)|
      ensures ok ==> Extended(old(candidates), candidates, ordered, remaining, file)
      decreases remaining, 2
    {
      ghost var before := candidates;
      ghost var first := explored;
      explored := explored + 1;
      CoveredSome({}, remaining, file);
      if explored > MAX_LINEARIZATIONS { return false; }
      if remaining == {} {
        Record(ordered, file);
        return true;
      }
      var ready := ReadyInOrder(remaining);
      ok := VisitAll(ready, ordered, remaining, file, first, before);
    }

    /** All operations are placed: keep the first order met for each content. */
    method Record(ordered: seq<ToolInterval>, file: File)
      modifies this`candidates
      ensures Extended(old(candidates), candidates, ordered, {}, file)
      ensures |ValidPrefixes({}, file)| == 1
    {
      if file.Some? && Sha256(file.value) !in candidates {
        candidates := candidates[Sha256(file.value) := Candidate(file.value, ordered)];
      }
      Leaf(old(candidates), candidates, ordered, file);
    }

    /** One turn of the loop: follow `a` if it applies. */
    method VisitOne(a: ToolInterval, ghost done: set<ToolInterval>, ghost nodes: nat, ordered: seq<ToolInterval>,
                    remaining: set<ToolInterval>, file: File, ghost before: map<Digest, Candidate>) returns (ok: bool)
      requires UniqueIds(remaining) && Ready(a, remaining) && explored <= MAX_LINEARIZATIONS
      requires forall b :: Ready(b, remaining) && KeyLess(b, a) ==> b in done
      requires Progress(done, nodes, before, candidates, ordered, remaining, file)
      requires |Covered(done + {a}, remaining, file)| == nodes + SubtreeSize(a, remaining, file)
      modifies this
      ensures ok <==> old(explored) + SubtreeSize(a, remaining, file) <= MAX_LINEARIZATIONS
      ensures ok ==> explored == old(explored) + SubtreeSize(a, remaining, file)
      ensures ok ==> Progress(done + {a}, nodes + SubtreeSize(a, remaining, file), before, candidates, ordered, remaining, file)
      decreases remaining, 0
    {
      var next := Apply(file, a);
      if next.None? {
        ProgressSkip(a, done, nodes, before, candidates, ordered, remaining, file);
        return true;
      }
      ghost var mid := candidates;
      ok := Visit(ordered + [a], remaining - {a}, next);
      if ok { ProgressFollow(a, done, nodes, before, mid, candidates, ordered, remaining, file); }
    }

    /** The loop of `Visit` over the ready operations, in key order. */
    method VisitAll(ready: seq<ToolInterval>, ordered: seq<ToolInterval>, remaining: set<ToolInterval>, file: File,
                    ghost first: nat, ghost before: map<Digest, Candidate>) returns (ok: bool)
      requires UniqueIds(remaining) && remaining != {} && SortedByKey(ready)
      requires forall a :: a in ready <==> Ready(a, remaining)
      requires explored == first + 1 <= MAX_LINEARIZATIONS && candidates == before
      modifies this
      ensures ok <==> first + |ValidPrefixes(remaining, file)| <= MAX_LINEARIZATIONS
      ensures ok ==> explored == first + |ValidPrefixes(remaining, file)|
      ensures ok ==> Extended(before, candidates, ordered, remaining, file)
      decreases remaining, 1
    {
      ghost var nodes: nat := 0;
      ProgressAtStart(ready, before, ordered, remaining, file);
      for i := 0 to |ready|
        invariant explored == first + 1 + nodes <= MAX_LINEARIZATIONS
        invariant Progress(Firsts(ready, i), nodes, before, candidates, ordered, remaining, file)
      {
        NextNodes(ready, i, remaining, file);
        ok := VisitOne(ready[i], Firsts(ready, i), nodes, ordered, remaining, file, before);
        if !ok { return; }
        nodes := nodes + SubtreeSize(ready[i], remaining, file);
      }
      ProgressAtEnd(ready, nodes, before, candidates, ordered, remaining, file);
      return true;
    }
  }

  lemma NextInKeyOrder(ready: seq<ToolInterval>, i: nat)
    requires i < |ready| && SortedByKey(ready)
    ensures ready[i] !in ready[..i]
    ensures forall b :: b in ready && KeyLess(b, ready[i]) ==> b in ready[..i]
  {
    KeyLessTotal(ready[i], ready[i]);
    forall b | b in ready && KeyLess(b, ready[i]) ensures b in ready[..i] {
      var j :| 0 <= j < |ready| && ready[j] == b;
      KeyLessTotal(b, ready[i]);
    }
  }
}
