/** The second search of the recovery: every content reachable from a known starting
    text, without a node limit, the table keeping the LAST order met for each content. */
module LinearizedContents {
  import opened Wrappers
  import opened Intervals
  import opened Replay
  import opened Search

  /** `order` is the last of the orders that end in `text` and start in `firsts`, in the
      order in which the search meets them. */
  ghost predicate IsLastVia(order: seq<ToolInterval>, firsts: set<ToolInterval>, ops: set<ToolInterval>,
                            file: File, text: string)
  {
    && Completes(order, ops, file, text)
    && order != [] && order[0] in firsts
    && forall other :: Completes(other, ops, file, text) && other != [] && other[0] in firsts ==> LexLe(other, order)
  }

  ghost predicate IsLastWitness(order: seq<ToolInterval>, ops: set<ToolInterval>, file: File, text: string) {
    && Completes(order, ops, file, text)
    && forall other :: Completes(other, ops, file, text) ==> LexLe(other, order)
  }

  lemma LastWitnessUnique(s: seq<ToolInterval>, t: seq<ToolInterval>, ops: set<ToolInterval>, file: File, text: string)
    requires IsLastWitness(s, ops, file, text) && IsLastWitness(t, ops, file, text)
    ensures s == t
  {
    LinearizationLength(s, ops);
    LinearizationLength(t, ops);
    LexLeAntisymmetric(s, t);
  }

  ghost predicate LastRecorded(c: Candidate, ordered: seq<ToolInterval>, ops: set<ToolInterval>, file: File, text: string) {
    c.content == text && ordered <= c.order && IsLastWitness(c.order[|ordered|..], ops, file, text)
  }

  /** `after` is `before` with the entries of all new outcomes overwritten. */
  ghost predicate Overwritten(before: map<Digest, Candidate>, after: map<Digest, Candidate>,
                              ordered: seq<ToolInterval>, ops: set<ToolInterval>, file: File)
  {
    && (forall d :: d in after <==> d in before || d.content in Outcomes(ops, file))
    && (forall d :: d in after ==> if d.content in Outcomes(ops, file)
                                   then LastRecorded(after[d], ordered, ops, file, d.content)
                                   else d in before && after[d] == before[d])
  }

  ghost predicate OverwrittenVia(done: set<ToolInterval>, before: map<Digest, Candidate>, after: map<Digest, Candidate>,
                                 ordered: seq<ToolInterval>, ops: set<ToolInterval>, file: File)
  {
    && (forall d :: d in after <==> d in before || LeadsTo(done, d.content, ops, file))
    && (forall d :: d in after ==> if LeadsTo(done, d.content, ops, file)
                                   then after[d].content == d.content && ordered <= after[d].order
                                        && IsLastVia(after[d].order[|ordered|..], done, ops, file, d.content)
                                   else d in before && after[d] == before[d])
  }

  /** An order that starts later in the key order comes later. */
  lemma LastStep(a: ToolInterval, tail: seq<ToolInterval>, done: set<ToolInterval>, ops: set<ToolInterval>,
                 file: File, text: string)
    requires Ready(a, ops) && Apply(file, a).Some?
    requires forall b :: b in done ==> KeyLess(b, a)
    requires IsLastWitness(tail, ops - {a}, Apply(file, a), text)
    ensures IsLastVia([a] + tail, done + {a}, ops, file, text)
  {
    var order := [a] + tail;
    assert order[0] == a && order[1..] == tail;
    CompletesCons(order, ops, file, text);
    forall other | Completes(other, ops, file, text) && other != [] && other[0] in done + {a}
      ensures LexLe(other, order)
    {
      CompletesCons(other, ops, file, text);
    }
  }

  /** An operation through which `text` is not reached changes nothing for `text`. */
  lemma LastKept(a: ToolInterval, order: seq<ToolInterval>, done: set<ToolInterval>, ops: set<ToolInterval>,
                 file: File, text: string)
    requires text !in OutcomesVia(a, ops, file) && IsLastVia(order, done, ops, file, text)
    ensures IsLastVia(order, done + {a}, ops, file, text)
  {
    forall other | Completes(other, ops, file, text) && other != [] && other[0] in done + {a}
      ensures LexLe(other, order)
    {
      CompletesCons(other, ops, file, text);
      if other[0] == a { OutcomesMeaning(text, ops - {a}, Apply(file, a)); }
    }
  }

  lemma OverwriteOne(a: ToolInterval, done: set<ToolInterval>, before: map<Digest, Candidate>,
                     mid: map<Digest, Candidate>, after: map<Digest, Candidate>, ordered: seq<ToolInterval>,
                     ops: set<ToolInterval>, file: File)
    requires Ready(a, ops) && (forall b :: b in done ==> KeyLess(b, a))
    requires OverwrittenVia(done, before, mid, ordered, ops, file)
    requires if Apply(file, a).None? then after == mid
             else Overwritten(mid, after, ordered + [a], ops - {a}, Apply(file, a))
    ensures OverwrittenVia(done + {a}, before, after, ordered, ops, file)
  {
    forall d: Digest ensures LeadsTo(done + {a}, d.content, ops, file)
                        <==> LeadsTo(done, d.content, ops, file) || d.content in OutcomesVia(a, ops, file) {
      LeadsToOneMore(done, a, d.content, ops, file);
    }
    forall d | d in after && LeadsTo(done + {a}, d.content, ops, file)
      ensures after[d].content == d.content && ordered <= after[d].order
      ensures IsLastVia(after[d].order[|ordered|..], done + {a}, ops, file, d.content)
    {
      if d.content in OutcomesVia(a, ops, file) {
        LastThrough(after[d], a, done, ordered, ops, file, d.content);
      } else {
        LastKept(a, after[d].order[|ordered|..], done, ops, file, d.content);
      }
    }
  }

  lemma LastThrough(c: Candidate, a: ToolInterval, done: set<ToolInterval>, ordered: seq<ToolInterval>,
                    ops: set<ToolInterval>, file: File, text: string)
    requires Ready(a, ops) && Apply(file, a).Some? && (forall b :: b in done ==> KeyLess(b, a))
    requires LastRecorded(c, ordered + [a], ops - {a}, Apply(file, a), text)
    ensures ordered <= c.order && IsLastVia(c.order[|ordered|..], done + {a}, ops, file, text)
  {
    var n := |ordered|;
    var tail := c.order[n + 1..];
    LastStep(a, tail, done, ops, file, text);
    assert |ordered + [a]| == n + 1 && c.order[n] == (ordered + [a])[n];
    assert c.order[n..] == [a] + tail;
  }

  lemma OverwrittenAll(done: set<ToolInterval>, before: map<Digest, Candidate>, after: map<Digest, Candidate>,
                       ordered: seq<ToolInterval>, ops: set<ToolInterval>, file: File)
    requires ops != {} && OverwrittenVia(done, before, after, ordered, ops, file)
    requires forall a :: Ready(a, ops) <==> a in done
    ensures Overwritten(before, after, ordered, ops, file)
  {
    forall d: Digest ensures d.content in Outcomes(ops, file) <==> LeadsTo(done, d.content, ops, file) {
      OutcomesStep(d.content, ops, file);
    }
    forall d | d in after && d.content in Outcomes(ops, file)
      ensures LastRecorded(after[d], ordered, ops, file, d.content)
    {
      forall other | Completes(other, ops, file, d.content) ensures other != [] && other[0] in done {
        LinearizationLength(other, ops);
        CompletesCons(other, ops, file, d.content);
      }
    }
  }

  // ---------------------------------------------------------------- the order of discovery

  /** The search meets the first order of `one` no later than the first order of `two`. */
  ghost predicate FirstBefore(one: string, two: string, ops: set<ToolInterval>, file: File) {
    forall w, v :: IsWitness(w, ops, file, one) && IsWitness(v, ops, file, two) ==> LexLe(w, v)
  }

  /** `after` is `before` with the new outcomes behind it, as the search meets them: a
      dictionary keeps a key where it was first put. */
  ghost predicate Discovered(before: seq<Digest>, after: seq<Digest>, ops: set<ToolInterval>, file: File) {
    && before <= after && Distinct(after)
    && (forall d :: d in after <==> d in before || d.content in Outcomes(ops, file))
    && (forall i, j :: |before| <= i < j < |after| ==> FirstBefore(after[i].content, after[j].content, ops, file))
  }

  /** The same while only the ready operations in `done` have been followed. */
  ghost predicate DiscoveredVia(done: set<ToolInterval>, before: seq<Digest>, after: seq<Digest>,
                                ops: set<ToolInterval>, file: File)
  {
    && before <= after && Distinct(after)
    && (forall d :: d in after <==> d in before || LeadsTo(done, d.content, ops, file))
    && (forall i, j :: |before| <= i < j < |after| ==> FirstBefore(after[i].content, after[j].content, ops, file))
  }

  /** The first order of a content begins with the least operation through which it is reached. */
  lemma WitnessStart(w: seq<ToolInterval>, b: ToolInterval, ops: set<ToolInterval>, file: File, text: string)
    requires UniqueIds(ops) && IsWitness(w, ops, file, text) && Ready(b, ops) && text in OutcomesVia(b, ops, file)
    ensures w != [] && Ready(w[0], ops) && text in OutcomesVia(w[0], ops, file)
    ensures w[0] == b || KeyLess(w[0], b)
    ensures IsWitness(w[1..], ops - {w[0]}, Apply(file, w[0]), text)
  {
    var other := OrderThrough(b, ops, file, text);
    LinearizationLength(w, ops);
    LinearizationLength(other, ops);
    assert LexLe(w, other);
    CompletesCons(w, ops, file, text);
    OutcomesMeaning(text, ops - {w[0]}, Apply(file, w[0]));
    WitnessTail(w, ops, file, text);
  }

  lemma OrderThrough(b: ToolInterval, ops: set<ToolInterval>, file: File, text: string) returns (other: seq<ToolInterval>)
    requires Ready(b, ops) && text in OutcomesVia(b, ops, file)
    ensures Completes(other, ops, file, text) && other != [] && other[0] == b
  {
    OutcomesMeaning(text, ops - {b}, Apply(file, b));
    var tail :| Completes(tail, ops - {b}, Apply(file, b), text);
    other := [b] + tail;
    assert other[0] == b && other[1..] == tail;
    CompletesCons(other, ops, file, text);
  }

  /** A content that is reached through `a` and through nothing before it. */
  lemma StartsWith(w: seq<ToolInterval>, a: ToolInterval, done: set<ToolInterval>, text: string, ops: set<ToolInterval>, file: File)
    requires UniqueIds(ops) && Ready(a, ops) && IsWitness(w, ops, file, text)
    requires forall b :: Ready(b, ops) && KeyLess(b, a) ==> b in done
    requires !LeadsTo(done, text, ops, file) && text in OutcomesVia(a, ops, file)
    ensures w != [] && w[0] == a && IsWitness(w[1..], ops - {a}, Apply(file, a), text)
  {
    WitnessStart(w, a, ops, file, text);
    assert w[0] !in done;
  }

  lemma WitnessTail(w: seq<ToolInterval>, ops: set<ToolInterval>, file: File, text: string)
    requires w != [] && IsWitness(w, ops, file, text)
    ensures IsWitness(w[1..], ops - {w[0]}, Apply(file, w[0]), text)
  {
    CompletesCons(w, ops, file, text);
    forall other | Completes(other, ops - {w[0]}, Apply(file, w[0]), text) ensures LexLe(w[1..], other) {
      var whole := [w[0]] + other;
      assert whole[0] == w[0] && whole[1..] == other;
      CompletesCons(whole, ops, file, text);
      KeyLessTotal(w[0], w[0]);
    }
  }

  /** A content reached before `a` was followed comes before one reached through `a` alone. */
  lemma EarlierFirst(a: ToolInterval, done: set<ToolInterval>, one: string, two: string, ops: set<ToolInterval>, file: File)
    requires UniqueIds(ops) && Ready(a, ops) && (forall b :: b in done ==> Ready(b, ops) && KeyLess(b, a))
    requires forall b :: Ready(b, ops) && KeyLess(b, a) ==> b in done
    requires LeadsTo(done, one, ops, file) && !LeadsTo(done, two, ops, file) && two in OutcomesVia(a, ops, file)
    ensures FirstBefore(one, two, ops, file)
  {
    var b :| b in done && one in OutcomesVia(b, ops, file);
    forall w, v | IsWitness(w, ops, file, one) && IsWitness(v, ops, file, two) ensures LexLe(w, v) {
      WitnessStart(w, b, ops, file, one);
      StartsWith(v, a, done, two, ops, file);
      if w[0] != b { KeyLessTransitive(w[0], b, a); }
    }
  }

  lemma TailsLe(w: seq<ToolInterval>, v: seq<ToolInterval>)
    requires w != [] && v != [] && w[0] == v[0] && LexLe(w[1..], v[1..])
    ensures LexLe(w, v)
  {
  }

  /** Two contents reached through `a` alone come in the order in which the search meets
      them below `a`. */
  lemma SameFirst(a: ToolInterval, done: set<ToolInterval>, one: string, two: string, ops: set<ToolInterval>, file: File)
    requires UniqueIds(ops) && Ready(a, ops) && Apply(file, a).Some?
    requires forall b :: Ready(b, ops) && KeyLess(b, a) ==> b in done
    requires !LeadsTo(done, one, ops, file) && one in OutcomesVia(a, ops, file)
    requires !LeadsTo(done, two, ops, file) && two in OutcomesVia(a, ops, file)
    requires FirstBefore(one, two, ops - {a}, Apply(file, a))
    ensures FirstBefore(one, two, ops, file)
  {
    forall w, v | IsWitness(w, ops, file, one) && IsWitness(v, ops, file, two) ensures LexLe(w, v) {
      StartsWith(w, a, done, one, ops, file);
      StartsWith(v, a, done, two, ops, file);
      FirstBelow(w[1..], v[1..], one, two, ops - {a}, Apply(file, a));
      TailsLe(w, v);
    }
  }

  lemma FirstBelow(w: seq<ToolInterval>, v: seq<ToolInterval>, one: string, two: string, ops: set<ToolInterval>, file: File)
    requires FirstBefore(one, two, ops, file) && IsWitness(w, ops, file, one) && IsWitness(v, ops, file, two)
    ensures LexLe(w, v)
  {
  }

  lemma DiscoverOne(a: ToolInterval, done: set<ToolInterval>, before: seq<Digest>, mid: seq<Digest>, after: seq<Digest>,
                    ops: set<ToolInterval>, file: File)
    requires UniqueIds(ops) && Ready(a, ops) && (forall b :: b in done ==> Ready(b, ops) && KeyLess(b, a))
    requires forall b :: Ready(b, ops) && KeyLess(b, a) ==> b in done
    requires DiscoveredVia(done, before, mid, ops, file)
    requires if Apply(file, a).None? then after == mid else Discovered(mid, after, ops - {a}, Apply(file, a))
    ensures DiscoveredVia(done + {a}, before, after, ops, file)
  {
    forall d: Digest ensures LeadsTo(done + {a}, d.content, ops, file)
                        <==> LeadsTo(done, d.content, ops, file) || d.content in OutcomesVia(a, ops, file) {
      LeadsToOneMore(done, a, d.content, ops, file);
    }
    forall i, j | |before| <= i < j < |after| ensures FirstBefore(after[i].content, after[j].content, ops, file) {
      DiscoverPair(a, done, before, mid, after, ops, file, i, j);
    }
  }

  lemma DiscoverPair(a: ToolInterval, done: set<ToolInterval>, before: seq<Digest>, mid: seq<Digest>, after: seq<Digest>,
                     ops: set<ToolInterval>, file: File, i: nat, j: nat)
    requires UniqueIds(ops) && Ready(a, ops) && (forall b :: b in done ==> Ready(b, ops) && KeyLess(b, a))
    requires forall b :: Ready(b, ops) && KeyLess(b, a) ==> b in done
    requires DiscoveredVia(done, before, mid, ops, file)
    requires if Apply(file, a).None? then after == mid else Discovered(mid, after, ops - {a}, Apply(file, a))
    requires |before| <= i < j < |after|
    ensures FirstBefore(after[i].content, after[j].content, ops, file)
  {
    if j < |mid| {
      assert after[i] == mid[i] && after[j] == mid[j];
    } else {
      NewAfter(mid, after, j);
      assert after[j] in after;
      if i < |mid| {
        assert after[i] == mid[i] && mid[i] in mid;
        NewAfter(before, mid, i);
        EarlierFirst(a, done, after[i].content, after[j].content, ops, file);
      } else {
        NewAfter(mid, after, i);
        assert after[i] in after;
        SameFirst(a, done, after[i].content, after[j].content, ops, file);
      }
    }
  }

  lemma NewAfter(before: seq<Digest>, after: seq<Digest>, i: nat)
    requires before <= after && Distinct(after) && |before| <= i < |after|
    ensures after[i] !in before
  {
    forall j | 0 <= j < |before| ensures before[j] != after[i] { assert before[j] == after[j]; }
  }

  lemma DiscoveredAll(done: set<ToolInterval>, before: seq<Digest>, after: seq<Digest>, ops: set<ToolInterval>, file: File)
    requires ops != {} && DiscoveredVia(done, before, after, ops, file)
    requires forall a :: Ready(a, ops) <==> a in done
    ensures Discovered(before, after, ops, file)
  {
    forall d: Digest ensures d.content in Outcomes(ops, file) <==> LeadsTo(done, d.content, ops, file) {
      OutcomesStep(d.content, ops, file);
    }
  }

  class PartialReplay {
    var results: map<Digest, Candidate>
    var found: seq<Digest>   // the keys of `results`, in the order of their first insertion

    constructor ()
      ensures results == map[] && found == []
    {
      results, found := map[], [];
    }

    method Record(text: string, ordered: seq<ToolInterval>)
      requires Distinct(found) && forall d :: d in results <==> d in found
      modifies this
      ensures Overwritten(old(results), results, ordered, {}, Some(text))
      ensures Discovered(old(found), found, {}, Some(text))
    {
      if Sha256(text) !in results { found := found + [Sha256(text)]; }
      results := results[Sha256(text) := Candidate(text, ordered)];
      forall d: Digest ensures d.content in Outcomes({}, Some(text)) <==> d.content == text {
        OutcomesStep(d.content, {}, Some(text));
      }
      assert Completes([], {}, Some(text), text) && ordered[|ordered|..] == [];
      forall other | Completes(other, {}, Some(text), text) ensures LexLe(other, []) {
        LinearizationLength(other, {});
      }
    }

    method Visit(text: string, ordered: seq<ToolInterval>, remaining: set<ToolInterval>)
      requires UniqueIds(remaining) && Distinct(found) && forall d :: d in results <==> d in found
      modifies this
      ensures Overwritten(old(results), results, ordered, remaining, Some(text))
      ensures Discovered(old(found), found, remaining, Some(text))
      decreases remaining, 1
    {
      if remaining == {} {
        Record(text, ordered);
      } else {
        var ready := ReadyInOrder(remaining);
        VisitAll(ready, text, ordered, remaining);
      }
    }

    method VisitAll(ready: seq<ToolInterval>, text: string, ordered: seq<ToolInterval>, remaining: set<ToolInterval>)
      requires UniqueIds(remaining) && remaining != {} && SortedByKey(ready)
      requires forall a :: a in ready <==> Ready(a, remaining)
      requires Distinct(found) && forall d :: d in results <==> d in found
      modifies this
      ensures Overwritten(old(results), results, ordered, remaining, Some(text))
      ensures Discovered(old(found), found, remaining, Some(text))
      decreases remaining, 0
    {
      ghost var before, first := results, found;
      ViaNothing(before, first, ready, ordered, remaining, Some(text));
      for i := 0 to |ready|
        invariant OverwrittenVia(Firsts(ready, i), before, results, ordered, remaining, Some(text))
        invariant DiscoveredVia(Firsts(ready, i), first, found, remaining, Some(text))
        invariant forall d :: d in results <==> d in found
      {
        VisitOne(ready, i, text, ordered, remaining, before, first);
      }
      assert ready[..|ready|] == ready;
      OverwrittenAll(Firsts(ready, |ready|), before, results, ordered, remaining, Some(text));
      DiscoveredAll(Firsts(ready, |ready|), first, found, remaining, Some(text));
    }

    /** One turn of the loop: follow the next ready operation if it applies. */
    method VisitOne(ready: seq<ToolInterval>, i: nat, text: string, ordered: seq<ToolInterval>,
                    remaining: set<ToolInterval>, ghost before: map<Digest, Candidate>, ghost first: seq<Digest>)
      requires UniqueIds(remaining) && i < |ready| && SortedByKey(ready)
      requires forall a :: a in ready <==> Ready(a, remaining)
      requires OverwrittenVia(Firsts(ready, i), before, results, ordered, remaining, Some(text))
      requires DiscoveredVia(Firsts(ready, i), first, found, remaining, Some(text))
      requires forall d :: d in results <==> d in found
      modifies this
      ensures OverwrittenVia(Firsts(ready, i + 1), before, results, ordered, remaining, Some(text))
      ensures DiscoveredVia(Firsts(ready, i + 1), first, found, remaining, Some(text))
      ensures forall d :: d in results <==> d in found
      decreases remaining, 0, 0
    {
      var a := ready[i];
      ghost var done, mid, known := Firsts(ready, i), results, found;
      NextReady(ready, i, remaining);
      var applied := Apply(Some(text), a);
      if applied.Some? {
        Visit(applied.value, ordered + [a], remaining - {a});
      }
      OverwriteOne(a, done, before, mid, results, ordered, remaining, Some(text));
      DiscoverOne(a, done, first, known, found, remaining, Some(text));
    }
  }

  lemma ViaNothing(results: map<Digest, Candidate>, found: seq<Digest>, ready: seq<ToolInterval>,
                   ordered: seq<ToolInterval>, ops: set<ToolInterval>, file: File)
    requires Distinct(found)
    ensures OverwrittenVia(Firsts(ready, 0), results, results, ordered, ops, file)
    ensures DiscoveredVia(Firsts(ready, 0), found, found, ops, file)
  {
    assert Firsts(ready, 0) == {};
  }

  lemma NextReady(ready: seq<ToolInterval>, i: nat, ops: set<ToolInterval>)
    requires i < |ready| && SortedByKey(ready)
    requires forall a :: a in ready <==> Ready(a, ops)
    ensures Ready(ready[i], ops) && Firsts(ready, i + 1) == Firsts(ready, i) + {ready[i]}
    ensures forall b :: b in Firsts(ready, i) ==> Ready(b, ops) && KeyLess(b, ready[i])
    ensures forall b :: Ready(b, ops) && KeyLess(b, ready[i]) ==> b in Firsts(ready, i)
  {
    assert ready[i] in ready;
    NextInKeyOrder(ready, i);
    assert ready[..i + 1] == ready[..i] + [ready[i]];
    forall b | b in Firsts(ready, i) ensures Ready(b, ops) && KeyLess(b, ready[i]) {
      var j :| 0 <= j < i && ready[..i][j] == b;
      assert ready[j] in ready;
    }
  }

  /** The values of the table, in the order of its keys: every content that some valid
      linearization of `operations` reaches from `initial`, each with the last order that
      reaches it, the contents in the order in which the search first meets them. */
  method AllContents(initial: string, operations: set<ToolInterval>) returns (partials: seq<Candidate>)
    requires UniqueIds(operations)
    ensures ListsContents(partials, operations, Some(initial))
  {
    var search := new PartialReplay();
    search.Visit(initial, [], operations);
    partials := seq(|search.found|, i requires 0 <= i < |search.found| && search.found[i] in search.results
                                    reads search => search.results[search.found[i]]);
    ValuesListed(search.results, search.found, partials, operations, Some(initial));
  }

  /** Exactly the outcomes, each once, with its last order, by their first orders. */
  ghost predicate ListsContents(partials: seq<Candidate>, ops: set<ToolInterval>, file: File) {
    && (forall t :: t in Outcomes(ops, file) <==> exists i :: 0 <= i < |partials| && partials[i].content == t)
    && (forall i :: 0 <= i < |partials| ==> IsLastWitness(partials[i].order, ops, file, partials[i].content))
    && (forall i, j :: 0 <= i < j < |partials| ==> partials[i].content != partials[j].content)
    && (forall i, j :: 0 <= i < j < |partials| ==> FirstBefore(partials[i].content, partials[j].content, ops, file))
  }

  lemma ValuesListed(results: map<Digest, Candidate>, found: seq<Digest>, partials: seq<Candidate>,
                     ops: set<ToolInterval>, file: File)
    requires Overwritten(map[], results, [], ops, file) && Discovered([], found, ops, file)
    requires |partials| == |found| && forall i :: 0 <= i < |found| ==> found[i] in results && partials[i] == results[found[i]]
    ensures ListsContents(partials, ops, file)
  {
    forall i | 0 <= i < |found|
      ensures partials[i].content == found[i].content && IsLastWitness(partials[i].order, ops, file, partials[i].content)
    {
      assert partials[i].order[0..] == partials[i].order;
    }
    forall t ensures t in Outcomes(ops, file) <==> exists i :: 0 <= i < |partials| && partials[i].content == t {
      if t in Outcomes(ops, file) {
        assert Sha256(t).content == t && Sha256(t) in found;
        var i :| 0 <= i < |found| && found[i] == Sha256(t);
        assert partials[i].content == t;
      }
      if i :| 0 <= i < |partials| && partials[i].content == t { assert found[i] in found; }
    }
  }
}
