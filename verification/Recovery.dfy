/** Rebuilding the final content of one path from its tool calls and reads. */
module Recovery {
  import opened Wrappers
  import opened Intervals
  import opened Replay
  import opened Search
  import opened Observations
  import opened ReadWindows

  datatype RecoveryError =
    | LimitExceeded            // "linearization limit exceeded"
    | Ambiguous(count: nat)    // "has N deterministic final hashes"
    | NoFinalOperation         // the IndexError of `ordered[-1]` on an empty order

  datatype Head = Head(path: string, content: string, hash: Digest, finalOperation: ToolInterval,
                       supportEvents: seq<string>, supportPayloads: seq<string>)

  // ---------------------------------------------------------------- building the head

  /** `tuple(dict.fromkeys(s))`: first occurrences, in order. */
  function Dedupe(s: seq<string>): seq<string> {
    if s == [] then []
    else
      var init := Dedupe(s[..|s| - 1]);
      if s[|s| - 1] in init then init else init + [s[|s| - 1]]
  }

  /** Where `x` occurs first. */
  function FirstAt(s: seq<string>, x: string): (k: nat)
    requires x in s
    ensures k < |s| && s[k] == x && forall i :: 0 <= i < k ==> s[i] != x
  {
    if s[0] == x then 0 else 1 + FirstAt(s[1..], x)
  }

  /** Each text once, and in the order in which the texts first occur. */
  lemma {:induction false} DedupeMeaning(s: seq<string>)
    ensures forall x :: x in Dedupe(s) <==> x in s
    ensures Distinct(Dedupe(s))
    ensures forall i, j :: 0 <= i < j < |Dedupe(s)| ==>
              Dedupe(s)[i] in s && Dedupe(s)[j] in s && FirstAt(s, Dedupe(s)[i]) < FirstAt(s, Dedupe(s)[j])
  {
    if s != [] {
      var n := |s| - 1;
      var t, d := s[..n], Dedupe(s[..n]);
      DedupeMeaning(t);
      assert s == t + [s[n]];
      assert forall x :: x in Dedupe(s) <==> x in s;
      forall i, j | 0 <= i < j < |Dedupe(s)|
        ensures Dedupe(s)[i] in s && Dedupe(s)[j] in s && FirstAt(s, Dedupe(s)[i]) < FirstAt(s, Dedupe(s)[j])
      {
        var x, y := Dedupe(s)[i], Dedupe(s)[j];
        assert x == d[i] && x in t;
        FirstAtPrefix(t, s[n], x);
        if j < |d| {
          assert y == d[j] && y in t;
          FirstAtPrefix(t, s[n], y);
        } else {
          assert y == s[n] && y !in t;
          FirstAtEnd(t, y);
        }
      }
    }
  }

  lemma FirstAtUnique(s: seq<string>, x: string, k: nat)
    requires k < |s| && s[k] == x && forall i :: 0 <= i < k ==> s[i] != x
    ensures x in s && FirstAt(s, x) == k
  {
  }

  lemma FirstAtPrefix(t: seq<string>, last: string, x: string)
    requires x in t
    ensures x in t + [last] && FirstAt(t + [last], x) == FirstAt(t, x)
  {
    FirstAtUnique(t + [last], x, FirstAt(t, x));
  }

  lemma FirstAtEnd(t: seq<string>, x: string)
    requires x !in t
    ensures x in t + [x] && FirstAt(t + [x], x) == |t|
  {
    FirstAtUnique(t + [x], x, |t|);
  }

  function OrderEvents(order: seq<ToolInterval>): seq<string> {
    if order == [] then [] else [order[0].eventId] + OrderEvents(order[1..])
  }

  function ReadEvents(observations: seq<ReadObservation>): seq<string> {
    if observations == [] then [] else [observations[0].eventId] + ReadEvents(observations[1..])
  }

  function OrderPayloads(order: seq<ToolInterval>): seq<string> {
    if order == [] then [] else order[0].payloadIds + OrderPayloads(order[1..])
  }

  function ReadPayloads(observations: seq<ReadObservation>): seq<string> {
    if observations == [] then [] else observations[0].payloadIds + ReadPayloads(observations[1..])
  }

  function MakeHead(path: string, c: Candidate, observations: seq<ReadObservation>): Result<Head, RecoveryError> {
    if c.order == [] then Err(NoFinalOperation)
    else Ok(Head(path, c.content, Sha256(c.content), c.order[|c.order| - 1],
                 Dedupe(OrderEvents(c.order) + ReadEvents(observations)),
                 Dedupe(OrderPayloads(c.order) + ReadPayloads(observations))))
  }

  lemma {:induction false} SupportMembers(order: seq<ToolInterval>, observations: seq<ReadObservation>, id: string)
    ensures id in OrderEvents(order) <==> exists a :: a in order && a.eventId == id
    ensures id in ReadEvents(observations) <==> exists o :: o in observations && o.eventId == id
    decreases |order| + |observations|
  {
    if order != [] {
      SupportMembers(order[1..], [], id);
      assert order == [order[0]] + order[1..];
    }
    if observations != [] {
      SupportMembers([], observations[1..], id);
      assert observations == [observations[0]] + observations[1..];
    }
  }

  lemma {:induction false} PayloadMembers(order: seq<ToolInterval>, observations: seq<ReadObservation>, id: string)
    ensures id in OrderPayloads(order) <==> exists a :: a in order && id in a.payloadIds
    ensures id in ReadPayloads(observations) <==> exists o :: o in observations && id in o.payloadIds
    decreases |order| + |observations|
  {
    if order != [] {
      PayloadMembers(order[1..], [], id);
      assert order == [order[0]] + order[1..];
    }
    if observations != [] {
      PayloadMembers([], observations[1..], id);
      assert observations == [observations[0]] + observations[1..];
    }
  }

  /** What a head says, replayed or stitched: the content with its hash, the last call of the
      credited order, and as support each call of that order and each read, with their
      payloads, once and nothing else. There is no head exactly for an empty order. */
  lemma HeadMeaning(path: string, c: Candidate, observations: seq<ReadObservation>)
    ensures MakeHead(path, c, observations).Err? <==> c.order == []
    ensures c.order != [] ==>
              var h := MakeHead(path, c, observations).value;
              && h.path == path && h.content == c.content && h.hash == Sha256(c.content)
              && h.finalOperation == c.order[|c.order| - 1]
              && Distinct(h.supportEvents) && Distinct(h.supportPayloads)
              && (forall id :: id in h.supportEvents <==>
                   (exists a :: a in c.order && a.eventId == id) || (exists o :: o in observations && o.eventId == id))
              && (forall id :: id in h.supportPayloads <==>
                   (exists a :: a in c.order && id in a.payloadIds) || (exists o :: o in observations && id in o.payloadIds))
  {
    if c.order != [] {
      SupportEvents(c.order, observations);
      SupportPayloads(c.order, observations);
    }
  }

  lemma SupportEvents(order: seq<ToolInterval>, observations: seq<ReadObservation>)
    ensures var ids := Dedupe(OrderEvents(order) + ReadEvents(observations));
            && Distinct(ids)
            && forall id :: id in ids <==>
                 (exists a :: a in order && a.eventId == id) || (exists o :: o in observations && o.eventId == id)
  {
    DedupeMeaning(OrderEvents(order) + ReadEvents(observations));
    forall id ensures id in OrderEvents(order) + ReadEvents(observations) <==>
                        (exists a :: a in order && a.eventId == id) || (exists o :: o in observations && o.eventId == id) {
      SupportMembers(order, observations, id);
    }
  }

  lemma SupportPayloads(order: seq<ToolInterval>, observations: seq<ReadObservation>)
    ensures var ids := Dedupe(OrderPayloads(order) + ReadPayloads(observations));
            && Distinct(ids)
            && forall id :: id in ids <==>
                 (exists a :: a in order && id in a.payloadIds) || (exists o :: o in observations && id in o.payloadIds)
  {
    DedupeMeaning(OrderPayloads(order) + ReadPayloads(observations));
    forall id ensures id in OrderPayloads(order) + ReadPayloads(observations) <==>
                        (exists a :: a in order && id in a.payloadIds) || (exists o :: o in observations && id in o.payloadIds) {
      PayloadMembers(order, observations, id);
    }
  }

  /** When the order is one of all calls, the final operation is one that no call has to follow. */
  lemma ReplayedHead(path: string, c: Candidate, ops: set<ToolInterval>, observations: seq<ReadObservation>)
    requires Linearization(c.order, ops)
    ensures MakeHead(path, c, observations).Err? <==> ops == {}
    ensures ops != {} ==>
              var h := MakeHead(path, c, observations).value;
              h.finalOperation in ops && forall a :: a in ops ==> !MustPrecede(h.finalOperation, a)
  {
    if c.order == [] {
      assert forall a :: a !in ops;
    } else {
      assert c.order[0] in c.order;
      var last := c.order[|c.order| - 1];
      assert last in c.order;
      forall a | a in ops ensures !MustPrecede(last, a) {
        var i :| 0 <= i < |c.order| && c.order[i] == a;
      }
    }
  }

  // ---------------------------------------------------------------- which contents survive

  function OpsOf(operations: seq<ToolInterval>): set<ToolInterval> {
    set a | a in operations
  }

  /** The recorded order for `text` explains all reads. */
  ghost predicate WitnessFits(ops: set<ToolInterval>, observations: seq<ReadObservation>, text: string) {
    exists w :: IsWitness(w, ops, None, text) && Fits(w, observations)
  }

  /** The contents left after the reads have been used to tell several outcomes apart. */
  ghost function Survivors(ops: set<ToolInterval>, observations: seq<ReadObservation>): set<string> {
    set text | text in Outcomes(ops, None)
               && (|Outcomes(ops, None)| > 1 && observations != [] ==> WitnessFits(ops, observations, text))
  }

  /** What the recovery of one path answers. */
  ghost predicate ReconstructSpec(path: string, operations: seq<ToolInterval>, observations: seq<ReadObservation>,
                                  r: Result<Head, RecoveryError>)
  {
    var ops := OpsOf(operations);
    if |ValidPrefixes(ops, None)| > MAX_LINEARIZATIONS then r == Err(LimitExceeded)
    else if |Survivors(ops, observations)| > 1 then r == Err(Ambiguous(|Survivors(ops, observations)|))
    else if Survivors(ops, observations) != {} then
      exists c: Candidate :: Survivors(ops, observations) == {c.content} && IsWitness(c.order, ops, None, c.content)
                             && r == MakeHead(path, c, observations)
    else StitchSpec(path, operations, observations, r)
  }

  ghost predicate StitchSpec(path: string, operations: seq<ToolInterval>, observations: seq<ReadObservation>,
                             r: Result<Head, RecoveryError>)
  {
    if operations != [] && observations != [] && exists c :: OnlyStitched(operations, observations, c) then
      exists c: Candidate :: OnlyStitched(operations, observations, c.content) && Credits(operations, observations, c)
                             && r == MakeHead(path, c, observations)
    else r == Err(Ambiguous(0))
  }

  ghost predicate OnlyStitched(operations: seq<ToolInterval>, observations: seq<ReadObservation>, content: string)
    requires operations != []
  {
    Stitched(operations, observations, content)
    && forall other :: Stitched(operations, observations, other) ==> other == content
  }

  // ---------------------------------------------------------------- the method

  /** The candidate table holds exactly the contents in `texts`, each with its witness. */
  ghost predicate Tabulates(table: map<Digest, Candidate>, texts: set<string>, ops: set<ToolInterval>) {
    && (forall d :: d in table <==> d.content in texts)
    && (forall d :: d in table ==> table[d].content == d.content && IsWitness(table[d].order, ops, None, d.content))
  }

  lemma {:induction false} TableSize(keys: set<Digest>, texts: set<string>)
    requires forall d: Digest :: d in keys <==> d.content in texts
    ensures |keys| == |texts|
  {
    if d :| d in keys {
      TableSize(keys - {d}, texts - {d.content});
    } else {
      forall t ensures t !in texts { assert Sha256(t) !in keys; }
    }
  }

  method FindCandidates(ops: set<ToolInterval>) returns (table: Option<map<Digest, Candidate>>)
    requires UniqueIds(ops)
    ensures table.None? <==> |ValidPrefixes(ops, None)| > MAX_LINEARIZATIONS
    ensures table.Some? ==> Tabulates(table.value, Outcomes(ops, None), ops)
  {
    var search := new LinearizationSearch();
    var ok := search.Visit([], ops, None);
    if !ok { return None; }
    table := Some(search.candidates);
    forall d | d in table.value ensures IsWitness(table.value[d].order, ops, None, d.content) {
      assert table.value[d].order[0..] == table.value[d].order;
    }
  }

  ghost function Fitting(texts: set<string>, ops: set<ToolInterval>, observations: seq<ReadObservation>): set<string> {
    set t | t in texts && WitnessFits(ops, observations, t)
  }

  /** Keep the candidates whose recorded order explains all reads. */
  method FilterByReads(table: map<Digest, Candidate>, ghost texts: set<string>, ghost ops: set<ToolInterval>,
                       observations: seq<ReadObservation>) returns (kept: map<Digest, Candidate>)
    requires Tabulates(table, texts, ops)
    ensures Tabulates(kept, Fitting(texts, ops, observations), ops)
  {
    kept := map[];
    var todo := table.Keys;
    while todo != {}
      invariant todo <= table.Keys
      invariant forall d :: d in kept <==> d in table.Keys - todo && WitnessFits(ops, observations, d.content)
      invariant forall d :: d in kept ==> kept[d] == table[d]
      decreases todo
    {
      var d :| d in todo;
      var states := StatesForOrder(table[d].order);
      var fit := ObservationsFit(table[d].order, states, observations);
      FitIsWitnessFit(table[d].order, ops, observations, d.content);
      if fit { kept := kept[d := table[d]]; }
      todo := todo - {d};
    }
  }

  lemma FitIsWitnessFit(w: seq<ToolInterval>, ops: set<ToolInterval>, observations: seq<ReadObservation>, text: string)
    requires IsWitness(w, ops, None, text)
    ensures Fits(w, observations) <==> WitnessFits(ops, observations, text)
  {
    forall v | IsWitness(v, ops, None, text) ensures v == w { WitnessUnique(v, w, ops, None, text); }
  }

  method ReconstructPath(path: string, operations: seq<ToolInterval>, observations: seq<ReadObservation>)
    returns (r: Result<Head, RecoveryError>)
    requires UniqueIds(OpsOf(operations))
    ensures ReconstructSpec(path, operations, observations, r)
    ensures r.Ok? ==> r.value.path == path
  {
    var ops := OpsOf(operations);
    var searched := FindCandidates(ops);
    if searched.None? { return Err(LimitExceeded); }
    var candidates := searched.value;
    TableSize(candidates.Keys, Outcomes(ops, None));
    if |candidates.Keys| > 1 && observations != [] {
      candidates := FilterByReads(candidates, Outcomes(ops, None), ops, observations);
    }
    assert Tabulates(candidates, Survivors(ops, observations), ops);
    TableSize(candidates.Keys, Survivors(ops, observations));
    if candidates.Keys == {} {
      r := Stitch(path, operations, observations);
    } else if |candidates.Keys| != 1 {
      r := Err(Ambiguous(|candidates.Keys|));
    } else {
      var d :| d in candidates.Keys;
      Singleton(Survivors(ops, observations), d.content);
      r := MakeHead(path, candidates[d], observations);
    }
  }

  lemma Singleton(texts: set<string>, text: string)
    requires |texts| == 1 && text in texts
    ensures texts == {text}
  {
    assert |texts - {text}| == 0;
  }

  method Stitch(path: string, operations: seq<ToolInterval>, observations: seq<ReadObservation>)
    returns (r: Result<Head, RecoveryError>)
    requires UniqueIds(OpsOf(operations))
    ensures StitchSpec(path, operations, observations, r)
    ensures r.Ok? ==> r.value.path == path
  {
    var stitched := RecoverFromReadWindows(operations, observations);
    if stitched.None? { return Err(Ambiguous(0)); }
    assert OnlyStitched(operations, observations, stitched.value.content);
    r := MakeHead(path, stitched.value, observations);
  }

  // ---------------------------------------------------------------- what an answer means

  /** A head taken from the replay is sound: its content is the end of a valid
      linearization, and every other content that a valid linearization ends in was ruled
      out by the reads through its recorded order. Without reads there is no other. */
  lemma SoleSurvivor(ops: set<ToolInterval>, observations: seq<ReadObservation>, text: string)
    requires Survivors(ops, observations) == {text}
    ensures exists order :: Completes(order, ops, None, text)
    ensures forall order, other :: Completes(order, ops, None, other) && other != text ==>
              observations != [] && !WitnessFits(ops, observations, other)
  {
    assert text in Survivors(ops, observations);
    OutcomesMeaning(text, ops, None);
    forall order, other | Completes(order, ops, None, other) && other != text
      ensures observations != [] && !WitnessFits(ops, observations, other)
    {
      OutcomesMeaning(other, ops, None);
      assert other !in Survivors(ops, observations);
      if |Outcomes(ops, None)| <= 1 {
        TwoElements(Outcomes(ops, None), text, other);
      }
    }
  }

  lemma TwoElements<T>(s: set<T>, x: T, y: T)
    requires x in s && y in s && x != y
    ensures |s| >= 2
  {
    assert |s - {x} - {y}| >= 0;
  }

  /** The order in which the calls are listed does not matter to an answer that comes from
      the replay (or from its limit), even when calls end at the same time. */
  lemma ReplayIgnoresOrder(path: string, one: seq<ToolInterval>, two: seq<ToolInterval>,
                             observations: seq<ReadObservation>, r1: Result<Head, RecoveryError>,
                             r2: Result<Head, RecoveryError>)
    requires OpsOf(one) == OpsOf(two)
    requires ReconstructSpec(path, one, observations, r1) && ReconstructSpec(path, two, observations, r2)
    requires |ValidPrefixes(OpsOf(one), None)| > MAX_LINEARIZATIONS || Survivors(OpsOf(one), observations) != {}
    ensures r1 == r2
  {
    var ops := OpsOf(one);
    if |ValidPrefixes(ops, None)| <= MAX_LINEARIZATIONS && |Survivors(ops, observations)| <= 1 {
      var c1: Candidate :| Survivors(ops, observations) == {c1.content} && IsWitness(c1.order, ops, None, c1.content)
                           && r1 == MakeHead(path, c1, observations);
      var c2: Candidate :| Survivors(ops, observations) == {c2.content} && IsWitness(c2.order, ops, None, c2.content)
                           && r2 == MakeHead(path, c2, observations);
      assert c1.content in {c2.content};
      WitnessUnique(c1.order, c2.order, ops, None, c1.content);
    }
  }
}
