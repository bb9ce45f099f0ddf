/** The fallback of the recovery: a read of the file's beginning, the later calls
    replayed on it, and the reads made after the last call, stitched together. */
module ReadWindows {
  import opened Wrappers
  import opened Text
  import opened Intervals
  import opened Replay
  import opened Search
  import opened LinearizedContents
  import opened Observations

  // ---------------------------------------------------------------- line maps

  ghost function MaxKey(keys: set<nat>): (m: nat)
    ensures forall k :: k in keys ==> k <= m
    ensures keys != {} ==> m in keys
  {
    if keys == {} then 0
    else
      var k :| k in keys;
      var rest := MaxKey(keys - {k});
      assert forall j :: j in keys ==> j == k || j in keys - {k};
      if rest < k then k else rest
  }

  method LargestKey(keys: set<nat>) returns (m: nat)
    ensures m == MaxKey(keys)
  {
    m := 0;
    var todo := keys;
    while todo != {}
      invariant todo <= keys
      invariant forall k :: k in keys && k !in todo ==> k <= m
      invariant m == 0 || m in keys
      decreases todo
    {
      var k :| k in todo;
      if m < k { m := k; }
      todo := todo - {k};
    }
  }

  /** The lines with numbers 1 to `n`, by number, gaps left out. */
  function LinesUpTo(lines: map<nat, string>, n: nat): seq<string> {
    if n == 0 then []
    else LinesUpTo(lines, n - 1) + if n in lines then [lines[n]] else []
  }

  /** The lines of a text by number, counted from 1. */
  function Numbered(lines: seq<string>): map<nat, string> {
    if lines == [] then map[] else Numbered(lines[..|lines| - 1])[|lines| := lines[|lines| - 1]]
  }

  lemma {:induction false} NumberedMeaning(lines: seq<string>)
    ensures forall n: nat :: n in Numbered(lines) <==> 1 <= n <= |lines|
    ensures forall n: nat :: n in Numbered(lines) ==> Numbered(lines)[n] == lines[n - 1]
  {
    if lines != [] { NumberedMeaning(lines[..|lines| - 1]); }
  }

  function Range(n: nat): (r: set<nat>)
    ensures forall k: nat :: k in r <==> 1 <= k <= n
  {
    if n == 0 then {} else Range(n - 1) + {n}
  }

  /** The numbers are exactly 1 to some n > 0. */
  ghost predicate Contiguous(lines: map<nat, string>) {
    lines != map[] && lines.Keys == Range(MaxKey(lines.Keys))
  }

  lemma {:induction false} LinesUpToContiguous(lines: map<nat, string>, n: nat)
    requires forall k: nat :: 1 <= k <= n ==> k in lines
    ensures |LinesUpTo(lines, n)| == n
    ensures forall k: nat :: 1 <= k <= n ==> LinesUpTo(lines, n)[k - 1] == lines[k]
  {
    if n > 0 { LinesUpToContiguous(lines, n - 1); }
  }

  // ---------------------------------------------------------------- merging

  predicate Agree(a: map<nat, string>, b: map<nat, string>) {
    forall n <- a.Keys * b.Keys :: a[n] == b[n]
  }

  /** A window that contradicts what is there is skipped, any other is added. */
  function MergeOne(merged: map<nat, string>, window: map<nat, string>): map<nat, string> {
    if Agree(merged, window) then merged + window else merged
  }

  function MergeAll(merged: map<nat, string>, windows: seq<ReadObservation>): map<nat, string> {
    if windows == [] then merged
    else MergeOne(MergeAll(merged, windows[..|windows| - 1]), windows[|windows| - 1].lines)
  }

  /** The i-th window was added when its turn came. */
  ghost predicate Added(merged: map<nat, string>, windows: seq<ReadObservation>, i: nat)
    requires i < |windows|
  {
    Agree(MergeAll(merged, windows[..i]), windows[i].lines)
  }

  ghost predicate Sub(a: map<nat, string>, b: map<nat, string>) {
    forall n :: n in a ==> n in b && a[n] == b[n]
  }

  lemma SubTransitive(a: map<nat, string>, b: map<nat, string>, c: map<nat, string>)
    requires Sub(a, b) && Sub(b, c)
    ensures Sub(a, c)
  {
  }

  /** Merging keeps the starting lines ... */
  lemma {:induction false} MergeKeepsStart(merged: map<nat, string>, windows: seq<ReadObservation>)
    ensures Sub(merged, MergeAll(merged, windows))
  {
    if windows != [] {
      var init := windows[..|windows| - 1];
      MergeKeepsStart(merged, init);
      SubTransitive(merged, MergeAll(merged, init), MergeAll(merged, windows));
    }
  }

  /** ... and every window that agreed when its turn came ... */
  lemma {:induction false} MergeKeepsWindow(merged: map<nat, string>, windows: seq<ReadObservation>, i: nat)
    requires i < |windows| && Added(merged, windows, i)
    ensures Sub(windows[i].lines, MergeAll(merged, windows))
    decreases |windows|
  {
    var k := |windows| - 1;
    var init := windows[..k];
    if i < k {
      assert init[..i] == windows[..i];
      MergeKeepsWindow(merged, init, i);
      SubTransitive(windows[i].lines, MergeAll(merged, init), MergeAll(merged, windows));
    }
  }

  /** ... and invents no line. */
  lemma {:induction false} MergeInventsNothing(merged: map<nat, string>, windows: seq<ReadObservation>, n: nat)
    requires n in MergeAll(merged, windows) && n !in merged
    ensures exists i :: 0 <= i < |windows| && Added(merged, windows, i) && n in windows[i].lines
    decreases |windows|
  {
    if windows != [] {
      var k := |windows| - 1;
      var init := windows[..k];
      if n in MergeAll(merged, init) {
        MergeInventsNothing(merged, init, n);
        var i :| 0 <= i < |init| && Added(merged, init, i) && n in init[i].lines;
        assert init[..i] == windows[..i];
        assert Added(merged, windows, i) && n in windows[i].lines;
      } else {
        assert Added(merged, windows, k) && n in windows[k].lines;
      }
    }
  }

  // ---------------------------------------------------------------- stitched contents

  /** Reads that start at line 1. */
  predicate IsPrefix(o: ReadObservation) {
    1 in o.lines && 0 !in o.lines
  }

  function PrefixReads(observations: seq<ReadObservation>): seq<ReadObservation> {
    if observations == [] then []
    else PrefixReads(observations[..|observations| - 1]) +
         if IsPrefix(observations[|observations| - 1]) then [observations[|observations| - 1]] else []
  }

  /** Reads that start after `time`. */
  function ReadsAfter(observations: seq<ReadObservation>, time: int): seq<ReadObservation> {
    if observations == [] then []
    else ReadsAfter(observations[..|observations| - 1], time) +
         if observations[|observations| - 1].start > time then [observations[|observations| - 1]] else []
  }

  function FinalEnd(operations: seq<ToolInterval>): int
    requires operations != []
  {
    var last := operations[|operations| - 1];
    if |operations| == 1 then last.end
    else
      var m := FinalEnd(operations[..|operations| - 1]);
      if m < last.end then last.end else m
  }

  /** Python's `min(operations, key=end)`: the first of those that end earliest. */
  function FirstToEnd(operations: seq<ToolInterval>): ToolInterval
    requires operations != []
  {
    var last := operations[|operations| - 1];
    if |operations| == 1 then last
    else
      var m := FirstToEnd(operations[..|operations| - 1]);
      if last.end < m.end then last else m
  }

  predicate TrailingNewline(operations: seq<ToolInterval>)
    requires operations != []
  {
    var first := FirstToEnd(operations);
    && first.toolName == "write_file" && first.args.content.Some?
    && var text := first.args.content.value; text != "" && text[|text| - 1] == '\n'
  }

  /** The calls that started after the read ended. */
  function StartedAfter(operations: seq<ToolInterval>, prefix: ReadObservation): set<ToolInterval> {
    set a | a in operations && a.start > prefix.end
  }

  ghost function PrefixText(prefix: ReadObservation): string {
    Join(LinesUpTo(prefix.lines, MaxKey(prefix.lines.Keys)), "\n")
  }

  /** Line map of one replayed text with all agreeing final windows merged in. */
  function Merged(operations: seq<ToolInterval>, observations: seq<ReadObservation>, replayed: string): map<nat, string>
    requires operations != []
  {
    MergeAll(Numbered(SplitLines(replayed)), ReadsAfter(observations, FinalEnd(operations)))
  }

  ghost function TextOf(lines: map<nat, string>, trailing: bool): string {
    Join(LinesUpTo(lines, MaxKey(lines.Keys)), "\n") + if trailing then "\n" else ""
  }

  /** `content` is what stitching gives for one prefix read and one replay of the rest. */
  ghost predicate Stitches(operations: seq<ToolInterval>, observations: seq<ReadObservation>,
                           prefix: ReadObservation, replayed: string, content: string)
    requires operations != []
  {
    && prefix in PrefixReads(observations)
    && replayed in Outcomes(StartedAfter(operations, prefix), Some(PrefixText(prefix)))
    && Contiguous(Merged(operations, observations, replayed))
    && content == TextOf(Merged(operations, observations, replayed), TrailingNewline(operations))
  }

  ghost predicate Stitched(operations: seq<ToolInterval>, observations: seq<ReadObservation>, content: string)
    requires operations != []
  {
    exists prefix, replayed :: Stitches(operations, observations, prefix, replayed, content)
  }

  function InsertByEnd(x: ToolInterval, s: seq<ToolInterval>): seq<ToolInterval> {
    if s == [] || x.end <= s[0].end then [x] + s else [s[0]] + InsertByEnd(x, s[1..])
  }

  /** Python's stable `sorted(operations, key=end)`. */
  function SortedByEnd(operations: seq<ToolInterval>): seq<ToolInterval> {
    if operations == [] then [] else InsertByEnd(operations[0], SortedByEnd(operations[1..]))
  }

  function EndedBy(operations: seq<ToolInterval>, time: int): seq<ToolInterval> {
    if operations == [] then []
    else (if operations[0].end <= time then [operations[0]] else []) + EndedBy(operations[1..], time)
  }

  // ---------------------------------------------------------------- who is credited

  /** The same for the prefix read at index `i` of the list of prefix reads. */
  ghost predicate StitchesAt(operations: seq<ToolInterval>, observations: seq<ReadObservation>,
                             i: nat, replayed: string, content: string)
    requires operations != []
  {
    i < |PrefixReads(observations)| && Stitches(operations, observations, PrefixReads(observations)[i], replayed, content)
  }

  /** The replay behind a prefix read finds `one` no later than `two`. */
  ghost predicate NoLater(operations: seq<ToolInterval>, prefix: ReadObservation, one: string, two: string) {
    FirstBefore(one, two, StartedAfter(operations, prefix), Some(PrefixText(prefix)))
  }

  /** Of all that stitch to `content`: the last prefix read in list order, and the text that
      the replay behind it finds last. */
  ghost predicate Latest(operations: seq<ToolInterval>, observations: seq<ReadObservation>,
                         i: nat, replayed: string, content: string)
    requires operations != []
  {
    && StitchesAt(operations, observations, i, replayed, content)
    && forall j: nat, other :: StitchesAt(operations, observations, j, other, content) ==>
         j < i || (j == i && NoLater(operations, PrefixReads(observations)[i], other, replayed))
  }

  /** The calls that ended before the read, by their end, then the last order that replays
      those that started after it to the text. */
  ghost predicate CreditedOrder(operations: seq<ToolInterval>, prefix: ReadObservation, replayed: string,
                                order: seq<ToolInterval>)
  {
    exists tail ::
      && IsLastWitness(tail, StartedAfter(operations, prefix), Some(PrefixText(prefix)), replayed)
      && order == EndedBy(SortedByEnd(operations), prefix.start) + tail
  }

  /** The order credited to a stitched content. */
  ghost predicate Credits(operations: seq<ToolInterval>, observations: seq<ReadObservation>, c: Candidate)
    requires operations != []
  {
    exists i: nat, replayed :: Latest(operations, observations, i, replayed, c.content)
                               && CreditedOrder(operations, PrefixReads(observations)[i], replayed, c.order)
  }

  lemma NoLaterSelf(operations: seq<ToolInterval>, prefix: ReadObservation, text: string)
    ensures NoLater(operations, prefix, text, text)
  {
    var ops, file := StartedAfter(operations, prefix), Some(PrefixText(prefix));
    forall w, v | IsWitness(w, ops, file, text) && IsWitness(v, ops, file, text) ensures LexLe(w, v) {
      WitnessUnique(w, v, ops, file, text);
      LexLeReflexive(w);
    }
  }

  /** The credit is unique: a stitched content has one order. */
  lemma CreditUnique(operations: seq<ToolInterval>, observations: seq<ReadObservation>, c: Candidate, d: Candidate)
    requires operations != [] && UniqueIds(set a | a in operations) && c.content == d.content
    requires Credits(operations, observations, c) && Credits(operations, observations, d)
    ensures c == d
  {
    var i: nat, s :| Latest(operations, observations, i, s, c.content)
                     && CreditedOrder(operations, PrefixReads(observations)[i], s, c.order);
    var j: nat, t :| Latest(operations, observations, j, t, d.content)
                     && CreditedOrder(operations, PrefixReads(observations)[j], t, d.order);
    assert i == j;
    var prefix := PrefixReads(observations)[i];
    SameText(operations, prefix, s, t);
    var ops, file := StartedAfter(operations, prefix), Some(PrefixText(prefix));
    var before := EndedBy(SortedByEnd(operations), prefix.start);
    var one :| IsLastWitness(one, ops, file, s) && c.order == before + one;
    var two :| IsLastWitness(two, ops, file, s) && d.order == before + two;
    LastWitnessUnique(one, two, ops, file, s);
  }

  lemma SameText(operations: seq<ToolInterval>, prefix: ReadObservation, s: string, t: string)
    requires UniqueIds(set a | a in operations)
    requires s in Outcomes(StartedAfter(operations, prefix), Some(PrefixText(prefix)))
    requires t in Outcomes(StartedAfter(operations, prefix), Some(PrefixText(prefix)))
    requires NoLater(operations, prefix, s, t) && NoLater(operations, prefix, t, s)
    ensures s == t
  {
    var ops, file := StartedAfter(operations, prefix), Some(PrefixText(prefix));
    var w := WitnessExists(ops, file, s);
    var v := WitnessExists(ops, file, t);
    LinearizationLength(w, ops);
    LinearizationLength(v, ops);
    LexLeAntisymmetric(w, v);
  }

  // ---------------------------------------------------------------- the method

  /** Some content when all prefix reads and all replays that can be stitched give that
      one content; nothing when they give none or several. */
  method RecoverFromReadWindows(operations: seq<ToolInterval>, observations: seq<ReadObservation>)
    returns (r: Option<Candidate>)
    requires UniqueIds(set a | a in operations)
    ensures operations == [] || observations == [] ==> r.None?
    ensures operations != [] && observations != [] ==>
              (r.Some? <==> exists c :: Stitched(operations, observations, c)
                                        && forall other :: Stitched(operations, observations, other) ==> other == c)
    ensures r.Some? ==> Stitched(operations, observations, r.value.content) && Credits(operations, observations, r.value)
  {
    if operations == [] || observations == [] { return None; }
    var prefixes := PrefixReads(observations);
    var candidates: map<Digest, Candidate> := map[];
    ghost var done: set<(nat, string)> := {};
    for i := 0 to |prefixes|
      invariant Covers(operations, observations, done, i)
      invariant Table(operations, observations, done, candidates)
    {
      candidates, done := StitchPrefix(operations, observations, i, done, candidates);
    }
    TableMeans(operations, observations, done, candidates);
    if |candidates.Keys| != 1 {
      NotOne(operations, observations, candidates);
      return None;
    }
    var d :| d in candidates;
    OnlyOne(operations, observations, candidates, d);
    return Some(candidates[d]);
  }

  ghost function Replays(operations: seq<ToolInterval>, prefix: ReadObservation): set<string> {
    Outcomes(StartedAfter(operations, prefix), Some(PrefixText(prefix)))
  }

  /** `done` holds all turns of the loops over the prefix reads before the i-th. */
  ghost predicate Covers(operations: seq<ToolInterval>, observations: seq<ReadObservation>, done: set<(nat, string)>, i: nat) {
    && (forall p :: p in done ==> p.0 < i)
    && (forall j: nat, t :: j < i && j < |PrefixReads(observations)| && t in Replays(operations, PrefixReads(observations)[j]) ==>
                              (j, t) in done)
  }

  /** The latest of the turns in `done` that give `content`. */
  ghost predicate LatestOf(operations: seq<ToolInterval>, observations: seq<ReadObservation>, done: set<(nat, string)>,
                           i: nat, replayed: string, content: string)
    requires operations != []
  {
    && (i, replayed) in done && StitchesAt(operations, observations, i, replayed, content)
    && forall j: nat, other :: (j, other) in done && StitchesAt(operations, observations, j, other, content) ==>
         j < i || (j == i && NoLater(operations, PrefixReads(observations)[i], other, replayed))
  }

  ghost predicate CreditsOf(operations: seq<ToolInterval>, observations: seq<ReadObservation>, done: set<(nat, string)>,
                            c: Candidate)
    requires operations != []
  {
    exists i: nat, replayed :: LatestOf(operations, observations, done, i, replayed, c.content)
                               && CreditedOrder(operations, PrefixReads(observations)[i], replayed, c.order)
  }

  ghost predicate StitchedIn(operations: seq<ToolInterval>, observations: seq<ReadObservation>, done: set<(nat, string)>,
                             content: string)
    requires operations != []
  {
    exists i: nat, replayed :: (i, replayed) in done && StitchesAt(operations, observations, i, replayed, content)
  }

  /** The table after the turns in `done`, at one content: there if they stitched it,
      credited to the latest of them. */
  ghost predicate Entry(operations: seq<ToolInterval>, observations: seq<ReadObservation>, done: set<(nat, string)>,
                        candidates: map<Digest, Candidate>, d: Digest)
    requires operations != []
  {
    && (d in candidates <==> StitchedIn(operations, observations, done, d.content))
    && (d in candidates ==>
          candidates[d].content == d.content && CreditsOf(operations, observations, done, candidates[d]))
  }

  ghost predicate Table(operations: seq<ToolInterval>, observations: seq<ReadObservation>, done: set<(nat, string)>,
                        candidates: map<Digest, Candidate>)
    requires operations != []
  {
    forall d :: Entry(operations, observations, done, candidates, d)
  }

  lemma TableMeans(operations: seq<ToolInterval>, observations: seq<ReadObservation>, done: set<(nat, string)>,
                   candidates: map<Digest, Candidate>)
    requires operations != [] && Table(operations, observations, done, candidates)
    requires Covers(operations, observations, done, |PrefixReads(observations)|)
    ensures forall d :: d in candidates.Keys <==> Stitched(operations, observations, d.content)
    ensures forall d :: d in candidates ==>
              candidates[d].content == d.content && Credits(operations, observations, candidates[d])
  {
    var prefixes := PrefixReads(observations);
    forall j: nat, t, content | StitchesAt(operations, observations, j, t, content) ensures (j, t) in done {
      assert t in Replays(operations, prefixes[j]);
    }
    forall d ensures d in candidates <==> Stitched(operations, observations, d.content) {
      assert Entry(operations, observations, done, candidates, d);
      if prefix, t :| Stitches(operations, observations, prefix, t, d.content) {
        var j: nat :| j < |prefixes| && prefixes[j] == prefix;
        assert StitchesAt(operations, observations, j, t, d.content);
      }
    }
    forall d | d in candidates
      ensures candidates[d].content == d.content && Credits(operations, observations, candidates[d])
    {
      assert Entry(operations, observations, done, candidates, d);
      var i: nat, t :| LatestOf(operations, observations, done, i, t, d.content)
                       && CreditedOrder(operations, prefixes[i], t, candidates[d].order);
      assert Latest(operations, observations, i, t, d.content);
    }
  }

  lemma NotOne(operations: seq<ToolInterval>, observations: seq<ReadObservation>, candidates: map<Digest, Candidate>)
    requires operations != [] && |candidates.Keys| != 1
    requires forall d :: d in candidates.Keys <==> Stitched(operations, observations, d.content)
    ensures forall c :: Stitched(operations, observations, c) ==>
                        exists other :: Stitched(operations, observations, other) && other != c
  {
    forall c | Stitched(operations, observations, c)
      ensures exists other :: Stitched(operations, observations, other) && other != c
    {
      assert Sha256(c) in candidates.Keys;
      var d := AnotherKey(candidates.Keys, Sha256(c));
      assert Stitched(operations, observations, d.content);
    }
  }

  lemma AnotherKey(keys: set<Digest>, d: Digest) returns (other: Digest)
    requires d in keys && |keys| != 1
    ensures other in keys && other != d
  {
    assert |keys - {d}| > 0;
    other :| other in keys - {d};
  }

  lemma NoOtherKey(keys: set<Digest>, d: Digest, other: Digest)
    requires d in keys && |keys| == 1 && other in keys
    ensures other == d
  {
    assert |keys - {d}| == 0;
    assert other !in keys - {d};
  }

  lemma OnlyOne(operations: seq<ToolInterval>, observations: seq<ReadObservation>, candidates: map<Digest, Candidate>, d: Digest)
    requires operations != [] && |candidates.Keys| == 1 && d in candidates.Keys
    requires forall d :: d in candidates.Keys <==> Stitched(operations, observations, d.content)
    ensures forall other :: Stitched(operations, observations, other) ==> other == d.content
  {
    forall other | Stitched(operations, observations, other) ensures other == d.content {
      assert Sha256(other) in candidates.Keys;
      NoOtherKey(candidates.Keys, d, Sha256(other));
    }
  }

  /** The next turn is later than all before it. */
  ghost predicate Next(operations: seq<ToolInterval>, observations: seq<ReadObservation>, done: set<(nat, string)>,
                       i: nat, text: string)
  {
    && i < |PrefixReads(observations)|
    && forall j: nat, other :: (j, other) in done ==>
         j < i || (j == i && NoLater(operations, PrefixReads(observations)[i], other, text))
  }

  /** The loop body for one prefix read. */
  method StitchPrefix(operations: seq<ToolInterval>, observations: seq<ReadObservation>, i: nat,
                      ghost done: set<(nat, string)>, before: map<Digest, Candidate>)
    returns (candidates: map<Digest, Candidate>, ghost after: set<(nat, string)>)
    requires operations != [] && UniqueIds(set a | a in operations) && i < |PrefixReads(observations)|
    requires Covers(operations, observations, done, i) && Table(operations, observations, done, before)
    ensures Covers(operations, observations, after, i + 1) && Table(operations, observations, after, candidates)
  {
    var prefix := PrefixReads(observations)[i];
    var m := LargestKey(prefix.lines.Keys);
    var text := Join(LinesUpTo(prefix.lines, m), "\n");
    var partials := AllContents(text, StartedAfter(operations, prefix));
    candidates, after := before, done;
    for k := 0 to |partials|
      invariant after == done + Turns(i, partials[..k])
      invariant Table(operations, observations, after, candidates)
    {
      TurnsStep(operations, observations, done, i, partials, k);
      candidates := StitchText(operations, observations, i, partials[k], after, candidates);
      after := after + {(i, partials[k].content)};
    }
    assert partials[..|partials|] == partials;
    TurnsAll(operations, observations, done, i, partials);
  }

  /** The turns for the texts of one prefix read. */
  ghost function Turns(i: nat, partials: seq<Candidate>): set<(nat, string)> {
    set c | c in partials :: (i, c.content)
  }

  lemma TurnsStep(operations: seq<ToolInterval>, observations: seq<ReadObservation>, done: set<(nat, string)>, i: nat,
                  partials: seq<Candidate>, k: nat)
    requires i < |PrefixReads(observations)| && k < |partials| && Covers(operations, observations, done, i)
    requires var prefix := PrefixReads(observations)[i];
             ListsContents(partials, StartedAfter(operations, prefix), Some(PrefixText(prefix)))
    ensures Turns(i, partials[..k + 1]) == Turns(i, partials[..k]) + {(i, partials[k].content)}
    ensures Next(operations, observations, done + Turns(i, partials[..k]), i, partials[k].content)
    ensures partials[k].content in Replays(operations, PrefixReads(observations)[i])
  {
    TurnsMore(i, partials, k);
    var prefix := PrefixReads(observations)[i];
    forall j: nat, other | (j, other) in Turns(i, partials[..k])
      ensures j == i && NoLater(operations, prefix, other, partials[k].content)
    {
      var n := TurnIndex(i, partials, k, j, other);
    }
  }

  lemma TurnsMore(i: nat, partials: seq<Candidate>, k: nat)
    requires k < |partials|
    ensures Turns(i, partials[..k + 1]) == Turns(i, partials[..k]) + {(i, partials[k].content)}
  {
    assert partials[..k + 1] == partials[..k] + [partials[k]];
  }

  lemma TurnIndex(i: nat, partials: seq<Candidate>, k: nat, j: nat, text: string) returns (n: nat)
    requires k <= |partials| && (j, text) in Turns(i, partials[..k])
    ensures j == i && n < k && partials[n].content == text
  {
    var c :| c in partials[..k] && (j, text) == (i, c.content);
    n :| n < k && partials[..k][n] == c;
  }

  lemma TurnsAll(operations: seq<ToolInterval>, observations: seq<ReadObservation>, done: set<(nat, string)>, i: nat,
                 partials: seq<Candidate>)
    requires i < |PrefixReads(observations)| && Covers(operations, observations, done, i)
    requires var prefix := PrefixReads(observations)[i];
             ListsContents(partials, StartedAfter(operations, prefix), Some(PrefixText(prefix)))
    ensures Covers(operations, observations, done + Turns(i, partials), i + 1)
  {
    forall t | t in Replays(operations, PrefixReads(observations)[i]) ensures (i, t) in Turns(i, partials) {
      var n :| 0 <= n < |partials| && partials[n].content == t;
      assert partials[n] in partials;
    }
  }

  /** Merge the final windows into one replayed text; keep it if the lines are 1..max. */
  method StitchText(operations: seq<ToolInterval>, observations: seq<ReadObservation>, i: nat, partial: Candidate,
                    ghost done: set<(nat, string)>, mid: map<Digest, Candidate>)
    returns (candidates: map<Digest, Candidate>)
    requires operations != [] && Next(operations, observations, done, i, partial.content)
    requires var prefix := PrefixReads(observations)[i];
             && partial.content in Replays(operations, prefix)
             && IsLastWitness(partial.order, StartedAfter(operations, prefix), Some(PrefixText(prefix)), partial.content)
    requires Table(operations, observations, done, mid)
    ensures Table(operations, observations, done + {(i, partial.content)}, candidates)
  {
    candidates := mid;
    var content := CompleteText(Merged(operations, observations, partial.content), TrailingNewline(operations));
    if content.None? {
      StitchNothing(operations, observations, done, i, partial.content, mid);
    } else {
      var order := EndedBy(SortedByEnd(operations), PrefixReads(observations)[i].start) + partial.order;
      var c := Candidate(content.value, order);
      candidates := candidates[Sha256(content.value) := c];
      StitchSomething(operations, observations, done, i, partial.content, c, mid);
    }
  }

  /** A turn that does not stitch to `content` changes nothing for it. */
  lemma TurnElsewhere(operations: seq<ToolInterval>, observations: seq<ReadObservation>, done: set<(nat, string)>,
                      i: nat, text: string, content: string)
    requires operations != [] && !StitchesAt(operations, observations, i, text, content)
    ensures StitchedIn(operations, observations, done + {(i, text)}, content)
       <==> StitchedIn(operations, observations, done, content)
  {
    if j: nat, t :| (j, t) in done && StitchesAt(operations, observations, j, t, content) {
      assert (j, t) in done + {(i, text)};
    }
  }

  lemma CreditKept(operations: seq<ToolInterval>, observations: seq<ReadObservation>, done: set<(nat, string)>,
                   i: nat, text: string, c: Candidate)
    requires operations != [] && !StitchesAt(operations, observations, i, text, c.content)
    requires CreditsOf(operations, observations, done, c)
    ensures CreditsOf(operations, observations, done + {(i, text)}, c)
  {
    var j: nat, t :| LatestOf(operations, observations, done, j, t, c.content)
                     && CreditedOrder(operations, PrefixReads(observations)[j], t, c.order);
    LatestKept(operations, observations, done, i, text, j, t, c.content);
  }

  lemma LatestKept(operations: seq<ToolInterval>, observations: seq<ReadObservation>, done: set<(nat, string)>,
                   i: nat, text: string, j: nat, t: string, content: string)
    requires operations != [] && !StitchesAt(operations, observations, i, text, content)
    requires LatestOf(operations, observations, done, j, t, content)
    ensures LatestOf(operations, observations, done + {(i, text)}, j, t, content)
  {
  }

  lemma StitchNothing(operations: seq<ToolInterval>, observations: seq<ReadObservation>, done: set<(nat, string)>,
                      i: nat, text: string, mid: map<Digest, Candidate>)
    requires operations != [] && !Contiguous(Merged(operations, observations, text))
    requires Table(operations, observations, done, mid)
    ensures Table(operations, observations, done + {(i, text)}, mid)
  {
    forall d: Digest ensures Entry(operations, observations, done + {(i, text)}, mid, d) {
      assert Entry(operations, observations, done, mid, d);
      TurnElsewhere(operations, observations, done, i, text, d.content);
      if d in mid { CreditKept(operations, observations, done, i, text, mid[d]); }
    }
  }

  lemma StitchSomething(operations: seq<ToolInterval>, observations: seq<ReadObservation>, done: set<(nat, string)>,
                        i: nat, text: string, c: Candidate, mid: map<Digest, Candidate>)
    requires operations != [] && Next(operations, observations, done, i, text)
    requires StitchesAt(operations, observations, i, text, c.content)
    requires CreditedOrder(operations, PrefixReads(observations)[i], text, c.order)
    requires Table(operations, observations, done, mid)
    ensures Table(operations, observations, done + {(i, text)}, mid[Sha256(c.content) := c])
  {
    LatestNow(operations, observations, done, i, text, c);
    var after, table := done + {(i, text)}, mid[Sha256(c.content) := c];
    forall d: Digest ensures Entry(operations, observations, after, table, d) {
      assert Entry(operations, observations, done, mid, d);
      EntryAfter(operations, observations, done, i, text, c, mid, d);
    }
  }

  lemma EntryAfter(operations: seq<ToolInterval>, observations: seq<ReadObservation>, done: set<(nat, string)>,
                   i: nat, text: string, c: Candidate, mid: map<Digest, Candidate>, d: Digest)
    requires operations != [] && Entry(operations, observations, done, mid, d)
    requires StitchesAt(operations, observations, i, text, c.content)
    requires StitchedIn(operations, observations, done + {(i, text)}, c.content)
    requires CreditsOf(operations, observations, done + {(i, text)}, c)
    ensures Entry(operations, observations, done + {(i, text)}, mid[Sha256(c.content) := c], d)
  {
    if d != Sha256(c.content) {
      assert d.content != c.content;
      StitchesOnce(operations, observations, i, text, c.content, d.content);
      TurnElsewhere(operations, observations, done, i, text, d.content);
      if d in mid { CreditKept(operations, observations, done, i, text, mid[d]); }
    }
  }

  lemma StitchesOnce(operations: seq<ToolInterval>, observations: seq<ReadObservation>, i: nat, text: string,
                     content: string, other: string)
    requires operations != [] && StitchesAt(operations, observations, i, text, content)
    ensures StitchesAt(operations, observations, i, text, other) ==> other == content
  {
  }

  lemma LatestNow(operations: seq<ToolInterval>, observations: seq<ReadObservation>, done: set<(nat, string)>,
                  i: nat, text: string, c: Candidate)
    requires operations != [] && Next(operations, observations, done, i, text)
    requires StitchesAt(operations, observations, i, text, c.content)
    requires CreditedOrder(operations, PrefixReads(observations)[i], text, c.order)
    ensures StitchedIn(operations, observations, done + {(i, text)}, c.content)
    ensures CreditsOf(operations, observations, done + {(i, text)}, c)
  {
    var after := done + {(i, text)};
    NoLaterSelf(operations, PrefixReads(observations)[i], text);
    assert (i, text) in after;
    assert LatestOf(operations, observations, after, i, text, c.content);
  }

  method CompleteText(merged: map<nat, string>, trailing: bool) returns (content: Option<string>)
    ensures content == if Contiguous(merged) then Some(TextOf(merged, trailing)) else None
  {
    var top := LargestKey(merged.Keys);
    if merged == map[] || merged.Keys != Range(top) { return None; }
    return Some(Join(LinesUpTo(merged, top), "\n") + if trailing then "\n" else "");
  }
}
