/** What stitching means, said of the calls and the reads themselves: which read it starts
    from, what is replayed on it, which reads are merged in, and what the text ends with. */
module StitchMeaning {
  import opened Wrappers
  import opened Lists
  import opened Text
  import opened Intervals
  import opened Replay
  import opened Observations
  import opened ReadWindows
  import opened StitchedHeads

  // ---------------------------------------------------------------- the lines of a read as a text

  /** `listed` are the lines of the map in the order of their numbers. */
  ghost predicate ListsLines(lines: map<nat, string>, numbers: seq<nat>, listed: seq<string>) {
    && Increasing(numbers) && (forall n :: n in numbers <==> n in lines)
    && |listed| == |numbers| && forall i :: 0 <= i < |numbers| ==> numbers[i] in lines && listed[i] == lines[numbers[i]]
  }

  /** The text of a read: its lines in the order of their numbers. */
  ghost predicate StartsAs(prefix: ReadObservation, start: string) {
    exists numbers, listed :: ListsLines(prefix.lines, numbers, listed) && start == Join(listed, "\n")
  }

  lemma {:induction false} LinesListed(lines: map<nat, string>, n: nat) returns (numbers: seq<nat>)
    ensures Increasing(numbers) && |numbers| == |LinesUpTo(lines, n)|
    ensures forall k :: k in numbers <==> k in lines && 1 <= k <= n
    ensures forall i :: 0 <= i < |numbers| ==> numbers[i] in lines && LinesUpTo(lines, n)[i] == lines[numbers[i]]
  {
    if n == 0 {
      numbers := [];
    } else {
      var rest := LinesListed(lines, n - 1);
      numbers := if n in lines then rest + [n] else rest;
      forall i | 0 <= i < |rest| ensures rest[i] < n { assert rest[i] in rest; }
      ListedOneMore(lines, n, rest, numbers);
    }
  }

  lemma ListedOneMore(lines: map<nat, string>, n: nat, rest: seq<nat>, numbers: seq<nat>)
    requires n > 0 && numbers == if n in lines then rest + [n] else rest
    requires forall k :: k in rest <==> k in lines && 1 <= k <= n - 1
    ensures forall k :: k in numbers <==> k in lines && 1 <= k <= n
  {
    forall k ensures k in numbers <==> k in lines && 1 <= k <= n {
      assert k in rest + [n] <==> k in rest || k == n;
    }
  }

  /** The text of a prefix read is its lines in the order of their numbers. */
  lemma PrefixTextMeaning(prefix: ReadObservation) returns (numbers: seq<nat>, listed: seq<string>)
    requires 0 !in prefix.lines
    ensures ListsLines(prefix.lines, numbers, listed) && PrefixText(prefix) == Join(listed, "\n")
  {
    var n := MaxKey(prefix.lines.Keys);
    numbers := LinesListed(prefix.lines, n);
    listed := LinesUpTo(prefix.lines, n);
    forall k ensures k in numbers <==> k in prefix.lines {
      if k in prefix.lines { assert k in prefix.lines.Keys; }
    }
  }

  // ---------------------------------------------------------------- which reads take part

  /** The prefix reads are those that start at line 1, in list order. */
  lemma {:induction false} PrefixReadsPicked(observations: seq<ReadObservation>) returns (places: seq<nat>)
    ensures Picks(observations, (o: ReadObservation) => 1 in o.lines && 0 !in o.lines, places, PrefixReads(observations))
  {
    if observations == [] {
      places := [];
    } else {
      var n := |observations| - 1;
      var wanted := (o: ReadObservation) => 1 in o.lines && 0 !in o.lines;
      var rest := PrefixReadsPicked(observations[..n]);
      PicksMore(observations, wanted, rest, PrefixReads(observations[..n]));
      places := if wanted(observations[n]) then rest + [n] else rest;
    }
  }

  lemma {:induction false} ReadsAfterPicked(observations: seq<ReadObservation>, time: int) returns (places: seq<nat>)
    ensures Picks(observations, (o: ReadObservation) => time < o.start, places, ReadsAfter(observations, time))
  {
    if observations == [] {
      places := [];
    } else {
      var n := |observations| - 1;
      var wanted := (o: ReadObservation) => time < o.start;
      var rest := ReadsAfterPicked(observations[..n], time);
      PicksMore(observations, wanted, rest, ReadsAfter(observations[..n], time));
      places := if wanted(observations[n]) then rest + [n] else rest;
    }
  }

  /** Every call is over when the read starts. */
  predicate AfterAll(operations: seq<ToolInterval>, o: ReadObservation) {
    forall i :: 0 <= i < |operations| ==> operations[i].end < o.start
  }

  /** `windows` are the reads that start after all calls have ended, in list order. */
  ghost predicate FinalReads(operations: seq<ToolInterval>, observations: seq<ReadObservation>, places: seq<nat>,
                             windows: seq<ReadObservation>)
  {
    Picks(observations, (o: ReadObservation) => AfterAll(operations, o), places, windows)
  }

  lemma FinalReadsPicked(operations: seq<ToolInterval>, observations: seq<ReadObservation>) returns (places: seq<nat>)
    requires operations != []
    ensures FinalReads(operations, observations, places, ReadsAfter(observations, FinalEnd(operations)))
  {
    FinalEndMeaning(operations);
    places := ReadsAfterPicked(observations, FinalEnd(operations));
    forall o: ReadObservation ensures AfterAll(operations, o) <==> FinalEnd(operations) < o.start {
      AfterFinalEnd(operations, o);
    }
  }

  lemma AfterFinalEnd(operations: seq<ToolInterval>, o: ReadObservation)
    requires operations != []
    ensures AfterAll(operations, o) <==> FinalEnd(operations) < o.start
  {
    FinalEndMeaning(operations);
    var a :| a in operations && a.end == FinalEnd(operations);
    var i :| 0 <= i < |operations| && operations[i] == a;
    forall j | 0 <= j < |operations| ensures operations[j].end <= FinalEnd(operations) { assert operations[j] in operations; }
  }

  // ---------------------------------------------------------------- the last newline

  /** The call at `i` ends first; of several the one that stands first in the list. */
  ghost predicate EndsFirst(operations: seq<ToolInterval>, i: nat) {
    && i < |operations|
    && (forall j :: 0 <= j < i ==> operations[i].end < operations[j].end)
    && forall j :: i < j < |operations| ==> operations[i].end <= operations[j].end
  }

  /** It wrote a text with a newline at its end. */
  ghost predicate WroteLastNewline(a: ToolInterval) {
    a.toolName == "write_file" && exists body: string :: a.args.content == Some(body + "\n")
  }

  lemma {:induction false} FirstToEndAt(operations: seq<ToolInterval>, i: nat)
    requires EndsFirst(operations, i)
    ensures FirstToEnd(operations) == operations[i]
    decreases |operations|
  {
    var n := |operations| - 1;
    if n > 0 {
      var init := operations[..n];
      if i < n {
        FirstToEndAt(init, i);
        assert init[i] == operations[i];
      } else {
        FirstToEndMeaning(init);
      }
    }
  }

  lemma LastNewline(a: ToolInterval)
    ensures WroteLastNewline(a) <==> a.toolName == "write_file" && a.args.content.Some?
                                     && var text := a.args.content.value; text != "" && text[|text| - 1] == '\n'
  {
    if a.args.content.Some? && a.args.content.value != "" {
      var text := a.args.content.value;
      assert text == text[..|text| - 1] + [text[|text| - 1]];
    }
  }

  /** The line numbers are 1 to |lines|. */
  ghost predicate LinesAre(merged: map<nat, string>, lines: seq<string>) {
    && lines != [] && (forall n: nat :: n in merged <==> 1 <= n <= |lines|)
    && forall n: nat :: n in merged ==> lines[n - 1] == merged[n]
  }

  lemma AssembledLines(merged: map<nat, string>, trailing: bool) returns (lines: seq<string>)
    requires Contiguous(merged)
    ensures LinesAre(merged, lines) && TextOf(merged, trailing) == Join(lines, "\n") + if trailing then "\n" else ""
  {
    var n := MaxKey(merged.Keys);
    LinesUpToContiguous(merged, n);
    lines := LinesUpTo(merged, n);
    assert merged.Keys == Range(n);
    forall k: nat ensures k in merged <==> 1 <= k <= n { assert k in merged <==> k in merged.Keys; }
    var k :| k in merged.Keys;
  }

  lemma NotContiguous(merged: map<nat, string>, lines: seq<string>)
    requires LinesAre(merged, lines)
    ensures Contiguous(merged)
  {
    var n := MaxKey(merged.Keys);
    assert 1 in merged;
    assert |lines| in merged.Keys && n in merged.Keys;
    assert n == |lines|;
    forall k: nat ensures k in merged.Keys <==> k in Range(n) { assert k in merged <==> k in merged.Keys; }
  }

  // ---------------------------------------------------------------- together

  /** What a prefix read, a replayed text and the final reads stitch to, said of the lists. */
  ghost predicate StitchesTo(operations: seq<ToolInterval>, observations: seq<ReadObservation>, prefix: ReadObservation,
                             start: string, replayed: string, windows: seq<ReadObservation>, lines: seq<string>, content: string)
  {
    && prefix in observations && 1 in prefix.lines && 0 !in prefix.lines
    && StartsAs(prefix, start)
    && replayed in Outcomes((set a | a in operations && prefix.end < a.start), Some(start))
    && (exists places :: FinalReads(operations, observations, places, windows))
    && LinesAre(MergeAll(Numbered(SplitLines(replayed)), windows), lines)
    && EndsLikeFirst(operations, lines, content)
  }

  ghost predicate EndsLikeFirst(operations: seq<ToolInterval>, lines: seq<string>, content: string) {
    forall i: nat :: EndsFirst(operations, i) ==>
      content == Join(lines, "\n") + if WroteLastNewline(operations[i]) then "\n" else ""
  }

  /** A stitched content starts from a read that begins at line 1, its lines in the order of
      their numbers; the calls that started after that read are replayed on it; the reads made
      after all calls are merged in, in list order, and then the lines are numbered from 1
      without a gap. The content is these lines joined by newlines, followed by one more
      newline exactly if the call that ended first wrote a text with one at its end. */
  lemma StitchesMeaning(operations: seq<ToolInterval>, observations: seq<ReadObservation>, prefix: ReadObservation,
                        replayed: string, content: string) returns (start: string, windows: seq<ReadObservation>, lines: seq<string>)
    requires operations != [] && Stitches(operations, observations, prefix, replayed, content)
    ensures StitchesTo(operations, observations, prefix, start, replayed, windows, lines, content)
  {
    PrefixListed(observations, prefix);
    var numbers, listed := PrefixTextMeaning(prefix);
    start := PrefixText(prefix);
    StartedLater(operations, prefix);
    windows := ReadsAfter(observations, FinalEnd(operations));
    var places := FinalReadsPicked(operations, observations);
    lines := AssembledLines(Merged(operations, observations, replayed), TrailingNewline(operations));
    LastAsFirst(operations, lines, content);
  }

  lemma LastAsFirst(operations: seq<ToolInterval>, lines: seq<string>, content: string)
    requires operations != [] && content == Join(lines, "\n") + if TrailingNewline(operations) then "\n" else ""
    ensures EndsLikeFirst(operations, lines, content)
  {
    forall i: nat | EndsFirst(operations, i)
      ensures content == Join(lines, "\n") + if WroteLastNewline(operations[i]) then "\n" else ""
    {
      FirstToEndAt(operations, i);
      LastNewline(operations[i]);
    }
  }

  lemma PrefixListed(observations: seq<ReadObservation>, prefix: ReadObservation)
    ensures prefix in PrefixReads(observations) <==> prefix in observations && 1 in prefix.lines && 0 !in prefix.lines
  {
    var places := PrefixReadsPicked(observations);
    if prefix in PrefixReads(observations) {
      var i :| 0 <= i < |places| && PrefixReads(observations)[i] == prefix;
      assert places[i] in places;
    }
    if prefix in observations && 1 in prefix.lines && 0 !in prefix.lines {
      var k :| 0 <= k < |observations| && observations[k] == prefix;
      assert k in places;
      var i :| 0 <= i < |places| && places[i] == k;
      assert PrefixReads(observations)[i] == prefix;
    }
  }

  lemma StartedLater(operations: seq<ToolInterval>, prefix: ReadObservation)
    ensures StartedAfter(operations, prefix) == (set a | a in operations && prefix.end < a.start)
  {
  }

  // ---------------------------------------------------------------- and nothing else is stitched

  lemma ListsUnique(lines: map<nat, string>, ones: seq<nat>, one: seq<string>, twos: seq<nat>, two: seq<string>)
    requires ListsLines(lines, ones, one) && ListsLines(lines, twos, two)
    ensures one == two
  {
    forall n ensures n in ones <==> n in twos { assert n in ones <==> n in lines; }
    IncreasingUnique(ones, twos);
  }

  lemma {:induction false} SomeEndsFirst(operations: seq<ToolInterval>) returns (i: nat)
    requires operations != []
    ensures EndsFirst(operations, i)
  {
    var n := |operations| - 1;
    if n == 0 {
      i := 0;
    } else {
      i := SomeEndsFirst(operations[..n]);
      if operations[n].end < operations[i].end { i := n; }
    }
  }

  lemma LinesUnique(merged: map<nat, string>, one: seq<string>, two: seq<string>)
    requires LinesAre(merged, one) && LinesAre(merged, two)
    ensures one == two
  {
    assert |one| in merged && |two| in merged;
    forall i | 0 <= i < |one| ensures one[i] == two[i] { assert i + 1 in merged; }
  }

  lemma MeaningStitches(operations: seq<ToolInterval>, observations: seq<ReadObservation>, prefix: ReadObservation,
                        start: string, replayed: string, windows: seq<ReadObservation>, lines: seq<string>, content: string)
    requires operations != [] && StitchesTo(operations, observations, prefix, start, replayed, windows, lines, content)
    ensures Stitches(operations, observations, prefix, replayed, content)
  {
    PrefixListed(observations, prefix);
    SameStart(prefix, start);
    SameWindows(operations, observations, windows);
    StartedLater(operations, prefix);
    TextAsFirst(operations, Merged(operations, observations, replayed), lines, content);
  }

  lemma TextAsFirst(operations: seq<ToolInterval>, merged: map<nat, string>, lines: seq<string>, content: string)
    requires operations != [] && LinesAre(merged, lines) && EndsLikeFirst(operations, lines, content)
    ensures Contiguous(merged) && content == TextOf(merged, TrailingNewline(operations))
  {
    NotContiguous(merged, lines);
    var same := AssembledLines(merged, TrailingNewline(operations));
    LinesUnique(merged, lines, same);
    var i := SomeEndsFirst(operations);
    FirstToEndAt(operations, i);
    LastNewline(operations[i]);
  }

  lemma SameStart(prefix: ReadObservation, start: string)
    requires 0 !in prefix.lines
    requires StartsAs(prefix, start)
    ensures start == PrefixText(prefix)
  {
    var numbers, listed :| ListsLines(prefix.lines, numbers, listed) && start == Join(listed, "\n");
    var others, same := PrefixTextMeaning(prefix);
    ListsUnique(prefix.lines, numbers, listed, others, same);
  }

  lemma SameWindows(operations: seq<ToolInterval>, observations: seq<ReadObservation>, windows: seq<ReadObservation>)
    requires operations != []
    requires exists places :: FinalReads(operations, observations, places, windows)
    ensures windows == ReadsAfter(observations, FinalEnd(operations))
  {
    var wanted := (o: ReadObservation) => AfterAll(operations, o);
    var places :| FinalReads(operations, observations, places, windows);
    var others := FinalReadsPicked(operations, observations);
    PicksUnique(observations, wanted, places, windows, others, ReadsAfter(observations, FinalEnd(operations)));
  }

  /** These are exactly the contents that the fallback can stitch. */
  lemma StitchedExactly(operations: seq<ToolInterval>, observations: seq<ReadObservation>, content: string)
    requires operations != []
    ensures Stitched(operations, observations, content)
       <==> exists prefix, start, replayed, windows, lines ::
              StitchesTo(operations, observations, prefix, start, replayed, windows, lines, content)
  {
    if Stitched(operations, observations, content) {
      var prefix, replayed :| Stitches(operations, observations, prefix, replayed, content);
      var start, windows, lines := StitchesMeaning(operations, observations, prefix, replayed, content);
    }
    if prefix, start, replayed, windows, lines :| StitchesTo(operations, observations, prefix, start, replayed, windows, lines, content) {
      MeaningStitches(operations, observations, prefix, start, replayed, windows, lines, content);
    }
  }
}
