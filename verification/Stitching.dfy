/** What the stitched content promises about the reads it was stitched from. */
module Stitching {
  import opened Text
  import opened Intervals
  import opened Observations
  import opened ReadWindows

  ghost predicate LinesBreakFree(lines: map<nat, string>) {
    forall n :: n in lines ==> BreakFree(lines[n])
  }

  /** Read lines come from `splitlines`, so none of them holds a line boundary. */
  ghost predicate ReadsBreakFree(observations: seq<ReadObservation>) {
    forall i :: 0 <= i < |observations| ==> LinesBreakFree(observations[i].lines)
  }

  lemma NumberedBreakFree(text: string)
    ensures LinesBreakFree(Numbered(SplitLines(text)))
  {
    NumberedMeaning(SplitLines(text));
    SplitLinesBreakFree(text);
  }

  lemma {:induction false} MergedBreakFree(merged: map<nat, string>, windows: seq<ReadObservation>)
    requires LinesBreakFree(merged) && ReadsBreakFree(windows)
    ensures LinesBreakFree(MergeAll(merged, windows))
  {
    if windows != [] { MergedBreakFree(merged, windows[..|windows| - 1]); }
  }

  lemma {:induction false} ReadsAfterBreakFree(observations: seq<ReadObservation>, time: int)
    requires ReadsBreakFree(observations)
    ensures ReadsBreakFree(ReadsAfter(observations, time))
  {
    if observations != [] { ReadsAfterBreakFree(observations[..|observations| - 1], time); }
  }

  lemma {:induction false} JoinSnocEmpty(lines: seq<string>)
    requires lines != []
    ensures Join(lines + [""], "\n") == Join(lines, "\n") + "\n"
  {
    if |lines| > 1 {
      JoinSnocEmpty(lines[1..]);
      assert (lines + [""])[1..] == lines[1..] + [""];
    } else {
      assert (lines + [""])[1..] == [""];
    }
  }

  /** Without a newline after it, an empty last line is lost when the text is split again. */
  lemma LastEmptyLineLost(lines: seq<string>)
    requires lines != [] && lines[|lines| - 1] == ""
    requires forall i :: 0 <= i < |lines| ==> BreakFree(lines[i])
    ensures |SplitLines(Join(lines, "\n"))| < |lines|
  {
    var init := lines[..|lines| - 1];
    assert lines == init + [""];
    if init != [] {
      JoinSnocEmpty(init);
      SplitLinesOfJoin(init, true);
    }
  }

  /** A text assembled from lines 1..max shows all of them again, exactly when a newline
      follows the last line or the last line is not empty. */
  lemma AssembledTextShowsItsLines(lines: map<nat, string>, trailing: bool)
    requires Contiguous(lines) && LinesBreakFree(lines)
    ensures MatchesObservation(TextOf(lines, trailing), lines) <==> trailing || lines[MaxKey(lines.Keys)] != ""
  {
    var n := MaxKey(lines.Keys);
    var all := LinesUpTo(lines, n);
    LinesUpToContiguous(lines, n);
    assert n in lines && all[n - 1] == lines[n];
    forall i | 0 <= i < n ensures BreakFree(all[i]) { assert all[i + 1 - 1] == lines[i + 1]; }
    if trailing || lines[n] != "" {
      SplitLinesOfJoin(all, trailing);
      forall k <- lines.Keys ensures 0 < k <= |all| && all[k - 1] == lines[k] { }
    } else {
      assert Join(all, "\n") + "" == Join(all, "\n");
      LastEmptyLineLost(all);
    }
  }

  lemma MatchesFewer(content: string, few: map<nat, string>, many: map<nat, string>)
    requires Sub(few, many) && MatchesObservation(content, many)
    ensures MatchesObservation(content, few)
  {
  }

  /** Stitching is conservative. A stitched content holds lines 1..max without a gap; its
      line map keeps every line of the replayed text and of every final read that agreed
      when its turn came, and holds no other line; and the content itself, when read again,
      shows the replayed text and all those reads (unless it ends in a lost empty line). */
  lemma StitchConservative(operations: seq<ToolInterval>, observations: seq<ReadObservation>,
                           prefix: ReadObservation, replayed: string, content: string)
    requires operations != [] && ReadsBreakFree(observations)
    requires Stitches(operations, observations, prefix, replayed, content)
    ensures var windows := ReadsAfter(observations, FinalEnd(operations));
            var start := Numbered(SplitLines(replayed));
            var merged := Merged(operations, observations, replayed);
            && Sub(start, merged)
            && (forall i :: 0 <= i < |windows| && Added(start, windows, i) ==> Sub(windows[i].lines, merged))
            && (forall n :: n in merged && n !in start ==>
                  exists i :: 0 <= i < |windows| && Added(start, windows, i) && n in windows[i].lines)
            && (TrailingNewline(operations) || merged[MaxKey(merged.Keys)] != "" ==>
                 && MatchesObservation(content, start)
                 && forall i :: 0 <= i < |windows| && Added(start, windows, i) ==>
                      MatchesObservation(content, windows[i].lines))
  {
    var windows := ReadsAfter(observations, FinalEnd(operations));
    var start := Numbered(SplitLines(replayed));
    var merged := Merged(operations, observations, replayed);
    MergeKeepsStart(start, windows);
    forall i | 0 <= i < |windows| && Added(start, windows, i) ensures Sub(windows[i].lines, merged) {
      MergeKeepsWindow(start, windows, i);
    }
    forall n | n in merged && n !in start
      ensures exists i :: 0 <= i < |windows| && Added(start, windows, i) && n in windows[i].lines
    {
      MergeInventsNothing(start, windows, n);
    }
    StitchShows(operations, observations, prefix, replayed, content);
  }

  lemma StitchShows(operations: seq<ToolInterval>, observations: seq<ReadObservation>,
                    prefix: ReadObservation, replayed: string, content: string)
    requires operations != [] && ReadsBreakFree(observations)
    requires Stitches(operations, observations, prefix, replayed, content)
    ensures var merged := Merged(operations, observations, replayed);
            TrailingNewline(operations) || merged[MaxKey(merged.Keys)] != "" ==>
              forall lines :: Sub(lines, merged) ==> MatchesObservation(content, lines)
  {
    var merged := Merged(operations, observations, replayed);
    NumberedBreakFree(replayed);
    ReadsAfterBreakFree(observations, FinalEnd(operations));
    MergedBreakFree(Numbered(SplitLines(replayed)), ReadsAfter(observations, FinalEnd(operations)));
    AssembledTextShowsItsLines(merged, TrailingNewline(operations));
    forall lines | Sub(lines, merged) && MatchesObservation(content, merged) ensures MatchesObservation(content, lines) {
      MatchesFewer(content, lines, merged);
    }
  }
}
