/** What `str.splitlines` makes of a text with line breaks of any kind. */
module LineBreaks {
  import opened Text

  /** The line breaks of Python: "\r\n" is one. */
  predicate IsBreak(e: string) {
    e in {"\n", "\r", "\r\n", "\U{0B}", "\U{0C}", "\U{1C}", "\U{1D}", "\U{1E}", "\U{85}", "\U{2028}", "\U{2029}"}
  }

  /** Lines and the breaks behind them, no line holding a break. An empty line between "\r"
      and "\n" would make one break of the two. */
  ghost predicate Ended(lines: seq<string>, breaks: seq<string>) {
    && |lines| == |breaks|
    && (forall i :: 0 <= i < |lines| ==> BreakFree(lines[i]) && IsBreak(breaks[i]))
    && forall i :: 0 < i < |lines| && breaks[i - 1] == "\r" && breaks[i] == "\n" ==> lines[i] != ""
  }

  function TextOf(lines: seq<string>, breaks: seq<string>, tail: string): string
    requires |lines| == |breaks|
  {
    if lines == [] then tail else lines[0] + (breaks[0] + TextOf(lines[1..], breaks[1..], tail))
  }

  lemma EndedTail(lines: seq<string>, breaks: seq<string>)
    requires Ended(lines, breaks) && lines != []
    ensures Ended(lines[1..], breaks[1..])
  {
    var l, b := lines[1..], breaks[1..];
    forall i | 0 < i < |l| && b[i - 1] == "\r" && b[i] == "\n" ensures l[i] != "" {
      assert breaks[i] == b[i - 1] && breaks[i + 1] == b[i] && lines[i + 1] == l[i];
    }
  }

  lemma StartsWithNewline(lines: seq<string>, breaks: seq<string>, tail: string)
    requires Ended(lines, breaks) && BreakFree(tail)
    ensures var t := TextOf(lines, breaks, tail);
            t != "" && t[0] == '\n' <==> lines != [] && lines[0] == "" && breaks[0] == "\n"
  {
    if lines != [] && lines[0] != "" { assert TextOf(lines, breaks, tail)[0] == lines[0][0]; }
  }

  /** A line and its break in front. */
  lemma {:induction false} LinePeeled(line: string, e: string, t: string)
    requires BreakFree(line) && IsBreak(e) && !(e == "\r" && t != "" && t[0] == '\n')
    ensures SplitLines(line + (e + t)) == [line] + SplitLines(t)
    decreases |line|
  {
    var s := line + (e + t);
    if line == "" {
      assert s == e + t && s[0] == e[0];
      BreakPeeled(e, t);
    } else {
      var rest := line[1..];
      assert forall i :: 0 <= i < |rest| ==> rest[i] == line[i + 1];
      LinePeeled(rest, e, t);
      assert s[0] == line[0] && s[1..] == rest + (e + t) && [line[0]] + rest == line;
    }
  }

  lemma BreakPeeled(e: string, t: string)
    requires IsBreak(e) && !(e == "\r" && t != "" && t[0] == '\n')
    ensures SplitLines(e + t) == [""] + SplitLines(t)
  {
    var s := e + t;
    assert s[0] == e[0] && s[|e|..] == t;
    if e == "\r" && t != "" { assert s[1] == t[0]; }
    if |e| == 2 { assert s[1] == e[1]; }
  }

  /** The lines of such a text, and what is left behind the last break if that is not empty. */
  lemma {:induction false} LinesOfText(lines: seq<string>, breaks: seq<string>, tail: string)
    requires Ended(lines, breaks) && BreakFree(tail)
    ensures SplitLines(TextOf(lines, breaks, tail)) == lines + if tail == "" then [] else [tail]
    decreases |lines|
  {
    if lines == [] {
      if tail != "" { SplitLinesSingle(tail); }
    } else {
      EndedTail(lines, breaks);
      LinesOfText(lines[1..], breaks[1..], tail);
      StartsWithNewline(lines[1..], breaks[1..], tail);
      LinePeeled(lines[0], breaks[0], TextOf(lines[1..], breaks[1..], tail));
      assert lines == [lines[0]] + lines[1..];
    }
  }

  /** Every text is one of them. */
  lemma {:induction false} TextHasLines(s: string) returns (lines: seq<string>, breaks: seq<string>, tail: string)
    ensures Ended(lines, breaks) && BreakFree(tail) && s == TextOf(lines, breaks, tail)
    decreases |s|
  {
    if s == "" {
      lines, breaks, tail := [], [], "";
    } else if IsLineBreak(s[0]) {
      var e := s[..BreakLength(s)];
      lines, breaks, tail := TextHasLines(s[|e|..]);
      BreakInFront(s, e, lines, breaks, tail);
      lines, breaks := [""] + lines, [e] + breaks;
    } else {
      lines, breaks, tail := TextHasLines(s[1..]);
      if lines == [] {
        tail := [s[0]] + tail;
      } else {
        CharInFront(s, lines, breaks, tail);
        lines := [[s[0]] + lines[0]] + lines[1..];
      }
    }
  }

  lemma BreakInFront(s: string, e: string, lines: seq<string>, breaks: seq<string>, tail: string)
    requires s != "" && IsLineBreak(s[0]) && e == s[..BreakLength(s)]
    requires Ended(lines, breaks) && BreakFree(tail) && s[|e|..] == TextOf(lines, breaks, tail)
    ensures Ended([""] + lines, [e] + breaks) && s == TextOf([""] + lines, [e] + breaks, tail)
  {
    StartsWithNewline(lines, breaks, tail);
    assert e == if |e| == 2 then "\r\n" else [s[0]];
    EndedFront(e, lines, breaks);
    assert ([""] + lines)[1..] == lines && ([e] + breaks)[1..] == breaks && s == e + s[|e|..];
  }

  lemma EndedFront(e: string, lines: seq<string>, breaks: seq<string>)
    requires Ended(lines, breaks) && IsBreak(e) && !(e == "\r" && lines != [] && lines[0] == "" && breaks[0] == "\n")
    ensures Ended([""] + lines, [e] + breaks)
  {
    var l, b := [""] + lines, [e] + breaks;
    forall i | 0 < i < |l| && b[i - 1] == "\r" && b[i] == "\n" ensures l[i] != "" {
      if i > 1 { assert breaks[i - 2] == b[i - 1] && breaks[i - 1] == b[i] && lines[i - 1] == l[i]; }
    }
  }

  lemma CharInFront(s: string, lines: seq<string>, breaks: seq<string>, tail: string)
    requires s != "" && !IsLineBreak(s[0]) && lines != []
    requires Ended(lines, breaks) && s[1..] == TextOf(lines, breaks, tail)
    ensures var l := [[s[0]] + lines[0]] + lines[1..]; Ended(l, breaks) && s == TextOf(l, breaks, tail)
  {
    var l := [[s[0]] + lines[0]] + lines[1..];
    assert l[1..] == lines[1..];
    assert s == [s[0]] + s[1..];
  }

  /** `splitlines`, exactly. */
  lemma SplitLinesExactly(s: string, parts: seq<string>)
    ensures SplitLines(s) == parts <==>
            exists lines, breaks, tail :: Ended(lines, breaks) && BreakFree(tail) && s == TextOf(lines, breaks, tail)
                                          && parts == lines + if tail == "" then [] else [tail]
  {
    var lines, breaks, tail := TextHasLines(s);
    LinesOfText(lines, breaks, tail);
    if lines', breaks', tail' :| Ended(lines', breaks') && BreakFree(tail') && s == TextOf(lines', breaks', tail')
                                 && parts == lines' + if tail' == "" then [] else [tail'] {
      LinesOfText(lines', breaks', tail');
    }
  }
}
