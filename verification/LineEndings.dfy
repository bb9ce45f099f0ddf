/** Line endings as the edit tool sees them, and what an edit does, of one line or several. */
module LineEndings {
  import opened Wrappers
  import opened Text
  import opened Intervals
  import opened Replay
  import opened EditsApart

  // ---------------------------------------------------------------- replacing from the front

  /** Where no occurrence begins with the first character, the first one is that of the rest. */
  lemma FindShifted(c: char, s: string, sub: string)
    requires sub != "" && !OccursAt(sub, [c] + s, 0)
    ensures Find([c] + s, sub) == if Find(s, sub).Some? then Some(1 + Find(s, sub).value) else None
  {
    var t := [c] + s;
    FindMeaning(t, sub);
    FindMeaning(s, sub);
    forall k: nat ensures OccursAt(sub, t, k + 1) <==> OccursAt(sub, s, k) {
      if k + |sub| <= |s| { assert t[k + 1..k + 1 + |sub|] == s[k..k + |sub|]; }
    }
    if Find(s, sub).Some? { assert OccursAt(sub, t, Find(s, sub).value + 1); }
    if Find(t, sub).Some? { assert OccursAt(sub, s, Find(t, sub).value - 1); }
  }

  lemma FrontStays(c: char, s: string, sub: string, new_: string)
    requires sub != "" && !OccursAt(sub, [c] + s, 0)
    ensures ReplaceAll([c] + s, sub, new_) == [c] + ReplaceAll(s, sub, new_)
  {
    var t := [c] + s;
    FindShifted(c, s, sub);
    if Find(s, sub).Some? {
      var k := Find(s, sub).value;
      assert t[..k + 1] == [c] + s[..k] && t[k + 1 + |sub|..] == s[k + |sub|..];
      ReplaceBehind(t, k + 1, [c], s, k, sub, new_);
    } else {
      NothingFound(s, sub, new_);
      NothingFound(t, sub, new_);
    }
  }

  lemma FrontFound(s: string, sub: string)
    ensures Find(sub + s, sub) == Some(0)
  {
    FindMeaning(sub + s, sub);
    assert (sub + s)[0..|sub|] == sub;
    assert OccursAt(sub, sub + s, 0);
  }

  lemma FrontReplaced(s: string, sub: string, new_: string)
    requires sub != ""
    ensures ReplaceAll(sub + s, sub, new_) == new_ + ReplaceAll(s, sub, new_)
  {
    FrontFound(s, sub);
    assert (sub + s)[|sub|..] == s && (sub + s)[..0] == "";
    ReplaceFound(sub + s, sub, new_, 0, "", s);
    assert "" + new_ == new_;
  }

  // ---------------------------------------------------------------- one newline for each line end

  /** "\r\n" and a lone "\r" each become one newline, all else stays. */
  function OneNewlineEach(s: string): string
    decreases |s|
  {
    if s == "" then ""
    else if s[0] != '\r' then [s[0]] + OneNewlineEach(s[1..])
    else "\n" + OneNewlineEach(s[if |s| > 1 && s[1] == '\n' then 2 else 1..])
  }

  /** Replacing "\r\n" first and "\r" then does this. */
  lemma {:induction false} NewlinesMeaning(s: string)
    ensures UnixNewlines(s) == OneNewlineEach(s)
    decreases |s|
  {
    if s == "" {
      NothingFound("", "\r\n", "\n");
      NothingFound("", "\r", "\n");
      FindMeaning("", "\r\n");
      FindMeaning("", "\r");
    } else if s[0] != '\r' {
      NewlinesMeaning(s[1..]);
      OtherFirst(s[0], s[1..]);
      assert s == [s[0]] + s[1..];
    } else if |s| > 1 && s[1] == '\n' {
      NewlinesMeaning(s[2..]);
      BothFirst(s[2..]);
      assert s == "\r\n" + s[2..];
    } else {
      NewlinesMeaning(s[1..]);
      ReturnFirst(s[1..]);
      assert s == "\r" + s[1..];
    }
  }

  lemma OtherFirst(c: char, t: string)
    requires c != '\r'
    ensures UnixNewlines([c] + t) == [c] + UnixNewlines(t)
  {
    var u := ReplaceAll(t, "\r\n", "\n");
    NotHere(c, t, "\r\n");
    FrontStays(c, t, "\r\n", "\n");
    NotHere(c, u, "\r");
    FrontStays(c, u, "\r", "\n");
  }

  lemma NotHere(c: char, t: string, sub: string)
    requires sub != "" && c != sub[0]
    ensures !OccursAt(sub, [c] + t, 0)
  {
    if |sub| <= |[c] + t| { assert ([c] + t)[0..|sub|][0] == c; }
  }

  lemma BothFirst(t: string)
    ensures UnixNewlines("\r\n" + t) == "\n" + UnixNewlines(t)
  {
    var u := ReplaceAll(t, "\r\n", "\n");
    FrontReplaced(t, "\r\n", "\n");
    NotHere('\n', u, "\r");
    FrontStays('\n', u, "\r", "\n");
    assert ['\n'] + u == "\n" + u;
  }

  lemma ReturnFirst(t: string)
    requires t == "" || t[0] != '\n'
    ensures UnixNewlines("\r" + t) == "\n" + UnixNewlines(t)
  {
    var u := ReplaceAll(t, "\r\n", "\n");
    if t != "" { assert ("\r" + t)[0..2][1] == t[0]; }
    FrontStays('\r', t, "\r\n", "\n");
    assert "\r" + t == ['\r'] + t && "\r" + u == ['\r'] + u;
    FrontReplaced(u, "\r", "\n");
  }

  lemma {:induction false} NoReturnLeft(s: string)
    ensures '\r' !in OneNewlineEach(s)
    decreases |s|
  {
    if s != "" { NoReturnLeft(s[if s[0] == '\r' && |s| > 1 && s[1] == '\n' then 2 else 1..]); }
  }

  lemma {:induction false} NothingToDo(s: string)
    requires '\r' !in s
    ensures OneNewlineEach(s) == s
  {
    if s != "" { NothingToDo(s[1..]); }
  }

  /** A text is its own normal form exactly if it has no "\r"; normalising twice is
      normalising once. */
  lemma NormalForm(s: string)
    ensures UnixNewlines(s) == s <==> '\r' !in s
    ensures '\r' !in UnixNewlines(s) && UnixNewlines(UnixNewlines(s)) == UnixNewlines(s)
  {
    NewlinesMeaning(s);
    NoReturnLeft(s);
    if '\r' !in s { NothingToDo(s); }
    NewlinesMeaning(UnixNewlines(s));
    NothingToDo(UnixNewlines(s));
  }

  // ---------------------------------------------------------------- lines and their ends

  predicate IsLineEnd(e: string) {
    e == "\r\n" || e == "\r" || e == "\n"
  }

  ghost predicate Plain(line: string) {
    '\r' !in line && '\n' !in line
  }

  /** Lines, and the ends between them. */
  ghost predicate Lined(lines: seq<string>, ends: seq<string>) {
    && |lines| == |ends| + 1
    && (forall i :: 0 <= i < |lines| ==> Plain(lines[i])) && forall i :: 0 <= i < |ends| ==> IsLineEnd(ends[i])
  }

  function JoinBy(lines: seq<string>, ends: seq<string>): string
    requires |lines| == |ends| + 1
  {
    if ends == [] then lines[0] else lines[0] + ends[0] + JoinBy(lines[1..], ends[1..])
  }

  /** No empty line stands between a "\r" and a "\n", where the two read as one line end. */
  ghost predicate Distinguished(lines: seq<string>, ends: seq<string>)
    requires |lines| == |ends| + 1
  {
    forall i :: 0 <= i < |ends| - 1 && ends[i] == "\r" && ends[i + 1] == "\n" ==> lines[i + 1] != ""
  }

  lemma {:induction false} LineKept(line: string, t: string)
    requires '\r' !in line
    ensures OneNewlineEach(line + t) == line + OneNewlineEach(t)
  {
    if line == "" {
      assert line + t == t;
    } else {
      LineKept(line[1..], t);
      assert (line + t)[1..] == line[1..] + t;
    }
  }

  /** An end and what follows: one newline, unless "\r" meets "\n". */
  lemma EndKept(e: string, t: string)
    requires IsLineEnd(e)
    ensures OneNewlineEach(e + t) ==
            "\n" + OneNewlineEach(if e == "\r" && t != "" && t[0] == '\n' then t[1..] else t)
  {
    var s := e + t;
    if e == "\r\n" {
      assert s[2..] == t;
    } else if e == "\r" && t != "" && t[0] == '\n' {
      assert s[1] == t[0] && s[2..] == t[1..];
    } else {
      assert s[1..] == t;
      if e == "\r" && t != "" { assert s[1] == t[0]; }
    }
  }

  lemma StartsWithNewline(lines: seq<string>, ends: seq<string>)
    requires Lined(lines, ends)
    ensures var t := JoinBy(lines, ends); t != "" && t[0] == '\n' <==> lines[0] == "" && ends != [] && ends[0] == "\n"
  {
    if lines[0] != "" { assert JoinBy(lines, ends)[0] == lines[0][0] && lines[0][0] in lines[0]; }
  }

  lemma LinedTail(lines: seq<string>, ends: seq<string>)
    requires Lined(lines, ends) && ends != []
    ensures Lined(lines[1..], ends[1..])
    ensures Distinguished(lines, ends) <==>
            Distinguished(lines[1..], ends[1..]) && !(|ends| > 1 && ends[0] == "\r" && ends[1] == "\n" && lines[1] == "")
  {
    if Distinguished(lines[1..], ends[1..]) {
      forall i | 1 <= i < |ends| - 1 && ends[i] == "\r" && ends[i + 1] == "\n" ensures lines[i + 1] != "" {
        assert ends[1..][i - 1] == ends[i] && ends[1..][i] == ends[i + 1] && lines[1..][i] == lines[i + 1];
      }
    }
    if Distinguished(lines, ends) {
      forall i | 0 <= i < |ends[1..]| - 1 && ends[1..][i] == "\r" && ends[1..][i + 1] == "\n" ensures lines[1..][i + 1] != "" {
        assert ends[i + 1] == "\r" && ends[i + 2] == "\n";
      }
    }
  }

  lemma {:induction false} JoinedLines(lines: seq<string>, ends: seq<string>)
    requires Lined(lines, ends)
    ensures |OneNewlineEach(JoinBy(lines, ends))| <= |Join(lines, "\n")|
    ensures Distinguished(lines, ends) ==> OneNewlineEach(JoinBy(lines, ends)) == Join(lines, "\n")
    ensures !Distinguished(lines, ends) ==> |OneNewlineEach(JoinBy(lines, ends))| < |Join(lines, "\n")|
    decreases |ends|
  {
    if ends == [] {
      NothingToDo(lines[0]);
    } else {
      var t := JoinBy(lines[1..], ends[1..]);
      LinedTail(lines, ends);
      JoinedLines(lines[1..], ends[1..]);
      StartsWithNewline(lines[1..], ends[1..]);
      FirstLineKept(lines, ends, t);
      JoinedFirst(lines, ends[0], t);
    }
  }

  lemma FirstLineKept(lines: seq<string>, ends: seq<string>, t: string)
    requires Lined(lines, ends) && ends != [] && t == JoinBy(lines[1..], ends[1..])
    ensures OneNewlineEach(JoinBy(lines, ends))
         == lines[0] + if ends[0] == "\r" && t != "" && t[0] == '\n' then OneNewlineEach(t) else "\n" + OneNewlineEach(t)
  {
    LineKept(lines[0], ends[0] + t);
    EndMeets(ends[0], t);
    assert JoinBy(lines, ends) == lines[0] + (ends[0] + t);
  }

  lemma EndMeets(e: string, t: string)
    requires IsLineEnd(e)
    ensures OneNewlineEach(e + t)
         == if e == "\r" && t != "" && t[0] == '\n' then OneNewlineEach(t) else "\n" + OneNewlineEach(t)
  {
    EndKept(e, t);
  }

  lemma JoinedFirst(lines: seq<string>, e: string, t: string)
    requires |lines| > 1
    ensures Join(lines, "\n") == lines[0] + ("\n" + Join(lines[1..], "\n"))
    ensures t != "" && t[0] == '\n' ==> "\n" + OneNewlineEach(t[1..]) == OneNewlineEach(t)
  {
    assert lines[0] + "\n" + Join(lines[1..], "\n") == lines[0] + ("\n" + Join(lines[1..], "\n"));
  }

  /** Lines joined by any line ends, mixed ones included, normalise to the lines joined by
      newlines, exactly when no empty line stands between a "\r" and a "\n". */
  lemma LinesNormalise(lines: seq<string>, ends: seq<string>)
    requires Lined(lines, ends)
    ensures UnixNewlines(JoinBy(lines, ends)) == Join(lines, "\n") <==> Distinguished(lines, ends)
  {
    NewlinesMeaning(JoinBy(lines, ends));
    JoinedLines(lines, ends);
  }

  lemma {:induction false} JoinByOne(lines: seq<string>, ends: seq<string>, e: string)
    requires |lines| == |ends| + 1 && forall i :: 0 <= i < |ends| ==> ends[i] == e
    ensures JoinBy(lines, ends) == Join(lines, e)
    decreases |ends|
  {
    if ends != [] { JoinByOne(lines[1..], ends[1..], e); }
  }

  /** With one kind of line end throughout, always. */
  lemma LinesOfOneKind(lines: seq<string>, e: string)
    requires lines != [] && IsLineEnd(e) && forall i :: 0 <= i < |lines| ==> Plain(lines[i])
    ensures UnixNewlines(Join(lines, e)) == Join(lines, "\n")
  {
    var ends := seq(|lines| - 1, i => e);
    JoinByOne(lines, ends, e);
    LinesNormalise(lines, ends);
  }

  // ---------------------------------------------------------------- what an edit does

  lemma Occurrences(s: string, sub: string)
    ensures Count(s, sub) == 0 <==> forall k: nat :: !OccursAt(sub, s, k)
  {
    FindMeaning(s, sub);
    if sub == "" { assert OccursAt(sub, s, 0); }
    if Count(s, sub) == 0 {
      assert Find(s, sub).None?;
      forall k: nat ensures !OccursAt(sub, s, k) { }
    }
  }

  /** What one call makes of a file. A write puts its content there. An edit needs a file and
      both texts; of the same text twice it keeps the file. Otherwise it fails exactly if the
      old text does not occur, or occurs several times and not all are to be replaced; and
      else the file is cut at the old text and joined by the new one. */
  lemma ApplyMeaning(file: File, a: ToolInterval)
    ensures a.toolName == "write_file" ==> Apply(file, a) == a.args.content
    ensures a.toolName != "write_file" && (file.None? || a.args.oldString.None? || a.args.newString.None?) ==> Apply(file, a) == None
    ensures a.toolName != "write_file" && file.Some? && a.args.oldString.Some? && a.args.newString.Some? ==>
              EditMeans(file.value, UnixNewlines(a.args.oldString.value), UnixNewlines(a.args.newString.value), a.args.replaceAll,
                        Apply(file, a))
  {
    if a.toolName != "write_file" && file.Some? && a.args.oldString.Some? && a.args.newString.Some? {
      var old_, new_ := UnixNewlines(a.args.oldString.value), UnixNewlines(a.args.newString.value);
      Occurrences(file.value, old_);
      ReplaceAllIsSplitJoin(file.value, old_, new_);
      if Count(file.value, old_) == 1 { UniqueOccurrenceReplace(file.value, old_, new_); }
    }
  }

  /** `r` is the text after replacing `old_` by `new_`. */
  ghost predicate EditMeans(text: string, old_: string, new_: string, all: bool, r: Option<string>) {
    if old_ == new_ then r == Some(text)
    else if (forall k: nat :: !OccursAt(old_, text, k)) || (|Cuts(text, old_)| > 2 && !all) then r == None
    else r == Some(Join(Cuts(text, old_), new_))
  }

  /** For texts without "\r", several lines or one, the edit acts on the texts as given. */
  lemma EditOfLines(text: string, a: ToolInterval, old_: string, new_: string)
    requires a.toolName != "write_file" && a.args.oldString == Some(old_) && a.args.newString == Some(new_)
    requires '\r' !in old_ && '\r' !in new_
    ensures EditMeans(text, old_, new_, a.args.replaceAll, Apply(Some(text), a))
  {
    NormalForm(old_);
    NormalForm(new_);
    ApplyMeaning(Some(text), a);
  }

  /** The same lines with these or those line ends. */
  ghost predicate SameLines(s: string, t: string) {
    exists lines, ends, others :: Lined(lines, ends) && Lined(lines, others) && Distinguished(lines, ends)
                                  && Distinguished(lines, others) && s == JoinBy(lines, ends) && t == JoinBy(lines, others)
  }

  lemma SameNormalForm(s: string, t: string)
    requires SameLines(s, t)
    ensures UnixNewlines(s) == UnixNewlines(t)
  {
    var lines, ends, others :| Lined(lines, ends) && Lined(lines, others) && Distinguished(lines, ends)
                               && Distinguished(lines, others) && s == JoinBy(lines, ends) && t == JoinBy(lines, others);
    LinesNormalise(lines, ends);
    LinesNormalise(lines, others);
  }

  /** Two edits that differ only in their line endings act alike on every file. */
  lemma EndingsDoNotMatter(a: ToolInterval, b: ToolInterval)
    requires a.toolName != "write_file" && b.toolName != "write_file" && a.args.replaceAll == b.args.replaceAll
    requires a.args.oldString.Some? && a.args.newString.Some? && b.args.oldString.Some? && b.args.newString.Some?
    requires SameLines(a.args.oldString.value, b.args.oldString.value) && SameLines(a.args.newString.value, b.args.newString.value)
    ensures forall file: File :: Apply(file, a) == Apply(file, b)
  {
    SameNormalForm(a.args.oldString.value, b.args.oldString.value);
    SameNormalForm(a.args.newString.value, b.args.newString.value);
  }
}
