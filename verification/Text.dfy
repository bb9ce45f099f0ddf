/** Python and JavaScript string operations that the repository relies on: the
    lexicographic order of `sorted`, `split`/`join`, `str.count`, `str.replace`
    and `str.splitlines`. */
module Text {
  import opened Wrappers

  lemma Associate<T>(a: seq<T>, b: seq<T>, c: seq<T>)
    ensures a + (b + c) == (a + b) + c
  {
  }

  lemma InitAndLast<T>(s: seq<T>)
    requires s != []
    ensures s == s[..|s| - 1] + [s[|s| - 1]]
  {
  }

  lemma AppendInitAndLast<T>(a: seq<T>, b: seq<T>)
    requires b != []
    ensures a + b == (a + b[..|b| - 1]) + [b[|b| - 1]]
  {
  }

  lemma AppendNothing<T>(a: seq<T>)
    ensures a + [] == a
  {
  }

  /** 1, 2, ..., n. */
  function OneUpTo(n: nat): seq<nat> {
    seq(n, i => i + 1)
  }

  // ---------------------------------------------------------------- order

  /** Code-point order, as Python's `<` on `str`. */
  predicate StringLess(a: string, b: string) {
    if b == "" then false
    else if a == "" then true
    else a[0] < b[0] || (a[0] == b[0] && StringLess(a[1..], b[1..]))
  }

  lemma {:induction false} StringLessTrichotomy(a: string, b: string)
    ensures StringLess(a, b) || a == b || StringLess(b, a)
    ensures !(StringLess(a, b) && StringLess(b, a))
    ensures !StringLess(a, a)
  {
    if a != "" {
      StringLessTrichotomy(a[1..], a[1..]);
    }
    if a != "" && b != "" {
      StringLessTrichotomy(a[1..], b[1..]);
      if a[0] == b[0] && a[1..] == b[1..] {
        assert a == [a[0]] + a[1..] == b;
      }
    }
  }

  /** `a` agrees with `b` up to `k`, and there it ends or has the smaller character. */
  predicate LessAt(a: string, b: string, k: nat) {
    k <= |a| && k < |b| && a[..k] == b[..k] && (k == |a| || a[k] < b[k])
  }

  lemma {:induction false} StringLessMeaning(a: string, b: string)
    ensures StringLess(a, b) <==> exists k: nat :: LessAt(a, b, k)
  {
    if a == "" || b == "" {
      if b != "" { assert LessAt(a, b, 0); }
    } else if a[0] != b[0] {
      assert forall k: nat :: 0 < k <= |a| && k <= |b| ==> a[..k][0] != b[..k][0];
      if a[0] < b[0] { assert LessAt(a, b, 0); }
    } else {
      StringLessMeaning(a[1..], b[1..]);
      forall k: nat ensures LessAt(a, b, k + 1) <==> LessAt(a[1..], b[1..], k) {
        if k < |a| && k < |b| {
          assert a[..k + 1] == [a[0]] + a[1..][..k] && b[..k + 1] == [b[0]] + b[1..][..k];
          assert a[..k + 1][1..] == a[1..][..k] && b[..k + 1][1..] == b[1..][..k];
        }
      }
      if k: nat :| LessAt(a, b, k) { assert k > 0 && LessAt(a[1..], b[1..], k - 1); }
    }
  }

  lemma {:induction false} StringLessTransitive(a: string, b: string, c: string)
    requires StringLess(a, b) && StringLess(b, c)
    ensures StringLess(a, c)
  {
    if a != "" && a[0] == b[0] == c[0] {
      StringLessTransitive(a[1..], b[1..], c[1..]);
    }
  }

  // ---------------------------------------------------------------- search

  predicate OccursAt(sub: string, s: string, k: nat) {
    k + |sub| <= |s| && s[k..k + |sub|] == sub
  }

  /** The leftmost position at or after `from` where `sub` occurs in `s`. */
  function FindFrom(s: string, sub: string, from: nat): (r: Option<nat>)
    requires from <= |s|
    ensures r.Some? ==> r.value + |sub| <= |s|
    decreases |s| - from
  {
    if OccursAt(sub, s, from) then Some(from)
    else if from == |s| then None
    else FindFrom(s, sub, from + 1)
  }

  lemma {:induction false} FindFromMeaning(s: string, sub: string, from: nat)
    requires from <= |s|
    ensures var r := FindFrom(s, sub, from);
            && (r.Some? ==> from <= r.value && OccursAt(sub, s, r.value))
            && forall j :: from <= j < (if r.Some? then r.value else |s| + 1) ==> !OccursAt(sub, s, j)
    decreases |s| - from
  {
    if !OccursAt(sub, s, from) && from < |s| { FindFromMeaning(s, sub, from + 1); }
  }

  function Find(s: string, sub: string): (r: Option<nat>)
    ensures r.Some? ==> r.value + |sub| <= |s|
  {
    FindFrom(s, sub, 0)
  }

  lemma FindMeaning(s: string, sub: string)
    ensures Find(s, sub).Some? ==> OccursAt(sub, s, Find(s, sub).value)
    ensures forall j :: 0 <= j < (if Find(s, sub).Some? then Find(s, sub).value else |s| + 1) ==> !OccursAt(sub, s, j)
  {
    FindFromMeaning(s, sub, 0);
  }

  /** More text after an occurrence does not move it. */
  lemma FindStable(a: string, b: string, sub: string)
    requires Find(a, sub).Some?
    ensures Find(a + b, sub) == Find(a, sub)
  {
    var k := Find(a, sub).value;
    FindMeaning(a, sub);
    FindMeaning(a + b, sub);
    assert (a + b)[k..k + |sub|] == a[k..k + |sub|];
    assert OccursAt(sub, a + b, k);
    forall j | 0 <= j < k ensures !OccursAt(sub, a + b, j) {
      assert !OccursAt(sub, a, j);
      if j + |sub| <= |a| { assert (a + b)[j..j + |sub|] == a[j..j + |sub|]; }
    }
  }

  // ---------------------------------------------------------------- split and join

  /** `s.split(sep)`: cut at the leftmost, non-overlapping occurrences of `sep`. */
  function SplitOn(s: string, sep: string): (parts: seq<string>)
    requires sep != ""
    ensures parts != []
    decreases |s|
  {
    var k := Find(s, sep);
    if k.None? then [s] else [s[..k.value]] + SplitOn(s[k.value + |sep|..], sep)
  }

  /** `sep.join(parts)`. */
  function Join(parts: seq<string>, sep: string): string {
    if parts == [] then ""
    else if |parts| == 1 then parts[0]
    else parts[0] + sep + Join(parts[1..], sep)
  }

  lemma JoinCons(first: string, rest: seq<string>, sep: string)
    requires rest != []
    ensures Join([first] + rest, sep) == first + sep + Join(rest, sep)
  {
    assert ([first] + rest)[1..] == rest;
  }

  /** Joined by a character that none of them holds, the parts come back when the text is split. */
  lemma {:induction false} SplitOfJoin(parts: seq<string>, c: char)
    requires parts != [] && forall i :: 0 <= i < |parts| ==> c !in parts[i]
    ensures SplitOn(Join(parts, [c]), [c]) == parts
    decreases |parts|
  {
    if |parts| == 1 {
      NotFound(parts[0], c);
      assert parts == [parts[0]];
    } else {
      var rest := Join(parts[1..], [c]);
      SplitOfJoin(parts[1..], c);
      FoundBehind(parts[0], c, rest);
      assert parts[0] + [c] + rest == Join(parts, [c]);
      assert parts == [parts[0]] + parts[1..];
    }
  }

  lemma NotFound(part: string, c: char)
    requires c !in part
    ensures Find(part, [c]).None?
  {
    FindMeaning(part, [c]);
    forall k: nat ensures OccursAt([c], part, k) <==> k < |part| && part[k] == c { OneChar(part, c, k); }
  }

  lemma OneChar(s: string, c: char, k: nat)
    ensures OccursAt([c], s, k) <==> k < |s| && s[k] == c
  {
    if k < |s| { assert s[k..k + 1] == [s[k]]; }
  }

  lemma FoundBehind(part: string, c: char, rest: string)
    requires c !in part
    ensures Find(part + [c] + rest, [c]) == Some(|part|)
    ensures (part + [c] + rest)[..|part|] == part && (part + [c] + rest)[|part| + 1..] == rest
  {
    var s := part + [c] + rest;
    FindMeaning(s, [c]);
    forall k: nat ensures OccursAt([c], s, k) <==> k < |s| && s[k] == c { OneChar(s, c, k); }
    assert s[|part|] == c;
    assert forall k :: 0 <= k < |part| ==> s[k] == part[k];
  }

  function ConcatAll(parts: seq<string>): string {
    Join(parts, "")
  }

  lemma ConcatCons(parts: seq<string>)
    requires parts != []
    ensures ConcatAll(parts) == parts[0] + ConcatAll(parts[1..])
  {
  }

  lemma {:induction false} ConcatSnoc(parts: seq<string>, last: string)
    ensures ConcatAll(parts + [last]) == ConcatAll(parts) + last
  {
    if parts == [] {
      assert parts + [last] == [last];
    } else {
      assert (parts + [last])[1..] == parts[1..] + [last];
      ConcatSnoc(parts[1..], last);
      ConcatCons(parts);
      ConcatCons(parts + [last]);
    }
  }

  /** Splitting loses nothing: joining the pieces gives the text back. */
  lemma {:induction false} JoinSplit(s: string, sep: string)
    requires sep != ""
    ensures Join(SplitOn(s, sep), sep) == s
    decreases |s|
  {
    var k := Find(s, sep);
    if k.Some? {
      var rest := s[k.value + |sep|..];
      FindMeaning(s, sep);
      JoinSplit(rest, sep);
      JoinCons(s[..k.value], SplitOn(rest, sep), sep);
      assert s == s[..k.value] + s[k.value..k.value + |sep|] + rest;
    }
  }

  /** No piece of a split contains the separator. */
  lemma {:induction false} PiecesAreSepFree(s: string, sep: string)
    requires sep != ""
    ensures forall i :: 0 <= i < |SplitOn(s, sep)| ==> Find(SplitOn(s, sep)[i], sep).None?
    decreases |s|
  {
    var k := Find(s, sep);
    if k.Some? {
      PiecesAreSepFree(s[k.value + |sep|..], sep);
      var first := s[..k.value];
      FindMeaning(s, sep);
      FindMeaning(first, sep);
      forall j: nat | j + |sep| <= |first| ensures !OccursAt(sep, first, j) {
        assert first[j..j + |sep|] == s[j..j + |sep|];
        assert !OccursAt(sep, s, j);
      }
    }
  }

  /** The pieces of `a` that more text can no longer change ... */
  function Completed(a: string, sep: string): seq<string>
    requires sep != ""
  {
    var p := SplitOn(a, sep);
    p[..|p| - 1]
  }

  /** ... and the one that it can: what a streaming reader keeps in its buffer. */
  function Unfinished(a: string, sep: string): string
    requires sep != ""
  {
    var p := SplitOn(a, sep);
    p[|p| - 1]
  }

  /** Splitting a text that arrives in two parts: split the first part, keep its last
      (unfinished) piece, and go on from there with the second part in front of you. */
  lemma {:induction false} SplitConcat(a: string, b: string, sep: string)
    requires sep != ""
    ensures SplitOn(a + b, sep) == Completed(a, sep) + SplitOn(Unfinished(a, sep) + b, sep)
    decreases |a|
  {
    if Find(a, sep).Some? {
      var k := Find(a, sep).value;
      var rest := a[k + |sep|..];
      FindStable(a, b, sep);
      assert (a + b)[k + |sep|..] == rest + b && (a + b)[..k] == a[..k];
      SplitFound(a, sep, k);
      SplitFound(a + b, sep, k);
      SplitConcat(rest, b, sep);
    }
  }

  lemma SplitFound(s: string, sep: string, k: nat)
    requires sep != "" && Find(s, sep) == Some(k)
    ensures var rest := s[k + |sep|..];
            && SplitOn(s, sep) == [s[..k]] + SplitOn(rest, sep)
            && Completed(s, sep) == [s[..k]] + Completed(rest, sep)
            && Unfinished(s, sep) == Unfinished(rest, sep)
  {
  }

  // ---------------------------------------------------------------- count and replace

  /** `s.count(sub)`: leftmost, non-overlapping; the empty string occurs |s| + 1 times. */
  function Count(s: string, sub: string): nat
    decreases |s|
  {
    if sub == "" then |s| + 1
    else
      var k := Find(s, sub);
      if k.None? then 0 else 1 + Count(s[k.value + |sub|..], sub)
  }

  /** `s.replace(old, new)`; replacing the empty string inserts around every character. */
  function ReplaceAll(s: string, old_: string, new_: string): string
    decreases |s|
  {
    if old_ == "" then
      if s == "" then new_ else new_ + [s[0]] + ReplaceAll(s[1..], old_, new_)
    else
      var k := Find(s, old_);
      if k.None? then s else s[..k.value] + new_ + ReplaceAll(s[k.value + |old_|..], old_, new_)
  }

  /** `s.replace(old, new, 1)`. */
  function ReplaceFirst(s: string, old_: string, new_: string): string {
    var k := Find(s, old_);
    if k.None? then s else s[..k.value] + new_ + s[k.value + |old_|..]
  }

  /** Where the old text does not occur, nothing is counted and nothing replaced. */
  lemma NothingFound(s: string, old_: string, new_: string)
    ensures old_ != "" && Find(s, old_).None? ==> Count(s, old_) == 0 && ReplaceAll(s, old_, new_) == s
  {
  }

  /** The pieces between the occurrences of `old_`. The empty text occurs before, between and
      behind all characters. */
  function Cuts(s: string, old_: string): (parts: seq<string>)
    ensures parts != []
  {
    if old_ == "" then [""] + Singles(s) + [""] else SplitOn(s, old_)
  }

  function Singles(s: string): (parts: seq<string>) {
    if s == "" then [] else [[s[0]]] + Singles(s[1..])
  }

  /** Replacing is cutting at the old text and joining with the new one, and counting is
      counting the cuts, for every old text, the empty one included. */
  lemma ReplaceAllIsSplitJoin(s: string, old_: string, new_: string)
    ensures ReplaceAll(s, old_, new_) == Join(Cuts(s, old_), new_)
    ensures Count(s, old_) == |Cuts(s, old_)| - 1
  {
    if old_ == "" {
      ReplaceEmpty(s, new_);
    } else {
      ReplaceSplitJoin(s, old_, new_);
    }
  }

  lemma ReplaceEmpty(s: string, new_: string)
    ensures ReplaceAll(s, "", new_) == Join([""] + Singles(s) + [""], new_)
    ensures |[""] + Singles(s) + [""]| == |s| + 2
  {
    InsertEverywhere(s, new_);
    var rest := Singles(s) + [""];
    Regrouped(Singles(s));
    JoinEmpty(rest, new_);
  }

  lemma Regrouped(singles: seq<string>)
    ensures [""] + singles + [""] == [""] + (singles + [""])
  {
  }

  lemma JoinEmpty(rest: seq<string>, sep: string)
    requires rest != []
    ensures Join([""] + rest, sep) == sep + Join(rest, sep)
  {
    JoinCons("", rest, sep);
    assert "" + sep == sep;
  }

  lemma {:induction false} ReplaceSplitJoin(s: string, old_: string, new_: string)
    requires old_ != ""
    ensures ReplaceAll(s, old_, new_) == Join(SplitOn(s, old_), new_)
    ensures Count(s, old_) == |SplitOn(s, old_)| - 1
    decreases |s|
  {
    var k := Find(s, old_);
    if k.Some? {
      var rest := s[k.value + |old_|..];
      ReplaceSplitJoin(rest, old_, new_);
      JoinCons(s[..k.value], SplitOn(rest, old_), new_);
    }
  }

  lemma {:induction false} InsertEverywhere(s: string, new_: string)
    ensures ReplaceAll(s, "", new_) == new_ + Join(Singles(s) + [""], new_)
    ensures |Singles(s)| == |s|
  {
    if s == "" {
      assert Singles(s) + [""] == [""];
    } else {
      var rest := Singles(s[1..]) + [""];
      InsertEverywhere(s[1..], new_);
      JoinCons([s[0]], rest, new_);
      assert Singles(s) + [""] == [[s[0]]] + rest;
    }
  }

  /** On a unique occurrence the `replace_all` flag makes no difference. */
  lemma UniqueOccurrenceReplace(s: string, old_: string, new_: string)
    requires Count(s, old_) == 1
    ensures ReplaceAll(s, old_, new_) == ReplaceFirst(s, old_, new_)
  {
    if old_ == "" {
      assert s == "";
      FindMeaning(s, old_);
      assert OccursAt(old_, s, 0);
    } else {
      var k := Find(s, old_);
      var rest := s[k.value + |old_|..];
      assert Count(rest, old_) == 0;
      assert ReplaceAll(rest, old_, new_) == rest;
    }
  }

  // ---------------------------------------------------------------- lines

  /** The line boundaries of Python's `str.splitlines`. */
  predicate IsLineBreak(c: char) {
    c in {'\n', '\r', '\U{0B}', '\U{0C}', '\U{1C}', '\U{1D}', '\U{1E}', '\U{85}', '\U{2028}', '\U{2029}'}
  }

  /** Length of the line boundary at the front of `s` ("\r\n" is one boundary). */
  function BreakLength(s: string): (n: nat)
    requires s != "" && IsLineBreak(s[0])
    ensures 1 <= n <= |s|
  {
    if s[0] == '\r' && |s| > 1 && s[1] == '\n' then 2 else 1
  }

  /** `s.splitlines()`: no empty piece after a final boundary. */
  function SplitLines(s: string): seq<string>
    decreases |s|
  {
    if s == "" then []
    else if IsLineBreak(s[0]) then [""] + SplitLines(s[BreakLength(s)..])
    else
      var rest := SplitLines(s[1..]);
      if rest == [] then [[s[0]]]
      else [[s[0]] + rest[0]] + rest[1..]
  }

  ghost predicate BreakFree(line: string) {
    forall i :: 0 <= i < |line| ==> !IsLineBreak(line[i])
  }

  lemma {:induction false} SplitLinesBreakFree(s: string)
    ensures forall i :: 0 <= i < |SplitLines(s)| ==> BreakFree(SplitLines(s)[i])
    decreases |s|
  {
    if s != "" {
      if IsLineBreak(s[0]) {
        SplitLinesBreakFree(s[BreakLength(s)..]);
      } else {
        SplitLinesBreakFree(s[1..]);
      }
    }
  }

  /** A break-free line in front of a newline is split off as it stands. */
  lemma {:induction false} SplitLinesPeel(line: string, tail: string)
    requires BreakFree(line)
    ensures SplitLines(line + "\n" + tail) == [line] + SplitLines(tail)
  {
    var s := line + "\n" + tail;
    if line == "" {
      assert s[1..] == tail;
    } else {
      assert s[1..] == line[1..] + "\n" + tail;
      SplitLinesPeel(line[1..], tail);
      assert [s[0]] + line[1..] == line;
    }
  }

  lemma {:induction false} SplitLinesSingle(line: string)
    requires BreakFree(line) && line != ""
    ensures SplitLines(line) == [line]
  {
    assert [line[0]] + line[1..] == line;
    assert !IsLineBreak(line[0]);
    if |line| > 1 {
      SplitLinesSingle(line[1..]);
    } else {
      assert line == [line[0]];
    }
  }

  /** Joining lines with newlines and splitting them again gives the same lines, if the
      last one is not empty or a newline is added after it. */
  lemma {:induction false} SplitLinesOfJoin(lines: seq<string>, trailing: bool)
    requires lines != []
    requires forall i :: 0 <= i < |lines| ==> BreakFree(lines[i])
    requires trailing || lines[|lines| - 1] != ""
    ensures SplitLines(Join(lines, "\n") + if trailing then "\n" else "") == lines
  {
    var end := if trailing then "\n" else "";
    if |lines| == 1 {
      if trailing {
        SplitLinesPeel(lines[0], "");
        assert lines[0] + "\n" + "" == lines[0] + "\n";
      } else {
        SplitLinesSingle(lines[0]);
        assert lines[0] + "" == lines[0];
      }
    } else {
      SplitLinesOfJoin(lines[1..], trailing);
      SplitLinesPeel(lines[0], Join(lines[1..], "\n") + end);
      assert Join(lines, "\n") + end == lines[0] + "\n" + (Join(lines[1..], "\n") + end);
    }
  }
}
