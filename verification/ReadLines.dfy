/** Numbered read output: base records "n<TAB>text" and continuation records
    "n.k<TAB>text" for long lines. */
module ReadLines {
  import opened Wrappers
  import opened Text
  import opened Intervals

  datatype ReadRecord = ReadRecord(number: nat, continuation: Option<nat>, text: string)

  /** A line of the tool output; None when it does not have the numbered form. */
  type Line = Option<ReadRecord>

  type Chunk = (nat, string)

  // ---------------------------------------------------------------- sorting chunks

  /** Python's `<=` on `(int, str)` tuples. */
  predicate ChunkLe(a: Chunk, b: Chunk) {
    a.0 < b.0 || (a.0 == b.0 && (a.1 == b.1 || StringLess(a.1, b.1)))
  }

  lemma ChunkLeOrder(a: Chunk, b: Chunk, c: Chunk)
    ensures ChunkLe(a, b) || ChunkLe(b, a)
    ensures ChunkLe(a, b) && ChunkLe(b, a) ==> a == b
    ensures ChunkLe(a, b) && ChunkLe(b, c) ==> ChunkLe(a, c)
  {
    StringLessTrichotomy(a.1, b.1);
    if StringLess(a.1, b.1) && StringLess(b.1, c.1) { StringLessTransitive(a.1, b.1, c.1); }
  }

  ghost predicate SortedChunks(s: seq<Chunk>) {
    forall i, j :: 0 <= i < j < |s| ==> ChunkLe(s[i], s[j])
  }

  function InsertChunk(s: seq<Chunk>, x: Chunk): seq<Chunk> {
    if s == [] || ChunkLe(x, s[0]) then [x] + s else [s[0]] + InsertChunk(s[1..], x)
  }

  function SortChunks(s: seq<Chunk>): seq<Chunk> {
    if s == [] then [] else InsertChunk(SortChunks(s[1..]), s[0])
  }

  lemma {:induction false} InsertChunkSorted(s: seq<Chunk>, x: Chunk)
    requires SortedChunks(s)
    ensures SortedChunks(InsertChunk(s, x)) && multiset(InsertChunk(s, x)) == multiset(s) + multiset{x}
  {
    if s == [] {
    } else if ChunkLe(x, s[0]) {
      forall j | 0 <= j < |s| ensures ChunkLe(x, s[j]) { ChunkLeOrder(x, s[0], s[j]); }
    } else {
      ChunkLeOrder(x, s[0], x);
      InsertChunkSorted(s[1..], x);
      var tail := InsertChunk(s[1..], x);
      assert s == [s[0]] + s[1..];
      forall j | 0 <= j < |tail| ensures ChunkLe(s[0], tail[j]) {
        assert tail[j] in multiset(tail);
        assert tail[j] == x || tail[j] in s[1..];
      }
    }
  }

  lemma {:induction false} SortChunksSorted(s: seq<Chunk>)
    ensures SortedChunks(SortChunks(s)) && multiset(SortChunks(s)) == multiset(s)
  {
    if s != [] {
      SortChunksSorted(s[1..]);
      InsertChunkSorted(SortChunks(s[1..]), s[0]);
      assert s == [s[0]] + s[1..];
    }
  }

  lemma SortedHeadLe(s: seq<Chunk>, x: Chunk)
    requires SortedChunks(s) && x in multiset(s)
    ensures s != [] && ChunkLe(s[0], x)
  {
    var i :| 0 <= i < |s| && s[i] == x;
    ChunkLeOrder(s[0], x, x);
  }

  lemma TailMultiset(s: seq<Chunk>)
    requires s != []
    ensures multiset(s) == multiset{s[0]} + multiset(s[1..])
  {
    assert s == [s[0]] + s[1..];
  }

  lemma {:induction false} SortedChunksUnique(s: seq<Chunk>, t: seq<Chunk>)
    requires SortedChunks(s) && SortedChunks(t) && multiset(s) == multiset(t)
    ensures s == t
    decreases |s|
  {
    assert |s| == |multiset(s)| == |multiset(t)| == |t|;
    if s != [] {
      SortedHeadLe(t, s[0]);
      SortedHeadLe(s, t[0]);
      ChunkLeOrder(s[0], t[0], s[0]);
      TailMultiset(s);
      TailMultiset(t);
      assert multiset(s[1..]) == multiset(s) - multiset{s[0]} == multiset(t[1..]);
      SortedChunksUnique(s[1..], t[1..]);
      assert s == [s[0]] + s[1..] && t == [t[0]] + t[1..];
    }
  }

  // ---------------------------------------------------------------- what parsing means

  /** The text of the last base record of line `n`. */
  function BaseText(lines: seq<Line>, n: nat): Option<string> {
    if lines == [] then None
    else
      var last := lines[|lines| - 1];
      if last.Some? && last.value.number == n && last.value.continuation.None? then Some(last.value.text)
      else BaseText(lines[..|lines| - 1], n)
  }

  /** The continuation records of line `n`, in the order they come. */
  function Chunks(lines: seq<Line>, n: nat): seq<Chunk> {
    if lines == [] then []
    else
      var last := lines[|lines| - 1];
      Chunks(lines[..|lines| - 1], n) +
      if last.Some? && last.value.number == n && last.value.continuation.Some?
      then [(last.value.continuation.value, last.value.text)] else []
  }

  function Concat(chunks: seq<Chunk>): string {
    if chunks == [] then "" else chunks[0].1 + Concat(chunks[1..])
  }

  /** No line breaks the format, and every continuation has a base record. */
  ghost predicate WellNumbered(lines: seq<Line>) {
    && (forall i :: 0 <= i < |lines| ==> lines[i].Some?)
    && (forall n: nat :: Chunks(lines, n) != [] ==> BaseText(lines, n).Some?)
  }

  /** The whole text of line `n`: base record, then continuations by number. */
  function LineText(lines: seq<Line>, n: nat): Option<string> {
    var base := BaseText(lines, n);
    if base.None? then None else Some(base.value + Concat(SortChunks(Chunks(lines, n))))
  }

  /** `parsed` is the line map that the records stand for. */
  ghost predicate Stands(lines: seq<Line>, parsed: map<nat, string>) {
    forall n: nat :: LineText(lines, n) == if n in parsed then Some(parsed[n]) else None
  }

  // ---------------------------------------------------------------- the parser

  /** The two tables after scanning some lines. */
  ghost predicate Scanned(lines: seq<Line>, parsed: map<nat, string>, continuations: map<nat, seq<Chunk>>) {
    && (forall j :: 0 <= j < |lines| ==> lines[j].Some?)
    && (forall n: nat :: if n in parsed then BaseText(lines, n) == Some(parsed[n]) else BaseText(lines, n).None?)
    && (forall n: nat :: Chunks(lines, n) == if n in continuations then continuations[n] else [])
    && (forall n: nat :: n in continuations ==> continuations[n] != [])
  }

  method ParseReadLines(lines: seq<Line>) returns (parsed: map<nat, string>)
    ensures WellNumbered(lines) ==> Stands(lines, parsed)
    ensures !WellNumbered(lines) ==> parsed == map[]
  {
    parsed := map[];
    var continuations: map<nat, seq<Chunk>> := map[];
    for i := 0 to |lines|
      invariant Scanned(lines[..i], parsed, continuations)
    {
      ghost var parsed0, continuations0 := parsed, continuations;
      if lines[i].None? { return map[]; }
      var ReadRecord(number, continuation, text) := lines[i].value;
      if continuation.None? {
        parsed := parsed[number := text];
      } else {
        var sofar := if number in continuations then continuations[number] else [];
        continuations := continuations[number := sofar + [(continuation.value, text)]];
      }
      ScanOne(lines[..i], lines[i].value, parsed0, continuations0, parsed, continuations);
      assert lines[..i + 1] == lines[..i] + [lines[i]];
    }
    assert lines[..|lines|] == lines;
    parsed := AppendContinuations(lines, parsed, continuations);
  }

  lemma ScanOne(lines: seq<Line>, r: ReadRecord, parsed: map<nat, string>, continuations: map<nat, seq<Chunk>>,
                parsed': map<nat, string>, continuations': map<nat, seq<Chunk>>)
    requires Scanned(lines, parsed, continuations)
    requires if r.continuation.None? then parsed' == parsed[r.number := r.text] && continuations' == continuations
             else parsed' == parsed && continuations' == continuations[r.number :=
               (if r.number in continuations then continuations[r.number] else []) + [(r.continuation.value, r.text)]]
    ensures Scanned(lines + [Some(r)], parsed', continuations')
  {
    var longer := lines + [Some(r)];
    assert longer[..|longer| - 1] == lines;
    forall n: nat
      ensures BaseText(longer, n) == if r.number == n && r.continuation.None? then Some(r.text) else BaseText(lines, n)
      ensures Chunks(longer, n) == Chunks(lines, n) +
                if r.number == n && r.continuation.Some? then [(r.continuation.value, r.text)] else []
    {
    }
  }

  /** The second loop: glue the sorted continuations of each line to its base text. */
  method AppendContinuations(ghost lines: seq<Line>, bases: map<nat, string>, continuations: map<nat, seq<Chunk>>)
    returns (parsed: map<nat, string>)
    requires Scanned(lines, bases, continuations)
    ensures WellNumbered(lines) ==> Stands(lines, parsed)
    ensures !WellNumbered(lines) ==> parsed == map[]
  {
    parsed := bases;
    var todo := continuations.Keys;
    while todo != {}
      invariant todo <= continuations.Keys && continuations.Keys - todo <= bases.Keys
      invariant Glued(continuations, continuations.Keys - todo, bases, parsed)
      decreases todo
    {
      var number :| number in todo;
      if number !in parsed {
        MissingBase(lines, bases, continuations, number);
        return map[];
      }
      GlueOne(continuations, continuations.Keys - todo, number, bases, parsed);
      parsed := parsed[number := parsed[number] + Concat(SortChunks(continuations[number]))];
      OneMoreDone(continuations.Keys, todo, number);
      todo := todo - {number};
    }
    GluedStands(lines, bases, continuations, parsed);
  }

  ghost predicate Glued(continuations: map<nat, seq<Chunk>>, done: set<nat>, bases: map<nat, string>, parsed: map<nat, string>)
    requires done <= continuations.Keys
  {
    && parsed.Keys == bases.Keys
    && forall n :: n in bases ==>
         parsed[n] == if n in done then bases[n] + Concat(SortChunks(continuations[n])) else bases[n]
  }

  lemma OneMoreDone<T>(all: set<T>, todo: set<T>, x: T)
    requires x in todo && todo <= all
    ensures all - (todo - {x}) == (all - todo) + {x}
  {
  }

  lemma MissingBase(lines: seq<Line>, bases: map<nat, string>, continuations: map<nat, seq<Chunk>>, n: nat)
    requires Scanned(lines, bases, continuations) && n in continuations && n !in bases
    ensures !WellNumbered(lines)
  {
    assert Chunks(lines, n) != [] && BaseText(lines, n).None?;
  }

  lemma GlueOne(continuations: map<nat, seq<Chunk>>, done: set<nat>, n: nat, bases: map<nat, string>, parsed: map<nat, string>)
    requires done <= continuations.Keys && n in continuations && n !in done && n in parsed
    requires Glued(continuations, done, bases, parsed)
    ensures Glued(continuations, done + {n}, bases, parsed[n := parsed[n] + Concat(SortChunks(continuations[n]))])
  {
  }

  lemma GluedStands(lines: seq<Line>, bases: map<nat, string>, continuations: map<nat, seq<Chunk>>, parsed: map<nat, string>)
    requires Scanned(lines, bases, continuations) && continuations.Keys <= bases.Keys
    requires Glued(continuations, continuations.Keys, bases, parsed)
    ensures WellNumbered(lines) && Stands(lines, parsed)
  {
    forall n: nat ensures LineText(lines, n) == if n in parsed then Some(parsed[n]) else None {
      if n in bases && n !in continuations {
        assert Chunks(lines, n) == [];
        assert bases[n] + "" == bases[n];
      }
    }
  }

  // ---------------------------------------------------------------- round trip

  /** The record of piece `j` of line `n`: piece 0 is the base record. */
  function RecordOf(n: nat, j: nat, text: string): Line {
    Some(ReadRecord(n, if j == 0 then None else Some(j), text))
  }

  /** `lines` lists the pieces of every line once each, in any order at all. */
  ghost predicate Prints(lines: seq<Line>, pieces: map<nat, seq<string>>) {
    && Distinct(lines)
    && (forall n: nat :: n in pieces ==> pieces[n] != [])
    && (forall x :: x in lines ==> exists n: nat, j: nat :: n in pieces && j < |pieces[n]| && x == RecordOf(n, j, pieces[n][j]))
    && (forall n: nat, j: nat :: n in pieces && j < |pieces[n]| ==> RecordOf(n, j, pieces[n][j]) in lines)
  }

  lemma {:induction false} BaseTextMember(lines: seq<Line>, n: nat)
    ensures BaseText(lines, n).Some? ==> Some(ReadRecord(n, None, BaseText(lines, n).value)) in lines
    ensures BaseText(lines, n).None? ==> forall x :: x in lines && x.Some? && x.value.number == n ==> x.value.continuation.Some?
  {
    if lines != [] {
      BaseTextMember(lines[..|lines| - 1], n);
      assert lines == lines[..|lines| - 1] + [lines[|lines| - 1]];
    }
  }

  lemma {:induction false} ChunksMember(lines: seq<Line>, n: nat, c: Chunk)
    ensures c in Chunks(lines, n) <==> Some(ReadRecord(n, Some(c.0), c.1)) in lines
  {
    if lines != [] {
      ChunksMember(lines[..|lines| - 1], n, c);
      assert lines == lines[..|lines| - 1] + [lines[|lines| - 1]];
    }
  }

  lemma {:induction false} ChunksDistinct(lines: seq<Line>, n: nat)
    requires Distinct(lines)
    ensures Distinct(Chunks(lines, n))
  {
    if lines != [] {
      var init, last := lines[..|lines| - 1], lines[|lines| - 1];
      ChunksDistinct(init, n);
      assert last !in init;
      if last.Some? && last.value.continuation.Some? {
        ChunksMember(init, n, (last.value.continuation.value, last.value.text));
      }
    }
  }

  lemma {:induction false} DistinctMultiset<T>(s: seq<T>, x: T)
    requires Distinct(s)
    ensures multiset(s)[x] == if x in s then 1 else 0
  {
    if s != [] {
      assert s == [s[0]] + s[1..];
      DistinctMultiset(s[1..], x);
      assert s[0] !in s[1..];
    }
  }

  /** The continuation chunks of one line, in their own order. */
  function Continuations(pieces: seq<string>, from: nat): (r: seq<Chunk>)
    requires 1 <= from <= |pieces|
    ensures |r| == |pieces| - from
    ensures forall i :: 0 <= i < |r| ==> r[i] == (from + i, pieces[from + i])
    decreases |pieces| - from
  {
    if from == |pieces| then [] else [(from, pieces[from])] + Continuations(pieces, from + 1)
  }

  lemma {:induction false} ConcatContinuations(pieces: seq<string>, from: nat)
    requires 1 <= from <= |pieces|
    ensures Concat(Continuations(pieces, from)) == ConcatAll(pieces[from..])
    decreases |pieces| - from
  {
    if from < |pieces| {
      ConcatContinuations(pieces, from + 1);
      assert pieces[from..][1..] == pieces[from + 1..];
    }
  }

  lemma SortedContinuations(lines: seq<Line>, pieces: map<nat, seq<string>>, n: nat)
    requires Prints(lines, pieces) && n in pieces
    ensures SortChunks(Chunks(lines, n)) == Continuations(pieces[n], 1)
  {
    var have, want := Chunks(lines, n), Continuations(pieces[n], 1);
    ChunksDistinct(lines, n);
    forall c: Chunk ensures c in have <==> c in want {
      ContinuationMember(lines, pieces, n, c);
    }
    forall c: Chunk ensures multiset(have)[c] == multiset(want)[c] {
      DistinctMultiset(have, c);
      DistinctMultiset(want, c);
    }
    assert multiset(have) == multiset(want);
    SortChunksSorted(have);
    SortedChunksUnique(SortChunks(have), want);
  }

  lemma ContinuationMember(lines: seq<Line>, pieces: map<nat, seq<string>>, n: nat, c: Chunk)
    requires Prints(lines, pieces) && n in pieces
    ensures c in Chunks(lines, n) <==> c in Continuations(pieces[n], 1)
  {
    var want := Continuations(pieces[n], 1);
    ChunksMember(lines, n, c);
    if c in want {
      var i :| 0 <= i < |want| && want[i] == c;
      assert RecordOf(n, c.0, pieces[n][c.0]) in lines;
    }
    if Some(ReadRecord(n, Some(c.0), c.1)) in lines {
      assert 1 <= c.0 < |pieces[n]| && c.1 == pieces[n][c.0];
      assert want[c.0 - 1] == c;
    }
  }

  lemma PrintedBase(lines: seq<Line>, pieces: map<nat, seq<string>>, n: nat)
    requires Prints(lines, pieces)
    ensures if n in pieces then BaseText(lines, n) == Some(pieces[n][0]) else BaseText(lines, n).None? && Chunks(lines, n) == []
  {
    BaseTextMember(lines, n);
    if n in pieces {
      assert RecordOf(n, 0, pieces[n][0]) in lines;
    } else if Chunks(lines, n) != [] {
      var c := Chunks(lines, n)[0];
      assert c in Chunks(lines, n);
      ChunksMember(lines, n, c);
      assert false;
    }
  }

  lemma PrintedLine(lines: seq<Line>, pieces: map<nat, seq<string>>, n: nat)
    requires Prints(lines, pieces)
    ensures LineText(lines, n) == if n in pieces then Some(ConcatAll(pieces[n])) else None
    ensures Chunks(lines, n) != [] ==> BaseText(lines, n).Some?
  {
    PrintedBase(lines, pieces, n);
    if n in pieces {
      SortedContinuations(lines, pieces, n);
      ConcatContinuations(pieces[n], 1);
      ConcatCons(pieces[n]);
    }
  }

  /** Printing lines as numbered records, long ones cut into continuations, and parsing
      them back gives the lines, in whatever order the records come. */
  lemma RoundTrip(lines: seq<Line>, pieces: map<nat, seq<string>>, parsed: map<nat, string>)
    requires Prints(lines, pieces)
    ensures WellNumbered(lines)
    ensures Stands(lines, parsed) <==> parsed == map n | n in pieces :: ConcatAll(pieces[n])
  {
    forall i | 0 <= i < |lines| ensures lines[i].Some? { assert lines[i] in lines; }
    forall n: nat
      ensures LineText(lines, n) == if n in pieces then Some(ConcatAll(pieces[n])) else None
      ensures Chunks(lines, n) != [] ==> BaseText(lines, n).Some?
    {
      PrintedLine(lines, pieces, n);
    }
    if Stands(lines, parsed) {
      forall n: nat ensures n in parsed <==> n in pieces {
        assert LineText(lines, n).Some? <==> n in parsed;
      }
    }
  }
}
