/** Overlapping edits that cannot disturb each other: their texts lie on different sides
    of a separator that neither of them contains. */
module EditsApart {
  import opened Wrappers
  import opened Text
  import opened Intervals
  import opened Replay
  import opened Confluence

  lemma OccursApart(l: string, c: char, r: string, s: string, k: nat)
    requires s != "" && c !in s
    ensures OccursAt(s, l + [c] + r, k)
       <==> OccursAt(s, l, k) || (k > |l| && OccursAt(s, r, k - |l| - 1))
  {
    var t := l + [c] + r;
    if k + |s| <= |l| {
      assert t[k..k + |s|] == l[k..k + |s|];
    } else if k > |l| {
      if k + |s| <= |t| { assert t[k..k + |s|] == r[k - |l| - 1..k - |l| - 1 + |s|]; }
    } else if k + |s| <= |t| {
      assert t[k..k + |s|][|l| - k] == c;
      assert c in t[k..k + |s|];
    }
  }

  lemma FindApart(l: string, c: char, r: string, s: string)
    requires s != "" && c !in s
    ensures Find(l + [c] + r, s)
         == if Find(l, s).Some? then Find(l, s)
            else if Find(r, s).Some? then Some(|l| + 1 + Find(r, s).value) else None
  {
    var t := l + [c] + r;
    FindMeaning(t, s);
    FindMeaning(l, s);
    FindMeaning(r, s);
    forall k: nat ensures OccursAt(s, t, k) <==> OccursAt(s, l, k) || (k > |l| && OccursAt(s, r, k - |l| - 1)) {
      OccursApart(l, c, r, s, k);
    }
    if Find(l, s).None? && Find(r, s).Some? { assert OccursAt(s, t, |l| + 1 + Find(r, s).value); }
    if Find(t, s).Some? && Find(t, s).value > |l| {
      assert OccursAt(s, r, Find(t, s).value - |l| - 1);
    }
  }

  lemma CountFound(s: string, o: string, k: nat, rest: string)
    requires o != "" && Find(s, o) == Some(k) && s[k + |o|..] == rest
    ensures Count(s, o) == 1 + Count(rest, o)
  {
  }

  lemma ReplaceStep(s: string, o: string, n: string, k: nat)
    requires o != "" && Find(s, o) == Some(k)
    ensures ReplaceAll(s, o, n) == s[..k] + n + ReplaceAll(s[k + |o|..], o, n)
  {
  }

  lemma ReplaceFound(s: string, o: string, n: string, k: nat, before: string, rest: string)
    requires o != "" && Find(s, o) == Some(k) && s[k + |o|..] == rest && s[..k] == before
    ensures ReplaceAll(s, o, n) == before + n + ReplaceAll(rest, o, n)
  {
    ReplaceStep(s, o, n, k);
  }

  /** Counting works on the two sides separately ... */
  lemma {:induction false} CountApart(l: string, c: char, r: string, s: string)
    requires s != "" && c !in s
    ensures Count(l + [c] + r, s) == Count(l, s) + Count(r, s)
    decreases |l|
  {
    var t, f := l + [c] + r, Find(l, s);
    if f.Some? {
      var rest := l[f.value + |s|..];
      CountApart(rest, c, r, s);
      ReplaceLeft(l, c, r, s);
      CountFound(l, s, f.value, rest);
      CountFound(t, s, f.value, rest + [c] + r);
    } else {
      CountRight(l, c, r, s);
    }
  }

  lemma CountRight(l: string, c: char, r: string, s: string)
    requires s != "" && c !in s && Find(l, s).None?
    ensures Count(l + [c] + r, s) == Count(l, s) + Count(r, s)
  {
    NothingFound(l, s, "");
    if Find(r, s).Some? {
      CountRightFound(l, c, r, s, Find(r, s).value);
    } else {
      NothingFound(r, s, "");
      NowhereFound(l, c, r, s, "");
    }
  }

  lemma CountRightFound(l: string, c: char, r: string, s: string, k: nat)
    requires s != "" && c !in s && Find(l, s).None? && Find(r, s) == Some(k)
    ensures Count(l + [c] + r, s) == Count(r, s)
  {
    ReplaceRight(l, c, r, s);
    SameRest(l + [c] + r, |l| + 1 + k, r, k, s);
  }

  lemma SameRest(t: string, m: nat, r: string, k: nat, s: string)
    requires s != "" && Find(t, s) == Some(m) && Find(r, s) == Some(k) && t[m + |s|..] == r[k + |s|..]
    ensures Count(t, s) == Count(r, s)
  {
    CountFound(t, s, m, t[m + |s|..]);
    CountFound(r, s, k, r[k + |s|..]);
  }

  /** ... and so does replacing. */
  lemma {:induction false} ReplaceApart(l: string, c: char, r: string, s: string, n: string)
    requires s != "" && c !in s
    ensures ReplaceAll(l + [c] + r, s, n) == ReplaceAll(l, s, n) + [c] + ReplaceAll(r, s, n)
    decreases |l|
  {
    var t, f := l + [c] + r, Find(l, s);
    if f.Some? {
      var rest := l[f.value + |s|..];
      ReplaceApart(rest, c, r, s, n);
      ReplaceLeft(l, c, r, s);
      ReplaceFound(l, s, n, f.value, l[..f.value], rest);
      ReplaceFound(t, s, n, f.value, l[..f.value], rest + [c] + r);
      Regroup(l[..f.value] + n, ReplaceAll(rest, s, n), [c], ReplaceAll(r, s, n));
    } else {
      ReplaceOnRight(l, c, r, s, n);
    }
  }

  lemma ReplaceOnRight(l: string, c: char, r: string, s: string, n: string)
    requires s != "" && c !in s && Find(l, s).None?
    ensures ReplaceAll(l + [c] + r, s, n) == ReplaceAll(l, s, n) + [c] + ReplaceAll(r, s, n)
  {
    NothingFound(l, s, n);
    if Find(r, s).Some? {
      ReplaceRightFound(l, c, r, s, n, Find(r, s).value);
    } else {
      NothingFound(r, s, n);
      NowhereFound(l, c, r, s, n);
    }
  }

  lemma ReplaceRightFound(l: string, c: char, r: string, s: string, n: string, k: nat)
    requires s != "" && c !in s && Find(l, s).None? && Find(r, s) == Some(k)
    ensures ReplaceAll(l + [c] + r, s, n) == l + [c] + ReplaceAll(r, s, n)
  {
    ReplaceRight(l, c, r, s);
    ReplaceBehind(l + [c] + r, |l| + 1 + k, l + [c], r, k, s, n);
  }

  lemma ReplaceBehind(t: string, m: nat, front: string, r: string, k: nat, s: string, n: string)
    requires s != "" && Find(t, s) == Some(m) && Find(r, s) == Some(k)
    requires t[m + |s|..] == r[k + |s|..] && t[..m] == front + r[..k]
    ensures ReplaceAll(t, s, n) == front + ReplaceAll(r, s, n)
  {
    var rest := ReplaceAll(r[k + |s|..], s, n);
    ReplaceFound(t, s, n, m, front + r[..k], r[k + |s|..]);
    ReplaceFound(r, s, n, k, r[..k], r[k + |s|..]);
    Regroup(front, r[..k], n, rest);
    Associate(front, r[..k], n);
  }

  lemma Regroup(a: string, b: string, c: string, d: string)
    ensures a + (b + c + d) == (a + b) + c + d
  {
  }

  lemma NowhereFound(l: string, c: char, r: string, s: string, n: string)
    requires s != "" && c !in s && Find(l, s).None? && Find(r, s).None?
    ensures Count(l + [c] + r, s) == 0 && ReplaceAll(l + [c] + r, s, n) == l + [c] + r
  {
    FindApart(l, c, r, s);
    NothingFound(l + [c] + r, s, n);
  }

  lemma NothingToReplace(s: string, o: string, n: string)
    requires o != ""
    ensures Count(s, o) == 0 ==> ReplaceAll(s, o, n) == s
  {
  }

  lemma ReplaceLeft(l: string, c: char, r: string, s: string)
    requires s != "" && c !in s && Find(l, s).Some?
    ensures var k, t := Find(l, s).value, l + [c] + r;
            Find(t, s) == Some(k) && t[k + |s|..] == l[k + |s|..] + [c] + r && t[..k] == l[..k]
  {
    FindApart(l, c, r, s);
  }

  lemma ReplaceRight(l: string, c: char, r: string, s: string)
    requires s != "" && c !in s && Find(l, s).None? && Find(r, s).Some?
    ensures var k, t := Find(r, s).value, l + [c] + r;
            && Find(t, s) == Some(|l| + 1 + k)
            && t[|l| + 1 + k + |s|..] == r[k + |s|..] && t[..|l| + 1 + k] == l + [c] + r[..k]
  {
    FindApart(l, c, r, s);
  }

  /** An edit whose old text occurs in `here`, as often as the edit allows, and not in `there`. */
  predicate TouchesOnly(a: ToolInterval, sep: char, here: string, there: string) {
    && a.toolName != "write_file" && a.args.oldString.Some? && a.args.newString.Some?
    && var o, n := UnixNewlines(a.args.oldString.value), UnixNewlines(a.args.newString.value);
    && o != "" && sep !in o && o != n
    && Count(there, o) == 0
    && (Count(here, o) == 1 || (Count(here, o) > 1 && a.args.replaceAll))
  }

  function Edited(a: ToolInterval, text: string): string {
    ReplaceAll(text, UnixNewlines(a.args.oldString.GetOr("")), UnixNewlines(a.args.newString.GetOr("")))
  }

  lemma EditSide(a: ToolInterval, sep: char, l: string, r: string)
    ensures TouchesOnly(a, sep, l, r) ==> Apply(Some(l + [sep] + r), a) == Some(Edited(a, l) + [sep] + r)
    ensures TouchesOnly(a, sep, r, l) ==> Apply(Some(l + [sep] + r), a) == Some(l + [sep] + Edited(a, r))
  {
    if TouchesOnly(a, sep, l, r) || TouchesOnly(a, sep, r, l) {
      var o, n := UnixNewlines(a.args.oldString.value), UnixNewlines(a.args.newString.value);
      CountApart(l, sep, r, o);
      ReplaceApart(l, sep, r, o, n);
      NothingToReplace(l, o, n);
      NothingToReplace(r, o, n);
      if Count(l + [sep] + r, o) == 1 { UniqueOccurrenceReplace(l + [sep] + r, o, n); }
    }
  }

  /** Each edit finds its old text on its own side, whether or not the other was made. */
  predicate Undisturbed(a: ToolInterval, b: ToolInterval, sep: char, l: string, r: string) {
    && TouchesOnly(a, sep, l, r) && TouchesOnly(a, sep, l, Edited(b, r))
    && TouchesOnly(b, sep, r, l) && TouchesOnly(b, sep, r, Edited(a, l))
  }

  /** Two edits, one on each side, that leave the other's text alone commute. */
  lemma EditsCommute(a: ToolInterval, b: ToolInterval, sep: char, l: string, r: string)
    requires Undisturbed(a, b, sep, l, r)
    ensures CommuteAt(Some(l + [sep] + r), a, b)
    ensures Run(Some(l + [sep] + r), [a, b]) == Reached(Some(Edited(a, l) + [sep] + Edited(b, r)))
  {
    EditSide(a, sep, l, r);
    EditSide(b, sep, l, r);
    EditSide(b, sep, Edited(a, l), r);
    EditSide(a, sep, l, Edited(b, r));
    RunTwo(Some(l + [sep] + r), a, b);
    RunTwo(Some(l + [sep] + r), b, a);
  }

  /** A write and then two overlapping edits, made on different sides of a line break, say:
      whatever the order of the edits, the trace ends in the one text that has both. */
  lemma OverlappingEdits(w: ToolInterval, a: ToolInterval, b: ToolInterval, sep: char, l: string, r: string)
    requires w.toolName == "write_file" && w.args.content == Some(l + [sep] + r)
    requires MustPrecede(w, a) && MustPrecede(w, b) && Concurrent(a, b) && WellTimed({w, a, b})
    requires Undisturbed(a, b, sep, l, r)
    ensures OverlapsCommute({w, a, b}, None)
    ensures Outcomes({w, a, b}, None) == {Edited(a, l) + [sep] + Edited(b, r)}
  {
    var ops := {w, a, b};
    EditSide(a, sep, l, r);
    EditSide(b, sep, l, r);
    CannotBoth(a, sep, l, r);
    EditsCommute(a, b, sep, l, r);
    forall p, x, y | Meet(p, x, y, ops, None) ensures CommuteAt(Run(None, p).file, x, y) {
      OnlyAfterWrite(p, x, y, w, a, b);
    }
    ThreeInOrder(w, a, b);
    WriteFirst(w, [a, b]);
    ConfluentOutcome([w] + [a, b], ops, None);
  }

  lemma WriteFirst(w: ToolInterval, rest: seq<ToolInterval>)
    requires w.toolName == "write_file" && w.args.content.Some?
    ensures Run(None, [w] + rest) == Run(w.args.content, rest)
  {
    ConsRun(None, w, rest);
  }

  lemma CannotBoth(a: ToolInterval, sep: char, l: string, r: string)
    ensures !(TouchesOnly(a, sep, l, r) && TouchesOnly(a, sep, r, l))
  {
  }

  lemma ThreeInOrder(w: ToolInterval, a: ToolInterval, b: ToolInterval)
    requires MustPrecede(w, a) && MustPrecede(w, b) && Concurrent(a, b) && a != b && WellTimed({w, a, b})
    ensures Linearization([w] + [a, b], {w, a, b})
  {
    assert [w] + [a, b] == [w, a, b];
    assert a.start <= a.end && b.start <= b.end && w.start <= w.end;
  }

  /** The edits can meet on the empty file, where neither is valid, or after the write. */
  lemma OnlyAfterWrite(p: seq<ToolInterval>, x: ToolInterval, y: ToolInterval,
                       w: ToolInterval, a: ToolInterval, b: ToolInterval)
    requires MustPrecede(w, a) && MustPrecede(w, b) && w.toolName == "write_file" && w.args.content.Some?
    requires a.toolName != "write_file" && b.toolName != "write_file"
    requires Meet(p, x, y, {w, a, b}, None) && CommuteAt(w.args.content, a, b)
    ensures CommuteAt(Run(None, p).file, x, y)
  {
    assert x == w || x == a || x == b;
    assert {x, y} == {a, b};
    if p == [] {
      ConsRun(None, a, [b]);
      ConsRun(None, b, [a]);
      assert [a] + [b] == [a, b] && [b] + [a] == [b, a];
    } else {
      AfterWrite(p, w, a, b);
    }
  }

  lemma AfterWrite(p: seq<ToolInterval>, w: ToolInterval, a: ToolInterval, b: ToolInterval)
    requires MustPrecede(w, a) && MustPrecede(w, b) && w.toolName == "write_file" && w.args.content.Some?
    requires p in ValidPrefixes({w, a, b}, None) && p != [] && a !in p && b !in p
    ensures Run(None, p) == Reached(w.args.content)
  {
    var ops := {w, a, b};
    ValidPrefixesMeaning(p, ops, None);
    forall i | 0 <= i < |p| ensures p[i] == w { assert p[i] in ops && p[i] in p; }
    assert |p| <= 1;
    assert p == [w];
  }
}
