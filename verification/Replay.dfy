/** Replaying writes and edits along a linearization, and what all linearizations of a
    set of operations can end in. */
module Replay {
  import opened Wrappers
  import opened Text
  import opened Intervals

  /** A file's content; None before the first write. */
  type File = Option<string>

  /** Line endings as the edit tool sees them: "\r\n" first, then "\r". */
  function UnixNewlines(s: string): string {
    ReplaceAll(ReplaceAll(s, "\r\n", "\n"), "\r", "\n")
  }

  /** The content after one call; None when the call cannot have happened on `file`. */
  function Apply(file: File, op: ToolInterval): Option<string> {
    if op.toolName == "write_file" then op.args.content
    else if file.None? || op.args.oldString.None? || op.args.newString.None? then None
    else
      var old_, new_ := UnixNewlines(op.args.oldString.value), UnixNewlines(op.args.newString.value);
      if old_ == new_ then file
      else
        var occurrences := Count(file.value, old_);
        if occurrences == 0 || (occurrences > 1 && !op.args.replaceAll) then None
        else if op.args.replaceAll then Some(ReplaceAll(file.value, old_, new_))
        else Some(ReplaceFirst(file.value, old_, new_))
  }

  datatype Outcome = Broken | Reached(file: File)

  /** Applying the operations of `order` one after the other. */
  function Run(file: File, order: seq<ToolInterval>): Outcome
    decreases |order|
  {
    if order == [] then Reached(file)
    else
      var next := Apply(file, order[0]);
      if next.None? then Broken else Run(next, order[1..])
  }

  lemma {:induction false} RunConcat(file: File, s: seq<ToolInterval>, t: seq<ToolInterval>)
    ensures Run(file, s + t) == if Run(file, s).Broken? then Broken else Run(Run(file, s).file, t)
    decreases |s|
  {
    if s == [] {
      assert s + t == t;
    } else {
      assert (s + t)[0] == s[0] && (s + t)[1..] == s[1..] + t;
      if Apply(file, s[0]).Some? { RunConcat(Apply(file, s[0]), s[1..], t); }
    }
  }

  /** `order` is a linearization of `ops` along which every step is valid, ending in `text`. */
  ghost predicate Completes(order: seq<ToolInterval>, ops: set<ToolInterval>, file: File, text: string) {
    Linearization(order, ops) && Run(file, order) == Reached(Some(text))
  }

  // ---------------------------------------------------------------- the search tree

  /** A partial linearization: every element comes after all that must precede it, and
      every step is valid. */
  ghost predicate IsValidPrefix(p: seq<ToolInterval>, ops: set<ToolInterval>, file: File) {
    && Distinct(p)
    && (forall i :: 0 <= i < |p| ==> p[i] in ops)
    && (forall i, b :: 0 <= i < |p| && b in ops && MustPrecede(b, p[i]) ==> b in p[..i])
    && Run(file, p).Reached?
  }

  /** All of them, as a finite set. */
  ghost function ValidPrefixes(ops: set<ToolInterval>, file: File): set<seq<ToolInterval>>
    decreases ops
  {
    {[]} + set a, p | a in ops && Ready(a, ops) && Apply(file, a).Some?
                      && p in ValidPrefixes(ops - {a}, Apply(file, a)) :: [a] + p
  }

  lemma ValidPrefixesCons(a: ToolInterval, p: seq<ToolInterval>, ops: set<ToolInterval>, file: File)
    ensures [a] + p in ValidPrefixes(ops, file)
       <==> Ready(a, ops) && Apply(file, a).Some? && p in ValidPrefixes(ops - {a}, Apply(file, a))
  {
    var q := [a] + p;
    assert q[0] == a && q[1..] == p;
    if q in ValidPrefixes(ops, file) {
      var a', p' :| a' in ops && Ready(a', ops) && Apply(file, a').Some?
                    && p' in ValidPrefixes(ops - {a'}, Apply(file, a')) && [a'] + p' == q;
      assert a' == q[0] && p' == q[1..];
    }
  }

  lemma {:induction false} ValidPrefixesMeaning(p: seq<ToolInterval>, ops: set<ToolInterval>, file: File)
    ensures p in ValidPrefixes(ops, file) <==> IsValidPrefix(p, ops, file)
    decreases |p|
  {
    if p != [] {
      var a, t := p[0], p[1..];
      assert p == [a] + t;
      ValidPrefixesCons(a, t, ops, file);
      if Apply(file, a).Some? {
        ValidPrefixesMeaning(t, ops - {a}, Apply(file, a));
        if IsValidPrefix(p, ops, file) { ValidPrefixTail(p, ops, file); }
        if Ready(a, ops) && IsValidPrefix(t, ops - {a}, Apply(file, a)) { ValidPrefixWhole(p, ops, file); }
      }
    }
  }

  lemma ValidPrefixTail(p: seq<ToolInterval>, ops: set<ToolInterval>, file: File)
    requires p != [] && IsValidPrefix(p, ops, file)
    ensures Ready(p[0], ops) && Apply(file, p[0]).Some?
    ensures IsValidPrefix(p[1..], ops - {p[0]}, Apply(file, p[0]))
  {
    var a, t := p[0], p[1..];
    forall b | b in ops ensures !MustPrecede(b, a) {
      assert b !in p[..0];
    }
    forall i, b | 0 <= i < |t| && b in ops - {a} && MustPrecede(b, t[i]) ensures b in t[..i] {
      assert t[i] == p[i + 1];
      assert b in p[..i + 1];
      assert p[..i + 1] == [a] + t[..i];
    }
    forall i | 0 <= i < |t| ensures t[i] in ops - {a} {
      assert t[i] == p[i + 1] && p[0] != p[i + 1];
    }
  }

  lemma ValidPrefixWhole(p: seq<ToolInterval>, ops: set<ToolInterval>, file: File)
    requires p != [] && Ready(p[0], ops) && Apply(file, p[0]).Some?
    requires IsValidPrefix(p[1..], ops - {p[0]}, Apply(file, p[0]))
    ensures IsValidPrefix(p, ops, file)
  {
    var a, t := p[0], p[1..];
    forall i | 0 <= i < |p| ensures p[i] in ops {
      if i > 0 { assert p[i] == t[i - 1]; }
    }
    forall i, j | 0 <= i < j < |p| ensures p[i] != p[j] {
      assert p[j] == t[j - 1];
      if i > 0 { assert p[i] == t[i - 1]; }
    }
    forall i, b | 0 <= i < |p| && b in ops && MustPrecede(b, p[i]) ensures b in p[..i] {
      if i > 0 {
        assert p[i] == t[i - 1];
        assert p[..i] == [a] + t[..i - 1];
        if b != a { assert b in ops - {a} && b in t[..i - 1]; }
      }
    }
  }

  /** The prefixes that list every operation are the linearizations with valid steps. */
  lemma {:induction false} FullPrefix(p: seq<ToolInterval>, ops: set<ToolInterval>, file: File)
    ensures p in ValidPrefixes(ops, file) && |p| == |ops| <==> Linearization(p, ops) && Run(file, p).Reached?
    decreases |p|
  {
    if Linearization(p, ops) { LinearizationLength(p, ops); }
    if p == [] {
      if ops == {} { assert Linearization(p, ops); }
    } else {
      var a, t := p[0], p[1..];
      assert p == [a] + t;
      ValidPrefixesCons(a, t, ops, file);
      LinearizationCons(a, t, ops);
      if Ready(a, ops) && Apply(file, a).Some? { FullPrefix(t, ops - {a}, Apply(file, a)); }
    }
  }

  // ---------------------------------------------------------------- outcomes

  ghost function FinalText(file: File, order: seq<ToolInterval>): string {
    match Run(file, order)
    case Reached(Some(text)) => text
    case _ => ""
  }

  /** Every content that some valid linearization ends in. */
  ghost function Outcomes(ops: set<ToolInterval>, file: File): set<string> {
    set p | p in ValidPrefixes(ops, file) && |p| == |ops| && Run(file, p).Reached? && Run(file, p).file.Some?
      :: FinalText(file, p)
  }

  /** Soundness and completeness of `Outcomes` against the definition of a linearization. */
  lemma OutcomesMeaning(text: string, ops: set<ToolInterval>, file: File)
    ensures text in Outcomes(ops, file) <==> exists order :: Completes(order, ops, file, text)
  {
    if text in Outcomes(ops, file) {
      var p :| p in ValidPrefixes(ops, file) && |p| == |ops| && Run(file, p).Reached? && Run(file, p).file.Some?
               && FinalText(file, p) == text;
      FullPrefix(p, ops, file);
      assert Completes(p, ops, file, text);
    }
    if order :| Completes(order, ops, file, text) {
      FullPrefix(order, ops, file);
      assert FinalText(file, order) == text;
    }
  }

  /** One step of the search: the outcomes are those reached through a ready operation. */
  lemma OutcomesStep(text: string, ops: set<ToolInterval>, file: File)
    ensures text in Outcomes(ops, file) <==>
            if ops == {} then file == Some(text)
            else exists a :: Ready(a, ops) && text in OutcomesVia(a, ops, file)
  {
    OutcomesMeaning(text, ops, file);
    if ops == {} {
      assert Linearization([], ops);
      if order :| Completes(order, ops, file, text) { LinearizationLength(order, ops); }
      if file == Some(text) { assert Completes([], ops, file, text); }
    } else {
      if order :| Completes(order, ops, file, text) {
        LinearizationLength(order, ops);
        CompletesCons(order, ops, file, text);
        OutcomesMeaning(text, ops - {order[0]}, Apply(file, order[0]));
      }
      if a :| Ready(a, ops) && text in OutcomesVia(a, ops, file) {
        OutcomesMeaning(text, ops - {a}, Apply(file, a));
        var tail :| Completes(tail, ops - {a}, Apply(file, a), text);
        CompletesCons([a] + tail, ops, file, text);
      }
    }
  }

  ghost function OutcomesVia(a: ToolInterval, ops: set<ToolInterval>, file: File): set<string> {
    if Apply(file, a).None? then {} else Outcomes(ops - {a}, Apply(file, a))
  }

  lemma CompletesCons(order: seq<ToolInterval>, ops: set<ToolInterval>, file: File, text: string)
    requires order != []
    ensures Completes(order, ops, file, text) <==>
            && Ready(order[0], ops) && Apply(file, order[0]).Some?
            && Completes(order[1..], ops - {order[0]}, Apply(file, order[0]), text)
  {
    assert order == [order[0]] + order[1..];
    LinearizationCons(order[0], order[1..], ops);
  }

  // ---------------------------------------------------------------- witnesses

  /** The linearization that the search meets first among those ending in `text`: the
      least one when its operations are compared by the sort key, position by position. */
  ghost predicate IsWitness(order: seq<ToolInterval>, ops: set<ToolInterval>, file: File, text: string) {
    && Completes(order, ops, file, text)
    && forall other :: Completes(other, ops, file, text) ==> LexLe(order, other)
  }

  lemma WitnessUnique(s: seq<ToolInterval>, t: seq<ToolInterval>, ops: set<ToolInterval>, file: File, text: string)
    requires IsWitness(s, ops, file, text) && IsWitness(t, ops, file, text)
    ensures s == t
  {
    LinearizationLength(s, ops);
    LinearizationLength(t, ops);
    LexLeAntisymmetric(s, t);
  }

  /** A witness through the least operation that reaches `text` is a witness for the whole. */
  lemma WitnessStep(a: ToolInterval, tail: seq<ToolInterval>, ops: set<ToolInterval>, file: File, text: string)
    requires UniqueIds(ops) && Ready(a, ops) && Apply(file, a).Some?
    requires IsWitness(tail, ops - {a}, Apply(file, a), text)
    requires forall b :: Ready(b, ops) && KeyLess(b, a) ==> text !in OutcomesVia(b, ops, file)
    ensures IsWitness([a] + tail, ops, file, text)
  {
    var order := [a] + tail;
    assert order[0] == a && order[1..] == tail;
    CompletesCons(order, ops, file, text);
    forall other | Completes(other, ops, file, text) ensures LexLe(order, other) {
      LinearizationLength(other, ops);
      LinearizationLength(order, ops);
      CompletesCons(other, ops, file, text);
      var b := other[0];
      OutcomesMeaning(text, ops - {b}, Apply(file, b));
      KeyLessTotal(a, b);
      assert b.eventId == a.eventId ==> a == b;
    }
  }

  /** Every outcome has its witness. */
  lemma {:induction false} WitnessExists(ops: set<ToolInterval>, file: File, text: string) returns (w: seq<ToolInterval>)
    requires UniqueIds(ops) && text in Outcomes(ops, file)
    ensures IsWitness(w, ops, file, text)
    decreases ops
  {
    OutcomesStep(text, ops, file);
    if ops == {} {
      w := [];
      assert Completes([], {}, file, text);
    } else {
      var a := LeastFirst(ops, file, text);
      var tail := WitnessExists(ops - {a}, Apply(file, a), text);
      WitnessStep(a, tail, ops, file, text);
      w := [a] + tail;
    }
  }

  lemma LeastFirst(ops: set<ToolInterval>, file: File, text: string) returns (a: ToolInterval)
    requires UniqueIds(ops) && exists b :: Ready(b, ops) && text in OutcomesVia(b, ops, file)
    ensures Ready(a, ops) && text in OutcomesVia(a, ops, file)
    ensures forall b :: Ready(b, ops) && KeyLess(b, a) ==> text !in OutcomesVia(b, ops, file)
  {
    var firsts := set b | b in ops && Ready(b, ops) && text in OutcomesVia(b, ops, file);
    var some :| Ready(some, ops) && text in OutcomesVia(some, ops, file);
    assert some in firsts;
    a := KeyMin(firsts);
    forall b | Ready(b, ops) && KeyLess(b, a) ensures text !in OutcomesVia(b, ops, file) {
      KeyLessTotal(a, b);
      assert b !in firsts;
    }
  }
}
