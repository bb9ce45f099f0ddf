/** The calls for each family: intervals that leave a read open stay the same whatever the
    calls contain, so some calls lose an explained content on them. */
module FilterDressed {
  import opened Wrappers
  import opened Intervals
  import opened Replay
  import opened Observations
  import opened Recovery
  import opened Confluence
  import opened FilterShape
  import opened FilterTools
  import opened FilterOverwritten
  import opened FilterForks
  import opened FilterErased
  import opened FilterEdits
  import opened FilterRaces
  import opened FilterFlaws

  // ---------------------------------------------------------------- calls by event id

  function WriteCall(text: string): Call {
    Call("write_file", Args(Some(text), None, None, false))
  }

  function EditCall(from: string, to: string, all: bool): Call {
    Call("edit_file", Args(None, Some(from), Some(to), all))
  }

  /** The calls of `table`; all others change nothing. */
  function Given(table: map<string, Call>): string -> Call {
    (id: string) => if id in table then table[id] else EditCall("~", "~", false)
  }

  /** A call keeps its place among the others whatever it contains. */
  lemma DressedPlace(ops: set<ToolInterval>, a: ToolInterval, calls: string -> Call)
    requires a in ops
    ensures Dress(a, calls) in Dressed(ops, calls)
  {
  }

  lemma DressedReady(ops: set<ToolInterval>, a: ToolInterval, calls: string -> Call)
    requires Ready(a, ops)
    ensures Ready(Dress(a, calls), Dressed(ops, calls))
  {
  }

  lemma DressedAll(ops: set<ToolInterval>, calls: string -> Call, b: ToolInterval) returns (a: ToolInterval)
    requires b in Dressed(ops, calls)
    ensures a in ops && b == Dress(a, calls)
  {
    a :| a in ops && b == Dress(a, calls);
  }

  /** Calls outside the table keep the file. */
  lemma OtherKeeps(ops: set<ToolInterval>, table: map<string, Call>, b: ToolInterval)
    requires b in Dressed(ops, Given(table)) && b.eventId !in table
    ensures IsKeep(b)
  {
    var a := DressedAll(ops, Given(table), b);
  }

  lemma OtherId(ops: set<ToolInterval>, calls: string -> Call, a: ToolInterval, b: ToolInterval)
    requires UniqueIds(ops) && a in ops && b in Dressed(ops, calls) && b != Dress(a, calls)
    ensures b.eventId != a.eventId
  {
    var c := DressedAll(ops, calls, b);
  }

  // ---------------------------------------------------------------- an inversion

  lemma DressedInversion(ops: set<ToolInterval>, o: ReadObservation, m: ToolInterval, s: ToolInterval,
                         t: ToolInterval, calls: string -> Call)
    requires UniqueIds(ops) && Inversion(ops, o, m, s, t)
    ensures Inversion(Dressed(ops, calls), o, Dress(m, calls), Dress(s, calls), Dress(t, calls))
  {
    DressedReady(ops, m, calls);
    DressedPlace(ops, s, calls);
    DressedPlace(ops, t, calls);
  }

  function DressRoles(r: Roles, calls: string -> Call): Roles {
    Roles(Dress(r.m, calls), Dress(r.s, calls), Dress(r.t, calls), Dress(r.x, calls), Dress(r.y, calls))
  }

  lemma DressedUpTo(ops: set<ToolInterval>, o: ReadObservation, m: ToolInterval, t: ToolInterval, a: ToolInterval,
                    calls: string -> Call)
    requires UniqueIds(ops) && m in ops && t in ops && a in ops
    ensures Dress(a, calls) in UpTo(Dressed(ops, calls), o, Dress(m, calls), Dress(t, calls)) <==> a in UpTo(ops, o, m, t)
  {
    DressedPlace(ops, a, calls);
    DressedPlace(ops, m, calls);
    DressedPlace(ops, t, calls);
  }

  lemma DressedRoles(ops: set<ToolInterval>, o: ReadObservation, r: Roles, c: ToolInterval, d: ToolInterval,
                     calls: string -> Call)
    requires UniqueIds(ops) && Detected(ops, o, r, c, d)
    ensures Different(DressRoles(r, calls)) && (r.x == r.s <==> Dress(r.x, calls) == Dress(r.s, calls))
    ensures r.x == r.t <==> Dress(r.x, calls) == Dress(r.t, calls)
  {
    DressedPlace(ops, r.m, calls);
    DressedPlace(ops, r.x, calls);
    DressedPlace(ops, r.y, calls);
    DressedPlace(ops, r.s, calls);
    KeyLessTotal(r.s, r.t);
  }

  lemma DressedDetected(ops: set<ToolInterval>, o: ReadObservation, r: Roles, c: ToolInterval, d: ToolInterval,
                        calls: string -> Call)
    requires UniqueIds(ops) && Detected(ops, o, r, c, d)
    ensures Detected(Dressed(ops, calls), o, DressRoles(r, calls), Dress(c, calls), Dress(d, calls))
  {
    DressedInversion(ops, o, r.m, r.s, r.t, calls);
    DressedRoles(ops, o, r, c, d, calls);
    DressedUpTo(ops, o, r.m, r.t, c, calls);
    DressedUpTo(ops, o, r.m, r.t, d, calls);
    DressedPlace(ops, r.x, calls);
    DressedPlace(ops, r.y, calls);
  }

  function PairTable(r: Roles): map<string, Call> {
    map[r.x.eventId := EditCall("p", "Y", false), r.m.eventId := WriteCall("abpY"),
        r.s.eventId := EditCall("a", if r.s == r.x then "Y" else "A", false),
        r.t.eventId := EditCall("b", if r.t == r.x then "Y" else "B", false), r.y.eventId := EditCall("Y", "C", true)]
  }

  lemma PairOthers(ops: set<ToolInterval>, r: Roles, b: ToolInterval, calls: string -> Call)
    requires UniqueIds(ops) && r.m in ops && r.s in ops && r.t in ops && r.x in ops && r.y in ops
    requires calls == Given(PairTable(r)) && b in Dressed(ops, calls)
    requires b != Dress(r.m, calls) && b != Dress(r.s, calls) && b != Dress(r.t, calls)
    requires b != Dress(r.x, calls) && b != Dress(r.y, calls)
    ensures IsKeep(b)
  {
    OtherId(ops, calls, r.m, b);
    OtherId(ops, calls, r.s, b);
    OtherId(ops, calls, r.t, b);
    OtherId(ops, calls, r.x, b);
    OtherId(ops, calls, r.y, b);
    OtherKeeps(ops, PairTable(r), b);
  }

  lemma OpposedCalls(ops: set<ToolInterval>, o: ReadObservation, r: Roles, c: ToolInterval, d: ToolInterval)
    requires UniqueIds(ops) && Detected(ops, o, r, c, d)
    ensures PairCalls(Dressed(ops, Given(PairTable(r))), DressRoles(r, Given(PairTable(r))))
  {
    var calls := Given(PairTable(r));
    DressedRoles(ops, o, r, c, d, calls);
    DressedPlace(ops, r.m, calls);
    DressedPlace(ops, r.s, calls);
    DressedPlace(ops, r.t, calls);
    DressedPlace(ops, r.x, calls);
    DressedPlace(ops, r.y, calls);
    forall b | b in Dressed(ops, calls) && b != Dress(r.m, calls) && b != Dress(r.s, calls) && b != Dress(r.t, calls)
               && b != Dress(r.x, calls) && b != Dress(r.y, calls)
      ensures IsKeep(b)
    {
      PairOthers(ops, r, b, calls);
    }
  }

  lemma OpposedFails(ops: set<ToolInterval>, o: ReadObservation, r: Roles, c: ToolInterval, d: ToolInterval)
    returns (calls: string -> Call)
    requires Timed(ops, o) && Detected(ops, o, r, c, d)
    ensures Loses(Dressed(ops, calls), o)
  {
    calls := Given(PairTable(r));
    DressedTimed(ops, calls);
    OpposedCalls(ops, o, r, c, d);
    DressedDetected(ops, o, r, c, d, calls);
    DetectedLost(Dressed(ops, calls), o, DressRoles(r, calls), Dress(c, calls), Dress(d, calls));
  }

  lemma StartedFails(ops: set<ToolInterval>, o: ReadObservation, m: ToolInterval, d: ToolInterval, s: ToolInterval,
                     t: ToolInterval)
    returns (calls: string -> Call)
    requires Timed(ops, o) && TwoStarts(ops, o, m, d, s, t)
    ensures Loses(Dressed(ops, calls), o)
  {
    calls := StartedCalls(ops, o, m, d, s, t);
    DressedTimed(ops, calls);
    DressedInversion(ops, o, m, s, t, calls);
    DressedReady(ops, d, calls);
    TwoStartsLost(Dressed(ops, calls), o, Dress(m, calls), Dress(d, calls), Dress(s, calls), Dress(t, calls));
  }

  function StartTable(m: ToolInterval, d: ToolInterval, s: ToolInterval, t: ToolInterval): map<string, Call> {
    map[m.eventId := WriteCall("abm"), d.eventId := WriteCall("abd"),
        s.eventId := EditCall("a", "A", false), t.eventId := EditCall("b", "B", false)]
  }

  lemma StartOthers(ops: set<ToolInterval>, m: ToolInterval, d: ToolInterval, s: ToolInterval, t: ToolInterval,
                    b: ToolInterval, calls: string -> Call)
    requires UniqueIds(ops) && m in ops && d in ops && s in ops && t in ops
    requires calls == Given(StartTable(m, d, s, t)) && b in Dressed(ops, calls)
    requires b != Dress(m, calls) && b != Dress(d, calls) && b != Dress(s, calls)
    requires b != Dress(t, calls)
    ensures IsKeep(b)
  {
    OtherId(ops, calls, m, b);
    OtherId(ops, calls, d, b);
    OtherId(ops, calls, s, b);
    OtherId(ops, calls, t, b);
    OtherKeeps(ops, StartTable(m, d, s, t), b);
  }

  lemma StartedCalls(ops: set<ToolInterval>, o: ReadObservation, m: ToolInterval, d: ToolInterval, s: ToolInterval,
                     t: ToolInterval)
    returns (calls: string -> Call)
    requires Timed(ops, o) && TwoStarts(ops, o, m, d, s, t)
    ensures StartCalls(Dressed(ops, calls), Dress(m, calls), Dress(d, calls), Dress(s, calls), Dress(t, calls))
  {
    calls := Given(StartTable(m, d, s, t));
    KeyLessTotal(s, t);
    DressedPlace(ops, m, calls);
    DressedPlace(ops, d, calls);
    DressedPlace(ops, s, calls);
    DressedPlace(ops, t, calls);
    forall b | b in Dressed(ops, calls) && b != Dress(m, calls) && b != Dress(d, calls) && b != Dress(s, calls)
               && b != Dress(t, calls)
      ensures IsKeep(b)
    {
      StartOthers(ops, m, d, s, t, b, calls);
    }
  }

  // ---------------------------------------------------------------- two calls that can be first

  lemma HurriedFails(ops: set<ToolInterval>, o: ReadObservation, m: ToolInterval, s: ToolInterval, t: ToolInterval)
    returns (calls: string -> Call)
    requires Timed(ops, o) && Early(ops, o, m, s, t)
    ensures Loses(Dressed(ops, calls), o)
  {
    var table := map[m.eventId := WriteCall("M."), t.eventId := WriteCall("#.")];
    calls := Given(table);
    DressedTimed(ops, calls);
    DressedPlace(ops, m, calls);
    DressedPlace(ops, s, calls);
    DressedPlace(ops, t, calls);
    forall b | b in Dressed(ops, calls) && b != Dress(m, calls) && b != Dress(t, calls)
      ensures IsKeep(b)
    {
      OtherId(ops, calls, m, b);
      OtherId(ops, calls, t, b);
      OtherKeeps(ops, table, b);
    }
    EarlyLost(Dressed(ops, calls), o, Dress(m, calls), Dress(s, calls), Dress(t, calls));
  }

  lemma DressedNoneOver(ops: set<ToolInterval>, o: ReadObservation, calls: string -> Call)
    requires FilterRaces.NoneOver(ops, o)
    ensures FilterRaces.NoneOver(Dressed(ops, calls), o)
  {
  }

  lemma RacedFails(ops: set<ToolInterval>, o: ReadObservation, p: ToolInterval, q: ToolInterval, a: ToolInterval)
    returns (calls: string -> Call)
    requires Timed(ops, o) && Race(ops, o, p, q, a)
    ensures Loses(Dressed(ops, calls), o)
  {
    var table := map[p.eventId := WriteCall("P"), q.eventId := WriteCall("QP"), a.eventId := EditCall("P", "QP", false)];
    calls := Given(table);
    KeyLessTotal(p, q);
    DressedTimed(ops, calls);
    DressedNoneOver(ops, o, calls);
    DressedPlace(ops, p, calls);
    DressedPlace(ops, q, calls);
    DressedPlace(ops, a, calls);
    forall b | b in Dressed(ops, calls) && b != Dress(p, calls) && b != Dress(q, calls) && b != Dress(a, calls)
      ensures IsKeep(b)
    {
      OtherId(ops, calls, p, b);
      OtherId(ops, calls, q, b);
      OtherId(ops, calls, a, b);
      OtherKeeps(ops, table, b);
    }
    RaceLost(Dressed(ops, calls), o, Dress(p, calls), Dress(q, calls), Dress(a, calls));
  }

  // ---------------------------------------------------------------- the families with a last write

  lemma DressedFirstOver(ops: set<ToolInterval>, o: ReadObservation, f: ToolInterval, calls: string -> Call)
    requires FirstOver(ops, o, f)
    ensures FirstOver(Dressed(ops, calls), o, Dress(f, calls))
  {
  }

  lemma DressedLastOver(ops: set<ToolInterval>, o: ReadObservation, f: ToolInterval, calls: string -> Call)
    requires LastOver(ops, o, f)
    ensures LastOver(Dressed(ops, calls), o, Dress(f, calls))
  {
  }

  lemma DressedGreatestOver(ops: set<ToolInterval>, o: ReadObservation, f: ToolInterval, calls: string -> Call)
    requires GreatestOver(ops, o, f)
    ensures GreatestOver(Dressed(ops, calls), o, Dress(f, calls))
  {
  }

  lemma DressedNeedsOver(ops: set<ToolInterval>, o: ReadObservation, f: ToolInterval, calls: string -> Call)
    requires NeedsOver(ops, o, f)
    ensures NeedsOver(Dressed(ops, calls), o, Dress(f, calls))
  {
  }

  lemma DressedAllLater(ops: set<ToolInterval>, o: ReadObservation, f: ToolInterval, calls: string -> Call)
    requires AllLater(ops, o, f)
    ensures AllLater(Dressed(ops, calls), o, Dress(f, calls))
  {
  }

  lemma DressedKeyFirst(ops: set<ToolInterval>, e: ToolInterval, calls: string -> Call)
    requires KeyFirst(ops, e)
    ensures KeyFirst(Dressed(ops, calls), Dress(e, calls))
  {
  }

  lemma DressedTail(ops: set<ToolInterval>, o: ReadObservation, f: ToolInterval, u: ToolInterval, v: ToolInterval,
                    e: ToolInterval,
                    g: ToolInterval, h: ToolInterval, w: ToolInterval, calls: string -> Call)
    requires Tail(ops, o, f, u, v, e, g, h, w)
    requires Dress(f, calls) != Dress(v, calls) && (f != u ==> Dress(f, calls) != Dress(u, calls))
    requires e != g ==> Dress(e, calls) != Dress(u, calls) && Dress(e, calls) != Dress(v, calls)
    requires Dress(e, calls) != Dress(f, calls)
    requires Dress(w, calls) != Dress(g, calls)
    ensures Tail(Dressed(ops, calls), o, Dress(f, calls), Dress(u, calls), Dress(v, calls), Dress(e, calls),
                 Dress(g, calls), Dress(h, calls), Dress(w, calls))
  {
    if f == u {
      DressedReady(ops, v, calls);
    } else {
      DressedFirstOver(ops, o, f, calls);
    }
    if e != g { DressedGreatestOver(ops, o, e, calls); }
    DressedReady(ops, f, calls);
    DressedPlace(ops, f, calls);
    DressedPlace(ops, u, calls);
    DressedPlace(ops, v, calls);
    DressedPlace(ops, e, calls);
    DressedPlace(ops, g, calls);
    DressedPlace(ops, h, calls);
  }

  lemma TailDressDiffer(ops: set<ToolInterval>, f: ToolInterval, u: ToolInterval, v: ToolInterval, e: ToolInterval,
                        g: ToolInterval, w: ToolInterval, calls: string -> Call)
    requires UniqueIds(ops) && f in ops && u in ops && v in ops && e in ops && g in ops && w in ops
    ensures f != v ==> Dress(f, calls) != Dress(v, calls)
    ensures f != u ==> Dress(f, calls) != Dress(u, calls)
    ensures e != u ==> Dress(e, calls) != Dress(u, calls)
    ensures e != v ==> Dress(e, calls) != Dress(v, calls)
    ensures e != f ==> Dress(e, calls) != Dress(f, calls)
    ensures w != g ==> Dress(w, calls) != Dress(g, calls)
  {
  }

  function TailTable(f: ToolInterval, u: ToolInterval, v: ToolInterval, e: ToolInterval,
                     g: ToolInterval, h: ToolInterval): map<string, Call>
  {
    map[f.eventId := WriteCall("F."), u.eventId := WriteCall("U."), v.eventId := WriteCall("V."),
        e.eventId := EditCall(".", "+", false), h.eventId := WriteCall("H."), g.eventId := WriteCall("#.")]
  }

  lemma TailDiffer(ops: set<ToolInterval>, o: ReadObservation, f: ToolInterval, u: ToolInterval, v: ToolInterval, e: ToolInterval,
                   g: ToolInterval, h: ToolInterval, w: ToolInterval)
    requires Timed(ops, o) && Tail(ops, o, f, u, v, e, g, h, w)
    ensures u != v && f != v && f != g && u != g && v != g && e != u && e != v && e != f && h != u && h != v && h != f
    ensures e == h ==> e == g
  {
    KeyLessTotal(u, v);
  }

  lemma TailLookup(ops: set<ToolInterval>, f: ToolInterval, u: ToolInterval, v: ToolInterval, e: ToolInterval,
                   g: ToolInterval, h: ToolInterval)
    requires UniqueIds(ops) && f in ops && u in ops && v in ops && e in ops && g in ops && h in ops
    requires u != v && f != v && f != g && u != g && v != g && e != u && e != v && e != f && h != u && h != v && h != f
    requires e == h ==> e == g
    ensures var calls := Given(TailTable(f, u, v, e, g, h));
            && calls(u.eventId) == WriteCall("U.") && calls(v.eventId) == WriteCall("V.") && calls(g.eventId) == WriteCall("#.")
            && (f != u ==> calls(f.eventId) == WriteCall("F.")) && (e != g ==> calls(e.eventId) == EditCall(".", "+", false))
            && (h != g ==> calls(h.eventId) == WriteCall("H."))
  {
  }

  lemma TailedCalls(ops: set<ToolInterval>, f: ToolInterval, u: ToolInterval, v: ToolInterval, e: ToolInterval,
                    g: ToolInterval, h: ToolInterval) returns (calls: string -> Call)
    requires UniqueIds(ops) && f in ops && u in ops && v in ops && e in ops && g in ops && h in ops
    requires u != v && f != v && f != g && u != g && v != g && e != u && e != v && e != f && h != u && h != v && h != f
    requires e == h ==> e == g
    ensures TailCalls(Dressed(ops, calls), Dress(f, calls), Dress(u, calls), Dress(v, calls), Dress(e, calls),
                      Dress(g, calls), Dress(h, calls))
  {
    calls := Given(TailTable(f, u, v, e, g, h));
    TailLookup(ops, f, u, v, e, g, h);
    forall b | b in Dressed(ops, calls) && b != Dress(f, calls) && b != Dress(u, calls) && b != Dress(v, calls)
               && b != Dress(e, calls) && b != Dress(g, calls) && b != Dress(h, calls)
      ensures IsKeep(b)
    {
      TailOthers(ops, f, u, v, e, g, h, b, calls);
    }
    DressedPlace(ops, f, calls);
    DressedPlace(ops, u, calls);
    DressedPlace(ops, v, calls);
    DressedPlace(ops, e, calls);
    DressedPlace(ops, g, calls);
    DressedPlace(ops, h, calls);
  }

  lemma TailOthers(ops: set<ToolInterval>, f: ToolInterval, u: ToolInterval, v: ToolInterval, e: ToolInterval,
                   g: ToolInterval, h: ToolInterval, b: ToolInterval, calls: string -> Call)
    requires UniqueIds(ops) && f in ops && u in ops && v in ops && e in ops && g in ops && h in ops
    requires calls == Given(TailTable(f, u, v, e, g, h)) && b in Dressed(ops, calls)
    requires b != Dress(f, calls) && b != Dress(u, calls) && b != Dress(v, calls)
    requires b != Dress(e, calls) && b != Dress(g, calls) && b != Dress(h, calls)
    ensures IsKeep(b)
  {
    OtherId(ops, calls, f, b);
    OtherId(ops, calls, u, b);
    OtherId(ops, calls, v, b);
    OtherId(ops, calls, e, b);
    OtherId(ops, calls, g, b);
    OtherId(ops, calls, h, b);
    OtherKeeps(ops, TailTable(f, u, v, e, g, h), b);
  }

  lemma TailedFails(ops: set<ToolInterval>, o: ReadObservation, f: ToolInterval, u: ToolInterval, v: ToolInterval,
                    e: ToolInterval,
                    g: ToolInterval, h: ToolInterval, w: ToolInterval) returns (calls: string -> Call)
    requires Timed(ops, o) && Tail(ops, o, f, u, v, e, g, h, w)
    ensures Loses(Dressed(ops, calls), o)
  {
    TailDiffer(ops, o, f, u, v, e, g, h, w);
    calls := TailedCalls(ops, f, u, v, e, g, h);
    DressedTimed(ops, calls);
    assert w in ops;
    TailDressDiffer(ops, f, u, v, e, g, w, calls);
    DressedTail(ops, o, f, u, v, e, g, h, w, calls);
    TailLost(Dressed(ops, calls), o, Dress(f, calls), Dress(u, calls), Dress(v, calls), Dress(e, calls),
             Dress(g, calls), Dress(h, calls), Dress(w, calls));
  }

  function ForkTable(p: ToolInterval, q: ToolInterval, y: ToolInterval, g: ToolInterval, h: ToolInterval): map<string, Call> {
    map[p.eventId := WriteCall("P."), q.eventId := WriteCall("Q."), y.eventId := EditCall(".", "+", false),
        h.eventId := WriteCall("H."), g.eventId := WriteCall("#.")]
  }

  lemma ForkOthers(ops: set<ToolInterval>, p: ToolInterval, q: ToolInterval, y: ToolInterval, g: ToolInterval,
                   h: ToolInterval, b: ToolInterval, calls: string -> Call)
    requires UniqueIds(ops) && p in ops && q in ops && y in ops && g in ops && h in ops
    requires calls == Given(ForkTable(p, q, y, g, h)) && b in Dressed(ops, calls)
    requires b != Dress(p, calls) && b != Dress(q, calls) && b != Dress(y, calls)
    requires b != Dress(g, calls) && b != Dress(h, calls)
    ensures IsKeep(b)
  {
    OtherId(ops, calls, p, b);
    OtherId(ops, calls, q, b);
    OtherId(ops, calls, y, b);
    OtherId(ops, calls, g, b);
    OtherId(ops, calls, h, b);
    OtherKeeps(ops, ForkTable(p, q, y, g, h), b);
  }

  /** Two writes, an edit, perhaps a third write, and the last write. */
  lemma ForkedCalls(ops: set<ToolInterval>, p: ToolInterval, q: ToolInterval, y: ToolInterval, g: ToolInterval, h: ToolInterval)
    returns (calls: string -> Call)
    requires UniqueIds(ops) && p in ops && q in ops && y in ops && g in ops && h in ops
    requires p != q && p != y && p != g && q != y && q != g && y != g && h != p && h != q && h != y
    ensures ForkCalls(Dressed(ops, calls), Dress(p, calls), Dress(q, calls), Dress(y, calls), Dress(g, calls), Dress(h, calls))
  {
    calls := Given(ForkTable(p, q, y, g, h));
    DressedPlace(ops, p, calls);
    DressedPlace(ops, q, calls);
    DressedPlace(ops, y, calls);
    DressedPlace(ops, g, calls);
    DressedPlace(ops, h, calls);
    forall b | b in Dressed(ops, calls) && b != Dress(p, calls) && b != Dress(q, calls) && b != Dress(y, calls)
               && b != Dress(g, calls) && b != Dress(h, calls)
      ensures IsKeep(b)
    {
      ForkOthers(ops, p, q, y, g, h, b, calls);
    }
  }

  lemma DressedOnly(ops: set<ToolInterval>, o: ReadObservation, p: ToolInterval, q: ToolInterval, y: ToolInterval,
                    calls: string -> Call)
    requires OnlyBehind(ops, o, p, q, y)
    ensures OnlyBehind(Dressed(ops, calls), o, Dress(p, calls), Dress(q, calls), Dress(y, calls))
  {
  }

  lemma DressedFork(ops: set<ToolInterval>, o: ReadObservation, p: ToolInterval, q: ToolInterval, y: ToolInterval,
                    g: ToolInterval, h: ToolInterval, w: ToolInterval, calls: string -> Call)
    requires Timed(ops, o) && Fork(ops, o, p, q, y, g, h, w)
    ensures Fork(Dressed(ops, calls), o, Dress(p, calls), Dress(q, calls), Dress(y, calls),
                 Dress(g, calls), Dress(h, calls), Dress(w, calls))
  {
    DressedOnly(ops, o, p, q, y, calls);
    DressedPlace(ops, p, calls);
    DressedPlace(ops, q, calls);
    DressedPlace(ops, y, calls);
    DressedPlace(ops, g, calls);
    DressedPlace(ops, h, calls);
  }

  lemma ForkedFails(ops: set<ToolInterval>, o: ReadObservation, p: ToolInterval, q: ToolInterval, y: ToolInterval,
                    g: ToolInterval, h: ToolInterval, w: ToolInterval) returns (calls: string -> Call)
    requires Timed(ops, o) && Fork(ops, o, p, q, y, g, h, w)
    ensures Loses(Dressed(ops, calls), o)
  {
    KeyLessTotal(p, q);
    calls := ForkedCalls(ops, p, q, y, g, h);
    DressedTimed(ops, calls);
    DressedFork(ops, o, p, q, y, g, h, w, calls);
    ForkLost(Dressed(ops, calls), o, Dress(p, calls), Dress(q, calls), Dress(y, calls),
             Dress(g, calls), Dress(h, calls), Dress(w, calls));
  }

  lemma DressedLate(ops: set<ToolInterval>, o: ReadObservation, f: ToolInterval, l: ToolInterval, x: ToolInterval,
                    g: ToolInterval, h: ToolInterval, w: ToolInterval, calls: string -> Call)
    requires Timed(ops, o) && Late(ops, o, f, l, x, g, h, w)
    ensures Late(Dressed(ops, calls), o, Dress(f, calls), Dress(l, calls), Dress(x, calls),
                 Dress(g, calls), Dress(h, calls), Dress(w, calls))
  {
    DressedFirstOver(ops, o, f, calls);
    DressedLastOver(ops, o, l, calls);
    DressedNeedsOver(ops, o, x, calls);
    DressedPlace(ops, f, calls);
    DressedPlace(ops, l, calls);
    DressedPlace(ops, x, calls);
    DressedPlace(ops, g, calls);
    DressedPlace(ops, h, calls);
  }

  lemma LateDiffer(ops: set<ToolInterval>, o: ReadObservation, f: ToolInterval, l: ToolInterval, x: ToolInterval,
                   g: ToolInterval, h: ToolInterval, w: ToolInterval)
    requires Late(ops, o, f, l, x, g, h, w)
    ensures f != x && f != l && f != g && x != l && x != g && l != g && h != f && h != x && h != l
  {
  }

  lemma DelayedFails(ops: set<ToolInterval>, o: ReadObservation, f: ToolInterval, l: ToolInterval, x: ToolInterval,
                     g: ToolInterval, h: ToolInterval, w: ToolInterval) returns (calls: string -> Call)
    requires Timed(ops, o) && Late(ops, o, f, l, x, g, h, w)
    ensures Loses(Dressed(ops, calls), o)
  {
    LateDiffer(ops, o, f, l, x, g, h, w);
    calls := ForkedCalls(ops, f, x, l, g, h);
    DressedTimed(ops, calls);
    DressedLate(ops, o, f, l, x, g, h, w, calls);
    LateLost(Dressed(ops, calls), o, Dress(f, calls), Dress(l, calls), Dress(x, calls),
             Dress(g, calls), Dress(h, calls), Dress(w, calls));
  }

  function LonelyTable(x: ToolInterval, e: ToolInterval, g: ToolInterval, w: ToolInterval): map<string, Call> {
    map[w.eventId := WriteCall("W."), x.eventId := WriteCall("X."), e.eventId := WriteCall("E."), g.eventId := WriteCall("#.")]
  }

  lemma LonelyOthers(ops: set<ToolInterval>, x: ToolInterval, e: ToolInterval, g: ToolInterval, w: ToolInterval,
                     b: ToolInterval, calls: string -> Call)
    requires UniqueIds(ops) && x in ops && e in ops && g in ops && w in ops
    requires calls == Given(LonelyTable(x, e, g, w)) && b in Dressed(ops, calls)
    requires b != Dress(x, calls) && b != Dress(e, calls) && b != Dress(g, calls)
    requires b != Dress(w, calls)
    ensures IsKeep(b)
  {
    OtherId(ops, calls, x, b);
    OtherId(ops, calls, e, b);
    OtherId(ops, calls, g, b);
    OtherId(ops, calls, w, b);
    OtherKeeps(ops, LonelyTable(x, e, g, w), b);
  }

  lemma AloneCalls(ops: set<ToolInterval>, o: ReadObservation, x: ToolInterval, e: ToolInterval, g: ToolInterval, w: ToolInterval)
    returns (calls: string -> Call)
    requires Timed(ops, o) && Lonely(ops, o, x, e, g, w)
    ensures LonelyCalls(Dressed(ops, calls), Dress(x, calls), Dress(e, calls), Dress(g, calls), Dress(w, calls))
  {
    calls := Given(LonelyTable(x, e, g, w));
    DressedPlace(ops, x, calls);
    DressedPlace(ops, e, calls);
    DressedPlace(ops, g, calls);
    DressedPlace(ops, w, calls);
    forall b | b in Dressed(ops, calls) && b != Dress(x, calls) && b != Dress(e, calls) && b != Dress(g, calls)
               && b != Dress(w, calls)
      ensures IsKeep(b)
    {
      LonelyOthers(ops, x, e, g, w, b, calls);
    }
  }

  lemma AloneFails(ops: set<ToolInterval>, o: ReadObservation, x: ToolInterval, e: ToolInterval, g: ToolInterval, w: ToolInterval)
    returns (calls: string -> Call)
    requires Timed(ops, o) && Lonely(ops, o, x, e, g, w)
    ensures Loses(Dressed(ops, calls), o)
  {
    calls := AloneCalls(ops, o, x, e, g, w);
    DressedTimed(ops, calls);
    DressedAllLater(ops, o, x, calls);
    DressedKeyFirst(ops, e, calls);
    DressedPlace(ops, x, calls);
    DressedPlace(ops, e, calls);
    DressedPlace(ops, g, calls);
    DressedPlace(ops, w, calls);
    LonelyLost(Dressed(ops, calls), o, Dress(x, calls), Dress(e, calls), Dress(g, calls), Dress(w, calls));
  }

  // ---------------------------------------------------------------- the families that are erased

  function DressCast(r: Cast, calls: string -> Call): Cast {
    Cast(Dress(r.f, calls), Dress(r.u, calls), Dress(r.v, calls), Dress(r.c, calls), Dress(r.d, calls), Dress(r.z, calls))
  }

  lemma FrameApart(ops: set<ToolInterval>, r: Cast)
    requires WellTimed(ops) && Frame(ops, r)
    ensures Apart(r)
  {
  }

  lemma DressedFrame(ops: set<ToolInterval>, r: Cast, calls: string -> Call)
    requires UniqueIds(ops) && WellTimed(ops) && Frame(ops, r)
    ensures Frame(Dressed(ops, calls), DressCast(r, calls)) && Apart(DressCast(r, calls))
    ensures (r.f == r.u <==> Dress(r.f, calls) == Dress(r.u, calls)) && (r.d == r.c <==> Dress(r.d, calls) == Dress(r.c, calls))
  {
    FrameApart(ops, r);
    DressedPlace(ops, r.f, calls);
    DressedPlace(ops, r.u, calls);
    DressedPlace(ops, r.v, calls);
    DressedPlace(ops, r.c, calls);
    DressedPlace(ops, r.d, calls);
    DressedPlace(ops, r.z, calls);
  }

  function MarkTable(r: Cast): map<string, Call> {
    map[r.f.eventId := WriteCall("x|c"), r.u.eventId := WriteCall("x|b"), r.v.eventId := WriteCall("x|a"),
        r.d.eventId := EditCall("|", "x|", false), r.c.eventId := EditCall("x", "xx", true),
        r.z.eventId := EditCall("x", "", true)]
  }

  lemma MarkOthers(ops: set<ToolInterval>, r: Cast, b: ToolInterval, calls: string -> Call)
    requires UniqueIds(ops) && r.f in ops && r.u in ops && r.v in ops && r.c in ops && r.d in ops && r.z in ops
    requires calls == Given(MarkTable(r)) && b in Dressed(ops, calls)
    requires b != Dress(r.f, calls) && b != Dress(r.u, calls) && b != Dress(r.v, calls)
    requires b != Dress(r.c, calls) && b != Dress(r.d, calls) && b != Dress(r.z, calls)
    ensures IsKeep(b)
  {
    OtherId(ops, calls, r.f, b);
    OtherId(ops, calls, r.u, b);
    OtherId(ops, calls, r.v, b);
    OtherId(ops, calls, r.c, b);
    OtherId(ops, calls, r.d, b);
    OtherId(ops, calls, r.z, b);
    OtherKeeps(ops, MarkTable(r), b);
  }

  lemma MarkLookup(ops: set<ToolInterval>, r: Cast)
    requires UniqueIds(ops) && Apart(r) && r.f in ops && r.u in ops && r.v in ops && r.c in ops && r.d in ops && r.z in ops
    ensures var calls := Given(MarkTable(r));
            && calls(r.u.eventId) == WriteCall("x|b") && calls(r.v.eventId) == WriteCall("x|a")
            && (r.f != r.u ==> calls(r.f.eventId) == WriteCall("x|c")) && calls(r.c.eventId) == EditCall("x", "xx", true)
            && (r.d != r.c ==> calls(r.d.eventId) == EditCall("|", "x|", false)) && calls(r.z.eventId) == EditCall("x", "", true)
  {
  }

  lemma ErasedCalls(ops: set<ToolInterval>, r: Cast)
    requires UniqueIds(ops) && WellTimed(ops) && Frame(ops, r)
    ensures MarkCalls(Dressed(ops, Given(MarkTable(r))), DressCast(r, Given(MarkTable(r))))
  {
    var calls := Given(MarkTable(r));
    FrameApart(ops, r);
    MarkLookup(ops, r);
    DressedFrame(ops, r, calls);
    DressedPlace(ops, r.f, calls);
    DressedPlace(ops, r.u, calls);
    DressedPlace(ops, r.v, calls);
    DressedPlace(ops, r.c, calls);
    DressedPlace(ops, r.d, calls);
    DressedPlace(ops, r.z, calls);
    forall b | b in Dressed(ops, calls) && b != Dress(r.f, calls) && b != Dress(r.u, calls) && b != Dress(r.v, calls)
               && b != Dress(r.c, calls) && b != Dress(r.d, calls) && b != Dress(r.z, calls)
      ensures IsKeep(b)
    {
      MarkOthers(ops, r, b, calls);
    }
  }

  lemma DressedErasable(ops: set<ToolInterval>, o: ReadObservation, r: Cast, calls: string -> Call)
    requires UniqueIds(ops) && WellTimed(ops) && Erasable(ops, o, r)
    ensures Erasable(Dressed(ops, calls), o, DressCast(r, calls))
  {
    DressedFrame(ops, r, calls);
  }

  lemma DressedErasablePair(ops: set<ToolInterval>, o: ReadObservation, r: Cast, calls: string -> Call)
    requires UniqueIds(ops) && WellTimed(ops) && ErasablePair(ops, o, r)
    ensures ErasablePair(Dressed(ops, calls), o, DressCast(r, calls))
  {
    DressedFrame(ops, r, calls);
  }

  lemma ErasedFails(ops: set<ToolInterval>, o: ReadObservation, r: Cast) returns (calls: string -> Call)
    requires Timed(ops, o) && (Erasable(ops, o, r) || ErasablePair(ops, o, r))
    ensures Loses(Dressed(ops, calls), o)
  {
    calls := Given(MarkTable(r));
    DressedTimed(ops, calls);
    ErasedCalls(ops, r);
    if Erasable(ops, o, r) {
      DressedErasable(ops, o, r, calls);
      ErasableLost(Dressed(ops, calls), o, DressCast(r, calls));
    } else {
      DressedErasablePair(ops, o, r, calls);
      PairLost(Dressed(ops, calls), o, DressCast(r, calls));
    }
  }

  // ---------------------------------------------------------------- together

  /** Wherever the intervals have a flaw, some calls lose an explained content. */
  lemma FlawFails(ops: set<ToolInterval>, o: ReadObservation, flaw: Flaw) returns (calls: string -> Call)
    requires Timed(ops, o) && HasFlaw(ops, o, flaw)
    ensures Loses(Dressed(ops, calls), o)
  {
    match flaw {
      case Opposed(r, c, d) => calls := OpposedFails(ops, o, r, c, d);
      case Started(m, b, s, t) => calls := StartedFails(ops, o, m, b, s, t);
      case Hurried(m, s, t) => calls := HurriedFails(ops, o, m, s, t);
      case Raced(p, q, a) => calls := RacedFails(ops, o, p, q, a);
      case Tailed(f, u, v, e, g, h, w) => calls := TailedFails(ops, o, f, u, v, e, g, h, w);
      case Forked(p, q, y, g, h, w) => calls := ForkedFails(ops, o, p, q, y, g, h, w);
      case Delayed(f, l, x, g, h, w) => calls := DelayedFails(ops, o, f, l, x, g, h, w);
      case Alone(x, e, g, w) => calls := AloneFails(ops, o, x, e, g, w);
      case Erased(r) => calls := ErasedFails(ops, o, r);
      case ErasedTwice(r) => calls := ErasedFails(ops, o, r);
    }
  }
}
