/** Evidence dossiers: numbered versions per trace, at most one of them current, immutable once
    they have ended, and the compilation that decides how one ends. */
module Dossiers {
  import opened Wrappers
  import opened Text
  import opened CoverageMatrix

  datatype Status = Pending | Compiling | Ready | Partial | Failed | Superseded

  /** `layers` are the stored columns (manifest, facts, views, failure reason, ...) by name. */
  datatype Dossier = Dossier(trace: string, version: nat, current: bool, status: Status, layers: map<string, string>)

  datatype UpdateError = NotFound | Immutable

  predicate IsTerminal(s: Status) {
    s.Ready? || s.Partial? || s.Failed? || s.Superseded?
  }

  // ---------------------------------------------------------------- versions

  /** The versions of a trace in the order of their creation. */
  function VersionsOf(rows: seq<Dossier>, trace: string): seq<nat> {
    if rows == [] then []
    else VersionsOf(rows[..|rows| - 1], trace) + if rows[|rows| - 1].trace == trace then [rows[|rows| - 1].version] else []
  }

  /** The versions of every trace are 1, 2, 3, ... */
  ghost predicate Numbered(rows: seq<Dossier>) {
    forall trace :: VersionsOf(rows, trace) == OneUpTo(|VersionsOf(rows, trace)|)
  }

  ghost predicate OneCurrent(rows: seq<Dossier>) {
    forall i, j :: 0 <= i < j < |rows| && rows[i].trace == rows[j].trace ==> !(rows[i].current && rows[j].current)
  }

  lemma {:induction false} VersionPosition(rows: seq<Dossier>, i: nat) returns (k: nat)
    requires i < |rows|
    ensures k < |VersionsOf(rows, rows[i].trace)| && VersionsOf(rows, rows[i].trace)[k] == rows[i].version
    ensures k == |VersionsOf(rows[..i], rows[i].trace)|
  {
    var init := rows[..|rows| - 1];
    if i < |init| {
      k := VersionPosition(init, i);
      assert rows[..i] == init[..i];
    } else {
      k := |VersionsOf(init, rows[i].trace)|;
    }
  }

  /** Versions are unique in a trace and grow with each new dossier. */
  lemma VersionsIncrease(rows: seq<Dossier>, i: nat, j: nat)
    requires Numbered(rows) && i < j < |rows| && rows[i].trace == rows[j].trace
    ensures 1 <= rows[i].version < rows[j].version
  {
    var k := VersionPosition(rows, i);
    var l := VersionPosition(rows, j);
    var m := VersionPosition(rows[..j], i);
    assert rows[..j][..i] == rows[..i];
  }

  lemma SameVersions(rows: seq<Dossier>, after: seq<Dossier>, trace: string)
    requires |rows| == |after| && forall i :: 0 <= i < |rows| ==> after[i].trace == rows[i].trace && after[i].version == rows[i].version
    ensures VersionsOf(after, trace) == VersionsOf(rows, trace)
    decreases |rows|
  {
    if rows != [] { SameVersions(rows[..|rows| - 1], after[..|rows| - 1], trace); }
  }

  // ---------------------------------------------------------------- what never changes

  /** What any run may do to a row: an ended dossier keeps its layers, and its status, unless a
      newer version supersedes it. */
  ghost predicate RowEvolves(before: Dossier, after: Dossier) {
    && after.trace == before.trace && after.version == before.version
    && (IsTerminal(before.status) ==>
          && after.layers == before.layers
          && (after.status == before.status || ((before.status.Ready? || before.status.Partial?) && after.status.Superseded?)))
  }

  ghost predicate Evolves(before: seq<Dossier>, after: seq<Dossier>) {
    |before| <= |after| && forall i :: 0 <= i < |before| ==> RowEvolves(before[i], after[i])
  }

  lemma EvolvesOn(a: seq<Dossier>, b: seq<Dossier>, c: seq<Dossier>)
    requires Evolves(a, b) && Evolves(b, c)
    ensures Evolves(a, c)
  {
    forall i | 0 <= i < |a| ensures RowEvolves(a[i], c[i]) {
      assert RowEvolves(a[i], b[i]) && RowEvolves(b[i], c[i]);
    }
  }

  // ---------------------------------------------------------------- the current version

  function Marked(rows: seq<Dossier>, id: nat): seq<Dossier>
    requires id < |rows|
  {
    seq(|rows|, i requires 0 <= i < |rows| =>
      if rows[i].trace != rows[id].trace then rows[i]
      else if i == id then rows[i].(current := true)
      else rows[i].(current := false,
                    status := if rows[i].status.Ready? || rows[i].status.Partial? then Superseded else rows[i].status))
  }

  /** The first of the two updates of `mark_current`: all other versions step back. */
  function Cleared(rows: seq<Dossier>, id: nat): seq<Dossier>
    requires id < |rows|
  {
    seq(|rows|, i requires 0 <= i < |rows| =>
      if rows[i].trace != rows[id].trace || i == id then rows[i]
      else rows[i].(current := false,
                    status := if rows[i].status.Ready? || rows[i].status.Partial? then Superseded else rows[i].status))
  }

  lemma ClearedKeeps(rows: seq<Dossier>, id: nat)
    requires id < |rows| && Numbered(rows) && OneCurrent(rows)
    ensures Numbered(Cleared(rows, id)) && OneCurrent(Cleared(rows, id)) && Evolves(rows, Cleared(rows, id))
    ensures Cleared(rows, id)[id := rows[id].(current := true)] == Marked(rows, id)
  {
    forall trace ensures VersionsOf(Cleared(rows, id), trace) == VersionsOf(rows, trace) {
      SameVersions(rows, Cleared(rows, id), trace);
    }
  }

  lemma MarkedKeeps(rows: seq<Dossier>, id: nat)
    requires id < |rows| && Numbered(rows) && OneCurrent(rows)
    ensures Numbered(Marked(rows, id)) && OneCurrent(Marked(rows, id)) && Evolves(rows, Marked(rows, id))
  {
    forall trace ensures VersionsOf(Marked(rows, id), trace) == VersionsOf(rows, trace) {
      SameVersions(rows, Marked(rows, id), trace);
    }
  }

  /** `id` alone is current now among the dossiers of its trace, the ready and the partial ones
      of them are superseded, and nothing else has changed. */
  ghost predicate StepsBack(before: seq<Dossier>, after: seq<Dossier>, id: nat)
    requires id < |before|
  {
    && |after| == |before|
    && (forall i :: 0 <= i < |before| ==> after[i].trace == before[i].trace && after[i].version == before[i].version
                                          && after[i].layers == before[i].layers)
    && (forall i :: 0 <= i < |before| && before[i].trace != before[id].trace ==> after[i] == before[i])
    && after[id].current && after[id].status == before[id].status
    && forall i :: 0 <= i < |before| && before[i].trace == before[id].trace && i != id ==>
         && !after[i].current
         && (before[i].status.Ready? || before[i].status.Partial? ==> after[i].status.Superseded?)
         && (!before[i].status.Ready? && !before[i].status.Partial? ==> after[i].status == before[i].status)
  }

  /** The choice of `get_consumable_dossier`: the current dossier if it is ready, otherwise the
      ready one with the highest version. */
  ghost predicate IsConsumable(rows: seq<Dossier>, trace: string, id: Option<nat>) {
    match id
    case None => forall i :: 0 <= i < |rows| && rows[i].trace == trace ==> !rows[i].status.Ready?
    case Some(k) =>
      && k < |rows| && rows[k].trace == trace && rows[k].status.Ready?
      && (rows[k].current
          || forall i :: 0 <= i < |rows| && rows[i].trace == trace && rows[i].status.Ready? ==>
               !rows[i].current && rows[i].version <= rows[k].version)
  }

  /** After a dossier is marked current nothing but it can be consumed: it if it is ready, and
      otherwise nothing, however many ready versions there were. */
  lemma ConsumableAfterMark(rows: seq<Dossier>, id: nat, chosen: Option<nat>)
    requires id < |rows| && IsConsumable(Marked(rows, id), rows[id].trace, chosen)
    ensures chosen == if rows[id].status.Ready? then Some(id) else None
  {
    var after := Marked(rows, id);
    if rows[id].status.Ready? { assert after[id].status.Ready? && after[id].trace == rows[id].trace; }
    if chosen.Some? { assert after[chosen.value].status.Ready? ==> chosen.value == id; }
  }

  /** The semantic layer: not configured, failed as a whole, stopped by the call limit, or
      induced, possibly with stages whose model call failed. */
  datatype Semantic = NotConfigured | Raised(message: string) | LimitReached | Induced(failedStages: set<string>)

  /** Where an exception strikes once the result is stored: before the older versions are
      superseded, before the new one is marked current, or after that. */
  datatype Fault = NoFault | BeforeMark | InsideMark | AfterMark

  /** What one compilation meets: the reasons that stop it, and the evidence it weighs. */
  datatype Inputs = Inputs(exception: Option<string>, ineligible: Option<string>, critical: Option<string>,
                           contract: Option<Contract>, facts: Facts, semantic: Semantic, gaps: seq<string>, fault: Fault)

  predicate Stopped(inputs: Inputs) {
    inputs.exception.Some? || inputs.ineligible.Some? || inputs.critical.Some?
  }

  /** The semantic layer counts as skipped. An exception without a message goes unnoticed. */
  predicate SemanticSkipped(semantic: Semantic) {
    semantic.NotConfigured? || (semantic.Raised? && semantic.message != "")
  }

  /** A fulfilled contract, no gap and a semantic layer, even one stopped by the call limit, or
      with failed stages, or that failed with an exception without a message. */
  ghost predicate Evidenced(inputs: Inputs) {
    && inputs.contract.Some? && Fulfilled(inputs.contract.value, inputs.facts) && inputs.gaps == []
    && (inputs.semantic.LimitReached? || inputs.semantic.Induced? || inputs.semantic == Raised(""))
  }

  /** A fulfilled contract and no gap, whatever became of the semantic layer. */
  ghost predicate IsFull(inputs: Inputs) {
    inputs.contract.Some? && Fulfilled(inputs.contract.value, inputs.facts) && inputs.gaps == []
  }

  datatype Operation =
    | New(trace: string)
    | Change(id: nat, status: Option<Status>, layers: map<string, string>)
    | Mark(id: nat)
    | Build(id: nat, inputs: Inputs)

  /** The status that the evidence allows, and the completeness written into the manifest. */
  method Judge(inputs: Inputs) returns (final: Status, completeness: string)
    ensures final == if Evidenced(inputs) then Ready else Partial
    ensures completeness == if IsFull(inputs) then "full" else "partial"
  {
    var matrix := ComputeMatrix(inputs.contract, inputs.facts);
    CompleteExactly(inputs.contract, inputs.facts);
    final := if inputs.gaps != [] || SemanticSkipped(inputs.semantic) || !matrix.complete then Partial else Ready;
    completeness := if matrix.complete && inputs.gaps == [] then "full" else "partial";
  }

  class DossierRepo {
    var rows: seq<Dossier>

    ghost predicate Valid()
      reads this
    {
      Numbered(rows) && OneCurrent(rows)
    }

    constructor ()
      ensures Valid() && rows == []
    {
      rows := [];
    }

    /** `_next_version`. */
    method NextVersion(trace: string) returns (version: nat)
      requires Valid()
      ensures version == |VersionsOf(rows, trace)| + 1
    {
      var max: Option<nat> := None;
      for i := 0 to |rows|
        invariant max == if VersionsOf(rows[..i], trace) == [] then None else Some(|VersionsOf(rows[..i], trace)|)
      {
        NextInOrder(rows, trace, i);
        if rows[i].trace == trace && (max.None? || max.value < rows[i].version) { max := Some(rows[i].version); }
      }
      assert rows[..|rows|] == rows;
      return if max.Some? then max.value + 1 else 1;
    }

    method Create(trace: string) returns (id: nat)
      requires Valid()
      modifies this
      ensures Valid() && Evolves(old(rows), rows) && id == |old(rows)|
      ensures rows == old(rows) + [Dossier(trace, |VersionsOf(old(rows), trace)| + 1, false, Pending, map[])]
    {
      var version := NextVersion(trace);
      id := |rows|;
      CreatedKeeps(rows, Dossier(trace, version, false, Pending, map[]));
      rows := rows + [Dossier(trace, version, false, Pending, map[])];
    }

    /** `update_dossier`: the given columns of a dossier that has not ended. */
    method Update(id: nat, status: Option<Status>, layers: map<string, string>) returns (r: Result<(), UpdateError>)
      requires Valid()
      modifies this
      ensures Valid() && Evolves(old(rows), rows)
      ensures r == if id >= |old(rows)| then Err(NotFound) else if IsTerminal(old(rows)[id].status) then Err(Immutable) else Ok(())
      ensures rows == if r.Err? then old(rows)
                      else old(rows)[id := old(rows)[id].(status := status.GetOr(old(rows)[id].status),
                                                          layers := old(rows)[id].layers + layers)]
    {
      if id >= |rows| { return Err(NotFound); }
      if IsTerminal(rows[id].status) { return Err(Immutable); }
      var row := rows[id];
      if status.Some? { row := row.(status := status.value); }
      row := row.(layers := row.layers + layers);
      UpdatedKeeps(rows, id, row);
      rows := rows[id := row];
      return Ok(());
    }

    method ClearOthers(id: nat)
      requires Valid() && id < |rows|
      modifies this
      ensures Valid() && Evolves(old(rows), rows) && rows == Cleared(old(rows), id)
    {
      ClearedKeeps(rows, id);
      var trace := rows[id].trace;
      rows := seq(|rows|, i requires 0 <= i < |rows| reads this =>
        if rows[i].trace == trace && i != id
        then rows[i].(current := false,
                      status := if rows[i].status.Ready? || rows[i].status.Partial? then Superseded else rows[i].status)
        else rows[i]);
      assert rows == Cleared(old(rows), id);
    }

    /** `mark_current`. */
    method MarkCurrent(id: nat)
      requires Valid()
      modifies this
      ensures Valid() && Evolves(old(rows), rows)
      ensures rows == if id < |old(rows)| then Marked(old(rows), id) else old(rows)
      ensures id < |old(rows)| ==> StepsBack(old(rows), rows, id)
    {
      if id >= |rows| { return; }
      MarkedKeeps(rows, id);
      ClearedKeeps(rows, id);
      ClearOthers(id);
      rows := rows[id := rows[id].(current := true)];
    }

    method GetConsumable(trace: string) returns (id: Option<nat>)
      requires Valid()
      ensures IsConsumable(rows, trace, id)
    {
      id := None;
      for i := 0 to |rows|
        invariant forall j :: 0 <= j < i && rows[j].trace == trace ==> !(rows[j].current && rows[j].status.Ready?)
        invariant match id
                  case None => forall j :: 0 <= j < i && rows[j].trace == trace ==> !rows[j].status.Ready?
                  case Some(k) =>
                    && k < i && rows[k].trace == trace && rows[k].status.Ready?
                    && forall j :: 0 <= j < i && rows[j].trace == trace && rows[j].status.Ready? ==> rows[j].version <= rows[k].version
      {
        if rows[i].trace == trace && rows[i].status.Ready? {
          if rows[i].current { return Some(i); }
          if id.None? || rows[id.value].version < rows[i].version { id := Some(i); }
        }
      }
    }

    /** `compile_dossier`: an exception may stop it anywhere. Before the result is stored it
        makes the dossier fail. Afterwards the dossier has ended: the attempt to mark it failed
        is refused, and that refusal is what the caller gets, while the result stays stored. */
    method Compile(id: nat, inputs: Inputs) returns (r: Result<Status, UpdateError>)
      requires Valid()
      modifies this
      ensures Valid() && Evolves(old(rows), rows) && |rows| == |old(rows)|
      ensures var started := id < |old(rows)| && !IsTerminal(old(rows)[id].status);
              && (r.Ok? <==> started && (Stopped(inputs) || inputs.fault.NoFault?))
              && (!started ==> rows == old(rows))
              && (started ==> rows[id].trace == old(rows)[id].trace)
              && (started ==> (rows[id].status.Failed? <==> Stopped(inputs)))
              && (started ==> (rows[id].status.Ready? <==> !Stopped(inputs) && Evidenced(inputs)))
              && (started ==> (rows[id].status.Partial? <==> !Stopped(inputs) && !Evidenced(inputs)))
              && (started && r.Err? ==> r == Err(Immutable))
      ensures r.Ok? ==> rows[id].status == r.value
      ensures id < |rows| && !IsTerminal(old(rows)[id].status) ==>
                && (!Stopped(inputs) ==>
                      "manifest" in rows[id].layers && rows[id].layers["manifest"] == if IsFull(inputs) then "full" else "partial")
                && (inputs.ineligible.Some? ==>
                      "failure_reason" in rows[id].layers && rows[id].layers["failure_reason"] == inputs.ineligible.value)
                && (inputs.ineligible.None? && inputs.critical.Some? ==>
                      "failure_reason" in rows[id].layers && rows[id].layers["failure_reason"] == inputs.critical.value)
      ensures r.Ok? && !r.value.Failed? ==> rows[id].current && forall chosen :: IsConsumable(rows, rows[id].trace, chosen) ==>
                chosen == if r.value.Ready? then Some(id) else None
      ensures id < |rows| && !IsTerminal(old(rows)[id].status) && (Stopped(inputs) || inputs.fault.BeforeMark?) ==>
                rows[id].current == old(rows)[id].current && forall i :: 0 <= i < |rows| && i != id ==> rows[i] == old(rows)[i]
    {
      var started := Update(id, Some(Compiling), map[]);
      if started.Err? { return Err(started.error); }
      if Stopped(inputs) {
        var reason := if inputs.ineligible.Some? then inputs.ineligible.value
                      else if inputs.critical.Some? then inputs.critical.value else inputs.exception.value;
        var _ := Update(id, Some(Failed), map["failure_reason" := reason]);
        return Ok(Failed);
      }
      var final, completeness := Judge(inputs);
      Conclude(id, final, completeness, inputs.fault);
      if !inputs.fault.NoFault? {
        var refused := Update(id, Some(Failed), map["failure_reason" := "exception"]);
        return Err(refused.error);
      }
      return Ok(final);
    }

    /** Store the result and make it the current version, as far as no exception strikes. */
    method Conclude(id: nat, final: Status, completeness: string, fault: Fault)
      requires Valid() && id < |rows| && !IsTerminal(rows[id].status) && (final.Ready? || final.Partial?)
      modifies this
      ensures Valid() && Evolves(old(rows), rows) && |rows| == |old(rows)|
      ensures var row := old(rows)[id];
              var stored := old(rows)[id := row.(status := final, layers := row.layers + map["manifest" := completeness])];
              rows == match fault
                      case BeforeMark => stored
                      case InsideMark => Cleared(stored, id)
                      case _ => Marked(stored, id)
      ensures fault.NoFault? || fault.AfterMark? ==>
                forall chosen :: IsConsumable(rows, rows[id].trace, chosen) ==> chosen == if final.Ready? then Some(id) else None
    {
      ghost var before := rows;
      var _ := Update(id, Some(final), map["manifest" := completeness]);
      ghost var stored := rows;
      if fault.BeforeMark? { return; }
      if fault.InsideMark? {
        ClearOthers(id);
      } else {
        MarkCurrent(id);
        forall chosen | IsConsumable(rows, rows[id].trace, chosen) ensures chosen == if final.Ready? then Some(id) else None {
          ConsumableAfterMark(stored, id, chosen);
        }
      }
      EvolvesOn(before, stored, rows);
    }

    /** Any run: versions stay 1, 2, 3, ... per trace, at most one dossier per trace is current,
        and what has ended stays as it ended, up to being superseded. */
    method Run(steps: seq<Operation>)
      requires Valid()
      modifies this
      ensures Valid() && Evolves(old(rows), rows)
    {
      for i := 0 to |steps|
        invariant Valid() && Evolves(old(rows), rows)
      {
        ghost var before := rows;
        match steps[i] {
          case New(trace) => var _ := Create(trace);
          case Change(id, status, layers) => var _ := Update(id, status, layers);
          case Mark(id) => MarkCurrent(id);
          case Build(id, inputs) => var _ := Compile(id, inputs);
        }
        EvolvesOn(old(rows), before, rows);
      }
    }
  }

  lemma NextInOrder(rows: seq<Dossier>, trace: string, i: nat)
    requires Numbered(rows) && i < |rows|
    ensures VersionsOf(rows[..i + 1], trace) == VersionsOf(rows[..i], trace) + if rows[i].trace == trace then [rows[i].version] else []
    ensures rows[i].trace == trace ==> rows[i].version == |VersionsOf(rows[..i], trace)| + 1
  {
    assert rows[..i + 1][..i] == rows[..i];
    if rows[i].trace == trace { var k := VersionPosition(rows, i); }
  }

  lemma CreatedKeeps(rows: seq<Dossier>, row: Dossier)
    requires Numbered(rows) && OneCurrent(rows) && !row.current && row.version == |VersionsOf(rows, row.trace)| + 1
    ensures Numbered(rows + [row]) && OneCurrent(rows + [row]) && Evolves(rows, rows + [row])
  {
    assert (rows + [row])[..|rows|] == rows;
    forall trace ensures VersionsOf(rows + [row], trace) == OneUpTo(|VersionsOf(rows + [row], trace)|) {
      assert VersionsOf(rows, trace) == OneUpTo(|VersionsOf(rows, trace)|);
    }
  }

  lemma UpdatedKeeps(rows: seq<Dossier>, id: nat, row: Dossier)
    requires Numbered(rows) && OneCurrent(rows) && id < |rows| && !IsTerminal(rows[id].status)
    requires row.trace == rows[id].trace && row.version == rows[id].version && row.current == rows[id].current
    ensures Numbered(rows[id := row]) && OneCurrent(rows[id := row]) && Evolves(rows, rows[id := row])
  {
    var after := rows[id := row];
    forall trace ensures VersionsOf(after, trace) == VersionsOf(rows, trace) {
      SameVersions(rows, after, trace);
    }
    forall i, j | 0 <= i < j < |after| && after[i].trace == after[j].trace ensures !(after[i].current && after[j].current) {
      assert rows[i].trace == rows[j].trace;
    }
    assert Evolves(rows, after);
  }
}
