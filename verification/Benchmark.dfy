/** The benchmark table and the single runner that works through it: bounded retries, no row
    left pending, and a result per row that does not depend on the order of the work. */
module Benchmark {
  import opened Wrappers
  import opened Text

  datatype Status = Pending | Running | Evaluating | Done | Failed

  datatype Row = Row(batch: string, caseId: string, version: int, ranAt: int, status: Status, retries: nat,
                     trace: Option<string>, score: Option<string>, error: Option<string>)

  /** What one execution of a row meets: a score, or an exception before or after its trace
      was stored. */
  datatype Attempt =
    | Scored(trace: string, score: string)
    | FailsEarly(error: string)
    | FailsLate(trace: string, error: string)

  const MAX_RETRIES := 3

  /** The outcome of the execution of row `id` that finds `retries` failures behind it. */
  type Plan = (nat, nat) -> Attempt

  predicate IsDue(row: Row) {
    row.status.Pending? && row.retries < MAX_RETRIES
  }

  /** `mark_failed`. */
  function AfterFailure(row: Row, error: string): Row {
    row.(retries := row.retries + 1, error := Some(Short(error)),
         status := if row.retries + 1 >= MAX_RETRIES then Failed else Pending)
  }

  /** The row after one execution. */
  function AfterAttempt(row: Row, attempt: Attempt): Row {
    match attempt
    case Scored(trace, score) => row.(trace := Some(trace), score := Some(score), status := Done)
    case FailsEarly(error) => AfterFailure(row, error)
    case FailsLate(trace, error) => AfterFailure(row.(trace := Some(trace)), error)
  }

  /** The row once nothing is left to do with it. */
  function Settled(row: Row, id: nat, plan: Plan): Row
    decreases MAX_RETRIES - row.retries
  {
    if !IsDue(row) then row
    else
      var next := AfterAttempt(row, plan(id, row.retries));
      if next.status.Done? then next else Settled(next, id, plan)
  }

  /** How many executions that takes. */
  function Executions(row: Row, id: nat, plan: Plan): nat
    decreases MAX_RETRIES - row.retries
  {
    if !IsDue(row) then 0
    else
      var next := AfterAttempt(row, plan(id, row.retries));
      1 + if next.status.Done? then 0 else Executions(next, id, plan)
  }

  function StoredTrace(attempt: Attempt): Option<string> {
    match attempt
    case Scored(trace, _) => Some(trace)
    case FailsEarly(_) => None
    case FailsLate(trace, _) => Some(trace)
  }

  function ErrorOf(attempt: Attempt): Option<string> {
    match attempt
    case Scored(_, _) => None
    case FailsEarly(error) => Some(error)
    case FailsLate(_, error) => Some(error)
  }

  /** `after` is the last of the values that the attempts `from` up to `to` give, or `before`. */
  ghost predicate LastOf(values: nat -> Option<string>, from: nat, to: nat, before: Option<string>, after: Option<string>) {
    || (after == before && forall n: nat :: from <= n < to ==> values(n).None?)
    || exists n: nat :: from <= n < to && values(n).Some? && after == values(n) && forall m: nat :: n < m < to ==> values(m).None?
  }

  /** An error message as it is stored: its first 500 characters. */
  function Short(error: string): (short: string)
    ensures short <= error && |short| <= 500 && (|short| < 500 ==> short == error)
  {
    error[..if |error| < 500 then |error| else 500]
  }

  /** What each attempt gives. */
  function Traces(plan: Plan, id: nat): nat -> Option<string> {
    (n: nat) => StoredTrace(plan(id, n))
  }

  function Errors(plan: Plan, id: nat): nat -> Option<string> {
    (n: nat) => Shortened(ErrorOf(plan(id, n)))
  }

  lemma LastOfOne(values: nat -> Option<string>, n: nat, before: Option<string>, after: Option<string>)
    requires after == if values(n).Some? then values(n) else before
    ensures LastOf(values, n, n + 1, before, after)
  {
  }

  lemma LastOfMore(values: nat -> Option<string>, from: nat, to: nat, before: Option<string>, mid: Option<string>, after: Option<string>)
    requires from < to && mid == (if values(from).Some? then values(from) else before) && LastOf(values, from + 1, to, mid, after)
    ensures LastOf(values, from, to, before, after)
  {
    if after == mid && forall n: nat :: from + 1 <= n < to ==> values(n).None? {
      if values(from).None? {
        assert forall n: nat :: from <= n < to ==> n == from || values(n).None?;
      }
    } else {
      var n: nat :| from + 1 <= n < to && values(n).Some? && after == values(n) && forall m: nat :: n < m < to ==> values(m).None?;
    }
  }

  /** What a settled row holds: the score of its last attempt, if that scored; the trace of the
      last attempt that stored one; the shortened error of the last that failed; and one more
      retry for each failure. All of that is as before where no attempt gave it. */
  lemma {:induction false} SettledHolds(row: Row, id: nat, plan: Plan)
    requires IsDue(row)
    ensures var last, end := Settled(row, id, plan), row.retries + Executions(row, id, plan);
            && (last.status.Done? ==> plan(id, end - 1).Scored? && last.score == Some(plan(id, end - 1).score) && last.retries == end - 1)
            && (last.status.Failed? ==> last.score == row.score && last.retries == end)
            && last.ranAt == row.ranAt
            && LastOf(Traces(plan, id), row.retries, end, row.trace, last.trace)
            && LastOf(Errors(plan, id), row.retries, end, row.error, last.error)
    decreases MAX_RETRIES - row.retries
  {
    var attempt := plan(id, row.retries);
    var next := AfterAttempt(row, attempt);
    var traces, errors := Traces(plan, id), Errors(plan, id);
    var end := row.retries + Executions(row, id, plan);
    if !next.status.Done? && next.retries < MAX_RETRIES {
      SettledHolds(next, id, plan);
      SettledMeaning(next, id, plan);
      LastOfMore(traces, row.retries, end, row.trace, next.trace, Settled(row, id, plan).trace);
      LastOfMore(errors, row.retries, end, row.error, next.error, Settled(row, id, plan).error);
    } else {
      assert end == row.retries + 1 && Settled(row, id, plan) == next;
      LastOfOne(traces, row.retries, row.trace, next.trace);
      LastOfOne(errors, row.retries, row.error, next.error);
    }
  }

  function Shortened(error: Option<string>): Option<string> {
    if error.None? then None else Some(Short(error.value))
  }

  /** A due row ends done exactly when one of the attempts it has left scores, and failed
      otherwise; it is executed up to the first score and never more often than it has
      attempts left. */
  lemma {:induction false} SettledMeaning(row: Row, id: nat, plan: Plan)
    requires IsDue(row)
    ensures var last := Settled(row, id, plan);
            && last.status == (if exists n: nat :: row.retries <= n < MAX_RETRIES && plan(id, n).Scored? then Done else Failed)
            && last.batch == row.batch && last.caseId == row.caseId && last.version == row.version
    ensures 1 <= Executions(row, id, plan) <= MAX_RETRIES - row.retries
    ensures Settled(row, id, plan).status.Failed? ==> Executions(row, id, plan) == MAX_RETRIES - row.retries
    ensures Settled(row, id, plan).status.Done? ==> plan(id, row.retries + Executions(row, id, plan) - 1).Scored?
    decreases MAX_RETRIES - row.retries
  {
    var next := AfterAttempt(row, plan(id, row.retries));
    if !next.status.Done? && next.retries < MAX_RETRIES {
      SettledMeaning(next, id, plan);
      if n: nat :| row.retries <= n < MAX_RETRIES && plan(id, n).Scored? { assert next.retries <= n; }
    }
  }

  // ---------------------------------------------------------------- the work left

  /** The attempts that the pending rows have left: the measure of the runner's loop. */
  function Budget(rows: seq<Row>): nat {
    if rows == [] then 0
    else Budget(rows[..|rows| - 1]) + if IsDue(rows[|rows| - 1]) then MAX_RETRIES - rows[|rows| - 1].retries else 0
  }

  lemma {:induction false} BudgetUpdate(rows: seq<Row>, id: nat, row: Row)
    requires id < |rows|
    ensures Budget(rows[id := row]) == Budget(rows) - (if IsDue(rows[id]) then MAX_RETRIES - rows[id].retries else 0)
                                       + if IsDue(row) then MAX_RETRIES - row.retries else 0
  {
    var init := rows[..|rows| - 1];
    if id == |init| {
      assert rows[id := row][..|init|] == init;
    } else {
      BudgetUpdate(init, id, row);
      assert rows[id := row][..|init|] == init[id := row];
    }
  }

  /** No pending row has used up its attempts. */
  ghost predicate WellFormed(rows: seq<Row>) {
    forall i :: 0 <= i < |rows| && rows[i].status.Pending? ==> rows[i].retries < MAX_RETRIES
  }

  /** Each row will settle as it would have from the start, and what has been executed and
      what still will be adds up to what the start demands. */
  ghost predicate OnTrack(rows: seq<Row>, executed: seq<nat>, start: seq<Row>, plan: Plan) {
    && |executed| == |rows| == |start|
    && (forall i :: 0 <= i < |rows| ==> Settled(rows[i], i, plan) == Settled(start[i], i, plan))
    && (forall i :: 0 <= i < |rows| ==> executed[i] + Executions(rows[i], i, plan) == Executions(start[i], i, plan))
  }

  lemma OneTurn(rows: seq<Row>, executed: seq<nat>, start: seq<Row>, plan: Plan, id: nat)
    requires WellFormed(rows) && OnTrack(rows, executed, start, plan) && id < |rows| && IsDue(rows[id])
    ensures var next := rows[id := AfterAttempt(rows[id], plan(id, rows[id].retries))];
            WellFormed(next) && OnTrack(next, executed[id := executed[id] + 1], start, plan) && Budget(next) < Budget(rows)
  {
    BudgetUpdate(rows, id, AfterAttempt(rows[id], plan(id, rows[id].retries)));
  }

  lemma NothingDue(rows: seq<Row>, executed: seq<nat>, start: seq<Row>, plan: Plan)
    requires WellFormed(rows) && OnTrack(rows, executed, start, plan) && forall i :: 0 <= i < |rows| ==> !IsDue(rows[i])
    ensures forall i :: 0 <= i < |rows| ==> !rows[i].status.Pending? && rows[i] == Settled(start[i], i, plan)
    ensures forall i :: 0 <= i < |rows| ==> executed[i] == Executions(start[i], i, plan) <= MAX_RETRIES
  {
    forall i | 0 <= i < |rows|
      ensures !rows[i].status.Pending? && rows[i] == Settled(start[i], i, plan)
      ensures executed[i] == Executions(start[i], i, plan) <= MAX_RETRIES
    {
      assert !IsDue(rows[i]);
      if IsDue(start[i]) { SettledMeaning(start[i], i, plan); }
    }
  }

  function NewRow(batch: string, caseId: string, version: int, now: int): Row {
    Row(batch, caseId, version, now, Pending, 0, None, None, None)
  }

  function CaseRows(batch: string, cases: seq<string>, version: int, now: int): seq<Row> {
    seq(|cases|, c requires 0 <= c < |cases| => NewRow(batch, cases[c], version, now))
  }

  /** One row for each version and case, versions outermost. */
  function Product(batch: string, cases: seq<string>, versions: seq<int>, now: int): seq<Row> {
    if versions == [] then []
    else Product(batch, cases, versions[..|versions| - 1], now) + CaseRows(batch, cases, versions[|versions| - 1], now)
  }

  /** Triggered now, waiting for its first execution. */
  ghost predicate IsNew(row: Row, batch: string, now: int) {
    && row.batch == batch && row.ranAt == now && row.status.Pending? && row.retries == 0
    && row.trace.None? && row.score.None? && row.error.None?
  }

  /** Exactly the combinations of the two lists, each of them due. */
  lemma {:induction false} ProductMeaning(batch: string, cases: seq<string>, versions: seq<int>, now: int)
    ensures |Product(batch, cases, versions, now)| == |versions| * |cases|
    ensures forall row: Row :: row in Product(batch, cases, versions, now) <==>
              row.caseId in cases && row.version in versions && IsNew(row, batch, now)
  {
    if versions != [] {
      var init, last := versions[..|versions| - 1], versions[|versions| - 1];
      ProductMeaning(batch, cases, init, now);
      CaseRowsMeaning(batch, cases, last, now);
      InitAndLast(versions);
    }
  }

  lemma CaseRowsMeaning(batch: string, cases: seq<string>, version: int, now: int)
    ensures |CaseRows(batch, cases, version, now)| == |cases|
    ensures forall row: Row :: row in CaseRows(batch, cases, version, now) <==>
              row.caseId in cases && row.version == version && IsNew(row, batch, now)
  {
    forall row: Row | row.caseId in cases && row.version == version && IsNew(row, batch, now)
      ensures row in CaseRows(batch, cases, version, now)
    {
      var c :| 0 <= c < |cases| && cases[c] == row.caseId;
      assert CaseRows(batch, cases, version, now)[c] == row;
    }
  }

  lemma ProductNext(batch: string, cases: seq<string>, versions: seq<int>, now: int, v: nat, base: seq<Row>)
    requires v < |versions|
    ensures base + Product(batch, cases, versions[..v + 1], now) ==
            (base + Product(batch, cases, versions[..v], now)) + CaseRows(batch, cases[..|cases|], versions[v], now)
  {
    assert versions[..v + 1][..v] == versions[..v] && cases[..|cases|] == cases;
  }

  /** How many rows of the batch have one of these statuses. */
  function CountOf(rows: seq<Row>, batch: string, statuses: set<Status>): nat {
    if rows == [] then 0
    else
      var last := rows[|rows| - 1];
      CountOf(rows[..|rows| - 1], batch, statuses) + if last.batch == batch && last.status in statuses then 1 else 0
  }

  lemma {:induction false} CountsAdd(rows: seq<Row>, batch: string)
    ensures CountOf(rows, batch, {Pending, Running, Evaluating, Done, Failed}) ==
            CountOf(rows, batch, {Pending, Running, Evaluating}) + CountOf(rows, batch, {Done}) + CountOf(rows, batch, {Failed})
  {
    if rows != [] { CountsAdd(rows[..|rows| - 1], batch); }
  }

  lemma {:induction false} CountNone(rows: seq<Row>, batch: string, statuses: set<Status>)
    ensures CountOf(rows, batch, statuses) == 0 <==> forall i :: 0 <= i < |rows| && rows[i].batch == batch ==> rows[i].status !in statuses
  {
    if rows != [] {
      CountNone(rows[..|rows| - 1], batch, statuses);
      assert forall i :: 0 <= i < |rows| - 1 ==> rows[..|rows| - 1][i] == rows[i];
    }
  }

  lemma CountsMeaning(rows: seq<Row>, batch: string)
    ensures var all, done, failed := CountOf(rows, batch, {Pending, Running, Evaluating, Done, Failed}),
                                     CountOf(rows, batch, {Done}), CountOf(rows, batch, {Failed});
            && done + failed <= all
            && (all == 0 <==> forall i :: 0 <= i < |rows| ==> rows[i].batch != batch)
            && (done + failed == all <==> forall i :: 0 <= i < |rows| && rows[i].batch == batch ==> IsEnded(rows[i]))
            && (done == all <==> forall i :: 0 <= i < |rows| && rows[i].batch == batch ==> rows[i].status.Done?)
            && (failed == all <==> forall i :: 0 <= i < |rows| && rows[i].batch == batch ==> rows[i].status.Failed?)
  {
    var others := CountOf(rows, batch, {Pending, Running, Evaluating});
    CountsAdd(rows, batch);
    CountNone(rows, batch, {Pending, Running, Evaluating});
    CountNone(rows, batch, {Done});
    CountNone(rows, batch, {Failed});
    assert others == 0 <==> forall i :: 0 <= i < |rows| && rows[i].batch == batch ==> IsEnded(rows[i]);
  }

  class BenchmarkRuns {
    var rows: seq<Row>

    constructor ()
      ensures rows == []
    {
      rows := [];
    }

    /** `create_batch`. */
    method CreateBatch(batch: string, cases: seq<string>, versions: seq<int>, now: int)
      requires WellFormed(rows)
      modifies this
      ensures WellFormed(rows) && rows == old(rows) + Product(batch, cases, versions, now)
    {
      for v := 0 to |versions|
        invariant WellFormed(rows) && rows == old(rows) + Product(batch, cases, versions[..v], now)
      {
        ghost var before := rows;
        for c := 0 to |cases|
          invariant WellFormed(rows) && rows == before + CaseRows(batch, cases[..c], versions[v], now)
        {
          rows := rows + [NewRow(batch, cases[c], versions[v], now)];
        }
        ProductNext(batch, cases, versions, now, v, old(rows));
      }
      assert versions[..|versions|] == versions;
    }

    /** `get_pending(limit=1)`: the due row that was triggered first. */
    method GetPending() returns (id: Option<nat>)
      ensures id.Some? ==> id.value < |rows| && IsDue(rows[id.value])
      ensures id.Some? ==> forall j :: 0 <= j < |rows| && IsDue(rows[j]) ==> rows[id.value].ranAt <= rows[j].ranAt
      ensures id.None? ==> forall j :: 0 <= j < |rows| ==> !IsDue(rows[j])
    {
      id := None;
      for i := 0 to |rows|
        invariant id.Some? ==> id.value < i && IsDue(rows[id.value])
        invariant id.Some? ==> forall j :: 0 <= j < i && IsDue(rows[j]) ==> rows[id.value].ranAt <= rows[j].ranAt
        invariant id.None? ==> forall j :: 0 <= j < i ==> !IsDue(rows[j])
      {
        if IsDue(rows[i]) && (id.None? || rows[i].ranAt < rows[id.value].ranAt) { id := Some(i); }
      }
    }

    method Update(id: nat, row: Row)
      requires id < |rows|
      modifies this
      ensures rows == old(rows)[id := row]
    {
      rows := rows[id := row];
    }

    /** `_execute_one` with its exception handler, one table update at a time. */
    method ExecuteOne(id: nat, attempt: Attempt)
      requires id < |rows|
      modifies this
      ensures rows == old(rows)[id := AfterAttempt(old(rows)[id], attempt)]
    {
      Update(id, rows[id].(status := Running));
      match attempt
      case FailsEarly(error) =>
        MarkFailed(id, error);
      case FailsLate(trace, error) =>
        Update(id, rows[id].(status := Evaluating, trace := Some(trace)));
        MarkFailed(id, error);
      case Scored(trace, score) =>
        Update(id, rows[id].(status := Evaluating, trace := Some(trace)));
        Update(id, rows[id].(status := Done, score := Some(score)));
    }

    method MarkFailed(id: nat, error: string)
      requires id < |rows|
      modifies this
      ensures rows == old(rows)[id := AfterFailure(old(rows)[id], error)]
    {
      var retries := rows[id].retries + 1;
      var status := if retries >= MAX_RETRIES then Failed else Pending;
      Update(id, rows[id].(status := status, retries := retries, error := Some(Short(error))));
    }

    /** `_run_batch_sync`: it ends, leaves nothing pending, executes each row as often as its
        own attempts demand, and gives each row the result that its own attempts determine. */
    method RunBatch(plan: Plan) returns (ghost executed: seq<nat>)
      requires WellFormed(rows)
      modifies this
      ensures |rows| == |executed| == |old(rows)|
      ensures forall i :: 0 <= i < |rows| ==> !rows[i].status.Pending? && rows[i] == Settled(old(rows)[i], i, plan)
      ensures forall i :: 0 <= i < |rows| ==> executed[i] == Executions(old(rows)[i], i, plan) <= MAX_RETRIES
    {
      executed := seq(|rows|, i => 0);
      var pending: Option<nat> := GetPending();
      while pending.Some?
        invariant WellFormed(rows) && OnTrack(rows, executed, old(rows), plan)
        invariant pending.Some? ==> pending.value < |rows| && IsDue(rows[pending.value])
        invariant pending.None? ==> forall j :: 0 <= j < |rows| ==> !IsDue(rows[j])
        decreases Budget(rows)
      {
        var id := pending.value;
        OneTurn(rows, executed, old(rows), plan, id);
        executed := executed[id := executed[id] + 1];
        ExecuteOne(id, plan(id, rows[id].retries));
        pending := GetPending();
      }
      NothingDue(rows, executed, old(rows), plan);
    }

    /** `get_batch`: what its progress numbers and its status word say about the rows. */
    method GetBatch(batch: string) returns (total: nat, done: nat, failed: nat, active: int, word: string)
      ensures total == done + failed + active && active >= 0
      ensures total == CountOf(rows, batch, {Pending, Running, Evaluating, Done, Failed})
      ensures done == CountOf(rows, batch, {Done}) && failed == CountOf(rows, batch, {Failed})
      ensures word in {"not_found", "running", "done", "failed", "partial"}
      ensures word == "not_found" <==> forall i :: 0 <= i < |rows| ==> rows[i].batch != batch
      ensures word == "running" <==> exists i :: 0 <= i < |rows| && rows[i].batch == batch && !IsEnded(rows[i])
      ensures word == "done" <==> word != "not_found" && forall i :: 0 <= i < |rows| && rows[i].batch == batch ==> rows[i].status.Done?
      ensures word == "failed" <==> word != "not_found" && forall i :: 0 <= i < |rows| && rows[i].batch == batch ==> rows[i].status.Failed?
    {
      total, done, failed := 0, 0, 0;
      for i := 0 to |rows|
        invariant total == CountOf(rows[..i], batch, {Pending, Running, Evaluating, Done, Failed})
        invariant done == CountOf(rows[..i], batch, {Done}) && failed == CountOf(rows[..i], batch, {Failed})
      {
        assert rows[..i + 1][..i] == rows[..i];
        if rows[i].batch == batch {
          total := total + 1;
          if rows[i].status.Done? { done := done + 1; }
          if rows[i].status.Failed? { failed := failed + 1; }
        }
      }
      assert rows[..|rows|] == rows;
      active := total - done - failed;
      CountsMeaning(rows, batch);
      word := if total == 0 then "not_found" else if active > 0 then "running"
              else if failed > 0 then if done > 0 then "partial" else "failed" else "done";
    }
  }

  predicate IsEnded(row: Row) {
    row.status.Done? || row.status.Failed?
  }
}
