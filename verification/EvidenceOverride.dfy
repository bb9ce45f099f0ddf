/** The manual approval of a cancelled trace, and what it means for the two places that
    read it: the full assessment and the query that lists the candidates. */
module EvidenceOverride {
  import opened Wrappers
  import opened Collecting
  import opened Eligibility

  /** A row of the table of runs: the columns read by the gate, and the audit columns of the
      approval. */
  datatype StoredRun = StoredRun(row: RunRow, approver: Option<string>, reason: Option<string>, approvedAt: Option<string>)

  datatype OverrideError = EmptyReason | UnknownTrace | NotCancelled | NotUserStop

  /** What the two writers of the approval leave in a row: never approved, approved, or
      approved and then revoked at a time that is not empty. */
  predicate Written(row: RunRow) {
    || (row.approved == 0 && row.revokedAt.None?)
    || (row.approved == 1 && row.revokedAt != Some(""))
  }

  /** On such rows the assessment and the candidate query agree: Python's truth of the two
      columns and the comparisons in the WHERE clause select the same sources. */
  lemma QueryAgainstAssessment(row: RunRow)
    requires Written(row)
    ensures SourceAccepted(row) <==> QuerySelects(row)
  {
  }

  /** Of a cancelled run, the gate wants a user stop that is approved and not revoked. */
  predicate Approvable(row: RunRow) {
    row.status == "cancelled" && row.auditReason == Some("user_stop")
  }

  /** A verified creation run of the executor that completed, or that its user stopped and whose
      evidence is approved, with no revocation since. */
  ghost predicate MayBeSource(row: RunRow) {
    && row.schemaVersion > 1 && row.service == "executor" && row.workload == "creation" && row.integrity == "verified"
    && (row.status != "completed" ==>
          && row.status == "cancelled" && row.auditReason == Some("user_stop") && row.approved == 1
          && forall time :: row.revokedAt == Some(time) ==> time == "")
  }

  /** A change to the runs by a caller of this model. */
  datatype Step =
    | Insert(trace: string, row: RunRow)   // a run is ingested
    | Rewrite(trace: string, row: RunRow)  // some other writer changes other columns
    | Approve(trace: string, approver: string, reason: string)
    | Revoke(trace: string)

  class Runs {
    var runs: map<string, StoredRun>

    constructor ()
      ensures runs == map[] && Valid()
    {
      runs := map[];
    }

    predicate Valid()
      reads this
    {
      forall t <- runs.Keys :: Written(runs[t].row)
    }

    /** A new row has the defaults of the approval columns; a known run keeps its row. */
    method Insert(trace: string, row: RunRow)
      requires Valid()
      modifies this
      ensures Valid()
      ensures runs == if trace in old(runs) then old(runs)
                      else old(runs)[trace := StoredRun(row.(approved := 0, revokedAt := None), None, None, None)]
    {
      if trace !in runs {
        runs := runs[trace := StoredRun(row.(approved := 0, revokedAt := None), None, None, None)];
      }
    }

    /** Any other update leaves the approval columns alone. */
    method Rewrite(trace: string, row: RunRow)
      requires Valid()
      modifies this
      ensures Valid()
      ensures runs.Keys == old(runs).Keys
      ensures forall t :: t in runs && t != trace ==> runs[t] == old(runs)[t]
      ensures trace in runs ==>
                && runs[trace] == old(runs)[trace].(row := runs[trace].row)
                && runs[trace].row == row.(approved := old(runs)[trace].row.approved, revokedAt := old(runs)[trace].row.revokedAt)
    {
      if trace in runs {
        var stored := runs[trace];
        runs := runs[trace := stored.(row := row.(approved := stored.row.approved, revokedAt := stored.row.revokedAt))];
      }
    }

    /** Approve a cancelled run. The answer names the approver. Afterwards the run is an
        approved user stop. The first approver stays until a revocation. */
    method Approve(trace: string, approver: string, reason: string, now: string) returns (r: Result<string, OverrideError>)
      requires Valid()
      modifies this
      ensures Valid()
      ensures r.Err? ==> runs == old(runs)
      ensures r == Err(EmptyReason) <==> IsBlank(reason)
      ensures r == Err(UnknownTrace) <==> !IsBlank(reason) && trace !in old(runs)
      ensures r.Ok? <==> && !IsBlank(reason) && trace in old(runs)
                         && old(runs)[trace].row.status == "cancelled" && old(runs)[trace].row.auditReason == Some("user_stop")
      ensures r.Ok? ==> runs.Keys == old(runs).Keys && (forall t :: t in runs && t != trace ==> runs[t] == old(runs)[t])
      ensures r.Ok? ==>
                && IsApprovedUserStop(runs[trace].row)
                && runs[trace].row == old(runs)[trace].row.(approved := 1, revokedAt := None)
                && (if IsApprovedUserStop(old(runs)[trace].row)
                    then runs == old(runs)
                    else runs[trace].approver == Some(approver) && runs[trace].reason == Some(Stripped(reason))
                         && runs[trace].approvedAt == Some(now))
      ensures r.Ok? ==> r.value == if old(runs)[trace].row.approved == 1 && old(runs)[trace].approver.GetOr("") != ""
                                   then old(runs)[trace].approver.value else approver
    {
      var text := Stripped(reason);
      StrippedEmpty(reason);
      if text == "" { return Err(EmptyReason); }
      if trace !in runs { return Err(UnknownTrace); }
      var stored := runs[trace];
      if stored.row.status != "cancelled" { return Err(NotCancelled); }
      if stored.row.auditReason != Some("user_stop") { return Err(NotUserStop); }
      var approved := StoredRun(stored.row.(approved := 1, revokedAt := None), Some(approver), Some(text), Some(now));
      if stored.row.approved == 0 {
        runs := runs[trace := approved];
        return Ok(approver);
      }
      if stored.row.revokedAt.GetOr("") != "" { runs := runs[trace := approved]; }
      return Ok(if stored.approver.GetOr("") != "" then stored.approver.value else approver);
    }

    /** Withdraw an approval. Only the time of the revocation is set, and only if an
        approval is in force; afterwards none is. */
    method Revoke(trace: string, now: string) returns (r: Result<bool, OverrideError>)
      requires Valid() && now != ""
      modifies this
      ensures Valid()
      ensures r == if trace in old(runs) then Ok(InForce(old(runs)[trace].row)) else Err(UnknownTrace)
      ensures runs == if r == Ok(true)
                      then old(runs)[trace := old(runs)[trace].(row := old(runs)[trace].row.(revokedAt := Some(now)))]
                      else old(runs)
      ensures r.Ok? ==> !IsApprovedUserStop(runs[trace].row) && !InForce(runs[trace].row)
    {
      if trace !in runs { return Err(UnknownTrace); }
      var stored := runs[trace];
      if stored.row.approved == 0 || stored.row.revokedAt.GetOr("") != "" { return Ok(false); }
      runs := runs[trace := stored.(row := stored.row.(revokedAt := Some(now)))];
      return Ok(true);
    }

    /** Whatever the calls and their order: in every row that is ever stored, the assessment
        and the query agree, and a run is accepted as a cancelled source exactly while an
        approval of it is in force. */
    method Run(steps: seq<Step>, times: seq<string>)
      requires Valid() && |times| == |steps| && forall i :: 0 <= i < |times| ==> times[i] != ""
      modifies this
      ensures Valid()
      ensures forall t :: t in runs ==> (SourceAccepted(runs[t].row) <==> QuerySelects(runs[t].row))
      ensures forall t :: t in runs ==> (SourceAccepted(runs[t].row) <==> MayBeSource(runs[t].row))
      ensures forall t :: t in runs && Approvable(runs[t].row) ==> (IsApprovedUserStop(runs[t].row) <==> InForce(runs[t].row))
      ensures forall t :: t in old(runs) ==> t in runs
    {
      for i := 0 to |steps|
        invariant Valid() && forall t :: t in old(runs) ==> t in runs
      {
        match steps[i] {
          case Insert(trace, row) => Insert(trace, row);
          case Rewrite(trace, row) => Rewrite(trace, row);
          case Approve(trace, approver, reason) => var _ := Approve(trace, approver, reason, times[i]);
          case Revoke(trace) => var _ := Revoke(trace, times[i]);
        }
      }
      forall t | t in runs
        ensures (SourceAccepted(runs[t].row) <==> QuerySelects(runs[t].row)) && (SourceAccepted(runs[t].row) <==> MayBeSource(runs[t].row))
      {
        QueryAgainstAssessment(runs[t].row);
      }
    }
  }

  /** Approved and not revoked since. */
  predicate InForce(row: RunRow) {
    row.approved != 0 && row.revokedAt.GetOr("") == ""
  }

  /** `reason.strip()`. */
  function Stripped(s: string): string {
    if s == "" then ""
    else if IsBlank(s[..1]) then Stripped(s[1..])
    else if IsBlank(s[|s| - 1..]) then Stripped(s[..|s| - 1])
    else s
  }

  lemma {:induction false} StrippedEmpty(s: string)
    ensures Stripped(s) == "" <==> IsBlank(s)
    decreases |s|
  {
    if s != "" {
      assert s == s[..1] + s[1..];
      assert s == s[..|s| - 1] + s[|s| - 1..];
      if IsBlank(s[..1]) {
        assert s[..1][0] == s[0];
        StrippedEmpty(s[1..]);
      } else if IsBlank(s[|s| - 1..]) {
        assert s[|s| - 1..][0] == s[|s| - 1];
        StrippedEmpty(s[..|s| - 1]);
      }
    }
  }

  predicate StartsBlank(s: string) {
    s != "" && IsBlank(s[..1])
  }

  predicate EndsBlank(s: string) {
    s != "" && IsBlank(s[|s| - 1..])
  }

  /** What is left of a reason: blanks go in front and behind, and none is left there. */
  lemma {:induction false} StrippedMeaning(s: string) returns (front: string, back: string)
    ensures s == front + Stripped(s) + back && IsBlank(front) && IsBlank(back)
    ensures !StartsBlank(Stripped(s)) && !EndsBlank(Stripped(s))
    decreases |s|
  {
    front, back := "", "";
    if StartsBlank(s) {
      front, back := StrippedMeaning(s[1..]);
      front := s[..1] + front;
      assert s == s[..1] + s[1..];
    } else if EndsBlank(s) {
      front, back := StrippedMeaning(s[..|s| - 1]);
      back := back + s[|s| - 1..];
      assert s == s[..|s| - 1] + s[|s| - 1..];
    }
  }

  /** Approving again after a revocation stores the new approver, but the answer still names
      the one whose approval was revoked. */
  method ApproveAgain(one: string, two: string, reason: string, now: string) returns (r: Result<string, OverrideError>, runs: Runs)
    requires one != "" && !IsBlank(reason) && now != ""
    ensures r == Ok(one)
    ensures "t" in runs.runs && runs.runs["t"].approver == Some(two) && IsApprovedUserStop(runs.runs["t"].row)
  {
    runs := new Runs();
    runs.Insert("t", RunRow(2, "executor", "creation", "verified", "cancelled", Some("user_stop"), 0, None));
    r := runs.Approve("t", one, reason, now);
    var _ := runs.Revoke("t", now);
    r := runs.Approve("t", two, reason, now);
  }
}
