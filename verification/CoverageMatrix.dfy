/** The contract coverage matrix, the deterministic gate of a dossier: what the contract
    promises against what the trace delivered. */
module CoverageMatrix {
  import opened Wrappers
  import opened Text

  datatype Artifact = Artifact(kind: string, isRequired: bool, desc: string)

  /** The parsed demand. `fields` are the contract fields that were found; an expectation the
      demand does not state is `None`, or an empty list of subagents. */
  datatype Contract = Contract(promised: seq<Artifact>, stages: seq<string>, fields: set<string>,
                               memoryRequired: Option<bool>, subagents: seq<string>, reviewRequired: Option<bool>)

  /** What the trace shows: files by delivering agent, the reviewers of its review chain (an
      entry without a reviewer is the empty string), and the counts of its metrics. */
  datatype Facts = Facts(deliveries: map<string, set<string>>, reviewers: seq<string>, memoryParticipated: bool,
                         memoryOk: nat, reviewCalls: nat)

  datatype Verdict = Covered | Missing | NotApplicable

  datatype Item = Item(dim: string, key: string, verdict: Verdict)

  datatype Matrix = Matrix(items: seq<Item>, missing: nat, covered: nat, na: nat, complete: bool)

  const CONTRACT_FIELDS := ["user_goal", "hard_constraints", "style_preferences", "scope"]

  function AgentFor(kind: string): Option<string> {
    if kind == "demand" then Some("interview")
    else if kind in {"character", "worldview", "storyline"} then Some("storybuilding")
    else if kind == "detail" then Some("detail-outline")
    else if kind == "chapter" then Some("writing")
    else None
  }

  predicate Within(part: string, s: string) {
    Find(s, part).Some?
  }

  predicate StageMatchesReviewer(stage: string, reviewer: string) {
    || (stage == "writing" && Within("writing-review", reviewer))
    || (stage == "storybuilding" && Within("storybuilding-review", reviewer))
    || (stage == "detail-outline" && Within("detail-outline-review", reviewer))
  }

  predicate Delivered(facts: Facts, agent: string) {
    agent in facts.deliveries
  }

  predicate Reviewed(facts: Facts, stage: string) {
    exists i :: 0 <= i < |facts.reviewers| && StageMatchesReviewer(stage, facts.reviewers[i])
  }

  /** The subagent shows up among the delivering agents or the reviewers. */
  predicate Appears(facts: Facts, agent: string) {
    agent in facts.deliveries || (agent != "" && agent in facts.reviewers)
  }

  predicate MemoryTookPart(facts: Facts) {
    facts.memoryParticipated || facts.memoryOk >= 1
  }

  predicate ReviewTookPlace(facts: Facts) {
    facts.reviewCalls >= 1 || facts.reviewers != []
  }

  function When(ok: bool): Verdict {
    if ok then Covered else Missing
  }

  // ---------------------------------------------------------------- the items

  function ArtifactItem(art: Artifact, facts: Facts): Item {
    var agent := AgentFor(art.kind);
    Item("promised_artifact", art.kind + ":" + art.desc,
         if agent.None? || !art.isRequired then NotApplicable else When(Delivered(facts, agent.value)))
  }

  function StageItem(stage: string, facts: Facts): Item {
    Item("applicable_stage", stage, When(Delivered(facts, stage) || Reviewed(facts, stage)))
  }

  function FieldItem(field: string, contract: Contract): Item {
    Item("contract_field", field, When(field in contract.fields))
  }

  function MemoryItem(contract: Contract, facts: Facts): Item {
    Item("structural_omission", "memory_recalled",
         if contract.memoryRequired.None? then NotApplicable
         else When(MemoryTookPart(facts) || !contract.memoryRequired.value))
  }

  function SubagentItem(contract: Contract, facts: Facts): Item {
    Item("structural_omission", "subagents_complete",
         if contract.subagents == [] then NotApplicable
         else When(forall i :: 0 <= i < |contract.subagents| ==> Appears(facts, contract.subagents[i])))
  }

  function ReviewItem(contract: Contract, facts: Facts): Item {
    Item("structural_omission", "review_executed",
         if contract.reviewRequired.None? then NotApplicable
         else When(ReviewTookPlace(facts) || !contract.reviewRequired.value))
  }

  function ArtifactItems(promised: seq<Artifact>, facts: Facts): seq<Item> {
    seq(|promised|, i requires 0 <= i < |promised| => ArtifactItem(promised[i], facts))
  }

  function StageItems(stages: seq<string>, facts: Facts): seq<Item> {
    seq(|stages|, i requires 0 <= i < |stages| => StageItem(stages[i], facts))
  }

  function FieldItems(contract: Contract): seq<Item> {
    seq(|CONTRACT_FIELDS|, i requires 0 <= i < |CONTRACT_FIELDS| => FieldItem(CONTRACT_FIELDS[i], contract))
  }

  function Items(contract: Option<Contract>, facts: Facts): seq<Item> {
    match contract
    case None => [Item("contract_semantic", "demand_md_parse", Missing)]
    case Some(c) =>
      ArtifactItems(c.promised, facts) + StageItems(c.stages, facts) + FieldItems(c)
      + [MemoryItem(c, facts), SubagentItem(c, facts), ReviewItem(c, facts)]
  }

  /** The items by dimension and key: one for each promised artifact, each stage and each
      contract field, in order, and one for each of the three omissions. */
  lemma ItemsNamed(c: Contract, facts: Facts)
    ensures var items, p, s := Items(Some(c), facts), |c.promised|, |c.stages|;
            && |items| == p + s + 7
            && (forall i :: 0 <= i < p ==>
                  items[i].dim == "promised_artifact" && items[i].key == c.promised[i].kind + ":" + c.promised[i].desc)
            && (forall i :: 0 <= i < s ==> items[p + i].dim == "applicable_stage" && items[p + i].key == c.stages[i])
            && (forall i :: p + s <= i < p + s + 4 ==> items[i].dim == "contract_field")
            && items[p + s].key == "user_goal" && items[p + s + 1].key == "hard_constraints"
            && items[p + s + 2].key == "style_preferences" && items[p + s + 3].key == "scope"
            && (forall i :: p + s + 4 <= i < |items| ==> items[i].dim == "structural_omission")
            && items[p + s + 4].key == "memory_recalled" && items[p + s + 5].key == "subagents_complete"
            && items[p + s + 6].key == "review_executed"
  {
  }

  /** The verdicts: what is asked of the trace and there, what is asked and missing, and what
      nobody asks for. */
  lemma VerdictsMeaning(c: Contract, facts: Facts)
    ensures var items, p, s := Items(Some(c), facts), |c.promised|, |c.stages|;
            && (forall i :: 0 <= i < p ==> items[i].verdict == Judged(IsAsked(c.promised[i]), IsKept(c.promised[i], facts)))
            && (forall i :: 0 <= i < s ==>
                  items[p + i].verdict == Judged(true, c.stages[i] in facts.deliveries || HasReviewer(c.stages[i], facts)))
            && (forall i :: p + s <= i < p + s + 4 ==> items[i].verdict == Judged(true, items[i].key in c.fields))
            && items[p + s + 4].verdict == Judged(c.memoryRequired.Some?,
                 c.memoryRequired == Some(true) ==> facts.memoryParticipated || facts.memoryOk >= 1)
            && items[p + s + 5].verdict == Judged(c.subagents != [],
                 forall agent :: agent in c.subagents ==> agent in facts.deliveries || (agent != "" && agent in facts.reviewers))
            && items[p + s + 6].verdict == Judged(c.reviewRequired.Some?,
                 c.reviewRequired == Some(true) ==> facts.reviewCalls >= 1 || facts.reviewers != [])
  {
    var items, p, s := Items(Some(c), facts), |c.promised|, |c.stages|;
    forall i | 0 <= i < p ensures items[i].verdict == Judged(IsAsked(c.promised[i]), IsKept(c.promised[i], facts)) {
      assert items[i] == ArtifactItem(c.promised[i], facts);
    }
    forall i | 0 <= i < s
      ensures items[p + i].verdict == Judged(true, c.stages[i] in facts.deliveries || HasReviewer(c.stages[i], facts))
    {
      assert items[p + i] == StageItem(c.stages[i], facts);
      ReviewedMeaning(facts, c.stages[i]);
    }
    assert forall i :: p + s <= i < p + s + 4 ==> items[i] == FieldItem(CONTRACT_FIELDS[i - p - s], c);
    assert (forall agent :: agent in c.subagents ==> Appears(facts, agent))
      <==> forall i :: 0 <= i < |c.subagents| ==> Appears(facts, c.subagents[i]);
  }

  ghost function Judged(asked: bool, there: bool): Verdict {
    if !asked then NotApplicable else if there then Covered else Missing
  }

  ghost predicate IsAsked(art: Artifact) {
    art.isRequired && art.kind in {"demand", "character", "worldview", "storyline", "detail", "chapter"}
  }

  function CountOf(items: seq<Item>, verdict: Verdict): nat {
    if items == [] then 0
    else CountOf(items[..|items| - 1], verdict) + if items[|items| - 1].verdict == verdict then 1 else 0
  }

  /** `_compute_contract_coverage_matrix` with `_summarize_matrix`. */
  method ComputeMatrix(contract: Option<Contract>, facts: Facts) returns (m: Matrix)
    ensures m.items == Items(contract, facts)
    ensures m.missing == CountOf(m.items, Missing) && m.covered == CountOf(m.items, Covered) && m.na == CountOf(m.items, NotApplicable)
    ensures m.complete <==> forall i :: 0 <= i < |m.items| ==> !m.items[i].verdict.Missing?
  {
    if contract.None? {
      m := Summarize([Item("contract_semantic", "demand_md_parse", Missing)]);
      return;
    }
    var c := contract.value;
    var items: seq<Item> := [];
    for i := 0 to |c.promised|
      invariant items == ArtifactItems(c.promised[..i], facts)
    {
      items := items + [ArtifactItem(c.promised[i], facts)];
    }
    assert c.promised[..|c.promised|] == c.promised;
    for i := 0 to |c.stages|
      invariant items == ArtifactItems(c.promised, facts) + StageItems(c.stages[..i], facts)
    {
      items := items + [StageItem(c.stages[i], facts)];
    }
    assert c.stages[..|c.stages|] == c.stages;
    items := items + FieldItems(c) + [MemoryItem(c, facts), SubagentItem(c, facts), ReviewItem(c, facts)];
    m := Summarize(items);
  }

  method Summarize(items: seq<Item>) returns (m: Matrix)
    ensures m.items == items
    ensures m.missing == CountOf(items, Missing) && m.covered == CountOf(items, Covered) && m.na == CountOf(items, NotApplicable)
    ensures m.complete <==> forall i :: 0 <= i < |items| ==> !items[i].verdict.Missing?
  {
    var missing, covered, na := 0, 0, 0;
    for i := 0 to |items|
      invariant missing == CountOf(items[..i], Missing)
      invariant covered == CountOf(items[..i], Covered) && na == CountOf(items[..i], NotApplicable)
      invariant missing == 0 <==> forall j :: 0 <= j < i ==> !items[j].verdict.Missing?
    {
      assert items[..i + 1][..i] == items[..i];
      match items[i].verdict
      case Missing => missing := missing + 1;
      case Covered => covered := covered + 1;
      case NotApplicable => na := na + 1;
    }
    assert items[..|items|] == items;
    m := Matrix(items, missing, covered, na, missing == 0);
  }

  // ---------------------------------------------------------------- what completeness means

  ghost predicate Complete(contract: Option<Contract>, facts: Facts) {
    forall i :: 0 <= i < |Items(contract, facts)| ==> !Items(contract, facts)[i].verdict.Missing?
  }

  /** The agent that makes what was promised has delivered. */
  ghost predicate IsKept(art: Artifact, facts: Facts) {
    art.isRequired ==>
      && (art.kind == "demand" ==> "interview" in facts.deliveries)
      && (art.kind == "character" || art.kind == "worldview" || art.kind == "storyline" ==> "storybuilding" in facts.deliveries)
      && (art.kind == "detail" ==> "detail-outline" in facts.deliveries)
      && (art.kind == "chapter" ==> "writing" in facts.deliveries)
  }

  /** Some reviewer has the name of the stage with "-review" in its own, for the three stages
      that have reviewers. */
  ghost predicate HasReviewer(stage: string, facts: Facts) {
    && (stage == "writing" || stage == "storybuilding" || stage == "detail-outline")
    && exists i, k: nat :: 0 <= i < |facts.reviewers| && OccursAt(stage + "-review", facts.reviewers[i], k)
  }

  /** What the contract asks for, without a list of items. */
  ghost predicate Fulfilled(c: Contract, facts: Facts) {
    && (forall art :: art in c.promised ==> IsKept(art, facts))
    && (forall stage :: stage in c.stages ==> stage in facts.deliveries || HasReviewer(stage, facts))
    && "user_goal" in c.fields && "hard_constraints" in c.fields && "style_preferences" in c.fields && "scope" in c.fields
    && (c.memoryRequired == Some(true) ==> facts.memoryParticipated || facts.memoryOk >= 1)
    && (c.reviewRequired == Some(true) ==> facts.reviewCalls >= 1 || facts.reviewers != [])
    && (forall agent :: agent in c.subagents ==> agent in facts.deliveries || (agent != "" && agent in facts.reviewers))
  }

  lemma KeptMeaning(art: Artifact, facts: Facts)
    ensures IsKept(art, facts) <==> (art.isRequired && AgentFor(art.kind).Some? ==> Delivered(facts, AgentFor(art.kind).value))
  {
  }

  lemma ReviewedMeaning(facts: Facts, stage: string)
    ensures Reviewed(facts, stage) <==> HasReviewer(stage, facts)
  {
    assert "writing" + "-review" == "writing-review" && "storybuilding" + "-review" == "storybuilding-review";
    assert "detail-outline" + "-review" == "detail-outline-review";
    forall i | 0 <= i < |facts.reviewers|
      ensures StageMatchesReviewer(stage, facts.reviewers[i]) <==>
              && (stage == "writing" || stage == "storybuilding" || stage == "detail-outline")
              && exists k: nat :: OccursAt(stage + "-review", facts.reviewers[i], k)
    {
      FindMeaning(facts.reviewers[i], stage + "-review");
      assert forall k: nat :: k > |facts.reviewers[i]| ==> !OccursAt(stage + "-review", facts.reviewers[i], k);
    }
  }

  ghost predicate NoneMissing(items: seq<Item>) {
    forall i :: 0 <= i < |items| ==> !items[i].verdict.Missing?
  }

  lemma NoneMissingConcat(a: seq<Item>, b: seq<Item>)
    ensures NoneMissing(a + b) <==> NoneMissing(a) && NoneMissing(b)
  {
    if NoneMissing(a + b) {
      forall i | 0 <= i < |a| ensures !a[i].verdict.Missing? { assert (a + b)[i] == a[i]; }
      forall i | 0 <= i < |b| ensures !b[i].verdict.Missing? { assert (a + b)[|a| + i] == b[i]; }
    }
  }

  lemma ArtifactsExactly(promised: seq<Artifact>, facts: Facts)
    ensures NoneMissing(ArtifactItems(promised, facts)) <==>
            forall art :: art in promised && art.isRequired && AgentFor(art.kind).Some? ==> Delivered(facts, AgentFor(art.kind).value)
  {
    var items := ArtifactItems(promised, facts);
    forall i | 0 <= i < |promised| ensures items[i] == ArtifactItem(promised[i], facts) && promised[i] in promised {}
    if NoneMissing(items) {
      forall art | art in promised && art.isRequired && AgentFor(art.kind).Some? ensures Delivered(facts, AgentFor(art.kind).value) {
        var i :| 0 <= i < |promised| && promised[i] == art;
        assert !items[i].verdict.Missing?;
      }
    }
  }

  lemma StagesExactly(stages: seq<string>, facts: Facts)
    ensures NoneMissing(StageItems(stages, facts)) <==>
            forall stage :: stage in stages ==> Delivered(facts, stage) || Reviewed(facts, stage)
  {
    var items := StageItems(stages, facts);
    forall i | 0 <= i < |stages| ensures items[i] == StageItem(stages[i], facts) && stages[i] in stages {}
    if NoneMissing(items) {
      forall stage | stage in stages ensures Delivered(facts, stage) || Reviewed(facts, stage) {
        var i :| 0 <= i < |stages| && stages[i] == stage;
        assert !items[i].verdict.Missing?;
      }
    }
  }

  lemma FieldsExactly(c: Contract)
    ensures NoneMissing(FieldItems(c)) <==> forall field :: field in CONTRACT_FIELDS ==> field in c.fields
  {
    var items := FieldItems(c);
    forall i | 0 <= i < |CONTRACT_FIELDS| ensures items[i] == FieldItem(CONTRACT_FIELDS[i], c) && CONTRACT_FIELDS[i] in CONTRACT_FIELDS {}
    if NoneMissing(items) {
      forall field | field in CONTRACT_FIELDS ensures field in c.fields {
        var i :| 0 <= i < |CONTRACT_FIELDS| && CONTRACT_FIELDS[i] == field;
        assert !items[i].verdict.Missing?;
      }
    }
  }

  lemma OmissionsExactly(c: Contract, facts: Facts)
    ensures NoneMissing([MemoryItem(c, facts), SubagentItem(c, facts), ReviewItem(c, facts)]) <==>
            && (c.memoryRequired == Some(true) ==> MemoryTookPart(facts))
            && (c.reviewRequired == Some(true) ==> ReviewTookPlace(facts))
            && (forall agent :: agent in c.subagents ==> Appears(facts, agent))
  {
    var items := [MemoryItem(c, facts), SubagentItem(c, facts), ReviewItem(c, facts)];
    assert NoneMissing(items) <==> !items[0].verdict.Missing? && !items[1].verdict.Missing? && !items[2].verdict.Missing?;
    assert (forall agent :: agent in c.subagents ==> Appears(facts, agent))
      <==> forall i :: 0 <= i < |c.subagents| ==> Appears(facts, c.subagents[i]);
  }

  /** A matrix is complete exactly when there is a contract and the trace fulfils it. */
  lemma CompleteExactly(contract: Option<Contract>, facts: Facts)
    ensures Complete(contract, facts) <==> contract.Some? && Fulfilled(contract.value, facts)
  {
    match contract
    case None =>
      assert Items(contract, facts)[0].verdict.Missing?;
    case Some(c) =>
      var artifacts, stages, fields := ArtifactItems(c.promised, facts), StageItems(c.stages, facts), FieldItems(c);
      var omissions := [MemoryItem(c, facts), SubagentItem(c, facts), ReviewItem(c, facts)];
      NoneMissingConcat(artifacts, stages);
      NoneMissingConcat(artifacts + stages, fields);
      NoneMissingConcat(artifacts + stages + fields, omissions);
      ArtifactsExactly(c.promised, facts);
      StagesExactly(c.stages, facts);
      FieldsExactly(c);
      forall art | art in c.promised ensures IsKept(art, facts) <==>
        (art.isRequired && AgentFor(art.kind).Some? ==> Delivered(facts, AgentFor(art.kind).value)) { KeptMeaning(art, facts); }
      forall stage | stage in c.stages ensures Reviewed(facts, stage) <==> HasReviewer(stage, facts) { ReviewedMeaning(facts, stage); }
      OmissionsExactly(c, facts);
      assert Complete(contract, facts) <==> NoneMissing(Items(contract, facts));
  }

  /** More deliveries, reviewers, recalls or review calls. */
  ghost predicate Grows(before: Facts, after: Facts) {
    && before.deliveries.Keys <= after.deliveries.Keys
    && (forall r :: r in before.reviewers ==> r in after.reviewers)
    && (before.memoryParticipated ==> after.memoryParticipated)
    && before.memoryOk <= after.memoryOk && before.reviewCalls <= after.reviewCalls
  }

  /** Growing evidence never turns a complete matrix incomplete. */
  lemma CompleteStays(contract: Option<Contract>, before: Facts, after: Facts)
    requires Grows(before, after) && Complete(contract, before)
    ensures Complete(contract, after)
  {
    CompleteExactly(contract, before);
    CompleteExactly(contract, after);
    var c := contract.value;
    forall stage | HasReviewer(stage, before) ensures HasReviewer(stage, after) {
      var i, k: nat :| 0 <= i < |before.reviewers| && OccursAt(stage + "-review", before.reviewers[i], k);
      assert before.reviewers[i] in after.reviewers;
    }
    if before.reviewers != [] { assert before.reviewers[0] in after.reviewers; }
  }
}
