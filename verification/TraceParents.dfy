/** The parent links of a projection form a forest: every link leads back in the list, to the
    run, to the node itself where its name says so, or nowhere for an early evaluation. */
module TraceParents {
  import opened Wrappers
  import opened Text
  import opened OrderedMap
  import opened TraceNodes
  import opened TraceStructure

  // ---------------------------------------------------------------- names

  lemma SuffixOf(name: string)
    ensures IsSubagent(name) <==> |name| >= 9 && name[|name| - 9..] == "-subagent"
  {
    var tail := name[if |name| >= 9 then |name| - 9 else 0..];
    if "-subagent" <= tail { assert |tail| == 9; assert tail == "-subagent"; }
  }

  lemma EvaluationChars(name: string, k: nat)
    requires OccursAt("-evaluation", name, k)
    ensures name[k] == '-' && name[k + 1] == 'e' && forall j :: k < j < k + 11 ==> name[j] != '-'
  {
    var mark := "-evaluation";
    assert forall i :: 0 <= i < 11 ==> name[k..k + 11][i] == mark[i];
    forall j | k < j < k + 11 ensures name[j] != '-' { assert name[j] == mark[j - k]; }
    assert name[k] == name[k..k + 11][0] && name[k + 1] == name[k..k + 11][1];
  }

  lemma SubagentChars(name: string, n: nat)
    requires OccursAt("-subagent", name, n)
    ensures name[n] == '-' && name[n + 1] == 's' && forall j :: n < j < n + 9 ==> name[j] != '-'
  {
    var tail := "-subagent";
    assert forall i :: 0 <= i < 9 ==> name[n..n + 9][i] == tail[i];
    forall j | n < j < n + 9 ensures name[j] != '-' { assert name[j] == tail[j - n]; }
    assert name[n] == name[n..n + 9][0] && name[n + 1] == name[n..n + 9][1];
  }

  /** "-evaluation" cannot reach into a final "-subagent". */
  lemma EvaluationBefore(name: string, k: nat)
    requires |name| >= 9 && OccursAt("-subagent", name, |name| - 9) && OccursAt("-evaluation", name, k)
    ensures k + 11 <= |name| - 9
  {
    EvaluationChars(name, k);
    SubagentChars(name, |name| - 9);
  }

  /** The agent that an evaluation subagent evaluates is a subagent too. */
  lemma PrimaryIsSubagent(name: string)
    requires IsSubagent(name)
    ensures IsSubagent(EvaluationPrimary(name))
  {
    SuffixOf(name);
    SuffixOf(EvaluationPrimary(name));
    FindMeaning(name, "-evaluation");
    if name != "evaluation-subagent" && Find(name, "-evaluation").Some? {
      var k := Find(name, "-evaluation").value;
      EvaluationBefore(name, k);
      var primary := EvaluationPrimary(name);
      assert primary == name[..k] + name[k + 11..];
      assert primary[|primary| - 9..] == name[|name| - 9..];
    }
  }

  // ---------------------------------------------------------------- links lead back

  /** When `n` is pushed behind `nodes`, its parent is there, unless `n` is an early evaluation
      or its own parent. */
  ghost predicate Placed(nodes: seq<Node>, n: Node) {
    && n.parent.Some?
    && (Listed(nodes, n.parent.value) || IsEarlyEvaluation(n) || n.parent == Some(n.id))
    && (n.id.AgentId? ==> !IsSubagent(n.id.name))
    && (n.id.InstanceId? ==> IsSubagent(n.id.name))
  }

  ghost predicate Ordered(nodes: seq<Node>) {
    forall i :: 0 <= i < |nodes| ==> Placed(nodes[..i], nodes[i])
  }

  lemma PushOrdered(nodes: seq<Node>, n: Node)
    requires Ordered(nodes) && Placed(nodes, n)
    ensures Ordered(nodes + [n])
  {
    var all := nodes + [n];
    forall i | 0 <= i < |all| ensures Placed(all[..i], all[i]) {
      if i < |nodes| { assert all[..i] == nodes[..i]; } else { assert all[..i] == nodes; }
    }
  }

  lemma {:induction false} PushAllOrdered(nodes: seq<Node>, more: seq<Node>)
    requires Ordered(nodes) && forall j :: 0 <= j < |more| ==> Placed(nodes, more[j])
    ensures Ordered(nodes + more)
    decreases |more|
  {
    if more == [] {
      assert nodes + more == nodes;
    } else {
      var n, rest := more[0], more[1..];
      PushOrdered(nodes, n);
      forall j | 0 <= j < |rest| ensures Placed(nodes + [n], rest[j]) {
        assert rest[j] == more[j + 1];
        PlacedLater(nodes, [n], rest[j]);
      }
      PushAllOrdered(nodes + [n], rest);
      assert nodes + more == (nodes + [n]) + rest;
    }
  }

  lemma PlacedLater(nodes: seq<Node>, more: seq<Node>, n: Node)
    requires Placed(nodes, n)
    ensures Placed(nodes + more, n)
  {
    if Listed(nodes, n.parent.value) { ListedMore(nodes, more, n.parent.value); }
  }

  lemma EnsureOrdered(s: State, e: TraceEvent)
    requires Closed(s) && Ordered(s.nodes)
    ensures Ordered(Ensure(s, e).nodes)
  {
    if Ensure(s, e).nodes != s.nodes {
      var n := Ensure(s, e).nodes[|s.nodes|];
      assert Ensure(s, e).nodes == s.nodes + [n];
      if IsSubagent(e.agent) { InstancePlaced(s, e, n); }
      PushOrdered(s.nodes, n);
    }
  }

  lemma InstancePlaced(s: State, e: TraceEvent, n: Node)
    requires Closed(s) && e.agent != "" && IsSubagent(e.agent) && OpensInstance(s, e)
    requires n == Ensure(s, e).nodes[|s.nodes|]
    ensures Placed(s.nodes, n)
  {
    var counter := Ensure(s, e).counter;
    var primary := EvaluationPrimary(e.agent);
    if IsEvaluation(e.agent) && primary in counter && primary != e.agent {
      assert primary in s.counter && Listed(s.nodes, InstanceId(primary, s.counter[primary]));
    }
  }

  lemma EndOrdered(s: State, e: TraceEvent)
    requires Closed(s) && HasAgent(s, e) && Ordered(s.nodes)
    ensures Ordered(StepEnd(s, e).nodes)
  {
    AgentListed(s, e);
    PushAllOrdered(s.nodes, EndNodes(s, e));
  }

  lemma StepOrdered(s: State, e: TraceEvent)
    requires Closed(s) && Ordered(s.nodes)
    ensures Ordered(Step(s, e).nodes)
  {
    if IsTask(e) {
      if !e.kind.ToolStart? { PushOrdered(s.nodes, TaskNode(e)); }
    } else if IsCall(e) {
      EnsureClosed(s, e);
      EnsureOrdered(s, e);
      if !IsStart(e) { EndOrdered(Ensure(s, e), e); }
    } else if e.kind.RunError? {
      PushOrdered(s.nodes, StepRunError(s, e).nodes[|s.nodes|]);
    }
  }

  lemma {:induction false} StateOrdered(es: seq<TraceEvent>)
    ensures Ordered(StateAfter(es).nodes)
  {
    if es != [] {
      StateClosed(es[..|es| - 1]);
      StateOrdered(es[..|es| - 1]);
      StepOrdered(StateAfter(es[..|es| - 1]), es[|es| - 1]);
    }
  }

  // ---------------------------------------------------------------- what is still running

  lemma {:induction false} QueueIds(counter: map<string, nat>, f: Family, queue: seq<TraceEvent>)
    ensures forall i :: 0 <= i < |RunningQueue(counter, f, queue)| ==> RunningQueue(counter, f, queue)[i].id.CallId?
  {
    if queue != [] { QueueIds(counter, f, queue[1..]); }
  }

  lemma {:induction false} RunningIds(counter: map<string, nat>, f: Family, pending: Pending)
    ensures forall i :: 0 <= i < |RunningCalls(counter, f, pending)| ==> RunningCalls(counter, f, pending)[i].id.CallId?
  {
    if pending != [] {
      QueueIds(counter, f, pending[0].1);
      RunningIds(counter, f, pending[1..]);
    }
  }

  lemma {:induction false} TaskIds(tasks: OrderedMap<TraceEvent>)
    ensures forall i :: 0 <= i < |RunningTasks(tasks)| ==> RunningTasks(tasks)[i].id.TaskId?
  {
    if tasks != [] { TaskIds(tasks[1..]); }
  }

  lemma FinishOrdered(s: State)
    requires Closed(s) && Ordered(s.nodes)
    ensures Ordered(Finish(s))
  {
    var llm, tool, tasks := RunningCalls(s.counter, Llm, s.llm), RunningCalls(s.counter, Tool, s.tool), RunningTasks(s.tasks);
    RunningParents(s, Llm, s.llm);
    RunningParents(s, Tool, s.tool);
    TaskParents(s.nodes, s.tasks);
    RunningIds(s.counter, Llm, s.llm);
    RunningIds(s.counter, Tool, s.tool);
    TaskIds(s.tasks);
    var more := llm + tool + tasks;
    forall j | 0 <= j < |more| ensures Placed(s.nodes, more[j]) {
      assert ParentListed(s.nodes, more[j]) && (more[j].id.CallId? || more[j].id.TaskId?);
    }
    PushAllOrdered(s.nodes, more);
    assert s.nodes + more == Finish(s);
  }

  // ---------------------------------------------------------------- the forest

  /** The parents of a projection, exactly. A parent is missing precisely for an evaluation
      agent that was opened before the agent it evaluates: a plain agent id of a subagent is
      never in the list. Any other parent is the run, the node itself, or further up in the
      list, so that the links have no cycle but a node that is its own parent. */
  lemma ParentsExactly(es: seq<TraceEvent>, i: nat)
    requires i < |Projection(es)|
    ensures var nodes := Projection(es);
            && nodes[i].parent.Some?
            && (Listed(nodes, nodes[i].parent.value) <==> !IsEarlyEvaluation(nodes[i]))
            && (!IsEarlyEvaluation(nodes[i]) && nodes[i].parent != Some(nodes[i].id) ==>
                  Listed(nodes[..i], nodes[i].parent.value))
  {
    var nodes := Projection(es);
    StateClosed(es);
    StateOrdered(es);
    FinishOrdered(StateAfter(es));
    assert Placed(nodes[..i], nodes[i]);
    if IsEarlyEvaluation(nodes[i]) {
      EarlyMissing(nodes, nodes[i]);
    } else if Listed(nodes[..i], nodes[i].parent.value) {
      assert nodes == nodes[..i] + nodes[i..];
      ListedMore(nodes[..i], nodes[i..], nodes[i].parent.value);
    }
  }

  lemma EarlyMissing(nodes: seq<Node>, n: Node)
    requires Ordered(nodes) && IsEarlyEvaluation(n) && IsSubagent(n.id.name)
    ensures !Listed(nodes, n.parent.value)
  {
    PrimaryIsSubagent(n.id.name);
    forall j | 0 <= j < |nodes| ensures nodes[j].id != n.parent.value { assert Placed(nodes[..j], nodes[j]); }
  }
}
