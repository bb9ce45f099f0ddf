/** The shape of a projection: parents are in the list, agent instances are numbered without
    gaps, task nodes follow the task events, and nodes and context segments point at each other. */
module TraceStructure {
  import opened Wrappers
  import opened Text
  import opened OrderedMap
  import opened TraceNodes

  // ---------------------------------------------------------------- parents

  ghost predicate Listed(nodes: seq<Node>, id: NodeId) {
    id == RunId || exists i :: 0 <= i < |nodes| && nodes[i].id == id
  }

  lemma ListedMore(nodes: seq<Node>, more: seq<Node>, id: NodeId)
    requires Listed(nodes, id)
    ensures Listed(nodes + more, id)
  {
    if id != RunId {
      var i :| 0 <= i < |nodes| && nodes[i].id == id;
      assert (nodes + more)[i].id == id;
    }
  }

  lemma ListedLast(nodes: seq<Node>, n: Node)
    ensures Listed(nodes + [n], n.id)
  {
    assert (nodes + [n])[|nodes|] == n;
  }

  /** The agent node of `e` has been pushed. */
  predicate HasAgent(s: State, e: TraceEvent) {
    e.agent == "" || (if IsSubagent(e.agent) then e.agent in s.counter else e.agent in s.mains)
  }

  /** The one parent that may be missing: an evaluation instance opened before its primary. */
  predicate IsEarlyEvaluation(n: Node) {
    n.id.InstanceId? && IsEvaluation(n.id.name) && n.parent == Some(AgentId(EvaluationPrimary(n.id.name)))
  }

  ghost predicate ParentListed(nodes: seq<Node>, n: Node) {
    n.parent.Some? && (Listed(nodes, n.parent.value) || IsEarlyEvaluation(n))
  }

  ghost predicate AgentsListed(s: State) {
    && (forall name :: name in s.mains ==> Listed(s.nodes, AgentId(name)))
    && (forall name, n: nat :: name in s.counter && 1 <= n <= s.counter[name] ==> Listed(s.nodes, InstanceId(name, n)))
    && (forall name :: name in s.counter ==> s.counter[name] >= 1)
    && s.lastTask.Keys <= s.counter.Keys
  }

  ghost predicate AllHaveAgents(s: State, pending: Pending) {
    forall i, j :: 0 <= i < |pending| && 0 <= j < |pending[i].1| ==> HasAgent(s, pending[i].1[j])
  }

  ghost predicate Closed(s: State) {
    && AgentsListed(s)
    && (forall i :: 0 <= i < |s.nodes| ==> ParentListed(s.nodes, s.nodes[i]))
    && AllHaveAgents(s, s.llm) && AllHaveAgents(s, s.tool)
  }

  lemma AgentListed(s: State, e: TraceEvent)
    requires AgentsListed(s) && HasAgent(s, e)
    ensures Listed(s.nodes, AgentOf(s.counter, e))
  {
  }

  /** Pushing a node whose parent is there keeps every parent there. */
  lemma PushListed(nodes: seq<Node>, n: Node)
    requires forall i :: 0 <= i < |nodes| ==> ParentListed(nodes, nodes[i])
    requires ParentListed(nodes + [n], n)
    ensures forall i :: 0 <= i < |nodes + [n]| ==> ParentListed(nodes + [n], (nodes + [n])[i])
  {
    forall i | 0 <= i < |nodes| ensures ParentListed(nodes + [n], (nodes + [n])[i]) {
      assert ParentListed(nodes, nodes[i]);
      if !IsEarlyEvaluation(nodes[i]) { ListedMore(nodes, [n], nodes[i].parent.value); }
    }
  }

  lemma PushAgents(s: State, n: Node)
    requires AgentsListed(s)
    ensures AgentsListed(s.(nodes := s.nodes + [n]))
  {
    forall name | name in s.mains ensures Listed(s.nodes + [n], AgentId(name)) { ListedMore(s.nodes, [n], AgentId(name)); }
    forall name, k: nat | name in s.counter && 1 <= k <= s.counter[name] ensures Listed(s.nodes + [n], InstanceId(name, k)) {
      ListedMore(s.nodes, [n], InstanceId(name, k));
    }
  }

  lemma PushClosed(s: State, n: Node)
    requires Closed(s) && ParentListed(s.nodes, n)
    ensures Closed(s.(nodes := s.nodes + [n]))
  {
    PushAgents(s, n);
    if !IsEarlyEvaluation(n) { ListedMore(s.nodes, [n], n.parent.value); }
    PushListed(s.nodes, n);
  }

  lemma EnsureMain(s: State, e: TraceEvent)
    requires Closed(s) && e.agent != "" && !IsSubagent(e.agent)
    ensures Closed(Ensure(s, e)) && HasAgent(Ensure(s, e), e)
  {
    if e.agent !in s.mains {
      var n := Node(AgentId(e.agent), Some(RunId), AgentKind, "completed", [e], None);
      PushClosed(s, n);
      ListedLast(s.nodes, n);
    }
  }

  lemma EnsureInstance(s: State, e: TraceEvent)
    requires Closed(s) && e.agent != "" && IsSubagent(e.agent) && OpensInstance(s, e)
    ensures Closed(Ensure(s, e)) && HasAgent(Ensure(s, e), e)
  {
    var t := Ensure(s, e);
    var k := t.counter[e.agent];
    var parent := InstanceParent(t.counter, e.agent);
    var n := Node(InstanceId(e.agent, k), Some(parent), AgentKind, "completed", [e], None);
    assert t.nodes == s.nodes + [n];
    PushAgents(s, n);
    ListedLast(s.nodes, n);
    assert AgentsListed(t);
    assert ParentListed(t.nodes, n);
    PushListed(s.nodes, n);
  }

  lemma EnsureClosed(s: State, e: TraceEvent)
    requires Closed(s)
    ensures Closed(Ensure(s, e)) && HasAgent(Ensure(s, e), e)
  {
    if e.agent != "" {
      if !IsSubagent(e.agent) { EnsureMain(s, e); } else if OpensInstance(s, e) { EnsureInstance(s, e); }
    }
  }

  lemma {:induction false} SetAgents(s: State, pending: Pending, key: string, queue: seq<TraceEvent>)
    requires AllHaveAgents(s, pending) && forall j :: 0 <= j < |queue| ==> HasAgent(s, queue[j])
    ensures AllHaveAgents(s, Set(pending, key, queue))
  {
    if pending != [] && pending[0].0 != key {
      assert forall i :: 0 <= i < |pending[1..]| ==> pending[1..][i] == pending[i + 1];
      SetAgents(s, pending[1..], key, queue);
    }
  }

  lemma {:induction false} DeleteAgents(s: State, pending: Pending, key: string)
    requires AllHaveAgents(s, pending)
    ensures AllHaveAgents(s, Delete(pending, key))
  {
    if pending != [] && pending[0].0 != key {
      assert forall i :: 0 <= i < |pending[1..]| ==> pending[1..][i] == pending[i + 1];
      DeleteAgents(s, pending[1..], key);
    }
  }

  lemma {:induction false} QueueAgents(s: State, pending: Pending, key: string)
    requires AllHaveAgents(s, pending)
    ensures forall j :: 0 <= j < |Queue(pending, key)| ==> HasAgent(s, Queue(pending, key)[j])
  {
    if pending != [] && pending[0].0 != key {
      assert forall i :: 0 <= i < |pending[1..]| ==> pending[1..][i] == pending[i + 1];
      QueueAgents(s, pending[1..], key);
      assert Queue(pending, key) == Queue(pending[1..], key);
    }
  }

  lemma StartClosed(s: State, e: TraceEvent)
    requires Closed(s) && HasAgent(s, e)
    ensures Closed(StepStart(s, e))
  {
    var pending := PendingOf(s, FamilyOf(e));
    QueueAgents(s, pending, PairKey(e));
    SetAgents(s, pending, PairKey(e), Queue(pending, PairKey(e)) + [e]);
    assert AllHaveAgents(s, Enqueue(pending, e));
  }

  lemma DequeueAgents(s: State, pending: Pending, key: string)
    requires AllHaveAgents(s, pending)
    ensures AllHaveAgents(s, Dequeue(pending, key))
  {
    QueueAgents(s, pending, key);
    if |Queue(pending, key)| <= 1 {
      DeleteAgents(s, pending, key);
    } else {
      SetAgents(s, pending, key, Queue(pending, key)[1..]);
    }
  }

  lemma PopClosed(s: State, f: Family, key: string)
    requires Closed(s)
    ensures Closed(WithPending(s, f, Dequeue(PendingOf(s, f), key)))
  {
    DequeueAgents(s, PendingOf(s, f), key);
  }

  /** Two nodes with the same listed parent. */
  lemma PushTwoClosed(s: State, a: Node, b: Node)
    requires Closed(s) && a.parent.Some? && b.parent == a.parent && Listed(s.nodes, a.parent.value)
    ensures Closed(s.(nodes := s.nodes + [a])) && Closed(s.(nodes := s.nodes + ([a] + [b])))
  {
    PushClosed(s, a);
    ListedMore(s.nodes, [a], a.parent.value);
    PushClosed(s.(nodes := s.nodes + [a]), b);
    Associate(s.nodes, [a], [b]);
  }

  lemma EndClosed(s: State, e: TraceEvent)
    requires Closed(s) && HasAgent(s, e)
    ensures Closed(StepEnd(s, e))
  {
    var popped := WithPending(s, FamilyOf(e), Dequeue(PendingOf(s, FamilyOf(e)), PairKey(e)));
    PopClosed(s, FamilyOf(e), PairKey(e));
    AgentListed(s, e);
    PushTwoClosed(popped, CallNode(s, e), TodoNode(s, e));
    AppendNothing([CallNode(s, e)]);
    var pushed := popped.(nodes := s.nodes + EndNodes(s, e));
    assert Closed(pushed);
    assert StepEnd(s, e) == pushed.(context := StepEnd(s, e).context, todos := StepEnd(s, e).todos);
  }

  lemma StepClosed(s: State, e: TraceEvent)
    requires Closed(s)
    ensures Closed(Step(s, e))
  {
    if IsTask(e) {
      if !e.kind.ToolStart? { PushClosed(s, TaskNode(e)); }
    } else if IsCall(e) {
      EnsureClosed(s, e);
      if IsStart(e) { StartClosed(Ensure(s, e), e); } else { EndClosed(Ensure(s, e), e); }
    } else if e.kind.RunError? {
      PushClosed(s, StepRunError(s, e).nodes[|s.nodes|]);
    }
  }

  lemma {:induction false} StateClosed(es: seq<TraceEvent>)
    ensures Closed(StateAfter(es))
  {
    if es != [] {
      StateClosed(es[..|es| - 1]);
      StepClosed(StateAfter(es[..|es| - 1]), es[|es| - 1]);
    }
  }

  ghost predicate ParentsIn(all: seq<Node>, nodes: seq<Node>) {
    forall i :: 0 <= i < |nodes| ==> ParentListed(all, nodes[i])
  }

  lemma {:induction false} QueueParents(s: State, f: Family, queue: seq<TraceEvent>)
    requires AgentsListed(s) && forall j :: 0 <= j < |queue| ==> HasAgent(s, queue[j])
    ensures ParentsIn(s.nodes, RunningQueue(s.counter, f, queue))
  {
    if queue != [] {
      AgentListed(s, queue[0]);
      QueueParents(s, f, queue[1..]);
    }
  }

  lemma {:induction false} RunningParents(s: State, f: Family, pending: Pending)
    requires AgentsListed(s) && AllHaveAgents(s, pending)
    ensures ParentsIn(s.nodes, RunningCalls(s.counter, f, pending))
  {
    if pending != [] {
      assert forall i :: 0 <= i < |pending[1..]| ==> pending[1..][i] == pending[i + 1];
      QueueParents(s, f, pending[0].1);
      RunningParents(s, f, pending[1..]);
    }
  }

  lemma {:induction false} TaskParents(all: seq<Node>, tasks: OrderedMap<TraceEvent>)
    ensures ParentsIn(all, RunningTasks(tasks))
  {
    if tasks != [] { TaskParents(all, tasks[1..]); }
  }

  ghost predicate Mentions(name: string, word: string) {
    exists k: nat :: OccursAt(word, name, k)
  }

  lemma SubagentMeaning(name: string)
    ensures IsSubagent(name) <==> exists front :: name == front + "-subagent"
  {
    if IsSubagent(name) {
      var k := if |name| >= 9 then |name| - 9 else 0;
      assert |name[k..]| == |"-subagent"|;
      assert name == name[..k] + "-subagent";
    }
    if front :| name == front + "-subagent" { assert name[|front|..] == "-subagent"; }
  }

  lemma MentionsFound(name: string, word: string)
    ensures Mentions(name, word) <==> Find(name, word).Some?
    ensures forall k: nat :: OccursAt(word, name, k) && (forall j: nat :: j < k ==> !OccursAt(word, name, j)) ==>
                               Find(name, word) == Some(k)
  {
    FindMeaning(name, word);
  }

  /** Where `e` opens an instance, its node hangs below the run, unless its name speaks of an
      evaluation: then below the latest instance of the agent it evaluates, or the agent itself
      if there is none. That agent is the outline's for "evaluation-subagent", and otherwise
      the one whose name is left when the first "-evaluation" is taken out. */
  lemma InstanceBelow(s: State, e: TraceEvent, primary: string)
    requires e.agent != "" && IsSubagent(e.agent) && OpensInstance(s, e)
    requires if e.agent == "evaluation-subagent" then primary == "outline-subagent"
             else if Mentions(e.agent, "-evaluation")
             then exists k: nat :: OccursAt("-evaluation", e.agent, k) && (forall j: nat :: j < k ==> !OccursAt("-evaluation", e.agent, j))
                                   && primary == e.agent[..k] + e.agent[k + |"-evaluation"|..]
             else primary == e.agent
    ensures var t := Ensure(s, e);
            && |t.nodes| == |s.nodes| + 1
            && t.nodes[|s.nodes|].parent ==
               Some(if !Mentions(e.agent, "evaluation") then RunId
                    else if primary in t.counter then InstanceId(primary, t.counter[primary]) else AgentId(primary))
  {
    MentionsFound(e.agent, "evaluation");
    PrimaryMeaning(e.agent, primary);
  }

  lemma PrimaryMeaning(agent: string, primary: string)
    requires if agent == "evaluation-subagent" then primary == "outline-subagent"
             else if Mentions(agent, "-evaluation")
             then exists k: nat :: OccursAt("-evaluation", agent, k) && (forall j: nat :: j < k ==> !OccursAt("-evaluation", agent, j))
                                   && primary == agent[..k] + agent[k + |"-evaluation"|..]
             else primary == agent
    ensures EvaluationPrimary(agent) == primary
  {
    MentionsFound(agent, "-evaluation");
    if agent != "evaluation-subagent" && Mentions(agent, "-evaluation") {
      var k: nat :| OccursAt("-evaluation", agent, k) && (forall j: nat :: j < k ==> !OccursAt("-evaluation", agent, j))
                    && primary == agent[..k] + agent[k + |"-evaluation"|..];
      assert Find(agent, "-evaluation") == Some(k);
      assert agent[..k] + "" == agent[..k];
    }
  }

  /** The instance that `e` opens is its own parent exactly when its name speaks of an
      evaluation but does not say whose: no "-evaluation" to strip, and not the outline's. */
  lemma OwnParentExactly(s: State, e: TraceEvent)
    requires e.agent != "" && IsSubagent(e.agent) && OpensInstance(s, e)
    ensures var n := Ensure(s, e).nodes[|s.nodes|];
            n.parent == Some(n.id) <==>
            Mentions(e.agent, "evaluation") && e.agent != "evaluation-subagent" && !Mentions(e.agent, "-evaluation")
  {
    MentionsFound(e.agent, "evaluation");
    MentionsFound(e.agent, "-evaluation");
    if Find(e.agent, "-evaluation").Some? {
      assert |EvaluationPrimary(e.agent)| < |e.agent| || e.agent == "evaluation-subagent";
    }
  }
}
