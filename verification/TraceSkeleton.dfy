/** Task nodes, agent instances and context anchors of a projection. */
module TraceSkeleton {
  import opened Wrappers
  import opened Text
  import opened OrderedMap
  import opened TraceNodes

  /** What `pick` reads off each node, in order. */
  function Collect<T>(nodes: seq<Node>, pick: Node -> seq<T>): seq<T> {
    if nodes == [] then [] else Collect(nodes[..|nodes| - 1], pick) + pick(nodes[|nodes| - 1])
  }

  lemma CollectOne<T>(nodes: seq<Node>, n: Node, pick: Node -> seq<T>)
    ensures Collect(nodes + [n], pick) == Collect(nodes, pick) + pick(n)
  {
    assert (nodes + [n])[..|nodes|] == nodes;
  }

  lemma {:induction false} CollectConcat<T>(a: seq<Node>, b: seq<Node>, pick: Node -> seq<T>)
    ensures Collect(a + b, pick) == Collect(a, pick) + Collect(b, pick)
    decreases |b|
  {
    if b == [] {
      assert a + b == a;
    } else {
      var init, last := b[..|b| - 1], b[|b| - 1];
      CollectConcat(a, init, pick);
      CollectOne(a + init, last, pick);
      AppendInitAndLast(a, b);
      Associate(Collect(a, pick), Collect(init, pick), pick(last));
    }
  }

  lemma {:induction false} CollectNothing<T>(nodes: seq<Node>, pick: Node -> seq<T>)
    requires forall i :: 0 <= i < |nodes| ==> pick(nodes[i]) == []
    ensures Collect(nodes, pick) == []
  {
    if nodes != [] { CollectNothing(nodes[..|nodes| - 1], pick); }
  }

  /** The other nodes that `e` adds. */
  function OthersAdded(s: State, e: TraceEvent): seq<Node> {
    if IsTask(e) then if e.kind.ToolStart? then [] else [TaskNode(e)]
    else if IsStart(e) then []
    else if IsCall(e) then EndNodes(Ensure(s, e), e)
    else if e.kind.RunError? then
      [Node(ErrorId(e.eventId), Some(RunId), ErrorKind, "failed", [e], Some(Anchor(e.sequence, |s.context| + 1)))]
    else []
  }

  function Added(s: State, e: TraceEvent): seq<Node> {
    (if IsCall(e) then AgentAdded(s, e) else []) + OthersAdded(s, e)
  }

  lemma OthersOnly(s: State, e: TraceEvent)
    requires !IsCall(e)
    ensures Added(s, e) == OthersAdded(s, e)
  {
  }

  lemma StepAdds(s: State, e: TraceEvent)
    ensures Step(s, e).nodes == s.nodes + Added(s, e)
  {
    if IsCall(e) {
      EnsureAdds(s, e);
      Associate(s.nodes, AgentAdded(s, e), OthersAdded(s, e));
    } else {
      OthersOnly(s, e);
    }
  }

  /** What a node that an event adds contributes. */
  lemma AddedCollect<T>(s: State, e: TraceEvent, pick: Node -> seq<T>)
    ensures Collect(Step(s, e).nodes, pick) == Collect(s.nodes, pick) + Collect(Added(s, e), pick)
  {
    StepAdds(s, e);
    CollectConcat(s.nodes, Added(s, e), pick);
  }

  lemma CollectSingle<T>(n: Node, pick: Node -> seq<T>)
    ensures Collect([n], pick) == pick(n)
  {
    CollectOne([], n, pick);
    assert [] + [n] == [n];
  }

  // ---------------------------------------------------------------- tasks

  function EndedTask(n: Node): seq<TraceEvent> {
    if n.kind.TaskKind? && n.status != "running" then n.events else []
  }

  function TaskEnds(es: seq<TraceEvent>): seq<TraceEvent> {
    if es == [] then []
    else
      var e := es[|es| - 1];
      TaskEnds(es[..|es| - 1]) + if IsTask(e) && !e.kind.ToolStart? then [e] else []
  }

  /** The last task event that names the call. */
  function LastOfTask(es: seq<TraceEvent>, call: string): Option<TraceEvent> {
    if es == [] then None
    else
      var e := es[|es| - 1];
      if IsTask(e) && e.toolCallId == call then Some(e) else LastOfTask(es[..|es| - 1], call)
  }

  /** A task counts as running exactly when the last event of its call is a start. */
  lemma {:induction false} TaskRunningExactly(es: seq<TraceEvent>, call: string)
    requires call != ""
    ensures UniqueKeys(StateAfter(es).tasks)
    ensures var last := LastOfTask(es, call);
            Get(StateAfter(es).tasks, call) == if last.Some? && last.value.kind.ToolStart? then last else None
  {
    if es != [] {
      var init, e := es[..|es| - 1], es[|es| - 1];
      TaskRunningExactly(init, call);
      StepTasks(StateAfter(init), e, call);
    }
  }

  lemma CallsKeepTasks(s: State, e: TraceEvent)
    requires !IsTask(e)
    ensures Step(s, e).tasks == s.tasks
  {
    EnsureAdds(s, e);
  }

  lemma StepTasks(s: State, e: TraceEvent, call: string)
    requires UniqueKeys(s.tasks) && call != ""
    ensures UniqueKeys(Step(s, e).tasks)
    ensures Get(Step(s, e).tasks, call) ==
            if !IsTask(e) || e.toolCallId != call then Get(s.tasks, call) else if e.kind.ToolStart? then Some(e) else None
  {
    if !IsTask(e) {
      CallsKeepTasks(s, e);
    } else if e.toolCallId != "" {
      if e.kind.ToolStart? {
        SetUnique(s.tasks, e.toolCallId, e);
        GetSet(s.tasks, e.toolCallId, e, call);
      } else {
        DeleteUnique(s.tasks, e.toolCallId);
        GetDelete(s.tasks, e.toolCallId, call);
      }
    }
  }

  lemma AddedEndedTasks(s: State, e: TraceEvent)
    ensures Collect(Added(s, e), EndedTask) == if IsTask(e) && !e.kind.ToolStart? then [e] else []
  {
    EnsureAdds(s, e);
    if IsTask(e) && !e.kind.ToolStart? {
      OthersOnly(s, e);
      CollectSingle(TaskNode(e), EndedTask);
    } else {
      CollectNothing(Added(s, e), EndedTask);
    }
  }

  lemma {:induction false} StateEndedTasks(es: seq<TraceEvent>)
    ensures Collect(StateAfter(es).nodes, EndedTask) == TaskEnds(es)
  {
    if es != [] {
      StateEndedTasks(es[..|es| - 1]);
      AddedCollect(StateAfter(es[..|es| - 1]), es[|es| - 1], EndedTask);
      AddedEndedTasks(StateAfter(es[..|es| - 1]), es[|es| - 1]);
    }
  }

  function RunningTask(call: string): Node -> seq<TraceEvent> {
    (n: Node) => if n.kind.TaskKind? && n.status == "running" && n.id == TaskId(call) then n.events else []
  }

  lemma AddedRunningTask(s: State, e: TraceEvent, call: string)
    ensures Collect(Added(s, e), RunningTask(call)) == []
  {
    EnsureAdds(s, e);
    CollectNothing(Added(s, e), RunningTask(call));
  }

  lemma {:induction false} StateRunningTask(es: seq<TraceEvent>, call: string)
    ensures Collect(StateAfter(es).nodes, RunningTask(call)) == []
  {
    if es != [] {
      StateRunningTask(es[..|es| - 1], call);
      AddedCollect(StateAfter(es[..|es| - 1]), es[|es| - 1], RunningTask(call));
      AddedRunningTask(StateAfter(es[..|es| - 1]), es[|es| - 1], call);
    }
  }

  lemma {:induction false} RunningTasksOf(tasks: OrderedMap<TraceEvent>, call: string)
    requires UniqueKeys(tasks)
    ensures Collect(RunningTasks(tasks), RunningTask(call)) == if Get(tasks, call).Some? then [Get(tasks, call).value] else []
  {
    if tasks != [] {
      var n := Node(TaskId(tasks[0].0), Some(RunId), TaskKind, "running", [tasks[0].1], None);
      RunningTasksOf(tasks[1..], call);
      CollectConcat([n], RunningTasks(tasks[1..]), RunningTask(call));
      CollectSingle(n, RunningTask(call));
    }
  }

  // ---------------------------------------------------------------- the whole list

  /** The running call nodes: no task, no agent, no anchor. */
  lemma {:induction false} QueueNodes(counter: map<string, nat>, f: Family, queue: seq<TraceEvent>)
    ensures forall i :: 0 <= i < |RunningQueue(counter, f, queue)| ==>
              RunningQueue(counter, f, queue)[i].id.CallId? && RunningQueue(counter, f, queue)[i].anchor.None?
              && !RunningQueue(counter, f, queue)[i].kind.TaskKind?
  {
    if queue != [] { QueueNodes(counter, f, queue[1..]); }
  }

  lemma {:induction false} RunningNodes(counter: map<string, nat>, f: Family, pending: Pending)
    ensures forall i :: 0 <= i < |RunningCalls(counter, f, pending)| ==>
              RunningCalls(counter, f, pending)[i].id.CallId? && RunningCalls(counter, f, pending)[i].anchor.None?
              && !RunningCalls(counter, f, pending)[i].kind.TaskKind?
  {
    if pending != [] {
      QueueNodes(counter, f, pending[0].1);
      RunningNodes(counter, f, pending[1..]);
    }
  }

  lemma {:induction false} TaskNodesShape(tasks: OrderedMap<TraceEvent>)
    ensures forall i :: 0 <= i < |RunningTasks(tasks)| ==>
              RunningTasks(tasks)[i].id.TaskId? && RunningTasks(tasks)[i].anchor.None? && RunningTasks(tasks)[i].status == "running"
  {
    if tasks != [] { TaskNodesShape(tasks[1..]); }
  }

  lemma RunningCollect<T>(counter: map<string, nat>, f: Family, pending: Pending, pick: Node -> seq<T>)
    requires forall n: Node :: n.id.CallId? && n.anchor.None? && !n.kind.TaskKind? ==> pick(n) == []
    ensures Collect(RunningCalls(counter, f, pending), pick) == []
  {
    RunningNodes(counter, f, pending);
    CollectNothing(RunningCalls(counter, f, pending), pick);
  }

  /** The running calls at the end of the list contribute nothing to what is collected here. */
  lemma FinishCollect<T>(s: State, pick: Node -> seq<T>)
    requires forall n: Node :: n.id.CallId? && n.anchor.None? && !n.kind.TaskKind? ==> pick(n) == []
    ensures Collect(Finish(s), pick) == Collect(s.nodes, pick) + Collect(RunningTasks(s.tasks), pick)
  {
    var llm, tool := RunningCalls(s.counter, Llm, s.llm), RunningCalls(s.counter, Tool, s.tool);
    RunningCollect(s.counter, Llm, s.llm, pick);
    RunningCollect(s.counter, Tool, s.tool, pick);
    CollectConcat(s.nodes, llm, pick);
    CollectConcat(s.nodes + llm, tool, pick);
    CollectConcat(s.nodes + llm + tool, RunningTasks(s.tasks), pick);
    AppendNothing(Collect(s.nodes, pick));
  }

  lemma FinishOnlyNodes<T>(s: State, pick: Node -> seq<T>)
    requires forall n: Node :: n.id.CallId? && n.anchor.None? && !n.kind.TaskKind? ==> pick(n) == []
    requires forall n: Node :: n.id.TaskId? && n.anchor.None? && n.status == "running" ==> pick(n) == []
    ensures Collect(Finish(s), pick) == Collect(s.nodes, pick)
  {
    FinishCollect(s, pick);
    TaskNodesShape(s.tasks);
    CollectNothing(RunningTasks(s.tasks), pick);
  }

  /** The task nodes of a projection: one completed or failed node for each task end, in trace
      order, and one running node for each call whose last task event is a start. */
  lemma TaskNodes(es: seq<TraceEvent>, call: string)
    requires call != ""
    ensures Collect(Projection(es), EndedTask) == TaskEnds(es)
    ensures var last := LastOfTask(es, call);
            Collect(Projection(es), RunningTask(call)) == if last.Some? && last.value.kind.ToolStart? then [last.value] else []
  {
    var s := StateAfter(es);
    StateEndedTasks(es);
    FinishOnlyNodes(s, EndedTask);
    TaskRunningExactly(es, call);
    StateRunningTask(es, call);
    RunningTasksOf(s.tasks, call);
    FinishCollect(s, RunningTask(call));
  }

  // ---------------------------------------------------------------- agents

  function InstanceNumber(name: string): Node -> seq<nat> {
    (n: Node) => if n.id.InstanceId? && n.id.name == name then [n.id.n] else []
  }

  function MainNode(name: string): Node -> seq<Node> {
    (n: Node) => if n.id == AgentId(name) then [n] else []
  }

  function InstancesOf(s: State, name: string): nat {
    if name in s.counter then s.counter[name] else 0
  }

  lemma NoAgentsAmongOthers(s: State, e: TraceEvent)
    ensures forall i :: 0 <= i < |OthersAdded(s, e)| ==> !OthersAdded(s, e)[i].id.AgentId? && !OthersAdded(s, e)[i].id.InstanceId?
  {
  }

  lemma AgentCollect<T>(s: State, e: TraceEvent, pick: Node -> seq<T>)
    requires forall n: Node :: !n.id.AgentId? && !n.id.InstanceId? ==> pick(n) == []
    ensures Collect(Added(s, e), pick) == if IsCall(e) then Collect(AgentAdded(s, e), pick) else []
  {
    var agents := if IsCall(e) then AgentAdded(s, e) else [];
    CollectConcat(agents, OthersAdded(s, e), pick);
    NoAgentsAmongOthers(s, e);
    CollectNothing(OthersAdded(s, e), pick);
    AppendNothing(Collect(agents, pick));
  }

  lemma CallsKeepAgents(s: State, e: TraceEvent)
    ensures Step(s, e).counter == if IsCall(e) then Ensure(s, e).counter else s.counter
    ensures Step(s, e).mains == if IsCall(e) then Ensure(s, e).mains else s.mains
  {
  }

  lemma EnsureInstances(s: State, e: TraceEvent, name: string)
    ensures Collect(AgentAdded(s, e), InstanceNumber(name)) ==
            if InstancesOf(Ensure(s, e), name) == InstancesOf(s, name) then [] else [InstancesOf(s, name) + 1]
    ensures InstancesOf(s, name) <= InstancesOf(Ensure(s, e), name) <= InstancesOf(s, name) + 1
  {
    var agents := AgentAdded(s, e);
    if agents != [] {
      assert agents == [agents[0]];
      CollectSingle(agents[0], InstanceNumber(name));
    }
  }

  lemma EnsureMains(s: State, e: TraceEvent, name: string)
    ensures |Collect(AgentAdded(s, e), MainNode(name))| == if name in Ensure(s, e).mains && name !in s.mains then 1 else 0
    ensures s.mains <= Ensure(s, e).mains
  {
    var agents := AgentAdded(s, e);
    if agents != [] {
      assert agents == [agents[0]];
      CollectSingle(agents[0], MainNode(name));
    }
  }

  lemma {:induction false} StateAgents(es: seq<TraceEvent>, name: string)
    ensures Collect(StateAfter(es).nodes, InstanceNumber(name)) == OneUpTo(InstancesOf(StateAfter(es), name))
    ensures |Collect(StateAfter(es).nodes, MainNode(name))| == if name in StateAfter(es).mains then 1 else 0
  {
    if es != [] {
      var init, e := es[..|es| - 1], es[|es| - 1];
      StateAgents(init, name);
      StepInstances(StateAfter(init), e, name);
      StepMains(StateAfter(init), e, name);
    }
  }

  lemma StepInstances(s: State, e: TraceEvent, name: string)
    requires Collect(s.nodes, InstanceNumber(name)) == OneUpTo(InstancesOf(s, name))
    ensures Collect(Step(s, e).nodes, InstanceNumber(name)) == OneUpTo(InstancesOf(Step(s, e), name))
  {
    AddedCollect(s, e, InstanceNumber(name));
    AddedInstances(s, e, name);
    NumbersGrow(Collect(s.nodes, InstanceNumber(name)), Collect(Added(s, e), InstanceNumber(name)),
                InstancesOf(s, name), InstancesOf(Step(s, e), name));
  }

  lemma AddedInstances(s: State, e: TraceEvent, name: string)
    ensures InstancesOf(s, name) <= InstancesOf(Step(s, e), name) <= InstancesOf(s, name) + 1
    ensures Collect(Added(s, e), InstanceNumber(name)) ==
            if InstancesOf(Step(s, e), name) == InstancesOf(s, name) then [] else [InstancesOf(s, name) + 1]
  {
    AgentCollect(s, e, InstanceNumber(name));
    CallsKeepAgents(s, e);
    EnsureInstances(s, e, name);
  }

  lemma NumbersGrow(before: seq<nat>, added: seq<nat>, n: nat, m: nat)
    requires before == OneUpTo(n) && n <= m <= n + 1 && added == if m == n then [] else [n + 1]
    ensures before + added == OneUpTo(m)
  {
  }

  lemma StepMains(s: State, e: TraceEvent, name: string)
    requires |Collect(s.nodes, MainNode(name))| == if name in s.mains then 1 else 0
    ensures |Collect(Step(s, e).nodes, MainNode(name))| == if name in Step(s, e).mains then 1 else 0
  {
    AddedCollect(s, e, MainNode(name));
    AgentCollect(s, e, MainNode(name));
    CallsKeepAgents(s, e);
    EnsureMains(s, e, name);
  }

  /** A main agent has at most one node; the instances of a subagent are numbered 1, 2, ... in
      the order of their nodes. */
  lemma AgentNodes(es: seq<TraceEvent>, name: string)
    ensures Collect(Projection(es), InstanceNumber(name)) == OneUpTo(InstancesOf(StateAfter(es), name))
    ensures |Collect(Projection(es), MainNode(name))| <= 1
  {
    StateAgents(es, name);
    FinishOnlyNodes(StateAfter(es), InstanceNumber(name));
    FinishOnlyNodes(StateAfter(es), MainNode(name));
  }

  // ---------------------------------------------------------------- context

  datatype Link = Link(node: NodeId, anchor: Anchor)

  function AnchorOf(n: Node): seq<Link> {
    if n.anchor.None? then [] else [Link(n.id, n.anchor.value)]
  }

  function Links(context: seq<Segment>): seq<Link> {
    seq(|context|, i requires 0 <= i < |context| => Link(context[i].node, context[i].anchor))
  }

  ghost predicate Numbered(context: seq<Segment>) {
    forall i :: 0 <= i < |context| ==> context[i].anchor == Anchor(context[i].event.sequence, i + 1)
  }

  /** The segments that `e` adds. */
  function Said(s: State, e: TraceEvent): seq<Segment> {
    if IsTask(e) || IsStart(e) then []
    else if IsCall(e) then EndSegments(Ensure(s, e), e)
    else if e.kind.RunError? then
      [Segment(Anchor(e.sequence, |s.context| + 1), ErrorSegment, e, ErrorId(e.eventId))]
    else []
  }

  lemma StepSays(s: State, e: TraceEvent)
    ensures Step(s, e).context == s.context + Said(s, e)
  {
    AppendNothing(s.context);
    if IsCall(e) {
      EnsureAdds(s, e);
      if !IsStart(e) { assert StepEnd(Ensure(s, e), e).context == s.context + EndSegments(Ensure(s, e), e); }
    }
  }

  lemma SaidNumbered(s: State, e: TraceEvent)
    requires Numbered(s.context)
    ensures Numbered(s.context + Said(s, e))
  {
    if IsCall(e) { EnsureAdds(s, e); }
  }

  lemma LinksConcat(a: seq<Segment>, b: seq<Segment>)
    ensures Links(a + b) == Links(a) + Links(b)
  {
  }

  lemma LinksSingle(segment: Segment)
    ensures Links([segment]) == [Link(segment.node, segment.anchor)]
  {
  }

  lemma AddedAnchors(s: State, e: TraceEvent)
    ensures Collect(Added(s, e), AnchorOf) == Links(Said(s, e))
  {
    if IsCall(e) {
      EnsureAdds(s, e);
      CollectNothing(AgentAdded(s, e), AnchorOf);
      CollectConcat(AgentAdded(s, e), OthersAdded(s, e), AnchorOf);
      if !IsStart(e) { CallAnchors(Ensure(s, e), e); }
    } else {
      OthersOnly(s, e);
      if OthersAdded(s, e) != [] { CollectSingle(OthersAdded(s, e)[0], AnchorOf); }
    }
  }

  lemma CallAnchors(t: State, e: TraceEvent)
    ensures Collect(EndNodes(t, e), AnchorOf) == Links(EndSegments(t, e))
  {
    var call := Segment(Anchor(e.sequence, |t.context| + 1), CallSegment(e), e, CallNode(t, e).id);
    var todo := Segment(Anchor(e.sequence, |t.context| + 2), TodoSegment, e, TodoId(e.eventId));
    CollectSingle(CallNode(t, e), AnchorOf);
    LinksSingle(call);
    if ShowsTodos(e) {
      CollectOne([CallNode(t, e)], TodoNode(t, e), AnchorOf);
      LinksConcat([call], [todo]);
      LinksSingle(todo);
    } else {
      LinksConcat([call], []);
      assert EndSegments(t, e) == [call] && EndNodes(t, e) == [CallNode(t, e)];
    }
  }

  lemma {:induction false} StateAnchors(es: seq<TraceEvent>)
    ensures Numbered(StateAfter(es).context)
    ensures Collect(StateAfter(es).nodes, AnchorOf) == Links(StateAfter(es).context)
  {
    if es != [] {
      var s, e := StateAfter(es[..|es| - 1]), es[|es| - 1];
      StateAnchors(es[..|es| - 1]);
      AddedCollect(s, e, AnchorOf);
      AddedAnchors(s, e);
      StepSays(s, e);
      SaidNumbered(s, e);
      LinksConcat(s.context, Said(s, e));
    }
  }

  /** Context segments are numbered 1, 2, ...; the nodes that carry an anchor are, in order,
      the nodes that the segments name, each with its segment's anchor. */
  lemma AnchorsMeet(es: seq<TraceEvent>)
    ensures Numbered(StateAfter(es).context)
    ensures Collect(Projection(es), AnchorOf) == Links(StateAfter(es).context)
  {
    StateAnchors(es);
    FinishOnlyNodes(StateAfter(es), AnchorOf);
  }

  // ---------------------------------------------------------------- todos

  function TodoOf(n: Node): seq<TraceEvent> {
    if n.id.TodoId? && n.events != [] then [n.events[|n.events| - 1]] else []
  }

  /** The end of a call that wrote todos. */
  predicate WritesTodos(e: TraceEvent) {
    && e.kind in {ToolEnd, ToolError} && e.toolName in {"write_todos", "write_todo"} && e.todos != []
  }

  function TodoEnds(es: seq<TraceEvent>): seq<TraceEvent> {
    if es == [] then [] else TodoEnds(es[..|es| - 1]) + if WritesTodos(es[|es| - 1]) then [es[|es| - 1]] else []
  }

  lemma WritesTodosExactly(e: TraceEvent)
    ensures WritesTodos(e) <==> IsCall(e) && !IsStart(e) && ShowsTodos(e)
  {
    assert e.toolName == "task" ==> e.toolName !in {"write_todos", "write_todo"};
  }

  lemma AddedTodos(s: State, e: TraceEvent)
    ensures Collect(Added(s, e), TodoOf) == if IsCall(e) && !IsStart(e) && ShowsTodos(e) then [e] else []
  {
    if IsCall(e) && !IsStart(e) && ShowsTodos(e) {
      EnsureAdds(s, e);
      CollectNothing(AgentAdded(s, e), TodoOf);
      CollectConcat(AgentAdded(s, e), EndNodes(Ensure(s, e), e), TodoOf);
      EndTodo(Ensure(s, e), e);
    } else {
      NoTodoAdded(s, e);
      CollectNothing(Added(s, e), TodoOf);
    }
  }

  lemma NoTodoAdded(s: State, e: TraceEvent)
    requires !(IsCall(e) && !IsStart(e) && ShowsTodos(e))
    ensures forall i :: 0 <= i < |Added(s, e)| ==> !Added(s, e)[i].id.TodoId?
  {
    EnsureAdds(s, e);
  }

  lemma EndTodo(t: State, e: TraceEvent)
    requires ShowsTodos(e)
    ensures Collect(EndNodes(t, e), TodoOf) == [e]
  {
    CollectOne([CallNode(t, e)], TodoNode(t, e), TodoOf);
    CollectSingle(CallNode(t, e), TodoOf);
  }

  lemma StepTodos(s: State, e: TraceEvent)
    ensures Step(s, e).todos == s.todos + if IsCall(e) && !IsStart(e) && ShowsTodos(e) then [e] else []
  {
    EnsureKeepsTodos(s, e);
    AppendNothing(s.todos);
    if IsCall(e) && !IsStart(e) { assert Step(s, e) == StepEnd(Ensure(s, e), e); }
  }

  lemma EnsureKeepsTodos(s: State, e: TraceEvent)
    ensures Ensure(s, e).todos == s.todos
  {
  }

  lemma {:induction false} StateTodos(es: seq<TraceEvent>)
    ensures StateAfter(es).todos == TodoEnds(es)
    ensures Collect(StateAfter(es).nodes, TodoOf) == TodoEnds(es)
  {
    if es != [] {
      var init, e := es[..|es| - 1], es[|es| - 1];
      StateTodos(init);
      AddedCollect(StateAfter(init), e, TodoOf);
      AddedTodos(StateAfter(init), e);
      StepTodos(StateAfter(init), e);
      WritesTodosExactly(e);
    }
  }

  /** One todo snapshot and one todo node for each end of a todo tool that lists todos. */
  lemma TodosShown(es: seq<TraceEvent>)
    ensures StateAfter(es).todos == TodoEnds(es) && Collect(Projection(es), TodoOf) == TodoEnds(es)
  {
    StateTodos(es);
    FinishOnlyNodes(StateAfter(es), TodoOf);
  }
}
