/** The projection itself: one pass over the events that pushes nodes and context segments and
    keeps queues, a task stack and instance counters in place. */
module TraceProjection {
  import opened Wrappers
  import opened OrderedMap
  import opened TraceNodes

  /** What one task event does to the task table. */
  lemma TaskTable(tasks: OrderedMap<TraceEvent>, e: TraceEvent)
    ensures forall id :: Get(Set(tasks, e.toolCallId, e), id) == if id == e.toolCallId then Some(e) else Get(tasks, id)
    ensures UniqueKeys(tasks) ==>
              forall id :: Get(Delete(tasks, e.toolCallId), id) == if id == e.toolCallId then None else Get(tasks, id)
  {
    forall id
      ensures Get(Set(tasks, e.toolCallId, e), id) == if id == e.toolCallId then Some(e) else Get(tasks, id)
      ensures UniqueKeys(tasks) ==>
                Get(Delete(tasks, e.toolCallId), id) == if id == e.toolCallId then None else Get(tasks, id)
    {
      GetSet(tasks, e.toolCallId, e, id);
      if UniqueKeys(tasks) { GetDelete(tasks, e.toolCallId, id); }
    }
  }

  /** When a call adds the node of its agent, and which node. */
  lemma EnsureNode(s: State, e: TraceEvent)
    ensures var t := Ensure(s, e);
            && (t.nodes != s.nodes <==>
                  e.agent != "" && (if IsSubagent(e.agent) then OpensInstance(s, e) else e.agent !in s.mains))
            && (t.nodes != s.nodes ==>
                  && |t.nodes| == |s.nodes| + 1 && t.nodes[..|s.nodes|] == s.nodes
                  && t.nodes[|s.nodes|].id == AgentOf(t.counter, e) && t.nodes[|s.nodes|].events == [e]
                  && t.nodes[|s.nodes|].kind == AgentKind && t.nodes[|s.nodes|].status == "completed"
                  && (!IsSubagent(e.agent) ==> t.nodes[|s.nodes|].parent == Some(RunId)))
            && (t.nodes == s.nodes ==> t == s)
            && forall name :: name != e.agent ==>
                 && (name in t.counter <==> name in s.counter) && (name in t.counter ==> t.counter[name] == s.counter[name])
                 && (name in t.mains <==> name in s.mains)
  {
  }

  /** Taking from the queue of one key, seen from all keys. */
  lemma TakenQueues(pending: Pending, key: string)
    requires UniqueKeys(pending)
    ensures forall other :: Queue(Dequeue(pending, key), other) ==
                            if other == key && Queue(pending, key) != [] then Queue(pending, key)[1..] else Queue(pending, other)
  {
    forall other
      ensures Queue(Dequeue(pending, key), other) ==
              if other == key && Queue(pending, key) != [] then Queue(pending, key)[1..] else Queue(pending, other)
    {
      GetDelete(pending, key, other);
      if |Queue(pending, key)| > 1 { GetSet(pending, key, Queue(pending, key)[1..], other); }
    }
  }

  /** What the end of a call changes and what it keeps, part by part: it takes the oldest
      waiting start of its key, if there is one, and adds the node and the segment of the
      call, and those of the todos it wrote. */
  ghost predicate EndsCall(s: State, e: TraceEvent, t: State) {
    var before, after := PendingOf(s, FamilyOf(e)), PendingOf(t, FamilyOf(e));
    var queue, more := Queue(before, PairKey(e)), if ShowsTodos(e) then 2 else 1;
    && t.tasks == s.tasks && t.stack == s.stack && t.mains == s.mains && t.lastTask == s.lastTask && t.counter == s.counter
    && (if FamilyOf(e).Llm? then t.tool == s.tool else t.llm == s.llm)
    && (UniqueKeys(before) ==>
          && Queue(after, PairKey(e)) == (if queue == [] then [] else queue[1..])
          && forall key :: key != PairKey(e) ==> Queue(after, key) == Queue(before, key))
    && |t.nodes| == |s.nodes| + more && t.nodes[..|s.nodes|] == s.nodes
    && t.nodes[|s.nodes|].events == (if queue == [] then [e] else [queue[0], e])
    && t.nodes[|s.nodes|].parent == Some(AgentOf(s.counter, e))
    && t.nodes[|s.nodes|].anchor == Some(Anchor(e.sequence, |s.context| + 1))
    && |t.context| == |s.context| + more && t.context[..|s.context|] == s.context
    && t.todos == if ShowsTodos(e) then s.todos + [e] else s.todos
  }

  lemma EndParts(s: State, e: TraceEvent)
    ensures EndsCall(s, e, StepEnd(s, e))
  {
    if UniqueKeys(PendingOf(s, FamilyOf(e))) { TakenQueues(PendingOf(s, FamilyOf(e)), PairKey(e)); }
  }

  /** A start waits in one of the queues. */
  ghost predicate Waits(pending: Pending, start: TraceEvent) {
    exists i, j :: 0 <= i < |pending| && 0 <= j < |pending[i].1| && pending[i].1[j] == start
  }

  lemma WaitsMore(pending: Pending, start: TraceEvent)
    requires pending != []
    ensures Waits(pending, start) <==> start in pending[0].1 || Waits(pending[1..], start)
  {
    if start in pending[0].1 {
      var j :| 0 <= j < |pending[0].1| && pending[0].1[j] == start;
    }
    if Waits(pending[1..], start) {
      var i, j :| 0 <= i < |pending[1..]| && 0 <= j < |pending[1..][i].1| && pending[1..][i].1[j] == start;
      assert pending[i + 1].1[j] == start;
    }
    if Waits(pending, start) {
      var i, j :| 0 <= i < |pending| && 0 <= j < |pending[i].1| && pending[i].1[j] == start;
      if i > 0 { assert pending[1..][i - 1].1[j] == start; }
    }
  }

  lemma {:induction false} RunningOfQueue(counter: map<string, nat>, f: Family, queue: seq<TraceEvent>, n: Node)
    ensures n in RunningQueue(counter, f, queue) <==> exists start :: start in queue && n == RunningCall(counter, f, start)
  {
    if queue != [] {
      RunningOfQueue(counter, f, queue[1..], n);
      assert queue == [queue[0]] + queue[1..];
    }
  }

  /** One running node for each start that waits. */
  lemma {:induction false} RunningOfAll(counter: map<string, nat>, f: Family, pending: Pending, n: Node)
    ensures n in RunningCalls(counter, f, pending) <==> exists start :: Waits(pending, start) && n == RunningCall(counter, f, start)
  {
    if pending != [] {
      RunningOfAll(counter, f, pending[1..], n);
      RunningOfQueue(counter, f, pending[0].1, n);
      forall start ensures Waits(pending, start) <==> start in pending[0].1 || Waits(pending[1..], start) {
        WaitsMore(pending, start);
      }
    }
  }

  class Projector {
    var nodes: seq<Node>
    var context: seq<Segment>
    var todos: seq<TraceEvent>
    var pendingLlm: Pending
    var pendingTool: Pending
    var pendingTask: OrderedMap<TraceEvent>
    var stack: seq<string>
    var mains: set<string>
    var lastTask: map<string, Option<string>>
    var counter: map<string, nat>

    function View(): State
      reads this
    {
      State(nodes, context, todos, pendingLlm, pendingTool, pendingTask, stack, mains, lastTask, counter)
    }

    constructor ()
      ensures View() == INITIAL
    {
      nodes, context, todos, pendingLlm, pendingTool, pendingTask, stack := [], [], [], [], [], [], [];
      mains, lastTask, counter := {}, map[], map[];
    }

    /** A task event moves the stack and the task table and adds at most its own node; calls,
        agents, context and todos do not see it. */
    method HandleTask(e: TraceEvent)
      modifies this
      ensures View() == StepTask(old(View()), e)
      ensures context == old(context) && todos == old(todos) && pendingLlm == old(pendingLlm) && pendingTool == old(pendingTool)
      ensures mains == old(mains) && lastTask == old(lastTask) && counter == old(counter)
      ensures e.kind.ToolStart? ==> nodes == old(nodes)
      ensures !e.kind.ToolStart? ==>
                && |nodes| == |old(nodes)| + 1 && nodes[..|old(nodes)|] == old(nodes)
                && var node := nodes[|old(nodes)|];
                && node.kind.TaskKind? && node.parent == Some(RunId) && node.events == [e]
                && node.id == TaskId(if e.toolCallId == "" then e.eventId else e.toolCallId)
                && (node.status == "failed" <==> e.kind.ToolError? || e.status == "failed")
      ensures e.kind.ToolStart? && e.toolCallId != "" ==>
                && Top(stack) == Some(e.toolCallId) && stack[..|stack| - 1] == old(stack)
                && Get(pendingTask, e.toolCallId) == Some(e)
      ensures !e.kind.ToolStart? ==> stack <= old(stack) && |stack| == if |old(stack)| == 0 then 0 else |old(stack)| - 1
      ensures UniqueKeys(old(pendingTask)) ==>
                && (forall id :: id != e.toolCallId ==> Get(pendingTask, id) == Get(old(pendingTask), id))
                && (!e.kind.ToolStart? && e.toolCallId != "" ==> Get(pendingTask, e.toolCallId).None?)
    {
      TaskTable(pendingTask, e);
      if e.kind.ToolStart? {
        if e.toolCallId != "" {
          stack := stack + [e.toolCallId];
          pendingTask := Set(pendingTask, e.toolCallId, e);
        }
      } else {
        if |stack| > 0 { stack := stack[..|stack| - 1]; }
        nodes := nodes + [TaskNode(e)];
        if e.toolCallId != "" { pendingTask := Delete(pendingTask, e.toolCallId); }
      }
    }

    /** The agent of a call has a node afterwards, the one that the call will name as its
        parent. A node is added exactly for the first call of a main agent and for a call
        that opens an instance of a subagent: its first one, one in another task than the
        last, or any outside of tasks. */
    method EnsureAgentNode(e: TraceEvent)
      modifies this
      ensures View() == Ensure(old(View()), e)
      ensures context == old(context) && todos == old(todos) && pendingLlm == old(pendingLlm) && pendingTool == old(pendingTool)
      ensures pendingTask == old(pendingTask) && stack == old(stack)
      ensures nodes != old(nodes) <==>
                e.agent != "" && (if IsSubagent(e.agent)
                                  then !(e.agent in old(lastTask) && old(lastTask)[e.agent].Some?
                                         && old(lastTask)[e.agent] == Top(old(stack)))
                                  else e.agent !in old(mains))
      ensures nodes != old(nodes) ==>
                && |nodes| == |old(nodes)| + 1 && nodes[..|old(nodes)|] == old(nodes)
                && nodes[|old(nodes)|].id == AgentOf(counter, e) && nodes[|old(nodes)|].events == [e]
                && nodes[|old(nodes)|].kind == AgentKind && nodes[|old(nodes)|].status == "completed"
                && (!IsSubagent(e.agent) ==> nodes[|old(nodes)|].parent == Some(RunId))
      ensures nodes == old(nodes) ==> counter == old(counter) && lastTask == old(lastTask) && mains == old(mains)
      ensures forall name :: name != e.agent ==>
                && (name in counter <==> name in old(counter)) && (name in counter ==> counter[name] == old(counter)[name])
                && (name in mains <==> name in old(mains))
    {
      EnsureNode(View(), e);
      if e.agent == "" { return; }
      if !IsSubagent(e.agent) {
        if e.agent !in mains {
          mains := mains + {e.agent};
          nodes := nodes + [Node(AgentId(e.agent), Some(RunId), AgentKind, "completed", [e], None)];
        }
        return;
      }
      var current := Top(stack);
      var last := if e.agent in lastTask then lastTask[e.agent] else None;
      if last.Some? && last == current { return; }
      var n := (if e.agent in counter then counter[e.agent] else 0) + 1;
      counter := counter[e.agent := n];
      lastTask := lastTask[e.agent := current];
      var parent := RunId;
      if IsEvaluation(e.agent) {
        var primary := EvaluationPrimary(e.agent);
        parent := if primary in counter then InstanceId(primary, counter[primary]) else AgentId(primary);
      }
      nodes := nodes + [Node(InstanceId(e.agent, n), Some(parent), AgentKind, "completed", [e], None)];
    }

    method AppendContext(e: TraceEvent, kind: SegmentKind, id: NodeId) returns (anchor: Anchor)
      modifies this`context
      ensures anchor == Anchor(e.sequence, |old(context)| + 1)
      ensures context == old(context) + [Segment(anchor, kind, e, id)]
    {
      anchor := Anchor(e.sequence, |context| + 1);
      context := context + [Segment(anchor, kind, e, id)];
    }

    method HandleStart(e: TraceEvent)
      modifies this
      ensures View() == StepStart(old(View()), e)
    {
      if FamilyOf(e).Llm? {
        pendingLlm := Set(pendingLlm, PairKey(e), Queue(pendingLlm, PairKey(e)) + [e]);
      } else {
        pendingTool := Set(pendingTool, PairKey(e), Queue(pendingTool, PairKey(e)) + [e]);
      }
    }

    /** Pop the oldest waiting start of the end event's key. */
    method TakePending(e: TraceEvent) returns (raw: seq<TraceEvent>)
      modifies this`pendingLlm, this`pendingTool
      ensures raw == CallEvents(old(View()), e)
      ensures View() == WithPending(old(View()), FamilyOf(e), Dequeue(PendingOf(old(View()), FamilyOf(e)), PairKey(e)))
    {
      var key := PairKey(e);
      var queue := Queue(if FamilyOf(e).Llm? then pendingLlm else pendingTool, key);
      if FamilyOf(e).Llm? {
        pendingLlm := Dequeue(pendingLlm, key);
      } else {
        pendingTool := Dequeue(pendingTool, key);
      }
      return if queue == [] then [e] else [queue[0], e];
    }

    method HandleEnd(e: TraceEvent)
      modifies this
      ensures View() == StepEnd(old(View()), e)
      ensures EndsCall(old(View()), e, View())
    {
      ghost var before := View();
      var raw := TakePending(e);
      ShowCall(e, raw);
      ShowTodos(e, raw);
      EndParts(before, e);
    }

    /** The node and the segment of an ended call, under its agent. */
    method ShowCall(e: TraceEvent, raw: seq<TraceEvent>)
      requires raw != []
      modifies this`nodes, this`context
      ensures var id, anchor := CallId(FamilyOf(e), raw[0].eventId), Anchor(e.sequence, |old(context)| + 1);
              && nodes == old(nodes) + [Node(id, Some(AgentOf(counter, e)), CallKind(e), CallStatus(e), raw, Some(anchor))]
              && context == old(context) + [Segment(anchor, CallSegment(e), e, id)]
    {
      var id := CallId(FamilyOf(e), raw[0].eventId);
      var anchor := AppendContext(e, CallSegment(e), id);
      nodes := nodes + [Node(id, Some(AgentOf(counter, e)), CallKind(e), CallStatus(e), raw, Some(anchor))];
    }

    /** The todos a tool wrote get a node and a segment of their own. */
    method ShowTodos(e: TraceEvent, raw: seq<TraceEvent>)
      modifies this`nodes, this`context, this`todos
      ensures var anchor := Anchor(e.sequence, |old(context)| + 1);
              if !ShowsTodos(e) then nodes == old(nodes) && context == old(context) && todos == old(todos)
              else && nodes == old(nodes) + [Node(TodoId(e.eventId), Some(AgentOf(counter, e)), TodoKind, e.status, raw, Some(anchor))]
                   && context == old(context) + [Segment(anchor, TodoSegment, e, TodoId(e.eventId))] && todos == old(todos) + [e]
    {
      if ShowsTodos(e) {
        var anchor := AppendContext(e, TodoSegment, TodoId(e.eventId));
        todos := todos + [e];
        nodes := nodes + [Node(TodoId(e.eventId), Some(AgentOf(counter, e)), TodoKind, e.status, raw, Some(anchor))];
      }
    }

    method Handle(e: TraceEvent)
      modifies this
      ensures View() == Step(old(View()), e)
    {
      if IsTask(e) {
        HandleTask(e);
        return;
      }
      if IsCall(e) { EnsureAgentNode(e); }
      if IsStart(e) {
        HandleStart(e);
      } else if IsCall(e) {
        HandleEnd(e);
      } else if e.kind.RunError? {
        var anchor := AppendContext(e, ErrorSegment, ErrorId(e.eventId));
        nodes := nodes + [Node(ErrorId(e.eventId), Some(RunId), ErrorKind, "failed", [e], Some(anchor))];
      }
    }

    /** The starts that never ended become running nodes, queue by queue. */
    method PushRunning(f: Family, pending: Pending)
      modifies this`nodes
      ensures nodes == old(nodes) + RunningCalls(counter, f, pending)
      ensures |nodes| >= |old(nodes)| && nodes[..|old(nodes)|] == old(nodes)
      ensures forall n :: n in nodes[|old(nodes)|..] <==> exists start :: Waits(pending, start) && n == RunningCall(counter, f, start)
    {
      forall n
        ensures n in RunningCalls(counter, f, pending) <==> exists start :: Waits(pending, start) && n == RunningCall(counter, f, start)
      {
        RunningOfAll(counter, f, pending, n);
      }
      for i := 0 to |pending|
        invariant old(nodes) + RunningCalls(counter, f, pending) == nodes + RunningCalls(counter, f, pending[i..])
      {
        var queue := pending[i].1;
        ghost var before := nodes;
        for j := 0 to |queue|
          invariant before + RunningQueue(counter, f, queue) == nodes + RunningQueue(counter, f, queue[j..])
        {
          QueueFrom(counter, f, queue, j, nodes);
          nodes := nodes + [RunningCall(counter, f, queue[j])];
        }
        CallsFrom(counter, f, pending, i, before, nodes);
      }
    }

    method PushRunningTasks()
      modifies this`nodes
      ensures nodes == old(nodes) + RunningTasks(pendingTask)
    {
      for i := 0 to |pendingTask|
        invariant old(nodes) + RunningTasks(pendingTask) == nodes + RunningTasks(pendingTask[i..])
      {
        TasksFrom(pendingTask, i, nodes);
        nodes := nodes + [Node(TaskId(pendingTask[i].0), Some(RunId), TaskKind, "running", [pendingTask[i].1], None)];
      }
    }
  }

  lemma QueueFrom(counter: map<string, nat>, f: Family, queue: seq<TraceEvent>, j: nat, nodes: seq<Node>)
    requires j < |queue|
    ensures nodes + RunningQueue(counter, f, queue[j..]) ==
            nodes + [RunningCall(counter, f, queue[j])] + RunningQueue(counter, f, queue[j + 1..])
  {
    assert queue[j..][1..] == queue[j + 1..];
  }

  lemma CallsFrom(counter: map<string, nat>, f: Family, pending: Pending, i: nat, before: seq<Node>, after: seq<Node>)
    requires i < |pending|
    requires before + RunningQueue(counter, f, pending[i].1) == after + RunningQueue(counter, f, pending[i].1[|pending[i].1|..])
    ensures before + RunningCalls(counter, f, pending[i..]) == after + RunningCalls(counter, f, pending[i + 1..])
  {
    assert pending[i..][1..] == pending[i + 1..];
    assert after + [] == after;
  }

  lemma TasksFrom(tasks: OrderedMap<TraceEvent>, i: nat, nodes: seq<Node>)
    requires i < |tasks|
    ensures nodes + RunningTasks(tasks[i..]) ==
            nodes + [Node(TaskId(tasks[i].0), Some(RunId), TaskKind, "running", [tasks[i].1], None)] + RunningTasks(tasks[i + 1..])
  {
    assert tasks[i..][1..] == tasks[i + 1..];
  }

  /** `projectTraceDetail`, without the run node. */
  method ProjectTraceDetail(events: seq<TraceEvent>)
    returns (nodes: seq<Node>, context: seq<Segment>, todos: seq<TraceEvent>)
    ensures nodes == Projection(events)
    ensures context == StateAfter(events).context && todos == StateAfter(events).todos
  {
    var p := new Projector();
    for i := 0 to |events|
      invariant p.View() == StateAfter(events[..i])
    {
      StateAfterOneMore(events[..i], events[i]);
      assert events[..i] + [events[i]] == events[..i + 1];
      p.Handle(events[i]);
    }
    assert events[..|events|] == events;
    p.PushRunning(Llm, p.pendingLlm);
    p.PushRunning(Tool, p.pendingTool);
    p.PushRunningTasks();
    return p.nodes, p.context, p.todos;
  }
}
