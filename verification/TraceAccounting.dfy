/** Every LLM and tool event ends up in exactly one call node, and starts meet ends first in,
    first out under their pairing key. */
module TraceAccounting {
  import opened Wrappers
  import opened Text
  import opened OrderedMap
  import opened TraceNodes

  // ---------------------------------------------------------------- conservation of events

  /** The raw events held by the call nodes, with their multiplicities. */
  ghost function Held(nodes: seq<Node>): multiset<TraceEvent> {
    if nodes == [] then multiset{}
    else
      var last := nodes[|nodes| - 1];
      Held(nodes[..|nodes| - 1]) + if last.id.CallId? then multiset(last.events) else multiset{}
  }

  ghost function Waiting(pending: Pending): multiset<TraceEvent> {
    if pending == [] then multiset{} else multiset(pending[0].1) + Waiting(pending[1..])
  }

  function CallsOf(es: seq<TraceEvent>): seq<TraceEvent> {
    if es == [] then []
    else CallsOf(es[..|es| - 1]) + if IsCall(es[|es| - 1]) then [es[|es| - 1]] else []
  }

  function One(yes: bool): nat {
    if yes then 1 else 0
  }

  lemma CountSnoc<T>(s: seq<T>, y: T, x: T)
    ensures multiset(s + [y])[x] == multiset(s)[x] + One(x == y)
  {
  }

  lemma CountTail<T>(s: seq<T>, x: T)
    requires s != []
    ensures multiset(s)[x] == One(x == s[0]) + multiset(s[1..])[x]
  {
    assert s == [s[0]] + s[1..];
  }

  lemma HeldOne(nodes: seq<Node>, n: Node, x: TraceEvent)
    ensures Held(nodes + [n])[x] == Held(nodes)[x] + if n.id.CallId? then multiset(n.events)[x] else 0
  {
    assert (nodes + [n])[..|nodes|] == nodes;
  }

  lemma {:induction false} HeldConcat(a: seq<Node>, b: seq<Node>, x: TraceEvent)
    ensures Held(a + b)[x] == Held(a)[x] + Held(b)[x]
    decreases |b|
  {
    if b == [] {
      assert a + b == a;
    } else {
      var init, last := b[..|b| - 1], b[|b| - 1];
      HeldConcat(a, init, x);
      HeldOne(a + init, last, x);
      assert a + b == (a + init) + [last];
    }
  }

  lemma WaitingCons(entry: (string, seq<TraceEvent>), rest: Pending, x: TraceEvent)
    ensures Waiting([entry] + rest)[x] == multiset(entry.1)[x] + Waiting(rest)[x]
  {
    assert ([entry] + rest)[1..] == rest;
  }

  lemma {:induction false} WaitingSet(pending: Pending, key: string, queue: seq<TraceEvent>, x: TraceEvent)
    ensures Waiting(Set(pending, key, queue))[x] + multiset(Queue(pending, key))[x] == Waiting(pending)[x] + multiset(queue)[x]
  {
    if pending == [] {
      WaitingCons((key, queue), [], x);
      assert [(key, queue)] + [] == [(key, queue)];
    } else if pending[0].0 == key {
      WaitingCons((key, queue), pending[1..], x);
    } else {
      WaitingSet(pending[1..], key, queue, x);
      WaitingCons(pending[0], Set(pending[1..], key, queue), x);
    }
  }

  lemma {:induction false} WaitingDelete(pending: Pending, key: string, x: TraceEvent)
    ensures Waiting(Delete(pending, key))[x] + multiset(Queue(pending, key))[x] == Waiting(pending)[x]
  {
    if pending != [] && pending[0].0 != key {
      WaitingDelete(pending[1..], key, x);
      WaitingCons(pending[0], Delete(pending[1..], key), x);
    }
  }

  lemma WaitingEnqueue(pending: Pending, e: TraceEvent, x: TraceEvent)
    ensures Waiting(Enqueue(pending, e))[x] == Waiting(pending)[x] + One(x == e)
  {
    var queue := Queue(pending, PairKey(e));
    WaitingSet(pending, PairKey(e), queue + [e], x);
    CountSnoc(queue, e, x);
  }

  /** Taking from a queue loses the oldest start and nothing else. */
  lemma WaitingDequeue(pending: Pending, key: string, x: TraceEvent)
    ensures var queue := Queue(pending, key);
            Waiting(Dequeue(pending, key))[x] + One(queue != [] && x == queue[0]) == Waiting(pending)[x]
  {
    var queue := Queue(pending, key);
    if queue != [] { CountTail(queue, x); }
    if |queue| <= 1 {
      WaitingDelete(pending, key, x);
    } else {
      WaitingSet(pending, key, queue[1..], x);
    }
  }

  ghost function Account(s: State, x: TraceEvent): nat {
    Held(s.nodes)[x] + Waiting(s.llm)[x] + Waiting(s.tool)[x]
  }

  lemma EnsureAccount(s: State, e: TraceEvent, x: TraceEvent)
    ensures Held(Ensure(s, e).nodes)[x] == Held(s.nodes)[x]
    ensures Ensure(s, e).llm == s.llm && Ensure(s, e).tool == s.tool
  {
    var agents := AgentAdded(s, e);
    EnsureAdds(s, e);
    AppendNothing(s.nodes);
    if agents != [] {
      assert agents == [agents[0]];
      HeldOne(s.nodes, agents[0], x);
    }
  }

  lemma StartAccount(s: State, e: TraceEvent, x: TraceEvent)
    ensures Account(StepStart(s, e), x) == Account(s, x) + One(x == e)
  {
    WaitingEnqueue(PendingOf(s, FamilyOf(e)), e, x);
  }

  lemma CallEventsCount(s: State, e: TraceEvent, x: TraceEvent)
    ensures var queue := Queue(PendingOf(s, FamilyOf(e)), PairKey(e));
            multiset(CallEvents(s, e))[x] == One(queue != [] && x == queue[0]) + One(x == e)
  {
  }

  lemma EndHeld(s: State, e: TraceEvent, x: TraceEvent)
    ensures Held(StepEnd(s, e).nodes)[x] == Held(s.nodes)[x] + multiset(CallEvents(s, e))[x]
  {
    HeldConcat(s.nodes, EndNodes(s, e), x);
    HeldOne([], CallNode(s, e), x);
    assert [] + [CallNode(s, e)] == [CallNode(s, e)];
    if ShowsTodos(e) { HeldOne([CallNode(s, e)], TodoNode(s, e), x); }
  }

  lemma EndAccount(s: State, e: TraceEvent, x: TraceEvent)
    ensures Account(StepEnd(s, e), x) == Account(s, x) + One(x == e)
  {
    EndHeld(s, e, x);
    CallEventsCount(s, e, x);
    WaitingDequeue(PendingOf(s, FamilyOf(e)), PairKey(e), x);
  }

  lemma StepAccount(s: State, e: TraceEvent, x: TraceEvent)
    ensures Account(Step(s, e), x) == Account(s, x) + One(IsCall(e) && x == e)
  {
    EnsureAccount(s, e, x);
    if IsTask(e) {
      if !e.kind.ToolStart? { HeldOne(s.nodes, TaskNode(e), x); }
    } else if IsStart(e) {
      StartAccount(Ensure(s, e), e, x);
    } else if IsCall(e) {
      EndAccount(Ensure(s, e), e, x);
    } else if e.kind.RunError? {
      var t := StepRunError(s, e);
      HeldOne(s.nodes, t.nodes[|s.nodes|], x);
    }
  }

  lemma {:induction false} StateAccount(es: seq<TraceEvent>, x: TraceEvent)
    ensures Account(StateAfter(es), x) == multiset(CallsOf(es))[x]
  {
    if es != [] {
      var init, last := es[..|es| - 1], es[|es| - 1];
      StateAccount(init, x);
      StepAccount(StateAfter(init), last, x);
      CountSnoc(CallsOf(init), last, x);
    }
  }

  lemma {:induction false} HeldQueue(counter: map<string, nat>, f: Family, queue: seq<TraceEvent>, x: TraceEvent)
    ensures Held(RunningQueue(counter, f, queue))[x] == multiset(queue)[x]
  {
    if queue != [] {
      var n := RunningCall(counter, f, queue[0]);
      HeldQueue(counter, f, queue[1..], x);
      HeldConcat([n], RunningQueue(counter, f, queue[1..]), x);
      HeldOne([], n, x);
      assert [] + [n] == [n];
      CountTail(queue, x);
    }
  }

  lemma {:induction false} HeldRunning(counter: map<string, nat>, f: Family, pending: Pending, x: TraceEvent)
    ensures Held(RunningCalls(counter, f, pending))[x] == Waiting(pending)[x]
  {
    if pending != [] {
      HeldRunning(counter, f, pending[1..], x);
      HeldQueue(counter, f, pending[0].1, x);
      HeldConcat(RunningQueue(counter, f, pending[0].1), RunningCalls(counter, f, pending[1..]), x);
    }
  }

  lemma {:induction false} HeldTasks(tasks: OrderedMap<TraceEvent>, x: TraceEvent)
    ensures Held(RunningTasks(tasks))[x] == 0
  {
    if tasks != [] {
      var n := Node(TaskId(tasks[0].0), Some(RunId), TaskKind, "running", [tasks[0].1], None);
      HeldTasks(tasks[1..], x);
      HeldConcat([n], RunningTasks(tasks[1..]), x);
      HeldOne([], n, x);
      assert [] + [n] == [n];
    }
  }

  lemma FinishAccount(s: State, x: TraceEvent)
    ensures Held(Finish(s))[x] == Account(s, x)
  {
    var llm, tool := RunningCalls(s.counter, Llm, s.llm), RunningCalls(s.counter, Tool, s.tool);
    HeldRunning(s.counter, Llm, s.llm, x);
    HeldRunning(s.counter, Tool, s.tool, x);
    HeldTasks(s.tasks, x);
    HeldConcat(s.nodes, llm, x);
    HeldConcat(s.nodes + llm, tool, x);
    HeldConcat(s.nodes + llm + tool, RunningTasks(s.tasks), x);
  }

  /** The call nodes of a projection hold exactly the call events, each as often as it occurs:
      none is lost, none is shown twice, and no task event is among them. */
  lemma Accounting(es: seq<TraceEvent>)
    ensures Held(Projection(es)) == multiset(CallsOf(es))
  {
    forall x ensures Held(Projection(es))[x] == multiset(CallsOf(es))[x] {
      StateAccount(es, x);
      FinishAccount(StateAfter(es), x);
    }
  }

  // ---------------------------------------------------------------- one event, one node

  ghost predicate Holds(nodes: seq<Node>, i: int, e: TraceEvent) {
    0 <= i < |nodes| && nodes[i].id.CallId? && e in nodes[i].events
  }

  lemma {:induction false} HeldMember(nodes: seq<Node>, e: TraceEvent)
    ensures e in Held(nodes) <==> exists i :: Holds(nodes, i, e)
  {
    if nodes != [] {
      var init, last := nodes[..|nodes| - 1], nodes[|nodes| - 1];
      HeldMember(init, e);
      if i :| Holds(init, i, e) { assert Holds(nodes, i, e); }
      if last.id.CallId? && e in last.events { assert Holds(nodes, |init|, e); }
      if i :| Holds(nodes, i, e) { assert i < |init| ==> Holds(init, i, e); }
    }
  }

  lemma {:induction false} HeldTwice(nodes: seq<Node>, e: TraceEvent, i: int, j: int)
    requires Holds(nodes, i, e) && Holds(nodes, j, e) && i < j
    ensures Held(nodes)[e] >= 2
  {
    var init, last := nodes[..|nodes| - 1], nodes[|nodes| - 1];
    if j < |init| {
      assert Holds(init, i, e) && Holds(init, j, e);
      HeldTwice(init, e, i, j);
    } else {
      assert Holds(init, i, e);
      HeldMember(init, e);
      assert multiset(last.events)[e] >= 1;
    }
  }

  lemma {:induction false} CallsOfMember(es: seq<TraceEvent>, e: TraceEvent)
    ensures e in CallsOf(es) <==> e in es && IsCall(e)
  {
    if es != [] {
      CallsOfMember(es[..|es| - 1], e);
      InitAndLast(es);
    }
  }

  lemma {:induction false} CallsOfOnce(es: seq<TraceEvent>, e: TraceEvent)
    requires UniqueEventIds(es) && e in es && IsCall(e)
    ensures multiset(CallsOf(es))[e] == 1
  {
    var init, last := es[..|es| - 1], es[|es| - 1];
    CallsOfMember(init, e);
    InitAndLast(es);
    if e == last {
      assert e !in init;
      assert multiset(CallsOf(init))[e] == 0;
    } else {
      CallsOfOnce(init, e);
    }
  }

  /** With distinct event ids each call event sits in exactly one call node. */
  lemma EachCallInOneNode(es: seq<TraceEvent>, e: TraceEvent)
    requires UniqueEventIds(es) && e in es && IsCall(e)
    ensures exists i :: Holds(Projection(es), i, e)
    ensures forall i, j :: Holds(Projection(es), i, e) && Holds(Projection(es), j, e) ==> i == j
  {
    Accounting(es);
    CallsOfOnce(es, e);
    HeldMember(Projection(es), e);
    forall i, j | Holds(Projection(es), i, e) && Holds(Projection(es), j, e) ensures i == j {
      if i < j { HeldTwice(Projection(es), e, i, j); }
      if j < i { HeldTwice(Projection(es), e, j, i); }
    }
  }

  // ---------------------------------------------------------------- node ids

  /** A call node is named by its first raw event. */
  ghost predicate NamedByFirst(nodes: seq<Node>) {
    forall i :: 0 <= i < |nodes| && nodes[i].id.CallId? ==>
      nodes[i].events != [] && nodes[i].id.eventId == nodes[i].events[0].eventId
  }

  lemma StepNamed(s: State, e: TraceEvent)
    requires NamedByFirst(s.nodes)
    ensures NamedByFirst(Step(s, e).nodes)
  {
    assert NamedByFirst(Ensure(s, e).nodes);
    if IsCall(e) && !IsStart(e) { EndNamed(Ensure(s, e), e); }
  }

  lemma EndNamed(s: State, e: TraceEvent)
    requires NamedByFirst(s.nodes)
    ensures NamedByFirst(StepEnd(s, e).nodes)
  {
    assert NamedByFirst(EndNodes(s, e));
  }

  lemma {:induction false} StateNamed(es: seq<TraceEvent>)
    ensures NamedByFirst(StateAfter(es).nodes)
  {
    if es != [] {
      StateNamed(es[..|es| - 1]);
      StepNamed(StateAfter(es[..|es| - 1]), es[|es| - 1]);
    }
  }

  lemma {:induction false} QueueNamed(counter: map<string, nat>, f: Family, queue: seq<TraceEvent>)
    ensures NamedByFirst(RunningQueue(counter, f, queue))
  {
    if queue != [] { QueueNamed(counter, f, queue[1..]); }
  }

  lemma {:induction false} RunningNamed(counter: map<string, nat>, f: Family, pending: Pending)
    ensures NamedByFirst(RunningCalls(counter, f, pending))
  {
    if pending != [] {
      QueueNamed(counter, f, pending[0].1);
      RunningNamed(counter, f, pending[1..]);
    }
  }

  lemma {:induction false} TasksNamed(tasks: OrderedMap<TraceEvent>)
    ensures NamedByFirst(RunningTasks(tasks))
  {
    if tasks != [] { TasksNamed(tasks[1..]); }
  }

  lemma FinishNamed(s: State)
    requires NamedByFirst(s.nodes)
    ensures NamedByFirst(Finish(s))
  {
    RunningNamed(s.counter, Llm, s.llm);
    RunningNamed(s.counter, Tool, s.tool);
    TasksNamed(s.tasks);
  }

  /** With distinct event ids no two call nodes share an id. */
  lemma CallIdsUnique(es: seq<TraceEvent>, i: nat, j: nat)
    requires UniqueEventIds(es) && i < |Projection(es)| && j < |Projection(es)|
    requires Projection(es)[i].id.CallId? && Projection(es)[j].id.CallId?
    requires Projection(es)[i].id.eventId == Projection(es)[j].id.eventId
    ensures i == j
  {
    var nodes := Projection(es);
    StateNamed(es);
    FinishNamed(StateAfter(es));
    var a, b := nodes[i].events[0], nodes[j].events[0];
    assert Holds(nodes, i, a) && Holds(nodes, j, b);
    HeldIsCall(es, i, a);
    HeldIsCall(es, j, b);
    assert a == b;
    EachCallInOneNode(es, a);
  }

  lemma HeldIsCall(es: seq<TraceEvent>, i: nat, e: TraceEvent)
    requires Holds(Projection(es), i, e)
    ensures e in es && IsCall(e)
  {
    Accounting(es);
    HeldMember(Projection(es), e);
    CallsOfMember(es, e);
    assert e in multiset(CallsOf(es));
  }
}
