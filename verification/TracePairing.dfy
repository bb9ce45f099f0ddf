/** Which start meets which end: first in, first out under each pairing key. */
module TracePairing {
  import opened Wrappers
  import opened Text
  import opened OrderedMap
  import opened TraceNodes

  predicate Matches(e: TraceEvent, f: Family, key: string) {
    IsCall(e) && FamilyOf(e) == f && PairKey(e) == key
  }

  /** The starts, or the ends, of one key in trace order. */
  function EventsOfKey(es: seq<TraceEvent>, starts: bool, f: Family, key: string): seq<TraceEvent> {
    if es == [] then []
    else
      var e := es[|es| - 1];
      EventsOfKey(es[..|es| - 1], starts, f, key) + if Matches(e, f, key) && IsStart(e) == starts then [e] else []
  }

  datatype Part = PairedStart | LoneStart | End

  /** The part of a call node's raw events that belongs to one key: a start that found its
      end, a start that did not, or an end. */
  function PartOf(n: Node, part: Part, f: Family, key: string): seq<TraceEvent> {
    if !n.id.CallId? || n.events == [] || !Matches(n.events[|n.events| - 1], f, key) then []
    else match part
      case PairedStart => if |n.events| == 2 then [n.events[0]] else []
      case LoneStart => if |n.events| == 1 && IsStart(n.events[0]) then [n.events[0]] else []
      case End => if IsStart(n.events[|n.events| - 1]) then [] else [n.events[|n.events| - 1]]
  }

  function Parts(nodes: seq<Node>, part: Part, f: Family, key: string): seq<TraceEvent> {
    if nodes == [] then []
    else Parts(nodes[..|nodes| - 1], part, f, key) + PartOf(nodes[|nodes| - 1], part, f, key)
  }

  lemma PartsOne(nodes: seq<Node>, n: Node, part: Part, f: Family, key: string)
    ensures Parts(nodes + [n], part, f, key) == Parts(nodes, part, f, key) + PartOf(n, part, f, key)
  {
    assert (nodes + [n])[..|nodes|] == nodes;
  }

  lemma {:induction false} PartsConcat(a: seq<Node>, b: seq<Node>, part: Part, f: Family, key: string)
    ensures Parts(a + b, part, f, key) == Parts(a, part, f, key) + Parts(b, part, f, key)
    decreases |b|
  {
    if b == [] {
      assert a + b == a;
    } else {
      var init, last := b[..|b| - 1], b[|b| - 1];
      PartsConcat(a, init, part, f, key);
      PartsOne(a + init, last, part, f, key);
      AppendInitAndLast(a, b);
      Associate(Parts(a, part, f, key), Parts(init, part, f, key), PartOf(last, part, f, key));
    }
  }

  lemma PartsSingle(n: Node, part: Part, f: Family, key: string)
    ensures Parts([n], part, f, key) == PartOf(n, part, f, key)
  {
    PartsOne([], n, part, f, key);
    assert [] + [n] == [n];
  }

  // ---------------------------------------------------------------- the queues

  predicate AllStarts(queue: seq<TraceEvent>, f: Family, key: string) {
    forall j :: 0 <= j < |queue| ==> IsStart(queue[j]) && Matches(queue[j], f, key)
  }

  /** Every queue holds starts of its own key. */
  ghost predicate Keyed(pending: Pending, f: Family) {
    UniqueKeys(pending) && forall i :: 0 <= i < |pending| ==> AllStarts(pending[i].1, f, pending[i].0)
  }

  lemma KeyedTail(pending: Pending, f: Family)
    requires Keyed(pending, f) && pending != []
    ensures Keyed(pending[1..], f)
  {
    assert forall i :: 0 <= i < |pending[1..]| ==> pending[1..][i] == pending[i + 1];
  }

  lemma {:induction false} QueueKeyed(pending: Pending, f: Family, key: string)
    requires Keyed(pending, f)
    ensures AllStarts(Queue(pending, key), f, key)
  {
    if pending != [] && pending[0].0 != key {
      KeyedTail(pending, f);
      QueueKeyed(pending[1..], f, key);
      assert Queue(pending, key) == Queue(pending[1..], key);
    }
  }

  lemma {:induction false} SetMember<V>(m: OrderedMap<V>, key: string, v: V)
    ensures forall i :: 0 <= i < |Set(m, key, v)| ==> Set(m, key, v)[i] == (key, v) || Set(m, key, v)[i] in m
  {
    if m != [] && m[0].0 != key { SetMember(m[1..], key, v); }
  }

  lemma {:induction false} DeleteMember<V>(m: OrderedMap<V>, key: string)
    ensures forall i :: 0 <= i < |Delete(m, key)| ==> Delete(m, key)[i] in m
  {
    if m != [] && m[0].0 != key { DeleteMember(m[1..], key); }
  }

  lemma SetKeyed(pending: Pending, f: Family, key: string, queue: seq<TraceEvent>)
    requires Keyed(pending, f)
    requires AllStarts(queue, f, key)
    ensures Keyed(Set(pending, key, queue), f)
  {
    SetUnique(pending, key, queue);
    SetMember(pending, key, queue);
  }

  lemma DeleteKeyed(pending: Pending, f: Family, key: string)
    requires Keyed(pending, f)
    ensures Keyed(Delete(pending, key), f)
  {
    DeleteUnique(pending, key);
    DeleteMember(pending, key);
  }

  lemma EnqueueQueue(pending: Pending, f: Family, e: TraceEvent, key: string)
    requires Keyed(pending, f) && IsStart(e) && FamilyOf(e) == f
    ensures Keyed(Enqueue(pending, e), f)
    ensures Queue(Enqueue(pending, e), key) == Queue(pending, key) + if PairKey(e) == key then [e] else []
  {
    QueueKeyed(pending, f, PairKey(e));
    SetKeyed(pending, f, PairKey(e), Queue(pending, PairKey(e)) + [e]);
    GetSet(pending, PairKey(e), Queue(pending, PairKey(e)) + [e], key);
  }

  lemma DequeueQueue(pending: Pending, f: Family, own: string, key: string)
    requires Keyed(pending, f)
    ensures Keyed(Dequeue(pending, own), f)
    ensures var queue := Queue(pending, key);
            Queue(Dequeue(pending, own), key) == if own != key then queue else if queue == [] then [] else queue[1..]
  {
    var queue := Queue(pending, own);
    QueueKeyed(pending, f, own);
    if |queue| <= 1 {
      DeleteKeyed(pending, f, own);
      GetDelete(pending, own, key);
    } else {
      SetKeyed(pending, f, own, queue[1..]);
      GetSet(pending, own, queue[1..], key);
    }
  }

  // ---------------------------------------------------------------- first in, first out

  ghost predicate QueuesKeyed(s: State) {
    Keyed(s.llm, Llm) && Keyed(s.tool, Tool)
  }

  /** The starts of a key, as the nodes and the queue together show them. */
  function Shown(s: State, f: Family, key: string): seq<TraceEvent> {
    Parts(s.nodes, PairedStart, f, key) + Queue(PendingOf(s, f), key)
  }

  lemma EnsureParts(s: State, e: TraceEvent, part: Part, f: Family, key: string)
    ensures Parts(Ensure(s, e).nodes, part, f, key) == Parts(s.nodes, part, f, key)
    ensures Ensure(s, e).llm == s.llm && Ensure(s, e).tool == s.tool
  {
    var agents := AgentAdded(s, e);
    EnsureAdds(s, e);
    AppendNothing(s.nodes);
    if agents != [] {
      assert agents == [agents[0]];
      PartsOne(s.nodes, agents[0], part, f, key);
    }
  }

  lemma StartFifo(s: State, e: TraceEvent, f: Family, key: string)
    requires QueuesKeyed(s) && IsStart(e)
    ensures QueuesKeyed(StepStart(s, e))
    ensures Shown(StepStart(s, e), f, key) == Shown(s, f, key) + if Matches(e, f, key) then [e] else []
  {
    EnqueueQueue(PendingOf(s, FamilyOf(e)), FamilyOf(e), e, key);
    Associate(Parts(s.nodes, PairedStart, f, key), Queue(PendingOf(s, f), key), if Matches(e, f, key) then [e] else []);
  }

  lemma EndParts(s: State, e: TraceEvent, part: Part, f: Family, key: string)
    ensures Parts(StepEnd(s, e).nodes, part, f, key) == Parts(s.nodes, part, f, key) + PartOf(CallNode(s, e), part, f, key)
  {
    PartsConcat(s.nodes, EndNodes(s, e), part, f, key);
    PartsSingle(CallNode(s, e), part, f, key);
    if ShowsTodos(e) { PartsOne([CallNode(s, e)], TodoNode(s, e), part, f, key); }
  }

  lemma CallNodeParts(s: State, e: TraceEvent, f: Family, key: string)
    requires IsCall(e) && !IsStart(e)
    ensures var queue := Queue(PendingOf(s, f), key);
            PartOf(CallNode(s, e), PairedStart, f, key) == if Matches(e, f, key) && queue != [] then [queue[0]] else []
    ensures PartOf(CallNode(s, e), LoneStart, f, key) == []
    ensures PartOf(CallNode(s, e), End, f, key) == if Matches(e, f, key) then [e] else []
  {
  }

  lemma MoveHead<T>(a: seq<T>, b: seq<T>)
    ensures b != [] ==> (a + [b[0]]) + b[1..] == a + b && [b[0]] + b[1..] == b
    ensures a + [] == a
  {
  }

  lemma EndFifo(s: State, e: TraceEvent, f: Family, key: string)
    requires QueuesKeyed(s) && IsCall(e) && !IsStart(e)
    ensures QueuesKeyed(StepEnd(s, e))
    ensures Shown(StepEnd(s, e), f, key) == Shown(s, f, key)
  {
    var queue := Queue(PendingOf(s, f), key);
    DequeueQueue(PendingOf(s, FamilyOf(e)), FamilyOf(e), PairKey(e), key);
    EndParts(s, e, PairedStart, f, key);
    CallNodeParts(s, e, f, key);
    MoveHead(Parts(s.nodes, PairedStart, f, key), queue);
  }

  lemma NodeFifo(s: State, n: Node, f: Family, key: string)
    requires !n.id.CallId?
    ensures Shown(s.(nodes := s.nodes + [n]), f, key) == Shown(s, f, key)
    ensures forall part :: Parts(s.nodes + [n], part, f, key) == Parts(s.nodes, part, f, key)
  {
    forall part ensures Parts(s.nodes + [n], part, f, key) == Parts(s.nodes, part, f, key) {
      PartsOne(s.nodes, n, part, f, key);
    }
  }

  lemma StepFifo(s: State, e: TraceEvent, f: Family, key: string)
    requires QueuesKeyed(s)
    ensures QueuesKeyed(Step(s, e))
    ensures Shown(Step(s, e), f, key) == Shown(s, f, key) + if Matches(e, f, key) && IsStart(e) then [e] else []
  {
    EnsureParts(s, e, PairedStart, f, key);
    if IsTask(e) {
      if !e.kind.ToolStart? { NodeFifo(s, TaskNode(e), f, key); }
    } else if IsStart(e) {
      StartFifo(Ensure(s, e), e, f, key);
    } else if IsCall(e) {
      EndFifo(Ensure(s, e), e, f, key);
    } else if e.kind.RunError? {
      NodeFifo(s, StepRunError(s, e).nodes[|s.nodes|], f, key);
    }
  }

  /** The other two parts: no node of the pass itself is a lone start, and every end has one. */
  lemma StepEnds(s: State, e: TraceEvent, part: Part, f: Family, key: string)
    requires !part.PairedStart?
    ensures Parts(Step(s, e).nodes, part, f, key) ==
            Parts(s.nodes, part, f, key) + if part.End? && Matches(e, f, key) && !IsStart(e) then [e] else []
  {
    EnsureParts(s, e, part, f, key);
    if IsTask(e) {
      if !e.kind.ToolStart? { NodeFifo(s, TaskNode(e), f, key); }
    } else if IsStart(e) {
    } else if IsCall(e) {
      CallNodeParts(Ensure(s, e), e, f, key);
      EndParts(Ensure(s, e), e, part, f, key);
    } else if e.kind.RunError? {
      NodeFifo(s, StepRunError(s, e).nodes[|s.nodes|], f, key);
    }
  }

  lemma {:induction false} StateFifo(es: seq<TraceEvent>, f: Family, key: string)
    ensures QueuesKeyed(StateAfter(es))
    ensures Shown(StateAfter(es), f, key) == EventsOfKey(es, true, f, key)
    ensures Parts(StateAfter(es).nodes, LoneStart, f, key) == []
    ensures Parts(StateAfter(es).nodes, End, f, key) == EventsOfKey(es, false, f, key)
  {
    if es != [] {
      var init, e := es[..|es| - 1], es[|es| - 1];
      StateFifo(init, f, key);
      StepFifo(StateAfter(init), e, f, key);
      StepEnds(StateAfter(init), e, LoneStart, f, key);
      StepEnds(StateAfter(init), e, End, f, key);
    }
  }

  // ---------------------------------------------------------------- leftovers

  lemma RunningPart(counter: map<string, nat>, g: Family, own: string, e: TraceEvent, part: Part, f: Family, key: string)
    requires IsStart(e) && Matches(e, g, own)
    ensures PartOf(RunningCall(counter, g, e), part, f, key) == if part.LoneStart? && f == g && own == key then [e] else []
  {
  }

  lemma {:induction false} RunningQueueParts(counter: map<string, nat>, g: Family, own: string, queue: seq<TraceEvent>, part: Part,
                                             f: Family, key: string)
    requires AllStarts(queue, g, own)
    ensures Parts(RunningQueue(counter, g, queue), part, f, key) ==
            if part.LoneStart? && f == g && own == key then queue else []
  {
    if queue != [] {
      var n := RunningCall(counter, g, queue[0]);
      RunningQueueParts(counter, g, own, queue[1..], part, f, key);
      PartsConcat([n], RunningQueue(counter, g, queue[1..]), part, f, key);
      PartsSingle(n, part, f, key);
      RunningPart(counter, g, own, queue[0], part, f, key);
      MoveHead([], queue);
    }
  }

  lemma QueueOfCons(pending: Pending, key: string)
    requires pending != [] && UniqueKeys(pending)
    ensures Queue(pending, key) == (if pending[0].0 == key then pending[0].1 else []) + Queue(pending[1..], key)
  {
  }

  lemma {:induction false} RunningParts(counter: map<string, nat>, g: Family, pending: Pending, part: Part, f: Family, key: string)
    requires Keyed(pending, g)
    ensures Parts(RunningCalls(counter, g, pending), part, f, key) ==
            if part.LoneStart? && f == g then Queue(pending, key) else []
  {
    if pending != [] {
      KeyedTail(pending, g);
      RunningParts(counter, g, pending[1..], part, f, key);
      RunningQueueParts(counter, g, pending[0].0, pending[0].1, part, f, key);
      PartsConcat(RunningQueue(counter, g, pending[0].1), RunningCalls(counter, g, pending[1..]), part, f, key);
      QueueOfCons(pending, key);
    }
  }

  lemma {:induction false} TaskParts(tasks: OrderedMap<TraceEvent>, part: Part, f: Family, key: string)
    ensures Parts(RunningTasks(tasks), part, f, key) == []
  {
    if tasks != [] {
      var n := Node(TaskId(tasks[0].0), Some(RunId), TaskKind, "running", [tasks[0].1], None);
      TaskParts(tasks[1..], part, f, key);
      PartsConcat([n], RunningTasks(tasks[1..]), part, f, key);
      PartsSingle(n, part, f, key);
    }
  }

  lemma FinishParts(s: State, part: Part, f: Family, key: string)
    requires QueuesKeyed(s)
    ensures Parts(Finish(s), part, f, key) ==
            if part.LoneStart? then Parts(s.nodes, part, f, key) + Queue(PendingOf(s, f), key) else Parts(s.nodes, part, f, key)
  {
    var llm, tool := RunningCalls(s.counter, Llm, s.llm), RunningCalls(s.counter, Tool, s.tool);
    RunningParts(s.counter, Llm, s.llm, part, f, key);
    RunningParts(s.counter, Tool, s.tool, part, f, key);
    TaskParts(s.tasks, part, f, key);
    PartsConcat(s.nodes, llm, part, f, key);
    PartsConcat(s.nodes + llm, tool, part, f, key);
    PartsConcat(s.nodes + llm + tool, RunningTasks(s.tasks), part, f, key);
    AppendNothing(Parts(s.nodes, part, f, key));
    AppendNothing(Parts(s.nodes, part, f, key) + Queue(PendingOf(s, f), key));
  }

  lemma FinishFifo(s: State, f: Family, key: string)
    requires QueuesKeyed(s) && Parts(s.nodes, LoneStart, f, key) == []
    ensures Parts(Finish(s), PairedStart, f, key) + Parts(Finish(s), LoneStart, f, key) == Shown(s, f, key)
    ensures Parts(Finish(s), End, f, key) == Parts(s.nodes, End, f, key)
  {
    FinishParts(s, PairedStart, f, key);
    FinishParts(s, LoneStart, f, key);
    FinishParts(s, End, f, key);
    MoveHead(Parts(s.nodes, PairedStart, f, key), []);
    assert [] + Queue(PendingOf(s, f), key) == Queue(PendingOf(s, f), key);
  }

  /** Under every key the starts, in trace order, are the paired starts in the order of their
      ends followed by the starts that never ended, and these are the running nodes; the ends
      keep their order too. So the k-th pair joins the k-th start to the k-th paired end. */
  lemma FirstInFirstOut(es: seq<TraceEvent>, f: Family, key: string)
    ensures Parts(Projection(es), PairedStart, f, key) + Parts(Projection(es), LoneStart, f, key) == EventsOfKey(es, true, f, key)
    ensures Parts(Projection(es), End, f, key) == EventsOfKey(es, false, f, key)
  {
    StateFifo(es, f, key);
    FinishFifo(StateAfter(es), f, key);
  }

  // ---------------------------------------------------------------- when an end finds a start

  function Balance(e: TraceEvent, f: Family, key: string): int {
    if !Matches(e, f, key) then 0 else if IsStart(e) then 1 else -1
  }

  /** Starts minus ends of a key. */
  function Surplus(es: seq<TraceEvent>, f: Family, key: string): int {
    if es == [] then 0 else Surplus(es[..|es| - 1], f, key) + Balance(es[|es| - 1], f, key)
  }

  lemma SurplusFrom(es: seq<TraceEvent>, j: nat, f: Family, key: string)
    requires j < |es|
    ensures Surplus(es[j..], f, key) == Surplus(es[..|es| - 1][j..], f, key) + Balance(es[|es| - 1], f, key)
  {
    assert es[j..][..|es[j..]| - 1] == es[..|es| - 1][j..];
  }

  lemma QueueLength(s: State, e: TraceEvent, f: Family, key: string)
    requires QueuesKeyed(s)
    ensures var n := |Queue(PendingOf(s, f), key)|;
            |Queue(PendingOf(Step(s, e), f), key)| == if n + Balance(e, f, key) < 0 then 0 else n + Balance(e, f, key)
  {
    EnsureParts(s, e, End, f, key);
    if IsStart(e) {
      EnqueueQueue(PendingOf(Ensure(s, e), FamilyOf(e)), FamilyOf(e), e, key);
    } else if IsCall(e) {
      DequeueQueue(PendingOf(Ensure(s, e), FamilyOf(e)), FamilyOf(e), PairKey(e), key);
    }
  }

  /** A queue is as long as the largest surplus of starts over ends in any last stretch. */
  lemma {:induction false} QueueIsLargestSurplus(es: seq<TraceEvent>, f: Family, key: string) returns (i: nat)
    ensures i <= |es| && |Queue(PendingOf(StateAfter(es), f), key)| == Surplus(es[i..], f, key)
    ensures forall j :: 0 <= j <= |es| ==> Surplus(es[j..], f, key) <= |Queue(PendingOf(StateAfter(es), f), key)|
  {
    if es == [] {
      i := 0;
    } else {
      var init, e := es[..|es| - 1], es[|es| - 1];
      i := QueueIsLargestSurplus(init, f, key);
      StateFifo(init, f, key);
      QueueLength(StateAfter(init), e, f, key);
      forall j | 0 <= j < |es|
        ensures Surplus(es[j..], f, key) == Surplus(init[j..], f, key) + Balance(e, f, key)
      {
        SurplusFrom(es, j, f, key);
      }
      assert es[|es|..] == [];
      if Matches(e, f, key) && !IsStart(e) && |Queue(PendingOf(StateAfter(init), f), key)| == 0 { i := |es|; }
    }
  }

  /** An end finds a start exactly when some stretch of events just before it holds more
      starts than ends of its key. */
  lemma PairedExactly(es: seq<TraceEvent>, e: TraceEvent)
    requires IsCall(e) && !IsStart(e)
    ensures |CallEvents(StateAfter(es), e)| == 2 <==> exists j :: 0 <= j <= |es| && Surplus(es[j..], FamilyOf(e), PairKey(e)) > 0
  {
    var i := QueueIsLargestSurplus(es, FamilyOf(e), PairKey(e));
  }
}
