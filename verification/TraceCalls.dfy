/** Which start and which end are one call: said of the call ids, run ids and names of the
    events in the nodes of a projection. */
module TraceCalls {
  import opened Text
  import opened OrderedMap
  import opened TraceNodes
  import opened TraceAccounting
  import opened TracePairing

  // ---------------------------------------------------------------- one call

  /** The names by which events without any id are paired: agent and model, or agent and tool. */
  function NamesOf(e: TraceEvent): string {
    var what := if FamilyOf(e).Llm? then e.modelName else e.toolName;
    (if e.agent == "" then "unknown" else e.agent) + ":" + (if what == "" then "unknown" else what)
  }

  /** Two events of one call: the same call id, where that is empty the same run id, and where
      both are empty the same names. */
  predicate SameCall(s: TraceEvent, e: TraceEvent) {
    && FamilyOf(s) == FamilyOf(e)
    && if e.toolCallId != "" then s.toolCallId == e.toolCallId
       else if e.runId != "" then s.toolCallId == "" && s.runId == e.runId
       else s.toolCallId == "" && s.runId == "" && NamesOf(s) == NamesOf(e)
  }

  /** The keys of two texts that begin differently differ; with the same beginning they are
      equal if the rest is. */
  lemma PrefixedSame(p: string, a: string, q: string, b: string)
    ensures p == q ==> (p + a == q + b <==> a == b)
    ensures (exists i :: 0 <= i < |p| && i < |q| && p[i] != q[i]) ==> p + a != q + b
  {
    if p == q && p + a == q + b { assert (p + a)[|p|..] == a && (q + b)[|q|..] == b; }
    if i :| 0 <= i < |p| && i < |q| && p[i] != q[i] { assert (p + a)[i] != (q + b)[i]; }
  }

  lemma KeysDiffer(a: string, b: string)
    ensures "tool_call:" + a != "run:" + b && "tool_call:" + a != "llm:" + b && "tool_call:" + a != "tool:" + b
    ensures "run:" + a != "llm:" + b && "run:" + a != "tool:" + b && "llm:" + a != "tool:" + b
  {
    assert ("tool_call:" + a)[4] == '_' && ("tool:" + b)[4] == ':';
    assert ("tool_call:" + a)[0] == 't' && ("run:" + b)[0] == 'r' && ("llm:" + b)[0] == 'l';
    assert ("run:" + a)[0] == 'r' && ("tool:" + b)[0] == 't' && ("llm:" + a)[0] == 'l';
  }

  lemma NamedKey(e: TraceEvent)
    requires e.toolCallId == "" && e.runId == ""
    ensures PairKey(e) == (if FamilyOf(e).Llm? then "llm:" else "tool:") + NamesOf(e)
  {
    var rest := if FamilyOf(e).Llm? then e.modelName else e.toolName;
    var p := if FamilyOf(e).Llm? then "llm:" else "tool:";
    assert p + OrUnknown(e.agent) + ":" + OrUnknown(rest) == p + (OrUnknown(e.agent) + ":" + OrUnknown(rest));
  }

  /** The pairing key tells exactly this. */
  lemma KeyMeaning(s: TraceEvent, e: TraceEvent)
    requires FamilyOf(s) == FamilyOf(e)
    ensures PairKey(s) == PairKey(e) <==> SameCall(s, e)
  {
    if s.toolCallId == "" && s.runId == "" { NamedKey(s); }
    if e.toolCallId == "" && e.runId == "" { NamedKey(e); }
    KeysDiffer(s.toolCallId, e.runId);
    KeysDiffer(s.toolCallId, NamesOf(e));
    KeysDiffer(s.runId, NamesOf(e));
    KeysDiffer(e.toolCallId, s.runId);
    KeysDiffer(e.toolCallId, NamesOf(s));
    KeysDiffer(e.runId, NamesOf(s));
    PrefixedSame("tool_call:", s.toolCallId, "tool_call:", e.toolCallId);
    PrefixedSame("run:", s.runId, "run:", e.runId);
    PrefixedSame("llm:", NamesOf(s), "llm:", NamesOf(e));
    PrefixedSame("tool:", NamesOf(s), "tool:", NamesOf(e));
  }

  /** Where no agent has a colon in its name, the same names are the same agent and the same
      model or tool, an absent one counting as "unknown". */
  lemma NamesMeaning(s: TraceEvent, e: TraceEvent)
    requires FamilyOf(s) == FamilyOf(e) && ':' !in s.agent && ':' !in e.agent
    ensures NamesOf(s) == NamesOf(e) <==>
            && OrUnknown(s.agent) == OrUnknown(e.agent)
            && (if FamilyOf(e).Llm? then OrUnknown(s.modelName) == OrUnknown(e.modelName)
                else OrUnknown(s.toolName) == OrUnknown(e.toolName))
  {
    var a, b := OrUnknown(s.agent), OrUnknown(e.agent);
    var x := OrUnknown(if FamilyOf(s).Llm? then s.modelName else s.toolName);
    var y := OrUnknown(if FamilyOf(e).Llm? then e.modelName else e.toolName);
    CutAtColon(a, x, b, y);
  }

  lemma CutAtColon(a: string, x: string, b: string, y: string)
    requires ':' !in a && ':' !in b
    ensures a + ":" + x == b + ":" + y <==> a == b && x == y
  {
    FirstColon(a, x);
    FirstColon(b, y);
  }

  lemma FirstColon(a: string, x: string)
    requires ':' !in a
    ensures var s := a + ":" + x;
            && |a| < |s| && s[|a|] == ':' && s[..|a|] == a && s[|a| + 1..] == x && forall i :: 0 <= i < |a| ==> s[i] != ':'
  {
    assert forall i :: 0 <= i < |a| ==> (a + ":" + x)[i] == a[i] && a[i] in a;
  }

  /** With colons in the names, different calls can be taken for one. */
  lemma ColonsCollide(s: TraceEvent, e: TraceEvent)
    requires FamilyOf(s).Llm? && FamilyOf(e).Llm? && s.toolCallId == s.runId == e.toolCallId == e.runId == ""
    requires s.agent == "a:b" && s.modelName == "c" && e.agent == "a" && e.modelName == "b:c"
    ensures PairKey(s) == PairKey(e)
  {
    KeyMeaning(s, e);
    assert "a:b" + ":" + "c" == "a" + ":" + "b:c";
  }

  // ---------------------------------------------------------------- what call nodes hold

  /** A call node holds a start and its end, or an end alone. */
  ghost predicate Ended(n: Node) {
    n.id.CallId? ==>
      && 1 <= |n.events| <= 2
      && var e := n.events[|n.events| - 1];
      && IsCall(e) && !IsStart(e) && n.id.family == FamilyOf(e)
      && (|n.events| == 2 ==> IsStart(n.events[0]) && SameCall(n.events[0], e))
  }

  ghost predicate AllEnded(nodes: seq<Node>) {
    forall i :: 0 <= i < |nodes| ==> Ended(nodes[i])
  }

  lemma EndsPaired(s: State, e: TraceEvent)
    requires QueuesKeyed(s) && IsCall(e) && !IsStart(e)
    ensures Ended(CallNode(s, e)) && Ended(TodoNode(s, e))
  {
    var pending, key := PendingOf(s, FamilyOf(e)), PairKey(e);
    QueueKeyed(pending, FamilyOf(e), key);
    if Queue(pending, key) != [] { KeyMeaning(Queue(pending, key)[0], e); }
  }

  lemma EnsureEnded(s: State, e: TraceEvent)
    requires AllEnded(s.nodes)
    ensures AllEnded(Ensure(s, e).nodes)
  {
    EnsureAdds(s, e);
  }

  lemma StepEnded(s: State, e: TraceEvent)
    requires QueuesKeyed(s) && AllEnded(s.nodes)
    ensures AllEnded(Step(s, e).nodes)
  {
    EnsureEnded(s, e);
    EnsureAdds(s, e);
    if !IsTask(e) && !IsStart(e) && IsCall(e) { EndsPaired(Ensure(s, e), e); }
  }

  lemma {:induction false} StateEnded(es: seq<TraceEvent>)
    ensures AllEnded(StateAfter(es).nodes) && QueuesKeyed(StateAfter(es))
  {
    StateFifo(es, Llm, "");
    if es != [] {
      StateEnded(es[..|es| - 1]);
      StepEnded(StateAfter(es[..|es| - 1]), es[|es| - 1]);
    }
  }

  /** In a projection, a call node holds a start alone, and is running, or an end alone, or a
      start and an end of one call: the same call id, or without one the same run id, or
      without either the same names. */
  ghost predicate OneCall(n: Node) {
    n.id.CallId? ==> if |n.events| == 1 && IsStart(n.events[0]) then ShownRunning(n, n.events[0]) else Ended(n)
  }

  /** A running model call or tool call, named by its start. */
  predicate ShownRunning(n: Node, e: TraceEvent) {
    && n.id == CallId(FamilyOf(e), e.eventId) && n.status == "running"
    && n.kind == match e.kind { case LlmStart => LlmKind case _ => ToolKind }
  }

  ghost predicate AllOneCall(nodes: seq<Node>) {
    forall i :: 0 <= i < |nodes| ==> OneCall(nodes[i])
  }

  lemma {:induction false} QueueOneCall(counter: map<string, nat>, f: Family, key: string, queue: seq<TraceEvent>)
    requires AllStarts(queue, f, key)
    ensures AllOneCall(RunningQueue(counter, f, queue))
  {
    if queue != [] { QueueOneCall(counter, f, key, queue[1..]); }
  }

  lemma {:induction false} RunningOneCall(counter: map<string, nat>, f: Family, pending: Pending)
    requires Keyed(pending, f)
    ensures AllOneCall(RunningCalls(counter, f, pending))
  {
    if pending != [] {
      KeyedTail(pending, f);
      QueueOneCall(counter, f, pending[0].0, pending[0].1);
      RunningOneCall(counter, f, pending[1..]);
    }
  }

  lemma {:induction false} TasksOneCall(tasks: OrderedMap<TraceEvent>)
    ensures AllOneCall(RunningTasks(tasks))
  {
    if tasks != [] { TasksOneCall(tasks[1..]); }
  }

  lemma NodesHoldOneCall(es: seq<TraceEvent>)
    ensures AllOneCall(Projection(es))
  {
    var s := StateAfter(es);
    StateEnded(es);
    RunningOneCall(s.counter, Llm, s.llm);
    RunningOneCall(s.counter, Tool, s.tool);
    TasksOneCall(s.tasks);
    assert AllOneCall(s.nodes);
  }

  /** So whatever a node pairs is one call. */
  lemma PairsAreCalls(es: seq<TraceEvent>, i: nat)
    requires i < |Projection(es)| && Projection(es)[i].id.CallId? && |Projection(es)[i].events| > 1
    ensures var n := Projection(es)[i];
            && |n.events| == 2 && IsStart(n.events[0]) && IsCall(n.events[1]) && !IsStart(n.events[1])
            && SameCall(n.events[0], n.events[1])
  {
    NodesHoldOneCall(es);
  }

  // ---------------------------------------------------------------- calls with one start and one end

  /** Of two events of one call the earlier is a start and the later an end. So no call has
      more than one of each. */
  ghost predicate OneEach(es: seq<TraceEvent>) {
    forall i, j :: 0 <= i < j < |es| && IsCall(es[i]) && IsCall(es[j]) && SameCall(es[i], es[j]) ==>
      IsStart(es[i]) && !IsStart(es[j])
  }

  lemma {:induction false} NoneOfKey(es: seq<TraceEvent>, starts: bool, f: Family, key: string)
    requires forall i :: 0 <= i < |es| ==> !(Matches(es[i], f, key) && IsStart(es[i]) == starts)
    ensures EventsOfKey(es, starts, f, key) == []
  {
    if es != [] { NoneOfKey(es[..|es| - 1], starts, f, key); }
  }

  lemma {:induction false} OneOfKey(es: seq<TraceEvent>, starts: bool, f: Family, key: string, i: nat)
    requires i < |es| && Matches(es[i], f, key) && IsStart(es[i]) == starts
    requires forall k :: 0 <= k < |es| && k != i ==> !(Matches(es[k], f, key) && IsStart(es[k]) == starts)
    ensures EventsOfKey(es, starts, f, key) == [es[i]]
  {
    var n := |es| - 1;
    if i == n { NoneOfKey(es[..n], starts, f, key); } else { OneOfKey(es[..n], starts, f, key, i); }
  }

  /** No node of the pass pairs a start of a key without an end of the key. */
  lemma {:induction false} NoEndNoPair(nodes: seq<Node>, f: Family, key: string)
    requires AllEnded(nodes) && Parts(nodes, End, f, key) == []
    ensures Parts(nodes, PairedStart, f, key) == []
  {
    if nodes != [] {
      var n := |nodes| - 1;
      assert Ended(nodes[n]);
      NoEndNoPair(nodes[..n], f, key);
    }
  }

  /** Before its end, the start of a call waits alone. */
  lemma StartWaits(es: seq<TraceEvent>, i: nat, j: nat)
    requires i < j < |es| && OneEach(es) && IsCall(es[i]) && IsCall(es[j]) && SameCall(es[i], es[j])
    ensures Queue(PendingOf(StateAfter(es[..j]), FamilyOf(es[j])), PairKey(es[j])) == [es[i]]
  {
    var before, f, key := es[..j], FamilyOf(es[j]), PairKey(es[j]);
    KeyMeaning(es[i], es[j]);
    forall k | 0 <= k < j && Matches(es[k], f, key) ensures k == i {
      KeyMeaning(es[k], es[j]);
      NotThree(es, i, j, k);
    }
    OneOfKey(before, true, f, key, i);
    NoneOfKey(before, false, f, key);
    StateFifo(before, f, key);
    StateEnded(before);
    NoEndNoPair(StateAfter(before).nodes, f, key);
    assert [] + Queue(PendingOf(StateAfter(before), f), key) == Queue(PendingOf(StateAfter(before), f), key);
  }

  lemma NotThree(es: seq<TraceEvent>, i: nat, j: nat, k: nat)
    requires i < j < |es| && k < j && OneEach(es) && IsCall(es[i]) && IsCall(es[j]) && IsCall(es[k])
    requires SameCall(es[i], es[j]) && SameCall(es[k], es[j])
    ensures k == i
  {
    if k < i { assert SameCall(es[k], es[i]); }
    if i < k { assert SameCall(es[i], es[k]); }
  }

  lemma StepGrows(s: State, e: TraceEvent)
    ensures |s.nodes| <= |Step(s, e).nodes| && Step(s, e).nodes[..|s.nodes|] == s.nodes
  {
    EnsureAdds(s, e);
  }

  lemma {:induction false} NodesStay(es: seq<TraceEvent>, k: nat, i: nat)
    requires k <= |es| && i < |StateAfter(es[..k]).nodes|
    ensures i < |StateAfter(es).nodes| && StateAfter(es).nodes[i] == StateAfter(es[..k]).nodes[i]
    decreases |es|
  {
    if k == |es| {
      assert es[..k] == es;
    } else {
      var init := es[..|es| - 1];
      assert init[..k] == es[..k];
      NodesStay(init, k, i);
      StepGrows(StateAfter(init), es[|es| - 1]);
      assert Step(StateAfter(init), es[|es| - 1]).nodes[..|StateAfter(init).nodes|][i] == StateAfter(init).nodes[i];
    }
  }

  /** The end of a call is in one node, with its own start before it and named by that start. */
  lemma CallPaired(es: seq<TraceEvent>, i: nat, j: nat) returns (n: nat)
    requires i < j < |es| && OneEach(es) && IsCall(es[i]) && IsCall(es[j]) && SameCall(es[i], es[j])
    ensures n < |Projection(es)| && Projection(es)[n].events == [es[i], es[j]]
    ensures Projection(es)[n].id == CallId(FamilyOf(es[j]), es[i].eventId)
    ensures UniqueEventIds(es) ==> forall k :: Holds(Projection(es), k, es[i]) || Holds(Projection(es), k, es[j]) ==> k == n
  {
    StartWaits(es, i, j);
    n := EndNode(es, j);
    assert Holds(Projection(es), n, es[i]) && Holds(Projection(es), n, es[j]);
    if UniqueEventIds(es) {
      EachCallInOneNode(es, es[i]);
      EachCallInOneNode(es, es[j]);
    }
  }

  /** The node of an end is there at last as it was pushed. */
  lemma EndNode(es: seq<TraceEvent>, j: nat) returns (n: nat)
    requires j < |es| && IsCall(es[j]) && !IsStart(es[j])
    ensures n < |Projection(es)| && Projection(es)[n].events == CallEvents(StateAfter(es[..j]), es[j])
    ensures Projection(es)[n].id == CallId(FamilyOf(es[j]), CallEvents(StateAfter(es[..j]), es[j])[0].eventId)
    ensures Projection(es)[n].kind == CallKind(es[j]) && Projection(es)[n].status == CallStatus(es[j])
  {
    var s := StateAfter(es[..j]);
    EnsureAdds(s, es[j]);
    n := |Ensure(s, es[j]).nodes|;
    assert es[..j + 1] == es[..j] + [es[j]];
    StateAfterOneMore(es[..j], es[j]);
    assert CallEvents(Ensure(s, es[j]), es[j]) == CallEvents(s, es[j]);
    assert StateAfter(es[..j + 1]).nodes[n] == CallNode(Ensure(s, es[j]), es[j]);
    NodesStay(es, j + 1, n);
  }

  /** Which events are what. */
  lemma Classes(e: TraceEvent)
    ensures var task := e.toolName == "task" && (e.kind.ToolStart? || e.kind.ToolEnd? || e.kind.ToolError?);
            && (IsTask(e) <==> task)
            && (IsCall(e) <==> e.kind.LlmStart? || e.kind.LlmEnd? || e.kind.LlmError?
                               || (e.toolName != "task" && (e.kind.ToolStart? || e.kind.ToolEnd? || e.kind.ToolError?)))
            && (IsStart(e) <==> e.kind.LlmStart? || (e.toolName != "task" && e.kind.ToolStart?))
    ensures e.kind.LlmStart? || e.kind.LlmEnd? || e.kind.LlmError? ==> FamilyOf(e) == Llm
    ensures e.kind.ToolStart? || e.kind.ToolEnd? || e.kind.ToolError? ==> FamilyOf(e) == Tool
  {
  }

  /** How the end of a call is shown: a failed model call as an error; a tool as a skill if its
      output is one, else as a failed error if its output says so, else as a tool; and the
      segment of the context likewise. */
  lemma EndShown(es: seq<TraceEvent>, j: nat) returns (n: nat)
    requires j < |es| && IsCall(es[j]) && !IsStart(es[j])
    ensures n < |Projection(es)| && Projection(es)[n].id.CallId? && es[j] in Projection(es)[n].events
    ensures var e, node := es[j], Projection(es)[n];
            && (e.kind.LlmEnd? ==> node.kind == LlmKind && node.status == e.status)
            && (e.kind.LlmError? ==> node.kind == ErrorKind && node.status == e.status)
            && (FamilyOf(e).Tool? && e.skill != "" ==> node.kind == SkillKind && node.status == e.status)
            && (FamilyOf(e).Tool? && e.skill == "" && e.failed ==> node.kind == ErrorKind && node.status == "failed")
            && (FamilyOf(e).Tool? && e.skill == "" && !e.failed ==> node.kind == ToolKind && node.status == e.status)
    ensures CallSegment(es[j]) ==
            match Projection(es)[n].kind {
              case LlmKind => AiSegment
              case ErrorKind => ErrorSegment
              case SkillKind => SkillSegment
              case _ => ToolSegment
            }
  {
    n := EndNode(es, j);
  }

  /** An end whose call has no start is alone. */
  lemma EndAlone(es: seq<TraceEvent>, j: nat) returns (n: nat)
    requires j < |es| && IsCall(es[j]) && !IsStart(es[j])
    requires forall i :: 0 <= i < j && IsStart(es[i]) ==> !SameCall(es[i], es[j])
    ensures n < |Projection(es)| && Projection(es)[n].events == [es[j]]
    ensures Projection(es)[n].id == CallId(FamilyOf(es[j]), es[j].eventId)
  {
    var before, f, key := es[..j], FamilyOf(es[j]), PairKey(es[j]);
    forall k | 0 <= k < j ensures !(Matches(before[k], f, key) && IsStart(before[k])) {
      if FamilyOf(es[k]) == f { KeyMeaning(es[k], es[j]); }
    }
    NoneOfKey(before, true, f, key);
    StateFifo(before, f, key);
    n := EndNode(es, j);
  }

  // ---------------------------------------------------------------- running calls

  lemma {:induction false} InParts(nodes: seq<Node>, part: Part, f: Family, key: string, x: TraceEvent)
    ensures x in Parts(nodes, part, f, key) <==> exists i :: 0 <= i < |nodes| && x in PartOf(nodes[i], part, f, key)
  {
    if nodes != [] {
      var n := |nodes| - 1;
      InParts(nodes[..n], part, f, key, x);
      if i :| 0 <= i < n && x in PartOf(nodes[..n][i], part, f, key) { assert x in PartOf(nodes[i], part, f, key); }
      if i :| 0 <= i < |nodes| && x in PartOf(nodes[i], part, f, key) {
        if i < n { assert nodes[..n][i] == nodes[i]; }
      }
    }
  }

  /** `e` alone in a running call node. */
  ghost predicate Running(nodes: seq<Node>, i: int, e: TraceEvent) {
    0 <= i < |nodes| && nodes[i].events == [e] && ShownRunning(nodes[i], e)
  }

  lemma RunningIsLone(es: seq<TraceEvent>, e: TraceEvent)
    requires IsStart(e)
    ensures (exists i :: Running(Projection(es), i, e)) <==> e in Parts(Projection(es), LoneStart, FamilyOf(e), PairKey(e))
  {
    var nodes, f, key := Projection(es), FamilyOf(e), PairKey(e);
    InParts(nodes, LoneStart, f, key, e);
    NodesHoldOneCall(es);
    forall i | 0 <= i < |nodes| ensures Running(nodes, i, e) <==> e in PartOf(nodes[i], LoneStart, f, key) {
      assert OneCall(nodes[i]);
    }
  }

  lemma {:induction false} EventsOfKeyMember(es: seq<TraceEvent>, starts: bool, f: Family, key: string, x: TraceEvent)
    ensures x in EventsOfKey(es, starts, f, key) <==> x in es && Matches(x, f, key) && IsStart(x) == starts
  {
    if es != [] {
      EventsOfKeyMember(es[..|es| - 1], starts, f, key, x);
      InitAndLast(es);
    }
  }

  /** A start is running at last exactly if no event ends its call. */
  lemma RunningExactly(es: seq<TraceEvent>, i: nat)
    requires i < |es| && OneEach(es) && UniqueEventIds(es) && IsStart(es[i])
    ensures (exists n :: Running(Projection(es), n, es[i]))
       <==> forall j :: 0 <= j < |es| && IsCall(es[j]) && !IsStart(es[j]) ==> !SameCall(es[i], es[j])
  {
    if j :| 0 <= j < |es| && IsCall(es[j]) && !IsStart(es[j]) && SameCall(es[i], es[j]) {
      if j < i { assert SameCall(es[j], es[i]); }
      assert i < j;
      var n := CallPaired(es, i, j);
      forall k ensures !Running(Projection(es), k, es[i]) {
        if Running(Projection(es), k, es[i]) { assert Holds(Projection(es), k, es[i]); }
      }
    } else {
      NeverEnded(es, i);
    }
  }

  lemma NeverEnded(es: seq<TraceEvent>, i: nat)
    requires i < |es| && IsStart(es[i])
    requires forall j :: 0 <= j < |es| && IsCall(es[j]) && !IsStart(es[j]) ==> !SameCall(es[i], es[j])
    ensures exists n :: Running(Projection(es), n, es[i])
  {
    var f, key := FamilyOf(es[i]), PairKey(es[i]);
    forall j | 0 <= j < |es| ensures !(Matches(es[j], f, key) && IsStart(es[j]) == false) {
      if FamilyOf(es[j]) == f { KeyMeaning(es[i], es[j]); }
    }
    NoneOfKey(es, false, f, key);
    StateFifo(es, f, key);
    StateEnded(es);
    NoEndNoPair(StateAfter(es).nodes, f, key);
    FinishParts(StateAfter(es), LoneStart, f, key);
    EventsOfKeyMember(es, true, f, key, es[i]);
    RunningIsLone(es, es[i]);
  }
}
