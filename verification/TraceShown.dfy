/** How task events, errors of the run and the segments of the context are shown. */
module TraceShown {
  import opened Wrappers
  import opened OrderedMap
  import opened TraceNodes
  import opened TraceAccounting
  import opened TraceSkeleton
  import opened TraceCalls

  lemma StateBehind(es: seq<TraceEvent>, j: nat)
    requires j < |es|
    ensures StateAfter(es[..j + 1]) == Step(StateAfter(es[..j]), es[j])
  {
    assert es[..j + 1][..j] == es[..j];
  }

  /** What an event adds first is there at last. */
  lemma FirstAdded(es: seq<TraceEvent>, j: nat) returns (n: nat)
    requires j < |es| && OthersAdded(StateAfter(es[..j]), es[j]) != [] && !IsCall(es[j])
    ensures n < |Projection(es)| && Projection(es)[n] == OthersAdded(StateAfter(es[..j]), es[j])[0]
  {
    var s := StateAfter(es[..j]);
    n := |s.nodes|;
    OthersOnly(s, es[j]);
    StepAdds(s, es[j]);
    StateBehind(es, j);
    NodesStay(es, j + 1, n);
  }

  /** The end of a task is a node under the run, named by the call, or by the event if there is
      no call id: failed after a tool error or with a failed status, otherwise completed. */
  lemma TaskShown(es: seq<TraceEvent>, j: nat) returns (n: nat)
    requires j < |es| && IsTask(es[j]) && !es[j].kind.ToolStart?
    ensures n < |Projection(es)| && Projection(es)[n].events == [es[j]] && Projection(es)[n].kind == TaskKind
    ensures Projection(es)[n].parent == Some(RunId)
    ensures var e, node := es[j], Projection(es)[n];
            && (e.toolCallId != "" ==> node.id == TaskId(e.toolCallId)) && (e.toolCallId == "" ==> node.id == TaskId(e.eventId))
            && (e.kind.ToolError? || e.status == "failed" ==> node.status == "failed")
            && (!e.kind.ToolError? && e.status != "failed" ==> node.status == "completed")
  {
    n := FirstAdded(es, j);
  }

  /** An error of the run is a failed node under the run. */
  lemma RunErrorShown(es: seq<TraceEvent>, j: nat) returns (n: nat)
    requires j < |es| && es[j].kind.RunError?
    ensures n < |Projection(es)| && Projection(es)[n].events == [es[j]] && Projection(es)[n].id == ErrorId(es[j].eventId)
    ensures Projection(es)[n].kind == ErrorKind && Projection(es)[n].status == "failed" && Projection(es)[n].parent == Some(RunId)
  {
    n := FirstAdded(es, j);
  }

  /** Todos that a call wrote are a node behind that of the call, with its events and its
      parent, and the status of the end. */
  lemma TodoShown(es: seq<TraceEvent>, j: nat) returns (n: nat)
    requires j < |es| && WritesTodos(es[j])
    ensures n + 1 < |Projection(es)| && Projection(es)[n].id.CallId? && es[j] in Projection(es)[n].events
    ensures var call, todo := Projection(es)[n], Projection(es)[n + 1];
            && todo.id == TodoId(es[j].eventId) && todo.kind == TodoKind && todo.status == es[j].status
            && todo.events == call.events && todo.parent == call.parent
  {
    n := TodoPushed(StateAfter(es[..j]), es[j]);
    StateBehind(es, j);
    NodesStay(es, j + 1, n);
    NodesStay(es, j + 1, n + 1);
  }

  lemma TodoPushed(s: State, e: TraceEvent) returns (n: nat)
    requires WritesTodos(e)
    ensures n + 1 < |Step(s, e).nodes| && Step(s, e).nodes[n].id.CallId? && e in Step(s, e).nodes[n].events
    ensures var call, todo := Step(s, e).nodes[n], Step(s, e).nodes[n + 1];
            && todo.id == TodoId(e.eventId) && todo.kind == TodoKind && todo.status == e.status
            && todo.events == call.events && todo.parent == call.parent
  {
    WritesTodosExactly(e);
    n := |Ensure(s, e).nodes|;
    assert Step(s, e) == StepEnd(Ensure(s, e), e);
  }

  // ---------------------------------------------------------------- segments

  /** A segment is an error of the run, the todos of a call that wrote some, or the end of a
      call: an answer of the model, a skill, an error or the output of a tool. */
  ghost predicate Tells(segment: Segment) {
    var e := segment.event;
    match segment.node
    case ErrorId(id) => e.kind.RunError? && id == e.eventId && segment.kind == ErrorSegment
    case TodoId(id) => WritesTodos(e) && id == e.eventId && segment.kind == TodoSegment
    case CallId(_, _) =>
      match e.kind {
        case LlmEnd => segment.kind == AiSegment
        case LlmError => segment.kind == ErrorSegment
        case ToolEnd => e.toolName != "task" && segment.kind == OutputSegment(e)
        case ToolError => e.toolName != "task" && segment.kind == OutputSegment(e)
        case _ => false
      }
    case _ => false
  }

  ghost function OutputSegment(e: TraceEvent): SegmentKind {
    if e.skill != "" then SkillSegment else if e.failed then ErrorSegment else ToolSegment
  }

  lemma SaidTells(s: State, e: TraceEvent)
    ensures forall i :: 0 <= i < |Said(s, e)| ==> Tells(Said(s, e)[i]) && Said(s, e)[i].event == e
  {
    if IsCall(e) && !IsStart(e) { WritesTodosExactly(e); }
  }

  /** Every segment tells of an event of the trace. */
  lemma {:induction false} SegmentsTell(es: seq<TraceEvent>)
    ensures forall i :: 0 <= i < |StateAfter(es).context| ==> Tells(StateAfter(es).context[i]) && StateAfter(es).context[i].event in es
  {
    if es != [] {
      var init, e := es[..|es| - 1], es[|es| - 1];
      SegmentsTell(init);
      SaidTells(StateAfter(init), e);
      StepSays(StateAfter(init), e);
    }
  }
}
