/** What a trace projection contains and how one event changes it: queues of started calls,
    the task stack, agent instances, and the nodes and context segments pushed so far. */
module TraceNodes {
  import opened Wrappers
  import opened Text
  import opened OrderedMap

  datatype Kind =
    | LlmStart | LlmEnd | LlmError | ToolStart | ToolEnd | ToolError
    | RunEnd | RunError | RunCancelled | RunAwaiting | OtherKind

  /** An absent name or id is the empty string. `failed`, `skill` and `todos` are what
      `toolError`, `detectSkill` and `findTodos` read off the tool output. */
  datatype TraceEvent = TraceEvent(
    eventId: string, traceId: string, sequence: int, kind: Kind, status: string,
    agent: string, toolName: string, toolCallId: string, runId: string, modelName: string,
    failed: bool, skill: string, todos: seq<string>)

  datatype Family = Llm | Tool

  datatype NodeId =
    | RunId
    | AgentId(name: string)                    // agent:<name>
    | InstanceId(name: string, n: nat)         // agent:<name>:<n>
    | CallId(family: Family, eventId: string)  // llm:<event>, tool:<event>
    | TaskId(call: string)
    | TodoId(eventId: string)
    | ErrorId(eventId: string)

  datatype NodeKind = RunKind | AgentKind | LlmKind | ToolKind | SkillKind | ErrorKind | TaskKind | TodoKind

  datatype Anchor = Anchor(sequence: int, index: nat)

  /** `events` are the raw events of the node; its labels, usage and summaries are read off them. */
  datatype Node = Node(id: NodeId, parent: Option<NodeId>, kind: NodeKind, status: string,
                       events: seq<TraceEvent>, anchor: Option<Anchor>)

  datatype SegmentKind = AiSegment | ToolSegment | SkillSegment | ErrorSegment | TodoSegment

  datatype Segment = Segment(anchor: Anchor, kind: SegmentKind, event: TraceEvent, node: NodeId)

  type Pending = OrderedMap<seq<TraceEvent>>

  // ---------------------------------------------------------------- classifying events

  predicate IsTask(e: TraceEvent) {
    e.toolName == "task" && (e.kind.ToolStart? || e.kind.ToolEnd? || e.kind.ToolError?)
  }

  /** A non-task event of an LLM or tool call. */
  predicate IsCall(e: TraceEvent) {
    !IsTask(e) && (e.kind.LlmStart? || e.kind.LlmEnd? || e.kind.LlmError? || e.kind.ToolStart? || e.kind.ToolEnd? || e.kind.ToolError?)
  }

  predicate IsStart(e: TraceEvent) {
    IsCall(e) && (e.kind.LlmStart? || e.kind.ToolStart?)
  }

  function FamilyOf(e: TraceEvent): Family {
    if e.kind.LlmStart? || e.kind.LlmEnd? || e.kind.LlmError? then Llm else Tool
  }

  function OrUnknown(s: string): string {
    if s == "" then "unknown" else s
  }

  function PairKey(e: TraceEvent): string {
    if e.toolCallId != "" then "tool_call:" + e.toolCallId
    else if e.runId != "" then "run:" + e.runId
    else if FamilyOf(e).Llm? then "llm:" + OrUnknown(e.agent) + ":" + OrUnknown(e.modelName)
    else "tool:" + OrUnknown(e.agent) + ":" + OrUnknown(e.toolName)
  }

  predicate IsSubagent(name: string) {
    "-subagent" <= name[if |name| >= 9 then |name| - 9 else 0..]
  }

  predicate IsEvaluation(name: string) {
    Find(name, "evaluation").Some?
  }

  function EvaluationPrimary(name: string): string {
    if name == "evaluation-subagent" then "outline-subagent" else ReplaceFirst(name, "-evaluation", "")
  }

  ghost predicate UniqueEventIds(events: seq<TraceEvent>) {
    forall i, j :: 0 <= i < j < |events| ==> events[i].eventId != events[j].eventId
  }

  // ---------------------------------------------------------------- the state of the pass

  /** `mains` are the main agents that have a node; `lastTask` is the task in which the current
      instance of a subagent was opened, `counter` the number of its instances. */
  datatype State = State(
    nodes: seq<Node>, context: seq<Segment>, todos: seq<TraceEvent>, llm: Pending, tool: Pending,
    tasks: OrderedMap<TraceEvent>, stack: seq<string>,
    mains: set<string>, lastTask: map<string, Option<string>>, counter: map<string, nat>)

  const INITIAL := State([], [], [], [], [], [], [], {}, map[], map[])

  function Top(stack: seq<string>): Option<string> {
    if stack == [] then None else Some(stack[|stack| - 1])
  }

  // ---------------------------------------------------------------- tasks

  function TaskNode(e: TraceEvent): Node {
    Node(TaskId(if e.toolCallId != "" then e.toolCallId else e.eventId), Some(RunId), TaskKind,
         if e.kind.ToolError? || e.status == "failed" then "failed" else "completed", [e], None)
  }

  /** A task event moves the stack and the task table only; an end pops whatever is on top. */
  function StepTask(s: State, e: TraceEvent): State {
    if e.kind.ToolStart? then
      if e.toolCallId == "" then s
      else s.(stack := s.stack + [e.toolCallId], tasks := Set(s.tasks, e.toolCallId, e))
    else
      s.(stack := if s.stack == [] then [] else s.stack[..|s.stack| - 1],
         nodes := s.nodes + [TaskNode(e)],
         tasks := if e.toolCallId == "" then s.tasks else Delete(s.tasks, e.toolCallId))
  }

  // ---------------------------------------------------------------- agents

  /** `getAgentNodeId`. */
  function AgentOf(counter: map<string, nat>, e: TraceEvent): NodeId {
    if e.agent == "" then RunId
    else if IsSubagent(e.agent) && e.agent in counter then InstanceId(e.agent, counter[e.agent])
    else AgentId(e.agent)
  }

  /** Does `e` open a new instance of its subagent? Outside any task every event does. */
  predicate OpensInstance(s: State, e: TraceEvent) {
    var last := if e.agent in s.lastTask then s.lastTask[e.agent] else None;
    last.None? || last != Top(s.stack)
  }

  function InstanceParent(counter: map<string, nat>, name: string): NodeId {
    if !IsEvaluation(name) then RunId
    else
      var primary := EvaluationPrimary(name);
      if primary in counter then InstanceId(primary, counter[primary]) else AgentId(primary)
  }

  /** `ensureAgentNode`. */
  function Ensure(s: State, e: TraceEvent): State {
    if e.agent == "" then s
    else if !IsSubagent(e.agent) then
      if e.agent in s.mains then s
      else s.(mains := s.mains + {e.agent},
              nodes := s.nodes + [Node(AgentId(e.agent), Some(RunId), AgentKind, "completed", [e], None)])
    else if !OpensInstance(s, e) then s
    else
      var n := (if e.agent in s.counter then s.counter[e.agent] else 0) + 1;
      var counter := s.counter[e.agent := n];
      s.(counter := counter, lastTask := s.lastTask[e.agent := Top(s.stack)],
         nodes := s.nodes + [Node(InstanceId(e.agent, n), Some(InstanceParent(counter, e.agent)), AgentKind,
                                  "completed", [e], None)])
  }

  /** The agent node that `e` adds, if any. */
  function AgentAdded(s: State, e: TraceEvent): seq<Node> {
    Ensure(s, e).nodes[|s.nodes|..]
  }

  lemma EnsureAdds(s: State, e: TraceEvent)
    ensures Ensure(s, e).nodes == s.nodes + AgentAdded(s, e) && |AgentAdded(s, e)| <= 1
    ensures forall i :: 0 <= i < |AgentAdded(s, e)| ==>
              AgentAdded(s, e)[i].kind.AgentKind? && AgentAdded(s, e)[i].anchor.None?
              && (AgentAdded(s, e)[i].id.AgentId? || AgentAdded(s, e)[i].id.InstanceId?)
    ensures Ensure(s, e).tasks == s.tasks && Ensure(s, e).context == s.context && Ensure(s, e).llm == s.llm && Ensure(s, e).tool == s.tool
  {
  }

  // ---------------------------------------------------------------- calls

  function Queue(pending: Pending, key: string): seq<TraceEvent> {
    Get(pending, key).GetOr([])
  }

  function Enqueue(pending: Pending, e: TraceEvent): Pending {
    Set(pending, PairKey(e), Queue(pending, PairKey(e)) + [e])
  }

  /** `list.shift()`; an empty list is dropped. */
  function Dequeue(pending: Pending, key: string): Pending {
    var queue := Queue(pending, key);
    if |queue| <= 1 then Delete(pending, key) else Set(pending, key, queue[1..])
  }

  function PendingOf(s: State, f: Family): Pending {
    if f.Llm? then s.llm else s.tool
  }

  function WithPending(s: State, f: Family, pending: Pending): State {
    if f.Llm? then s.(llm := pending) else s.(tool := pending)
  }

  function StepStart(s: State, e: TraceEvent): State {
    WithPending(s, FamilyOf(e), Enqueue(PendingOf(s, FamilyOf(e)), e))
  }

  function CallKind(e: TraceEvent): NodeKind {
    if e.kind.LlmError? then ErrorKind
    else if FamilyOf(e).Llm? then LlmKind
    else if e.skill != "" then SkillKind
    else if e.failed then ErrorKind else ToolKind
  }

  function CallStatus(e: TraceEvent): string {
    if FamilyOf(e).Tool? && e.failed && e.skill == "" then "failed" else e.status
  }

  function CallSegment(e: TraceEvent): SegmentKind {
    match CallKind(e)
    case LlmKind => AiSegment
    case ErrorKind => ErrorSegment
    case SkillKind => SkillSegment
    case _ => ToolSegment
  }

  predicate ShowsTodos(e: TraceEvent) {
    FamilyOf(e).Tool? && e.toolName in {"write_todos", "write_todo"} && e.todos != []
  }

  /** The raw events of the node that the end event `e` completes: the start that has waited
      longest under its key comes first. */
  function CallEvents(s: State, e: TraceEvent): seq<TraceEvent> {
    var queue := Queue(PendingOf(s, FamilyOf(e)), PairKey(e));
    if queue == [] then [e] else [queue[0], e]
  }

  function CallNode(s: State, e: TraceEvent): Node {
    var events := CallEvents(s, e);
    Node(CallId(FamilyOf(e), events[0].eventId), Some(AgentOf(s.counter, e)), CallKind(e), CallStatus(e), events,
         Some(Anchor(e.sequence, |s.context| + 1)))
  }

  function TodoNode(s: State, e: TraceEvent): Node {
    Node(TodoId(e.eventId), Some(AgentOf(s.counter, e)), TodoKind, e.status, CallEvents(s, e),
         Some(Anchor(e.sequence, |s.context| + 2)))
  }

  /** An end adds the node of its call, and a todo node if the tool wrote todos. */
  function EndNodes(s: State, e: TraceEvent): seq<Node> {
    [CallNode(s, e)] + if ShowsTodos(e) then [TodoNode(s, e)] else []
  }

  function EndSegments(s: State, e: TraceEvent): seq<Segment> {
    [Segment(Anchor(e.sequence, |s.context| + 1), CallSegment(e), e, CallNode(s, e).id)]
    + if ShowsTodos(e) then [Segment(Anchor(e.sequence, |s.context| + 2), TodoSegment, e, TodoId(e.eventId))] else []
  }

  function StepEnd(s: State, e: TraceEvent): State {
    WithPending(s, FamilyOf(e), Dequeue(PendingOf(s, FamilyOf(e)), PairKey(e))).(
      nodes := s.nodes + EndNodes(s, e), context := s.context + EndSegments(s, e),
      todos := s.todos + if ShowsTodos(e) then [e] else [])
  }

  function StepRunError(s: State, e: TraceEvent): State {
    var anchor := Anchor(e.sequence, |s.context| + 1);
    s.(nodes := s.nodes + [Node(ErrorId(e.eventId), Some(RunId), ErrorKind, "failed", [e], Some(anchor))],
       context := s.context + [Segment(anchor, ErrorSegment, e, ErrorId(e.eventId))])
  }

  function Step(s: State, e: TraceEvent): State {
    if IsTask(e) then StepTask(s, e)
    else if IsStart(e) then StepStart(Ensure(s, e), e)
    else if IsCall(e) then StepEnd(Ensure(s, e), e)
    else if e.kind.RunError? then StepRunError(s, e)
    else s
  }

  function StateAfter(es: seq<TraceEvent>): State {
    if es == [] then INITIAL else Step(StateAfter(es[..|es| - 1]), es[|es| - 1])
  }

  lemma StateAfterOneMore(es: seq<TraceEvent>, e: TraceEvent)
    ensures StateAfter(es + [e]) == Step(StateAfter(es), e)
  {
    assert (es + [e])[..|es|] == es;
  }

  // ---------------------------------------------------------------- what is still running at the end

  function RunningCall(counter: map<string, nat>, f: Family, e: TraceEvent): Node {
    Node(CallId(f, e.eventId), Some(AgentOf(counter, e)), if f.Llm? then LlmKind else ToolKind, "running", [e], None)
  }

  function RunningQueue(counter: map<string, nat>, f: Family, queue: seq<TraceEvent>): seq<Node> {
    if queue == [] then [] else [RunningCall(counter, f, queue[0])] + RunningQueue(counter, f, queue[1..])
  }

  function RunningCalls(counter: map<string, nat>, f: Family, pending: Pending): seq<Node> {
    if pending == [] then []
    else RunningQueue(counter, f, pending[0].1) + RunningCalls(counter, f, pending[1..])
  }

  function RunningTasks(tasks: OrderedMap<TraceEvent>): seq<Node> {
    if tasks == [] then []
    else [Node(TaskId(tasks[0].0), Some(RunId), TaskKind, "running", [tasks[0].1], None)] + RunningTasks(tasks[1..])
  }

  /** All nodes of a projection but the run node. */
  function Finish(s: State): seq<Node> {
    s.nodes + RunningCalls(s.counter, Llm, s.llm) + RunningCalls(s.counter, Tool, s.tool) + RunningTasks(s.tasks)
  }

  function Projection(es: seq<TraceEvent>): seq<Node> {
    Finish(StateAfter(es))
  }
}
