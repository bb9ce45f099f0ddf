/** The task stack and the agent instances it separates: when the stack is the list of running
    tasks, and when two events of a subagent share an instance. */
module TraceTasks {
  import opened Wrappers
  import opened Text
  import opened OrderedMap
  import opened TraceNodes
  import opened TraceSkeleton

  // ---------------------------------------------------------------- the stack

  function Keys<V>(m: OrderedMap<V>): seq<string> {
    if m == [] then [] else [m[0].0] + Keys(m[1..])
  }

  /** The stack lists the running tasks, the innermost one on top. */
  ghost predicate StackIsRunning(s: State) {
    UniqueKeys(s.tasks) && s.stack == Keys(s.tasks) && "" !in s.stack
  }

  /** Task calls are started once while they run, and ended innermost first. */
  predicate IsNested(s: State, e: TraceEvent) {
    if !IsTask(e) then true
    else if e.kind.ToolStart? then e.toolCallId == "" || Get(s.tasks, e.toolCallId).None?
    else s.stack == [] || Top(s.stack) == Some(e.toolCallId)
  }

  lemma {:induction false} KeysMember<V>(m: OrderedMap<V>, key: string)
    ensures key in Keys(m) <==> Get(m, key).Some?
  {
    if m != [] {
      KeysMember(m[1..], key);
      assert Keys(m) == [m[0].0] + Keys(m[1..]);
    }
  }

  lemma {:induction false} KeysSet<V>(m: OrderedMap<V>, key: string, v: V)
    ensures Keys(Set(m, key, v)) == Keys(m) + if Get(m, key).None? then [key] else []
  {
    if m == [] {
      assert [(key, v)][1..] == [];
    } else if m[0].0 == key {
      assert ([(key, v)] + m[1..])[1..] == m[1..];
    } else {
      KeysSet(m[1..], key, v);
      assert ([m[0]] + Set(m[1..], key, v))[1..] == Set(m[1..], key, v);
      Associate([m[0].0], Keys(m[1..]), if Get(m, key).None? then [key] else []);
    }
  }

  /** Deleting a key drops the last one exactly when it is the last one. */
  lemma {:induction false} KeysDelete<V>(m: OrderedMap<V>, key: string)
    requires UniqueKeys(m) && m != []
    ensures |Keys(m)| == |m|
    ensures Keys(Delete(m, key)) == Keys(m)[..|m| - 1] <==> Keys(m)[|m| - 1] == key
  {
    if |m| == 1 {
      assert m[1..] == [] && Keys(m) == [m[0].0];
      assert Keys(Delete(m, key)) == if m[0].0 == key then [] else [m[0].0];
    } else {
      KeysDelete(m[1..], key);
      var tail := Keys(m[1..]);
      assert Keys(m) == [m[0].0] + tail && Keys(m)[..|m| - 1] == [m[0].0] + tail[..|tail| - 1];
      if m[0].0 == key {
        KeysMember(m[1..], key);
        assert tail[|tail| - 1] in tail;
        HeadDiffers(tail, key);
      } else {
        assert ([m[0]] + Delete(m[1..], key))[1..] == Delete(m[1..], key);
        SameHead(m[0].0, Keys(Delete(m[1..], key)), tail[..|tail| - 1]);
      }
    }
  }

  lemma HeadDiffers(tail: seq<string>, key: string)
    requires tail != [] && key !in tail
    ensures tail != [key] + tail[..|tail| - 1]
  {
    assert tail[0] in tail;
  }

  lemma SameHead<T>(x: T, a: seq<T>, b: seq<T>)
    ensures [x] + a == [x] + b <==> a == b
  {
    assert ([x] + a)[1..] == a && ([x] + b)[1..] == b;
  }

  /** One event keeps the stack equal to the running tasks exactly when it is nested: popping
      whatever is on top is right only for the innermost task. */
  lemma StackStepExactly(s: State, e: TraceEvent)
    requires StackIsRunning(s)
    ensures StackIsRunning(Step(s, e)) <==> IsNested(s, e)
  {
    if !IsTask(e) {
      CallsKeepTasks(s, e);
      CallsKeepStack(s, e);
    } else if e.kind.ToolStart? {
      if e.toolCallId != "" {
        KeysSet(s.tasks, e.toolCallId, e);
        SetUnique(s.tasks, e.toolCallId, e);
        LongerDiffers(s.stack, e.toolCallId);
      }
    } else {
      StackEndExactly(s, e);
    }
  }

  lemma LongerDiffers<T>(a: seq<T>, x: T)
    ensures a + [x] != a
  {
    assert |a + [x]| == |a| + 1;
  }

  lemma CallsKeepStack(s: State, e: TraceEvent)
    requires !IsTask(e)
    ensures Step(s, e).stack == s.stack
  {
    EnsureKeepsStack(s, e);
  }

  lemma EnsureKeepsStack(s: State, e: TraceEvent)
    ensures Ensure(s, e).stack == s.stack
  {
  }

  lemma StackEndExactly(s: State, e: TraceEvent)
    requires StackIsRunning(s) && IsTask(e) && !e.kind.ToolStart?
    ensures StackIsRunning(Step(s, e)) <==> s.stack == [] || Top(s.stack) == Some(e.toolCallId)
  {
    var t := StepTask(s, e);
    DeleteUnique(s.tasks, e.toolCallId);
    if s.tasks != [] {
      KeysDelete(s.tasks, e.toolCallId);
      assert "" !in t.stack by {
        forall x | x in t.stack ensures x in s.stack {}
      }
      if e.toolCallId == "" {
        assert s.stack[|s.stack| - 1] in s.stack;
        assert |t.stack| < |Keys(s.tasks)|;
      }
    } else {
      assert Delete(s.tasks, e.toolCallId) == [];
    }
  }

  ghost predicate NestedTrace(es: seq<TraceEvent>) {
    es == [] || (NestedTrace(es[..|es| - 1]) && IsNested(StateAfter(es[..|es| - 1]), es[|es| - 1]))
  }

  ghost predicate StackAlwaysRunning(es: seq<TraceEvent>) {
    StackIsRunning(StateAfter(es)) && (es == [] || StackAlwaysRunning(es[..|es| - 1]))
  }

  /** Throughout a trace the stack is the list of running tasks exactly when the task events
      are nested. Parallel tasks that end in the order of their start already break it. */
  lemma {:induction false} StackExactly(es: seq<TraceEvent>)
    ensures StackAlwaysRunning(es) <==> NestedTrace(es)
  {
    if es != [] {
      var init := es[..|es| - 1];
      StackExactly(init);
      if StackAlwaysRunning(init) { StackStepExactly(StateAfter(init), es[|es| - 1]); }
    }
  }

  // ---------------------------------------------------------------- instances

  /** The innermost task when the next event after `es` comes. */
  function Innermost(es: seq<TraceEvent>): Option<string> {
    Top(StateAfter(es).stack)
  }

  /** `i` is the last call event of the agent in `es`. */
  ghost predicate IsPrevious(es: seq<TraceEvent>, name: string, i: int) {
    && 0 <= i < |es| && IsCall(es[i]) && es[i].agent == name
    && forall j :: i < j < |es| ==> !(IsCall(es[j]) && es[j].agent == name)
  }

  function LastTaskOf(s: State, name: string): Option<string> {
    if name in s.lastTask then s.lastTask[name] else None
  }

  lemma StepLastTask(s: State, e: TraceEvent, name: string)
    requires name != "" && IsSubagent(name)
    ensures LastTaskOf(Step(s, e), name) == if IsCall(e) && e.agent == name then Top(s.stack) else LastTaskOf(s, name)
  {
    EnsureLastTask(s, e, name);
  }

  lemma EnsureLastTask(s: State, e: TraceEvent, name: string)
    requires name != "" && IsSubagent(name)
    ensures LastTaskOf(Ensure(s, e), name) == if e.agent == name then Top(s.stack) else LastTaskOf(s, name)
  {
  }

  /** A subagent remembers the task of its previous event. */
  lemma {:induction false} RemembersTask(es: seq<TraceEvent>, name: string, i: int)
    requires name != "" && IsSubagent(name) && IsPrevious(es, name, i)
    ensures LastTaskOf(StateAfter(es), name) == Innermost(es[..i])
  {
    var init, e := es[..|es| - 1], es[|es| - 1];
    StepLastTask(StateAfter(init), e, name);
    if i < |init| {
      assert init[..i] == es[..i];
      RemembersTask(init, name, i);
    }
  }

  /** Before its first event it remembers none. */
  lemma {:induction false} RemembersNothing(es: seq<TraceEvent>, name: string)
    requires name != "" && IsSubagent(name) && forall j :: 0 <= j < |es| ==> !(IsCall(es[j]) && es[j].agent == name)
    ensures LastTaskOf(StateAfter(es), name) == None
  {
    if es != [] {
      StepLastTask(StateAfter(es[..|es| - 1]), es[|es| - 1], name);
      RemembersNothing(es[..|es| - 1], name);
    }
  }

  /** The index of the last call event of the agent, if there is one. */
  ghost predicate IsPreviousOrNone(es: seq<TraceEvent>, name: string, previous: Option<int>) {
    match previous
    case Some(i) => IsPrevious(es, name, i)
    case None => forall j :: 0 <= j < |es| ==> !(IsCall(es[j]) && es[j].agent == name)
  }

  /** A subagent event opens one new instance, unless the innermost task is the one that it
      was at the subagent's previous event: so at its first event, outside of all tasks, and
      in another task. */
  lemma NewInstanceExactly(es: seq<TraceEvent>, e: TraceEvent, previous: Option<int>)
    requires IsCall(e) && e.agent != "" && IsSubagent(e.agent) && IsPreviousOrNone(es, e.agent, previous)
    ensures var same := previous.Some? && Innermost(es).Some? && Innermost(es) == Innermost(es[..previous.value]);
            InstancesOf(StateAfter(es + [e]), e.agent) == InstancesOf(StateAfter(es), e.agent) + if same then 0 else 1
  {
    if previous.Some? {
      RemembersTask(es, e.agent, previous.value);
    } else {
      RemembersNothing(es, e.agent);
    }
    StateAfterOneMore(es, e);
    CallsKeepAgents(StateAfter(es), e);
  }
}
