/**
 Each call of the task graph on its own: exactly when it succeeds, and what it stores. The
 conditions name states, limits and fields, not the functions of the model.
 */
module TaskGraphCalls {
  import opened Wrappers
  import opened TaskGraphModel
  import opened TaskGraphProofs

  predicate Finished(s: AgentState) {
    s in {Completed, Failed, Cancelled}
  }

  /** Everything but the node of `t` is as before. */
  predicate OnlyChanges(g: Graph, h: Graph, t: Id) {
    && h.roots == g.roots && h.nodes.Keys == g.nodes.Keys
    && forall k :: k in g.nodes && k != t ==> h.nodes[k] == g.nodes[k]
  }

  /** The node of `t` afterwards: a new state, result and reason, and nothing else. */
  predicate Stores(g: Graph, step: Step, t: Id, state: AgentState, result: Option<TaskResult>, reason: Option<string>) {
    && t in g.nodes && t in step.graph.nodes && OnlyChanges(g, step.graph, t)
    && step.outcome == Ok(step.graph.nodes[t])
    && var before, after := g.nodes[t], step.graph.nodes[t];
       && after.spec == before.spec && after.children == before.children
       && after.state == state && after.result == result && after.reason == reason
  }

  predicate ChildrenFinished(g: Graph, t: Id)
    requires t in g.nodes
  {
    forall c :: c in g.nodes[t].children && c in g.nodes ==> Finished(g.nodes[c].state)
  }

  // ---------- Transitions ----------

  /** Which states each state can be entered from. */
  predicate CanEnter(from: AgentState, to: AgentState) {
    match to
    case Pending => false
    case Running => from in {Pending, Waiting, Interrupted}
    case Waiting => from == Running
    case Completed => from in {Running, Waiting}
    case Failed => !Finished(from)
    case Cancelled => !Finished(from)
    case Interrupted => from in {Pending, Running, Waiting}
  }

  /** A given result must be this task's, for this state, and the state a finished one. */
  predicate ResultFits(t: Id, state: AgentState, result: Option<TaskResult>) {
    result.Some? ==> Finished(state) && result.value.taskId == t && result.value.state == state
  }

  lemma TransitionIff(g: Graph, t: Id, state: AgentState, reason: Option<string>, result: Option<TaskResult>)
    ensures var step := Apply(g, Transition(t, state, reason, result));
            && (step.outcome.Ok? <==>
                && t in g.nodes && CanEnter(g.nodes[t].state, state) && ResultFits(t, state, result)
                && (Finished(state) && result.None? && reason.Some? ==> |reason.value| <= 4096)
                && (state.Completed? ==> ChildrenFinished(g, t)))
            && (step.outcome.Err? ==> step.graph == g)
            && (step.outcome.Ok? && (result.Some? || !Finished(state)) ==> Stores(g, step, t, state, result, reason))
            && (step.outcome.Ok? && result.None? && Finished(state) ==>
                  var summary := if reason.Some? then reason.value else "";
                  var error := if state.Failed? then reason else None;
                  Stores(g, step, t, state, Some(TaskResult(t, state, summary, [], error)), reason))
  {
  }

  lemma ResumeIff(g: Graph, t: Id)
    ensures var step := Apply(g, Resume(t));
            && (step.outcome.Ok? <==> t in g.nodes && g.nodes[t].state in {Pending, Waiting, Interrupted})
            && (step.outcome.Ok? ==> Stores(g, step, t, Running, None, Some("resumed")))
            && (step.outcome.Err? ==> step.graph == g)
  {
    TransitionIff(g, t, Running, Some("resumed"), None);
  }

  lemma CompleteIff(g: Graph, t: Id, summary: string, artifactIds: seq<Id>)
    ensures var step := Apply(g, Complete(t, summary, artifactIds));
            && (step.outcome.Ok? <==>
                |summary| <= 4096 && t in g.nodes && g.nodes[t].state in {Running, Waiting} && ChildrenFinished(g, t))
            && (step.outcome.Ok? ==>
                  Stores(g, step, t, Completed, Some(TaskResult(t, Completed, summary, artifactIds, None)), None))
            && (step.outcome.Err? ==> step.graph == g)
  {
    TransitionIff(g, t, Completed, None, Some(TaskResult(t, Completed, summary, artifactIds, None)));
  }

  lemma FailIff(g: Graph, t: Id, error: string)
    ensures var step := Apply(g, Fail(t, error));
            && (step.outcome.Ok? <==> |error| <= 4096 && t in g.nodes && !Finished(g.nodes[t].state))
            && (step.outcome.Ok? ==>
                  Stores(g, step, t, Failed, Some(TaskResult(t, Failed, error, [], Some(error))), Some(error)))
            && (step.outcome.Err? ==> step.graph == g)
  {
    TransitionIff(g, t, Failed, Some(error), Some(TaskResult(t, Failed, error, [], Some(error))));
  }

  // ---------- New tasks ----------

  /** All four limits of `b` are within those of `a`; a capped cost can only be narrowed. */
  predicate Within(b: Budget, a: Budget) {
    && b.maxTokens <= a.maxTokens && b.timeoutSeconds <= a.timeoutSeconds && b.maxToolCalls <= a.maxToolCalls
    && (a.maxCostUsd.Some? ==> b.maxCostUsd.Some? && b.maxCostUsd.value <= a.maxCostUsd.value)
  }

  lemma CreateRootIff(g: Graph, op: Op)
    requires op.CreateRoot? && Fresh(g, op)
    ensures var step := Apply(g, op);
            && (step.outcome.Ok? <==> g.roots == [] && op.maxDepth >= 0 && op.maxChildren >= 0)
            && (step.outcome.Err? ==> step.graph == g)
            && (step.outcome.Ok? ==>
                  && step.graph.roots == [op.newTask] && step.graph.nodes.Keys == g.nodes.Keys + {op.newTask}
                  && (forall k :: k in g.nodes ==> step.graph.nodes[k] == g.nodes[k])
                  && var n := step.graph.nodes[op.newTask];
                     && step.outcome == Ok(n) && n.state == Pending && n.children == []
                     && n.result == None && n.reason == None
                     && n.spec.taskId == op.newTask && n.spec.childRunId == op.newRun
                     && n.spec.parentRunId == op.parentRun && n.spec.parentTaskId == None
                     && n.spec.objective == op.objective && n.spec.budget == op.budget
                     && n.spec.capabilities == op.capabilities && n.spec.depth == 0
                     && n.spec.maxDepth == op.maxDepth && n.spec.maxChildren == op.maxChildren)
  {
  }

  /** What a child is given: what was asked for it, or else all its parent has. */
  function AskedBudget(op: Op, parent: TaskSpec): Budget
    requires op.Spawn?
  {
    match op.childBudget case Some(b) => b case None => parent.budget
  }

  function AskedCapabilities(op: Op, parent: TaskSpec): set<string>
    requires op.Spawn?
  {
    match op.childCapabilities case Some(c) => c case None => parent.capabilities
  }

  predicate CanSpawn(g: Graph, op: Op)
    requires op.Spawn?
  {
    && op.parent in g.nodes
    && var p := g.nodes[op.parent];
       && p.state in {Running, Waiting}
       && |p.children| < p.spec.maxChildren && p.spec.depth < p.spec.maxDepth
       && AskedCapabilities(op, p.spec) <= p.spec.capabilities && Within(AskedBudget(op, p.spec), p.spec.budget)
  }

  lemma SpawnIff(g: Graph, op: Op)
    requires op.Spawn? && Fresh(g, op)
    ensures var step := Apply(g, op);
            && (step.outcome.Ok? <==> CanSpawn(g, op))
            && (step.outcome.Err? ==> step.graph == g)
            && (step.outcome.Ok? ==>
                  && step.graph.roots == g.roots && step.graph.nodes.Keys == g.nodes.Keys + {op.newTask}
                  && (forall k :: k in g.nodes && k != op.parent ==> step.graph.nodes[k] == g.nodes[k])
                  && var p, q, n := g.nodes[op.parent], step.graph.nodes[op.parent], step.graph.nodes[op.newTask];
                     && q == p.(children := q.children) && q.children == p.children + [op.newTask]
                     && step.outcome == Ok(n) && n.state == Pending && n.children == []
                     && n.result == None && n.reason == None
                     && n.spec.taskId == op.newTask && n.spec.childRunId == op.newRun
                     && n.spec.parentRunId == p.spec.childRunId && n.spec.parentTaskId == Some(op.parent)
                     && n.spec.objective == op.objective && n.spec.budget == AskedBudget(op, p.spec)
                     && n.spec.capabilities == AskedCapabilities(op, p.spec) && n.spec.depth == p.spec.depth + 1
                     && n.spec.maxDepth == p.spec.maxDepth && n.spec.maxChildren == p.spec.maxChildren)
  {
  }

  // ---------- Recursive stops ----------

  /** `k` is `t`, or below it with only stoppable tasks from just below `t` down to itself. */
  ghost predicate Reached(kind: Sweep, g: Graph, t: Id, k: Id) {
    t in g.nodes && (k == t || Swept(kind, g.nodes, t, k))
  }

  /** The states each kind of stop ends. */
  predicate Stoppable(kind: Sweep, s: AgentState) {
    match kind
    case CancelAll => !Finished(s)
    case InterruptAll => s in {Pending, Running, Waiting}
  }

  /** What is reached, one link at a time. */
  lemma ReachedIff(kind: Sweep, g: Graph, t: Id, k: Id)
    requires Sound(g) && t in g.nodes && k != t
    ensures Reached(kind, g, t, k) <==>
            && k in g.nodes && Stoppable(kind, g.nodes[k].state)
            && exists p :: p in g.nodes && k in g.nodes[p].children && Reached(kind, g, t, p)
  {
    if Swept(kind, g.nodes, t, k) {
      var p := g.nodes[k].spec.parentTaskId.value;
      assert p in g.nodes && k in g.nodes[p].children && Reached(kind, g, t, p);
    }
    forall p | p in g.nodes && k in g.nodes && k in g.nodes[p].children && Reached(kind, g, t, p)
      ensures Stoppable(kind, g.nodes[k].state) ==> Swept(kind, g.nodes, t, k)
    {
      assert NodeOk(g, p) && LinkOk(g.nodes, p, k);
    }
  }

  lemma SweptExcludes(kind: Sweep, g: Graph, t: Id, text: string)
    requires t in g.nodes
    ensures !Swept(kind, g.nodes, t, t) && SweepBelow(kind, g.nodes, t, text)[t] == g.nodes[t]
  {
    if Swept(kind, g.nodes, t, t) {
      SweptIsDeeper(kind, g.nodes, t, t);
      assert false;
    }
  }

  /** A node that was cancelled carries the reason, also as the summary of its result. */
  predicate CancelledAs(before: TaskNode, after: TaskNode, k: Id, text: string) {
    && after.spec == before.spec && after.children == before.children
    && after.state == Cancelled && after.reason == Some(text)
    && after.result == Some(TaskResult(k, Cancelled, text, [], None))
  }

  predicate InterruptedAs(before: TaskNode, after: TaskNode, text: string) {
    && after.spec == before.spec && after.children == before.children
    && after.state == Interrupted && after.reason == Some(text) && after.result == None
  }

  /** Cancelling: every unfinished task reached through unfinished ones is cancelled, and nothing else changes. */
  lemma CancelIff(g: Graph, t: Id, text: string)
    requires Sound(g)
    ensures var step := Apply(g, Cancel(t, text));
            && (step.outcome.Ok? <==>
                t in g.nodes && (|text| <= 4096 || (Finished(g.nodes[t].state) && ChildrenFinished(g, t))))
            && (step.outcome.Err? ==> step.graph == g)
            && (step.outcome.Ok? ==>
                  && step.graph.roots == g.roots && step.graph.nodes.Keys == g.nodes.Keys
                  && step.outcome == Ok(step.graph.nodes[t])
                  && forall k :: k in g.nodes ==>
                       if Reached(CancelAll, g, t, k) && !Finished(g.nodes[k].state)
                       then CancelledAs(g.nodes[k], step.graph.nodes[k], k, text)
                       else step.graph.nodes[k] == g.nodes[k])
  {
    if t in g.nodes {
      SweptExcludes(CancelAll, g, t, text);
      if !SweepRaises(CancelAll, g.nodes, t, text) && TooLong(text) {
        SweepNothing(CancelAll, g.nodes, t, text);
      }
    }
  }

  /** Interrupting: the same over pending, running and waiting tasks; a refusal stops the tasks below all the same. */
  lemma InterruptIff(g: Graph, t: Id, text: string)
    requires Sound(g)
    ensures var step := Apply(g, Interrupt(t, text));
            && (step.outcome.Ok? <==> t in g.nodes && g.nodes[t].state in {Pending, Running, Waiting})
            && step.graph.roots == g.roots && step.graph.nodes.Keys == g.nodes.Keys
            && (step.outcome.Ok? ==> step.outcome == Ok(step.graph.nodes[t]))
            && forall k :: k in g.nodes ==>
                 if Reached(InterruptAll, g, t, k) && g.nodes[k].state in {Pending, Running, Waiting}
                 then InterruptedAs(g.nodes[k], step.graph.nodes[k], text)
                 else step.graph.nodes[k] == g.nodes[k]
  {
    if t in g.nodes {
      SweptExcludes(InterruptAll, g, t, text);
    }
  }

  // ---------- What an accepted graph looks like ----------

  /** Every child link of an accepted graph, field by field. */
  lemma LinkMeans(g: Graph, p: Id, c: Id)
    requires WellFormed(g) && p in g.nodes && c in g.nodes[p].children
    ensures c in g.nodes
    ensures var parent, child := g.nodes[p].spec, g.nodes[c].spec;
            && parent.taskId == p && child.taskId == c
            && child.parentTaskId == Some(p) && child.parentRunId == parent.childRunId
            && child.depth == parent.depth + 1 <= child.maxDepth == parent.maxDepth
            && child.maxChildren <= parent.maxChildren
            && child.capabilities <= parent.capabilities && Within(child.budget, parent.budget)
    ensures |g.nodes[p].children| <= g.nodes[p].spec.maxChildren
    ensures forall q :: q in g.nodes && c in g.nodes[q].children ==> q == p
  {
    assert NodeOk(g, p) && LinkOk(g.nodes, p, c) && NodeOk(g, c);
    forall q | q in g.nodes && c in g.nodes[q].children ensures q == p {
      assert NodeOk(g, q) && LinkOk(g.nodes, q, c);
    }
  }

  /** Exactly the finished tasks of an accepted graph have a result, and it is their own. */
  lemma ResultMeans(g: Graph, k: Id)
    requires WellFormed(g) && k in g.nodes
    ensures Finished(g.nodes[k].state) <==> g.nodes[k].result.Some?
    ensures g.nodes[k].result.Some? ==>
              g.nodes[k].result.value.taskId == k && g.nodes[k].result.value.state == g.nodes[k].state
    ensures |g.roots| == 1 && g.roots[0] in g.nodes
    ensures g.nodes[k].spec.parentTaskId == None ==> k == g.roots[0] && g.nodes[k].spec.depth == 0
  {
    assert NodeOk(g, k);
  }
}
