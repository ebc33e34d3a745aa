/**
 The value-level model of the subagent task graph: its types, its transition
 table, what the snapshot validator demands, and the effect of every public
 operation (including the calls that raise) as one function `Apply`.
 */
module TaskGraphModel {
  import opened Wrappers

  type Id = string

  // ---------- Types ----------

  datatype AgentState = Pending | Running | Waiting | Completed | Failed | Cancelled | Interrupted {
    predicate Terminal() {
      Completed? || Failed? || Cancelled?
    }
  }

  function Transitions(s: AgentState): set<AgentState> {
    match s
    case Pending => {Running, Cancelled, Failed, Interrupted}
    case Running => {Waiting, Completed, Failed, Cancelled, Interrupted}
    case Waiting => {Running, Completed, Failed, Cancelled, Interrupted}
    case Interrupted => {Running, Cancelled, Failed}
    case Completed => {}
    case Failed => {}
    case Cancelled => {}
  }

  datatype Budget = Budget(maxTokens: int, maxCostUsd: Option<real>, timeoutSeconds: real, maxToolCalls: int) {
    predicate SubsetOf(parent: Budget) {
      && maxTokens <= parent.maxTokens
      && (parent.maxCostUsd.None? || (maxCostUsd.Some? && maxCostUsd.value <= parent.maxCostUsd.value))
      && timeoutSeconds <= parent.timeoutSeconds
      && maxToolCalls <= parent.maxToolCalls
    }
  }

  // A spec's constructor refuses negative numbers, so they are naturals here;
  // `depth <= maxDepth` is the remaining numeric check.
  datatype TaskSpec = TaskSpec(
    taskId: Id, parentRunId: Id, childRunId: Id, parentTaskId: Option<Id>, objective: string,
    budget: Budget, capabilities: set<string>, depth: nat, maxDepth: nat, maxChildren: nat)

  datatype TaskResult = TaskResult(
    taskId: Id, state: AgentState, summary: string, artifactIds: seq<Id>, error: Option<string>)

  datatype TaskNode = TaskNode(
    spec: TaskSpec, state: AgentState, children: seq<Id>, result: Option<TaskResult>, reason: Option<string>)

  type NodeMap = map<Id, TaskNode>

  datatype Graph = Graph(roots: seq<Id>, nodes: NodeMap)

  const EMPTY := Graph([], map[])

  datatype AgentError = ValidationError | StateError | PermissionDenied | BudgetExceeded | DepthExceeded

  const MAX_TEXT := 4096

  predicate TooLong(text: string) {
    |text| > MAX_TEXT
  }

  // ---------- What the snapshot validator demands ----------

  predicate Distinct(ids: seq<Id>) {
    forall i, j :: 0 <= i < j < |ids| ==> ids[i] != ids[j]
  }

  predicate LinkOk(nodes: NodeMap, p: Id, c: Id)
    requires p in nodes
  {
    && c in nodes
    && nodes[c].spec.parentTaskId == Some(p)
    && nodes[c].spec.parentRunId == nodes[p].spec.childRunId
    && nodes[c].spec.depth == nodes[p].spec.depth + 1
    && nodes[c].spec.maxDepth == nodes[p].spec.maxDepth
    && nodes[c].spec.maxChildren <= nodes[p].spec.maxChildren
    && nodes[c].spec.capabilities <= nodes[p].spec.capabilities
    && nodes[c].spec.budget.SubsetOf(nodes[p].spec.budget)
  }

  predicate ResultOk(id: Id, node: TaskNode) {
    && (node.result.Some? ==> node.result.value.taskId == id && node.result.value.state == node.state)
    && (node.state.Terminal() <==> node.result.Some?)
  }

  predicate NodeOk(g: Graph, id: Id)
    requires id in g.nodes
  {
    var node := g.nodes[id];
    && node.spec.taskId == id
    && node.spec.depth <= node.spec.maxDepth
    && Distinct(node.children)
    && (forall c {:trigger LinkOk(g.nodes, id, c)} :: c in node.children ==> LinkOk(g.nodes, id, c))
    && |node.children| <= node.spec.maxChildren
    && (node.spec.parentTaskId.None? ==> id in g.roots && node.spec.depth == 0)
    && (node.spec.parentTaskId.Some? ==> node.spec.parentTaskId.value in g.nodes)
    && ResultOk(id, node)
  }

  predicate NodesOk(g: Graph) {
    && |g.roots| == 1
    && g.roots[0] in g.nodes
    && forall id {:trigger NodeOk(g, id)} :: id in g.nodes ==> NodeOk(g, id)
  }

  /** The child link that leads to `k` starts at `p`. */
  predicate LinkedFrom(nodes: NodeMap, p: Id, k: Id) {
    && k in nodes && p in nodes
    && nodes[k].spec.parentTaskId == Some(p)
    && k in nodes[p].children
    && nodes[p].spec.depth < nodes[k].spec.depth
  }

  /** `k` is `t` or below it. UnderIsReachability shows this is reachability over child links. */
  predicate Under(nodes: NodeMap, t: Id, k: Id)
    decreases if k in nodes then nodes[k].spec.depth else 0
  {
    k in nodes &&
    (k == t ||
     (nodes[k].spec.parentTaskId.Some? &&
      var p := nodes[k].spec.parentTaskId.value;
      LinkedFrom(nodes, p, k) && Under(nodes, t, p)))
  }

  predicate WellFormed(g: Graph) {
    NodesOk(g) && forall k {:trigger Under(g.nodes, g.roots[0], k)} :: k in g.nodes ==> Under(g.nodes, g.roots[0], k)
  }

  predicate Sound(g: Graph) {
    g == EMPTY || WellFormed(g)
  }

  /** A completed task has no active child. */
  predicate CompletedClosed(nodes: NodeMap) {
    forall p, c :: p in nodes && nodes[p].state.Completed? && c in nodes[p].children && c in nodes
      ==> nodes[c].state.Terminal()
  }

  // ---------- Recursive stop (cancel and interrupt) ----------

  datatype Sweep = CancelAll | InterruptAll {
    predicate Eligible(s: AgentState) {
      match this
      case CancelAll => !s.Terminal()
      case InterruptAll => s.Pending? || s.Running? || s.Waiting?
    }

    function Target(): AgentState {
      match this
      case CancelAll => Cancelled
      case InterruptAll => Interrupted
    }
  }

  function Stopped(kind: Sweep, id: Id, node: TaskNode, reason: string): TaskNode {
    node.(state := kind.Target(),
          result := if kind.CancelAll? then Some(TaskResult(id, Cancelled, reason, [], None)) else None,
          reason := Some(reason))
  }

  /** `k` is strictly below `t` and every task from just below `t` down to `k` is eligible. */
  predicate Swept(kind: Sweep, nodes: NodeMap, t: Id, k: Id)
    decreases if k in nodes then nodes[k].spec.depth else 0
  {
    k in nodes && kind.Eligible(nodes[k].state) && nodes[k].spec.parentTaskId.Some? &&
    var p := nodes[k].spec.parentTaskId.value;
    LinkedFrom(nodes, p, k) && (p == t || Swept(kind, nodes, t, p))
  }

  function SweepBelow(kind: Sweep, nodes: NodeMap, t: Id, reason: string): NodeMap {
    map k | k in nodes :: if Swept(kind, nodes, t, k) then Stopped(kind, k, nodes[k], reason) else nodes[k]
  }

  /** The recursive stop raises exactly when it would have to store a cancellation text that is too long. */
  predicate SweepRaises(kind: Sweep, nodes: NodeMap, t: Id, reason: string)
    requires t in nodes
  {
    kind.CancelAll? && TooLong(reason) &&
    exists c :: c in nodes[t].children && c in nodes && kind.Eligible(nodes[c].state)
  }

  // ---------- Operations ----------

  datatype Op =
    | CreateRoot(newTask: Id, newRun: Id, parentRun: Id, objective: string, budget: Budget,
                 capabilities: set<string>, maxDepth: int, maxChildren: int)
    | Spawn(parent: Id, newTask: Id, newRun: Id, objective: string, childBudget: Option<Budget>,
            childCapabilities: Option<set<string>>)
    | Transition(task: Id, state: AgentState, reason: Option<string>, result: Option<TaskResult>)
    | Complete(task: Id, summary: string, artifactIds: seq<Id>)
    | Fail(task: Id, error: string)
    | Interrupt(task: Id, text: string)
    | Resume(task: Id)
    | Cancel(task: Id, text: string)

  /** The graph after a call, and the node it returned or the error it raised. */
  datatype Step = Step(graph: Graph, outcome: Result<TaskNode, AgentError>)

  /** A new task never reuses an id. */
  predicate Fresh(g: Graph, op: Op) {
    (op.CreateRoot? || op.Spawn?) ==> op.newTask !in g.nodes
  }

  function CreateRootStep(g: Graph, op: Op): Step
    requires op.CreateRoot?
  {
    if op.maxDepth < 0 || op.maxChildren < 0 || g.roots != [] then Step(g, Err(ValidationError))
    else
      var spec := TaskSpec(op.newTask, op.parentRun, op.newRun, None, op.objective, op.budget,
                           op.capabilities, 0, op.maxDepth, op.maxChildren);
      var node := TaskNode(spec, Pending, [], None, None);
      Step(Graph([op.newTask], g.nodes[op.newTask := node]), Ok(node))
  }

  function SpawnStep(g: Graph, op: Op): Step
    requires op.Spawn?
  {
    if op.parent !in g.nodes then Step(g, Err(ValidationError))
    else
      var parent := g.nodes[op.parent];
      var budget := if op.childBudget.Some? then op.childBudget.value else parent.spec.budget;
      var capabilities := if op.childCapabilities.Some? then op.childCapabilities.value
                          else parent.spec.capabilities;
      if !(parent.state.Running? || parent.state.Waiting?) then Step(g, Err(StateError))
      else if |parent.children| >= parent.spec.maxChildren then Step(g, Err(PermissionDenied))
      else if !(capabilities <= parent.spec.capabilities) then Step(g, Err(PermissionDenied))
      else if !budget.SubsetOf(parent.spec.budget) then Step(g, Err(BudgetExceeded))
      else if parent.spec.depth + 1 > parent.spec.maxDepth then Step(g, Err(DepthExceeded))
      else
        var spec := TaskSpec(op.newTask, parent.spec.childRunId, op.newRun, Some(op.parent), op.objective,
                             budget, capabilities, parent.spec.depth + 1, parent.spec.maxDepth,
                             parent.spec.maxChildren);
        var node := TaskNode(spec, Pending, [], None, None);
        var updated := parent.(children := parent.children + [op.newTask]);
        Step(g.(nodes := g.nodes[op.newTask := node][op.parent := updated]), Ok(node))
  }

  function TransitionStep(g: Graph, task: Id, state: AgentState, reason: Option<string>,
                          result: Option<TaskResult>): Step
  {
    if task !in g.nodes then Step(g, Err(ValidationError))
    else
      var node := g.nodes[task];
      if state !in Transitions(node.state) then Step(g, Err(StateError))
      else if result.Some? && result.value.taskId != task then Step(g, Err(ValidationError))
      else if result.Some? && result.value.state != state then Step(g, Err(ValidationError))
      else if result.Some? && !state.Terminal() then Step(g, Err(ValidationError))
      else if state.Terminal() && result.None? && reason.Some? && TooLong(reason.value) then
        Step(g, Err(ValidationError))
      else if state.Completed? && exists c :: c in node.children && c in g.nodes && !g.nodes[c].state.Terminal() then
        Step(g, Err(StateError))
      else
        var text := if reason.Some? then reason.value else "";
        var stored :=
          if state.Terminal() && result.None? then
            Some(TaskResult(task, state, text, [], if state.Failed? then reason else None))
          else result;
        var updated := node.(state := state, result := stored, reason := reason);
        Step(g.(nodes := g.nodes[task := updated]), Ok(updated))
  }

  /** Descendants first, then the task itself; an error leaves the descendants already stopped. */
  function InterruptStep(g: Graph, task: Id, text: string): Step {
    if task !in g.nodes then Step(g, Err(ValidationError))
    else
      var swept := g.(nodes := SweepBelow(InterruptAll, g.nodes, task, text));
      TransitionStep(swept, task, Interrupted, Some(text), None)
  }

  function CancelStep(g: Graph, task: Id, text: string): Step {
    if task !in g.nodes then Step(g, Err(ValidationError))
    else if SweepRaises(CancelAll, g.nodes, task, text) then Step(g, Err(ValidationError))
    else
      var swept := g.(nodes := SweepBelow(CancelAll, g.nodes, task, text));
      if swept.nodes[task].state.Terminal() then Step(swept, Ok(swept.nodes[task]))
      else TransitionStep(swept, task, Cancelled, Some(text), None)
  }

  function Apply(g: Graph, op: Op): Step {
    match op
    case CreateRoot(_, _, _, _, _, _, _, _) => CreateRootStep(g, op)
    case Spawn(_, _, _, _, _, _) => SpawnStep(g, op)
    case Transition(task, state, reason, result) => TransitionStep(g, task, state, reason, result)
    case Complete(task, summary, artifactIds) =>
      if TooLong(summary) then Step(g, Err(ValidationError))
      else TransitionStep(g, task, Completed, None, Some(TaskResult(task, Completed, summary, artifactIds, None)))
    case Fail(task, error) =>
      if TooLong(error) then Step(g, Err(ValidationError))
      else TransitionStep(g, task, Failed, Some(error), Some(TaskResult(task, Failed, error, [], Some(error))))
    case Interrupt(task, text) => InterruptStep(g, task, text)
    case Resume(task) => TransitionStep(g, task, Running, Some("resumed"), None)
    case Cancel(task, text) => CancelStep(g, task, text)
  }
}
