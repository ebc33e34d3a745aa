/**
 The mutable task graph: the object the runtime holds, with its recursive stop
 and its snapshot validator. Every method is tied to `TaskGraphModel.Apply`.
 */
module TaskGraph {
  import opened Wrappers
  import opened TaskGraphModel
  import opened TaskGraphProofs

  class Tasks {
    var roots: seq<Id>
    var nodes: NodeMap

    ghost function Value(): Graph
      reads this
    {
      Graph(roots, nodes)
    }

    ghost predicate Valid()
      reads this
    {
      Sound(Value())
    }

    constructor ()
      ensures Valid() && Value() == EMPTY
    {
      roots, nodes := [], map[];
    }

    method CreateRoot(newTask: Id, newRun: Id, parentRun: Id, objective: string, budget: Budget,
                      capabilities: set<string>, maxDepth: int, maxChildren: int)
      returns (r: Result<TaskNode, AgentError>)
      requires Valid() && newTask !in nodes
      modifies this
      ensures Valid()
      ensures Step(Value(), r) ==
              Apply(old(Value()), Op.CreateRoot(newTask, newRun, parentRun, objective, budget, capabilities,
                                                maxDepth, maxChildren))
    {
      ghost var op := Op.CreateRoot(newTask, newRun, parentRun, objective, budget, capabilities, maxDepth, maxChildren);
      ApplyKeeps(Value(), op);
      if maxDepth < 0 || maxChildren < 0 {
        return Err(ValidationError);
      }
      var spec := TaskSpec(newTask, parentRun, newRun, None, objective, budget, capabilities, 0, maxDepth, maxChildren);
      if roots != [] {
        return Err(ValidationError);
      }
      var node := TaskNode(spec, Pending, [], None, None);
      nodes := nodes[newTask := node];
      roots := roots + [newTask];
      r := Ok(node);
    }

    method Spawn(parentId: Id, newTask: Id, newRun: Id, objective: string, budget: Option<Budget>,
                 capabilities: Option<set<string>>)
      returns (r: Result<TaskNode, AgentError>)
      requires Valid() && newTask !in nodes
      modifies this
      ensures Valid()
      ensures Step(Value(), r) ==
              Apply(old(Value()), Op.Spawn(parentId, newTask, newRun, objective, budget, capabilities))
    {
      ghost var op := Op.Spawn(parentId, newTask, newRun, objective, budget, capabilities);
      ApplyKeeps(Value(), op);
      if parentId !in nodes {
        return Err(ValidationError);
      }
      var parent := nodes[parentId];
      if parent.state != Running && parent.state != Waiting {
        return Err(StateError);
      }
      if |parent.children| >= parent.spec.maxChildren {
        return Err(PermissionDenied);
      }
      var childBudget := if budget.Some? then budget.value else parent.spec.budget;
      var childCapabilities := if capabilities.Some? then capabilities.value else parent.spec.capabilities;
      if !(childCapabilities <= parent.spec.capabilities) {
        return Err(PermissionDenied);
      }
      if !childBudget.SubsetOf(parent.spec.budget) {
        return Err(BudgetExceeded);
      }
      var depth := parent.spec.depth + 1;
      if depth > parent.spec.maxDepth {
        return Err(DepthExceeded);
      }
      var spec := TaskSpec(newTask, parent.spec.childRunId, newRun, Some(parentId), objective, childBudget,
                           childCapabilities, depth, parent.spec.maxDepth, parent.spec.maxChildren);
      var node := TaskNode(spec, Pending, [], None, None);
      nodes := nodes[newTask := node];
      nodes := nodes[parentId := parent.(children := parent.children + [newTask])];
      r := Ok(node);
    }

    /** Scans the children for one that is still active. */
    method HasActiveChild(node: TaskNode) returns (active: bool)
      ensures active <==> exists c :: c in node.children && c in nodes && !nodes[c].state.Terminal()
    {
      for i := 0 to |node.children|
        invariant forall j :: 0 <= j < i && node.children[j] in nodes ==> nodes[node.children[j]].state.Terminal()
      {
        if node.children[i] in nodes && !nodes[node.children[i]].state.Terminal() {
          return true;
        }
      }
      return false;
    }

    method Transition(taskId: Id, state: AgentState, reason: Option<string>, result: Option<TaskResult>)
      returns (r: Result<TaskNode, AgentError>)
      requires Valid()
      modifies this
      ensures Valid()
      ensures Step(Value(), r) == TransitionStep(old(Value()), taskId, state, reason, result)
    {
      TransitionKeeps(Value(), taskId, state, reason, result);
      if taskId !in nodes {
        return Err(ValidationError);
      }
      var node := nodes[taskId];
      if state !in Transitions(node.state) {
        return Err(StateError);
      }
      if result.Some? && (result.value.taskId != taskId || result.value.state != state || !state.Terminal()) {
        return Err(ValidationError);
      }
      var stored := result;
      if state.Terminal() && result.None? {
        if reason.Some? && TooLong(reason.value) {
          return Err(ValidationError);
        }
        var text := if reason.Some? then reason.value else "";
        stored := Some(TaskResult(taskId, state, text, [], if state.Failed? then reason else None));
      }
      if state == Completed {
        var active := HasActiveChild(node);
        if active {
          return Err(StateError);
        }
      }
      var updated := node.(state := state, result := stored, reason := reason);
      nodes := nodes[taskId := updated];
      r := Ok(updated);
    }

    method Complete(taskId: Id, summary: string, artifactIds: seq<Id>) returns (r: Result<TaskNode, AgentError>)
      requires Valid()
      modifies this
      ensures Valid()
      ensures Step(Value(), r) == Apply(old(Value()), Op.Complete(taskId, summary, artifactIds))
    {
      if TooLong(summary) {
        return Err(ValidationError);
      }
      r := Transition(taskId, Completed, None, Some(TaskResult(taskId, Completed, summary, artifactIds, None)));
    }

    method Fail(taskId: Id, error: string) returns (r: Result<TaskNode, AgentError>)
      requires Valid()
      modifies this
      ensures Valid()
      ensures Step(Value(), r) == Apply(old(Value()), Op.Fail(taskId, error))
    {
      if TooLong(error) {
        return Err(ValidationError);
      }
      r := Transition(taskId, Failed, Some(error), Some(TaskResult(taskId, Failed, error, [], Some(error))));
    }

    method Resume(taskId: Id) returns (r: Result<TaskNode, AgentError>)
      requires Valid()
      modifies this
      ensures Valid()
      ensures Step(Value(), r) == Apply(old(Value()), Op.Resume(taskId))
    {
      r := Transition(taskId, Running, Some("resumed"), None);
    }

    /** Stops one eligible child: first everything below it, then the child. */
    method StopBranch(kind: Sweep, childId: Id, reason: string) returns (error: Option<AgentError>)
      requires Valid() && childId in nodes && kind.Eligible(nodes[childId].state)
      modifies this
      ensures Valid() && roots == old(roots)
      ensures error == if kind.CancelAll? && TooLong(reason) then Some(ValidationError) else None
      ensures nodes == if error.Some? then old(nodes)
                       else SweepBelow(kind, old(nodes), childId, reason)
                              [childId := Stopped(kind, childId, old(nodes)[childId], reason)]
      decreases nodes[childId].spec.maxDepth - nodes[childId].spec.depth, 1
    {
      ghost var g := Value();
      error := SweepDescendants(kind, childId, reason);
      if error.Some? {
        return;
      }
      assert nodes[childId] == g.nodes[childId] by {
        if Swept(kind, g.nodes, childId, childId) {
          SweptIsDeeper(kind, g.nodes, childId, childId);
        }
      }
      StopTransition(kind, Value(), childId, reason);
      if kind.CancelAll? && TooLong(reason) {
        SweepNothing(kind, g.nodes, childId, reason);
      }
      var moved := Transition(childId, kind.Target(), Some(reason), None);
      error := if moved.Err? then Some(moved.error) else None;
    }

    /**
     The recursion behind cancel and interrupt: child by child, below each child
     first. It stops exactly the tasks reachable through eligible ones, or raises
     before changing anything.
     */
    method SweepDescendants(kind: Sweep, taskId: Id, reason: string) returns (error: Option<AgentError>)
      requires Valid() && taskId in nodes
      modifies this
      ensures Valid() && roots == old(roots)
      ensures error == if SweepRaises(kind, old(nodes), taskId, reason) then Some(ValidationError) else None
      ensures nodes == if error.Some? then old(nodes) else SweepBelow(kind, old(nodes), taskId, reason)
      decreases nodes[taskId].spec.maxDepth - nodes[taskId].spec.depth, 0
    {
      ghost var g := Value();
      var kids := nodes[taskId].children;
      assert NodeOk(g, taskId);
      for i := 0 to |kids|
        invariant roots == g.roots && nodes == SweepBranches(kind, g.nodes, kids[..i], reason)
        invariant kind.CancelAll? && TooLong(reason) ==> nodes == g.nodes
        invariant kind.CancelAll? && TooLong(reason) ==>
                    forall j :: 0 <= j < i && kids[j] in g.nodes ==> !kind.Eligible(g.nodes[kids[j]].state)
      {
        ChildFacts(kind, g, taskId, i, reason);
        if kind.Eligible(nodes[kids[i]].state) {
          error := StopBranch(kind, kids[i], reason);
          if error.Some? {
            return;
          }
        }
      }
      assert kids[..|kids|] == kids;
      SweepAllBranches(kind, g, taskId, reason);
      SweepBranchesShape(kind, g, kids, reason);
      error := None;
    }

    method Interrupt(taskId: Id, reason: string) returns (r: Result<TaskNode, AgentError>)
      requires Valid()
      modifies this
      ensures Valid()
      ensures Step(Value(), r) == Apply(old(Value()), Op.Interrupt(taskId, reason))
    {
      if taskId !in nodes {
        return Err(ValidationError);
      }
      var error := SweepDescendants(InterruptAll, taskId, reason);
      r := Transition(taskId, Interrupted, Some(reason), None);
    }

    method Cancel(taskId: Id, reason: string) returns (r: Result<TaskNode, AgentError>)
      requires Valid()
      modifies this
      ensures Valid()
      ensures Step(Value(), r) == Apply(old(Value()), Op.Cancel(taskId, reason))
    {
      if taskId !in nodes {
        return Err(ValidationError);
      }
      var error := SweepDescendants(CancelAll, taskId, reason);
      if error.Some? {
        return Err(error.value);
      }
      if nodes[taskId].state.Terminal() {
        return Ok(nodes[taskId]);
      }
      r := Transition(taskId, Cancelled, Some(reason), None);
    }
  }

  /** The validator's depth-first search: `seen` and `active` are its two mutable sets. */
  class Search {
    const nodes: NodeMap
    var seen: set<Id>
    var active: set<Id>

    constructor (nodes: NodeMap)
      ensures this.nodes == nodes && seen == {} && active == {}
    {
      this.nodes := nodes;
      seen, active := {}, {};
    }

    /** Never reports a cycle, and adds exactly the tasks reachable from `taskId`. */
    method Visit(taskId: Id, ghost g: Graph) returns (cycle: bool)
      requires NodesOk(g) && nodes == g.nodes && taskId in nodes
      requires seen <= nodes.Keys && ClosedUnderChildren(nodes, seen)
      requires forall a :: a in active ==> a in nodes && nodes[a].spec.depth < nodes[taskId].spec.depth
      modifies this
      ensures !cycle
      ensures active == old(active)
      ensures seen == old(seen) + Subtree(nodes, taskId)
      ensures ClosedUnderChildren(nodes, seen)
      decreases nodes[taskId].spec.maxDepth - nodes[taskId].spec.depth
    {
      if taskId in active {
        return true;
      }
      if taskId in seen {
        SubtreeInClosedSet(g, taskId, seen);
        return false;
      }
      active := active + {taskId};
      ghost var before := seen;
      var kids := nodes[taskId].children;
      for i := 0 to |kids|
        invariant active == old(active) + {taskId}
        invariant before <= seen <= before + Subtree(nodes, taskId)
        invariant forall c :: c in kids[..i] ==> c in seen
        invariant ClosedUnderChildren(nodes, seen)
      {
        SubtreeOfChild(g, taskId, kids[i]);
        cycle := Visit(kids[i], g);
        if cycle {
          return;
        }
      }
      active := active - {taskId};
      seen := seen + {taskId};
      assert kids[..|kids|] == kids;
      assert Under(nodes, taskId, taskId);
      SubtreeInClosedSet(g, taskId, seen);
      return false;
    }
  }

  /** A child list without repeats is as long as its set of members. */
  lemma {:induction false} DistinctBySize(ids: seq<Id>)
    ensures Distinct(ids) <==> |set c | c in ids| == |ids|
    ensures |set c | c in ids| <= |ids|
  {
    var members := set c | c in ids;
    if ids != [] {
      var front, last := ids[..|ids| - 1], ids[|ids| - 1];
      DistinctBySize(front);
      assert ids == front + [last];
      assert members == (set c | c in front) + {last};
      if last in front {
        assert members == (set c | c in front);
        var i :| 0 <= i < |front| && front[i] == last;
        assert ids[i] == ids[|ids| - 1];
      } else {
        assert Distinct(front) ==> Distinct(ids);
        assert Distinct(ids) ==> forall i, j :: 0 <= i < j < |front| ==> front[i] == ids[i] && front[j] == ids[j];
      }
    }
  }

  /** The validator's checks of one child link. */
  method CheckLink(nodes: NodeMap, taskId: Id, childId: Id) returns (ok: bool)
    requires taskId in nodes
    ensures ok <==> LinkOk(nodes, taskId, childId)
  {
    var node := nodes[taskId];
    if childId !in nodes || nodes[childId].spec.parentTaskId != Some(taskId) {
      return false;
    }
    var child := nodes[childId];
    if child.spec.parentRunId != node.spec.childRunId {
      return false;
    }
    if child.spec.depth != node.spec.depth + 1 {
      return false;
    }
    if child.spec.maxDepth != node.spec.maxDepth {
      return false;
    }
    if child.spec.maxChildren > node.spec.maxChildren {
      return false;
    }
    if !(child.spec.capabilities <= node.spec.capabilities) {
      return false;
    }
    return child.spec.budget.SubsetOf(node.spec.budget);
  }

  /** The validator's checks of one node, in its order; the first one is made when the spec is built. */
  method CheckNode(g: Graph, taskId: Id) returns (ok: bool)
    requires taskId in g.nodes
    ensures ok <==> NodeOk(g, taskId)
  {
    var node := g.nodes[taskId];
    if node.spec.depth > node.spec.maxDepth {
      return false;
    }
    if node.spec.taskId != taskId {
      return false;
    }
    DistinctBySize(node.children);
    if |set c | c in node.children| != |node.children| {
      return false;
    }
    for i := 0 to |node.children|
      invariant forall c {:trigger LinkOk(g.nodes, taskId, c)} :: c in node.children[..i] ==> LinkOk(g.nodes, taskId, c)
    {
      var linked := CheckLink(g.nodes, taskId, node.children[i]);
      if !linked {
        return false;
      }
    }
    assert node.children[..|node.children|] == node.children;
    if |node.children| > node.spec.maxChildren {
      return false;
    }
    if node.spec.parentTaskId.None? && taskId !in g.roots {
      return false;
    }
    if node.spec.parentTaskId.None? && node.spec.depth != 0 {
      return false;
    }
    if node.spec.parentTaskId.Some? && node.spec.parentTaskId.value !in g.nodes {
      return false;
    }
    if node.result.Some? && node.result.value.taskId != taskId {
      return false;
    }
    if node.result.Some? && node.result.value.state != node.state {
      return false;
    }
    if node.state.Terminal() && node.result.None? {
      return false;
    }
    return !(!node.state.Terminal() && node.result.Some?);
  }

  /** One pass of the validator's checks over every node, in any order. */
  method CheckNodes(g: Graph) returns (ok: bool)
    ensures ok <==> NodesOk(g)
  {
    if |g.roots| != 1 || g.roots[0] !in g.nodes {
      return false;
    }
    var todo := g.nodes.Keys;
    while todo != {}
      invariant todo <= g.nodes.Keys
      invariant forall id :: id in g.nodes && id !in todo ==> NodeOk(g, id)
      decreases |todo|
    {
      var id :| id in todo;
      var nodeOk := CheckNode(g, id);
      if !nodeOk {
        return false;
      }
      todo := todo - {id};
    }
    return true;
  }

  /**
   Restoring a snapshot: the per-node checks, then the search from the root. It
   accepts exactly the well-formed graphs, so the search decides reachability.
   */
  method FromSnapshot(snapshot: Graph) returns (r: Result<Graph, AgentError>)
    ensures r == Restore(snapshot)
  {
    var ok := CheckNodes(snapshot);
    if !ok {
      return Err(ValidationError);
    }
    var search := new Search(snapshot.nodes);
    var cycle := search.Visit(snapshot.roots[0], snapshot);
    if cycle {
      return Err(ValidationError);
    }
    assert forall k :: k in snapshot.nodes ==> (k in search.seen <==> Under(snapshot.nodes, snapshot.roots[0], k));
    if search.seen != snapshot.nodes.Keys {
      return Err(ValidationError);
    }
    return Ok(snapshot);
  }
}
