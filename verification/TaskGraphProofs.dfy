/**
 What holds of every task graph a run of operations can reach, and of every
 snapshot the validator accepts.
 */
module TaskGraphProofs {
  import opened Wrappers
  import opened TaskGraphModel

  // ---------- Shape: operations that only change states ----------

  ghost predicate SameShape(a: NodeMap, b: NodeMap) {
    && a.Keys == b.Keys
    && forall k :: k in a ==> a[k].spec == b[k].spec && a[k].children == b[k].children
  }

  lemma {:induction false} UnderSameShape(a: NodeMap, b: NodeMap, t: Id, k: Id)
    requires SameShape(a, b)
    ensures Under(a, t, k) <==> Under(b, t, k)
    decreases if k in a then a[k].spec.depth else 0
  {
    if k in a && a[k].spec.parentTaskId.Some? {
      var p := a[k].spec.parentTaskId.value;
      if LinkedFrom(a, p, k) {
        UnderSameShape(a, b, t, p);
      }
    }
  }

  lemma SameShapeKeepsSound(g: Graph, nodes: NodeMap)
    requires Sound(g) && SameShape(g.nodes, nodes)
    requires forall k :: k in nodes ==> ResultOk(k, nodes[k])
    ensures Sound(g.(nodes := nodes))
  {
    var h := g.(nodes := nodes);
    if g == EMPTY {
      assert nodes == map[];
    } else {
      forall k | k in nodes
        ensures NodeOk(h, k) && Under(nodes, g.roots[0], k)
      {
        assert NodeOk(g, k);
        forall c | c in nodes[k].children ensures LinkOk(nodes, k, c) {
          assert LinkOk(g.nodes, k, c);
        }
        UnderSameShape(g.nodes, nodes, g.roots[0], k);
      }
    }
  }

  lemma SweepShape(kind: Sweep, g: Graph, t: Id, reason: string)
    requires Sound(g)
    ensures SameShape(g.nodes, SweepBelow(kind, g.nodes, t, reason))
    ensures Sound(g.(nodes := SweepBelow(kind, g.nodes, t, reason)))
  {
    forall k | k in g.nodes ensures ResultOk(k, SweepBelow(kind, g.nodes, t, reason)[k]) {
      assert NodeOk(g, k);
    }
    SameShapeKeepsSound(g, SweepBelow(kind, g.nodes, t, reason));
  }

  // ---------- Every operation keeps the graph sound ----------

  lemma TransitionKeepsSound(g: Graph, task: Id, state: AgentState, reason: Option<string>, result: Option<TaskResult>)
    requires Sound(g)
    ensures Sound(TransitionStep(g, task, state, reason, result).graph)
    ensures SameShape(g.nodes, TransitionStep(g, task, state, reason, result).graph.nodes)
  {
    var h := TransitionStep(g, task, state, reason, result).graph;
    if h != g {
      forall k | k in h.nodes ensures ResultOk(k, h.nodes[k]) {
        assert NodeOk(g, k);
      }
      SameShapeKeepsSound(g, h.nodes);
    }
  }

  lemma CreateRootKeepsSound(g: Graph, op: Op)
    requires Sound(g) && op.CreateRoot?
    ensures Sound(CreateRootStep(g, op).graph)
  {
    var h := CreateRootStep(g, op).graph;
    if h != g {
      assert h.nodes.Keys == {op.newTask};
    }
  }

  /** Adding one leaf leaves everything that was below `t` below `t`. */
  lemma {:induction false} UnderAfterSpawn(g: Graph, op: Op, t: Id, k: Id)
    requires Sound(g) && op.Spawn? && Fresh(g, op) && SpawnStep(g, op).outcome.Ok?
    requires Under(g.nodes, t, k)
    ensures Under(SpawnStep(g, op).graph.nodes, t, k)
    decreases g.nodes[k].spec.depth
  {
    if k != t {
      UnderAfterSpawn(g, op, t, g.nodes[k].spec.parentTaskId.value);
    }
  }

  lemma SpawnKeepsNodesOk(g: Graph, op: Op)
    requires WellFormed(g) && op.Spawn? && Fresh(g, op) && SpawnStep(g, op).outcome.Ok?
    ensures NodesOk(SpawnStep(g, op).graph)
  {
    var h := SpawnStep(g, op).graph;
    forall k | k in h.nodes ensures NodeOk(h, k) {
      if k != op.newTask {
        assert NodeOk(g, k);
        forall c | c in h.nodes[k].children ensures LinkOk(h.nodes, k, c) {
          if c in g.nodes[k].children {
            assert LinkOk(g.nodes, k, c);
          }
        }
        forall i | 0 <= i < |g.nodes[k].children| ensures g.nodes[k].children[i] != op.newTask {
          assert LinkOk(g.nodes, k, g.nodes[k].children[i]);
        }
      }
    }
  }

  lemma SpawnKeepsSound(g: Graph, op: Op)
    requires Sound(g) && op.Spawn? && Fresh(g, op)
    ensures Sound(SpawnStep(g, op).graph)
  {
    var h := SpawnStep(g, op).graph;
    if SpawnStep(g, op).outcome.Ok? {
      SpawnKeepsNodesOk(g, op);
      forall k | k in h.nodes ensures Under(h.nodes, h.roots[0], k) {
        if k == op.newTask {
          UnderAfterSpawn(g, op, g.roots[0], op.parent);
        } else {
          UnderAfterSpawn(g, op, g.roots[0], k);
        }
      }
    }
  }

  // ---------- Finished tasks stay as they are ----------

  /** What no operation may do to a finished task. */
  ghost predicate KeepsFinished(a: NodeMap, b: NodeMap) {
    && a.Keys <= b.Keys
    && (forall k :: k in a ==> a[k].spec == b[k].spec && a[k].children <= b[k].children)
    && (forall k :: k in a && a[k].state.Terminal() ==> b[k] == a[k])
  }

  /** The guarantee of one step: `h` is sound, finished tasks are untouched, completed tasks stay closed. */
  ghost predicate Kept(g: Graph, h: Graph) {
    && Sound(h)
    && KeepsFinished(g.nodes, h.nodes)
    && (CompletedClosed(g.nodes) ==> CompletedClosed(h.nodes))
  }

  lemma KeptTransitive(a: Graph, b: Graph, c: Graph)
    requires Kept(a, b) && Kept(b, c)
    ensures Kept(a, c)
  {
    forall k | k in a.nodes ensures a.nodes[k].children <= c.nodes[k].children {
      assert k in b.nodes && a.nodes[k].children <= b.nodes[k].children <= c.nodes[k].children;
    }
  }

  /** A task can only become completed when all its children are finished. */
  lemma TransitionKeeps(g: Graph, task: Id, state: AgentState, reason: Option<string>, result: Option<TaskResult>)
    requires Sound(g)
    ensures Kept(g, TransitionStep(g, task, state, reason, result).graph)
  {
    TransitionKeepsSound(g, task, state, reason, result);
    var h := TransitionStep(g, task, state, reason, result).graph;
    assert KeepsFinished(g.nodes, h.nodes);
  }

  lemma SweepKeeps(kind: Sweep, g: Graph, t: Id, reason: string)
    requires Sound(g)
    ensures Kept(g, g.(nodes := SweepBelow(kind, g.nodes, t, reason)))
  {
    SweepShape(kind, g, t, reason);
    assert KeepsFinished(g.nodes, SweepBelow(kind, g.nodes, t, reason));
  }

  lemma SpawnKeepsFinished(g: Graph, op: Op)
    requires op.Spawn? && Fresh(g, op)
    ensures KeepsFinished(g.nodes, SpawnStep(g, op).graph.nodes)
  {
  }

  lemma SpawnKeepsCompletedClosed(g: Graph, op: Op)
    requires WellFormed(g) && op.Spawn? && Fresh(g, op) && SpawnStep(g, op).outcome.Ok?
    requires CompletedClosed(g.nodes)
    ensures CompletedClosed(SpawnStep(g, op).graph.nodes)
  {
    var h := SpawnStep(g, op).graph;
    forall p, c | p in h.nodes && h.nodes[p].state.Completed? && c in h.nodes[p].children && c in h.nodes
      ensures h.nodes[c].state.Terminal()
    {
      assert h.nodes[p] == g.nodes[p];
      assert NodeOk(g, p);
      assert LinkOk(g.nodes, p, c);
      assert g.nodes[c].state.Terminal();
    }
  }

  lemma SpawnKeeps(g: Graph, op: Op)
    requires Sound(g) && op.Spawn? && Fresh(g, op)
    ensures Kept(g, SpawnStep(g, op).graph)
  {
    SpawnKeepsSound(g, op);
    SpawnKeepsFinished(g, op);
    if SpawnStep(g, op).outcome.Ok? && CompletedClosed(g.nodes) {
      SpawnKeepsCompletedClosed(g, op);
    }
  }

  lemma CreateRootKeeps(g: Graph, op: Op)
    requires Sound(g) && op.CreateRoot? && Fresh(g, op)
    ensures Kept(g, CreateRootStep(g, op).graph)
  {
    CreateRootKeepsSound(g, op);
  }

  /** Every operation, whether it returns or raises, keeps the guarantee. */
  lemma ApplyKeeps(g: Graph, op: Op)
    requires Sound(g) && Fresh(g, op)
    ensures Kept(g, Apply(g, op).graph)
  {
    match op
    case CreateRoot(_, _, _, _, _, _, _, _) => CreateRootKeeps(g, op);
    case Spawn(_, _, _, _, _, _) => SpawnKeeps(g, op);
    case Transition(task, state, reason, result) => TransitionKeeps(g, task, state, reason, result);
    case Complete(task, summary, ids) =>
      TransitionKeeps(g, task, Completed, None, Some(TaskResult(task, Completed, summary, ids, None)));
    case Fail(task, error) =>
      TransitionKeeps(g, task, Failed, Some(error), Some(TaskResult(task, Failed, error, [], Some(error))));
    case Interrupt(task, text) => InterruptKeeps(g, task, text);
    case Resume(task) => TransitionKeeps(g, task, Running, Some("resumed"), None);
    case Cancel(task, text) => CancelKeeps(g, task, text);
  }

  lemma SweepThenStop(kind: Sweep, g: Graph, task: Id, text: string)
    requires Sound(g)
    ensures var swept := g.(nodes := SweepBelow(kind, g.nodes, task, text));
            Kept(g, swept) && Kept(g, TransitionStep(swept, task, kind.Target(), Some(text), None).graph)
  {
    var swept := g.(nodes := SweepBelow(kind, g.nodes, task, text));
    SweepKeeps(kind, g, task, text);
    TransitionKeeps(swept, task, kind.Target(), Some(text), None);
    KeptTransitive(g, swept, TransitionStep(swept, task, kind.Target(), Some(text), None).graph);
  }

  lemma InterruptKeeps(g: Graph, task: Id, text: string)
    requires Sound(g)
    ensures Kept(g, InterruptStep(g, task, text).graph)
  {
    SweepThenStop(InterruptAll, g, task, text);
  }

  lemma CancelKeeps(g: Graph, task: Id, text: string)
    requires Sound(g)
    ensures Kept(g, CancelStep(g, task, text).graph)
  {
    SweepThenStop(CancelAll, g, task, text);
  }

  // ---------- Whole runs ----------

  function Run(g: Graph, ops: seq<Op>): Graph
    decreases |ops|
  {
    if ops == [] then g else Run(Apply(g, ops[0]).graph, ops[1..])
  }

  /** New ids are fresh at every step of the run. */
  ghost predicate FreshRun(g: Graph, ops: seq<Op>)
    decreases |ops|
  {
    ops == [] || (Fresh(g, ops[0]) && FreshRun(Apply(g, ops[0]).graph, ops[1..]))
  }

  lemma {:induction false} RunKeeps(g: Graph, ops: seq<Op>)
    requires Sound(g) && FreshRun(g, ops)
    ensures Kept(g, Run(g, ops))
    decreases |ops|
  {
    if ops != [] {
      var h := Apply(g, ops[0]).graph;
      ApplyKeeps(g, ops[0]);
      RunKeeps(h, ops[1..]);
      KeptTransitive(g, h, Run(h, ops[1..]));
    }
  }

  /** What restoring a snapshot returns; TaskGraph.FromSnapshot computes it with a depth-first search. */
  function Restore(snapshot: Graph): Result<Graph, AgentError> {
    if WellFormed(snapshot) then Ok(snapshot) else Err(ValidationError)
  }

  /** A reachable graph restores to itself, except that a graph whose root was never created is refused. */
  lemma ReachableRestores(ops: seq<Op>)
    requires FreshRun(EMPTY, ops)
    ensures Restore(Run(EMPTY, ops)) == Ok(Run(EMPTY, ops)) <==> Run(EMPTY, ops).roots != []
    ensures Run(EMPTY, ops).roots == [] ==> Run(EMPTY, ops) == EMPTY
    ensures CompletedClosed(Run(EMPTY, ops).nodes)
  {
    RunKeeps(EMPTY, ops);
  }

  /** A completed task's children are finished and the same for the rest of any run. */
  lemma CompletedStaysClosed(before: seq<Op>, after: seq<Op>, p: Id)
    requires FreshRun(EMPTY, before)
    requires var g := Run(EMPTY, before); FreshRun(g, after) && p in g.nodes && g.nodes[p].state.Completed?
    ensures var g := Run(EMPTY, before); var h := Run(g, after);
            p in h.nodes && h.nodes[p] == g.nodes[p] &&
            forall c :: c in g.nodes[p].children ==>
              c in g.nodes && g.nodes[c].state.Terminal() && c in h.nodes && h.nodes[c] == g.nodes[c]
  {
    var g := Run(EMPTY, before);
    RunKeeps(EMPTY, before);
    RunKeeps(g, after);
    assert NodeOk(g, p);
    forall c | c in g.nodes[p].children ensures c in g.nodes && g.nodes[c].state.Terminal() {
      assert LinkOk(g.nodes, p, c);
    }
  }

  // ---------- `Under` is reachability over child links ----------

  ghost predicate ClosedUnderChildren(nodes: NodeMap, ids: set<Id>) {
    forall p, c :: p in ids && p in nodes && c in nodes[p].children ==> c in ids
  }

  ghost function Subtree(nodes: NodeMap, t: Id): set<Id> {
    set k | k in nodes && Under(nodes, t, k)
  }

  lemma {:induction false} UnderInClosedSet(nodes: NodeMap, t: Id, k: Id, ids: set<Id>)
    requires t in ids && ClosedUnderChildren(nodes, ids) && Under(nodes, t, k)
    ensures k in ids
    decreases if k in nodes then nodes[k].spec.depth else 0
  {
    if k != t {
      UnderInClosedSet(nodes, t, nodes[k].spec.parentTaskId.value, ids);
    }
  }

  /** The subtree of `t` is the least set that holds `t` and every child of its members. */
  lemma UnderIsReachability(g: Graph, t: Id)
    requires NodesOk(g) && t in g.nodes
    ensures t in Subtree(g.nodes, t)
    ensures ClosedUnderChildren(g.nodes, Subtree(g.nodes, t))
    ensures forall ids: set<Id> :: t in ids && ClosedUnderChildren(g.nodes, ids) ==> Subtree(g.nodes, t) <= ids
  {
    forall p, c | p in Subtree(g.nodes, t) && c in g.nodes[p].children
      ensures c in Subtree(g.nodes, t)
    {
      assert NodeOk(g, p);
      assert LinkOk(g.nodes, p, c);
    }
    forall ids: set<Id> | t in ids && ClosedUnderChildren(g.nodes, ids) ensures Subtree(g.nodes, t) <= ids {
      SubtreeInClosedSet(g, t, ids);
    }
  }

  lemma SubtreeInClosedSet(g: Graph, t: Id, ids: set<Id>)
    requires NodesOk(g) && t in ids && ClosedUnderChildren(g.nodes, ids)
    ensures Subtree(g.nodes, t) <= ids
  {
    forall k | k in Subtree(g.nodes, t) ensures k in ids {
      UnderInClosedSet(g.nodes, t, k, ids);
    }
  }

  lemma SubtreeOfChild(g: Graph, t: Id, c: Id)
    requires NodesOk(g) && t in g.nodes && c in g.nodes[t].children
    ensures LinkOk(g.nodes, t, c) && g.nodes[c].spec.depth <= g.nodes[c].spec.maxDepth
    ensures c in Subtree(g.nodes, c) && Subtree(g.nodes, c) <= Subtree(g.nodes, t)
  {
    assert NodeOk(g, t);
    assert LinkOk(g.nodes, t, c);
    assert NodeOk(g, c);
    UnderIsReachability(g, t);
    SubtreeInClosedSet(g, c, Subtree(g.nodes, t));
  }

  /** Child links are acyclic: whatever lies below a task is strictly deeper, or is the task itself. */
  lemma {:induction false} UnderIsDeeper(nodes: NodeMap, t: Id, k: Id)
    requires t in nodes && Under(nodes, t, k)
    ensures k == t || nodes[t].spec.depth < nodes[k].spec.depth
    decreases nodes[k].spec.depth
  {
    if k != t {
      UnderIsDeeper(nodes, t, nodes[k].spec.parentTaskId.value);
    }
  }

  // ---------- Authority only narrows ----------

  lemma {:induction false} AuthorityNarrows(g: Graph, a: Id, d: Id)
    requires NodesOk(g) && a in g.nodes && Under(g.nodes, a, d)
    ensures g.nodes[d].spec.capabilities <= g.nodes[a].spec.capabilities
    ensures g.nodes[d].spec.budget.SubsetOf(g.nodes[a].spec.budget)
    ensures g.nodes[d].spec.maxDepth == g.nodes[a].spec.maxDepth
    ensures g.nodes[d].spec.maxChildren <= g.nodes[a].spec.maxChildren
    decreases g.nodes[d].spec.depth
  {
    if d != a {
      var p := g.nodes[d].spec.parentTaskId.value;
      assert NodeOk(g, p);
      assert LinkOk(g.nodes, p, d);
      AuthorityNarrows(g, a, p);
    }
  }

  // ---------- A graph holds at most 1 + m + m^2 + ... + m^h tasks ----------

  function GeometricSum(m: nat, h: nat): nat {
    if h == 0 then 1 else 1 + m * GeometricSum(m, h - 1)
  }

  lemma ProductMonotone(m: nat, n: nat, x: nat, y: nat)
    requires m <= n && x <= y
    ensures m * x <= n * y
  {
    assert n * y == m * x + (n - m) * x + n * (y - x);
  }

  lemma {:induction false} GeometricMonotone(m: nat, n: nat, h: nat)
    requires m <= n
    ensures GeometricSum(m, h) <= GeometricSum(n, h)
  {
    if h > 0 {
      GeometricMonotone(m, n, h - 1);
      var x, y := GeometricSum(m, h - 1), GeometricSum(n, h - 1);
      ProductMonotone(m, n, x, y);
    }
  }

  ghost function SubtreesOf(nodes: NodeMap, ids: seq<Id>): set<Id> {
    if ids == [] then {} else Subtree(nodes, ids[0]) + SubtreesOf(nodes, ids[1..])
  }

  lemma {:induction false} SubtreesMembers(nodes: NodeMap, ids: seq<Id>, c: Id, k: Id)
    requires c in ids && k in nodes && Under(nodes, c, k)
    ensures k in SubtreesOf(nodes, ids)
  {
    if c != ids[0] {
      SubtreesMembers(nodes, ids[1..], c, k);
    }
  }

  /** Everything strictly below `t` lies below one of its children. */
  lemma {:induction false} BelowSomeChild(nodes: NodeMap, t: Id, k: Id)
    requires t in nodes && Under(nodes, t, k) && k != t
    ensures exists c :: c in nodes[t].children && Under(nodes, c, k)
    decreases nodes[k].spec.depth
  {
    var p := nodes[k].spec.parentTaskId.value;
    if p == t {
      assert Under(nodes, k, k);
    } else {
      BelowSomeChild(nodes, t, p);
      var c :| c in nodes[t].children && Under(nodes, c, p);
      assert Under(nodes, c, k);
    }
  }

  lemma SubtreeDecomposes(nodes: NodeMap, t: Id)
    requires t in nodes
    ensures Subtree(nodes, t) <= {t} + SubtreesOf(nodes, nodes[t].children)
  {
    forall k | k in Subtree(nodes, t) && k != t
      ensures k in SubtreesOf(nodes, nodes[t].children)
    {
      BelowSomeChild(nodes, t, k);
      var c :| c in nodes[t].children && Under(nodes, c, k);
      SubtreesMembers(nodes, nodes[t].children, c, k);
    }
  }

  lemma SubsetSize<T>(a: set<T>, b: set<T>)
    requires a <= b
    ensures |a| <= |b|
  {
    assert b == a + (b - a);
  }

  lemma Scale(a: nat, b: nat, s: nat)
    requires a <= b
    ensures a * s <= b * s && (a + 1) * s == s + a * s
  {
  }

  lemma UnionSize<T>(a: set<T>, b: set<T>, c: set<T>)
    requires a <= b + c
    ensures |a| <= |b| + |c|
  {
    SubsetSize(a, b + c);
    assert b + c == b + (c - b);
    SubsetSize(c - b, c);
  }

  ghost function Height(g: Graph, t: Id): nat
    requires t in g.nodes && g.nodes[t].spec.depth <= g.nodes[t].spec.maxDepth
  {
    g.nodes[t].spec.maxDepth - g.nodes[t].spec.depth
  }

  lemma ChildLeavesRoom(g: Graph, t: Id, c: Id)
    requires NodesOk(g) && t in g.nodes && c in g.nodes[t].children
    ensures g.nodes[t].spec.depth < g.nodes[t].spec.maxDepth
  {
    assert NodeOk(g, t);
    assert LinkOk(g.nodes, t, c);
    assert NodeOk(g, c);
  }

  lemma {:induction false} SubtreeSize(g: Graph, t: Id)
    requires NodesOk(g) && t in g.nodes && g.nodes[t].spec.depth <= g.nodes[t].spec.maxDepth
    ensures |Subtree(g.nodes, t)| <= GeometricSum(g.nodes[t].spec.maxChildren, Height(g, t))
    decreases Height(g, t), 0
  {
    assert NodeOk(g, t);
    var kids, m, h := g.nodes[t].children, g.nodes[t].spec.maxChildren, Height(g, t);
    SubtreeDecomposes(g.nodes, t);
    if h == 0 {
      if kids != [] {
        ChildLeavesRoom(g, t, kids[0]);
        assert false;
      }
      SubsetSize(Subtree(g.nodes, t), {t});
    } else {
      assert forall c :: c in kids ==> LinkOk(g.nodes, t, c);
      SubtreesSize(g, t, kids);
      UnionSize(Subtree(g.nodes, t), {t}, SubtreesOf(g.nodes, kids));
      Scale(|kids|, m, GeometricSum(m, h - 1));
    }
  }

  lemma {:induction false} SubtreesSize(g: Graph, t: Id, kids: seq<Id>)
    requires NodesOk(g) && t in g.nodes && g.nodes[t].spec.depth < g.nodes[t].spec.maxDepth
    requires forall c :: c in kids ==> LinkOk(g.nodes, t, c)
    ensures |SubtreesOf(g.nodes, kids)| <= |kids| * GeometricSum(g.nodes[t].spec.maxChildren, Height(g, t) - 1)
    decreases Height(g, t) - 1, 1 + |kids|
  {
    if kids != [] {
      var c, rest, h := kids[0], kids[1..], Height(g, t) - 1;
      assert LinkOk(g.nodes, t, c);
      SubtreeSize(g, c);
      GeometricMonotone(g.nodes[c].spec.maxChildren, g.nodes[t].spec.maxChildren, h);
      SubtreesSize(g, t, rest);
      UnionSize(SubtreesOf(g.nodes, kids), Subtree(g.nodes, c), SubtreesOf(g.nodes, rest));
      Scale(|rest|, |rest|, GeometricSum(g.nodes[t].spec.maxChildren, h));
    }
  }

  /** Both limits are read from the root. */
  lemma GraphSize(g: Graph)
    requires WellFormed(g)
    ensures |g.nodes| <= GeometricSum(g.nodes[g.roots[0]].spec.maxChildren, g.nodes[g.roots[0]].spec.maxDepth)
  {
    var root := g.roots[0];
    assert NodeOk(g, root);
    assert Subtree(g.nodes, root) == g.nodes.Keys by {
      forall k | k in g.nodes ensures Under(g.nodes, root, k) {
        assert k in g.nodes ==> Under(g.nodes, g.roots[0], k);
      }
    }
    SubtreeSize(g, root);
    GeometricHeight(g.nodes[root].spec.maxChildren, g.nodes[root].spec.maxDepth - g.nodes[root].spec.depth,
                    g.nodes[root].spec.maxDepth);
  }

  lemma {:induction false} GeometricHeight(m: nat, low: nat, high: nat)
    requires low <= high
    ensures GeometricSum(m, low) <= GeometricSum(m, high)
    decreases low
  {
    if low > 0 {
      GeometricHeight(m, low - 1, high - 1);
      assert m * GeometricSum(m, low - 1) <= m * GeometricSum(m, high - 1);
    } else if high > 0 {
      assert 0 <= m * GeometricSum(m, high - 1);
    }
  }

  // ---------- Recursive stop: branch by branch ----------

  /** `k` is stopped through the child `c`. */
  predicate Via(kind: Sweep, nodes: NodeMap, c: Id, k: Id) {
    c in nodes && kind.Eligible(nodes[c].state) && (k == c || Swept(kind, nodes, c, k))
  }

  lemma {:induction false} SweptIsDeeper(kind: Sweep, nodes: NodeMap, t: Id, k: Id)
    requires t in nodes && Swept(kind, nodes, t, k)
    ensures nodes[t].spec.depth < nodes[k].spec.depth && k != t
    decreases nodes[k].spec.depth
  {
    var p := nodes[k].spec.parentTaskId.value;
    if p != t {
      SweptIsDeeper(kind, nodes, t, p);
    }
  }

  lemma {:induction false} SweptThroughChild(kind: Sweep, nodes: NodeMap, t: Id, k: Id)
    requires t in nodes && Swept(kind, nodes, t, k)
    ensures exists c :: c in nodes[t].children && Via(kind, nodes, c, k)
    decreases nodes[k].spec.depth
  {
    var p := nodes[k].spec.parentTaskId.value;
    if p == t {
      assert Via(kind, nodes, k, k);
    } else {
      SweptThroughChild(kind, nodes, t, p);
      var c :| c in nodes[t].children && Via(kind, nodes, c, p);
      assert Via(kind, nodes, c, k);
    }
  }

  lemma {:induction false} ViaIsSwept(kind: Sweep, g: Graph, t: Id, c: Id, k: Id)
    requires NodesOk(g) && t in g.nodes && c in g.nodes[t].children && Via(kind, g.nodes, c, k)
    ensures Swept(kind, g.nodes, t, k)
    decreases if k in g.nodes then g.nodes[k].spec.depth else 0
  {
    assert NodeOk(g, t);
    assert LinkOk(g.nodes, t, c);
    if k != c {
      var p := g.nodes[k].spec.parentTaskId.value;
      ViaIsSwept(kind, g, t, c, p);
    }
  }

  /** Two children at the same depth stop disjoint branches. */
  lemma {:induction false} BranchesDisjoint(kind: Sweep, nodes: NodeMap, c: Id, d: Id, k: Id)
    requires Via(kind, nodes, c, k) && Via(kind, nodes, d, k)
    requires nodes[c].spec.depth == nodes[d].spec.depth
    ensures c == d
    decreases nodes[k].spec.depth
  {
    if k == c {
      if k != d {
        SweptIsDeeper(kind, nodes, d, k);
      }
    } else if k == d {
      SweptIsDeeper(kind, nodes, c, k);
    } else {
      BranchesDisjoint(kind, nodes, c, d, nodes[k].spec.parentTaskId.value);
    }
  }

  /** Stopping other branches first does not change what is stopped below `c`. */
  lemma {:induction false} SweptFrame(kind: Sweep, a: NodeMap, b: NodeMap, c: Id, k: Id)
    requires SameShape(a, b) && c in a
    requires forall x :: x in a && kind.Eligible(b[x].state) ==> kind.Eligible(a[x].state)
    requires forall x :: x in a && Swept(kind, a, c, x) ==> b[x] == a[x]
    ensures Swept(kind, b, c, k) <==> Swept(kind, a, c, k)
    decreases if k in a then a[k].spec.depth else 0
  {
    if k in a && a[k].spec.parentTaskId.Some? {
      var p := a[k].spec.parentTaskId.value;
      if LinkedFrom(a, p, k) && p != c {
        SweptFrame(kind, a, b, c, p);
      }
    }
  }

  /** Eligible children of `t`, and eligible children of members, are members. */
  ghost predicate ClosedUnderEligible(kind: Sweep, nodes: NodeMap, t: Id, ids: set<Id>) {
    forall p, c :: (p == t || p in ids) && p in nodes && c in nodes[p].children && c in nodes
        && kind.Eligible(nodes[c].state)
      ==> c in ids
  }

  lemma {:induction false} SweptInClosedSet(kind: Sweep, nodes: NodeMap, t: Id, k: Id, ids: set<Id>)
    requires ClosedUnderEligible(kind, nodes, t, ids) && Swept(kind, nodes, t, k)
    ensures k in ids
    decreases if k in nodes then nodes[k].spec.depth else 0
  {
    var p := nodes[k].spec.parentTaskId.value;
    if p != t {
      SweptInClosedSet(kind, nodes, t, p, ids);
    }
  }

  /** What a stop reaches is the least set closed under eligible children, starting below `t`. */
  lemma SweptIsReachability(kind: Sweep, g: Graph, t: Id)
    requires NodesOk(g) && t in g.nodes
    ensures var swept := set k | k in g.nodes && Swept(kind, g.nodes, t, k);
            && ClosedUnderEligible(kind, g.nodes, t, swept)
            && forall ids :: ClosedUnderEligible(kind, g.nodes, t, ids) ==> swept <= ids
  {
    var swept := set k | k in g.nodes && Swept(kind, g.nodes, t, k);
    forall p, c | (p == t || p in swept) && p in g.nodes && c in g.nodes[p].children && c in g.nodes
        && kind.Eligible(g.nodes[c].state)
      ensures c in swept
    {
      assert NodeOk(g, p);
      assert LinkOk(g.nodes, p, c);
    }
    forall ids | ClosedUnderEligible(kind, g.nodes, t, ids) ensures swept <= ids {
      forall k | k in swept ensures k in ids {
        SweptInClosedSet(kind, g.nodes, t, k, ids);
      }
    }
  }

  /** The node map after the branches of the children in `done` have been stopped. */
  ghost function SweepBranches(kind: Sweep, nodes: NodeMap, done: seq<Id>, reason: string): NodeMap {
    map k | k in nodes ::
      if exists c :: c in done && Via(kind, nodes, c, k) then Stopped(kind, k, nodes[k], reason) else nodes[k]
  }

  lemma SweepAllBranches(kind: Sweep, g: Graph, t: Id, reason: string)
    requires NodesOk(g) && t in g.nodes
    ensures SweepBranches(kind, g.nodes, g.nodes[t].children, reason) == SweepBelow(kind, g.nodes, t, reason)
  {
    forall k | k in g.nodes
      ensures (exists c :: c in g.nodes[t].children && Via(kind, g.nodes, c, k)) <==> Swept(kind, g.nodes, t, k)
    {
      if Swept(kind, g.nodes, t, k) {
        SweptThroughChild(kind, g.nodes, t, k);
      }
      forall c | c in g.nodes[t].children && Via(kind, g.nodes, c, k) ensures Swept(kind, g.nodes, t, k) {
        ViaIsSwept(kind, g, t, c, k);
      }
    }
  }

  lemma SweepBranchesShape(kind: Sweep, g: Graph, done: seq<Id>, reason: string)
    requires Sound(g)
    ensures SameShape(g.nodes, SweepBranches(kind, g.nodes, done, reason))
    ensures Sound(g.(nodes := SweepBranches(kind, g.nodes, done, reason)))
  {
    forall k | k in g.nodes ensures ResultOk(k, SweepBranches(kind, g.nodes, done, reason)[k]) {
      assert NodeOk(g, k);
    }
    SameShapeKeepsSound(g, SweepBranches(kind, g.nodes, done, reason));
  }

  /** What is stopped through child `i` is not stopped through an earlier child. */
  lemma OtherBranchesMiss(kind: Sweep, g: Graph, t: Id, i: nat, x: Id)
    requires NodesOk(g) && t in g.nodes && i < |g.nodes[t].children| && Via(kind, g.nodes, g.nodes[t].children[i], x)
    ensures x in g.nodes && forall d :: d in g.nodes[t].children[..i] ==> !Via(kind, g.nodes, d, x)
  {
    var kids := g.nodes[t].children;
    assert NodeOk(g, t);
    forall d | d in kids[..i] ensures !Via(kind, g.nodes, d, x) {
      assert LinkOk(g.nodes, t, kids[i]);
      assert LinkOk(g.nodes, t, d);
      if Via(kind, g.nodes, d, x) {
        BranchesDisjoint(kind, g.nodes, kids[i], d, x);
        assert false;
      }
    }
  }

  /** Stopping the branches before child `i` leaves what is swept below child `i` unchanged. */
  lemma EarlierBranchesMiss(kind: Sweep, g: Graph, t: Id, i: nat, reason: string)
    requires WellFormed(g) && t in g.nodes && i < |g.nodes[t].children|
    requires var c := g.nodes[t].children[i]; c in g.nodes && kind.Eligible(g.nodes[c].state)
    ensures var kids := g.nodes[t].children;
            var b := SweepBranches(kind, g.nodes, kids[..i], reason);
            && kids[i] in b && b[kids[i]] == g.nodes[kids[i]]
            && (forall k :: Swept(kind, b, kids[i], k) <==> Swept(kind, g.nodes, kids[i], k))
            && (forall k :: Via(kind, g.nodes, kids[i], k) ==> k in g.nodes && k in b && b[k] == g.nodes[k])
  {
    var kids := g.nodes[t].children;
    var c := kids[i];
    var b := SweepBranches(kind, g.nodes, kids[..i], reason);
    SweepBranchesShape(kind, g, kids[..i], reason);
    assert NodeOk(g, t);
    assert LinkOk(g.nodes, t, c);
    forall x | Via(kind, g.nodes, c, x) ensures x in g.nodes && b[x] == g.nodes[x] {
      OtherBranchesMiss(kind, g, t, i, x);
    }
    assert Via(kind, g.nodes, c, c);
    forall k ensures Swept(kind, b, c, k) <==> Swept(kind, g.nodes, c, k) {
      SweptFrame(kind, g.nodes, b, c, k);
    }
  }

  /** Stopping below `c` and then `c` itself adds exactly the branch of `c`. */
  lemma SweepOneMore(kind: Sweep, g: Graph, t: Id, i: nat, reason: string)
    requires WellFormed(g) && t in g.nodes && i < |g.nodes[t].children|
    requires var c := g.nodes[t].children[i]; c in g.nodes && kind.Eligible(g.nodes[c].state)
    ensures var kids := g.nodes[t].children; var c := kids[i];
            var b := SweepBranches(kind, g.nodes, kids[..i], reason);
            c in b && b[c] == g.nodes[c] &&
            SweepBelow(kind, b, c, reason)[c := Stopped(kind, c, g.nodes[c], reason)]
            == SweepBranches(kind, g.nodes, kids[..i + 1], reason)
  {
    var kids := g.nodes[t].children;
    var c := kids[i];
    var b := SweepBranches(kind, g.nodes, kids[..i], reason);
    EarlierBranchesMiss(kind, g, t, i, reason);
    assert Via(kind, g.nodes, c, c);
    assert forall k :: Via(kind, g.nodes, c, k) <==> k == c || Swept(kind, g.nodes, c, k);
    assert kids[..i + 1] == kids[..i] + [c];
  }

  lemma SweepSkip(kind: Sweep, nodes: NodeMap, kids: seq<Id>, i: nat, reason: string)
    requires i < |kids| && kids[i] in nodes && !kind.Eligible(nodes[kids[i]].state)
    ensures SweepBranches(kind, nodes, kids[..i + 1], reason) == SweepBranches(kind, nodes, kids[..i], reason)
  {
    assert kids[..i + 1] == kids[..i] + [kids[i]];
  }

  /** One stop is enough: nothing eligible can be reached from `t` afterwards. */
  lemma StopIsComplete(kind: Sweep, g: Graph, t: Id, reason: string, k: Id)
    requires NodesOk(g) && t in g.nodes
    ensures !Swept(kind, SweepBelow(kind, g.nodes, t, reason), t, k)
  {
    var b := SweepBelow(kind, g.nodes, t, reason);
    if Swept(kind, b, t, k) {
      SweptThroughChild(kind, b, t, k);
      var c :| c in b[t].children && Via(kind, b, c, k);
      assert Via(kind, g.nodes, c, c);
      ViaIsSwept(kind, g, t, c, c);
      assert false;
    }
  }

  /** After a successful cancel the task is finished, and cancelling again changes nothing. */
  lemma CancelTwice(g: Graph, t: Id, text: string, again: string)
    requires Sound(g) && CancelStep(g, t, text).outcome.Ok?
    ensures var h := CancelStep(g, t, text).graph;
            t in h.nodes && h.nodes[t].state.Terminal() && CancelStep(h, t, again) == Step(h, Ok(h.nodes[t]))
  {
    var swept := g.(nodes := SweepBelow(CancelAll, g.nodes, t, text));
    var h := CancelStep(g, t, text).graph;
    forall k ensures !Swept(CancelAll, h.nodes, t, k) {
      StopIsComplete(CancelAll, g, t, text, k);
      SweptFrame(CancelAll, swept.nodes, h.nodes, t, k) by {
        forall x | x in swept.nodes ensures !Swept(CancelAll, swept.nodes, t, x) {
          StopIsComplete(CancelAll, g, t, text, x);
        }
      }
    }
    assert NodeOk(g, t);
    forall c | c in h.nodes[t].children && c in h.nodes ensures h.nodes[c].state.Terminal() {
      assert LinkOk(g.nodes, t, c);
      assert !Swept(CancelAll, h.nodes, t, c);
    }
    assert SweepBelow(CancelAll, h.nodes, t, again) == h.nodes;
  }

  lemma SweepNothing(kind: Sweep, nodes: NodeMap, t: Id, reason: string)
    requires t in nodes
    requires forall c :: c in nodes[t].children && c in nodes ==> !kind.Eligible(nodes[c].state)
    ensures SweepBelow(kind, nodes, t, reason) == nodes
  {
    forall k | k in nodes ensures !Swept(kind, nodes, t, k) {
      if Swept(kind, nodes, t, k) {
        SweptThroughChild(kind, nodes, t, k);
        assert false;
      }
    }
  }

  /** The table lets every eligible task be stopped; only an over-long cancellation text can fail. */
  lemma StopTransition(kind: Sweep, g: Graph, c: Id, reason: string)
    requires c in g.nodes && kind.Eligible(g.nodes[c].state)
    ensures TransitionStep(g, c, kind.Target(), Some(reason), None) ==
            if kind.CancelAll? && TooLong(reason) then Step(g, Err(ValidationError))
            else Step(g.(nodes := g.nodes[c := Stopped(kind, c, g.nodes[c], reason)]),
                      Ok(Stopped(kind, c, g.nodes[c], reason)))
  {
  }

  /** What one iteration of the recursive stop needs to know about its child. */
  lemma ChildFacts(kind: Sweep, g: Graph, t: Id, i: nat, reason: string)
    requires WellFormed(g) && t in g.nodes && i < |g.nodes[t].children|
    ensures var kids := g.nodes[t].children;
            var b := SweepBranches(kind, g.nodes, kids[..i], reason);
            && Sound(Graph(g.roots, b))
            && kids[i] in g.nodes && kids[i] in b
            && b[kids[i]].spec == g.nodes[kids[i]].spec
            && b[kids[i]].spec.maxDepth == g.nodes[t].spec.maxDepth
            && g.nodes[t].spec.depth < b[kids[i]].spec.depth <= b[kids[i]].spec.maxDepth
            && (kind.Eligible(b[kids[i]].state) <==> kind.Eligible(g.nodes[kids[i]].state))
            && (!kind.Eligible(b[kids[i]].state) ==> SweepBranches(kind, g.nodes, kids[..i + 1], reason) == b)
            && (kind.Eligible(b[kids[i]].state) ==>
                SweepBelow(kind, b, kids[i], reason)[kids[i] := Stopped(kind, kids[i], b[kids[i]], reason)]
                == SweepBranches(kind, g.nodes, kids[..i + 1], reason))
  {
    var kids := g.nodes[t].children;
    assert NodeOk(g, t);
    assert LinkOk(g.nodes, t, kids[i]);
    assert NodeOk(g, kids[i]);
    SweepBranchesShape(kind, g, kids[..i], reason);
    if kind.Eligible(g.nodes[kids[i]].state) {
      SweepOneMore(kind, g, t, i, reason);
    } else {
      SweepSkip(kind, g.nodes, kids, i, reason);
    }
  }
}
