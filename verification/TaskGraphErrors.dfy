/**
 Calls that raise, and what they leave behind. Every operation but one leaves the graph as
 it was whenever it raises; for interrupting, this module states exactly when it does.
 */
module TaskGraphErrors {
  import opened Wrappers
  import opened TaskGraphModel
  import opened TaskGraphProofs

  /** Some child of `t` is stopped by a sweep of this kind. */
  predicate HasEligibleChild(kind: Sweep, nodes: NodeMap, t: Id)
    requires t in nodes
  {
    exists c :: c in nodes[t].children && c in nodes && kind.Eligible(nodes[c].state)
  }

  /** A sweep changes the graph exactly when some child is eligible. */
  lemma SweepChangesIff(kind: Sweep, g: Graph, t: Id, reason: string)
    requires Sound(g) && t in g.nodes
    ensures SweepBelow(kind, g.nodes, t, reason) != g.nodes <==> HasEligibleChild(kind, g.nodes, t)
    ensures SweepBelow(kind, g.nodes, t, reason)[t] == g.nodes[t]
  {
    if Swept(kind, g.nodes, t, t) {
      SweptIsDeeper(kind, g.nodes, t, t);
      assert false;
    }
    if HasEligibleChild(kind, g.nodes, t) {
      var c :| c in g.nodes[t].children && c in g.nodes && kind.Eligible(g.nodes[c].state);
      assert NodeOk(g, t);
      assert LinkOk(g.nodes, t, c);
      assert Swept(kind, g.nodes, t, c);
      assert SweepBelow(kind, g.nodes, t, reason)[c].state == kind.Target();
    } else {
      SweepNothing(kind, g.nodes, t, reason);
    }
  }

  /** Interrupting raises exactly when the task is unknown or its own state does not allow it. */
  lemma InterruptRaisesIff(g: Graph, t: Id, text: string)
    requires Sound(g)
    ensures InterruptStep(g, t, text).outcome.Err? <==> t !in g.nodes || !InterruptAll.Eligible(g.nodes[t].state)
  {
    if t in g.nodes {
      SweepChangesIff(InterruptAll, g, t, text);
    }
  }

  /** An interrupt that raises has changed nothing exactly when no child could be interrupted. */
  lemma RaisingInterruptKeepsGraphIff(g: Graph, t: Id, text: string)
    requires Sound(g) && InterruptStep(g, t, text).outcome.Err?
    ensures InterruptStep(g, t, text).graph == g <==>
              t !in g.nodes || !HasEligibleChild(InterruptAll, g.nodes, t)
  {
    if t in g.nodes {
      SweepChangesIff(InterruptAll, g, t, text);
    }
  }

  /** Cancelling never raises half way. */
  lemma RaisingCancelKeepsGraph(g: Graph, t: Id, text: string)
    requires Sound(g) && CancelStep(g, t, text).outcome.Err?
    ensures CancelStep(g, t, text).graph == g
  {
    if t in g.nodes {
      SweepChangesIff(CancelAll, g, t, text);
    }
  }

  /** Before the call: an interrupt of a known task that is itself refused, with a child that is not. */
  predicate InterruptsHalfWay(g: Graph, op: Op) {
    && op.Interrupt? && op.task in g.nodes
    && !InterruptAll.Eligible(g.nodes[op.task].state)
    && HasEligibleChild(InterruptAll, g.nodes, op.task)
  }

  /** Over all operations: a call either succeeds or changes nothing, unless it interrupts half way. */
  lemma RefusedCallsChangeNothingIff(g: Graph, op: Op)
    requires Sound(g)
    ensures (Apply(g, op).outcome.Err? ==> Apply(g, op).graph == g) <==> !InterruptsHalfWay(g, op)
    ensures InterruptsHalfWay(g, op) ==> Apply(g, op).outcome.Err?
  {
    match op
    case Interrupt(task, text) =>
      InterruptRaisesIff(g, task, text);
      if InterruptStep(g, task, text).outcome.Err? {
        RaisingInterruptKeepsGraphIff(g, task, text);
      }
    case Cancel(task, text) =>
      if CancelStep(g, task, text).outcome.Err? {
        RaisingCancelKeepsGraph(g, task, text);
      }
    case _ =>
  }

  lemma OtherRefusedCallsChangeNothing(g: Graph, op: Op)
    requires Sound(g) && !op.Interrupt? && Apply(g, op).outcome.Err?
    ensures Apply(g, op).graph == g
  {
    RefusedCallsChangeNothingIff(g, op);
  }

  lemma FirstOp(g: Graph, op: Op, rest: seq<Op>)
    ensures Run(g, [op] + rest) == Run(Apply(g, op).graph, rest)
    ensures FreshRun(g, [op] + rest) <==> Fresh(g, op) && FreshRun(Apply(g, op).graph, rest)
  {
    assert ([op] + rest)[1..] == rest;
  }

  /** A run that ends so: the parent failed while a child was pending, and is then interrupted. */
  lemma InterruptCanRaiseHalfWay(budget: Budget)
    ensures var setup := [
              CreateRoot("root", "run-1", "run-0", "work", budget, {}, 1, 1),
              Transition("root", Running, None, None),
              Spawn("root", "child", "run-2", "part", None, None),
              Fail("root", "lost")];
            var g := Run(EMPTY, setup);
            var step := Apply(g, Interrupt("root", "stop"));
            && FreshRun(EMPTY, setup)
            && "root" in g.nodes && g.nodes["root"].state.Failed?
            && "child" in g.nodes && g.nodes["child"].state.Pending?
            && step.outcome == Err(StateError)
            && "child" in step.graph.nodes && step.graph.nodes["child"].state.Interrupted?
  {
    var create := CreateRoot("root", "run-1", "run-0", "work", budget, {}, 1, 1);
    var start := Transition("root", Running, None, None);
    var spawn := Spawn("root", "child", "run-2", "part", None, None);
    var fail := Fail("root", "lost");
    var g1 := Apply(EMPTY, create).graph;
    var g2 := Apply(g1, start).graph;
    var g3 := Apply(g2, spawn).graph;
    var g4 := Apply(g3, fail).graph;
    FirstOp(EMPTY, create, [start, spawn, fail]);
    FirstOp(g1, start, [spawn, fail]);
    FirstOp(g2, spawn, [fail]);
    FirstOp(g3, fail, []);
    assert [create] + [start, spawn, fail] == [create, start, spawn, fail];
    assert [start] + [spawn, fail] == [start, spawn, fail];
    assert [spawn] + [fail] == [spawn, fail];
    assert [fail] + [] == [fail];
    assert Swept(InterruptAll, g4.nodes, "root", "child");
    assert !Swept(InterruptAll, g4.nodes, "root", "root");
  }
}
