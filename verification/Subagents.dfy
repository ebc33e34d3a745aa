/** The delegation tool on top of the task graph: one graph per parent run, and no authority beyond the parent's. */
module Subagents {
  import opened Wrappers
  import opened TaskGraphModel
  import opened TaskGraphProofs
  import opened TaskGraphCalls

  const SPAWN_CAPABILITY := "agent.spawn"

  datatype Authority = Authority(capabilities: set<string>, budget: Budget, maxDepth: nat, maxChildren: nat)

  /** What the model asked for; absent fields default to the authority's own. */
  datatype Request = Request(
    objective: string, agentType: string, maxTokens: Option<int>, timeoutSeconds: Option<real>,
    maxToolCalls: Option<int>, capabilities: Option<set<string>>)

  function LesserInt(asked: Option<int>, limit: int): int {
    if asked.Some? && asked.value < limit then asked.value else limit
  }

  function ChildBudget(a: Authority, r: Request): Budget {
    Budget(LesserInt(r.maxTokens, a.budget.maxTokens), a.budget.maxCostUsd,
           if r.timeoutSeconds.Some? && r.timeoutSeconds.value < a.budget.timeoutSeconds
           then r.timeoutSeconds.value else a.budget.timeoutSeconds,
           LesserInt(r.maxToolCalls, a.budget.maxToolCalls))
  }

  /** A budget's constructor refuses limits that are not positive. */
  predicate BudgetExists(b: Budget) {
    && b.maxTokens > 0 && b.timeoutSeconds > 0.0 && b.maxToolCalls > 0
    && (b.maxCostUsd.Some? ==> b.maxCostUsd.value >= 0.0)
  }

  /** A child never inherits the right to spawn implicitly, and a declared type ceiling always binds. */
  function CapabilitiesFor(a: Authority, ceilings: map<string, set<string>>, r: Request): set<string> {
    var asked := if r.capabilities.Some? then r.capabilities.value else a.capabilities - {SPAWN_CAPABILITY};
    if r.agentType in ceilings then asked * ceilings[r.agentType] else asked
  }

  type Key = (string, string)

  datatype Entry = Entry(graph: Graph, root: Id)

  type Graphs = map<Key, Entry>

  // ---------- Steps: a child starts; a child's result is committed ----------

  datatype Finish = Finished(summary: string, artifactIds: seq<Id>) | StillWaiting | Unfinished(error: string)

  datatype Event =
    | Start(key: Key, rootTask: Id, rootRun: Id, task: Id, run: Id, request: Request)
    | Commit(key': Key, task': Id, finish: Finish)

  function OpenGraph(a: Authority, key: Key, rootTask: Id, rootRun: Id): Entry {
    var created := Apply(EMPTY, CreateRoot(rootTask, rootRun, key.1, "parent run", a.budget, a.capabilities,
                                           a.maxDepth, a.maxChildren));
    Entry(TransitionStep(created.graph, rootTask, Running, None, None).graph, rootTask)
  }

  function GraphFor(a: Authority, graphs: Graphs, key: Key, rootTask: Id, rootRun: Id): Entry {
    if key in graphs then graphs[key] else OpenGraph(a, key, rootTask, rootRun)
  }

  function SpawnOp(a: Authority, ceilings: map<string, set<string>>, root: Id, e: Event): Op
    requires e.Start?
  {
    Spawn(root, e.task, e.run, e.request.objective, Some(ChildBudget(a, e.request)),
          Some(CapabilitiesFor(a, ceilings, e.request)))
  }

  /** Whether the request leads to a running child. */
  predicate StartsChild(a: Authority, ceilings: map<string, set<string>>, graphs: Graphs, e: Event) {
    e.Start? && BudgetExists(ChildBudget(a, e.request)) &&
    var entry := GraphFor(a, graphs, e.key, e.rootTask, e.rootRun);
    Apply(entry.graph, SpawnOp(a, ceilings, entry.root, e)).outcome.Ok?
  }

  function CommitGraph(g: Graph, task: Id, f: Finish): Graph {
    match f
    case Finished(summary, ids) => Apply(g, Complete(task, summary, ids)).graph
    case StillWaiting => TransitionStep(g, task, Waiting, None, None).graph
    case Unfinished(error) => Apply(g, Fail(task, error)).graph
  }

  function Next(a: Authority, ceilings: map<string, set<string>>, graphs: Graphs, e: Event): Graphs {
    match e
    case Start(key, rootTask, rootRun, task, _, _) =>
      var entry := GraphFor(a, graphs, key, rootTask, rootRun);
      if !StartsChild(a, ceilings, graphs, e) then graphs[key := entry]
      else
        var spawned := Apply(entry.graph, SpawnOp(a, ceilings, entry.root, e)).graph;
        graphs[key := entry.(graph := TransitionStep(spawned, task, Running, None, None).graph)]
    case Commit(key, task, finish) =>
      if key !in graphs then graphs
      else graphs[key := graphs[key].(graph := CommitGraph(graphs[key].graph, task, finish))]
  }

  /** Ids handed out are new to the graph they go into. */
  predicate FreshEvent(a: Authority, graphs: Graphs, e: Event) {
    e.Start? ==> e.task !in GraphFor(a, graphs, e.key, e.rootTask, e.rootRun).graph.nodes
  }

  // ---------- The invariant ----------

  /** The graph of one parent run is sound and rooted at exactly the authority. */
  ghost predicate EntryOk(a: Authority, e: Entry) {
    && WellFormed(e.graph) && e.graph.roots == [e.root] && e.root in e.graph.nodes
    && e.graph.nodes[e.root].spec.capabilities == a.capabilities
    && e.graph.nodes[e.root].spec.budget == a.budget
    && e.graph.nodes[e.root].spec.maxChildren == a.maxChildren
  }

  ghost predicate AllOk(a: Authority, graphs: Graphs) {
    forall k :: k in graphs ==> EntryOk(a, graphs[k])
  }

  function Children(graphs: Graphs, key: Key): seq<Id> {
    if key in graphs && graphs[key].root in graphs[key].graph.nodes
    then graphs[key].graph.nodes[graphs[key].root].children else []
  }

  lemma OpenGraphOk(a: Authority, key: Key, rootTask: Id, rootRun: Id)
    ensures var e := OpenGraph(a, key, rootTask, rootRun);
            EntryOk(a, e) && e.graph.nodes[e.root].children == []
  {
    var op := CreateRoot(rootTask, rootRun, key.1, "parent run", a.budget, a.capabilities, a.maxDepth, a.maxChildren);
    CreateRootKeepsSound(EMPTY, op);
    var created := Apply(EMPTY, op).graph;
    TransitionKeepsSound(created, rootTask, Running, None, None);
  }

  lemma TransitionKeepsEntry(a: Authority, e: Entry, task: Id, state: AgentState, reason: Option<string>,
                             result: Option<TaskResult>)
    requires EntryOk(a, e)
    ensures var g := TransitionStep(e.graph, task, state, reason, result).graph;
            EntryOk(a, e.(graph := g)) && g.nodes[e.root].children == e.graph.nodes[e.root].children
  {
    TransitionKeepsSound(e.graph, task, state, reason, result);
  }

  lemma SpawnKeepsEntry(a: Authority, e: Entry, op: Op)
    requires EntryOk(a, e) && op.Spawn? && op.parent == e.root && Fresh(e.graph, op)
             && SpawnStep(e.graph, op).outcome.Ok?
    ensures var g := SpawnStep(e.graph, op).graph;
            && EntryOk(a, e.(graph := g))
            && g.nodes[e.root].children == e.graph.nodes[e.root].children + [op.newTask]
  {
    SpawnKeepsSound(e.graph, op);
  }

  lemma CommitKeepsEntry(a: Authority, e: Entry, task: Id, f: Finish)
    requires EntryOk(a, e)
    ensures var g := CommitGraph(e.graph, task, f);
            EntryOk(a, e.(graph := g)) && g.nodes[e.root].children == e.graph.nodes[e.root].children
  {
    match f
    case Finished(summary, ids) =>
      TransitionKeepsEntry(a, e, task, Completed, None, Some(TaskResult(task, Completed, summary, ids, None)));
    case StillWaiting => TransitionKeepsEntry(a, e, task, Waiting, None, None);
    case Unfinished(error) =>
      TransitionKeepsEntry(a, e, task, Failed, Some(error), Some(TaskResult(task, Failed, error, [], Some(error))));
  }

  /** A step starts at most one child, under the parent run it names, and keeps every graph sound. */
  lemma StepKeeps(a: Authority, ceilings: map<string, set<string>>, graphs: Graphs, e: Event)
    requires AllOk(a, graphs) && FreshEvent(a, graphs, e)
    ensures AllOk(a, Next(a, ceilings, graphs, e))
    ensures forall k :: Children(Next(a, ceilings, graphs, e), k) ==
              Children(graphs, k) + if StartsChild(a, ceilings, graphs, e) && k == e.key then [e.task] else []
  {
    var after := Next(a, ceilings, graphs, e);
    match e
    case Start(key, rootTask, rootRun, task, _, _) =>
      var entry := GraphFor(a, graphs, key, rootTask, rootRun);
      OpenGraphOk(a, key, rootTask, rootRun);
      assert EntryOk(a, entry) && entry.graph.nodes[entry.root].children == Children(graphs, key);
      if StartsChild(a, ceilings, graphs, e) {
        var op := SpawnOp(a, ceilings, entry.root, e);
        SpawnKeepsEntry(a, entry, op);
        TransitionKeepsEntry(a, entry.(graph := SpawnStep(entry.graph, op).graph), task, Running, None, None);
      }
      assert EntryOk(a, after[key]);
    case Commit(key, task, finish) =>
      if key in graphs {
        CommitKeepsEntry(a, graphs[key], task, finish);
      }
  }

  // ---------- Whole runs ----------

  function RunAll(a: Authority, ceilings: map<string, set<string>>, events: seq<Event>): Graphs {
    if events == [] then map[] else Next(a, ceilings, RunAll(a, ceilings, events[..|events| - 1]), events[|events| - 1])
  }

  ghost predicate FreshRun(a: Authority, ceilings: map<string, set<string>>, events: seq<Event>) {
    forall n :: 0 <= n < |events| ==> FreshEvent(a, RunAll(a, ceilings, events[..n]), events[n])
  }

  /** The children that were started for a parent run, in order. */
  function StartedFor(a: Authority, ceilings: map<string, set<string>>, events: seq<Event>, key: Key): seq<Id> {
    if events == [] then []
    else
      var front, last := events[..|events| - 1], events[|events| - 1];
      StartedFor(a, ceilings, front, key) +
      if StartsChild(a, ceilings, RunAll(a, ceilings, front), last) && last.key == key then [last.task] else []
  }

  lemma {:induction false} RunKeeps(a: Authority, ceilings: map<string, set<string>>, events: seq<Event>, key: Key)
    requires FreshRun(a, ceilings, events)
    ensures AllOk(a, RunAll(a, ceilings, events))
    ensures Children(RunAll(a, ceilings, events), key) == StartedFor(a, ceilings, events, key)
  {
    if events != [] {
      var front, last := events[..|events| - 1], events[|events| - 1];
      assert forall n :: 0 <= n < |front| ==> front[..n] == events[..n] && front[n] == events[n];
      RunKeeps(a, ceilings, front, key);
      StepKeeps(a, ceilings, RunAll(a, ceilings, front), last);
    }
  }

  /** However requests and results interleave, a parent run never starts more children than the authority allows. */
  lemma NeverTooManyChildren(a: Authority, ceilings: map<string, set<string>>, events: seq<Event>, key: Key)
    requires FreshRun(a, ceilings, events)
    ensures |StartedFor(a, ceilings, events, key)| <= a.maxChildren
  {
    RunKeeps(a, ceilings, events, key);
    var graphs := RunAll(a, ceilings, events);
    if key in graphs {
      assert EntryOk(a, graphs[key]);
      assert NodeOk(graphs[key].graph, graphs[key].root);
    }
  }

  /** A started child holds no capability beyond the authority and its type's ceiling, and no larger budget. */
  lemma StartedChildIsConfined(a: Authority, ceilings: map<string, set<string>>, graphs: Graphs, e: Event)
    requires AllOk(a, graphs) && FreshEvent(a, graphs, e) && StartsChild(a, ceilings, graphs, e)
    ensures var g := Next(a, ceilings, graphs, e)[e.key].graph;
            && e.task in g.nodes
            && g.nodes[e.task].spec.capabilities <= a.capabilities
            && (e.request.agentType in ceilings ==> g.nodes[e.task].spec.capabilities <= ceilings[e.request.agentType])
            && (e.request.capabilities.None? ==> SPAWN_CAPABILITY !in g.nodes[e.task].spec.capabilities)
            && g.nodes[e.task].spec.budget.SubsetOf(a.budget)
  {
    var entry := GraphFor(a, graphs, e.key, e.rootTask, e.rootRun);
    OpenGraphOk(a, e.key, e.rootTask, e.rootRun);
    assert EntryOk(a, entry);
    var op := SpawnOp(a, ceilings, entry.root, e);
    SpawnKeepsEntry(a, entry, op);
    var spawned := entry.(graph := SpawnStep(entry.graph, op).graph);
    TransitionKeepsEntry(a, spawned, e.task, Running, None, None);
    TransitionKeepsSound(spawned.graph, e.task, Running, None, None);
  }

  // ---------- Exactly what a request is given ----------

  /** `given` is the smaller of what was asked, if anything, and the limit. */
  predicate IsLesser<T(==)>(given: T, asked: Option<T>, limit: T, atMost: (T, T) -> bool) {
    && atMost(given, limit) && (asked.Some? ==> atMost(given, asked.value))
    && (given == limit || asked == Some(given))
  }

  /** Tokens, time and tool calls are the smaller of the request and the authority; the cost is the authority's. */
  lemma ChildBudgetSpec(a: Authority, r: Request)
    ensures var b := ChildBudget(a, r);
            && IsLesser(b.maxTokens, r.maxTokens, a.budget.maxTokens, (x: int, y: int) => x <= y)
            && IsLesser(b.maxToolCalls, r.maxToolCalls, a.budget.maxToolCalls, (x: int, y: int) => x <= y)
            && IsLesser(b.timeoutSeconds, r.timeoutSeconds, a.budget.timeoutSeconds, (x: real, y: real) => x <= y)
            && b.maxCostUsd == a.budget.maxCostUsd
  {
  }

  /** What was asked, or all of the authority but spawning, and of that what the type's ceiling has. */
  lemma CapabilitiesSpec(a: Authority, ceilings: map<string, set<string>>, r: Request, c: string)
    ensures c in CapabilitiesFor(a, ceilings, r) <==>
            && (match r.capabilities
                case Some(asked) => c in asked
                case None => c in a.capabilities && c != "agent.spawn")
            && (r.agentType in ceilings ==> c in ceilings[r.agentType])
  {
  }

  /**
   A child starts exactly when nothing asked for exceeds the authority, a limit is left, and the
   parent run is active.
   */
  lemma ChildStartsIff(a: Authority, ceilings: map<string, set<string>>, graphs: Graphs, e: Event)
    requires AllOk(a, graphs) && FreshEvent(a, graphs, e) && e.Start?
    ensures var entry := GraphFor(a, graphs, e.key, e.rootTask, e.rootRun);
            var root, b := entry.graph.nodes[entry.root], ChildBudget(a, e.request);
            && EntryOk(a, entry)
            && (StartsChild(a, ceilings, graphs, e) <==>
                && b.maxTokens > 0 && b.timeoutSeconds > 0.0 && b.maxToolCalls > 0
                && (b.maxCostUsd.Some? ==> b.maxCostUsd.value >= 0.0)
                && root.state in {Running, Waiting} && |root.children| < a.maxChildren
                && root.spec.depth < root.spec.maxDepth
                && CapabilitiesFor(a, ceilings, e.request) <= a.capabilities)
  {
    var entry := GraphFor(a, graphs, e.key, e.rootTask, e.rootRun);
    OpenGraphOk(a, e.key, e.rootTask, e.rootRun);
    assert EntryOk(a, entry);
    SpawnIff(entry.graph, SpawnOp(a, ceilings, entry.root, e));
  }

  /** The graph opened for a parent run: its root is running, with the authority's limits, and has no child yet. */
  lemma OpenGraphSpec(a: Authority, key: Key, rootTask: Id, rootRun: Id)
    ensures var e := OpenGraph(a, key, rootTask, rootRun);
            && e.root == rootTask && e.graph.roots == [rootTask] && e.graph.nodes.Keys == {rootTask}
            && var root := e.graph.nodes[rootTask];
               && root.state == Running && root.children == []
               && root.spec.parentRunId == key.1 && root.spec.childRunId == rootRun && root.spec.depth == 0
               && root.spec.maxDepth == a.maxDepth && root.spec.maxChildren == a.maxChildren
               && root.spec.budget == a.budget && root.spec.capabilities == a.capabilities
  {
    var op := CreateRoot(rootTask, rootRun, key.1, "parent run", a.budget, a.capabilities, a.maxDepth, a.maxChildren);
    CreateRootIff(EMPTY, op);
    TransitionIff(Apply(EMPTY, op).graph, rootTask, Running, None, None);
  }

  /** A started child is running, with exactly the budget and the capabilities it was given. */
  lemma StartedChildIsRunning(a: Authority, ceilings: map<string, set<string>>, graphs: Graphs, e: Event)
    requires AllOk(a, graphs) && FreshEvent(a, graphs, e) && StartsChild(a, ceilings, graphs, e)
    ensures var g := Next(a, ceilings, graphs, e)[e.key].graph;
            && e.task in g.nodes && g.nodes[e.task].state == Running && g.nodes[e.task].children == []
            && g.nodes[e.task].spec.budget == ChildBudget(a, e.request)
            && g.nodes[e.task].spec.capabilities == CapabilitiesFor(a, ceilings, e.request)
            && g.nodes[e.task].spec.childRunId == e.run && g.nodes[e.task].spec.objective == e.request.objective
  {
    var entry := GraphFor(a, graphs, e.key, e.rootTask, e.rootRun);
    OpenGraphOk(a, e.key, e.rootTask, e.rootRun);
    assert EntryOk(a, entry);
    var op := SpawnOp(a, ceilings, entry.root, e);
    SpawnIff(entry.graph, op);
    TransitionIff(SpawnStep(entry.graph, op).graph, e.task, Running, None, None);
  }

  /** A result ends its task accordingly if the task can end so, and otherwise changes nothing. */
  lemma CommitSpec(g: Graph, t: Id, f: Finish)
    ensures var h := CommitGraph(g, t, f);
            match f
            case Finished(summary, ids) =>
              if |summary| <= 4096 && t in g.nodes && g.nodes[t].state in {Running, Waiting} && ChildrenFinished(g, t)
              then Stores(g, Step(h, Ok(h.nodes[t])), t, Completed,
                          Some(TaskResult(t, Completed, summary, ids, None)), None)
              else h == g
            case StillWaiting =>
              if t in g.nodes && g.nodes[t].state == Running
              then Stores(g, Step(h, Ok(h.nodes[t])), t, Waiting, None, None)
              else h == g
            case Unfinished(error) =>
              if |error| <= 4096 && t in g.nodes && g.nodes[t].state !in {Completed, Failed, Cancelled}
              then Stores(g, Step(h, Ok(h.nodes[t])), t, Failed, Some(TaskResult(t, Failed, error, [], Some(error))),
                          Some(error))
              else h == g
  {
    match f
    case Finished(summary, ids) => CompleteIff(g, t, summary, ids);
    case StillWaiting => TransitionIff(g, t, Waiting, None, None);
    case Unfinished(error) => FailIff(g, t, error);
  }

  // ---------- What a child can see ----------

  datatype Tool = Tool(required: set<string>)

  /** A registry by tool name. */
  type Registry = map<string, Tool>

  function Permitted(registry: Registry, capabilities: set<string>): Registry {
    map name | name in registry && registry[name].required <= capabilities :: registry[name]
  }

  /** The loop over the specs; the result is again a dictionary, so the order of names is left open. */
  method RestrictRegistry(registry: Registry, capabilities: set<string>) returns (allowed: Registry)
    ensures allowed == Permitted(registry, capabilities)
    ensures forall name :: name in allowed <==> name in registry && registry[name].required <= capabilities
    ensures forall name :: name in allowed ==> allowed[name] == registry[name]
  {
    allowed := map[];
    var rest := registry.Keys;
    while rest != {}
      invariant rest <= registry.Keys
      invariant forall name :: name in allowed <==>
                  name in registry.Keys - rest && registry[name].required <= capabilities
      invariant forall name :: name in allowed ==> allowed[name] == registry[name]
    {
      var name :| name in rest;
      if registry[name].required <= capabilities {
        allowed := allowed[name := registry[name]];
      }
      rest := rest - {name};
    }
  }

  /** Every tool a started child sees needs only what the authority and the child's type allow. */
  lemma StartedChildSeesOnlyAllowedTools(a: Authority, ceilings: map<string, set<string>>, graphs: Graphs, e: Event,
                                         registry: Registry, name: string)
    requires AllOk(a, graphs) && FreshEvent(a, graphs, e) && StartsChild(a, ceilings, graphs, e)
    ensures var g := Next(a, ceilings, graphs, e)[e.key].graph;
            e.task in g.nodes &&
            (name in Permitted(registry, g.nodes[e.task].spec.capabilities) ==>
              && name in registry && registry[name].required <= a.capabilities
              && (e.request.agentType in ceilings ==> registry[name].required <= ceilings[e.request.agentType])
              && (e.request.capabilities.None? ==> SPAWN_CAPABILITY !in registry[name].required))
  {
    StartedChildIsConfined(a, ceilings, graphs, e);
  }
}
