# Verified model of the AIHI agent core

A Dafny model of the parts of the AIHI agent whose correctness depends on state kept over
many steps, with proofs. `dafny verify dfyconfig.toml` checks all of it.

The model has six parts.

* **Task graph** (`TaskGraphModel`, `TaskGraphProofs`, `TaskGraphCalls`,
  `TaskGraphErrors`, `TaskGraph`, `Subagents`). The tree of delegated tasks as a class whose methods are tied to a pure step function. Main results:
  every sequence of calls, including calls that raise, keeps everything the validator checks
  (`ReachableRestores`); the validator's depth-first search accepts exactly the graphs in which
  everything is reachable from the root (`FromSnapshot`); recursive stop changes exactly the
  reachable eligible tasks (`SweepDescendants`, `SweptIsReachability`); authority narrows along
  every path (`AuthorityNarrows`); the graph has a bounded size (`GraphSize`); and the
  delegation tool cannot exceed its authority in any run (`NeverTooManyChildren`).
* **Context compaction** (`Messages`, `Grouping`, `Compaction`, `Eviction`, `EvictionTiers`,
  `ContextRun`, `ContextFacts`). The tiered eviction loop refines "sort everything, drop the shortest prefix that fits"
  (`BoundState`); compaction conserves messages and never splits a tool exchange; a run of
  compactions reads every event exactly once (`CursorFollowsLog`) and never invents a pending
  approval (`PendingFollowsLog`).
* **Framing** (`Streaming`, `Framing`, `FramingProofs`, `HeaderSpecs`, `FrameReader`,
  `WorkerHeaderSpecs`). The incremental decoder
  gives the same result under every chunking, and decodes every chunking of encoder output if and
  only if the header limit leaves three bytes (`ChunkingIsSafeIff`). The blocking reader reads the
  same stream (`WorkerReadsStreamIff`).
* **Transcript** (`EventFold`, `Transcript`, `TranscriptProofs`, `TranscriptContent`, `TranscriptLines`,
  `History`, `TuiProtocol`, `TuiProofs`, `TuiSteps`, `TuiClient`). Out-of-order merging has an exact specification (`MergeSpec`),
  pagination ends, and in every interleaving of the load protocol the transcript is the
  projection of an exact prefix of one log (`TranscriptIsAlwaysExact`).
* **Trace replay** (`TraceReplay`, `TraceProofs`). The incremental acceptor equals a predicate on
  the whole trace (`AcceptsIffValid`).
* **Version order** (`SemVer`). The comparison is section 11 of Semantic Versioning 2.0.0, and
  ranges are convex.

`Wrappers`, `Sorting` and `Decimal` are shared helpers.

## Conventions

* Code that updates fields or runs loops is a class or a method, and its `ensures` ties the new
  state to a function of the old one; the laws are proved about that function.
* An exception is an `Err` result. A call that raises after it changed something returns an
  `Err` together with the changed state.
* Fresh identifiers are parameters required to be new to the graph.
* The summary generator, the size of a serialized state and the rendering of messages are
  arbitrary functions. The generator may return something different on every attempt.
* A step of the load protocol is what runs between two `await` points. The event stores are
  append-only logs, and a notification carries an event that its store already holds.

## Where the code and its stated behaviour differ

* A graph without a root cannot be restored from its own snapshot; every other reachable graph
  can (`TaskGraphProofs.ReachableRestores`).
* A call that raises need not leave the graph as it was. Interrupting a known task that cannot be
  interrupted raises after its interruptible descendants have changed. That is the only case:
  `TaskGraphErrors.RefusedCallsChangeNothingIff` is the exact condition over all operations, and
  `TaskGraphErrors.InterruptCanRaiseHalfWay` a run that meets it.
* The decoder checks the header limit while it still waits for the end of the header, so a header
  within three bytes of the limit decodes or fails depending on how it is split
  (`FramingProofs.ChunkingIsSafeIff`). With the default limits of 4 MiB and 16 KiB this cannot
  occur (`FramingProofs.DefaultLimitsDecode`).
* The newest load, when it fails, leaves notifications that arrived meanwhile in the buffer; they
  wait for the next load of the session (`TuiProofs.FinishLeavesBufferIff`).
* The cheapest evidence is meant to go first, tier by tier. The eviction loop does that, but the
  limit of 64 facts per field, applied before it, does not look at tiers.
  `EvictionTiers.TiersHoldIff` says for which states the order holds all the same (among them all
  states with at most 64 facts per field), and `EvictionTiers.LimitCanBreakTiers` gives a state on
  which a constraint is lost while a failure stays.

## Model

| member | source | states |
|---|---|---|
| TaskGraphProofs.ApplyKeeps | packages/aihi/agent/src/aihi/agent/agents/graph.py:90-306 | From a sound graph (empty, or accepted by the validator), every call - also one that raises half way - leaves a sound graph; tasks never disappear, their specifications never change, terminal tasks keep their state and result, and a completed task has only terminal children and gains none |
| TaskGraphProofs.RunKeeps | packages/aihi/agent/src/aihi/agent/agents/graph.py:90-306 | The same over every sequence of calls |
| TaskGraphProofs.ReachableRestores | packages/aihi/agent/src/aihi/agent/agents/graph.py:308-415 | For every sequence of calls on a new graph, restoring the snapshot gives back the same roots and nodes if and only if a root was ever created; otherwise the graph is empty and the restore is refused |
| TaskGraphProofs.CompletedStaysClosed | packages/aihi/agent/src/aihi/agent/agents/graph.py:209-253 | Once a task is completed, all its children are terminal, and it and they are identical after any further calls |
| TaskGraphProofs.UnderIsReachability | packages/aihi/agent/src/aihi/agent/agents/graph.py:358-415 | Following parent fields upward gives exactly the least set that contains the task and is closed under child links |
| TaskGraphProofs.UnderIsDeeper | packages/aihi/agent/src/aihi/agent/agents/graph.py:373-390 | Anything reachable from a task other than itself is strictly deeper, so child links are acyclic |
| TaskGraphProofs.AuthorityNarrows | packages/aihi/agent/src/aihi/agent/agents/graph.py:165-203 | Every descendant holds a subset of every ancestor's capabilities and is within its budget in all four dimensions; the depth limit is inherited and the child limit never grows |
| TaskGraphProofs.GraphSize | packages/aihi/agent/src/aihi/agent/agents/graph.py:165-203 | A sound graph has at most 1 + m + ... + m^h tasks, for the root's child limit m and depth limit h |
| TaskGraphProofs.SweptIsReachability | packages/aihi/agent/src/aihi/agent/agents/graph.py:281-306 | The tasks a recursive stop touches are exactly the least set closed under eligible children of the task and of its members |
| TaskGraphProofs.SweepOneMore | packages/aihi/agent/src/aihi/agent/agents/graph.py:300-306 | Running one iteration of the recursive stop on a partly stopped graph adds exactly the branch of that child, whatever the earlier branches already changed |
| TaskGraphProofs.BranchesDisjoint | packages/aihi/agent/src/aihi/agent/agents/graph.py:281-306 | No task is stopped through two different siblings |
| TaskGraphProofs.StopIsComplete | packages/aihi/agent/src/aihi/agent/agents/graph.py:281-306 | After a stop nothing eligible is left below the task |
| TaskGraphProofs.CancelTwice | packages/aihi/agent/src/aihi/agent/agents/graph.py:292-298 | A successful cancel leaves the task terminal, and cancelling again changes nothing |
| TaskGraphProofs.StopTransition | packages/aihi/agent/src/aihi/agent/agents/graph.py:209-253 | For an eligible task the transition into cancelled or interrupted stores the stopped task, except that cancelling raises when the reason is too long to be stored as a result |
| TaskGraph.Tasks.CreateRoot | packages/aihi/agent/src/aihi/agent/agents/graph.py:90-119 | The object after the call, and the value or error, are those of the model's step; the object stays valid |
| TaskGraph.Tasks.Spawn | packages/aihi/agent/src/aihi/agent/agents/graph.py:155-203 | As for CreateRoot: every refusal (missing parent, parent neither running nor waiting, depth, child count, budget, capabilities) leaves the object unchanged, success adds the child and the link |
| TaskGraph.Tasks.HasActiveChild | packages/aihi/agent/src/aihi/agent/agents/graph.py:243-246 | The scan finds a child exactly when some known child is not terminal |
| TaskGraph.Tasks.Transition | packages/aihi/agent/src/aihi/agent/agents/graph.py:209-253 | New state and outcome equal the model's transition, including the default result of terminal states and every refusal |
| TaskGraph.Tasks.Complete | packages/aihi/agent/src/aihi/agent/agents/graph.py:255-270 | Completing is the transition with a completed result |
| TaskGraph.Tasks.Fail | packages/aihi/agent/src/aihi/agent/agents/graph.py:272-274 | Failing is the transition with a failed result carrying the error |
| TaskGraph.Tasks.Resume | packages/aihi/agent/src/aihi/agent/agents/graph.py:289-290 | Resuming is the transition to running |
| TaskGraph.Tasks.StopBranch | packages/aihi/agent/src/aihi/agent/agents/graph.py:281-306 | One iteration of the loop: stops everything below a child and then the child, or raises before anything has changed |
| TaskGraph.Tasks.SweepDescendants | packages/aihi/agent/src/aihi/agent/agents/graph.py:281-306 | The mutually recursive loop terminates and changes exactly the tasks reachable through eligible ones, each to the target state with the reason |
| TaskGraph.Tasks.Interrupt | packages/aihi/agent/src/aihi/agent/agents/graph.py:276-279 | Descendants first, then the task; when the task itself cannot be interrupted the error leaves the descendants already interrupted |
| TaskGraph.Tasks.Cancel | packages/aihi/agent/src/aihi/agent/agents/graph.py:292-298 | Descendants first; an already terminal task is returned as it is, any other becomes cancelled |
| TaskGraph.Search.Visit | packages/aihi/agent/src/aihi/agent/agents/graph.py:402-413 | On nodes that passed the per-node checks the search terminates, never reports a cycle, restores the active set, and adds exactly the subtree of the task to the seen set |
| TaskGraphCalls.TransitionIff | packages/aihi/agent/src/aihi/agent/agents/graph.py:209-253 | A transition succeeds exactly when the task is known, the new state can be entered from its own (listed state by state), a given result is a finished state's and its own, a reason that becomes a summary is not too long, and a completed task's children are finished; then exactly the stated state, result and reason are stored |
| TaskGraphCalls.ResumeIff | packages/aihi/agent/src/aihi/agent/agents/graph.py:289-290 | Resuming succeeds exactly for a known pending, waiting or interrupted task, and stores running with the reason "resumed" |
| TaskGraphCalls.CompleteIff | packages/aihi/agent/src/aihi/agent/agents/graph.py:255-270 | Completing succeeds exactly when the summary fits, the task is running or waiting and its children are finished; the result and its artifacts are stored |
| TaskGraphCalls.FailIff | packages/aihi/agent/src/aihi/agent/agents/graph.py:272-274 | Failing succeeds exactly when the text fits and the task is unfinished; the text is stored as error, summary and reason |
| TaskGraphCalls.CreateRootIff | packages/aihi/agent/src/aihi/agent/agents/graph.py:90-119 | A root is created exactly in a graph without one, with limits that are not negative, and every field of it is as asked |
| TaskGraphCalls.SpawnIff | packages/aihi/agent/src/aihi/agent/agents/graph.py:155-203 | A child is spawned exactly when the parent is running or waiting, has room for it, is above the depth limit, and covers its budget in all four dimensions and its capabilities; what was not asked for is the parent's, and only the parent's child list changes besides |
| TaskGraphCalls.ReachedIff | packages/aihi/agent/src/aihi/agent/agents/graph.py:281-306 | What a recursive stop reaches, one link at a time: a child of the task or of a reached task, in a state that can be stopped, listed for both kinds |
| TaskGraphCalls.CancelIff | packages/aihi/agent/src/aihi/agent/agents/graph.py:292-306 | Cancelling succeeds exactly when the task is known and the reason fits or there is nothing to cancel; then exactly the unfinished tasks it reaches are cancelled with the reason as reason and summary, and nothing else changes |
| TaskGraphCalls.InterruptIff | packages/aihi/agent/src/aihi/agent/agents/graph.py:276-287 | Interrupting succeeds exactly for a known pending, running or waiting task; in every case exactly the such tasks it reaches are interrupted |
| TaskGraphCalls.LinkMeans | packages/aihi/agent/src/aihi/agent/agents/graph.py:366-380 | Every child link of an accepted graph, field by field, and every task has at most one parent |
| TaskGraphCalls.ResultMeans | packages/aihi/agent/src/aihi/agent/agents/graph.py:381-397 | In an accepted graph exactly the finished tasks have a result, which is their own |
| TaskGraphErrors.InterruptRaisesIff | packages/aihi/agent/src/aihi/agent/agents/graph.py:276-279 | Interrupting raises exactly when the task is unknown, or neither pending, running nor waiting |
| TaskGraphErrors.RaisingInterruptKeepsGraphIff | packages/aihi/agent/src/aihi/agent/agents/graph.py:276-287 | An interrupt that raises has left the graph as it was exactly when the task is unknown or has no child that can be interrupted |
| TaskGraphErrors.RefusedCallsChangeNothingIff | packages/aihi/agent/src/aihi/agent/agents/graph.py:90-306 | Over every operation: "it succeeds or changes nothing" holds of a call if and only if the call is not an interrupt of a known task that cannot itself be interrupted but has a child that can |
| TaskGraphErrors.OtherRefusedCallsChangeNothing | packages/aihi/agent/src/aihi/agent/agents/graph.py:90-306 | Every operation other than interrupting leaves the graph as it was whenever it raises; cancelling in particular never raises half way |
| TaskGraphErrors.InterruptCanRaiseHalfWay | packages/aihi/agent/src/aihi/agent/agents/graph.py:276-287 | A run of five calls on a new graph - create, start, spawn, fail the parent, interrupt the parent - whose last call raises and leaves the child interrupted |
| TaskGraph.CheckLink | packages/aihi/agent/src/aihi/agent/agents/graph.py:366-380 | The checks of one child link, in the validator's order, pass exactly when the link meets every condition |
| TaskGraph.CheckNode | packages/aihi/agent/src/aihi/agent/agents/graph.py:361-397 | The checks of one node, in the validator's order - key, repeated children, links, count, parent, result - pass exactly when the node meets every condition |
| TaskGraph.CheckNodes | packages/aihi/agent/src/aihi/agent/agents/graph.py:358-398 | The pass over the nodes accepts exactly the snapshots in which every node meets every per-node condition |
| TaskGraph.FromSnapshot | packages/aihi/agent/src/aihi/agent/agents/graph.py:318-415 | The validator accepts exactly the graphs in which all nodes pass and all are reachable from the root, and returns the same graph |
| Subagents.OpenGraphSpec | packages/aihi/agent/src/aihi/agent/agents/subagent.py:467-486 | The graph opened for a parent run has one running root with exactly the authority's limits |
| Subagents.ChildBudgetSpec | packages/aihi/agent/src/aihi/agent/agents/subagent.py:488-500 | Tokens, time and tool calls are the smaller of what was asked and the authority's, the cost limit is the authority's |
| Subagents.CapabilitiesSpec | packages/aihi/agent/src/aihi/agent/agents/subagent.py:502-520 | A child gets exactly what was asked, or all of the authority but spawning, within its type's ceiling |
| Subagents.ChildStartsIff | packages/aihi/agent/src/aihi/agent/agents/subagent.py:408-424 | A child starts exactly when its limits are positive, the parent run's root is active and has room, and the capabilities are within the authority |
| Subagents.StartedChildIsRunning | packages/aihi/agent/src/aihi/agent/agents/subagent.py:408-426 | A started child is running with exactly that budget and those capabilities |
| Subagents.CommitSpec | packages/aihi/agent/src/aihi/agent/agents/subagent.py:445-465 | A completed, waiting or failed result ends its task accordingly if the task can end so, with the stated result stored, and otherwise changes nothing |
| Subagents.StepKeeps | packages/aihi/agent/src/aihi/agent/agents/subagent.py:392-486 | Handling one request or one result keeps every parent run's graph sound and rooted at exactly the authority, and appends at most the one started child to the parent run it names |
| Subagents.RunKeeps | packages/aihi/agent/src/aihi/agent/agents/subagent.py:392-486 | Over any interleaving, the children linked in a parent run's graph are exactly those started for it, in order |
| Subagents.NeverTooManyChildren | packages/aihi/agent/src/aihi/agent/agents/subagent.py:467-486 | However requests and results interleave, no parent run is given more children than the authority's limit |
| Subagents.StartedChildIsConfined | packages/aihi/agent/src/aihi/agent/agents/subagent.py:408-424 | A started child holds only capabilities of the authority and of its type's ceiling, never the implicit right to spawn, and a budget within the authority's in all dimensions |
| Subagents.RestrictRegistry | packages/aihi/agent/src/aihi/agent/agents/subagent.py:102-112 | The loop keeps exactly the tools whose required capabilities are all held |
| Subagents.StartedChildSeesOnlyAllowedTools | packages/aihi/agent/src/aihi/agent/agents/subagent.py:102-112 | Every tool in a started child's restricted registry needs only what both the authority and the child's type allow |
| Eviction.BoundState | packages/aihi/agent/src/aihi/agent/context/compaction.py:311-358 | For any size function, the eviction loop over the ten fields terminates and equals the simple form: clip, order all facts by tier, recency, field and position, drop the shortest prefix after which the state fits, or everything |
| Eviction.RecencySpec | packages/aihi/agent/src/aihi/agent/context/compaction.py:361-364 | A fact is as recent as it was observed, else as the newest event it cites, else it counts as -1 |
| Eviction.BoundedScalars | packages/aihi/agent/src/aihi/agent/context/compaction.py:328-333 | Of the rest of the state only the objective is cut at its end and the two source lists keep their last 128 entries |
| EvictionTiers.TiersFieldByField | packages/aihi/agent/src/aihi/agent/context/compaction.py:34-48 | A pending approval is evicted only when every other field is empty; constraints, decisions, questions and next steps only when failures, verified, files, subagents and skills are; and inside a tier nothing older stays while something newer goes |
| EvictionTiers.AgedLength | packages/aihi/agent/src/aihi/agent/context/compaction.py:314-326 | The clip of a field is its newest 64 facts, oldest first |
| Eviction.Cheapest | packages/aihi/agent/src/aihi/agent/context/compaction.py:334-352 | The scan over the tiers picks a field whose head ranks before every other field's head, and nothing only when every field is empty |
| Eviction.EvictStep | packages/aihi/agent/src/aihi/agent/context/compaction.py:334-358 | Evicting the chosen head turns "the first k of the global order are gone" into "the first k + 1 are gone" |
| Eviction.NextSlot | packages/aihi/agent/src/aihi/agent/context/compaction.py:334-352 | The best field head is the next fact of the global order |
| Eviction.EvictionOrderExists | packages/aihi/agent/src/aihi/agent/context/compaction.py:42-48 | The priority is a strict total order on the facts of any state: some listing holds them all in strictly increasing priority |
| Eviction.EvictionFollowsPriority | packages/aihi/agent/src/aihi/agent/context/compaction.py:42-48 | Among the facts the clip kept, none is lost while one that ranks before it is kept |
| EvictionTiers.TiersHoldIff | packages/aihi/agent/src/aihi/agent/context/compaction.py:34-48 | Over the facts that go in: no fact is lost while one of a cheaper tier, or an older one of its tier, is kept - under every size function and limit - if and only if each field of more than 64 facts loses to the limit nothing that ranks after the oldest kept fact of any non-empty field |
| EvictionTiers.BoundedFollowsTiers | packages/aihi/agent/src/aihi/agent/context/compaction.py:311-358 | When that condition holds the bounded state keeps the order, whether a fact goes by the limit or by eviction |
| EvictionTiers.SmallFieldsFollowTiers | packages/aihi/agent/src/aihi/agent/context/compaction.py:314-326 | With at most 64 facts in every field the clip only sorts and cuts, and the order always holds |
| EvictionTiers.LimitCanBreakTiers | packages/aihi/agent/src/aihi/agent/context/compaction.py:314-326 | A state with one failure and 65 later constraints: nothing needs evicting, yet a constraint is lost while the failure stays |
| Eviction.BoundedSpec | packages/aihi/agent/src/aihi/agent/context/compaction.py:311-358 | The bounded state fits or holds no fact; every field is a suffix of the clipped field, is sorted and within the count and length limits, and every fact is a cut of an input fact |
| Eviction.EvictionIsNeeded | packages/aihi/agent/src/aihi/agent/context/compaction.py:334-358 | With any shorter prefix of the order gone the state is still too large |
| Eviction.BoundingIsIdempotent | packages/aihi/agent/src/aihi/agent/context/compaction.py:311-358 | Bounding a bounded state changes nothing |
| Eviction.ClipFieldClips | packages/aihi/agent/src/aihi/agent/context/compaction.py:314-326 | The per-field clip sorts by recency, keeps at most 64 facts, cuts their text, and adds nothing |
| Messages.EstimateMessagesTokens | packages/aihi/models/src/aihi/models/tokens.py:28-41 | The nested loops compute the cost function |
| Messages.EstimateTextSpec | packages/aihi/models/src/aihi/models/tokens.py:17-25 | One token for every four ASCII characters begun and every two others begun; none only for the empty text |
| Messages.CostSpec | packages/aihi/models/src/aihi/models/tokens.py:28-41 | A message costs 4 and each block its texts or 3072, and the total is scaled by 4/3 rounded down |
| Messages.ConcatenationEstimate | packages/aihi/agent/src/aihi/agent/context/compaction.py:223-251 | The estimate of concatenated groups is at least the sum of their estimates and exceeds it by at most two thirds per group |
| Grouping.PendingSpec | packages/aihi/agent/src/aihi/agent/context/grouping.py:24-34 | A call is in the loop's pending set exactly when some message of the group makes it and no later message answers it, nor the first message itself if that made it |
| Grouping.NothingPendingIsClosed | packages/aihi/agent/src/aihi/agent/context/grouping.py:24-34 | The loop stops exactly when every call made so far is answered |
| Grouping.AnswerClosesGroup | packages/aihi/agent/src/aihi/agent/context/grouping.py:8-36 | A call, its answer and a further message are two groups |
| Grouping.GroupEnd | packages/aihi/agent/src/aihi/agent/context/grouping.py:24-34 | The inner loop stops at the first point where no call is pending, or at the end |
| Grouping.GroupToolExchanges | packages/aihi/agent/src/aihi/agent/context/grouping.py:8-36 | The groups partition the messages in order; every group but possibly the last has all its calls answered inside it, and no shorter start of a group has |
| Grouping.GroupingIsUnique | packages/aihi/agent/src/aihi/agent/context/grouping.py:21-36 | There is only one such partition |
| Grouping.BoundaryKeepsExchange | packages/aihi/agent/src/aihi/agent/context/grouping.py:21-36 | No boundary between groups separates a call from the first result after it that answers it |
| Compaction.TargetSpec | packages/aihi/agent/src/aihi/agent/context/compaction.py:94-96 | The target and the tail's share are the largest whole numbers within their ratios of the capacity |
| Compaction.TailBudgetSpec | packages/aihi/agent/src/aihi/agent/context/compaction.py:228-241 | The tail budget is the largest that keeps within its two limits and, with the prompt, the tool schemas and the inflated summary allowance, within the target; or nothing |
| Compaction.InitialTail | packages/aihi/agent/src/aihi/agent/context/compaction.py:223-251 | The loop selects the longest suffix of groups whose estimates sum within the tail budget, or the last group alone when even that exceeds it |
| Compaction.RemoveLeast | packages/aihi/agent/src/aihi/agent/context/compaction.py:90-156 | Removing the minimum of a suffix of indexes leaves the next shorter suffix |
| Compaction.GatherInterval | packages/aihi/agent/src/aihi/agent/context/compaction.py:99-110 | When the retained indexes are a suffix, collecting retained and omitted messages gives the two halves of the grouping |
| Compaction.Compact | packages/aihi/agent/src/aihi/agent/context/compaction.py:61-189 | For any summary generator the loop terminates; with fewer than two groups it raises, otherwise it returns the first acceptable cut at or after the initial one, and raises exactly when there is none |
| Compaction.Shrink | packages/aihi/agent/src/aihi/agent/context/compaction.py:98-165 | The shrinking loop itself: the summary, ids and token count of the first acceptable cut |
| Compaction.IdsArePartitioned | packages/aihi/agent/src/aihi/agent/context/compaction.py:72-165 | With distinct ids, replaced and retained ids together are the input ids, each once |
| Compaction.CompactionGuarantee | packages/aihi/agent/src/aihi/agent/context/compaction.py:61-189 | On success omitted followed by retained is exactly the non-summary messages, both are non-empty and made of whole groups, and the estimate is within target or exactly the last group remains and fits the capacity |
| Compaction.CompactionIsEarliest | packages/aihi/agent/src/aihi/agent/context/compaction.py:94-156 | Every attempt before the successful one left more than the target, so no group is given up too early; a refusal means that every attempt did and that the newest group alone exceeds the capacity too |
| Compaction.CompactionKeepsExchanges | packages/aihi/agent/src/aihi/agent/context/compaction.py:89-110 | A successful compaction never separates a call from its result |
| Compaction.Pack | packages/aihi/agent/src/aihi/agent/context/model_summary.py:147-172 | The packing loop: packs concatenate to the groups, are never empty, are within the limit if they hold several groups, and could not have taken the next group |
| Compaction.Chunks | packages/aihi/agent/src/aihi/agent/context/model_summary.py:147-172 | The chunks concatenate to the messages; an empty request gives one empty chunk |
| Compaction.ChunksKeepExchanges | packages/aihi/agent/src/aihi/agent/context/model_summary.py:147-172 | No boundary between chunks separates a call from its result |
| Sorting.StableSortSpec | packages/aihi/agent/src/aihi/agent/context/projector.py:569-579 | Sorting by a key permutes, orders, and keeps the order of equal keys |
| ContextRun.ProjectApprovals | packages/aihi/agent/src/aihi/agent/context/projector.py:368-392 | The loop over the events computes the projection |
| ContextRun.CursorFollowsLog | packages/aihi/agent/src/aihi/agent/context/compaction.py:209-220 | Over any run of compactions of a growing numbered log, the deltas put together are the log up to the longest length seen, and the cursor is that length, so it never decreases |
| ContextRun.OpenStep | packages/aihi/agent/src/aihi/agent/context/projector.py:368-392 | How one more event changes which approvals are open: requested, or still open and not closed by it |
| ContextRun.ProjectFollowsLog | packages/aihi/agent/src/aihi/agent/context/projector.py:368-392 | Projecting a slice of the log keeps "only open approvals are listed" and "all open approvals are listed" |
| ContextRun.BoundedOnlyDrops | packages/aihi/agent/src/aihi/agent/context/compaction.py:311-358 | Bounding adds no pending approval |
| ContextFacts.PendingFactsAreCurrent | packages/aihi/agent/src/aihi/agent/context/projector.py:368-392 | After any run every pending-approval fact reports the last request of an approval that is still open: its words, possibly cut at the end, its event and its time |
| ContextRun.PendingFollowsLog | packages/aihi/agent/src/aihi/agent/context/compaction.py:61-97 | After any run, whatever the generator returned, the pending approvals are open in the whole log; if bounding never dropped one they are all the open ones |
| Framing.Decoder.Peek | apps/aihi-code-cli/src/rpc/framing.ts:37-80 | One turn of the loop: the next frame, more input needed, or a protocol error |
| Framing.Decoder.Push | apps/aihi-code-cli/src/rpc/framing.ts:34-84 | A push returns the bodies of the whole frames in buffer and chunk, keeps the rest, and fails exactly when draining does |
| Framing.HeaderEndIsStable | apps/aihi-code-cli/src/rpc/framing.ts:86-102 | Once the end of a header is found, more input never moves it |
| Framing.NextFrameAppend | apps/aihi-code-cli/src/rpc/framing.ts:34-84 | A frame that was complete is read in the same way whatever follows it |
| Framing.DrainAppend | apps/aihi-code-cli/src/rpc/framing.ts:34-84 | Draining a concatenation is draining the first part, then what is left with the second |
| Framing.ChunkingIsInvisible | apps/aihi-code-cli/src/rpc/framing.ts:34-84 | If no push fails, any sequence of pushes returns and leaves what one push of all the bytes does, for arbitrary input |
| Framing.DrainIsSettled | apps/aihi-code-cli/src/rpc/framing.ts:34-84 | After a push nothing readable is left |
| Framing.BufferIsBounded | apps/aihi-code-cli/src/rpc/framing.ts:34-84 | After a push that does not throw the buffer holds at most maxHeader + 4 + maxFrame bytes |
| HeaderSpecs.TrimSpec | apps/aihi-code-cli/src/rpc/framing.ts:104-132 | Trimming removes exactly the white space at both ends |
| HeaderSpecs.ContentLengthIff | apps/aihi-code-cli/src/rpc/framing.ts:104-132 | For any header: the length is n exactly when every line is blank or has a colon, one line and only one is named Content-Length, and its value is a numeral for n within the safe integers |
| HeaderSpecs.ClientFrameIff | apps/aihi-code-cli/src/rpc/framing.ts:34-84 | For any buffer: a frame is read exactly when its header ends within the limit and gives the body's length, that is within the frame limit, and the whole body is there |
| FramingProofs.HeaderParses | apps/aihi-code-cli/src/rpc/framing.ts:104-158 | The header the encoder writes parses back to the length |
| FramingProofs.FrameIsRead | apps/aihi-code-cli/src/rpc/framing.ts:134-158 | An encoded frame in front of anything is read back as its body |
| FramingProofs.EncoderAndDecoderAgree | apps/aihi-code-cli/src/rpc/framing.ts:134-158 | Under one frame limit, what the encoder writes the decoder reads back, and a body the encoder refuses the decoder refuses too |
| FramingProofs.DefaultLimitsDecode | apps/aihi-code-cli/src/rpc/framing.ts:3-4 | With the default limits of 4 MiB and 16 KiB every split of every stream of sendable bodies decodes |
| FramingProofs.PartialFrameWaits | apps/aihi-code-cli/src/rpc/framing.ts:34-84 | Every proper prefix of an encoded frame waits, when the header limit leaves three bytes |
| FramingProofs.StreamIsRead | apps/aihi-code-cli/src/rpc/framing.ts:34-158 | Pushing all encoded frames at once yields all bodies |
| FramingProofs.EveryChunkingDecodes | apps/aihi-code-cli/src/rpc/framing.ts:34-158 | For every list of bodies and every split of their encoded frames into chunks, the pushes yield exactly those bodies in order and an empty buffer |
| FramingProofs.TightHeaderFails | apps/aihi-code-cli/src/rpc/framing.ts:34-84 | When a header has less than three bytes to spare, there is a split of the same stream on which a push throws |
| FramingProofs.ChunkingIsSafeIff | apps/aihi-code-cli/src/rpc/framing.ts:34-158 | Every split of the stream decodes if and only if every header is at least three bytes below maxHeader |
| FrameReader.ReadFrame | packages/aihi/code-agent/src/aihi/code_agent/framing.py:17-61 | The reader's loop equals the recursive reading function, result and remaining stream |
| WorkerHeaderSpecs.WorkerHeadersIff | packages/aihi/code-agent/src/aihi/code_agent/framing.py:24-51 | For any data: the reader takes length n and goes on at rest exactly when the data is a block of lines within the limit, all ASCII with a colon, one and only one of them giving a length n within the frame limit, then a blank line, then rest |
| WorkerHeaderSpecs.WorkerFrameIff | packages/aihi/code-agent/src/aihi/code_agent/framing.py:17-61 | For any data: a frame is read exactly when the data is such a block and then as many bytes as it says; the end is clean exactly on no data |
| FrameReader.HeadersOfFrame | packages/aihi/code-agent/src/aihi/code_agent/framing.py:17-51 | Before an encoded frame the header loop yields the body's length if the header line and the body are within the limits, and a frame error if they are not |
| FrameReader.WorkerReadsStreamIff | packages/aihi/code-agent/src/aihi/code_agent/framing.py:17-80 | Reading a stream of encoded frames yields exactly the bodies and then a clean end of file if and only if each header line and each body is within the limits |
| Streaming.FeedIsOnePush | apps/aihi-code-cli/src/rpc/framing.ts:34-84 | For any draining step that continues from what it left, feeding chunks one by one equals one push |
| Decimal.PrintThenParse | apps/aihi-code-cli/src/rpc/framing.ts:104-158 | Decimal printing and parsing are inverse on every natural number |
| Transcript.AppendToPrefix | apps/aihi-code-cli/src/transcript.ts:93-118 | Appending a stored event to the projection of k events ignores it, advances to k + 1, or reports a gap, depending only on its number |
| Transcript.AppendIff | apps/aihi-code-cli/src/transcript.ts:93-118 | For any event and projection: accepted exactly if ephemeral, or numbered within the safe integers, of the shown session if there is one, and at most head + 1; then ignored or applied by its number |
| Transcript.ReplayIsProjection | apps/aihi-code-cli/src/transcript.ts:74-81 | Folding the next slice of the log gives the projection of the longer prefix |
| Transcript.MergeSpec | apps/aihi-code-cli/src/transcript.ts:82-118 | Merging any stored events, in any order and with duplicates, succeeds exactly when their numbers above k are contiguous from k + 1, and then gives the projection up to the highest |
| Transcript.IndexOfCall | apps/aihi-code-cli/src/transcript.ts:318-331 | The search finds the first entry of a tool call, or none |
| TranscriptProofs.ApplyKeeps | apps/aihi-code-cli/src/transcript.ts:120-370 | One event keeps entries in order of first appearance with one entry per tool call, and never removes, moves or re-identifies an entry |
| TranscriptProofs.ProjectionsAreTidy | apps/aihi-code-cli/src/transcript.ts:120-370 | Every projection of a log has one entry per tool call, in order of first appearance, dated within the log |
| TranscriptProofs.EntriesAreStable | apps/aihi-code-cli/src/transcript.ts:120-370 | A longer prefix of the log shows the same entries at the same places, with the same identity, and possibly more |
| TranscriptProofs.ActiveRunSpec | apps/aihi-code-cli/src/transcript.ts:120-190 | The active run after k events is r exactly when r was started and no later event ended it or started another |
| TranscriptProofs.ShownSpec | apps/aihi-code-cli/src/transcript.ts:192-350 | A tool call has an entry exactly when some event so far mentioned it |
| TranscriptContent.CallEntry | apps/aihi-code-cli/src/transcript.ts:120-370 | A call has an entry exactly when some event told it something, and then one; its status, error flag, approval, tool name, text and detail are the latest of what the events told it, in the order of the log |
| TranscriptContent.SettledSpec | apps/aihi-code-cli/src/transcript.ts:341-346 | The status shown is the last one told, except that a failure never replaces a denial or a rejection |
| TranscriptContent.LatestSpec | apps/aihi-code-cli/src/transcript.ts:333-349 | Every other field is what the last event that mentions it says |
| TranscriptContent.CallsShowWhatTheyWereTold | apps/aihi-code-cli/src/transcript.ts:120-370 | The tool entries are the calls in order of first mention, one each; an answered approval goes to the first call that last waited for it |
| TranscriptContent.CompletionIsShown | apps/aihi-code-cli/src/transcript.ts:146-153 | Right after a completion its call shows success or failure as the event says, unless it was denied or rejected |
| TranscriptLines.LinesAreShown | apps/aihi-code-cli/src/transcript.ts:164-237 | All other entries are exactly the messages with text and the stopped runs, in order, with their rendered text, shortened to 4000 characters, and their reasons |
| EventFold.FoldUnsorted | apps/aihi-code-cli/src/transcript.ts:83-92 | The sort-then-fold argument behind merging, for any append step and numbering |
| History.CheckPage | apps/aihi-code-cli/src/history.ts:33-46 | The loop accepts exactly the pages whose events are the session's next numbers without a gap, and then returns the last number |
| History.PageAcceptedIff | apps/aihi-code-cli/src/history.ts:33-46 | The recursive page check accepts exactly those pages |
| History.ReadSessionHistory | apps/aihi-code-cli/src/history.ts:13-68 | The pagination loop equals the recursive reading function on every list of replies |
| History.ReplyOutcome | apps/aihi-code-cli/src/history.ts:20-67 | What any reply leads to: it throws unless it continues the session up to its own cursor and head, it ends the read exactly when nothing more is announced and the head is reached, and one empty reply may be waited out when the head has moved on |
| History.FinishedReadIsNumbered | apps/aihi-code-cli/src/history.ts:13-68 | Against any server, a read that returns has events numbered 1..n of the session and headSeq n |
| History.WaitingIsBounded | apps/aihi-code-cli/src/history.ts:13-68 | Every reply that leaves the loop waiting either advances the cursor or is the one stalled read allowed at its position |
| History.ReadEnds | apps/aihi-code-cli/src/history.ts:13-68 | If the server's head never exceeds H the loop has ended after 2(H + 1) replies |
| History.WorkerStep | packages/aihi/code-agent/src/aihi/code_agent/worker/server.py:363-378 | Against the worker, whose page and head are read one after the other while the log grows, a page never makes the reader throw |
| History.WorkerReadIsPrefix | packages/aihi/code-agent/src/aihi/code_agent/worker/server.py:363-378 | Against that worker the whole read never throws, and returns an exact prefix of the log, whose projection is that prefix's |
| TuiProofs.StepKeeps | apps/aihi-code-cli/src/tui/app.tsx:620-769 | Every step - store, notify, begin, select, resume after an await, reject - keeps the whole invariant and never moves the head of an unchanged session backwards |
| TuiProofs.RunKeeps | apps/aihi-code-cli/src/tui/app.tsx:620-769 | The same over every interleaving |
| TuiProofs.TranscriptIsAlwaysExact | apps/aihi-code-cli/src/tui/app.tsx:620-769 | In every interleaving of stores, notifications, overlapping, failed and repaired loads and publishes, the transcript is the projection of an exact prefix of one session's log |
| TuiProofs.HeadIsMonotone | apps/aihi-code-cli/src/tui/app.tsx:669-674 | While the shown session does not change, its head never moves backwards |
| TuiProofs.PublishedIsComplete | apps/aihi-code-cli/src/tui/app.tsx:620-698 | When the newest load publishes, the transcript covers everything the store held when that load began and every notification received since, its marker is gone and nothing of the session is left buffered |
| TuiProofs.DrainKeeps | apps/aihi-code-cli/src/tui/app.tsx:638-667 | The draining loop, with a gap, with approvals to list again or ready, keeps the invariant |
| TuiProofs.NotifyKeeps | apps/aihi-code-cli/src/tui/app.tsx:740-769 | A notification is buffered, ignored, appended or starts a reload, and the invariant stays |
| TuiSteps.LiveEventIsShown | apps/aihi-code-cli/src/tui/app.tsx:740-769 | A live stored event of the selected session that is not being loaded: if the transcript is empty or shows that session and the number is at most head + 1, the transcript afterwards is the log up to the larger of the two and nothing else changes; otherwise a new load owns the session's marker |
| TuiSteps.OtherNotificationsWait | apps/aihi-code-cli/src/tui/app.tsx:740-750 | Any other notification is added to its session's buffer if that is being loaded, and changes nothing if not |
| TuiSteps.AnswerIsShown | apps/aihi-code-cli/src/tui/app.tsx:620-698 | Whatever request is answered: an outdated load shows nothing; the newest one repairs exactly when the buffered numbers leave a gap, lists approvals again exactly when it repaired or an approval event was buffered, and otherwise publishes the log up to the highest number it has, unless a longer transcript of that session is shown |
| TuiSteps.RejectedLoadEnds | apps/aihi-code-cli/src/tui/app.tsx:690-697 | A failed request changes nothing but the load, its own marker, and the buffer of an outdated load |
| TuiProofs.FinishLeavesBufferIff | apps/aihi-code-cli/src/tui/app.tsx:690-697 | When a load that still owns the marker ends with events buffered, they stay behind exactly if it is the newest load |
| TuiProofs.FailedLoadKeepsEvent | apps/aihi-code-cli/src/tui/app.tsx:690-697 | A concrete run that ends so: a failed load leaves the session not loading and the event still buffered |
| TuiClient.Refs.BeginLoadSession | apps/aihi-code-cli/src/tui/app.tsx:620-626 | Taking the next generation and setting the marker is the protocol's begin step |
| TuiClient.Refs.OnEvent | apps/aihi-code-cli/src/tui/app.tsx:740-769 | The subscription handler is the protocol's notify step |
| TuiClient.Refs.DrainBuffer | apps/aihi-code-cli/src/tui/app.tsx:638-667 | The draining loop terminates, empties the session's buffer, and ends as the protocol says |
| TuiClient.Refs.PublishAndFinish | apps/aihi-code-cli/src/tui/app.tsx:669-698 | Choosing the longer transcript, selecting and releasing the marker is the protocol's publish step |
| TuiClient.Refs.Settle | apps/aihi-code-cli/src/tui/app.tsx:638-698 | From a projection to publish: the draining loop followed by publishing is the protocol's drain step |
| TuiClient.Refs.ResumeLoad | apps/aihi-code-cli/src/tui/app.tsx:629-698 | Whatever request of a load is answered, the code up to its next await, its end or its exception is the protocol's resume step |
| TuiClient.Refs.ReleaseMarker | apps/aihi-code-cli/src/tui/app.tsx:690-697 | The finally block is the protocol's finish step |
| TraceReplay.ReplayState.ApplyRunEvent | packages/aihi/agent/src/aihi/agent/evals/replay.py:232-290 | Run bookkeeping in place equals the specification step; an error is an error of it |
| TraceReplay.ReplayState.ApplyToolEvent | packages/aihi/agent/src/aihi/agent/evals/replay.py:292-326 | Tool bookkeeping in place equals the specification step |
| TraceReplay.ReplayState.ApplyEvent | packages/aihi/agent/src/aihi/agent/evals/replay.py:215-230 | Sequence, session, durability and id checks, then run and tool steps |
| TraceReplay.Replay | packages/aihi/agent/src/aihi/agent/evals/replay.py:380-387 | The loop accepts exactly when folding the specification step does |
| TraceProofs.AcceptsIffValid | packages/aihi/agent/src/aihi/agent/evals/replay.py:188-387 | A trace is accepted if and only if the whole-trace predicate holds: one session, sequences 1..n, distinct ids, nothing ephemeral, runs enter each state only from those listed for it since their last start or resume, tools start once and complete at most once in the run that started them, no result crosses runs, and only referential events follow a run's end |
| TraceProofs.ApplyStep | packages/aihi/agent/src/aihi/agent/evals/replay.py:215-326 | One event is accepted exactly when the predicate holds at it, and the mutable sets and maps remain a summary of the prefix |
| TraceProofs.PrefixAccepted | packages/aihi/agent/src/aihi/agent/evals/replay.py:215-326 | The same for every prefix |
| TraceReplay.NamesAreExact | packages/aihi/agent/src/aihi/agent/evals/replay.py:240-262 | Every run state has one name and every name one state |
| TraceProofs.RunStep | packages/aihi/agent/src/aihi/agent/evals/replay.py:232-290 | The run part of that equivalence |
| TraceProofs.ToolStep | packages/aihi/agent/src/aihi/agent/evals/replay.py:292-326 | The tool part of that equivalence |
| TraceProofs.FinalRunStates | packages/aihi/agent/src/aihi/agent/evals/replay.py:328-345 | After an accepted trace the recorded state of a run is what the last event that sets it said |
| SemVer.LessIsPrecedence | packages/aihi/agent/src/aihi/agent/plugins/manifest.py:59-83 | The comparison is precedence as section 11 of Semantic Versioning 2.0.0 defines it, stated by the first deciding identifier |
| SemVer.StrictTotalOrder | packages/aihi/agent/src/aihi/agent/plugins/manifest.py:28-83 | On valid versions the comparison is a strict total order consistent with field equality, and the derived operators agree with it |
| SemVer.LeadingZerosWouldBreakTheOrder | packages/aihi/agent/src/aihi/agent/plugins/manifest.py:18-53 | Without the leading-zero rule two different versions would be incomparable |
| SemVer.SatisfiesIff | packages/aihi/agent/src/aihi/agent/plugins/manifest.py:105-128 | Each comparator in terms of section 11 precedence |
| SemVer.MatchesIff | packages/aihi/agent/src/aihi/agent/plugins/manifest.py:105-128 | A range is met by all its comparators together, the star by every version |
| SemVer.ComparatorIsConvex | packages/aihi/agent/src/aihi/agent/plugins/manifest.py:105-128 | What one comparator accepts is convex |
| SemVer.RangeIsConvex | packages/aihi/agent/src/aihi/agent/plugins/manifest.py:86-128 | If two versions match a range, so does every version between them |
| SemVer.ParsedIsValid | packages/aihi/agent/src/aihi/agent/plugins/manifest.py:35-53 | Parsing returns only valid versions, so the order laws hold of everything parsed |
| SemVer.ShowThenParse | packages/aihi/agent/src/aihi/agent/plugins/manifest.py:35-57 | Printing a valid version, with any build suffix appended, parses back to the same version |
| SemVer.ParseThenShow | packages/aihi/agent/src/aihi/agent/plugins/manifest.py:18-53 | The parser accepts nothing but a valid version as printed, followed by build metadata |
| SemVer.JoinSplit | packages/aihi/agent/src/aihi/agent/plugins/manifest.py:59-83 | Splitting a prerelease at its dots loses nothing |

## Left out

- Text validation of tasks (stripping, non-empty text, JSON types), timestamps, metadata, metrics, locks and event sinks of the task graph: carried opaquely or omitted. The 4096-character limit on a reason is modelled, because it decides when cancelling raises.
- The dictionary form of snapshots: a snapshot is the pair of roots and nodes; encoding and decoding of its fields is taken as the identity.
- Budgets and durations are integers and reals; floating-point rounding is not modelled. Ratios in the compaction policy are exact, and the inflation by four thirds is exact integer division.
- A request to delegate with an unknown agent type or a blank objective, which is refused before any graph is opened.
- The child run itself, its coordinator, timeouts and the tool-call budget observer: a child's result is an arbitrary event.
- SubagentTool keeps its graphs in a dictionary of objects; the model keeps a map from parent run to graph value, so aliasing between two references to one graph is not captured.
- Tool, semantic, artifact and subagent facts of the projector: an arbitrary `rest` in each compaction. The digest used for fact ids is taken as injective.
- Summaries written in the older format, the JSON round trip of the context state, and the error raised when a fact's text is blank after cutting.
- JSON bodies: opaque byte strings; a body that is not a JSON object is outside the model, as are UTF-8 errors. Stream flushing and short writes are not modelled.
- Payload decoding, redaction and previews of tool input in the transcript: the event carries the decoded payload.
- Everything in app.tsx outside the load and notification protocol: rendering, approvals shown, authority, stream text, run errors.
- Regular expressions over a version-range text: a range is its list of comparators.
- Replay results: message projection (which may refuse orphan results after the loop has accepted), hashes and the trace bundle. Acceptance by the apply loop and the final run states are modelled.
- Limits on the number of digits Python converts to an integer.
- Transports, processes, file stores, policies, hooks, memory, sandboxes and providers: input and output, or settled by reading one branch.
