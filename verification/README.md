# natsune in Dafny

natsune compiles a subset of Python to interaction nets and runs the nets on a
pool of work-stealing threads. This project models the parts of it whose
correctness is not visible in any single function, and proves what they keep.

| Part | Files |
|---|---|
| The statement IR, its `Exits` analysis, the routes it stands for, and its variable usage | `ir.dfy`, `routes.dfy`, `variable_usage.dfy` |
| What the source means: a big-step interpreter with for-else | `python.dfy` |
| Outcome channels, the emitted flows, the lowering and its correctness | `channels.dfy`, `flow.dfy`, `lowering.dfy`, `orderliness.dfy`, `lowering_correct.dfy` |
| How the channel operators are wired | `choice.dfy` |
| Where the lowering is wrong, which channels are live, how often a loop goes round | `lowering_limits.dfy`, `post_jump.dfy`, `leaky_runs.dfy`, `exclusivity.dfy`, `going_round.dfy` |
| What the lowered flow does with exceptions | `raising.dfy` |
| Concurrent `and` / `or` | `bool_op.dfy` |
| Wires, interaction rules, any number of workers, the template copier on values and on the heap, the optimizer | `net.dfy`, `interactions.dfy`, `machine.dfy`, `templates.dfy`, `template_heap.dfy`, `optimizer.dfy`, `expansion.dfy` |
| What a net computes, whatever the schedule | `solutions.dfy`, `determinacy.dfy`, `duplication.dfy` |
| Whole runs of merge chains, of split chains and of copies: what they deliver and when they stop | `tally.dfy`, `serialize.dfy`, `serialize_runs.dfy`, `parallelize.dfy`, `merge_agent.dfy`, `copy_runs.dfy`, `duplication_runs.dfy` |
| Reference cells, Par bundles, curried processes | `references.dfy`, `par.dfy`, `curried.dfy` |
| The deque, its bit tricks, the pool | `bits.dfy`, `deque.dfy`, `executor.dfy` |
| The compile driver and the two variable lists it compares | `driver.dfy`, `symbols.dfy`, `symbol_walk.dfy` |

`dafny verify dfyconfig.toml` checks everything.

## How things are modelled

- **Channels.** A port has nothing yet (`Pending`), an erasure (`Erased`) or
  something live. The outcome of a flow is the first live channel in the order
  return, continue, break, finish. A layer with an erased input erases all its
  outputs; the first write to an output wins; after `variables_readout` the
  registers dangle, so reading one stays pending.
- **Expressions** are pure functions of the variables they capture that may
  raise; an iterator is a value with a `next`. Loops carry fuel that counts turns,
  in the source and in the net alike, so statements about a run hold of every run
  that ends. `Python.BodyFuel` shows that more fuel changes no finished run.
- **Nets.** A wire is a number, a net a map from wires to the port they are set to
  and a list of active pairs. Each interaction rule is the list of connects it
  issues; each connect is one atomic step (the code holds the wire lock for it),
  and the steps of different workers interleave freely. `spent` marks the set
  wires whose last reference has been used; the code does not keep it.
- **Meaning of a net.** There are two, for two purposes. `optimizer.dfy` runs no
  agent, so it reads a net as equations between terms in which every agent stands
  for itself (`Satisfies`); so does `expansion.dfy`. `solutions.dfy` reads it as data flowing over wires, in
  any algebra of values, tuples, erasures and grafts (`Solves`); the algebra says
  which rules it makes sound, and a template must do what the algebra says of it
  (`Lawful`). The data is `Nets.Tree`, in `references.dfy` too. Readings of a copy
  (`DuplicationRuns.Reads`) are solutions in which a copier's outputs are equal and
  mirror what it faces; they are carried from the last state of a run to the first.
- **Locks** are atomic steps. Clocks, real threads and I/O are not modelled.

## What came out false, and what holds instead

1. *A loop whose else clause continues the enclosing loop.* `Loop.true_case`
   splits its finish bundle as soon as it exists, so a loop that made a turn and
   then left by `continue` also shows a live finish bundle full of erasures. What
   follows the loop runs on it. A following `break` goes live, and the enclosing
   loop gives break priority over continue: `ElseContinueMiscompiled` is a whole
   function that Python finishes with a value and the net with an erasure.
   `RouteExactly` says when the routing is right, `ElseContinueExactly` and
   `ElseContinueThenReturnExactly` say when the program is: exactly when the inner
   loop made no turn, or (for a return) when the returned expression mentions a
   variable or raises.
2. *A conditional or loop after a jump.* The registers have moved into the jump's
   bundle, so a header on any variable never fires and every later channel stays
   pending. `PostJumpExactly`: the outcome is still read right if and only if the
   body cannot return and, after a break, cannot continue.
   `PostContinueTurnExactly` and `PostBreakLoopExactly` say the same of an enclosing
   loop, whichever its turn, and `PostBreakStarvesFunction` is a whole function that
   Python finishes with a value and the net never finishes.
3. `Orderly` is what these conditions leave. A compound statement after a jump is
   allowed where the channels read before the jump's are cut by the exits; so is
   anything harmless after a loop that may leak its finish bundle, and anything at
   all where the leak cannot outrank the jump. On orderly bodies lowering preserves
   meaning.
4. *The net is lazier than the source.* `NetIsLazier`: `while t: pass` followed by
   `return r` answers at once. So the converse of `LoweringPreservesMeaning` fails.
5. *Channel exclusivity.* When a run of an orderly body ends, one channel is live at
   the close, the outcome's, and beside it the finish channel exactly when the run
   leaks: `ExclusiveExactly`. A run leaks when it leaves by return or continue out of
   a loop that made a turn and whose exits do not cut the finish (`LeaksBody`); runs
   that finish or break never do (`ExactlyOneLive`), and a function shows nothing but
   its return whatever it leaks (`OnlyTheReturnLive`). The first live channel is right
   regardless.
6. *A turn that returns may go round again.* `Loop.true_case` does not mask the finish
   of a turn by its return, so when a turn returns and leaks, the loop hands the value
   out and takes further turns on the leaked registers: `ReturnGoesRoundExactly`. A
   for loop then consumes more of its iterator than the source does, if there are
   items left: `ForOverrunsExactly`. `ReturnNeverStops` is a loop that returns in its
   first turn and, over an endless iterator, takes turns for as long as it is run.
   The value returned is right regardless.
7. *Work conservation has no liveness.* When every deque holds more than
   `capacity - max_reentrant_push` pairs, no worker takes any (`pop` keeps the
   reserve, and a worker steals only when its own deque is empty), and the pool
   stays so: `StuckExactly`, `StuckForever`. With a reserve equal to the capacity, which
   `WorkStealingDeque` accepts although its error message asks for more, that is any
   pool in which every deque has a pair.
8. *Duplicating a tuple.* The comment at src/natsune/first_order/interactions.py:84-91
   promises full copies of both outputs. They are full, but when the duplicator is
   the left operand the halves change places: `CrossingExactly`. Which operand is
   left depends on the schedule, so `CopiesAreMirrors` claims the tree up to
   mirroring, `DuplicationCompletes` that both outputs are mirrored alike, and
   `ValuesAreDetermined` everything else.
9. *Exceptions.* A call that raises in a test, an iterable or a returned expression
   erases all its channels, unless it does so in a turn of a loop (`RaiseErases`).
   There the finish bundle is split from the erasure all the same, and what follows
   the loop runs on with no variable bound: `RaiseRunsOn`. `RaiseLostExactly`: a
   function that then returns an expression answers the call if and only if the
   expression mentions no variable, and `RaiseIsLost` is a whole function that does.
10. *A split that raises loses its error.* Its exception is put into an erasure that is
   not passed on, so both outputs get plain ones; and an error that a merge produced
   ends at the next merge, split or combinator it meets (a graft passes it on):
   `ErrorsExactly`.
11. *The comment at src/natsune/backend/optimizer.py:20-22* fears endless reads of
   wire ports. On a linear net `Optimize` ends.

## Model

| member | source | states |
|---|---|---|
| LoweringCorrect.LoweringPreservesMeaning | src/natsune/backend/lowering.py:209-396 | for every orderly body, store and run that ends, the first live channel of the lowered flow, with its payload, is the outcome of the source |
| LoweringCorrect.CallPreservesMeaning | src/natsune/backend/lowering.py:209-275 | a lowered function's return channel carries what the Python call returns, None at the end of the body included |
| LoweringCorrect.ShortcutsSpareTheOutcome | src/natsune/backend/control_flow.py:152-172 | cutting the channels outside the exits never changes the first live channel of a run |
| LoweringCorrect.BodySim | src/natsune/backend/lowering.py:209-275 | a statement list, entered in the middle of a layer and closed by any tail, shows the outcome of its run |
| LoweringCorrect.SimpleSim | src/natsune/backend/lowering.py:498-565 | an assignment, augmented assignment or jump does to the layer's registers and outputs what the statement does to the store |
| LoweringCorrect.CompoundSim | src/natsune/backend/lowering.py:292-396 | a conditional or a loop emitted into a layer shows the outcome of the statement |
| LoweringCorrect.LoopSim | src/natsune/backend/control_flow.py:747-936 | the Loop agent, recursing over its turns, shows the outcome of the for or while loop with its else clause |
| LoweringCorrect.RouteSim | src/natsune/backend/control_flow.py:769-779 | the same from the channels of the turn; whether a return recurs as well is `ReturnGoesRoundExactly` |
| LoweringCorrect.RejoinSim | src/natsune/backend/control_flow.py:800-818 | joining a turn's channels with the recursion's gives the loop's outcome |
| LoweringCorrect.HeaderSim | src/natsune/backend/lowering.py:398-473 | the iteration flow enters a turn exactly when the loop does, with the same store and iterator, and otherwise selects the else clause |
| LoweringCorrect.ExitSim | src/natsune/backend/control_branch_flow.py:40-56 | after a statement that exits, whatever later layers do is cut, harmless or outranked, and the exit is read with its payload |
| LoweringCorrect.HarmlessSim | src/natsune/backend/control_branch_flow.py:87-98 | assignments, expressions, conditionals and continues run on a leaked bundle return nothing, break nothing, stall nothing and keep a continue that is out |
| LoweringCorrect.JumpSim | src/natsune/backend/lowering.py:220-245 | after a jump the rest of its list, conditionals and loops included, leaves the jump's outcome to be read, given what the exits cut |
| LoweringCorrect.ExitSticks | src/natsune/backend/control_branch_flow.py:53-56 | once an exit channel is live no later layer changes it |
| LoweringCorrect.TurnsPreserveMeaning | src/natsune/backend/control_flow.py:769-779 | of a finished orderly turn: one that finishes or continues recurs with its store, one that breaks leaves with its store and does not recur, one that returns hands its value out |
| LoweringLimits.RouteExactly | src/natsune/backend/control_flow.py:769-779 | Loop.true_case does what the body's first live channel asks, and nothing else, if and only if continue and break are not both live without a return, and no continue or finish is live beside a return; in that second case it recurs |
| LoweringLimits.LeaksAfterTurn | src/natsune/backend/control_flow.py:807-810 | a loop left by its else clause's continue shows a finish bundle of erasures exactly when it made a turn |
| LoweringLimits.ElseContinueExactly | src/natsune/backend/control_flow.py:747-820 | after any statements that finish, such a loop, straight code and a `break`: the continue is honoured if and only if the loop made no turn |
| LoweringLimits.ElseContinueThenReturnExactly | src/natsune/backend/control_flow.py:747-820 | the same with `return e`: the continue is read if and only if the loop made no turn, or e is not live on the leaked registers, which directly after the loop means that it mentions a variable or raises |
| LoweringLimits.ElseContinueMiscompiled | src/natsune/backend/control_flow.py:747-820 | for any variable and falsy value, a validated function that returns the value in Python and an erasure in the net |
| PostJump.PostJumpExactly | src/natsune/backend/control_flow.py:593-611 | with a statement after the jump whose header waits for a moved register, the outcome is read right if and only if return, and after a break also continue, is not among the body's exits |
| PostJump.PostContinueTurnExactly | src/natsune/backend/control_flow.py:769-779 | a loop recurs on a turn that continues so, with its store, if and only if the body can neither return nor break |
| PostJump.PostBreakLoopExactly | src/natsune/backend/control_flow.py:747-820 | a loop left so by break, after any turns that continue, finishes right if and only if only its finish can come out of it, or its body can only break |
| PostJump.PostContinueStarves | src/natsune/backend/control_flow.py:593-611 | with a conditional after continue, the return channel of a body that also returns stays pending for every store and fuel |
| PostJump.PostBreakStarvesFunction | src/natsune/backend/control_flow.py:593-611 | a validated function that returns in Python and whose return channel stays pending in the net |
| LoweringLimits.NetIsLazier | src/natsune/backend/control_flow.py:807-810 | the net returns where the source loops forever |
| Raising.RaiseErases | src/natsune/backend/lowering.py:292-396 | a call that raises in a test, an iterable or a returned expression, however deep in conditionals and else clauses but outside of the turns of loops, erases all four channels |
| Raising.TurnLeaks | src/natsune/backend/control_flow.py:807-810 | a loop that raises in a turn, or after one, shows a finish bundle of erasures, unless its exits cut it, and nothing else |
| Raising.RaiseRunsOn | src/natsune/backend/control_flow.py:747-820 | what follows such a loop runs as on its own with no variable bound; if the loop cannot fall through, all is erased |
| Raising.RaiseLostExactly | src/natsune/backend/control_flow.py:747-820 | where the function then returns e, the call is answered if and only if e mentions no variable and does not raise |
| Raising.RaiseIsLost | src/natsune/backend/control_flow.py:747-820 | a validated function that raises in Python and returns its constant in the net |
| Exclusivity.ExclusiveExactly | src/natsune/backend/control_branch_flow.py:40-79 | at the close of a finished run of a body exactly one channel is live if and only if the run does not leak; if it leaks, the finish is live beside the outcome |
| Exclusivity.ExactlyOneLive | src/natsune/backend/control_branch_flow.py:40-79 | a run that finishes or breaks, or leaves as no loop of the body can, has one live channel at its close, the outcome's |
| Exclusivity.LoopClosesExactly | src/natsune/backend/control_flow.py:807-810 | in a list, with statements that finish before and straight code after a loop left by return or continue: one channel is live if and only if the loop made no turn (nor its else clause leaks) or its exits cut the finish |
| Exclusivity.OnlyTheReturnLive | src/natsune/backend/control_branch_flow.py:58-79 | a function that ends shows its return value and nothing else |
| Exclusivity.ReturnLeaksExactly | src/natsune/backend/control_flow.py:807-810 | a loop left by return shows a live finish if and only if it leaks: it made a turn, or its else clause leaks, and fallthrough is among its exits |
| GoingRound.ReturnGoesRoundExactly | src/natsune/backend/control_flow.py:769-786 | a turn that returns is followed by another one if and only if it leaks |
| GoingRound.LoopGoesRoundExactly | src/natsune/backend/control_flow.py:769-786 | in particular with statements that finish before and straight code after the loop it returns out of |
| GoingRound.TurnsExactly | src/natsune/backend/control_flow.py:747-820 | the net takes the turns of the source, and after a leaking return exactly those that start from what it leaves; else no more |
| GoingRound.ForOverrunsExactly | src/natsune/backend/control_flow.py:747-820 | a for loop takes more turns than the source if and only if it is left by a leaking return with items to come |
| GoingRound.ReturnNeverStops | src/natsune/backend/control_flow.py:769-786 | a validated loop that returns in its first turn, in Python and in the net, while the net takes turns without end over an endless iterator |
| Exclusivity.ExclusivityFails | src/natsune/backend/control_flow.py:807-810 | `while x: return x` leaves two live channels |
| ChoiceWiring.ChoiceDelivers | src/natsune/backend/registers.py:192-204 | in every order of arrivals and agents each side of choice gets only what Choice gives it, and at rest has it |
| ChoiceWiring.OrDelivers | src/natsune/backend/control_flow.py:368-380 | the same for one SerialOr |
| Channels.MaskKeepsReading | src/natsune/backend/control_branch_flow.py:40-56 | applying a continuation keeps its first live channel and payload |
| Channels.ExitsStick | src/natsune/backend/control_branch_flow.py:53-56 | a live exit keeps its payload through every later layer, and an erased layer changes no exit |
| Channels.ControlBranchFlow.constructor | src/natsune/backend/control_branch_flow.py:24-38 | only finish is live, with the containing flow's variables |
| Channels.ControlBranchFlow.ApplyContinuation | src/natsune/backend/control_branch_flow.py:40-56 | the new channels are the masked continuation joined to the old exits |
| Channels.ControlBranchFlow.Close | src/natsune/backend/control_branch_flow.py:58-79 | the channels outside the exits are erased, the others handed on |
| Flow.DriveFlow | src/natsune/backend/control_branch_flow.py:87-98 | the loop that applies layer after layer to one object computes the recursive meaning of a flow |
| Lowering.LowerStatementList | src/natsune/backend/lowering.py:209-275 | the single pass that rebinds the open layer emits the specified layers; neither of its assertions fails |
| Lowering.JumpCloses | src/natsune/backend/lowering.py:220-245 | in a validated body every jump is its closer |
| Ir.OpenBodyFallsThrough | src/natsune/frontend/ir/nodes.py:143-160 | a body without a closer may fall through, so a function body always has return among its exits there |
| Ir.AnalyzeBodyFlow | src/natsune/frontend/ir/nodes.py:441-473 | the scan's closer is the first statement that closes, its disjunctives are the conditionals and loops before, in order; together they give the body's exits; and it rejects exactly the bodies in which something that can exit follows the closer |
| Routes.BodyRoutes | src/natsune/frontend/ir/nodes.py:143-160 | an exit is listed for a body if and only if a route leads to it: past statements that have a way past them, into nested lists, to a jump of that kind or to the end of a level list |
| Routes.StmtRoutes | src/natsune/frontend/ir/nodes.py:177-207 | the same of a conditional or a loop, where a body's continue leads nowhere and its break out of the loop |
| Routes.CloserExactly | src/natsune/frontend/ir/nodes.py:441-473 | a list has a closer if and only if one of its statements is a jump or has no route past it |
| Routes.RejectedExactly | src/natsune/frontend/ir/nodes.py:441-473 | a list is rejected if and only if a route jumps out of it from a statement after one that closes it |
| Routes.FunctionRoutes | src/natsune/frontend/ir/nodes.py:143-160 | the exits of a function are the routes' of its body, falling off the end counted as a return |
| Python.BodyExitsSound | src/natsune/frontend/ir/nodes.py:143-160 | every run of a body leaves by one of its exits, and a body with a closer never falls through |
| Python.StmtExitsSound | src/natsune/frontend/ir/nodes.py:177-207 | the same of a conditional, a loop or a jump |
| Python.LoopExitsSound | src/natsune/frontend/ir/nodes.py:433-438 | break becomes fallthrough, continue is absorbed, and the else clause's exits pass outwards |
| VariableUsage.AnalyzeUsage | src/natsune/frontend/ir/nodes.py:476-486 | the collecting loop computes the usage map |
| VariableUsage.UsageExactly | src/natsune/frontend/ir/nodes.py:313-430 | a variable is in the map if and only if the body mentions it, and marked write if and only if it is a target somewhere |
| VariableUsage.UsageIsSound | src/natsune/frontend/ir/nodes.py:313-430 | a run changes only variables marked write, and two stores that agree on the map's variables give the same run |
| BoolOps.LowerBoolOp | src/natsune/backend/lowering.py:606-619 | the loop over the operands chains one merge per operand |
| BoolOps.StagesExactly | src/natsune/backend/control_flow.py:461-534 | in every arrival order a result is one of the operands; without errors there is one if and only if some operand decides or all arrive |
| BoolOps.ArrivalPicks | src/natsune/backend/control_flow.py:461-534 | where each next operand arrives last the result is Python's very operand: the first that decides, or the last one; where each arrives first it is the last that decides, or the first one |
| BoolOps.TruthIsPythons | src/natsune/backend/control_flow.py:461-534 | the result has the truth of Python's sequential and / or |
| Nets.ConnectLinear | src/natsune/backend/connector.py:45-80 | a connect keeps every wire within two references while unset and one once set |
| Nets.NoThirdEnd | src/natsune/backend/connector.py:45-55 | a reference still held is never to a used-up wire |
| Interactions.NoRuleExactly | src/natsune/first_order/interactions.py:124-172 | the pairs that raise, or are a graft's to expand |
| Interactions.ErrorsExactly | src/natsune/first_order/interactions.py:28-104 | a rule brings an erasure with an error if and only if it is a merge that raises, or a wire port moves one along; a split that raises, and every erasure, passes on plain ones |
| Interactions.RulesConserve | src/natsune/first_order/interactions.py:28-172 | every rule hands on exactly the references of the two ports, and gives every fresh wire two ends |
| Machine.StartKeepsLinear | src/natsune/first_order/interactions.py:116-172 | starting any rule on any pair keeps the net linear |
| Machine.ActKeepsLinear | src/natsune/backend/connector.py:45-80 | so does each of its connects, whatever others did in between, and it never meets a used-up wire |
| Machine.ExpandKeepsLinear | src/natsune/backend/connector.py:308-364 | so does expanding a template in the middle of a run |
| Machine.ExpandCount | src/natsune/backend/connector.py:308-364 | an expansion adds exactly the references of its copied pairs and targets and of its two interfaces |
| Machine.ExecuteGraft | src/natsune/backend/connector.py:232-240 | every graft of a linear template that faces a port can be expanded, by the copier |
| Machine.RunsStayLinear | src/natsune/first_order/interactions.py:28-172 | every state of every run of any number of workers is linear |
| Machine.NoWireMeetsAThirdEnd | src/natsune/backend/connector.py:45-55 | no step of any run connects to a wire that had both its ends |
| Machine.ChainsDoNotRevisit | src/natsune/first_order/ports.py:34-58 | chains of set wires never come back to a wire, so they form a forest |
| Templates.CopyTemplate | src/natsune/backend/connector.py:322-358 | on every linear template, cyclic or not, the worklist ends with a fresh isomorphic copy of exactly its reachable part |
| Templates.RewirePort | src/natsune/backend/connector.py:347-358 | one port's wires are replaced by their copies, copying what is met first; a wire met again has no target |
| Templates.MetAgain | src/natsune/backend/connector.py:348-350 | the assertion that a wire met again is unset cannot fail |
| Templates.StartCopy | src/natsune/backend/connector.py:326-335 | the two interface wires are copied, with their targets queued |
| Templates.QueuePairs | src/natsune/backend/connector.py:337-342 | both ports of every pair are queued once |
| TemplateHeap.Materialize | src/natsune/backend/connector.py:322-358 | on port and wire objects, with wire lists rewritten in place: no object of the template changes, and what is made is fresh: each reached wire and each port has one copy, each copied port is its original on the copied wires, and the copy is linear again |
| TemplateHeap.RewirePort | src/natsune/backend/connector.py:344-358 | the loop over one port changes that port alone, and leaves it on copied wires |
| TemplateHeap.MetAgain | src/natsune/backend/connector.py:348-350 | the assertion that a wire met again is unset cannot fail on a linear template |
| Templates.CopyIsLinear | src/natsune/backend/connector.py:308-364 | a copy is linear and mentions no wire but its own |
| Optimizer.Connector.Optimize | src/natsune/backend/optimizer.py:15-56 | it ends, keeps the net linear and its solutions unchanged, and at the end no two combinators of a label face each other (from level 1), nor a wire port anything (from level 2; below that, one whose wire is set) nor two erasures (at level 3), and no port of a pair has a wire that only forwards; it changes the net if and only if that was not so before |
| Optimizer.Connector.Pass | src/natsune/backend/optimizer.py:26-56 | one pass lowers the weight of the net, or changes nothing, which it does exactly at rest |
| Optimizer.Connector.OptimizePair | src/natsune/backend/optimizer.py:30-56 | one pair is reduced, or put back with its forwarding wires contracted; or it is put back as it was, exactly if it is at rest by the shapes of its ports |
| Optimizer.Connector.Contract | src/natsune/backend/optimizer.py:48-55 | contracting a port's forwarding wires keeps linearity and solutions and lowers the weight |
| Optimizer.Connector.Connect | src/natsune/backend/connector.py:73-80 | the dispatch on wires and ports issues the specified connect |
| Optimizer.Connector.ConnectWireToPort | src/natsune/backend/connector.py:45-55 | the first end sets the wire, the second makes a pair |
| Optimizer.ReduceKeeps | src/natsune/backend/optimizer.py:30-46 | every reduction is the executor's rule, keeps linearity and solutions, and weighs less |
| Optimizer.ContractKeeps | src/natsune/backend/optimizer.py:48-55 | so does every contraction of a wire that only forwards |
| Optimizer.ConnectMeans | src/natsune/backend/connector.py:45-80 | connecting two ends adds exactly the equation between them |
| Expansion.ExpandMeans | src/natsune/backend/connector.py:308-364 | expanding a graft states exactly the equations of the template's reached targets and of its pairs, between what the graft faced and the graft's wire; facing an erasure it erases that wire |
| Expansion.ActMeans | src/natsune/backend/connector.py:45-80 | a connect of a running net neither loses nor adds an equation |
| Solutions.RuleSolves | src/natsune/first_order/interactions.py:28-172 | in every algebra that makes the rule sound, its connects hold wherever its pair did |
| Solutions.ActSolves | src/natsune/backend/connector.py:45-80 | a connect keeps every solution of the state |
| Solutions.SeenIsLive | src/natsune/first_order/interactions.py:28-35 | what the merge rule reads from its operand wire without the lock is what the equations give that wire |
| Solutions.ExpandSolves | src/natsune/backend/connector.py:308-364 | so does expanding a template that does what the algebra says of it, its own grafts included |
| Solutions.RunSolves | src/natsune/first_order/interactions.py:116-172 | a solution of the first state extends along every sound run, expansions included, and old wires keep their data |
| Determinacy.ValuesAreDetermined | src/natsune/first_order/interactions.py:28-172 | in every schedule, whatever it expands, a value that reaches an initial wire is the one the initial net's equations give it |
| Determinacy.CrossingExactly | src/natsune/first_order/interactions.py:64-95 | a duplicator left of a tuple has a solution if and only if the two halves are equal |
| Serialize.SerializeValues | src/natsune/backend/registers.py:479-490 | the loop builds the specified chain of merge agents |
| Serialize.SerializesInOrder | src/natsune/backend/registers.py:479-490 | for any length, arrival order and schedule, a value that comes out is the fold of the operands in index order |
| SerializeRuns.ChainRuns | src/natsune/backend/registers.py:479-490 | every schedule of n > 0 operands, values or erasures, stops within 10n + 1 steps, with the fold of all of them on the output, or an erasure exactly where join raised or an operand was erased; each agent called its function once, on the fold so far and its operand, or never if one of them was erased |
| SerializeRuns.ChainStops | src/natsune/backend/registers.py:479-490 | no schedule of the chain, under whatever interleaving, takes more than 10n + 1 steps |
| SerializeRuns.ChainDelivers | src/natsune/first_order/interactions.py:28-49 | where no step is left the output holds the fold of all operands, or an erasure exactly where join raised or an operand was erased |
| SerializeRuns.StepKeepsGood | src/natsune/first_order/interactions.py:28-49 | in every state each agent faces only its accumulator and its operand, before and after it turns, and each wire of the chain is owed one delivery |
| SerializeRuns.RunCalls | src/natsune/first_order/interactions.py:28-49 | in every state of every run an agent that is still there has made no call, and one that is gone has made its due |
| Parallelize.ParallelizeValue | src/natsune/backend/registers.py:463-476 | the loop builds the specified chain of one filter and n split agents |
| Parallelize.UnrollingRuns | src/natsune/backend/registers.py:463-476 | every schedule of n elements, of a value or an erasure, stops within 4n + 8 steps; then wire i holds element i, or an erasure exactly where the input was erased, iter raised, or next raised at or before i |
| Parallelize.ElementsInOrder | src/natsune/backend/registers.py:463-476 | of an iterator that yields xs and then raises, element i is xs[i], and those past the last are erased |
| Parallelize.ElementsAreDelivered | src/natsune/first_order/interactions.py:52-61 | where no step is left each split agent has put its two parts on its two wires, or erased both exactly where split raised or its value was erased |
| Parallelize.StepKeepsGood | src/natsune/first_order/interactions.py:52-61 | in every state each agent faces only what is due to it and each wire gets what is due there once |
| Serialize.LoadedIsLinear | src/natsune/backend/registers.py:479-490 | the chain with its operands under way is linear |
| Serialize.FlowSolves | src/natsune/backend/registers.py:523-544 | the chain's equations have the prefix folds as a solution |
| MergeAgent.StepsAreTheRule | src/natsune/first_order/interactions.py:28-49 | the agent's steps are what the merge rule connects, before and after swapping |
| MergeAgent.CalledExactlyOnce | src/natsune/first_order/interactions.py:28-49 | in every interleaving of arrivals, unlocked read and connects: one call, as fn(first, second), one result; no call and an erasure if an operand is erased |
| Duplication.CopiesAreMirrors | src/natsune/first_order/interactions.py:64-109 | in every schedule of copying, a finished tree is the one the initial net gives its wire, up to mirroring |
| Duplication.BothCopies | src/natsune/first_order/interactions.py:64-109 | finished trees on both outputs of a duplicator anywhere in a net mirror the tree it faced and have its leaves |
| Duplication.MirrorsKeepLeaves | src/natsune/first_order/interactions.py:79-95 | mirroring keeps every leaf, holes included, with multiplicity |
| DuplicationRuns.DuplicationCompletes | src/natsune/first_order/interactions.py:64-109 | where no step is left of a duplicator and a finished tree, one and the same finished tree is on both outputs; it mirrors the original and has all its leaves, erased ones included |
| DuplicationRuns.RunReadsBack | src/natsune/first_order/interactions.py:64-109 | a reading of any state of such a run, in which copies are alike and mirror what is copied, is one of its first state |
| DuplicationRuns.PlantedIsPoised | src/natsune/first_order/interactions.py:64-109 | for every tree there is such a state |
| CopyRuns.CopyStops | src/natsune/first_order/interactions.py:64-109 | every schedule of a duplicator and a finished tree of n wires stops within 23n + 27 steps and only ever copies |
| CopyRuns.StepKeepsGood | src/natsune/first_order/interactions.py:64-109 | copiers only ever meet finished parts of the original, and every wire is fed at most once, crossed or not |
| References.WiringExactly | src/natsune/first_order/adapters.py:279-333 | an assignment satisfies the wiring of any tree of loans if and only if the final value is the borrow semantics' and every wire is as computed |
| References.ExactlyOneSolution | src/natsune/first_order/adapters.py:279-333 | for every value lent there is one solution |
| References.ReadsAreSound | src/natsune/first_order/adapters.py:298-330 | in every solution each read, of lender or borrower, sees the value the borrow semantics gives it |
| References.FinalIsLastWrite | src/natsune/first_order/adapters.py:294-324 | what comes back is the last value written through the register or any loan of it, else the value lent |
| References.ReadAfterLoan | src/natsune/first_order/adapters.py:298-330 | a lender's read after a loan yields the borrower's last write, else the value lent |
| Pars.ParallelizeValue | src/natsune/backend/registers.py:463-476 | the loop unrolls a value; one that is too short loses the rest |
| Pars.JoinElements | src/natsune/backend/registers.py:479-490 | the loop joins the elements, or loses all with one of them |
| Pars.UnrolledAt | src/natsune/backend/registers.py:463-476 | element i of what is unrolled is the value's element i, or nothing where it has none |
| Pars.PartsInOrder | src/natsune/backend/registers.py:377-452 | part i of what a Par takes from a value is what item i takes from element i |
| Pars.ElementsInOrder | src/natsune/backend/registers.py:377-452 | element i of the tuple made from a bundle is what item i makes of part i; nothing is made exactly when some part makes nothing |
| Pars.ValueRoundTrip | src/natsune/backend/registers.py:377-452 | value to Par and back is the identity if and only if the value is a tuple of the adapter's widths at every level, or was lost |
| Pars.BundleRoundTrip | src/natsune/backend/registers.py:377-452 | Par to value and back is the identity if and only if no part was lost, or all were |
| Pars.FromValueShape | src/natsune/backend/registers.py:377-452 | sending into a Par raises SyntaxError if and only if some Par in it is empty, and otherwise fills its shape |
| Curried.BarrierHolds | src/natsune/backend/registers.py:588-713 | in every arrival order the destination gets the expected outcome, once everything that decides it has arrived: all arms in order, or the lowest-index error |
| Curried.OutcomeExactly | src/natsune/backend/registers.py:655-713 | once done, in every arrival order: an arm's error if and only if that arm is the failure and every arm before it is data, or plain without contraction; the contraction likewise of a plain arm; and after arms that all pass the arms in order, the chain's error or its corruption, by what ends the chain |
| Curried.HandsOverInOrder | src/natsune/backend/registers.py:661-713 | the chain that tuplate builds on the accumulator's tail, arm by arm, reads from its head as the arms in index order |
| Curried.BarrierOpens | src/natsune/backend/registers.py:661-713 | once that has arrived, the outcome is out or the automaton can move |
| Curried.CallsEnd | src/natsune/backend/registers.py:661-713 | each of its calls lowers a measure |
| Bits.SmearRoundsUp | src/natsune/deque.py:56-60 | for every hint from 1 to 2^64 the smeared capacity is the least power of two not below it |
| Bits.MaskIsModulo | src/natsune/deque.py:82-82 | masking is reduction modulo the capacity |
| Deque.LiveSlotsDistinct | src/natsune/deque.py:70-82 | two live slots never share a cell |
| Deque.WorkStealingDeque.constructor | src/natsune/deque.py:50-68 | an empty deque whose capacity is the least power of two not below the hint |
| Deque.WorkStealingDeque.Push | src/natsune/deque.py:70-82 | appends, or fails its assertion exactly when every slot is live |
| Deque.WorkStealingDeque.Pop | src/natsune/deque.py:84-101 | what is returned was the last task and the rest stays; nothing is returned, and nothing changes, exactly when the deque is empty or taking one would leave no more than the reserve free |
| Deque.WorkStealingDeque.Steal | src/natsune/deque.py:103-112 | what is returned was the first task and the rest stays; nothing, exactly from an empty deque |
| Deque.SpecsTakeEnds | src/natsune/deque.py:84-112 | the specifications of both take from those ends, where they take |
| Deque.Make | src/natsune/deque.py:50-63 | refuses exactly the hints below the reserve, reserves below one, and hints above 2^62, whose store is too long for a list; otherwise the capacity is the least power of two not below the hint |
| Bits.SmearStaysBelow | src/natsune/deque.py:56-60 | for every hint at all, the smeared capacity is below 2^(k+1) if and only if the hint is at most 2^k |
| Deque.ReserveSuffices | src/natsune/deque.py:84-101 | after a successful pop the next max_reentrant_push pushes fit, with any steals and pops between |
| Executor.StepUsesEnds | src/natsune/executor.py:96-122 | a worker pops and pushes at the right end of its own deque and steals at the left end of another; no other deque changes |
| Executor.EndedExactly | src/natsune/executor.py:71-84 | the end event is set by a worker's failure or from outside, and by nothing else |
| Executor.StepConserves | src/natsune/executor.py:96-122 | every step keeps each pair in one place: a queue slot, a worker's hands, or executed |
| Executor.StepKeepsRoom | src/natsune/executor.py:96-122 | a worker that holds a pair keeps room for what is left of max_reentrant_push pushes, whatever the others take |
| Executor.PushesFit | src/natsune/deque.py:84-101 | in every run the first max_reentrant_push pushes of an interaction cannot fail their assertion |
| Executor.StuckExactly | src/natsune/executor.py:99-122 | with all workers idle and pairs left, no worker can pop or steal if and only if every deque holds more than capacity - max_reentrant_push |
| Executor.StuckForever | src/natsune/executor.py:99-131 | such a pool never changes again, but for the end event |
| Executor.WorkIsConserved | src/natsune/executor.py:89-131 | so it is for any number of workers, any schedule and any number of pushes, failed assertions included; until the end event nothing is lost, and nothing ever runs twice |
| Executor.QuiescentMeansDone | src/natsune/executor.py:99-122 | with queues and hands empty before the end event, every pair created has been executed exactly once |
| Driver.EnsureCompiled | src/natsune/inet.py:94-107 | it ends on any call graph, leaves functions under compilation alone, and compiles only what the function reaches |
| Driver.CompileCallees | src/natsune/inet.py:162-166 | afterwards every callee is compiled or under compilation |
| Driver.Begin | src/natsune/inet.py:131-160 | the function is under compilation and its expansion is a fresh promise |
| Driver.Lower | src/natsune/inet.py:168-177 | each call site grafts its callee's net, or the callee's own promise |
| Driver.Finish | src/natsune/inet.py:178-192 | the promise is filled with the net, which becomes the expansion |
| Driver.ClosureIsCompiled | src/natsune/inet.py:131-210 | with nothing under compilation, whatever a compiled function reaches is compiled once and every call site leads to its callee's net |
| Driver.FirstCall | src/natsune/inet.py:94-210 | an outermost call compiles exactly what it reaches, each function once, with every embedded promise filled |
| Symbols.SymbolsCollector.MarkName | src/natsune/frontend/symbols.py:47-59 | a target is added last if new, and diagnosed if it was read as a global |
| Symbols.SymbolsCollector.NoteName | src/natsune/frontend/symbols.py:42-45 | an unknown name becomes a global |
| Symbols.SymbolsCollector.Visit | src/natsune/frontend/symbols.py:86-215 | the walk over a statement updates the collector as specified |
| Symbols.SymbolsCollector.VisitAll | src/natsune/frontend/symbols.py:62-83 | so does the walk over a statement list |
| Symbols.SymbolsCollector.CheckNames | src/natsune/frontend/symbols.py:123-131 | a value that reads a name its own statement has just declared is diagnosed |
| SymbolWalk.CollectedExactly | src/natsune/frontend/symbols.py:42-215 | by occurrences in walk order: the variables are the parameters, then each name that occurs first as a target, in that order and with that adapter; a name is a global if and only if it is no parameter and is read before it is any target; there is a diagnostic if and only if a target has a refused form or was read from outside before, or a value reads what its statement has just declared |
| Symbols.SameVariables | src/natsune/backend/lowering.py:163-207 | without diagnostics and bare annotations the lowering lists the collector's variables: same names, same order, same adapters |
| Symbols.DeletedSame | src/natsune/backend/lowering.py:188-190 | a deletion that builds only names variables already listed |
| Symbols.BareAnnotationIsDropped | src/natsune/frontend/symbols.py:133-153 | a bare annotation is a symbol that the lowering never lists |

## Left out

- LoweringPreservesMeaning: one direction only, because the other is false (`NetIsLazier`); the orderly condition is static, so it also excludes bodies whose bad statement follows a jump or a leak but happens to do no harm (a conditional on a constant after a break of a body that also returns, say). Where its two exclusions bite is exact: `PostJumpExactly`, `ElseContinueExactly`, `ElseContinueThenReturnExactly`.
- CallPreservesMeaning: runs that end. Those that raise in a test, an iterable or a returned expression are in `RaiseErases` and `RaiseRunsOn`; one that raises in an assignment or an expression statement goes on in the net, with the targets erased, and what it then shows is not stated.
- RaiseErases: a raising return is followed by straight code only.
- ElseContinueExactly: what follows the loop is straight code and one jump; other tails are covered where `Orderly` allows them.
- ExclusiveExactly: runs in which a leak is followed by straight code only, at every level, and a loop left by return neither breaks nor continues besides (its exits say so, or the list it returned from leaves nothing else). What a leak does to statements that read the channels is in `ElseContinueExactly` and `ElseContinueThenReturnExactly`.
- ReturnGoesRoundExactly: the same runs.
- PostBreakLoopExactly: earlier turns continue out of the statements before the break, by conditionals or by loops whose else clause leaves nothing beside the continue; one that does leak is misrouted by the break itself (`ElseContinueExactly`).
- HeaderSim: a for loop's target is one name; tuple, attribute and subscript targets are not modelled, nor is `del`.
- UsageIsSound: value variables only; attribute and subscript targets count as reads in the source and do not occur here.
- ExpandKeepsLinear: templates only. The agents with code of their own (SerialOr, SerialAnd, IfThenElse, Loop, AmbiguousPair, CurriedProcess) are modelled as channels or automata (`ChoiceDelivers`, `OrDelivers`, `BarrierHolds`), not as steps of the machine.
- CopyTemplate: ports are values there; the heap is in `TemplateHeap.Materialize`.
- Materialize: a wire list shared between two Grafts is not modelled.
- Optimize: wires are numbers and ports values, so aliasing of a port's wire list is not modelled.
- ValuesAreDetermined: runs in which no duplicator stands left of a tuple; and safety only. That the values arrive is proved for the nets the compiler leans on, chains of merges (`ChainRuns`), chains of splits (`UnrollingRuns`) and copies (`DuplicationCompletes`).
- CopiesAreMirrors: any net that copies, and safety only; `DuplicationCompletes` is for one duplicator and a tree without agents in it.
- ChainRuns: without operands the accumulator is the unit itself, by the contract of `Serialize.SerializeValues`.
- PushesFit: the code has no bound on the pushes of one interaction (a template pushes as many pairs as it holds), so past max_reentrant_push a push may fail its assertion; that ends the run and is a step of the model.
- WorkIsConserved: the pool's own way of noticing that it is idle (`IdleCounter`) is not modelled; its last worker's signal alone reaches the total.
- ReadsAreSound: reference cells over plain values; references to references, Par bundles of references and `InverseAdapter` are not modelled. A borrower's register has nothing on its interface, so its old current value is the erasure that closes it.
- ValueRoundTrip: Par of value leaves; a Par sent into a Par of another shape is not modelled (src/natsune/first_order/adapters.py:32-41 compares widths only as far as the shorter).
- StagesExactly: the operand returned depends on the arrival order; which one it is, is stated for the two orders of `ArrivalPicks` only.
- Make: the list limit is that of 64-bit CPython; running out of memory before it is not modelled.
- SmearRoundsUp: hints above 2^64 are not rounded to a power of two by the six shifts; `Make` never builds such a deque.
- FirstCall: one thread and successful compiles; failed compiles, the compile lock, the signature pass and the adapter assertions are not modelled.
- CollectedExactly: of the collector's diagnostics those about names and the forms of targets; unsupported statements and expressions, annotations of anything but a name, the arity of tuple targets and the inference of adapters are taken as given.
- RuleSolves: safety only, so a rule that erased would keep it; that the rules deliver is in `ChainRuns`, `UnrollingRuns` and `DuplicationCompletes`.
- Python `eval`, `exec` and `ast.unparse`, the rewriting of dynamic expressions, annotation resolution, rendering, serialisation to strings, `Tracer`, `ExceptionSink` and karakuri are not part of this model.
