# Verified models of the optimizer core and the concurrency runtime

This project models, in Dafny, the parts of the compiler on which its correctness rests, and proves
what they promise.

* **The superoptimizer** (`crates/mss`): programs as node tables, copy-on-write candidates, the eight
  mutation families, the materializer, the interpreter and the tempering search. Main result: in every
  run of the search, whatever the random draws, the materialized winner evaluates to the seed's value
  wherever the seed evaluates to a value. A rewrite keeps the solutions of the node equations; the
  evidence carried along a run is a rank (no cycles, although slot order stops being topological) and a
  set of live slots closed under operands (the root reaches no tombstone).
* **The e-graph optimizer** (`crates/egraph`): min-root union-find, hash-consing, merge, rebuild, the
  local rules, lifting, saturation rounds, cost extraction and the application of its choices. Main
  results: every class is a class of equal values after any number of rounds, for every meaning of
  parameters, floats and opaque operations and with no assumption on the hash; extraction finds the
  cheapest derivation of every class within its round bound; the extracted program and the rewritten
  arena compute what the original computes.
* **The concurrency runtime** (`crates/anvil`): the work-stealing deque, the fork/join termination
  counter, epoch-based reclamation, the sharded map, the typed channel, the worker pool's lending
  barrier and its strided partition. Main results are about every interleaving of any number of threads:
  what no run can do, what an undisturbed operation achieves from every reachable state, and that from
  every reachable state the protocol can still be brought to its end.

Concurrent components are step systems: a state with a program counter and locals per thread, a `Next`
function with one case per atomic action, and `Exec` over an arbitrary sequence of actions. Theorems
speak of `Exec(Init(..), run)` for every `run`; where a promise is about what happened (a value was sent,
a body panicked, a job was pushed), it is read off the steps of the run, not off a field that a step
writes. All atomic actions are sequentially consistent. Objects whose methods update their fields
(`ProgramBuilder`, the union-find `Table`, `EGraph`, `LiftedGraph`, `Arena`, `Shard`, `ShardedMap`) are
classes; loops over arrays and columns are loops.

A meaning (`Rules.Meaning`) and a run (`xval`) appear as ghost parameters of the saturation methods: the
methods cannot depend on them, so each contract holds for all of them at once.

## Reading order

| file | content |
|---|---|
| `Options.dfy`, `MachineInt.dfy`, `Arith.dfy`, `Finite.dfy` | optional values, 64-bit wrapping, division facts, counting facts |
| `Son.dfy`, `Interp.dfy`, `Wrapping.dfy`, `Cand.dfy`, `Materialize.dfy`, `Mutate.dfy`, `Search.dfy` | superoptimizer |
| `EOps.dfy`, `UnionFind.dfy`, `Rules.dfy`, `EGraphs.dfy`, `Lift.dfy`, `Extract.dfy`, `Optimize.dfy`, `Apply.dfy` | e-graph optimizer |
| `ChaseLev.dfy`, `ForkJoin.dfy`, `Ebr.dfy`, `Probes.dfy`, `Sharded.dfy`, `ShardedReads.dfy`, `TypedChannel.dfy`, `Pool.dfy`, `Partition.dfy` | concurrency runtime |

## Where the code does not meet a stated property

* Preservation by the search has one direction. The interpreter also visits parameters nobody needs, so a
  seed can fail where its result succeeds (`Search.UnusedParamIsDropped`). Seed and result agree exactly on
  the bindings that cover every parameter the seed mentions (`Search.AgreeIffBound`), and the result gives
  nothing the seed does not give exactly when the seed is bound or the result is not (`Search.ConverseIff`).
* The integer rules look at the element type, which a tensor also has, and at class identity. `x - x` of a
  tensor becomes the scalar zero, and a tensor times the scalar zero becomes the scalar zero where the
  operation is refused (`Rules.TensorsAnnihilateWrongly`). On an integer node the rules are right in every
  meaning and state of knowledge if and only if the operand values fit (`Rules.FitExactly`): a difference of
  equal operands, a sum or difference with zero, a product with zero or one must have integer scalars (a
  refused operand may be passed on). The commutative gate is right if and only if the operands are not two
  different floats and neither is of a kind the model does not look into (`Rules.SwapExactly`). The saturation
  and application theorems assume that condition of each node's operand values in the run and nothing else
  beyond the declared arity; integer tensors are otherwise included.
* The comment on `pin` in `crates/anvil/src/ebr.rs:192-195` asks for sequentially consistent order on the
  slot store, while the store at line 200 is a release store. The model has the order the comment asks for.
* `occupy_slot` notes that no resize happens at the 75% load its header mentions. The model follows the
  code: a table doubles only when a full probe cycle finds no free slot.

## Model

| member | source | states |
|---|---|---|
| `Son.ProgramBuilder.Bin` | crates/mss/src/son.rs:279-288 | a node is appended exactly when both operands exist, and the table stays ordered |
| `Son.ProgramBuilder.Finish` | crates/mss/src/son.rs:314-323 | the finished program is well formed: operands precede users, the root exists |
| `Interp.EvaluateLoop` | crates/mss/src/interp.rs:53-160 | the slot loop with its alias walk and every error case computes `Evaluate` |
| `Interp.EvaluateIsMeaning` | crates/mss/src/interp.rs:53-160 | on built programs the answer is Ok(v) if and only if the wrapping node equations have a solution with value v at the root |
| `Interp.FollowExactly` | crates/mss/src/interp.rs:67-88 | the guarded alias walk finds the end of every chain that has one, so the guard stops cycles only |
| `Interp.EvaluateExactly` | crates/mss/src/interp.rs:53-160 | on every program, with aliases, tombstones, cycles and forward references, the answer is Ok(v) if and only if the slots have right values in slot order and the root leads to v |
| `Wrapping.BinIsModular` | crates/mss/src/interp.rs:130-138 | a binary operation gives its exact integer result reduced to 64 bits, and the exact result where it fits |
| `Wrapping.Inverses` | crates/mss/src/interp.rs:130-149 | negation and subtraction invert wrapping addition |
| `Wrapping.Associativity` | crates/mss/src/interp.rs:130-138 | wrapping sums and products are associative |
| `Wrapping.Distributivity` | crates/mss/src/interp.rs:130-138 | wrapping multiplication distributes over addition and has the unit one |
| `Wrapping.Bounds` | crates/mss/src/interp.rs:134-135 | minimum and maximum are one of the operands, on the right side of both |
| `Wrapping.EvaluatesModulo` | crates/mss/src/interp.rs:53-160 | a built program evaluates to its formula over the unbounded integers reduced to 64 bits, although intermediate results overflow, as long as what is compared fits |
| `Cand.ViewLoop` | crates/mss/src/cand.rs:136-174 | replaying all overlays in order, by slot, equals the recursive view |
| `Cand.ViewIsEffective` | crates/mss/src/cand.rs:136-174 | viewing a slot through the overlays is reading the table obtained by applying them one after the other |
| `Cand.ResolveLoop` | crates/mss/src/mutate.rs:121-136 | on every candidate the loop is the bounded alias walk through the overlays, and on a legal one it computes `Resolve` |
| `Cand.ResolveFacts` | crates/mss/src/mutate.rs:121-136 | in a sound graph the hop bound is never hit: resolution ends at a non-alias of no higher rank, live if it started live |
| `Cand.SeedSound` | crates/mss/src/cand.rs:104-111 | a built program is a sound candidate: acyclic, everything live |
| `Materialize.MarkReachable` | crates/mss/src/cand.rs:211-225 | the worklist marks exactly the least set that holds the resolved root and is closed under resolved operands |
| `Materialize.Materialize` | crates/mss/src/cand.rs:194-301 | within the pass bound every needed slot is emitted exactly once, operands before users, operands renamed to the resolved targets, and the root is the resolved root |
| `Materialize.EmitPass` | crates/mss/src/cand.rs:236-290 | a pass over the slots keeps the listing, emits at least one more slot unless all are emitted, and reports progress exactly if it placed or skipped a slot |
| `Materialize.EmittedMeaning` | crates/mss/src/cand.rs:194-301 | the emitted program is well formed and has the candidate's value in every solution of the candidate's equations |
| `Mutate.SiteRewriteFits` | crates/mss/src/mutate.rs:149-295 | each identity, self-subtraction, fold and commute rewrite is well shaped, keeps the rank and the live set, and computes what the slot computed under wrapping arithmetic |
| `Mutate.IdentityExactly` | crates/mss/src/mutate.rs:149-205 | a site is rewritten if and only if it is a sum or product with a constant that is neutral for the operation, and becomes an alias of the other operand |
| `Mutate.SubSelfExactly` | crates/mss/src/mutate.rs:206-223 | a difference becomes zero if and only if both operands resolve to one slot |
| `Mutate.FoldIsExact` | crates/mss/src/mutate.rs:224-256 | checked folding gives v if and only if v is the exact result and fits in 64 bits |
| `Mutate.ConstFoldExactly` | crates/mss/src/mutate.rs:224-256 | a site is folded to v if and only if both operands are constants whose exact result is v |
| `Mutate.CommuteExactly` | crates/mss/src/mutate.rs:257-295 | operands are exchanged if and only if the operation is symmetric and the operands are out of order by kind, immediate and slot |
| `Mutate.ReassocExactly` | crates/mss/src/mutate.rs:296-338 | a site is reassociated to x and c if and only if it is a sum of a sum with constants adding up to c within 64 bits |
| `Mutate.ReassocKeeps` | crates/mss/src/mutate.rs:296-338 | reassociation through a constant appended behind its user keeps the graph acyclic and refines it |
| `Mutate.TwinsIndependent` | crates/mss/src/mutate.rs:339-377 | neither of two structural twins reaches the other, so an alias cannot close a cycle |
| `Mutate.CseKeeps` | crates/mss/src/mutate.rs:339-377 | aliasing the later twin to the earlier one, reachable or not, keeps a rank and a live set and every value |
| `Mutate.FindTwins` | crates/mss/src/mutate.rs:339-377 | finds the twins of least key, by kind, opcode, immediate and operands, and of these the first two slots; finds none only if no twins exist |
| `Mutate.DceKeeps` | crates/mss/src/mutate.rs:378-416 | a tombstone outside what the root needs leaves the root's graph live and its values unchanged |
| `Mutate.MutationKeeps` | crates/mss/src/mutate.rs:147-418 | every family, at every site, turns a sound candidate into a sound candidate that refines it |
| `Mutate.ApplyFamily` | crates/mss/src/mutate.rs:147-418 | the dispatcher performs one such mutation, or none when no site applies |
| `Search.Tier0Scan` | crates/mss/src/search.rs:135-165 | the loop is the filter, slot by slot |
| `Search.Tier0Exactly` | crates/mss/src/search.rs:135-165 | the filter passes exactly the candidates whose live records have the arity of their kind and operands in range and whose root is live |
| `Search.SoundIsLegal` | crates/mss/src/search.rs:135-165 | every sound candidate passes the filter, so it never rejects a mutation |
| `Search.BetterIsTotalOrder` | crates/mss/src/search.rs:253-264 | lower total, then lower depth, then lower hash is a strict total order |
| `Search.Judge` | crates/mss/src/search.rs:205-237 | a child seen before is pruned, one that costs no more is accepted, a dearer one exactly on an uphill draw; the structural filter drops none |
| `Search.RunBand` | crates/mss/src/search.rs:190-248 | for all draws the band is a chain of such steps from the seed, the elite refines the seed and has the least total, then depth, then hash of everything on the chain, and the counters count the verdicts |
| `Search.Search` | crates/mss/src/search.rs:282-339 | for all draws the materialized winner evaluates to the seed's value wherever the seed has one; it is the materialization of the elite of one band that has the least total, then depth, then hash among all elites, and is no worse than the seed |
| `Search.EvaluatesIffBound` | crates/mss/src/interp.rs:53-160 | a built program evaluates if and only if every parameter it mentions is bound |
| `Search.FirstUnboundIsReported` | crates/mss/src/interp.rs:112-118 | otherwise the error names the first unbound parameter in slot order |
| `Search.AgreeIffBound` | crates/mss/src/search.rs:282-339 | seed and preserving result give one value exactly on the bindings that cover the seed's parameters |
| `Search.ConverseIff` | crates/mss/src/search.rs:282-339 | every value of the result is the seed's on a binding if and only if the seed is bound or the result is not |
| `Search.UnusedParamIsDropped` | crates/mss/src/cand.rs:194-301 | a concrete seed fails where its materialization succeeds |
| `UnionFind.Table.FindRo` | crates/egraph/src/union_find.rs:96-105 | the root of an id in range, without changing the table |
| `UnionFind.Table.Find` | crates/egraph/src/union_find.rs:67-88 | the root; afterwards exactly the ids on the walked path point at it, and no id's root has changed |
| `UnionFind.Table.Union` | crates/egraph/src/union_find.rs:120-130 | exactly the higher class is redirected to the lower root, and the table represents the equivalence with the pair added |
| `UnionFind.RootIsLeast` | crates/egraph/src/union_find.rs:67-130 | find is the least id linked to x by any chain of the unions made |
| `UnionFind.SharedIffLinked` | crates/egraph/src/union_find.rs:67-130 | two ids share a root if and only if a chain of unions links them |
| `UnionFind.OrderDoesNotMatter` | crates/egraph/src/union_find.rs:120-130 | representatives do not depend on the order or the orientation of the unions |
| `Rules.LocalRulesSound` | crates/egraph/src/rules.rs:93-236 | every rule that fires claims the node's value, for every meaning, given true constants and admissible operands |
| `Rules.FitExactly` | crates/egraph/src/rules.rs:93-182 | on an integer node the rules are right for every meaning and everything that can be known of the operands if and only if the operand values fit, whatever their kinds |
| `Rules.UnfitIsWrong` | crates/egraph/src/rules.rs:93-182 | every operand pair that does not fit has a meaning and known constants under which the fired rule is wrong |
| `Rules.TensorsAnnihilateWrongly` | crates/egraph/src/rules.rs:160-182 | at concrete tensors the difference and the product with zero fire and are wrong |
| `Rules.ExactLaws` | crates/egraph/src/rules.rs:198-216 | the folded integer result obeys the law of its operation: remainder smaller than the divisor and of the dividend's sign, maximum and minimum on the right side of both operands |
| `Rules.RulesFire` | crates/egraph/src/rules.rs:93-236 | integer constants fold exactly when an exact in-range result exists, two floats fold unless the divisor is zero, and on a node that is not integer nothing but a fold of constants fires |
| `Rules.RightIdentitiesComplete` | crates/egraph/src/rules.rs:133-182 | with a known right operand a sum, difference or product is rewritten if and only if the operand is neutral or absorbing |
| `Rules.LeftIdentitiesComplete` | crates/egraph/src/rules.rs:133-182 | with a known left operand a sum is rewritten if and only if it is neutral, a product if and only if it is absorbing |
| `Rules.UnknownOperands` | crates/egraph/src/rules.rs:164-182 | with no known operand only the difference of a class with itself is rewritten, to zero |
| `Rules.GateExactly` | crates/egraph/src/rules.rs:290-302 | the commutativity gate passes exactly the operations that are symmetric on integers, on integer elements |
| `Rules.SwapSound` | crates/egraph/src/rules.rs:290-302 | admissible operands of an operation that passes the commutativity gate can be swapped, integer tensors included |
| `Rules.SwapExactly` | crates/egraph/src/rules.rs:290-302 | operand values give a gated operation the same result in both orders in every meaning if and only if they are swappable |
| `EGraphs.EGraph.Lookup` | crates/egraph/src/egraph.rs:161-184 | finds the class of the node filed under the key if and only if that node is the one asked for, so a collision finds nothing |
| `EGraphs.EGraph.Add` | crates/egraph/src/egraph.rs:145-205 | Full and TooManyChildren exactly when they apply; a filed node gives its class and appends nothing, any other gets a new class; afterwards the node is filed, so adding it again gives the same class |
| `EGraphs.EGraph.Merge` | crates/egraph/src/egraph.rs:215-232 | errors exactly for ids out of range; otherwise the lower root takes over and the member lists stay an ascending partition by root |
| `EGraphs.EGraph.CanonizeAll` | crates/egraph/src/egraph.rs:257-264 | every child becomes canonical and every node keeps its value |
| `EGraphs.EGraph.Rebuild` | crates/egraph/src/egraph.rs:255-312 | values and class soundness are kept, classes only join, every node is filed and shares the class of the equal node filed under its key, and the count is the number of classes that went |
| `EGraphs.FiledMergesCongruent` | crates/egraph/src/egraph.rs:266-309 | without collisions among stored nodes, equal nodes end in one class |
| `EGraphs.MovedPartition` | crates/egraph/src/egraph.rs:221-231 | moving the loser's members keeps the lists a partition of node ids by root |
| `EGraphs.DenotesIsOnly` | crates/egraph/src/egraph.rs:60-69 | the node table has exactly one valuation in each meaning |
| `Lift.PureOps` | crates/xir-core/src/op.rs:308-328 | the operations that depend on nothing but their operands |
| `Lift.Liftable` | crates/egraph/src/lift.rs:117-144 | exactly the pure nodes whose inputs are all pure, in slot order |
| `Lift.LiftedGraph.LiftNode` | crates/egraph/src/lift.rs:153-211 | a lifted node's class has the node's value; its record has the node's operation, element type and the classes of its inputs, and a constant is known to its class |
| `Lift.LiftedGraph.LiftAll` | crates/egraph/src/lift.rs:108-225 | lifting keeps class values, constants and alignment; the pass bound never cuts it short, so every pure node with pure inputs is lifted unless it has more than four inputs or an input that is not lifted; exactly the lifted nodes have records |
| `Lift.LiftedGraph.PropagateConst` | crates/egraph/src/lift.rs:253-262 | the winner learns the loser's constant only if it has none, and constants stay true |
| `Lift.LiftedGraph.FireRules` | crates/egraph/src/lift.rs:312-344 | the rewrites are exactly the rules on the snapshot of canonical children and constants, and each claims its node's value |
| `Lift.LiftedGraph.ApplyRewrite` | crates/egraph/src/lift.rs:346-380 | folding or passing through keeps all values, constants and the one-entry-per-e-node alignment, and from then on the rule's equation holds between classes |
| `Lift.LiftedGraph.Commute` | crates/egraph/src/lift.rs:388-420 | adding and merging the swapped form keeps them too, and the record's class then has the swapped form |
| `Lift.LiftedGraph.Round` | crates/egraph/src/lift.rs:309-437 | one round: every rule that fires on its snapshot has landed, a folded class knows its constant at its canonical id, and the counts are zero if and only if no rule fired and no classes joined |
| `Lift.LiftedGraph.RunRounds` | crates/egraph/src/lift.rs:307-439 | on every error and on success classes are sound, constants true, tables aligned, old nodes keep their values and classes only join; on success the rules of every round have landed, each round knows what the one before folded, the rounds end with the first quiet one or the bound, and every commutative record's class has its swapped form |
| `Lift.Saturate` | crates/egraph/src/saturate.rs:73-80 | the same from lifting on, for everything that can be lifted, with the values being what the nodes denote |
| `Lift.ClassesMeanOneValue` | crates/egraph/src/lift.rs:79-94 | members of one class denote one value, its known constant is that value, and so is the value of every program node lifted into it |
| `Extract.BaseCost` | crates/egraph/src/extract.rs:49-68 | the cost table lies between 1 and 64, so every choice costs something |
| `Extract.CostOrder` | crates/egraph/src/extract.rs:25-68 | constants and parameters cost least, elementwise work less than reductions, these less than dot products, matrix products, convolutions and custom operations, and a layout change at least twice anything else |
| `Extract.PickIsLeast` | crates/egraph/src/extract.rs:136-157 | a class's choice is its member of least cost, then least id, or nothing if none is below the limit |
| `Extract.RoundProgress` | crates/egraph/src/extract.rs:107-161 | each round settles at least one more node at its least derivation cost, until all are settled |
| `Extract.Extract` | crates/egraph/src/extract.rs:96-174 | within nodes plus one rounds every class with a derivation below u32::MAX has its cheapest one, and every other class none |
| `Extract.ChoicesDescend` | crates/egraph/src/extract.rs:96-174 | a choice costs strictly more than the choices of its children, so following choices terminates |
| `Extract.RebuildIsCheapest` | crates/egraph/src/extract.rs:96-174 | the program the choices describe is a derivation of exactly the chosen cost |
| `Optimize.DerivedValue` | crates/egraph/src/extract.rs:96-174 | every program derivable from a sound graph has the value of its root e-node |
| `Optimize.ExtractionKeepsMeaning` | crates/egraph/src/extract.rs:96-174 | the extracted program of a class has the class's value and none derivable is cheaper |
| `Optimize.ExtractedProgramIsCorrect` | crates/egraph/src/apply.rs:110-124 | after lifting and rounds, the program extracted for a lifted node computes that node's value |
| `Apply.Arena.FoldInPlace` | crates/egraph/src/apply.rs:252-277 | folds exactly a binary node of the constant's scalar type |
| `Apply.Arena.RewriteUses` | crates/egraph/src/apply.rs:211-240 | redirects all uses exactly if y is a pure direct input of the same type |
| `Apply.RedirectKeeps` | crates/egraph/src/apply.rs:288-303 | redirecting uses to a direct input of equal value keeps the run and the acyclicity |
| `Apply.FoldKeeps` | crates/egraph/src/apply.rs:252-277 | folding a node to the constant it computes keeps the run and the acyclicity |
| `Apply.RunIsUnique` | crates/egraph/src/apply.rs:110-198 | an acyclic program has one run, so a kept run is the only one |
| `Apply.ApplyAll` | crates/egraph/src/apply.rs:110-185 | after saturation and extraction every record is treated once, in slot order, as the cheapest choice of its class says; every node has the value it had and only binary nodes became constants; on an error nothing changes |
| `Apply.SortByNode` | crates/egraph/src/apply.rs:128-131 | every record once, by slot, records of one slot in the order they were made |
| `Apply.ApplyChoices` | crates/egraph/src/apply.rs:133-185 | the arena is exactly the records' rewrites applied one after the other, as the choices for their classes say |
| `ChaseLev.ExactlyOnce` | crates/anvil/src/chase_lev.rs:136-315 | in every interleaving each accepted element is in exactly one place: queued, in one thread's hands, or returned |
| `ChaseLev.SlotsExclusive` | crates/anvil/src/chase_lev.rs:136-315 | no two parties ever touch one physical slot, and none touches a slot that backs a queued element |
| `ChaseLev.WonSlotIsFull` | crates/anvil/src/chase_lev.rs:281-312 | after a won compare-exchange the slot is FULL, so the defensive return is unreachable |
| `ChaseLev.NoSlotStranded` | crates/anvil/src/chase_lev.rs:136-315 | every FULL slot backs a queued element or is in the hands of one party that will free it |
| `ChaseLev.CapacityBound` | crates/anvil/src/chase_lev.rs:136-170 | in every interleaving at most capacity - 1 indices are open |
| `ChaseLev.PushExactly` | crates/anvil/src/chase_lev.rs:136-170 | from every reachable quiet state the push's own five steps accept the element at the bottom if fewer than capacity - 1 are queued, and change nothing otherwise |
| `ChaseLev.PopExactly` | crates/anvil/src/chase_lev.rs:184-243 | and the pop's own steps return the newest element, or change nothing if there is none |
| `ChaseLev.StealExactly` | crates/anvil/src/chase_lev.rs:260-315 | and the steal's own six steps the oldest, or change nothing if there is none |
| `ChaseLev.OldestOrNewest` | crates/anvil/src/chase_lev.rs:184-312 | winners of top take the oldest element, winners of bottom the newest |
| `ChaseLev.QuiescentDrain` | crates/anvil/src/chase_lev.rs:364-381 | at quiescence the drain of the live range finds exactly the elements not returned |
| `ForkJoin.PendingIsExact` | crates/anvil/src/executor.rs:138-151 | in every interleaving the counter is queued plus held plus running jobs plus open reservations |
| `ForkJoin.AtMostOnce` | crates/anvil/src/executor.rs:365-433 | no job is started or finished twice, or without having been accepted |
| `ForkJoin.ExitMeansAllRan` | crates/anvil/src/executor.rs:365-433 | when any worker has left its loop, every accepted job has run to its end exactly once |
| `ForkJoin.NothingAfterExit` | crates/anvil/src/executor.rs:365-433 | and no continuation accepts, starts or finishes another |
| `ForkJoin.HistoryIsTrue` | crates/anvil/src/executor.rs:138-151 | the jobs counted as accepted, started and panicked are those whose push, start and panic occur in the run |
| `ForkJoin.StartsOnce` | crates/anvil/src/executor.rs:365-433 | a job is started at most once in a run, and only the root or a job pushed before |
| `ForkJoin.ExitMeansBodiesRan` | crates/anvil/src/executor.rs:365-433 | when a worker has left, the root and every job pushed in the run has been started and has run its body to the end |
| `ForkJoin.QueueOrder` | crates/anvil/src/executor.rs:376-411 | a pushed child is the newest of its worker's deque; a worker pops its newest and steals the oldest |
| `ForkJoin.EveryRegionCanEnd` | crates/anvil/src/executor.rs:365-433 | from every reachable state some continuation ends the region: every credit can be returned and every worker leaves |
| `ForkJoin.RegionReportsPanics` | crates/anvil/src/executor.rs:303-329 | once every worker has left, the region returns the panic error if and only if some job left its body by a panic in the run, and every accepted job has ended once |
| `Ebr.GuardedObjectsSurvive` | crates/anvil/src/ebr.rs:188-335 | no interleaving destroys an object that a pinned reader acquired while it was linked until that reader unpins, however stale the pinned epoch |
| `Ebr.AtMostOneAdvance` | crates/anvil/src/ebr.rs:188-205 | after a slot store of the run the global epoch advances at most once until the unpin |
| `Ebr.PinAnnounces` | crates/anvil/src/ebr.rs:188-205 | an undisturbed pin announces the current epoch and unpinning withdraws it |
| `Ebr.RetireStacks` | crates/anvil/src/ebr.rs:241-284 | an undisturbed retirement leaves the object's record, stamped with the current epoch, on top of the garbage stack |
| `Ebr.ObjectsConserved` | crates/anvil/src/ebr.rs:241-352 | every object is in exactly one place: linked, in hand, on the stack, on one collector's list, or destroyed |
| `Ebr.CollectionFrees` | crates/anvil/src/ebr.rs:286-352 | a collection whose writer alone moves, with no older pin, ends with the epoch advanced, exactly the records two epochs behind destroyed and the others kept |
| `Ebr.TwoCollectionsFreeAll` | crates/anvil/src/ebr.rs:286-352 | from every reachable state with nobody pinned two such collections empty the garbage stack |
| `Sharded.Shard.Get` | crates/anvil/src/sharded.rs:304-367 | the probe loop returns exactly what the map holds for the key |
| `Sharded.Absent` | crates/anvil/src/sharded.rs:304-367 | a probe that meets an empty slot or goes all the way round proves the key absent |
| `Sharded.Shard.Probe` | crates/anvil/src/sharded.rs:417-470 | the insertion walk finds the key, else the first reusable slot, else proves every slot full; it never finds corruption |
| `Sharded.Shard.OccupySlot` | crates/anvil/src/sharded.rs:490-541 | claiming the first reusable slot adds the entry and counts it |
| `Sharded.Shard.ResizeLocked` | crates/anvil/src/sharded.rs:552-617 | doubling loses and changes no entry |
| `Sharded.Shard.InsertLocked` | crates/anvil/src/sharded.rs:402-478 | the map gains or overwrites the entry; the retry after a resize terminates because a doubled table has room |
| `Sharded.Shard.RemoveLocked` | crates/anvil/src/sharded.rs:628-686 | a tombstone removes exactly the key and hides no other entry |
| `Sharded.EntryCount` | crates/anvil/src/sharded.rs:132-139 | the number of full slots is the number of entries |
| `Sharded.PowerOfTwoExactly` | crates/anvil/src/sharded.rs:262-278 | the capacity test accepts exactly the powers of two |
| `Sharded.Create` | crates/anvil/src/sharded.rs:262-278 | refuses exactly capacities that are not a power of two of at least eight; otherwise the map is new, empty and unlocked |
| `Sharded.ShardedMap.Get` | crates/anvil/src/sharded.rs:304-367 | over all shards, get agrees with one plain map |
| `Sharded.ShardedMap.Insert` | crates/anvil/src/sharded.rs:380-393 | Busy exactly while the shard is locked, otherwise the map gains the entry and the lock is released; len stays its size |
| `Sharded.ShardedMap.Remove` | crates/anvil/src/sharded.rs:628-686 | Busy exactly while the shard is locked, otherwise the map loses the key and the lock is released; len stays its size |
| `Sharded.ServeAll` | crates/anvil/src/sharded.rs:262-686 | every sequence of gets, inserts and removes on a new map is answered as a plain map answers it, and len is that map's size |
| `ShardedReads.ContentsAreInserts` | crates/anvil/src/sharded.rs:380-541 | in every interleaving the map holds exactly the inserts of the run, later ones winning, but for the one under way |
| `ShardedReads.ReadsAreCurrent` | crates/anvil/src/sharded.rs:304-367 | in every interleaving of lock-free reads with inserts, overwrites and resizes, a read of a key that returns a value returns what the map holds for the key at that moment |
| `ShardedReads.MissesNeedAResize` | crates/anvil/src/sharded.rs:304-367 | a read misses a key that was there when it began only if a resize of the table it reads moved the value out meanwhile |
| `ShardedReads.PresentIsMatched` | crates/anvil/src/sharded.rs:304-367 | such a read never ends before it has matched its key |
| `ShardedReads.ReadAlone` | crates/anvil/src/sharded.rs:304-367 | with the writer idle a read's own steps return the value the map holds for the key, or end without one |
| `ShardedReads.InsertAlone` | crates/anvil/src/sharded.rs:402-541 | unless every slot is taken by other keys, an insert's own steps put the entry into the map |
| `ShardedReads.MoveAlone` | crates/anvil/src/sharded.rs:552-617 | a resize's own steps move everything out: what is carried over in the end is the whole map |
| `ShardedReads.PublishResumes` | crates/anvil/src/sharded.rs:402-478 | a doubled table that holds it takes the insertion up again |
| `TypedChannel.EffectiveThreshold` | crates/anvil/src/typed.rs:78-87 | at least one, and otherwise the largest number of at most 32 that is at most half the capacity |
| `TypedChannel.Fifo` | crates/anvil/src/typed.rs:454-482 | in every interleaving of sends, receives, batches and late publications, what was received is a prefix of the values sent in the run |
| `TypedChannel.EverythingCanArrive` | crates/anvil/src/typed.rs:454-627 | from every reachable state some continuation without another send delivers everything sent, in order |
| `TypedChannel.BatchTakes` | crates/anvil/src/typed.rs:676-712 | an undisturbed batch takes as many published elements as there is room for, in order, and frees their slots at once |
| `TypedChannel.IndicesOrdered` | crates/anvil/src/typed.rs:602-627 | head <= next_read <= tail <= next_write <= head + capacity |
| `TypedChannel.NoOverwrite` | crates/anvil/src/typed.rs:454-482 | the slot about to be written is none that still has to be read |
| `TypedChannel.Progress` | crates/anvil/src/typed.rs:392-411 | with the effective threshold no reachable state has the producer seeing Full and the consumer Empty |
| `TypedChannel.ProgressExactly` | crates/anvil/src/typed.rs:78-87 | that holds for a threshold if and only if twice it is at most the capacity plus one, so for an even capacity half of it is the largest safe threshold; a larger one has a run, constructed here, in which both sides wait |
| `TypedChannel.WrappedCounters` | crates/anvil/src/typed.rs:291-305 | on counters that wrap at a multiple of the capacity all tests and slots agree with unbounded indices |
| `TypedChannel.WrappedRun` | crates/anvil/src/typed.rs:454-482 | every run of the channel on wrapping counters is the run on unbounded ones seen through the width, so it sends and receives the same elements |
| `Pool.FrameOutlivesHelpers` | crates/anvil/src/pool.rs:390-422 | a helper inside a region, or leaving it, works on a frame whose caller is still waiting for that generation |
| `Pool.OneRegionAtATime` | crates/anvil/src/pool.rs:358-380 | at most one caller has a region open, and between regions the region slot is clean |
| `Pool.EveryGenerationOnce` | crates/anvil/src/pool.rs:558-627 | every helper runs the generations in order, each once, and all of them between regions |
| `Pool.PanicsReachTheirCaller` | crates/anvil/src/pool.rs:390-422 | every reaped generation is reported once, to the caller that published it in the run, after every helper has run its body to the end, and as a panic if and only if some helper left the body of that generation by a panic |
| `Pool.EveryCallerIsServed` | crates/anvil/src/pool.rs:358-422 | from every reachable state some continuation publishes a region of any given caller and reports it back |
| `Partition.RunChunk` | crates/anvil/src/pool.rs:672-696 | one chunk is computed up to its first panicking element and nothing else is written |
| `Partition.Trampoline` | crates/anvil/src/pool.rs:649-698 | a worker writes exactly its own chunks and reports whether one of its elements panicked |
| `Partition.OneChunkEach` | crates/anvil/src/pool.rs:450-451 | the chunk size gives every worker at most one chunk and every chunk a worker |
| `Partition.RegionIsExact` | crates/anvil/src/pool.rs:436-479 | however the workers' elements interleave, a finished region has f of its input in each reached output, every other output untouched, and reports a panic exactly if some element panics |
| `Partition.RegionCanFinish` | crates/anvil/src/pool.rs:649-698 | however far the workers have come, they can all finish |

## Left out

- Weak memory orderings, fences, padding, spin hints and allocation: atomic steps are sequentially consistent.
- Random numbers, the transposition table, the uphill draw, the canonical hash and the cost function of the search: arbitrary inputs and functions; `crates/mss/src/cost.rs` is not modelled.
- Programs beyond 2^32 - 2 slots: `Search.Search` and `Search.RunBand` assume that seed plus iterations stay below the reserved u32 markers, which the code takes for granted.
- Parallel arrays of an arena are one sequence of records; the worker threads of a band are sequential calls.
- Son.ProgramBuilder.Finish: promises well-formedness up to the u32 slot limit only, because larger tables cannot be indexed.
- Index and epoch width in the deque and in reclamation: `isize` and `usize` counters do not wrap in those models.
- Ebr.ObjectsConserved: node addresses and next pointers are a sequence, so reuse of a freed address (ABA on the stack head) is not captured.
- ForkJoin: deque operations are single steps, as the deque's own theorems allow, and a push may be refused at any time.
- Lock-free `get` against a concurrent remove: a reader paused between its key load and its value load can see the slot taken over by another key. Reads are proved against inserts and resizes (`ShardedReads`), everything else on quiescent shards.
- ShardedReads: the doubled table a resize publishes is any table that holds what was moved; that the code builds one is `Sharded.Shard.TakeAll`.
- Value pointers, null and retirement of boxes in the sharded map: entries are values.
- Pool shutdown and its liveness; the two wake-up hints, which only shorten spinning; nested regions.
- Blocking sends and receives of the typed channel and its capacity rounding.
- Congruence closure and idempotence of rebuild: children are canonicalized once before merging, so new congruences can remain.
- EGraphs.EGraph.Add: child ids that are not allocated yet are excluded; the source stores them and assumes canonical classes.
- EGraphs.EGraph.Merge: ids between the allocated classes and the table size are excluded; the source assumes live classes.
- Float arithmetic is an arbitrary function on bit patterns, tensors hold integers only, I32 arithmetic wraps at 32 bits, and an operation no rule looks into is an arbitrary function of its operands.
- Effect edges, regions and node liveness of the arena, and the closing dead-code sweep; a node's inputs are all present.
- The total of extraction costs, a plain sum, and the telemetry counters.
- Fusion search, code generation, the text format, the tiers and the runtime interpreter.
