# Control-flow graph and dominators of SPIRV-Cross

A model, in Dafny, of the control-flow analysis in `spirv_cfg.cpp` and `spirv_cfg.hpp`: class `CFG`, which numbers the
blocks of a SPIR-V function, records their forward edges and builds the immediate-dominator tree, and class
`DominatorBuilder`, which picks the block that a variable has to be declared in. "Dominate", "back edge", "merge block"
and "header" are meant as in sections 2.2.5 and 2.11 of the SPIR-V Specification.

## Overview

The classes `CFG`, `DominatorBuilder` and `SeenBlocks` (in `cfg.dfy`) have the fields of the C++ classes and change
them step by step as the C++ code does: an explicit stack, batches of children that are reversed, flags in `visitOrder`,
appended edge lists, and loops that reassign their variables. Their methods are proved against functions on values, and
the results are lemmas about those functions.

| file | content |
|---|---|
| `blocks.dfy`, `paths.dfy` | basic blocks and functions; paths, reachability and dominance in any graph |
| `traversal.dfy` | the traversal as plain recursion (`Dfs`): mark, search the children in order, resolve |
| `traversal_invariant.dfy`, `traversal_results.dfy` | what every step keeps, and what holds at the end |
| `stack_refinement.dfy`, `visit_tables.dfy` | why the explicit stack computes the same as the recursion |
| `edge_order.dfy` | the order of the edge lists, and when a selection header gets an extra real edge |
| `merge_first.dfy` | the effect of visiting children in order, merge blocks first |
| `dominator_tree.dfy` | dominator trees, the two-finger walk, and the single reverse post-order pass |
| `reducible.dfy`, `irreducible_example.dfy` | when dropping back edges is sound, and an input on which it is not |
| `common_dominator.dfy` | `DominatorBuilder`: nearest common dominator, hoisting, lifting |
| `loop_query.dfy`, `subgraph_query.dfy`, `walk.dfy` | the queries on the finished graph |
| `cfg.dfy` | the classes |

Three graphs occur throughout. `Flow(f)` has all terminator targets and merge targets of the blocks of `f`.
`Execution(f)` has the terminator targets alone. `Recorded(Final(f))` has what the traversal records: the real edges,
`Real(Final(f))`, and the virtual dominance edges. `Dom(f, x, b)` says that `x` lies on every recorded path from the
entry to `b`. `Below(po, v, u)` says that both blocks are numbered, and `v` lower than `u`.

`Func.WellFormed` is all that is asked of a function: the entry and every child of a block is a block, block 0 and the
`NoDominator` sentinel are not, and each block knows its own id.

Asserts of the C++ code are preconditions or assertions here, so that each is proved at every place that reaches it:
non-zero ids in `AddBranch` and `AddVirtualDominanceBranch`, a marked block in `PostOrderVisitResolve`, an existing
positive number in `GetVisitOrder`, an existing dominator in `AttachEdge`. That all methods terminate is part of
their proofs; `PostOrderVisitEntry` uses the measure "blocks not visited, then stack size".

## Main results

* `CFG.PostOrderVisitEntry`: the traversal with batches, reversal, pruning, pending duplicates and early returns leaves
  exactly the post order, numbers and edge lists (in list order) of the recursive search.
* `Coverage` and `EdgeClassification`: exactly the reachable blocks are numbered; a flow edge is recorded if and only if
  it leads to a lower number.
* `ExtraRealEdge`, `LoopMergeFirst`, `TargetsInTerminatorOrder`, `SelectionMergeLast`, `PredecessorsAscend`: which real edges exist
  and in what order each list holds them, in terms of blocks and numbers alone.
* `OnePassSuffices`: one pass gives a tree whose ancestor sets are exactly the dominators over recorded edges;
  `DominatorTreeUnique` says that there is no other such tree.
* `DroppingBackEdges`: ignoring back edges preserves dominance if and only if no back edge bypasses a strict dominator of
  its target. Reducible flow meets the condition (`ReducibleIsHarmless`); `DroppingBackEdgesCanMislead` is a function
  that does not, on which the recorded edges name a dominator that an execution path avoids.
* `ChoiceOnEveryExecution`, `NeverInsideConstruct`, `LiftKeepsDominating`: the guarantees of `DominatorBuilder`.
* `EarlierChildFirst`, `MergeVisitedFirst`: earlier children are numbered first; what follows a loop is numbered below what
  is inside it.
* `FindsInnermostLoop`, `CFG.WalkFrom`: the queries for loops and forward walks.
* `TerminatesIsSound` together with `SideOfHeader`, `SideOfInnerBlock`, `MergeOrDirectTarget`, `OtherRelation` and
  `NoPredecessors`: a yes of the sub-graph query can be relied on, and when it says yes. By `PredsHaveNearest` these cases
  are all there are.

## Model

| member | source | states |
|---|---|---|
| `ControlFlow.CFG.PostOrderVisitEntry` | spirv_cfg.cpp:99-126 | the explicit-stack traversal ends, with an empty stack, in the very state (visited blocks, post order, three edge maps in list order) of the recursive depth-first search, and every `visit_order` key belongs to a visited block |
| `ControlFlow.CFG.Descend` | spirv_cfg.cpp:110-115 | one round of the inner loop marks the top block and pushes its unvisited children, first occurrence only, with the first child on top; it asks for another round exactly if something was pushed |
| `ControlFlow.CFG.Unwind` | spirv_cfg.cpp:118-124 | resolving and popping stops at a block not yet visited, visits nothing new, and leaves the outcome of draining the stack unchanged |
| `ControlFlow.CFG.PostOrderVisitBranches` | spirv_cfg.cpp:138-177 | a marked block is left alone; any other is marked and the stack grows by the pruned merge target and branch targets, in that order |
| `ControlFlow.CFG.VisitTargets` | spirv_cfg.cpp:152-176 | after the switch, the batch covers all children of the block, for every kind of terminator |
| `ControlFlow.CFG.VisitCases` | spirv_cfg.cpp:166-168 | the case targets join the batch in order |
| `ControlFlow.CFG.VisitBranch` | spirv_cfg.cpp:128-136 | a child joins the batch unless it is in the batch or visited; older stack entries do not count |
| `ControlFlow.CFG.PostOrderVisitResolve` | spirv_cfg.cpp:179-294 | resolving is the recursive algorithm's resolve step: nothing for a resolved block; else merge edge, forward edges in target order, fixup, then the next number and one more entry in the post order; numbers and post order stay in agreement (for the resulting lists see `EdgeOrder.LoopMergeFirst` and the rows after it) |
| `ControlFlow.CFG.NumberBlock` | spirv_cfg.cpp:291-293 | the block gets the next number and the next place in the post order, and nothing else changes |
| `ControlFlow.CFG.LinkMerge` | spirv_cfg.cpp:199-207 | a loop header gets a real edge and a selection header a virtual edge to its merge block, unless that is on the DFS stack |
| `ControlFlow.CFG.LinkTargets` | spirv_cfg.cpp:209-238 | all targets of the terminator that are not on the DFS stack get a real edge, in order |
| `ControlFlow.CFG.LinkCases` | spirv_cfg.cpp:227-231 | the same for the case list |
| `ControlFlow.CFG.LinkSelectionMerge` | spirv_cfg.cpp:240-289 | the extra real edge from a selection header to its merge block is added in exactly the three cases of the code (`EdgeOrder.ExtraRealEdge` says which these are on the finished graph) |
| `ControlFlow.CFG.AddBranch` | spirv_cfg.cpp:312-317 | both lists of a real edge are extended, and nothing else changes |
| `ControlFlow.CFG.AddVirtualDominanceBranch` | spirv_cfg.cpp:319-323 | one virtual list is extended, and nothing else changes |
| `ControlFlow.CFG.IsBackEdge` | spirv_cfg.cpp:85-91 | true exactly for the blocks on the DFS stack: visited, but not in the post order |
| `ControlFlow.CFG.BuildPostOrderVisitOrder` | spirv_cfg.cpp:296-303 | the whole traversal from the entry equals the recursive search, and the keys of `visit_order` are the visited blocks |
| `ControlFlow.CFG.constructor` | spirv_cfg.cpp:33-39 | the finished graph: every field is determined by the function; the dominator field is the exact tree, and the edge maps hold the recorded lists plus the empty lists that lookups insert |
| `ControlFlow.CFG.FindCommonDominator` | spirv_cfg.cpp:41-51 | the two-finger loop returns the nearest common ancestor, on any tree whose numbers rise, so also in the middle of the build |
| `ControlFlow.CFG.AttachEdge` | spirv_cfg.cpp:68-77 | the effect of one predecessor on the tree: the first becomes the parent, each later one replaces the parent by the common ancestor |
| `ControlFlow.CFG.ResolvePreds` | spirv_cfg.cpp:63-78 | the effect of a whole predecessor list, which may be empty |
| `ControlFlow.CFG.BuildBlock` | spirv_cfg.cpp:61-81 | one position of the pass: real, then virtual predecessors, and the empty lists that the lookups insert |
| `ControlFlow.CFG.BuildImmediateDominators` | spirv_cfg.cpp:53-83 | the loop performs the pass over the whole reversed post order |
| `ControlFlow.CFG.IsReachable` | spirv_cfg.hpp:62-65 | true exactly for the blocks that flow edges reach from the entry |
| `ControlFlow.CFG.VisitOrderOf` | spirv_cfg.hpp:67-74 | for every reachable block the lookup succeeds, and its answer is the place of the block in the post order, counted from one; for the entry it is the number of reachable blocks |
| `ControlFlow.CFG.ImmediateDominatorOf` | spirv_cfg.hpp:53-60 | the lookup answers 0 exactly for unreachable blocks, the entry for the entry, and the closest strict dominator otherwise |
| `ControlFlow.CFG.GetPrecedingEdges` | spirv_cfg.hpp:78-85 | the recorded real predecessors, whatever empty lists were inserted later |
| `ControlFlow.CFG.GetSucceedingEdges` | spirv_cfg.hpp:87-94 | the recorded real successors |
| `ControlFlow.CFG.FindLoopDominator` | spirv_cfg.cpp:325-373 | the loop computes the upward walk that `LoopQuery.FindsInnermostLoop` is about, for every block id, the sentinel included |
| `ControlFlow.CFG.PickPredecessor` | spirv_cfg.cpp:335-360 | the first predecessor that declares the block its merge block, else the front one; the flag says whether the chosen block is a loop header with that merge block |
| `ControlFlow.CFG.NodeTerminatesControlFlowInSubGraph` | spirv_cfg.cpp:375-449 | the loop computes the upward walk that the lemmas of `SubgraphQuery` are about, for every oracle; yes for `from` itself; a yes means that `from` lies on every real path to the block; for one side of the conditional branch in `from`, yes exactly if `from` is a loop header and the other side runs branchlessly to its merge block |
| `ControlFlow.CFG.PredecessorDominator` | spirv_cfg.cpp:392-396 | a fresh builder fed with the predecessors gives their common dominator |
| `ControlFlow.CFG.CanGoUp` | spirv_cfg.cpp:400-445 | the flags and the five cases amount to the condition under which the walk may go up, which `SubgraphQuery.SideOfHeader` and the rows after it pin down |
| `ControlFlow.CFG.WalkFrom` | spirv_cfg.hpp:96-108 | the walk adds exactly the blocks reachable along successor edges out of blocks that satisfy the predicate and into blocks not seen before; the predicate runs exactly once on each block added and on no other, in depth-first order: always next on the first unseen successor of the latest block that has one |
| `ControlFlow.DominatorBuilder.AddBlock` | spirv_cfg.cpp:456-472 | unreachable blocks are ignored, the first block is taken over, later ones move the choice to the common ancestor |
| `ControlFlow.DominatorBuilder.LiftContinueBlockDominator` | spirv_cfg.cpp:474-524 | a choice whose terminator has a target with a higher number becomes the entry; any other choice, and none, stays what it was |
| `ControlFlow.DominatorBuilder.BranchesBack` | spirv_cfg.cpp:485-520 | the switch finds out whether any target has a higher number, for every kind of terminator; all numbers looked up exist |
| `ControlFlow.DominatorBuilder.AnyCaseBack` | spirv_cfg.cpp:507-512 | the loop over the cases finds out whether any of them has a higher number |
| `Traversal.AddUnique` | spirv_cfg.cpp:305-310 | the list keeps its prefix, gains the value if missing, and stays free of duplicates |
| `StackRefinement.PushKeepsOutcome` | spirv_cfg.cpp:108-115 | marking the top and pushing its batch in reverse does not change what draining the stack will compute |
| `StackRefinement.DrainBatch` | spirv_cfg.cpp:108-123 | draining a reversed batch searches its blocks in the original order, and skips those that an earlier one visited meanwhile |
| `StackRefinement.PruneKeepsBatch` | spirv_cfg.cpp:128-136 | leaving out a child that is in the batch or visited changes nothing in the search |
| `StackRefinement.DfsKeepsStack` | spirv_cfg.cpp:85-91 | a search leaves on the DFS stack precisely what was there before |
| `TraversalInvariant.ResolveKeepsInv` | spirv_cfg.cpp:179-294 | a resolve step keeps the invariant: mirrored and duplicate-free lists, edges from higher to lower numbers, every forward edge recorded, selection merges covered |
| `TraversalInvariant.MarkKeepsInv` | spirv_cfg.cpp:142-145 | marking a block keeps the invariant |
| `TraversalInvariant.DfsKeepsInv` | spirv_cfg.cpp:99-126 | a whole search keeps the invariant, only adds edges and numbers, resolves its block last, and restores the DFS stack |
| `TraversalInvariant.LinkRecords` | spirv_cfg.cpp:199-289 | every child off the DFS stack gets its edge, no other edge appears, and a selection merge ends up with its header or two predecessors |
| `TraversalInvariant.FixupCovers` | spirv_cfg.cpp:240-289 | after the fixup the merge block has its header, or at least two blocks, among its real predecessors, also for a switch with a single successor |
| `TraversalInvariant.AddBranchListsOk` | spirv_cfg.cpp:305-317 | adding a real edge keeps predecessor and successor lists mirrored, duplicate-free and, once created, non-empty |
| `TraversalInvariant.AddForwardAllRecords` | spirv_cfg.cpp:209-238 | every target off the DFS stack has the block among its predecessors afterwards |
| `TraversalInvariant.OrderPrefix` | spirv_cfg.cpp:291-293 | numbers once given never change, and later blocks get larger ones |
| `TraversalInvariant.DfsAllExtends` | spirv_cfg.cpp:305-323 | searching further children only adds to every edge list and to the post order |
| `TraversalResults.Coverage` | spirv_cfg.cpp:291-303 | the post order is a duplicate-free enumeration of exactly the blocks that flow edges reach from the entry, and the block at index i has number i + 1 |
| `TraversalResults.EdgeClassification` | spirv_cfg.cpp:179-294 | an edge is recorded if and only if it is a flow edge to a lower number; flow edges of visited blocks lead to visited blocks |
| `TraversalResults.EntryIsLast` | spirv_cfg.cpp:65-66 | the entry has the largest number and no predecessor, real or virtual |
| `TraversalResults.FinalInv` | spirv_cfg.cpp:99-126 | at the end the invariant holds and every visited block is resolved |
| `TraversalResults.EveryBlockHasPredecessor` | spirv_cfg.cpp:283-288 | every visited block but the entry has a real predecessor, with a larger number |
| `TraversalResults.SelectionMergeCovered` | spirv_cfg.cpp:240-289 | to the end, the merge block of a visited selection header has that header, or two distinct blocks, among its real predecessors, unless the edge to it is a back edge |
| `TraversalResults.ListsMirror` | spirv_cfg.cpp:305-323 | a block is in the predecessor list of another exactly if that one is in its successor list; no list has duplicates |
| `TraversalResults.DfsReaches` | spirv_cfg.cpp:99-177 | a search visits only blocks reachable from its start |
| `TraversalResults.DfsGivesPredecessors` | spirv_cfg.cpp:179-294 | whatever a search visits below its start has a real predecessor when the search is over |
| `MergeFirst.MergeVisitedFirst` | spirv_cfg.cpp:195-200 | for a loop header with a merge block of lower number, every visited block that it strictly dominates in the flow graph and that the merge block does not reach is numbered strictly between the two |
| `MergeFirst.EarlierChildFirst` | spirv_cfg.cpp:138-177 | merge block and targets are searched in order: what a block strictly dominates, and none of its first children reaches, is numbered above the last of these children and below the block |
| `MergeFirst.TrueSideNumberedFirst` | spirv_cfg.cpp:159-162 | the true side of a conditional branch is numbered below the false side if neither it nor the merge block reaches that |
| `MergeFirst.ChildBeforeInside` | spirv_cfg.cpp:147-177 | at the time a block resolves, its child is numbered below all dominated blocks that no child up to it reaches |
| `EdgeOrder.ExtraRealEdge` | spirv_cfg.cpp:240-289 | a selection header that does not branch to its forward merge block has a real edge to it if and only if at most one real predecessor of the merge block is numbered below the header, or the header is a switch with exactly one forward target |
| `EdgeOrder.LoopMergeFirst` | spirv_cfg.cpp:189-200 | the forward merge block of a loop header is the first in its successor list |
| `EdgeOrder.TargetsInTerminatorOrder` | spirv_cfg.cpp:209-238 | forward targets stand in the successor list in the order of the terminator, each at its first occurrence |
| `EdgeOrder.TrueSideFirst` | spirv_cfg.cpp:217-222 | for a conditional branch this is the true side, then the false side |
| `EdgeOrder.CasesInOrder` | spirv_cfg.cpp:224-235 | for a switch it is the cases in order, then the default block |
| `EdgeOrder.SelectionMergeLast` | spirv_cfg.cpp:240-289 | successors are numbered lower, and one that is neither target nor loop merge is the merge block of the selection and the last in the list |
| `EdgeOrder.PredecessorsAscend` | spirv_cfg.cpp:305-323 | each predecessor list, real or virtual, is sorted by number |
| `EdgeOrder.FieldsFollowed` | spirv_cfg.cpp:147-176 | every block that a field of a visited block names as loop merge or target is visited, and is a recorded real successor exactly if it is numbered lower |
| `EdgeOrder.LinkSuccessors` | spirv_cfg.cpp:179-294 | resolving a block leaves it with the successor list that is determined by the numbers then given |
| `EdgeOrder.ResolveKeepsOrdered` | spirv_cfg.cpp:179-294 | a resolve step keeps the order of all lists |
| `MergeFirst.InsideVisited` | spirv_cfg.cpp:99-126 | all blocks that a header strictly dominates are visited and resolved within the search from the header |
| `DominatorTree.OnePassSuffices` | spirv_cfg.cpp:53-83 | the one-pass tree holds exactly the visited blocks, and the ancestors of each are precisely the blocks on every recorded path from the entry to it |
| `DominatorTree.DominatorTreeUnique` | spirv_cfg.cpp:53-83 | no other tree has this property |
| `DominatorTree.ImmediateDominatorIsClosest` | spirv_cfg.hpp:53-60 | the immediate dominator strictly dominates its block, and every other strict dominator dominates it |
| `DominatorTree.PassNeverFails` | spirv_cfg.cpp:70-73 | every edge that the pass handles comes from a block that is in the tree already, which is what the assert says |
| `DominatorTree.PassBuilds` | spirv_cfg.cpp:59-82 | at every position of the pass, the tree is exact for the blocks handled so far and holds no others but the entry |
| `DominatorTree.ExactStep` | spirv_cfg.cpp:63-78 | a block attached to all its predecessors has exact ancestors when they have |
| `DominatorTree.VisitedReached` | spirv_cfg.cpp:283-288 | recorded real edges lead from the entry to every visited block |
| `DominatorTree.MeetChain` | spirv_cfg.cpp:41-51 | the ancestors of the result of the two-finger walk are precisely the common ancestors |
| `DominatorTree.MeetIsNearest` | spirv_cfg.cpp:41-51 | the result is a common dominator, below all others, and it is the one with the lowest number |
| `DominatorTree.MeetUnique` | spirv_cfg.cpp:41-51 | no other block has these ancestors |
| `DominatorTree.MeetCommutes` | spirv_cfg.cpp:41-51 | the common dominator is idempotent and commutative |
| `DominatorTree.MeetAssociates` | spirv_cfg.cpp:41-51 | the common dominator is associative |
| `DominatorTree.AttachAllAttached` | spirv_cfg.cpp:68-77 | after n predecessors, the parent's ancestors are those that these predecessors have in common, and other blocks keep their parents |
| `Reducible.DroppingBackEdges` | spirv_cfg.cpp:85-91 | leaving back edges out preserves dominance of visited blocks if and only if every strict dominator of a back edge's target dominates its source |
| `Reducible.ReducibleIsHarmless` | spirv_cfg.cpp:199-238 | reducible flow, where each back edge's target dominates its source, meets that condition |
| `Reducible.OnFlowPath` | spirv_cfg.cpp:199-238 | under that condition a recorded dominator is on every flow path, back edges included |
| `Reducible.OnEveryExecution` | spirv_cfg.cpp:199-238 | in reducible flow a recorded dominator is on every execution path, however often it loops |
| `IrreducibleExample.DroppingBackEdgesCanMislead` | spirv_cfg.cpp:85-91 | a function of four blocks on which block 2 dominates block 3 over recorded edges although an execution path avoids it |
| `IrreducibleExample.BypassPostOrder` | spirv_cfg.cpp:99-126 | the traversal of that function numbers its blocks 4, 3, 2, 1 |
| `CommonDominator.BuilderIsNearest` | spirv_cfg.cpp:456-472 | the builder's choice is the nearest common ancestor of the reachable blocks added, and 0 exactly if there is none |
| `CommonDominator.BuilderIgnoresOrder` | spirv_cfg.cpp:456-472 | order, repetition and unreachable blocks make no difference |
| `CommonDominator.BuilderDominates` | spirv_cfg.cpp:456-472 | the same in terms of paths: a block dominates the choice exactly if it dominates every visited block added |
| `CommonDominator.ChoiceOnEveryExecution` | spirv_cfg.cpp:456-472 | in reducible flow the choice lies on every execution path from the entry to each block added |
| `CommonDominator.MeetExactMidBuild` | spirv_cfg.cpp:73 | at every stage of the build, the common ancestor of two blocks in the partial tree is already their nearest common dominator |
| `CommonDominator.MergeHoistsToHeader` | spirv_cfg.cpp:189-207 | the immediate dominator of a merge block is its header or dominates its header |
| `CommonDominator.NeverInsideConstruct` | spirv_cfg.cpp:189-289 | a merge block added together with a block it does not dominate makes the choice the header or a dominator of it, never a block inside the construct |
| `CommonDominator.LiftKeepsDominating` | spirv_cfg.cpp:474-524 | after lifting, the choice still dominates every visited block added, has no target with a higher number, and a second call changes nothing |
| `CommonDominator.LiftOnlyIfNeeded` | spirv_cfg.cpp:485-523 | a choice without a target of higher number is kept, and so has exactly the dominators that the added blocks have in common; any other becomes the entry |
| `CommonDominator.EntryLeadsNowhereBack` | spirv_cfg.cpp:522-523 | the entry, to which choices are lifted, has no target with a higher number |
| `CommonDominator.TargetsNumbered` | spirv_cfg.hpp:70-72 | all targets of a visited block are numbered, so that looking their numbers up cannot fail |
| `LoopQuery.FindsInnermostLoop` | spirv_cfg.cpp:325-373 | in structured flow the result is the lowest-numbered loop header, other than the block, that dominates the block while its merge block does not, and the sentinel exactly if there is none |
| `LoopQuery.EnteredIsInnermost` | spirv_cfg.cpp:364-369 | a header that the walk stops at encloses the block where it came from, and every other enclosing header is numbered above it |
| `LoopQuery.SameLoop` | spirv_cfg.cpp:338-362 | going up an edge without entering a loop does not change which loops enclose the block |
| `LoopQuery.UpwardsToHeader` | spirv_cfg.cpp:338-355 | from the merge block of a loop the walk goes to the header of that loop |
| `LoopQuery.LoopDominatorRange` | spirv_cfg.cpp:325-373 | in any flow the answer is a visited loop header numbered above the block, or 0xffffffff; it is never 0 |
| `LoopQuery.UpwardsIsLowest` | spirv_cfg.cpp:338-360 | in any flow the walk goes to the lowest-numbered predecessor that declares the block its merge block, and to the lowest-numbered predecessor if none does |
| `LoopQuery.LoopDominatorStep` | spirv_cfg.cpp:327-370 | each step of the walk reaches a block with a larger number, so that the loop ends |
| `SubgraphQuery.TerminatesIsSound` | spirv_cfg.cpp:375-449 | if the answer is yes then, whatever the oracle says, `from` lies on every real path from the entry to `to` |
| `SubgraphQuery.SideOfHeader` | spirv_cfg.cpp:411-438 | for one side of the conditional branch in `from`, where `from` is the nearest common dominator of its real predecessors: yes exactly if `from` is a loop header and the other side runs branchlessly to its merge block |
| `SubgraphQuery.SideOfInnerBlock` | spirv_cfg.cpp:405-438 | for one side of the branch in another block d: yes exactly if, besides, any merge block of d is declared unreachable, and the answer for d is yes |
| `SubgraphQuery.MergeOrDirectTarget` | spirv_cfg.cpp:434-442 | a merge block, or the target of a direct branch, has the same answer as its header or the source of the branch, if that is the nearest common dominator of its real predecessors |
| `SubgraphQuery.OtherRelation` | spirv_cfg.cpp:434-445 | no in every other relation to that dominator, such as a case of a switch |
| `SubgraphQuery.NoPredecessors` | spirv_cfg.cpp:386-398 | a block without real predecessors has the answer yes only for itself |
| `SubgraphQuery.PredDominatorIs` | spirv_cfg.cpp:392-398 | the builder finds the nearest common dominator of the real predecessors, given in terms of paths |
| `SubgraphQuery.PredsHaveNearest` | spirv_cfg.cpp:392-398 | there is one for every block with a real predecessor |
| `SubgraphQuery.PredDominatorAbove` | spirv_cfg.cpp:392-398 | the common dominator of the predecessors has a larger number than the block, and lies on every real path to it |
| `Walk.ClosedIsWalked` | spirv_cfg.hpp:96-108 | a set of blocks that are all reached, and that is closed under permitted edges, is exactly the reachable set |
| `Walk.Continue` | spirv_cfg.hpp:105-106 | a complete walk from one successor takes a walk that is through k successors to one that is through k + 1, with all it has to establish |
| `Walk.OrderStep` | spirv_cfg.hpp:105-106 | in particular the calls stay in depth-first order |
| `Walk.WalkStep` | spirv_cfg.hpp:105-106 | the recursive call on one successor keeps what the walk has established so far, including the single call of the predicate per block |
| `Walk.WalkEnd` | spirv_cfg.hpp:103-107 | with all successors done, or the predicate false, the walk from the block is complete |
| `VisitTables.NumberingResolved` | spirv_cfg.cpp:291-293 | giving the next number keeps `visit_order` and `post_order` in agreement, entry by entry |
| `VisitTables.PendingPopped` | spirv_cfg.cpp:120-124 | entries that lookups insert for blocks not visited yet belong to blocks still on the stack, also after a pop |
| `VisitTables.PaddedLists` | spirv_cfg.cpp:80-81 | the lookups of the dominator pass change no edge list, and leave every visited block, the entry included, with one |

## Left out

- `Compiler`, `SPIRFunction` and `SPIRBlock` beyond the fields that the analysis reads: their sources are not part of this model. `get_case_list` is a fixed sequence of targets for each block, `execution_is_branchless` an arbitrary pure predicate.
- The width of integers: block ids and the visit counter are unbounded, so that a counter wrapping around after 2^32 blocks is not modelled.
- The iteration order of hash maps, which the code never depends on: it only looks keys up.
- The entry of value 0 that `immediate_dominators[block]` inserts at spirv_cfg.cpp:70 when the block has no dominator yet: the same iteration overwrites it, and nothing reads it in between.
- Buffers: `visit_stack`, `post_order` and the edge lists are sequence-valued fields, so that reversing a part of the stack is an assignment of the reversed part, and memory reuse is not modelled.
- The two long resolve and visit functions and the dominator pass are split into methods, some with ghost parameters that say which child is being handled; the order of the steps is that of the code.
- Merge and branch targets of unreachable blocks also have to be blocks, which the code would not notice.
- Predicates with side effects in `walk_from`: the predicate is a pure function, and a ghost log records on which blocks it is called, and in what order.
- What `find_loop_dominator` returns on unstructured flow: it goes up the predecessors that `LoopQuery.UpwardsIsLowest` names, and the code promises nothing about where that leads. The innermost-loop result is for flow that is `Structured`.
- The accessors `get_compiler` and `get_function`, which return constructor arguments.
- Command line, parser, code generators, generated header tables and utilities (`main.cpp`, `spirv_parser.hpp`, `spirv_cpp.hpp`, `spirv.h`, `spirv_cross_util.cpp` and the like).
