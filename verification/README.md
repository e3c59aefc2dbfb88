# AutoTree in Dafny

AutoTree decodes many branches of a generation tree at once. This project models the parts of it that carry
protocol or memory state and proves what they are for:

* **The paged K/V store** (`core/autotree_core/kv`). Branches are block tables over a fixed pool of
  reference-counted pages. Forks share pages, appends copy a shared partial tail, prunes release pages and a
  scan merges equal full pages. The specification is a plain map from branches to token sequences.
* **The branch scheduler** (`scheduler/src`). An event-driven state machine over a monotonic arena with hard
  budgets, reserved continuations, delayed scores, speculative kills, reclamation, adaptive forks and three
  policies. Its command stream is a protocol: a consumer that replays it stays in lockstep.
* **The engine between the two** (`core/autotree_core/engine/treekv.py`). It carries the scheduler's commands
  out on the store.
* **The fused decode kernel** (`core/autotree_core/kernels`). An online softmax over pages against the one-shot
  softmax over the gathered path.
* **The two checkers of the public event stream**: the server's `EventAccumulator` and the client's
  `TraceAssembler`.

The pattern is the same throughout. What the sources do is a function on a value that holds the whole state
(`Arena`, `Scheduler`, `KvStore`, `Accumulator`, …). Code that the sources write as updates of fields is a
class or a method with loops (`BranchArena`, `PolicyObjects`, `SchedulerObject`, `KvPool.PagedKVPool`,
`KvTreeState.TreeState`, `Engine.TreeKVEngine`, …) whose `ensures` tie its new state to that function of its
old one. The theorems are about the functions, so they hold for the classes; `SchedulerRuns.MakeCalls`,
`KvRuns.RunOps`, `EngineRun.FollowGeneration` and `Kernel.ForestAttention` put the pieces together over whole runs.

What a choice must be is said without the comparator or the scan that makes it: in the numbers of the nodes
(`Termination.FinalizedIsBest`, `Policies.BeamPruneSpec`, `Choices`, `TreeSearch.ChoiceIsBest`), in sums and the exponential
(`Attention.AttendIsSoftmax`), in what an event brings (`Samples`, `Forking`), in bytes (`Codec.WireForm`), or, for the event
checkers, in the events of the stream alone (`Stories`, `Rejections`).

Three things the proofs brought out, each with its exact condition:

* A round of agreement scores is taken exactly if every score comes at most `max_pending_events` events after its
  token (`RoundTiming.RoundAfterBatch`). With the default of 64 that is a batch of at most 64 branches scored in
  the order of their tokens, and of at most 32 scored in any order. Otherwise a branch is answered by its logprob
  first, and the engine's own score for it is then refused (`ShortRuns.LateRound`). The round stops there: the scores
  before it are taken, and what survives are the branches still awaited and the best of those answered so far, by
  score or by logprob (`OverdueRounds.OverdueRoundStops`).
* The server and the client accept the same streams except those that the client cannot read: a negative token id,
  a done event without a tree summary, or a summary that names a policy the client does not know or carries
  `value_estimates` or `pruned_at_tokens` (`EventAgreement.SameStreams`). The server looks at none of these, so it
  accepts a stream without a summary (`EventAgreement.MissingSummaryDiffers`) and one of a generation pruned by value
  (`EventAgreement.ValuePruningDiffers`), and the client rejects both.
* A spent tree budget ends the tree, at once or with the score that the end was deferred to, unless the engine
  reports that very branch exhausted while another active branch has no terminal of its own that falls due with the
  same event (`Endings.EveryRunEndsExactly`). Then the end is dropped and the other branch stays active, although no
  token can be fed to it any more. Three events from a fresh scheduler are enough (`ShortRuns.ForgottenEnd`).

Numbers: scores, logprobs and values are reals, or marked as not finite where a source looks at finiteness.
Counters keep the 64-bit and 32-bit overflow checks of the sources.

## Model

| member | source | states |
|---|---|---|
| KvRuns.RunOps | core/autotree_core/kv/tree_state.py:90-282 | After any run of fork, append, prune and dedup_scan the invariant holds, the branches and the next id are what a plain map from branches to token sequences says, and gathering each live branch gives exactly its sequence |
| KvRuns.Perform | core/autotree_core/kv/tree_state.py:90-282 | One operation is refused exactly for an unknown branch, a branch with children or too few free pages; a refusal changes nothing; otherwise only the named branch changes, as the plain map says |
| KvPool.EmptyPoolOk | core/autotree_core/kv/pool.py:33-53 | A new pool satisfies the pool invariant |
| KvPool.RetainOk | core/autotree_core/kv/pool.py:135-138 | One more reference keeps the pool invariant |
| KvPool.ReleaseOk | core/autotree_core/kv/pool.py:119-128 | Dropping a reference keeps the pool invariant, and recycles the page exactly with its last reference |
| KvPool.AllocOk | core/autotree_core/kv/pool.py:102-117 | Taking the lowest free page keeps the pool invariant and uses one unreferenced page |
| KvPool.PagedKVPool.constructor | core/autotree_core/kv/pool.py:33-53 | All pages free, no references, zeroed caches |
| KvPool.PagedKVPool.AllocPage | core/autotree_core/kv/pool.py:102-117 | Fails exactly on an empty free list and then changes nothing; otherwise hands out the lowest free page zeroed with one reference |
| KvPool.PagedKVPool.Free | core/autotree_core/kv/pool.py:119-128 | Drops one reference and recycles the page with the last; an unallocated page is refused unchanged |
| KvPool.PagedKVPool.RetainPage | core/autotree_core/kv/pool.py:135-138 | Adds one reference to an allocated page, refuses any other |
| KvPool.PagedKVPool.AdjustLogicalTokens | core/autotree_core/kv/pool.py:140-147 | Moves the logical count, refused when it would go below zero |
| KvPool.PagedKVPool.RequireCapacity | core/autotree_core/kv/pool.py:162-174 | Succeeds exactly when enough pages are free and reports both counts otherwise |
| KvPool.PagedKVPool.CopyPage | core/autotree_core/kv/pool.py:176-187 | A private page with the same content and length, or an unchanged pool |
| KvPool.PagedKVPool.SetPageLength | core/autotree_core/kv/pool.py:194-206 | Sets the valid length of an allocated page within the page size, refuses otherwise |
| KvStore.PhysicalTokensBounded | core/autotree_core/kv/pool.py:54-90 | In every reachable store refcounts equal occurrences over the live tables, the free list is exactly the unreferenced pages without repeats, logical tokens are the sum of the branch lengths, and physical tokens are at most that plus (page size - 1) a live branch |
| KvStore.EmptyStoreInv | core/autotree_core/kv/tree_state.py:38-52 | The store with the empty root satisfies the invariant and holds one empty sequence |
| KvLifecycle.ForkKeepsStore | core/autotree_core/kv/tree_state.py:179-195 | A fork keeps the invariant, gives the child its parent's sequence, changes nobody else and uses no page |
| KvLifecycle.PruneKeepsStore | core/autotree_core/kv/tree_state.py:197-209 | Pruning a leaf keeps the invariant and removes exactly that branch's sequence |
| KvAppend.CopyTailKeepsStore | core/autotree_core/kv/tree_state.py:249-254 | Copying a shared partial tail keeps the invariant, changes no sequence, costs one page and leaves the branch a tail nobody else refers to |
| KvAppend.WriteChunkKeepsStore | core/autotree_core/kv/tree_state.py:256-280 | One pass of the write loop extends the branch by its chunk, changes no other branch, and takes a page exactly when it starts on a boundary |
| KvTreeState.GatherBranchKvSpec | core/autotree_core/kv/gather.py:9-67 | The paged-to-dense copy is the branch's token path, refused exactly when the table does not cover the tokens |
| KvTreeState.PagesForAppend | core/autotree_core/kv/tree_state.py:235-247 | The page arithmetic of an append: boundary pages by ceiling division, and one more exactly for a shared partial tail |
| KvTreeState.SettleAppend | core/autotree_core/kv/tree_state.py:225-282 | A completed append satisfies the invariant, reads as the old sequence followed by the tokens, and has used exactly the required pages |
| KvTreeState.TreeState.constructor | core/autotree_core/kv/tree_state.py:38-52 | A tree over an unused pool holds one empty root |
| KvTreeState.TreeState.ValidateBranchCoverage | core/autotree_core/kv/tree_state.py:302-317 | Accepts exactly the tables that cover their tokens with live pages of the right lengths |
| KvTreeState.TreeState.Fork | core/autotree_core/kv/tree_state.py:179-195 | Unknown branch refused unchanged; otherwise the next id, with the parent's sequence |
| KvTreeState.TreeState.Prune | core/autotree_core/kv/tree_state.py:197-209 | Refused unchanged for an unknown branch or one with children; otherwise removes the branch and releases its references |
| KvTreeState.TreeState.AppendTokens | core/autotree_core/kv/tree_state.py:150-177 | Succeeds exactly when the required pages are free, and then uses exactly that many and extends only its target; otherwise the capacity error with nothing changed |
| KvTreeState.TreeState.WriteTokens | core/autotree_core/kv/tree_state.py:255-280 | The write loop appends all tokens; no allocation inside it can fail |
| KvTreeState.TreeState.DedupScan | core/autotree_core/kv/tree_state.py:90-127 | For any digest: no sequence changes, used pages drop by exactly the returned count, no two distinct full live pages stay equal, the refcount check never fails, and a second scan returns 0 and changes nothing |
| KvTreeState.TreeState.ReleaseDuplicates | core/autotree_core/kv/tree_state.py:123-125 | Freeing a redirected page once an occurrence recycles it |
| KvDedup.DiscoverPageRedirects | core/autotree_core/kv/dedup.py:11-33 | However digests collide, each full page goes to the lowest one with equal bytes, and the lowest ones stay |
| KvDedup.TargetsStay | core/autotree_core/kv/dedup.py:11-33 | A redirect target is never redirected and is lower than what is sent to it |
| KvDedup.PlanKeepsStore | core/autotree_core/kv/tree_state.py:113-127 | Carrying a plan out keeps the invariant and every sequence and leaves no two equal full pages |
| KvDedup.PagesMove | core/autotree_core/kv/tree_state.py:113-125 | The occurrences of a page after redirection are its own, unless it is redirected, and those of the pages sent to it |
| KvForest.AttentionMetadata | core/autotree_core/modeling/executor.py:193-218 | Each padded row shows exactly the branch's token sequence for its context length |
| KvForest.ForestStep | core/autotree_core/modeling/executor.py:466-515 | For any batch, also with shared partial tails, each extended row over cache and temporary pages shows the branch's sequence followed by its new token |
| KvForest.DecodeBatch | core/autotree_core/modeling/executor.py:354-401 | Refuses an empty, uneven or repeating batch and an unknown branch with nothing changed; otherwise appends row by row until the pages run out, and the row that a branch attended to shows exactly what its own table shows after the append |
| KvForest.StepAgreesWithAppend | core/autotree_core/modeling/executor.py:466-515 | The speculative row of a step reads as the gathered path of the branch in any later store that holds its sequence with the token appended |
| KvForest.StepRowReads | core/autotree_core/modeling/executor.py:478-515 | One extended row and its temporary page read as the sequence with the token appended |
| Attention.QuotientIsSoftmax | core/autotree_core/kernels/reference.py:107-111 | Whatever the base, the quotient of the relative sums is the softmax-weighted average |
| Attention.Rebase | core/autotree_core/kernels/triton_kernel.py:137-153 | Moving to another maximum scales sum and accumulator by the same factor |
| Attention.AttendIsSoftmax | core/autotree_core/kernels/reference.py:107-111 | The reference's result, times the sum over the tokens of exp(scale * sum of q[d] * k[d]), is in every component the sum of these weights times the values |
| Attention.WeightRatio | core/autotree_core/kernels/reference.py:107-111 | The weights of two tokens stand in the ratio exp(scale * (sum of q[d] * k1[d] - sum of q[d] * k2[d])) |
| Kernel.PageStep | core/autotree_core/kernels/triton_kernel.py:132-155 | One page keeps: maximum is the greatest score seen, sum and accumulator are the sums relative to it |
| Kernel.CheckedIsAccepted | core/autotree_core/kernels/triton_kernel.py:84-107 | The metadata the loop has checked after the last page is exactly what the reference insists on |
| Kernel.KernelPage | core/autotree_core/kernels/triton_kernel.py:95-157 | The body of the page loop: an active page extends the running state by its tokens, an inactive one leaves it alone |
| Kernel.KernelLane | core/autotree_core/kernels/triton_kernel.py:83-159 | For every page size, block table and context length the loop ends with the softmax average over the gathered path, a weight being the exponential of the scaled product of query and key, and with NaN exactly for metadata the reference rejects |
| Kernel.KernelBranch | core/autotree_core/kernels/triton_kernel.py:62-159 | Every program lane writes what the reference computes for the same query head |
| Kernel.KernelDecode | core/autotree_core/kernels/triton_kernel.py:225-281 | Branch by branch the launch agrees with the reference on that branch alone: each head's result times the sum of the weights is the weighted sum of the values, and NaN stands exactly for metadata the reference rejects |
| Kernel.ReferenceDecode | core/autotree_core/kernels/reference.py:61-115 | Succeeds exactly when every branch's metadata is acceptable, and then each head's result is the softmax average over the branch's gathered tokens, written out as sums |
| Kernel.StoreAttention | core/autotree_core/modeling/executor.py:193-218 | On a valid store each head's result is the softmax average over exactly the branch's tokens, with NaN only for a branch without tokens |
| Kernel.ForestAttention | core/autotree_core/modeling/executor.py:466-515 | A batched step over a valid store gives, for every head and branch, the softmax average over the branch's sequence followed by its new token, with no NaN |
| Arena.ForkKeepsWellFormed | scheduler/src/types.rs:305-356 | A fork keeps ids, parent and child links, depths and states consistent |
| Arena.ForkExactly | scheduler/src/types.rs:305-356 | A fork succeeds exactly for a width in range and an active branch whose children fit depth, arena and counters; each child starts from its parent's tokens, logprob and value without a score or visits, and no other node changes |
| Arena.EndsExactly | scheduler/src/types.rs:358-382 | A kill succeeds exactly for a live branch without live children, a finalization exactly for an active branch, and each changes one state only |
| Arena.RefusalsNameTheFault | scheduler/src/types.rs:305-382 | The error of a refused fork, kill or finalization names a condition that holds of the arena, with the branch, width, limit or total it is about |
| Arena.TerminateKeepsWellFormed | scheduler/src/types.rs:358-382 | Ending a node without live children keeps the arena consistent |
| Arena.RecordTokenKeepsWellFormed | scheduler/src/types.rs:272-288 | A recorded token changes no structure |
| Arena.SameStructureWellFormed | scheduler/src/types.rs:226-235 | Structure decides consistency and orphans |
| BranchArena.BranchTree.Fork | scheduler/src/types.rs:305-356 | Appends the children with the next ids in order, or refuses with the source's error and changes nothing |
| BranchArena.BranchTree.Kill | scheduler/src/types.rs:358-373 | Refuses unknown, dead and parental branches unchanged, otherwise only marks the node |
| BranchArena.BranchTree.Finalize | scheduler/src/types.rs:375-382 | Refuses all but a childless active branch unchanged |
| BranchArena.BranchTree.RecordToken | scheduler/src/types.rs:272-288 | Adds one token and its logprob to an active branch, or changes nothing |
| BranchArena.BranchTree.RecordValue | scheduler/src/types.rs:290-298 | Sets the value of a live branch, or changes nothing |
| BranchArena.BranchTree.MarkValuePending | scheduler/src/types.rs:300-303 | Withdraws the value mark of an active branch, or changes nothing |
| BranchArena.BranchTree.Backpropagate | scheduler/src/types.rs:384-412 | Exactly the nodes from the branch to the root gain one visit and the value, or nothing changes at all |
| BranchArena.BudgetController.Consume | scheduler/src/budget.rs:56-76 | Spends one token exactly while both limits allow it and says which limits it reached; a refusal spends nothing |
| BranchArena.AdaptiveForkController.RecordFork | scheduler/src/adaptive.rs:129-134 | Every new child remembers its parent's token count, other entries stay |
| Adaptive.WidthFormula | scheduler/src/adaptive.rs:136-148 | The width is the documented closed formula and lies within the configured bounds |
| Adaptive.WidthMonotone | scheduler/src/adaptive.rs:136-148 | More entropy never forks narrower |
| Adaptive.PlannedExactly | scheduler/src/adaptive.rs:77-127 | A fork is planned exactly when the entropy reaches the threshold, the branch is above the depth limit, below its token limit and at least min_tokens_between_forks past the fork it came from, and the children fit the arena and the unreserved budget |
| Ranking.SortRanks | scheduler/src/policies/beam.rs:35-46 | Sorting distinct branches ranks them strictly in the chosen order |
| CommandStream.ApplyRespectsStructure | scheduler/src/scheduler.rs:496-523 | A consumer that sees only the structure takes the same step |
| CommandStream.ReplayTargets | scheduler/src/scheduler.rs:496-523 | In a stream that replays, each Fork, Continue and Finalize meets an active branch at its place and each Kill a live one whose children are all terminal |
| CommandStream.ReplayTerminatesOnce | scheduler/src/types.rs:358-382 | A stream holds one Kill or Finalize for a branch it ends, none for one it leaves live |
| CommandStream.DropContinueKeepsReplay | scheduler/src/scheduler.rs:592-597 | Removing queued Continues changes nothing that a consumer builds |
| Lifecycle.ReclaimSpec | scheduler/src/scheduler.rs:655-687 | Reclamation kills only childless ancestors, its commands replay to its tree, it leaves no new orphan and touches no active branch |
| Lifecycle.ReclaimExactly | scheduler/src/scheduler.rs:655-687 | From an ended branch upwards: afterwards no ancestor is expanded without a live child, and every node that is not an ancestor is as it was |
| Lifecycle.ReplayOrphans | scheduler/src/scheduler.rs:373-391 | An orphan that commands leave behind is the parent of a branch they ended |
| Lifecycle.VictimsSpec | scheduler/src/scheduler.rs:599-640 | The victims are exactly the scored active branches that trail another scored one by more than the margin |
| Lifecycle.SpeculativePruneSpec | scheduler/src/scheduler.rs:599-653 | A speculative prune never fails, ends exactly the victims among the active branches, and leaves no orphan |
| Termination.RoundSpec | scheduler/src/scheduler.rs:731-759 | A round of closing kills succeeds and leaves fewer expanded nodes |
| Termination.TerminateTreeSpec | scheduler/src/scheduler.rs:689-761 | Termination never fails, leaves every node terminal, and finalizes, when a branch was active, exactly one: a scored one if there is any, of greatest value, otherwise of greatest logprob, the lowest id among equals |
| Termination.FinalizedIsBest | scheduler/src/scheduler.rs:689-733 | The finalized branch has a value if any active branch has one, and no other active scored branch a greater one, nor an equal one with a lower id; without any value the same holds for logprobs |
| Policies.BeamPruneSpec | scheduler/src/policies/beam.rs:48-71 | Exactly as many branches as fit the beam stay active, each with a logprob no lower than that of any branch pruned and a lower id when they are equal, and the commands account for it |
| Choices.BeamCommands | scheduler/src/policies/beam.rs:48-71 | A beam kills the branches of lowest logprob beyond its width in ascending id order and as beam-pruned, then continues exactly the survivors with the fewest tokens, likelier ones first |
| Choices.BeamForksExactly | scheduler/src/policies/beam.rs:74-107 | A beam forks exactly on a sampled token when all active branches have the same token count and it is a configured one, and then every active branch in id order |
| Policies.BeamOnEventHonours | scheduler/src/policies/beam.rs:75-107 | After any event the frontier fits the beam and the commands account for every change |
| Policies.BestFirstHonours | scheduler/src/policies/best_first.rs:65-121 | Whatever best-first answers, its commands account for every change to the arena |
| Choices.BestFirstExpands | scheduler/src/policies/best_first.rs:64-98 | Best-first answers nothing exactly without a scored active branch; otherwise it takes one of greatest value, then logprob, then lowest id, and forks it with all children continued, or continues it at the depth limit |
| Choices.BestFirstWaits | scheduler/src/policies/best_first.rs:47-56 | Without forking, best-first waits while an active branch lacks a value, and otherwise continues one of greatest value |
| Choices.BestFirstContinuesChildren | scheduler/src/policies/best_first.rs:109-121 | After an adaptive fork best-first continues every child in order and changes nothing |
| Mcts.MctsHonours | scheduler/src/policies/mcts.rs:178-226 | Whatever MCTS answers, its commands account for every structural change, and token counts and values are left alone |
| TreeSearch.ChoiceIsBest | scheduler/src/policies/mcts.rs:58-110 | With every live child visited, each child's score, value sum over visits plus weight times sqrt(ln(parent visits) / visits), exceeds the chosen one's by no more than the tolerance per step of the scan; a child that leads all others beyond tolerance is chosen, and among children that all tie the lowest id |
| TreeSearch.ValueGoesUp | scheduler/src/types.rs:384-412 | Along the parents from the branch to the root every node gains one visit and the value; nothing else changes |
| TreeSearch.BackpropagatesExactly | scheduler/src/types.rs:384-412 | Backpropagation is refused exactly for a value that is no number, an unknown branch or a visit count at its largest on the path, and the error says which |
| TreeSearch.SelectDescends | scheduler/src/policies/mcts.rs:112-146 | Selection goes down from the root by chosen children to a node that is not expanded; an active one is forked above the depth limit, with one drawn child continued, and continued at it |
| TreeSearch.MctsLearns | scheduler/src/policies/mcts.rs:148-162 | Whatever the hook, the value of a scored event branch is added once along its path, an exhausted or unscored one adds nothing, and new nodes start without statistics |
| TreeSearch.MctsAnswers | scheduler/src/policies/mcts.rs:177-226 | Each hook's commands: nothing while the score is missing, selection from the root, one Continue for the active branch the descent reaches without forking, or one for a drawn child of an adaptive fork |
| BuiltIns.BeamIsFaithful | scheduler/src/policies/beam.rs:74-126 | The beam policy keeps its side of the command contract |
| BuiltIns.BestFirstIsFaithful | scheduler/src/policies/best_first.rs:64-121 | The best-first policy keeps its side of the command contract |
| BuiltIns.MctsIsFaithful | scheduler/src/policies/mcts.rs:177-226 | The MCTS policy keeps its side of the command contract |
| BuiltIns.FaithfulNeverMismatches | scheduler/src/scheduler.rs:414-462 | A policy that keeps its side never trips the command check, also after an adaptive fork |
| PolicyObjects.BeamPolicy.PruneAndContinue | scheduler/src/policies/beam.rs:48-71 | The kill loop on the borrowed arena does what the policy function says, cannot fail, and leaves active the branches of greatest logprob, lower ids first among equals |
| PolicyObjects.BeamPolicy.OnEvent | scheduler/src/policies/beam.rs:75-107 | Forks a frontier that stands together at a configured count, then prunes, as the policy function says |
| PolicyObjects.BestFirstPolicy.OnEvent | scheduler/src/policies/best_first.rs:65-98 | As the policy function says; a non-empty answer begins with a scored active branch of greatest value, then greatest logprob, then lowest id |
| PolicyObjects.MctsPolicy.ChooseChild | scheduler/src/policies/mcts.rs:58-110 | The scan over the children ends with the child, and the draws, of the policy function; when every live child is visited no child's score exceeds the chosen one's beyond the tolerance and the drift of the scan |
| PolicyObjects.MctsPolicy.Select | scheduler/src/policies/mcts.rs:112-146 | The descent loop ends where the policy function's recursion ends |
| PolicyObjects.MctsPolicy.RecordEventValue | scheduler/src/policies/mcts.rs:148-162 | Backpropagates the value of a token or score event and nothing for an exhausted branch |
| PolicyObjects.MctsPolicy.OnEvent | scheduler/src/policies/mcts.rs:178-194 | Waits for a missing score, otherwise backpropagates and selects |
| SchedulerObject.Scheduler.constructor | scheduler/src/scheduler.rs:149-185 | A new scheduler is in the initial state |
| SchedulerObject.Scheduler.RemoveQueuedContinue | scheduler/src/scheduler.rs:592-597 | Takes the branch's Continues out of the queue and its reservation back |
| SchedulerObject.Scheduler.EnqueueCommands | scheduler/src/scheduler.rs:555-590 | Enqueues in order, dropping queued Continues of touched branches and refusing Continues that cannot advance |
| SchedulerObject.Scheduler.ReclaimCompletedAncestors | scheduler/src/scheduler.rs:655-687 | The walk up the ancestors does exactly what the recursive reclamation says |
| SchedulerObject.Scheduler.SpeculativePrune | scheduler/src/scheduler.rs:599-653 | Kills and reclaims victim by victim as the function says |
| SchedulerObject.Scheduler.TerminateTree | scheduler/src/scheduler.rs:689-761 | The three loops end with the tree and the commands the function says and cannot fail; afterwards every node is killed but those finalized before and the winner |
| SchedulerObject.Scheduler.CloseAll | scheduler/src/scheduler.rs:731-759 | The closing rounds terminate |
| SchedulerObject.Scheduler.ValidatePolicyCommands | scheduler/src/scheduler.rs:496-523 | Accepts exactly commands that, replayed on a clone from before the policy, give the structure the policy left |
| SchedulerObject.Scheduler.PolicyCommands | scheduler/src/scheduler.rs:414-462 | Adaptive fork, score follow-up or ordinary hook, as the function says |
| SchedulerObject.Scheduler.RecordSample | scheduler/src/scheduler.rs:275-306 | Succeeds exactly if nothing stands in the token's way; then the node has one more token, its logprob has grown by the token's, with an own scorer its value is the scorer's answer on that node, and all other nodes are as before |
| Samples.CheckedExactly | scheduler/src/scheduler.rs:238-267 | An event passes the opening checks exactly if its entropy is a non-negative number, its branch is active, or live for a score, and no outside score of a sampled branch is awaited; otherwise the error says what is wrong |
| Samples.TokenIsRecorded | scheduler/src/scheduler.rs:273-306 | The recorded state in full: one node grown and scored, one token spent, the deadline noted, the branch's Continue used up, everything else as before |
| Samples.RefusedTokenNamesTheFault | scheduler/src/scheduler.rs:273-306 | The error of a refused token names what stands in its way |
| Samples.TokenOutcome | scheduler/src/scheduler.rs:307-327 | A last token finalizes its branch; a limit does too, or defers the end of branch or tree to the awaited score; a spent tree ends at once unless deferred |
| Samples.ExhaustedIsFinalized | scheduler/src/scheduler.rs:328-335 | An exhausted branch is finalized exactly if it is active, and everything noted about it is forgotten |
| Samples.ScoreIsTaken | scheduler/src/scheduler.rs:336-352 | A score is taken exactly if it is a number, comes from outside and is awaited by a live branch; it becomes the value, is awaited no longer and carries out the deferred end |
| Samples.RefusedScoreNamesTheFault | scheduler/src/scheduler.rs:336-352 | The error of a refused score names why it cannot be taken |
| Forking.AdaptiveExactly | scheduler/src/scheduler.rs:414-462 | Within an event, the exact condition for a planned fork, with the queued Continues as the reserved part of the budget |
| Forking.ForksAsPlanned | scheduler/src/scheduler.rs:414-462 | On a token with an entropy the only fork is the planned one, which comes first and is remembered for each child; none comes from the score that follows up such a token; any other event asks the policy in the ordinary way, once |
| Forking.BuiltInsForkWhenAsked | scheduler/src/policy.rs:55-86 | No built-in policy forks from the two hooks that must not |
| Forking.MismatchIsReported | scheduler/src/scheduler.rs:496-523 | A policy's commands are accepted exactly if they account for every structural change; a mismatch is reported exactly if they replay to another structure |
| Forking.OnlyPlannedForks | scheduler/src/scheduler.rs:354-394 | The forks among all commands of an event's policy part, reclamations included, are the planned one or none |
| Forking.AskedOnce | scheduler/src/scheduler.rs:354-394 | The policy is asked once in an event that goes on with no deferred end, and never on a last token or when the tree ends |
| Forking.FollowUpsAwaited | scheduler/src/scheduler.rs:354-412 | After an event the follow-ups still awaited are those of live branches, but for the one the policy has just been asked for |
| Forking.ContinueIsQueued | scheduler/src/scheduler.rs:555-590 | A Continue is queued exactly if its branch is active, below its limit, awaits no score and holds no other, and a token of the budget is unreserved |
| KillReasons.PruneReasons | scheduler/src/scheduler.rs:599-687 | A speculative prune kills its victims in ascending id order as speculative, each followed by the ancestors it leaves childless, killed as reclaimed |
| KillReasons.RoundCommands | scheduler/src/scheduler.rs:731-759 | A closing round kills the expanded nodes whose children have all ended, deepest first and higher ids first among equals |
| KillReasons.TerminationCommands | scheduler/src/scheduler.rs:689-761 | Termination kills the losers in ascending id order, finalizes the winner, then closes; every kill carries the given reason |
| KillReasons.DrainReasons | scheduler/src/scheduler.rs:545-553 | What a drain adds to the queue are kills of a drained tree and the finalization of the winner |
| KillReasons.SpentReasons | scheduler/src/scheduler.rs:354-361 | What the end of a spent tree adds to the queue, beside the event's own commands, are kills for the tree budget and the finalization of the winner; nothing is awaited any more |
| SchedulerObject.Scheduler.ProcessEvent | scheduler/src/scheduler.rs:238-394 | Does what the event function says; a refusal by the opening checks changes nothing |
| SchedulerObject.Scheduler.ResolveExpiredPendingScores | scheduler/src/scheduler.rs:471-494 | Answers every expired branch that still waits with its cumulative logprob, in id order |
| SchedulerObject.Scheduler.FeedEvent | scheduler/src/scheduler.rs:197-236 | Does what the feed function says; with rollback a refused event leaves everything but the policy's own memory as it was |
| SchedulerObject.Scheduler.PollCommands | scheduler/src/scheduler.rs:526-528 | Hands the whole queue out |
| SchedulerObject.Scheduler.Drain | scheduler/src/scheduler.rs:545-553 | Ends the tree, forgets what was awaited and cannot fail |
| SchedulerRuns.MakeCalls | scheduler/src/scheduler.rs:197-553 | Any sequence of feeds, polls and drains on a scheduler object is a run, so it satisfies what every run satisfies; with rollback it never stops |
| Runs.StartInvariant | scheduler/src/scheduler.rs:149-185 | A new scheduler satisfies the run invariant and reserves nothing |
| Runs.EveryRun | scheduler/src/scheduler.rs:197-553 | After every run, with any policy: the commands handed out and queued replay from a fresh root to the scheduler's tree, no expanded node is without a live child, every awaited deadline lies ahead, and with an honest policy the token books balance |
| Runs.StreamIsWellTargeted | scheduler/src/scheduler.rs:238-394 | At its place in the stream every command meets the state it asks for, and each branch gets one Kill or Finalize exactly if it is terminal |
| Runs.LiveNodeHasFrontier | scheduler/src/scheduler.rs:655-687 | Below every live node there is an active one, so a live root means a non-empty frontier |
| Runs.TerminalRootEndsAll | scheduler/src/types.rs:358-382 | A terminal root means that every node is terminal |
| Runs.EveryDisciplinedRun | scheduler/src/scheduler.rs:555-597 | If tokens are fed only for branches that hold a Continue, or while budget is unreserved, outstanding continuations always fit the remaining budget and their branches are active, below their limit and not awaiting a score |
| Values.FinishKeepsValues | scheduler/src/scheduler.rs:354-394 | With a policy that leaves the numbers alone, what follows an event's own changes alters no active branch's logprob, value or score mark, and leaves no scored one that trails another by more than the margin |
| ValueRuns.EveryRunIsTidy | scheduler/src/scheduler.rs:197-553 | After every run with a policy that leaves the numbers alone no scored active branch trails another by more than the margin, and with the logprob scorer the value of every scored active branch is its cumulative logprob |
| ValueRuns.StartIsTidy | scheduler/src/scheduler.rs:149-185 | A new scheduler satisfies what that theorem asks of its start |
| Lockstep.ProcessEventInStep | scheduler/src/scheduler.rs:238-394 | An accepted event keeps the log replaying to the tree and leaves no orphan |
| Lockstep.EnqueueLog | scheduler/src/scheduler.rs:555-597 | Whatever Continues the queue drops or refuses, the log keeps replaying |
| Accounts.ProcessEventAccounted | scheduler/src/scheduler.rs:280-300 | An accepted event keeps the sum of the nodes' own tokens equal to what was spent, every path within its limit, and spends one exactly for a token |
| Waiting.FeedEventWaits | scheduler/src/scheduler.rs:464-494 | After an accepted event each awaited deadline is strictly later than the event count and at most the configured number of events away, and a branch with a deferred terminal is active and unscored |
| Waiting.AwaitedScoreIsTaken | scheduler/src/scheduler.rs:336-352 | A finite score for a waiting branch is never refused, and its deferred terminal is carried out |
| Limits.EveryRunStaysWithin | scheduler/src/scheduler.rs:280-363 | After every run with a policy that leaves token counts alone, each active branch is below the branch limit, or its terminal is deferred to the score it awaits |
| Limits.OwnScorerEnds | scheduler/src/scheduler.rs:314-334 | When the scheduler scores for itself nothing is deferred: a spent tree that is ended or about to end has ended every branch |
| Limits.ProcessEventLimits | scheduler/src/scheduler.rs:238-394 | An accepted event keeps the branch limits, and unless it exhausts the branch that holds the deferred end also the tree limit, whatever the policy forks, as long as it leaves token counts alone |
| Endings.FeedEndsExactly | scheduler/src/scheduler.rs:197-394 | With a policy that leaves token counts alone: an accepted event, with the scores it answers on their deadline, keeps a spent tree ended or about to end, unless it exhausts the branch that holds the deferred end while another active branch has no terminal due with this event; with a policy that never ends every branch the end is then lost for sure |
| Endings.EveryRunEndsExactly | scheduler/src/scheduler.rs:197-553 | Over every run: at each of its states a spent tree is ended or about to end, exactly if no accepted event forgets the end in this way |
| Endings.BuiltInRunsEndExactly | scheduler/src/scheduler.rs:197-553 | The same equivalence from a new scheduler with each built-in policy, without further conditions |
| Endings.FeedOneEnd | scheduler/src/scheduler.rs:314-327 | At most one branch holds the deferred end of the tree, and only when the budget is spent |
| Endings.OwnScorerNeverForgets | scheduler/src/scheduler.rs:314-334 | No run of a scheduler that scores for itself forgets an end |
| Frontier.BeamKeepsSome | scheduler/src/policies/beam.rs:48-127 | A beam never ends the last active branch |
| Frontier.BestFirstKeepsSome | scheduler/src/policies/best_first.rs:47-109 | Best-first never ends the last active branch |
| Frontier.MctsKeepsSome | scheduler/src/policies/mcts.rs:112-194 | MCTS never ends the last active branch |
| ShortRuns.ForgottenEnd | scheduler/src/scheduler.rs:328-335 | A run of three events from a new scheduler after which the budget is spent, a branch is active and no end is deferred |
| Reservations.ProcessEventReserved | scheduler/src/scheduler.rs:555-597 | An accepted event from a disciplined engine keeps the reservation |
| Reservations.HeldTokenIsTaken | scheduler/src/scheduler.rs:260-301 | A finite token for a held Continue passes every check on budget, liveness and pending scores |
| Reservations.SpentIsRecorded | scheduler/src/scheduler.rs:280-334 | No step between spending the budget and recording the token, or carrying out its terminal, can fail |
| Reservations.PlannedChildrenContinue | scheduler/src/adaptive.rs:111-126 | When every child of a planned adaptive fork is continued, none of these Continues is dropped at the queue |
| Engine.TreeKVEngine.Execute | core/autotree_core/engine/treekv.py:544-597 | One command keeps engine and store mirroring the scheduler's tree and moves the token paths as the command means; only a decode can run out of pages, and does exactly if it starts a page or shares its partial tail and no page is free |
| Engine.TreeKVEngine.ExecuteFork | core/autotree_core/engine/treekv.py:544-579 | Each child gets the id the scheduler gave it, with its parent's path; neither of the loop's own errors can arise |
| Engine.TreeKVEngine.ExecutePrune | core/autotree_core/engine/treekv.py:580-597 | A kill or finalize never meets a branch with children |
| Engine.ExecuteStream | core/autotree_core/engine/treekv.py:544-597 | Executing a stream that replays ends with the mirrored tree and each live branch holding the tokens decoded along its path, or runs out of pages |
| EngineRun.FollowGeneration | core/autotree_core/engine/treekv.py:400-597 | However the scheduler's events, polls and drains interleave with the engine carrying out what it was handed, no command is refused, the engine mirrors the scheduler's tree as of the commands carried out, with the tokens decoded along each path, and once it has caught up it mirrors the scheduler's own tree; only pages can run out |
| Consensus.ProtectedAreBest | core/autotree_core/engine/consensus.py:120-132 | A protected branch has a raw score no lower than any unprotected one, and a lower id when they are equal |
| Consensus.TopAfterProtection | core/autotree_core/engine/consensus.py:120-132 | After protection the top-scored branches are the protected ones and those that scored best anyway |
| Consensus.EnoughSurvive | core/autotree_core/engine/consensus.py:120-132 | At least the configured minimum, or all when fewer, share the top score |
| ConsensusRound.RoundKeepsTop | core/autotree_core/engine/treekv.py:229-272 | With kill margin zero and a wide enough beam, in every reachable state a full round fed in any order is taken exactly if each branch is awaited beyond the scores before its own, and then leaves active exactly the top-scored branches; a round that is not taken has a first late score |
| ConsensusRound.RoundStops | scheduler/src/scheduler.rs:464-494 | A round stops at its first late score: the scores before it are taken, it is refused as unexpected or as for a dead branch, and when whoever is not awaited at the start has a value that none beats, the survivors are the branches still awaited and the best of those answered by score or logprob |
| RoundTiming.RoundAfterBatch | core/autotree_core/engine/treekv.py:443-490 | A batch of tokens and then a full round of its scores, in any order, is taken exactly if each score comes at most max_pending_events events after its token |
| OverdueRounds.OverdueRoundStops | core/autotree_core/engine/treekv.py:443-490 | After any batch, with a score that comes more than max_pending_events events after its token: the round stops at the first such score, and the survivors are the branches still awaited and the best of those answered, by score or by logprob |
| RoundTiming.SameOrderIsPrompt | scheduler/src/scheduler.rs:464-494 | Scores in the order of the tokens are all in time exactly if there are at most max_pending_events of them |
| RoundTiming.EveryOrderIsPrompt | scheduler/src/scheduler.rs:464-494 | Every order of n scores is in time exactly if 2n - 1 events may pend |
| ShortRuns.LateRound | scheduler/src/scheduler.rs:336-339 | A run in which a branch of the batch is answered by its logprob first and the engine's score for it is refused |
| ShortRuns.RoundOfThree | core/autotree_core/engine/treekv.py:443-490 | A reachable state, for every setting from two upwards, from which a batch of three and its scores are all taken exactly if three events may pend |
| ShortRuns.TimelyRound | core/autotree_core/engine/treekv.py:443-490 | For every setting from three upwards and any scores, a run from a new scheduler whose round of three is taken and leaves exactly the top-scored branches |
| ConsensusRound.RoundKeepsEnough | core/autotree_core/engine/treekv.py:229-272 | With protected scores the round is taken exactly if it is in time, and the survivors are then the protected branches and those that scored best anyway, at least the configured minimum of them |
| RandomIndex.Draw | scheduler/src/policies/mcts.rs:10-20 | Returns the residue of the first accepted sample and skips exactly the rejected ones |
| RandomIndex.Uniform | scheduler/src/policies/mcts.rs:10-20 | Every index has exactly the same number of accepted 64-bit samples, and together they are all the accepted ones |
| RandomIndex.MostAreAccepted | scheduler/src/policies/mcts.rs:10-20 | More than half of all samples are accepted, whatever the bound |
| FairChoice.TiesAreFair | scheduler/src/policies/mcts.rs:58-110 | Among the live unvisited children of a node each is picked by exactly the same number of accepted 64-bit samples, and together they share all of them |
| FairChoice.LogKeepsBrothers | scheduler/src/types.rs:305-356 | In every tree a command stream can build, the children of a node are distinct and at most as many as a fork may make |
| Codec.EncodeCommandStream | scheduler/src/command.rs:149-181 | The loop writes the specified encoding |
| Codec.RoundTrip | scheduler/src/command.rs:149-181 | Decoding an encoding recovers the list and consumes every byte |
| Codec.Injective | scheduler/src/command.rs:149-181 | Two lists with the same bytes are the same |
| Codec.Canonical | scheduler/src/command.rs:149-181 | Bytes that decode are the encoding of what they decode to |
| Codec.WireForm | scheduler/src/command.rs:149-181 | The bytes of one command: a tag 0 to 3, the branch as eight little-endian bytes, and for a fork the width as four, for a kill the code of its reason, 0 to 6 |
| Codec.StreamForm | scheduler/src/command.rs:149-181 | An encoding is the count as eight little-endian bytes followed by the commands, each at its own place |
| Accumulator.EventAccumulator.AcceptEvent | serve/autotree_serve/app.py:86-217 | Accepts what the function on the fields accepts, with its new fields or its error; a rejected event changes nothing, but that a done event may have ended its branch |
| Accumulator.EventAccumulator.BranchPath | serve/autotree_serve/app.py:235-241 | The loop up the parents gives the path from the root |
| Accumulator.AcceptKeepsOk | serve/autotree_serve/app.py:86-217 | Accepted events keep parents started before children and the dictionaries on the same keys |
| Assembler.TraceAssembler.AddEvent | sdk/autotree_sdk/trace.py:35-66 | Accepts what the function accepts; a rejected event changes nothing |
| Assembler.TraceAssembler.CompleteTrace | sdk/autotree_sdk/trace.py:137-224 | Completes the winner exactly when every check passes |
| Assembler.AddKeepsOk | sdk/autotree_sdk/trace.py:84-104 | Stored paths stay within the known branches |
| EventAgreement.EventAgrees | serve/autotree_serve/app.py:86-217 | From agreeing states the server accepts a readable event exactly when the client parses and accepts it, and the states agree again, stored paths being the walked ones |
| EventAgreement.SameStreams | sdk/autotree_sdk/trace.py:35-224 | For every stream the engine can emit: the client accepts it exactly if the server does, every token id is non-negative, and every done event carries a summary that names a policy the client knows and neither of the two value-pruning fields |
| Stories.ServerAcceptsStories | serve/autotree_serve/app.py:86-217 | The server accepts exactly the streams in which every event fits the events before it: starts once and under a started parent, tokens numbered from zero on open branches, ends once, a merge into another open branch, and a done event for the last open branch with the right counts, summary and text, after which nothing comes |
| Stories.ClientAcceptsStories | sdk/autotree_sdk/trace.py:35-224 | The client accepts exactly those of these streams that it can read |
| Rejections.ServerRejectsTheFault | serve/autotree_serve/app.py:86-217 | A stream the server rejects has a first event that does not fit, and the error names a fault of that event, in terms of the events before it |
| Rejections.ClientRejectsTheFault | sdk/autotree_sdk/trace.py:35-224 | So does a stream of readable events that the client rejects, unless that event cannot be parsed |
| EventAgreement.MissingSummaryDiffers | serve/autotree_serve/app.py:145 | A stream whose done event carries no summary is accepted by the server and rejected by the client |
| EventAgreement.ValuePruningDiffers | sdk/autotree_sdk/models.py:53-65 | A stream whose summary is that of a generation pruned by value estimates is accepted by the server and rejected by the client |

## Left out

- Floating point: rounding, overflow of finite sums to infinity, signed zeros and NaN payloads; scores are reals, and only the finiteness checks on inputs are kept.
- The natural logarithm, square root and exponential are function parameters; the exponentials are assumed to turn sums into products and to be related by the kernel's constant for log2(e).
- Tensors: a token's keys and values over all layers are one opaque value with equality; devices, dtypes, strides and shape checks are not modelled.
- KvPool.PagedKVPool.AllocPage: the free heap is kept as a sorted list, which hands out the same pages; the heap's internal order is not modelled.
- KvTreeState.TreeState.Fork: the mutable branch record is a value in a map field, so aliasing of records is not modelled; the detached snapshots handed to callers are not either.
- KvTreeState.TreeState.DedupScan: a branch's digest is an arbitrary function; sorted iteration over a dictionary is a loop over the ids.
- Attention.AttendIsSoftmax: the default scale, one over the square root of the head dimension, is a parameter of the model.
- Weak binding of a pool to its tree, and guards against wrong Python types.
- SchedulerObject.Scheduler.FeedEvent: without rollback the state after a refused event is left open, because the source leaves it half-changed.
- SchedulerObject.Scheduler.AskPolicy: a policy is a function of its call number, hook, event and arena, which covers its own state and random draws; a custom policy that replaces the arena's cap is not covered. The three built-in policies have their own classes, proved against such functions.
- SchedulerObject.Scheduler.constructor: configurations the builders refuse are a precondition here.
- Ranking.SortRanks: library sorts and iterator chains are functions, not loops.
- The three token variants of an event are one constructor, since they differ only in the metadata they carry.
- RandomIndex.Draw: the generator itself is not modelled; samples are an arbitrary sequence, and the loop ends with it.
- Engine.TreeKVEngine.Execute: event emission, text, score bookkeeping and the exhaustion of stopped branches are not modelled; merged branches and value pruning are left out, and a Continue is either decoded or skipped.
- EngineRun.FollowGeneration: the order of the moves is arbitrary; which events the generation loop feeds after which command is not modelled.
- Consensus.ProtectedAreBest: the raw agreement scores (answer extraction, tokenising, overlap counts) are arbitrary numbers.
- Kernel.KernelLane: padding lanes and padded dimensions, which are masked out and never stored, are not modelled; the block of token offsets is.
- EventAgreement.SameStreams: the error event, finish reasons, scorers, the total in the usage record and the JSON text itself are left out; strings are sequences of Unicode scalar values. The client also reads a summary whose ratio is missing; no event of the engine's type has none, so no stream here does.
- Codec.RoundTrip: lists longer than a 64-bit count, which a vector cannot hold, are excluded.
- Model forward passes, tokenisers, HTTP routes, metrics, command line tools, figures and benchmarks.
