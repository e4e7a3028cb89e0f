# Models and proofs for the training stack

This project models the compact algorithms of the repository and proves what they promise. Verify it
with `dafny verify dfyconfig.toml`.

## What is modelled

**Weight synchronisation.** Rank 0 packs named tensors into buckets of a fixed size (`Packing.dfy`).
The NCCL engine broadcasts the buckets from two buffers used in turn (`NcclEngine.dfy`, a class over
arrays). The NIXL engine sends them down a chain of rollout ranks: `RelayChain.dfy` is a state machine
in which every rank has a program counter, two buffers and at most one outstanding offer, and every
link a queue of messages and one of notifications. A one-sided read is not atomic: its bytes arrive
one at a time, in any order, from whatever the remote buffer holds at that moment, between steps of
any other rank. `RelayInvariant.dfy` holds the inductive invariant, `RelayTheorems.dfy` what follows
for all runs. `NixlAgent.dfy` models the queues inside an agent, `Topology.dfy` the lists that set up
the chain, with Python's slice semantics.

**IVON.** `IvonModel.dfy` describes the optimizer on values, over the reals, with `randn` as an
abstract deterministic stream and `sqrt` as an abstract function that is positive on positive
arguments. `IvonOptimizer.dfy` is the class: flat arrays for parameters, momentum and Hessian,
accumulators allocated lazily, a generator object, loops with running offsets; every method is proved
to reach the state the value model describes. `IvonSlots.dfy` says where a parameter lies in the flat
buffers and in the noise stream; `IvonLaws.dfy` says in plain arithmetic what a sample and a
step do to one element; `IvonRuns.dfy`, `IvonFastPath.dfy`, `IvonSkips.dfy` and `IvonBounds.dfy` hold the
theorems about runs of `training_step`, for every number of samples per step.

**Checkpoint layout.** `PipelineShards.dfy` is the pipeline split, `Qkv.dfy` the packing, splitting
and tensor-parallel merging of fused attention weights (a tensor is its sequence of rows), and
`LayerNumbering.dfy` the renumbering of layers when state dicts are merged. `Tensors.dfy` has `cat`,
`view`, `split` and `chunk` on rows.

**Batches.** `BatchAlgebra.dfy`: pad, chunk, work, concatenate and unpad.

**Smaller cores.** `ZoomBox.dfy` is the repair of bounding boxes over the reals; its reference is a
single scale factor and a placement, and the code with its two scale-downs is proved equal to it.
`CoreLeases.dfy` is CPU-core leasing under the admission semaphore, with requests interleaved freely.

## Where code and promise differ

- `get_notification` reuses its parameter as a loop variable, so after a poll it waits for, and
  returns from, the queue of the last agent in the poll (`NixlAgent.RightNotification` has the exact
  condition). The chain is not affected, since only the next agent ever notifies.
- A bucket's metadata is a dict: if two weights of a bucket share a name, the first one is lost
  (`Packing.UnpackIffDistinct`).
- The topology works for two or more rollout workers; one is rejected (`Topology.BuildProcessGroup`).
- The pipeline search finds nothing for some sizes that can be split, such as five layers on four
  stages, and then fails with an index error instead of a message
  (`PipelineShards.GetDynamicPipelineShards`).
- A stage without layers still advances the layer counter by one, so numbers are skipped
  (`LayerNumbering.BijectionIffNoGap`).
- With buffers, IVON keeps the samples of skipped steps, so the next step averages them in; the fast
  path drops them (`IvonSkips.PathsAgreeIff` says exactly when that makes no difference). A step is
  skipped because a gradient is infinite or NaN, so the next step that is taken turns momentum and
  parameter of that element, and its Hessian unless frozen, into NaN (`IvonBounds.NotANumberIff`).
- The constructor of IVON admits beta1 == 1, for which the bias correction divides zero by zero: the
  first step turns the parameters of such a group into NaN (`IvonBounds.NotANumberIff`).
- `step()` counts the step before it checks the samples. Inside a sampled region it makes the noise
  permanent, except where it is refused: in the fast path, and in the buffered path when no sample is
  pending (`IvonRuns.StepInsideRegion`).
- A box that passes validation at an aspect ratio close to 100 can fail it after rounding
  (`ZoomBox.HundredToOne`; `ZoomBox.RepairIff` has the exact condition).
- The comment in `tmp_cpuset` gives the bound for max_concurrency as cores / cores_per_exec; the
  exact bound is the number of groups, which is one when there are fewer cores than that
  (`CoreLeases.PinnedIffBounded`).

## Model

| member | source | states |
|---|---|---|
| `RelayTheorems.DeliveredIff` | verl/verl/checkpoint_engine/nixl_checkpoint_engine.py:365-513 | a run of the chain that cannot go on has finished on every rank, left no message or notification over and yielded exactly rank 0's weights, in order, on every rollout rank, if and only if every weight fits a buffer and no bucket repeats a name |
| `RelayTheorems.EndToEnd` | verl/verl/checkpoint_engine/nixl_checkpoint_engine.py:365-513 | such a run has finished everywhere and every rollout rank has yielded what the buckets hold for a receiver if every weight fits; otherwise rank 0 has stopped at its size assertion |
| `RelayTheorems.ReceivableIff` | verl/verl/checkpoint_engine/nixl_checkpoint_engine.py:414-421 | that is the weights of rank 0 if and only if no bucket repeats a name, in particular when all names are distinct |
| `RelayTheorems.BufferSafety` | verl/verl/checkpoint_engine/nixl_checkpoint_engine.py:380-513 | in every run, for any chain length and any weights, also too large ones, no step changes a buffer that is offered to the successor and not acknowledged, and no read is directed into it, although two buffers are reused throughout |
| `RelayTheorems.ExposedIsFrozen` | verl/verl/checkpoint_engine/nixl_checkpoint_engine.py:393-421 | the same for one step from any state that satisfies the invariant |
| `RelayTheorems.NoDeadlock` | verl/verl/checkpoint_engine/nixl_checkpoint_engine.py:458-513 | every state that is not final has an enabled step, unless rank 0 has stopped at a weight that is too large |
| `RelayTheorems.StepProgresses` | verl/verl/checkpoint_engine/nixl_checkpoint_engine.py:458-513 | every step strictly increases the progress of the rank that takes it |
| `RelayTheorems.RunsTerminate` | verl/verl/checkpoint_engine/nixl_checkpoint_engine.py:365-513 | no run, of any configuration, is longer than a bound fixed by the weights, the buffer size and the chain length |
| `RelayTheorems.DeliversInOrder` | verl/verl/checkpoint_engine/nixl_checkpoint_engine.py:474-509 | at every moment of any run a rollout rank has yielded a prefix of what the buckets hold for a receiver, and all of it when it is done |
| `RelayTheorems.OneOutstanding` | verl/verl/checkpoint_engine/nixl_checkpoint_engine.py:160-203 | a link carries at most one message, notification or read, exactly while its sender has an outstanding offer; the message names the sender's own buffer and fresh key |
| `RelayTheorems.AckKeyMatches` | verl/verl/checkpoint_engine/nixl_checkpoint_engine.py:164-168 | the notification a rank consumes carries the key of its outstanding offer, so the assertion on the key holds |
| `RelayTheorems.AssertionsAre` | verl/verl/checkpoint_engine/nixl_checkpoint_engine.py:164-412 | exactly when an assertion stops a rank: a weight larger than the buffer, metadata without keys, a wrong notify key |
| `RelayTheorems.NoCrash` | verl/verl/checkpoint_engine/nixl_checkpoint_engine.py:164-211 | in any run, no assertion fails but the one of rank 0 on a weight that is too large |
| `RelayTheorems.WritesElsewhere` | verl/verl/checkpoint_engine/nixl_checkpoint_engine.py:405-421 | the buffer a rank writes is never the one it has exposed |
| `RelayTheorems.ProgressBound` | verl/verl/checkpoint_engine/nixl_checkpoint_engine.py:435-513 | the progress of a rank stays between 0 and its bound |
| `RelayInvariant.InitInv` | verl/verl/checkpoint_engine/nixl_checkpoint_engine.py:246-280 | the initial state satisfies the invariant |
| `RelayInvariant.StepInv` | verl/verl/checkpoint_engine/nixl_checkpoint_engine.py:380-513 | every step of every rank, one byte of a one-sided read included, keeps the invariant |
| `RelayInvariant.ReadIsWhole` | verl/verl/checkpoint_engine/nixl_checkpoint_engine.py:205-226 | once all bytes of a read have arrived, in any order and interleaved with other steps, the reader holds the bucket that was offered |
| `NixlAgent.Agent.ReadMessage` | verl/verl/checkpoint_engine/nixl_checkpoint_engine.py:122-126 | the message returned and the queues left are those of the specification Read; None stands for a call still waiting |
| `NixlAgent.Agent.GetNotification` | verl/verl/checkpoint_engine/nixl_checkpoint_engine.py:128-134 | the notification returned, the agent it came from and the queues left are those of the specification Get, with the shadowed loop variable |
| `NixlAgent.ReadIsFifo` | verl/verl/checkpoint_engine/nixl_checkpoint_engine.py:122-126 | a read returns the oldest undelivered message of the sender it was asked for and leaves the streams of all others alone |
| `NixlAgent.ReadsKeepOrder` | verl/verl/checkpoint_engine/nixl_checkpoint_engine.py:122-126 | however reads for different senders interleave, each sender's messages come out once and in order |
| `NixlAgent.GetIsFifo` | verl/verl/checkpoint_engine/nixl_checkpoint_engine.py:128-134 | no notification is lost or reordered: the one returned was the oldest of the agent it came from |
| `NixlAgent.RightNotification` | verl/verl/checkpoint_engine/nixl_checkpoint_engine.py:129-134 | the waiter gets a notification of the agent it asked for if and only if one was queued or that agent comes last in the first poll that brings anything |
| `NixlAgent.OnlyNotifier` | verl/verl/checkpoint_engine/nixl_checkpoint_engine.py:128-134 | with one notifier, as in the chain, the waiter gets that agent's notifications in order |
| `NixlAgent.TwoNotifiers` | verl/verl/checkpoint_engine/nixl_checkpoint_engine.py:131-134 | with two notifiers in one poll the waiter for the first is handed the key of the second |
| `Packing.GreedyLossless` | verl/verl/checkpoint_engine/nccl_checkpoint_engine.py:240-291 | concatenating the buckets gives the weights, in order |
| `Packing.GreedyFits` | verl/verl/checkpoint_engine/nccl_checkpoint_engine.py:244-267 | no bucket is larger than the buffer when every weight fits one |
| `Packing.GreedyIsMaximal` | verl/verl/checkpoint_engine/nccl_checkpoint_engine.py:240-263 | a bucket is closed only when the next weight does not fit it; with GreedyLossless that fixes the packing |
| `Packing.GreedyMinimal` | verl/verl/checkpoint_engine/nccl_checkpoint_engine.py:242-276 | no order-preserving packing into buffers of the same size uses fewer buckets |
| `Packing.LighterIsNoWorse` | verl/verl/checkpoint_engine/nccl_checkpoint_engine.py:242-276 | a fuller open bucket never leads to fewer buckets |
| `Packing.LayoutTiles` | verl/verl/checkpoint_engine/nccl_checkpoint_engine.py:269-276 | offsets tile the bucket: each entry starts where the bytes before it end |
| `Packing.ReadBack` | verl/verl/checkpoint_engine/nccl_checkpoint_engine.py:333-337 | the slice a receiver takes for a name is that weight |
| `Packing.UnpackIffDistinct` | verl/verl/checkpoint_engine/nccl_checkpoint_engine.py:349-353 | a bucket is recovered if and only if its names are distinct |
| `Packing.LayoutLength` | verl/verl/checkpoint_engine/nccl_checkpoint_engine.py:269-274 | the metadata dict has one entry per weight if and only if the names are distinct |
| `Packing.KeptIs` | verl/verl/checkpoint_engine/nccl_checkpoint_engine.py:269-275 | a receiver gets one weight per name, in the order of first occurrence, with the bytes of the last one |
| `Packing.KeptIffDistinct` | verl/verl/checkpoint_engine/nccl_checkpoint_engine.py:321-353 | over all buckets the receivers get the weights if and only if no bucket repeats a name |
| `Packing.BucketsDistinct` | verl/verl/checkpoint_engine/nccl_checkpoint_engine.py:242-274 | names distinct in the model are distinct in every bucket |
| `NcclEngine.Engine.constructor` | verl/verl/checkpoint_engine/nccl_checkpoint_engine.py:128-138 | two fresh separate buffers of the configured size |
| `NcclEngine.Engine.SendWeights` | verl/verl/checkpoint_engine/nccl_checkpoint_engine.py:236-292 | the packets carry the greedy buckets with their layouts; it fails if and only if some weight exceeds the buffer |
| `NcclEngine.Engine.ReceiveWeights` | verl/verl/checkpoint_engine/nccl_checkpoint_engine.py:301-353 | it yields what the packets unpack to, although the next packet lands in the other buffer meanwhile |
| `NcclEngine.Store` | verl/verl/checkpoint_engine/nccl_checkpoint_engine.py:275-275 | the slice of the buffer is replaced and the rest unchanged |
| `NcclEngine.BroadcastIsLossless` | verl/verl/checkpoint_engine/nccl_checkpoint_engine.py:222-353 | receivers get exactly what was sent if and only if no bucket repeats a name |
| `NcclEngine.Synchronise` | verl/verl/checkpoint_engine/nccl_checkpoint_engine.py:222-353 | a whole weight update: succeeds if and only if all weights fit, and then delivers them exactly when no bucket repeats a name |
| `Topology.BuildProcessGroup` | verl/verl/checkpoint_engine/base.py:326-351 | succeeds if and only if there are one or more trainers and two or more rollout workers; then every worker has the rank and neighbours of one chain; an index error if and only if there are no workers |
| `Topology.InitWorker` | verl/verl/checkpoint_engine/nixl_checkpoint_engine.py:301-341 | no assertion of init_process_group fails for any worker of an accepted topology |
| `Topology.Verdict` | verl/verl/checkpoint_engine/nixl_checkpoint_engine.py:283-299 | the lists exist and have the asserted lengths exactly for one or more trainers and two or more rollout workers |
| `Topology.ChainVisitsAll` | verl/verl/checkpoint_engine/nixl_checkpoint_engine.py:283-299 | next links from rank 0 reach every rollout worker once, in order, then end; prev links are the same links backwards |
| `Topology.ChainIs` | verl/verl/checkpoint_engine/nixl_checkpoint_engine.py:283-299 | every worker in full: rank, world size and neighbours of rank 0, of the other trainers, and of each rollout worker |
| `Topology.AcceptedIff` | verl/verl/checkpoint_engine/nixl_checkpoint_engine.py:312-325 | init_process_group accepts exactly a predecessor after rank 0 and a successor before the last rank |
| `Topology.NeighboursOf` | verl/verl/checkpoint_engine/nixl_checkpoint_engine.py:327-336 | the worker of rank k knows exactly ranks k - 1 and k + 1 |
| `Topology.OneRolloutIsRejected` | verl/verl/checkpoint_engine/nixl_checkpoint_engine.py:292-299 | with one rollout worker the next-agent slice is the whole metadata list, and the length check rejects it |
| `IvonOptimizer.Ivon.constructor` | ivon/ivon/_ivon.py:133-149 | the initial state: zero momentum, hess at hess_init, no sample |
| `IvonOptimizer.Ivon.LocalParams` | ivon/ivon/_ivon.py:214-225 | parameters in group order with their offsets within their groups |
| `IvonOptimizer.Ivon.SampleParams` | ivon/ivon/_ivon.py:326-342 | in place, parameter by parameter, it reaches the state that Sample describes |
| `IvonOptimizer.Ivon.NoiseOf` | ivon/ivon/_ivon.py:227-238 | the noise drawn for parameter k is the part of the whole noise vector that belongs to its elements |
| `IvonOptimizer.Ivon.RestoreParamAverage` | ivon/ivon/_ivon.py:253-297 | in place, it reaches the state that Restore describes, and the exact condition of both assertions |
| `IvonOptimizer.Ivon.CountSample` | ivon/ivon/_ivon.py:256-271 | the count, the lazy allocation and the two assertions |
| `IvonOptimizer.Ivon.TakeBackNoise` | ivon/ivon/_ivon.py:271-297 | the regenerated noise is subtracted and the accumulators take in the sample |
| `IvonOptimizer.Ivon.Step` | ivon/ivon/_ivon.py:299-314 | in place, it reaches the state that Step describes; the exact condition of every refusal, each of which still counts the step; the only divisor that can be zero is that of the bias correction, and the state notes it |
| `IvonOptimizer.Ivon.UpdatePass` | ivon/ivon/_ivon.py:368-432 | updating momentum, hess and parameters slice by slice gives the update of the whole vectors, also when noise is regenerated between the slices |
| `IvonOptimizer.Ivon.StatisticsOf` | ivon/ivon/_ivon.py:387-401 | the gradient statistics of one parameter, from p.grad and regenerated noise or from the accumulators |
| `IvonOptimizer.Ivon.ResetSamples` | ivon/ivon/_ivon.py:194-202 | count, accumulators and generator state are dropped, nothing else changes |
| `IvonOptimizer.TrainingStep` | verl/verl/trainer/fsdp_sft_trainer.py:464-489 | sample, backward at the sampled parameters, restore, then step or skip: the state that IvonModel.TrainingStep describes |
| `IvonOptimizer.NoiseIsLocal` | ivon/ivon/_ivon.py:395-397 | regenerating a slice of noise depends only on that slice of hess, so hess slices already updated do not disturb it |
| `IvonSlots.SlotAligned` | ivon/ivon/_ivon.py:214-225 | the running offset over all groups is the start of the group's buffer plus the offset within the group |
| `IvonSlots.RawAt` | ivon/ivon/_ivon.py:334-341 | the noise stream of a pass is the concatenation of one randn call per parameter, in order |
| `IvonRuns.SampleRestore` | ivon/ivon/_ivon.py:253-342 | restoring a sample gives the parameters back exactly, whether or not the sample is counted; the generator advances by one pass |
| `IvonRuns.EventEffect` | verl/verl/trainer/fsdp_sft_trainer.py:464-489 | a training step updates the unperturbed parameters from the exact means over its sample and the pending ones (in the fast path, its sample alone); a skipped step or an evaluation leaves parameters, momentum and hess alone; the accumulators hold the means of the samples still pending |
| `IvonRuns.RunsNeverFail` | ivon/ivon/_ivon.py:357-367 | in every run of training steps, skipped steps and evaluations no assertion and no count error occurs, in both modes |
| `IvonRuns.StepInsideRegion` | ivon/ivon/_ivon.py:194-202 | after step() inside a sampled region the exit works, and gives the parameters back, if and only if step() was refused: in the fast path, or in the buffered path with no pending sample and some parameter; otherwise the exit fails and the noise stays |
| `IvonLaws.StepLaw` | ivon/ivon/_ivon.py:375-426 | a step taken, in either path and every mode, element by element in plain arithmetic: momentum b1 * m + (1 - b1) * g, the Hessian with its quadratic correction, and a move of rate * pull / (h + wd) against the pull of unbiased momentum and decay, or of rate * clip_radius where that is smaller, all from the means over the pending samples |
| `IvonLaws.IsotropicIsSgd` | ivon/ivon/_ivon.py:109-112 | in the isotropic mode with rescaled rate and no clipping a whole run is momentum-SGD with weight decay at the plain learning rate, for every element that stays a number, and the Hessian stays hess_init |
| `IvonLaws.PerturbationLaw` | ivon/ivon/_ivon.py:227-238 | at any point of any run a sample moves an element that is a number by its normal draw over the square root of ess * (h + wd), h being hess_init in the isotropic mode |
| `IvonLaws.StatisticsLaw` | ivon/ivon/_ivon.py:277-294 | a sample contributes its gradient, and perturbation * gradient or gradient^2 |
| `IvonLaws.GradientAt` | ivon/ivon/_ivon.py:277-281 | which entry of which parameter's gradient an element has; a missing gradient is zero |
| `IvonLaws.SkipLaw` | verl/verl/trainer/fsdp_sft_trainer.py:475-489 | a training step takes its step if and only if all shards of the gradient are finite; otherwise parameters, momentum and hess stay |
| `IvonLaws.StepOnce` | ivon/ivon/_ivon.py:356-366 | a step uses its samples up: a second one is refused, with the error of its path, and changes only the step counter |
| `IvonLaws.RegionsNest` | ivon/ivon/_ivon.py:253-255 | sampling inside a region and leaving a region twice change nothing |
| `IvonLaws.MemoryLaw` | ivon/ivon/_ivon.py:31-42 | the fast path keeps no statistics; the buffered one the gradient's while samples are pending, and a second one only for the Hessian estimate in use |
| `IvonLaws.InitLaw` | ivon/ivon/_ivon.py:204-208 | zero momentum, hess at hess_init of the element's group, no sample, no step |
| `IvonFastPath.FastTrainingStep` | ivon/ivon/_ivon.py:356-432 | one training step of the single-sample path gives the same state as the buffered path |
| `IvonFastPath.FastPathRefinesBuffered` | ivon/ivon/_ivon.py:31-42 | the two paths agree over every run without skipped steps |
| `IvonFastPath.BuffersAreMeans` | ivon/ivon/_ivon.py:256-295 | after any samples without a step, evaluations in between, the accumulators are the exact means of grad, noise * grad and grad^2, each noise being the one its sample was taken with |
| `IvonFastPath.StepUsesMean` | ivon/ivon/_ivon.py:398-426 | the whole state after a step: parameters, momentum and hess updated from the means over all samples since the last step, in the fast path from the last one |
| `IvonFastPath.SkippedSamplesCount` | ivon/ivon/_ivon.py:329-333 | after any number of skipped steps the fast path updates from the last sample, the buffered path from the means over all of them, which hold no number exactly where some skipped gradient was infinite or NaN |
| `IvonSkips.PathsAgreeIff` | ivon/ivon/_ivon.py:329-333 | the two paths then agree, in their numbers and in where they hold none, if and only if for every element that was a number no skipped gradient was infinite or NaN, the last gradient is the mean or beta1 is 1, and the two curvature estimates are equal, have no weight or mirror each other |
| `IvonSkips.SkippedStepsCount` | ivon/ivon/_ivon.py:329-333 | for any number of skipped steps, the momenta of an element that was a number agree if and only if no skipped gradient was infinite or NaN there and beta1 is 1 or the last gradient is the mean of all since the last step taken; both momenta are given |
| `IvonSkips.OneSkippedStep` | ivon/ivon/_ivon.py:329-333 | for one skipped step, if and only if the skipped gradient is finite there, as when another shard caused the skip, and beta1 is 1 or the two gradients are equal |
| `IvonSkips.UpdatesDiffer` | ivon/ivon/_ivon.py:403-426 | two sets of statistics give updates that agree if and only if every element was lost before, or is infinite or NaN in both, or is finite in both and gets the same momentum and hess |
| `IvonSkips.CorrectedDiffer` | ivon/ivon/_ivon.py:409-417 | two curvature estimates give the same hess if and only if they are equal, beta2 is 1, or they mirror each other around the turning point |
| `IvonBounds.HessianHalves` | ivon/ivon/_ivon.py:409-417 | one update at most halves hess + weight_decay, for any gradient and noise |
| `IvonBounds.SquareComplete` | ivon/ivon/_ivon.py:415-417 | the new hess + weight_decay is ((s + x)^2 + s^2) / (2s) |
| `IvonBounds.HessianStaysPositive` | ivon/ivon/_ivon.py:204-238 | over any run hess + weight_decay of an element that is still a number is at least (hess_init + weight_decay) / 2^steps, so square-root arguments and divisors are positive |
| `IvonBounds.DebiasPositive` | ivon/ivon/_ivon.py:375-375 | the divisor 1 - beta1^t is positive if and only if beta1 is below one |
| `IvonBounds.NotANumberIff` | ivon/ivon/_ivon.py:277-421 | in a run an element of the momentum becomes NaN if and only if, in the buffered path, a training step had an infinite or NaN gradient there, so that it was skipped, and a later step was taken; an element of the parameters does so with it, or by a step with bias correction and a beta1 of one |
| `IvonSlots.HoleAt` | ivon/ivon/_ivon.py:277-281 | an element counts as infinite or NaN exactly if the entry of its parameter's gradient is; a missing gradient is zero |
| `IvonBounds.DebiasedMomentumIsMean` | ivon/ivon/_ivon.py:387-421 | in both paths the momentum of an element that is still a number is a weighted sum of all past step gradients with weights adding up to 1 - beta1^t; divided by that, it is bounded by the largest step gradient, and step gradients by the largest gradient of any training step |
| `IvonBounds.RunMoves` | ivon/ivon/_ivon.py:419-426 | over a run a parameter element that stays a number moves at most lr_eff * clip_radius per step taken |
| `PipelineShards.GetDynamicPipelineShards` | verl/verl/model_merger/megatron_model_merger.py:57-98 | the exact error for bad sizes; otherwise, for three stages or more, it returns exactly when layers - ceil(layers / stages) * (stages - 2) >= 2, and then a split into positive shards with largest shard ceil(layers / stages), every middle shard of that size and the last one equal to the first or one larger |
| `PipelineShards.EvenIsUnique` | verl/verl/model_merger/megatron_model_merger.py:57-98 | only one list meets these conditions |
| `PipelineShards.Candidates` | verl/verl/model_merger/megatron_model_merger.py:81-93 | the candidates are splits, one for every feasible middle size, in order; in each the last stage equals the first or has one layer more, and the difference is what the first lacks to the middle size |
| `PipelineShards.SortedFirst` | verl/verl/model_merger/megatron_model_merger.py:95-96 | the index of the first candidate with the least difference |
| `PipelineShards.FeasibleIff` | verl/verl/model_merger/megatron_model_merger.py:84-87 | a middle size passes the test if and only if it is at least the even share and leaves two layers or more for the ends |
| `PipelineShards.CandidateIsSplit` | verl/verl/model_merger/megatron_model_merger.py:88-93 | a candidate is a split of all layers whose largest shard is the middle size; the odd layer goes to the last stage |
| `PipelineShards.EvenShareIsLeast` | verl/verl/model_merger/megatron_model_merger.py:60-66 | no split has a smaller largest shard than ceil(layers / stages) |
| `PipelineShards.FiveLayersOnFourStages` | verl/verl/model_merger/megatron_model_merger.py:83-96 | five layers on four stages can be split, but no candidate passes the test |
| `Qkv.PackedAt` | verl/scripts/converter_hf_to_mcore.py:155-161 | where every row goes: group after group, in each the rows of q, then of k, then of v |
| `Qkv.SplitInvertsPack` | verl/scripts/converter_hf_to_mcore.py:155-161 | splitting the packed rows returns q, k and v, for all head counts with kv heads dividing heads |
| `Qkv.MergeIsSplit` | verl/scripts/legacy_model_merger.py:530-558 | when the tensor-parallel size divides the kv heads, merging the row shards equals splitting the unsharded tensor |
| `Qkv.MergeInvertsPack` | verl/scripts/converter_hf_to_mcore.py:155-161 | packing q, k and v, sharding the fused rows evenly and merging the shards as the legacy merger does returns q, k and v |
| `Qkv.SplitsIff` | verl/verl/model_merger/megatron_model_merger.py:333-352 | splitting succeeds if and only if the row count is that of a fused tensor |
| `Qkv.SplitQkv` | verl/verl/model_merger/megatron_model_merger.py:330-354 | the loop computes Split, and fails exactly when Split is undefined, with the exact condition of each error |
| `Qkv.MergeAcrossTp` | verl/scripts/legacy_model_merger.py:530-558 | for any shards, also of unequal length, the nested loops compute Merge, and fail exactly when Merge is undefined, with the exact condition of each error |
| `Qkv.SplitOfBlocks` | verl/verl/model_merger/megatron_model_merger.py:339-352 | a tensor with the rows of a fused one splits into its blocks if and only if its groups have equal shares |
| `Qkv.FirstChunkMismatch` | verl/verl/model_merger/megatron_model_merger.py:343-349 | with unequal shares already the first chunk has the wrong number of rows for the split |
| `Qkv.ShardedBlocks` | verl/scripts/legacy_model_merger.py:542-549 | the blocks of the row shards are the blocks of the tensor |
| `Tensors.EvenChunks` | verl/scripts/legacy_model_merger.py:544-544 | chunking an even number of rows gives blocks of equal size |
| `LayerNumbering.BijectionIffNoGap` | verl/scripts/legacy_model_merger.py:609-657 | the renumbering maps (stage, layer) one to one onto 0 .. total - 1 if and only if no empty stage comes before a non-empty one |
| `LayerNumbering.MergeStage` | verl/scripts/legacy_model_merger.py:620-657 | the loop over the keys of a stage renames and stores every entry and finds the largest local layer number |
| `LayerNumbering.MergeStateDicts` | verl/scripts/legacy_model_merger.py:612-659 | for complete stages with distinct names the merged dict holds every layer entry under its global number with its value, every other entry under its own name, and nothing else; without a gap the layer numbers are exactly 0 .. total - 1 |
| `LayerNumbering.MergedIsRenumbering` | verl/scripts/legacy_model_merger.py:609-659 | the same for the stages in any given order |
| `LayerNumbering.OrderAt` | verl/scripts/legacy_model_merger.py:615-618 | the stages are visited virtual stage by virtual stage, in each by pipeline rank |
| `LayerNumbering.StartOfSizes` | verl/scripts/legacy_model_merger.py:614-657 | the running counter is the sum of the stage sizes, an empty stage counting as one |
| `LayerNumbering.NothingLost` | verl/scripts/legacy_model_merger.py:633-651 | under its new name an entry has the value of the last stage that writes it: a layer's entry is never overwritten, another one exactly by a later stage with the same name |
| `LayerNumbering.NothingAdded` | verl/scripts/legacy_model_merger.py:633-651 | every entry of the merged dict comes from a stage |
| `LayerNumbering.RankStart` | verl/verl/model_merger/megatron_model_merger.py:361-363 | the start from the cumulative shards equals the running counter if and only if no earlier shard is empty |
| `BatchAlgebra.PadToDivisor` | verl/verl/protocol.py:73-98 | the padded batch starts with the data, goes on reading it round and round, and has the least multiple of the divisor as length |
| `BatchAlgebra.PadRows` | verl/verl/protocol.py:86-92 | the padding loop ends with the requested number of rows, row i being row i mod n of the data |
| `BatchAlgebra.UnpadIs` | verl/verl/protocol.py:101-105 | unpadding drops the last rows, or all if there are fewer |
| `BatchAlgebra.ChunkConcat` | verl/verl/protocol.py:876-915 | exactly an even batch is cut, into the requested number of equal chunks that concatenate to it |
| `BatchAlgebra.SplitConcat` | verl/verl/protocol.py:917-926 | split pieces concatenate to the batch, and all but the last have the requested size |
| `BatchAlgebra.MapCat` | verl/verl/protocol.py:928-943 | concatenating the results of row-wise workers is the row-wise worker on the concatenation |
| `BatchAlgebra.Distribute` | verl/verl/protocol.py:73-105 | pad, chunk, work, concatenate and unpad equals local execution, for every row-wise worker and every number of workers |
| `Tensors.ChunkCount` | verl/verl/protocol.py:885-895 | chunking gives the requested number of chunks if and only if the rows reach into the last one |
| `BatchAlgebra.FiveRowsInFourChunks` | verl/verl/protocol.py:885-895 | without the length assertion five rows in four chunks give fewer than four |
| `ZoomBox.MaybeResizeBBox` | verl/verl/tools/image_zoom_in_tool.py:205-297 | the step-by-step code computes the reference Repair |
| `ZoomBox.TargetSize` | verl/verl/tools/image_zoom_in_tool.py:242-257 | the two successive scale-downs scale both sides by the least of 28 / short side, image width / width and image height / height |
| `ZoomBox.ResizeBBox` | verl/verl/tools/image_zoom_in_tool.py:235-279 | centring, shifting and rounding give the rounded enlarged box |
| `ZoomBox.ValidateBBox` | verl/verl/tools/image_zoom_in_tool.py:181-200 | valid if and only if non-empty and at most 100 times as long as wide |
| `ZoomBox.ClampIsIntersection` | verl/verl/tools/image_zoom_in_tool.py:218-222 | clamping keeps exactly the points of the box that lie in the image |
| `ZoomBox.LargeIsKept` | verl/verl/tools/image_zoom_in_tool.py:218-233 | a box whose part in the image is large enough is cut to that part; one inside the image is returned as it is |
| `ZoomBox.RepairGrows` | verl/verl/tools/image_zoom_in_tool.py:235-285 | otherwise the result is the least integer box around one of the same shape, as central as the image allows, whose short side is 28 unless a side fills the image first |
| `ZoomBox.RepairSound` | verl/verl/tools/image_zoom_in_tool.py:205-297 | every repaired box lies in the image, contains every point of the input that does, has floored sides of at least 28 and aspect ratio at most 100 |
| `ZoomBox.RepairTwice` | verl/verl/tools/image_zoom_in_tool.py:205-297 | repairing a repaired box changes nothing |
| `ZoomBox.RepairIff` | verl/verl/tools/image_zoom_in_tool.py:205-297 | a box is repaired if and only if the clamped box is valid and its short side is at least 28, or the image is at least 28 along it and: if the long side can grow in proportion, not exactly 28 against more than 2800 pixels; if the image stops it, at least 28 pixels along both sides |
| `ZoomBox.RepairSucceeds` | verl/verl/tools/image_zoom_in_tool.py:232-297 | a valid box is repaired if its sides are long enough, or if the enlarged box fits and the aspect ratio is at most 2798 / 28 |
| `ZoomBox.OnlyShapeCanFail` | verl/verl/tools/image_zoom_in_tool.py:281-295 | when the enlarged box fits, it is repaired if and only if the rounded box is at most 100 times as long as wide |
| `ZoomBox.HundredToOne` | verl/verl/tools/image_zoom_in_tool.py:279-285 | a valid box of aspect ratio 100 whose enlargement fits, and which is rejected after rounding |
| `CoreLeases.CoreGroups` | SandboxFusion/sandbox/runners/isolation.py:955-960 | the groups are disjoint and made of the process's cores in order: floor(cores / n) full groups, or one short group |
| `CoreLeases.Server.AcquireSlot` | SandboxFusion/sandbox/server/sandbox_api.py:51-86 | no limit, no permit; a timeout raises 503 and takes nothing; otherwise one permit is taken |
| `CoreLeases.Server.ReleaseSlot` | SandboxFusion/sandbox/server/sandbox_api.py:261-263 | a permit goes back exactly if one was taken |
| `CoreLeases.Server.EnterCpuset` | SandboxFusion/sandbox/runners/isolation.py:974-978 | the last free group is leased, or none when none is free |
| `CoreLeases.Server.ExitCpuset` | SandboxFusion/sandbox/runners/isolation.py:981-984 | a leased group goes back |
| `CoreLeases.StepInv` | SandboxFusion/sandbox/runners/isolation.py:974-984 | every step of every request keeps groups and permits: free and leased groups together are the initial ones, free and held permits add up to the maximum |
| `CoreLeases.LeasesNeverOverlap` | SandboxFusion/sandbox/runners/isolation.py:963-984 | in every interleaving, executions that run at the same time share no core |
| `CoreLeases.PinnedIffBounded` | SandboxFusion/sandbox/runners/isolation.py:967-972 | no execution runs unpinned in any run if and only if 0 < max_concurrency <= number of groups |
| `CoreLeases.RejectsIff` | SandboxFusion/sandbox/server/sandbox_api.py:51-86 | a request is turned away in some run if and only if concurrency is limited and there is a queue timeout |
| `CoreLeases.AllReturned` | SandboxFusion/sandbox/server/sandbox_api.py:244-263 | when all requests are answered or rejected, every group and every permit is back |
| `CoreLeases.NeverStuck` | SandboxFusion/sandbox/server/sandbox_api.py:244-263 | an admitted request can always go on until it has answered |

## Left out

- ZeroMQ, NIXL, NCCL, Ray and CUDA calls: queues are reliable and first-in first-out, a transfer completes, a broadcast reaches every rank; addresses, timing and bandwidth logs are dropped.
- Transfer errors and process exit in ReadOperation.wait_for_complete: a transfer always completes.
- The NIXL send and receive loops are steps of a state machine on values, not methods over arrays, because the ranks interleave; the same packing loop in place is NcclEngine.Engine.SendWeights.
- A notify key, a uuid4, is the pair of rank and number of the offer.
- Reading the metadata and starting the read are one step of the chain, since nothing happens between them that another rank can see.
- Infinities and NaN as values: vectors are real, and the sets holes, lost and nan of the state say which elements of accumulators, momentum and parameters are no numbers; the reals stored there mean nothing. An infinity counts as NaN; only a step() called by hand on samples that are not finite could tell them apart, training_step always adds a finite sample first, and infinity plus (x - infinity) / k is NaN.
- Floating point, dtypes and casts in IVON; DTensor placement; sync=True and its all-reduce; closures; parameters that are None.
- Hyperparameter schedules of IVON: lr, ess and the others are constant in a run; mc_samples matters only through the choice of the path.
- The buffers of all IVON groups lie side by side in one array per quantity instead of one tensor per group and one per parameter.
- Micro-batches, loss and gradient norm in training_step: backward is an arbitrary function of the sampled parameters, and the norm is finite if all entries of the local gradient are and an arbitrary predicate, for the other shards, holds.
- The gate_up chunk, expert names, name mapping and tie_word_embedding in the mergers; a state dict is a sequence of names and values, and a fused tensor one value in LayerNumbering.
- Columns of a DataProto and its meta_info: a batch is a sequence of rows; repeat, slice, reorder, fold_batch_dim and unfold_batch_dim are plain index maps and add nothing harder.
- ZoomBox.RepairSucceeds: one direction, a bound on the aspect ratio that is easy to check; ZoomBox.RepairIff is the exact condition.
- Waiting requests in CoreLeases are disabled steps; the order in which the semaphore wakes them is not modelled, nor a permit lost by cancelling asyncio.wait_for.
- update_weights and the other phases of CheckpointEngineManager, hccl_checkpoint_engine.py (the same algorithm as NCCL), sandbox isolation other than core leases, and everything that is I/O.
