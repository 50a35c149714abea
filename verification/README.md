# A verified model of InfiniTrain

InfiniTrain is a C++ training framework. This project models its hardest parts in Dafny and proves what
their code and documentation promise. `dafny verify dfyconfig.toml` checks everything.

What is modelled, file by file:

- **Autograd engine** (`AutogradMachine`, `AutogradRuns`, `AutogradHistory`, `AutogradPasses`, `Autograd`,
  `ApplyInARow`, `BackwardPass`, `EarlyFiring`). The machine has one message per recorded edge; a step
  delivers one. The objects of `Autograd` (functions with their counters, tensors with grad, accumulator and
  overwrite flag) are proved to follow it: `Apply` is a history of building steps, the recursion of `BackwardPartial` one schedule of deliveries. Gradients
  are values of any type with a commutative, associative addition (`GradientSums`); an operator's backward
  map is arbitrary.
- **Learning-rate schedulers** (`LRForms`, `LRTrees`, `LRSchedules`, `LRState`, `LRLoading`, `LRScheduler`,
  `TrainingScheduler`). Rates are exact reals. `LRForms` relates chained and closed forms, `LRTrees` gives the
  runs of scheduler trees, `LRSchedules` the rates in figures, `LRState` and `LRLoading` the flat state
  dictionary; the objects of `LRScheduler` and `TrainingScheduler` are proved against them.
- **MD5** (`MD5`, `MD5Stream`, `MD5Vectors`). `MD5` states sections 3.1 to 3.5 of RFC 1321 on whole messages,
  `MD5Stream` holds the buffering class, `MD5Vectors` the digest of a test message of section A.5.
- **FP16 and BF16 conversions** (`Rounding`, `HalfFloats`). Bits are natural numbers: shifts are divisions,
  masks remainders, and the "or" of disjoint fields a sum.
- **Matrix product, linear layer, LoRA** (`Matmul`, `LoRA`), **transpose, broadcasting, gather** for any rank
  (`NdIndex`, `Transpose`, `Broadcast`, `Gather`), on flat buffers of exact reals (`RealSums`, `RealFacts`).
- **ProcessGroupFactory::GetOrCreate** (`GroupFactory`) as a state machine over threads.
- **Checkpoint files** (`Widths`, `Decimals`, `TrainerStateFile`, `Codec`, `StateValues`, `CheckpointFiles`,
  `FileBytes`, `SchedulerFiles`), the **distributed data loader** (`DataLoader`) and the **tensor-parallel
  model readers** (`Shards`, `CheckpointLoader`, `HeldParts`, `GPT2Loader`, `LLaMA3Loader`), down to what the
  linear layers of all ranks compute together.

Where code and documentation or expectation differ, the model follows the code:

- `ConstantLR` with no iterations: the chained form scales the rate at step 0 and never undoes it, while the
  closed form never scales it (`LRForms.ChainedIsClosedExactlyWhen`, `LRForms.ConstantForNoStepsDiffers`).
- A SequentialLR inside another: the initial steps of the inner one's children are undone once too often, and
  the run begins with the rate of step -1 (`LRSchedules.NestedStartsEarly`).
- `FloatToBf16Bits` has no NaN branch; some NaNs become infinities or zeros (`HalfFloats.Bf16NaNExactlyWhen`,
  `HalfFloats.Bf16LosesNaN`).
- Gathering from an empty dimension: clamping gives index -1 (`Gather.InBoundsExactlyWhen`,
  `Gather.EmptyDimensionReadsBefore`).
- A rank beyond the number of batches starts past the end of the data loader
  (`DataLoader.FirstBatchEmptyExactlyWhen`, `DataLoader.RankBeyondGetsNothing`).
- The CHECK of `BinaryForward` only compares element counts, which does not keep the offsets inside b
  (`Broadcast.CheckIsNotEnough`). They stay inside exactly when the one at the last index of a does
  (`Broadcast.ReadsInsideExactlyWhen`), and all of them meet an index of b exactly when no dimension of b other
  than 1 is shorter than that of a (`Broadcast.MeetsIndicesExactlyWhen`).
- The GPT-2 loader does not take n_kv_head from the file, and the CHECK that it equals n_head then accepts
  twelve heads only; the larger models that example/gpt2/main.cc:134-136 lists have more
  (`GPT2Loader.MediumIsRejected`). In the same way the LLaMA 3 loader accepts no vocabulary below the default
  original_vocab_size of 128256 (`LLaMA3Loader.SmallVocabularyIsRejected`).
- A call of `Tensor.Backward` on a tensor whose function has any recorded consumer that has not delivered: the
  counters take it for a consumer, and a function with one output fires one consumer early
  (`EarlyFirings.FiresEarlyExactlyWhen`, `EarlyFirings.FirstFiresEarly`). The gradient of that consumer is lost
  or ends in a failing CHECK_EQ (`EarlyFirings.LastConsumerIsLost`).

## Model

| member | source | states |
|---|---|---|
| `AutogradMachine.DeliverKeepsInv` | infini_train/src/autograd/function.cc:257-334 | delivering any message that is on its way keeps the engine's invariant: at every function waiting, the stored gradients and both counters describe exactly the gradients that have arrived out of the recorded consumers, and every leaf's balance (its grad plus what its accumulator holds) is its base plus all gradients sent to it |
| `AutogradMachine.ReadyHasEverything` | infini_train/src/autograd/function.cc:273-275 | when the two counters agree with the arriving gradient counted, no recorded edge into the function is undelivered: a function never fires early |
| `AutogradRuns.SchedulesAreBounded` | infini_train/src/autograd/function.cc:257-334 | every order of deliveries ends: it is no longer than the number of recorded edges not yet served |
| `AutogradRuns.FiresAtMostOnceAfterConsumers` | infini_train/src/autograd/function.cc:273-333 | a function that has fired fired once, and all functions that consume it fired before it |
| `AutogradRuns.ServedNodeFires` | infini_train/src/autograd/function.cc:273-275 | a function whose consumers have all fired has fired, once no call is outstanding |
| `AutogradRuns.EveryReachableFunctionFires` | infini_train/src/autograd/function.cc:257-334 | once the root has fired and nothing is outstanding, every function reachable from it along recorded edges has fired, provided the consumers of reachable functions are reachable and every differentiable output is consumed |
| `AutogradRuns.OnlyReachableFunctionsFire` | infini_train/src/autograd/function.cc:257-334 | a pass fires no function that is not reachable from where its gradients were heading |
| `AutogradRuns.SeedFiresExactlyWhen` | infini_train/src/autograd/function.cc:273-275 | a gradient handed from outside to a function that waits fires it if and only if its other outputs are covered and it has no recorded consumer or exactly one that has not delivered: the counters cannot tell the two apart |
| `AutogradRuns.SingleOutputSeedFires` | infini_train/src/autograd/function.cc:273-275 | with a single output it fires if and only if at most one recorded consumer has not delivered; with one it fires before that consumer |
| `EarlyFirings.FiresAfterAsMany` | infini_train/src/autograd/function.cc:263-275 | a function with one output that waits for recorded consumers fires after exactly as many gradients as consumers have not delivered, wherever they come from |
| `EarlyFirings.FiresEarlyExactlyWhen` | infini_train/src/autograd/function.cc:263-275 | so it fires before some recorded consumer if and only if a gradient came from outside, and as many consumers are then missing as did |
| `EarlyFirings.FirstFiresEarly` | infini_train/src/autograd/function.cc:273-275 | two operators in a row: Backward called on the tensor between them fires the first before the second has delivered |
| `EarlyFirings.LateOneByOne` | infini_train/src/autograd/function.cc:263-272 | a delivery to a function that has fired makes one slot anew; one to an output other than the first throws |
| `EarlyFirings.FiresAgainExactlyWhen` | infini_train/src/autograd/function.cc:263-275 | late deliveries make it fire again if and only if there are as many of them as recorded consumers |
| `EarlyFirings.SecondFiringFails` | infini_train/src/autograd/function.cc:303-332 | the second firing fails its CHECK_EQ: the operator answers at least one gradient and the edges are gone |
| `EarlyFirings.LastConsumerIsLost` | infini_train/src/autograd/function.cc:263-332 | with one gradient from outside exactly one consumer is missing, and its gradient is lost or, if it is the only recorded one, ends in the failing CHECK_EQ |
| `AutogradPasses.BackwardFiresTheReachable` | infini_train/src/tensor.cc:526-541 | a backward pass from a tensor fires a function if and only if the function is reachable from the tensor's and had not fired before |
| `AutogradRuns.FiredOnTotal` | infini_train/src/autograd/function.cc:266-288 | every fired function ran its Backward on exactly its reverse-mode total: per output, the sum over consuming edges of what the consumer's backward map makes of the consumer's own total |
| `AutogradRuns.LeafHoldsItsTotal` | infini_train/src/autograd/accumulate.cc:27-65 | over any history, whenever no recorded edge into a leaf is undelivered and no overwrite is pending, its grad is its base plus the sum of what all its edges carry |
| `AutogradRuns.AccumulatorIsEmpty` | infini_train/src/autograd/accumulate.cc:27-65 | in that situation the leaf's accumulator holds nothing and has no recorded edge |
| `AutogradRuns.DroppedAccumulatorIsServed` | infini_train/src/autograd/accumulate.cc:64-64 | an accumulator that its leaf has dropped has no outstanding edge |
| `AutogradRuns.ScheduleDoesNotMatter` | infini_train/src/autograd/function.cc:313-331 | visiting leaf edges first does not matter: any two complete orders of delivery deliver the same gradients, leave the same leaves and fire the same functions |
| `AutogradRuns.FiredFunctionAnswers` | infini_train/src/autograd/function.cc:303-303 | a fired function has one result per recorded edge and a real gradient on every edge that leads somewhere |
| `AutogradRuns.EdgeCanBeServed` | infini_train/src/autograd/function.cc:304-331 | in both passes over the edges, in spite of the nested calls made so far, the edge the loop has come to is still outstanding and leads to a function created earlier |
| `AutogradRuns.PassesCompose` | infini_train/src/autograd/function.cc:320-332 | the leaf pass and the other pass together serve every edge of the function, none twice |
| `AutogradRuns.LeafEdgesGoFirst` | infini_train/src/autograd/function.cc:320-331 | so in the deliveries of a firing every edge to a leaf's accumulator comes before every other edge of the function |
| `AutogradHistory.HistoryKeepsInv` | infini_train/src/autograd/function.cc:142-334 | any interleaving of Apply on outputs still waiting, backward passes, new leaves and writes to grad or overwrite flag keeps the invariant, with any number of graphs alive on shared leaves |
| `AutogradHistory.InitialInv` | infini_train/src/autograd/function.cc:142-334 | the invariant holds before anything is recorded |
| `AutogradHistory.NewFunctionKeepsInv` | infini_train/src/autograd/function.cc:214-225 | starting Apply with the non-differentiable outputs counted as reached keeps the invariant |
| `AutogradHistory.NewEdgeKeepsInv` | infini_train/src/autograd/function.cc:232-243 | recording an edge and counting it at its target keeps the invariant |
| `AutogradHistory.NewAccumulatorKeepsInv` | infini_train/src/tensor.cc:543-557 | creating a leaf's accumulator keeps the invariant |
| `AutogradHistory.WriteLeafKeepsInv` | infini_train/src/tensor.cc:508-518 | writing grad or the overwrite flag from outside starts a new base for a leaf and keeps the invariant |
| `AutogradHistory.NewSeedKeepsInv` | infini_train/src/tensor.cc:526-541 | handing a gradient to a root keeps the invariant |
| `AutogradHistory.RecordedOffers` | infini_train/src/autograd/function.cc:249-254 | after Apply every differentiable output is a source that waits, at its own index, and all earlier sources still wait |
| `AutogradHistory.WrittenBase` | infini_train/src/tensor.cc:508-518 | after a write from outside the leaf's base is the grad written, or nothing if an overwrite is pending |
| `Autograd.Tensor.ZeroGrad` | infini_train/src/tensor.cc:508-516 | grad is dropped or set to zero when present; the leaf's history starts afresh from it |
| `Autograd.Tensor.MarkGradOverwriteOnNextAccum` | infini_train/src/tensor.cc:518-518 | the flag is set and the grad stays, so that the next flush will replace it |
| `Autograd.Tensor.ConsumeGradOverwriteFlag` | infini_train/src/tensor.cc:520-524 | returns the flag and clears it |
| `Autograd.Tensor.GradAccumulator` | infini_train/src/tensor.cc:543-557 | None without requires_grad; otherwise the cached accumulator, created on demand |
| `Autograd.Tensor.ResetAccumulator` | infini_train/src/tensor.cc:559-563 | forgets the accumulator |
| `Autograd.Tensor.Backward` | infini_train/src/tensor.cc:526-541 | is a complete run of the machine on the seeded graph: what was outstanding before is outstanding after, nothing else |
| `BackwardPasses.BackwardPass` | infini_train/src/tensor.cc:526-541 | a whole call on the objects: exactly the functions that the root reaches fire, once, after their consumers, on their reverse-mode totals, and let go of their gradients; and every leaf that waits for nothing holds its base plus the sum of what its edges carry |
| `Autograd.Function.IncreaseDependenciesNumber` | infini_train/src/autograd/function.cc:336-336 | one more consumer counted |
| `Autograd.Function.ClassifyOutputs` | infini_train/src/autograd/function.cc:211-225 | which outputs are differentiable, and the others counted as reached |
| `Autograd.Function.Link` | infini_train/src/autograd/function.cc:235-240 | the edge is appended and counted at its target, on the objects as in the machine |
| `Autograd.Function.Apply` | infini_train/src/autograd/function.cc:206-255 | records one edge per input (leaf accumulators, producers, or nothing) as a history of the machine; every differentiable output comes from this function at its own index and waits there for a later Apply, and every source that waited still does; without a differentiable output or with gradients off nothing is recorded |
| `AutogradChains.SplitAndConsume` | infini_train/src/autograd/function.cc:232-254 | an Apply with two differentiable outputs and one Apply on each: the later functions get the edges (f, 0) and (f, 1) |
| `AutogradChains.ReadOutput` | infini_train/src/autograd/function.cc:232-254 | an Apply on output k of a recorded function gets the one edge to that function at k |
| `AutogradChains.ReadLeaf` | infini_train/src/tensor.cc:543-557 | an Apply on a leaf gets the one edge to the accumulator of that leaf |
| `Autograd.Function.AccumulateBackward` | infini_train/src/autograd/accumulate.cc:27-65 | set, add or overwrite the leaf's grad, consume the flag, drop the accumulator |
| `Autograd.Function.Count` | infini_train/src/autograd/function.cc:263-273 | store or add the arriving gradient in place and count it |
| `Autograd.Function.Receive` | infini_train/src/autograd/function.cc:263-301 | the activation up to its recursive calls is one delivery of the machine |
| `Autograd.Function.PropagatePass` | infini_train/src/autograd/function.cc:304-331 | one of the two loops is a pass over exactly its kind of edges, through all nested calls |
| `Autograd.Function.Propagate` | infini_train/src/autograd/function.cc:320-332 | both loops serve every edge of the function, those to leaves before all others, and the edges are forgotten |
| `Autograd.Function.BackwardPartial` | infini_train/src/autograd/function.cc:257-334 | the re-entrant recursion is a schedule of the machine, terminates, and leaves nothing outstanding but what was before, minus the message it was called for |
| `LRForms.LinearNeverDividesByZero` | infini_train/src/lr_scheduler.cc:219-238 | neither denominator of LinearLR's chained form is zero at any step |
| `LRForms.ChainedFollowsClosed` | infini_train/src/lr_scheduler.cc:164-238 | one chained step from the closed form of the step before gives the closed form of this step, for every flat scheduler |
| `LRForms.RunFollowsClosed` | infini_train/src/lr_scheduler.cc:164-238 | the chained form equals the closed form at every step from the base rate |
| `LRForms.ChainedIsClosedExactlyWhen` | infini_train/src/lr_scheduler.cc:158-178 | they agree at every step if and only if the scheduler is not a ConstantLR with total_iters < 1 and factor other than 1, or the base rate is 0 |
| `LRForms.ConstantForNoStepsDiffers` | infini_train/src/lr_scheduler.cc:164-176 | factor 1/2, no iterations, base rate 1: at step 0 the chained form gives 1/2 and the closed form 1 |
| `LRTrees.ActiveIsUpperBound` | infini_train/src/lr_scheduler.cc:291-295 | the index chosen separates the milestones reached from those to come |
| `LRTrees.SequentialSchedule` | infini_train/src/lr_scheduler.cc:291-302 | after any number of steps the rate of a flat SequentialLR with first milestone above 0 is the closed form of the child in charge at its own step count, which is that child's last_step_ |
| `LRTrees.SequentialFromCreation` | infini_train/src/lr_scheduler.cc:272-302 | the same from creation, with the undone initial steps of the children: the closed form of child i at n - m(i-1) |
| `LRTrees.ChainedSchedule` | infini_train/src/lr_scheduler.cc:354-359 | after n steps a ChainedScheduler over scaling children has rate base times the product of their factors at n |
| `LRTrees.ChainedFromCreation` | infini_train/src/lr_scheduler.cc:354-359 | the same from the creation of the children and of the composite |
| `LRTrees.ProductAnyOrder` | infini_train/src/lr_scheduler.cc:356-359 | the product does not depend on the order of the children |
| `LRSchedules.LambdaSchedule` | infini_train/src/lr_scheduler.cc:245-245 | n steps after creation at base rate b a LambdaLR has rate b f(n) and last_step_ n |
| `LRSchedules.StepSchedule` | infini_train/src/lr_scheduler.cc:186-197 | a StepLR has rate b gamma^(n / step_size) |
| `LRSchedules.LinearSchedule` | infini_train/src/lr_scheduler.cc:210-238 | a LinearLR has rate b (start + (end - start) n / total) before total and b end from there |
| `LRSchedules.ConstantSchedule` | infini_train/src/lr_scheduler.cc:164-178 | a ConstantLR has rate b factor before total_iters and b from there; with no iterations it never leaves b factor |
| `LRSchedules.EpochRates` | infini_train/src/lr_scheduler.cc:112-115 | a jump to an epoch sets the rate of that epoch, by formula for each flat scheduler, and last_step_ |
| `LRSchedules.SequentialOfTwo` | infini_train/src/lr_scheduler.cc:272-302 | a SequentialLR of two flat schedulers has the rate of the first at n before the milestone m and that of the second at n - m from there, and the child in charge stands at that step |
| `LRSchedules.NestedStartsEarly` | infini_train/src/lr_scheduler.cc:282-289 | a SequentialLR of two LambdaLRs made the first child of another: the outer one begins with b f(-1) instead of b f(0) |
| `LRSchedules.WarmupRate` | infini_train/src/lr_scheduler.cc:87-95 | n steps after CreateLRScheduler, during the warm-up: base (init + (max - init) n / warmup) / max |
| `LRSchedules.ConstantRate` | infini_train/src/lr_scheduler.cc:49-50 | after the warm-up with style constant: base |
| `LRSchedules.LinearRate` | infini_train/src/lr_scheduler.cc:51-53 | s steps after the warm-up with style linear: base (1 + (min / max - 1) s / after), from after on base min / max |
| `LRSchedules.CosineRate` | infini_train/src/lr_scheduler.cc:54-67 | with style cosine: base (min + (cos(pi s / after) + 1) / 2 (max - min)) / max up to after, then base min / max |
| `LRSchedules.InverseSquareRootRate` | infini_train/src/lr_scheduler.cc:68-79 | n steps after the beginning with style inverse-square-root: base max(min, max sqrt(warmup) / sqrt(n)) / max, beyond the decay iterations base min / max |
| `LRSchedules.LinearTraining` | infini_train/src/lr_scheduler.cc:26-96 | with the optimizer's rate as the greatest a linear run begins at the initial warm-up rate, has the optimizer's rate when the warm-up ends, and min from the last decay iteration on |
| `LRState.PrefixesAreSeparable` | infini_train/src/lr_scheduler.cc:21-23 | no key of one child starts with the prefix of another, scheduler_1. against scheduler_10. included |
| `LRState.StripGivesChild` | infini_train/src/lr_scheduler.cc:322-330 | stripping child i's prefix from a saved dictionary gives exactly what child i saved |
| `LRState.LoadUndoesSave` | infini_train/src/lr_scheduler.cc:304-383 | loading what a tree saved, however nested, into a tree of the same configuration restores every last_step_, base_lr_ and the rate |
| `LRState.SavedEntries` | infini_train/src/lr_scheduler.cc:137-143 | the saved dictionary holds last_step, recover_lr and base_lr, and the same for child i under scheduler_i., with counter, rate and base rate as values |
| `LRState.PrefixByExample` | infini_train/src/lr_scheduler.cc:21-23 | the prefixes of children 0, 1 and 10 |
| `LRLoading.LoadsExactlyWhen` | infini_train/src/lr_scheduler.cc:145-335 | for any dictionary, complete or not, and any tree: loading throws if and only if an entry of the root, or of a scheduler of which the dictionary holds any entry, is missing or of another type; otherwise every field of every scheduler mentioned is its entry's value and the others stay as they were |
| `LRLoading.SavedEverywhere` | infini_train/src/lr_scheduler.cc:304-315 | what a tree saves holds, for every scheduler at every depth, its counter, its base rate and the rate under its own nested prefix |
| `LRLoading.RateAfterLoad` | infini_train/src/lr_scheduler.cc:145-150 | loading a flat scheduler or a SequentialLR leaves the optimizer at the root's recover_lr |
| `LRState.ResumeEqualsUninterrupted` | infini_train/src/lr_scheduler.cc:304-385 | save, load into a freshly built tree, and n steps give the rates of n uninterrupted steps |
| `SchedulerFiles.ResumeThroughFile` | infini_train/src/checkpoint/checkpoint.cc:114-149 | the same through the file: saved, written in any order, read back, loaded into a freshly built tree and stepped n times, a tree of any nesting gives the rates of the uninterrupted run |
| `LRSchedulers.LRScheduler.constructor` | infini_train/src/lr_scheduler.cc:98-105 | the base rate is the optimizer's initial rate, recorded on first use |
| `LRSchedulers.LRScheduler.FlatStepOnce` | infini_train/src/lr_scheduler.cc:107-110 | one chained step on the objects is one on the tree's value |
| `LRSchedulers.LRScheduler.StepToEpoch` | infini_train/src/lr_scheduler.cc:112-115 | the closed form at an epoch; fatal for the composites |
| `LRSchedulers.LRScheduler.UpperBound` | infini_train/src/lr_scheduler.cc:293-293 | binary search finds the number of milestones reached |
| `LRSchedulers.LRScheduler.SequentialStep` | infini_train/src/lr_scheduler.cc:291-302 | steps or restarts the child in charge and leaves its siblings alone |
| `LRSchedulers.LRScheduler.ChainedStep` | infini_train/src/lr_scheduler.cc:356-359 | steps all children in order on the shared rate |
| `LRSchedulers.LRScheduler.Step` | infini_train/src/lr_scheduler.cc:107-110 | the step of any tree is the step function of its value |
| `LRSchedulers.LRScheduler.UndoChildInitialSteps` | infini_train/src/lr_scheduler.cc:282-289 | every child set back one step, and inside nested SequentialLRs again |
| `LRSchedulers.LRScheduler.InitialStep` | infini_train/src/lr_scheduler.cc:117-121 | the initial step of any tree is that of its value, and is never fatal |
| `LRSchedulers.LRScheduler.SequentialInitialStep` | infini_train/src/lr_scheduler.cc:272-280 | base rate restored, children undone, the first one started |
| `LRSchedulers.LRScheduler.Create` | infini_train/include/lr_scheduler.h:30-34 | construction and initial step together |
| `LRSchedulers.LRScheduler.StateDict` | infini_train/src/lr_scheduler.cc:304-315 | the dictionary is that of the tree's value, whatever order each child's map is enumerated in |
| `LRSchedulers.LRScheduler.StripPrefix` | infini_train/src/lr_scheduler.cc:322-330 | selects the entries under a prefix, in any enumeration order |
| `LRSchedulers.LRScheduler.LoadStateDict` | infini_train/src/lr_scheduler.cc:317-335 | loads the tree as the load function says, or throws exactly where that throws |
| `TrainingSchedulers.CreateLRScheduler` | infini_train/src/lr_scheduler.cc:26-96 | on the objects: null for style none, fatal where a CHECK fails, otherwise warm-up and decay as the function says |
| `TrainingSchedulers.RejectedExactlyWhen` | infini_train/src/lr_scheduler.cc:32-45 | it is fatal exactly when one of the CHECKs on the configuration fails; the two parts never make it so |
| `TrainingSchedulers.Train` | infini_train/src/lr_scheduler.cc:26-110 | CreateLRScheduler on a new optimizer and n steps: the rate is the one that WarmupRate, ConstantRate, LinearRate, CosineRate and InverseSquareRootRate give |
| `MessageDigest.RotateLeftIsCircular` | infini_train/src/utils/precision_checker.cc:94-94 | the shift expression moves the top bits to the bottom in order and the others up |
| `MessageDigest.BytesOfWord` | infini_train/src/utils/precision_checker.cc:99-101 | a word built from four bytes, low-order byte first, gives those bytes back |
| `MessageDigest.FSelects` | infini_train/src/utils/precision_checker.cc:90-90 | F takes y where x has a one and z elsewhere |
| `MessageDigest.GSelects` | infini_train/src/utils/precision_checker.cc:91-91 | G takes x where z has a one and y elsewhere |
| `MessageDigest.HIsParity` | infini_train/src/utils/precision_checker.cc:92-92 | H is the parity of the three bits |
| `MessageDigest.IFlips` | infini_train/src/utils/precision_checker.cc:93-93 | I flips y exactly where x has a one or z a zero |
| `MD5Vectors.LettersDigest` | infini_train/src/utils/precision_checker.cc:96-154 | the digest of the 26 lower-case letters is c3fcd3d76192e4007dfb496cca67e13b, as section A.5 of RFC 1321 lists it: all 64 operations, so every entry of T, every shift and the order of the words |
| `MD5Streams.SelectedIsWordOrder` | infini_train/src/utils/precision_checker.cc:122-135 | the g of iteration i is the word that section 3.4 of RFC 1321 lists for operation i |
| `MD5Streams.IterationIsOperation` | infini_train/src/utils/precision_checker.cc:136-139 | an iteration, which always writes b and moves the variables along, is the operation on registers a, d, c, b in turn that RFC 1321 prescribes |
| `MD5Streams.FoldedFull` | infini_train/src/utils/precision_checker.cc:39-53 | bytes that complete a block extend the fold over complete blocks by one compression |
| `MD5Streams.BitsWrap` | infini_train/src/utils/precision_checker.cc:62-62 | eight times the byte count kept modulo 2^64 is the bit count modulo 2^64 |
| `MD5Streams.LittleEndianByte` | infini_train/src/utils/precision_checker.cc:67-68 | shifting by 8 i and masking gives byte i of the length field |
| `MD5Streams.MD5.Transform` | infini_train/src/utils/precision_checker.cc:96-147 | compresses one block as section 3.4 of RFC 1321 defines |
| `MD5Streams.MD5.Update` | infini_train/src/utils/precision_checker.cc:35-58 | keeps the streaming invariant for data of any length: state, buffered remainder and counts are those of the bytes fed so far |
| `MD5Streams.MD5.Finalize` | infini_train/src/utils/precision_checker.cc:60-78 | returns the digest of RFC 1321, sections 3.1 to 3.5, of all bytes fed, as lower-case hexadecimal |
| `MD5Streams.ComputeMD5` | infini_train/src/utils/precision_checker.cc:150-154 | the digest of the data |
| `MD5Streams.DigestOfUpdates` | infini_train/src/utils/precision_checker.cc:35-78 | any sequence of updates of any lengths gives the digest of the concatenation |
| `Rounding.RoundUpOrDown` | infini_train/src/datatype.cc:74-81 | truncating and adding one above half, or at half when odd, is nearest with ties to even (section 4.3.1 of IEEE 754-2008) |
| `Rounding.NearestIsMonotone` | infini_train/src/datatype.cc:32-97 | rounding to nearest even on an increasing grid is monotone |
| `HalfFloats.NormalRounds` | infini_train/src/datatype.cc:84-96 | the normal branch, carry into the exponent and into infinity included, is nearest even |
| `HalfFloats.SubnormalRounds` | infini_train/src/datatype.cc:62-81 | the subnormal branch is nearest even |
| `HalfFloats.FloatToFp16Bits` | infini_train/src/datatype.cc:32-97 | same sign and nearest half with ties to even for every float that is not a NaN, and NaN from NaN |
| `HalfFloats.NormalHalfBits` | infini_train/src/datatype.cc:80-96 | the half in bits, exponent in the normal range: exponent less 112, the ten upper mantissa bits, one more if the thirteen cut off are above half or at half with an odd mantissa |
| `HalfFloats.SubnormalHalfBits` | infini_train/src/datatype.cc:60-78 | below it: the 24-bit significand shifted down by 126 less the exponent, rounded in the same way |
| `HalfFloats.ExtremeHalfBits` | infini_train/src/datatype.cc:47-64 | below 2^-25 the half is zero, from 2^16 on infinity |
| `HalfFloats.Fp16BitsToFloat` | infini_train/src/datatype.cc:99-132 | same sign and exactly the same value; infinity from infinity; a NaN keeps its payload |
| `HalfFloats.NormalFloatBits` | infini_train/src/datatype.cc:123-129 | the float in bits: exponent plus 112 and the mantissa with thirteen zeros |
| `HalfFloats.KnownValues` | infini_train/src/datatype.cc:32-132 | the values of one, of the largest and of the smallest half |
| `HalfFloats.Normalized` | infini_train/src/datatype.cc:110-115 | the loop shifts a subnormal mantissa up until its leading one is in place, without changing the value |
| `HalfFloats.NarrowingUndoesWidening` | infini_train/src/datatype.cc:32-132 | narrowing undoes widening on every half that is not a NaN |
| `HalfFloats.NarrowingIsMonotone` | infini_train/src/datatype.cc:32-97 | narrowing is monotone on all floats that are not NaN |
| `HalfFloats.Bf16IsNearest` | infini_train/src/datatype.cc:16-21 | FloatToBf16Bits rounds every float that is not a NaN to nearest even |
| `HalfFloats.Bf16NarrowingUndoesWidening` | infini_train/src/datatype.cc:16-26 | BF16 narrowing undoes widening on every sixteen-bit pattern |
| `HalfFloats.Bf16NaNExactlyWhen` | infini_train/src/datatype.cc:16-21 | of a NaN it makes a NaN if and only if the mantissa lies strictly between 0x8000 and 0x7f8000 |
| `HalfFloats.Bf16LosesNaN` | infini_train/src/datatype.cc:16-21 | two NaNs that become infinity and minus zero |
| `Matmul.MatmulForward` | infini_train/src/kernels/cpu/matmul.cc:13-52 | each output element is the sum of products of its row and column, for every batch |
| `Matmul.ProductElement` | infini_train/src/kernels/cpu/matmul.cc:36-50 | element (b, i, j) written out: the sum over p of input (b, i, p) times other (b, p, j), with the flat offsets |
| `Matmul.MatmulBackwardInput` | infini_train/src/kernels/cpu/matmul.cc:54-92 | accumulation loop by loop gives grad_output times the transpose of other |
| `Matmul.MatmulBackwardOther` | infini_train/src/kernels/cpu/matmul.cc:94-137 | accumulation gives the transpose of input times grad_output |
| `Matmul.InputAdjoint` | infini_train/src/kernels/cpu/matmul.cc:54-92 | the input gradient is the adjoint of the product in its first argument |
| `Matmul.OtherAdjoint` | infini_train/src/kernels/cpu/matmul.cc:94-137 | the other gradient is the adjoint of the product in its second argument |
| `LoRA.LinearForward` | infini_train/src/kernels/cpu/linear.cc:13-53 | x W^T (or x W) plus the bias in every row |
| `LoRA.LinearFigures` | infini_train/src/kernels/cpu/linear.cc:36-52 | output (r, o) written out with its flat offsets, transposed or not: the sum over p of input (r, p) times weight (o, p) or (p, o), plus bias o |
| `LoRA.LowRankAssociates` | infini_train/src/nn/lora/lora_linear.cc:98-102 | (x A^T) B^T is x (B A)^T, element by element |
| `LoRA.MergingKeepsTheFunction` | infini_train/src/nn/lora/lora_linear.cc:81-131 | for every input the layer with the scaled product merged into its weight computes what the unmerged layer computes |
| `LoRA.LayerFigures` | infini_train/src/nn/lora/lora_linear.cc:96-109 | output (r, o) of the layer written out: the linear layer's plus scaling times the sum over t of (the sum over p of x (r, p) A (t, p)) B (o, t) |
| `LoRA.MergedFigures` | infini_train/src/nn/lora/lora_linear.cc:119-126 | element (o, p) of the merged weight written out: the weight's plus scaling times the sum over t of B (o, t) A (t, p) |
| `LoRA.StartsAsBaseLayer` | infini_train/src/nn/lora/lora_linear.cc:65-70 | with B at zero the layer is the base layer |
| `LoRA.LoRALinear.constructor` | infini_train/src/nn/lora/lora_linear.cc:28-79 | wraps the shared weight, scaling alpha / rank, B at zero, base frozen, A and B trainable |
| `LoRA.LoRALinear.Forward` | infini_train/src/nn/lora/lora_linear.cc:81-111 | fails exactly if merged with A requiring a gradient; otherwise the function of base weight, A, B and bias, merged or not |
| `LoRA.LoRALinear.MergeWeights` | infini_train/src/nn/lora/lora_linear.cc:113-132 | every element of the weight becomes its own plus scaling times that of B A, A and B frozen; nothing if already merged |
| `LoRA.LoRALinear.UnmergeWeights` | infini_train/src/nn/lora/lora_linear.cc:134-153 | weight becomes the base weight again, A and B trainable; nothing if not merged |
| `LoRA.MergesAndUnmerges` | infini_train/src/nn/lora/lora_linear.cc:113-153 | any run of merges and unmerges keeps the layer's function and, when it ends unmerged, its weight |
| `NdIndex.ComputeStrides` | infini_train/include/common/common.h:26-30 | stride i is the volume of the dimensions after i |
| `NdIndex.UnflattenFlatten` | infini_train/src/kernels/cpu/transform.cc:98-111 | flattening an index in bounds gives an offset in bounds from which the same index is recovered |
| `NdIndex.FlattenUnflatten` | infini_train/src/kernels/cpu/transform.cc:98-111 | and the other way round |
| `NdIndex.RowMajor` | infini_train/include/common/common.h:26-30 | the offset of (i, j, k) in dimensions a, b, c is (i b + j) c + k |
| `NdIndex.IndexOf` | infini_train/src/kernels/cpu/transform.cc:100-104 | the div/mod loop computes the index of an offset |
| `NdIndex.OffsetOf` | infini_train/src/kernels/cpu/transform.cc:110-111 | the loop computes the offset of an index |
| `Transpose.TargetOfTarget` | infini_train/src/kernels/cpu/transform.cc:98-113 | sending an element and sending it back with the dimensions exchanged is the identity on offsets |
| `Transpose.TargetsDiffer` | infini_train/src/kernels/cpu/transform.cc:98-113 | no output element is written twice |
| `Transpose.TransposedAt` | infini_train/src/kernels/cpu/transform.cc:106-113 | the element at an index lands at the index with dim0 and dim1 exchanged |
| `Transpose.TransposeForward` | infini_train/src/kernels/cpu/transform.cc:75-117 | the element at every index is the input's at the index with dim0 and dim1 exchanged, negative dimensions counted from the end; None exactly when a dimension is outside [-rank, rank) |
| `Transpose.TransposeBackward` | infini_train/src/kernels/cpu/transform.cc:119-121 | the same with the dimensions exchanged |
| `Transpose.BackwardUndoesForward` | infini_train/src/kernels/cpu/transform.cc:75-121 | backward after forward is the identity, for any rank and dimensions |
| `Broadcast.PaddedIsFlat` | infini_train/src/kernels/cpu/elementwise.cc:46-62 | the padded offset is the offset of the index of b that an index of a meets |
| `Broadcast.MetBroadcast` | infini_train/src/kernels/cpu/elementwise.cc:46-62 | of broadcastable shapes the index met is that of a without its leading dimensions, with 0 where b has dimension 1 |
| `Broadcast.ReadsInsideExactlyWhen` | infini_train/src/kernels/cpu/elementwise.cc:54-64 | every offset read lies inside the buffer of b if and only if the one at the last index of a does, or a is empty |
| `Broadcast.MeetsIndicesExactlyWhen` | infini_train/src/kernels/cpu/elementwise.cc:54-64 | every element of a meets an index of b if and only if no dimension of b other than 1 is shorter than that of a |
| `Broadcast.BroadcastReadsInside` | infini_train/src/kernels/cpu/elementwise.cc:38-38 | all shapes that the comment assumes keep the offsets inside b |
| `Broadcast.CheckIsNotEnough` | infini_train/src/kernels/cpu/elementwise.cc:39-39 | shapes [4] and [2] pass the CHECK and element 3 meets offset 3 of two |
| `Broadcast.BinaryForward` | infini_train/src/kernels/cpu/elementwise.cc:36-67 | for all shapes that keep the offsets inside b, broadcastable or not: every output element combines its element of a with the element of b at the offset it meets, and where that is an index of b with the element at it; None exactly when the CHECK fails or b has the higher rank |
| `Broadcast.BroadcastDivides` | infini_train/src/kernels/cpu/elementwise.cc:39-39 | the element count of a broadcastable a is a multiple of that of b |
| `Broadcast.BinaryBackward` | infini_train/src/kernels/cpu/elementwise.cc:69-115 | for the same shapes: grad_a elementwise, and grad_b the sum of grad times fn_b over exactly the positions that read each element; None exactly when a CHECK fails |
| `Broadcast.GradBAt` | infini_train/src/kernels/cpu/elementwise.cc:99-113 | element p of grad_b written out as the sum over all elements of a of those that meet p |
| `Broadcast.AddKeepsTotal` | infini_train/src/kernels/cpu/elementwise.cc:100-118 | for Add the total of grad_b is the total of grad_output |
| `Gather.NormIndexInBounds` | infini_train/src/kernels/cpu/gather.cc:57-66 | normalization puts every entry in bounds if and only if the dimension is not empty, and leaves valid entries alone |
| `Gather.InBoundsExactlyWhen` | infini_train/src/kernels/cpu/gather.cc:49-88 | all offsets read are in bounds if and only if the gathered dimension is not empty or nothing is gathered |
| `Gather.EmptyDimensionReadsBefore` | infini_train/src/kernels/cpu/gather.cc:57-66 | gathering index 0 from an empty vector reads offset -1 |
| `Gather.RecurseForward` | infini_train/src/kernels/cpu/gather.cc:77-99 | the recursion fills exactly the block of outputs under its prefix, each once, in order |
| `Gather.GatherForward` | infini_train/src/kernels/cpu/gather.cc:11-101 | the output at every index ix is the input at ix with its entry along dim replaced by the index value there, clamped, negative values and a negative dim counted from the end; None exactly when a CHECK fails |
| `Gather.GatheredAt` | infini_train/src/kernels/cpu/gather.cc:77-99 | for valid and for negative index values the element is the input at Flatten(ix with j along dim) |
| `Gather.RecurseBackward` | infini_train/src/kernels/cpu/gather.cc:170-189 | the recursion sends back exactly the gradients of the block under its prefix |
| `Gather.GatherBackward` | infini_train/src/kernels/cpu/gather.cc:103-191 | every input element receives the sum of the gradients of the outputs that read it, those at the indices that GatherForward pairs with it |
| `Gather.GatherAdjoint` | infini_train/src/kernels/cpu/gather.cc:11-191 | GatherBackward is the adjoint of GatherForward, for any rank and index tensor of allowed shape |
| `RealSums.ScatterIsAdjoint` | infini_train/src/kernels/cpu/gather.cc:170-189 | adding values up where they were read from is the adjoint of reading them |
| `GroupFactory.NextKeepsInv` | infini_train/include/nn/parallel/process_group.h:134-150 | every step of every thread keeps mutual exclusion, one pending creator per null slot, and that whoever sleeps on a filled slot is about to be woken |
| `GroupFactory.OneHolder` | infini_train/include/nn/parallel/process_group.h:136-149 | no two threads hold the mutex |
| `GroupFactory.CreatorRunsAtMostOnce` | infini_train/include/nn/parallel/process_group.h:137-144 | in every interleaving creator() runs at most once per name |
| `GroupFactory.FilledSlotsStay` | infini_train/include/nn/parallel/process_group.h:147-147 | a filled slot never changes |
| `GroupFactory.SameGroupForAll` | infini_train/include/nn/parallel/process_group.h:138-149 | all callers of a name return the same group, whenever they return |
| `GroupFactory.GroupsAreForTheirNames` | infini_train/include/nn/parallel/process_group.h:143-149 | the group returned is one that creator() made for that name |
| `GroupFactory.NoStuckState` | infini_train/include/nn/parallel/process_group.h:134-150 | while any thread is in a call some thread in a call can step without a spurious wake-up |
| `GroupFactory.InternalStepDecreases` | infini_train/include/nn/parallel/process_group.h:134-150 | every step inside a call uses up some of a measure, although notify_all wakes the waiters of all names |
| `GroupFactory.CallsReturn` | infini_train/include/nn/parallel/process_group.h:138-148 | the steps inside calls are bounded by that measure plus two for each spurious wake-up |
| `Decimals.ParseUndoesNumeral` | infini_train/src/checkpoint/checkpoint.cc:174-180 | reading a number undoes writing it for every integer in range, negative ones included, and fails for every other |
| `Decimals.NumeralsWrittenOut` | infini_train/src/checkpoint/checkpoint.cc:316-326 | 0, -120 and 128256 in text |
| `TrainerStateFile.FindPassesLine` | infini_train/src/checkpoint/checkpoint.cc:156-160 | a quoted key is not found in another key's line |
| `TrainerStateFile.ExtractField` | infini_train/src/checkpoint/checkpoint.cc:155-181 | any field of a file of distinct plain keys reads back; a value out of range gives the fallback |
| `TrainerStateFile.ExtractMissing` | infini_train/src/checkpoint/checkpoint.cc:158-160 | a key that no field of the file has gives the fallback |
| `TrainerStateFile.LoadUndoesSave` | infini_train/src/checkpoint/checkpoint.cc:313-350 | all eleven fields are recovered for every value of their types |
| `TrainerStateFile.LoadReadsFields` | infini_train/src/checkpoint/checkpoint.cc:338-348 | loading a file with any fields: each of the eleven is what the file says under its key or, where the key is missing or the value out of range, 0, or 1 for the four sizes |
| `TrainerStateFile.FileWrittenOut` | infini_train/src/checkpoint/checkpoint.cc:313-329 | the text of the file: the eleven labels and the numbers in turn |
| `TrainerStateFile.ExtractNumberField` | infini_train/src/checkpoint/checkpoint.cc:155-181 | the loops compute the extraction function: first quoted key, first colon after it, blanks skipped, up to a comma, newline or brace |
| `TrainerStateFile.SaveTrainerState` | infini_train/src/checkpoint/checkpoint.cc:313-329 | the file is the eleven lines between braces |
| `TrainerStateFile.ThroughFile` | infini_train/src/checkpoint/checkpoint.cc:313-350 | saving and then loading through the methods returns the state, for every value of its eleven fields |
| `Codec.DecodesString` | infini_train/src/checkpoint/checkpoint.cc:34-46 | a string shorter than 2^32 reads back wherever it stands |
| `Codec.DecodeUndoesEncode` | infini_train/src/checkpoint/checkpoint.cc:114-149 | a map reads back from the file written in any enumeration order, for every value format whose values read back in place |
| `Codec.SaveAll` | infini_train/src/checkpoint/checkpoint.cc:118-128 | the file is that of some enumeration of the map |
| `Codec.LoadAll` | infini_train/src/checkpoint/checkpoint.cc:135-148 | the map that decoding gives, the first of two equal names counting; None where a CHECK fails or a value is fatal |
| `FileBytes.TensorFileBytes` | infini_train/src/checkpoint/checkpoint.cc:249-271 | the tensor file in bytes: CKPT, version 1 and the count in four bytes each, low-order first, then name and tensor of each entry in turn |
| `FileBytes.SchedulerFileBytes` | infini_train/src/checkpoint/checkpoint.cc:114-129 | the scheduler file in bytes: SLRS, version 1, the count, then name and value of each entry |
| `FileBytes.StringBytes` | infini_train/src/checkpoint/checkpoint.cc:34-38 | a string in bytes: its length in four bytes, then its own |
| `FileBytes.ValueBytes` | infini_train/src/checkpoint/checkpoint.cc:48-80 | each of the five kinds of value in bytes: type byte 1 to 5 and the data |
| `FileBytes.TensorBytes` | infini_train/src/checkpoint/checkpoint.cc:256-270 | a tensor in bytes: data type, rank, dimensions in two's complement, byte count, data, each at its offset |
| `FileBytes.OnlyTensorFiles` | infini_train/src/checkpoint/checkpoint.cc:284-285 | a file is loaded only if it begins with CKPT and version 1; with a count of 0 it gives no tensors |
| `FileBytes.OnlySchedulerFiles` | infini_train/src/checkpoint/checkpoint.cc:142-143 | the same of SLRS |
| `FileBytes.OtherTypesAreFatal` | infini_train/src/checkpoint/checkpoint.cc:82-112 | reading a value is fatal exactly when its type byte is not 1 to 5 |
| `CheckpointFiles.ValueReadsBack` | infini_train/src/checkpoint/checkpoint.cc:48-112 | each of the five kinds of scheduler value reads back wherever it stands |
| `CheckpointFiles.SchedulerStateRoundTrip` | infini_train/src/checkpoint/checkpoint.cc:114-149 | the scheduler state loaded is the one saved, for any enumeration order |
| `CheckpointFiles.SchedulerStateThroughFile` | infini_train/src/checkpoint/checkpoint.cc:114-149 | saving and then loading through the loops returns the map |
| `CheckpointFiles.TensorReadsBack` | infini_train/src/checkpoint/checkpoint.cc:256-308 | a tensor of any rank and data type reads back |
| `CheckpointFiles.TensorsRoundTrip` | infini_train/src/checkpoint/checkpoint.cc:244-311 | the tensors loaded are those saved, for any enumeration order |
| `CheckpointFiles.ReadTensor` | infini_train/src/checkpoint/checkpoint.cc:290-307 | the reader, dimension by dimension, computes the decoding function |
| `CheckpointFiles.SaveStateDict` | infini_train/src/checkpoint/checkpoint.cc:249-271 | the loops over entries and dimensions write the file of some enumeration |
| `CheckpointFiles.LoadStateDict` | infini_train/src/checkpoint/checkpoint.cc:278-310 | the map that decoding gives, the first of two equal names counting; None where a CHECK fails |
| `CheckpointFiles.StateDictThroughFile` | infini_train/src/checkpoint/checkpoint.cc:244-311 | saving and then loading tensors through the loops returns the map |
| `DataLoader.DataLoaderIterator.Get` | infini_train/src/dataloader.cc:43-59 | the samples of the current batch, the last one possibly short |
| `DataLoader.DataLoaderIterator.Next` | infini_train/src/dataloader.cc:61-64 | moves on by the number of ranks, up to the end |
| `DataLoader.AfterIs` | infini_train/src/dataloader.cc:61-64 | n steps on, a rank stands n times the number of ranks further, but not past the end |
| `DataLoader.VisitsItsBatches` | infini_train/src/dataloader.cc:52-64 | a rank visits exactly the samples of its batches |
| `DataLoader.VisitsInOrder` | infini_train/src/dataloader.cc:52-64 | in increasing order, so none twice |
| `DataLoader.Epoch` | infini_train/src/dataloader.cc:92-100 | the loop from begin to end visits just that, for every rank up to the number of batches; a rank beyond it fails on its first batch, which has no sample to stack |
| `DataLoader.EverySampleOnce` | infini_train/src/dataloader.cc:52-100 | whatever the number of ranks, every sample is visited exactly once, by rank (i / batch size) mod ranks, which is never beyond the number of batches |
| `DataLoader.FirstBatchEmptyExactlyWhen` | infini_train/src/dataloader.cc:92-95 | a rank not at the end gets an empty first batch if and only if it is past the number of batches |
| `DataLoader.RankBeyondGetsNothing` | infini_train/src/dataloader.cc:92-95 | one sample, one batch, rank 2: no sample |
| `DataLoader.DataLoaderBatchesToSkip` | infini_train/src/checkpoint/checkpoint_manager.cc:123-134 | fails exactly if a size is zero, their product overflows size_t, or the samples do not divide; otherwise the number of batches that they make up |
| `DataLoader.Resume` | infini_train/src/checkpoint/checkpoint_manager.cc:123-134 | after n batches per rank, for any rank, skipping what the sample count asks for puts a fresh iterator where the uninterrupted one stands; null exactly when the product of the sizes overflows |
| `CheckpointLoader.Stream.ReadMatrixRowShardFloat` | example/common/utils.cc:27-35 | reads the block of rows and leaves the cursor behind the matrix |
| `CheckpointLoader.Stream.ReadMatrixColShardFloat` | example/common/utils.cc:38-49 | reads the block of columns row by row and leaves the cursor behind the matrix |
| `CheckpointLoader.Stream.ReadVectorShardFloat` | example/common/utils.cc:57-62 | reads the stretch and leaves the cursor behind the vector |
| `CheckpointLoader.Stream.ReadVectorAllFloat` | example/common/utils.cc:52-54 | reads the whole vector |
| `CheckpointLoader.LoadQkv` | example/gpt2/checkpoint_loader.cc:221-262 | reads [q_i, k_i, v_i] out of [Q, K, V] and leaves the cursor behind it |
| `CheckpointLoader.LoadSection` | example/gpt2/checkpoint_loader.cc:190-204 | reading the owned layers and skipping the others moves the cursor by the same amount, and local tensor j is cut from the j-th owned layer |
| `CheckpointLoader.OwnedTensorAt` | example/gpt2/checkpoint_loader.cc:190-204 | the tensor at an owned layer's local index is cut from that layer's full tensor |
| `CheckpointLoader.RanksHoldTheParts` | example/gpt2/checkpoint_loader.cc:190-433 | what the ranks of a stage hold of an owned layer are the parts of that layer's full tensor |
| `GPT2Loader.ChecksExactlyWhen` | infini_train/src/nn/modules/transformer/transformer.cc:219-230 | of all CHECKs on the way to the first parameter - configuration, constructors of the model and of the layers, loader - what remains is a sane configuration whose vocabulary, width and heads the ranks divide |
| `GPT2Loader.MediumIsRejected` | example/gpt2/config.h:28-36 | a file with the sixteen heads of GPT-2 medium never loads, because n_kv_head keeps its default 12; one with the twelve of GPT-2 small does |
| `GPT2Loader.LayersDivide` | example/gpt2/checkpoint_loader.cc:122-124 | the CHECKs make every parameter of the layers divisible |
| `GPT2Loader.LoadFromLLMC` | example/gpt2/checkpoint_loader.cc:66-452 | for every rank, stage and ownership the cursor ends at the same place, and every tensor is, element by element, the stated block of rows, of columns or of the packed q, k and v of what lies at its parameter's offset; None exactly when a CHECK fails |
| `GPT2Loader.LayerIsHeld` | example/gpt2/checkpoint_loader.cc:190-433 | the twelve parameters of a layer, each with its offset in n_layer and n_embd by arithmetic and with the way it is cut: c_attn by packed rows, c_fc by rows, both c_proj by columns, the others whole |
| `GPT2Loader.ModulesAreHeld` | example/gpt2/checkpoint_loader.cc:154-450 | embeddings and head are blocks of rows, position embedding and final norm whole, each at its offset by arithmetic, present exactly on the stages that own them |
| `GPT2Loader.FileSizeWrittenOut` | example/gpt2/checkpoint_loader.cc:154-450 | the file holds 12 n^2 + 13 n numbers for each layer, between the two embeddings and the final norm |
| `GPT2Loader.StageSharesLayers` | example/gpt2/checkpoint_loader.cc:190-433 | so the ranks of a stage that have loaded the file share each of its owned layers |
| `GPT2Loader.AttentionComputes` | example/gpt2/checkpoint_loader.cc:221-304 | what c_attn computes on a rank: its q, k and v are its shares of the columns of the q, k and v that the full weight and bias of the file give |
| `GPT2Loader.AttentionProjectionComputes` | example/gpt2/checkpoint_loader.cc:306-337 | what attn.c_proj computes: on the ranks' shares of the columns of the input the outputs add up to that of the full weight, and every rank adds the same bias |
| `GPT2Loader.UpProjectionComputes` | example/gpt2/checkpoint_loader.cc:370-400 | what c_fc computes on a rank: its share of the columns of the full output |
| `GPT2Loader.DownProjectionComputes` | example/gpt2/checkpoint_loader.cc:402-433 | mlp.c_proj, as attn.c_proj |
| `GPT2Loader.MlpComputes` | infini_train/src/nn/modules/transformer/mlp.cc:96-105 | the whole MLP, whatever the activation: the ranks' outputs on the hidden columns that their own parts of c_fc give add up to the output of the MLP with the full weights of the file |
| `GPT2Loader.LayersReassemble` | example/gpt2/checkpoint_loader.cc:190-433 | whenever the ranks of a stage have loaded a file, the tensors they hold of any parameter of any owned layer put the full tensor together again |
| `GPT2Loader.ModulesReassemble` | example/gpt2/checkpoint_loader.cc:154-450 | so do the embeddings, the head and the final norm |
| `LLaMA3Loader.HiddenSizesAgree` | infini_train/src/nn/modules/transformer/mlp.cc:23-47 | where the CHECK on the size of the MLP passes, loader and MLP compute the same size |
| `LLaMA3Loader.FfnHiddenIs` | example/llama3/checkpoint_loader.cc:159-168 | that size: two thirds of 4 n_embd rounded down, times the multiplier, to the nearest integer, up to the next multiple |
| `LLaMA3Loader.KnownHiddenSizes` | example/llama3/checkpoint_loader.cc:159-168 | 8192 for LLaMA 3.2 1B and 14336 for LLaMA 3 8B |
| `LLaMA3Loader.KvLocalRows` | example/llama3/checkpoint_loader.cc:182-184 | kv_local_rows, computed by heads, is the rank's share of the rows of K |
| `LLaMA3Loader.LayersDivide` | infini_train/src/nn/parallel/tensor_parallel.cc:238-241 | the CHECKs of loader and constructors make all seven parameters of the layers divisible |
| `LLaMA3Loader.ChecksExactlyWhen` | infini_train/src/nn/modules/transformer/transformer.cc:219-230 | of all CHECKs on the way to the first parameter what remains is a sane configuration, divisible vocabulary, width and heads, and, on a stage with layers, a positive divisible size of the MLP |
| `LLaMA3Loader.SmallVocabularyIsRejected` | example/llama3/config.h:28-31 | a file with a vocabulary of 32000 never loads, because original_vocab_size keeps its default |
| `LLaMA3Loader.LoadFromLLMC` | example/llama3/checkpoint_loader.cc:56-381 | as for GPT-2, element by element, with K and V blocks of n_kv_head heads and the split tail |
| `LLaMA3Loader.LayerIsHeld` | example/llama3/checkpoint_loader.cc:208-350 | the seven parameters of a layer, each with its offset by arithmetic and with the way it is cut: c_attn by packed rows, c_fc and c_fc2 by rows, both c_proj by columns, the norms whole |
| `LLaMA3Loader.ModulesAreHeld` | example/llama3/checkpoint_loader.cc:194-378 | embedding and head are blocks of rows, the final norm whole, each at its offset, present exactly on the stages that own them |
| `LLaMA3Loader.FileSizeWrittenOut` | example/llama3/checkpoint_loader.cc:194-378 | the file holds 2 n + 2 n^2 + 2 kv n + 3 ffn n numbers for each layer, between embedding and final norm and head |
| `LLaMA3Loader.StageSharesLayers` | example/llama3/checkpoint_loader.cc:208-350 | so the ranks of a stage that have loaded the file share each of its owned layers |
| `LLaMA3Loader.AttentionComputes` | example/llama3/checkpoint_loader.cc:224-263 | c_attn on a rank gives its shares of the columns of q, k and v, with n_kv_head heads in k and v |
| `LLaMA3Loader.AttentionProjectionComputes` | example/llama3/checkpoint_loader.cc:265-281 | the ranks' outputs of attn.c_proj add up to that of the full weight |
| `LLaMA3Loader.UpProjectionsCompute` | example/llama3/checkpoint_loader.cc:298-332 | c_fc and c_fc2 on a rank give its share of the columns of the full outputs |
| `LLaMA3Loader.MlpComputes` | infini_train/src/nn/modules/transformer/mlp.cc:81-95 | the whole gated MLP, whatever the activation: the ranks' outputs add up to that of the MLP with the full weights of the file |
| `LLaMA3Loader.LayersReassemble` | example/llama3/checkpoint_loader.cc:208-350 | every parameter of every owned layer reassembles from the ranks' tensors |
| `LLaMA3Loader.ModulesReassemble` | example/llama3/checkpoint_loader.cc:194-378 | so do the embedding, the final norm and the head |
| `Shards.RowsReassemble` | example/common/utils.cc:27-35 | the row parts of all ranks, one after the other, are the matrix |
| `Shards.ColumnsReassemble` | example/common/utils.cc:38-49 | every element of the matrix is in the column part of exactly the rank its column falls to, at the place computed |
| `Shards.QkvReassembles` | example/gpt2/checkpoint_loader.cc:221-262 | the q, k and v pieces of all ranks are Q, K and V |
| `Shards.PartsReassemble` | example/common/utils.cc:27-62 | the parts of a parameter of any of the four kinds, if divisible, put the full tensor together |
| `Shards.ReassemblyIsUnique` | example/common/utils.cc:27-62 | and no other tensor: what is put together is what was cut |
| `Shards.RowsReassembleExactlyWhen` | infini_train/src/nn/modules/transformer/transformer.cc:227-230 | what the CHECK on the vocabulary is for: row parts reassemble if and only if the number of ranks divides the rows |
| `HeldParts.LocalIsHeld` | example/common/utils.cc:27-62 | element (i, j) of a rank's part is element (r * rows / tp + i, j), or (i, r * cols / tp + j), of the file's matrix, for the packed kind in each of its three blocks |
| `HeldParts.ColumnParallelComputes` | infini_train/src/nn/parallel/tensor_parallel.cc:257-278 | a linear layer on a rank's rows of weight and bias gives the rank's share of the columns of the full output |
| `HeldParts.PackedComputes` | infini_train/src/nn/modules/transformer/causal_self_attention.cc:107-121 | on packed rows: of q, of k and of v |
| `HeldParts.RowParallelComputes` | infini_train/src/nn/parallel/tensor_parallel.cc:313-333 | the linear layers on the ranks' columns of input and weight add up to the full output; the bias comes once |
| `HeldParts.ActivatedColumns` | infini_train/src/nn/modules/transformer/mlp.cc:96-105 | an elementwise function of a rank's columns gives the rank's columns of the result |

## Left out

- Autograd: each Function object is applied once, every operator answers with one gradient per input and a
  real one on every input that requires it, and gradient buffers are not shared between functions; the
  in-place additions are then additions of values. A leaf with an output index other than 0, hooks,
  autocast, saved variables, the accumulation rate (1) and devices are left out; gradient mode is a flag.
- Autograd.Tensor.Backward: the gradient is given; filling in 1 for a scalar and the shape CHECKs are left
  out. Roots whose function has recorded consumers that have not delivered are excluded by its
  precondition; AutogradRuns.SeedFiresExactlyWhen and EarlyFirings state what the counters do there, the
  latter for functions with one output.
- AutogradHistory.NewSeedKeepsInv: is about roots without such consumers, as Autograd.Tensor.Backward is.
- BackwardPasses.BackwardPass: has the same precondition.
- AutogradPasses.BackwardFiresTheReachable: has the same precondition.
- AutogradHistory.HistoryKeepsInv: is about histories that record no edge to a function that has already
  fired or been seeded; Apply on an output of such a function is excluded, as its gradients would come too late.
- AutogradHistory.NewEdgeKeepsInv: has the same precondition on the target of the edge.
- Autograd.Function.Apply: Forward is not modelled; the outputs it made are a parameter. They may be inputs as
  well, as those of ISend are, but no leaf that requires a gradient. Inputs come from functions that have
  neither fired nor been seeded.
- AutogradRuns.LeafHoldsItsTotal: is about leaves without a pending overwrite; a pending one has the effect
  of a new base, which is what AutogradHistory.WriteLeafKeepsInv states.
- Floating-point rounding outside the FP16 and BF16 conversions: reals are exact. The cosine and
  inverse-square-root lambdas are arbitrary functions of the step.
- LRTrees.SequentialFromCreation: is about flat children and a first milestone above 0. For nested
  SequentialLR children the code undoes the initial steps of grandchildren more than once; the step and
  state functions cover nesting, this schedule does not.
- LRTrees.ChainedFromCreation: is about children whose step scales the rate; a LambdaLR child sets it.
- LRForms: division is made total; LRForms.LinearNeverDividesByZero shows that its zero case is not met.
  StepLR's power for negative step counts is a quotient of powers.
- TrainingSchedulers.Train: is about an optimizer whose rate is still its initial one. Cosine and square root
  are arbitrary functions, and division by a square root of 0 is made total; the optimizer is never null.
- LRLoading.RateAfterLoad: says nothing of a ChainedScheduler with children, which set the rate after it.
- MD5Streams.MD5.Update: the data length is a natural number; the byte count wraps at 2^64 as in the code.
- HalfFloats: bit_cast between float and its bits is the identity on bits.
- Matmul, LoRA: the shape CHECKs are preconditions; the linear layer's backward kernels, one matrix
  expression each, are left out, as are the random values of A.
- LoRA.LoRALinear.constructor: the rank is positive, as the division by it needs.
- LoRA.LoRALinear.Forward: A, B and base weight are not written by others while merged.
- Broadcast.BinaryForward: offsets inside b are a precondition, in the exact form of
  Broadcast.ReadsInsideExactlyWhen, and so is a non-empty b, by whose element count the CHECK divides.
- Broadcast.BinaryBackward: the same precondition on the offsets.
- Gather.GatherForward: a non-empty gathered dimension (or an empty index) is a precondition, the exact
  condition of Gather.InBoundsExactlyWhen.
- Data type CHECKs of the kernels, and the 32-bit accumulator in which a tensor's element count is computed.
- GroupFactory: the iterator kept across the unlocked creator() is taken to stay usable while other names
  are inserted; creator() returns a group, never null, and the lookups without creation are left out.
- CheckpointFiles: bytes are stored low-order first, as on the machines the files are written on. Reads past
  the end of a file leave zeros. Opening files, and the module and optimizer dictionaries that are stored,
  are left out.
- TrainerStateFile.ExtractNumberField: std::string::find and stream extraction of a number are functions.
- DataLoader.DataLoaderIterator.Get: gives sample indices; stacking the samples is left out.
- CheckpointLoader: offsets are counted in floats after the header, files are long enough, and the ownership
  of layers and special modules is a parameter. Magic number and version of the header are left out, and the
  multiplier of the MLP's size is an exact real.
- GPT2Loader.LoadFromLLMC: with a single rank the padded vocabulary is at least the vocabulary, which no CHECK
  covers.
- HeldParts.RowParallelComputes: the sum over the ranks stands for the collective that forms it, as shares of
  columns side by side stand for the gathered output; what attention does between c_attn and c_proj is left out.
- SchedulerFiles.ResumeThroughFile: counters, rates and sizes fit the fields of the file; how a float is laid
  out in bits is a parameter.
- Stack, concat, split, slice, triangular and top-k kernels, reductions, the pipeline layout, tensor-parallel
  modules, the distributed optimizer, the tokenizer, data sets, command line and launcher: easy members, or
  calls into code that is not part of this model.
- CUDA and collective kernels, streams, device guards, kernel dispatch and the profiler.
