# Verification of the scheduler, classifier and support code of AIE-OS

A Dafny 4.11 model of the parts of the repository that carry hard guarantees, and proofs of those
guarantees. `dafny verify dfyconfig.toml` checks all of it.

| file | what it models |
|---|---|
| `Rounding.dfy`, `Float16.dfy` | float32 to binary16 and bfloat16 by bit tricks, the exact conversions back, comparison on raw bits; IEEE 754-2019 sections 3.4, 4.3.1 and 5.11 |
| `Vtime.dfy`, `Fairness.dfy`, `Newcomer.dfy` | the vruntime scheduler: clamp, ordered queue, clock, weighted charge; u64 against unbounded integers; weighted fairness and the order of hooks it needs; a new task against those that wait |
| `Lottery.dfy` | the weighted and the unweighted lottery: exact ticket counts with affinity |
| `Prio.dfy`, `Fifo.dfy` | the priority scheduler with its wrapping key, and the FIFO scheduler's rotation and round time |
| `AiSched.dfy` | the five-queue AI scheduler, its statistics, and the heuristic classifier whose decisions it follows |
| `Daemon.dfy` | the daemon's two threads as interleaved steps over shared vectors |
| `Config.dfy`, `InstallModel.dfy` | the key=value parser, and the script that edits its file |
| `Nice.dfy`, `Log2.dfy`, `Decoders.dfy`, `MemoryAllocation.dfy` | nearest-nice search, branch-free logarithms, buffer decoders, a move-only owner |
| `Kernel.dfy`, `Arithmetic.dfy` | integer widths and BPF division; facts about products and quotients |

Where the source updates state step by step, the model is a class or a method with loops, and its
contract equates the new state with a function of the old one; the guarantees are then proved about
runs of that function.

## Findings

Places where the code does something else than its comments or its name say. Each is kept as the
code has it.

- `isSmaller` subtracts two u64 values and compares with 0, so it is never true
  (`vtime.bpf.c:22-24`). As written the clock never moves (`Vtime.WrittenRun`). The theorems named
  "as meant" are about the signed difference of the scheduler it was derived from; the fairness
  theorems are about both forms.
- New tasks are to be kept from starving old ones (`vtime.bpf.c:88-89`). As written a task enabled
  once the others have been charged joins at the head and is served until it has caught up with them
  (`Newcomer.ServedFirstAsWritten`); as meant that is bounded (`Newcomer.BoundedAsMeant`). While the
  task at the head is ahead of the clock, enabling a task over and over starves the rest in both forms
  (`Newcomer.EnabledOverAndOver`).
- Weighted fairness of `vtime.bpf.c` depends on the order of the hooks. Among tasks that are always
  runnable the spread bound holds throughout exactly if a stopped task is queued again before the
  next dispatch (`Fairness.SpreadExactly`). If the dispatch comes first, the stopped task misses its
  turn: two tasks alternate whatever their weights (`Fairness.TwoAlternate`), and eight hook calls
  break the bound (`Fairness.PairBreaksSpread`).
- `100 - weight` wraps in u32, so tasks heavier than 100 are served after all others
  (`prio.bpf.c:26`; `Prio.KeyOrder`, `Prio.HeavierServedLater`).
- Both lotteries stop at `random <= 0`, which gives the first task one ticket too many and the last
  one too few (`Lottery.TicketsWithoutAffinity`). So the unweighted one draws the last of two or more
  tasks only if it follows an ineligible one (`Lottery.UniformLastExactly`,
  `Lottery.LastDrawnBehindIneligible`).
- `time_slices` is an array map that nothing fills, so the default slices are unreachable and a task
  without a decision gets slice 0 (`ai_sched.bpf.c:101-123`; `AiSched.RunFollows`).
- `tasks_dispatched` is never incremented (`AiSched.Conservation`).
- `nice_value` is u32, so `<= -10` also holds for every non-negative niceness
  (`classifier.cpp:94`; `AiSched.RealtimeExactly`).
- `operator==` of the half types tells +0 from -0, although its comments speak of IEEE equality
  (`onnxruntime_float16.h:191-197`; `Float16.ZerosNotEqual`).
- The daemon clears the pending decisions after writing them, so decisions pushed between the write
  and the clear are lost, as are those of a failed write (`Daemon.MissingExactly`, `Daemon.LosesDecision`).
- `GetAttrStrings` returns one string of a zero byte for an empty list and for one empty string
  (`Decoders.GetAttrStrings`).
- A self-move of a `MemoryAllocation` frees what it holds (`MemoryAllocation.Allocation.MoveAssign`).
- `w2n.sh` starts its search at distance 100000000, so far below zero it finds nothing
  (`Nice.W2n`); sed expands `&` in a model name (`InstallModel.EditedValueExactly`).

## How the model reads the source

- Bit operations of the float conversions are arithmetic on naturals: `>> k` is division by 2^k, a
  mask of low bits is a remainder, `|=` of a bit that is clear is addition, and u32 sums are taken
  modulo 2^32 where they can wrap. A float addition or subtraction is the exact result rounded to
  nearest even. Values are counted in units of 2^-149, the smallest float32, so they are integers.
  `Log2.dfy` uses machine words.
- BPF division and remainder by zero follow section 4.1 of RFC 9669.
- A dispatch queue is a sequence, ordered by the sign of the vtime difference where it is a vtime
  queue, with later arrivals behind equal ones. Hooks are atomic. `SLICE` is the kernel's default
  slice of 20 ms (`SCX_SLICE_DFL`); the header that defines it is not part of this model.
- For `vtime.bpf.c`: one CPU, no direct dispatch to an idle CPU, `sched_running` directly after the
  task is moved, a remaining slice of at most `SLICE`, weights of at least 1 that stay fixed while a
  task is enabled. Whether a task whose slice is over is queued again before or after the next
  dispatch is the kernel's choice and not part of this model: both orders are legal runs, and the
  theorems of `Fairness.dfy` and `Fifo.dfy` name the one they are about. "Always runnable" means that
  a stopped task is queued again before another one stops. Because a task starts running in the step
  that moves it, one further sequence is no run of the model: move the next task, stop the last, queue
  it again, and only then `sched_running` of the next. There, too, the stopped task is away at the
  move, and its clamp sees the older clock.
- For `ai_sched.bpf.c`: every queued task may run on every CPU that dispatches, so a move takes the
  head of its queue. The kernel skips tasks whose CPU mask excludes the dispatching CPU, and the rank
  theorems do not hold for those; affinity is modelled for the lotteries, which test it themselves.
- An insertion with slice 0 (`fifo.bpf.c` and `prio.bpf.c` on an empty queue, `ai_sched.bpf.c`
  without a decision) stores 0. The kernel takes 0 to mean that the task keeps the
  slice it has; then the stored slice is what is left of an earlier one.
- `scx_bpf_dsq_move` succeeds for a task still queued; the random number is a parameter.
- Counters are unbounded. In the daemon each `push_back`, write and clear is one atomic step, reading
  and classifying a sample and writing decisions either succeed or fail, and `running_` is tested at
  the loop heads only.
- Lines of a configuration file are what `std::getline` yields. A model name with a backslash or `|`
  makes the command another sed script; what that script does is a parameter.
- `ReadOpAttr` fails exactly when the attribute needs more bytes than it is given room for.
- An allocation is identified by itself, not by its address, which the allocator may hand out again.
- The scripts' integers are unbounded.

## Model

| member | source | states |
|---|---|---|
| `Rounding.MagFormula` | `onnxruntime-linux-x64-1.17.1/include/onnxruntime_float16.h:248-293` | the magnitudes used throughout have the value of section 3.4 of IEEE 754: exponent, trailing significand, hidden bit exactly for a nonzero exponent |
| `Rounding.RoundBitsIsNearestEven` | `onnxruntime-linux-x64-1.17.1/include/onnxruntime_float16.h:248-293` | the rounding reference picks a pattern that no other pattern is nearer than, and an even one on a tie |
| `Rounding.NearestEvenUnique` | `onnxruntime-linux-x64-1.17.1/include/onnxruntime_float16.h:248-293` | at most one pattern is nearest with ties to even, so the reference is the only correct result |
| `Rounding.RoundedMagCorrect` | `onnxruntime-linux-x64-1.17.1/include/onnxruntime_float16.h:248-293` | with the overflow rule of section 4.3.1 (infinity exactly from half a spacing above the largest finite value), the reference rounds correctly |
| `Rounding.RoundsToUnique` | `onnxruntime-linux-x64-1.17.1/include/onnxruntime_float16.h:248-293` | correct rounding with overflow determines the result |
| `Float16.ValueOrder` | `onnxruntime-linux-x64-1.17.1/include/onnxruntime_float16.h:187-215` | the numeric order and equality of two non-NaN patterns are those of their sign-and-magnitude integers |
| `Float16.HalfToUint16` | `onnxruntime-linux-x64-1.17.1/include/onnxruntime_float16.h:248-293` | for every float32 that is not NaN the three paths return the correctly rounded binary16 with the sign kept; a NaN becomes the quiet NaN with its sign |
| `Float16.OverflowPath` | `onnxruntime-linux-x64-1.17.1/include/onnxruntime_float16.h:266-267` | from 2^16 on every magnitude rounds to infinity |
| `Float16.NormalPath` | `onnxruntime-linux-x64-1.17.1/include/onnxruntime_float16.h:278-288` | the biased integer additions and the shift are rounding to nearest even, for every normal result |
| `Float16.SubnormalPath` | `onnxruntime-linux-x64-1.17.1/include/onnxruntime_float16.h:269-276` | one correctly rounded float addition of the magic constant, less its bits, is rounding to the subnormal grid |
| `Float16.HalfMagnitude` | `onnxruntime-linux-x64-1.17.1/include/onnxruntime_float16.h:266-290` | which branch has to produce what, for every float32 magnitude |
| `Float16.RebiasWraps` | `onnxruntime-linux-x64-1.17.1/include/onnxruntime_float16.h:282-288` | adding 0xc8000fff modulo 2^32 subtracts the exponent bias and adds the rounding bias, for every magnitude of that branch |
| `Float16.HalfOverflowsAt65520` | `onnxruntime-linux-x64-1.17.1/include/onnxruntime_float16.h:248-293` | the result is infinite exactly from magnitude 65520 on |
| `Float16.NarrowRounds` | `onnxruntime-linux-x64-1.17.1/include/onnxruntime_float16.h:248-293` | the narrowing that both ToUint16Impl methods are proved equal to rounds correctly and keeps the sign |
| `Float16.NarrowMonotone` | `onnxruntime-linux-x64-1.17.1/include/onnxruntime_float16.h:248-293` | narrowing never reverses the order of two non-NaN float32 values |
| `Float16.HalfToFloat` | `onnxruntime-linux-x64-1.17.1/include/onnxruntime_float16.h:296-324` | every binary16 that is not NaN widens to the float32 of the same value and sign, and narrows back to itself; a NaN keeps its sign and, shifted, its payload; in both platform branches |
| `Float16.NarrowInvertsWiden` | `onnxruntime-linux-x64-1.17.1/include/onnxruntime_float16.h:248-324` | narrowing is a left inverse of any exact widening |
| `Float16.OpLessIsNumericOrder` | `onnxruntime-linux-x64-1.17.1/include/onnxruntime_float16.h:201-215` | operator< of binary16 holds exactly when neither side is NaN and the first number is smaller; proved for both formats |
| `Float16.OpEqualIsNumericEqualityButForZeros` | `onnxruntime-linux-x64-1.17.1/include/onnxruntime_float16.h:191-197` | operator== is equality of numbers except that it tells +0 from -0 |
| `Float16.BFloatComparisons` | `onnxruntime-linux-x64-1.17.1/include/onnxruntime_cxx_inline.h:145-167` | the same two statements for operator== and operator< of BFloat16_t |
| `Float16.ZerosNotEqual` | `onnxruntime-linux-x64-1.17.1/include/onnxruntime_float16.h:191-197` | the failing input: +0 and -0 have the same value and are not equal |
| `Float16.OpLessStrictWeakOrder` | `onnxruntime-linux-x64-1.17.1/include/onnxruntime_float16.h:187-215` | on non-NaN values operator< is a strict weak order whose ties are exactly operator== and the pairs of zeros |
| `Float16.BFloatToUint16` | `onnxruntime-linux-x64-1.17.1/include/onnxruntime_float16.h:487-516` | for every float32 that is not NaN the result is the correctly rounded bfloat16 with the sign kept; every NaN becomes 0x7FC1 |
| `Float16.DropLow16` | `onnxruntime-linux-x64-1.17.1/include/onnxruntime_float16.h:510-513` | adding 0x7FFF and the last kept bit, then dropping 16 bits, is rounding to nearest even |
| `Float16.BFloatToFloat` | `onnxruntime-linux-x64-1.17.1/include/onnxruntime_float16.h:519-540` | every bfloat16 that is not NaN widens exactly and narrows back to itself |
| `Vtime.Scheduler.SchedEnable` | `minimal-scheduler-main/minimal-scheduler-main/vtime.bpf.c:86-91` | the enabled task starts at the clock; nothing else changes |
| `Vtime.Scheduler.DsqInsertVtime` | `minimal-scheduler-main/minimal-scheduler-main/vtime.bpf.c:50` | stores the vtime in the task and links it behind every queued task whose vtime is not greater |
| `Vtime.Scheduler.SchedEnqueue` | `minimal-scheduler-main/minimal-scheduler-main/vtime.bpf.c:41-52` | the u64 hook is the enqueue step of the machine: clamp, store, ordered insertion |
| `Vtime.Scheduler.SchedDispatch` | `minimal-scheduler-main/minimal-scheduler-main/vtime.bpf.c:55-70` | dispatch and running together: the head leaves, runs, and may move the clock |
| `Vtime.Scheduler.SchedStopping` | `minimal-scheduler-main/minimal-scheduler-main/vtime.bpf.c:72-84` | the task is charged its used slice times 100 over its weight, modulo 2^64 |
| `Vtime.FullChargeExactly` | `minimal-scheduler-main/minimal-scheduler-main/vtime.bpf.c:72-84` | a full slice is charged the whole part of 2 000 000 000 over the weight |
| `Vtime.StepKeepsWellFormed` | `minimal-scheduler-main/minimal-scheduler-main/vtime.bpf.c:41-91` | every hook of each of the four machines keeps the queue free of duplicates and the running task out of it |
| `Vtime.SignedCompareExact` | `minimal-scheduler-main/minimal-scheduler-main/vtime.bpf.c:22-24` | the sign of a wrapped u64 difference is the sign of the true difference exactly when that lies in [-2^63, 2^63) |
| `Vtime.WrittenNeverSmaller` | `minimal-scheduler-main/minimal-scheduler-main/vtime.bpf.c:22-24` | isSmaller as written is never true |
| `Vtime.StepKeepsClockInv` | `minimal-scheduler-main/minimal-scheduler-main/vtime.bpf.c:41-91` | as meant: the clock never goes back, a queued vtime lies in [now - SLICE, now + 100*SLICE/weight], the queue stays ordered |
| `Vtime.ClockWindow` | `minimal-scheduler-main/minimal-scheduler-main/vtime.bpf.c:42-50` | the window in numbers: at most 20 ms behind the clock, at most 2 s over the weight ahead |
| `Vtime.StepRefines` | `minimal-scheduler-main/minimal-scheduler-main/vtime.bpf.c:41-91` | as meant: under that invariant one u64 hook does what the unbounded hook does |
| `Vtime.RunRefines` | `minimal-scheduler-main/minimal-scheduler-main/vtime.bpf.c:41-91` | as meant: over every run in which waking tasks lag like that, the u64 scheduler refines the unbounded one and the clock is monotone |
| `Vtime.ClampRefinesExactly` | `minimal-scheduler-main/minimal-scheduler-main/vtime.bpf.c:42-49` | as meant, for every lag: the wrapped clamp agrees with the unbounded one exactly if the lag, modulo 2^64, is at most 2^63 |
| `Vtime.StepRefinesExactly` | `minimal-scheduler-main/minimal-scheduler-main/vtime.bpf.c:41-91` | as meant: under the clock invariant one u64 hook does what the unbounded hook does exactly if a waking task lags like that |
| `Vtime.RunRefinesExactly` | `minimal-scheduler-main/minimal-scheduler-main/vtime.bpf.c:41-91` | as meant, for every run: the u64 scheduler is with the unbounded one after every event exactly if every waking task lags like that |
| `Vtime.WrittenStep` | `minimal-scheduler-main/minimal-scheduler-main/vtime.bpf.c:41-91` | as written: one hook leaves the clock alone and keeps each vtime equal to clock plus charges |
| `Vtime.WrittenRun` | `minimal-scheduler-main/minimal-scheduler-main/vtime.bpf.c:41-91` | as written: over every run the clock never changes, and a task's vtime is the clock plus its charges since it was enabled |
| `Fairness.StartsFair` | `minimal-scheduler-main/minimal-scheduler-main/vtime.bpf.c:86-91` | tasks enabled at one clock value and queued start in the fair state |
| `Fairness.StepKeepsFair` | `minimal-scheduler-main/minimal-scheduler-main/vtime.bpf.c:41-91` | in both forms, if tasks are queued again before the next dispatch, each hook keeps every vtime within the least vtime plus 100*SLICE/weight |
| `Fairness.EnqueueKeepsVtime` | `minimal-scheduler-main/minimal-scheduler-main/vtime.bpf.c:42-50` | an always-runnable task is never clamped in that order |
| `Fairness.FairStepRefines` | `minimal-scheduler-main/minimal-scheduler-main/vtime.bpf.c:41-91` | in both forms and that order, the u64 hook is the unbounded hook |
| `Fairness.StepServes` | `minimal-scheduler-main/minimal-scheduler-main/vtime.bpf.c:72-84` | in that order a hook moves a vtime by the weighted service it adds, less at most one unit per run |
| `Fairness.RunKeepsFair` | `minimal-scheduler-main/minimal-scheduler-main/vtime.bpf.c:41-91` | all three over whole runs of the hooks |
| `Fairness.WeightedFairness` | `minimal-scheduler-main/minimal-scheduler-main/vtime.bpf.c:41-91` | in every state of every run of tasks enabled together, always runnable and queued again before the next dispatch: vtime spread at most a full charge, weighted services differ by at most a full charge plus one unit per run, and the u64 scheduler does the same |
| `Fairness.ExchangeRuns` | `minimal-scheduler-main/minimal-scheduler-main/vtime.bpf.c:41-91` | in the other order: what stopping a task, dispatching another and then queueing the first comes to |
| `Fairness.BreaksSpread` | `minimal-scheduler-main/minimal-scheduler-main/vtime.bpf.c:41-91` | in the other order, any start of two or more tasks that can be charged has a run that breaks the spread bound |
| `Fairness.SpreadExactly` | `minimal-scheduler-main/minimal-scheduler-main/vtime.bpf.c:41-91` | for two or more tasks that can be charged, the spread bound holds in every state of every run exactly if tasks are queued again before the next dispatch; as written and as meant |
| `Fairness.PairBreaksSpread` | `minimal-scheduler-main/minimal-scheduler-main/vtime.bpf.c:41-91` | the failing input: two tasks of weight 100 and eight hook calls |
| `Fairness.TwoAlternate` | `minimal-scheduler-main/minimal-scheduler-main/vtime.bpf.c:41-91` | in the other order two tasks alternate strictly, whatever their weights |
| `Fairness.ServicesDrift` | `minimal-scheduler-main/minimal-scheduler-main/vtime.bpf.c:72-84` | so with full slices their weighted services drift apart by the difference of the two in every pair of runs |
| `Newcomer.JoinsAtHeadExactly` | `minimal-scheduler-main/minimal-scheduler-main/vtime.bpf.c:86-91` | a task just enabled joins at the head exactly if the task there is ahead of the clock; in u64 and unbounded, as written and as meant |
| `Newcomer.ChargedWhileWaiting` | `minimal-scheduler-main/minimal-scheduler-main/vtime.bpf.c:41-91` | in both forms, over every run in which u waits and p is not enabled again: p is charged at most the lead of u and one full charge |
| `Newcomer.BoundedAsMeant` | `minimal-scheduler-main/minimal-scheduler-main/vtime.bpf.c:86-91` | as meant: a task just enabled is charged at most a full charge of a waiting task and one of its own before that one runs |
| `Newcomer.ServedFirstAsWritten` | `minimal-scheduler-main/minimal-scheduler-main/vtime.bpf.c:86-91` | as written: it is first charged all that the older tasks are ahead of the clock, however much that is; for always-runnable tasks queued again before the next dispatch |
| `Newcomer.WrittenRunRefines` | `minimal-scheduler-main/minimal-scheduler-main/vtime.bpf.c:41-91` | as written: the u64 scheduler takes every run of the unbounded one in which a task joins within 2^63 of those queued |
| `Newcomer.RoundRuns` | `minimal-scheduler-main/minimal-scheduler-main/vtime.bpf.c:41-91` | one round of enabling, queueing, dispatching and a full slice changes only the task itself |
| `Newcomer.EnabledOverAndOver` | `minimal-scheduler-main/minimal-scheduler-main/vtime.bpf.c:86-91` | any number of such rounds: the task gets a full slice in each and the waiting tasks stay as they are; in u64 and unbounded, as written and as meant |
| `Lottery.Scheduler.SumWeights` | `minimal-scheduler-main/minimal-scheduler-main/lottery_prio.bpf.c:37-40` | the loop's u32 sum is the sum of all weights modulo 2^32 |
| `Lottery.Scheduler.DispatchWeighted` | `minimal-scheduler-main/minimal-scheduler-main/lottery_prio.bpf.c:34-54` | moves the drawn task to this CPU; of the others, those before it keep their places and those after it move up by one; without a drawn task nothing changes |
| `Lottery.Scheduler.DispatchUniform` | `minimal-scheduler-main/minimal-scheduler-main/lottery.bpf.c:32-46` | the same for the unweighted draw |
| `Lottery.SelectExactly` | `minimal-scheduler-main/minimal-scheduler-main/lottery_prio.bpf.c:42-52` | index i is selected exactly by the draws from the threshold left by the last eligible task before it to the weights up to and including it |
| `Lottery.ExactTickets` | `minimal-scheduler-main/minimal-scheduler-main/lottery_prio.bpf.c:34-54` | the number of residues that select index i, by counting the set of them |
| `Lottery.TicketsWithoutAffinity` | `minimal-scheduler-main/minimal-scheduler-main/lottery_prio.bpf.c:34-54` | with every task eligible: the weight, plus 1 for the first and minus 1 for the last |
| `Lottery.TicketsPassOn` | `minimal-scheduler-main/minimal-scheduler-main/lottery_prio.bpf.c:43-52` | the tickets of ineligible tasks pass to the next eligible one |
| `Lottery.TicketsOfFirst` | `minimal-scheduler-main/minimal-scheduler-main/lottery_prio.bpf.c:43-52` | the first eligible task gets the tickets of the ineligible ones before it and one more, less one if it is the last in the queue |
| `Lottery.NothingExactly` | `minimal-scheduler-main/minimal-scheduler-main/lottery_prio.bpf.c:43-53` | exactly the draws past the last eligible task dispatch nothing |
| `Lottery.DrawIsResidue` | `minimal-scheduler-main/minimal-scheduler-main/lottery_prio.bpf.c:42` | below a weight sum of 2^31 the draw is the residue of the random number |
| `Lottery.CountResidues` | `minimal-scheduler-main/minimal-scheduler-main/lottery_prio.bpf.c:42` | in k blocks of the modulus and a rest, how many numbers have a residue in a given interval |
| `Lottery.ExactDraws` | `minimal-scheduler-main/minimal-scheduler-main/lottery_prio.bpf.c:34-54` | exactly how many of the 2^32 random values select an eligible task, hence between its tickets times the number of weight sums in 2^32 rounded down and rounded up |
| `Lottery.NoDrawsForIneligible` | `minimal-scheduler-main/minimal-scheduler-main/lottery_prio.bpf.c:43-53` | none selects an ineligible task |
| `Lottery.LastDrawnExactly` | `minimal-scheduler-main/minimal-scheduler-main/lottery_prio.bpf.c:34-54` | for weights of at least 1 and a sum below 2^31, some random value draws the last task exactly if it is eligible and is alone, or follows an ineligible task, or has weight 2 or more |
| `Lottery.UniformIsUnitWeighted` | `minimal-scheduler-main/minimal-scheduler-main/lottery.bpf.c:32-46` | the unweighted lottery is the weighted one with all weights 1, for every queue, random number and affinity |
| `Lottery.UniformLastExactly` | `minimal-scheduler-main/minimal-scheduler-main/lottery.bpf.c:32-46` | unweighted, for every queue and affinity: some random value draws the last task exactly if it is eligible and is alone or follows an ineligible task |
| `Lottery.UniformNeverLast` | `minimal-scheduler-main/minimal-scheduler-main/lottery.bpf.c:32-46` | so if all of two or more tasks are eligible the last is never drawn, and some task always is |
| `Lottery.LastDrawnBehindIneligible` | `minimal-scheduler-main/minimal-scheduler-main/lottery.bpf.c:32-46` | a queue with an ineligible task before the last, whose last task the random value 2 draws |
| `Prio.Scheduler.SchedEnqueue` | `minimal-scheduler-main/minimal-scheduler-main/prio.bpf.c:24-28` | inserts behind every entry whose key is not greater, with the slice for the current queue length |
| `Prio.Scheduler.SchedDispatch` | `minimal-scheduler-main/minimal-scheduler-main/prio.bpf.c:31-34` | moves the head |
| `Prio.KeyOrder` | `minimal-scheduler-main/minimal-scheduler-main/prio.bpf.c:26` | the key wraps: weights up to 100 come first in falling order, then all heavier ones in falling order |
| `Prio.RunKeepsInv` | `minimal-scheduler-main/minimal-scheduler-main/prio.bpf.c:24-34` | over every run: the queue is in service order, and every entry made is queued or moved, once |
| `Prio.DrainInServiceOrder` | `minimal-scheduler-main/minimal-scheduler-main/prio.bpf.c:24-34` | draining after any run serves all waiting tasks in service order, equal weights in order of arrival |
| `Prio.NonIncreasingExactly` | `minimal-scheduler-main/minimal-scheduler-main/prio.bpf.c:26` | the drain is in non-increasing weight exactly if the queue does not hold weights from both sides of 100 |
| `Prio.HeavierServedLater` | `minimal-scheduler-main/minimal-scheduler-main/prio.bpf.c:24-34` | a run that serves weight 100 before weight 101, which arrived first |
| `Fifo.Scheduler.SchedEnqueue` | `minimal-scheduler-main/minimal-scheduler-main/fifo.bpf.c:22-27` | appends the task with the slice 5000000 / queue length, 0 for an empty queue |
| `Fifo.Scheduler.SchedDispatch` | `minimal-scheduler-main/minimal-scheduler-main/fifo.bpf.c:30-33` | the head leaves the queue and runs |
| `Kernel.SliceFor` | `minimal-scheduler-main/minimal-scheduler-main/fifo.bpf.c:24` | the whole part of 5 000 000 ns over the length found, and 0 for an empty queue |
| `Kernel.BpfModExactly` | `minimal-scheduler-main/minimal-scheduler-main/lottery_prio.bpf.c:42` | a BPF remainder: the dividend for a zero divisor, else what the quotient leaves, below the divisor |
| `Fifo.TurnRotates` | `minimal-scheduler-main/minimal-scheduler-main/fifo.bpf.c:22-33` | a turn moves the running task to the end of the line with a new slice |
| `Fifo.LineAfter` | `minimal-scheduler-main/minimal-scheduler-main/fifo.bpf.c:22-33` | after k turns the line is rotated by k and the last k tasks hold new slices |
| `Fifo.RoundsReturn` | `minimal-scheduler-main/minimal-scheduler-main/fifo.bpf.c:22-33` | whole rounds bring the line back |
| `Fifo.RotationForever` | `minimal-scheduler-main/minimal-scheduler-main/fifo.bpf.c:22-33` | after any number of rounds and i turns, task i of the first line runs |
| `Fifo.SettledAfterRound` | `minimal-scheduler-main/minimal-scheduler-main/fifo.bpf.c:22-33` | after one round every slice is that of the length found at the re-enqueue |
| `Fifo.SettledSlices` | `minimal-scheduler-main/minimal-scheduler-main/fifo.bpf.c:22-33` | the slices of a settled line in nanoseconds, from both sides |
| `Fifo.TurnsBounded` | `minimal-scheduler-main/minimal-scheduler-main/fifo.bpf.c:22-33` | from then on any k turns last at most k such slices |
| `Fifo.WholeTurns` | `minimal-scheduler-main/minimal-scheduler-main/fifo.bpf.c:22-33` | the bound is met: with whole slices any k settled turns last exactly k such slices |
| `Fifo.RoundBound` | `minimal-scheduler-main/minimal-scheduler-main/fifo.bpf.c:22-33` | a full round lasts at most n * (5000000 / m) ns: 10 ms if tasks are queued before the dispatch (m = n - 1), 15 ms if after it (m = n - 2) |
| `Fifo.SettledForGood` | `minimal-scheduler-main/minimal-scheduler-main/fifo.bpf.c:22-33` | from the first round on every state is settled |
| `Fifo.EveryLaterRoundBounded` | `minimal-scheduler-main/minimal-scheduler-main/fifo.bpf.c:22-33` | end to end: from any start, once each task has been queued again every later round keeps the bound |
| `AiSched.Scheduler.constructor` | `kernel/ai_sched.bpf.c:294-314` | empty queues, balanced mode, zero counters, and time_slices left all zero |
| `AiSched.Scheduler.AiSchedEnqueue` | `kernel/ai_sched.bpf.c:325-361` | the hook is the enqueue step of the machine |
| `AiSched.Scheduler.AiSchedDispatch` | `kernel/ai_sched.bpf.c:372-400` | the hook is the dispatch step: the head of the first nonempty queue in strict priority |
| `AiSched.Scheduler.UpdateStatistics` | `kernel/ai_sched.bpf.c:266-286` | the counters after an enqueue |
| `AiSched.MemoryMbExactly` | `kernel/ai_sched.bpf.c:143-146` | the memory estimate for every page count: pages / 256 exactly below 2^40 pages, and what is lost above |
| `AiSched.FallbackExactly` | `kernel/ai_sched.bpf.c:128-169` | the exact condition on the task for each of the five classes |
| `AiSched.SliceExactly` | `kernel/ai_sched.bpf.c:101-123` | a found entry is used as it is; the default slices of a failed lookup |
| `AiSched.SelectDsqExactly` | `kernel/ai_sched.bpf.c:172-217` | the queue by class, device and energy mode, in the numbers of ai_sched.h: a device has its own queue; without one, exactly which tasks go to DSQ_PERF, DSQ_EFF and DSQ_FALLBACK |
| `AiSched.EnergyMovesBatchOnly` | `kernel/ai_sched.bpf.c:172-217` | two energy modes route a task differently exactly if it is a batch task without a device preference and one of them saves energy |
| `AiSched.UndecidedFallsBackExactly` | `kernel/ai_sched.bpf.c:128-217` | which tasks without a decision reach DSQ_FALLBACK, in terms of the task's own fields |
| `AiSched.DispatchTakesHead` | `kernel/ai_sched.bpf.c:372-400` | the five queues act as one line: a dispatch takes its head |
| `AiSched.EnqueueEntersLine` | `kernel/ai_sched.bpf.c:325-361` | an enqueue enters the line behind its own queue and before every lower one |
| `AiSched.RunKeepsRouted` | `kernel/ai_sched.bpf.c:325-400` | in every reachable state each queue holds only entries routed to it |
| `AiSched.RankStep` | `kernel/ai_sched.bpf.c:325-400` | a dispatch lowers a waiting task's rank by one or moves it at rank 0; an enqueue raises it by one exactly if it goes to a higher queue; nothing else changes it |
| `AiSched.LeavesAfterRank` | `kernel/ai_sched.bpf.c:325-400` | without arrivals in higher queues a task of rank i is moved by dispatch i + 1, over every run |
| `AiSched.Conservation` | `kernel/ai_sched.bpf.c:266-400` | over every run from init each entry is in one queue or moved once; tasks_enqueued is their number; the other counters count what their names say; tasks_dispatched stays 0 |
| `AiSched.RunKeepsBalanced` | `kernel/ai_sched.bpf.c:266-400` | the same from any balanced state |
| `AiSched.HeuristicExactly` | `ai/classifier.cpp:80-113` | the exact condition on the sample for each class |
| `AiSched.BiggerIsBatch` | `ai/classifier.cpp:97-102` | more memory or threads never takes a task out of the batch class, nor to any other class |
| `AiSched.DecidesExactly` | `ai/classifier.cpp:42-171` | class, device, slice and all other fields of the decision, in numbers |
| `AiSched.Classify` | `ai/classifier.cpp:42-67` | a null argument is the error and changes nothing; otherwise the buffer holds the decision that the sample and the clock determine |
| `AiSched.RealtimeExactly` | `ai/classifier.cpp:94-95` | the unsigned niceness test holds for all nice values but -9..-1, so it differs from the intended test exactly for the non-negative ones |
| `AiSched.RoutingAgrees` | `ai/classifier.cpp:115-171` | a classified decision goes, in every energy mode, where its class belongs without a device, DSQ_PERF or DSQ_EFF, and its slice survives the trip through microseconds |
| `AiSched.RecordsAreLog` | `kernel/ai_sched.bpf.c:325-361` | the records of a run are records of exactly the entries it makes |
| `AiSched.MapsFollowHistory` | `kernel/ai_sched.bpf.c:294-345` | after every run from init: the decision found is the one stored last for the process, the mode the one set last or balanced, and time_slices is all zero |
| `AiSched.EnqueueFollows` | `kernel/ai_sched.bpf.c:325-361` | what an enqueue after any run from init does, from the events of that run |
| `AiSched.RunFollows` | `kernel/ai_sched.bpf.c:325-361` | over every run from init, whatever is stored: every entry follows the decision in class, queue and slice; without one it has the fallback class, its queue, and slice 0 |
| `AiSched.BatchRunsOnPerfUntilSet` | `kernel/ai_sched.bpf.c:202-207` | until an energy mode is set a batch task without a device goes to DSQ_PERF |
| `AiSched.EntryAgrees` | `kernel/ai_sched.bpf.c:335-358` | with classified decisions only, an enqueue goes where the class belongs without a device, with a slice of 1, 2, 20 or 50 ms by class, or 0 without a decision |
| `AiSched.AgreeingRun` | `kernel/ai_sched.bpf.c:325-400` | the same for every entry of every run from an agreeing state |
| `AiSched.RunAgrees` | `kernel/ai_sched.bpf.c:325-400` | the same for every run from init, and DSQ_GPU and DSQ_NPU stay empty |
| `Daemon.AieDaemon.TelemetryLoopTest` | `daemon/aie_daemon.cpp:220` | the telemetry loop tests running_ |
| `Daemon.AieDaemon.AcceptSample` | `daemon/aie_daemon.cpp:222-230` | a sample is appended, and the tenth starts classification |
| `Daemon.AieDaemon.ClassifyNext` | `daemon/aie_daemon.cpp:257-274` | one sample is classified and, if that succeeds, its decision appended |
| `Daemon.AieDaemon.NoSample` | `daemon/aie_daemon.cpp:222-234` | a timeout or error leaves the vectors alone |
| `Daemon.AieDaemon.FinishClassification` | `daemon/aie_daemon.cpp:277` | the batch is cleared |
| `Daemon.AieDaemon.DecisionLoopTest` | `daemon/aie_daemon.cpp:243` | the decision loop tests running_ |
| `Daemon.AieDaemon.PushNothing` | `daemon/aie_daemon.cpp:282-284` | an empty vector is not written |
| `Daemon.AieDaemon.RequestShutdown` | `daemon/aie_daemon.cpp:209-212` | running_ becomes false and nothing else changes |
| `Daemon.AieDaemon.WriteDecisions` | `daemon/aie_daemon.cpp:280-298` | the pending vector is written, or the write fails |
| `Daemon.AieDaemon.ClearPending` | `daemon/aie_daemon.cpp:300` | the pending vector is cleared whatever was appended since the write |
| `Daemon.StepKeepsTelemetryInv` | `daemon/aie_daemon.cpp:220-277` | fewer than ten samples pend at the loop head, a batch has exactly ten, and accepted is classified followed by pending |
| `Daemon.StepKeepsDecisionInv` | `daemon/aie_daemon.cpp:239-301` | one step keeps the written decisions an in-order, duplicate-free selection of those pushed |
| `Daemon.RunKeepsInv` | `daemon/aie_daemon.cpp:213-301` | both invariants over every interleaving of the two threads and the shutdown |
| `Daemon.StopsAfterShutdown` | `daemon/aie_daemon.cpp:209-249` | after a shutdown the threads take at most 16 more steps in all, and are stuck exactly when both have returned |
| `Daemon.ReturnsOnlyAfterShutdown` | `daemon/aie_daemon.cpp:209-249` | a thread returns only after a shutdown |
| `Daemon.GoesOnAfterShutdown` | `daemon/aie_daemon.cpp:209-249` | a thread past its loop test still accepts its sample or writes its decisions |
| `Daemon.MissingExactly` | `daemon/aie_daemon.cpp:279-301` | decisions are lost over a run exactly if some clear follows a failed write or a push between write and clear |
| `Daemon.LosslessExactly` | `daemon/aie_daemon.cpp:279-301` | written decisions are a prefix of those pushed, with the unwritten pending ones as the rest, exactly if no clear ever dropped any |
| `Daemon.LosesDecision` | `daemon/aie_daemon.cpp:279-301` | the failing input: a run from init in which every write succeeds and a decision is lost |
| `Daemon.PushedAreClassified` | `daemon/aie_daemon.cpp:251-277` | the decisions are for those samples classified, in order, whose classification succeeded, and for no others; for all outcomes |
| `Config.TrimString` | `common/config.cpp:59-66` | the search for the first and last non-blank computes Trim |
| `Config.TrimSplits` | `common/config.cpp:59-66` | trimming keeps a trimmed core between two runs of blanks |
| `Config.TrimDrops` | `common/config.cpp:59-66` | blanks around a text do not change what trimming keeps |
| `Config.Configuration.Load` | `common/config.cpp:16-42` | a file that cannot be opened is the error and changes nothing; otherwise the lines are applied in order |
| `Config.Configuration.LoadLine` | `common/config.cpp:24-39` | the in-place editing of one line binds what ParseLine says |
| `Config.ParseLineExactly` | `common/config.cpp:25-36` | what a line binds, from its text before the comment and its first =, showing the trim of the whole line to be redundant |
| `Config.KeyLineParses` | `common/config.cpp:25-36` | key=anything binds the key to the rest without comment and outer blanks |
| `Config.LastBindingWins` | `common/config.cpp:22-39` | after loading, a key has the value of the last line that binds it, else what it had |
| `Config.LoadedLookup` | `common/config.cpp:46-57` | what has and get answer after a load, from the lines alone |
| `Config.LoadInTurn` | `common/config.cpp:22-39` | loading two line sequences in turn is loading their concatenation |
| `Config.FilesInTurn` | `common/config.cpp:16-42` | loading two files in turn is loading one after the other in one file |
| `Config.PrintThenLoad` | `common/config.cpp:16-42` | loading printed bindings applies them in order |
| `Config.RoundTrip` | `common/config.cpp:16-42` | loading the printing of any map of plain keys and values into an empty object gives the map back |
| `InstallModel.Host.UpdateConfig` | `packaging/install_model.sh:35-46` | an existing file is edited line by line, or left as it was if sed fails, as on a newline in the name; a missing one is written |
| `InstallModel.Sed` | `packaging/install_model.sh:36` | the line-by-line substitution computes Edit |
| `InstallModel.LinesOfEdit` | `packaging/install_model.sh:36` | the lines of the edited file are the edited lines |
| `InstallModel.EditedLinesExactly` | `packaging/install_model.sh:36` | exactly the lines that start with model_path= are rewritten |
| `InstallModel.EditedLineParses` | `packaging/install_model.sh:36` | a matching line binds model_path before and after |
| `InstallModel.EditChangesOnlyPath` | `packaging/install_model.sh:36` | no other key changes, and model_path is bound afterwards exactly if it was before |
| `InstallModel.EditedValueExactly` | `packaging/install_model.sh:36` | a matching line is set to the path exactly if the path has no #, no & and no trailing blank |
| `InstallModel.EditSetsPath` | `packaging/install_model.sh:36` | if the last line binding model_path starts with model_path=, the loaded value becomes the new path exactly if the name has no #, no & and no trailing blank; if not, it is what it was |
| `InstallModel.EditAddsNothing` | `packaging/install_model.sh:36` | a file that binds model_path nowhere still does not |
| `InstallModel.FreshFileLoads` | `packaging/install_model.sh:40-43` | the fresh file loads to model_path and classifier, the path without comment and outer blanks |
| `Nice.W2n` | `minimal-scheduler-main/minimal-scheduler-main/w2n.sh:7-25` | the search returns the smallest nice value whose weight is nearest, exactly for weights from 2 - 100000000 up; below that it returns -20 |
| `Nice.TiesGoToLarger` | `minimal-scheduler-main/minimal-scheduler-main/w2n.sh:18-21` | of equally near weights the larger is taken |
| `Nice.NonIncreasing` | `minimal-scheduler-main/minimal-scheduler-main/w2n.sh:7-25` | a larger weight never gets a larger nice value |
| `Nice.RoundTrip` | `minimal-scheduler-main/minimal-scheduler-main/w2n.sh:7-25` | the weight of a nice value searches back to a nice value of that weight, the same one unless it is 15 or 18 |
| `Nice.WeightsExactly` | `minimal-scheduler-main/minimal-scheduler-main/n2w.sh:14-59` | the weight printed for each of the 40 nice values; 100 for nice 0 |
| `Nice.QuarterSteps` | `minimal-scheduler-main/minimal-scheduler-main/n2w.sh:14-23` | each step of the table is a factor of 1.25 to within 4%, around 1024 for nice 0 |
| `Nice.RefusedExactly` | `minimal-scheduler-main/minimal-scheduler-main/n2w.sh:50-53` | every number outside -20 to 19 is refused |
| `Nice.WeightsSorted` | `minimal-scheduler-main/minimal-scheduler-main/n2w.sh:14-42` | weights never rise with the nice value, and collide exactly at 14/15 and 17/18 |
| `Nice.CgroupWeightRounds` | `minimal-scheduler-main/minimal-scheduler-main/n2w.sh:29-42` | rounding to the nearest, halves up, within the two bounds |
| `Log2.Log2U32` | `kernel/scx/common.bpf.h:399-410` | 2^r <= v < 2^(r + 1) for every v >= 1, and 0 for 0 |
| `Log2.Log2U64` | `kernel/scx/common.bpf.h:416-423` | the bit length for every v >= 1 across the 32-bit split, and 1 for 0 |
| `Decoders.Walk` | `onnxruntime-linux-x64-1.17.1/include/onnxruntime_cxx_inline.h:2053-2063` | the pointer walk ends, and returns NUL-free strings whose encoding is the buffer |
| `Decoders.EncodeInjective` | `onnxruntime-linux-x64-1.17.1/include/onnxruntime_cxx_inline.h:2053-2063` | only one list of NUL-free strings has a given encoding |
| `Decoders.GetAttrStrings` | `onnxruntime-linux-x64-1.17.1/include/onnxruntime_cxx_inline.h:2044-2067` | returns the strings of the attribute for every list of NUL-free strings but the empty list and the list of one empty string, which become one string of a zero byte |
| `Decoders.GetOutputNamesHelper` | `onnxruntime-linux-x64-1.17.1/include/onnxruntime_cxx_inline.h:360-385` | cuts the buffer into names of the given lengths and frees both buffers, or returns early with neither freed for a count of 0 |
| `Decoders.CutsUnique` | `onnxruntime-linux-x64-1.17.1/include/onnxruntime_cxx_inline.h:378-383` | there is only one such cut |
| `Decoders.CutInvertsConcat` | `onnxruntime-linux-x64-1.17.1/include/onnxruntime_cxx_inline.h:378-383` | cutting a concatenation by its lengths gives the names back |
| `MemoryAllocation.Allocation.MoveAssign` | `onnxruntime-linux-x64-1.17.1/include/onnxruntime_cxx_inline.h:185-203` | the target takes what the source held, the source is left empty, the target's old allocation is freed with its own allocator; a self-move frees and empties |
| `MemoryAllocation.Allocation.Move` | `onnxruntime-linux-x64-1.17.1/include/onnxruntime_cxx_inline.h:181-183` | the new object takes what the source held, and nothing is freed |
| `MemoryAllocation.Allocation.Destroy` | `onnxruntime-linux-x64-1.17.1/include/onnxruntime_cxx_inline.h:173-179` | frees what the object holds, if anything, with the allocator it holds |
| `MemoryAllocation.Program.Construct` | `onnxruntime-linux-x64-1.17.1/include/onnxruntime_cxx_inline.h:169-171` | constructing a named object is the step of the run model |
| `MemoryAllocation.Program.ConstructFrom` | `onnxruntime-linux-x64-1.17.1/include/onnxruntime_cxx_inline.h:181-183` | so is move construction |
| `MemoryAllocation.Program.Assign` | `onnxruntime-linux-x64-1.17.1/include/onnxruntime_cxx_inline.h:185-203` | so is move assignment between any two objects, the same one included |
| `MemoryAllocation.Program.EndLife` | `onnxruntime-linux-x64-1.17.1/include/onnxruntime_cxx_inline.h:173-179` | so is destruction |
| `MemoryAllocation.StepKeepsAccounts` | `onnxruntime-linux-x64-1.17.1/include/onnxruntime_cxx_inline.h:169-203` | every operation keeps an allocation either owned by one object that also holds its allocator, or freed once with that allocator |
| `MemoryAllocation.FreedAtMostOnce` | `onnxruntime-linux-x64-1.17.1/include/onnxruntime_cxx_inline.h:169-203` | over every run no allocation is freed twice or with a foreign allocator, and it has been freed exactly if no object holds it any more |
| `MemoryAllocation.AllFreedAtTheEnd` | `onnxruntime-linux-x64-1.17.1/include/onnxruntime_cxx_inline.h:169-203` | when every object is destroyed each allocation has been given back exactly once, to its own allocator, and nothing else was |

## Left out

- The rest of the ONNX Runtime headers: declarations and thin wrappers over a library that is not here.
- ONNX inference (`ai/onnx_classifier.cpp`): calls into that library; only the heuristic classifier is modelled.
- The IPC layer (`daemon/ipc/ipc_interface.cpp`): its samples and the result of its writes are parameters of the daemon's steps.
- Telemetry emission (`kernel/telemetry.bpf.c`, `emit_telemetry`): field copies, which would add only easy members.
- Device detection and backends: file probes and logging, and a fallback chain read off one switch.
- `aie_top`, workloads, installers, image and service files: interface and file copying, apart from the model_path edit.
- `fcfs.bpf.c` and `sched_ext.bpf.c`: a simpler form and a copy of the FIFO scheduler.
- Kernel internals below the dispatch queues: idle-CPU selection, preemption, hotplug, and real concurrency inside one hook or between CPUs.
- Fairness.WeightedFairness: is about tasks that are always runnable on one CPU and queued again before the next dispatch, the exact order by Fairness.SpreadExactly; tasks that sleep and wake are covered by the clock theorems instead. The sequence that starts a task after the last one is queued again is not covered.
- Vtime.RunRefines: assumes waking tasks at lags the wrapped clamp gets right; Vtime.RunRefinesExactly states that this is necessary, too.
- Lottery.ExactTickets: is for weight sums below 2^31; above, the draw can be negative in s32, which the contract of DispatchWeighted still describes.
- Lottery.Scheduler.DispatchUniform: assumes fewer than 2^31 queued tasks.
- AiSched.LeavesAfterRank: assumes that every queued task may run on the dispatching CPU.
- InstallModel.Host.UpdateConfig: leaves out copying the model, setting file permissions, and what sed does with a script that a backslash or `|` in the name turns the command into.
- Nice.W2n: leaves out non-numeric arguments and the 64-bit limits of shell arithmetic.
