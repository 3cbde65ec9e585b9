# bls verification model

A Dafny 4.11 model of the parts of `bls` whose correctness is more than plumbing: the sched_ext
scheduler, the loader and harness code that configures it, the numeric core of the rail model, the
rank statistics and the RAPL counter unwrapping. `dafny verify dfyconfig.toml` checks everything.

## What is modelled

**The scheduler (`src/bls.bpf.c`)** is modelled twice. `SchedModel` is a transition system: task
storage, the two shared queues (DSQs), a local queue, a running task, an idle bit and a kick per
CPU, the tasks between `select_cpu` and `enqueue`, the counters; one event per callback or kernel
move; `ValidRun` says which histories the kernel's calling discipline allows. All theorems about
runs quantify over every valid history. `BlsScheduler` is the imperative form: a class whose
methods update fields in place, search CPUs and queues with loops, and are each proved to take the
state to the one that `SchedModel` names; `Replay` carries this over whole histories.
What the callbacks do to a task is said once more without those functions: `SchedPlacement` from idle
bits, masks and domains, `SchedBirth` from the comma lists on the loader's command line.

The kernel is represented by assumptions, all visible in `SchedModel.Enabled` and `SchedModel.Step`:

- callbacks of one task come in order (`select_cpu` or a fork, then `enqueue` if it was not placed,
  `running`, `stopping`), and a stopped task that stays runnable goes back through `enqueue`;
- `dsq_insert` appends, `dsq_move_to_local` takes the first queued task allowed on the CPU, and
  nothing else takes a task off a shared queue; `test_and_clear_cpu_idle` is atomic;
- a CPU asks for work only when its local queue is empty, and becomes idle in the same step as a
  dispatch that found nothing;
- affinity masks and the CPU set do not change while tasks are queued, no higher scheduling class
  takes a CPU away with slice remaining, and one wakeup touches one task.

`SchedLimits` adds one kernel move to these: a CPU that goes idle without another dispatch after its
last task went back through `enqueue`, the case that SCX_OPS_ENQ_LAST (src/bls.bpf.c:404) is about.

**The glue** (`src/bls.c`, `scripts/bench.py`): rendering and parsing CPU lists in two languages,
the domain map, the comm-rule table against the in-kernel matcher, the SMT split check against the
harness's default partition. The theorems compose across files.

**The rail model** (`sim/rail_model.py`) over exact reals: V(f), package power on a shared rail and
on split rails, the bisection under a power cap, Gaussian elimination, the calibration fit, the
race-to-idle sweep. The exponential is a parameter of which only sign and monotonicity are used, and
in `NoFloorCurve` that it lies above its tangents.
The voltage curve is a parameter too (`RailModel.Laws`), because most results hold for every
monotone curve; `RailModel.ShippedIsLawful` proves that the shipped table is one, and
`NoFloorCurve` uses its exact values.

**Statistics and counters**: `rankdata`, `pearson`, `spearman` of `scripts/analyze.py` (the square
root is avoided by returning what it is taken of; `CorrelationValue` pins the quotient without it),
and `rapl_delta_j` with priming and sampling of `src/energy.c`.

## Findings

Where the code and what is said about it differ, the model follows the code.

- The kick of `enqueue` stays in the task's own domain (src/bls.bpf.c:214-231), so a BIG task can be
  left beside an idle LITTLE CPU for good. With unrestricted affinity no run strands a task exactly
  when there are no tasks, or mode is flat and every CPU is BIG (`SchedLimits.CrossDomainExactly`,
  with a two-CPU instance). In strict mode a strand across domains is what the option asks for.
- Inside a domain the kicks are enough if the masks of any two tasks are equal or disjoint there
  (`SchedWakeup.NoLostWakeupInClasses`). They are also enough, whatever the masks, on two
  CPUs that share tasks with no third one of the domain (`SchedPairs`). On three CPUs two families of
  overlapping masks fail (`SchedLimits.OverlapStrands`, with an instance, and `DiversionStrands`);
  between them the answer depends on how many tasks share a mask and is not settled here.
- The guarantee also needs a CPU to look at its queues before it sleeps: if the kernel ever idled a
  CPU right after its last task was put back, that task would be stranded, on every machine where
  some task can belong to the domain of a CPU it may run on, and on no other.
- `pick_idle_in_dom` takes the previous CPU without looking at the affinity mask
  (src/bls.bpf.c:195-198). `SchedAffinity` shows that this is the only way a task reaches a CPU outside
  its mask, and that some run does so exactly when some task is barred from a CPU of a domain that it
  can belong to; one flat machine with two CPUs and mask {1} is the instance.
- A stop that reads a clock behind `started_at` adds about 18446744073709 ms to a run counter
  (`SchedAccounting.BackwardsClockJump`); data/results.csv:197 shows 18446744074729. At one stop
  the difference is the elapsed time exactly when the clock did not step back; over whole runs the
  accounting is proved for clocks that do not.
- Hysteresis: three stops separate a promotion from the next demotion for every threshold; the
  bound is reached exactly at 2, 4 and 6 ns and from 8 ns on (`Hysteresis.ThreeStopsExactly`).
- The `scx-flat` arm never passes `--flat` (scripts/bench.py:525-529), so the flat-mode theorems are
  about `--flat` itself. `main` ignores the result of `check_smt_split` (src/bls.c:544).
- `parse_cpulist` in Python rejects the empty string that `cpulist([])` renders, while the loader
  accepts it; the round trip holds exactly for non-empty sorted lists.
- "Design matrix is singular" (sim/rail_model.py:1066-1068) is never reported: the constant column
  keeps the diagonal term above the solver's tolerance, for any data.
- The design rows of `calibrate` agree with `package_power` for samples with an active core; for an
  idle sample they are off by the fitted floor minus the idle package constant.
- The list called `clamped_to_prior` is accurate for C_eff only; the other two are clamped to 0
  (sim/rail_model.py:1071-1080).
- `freq_under_power_cap` misses tightness in one case only: the cap is exactly used up at the lowest
  frequency by a load that does not react to frequency, for instance no core at all under a cap of
  0.15 W (`PowerCap.IdleCapNotTight`). Its 60 rounds are never exhausted; 16 do.
- "Without a floor, energy falls monotonically toward f_min" (sim/rail_model.py:817-818) is false as
  shipped, leakage included: the ring stops scaling below 800 MHz and leakage is paid for longer. The
  claim holds exactly when cores times C_eff outweighs what the lowest step saves on ring and leakage;
  without leakage that is about 12.26 W/(V^2 GHz), leakage only raises it, and the shipped value is 2.2
  per core.
- `rapl_delta_j` loses nothing to a failed read, but if the priming read fails the total includes
  the settling time; with an unknown counter range the total of a run is exact exactly when the counter
  never turned, and too small otherwise.

## Model

| member | source | states |
|---|---|---|
| SchedModel.PrefixRun | src/bls.bpf.c:233-375 | every prefix of a valid history is valid |
| SchedConservation.TasksConserved | src/bls.bpf.c:233-301 | in every reachable state each runnable task is in exactly one place (a shared queue, a local queue, a CPU, or between `select_cpu` and `enqueue`) and each sleeping task in none |
| SchedConservation.RunsOnlyThere | src/bls.bpf.c:281-301 | a running task is queued nowhere and runs on no second CPU |
| SchedConservation.StepConserves | src/bls.bpf.c:233-375 | every call keeps conservation |
| SchedPartition.RunOrderly | src/bls.bpf.c:107-122 | in every reachable state idle CPUs have nothing and owe nothing, local queues hold at most one task, queued tasks sit in the queue of their current domain with its slice |
| SchedPartition.StealIsExact | src/bls.bpf.c:248-301 | the STEAL counter is the number of starts on a CPU of the other domain plus those still to start, on every run, strict or not |
| SchedPartition.StrictNeverSteals | src/bls.bpf.c:256-301 | with strict domains STEAL is 0 after every run, so the reported cross-domain fraction is 0 |
| SchedPartition.StrictPartition | src/bls.bpf.c:233-355 | with strict domains every start, anywhere in any run, is on a CPU of the task's domain at that moment, although stops reclassify |
| SchedPlacement.WakeupLands | src/bls.bpf.c:189-266 | a wakeup puts the task on the idle previous CPU of its domain, else on the lowest allowed idle CPU of its domain, else, unless strict, on the lowest one of the other domain, else leaves it waiting; the returned CPU, the slice, the counters and everything that stays the same, said with idle bits, masks and domains alone |
| SchedPlacement.WaitsExactly | src/bls.bpf.c:233-266 | it waits exactly when the previous CPU is of no use, its domain has no allowed idle CPU, and the partition is strict or the other domain has none |
| SchedPlacement.NoWaitBesideIdle | src/bls.bpf.c:233-266 | over every non-strict run a wakeup waits exactly when no idle CPU may run the task and the previous CPU is of no use |
| SchedPlacement.EnqueueLands | src/bls.bpf.c:214-279 | an enqueue appends the task to its domain's queue with that domain's slice, counts it there, and kicks exactly the lowest allowed idle CPU of the domain |
| SchedPlacement.DispatchTakes | src/bls.bpf.c:281-301 | the whole state after a dispatch that finds something: the first allowed entry, own queue first |
| SchedPlacement.DispatchSleeps | src/bls.bpf.c:281-301 | a dispatch that finds nothing idles a CPU that runs nothing and changes nothing else |
| SchedPlacement.SlicesFollowDomains | src/bls.bpf.c:112-115 | in every reachable state a queued or placed entry carries the slice of its task's domain, the little one for a LITTLE task |
| SchedWakeup.NoLostWakeupInClasses | src/bls.bpf.c:189-301 | masks equal or disjoint within each domain: in every reachable state, for every idle CPU, the queued tasks of its domain that may run there have at least as many kicks on their way to CPUs they may use |
| SchedWakeup.NoKickNoStrand | src/bls.bpf.c:189-301 | so without kicks no idle CPU sits beside a task of its domain that it may run |
| SchedWakeup.NoLostWakeup | src/bls.bpf.c:189-301 | unrestricted affinity: in every reachable state a domain with an idle CPU has at least as many kicked, not yet dispatched CPUs as queued tasks; without kicks no idle CPU sits beside its own queue |
| SchedPairs.NoLostWakeupInPairs | src/bls.bpf.c:189-301 | two CPUs of a domain that share tasks with no third one there, any masks inside the pair: in every reachable state without a kick to the lower one, neither is idle beside a task it may run |
| SchedPairs.TwoCpusSuffice | src/bls.bpf.c:189-301 | so with at most two CPUs per domain no masks at all strand a task in its own domain |
| SchedFifo.KicksServeWhoeverWaited | src/bls.bpf.c:214-301 | among any other calls: once every CPU that was under a kick has dispatched, each task queued back then has left, first in first out |
| SchedFifo.KickedMayDispatch | src/bls.bpf.c:214-301 | with any masks a kicked CPU can dispatch at every moment until it does |
| SchedFifo.EnoughDispatchersServe | src/bls.bpf.c:281-301 | likewise once as many CPUs of the domain have dispatched as tasks were queued, kicked or not |
| SchedLimits.CrossDomainExactly | src/bls.bpf.c:214-231 | unrestricted affinity: no run strands a task beside an idle CPU without a kick exactly when there are no tasks or flat mode has BIG CPUs only |
| SchedLimits.OtherDomainStrands | src/bls.bpf.c:214-231 | any masks: a task that can belong to a domain can be stranded beside any allowed CPU of the other one |
| SchedLimits.CrossDomainWakeupLost | src/bls.bpf.c:214-231 | the two-CPU instance |
| SchedLimits.OverlapStrands | src/bls.bpf.c:226-229 | CPUs a < b < c of one domain, a allowed for the first task only, b for both, c for the second: a run strands the second beside c |
| SchedLimits.DiversionStrands | src/bls.bpf.c:226-229 | the same although the second task may run on a, when a third task may run on a but not on b or c |
| SchedLimits.RestrictedAffinityLosesWakeup | src/bls.bpf.c:226-229 | the three-CPU instance |
| SchedLimits.SleepingWithoutDispatchLosesWakeup | src/bls.bpf.c:212-279 | on every machine: if a CPU could go idle right after its last task was put back, a run ends with that task stranded beside it, because the kick saw nobody idle |
| SchedLimits.LapseStrandsExactly | src/bls.bpf.c:212-279 | that happens on a machine exactly when some task can belong to the domain of a CPU on which it may run |
| SchedCounters.CountersBalance | src/bls.bpf.c:233-375 | on every run ENQ = DSQ_BIG + DSQ_LITTLE = enqueues seen; ENQ plus spills = queued + LOCAL_HIT + STEAL; DIRECT, NO_IDLE, starts, stops, sleeps and the class counters balance against the observed history |
| SchedCounters.WakeupTotals | src/bls.bpf.c:233-301 | over all tasks: times a task became ready = starts + those that wait; runnable tasks = running + waiting |
| SchedService.EveryWakeupServedOnce | src/bls.bpf.c:233-301 | for every task of every run: times it became ready (woken, forked, re-queued) = its starts + the one place where it may wait; each such time it was placed directly or enqueued, once, or is about to be |
| SchedService.StartsFollowWakeups | src/bls.bpf.c:233-309 | so at every moment its starts are as many as those times or one fewer: it is started once for each, before the next |
| SchedFifo.FirstInFirstOut | src/bls.bpf.c:277-299 | unrestricted affinity: over every run, what joined a queue, in order, is what left it, in order, then what is queued |
| SchedFifo.OvertakenOnlyWhereForbidden | src/bls.bpf.c:281-301 | with any masks a dispatch takes from a queue exactly when something there may run on the CPU and the queue is its own, or the own one has nothing for it and it is not strict; it takes the first such entry and keeps the order of the rest |
| SchedFlat.FlatRefinesOneQueue | src/bls.bpf.c:107-183 | flat mode with all CPUs BIG simulates a one-queue scheduler without domains, step for step over every run; the LITTLE queue, STEAL, RECLASSIFY and all LITTLE counters stay empty |
| SchedFlat.FlatSlices | src/bls.bpf.c:112-115 | every queued entry of a flat run carries the big slice |
| SchedFlat.StrictInvisibleWhenFlat | src/bls.bpf.c:256-301 | a flat run reaches the same state, or is refused alike, with and without strict domains |
| SchedAffinity.OutsideMaskOnlyByPrev | src/bls.bpf.c:189-211 | a wakeup places a task outside its mask exactly when its previous CPU is outside it, idle and in its domain |
| SchedAffinity.AffinityRespected | src/bls.bpf.c:189-301 | if the kernel offers only allowed previous CPUs, no task ever waits on or runs on a CPU outside its mask |
| SchedAffinity.MisplacesExactly | src/bls.bpf.c:189-211 | no run ever places a task outside its mask exactly when every mask covers the CPUs of all domains its task can belong to |
| SchedAffinity.PinnedTaskMisplaced | src/bls.bpf.c:195-198 | the instance: one wakeup on a flat two-CPU machine puts a task with mask {1} on CPU 0 |
| Hysteresis.EwmaBetween | src/bls.bpf.c:333-334 | the truncated u64 average lies between its old value and the new slice |
| Hysteresis.EwmaBounded | src/bls.bpf.c:333-334 | the average stays within any bounds that all slices keep |
| Hysteresis.PromotionLasts | src/bls.bpf.c:341-354 | at least three stops separate a promotion from the next demotion, for every threshold and every slice sequence |
| Hysteresis.ThreeStopsCanDemote | src/bls.bpf.c:341-354 | three empty slices after a promotion to threshold + 1 demote exactly at thresholds 2, 4, 6 and from 8 on; two never do |
| Hysteresis.ThreeStopsExactly | src/bls.bpf.c:341-354 | at exactly those thresholds any three slices at all can demote a task above the threshold |
| Hysteresis.ConvergesToBig | src/bls.bpf.c:333-349 | slices of at least threshold + 4 promote within a number of stops that depends on the distance only |
| Hysteresis.PromotedNoEarlier | src/bls.bpf.c:333-349 | at slices of exactly threshold + 4 that number of stops is needed |
| Hysteresis.PromotionIsLogarithmic | src/bls.bpf.c:333-349 | n stops suffice exactly for distances up to a bound that grows by 4/3 each stop |
| Hysteresis.StuckLittle | src/bls.bpf.c:333-349 | with slices below threshold + 4 a LITTLE task at or below the threshold is never promoted: the truncation makes the + 4 necessary |
| Hysteresis.ConvergesToLittle | src/bls.bpf.c:333-354 | slices below half the threshold demote within a bounded number of stops |
| Hysteresis.DemotedNoEarlier | src/bls.bpf.c:333-354 | at slices of exactly half the threshold less one that number of stops is needed |
| Hysteresis.DemotionIsLogarithmic | src/bls.bpf.c:333-354 | n stops suffice exactly for averages up to a bound above half the threshold that grows by 4/3 each stop |
| Hysteresis.StuckBig | src/bls.bpf.c:350-354 | slices of at least half the threshold never demote |
| SchedClassifier.ClassIsFoldOfSlices | src/bls.bpf.c:159-183 | in every run a task's average and domain are the fold of its on-CPU slices from its initial domain; pinned or non-adaptive tasks keep their domain |
| SchedClassifier.PinnedNeverMoves | src/bls.bpf.c:336-339 | a task pinned by a comm rule is still in the domain it was given |
| SchedClassifier.NoPingPong | src/bls.bpf.c:311-355 | in every run a task that is LITTLE again after a promotion has ended at least three slices since |
| SchedClassifier.RecentSlicesDecide | src/bls.bpf.c:333-354 | in every run enough recent long slices leave an adaptive task BIG and enough short ones LITTLE |
| SchedBirth.TaskIsBorn | src/bls.bpf.c:129-183 | end to end from the two comma lists: in modes comm and hybrid a new task is BIG and pinned if a usable big token is a prefix of its name, else LITTLE and pinned if a little one is, else LITTLE and free; adaptive: LITTLE and free; flat: BIG and free; an unreadable name counts as unlisted |
| SchedBirth.RuleHoldsForever | src/bls.bpf.c:129-183 | over every run a listed task is in its list's domain, pinned, after every later call; in modes flat and comm every task stays where it began |
| SchedBirth.UnlistedTaskAdapts | src/bls.bpf.c:333-354 | in modes adaptive and hybrid an unpinned task's domain follows the new average at the end of each slice |
| SchedAccounting.DeltaIsElapsed | src/bls.bpf.c:321 | the u64 difference is the elapsed time exactly when the clock did not run backwards; otherwise it is 2^64 minus the step back |
| SchedAccounting.BackwardsClockJump | src/bls.bpf.c:321-331 | a step back of at most 1 ms adds about 1.8e13 ms to the counter |
| SchedAccounting.RunTimeAccounted | src/bls.bpf.c:303-331 | with a sane clock each RUN counter undercounts the true nanoseconds on its CPUs by less than 1 ms per stop, and per-task times add up to the true time, on every run |
| BlsScheduler.Scheduler.constructor | src/bls.bpf.c:377-385 | attaching gives the initial state |
| BlsScheduler.Scheduler.ClaimIdle | src/bls.bpf.c:200-210 | the scan claims the lowest idle CPU of the domain that the mask admits, or none |
| BlsScheduler.Scheduler.PickIdleInDom | src/bls.bpf.c:189-211 | previous CPU first, then the scan |
| BlsScheduler.Scheduler.KickIdleInDom | src/bls.bpf.c:214-231 | one idle bit of the domain becomes a kick, or nothing changes |
| BlsScheduler.Scheduler.SpillOrWait | src/bls.bpf.c:248-266 | non-strict spill to the other domain, or wait for `enqueue` |
| BlsScheduler.Scheduler.SelectCpu | src/bls.bpf.c:233-267 | the whole callback takes the state where the transition system says and returns its CPU |
| BlsScheduler.Scheduler.EnqueueTask | src/bls.bpf.c:269-279 | the whole callback against the transition system |
| BlsScheduler.Scheduler.FindAllowed | src/bls.bpf.c:46 | the first queued task that may run on the CPU |
| BlsScheduler.Scheduler.DsqMoveToLocal | src/bls.bpf.c:46 | that task moves to the local queue, or nothing changes |
| BlsScheduler.Scheduler.Consume | src/bls.bpf.c:285-299 | one attempt, counted as hit or steal |
| BlsScheduler.Scheduler.Fetch | src/bls.bpf.c:281-301 | own domain first, the other one only when not strict |
| BlsScheduler.Scheduler.Dispatch | src/bls.bpf.c:281-301 | the whole callback, idle entry included, against the transition system |
| BlsScheduler.Scheduler.RunningOn | src/bls.bpf.c:303-309 | the head of the local queue starts and is stamped |
| BlsScheduler.Scheduler.AccountSlice | src/bls.bpf.c:318-354 | time, average, domain and counters of one ended slice |
| BlsScheduler.Scheduler.StoppingOn | src/bls.bpf.c:311-355 | the whole callback against the transition system |
| BlsScheduler.Scheduler.InitialDomainOf | src/bls.bpf.c:159-183 | initial domain and pinning in all four modes |
| BlsScheduler.Scheduler.InitTask | src/bls.bpf.c:357-375 | the whole callback, with the out-of-memory exit |
| Replay.Call | src/bls.bpf.c:233-375 | one event on the scheduler object, callback or kernel move, is the step of the transition system |
| Replay.Run | src/bls.bpf.c:233-385 | replaying any valid history on a fresh object ends in the state the history reaches, so every result about runs holds for the object |
| CommRules.PrefixAgrees | src/bls.bpf.c:144-151 | the byte loop agrees exactly when the rule's bytes are the name's first bytes |
| CommRules.ClassifyByComm | src/bls.bpf.c:129-157 | the rule loop returns the domain of the first enabled rule that matches, or none |
| CommTable.NextToken | src/bls.c:427 | one `strtok_r` step: the next non-empty field and the rest |
| CommTable.AddCommRules | src/bls.c:420-443 | the slots are filled with the tokens in order, overlong ones cut, or the list is refused exactly when it does not fit |
| CommTable.BuildTable | src/bls.c:585-588 | big list first, little list behind it |
| CommTable.RuleMeansPrefix | src/bls.bpf.c:141-152 | a stored token matches a name exactly when it is shorter than 16 and a prefix of it, whatever follows the NUL |
| CommTable.ClassifiesByFirstPrefix | src/bls.bpf.c:129-157 | classifying with the table built from two comma lists returns the domain of the first token that is a prefix of the name |
| CommTable.ShadowedTokenIsDead | src/bls.bpf.c:137-155 | a token with an earlier token as prefix never decides |
| CommTable.SkipUseless | src/bls.c:434-437 | a token of 16 or more characters, or one that is no prefix, never decides |
| CpuLists.CpuList | scripts/bench.py:98-109 | the loop prints the maximal runs of the list |
| CpuLists.RunsExpand | scripts/bench.py:98-109 | the runs stand for exactly the list, for every list |
| CpuLists.RunsAreMaximal | scripts/bench.py:98-109 | no two neighbouring runs could be one |
| CpuLists.RenderedExamples | scripts/bench.py:98-99 | the docstring's [0,1,4,5] is '0-1,4-5', and a single CPU is printed alone |
| CpuLists.ParseCpuList | scripts/bench.py:694-702 | the loop returns the sorted numbers of all parts, or the ValueError |
| CpuLists.RoundTrip | scripts/bench.py:694-702 | parsing what was rendered returns the list sorted, for every non-empty list |
| CpuLists.RoundTripExact | scripts/bench.py:98-109 | parsing inverts rendering exactly for non-empty sorted lists |
| LoaderLists.MarkRun | src/bls.c:252-253 | one run of CPUs gets the domain, no other CPU changes |
| LoaderLists.ParseCpuList | src/bls.c:231-259 | the loader accepts exactly the well-formed in-range lists and gives exactly their CPUs the domain |
| LoaderLists.AssignDomains | src/bls.c:526-543 | the domain map of `main` for every combination of options |
| LoaderLists.RenderedReachesLoader | src/bls.c:231-259 | the loader reads back every list that the harness renders |
| LoaderLists.OneListReachesLoader | src/bls.c:536-542 | with `--big` alone the other CPUs are LITTLE, with `--little` alone they are BIG |
| LoaderLists.TwoListsReachLoader | src/bls.c:536-542 | with both lists, whatever they share or leave out, a CPU is LITTLE exactly when the little list names it |
| LoaderLists.PartitionReachesLoader | scripts/bench.py:525-526 | for every partition of up to 64 CPUs passed as `--big` and `--little`, a CPU is BIG exactly when it is in the big list |
| Partition.BigCoresAreLower | scripts/bench.py:91-92 | big cores have lower numbers than little cores |
| Partition.BothSidesPopulated | scripts/bench.py:92-94 | there is always a big CPU, and a little one exactly when there are two cores |
| Partition.LowerHalfIsBig | scripts/bench.py:82-95 | the two lists share out all CPUs in increasing order; the big one has the lower half of the cores, rounded down, or the only one |
| Partition.FindCore | src/bls.c:211-213 | the inner loop finds the core among those seen |
| Partition.CheckSmtSplit | src/bls.c:200-227 | the loop over seen cores counts the CPUs whose domain differs from the first CPU of their core |
| Partition.SmtCheckExact | src/bls.c:200-227 | the count is 0 exactly when no physical core is split |
| Partition.CountsSplitCpus | src/bls.c:200-227 | the count is the number of CPUs whose core's first CPU is in the other domain |
| Partition.DefaultPartitionIsRealisable | scripts/bench.py:82-95 | the default partition, rendered, parsed by the loader and checked, gives every core to one domain and no warning |
| LinearSolve.SolveLinear | sim/rail_model.py:917-938 | for every size: a result solves the system and is its only solution; no result comes with a vector that has a component 1 and that the matrix maps to less than 1e-14 per row |
| LinearSolve.UniqueMeansRegular | sim/rail_model.py:917-938 | a unique solution rules out a non-zero kernel vector, so an exactly singular system never yields a result |
| LinearSolve.PickPivot | sim/rail_model.py:923 | the first row of largest absolute entry in the column |
| LinearSolve.ReduceRow | sim/rail_model.py:932-933 | the row minus a multiple of the pivot row, in the columns that matter |
| LinearSolve.ClearColumn | sim/rail_model.py:928-933 | elimination keeps the solution set and clears the column |
| LinearSolve.BackSubstitute | sim/rail_model.py:934-938 | back substitution solves the triangular system |
| Ridge.FitParameters | sim/rail_model.py:1055-1065 | the unclamped parameters are the only minimiser of squared error plus penalty, for any number of samples; there is no result only for a penalty near the solver's tolerance |
| Ridge.PenaltyIsSmall | sim/rail_model.py:1058-1062 | the fitted squared error exceeds that of any vector z by at most 1e-9 times the sum of squared row entries times the squared length of z |
| Ridge.NormalEquationsMinimise | sim/rail_model.py:1055-1065 | a solution of the penalised normal equations beats every other vector strictly |
| Ridge.NearKernelNeedsTinyPenalty | sim/rail_model.py:1060-1066 | the penalised matrix nearly annihilates a vector only if the penalty is at most 1e-14 (n + 1)/2 |
| Calibrate.RowPredictsPackage | sim/rail_model.py:1036-1053 | a design row applied to parameters plus the fixed uncore equals `package_power`; off by floor minus idle constant exactly for idle samples |
| Calibrate.FitsThePackageModel | sim/rail_model.py:1012-1065 | with a busy core in every sample the fit minimises the squared error of the package model itself plus penalty |
| Calibrate.PenaltyLargeEnough | sim/rail_model.py:1048-1062 | the column of ones bounds the penalty from below |
| Calibrate.Parameters.Calibrate | sim/rail_model.py:1028-1092 | refuses fewer than 4 rows and nothing else; otherwise installs the clamped minimiser, returns the list of what was clamped, on which only C_eff has its prior and the others are 0, and keeps all parameters non-negative |
| Calibrate.ClampedList | sim/rail_model.py:1071-1080 | a parameter is listed in `clamped_to_prior` exactly when its fitted value was refused |
| Calibrate.RailResultsHold | sim/rail_model.py:1090-1092 | with whatever parameters are installed a shared rail is never cheaper and more frequency never saves power |
| RailModel.LookupIsPiecewiseLinear | sim/rail_model.py:249-261 | V(f) is the chord between neighbouring anchors, through both, and flat outside, for any rising table |
| RailModel.LookupBounded | sim/rail_model.py:249-261 | V(f) stays between the first and the last voltage |
| RailModel.LookupMonotone | sim/rail_model.py:249-261 | more frequency never needs less voltage |
| RailModel.ShippedIsLawful | sim/rail_model.py:132-142 | the shipped anchors give a positive monotone curve that is lowest at 400 MHz |
| PackagePower.FastestActive | sim/rail_model.py:305 | the highest frequency of an active core, if any |
| PackagePower.SumCores | sim/rail_model.py:308-328 | the accumulating loop against one sum per component |
| PackagePower.Compute | sim/rail_model.py:279-339 | the whole breakdown, idle package included |
| PackagePower.ActivityCosts | sim/rail_model.py:308-331 | one more unit of activity of an active core at frequency f raises the total by exactly f/1e9 times (C_eff V^2 + 0.12), V the rail's voltage if shared, else its own; nothing else changes |
| PackagePower.PowerMonotone | sim/rail_model.py:279-339 | raising any core's frequency never lowers package power, on either kind of rail |
| PackagePower.SharedRailCostsMore | sim/rail_model.py:310-317 | a shared rail is never cheaper than split rails, for every core list; with leakage it is dearer exactly when some core would do with less voltage |
| Bisection.BisectTight | sim/rail_model.py:366-375 | after enough rounds some frequency within 0.1 MHz above the result breaks the cap, for any curve |
| Bisection.SpareRounds | sim/rail_model.py:366-375 | rounds beyond those the width needs change nothing |
| Bisection.Lockstep | sim/rail_model.py:366-375 | two bisections in lockstep: the higher curve never ends at a higher frequency, monotone or not |
| PowerCap.Halve | sim/rail_model.py:368-374 | one round of the loop |
| PowerCap.FreqUnderPowerCap | sim/rail_model.py:350-375 | the method is the bisection on the package power of its load, early exits included |
| PowerCap.CapIsKept | sim/rail_model.py:350-375 | the result is in range and keeps every cap that the lowest frequency keeps |
| PowerCap.CapIsTight | sim/rail_model.py:350-375 | a reachable cap gives the ceiling or a frequency that 0.1 MHz more would break, exactly unless the cap is used up at the lowest frequency by a load that ignores frequency |
| PowerCap.IdleCapNotTight | sim/rail_model.py:359-362 | the smallest exception, for any physics: no core, a cap of the idle package power, result 400 MHz although the ceiling keeps the cap |
| PowerCap.LimitNeverStopsIt | sim/rail_model.py:367-374 | for ceilings up to 4 GHz 16 rounds give the result of 60 |
| PowerCap.SharedRailNeverFaster | sim/rail_model.py:350-375 | same load, cap and ceiling: the shared rail never reaches a higher frequency than split rails |
| RaceToIdle.Sweep | sim/rail_model.py:821-840 | the curve holds every step from 400 MHz to the ceiling and none beyond |
| RaceToIdle.SweepLength | sim/rail_model.py:821-824 | the sweep has 145, 141 or 133 points and ends at 4.0, 3.9 or 3.7 GHz |
| RaceToIdle.UncoreShare | sim/rail_model.py:827-833 | full energy less core-only energy is the energy of fixed, ring and traffic power, leakage excluded |
| RaceToIdle.ArgMin | sim/rail_model.py:842-844 | the first of the smallest elements |
| RaceToIdle.FloorNeverLowersTheOptimum | sim/rail_model.py:822-844 | the first optimum with the fixed floor is never below the first one without it |
| RaceToIdle.Crossover | sim/rail_model.py:813-844 | the sweep with its three minima, in that order |
| NoFloorCurve.FallsExactlyWhenEnough | sim/rail_model.py:817-818 | on the shipped voltage curve, with any leakage: the no-floor energy falls towards the lowest frequency over the whole sweep exactly when cores times C_eff outweighs what the lowest step saves on ring and leakage |
| NoFloorCurve.LeakageRaisesTheBar | sim/rail_model.py:817-818 | leakage never lowers that bar; without it the bar is a constant |
| NoFloorCurve.ShippedCapacitanceIsNotEnough | sim/rail_model.py:817-818 | the shipped C_eff does not reach it for any core count of the part, at any leakage |
| NoFloorCurve.ShippedClaimFails | sim/rail_model.py:237-242 | so with the shipped C_eff, k_leak and floor the claim fails, for any core count, work and temperature |
| Ranks.SortedIndices | scripts/analyze.py:293 | every index once, in order of value |
| Ranks.RankData | scripts/analyze.py:290-304 | each rank is the number of smaller elements plus half of one more than the ties |
| Ranks.GroupRank | scripts/analyze.py:298-301 | the averaged position of a tie group is that rank |
| Ranks.RanksAddUp | scripts/analyze.py:290-304 | ranks add up to n(n + 1)/2, whatever the ties |
| Ranks.RankFollowsOrder | scripts/analyze.py:290-304 | ranks order elements exactly as values do |
| Ranks.RanksSeeOnlyOrder | scripts/analyze.py:290-304 | lists that compare alike have the same ranks, so strictly increasing maps change nothing |
| Ranks.RanksMirrored | scripts/analyze.py:290-304 | reversing the order sends rank r to n + 1 - r |
| Correlation.Pearson | scripts/analyze.py:307-317 | means, three sums and the two exits |
| Correlation.CauchySchwarz | scripts/analyze.py:311-317 | the squared numerator is at most the product under the root, for any length; with equality only for proportional deviations |
| Correlation.PearsonBounded | scripts/analyze.py:307-317 | every coefficient lies between -1 and 1 |
| Correlation.PearsonNoneExactly | scripts/analyze.py:309-316 | no coefficient exactly for fewer than three points or a side with one value |
| CorrelationValue.PearsonValue | scripts/analyze.py:307-317 | the coefficient is the sum over all pairs of points of the products of their differences, over the root of the product of the sums of the squared differences |
| CorrelationValue.PearsonIsOneExactly | scripts/analyze.py:307-317 | it is 1 exactly when one side's differences are a positive multiple of the other's |
| CorrelationValue.PearsonIsMinusOneExactly | scripts/analyze.py:307-317 | it is -1 exactly when they are a negative multiple |
| CorrelationValue.PearsonIgnoresScale | scripts/analyze.py:307-317 | shifting a side or rescaling it by a positive factor changes neither its existence nor its value |
| CorrelationValue.PearsonSymmetric | scripts/analyze.py:307-317 | swapping the sides changes nothing |
| Correlation.Spearman | scripts/analyze.py:320-325 | pairs with a missing side dropped, then the coefficient of the ranks |
| Correlation.CompleteIsComplete | scripts/analyze.py:320-325 | the pairs kept are exactly those with both sides, in order |
| Correlation.SpearmanSeesOnlyOrder | scripts/analyze.py:320-325 | lists that order their values alike have the same coefficient |
| Correlation.SpearmanWithGapsSeesOnlyOrder | scripts/analyze.py:320-325 | the same for lists with missing sides, through the dropping of pairs |
| Correlation.SpearmanIgnoresScale | scripts/analyze.py:320-325 | a strictly increasing map of either side, gaps included, leaves the result unchanged |
| Correlation.SpearmanNoneExactly | scripts/analyze.py:320-325 | none exactly for fewer than three complete pairs or a side with one value |
| Correlation.SpearmanIsOneExactly | scripts/analyze.py:320-325 | it is 1 exactly when both lists order every pair alike |
| Correlation.SpearmanIsMinusOneExactly | scripts/analyze.py:320-325 | it is -1 exactly when they order every pair oppositely |
| Rapl.Domain.constructor | src/energy.c:149-158 | the reading at discovery is the first base |
| Rapl.Domain.RaplDelta | src/energy.c:186-201 | a failed read reports nothing and changes nothing; a successful one adds the unwrapped u64 difference |
| Rapl.Domain.Record | src/energy.c:417-449 | prime, zero, sample: the total is the sum of the differences since the base, and of the reported rows |
| Rapl.DeltaIsRemainder | src/energy.c:192-197 | one unwrapped difference is the true one up to whole turns of the counter |
| Rapl.SumIsEnergyUpToTurns | src/energy.c:186-201 | the total is the true energy between first and last successful read, short by exactly the unseen turns |
| Rapl.TotalIsExact | src/energy.c:186-201 | the total is exact exactly when no interval between successful reads uses a whole turn |
| Rapl.FailedReadsLoseNothing | src/energy.c:190-191 | dropping failed reads changes neither total nor base |
| Rapl.UnknownRangeDelta | src/energy.c:194-197 | with an unknown range a difference is exact exactly when the counter did not turn |
| Rapl.UnknownTotalIsExact | src/energy.c:194-197 | with an unknown range the total of a whole run is exact exactly when the counter never turned, else too small |
| Rapl.MeasureRun | src/energy.c:417-449 | a whole run from discovery on: where the total starts depends on the priming read alone |
| Rapl.MeasureUnknownRun | src/energy.c:417-449 | the same run with an unknown range: exact exactly when the counter never turned |

## Left out

- Kernel, BPF verifier and hardware behaviour behind the kfuncs: represented by the assumptions above.
- `exit_task`, hotplug, affinity changes while queued, preemption by a higher class with slice remaining: excluded by the calling discipline.
- Counter widths: the counters of `SchedModel` are unbounded; per-task times, the average and the u64 differences wrap as in the code.
- BlsScheduler.Scheduler.ClaimIdle: one claim is one step; the interleaving of several CPUs is that of whole callbacks, so claims of two callbacks never interleave inside a scan.
- SchedLimits.OverlapStrands: with `DiversionStrands`, `SchedWakeup.NoLostWakeupInClasses` and `SchedPairs` it leaves a gap; for masks that overlap otherwise on three or more CPUs of a domain the exact condition depends on how many tasks share a mask and is not stated.
- SchedLimits.SleepingWithoutDispatchLosesWakeup: whether a given kernel makes that move is not modelled.
- LinearSolve.SolveLinear: the working matrix is a local sequence of rows that the loops reassign; `M` is private to the function, so nothing else could observe an update in place.
- LoaderLists.ParseCpuList: on a refused list the process exits, so the partly marked map is not described; `strtol` saturation is not modelled because saturated values are refused like the exact ones.
- CpuLists.ParseCpuList: Python's `int()` also accepts underscores, signs in more places and non-ASCII digits; only optional spaces, a plus sign and decimal digits are modelled.
- PackagePower.Compute: the temperature factor is a positive parameter; its power of two is not computed.
- Correlation.Pearson: the square root is not taken; the result carries the product under it.
- Rapl.Domain.RaplDelta: a domain that was not found is not modelled (the code dereferences a null pointer then).
- Floating-point rounding, in the rail model, the statistics and the joule conversion of the energy counters.
- CSV, JSON, sysfs, MSR and process handling; EPP save and restore; cooldown; reports and plots.
- Experiments A and B of the rail model: fixed constants and presentation. No claim is made that shared-rail energy exceeds split-rail energy there, because the capped frequencies differ.
- The residual statistics that `calibrate` prints, the folding of SMT siblings in `load_samples`, the bootstrap, permutation and t-distribution code of the analysis.
- `src/pinger.c`, `src/spin.c`, `scripts/workload.py`: load generators.
