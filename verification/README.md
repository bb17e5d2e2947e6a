# Verification of the scheduling fixture

This project models the virtual-time core of a test fixture for real-time scheduling on QNX and proves what its
schedulers, its schedulability check, its intrusive lists and its thread handshake do.

The fixture runs three algorithms over sets of periodic tasks. A task has an execution time `c`, a period `p` and a
relative deadline `d`; while it is scheduled it also has `a`, the quanta its current job has run, and `r`, the quanta
until it is ready (negative while a released job waits). A round sorts the ready tasks, checks them one step ahead, and
runs the head: for its whole job under RMA, for one quantum under EDF and SCT. When nothing is ready the clock moves to
the next release.

Three layers are modelled.

* **The engine on values** (`Tasks`, `Engine`): the round as a function of the task fields, and runs of it. The theory is
  about these runs, over all nonempty task sets with `1 <= c <= d <= p <= INT_MAX`, of any size: exact accounts
  (`Bookkeeping`), the meaning of the check (`Deadlines`), which sets pass (`Feasibility`, `Utilisation`, and `Delays` for
  RMA), EDF against all schedules (`Optimality`), recurrence (`Hyperperiod`), throughput (`Majorization`, `Throughput`,
  `Dominance`, `Supremacy`), who runs next (`Preemption`), the priorities of the threads (`Priorities`), and the task sets the
  fixture registers (`Registered`), whose SCT runs are followed quantum by quantum (`Simulation`, `Verdicts`).
* **The engine in place** (`TaskList`, `ListSort`, `Algorithm`, `Fixture`): task nodes that sit in three doubly linked
  lists at once, the list macros, `DL_SORT2`, and the loops of the fixture, each proved to compute the corresponding
  function of the first layer. `Sorting` holds the pure side of the sort.
* **The threads** (`Handshake`, `Rounds`): the scheduler and the workers with their semaphores and poison pills as an
  interleaved transition system, proved to move the engine only as the first layer says, and to come to its end.

A quantum is the unit of time. One block of the scheduler is taken to last exactly one quantum under EDF and SCT
(`EDF_PERIOD` and `SCT_PERIOD` are 1) and exactly the head's `c` quanta under RMA; this is where the model idealises
the spinning and the timed wait. In one round nothing else is simplified: ties, negative `r`, the empty queue, the
`INT_MAX` start of `fixt_algo_min_r` and the asymmetric comparison in the check are as in the code.

## Where the code and its comments differ

The model follows the code.

* Comments in the EDF and SCT implementations (`fixt/impl/edf/fixt_algo_impl_edf.c:31-33`,
  `fixt/impl/sct/fixt_algo_impl_sct.c:31-34`) say that, because priorities follow the queue, no two user threads are
  within the same priority. A round sets the priorities of the queued threads and no others, so a task that has completed
  leaves the queue with the top priority and the next head is given the same one; and within the queue priorities are cut
  off at `FIXT_ALGO_MIN_PRIO`. Exactly: all threads have different priorities in each of the first n rounds if and only if
  there is one task, or there are at most three and none is out of the queue in any of these rounds
  (`Priorities.PrioritiesAreDistinct`); by the parameters,
  unless the first head needs its whole period, these are the rounds of its first job
  (`Priorities.DistinctUntilCompletion`); so of the sets that pass forever only those of one task qualify for good
  (`Priorities.PrioritiesStayDistinct`). The first registered set has five tasks and fails in its first round
  (`Registered.FirstSetSharesPriorities`), the second, under EDF, in its second, with two tasks queued
  (`Registered.SecondSetSharesPriorities`). What the schedulers need does hold: no thread is above the head's, and one
  that shares its priority has no job to run (`Priorities.HeadHasTopPrio`, `Handshake.SharersHaveNoJob`).
* `fixt/impl/sct/fixt_algo_impl_sct.c:62` speaks of the shortest period; the comparator uses the completion time.
* `fixt/fixt_task.h:54-55` says stopping a task resets its data; the reset is done by `fixt_task_run`.

## Model

| member | source | states |
|---|---|---|
| Engine.QueueMembers | fixt/impl/edf/fixt_algo_impl_edf.c:49-62 | the queue holds exactly the ready tasks, each once |
| Engine.HeadIsBest | fixt/impl/sct/fixt_algo_impl_sct.c:158-167 | no ready task has a better key than the head, and none registered before it has as good a one |
| Engine.QueueIsInOrder | fixt/impl/edf/fixt_algo_impl_edf.c:61-62 | the queue ascends by the key of the algorithm, and by registration among equal keys |
| Engine.CheckMeans | fixt/fixt_algo.c:97-112 | the loop over the queue passes iff the head fits into its remaining time and every other ready task fits with a quantum to spare |
| Engine.MinR | fixt/fixt_algo.c:167-175 | the result bounds every `r` and is one of them, unless all exceed `INT_MAX` |
| Engine.MinRIsLeast | fixt/fixt_algo.c:167-175 | for int fields, the result is the least `r`, and 2147483647 for no tasks |
| Bookkeeping.GrantKeepsBooks | fixt/impl/rma/fixt_algo_impl_rma.c:92-117 | charging any ready task, for a quantum or a whole job, keeps `r + now == jobs * p` for every task and `now == work done + idle` |
| Bookkeeping.RestKeepsBooks | fixt/impl/edf/fixt_algo_impl_edf.c:127-143 | the idle branch keeps the same accounts and strictly advances time |
| Bookkeeping.RunKeepsBooks | fixt/fixt.c:202-212 | the accounts balance after any number of rounds of any algorithm, and n rounds take at least n quanta |
| Bookkeeping.StepAt | fixt/fixt.c:202-212 | time is unbounded along every run: each instant lies in some step |
| Bookkeeping.PassedIsLax | fixt/fixt_algo.c:101-112 | a passed check leaves every task, ready or not, time for its current job |
| Bookkeeping.PassedKeepsLax | fixt/fixt_algo.c:108-110 | under EDF and SCT the spared quantum is enough: after the step every task still has the time it needs |
| Bookkeeping.LaxityInvariant | fixt/impl/edf/fixt_algo_impl_edf.c:115-124 | after any number of passed checks `0 <= a < c`, `a > 0` only if `r < 0`, `c - a <= d + r` and `-d < r < p` |
| Bookkeeping.ComparatorsStayInRange | fixt/impl/sct/fixt_algo_impl_sct.c:158-167 | between queued tasks the comparators' subtractions stay strictly between `-d` and `d` of the two tasks, so they cannot wrap |
| Deadlines.CompletedOnTime | fixt/fixt_algo.c:101-112 | while checks pass, every completed job `k` was finished by `k * p + d` |
| Deadlines.DoomedStaysDoomed | fixt/fixt_task.c:193-201 | a pending job that is short of time stays short until it completes, and then it is late |
| Deadlines.FailedCheckMeansLate | fixt/fixt_algo.c:104-112 | the current job of every task that fails the comparison is late in the unguarded continuation whenever, if ever, it completes |
| Deadlines.CheckIsExact | fixt/fixt_algo.c:89-116 | for each algorithm, all checks of the endless run pass iff every job of every task meets its deadline |
| Feasibility.PassingFitsDemand | fixt/fixt_algo.c:89-116 | a set that any of the three algorithms passes forever has demand at most L for every interval length L |
| Feasibility.EdfKeepsSlack | fixt/impl/edf/fixt_algo_impl_edf.c:105-145 | every EDF step keeps, for every horizon at once, the work due by the horizon within the time left |
| Feasibility.SlackPasses | fixt/fixt_algo.c:97-112 | a state with that slack passes the check |
| Feasibility.EdfIsExact | fixt/impl/edf/fixt_algo_impl_edf.c:45-145 | EDF passes forever iff the demand of every interval length fits into it |
| Feasibility.EdfIsOptimal | fixt/impl/edf/fixt_algo_impl_edf.c:157-166 | any set that RMA, SCT or EDF passes forever is passed forever by EDF |
| Optimality.EdfSchedules | fixt/impl/edf/fixt_algo_impl_edf.c:105-145 | the quanta EDF grants in a run that passes forever are such an assignment |
| Optimality.EdfIsOptimalOfAll | fixt/impl/edf/fixt_algo_impl_edf.c:157-166 | EDF passes a set forever iff any schedule at all meets every deadline |
| Utilisation.EdfUtilisation | fixt/impl/edf/fixt_algo_impl_edf.c:157-166 | with deadlines at the periods, EDF passes forever iff the work released in a common multiple H of the periods is at most H |
| Utilisation.EdfUtilisationByProduct | fixt/impl/edf/fixt_algo_impl_edf.c:157-166 | for every set with deadlines at the periods, the product of the periods serves as H |
| Utilisation.OverloadBound | fixt/fixt_algo.c:101-112 | a check passed at time T gives `T * (load - H) < lead`, under every algorithm |
| Utilisation.OverloadIsRejected | fixt/fixt_algo.c:113 | with load above H, every check made at or after time `lead` fails |
| Utilisation.PassingNeedsUtilisation | fixt/fixt.c:202-211 | no algorithm passes `lead + 1` checks on a set whose load exceeds H |
| Hyperperiod.HyperperiodIsStep | fixt/fixt_algo.c:131-133 | if the checks up to H pass, no step, idle or busy, jumps over H |
| Hyperperiod.TaskRestarts | fixt/fixt_task.c:57-59 | at a passed check at H each task has completed `H / p` jobs (`done * p == H`) and its `a` and `r` are 0 |
| Hyperperiod.RunRestarts | fixt/fixt_task.c:57-59 | so at H all tasks are as they were started |
| Hyperperiod.HyperperiodDecides | fixt/fixt.c:47-50 | for each algorithm, the checks up to time H pass iff all checks ever do |
| Hyperperiod.HyperperiodRecurrence | fixt/fixt.c:202-212 | a passing run is at its start again at H, and each later state repeats the one H before |
| Hyperperiod.VerdictAtHyperperiod | fixt/fixt.c:202-212 | the verdict after H + 1 rounds is the verdict of the endless test |
| Majorization.ShortestFirstMajorizes | fixt/impl/sct/fixt_algo_impl_sct.c:158-167 | serving the shortest remaining job keeps the remaining times majorizing those of any other choice |
| Throughput.QuantumArrives | fixt/impl/sct/fixt_algo_impl_sct.c:114-144 | a granted quantum takes one off the served job, and work arrives only at tasks with nothing pending, as the clock alone decides |
| Throughput.IdleTogether | fixt/fixt_algo.c:131-133 | SCT and a schedule it dominates are idle at the same instants |
| Throughput.DominanceCounts | fixt/impl/sct/fixt_algo_impl_sct.c:120-124 | the dominating run has completed at least as many jobs |
| Dominance.SctDominates | fixt/impl/sct/fixt_algo_impl_sct.c:46-66 | while SCT passes, no schedule that never idles with a ready task, and never falls a period behind, has completed more jobs at any instant |
| Dominance.SctDominatesEdf | fixt/impl/edf/fixt_algo_impl_edf.c:105-145 | while both pass, SCT and EDF are at the same time after n steps and SCT has completed at least as many jobs |
| Dominance.JobIsItsQuanta | fixt/impl/rma/fixt_algo_impl_rma.c:92-117 | charging a whole job, as RMA does, is charging its c quanta in a row |
| Dominance.SctDominatesRma | fixt/impl/rma/fixt_algo_impl_rma.c:87-119 | while both pass, at each step boundary of RMA, SCT has a step boundary too and has completed at least as many jobs |
| Supremacy.SctOutpaces | fixt/impl/sct/fixt_algo_impl_sct.c:46-66 | while SCT passes, no assignment of quanta to tasks that gives each job its quanta between two releases, idling at will or not, has completed more jobs at any instant |
| Supremacy.SctOutpacesSchedules | fixt/impl/sct/fixt_algo_impl_sct.c:158-167 | in particular none that meets every deadline |
| Preemption.IdleLandsOnRelease | fixt/fixt_algo.c:131-133 | for all parameters up to 2147483647, an idle step ends exactly at the next release, so two never follow each other |
| Preemption.PreemptorIsNew | fixt/impl/edf/fixt_algo_impl_edf.c:45-65 | under EDF and SCT a task that displaces an unfinished head was released in that very quantum |
| Preemption.HeadStays | fixt/impl/sct/fixt_algo_impl_sct.c:46-66 | with no completion and no release the head stays the head |
| Preemption.SctPreemptsForShorter | fixt/impl/sct/fixt_algo_impl_sct.c:158-167 | under SCT the next head has at least one quantum less left than the unfinished head had |
| Preemption.BlockingBound | fixt/impl/rma/fixt_algo_impl_rma.c:41-61 | the task with the shortest period, first registered among ties, never has `r` below `1 - b`, b the longest other job |
| Preemption.TopTaskResponds | fixt/impl/rma/fixt_algo_impl_rma.c:63-75 | when ready it starts at once, less than b quanta after its release, and runs through |
| Preemption.TopTaskNeverFails | fixt/fixt_algo.c:104-107 | if `c + b - 1 <= d` it never fails the check |
| Delays.WindowStep | fixt/impl/rma/fixt_algo_impl_rma.c:87-119 | every RMA step keeps: since a time before the release of i's current job, at most w ago, only one job i had to let finish and preferred jobs released meanwhile have run |
| Delays.RmaDelay | fixt/impl/rma/fixt_algo_impl_rma.c:131-140 | for every task, not only the top one: if any job it must let finish and the preferred work released within w are over within w, no job of it waits longer than w, and less if another is the head |
| Delays.RmaPassesByDelay | fixt/fixt_algo.c:97-112 | a set whose every task has such a w with `w + c <= d` passes all checks of the endless RMA run |
| Registered.EdfPassesRegisteredSets | fixt/fixt.c:105-124 | EDF schedules the three registered sets forever |
| Registered.RmaPassesRegisteredSets | fixt/fixt.c:105-124 | RMA, which does not preempt, schedules the three registered sets forever, as their labels say |
| Registered.Set4FailsEverywhere | fixt/fixt.c:126-130 | the set that is commented out fails one of its first 37 checks under every algorithm, not only RMA |
| Registered.SctIsNotOptimal | fixt/fixt.c:119-124 | SCT rejects the third set at its fifth check although EDF schedules it forever |
| Registered.DeadlinesArePeriods | fixt/fixt.c:105-130 | in every set each deadline is the period |
| Simulation.BusyTick | fixt/impl/sct/fixt_algo_impl_sct.c:105-146 | an SCT quantum, from the clock and the remaining times alone: the first of the shortest runs, if the check, in terms of the time to each deadline, passes |
| Simulation.FollowedToHyperperiod | fixt/fixt.c:47-50 | an SCT run followed to a common multiple of the periods, and fitting there, passes forever |
| Verdicts.SctPassesSet1 | fixt/fixt.c:105-111 | SCT schedules the first set forever, by its run over 560 quanta |
| Verdicts.SctPassesSet2 | fixt/fixt.c:113-117 | SCT schedules the second set forever |
| Verdicts.NineVerdicts | fixt/fixt.c:62-85 | of the nine endless tests the fixture sets up, only the third set under SCT fails |
| Sorting.SortIsPermutation | utlist.h:171-228 | the reference sort keeps the elements |
| Sorting.SortIsSorted | utlist.h:171-228 | the reference sort sorts, for elements of any kind, list nodes included, that the comparator totally preorders |
| Sorting.SortIsStable | utlist.h:203-205 | for every x, the elements equivalent to x are the same before and after, in the same order |
| Sorting.TiedIsFilter | utlist.h:203-205 | the elements equivalent to x are kept one by one, in order |
| Sorting.MergeOfSorts | utlist.h:196-217 | merging two sorted pieces, left first on ties, is sorting the two together |
| Sorting.PassDoublesRuns | utlist.h:186-225 | a pass over sorted runs of length n leaves sorted runs of length 2n |
| Sorting.PowBelowLog | utlist.h:59 | `2^j < n` implies `j + 1 <= ceil(log2 n)`, so the number of passes is within the logarithm |
| Sorting.LogIsLeast | utlist.h:59 | that logarithm is the least exponent whose power of two reaches n |
| Sorting.PairsIsCeiling | utlist.h:185-187 | a pass makes `ceil(n / (2 * insize))` merges |
| Sorting.PassIsCheap | utlist.h:186-217 | the comparisons and the merges of a pass are together at most the elements |
| Sorting.SortIsFast | utlist.h:59 | the passes make at most `n * ceil(log2 n)` comparisons |
| TaskList.AppendTs | utlist.h:522-534 | appending to the set list, whose head's `prev` is the tail |
| TaskList.AppendAt | utlist.h:522-534 | the same for the algorithm's task list |
| TaskList.AppendAq | utlist.h:522-534 | the same for the queue |
| TaskList.DeleteAt | utlist.h:557-573 | removing the k-th element, wherever it is, leaves the well-formed list of the others |
| ListSort.TakeRun | utlist.h:188-194 | steps over the left run, of `insize` nodes or all that are left |
| ListSort.StepAq | utlist.h:197-216 | one turn of the merging loop takes the right head iff the left run is used up or its head compares greater, relinks that node behind the tail, and calls the comparator just when both runs have a head |
| ListSort.MergeAq | utlist.h:195-217 | the merging loop relinks the two runs in place into their stable merge, with exactly the comparisons of that merge |
| ListSort.PassAq | utlist.h:181-222 | a round of the outer loop turns the list into `Pass` of what it was, counts the pairs of runs, and compares as often as that pass does |
| ListSort.SortAq | utlist.h:171-228 | `DL_SORT2` in place, for any total preorder: well linked both ways, the same nodes in ascending order, tied nodes in their old order; the comparator is called as often as the passes compare, at most `n * ceil(log2 n)` times |
| Algorithm.CompareIsComparator | fixt/impl/rma/fixt_algo_impl_rma.c:131-140 | each comparator is the difference of the periods, of the remaining times or of the completion times, and a total preorder, as the sort needs |
| Algorithm.QueueIsSort | fixt/impl/edf/fixt_algo_impl_edf.c:53-62 | the stable sort of the ready nodes is the engine's queue, node for node |
| Algorithm.Algo.AddTask | fixt/fixt_algo.c:53-56 | the task is last on the algorithm's list |
| Algorithm.Algo.Init | fixt/fixt_algo.c:80-84 | every task of the list starts with `a` and `r` at 0 and its thread next below the scheduler |
| Algorithm.Algo.CollectReady | fixt/impl/edf/fixt_algo_impl_edf.c:49-59 | the rebuilt queue list holds the ready nodes in registration order |
| Algorithm.Algo.BuildQueue | fixt/impl/edf/fixt_algo_impl_edf.c:45-65 | after al_schedule the queue list is the engine's queue; only queue links change |
| Algorithm.CheckQueue | fixt/fixt_algo.c:97-113 | the loop over the linked queue computes the engine's check |
| Algorithm.Algo.Schedule | fixt/fixt_algo.c:89-116 | `al_schedulable` is the engine's check, the queue is the engine's queue, and the task list and fields are untouched |
| Algorithm.SetPrios | fixt/fixt_algo.c:138-144 | each queued task gets the priority of its position, and every other thread keeps its own |
| Priorities.HeadHasTopPrio | fixt/fixt_algo.c:138-144 | in every round of every run the head's thread is next below the scheduler and no thread is above it; any other thread at its priority belongs to a task that is not ready |
| Priorities.PrioritiesFollowKeys | fixt/fixt_algo.c:138-144 | in every round a ready task is never below one that is less urgent, or equally urgent and registered later, and is above it while at most three are ready |
| Registered.SecondSetFirstPriorities | fixt/fixt.c:113-117 | in the first round of the second set under EDF the threads get the priorities 9, 8 and 7 |
| Priorities.QueuePriosAreDistinct | fixt/fixt_algo.c:139-144 | the queued threads have pairwise different priorities iff at most three tasks are ready |
| Priorities.FirstCompletionShares | fixt/fixt_algo.c:138-144 | with two tasks or more, and a first head that does not need all of its period, the round after its first completion has two threads at the top priority |
| Priorities.PrioritiesAreDistinct | fixt/impl/edf/fixt_algo_impl_edf.c:31-33 | for every set and n: no two threads share a priority in any of the first n rounds iff n is 0, or there is one task, or at most three, all of them ready in each of these rounds |
| Priorities.DistinctUntilCompletion | fixt/impl/edf/fixt_algo_impl_edf.c:31-33 | by the parameters alone, for two tasks or more and a first head with `c < p`: they differ for at most three tasks, and for the rounds of the first head's first job (one under RMA, c otherwise) |
| Priorities.PrioritiesStayDistinct | fixt/impl/edf/fixt_algo_impl_edf.c:31-33 | a set that passes forever keeps all its threads at different priorities in every round iff it has one task |
| Registered.FirstSetSharesPriorities | fixt/fixt.c:105-111 | the first registered set queues five tasks in its first round, and some share a priority |
| Registered.SecondSetSharesPriorities | fixt/fixt.c:113-117 | the second registered set under EDF queues two tasks in its second round, at different priorities, yet the task served in the first has the priority of the new head |
| Algorithm.Reprioritise | fixt/fixt_algo.c:139-144 | sets the priority of each queued task by its position: 9, 8, and 7 from there on |
| Algorithm.MinRelease | fixt/fixt_algo.c:167-175 | the loop computes the engine's minimum |
| Algorithm.ShiftOthers | fixt/impl/edf/fixt_algo_impl_edf.c:132-143 | all tasks but the head wait for delta |
| Algorithm.Recalc | fixt/impl/sct/fixt_algo_impl_sct.c:105-146 | in place, the fields become those of the engine's step, in the preempted, completed, waiting and idle cases |
| Algorithm.Algo.Run | fixt/fixt_algo.c:126-165 | one round makes exactly one engine step on the nodes and one reprioritisation; threads outside the queue keep their priorities |
| Algorithm.Algo.Halt | fixt/fixt_algo.c:177-189 | deleting while walking empties the task list |
| Fixture.FixtSet.Add | fixt/fixt_set.c:40-41 | the task is last on the set's list |
| Fixture.PrimeAlgo | fixt/fixt.c:178-190 | the nodes of the set become the algorithm's tasks in order, started afresh, all at the same priority |
| Fixture.RunTestOn | fixt/fixt.c:192-216 | `al_schedulable` ends up true iff the first `horizon` checks of the run pass; the task list is empty again, and the threads have the priorities of the rounds that were run |
| Fixture.TestPair | fixt/fixt.c:71-78 | one test leaves every set list intact and every algorithm without tasks; its verdict depends on the pair alone |
| Fixture.FixtTest | fixt/fixt.c:62-85 | every verdict of the double loop is that of its own algorithm and set, whatever ran before |
| Fixture.VerdictMeans | fixt/fixt.c:202-212 | with a horizon of H + 1 rounds, each algorithm's verdict is whether every job of every task, forever, meets its deadline under it |
| Fixture.EdfVerdict | fixt/fixt.c:202-212 | with a horizon of H + 1 rounds, EDF's verdict is whether the demand fits every interval; with deadlines at the periods, whether utilisation is at most one |
| Handshake.ActionInv | fixt/fixt_algo.c:126-165 | every micro-step of the scheduler or a worker keeps the invariant; the engine moves only when a round completes, and then by its own step |
| Handshake.ServedJob | fixt/impl/edf/fixt_algo_impl_edf.c:85-89 | al_block ends with sem_done exactly when the step completes the job, and with the timeout exactly when it does not |
| Handshake.ExecutionRefinesRun | fixt/fixt.c:202-213 | under every interleaving the tasks are in the state the engine alone reaches after as many rounds |
| Handshake.OneToken | fixt/impl/rma/fixt_algo_impl_rma.c:67-75 | in every state an RMA test can reach there is one token in the system while the scheduler is blocked and none between rounds |
| Handshake.ChargedIsSpun | fixt/fixt_algo.c:152-154 | between rounds of every execution no semaphore is up, each worker has spun what has been charged, is mid-job with that much left iff `a > 0`, and was released once per job |
| Handshake.SpunPlusIdleIsTime | fixt/fixt_task.c:138-141 | between rounds of every execution the quanta spun by all workers and the idle time add up to the time |
| Handshake.BlockedIsLive | fixt/impl/rma/fixt_algo_impl_rma.c:71-72 | a blocked scheduler is never stuck: it or the head's worker can act |
| Handshake.BlockEnds | fixt/fixt_task.c:124-148 | until al_block returns every action leaves less for the head's worker, or fewer others on their way back to sem_wait; when it returns the engine has made one step |
| Handshake.BlockReturns | fixt/fixt_algo.c:146-154 | in every execution al_block returns, with the engine one step on, within one action more than that; an execution that ends before could have gone on |
| Rounds.BlockIsShort | fixt/impl/edf/fixt_algo_impl_edf.c:77-93 | after a dispatch it returns within `c` actions, one for each thread and six more |
| Rounds.RoundsHavePassed | fixt/fixt.c:202-209 | in every execution each completed round, and the one under way, had passed its check |
| Rounds.RoundsArePassedChecks | fixt/fixt.c:202-212 | the threads can complete n rounds iff the first n checks pass |
| Handshake.StoppingNearsEnd | fixt/fixt_task.c:105-119 | while halting, every action of any thread brings the end nearer |
| Handshake.StoppingIsBounded | fixt/fixt_algo.c:177-189 | no execution goes on longer than the bound computed when halting begins |
| Handshake.StoppingIsLive | fixt/fixt_task.c:109-112 | while halting some action is always possible: every worker gets to its pill and every join returns |
| Handshake.HaltedIsOver | fixt/fixt_task.c:128-130 | when an execution has halted, every worker has left its loop |
| Handshake.AlwaysLive | fixt/fixt.c:202-213 | in every state some action is possible, until everything has halted |
| Handshake.StoppingEnds | fixt/fixt_algo.c:177-189 | an execution that cannot go on has halted, with every worker gone |
| Rounds.FailedTestHalts | fixt/fixt.c:206-213 | if the check of round n fails, an execution that cannot go on has halted after at most n rounds, with every worker gone |
| Rounds.FailedTestIsBounded | fixt/fixt.c:206-213 | if the check of round n fails, no execution has more than `(n + tasks) * (c + 8) + 2` actions, c the longest job |
| Handshake.SharersHaveNoJob | fixt/fixt_task.c:137-142 | in every execution, a thread at the blocked head's priority is in sem_wait, or about to go back there, with nothing posted |

## Left out

- Spinning and wall-clock time (`spin/spin.c`, `spin/timing.c`): calibration, busy loops and timespec arithmetic are replaced by the quantum clock described above.
- Fixture.RunTestOn: the wall-clock cutoff is an arbitrary positive number of rounds; the loop is otherwise that of the source.
- The cutoff in the Handshake module: a test may be stopped between any two rounds, and also before the first, which the source's loop always attempts.
- Algorithm.Algo.Run: the class does not call al_block or post semaphores; the threads are modelled in the Handshake module, on the same engine.
- Algorithm.Algo.Halt: the class does not stop or join threads; that, too, is modelled in the Handshake module.
- Algorithm.Algo.BuildQueue: the three al_schedule hooks, alike but for the comparator, are one method with the comparator chosen by the algorithm; the EDF and SCT recalculations, alike line for line, are one too.
- Delays.RmaPassesByDelay: the test is sufficient only; it is not shown that every set RMA passes satisfies it.
- Priorities as a cause: in the Handshake module any enabled micro-step may come next, except that a worker spins only while the scheduler is blocked on it or, in RMA, at any time; no step is excluded because a thread of higher priority is ready.
- Fixture.FixtTest: the lists of sets and of algorithms are sequences; only the task lists are linked structures.
- Handshake.ServedJob: a quantum granted to a worker is used in full, and a worker that has finished posts within the grace period of the timed wait.
- The pill variable of the worker routine: the source does not initialise it, so a worker may read a stale value when the pipe is empty; an empty pipe is modelled as no pill.
- Thread policies and attributes, pipes and file flags, malloc and free, object lifetimes and the teardown order.
- Logging, the kernel trace and printing: no logic.
- `fixt_algo_copy_all`, which is marked as not to be used, and the compiler-specific macro variants.
- The `LL_*` and `CDL_*` families and the `DL_*` macros the scheduler does not call: they would repeat easier proofs.
- Utilisation bounds for preemptive rate-monotonic scheduling: this RMA does not preempt, so they do not apply.
- Integer wrap-around: integers are unbounded; Bookkeeping.ComparatorsStayInRange bounds the comparators under EDF and SCT. Doubling the merge size overflows only for lists of more than 2^30 nodes.
