# A verified model of the Tergite backend

The backend takes pulse jobs for a quantum device, prepares and queues them around
bookings, compiles them for the control hardware, runs them and packs the results.
This project models the parts of it that keep state, or transform a program, as Dafny
modules, and proves what they keep over every run and every input.

| part | modules |
|---|---|
| pulse-schedule compiler | `Timegrid`, `Channels`, `Schedules`, `ScheduleCompiler`; results in `ScheduleOrder`, `ScheduleTiming`, `ScheduleMeaning`, `ScheduleOvertaking`, `SchedulePhases`, `PlayedPhases`, `PlayedOperations` |
| queues | `Queues`, `StaticQueues`, `Runners`, `RunnerQueues`; results in `QueueProperties`, `PopManyProperties`, `UnlimitedSweeps`, `RunnerProperties` |
| job pipeline | `Jobs`, `Pipelines`, `Scheduler`; results in `PipelineStates`, `PipelineSteps`, `PipelineActions`, `PipelineOutcomes`, `PipelineProperties`, `PipelineTotals`, `PipelineCancellations`, `PipelineSweeps`, `PipelineWitnesses` |
| indexed collection | `IndexKeys`, `Collections`, `RecordCollections`; results in `RecordKeys`, `CollectionIndexes`, `CollectionProperties`, `CollectionLifetimes` |
| bookings | `Bookings`; results in `BookingProperties` |
| results and codings | `Registers`, `ExperimentNames`, `RunLengths` |

Code that works in place is a class or a method with loops, proved equal to a function of
its inputs or of the old state; the results are lemmas about these functions. Times and
ticks are integers, phases and durations are reals. Redis is a record of maps and
sequences, SQL a sequence of rows; the clock, the time to the next booking, the outcome
of a calibration or of a discriminator are parameters. Every task of the scheduler is
cut into atomic steps, and a worker holds a job between two of them.

`dafny verify dfyconfig.toml` checks the whole.

## Where the code does not do what it says

For each of these there is a lemma with the exact condition under which the code does
what is expected and, where that does not show it by itself, one with an input or a run.

- *Order of phases.* The shift of a `setp` is computed in order of registration but
  played in order of slots. A `setp` given before an earlier `fc` leaves the clock at 100
  degrees where its instructions, as played, call for 90 (`PlayedPhases.PhaseOutOfTime`).
  A clock plays its instructions in order of their grid lines; the phases on the way are
  theirs exactly if every `setp` finds, in that order, the phase that it finds in the
  order of registration (`PlayedPhases.PhasesOnTheWay`), and so they are for instructions
  given in order of time (`SchedulePhases.PlayedInTime`). Whatever the order, the clock
  ends at the phase recorded last (`SchedulePhases.FinalPhaseIsConserved`).
- *Numbers of acquisitions.* They follow the order of registration, so they are those of
  the order of play exactly if the grid lines of the acquisitions do not decrease along it
  (`SchedulePhases.AcquisitionsAreNumbered`).
- *Order across clocks.* A clock that has no more instructions is not waited for, and the
  rest of what it dispatches can start after later instructions of other clocks
  (`ScheduleOvertaking.StepIsOvertaken`). What a clock has in a slot comes before what
  another has in a later slot exactly if it is no more than the time between and the waits
  at the barriers (`ScheduleOvertaking.SlotsKeepOrderExactly`), which is so whenever it
  goes on until then (`ScheduleTiming.GapBetweenSlots`).
- *Overlap.* Two instructions that round to the same slot do not overlap exactly if they
  were registered in their order (`ScheduleMeaning.InstructionsDoNotOverlap`).
- *Sweeps of a long queue.* `pop_many` reads its second batch by index from the list the
  first has shortened. That it leaves no job that fits is certain exactly up to a hundred
  jobs (`PopManyProperties.CompleteExactlyUpToOneBatch`): for every length beyond there is
  a list of which it does (`PopManyProperties.FreeJobsAreLeft`). For a list and budget at
  hand, it does so exactly if one of the entries that no batch has read would fit
  (`PopManyProperties.CompleteExactly`). Without a limit it takes every other hundred of
  the list, and leaves those between (`UnlimitedSweeps.UnlimitedSweep`).
- *Sweeps before a booking.* The sweep of the waitlist counts neither the jobs on the
  normal queue nor the running one: a job that was put on the waitlist because it does not
  fit behind those is moved there all the same (`PipelineWitnesses.SweptThoughTooLong`).
  With time left, it is certain that all jobs then end before the booking exactly if what
  is queued or running takes no time (`PipelineSweeps.SweepsEndInTimeExactly` over all waitlists,
  `PipelineSweeps.SweptStatesEndInTimeExactly` over all reachable states). While there is
  time for all of the waitlist, of up to a hundred jobs, they do exactly if there is time
  for it behind those (`PipelineSweeps.SweepOfAllEndsInTimeExactly`).
- *Tokens.* Cancelling with the storage id of a job can still leave another job without a
  token (`RunnerProperties.StuckJob`); which steps do this is exact
  (`RunnerProperties.StepKeepsEnough`). The tasks of the scheduler pass token ids of their
  own, and are safe from it (`PipelineProperties.TokensSuffice`).
- *Recorded durations.* A cancellation takes the duration of the job off the total of
  every execution queue, whether it has the job or not, so later jobs are admitted exactly
  as if that time had been gained (`PipelineTotals.AdmissionCountsCancelledJobs`); a run
  that admits a job that does not fit is `PipelineWitnesses.AdmittedThoughTooLong`.
- *Time left in a booking.* The documentation speaks of the time left; the code takes the
  whole length of the booking, however much of it has passed. A job can be admitted at the
  very end (`PipelineWitnesses.AdmittedAtTheEnd`). That every job admitted ends within the
  booking is certain only up to its start, and earlier by what cancelled jobs have gained,
  or while nothing is admitted (`PipelineTotals.AdmittedEndsInTimeExactly`, an equivalence).
- *Lost jobs.* A results file that cannot be moved or read ends postprocessing with an
  error that the failure callback does not log: the job stays as it is, in no queue. A run
  is `PipelineWitnesses.JobIsLost`; exactly the steps of this kind lose a job
  (`PipelineProperties.OnlyAbandonedAreLost`).
- *Cancelled jobs.* A job cancelled while a worker prepares it is queued all the same, or
  fails if it is rejected; one cancelled while it is executed fails if the executor raises;
  one cancelled during postprocessing ends as successful or failed
  (`PipelineCancellations.PreparedThoughCancelled`, `PipelineCancellations.Overruled`). It
  stays cancelled and out of all queues, whatever follows, exactly if no worker has it or
  the worker that has it only waits for the success callback
  (`PipelineCancellations.CancelledForGoodExactly`).
- *Keys of several fields.* The values of the primary fields are joined by `@@@`. Records
  with other values can have the same key, and overwrite each other: that no other values
  give the key of a record is so exactly if there is one primary field, or none of its
  values has three at signs in a row, and none begins or ends with one where it is joined
  (`RecordKeys.KeyIsItsOwnExactly`).
- *Indexes.* `insert` over a key in use leaves old entries behind, exactly if an indexed
  value changes (`CollectionProperties.InsertIsExact`). With expiries: a query over two
  fields can find a former value (`CollectionProperties.FormerValueIsFound`), exactly in
  stores where a live record has such an entry beside one that still counts
  (`CollectionLifetimes.FindsOnlyMatchesExactly`). A field that updates leave alone drops
  out of the index before its record expires (`CollectionLifetimes.UntouchedFieldIsMissed`);
  the record is found by it exactly if the last write that named the field is not longer
  ago than the time to live, the instant of a cleanup apart
  (`CollectionLifetimes.FoundWhileNamed`). An update that asks to
  leave the expiry alone does so exactly if there is none, else it makes the record
  permanent (`CollectionProperties.UpdateForgetsExpiry`). An update across values with `::`
  in them, or a colon in front, can fail with a `KeyError`; when is exact, and it then
  changes nothing (`CollectionProperties.UpdateFailsExactly`).
- *Quota of bookings.* Only the day a booking starts in is counted, so a day may have one
  booking more than the quota (`BookingProperties.OneMoreCanBe`), and a new booking keeps
  all days within it exactly if it goes over no midnight into a full day
  (`BookingProperties.DaysKeepQuotaExactly`). Bookings of no length at midnight are not
  counted at all, and there can be any number of them (`BookingProperties.MidnightIsFree`);
  they are the only ones (`BookingProperties.NoLengthIsNotCounted`). So the bookings that
  start in a day stay within the quota, over all runs, exactly if there is a least length
  or a quota of none (`BookingProperties.StartsKeepQuotaExactly`).

## Model

| member | source | states |
|---|---|---|
| `Timegrid.RoundToTick` | app/libs/quantum_executor/quantify/instruction.py:790-791 | rounding to the 4 ns grid: nearest line, ties to the even one; the two clauses determine it |
| `Timegrid.ToTickExact` | app/libs/quantum_executor/quantify/experiment.py:349-350 | the tick of an on-grid time is the one it was rounded to |
| `Timegrid.RoundMonotone` | app/libs/quantum_executor/quantify/instruction.py:790-791 | rounding never swaps two times |
| `Timegrid.OvershootAtMostOneTick` | app/libs/quantum_executor/quantify/instruction.py:790-791 | start and duration, rounded apart, overshoot what follows by at most one tick |
| `Timegrid.OvershootHappens` | app/libs/quantum_executor/quantify/instruction.py:790-791 | and that tick is really overshot |
| `Channels.QuantifyChannel.RegisterInstruction` | app/libs/quantum_executor/quantify/channel.py:127-147 | appends to the four lists; the position is the index of the instruction, and the recorded values are those of the direct semantics |
| `Channels.FinalValues` | app/libs/quantum_executor/quantify/channel.py:61-83 | the final phase, frequency and count of acquisitions are those after all instructions |
| `Channels.ExtendedIsValid` | app/libs/quantum_executor/quantify/channel.py:127-147 | recording keeps the invariant that entry k is the state after k + 1 instructions |
| `Channels.QuantifyChannelRegistry.AddInstruction` | app/libs/quantum_executor/quantify/experiment.py:174-211 | registers on the channel of the clock, made on demand, and leaves all other channels alone |
| `Channels.QuantifyChannelRegistry.Get` | app/libs/quantum_executor/quantify/channel.py:33-44 | a missing channel is inserted, empty, and found from then on |
| `Schedules.EverySlotIsActive` | app/libs/quantum_executor/quantify/experiment.py:394-401 | every slot has an active clock |
| `Schedules.ShiftIsSlowest` | app/libs/quantum_executor/quantify/experiment.py:403-412 | the shift at a slot is that of the slowest of the clocks active there |
| `ScheduleCompiler.CollectPlan` | app/libs/quantum_executor/quantify/experiment.py:249-278 | keeps the schedulable instructions of a channel, in order, with their operations |
| `ScheduleCompiler.GroupBySlot` | app/libs/quantum_executor/quantify/experiment.py:361-381 | groups by slot, keeping the order within a slot; collects the slots and the last one |
| `ScheduleCompiler.Barrier` | app/libs/quantum_executor/quantify/experiment.py:403-406 | the barrier is reached by one active clock and by none later |
| `ScheduleCompiler.AlignClocks` | app/libs/quantum_executor/quantify/experiment.py:408-413 | all active clocks are ready at the barrier; the others are left alone |
| `ScheduleCompiler.EmitClock` | app/libs/quantum_executor/quantify/experiment.py:415-437 | the instructions of a slot are emitted at consecutive ticks, each paying one tick of dispatch |
| `ScheduleCompiler.EmitOperations` | app/libs/quantum_executor/quantify/experiment.py:394-437 | the loop with counters and barriers emits what the closed form says; its early exit is never taken |
| `ScheduleCompiler.EmitTails` | app/libs/quantum_executor/quantify/experiment.py:439-452 | every clock that had instructions idles after its last entry, or after the root |
| `ScheduleCompiler.ConstructSchedule` | app/libs/quantum_executor/quantify/experiment.py:214-453 | the schedule of a registry, in closed form |
| `ScheduleCompiler.Compile` | app/libs/quantum_executor/quantify/experiment.py:118-453 | from instructions to schedule, in closed form; which operations these are, without it, is `PlayedOperations.OperationsArePlayed` |
| `ScheduleOrder.OnClockSchedule` | app/libs/quantum_executor/quantify/experiment.py:394-437 | the schedule restricted to a clock is what that clock emits by itself |
| `ScheduleOrder.EmissionIsStableSort` | app/libs/quantum_executor/quantify/experiment.py:383-437 | a clock emits its instructions sorted by slot, each slot in its order |
| `ScheduleOrder.StableSortIsUnique` | app/libs/quantum_executor/quantify/experiment.py:383-437 | that determines the emission |
| `ScheduleOrder.RegistrationOrderIsKept` | app/libs/quantum_executor/quantify/experiment.py:361-437 | the order of registration is kept exactly if slots do not decrease along it |
| `ScheduleTiming.EmittedAtStart` | app/libs/quantum_executor/quantify/experiment.py:420-431 | instruction p of a slot starts at slot + shift + 1 + p |
| `ScheduleTiming.EmittedExactlyOnce` | app/libs/quantum_executor/quantify/experiment.py:361-437 | as many entries as instructions, distinct instructions at distinct places |
| `ScheduleTiming.PlacesFollowSlots` | app/libs/quantum_executor/quantify/experiment.py:394-437 | places follow slots and, within a slot, registration |
| `ScheduleTiming.BarrierAligns` | app/libs/quantum_executor/quantify/experiment.py:403-413 | what a clock still active at a slot has started before, it started before the tick of the barrier; all that any clock starts there or later comes after that tick, the first right after it |
| `ScheduleTiming.GapBetweenSlots` | app/libs/quantum_executor/quantify/experiment.py:394-437 | a later slot starts later by at least the slots between and one tick, on every clock still active |
| `ScheduleOvertaking.StepsKeepOrderExactly` | app/libs/quantum_executor/quantify/experiment.py:394-437 | for two steps in different slots, on any clocks: the later slot starts later, exactly when |
| `ScheduleOvertaking.SlotsKeepOrderExactly` | app/libs/quantum_executor/quantify/experiment.py:403-437 | all that a clock has in a slot comes before all that another has in a later one, exactly if it is no more than the time between and the dispatch of the busiest clocks that go on |
| `ScheduleOvertaking.StepIsOvertaken` | app/libs/quantum_executor/quantify/experiment.py:403-413 | an experiment of six instructions in which a later one of another clock starts first |
| `ScheduleTiming.ShiftPaysForDispatch` | app/libs/quantum_executor/quantify/experiment.py:408-437 | from slot to slot the shift grows at least by what a clock has emitted |
| `ScheduleTiming.ShiftsPay` | app/libs/quantum_executor/quantify/experiment.py:394-437 | the shifts of the compiler satisfy alignment and dispatch cost |
| `ScheduleTiming.ShiftIsLeast` | app/libs/quantum_executor/quantify/experiment.py:394-437 | no delays that satisfy them are smaller |
| `ScheduleTiming.StepsDoNotOverlap` | app/libs/quantum_executor/quantify/experiment.py:394-437 | instructions that overshoot by at most one tick do not overlap after delays, exactly if in different slots or registered in order |
| `ScheduleMeaning.InstructionIsScheduled` | app/libs/quantum_executor/quantify/experiment.py:214-453 | every schedulable instruction is in the schedule, at its start tick |
| `ScheduleMeaning.InstructionsDoNotOverlap` | app/libs/quantum_executor/quantify/experiment.py:349-437 | end to end: what does not overlap in nanoseconds does not after rounding and delays, with the exact condition when both round to one slot |
| `SchedulePhases.ReplayIsDirect` | app/libs/quantum_executor/quantify/instruction.py:475-487 | shifts that are differences of recorded phases, or plain sums, replay assigning and adding |
| `SchedulePhases.PlayedInSlotOrder` | app/libs/quantum_executor/quantify/experiment.py:361-437 | a clock plays its instructions in order of registration exactly if their grid lines do not decrease along it |
| `SchedulePhases.PhaseIsPreserved` | app/libs/quantum_executor/quantify/instruction.py:445-545 | if the grid lines do not decrease, the phase played is the direct one and the one recorded, after every operation |
| `SchedulePhases.AcquisitionsAreNumbered` | app/libs/quantum_executor/quantify/instruction.py:248-304 | acquisitions of a clock bear the numbers 0, 1, 2, ... in the order they are played, exactly if the grid lines of the acquisitions do not decrease |
| `SchedulePhases.PlayedInTime` | app/libs/quantum_executor/quantify/experiment.py:214-453 | for a clock whose instructions are given in order of time: phases as in the direct semantics, acquisitions numbered as played |
| `SchedulePhases.FinalPhaseIsConserved` | app/libs/quantum_executor/quantify/instruction.py:445-545 | in any order, a clock ends with the recorded final phase |
| `PlayedPhases.PhaseOutOfTime` | app/libs/quantum_executor/quantify/instruction.py:475-487 | a `setp` given before an earlier `fc`: 100 degrees are played where the played instructions call for 90 |
| `PlayedPhases.PlaysByGridLine` | app/libs/quantum_executor/quantify/experiment.py:361-437 | a clock plays its schedulable instructions in the order of an insertion sort by grid line |
| `PlayedPhases.PhasesOnTheWay` | app/libs/quantum_executor/quantify/instruction.py:475-487 | in any order, all phases played are those of the instructions sorted by grid line, exactly if every `setp` finds there the phase that it finds in the order of registration |
| `PlayedPhases.SetPhasePlayedLast` | app/libs/quantum_executor/quantify/instruction.py:475-487 | for all values: a `setp` given first and played last is off by the `fc` in between |
| `PlayedOperations.OperationsArePlayed` | app/libs/quantum_executor/quantify/experiment.py:249-452 | what a clock plays: one operation for each instruction given on it, but those that control a frequency if that is not asked for; a pulse for a pulse, an idle for a delay, an acquisition for an acquisition, phases shifted and frequencies set; durations rounded to 4 ns; in the order of the nearest grid lines, and as given where these are the same |
| `PlayedOperations.OperationInLog` | app/libs/quantum_executor/quantify/instruction.py:584-595 | which operation an instruction becomes, in terms of what was given and the instructions before it; likewise at 341, 404-440, 475-545, 633 and 736 |
| `PlayedOperations.OneMoreInstruction` | app/libs/quantum_executor/quantify/instruction.py:357-487 | the direct semantics: what one more instruction does to phase, frequency and count of acquisitions |
| `PlayedOperations.ScheduleEndsInTails` | app/libs/quantum_executor/quantify/experiment.py:394-452 | a schedule is timed operations on the clocks used, and after them one idle for each such clock, tied to what it has played last or to the root |
| `StaticQueues.StaticQueue.Add` | app/libs/queues/types.py:76-98 | list, both maps and total after an addition |
| `StaticQueues.StaticQueue.Next` | app/libs/queues/types.py:100-129 | the head leaves the list, the maps and the total; an empty list is an error |
| `StaticQueues.StaticQueue.PopJob` | app/libs/queues/types.py:136-167 | one entry leaves; the total is reduced whether it was there or not |
| `StaticQueues.StaticQueue.Clear` | app/libs/queues/types.py:131-134 | everything goes but the arguments |
| `StaticQueues.StaticQueue.PopFirst` | app/libs/queues/types.py:169-200 | the first entry that the filter accepts, over all batches, and no other |
| `StaticQueues.StaticQueue.PopMany` | app/libs/queues/types.py:202-244 | the batched sweep, entry after entry |
| `QueueProperties.DurationIsConserved` | app/libs/queues/types.py:76-167 | over every run: maps agree with the list, and the total is the listed durations less those of pops that missed |
| `QueueProperties.NextIsPopHead` | app/libs/queues/types.py:100-129 | taking the next job is popping the head |
| `QueueProperties.RemovingDistinct` | app/libs/queues/types.py:155-162 | removing an id removes it and nothing else |
| `Queues.PoppingMeans` | app/libs/queues/types.py:136-167 | what popping does to the list, the maps, the total and the current job, and what it returns |
| `QueueProperties.SweepingEntries` | app/libs/queues/types.py:229-241 | a sweep takes a subsequence, pays for it, and leaves in its batch only what exceeds what is left |
| `PopManyProperties.PopManyIsFifoWithinBudget` | app/libs/queues/types.py:202-244 | on lists of any length: popped and left are an order-preserving split, within the budget, with no error |
| `PopManyProperties.CompleteUpToOneBatch` | app/libs/queues/types.py:202-244 | up to 100 entries nothing that fits is left, exactly unless there was nothing to spend and a job that costs nothing |
| `PopManyProperties.CompleteExactlyUpToOneBatch` | app/libs/queues/types.py:218-244 | for free jobs the sweep is complete exactly up to 100 of them |
| `PopManyProperties.CompleteExactly` | app/libs/queues/types.py:218-244 | for every queue and budget: nothing that fits is left, exactly if no entry that no batch has read fits in what is left at the end |
| `PopManyProperties.FreeJobsAreLeft` | app/libs/queues/types.py:223-244 | beyond a hundred, a job that fits is left |
| `UnlimitedSweeps.UnlimitedSweep` | app/libs/queues/types.py:218-244 | with no limit: it takes every other hundred of the list, in order, and leaves those between, whatever the length |
| `PopManyProperties.MissingJobEndsSweep` | app/libs/queues/types.py:229-241 | an entry that fits but has no stored job ends the sweep with an error |
| `RunnerQueues.RunnerQueue.Enqueue` | app/libs/queues/types.py:317-354 | the job joins the static queue, and a token the worker's queue |
| `RunnerQueues.RunnerQueue.CancelJob` | app/libs/queues/types.py:367-394 | the job leaves if its storage id is given; the token with the default id leaves if it is pending |
| `RunnerQueues.RunnerQueue.Fire` | app/libs/queues/types.py:397-408 | whichever token fires, the head of the list is run |
| `RunnerProperties.TokensSuffice` | app/libs/queues/types.py:347-408 | tokens firing in order, jobs cancelled with their own storage id: never fewer tokens than jobs |
| `RunnerProperties.OwnTokensSuffice` | app/libs/queues/types.py:347-408 | with token ids of their own: never fewer, whichever tokens fire and whatever is cancelled |
| `RunnerProperties.StepKeepsEnough` | app/libs/queues/types.py:347-408 | exactly which steps leave fewer tokens than jobs |
| `RunnerProperties.StuckJob` | app/libs/queues/types.py:385-394 | a job left without a token: a concrete run |
| `RunnerProperties.JobsRunInOrder` | app/libs/queues/types.py:347-408 | whichever tokens fire, the jobs that ran and those that wait are the enqueued ones in order, less those cancelled while they waited |
| `RunnerProperties.FiringAllEmpties` | app/libs/queues/types.py:397-408 | firing all tokens, in any order, empties the list |
| `Jobs.WithUpdates` | app/libs/queues/dtos.py:219-245 | the given labels get the time, all others keep theirs |
| `Jobs.UpdateStamps` | app/libs/queues/dtos.py:219-245 | the loop over labels does that |
| `Jobs.EndedIsForever` | app/services/scheduler/utils.py:129-211 | over every interleaving a job has ended exactly if one of the updates ended it, and never comes back |
| `Jobs.LastWordCounts` | app/services/scheduler/utils.py:350-363 | stage updates do not change with which status it ended |
| `PipelineStates.Moving` | app/services/scheduler/utils.py:129-159 | the next stage adds exactly its labels, later than all others; nothing else is rewritten |
| `PipelineActions.MovingMeans` | app/services/scheduler/utils.py:129-159 | which labels the next stage adds, at which time, and which status it gives to a job that has not ended |
| `PipelineSteps.Firing` | app/libs/queues/types.py:397-408 | a worker that takes the head of a queue gets a job with the stage of that queue, which is then in no queue |
| `PipelineSteps.FeedingNormal` | app/services/scheduler/tasks.py:756-795 | the normal queue is the old one followed by the swept jobs in order, their sum within the time to the booking; no other job is touched |
| `PipelineSteps.SweptJobsAreQueued` | app/services/scheduler/tasks.py:756-795 | waitlist and swept jobs are an order-preserving split of the old waitlist, and the swept jobs join the normal queue |
| `PipelineSteps.FeedingBooking` | app/services/scheduler/tasks.py:696-753 | the first job that is short enough goes from the waitlist to the end of the booked queue, or nothing happens; no other job is touched |
| `PipelineActions.ShortJobMoves` | app/services/scheduler/tasks.py:696-753 | in durations: with a limit, the first job below it moves, all before it being at least it, and nothing moves if all are; without a limit the head moves |
| `PipelineActions.MovedEndsInTime` | app/services/scheduler/tasks.py:696-753 | with nothing ahead of it, the job that moves ends before the next booking |
| `PipelineActions.SubmissionMeans` | app/services/scheduler/service.py:225-260 | a new job is pending, in its first stage, last in the list for preprocessing; a known id changes nothing |
| `PipelineActions.PreprocessingStartMeans` | app/services/scheduler/tasks.py:104-111 | a worker takes the head of the list, with its booking, or the job fails |
| `PipelineActions.ExecutionStartMeans` | app/libs/queues/types.py:397-408 | a worker takes the head of either execution queue |
| `PipelineActions.PostprocessingStartMeans` | app/services/scheduler/tasks.py:323-331 | a worker takes the head of the list, or it is dropped with its record unchanged |
| `PipelineActions.WorkerIsFree` | app/services/scheduler/tasks.py:77-418 | when a worker has its job no longer, and that a prepared job has its estimate |
| `PipelineActions.WorkerWaits` | app/services/scheduler/tasks.py:337-363 | saved results wait for the success callback, errors for the failure callback |
| `PipelineActions.TokensAreTold` | app/services/scheduler/tasks.py:279-287 | the token ids of the tasks are the same exactly for the same stage of the same job |
| `PipelineSteps.EndingPreprocessing` | app/services/scheduler/tasks.py:122-127 | a prepared job is in the list of its destination and in no other, or has failed if it is rejected; no other job is touched |
| `PipelineSteps.EndingExecution` | app/services/scheduler/tasks.py:272-292 | an executed job joins the end of the postprocessing queue with that stage; if it was cancelled it is nowhere and no record changes |
| `PipelineSteps.Succeeding` | app/services/scheduler/tasks.py:366-387 | a job whose results were saved keeps its status, is nowhere, and has the last stage if successful, else the one before |
| `PipelineSteps.Cancelling` | app/services/scheduler/service.py:263-318 | afterwards no queue has the job and only its status has changed; it is nowhere exactly if no worker has it |
| `PipelineProperties.EveryRun` | app/services/scheduler/tasks.py:77-418 | the invariant of the pipeline holds in every reachable state |
| `PipelineProperties.OneJobOnePlace` | app/services/scheduler/tasks.py:519-795 | in every reachable state a job occurs at most once in all queues and with all workers, and its stored stage tells in which queue |
| `PipelineProperties.OnlyAbandonedAreLost` | app/services/scheduler/tasks.py:306-418 | jobs that have not ended are in some place: exactly the abandoning steps break this |
| `PipelineProperties.NothingIsLost` | app/services/scheduler/tasks.py:77-418 | so without such steps no job is ever lost |
| `PipelineProperties.EveryJobEvolves` | app/services/scheduler/utils.py:129-211 | no step moves a job back, rewrites a timestamp or revives an ended job |
| `PipelineProperties.TimesAreOrdered` | app/services/scheduler/utils.py:366-386 | in every reachable state the timestamps of a job follow the order of their labels |
| `PipelineOutcomes.StatusIsLastWord` | app/services/scheduler/utils.py:162-211 | in every reachable state a job has the status that the last of the writing steps gave it, and is under way if there was none; it is in the last stage exactly if a success callback came when it was successful |
| `PipelineOutcomes.EndsExactly` | app/services/scheduler/utils.py:162-211 | so it is successful, failed or cancelled exactly if saved results, an error or a cancellation came last |
| `PipelineOutcomes.SavedIsSuccessful` | app/services/scheduler/utils.py:187-211 | after any run: once its results are saved a job is successful |
| `PipelineOutcomes.SuccessIsFinal` | app/services/scheduler/tasks.py:366-387 | and if no failure or cancellation comes after, the success callback takes it to the last stage |
| `PipelineOutcomes.JobSucceeds` | app/services/scheduler/tasks.py:77-387 | from the empty pipeline a job of any duration gets there |
| `PipelineCancellations.CancelledIsGone` | app/services/scheduler/service.py:577-621 | a job cancelled while no worker has it is in no queue and with no worker, its record unchanged, after any further steps |
| `PipelineCancellations.PreparedThoughCancelled` | app/services/scheduler/tasks.py:519-660 | a job cancelled while it is prepared goes to its destination all the same, whichever that is, or fails if it is rejected |
| `PipelineCancellations.Overruled` | app/services/scheduler/tasks.py:77-418 | for each task of a worker but a returned one, a step that ends the cancelled job otherwise |
| `PipelineCancellations.SettledForGood` | app/services/scheduler/tasks.py:366-387 | a cancelled job that only waits for the success callback stays cancelled, in no queue, after any further steps |
| `PipelineCancellations.CancelledForGoodExactly` | app/services/scheduler/service.py:263-318 | over all further runs a cancelled job stays cancelled and in no queue, exactly if no worker has it or its worker has returned |
| `PipelineProperties.TokensSuffice` | app/services/scheduler/tasks.py:279-287 | in every reachable state no queue has fewer tokens than jobs |
| `PipelineTotals.TotalsAreConserved` | app/services/scheduler/service.py:589-621 | in every reachable state each queue is recorded at the duration of its jobs less that of jobs cancelled elsewhere |
| `PipelineTotals.AdmissionCountsCancelledJobs` | app/services/scheduler/tasks.py:556-566 | a job is admitted exactly if the queued, the running and the new job end before the next booking, jobs cancelled elsewhere counted as time gained |
| `PipelineTotals.BookedAdmissionCountsCancelledJobs` | app/services/scheduler/tasks.py:620-641 | the same in a booking, for its whole length, from start to end |
| `PipelineTotals.AdmittedEndsInTimeExactly` | app/services/scheduler/tasks.py:620-641 | every job admitted ends within the booking: exactly up to its start, less what cancelled jobs have gained, or if nothing is admitted |
| `PipelineSweeps.SweepsEndInTimeExactly` | app/services/scheduler/tasks.py:780-795 | whatever waits, all queued after a sweep ends before the booking: with time left, exactly if what is queued or running takes no time |
| `PipelineSweeps.SweptStatesEndInTimeExactly` | app/services/scheduler/tasks.py:756-795 | the same over all reachable states with so much queued |
| `PipelineSweeps.SweepOfAllEndsInTimeExactly` | app/services/scheduler/tasks.py:756-795 | per state, while there is time for the whole waitlist of up to a hundred jobs: exactly if there is time for it behind what is queued and running |
| `PipelineWitnesses.SweptThoughTooLong` | app/services/scheduler/tasks.py:780-795 | a run in which a job waitlisted as too long behind another is swept to the same place |
| `PipelineWitnesses.AdmittedThoughTooLong` | app/services/scheduler/tasks.py:556-566 | a run that admits a job longer than the time to the next booking |
| `PipelineWitnesses.AdmittedAtTheEnd` | app/services/scheduler/tasks.py:620-641 | a run that admits a job of the length of the booking, at any moment of it |
| `PipelineWitnesses.JobIsLost` | app/services/scheduler/tasks.py:328-329 | a run that ends with a job that has not ended and is nowhere |
| `PipelineSteps.PreparedJobIsRouted` | app/services/scheduler/tasks.py:519-660 | a prepared job is in the queue of its destination and in no other, or it is rejected and has failed; which, in terms of booking, owner, force flag and durations |
| `Scheduler.QueuePool.UpdateJobStage` | app/services/scheduler/utils.py:129-159 | stage, status and timestamps in place; a missing job is an error |
| `Scheduler.QueuePool.SubmitJob` | app/services/scheduler/service.py:225-260 | stored, then queued for preprocessing; a conflict changes nothing |
| `Scheduler.QueuePool.PreprocessStarts` | app/services/scheduler/tasks.py:104-111 | the head of the queue goes to a worker, or fails if its file cannot be read |
| `Scheduler.QueuePool.PreprocessEnds` | app/services/scheduler/tasks.py:122-127 | the estimate is stored, then the job is routed |
| `Scheduler.QueuePool.TryEnqueueOnNormalQueue` | app/services/scheduler/tasks.py:519-570 | waitlisted if too long for the time before the next booking, else queued |
| `Scheduler.QueuePool.TryEnqueueOnBookedQueue` | app/services/scheduler/tasks.py:573-660 | waitlisted, failed or queued, by owner, force flag and length |
| `Scheduler.QueuePool.PopWaitlistToBooking` | app/services/scheduler/tasks.py:696-753 | the first waiting job whose duration is below the time to the next booking moves, or the head if there is none; nothing moves exactly if all are too long |
| `Scheduler.QueuePool.PopWaitlistToNormalQueue` | app/services/scheduler/tasks.py:756-795 | the jobs of the sweep move one after the other |
| `Scheduler.QueuePool.ExecuteEnds` | app/services/scheduler/tasks.py:272-292 | a cancelled job is dropped, another queued for postprocessing |
| `Scheduler.QueuePool.PostprocessEnds` | app/services/scheduler/tasks.py:337-363 | results saved, and the job successful, or not saved, and its status kept; MSS told or not: a worker for the success or the failure callback |
| `Scheduler.QueuePool.PostprocessStarts` | app/services/scheduler/tasks.py:323-331 | the head of the queue goes to a worker, or is lost if its file cannot be moved |
| `Scheduler.QueuePool.PostprocessCrashes` | app/services/scheduler/tasks.py:333 | a results file that cannot be read: the worker ends and nothing is logged |
| `Scheduler.QueuePool.Fails` | app/services/scheduler/tasks.py:390-418 | an error that is logged ends the job as failed |
| `Scheduler.QueuePool.OnPostprocessingSuccess` | app/services/scheduler/tasks.py:366-387 | the last stage is reached only by successful jobs |
| `Scheduler.QueuePool.CancelJobInQueues` | app/services/scheduler/service.py:577-621 | popped from all five queues |
| `Scheduler.QueuePool.CancelJob` | app/services/scheduler/service.py:263-318 | popped from all queues, then marked; a missing job is an error |
| `IndexKeys.IndexKeysDiffer` | app/utils/redis_store.py:559-599 | whatever the values, no two fields or values share an index set |
| `IndexKeys.PropIsField` | app/utils/redis_store.py:639-651 | the property read off a key is the field exactly if the value has no `::` in it and no colon in front |
| `IndexKeys.PlainHasNoResidue` | app/utils/redis_store.py:639-651 | what is left of a value when the key is split is nothing, exactly for those values |
| `IndexKeys.PropsMatch` | app/utils/redis_store.py:639-651 | when two keys have the same property |
| `RecordKeys.KeyIsItsOwnExactly` | app/utils/redis_store.py:619-636 | with one primary field the key is its value; with several, no record of other primary values has the key, exactly when |
| `RecordKeys.InsertedIsFound` | app/utils/redis_store.py:332-369 | after an insertion the joined primary values give that record, for the time asked for, and every other key gives what it gave |
| `RecordKeys.InsertKeepsOthers` | app/utils/redis_store.py:332-369 | so records with other primary values stay as they are, if the values of the new one are as above |
| `RecordKeys.UpdateMeans` | app/utils/redis_store.py:371-419 | an update merges the changes into the record, for the time asked for; when it fails, how, and what it then leaves |
| `RecordKeys.DeletedAreGone` | app/utils/redis_store.py:421-447 | after a deletion the keys have no record, and all others what they had |
| `RecordKeys.LookupFailsExactly` | app/utils/redis_store.py:289-330 | which queries are refused |
| `CollectionIndexes.InsertEntry` | app/utils/redis_store.py:457-479 | an insertion adds the entries of its record and no others |
| `CollectionIndexes.UpdateEntry` | app/utils/redis_store.py:495-537 | an update moves the entries of the changed fields, or fails and changes nothing |
| `CollectionIndexes.DeletedEntry` | app/utils/redis_store.py:481-493 | a deletion removes the entries of the live records and no others |
| `CollectionIndexes.FilterMatches` | app/utils/redis_store.py:311-324 | a key is matched if it is in all the sets and one of its entries still counts |
| `CollectionProperties.IndexAgreesWithScan` | app/utils/redis_store.py:289-447 | over every history without expiry, a lookup by index finds exactly what a scan finds, whatever the values |
| `CollectionProperties.InsertIsExact` | app/utils/redis_store.py:332-369 | an insertion keeps that exactly if the key is new or no indexed value changes |
| `CollectionProperties.UpdateIsExact` | app/utils/redis_store.py:371-419 | so does every update that leaves primary fields alone, failed or not |
| `CollectionProperties.DeleteIsExact` | app/utils/redis_store.py:421-447 | so does every deletion |
| `CollectionProperties.UpdateFailsExactly` | app/utils/redis_store.py:512-525 | when an update fails on the values, and that it then changes nothing |
| `CollectionProperties.NoEntryOutlivesItsRecord` | app/utils/redis_store.py:289-537 | with one time to live: a lookup never meets a key without a live record, and by one field finds nothing wrong |
| `CollectionProperties.FormerValueIsFound` | app/utils/redis_store.py:317-324 | by two fields it can find a former value |
| `CollectionLifetimes.FindsOnlyMatchesExactly` | app/utils/redis_store.py:289-330 | with one time to live, a store answers no query wrongly exactly if no live record has an entry at a former value beside one that counts |
| `CollectionLifetimes.FindsAllMatchesExactly` | app/utils/redis_store.py:289-330 | and misses no record exactly if every field of every live record has an entry that counts |
| `CollectionLifetimes.FoundWhileNamed` | app/utils/redis_store.py:495-537 | over every history, a live record is found by a field exactly if the last write that named the field is not longer ago than the time to live; in the instant its entry ends, exactly if no cleanup came in that instant |
| `CollectionLifetimes.UntouchedFieldIsMissed` | app/utils/redis_store.py:521-537 | a run of an insertion and an update of another field, after which a live record is missed by the field left alone |
| `CollectionProperties.UpdateForgetsExpiry` | app/utils/redis_store.py:408-417 | leaving the expiry alone does so exactly if there is none; else the record is permanent |
| `RecordCollections.Collection.Insert` | app/utils/redis_store.py:332-369 | cleanup, record, expiry and entries, in place; the record is under its primary values, and all other keys have what they had |
| `RecordCollections.Collection.Update` | app/utils/redis_store.py:371-419 | record and entries in place, or the error; which record, for how long, and that other keys have what they had |
| `RecordCollections.Collection.DeleteMany` | app/utils/redis_store.py:421-447 | records and entries in place |
| `RecordCollections.Collection.UpdateIndexes` | app/utils/redis_store.py:495-537 | entries are moved together or not at all |
| `RecordCollections.Collection.CleanupExpiredIndexes` | app/utils/redis_store.py:601-616 | when the interval has passed, every set loses the entries that have ended |
| `Bookings.BookingTable.CreateBooking` | app/services/booking/service.py:49-75 | one row more, or the first error among invalid, conflict and quota |
| `Bookings.BookingTable.DeleteBookings` | app/services/booking/service.py:78-88 | the rows left are those that do not match, all of them, in their order |
| `Bookings.DeletingPicks` | app/services/booking/service.py:78-88 | the places of the rows left: increasing, and exactly those of rows that do not match |
| `Bookings.BookingTable.GetNextBooking` | app/services/booking/service.py:170-192 | the earliest row that starts no earlier than now, if any |
| `Bookings.BookingTable.GetActiveBooking` | app/services/booking/service.py:145-167 | a row that contains now, both ends included, if any |
| `BookingProperties.EveryRun` | app/services/booking/service.py:409-462 | over every run no two bookings overlap, and no user has more than the quota of bookings that start in a day and last into it |
| `BookingProperties.AcceptedExactly` | app/services/booking/service.py:49-75 | a request is accepted exactly if it is not in the past by more than a second, is forward, of a length allowed, overlaps no row and leaves its user within the quota of its day; else the first that fails is the error |
| `BookingProperties.DaysKeepQuotaExactly` | app/services/booking/service.py:444-462 | an accepted booking keeps all days within the quota exactly if it goes over no midnight into a full day |
| `BookingProperties.OneMoreThanTheQuota` | app/services/booking/service.py:444-462 | no day has more than one above the quota |
| `BookingProperties.OneMoreCanBe` | app/services/booking/service.py:444-462 | one above it happens, for any quota of bookings that fit in a day |
| `BookingProperties.OneMoreCannotBe` | app/services/booking/service.py:444-462 | the same bookings in the other order: the last is refused |
| `BookingProperties.NoLengthIsNotCounted` | app/services/booking/service.py:409-415 | over every run, bookings that start in a day exceed the quota only by those of no length at midnight |
| `BookingProperties.MidnightIsFree` | app/services/booking/service.py:444-462 | of those there can be any number |
| `BookingProperties.StartsKeepQuotaExactly` | app/services/booking/service.py:409-462 | over all runs, no user starts more bookings in a day than the quota: exactly if there is a least length, or a quota of none |
| `BookingProperties.ActiveIsUnique` | app/services/booking/service.py:145-167 | strictly within a booking, that one is the active one |
| `Registers.DiscriminateResults` | app/libs/quantum_executor/base/quantum_job/__init__.py:335-392 | per shot, an integer with the digit of each channel at the position of its slot, and zero elsewhere; exactly if all channels have one measurement or are averaged, a known qubit, a slot in the register, and one digit or as many as shots; else the error of the first that fails, or that slots are missing |
| `Registers.DigitsAreKept` | app/libs/quantum_executor/base/quantum_job/__init__.py:817-843 | the integer has the digits of the row at their positions, zero beyond, and lies below base^width |
| `Registers.PackingIsInjective` | app/libs/quantum_executor/base/quantum_job/__init__.py:817-843 | different registers give different integers |
| `Registers.BigEndianIsReversed` | app/libs/quantum_executor/base/quantum_job/__init__.py:834-843 | big-endian is little-endian of the reversed row |
| `Registers.ChannelIsAtItsSlot` | app/libs/quantum_executor/base/quantum_job/__init__.py:346-392 | if the digits of all channels are below the base, that of each qubit is at the position of its slot |
| `Registers.UnwrittenSlotIsZero` | app/libs/quantum_executor/base/quantum_job/__init__.py:346-392 | a slot that no channel writes is zero |
| `Registers.SdkQubitsDiffer` | app/libs/quantum_executor/base/quantum_job/__init__.py:332-333 | all qubit ids are numbered, by a place they stand at, and different ids have different numbers |
| `Registers.FilledExactly` | app/libs/quantum_executor/base/quantum_job/__init__.py:335-392 | the register is filled exactly if no channel has a fault; the first that has one gives the error |
| `Registers.SlotsFit` | app/libs/quantum_executor/base/quantum_job/__init__.py:846-888 | with the width taken from the acquire instruction every slot has its own row |
| `Registers.WidthIsExact` | app/libs/quantum_executor/base/quantum_job/__init__.py:846-888 | that width is one more than the greatest slot |
| `Registers.SlotsAreZipped` | app/libs/quantum_executor/base/quantum_job/__init__.py:846-888 | a qubit has the slot given beside it, the last time it is given |
| `ExperimentNames.IndexComesBack` | app/libs/quantum_executor/base/quantum_job/__init__.py:268-279 | the index is read back from every name printed at 532-544 |
| `ExperimentNames.NameIsKept` | app/libs/quantum_executor/base/quantum_job/__init__.py:532-544 | the printed name keeps letters, digits and the listed punctuation, in order, and nothing else |
| `ExperimentNames.OrderIsRecovered` | app/libs/quantum_executor/base/quantum_job/__init__.py:675-690 | sorting any permutation of the saved results by index gives the order of the experiments |
| `RunLengths.DecodeEncode` | app/libs/quantum_executor/utils/serialization.py:19-34 | decoding undoes encoding, and the encoding is canonical |
| `RunLengths.EncodeDecode` | app/libs/quantum_executor/utils/serialization.py:19-34 | encoding undoes decoding on canonical encodings |
| `RunLengths.CanonicalIsUnique` | app/libs/quantum_executor/utils/serialization.py:19-34 | of all encodings of a sequence exactly the encoder's is canonical |

## Left out

- Compiler: clock resources and their first frequencies, the root operation and the phase resets at the start, the hardware map and the sign of `fc` on mapped clocks, acquisition protocols and channels; floating-point error and the `1e-12` in `to_tick`.
- Compiler: the dictionaries keyed by clock are sequences beside the plans, clocks being distinct; the position of an instruction is part of its lowered value and not a field set later.
- Compiler: amplitudes, shapes and ports of pulses, the waveforms of a library, and the phase one is turned by.
- Compiler: lowering of qobj instructions to native ones, beyond their times, clocks and kinds.
- Queues: the text of storage ids, so that ids differ whenever job or duration do; serialisation of jobs and arguments.
- Queues: `RunnerQueue.total_duration` of a running job, which is a parameter of admission; rq itself, of which only pending tokens are kept, and token ids given by callers that would equal default ones.
- Pipeline: idle timers and recalibration; `delete_job` and the expiry of stored jobs, after which an id could be submitted a second time; errors of the store for jobs that are missing, which no reachable state has.
- Pipeline: interleavings inside one step, such as two writers between reading and writing a job; the pairs of timestamps that a shallow copy shares; the computed datetimes of a pair.
- Pipeline: authorisation of cancellations and the messages to MSS, of which only success or failure is kept.
- Pipeline: a job file whose job id is not that of its job.
- Collection: the order of the keys found, pagination, `get_all` and `clear`; truncation of a time to live to whole seconds; values that are not strings.
- `CollectionProperties.NoEntryOutlivesItsRecord`: does not say that all records that match are found, nor that all that is found matches for several fields, because neither holds; when they do is exact in `FindsAllMatchesExactly`, `FoundWhileNamed` and `FindsOnlyMatchesExactly`.
- Bookings: users and their deletion, tokens and passwords, the queries with other filters; other time zones, which are converted to UTC before.
- Results: loading of datasets, the discriminator itself, integrated results, printing as hexadecimal numbers, and integers beyond 64 bits.
- Names: what counts as a letter is a parameter; `int` accepts more texts than digits, which printed names never have.
