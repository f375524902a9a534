# Verification of the broker's core

A Dafny model of the Bazel build broker, with proofs. `dafny verify dfyconfig.toml` checks everything.

## What is modelled

**Admission.** A build asks for a slot and is queued behind three gates: a semaphore, a load gate with an
anti-stampede debit, and a stagger gate that keeps builds of overlapping targets apart. There are two layers.

* `Gates` and `AdmissionEngine` have the broker's form: waiters, timers, the engine and its gates are objects whose
  fields the methods update in place. Each method is proved to change the engine's abstract value (`View()`) as a
  function of the model says (`AdmissionModel`, `ScheduleSpec`). `Reaper` is the PID backstop on top of that engine.
* `AdmissionSystem` is the same engine under concurrency: a transition system with one step per section of code that
  runs under one lock. A scheduling pass holds the engine lock but takes each gate's lock separately, so it is six
  steps per admission, and slot releases, load samples, record collection, timer expiry, verdict receipt and the clock
  may fall between them. `QueueIndex`, `SlotSafety`, `Wakeup`, `Fifo`, `Spacing`, `Stampede` and `Verdicts` each prove
  that an invariant is kept by every step; `AdmissionTheorems` states what follows for every run from a fresh engine.
  `LoadSafety` adds the load that every admission was made on, `WaiterLaws` what polls, disconnections and
  collections make of one waiter, `HeadOfQueue` and `LateProbe` what a waiter at the head may expect and whom a late release hits; `LateRelease`
  and `Readmission` are runs on which a plausible claim fails. `ScheduleSpec` is a whole scheduling pass as a function,
  `ScheduleGates` says exactly whom it admits, `PassEffects` which retry timer and snapshot it leaves, and `ScheduleRuns` proves that it is one of the system's runs, so both
  layers speak of the same engine.

**Registry, events, discovery.** `RegistryModel` gives each mutation of the build map as a function, `RegistryLaws`
what all sequences of mutations keep, `Registry` the registry itself with records merged in place, `EventHub` the
bounded fan-out, `Replay` the client's fold over its events, `Session` a subscriber's view of a registry and its hub,
`Reconcile` one discovery pass.

**Build-event ingest.** `Metrics` extracts the metrics row, `BepModel` and `Bep` are the stream accumulator and its
restart loop, `BepLaws` what a watch persists and reports, as a function of what each epoch contained, and
`BepOutcomes` what that function says, field by field, in terms of the epoch's own lines. An epoch is what is read from
the file between two restarts.

**Disk cache and summary line.** `DiskCache` is the report and the opt-in prune, `Summary` the parser of the
"disk cache hit" line. `Sorting` and `Wrappers` are helpers.

Times are unbounded integers (nanoseconds), CPU load is a real number. Clock readings, liveness, load samples, scan
results, registry snapshots, protobuf printing, profile paths and the low-hit alert are parameters that may be anything.

## Where the code differs from what is said about it

* `internal/admission/gates.go:147-149` says the hold is what is left of the earliest overlap's window; the code keeps
  the largest remainder, that of the latest. `StaggerLaws.LaterOverlapProlongsTheHold` is an input where the two differ;
  they agree if and only if all blocking builds carry the same date (`HoldIsTheEarliestsExactlyWhenAllAgree`). That
  later arrivals cannot starve a waiter still holds for one at the head of the queue
  (`HeadOfQueue.OnlyTheSnapshotStillRefuses`).
* `internal/admission/gates.go:248` says a redundant `@//` becomes `//`; line 255 strips it altogether, so `@//x` and
  `//x` do not overlap (`Targets.PrefixedSpellingDoesNotOverlap`).
* `held` is not always the set of admitted ids. If an id is attached again between `engine.go:220` and `223`, its late
  gate release frees the new waiter's slot. `SlotSafety.SlotLostExactlyByLateRelease` proves that this is the only way
  to lose a slot, `LateRelease.LateReleaseAdmitsTooMany` gives a run with two admitted builds and one slot.
* The cache-warm window is kept per id: an id that is admitted again replaces its record, and an overlap with its
  earlier targets is then admitted at once (`Readmission.ReadmissionForgetsTheFirstTargets`).
* Pausing wins over draining: `engine.go:234` returns before 248, so nobody is denied while paused.
* `internal/registry/registry.go:219` says discovery re-adds a live build; a process whose PID an ended record has
  merges into that record and stays ended. A process seen shows as a build if and only if no ended record had its PID
  (`Reconcile.SightingShowsExactlyWithoutAnEnd` for one upsert, `SeenShowExactlyWithoutAnEnd` for a pass).
* An ended record can come back to life if a record keyed `pid-N` no longer carries process N
  (`RegistryLaws.OverwrittenRecordComesBackToLife`); that is the only way
  (`RegistryLaws.UpsertRespectsAllButTheOverwritten`).
* `internal/bep/tailer.go:48-49` says no state bleeds across rebuilds; `resetState` keeps `command` and `patterns`, and
  a build's first registry update carries the target patterns of earlier builds
  (`BepLaws.NewBuildIsFiledUnderOldPatterns` says exactly when).
* A count of 2^63 or more in the summary line is read modulo 2^64 (`Summary.ParseInvertsPrinting`).

## Model

| member | source | states |
|---|---|---|
| AdmissionTheorems.WaitersAreWhereTheirStateSays | internal/admission/engine.go:160-357 | in every reachable state the queue is strictly in order of creation, a queued waiter is in it and the index leads its id to that very waiter, an admitted one is in the index only, a done one is never in the index |
| AdmissionTheorems.NoSlotOverrunOrLeak | internal/admission/engine.go:209-277 | under every interleaving at most max ids are held, and every held id is admitted, being admitted, or has a release on its way to the semaphore |
| AdmissionTheorems.PoliteRunsHoldExactlyTheAdmitted | internal/admission/engine.go:205-226 | if no id is re-attached while its own release is in flight, every admitted id holds its slot, and once no release is in flight held equals the admitted ids |
| AdmissionTheorems.NoLostWakeup | internal/admission/engine.go:228-325 | whenever a waiter is queued and admissions are not paused, a build is admitted, a retry timer runs, some operation still owes a schedule call, or a pass is in progress |
| AdmissionTheorems.FirstComeFirstServed | internal/admission/engine.go:242-276 | admissions happen in order of creation over whole runs, and whoever still waits was created after everyone admitted |
| AdmissionTheorems.OverlappingAdmissionsAreSpaced | internal/admission/gates.go:144-150 | two admissions with overlapping targets are at least the stagger window apart unless the earlier one's id was admitted again in between, despite all collection of records |
| AdmissionTheorems.SampleHeadroomBoundsAdmissions | internal/admission/gates.go:79-126 | recentlyAdmitted never exceeds ceil((cpuHi - cpu) / 0.10) for the sample read at the latest admission since the last reset |
| AdmissionTheorems.VerdictsAreSingleShot | internal/admission/engine.go:73-76 | each waiter's channel is sent to at most once, and it is empty whenever a verdict is about to be sent, so the drop branch is never taken |
| AdmissionTheorems.AllowsNeverExceedAcquisitions | internal/admission/engine.go:133-158 | no waiter's ALLOW is returned twice, and the number of ALLOWs returned to callers of an id never exceeds the admissions made for it |
| AdmissionTheorems.RepollFindsTheBufferedAllow | internal/admission/engine.go:162-187 | a re-poll of an admitted id joins the admitted waiter and finds its ALLOW in the buffer unless it was returned already |
| AdmissionTheorems.RepollIsAnsweredWithoutASecondSlot | internal/admission/engine.go:137-191 | with nothing in between, the schedule call of that re-poll leaves the ALLOW to be received and admits nobody of the same id |
| AdmissionTheorems.StepKeepsInv | internal/admission/engine.go:160-393 | every lock-atomic step keeps the conjunction of all invariants |
| AdmissionTheorems.RunKeepsInv | internal/admission/engine.go:160-393 | every run keeps the conjunction of all invariants |
| QueueIndex.StepKeepsIndex | internal/admission/engine.go:160-357 | every step keeps queue and index consistent |
| QueueIndex.KeptIsStableFilter | internal/admission/engine.go:342-357 | collection keeps exactly the waiters that are not stale, in their order |
| QueueIndex.CollectionRemovesOnlyTheStale | internal/admission/engine.go:347-352 | deleting by id in the collection removes from the index exactly the stale waiters and never a newer one of the same id |
| QueueIndex.DenyKeepsIndex | internal/admission/engine.go:248-253 | deleting by id while draining removes the denied waiter and no other |
| SlotSafety.StepKeepsSlotInv | internal/admission/gates.go:42-61 | every step keeps the slot count and the ownership of held slots, and a slot found free stays free until the pass takes it |
| SlotSafety.StepOwners | internal/admission/engine.go:209-277 | a step changes who owns a slot only by clearing a released id or by taking a slot for the head |
| SlotSafety.SlotLostExactlyByLateRelease | internal/admission/engine.go:220-224 | an owner loses its slot in a step if and only if the step is a gate release of that id which arrives late |
| SlotSafety.PoliteStepKeepsCover | internal/admission/engine.go:162-226 | a step that does not re-attach an id under release keeps every owner's slot held |
| LateRelease.LateReleaseAdmitsTooMany | internal/admission/engine.go:205-226 | a run with one slot that ends with two admitted builds |
| Wakeup.StepKeepsAwake | internal/admission/engine.go:209-383 | every step that leaves a waiter queued leaves something behind that will look again |
| Fifo.StepKeepsFifo | internal/admission/engine.go:160-357 | every step keeps the admission log in ticket order and ahead of the queue |
| Spacing.StepKeepsSpacing | internal/admission/gates.go:168-245 | every step keeps overlapping admissions a window apart and the records of the latest ones for as long as they count |
| Stampede.StepKeepsRamp | internal/admission/engine.go:239-275 | every step keeps the debit within the headroom of the sample that was read |
| Stampede.RampBound | internal/admission/gates.go:112-126 | the headroom bounds the number of admissions by the ceiling of its tenths |
| Verdicts.StepKeepsVerdicts | internal/admission/engine.go:137-307 | every step keeps each channel single-shot and each ALLOW backed by an admission |
| ScheduleSpec.ScheduleAdmitsLongestPrefix | internal/admission/engine.go:231-277 | unpaused and undraining, schedule admits a prefix of the waiting waiters and changes exactly those, and leaves the queue empty or a head that a gate refuses, as things then stand and at a clock reading of this call |
| ScheduleGates.ScheduleAdmitsExactlyTheAccepted | internal/admission/engine.go:239-276 | unpaused and undraining, schedule admits exactly the longest prefix of the waiting waiters that the gates accept in turn, each with the slots, debits, records and snapshot entries of those before it in place and at the pass's own clock readings, and the next is not accepted |
| ScheduleGates.ScheduleSpacesTheAdmitted | internal/admission/engine.go:255-275 | of two overlapping waiters admitted by one call the second is recorded at least a window after the first |
| ScheduleGates.AcceptedIsSpaced | internal/admission/gates.go:181-209 | whoever the gates accept comes a window after every overlapping build that the same pass admitted before |
| ScheduleGates.PassAdmitsExactlyTheAccepted | internal/admission/engine.go:242-276 | from any point on the pass admits exactly the longest accepted prefix |
| LoadSafety.LoadedScheduleAdmitsNobody | internal/admission/gates.go:112-126 | while memory pressure is above its limit, or CPU load with a tenth for each debited admission at or above its own, a schedule call admits nobody and takes no slot |
| LoadSafety.EveryAdmissionHadRoom | internal/admission/gates.go:112-126 | over every run each admission was made on a sample stored before, with memory pressure within its limit and CPU load below its own even with the tenths reserved |
| LoadSafety.StepKeepsLoads | internal/admission/gates.go:106-126 | every step keeps that, for the admissions made and for the head past the load gate |
| PassEffects.ScheduleRetriesExactly | internal/admission/engine.go:255-325 | an unpaused schedule call leaves just the timer its refused head needs: none if the slots refuse, two seconds if the load does, the rest of the window if the targets do; the id's earlier timer is stopped and all others are untouched |
| PassEffects.PassExtends | internal/admission/engine.go:267-275 | a pass adds to its snapshot one entry for each waiter it admits, in order, with id, targets, pid and a date of the pass |
| ScheduleSpec.ScheduleDeniesAll | internal/admission/engine.go:248-254 | draining and unpaused, it denies every waiting waiter, empties the queue and the index of them, and leaves slots, records and timers alone |
| ScheduleSpec.PausedScheduleDoesNothing | internal/admission/engine.go:234-238 | paused, it changes nothing |
| ScheduleSpec.ScheduleSparesTheSettled | internal/admission/engine.go:242-247 | it touches only waiters that are waiting |
| ScheduleSpec.PassAdmitsLongestPrefix | internal/admission/engine.go:242-276 | the loop from any point on admits a prefix and ends at an empty queue or at a head that is refused at a reading of the pass |
| ScheduleSpec.PassDeniesAll | internal/admission/engine.go:242-254 | the draining loop from any point on denies all that wait |
| ScheduleRuns.ScheduleIsARun | internal/admission/engine.go:231-277 | a schedule call with nothing in between is a run of the concurrent system with the same end |
| ScheduleRuns.PassIsARun | internal/admission/engine.go:242-276 | the loop from any point on is a run of the concurrent system |
| StaggerLaws.RefusesExactlyWhenHeldBack | internal/admission/gates.go:168-214 | Try refuses if and only if some other overlapping record or snapshot build is less than a window old, and the hold lies in (0, window] |
| StaggerLaws.HoldIsTheLeastDelay | internal/admission/gates.go:181-213 | the hold is the least delay after which Try admits, if nothing new that overlaps appears |
| StaggerLaws.HoldIsTheLatestsRemainder | internal/admission/gates.go:181-191 | the hold is a blocking build's remainder if and only if no blocking build is dated later |
| StaggerLaws.HoldIsTheEarliestsExactlyWhenAllAgree | internal/admission/gates.go:147-149 | the hold is the remainder of the earliest overlap, as the comment says, if and only if all blocking builds carry the same date |
| StaggerLaws.LaterOverlapProlongsTheHold | internal/admission/gates.go:181-191 | builds of one target admitted at 1 and at 5 hold a third for 9 at time 6, the first alone for 5 |
| StaggerLaws.CollectionIsInvisible | internal/admission/gates.go:194-197 | deleting aged records, in Try and in the collector, changes no answer of any later call |
| HeadOfQueue.NobodyRecordedMeanwhile | internal/admission/engine.go:255-266 | while a waiter stays at the head of the queue no record is taken for any other id |
| HeadOfQueue.OnlyTheSnapshotStillRefuses | internal/admission/gates.go:147-150 | once the hold of a waiter that stays at the head has run out, the records no longer refuse it and only builds of the registry's snapshot can |
| Readmission.ReadmissionForgetsTheFirstTargets | internal/admission/gates.go:216-220 | a run on which an id is admitted again with other targets and a build overlapping its first ones is admitted within the window |
| Targets.PrefixedSpellingDoesNotOverlap | internal/admission/gates.go:250-262 | the spellings @//x and //x of one label normalise to disjoint sets |
| Targets.NormalisedAreWords | internal/admission/gates.go:250-262 | normalised names are never empty and contain no white space |
| Targets.FieldsOfText | internal/admission/gates.go:253-253 | words with any non-empty white space between them and any around them are split into exactly those words, in order |
| Targets.TextOfFields | internal/admission/gates.go:253-253 | conversely every text consists of its fields with such white space between and around, so nothing is lost or made up |
| Targets.UsualSeparators | internal/admission/gates.go:253-253 | blanks, tabs and line ends separate words, and no printable ASCII character does |
| Targets.NormalisedExactly | internal/admission/gates.go:250-262 | a name is a target of such a text if and only if it is one of its words without the repository prefix, or its prefixed form is one |
| Targets.NormalisedOfBoth | internal/admission/gates.go:250-262 | two requests written one after the other have the targets of both |
| StaggerLaws.BlocksExactly | internal/admission/gates.go:184-190 | a build blocks while it is less than a window old, not dated later, and some name is in both sets |
| Targets.CollectTargets | internal/admission/gates.go:250-262 | the nested loops collect exactly the normalised names of all words of all texts |
| Targets.ShareElement | internal/admission/gates.go:265-275 | true if and only if the sets have an element in common |
| Gates.Semaphore.Try | internal/admission/gates.go:42-49 | admits an id that is counted already, or any id while fewer than max are |
| Gates.Semaphore.Acquire | internal/admission/gates.go:51-55 | adds the id to the held ones |
| Gates.Semaphore.Release | internal/admission/gates.go:57-61 | removes the id from the held ones |
| Gates.TokenBucket.SetSample | internal/admission/gates.go:106-110 | stores the sample |
| Gates.TokenBucket.Try | internal/admission/gates.go:112-126 | admits if and only if neither CPU load plus a tenth per debited admission reaches cpuHi nor memory pressure exceeds ramMax, each unless its limit is off; else says two seconds |
| Gates.Stagger.Try | internal/admission/gates.go:168-214 | returns the hold of the model, admits when it is 0, and drops exactly the aged records |
| Gates.Stagger.WalkRecords | internal/admission/gates.go:193-203 | the loop over the records keeps the largest remainder of those that block, and deletes the aged ones |
| Gates.Stagger.WalkBuilds | internal/admission/gates.go:204-209 | the loop over the snapshot carries that on over its builds |
| Gates.Stagger.Acquire | internal/admission/gates.go:216-220 | records the id's normalised targets with the time |
| Gates.Stagger.Collect | internal/admission/gates.go:235-242 | deletes exactly the records that are a window old |
| AdmissionEngine.Engine.constructor | internal/admission/engine.go:107-129 | a new engine is empty, with at least one slot |
| AdmissionEngine.Engine.AttachEntry | internal/admission/engine.go:163-187 | files a new waiter at the end, or refreshes the request fields of the one the index has |
| AdmissionEngine.Engine.AttachRequest | internal/admission/engine.go:162-191 | attach, then schedule |
| AdmissionEngine.Engine.Detach | internal/admission/engine.go:196-203 | marks the waiter disconnected since now and releases nothing |
| AdmissionEngine.Engine.Admit | internal/admission/engine.go:137-158 | with nothing in between, returns the buffered verdict or QUEUE and leaves the waiter detached |
| AdmissionEngine.Engine.Poll | internal/admission/engine.go:142-152 | takes the buffered verdict out, if there is one |
| AdmissionEngine.Engine.ReleaseEntry | internal/admission/engine.go:210-220 | the waiter is done and out of the index, its retry timer stopped |
| AdmissionEngine.Engine.ReleaseGates | internal/admission/engine.go:222-224 | the id's slot is free |
| AdmissionEngine.Engine.Release | internal/admission/engine.go:209-226 | entry, gates, then schedule |
| AdmissionEngine.Engine.Schedule | internal/admission/engine.go:231-277 | the loop leaves engine and clock as the pure specification of schedule says |
| AdmissionEngine.Engine.TryAllGates | internal/admission/engine.go:279-291 | asks the gates in order, up to the first that refuses, and returns its retry delay |
| AdmissionEngine.Engine.AcquireAllGates | internal/admission/engine.go:293-297 | takes a slot and a stagger record for the request |
| AdmissionEngine.Waiter.Deliver | internal/admission/engine.go:302-307 | sends into the one-slot buffer, or drops the verdict when it is full |
| AdmissionEngine.Engine.AdmitHead | internal/admission/engine.go:262-266 | gates taken, ALLOW buffered, one more debit, head popped |
| AdmissionEngine.Engine.SendAllow | internal/admission/engine.go:263-266 | state, debit, ALLOW and queue, behind the gates |
| AdmissionEngine.Engine.DenyHead | internal/admission/engine.go:249-253 | DENY buffered, waiter done, popped and out of the index |
| AdmissionEngine.Engine.ArmRetryTimer | internal/admission/engine.go:311-325 | for a positive delay stops the id's timer and starts a new one |
| AdmissionEngine.Engine.Expire | internal/admission/engine.go:319-319 | a timer that fires is no longer live |
| AdmissionEngine.Engine.ForgetTimer | internal/admission/engine.go:320-322 | its callback removes the id from the index of timers |
| AdmissionEngine.Engine.CollectQueue | internal/admission/engine.go:342-357 | the compaction in place keeps what the stable filter keeps, marks the others done and removes them from the index |
| AdmissionEngine.Engine.SetPaused | internal/admission/engine.go:360-365 | sets the policy, then schedules |
| AdmissionEngine.Engine.SetDraining | internal/admission/engine.go:369-374 | sets the policy, then schedules |
| AdmissionEngine.Engine.Resume | internal/admission/engine.go:377-383 | clears both policies, then schedules |
| AdmissionEngine.Engine.OnLoadSample | internal/admission/engine.go:387-393 | stores the sample, resets the debit, then schedules |
| WaiterLaws.RequestIsTheLatestGiven | internal/admission/engine.go:172-184 | over any run a waiter's pid, targets and worktree are each the latest that a poll joining it gave, or the first if none did |
| WaiterLaws.DisconnectedIsCollectedExactly | internal/admission/engine.go:342-357 | in any run, a waiter that disconnects, and then no second time, and still waits at a collection is removed if and only if no poll has joined it since and the grace period is over |
| WaiterLaws.ConnectedIsNeverCollected | internal/admission/engine.go:162-187 | in any run, a waiter polled for that has not disconnected since survives every collection |
| WaiterLaws.StepOnWaiter | internal/admission/engine.go:162-204 | a step changes a waiter's request and presence only by a poll that joins it or by its own disconnection |
| Reaper.ListHeld | internal/admission/run.go:100-107 | lists each admitted waiter with a known pid once |
| Reaper.ReapDeadPids | internal/admission/run.go:93-114 | with nothing else running, of the waiters admitted when it began exactly those with a known and dead pid are released |
| LateProbe.ReleaseAfterProbeHits | internal/admission/run.go:107-113 | with anything in between, the release after a probe reaches the very waiter that was listed if and only if its id was not released meanwhile, and otherwise nobody or a waiter created since |
| RegistryLaws.EndedBuildsStayEnded | internal/registry/registry.go:92-381 | over any sequence of register, deregister, upsert and reap, a record that has ended keeps its state, exit code and end time, given that keys pid-N carry process N |
| RegistryLaws.UpsertRespectsAllButTheOverwritten | internal/registry/registry.go:278-363 | an upsert keeps every record's source and start, an ended record's end and a registered one's targets, except for the record it overwrites, which it makes a new live one |
| RegistryLaws.OverwrittenRecordComesBackToLife | internal/registry/registry.go:297-308 | from an empty registry two upserts lead to an ended record under pid-5 that is replaced by a running one |
| RegistryLaws.NothingOverwrittenWhenPidKeyed | internal/registry/registry.go:286-308 | nothing is overwritten while keys pid-N carry process N |
| RegistryLaws.StepKeepsPidKeyed | internal/registry/registry.go:62-387 | every mutation keeps keys pid-N carrying process N, if callers name processes properly |
| RegistryLaws.UpsertKeepsPidsUnique | internal/registry/registry.go:286-324 | an upsert never makes two records share a process, whichever record it picks |
| RegistryLaws.RegisterKeepsPidsUniqueExactly | internal/registry/registry.go:84-86 | a registration keeps processes unique if and only if no other record has its process |
| RegistryLaws.StepKeepsKeys | internal/registry/registry.go:62-387 | every record stays filed under its own id |
| RegistryLaws.HydrationLeavesNothingRunning | internal/registry/registry.go:206-232 | every record loaded at boot has ended, and no other record is touched |
| RegistryLaws.HydrationLoadsEveryRow | internal/registry/registry.go:216-227 | each stored row is loaded, unchanged if it had ended before |
| RegistryLaws.RevivedExactly | internal/registry/registry.go:216-227 | a row that had ended is loaded as it is, any other is marked gone and dated if it was not |
| RegistryLaws.DeregisterEndsByExitCode | internal/registry/registry.go:117-134 | a known live build is finished for exit code 0 and failed for any other, with code and date recorded; every other field and record, and any other call, changes nothing |
| RegistryLaws.TerminalExactly | internal/build/build.go:35-41 | the end states are finished, failed, killed and gone |
| RegistryLaws.RegisterMerges | internal/registry/registry.go:62-98 | a registration names the worktree, takes targets and pid if given, counts as registered unless told otherwise, and runs unless it has ended; nothing else changes |
| RegistryLaws.UpsertMerges | internal/registry/registry.go:309-356 | an upsert takes each field it is given and keeps each it is not, a registered build's targets always; a state other than running is taken with code and date unless the build has ended; source, start and all other records stay |
| RegistryLaws.UpsertIsIdempotent | internal/registry/registry.go:278-363 | sending the same upsert again picks the same record and changes nothing |
| RegistryLaws.ReapEndsTheUnseen | internal/registry/registry.go:368-381 | a reap marks gone, as of now, exactly the live discovered builds whose known process was not seen |
| RegistryModel.PidKeyIsInjective | internal/registry/registry.go:304-306 | distinct processes have distinct pid keys |
| Registry.Registry.Register | internal/registry/registry.go:62-104 | merges in place as the model says and broadcasts the stored record; errors change and send nothing |
| Registry.Registry.Deregister | internal/registry/registry.go:109-141 | a known live build is finished for exit code 0 and failed otherwise, with code and date, and is broadcast; all else stays, and any other call is a no-op |
| Registry.Registry.FindPid | internal/registry/registry.go:287-292 | finds some record of the process if there is one |
| Registry.Registry.Pick | internal/registry/registry.go:285-308 | picks by process, then by id, else inserts a discovered record |
| Registry.Registry.Amend | internal/registry/registry.go:309-356 | merges the upsert's fields into the picked record in place |
| Registry.Registry.Upsert | internal/registry/registry.go:278-363 | picks, merges and broadcasts; an upsert without id and pid changes and sends nothing |
| Registry.Registry.Sweep | internal/registry/registry.go:369-381 | marks exactly the vanished discovered builds gone and lists each once |
| Registry.Registry.Reap | internal/registry/registry.go:368-387 | marks them and broadcasts one event for each |
| Registry.Registry.HydrateFromStore | internal/registry/registry.go:214-229 | loads the rows one after the other, ended |
| Registry.Registry.SnapshotApi | internal/registry/registry.go:161-173 | lists every record once, newest second first, with the record's own fields, its age in whole milliseconds running to its end if it has one, else to now |
| Registry.Registry.Broadcast | internal/registry/registry.go:244-256 | sends an event that is not about a build and changes no record |
| EventHub.Hub.Subscribe | internal/registry/hub.go:37-52 | a new subscriber has seen nothing and starts at this point of the history |
| EventHub.Hub.Broadcast | internal/registry/hub.go:56-67 | appends the event to every buffer with room and drops exactly the full ones; every subscriber's received and buffered events stay a gapless stretch of the history from its subscription, up to date while it is subscribed |
| EventHub.Hub.Drop | internal/registry/hub.go:77-86 | removes and closes a subscriber at most once |
| EventHub.Hub.Unsubscribe | internal/registry/hub.go:44-50 | leaves the subscriber closed exactly once, however often it is called |
| EventHub.Hub.Take | internal/registry/hub.go:29-29 | hands out the buffered events in order, without loss |
| EventHub.Subscriber.TrySend | internal/registry/hub.go:60-65 | sends without blocking, only while the channel is open and its 64 places are not full |
| EventHub.Subscriber.CloseChannel | internal/registry/hub.go:82-85 | closes only an open channel |
| Replay.Client.Apply | internal/cli/watch.go:17-31 | the loops that empty and refill the client's table compute the fold's step |
| Replay.ReplayRefinesRegistry | internal/cli/watch.go:14-31 | folding every event of any serial run of mutations, other events in between, keeps the client in agreement with the registry, ages aside |
| Replay.ToApiShows | internal/build/build.go:79-110 | the wire form carries the record's own fields and its age |
| Replay.AgreementShows | internal/cli/watch.go:14-31 | a client in agreement shows each registry key, and no other, with its record's own id, state, exit code, pid, source, targets, command, worktree, start, end, ratio and profile, and a dated build with its age whenever one looks |
| Replay.CaughtUpSessionShowsTheRegistry | internal/httpapi/events.go:42-74 | a client that folds the snapshot and all events of the mutations since shows the registry as it is |
| Session.Open | internal/httpapi/events.go:42-55 | takes the snapshot, then subscribes at this point of the registry's past |
| Session.DrainedSubscriberShowsTheRegistry | internal/httpapi/events.go:42-74 | a subscriber of a registry's hub that is still subscribed and has taken out all its events shows the registry as it is now, key by key and field by field, if it subscribed at the moment of its snapshot |
| Session.SubscriberMissesNothing | internal/registry/hub.go:54-67 | what any subscriber has received and buffered is a prefix of what the registry's mutations have sent since it subscribed, and all of it while it is subscribed |
| Replay.SnapshotAgrees | internal/cli/watch.go:19-25 | a snapshot makes the client agree, whatever it showed before |
| Replay.MomentKeepsAgreement | internal/registry/registry.go:258-271 | folding what one mutation announces takes the client from the old registry to the new one |
| Replay.AnnouncementsAreCurrent | internal/registry/registry.go:99-102 | what a mutation announces is what the registry now holds, and whatever changed is announced |
| Reconcile.ReconcileOnce | internal/discovery/reconcile.go:87-125 | with nothing else running, after a pass every process seen has a record, live exactly if no ended one had its pid; no discovered build is running whose process was not seen; every process last seen with a pid is shown where it runs; new records are running discovered ones; every earlier record is reconciled; a failed scan changes nothing |
| Reconcile.RegisteredBuildsStand | internal/discovery/reconcile.go:121-123 | a pass leaves the state, source, targets and end of registered builds alone |
| Reconcile.SightingKeepsMerging | internal/discovery/reconcile.go:95-119 | each process merged keeps earlier records standing and gives the process a record |
| Reconcile.SightingShowsExactlyWithoutAnEnd | internal/registry/registry.go:286-293 | merging a live process makes it show as a build if and only if no ended record has its pid |
| Reconcile.SeenShowExactlyWithoutAnEnd | internal/discovery/reconcile.go:95-123 | after a whole pass every process seen shows as a build if and only if no ended record had its pid |
| Reconcile.SightingPlaces | internal/discovery/reconcile.go:104-116 | merging a process gives it a record with its executable, directory, worktree and git directory as far as known, and changes no record of another process |
| Reconcile.ReapLeavesOnlyTheSeen | internal/registry/registry.go:368-381 | whatever ran before it, the reap changes exactly the vanished builds and leaves none running whose process was not seen |
| BepLaws.WatchPersistsEveryYieldOnce | internal/bep/tailer.go:50-81 | over any epochs and a final cancellation the rows persisted are, alerts aside, one epoch's yield after the other, each a function of that epoch's lines alone |
| BepLaws.YieldsExactlyWhen | internal/bep/dispatch.go:201-220 | an epoch yields at most one row, never one without an id, and one if and only if an id is current at a last message or at the epoch's end |
| BepLaws.OneStartOneRow | internal/bep/dispatch.go:102-118 | an epoch whose only start carries an id yields exactly one row, with that id |
| BepLaws.EpochIsolation | internal/bep/dispatch.go:72-156 | after any lines, row, raw metrics, binding and finalization of a reset stream depend on those lines alone, whatever went before |
| BepLaws.EveryRowEndsItsBuild | internal/bep/dispatch.go:222-248 | the registry is told of an end once for each persisted row, in order, with its exit code, ratio, outcome, end date and profile URL |
| BepLaws.NewBuildIsFiledUnderOldPatterns | internal/bep/dispatch.go:72-77 | a build's first registry update carries the last patterns of earlier epochs; it is free of them if and only if no earlier epoch had any |
| BepLaws.RestartsKeepPatterns | internal/bep/dispatch.go:144-150 | the patterns left after any restarts are the last ones of any epoch |
| BepOutcomes.WatchTellsEveryOutcome | internal/bep/dispatch.go:132-136 | of every build a watch persists, row and registry call tell its own part of the stream: its id, the code of the last finish event, success if and only if that is 0, failed if and only if it is another, finished without one, and the test counts |
| BepOutcomes.RowTellsTheOutcome | internal/bep/dispatch.go:132-136 | the row carries the code of the last finish event and is successful if and only if that is 0 |
| BepOutcomes.RowCountsTheTests | internal/bep/dispatch.go:120-124 | testsTotal counts the test results among the lines, testsFailed those neither passed nor flaky |
| BepOutcomes.RowTellsTheDates | internal/bep/dispatch.go:106-141 | start and finish are the last ones given, a timestamp before the older field, 0 without any |
| BepOutcomes.RowTellsThePlace | internal/bep/dispatch.go:111-117 | the worktree is the last working directory given, the watch's own without any, and the profile path is derived from it |
| BepOutcomes.RowTellsTheSummary | internal/metrics/metrics.go:111-161 | action and runner counts are those of the last report with a summary, 0 without one |
| BepOutcomes.RowTellsTheTiming | internal/metrics/metrics.go:163-168 | timing is that of the last report that has one |
| BepOutcomes.RowTellsTheSizes | internal/metrics/metrics.go:169-177 | targets, packages and heap are each those of the last report that has them |
| BepOutcomes.RawIsTheLastReports | internal/bep/dispatch.go:126-130 | the raw text is that of the last report that could be printed |
| BepOutcomes.UnknownBuildIsStubbed | internal/bep/dispatch.go:176-193 | a build the registry does not know is first sent as a running, discovered one with its command, in its worktree, as of now |
| BepOutcomes.StartFilesItsCommand | internal/bep/dispatch.go:158-197 | a start ends by filing its build under its command and the patterns known by then |
| BepOutcomes.LatePatternsAreFiled | internal/bep/dispatch.go:144-150 | patterns that come for a build under way are filed at once, with its command |
| BepOutcomes.EveryAlertIsJudged | internal/bep/dispatch.go:207-214 | over a whole watch each row's alert is judged once, from its own hit ratio, against exactly the rows persisted before it; none without a ratio |
| Bep.Stream.ResetState | internal/bep/dispatch.go:72-77 | a new row, unbound and not finalized; command and patterns stay |
| Bep.Stream.Dispatch | internal/bep/dispatch.go:96-156 | folds one event as the model says |
| Bep.Stream.TakePayload | internal/bep/dispatch.go:101-142 | the type switch folds one payload as the model says, which BepOutcomes spells out |
| Bep.Stream.BindBuild | internal/bep/dispatch.go:176-197 | binds once, sends a stub for an unknown build, then command and targets |
| Bep.Stream.PushCommandTargets | internal/bep/dispatch.go:160-172 | sends command and targets of a bound build, if there are any |
| Bep.Stream.Finalize | internal/bep/dispatch.go:201-248 | persists and reports once per build, never without an id |
| Bep.Stream.RunOneTail | internal/bep/tailer.go:123-145 | consumes the lines in order |
| Bep.WatchFile | internal/bep/tailer.go:50-81 | finalizes and resets at each restart, finalizes at cancellation |
| Metrics.MetricsRow.CountRunners | internal/metrics/metrics.go:115-149 | the loop sums the runner counts by kind |
| Metrics.MetricsRow.ExtractMetrics | internal/metrics/metrics.go:105-178 | fills the row from the sub-messages that are present |
| Metrics.RunnersAreAccountedFor | internal/metrics/metrics.go:6-14 | the total fallback is disk hits plus executed plus internal, and remote hits are among the executed |
| Metrics.RatioIsAProportion | internal/metrics/metrics.go:93-101 | times hits plus executed, the ratio is the hits; it lies between 0 and 1, and there is none if and only if nothing was cacheable |
| Metrics.ExtractionIsIdempotent | internal/metrics/metrics.go:103-104 | extracting the same message again changes nothing |
| DiskCache.EvictsShortestSufficientPrefix | internal/bep/diskcache.go:133-145 | the entries removed are the shortest oldest-first prefix of the eligible ones that frees enough, or all of them |
| DiskCache.EvictionIsSafeAndThorough | internal/bep/diskcache.go:126-146 | nothing newer than the cutoff goes, nothing goes before something older that could have gone, and above the target only fresh or unremovable entries are left |
| DiskCache.TargetIsTheFraction | internal/bep/diskcache.go:130-130 | the target is the limit times the hysteresis, in whole bytes rounded down |
| DiskCache.PruneReachesTheFraction | internal/bep/diskcache.go:126-146 | a prune removes only files that are old enough and removable, and leaves more than the fraction of the limit only if nothing else could go |
| DiskCache.SurvivorsSum | internal/bep/diskcache.go:118-120 | the size left is the total less what was freed, however the rest is listed |
| DiskCache.Reporter.Scan | internal/bep/diskcache.go:45-72 | sums sizes, counts files, finds the oldest date and collects entries |
| DiskCache.Reporter.Prune | internal/bep/diskcache.go:129-150 | sorts in place, removes the evicted entries and returns the sum of their sizes |
| DiskCache.Reporter.Run | internal/bep/diskcache.go:96-124 | prunes exactly when enabled, over the limit and no build is active, down to the fraction of the limit unless only fresh or unremovable files are left, and reports the sum of the survivors' sizes |
| DiskCache.SortByAge | internal/bep/diskcache.go:131-131 | rearranges the entries oldest first |
| Summary.ParseSummaryDiskHits | internal/metrics/metrics.go:184-204 | the loops compute the specified parse on 64-bit integers that wrap |
| Summary.ParseInvertsPrinting | internal/metrics/metrics.go:180-204 | it reads back the decimal n before spaces, the phrase and anything, after any prefix without the phrase that does not end in a digit, if and only if n is below 2^63 |
| Summary.ParseReadsTheDigits | internal/metrics/metrics.go:189-203 | it reads any digit string in that place, leading zeros too, as its value on wrapping integers |
| Summary.ParsesExactlyAfterADigit | internal/metrics/metrics.go:185-198 | it returns a number if and only if a digit stands before the first phrase with only spaces in between |

## Left out

- HTTP and WebSocket servers and clients, cobra commands, configuration, logging and rendering: input and output only.
- The SQLite store: rows persisted are a list; that persisting and broadcasting follow a mutation after the lock is
  released is not modelled, so what is proved of clients holds for mutations that do not overtake each other.
- Process discovery, worktree resolution, liveness, load probes and the registry's snapshot of active builds: foreign
  calls, supplied as arbitrary inputs.
- internal/discovery/kill.go and internal/bep/manager.go: decision trees around system calls, and lifetimes of tailers.
- The tail library and the stat supervisor: a restart may happen after any line.
- Status, counts, alert thresholds and backoff: easy members only.
- RFC 3339 text of times on the wire (only the snapshot's order is by whole seconds), sequence numbers of events, and a
  nil hub, store or sink.
- Event and log text, RunnerCount protobuf widths, and overflow of sums of sizes and counts beyond 64 bits.
- AdmissionEngine.Engine.Admit: a call with nothing in between; how polls interleave is in AdmissionSystem, where a
  verdict may be received by any holder of its waiter, which allows more than the code does.
- AdmissionEngine.Engine.Schedule: the registry snapshot's targets are a set; the source has a list without repetition.
- AdmissionSystem: rounding of the load sum is not modelled, CPU values are reals.
- Registry.Registry.Register: a record is one object holding one value, so that readers outside the lock never see it
  half updated is not expressed.
- RegistryLaws.EndedBuildsStayEnded: loading rows at boot is not among the operations; it may replace a record.
- Reaper.ReapDeadPids: nothing else runs between the listing and the last release; who is hit when something does is
  in LateProbe.
- Reconcile.ReconcileOnce: no other mutation runs between the upserts and the reap; each of its mutations is an operation
  of RegistryLaws, whose runs interleave freely, and ReapLeavesOnlyTheSeen holds whatever ran before.
- DiskCache.Reporter.Scan: a file dated at the zero time counts like any other; the walk itself never fails.
- DiskCache.Reporter.Run: files do not appear or vanish between the scan and the prune except by the prune itself.
- Summary.ParseSummaryDiskHits: lines are characters, where the code indexes bytes of UTF-8.
