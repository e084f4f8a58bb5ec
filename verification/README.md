# Shellius: verified models of its jobs, agents and guards

Shellius gives people short-lived access to servers and watches over those servers. Much of it is
small concurrent protocols over rows, Redis keys, host files and a clock, and this project models
them as steps over explicit state and proves what every run keeps.

Each module follows one source file or one component. Where the source runs concurrently, the
model is a machine: a `datatype` for the state, an `Event` for one database access, Redis command,
host write, clock advance, failure or crash, `Apply` for one event and `Run` for a sequence of
events. An interleaving of any number of processes is then simply a sequence of events, and a
statement about `Run(s, es)` for all `es` is a statement about every interleaving. History that the
source does not keep (what was posted, which rows were late) is in fields marked as history in
their comments. Beside the machine stands, where the source updates state in place, a class whose
methods do what the source's functions do and are proved equal to the machine.

| module | what it models |
|---|---|
| `CohortOrder` | the bucket order of the fleet, cohort sizes and the cut of a rollout step |
| `CollectorRollout`, `RolloutSafety`, `RolloutJob` | the staged collector rollout, one database access per step; its safety; `advanceOrg` in imperative form |
| `RolloutCohorts`, `RolloutSteps`, `LoweredCanary` | its cohorts against a fixed fleet: prefixes in every run, the direct definition at every recorded step, and a run that shows what that takes |
| `RolloutInstances` | several instances running the rollout under its lock, refined by the machine with one pass |
| `RedisLock` | `SET NX PX` ... `DEL` without an owner token, in the copies that fail closed and the one that fails open |
| `DigestSchedule`, `PostureDigest`, `AuditDigest` | when a digest is due; the watermark of a posture rule among several instances; which audit records a sequence of digests mails |
| `SshdConfig` | the awk program that writes the Shellius block into `sshd_config` and the sed range that removes it |
| `JitLease`, `JitOverlap` | accounts, sudoers drop-ins and leases on a host: apply and reap; the two interleaved write by write |
| `OneTimeLink` | install tokens and their single use |
| `ServerOnboarding` | import jobs: workers, retries, and the completion check they all make |
| `ChatNotify` | delivery of one chat message with failing writes and soft retries |
| `BulkInstall` | the worker pool of a bulk install |
| `RateLimiter` | the fixed-window limiter on `INCR` and `EXPIRE` |
| `SessionCleanup` | pruning of recordings across the object store and the database |
| `CustomerScope` | scope resolution, Prisma filters as data with a meaning, guards |
| `EscapeHtml` | the five-pass escaper |
| `Numbers`, `Wrappers` | what several models share |

## Where the code and its comments part

The models follow the code. Where a comment promises more, the exact condition is proved.

- A rollout step does not always reach the first `cohortSize(fleet, percent)` hosts: hosts that
  rolled back are still candidates, are counted twice and take places in the cut
  (`CohortOrder.CutIsDirect`, `CohortOrder.RolledBackHostTakesAPlace`). Nor does it when more hosts
  have been offered than the step covers, which takes a pass that dies and a canary that is lowered
  (`LoweredCanary.LoweredCanaryOvershoots`). While the canary stands,
  the first is the only way to miss it (`RolloutSteps.EveryStepIsDirect`). The cohorts are prefixes of the fixed
  order in any case.
- Digest windows are contiguous unless a window reaches back more than 31 days or an edit restarts
  the watermark (`PostureDigest.DigestWindows`).
- The locks exclude each other only while no section and no `DEL` outlives its TTL: a late `DEL`
  removes somebody else's key (`RedisLock.LateDelBreaksExclusion`).
- An audit digest moves its watermark past the rows beyond its row limit, and past rows that
  commit later than the read lag (`AuditDigest.EveryRecordOnce`).
- A credential takes one attempt more than the limit each time its worker is run again with the
  attempts used up (`ServerOnboarding.AttemptsAreBounded`). A final write that fails, or a worker
  that dies for good before it, strands an import job (`ServerOnboarding.StrandedIff`), a settled job
  stays open until the next boot when its last worker dies on the way to close it
  (`ServerOnboarding.CheckGoesMissingIff`, `ServerOnboarding.BootCloses`), and a completion check that fails inside the `try` makes a finished row pending again
  (`ServerOnboarding.FailedCountReopensIff`).
- A drop-in and its lease are written and removed one after the other, and failures go unseen
  (`JitLease.ApplyKeepsMatchIff`, `JitLease.ReapKeepsMatchIff`). A login that overlaps a pass of the
  reaper leaves a drop-in without a lease, or a lease without its drop-in, exactly when the pass
  removes one of the login's two files and not the other (`JitOverlap.OverlapKeepsMatchIff`); some
  schedule does so exactly when the manifest has `sudo` and its user is due as the pass begins
  (`JitOverlap.EveryScheduleHarmlessIff`).
- A chat message is posted once more each time its job is put back with the message posted and its
  row not saying so, as after a death right behind the post (`ChatNotify.AtMostOnePost`,
  `ChatNotify.RerunPostsAgainIff`).
- A link is single-use for claims that reach Redis before its expiry; a request that was verified
  in time and arrives later is let through once more (`OneTimeLink.ClaimedAgainIff`).
- Two limiter windows side by side admit up to `2 * max - 1` requests, so more than `max` unless that
  is one (`RateLimiter.WindowHoldsQuotaIff`); and a used-up quota never comes back once the `EXPIRE`
  is lost, and only then (`RateLimiter.ComesBackIff`).

## Model

| member | source | states |
|---|---|---|
| CohortOrder.CohortSizeIsLeast | backend/src/services/collectorUpdateService.js:91-96 | a cohort is the least number of hosts that makes up at least the percentage, for every total and percentage |
| CohortOrder.CohortSizeMonotone | backend/src/services/collectorUpdateService.js:91-96 | a larger percentage never covers fewer hosts |
| CohortOrder.CohortSizeGrowth | backend/src/services/collectorUpdateService.js:91-96 | k hosts more enlarge a cohort by at most k |
| CohortOrder.CountAboveMonotone | backend/src/jobs/collectorRollout.js:104-106 | moving up to a listed percentage uses up at least one of the percentages above |
| CohortOrder.NextPercentIsLeast | backend/src/jobs/collectorRollout.js:104-106 | the next step is the least listed percentage above, and there is none exactly from 100 on |
| CohortOrder.SortOrdered | backend/src/jobs/collectorRollout.js:246-248 | the sorted fleet is in bucket order |
| CohortOrder.SortPermutes | backend/src/jobs/collectorRollout.js:246-248 | sorting neither loses nor adds a host |
| CohortOrder.SortRestrict | backend/src/jobs/collectorRollout.js:246-248 | sorting commutes with taking any hosts away, so a host's place does not depend on who else is listed |
| CohortOrder.SortStable | backend/src/jobs/collectorRollout.js:246-248 | hosts that share a bucket keep the order they came in |
| CohortOrder.OrderedView | backend/src/jobs/collectorRollout.js:218-248 | the sorted candidates are the already attempted ones, then the untouched rest of the fleet in its fixed order |
| CohortOrder.CutExtendsPrefix | backend/src/jobs/collectorRollout.js:246-274 | after any part of the offer loop the attempted hosts are again a prefix of the whole fleet, never beyond the direct cohort; the full cut reaches max(a, size(n + k) - k) |
| CohortOrder.StepReaches | backend/src/jobs/collectorRollout.js:246-274 | how far a whole step reaches, with k hosts counted twice |
| CohortOrder.CutIsDirect | backend/src/jobs/collectorRollout.js:244-251 | the incremental cut equals the first `cohortSize` hosts of the fleet if and only if no more than these had been attempted, and they all had or the doubly counted hosts enlarge the cohort in full |
| CohortOrder.CutIsDirectWithoutRollbacks | backend/src/jobs/collectorRollout.js:244-251 | when no attempted host is still a candidate, and at 100 percent, it does if and only if no more than the cohort had been attempted |
| CohortOrder.RolledBackHostTakesAPlace | backend/src/jobs/collectorRollout.js:244-251 | a fleet of three, seen as the code sees it, where the step to 50 percent offers to nobody new and leaves the attempted hosts short of the first two |
| CollectorRollout.StepMayFollow | backend/src/jobs/collectorRollout.js:213-234 | a step the gate, the dwell and the percent list allow is one that the paced history allows |
| CollectorRollout.SaveKeepsInv | backend/src/jobs/collectorRollout.js:276-279 | writing a step's percentage keeps the tables' promises and extends the paced history |
| CollectorRollout.CloseKeepsInv | backend/src/jobs/collectorRollout.js:90-101 | closing a rollout keeps them: nothing offered is left in an ended rollout |
| CollectorRollout.OfferKeepsInv | backend/src/jobs/collectorRollout.js:253-274 | so does every single offer of the cohort loop, with anything else between two of them |
| CollectorRollout.ApplyKeepsInv | backend/src/jobs/collectorRollout.js:113-283 | every event keeps the invariant: one rolling rollout, offers only in it, paced steps matching the row |
| CollectorRollout.RunKeepsInv | backend/src/jobs/collectorRollout.js:113-283 | every run does, including setting and version changes, reports, deletions and crashes between any two accesses |
| RolloutSafety.Finality | backend/src/jobs/collectorRollout.js:90-164 | a rollout that has left `rolling` never changes again, gains no attempt and has none offered, over every further run; at most one rollout rolls |
| RolloutSafety.ExitSettles | backend/src/jobs/collectorRollout.js:125-242 | whichever of the exits is taken, by the job alone, it has its reason, and exactly the outstanding offers of that rollout are withdrawn with it |
| RolloutSafety.OffersOnlyOnEvidence | backend/src/jobs/collectorRollout.js:188-274 | an attempt becomes `offered` only as a new row of the rolling rollout, by a pass that found nothing pending, the failure gate not tripped and the dwell over |
| RolloutSafety.AttemptsOnlyFromOffers | backend/src/jobs/collectorRollout.js:253-266 | an attempt row is created only by the job, in its offer loop, for the host whose turn it is, and as the loop writes it |
| RolloutSafety.JudgedInThisRun | backend/src/jobs/collectorRollout.js:186-215 | what a widening pass acts on was the true state of the database at an earlier moment of the same pass |
| RolloutSafety.PaceBounds | backend/src/jobs/collectorRollout.js:104-106 | paced steps climb strictly, lie a dwell apart each, and number at most one more than the percent list |
| RolloutSafety.RolloutPace | backend/src/jobs/collectorRollout.js:213-279 | in every run the recorded steps of every rollout climb strictly, lie a dwell apart each and are bounded in number, and its row shows the last of them |
| RolloutSafety.GateIsRate | backend/src/jobs/collectorRollout.js:192 | the failure gate as the source writes it: two failures at least, and a failure rate above 0.2 |
| RolloutSafety.HealthCountsAll | backend/src/services/collectorUpdateService.js:253-265 | every attempt of a rollout is judged, pending or withdrawn, and counted once; rolled back and silent hosts both count as failed |
| RolloutSafety.TrippedGateHalts | backend/src/jobs/collectorRollout.js:188-206 | a pass that judges a tripped gate halts the rollout with its next access, whatever is pending, and leaves nothing offered |
| RolloutSafety.ReportIsLastWord | backend/src/services/collectorUpdateService.js:187-242 | from a report on, over every run up to the next one of that host, a host on the target is verified, one that went back is rolled back, and one that has been heard of is never failed for its silence |
| RolloutCohorts.OfferGrows | backend/src/jobs/collectorRollout.js:254-267 | each single offer extends the prefix of attempted hosts |
| RolloutCohorts.EventKeepsCohort | backend/src/jobs/collectorRollout.js:217-274 | no event makes the attempted hosts anything but a prefix, and it never shrinks |
| RolloutCohorts.CohortRefinement | backend/src/jobs/collectorRollout.js:217-274 | against a fixed fleet, in every run, whatever the settings do, the attempted hosts are a prefix of the fleet in stable bucket order, within the largest cohort cut so far |
| RolloutCohorts.RecordedStepCoversCohort | backend/src/jobs/collectorRollout.js:244-279 | when a step is recorded its whole cut has been attempted; that is the direct definition if and only if no more had been attempted, and they all had or the doubly counted hosts enlarge the cohort in full |
| RolloutSteps.RunKeepsReach | backend/src/jobs/collectorRollout.js:234-251 | while the canary stands, no cohort is ever cut beyond the step after the recorded one |
| RolloutSteps.EveryStepIsDirect | backend/src/jobs/collectorRollout.js:217-279 | in every run from an empty table against a fixed fleet in which the canary stands: at every recorded step no more than its cohort had been attempted, and the attempted hosts are exactly the first `cohortSize` of its percentage if and only if they all had been or the doubly counted ones enlarge the cohort in full - so whenever there are none, and always at 100 percent |
| RolloutSteps.CohortSandwich | backend/src/jobs/collectorRollout.js:217-279 | at every moment of every run that shows no host twice the attempted hosts are a prefix that covers the cohort of the recorded percentage, and within that of the next step while the canary stands |
| LoweredCanary.LoweredCanaryOvershoots | backend/src/jobs/collectorRollout.js:234-279 | why the canary has to stand: a run from an empty table in which a pass dies after two offers, the canary is lowered, and 10 percent is recorded with two of three hosts attempted |
| RolloutInstances.InstancesRefine | backend/src/jobs/collectorRollout.js:61-76 | every run of any number of instances under the lock, within its TTL, is for the tables a run of the machine with a single pass |
| RolloutInstances.InstancesKeepInv | backend/src/jobs/collectorRollout.js:61-283 | so the tables keep their promises whichever instances write to them, and no two passes run at once |
| RolloutInstances.UndisturbedInstance | backend/src/jobs/collectorRollout.js:61-76 | an instance that finds the lock free and is left alone makes the pass that `AdvanceOrg` computes, and leaves the lock free |
| RolloutJob.UndisturbedIsARun | backend/src/jobs/collectorRollout.js:113-283 | a pass that nothing disturbs is one of the machine's runs |
| RolloutJob.AdvanceKeepsInv | backend/src/jobs/collectorRollout.js:113-283 | so it keeps every promise of the tables |
| RolloutJob.RolloutTables.FindOpen | backend/src/jobs/collectorRollout.js:117-119 | finds a rolling rollout if there is one |
| RolloutJob.RolloutTables.Close | backend/src/jobs/collectorRollout.js:90-101 | after it the rollout has the new status and end, none of its attempts is outstanding, exactly its outstanding ones are withdrawn, and no other rollout is touched |
| RolloutJob.RolloutTables.OfferAll | backend/src/jobs/collectorRollout.js:253-274 | exactly the hosts of the cut without an attempt and without a failing write get one, offered now from their current version; no other row changes, and the number returned is theirs |
| RolloutJob.RolloutTables.WidenRollout | backend/src/jobs/collectorRollout.js:217-282 | completed if and only if there is nobody left to offer to or no step left; otherwise the least listed step above, or the canary, is recorded and offered to the hosts of its cut |
| RolloutJob.RolloutTables.Sweep | backend/src/jobs/collectorRollout.js:178-187 | the statements of `SweepMeans` for the tables |
| RolloutJob.SweepMeans | backend/src/jobs/collectorRollout.js:178-187 | a host taken out of service is never counted as a failure, nothing is left outstanding on such a host or silent past its grace period, and whoever reported or has time left is not judged |
| RolloutJob.RolloutTables.JudgeRollout | backend/src/jobs/collectorRollout.js:178-282 | after the sweep: halted with its offers withdrawn if and only if the failure gate has tripped, whatever is pending; otherwise waiting if and only if somebody is pending; otherwise dwelling if and only if the last step is less than a dwell old; otherwise widened |
| RolloutJob.RolloutTables.AdvanceOrg | backend/src/jobs/collectorRollout.js:113-283 | a whole pass, case by case: disabled, no target, cancelled, nothing to do, previously ended, or judged as above, each exactly when, and with the tables it leaves; and the same as the machine run to its end |
| RolloutJob.RolloutTables.RecordReportedVersion | backend/src/services/collectorUpdateService.js:187-228 | a report settles the latest outstanding attempt of its host and nothing else: verified on the target, heard of within the grace period, rolled back after it |
| RolloutJob.OneOutstanding | backend/src/services/collectorUpdateService.js:189-194 | in every reachable state a host has one outstanding attempt at most, of the rolling rollout, so a report is never put down to the wrong one |
| RedisLock.ApplyKeepsInv | backend/src/jobs/postureDigest.js:58-73 | while nobody has overrun, a holder's key is its own and not yet expired |
| RedisLock.Exclusion | backend/src/jobs/collectorRollout.js:61-76 | in every interleaving two callers are inside together only after a section or `DEL` outlived its TTL, or somebody went in unlocked, which copies that fail closed never do |
| RedisLock.LateDelBreaksExclusion | backend/src/jobs/collectorRollout.js:61-76 | the assumption on the `DEL` is needed: a run in which two callers meet though neither has overrun |
| RedisLock.FailOpenGivesUpExclusion | backend/src/jobs/auditExport.js:56-71 | the copy that fails open lets two callers in at once |
| RedisLock.KeyLastsItsTtl | backend/src/jobs/postureDigest.js:58-73 | without a `DEL` the key keeps others out for its TTL and no longer, whatever else happens |
| RedisLock.NextGetsIn | backend/src/jobs/postureDigest.js:58-73 | after a caller has returned the next one gets in if and only if the `DEL` has landed or the TTL is over |
| DigestSchedule.Normalize | backend/src/services/digestSchedule.js:35-50 | a stored cadence always becomes a sane schedule: hour and weekday are kept when in range, and are 08:00 and Monday if and only if they are not, or are so already |
| DigestSchedule.PreviousOccurrenceIsLatest | backend/src/services/digestSchedule.js:61-85 | the result is a slot of the schedule, has arrived, and no later slot has |
| DigestSchedule.WeekdayIff | backend/src/services/digestSchedule.js:81 | which days are which: 1970-01-04 and every seventh day from it is a Sunday, and no other |
| DigestSchedule.SlotIff | backend/src/services/digestSchedule.js:65-81 | a slot is the full hour of the schedule on some day, in UTC, and on its weekday if it is weekly |
| DigestSchedule.FindPreviousOccurrence | backend/src/services/digestSchedule.js:61-85 | the loop over at most eight days finds it; the fallback after it is unreachable |
| DigestSchedule.DueMeansSlotPassed | backend/src/services/digestSchedule.js:108-138 | due if and only if a slot has arrived since the anchor; the window is not empty, ends now and starts at the anchor, or 31 days back if that is later |
| DigestSchedule.MissingAnchorIsDue | backend/src/services/digestSchedule.js:114-117 | a row without a valid anchor is due at once, for the period before the latest slot and what has passed since, never clamped |
| PostureDigest.RunKeepsInv | backend/src/jobs/postureDigest.js:82-163 | every run of any number of instances keeps watermark, work in progress and log in step with the lock |
| PostureDigest.DigestWindows | backend/src/jobs/postureDigest.js:89-159 | recorded windows are in order and disjoint, and contiguous if and only if they are not clamped, in every interleaving within the TTL |
| PostureDigest.WatermarkOnlyMovesOnSuccess | backend/src/jobs/postureDigest.js:110-157 | a failed send, a failed write, a crash or a lost lock leaves the watermark where it was |
| PostureDigest.EditRearmsIff | backend/src/services/postureAlertService.js:101-133 | an edit restarts the watermark if and only if it switches the rule into digest mode |
| PostureDigest.SendsWhatIsDue | backend/src/jobs/postureDigest.js:101-111 | a mail goes out only under the lock, for the window due by the rule as read under it |
| PostureDigest.UndisturbedPass | backend/src/jobs/postureDigest.js:89-159 | an instance that nothing disturbs moves the watermark to now if and only if the rule is due and its mail and write succeed, and leaves the lock free |
| PostureDigest.RuleTable.RunDigestPass | backend/src/jobs/postureDigest.js:82-163 | a listed rule changes if and only if it is on, in digest mode, a slot of its cadence has arrived since its anchor, its lock is free, and mail and write succeed; then its watermark alone moves, to now; the summary counts these rules, the due unlocked ones that failed, the mails, and those that reached nobody |
| AuditDigest.InsertAscends | backend/src/services/auditService.js:993-1007 | the log read in (createdAt, id) order stays strictly ascending when a record commits |
| AuditDigest.WindowSplits | backend/src/services/audit/sinkService.js:619-644 | the records of a window are the rows up to the limit, the rows beyond it and those that committed after the reading, each in one of the three, the taken rows older than the cut ones |
| AuditDigest.RunKeepsInv | backend/src/services/audit/sinkService.js:569-720 | in every run, with records committing at any moment between a reading and its write, each record the watermark has passed has exactly one fate, and no other record has any |
| AuditDigest.EveryRecordOnce | backend/src/services/audit/sinkService.js:591-677 | a record behind the watermark was in one recorded digest if and only if it was not late, clamped off or beyond the limit; mailed twice only after a digest that could not be recorded |
| AuditDigest.LateMeansSlow | backend/src/services/audit/sinkService.js:595-611 | every record the watermark has passed unread, before or during a pass, took at least the read lag to commit |
| AuditDigest.WhoIsLeftOut | backend/src/services/audit/sinkService.js:619-646 | records are clamped off only by an anchor older than 31 days, cut off only by the limit, and then the newest ones |
| AuditDigest.ReadsIff | backend/src/services/audit/sinkService.js:587-632 | a pass reads if and only if a slot has arrived and the window, short of the read lag, is not empty; its rows are the records of the log in that window, in order |
| AuditDigest.WatermarkMovesIff | backend/src/services/audit/sinkService.js:614-677 | the watermark moves, to just behind the window, if and only if a digest was mailed and recorded, and its rows up to the limit are then the ones that were mailed |
| AuditDigest.Sink.Collect | backend/src/services/audit/sinkService.js:619-643 | the reading loop takes the first `max` rows and reports whether there were more |
| AuditDigest.Sink.RunDigestSink | backend/src/services/audit/sinkService.js:569-720 | the watermark moves just behind the window if and only if the window opens and mail and write succeed, with the rows up to the limit as the number delivered; otherwise it stays; and the same as the machine's reading and finishing step |
| SshdConfig.WriteInline | backend/src/routes/bootstrap.js:1286-1317 | the awk loop yields the surviving lines with the block put among them, for every file and all parameters |
| SshdConfig.RewriteShape | backend/src/routes/bootstrap.js:1286-1317 | exactly one block, no `Match` line before it, a `Match` line right after it if there is one, the other surviving lines in order, for every file |
| SshdConfig.RewriteReads | backend/src/routes/bootstrap.js:1298-1315 | for every file the parameters come back out of the block that is written: `TrustedUserCAKeys` is the key file, `AuthorizedPrincipalsCommand` the program with its arguments, run as nobody, and there is nothing else in it |
| SshdConfig.MatchLineIff | backend/src/routes/bootstrap.js:1298 | what counts as a `Match` line: blanks, the word, a blank, anything |
| SshdConfig.RewriteReplaces | backend/src/routes/bootstrap.js:1286-1317 | a rewrite over an old rewrite is the rewrite of the original, hence idempotent |
| SshdConfig.SurvivorsAreUnenclosed | backend/src/routes/bootstrap.js:1294-1297 | the lines awk keeps are exactly those that are no marker and lie in no block |
| SshdConfig.StripInline | backend/src/routes/bootstrap.js:2006-2013 | the sed range as a loop |
| SshdConfig.StripAgainstSurvivors | backend/src/routes/bootstrap.js:2010 | on every file sed and awk differ in stray end markers only |
| SshdConfig.StripIsSurvivors | backend/src/routes/bootstrap.js:2010 | they agree if and only if every end marker closes a block |
| SshdConfig.InstallUninstall | backend/src/routes/bootstrap.js:2006-2013 | after any number of installs the strip leaves the marker-free remainder, which is the original file if and only if that had no markers |
| JitLease.ReapIsExact | backend/src/routes/bootstrap.js:1041-1090 | a pass in which nothing fails removes exactly the users whose lease is expired and who are idle or on a hard cutoff, in whatever order the files come |
| JitLease.ReapKeepsMatchIff | backend/src/routes/bootstrap.js:1079-1088 | with failing removals, which are swallowed, a pass keeps the match if and only if for every due user with a drop-in both that and the lease are gone, or neither |
| JitLease.UnremovedDropInStays | backend/src/routes/bootstrap.js:1079-1088 | a drop-in whose removal failed while its lease went survives every later pass |
| JitLease.ReapTwice | backend/src/routes/bootstrap.js:1041-1090 | a second pass at the same time with unchanged sessions does nothing |
| JitLease.RunKeepsMatch | backend/src/routes/bootstrap.js:1079-1168 | over every run of completed applies and passes a drop-in exists if and only if the lease has `sudo`, and every lease has its account |
| JitLease.NoDropInOutlivesItsLease | backend/src/routes/bootstrap.js:1041-1090 | after a pass a drop-in is there exactly for `sudo` leases that are not expired or whose user may finish a session |
| JitLease.GrantedLeaseIsDueIff | backend/src/routes/bootstrap.js:1052-1169 | after an apply and anything that does not grant the user anew, the lease is up if and only if the seconds of the manifest have passed, or no `date` worked, and the user is idle or the cutoff hard |
| JitLease.NothingOutlivesTheTtl | backend/src/routes/bootstrap.js:1041-1169 | a pass at that time or later leaves an idle user neither account, drop-in nor lease |
| JitLease.LeaseLastsItsTtl | backend/src/routes/bootstrap.js:1041-1169 | passes before it leave account and lease, and the drop-in if and only if the manifest has `sudo` |
| JitLease.UnleasedAccountsStay | backend/src/routes/bootstrap.js:1041-1168 | an account that never got a lease is never removed |
| JitLease.ApplyKeepsMatchIff | backend/src/routes/bootstrap.js:1109-1168 | with failing writes the match survives if and only if drop-in and lease were written together or `sudo` did not change |
| JitLease.OrphanedDropInStays | backend/src/routes/bootstrap.js:1133-1168 | a drop-in without a lease survives every later pass and every other user's manifest |
| JitLease.StoppedReapHeals | backend/src/routes/bootstrap.js:1044-1089 | a pass that stops anywhere before a lease file is gone is made good by a later one |
| JitOverlap.OverlapKeepsMatchIff | backend/src/routes/bootstrap.js:1041-1169 | an apply and a pass interleaved write by write under any schedule keep the match if and only if the manifest has no `sudo`, or the login's drop-in and its lease both stand or neither does |
| JitOverlap.UserNotDueIsSafe | backend/src/routes/bootstrap.js:1041-1169 | no schedule does harm to a user who is not due when the pass begins and whose new lease outlasts it |
| JitOverlap.OverlapLeavesADropIn | backend/src/routes/bootstrap.js:1041-1166 | for every host on which the user of a `sudo` manifest is due, whatever else the pass lists, there is a schedule that leaves a drop-in without a lease |
| JitOverlap.EveryScheduleHarmlessIff | backend/src/routes/bootstrap.js:1041-1169 | for a new lease that outlasts the pass, all schedules keep the match if and only if the manifest has no `sudo` or its user is not due when the pass begins |
| JitLease.Host.Provision | backend/src/routes/bootstrap.js:1095-1169 | `apply_manifest` with any of its writes failing |
| JitLease.Host.Reap | backend/src/routes/bootstrap.js:1041-1090 | the loop with its `continue`s and swallowed failures: for each due user what could be removed is gone, nobody else is touched |
| OneTimeLink.SignVerify | backend/src/routes/bootstrap.js:223-256 | a signed link verifies exactly until its half hour is over, and keeps a known mode or falls back to the full one |
| OneTimeLink.VerifyIff | backend/src/routes/bootstrap.js:247-256 | of all signed tokens exactly those of this kind that have not expired verify; a known mode is kept, any other or none becomes the full one, and nothing else changes |
| OneTimeLink.TtlOutlives | backend/src/routes/bootstrap.js:238 | the key outlives the token in spite of the floor, and lives at least a second; and not a second longer than the token, but for what the server's clock is behind |
| OneTimeLink.SingleUse | backend/src/routes/bootstrap.js:236-245 | before the expiry the run lets through exactly one download of a link if one was tried |
| OneTimeLink.ClaimedAgainIff | backend/src/routes/bootstrap.js:236-245 | another claim is let through if and only if it reaches Redis after the TTL |
| OneTimeLink.SkewCosts | backend/src/routes/bootstrap.js:236-245 | a server clock that runs ahead shortens that by no more than the skew |
| OneTimeLink.OldLinksAreNotBurnt | backend/src/routes/bootstrap.js:237 | a token without a `jti` is accepted any number of times and leaves no trace |
| OneTimeLink.Redis.SetNx | backend/src/routes/bootstrap.js:239 | `SET ... EX ttl NX` sets exactly when no live key is there |
| OneTimeLink.Redis.Download | backend/src/routes/bootstrap.js:387-393 | the route verifies, burns the link, and only then goes on with its mode |
| ServerOnboarding.RunKeepsInv | backend/src/jobs/serverOnboarding.js:41-167 | the invariant of every interleaving of workers and boot-time reconciliation, with failing writes and checks and with workers that die between any two accesses |
| ServerOnboarding.NoEarlyCompletion | backend/src/jobs/serverOnboarding.js:140-151 | the job is completed only when no credential is staged, pending or running, whether final writes fail, workers die or not |
| ServerOnboarding.CompletionIsFinal | backend/src/jobs/serverOnboarding.js:119-151 | no event reopens a completed job, and none but a failing check touches a terminal row |
| ServerOnboarding.NoLostCompletion | backend/src/jobs/serverOnboarding.js:41-151 | with final writes failing and workers dying, for good or to be run again: once every worker has returned the job is completed if and only if nothing is in flight, unless the last check has failed or gone missing |
| ServerOnboarding.CheckGoesMissingIff | backend/src/jobs/serverOnboarding.js:141-151 | a worker that dies for good leaves a settled open job without one to close it if and only if no other is under way |
| ServerOnboarding.StrandedIff | backend/src/jobs/serverOnboarding.js:119-151 | the rows then in flight are exactly those whose last final write failed or whose worker died for good before it, and the job stays open if and only if there is one |
| ServerOnboarding.AttemptsAreBounded | backend/src/jobs/serverOnboarding.js:39-111 | in every run, whatever fails and whoever dies, a credential takes at most `MAX_ATTEMPTS` attempts and one for each time its worker is run again with the attempts used up and the row in flight; without a lost write, a failed check or a death, `MAX_ATTEMPTS` |
| ServerOnboarding.DeathStaysBoundedIff | backend/src/jobs/serverOnboarding.js:54-58 | a worker that dies and is run again is within its attempts if and only if its row is terminal or has one left |
| ServerOnboarding.DeathCostsAnAttempt | backend/src/jobs/serverOnboarding.js:41-111 | for every import and each of its credentials a run in which the worker dies on its last attempt, is run again and makes one more |
| ServerOnboarding.BootCloses | backend/src/jobs/serverOnboarding.js:141-167 | after every run without a failed check the reconciliation at the next boot leaves the job completed if and only if nothing is in flight |
| ServerOnboarding.LostFinalWriteStrands | backend/src/jobs/serverOnboarding.js:41-138 | for every import and each of its credentials a run in which the failure of the final write is swallowed and the worker returns with its row `running`, its secret in place and the job open |
| ServerOnboarding.FailedCountReopensIff | backend/src/jobs/serverOnboarding.js:95-111 | a failing check leaves a settled store settled if and only if it lies outside the `try` or that was the last attempt |
| ServerOnboarding.FailedCountReopens | backend/src/jobs/serverOnboarding.js:41-167 | for every import with one credential a run that ends with the finished row pending again under the completed job |
| ServerOnboarding.TerminalRowsKeepNoSecret | backend/src/jobs/serverOnboarding.js:119-131 | whatever fails, a terminal row holds no secret |
| ServerOnboarding.OutcomeIsLastAnswer | backend/src/jobs/serverOnboarding.js:41-117 | in every interleaving in which none of its own writes, checks and workers fails, a credential is in flight until decided; it ends finished if and only if its last attempt, one of three at most, succeeded, and failed if and only if three did not, or it had expired or had no server |
| ServerOnboarding.FinishedIsEarned | backend/src/jobs/serverOnboarding.js:79-93 | in every run, whatever fails, a row is finished only if the provisioning of its server succeeded |
| ServerOnboarding.OnboardingStore.MaybeCompleteJob | backend/src/jobs/serverOnboarding.js:141-151 | completes the job if and only if nothing is in flight, as steps of that worker in the machine |
| ServerOnboarding.OnboardingStore.FinalizeCredential | backend/src/jobs/serverOnboarding.js:119-138 | terminal status, secrets wiped, then the check |
| ServerOnboarding.OnboardingStore.ProcessOnboard | backend/src/jobs/serverOnboarding.js:41-112 | one delivery: the row after it, when it throws, and that it is a run of the machine |
| ChatNotify.AtMostOnePost | backend/src/jobs/chatNotify.js:62-131 | in every run, whichever writes fail and wherever the process dies, a message is posted at most once and the adapter called at most `MAX_SOFT_RETRIES` times, but for one post for each time a job is put back with the message posted and its row not saying so, and one call for each time it is put back |
| ChatNotify.RerunPostsAgainIff | backend/src/jobs/chatNotify.js:62-97 | a job put back and accepted posts again if and only if its row does not say delivered |
| ChatNotify.RerunPostsTwice | backend/src/jobs/chatNotify.js:82-97 | a run that posts twice: a death right after the post, and the job put back |
| ChatNotify.PostedIsMarkedIff | backend/src/jobs/chatNotify.js:82-108 | a posted message is marked delivered if and only if the process outlives the post, its write succeeds, and so does the note after it unless the process is dead by then or the failure cannot be noted |
| ChatNotify.DeliveryEnds | backend/src/jobs/chatNotify.js:69-131 | when only the adapter fails, the first job that settles the delivery decides it: dropped without a destination, delivered if accepted, failed if refused or out of retries; until then it is queued with its next attempt |
| ChatNotify.DishonestAdapterPostsTwice | backend/src/jobs/chatNotify.js:98-121 | the contract on retryable errors is needed |
| ChatNotify.Delivery.HandleError | backend/src/jobs/chatNotify.js:98-130 | the `catch` branch: row first, note next, new job last |
| ChatNotify.Delivery.DeliverOne | backend/src/jobs/chatNotify.js:62-131 | the job's function is the machine's step |
| BulkInstall.ApplyKeepsInv | backend/src/routes/servers.js:695-835 | no step loses or makes up a host: started are those with a result and those in flight, and with the queue they are the targets in order |
| BulkInstall.BoundedAndOnce | backend/src/routes/servers.js:826-835 | at most `min(concurrency, n)` in flight, hosts started in order and none twice, in every interleaving |
| BulkInstall.NoneStartsAfterAbort | backend/src/routes/servers.js:696-834 | once the client is gone no host is started |
| BulkInstall.OneResultPerHost | backend/src/routes/servers.js:802-841 | a settled run has exactly one result per started host, which are all targets unless aborted, and ok + failed is their number |
| BulkInstall.FallbackDecides | backend/src/routes/servers.js:766-786 | a failed first run with a fallback keeps the host in flight, and the fallback's run decides, whatever other workers do in between |
| BulkInstall.ResultIsLastTry | backend/src/routes/servers.js:766-820 | in every run a host gets its result exactly when what is tried at it is complete - turned away, one run, or one that failed and its fallback's -, and the result is ok if and only if the last try was a run that ended well |
| BulkInstall.OkCountsLastTries | backend/src/routes/servers.js:766-841 | so the number reported as ok is the number of targets whose last try ended well |
| BulkInstall.StepsGoDown | backend/src/routes/servers.js:826-835 | every step that changes anything brings the end closer |
| BulkInstall.NeverStuck | backend/src/routes/servers.js:826-835 | a worker that has not returned has a step that moves it |
| BulkInstall.Pool.Turn | backend/src/routes/servers.js:695-824 | what runs between two awaits is the machine's step |
| BulkInstall.Pool.RunPool | backend/src/routes/servers.js:826-842 | a whole schedule, and the counts of the `done` event |
| RateLimiter.RunKeepsInv | backend/src/middleware/rateLimiter.js:49-68 | lifetimes of a key last at least a window and do not overlap, with the two commands interleaved with anything |
| RateLimiter.LifeLastsItsWindow | backend/src/middleware/rateLimiter.js:54-57 | in every run a lifetime of the key ends exactly a window after its `EXPIRE` |
| RateLimiter.RateBound | backend/src/middleware/rateLimiter.js:49-68 | an interval no longer than the window holds at most 2 * max - 1 admitted requests |
| RateLimiter.BoundIsMet | backend/src/middleware/rateLimiter.js:49-68 | for every quota a run that meets the bound |
| RateLimiter.WindowHoldsQuotaIff | backend/src/middleware/rateLimiter.js:49-68 | no interval as long as the window holds more than the quota if and only if the quota is at most one |
| RateLimiter.RefusedIff | backend/src/middleware/rateLimiter.js:54-61 | refused if and only if `max` requests were admitted in the key's current lifetime |
| RateLimiter.LostExpireIsForEver | backend/src/middleware/rateLimiter.js:54-57 | after a lost `EXPIRE` a used-up quota never comes back |
| RateLimiter.LostExpireSticks | backend/src/middleware/rateLimiter.js:54-57 | for every quota a run from an unset key that ends there |
| RateLimiter.ComesBackIff | backend/src/middleware/rateLimiter.js:54-61 | some later request can be let through if and only if one can now, the key has an expiry, or its `EXPIRE` is under way |
| RateLimiter.Counter.RateLimitByUser | backend/src/middleware/rateLimiter.js:50-67 | one uninterrupted request; open when Redis is down |
| SessionCleanup.PruneAllIs | backend/src/jobs/sessionCleanup.js:154-180 | any part of a pass, with any failures, amounts to nulling some rows and deleting some objects |
| SessionCleanup.NothingIsOrphaned | backend/src/jobs/sessionCleanup.js:154-180 | at every crash point every stored object is still referenced, and no row lost more than an expired key |
| SessionCleanup.RowFirstOrphansIff | backend/src/jobs/sessionCleanup.js:133-136 | why the object goes first: the other order orphans the object unless another row has its key |
| SessionCleanup.CleanPassIs | backend/src/jobs/sessionCleanup.js:139-181 | a fault-free pass clears exactly the rows ended before the cutoff and their objects |
| SessionCleanup.RetentionIs | backend/src/jobs/sessionCleanup.js:139-181 | session by session: a recording is gone after a fault-free pass if and only if the session ended more than the retention days ago, and an object if and only if such a session had its key |
| SessionCleanup.YoungRecordingStaysIff | backend/src/jobs/sessionCleanup.js:142-156 | a younger row keeps its recording if and only if no expired row shares its key |
| SessionCleanup.NextPassHeals | backend/src/jobs/sessionCleanup.js:154-180 | a pass that failed or crashed anywhere followed by a clean one is the clean one alone |
| SessionCleanup.Stores.PruneOldStoredRecordings | backend/src/jobs/sessionCleanup.js:139-181 | the loop with its `continue` on a failed deletion |
| CustomerScope.ResolveMeaning | backend/src/lib/scope.js:40-72 | a customer is seen exactly by the unrestricted, by holders of a row for it and by members of a CUSTOMERS group that holds one |
| CustomerScope.UnscopedMeans | backend/src/lib/scope.js:40-53 | unscoped exactly without a user, as super admin, when not customer-scoped, or in an ALL group |
| CustomerScope.ResolveMonotone | backend/src/lib/scope.js:40-72 | memberships and rows more never take a customer away |
| CustomerScope.WideningAGroupIsMonotone | backend/src/lib/scope.js:51-55 | nor does turning a group from CUSTOMERS to ALL |
| CustomerScope.ServerFilterIsGuard | backend/src/lib/scope.js:83-147 | `serverScopeWhere` admits exactly what `assertServerInScope` accepts |
| CustomerScope.CustomerFilterIsGuard | backend/src/lib/scope.js:103-155 | `customerScopeWhere` admits exactly what `assertCustomerInScope` accepts |
| CustomerScope.ComposeIsConjunction | backend/src/lib/scope.js:88-102 | composing with AND is conjunction for every base filter |
| CustomerScope.SpreadForgets | backend/src/lib/scope.js:88-102 | a spread is conjunction with what the second object's keys leave of the first |
| CustomerScope.ServerSpreadIsConjunction | backend/src/lib/scope.js:79-86 | spreading the server filter is safe over any base without a `customerId` key, in either order |
| CustomerScope.LookUpSpreadIsConjunctionIff | backend/src/lib/scope.js:91-101 | spreading the customer filter over a lookup by id asks for that customer alone if and only if the scope holds no other |
| CustomerScope.VisibleServers | backend/src/lib/scope.js:40-86 | from rows to list: a user's servers are the organisation's whose customer the user is entitled to |
| CustomerScope.RelationFilterMeans | backend/src/lib/scope.js:114-117 | for every relation: a scoped user gets the rows that have it, and in it a customer in scope |
| CustomerScope.SessionFilterMeans | backend/src/lib/scope.js:119-131 | sessions on servers in scope, and one's own without a server |
| EscapeHtml.FivePassesAreOne | backend/src/email/escape.js:8-16 | the five replacements are one map per character |
| EscapeHtml.EscapeRoundTrip | backend/src/email/escape.js:8-16 | decoding the references gives back the input; a missing one escapes to nothing |
| EscapeHtml.EscapedTextIsInert | backend/src/email/escape.js:8-16 | no raw quote or angle bracket, and every ampersand starts one of the five references |

## Left out

- Express routing, Joi schemas, pages, mail layout, logging and queue registration; Prisma, Redis,
  SSH, object storage and chat adapters beyond the effects named above.
- The contents of `haltedReason` and `detail`, the counters of `runRolloutPass`, and the values of
  `VERIFY_GRACE_MS`, `STEP_DWELL_MS` set from the environment: their defaults are used.
- The hash behind `bucketFor`: any fixed function of host and version; what makes a server a
  candidate is part of the environment, and the comparison of versions a parameter.
- RolloutInstances.InstancesRefine: says nothing of runs in which a section or a `DEL` outlives the
  TTL of the lock; then two passes can run at once.
- RolloutCohorts.CohortRefinement: for a fixed fleet; hosts that join or leave while a rollout runs
  change the order it speaks of.
- RolloutSteps.EveryStepIsDirect: a host whose `create` fails for another reason than a duplicate is
  outside its fixed-fleet runs.
- RedisLock.Exclusion: nothing is promised once a section or a `DEL` has outlived its TTL, nor when
  the copy that fails open has gone in unlocked; that is the source's own limit.
- PostureDigest.DigestWindows: deletion of a rule is modelled as switching it off; a `dueWindow`
  that throws is not, as no stored cadence makes it do so.
- AuditDigest.RunKeepsInv: passes follow one another, which the strict lock gives within its TTL;
  the batches of one reading are read at one moment; the filter of the sink is fixed, and back-off and giving up after repeated failures only decide
  when a pass happens.
- The streaming sinks of `runDueSinks`, with their durable cursor.
- SshdConfig.WriteInline: the backup copies, the drop-in variant, validation and reload of sshd, and
  a missing newline at the end of the file.
- ACLs and groups of JIT users: a new lease replaces the path list of the old one and groups are
  only added, so full cleanup is no property of the code.
- JitLease.Host.Reap: the kill and its pause, drop-in names that clash with other files, a
  directory that the script may not read, and expiry strings read as local time by a BSD `date`.
- OneTimeLink.SignVerify: signatures are taken to be good; the second family of uninstall tokens
  differs in its `kind` only.
- ServerOnboarding.RunKeepsInv: one worker per credential; jobs that the queue reruns while the old
  worker is not dead but still at work, the reaper that deletes expired rows, `provisionStatus` of the server,
  legacy password rows and the enqueueing itself are not part of this model.
- ChatNotify.AtMostOnePost: a death between the queueing of the next attempt and the end of the job,
  and the delays between retries.
- BulkInstall.OneResultPerHost: writing to the event stream and disposing of a certificate never
  throw, as in the source; the identity a host is installed with is left open.
- RateLimiter.RateBound: for runs in which Redis answers; when it does not, requests pass uncounted.
- SessionCleanup.NothingIsOrphaned: rows and objects that others add during a pass, and an object
  store that calls an existing object missing.
- The on-disk `pruneOldRecordings`, which nulls the path even when the deletion fails.
- EscapeHtml.FivePassesAreOne: non-string inputs, which become text first.
