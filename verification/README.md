# Verified model of the heat-pump home controller's decision cores

This project models four connected parts of a home energy controller and proves
properties of them for every input, run or interleaving. It stands beside the Python
sources it models and shares no code with them.

* **The auto-tune ledger and its judge.** A settings store, and a ledger of automatic
  changes to those settings. A change is proposed, evaluated for a week, then kept or
  rolled back; the owner can overwrite a setting at any time, a batch write can be
  undone, a key can be frozen. The ledger is modelled twice: as a sequential state
  machine (`Ledger`, `AutoTune` and the other `AutoTune…` modules) and as an interleaved
  protocol over a non-reentrant lock (`LockProtocol`, `LockHook`, `LockOwner`,
  `LockLosses`).
  `Feedback`, `Judge`, `JudgeRuns` and `Apply` are the judge, its daily runs and the
  weekly automatic change.
* **The hot-water schedule and its energy forecast.** A generator that emits timed rows
  for the heat pump (`DhwSchedule`), a chain of in-place array passes that tells the
  optimiser what those rows will draw (`DhwPasses`, `DhwBoost`, `DhwRamp`,
  `DhwForecast`, `DhwLift`), and the proof that the two describe the same day
  (`DhwAgreement`, `DhwPaid`, `DhwShape`). `DhwWarmup` is the persist-once choice of the warmup hour, `DhwClock` what
  all of them read.
* **The quota log and circuit breaker** (`Quota`). A call log pruned to 48 hours that
  must still answer 24-hour counts and last-N questions as if nothing had been dropped.
* **The bias learners** (`DhwBias`, `LoadBias`, on the shared `Accumulators`): one open
  loop, one damped and clamped feedback loop.

Code that changes state in place is modelled by classes and array methods, each proved
equal to a function of the old state; the theorems are about those functions. What the
branching ones decide is also proved in the inputs' own terms, without their bodies. Floats are
reals and the epsilons of the source (1e-9, 1e-6) are explicit. Times are seconds in the
ledger and minutes on a fixed-offset local clock in the hot-water modules.

Verify with `dafny verify dfyconfig.toml`.

## Results worth knowing

* **Drift cap.** A capped key stays within its cap of the owner's last manual value, or of
  the value before the first automatic change. The run is restricted only on that key,
  and only while a batch write of it waits to be undone; each way out is a concrete run:
  a batch entry that does not change its value, followed by the batch's undo, deletes an
  older genuine manual row (`src/api/main.py:5046-5057`, `src/auto_tune.py:533-549`); an
  owner write between a batch write and its undo leaves the undone value under a newer
  reference; and a denylisted key that is pinned by `freeze(key=…)` records a reference
  that owner writes never move.
* **A deleted setting comes back unchecked.** The default that takes its place is neither
  validated nor cross-checked (`src/runtime_settings.py:1665-1693`), so two settings that
  agreed may no longer do. From then on the verbs that cancel out need not: an applied
  proposal and its rollback give the settings back exactly when the value before the
  proposal passed its cross-check, and a batch write and its undo exactly when the store
  would have accepted the value before the batch. A concrete run shows a refused rollback.
* **A failed batch is undone in the order it was written** (`src/api/main.py:5052`). Every
  setting is given back exactly when the store would have accepted each old value as it
  stood before the batch, and neither comfort key has to be put back beside a later
  entry's value of the other that refuses it: a batch that raises the ceiling and then the
  setpoint leaves the raised ceiling behind. The first half is needed in any order, and
  last entry first it is enough, so no order does better.
* **Owner wins**, under every interleaving with any number of proposals, rollbacks and
  keeps in flight, until the freeze runs out, for a write of every key but the ceiling and
  the setpoint; for those two whenever, before the write, no automated change can move the
  key, or its counterpart to a value that refuses the owner's. Without that both do lose: a
  proposal past its re-read overwrites the owner, a rollback moves the counterpart, and
  the hook's restore is refused. A delete wins only when no automated change can move the
  key: it reads the value for its hook after the removal, and on any other key a proposal
  that writes in between has its own value recorded and frozen as the owner's.
* **Nothing is left running.** On every interleaving the step that completes the hook
  closes each change running on the owner's key and leaves every other row alone, and
  until the freeze runs out none runs on it again. The lock steps of the hook, of a
  proposal, a rollback and a keep are each the sequential verb when nobody else moves; for
  the hook also from any state in which its value was already overtaken.
* **Eighteen gates.** A proposal is applied exactly when it passes every one of them, each
  stated over the inputs; a refusal names the first that fails in the source's order and
  changes nothing. A change is rolled back exactly when it is the newest of its key, its
  value is in force and the old one acceptable.
* **The hook can be skipped.** The previous value is read before the write and outside the
  lock, and that read alone decides: if it was already the owner's value, the hook records
  nothing on any trace (`src/runtime_settings.py:1642-1661`). Then nothing is frozen; the
  value stands until an automated thread writes the key, which one that is past its
  re-read does.
* **Feasible forecast.** Every pinned load is between zero and the heater's cap for every
  price line, tank start, decision and shape table, as long as the scaled holding energy
  fits the cap. The source assigns that energy without a clamp
  (`src/dhw_policy.py:1997`); when it does not fit, a long enough paid window always
  breaks the bound.
* **Paid slots are boosted, once.** Whatever the day, with or without guests, a slot of the
  cycle with a negative price has exactly one boost row in force, at the target the
  forecast heats towards, and no other slot has one; around them exactly one other row
  commands the forecast's target, from the deferred warmup on.
* **Near ties in the warmup pick.** The documented rule is that the earliest cheapest hour
  wins. It is picked exactly when the hour picked among those before it is dearer by more
  than 1e-9: of 5.0 and then 4.9999999995 the dearer hour is picked. Nor is the pick the
  earliest hour within 1e-9 of the cheapest.
* **Stand-off after a deferred warmup.** The stand-off step does not look at the prices
  again. It leaves the warmup clear of paid windows exactly when the deferred start is
  outside the stand-off, or every window that comes within the lead by moving to its end
  is over by then.
* **Trade-off verdicts on a partial week.** Every proportional allowance scales with the
  days replayed, except the default comfort allowance of a trade-off, which is scaled
  twice (`src/auto_tune_judge.py:501-519`).

## Model

| member | source | states |
|---|---|---|
| Quota.RecordKeepsView | src/api_quota.py:69-82 | Recording and pruning on the 48-hour log keeps it exactly the pruned image of the full history. |
| Quota.CountIgnoresPruning | src/api_quota.py:120-135 | The 24-hour count on the pruned log equals the count on the full history at every later instant. |
| Quota.LastWritesOfPruned | src/api_quota.py:270-283 | The newest N writes of a pruned log are a prefix of those of the full log, cut exactly where the pruning drops one. |
| Quota.BreakerIgnoresPruning | src/api_quota.py:263-293 | The breaker gives the same answer on the pruned log and on the full history when window plus cooldown, or with one required failure the cooldown alone, is at most 48 hours. |
| Quota.BreakerDivergesBeyondRetention | src/api_quota.py:263-293 | For every other configuration there is a history on which the two answers differ. |
| Quota.BreakerAgreesIff | src/api_quota.py:263-293 | So the two answers agree on every history and at every instant exactly for the configurations above. |
| Quota.SuccessClosesBreaker | src/api_quota.py:284-285 | A recorded successful write closes the breaker at once, whatever came before. |
| Quota.BreakerIff | src/api_quota.py:263-293 | The breaker is open exactly when the last writes of the required number all failed, the newest within the cooldown and the oldest within the window of it; one success among them keeps it closed. |
| Quota.BlocksIff | src/api_quota.py:232-245 | A call is blocked exactly when the last 24 hours of the full history have used up the budget in force, or it is for the heat pump and those writes failed. |
| Quota.SoakLowersIff | src/api_quota.py:197-230 | The soak lowers the budget, to the soak budget, exactly with active control, a smaller positive soak budget and less than the soak's days since its marker. |
| Quota.QuotaIsSafe | src/api_quota.py:232-245 | If each call is made only after the block check said no, no 24-hour window of the full unpruned history holds more calls than the largest budget in force. |
| Quota.SoakMarkerMeaning | src/api_quota.py:102-117 | After any run the soak marker is set exactly when the last control write was made in active mode, and it dates the first write of that active stretch. |
| Quota.CallLog.RecordCall | src/api_quota.py:61-117 | Insert, prune and marker update leave exactly the specified log and marker. |
| Quota.CallLog.CountCalls24h | src/api_quota.py:120-135 | The counting loop returns the specified 24-hour count and changes nothing. |
| Quota.CallLog.DaikinCircuitOpen | src/api_quota.py:252-293 | The breaker query returns the specified answer: enough writes, none successful, a tight burst, cooldown not over. |
| Quota.CallLog.BlocksCalls | src/api_quota.py:238-245 | A call is blocked exactly when the budget is used up or, for the heat pump, the breaker is open. |
| AutoTune.Store.WriteSetting | src/runtime_settings.py:1606-1662 | Validation, cross-check, write and hook give exactly the specified state; the lock holder never re-acquires, because it only writes as an actor whose hook returns first. |
| AutoTune.Store.DeleteSetting | src/runtime_settings.py:1665-1693 | Drops a stored value, if there is one, and hands the previous value and the default now in force to the hook; no check is made. |
| AutoTune.Store.OnManualChange | src/auto_tune.py:495-532 | The hook skips internal actors before the lock, restores the owner's value, inserts the manual row and supersedes the running changes of the key. |
| AutoTune.Store.UndoBatchManual | src/auto_tune.py:535-549 | Re-opens exactly the rows closed by the newest manual row of that batch and deletes that row, or does nothing when there is none among the newest five. |
| AutoTune.Store.ProposeChange | src/auto_tune.py:382-478 | In place, the sequential step whose outcome AppliedIff and RefusalIsFirstFailing give in the inputs' own terms: a refusal, or the write and the new evaluating row; on a failed insert the old value is written back. |
| AutoTune.Store.RollBack | src/auto_tune.py:553-595 | Restores the old value and marks the row only when the row is the newest of its key and the setting still holds its value. |
| AutoTune.Store.KeepChange | src/auto_tune.py:610-617 | Only an evaluating row can be kept, and nothing else changes. |
| AutoTune.Store.FreezeByKey | src/auto_tune.py:620-645 | Extends the newest row of the key, or records a manual row that pins the current value, or that there is none. |
| AutoTuneRuns.ReferenceOfTrail | src/auto_tune.py:277-284 | The drift reference depends only on which rows of a key are manual and on their values, not on the statuses of automated rows. |
| AutoTuneRuns.DeleteNewest | src/auto_tune.py:543-549 | Deleting the newest row of a key removes exactly its last history entry and leaves the history of every other key alone. |
| AutoTuneBase.ProposeEffect | src/auto_tune.py:415-478 | An applied proposal adds one automated row on top, within one step and the drift cap of the reference, with nothing else running. |
| AutoTuneGates.AppliedIff | src/auto_tune.py:397-478 | A proposal is applied exactly when it passes each of eighteen gates stated over the inputs (enabled, allowed, legal, unpinned, different, nothing evaluating, unfrozen, one step, within the cap, owner home, five baseline days, comfort settings apart, insert); then the value is in force and one evaluating row says so. |
| AutoTuneGates.RefusalIsFirstFailing | src/auto_tune.py:397-475 | A refusal names the first gate that fails, in the source's order, and changes nothing, except that a failed insert leaves the new value exactly when the old one could not be put back. |
| AutoTuneGates.LegalMeans | src/runtime_settings.py:1481-1523 | What a key may take: a number within its bounds, cut towards zero for an int, an option of its enum, or any text. |
| AutoTuneGates.RestoredIff | src/auto_tune.py:560-595 | A rollback restores exactly when the row is evaluating or kept, has an old value, is the newest of its key, its value is in force and the old one acceptable; otherwise nothing changes. |
| AutoTuneGates.RollbackFreezes | src/auto_tune.py:589-593 | After a rollback no proposal of the key is applied for exactly the days configured, whatever else it sees. |
| AutoTuneGates.OwnerFreezes | src/auto_tune.py:519-524 | After an owner's value is recorded, likewise, for the owner's freeze. |
| AutoTuneGates.KeyFreezes | src/auto_tune.py:624-642 | A freeze by key reaches the key's newest row, or pins the value in force, and no proposal of the key is applied until it runs out; negative days freeze nothing. |
| AutoTuneGates.KeptIff | src/auto_tune.py:610-617 | Keep succeeds exactly on an evaluating row, and changes that row's status and evidence only. |
| AutoTuneBase.StoreEffect | src/auto_tune.py:495-532 | An owner's value that comes into force, by a write or by a delete, adds one manual row and closes the running ones when it is recorded, and no row otherwise. |
| AutoTuneDrift.UndoEffect | src/auto_tune.py:535-549 | The undo of an open batch write restores the prior value and removes the row that write recorded, if it recorded one. |
| AutoTuneBase.StepKeeps | src/auto_tune.py:382-645 | Every event, in any state, keeps ids in order, values typed and denylisted keys without automated or owner's rows. |
| AutoTuneBase.StepCoherent | src/runtime_settings.py:1606-1693 | Every event keeps a store in which each setting passes its own validation and its cross-check against the others, except exactly a delete whose default does not pass them. |
| AutoTuneDrift.DriftCapHolds | src/auto_tune.py:434-440 | In every reachable state a capped key with ledger rows is within its cap of the newest manual value, else of the oldest automated old value, on every run that does not move that key between a batch write of it and the undo and has no harmful no-op entry of it. |
| AutoTuneSingle.SingleEvaluating | src/auto_tune.py:424-425 | At most one evaluating row, with only the owner's rows after it, in every state of every run that applies no proposal between a batch write and its undo and has no harmful no-op entry; owner writes, pins, rollbacks and verdicts are free. |
| AutoTuneSingle.ProposeThenRollbackOnRuns | src/auto_tune.py:571-595 | In every state of every run, an applied proposal and its rollback give the settings back, and leave one row more, rolled back, exactly when the value before the proposal passes its cross-check; otherwise the rollback is refused. On runs from settings that agree, with defaults that fit, it always goes through. |
| AutoTuneUndo.UndoRestoresOnRuns | src/auto_tune.py:535-549 | In every state of a run with one change at a time, a recorded batch write followed by its undo restores every setting and every row, except that the re-opened change has lost its evidence, exactly when the store would accept the value before the batch; otherwise the undo changes nothing. However many changes of the key were closed before. |
| AutoTuneUndo.NoOpUndoIsHarmlessIff | src/auto_tune.py:506-549 | A batch entry that changes nothing and its undo are harmless exactly when none of the newest five manual rows of the key came from that batch. |
| AutoTuneUndo.NoOpUndoBreaksDriftCap | src/auto_tune.py:535-549 | A concrete run in which that undo deletes the owner's latest decision and the value ends outside the drift cap. |
| AutoTuneUndo.NoOpUndoReopensBesideAnother | src/auto_tune.py:543-547 | A concrete run, then that write and undo, after which two changes are evaluating at once. |
| AutoTuneUndo.ProposalWhileOpenRunsTwo | src/auto_tune.py:543-547 | A concrete run that applies a proposal while a batch write waits, whose undo leaves two changes evaluating. |
| AutoTuneUndo.OwnerWriteWhileOpenBreaksCap | src/auto_tune.py:535-549 | A concrete run with an owner write between a batch write and its undo, which ends outside the drift cap. |
| AutoTuneUndo.PinnedDeniedKeyEscapesCap | src/auto_tune.py:630-636 | A concrete run in which a pinned denylisted key leaves its drift cap because owner writes to it are not recorded. |
| AutoTuneUndo.RollbackAfterDeleteIsRefused | src/runtime_settings.py:1688-1692 | A concrete run from settings that agree: after a delete of the setpoint a change of it is applied, and its rollback is refused. |
| AutoTuneBatch.FailedBatchRestoresIff | src/api/main.py:5038-5059 | From any typed settings, undoing the written entries in their order gives every setting back exactly when the store would have accepted each old value before the batch and no entry has to be put back beside a later entry's value that refuses it; with the first alone, such an entry keeps its new value and nothing else does. |
| AutoTuneBatch.FailedBatchBackwards | src/api/main.py:5051-5057 | Undoing them last entry first gives every setting back exactly when the store would have accepted each old value before the batch. |
| AutoTuneBatch.BackwardsIsBest | src/api/main.py:5051-5057 | If any order of undoing gives every setting back, last entry first does. |
| AutoTuneBatch.FailedBatchCanStick | src/api/main.py:5051-5057 | A concrete batch of ceiling and setpoint whose undo leaves the raised ceiling behind. |
| LockOwner.OwnerWins | src/auto_tune.py:505-530 | On every interleaving the setting holds the value written, or the default of a delete, from the hook's restore until the freeze expires: for a write of every key outside the comfort pair, and otherwise when before it no automated change can move the key, or for a write the counterpart to a value that refuses the owner's. |
| LockLosses.OwnerWinsIff | src/auto_tune.py:512-521 | Over all keys, writes and deletes, and both answers to that check, the race is won on every trace exactly for the checked actions and for the writes of keys outside the pair. |
| LockLosses.ComfortKeyCanLose | src/auto_tune.py:512-521 | For each of the two comfort keys a sound start and a trace on which the hook completes and freezes the key with the owner's value gone. |
| LockLosses.DeleteCanLose | src/runtime_settings.py:1674-1692 | For every key a sound start and a trace on which a proposal writes between the removal and the read, and the hook records and freezes its value. |
| LockProtocol.RestoredUnlessRefused | src/auto_tune.py:512-530 | While the hook holds the lock after its restore the setting holds the value it was given or one beside which the validator refuses that, completing the hook moves nothing, and a value left in place stays until the freeze expires; what the step does to the rows is HookLeavesNoneRunning. |
| LockProtocol.NoAutomatedWriteUnderFreeze | src/auto_tune.py:426-428 | After the hook, no proposal or rollback step that writes the key is enabled until the freeze expires, and no step changes the value. |
| LockProtocol.SingleEvaluatingInterleaved | src/auto_tune.py:415-478 | At most one evaluating row under every interleaving of the locked sections and the unlocked status updates. |
| LockProtocol.HookSkipsIff | src/runtime_settings.py:1642-1661 | On every trace: if the value stored when the owner's write reads it is already the owner's, the hook never records; if it is not, the hook is never skipped. |
| LockProtocol.SkippedValueStands | src/auto_tune.py:502-507 | After a skip the owner's value stands on every trace on which no automated thread writes the key. |
| LockLosses.SkippedValueIsOverwritten | src/auto_tune.py:502-507 | A concrete trace on which one does: a proposal past its re-read overwrites the value after the hook was skipped, and nothing is frozen. |
| LockLosses.StaleReadSkipsHook | src/runtime_settings.py:1642-1661 | A concrete interleaving in which the previous value is read before a racing write, so that the owner's hook sees no change and records nothing. |
| LockProtocol.SoloProposalIsPropose | src/auto_tune.py:415-478 | The step-by-step proposal, run with nobody else moving, is the sequential one: same state, lock released. |
| LockProtocol.SoloRollbackIsRollback | src/auto_tune.py:571-595 | Likewise the rollback. |
| LockHook.SoloOwnerIsHook | src/runtime_settings.py:1642-1693 | The owner's steps with nobody else moving are the sequential write, or delete, with its hook: same settings, same rows, lock free; the hook completes exactly when the value is accepted and differs. |
| LockHook.SoloHook | src/auto_tune.py:495-530 | From the write on, whatever value is in force by then, the hook's steps are the sequential hook, restore of an overtaken value included. |
| LockHook.SoloKeepIsKeep | src/auto_tune.py:610-617 | Likewise a keep. |
| LockHook.RollbackStartsOrRefused | src/auto_tune.py:560-570 | A rollback that does not get as far as the lock is one the sequential verb refuses. |
| LockHook.OvertakenProposalStops | src/auto_tune.py:447-449 | A proposal that finds another value on its re-read is over, with nothing written and the lock free. |
| LockHook.HookLeavesNoneRunning | src/auto_tune.py:525-528 | On every trace, completing the hook closes each row running on the key in favour of the owner's row and leaves every other row and setting alone; from then until the freeze expires no row of the key is evaluating. |
| LockHook.HookClosesNewestTwenty | src/auto_tune.py:525-528 | From any world, with any number of rows running: exactly the newest twenty of the key are closed. |
| Feedback.Dedupe | src/auto_tune_judge.py:186-193 | The loop computes the greedy selection of the sorted reports. |
| Feedback.DedupeIsOptimal | src/auto_tune_judge.py:186-193 | The deduplicated reports are pairwise at least the gap apart, cover every report within the gap, and no separated selection is larger. |
| Feedback.Burst | src/auto_tune_judge.py:211-217 | The loop returns the first window that holds the trip count, else nothing. |
| Feedback.BurstIff | src/auto_tune_judge.py:211-217 | On separated reports the burst fires exactly when two of them share a window. |
| Feedback.BurstNames | src/auto_tune_judge.py:211-217 | It names exactly the reports of the first window that holds two. |
| Feedback.BurstOnRawReports | src/auto_tune_judge.py:186-217 | If it fires, two raw reports at least the gap apart lie within the window; if two such reports lie within the window less the gap, it fires. |
| Feedback.PredictionStreak | src/auto_tune_judge.py:318-334 | The learned-parameter wire fires exactly when two consecutive calendar days exceed the limit. |
| Judge.IntentMatchesClass | src/auto_tune_judge.py:151-174 | A comfort-feedback change is judged under the new, lower floors exactly when a cold or shower wire is armed for it, though proposer and judge read the direction separately. |
| Judge.UndoFlipsClass | src/auto_tune_judge.py:151-174 | Undoing a loosening change tightens (or, for the ceiling, goes to the warm side), undoing a tightening or warm-side one loosens. |
| Judge.Decide | src/auto_tune_judge.py:481-577 | The failed clauses listed are exactly the allowances exceeded, and the verdict is keep exactly when there is none. |
| Judge.BetterNeverRollsBack | src/auto_tune_judge.py:519-577 | Doing at least as well on every measure never turns a keep into a rollback, for every intent. |
| Judge.BandsScale | src/auto_tune_judge.py:500-503 | A cost or comfort drift of the same size per day is judged the same over one to seven days, for every clause with a proportional allowance. |
| Judge.FullWeekRules | src/auto_tune_judge.py:481-577 | Over a full week no clause is violated exactly when the change did what its intent promises, in pence, hours, shower days, cold reports and prediction error. |
| Judge.DefaultTradeOffBandShrinksTwice | src/auto_tune_judge.py:518-520 | The default trade-off comfort allowance is proportional only for the full week; on fewer days it is below its share. |
| JudgeRuns.VerdictLocked | src/auto_tune_judge.py:724-761 | In place, the step that RunJudges spells out: tripwires first, then wait, retry, defer, or the verdict on the replayed week. |
| JudgeRuns.VerdictFor | src/auto_tune_judge.py:584-681 | The verdict decides on the replayed week, with the intent and the expected comfort cost of the row, and a wire that tripped since beats a keep. |
| JudgeRuns.RunJudges | src/auto_tune_judge.py:724-782 | A replayed week of at least four days is kept exactly when no clause is violated and no wire has tripped, and is rolled back or closed otherwise; the row is put off exactly when nothing was replayed though the replay was free, and kept undecided the fourth time; a taken replay counts a retry; before the week is over, or with the house empty, nothing changes. |
| JudgeRuns.IdleRunIsNothing | src/auto_tune_judge.py:374-385 | Switched off, or with nothing evaluating, a run changes nothing. |
| JudgeRuns.JudgedAsProposed | src/auto_tune_judge.py:177-182 | A change is judged with the intent and the expected comfort it was proposed with, or by its source and direction. |
| JudgeRuns.RollBackOrClose | src/auto_tune_judge.py:388-412 | A rollback, or when it is refused a terminal close of the row. |
| JudgeRuns.RunRulesOneRow | src/auto_tune_judge.py:724-782 | One run touches one row, and a setting only when it rolls back; only the judged row changes. |
| JudgeRuns.VerdictProgress | src/auto_tune_judge.py:737-761 | Every deciding run closes the row or uses up a deferral; waiting and busy runs leave the counter alone. |
| JudgeRuns.EvaluationEnds | src/auto_tune_judge.py:744-751 | Over any history in which no undo re-opens it, a row that is still evaluating has been deferred once per deciding run and at most three times. |
| JudgeRuns.SoleEvaluatingIsJudged | src/auto_tune_judge.py:374-385 | With one evaluating row every enabled run judges that row. |
| Apply.EvaluateCandidates | src/auto_tune_apply.py:233-254 | The loop over the stable sort returns its first eligible row and a reason for every candidate. |
| Apply.ChosenIsBest | src/auto_tune_apply.py:239-253 | The chosen row is the best eligible one in verdict order, saving and comfort cost, ties going to the one listed first; none only if none is eligible. |
| Apply.EligibleIff | src/auto_tune_apply.py:171-230 | A candidate is eligible exactly when its key may be tuned, its verdict fits the week's feedback and numbers, and its value is still the reviewed one, a step away, not frozen and not against the comfort job. |
| Apply.BetterMeans | src/auto_tune_apply.py:238-242 | The order of the choice: recommendations, comfort, trade-offs; then the larger saving, except among comfort changes; then the fewer hours below the floor. |
| Apply.SelectionImpliesProposable | src/auto_tune_apply.py:171-230 | Seeing the same state and time, the ledger never refuses the chosen row as not allowlisted, denylisted, unchanged, a step too large, frozen or changed, and as busy only when a change is running. |
| Apply.WeeklyQuotaUsed | src/auto_tune_apply.py:99-112 | The loop counts the automated changes of the week among the newest two hundred. |
| Apply.QuotaSpentIff | src/auto_tune_apply.py:99-112 | The quota is spent exactly when some automated change of any source was applied this week; the row limit never hides one. |
| Apply.ApplyWeekly | src/auto_tune_apply.py:393-464 | The weekly run performs exactly the specified step on the store. |
| Apply.WeeklyAppliesBest | src/auto_tune_apply.py:393-464 | The run applies exactly when it is enabled and ready, the week is unspent and its best suggestion passes every gate of the ledger; it then records that one with the verdict's intent, and otherwise, unless an insert failed, changes nothing. |
| Apply.OneChangeAWeek | src/auto_tune_apply.py:408-409 | A run applies only in a week without an automated change, what it applies spends the week, and in a spent week it leaves the ledger untouched. |
| Apply.OneChangeAWeekOnRuns | src/auto_tune_apply.py:408-464 | Over any history of weekly runs and ledger events under a clock that never runs backwards, at most one weekly run a week applies a change. |
| Apply.NextApplyAt | src/auto_tune_apply.py:129-142 | The next run is the first matching instant after now, at most a week ahead, so the source's fall-through is unreachable. |
| DhwSchedule.DetectNegativeWindows | src/dhw_policy.py:111-155 | The filter, sort and grouping loops compute the specified windows. |
| DhwSchedule.WindowsAreNegativeRuns | src/dhw_policy.py:138-155 | For distinct half-hourly rates in any order the windows are ordered, never touch, and contain a slot exactly when its price is negative. |
| DhwSchedule.DeferWarmup | src/dhw_policy.py:1199-1208 | The loop computes the specified chain. |
| DhwSchedule.DeferIsLeast | src/dhw_policy.py:1199-1208 | The chain finds the least start at or after the warmup such that no window still to end opens within the lead. |
| DhwSchedule.DeferredSpanIsCool | src/dhw_policy.py:1199-1208 | Every deferred slot is inside a paid window or among the whole pre-cool slots before one, even for a fractional lead. |
| DhwSchedule.StandoffStaysClearIff | src/dhw_policy.py:1218-1223 | The stand-off step leaves the start clear of paid windows exactly when the deferred start is outside the stand-off, or every window that comes within the lead by moving to its end is over by then. |
| DhwSchedule.StandoffDoesNotRechain | src/dhw_policy.py:1218-1223 | A concrete day on which it does not. |
| DhwSchedule.GenerateDailyTankSchedule | src/dhw_policy.py:1038-1300 | The loops return the rows that PaidSlotsAreBoosted, RecoveryBoosts, AnyDayMatchesForecast, AnyGuestDay and SilentDays are about, with the past-date guard and the boosts-only recovery. |
| DhwPaid.PaidSlotsAreBoosted | src/dhw_policy.py:1285-1293 | On any day, normal or with guests, a slot of the cycle with a negative price has exactly one boost row in force, powerful, over just its paid window, at the highest temperature allowed; any other slot has none. |
| DhwPaid.RecoveryBoosts | src/dhw_policy.py:1133-1151 | Recovering a running cycle returns exactly the boost rows of the windows not yet over, in order, and nothing else. |
| DhwPaid.SilentDays | src/dhw_policy.py:1080-1100 | A holiday has no rows, a past day none unless asked for, and one asked for is the day it was. |
| DhwPaid.BoostsMatchForecast | src/dhw_policy.py:1113-1117 | A slot of the cycle is boosted exactly when the forecast is paid for it, at the rounded target the forecast heats towards. |
| DhwPaid.AnyDayMatchesForecast | src/dhw_policy.py:1185-1283 | With any prices, outside the stand-off: nothing but boosts before the deferred start, then exactly one other row at the forecast's rounded target, the setback lowered to the pre-cool target exactly ahead of a paid window with no shower before it. |
| DhwPaid.AnyGuestDay | src/dhw_policy.py:1248-1265 | With guests and any prices: nothing but boosts before the deferred start, then one powerful row at the forecast's target. |
| DhwSchedule.ScheduleMatchesForecast | src/dhw_policy.py:1918-1946 | On a day without paid windows, at every slot from one warmup to the next outside the stand-off, exactly one row is in force and it commands the forecast's rounded target, with early setbacks, bogus early keys and deferred warmups. |
| DhwSchedule.GuestsMatchForecast | src/dhw_policy.py:1248-1265 | With guests, too: outside the stand-off exactly one row is in force all day, at the forecast's target, and no early key changes that. |
| DhwSchedule.DaysTile | src/dhw_policy.py:1125-1159 | Over any run of days each slot outside the stand-off is commanded by exactly one row of exactly one day's schedule. |
| DhwClock.EarlyThenStandoff | src/dhw_policy.py:1706-1766 | In phase and in target, a fired early setback rules the rest of its day, showers and stand-off included; otherwise the stand-off has its own temperature and only showers draw more than setback in it. |
| DhwClock.RoundIsNearest | src/dhw_policy.py:1107-1117 | A commanded temperature is the nearest whole degree, of two as near the even one. |
| DhwPasses.LiftFill | src/dhw_policy.py:1858-1871 | The in-place loop equals the specified fill. |
| DhwPasses.FillIsExact | src/dhw_policy.py:1858-1875 | The fill adds the smaller of budget and room up to 1e-9, and leaves a residual only when the room is used up. |
| DhwPasses.FillIsGreedy | src/dhw_policy.py:1858-1871 | Only open slots change, never above the cap, each only after all earlier open slots are full. |
| DhwPasses.WarmCredit | src/dhw_policy.py:1896-1903 | The in-place loop equals the specified credit. |
| DhwPasses.CreditIsExact | src/dhw_policy.py:1896-1903 | The credit removes exactly the smaller of itself and the whole load. |
| DhwPasses.CreditIsGreedy | src/dhw_policy.py:1896-1903 | Loads only shrink, never below zero, and a slot is touched only when every earlier one is spent. |
| DhwBoost.NegativeRuns | src/dhw_policy.py:1965-1976 | The scan returns the maximal runs of negative prices: in order, apart, and covering exactly the negative slots. |
| DhwBoost.Precool | src/dhw_policy.py:1979-1986 | The in-place loop caps exactly the slots of the pre-cool span that are not shower slots. |
| DhwBoost.BoostRamp | src/dhw_policy.py:1987-2004 | The in-place loop writes exactly the ramp's temperatures and energies. |
| DhwBoost.PrecoolAndBoost | src/dhw_policy.py:1978-2004 | All windows in order equal the composed passes. |
| DhwRamp.RampClosedForm | src/dhw_policy.py:1995-2004 | The ramp is the straight line from the entry to the target up to 1e-6 and never falls. |
| DhwRamp.EnergyCoversRise | src/dhw_policy.py:1995-2004 | Each boost slot budgets the energy of its planned rise up to 1e-6 degrees. |
| DhwRamp.RampEnergyFitsIff | src/dhw_policy.py:1996-2002 | A boost slot fits the cap except exactly when it holds the target with a holding energy above the cap. |
| DhwRamp.EveryRampFitsIff | src/dhw_policy.py:1997-2002 | For a configuration, every ramp of every length fits the cap if and only if the holding energy does. |
| DhwRamp.LongWindowBreaks | src/dhw_policy.py:1996-2000 | When it does not, from any tank temperature some window length ends over the cap, whatever the plan was. |
| DhwRamp.BoostRampHolds | src/dhw_policy.py:1978-2004 | In the final plan, at every boundary of a window that later pre-cools cannot reach: from an entry at or below the target the closed form, a temperature that never falls and budgets that cover the rises; from an entry above it the target. |
| DhwRamp.PrecooledStaysCool | src/dhw_policy.py:1979-1986 | After all paid windows, and before the firmware cycle's budget, a pre-cooled slot is at setback and at maintenance energy; no other window warms it again. |
| DhwRamp.LeftAloneStays | src/dhw_policy.py:1978-2004 | A slot that is neither paid nor in a pre-cool span, or in which somebody showers, keeps its load, and its temperature unless it follows a window. |
| DhwRamp.EnergyIsRiseAndLoss | src/dhw_policy.py:1996-2003 | A boost slot budgets its rise plus the standing loss as far as the heater can draw it, and at the target the holding energy. |
| DhwRamp.WindowsWithin | src/dhw_policy.py:1978-2004 | All windows together keep every load between zero and the cap when the holding energy fits. |
| DhwForecast.ForecastLoads | src/dhw_policy.py:1589-2036 | The whole chain of passes returns n loads and n+1 temperatures equal to the composed specification, every load within the cap when the holding energy fits. |
| DhwForecast.ForecastFits | src/dhw_policy.py:1777-1825 | Feasibility for every horizon, price line, tank start, decision and non-negative shape table. |
| DhwForecast.EveryPaidSlotIsRun | src/dhw_policy.py:1947-1976 | Except on holiday, with a price for every slot, a slot is in a boosted window exactly when its price is negative. |
| DhwForecast.AddLifts | src/dhw_policy.py:1836-1877 | The loop over dates equals the lift that LiftedSlot and DayGainsLift are about. |
| DhwLift.LiftedSlot | src/dhw_policy.py:1836-1871 | Before the warm credit a slot differs from its capped phase load only in normal mode, on a date whose decision boosts above normal, from the warmup hour to the setback hour, never past the cap, and only once every earlier slot of that window is full. |
| DhwLift.DayGainsLift | src/dhw_policy.py:1843-1875 | Each such date gains the smaller of its decision's energy and the room in its window, up to 1e-9; every other date gains nothing. |
| DhwLift.WarmthIsSpent | src/dhw_policy.py:1884-1903 | The warm tank takes off the smaller of the energy its heat spares and the whole load, first slots first. |
| DhwLift.CreditMatchesRamp | src/dhw_policy.py:1888-1893 | The credit for a degree is what the ramp into a paid window would budget for it. |
| DhwLift.VacationIsIdle | src/dhw_policy.py:1731-1775 | On holiday every slot before the firmware's cycle is without load and at setback, whatever the prices. |
| DhwForecast.CycleIsBudgeted | src/dhw_policy.py:2022-2034 | The slots of the schedule's own stand-off window together carry at least the cycle's budget, or all the heater can draw in them. |
| DhwForecast.CycleRaisesItsShare | src/dhw_policy.py:2022-2034 | Only stand-off slots are raised, never past the heater, and a raised slot carries exactly its share of the budget, or all the heater can draw. |
| DhwAgreement.DeferredSpanIsForecastCool | src/dhw_policy.py:1190-1208 | Every slot the schedule defers the warmup over is paid for, a shower slot, or returned by the forecast at setback and at maintenance energy, unless the firmware's own cycle draws its share in it. |
| DhwAgreement.RunOfWindow | src/dhw_policy.py:1965-1976 | Each window of the schedule after the warmup is the start of a run of the forecast, though the two scan separately. |
| DhwShape.NominalDailyTotal | src/dhw_policy.py:1325-1365 | The nominal walk is the sum of the nominal day. |
| DhwShape.NominalBucketShares | src/dhw_policy.py:1368-1408 | The bucket walk returns the nominal day's two-hour shares. |
| DhwShape.NominalMatchesPhases | src/dhw_policy.py:1731-1777 | The nominal walk and the forecast's classifier give every slot of a plain day the same load. |
| DhwShape.ForecastIsNominal | src/dhw_policy.py:1767-1825 | The forecast of a plain day is the nominal day, scaled, times the factor of its two-hour bucket, as far as the heater can draw it in half an hour. |
| DhwShape.HeaterMatchesPhases | src/dhw_policy.py:1979-2004 | Around paid windows a cooled slot draws what a setback slot does and a held one what maintenance does. |
| DhwShape.BySlotsOrBuckets | src/dhw_policy.py:1385-1407 | Weighting by slots or by buckets is the same sum. |
| DhwShape.ShapeKeepsDailyTotal | src/dhw_bias.py:297-313 | On a plain 48-slot day, shaping every slot by its normalised factor leaves the daily total exactly as it was, for every partial table of positive factors. |
| DhwWarmup.PriceAndRealMaps | src/dhw_policy.py:455-486 | The loop returns the price map, later rows winning, and the slots that are not priors. |
| DhwWarmup.RealMeans | src/dhw_policy.py:455-486 | A slot is real exactly when some row that is no prior starts with it. |
| DhwWarmup.WindowFullyReal | src/dhw_policy.py:489-516 | True exactly when the window is not empty and both half slots of each of its hours are real. |
| DhwWarmup.PriceAwarePick | src/dhw_policy.py:519-564 | The loop computes the specified pick. |
| DhwWarmup.PickIsBest | src/dhw_policy.py:535-558 | Every earlier hour is strictly dearer than the pick and no hour cheaper by more than 1e-9; no pick only when nothing is priced. |
| DhwWarmup.PickIsEarliestCheapestIff | src/dhw_policy.py:519-558 | On any prices the pick is the earliest cheapest hour exactly when the hour picked among those before it is dearer by more than 1e-9. |
| DhwWarmup.ClearlyCheapestIsPicked | src/dhw_policy.py:519-534 | So it is whenever every earlier hour is dearer by more than 1e-9, whatever the later ones cost. |
| DhwWarmup.PickIsEarliestCheapest | src/dhw_policy.py:519-534 | In particular when different means differ by more than 1e-9. |
| DhwWarmup.PickCanMissCheapest | src/dhw_policy.py:556-557 | Two hours half of 1e-9 apart, of which the dearer one is picked. |
| DhwWarmup.PickCanSkipNearTie | src/dhw_policy.py:556-557 | Three means closer than that, on which an earlier hour within 1e-9 of the cheapest is passed over. |
| DhwWarmup.KvStore.ResolveWarmupHour | src/dhw_policy.py:584-627 | Persisted value first, then the real-window gate, the shadow row, and with the feature on the persisted hour and the sweep. |
| DhwWarmup.KvStore.SweepStaleKeys | src/dhw_policy.py:241-267 | Removes exactly the keys more than seven days old. |
| DhwWarmup.KvStore.PersistEarlySetback | src/dhw_policy.py:383-396 | The first write wins, and only the winner is told so. |
| DhwWarmup.ReadsChangeAtMostOnce | src/dhw_policy.py:442-452 | Over any run with any price feeds, the hour read for a date and its early setback change at most once before they are swept. |
| DhwWarmup.PersistedHourIsDrawn | src/dhw_policy.py:607-627 | A persisted hour was there at the start or was drawn by a resolve of that date, inside the window, from a fully real feed, as its best hour. |
| DhwWarmup.ResolveIsRead | src/dhw_policy.py:584-627 | What a resolve answers is what every reader of the date sees afterwards; a date with an hour is left alone whatever later feeds say; with the feature on one is drawn exactly from a fully real window. |
| Accumulators.RatioIsBetween | src/dhw_bias.py:159-172 | A key is present exactly when something was observed for it, and its ratio of sums lies between the smallest and the largest observed ratio. |
| DhwBias.UsableRows | src/dhw_bias.py:118-156 | The filter loop keeps exactly the usable rows, with the de-biased forecast. |
| DhwBias.ComputeBucketBias | src/dhw_bias.py:187-206 | Filter, accumulation, day gate and clamp give the specified table. |
| DhwBias.LearnsOnlyFromRaw | src/dhw_bias.py:150-156 | Whatever positive factors were in force on each day, the same days teach the same table, so refreshing never compounds. |
| DhwBias.FactorIsBetween | src/dhw_bias.py:159-184 | A factor is in the clamp and is the clamp of a value between the smallest and the largest row ratio of its bucket. |
| DhwBias.LearntIff | src/dhw_bias.py:131-184 | A bucket has a factor exactly when clean rows of it, whose forecast before the factor in force was large enough, fall on enough distinct days. |
| LoadBias.LocalHourBias | src/load_bias.py:44-83 | The loop accumulates exactly the usable low-heat-pump rows. |
| LoadBias.RawBiasIsBetween | src/load_bias.py:86-93 | The measured bias is the clamp of a value between the smallest and the largest error of the hour. |
| LoadBias.MeasuredIff | src/load_bias.py:58-93 | An hour is measured exactly when slots with both energies large enough and little heat pump in them fall on enough distinct days. |
| LoadBias.BiasTable.Refresh | src/load_bias.py:96-149 | Measured hours are nudged or warm-started, the others keep their stored correction. |
| LoadBias.ErrorShrinks | src/load_bias.py:116-123 | Against a steady bias in the clamp one refresh never changes the sign of the error and shrinks it by at least half the damping, by exactly the damping when the measurement is not clamped. |
| LoadBias.ErrorConverges | src/load_bias.py:96-131 | Over any number of refreshes the error keeps its sign and is bounded by a geometric sequence. |

## Left out

- Storage, transport and display: SQLite, the key-value tables' text encoding, the notifier, Telegram, action logs, APScheduler, HTTP, message texts, labels and settings overlays. Specified store methods stand for them; `evaluated_at` stamps, warnings and log rows are not recorded.
- The fallback of the call log when its table does not exist yet, and every other swallowed exception except the failed ledger insert.
- Time zones and daylight saving: local clocks have a fixed offset, dates and hours are arithmetic on it, and day totals are for 48-slot days.
- Text handling of keys and values: upper-casing, stripping, parsing and the round trip through the database; the denylist is a given set of keys, settings values are numbers or symbols.
- Ledger rows are ordered by id; the source sorts by the applied time first. The two orders differ only when a thread takes its time before another row is inserted and inserts after it; on one key a freeze of at least a day rules that out for proposals.
- Clearing an in-memory override after a rollback, the exceptions inside the equality test of two values, and a failing insert of the owner's own manual row.
- A delete: whether a stored value is there to drop is given, and the default is any value of its key's type; a default that cannot be read at all, for which the source puts 0, is not modelled.
- Writes by the internal actors `vacation_end` and `comfort_feedback_auto_tune`, which leave no row: no run has them, and one on a key with rows would move it outside its drift cap.
- The optimiser, the replay, weather and tank physics: replay results, comfort cards, tripwire events, lift energies of the tank model and the auto-scale factor are inputs.
- The comparison of holding and boosting that sets a day's decision: only the resulting decision record is read. The energy of a boost decision is the recorded one or the tank model's, given as a function.
- The overlap test of showers with the span before a paid window (it parses a text schedule): given as a predicate of the span.
- `src/config.py`, `src/dhw_boost.py`, `src/daikin_bulletproof.py`, `src/dhw_demand.py` and the scripts and user interface.
- The baseline metrics and scorecards behind a proposal are the number of baseline days; the shower and peak-import wires of the judge are inputs.
- JudgeRuns.EvaluationEnds: excludes the undo that re-opens the row, because that wipes its deferral counter; the bound then holds again from the re-opening.
- AutoTuneDrift.DriftCapHolds: claims nothing for denylisted keys, after a harmful no-op entry is undone, or when the key is moved between a batch write of it and the undo; that these break it is shown by example, not for every such run.
- LockOwner.OwnerWins: claims the value. That nothing of the key is left evaluating is LockHook.HookLeavesNoneRunning; beyond that keep and the status update of a rollback run outside the lock and may relabel a superseded row. The guard is exact over keys and answers to the check, not for each single ledger: a step or a cap can keep an open counterpart from ever getting in the way.
- LockProtocol: the owner's freeze is at least a day, and a settings write checks and stores in one step. LockProtocol.HookSkipsIff is about writes; a delete's hook goes by the value read after the removal.
- AutoTuneBatch: the reordering of the vacation pair before a batch.
- Apply.NextApplyAt: fixed-offset clock, so the repeated or missing hour of a clock change is not modelled.
- LoadBias.ErrorConverges: the unrounded correction; the source rounds stored values to four decimals.
- DhwRamp.BoostRampHolds: windows that a later pre-cool reaches are excluded, because that pre-cool overwrites their boost.
