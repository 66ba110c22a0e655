# medtimer in Dafny

A model of the core of medtimer, an Android interval meditation timer, with proofs about the model. The app runs a countdown, then a number of equal intervals. A bell rings at the start and at each interval boundary, and a final bell rings at the end. Finished or kept sessions go into a table, and the history can be exported as CSV.

The model covers:

- the timer service `MeditationTimerService`: its fields, its three polling coroutines, pause and resume, stop and finish, and the notification's time text;
- the view model `MeditationViewModel`: the published UI-state record, its guarded operations, the callback handlers, the save rule and the CSV export;
- the `Session` record and its text forms;
- the `SessionDao` table, given by its SQL;
- the `NumberPicker` stepping and the `TimerDisplay` text.

## How the model is built

The same state is modelled twice, as values and as objects, and each object method is proved equal to its value function.

**Timer service**

- `TimerEngine` (`timer_engine.dfy`) holds the service's fields as a value `Engine`.
  - Each operation is a function that returns a `Step`: the new fields plus the outward calls made, in order. The outward calls are `Event`s: callbacks, bells, white-noise commands and notification texts.
  - Each coroutine is a `Job` that carries the loop's local variables: the `elapsedRealtime` anchor, `lastSecond` and `lastIntervalCheck`.
  - One iteration of a polling loop is one `Tick` at a `Clock` reading. A tick includes the loop's `break` and the code after the loop.
- `TimerService.MeditationTimerService` (`timer_service.dfy`) is the class itself. It has the same fields and an `events` log.
  - Every method is proved to change the fields as the matching `TimerEngine` function does, and to append exactly that function's events.

**View model**

- `UiModel` (`view_model_state.dfy`) models the view model on values: `App(ui, service, table)`.
  - `service` is `None` while `timerService` is null.
  - The service's callbacks reach the handlers in the order the service issued them (`Deliver`).
- `ViewModel.MeditationViewModel` (`view_model.dfy`) is the class, holding the record, a nullable service object and the DAO object.
  - Every method is proved to move `Snapshot()` exactly as the matching `UiModel` function does.
  - `Deliver` is a loop over the service's event log.
  - `ExportSessionsCsv` is the `StringBuilder` loop.

**Proofs**

- `TimerEngineProperties` (`timer_engine_properties.dfy`) proves what the loops do tick by tick: the clock relation, bells, catch-up, stalls, pause and resume, reports, and whole runs.
- `UiModelProperties` (`view_model_properties.dfy`) proves:
  - the save rule;
  - the invariant that couples the record, the service and the table, preserved by every operation;
  - what each operation promises;
  - the export's line structure;
  - a run from the default settings.

**Smaller modules**

- `Text` holds the decimal rendering and parsing used by the string templates (`"$n"`) and Kotlin's `split`. The same rendering stands for Java's `%d` and `%02d` only under a default locale that writes ASCII digits (see Left out below).
- `KotlinInt` holds Kotlin's `*` on two variables and its truncating `/` and `%`. They are defined by repeated addition and subtraction, and lemmas relate them to Dafny's operators.

### Behaviour of the code as written

These behaviours come out of the code, and the model keeps them:

- **No tick on entering MEDITATING.** The service reports MEDITATING without a tick, so the record keeps the 0 the countdown ended on until the first meditation second is published. Stopping and keeping the session in that second stores the full length of the run (1680 s with the defaults), although no time has passed (`UiModelProperties.StopAndKeepDefault`).
- **Running path needs an exact sample.** A bell rings only when a sample lands exactly on a multiple of the interval length. A sample past the end at a non-multiple changes nothing (`MeditationOverrunStalls`), so the run stalls until a later sample lands exactly on a multiple of the interval length (`MeditationFinishRule`). Such a late finish publishes no second, so the stored session is the run's length minus the second the record still shows (`UiModelProperties.OverrunFinishStoresRest`). A sample on the last second itself publishes 0 first and stores the full length (`UiModelProperties.OnTimeFinishStoresTotal`).
- **Countdown can stall.** The countdown publishes only seconds that are not negative, and its loop ends only when the published second is 0 (MeditationTimerService.kt:134-145). A sample that skips second 0 is never applied, so the countdown stays positive and never starts the meditation (`CountdownFollowsClock`).
- **Resumed path can stall.** A resumed meditation whose samples skip its last second stays stuck (`ResumeStalls`). Catching up over several boundaries rings one bell (`ResumeCatchUp`).
- **Stale pause flag.** Stopping while paused leaves `isPaused` set. A bound service that is started again then cannot be paused (`StalePauseFlag`). The view model never reaches this state: `confirmStop` always unbinds after `stopTimer` (MeditationViewModel.kt:193-200, 226-242), and `UiModel.StopService` drops the service.
- **Unclamped volume.** The view model clamps the volume it shows but passes the raw value to the service (`VolumeRule`).
- **Lagging interval count.** The record's `intervalsCompleted` lags one tick behind a bell, because the bell's new count is published only with the next second.

The two meditation paths decide bells differently. The running path rings only when the sampled elapsed second is an exact multiple of the interval length (MeditationTimerService.kt:191). The resumed path counts the intervals covered by the total time elapsed, so it catches up over boundaries it did not sample (MeditationTimerService.kt:263-265).

## Model

| member | source | states |
|---|---|---|
| TimerService.MeditationTimerService.constructor | app/src/main/java/com/medtimer/app/service/MeditationTimerService.kt:67-75 | a new service is IDLE with zeroed settings, no timestamps, not paused, no coroutine and no outward calls |
| TimerService.MeditationTimerService.StartCountdown | app/src/main/java/com/medtimer/app/service/MeditationTimerService.kt:117-153 | the intent's settings are stored; the service is in COUNTDOWN from the configured value with nothing completed and no timestamps; a countdown coroutine is anchored at the clock; one COUNTDOWN report without timestamps is sent |
| TimerService.MeditationTimerService.StartMeditation | app/src/main/java/com/medtimer/app/service/MeditationTimerService.kt:155-176 | opening bell, white noise only for a positive volume, timestamps from the clock, MEDITATING with the full run length and nothing completed, a meditation coroutine anchored at the clock, then the MEDITATING report with the timestamps |
| TimerService.MeditationTimerService.CountdownPass | app/src/main/java/com/medtimer/app/service/MeditationTimerService.kt:134-151 | one countdown iteration: the second count is the configured value minus whole elapsed seconds, published with a tick and a notification only when new and not negative; at 0 the meditation starts |
| TimerService.MeditationTimerService.PublishSecond | app/src/main/java/com/medtimer/app/service/MeditationTimerService.kt:183-188 | a new, non-negative second count becomes current and is sent as a tick plus the "m:ss remaining" text; otherwise nothing changes |
| TimerService.MeditationTimerService.MeditationCheck | app/src/main/java/com/medtimer/app/service/MeditationTimerService.kt:190-213 | the interval check of a meditation iteration, as the engine's: on a due boundary the count and the last check are set, then the final bell and finish or an interval bell; then the loop test |
| TimerService.MeditationTimerService.ResumeCheck | app/src/main/java/com/medtimer/app/service/MeditationTimerService.kt:262-284 | the catch-up check of a resumed iteration, as the engine's: the count rises to (total minus current) divided by the interval with the final bell and finish or one interval bell; then the loop test |
| TimerService.MeditationTimerService.MeditationPass | app/src/main/java/com/medtimer/app/service/MeditationTimerService.kt:178-213 | one meditation iteration, as the engine's pass: second count, the exact-multiple bell test, final bell and finish, or loop exit |
| TimerService.MeditationTimerService.ResumePass | app/src/main/java/com/medtimer/app/service/MeditationTimerService.kt:250-284 | one resumed iteration, as the engine's pass: second count from the paused value, catch-up of the completed intervals, one bell, final bell and finish, or loop exit |
| TimerService.MeditationTimerService.EndPass | app/src/main/java/com/medtimer/app/service/MeditationTimerService.kt:206-213 | stores the coroutine's locals; at zero seconds the loop is left, and the code after the loop runs |
| TimerService.MeditationTimerService.LoopExit | app/src/main/java/com/medtimer/app/service/MeditationTimerService.kt:149-151 | after a loop: the countdown starts the meditation and the meditation finishes with the final bell, each only if still in its phase; otherwise the coroutine simply ends |
| TimerService.MeditationTimerService.FinishSession | app/src/main/java/com/medtimer/app/service/MeditationTimerService.kt:298-305 | white noise off, FINISHED, one `onFinished`, no coroutine |
| TimerService.MeditationTimerService.Tick | app/src/main/java/com/medtimer/app/service/MeditationTimerService.kt:130-285 | one pass of whichever coroutine runs, as the engine's tick; it keeps the invariant at a clock not earlier than the last published second |
| TimerService.MeditationTimerService.SetWhiteNoiseVolume | app/src/main/java/com/medtimer/app/service/MeditationTimerService.kt:217-220 | the volume is stored as given and passed on to the player |
| TimerService.MeditationTimerService.PauseTimer | app/src/main/java/com/medtimer/app/service/MeditationTimerService.kt:226-232 | only an unpaused meditation is paused: flag set, seconds remembered, coroutine cancelled; keeps the invariant |
| TimerService.MeditationTimerService.ResumeTimer | app/src/main/java/com/medtimer/app/service/MeditationTimerService.kt:234-241 | only a paused meditation resumes, from the remembered seconds, with a new coroutine; keeps the invariant |
| TimerService.MeditationTimerService.ResumeMeditationTimer | app/src/main/java/com/medtimer/app/service/MeditationTimerService.kt:243-248 | replaces the coroutine by a resumed one anchored at the clock and at the current seconds |
| TimerService.MeditationTimerService.StopTimer | app/src/main/java/com/medtimer/app/service/MeditationTimerService.kt:288-296 | coroutine cancelled, white noise off, IDLE, and an IDLE report carrying the run's timestamps uncleared |
| TimerEngine.Tick | app/src/main/java/com/medtimer/app/service/MeditationTimerService.kt:130-285 | a pass never changes the settings, the volume or the pause bookkeeping |
| TimerEngine.MeditationCheckCases | app/src/main/java/com/medtimer/app/service/MeditationTimerService.kt:190-206 | after the second is published, a meditation pass ends in one of three ways: the final bell and finish when a due boundary completes the run, an interval bell and the rest of the pass when a due boundary does not, or just the rest of the pass |
| TimerEngine.ResumeCheckCases | app/src/main/java/com/medtimer/app/service/MeditationTimerService.kt:262-277 | after the second is published, a resumed pass ends in one of three ways: the final bell and finish when the catch-up count reaches the run's intervals, one interval bell when it rises below that, or just the rest of the pass |
| TimerEngine.StartCountdownInv | app/src/main/java/com/medtimer/app/service/MeditationTimerService.kt:117-132 | starting with usable settings on an unpaused service gives a valid COUNTDOWN state |
| TimerEngine.StartMeditationInv | app/src/main/java/com/medtimer/app/service/MeditationTimerService.kt:155-176 | starting the meditation gives a valid MEDITATING state |
| TimerEngine.CountdownPassInv | app/src/main/java/com/medtimer/app/service/MeditationTimerService.kt:134-151 | a countdown pass keeps the invariant and never raises the seconds within the phase |
| TimerEngine.MeditationPassInv | app/src/main/java/com/medtimer/app/service/MeditationTimerService.kt:178-213 | a meditation pass keeps the invariant and never raises the seconds within the phase |
| TimerEngine.ResumePassInv | app/src/main/java/com/medtimer/app/service/MeditationTimerService.kt:250-284 | a resumed pass keeps the invariant and never raises the seconds within the phase |
| TimerEngine.TickInv | app/src/main/java/com/medtimer/app/service/MeditationTimerService.kt:130-285 | every pass keeps the invariant (phase, timestamps, second bounds, completed intervals, pause iff no coroutine while meditating) |
| TimerEngine.PauseResumeInv | app/src/main/java/com/medtimer/app/service/MeditationTimerService.kt:226-248 | pausing and resuming keep the invariant |
| TimerEngineProperties.CountdownFollowsClock | app/src/main/java/com/medtimer/app/service/MeditationTimerService.kt:134-151 | before the countdown's end the seconds are the configured value minus whole elapsed seconds, with a tick exactly when they change; at the end the meditation starts with the full length, nothing completed, the clock's timestamps, one bell and the MEDITATING report; a sample past the end changes nothing |
| TimerEngineProperties.ZeroCountdownStartsAtOnce | app/src/main/java/com/medtimer/app/service/MeditationTimerService.kt:134-151 | a zero countdown starts the meditation on its first pass |
| TimerEngineProperties.EmptyRunFinishesAtOnce | app/src/main/java/com/medtimer/app/service/MeditationTimerService.kt:166-213 | a meditation whose run length is not positive (an interval of 0) enters MEDITATING, and its first pass skips the loop and finishes with the final bell, white noise off and `onFinished` |
| TimerEngineProperties.CountdownNeverFinishes | app/src/main/java/com/medtimer/app/service/MeditationTimerService.kt:130-152 | a countdown pass rings no final bell, never finishes, and stays in COUNTDOWN or enters MEDITATING |
| TimerEngineProperties.MeditationFollowsClock | app/src/main/java/com/medtimer/app/service/MeditationTimerService.kt:179-188 | before the run's end the seconds are the total minus whole elapsed seconds, and the run does not finish |
| TimerEngineProperties.IntervalBellRule | app/src/main/java/com/medtimer/app/service/MeditationTimerService.kt:191-204 | an interval bell rings iff the sampled second is positive, a multiple of the interval, past the last boundary and before the end; at most one per pass; the completed count becomes the elapsed seconds divided by the interval |
| TimerEngineProperties.BellOncePerBoundary | app/src/main/java/com/medtimer/app/service/MeditationTimerService.kt:191-193 | a second sample of the same elapsed second after a bell rings no bell |
| TimerEngineProperties.MeditationFinishRule | app/src/main/java/com/medtimer/app/service/MeditationTimerService.kt:191-213 | a meditation pass finishes iff the sampled second is at or past the end and a multiple of the interval; it ends with final bell, white noise off and `onFinished`; otherwise it stays MEDITATING |
| TimerEngineProperties.MeditationOverrunStalls | app/src/main/java/com/medtimer/app/service/MeditationTimerService.kt:183-206 | a sample past the end that is not a multiple of the interval changes nothing |
| TimerEngineProperties.PauseFreezes | app/src/main/java/com/medtimer/app/service/MeditationTimerService.kt:226-232 | pausing remembers the current seconds, a second pause changes nothing, and a paused service's passes do nothing |
| TimerEngineProperties.PauseResumeOutsideMeditation | app/src/main/java/com/medtimer/app/service/MeditationTimerService.kt:226-241 | outside MEDITATING, pause and resume change nothing |
| TimerEngineProperties.PauseThenResume | app/src/main/java/com/medtimer/app/service/MeditationTimerService.kt:226-248 | pause then resume gives back the state with a resumed coroutine anchored at the paused seconds; a second resume changes nothing |
| TimerEngineProperties.ResumeFollowsClock | app/src/main/java/com/medtimer/app/service/MeditationTimerService.kt:251-260 | after resuming, the seconds are the paused value minus whole elapsed seconds |
| TimerEngineProperties.ResumeCatchUp | app/src/main/java/com/medtimer/app/service/MeditationTimerService.kt:262-275 | the completed count catches up to (total minus current) divided by the interval; a bell rings iff it rose, at most one per pass |
| TimerEngineProperties.ResumeFinishesOnlyAtZero | app/src/main/java/com/medtimer/app/service/MeditationTimerService.kt:262-284 | a resumed meditation finishes iff the sample lands exactly on its last second |
| TimerEngineProperties.ResumeStalls | app/src/main/java/com/medtimer/app/service/MeditationTimerService.kt:250-278 | a sample past the last second, with the count caught up, changes nothing |
| TimerEngineProperties.StopTimerRule | app/src/main/java/com/medtimer/app/service/MeditationTimerService.kt:288-296 | stop leaves IDLE with no coroutine, turns the white noise off and reports IDLE with the old timestamps; the result is valid iff the service was not paused |
| TimerEngineProperties.StoppedStaysIdle | app/src/main/java/com/medtimer/app/service/MeditationTimerService.kt:288-291 | after a stop no pass does anything, so a stopped countdown never reaches MEDITATING |
| TimerEngineProperties.StalePauseFlag | app/src/main/java/com/medtimer/app/service/MeditationTimerService.kt:223-232 | a service stopped while paused and started again meditates with the pause flag set, and pausing it does nothing |
| TimerEngineProperties.RunFinishesOnce | app/src/main/java/com/medtimer/app/service/MeditationTimerService.kt:298-305 | over passes at non-decreasing clocks the invariant holds and `onFinished` is sent at most once, as the last call, leaving FINISHED |
| TimerEngineProperties.TickEndsOnFinished | app/src/main/java/com/medtimer/app/service/MeditationTimerService.kt:298-305 | a pass reports `onFinished` iff it enters FINISHED, and then as its last call |
| TimerEngineProperties.TickNeverRises | app/src/main/java/com/medtimer/app/service/MeditationTimerService.kt:135-143 | the seconds never go negative during a run and never rise within a phase |
| TimerEngineProperties.TickReports | app/src/main/java/com/medtimer/app/service/MeditationTimerService.kt:149-169 | a pass that keeps the phase sends no phase report and keeps the timestamps; one that changes it sends exactly one, naming the new phase and timestamps, or `onFinished` |
| TimerEngineProperties.CountdownReports | app/src/main/java/com/medtimer/app/service/MeditationTimerService.kt:134-151 | the same for a countdown pass |
| TimerEngineProperties.MeditationReports | app/src/main/java/com/medtimer/app/service/MeditationTimerService.kt:178-213 | the same for a meditation pass |
| TimerEngineProperties.ResumeReports | app/src/main/java/com/medtimer/app/service/MeditationTimerService.kt:250-284 | the same for a resumed pass |
| TimerEngineProperties.StopReports | app/src/main/java/com/medtimer/app/service/MeditationTimerService.kt:288-292 | stop sends exactly one phase report: IDLE with the old timestamps |
| TimerEngineProperties.StartCountdownReports | app/src/main/java/com/medtimer/app/service/MeditationTimerService.kt:121-127 | start sends exactly one phase report: COUNTDOWN without timestamps |
| TimerEngineProperties.FormatTimeRoundTrip | app/src/main/java/com/medtimer/app/service/MeditationTimerService.kt:364-368 | the notification's time text reads back as the seconds it was made from (minutes, colon, two-digit seconds); below ten minutes it is four characters long |
| TimerEngineProperties.RemainingNoticeReadsBack | app/src/main/java/com/medtimer/app/service/MeditationTimerService.kt:187 | the meditation notification text is the time text followed by " remaining", and that time text reads back as the seconds |
| UiModel.IntervalSeconds | app/src/main/java/com/medtimer/app/MeditationViewModel.kt:52-53 | for a picker value of at least 1, one interval lasts at least that many seconds |
| UiModel.TotalMeditationSeconds | app/src/main/java/com/medtimer/app/MeditationViewModel.kt:45-50 | the total is the interval length times the number of intervals in both modes |
| UiModel.StateOf | app/src/main/java/com/medtimer/app/MeditationViewModel.kt:99-104 | each service phase maps to the record phase of the same name, and only that one |
| UiModel.Clamp | app/src/main/java/com/medtimer/app/MeditationViewModel.kt:143 | the volume is forced into [0, 1], unchanged inside it and the nearer end outside |
| UiModel.SessionToSave | app/src/main/java/com/medtimer/app/MeditationViewModel.kt:207-219 | there is a session to save iff both timestamps are set and total minus shown seconds is positive; it carries that difference and the timestamps |
| UiModelProperties.SaveRule | app/src/main/java/com/medtimer/app/MeditationViewModel.kt:207-224 | saving adds exactly one row (the session with a fresh key) when there is a session to save and leaves the table otherwise; the record and service do not change |
| UiModelProperties.OnEventRule | app/src/main/java/com/medtimer/app/MeditationViewModel.kt:86-116 | a handler keeps the settings and service; a tick does not change the phase, timestamps or table; a phase report sets the phase and timestamps it names; only `onFinished` writes the table |
| UiModelProperties.DeliverRule | app/src/main/java/com/medtimer/app/MeditationViewModel.kt:86-116 | a run of callbacks keeps the settings and service; without phase reports it keeps the view and the table; with one, the view is what that report sets |
| UiModelProperties.InitialAppInv | app/src/main/java/com/medtimer/app/MeditationViewModel.kt:32-43 | the defaults satisfy the invariant and lie in the pickers' ranges |
| UiModelProperties.DeliverStep | app/src/main/java/com/medtimer/app/MeditationViewModel.kt:86-116 | handling what a service step reports keeps the record coupled to the service |
| UiModelProperties.ServiceTickInv | app/src/main/java/com/medtimer/app/MeditationViewModel.kt:86-116 | a pass of the bound service, with its callbacks, keeps the invariant |
| UiModelProperties.StartInv | app/src/main/java/com/medtimer/app/MeditationViewModel.kt:150-180 | start keeps the invariant |
| UiModelProperties.StopAndResetRule | app/src/main/java/com/medtimer/app/MeditationViewModel.kt:226-253 | stopping the service and resetting leaves no service, an IDLE record without dialog, the settings and the table as they were |
| UiModelProperties.RequestStopInv | app/src/main/java/com/medtimer/app/MeditationViewModel.kt:182-191 | the stop request keeps the invariant |
| UiModelProperties.ConfirmStopInv | app/src/main/java/com/medtimer/app/MeditationViewModel.kt:193-200 | confirming the stop keeps the invariant |
| UiModelProperties.DismissStopDialogInv | app/src/main/java/com/medtimer/app/MeditationViewModel.kt:202-205 | dismissing the dialog keeps the invariant |
| UiModelProperties.SetWhiteNoiseVolumeInv | app/src/main/java/com/medtimer/app/MeditationViewModel.kt:142-148 | the volume setter keeps the invariant |
| UiModelProperties.SettersInv | app/src/main/java/com/medtimer/app/MeditationViewModel.kt:118-140 | the setters keep the invariant for the values the pickers can send |
| UiModelProperties.DeleteSessionInv | app/src/main/java/com/medtimer/app/MeditationViewModel.kt:255-265 | deleting one or all sessions keeps the invariant |
| UiModelProperties.RunInv | app/src/main/java/com/medtimer/app/MeditationViewModel.kt:118-265 | any sequence of operations and service passes with a non-decreasing clock and picker-range values keeps the invariant |
| UiModelProperties.StoredSessionsLast | app/src/main/java/com/medtimer/app/MeditationViewModel.kt:207-224 | from a new view model, every stored session lasted at least a second and has its own key, and the record is IDLE whenever no service is bound |
| UiModelProperties.SettersRule | app/src/main/java/com/medtimer/app/MeditationViewModel.kt:118-140 | each setter changes only its own field, and only in IDLE; the service and table are untouched |
| UiModelProperties.StartRule | app/src/main/java/com/medtimer/app/MeditationViewModel.kt:150-171 | start does nothing outside IDLE; from IDLE the record shows a countdown from the configured value with nothing completed and no timestamps, and the service counts down with the interval in seconds and the record's total as its run length |
| UiModelProperties.RequestStopRule | app/src/main/java/com/medtimer/app/MeditationViewModel.kt:182-191 | in MEDITATING the service is paused at its current seconds and the dialog shown, the phase kept; in COUNTDOWN the record goes to IDLE, no session is saved and the service is dropped; otherwise nothing happens |
| UiModelProperties.ConfirmStopRule | app/src/main/java/com/medtimer/app/MeditationViewModel.kt:193-200 | both answers end in IDLE without dialog or service and keep the settings; discarding stores nothing; keeping applies the save rule with the shown (paused) seconds, storing a meditation iff they are below the total |
| UiModelProperties.StopDialogRoundTrip | app/src/main/java/com/medtimer/app/MeditationViewModel.kt:182-205 | a stop request then dismissing the dialog gives back the record and service, with the service counting down again from the paused seconds |
| UiModelProperties.ResetRule | app/src/main/java/com/medtimer/app/MeditationViewModel.kt:244-253 | reset keeps the settings and volume, clears phase, seconds, count, dialog and timestamps, and a second reset changes nothing |
| UiModelProperties.VolumeRule | app/src/main/java/com/medtimer/app/MeditationViewModel.kt:142-148 | the record gets the clamped volume and nothing else changes; a meditating service gets the raw value, which differs from the record's exactly outside [0, 1] |
| UiModelProperties.SplitLines | app/src/main/java/com/medtimer/app/MeditationViewModel.kt:271-273 | the row lines split at line breaks into one row text per session, in order |
| UiModelProperties.ExportLines | app/src/main/java/com/medtimer/app/MeditationViewModel.kt:267-275 | the export is the header line, one `toCsvRow` line per listed session in listing order, each ended by a line break |
| UiModelProperties.CountdownEndsSilently | app/src/main/java/com/medtimer/app/MeditationViewModel.kt:94-110 | with the defaults, the pass that ends the countdown shows MEDITATING with the timestamps but still 0 seconds |
| UiModelProperties.CountdownLastPass | app/src/main/java/com/medtimer/app/MeditationViewModel.kt:150-171 | with the defaults, start leaves a countdown from 10 bound to the record; the pass at ten seconds sends the 0 tick, its notification, the opening bell and the MEDITATING report, and leaves the service meditating with the full 1680 seconds |
| UiModelProperties.FirstMeditationTick | app/src/main/java/com/medtimer/app/MeditationViewModel.kt:87-92 | one second into that meditation the record shows 1679 seconds |
| UiModelProperties.StopAndKeepDefault | app/src/main/java/com/medtimer/app/MeditationViewModel.kt:207-224 | stopping and keeping such a meditation stores 1680 minus the shown seconds: 1680 before the first tick, 1 after it |
| UiModelProperties.DeliverShows | app/src/main/java/com/medtimer/app/MeditationViewModel.kt:87-92 | before `onFinished`, the record shows the seconds of the last tick handed over, or its old seconds when there is none |
| UiModelProperties.FinishComesFromMeditation | app/src/main/java/com/medtimer/app/service/MeditationTimerService.kt:134-151 | only a pass of a meditation can end the session |
| UiModelProperties.FinishPassShape | app/src/main/java/com/medtimer/app/service/MeditationTimerService.kt:298-305 | a pass that ends the session comes from a meditation with timestamps, reports `onFinished` last, and makes no phase report before it |
| UiModelProperties.FinishDelivery | app/src/main/java/com/medtimer/app/MeditationViewModel.kt:112-115 | quiet callbacks then `onFinished` leave the record IDLE with no timestamps and add exactly one row of the run's length minus the shown second when that is positive, none otherwise |
| UiModelProperties.FinishStoresSession | app/src/main/java/com/medtimer/app/MeditationViewModel.kt:207-224 | when a service pass ends the session, the record ends IDLE without timestamps and the table gains exactly one row with the service's date and start time lasting the run's length minus the second shown when `onFinished` arrives, or no row when that is not positive |
| UiModelProperties.OnTimeFinishStoresTotal | app/src/main/java/com/medtimer/app/service/MeditationTimerService.kt:183-198 | a session sampled exactly at its last second stores its full length |
| UiModelProperties.OverrunFinishStoresRest | app/src/main/java/com/medtimer/app/service/MeditationTimerService.kt:183-198 | a session finished by a sample past its end stores its length minus the second the record still shows |
| TimerEngineProperties.OnTimeFinish | app/src/main/java/com/medtimer/app/service/MeditationTimerService.kt:183-198 | a pass at the total's own second publishes 0, then the final bell, white noise off and `onFinished` |
| TimerEngineProperties.OverrunFinish | app/src/main/java/com/medtimer/app/service/MeditationTimerService.kt:183-198 | a pass past the total at a multiple of the interval publishes no second and ends with the final bell, white noise off and `onFinished`, keeping the last published second |
| ViewModel.MeditationViewModel.constructor | app/src/main/java/com/medtimer/app/MeditationViewModel.kt:56-69 | a new view model has the default record, no service and the database's table |
| ViewModel.MeditationViewModel.SaveSession | app/src/main/java/com/medtimer/app/MeditationViewModel.kt:207-224 | inserts the session to save, if any |
| ViewModel.MeditationViewModel.Reset | app/src/main/java/com/medtimer/app/MeditationViewModel.kt:244-253 | the record is reset as `UiModel.Reset` says |
| ViewModel.MeditationViewModel.OnEvent | app/src/main/java/com/medtimer/app/MeditationViewModel.kt:86-116 | one callback changes the record and table as its handler does |
| ViewModel.MeditationViewModel.Deliver | app/src/main/java/com/medtimer/app/MeditationViewModel.kt:86-116 | the service's callbacks since a position in its log are handled in order |
| ViewModel.MeditationViewModel.StopService | app/src/main/java/com/medtimer/app/MeditationViewModel.kt:226-242 | the service is stopped with its report handled, then unbound |
| ViewModel.MeditationViewModel.Connect | app/src/main/java/com/medtimer/app/MeditationViewModel.kt:72-78 | on connection the record receives the service's current seconds and completed count; the phase argument is ignored |
| ViewModel.MeditationViewModel.SetCountdownSeconds | app/src/main/java/com/medtimer/app/MeditationViewModel.kt:118-122 | as `UiModel.SetCountdownSeconds` |
| ViewModel.MeditationViewModel.SetIntervalMinutes | app/src/main/java/com/medtimer/app/MeditationViewModel.kt:124-128 | as `UiModel.SetIntervalMinutes` |
| ViewModel.MeditationViewModel.SetNumIntervals | app/src/main/java/com/medtimer/app/MeditationViewModel.kt:130-134 | as `UiModel.SetNumIntervals` |
| ViewModel.MeditationViewModel.ToggleDebugMode | app/src/main/java/com/medtimer/app/MeditationViewModel.kt:136-140 | as `UiModel.ToggleDebugMode` |
| ViewModel.MeditationViewModel.SetWhiteNoiseVolume | app/src/main/java/com/medtimer/app/MeditationViewModel.kt:142-148 | as `UiModel.SetWhiteNoiseVolume` |
| ViewModel.MeditationViewModel.Start | app/src/main/java/com/medtimer/app/MeditationViewModel.kt:150-180 | as `UiModel.Start`; a service is created when none is bound |
| ViewModel.MeditationViewModel.RequestStop | app/src/main/java/com/medtimer/app/MeditationViewModel.kt:182-191 | as `UiModel.RequestStop` |
| ViewModel.MeditationViewModel.ConfirmStop | app/src/main/java/com/medtimer/app/MeditationViewModel.kt:193-200 | as `UiModel.ConfirmStop`; no service remains |
| ViewModel.MeditationViewModel.DismissStopDialog | app/src/main/java/com/medtimer/app/MeditationViewModel.kt:202-205 | as `UiModel.DismissStopDialog` |
| ViewModel.MeditationViewModel.ServiceTick | app/src/main/java/com/medtimer/app/MeditationViewModel.kt:86-116 | one pass of the bound service's coroutine, with its callbacks handled |
| ViewModel.MeditationViewModel.DeleteSession | app/src/main/java/com/medtimer/app/MeditationViewModel.kt:255-259 | the table loses the session's key |
| ViewModel.MeditationViewModel.ClearAllSessions | app/src/main/java/com/medtimer/app/MeditationViewModel.kt:261-265 | the table is emptied |
| ViewModel.MeditationViewModel.ExportSessionsCsv | app/src/main/java/com/medtimer/app/MeditationViewModel.kt:267-275 | the text built is the CSV of the table's listing: header line, then one row line per session |
| SessionRecord.NewSession | app/src/main/java/com/medtimer/app/data/Session.kt:10-15 | a new record has key 0 (not yet assigned) and the given fields |
| SessionRecord.DurationPartsRecombine | app/src/main/java/com/medtimer/app/data/Session.kt:35-36 | minutes times 60 plus seconds is the duration, the seconds part lies strictly between -60 and 60, and for a non-negative duration both parts are non-negative |
| SessionRecord.FormattedDurationRoundTrip | app/src/main/java/com/medtimer/app/data/Session.kt:33-42 | the duration text ("Mm Ss" or "Ss", seconds unpadded) reads back as the duration |
| SessionRecord.FormattedDurationShowsMinutes | app/src/main/java/com/medtimer/app/data/Session.kt:37-41 | the text has a minutes part iff the duration is at least a minute |
| SessionRecord.CsvRowFields | app/src/main/java/com/medtimer/app/data/Session.kt:44-46 | for comma-free date and time, the row splits at commas into date, start time and the duration, which parses back |
| SessionRecord.CsvHeaderColumns | app/src/main/java/com/medtimer/app/data/Session.kt:48-49 | the header has the three columns date, start_time, elapsed_seconds, in the row's order |
| SessionRecord.HeaderHasNoBreak | app/src/main/java/com/medtimer/app/data/Session.kt:49 | the header is one line |
| SessionStore.KeyLeTotal | app/src/main/java/com/medtimer/app/data/SessionDao.kt:11 | any two rows are ordered by (date, startTime) |
| SessionStore.KeyLeTransitive | app/src/main/java/com/medtimer/app/data/SessionDao.kt:11 | the (date, startTime) order is transitive |
| SessionStore.Listing | app/src/main/java/com/medtimer/app/data/SessionDao.kt:11-15 | the listing holds exactly the table's rows, newest date first, then newest start time |
| SessionStore.InsertNew | app/src/main/java/com/medtimer/app/data/SessionDao.kt:17-18 | inserting a new record adds exactly one row under a fresh key that it returns; the count grows by one and the sum by its duration |
| SessionStore.InsertWithKey | app/src/main/java/com/medtimer/app/data/SessionDao.kt:17-18 | a record with a key is added under it, or refused with the table unchanged when the key exists |
| SessionStore.DeleteRemovesKey | app/src/main/java/com/medtimer/app/data/SessionDao.kt:20-21 | delete removes the row with the record's key and no other |
| SessionStore.DeleteAllEmpties | app/src/main/java/com/medtimer/app/data/SessionDao.kt:23-24 | after delete-all the listing is empty, the count 0 and the sum null |
| SessionStore.WithoutCount | app/src/main/java/com/medtimer/app/data/SessionDao.kt:20-21 | removing a present key removes one row; an absent key removes none |
| SessionStore.Table.TotalMeditationTime | app/src/main/java/com/medtimer/app/data/SessionDao.kt:26-27 | the sum is null exactly on an empty table |
| SessionStore.SessionDao.constructor | app/src/main/java/com/medtimer/app/data/SessionDao.kt:9-10 | a new table is empty |
| SessionStore.SessionDao.Insert | app/src/main/java/com/medtimer/app/data/SessionDao.kt:17-18 | the object's rows change as the table's insert says, keys staying unique |
| SessionStore.SessionDao.Delete | app/src/main/java/com/medtimer/app/data/SessionDao.kt:20-21 | the object's rows change as the table's delete says |
| SessionStore.SessionDao.DeleteAll | app/src/main/java/com/medtimer/app/data/SessionDao.kt:23-24 | the object's rows are emptied |
| SessionStore.SessionDao.GetAllSessions | app/src/main/java/com/medtimer/app/data/SessionDao.kt:11-12 | the live listing is in (date, startTime) descending order and holds exactly the rows |
| SessionStore.SessionDao.GetAllSessionsList | app/src/main/java/com/medtimer/app/data/SessionDao.kt:14-15 | the one-shot listing equals the live one |
| SessionStore.SessionDao.GetTotalMeditationTime | app/src/main/java/com/medtimer/app/data/SessionDao.kt:26-27 | the sum of the durations, or null for no rows |
| SessionStore.SessionDao.GetSessionCount | app/src/main/java/com/medtimer/app/data/SessionDao.kt:29-30 | the number of rows |
| NumberPicker.MinusClick | app/src/main/java/com/medtimer/app/ui/components/NumberPicker.kt:46 | the minus click emits iff the value is above the minimum, and then the value minus one |
| NumberPicker.PlusClick | app/src/main/java/com/medtimer/app/ui/components/NumberPicker.kt:73 | the plus click emits iff the value is below the maximum, and then the value plus one |
| NumberPicker.PressMinus | app/src/main/java/com/medtimer/app/ui/components/NumberPicker.kt:46-47 | pressing minus emits iff the button is enabled (enabled and above the minimum) |
| NumberPicker.PressPlus | app/src/main/java/com/medtimer/app/ui/components/NumberPicker.kt:73-74 | pressing plus emits iff the button is enabled (enabled and below the maximum) |
| NumberPicker.PressStaysInRange | app/src/main/java/com/medtimer/app/ui/components/NumberPicker.kt:46-74 | from a value in range every emission stays in range and differs by exactly one |
| TimerDisplay.MinutesAndSecs | app/src/main/java/com/medtimer/app/ui/components/TimerDisplay.kt:24-25 | minutes times 60 plus seconds is the input; for a non-negative input the seconds are in [0, 60) |
| TimerDisplay.TimeStringRoundTrip | app/src/main/java/com/medtimer/app/ui/components/TimerDisplay.kt:24-26 | the display text is two fields around a colon, at least two digits of minutes and exactly two of seconds, and reads back as the input |
| TimerDisplay.TimeStringExamples | app/src/main/java/com/medtimer/app/ui/components/TimerDisplay.kt:26 | 65 seconds shows "01:05"; 6000 shows "100:00" (minutes are not capped) |
| TimerDisplay.Color | app/src/main/java/com/medtimer/app/ui/components/TimerDisplay.kt:28 | the countdown colour iff counting down |
| TimerDisplay.Lines | app/src/main/java/com/medtimer/app/ui/components/TimerDisplay.kt:35-48 | a label line appears iff there is a label, before the time line |
| Text.IntToStringRoundTrip | app/src/main/java/com/medtimer/app/data/Session.kt:45 | the decimal text of an integer parses back to it |
| Text.PadTwoRoundTrip | app/src/main/java/com/medtimer/app/ui/components/TimerDisplay.kt:26 | the `%02d` text of a non-negative number parses back to it |
| KotlinInt.DivRem | app/src/main/java/com/medtimer/app/service/MeditationTimerService.kt:366 | Kotlin's quotient and remainder recombine to the dividend, and the remainder is smaller than the divisor in size |
| KotlinInt.NonNegative | app/src/main/java/com/medtimer/app/service/MeditationTimerService.kt:180 | on a non-negative dividend Kotlin's `/` and `%` agree with the floor quotient and remainder |
| KotlinInt.QuotientBounds | app/src/main/java/com/medtimer/app/service/MeditationTimerService.kt:180 | for a non-negative dividend, Kotlin's `/` is the floor quotient |
| KotlinInt.MultipleQuotient | app/src/main/java/com/medtimer/app/service/MeditationTimerService.kt:264 | a multiple of the divisor divides exactly, with the factor as quotient |
| KotlinInt.QuotientVersusFactor | app/src/main/java/com/medtimer/app/service/MeditationTimerService.kt:193-195 | the quotient is below n exactly when the dividend is below n divisors |
| KotlinInt.MulIsProduct | app/src/main/java/com/medtimer/app/service/MeditationTimerService.kt:166 | the repeated-addition product is the product |

## Left out

- TimerEngine.FormatTime, TimerDisplay.TimeString: `String.format` with no `Locale` writes digits from the default locale's zero digit (MeditationTimerService.kt:367, TimerDisplay.kt:26); the model writes ASCII digits, so these, `Text.PadTwo` and their round-trip lemmas (`FormatTimeRoundTrip`, `RemainingNoticeReadsBack`, `TimeStringRoundTrip`, `TimeStringExamples`, `PadTwoRoundTrip`) describe the app only under a default locale with ASCII digits, such as English. The `$n` templates do not depend on the locale.
- **Android service plumbing**: the foreground notification, notification channel, wake lock, `startForeground`/`stopSelf` and `onDestroy`. They are platform calls. Notification updates are kept as `Notify` events carrying a `Notice`; `TimerEngine.NoticeText` gives the text.
- **Intent decoding**: `onStartCommand`'s reading of the intent and its default extras. The view model always sends every extra, so the defaults never apply; `StartCountdown` takes the values directly. The `ACTION_STOP` intent is not modelled, because the view model never sends it.
- **Binding**: process start, binding and `onServiceDisconnected` are not modelled.
  - Binding is taken to complete right after `start` has run the start command. That start command's callbacks are lost, because the callback is not yet set.
  - `setCallback` then sends its tick. A service that is still bound, after a finished session, receives the start command with the callback set.
  - Unbinding drops the service, which then stops.
  - The actual order of Android's start and bind events may differ.
- **Coroutines and time**: `delay(100)`, `SystemClock` and the wall clock are not modelled. Each polling iteration is an explicit pass at a `Clock` reading: monotonic milliseconds plus the date and time-of-day texts. The dispatcher serialises everything, so no concurrency is modelled.
- **Audio**: bells and white noise are events only. `BellPlayer.kt` is not part of this model.
- **Room**: the DAO is an in-memory table. The asynchronous `viewModelScope.launch` insert and deletes happen immediately. `AppDatabase.kt` is not part of this model.
- **Dates and times**: the ISO date and time texts are opaque strings. `formattedDate` and `formattedStartTime` are not modelled, because they parse and re-format with platform patterns.
- **Volume type**: the volume is a `real`; float rounding is not modelled.
- **Integer width**: Kotlin's 32-bit `Int` overflow is not modelled. The values stay far below it for the pickers' ranges.
- **Negative interval length**: an interval length of 0 or below gives a run length of 0 or below, unless the interval count is negative too. The meditation loop is then skipped and the session finishes at once with the final bell (`TimerEngineProperties.EmptyRunFinishesAtOnce`), as the source does. A negative interval length together with a negative interval count gives a positive run length, and the loop's `%` then works with a negative divisor. The model's passes need a positive interval length, so `UiModel.ServiceTick` and `ViewModel.MeditationViewModel.ServiceTick` make no pass for such a service. The pickers never allow either value.
- **Simple getters**: the service's getters (`getCurrentState` and the rest) and `onCleared` are not modelled, because the core never calls the getters and `onCleared` only unbinds.
- **Screens**: `HomeScreen.kt`, `HistoryScreen.kt`, `MainActivity.kt`, the themes and `App.tsx` are not part of this model. The pickers' ranges (countdown 1–30, intervals 1–10, interval unit 1–15) appear only in `Feasible`, the premise of `UiModelProperties.RunInv` and `UiModelProperties.StoredSessionsLast`; `UiModelProperties.InitialAppInv` proves the defaults lie in them.
- UiModelProperties.SettersInv: states the invariant for setter values of at least 0 (countdown) or 1 (the others), not for any value, because the setters themselves accept any number.
- UiModel.SetWhiteNoiseVolume: the volume given to the service is the raw value, as the source passes it; the model does not clamp it.
