/**
 * What the view model keeps and promises: the phase it shows follows the
 * service's phase reports, every stored session is longer than zero
 * seconds, and each operation does what its guard says and no more.
 */
module UiModelProperties {
  import opened Wrappers
  import opened Text
  import KotlinInt
  import TE = TimerEngine
  import TP = TimerEngineProperties
  import opened SessionRecord
  import opened SessionStore
  import opened UiModel

  // ---------------------------------------------------------------------
  // Handling callbacks

  /** The part of the record a phase report sets. */
  function View(ui: MeditationUiState): (TimerState, Option<string>, Option<string>) {
    (ui.timerState, ui.sessionStartTime, ui.sessionDate)
  }

  /** The view a record shows after handling the phase report `e`. */
  function ViewAfter(e: TE.Event): (TimerState, Option<string>, Option<string>)
    requires TP.IsReport(e)
  {
    if e.OnFinished? then (Idle, None, None) else (StateOf(e.state), e.sessionStartTime, e.sessionDate)
  }

  /** The settings the user chose; no callback touches them. */
  predicate SameConfig(u: MeditationUiState, v: MeditationUiState) {
    u.countdownSeconds == v.countdownSeconds && u.intervalMinutes == v.intervalMinutes
    && u.numIntervals == v.numIntervals && u.debugMode == v.debugMode
    && u.whiteNoiseVolume == v.whiteNoiseVolume
  }

  /** A healthy table whose every session lasted some time. */
  ghost predicate TableOk(t: Table) {
    t.Valid() && forall i :: 0 <= i < |t.rows| ==> t.rows[i].elapsedSeconds > 0
  }

  /** `saveSession` adds one row exactly when there is a session to save, and keeps the table healthy. */
  lemma SaveRule(a: App)
    requires TableOk(a.table)
    ensures var r := SaveSession(a);
      && r.ui == a.ui && r.service == a.service
      && TableOk(r.table)
      && (SessionToSave(a.ui).None? ==> r.table == a.table)
      && (SessionToSave(a.ui).Some? ==>
            r.table.rows == a.table.rows + [SessionToSave(a.ui).value.(id := a.table.lastRowId + 1)]
            && r.table.SessionCount() == a.table.SessionCount() + 1)
  {
    if SessionToSave(a.ui).Some? {
      InsertNew(a.table, SessionToSave(a.ui).value);
    }
  }

  lemma {:induction false} OnEventRule(a: App, e: TE.Event)
    requires TableOk(a.table)
    ensures var r := OnEvent(a, e);
      && r.service == a.service && SameConfig(r.ui, a.ui) && TableOk(r.table)
      && (!TP.IsReport(e) ==> View(r.ui) == View(a.ui) && r.table == a.table)
      && (TP.IsReport(e) ==> View(r.ui) == ViewAfter(e))
      && (e.OnStateChange? ==> r.table == a.table)
  {
    SaveRule(a);
  }

  /**
   * Handling a run of callbacks keeps the settings and the service, keeps
   * the table healthy, and leaves the view the last phase report set (or
   * the old one when there is none). Only `onFinished` touches the table.
   */
  lemma {:induction false} DeliverRule(a: App, evs: seq<TE.Event>)
    requires TableOk(a.table)
    ensures var r := Deliver(a, evs);
      && r.service == a.service && SameConfig(r.ui, a.ui) && TableOk(r.table)
      && (TP.Reports(evs) == [] ==> View(r.ui) == View(a.ui) && r.table == a.table)
      && (|TP.Reports(evs)| == 1 ==> View(r.ui) == ViewAfter(TP.Reports(evs)[0]))
      && (|TP.Reports(evs)| == 1 && TP.Reports(evs)[0].OnStateChange? ==> r.table == a.table)
    decreases |evs|
  {
    if evs != [] {
      var init, e := evs[..|evs| - 1], evs[|evs| - 1];
      assert evs == init + [e];
      TP.ReportsAppend(init, [e]);
      assert [e][..0] == [];
      DeliverRule(a, init);
      OnEventRule(Deliver(a, init), e);
    }
  }

  // ---------------------------------------------------------------------
  // The invariant linking the record, the service and the table

  /** The settings a run needs; the pickers keep them far inside these bounds. */
  predicate ConfigUsable(ui: MeditationUiState) {
    ui.countdownSeconds >= 0 && ui.intervalMinutes >= 1 && ui.numIntervals >= 1
  }

  /** The ranges the home screen's pickers allow. */
  predicate InPickerRange(ui: MeditationUiState) {
    1 <= ui.countdownSeconds <= 30 && 1 <= ui.intervalMinutes <= 15 && 1 <= ui.numIntervals <= 10
  }

  /** The phase the record shows for a service phase: a finished session has already been reset. */
  function ShownPhase(s: TE.ServiceState): TimerState {
    if s == TE.Finished then Idle else StateOf(s)
  }

  /**
   * Without a service the record is IDLE. With one, the record shows the
   * service's phase, and during a run it has the service's timestamps and
   * the run's length.
   */
  predicate Coupled(ui: MeditationUiState, service: Option<TE.Engine>) {
    match service
    case None => ui.timerState == Idle
    case Some(e) =>
      ui.timerState == ShownPhase(e.state)
      && (e.state == TE.Countdown || e.state == TE.Meditating ==>
            ui.sessionStartTime == e.sessionStartTime && ui.sessionDate == e.sessionDate
            && ui.TotalMeditationSeconds() == TE.TotalSeconds(e))
  }

  ghost predicate AppInv(a: App) {
    TableOk(a.table) && ConfigUsable(a.ui) && Coupled(a.ui, a.service)
    && (a.service.Some? ==> TE.Inv(a.service.value))
  }

  /** The clock has not gone back since the service's last published second. */
  predicate ClockOk(a: App, now: TE.Clock) {
    a.service.Some? ==> TE.NotBefore(a.service.value, now)
  }

  lemma {:induction false} ClockLater(a: App, now: TE.Clock, later: TE.Clock)
    requires ClockOk(a, now) && now.elapsedRealtime <= later.elapsedRealtime
    ensures ClockOk(a, later)
  {
    if a.service.Some? {
      TE.NotBeforeLater(a.service.value, now, later);
    }
  }

  lemma InitialAppInv()
    ensures AppInv(InitialApp) && InPickerRange(InitialApp.ui)
  {
  }

  /** Handling what a step of the service reports keeps the invariant. */
  lemma {:induction false} DeliverStep(a: App, e: TE.Engine, r: TE.Step)
    requires TableOk(a.table) && ConfigUsable(a.ui) && a.service == Some(e) && Coupled(a.ui, a.service)
    requires TP.ReportsChange(e, r) && TE.Inv(r.next)
    requires r.next.intervalSeconds == e.intervalSeconds && r.next.numIntervals == e.numIntervals
    requires r.next.state == TE.Countdown || r.next.state == TE.Meditating ==>
               e.state == TE.Countdown || e.state == TE.Meditating
    ensures AppInv(Deliver(a.(service := Some(r.next)), r.emitted))
  {
    assert TE.TotalSeconds(r.next) == TE.TotalSeconds(e);
    var a1 := a.(service := Some(r.next));
    DeliverRule(a1, r.emitted);
    var d := Deliver(a1, r.emitted);
    if r.next.state != e.state {
      assert TP.Reports(r.emitted)[0] ==
             if r.next.state == TE.Finished then TE.OnFinished
             else TE.OnStateChange(r.next.state, r.next.sessionStartTime, r.next.sessionDate);
      assert View(d.ui) == ViewAfter(TP.Reports(r.emitted)[0]);
    }
    assert d.ui.TotalMeditationSeconds() == a.ui.TotalMeditationSeconds();
  }

  // ---------------------------------------------------------------------
  // Each operation keeps the invariant

  lemma {:induction false} ServiceTickInv(a: App, now: TE.Clock)
    requires AppInv(a) && ClockOk(a, now)
    ensures AppInv(ServiceTick(a, now)) && ClockOk(ServiceTick(a, now), now)
  {
    if a.service.Some? {
      var e := a.service.value;
      TE.TickInv(e, now);
      TP.TickReports(e, now);
      if e.state == TE.Idle || e.state == TE.Finished {
        assert TE.Tick(e, now).next == e;
      }
      DeliverStep(a, e, TE.Tick(e, now));
      DeliverRule(a.(service := Some(TE.Tick(e, now).next)), TE.Tick(e, now).emitted);
    }
  }

  lemma {:induction false} StartInv(a: App, now: TE.Clock)
    requires AppInv(a) && ClockOk(a, now)
    ensures AppInv(Start(a, now)) && ClockOk(Start(a, now), now)
  {
    if a.ui.timerState == Idle {
      var state := a.ui;
      var e0 := a.service.GetOr(TE.Created);
      assert TE.Inv(e0);
      TE.StartCountdownInv(e0, state.countdownSeconds, state.IntervalSeconds(), state.numIntervals,
                           state.whiteNoiseVolume, now);
      var step := TE.StartCountdown(e0, state.countdownSeconds, state.IntervalSeconds(), state.numIntervals,
                                    state.whiteNoiseVolume, now);
      var ui1 := state.(timerState := Countdown, currentSeconds := state.countdownSeconds,
                        intervalsCompleted := 0, sessionStartTime := None, sessionDate := None);
      var a1 := App(ui1, Some(step.next), a.table);
      assert AppInv(a1);
      if a.service.Some? {
        TP.StartCountdownReports(e0, state.countdownSeconds, state.IntervalSeconds(), state.numIntervals,
                                 state.whiteNoiseVolume, now);
        DeliverRule(a1, step.emitted);
      } else {
        assert Start(a, now) == Connect(a1);
        assert Connect(a1).service == a1.service;
      }
    }
  }

  /** Stopping the service and resetting leaves no service, an IDLE record and the table as it was. */
  lemma {:induction false} StopAndResetRule(a: App)
    requires AppInv(a)
    ensures var r := Reset(StopService(a));
      && AppInv(r) && r.service == None && r.table == a.table && SameConfig(r.ui, a.ui)
      && r.ui.timerState == Idle && !r.ui.showStopDialog
  {
    if a.service.Some? {
      var e := a.service.value;
      TP.StopReports(e);
      DeliverRule(a.(service := Some(TE.StopTimer(e).next)), TE.StopTimer(e).emitted);
    }
  }

  lemma {:induction false} RequestStopInv(a: App, now: TE.Clock)
    requires AppInv(a) && ClockOk(a, now)
    ensures AppInv(RequestStop(a)) && ClockOk(RequestStop(a), now)
  {
    if a.ui.timerState == Meditating {
      TE.PauseResumeInv(a.service.value, now);
    } else if a.ui.timerState == Countdown {
      StopAndResetRule(a);
    }
  }

  lemma {:induction false} ConfirmStopInv(a: App, keepSession: bool)
    requires AppInv(a)
    ensures AppInv(ConfirmStop(a, keepSession))
  {
    var a1 := a.(ui := a.ui.(showStopDialog := false));
    var a2 := if keepSession then SaveSession(a1) else a1;
    SaveRule(a1);
    StopAndResetRule(a2);
  }

  lemma {:induction false} DismissStopDialogInv(a: App, now: TE.Clock)
    requires AppInv(a) && ClockOk(a, now)
    ensures AppInv(DismissStopDialog(a, now)) && ClockOk(DismissStopDialog(a, now), now)
  {
    if a.service.Some? {
      TE.PauseResumeInv(a.service.value, now);
    }
  }

  lemma {:induction false} SetWhiteNoiseVolumeInv(a: App, volume: real, now: TE.Clock)
    requires AppInv(a) && ClockOk(a, now)
    ensures AppInv(SetWhiteNoiseVolume(a, volume)) && ClockOk(SetWhiteNoiseVolume(a, volume), now)
  {
  }

  /** The setters keep the invariant for the values the pickers can send. */
  lemma {:induction false} SettersInv(a: App, value: int)
    requires AppInv(a)
    ensures 0 <= value ==> AppInv(SetCountdownSeconds(a, value))
    ensures 1 <= value ==> AppInv(SetIntervalMinutes(a, value)) && AppInv(SetNumIntervals(a, value))
    ensures AppInv(ToggleDebugMode(a))
  {
  }

  lemma {:induction false} DeleteSessionInv(a: App, s: Session)
    requires AppInv(a)
    ensures AppInv(DeleteSession(a, s)) && AppInv(ClearAllSessions(a))
  {
    DeleteRemovesKey(a.table, s);
    DeleteAllEmpties(a.table);
    var rows := a.table.Delete(s).rows;
    forall i | 0 <= i < |rows| ensures rows[i].elapsedSeconds > 0 {
      assert rows[i] in rows;
    }
  }

  // ---------------------------------------------------------------------
  // Any run of operations

  /** What the screens and the service's coroutine can do to the view model. */
  datatype Op =
    | SetCountdownOp(value: int)
    | SetIntervalOp(value: int)
    | SetNumIntervalsOp(value: int)
    | ToggleDebugOp
    | SetVolumeOp(volume: real)
    | StartOp(now: TE.Clock)
    | RequestStopOp
    | ConfirmStopOp(keepSession: bool)
    | DismissOp(now: TE.Clock)
    | PassOp(now: TE.Clock)
    | DeleteOp(session: Session)
    | ClearOp

  function Apply(a: App, op: Op): App {
    match op
    case SetCountdownOp(v) => SetCountdownSeconds(a, v)
    case SetIntervalOp(v) => SetIntervalMinutes(a, v)
    case SetNumIntervalsOp(v) => SetNumIntervals(a, v)
    case ToggleDebugOp => ToggleDebugMode(a)
    case SetVolumeOp(v) => SetWhiteNoiseVolume(a, v)
    case StartOp(now) => Start(a, now)
    case RequestStopOp => RequestStop(a)
    case ConfirmStopOp(keep) => ConfirmStop(a, keep)
    case DismissOp(now) => DismissStopDialog(a, now)
    case PassOp(now) => ServiceTick(a, now)
    case DeleteOp(session) => DeleteSession(a, session)
    case ClearOp => ClearAllSessions(a)
  }

  /** The operations one after another. */
  function Run(a: App, ops: seq<Op>): App
    decreases |ops|
  {
    if ops == [] then a else Run(Apply(a, ops[0]), ops[1..])
  }

  /** The clock reading an operation is made at, or the previous one when it reads none. */
  function ClockAfter(last: TE.Clock, op: Op): TE.Clock {
    if op.StartOp? || op.DismissOp? || op.PassOp? then op.now else last
  }

  /** The readings never go back, and the setters get values the pickers can send. */
  predicate Feasible(last: TE.Clock, ops: seq<Op>)
    decreases |ops|
  {
    ops != [] ==>
      && ClockAfter(last, ops[0]).elapsedRealtime >= last.elapsedRealtime
      && (ops[0].SetCountdownOp? ==> 1 <= ops[0].value <= 30)
      && (ops[0].SetIntervalOp? ==> 1 <= ops[0].value <= 15)
      && (ops[0].SetNumIntervalsOp? ==> 1 <= ops[0].value <= 10)
      && Feasible(ClockAfter(last, ops[0]), ops[1..])
  }

  lemma {:induction false} ApplyInv(a: App, last: TE.Clock, op: Op)
    requires AppInv(a) && ClockOk(a, last) && Feasible(last, [op])
    ensures AppInv(Apply(a, op)) && ClockOk(Apply(a, op), ClockAfter(last, op))
  {
    var now := ClockAfter(last, op);
    ClockLater(a, last, now);
    match op {
      case SetCountdownOp(v) => SettersInv(a, v);
      case SetIntervalOp(v) => SettersInv(a, v);
      case SetNumIntervalsOp(v) => SettersInv(a, v);
      case ToggleDebugOp => SettersInv(a, 0);
      case SetVolumeOp(v) => SetWhiteNoiseVolumeInv(a, v, now);
      case StartOp(_) => StartInv(a, now);
      case RequestStopOp => RequestStopInv(a, now);
      case ConfirmStopOp(keep) => ConfirmStopInv(a, keep);
      case DismissOp(_) => DismissStopDialogInv(a, now);
      case PassOp(_) => ServiceTickInv(a, now);
      case DeleteOp(session) => DeleteSessionInv(a, session);
      case ClearOp => DeleteSessionInv(a, NewSession("", "", 0));
    }
  }

  /** Any feasible run keeps the invariant. */
  lemma {:induction false} RunInv(a: App, last: TE.Clock, ops: seq<Op>)
    requires AppInv(a) && ClockOk(a, last) && Feasible(last, ops)
    ensures AppInv(Run(a, ops))
    decreases |ops|
  {
    if ops != [] {
      assert Feasible(last, [ops[0]]);
      ApplyInv(a, last, ops[0]);
      RunInv(Apply(a, ops[0]), ClockAfter(last, ops[0]), ops[1..]);
    }
  }

  /**
   * From a new view model, whatever the user and the service do: every
   * stored session lasted at least a second and has its own key, and the
   * record shows IDLE whenever no service is bound.
   */
  lemma StoredSessionsLast(ops: seq<Op>)
    requires Feasible(TE.Clock(0, "", ""), ops)
    ensures var r := Run(InitialApp, ops);
      && (forall i :: 0 <= i < |r.table.rows| ==> r.table.rows[i].elapsedSeconds > 0)
      && UniqueKeys(r.table.rows)
      && (r.service.None? ==> r.ui.timerState == Idle)
  {
    InitialAppInv();
    RunInv(InitialApp, TE.Clock(0, "", ""), ops);
  }

  // ---------------------------------------------------------------------
  // What each operation promises

  /** Each setter changes its own field, and only in IDLE. */
  lemma SettersRule(a: App, value: int)
    ensures var r := SetCountdownSeconds(a, value);
      r.service == a.service && r.table == a.table
      && r.ui.(countdownSeconds := a.ui.countdownSeconds) == a.ui
      && r.ui.countdownSeconds == (if a.ui.timerState == Idle then value else a.ui.countdownSeconds)
    ensures var r := SetIntervalMinutes(a, value);
      r.service == a.service && r.table == a.table
      && r.ui.(intervalMinutes := a.ui.intervalMinutes) == a.ui
      && r.ui.intervalMinutes == (if a.ui.timerState == Idle then value else a.ui.intervalMinutes)
    ensures var r := SetNumIntervals(a, value);
      r.service == a.service && r.table == a.table
      && r.ui.(numIntervals := a.ui.numIntervals) == a.ui
      && r.ui.numIntervals == (if a.ui.timerState == Idle then value else a.ui.numIntervals)
    ensures var r := ToggleDebugMode(a);
      r.service == a.service && r.table == a.table
      && r.ui.(debugMode := a.ui.debugMode) == a.ui
      && (r.ui.debugMode != a.ui.debugMode <==> a.ui.timerState == Idle)
  {
  }

  /**
   * `start` acts only in IDLE. It shows a countdown from the configured
   * value with nothing completed and no timestamps, whatever the service
   * reports, and hands the service the interval in seconds, so that the
   * service's run is as long as the record's total.
   */
  lemma {:induction false} StartRule(a: App, now: TE.Clock)
    requires AppInv(a)
    ensures a.ui.timerState != Idle ==> Start(a, now) == a
    ensures a.ui.timerState == Idle ==>
      var r := Start(a, now);
      && r.ui == a.ui.(timerState := Countdown, currentSeconds := a.ui.countdownSeconds,
                       intervalsCompleted := 0, sessionStartTime := None, sessionDate := None)
      && r.table == a.table && r.service.Some?
      && r.service.value.state == TE.Countdown
      && r.service.value.countdownSeconds == a.ui.countdownSeconds
      && r.service.value.intervalSeconds == a.ui.IntervalSeconds()
      && r.service.value.numIntervals == a.ui.numIntervals
      && r.service.value.whiteNoiseVolume == a.ui.whiteNoiseVolume
      && TE.TotalSeconds(r.service.value) == a.ui.TotalMeditationSeconds()
  {
    if a.ui.timerState == Idle {
      var state := a.ui;
      var step := TE.StartCountdown(a.service.GetOr(TE.Created), state.countdownSeconds, state.IntervalSeconds(),
                                    state.numIntervals, state.whiteNoiseVolume, now);
      var ui1 := state.(timerState := Countdown, currentSeconds := state.countdownSeconds,
                        intervalsCompleted := 0, sessionStartTime := None, sessionDate := None);
      var a1 := App(ui1, Some(step.next), a.table);
      if a.service.Some? {
        assert step.emitted == [TE.OnStateChange(TE.Countdown, None, None)];
        assert step.emitted[..0] == [];
        assert Deliver(a1, step.emitted) == OnEvent(a1, step.emitted[0]);
      }
    }
  }

  /**
   * `requestStop` pauses a meditation behind the dialog, leaving the phase
   * and the shown seconds; cancels a countdown at once without saving; and
   * does nothing in any other phase.
   */
  lemma {:induction false} RequestStopRule(a: App)
    requires AppInv(a)
    ensures var r := RequestStop(a);
      && (a.ui.timerState == Meditating ==>
            r.ui == a.ui.(showStopDialog := true) && r.table == a.table && r.service.Some?
            && r.service.value.state == TE.Meditating && r.service.value.isPaused
            && r.service.value.timerJob == TE.NoJob
            && r.service.value.pausedAtSeconds == a.service.value.currentSeconds)
      && (a.ui.timerState == Countdown ==>
            r.ui.timerState == Idle && !r.ui.showStopDialog && r.table == a.table && r.service == None)
      && (a.ui.timerState != Meditating && a.ui.timerState != Countdown ==> r == a)
  {
    if a.ui.timerState == Countdown {
      StopAndResetRule(a);
    }
  }

  /**
   * `confirmStop` always ends in IDLE with the dialog hidden and no service.
   * Without keeping it stores nothing; keeping it applies the save rule to
   * the record as the dialog found it, so a meditation is stored exactly
   * when the shown seconds are below the total.
   */
  lemma {:induction false} ConfirmStopRule(a: App, keepSession: bool)
    requires AppInv(a)
    ensures var r := ConfirmStop(a, keepSession);
      && r.ui.timerState == Idle && !r.ui.showStopDialog && r.service == None && SameConfig(r.ui, a.ui)
      && (!keepSession ==> r.table == a.table)
      && (keepSession ==> r.table == SaveSession(a).table)
      && (keepSession && a.ui.timerState == Meditating ==>
            (r.table.SessionCount() == a.table.SessionCount() + 1
             <==> a.ui.TotalMeditationSeconds() - a.ui.currentSeconds > 0))
  {
    var a1 := a.(ui := a.ui.(showStopDialog := false));
    assert SessionToSave(a1.ui) == SessionToSave(a.ui);
    SaveRule(a);
    SaveRule(a1);
    var a2 := if keepSession then SaveSession(a1) else a1;
    StopAndResetRule(a2);
  }

  /**
   * Dismissing the dialog after a stop request restores the record and
   * lets the service count down again from the second it paused at.
   */
  lemma {:induction false} StopDialogRoundTrip(a: App, now: TE.Clock)
    requires AppInv(a) && a.ui.timerState == Meditating && !a.ui.showStopDialog
    requires !a.service.value.isPaused
    ensures var e := a.service.value;
      DismissStopDialog(RequestStop(a), now)
        == a.(service := Some(e.(pausedAtSeconds := e.currentSeconds,
                                 timerJob := TE.ResumeJob(now.elapsedRealtime, e.currentSeconds, e.currentSeconds))))
  {
    TP.PauseThenResume(a.service.value, now);
  }

  /** `reset` keeps the settings, the service and the table, and a second reset changes nothing. */
  lemma ResetRule(a: App)
    ensures var r := Reset(a);
      && SameConfig(r.ui, a.ui) && r.service == a.service && r.table == a.table
      && View(r.ui) == (Idle, None, None) && r.ui.currentSeconds == 0 && r.ui.intervalsCompleted == 0
      && !r.ui.showStopDialog
      && Reset(r) == r
  {
  }

  /**
   * The record keeps the volume clamped to [0, 1]; a meditating service is
   * given the value as passed, so the two differ for a value outside that
   * range. In any other phase the service is left alone.
   */
  lemma {:induction false} VolumeRule(a: App, volume: real)
    ensures var r := SetWhiteNoiseVolume(a, volume);
      && r.ui.whiteNoiseVolume == Clamp(volume) && r.ui.(whiteNoiseVolume := a.ui.whiteNoiseVolume) == a.ui
      && r.table == a.table
      && (a.ui.timerState == Meditating && a.service.Some? ==>
            r.service == Some(a.service.value.(whiteNoiseVolume := volume))
            && (r.service.value.whiteNoiseVolume == r.ui.whiteNoiseVolume <==> 0.0 <= volume <= 1.0))
      && (a.ui.timerState != Meditating || a.service.None? ==> r.service == a.service)
  {
  }

  // ---------------------------------------------------------------------
  // Export

  /** A record whose texts hold no line break. */
  predicate NoBreak(s: Session) {
    '\n' !in s.date && '\n' !in s.startTime
  }

  /** Putting a line in front of `init` and then `tail` is putting it in front of `init + tail`. */
  lemma ConsStep(all: string, front: string, head: string, init: string, tail: string, rest: string)
    requires all == front + tail && front == head + init && rest == init + tail
    ensures all == head + rest
  {
  }

  /** The row lines are the first row's line, then the lines of the rest. */
  lemma {:induction false} CsvLinesCons(rows: seq<string>)
    requires rows != []
    ensures CsvLines(rows) == rows[0] + "\n" + CsvLines(rows[1..])
    decreases |rows|
  {
    var head, tail := rows[0] + "\n", rows[|rows| - 1] + "\n";
    var init, rest := rows[..|rows| - 1], rows[1..];
    if |rows| == 1 {
      assert init == [] && rest == [];
    } else {
      assert CsvLines(rest) == CsvLines(init[1..]) + tail by {
        assert rest[..|rest| - 1] == init[1..];
        assert rest[|rest| - 1] == rows[|rows| - 1];
      }
      assert CsvLines(init) == head + CsvLines(init[1..]) by {
        CsvLinesCons(init);
      }
      ConsStep(CsvLines(rows), CsvLines(init), head, CsvLines(init[1..]), tail, CsvLines(rest));
    }
  }

  lemma RowHasNoBreak(s: Session)
    requires NoBreak(s)
    ensures '\n' !in ToCsvRow(s)
  {
    IntHasNo(s.elapsedSeconds, '\n');
  }

  /** One more line in front of lines that split into `rows` and a final empty text. */
  lemma {:induction false} SplitRowThen(row: string, more: string, rows: seq<string>)
    requires '\n' !in row && Split(more, '\n') == rows + [""]
    ensures Split(row + "\n" + more, '\n') == ([row] + rows) + [""]
  {
    SplitFirst(row, more, '\n');
  }

  /** Row texts without line breaks split back out of their lines. */
  lemma {:induction false} SplitLines(rows: seq<string>)
    requires forall k :: 0 <= k < |rows| ==> '\n' !in rows[k]
    ensures Split(CsvLines(rows), '\n') == rows + [""]
    decreases |rows|
  {
    if rows == [] {
      assert Split("", '\n') == [""];
    } else {
      SplitLines(rows[1..]);
      CsvLinesCons(rows);
      SplitRowThen(rows[0], CsvLines(rows[1..]), rows[1..]);
      assert [rows[0]] + rows[1..] == rows;
    }
  }

  lemma LinesOf(header: string, rows: seq<string>, lines: seq<string>)
    requires lines == ([header] + rows) + [""]
    ensures |lines| == |rows| + 2 && lines[0] == header && lines[|lines| - 1] == ""
    ensures forall k :: 0 <= k < |rows| ==> lines[k + 1] == rows[k]
  {
  }

  /**
   * The export splits at its line breaks into the header, one row per
   * session of the listing in the listing's order, and the empty text after
   * the last line break.
   */
  lemma {:induction false} ExportLines(sessions: seq<Session>)
    requires forall k :: 0 <= k < |sessions| ==> NoBreak(sessions[k])
    ensures var lines := Split(ExportCsv(sessions), '\n');
      && |lines| == |sessions| + 2
      && lines[0] == CsvHeader() && lines[|lines| - 1] == ""
      && forall k :: 0 <= k < |sessions| ==> lines[k + 1] == ToCsvRow(sessions[k])
  {
    var rows := RowTexts(sessions);
    forall k | 0 <= k < |rows|
      ensures '\n' !in rows[k]
    {
      RowHasNoBreak(sessions[k]);
    }
    HeaderHasNoBreak();
    SplitLines(rows);
    SplitRowThen(CsvHeader(), CsvLines(rows), rows);
    var lines := Split(ExportCsv(sessions), '\n');
    LinesOf(CsvHeader(), rows, lines);
    forall k | 0 <= k < |sessions|
      ensures lines[k + 1] == ToCsvRow(sessions[k])
    {
      assert lines[k + 1] == rows[k];
    }
  }

  // ---------------------------------------------------------------------
  // A natural finish, from the service's pass to the stored row

  /** The second the record shows after the ticks among `evs`, when it showed `shown` before them. */
  function ShownAfter(shown: int, evs: seq<TE.Event>): int
    decreases |evs|
  {
    if evs == [] then shown
    else if evs[|evs| - 1].OnTick? then evs[|evs| - 1].secondsRemaining
    else ShownAfter(shown, evs[..|evs| - 1])
  }

  /** Before `onFinished`, the record's seconds are those of the last tick handed over. */
  lemma {:induction false} DeliverShows(a: App, evs: seq<TE.Event>)
    requires TE.OnFinished !in evs
    ensures Deliver(a, evs).ui.currentSeconds == ShownAfter(a.ui.currentSeconds, evs)
    decreases |evs|
  {
    if evs != [] {
      var init := evs[..|evs| - 1];
      assert TE.OnFinished !in init by {
        forall k | 0 <= k < |init| ensures init[k] != TE.OnFinished {
          assert init[k] == evs[k];
        }
      }
      DeliverShows(a, init);
    }
  }

  /** Only a meditation's pass can end the session. */
  lemma {:induction false} FinishComesFromMeditation(e: TE.Engine, now: TE.Clock)
    requires TE.Inv(e) && e.state != TE.Finished && TE.Ready(e)
    ensures TE.Tick(e, now).next.state == TE.Finished ==> e.state == TE.Meditating
  {
    if e.state == TE.Idle {
      assert TE.Tick(e, now) == TE.Step(e, []);
    } else if e.state == TE.Countdown {
      TP.CountdownNeverFinishes(e, now);
    }
  }

  /** A pass that ends the session comes from a meditation and reports `onFinished` last and only. */
  lemma {:induction false} FinishPassShape(e: TE.Engine, now: TE.Clock)
    requires TE.Inv(e) && e.state != TE.Finished && TE.Ready(e)
    requires TE.Tick(e, now).next.state == TE.Finished
    ensures e.state == TE.Meditating && e.sessionStartTime.Some? && e.sessionDate.Some?
    ensures var evs := TE.Tick(e, now).emitted;
      && |evs| > 0 && evs[|evs| - 1] == TE.OnFinished
      && TE.OnFinished !in evs[..|evs| - 1] && TP.Reports(evs[..|evs| - 1]) == []
  {
    FinishComesFromMeditation(e, now);
    TP.TickEndsOnFinished(e, now);
    TP.TickReports(e, now);
    FinishedStepShape(e, TE.Tick(e, now));
  }

  lemma {:induction false} FinishedStepShape(e: TE.Engine, r: TE.Step)
    requires TP.EndsOnFinished(e, r) && TP.ReportsChange(e, r)
    requires e.state != TE.Finished && r.next.state == TE.Finished
    ensures var evs := r.emitted;
      && |evs| > 0 && evs[|evs| - 1] == TE.OnFinished
      && TE.OnFinished !in evs[..|evs| - 1] && TP.Reports(evs[..|evs| - 1]) == []
  {
    var evs := r.emitted;
    var init := evs[..|evs| - 1];
    assert evs == init + [TE.OnFinished];
    TP.ReportsAppend(init, [TE.OnFinished]);
  }

  /**
   * Handing over quiet callbacks and then `onFinished` saves the run's
   * length minus the second shown at that moment, when that is positive,
   * and resets the record to IDLE without timestamps.
   */
  lemma {:induction false} FinishDelivery(a: App, init: seq<TE.Event>, date: string, time: string, total: int)
    requires TableOk(a.table) && TE.OnFinished !in init && TP.Reports(init) == []
    requires a.ui.sessionStartTime == Some(time) && a.ui.sessionDate == Some(date)
    requires a.ui.TotalMeditationSeconds() == total
    ensures var r := Deliver(a, init + [TE.OnFinished]);
      var kept := total - ShownAfter(a.ui.currentSeconds, init);
      && r.service == a.service
      && r.ui.timerState == Idle && r.ui.currentSeconds == 0 && r.ui.intervalsCompleted == 0
      && r.ui.sessionStartTime == None && r.ui.sessionDate == None
      && (kept > 0 ==>
            r.table.rows == a.table.rows + [NewSession(date, time, kept).(id := a.table.lastRowId + 1)]
            && r.table.SessionCount() == a.table.SessionCount() + 1)
      && (kept <= 0 ==> r.table == a.table)
  {
    var evs := init + [TE.OnFinished];
    assert evs[..|evs| - 1] == init;
    DeliverRule(a, init);
    DeliverShows(a, init);
    var b := Deliver(a, init);
    assert Deliver(a, evs) == OnEvent(b, TE.OnFinished);
    assert b.ui.TotalMeditationSeconds() == a.ui.TotalMeditationSeconds();
    SaveRule(b);
  }

  /**
   * When a pass of the service ends the session, the record handles what
   * came before `onFinished`, then saves the run's length minus the second
   * it shows at that moment, and resets to IDLE without timestamps. The
   * table gains exactly that one row, or none when nothing is left to save.
   */
  lemma {:induction false} FinishStoresSession(a: App, now: TE.Clock)
    requires AppInv(a) && a.service.Some?
    requires a.service.value.state != TE.Finished && TE.Ready(a.service.value)
    requires TE.Tick(a.service.value, now).next.state == TE.Finished
    ensures var e := a.service.value;
      var evs := TE.Tick(e, now).emitted;
      var r := ServiceTick(a, now);
      && e.state == TE.Meditating && e.sessionStartTime.Some? && e.sessionDate.Some?
      && |evs| > 0 && evs[|evs| - 1] == TE.OnFinished
      && r.ui.timerState == Idle && r.ui.currentSeconds == 0 && r.ui.intervalsCompleted == 0
      && r.ui.sessionStartTime == None && r.ui.sessionDate == None
      && var kept := TE.TotalSeconds(e) - ShownAfter(a.ui.currentSeconds, evs[..|evs| - 1]);
         && (kept > 0 ==>
               r.table.rows == a.table.rows
                               + [NewSession(e.sessionDate.value, e.sessionStartTime.value, kept).(id := a.table.lastRowId + 1)]
               && r.table.SessionCount() == a.table.SessionCount() + 1)
         && (kept <= 0 ==> r.table == a.table)
  {
    var e := a.service.value;
    var step := TE.Tick(e, now);
    FinishPassShape(e, now);
    var init := step.emitted[..|step.emitted| - 1];
    assert step.emitted == init + [TE.OnFinished];
    var a1 := a.(service := Some(step.next));
    assert Coupled(a.ui, Some(e));
    FinishDelivery(a1, init, e.sessionDate.value, e.sessionStartTime.value, TE.TotalSeconds(e));
    assert ServiceTick(a, now) == Deliver(a1, init + [TE.OnFinished]);
  }

  /** A session sampled at its last second is stored with its full length. */
  lemma {:induction false} OnTimeFinishStoresTotal(a: App, now: TE.Clock)
    requires AppInv(a) && a.service.Some? && a.service.value.timerJob.MeditationJob?
    requires TE.NotBefore(a.service.value, now)
    requires TE.ElapsedSeconds(a.service.value.timerJob.startTime, now) == TE.TotalSeconds(a.service.value)
    ensures var e := a.service.value;
      && e.sessionStartTime.Some? && e.sessionDate.Some?
      && ServiceTick(a, now).ui.timerState == Idle
      && ServiceTick(a, now).table.rows
           == a.table.rows
              + [NewSession(e.sessionDate.value, e.sessionStartTime.value, TE.TotalSeconds(e)).(id := a.table.lastRowId + 1)]
  {
    var e := a.service.value;
    TP.OnTimeFinish(e, now);
    FinishStoresSession(a, now);
    assert TE.TotalSeconds(e) > 0;
    var evs := TE.Tick(e, now).emitted;
    var tick := TE.OnTick(0, TE.Meditating, e.intervalsCompleted);
    var init := [tick, TE.Notify(TE.Remaining(0)), TE.FinalBell, TE.StopWhiteNoise];
    assert evs[..|evs| - 1] == init;
    var x := a.ui.currentSeconds;
    assert init[..3] == [tick, TE.Notify(TE.Remaining(0)), TE.FinalBell];
    assert init[..3][..2] == [tick, TE.Notify(TE.Remaining(0))];
    assert init[..3][..2][..1] == [tick];
    assert ShownAfter(x, init[..3][..2]) == 0;
    assert ShownAfter(x, init) == ShownAfter(x, init[..3]) == 0;
  }

  /**
   * A session finished by a sample past its end stores its length minus the
   * second the record still shows: a sample that skipped the last second
   * leaves the record at the second before it.
   */
  lemma {:induction false} OverrunFinishStoresRest(a: App, now: TE.Clock)
    requires AppInv(a) && a.service.Some? && a.service.value.timerJob.MeditationJob?
    requires TE.NotBefore(a.service.value, now)
    requires TE.ElapsedSeconds(a.service.value.timerJob.startTime, now) > TE.TotalSeconds(a.service.value)
    requires KotlinInt.Rem(TE.ElapsedSeconds(a.service.value.timerJob.startTime, now),
                           a.service.value.intervalSeconds) == 0
    ensures var e := a.service.value;
      var kept := TE.TotalSeconds(e) - a.ui.currentSeconds;
      && e.sessionStartTime.Some? && e.sessionDate.Some?
      && ServiceTick(a, now).ui.timerState == Idle
      && (kept > 0 ==>
            ServiceTick(a, now).table.rows
              == a.table.rows
                 + [NewSession(e.sessionDate.value, e.sessionStartTime.value, kept).(id := a.table.lastRowId + 1)])
      && (kept <= 0 ==> ServiceTick(a, now).table == a.table)
  {
    var e := a.service.value;
    TP.OverrunFinish(e, now);
    FinishStoresSession(a, now);
    var evs := TE.Tick(e, now).emitted;
    assert evs[..|evs| - 1] == [TE.FinalBell, TE.StopWhiteNoise];
    assert [TE.FinalBell, TE.StopWhiteNoise][..1] == [TE.FinalBell];
    assert [TE.FinalBell][..0] == [];
  }

  // ---------------------------------------------------------------------
  // A run with the default settings

  /** The record after the setup of a default run: MEDITATING, still showing `shown` seconds. */
  predicate DefaultMeditation(a: App, today: string, time: string, shown: int, job: TE.Job) {
    && a.ui == InitialUiState.(timerState := Meditating, currentSeconds := shown,
                               sessionStartTime := Some(time), sessionDate := Some(today))
    && a.table == EmptyTable && a.service.Some?
    && var e := a.service.value;
       && e.state == TE.Meditating && e.countdownSeconds == 10 && e.intervalSeconds == 420 && e.numIntervals == 4
       && e.currentSeconds == (if shown == 0 then 1680 else shown) && !e.isPaused
       && e.sessionStartTime == Some(time) && e.sessionDate == Some(today)
       && e.intervalsCompleted == 0 && e.whiteNoiseVolume == 0.0 && e.timerJob == job
  }

  /**
   * With the defaults (a 10-second countdown, then four 7-minute
   * intervals), the pass that ends the countdown enters MEDITATING without
   * a tick, so the record still shows 0 seconds.
   */
  lemma CountdownEndsSilently(today: string, time: string)
    ensures DefaultMeditation(ServiceTick(Start(InitialApp, TE.Clock(0, today, time)), TE.Clock(10000, today, time)),
                              today, time, 0, TE.MeditationJob(10000, 1680, 1680, 0))
  {
    var c0, c1 := TE.Clock(0, today, time), TE.Clock(10000, today, time);
    var a0 := Start(InitialApp, c0);
    var e0 := a0.service.value;
    CountdownLastPass(today, time);
    var step1 := TE.Tick(e0, c1);
    var e1 := step1.next;
    var stamp := TE.OnStateChange(TE.Meditating, Some(time), Some(today));
    var evs := step1.emitted;
    var b0 := a0.(service := Some(e1));
    var b1 := OnEvent(b0, evs[0]);
    var b2 := OnEvent(b1, evs[1]);
    var b3 := OnEvent(b2, evs[2]);
    DeliverCons(b0, evs);
    DeliverCons(b1, evs[1..]);
    DeliverCons(b2, evs[2..]);
    DeliverCons(b3, evs[3..]);
    assert evs[3..][1..] == [];
    assert ServiceTick(a0, c1) == OnEvent(b3, stamp);
  }

  /** The engine's side of that pass: the last countdown tick, then the meditation's start. */
  lemma CountdownLastPass(today: string, time: string)
    ensures var c0, c1 := TE.Clock(0, today, time), TE.Clock(10000, today, time);
      var a0 := Start(InitialApp, c0);
      && a0.ui == InitialUiState.(timerState := Countdown, currentSeconds := 10)
      && a0.table == EmptyTable && a0.service.Some?
      && var e0 := a0.service.value;
         && e0.timerJob == TE.CountdownJob(0, 10)
         && TE.Ready(e0)
         && TE.Tick(e0, c1).next == e0.(state := TE.Meditating, currentSeconds := 1680,
                                        sessionStartTime := Some(time), sessionDate := Some(today),
                                        timerJob := TE.MeditationJob(10000, 1680, 1680, 0))
         && TE.Tick(e0, c1).emitted == [TE.OnTick(0, TE.Countdown, 0), TE.Notify(TE.StartingIn(0)), TE.IntervalBell,
                                        TE.OnStateChange(TE.Meditating, Some(time), Some(today))]
  {
    var c0, c1 := TE.Clock(0, today, time), TE.Clock(10000, today, time);
    var a0 := Start(InitialApp, c0);
    var e0 := a0.service.value;
    assert e0.timerJob == TE.CountdownJob(0, 10) && e0.currentSeconds == 10;
    KotlinInt.NonNegative(10000, 1000);
    var stamp := TE.OnStateChange(TE.Meditating, Some(time), Some(today));
    var counted := [TE.OnTick(0, TE.Countdown, 0), TE.Notify(TE.StartingIn(0))];
    var s1 := e0.(currentSeconds := 0, timerJob := TE.CountdownJob(0, 0));
    assert TE.Tick(e0, c1) == TE.EndPass(s1, counted, c1);
    assert TE.StartMeditation(s1, c1).emitted == [TE.IntervalBell] + [] + [stamp];
  }

  /** One second into that meditation the record shows 1679 seconds. */
  lemma FirstMeditationTick(a: App, today: string, time: string)
    requires DefaultMeditation(a, today, time, 0, TE.MeditationJob(10000, 1680, 1680, 0))
    ensures DefaultMeditation(ServiceTick(a, TE.Clock(11000, today, time)), today, time, 1679,
                              TE.MeditationJob(10000, 1680, 1679, 0))
  {
    var c2 := TE.Clock(11000, today, time);
    var e1 := a.service.value;
    KotlinInt.NonNegative(1000, 1000);
    var step2 := TE.Tick(e1, c2);
    assert step2.emitted == [TE.OnTick(1679, TE.Meditating, 0), TE.Notify(TE.Remaining(1679))];
    var d0 := a.(service := Some(step2.next));
    DeliverCons(d0, step2.emitted);
    DeliverCons(OnEvent(d0, step2.emitted[0]), step2.emitted[1..]);
    assert step2.emitted[1..][1..] == [];
  }

  /**
   * Stopping such a meditation and keeping it stores 1680 minus the shown
   * seconds: the full 1680 seconds when it is stopped before its first tick
   * (although no time has passed), 1 second after its first tick.
   */
  lemma StopAndKeepDefault(a: App, today: string, time: string, shown: int)
    requires 0 <= shown < 1680
    requires DefaultMeditation(a, today, time, shown, TE.MeditationJob(10000, 1680, if shown == 0 then 1680 else shown, 0))
    ensures ConfirmStop(RequestStop(a), true).table.rows == [NewSession(today, time, 1680 - shown).(id := 1)]
  {
    var later := TE.Clock(1690000, today, time);
    KotlinInt.NonNegative(1680000, 1000);
    assert AppInv(a) && ClockOk(a, later);
    RequestStopInv(a, later);
    ConfirmStopRule(RequestStop(a), true);
  }

  /** Handing over a list of callbacks is handing over its first, then the rest. */
  lemma {:induction false} DeliverCons(a: App, evs: seq<TE.Event>)
    requires evs != []
    ensures Deliver(a, evs) == Deliver(OnEvent(a, evs[0]), evs[1..])
    decreases |evs|
  {
    if |evs| == 1 {
      assert evs[..0] == [] && evs[1..] == [];
    } else {
      var init := evs[..|evs| - 1];
      DeliverCons(a, init);
      assert init[1..] == evs[1..][..|evs[1..]| - 1];
    }
  }
}
