/**
 * `MeditationViewModel` on values: the UI-state record it publishes, the
 * service it is bound to (if any) and the sessions table, and each of its
 * operations as a function from the old triple to the new one. The
 * service's callbacks are its `TimerEngine` events, handed to `OnEvent` in
 * the order the service issued them.
 */
module UiModel {
  import opened Wrappers
  import opened Text
  import KotlinInt
  import TE = TimerEngine
  import opened SessionRecord
  import opened SessionStore

  datatype TimerState = Idle | Countdown | Meditating | Finished

  /**
   * `MeditationUiState`. `intervalMinutes` counts seconds in debug mode;
   * the timestamps are the service's time-of-day and date texts.
   */
  datatype MeditationUiState = MeditationUiState(
    timerState: TimerState,
    countdownSeconds: int,
    intervalMinutes: int,
    numIntervals: int,
    currentSeconds: int,
    intervalsCompleted: int,
    debugMode: bool,
    showStopDialog: bool,
    sessionStartTime: Option<string>,
    sessionDate: Option<string>,
    whiteNoiseVolume: real)
  {
    /** One interval in seconds: the picker's unit is seconds in debug mode and minutes otherwise. */
    function IntervalSeconds(): (r: int)
      ensures intervalMinutes >= 1 ==> r >= intervalMinutes
    {
      if debugMode then intervalMinutes else intervalMinutes * 60
    }

    /** The whole meditation in seconds: all intervals, in either mode. */
    function TotalMeditationSeconds(): (r: int)
      ensures r == KotlinInt.Mul(IntervalSeconds(), numIntervals)
    {
      if debugMode then KotlinInt.Mul(intervalMinutes, numIntervals)
      else MulSwap(intervalMinutes, numIntervals); KotlinInt.Mul(intervalMinutes, numIntervals) * 60
    }
  }

  lemma MulSwap(m: int, n: int)
    ensures KotlinInt.Mul(m, n) * 60 == KotlinInt.Mul(m * 60, n)
  {
    KotlinInt.MulIsProduct(m, n);
    KotlinInt.MulIsProduct(m * 60, n);
    assert m * n * 60 == m * 60 * n;
  }

  /** The defaults of `MeditationUiState()`. */
  const InitialUiState := MeditationUiState(Idle, 10, 7, 4, 0, 0, false, false, None, None, 0.0)

  /** The `when` of `onStateChange`. */
  function StateOf(s: TE.ServiceState): (t: TimerState)
    ensures t == Idle <==> s == TE.Idle
    ensures t == Countdown <==> s == TE.Countdown
    ensures t == Meditating <==> s == TE.Meditating
    ensures t == Finished <==> s == TE.Finished
  {
    match s
    case Idle => Idle
    case Countdown => Countdown
    case Meditating => Meditating
    case Finished => Finished
  }

  /** `coerceIn(0f, 1f)`. */
  function Clamp(v: real): (r: real)
    ensures 0.0 <= r <= 1.0
    ensures 0.0 <= v <= 1.0 ==> r == v
    ensures v < 0.0 ==> r == 0.0
    ensures v > 1.0 ==> r == 1.0
  {
    if v < 0.0 then 0.0 else if v > 1.0 then 1.0 else v
  }

  /**
   * The view model's state: the published record, the bound service's
   * state (`None` while `timerService` is null) and the sessions table.
   */
  datatype App = App(ui: MeditationUiState, service: Option<TE.Engine>, table: Table)

  const InitialApp := App(InitialUiState, None, EmptyTable)

  // ---------------------------------------------------------------------
  // The private helpers

  /** What `saveSession` would store: the elapsed seconds of a session with both timestamps. */
  function SessionToSave(ui: MeditationUiState): (r: Option<Session>)
    ensures r.Some? <==> ui.sessionStartTime.Some? && ui.sessionDate.Some?
                         && ui.TotalMeditationSeconds() - ui.currentSeconds > 0
    ensures r.Some? ==> r.value == NewSession(ui.sessionDate.value, ui.sessionStartTime.value,
                                              ui.TotalMeditationSeconds() - ui.currentSeconds)
  {
    if ui.sessionStartTime.Some? && ui.sessionDate.Some? then
      var elapsedSeconds := ui.TotalMeditationSeconds() - ui.currentSeconds;
      if elapsedSeconds > 0 then
        Some(NewSession(ui.sessionDate.value, ui.sessionStartTime.value, elapsedSeconds))
      else None
    else None
  }

  /** `saveSession`: inserts the session, if there is one to save. */
  function SaveSession(a: App): App {
    match SessionToSave(a.ui)
    case Some(s) => a.(table := a.table.Insert(s).0)
    case None => a
  }

  /** `reset`. */
  function Reset(a: App): App {
    a.(ui := a.ui.(timerState := Idle, currentSeconds := 0, intervalsCompleted := 0,
                   showStopDialog := false, sessionStartTime := None, sessionDate := None))
  }

  /** The `timerCallback` handlers; audio commands and notification texts do not reach the view model. */
  function OnEvent(a: App, e: TE.Event): App {
    match e
    case OnTick(secondsRemaining, _, intervalsCompleted) =>
      a.(ui := a.ui.(currentSeconds := secondsRemaining, intervalsCompleted := intervalsCompleted))
    case OnStateChange(state, sessionStartTime, sessionDate) =>
      a.(ui := a.ui.(timerState := StateOf(state), sessionStartTime := sessionStartTime,
                     sessionDate := sessionDate))
    case OnFinished => Reset(SaveSession(a))
    case _ => a
  }

  /** The callbacks `evs`, handled in order. */
  function Deliver(a: App, evs: seq<TE.Event>): App
    decreases |evs|
  {
    if evs == [] then a else OnEvent(Deliver(a, evs[..|evs| - 1]), evs[|evs| - 1])
  }

  /** `stopService`: `stopTimer` with the callback still set, then unbinding, which drops the service. */
  function StopService(a: App): App {
    match a.service
    case None => a
    case Some(e) =>
      var step := TE.StopTimer(e);
      Deliver(a.(service := Some(step.next)), step.emitted).(service := None)
  }

  /** `onServiceConnected`: `setCallback` sends the service's current second count. */
  function Connect(a: App): App {
    match a.service
    case None => a
    case Some(e) => OnEvent(a, TE.OnTick(e.currentSeconds, e.state, e.intervalsCompleted))
  }

  // ---------------------------------------------------------------------
  // The public operations

  function SetCountdownSeconds(a: App, value: int): App {
    if a.ui.timerState == Idle then a.(ui := a.ui.(countdownSeconds := value)) else a
  }

  function SetIntervalMinutes(a: App, value: int): App {
    if a.ui.timerState == Idle then a.(ui := a.ui.(intervalMinutes := value)) else a
  }

  function SetNumIntervals(a: App, value: int): App {
    if a.ui.timerState == Idle then a.(ui := a.ui.(numIntervals := value)) else a
  }

  function ToggleDebugMode(a: App): App {
    if a.ui.timerState == Idle then a.(ui := a.ui.(debugMode := !a.ui.debugMode)) else a
  }

  /** `setWhiteNoiseVolume`: the record keeps the clamped value; a meditating service gets the value as passed. */
  function SetWhiteNoiseVolume(a: App, volume: real): App {
    var a1 := a.(ui := a.ui.(whiteNoiseVolume := Clamp(volume)));
    if a1.ui.timerState == Meditating && a1.service.Some? then
      a1.(service := Some(TE.SetWhiteNoiseVolume(a1.service.value, volume).next))
    else a1
  }

  /**
   * `start`. A service that is still bound (after a finished session) gets
   * the start command with the callback set; otherwise a new service is
   * created, runs the start command before the connection is made, and
   * reports its state through `setCallback` once connected.
   */
  function Start(a: App, now: TE.Clock): App {
    if a.ui.timerState != Idle then a
    else
      var state := a.ui;
      var ui1 := state.(timerState := Countdown, currentSeconds := state.countdownSeconds,
                        intervalsCompleted := 0, sessionStartTime := None, sessionDate := None);
      var step := TE.StartCountdown(a.service.GetOr(TE.Created), state.countdownSeconds,
                                    state.IntervalSeconds(), state.numIntervals,
                                    state.whiteNoiseVolume, now);
      var a1 := App(ui1, Some(step.next), a.table);
      if a.service.Some? then Deliver(a1, step.emitted) else Connect(a1)
  }

  function RequestStop(a: App): App {
    if a.ui.timerState == Meditating then
      a.(service := if a.service.Some? then Some(TE.PauseTimer(a.service.value)) else None,
         ui := a.ui.(showStopDialog := true))
    else if a.ui.timerState == Countdown then Reset(StopService(a))
    else a
  }

  function ConfirmStop(a: App, keepSession: bool): App {
    var a1 := a.(ui := a.ui.(showStopDialog := false));
    var a2 := if keepSession then SaveSession(a1) else a1;
    Reset(StopService(a2))
  }

  function DismissStopDialog(a: App, now: TE.Clock): App {
    a.(ui := a.ui.(showStopDialog := false),
       service := if a.service.Some? then Some(TE.ResumeTimer(a.service.value, now)) else None)
  }

  /**
   * One pass of the bound service's coroutine, with its callbacks. A
   * meditation whose loop would run with a negative interval length is
   * taken to make no pass.
   */
  function ServiceTick(a: App, now: TE.Clock): App {
    match a.service
    case None => a
    case Some(e) =>
      if TE.Ready(e) then
        var step := TE.Tick(e, now);
        Deliver(a.(service := Some(step.next)), step.emitted)
      else a
  }

  function DeleteSession(a: App, s: Session): App {
    a.(table := a.table.Delete(s))
  }

  function ClearAllSessions(a: App): App {
    a.(table := a.table.DeleteAll())
  }

  /** The text of each session's row, in the listing's order. */
  function RowTexts(sessions: seq<Session>): seq<string> {
    seq(|sessions|, k requires 0 <= k < |sessions| => ToCsvRow(sessions[k]))
  }

  /** The lines after the header: each row text with its line break. */
  function CsvLines(rows: seq<string>): string
    decreases |rows|
  {
    if rows == [] then "" else CsvLines(rows[..|rows| - 1]) + rows[|rows| - 1] + "\n"
  }

  /** `exportSessionsCsv` over a listing. */
  function ExportCsv(sessions: seq<Session>): string {
    CsvHeader() + "\n" + CsvLines(RowTexts(sessions))
  }
}
