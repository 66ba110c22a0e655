/**
 * `MeditationViewModel` as an object: the published UI state, the bound
 * service (null while unbound) and the sessions DAO. Each operation changes
 * them as the function of the same name in `UiModel` changes their
 * snapshot, so everything proved there about the snapshot holds here.
 */
module ViewModel {
  import opened Wrappers
  import TE = TimerEngine
  import opened TimerService
  import opened SessionRecord
  import opened SessionStore
  import opened UiModel

  /** Handling one more callback after a list of them. */
  lemma DeliverSnoc(a: App, evs: seq<TE.Event>, e: TE.Event)
    ensures Deliver(a, evs + [e]) == OnEvent(Deliver(a, evs), e)
  {
    assert (evs + [e])[..|evs|] == evs;
  }

  lemma CsvLinesSnoc(rows: seq<string>, i: nat)
    requires i < |rows|
    ensures CsvLines(rows[..i + 1]) == CsvLines(rows[..i]) + rows[i] + "\n"
  {
    assert rows[..i + 1][..i] == rows[..i];
  }

  lemma AppendLine(prefix: string, lines: string, row: string)
    ensures prefix + lines + row + "\n" == prefix + (lines + row + "\n")
  {
  }

  class MeditationViewModel {
    var uiState: MeditationUiState
    var timerService: MeditationTimerService?
    const sessionDao: SessionDao

    /** The view model's state as a value. */
    function Snapshot(): App
      reads this, timerService, sessionDao
    {
      App(uiState, if timerService == null then None else Some(timerService.Snapshot()), sessionDao.Snapshot())
    }

    ghost predicate Valid()
      reads this, sessionDao
    {
      sessionDao.Valid()
    }

    /** A new view model over the database's DAO, with the default settings and no service. */
    constructor (dao: SessionDao)
      requires dao.Valid()
      ensures Valid() && sessionDao == dao
      ensures Snapshot() == InitialApp.(table := dao.Snapshot())
    {
      uiState := InitialUiState;
      timerService := null;
      sessionDao := dao;
    }

    // -------------------------------------------------------------------
    // The private helpers

    method SaveSession()
      requires Valid()
      modifies sessionDao
      ensures Valid()
      ensures Snapshot() == UiModel.SaveSession(old(Snapshot()))
    {
      var session := SessionToSave(uiState);
      if session.Some? {
        var _ := sessionDao.Insert(session.value);
      }
    }

    method Reset()
      modifies this
      ensures timerService == old(timerService)
      ensures Snapshot() == UiModel.Reset(old(Snapshot()))
    {
      uiState := uiState.(timerState := Idle, currentSeconds := 0, intervalsCompleted := 0,
                          showStopDialog := false, sessionStartTime := None, sessionDate := None);
    }

    /** One `timerCallback` handler. */
    method OnEvent(e: TE.Event)
      requires Valid()
      modifies this, sessionDao
      ensures Valid() && timerService == old(timerService)
      ensures Snapshot() == UiModel.OnEvent(old(Snapshot()), e)
    {
      match e {
        case OnTick(secondsRemaining, _, intervalsCompleted) =>
          uiState := uiState.(currentSeconds := secondsRemaining, intervalsCompleted := intervalsCompleted);
        case OnStateChange(state, sessionStartTime, sessionDate) =>
          uiState := uiState.(timerState := StateOf(state), sessionStartTime := sessionStartTime,
                              sessionDate := sessionDate);
        case OnFinished =>
          SaveSession();
          Reset();
        case _ =>
      }
    }

    /** Hands the service's callbacks issued since `from` to the handlers, in order. */
    method Deliver(from: nat)
      requires Valid() && timerService != null && from <= |timerService.events|
      modifies this, sessionDao
      ensures Valid() && timerService == old(timerService)
      ensures Snapshot() == UiModel.Deliver(old(Snapshot()), timerService.events[from..])
    {
      var i := from;
      while i < |timerService.events|
        invariant Valid() && timerService == old(timerService)
        invariant from <= i <= |timerService.events|
        invariant Snapshot() == UiModel.Deliver(old(Snapshot()), timerService.events[from..i])
      {
        var e := timerService.events[i];
        assert timerService.events[from..i + 1] == timerService.events[from..i] + [e];
        DeliverSnoc(old(Snapshot()), timerService.events[from..i], e);
        OnEvent(e);
        i := i + 1;
      }
      assert timerService.events[from..i] == timerService.events[from..];
    }

    /** `stopService`: stops the timer with the callback still set, then unbinds. */
    method StopService()
      requires Valid()
      modifies this, sessionDao, timerService
      ensures Valid() && timerService == null
      ensures Snapshot() == UiModel.StopService(old(Snapshot()))
    {
      if timerService != null {
        var from := |timerService.events|;
        timerService.StopTimer();
        Deliver(from);
        timerService := null;
      }
    }

    /** `onServiceConnected`: `setCallback` sends the service's current second count. */
    method Connect()
      requires Valid()
      modifies this, sessionDao
      ensures Valid() && timerService == old(timerService)
      ensures Snapshot() == UiModel.Connect(old(Snapshot()))
    {
      if timerService != null {
        OnEvent(TE.OnTick(timerService.currentSeconds, timerService.currentState, timerService.intervalsCompleted));
      }
    }

    // -------------------------------------------------------------------
    // The public operations

    method SetCountdownSeconds(value: int)
      modifies this
      ensures timerService == old(timerService)
      ensures Snapshot() == UiModel.SetCountdownSeconds(old(Snapshot()), value)
    {
      if uiState.timerState == Idle {
        uiState := uiState.(countdownSeconds := value);
      }
    }

    method SetIntervalMinutes(value: int)
      modifies this
      ensures timerService == old(timerService)
      ensures Snapshot() == UiModel.SetIntervalMinutes(old(Snapshot()), value)
    {
      if uiState.timerState == Idle {
        uiState := uiState.(intervalMinutes := value);
      }
    }

    method SetNumIntervals(value: int)
      modifies this
      ensures timerService == old(timerService)
      ensures Snapshot() == UiModel.SetNumIntervals(old(Snapshot()), value)
    {
      if uiState.timerState == Idle {
        uiState := uiState.(numIntervals := value);
      }
    }

    method ToggleDebugMode()
      modifies this
      ensures timerService == old(timerService)
      ensures Snapshot() == UiModel.ToggleDebugMode(old(Snapshot()))
    {
      if uiState.timerState == Idle {
        uiState := uiState.(debugMode := !uiState.debugMode);
      }
    }

    method SetWhiteNoiseVolume(volume: real)
      modifies this, timerService
      ensures timerService == old(timerService)
      ensures Snapshot() == UiModel.SetWhiteNoiseVolume(old(Snapshot()), volume)
    {
      uiState := uiState.(whiteNoiseVolume := Clamp(volume));
      if uiState.timerState == Meditating && timerService != null {
        timerService.SetWhiteNoiseVolume(volume);
      }
    }

    /**
     * `start`. A bound service gets the start command with the callback
     * set; otherwise a new service runs it before the connection is made.
     */
    method Start(now: TE.Clock)
      requires Valid()
      modifies this, sessionDao, timerService
      ensures Valid()
      ensures Snapshot() == UiModel.Start(old(Snapshot()), now)
      ensures old(timerService) != null ==> timerService == old(timerService)
      ensures old(timerService) == null && old(uiState).timerState == Idle ==> fresh(timerService)
    {
      if uiState.timerState != Idle {
        return;
      }
      var state := uiState;
      uiState := state.(timerState := Countdown, currentSeconds := state.countdownSeconds,
                        intervalsCompleted := 0, sessionStartTime := None, sessionDate := None);
      if timerService == null {
        var service := new MeditationTimerService();
        service.StartCountdown(state.countdownSeconds, state.IntervalSeconds(), state.numIntervals,
                               state.whiteNoiseVolume, now);
        timerService := service;
        Connect();
      } else {
        var from := |timerService.events|;
        timerService.StartCountdown(state.countdownSeconds, state.IntervalSeconds(), state.numIntervals,
                                    state.whiteNoiseVolume, now);
        Deliver(from);
      }
    }

    method RequestStop()
      requires Valid()
      modifies this, sessionDao, timerService
      ensures Valid()
      ensures Snapshot() == UiModel.RequestStop(old(Snapshot()))
    {
      if uiState.timerState == Meditating {
        if timerService != null {
          timerService.PauseTimer();
        }
        uiState := uiState.(showStopDialog := true);
      } else if uiState.timerState == Countdown {
        StopService();
        Reset();
      }
    }

    method ConfirmStop(keepSession: bool)
      requires Valid()
      modifies this, sessionDao, timerService
      ensures Valid() && timerService == null
      ensures Snapshot() == UiModel.ConfirmStop(old(Snapshot()), keepSession)
    {
      uiState := uiState.(showStopDialog := false);
      if keepSession {
        SaveSession();
      }
      StopService();
      Reset();
    }

    method DismissStopDialog(now: TE.Clock)
      modifies this, timerService
      ensures timerService == old(timerService)
      ensures Snapshot() == UiModel.DismissStopDialog(old(Snapshot()), now)
    {
      uiState := uiState.(showStopDialog := false);
      if timerService != null {
        timerService.ResumeTimer(now);
      }
    }

    /** One pass of the bound service's coroutine, with its callbacks. */
    method ServiceTick(now: TE.Clock)
      requires Valid()
      modifies this, sessionDao, timerService
      ensures Valid() && timerService == old(timerService)
      ensures Snapshot() == UiModel.ServiceTick(old(Snapshot()), now)
    {
      if timerService != null && TE.Ready(timerService.Snapshot()) {
        var from := |timerService.events|;
        timerService.Tick(now);
        Deliver(from);
      }
    }

    method DeleteSession(session: Session)
      requires Valid()
      modifies sessionDao
      ensures Valid()
      ensures Snapshot() == UiModel.DeleteSession(old(Snapshot()), session)
    {
      sessionDao.Delete(session);
    }

    method ClearAllSessions()
      requires Valid()
      modifies sessionDao
      ensures Valid()
      ensures Snapshot() == UiModel.ClearAllSessions(old(Snapshot()))
    {
      sessionDao.DeleteAll();
    }

    /** `exportSessionsCsv`: the header and one line per session of the listing. */
    method ExportSessionsCsv() returns (csv: string)
      ensures csv == ExportCsv(sessionDao.GetAllSessions())
    {
      var sessions := sessionDao.GetAllSessionsList();
      ghost var rows := RowTexts(sessions);
      csv := CsvHeader() + "\n";
      var i := 0;
      while i < |sessions|
        invariant 0 <= i <= |sessions|
        invariant csv == CsvHeader() + "\n" + CsvLines(rows[..i])
      {
        var row := ToCsvRow(sessions[i]);
        assert row == rows[i];
        CsvLinesSnoc(rows, i);
        AppendLine(CsvHeader() + "\n", CsvLines(rows[..i]), row);
        csv := csv + row + "\n";
        i := i + 1;
      }
      assert rows[..i] == rows;
    }
  }
}
