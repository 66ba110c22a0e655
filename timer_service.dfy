/**
 * `MeditationTimerService` as a class whose fields the operations update in
 * place, statement by statement as the service does. The outward calls are
 * appended to `events`. Every method is proved to leave the fields as the
 * corresponding `TimerEngine` function describes, so the lemmas about the
 * engine hold of the class.
 */
module TimerService {
  import opened Wrappers
  import opened Text
  import KotlinInt
  import opened TimerEngine

  class MeditationTimerService {
    var currentState: ServiceState
    var countdownSeconds: int
    var intervalSeconds: int
    var numIntervals: int
    var currentSeconds: int
    var intervalsCompleted: int
    var whiteNoiseVolume: real
    var sessionStartTime: Option<string>
    var sessionDate: Option<string>
    var pausedAtSeconds: int
    var isPaused: bool
    var timerJob: Job
    /** The callbacks, audio commands and notification texts issued so far, oldest first. */
    var events: seq<Event>

    function Snapshot(): Engine
      reads this
    {
      Engine(currentState, countdownSeconds, intervalSeconds, numIntervals, currentSeconds,
             intervalsCompleted, whiteNoiseVolume, sessionStartTime, sessionDate,
             pausedAtSeconds, isPaused, timerJob)
    }

    ghost predicate Valid()
      reads this
    {
      Inv(Snapshot())
    }

    constructor()
      ensures Snapshot() == Created && events == []
      ensures Valid()
    {
      currentState := Idle;
      countdownSeconds := 0;
      intervalSeconds := 0;
      numIntervals := 0;
      currentSeconds := 0;
      intervalsCompleted := 0;
      whiteNoiseVolume := 0.0;
      sessionStartTime := None;
      sessionDate := None;
      pausedAtSeconds := 0;
      isPaused := false;
      timerJob := NoJob;
      events := [];
    }

    /** `onStartCommand` with `ACTION_START_COUNTDOWN` and the intent's extras. */
    method StartCountdown(countdown: int, interval: int, intervals: int, volume: real, now: Clock)
      modifies this
      ensures Snapshot() == TimerEngine.StartCountdown(old(Snapshot()), countdown, interval, intervals, volume, now).next
      ensures events == old(events) + TimerEngine.StartCountdown(old(Snapshot()), countdown, interval, intervals, volume, now).emitted
    {
      countdownSeconds := countdown;
      intervalSeconds := interval;
      numIntervals := intervals;
      whiteNoiseVolume := volume;
      currentState := Countdown;
      currentSeconds := countdownSeconds;
      intervalsCompleted := 0;
      sessionStartTime := None;
      sessionDate := None;
      events := events + [OnStateChange(currentState, None, None)];
      timerJob := CountdownJob(now.elapsedRealtime, countdownSeconds);
      assert Snapshot() == Engine(Countdown, countdown, interval, intervals, countdown, 0, volume, None, None,
                                  old(pausedAtSeconds), old(isPaused), CountdownJob(now.elapsedRealtime, countdown));
    }

    method StartMeditation(now: Clock)
      modifies this
      ensures Snapshot() == TimerEngine.StartMeditation(old(Snapshot()), now).next
      ensures events == old(events) + TimerEngine.StartMeditation(old(Snapshot()), now).emitted
    {
      ghost var s0, e0 := Snapshot(), events;
      ghost var r := TimerEngine.StartMeditation(s0, now);
      ghost var opening := [IntervalBell] + (if whiteNoiseVolume > 0.0 then [StartWhiteNoise(whiteNoiseVolume)] else []);
      assert r.emitted == opening + [OnStateChange(Meditating, Some(now.timeOfDay), Some(now.today))];
      events := events + [IntervalBell];
      if whiteNoiseVolume > 0.0 {
        events := events + [StartWhiteNoise(whiteNoiseVolume)];
      }
      assert events == e0 + opening;
      sessionStartTime := Some(now.timeOfDay);
      sessionDate := Some(now.today);
      currentState := Meditating;
      currentSeconds := KotlinInt.Mul(intervalSeconds, numIntervals);
      intervalsCompleted := 0;
      events := events + [OnStateChange(currentState, sessionStartTime, sessionDate)];
      var totalSeconds := KotlinInt.Mul(intervalSeconds, numIntervals);
      timerJob := MeditationJob(now.elapsedRealtime, totalSeconds, totalSeconds, 0);
      assert Snapshot() == r.next;
    }

    method FinishSession()
      modifies this
      ensures Snapshot() == TimerEngine.FinishSession(old(Snapshot())).next
      ensures events == old(events) + TimerEngine.FinishSession(old(Snapshot())).emitted
    {
      events := events + [StopWhiteNoise];
      currentState := Finished;
      events := events + [OnFinished];
      timerJob := NoJob;
    }

    /** The code after the running coroutine's loop. */
    method LoopExit(now: Clock)
      modifies this
      ensures Snapshot() == TimerEngine.LoopExit(old(Snapshot()), now).next
      ensures events == old(events) + TimerEngine.LoopExit(old(Snapshot()), now).emitted
    {
      match timerJob
      case NoJob =>
      case CountdownJob(_, _) =>
        if currentState == Countdown {
          StartMeditation(now);
        } else {
          timerJob := NoJob;
        }
      case MeditationJob(_, _, _, _) =>
        if currentState == Meditating {
          events := events + [FinalBell];
          FinishSession();
        } else {
          timerJob := NoJob;
        }
      case ResumeJob(_, _, _) =>
        if currentState == Meditating && !isPaused {
          events := events + [FinalBell];
          FinishSession();
        } else {
          timerJob := NoJob;
        }
    }

    /** Records the coroutine's loop variables, then the `if (currentSeconds <= 0) break`. */
    method EndPass(job: Job, now: Clock)
      modifies this
      ensures Snapshot() == TimerEngine.EndPass(old(Snapshot()).(timerJob := job), [], now).next
      ensures events == old(events) + TimerEngine.EndPass(old(Snapshot()).(timerJob := job), [], now).emitted
    {
      timerJob := job;
      if currentSeconds <= 0 {
        LoopExit(now);
      }
    }

    method CountdownPass(startTime: int, lastSecond: int, now: Clock)
      requires currentState == Countdown
      modifies this
      ensures Snapshot() == TimerEngine.CountdownPass(old(Snapshot()), startTime, lastSecond, now).next
      ensures events == old(events) + TimerEngine.CountdownPass(old(Snapshot()), startTime, lastSecond, now).emitted
    {
      var elapsed := now.elapsedRealtime - startTime;
      var newSeconds := countdownSeconds - KotlinInt.Div(elapsed, 1000);
      if newSeconds != lastSecond && newSeconds >= 0 {
        currentSeconds := newSeconds;
        timerJob := CountdownJob(startTime, newSeconds);
        events := events + [OnTick(currentSeconds, currentState, intervalsCompleted),
                            Notify(StartingIn(currentSeconds))];
      }
      if currentSeconds <= 0 {
        LoopExit(now);
      }
    }

    /** The `if (newSeconds != lastSecond && newSeconds >= 0)` block of a meditation pass. */
    method PublishSecond(newSeconds: int, lastSecond: int) returns (last: int)
      requires currentState == Meditating
      modifies this
      ensures Snapshot() == if Observed(newSeconds, lastSecond) then old(Snapshot()).(currentSeconds := newSeconds)
                            else old(Snapshot())
      ensures last == if Observed(newSeconds, lastSecond) then newSeconds else lastSecond
      ensures events == old(events) + if Observed(newSeconds, lastSecond) then
                                        [OnTick(newSeconds, Meditating, intervalsCompleted),
                                         Notify(Remaining(newSeconds))]
                                      else []
    {
      last := lastSecond;
      if newSeconds != last && newSeconds >= 0 {
        currentSeconds := newSeconds;
        last := newSeconds;
        events := events + [OnTick(currentSeconds, currentState, intervalsCompleted),
                            Notify(Remaining(currentSeconds))];
      }
    }

    method MeditationPass(startTime: int, totalSeconds: int, lastSecond: int, lastIntervalCheck: int, now: Clock)
      requires currentState == Meditating && intervalSeconds > 0
      modifies this
      ensures Snapshot() == TimerEngine.MeditationPass(old(Snapshot()), startTime, totalSeconds, lastSecond, lastIntervalCheck, now).next
      ensures events == old(events) + TimerEngine.MeditationPass(old(Snapshot()), startTime, totalSeconds, lastSecond, lastIntervalCheck, now).emitted
    {
      ghost var e0 := events;
      var elapsed := now.elapsedRealtime - startTime;
      var elapsedSeconds := KotlinInt.Div(elapsed, 1000);
      var newSeconds := totalSeconds - elapsedSeconds;
      var last := PublishSecond(newSeconds, lastSecond);
      ghost var s1, e1 := Snapshot(), events;
      MeditationCheckAfter(s1, startTime, totalSeconds, last, lastIntervalCheck, elapsedSeconds, e1[|e0|..], now);
      MeditationCheck(startTime, totalSeconds, last, lastIntervalCheck, elapsedSeconds, now);
      Regroup3(e0, e1[|e0|..], events[|e1|..]);
    }

    /** The interval check of a meditation pass, then the break test. */
    method MeditationCheck(startTime: int, totalSeconds: int, lastSecond: int, lastIntervalCheck: int,
                           elapsedSeconds: int, now: Clock)
      requires intervalSeconds > 0
      modifies this
      ensures Snapshot() == TimerEngine.MeditationCheck(old(Snapshot()), startTime, totalSeconds, lastSecond,
                                                        lastIntervalCheck, elapsedSeconds, [], now).next
      ensures events == old(events) + TimerEngine.MeditationCheck(old(Snapshot()), startTime, totalSeconds, lastSecond,
                                                                  lastIntervalCheck, elapsedSeconds, [], now).emitted
    {
      ghost var s0, e0 := Snapshot(), events;
      ghost var r := TimerEngine.MeditationCheck(s0, startTime, totalSeconds, lastSecond, lastIntervalCheck,
                                                 elapsedSeconds, [], now);
      MeditationCheckCases(s0, startTime, totalSeconds, lastSecond, lastIntervalCheck, elapsedSeconds, [], now);
      if elapsedSeconds > lastIntervalCheck && KotlinInt.Rem(elapsedSeconds, intervalSeconds) == 0 && elapsedSeconds > 0 {
        intervalsCompleted := KotlinInt.Div(elapsedSeconds, intervalSeconds);
        ghost var s2 := Snapshot();
        assert s2 == s0.(intervalsCompleted := intervalsCompleted);
        if intervalsCompleted >= numIntervals {
          assert r == Then([FinalBell], TimerEngine.FinishSession(s2));
          events := events + [FinalBell];
          ghost var e1 := events;
          FinishSession();
          Regroup3(e0, [FinalBell], events[|e1|..]);
        } else {
          var job := MeditationJob(startTime, totalSeconds, lastSecond, elapsedSeconds);
          assert r == Then([IntervalBell], TimerEngine.EndPass(s2.(timerJob := job), [], now));
          events := events + [IntervalBell];
          ghost var e1 := events;
          EndPass(job, now);
          Regroup3(e0, [IntervalBell], events[|e1|..]);
        }
      } else {
        assert r == Then([], TimerEngine.EndPass(s0.(timerJob := MeditationJob(startTime, totalSeconds, lastSecond, lastIntervalCheck)), [], now));
        EndPass(MeditationJob(startTime, totalSeconds, lastSecond, lastIntervalCheck), now);
      }
    }

    method ResumePass(startTime: int, remainingSeconds: int, lastSecond: int, now: Clock)
      requires currentState == Meditating && intervalSeconds > 0
      modifies this
      ensures Snapshot() == TimerEngine.ResumePass(old(Snapshot()), startTime, remainingSeconds, lastSecond, now).next
      ensures events == old(events) + TimerEngine.ResumePass(old(Snapshot()), startTime, remainingSeconds, lastSecond, now).emitted
    {
      ghost var e0 := events;
      var elapsed := now.elapsedRealtime - startTime;
      var elapsedSeconds := KotlinInt.Div(elapsed, 1000);
      var newSeconds := remainingSeconds - elapsedSeconds;
      var last := PublishSecond(newSeconds, lastSecond);
      ghost var s1, e1 := Snapshot(), events;
      ResumeCheckAfter(s1, startTime, remainingSeconds, last, e1[|e0|..], now);
      ResumeCheck(startTime, remainingSeconds, last, now);
      Regroup3(e0, e1[|e0|..], events[|e1|..]);
    }

    /** The intervals a resumed pass derives from the time left, then the break test. */
    method ResumeCheck(startTime: int, remainingSeconds: int, lastSecond: int, now: Clock)
      requires intervalSeconds > 0
      modifies this
      ensures Snapshot() == TimerEngine.ResumeCheck(old(Snapshot()), startTime, remainingSeconds, lastSecond, [], now).next
      ensures events == old(events) + TimerEngine.ResumeCheck(old(Snapshot()), startTime, remainingSeconds, lastSecond, [], now).emitted
    {
      ghost var s0, e0 := Snapshot(), events;
      ghost var r := TimerEngine.ResumeCheck(s0, startTime, remainingSeconds, lastSecond, [], now);
      var job := ResumeJob(startTime, remainingSeconds, lastSecond);
      ResumeCheckCases(s0, startTime, remainingSeconds, lastSecond, [], now);
      var totalElapsed := KotlinInt.Mul(intervalSeconds, numIntervals) - currentSeconds;
      var expectedIntervals := KotlinInt.Div(totalElapsed, intervalSeconds);
      if expectedIntervals > intervalsCompleted {
        intervalsCompleted := expectedIntervals;
        ghost var s2 := Snapshot();
        assert s2 == s0.(intervalsCompleted := expectedIntervals);
        if intervalsCompleted >= numIntervals {
          assert r == Then([FinalBell], TimerEngine.FinishSession(s2));
          events := events + [FinalBell];
          ghost var e1 := events;
          FinishSession();
          Regroup3(e0, [FinalBell], events[|e1|..]);
        } else {
          assert r == Then([IntervalBell], TimerEngine.EndPass(s2.(timerJob := job), [], now));
          events := events + [IntervalBell];
          ghost var e1 := events;
          EndPass(job, now);
          Regroup3(e0, [IntervalBell], events[|e1|..]);
        }
      } else {
        assert r == Then([], TimerEngine.EndPass(s0.(timerJob := job), [], now));
        EndPass(job, now);
      }
    }

    /**
     * One pass of the running coroutine at the clock reading `now`. From a
     * valid state at a reading the coroutine accepts, the state stays valid.
     */
    method Tick(now: Clock)
      requires Ready(Snapshot())
      modifies this
      ensures Snapshot() == TimerEngine.Tick(old(Snapshot()), now).next
      ensures events == old(events) + TimerEngine.Tick(old(Snapshot()), now).emitted
      ensures old(Valid() && NotBefore(Snapshot(), now)) ==> Valid()
    {
      ghost var before := Snapshot();
      if old(Valid() && NotBefore(Snapshot(), now)) {
        TickInv(before, now);
      }
      match timerJob
      case NoJob =>
      case CountdownJob(startTime, lastSecond) =>
        if currentSeconds > 0 && currentState == Countdown {
          CountdownPass(startTime, lastSecond, now);
        } else {
          LoopExit(now);
        }
      case MeditationJob(startTime, totalSeconds, lastSecond, lastIntervalCheck) =>
        if currentSeconds > 0 && currentState == Meditating {
          MeditationPass(startTime, totalSeconds, lastSecond, lastIntervalCheck, now);
        } else {
          LoopExit(now);
        }
      case ResumeJob(startTime, remainingSeconds, lastSecond) =>
        if currentSeconds > 0 && currentState == Meditating && !isPaused {
          ResumePass(startTime, remainingSeconds, lastSecond, now);
        } else {
          LoopExit(now);
        }
    }

    method SetWhiteNoiseVolume(volume: real)
      modifies this
      ensures Snapshot() == TimerEngine.SetWhiteNoiseVolume(old(Snapshot()), volume).next
      ensures events == old(events) + TimerEngine.SetWhiteNoiseVolume(old(Snapshot()), volume).emitted
    {
      whiteNoiseVolume := volume;
      events := events + [WhiteNoiseVolume(volume)];
    }

    method PauseTimer()
      modifies this
      ensures Snapshot() == TimerEngine.PauseTimer(old(Snapshot())) && events == old(events)
      ensures old(Valid()) ==> Valid()
    {
      if currentState == Meditating && !isPaused {
        isPaused := true;
        pausedAtSeconds := currentSeconds;
        timerJob := NoJob;
      }
    }

    method ResumeTimer(now: Clock)
      modifies this
      ensures Snapshot() == TimerEngine.ResumeTimer(old(Snapshot()), now) && events == old(events)
      ensures old(Valid()) ==> Valid()
    {
      if currentState == Meditating && isPaused {
        isPaused := false;
        currentSeconds := pausedAtSeconds;
        ResumeMeditationTimer(now);
      }
    }

    method ResumeMeditationTimer(now: Clock)
      modifies this
      ensures Snapshot() == old(Snapshot()).(timerJob := ResumeJob(now.elapsedRealtime, old(currentSeconds), old(currentSeconds)))
      ensures events == old(events)
    {
      var remainingSeconds := currentSeconds;
      timerJob := ResumeJob(now.elapsedRealtime, remainingSeconds, remainingSeconds);
    }

    method StopTimer()
      modifies this
      ensures Snapshot() == TimerEngine.StopTimer(old(Snapshot())).next
      ensures events == old(events) + TimerEngine.StopTimer(old(Snapshot())).emitted
    {
      timerJob := NoJob;
      events := events + [StopWhiteNoise];
      currentState := Idle;
      events := events + [OnStateChange(currentState, sessionStartTime, sessionDate)];
    }

  }
}
