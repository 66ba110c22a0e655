/**
 * What the timer engine does pass by pass: how the published second count
 * follows the clock, when bells ring, when a run ends, what pausing and
 * resuming keep, and what happens when passes are further apart than one
 * second.
 */
module TimerEngineProperties {
  import opened Wrappers
  import opened Text
  import KotlinInt
  import opened TimerEngine

  lemma AbsentCount(evs: seq<Event>, e: Event)
    requires e !in evs
    ensures multiset(evs)[e] == 0
  {
  }

  // ---------------------------------------------------------------------
  // Countdown

  /**
   * Each countdown pass shows the configured countdown minus the whole
   * seconds elapsed; the pass that sees zero starts the meditation with one
   * opening bell and the session's timestamps. A pass that sees a negative
   * count changes nothing, so a countdown whose zero second is never sampled
   * stays where it is.
   */
  lemma {:induction false} CountdownFollowsClock(s: Engine, now: Clock)
    requires Inv(s) && s.state == Countdown && s.currentSeconds > 0 && NotBefore(s, now)
    ensures var es := ElapsedSeconds(s.timerJob.startTime, now);
      var r := Tick(s, now);
      (es < s.countdownSeconds ==>
         r.next.state == Countdown && r.next.currentSeconds == s.countdownSeconds - es
         && (r.emitted != [] <==> r.next.currentSeconds != s.currentSeconds))
      && (es == s.countdownSeconds ==>
         r.next.state == Meditating && r.next.currentSeconds == TotalSeconds(s)
         && r.next.intervalsCompleted == 0
         && r.next.sessionStartTime == Some(now.timeOfDay) && r.next.sessionDate == Some(now.today)
         && multiset(r.emitted)[IntervalBell] == 1
         && OnStateChange(Meditating, Some(now.timeOfDay), Some(now.today)) in r.emitted)
      && (es > s.countdownSeconds ==> r == Step(s, []))
  {
    var es := ElapsedSeconds(s.timerJob.startTime, now);
    if es == s.countdownSeconds {
      var s1 := s.(currentSeconds := 0, timerJob := CountdownJob(s.timerJob.startTime, 0));
      var m := StartMeditation(s1, now);
      assert multiset(m.emitted)[IntervalBell] == 1;
    }
  }

  /** A countdown with nothing left to count starts the meditation on its first pass. */
  lemma ZeroCountdownStartsAtOnce(s: Engine, now: Clock)
    requires Inv(s) && s.state == Countdown && s.currentSeconds == 0
    ensures Tick(s, now) == StartMeditation(s, now)
  {
  }

  /**
   * A meditation whose run length is not positive, which an interval length
   * of 0 gives, skips its loop and finishes on its first pass without dividing.
   */
  lemma {:induction false} EmptyRunFinishesAtOnce(s: Engine, now: Clock, later: Clock)
    requires TotalSeconds(s) <= 0
    ensures var m := StartMeditation(s, now).next;
      && m.state == Meditating && Ready(m)
      && Tick(m, later) == Step(m.(state := Finished, timerJob := NoJob), [FinalBell, StopWhiteNoise, OnFinished])
  {
    var m := StartMeditation(s, now).next;
    assert !LoopTest(m);
    assert Tick(m, later) == Then([FinalBell], FinishSession(m));
  }

  /** No countdown pass rings the final bell or reports the end of a session. */
  lemma {:induction false} CountdownNeverFinishes(s: Engine, now: Clock)
    requires Inv(s) && s.state == Countdown
    ensures Ready(s)
    ensures FinalBell !in Tick(s, now).emitted && OnFinished !in Tick(s, now).emitted
    ensures Tick(s, now).next.state in {Countdown, Meditating}
  {
  }

  // ---------------------------------------------------------------------
  // Meditation from its start

  /** Before the total has elapsed, the meditation shows the total minus the whole seconds elapsed. */
  lemma {:induction false} MeditationFollowsClock(s: Engine, now: Clock)
    requires Inv(s) && s.timerJob.MeditationJob? && NotBefore(s, now)
    requires ElapsedSeconds(s.timerJob.startTime, now) < TotalSeconds(s)
    ensures s.intervalSeconds > 0
    ensures var r := Tick(s, now);
      r.next.state == Meditating
      && r.next.currentSeconds == TotalSeconds(s) - ElapsedSeconds(s.timerJob.startTime, now)
      && FinalBell !in r.emitted && OnFinished !in r.emitted
  {
    var es := ElapsedSeconds(s.timerJob.startTime, now);
    if IntervalDue(es, s.timerJob.lastIntervalCheck, s.intervalSeconds) {
      KotlinInt.QuotientVersusFactor(es, s.intervalSeconds, s.numIntervals);
    }
  }

  /**
   * An interval bell rings on a pass exactly when the whole seconds elapsed
   * are a multiple of the interval length not acted on yet and short of the
   * total; it rings once, and the completed intervals become that multiple's
   * index. A boundary that falls between two passes gets no bell.
   */
  lemma {:induction false} IntervalBellRule(s: Engine, now: Clock)
    requires Inv(s) && s.timerJob.MeditationJob? && NotBefore(s, now)
    ensures s.intervalSeconds > 0
    ensures var es := ElapsedSeconds(s.timerJob.startTime, now);
      var r := Tick(s, now);
      ((IntervalBell in r.emitted)
         <==> (IntervalDue(es, s.timerJob.lastIntervalCheck, s.intervalSeconds) && es < TotalSeconds(s)))
      && multiset(r.emitted)[IntervalBell] <= 1
      && (IntervalBell in r.emitted ==>
            r.next.intervalsCompleted == KotlinInt.Div(es, s.intervalSeconds)
            && r.next.timerJob.MeditationJob? && r.next.timerJob.lastIntervalCheck == es)
  {
    var es := ElapsedSeconds(s.timerJob.startTime, now);
    KotlinInt.NonNegative(es, s.intervalSeconds);
    if IntervalDue(es, s.timerJob.lastIntervalCheck, s.intervalSeconds) {
      KotlinInt.QuotientVersusFactor(es, s.intervalSeconds, s.numIntervals);
    }
  }

  /** Once a boundary has rung, another pass in the same second does not ring it again. */
  lemma {:induction false} BellOncePerBoundary(s: Engine, now: Clock, again: Clock)
    requires Inv(s) && s.timerJob.MeditationJob? && NotBefore(s, now)
    requires now.elapsedRealtime <= again.elapsedRealtime
    requires ElapsedSeconds(s.timerJob.startTime, again) == ElapsedSeconds(s.timerJob.startTime, now)
    requires Ready(s) && IntervalBell in Tick(s, now).emitted
    ensures Ready(Tick(s, now).next)
    ensures IntervalBell !in Tick(Tick(s, now).next, again).emitted
  {
    IntervalBellRule(s, now);
    TickInv(s, now);
    var n := Tick(s, now).next;
    assert n.timerJob.startTime == s.timerJob.startTime;
    NotBeforeLater(n, now, again);
    IntervalBellRule(n, again);
  }

  /**
   * The meditation ends on a pass exactly when the whole seconds elapsed
   * have reached the total and are a multiple of the interval length; the
   * completed intervals then count those multiples, which is more than
   * configured when the total's own second was not sampled. The pass ends
   * with the final bell, the white noise off and the end of session reported.
   */
  lemma {:induction false} MeditationFinishRule(s: Engine, now: Clock)
    requires Inv(s) && s.timerJob.MeditationJob? && NotBefore(s, now)
    ensures s.intervalSeconds > 0
    ensures var es := ElapsedSeconds(s.timerJob.startTime, now);
      var r := Tick(s, now);
      (r.next.state == Finished <==> es >= TotalSeconds(s) && KotlinInt.Rem(es, s.intervalSeconds) == 0)
      && (r.next.state == Finished ==>
            r.next.intervalsCompleted == KotlinInt.Div(es, s.intervalSeconds)
            && r.next.intervalsCompleted >= s.numIntervals
            && (es > TotalSeconds(s) ==> r.next.intervalsCompleted > s.numIntervals)
            && |r.emitted| >= 3 && r.emitted[|r.emitted| - 3..] == [FinalBell, StopWhiteNoise, OnFinished])
      && (r.next.state != Finished ==> r.next.state == Meditating)
  {
    MeditationFinishIff(s, now);
    if Tick(s, now).next.state == Finished {
      MeditationFinishShape(s, now);
    }
  }

  lemma {:induction false} MeditationFinishIff(s: Engine, now: Clock)
    requires Inv(s) && s.timerJob.MeditationJob? && NotBefore(s, now)
    ensures s.intervalSeconds > 0
    ensures var es := ElapsedSeconds(s.timerJob.startTime, now);
      var n := Tick(s, now).next;
      (n.state == Finished <==> es >= TotalSeconds(s) && KotlinInt.Rem(es, s.intervalSeconds) == 0)
      && (n.state != Finished ==> n.state == Meditating)
  {
    var es := ElapsedSeconds(s.timerJob.startTime, now);
    KotlinInt.QuotientVersusFactor(es, s.intervalSeconds, s.numIntervals);
    KotlinInt.MultipleQuotient(s.intervalSeconds, s.numIntervals);
    KotlinInt.MulMonotone(s.intervalSeconds, s.intervalsCompleted + 1, s.numIntervals);
  }

  lemma {:induction false} MeditationFinishShape(s: Engine, now: Clock)
    requires Inv(s) && s.timerJob.MeditationJob? && NotBefore(s, now)
    requires s.intervalSeconds > 0 && Tick(s, now).next.state == Finished
    ensures var es := ElapsedSeconds(s.timerJob.startTime, now);
      var r := Tick(s, now);
      r.next.intervalsCompleted == KotlinInt.Div(es, s.intervalSeconds)
      && r.next.intervalsCompleted >= s.numIntervals
      && (es > TotalSeconds(s) ==> r.next.intervalsCompleted > s.numIntervals)
      && |r.emitted| >= 3 && r.emitted[|r.emitted| - 3..] == [FinalBell, StopWhiteNoise, OnFinished]
  {
    var es := ElapsedSeconds(s.timerJob.startTime, now);
    MeditationFinishIff(s, now);
    KotlinInt.QuotientVersusFactor(es, s.intervalSeconds, s.numIntervals);
    KotlinInt.ExactQuotient(es, s.intervalSeconds);
  }

  /** Past the total, a pass at a second that is not a multiple of the interval length changes nothing. */
  lemma {:induction false} MeditationOverrunStalls(s: Engine, now: Clock)
    requires Inv(s) && s.timerJob.MeditationJob? && NotBefore(s, now)
    requires ElapsedSeconds(s.timerJob.startTime, now) > TotalSeconds(s)
    requires KotlinInt.Rem(ElapsedSeconds(s.timerJob.startTime, now), s.intervalSeconds) != 0
    ensures Tick(s, now) == Step(s, [])
  {
  }

  /**
   * A pass that samples the total's own second publishes 0, then rings the
   * final bell and ends the session.
   */
  lemma {:induction false} OnTimeFinish(s: Engine, now: Clock)
    requires Inv(s) && s.timerJob.MeditationJob? && NotBefore(s, now)
    requires ElapsedSeconds(s.timerJob.startTime, now) == TotalSeconds(s)
    ensures Ready(s)
    ensures var r := Tick(s, now);
      r.next.state == Finished && r.next.currentSeconds == 0
      && r.emitted == [OnTick(0, Meditating, s.intervalsCompleted), Notify(Remaining(0)),
                       FinalBell, StopWhiteNoise, OnFinished]
  {
    var total := TotalSeconds(s);
    KotlinInt.MultipleQuotient(s.intervalSeconds, s.numIntervals);
    var ticked := [OnTick(0, Meditating, s.intervalsCompleted), Notify(Remaining(0))];
    var s1 := s.(currentSeconds := 0);
    assert IntervalDue(total, s.timerJob.lastIntervalCheck, s.intervalSeconds);
    assert Tick(s, now) == Then(ticked + [FinalBell], FinishSession(s1.(intervalsCompleted := s.numIntervals)));
  }

  /**
   * Past the total, a pass at a multiple of the interval length ends the
   * session without publishing a second: the service keeps the last second
   * it published.
   */
  lemma {:induction false} OverrunFinish(s: Engine, now: Clock)
    requires Inv(s) && s.timerJob.MeditationJob? && NotBefore(s, now)
    requires ElapsedSeconds(s.timerJob.startTime, now) > TotalSeconds(s)
    requires KotlinInt.Rem(ElapsedSeconds(s.timerJob.startTime, now), s.intervalSeconds) == 0
    ensures Ready(s)
    ensures var r := Tick(s, now);
      r.next.state == Finished && r.next.currentSeconds == s.currentSeconds
      && r.emitted == [FinalBell, StopWhiteNoise, OnFinished]
  {
    var es := ElapsedSeconds(s.timerJob.startTime, now);
    KotlinInt.QuotientVersusFactor(es, s.intervalSeconds, s.numIntervals);
    var completed := KotlinInt.Div(es, s.intervalSeconds);
    assert IntervalDue(es, s.timerJob.lastIntervalCheck, s.intervalSeconds);
    assert Tick(s, now) == Then([] + [FinalBell], FinishSession(s.(intervalsCompleted := completed)));
  }

  // ---------------------------------------------------------------------
  // Pause and resume

  /** Pausing freezes the meditation: a second pause does nothing and no pass changes anything. */
  lemma {:induction false} PauseFreezes(s: Engine, now: Clock)
    requires Inv(s) && s.state == Meditating && !s.isPaused
    ensures var p := PauseTimer(s);
      p.isPaused && p.pausedAtSeconds == s.currentSeconds && p.currentSeconds == s.currentSeconds
      && PauseTimer(p) == p && Tick(p, now) == Step(p, [])
  {
  }

  /** Pausing and resuming only does something during a meditation. */
  lemma PauseResumeOutsideMeditation(s: Engine, now: Clock)
    requires s.state != Meditating
    ensures PauseTimer(s) == s && ResumeTimer(s, now) == s
  {
  }

  /**
   * Pausing then resuming continues from the same second with the same
   * session; only the coroutine differs, a resumed one counting down from
   * that second from the moment of the resume.
   */
  lemma {:induction false} PauseThenResume(s: Engine, now: Clock)
    requires Inv(s) && s.state == Meditating && !s.isPaused
    ensures var r := ResumeTimer(PauseTimer(s), now);
      r == s.(pausedAtSeconds := s.currentSeconds,
              timerJob := ResumeJob(now.elapsedRealtime, s.currentSeconds, s.currentSeconds))
      && ResumeTimer(r, now) == r
  {
  }

  /** After resuming, each pass shows the paused value minus the whole seconds since the resume. */
  lemma {:induction false} ResumeFollowsClock(s: Engine, now: Clock)
    requires Inv(s) && s.timerJob.ResumeJob? && NotBefore(s, now)
    requires ElapsedSeconds(s.timerJob.startTime, now) < s.timerJob.remainingSeconds
    ensures s.intervalSeconds > 0
    ensures var r := Tick(s, now);
      r.next.state == Meditating
      && r.next.currentSeconds == s.timerJob.remainingSeconds - ElapsedSeconds(s.timerJob.startTime, now)
  {
    var newSeconds := s.timerJob.remainingSeconds - ElapsedSeconds(s.timerJob.startTime, now);
    KotlinInt.QuotientVersusFactor(TotalSeconds(s) - newSeconds, s.intervalSeconds, s.numIntervals);
  }

  /**
   * A resumed pass sets the completed intervals from the time spent so far,
   * and rings one interval bell however many boundaries that catches up.
   */
  lemma {:induction false} ResumeCatchUp(s: Engine, now: Clock)
    requires Inv(s) && s.timerJob.ResumeJob? && NotBefore(s, now)
    ensures s.intervalSeconds > 0
    ensures var r := Tick(s, now);
      (r.next.state == Meditating ==>
         r.next.intervalsCompleted == KotlinInt.Div(TotalSeconds(s) - r.next.currentSeconds, s.intervalSeconds))
      && (IntervalBell in r.emitted <==> r.next.state == Meditating && r.next.intervalsCompleted > s.intervalsCompleted)
      && multiset(r.emitted)[IntervalBell] <= 1
  {
    var ResumeJob(t, remaining, last) := s.timerJob;
    assert Tick(s, now) == ResumePass(s, t, remaining, last, now);
    assert KotlinInt.Mul(s.intervalSeconds, s.intervalsCompleted) <= TotalSeconds(s) - s.currentSeconds;
    ResumePassCatchUp(s, t, remaining, last, now);
  }

  /**
   * A resumed pass leaves the completed count at what the time spent
   * gives, and rings one interval bell exactly when that count rose.
   */
  predicate CatchesUp(s: Engine, r: Step)
    requires s.intervalSeconds > 0
  {
    (r.next.state == Meditating ==>
       r.next.intervalsCompleted == KotlinInt.Div(TotalSeconds(s) - r.next.currentSeconds, s.intervalSeconds))
    && (IntervalBell in r.emitted <==> r.next.state == Meditating && r.next.intervalsCompleted > s.intervalsCompleted)
    && multiset(r.emitted)[IntervalBell] <= 1
  }

  lemma {:induction false} ResumePassCatchUp(s: Engine, t: int, remaining: int, last: int, now: Clock)
    requires s.intervalSeconds > 0 && s.state == Meditating && s.currentSeconds > 0
    requires 0 <= s.intervalsCompleted < s.numIntervals
    requires KotlinInt.Mul(s.intervalSeconds, s.intervalsCompleted) <= TotalSeconds(s) - s.currentSeconds
    requires last == s.currentSeconds && remaining - ElapsedSeconds(t, now) <= last
    ensures CatchesUp(s, ResumePass(s, t, remaining, last, now))
  {
    var newSeconds := remaining - ElapsedSeconds(t, now);
    var r := ResumePass(s, t, remaining, last, now);
    if Observed(newSeconds, last) {
      var s1 := s.(currentSeconds := newSeconds);
      var ticked := [OnTick(newSeconds, Meditating, s.intervalsCompleted), Notify(Remaining(newSeconds))];
      assert r == ResumeCheck(s1, t, remaining, newSeconds, ticked, now);
      ResumeCheckCatchUp(s, s1, t, remaining, newSeconds, ticked, now);
    } else {
      assert r == ResumeCheck(s, t, remaining, last, [], now);
      ResumeCheckCatchUp(s, s, t, remaining, last, [], now);
    }
  }

  lemma {:induction false} ResumeCheckCatchUp(s: Engine, s1: Engine, t: int, remaining: int, last1: int,
                                              ticked: seq<Event>, now: Clock)
    requires s.intervalSeconds > 0 && s.state == Meditating && 0 <= s.intervalsCompleted < s.numIntervals
    requires KotlinInt.Mul(s.intervalSeconds, s.intervalsCompleted) <= TotalSeconds(s) - s.currentSeconds
    requires s1 == s.(currentSeconds := s1.currentSeconds) && 0 <= s1.currentSeconds <= s.currentSeconds
    requires IntervalBell !in ticked
    ensures CatchesUp(s, ResumeCheck(s1, t, remaining, last1, ticked, now))
  {
    assert TotalSeconds(s1) == TotalSeconds(s);
    var expected := KotlinInt.Div(TotalSeconds(s1) - s1.currentSeconds, s1.intervalSeconds);
    CatchUpBounds(s.intervalsCompleted, s.intervalSeconds, s.numIntervals, s.currentSeconds, s1.currentSeconds);
    if expected > s1.intervalsCompleted && expected >= s1.numIntervals {
      CatchUpFinishCheck(s, s1, t, remaining, last1, ticked, now);
    } else if expected > s1.intervalsCompleted {
      CatchUpBellCheck(s, s1, t, remaining, last1, ticked, now);
    } else {
      CatchUpQuietCheck(s, s1, t, remaining, last1, ticked, now);
    }
  }

  lemma CatchUpFinishCheck(s: Engine, s1: Engine, t: int, remaining: int, last1: int, ticked: seq<Event>, now: Clock)
    requires s.intervalSeconds > 0 && s1 == s.(currentSeconds := s1.currentSeconds) && IntervalBell !in ticked
    requires var expected := KotlinInt.Div(TotalSeconds(s1) - s1.currentSeconds, s1.intervalSeconds);
      expected > s1.intervalsCompleted && expected >= s1.numIntervals
    ensures CatchesUp(s, ResumeCheck(s1, t, remaining, last1, ticked, now))
  {
    var expected := KotlinInt.Div(TotalSeconds(s1) - s1.currentSeconds, s1.intervalSeconds);
    var s2 := s1.(intervalsCompleted := expected);
    assert ResumeCheck(s1, t, remaining, last1, ticked, now) == Then(ticked + [FinalBell], FinishSession(s2));
    CatchUpFinish(s, ticked, s2);
  }

  lemma CatchUpBellCheck(s: Engine, s1: Engine, t: int, remaining: int, last1: int, ticked: seq<Event>, now: Clock)
    requires s.intervalSeconds > 0 && s1 == s.(currentSeconds := s1.currentSeconds) && IntervalBell !in ticked
    requires s.state == Meditating && s1.currentSeconds > 0
    requires var expected := KotlinInt.Div(TotalSeconds(s1) - s1.currentSeconds, s1.intervalSeconds);
      s1.intervalsCompleted < expected < s1.numIntervals
    ensures CatchesUp(s, ResumeCheck(s1, t, remaining, last1, ticked, now))
  {
    var expected := KotlinInt.Div(TotalSeconds(s1) - s1.currentSeconds, s1.intervalSeconds);
    assert TotalSeconds(s1) == TotalSeconds(s);
    var x := s1.(intervalsCompleted := expected, timerJob := ResumeJob(t, remaining, last1));
    ResumeCheckCases(s1, t, remaining, last1, ticked, now);
    assert EndPass(x, [], now) == Step(x, []);
    assert ResumeCheck(s1, t, remaining, last1, ticked, now) == Then(ticked + [IntervalBell], Step(x, []));
    CatchUpBell(s, ticked, x);
  }

  lemma CatchUpQuietCheck(s: Engine, s1: Engine, t: int, remaining: int, last1: int, ticked: seq<Event>, now: Clock)
    requires s.intervalSeconds > 0 && s1 == s.(currentSeconds := s1.currentSeconds) && IntervalBell !in ticked
    requires s.state == Meditating && s1.currentSeconds > 0
    requires KotlinInt.Div(TotalSeconds(s1) - s1.currentSeconds, s1.intervalSeconds) == s1.intervalsCompleted
    ensures CatchesUp(s, ResumeCheck(s1, t, remaining, last1, ticked, now))
  {
    assert TotalSeconds(s1) == TotalSeconds(s);
    var x := s1.(timerJob := ResumeJob(t, remaining, last1));
    ResumeCheckCases(s1, t, remaining, last1, ticked, now);
    assert EndPass(x, [], now) == Step(x, []);
    assert ResumeCheck(s1, t, remaining, last1, ticked, now) == Then(ticked, Step(x, []));
    CatchUpQuiet(s, ticked, x);
  }

  lemma CatchUpFinish(s: Engine, ticked: seq<Event>, s2: Engine)
    requires s.intervalSeconds > 0 && IntervalBell !in ticked
    ensures CatchesUp(s, Then(ticked + [FinalBell], FinishSession(s2)))
  {
    var evs := Then(ticked + [FinalBell], FinishSession(s2)).emitted;
    assert evs == ticked + [FinalBell, StopWhiteNoise, OnFinished];
    AbsentCount(evs, IntervalBell);
  }

  lemma CatchUpBell(s: Engine, ticked: seq<Event>, x: Engine)
    requires s.intervalSeconds > 0 && IntervalBell !in ticked && x.state == Meditating
    requires x.intervalsCompleted == KotlinInt.Div(TotalSeconds(s) - x.currentSeconds, s.intervalSeconds)
    requires x.intervalsCompleted > s.intervalsCompleted
    ensures CatchesUp(s, Then(ticked + [IntervalBell], Step(x, [])))
  {
    var evs := ticked + [IntervalBell] + [];
    assert evs == ticked + [IntervalBell];
    AbsentCount(ticked, IntervalBell);
    assert multiset(evs) == multiset(ticked) + multiset{IntervalBell};
  }

  lemma CatchUpQuiet(s: Engine, ticked: seq<Event>, x: Engine)
    requires s.intervalSeconds > 0 && IntervalBell !in ticked && x.state == Meditating
    requires x.intervalsCompleted == s.intervalsCompleted
    requires x.intervalsCompleted == KotlinInt.Div(TotalSeconds(s) - x.currentSeconds, s.intervalSeconds)
    ensures CatchesUp(s, Then(ticked, Step(x, [])))
  {
    assert ticked + [] == ticked;
    AbsentCount(ticked, IntervalBell);
  }

  /**
   * The arithmetic of a resumed pass: the completed count never falls, and
   * it reaches the configured number exactly when no time is left.
   */
  lemma {:induction false} CatchUpBounds(completed: int, interval: int, intervals: int, current: int, current1: int)
    requires interval > 0 && 0 <= current1 <= current && completed >= 0
    requires KotlinInt.Mul(interval, completed) <= KotlinInt.Mul(interval, intervals) - current
    ensures completed <= KotlinInt.Div(KotlinInt.Mul(interval, intervals) - current1, interval)
    ensures KotlinInt.Div(KotlinInt.Mul(interval, intervals) - current1, interval) < intervals <==> current1 > 0
  {
    var spent, spent1 := KotlinInt.Mul(interval, intervals) - current, KotlinInt.Mul(interval, intervals) - current1;
    KotlinInt.MulMonotone(interval, 0, completed);
    KotlinInt.QuotientVersusFactor(spent, interval, completed);
    KotlinInt.DivMonotone(spent, spent1, interval);
    KotlinInt.QuotientVersusFactor(spent1, interval, intervals);
  }

  /** A resumed meditation ends only on the pass that sees exactly zero seconds left. */
  lemma {:induction false} ResumeFinishesOnlyAtZero(s: Engine, now: Clock)
    requires Inv(s) && s.timerJob.ResumeJob? && NotBefore(s, now)
    ensures s.intervalSeconds > 0
    ensures (Tick(s, now).next.state == Finished)
              <==> (ElapsedSeconds(s.timerJob.startTime, now) == s.timerJob.remainingSeconds)
  {
    var newSeconds := s.timerJob.remainingSeconds - ElapsedSeconds(s.timerJob.startTime, now);
    var s1 := if Observed(newSeconds, s.timerJob.lastSecond) then s.(currentSeconds := newSeconds) else s;
    KotlinInt.QuotientVersusFactor(TotalSeconds(s) - s1.currentSeconds, s.intervalSeconds, s.numIntervals);
    if newSeconds == 0 {
      assert TotalSeconds(s) - s1.currentSeconds == KotlinInt.Mul(s.intervalSeconds, s.numIntervals);
    }
  }

  /**
   * Once its zero second has been missed and the intervals have caught up,
   * a resumed meditation is stuck: no later pass changes anything.
   */
  lemma {:induction false} ResumeStalls(s: Engine, now: Clock)
    requires Inv(s) && s.timerJob.ResumeJob? && NotBefore(s, now)
    requires ElapsedSeconds(s.timerJob.startTime, now) > s.timerJob.remainingSeconds
    requires s.intervalsCompleted == KotlinInt.Div(TotalSeconds(s) - s.currentSeconds, s.intervalSeconds)
    ensures Tick(s, now) == Step(s, [])
  {
  }

  // ---------------------------------------------------------------------
  // Stopping

  /**
   * Stopping reports IDLE with the timestamps the run had, turns the white
   * noise off and leaves no coroutine. The result satisfies the invariant
   * exactly when the service was not paused: a paused service keeps its
   * pause flag.
   */
  lemma {:induction false} StopTimerRule(s: Engine)
    requires Inv(s)
    ensures var r := StopTimer(s);
      r.next.state == Idle && r.next.timerJob == NoJob
      && r.emitted == [StopWhiteNoise, OnStateChange(Idle, s.sessionStartTime, s.sessionDate)]
      && (Inv(r.next) <==> !s.isPaused)
  {
  }

  /**
   * On a service that is reused after being stopped while paused, the next
   * meditation cannot be paused: its pause flag is still set, so pausing is
   * ignored while the coroutine keeps running.
   */
  lemma {:induction false} StalePauseFlag(s: Engine, countdownSeconds: int, intervalSeconds: int,
                                          numIntervals: int, whiteNoiseVolume: real, now: Clock, later: Clock)
    requires Inv(s) && s.state == Meditating && !s.isPaused
    ensures var stopped := StopTimer(PauseTimer(s)).next;
      var counting := StartCountdown(stopped, countdownSeconds, intervalSeconds, numIntervals, whiteNoiseVolume, now).next;
      var meditating := StartMeditation(counting, later).next;
      meditating.isPaused && meditating.timerJob.MeditationJob? && PauseTimer(meditating) == meditating
  {
  }

  // ---------------------------------------------------------------------
  // Whole runs

  /** Clock readings in non-decreasing order. */
  predicate Ordered(clocks: seq<Clock>) {
    forall i, j :: 0 <= i < j < |clocks| ==> clocks[i].elapsedRealtime <= clocks[j].elapsedRealtime
  }

  /** Passes at the given readings, one after another. */
  function Run(s: Engine, clocks: seq<Clock>): Step
    requires s.intervalSeconds > 0
    decreases |clocks|
  {
    if clocks == [] then Step(s, [])
    else
      var first := Tick(s, clocks[0]);
      Then(first.emitted, Run(first.next, clocks[1..]))
  }

  /**
   * Over passes at non-decreasing readings the invariant holds throughout,
   * and the end of a session is reported at most once, as the last event,
   * leaving the service FINISHED.
   */
  lemma {:induction false} RunFinishesOnce(s: Engine, clocks: seq<Clock>)
    requires Inv(s) && s.intervalSeconds > 0 && Ordered(clocks)
    requires clocks != [] ==> NotBefore(s, clocks[0])
    ensures var r := Run(s, clocks);
      Inv(r.next)
      && (OnFinished in r.emitted ==> Last(r.emitted, OnFinished) && r.next.state == Finished)
      && (s.state == Finished ==> r == Step(s, []))
    decreases |clocks|
  {
    if clocks != [] {
      var first := Tick(s, clocks[0]);
      TickInv(s, clocks[0]);
      var rest := clocks[1..];
      if rest != [] {
        NotBeforeLater(first.next, clocks[0], rest[0]);
      }
      assert Ordered(rest) by {
        forall i, j | 0 <= i < j < |rest| ensures rest[i].elapsedRealtime <= rest[j].elapsedRealtime {
          assert rest[i] == clocks[i + 1] && rest[j] == clocks[j + 1];
        }
      }
      RunFinishesOnce(first.next, rest);
      var tail := Run(first.next, rest);
      assert Run(s, clocks) == Then(first.emitted, tail);
      TickEndsOnFinished(s, clocks[0]);
      assert EndsOnFinished(s, first);
      if OnFinished in first.emitted {
        assert tail == Step(first.next, []);
        assert first.emitted + tail.emitted == first.emitted;
      } else if OnFinished in tail.emitted {
        LastAfter(first.emitted, tail.emitted, OnFinished);
      }
      if s.state == Finished {
        assert first == Step(s, []);
      }
    }
  }

  /**
   * A stopped service has no coroutine left, so no later pass does
   * anything: a countdown that was stopped never reaches MEDITATING.
   */
  lemma {:induction false} StoppedStaysIdle(s: Engine, clocks: seq<Clock>)
    requires s.intervalSeconds > 0
    ensures Run(StopTimer(s).next, clocks) == Step(StopTimer(s).next, [])
    decreases |clocks|
  {
    if clocks != [] {
      StoppedStaysIdle(s, clocks[1..]);
    }
  }

  lemma LastAfter(a: seq<Event>, b: seq<Event>, e: Event)
    requires e !in a && Last(b, e)
    ensures Last(a + b, e)
  {
    assert (a + b)[..|a + b| - 1] == a + b[..|b| - 1];
  }

  /** How a step reports the end of a session: at most once, last, and exactly when it finishes. */
  predicate EndsOnFinished(s: Engine, r: Step) {
    (OnFinished in r.emitted <==> r.next.state == Finished && s.state != Finished)
    && (OnFinished in r.emitted ==> Last(r.emitted, OnFinished))
  }

  /** `e` is the last element of `evs` and occurs nowhere before it. */
  predicate Last(evs: seq<Event>, e: Event) {
    |evs| > 0 && evs[|evs| - 1] == e && e !in evs[..|evs| - 1]
  }

  lemma {:induction false} ThenFinish(s: Engine, evs: seq<Event>, x: Engine)
    requires OnFinished !in evs && s.state != Finished
    ensures EndsOnFinished(s, Then(evs, FinishSession(x)))
  {
    var r := Then(evs, FinishSession(x));
    assert r.emitted == evs + [StopWhiteNoise, OnFinished];
    assert r.emitted[..|r.emitted| - 1] == evs + [StopWhiteNoise];
  }

  lemma {:induction false} LoopExitEndsOnFinished(s: Engine, x: Engine, evs: seq<Event>, now: Clock)
    requires OnFinished !in evs && s.state != Finished && x.state == s.state
    ensures EndsOnFinished(s, Then(evs, LoopExit(x, now)))
  {
    match x.timerJob
    case NoJob =>
    case CountdownJob(_, _) =>
    case MeditationJob(_, _, _, _) =>
      if x.state == Meditating {
        ThenFinish(s, evs + [FinalBell], x);
      }
    case ResumeJob(_, _, _) =>
      if x.state == Meditating && !x.isPaused {
        ThenFinish(s, evs + [FinalBell], x);
      }
  }

  lemma {:induction false} EndPassEndsOnFinished(s: Engine, x: Engine, evs: seq<Event>, now: Clock)
    requires OnFinished !in evs && s.state != Finished && x.state == s.state
    ensures EndsOnFinished(s, EndPass(x, evs, now))
  {
    if x.currentSeconds <= 0 {
      LoopExitEndsOnFinished(s, x, evs, now);
    }
  }

  /** A pass reports the end of a session at most once, last, and only when it finishes the run. */
  lemma {:induction false} TickEndsOnFinished(s: Engine, now: Clock)
    requires Inv(s)
    ensures Ready(s)
    ensures EndsOnFinished(s, Tick(s, now))
  {
    if s.state == Finished {
    } else if !LoopTest(s) {
      LoopExitEndsOnFinished(s, s, [], now);
      assert Then([], LoopExit(s, now)) == LoopExit(s, now);
    } else {
      match s.timerJob
      case CountdownJob(t, last) =>
        var newSeconds := s.countdownSeconds - ElapsedSeconds(t, now);
        if Observed(newSeconds, last) {
          EndPassEndsOnFinished(s, s.(currentSeconds := newSeconds, timerJob := CountdownJob(t, newSeconds)),
            [OnTick(newSeconds, Countdown, s.intervalsCompleted),
             Notify(StartingIn(newSeconds))], now);
        } else {
          EndPassEndsOnFinished(s, s, [], now);
        }
      case MeditationJob(t, total, last, check) =>
        assert Tick(s, now) == MeditationPass(s, t, total, last, check, now);
        MeditationEndsOnFinished(s, t, total, last, check, now);
      case ResumeJob(t, remaining, last) =>
        assert Tick(s, now) == ResumePass(s, t, remaining, last, now);
        ResumeEndsOnFinished(s, t, remaining, last, now);
    }
  }

  lemma {:induction false} MeditationEndsOnFinished(s: Engine, t: int, total: int, last: int, check: int, now: Clock)
    requires s.state == Meditating && s.intervalSeconds > 0
    ensures EndsOnFinished(s, MeditationPass(s, t, total, last, check, now))
  {
    var es := ElapsedSeconds(t, now);
    var newSeconds := total - es;
    if Observed(newSeconds, last) {
      var ticked := [OnTick(newSeconds, Meditating, s.intervalsCompleted), Notify(Remaining(newSeconds))];
      assert MeditationPass(s, t, total, last, check, now)
          == MeditationCheck(s.(currentSeconds := newSeconds), t, total, newSeconds, check, es, ticked, now);
      MeditationCheckEndsOnFinished(s, s.(currentSeconds := newSeconds), t, total, newSeconds, check, es, ticked, now);
    } else {
      assert MeditationPass(s, t, total, last, check, now) == MeditationCheck(s, t, total, last, check, es, [], now);
      MeditationCheckEndsOnFinished(s, s, t, total, last, check, es, [], now);
    }
  }

  lemma {:induction false} MeditationCheckEndsOnFinished(s: Engine, s1: Engine, t: int, total: int, last1: int,
                                                         check: int, es: int, ticked: seq<Event>, now: Clock)
    requires s1.intervalSeconds > 0 && OnFinished !in ticked && s.state != Finished && s1.state == s.state
    ensures EndsOnFinished(s, MeditationCheck(s1, t, total, last1, check, es, ticked, now))
  {
    var r := MeditationCheck(s1, t, total, last1, check, es, ticked, now);
    if IntervalDue(es, check, s1.intervalSeconds) {
      var completed := KotlinInt.Div(es, s1.intervalSeconds);
      var s2 := s1.(intervalsCompleted := completed);
      if completed >= s1.numIntervals {
        assert r == Then(ticked + [FinalBell], FinishSession(s2));
        ThenFinish(s, ticked + [FinalBell], s2);
      } else {
        var x := s2.(timerJob := MeditationJob(t, total, last1, es));
        assert r == EndPass(x, ticked + [IntervalBell], now);
        EndPassEndsOnFinished(s, x, ticked + [IntervalBell], now);
      }
    } else {
      var x := s1.(timerJob := MeditationJob(t, total, last1, check));
      assert r == EndPass(x, ticked, now);
      EndPassEndsOnFinished(s, x, ticked, now);
    }
  }

  lemma {:induction false} ResumeEndsOnFinished(s: Engine, t: int, remaining: int, last: int, now: Clock)
    requires s.state == Meditating && s.intervalSeconds > 0
    ensures EndsOnFinished(s, ResumePass(s, t, remaining, last, now))
  {
    var newSeconds := remaining - ElapsedSeconds(t, now);
    if Observed(newSeconds, last) {
      var ticked := [OnTick(newSeconds, Meditating, s.intervalsCompleted), Notify(Remaining(newSeconds))];
      assert ResumePass(s, t, remaining, last, now)
          == ResumeCheck(s.(currentSeconds := newSeconds), t, remaining, newSeconds, ticked, now);
      ResumeCheckEndsOnFinished(s, s.(currentSeconds := newSeconds), t, remaining, newSeconds, ticked, now);
    } else {
      assert ResumePass(s, t, remaining, last, now) == ResumeCheck(s, t, remaining, last, [], now);
      ResumeCheckEndsOnFinished(s, s, t, remaining, last, [], now);
    }
  }

  lemma {:induction false} ResumeCheckEndsOnFinished(s: Engine, s1: Engine, t: int, remaining: int, last1: int,
                                                     ticked: seq<Event>, now: Clock)
    requires s1.intervalSeconds > 0 && OnFinished !in ticked && s.state != Finished && s1.state == s.state
    ensures EndsOnFinished(s, ResumeCheck(s1, t, remaining, last1, ticked, now))
  {
    var r := ResumeCheck(s1, t, remaining, last1, ticked, now);
    var expected := KotlinInt.Div(TotalSeconds(s1) - s1.currentSeconds, s1.intervalSeconds);
    if expected > s1.intervalsCompleted {
      var s2 := s1.(intervalsCompleted := expected);
      if expected >= s1.numIntervals {
        assert r == Then(ticked + [FinalBell], FinishSession(s2));
        ThenFinish(s, ticked + [FinalBell], s2);
      } else {
        var x := s2.(timerJob := ResumeJob(t, remaining, last1));
        assert r == EndPass(x, ticked + [IntervalBell], now);
        EndPassEndsOnFinished(s, x, ticked + [IntervalBell], now);
      }
    } else {
      var x := s1.(timerJob := ResumeJob(t, remaining, last1));
      assert r == EndPass(x, ticked, now);
      EndPassEndsOnFinished(s, x, ticked, now);
    }
  }

  /** Within one phase the seconds left never rise and never go negative. */
  lemma {:induction false} TickNeverRises(s: Engine, now: Clock)
    requires Inv(s) && NotBefore(s, now)
    ensures Ready(s)
    ensures var n := Tick(s, now).next;
      (n.state in {Countdown, Meditating} ==> n.currentSeconds >= 0)
      && (n.state == s.state ==> n.currentSeconds <= s.currentSeconds)
  {
    TickInv(s, now);
  }

  // ---------------------------------------------------------------------
  // Phase reports

  /** The callbacks that tell a client about a change of phase. */
  predicate IsReport(e: Event) {
    e.OnStateChange? || e.OnFinished?
  }

  /** The phase reports among `evs`, in order. */
  function Reports(evs: seq<Event>): (r: seq<Event>)
    ensures forall k :: 0 <= k < |r| ==> IsReport(r[k])
    decreases |evs|
  {
    if evs == [] then []
    else Reports(evs[..|evs| - 1]) + (if IsReport(evs[|evs| - 1]) then [evs[|evs| - 1]] else [])
  }

  lemma {:induction false} ReportsAppend(a: seq<Event>, b: seq<Event>)
    ensures Reports(a + b) == Reports(a) + Reports(b)
    decreases |b|
  {
    if b == [] {
      assert a + b == a;
    } else {
      var b' := b[..|b| - 1];
      assert (a + b)[..|a + b| - 1] == a + b';
      ReportsAppend(a, b');
    }
  }

  lemma {:induction false} NoReports(evs: seq<Event>)
    requires forall k :: 0 <= k < |evs| ==> !IsReport(evs[k])
    ensures Reports(evs) == []
    decreases |evs|
  {
    if evs != [] {
      NoReports(evs[..|evs| - 1]);
    }
  }

  /**
   * A step reports a phase change exactly when it makes one, then once and
   * with the new phase: `onFinished` for FINISHED, `onStateChange` with the
   * new timestamps otherwise. A step that keeps the phase keeps the
   * timestamps.
   */
  predicate ReportsChange(s: Engine, r: Step) {
    (r.next.state == s.state ==>
       Reports(r.emitted) == []
       && r.next.sessionStartTime == s.sessionStartTime && r.next.sessionDate == s.sessionDate)
    && (r.next.state != s.state ==>
       Reports(r.emitted) == [if r.next.state == Finished then OnFinished
                              else OnStateChange(r.next.state, r.next.sessionStartTime, r.next.sessionDate)])
  }

  lemma {:induction false} ThenReports(s: Engine, evs: seq<Event>, r: Step)
    requires Reports(evs) == [] && ReportsChange(s, r)
    ensures ReportsChange(s, Then(evs, r))
  {
    ReportsAppend(evs, r.emitted);
  }

  lemma {:induction false} FinishReports(s: Engine, x: Engine)
    requires s.state != Finished
    ensures ReportsChange(s, FinishSession(x))
  {
    var evs := FinishSession(x).emitted;
    NoReports(evs[..1]);
    assert evs[..1] + [OnFinished] == evs;
    ReportsAppend(evs[..1], [OnFinished]);
    assert Reports([OnFinished]) == Reports([]) + [OnFinished];
  }

  lemma {:induction false} StartMeditationReports(s: Engine, x: Engine, now: Clock)
    requires s.state == Countdown
    ensures ReportsChange(s, StartMeditation(x, now))
  {
    var r := StartMeditation(x, now);
    var e := r.emitted[|r.emitted| - 1];
    NoReports(r.emitted[..|r.emitted| - 1]);
    assert e == OnStateChange(Meditating, r.next.sessionStartTime, r.next.sessionDate);
  }

  lemma {:induction false} LoopExitReports(s: Engine, x: Engine, now: Clock)
    requires x.state == s.state && x.sessionStartTime == s.sessionStartTime && x.sessionDate == s.sessionDate
    ensures ReportsChange(s, LoopExit(x, now))
  {
    match x.timerJob
    case NoJob =>
    case CountdownJob(_, _) =>
      if x.state == Countdown {
        StartMeditationReports(s, x, now);
      }
    case MeditationJob(_, _, _, _) =>
      if x.state == Meditating {
        FinishReports(s, x);
        ThenReports(s, [FinalBell], FinishSession(x));
        assert Reports([FinalBell]) == Reports([]);
      }
    case ResumeJob(_, _, _) =>
      if x.state == Meditating && !x.isPaused {
        FinishReports(s, x);
        ThenReports(s, [FinalBell], FinishSession(x));
        assert Reports([FinalBell]) == Reports([]);
      }
  }

  lemma {:induction false} EndPassReports(s: Engine, x: Engine, evs: seq<Event>, now: Clock)
    requires Reports(evs) == []
    requires x.state == s.state && x.sessionStartTime == s.sessionStartTime && x.sessionDate == s.sessionDate
    ensures ReportsChange(s, EndPass(x, evs, now))
  {
    if x.currentSeconds <= 0 {
      LoopExitReports(s, x, now);
      ThenReports(s, evs, LoopExit(x, now));
    }
  }

  /** The events of a published second are no phase report. */
  lemma {:induction false} TickedIsQuiet(n: int, st: ServiceState, ic: int, text: Notice, extra: seq<Event>)
    requires forall k :: 0 <= k < |extra| ==> !IsReport(extra[k])
    ensures Reports([OnTick(n, st, ic), Notify(text)] + extra) == []
    ensures Reports(extra) == []
  {
    NoReports([OnTick(n, st, ic), Notify(text)] + extra);
    NoReports(extra);
  }

  /** Every pass reports its phase changes, once each. */
  lemma {:induction false} TickReports(s: Engine, now: Clock)
    requires Ready(s)
    ensures ReportsChange(s, Tick(s, now))
  {
    if !LoopTest(s) {
      LoopExitReports(s, s, now);
    } else {
      match s.timerJob
      case CountdownJob(t, last) =>
        assert Tick(s, now) == CountdownPass(s, t, last, now);
        CountdownReports(s, t, last, now);
      case MeditationJob(t, total, last, check) =>
        assert Tick(s, now) == MeditationPass(s, t, total, last, check, now);
        MeditationReports(s, t, total, last, check, now);
      case ResumeJob(t, remaining, last) =>
        assert Tick(s, now) == ResumePass(s, t, remaining, last, now);
        ResumeReports(s, t, remaining, last, now);
    }
  }

  lemma {:induction false} CountdownReports(s: Engine, t: int, last: int, now: Clock)
    requires s.timerJob == CountdownJob(t, last)
    ensures ReportsChange(s, CountdownPass(s, t, last, now))
  {
    var newSeconds := s.countdownSeconds - ElapsedSeconds(t, now);
    if Observed(newSeconds, last) {
      var ticked := [OnTick(newSeconds, Countdown, s.intervalsCompleted), Notify(StartingIn(newSeconds))];
      TickedIsQuiet(newSeconds, Countdown, s.intervalsCompleted, StartingIn(newSeconds), []);
      assert ticked + [] == ticked;
      var x := s.(currentSeconds := newSeconds, timerJob := CountdownJob(t, newSeconds));
      assert CountdownPass(s, t, last, now) == EndPass(x, ticked, now);
      EndPassReports(s, x, ticked, now);
    } else {
      assert CountdownPass(s, t, last, now) == EndPass(s, [], now);
      EndPassReports(s, s, [], now);
    }
  }

  lemma {:induction false} MeditationReports(s: Engine, t: int, total: int, last: int, check: int, now: Clock)
    requires s.state == Meditating && s.intervalSeconds > 0
    ensures ReportsChange(s, MeditationPass(s, t, total, last, check, now))
  {
    var es := ElapsedSeconds(t, now);
    var newSeconds := total - es;
    if Observed(newSeconds, last) {
      var ticked := [OnTick(newSeconds, Meditating, s.intervalsCompleted), Notify(Remaining(newSeconds))];
      TickedIsQuiet(newSeconds, Meditating, s.intervalsCompleted, Remaining(newSeconds), []);
      assert ticked + [] == ticked;
      assert MeditationPass(s, t, total, last, check, now)
          == MeditationCheck(s.(currentSeconds := newSeconds), t, total, newSeconds, check, es, ticked, now);
      MeditationCheckReports(s, s.(currentSeconds := newSeconds), t, total, newSeconds, check, es, ticked, now);
    } else {
      assert MeditationPass(s, t, total, last, check, now) == MeditationCheck(s, t, total, last, check, es, [], now);
      MeditationCheckReports(s, s, t, total, last, check, es, [], now);
    }
  }

  lemma {:induction false} MeditationCheckReports(s: Engine, s1: Engine, t: int, total: int, last1: int,
                                                  check: int, es: int, ticked: seq<Event>, now: Clock)
    requires s1.intervalSeconds > 0 && s.state == Meditating && Reports(ticked) == []
    requires s1.state == s.state && s1.sessionStartTime == s.sessionStartTime && s1.sessionDate == s.sessionDate
    ensures ReportsChange(s, MeditationCheck(s1, t, total, last1, check, es, ticked, now))
  {
    MeditationCheckCases(s1, t, total, last1, check, es, ticked, now);
    if IntervalDue(es, check, s1.intervalSeconds) {
      var completed := KotlinInt.Div(es, s1.intervalSeconds);
      var s2 := s1.(intervalsCompleted := completed);
      if completed >= s1.numIntervals {
        QuietBell(ticked, FinalBell);
        FinishReports(s, s2);
        ThenReports(s, ticked + [FinalBell], FinishSession(s2));
      } else {
        var x := s2.(timerJob := MeditationJob(t, total, last1, es));
        QuietBell(ticked, IntervalBell);
        EndPassReports(s, x, [], now);
        ThenReports(s, ticked + [IntervalBell], EndPass(x, [], now));
      }
    } else {
      var x := s1.(timerJob := MeditationJob(t, total, last1, check));
      EndPassReports(s, x, [], now);
      ThenReports(s, ticked, EndPass(x, [], now));
    }
  }

  lemma {:induction false} ResumeReports(s: Engine, t: int, remaining: int, last: int, now: Clock)
    requires s.state == Meditating && s.intervalSeconds > 0
    ensures ReportsChange(s, ResumePass(s, t, remaining, last, now))
  {
    var newSeconds := remaining - ElapsedSeconds(t, now);
    if Observed(newSeconds, last) {
      var ticked := [OnTick(newSeconds, Meditating, s.intervalsCompleted), Notify(Remaining(newSeconds))];
      TickedIsQuiet(newSeconds, Meditating, s.intervalsCompleted, Remaining(newSeconds), []);
      assert ticked + [] == ticked;
      assert ResumePass(s, t, remaining, last, now)
          == ResumeCheck(s.(currentSeconds := newSeconds), t, remaining, newSeconds, ticked, now);
      ResumeCheckReports(s, s.(currentSeconds := newSeconds), t, remaining, newSeconds, ticked, now);
    } else {
      assert ResumePass(s, t, remaining, last, now) == ResumeCheck(s, t, remaining, last, [], now);
      ResumeCheckReports(s, s, t, remaining, last, [], now);
    }
  }

  lemma {:induction false} ResumeCheckReports(s: Engine, s1: Engine, t: int, remaining: int, last1: int,
                                              ticked: seq<Event>, now: Clock)
    requires s1.intervalSeconds > 0 && s.state == Meditating && Reports(ticked) == []
    requires s1.state == s.state && s1.sessionStartTime == s.sessionStartTime && s1.sessionDate == s.sessionDate
    ensures ReportsChange(s, ResumeCheck(s1, t, remaining, last1, ticked, now))
  {
    ResumeCheckCases(s1, t, remaining, last1, ticked, now);
    var expected := KotlinInt.Div(TotalSeconds(s1) - s1.currentSeconds, s1.intervalSeconds);
    if expected > s1.intervalsCompleted {
      var s2 := s1.(intervalsCompleted := expected);
      if expected >= s1.numIntervals {
        QuietBell(ticked, FinalBell);
        FinishReports(s, s2);
        ThenReports(s, ticked + [FinalBell], FinishSession(s2));
      } else {
        var x := s2.(timerJob := ResumeJob(t, remaining, last1));
        QuietBell(ticked, IntervalBell);
        EndPassReports(s, x, [], now);
        ThenReports(s, ticked + [IntervalBell], EndPass(x, [], now));
      }
    } else {
      var x := s1.(timerJob := ResumeJob(t, remaining, last1));
      EndPassReports(s, x, [], now);
      ThenReports(s, ticked, EndPass(x, [], now));
    }
  }

  /** A bell after quiet calls keeps them quiet. */
  lemma {:induction false} QuietBell(ticked: seq<Event>, bell: Event)
    requires Reports(ticked) == [] && !IsReport(bell)
    ensures Reports(ticked + [bell]) == []
  {
    ReportsAppend(ticked, [bell]);
    assert [bell][..0] == [];
  }

  /** Stopping reports IDLE once, with the timestamps the service has. */
  lemma {:induction false} StopReports(s: Engine)
    ensures Reports(StopTimer(s).emitted) == [OnStateChange(Idle, s.sessionStartTime, s.sessionDate)]
  {
    var evs := StopTimer(s).emitted;
    NoReports(evs[..1]);
    assert evs[..1] + [evs[1]] == evs;
    ReportsAppend(evs[..1], [evs[1]]);
    assert Reports([evs[1]]) == Reports([]) + [evs[1]];
  }

  /** Starting a countdown reports COUNTDOWN once, with no timestamps. */
  lemma {:induction false} StartCountdownReports(s: Engine, countdownSeconds: int, intervalSeconds: int,
                                                 numIntervals: int, whiteNoiseVolume: real, now: Clock)
    ensures Reports(StartCountdown(s, countdownSeconds, intervalSeconds, numIntervals, whiteNoiseVolume, now).emitted)
         == [OnStateChange(Countdown, None, None)]
  {
    var evs := StartCountdown(s, countdownSeconds, intervalSeconds, numIntervals, whiteNoiseVolume, now).emitted;
    assert evs[..0] == [];
  }

  // ---------------------------------------------------------------------
  // The notification's time text

  /** The text reads back as the seconds shown; below ten minutes it is `M:SS`. */
  lemma {:induction false} FormatTimeRoundTrip(totalSeconds: int)
    requires totalSeconds >= 0
    ensures DecodeClock(FormatTime(totalSeconds)) == Some(totalSeconds)
    ensures totalSeconds < 600 ==> |FormatTime(totalSeconds)| == 4
  {
    var m, sec := KotlinInt.Div(totalSeconds, 60), KotlinInt.Rem(totalSeconds, 60);
    KotlinInt.DivRemProduct(totalSeconds, 60);
    NatToStringRoundTrip(m);
    PadTwoRoundTrip(sec);
    assert IntToString(m) == NatToString(m);
    DecodeClockOf(IntToString(m), PadTwo(sec), m, sec);
    if totalSeconds < 600 {
      assert m < 10;
    }
  }

  /** The notification during a meditation is the time text, which reads back, followed by " remaining". */
  lemma {:induction false} RemainingNoticeReadsBack(seconds: int)
    requires seconds >= 0
    ensures var t := NoticeText(Remaining(seconds));
      |t| >= 10 && t[|t| - 10..] == " remaining" && DecodeClock(t[..|t| - 10]) == Some(seconds)
  {
    var f := FormatTime(seconds);
    var t := NoticeText(Remaining(seconds));
    assert t == f + " remaining";
    assert t[..|t| - 10] == f;
    FormatTimeRoundTrip(seconds);
  }
}
