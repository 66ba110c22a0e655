/**
 * The timer engine of `MeditationTimerService`, as values: the service's
 * fields form an `Engine`, and every operation is a function from the old
 * fields (and, where the code reads a clock, a `Clock` reading) to the new
 * fields together with the calls the service makes outward, in order, as
 * `Event`s: callbacks to the bound view model, bell and white-noise
 * commands to the audio player, and notification texts.
 *
 * The three polling coroutines (countdown, meditation, resumed meditation)
 * are recorded in `timerJob` together with their loop-local variables. One
 * `Tick` is one pass of the running coroutine's loop: the loop test, the
 * body, the `break` test and, when the loop ends, the code after it. The
 * pause of 100 ms between passes is not modelled; a pass may happen at any
 * clock reading. A coroutine reads its start time when it first runs, and
 * the model takes that reading as the `Clock` handed to the operation that
 * launches it.
 */
module TimerEngine {
  import opened Wrappers
  import opened Text
  import KotlinInt

  datatype ServiceState = Idle | Countdown | Meditating | Finished

  datatype Event =
    | OnTick(secondsRemaining: int, state: ServiceState, intervalsCompleted: int)
    | OnStateChange(state: ServiceState, sessionStartTime: Option<string>, sessionDate: Option<string>)
    | OnFinished
    | IntervalBell
    | FinalBell
    | StartWhiteNoise(volume: real)
    | WhiteNoiseVolume(volume: real)
    | StopWhiteNoise
    | Notify(notice: Notice)

  /** What an `updateNotification` call shows; `NoticeText` gives its text. */
  datatype Notice = StartingIn(seconds: int) | Remaining(seconds: int)

  /**
   * One reading of the clocks: `SystemClock.elapsedRealtime()` in
   * milliseconds, and `LocalDate.now()` / `LocalTime.now()` as their ISO texts.
   */
  datatype Clock = Clock(elapsedRealtime: int, today: string, timeOfDay: string)

  /** The coroutine held in `timerJob`, with its loop-local variables. */
  datatype Job =
    | NoJob
    | CountdownJob(startTime: int, lastSecond: int)
    | MeditationJob(startTime: int, totalSeconds: int, lastSecond: int, lastIntervalCheck: int)
    | ResumeJob(startTime: int, remainingSeconds: int, lastSecond: int)

  datatype Engine = Engine(
    state: ServiceState,
    countdownSeconds: int,
    intervalSeconds: int,
    numIntervals: int,
    currentSeconds: int,
    intervalsCompleted: int,
    whiteNoiseVolume: real,
    sessionStartTime: Option<string>,
    sessionDate: Option<string>,
    pausedAtSeconds: int,
    isPaused: bool,
    timerJob: Job)

  /** The fields after an operation and the outward calls it made. */
  datatype Step = Step(next: Engine, emitted: seq<Event>)

  /** The fields of a newly created service. */
  const Created: Engine :=
    Engine(Idle, 0, 0, 0, 0, 0, 0.0, None, None, 0, false, NoJob)

  function TotalSeconds(s: Engine): int {
    KotlinInt.Mul(s.intervalSeconds, s.numIntervals)
  }

  /** `(elapsed / 1000).toInt()` for the milliseconds since `startTime`. */
  function ElapsedSeconds(startTime: int, now: Clock): int {
    KotlinInt.Div(now.elapsedRealtime - startTime, 1000)
  }

  /** `"%d:%02d".format(minutes, seconds)` with ASCII digits, the notification's remaining time. */
  function FormatTime(totalSeconds: int): string {
    IntToString(KotlinInt.Div(totalSeconds, 60)) + ":" + PadTwo(KotlinInt.Rem(totalSeconds, 60))
  }

  /** The text of a notification update. */
  function NoticeText(n: Notice): string {
    match n
    case StartingIn(seconds) => "Starting in " + IntToString(seconds) + " seconds"
    case Remaining(seconds) => FormatTime(seconds) + " remaining"
  }

  /** The fields a coroutine pass never writes: the configuration and the pause bookkeeping. */
  predicate SameSettings(a: Engine, b: Engine) {
    a.countdownSeconds == b.countdownSeconds && a.intervalSeconds == b.intervalSeconds
    && a.numIntervals == b.numIntervals && a.whiteNoiseVolume == b.whiteNoiseVolume
    && a.isPaused == b.isPaused && a.pausedAtSeconds == b.pausedAtSeconds
  }

  /** The outward calls `evs` happen before those of `step`. */
  function Then(evs: seq<Event>, step: Step): Step {
    Step(step.next, evs + step.emitted)
  }

  /**
   * A coroutine that divides by the interval length needs a positive one,
   * unless its loop test already fails and only the code after the loop runs.
   */
  predicate Ready(s: Engine) {
    s.timerJob.NoJob? || s.timerJob.CountdownJob? || s.intervalSeconds > 0 || !LoopTest(s)
  }

  /** `onStartCommand` with `ACTION_START_COUNTDOWN`: the intent's extras, then `startCountdown`. */
  function StartCountdown(s: Engine, countdownSeconds: int, intervalSeconds: int, numIntervals: int,
                          whiteNoiseVolume: real, now: Clock): Step
  {
    Step(s.(countdownSeconds := countdownSeconds, intervalSeconds := intervalSeconds,
            numIntervals := numIntervals, whiteNoiseVolume := whiteNoiseVolume,
            state := Countdown, currentSeconds := countdownSeconds, intervalsCompleted := 0,
            sessionStartTime := None, sessionDate := None,
            timerJob := CountdownJob(now.elapsedRealtime, countdownSeconds)),
         [OnStateChange(Countdown, None, None)])
  }

  /** `startMeditation`: the opening bell, the white noise, the timestamps and the meditation coroutine. */
  function StartMeditation(s: Engine, now: Clock): (r: Step)
    ensures SameSettings(r.next, s)
  {
    var total := TotalSeconds(s);
    var started := s.(sessionStartTime := Some(now.timeOfDay), sessionDate := Some(now.today),
                      state := Meditating, currentSeconds := total, intervalsCompleted := 0,
                      timerJob := MeditationJob(now.elapsedRealtime, total, total, 0));
    Step(started,
         [IntervalBell]
         + (if s.whiteNoiseVolume > 0.0 then [StartWhiteNoise(s.whiteNoiseVolume)] else [])
         + [OnStateChange(Meditating, started.sessionStartTime, started.sessionDate)])
  }

  /** `finishSession`. The coroutine that calls it returns, so no job remains. */
  function FinishSession(s: Engine): (r: Step)
    ensures SameSettings(r.next, s)
  {
    Step(s.(state := Finished, timerJob := NoJob), [StopWhiteNoise, OnFinished])
  }

  /** The code after the running coroutine's loop. */
  function LoopExit(s: Engine, now: Clock): (r: Step)
    ensures SameSettings(r.next, s)
  {
    match s.timerJob
    case NoJob => Step(s, [])
    case CountdownJob(_, _) =>
      if s.state == Countdown then StartMeditation(s, now) else Step(s.(timerJob := NoJob), [])
    case MeditationJob(_, _, _, _) =>
      if s.state == Meditating then Then([FinalBell], FinishSession(s)) else Step(s.(timerJob := NoJob), [])
    case ResumeJob(_, _, _) =>
      if s.state == Meditating && !s.isPaused then Then([FinalBell], FinishSession(s))
      else Step(s.(timerJob := NoJob), [])
  }

  /** The `if (currentSeconds <= 0) break` that ends each pass. */
  function EndPass(s: Engine, evs: seq<Event>, now: Clock): (r: Step)
    ensures SameSettings(r.next, s)
  {
    if s.currentSeconds <= 0 then Then(evs, LoopExit(s, now)) else Step(s, evs)
  }

  /** The loop test of the running coroutine. */
  predicate LoopTest(s: Engine) {
    match s.timerJob
    case NoJob => false
    case CountdownJob(_, _) => s.currentSeconds > 0 && s.state == Countdown
    case MeditationJob(_, _, _, _) => s.currentSeconds > 0 && s.state == Meditating
    case ResumeJob(_, _, _) => s.currentSeconds > 0 && s.state == Meditating && !s.isPaused
  }

  /** A fresh second count is published when it differs from the last and is not negative. */
  predicate Observed(newSeconds: int, lastSecond: int) {
    newSeconds != lastSecond && newSeconds >= 0
  }

  /** One pass of the countdown loop. */
  function CountdownPass(s: Engine, startTime: int, lastSecond: int, now: Clock): (r: Step)
    ensures SameSettings(r.next, s)
  {
    var newSeconds := s.countdownSeconds - ElapsedSeconds(startTime, now);
    if Observed(newSeconds, lastSecond) then
      EndPass(s.(currentSeconds := newSeconds, timerJob := CountdownJob(startTime, newSeconds)),
              [OnTick(newSeconds, Countdown, s.intervalsCompleted),
               Notify(StartingIn(newSeconds))], now)
    else
      EndPass(s, [], now)
  }

  /** A multiple of the interval length, past the last one acted on. */
  predicate IntervalDue(elapsedSeconds: int, lastIntervalCheck: int, intervalSeconds: int)
    requires intervalSeconds > 0
  {
    elapsedSeconds > lastIntervalCheck && KotlinInt.Rem(elapsedSeconds, intervalSeconds) == 0 && elapsedSeconds > 0
  }

  /** One pass of the meditation loop: the published second, then the interval check. */
  function MeditationPass(s: Engine, startTime: int, totalSeconds: int, lastSecond: int,
                          lastIntervalCheck: int, now: Clock): (r: Step)
    requires s.intervalSeconds > 0
    ensures SameSettings(r.next, s)
  {
    var elapsedSeconds := ElapsedSeconds(startTime, now);
    var newSeconds := totalSeconds - elapsedSeconds;
    if Observed(newSeconds, lastSecond) then
      MeditationCheck(s.(currentSeconds := newSeconds), startTime, totalSeconds, newSeconds, lastIntervalCheck,
                      elapsedSeconds, [OnTick(newSeconds, Meditating, s.intervalsCompleted),
                                       Notify(Remaining(newSeconds))], now)
    else
      MeditationCheck(s, startTime, totalSeconds, lastSecond, lastIntervalCheck, elapsedSeconds, [], now)
  }

  /**
   * The rest of a meditation pass after the second is published: the
   * interval check at `elapsedSeconds`, then the break test. `s` holds the
   * published second and `ticked` the calls the pass has made so far.
   */
  function MeditationCheck(s: Engine, startTime: int, totalSeconds: int, lastSecond: int,
                           lastIntervalCheck: int, elapsedSeconds: int, ticked: seq<Event>, now: Clock): (r: Step)
    requires s.intervalSeconds > 0
    ensures SameSettings(r.next, s)
  {
    if IntervalDue(elapsedSeconds, lastIntervalCheck, s.intervalSeconds) then
      var completed := KotlinInt.Div(elapsedSeconds, s.intervalSeconds);
      var s2 := s.(intervalsCompleted := completed);
      if completed >= s.numIntervals then
        Then(ticked + [FinalBell], FinishSession(s2))
      else
        EndPass(s2.(timerJob := MeditationJob(startTime, totalSeconds, lastSecond, elapsedSeconds)),
                ticked + [IntervalBell], now)
    else
      EndPass(s.(timerJob := MeditationJob(startTime, totalSeconds, lastSecond, lastIntervalCheck)), ticked, now)
  }

  /** One pass of the resumed meditation loop: the published second, then the interval check. */
  function ResumePass(s: Engine, startTime: int, remainingSeconds: int, lastSecond: int, now: Clock): (r: Step)
    requires s.intervalSeconds > 0
    ensures SameSettings(r.next, s)
  {
    var newSeconds := remainingSeconds - ElapsedSeconds(startTime, now);
    if Observed(newSeconds, lastSecond) then
      ResumeCheck(s.(currentSeconds := newSeconds), startTime, remainingSeconds, newSeconds,
                  [OnTick(newSeconds, Meditating, s.intervalsCompleted), Notify(Remaining(newSeconds))], now)
    else
      ResumeCheck(s, startTime, remainingSeconds, lastSecond, [], now)
  }

  /**
   * The rest of a resumed pass after the second is published: the
   * intervals derived from the time left, then the break test. `s` holds
   * the published second and `ticked` the calls the pass has made so far.
   */
  function ResumeCheck(s: Engine, startTime: int, remainingSeconds: int, lastSecond: int,
                       ticked: seq<Event>, now: Clock): (r: Step)
    requires s.intervalSeconds > 0
    ensures SameSettings(r.next, s)
  {
    var expected := KotlinInt.Div(TotalSeconds(s) - s.currentSeconds, s.intervalSeconds);
    if expected > s.intervalsCompleted then
      var s2 := s.(intervalsCompleted := expected);
      if expected >= s.numIntervals then
        Then(ticked + [FinalBell], FinishSession(s2))
      else
        EndPass(s2.(timerJob := ResumeJob(startTime, remainingSeconds, lastSecond)), ticked + [IntervalBell], now)
    else
      EndPass(s.(timerJob := ResumeJob(startTime, remainingSeconds, lastSecond)), ticked, now)
  }

  lemma Regroup3(a: seq<Event>, b: seq<Event>, c: seq<Event>)
    ensures (a + b) + c == a + (b + c)
  {
  }

  lemma Regroup4(a: seq<Event>, b: seq<Event>, c: seq<Event>, d: seq<Event>)
    ensures ((a + b) + c) + d == a + ((b + c) + d)
  {
  }

  /** A pass's events before the loop's break test come first. */
  lemma EndPassAfter(x: Engine, evs: seq<Event>, now: Clock)
    ensures EndPass(x, evs, now) == Then(evs, EndPass(x, [], now))
  {
    if x.currentSeconds <= 0 {
      assert [] + LoopExit(x, now).emitted == LoopExit(x, now).emitted;
    } else {
      assert evs + [] == evs;
    }
  }

  /** The calls a pass made before its interval check come first. */
  lemma MeditationCheckAfter(s: Engine, startTime: int, totalSeconds: int, lastSecond: int,
                             lastIntervalCheck: int, elapsedSeconds: int, ticked: seq<Event>, now: Clock)
    requires s.intervalSeconds > 0
    ensures MeditationCheck(s, startTime, totalSeconds, lastSecond, lastIntervalCheck, elapsedSeconds, ticked, now)
         == Then(ticked, MeditationCheck(s, startTime, totalSeconds, lastSecond, lastIntervalCheck, elapsedSeconds, [], now))
  {
    MeditationCheckCases(s, startTime, totalSeconds, lastSecond, lastIntervalCheck, elapsedSeconds, ticked, now);
    MeditationCheckCases(s, startTime, totalSeconds, lastSecond, lastIntervalCheck, elapsedSeconds, [], now);
    assert [] + [FinalBell] == [FinalBell] && [] + [IntervalBell] == [IntervalBell];
  }

  lemma ResumeCheckAfter(s: Engine, startTime: int, remainingSeconds: int, lastSecond: int,
                         ticked: seq<Event>, now: Clock)
    requires s.intervalSeconds > 0
    ensures ResumeCheck(s, startTime, remainingSeconds, lastSecond, ticked, now)
         == Then(ticked, ResumeCheck(s, startTime, remainingSeconds, lastSecond, [], now))
  {
    ResumeCheckCases(s, startTime, remainingSeconds, lastSecond, ticked, now);
    ResumeCheckCases(s, startTime, remainingSeconds, lastSecond, [], now);
    assert [] + [FinalBell] == [FinalBell] && [] + [IntervalBell] == [IntervalBell];
  }

  /** The three ways a meditation pass can end, once the second count has been published. */
  lemma MeditationCheckCases(s: Engine, startTime: int, totalSeconds: int, lastSecond: int,
                             lastIntervalCheck: int, elapsedSeconds: int, ticked: seq<Event>, now: Clock)
    requires s.intervalSeconds > 0
    ensures var completed := KotlinInt.Div(elapsedSeconds, s.intervalSeconds);
      var r := MeditationCheck(s, startTime, totalSeconds, lastSecond, lastIntervalCheck, elapsedSeconds, ticked, now);
      (IntervalDue(elapsedSeconds, lastIntervalCheck, s.intervalSeconds) && completed >= s.numIntervals ==>
         r == Then(ticked + [FinalBell], FinishSession(s.(intervalsCompleted := completed))))
      && (IntervalDue(elapsedSeconds, lastIntervalCheck, s.intervalSeconds) && completed < s.numIntervals ==>
         r == Then(ticked + [IntervalBell],
                   EndPass(s.(intervalsCompleted := completed,
                              timerJob := MeditationJob(startTime, totalSeconds, lastSecond, elapsedSeconds)), [], now)))
      && (!IntervalDue(elapsedSeconds, lastIntervalCheck, s.intervalSeconds) ==>
         r == Then(ticked, EndPass(s.(timerJob := MeditationJob(startTime, totalSeconds, lastSecond, lastIntervalCheck)), [], now)))
  {
    var completed := KotlinInt.Div(elapsedSeconds, s.intervalSeconds);
    EndPassAfter(s.(intervalsCompleted := completed,
                    timerJob := MeditationJob(startTime, totalSeconds, lastSecond, elapsedSeconds)),
                 ticked + [IntervalBell], now);
    EndPassAfter(s.(timerJob := MeditationJob(startTime, totalSeconds, lastSecond, lastIntervalCheck)), ticked, now);
  }

  /** The three ways a resumed pass can end, once the second count has been published. */
  lemma ResumeCheckCases(s: Engine, startTime: int, remainingSeconds: int, lastSecond: int,
                         ticked: seq<Event>, now: Clock)
    requires s.intervalSeconds > 0
    ensures var expected := KotlinInt.Div(TotalSeconds(s) - s.currentSeconds, s.intervalSeconds);
      var r := ResumeCheck(s, startTime, remainingSeconds, lastSecond, ticked, now);
      (expected > s.intervalsCompleted && expected >= s.numIntervals ==>
         r == Then(ticked + [FinalBell], FinishSession(s.(intervalsCompleted := expected))))
      && (expected > s.intervalsCompleted && expected < s.numIntervals ==>
         r == Then(ticked + [IntervalBell],
                   EndPass(s.(intervalsCompleted := expected, timerJob := ResumeJob(startTime, remainingSeconds, lastSecond)), [], now)))
      && (expected <= s.intervalsCompleted ==>
         r == Then(ticked, EndPass(s.(timerJob := ResumeJob(startTime, remainingSeconds, lastSecond)), [], now)))
  {
    var expected := KotlinInt.Div(TotalSeconds(s) - s.currentSeconds, s.intervalSeconds);
    EndPassAfter(s.(intervalsCompleted := expected, timerJob := ResumeJob(startTime, remainingSeconds, lastSecond)),
                 ticked + [IntervalBell], now);
    EndPassAfter(s.(timerJob := ResumeJob(startTime, remainingSeconds, lastSecond)), ticked, now);
  }

  /** One pass of whichever coroutine is running, at the clock reading `now`. */
  function Tick(s: Engine, now: Clock): (r: Step)
    requires Ready(s)
    ensures SameSettings(r.next, s)
  {
    if !LoopTest(s) then LoopExit(s, now)
    else
      match s.timerJob
      case CountdownJob(t, last) => CountdownPass(s, t, last, now)
      case MeditationJob(t, total, last, check) => MeditationPass(s, t, total, last, check, now)
      case ResumeJob(t, remaining, last) => ResumePass(s, t, remaining, last, now)
  }

  /** `setWhiteNoiseVolume`. */
  function SetWhiteNoiseVolume(s: Engine, volume: real): Step {
    Step(s.(whiteNoiseVolume := volume), [WhiteNoiseVolume(volume)])
  }

  /** `pauseTimer`: cancels the coroutine and remembers the seconds left. */
  function PauseTimer(s: Engine): Engine {
    if s.state == Meditating && !s.isPaused then
      s.(isPaused := true, pausedAtSeconds := s.currentSeconds, timerJob := NoJob)
    else s
  }

  /** `resumeTimer` with `resumeMeditationTimer`: a new coroutine counting down from the paused value. */
  function ResumeTimer(s: Engine, now: Clock): Engine {
    if s.state == Meditating && s.isPaused then
      s.(isPaused := false, currentSeconds := s.pausedAtSeconds,
         timerJob := ResumeJob(now.elapsedRealtime, s.pausedAtSeconds, s.pausedAtSeconds))
    else s
  }

  /** `stopTimer`: cancels the coroutine and reports IDLE with the timestamps it has. */
  function StopTimer(s: Engine): Step {
    Step(s.(state := Idle, timerJob := NoJob),
         [StopWhiteNoise, OnStateChange(Idle, s.sessionStartTime, s.sessionDate)])
  }

  // ---------------------------------------------------------------------
  // The invariant of the fields between operations.

  /** The configuration a run needs: a countdown, and at least one interval of at least one second. */
  predicate ConfigOk(s: Engine) {
    s.countdownSeconds >= 0 && s.intervalSeconds >= 1 && s.numIntervals >= 1
  }

  /** What the running coroutine's locals say about the fields during meditation. */
  predicate MeditationJobOk(s: Engine) {
    match s.timerJob
    case NoJob => s.isPaused && s.pausedAtSeconds == s.currentSeconds
    case CountdownJob(_, _) => false
    case MeditationJob(_, total, last, check) =>
      !s.isPaused && total == TotalSeconds(s) && last == s.currentSeconds
      && check == KotlinInt.Mul(s.intervalSeconds, s.intervalsCompleted)
    case ResumeJob(_, remaining, last) =>
      !s.isPaused && last == s.currentSeconds && s.currentSeconds <= remaining <= TotalSeconds(s)
  }

  /**
   * No coroutine outside a run; a countdown counting down from the configured
   * value with no session yet; a meditation with its timestamps, time left in
   * (0, total], fewer completed intervals than configured, and no more
   * completed intervals than the time spent holds. The service is paused
   * exactly when it meditates with no coroutine.
   */
  predicate Inv(s: Engine) {
    match s.state
    case Idle => s.timerJob == NoJob && !s.isPaused
    case Finished => s.timerJob == NoJob && !s.isPaused
    case Countdown =>
      ConfigOk(s) && s.timerJob.CountdownJob? && s.timerJob.lastSecond == s.currentSeconds
      && 0 <= s.currentSeconds <= s.countdownSeconds && s.intervalsCompleted == 0
      && s.sessionStartTime == None && s.sessionDate == None && !s.isPaused
    case Meditating =>
      ConfigOk(s) && s.sessionStartTime.Some? && s.sessionDate.Some?
      && 0 < s.currentSeconds <= TotalSeconds(s)
      && 0 <= s.intervalsCompleted < s.numIntervals
      && KotlinInt.Mul(s.intervalSeconds, s.intervalsCompleted) <= TotalSeconds(s) - s.currentSeconds
      && MeditationJobOk(s)
  }

  /**
   * The clock reading is not earlier than the one that produced the running
   * coroutine's last published second: the second count it gives is not
   * above that second.
   */
  predicate NotBefore(s: Engine, now: Clock) {
    match s.timerJob
    case NoJob => true
    case CountdownJob(t, last) => s.countdownSeconds - ElapsedSeconds(t, now) <= last
    case MeditationJob(t, total, last, _) => total - ElapsedSeconds(t, now) <= last
    case ResumeJob(t, remaining, last) => remaining - ElapsedSeconds(t, now) <= last
  }

  lemma PositiveTotal(s: Engine)
    requires ConfigOk(s)
    ensures TotalSeconds(s) >= 1
  {
    KotlinInt.MulMonotone(s.intervalSeconds, 1, s.numIntervals);
  }

  /** Starting a run from any unpaused state with a usable configuration gives a countdown. */
  lemma {:induction false} StartCountdownInv(s: Engine, countdownSeconds: int, intervalSeconds: int,
                                             numIntervals: int, whiteNoiseVolume: real, now: Clock)
    requires !s.isPaused
    requires countdownSeconds >= 0 && intervalSeconds >= 1 && numIntervals >= 1
    ensures var r := StartCountdown(s, countdownSeconds, intervalSeconds, numIntervals, whiteNoiseVolume, now);
      Inv(r.next) && r.next.state == Countdown && NotBefore(r.next, now)
  {
    var r := StartCountdown(s, countdownSeconds, intervalSeconds, numIntervals, whiteNoiseVolume, now);
    assert ElapsedSeconds(now.elapsedRealtime, now) == 0;
    assert ConfigOk(r.next);
  }

  /** The meditation coroutine starts in a state satisfying the invariant, at its own start time. */
  lemma {:induction false} StartMeditationInv(s: Engine, now: Clock)
    requires ConfigOk(s) && !s.isPaused
    ensures Inv(StartMeditation(s, now).next) && StartMeditation(s, now).next.state == Meditating
    ensures NotBefore(StartMeditation(s, now).next, now)
  {
    PositiveTotal(s);
    assert ElapsedSeconds(now.elapsedRealtime, now) == 0;
  }

  /** A clock reading no earlier than one the coroutine accepts is accepted too. */
  lemma {:induction false} NotBeforeLater(s: Engine, now: Clock, later: Clock)
    requires NotBefore(s, now) && now.elapsedRealtime <= later.elapsedRealtime
    ensures NotBefore(s, later)
  {
    match s.timerJob
    case NoJob =>
    case CountdownJob(t, _) =>
      KotlinInt.DivMonotone(now.elapsedRealtime - t, later.elapsedRealtime - t, 1000);
    case MeditationJob(t, _, _, _) =>
      KotlinInt.DivMonotone(now.elapsedRealtime - t, later.elapsedRealtime - t, 1000);
    case ResumeJob(t, _, _) =>
      KotlinInt.DivMonotone(now.elapsedRealtime - t, later.elapsedRealtime - t, 1000);
  }

  lemma {:induction false} CountdownPassInv(s: Engine, t: int, last: int, now: Clock)
    requires Inv(s) && s.timerJob == CountdownJob(t, last) && LoopTest(s) && NotBefore(s, now)
    ensures Inv(Tick(s, now).next)
    ensures NotBefore(Tick(s, now).next, now)
    ensures Tick(s, now).next.state == s.state ==> Tick(s, now).next.currentSeconds <= s.currentSeconds
  {
    var newSeconds := s.countdownSeconds - ElapsedSeconds(t, now);
    if Observed(newSeconds, last) {
      var s1 := s.(currentSeconds := newSeconds, timerJob := CountdownJob(t, newSeconds));
      if newSeconds <= 0 {
        StartMeditationInv(s1, now);
      }
    }
  }

  lemma {:induction false} MeditationPassInv(s: Engine, t: int, total: int, last: int, check: int, now: Clock)
    requires Inv(s) && s.timerJob == MeditationJob(t, total, last, check) && LoopTest(s) && NotBefore(s, now)
    ensures Inv(Tick(s, now).next)
    ensures NotBefore(Tick(s, now).next, now)
    ensures Tick(s, now).next.state == s.state ==> Tick(s, now).next.currentSeconds <= s.currentSeconds
  {
    var es := ElapsedSeconds(t, now);
    var newSeconds := total - es;
    var observed := Observed(newSeconds, last);
    var s1 := if observed then s.(currentSeconds := newSeconds) else s;
    if IntervalDue(es, check, s.intervalSeconds) {
      var completed := KotlinInt.Div(es, s.intervalSeconds);
      KotlinInt.ExactQuotient(es, s.intervalSeconds);
      KotlinInt.QuotientVersusFactor(es, s.intervalSeconds, s.numIntervals);
      KotlinInt.QuotientBounds(es, s.intervalSeconds);
      if completed < s.numIntervals {
        assert s1.currentSeconds == total - es;
        assert KotlinInt.Mul(s.intervalSeconds, completed) == TotalSeconds(s) - s1.currentSeconds;
      }
    }
  }

  lemma {:induction false} ResumePassInv(s: Engine, t: int, remaining: int, last: int, now: Clock)
    requires Inv(s) && s.timerJob == ResumeJob(t, remaining, last) && LoopTest(s) && NotBefore(s, now)
    ensures Inv(Tick(s, now).next)
    ensures NotBefore(Tick(s, now).next, now)
    ensures Tick(s, now).next.state == s.state ==> Tick(s, now).next.currentSeconds <= s.currentSeconds
  {
    var newSeconds := remaining - ElapsedSeconds(t, now);
    var observed := Observed(newSeconds, last);
    var s1 := if observed then s.(currentSeconds := newSeconds) else s;
    var last1 := if observed then newSeconds else last;
    var ticked := if observed then [OnTick(newSeconds, Meditating, s.intervalsCompleted), Notify(Remaining(newSeconds))] else [];
    assert Tick(s, now) == ResumeCheck(s1, t, remaining, last1, ticked, now);
    ResumeCheckCases(s1, t, remaining, last1, ticked, now);
    assert 0 <= s1.currentSeconds <= s.currentSeconds;
    var expected := KotlinInt.Div(TotalSeconds(s) - s1.currentSeconds, s.intervalSeconds);
    KotlinInt.QuotientBounds(TotalSeconds(s) - s1.currentSeconds, s.intervalSeconds);
    if expected > s.intervalsCompleted && expected < s.numIntervals {
      assert KotlinInt.Mul(s.intervalSeconds, expected) <= TotalSeconds(s) - s1.currentSeconds;
    }
  }

  /** Every pass keeps the invariant at a clock reading the coroutine accepts. */
  lemma {:induction false} TickInv(s: Engine, now: Clock)
    requires Inv(s) && NotBefore(s, now)
    ensures Ready(s)
    ensures Inv(Tick(s, now).next)
    ensures NotBefore(Tick(s, now).next, now)
    ensures Tick(s, now).next.state == s.state ==> Tick(s, now).next.currentSeconds <= s.currentSeconds
  {
    if !LoopTest(s) {
      if s.state == Countdown {
        StartMeditationInv(s, now);
      }
    } else {
      match s.timerJob
      case CountdownJob(t, last) => CountdownPassInv(s, t, last, now);
      case MeditationJob(t, total, last, check) => MeditationPassInv(s, t, total, last, check, now);
      case ResumeJob(t, remaining, last) => ResumePassInv(s, t, remaining, last, now);
    }
  }

  /** Pausing and resuming keep the invariant; resuming accepts every reading from its start on. */
  lemma {:induction false} PauseResumeInv(s: Engine, now: Clock)
    requires Inv(s)
    ensures Inv(PauseTimer(s)) && Inv(ResumeTimer(s, now))
    ensures NotBefore(s, now) ==> NotBefore(PauseTimer(s), now) && NotBefore(ResumeTimer(s, now), now)
  {
    assert ElapsedSeconds(now.elapsedRealtime, now) == 0;
  }
}
