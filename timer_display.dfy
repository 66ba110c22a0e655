/**
 * The `TimerDisplay` component: the remaining seconds as "MM:SS" (Java's
 * `%02d:%02d`, minutes not capped), an optional label line above it, and the
 * countdown or active colour.
 */
module TimerDisplay {
  import opened Wrappers
  import opened Text
  import KotlinInt

  datatype TimerColor = TimerCountdown | TimerActive

  /** `seconds / 60` and `seconds % 60`, Kotlin's truncating operators. */
  function MinutesAndSecs(seconds: int): (p: (int, int))
    ensures p.0 * 60 + p.1 == seconds
    ensures seconds >= 0 ==> p.0 >= 0 && 0 <= p.1 < 60
  {
    KotlinInt.DivRemProduct(seconds, 60);
    (KotlinInt.Div(seconds, 60), KotlinInt.Rem(seconds, 60))
  }

  /** `String.format("%02d:%02d", minutes, secs)` with ASCII digits. */
  function TimeString(seconds: int): string {
    var (minutes, secs) := MinutesAndSecs(seconds);
    PadTwo(minutes) + ":" + PadTwo(secs)
  }

  function Color(isCountdown: bool): (c: TimerColor)
    ensures c == TimerCountdown <==> isCountdown
  {
    if isCountdown then TimerCountdown else TimerActive
  }

  /** The texts of the column, top to bottom: the label when there is one, then the time. */
  function Lines(seconds: int, caption: Option<string>): (lines: seq<string>)
    ensures |lines| == (if caption.Some? then 2 else 1)
    ensures caption.Some? ==> lines[0] == caption.value
    ensures lines[|lines| - 1] == TimeString(seconds)
  {
    (if caption.Some? then [caption.value] else []) + [TimeString(seconds)]
  }

  /** Both fields have at least two digits and the text reads back as the seconds shown. */
  lemma {:induction false} TimeStringRoundTrip(seconds: int)
    requires seconds >= 0
    ensures var parts := Split(TimeString(seconds), ':');
      |parts| == 2 && |parts[0]| >= 2 && |parts[1]| == 2
    ensures DecodeClock(TimeString(seconds)) == Some(seconds)
  {
    var (m, s) := MinutesAndSecs(seconds);
    PadTwoRoundTrip(m);
    PadTwoRoundTrip(s);
    DecodeClockOf(PadTwo(m), PadTwo(s), m, s);
    DigitsHaveNo(PadTwo(m), ':');
    DigitsHaveNo(PadTwo(s), ':');
    SplitFirst(PadTwo(m), PadTwo(s), ':');
    SplitWhole(PadTwo(s), ':');
  }

  /** Under ten minutes the minutes are zero-padded; at one hundred minutes they take three digits. */
  lemma TimeStringExamples()
    ensures TimeString(65) == "01:05"
    ensures TimeString(6000) == "100:00"
  {
    assert MinutesAndSecs(65) == (1, 5);
    assert MinutesAndSecs(6000) == (100, 0);
    assert NatToString(100) == "100" by {
      assert NatToString(10) == "10";
    }
  }
}
