/**
 * The `Session` record of the sessions table and its pure formatters: the
 * history screen's duration text and the CSV row and header used for export.
 * `date` and `startTime` are the ISO calendar-date and local-time texts the
 * view model stores; the model treats them as opaque strings.
 */
module SessionRecord {
  import opened Wrappers
  import opened Text
  import KotlinInt

  /** `id` is the table's key; 0 means the table has not assigned one yet. */
  datatype Session = Session(id: int, date: string, startTime: string, elapsedSeconds: int)

  const UnassignedId: int := 0

  /** A record as the view model builds it before inserting: the key left at its default. */
  function NewSession(date: string, startTime: string, elapsedSeconds: int): (s: Session)
    ensures s.id == UnassignedId
    ensures s.date == date && s.startTime == startTime && s.elapsedSeconds == elapsedSeconds
  {
    Session(id := UnassignedId, date := date, startTime := startTime, elapsedSeconds := elapsedSeconds)
  }

  /** The whole minutes and the leftover seconds that `formattedDuration` shows. */
  function DurationParts(elapsedSeconds: int): (p: (int, int))
  {
    (KotlinInt.Div(elapsedSeconds, 60), KotlinInt.Rem(elapsedSeconds, 60))
  }

  /** `formattedDuration`: "{m}m {s}s" when there is at least a whole minute, else "{s}s"; seconds unpadded. */
  function FormattedDuration(s: Session): string {
    var (minutes, seconds) := DurationParts(s.elapsedSeconds);
    if minutes > 0 then IntToString(minutes) + "m " + IntToString(seconds) + "s"
    else IntToString(seconds) + "s"
  }

  /** `toCsvRow`: date, start time and elapsed seconds joined by commas. */
  function ToCsvRow(s: Session): string {
    s.date + "," + s.startTime + "," + IntToString(s.elapsedSeconds)
  }

  /** `csvHeader`. */
  function CsvHeader(): string {
    "date,start_time,elapsed_seconds"
  }

  /** Reads back a number followed by a one-letter unit, as in "12m". */
  function StripUnit(x: string, unit: char): Option<nat> {
    if |x| >= 1 && x[|x| - 1] == unit then ParseNat(x[..|x| - 1]) else None
  }

  /** Reference decoder for the duration text: the number of seconds it denotes. */
  function DecodeDuration(text: string): Option<int> {
    var parts := Split(text, ' ');
    if |parts| == 1 then
      match StripUnit(parts[0], 's')
      case Some(sec) => if sec < 60 then Some(sec) else None
      case None => None
    else if |parts| == 2 then
      match (StripUnit(parts[0], 'm'), StripUnit(parts[1], 's'))
      case (Some(m), Some(sec)) => if m > 0 && sec < 60 then Some(m * 60 + sec) else None
      case _ => None
    else None
  }

  /** For any duration the parts recombine to it and the seconds stay below a minute in size. */
  lemma DurationPartsRecombine(elapsedSeconds: int)
    ensures var (m, s) := DurationParts(elapsedSeconds);
      m * 60 + s == elapsedSeconds && -60 < s < 60
      && (elapsedSeconds >= 0 ==> 0 <= m && 0 <= s)
  {
    KotlinInt.DivRemProduct(elapsedSeconds, 60);
  }

  lemma {:induction false} StripUnitOf(n: nat, unit: char)
    requires !IsDigit(unit)
    ensures StripUnit(NatToString(n) + [unit], unit) == Some(n)
  {
    var x := NatToString(n) + [unit];
    assert x[..|x| - 1] == NatToString(n);
    NatToStringRoundTrip(n);
  }

  /** The duration text reads back as the duration, for any non-negative duration. */
  lemma {:induction false} FormattedDurationRoundTrip(s: Session)
    requires s.elapsedSeconds >= 0
    ensures DecodeDuration(FormattedDuration(s)) == Some(s.elapsedSeconds)
  {
    var e := s.elapsedSeconds;
    var (m, sec) := DurationParts(e);
    DurationPartsRecombine(e);
    assert 0 <= sec < 60 && 0 <= m && m * 60 + sec == e;
    var secText := NatToString(sec) + "s";
    StripUnitOf(sec, 's');
    DigitsHaveNo(NatToString(sec), ' ');
    assert ' ' !in secText;
    SplitWhole(secText, ' ');
    if m > 0 {
      var minText := NatToString(m) + "m";
      StripUnitOf(m, 'm');
      DigitsHaveNo(NatToString(m), ' ');
      assert FormattedDuration(s) == minText + [' '] + secText;
      SplitFirst(minText, secText, ' ');
      assert Split(FormattedDuration(s), ' ') == [minText, secText];
    } else {
      assert FormattedDuration(s) == secText;
    }
  }

  /** The minutes part appears exactly when the duration is at least one minute. */
  lemma {:induction false} FormattedDurationShowsMinutes(s: Session)
    requires s.elapsedSeconds >= 0
    ensures 'm' in FormattedDuration(s) <==> s.elapsedSeconds >= 60
  {
    var e := s.elapsedSeconds;
    KotlinInt.NonNegative(e, 60);
    var (m, sec) := DurationParts(e);
    DigitsHaveNo(NatToString(sec), 'm');
    assert 'm' !in NatToString(sec) + "s";
    if m > 0 {
      var t := FormattedDuration(s);
      assert t[|NatToString(m)|] == 'm';
    }
  }

  /** With no comma inside the date or the time, a CSV row splits back into the three fields. */
  lemma {:induction false} CsvRowFields(s: Session)
    requires ',' !in s.date && ',' !in s.startTime
    ensures Split(ToCsvRow(s), ',') == [s.date, s.startTime, IntToString(s.elapsedSeconds)]
    ensures ParseInt(Split(ToCsvRow(s), ',')[2]) == Some(s.elapsedSeconds)
  {
    var e := IntToString(s.elapsedSeconds);
    assert ',' !in e by {
      if s.elapsedSeconds >= 0 {
        DigitsHaveNo(e, ',');
      } else {
        DigitsHaveNo(e[1..], ',');
        assert e == [e[0]] + e[1..];
      }
    }
    assert ToCsvRow(s) == s.date + [','] + (s.startTime + [','] + e);
    SplitThree(s.date, s.startTime, e, ',');
    IntToStringRoundTrip(s.elapsedSeconds);
  }

  /** The header is a single line. */
  lemma HeaderHasNoBreak()
    ensures '\n' !in CsvHeader()
  {
    var h := CsvHeader();
    forall k | 0 <= k < |h|
      ensures h[k] != '\n'
    {
    }
  }

  /** The header names three columns, in the order `ToCsvRow` writes the fields. */
  lemma {:induction false} CsvHeaderColumns()
    ensures Split(CsvHeader(), ',') == ["date", "start_time", "elapsed_seconds"]
  {
    assert CsvHeader() == "date" + [','] + ("start_time" + [','] + "elapsed_seconds");
    SplitThree("date", "start_time", "elapsed_seconds", ',');
  }
}
