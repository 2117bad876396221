/** The zero-padding helpers of the stopwatch and the HH:MM:SS.mmm text a lap
    records, with a reader that recovers the time from that text. */
module LapFormat {
  import opened Digits
  import opened ElapsedTime

  datatype Option<T> = None | Some(value: T)

  /** formatTime: a number below 10 gets one zero in front; any other number is
      written as it is. */
  function FormatTime(n: nat): (r: string)
    ensures AllDigits(r) && DecimalValue(r) == n
    ensures 2 <= |r|
    ensures n < 100 <==> |r| == 2
  {
    DecimalValueOfDecimal(n);
    if n < 10 then
      LeadingZeroValue(Decimal(n));
      "0" + Decimal(n)
    else
      Decimal(n)
  }

  /** formatMilliseconds: a number below 10 gets two zeros in front, one below
      100 gets one zero, any other number is written as it is. */
  function FormatMilliseconds(n: nat): (r: string)
    ensures AllDigits(r) && DecimalValue(r) == n
    ensures 3 <= |r|
    ensures n < 1000 <==> |r| == 3
  {
    DecimalValueOfDecimal(n);
    if n < 10 then
      LeadingZeroValue(Decimal(n));
      LeadingZeroValue("0" + Decimal(n));
      assert "00" + Decimal(n) == "0" + ("0" + Decimal(n));
      "00" + Decimal(n)
    else if n < 100 then
      LeadingZeroValue(Decimal(n));
      "0" + Decimal(n)
    else
      Decimal(n)
  }

  /** The text a lap records for time t: hours, minutes and seconds each through
      formatTime, then milliseconds through formatMilliseconds. */
  function FormatLap(t: Time): (r: string)
    ensures Valid(t) ==>
              && |r| == |FormatTime(t.hours)| + 10
              && r[..|r| - 10] == FormatTime(t.hours)
              && r[|r| - 10] == ':' && r[|r| - 7] == ':' && r[|r| - 4] == '.'
  {
    FormatTime(t.hours) + ":" + FormatTime(t.minutes) + ":" + FormatTime(t.seconds)
      + "." + FormatMilliseconds(t.milliseconds)
  }

  /** Reads a lap text back: an hours field of at least two digits, then
      ":MM:SS.mmm" with exactly two, two and three digits. */
  function ParseLap(s: string): Option<Time> {
    if |s| < 12 then None
    else
      var k := |s| - 10;
      var hh, mm, ss, ms := s[..k], s[k + 1..k + 3], s[k + 4..k + 6], s[k + 7..];
      if s[k] == ':' && s[k + 3] == ':' && s[k + 6] == '.'
         && AllDigits(hh) && AllDigits(mm) && AllDigits(ss) && AllDigits(ms)
      then Some(Time(DecimalValue(hh), DecimalValue(mm), DecimalValue(ss), DecimalValue(ms)))
      else None
  }

  /** The lap text of a time within the field bounds reads back as that time,
      whatever the number of hours. */
  lemma ParseFormatLap(t: Time)
    requires Valid(t)
    ensures ParseLap(FormatLap(t)) == Some(t)
  {
    var h, m, sec, ms :=
      FormatTime(t.hours), FormatTime(t.minutes), FormatTime(t.seconds), FormatMilliseconds(t.milliseconds);
    var s := FormatLap(t);
    var k := |s| - 10;
    assert s == h + ":" + m + ":" + sec + "." + ms;
    assert k == |h|;
    assert s[..k] == h;
    assert s[k + 1..k + 3] == m;
    assert s[k + 4..k + 6] == sec;
    assert s[k + 7..] == ms;
  }

  /** Different times within bounds never record the same lap text. */
  lemma FormatLapInjective(a: Time, b: Time)
    requires Valid(a) && Valid(b) && FormatLap(a) == FormatLap(b)
    ensures a == b
  {
    ParseFormatLap(a);
    ParseFormatLap(b);
  }

  /** Below 100 hours a lap text is exactly HH:MM:SS.mmm: twelve characters,
      separators at positions 2, 5 and 8 and digits everywhere else. */
  lemma LapShape(t: Time)
    requires Valid(t) && t.hours < 100
    ensures |FormatLap(t)| == 12
    ensures FormatLap(t)[2] == ':' && FormatLap(t)[5] == ':' && FormatLap(t)[8] == '.'
    ensures forall i :: 0 <= i < 12 && i != 2 && i != 5 && i != 8 ==> IsDigit(FormatLap(t)[i])
  {
    var h, m, sec, ms :=
      FormatTime(t.hours), FormatTime(t.minutes), FormatTime(t.seconds), FormatMilliseconds(t.milliseconds);
    var s := FormatLap(t);
    assert s == h + ":" + m + ":" + sec + "." + ms;
    forall i | 0 <= i < 12 && i != 2 && i != 5 && i != 8
      ensures IsDigit(s[i])
    {
      if i < 2 { assert s[i] == h[i]; }
      else if i < 5 { assert s[i] == m[i - 3]; }
      else if i < 8 { assert s[i] == sec[i - 6]; }
      else { assert s[i] == ms[i - 9]; }
    }
  }
}
