/** The stopwatch engine: the script's module-level counters, run flag, lap
    counter and lap list, and the commands that update them in place. */
module StopwatchEngine {
  import opened ElapsedTime
  import opened LapFormat
  import Digits

  /** One recorded lap as the page lists it: its number and its time text. */
  datatype Lap = Lap(number: int, value: string)

  /** The commands the keyboard handler reacts to; any other key does nothing. */
  datatype Key = Space | KeyR | KeyL | KeyT | OtherKey

  class Stopwatch {
    var hours: nat
    var minutes: nat
    var seconds: nat
    var milliseconds: nat
    var isRunning: bool
    var lapCounter: int
    /** Recorded laps, most recent first (each new lap goes before the first child). */
    var laps: seq<Lap>
    /** Interval sources registered with the host and not yet cleared; stands for
        the `interval` handle. */
    var liveTimers: nat

    /** The current reading of the four counters. */
    function Elapsed(): Time
      reads this
    {
      Time(hours, minutes, seconds, milliseconds)
    }

    ghost predicate Valid()
      reads this
    {
      && ElapsedTime.Valid(Elapsed())
      && liveTimers == (if isRunning then 1 else 0)
      && lapCounter == |laps| + 1
      && (forall i :: 0 <= i < |laps| ==> laps[i].number == lapCounter - 1 - i)
      && (forall i :: 0 <= i < |laps| ==>
            ParseLap(laps[i].value).Some? && ElapsedTime.Valid(ParseLap(laps[i].value).value))
    }

    /** The state when the script is loaded. */
    constructor ()
      ensures Valid()
      ensures Elapsed() == Zero && !isRunning && lapCounter == 1 && laps == []
    {
      hours, minutes, seconds, milliseconds := 0, 0, 0, 0;
      isRunning := false;
      lapCounter := 1;
      laps := [];
      liveTimers := 0;
    }

    /** start: from stopped, set the run flag and register the one interval
        source; while running, do nothing, so no second source is created. */
    method Start()
      requires Valid()
      modifies this
      ensures Valid()
      ensures isRunning && liveTimers == 1
      ensures Elapsed() == old(Elapsed())
      ensures lapCounter == old(lapCounter) && laps == old(laps)
    {
      if !isRunning {
        isRunning := true;
        liveTimers := liveTimers + 1;
      }
    }

    /** The interval callback: ten more milliseconds, carried into seconds,
        minutes and hours. The host delivers it only while an interval source
        is live. */
    method Tick()
      requires Valid() && isRunning
      modifies this
      ensures Valid()
      ensures TotalMs(Elapsed()) == old(TotalMs(Elapsed())) + TickMs
      ensures Elapsed() == FromMillis(old(TotalMs(Elapsed())) + TickMs)
      ensures hours >= old(hours)
      ensures isRunning && liveTimers == old(liveTimers)
      ensures lapCounter == old(lapCounter) && laps == old(laps)
    {
      milliseconds := milliseconds + 10;
      if milliseconds >= 1000 {
        milliseconds := 0;
        seconds := seconds + 1;
        if seconds >= 60 {
          seconds := 0;
          minutes := minutes + 1;
          if minutes >= 60 {
            minutes := 0;
            hours := hours + 1;
          }
        }
      }
      FromMillisOfTotal(Elapsed());
    }

    /** n deliveries of the interval callback in a row. */
    method Advance(n: nat)
      requires Valid() && isRunning
      modifies this
      ensures Valid() && isRunning
      ensures TotalMs(Elapsed()) == old(TotalMs(Elapsed())) + TickMs * n
      ensures Elapsed() == FromMillis(old(TotalMs(Elapsed())) + TickMs * n)
      ensures lapCounter == old(lapCounter) && laps == old(laps)
    {
      var i := 0;
      while i < n
        invariant 0 <= i <= n
        invariant Valid() && isRunning
        invariant TotalMs(Elapsed()) == old(TotalMs(Elapsed())) + TickMs * i
        invariant lapCounter == old(lapCounter) && laps == old(laps)
      {
        Tick();
        i := i + 1;
      }
      FromMillisOfTotal(Elapsed());
    }

    /** stop: while running, clear the interval and the run flag and keep the
        time; while stopped, do nothing. */
    method Stop()
      requires Valid()
      modifies this
      ensures Valid()
      ensures !isRunning && liveTimers == 0
      ensures Elapsed() == old(Elapsed())
      ensures lapCounter == old(lapCounter) && laps == old(laps)
    {
      if isRunning {
        liveTimers := liveTimers - 1;
        isRunning := false;
      }
    }

    /** reset: from any state, clear the interval, stop and zero the time. The lap
        counter and the recorded laps are left as they are. */
    method Reset()
      requires Valid()
      modifies this
      ensures Valid()
      ensures !isRunning && liveTimers == 0
      ensures Elapsed() == Zero && TotalMs(Elapsed()) == 0
      ensures lapCounter == old(lapCounter) && laps == old(laps)
    {
      liveTimers := 0;
      isRunning := false;
      hours := 0;
      minutes := 0;
      seconds := 0;
      milliseconds := 0;
    }

    /** recordLap: while running, put a lap numbered lapCounter with the current
        time text in front of the list and count up; while stopped, do nothing. */
    method RecordLap()
      requires Valid()
      modifies this
      ensures Valid()
      ensures old(isRunning) ==> laps == [Lap(old(lapCounter), FormatLap(old(Elapsed())))] + old(laps)
                                 && lapCounter == old(lapCounter) + 1
      ensures !old(isRunning) ==> laps == old(laps) && lapCounter == old(lapCounter)
      ensures Elapsed() == old(Elapsed()) && isRunning == old(isRunning) && liveTimers == old(liveTimers)
    {
      if isRunning {
        var lapTime := FormatLap(Elapsed());
        ParseFormatLap(Elapsed());
        laps := [Lap(lapCounter, lapTime)] + laps;
        lapCounter := lapCounter + 1;
      }
    }

    /** clearLaps: in any state, drop every lap and number the next one 1. */
    method ClearLaps()
      requires Valid()
      modifies this
      ensures Valid()
      ensures laps == [] && lapCounter == 1
      ensures Elapsed() == old(Elapsed()) && isRunning == old(isRunning) && liveTimers == old(liveTimers)
    {
      laps := [];
      lapCounter := 1;
    }

    /** The space bar: stop when running, start otherwise. */
    method Toggle()
      requires Valid()
      modifies this
      ensures Valid()
      ensures isRunning == !old(isRunning)
      ensures Elapsed() == old(Elapsed())
      ensures lapCounter == old(lapCounter) && laps == old(laps)
    {
      if isRunning {
        Stop();
      } else {
        Start();
      }
    }

    /** The keyboard handler: Space toggles, R resets, L records a lap when
        running; T (the theme) and every other key leave the engine alone. */
    method KeyDown(key: Key)
      requires Valid()
      modifies this
      ensures Valid()
      ensures key == Space ==> isRunning == !old(isRunning) && Elapsed() == old(Elapsed())
                               && laps == old(laps) && lapCounter == old(lapCounter)
      ensures key == KeyR ==> !isRunning && Elapsed() == Zero && laps == old(laps)
                              && lapCounter == old(lapCounter)
      ensures key == KeyL && old(isRunning) ==>
                laps == [Lap(old(lapCounter), FormatLap(old(Elapsed())))] + old(laps)
                && lapCounter == old(lapCounter) + 1
                && Elapsed() == old(Elapsed()) && isRunning
      ensures (key == KeyT || key == OtherKey || (key == KeyL && !old(isRunning))) ==>
                Elapsed() == old(Elapsed()) && isRunning == old(isRunning)
                && laps == old(laps) && lapCounter == old(lapCounter)
    {
      if key == Space {
        Toggle();
      } else if key == KeyR {
        Reset();
      } else if key == KeyL && isRunning {
        RecordLap();
      }
    }
  }

  /** The reading after a freshly loaded stopwatch is started and receives n ticks:
      exactly 10·n milliseconds, decomposed within the field bounds. */
  method ElapsedAfterTicks(n: nat) returns (t: Time)
    ensures TotalMs(t) == 10 * n && ElapsedTime.Valid(t)
    ensures t == FromMillis(10 * n)
  {
    var sw := new Stopwatch();
    sw.Start();
    sw.Advance(n);
    t := sw.Elapsed();
  }

  /** Reset from any state, then start and n ticks: again exactly 10·n milliseconds. */
  method ElapsedAfterReset(sw: Stopwatch, n: nat) returns (t: Time)
    requires sw.Valid()
    modifies sw
    ensures sw.Valid() && t == sw.Elapsed()
    ensures TotalMs(t) == 10 * n && t == FromMillis(10 * n)
    ensures sw.laps == old(sw.laps) && sw.lapCounter == old(sw.lapCounter)
  {
    sw.Reset();
    sw.Start();
    sw.Advance(n);
    t := sw.Elapsed();
  }

  /** A run of the page: start, 150 ticks, lap, 100 ticks, lap, stop, reset.
      Returns the reading, the lap list and the lap counter afterwards. */
  method TwoLapSession() returns (t: Time, laps: seq<Lap>, counter: int)
    ensures t == Zero
    ensures laps == [Lap(2, "00:00:02.500"), Lap(1, "00:00:01.500")]
    ensures counter == 3
  {
    var sw := new Stopwatch();
    sw.Start();
    sw.Advance(150);
    assert sw.Elapsed() == Time(0, 0, 1, 500) by {
      FromMillisOfTotal(Time(0, 0, 1, 500));
    }
    assert FormatLap(sw.Elapsed()) == "00:00:01.500" by {
      assert Digits.Decimal(500) == "500" by { assert Digits.Decimal(50) == "50"; }
    }
    sw.RecordLap();
    sw.Advance(100);
    assert sw.Elapsed() == Time(0, 0, 2, 500) by {
      FromMillisOfTotal(Time(0, 0, 2, 500));
    }
    assert FormatLap(sw.Elapsed()) == "00:00:02.500" by {
      assert Digits.Decimal(500) == "500" by { assert Digits.Decimal(50) == "50"; }
    }
    sw.RecordLap();
    sw.Stop();
    sw.Reset();
    t, laps, counter := sw.Elapsed(), sw.laps, sw.lapCounter;
  }
}
