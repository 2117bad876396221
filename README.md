# Stopwatch engine

A model of the stopwatch behind the browser page in `final-project/script.js`.
The page keeps its clock in module-level variables: four counters for hours,
minutes, seconds and milliseconds, a run flag, the handle of a 10 ms interval,
a lap counter, and the list of lap elements. Buttons and keys drive six
commands: start, stop, reset, record a lap, clear the laps, and a space-bar
toggle. While running, the interval callback adds 10 ms and carries
milliseconds into seconds, seconds into minutes and minutes into hours.
A lap is a line "Lap N  HH:MM:SS.mmm". It goes in front of the list, so the
list is most recent first.

The Dafny project has four modules:

- `Digits` (Digits.dfy): how JavaScript writes a whole number as text, and the
  number such text denotes when it is read back.
- `ElapsedTime` (ElapsedTime.dfy): the four-counter time value, its field
  bounds, the millisecond total it stands for, and the reference decomposition
  `FromMillis` of a total back into counters.
- `LapFormat` (LapFormat.dfy): `formatTime`, `formatMilliseconds` and the lap
  text. It also has a reader, `ParseLap`, that recovers a time from lap text.
- `StopwatchEngine` (Stopwatch.dfy): the class `Stopwatch`. Its fields are the
  script's globals and its methods are the commands, which update those fields
  in place. The interval callback is the method `Tick`. The object invariant
  `Valid()` states four things:
  - the time counters stay within their bounds;
  - exactly one interval source is live while running, and none while stopped;
  - `lapCounter == |laps| + 1`, and lap `i` (0 = most recent) is numbered `lapCounter - 1 - i`;
  - every recorded lap text reads back as a time within the field bounds.

The comment on `reset` (final-project/script.js:121-122) says it resets all
values, but the code (final-project/script.js:124-135) leaves `lapCounter` and
the lap list alone. The model follows the code. Lap numbering continues across
a reset, and only `clearLaps` starts it again at 1 (`Stopwatch.Reset`,
`TwoLapSession`).

## Model

| member | source | states |
|---|---|---|
| `Digits.Decimal` | final-project/script.js:47 | the text JavaScript gives a whole number: digits only, no leading zero unless the number is 0, and one, at most two or at most three characters exactly when the number is below 10, 100 or 1000 |
| `Digits.DecimalValueOfDecimal` | final-project/script.js:47 | reading back the decimal text of n gives n |
| `Digits.LeadingZeroValue` | final-project/script.js:47 | a zero put in front of the digits (the padding) does not change the number they denote |
| `ElapsedTime.FromMillis` | final-project/script.js:81-99 | decomposes a millisecond count into counters within the field bounds whose total is that count; a count that is a multiple of 10 gives a valid reading |
| `ElapsedTime.FromMillisOfTotal` | final-project/script.js:2-5 | a reading within the field bounds is exactly the decomposition of its own total, so the counters are a faithful display of one millisecond count |
| `ElapsedTime.TotalMsInjective` | final-project/script.js:2-5 | two valid readings with the same total are the same reading |
| `LapFormat.FormatTime` | final-project/script.js:46-48 | the result is all digits and denotes n when read back; it is at least 2 characters, and exactly 2 iff n < 100 |
| `LapFormat.FormatMilliseconds` | final-project/script.js:55-59 | the result is all digits and denotes n when read back; it is at least 3 characters, and exactly 3 iff n < 1000 |
| `LapFormat.FormatLap` | final-project/script.js:143 | for a valid reading, the lap text is the formatted hours followed by exactly ten characters, with ':' ten and seven from the end and '.' four from the end; that it reads back, is one-to-one and is `HH:MM:SS.mmm` below 100 hours is stated by the three lemmas below |
| `LapFormat.ParseFormatLap` | final-project/script.js:143 | the lap text of any valid reading, with any number of hours, reads back as that reading |
| `LapFormat.FormatLapInjective` | final-project/script.js:143 | two different valid readings never give the same lap text |
| `LapFormat.LapShape` | final-project/script.js:143 | below 100 hours the lap text is `HH:MM:SS.mmm`: 12 characters, ':' at 2 and 5, '.' at 8, digits everywhere else |
| `StopwatchEngine.Stopwatch.constructor` | final-project/script.js:2-8 | the initial state: time 0:0:0.000, stopped, lap counter 1, no laps, no interval |
| `StopwatchEngine.Stopwatch.Start` | final-project/script.js:72-80 | afterwards the stopwatch runs with exactly one live interval source, whether or not it was running before; time, lap counter and laps are unchanged |
| `StopwatchEngine.Stopwatch.Tick` | final-project/script.js:80-102 | keeps the field bounds and the 10 ms step; raises the total by exactly 10 ms; the new reading is the decomposition of the old total plus 10; hours never decrease; nothing else changes |
| `StopwatchEngine.Stopwatch.Advance` | final-project/script.js:80-102 | n ticks raise the total by exactly 10·n ms, and the new reading is the decomposition of that total |
| `StopwatchEngine.Stopwatch.Stop` | final-project/script.js:110-118 | afterwards the stopwatch is stopped with no live interval, whether or not it was running; the four counters, lap counter and laps are unchanged |
| `StopwatchEngine.Stopwatch.Reset` | final-project/script.js:124-135 | from any state: stopped, no live interval, time 0:0:0.000; lap counter and lap list unchanged |
| `StopwatchEngine.Stopwatch.RecordLap` | final-project/script.js:141-156 | while running, prepends exactly one lap numbered with the old lap counter and holding the lap text of the current time, and increments the counter; while stopped, changes nothing; time and run state never change; the lap numbering invariant is kept |
| `StopwatchEngine.Stopwatch.ClearLaps` | final-project/script.js:162-166 | in any state: no laps and lap counter 1; time and run state unchanged |
| `StopwatchEngine.Stopwatch.Toggle` | final-project/script.js:185-191 | the space bar flips the run state and changes neither the time, the lap counter nor the laps |
| `StopwatchEngine.Stopwatch.KeyDown` | final-project/script.js:184-199 | Space toggles the run state and keeps time and laps; R resets and keeps the laps and counter; L while running prepends one lap, increments the counter and keeps running and the time; L while stopped, T and every other key leave the engine as it was |
| `StopwatchEngine.ElapsedAfterTicks` | final-project/script.js:72-102 | a freshly loaded stopwatch, started and ticked n times, reads exactly 10·n ms, within the field bounds |
| `StopwatchEngine.ElapsedAfterReset` | final-project/script.js:124-135 | reset from any state, then start and n ticks, reads exactly 10·n ms; the laps and the lap counter are kept |
| `StopwatchEngine.TwoLapSession` | final-project/script.js:72-165 | start, 150 ticks, lap, 100 ticks, lap, stop, reset: the time is 0:0:0.000, the laps are [Lap 2 "00:00:02.500", Lap 1 "00:00:01.500"], and the counter is 3, not 1 |

## Left out

- Rendering: `updateDisplay`, the `running` CSS class, the buttons' `disabled` flags, and building and inserting lap elements (final-project/script.js:11-19, 64-66, 75-77, 114-116, 132-134, 145-153, 163-164). These are presentation only. The lap list is a `seq<Lap>` of number and text, with the newest lap first.
- Theme handling (`initializeTheme`, `toggleTheme`, the T key; final-project/script.js:24-39, 196-197). It is browser storage and page attributes, not part of the clock. `KeyDown` treats T as a no-op on the engine.
- Host scheduling: `setInterval` and `clearInterval` are not modelled as timers. `liveTimers` counts the interval sources that are registered and not cleared. The host delivers `Tick` only while one is live, so `Tick` requires `isRunning`. Real timing, drift and the chance of a late callback are not modelled.
- Event listener registration and `preventDefault` (final-project/script.js:170-186). This is browser dispatch. Only the key-to-command decision is kept, in `KeyDown`.
- Number width: JavaScript numbers are doubles. The model uses unbounded `nat`, so it does not capture loss of precision once the hours counter passes 2^53.
- `formatTime` and `formatMilliseconds` return a number, not a string, when their argument is 10 or more (`formatTime`) or 100 or more (`formatMilliseconds`). The model returns the text that the template literal makes of that number, because both results are only ever used inside a template literal.
- Carry: the callback sets milliseconds to 0, rather than subtracting 1000, once they reach 1000. The two agree exactly because the invariant keeps milliseconds a multiple of 10 below 1000. A reading that breaks the invariant would lose time, and the model never reaches one.
