/** The elapsed time the stopwatch shows: four counters that are a display
    decomposition of a single count of milliseconds. */
module ElapsedTime {

  const MsPerSecond: nat := 1000
  const MsPerMinute: nat := 60000
  const MsPerHour: nat := 3600000

  /** The period of the stopwatch's interval callback, in milliseconds. */
  const TickMs: nat := 10

  datatype Time = Time(hours: nat, minutes: nat, seconds: nat, milliseconds: nat)

  const Zero := Time(0, 0, 0, 0)

  /** The field bounds the carry propagation keeps; milliseconds only ever move in
      steps of one tick. Hours have no ceiling. */
  predicate Valid(t: Time) {
    && t.milliseconds < MsPerSecond
    && t.milliseconds % TickMs == 0
    && t.seconds < 60
    && t.minutes < 60
  }

  /** The single millisecond count the four counters stand for. */
  function TotalMs(t: Time): nat {
    t.hours * MsPerHour + t.minutes * MsPerMinute + t.seconds * MsPerSecond + t.milliseconds
  }

  /** A positive multiple of d is at least d. */
  lemma MultipleAtLeast(k: int, d: nat)
    ensures k >= 1 ==> k * d >= d
  {
    if k >= 1 {
      assert k * d == (k - 1) * d + d;
    }
  }

  /** Division with remainder has one answer: a quotient and a remainder in range
      that rebuild n are n / d and n % d. */
  lemma DivModUnique(n: nat, d: nat, q: nat, r: nat)
    requires 0 < d && r < d && n == q * d + r
    ensures n / d == q && n % d == r
  {
    var q', r' := n / d, n % d;
    assert (q - q') * d == q * d - q' * d;
    MultipleAtLeast(q - q', d);
    MultipleAtLeast(q' - q, d);
  }

  /** The reference decomposition of a millisecond count into hours, minutes,
      seconds and milliseconds. */
  function FromMillis(n: nat): (t: Time)
    ensures TotalMs(t) == n
    ensures t.milliseconds < MsPerSecond && t.seconds < 60 && t.minutes < 60
    ensures n % TickMs == 0 ==> Valid(t)
  {
    var h := n / MsPerHour;
    var rh := n % MsPerHour;
    var m := rh / MsPerMinute;
    var rm := rh % MsPerMinute;
    var s := rm / MsPerSecond;
    var ms := rm % MsPerSecond;
    assert n % TickMs == 0 ==> ms % TickMs == 0 by {
      DivModUnique(ms, TickMs, ms / TickMs, ms % TickMs);
      DivModUnique(n, TickMs, h * 360000 + m * 6000 + s * 100 + ms / TickMs, ms % TickMs);
    }
    Time(h, m, s, ms)
  }

  /** A time within the field bounds is exactly the decomposition of its own total. */
  lemma FromMillisOfTotal(t: Time)
    requires t.milliseconds < MsPerSecond && t.seconds < 60 && t.minutes < 60
    ensures FromMillis(TotalMs(t)) == t
  {
    var n := TotalMs(t);
    var rh := t.minutes * MsPerMinute + t.seconds * MsPerSecond + t.milliseconds;
    var rm := t.seconds * MsPerSecond + t.milliseconds;
    DivModUnique(n, MsPerHour, t.hours, rh);
    DivModUnique(rh, MsPerMinute, t.minutes, rm);
    DivModUnique(rm, MsPerSecond, t.seconds, t.milliseconds);
  }

  /** Two times within bounds that stand for the same count are the same time. */
  lemma TotalMsInjective(a: Time, b: Time)
    requires Valid(a) && Valid(b) && TotalMs(a) == TotalMs(b)
    ensures a == b
  {
    FromMillisOfTotal(a);
    FromMillisOfTotal(b);
  }
}
