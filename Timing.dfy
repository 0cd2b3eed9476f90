/**
 * The clock arithmetic of internal/utils/miscellaneous.go (`SetDailyTimer`,
 * `DurationToString`) and the schedule decision of `CacheMonitor` in
 * internal/api/cache.go. Durations are integer nanoseconds, as Go's `time.Duration`;
 * "now" is a parameter: `clock` is the time of day in nanoseconds since local midnight.
 */
module Timing {
  import opened Strconv

  const Second: int := 1000000000
  const Minute: int := 60 * Second
  const Hour: int := 60 * Minute
  const Day: int := 24 * Hour

  predicate IsTimeOfDay(clock: int) { 0 <= clock < Day }

  /**
   * `SetDailyTimer` as written: the hour is reduced with Go's truncating `%`, the target is
   * that hour today, and a target already passed is moved one day on.
   */
  function SetDailyTimer(hour: int, clock: int): (d: int)
    requires IsTimeOfDay(clock)
    ensures hour >= 0 ==> 0 <= d < Day
    ensures hour >= 0 ==> (clock + d) % Day == Rem(hour, 24) * Hour
    ensures clock == Rem(hour, 24) * Hour ==> d == 0
  {
    var h := Rem(hour, 24);
    var d := h * Hour - clock;
    if d < 0 then d + Day else d
  }

  /**
   * The evidently intended `SetDailyTimer`: the hour taken modulo 24 into 0..23 (Dafny's
   * `%` is Euclidean), so every hour yields a delay in [0, 24h) to the next such hour.
   */
  function DailyDelay(hour: int, clock: int): (d: int)
    requires IsTimeOfDay(clock)
    ensures 0 <= d < Day
    ensures (clock + d) % Day == (hour % 24) * Hour
    ensures clock == (hour % 24) * Hour ==> d == 0
  {
    var h := hour % 24;
    var d := h * Hour - clock;
    if d < 0 then d + Day else d
  }

  /** The two agree on every hour the source's `%` leaves non-negative. */
  lemma DailyDelayAgrees(hour: int, clock: int)
    requires IsTimeOfDay(clock) && hour >= 0
    ensures DailyDelay(hour, clock) == SetDailyTimer(hour, clock)
  {
  }

  /**
   * For a negative hour the source's remainder stays negative, and late in the day the
   * delay it returns is negative: hour -3 at 22:00 gives minus one hour instead of 23h.
   */
  lemma SetDailyTimerNegativeHour()
    ensures SetDailyTimer(-3, 22 * Hour) == -Hour
    ensures DailyDelay(-3, 22 * Hour) == 23 * Hour
  {
  }

  /**
   * The sleep `CacheMonitor` chooses after a sweep: 24h when the clock is within
   * 03:00-03:15 (hour 3, minute at most 15), otherwise the delay to the next 03:00.
   */
  function SweepDelay(clock: int): (d: int)
    requires IsTimeOfDay(clock)
    ensures 0 < d <= Day
    ensures d < Day ==> (clock + d) % Day == 3 * Hour
    ensures d == Day <==> 3 * Hour <= clock < 3 * Hour + 16 * Minute
  {
    var hourNow := clock / Hour;
    var minuteNow := (clock / Minute) % 60;
    if hourNow != 3 || minuteNow > 15 then DailyDelay(3, clock) else Day
  }

  /** The components `DurationToString` prints: truncated hours, minutes and seconds. */
  datatype Clock = Clock(hours: int, minutes: int, seconds: int)

  /**
   * Hours, minutes mod 60 and seconds mod 60, each truncated toward zero (the source's
   * floating-point `Hours()`, `Minutes()` and `Seconds()` are taken as exact here).
   */
  function Components(d: int): (c: Clock)
    ensures d >= 0 ==> 0 <= c.minutes < 60 && 0 <= c.seconds < 60 && c.hours >= 0
  {
    Clock(Quot(d, Hour), Rem(Quot(d, Minute), 60), Rem(Quot(d, Second), 60))
  }

  /** A non-negative duration is its components plus a remainder under one second. */
  lemma ComponentsReconstruct(d: int)
    requires d >= 0
    ensures var c := Components(d);
      0 <= d - (c.hours * Hour + c.minutes * Minute + c.seconds * Second) < Second
  {
    var c := Components(d);
    var s := d / Second;
    var m := d / Minute;
    assert m == s / 60 by {
      assert Minute == Second * 60;
      DivDiv(d, Second, 60);
    }
    assert c.hours == m / 60 by {
      assert Hour == Minute * 60;
      DivDiv(d, Minute, 60);
    }
    assert c.seconds == s % 60;
    assert c.minutes == m % 60;
    assert s == m * 60 + c.seconds;
    assert m == c.hours * 60 + c.minutes;
    assert d - s * Second < Second;
  }

  lemma DivDiv(a: int, b: int, c: int)
    requires a >= 0 && b > 0 && c > 0
    ensures a / (b * c) == (a / b) / c
  {
    var m := a / b;
    var r1 := a % b;
    var q := m / c;
    var r2 := m % c;
    assert a == m * b + r1;
    assert m == q * c + r2;
    Regroup(q, c, r2, b, r1);
    NestedRemainderBound(r2, c, r1, b);
    DivUnique(a, b * c, q, r2 * b + r1);
  }

  /** Distributing `b` over a quotient-and-remainder pair. */
  lemma Regroup(q: int, c: int, r2: int, b: int, r1: int)
    ensures (q * c + r2) * b + r1 == q * (b * c) + (r2 * b + r1)
  {
    assert (q * c + r2) * b == q * c * b + r2 * b;
    assert q * c * b == q * (b * c);
  }

  /** A remainder below `c` scaled by `b`, plus one below `b`, stays below `b * c`. */
  lemma NestedRemainderBound(r2: int, c: int, r1: int, b: int)
    requires 0 <= r2 < c && 0 <= r1 < b
    ensures 0 <= r2 * b + r1 < b * c
  {
    assert r2 * b <= (c - 1) * b;
    assert (c - 1) * b == b * c - b;
  }

  /** `DurationToString`: `<h>h<m>m<s>s`, the hours part only when they are positive. */
  function DurationToString(d: int): (r: string)
    ensures 'h' in r <==> Components(d).hours > 0
    ensures |r| > 0 && r[|r| - 1] == 's'
    ensures var c := Components(d); var tail := Itoa(c.minutes) + "m" + Itoa(c.seconds) + "s";
      |tail| <= |r| && r[|r| - |tail|..] == tail &&
      r[..|r| - |tail|] == (if c.hours > 0 then Itoa(c.hours) + "h" else "")
  {
    var c := Components(d);
    ItoaChars(c.hours);
    ItoaChars(c.minutes);
    ItoaChars(c.seconds);
    var tail := Itoa(c.minutes) + "m" + Itoa(c.seconds) + "s";
    assert 'h' !in tail by {
      assert forall i :: 0 <= i < |tail| ==> tail[i] == 'm' || tail[i] == 's' || tail[i] == '-' || IsDigit(tail[i]) by {
        forall i | 0 <= i < |tail| ensures tail[i] == 'm' || tail[i] == 's' || tail[i] == '-' || IsDigit(tail[i]) {
          var a := Itoa(c.minutes);
          var b := Itoa(c.seconds);
          if i < |a| { assert tail[i] == a[i]; }
          else if i == |a| { }
          else if i < |a| + 1 + |b| { assert tail[i] == b[i - |a| - 1]; }
        }
      }
    }
    if c.hours > 0 then Itoa(c.hours) + "h" + tail else tail
  }
}
