/**
 * The broadcast-day calendar of the programme guide: a broadcast day starts at
 * 05:00 local time, so a programme starting at 02:00 belongs to the previous
 * day's listing.
 *
 * Local wall-clock time is modelled as a fixed offset `tz` (milliseconds east
 * of UTC) with no daylight-saving rules; `Midnight` is what `Date.setHours(0, 0,
 * 0, 0)` computes under that assumption.
 */
module Calendar {

  const HourMs: int := 3600000
  const DayMs: int := 24 * HourMs
  /** The broadcast day rolls over at 05:00. */
  const RolloverMs: int := 5 * HourMs

  /** `t` is a local midnight. */
  predicate IsMidnight(t: int, tz: int) {
    (t + tz) % DayMs == 0
  }

  /** Local midnight of the calendar date on which instant `t` falls. */
  function Midnight(t: int, tz: int): (m: int)
    ensures IsMidnight(m, tz)
    ensures m <= t < m + DayMs
  {
    t - (t + tz) % DayMs
  }

  /** `Midnight(t)` is the latest local midnight not after `t`. */
  lemma MidnightIsLatest(a: int, t: int, tz: int)
    requires IsMidnight(a, tz) && a <= t
    ensures a <= Midnight(t, tz)
  {
  }

  /** A local midnight `a` with `a <= t < a + DayMs` is the midnight of `t`. */
  lemma MidnightUnique(a: int, t: int, tz: int)
    requires IsMidnight(a, tz) && a <= t < a + DayMs
    ensures Midnight(t, tz) == a
  {
    MidnightIsLatest(a, t, tz);
    var m := Midnight(t, tz);
    MidnightIsLatest(m, a + DayMs - 1, tz);
    assert Midnight(a + DayMs - 1, tz) == a by {
      assert (a + DayMs - 1 + tz) % DayMs == DayMs - 1;
    }
  }

  /**
   * The broadcast-day key of a programme starting at `t`: shift back five
   * hours, then truncate to local midnight.
   */
  function DayKey(t: int, tz: int): (k: int)
    ensures IsMidnight(k, tz)
    ensures k + RolloverMs <= t < k + RolloverMs + DayMs
  {
    Midnight(t - RolloverMs, tz)
  }

  /** 05:00 local time of the calendar date of `t` (`new Date(t).setHours(5, 0, 0, 0)`). */
  function FiveOClock(t: int, tz: int): (r: int)
    ensures IsMidnight(r - RolloverMs, tz)
    ensures r - RolloverMs <= t < r - RolloverMs + DayMs
  {
    Midnight(t, tz) + RolloverMs
  }

  /** On a day key, the day's 05:00 is the key plus five hours. */
  lemma FiveOClockOfKey(key: int, tz: int)
    requires IsMidnight(key, tz)
    ensures FiveOClock(key, tz) == key + RolloverMs
  {
    MidnightUnique(key, key, tz);
  }

  /**
   * The staleness cutoff: programmes starting before it are dropped. It is
   * 05:00 of the calendar date of `now - 5h`, i.e. the start of the current
   * broadcast day.
   */
  function Threshold(now: int, tz: int): (th: int)
    ensures th == DayKey(now, tz) + RolloverMs
    ensures th <= now < th + DayMs
  {
    FiveOClock(now - RolloverMs, tz)
  }

  /**
   * With one notion of day for both the cutoff and the key, a start time
   * passes the cutoff exactly when its broadcast day is not before today's.
   */
  lemma {:induction false} ThresholdMatchesDayKey(t: int, now: int, tz: int)
    ensures t >= Threshold(now, tz) <==> DayKey(t, tz) >= DayKey(now, tz)
  {
    if t >= Threshold(now, tz) {
      MidnightIsLatest(DayKey(now, tz), t - RolloverMs, tz);
    }
  }

  /**
   * 04:59:59.999 and 05:00:00.000 of the same calendar date lie on different
   * broadcast days: the earlier one belongs to the previous day's listing.
   */
  lemma {:induction false} RolloverAtFive(midnight: int, tz: int)
    requires IsMidnight(midnight, tz)
    ensures DayKey(midnight + RolloverMs - 1, tz) == midnight - DayMs
    ensures DayKey(midnight + RolloverMs, tz) == midnight
  {
    assert IsMidnight(midnight - DayMs, tz);
    MidnightUnique(midnight - DayMs, midnight - 1, tz);
    MidnightUnique(midnight, midnight, tz);
  }
}
