/**
 * The prediction-deadline countdown. Instants are whole milliseconds on a local
 * clock with a fixed offset, so a local day starts at every multiple of DAY.
 */
module Countdown {

  const SECOND: int := 1000
  const MINUTE: int := 60 * SECOND
  const HOUR: int := 60 * MINUTE
  const DAY: int := 24 * HOUR

  /** 20:00:00.000 local time, the daily cut-off. */
  const DEADLINE: int := 20 * HOUR

  /** The first 20:00 at or after `now`, defined without reference to today's midnight. */
  function NextDeadline(now: int): int
  {
    now + (DEADLINE - now) % DAY
  }

  /** NextDeadline falls at 20:00 and no 20:00 at or after `now` comes earlier. */
  lemma NextDeadlineIsEarliest(now: int, t: int)
    requires t % DAY == DEADLINE && now <= t
    ensures NextDeadline(now) % DAY == DEADLINE
    ensures now <= NextDeadline(now) <= t
  {
  }

  /**
   * The target of the interval callback: 20:00 today, moved one day later when
   * `now` is strictly past it.
   */
  method Target(now: int) returns (target: int)
    ensures target == NextDeadline(now)
    ensures 0 <= target - now < DAY
    ensures now <= now - now % DAY + DEADLINE ==> target == now - now % DAY + DEADLINE
  {
    target := now - now % DAY + DEADLINE;
    if now > target {
      target := target + DAY;
    }
  }

  /** Hours, minutes and seconds of a remaining time. */
  datatype Clock = Clock(h: int, m: int, s: int)

  /** The h/m/s split of a non-negative remaining time `diff` (milliseconds). */
  function Decompose(diff: int): (c: Clock)
    requires diff >= 0
    ensures 0 <= c.h < 24 && 0 <= c.m < 60 && 0 <= c.s < 60
  {
    Clock((diff / HOUR) % 24, (diff / MINUTE) % 60, (diff / SECOND) % 60)
  }

  /** Below a day, the split loses nothing but the milliseconds. */
  lemma DecomposeIsExact(diff: int)
    requires 0 <= diff < DAY
    ensures var c := Decompose(diff);
            c.h * 3600 + c.m * 60 + c.s == diff / SECOND
  {
    var secs := diff / SECOND;
    var mins := diff / MINUTE;
    var hours := diff / HOUR;
    assert mins == secs / 60;
    assert hours == mins / 60;
    assert hours < 24;
    assert secs == mins * 60 + secs % 60;
    assert mins == hours * 60 + mins % 60;
  }

  /** One tick of the countdown: the time left until the next deadline. */
  method TimeLeft(now: int) returns (c: Clock)
    ensures c.h * 3600 + c.m * 60 + c.s == (NextDeadline(now) - now) / SECOND
    ensures 0 <= c.h < 24 && 0 <= c.m < 60 && 0 <= c.s < 60
  {
    var target := Target(now);
    var diff := target - now;
    c := Decompose(diff);
    DecomposeIsExact(diff);
  }
}
