/** The clock the model uses in place of `datetime`: a time is a whole
    number of minutes, and minute 0 is a Monday at 00:00, so that day
    numbers and weekdays agree with Python's `weekday()` (Monday is 0). */
module Clock {
  const MINUTES_PER_HOUR: int := 60
  const MINUTES_PER_DAY: int := 24 * MINUTES_PER_HOUR
  const DAYS_PER_WEEK: int := 7

  /** `dt.weekday()`; Dafny's `/` and `%` floor for a positive divisor, as
      Python's do, so times before minute 0 get their weekday too. */
  function Weekday(t: int): (w: int)
    ensures 0 <= w < DAYS_PER_WEEK
  {
    (t / MINUTES_PER_DAY) % DAYS_PER_WEEK
  }

  /** `dt.replace(hour=0, minute=0, second=0, microsecond=0)` */
  function Midnight(t: int): (m: int)
    ensures m <= t < m + MINUTES_PER_DAY && m % MINUTES_PER_DAY == 0
  {
    t - t % MINUTES_PER_DAY
  }
}

/** The weekly draft window: from Tuesday 00:00 to Saturday 23:59 of the
    current week. */
module DraftTimer {
  import opened Clock

  const TUESDAY: int := 1
  const SATURDAY: int := 5

  /** `timedelta(days=4, hours=23, minutes=59)` */
  const WINDOW_LENGTH: int := 4 * MINUTES_PER_DAY + 23 * MINUTES_PER_HOUR + 59

  /** `(today.weekday() - 1) % 7`: how many days ago the last Tuesday was. */
  function DaysSinceTuesday(weekday: int): (d: int)
    ensures 0 <= d < DAYS_PER_WEEK
    ensures 0 <= weekday < DAYS_PER_WEEK ==> (weekday - d) % DAYS_PER_WEEK == TUESDAY
  {
    (weekday - TUESDAY) % DAYS_PER_WEEK
  }

  /** The start of `get_draft_window()` for the clock reading `today`. */
  function WindowStart(today: int): int {
    Midnight(today - DaysSinceTuesday(Weekday(today)) * MINUTES_PER_DAY)
  }

  /** The end of `get_draft_window()`. */
  function WindowEnd(today: int): int {
    WindowStart(today) + WINDOW_LENGTH
  }

  /** `is_draft_window_open()`, both clock readings being `now`. */
  predicate IsDraftWindowOpen(now: int) {
    WindowStart(now) <= now <= WindowEnd(now)
  }

  /** A Tuesday at 00:00. */
  predicate TuesdayMidnight(t: int) {
    t % MINUTES_PER_DAY == 0 && Weekday(t) == TUESDAY
  }

  /** The window is four days, 23 hours and 59 minutes long. */
  lemma WindowLength(today: int)
    ensures WindowEnd(today) - WindowStart(today) == 7199
  {
  }

  /** Moving back whole days moves the weekday back by as many. */
  lemma WeekdayBack(t: int, d: int)
    ensures Weekday(t - d * MINUTES_PER_DAY) == (Weekday(t) - d) % DAYS_PER_WEEK
  {
    var q := t / MINUTES_PER_DAY;
    assert (t - d * MINUTES_PER_DAY) / MINUTES_PER_DAY == q - d by {
      assert t - d * MINUTES_PER_DAY == (q - d) * MINUTES_PER_DAY + t % MINUTES_PER_DAY;
    }
    assert (q - d) % DAYS_PER_WEEK == (q % DAYS_PER_WEEK - d) % DAYS_PER_WEEK by {
      assert q - d == (q % DAYS_PER_WEEK - d) + (q / DAYS_PER_WEEK) * DAYS_PER_WEEK;
      ModShift(q % DAYS_PER_WEEK - d, q / DAYS_PER_WEEK);
    }
  }

  /** Adding whole weeks does not change a remainder modulo 7. */
  lemma ModShift(a: int, k: int)
    ensures (a + k * DAYS_PER_WEEK) % DAYS_PER_WEEK == a % DAYS_PER_WEEK
  {
    var r := a % DAYS_PER_WEEK;
    assert a + k * DAYS_PER_WEEK == (a / DAYS_PER_WEEK + k) * DAYS_PER_WEEK + r;
  }

  /** The start is a Tuesday at 00:00, at most `today`, and less than a week
      earlier. */
  lemma WindowStartIsLastTuesday(today: int)
    ensures TuesdayMidnight(WindowStart(today))
    ensures WindowStart(today) <= today < WindowStart(today) + DAYS_PER_WEEK * MINUTES_PER_DAY
  {
    var d := DaysSinceTuesday(Weekday(today));
    var shifted := today - d * MINUTES_PER_DAY;
    WeekdayBack(today, d);
    assert Weekday(Midnight(shifted)) == Weekday(shifted) by {
      assert Midnight(shifted) / MINUTES_PER_DAY == shifted / MINUTES_PER_DAY;
    }
    assert Midnight(shifted) > shifted - MINUTES_PER_DAY;
  }

  /** Two Tuesday midnights are a whole number of weeks apart. */
  lemma TuesdaysWeeksApart(a: int, b: int)
    requires TuesdayMidnight(a) && TuesdayMidnight(b) && a < b
    ensures b - a >= DAYS_PER_WEEK * MINUTES_PER_DAY
  {
    var qa := a / MINUTES_PER_DAY;
    var qb := b / MINUTES_PER_DAY;
    assert a == qa * MINUTES_PER_DAY && b == qb * MINUTES_PER_DAY;
    assert qa < qb;
    assert qa % DAYS_PER_WEEK == qb % DAYS_PER_WEEK;
    assert qb - qa == (qb / DAYS_PER_WEEK - qa / DAYS_PER_WEEK) * DAYS_PER_WEEK;
  }

  /** The start is the one Tuesday midnight in the week up to `today`: an
      independent definition of `get_draft_window`'s start. */
  lemma WindowStartUnique(today: int, t: int)
    ensures TuesdayMidnight(t) && t <= today < t + DAYS_PER_WEEK * MINUTES_PER_DAY <==> t == WindowStart(today)
  {
    var s := WindowStart(today);
    WindowStartIsLastTuesday(today);
    if TuesdayMidnight(t) && t <= today < t + DAYS_PER_WEEK * MINUTES_PER_DAY {
      if t < s {
        TuesdaysWeeksApart(t, s);
      } else if s < t {
        TuesdaysWeeksApart(s, t);
      }
    }
  }

  /** The window ends on the Saturday of the same week, at 23:59. */
  lemma WindowEndsSaturday(today: int)
    ensures Weekday(WindowEnd(today)) == SATURDAY
    ensures WindowEnd(today) % MINUTES_PER_DAY == 23 * MINUTES_PER_HOUR + 59
  {
    var s := WindowStart(today);
    WindowStartIsLastTuesday(today);
    var q := s / MINUTES_PER_DAY;
    assert s == q * MINUTES_PER_DAY;
    assert WindowEnd(today) == (q + 4) * MINUTES_PER_DAY + 23 * MINUTES_PER_HOUR + 59;
    assert WindowEnd(today) / MINUTES_PER_DAY == q + 4;
    assert (q + 4) % DAYS_PER_WEEK == SATURDAY by {
      assert q + 4 == (q % DAYS_PER_WEEK + 4) + (q / DAYS_PER_WEEK) * DAYS_PER_WEEK;
      ModShift(q % DAYS_PER_WEEK + 4, q / DAYS_PER_WEEK);
    }
  }

  /** The window is open exactly from Tuesday to Saturday, whatever the time
      of day. */
  lemma OpenTuesdayToSaturday(now: int)
    ensures IsDraftWindowOpen(now) <==> TUESDAY <= Weekday(now) <= SATURDAY
  {
    var s := WindowStart(now);
    WindowStartIsLastTuesday(now);
    var q := s / MINUTES_PER_DAY;
    assert s == q * MINUTES_PER_DAY;
    var n := now / MINUTES_PER_DAY;
    assert q <= n < q + DAYS_PER_WEEK;
    assert now <= WindowEnd(now) <==> n <= q + 4;
    assert Weekday(now) == (TUESDAY + (n - q)) % DAYS_PER_WEEK by {
      assert n == (TUESDAY + (n - q)) + (q / DAYS_PER_WEEK) * DAYS_PER_WEEK;
      ModShift(TUESDAY + (n - q), q / DAYS_PER_WEEK);
    }
  }
}
