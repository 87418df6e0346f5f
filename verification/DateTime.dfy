/** Weeks and seconds (utils/date_time.h) as functions of the time, counted from 1970-01-01 00:00 UTC. */
module DateTime {

  /** Clock ticks; the system clock counts nanoseconds. */
  type Time = int

  const SECOND := 1000000000
  const MINUTE := 60 * SECOND
  const DAY := 24 * 60 * MINUTE
  const WEEK := 7 * DAY

  /** The whole week whose count, four days on, starts on a Monday. */
  function CurrentWeekStart(now: Time): (start: Time) {
    (now - 4 * DAY) / WEEK * WEEK + 4 * DAY
  }

  function CurrentSecondIndex(now: Time): (s: nat)
    ensures s < 60
  {
    SecondInRange(now);
    (now / SECOND * SECOND - now / MINUTE * MINUTE) / SECOND
  }

  lemma SecondInRange(now: Time)
    ensures 0 <= (now / SECOND * SECOND - now / MINUTE * MINUTE) / SECOND < 60
  {
    assert now == now / MINUTE * MINUTE + now % MINUTE;
    assert now == now / SECOND * SECOND + now % SECOND;
  }

  /** It is the second of the minute in which the time lies. */
  lemma SecondOfTheMinute(now: Time)
    ensures var start, s := now / MINUTE * MINUTE, CurrentSecondIndex(now);
            start + s * SECOND <= now < start + (s + 1) * SECOND
  {
    var m, t := now / MINUTE, now / SECOND;
    assert now / SECOND * SECOND - m * MINUTE == (t - 60 * m) * SECOND;
    assert CurrentSecondIndex(now) == t - 60 * m;
  }

  // ------------------------------------------------------------------------------------------
  // The calendar
  // ------------------------------------------------------------------------------------------

  const MONDAY := 1
  const THURSDAY := 4

  /** The epoch was a Thursday, and weekdays follow each other: Sunday is 0, Saturday 6. */
  function Weekday(day: int): int
    decreases if day < 0 then -day else day
  {
    if day == 0 then THURSDAY
    else if day > 0 then if Weekday(day - 1) == 6 then 0 else Weekday(day - 1) + 1
    else if Weekday(day + 1) == 0 then 6 else Weekday(day + 1) - 1
  }

  predicate IsMondayMidnight(t: Time) {
    t % DAY == 0 && Weekday(t / DAY) == MONDAY
  }

  lemma NextRemainder(x: int)
    ensures (x + 1) % 7 == if x % 7 == 6 then 0 else x % 7 + 1
  {
  }

  lemma {:induction false} WeekdaysRepeat(day: int)
    ensures Weekday(day) == (day + THURSDAY) % 7
    decreases if day < 0 then -day else day
  {
    if day > 0 {
      WeekdaysRepeat(day - 1);
      NextRemainder(day - 1 + THURSDAY);
    } else if day < 0 {
      WeekdaysRepeat(day + 1);
      NextRemainder(day + THURSDAY);
    }
  }

  lemma WeekRemainder(x: int, k: int, s: int)
    requires x == k * WEEK + s && 0 <= s < WEEK
    ensures x % WEEK == s
  {
  }

  /** Monday midnights are those a whole number of weeks from the fourth day. */
  lemma MondaysAreWeekly(t: Time)
    ensures IsMondayMidnight(t) <==> (t - 4 * DAY) % WEEK == 0
  {
    WeekdaysRepeat(t / DAY);
    var d, r := t / DAY, t % DAY;
    var k, q := (d + THURSDAY - 1) / 7, (d + THURSDAY - 1) % 7;
    NextRemainder(d + THURSDAY - 1);
    WeekRemainder(t - 4 * DAY, k - 1, q * DAY + r);
  }

  lemma LastWeek(x: int, y: int)
    ensures x / WEEK * WEEK <= x && x / WEEK * WEEK % WEEK == 0
    ensures y % WEEK == 0 && y <= x ==> y <= x / WEEK * WEEK
  {
  }

  /** The week start is the last Monday midnight that is not in the future. */
  lemma WeekStartsOnMonday(now: Time)
    ensures IsMondayMidnight(CurrentWeekStart(now)) && CurrentWeekStart(now) <= now
    ensures forall t :: IsMondayMidnight(t) && t <= now ==> t <= CurrentWeekStart(now)
  {
    MondaysAreWeekly(CurrentWeekStart(now));
    LastWeek(now - 4 * DAY, 0);
    forall t | IsMondayMidnight(t) && t <= now
      ensures t <= CurrentWeekStart(now)
    {
      MondaysAreWeekly(t);
      LastWeek(now - 4 * DAY, t - 4 * DAY);
    }
  }

  lemma WeekStartMonotone(t: Time, u: Time)
    requires t <= u
    ensures CurrentWeekStart(t) <= CurrentWeekStart(u)
  {
  }

  /** The first week of 2024 started on January 1st. */
  lemma WeekOf2024(now: Time)
    requires 1704067200 * 1000000000 <= now < (1704067200 + 7 * 24 * 60 * 60) * 1000000000
    ensures CurrentWeekStart(now) == 1704067200 * 1000000000
  {
    WeekRemainder(now - 4 * DAY, 2817, now - 1704067200 * SECOND);
  }

  /** In nanoseconds: seconds, minutes and weeks have their usual length. */
  lemma UsualLengths(now: Time)
    ensures CurrentSecondIndex(now) == now / 1000000000 % 60
    ensures CurrentWeekStart(now) <= now < CurrentWeekStart(now) + 7 * 24 * 60 * 60 * 1000000000
  {
    SecondOfTheMinute(now);
    var m, s := now / MINUTE, CurrentSecondIndex(now);
    assert (60 * m + s) * SECOND <= now < (60 * m + s + 1) * SECOND;
    assert now / SECOND == 60 * m + s;
    LastWeek(now - 4 * DAY, 0);
  }
}
