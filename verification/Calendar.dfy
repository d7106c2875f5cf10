/** Civil time in a fixed UTC offset, derived from epoch seconds. */
module Calendar {
  import opened Rules

  const MINUTES_PER_DAY := 1440
  const SECS_PER_DAY := 86400

  /** The zone setting in seconds east, as stored by the engine. */
  function ZoneSecs(utcHours: Option<int>): Option<int> {
    if utcHours.Some? then Some(utcHours.value * 3600) else None
  }

  /** An unset zone, or one of a day or more, is UTC. */
  function OffsetSecs(zone: Option<int>): int {
    if zone.Some? && -SECS_PER_DAY < zone.value < SECS_PER_DAY then zone.value else 0
  }

  predicate WholeHours(zone: Option<int>) {
    zone.Some? ==> zone.value % 3600 == 0
  }

  function LocalSecs(epoch: nat, zone: Option<int>): int {
    epoch + OffsetSecs(zone)
  }

  /** Days since 1970-01-01, which was a Thursday. */
  function DayOf(local: int): int { local / SECS_PER_DAY }

  function MinuteOf(local: int): (m: nat)
    ensures m < MINUTES_PER_DAY
  {
    (local / 60) % MINUTES_PER_DAY
  }

  /** ISO weekday of a day number. */
  function Weekday(day: int): (d: nat)
    ensures 1 <= d <= 7
  {
    (day + 3) % 7 + 1
  }

  function Today(epoch: nat, zone: Option<int>): int { DayOf(LocalSecs(epoch, zone)) }

  function NowMinute(epoch: nat, zone: Option<int>): nat { MinuteOf(LocalSecs(epoch, zone)) }

  function NowWeekday(epoch: nat, zone: Option<int>): nat { Weekday(Today(epoch, zone)) }

  /** With a whole-hour offset the second within the local minute can be read off the epoch. */
  lemma SecondOfMinute(epoch: nat, zone: Option<int>)
    requires WholeHours(zone)
    ensures epoch % 60 == LocalSecs(epoch, zone) % 60
  {
    var off := OffsetSecs(zone);
    assert off == 60 * (60 * (off / 3600));
    AddMultipleMod(epoch, 60 * (off / 3600));
  }

  /** Under a setting of N hours the local date, minute and second are those of the epoch moved by N hours;
      without one, and for a day or more, they are those of UTC. */
  lemma CivilTime(epoch: nat, utcHours: Option<int>)
    ensures var zone := ZoneSecs(utcHours);
      var hours := if utcHours.Some? && -24 < utcHours.value < 24 then utcHours.value else 0;
      && epoch + 3600 * hours == 86400 * Today(epoch, zone) + 60 * NowMinute(epoch, zone) + epoch % 60
      && NowMinute(epoch, zone) < 1440
  {
    var zone := ZoneSecs(utcHours);
    SecondOfMinute(epoch, zone);
    DayFromMinutes(LocalSecs(epoch, zone));
  }

  /** Day 0 is a Thursday and weekdays go round from Monday to Sunday; 2026-01-01, day 20454, is again a
      Thursday. */
  lemma WeekdaysGoRound(epoch: nat, zone: Option<int>)
    ensures Weekday(0) == 4 && Weekday(20454) == 4
    ensures forall day :: Weekday(day + 1) == if Weekday(day) == 7 then 1 else Weekday(day) + 1
    ensures NowWeekday(epoch, zone) == Weekday(Today(epoch, zone))
  {}

  lemma AddMultipleMod(x: int, k: int)
    ensures (x + 60 * k) % 60 == x % 60
  {}

  /** Moving t seconds ahead moves the minute clock by the minutes that elapse. */
  lemma MinutesAhead(local: int, t: nat)
    ensures (local + t) / 60 == local / 60 + (local % 60 + t) / 60
  {}

  lemma DayFromMinutes(local: int)
    ensures DayOf(local) == (local / 60) / MINUTES_PER_DAY
    ensures local - SECS_PER_DAY * DayOf(local) == 60 * MinuteOf(local) + local % 60
  {}

  /** The weekday arithmetic of the wake scheduler agrees with the calendar. */
  lemma WeekdayAhead(day: int, n: nat)
    ensures Weekday(day + n) == (Weekday(day) - 1 + n) % 7 + 1
  {}
}
