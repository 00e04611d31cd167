/**
 * computeNextRun from MainActivity.scheduleDaily: turn a wall-clock time of
 * day and the current LocalDateTime into the instant of the next run and the
 * whole-minute initial delay handed to the periodic work request.
 */
module Schedule {
  import opened Wrappers
  import TimeText

  const NanosPerSecond: int := 1_000_000_000
  const NanosPerMinute: int := 60 * NanosPerSecond
  const NanosPerHour: int := 60 * NanosPerMinute
  const NanosPerDay: int := 24 * NanosPerHour
  const MinutesPerDay: int := 1440

  /** The hard floor on the initial delay, in minutes. */
  const MinDelayMinutes: int := 5

  /**
   * A java.time.LocalDateTime: a day number (there is no zone, so every day
   * is 24 hours long) and the nanoseconds elapsed since that day's midnight.
   */
  datatype LocalDateTime = LocalDateTime(day: int, nanoOfDay: int)

  predicate ValidDateTime(t: LocalDateTime) {
    0 <= t.nanoOfDay < NanosPerDay
  }

  /** Nanoseconds since the midnight that starts day 0: a total order on date-times. */
  function EpochNanos(t: LocalDateTime): int {
    t.day * NanosPerDay + t.nanoOfDay
  }

  /** LocalDateTime.isAfter: later date, or the same date and a later time. */
  predicate IsAfter(a: LocalDateTime, b: LocalDateTime) {
    a.day > b.day || (a.day == b.day && a.nanoOfDay > b.nanoOfDay)
  }

  lemma IsAfterMeansLater(a: LocalDateTime, b: LocalDateTime)
    requires ValidDateTime(a) && ValidDateTime(b)
    ensures IsAfter(a, b) <==> EpochNanos(a) > EpochNanos(b)
  {
    if a.day > b.day {
      assert EpochNanos(a) >= (b.day + 1) * NanosPerDay;
    } else if a.day < b.day {
      assert EpochNanos(b) >= (a.day + 1) * NanosPerDay;
    }
  }

  /** LocalDateTime.plusDays. */
  function PlusDays(t: LocalDateTime, days: int): LocalDateTime {
    LocalDateTime(t.day + days, t.nanoOfDay)
  }

  /** LocalDateTime.plusMinutes, carrying into the following days. */
  function PlusMinutes(t: LocalDateTime, minutes: nat): (r: LocalDateTime)
    requires ValidDateTime(t)
    ensures ValidDateTime(r)
    ensures EpochNanos(r) == EpochNanos(t) + minutes * NanosPerMinute
  {
    var total := t.nanoOfDay + minutes * NanosPerMinute;
    LocalDateTime(t.day + total / NanosPerDay, total % NanosPerDay)
  }

  /** withHour(h).withMinute(m).withSecond(0).withNano(0): the same date at h:m:00.0. */
  function AtTimeOfDay(t: LocalDateTime, hour: nat, minute: nat): LocalDateTime {
    LocalDateTime(t.day, hour * NanosPerHour + minute * NanosPerMinute)
  }

  /**
   * Duration.between(a, b).toMinutes(): the Duration keeps floor(seconds)
   * and a non-negative nano part; toMinutes divides the seconds by 60
   * truncating toward zero.
   */
  function MinutesBetween(a: LocalDateTime, b: LocalDateTime): int {
    var seconds := (EpochNanos(b) - EpochNanos(a)) / NanosPerSecond;
    if seconds >= 0 then seconds / 60 else -((-seconds) / 60)
  }

  lemma MinutesBetweenBounds(a: LocalDateTime, b: LocalDateTime)
    requires 0 <= EpochNanos(b) - EpochNanos(a) <= NanosPerDay
    ensures 0 <= MinutesBetween(a, b) <= MinutesPerDay
    ensures MinutesBetween(a, b) * NanosPerMinute <= EpochNanos(b) - EpochNanos(a)
  {
    var d := EpochNanos(b) - EpochNanos(a);
    var seconds := d / NanosPerSecond;
    assert 0 <= seconds <= 86400;
    assert seconds * NanosPerSecond <= d;
    assert (seconds / 60) * 60 <= seconds;
  }

  /**
   * The first instant strictly after now at which the wall clock reads
   * hour:minute:00.0: today's if that is still ahead, else tomorrow's.
   */
  function NextOccurrence(now: LocalDateTime, hour: nat, minute: nat): (r: LocalDateTime)
    requires ValidDateTime(now) && hour < 24 && minute < 60
    ensures ValidDateTime(r) && IsAfter(r, now)
    ensures r.nanoOfDay == hour * NanosPerHour + minute * NanosPerMinute
    ensures r.day == now.day || r.day == now.day + 1
    ensures r.day == now.day <==> r.nanoOfDay > now.nanoOfDay
    ensures 0 < EpochNanos(r) - EpochNanos(now) <= NanosPerDay
  {
    var today := AtTimeOfDay(now, hour, minute);
    if IsAfter(today, now) then today else PlusDays(today, 1)
  }

  /** NextRunInfo: the text asked for, when the first run happens, and the initial delay. */
  datatype NextRunInfo = NextRunInfo(requestedText: string, scheduledAt: LocalDateTime, delayMinutes: int)

  /**
   * The run chosen for hour:minute: the next occurrence of that time after
   * now with the whole minutes up to it as the delay, or, when fewer than
   * five whole minutes remain, now plus five minutes with a delay of five.
   */
  predicate ClampedRun(r: NextRunInfo, now: LocalDateTime, hour: nat, minute: nat)
    requires ValidDateTime(now) && hour < 24 && minute < 60
  {
    var next := NextOccurrence(now, hour, minute);
    if MinutesBetween(now, next) < MinDelayMinutes then
      r.delayMinutes == MinDelayMinutes
      && EpochNanos(r.scheduledAt) == EpochNanos(now) + MinDelayMinutes * NanosPerMinute
    else
      r.delayMinutes == MinutesBetween(now, r.scheduledAt)
      && r.scheduledAt == next
  }

  /**
   * computeNextRun: None when the text is not a LocalTime; otherwise the
   * next occurrence of that hour and minute after now, unless that is fewer
   * than five whole minutes away, in which case now plus five minutes.
   */
  method ComputeNextRun(requested: string, now: LocalDateTime) returns (info: Option<NextRunInfo>)
    requires ValidDateTime(now)
    ensures info.None? <==> TimeText.ParseLocalTime(requested).None?
    ensures info.Some? ==>
              var r := info.value;
              && r.requestedText == requested
              && ValidDateTime(r.scheduledAt)
              && IsAfter(r.scheduledAt, now)
              && MinDelayMinutes <= r.delayMinutes <= MinutesPerDay
    ensures info.Some? ==>
              var t := TimeText.ParseLocalTime(requested).value;
              ClampedRun(info.value, now, t.hour, t.minute)
  {
    var parsed := TimeText.ParseLocalTime(requested);
    if parsed.None? {
      return None;
    }
    var t := parsed.value;

    var target := AtTimeOfDay(now, t.hour, t.minute);
    if !IsAfter(target, now) {
      target := PlusDays(target, 1);
    }
    assert target == NextOccurrence(now, t.hour, t.minute);
    MinutesBetweenBounds(now, target);

    var delay := MinutesBetween(now, target);
    if delay < MinDelayMinutes {
      delay := MinDelayMinutes;
      target := PlusMinutes(now, delay);
      IsAfterMeansLater(target, now);
    }
    return Some(NextRunInfo(requested, target, delay));
  }

  /**
   * A time of day at least five minutes (plus the seconds already elapsed)
   * ahead of now on today's clock is scheduled today, at exactly that time.
   */
  lemma FarEnoughRunsToday(now: LocalDateTime, hour: nat, minute: nat)
    requires ValidDateTime(now) && hour < 24 && minute < 60
    requires hour * NanosPerHour + minute * NanosPerMinute >= now.nanoOfDay + MinDelayMinutes * NanosPerMinute
    ensures NextOccurrence(now, hour, minute).day == now.day
    ensures MinutesBetween(now, NextOccurrence(now, hour, minute)) >= MinDelayMinutes
  {
    var next := NextOccurrence(now, hour, minute);
    var d := EpochNanos(next) - EpochNanos(now);
    assert d >= MinDelayMinutes * NanosPerMinute;
    assert d / NanosPerSecond >= 300;
  }

  /**
   * A time of day that has passed, or equals now, runs tomorrow at that
   * time (or five minutes from now, when that is later).
   */
  lemma PassedRunsTomorrow(now: LocalDateTime, hour: nat, minute: nat)
    requires ValidDateTime(now) && hour < 24 && minute < 60
    requires hour * NanosPerHour + minute * NanosPerMinute <= now.nanoOfDay
    ensures NextOccurrence(now, hour, minute) == LocalDateTime(now.day + 1, hour * NanosPerHour + minute * NanosPerMinute)
  {
  }
}
