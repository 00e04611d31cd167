/**
 * The "save and schedule" action of MainActivity: validate the time and the
 * duration typed into the form, save the settings, and (re)register the
 * daily generation work under its unique name with the computed delay.
 */
module MainActivity {
  import opened Wrappers
  import TimeText
  import Schedule
  import Prefs

  /** The unique name the daily generation work is registered under. */
  const GenDailyName: string := "gen_daily"

  /** What the form hands to onSaveAndSchedule (the fields of the new settings). */
  datatype FormInput = FormInput(cast: string, background: string, aspect: string, duration: string, genTime: string)

  /** A periodic work request: one run a day, after an initial delay, with a network constraint. */
  datatype PeriodicWork = PeriodicWork(initialDelayMinutes: int, periodDays: nat, requiresNetwork: bool)

  /** The message placed in the dialog state once the action ends. */
  datatype Message =
    | BadTimeFormat      // the form's time did not normalise
    | BadDuration        // the form's duration is not an Int in 1..10
    | ScheduleBadTime    // computeNextRun could not parse the saved time
    | Registered(info: Schedule.NextRunInfo)

  /** The unique periodic work known to WorkManager, by name. */
  class WorkRegistry {
    var periodic: map<string, PeriodicWork>

    constructor ()
      ensures periodic == map[]
    {
      periodic := map[];
    }

    /** cancelUniqueWork(name). */
    method CancelUniqueWork(name: string)
      modifies this
      ensures periodic == old(periodic) - {name}
    {
      periodic := periodic - {name};
    }

    /** enqueueUniquePeriodicWork(name, UPDATE, work): the name now stands for this work. */
    method EnqueueUniquePeriodicWork(name: string, work: PeriodicWork)
      modifies this
      ensures periodic == old(periodic)[name := work]
    {
      periodic := periodic[name := work];
    }
  }

  /** scheduleDaily(genTime): compute the next run and replace the "gen_daily" registration. */
  method ScheduleDaily(registry: WorkRegistry, genTime: string, now: Schedule.LocalDateTime)
    returns (msg: Message)
    requires Schedule.ValidDateTime(now)
    modifies registry
    ensures TimeText.ParseLocalTime(genTime).None? ==> msg == ScheduleBadTime && registry.periodic == old(registry.periodic)
    ensures TimeText.ParseLocalTime(genTime).Some? ==>
              msg.Registered?
              && msg.info.requestedText == genTime
              && Schedule.ValidDateTime(msg.info.scheduledAt)
              && Schedule.IsAfter(msg.info.scheduledAt, now)
              && Schedule.MinDelayMinutes <= msg.info.delayMinutes <= Schedule.MinutesPerDay
              && registry.periodic == old(registry.periodic)[GenDailyName := PeriodicWork(msg.info.delayMinutes, 1, true)]
    ensures TimeText.ParseLocalTime(genTime).Some? ==>
              var t := TimeText.ParseLocalTime(genTime).value;
              msg.Registered? && Schedule.ClampedRun(msg.info, now, t.hour, t.minute)
  {
    var info := Schedule.ComputeNextRun(genTime, now);
    if info.None? {
      return ScheduleBadTime;
    }
    var work := PeriodicWork(info.value.delayMinutes, 1, true);
    registry.CancelUniqueWork(GenDailyName);
    registry.EnqueueUniquePeriodicWork(GenDailyName, work);
    assert registry.periodic == old(registry.periodic)[GenDailyName := work];
    msg := Registered(info.value);
  }

  /** The settings saved for a valid form: the current ones with the form's five fields replaced. */
  function UpdatedPrefs(cur: Prefs.UserPrefs, input: FormInput, gen: string, dur: int): Prefs.UserPrefs {
    cur.(cast := input.cast, background := input.background, aspect := input.aspect,
         durationSec := dur, genTime := gen)
  }

  /**
   * onSaveAndSchedule: an invalid time or duration only sets a message;
   * otherwise the normalised time and the parsed duration are saved with
   * the form's texts, and the daily work is registered for that time.
   */
  method OnSaveAndSchedule(prefs: Prefs.PrefsRepository, registry: WorkRegistry,
                           input: FormInput, now: Schedule.LocalDateTime)
    returns (msg: Message)
    requires prefs.Valid() && Schedule.ValidDateTime(now)
    modifies prefs, registry
    ensures prefs.Valid()
    ensures TimeText.NormalizeTimeOrNull(input.genTime).None? ==>
              msg == BadTimeFormat && prefs.store == old(prefs.store) && registry.periodic == old(registry.periodic)
    ensures TimeText.NormalizeTimeOrNull(input.genTime).Some? && !TimeText.IsDurationValid(input.duration) ==>
              msg == BadDuration && prefs.store == old(prefs.store) && registry.periodic == old(registry.periodic)
    ensures TimeText.NormalizeTimeOrNull(input.genTime).Some? && TimeText.IsDurationValid(input.duration) ==>
              var gen := TimeText.NormalizeTimeOrNull(input.genTime).value;
              var dur := TimeText.ToIntOrNull(input.duration).value;
              && prefs.store == Prefs.Saved(old(prefs.store), UpdatedPrefs(old(prefs.Flow()), input, gen, dur))
              && msg.Registered?
              && msg.info.requestedText == gen
              && Schedule.IsAfter(msg.info.scheduledAt, now)
              && Schedule.MinDelayMinutes <= msg.info.delayMinutes <= Schedule.MinutesPerDay
              && registry.periodic == old(registry.periodic)[GenDailyName := PeriodicWork(msg.info.delayMinutes, 1, true)]
    ensures TimeText.NormalizeTimeOrNull(input.genTime).Some? && TimeText.IsDurationValid(input.duration) ==>
              var t := TimeText.ParseLocalTime(TimeText.NormalizeTimeOrNull(input.genTime).value);
              msg.Registered? && t.Some? && Schedule.ClampedRun(msg.info, now, t.value.hour, t.value.minute)
  {
    var gen := TimeText.NormalizeTimeOrNull(input.genTime);
    if gen == None {
      return BadTimeFormat;
    }

    var dur := TimeText.ToIntOrNull(input.duration);
    if dur == None || !(1 <= dur.value <= 10) {
      return BadDuration;
    }

    var cur := prefs.Flow();
    var updated := UpdatedPrefs(cur, input, gen.value, dur.value);
    prefs.Save(updated);

    TimeText.CanonicalParses(gen.value);
    msg := ScheduleDaily(registry, gen.value, now);
  }
}
