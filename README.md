# LockLoop core, modelled in Dafny

LockLoop makes a short looping weather video for the Android lock screen.
The app keeps its settings in a preference store: subject ("cast"), place,
aspect ratio, clip length, and a daily generation time. From the main
screen the user saves the settings and schedules a daily background job.
Each run of that job asks a backend to generate a video, polls it until it
is ready, downloads it, copies it to the lock-screen file, and records its
path. The backend turns an hourly forecast into a storyboard: rain episodes,
a story type for the day, morning/afternoon/evening scenes, and a storm
flag. From the storyboard it builds the text prompt for the video model.

This project models that core and proves its properties:

- `time_text.dfy`: the text side of the settings form.
  - Kotlin `trim()`, `toIntOrNull()`, ISO `LocalTime.parse` and `"%02d:%02d"` formatting.
  - `normalizeTimeOrNull` and `isDurationValid`.
- `schedule.dfy`: `computeNextRun`, the first-run instant and initial delay of the daily job.
  - `LocalDateTime` is a day number plus nanoseconds of the day.
  - `Duration.toMinutes` truncation is written out.
- `prefs.dfy`: `PrefsRepository`, a class over a typed key/value map.
  - `flow` with its defaults, `save`, and `setLatestVideo`.
- `main_activity.dfy`: the save-and-schedule action.
  - It validates the form, saves, and replaces the unique `gen_daily` periodic registration.
- `generate_worker.dfy`: `GenerateVideoWorker.doWork`.
  - The remote side is given as inputs: the submit reply, the replies to successive status requests, and the download response.
  - The result and the observable side effects are proved equal to a pure run function.
- `weather.dfy`: `detect_transition` and `build_storyboard`.
  - Episode construction is the original nested loop, proved against a characterisation that has exactly one solution.
- `prompts.dfy`: `build_prompt` and `SAFE_ZONE_NOTE`.
- `wrappers.dfy`: `Option` and `Result`.

Where the code and its own comments or messages disagree, the model
follows the code:

- `normalizeTimeOrNull`:
  - The comment at `MainActivity.kt:123` promises `"4:56"` → `"04:56"`.
  - The regex at line 128 lets a one-digit hour through.
  - `LocalTime.parse` (line 131) requires a two-digit hour, so the code returns null.
  - `TimeText.NormalizeRejectsOneDigitHour` and `TimeText.NormalizeExampleRejected` state this.
- The duration check accepts 1..10 (`MainActivity.kt:87,137`), although the message at line 88 says 1~8.
- The comment at `MainActivity.kt:143` says an unparsable time falls back to a 5-minute delay. The code (lines 187-192) sets an error message and registers nothing.
- `UserPrefs.kt:3-10` has no `applyTime`, but `PrefsRepository.kt:25,37` reads and writes one. The model's `UserPrefs` carries `applyTime`.
- `ApiService.kt` declares a request with a `prompt` field, a response without `jobId`, and no status endpoint. The model follows the protocol as the worker uses it (`GenerateVideoWorker.kt:66-99`): `generateVideo(subject, place, aspect, durationSec)` answering `jobId` and `downloadUrl`, then `getStatus(jobId)`.

## Model

| member | source | states |
|---|---|---|
| TimeText.Trim | Frontend/app/src/main/java/com/example/lockloop/MainActivity.kt:125 | The trimmed text is the input's infix that starts after its leading whitespace. Everything after that infix is whitespace too. Neither end of the result is Kotlin whitespace. It is empty only when the whole input is whitespace. |
| TimeText.TrimUnchanged | Frontend/app/src/main/java/com/example/lockloop/MainActivity.kt:125 | Text with no whitespace at either end is unchanged by trim. |
| TimeText.Pad2 | Frontend/app/src/main/java/com/example/lockloop/MainActivity.kt:132 | `%02d` of a number below 100 gives two digits that read back as that number. |
| TimeText.ParseLocalTime | Frontend/app/src/main/java/com/example/lockloop/MainActivity.kt:131 | ISO `LocalTime.parse`: a parsed time is valid (hour < 24, minute and second < 60). The accepted text starts with two digits and a colon. |
| TimeText.ParseCanonical | Frontend/app/src/main/java/com/example/lockloop/MainActivity.kt:131-132 | A canonical `HH:mm` text parses to its own hour and minute (second 0). Formatting that time gives back the same text. |
| TimeText.NormalizeTimeOrNull | Frontend/app/src/main/java/com/example/lockloop/MainActivity.kt:124-134 | Any result is a canonical `HH:mm` with hour < 24 and minute < 60. A trimmed input matching neither `\d{4}` nor `\d{1,2}:\d{2}` gives null. |
| TimeText.NormalizeFourDigits | Frontend/app/src/main/java/com/example/lockloop/MainActivity.kt:127-133 | Four digits `HHmm` normalise exactly when HH ≤ 23 and mm ≤ 59, and then to `HH:mm`. |
| TimeText.NormalizeTwoDigitHour | Frontend/app/src/main/java/com/example/lockloop/MainActivity.kt:128-133 | `HH:mm` normalises exactly when HH ≤ 23 and mm ≤ 59, and then to itself. |
| TimeText.NormalizeRejectsOneDigitHour | Frontend/app/src/main/java/com/example/lockloop/MainActivity.kt:123-131 | A one-digit hour `H:mm` passes the regex, but parsing fails, so the result is null. This contradicts the comment. |
| TimeText.NormalizeIdempotent | Frontend/app/src/main/java/com/example/lockloop/MainActivity.kt:124-134 | Normalising a normalised time returns it unchanged. |
| TimeText.NormalizeExampleFourDigits | Frontend/app/src/main/java/com/example/lockloop/MainActivity.kt:123-127 | `"0456"` normalises to `"04:56"`. |
| TimeText.NormalizeExampleOutOfRange | Frontend/app/src/main/java/com/example/lockloop/MainActivity.kt:127-131 | `"2400"` and `"25:61"` give null. |
| TimeText.NormalizeExampleSpaces | Frontend/app/src/main/java/com/example/lockloop/MainActivity.kt:125-128 | `" 09:05 "` normalises to `"09:05"`. |
| TimeText.NormalizeExampleRejected | Frontend/app/src/main/java/com/example/lockloop/MainActivity.kt:123-129 | `"4:56"` and `"12-30"` give null. |
| TimeText.ToIntOrNull | Frontend/app/src/main/java/com/example/lockloop/MainActivity.kt:86 | A parsed value lies in the 32-bit Int range. |
| TimeText.ToIntOrNullRoundTrip | Frontend/app/src/main/java/com/example/lockloop/MainActivity.kt:86 | The decimal text of every Int parses back to that Int. |
| TimeText.IsDurationValid | Frontend/app/src/main/java/com/example/lockloop/MainActivity.kt:136-137 | An accepted duration text is non-empty. It starts with a digit or `+`, and the rest is all ASCII digits. |
| TimeText.DurationValidIff | Frontend/app/src/main/java/com/example/lockloop/MainActivity.kt:136-137 | The decimal text of an Int is a valid duration exactly when the Int is in 1..10. |
| TimeText.DurationExamples | Frontend/app/src/main/java/com/example/lockloop/MainActivity.kt:136-137 | Valid: "8", "10", "+3", "07". Invalid: "0", "11", " 8", "", "-", "8s". |
| Schedule.IsAfterMeansLater | Frontend/app/src/main/java/com/example/lockloop/MainActivity.kt:170 | `isAfter` holds exactly when the first date-time is the later instant. |
| Schedule.PlusMinutes | Frontend/app/src/main/java/com/example/lockloop/MainActivity.kt:177 | `plusMinutes` moves the instant forward by exactly that many minutes and carries into the following days. |
| Schedule.MinutesBetweenBounds | Frontend/app/src/main/java/com/example/lockloop/MainActivity.kt:174 | For a gap of at most one day, `Duration.between(..).toMinutes()` is in 0..1440. It never exceeds the real gap. |
| Schedule.NextOccurrence | Frontend/app/src/main/java/com/example/lockloop/MainActivity.kt:165-172 | The target has the requested hour and minute (seconds and nanos 0) and is strictly after now. It is today exactly when that is after now, else tomorrow. It is at most one day ahead. |
| Schedule.ComputeNextRun | Frontend/app/src/main/java/com/example/lockloop/MainActivity.kt:162-185 | Null exactly when the time does not parse. Otherwise the requested text is kept, the run is strictly after now, and the delay is in 5..1440. When the whole-minute delay is below 5, the delay is 5 and the run is now + 5 min. Otherwise the run is the next occurrence and the delay is the whole minutes until it. |
| Schedule.FarEnoughRunsToday | Frontend/app/src/main/java/com/example/lockloop/MainActivity.kt:165-178 | A time at least five minutes ahead on today's clock is scheduled today, without clamping. |
| Schedule.PassedRunsTomorrow | Frontend/app/src/main/java/com/example/lockloop/MainActivity.kt:170-172 | A time at or before now on today's clock moves to tomorrow at that time. |
| Prefs.Read | Frontend/app/src/main/java/com/example/lockloop/data/PrefsRepository.kt:18-28 | Every key present in the store reads back as its stored value, including the latest path. The latest path is null exactly when its key is absent. |
| Prefs.Saved | Frontend/app/src/main/java/com/example/lockloop/data/PrefsRepository.kt:30-39 | `save(u)` stores exactly the six settings keys, with the declared types. A later read yields u's settings. The latest-video key is untouched. |
| Prefs.WithLatest | Frontend/app/src/main/java/com/example/lockloop/data/PrefsRepository.kt:41-45 | `setLatestVideo(p)` changes only `latest_video_path`. A later read gives `latestVideoPath == p` and all else as before. |
| Prefs.EmptyReadsDefaults | Frontend/app/src/main/java/com/example/lockloop/data/PrefsRepository.kt:18-28 | An empty store reads as the six defaults and no latest video. |
| Prefs.AbsentKeysReadDefaults | Frontend/app/src/main/java/com/example/lockloop/data/PrefsRepository.kt:19-26 | In any store, each absent settings key reads as its default. The latest path is null exactly when its key is absent. |
| Prefs.SaveIdempotent | Frontend/app/src/main/java/com/example/lockloop/data/PrefsRepository.kt:30-39 | Saving the same settings twice equals saving them once. |
| Prefs.SaveCommutesWithLatest | Frontend/app/src/main/java/com/example/lockloop/data/PrefsRepository.kt:30-45 | The two writers touch disjoint keys, so their order does not matter. |
| Prefs.PrefsRepository.Save | Frontend/app/src/main/java/com/example/lockloop/data/PrefsRepository.kt:30-39 | The new store is `Saved(old store, u)`. `flow` now reads u's settings with the old latest path. |
| Prefs.PrefsRepository.SetLatestVideo | Frontend/app/src/main/java/com/example/lockloop/data/PrefsRepository.kt:41-45 | The new store is `WithLatest(old store, path)`. `flow` reads as before except `latestVideoPath == path`. |
| MainActivity.WorkRegistry.CancelUniqueWork | Frontend/app/src/main/java/com/example/lockloop/MainActivity.kt:206 | The named unique work is no longer registered. Nothing else changes. |
| MainActivity.WorkRegistry.EnqueueUniquePeriodicWork | Frontend/app/src/main/java/com/example/lockloop/MainActivity.kt:207-211 | The name now stands for the given work. Nothing else changes. |
| MainActivity.ScheduleDaily | Frontend/app/src/main/java/com/example/lockloop/MainActivity.kt:145-211 | An unparsable time sets the error message and leaves the registry alone. Otherwise `gen_daily` is replaced by a one-day periodic work with a network constraint. The reported run is strictly after now and its delay is in 5..1440. The run is the next occurrence of the parsed hour and minute, with the whole minutes up to it as the delay. When fewer than 5 whole minutes remain, it is now + 5 min with a delay of 5. The registered initial delay is that delay. |
| MainActivity.OnSaveAndSchedule | Frontend/app/src/main/java/com/example/lockloop/MainActivity.kt:77-105 | A bad time or a bad duration (not an Int in 1..10) sets its message and changes neither the store nor the registry. Otherwise the current settings are saved with the form's texts, the normalised time and the parsed duration, and `gen_daily` is registered for the normalised time. That registration has the clamped next-run delay of the normalised hour and minute, in 5..1440, for a run strictly after now. |
| GenerateWorker.ReadyAndErrorExclusive | Frontend/app/src/main/java/com/example/lockloop/workers/GenerateVideoWorker.kt:88-93 | No status equals both "ready" and "error" ignoring case. |
| GenerateWorker.PollFrom | Frontend/app/src/main/java/com/example/lockloop/workers/GenerateVideoWorker.kt:79-100 | At most 301 status requests. Every reply before the last is non-terminal. A terminal last reply decides the outcome. Otherwise polling times out with a SocketTimeoutException after exactly 301 requests. |
| GenerateWorker.PollEndsAtFirstTerminal | Frontend/app/src/main/java/com/example/lockloop/workers/GenerateVideoWorker.kt:83-94 | The first terminal reply within the budget ends polling after that request, with that reply's outcome. |
| GenerateWorker.PollTimesOut | Frontend/app/src/main/java/com/example/lockloop/workers/GenerateVideoWorker.kt:79-100 | With no terminal reply among the first 301, polling ends in a timeout after 301 requests. |
| GenerateWorker.PollUntilTerminal | Frontend/app/src/main/java/com/example/lockloop/workers/GenerateVideoWorker.kt:79-100 | The `waited`/`ready` loop ends as `PollFrom` says, with the same number of requests. |
| GenerateWorker.ResultFor | Frontend/app/src/main/java/com/example/lockloop/workers/GenerateVideoWorker.kt:132-139 | A caught exception never yields success. It yields retry exactly when it is a SocketTimeoutException. |
| GenerateWorker.DownloadStage | Frontend/app/src/main/java/com/example/lockloop/workers/GenerateVideoWorker.kt:102-119 | The lock file is written exactly when nothing is thrown. A file is written only for a 2xx response with a `video/` Content-Type and a body. Without an exception, the body was read completely, and both files hold it. Conversely, a 2xx `video/` response whose body is read completely throws nothing and writes that body to both files. The exception that escapes is named for every other case. A failed request escapes with its own exception. A non-2xx response escapes with IOException. A non-video response escapes with IOException, or with the exception that broke off reading its error body. A video response without a body escapes with IllegalStateException. A video body broken off escapes with its exception, after its prefix reaches the staging file. |
| GenerateWorker.RunOf | Frontend/app/src/main/java/com/example/lockloop/workers/GenerateVideoWorker.kt:34-140 | A failed submit makes no status request and no download. The only URL ever downloaded is the one the submit returned. A file is written only after a download. A failed submit ends the run with the submit's own exception, mapped by the catch clauses. |
| GenerateWorker.PollExceptionIsCaught | Frontend/app/src/main/java/com/example/lockloop/workers/GenerateVideoWorker.kt:83-97 | A status request that throws before any terminal status ends the run with that exception. The run then has k+1 requests, no download and no file written. |
| GenerateWorker.DownloadExceptionIsCaught | Frontend/app/src/main/java/com/example/lockloop/workers/GenerateVideoWorker.kt:102-119 | After "ready", the job's URL is downloaded. A failed request ends the run with its own exception. A video response without a body fails with IllegalStateException. A body broken off ends the run with its exception, the prefix in the staging file and no lock file. |
| GenerateWorker.TimeoutsRetry | Frontend/app/src/main/java/com/example/lockloop/workers/GenerateVideoWorker.kt:133-135 | A SocketTimeoutException makes the run retry. This holds whether it comes from the submit, from a status request before any terminal status, or from the download after "ready". |
| GenerateWorker.ResultMapsCaughtException | Frontend/app/src/main/java/com/example/lockloop/workers/GenerateVideoWorker.kt:132-139 | Success exactly when nothing was thrown. Retry exactly when a SocketTimeoutException was thrown. Failure for every other exception. |
| GenerateWorker.LatestWrittenOnlyOnSuccess | Frontend/app/src/main/java/com/example/lockloop/workers/GenerateVideoWorker.kt:115-132 | The latest path is written exactly on success, once, with the `lock/lockscreen.mp4` path, after both files hold the downloaded body. |
| GenerateWorker.RunBounds | Frontend/app/src/main/java/com/example/lockloop/workers/GenerateVideoWorker.kt:38-73 | A run makes at most 301 status requests and at most one download. It submits the cast, background, aspect and duration read at its start. |
| GenerateWorker.ReadyLeadsToDownload | Frontend/app/src/main/java/com/example/lockloop/workers/GenerateVideoWorker.kt:88-104 | A "ready" in any letter case, first among terminal replies, makes k+1 status requests and then downloads the job's URL. |
| GenerateWorker.ErrorStatusFails | Frontend/app/src/main/java/com/example/lockloop/workers/GenerateVideoWorker.kt:92-93 | An "error" in any letter case, first among terminal replies, fails the run with no download and no writes. |
| GenerateWorker.NoTerminalStatusRetries | Frontend/app/src/main/java/com/example/lockloop/workers/GenerateVideoWorker.kt:98-99 | With no terminal reply in 301 polls, the run retries with no download and no writes. |
| GenerateWorker.HttpErrorFails | Frontend/app/src/main/java/com/example/lockloop/workers/GenerateVideoWorker.kt:105-106 | A non-2xx download response fails the run, and neither file nor preference is written. |
| GenerateWorker.VideoDownloadSucceeds | Frontend/app/src/main/java/com/example/lockloop/workers/GenerateVideoWorker.kt:102-132 | After a first terminal "ready" status, a 2xx `video/` response with a completely read body makes the run succeed. Only the job's URL is downloaded, both files hold the body, and the lock-screen path is saved as the latest video. |
| GenerateWorker.NonVideoFails | Frontend/app/src/main/java/com/example/lockloop/workers/GenerateVideoWorker.kt:108-113 | A missing Content-Type, or one not starting with `video/`, writes nothing and never succeeds. After a download it fails, unless reading the error body throws a SocketTimeoutException. |
| GenerateWorker.ExampleReadyOnThirdPoll | Frontend/app/src/main/java/com/example/lockloop/workers/GenerateVideoWorker.kt:83-132 | Statuses pending, PENDING, Ready and a `video/mp4` body: success after three polls and one download, with the body in the lock file. |
| GenerateWorker.FileStore.Write | Frontend/app/src/main/java/com/example/lockloop/workers/GenerateVideoWorker.kt:116-118 | Writing a file replaces its contents and leaves every other file alone. |
| GenerateWorker.FileStore.CopyTo | Frontend/app/src/main/java/com/example/lockloop/workers/GenerateVideoWorker.kt:125 | The target gets the source's contents (overwriting). Every other file is left alone. |
| GenerateWorker.DoWork | Frontend/app/src/main/java/com/example/lockloop/workers/GenerateVideoWorker.kt:34-140 | The result and trace are those of `RunOf` for the settings read at the start. The preference store changes only by `setLatestVideo` of the recorded path. The files change only by the staging and lock-screen writes in the trace. |
| Weather.DetectTransition | Backend/weather.py:21-32 | The smallest i with probs[i] ≥ 50 and probs[i+1] ≤ 20 gives RAIN→CLEAR. Only without one, the smallest cloud drop (≥ 70 then ≤ 30) gives CLOUDY→SUNNY. Otherwise SUNNY→SUNNY at 0. A RAIN→CLEAR or CLOUDY→SUNNY index i has i+1 within its list. |
| Weather.DurationHours | Backend/weather.py:78 | An episode's duration is between 1 and 24 hours. |
| Weather.DurationFromSeconds | Backend/weather.py:78 | `int((end - start).seconds / 3600) + 1` equals the span in hours modulo 24, plus one. |
| Weather.DurationWithinADay | Backend/weather.py:78 | For a span under 24 hours the duration is end - start + 1. |
| Weather.DryHourFlanked | Backend/weather.py:63-74 | The single dry hour an episode may absorb lies strictly inside it, between two rainy hours. |
| Weather.ScanRun | Backend/weather.py:58-74 | From a rainy hour after a dry one, extending the run and merging across one dry hour ends one past a run shaped as an episode: rainy at both ends, flanked by dry hours or the edge, with at most one dry hour, and absorbing a following gap unless it already holds one. |
| Weather.BuildEpisodes | Backend/weather.py:52-91 | Episodes are increasing and do not touch. Each starts and ends rainy, with dry hours or the data's edge on both sides. Each absorbs at most one dry hour, and absorbs a following gap whenever it has not already. Every rainy hour is covered. Duration and kind are computed as written. |
| Weather.CoveredOnce | Backend/weather.py:52-91 | Every rainy hour lies in exactly one episode. |
| Weather.EpisodeStart | Backend/weather.py:54-91 | Each episode starts at the first rainy hour after the previous episode's end. |
| Weather.LastEpisodeEndsTheRain | Backend/weather.py:52-91 | No rainy hour comes after the last episode. |
| Weather.RunEndUnique | Backend/weather.py:58-74 | Where an episode starts decides where it ends. |
| Weather.EpisodesUnique | Backend/weather.py:52-91 | Any two episode lists satisfying the characterisation are equal. So what `BuildEpisodes` returns is fully determined by the hours. |
| Weather.RainRule | Backend/weather.py:46-49 | A probability of 50 or more makes an hour rainy whatever its code. Below 50, the hour is rainy exactly when its code is a rain code. Every thunderstorm code is a rain code. Heavy snow (75) is not one. |
| Weather.EpisodeDuration | Backend/weather.py:77-78 | Over at most 24 hours of data, an episode lasts end - start + 1 ≥ 1 hours. |
| Weather.TotalRainHours | Backend/weather.py:93 | With all durations ≥ 1, the total is at least the number of episodes and at least each duration. |
| Weather.LastRainEnd | Backend/weather.py:105 | The maximum end over the episodes: no end exceeds it and some episode ends there. |
| Weather.StoryTypeOf | Backend/weather.py:95-110 | Six or more rain hours always make "Prolonged rain". "Prolonged rain" comes exactly when the day is not dry and either some episode lasts four hours or more or the total is at least six. "Intermittent showers" needs at least two episodes and 2..4 rain hours. "Passing shower then clearing" needs exactly one episode, shorter than two hours, with some later hour whose cloud cover is below 40. |
| Weather.ShowersOtherwise | Backend/weather.py:95-110 | "Showers" comes exactly when no earlier rule applies. The day has 1..5 rain hours and no episode of four hours. It is not two or more episodes within four hours. It is not one episode under two hours followed by clearing. |
| Weather.TwoShortEpisodesAreIntermittent | Backend/weather.py:101-102 | At least two episodes totalling 2..4 rain hours always make "Intermittent showers". |
| Weather.DryDayIffNoRainHours | Backend/weather.py:96-98 | The story type is "Dry day" exactly when the total rain is below one hour. |
| Weather.DryDayIffNoRain | Backend/weather.py:96-98 | The story type is "Dry day" exactly when no hour is rainy. |
| Weather.LongEpisodeMeansProlonged | Backend/weather.py:99-100 | An episode of four hours or more makes the day "Prolonged rain". |
| Weather.SingleShortShowerClears | Backend/weather.py:104-108 | A single one-hour episode followed by some hour with cloud below 40 gives "Passing shower then clearing". |
| Weather.BlockIndices | Backend/weather.py:114 | The block's indices are exactly those whose hour of day lies in the block, in increasing order. |
| Weather.RainHours | Backend/weather.py:116 | The rainy-hour count of a block is between 0 and the block's size. |
| Weather.Dominant | Backend/weather.py:113-124 | The block's scene is "—" exactly when no hour of the data falls in the block. |
| Weather.DominantMatchesAverage | Backend/weather.py:113-124 | The integer cross-multiplied scene equals the one from the real-valued rain share and average cloud. These are "—" for an empty block, Rain at share ≥ 0.5, then Overcast / Cloudy / Clear at average ≥ 70 / ≥ 40 / below. |
| Weather.FullDayHasEveryBlock | Backend/weather.py:114-130 | With at least 24 consecutive hours, no block of the day is empty. |
| Weather.AnyStormCode | Backend/weather.py:133 | Stormy exactly when some weather code is 95, 96 or 99. |
| Weather.BuildStoryboard | Backend/weather.py:38-140 | The storyboard holds the characterised episodes, their story type ("Dry day" exactly when no hour is rainy), the three scenes, and the storm flag. |
| Prompts.WeatherAction | Backend/prompts.py:8-27 | The action opens with the subject. A known story type's action is exactly "{subject} standing {place}, " followed by that type's scene: it opens with that lead, closes with ", " and the scene, and is as long as the two together. |
| Prompts.BuildPrompt | Backend/prompts.py:4-32 | A missing "story_type" raises KeyError. Otherwise the prompt is the weather action, one blank, and the style line. |
| Prompts.PromptEndsWithSafeZone | Backend/prompts.py:29-32 | Every prompt ends with the safe-zone note and a full stop. |
| Prompts.KnownTypeStandsAtPlace | Backend/prompts.py:8-26 | The four known story types give a prompt that begins "{subject} standing {place}, ". |
| Prompts.OtherTypesTakeDefault | Backend/prompts.py:27 | Any other story type gives a prompt that begins "{subject} in {place}, calm ambient loop. ". |
| Prompts.KnownTypes | Backend/prompts.py:8-27 | Exactly the four story types "Prolonged rain", "Intermittent showers", "Passing shower then clearing" and "Showers" have their own template. |
| Prompts.DryDayPrompt | Backend/prompts.py:27 | The storyboard of a dry day gets the calm default prompt. |

## Left out

- I/O and platform plumbing are not modelled:
  - the DataStore file and its coroutine `Flow`;
  - the Compose UI and `messageState` rendering (the message is returned as a value);
  - `lifecycleScope.launch`;
  - logging;
  - OkHttp/Retrofit/Moshi construction and timeouts.
- The clock is a parameter. `LocalDateTime.now()` is the `now` argument.
- The year range of `LocalDateTime` is not bounded.
- WorkManager is reduced to a map from unique names to periodic work: cancel removes, enqueue replaces. Its scheduling, constraints and retries are not modelled.
- `runGenerateOnce`, the observer of work state, and the other workers are not part of this model.
- `TimeText.ParseLocalTime` does not accept the fractional seconds of the ISO format (`HH:mm:ss.nnn`). The form's regex never lets such a text reach it.
- TimeText.FormatHourMinute and TimeText.Pad2 write ASCII digits. Kotlin's `String.format` uses the default locale. In a locale with other digits (Persian, or Arabic as used in Egypt) it writes those digits, and the later `LocalTime.parse` of the saved time would fail. The model assumes a locale with ASCII digits.
- `TimeText.ToIntOrNull` does not accept non-ASCII decimal digits, which Kotlin's `Char.digitToIntOrNull` would.
- Case-insensitive status comparison (`equals(ignoreCase = true)`) folds ASCII letters only.
- GenerateWorker.DoWork:
  - Byte streaming is reduced to its outcome: a complete body, or a prefix followed by an exception.
  - Failures of `mkdirs`, of the copy, and of the preference write itself are not modelled.
  - `delay(2000)` is not modelled; only the request count is.
  - Coroutine cancellation is not modelled.
- The worker's status replies are a sequence of at least 301 entries. Entries past the first terminal one are never read.
- A concurrent manual run and daily run racing on the latest path is not modelled; this is concurrency, and the code has no lock.
- `fetch_hourly` (HTTP), `veo_client.py`, `postprocess.py`, `app.py` and the Kotlin post-processor are not part of this model.
- The `rainmm` intensity branch (`weather.py:80-85`) and `max_intensity` are not modelled. `fetch_hourly` never requests `rain`, so only the weather-code branch runs.
- The hourly timestamps are consecutive whole hours, so the one-hour-gap checks at `weather.py:64,66` always hold and are left implicit.
- `build_storyboard` falls back to lists of zeros when a key is missing (`weather.py:41-43`). The model takes the three lists as given and requires equal lengths. In the source, a shorter `wcode` or `cloud` list raises IndexError. A longer one is read differently: the extra codes still count for `stormy` (`weather.py:133`), and extra cloud values are ignored. The model excludes both cases.
- Weather.BuildEpisodes: the merge `while` at `weather.py:64-74` breaks on every path, so it runs at most once. It is written as an `if`.
- Prompts.BuildPrompt: the storyboard is given as its string-valued entries. The other entries (episodes, scenes, stormy) are not read by the prompt builder.
