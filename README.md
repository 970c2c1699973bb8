# Learner-progress tracker, modelled in Dafny

This project models the learner-progress core of an ML-curriculum platform: the
`ProgressTracker` class of `utils/progress_tracker.py`. A tracker owns four things:

- a progress document, holding user info, modules, capstone projects, skills and daily activity;
- an append-only session log;
- an achievements document;
- an open-session slot.

Its operations do the following:

- open and close study sessions;
- keep a consecutive-day study streak;
- record lessons and exercises once each;
- derive percentages, completion, levels and skill levels;
- clamp confidence ratings;
- unlock achievements monotonically;
- compute the figures of the statistics snapshot and of the learning report.

The model is laid out like this:

- `Tracker.ProgressTracker` is a class with one field per part of the state. Every operation is a method that changes only its named fields.
- Each method is proved to leave its fields equal to a pure step function of the old fields, which lives in `Steps`. The properties the source promises are proved about those functions as lemmas: what each step preserves, what it leaves alone, and what it adds.
- The invariant `Valid()` combines the consistency conditions of `State`:
  - lessons are duplicate-free, and a module's percentage and completion are derived from them;
  - there is at most one record per exercise;
  - the level is derived from the XP, and a skill's level from its counter;
  - the streak never exceeds the longest streak;
  - achievement flags and dates are set together;
  - the log's session ids are numbered and its sessions closed;
  - the open-session slot is consistent.
- `Valid()` holds of the default documents and is kept by every operation.
- `Stats` and `Reports` are read-only functions over the state.
- `SessionIds` defines the `session_NNNN` identifiers and proves them injective.
- `Scenarios` states what short sequences of operations do on any valid tracker.

Conventions:

- **Clock.** The clock is an explicit `now` parameter, in whole minutes. A date is the day number `now / 1440`.
- **Percentages, scores and grades** are exact `real`s.
- **Unknown ids.** Where the source raises for an unknown id, the model returns an error value: `Failure(NoActiveSession)`, or `Fail(UnknownModule(id))`. Where the source silently ignores an unknown id, the model leaves the state unchanged.

Where the code and the documented intent disagree, the model follows the code:

- Starting a session while one is open does not fail. The open session is overwritten without being logged (`utils/progress_tracker.py:137-146`).
- Ending a session never changes the streak (see Findings).
- A report keeps every session that started on or after the first day of the window. There is no upper date bound (`utils/progress_tracker.py:428-431`).

## Model

| member | source | states |
|---|---|---|
| Records.DayOf | utils/progress_tracker.py:176 | the date of a clock reading is the day whose 1440 minutes contain it |
| Catalog.LessonCount | utils/progress_tracker.py:274-283 | the lesson table gives 3 to 5 lessons for a known module and 0 for any other id |
| Catalog.LessonCountKnown | utils/progress_tracker.py:276-283 | a module has a positive lesson count exactly when it is one of the five catalogued modules |
| Catalog.KeysMatchIds | utils/progress_tracker.py:53-108 | the key sets of the default documents, built from the id lists, hold exactly the listed module, capstone, skill and achievement ids |
| Catalog.CatalogsHaveNoDuplicates | utils/progress_tracker.py:53-108 | no id is listed twice in any default document |
| Rules.Level | utils/progress_tracker.py:285-290 | the level lies in the thousand-XP band of the total: (level-1)·1000 ≤ xp < level·1000, i.e. 1 + floor(xp/1000) |
| Rules.SkillLevel | utils/progress_tracker.py:324-325 | one level per ten exercises, capped at 10: level 10 iff 100 or more, otherwise level·10 ≤ count < level·10+10 |
| Rules.ClampConfidence | utils/progress_tracker.py:338 | a stored confidence lies in 1..5, equals the input when it is already in range, and is 1 or 5 below or above it |
| Rules.Pct | utils/progress_tracker.py:259-261 | the percentage is non-negative, reaches 100 exactly when the completed lessons reach the lesson count, and is 100 exactly when they are equal |
| Rules.NextStreak | utils/progress_tracker.py:213-227 | with no recorded date the streak becomes 1; a study on the recorded date keeps it; on the day after the recorded date it grows by one; on any other date it restarts at 1; and it grows past 1 only on the day after the recorded date |
| Rules.Unlocked | utils/progress_tracker.py:379-381 | unlocking keeps the key set, leaves a known id unlocked, and leaves the map unchanged (date included) for an unknown or already unlocked id |
| Rules.UnlockedChangesOnlyId | utils/progress_tracker.py:379-381 | unlocking loses no unlocked entry, sets only the named entry's flag and date (keeping its description) and leaves every other entry as it was |
| Rules.Visit | utils/progress_tracker.py:190-194 | a day's entry gains the minutes and exactly one session, lists the module, and stays duplicate-free |
| Rules.VisitKeepsOrder | utils/progress_tracker.py:193-194 | the visited list gains at most the visited module, at its end, and keeps the earlier modules in order |
| Rules.AllModulesCompleted | utils/progress_tracker.py:363-365 | defines the module half of the `master` condition; `Stats.AllModulesCompletedIffCount` ties it to the completed-module count |
| Rules.AllCapstonesCompleted | utils/progress_tracker.py:360-362 | defines the capstone half of the `master` condition; `Stats.AllCapstonesCompletedIffCount` ties it to the completed-capstone count |
| Rules.HasExercise | utils/progress_tracker.py:315-316 | defines "the exercise is already recorded"; `Rules.UniqueIdsAtMostOne` ties it to the number of records with the id |
| Rules.UniqueIdsAtMostOne | utils/progress_tracker.py:314-317 | with unique exercise ids a module holds at most one record per exercise, and exactly one iff the exercise was recorded |
| SessionIds.DecimalShape | utils/progress_tracker.py:139 | a numeral is a non-empty digit string with one, two, three or four digits exactly below 10, 100, 1000, 10000, and starts with '0' only for 0 |
| SessionIds.ZeroPad | utils/progress_tracker.py:139 | padding reaches the width (or keeps a longer string) and adds only '0' characters in front |
| SessionIds.ZeroPadEndsWith | utils/progress_tracker.py:139 | the padded string ends with the unpadded numeral |
| SessionIds.SessionId | utils/progress_tracker.py:139 | defines the id of the n-th session; its shape, length, read-back and injectivity are stated by the lemmas below |
| SessionIds.SessionIdLength | utils/progress_tracker.py:139 | a session id has at least four digits after `session_`, and exactly four for sessions below 10000 |
| SessionIds.SessionIdShape | utils/progress_tracker.py:139 | a session id is `session_` followed by digits only |
| SessionIds.DecimalRoundTrip | utils/progress_tracker.py:139 | reading back the numeral of n gives n |
| SessionIds.LeadingZeros | utils/progress_tracker.py:139 | leading zeros do not change the number a numeral denotes |
| SessionIds.ZerosValue | utils/progress_tracker.py:139 | a string of zeros denotes 0 |
| SessionIds.SessionNumberRoundTrip | utils/progress_tracker.py:139 | the digits of the n-th session id read back as n, however they are padded |
| SessionIds.SessionIdInjective | utils/progress_tracker.py:139 | distinct session numbers give distinct session ids |
| State.LoggedAt | utils/progress_tracker.py:171 | in a consistent log the i-th session is session number i+1 and is closed with end = start + duration |
| State.LogIdsDistinct | utils/progress_tracker.py:139 | no two sessions in a consistent log share an id |
| State.DefaultUser | utils/progress_tracker.py:54-62 | defines the initial user record: level 1, no XP, time or streak, no study date; `State.DefaultsValid` states that its level matches its XP and 0 ≤ streak ≤ longest streak |
| State.DefaultModules | utils/progress_tracker.py:63-69 | defines the initial modules; `State.DefaultModulesValid` states what they hold |
| State.DefaultCapstones | utils/progress_tracker.py:70-74 | defines the initial capstones; `State.DefaultCapstonesValid` states what they hold |
| State.DefaultSkills | utils/progress_tracker.py:75-81 | defines the initial skills; `State.DefaultSkillsValid` states what they hold |
| State.DefaultAchievements | utils/progress_tracker.py:98-108 | defines the initial achievements; `State.DefaultAchievementsValid` states what they hold |
| State.DefaultModulesValid | utils/progress_tracker.py:63-69 | the default modules are exactly the five catalogued ones, each consistent, and not all completed |
| State.DefaultCapstonesValid | utils/progress_tracker.py:70-74 | the default capstones are exactly the three catalogued ones, each graded iff completed, and not all completed |
| State.DefaultSkillsValid | utils/progress_tracker.py:75-81 | the default skills are exactly the five catalogued ones, each with its level derived from its counter and its confidence in 0..5 |
| State.DefaultAchievementsValid | utils/progress_tracker.py:98-108 | the default achievements are exactly the nine catalogued ones, all locked and undated |
| State.DefaultsValid | utils/progress_tracker.py:53-108 | the default user record, modules, capstones, skills and achievements each meet their consistency condition, and the achievements hold the ids the streak and capstone rules unlock |
| Steps.Closed | utils/progress_tracker.py:163-168 | a closed session keeps its id and start, ends at `now`, carries the completed flag, and its duration is end minus start |
| Steps.LogGrows | utils/progress_tracker.py:171 | appending the closed open session keeps the log numbered and closed |
| Steps.Streaked | utils/progress_tracker.py:209-234 | the streak step moves the streak by the consecutive-day rule and raises the longest streak to it when exceeded |
| Steps.StreakedKeepsValid | utils/progress_tracker.py:229-234 | after the streak step 0 ≤ streak ≤ longest still holds, and no other user field changes |
| Steps.StreakedSameDay | utils/progress_tracker.py:216-218 | a study on the recorded date changes nothing |
| Steps.StudiedAsWritten | utils/progress_tracker.py:175-179 | as written, a study records the date and adds the minutes before the streak step |
| Steps.StudiedIntended | utils/progress_tracker.py:209-224 | as intended, the streak moves by the rule against the date recorded before the study, and then the date and minutes are recorded |
| Steps.StudiedAsWrittenKeepsStreak | utils/progress_tracker.py:176-179 | as written, a study never moves the streak or the longest streak, whatever the recorded date |
| Steps.StudiedIntendedKeepsValid | utils/progress_tracker.py:229-234 | the intended study keeps 0 ≤ streak ≤ longest and never lowers the longest streak |
| Steps.RunAsWrittenKeepsStreak | utils/progress_tracker.py:175-179 | as written, any run of consecutive study days leaves both streak fields where they were |
| Steps.RunIntendedCounts | utils/progress_tracker.py:211-227 | as intended, n consecutive study days after a gap make a streak of exactly n, with longest ≥ n |
| Steps.Recorded | utils/progress_tracker.py:182-194 | today's activity entry exists afterwards (created if absent) with one more session, the added minutes, and the module listed |
| Steps.RecordedKeepsOtherDays | utils/progress_tracker.py:182-194 | recording a session leaves every other day's entry unchanged |
| Steps.RecordedKeepsValid | utils/progress_tracker.py:183-194 | every day's entry keeps at least one session and a duplicate-free module list |
| Steps.WithTime | utils/progress_tracker.py:197-199 | a known session module gains the minutes; an id that is not a module changes nothing |
| Steps.WithTimeChangesOnlyTime | utils/progress_tracker.py:197-199 | only that module's time changes |
| Steps.WithTimeKeepsValid | utils/progress_tracker.py:197-199 | adding time keeps every module consistent |
| Steps.WithLesson | utils/progress_tracker.py:252-266 | a new lesson is appended; a repeated lesson leaves the module unchanged; exercises and time are untouched |
| Steps.WithLessonKeepsValid | utils/progress_tracker.py:254-265 | lessons stay duplicate-free, the percentage stays 100·lessons/count, and the module is completed iff lessons ≥ count |
| Steps.LessonRecorded | utils/progress_tracker.py:249-266 | the modules keep their keys, the named one is updated by the lesson rule, and a repeated lesson changes nothing |
| Steps.LessonRecordedKeepsOthers | utils/progress_tracker.py:252-255 | recording a lesson touches no other module |
| Steps.LessonRecordedKeepsValid | utils/progress_tracker.py:249-266 | recording a lesson keeps every module consistent |
| Steps.AppendKeepsIdsUnique | utils/progress_tracker.py:315-317 | appending a record with a new id keeps the ids unique |
| Steps.ExerciseRecorded | utils/progress_tracker.py:305-317 | afterwards the exercise is recorded; a resubmission changes nothing; a first submission appends exactly its record |
| Steps.ExerciseRecordedKeepsOthers | utils/progress_tracker.py:312-317 | only the submitted module's exercise list changes |
| Steps.ExerciseRecordedKeepsValid | utils/progress_tracker.py:305-317 | recording an exercise keeps every module consistent, with at most one record per id |
| Steps.SkillCredited | utils/progress_tracker.py:320-325 | the skill's counter grows by exactly one, its level follows the counter and its confidence is kept |
| Steps.SkillCreditedKeepsValid | utils/progress_tracker.py:320-325 | crediting keeps every skill consistent and touches no other skill |
| Steps.Rated | utils/progress_tracker.py:337-338 | the rated skill's confidence lies in 1..5 (the input when in range); its counter and level are kept |
| Steps.RatedKeepsValid | utils/progress_tracker.py:337-338 | rating keeps every skill consistent and touches no other skill |
| Steps.Graded | utils/progress_tracker.py:350-353 | the project is completed with this grade and time, replacing earlier ones |
| Steps.GradedKeepsValid | utils/progress_tracker.py:350-353 | grading keeps completion and grade in step and touches no other project |
| Steps.UnlockedKeepsValid | utils/progress_tracker.py:379-381 | unlocking keeps every achievement's flag and date in step |
| Stats.SumOverAgree | utils/progress_tracker.py:387-397 | sums over a list agree when their summands agree on the list |
| Stats.SumOverUpdate | utils/progress_tracker.py:387-397 | changing the summand at one id, listed once, changes the sum by exactly the change at that id |
| Stats.SumOverFlags | utils/progress_tracker.py:393-397 | a sum of 0/1 flags is at most the list length, and equals it exactly when every flag is set |
| Stats.TotalLessons | utils/progress_tracker.py:387 | defines the lesson total as the sum of each module's lesson count; `Stats.TotalLessonsAfterLesson` states how it moves |
| Stats.TotalExercises | utils/progress_tracker.py:388 | defines the exercise total as the sum of each module's record count; `Stats.TotalExercisesAfterSubmission` states how it moves |
| Stats.CompletedModules | utils/progress_tracker.py:393 | the completed-module count never exceeds the number of modules counted |
| Stats.CompletedCapstones | utils/progress_tracker.py:397 | the completed-capstone count never exceeds the number of capstones counted |
| Stats.RecentSessions | utils/progress_tracker.py:401 | the recent sessions are the last min(5, log length) log entries, in log order |
| Stats.Snapshot | utils/progress_tracker.py:385-402 | modules_completed, capstones_completed, lessons_completed and exercises_completed equal the completed-module count, completed-capstone count, lesson total and exercise total over the catalog; total_modules is the number of modules; recent sessions are the last at most 5 log entries; user, skills and achievements are passed through |
| Stats.TotalLessonsAfterLesson | utils/progress_tracker.py:252-255 | recording a lesson raises the lesson total by one when the lesson is new and leaves it unchanged when it is repeated |
| Stats.TotalExercisesAfterSubmission | utils/progress_tracker.py:312-317 | a first submission raises the exercise total by one and a resubmission leaves it unchanged |
| Stats.AllModulesCompletedIffCount | utils/progress_tracker.py:363-365 | the condition for `master` (every module completed) holds exactly when the snapshot's completed count equals the number of modules |
| Stats.AllCapstonesCompletedIffCount | utils/progress_tracker.py:360-362 | every capstone is completed exactly when the snapshot's completed-capstone count equals the number of capstones |
| Reports.WindowDays | utils/progress_tracker.py:414-422 | the window is 1 day iff "daily", 7 iff "weekly", and 30 for any other period |
| Reports.SessionsSince | utils/progress_tracker.py:428-431 | the kept sessions are exactly the logged ones started on or after the window's first day, never more than the log |
| Reports.SessionsSinceCounts | utils/progress_tracker.py:428-431 | each session in the window is kept as many times as it is logged, and every other session not at all |
| Reports.TotalMinutes | utils/progress_tracker.py:433 | defines the total time as the sum of the kept sessions' durations; `Reports.Report` states that the report's total is this sum |
| Reports.CompletedLessons | utils/progress_tracker.py:434-436 | defines the distinct (module, lesson) pairs of completed sessions; `Reports.CompletedLessonsBound` bounds them |
| Reports.CompletedLessonsBound | utils/progress_tracker.py:434-436 | the distinct (module, lesson) pairs of completed sessions never outnumber the sessions |
| Reports.Average | utils/progress_tracker.py:447 | the average is 0 with no session, otherwise average × count = total |
| Reports.LineOf | utils/progress_tracker.py:462-463 | defines a module's line: its id, completion, percentage and number of lessons |
| Reports.ModuleLines | utils/progress_tracker.py:461-463 | every line belongs to a catalogued module that the state holds, and carries that module's completion, percentage and lesson count; there are no more lines than catalogued modules |
| Reports.ModuleLinesCover | utils/progress_tracker.py:461-463 | every catalogued module the state holds gets its line |
| Reports.Report | utils/progress_tracker.py:404-463 | the window ends today and spans 1, 7 or 30 days; the session count, total time and lessons completed are the count, summed durations and distinct completed lessons of the sessions kept for the window; lessons ≤ sessions ≤ log; the average is 0 without sessions and total/count otherwise; the streaks, level, XP and study time are the user's; the module lines are those of the catalogued modules |
| Tracker.ProgressTracker.constructor | utils/progress_tracker.py:40-45 | a new tracker holds the default documents, an empty log and activity, no open session, and is consistent |
| Tracker.ProgressTracker.StartSession | utils/progress_tracker.py:125-148 | opening a session stores a fresh open session numbered after the logged ones, overwriting any open one, and keeps the tracker consistent |
| Tracker.ProgressTracker.EndSession | utils/progress_tracker.py:150-207 | with no open session it fails and changes nothing; otherwise it appends the closed session to the log and clears the slot, and applies the as-written user update and the activity and module-time steps |
| Tracker.ProgressTracker.EndSessionIntended | utils/progress_tracker.py:150-207 | the same closing, with the streak step reading the previously recorded date |
| Tracker.ProgressTracker.UpdateStreak | utils/progress_tracker.py:209-238 | applies the streak rule to the recorded date, and unlocks `consistent_learner` exactly when the streak reaches 30 |
| Tracker.ProgressTracker.MarkLessonComplete | utils/progress_tracker.py:240-272 | fails for an unknown module; otherwise applies the lesson rule, unlocks `scholar` only when a new lesson completes the module, and always adds the XP with the level recomputed |
| Tracker.ProgressTracker.UpdateLevel | utils/progress_tracker.py:285-290 | the level becomes the one the total XP earns, and nothing else changes |
| Tracker.ProgressTracker.MarkExerciseComplete | utils/progress_tracker.py:292-327 | fails for an unknown module; otherwise records the exercise once, credits a known skill only on first completion, and leaves exactly one record for the id |
| Tracker.ProgressTracker.UpdateSkillConfidence | utils/progress_tracker.py:329-339 | a known skill gets the clamped rating; an unknown skill changes nothing |
| Tracker.ProgressTracker.MarkCapstoneComplete | utils/progress_tracker.py:341-370 | an unknown project changes nothing; a known one is graded, `deep_learning_expert` is unlocked for a grade ≥ 95, and `master` once every capstone and module is completed |
| Tracker.ProgressTracker.GetStats | utils/progress_tracker.py:385-402 | the tracker's statistics carry the completed-module, completed-capstone, lesson and exercise counts of its modules and capstones, the number of modules, the last five sessions of its log and its user, skills and achievements |
| Tracker.ProgressTracker.GenerateReport | utils/progress_tracker.py:404-463 | the tracker's report for a period covers the window ending on the current day, with the count, total time, average and distinct completed lessons of the logged sessions in it, the user's overall figures and the module lines |
| Tracker.ProgressTracker.UnlockAchievement | utils/progress_tracker.py:372-383 | the achievements become the monotonic, idempotent unlock of the id, and stay consistent |
| Scenarios.EndTwice | utils/progress_tracker.py:160-207 | ending the open session logs it as the last entry with its end time and flag, and a second end fails |
| Scenarios.Restart | utils/progress_tracker.py:137-146 | a second start discards the open session unlogged, and the new one takes the same id |
| Scenarios.NextDayAsWritten | utils/progress_tracker.py:176-179 | as written, a session on the day after the recorded study date leaves the streak unchanged |
| Scenarios.NextDayIntended | utils/progress_tracker.py:219-221 | as intended, the same session extends the streak by one |
| Scenarios.LessonTwice | utils/progress_tracker.py:254-270 | a lesson completed twice is recorded once, but its XP is added twice |
| Scenarios.Resubmit | utils/progress_tracker.py:314-325 | a resubmitted exercise keeps its first record and score, and credits its skill once |
| Scenarios.Grade | utils/progress_tracker.py:356-357 | after grading, `deep_learning_expert` is unlocked iff the grade is ≥ 95 or it was already unlocked |
| Scenarios.ThirtyDays | utils/progress_tracker.py:236-238 | after thirty consecutive study days a new learner's streak is 0 as written and 30 as intended |

## Left out

- Persistence is not modelled. The JSON documents are never loaded or saved (`utils/progress_tracker.py:33-42, 47-51, 85-96, 110-123`); saves are no-ops. A tracker starts from the default documents, so a hand-edited or foreign saved document is not modelled.
- `datetime.now()` is replaced by a `now` parameter in minutes.
  - A date is `now / 1440`, with no time zones.
  - ISO date strings and their parsing are not modelled.
- Floating point is not modelled:
  - a duration is the whole number of minutes between start and end;
  - the seconds-to-minutes division and the rounding to two decimals are left out;
  - percentages, scores and grades are exact reals.
- The achievement announcement (`print`, `utils/progress_tracker.py:383`) and the text layout and title of the report are not modelled. Only the report's figures are.
- `MarkLessonComplete` and `MarkCapstoneComplete` assign `Rules.Unlocked` directly instead of calling `UnlockAchievement`. The result is the same, because `UnlockAchievement` is proved to produce exactly `Rules.Unlocked`. `UpdateStreak` and `MarkLessonComplete` do call `UnlockAchievement` and `UpdateLevel`, as the source does.
- The statistics totals sum over the catalogued module and capstone ids, not over the dictionary values. These are the same sets, since no operation adds or removes a key.
- `Tracker.ProgressTracker.GetStats` returns values. Python returns the live dictionaries, so a caller that mutates them mutates the tracker; that aliasing is not modelled.
- `Tracker.ProgressTracker.StartSession` returns the open session as a value. Python returns the live `current_session` dictionary (`utils/progress_tracker.py:148`), which `end_session` later fills in (`:166-168`) and appends to the log (`:171`). The caller's copy therefore aliases the logged record; that aliasing is not modelled.
- The tracker invariant assumes what the default documents guarantee:
  - `consistent_learner` and `deep_learning_expert` are present, so the dictionary lookups at `utils/progress_tracker.py:237, 356` cannot raise `KeyError`;
  - every module has a lesson count.
- An open session carries no `completed` key in the source. The model gives it `completed = false`, which is how the report's `.get("completed")` reads it.
- `utils/visualizations.py`, `utils/dataset_loader.py` and `utils/notebook_converter.py` are not part of this model. They are plotting, dataset fetching and notebook conversion over foreign libraries. `utils/__init__.py` only re-exports.

## Findings

| source | as written | input that shows it | evidently intended | confidence | as-written member | corrected member |
|---|---|---|---|---|---|---|
| utils/progress_tracker.py:176-179 | `end_session` stores today as `last_study_date`, then calls `_update_streak`, which compares today with that same date and always takes the same-day branch | a new learner ending one session on each of 30 consecutive days keeps `current_streak_days` = 0, so `consistent_learner` is never unlocked (`Scenarios.ThirtyDays`, `Scenarios.NextDayAsWritten`) | the streak step compares today with the date recorded before this session, so the streak reaches 30 on the 30th day and unlocks `consistent_learner` (`Steps.RunIntendedCounts`, `Scenarios.NextDayIntended`) | high; not executed | Tracker.ProgressTracker.EndSession | Tracker.ProgressTracker.EndSessionIntended |

`EndSession` keeps the order the source uses, so the rest of the model shows the behaviour as written. `EndSessionIntended` runs the streak step first. The two differ only in the user record and in when `consistent_learner` is unlocked.
