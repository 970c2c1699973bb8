/** The state changes the tracker's operations make, each written as a
    function from the old part of the state to the new one, together with
    what each change preserves. The tracker's methods are proved to leave
    their fields equal to these functions of the old fields. */
module Steps {
  import opened Wrappers
  import opened Records
  import opened Catalog
  import opened Rules
  import opened SessionIds
  import opened State

  /** The open session as it is logged when it ends at `now`: its duration
      is the time from its start to `now`. */
  function Closed(open: Session, completed: bool, now: Timestamp): (closed: Session)
    ensures closed.id == open.id && closed.startTime == open.startTime
    ensures closed.endTime == Some(now) && closed.completed == completed
    ensures closed.endTime == Some(closed.startTime + closed.durationMinutes)
  {
    open.(endTime := Some(now), durationMinutes := now - open.startTime, completed := completed)
  }

  /** Logging the open session, which carries the next session number,
      keeps the log numbered and every logged session closed. */
  lemma LogGrows(log: seq<Session>, open: Session, completed: bool, now: Timestamp)
    requires LogValid(log)
    requires open.id == SessionId(|log| + 1)
    ensures LogValid(log + [Closed(open, completed, now)])
  {
    var log' := log + [Closed(open, completed, now)];
    assert log'[..|log'| - 1] == log;
  }

  /** The user record after the streak step for a study on `today`: the
      streak moves as NextStreak says and the longest streak keeps up with
      it; nothing else changes. */
  function Streaked(u: UserInfo, today: Day): (after: UserInfo)
    ensures after.currentStreakDays == NextStreak(u.lastStudyDate, today, u.currentStreakDays)
    ensures after.longestStreakDays == Max(u.longestStreakDays, after.currentStreakDays)
  {
    var streak := NextStreak(u.lastStudyDate, today, u.currentStreakDays);
    u.(currentStreakDays := streak, longestStreakDays := Max(u.longestStreakDays, streak))
  }

  /** The streak step keeps the streak positive-or-zero and within the
      longest streak, and touches no other part of the user record. */
  lemma StreakedKeepsValid(u: UserInfo, today: Day)
    requires UserValid(u)
    ensures UserValid(Streaked(u, today))
    ensures Streaked(u, today).(currentStreakDays := u.currentStreakDays,
                                longestStreakDays := u.longestStreakDays) == u
  {
  }

  /** When the recorded study date is already `today`, the streak step
      changes nothing at all. */
  lemma StreakedSameDay(u: UserInfo, today: Day)
    requires UserValid(u)
    requires u.lastStudyDate == Some(today)
    ensures Streaked(u, today) == u
  {
  }

  /** The user record after a study of `minutes` on `day`, in the order
      the original takes its steps: the study date is recorded first, so
      the streak step always sees a study on the same day. */
  function StudiedAsWritten(u: UserInfo, day: Day, minutes: int): (after: UserInfo)
    ensures after.lastStudyDate == Some(day)
    ensures after.totalStudyMinutes == u.totalStudyMinutes + minutes
  {
    Streaked(u.(totalStudyMinutes := u.totalStudyMinutes + minutes, lastStudyDate := Some(day)), day)
  }

  /** The user record after a study of `minutes` on `day`, with the streak
      step reading the study date recorded before this study. */
  function StudiedIntended(u: UserInfo, day: Day, minutes: int): (after: UserInfo)
    ensures after.lastStudyDate == Some(day)
    ensures after.totalStudyMinutes == u.totalStudyMinutes + minutes
    ensures after.currentStreakDays == NextStreak(u.lastStudyDate, day, u.currentStreakDays)
  {
    Streaked(u, day).(totalStudyMinutes := u.totalStudyMinutes + minutes, lastStudyDate := Some(day))
  }

  /** As written, a study never moves the streak or the longest streak,
      whatever date was recorded before. */
  lemma StudiedAsWrittenKeepsStreak(u: UserInfo, day: Day, minutes: int)
    requires UserValid(u)
    ensures UserValid(StudiedAsWritten(u, day, minutes))
    ensures StudiedAsWritten(u, day, minutes).currentStreakDays == u.currentStreakDays
    ensures StudiedAsWritten(u, day, minutes).longestStreakDays == u.longestStreakDays
  {
    StreakedSameDay(u.(totalStudyMinutes := u.totalStudyMinutes + minutes, lastStudyDate := Some(day)), day);
  }

  lemma StudiedIntendedKeepsValid(u: UserInfo, day: Day, minutes: int)
    requires UserValid(u)
    ensures UserValid(StudiedIntended(u, day, minutes))
    ensures StudiedIntended(u, day, minutes).longestStreakDays >= u.longestStreakDays
  {
    StreakedKeepsValid(u, day);
  }

  /** The user record after one session of `minutes` on each of the `n`
      days from `first` on, as written. */
  function RunAsWritten(u: UserInfo, first: Day, n: nat, minutes: int): UserInfo
    decreases n
  {
    if n == 0 then u else StudiedAsWritten(RunAsWritten(u, first, n - 1, minutes), first + n - 1, minutes)
  }

  /** The same run of days with the streak step as intended. */
  function RunIntended(u: UserInfo, first: Day, n: nat, minutes: int): UserInfo
    decreases n
  {
    if n == 0 then u else StudiedIntended(RunIntended(u, first, n - 1, minutes), first + n - 1, minutes)
  }

  /** As written, no run of consecutive study days moves the streak: a new
      learner's streak stays 0, so `consistent_learner` is never reached. */
  lemma {:induction false} RunAsWrittenKeepsStreak(u: UserInfo, first: Day, n: nat, minutes: int)
    requires UserValid(u)
    ensures UserValid(RunAsWritten(u, first, n, minutes))
    ensures RunAsWritten(u, first, n, minutes).currentStreakDays == u.currentStreakDays
    ensures RunAsWritten(u, first, n, minutes).longestStreakDays == u.longestStreakDays
    decreases n
  {
    if n > 0 {
      RunAsWrittenKeepsStreak(u, first, n - 1, minutes);
      StudiedAsWrittenKeepsStreak(RunAsWritten(u, first, n - 1, minutes), first + n - 1, minutes);
    }
  }

  /** As intended, `n` consecutive study days that do not continue the
      recorded date make a streak of exactly `n`, and the longest streak
      reaches at least `n`. */
  lemma {:induction false} RunIntendedCounts(u: UserInfo, first: Day, n: nat, minutes: int)
    requires UserValid(u)
    requires u.lastStudyDate != Some(first - 1) && u.lastStudyDate != Some(first)
    requires n >= 1
    ensures UserValid(RunIntended(u, first, n, minutes))
    ensures RunIntended(u, first, n, minutes).currentStreakDays == n
    ensures RunIntended(u, first, n, minutes).longestStreakDays >= n
    ensures RunIntended(u, first, n, minutes).lastStudyDate == Some(first + n - 1)
    decreases n
  {
    if n > 1 {
      RunIntendedCounts(u, first, n - 1, minutes);
      StudiedIntendedKeepsValid(RunIntended(u, first, n - 1, minutes), first + n - 1, minutes);
    } else {
      StudiedIntendedKeepsValid(u, first, minutes);
    }
  }

  /** The daily activity after a session of `minutes` in `moduleId` on `day`:
      that day's entry, created empty when missing, gains the session. */
  function Recorded(activity: map<Day, DailyActivity>, day: Day, moduleId: string, minutes: int)
    : (after: map<Day, DailyActivity>)
    ensures after.Keys == activity.Keys + {day}
    ensures after[day].sessions == EntryOn(activity, day).sessions + 1
    ensures after[day].totalTimeMinutes == EntryOn(activity, day).totalTimeMinutes + minutes
    ensures moduleId in after[day].modulesVisited
  {
    activity[day := Visit(EntryOn(activity, day), moduleId, minutes)]
  }

  /** Recording a session leaves every other day as it was. */
  lemma RecordedKeepsOtherDays(activity: map<Day, DailyActivity>, day: Day, moduleId: string, minutes: int)
    ensures forall d :: d in activity && d != day ==> Recorded(activity, day, moduleId, minutes)[d] == activity[d]
  {
  }

  lemma RecordedKeepsValid(activity: map<Day, DailyActivity>, day: Day, moduleId: string, minutes: int)
    requires ActivityValid(activity)
    ensures ActivityValid(Recorded(activity, day, moduleId, minutes))
  {
  }

  /** The modules after `minutes` more in `moduleId`; an id that is not a
      module changes nothing. */
  function WithTime(modules: map<string, ModuleProgress>, moduleId: string, minutes: int)
    : (after: map<string, ModuleProgress>)
    ensures after.Keys == modules.Keys
    ensures moduleId in modules ==>
              after[moduleId].timeSpentMinutes == modules[moduleId].timeSpentMinutes + minutes
    ensures moduleId !in modules ==> after == modules
  {
    if moduleId in modules
    then modules[moduleId := modules[moduleId].(timeSpentMinutes := modules[moduleId].timeSpentMinutes + minutes)]
    else modules
  }

  /** Only the time of the named module changes. */
  lemma WithTimeChangesOnlyTime(modules: map<string, ModuleProgress>, moduleId: string, minutes: int)
    ensures var after := WithTime(modules, moduleId, minutes);
      && (forall id :: id in modules && id != moduleId ==> after[id] == modules[id])
      && (moduleId in modules ==>
            after[moduleId].(timeSpentMinutes := modules[moduleId].timeSpentMinutes) == modules[moduleId])
  {
  }

  lemma WithTimeKeepsValid(modules: map<string, ModuleProgress>, moduleId: string, minutes: int)
    requires ModulesValid(modules)
    ensures ModulesValid(WithTime(modules, moduleId, minutes))
  {
  }

  /** A module after `lesson` is recorded in it: a new lesson is appended,
      the percentage is recomputed when the module has a lesson count, and
      the module is completed once the percentage reaches 100. A lesson
      already recorded changes nothing. */
  function WithLesson(m: ModuleProgress, moduleId: string, lesson: string): (after: ModuleProgress)
    ensures lesson in m.lessonsCompleted ==> after == m
    ensures lesson !in m.lessonsCompleted ==> after.lessonsCompleted == m.lessonsCompleted + [lesson]
    ensures after.exercisesCompleted == m.exercisesCompleted
    ensures after.timeSpentMinutes == m.timeSpentMinutes
  {
    if lesson in m.lessonsCompleted then m
    else
      var lessons := m.lessonsCompleted + [lesson];
      var total := LessonCount(moduleId);
      var pct := if total > 0 then Pct(|lessons|, total) else m.progressPct;
      m.(lessonsCompleted := lessons, progressPct := pct, completed := m.completed || pct >= 100.0)
  }

  /** In a consistent module, recording a lesson keeps the module
      consistent, so it is completed exactly when it holds as many distinct
      lessons as the module has. */
  lemma WithLessonKeepsValid(m: ModuleProgress, moduleId: string, lesson: string)
    requires ModuleValid(moduleId, m)
    ensures ModuleValid(moduleId, WithLesson(m, moduleId, lesson))
    ensures WithLesson(m, moduleId, lesson).completed <==>
              |WithLesson(m, moduleId, lesson).lessonsCompleted| >= LessonCount(moduleId)
  {
    if lesson !in m.lessonsCompleted {
      var lessons := m.lessonsCompleted + [lesson];
      forall i, j | 0 <= i < j < |lessons| ensures lessons[i] != lessons[j] {
        assert lessons[i] == m.lessonsCompleted[i];
        if j < |m.lessonsCompleted| {
          assert lessons[j] == m.lessonsCompleted[j];
        }
      }
    }
  }

  /** The modules after `lesson` is recorded in the known module `moduleId`. */
  function LessonRecorded(modules: map<string, ModuleProgress>, moduleId: string, lesson: string)
    : (after: map<string, ModuleProgress>)
    requires moduleId in modules
    ensures after.Keys == modules.Keys
    ensures after[moduleId] == WithLesson(modules[moduleId], moduleId, lesson)
    ensures lesson in modules[moduleId].lessonsCompleted ==> after == modules
  {
    if lesson in modules[moduleId].lessonsCompleted then modules
    else modules[moduleId := WithLesson(modules[moduleId], moduleId, lesson)]
  }

  /** Recording a lesson touches no other module. */
  lemma LessonRecordedKeepsOthers(modules: map<string, ModuleProgress>, moduleId: string, lesson: string)
    requires moduleId in modules
    ensures forall id :: id in modules && id != moduleId ==>
              LessonRecorded(modules, moduleId, lesson)[id] == modules[id]
  {
  }

  lemma LessonRecordedKeepsValid(modules: map<string, ModuleProgress>, moduleId: string, lesson: string)
    requires moduleId in modules
    requires ModulesValid(modules)
    ensures ModulesValid(LessonRecorded(modules, moduleId, lesson))
  {
    WithLessonKeepsValid(modules[moduleId], moduleId, lesson);
  }

  /** Appending a record whose id is new keeps the ids unique. */
  lemma AppendKeepsIdsUnique(records: seq<ExerciseRecord>, record: ExerciseRecord)
    requires ExerciseIdsUnique(records)
    requires !HasExercise(records, record.id)
    ensures ExerciseIdsUnique(records + [record])
  {
    var records' := records + [record];
    forall i, j | 0 <= i < j < |records'| ensures records'[i].id != records'[j].id {
      assert records'[i] == records[i];
      if j < |records| {
        assert records'[j] == records[j];
      }
    }
  }

  /** The modules after exercise `exerciseId` is submitted to the known
      module `moduleId`: the first submission is recorded, later ones change
      nothing. */
  function ExerciseRecorded(modules: map<string, ModuleProgress>, moduleId: string,
                            exerciseId: string, score: real, now: Timestamp)
    : (after: map<string, ModuleProgress>)
    requires moduleId in modules
    ensures after.Keys == modules.Keys
    ensures HasExercise(after[moduleId].exercisesCompleted, exerciseId)
    ensures HasExercise(modules[moduleId].exercisesCompleted, exerciseId) ==> after == modules
    ensures !HasExercise(modules[moduleId].exercisesCompleted, exerciseId) ==>
              after[moduleId].exercisesCompleted ==
                modules[moduleId].exercisesCompleted + [ExerciseRecord(exerciseId, now, score, moduleId)]
  {
    var m := modules[moduleId];
    if HasExercise(m.exercisesCompleted, exerciseId) then modules
    else
      var records := m.exercisesCompleted + [ExerciseRecord(exerciseId, now, score, moduleId)];
      assert records[|records| - 1].id == exerciseId;
      modules[moduleId := m.(exercisesCompleted := records)]
  }

  /** Submitting an exercise changes nothing but the submitted module's
      exercise list. */
  lemma ExerciseRecordedKeepsOthers(modules: map<string, ModuleProgress>, moduleId: string,
                                    exerciseId: string, score: real, now: Timestamp)
    requires moduleId in modules
    ensures var after := ExerciseRecorded(modules, moduleId, exerciseId, score, now);
      && (forall id :: id in modules && id != moduleId ==> after[id] == modules[id])
      && after[moduleId].(exercisesCompleted := modules[moduleId].exercisesCompleted) == modules[moduleId]
  {
  }

  lemma ExerciseRecordedKeepsValid(modules: map<string, ModuleProgress>, moduleId: string,
                                   exerciseId: string, score: real, now: Timestamp)
    requires moduleId in modules
    requires ModulesValid(modules)
    ensures ModulesValid(ExerciseRecorded(modules, moduleId, exerciseId, score, now))
  {
    var m := modules[moduleId];
    if !HasExercise(m.exercisesCompleted, exerciseId) {
      AppendKeepsIdsUnique(m.exercisesCompleted, ExerciseRecord(exerciseId, now, score, moduleId));
    }
  }

  /** The skills after one more first-time exercise in the known skill
      `skill`: its counter grows by one and its level follows the counter. */
  function SkillCredited(skills: map<string, Skill>, skill: string): (after: map<string, Skill>)
    requires skill in skills
    ensures after.Keys == skills.Keys
    ensures after[skill].exercisesCompleted == skills[skill].exercisesCompleted + 1
    ensures after[skill].confidence == skills[skill].confidence
    ensures after[skill].level == SkillLevel(after[skill].exercisesCompleted)
  {
    var count := skills[skill].exercisesCompleted + 1;
    skills[skill := skills[skill].(exercisesCompleted := count, level := SkillLevel(count))]
  }

  lemma SkillCreditedKeepsValid(skills: map<string, Skill>, skill: string)
    requires skill in skills
    requires SkillsValid(skills)
    ensures SkillsValid(SkillCredited(skills, skill))
    ensures forall id :: id in skills && id != skill ==> SkillCredited(skills, skill)[id] == skills[id]
  {
  }

  /** The skills after the known skill `skill` is rated `confidence`. */
  function Rated(skills: map<string, Skill>, skill: string, confidence: int): (after: map<string, Skill>)
    requires skill in skills
    ensures after.Keys == skills.Keys
    ensures 1 <= after[skill].confidence <= 5
    ensures 1 <= confidence <= 5 ==> after[skill].confidence == confidence
    ensures after[skill].level == skills[skill].level
    ensures after[skill].exercisesCompleted == skills[skill].exercisesCompleted
  {
    skills[skill := skills[skill].(confidence := ClampConfidence(confidence))]
  }

  lemma RatedKeepsValid(skills: map<string, Skill>, skill: string, confidence: int)
    requires skill in skills
    requires SkillsValid(skills)
    ensures SkillsValid(Rated(skills, skill, confidence))
    ensures forall id :: id in skills && id != skill ==> Rated(skills, skill, confidence)[id] == skills[id]
  {
  }

  /** The capstones after the known project `project` is graded: it is
      completed with this grade and time, whatever it held before. */
  function Graded(capstones: map<string, CapstoneProgress>, project: string, grade: real, minutes: int)
    : (after: map<string, CapstoneProgress>)
    requires project in capstones
    ensures after.Keys == capstones.Keys
    ensures after[project].completed && after[project].grade == Some(grade)
    ensures after[project].timeSpentMinutes == minutes
  {
    capstones[project := CapstoneProgress(true, Some(grade), minutes)]
  }

  lemma GradedKeepsValid(capstones: map<string, CapstoneProgress>, project: string, grade: real, minutes: int)
    requires project in capstones
    requires CapstonesValid(capstones)
    ensures CapstonesValid(Graded(capstones, project, grade, minutes))
    ensures forall id :: id in capstones && id != project ==> Graded(capstones, project, grade, minutes)[id] == capstones[id]
  {
  }

  /** Unlocking keeps every achievement's flag and date in step. */
  lemma UnlockedKeepsValid(achievements: map<string, Achievement>, id: string, now: Timestamp)
    requires AchievementsValid(achievements)
    ensures AchievementsValid(Unlocked(achievements, id, now))
  {
  }
}
