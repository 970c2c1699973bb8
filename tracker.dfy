/** The learner-progress tracker: one object owning the progress document
    (user info, modules, capstones, skills, daily activity), the session log,
    the achievements and the open-session slot. Every operation updates
    these fields in place; saving them to disk is not modelled. */
module Tracker {
  import opened Wrappers
  import opened Records
  import opened Catalog
  import opened Rules
  import opened SessionIds
  import opened State
  import opened Steps
  import Stats
  import Reports

  class ProgressTracker {
    var user: UserInfo
    var modules: map<string, ModuleProgress>
    var capstones: map<string, CapstoneProgress>
    var skills: map<string, Skill>
    var dailyActivity: map<Day, DailyActivity>
    var sessionLog: seq<Session>
    var achievements: map<string, Achievement>
    var currentSession: Option<Session>
    var sessionStartTime: Option<Timestamp>

    /** The key sets the documents are created with; no operation adds or
        removes a key. */
    ghost const moduleKeys: set<string>
    ghost const capstoneKeys: set<string>
    ghost const skillKeys: set<string>
    ghost const achievementKeys: set<string>

    ghost predicate Valid()
      reads this
    {
      && modules.Keys == moduleKeys && capstones.Keys == capstoneKeys
      && skills.Keys == skillKeys && achievements.Keys == achievementKeys
      && "consistent_learner" in achievements && "deep_learning_expert" in achievements
      && UserValid(user)
      && ModulesValid(modules)
      && CapstonesValid(capstones)
      && SkillsValid(skills)
      && AchievementsValid(achievements)
      && ActivityValid(dailyActivity)
      && LogValid(sessionLog)
      && OpenSlotValid(currentSession, sessionStartTime, |sessionLog|)
    }

    /** A tracker with no saved documents starts from the defaults. */
    constructor (now: Timestamp)
      ensures Valid()
      ensures moduleKeys == DefaultModules().Keys && capstoneKeys == DefaultCapstones().Keys
      ensures skillKeys == DefaultSkills().Keys && achievementKeys == DefaultAchievements().Keys
      ensures user == DefaultUser(now)
      ensures modules == DefaultModules() && capstones == DefaultCapstones()
      ensures skills == DefaultSkills() && achievements == DefaultAchievements()
      ensures dailyActivity == map[] && sessionLog == []
      ensures currentSession == None && sessionStartTime == None
    {
      moduleKeys, capstoneKeys := DefaultModules().Keys, DefaultCapstones().Keys;
      skillKeys, achievementKeys := DefaultSkills().Keys, DefaultAchievements().Keys;
      user := DefaultUser(now);
      modules := DefaultModules();
      capstones := DefaultCapstones();
      skills := DefaultSkills();
      dailyActivity := map[];
      sessionLog := [];
      achievements := DefaultAchievements();
      currentSession := None;
      sessionStartTime := None;
      DefaultsValid(now);
    }

    /** Opens a session numbered after the logged ones. A session that is
        already open is discarded without being logged. */
    method StartSession(moduleId: string, lesson: string, notes: string, now: Timestamp)
      returns (s: Session)
      requires Valid()
      modifies this`currentSession, this`sessionStartTime
      ensures Valid()
      ensures s == Session(SessionId(|sessionLog| + 1), now, moduleId, lesson, notes, None, 0, false)
      ensures currentSession == Some(s) && sessionStartTime == Some(now)
    {
      sessionStartTime := Some(now);
      s := Session(SessionId(|sessionLog| + 1), now, moduleId, lesson, notes, None, 0, false);
      currentSession := Some(s);
    }

    /** Closes the open session at time `now`, as the original does: the
        study date is recorded before the streak step runs, so the step
        always sees a study on the same day and the streak never moves
        (see StudiedAsWrittenKeepsStreak). */
    method EndSession(completed: bool, now: Timestamp) returns (r: Result<Session, Error>)
      requires Valid()
      modifies this`user, this`modules, this`dailyActivity, this`sessionLog, this`achievements
      modifies this`currentSession, this`sessionStartTime
      ensures Valid()
      ensures old(currentSession).None? ==> r == Failure(NoActiveSession) && unchanged(this)
      ensures old(currentSession).Some? ==>
        var open := old(currentSession).value;
        var minutes := now - open.startTime;
        var day := DayOf(now);
        && r == Success(Closed(open, completed, now))
        && sessionLog == old(sessionLog) + [r.value]
        && currentSession == None && sessionStartTime == None
        && user == StudiedAsWritten(old(user), day, minutes)
        && achievements ==
             (if user.currentStreakDays >= 30
              then Unlocked(old(achievements), "consistent_learner", now)
              else old(achievements))
        && dailyActivity == Recorded(old(dailyActivity), day, open.moduleId, minutes)
        && modules == WithTime(old(modules), open.moduleId, minutes)
    {
      if currentSession.None? || sessionStartTime.None? {
        return Failure(NoActiveSession);
      }
      var open, start := currentSession.value, sessionStartTime.value;
      assert start == open.startTime;
      var minutes, day := now - start, DayOf(now);
      var closed := Closed(open, completed, now);
      var activity := Recorded(dailyActivity, day, open.moduleId, minutes);
      var timed := WithTime(modules, open.moduleId, minutes);
      LogGrows(sessionLog, open, completed, now);
      RecordedKeepsValid(dailyActivity, day, open.moduleId, minutes);
      WithTimeKeepsValid(modules, open.moduleId, minutes);
      user := user.(totalStudyMinutes := user.totalStudyMinutes + minutes, lastStudyDate := Some(day));
      UpdateStreak(day, now);
      sessionLog, dailyActivity, modules := sessionLog + [closed], activity, timed;
      currentSession, sessionStartTime := None, None;
      r := Success(closed);
    }

    /** Closes the open session with the streak updated from the study date
        recorded before this session, which is what the streak rule intends. */
    method EndSessionIntended(completed: bool, now: Timestamp) returns (r: Result<Session, Error>)
      requires Valid()
      modifies this`user, this`modules, this`dailyActivity, this`sessionLog, this`achievements
      modifies this`currentSession, this`sessionStartTime
      ensures Valid()
      ensures old(currentSession).None? ==> r == Failure(NoActiveSession) && unchanged(this)
      ensures old(currentSession).Some? ==>
        var open := old(currentSession).value;
        var minutes := now - open.startTime;
        var day := DayOf(now);
        && r == Success(Closed(open, completed, now))
        && sessionLog == old(sessionLog) + [r.value]
        && currentSession == None && sessionStartTime == None
        && user == StudiedIntended(old(user), day, minutes)
        && achievements ==
             (if user.currentStreakDays >= 30
              then Unlocked(old(achievements), "consistent_learner", now)
              else old(achievements))
        && dailyActivity == Recorded(old(dailyActivity), day, open.moduleId, minutes)
        && modules == WithTime(old(modules), open.moduleId, minutes)
    {
      if currentSession.None? || sessionStartTime.None? {
        return Failure(NoActiveSession);
      }
      var open, start := currentSession.value, sessionStartTime.value;
      assert start == open.startTime;
      var minutes, day := now - start, DayOf(now);
      var closed := Closed(open, completed, now);
      var activity := Recorded(dailyActivity, day, open.moduleId, minutes);
      var timed := WithTime(modules, open.moduleId, minutes);
      LogGrows(sessionLog, open, completed, now);
      RecordedKeepsValid(dailyActivity, day, open.moduleId, minutes);
      WithTimeKeepsValid(modules, open.moduleId, minutes);
      sessionLog := sessionLog + [closed];
      UpdateStreak(day, now);
      user := user.(totalStudyMinutes := user.totalStudyMinutes + minutes, lastStudyDate := Some(day));
      dailyActivity := activity;
      modules := timed;
      currentSession, sessionStartTime := None, None;
      r := Success(closed);
    }

    /** The streak step for a study on `studyDate`, against the study date
        currently recorded: none recorded gives 1, the same date keeps the
        streak, the next date extends it, any other date restarts it at 1.
        The longest streak follows, and a streak of 30 unlocks
        `consistent_learner`. */
    method UpdateStreak(studyDate: Day, now: Timestamp)
      requires UserValid(user) && AchievementsValid(achievements)
      requires "consistent_learner" in achievements
      modifies this`user, this`achievements
      ensures UserValid(user) && AchievementsValid(achievements)
      ensures achievements.Keys == old(achievements).Keys
      ensures user == Streaked(old(user), studyDate)
      ensures achievements ==
                (if user.currentStreakDays >= 30 then Unlocked(old(achievements), "consistent_learner", now)
                 else old(achievements))
    {
      StreakedKeepsValid(user, studyDate);
      UnlockedKeepsValid(achievements, "consistent_learner", now);
      var streak := user.currentStreakDays;
      match user.lastStudyDate {
        case Some(last) =>
          if studyDate == last {
          } else if studyDate == last + 1 {
            streak := streak + 1;
          } else {
            streak := 1;
          }
        case None =>
          streak := 1;
      }
      user := user.(currentStreakDays := streak);
      if streak > user.longestStreakDays {
        user := user.(longestStreakDays := streak);
      }
      if streak >= 30 && !achievements["consistent_learner"].unlocked {
        UnlockAchievement("consistent_learner", now);
      }
    }

    /** Records `lesson` as completed in `moduleId` (once), recomputes the
        module's percentage and completion, and adds `xpEarned` to the total
        XP whether or not the lesson was new. Unknown modules raise. */
    method MarkLessonComplete(moduleId: string, lesson: string, xpEarned: int, now: Timestamp)
      returns (r: Outcome<Error>)
      requires Valid()
      modifies this`modules, this`user, this`achievements
      ensures Valid()
      ensures moduleId !in old(modules) ==>
                r == Fail(UnknownModule(moduleId)) && unchanged(this)
      ensures moduleId in old(modules) ==>
        var isNew := lesson !in old(modules)[moduleId].lessonsCompleted;
        && r == Pass
        && modules == LessonRecorded(old(modules), moduleId, lesson)
        && achievements ==
             (if isNew && modules[moduleId].completed then Unlocked(old(achievements), "scholar", now)
              else old(achievements))
        && user == old(user).(totalXp := old(user).totalXp + xpEarned,
                              currentLevel := Level(old(user).totalXp + xpEarned))
    {
      if moduleId !in modules {
        return Fail(UnknownModule(moduleId));
      }
      var isNew := lesson !in modules[moduleId].lessonsCompleted;
      LessonRecordedKeepsValid(modules, moduleId, lesson);
      modules := LessonRecorded(modules, moduleId, lesson);
      if isNew && modules[moduleId].progressPct >= 100.0 {
        UnlockedKeepsValid(achievements, "scholar", now);
        achievements := Unlocked(achievements, "scholar", now);
      }
      user := user.(totalXp := user.totalXp + xpEarned);
      UpdateLevel();
      r := Pass;
    }

    /** Sets the level to the one the total XP earns. */
    method UpdateLevel()
      modifies this`user
      ensures user == old(user).(currentLevel := Level(old(user).totalXp))
      ensures (user.currentLevel - 1) * 1000 <= user.totalXp < user.currentLevel * 1000
    {
      user := user.(currentLevel := 1 + user.totalXp / 1000);
    }

    /** Records an exercise once per id in a known module: the first
        submission's record and score stand. A first completion that names a
        known skill advances that skill's counter and level. Unknown
        modules raise. */
    method MarkExerciseComplete(moduleId: string, exerciseId: string, score: real,
                                skill: Option<string>, now: Timestamp)
      returns (r: Outcome<Error>)
      requires Valid()
      modifies this`modules, this`skills
      ensures Valid()
      ensures moduleId !in old(modules) ==>
                r == Fail(UnknownModule(moduleId)) && unchanged(this)
      ensures moduleId in old(modules) ==>
        var isNew := !HasExercise(old(modules)[moduleId].exercisesCompleted, exerciseId);
        && r == Pass
        && modules == ExerciseRecorded(old(modules), moduleId, exerciseId, score, now)
        && skills ==
             (if isNew && skill.Some? && skill.value in old(skills)
              then SkillCredited(old(skills), skill.value) else old(skills))
        && CountWithId(modules[moduleId].exercisesCompleted, exerciseId) == 1
    {
      if moduleId !in modules {
        return Fail(UnknownModule(moduleId));
      }
      var isNew := !HasExercise(modules[moduleId].exercisesCompleted, exerciseId);
      ExerciseRecordedKeepsValid(modules, moduleId, exerciseId, score, now);
      modules := ExerciseRecorded(modules, moduleId, exerciseId, score, now);
      if isNew && skill.Some? && skill.value in skills {
        SkillCreditedKeepsValid(skills, skill.value);
        skills := SkillCredited(skills, skill.value);
      }
      UniqueIdsAtMostOne(modules[moduleId].exercisesCompleted, exerciseId);
      r := Pass;
    }

    /** Stores a known skill's confidence clamped to 1..5; an unknown skill
        is ignored. */
    method UpdateSkillConfidence(skill: string, confidence: int)
      requires Valid()
      modifies this`skills
      ensures Valid()
      ensures skill in old(skills) ==> skills == Rated(old(skills), skill, confidence)
      ensures skill !in old(skills) ==> skills == old(skills)
    {
      if skill in skills {
        RatedKeepsValid(skills, skill, confidence);
        skills := Rated(skills, skill, confidence);
      }
    }

    /** Completes a known capstone with its grade and time (replacing any
        earlier ones). A grade of 95 or more unlocks `deep_learning_expert`;
        once every capstone and every module is completed, `master` is
        unlocked. An unknown project is ignored. */
    method MarkCapstoneComplete(project: string, grade: real, timeSpentMinutes: int, now: Timestamp)
      requires Valid()
      modifies this`capstones, this`achievements
      ensures Valid()
      ensures project !in old(capstones) ==> unchanged(this)
      ensures project in old(capstones) ==>
        var afterGrade :=
          if grade >= 95.0 then Unlocked(old(achievements), "deep_learning_expert", now) else old(achievements);
        && capstones == Graded(old(capstones), project, grade, timeSpentMinutes)
        && achievements ==
             (if AllCapstonesCompleted(capstones) && AllModulesCompleted(modules)
              then Unlocked(afterGrade, "master", now) else afterGrade)
    {
      if project in capstones {
        GradedKeepsValid(capstones, project, grade, timeSpentMinutes);
        capstones := Graded(capstones, project, grade, timeSpentMinutes);
        if grade >= 95.0 && !achievements["deep_learning_expert"].unlocked {
          UnlockedKeepsValid(achievements, "deep_learning_expert", now);
          achievements := Unlocked(achievements, "deep_learning_expert", now);
        }
        if AllCapstonesCompleted(capstones) && AllModulesCompleted(modules) {
          UnlockedKeepsValid(achievements, "master", now);
          achievements := Unlocked(achievements, "master", now);
        }
      }
    }

    /** Unlocks a known, still locked achievement, dated `now`; an unknown or
        already unlocked one is left as it is. */
    method UnlockAchievement(id: string, now: Timestamp)
      requires AchievementsValid(achievements)
      modifies this`achievements
      ensures AchievementsValid(achievements)
      ensures achievements == Unlocked(old(achievements), id, now)
    {
      if id in achievements && !achievements[id].unlocked {
        achievements := achievements[id := achievements[id].(unlocked := true, date := Some(now))];
      }
    }

    /** The statistics snapshot; reading it changes nothing. */
    function GetStats(): (s: Stats.StatsSnapshot)
      reads this
      ensures s.summary.modulesCompleted == Stats.CompletedModules(modules, ModuleIds)
      ensures s.summary.capstonesCompleted == Stats.CompletedCapstones(capstones, CapstoneIds)
      ensures s.summary.lessonsCompleted == Stats.TotalLessons(modules, ModuleIds)
      ensures s.summary.exercisesCompleted == Stats.TotalExercises(modules, ModuleIds)
      ensures s.summary.totalModules == |modules|
      ensures s.recentSessions == Stats.RecentSessions(sessionLog)
      ensures s.user == user && s.skills == skills && s.achievements == achievements
    {
      Stats.Snapshot(user, modules, capstones, skills, achievements, sessionLog)
    }

    /** The figures of the report for `period` at time `now`. */
    function GenerateReport(period: string, now: Timestamp): (r: Reports.ReportFigures)
      reads this
      ensures r.endDate == DayOf(now) && r.endDate - r.startDate == Reports.WindowDays(period)
      ensures var kept := Reports.SessionsSince(sessionLog, DayOf(now) - Reports.WindowDays(period));
        && r.sessions == |kept|
        && r.totalMinutes == Reports.TotalMinutes(kept)
        && r.lessonsCompleted == |Reports.CompletedLessons(kept)|
      ensures r.averageMinutes == Reports.Average(r.totalMinutes, r.sessions)
      ensures r.currentStreakDays == user.currentStreakDays && r.longestStreakDays == user.longestStreakDays
      ensures r.level == user.currentLevel && r.totalXp == user.totalXp
      ensures r.totalStudyMinutes == user.totalStudyMinutes
      ensures r.modules == Reports.ModuleLines(modules, ModuleIds)
    {
      Reports.Report(period, DayOf(now), sessionLog, user, modules)
    }
  }
}
