/** Short sequences of tracker operations and what they promise together:
    the session lifecycle, a restarted session, the streak on the day after
    a recorded study (as written and as intended), repeated lessons and
    exercises, and capstone grading. */
module Scenarios {
  import opened Wrappers
  import opened Records
  import opened Rules
  import opened State
  import opened Steps
  import opened Tracker

  /** Ending the open session logs it as the last entry; ending again fails
      and logs nothing more. */
  method EndTwice(t: ProgressTracker, completed: bool, now: Timestamp)
    returns (first: Result<Session, Error>, second: Result<Session, Error>)
    requires t.Valid() && t.currentSession.Some?
    modifies t
    ensures t.Valid()
    ensures first.Success? && first.value.completed == completed && first.value.endTime == Some(now)
    ensures second == Failure(NoActiveSession)
    ensures t.sessionLog == old(t.sessionLog) + [first.value]
  {
    first := t.EndSession(completed, now);
    second := t.EndSession(false, now + 1);
  }

  /** Starting a session while one is open discards the open one: nothing
      is logged and the new session takes the same number. */
  method Restart(t: ProgressTracker, moduleId: string, lesson: string, other: string, now: Timestamp)
    returns (a: Session, b: Session)
    requires t.Valid()
    modifies t
    ensures t.Valid()
    ensures a.id == b.id && a.lesson == lesson && b.lesson == other
    ensures t.currentSession == Some(b) && t.sessionLog == old(t.sessionLog)
  {
    a := t.StartSession(moduleId, lesson, "", now);
    b := t.StartSession(moduleId, other, "", now + 5);
  }

  /** As written: a session on day `d`, the day after the recorded study
      date, leaves the streak where it was. */
  method NextDayAsWritten(t: ProgressTracker, moduleId: string, d: Day)
    requires t.Valid() && t.user.lastStudyDate == Some(d - 1)
    modifies t
    ensures t.Valid()
    ensures t.user.currentStreakDays == old(t.user.currentStreakDays)
    ensures t.user.lastStudyDate == Some(d)
  {
    var _ := t.StartSession(moduleId, "", "", d * MinutesPerDay);
    var _ := t.EndSession(false, d * MinutesPerDay + 20);
    StudiedAsWrittenKeepsStreak(old(t.user), d, 20);
  }

  /** As intended: the same session extends the streak by one day. */
  method NextDayIntended(t: ProgressTracker, moduleId: string, d: Day)
    requires t.Valid() && t.user.lastStudyDate == Some(d - 1)
    modifies t
    ensures t.Valid()
    ensures t.user.currentStreakDays == old(t.user.currentStreakDays) + 1
    ensures t.user.lastStudyDate == Some(d)
  {
    var _ := t.StartSession(moduleId, "", "", d * MinutesPerDay);
    var _ := t.EndSessionIntended(false, d * MinutesPerDay + 20);
  }

  /** Completing the same lesson twice records it once but earns its XP
      twice. */
  method LessonTwice(t: ProgressTracker, moduleId: string, lesson: string, xp: int, now: Timestamp)
    requires t.Valid() && moduleId in t.modules
    requires lesson !in t.modules[moduleId].lessonsCompleted
    modifies t
    ensures t.Valid()
    ensures t.modules[moduleId].lessonsCompleted == old(t.modules[moduleId].lessonsCompleted) + [lesson]
    ensures t.user.totalXp == old(t.user.totalXp) + 2 * xp
  {
    var _ := t.MarkLessonComplete(moduleId, lesson, xp, now);
    var _ := t.MarkLessonComplete(moduleId, lesson, xp, now + 1);
  }

  /** A resubmitted exercise keeps its first record and score, and credits a
      known skill once. */
  method Resubmit(t: ProgressTracker, moduleId: string, exerciseId: string, first: real, second: real,
                  skill: string, now: Timestamp)
    requires t.Valid() && moduleId in t.modules && skill in t.skills
    requires !HasExercise(t.modules[moduleId].exercisesCompleted, exerciseId)
    modifies t
    ensures t.Valid()
    ensures t.modules[moduleId].exercisesCompleted ==
              old(t.modules[moduleId].exercisesCompleted) + [ExerciseRecord(exerciseId, now, first, moduleId)]
    ensures t.skills[skill].exercisesCompleted == old(t.skills[skill].exercisesCompleted) + 1
  {
    var _ := t.MarkExerciseComplete(moduleId, exerciseId, first, Some(skill), now);
    var _ := t.MarkExerciseComplete(moduleId, exerciseId, second, Some(skill), now + 1);
  }

  /** Grading a known capstone leaves `deep_learning_expert` unlocked
      exactly when the grade is 95 or more or it was unlocked before. */
  method Grade(t: ProgressTracker, project: string, grade: real, now: Timestamp)
    requires t.Valid() && project in t.capstones
    modifies t
    ensures t.Valid()
    ensures t.achievements["deep_learning_expert"].unlocked <==>
              grade >= 95.0 || old(t.achievements["deep_learning_expert"].unlocked)
  {
    t.MarkCapstoneComplete(project, grade, 60, now);
  }

  /** A new learner who studies on thirty consecutive days: as written the
      streak stays 0, so `consistent_learner` stays locked; as intended it
      reaches 30, the threshold of that achievement. */
  lemma ThirtyDays(now: Timestamp, first: Day, minutes: int)
    ensures RunAsWritten(DefaultUser(now), first, 30, minutes).currentStreakDays == 0
    ensures RunIntended(DefaultUser(now), first, 30, minutes).currentStreakDays == 30
  {
    RunAsWrittenKeepsStreak(DefaultUser(now), first, 30, minutes);
    RunIntendedCounts(DefaultUser(now), first, 30, minutes);
  }
}
