/** The consistency conditions the tracker's documents keep, one predicate
    per document part, and the default documents a new tracker starts from. */
module State {
  import opened Wrappers
  import opened Records
  import opened Catalog
  import opened Rules
  import opened SessionIds

  /** The streak never exceeds the longest streak, and the level is the
      one the total XP earns. */
  ghost predicate UserValid(u: UserInfo) {
    && 0 <= u.currentStreakDays <= u.longestStreakDays
    && u.currentLevel == Level(u.totalXp)
  }

  /** A module's lessons are distinct, its percentage is derived from them,
      it is completed exactly when the percentage reaches 100, and it holds
      at most one record per exercise, each naming the module. */
  ghost predicate ModuleValid(id: string, m: ModuleProgress) {
    && LessonCount(id) > 0
    && NoDuplicates(m.lessonsCompleted)
    && m.progressPct == Pct(|m.lessonsCompleted|, LessonCount(id))
    && m.completed == (m.progressPct >= 100.0)
    && ExerciseIdsUnique(m.exercisesCompleted)
    && forall e :: e in m.exercisesCompleted ==> e.moduleId == id
  }

  ghost predicate ModulesValid(modules: map<string, ModuleProgress>) {
    forall id :: id in modules ==> ModuleValid(id, modules[id])
  }

  /** A capstone carries a grade exactly when it is completed. */
  ghost predicate CapstonesValid(capstones: map<string, CapstoneProgress>) {
    forall id :: id in capstones ==> (capstones[id].completed <==> capstones[id].grade.Some?)
  }

  /** A skill's level is derived from its counter; its confidence is 0
      until rated, and a rating lies in 1..5. */
  ghost predicate SkillsValid(skills: map<string, Skill>) {
    forall id :: id in skills ==>
         && skills[id].exercisesCompleted >= 0
         && skills[id].level == SkillLevel(skills[id].exercisesCompleted)
         && 0 <= skills[id].confidence <= 5
  }

  /** An achievement carries a date exactly when it is unlocked. */
  ghost predicate AchievementsValid(achievements: map<string, Achievement>) {
    forall id :: id in achievements ==> (achievements[id].unlocked <==> achievements[id].date.Some?)
  }

  /** Every day with an entry saw a session, and no module is listed twice. */
  ghost predicate ActivityValid(activity: map<Day, DailyActivity>) {
    forall day :: day in activity ==>
      activity[day].sessions >= 1 && NoDuplicates(activity[day].modulesVisited)
  }

  /** The log is consistent when every session in it is closed, its
      duration being the time between its start and its end, and the last
      of `n` logged sessions is session number `n`. Stated on the last
      session and the log before it, so that appending needs one step. */
  ghost predicate LogValid(log: seq<Session>) {
    log == [] ||
    (&& LogValid(log[..|log| - 1])
     && log[|log| - 1].id == SessionId(|log|)
     && log[|log| - 1].endTime == Some(log[|log| - 1].startTime + log[|log| - 1].durationMinutes))
  }

  /** In a consistent log the i-th session (from 0) is session number
      i + 1, and it is closed. */
  lemma {:induction false} LoggedAt(log: seq<Session>, i: nat)
    requires LogValid(log)
    requires i < |log|
    ensures log[i].id == SessionId(i + 1)
    ensures log[i].endTime == Some(log[i].startTime + log[i].durationMinutes)
    decreases |log|
  {
    if i < |log| - 1 {
      var front := log[..|log| - 1];
      LoggedAt(front, i);
      assert front[i] == log[i];
    }
  }

  /** The open-session slot and its start time are set together; an open
      session is the next one to be logged and is not yet closed. */
  ghost predicate OpenSlotValid(open: Option<Session>, start: Option<Timestamp>, logged: nat) {
    && (open.Some? <==> start.Some?)
    && (open.Some? ==>
          && open.value.id == SessionId(logged + 1)
          && start.value == open.value.startTime
          && open.value.endTime.None?
          && open.value.durationMinutes == 0
          && !open.value.completed)
  }

  /** Session ids in a consistent log are pairwise distinct. */
  lemma LogIdsDistinct(log: seq<Session>, i: nat, j: nat)
    requires LogValid(log)
    requires i < j < |log|
    ensures log[i].id != log[j].id
  {
    LoggedAt(log, i);
    LoggedAt(log, j);
    SessionIdInjective(i + 1, j + 1);
  }

  // The default documents.

  const EmptyModule: ModuleProgress := ModuleProgress(false, 0.0, [], [], 0)
  const EmptyCapstone: CapstoneProgress := CapstoneProgress(false, None, 0)
  const UnratedSkill: Skill := Skill(0, 0, 0)

  function DefaultUser(now: Timestamp): UserInfo {
    UserInfo(now, 1, 0, 0, 0, 0, None)
  }

  function DefaultModules(): map<string, ModuleProgress> {
    map id | id in ModuleIds :: EmptyModule
  }

  function DefaultCapstones(): map<string, CapstoneProgress> {
    map id | id in CapstoneIds :: EmptyCapstone
  }

  function DefaultSkills(): map<string, Skill> {
    map id | id in SkillIds :: UnratedSkill
  }

  function DefaultAchievements(): map<string, Achievement> {
    map[
      "scholar" := Achievement(false, None, "Complete your first module"),
      "mathematician" := Achievement(false, None, "Complete Module 1 with all exercises correct"),
      "statistician" := Achievement(false, None, "Complete Module 2 with all exercises correct"),
      "ml_engineer" := Achievement(false, None, "Build 5 algorithms from scratch"),
      "deep_learning_expert" := Achievement(false, None, "Achieve 95%+ accuracy on capstone project"),
      "consistent_learner" := Achievement(false, None, "Maintain a 30-day study streak"),
      "master" := Achievement(false, None, "Complete the entire curriculum"),
      "speed_demon" := Achievement(false, None, "Complete a module in under 3 days"),
      "perfectionist" := Achievement(false, None, "Score 100% on all exercises in a module")
    ]
  }

  /** The default documents satisfy every consistency condition, and
      nothing in them is completed or unlocked. */
  lemma DefaultModulesValid()
    ensures DefaultModules().Keys == ModuleKeys
    ensures ModulesValid(DefaultModules()) && !AllModulesCompleted(DefaultModules())
  {
    assert "module_0" in DefaultModules();
  }

  lemma DefaultCapstonesValid()
    ensures DefaultCapstones().Keys == CapstoneKeys
    ensures CapstonesValid(DefaultCapstones()) && !AllCapstonesCompleted(DefaultCapstones())
  {
    assert "project_1_regression" in DefaultCapstones();
  }

  lemma DefaultSkillsValid()
    ensures DefaultSkills().Keys == SkillKeys
    ensures SkillsValid(DefaultSkills())
  {
  }

  lemma DefaultAchievementsValid()
    ensures DefaultAchievements().Keys == AchievementKeys
    ensures AchievementsValid(DefaultAchievements())
    ensures forall id :: id in DefaultAchievements() ==> !DefaultAchievements()[id].unlocked
  {
  }

  /** Everything a new tracker needs of the default documents, the user
      record included. */
  lemma DefaultsValid(now: Timestamp)
    ensures UserValid(DefaultUser(now))
    ensures ModulesValid(DefaultModules()) && CapstonesValid(DefaultCapstones())
    ensures SkillsValid(DefaultSkills()) && AchievementsValid(DefaultAchievements())
    ensures "consistent_learner" in DefaultAchievements() && "deep_learning_expert" in DefaultAchievements()
  {
    DefaultModulesValid();
    DefaultCapstonesValid();
    DefaultSkillsValid();
    DefaultAchievementsValid();
  }
}
