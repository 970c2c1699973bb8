/** The records a progress tracker keeps: one datatype per kind of entry in
    its progress, session-log and achievements documents. */
module Records {
  import opened Wrappers

  /** A wall-clock reading, in whole minutes since the epoch. */
  type Timestamp = int

  /** A calendar date, counted in days since the epoch. */
  type Day = int

  const MinutesPerDay: int := 1440

  /** The calendar date a clock reading falls on. */
  function DayOf(t: Timestamp): (d: Day)
    ensures d * MinutesPerDay <= t < (d + 1) * MinutesPerDay
  {
    t / MinutesPerDay
  }

  /** The `user_info` record. */
  datatype UserInfo = UserInfo(
    startDate: Timestamp,
    currentLevel: int,
    totalXp: int,
    totalStudyMinutes: int,
    currentStreakDays: int,
    longestStreakDays: int,
    lastStudyDate: Option<Day>)

  /** One entry of a module's `exercises_completed` list. */
  datatype ExerciseRecord = ExerciseRecord(
    id: string,
    completedAt: Timestamp,
    score: real,
    moduleId: string)

  /** One entry of the `modules` dictionary. */
  datatype ModuleProgress = ModuleProgress(
    completed: bool,
    progressPct: real,
    lessonsCompleted: seq<string>,
    exercisesCompleted: seq<ExerciseRecord>,
    timeSpentMinutes: int)

  /** One entry of the `capstones` dictionary; `grade` is null until graded. */
  datatype CapstoneProgress = CapstoneProgress(
    completed: bool,
    grade: Option<real>,
    timeSpentMinutes: int)

  /** One entry of the `skills` dictionary. */
  datatype Skill = Skill(level: int, confidence: int, exercisesCompleted: int)

  /** One entry of the `daily_activity` dictionary, keyed by date. */
  datatype DailyActivity = DailyActivity(
    totalTimeMinutes: int,
    sessions: int,
    modulesVisited: seq<string>)

  /** A study session: open while `endTime` is None, closed once logged.
      An open session carries no `completed` flag in the original record;
      here it reads as false, as a lookup with a default does there. */
  datatype Session = Session(
    id: string,
    startTime: Timestamp,
    moduleId: string,
    lesson: string,
    notes: string,
    endTime: Option<Timestamp>,
    durationMinutes: int,
    completed: bool)

  /** One entry of the achievements document. */
  datatype Achievement = Achievement(
    unlocked: bool,
    date: Option<Timestamp>,
    description: string)

  /** The errors the tracker raises. */
  datatype Error =
    | NoActiveSession          // ending a session when none is open
    | UnknownModule(moduleId: string)
}
