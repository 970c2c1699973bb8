/** The derivation rules the tracker applies when it updates its state:
    level from XP, skill level from the exercise counter, confidence clamping,
    lesson percentage, the streak step, daily-activity bookkeeping and
    achievement unlocking. */
module Rules {
  import opened Wrappers
  import opened Records
  import opened Catalog

  const XpPerLevel: int := 1000

  /** The level a total XP earns: one more than the number of whole
      thousands of XP (floor division, also for negative totals). */
  function Level(xp: int): (level: int)
    ensures (level - 1) * XpPerLevel <= xp < level * XpPerLevel
  {
    1 + xp / XpPerLevel
  }

  /** A skill's level from its exercise counter: one level per ten
      exercises, capped at 10. */
  function SkillLevel(exercises: int): (level: int)
    ensures level <= 10
    ensures exercises >= 0 ==> level >= 0
    ensures level == 10 <==> exercises >= 100
    ensures level < 10 ==> level * 10 <= exercises < level * 10 + 10
  {
    var tens := exercises / 10;
    if tens < 10 then tens else 10
  }

  /** A confidence rating forced into the range 1..5. */
  function ClampConfidence(confidence: int): (r: int)
    ensures 1 <= r <= 5
    ensures 1 <= confidence <= 5 ==> r == confidence
    ensures confidence < 1 ==> r == 1
    ensures confidence > 5 ==> r == 5
  {
    var upper := if confidence < 5 then confidence else 5;
    if upper > 1 then upper else 1
  }

  /** The completion percentage of a module with `count` lessons, `lessons`
      of which are completed. It can exceed 100 when more distinct lessons
      are recorded than the module has. */
  function Pct(lessons: nat, count: nat): (pct: real)
    requires count > 0
    ensures pct >= 0.0
    ensures pct >= 100.0 <==> lessons >= count
    ensures pct == 100.0 <==> lessons == count
  {
    var ratio := lessons as real / count as real;
    assert ratio * count as real == lessons as real;
    ratio * 100.0
  }

  function Max(a: int, b: int): int {
    if a < b then b else a
  }

  /** The streak after studying on `today`, given the previously recorded
      study date and the streak so far: a study on the recorded date keeps
      it, and otherwise it either grows by one day or restarts at 1, growing
      past 1 only on the day after the recorded date. */
  function NextStreak(last: Option<Day>, today: Day, streak: int): (next: int)
    ensures last.None? ==> next == 1
    ensures last == Some(today) ==> next == streak
    ensures last == Some(today - 1) ==> next == streak + 1
    ensures next == streak || next == streak + 1 || next == 1
    ensures next == streak + 1 && streak >= 1 ==> last == Some(today - 1)
    ensures last.Some? && last != Some(today) && last != Some(today - 1) ==> next == 1
  {
    match last
    case None => 1
    case Some(previous) =>
      if today == previous then streak
      else if today == previous + 1 then streak + 1
      else 1
  }

  /** An achievements map is only ever extended: every entry unlocked in
      `before` is still there, unchanged (date included), in `after`. */
  ghost predicate Grows(before: map<string, Achievement>, after: map<string, Achievement>) {
    && before.Keys <= after.Keys
    && forall id :: id in before && before[id].unlocked ==> id in after && after[id] == before[id]
  }

  /** The achievements after unlocking `id` at time `now`: a known, still
      locked entry becomes unlocked and dated `now`; otherwise nothing
      changes. */
  function Unlocked(achievements: map<string, Achievement>, id: string, now: Timestamp)
    : (after: map<string, Achievement>)
    ensures after.Keys == achievements.Keys
    ensures id in achievements ==> after[id].unlocked
    ensures id !in achievements || achievements[id].unlocked ==> after == achievements
  {
    if id in achievements && !achievements[id].unlocked then
      achievements[id := achievements[id].(unlocked := true, date := Some(now))]
    else
      achievements
  }

  /** Unlocking touches only the entry it names: that entry gains its flag
      and date and keeps its description, every other entry stays as it
      was, and nothing that was unlocked is lost. */
  lemma UnlockedChangesOnlyId(achievements: map<string, Achievement>, id: string, now: Timestamp)
    ensures var after := Unlocked(achievements, id, now);
      && Grows(achievements, after)
      && (id in achievements && !achievements[id].unlocked ==>
            after[id] == achievements[id].(unlocked := true, date := Some(now)))
      && forall other :: other in achievements && other != id ==> after[other] == achievements[other]
  {
  }

  const NoActivity: DailyActivity := DailyActivity(0, 0, [])

  /** The activity recorded for `day`, or an empty entry when there is none. */
  function EntryOn(activity: map<Day, DailyActivity>, day: Day): DailyActivity {
    if day in activity then activity[day] else NoActivity
  }

  /** A daily-activity entry after one more session of `minutes` in
      `moduleId`: the module is listed once, after those already listed. */
  function Visit(entry: DailyActivity, moduleId: string, minutes: int): (after: DailyActivity)
    ensures after.totalTimeMinutes == entry.totalTimeMinutes + minutes
    ensures after.sessions == entry.sessions + 1
    ensures moduleId in after.modulesVisited
    ensures NoDuplicates(entry.modulesVisited) ==> NoDuplicates(after.modulesVisited)
  {
    var visited :=
      if moduleId in entry.modulesVisited then entry.modulesVisited
      else entry.modulesVisited + [moduleId];
    DailyActivity(entry.totalTimeMinutes + minutes, entry.sessions + 1, visited)
  }

  /** A visit lists no module that was neither listed before nor visited,
      and keeps the earlier modules in their order at the front. */
  lemma VisitKeepsOrder(entry: DailyActivity, moduleId: string, minutes: int)
    ensures var after := Visit(entry, moduleId, minutes);
      && (forall m :: m in after.modulesVisited <==> m in entry.modulesVisited || m == moduleId)
      && |entry.modulesVisited| <= |after.modulesVisited| <= |entry.modulesVisited| + 1
      && after.modulesVisited[..|entry.modulesVisited|] == entry.modulesVisited
  {
  }

  predicate AllModulesCompleted(modules: map<string, ModuleProgress>) {
    forall m :: m in modules ==> modules[m].completed
  }

  predicate AllCapstonesCompleted(capstones: map<string, CapstoneProgress>) {
    forall p :: p in capstones ==> capstones[p].completed
  }

  predicate HasExercise(records: seq<ExerciseRecord>, exerciseId: string) {
    exists i :: 0 <= i < |records| && records[i].id == exerciseId
  }

  predicate ExerciseIdsUnique(records: seq<ExerciseRecord>) {
    forall i, j :: 0 <= i < j < |records| ==> records[i].id != records[j].id
  }

  /** The number of records carrying `exerciseId`. */
  function CountWithId(records: seq<ExerciseRecord>, exerciseId: string): nat {
    if records == [] then 0
    else (if records[0].id == exerciseId then 1 else 0) + CountWithId(records[1..], exerciseId)
  }

  /** With unique ids a module holds at most one record per exercise, and
      exactly one when the exercise has been recorded. */
  lemma {:induction false} UniqueIdsAtMostOne(records: seq<ExerciseRecord>, exerciseId: string)
    requires ExerciseIdsUnique(records)
    ensures CountWithId(records, exerciseId) <= 1
    ensures CountWithId(records, exerciseId) == 1 <==> HasExercise(records, exerciseId)
  {
    if records != [] {
      var rest := records[1..];
      assert ExerciseIdsUnique(rest) by {
        forall i, j | 0 <= i < j < |rest| ensures rest[i].id != rest[j].id {
          assert rest[i] == records[i + 1] && rest[j] == records[j + 1];
        }
      }
      UniqueIdsAtMostOne(rest, exerciseId);
      if records[0].id == exerciseId {
        assert !HasExercise(rest, exerciseId);
      } else {
        if HasExercise(records, exerciseId) {
          var k :| 0 <= k < |records| && records[k].id == exerciseId;
          assert rest[k - 1].id == exerciseId;
        }
        if HasExercise(rest, exerciseId) {
          var k :| 0 <= k < |rest| && rest[k].id == exerciseId;
          assert records[k + 1].id == exerciseId;
        }
      }
    }
  }
}
