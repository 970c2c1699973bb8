/** The statistics snapshot: counts summed over the modules and capstones,
    and the most recent sessions of the log. It reads the state only. */
module Stats {
  import opened Records
  import opened Catalog
  import opened Rules
  import opened Steps

  datatype Summary = Summary(
    modulesCompleted: nat,
    totalModules: nat,
    lessonsCompleted: nat,
    exercisesCompleted: nat,
    capstonesCompleted: nat)

  datatype StatsSnapshot = StatsSnapshot(
    user: UserInfo,
    summary: Summary,
    skills: map<string, Skill>,
    achievements: map<string, Achievement>,
    recentSessions: seq<Session>)

  /** How many recent sessions a snapshot shows. */
  const RecentCount: nat := 5

  /** The sum of `f` over the listed ids. */
  function SumOver(ids: seq<string>, f: string -> nat): nat {
    if ids == [] then 0 else f(ids[0]) + SumOver(ids[1..], f)
  }

  /** Sums over a list agree for summands that agree on the list. */
  lemma {:induction false} SumOverAgree(ids: seq<string>, f: string -> nat, g: string -> nat)
    requires forall i :: 0 <= i < |ids| ==> f(ids[i]) == g(ids[i])
    ensures SumOver(ids, f) == SumOver(ids, g)
  {
    if ids != [] {
      var rest := ids[1..];
      forall i | 0 <= i < |rest| ensures f(rest[i]) == g(rest[i]) {
        assert rest[i] == ids[i + 1];
      }
      SumOverAgree(rest, f, g);
    }
  }

  /** Changing the summand at one id, listed once, changes the sum by the
      change at that id. */
  lemma {:induction false} SumOverUpdate(ids: seq<string>, f: string -> nat, g: string -> nat, m: string)
    requires NoDuplicates(ids) && m in ids
    requires forall id :: id != m ==> f(id) == g(id)
    ensures SumOver(ids, g) + f(m) == SumOver(ids, f) + g(m)
  {
    var rest := ids[1..];
    assert NoDuplicates(rest) by {
      forall i, j | 0 <= i < j < |rest| ensures rest[i] != rest[j] {
        assert rest[i] == ids[i + 1] && rest[j] == ids[j + 1];
      }
    }
    if ids[0] == m {
      forall i | 0 <= i < |rest| ensures f(rest[i]) == g(rest[i]) {
        assert rest[i] == ids[i + 1] && ids[i + 1] != ids[0];
      }
      SumOverAgree(rest, f, g);
    } else {
      assert m in rest by {
        var k :| 0 <= k < |ids| && ids[k] == m;
        assert rest[k - 1] == m;
      }
      SumOverUpdate(rest, f, g, m);
    }
  }

  /** A sum of 0/1 flags counts at most one per id, and counts every id
      exactly when every flag is set. */
  lemma {:induction false} SumOverFlags(ids: seq<string>, f: string -> nat)
    requires forall i :: 0 <= i < |ids| ==> f(ids[i]) <= 1
    ensures SumOver(ids, f) <= |ids|
    ensures SumOver(ids, f) == |ids| <==> forall i :: 0 <= i < |ids| ==> f(ids[i]) == 1
  {
    if ids != [] {
      var rest := ids[1..];
      forall i | 0 <= i < |rest| ensures f(rest[i]) <= 1 {
        assert rest[i] == ids[i + 1];
      }
      SumOverFlags(rest, f);
      if forall i :: 0 <= i < |ids| ==> f(ids[i]) == 1 {
        forall i | 0 <= i < |rest| ensures f(rest[i]) == 1 {
          assert rest[i] == ids[i + 1];
        }
      }
      if SumOver(ids, f) == |ids| {
        forall i | 0 <= i < |ids| ensures f(ids[i]) == 1 {
          if i > 0 {
            assert ids[i] == rest[i - 1];
          }
        }
      }
    }
  }

  /** The lessons completed in a module, 0 for an id that is not a module. */
  function LessonsIn(modules: map<string, ModuleProgress>): string -> nat {
    id => if id in modules then |modules[id].lessonsCompleted| else 0
  }

  /** The exercises recorded in a module, 0 for an id that is not a module. */
  function ExercisesIn(modules: map<string, ModuleProgress>): string -> nat {
    id => if id in modules then |modules[id].exercisesCompleted| else 0
  }

  /** 1 for a completed module, 0 otherwise. */
  function ModuleDone(modules: map<string, ModuleProgress>): string -> nat {
    id => if id in modules && modules[id].completed then 1 else 0
  }

  /** 1 for a completed capstone, 0 otherwise. */
  function CapstoneDone(capstones: map<string, CapstoneProgress>): string -> nat {
    id => if id in capstones && capstones[id].completed then 1 else 0
  }

  /** The lessons completed over the modules listed in `ids`. */
  function TotalLessons(modules: map<string, ModuleProgress>, ids: seq<string>): nat {
    SumOver(ids, LessonsIn(modules))
  }

  /** The exercises recorded over the modules listed in `ids`. */
  function TotalExercises(modules: map<string, ModuleProgress>, ids: seq<string>): nat {
    SumOver(ids, ExercisesIn(modules))
  }

  /** The number of completed modules among those listed in `ids`. */
  function CompletedModules(modules: map<string, ModuleProgress>, ids: seq<string>): (n: nat)
    ensures n <= |ids|
  {
    SumOverFlags(ids, ModuleDone(modules));
    SumOver(ids, ModuleDone(modules))
  }

  /** The number of completed capstones among those listed in `ids`. */
  function CompletedCapstones(capstones: map<string, CapstoneProgress>, ids: seq<string>): (n: nat)
    ensures n <= |ids|
  {
    SumOverFlags(ids, CapstoneDone(capstones));
    SumOver(ids, CapstoneDone(capstones))
  }

  /** The last sessions of the log, at most `RecentCount` of them, oldest first. */
  function RecentSessions(log: seq<Session>): (recent: seq<Session>)
    ensures |recent| == if |log| < RecentCount then |log| else RecentCount
    ensures forall i :: 0 <= i < |recent| ==> recent[i] == log[|log| - |recent| + i]
  {
    if |log| <= RecentCount then log else log[|log| - RecentCount..]
  }

  /** The statistics snapshot of a tracker's state: the summary sums the
      per-module and per-capstone figures over the catalog. */
  function Snapshot(user: UserInfo, modules: map<string, ModuleProgress>,
                    capstones: map<string, CapstoneProgress>, skills: map<string, Skill>,
                    achievements: map<string, Achievement>, log: seq<Session>): (s: StatsSnapshot)
    ensures s.summary.modulesCompleted == CompletedModules(modules, ModuleIds)
    ensures s.summary.capstonesCompleted == CompletedCapstones(capstones, CapstoneIds)
    ensures s.summary.lessonsCompleted == TotalLessons(modules, ModuleIds)
    ensures s.summary.exercisesCompleted == TotalExercises(modules, ModuleIds)
    ensures s.summary.totalModules == |modules|
    ensures |s.recentSessions| <= RecentCount && |s.recentSessions| <= |log|
    ensures s.recentSessions == log[|log| - |s.recentSessions|..] == RecentSessions(log)
    ensures s.user == user && s.skills == skills && s.achievements == achievements
  {
    var summary := Summary(
      CompletedModules(modules, ModuleIds),
      |modules|,
      TotalLessons(modules, ModuleIds),
      TotalExercises(modules, ModuleIds),
      CompletedCapstones(capstones, CapstoneIds));
    StatsSnapshot(user, summary, skills, achievements, RecentSessions(log))
  }

  /** Recording a lesson in a listed module raises the lesson total by one
      when the lesson is new and leaves it as it was when it is repeated. */
  lemma TotalLessonsAfterLesson(modules: map<string, ModuleProgress>, ids: seq<string>,
                                moduleId: string, lesson: string)
    requires NoDuplicates(ids) && moduleId in ids && moduleId in modules
    ensures TotalLessons(LessonRecorded(modules, moduleId, lesson), ids) ==
              TotalLessons(modules, ids) + (if lesson in modules[moduleId].lessonsCompleted then 0 else 1)
  {
    var after := LessonRecorded(modules, moduleId, lesson);
    LessonRecordedKeepsOthers(modules, moduleId, lesson);
    SumOverUpdate(ids, LessonsIn(modules), LessonsIn(after), moduleId);
  }

  /** Submitting an exercise to a listed module raises the exercise total by
      one on the first submission and leaves it as it was on a resubmission. */
  lemma TotalExercisesAfterSubmission(modules: map<string, ModuleProgress>, ids: seq<string>,
                                      moduleId: string, exerciseId: string, score: real, now: Timestamp)
    requires NoDuplicates(ids) && moduleId in ids && moduleId in modules
    ensures TotalExercises(ExerciseRecorded(modules, moduleId, exerciseId, score, now), ids) ==
              TotalExercises(modules, ids) +
                (if HasExercise(modules[moduleId].exercisesCompleted, exerciseId) then 0 else 1)
  {
    var after := ExerciseRecorded(modules, moduleId, exerciseId, score, now);
    ExerciseRecordedKeepsOthers(modules, moduleId, exerciseId, score, now);
    SumOverUpdate(ids, ExercisesIn(modules), ExercisesIn(after), moduleId);
  }

  /** When the listed ids are exactly the modules (as the catalog's are for
      the tracker's documents), the completed-module count equals the number
      of modules exactly when every module is completed, the module
      condition under which `master` is unlocked. */
  lemma AllModulesCompletedIffCount(modules: map<string, ModuleProgress>, ids: seq<string>)
    requires forall m :: m in modules <==> m in ids
    ensures AllModulesCompleted(modules) <==> CompletedModules(modules, ids) == |ids|
  {
    var done := ModuleDone(modules);
    SumOverFlags(ids, done);
    if forall i :: 0 <= i < |ids| ==> done(ids[i]) == 1 {
      forall m | m in modules ensures modules[m].completed {
        var i :| 0 <= i < |ids| && ids[i] == m;
        assert done(ids[i]) == 1;
      }
    }
  }

  /** The capstone twin: the completed-capstone count equals the number of
      capstones exactly when every capstone is completed. */
  lemma AllCapstonesCompletedIffCount(capstones: map<string, CapstoneProgress>, ids: seq<string>)
    requires forall p :: p in capstones <==> p in ids
    ensures AllCapstonesCompleted(capstones) <==> CompletedCapstones(capstones, ids) == |ids|
  {
    var done := CapstoneDone(capstones);
    SumOverFlags(ids, done);
    if forall i :: 0 <= i < |ids| ==> done(ids[i]) == 1 {
      forall p | p in capstones ensures capstones[p].completed {
        var i :| 0 <= i < |ids| && ids[i] == p;
        assert done(ids[i]) == 1;
      }
    }
  }
}
