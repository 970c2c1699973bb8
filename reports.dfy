/** The figures of a learning report: the sessions started within a trailing
    window of days, their time, the average session length and the distinct
    lessons completed in them, next to the overall progress. The layout of
    the report text is not modelled. */
module Reports {
  import opened Records
  import opened Catalog

  /** The trailing window of a report period: one day for "daily", seven
      for "weekly", thirty for any other period name. */
  function WindowDays(period: string): (days: nat)
    ensures days == 1 <==> period == "daily"
    ensures days == 7 <==> period == "weekly"
    ensures days == 1 || days == 7 || days == 30
  {
    if period == "daily" then 1
    else if period == "weekly" then 7
    else 30
  }

  /** The logged sessions that started on or after day `cutoff`, in log order. */
  function SessionsSince(log: seq<Session>, cutoff: Day): (kept: seq<Session>)
    ensures |kept| <= |log|
    ensures forall s :: s in kept <==> s in log && DayOf(s.startTime) >= cutoff
  {
    if log == [] then []
    else
      var rest := SessionsSince(log[1..], cutoff);
      if DayOf(log[0].startTime) >= cutoff then [log[0]] + rest else rest
  }

  /** A kept session is kept as many times as it is logged, and the rest
      not at all, so the kept count is the number of logged sessions in the
      window. */
  lemma {:induction false} SessionsSinceCounts(log: seq<Session>, cutoff: Day)
    ensures forall s :: multiset(SessionsSince(log, cutoff))[s] ==
              if DayOf(s.startTime) >= cutoff then multiset(log)[s] else 0
  {
    if log != [] {
      SessionsSinceCounts(log[1..], cutoff);
      assert log == [log[0]] + log[1..];
    }
  }

  /** The minutes spent in the given sessions. */
  function TotalMinutes(sessions: seq<Session>): int {
    if sessions == [] then 0 else sessions[0].durationMinutes + TotalMinutes(sessions[1..])
  }

  /** The distinct (module, lesson) pairs of the sessions flagged completed. */
  function CompletedLessons(sessions: seq<Session>): set<(string, string)> {
    set s | s in sessions && s.completed :: (s.moduleId, s.lesson)
  }

  /** There are never more distinct completed lessons than sessions. */
  lemma {:induction false} CompletedLessonsBound(sessions: seq<Session>)
    ensures |CompletedLessons(sessions)| <= |sessions|
  {
    if sessions != [] {
      var first := sessions[0];
      var rest := sessions[1..];
      var head: set<(string, string)> := if first.completed then {(first.moduleId, first.lesson)} else {};
      assert CompletedLessons(sessions) == head + CompletedLessons(rest) by {
        forall p | p in CompletedLessons(sessions) ensures p in head + CompletedLessons(rest) {
          var s :| s in sessions && s.completed && p == (s.moduleId, s.lesson);
          if s != first {
            assert s in rest;
          }
        }
      }
      CompletedLessonsBound(rest);
    }
  }

  /** The mean of `total` over `count` sessions, 0 when there are none. */
  function Average(total: int, count: nat): (avg: real)
    ensures count == 0 ==> avg == 0.0
    ensures count > 0 ==> avg * count as real == total as real
  {
    if count == 0 then 0.0 else total as real / count as real
  }

  /** A module's line in the report. */
  datatype ModuleLine = ModuleLine(id: string, completed: bool, progressPct: real, lessons: nat)

  datatype ReportFigures = ReportFigures(
    startDate: Day,
    endDate: Day,
    sessions: nat,
    totalMinutes: int,
    averageMinutes: real,
    lessonsCompleted: nat,
    currentStreakDays: int,
    longestStreakDays: int,
    level: int,
    totalXp: int,
    totalStudyMinutes: int,
    modules: seq<ModuleLine>)

  /** The line of module `id`: its completion, percentage and lesson count. */
  function LineOf(id: string, m: ModuleProgress): ModuleLine {
    ModuleLine(id, m.completed, m.progressPct, |m.lessonsCompleted|)
  }

  /** The lines of the listed modules that the state holds, in list order. */
  function ModuleLines(modules: map<string, ModuleProgress>, ids: seq<string>): (lines: seq<ModuleLine>)
    ensures |lines| <= |ids|
    ensures forall i :: 0 <= i < |lines| ==>
              && lines[i].id in modules && lines[i].id in ids
              && lines[i] == LineOf(lines[i].id, modules[lines[i].id])
  {
    if ids == [] then []
    else
      var rest := ModuleLines(modules, ids[1..]);
      if ids[0] in modules then
        [LineOf(ids[0], modules[ids[0]])] + rest
      else rest
  }

  /** Every listed module the state holds gets a line. */
  lemma {:induction false} ModuleLinesCover(modules: map<string, ModuleProgress>, ids: seq<string>, id: string)
    requires id in ids && id in modules
    ensures LineOf(id, modules[id]) in ModuleLines(modules, ids)
  {
    if ids[0] != id {
      assert id in ids[1..] by {
        var k :| 0 <= k < |ids| && ids[k] == id;
        assert ids[1..][k - 1] == id;
      }
      ModuleLinesCover(modules, ids[1..], id);
    }
  }

  /** The report figures for `period` on day `today`. */
  function Report(period: string, today: Day, log: seq<Session>, user: UserInfo,
                  modules: map<string, ModuleProgress>): (r: ReportFigures)
    ensures r.endDate == today && r.endDate - r.startDate == WindowDays(period)
    ensures r.sessions <= |log|
    ensures r.lessonsCompleted <= r.sessions
    ensures r.sessions == 0 ==> r.averageMinutes == 0.0 && r.totalMinutes == 0
    ensures r.sessions > 0 ==> r.averageMinutes * r.sessions as real == r.totalMinutes as real
    ensures r.averageMinutes == Average(r.totalMinutes, r.sessions)
    ensures var kept := SessionsSince(log, today - WindowDays(period));
      && r.sessions == |kept|
      && r.totalMinutes == TotalMinutes(kept)
      && r.lessonsCompleted == |CompletedLessons(kept)|
    ensures r.currentStreakDays == user.currentStreakDays && r.longestStreakDays == user.longestStreakDays
    ensures r.level == user.currentLevel && r.totalXp == user.totalXp
    ensures r.totalStudyMinutes == user.totalStudyMinutes
    ensures r.modules == ModuleLines(modules, ModuleIds)
  {
    var start := today - WindowDays(period);
    var kept := SessionsSince(log, start);
    var total := TotalMinutes(kept);
    CompletedLessonsBound(kept);
    ReportFigures(
      start, today, |kept|, total, Average(total, |kept|), |CompletedLessons(kept)|,
      user.currentStreakDays, user.longestStreakDays, user.currentLevel, user.totalXp,
      user.totalStudyMinutes, ModuleLines(modules, ModuleIds))
  }
}
