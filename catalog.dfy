/** The fixed identifiers the tracker's default state is seeded with, and the
    per-module lesson counts. */
module Catalog {

  /** Module ids, in the order the default progress document lists them. */
  const ModuleIds: seq<string> := ["module_0", "module_1", "module_2", "module_3", "module_4"]

  const CapstoneIds: seq<string> :=
    ["project_1_regression", "project_2_classification", "project_3_neural_network"]

  const SkillIds: seq<string> :=
    ["python", "mathematics", "statistics", "machine_learning", "deep_learning"]

  const AchievementIds: seq<string> :=
    ["scholar", "mathematician", "statistician", "ml_engineer", "deep_learning_expert",
     "consistent_learner", "master", "speed_demon", "perfectionist"]

  /** The same identifiers as sets: the key sets of the default documents. */
  const ModuleKeys: set<string> := set id | id in ModuleIds
  const CapstoneKeys: set<string> := set id | id in CapstoneIds
  const SkillKeys: set<string> := set id | id in SkillIds
  const AchievementKeys: set<string> := set id | id in AchievementIds

  predicate NoDuplicates<T(==)>(s: seq<T>) {
    forall i, j :: 0 <= i < j < |s| ==> s[i] != s[j]
  }

  /** The number of lessons in a module; 0 for an id outside the table. */
  function LessonCount(moduleId: string): (n: nat)
    ensures 3 <= n <= 5 || n == 0
  {
    if moduleId == "module_0" then 3
    else if moduleId == "module_1" then 4
    else if moduleId == "module_2" then 4
    else if moduleId == "module_3" then 5
    else if moduleId == "module_4" then 4
    else 0
  }

  /** Exactly the catalog's modules have lessons. */
  lemma LessonCountKnown(moduleId: string)
    ensures LessonCount(moduleId) > 0 <==> moduleId in ModuleKeys
  {
  }

  /** Each key set holds exactly the identifiers of its list. */
  lemma KeysMatchIds()
    ensures forall id :: id in ModuleKeys <==> id in ModuleIds
    ensures forall id :: id in CapstoneKeys <==> id in CapstoneIds
    ensures forall id :: id in SkillKeys <==> id in SkillIds
    ensures forall id :: id in AchievementKeys <==> id in AchievementIds
  {
  }

  lemma CatalogsHaveNoDuplicates()
    ensures NoDuplicates(ModuleIds)
    ensures NoDuplicates(CapstoneIds)
    ensures NoDuplicates(SkillIds)
    ensures NoDuplicates(AchievementIds)
  {
  }
}
