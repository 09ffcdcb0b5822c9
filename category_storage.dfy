/** The stored form of a task category, a `(level, typeName)` pair (storage/JsonAdaptedTaskCategory.java). */
module CategoryStorage {
  import opened Wrappers
  import opened Exceptions
  import opened Category

  /**
   * `JsonAdaptedTaskCategory(int level, String taskCategoryType)`: both fields as read from storage,
   * unchecked; the type name may be `null` (`None`).
   */
  datatype JsonAdaptedTaskCategory = JsonAdaptedTaskCategory(level: int32, taskCategoryType: Option<string>) {

    function GetLevel(): int32 {
      level
    }

    function GetTaskCategoryType(): Option<string> {
      taskCategoryType
    }

    /**
     * `toModelType()`: rejects a pair that `isValidTaskCategory` rejects, with the message
     * `Tag.MESSAGE_CONSTRAINTS`; otherwise builds the category from the looked-up type, falling
     * back to `OTHERS` when the lookup is empty (which the check before it rules out).
     */
    function ToModelType(): (r: Result<TaskCategory, LoadError>)
      ensures r.Failure? <==> !IsValidTaskCategory(level, taskCategoryType)
      ensures r.Failure? ==> r.error == IllegalValue(Constraints(TagConstraints))
      ensures r.Success? ==> r.value.GetLevel() == level && taskCategoryType == Some(r.value.ToString())
      ensures r.Success? ==> Valid(r.value)
    {
      if !IsValidTaskCategory(level, taskCategoryType) then
        Failure(IllegalValue(Constraints(TagConstraints)))
      else
        Success(TaskCategory(level, GetFromString(taskCategoryType).GetOr(OTHERS)))
    }
  }

  /** `JsonAdaptedTaskCategory(TaskCategory source)`: the level and the type's `name()`. */
  function FromModel(source: TaskCategory): JsonAdaptedTaskCategory {
    JsonAdaptedTaskCategory(source.GetLevel(), Some(source.GetTaskCategoryType().Name()))
  }

  /**
   * The `orElse(OTHERS)` fallback is never taken: whenever `toModelType` succeeds, its type is the
   * one the lookup found, so an adapter naming some other type never turns into `OTHERS`.
   */
  lemma {:induction false} FallbackUnreachable(a: JsonAdaptedTaskCategory)
    ensures a.ToModelType().Success? ==> Some(a.ToModelType().value.taskCategoryType) == GetFromString(a.taskCategoryType)
    ensures a.ToModelType().Success? && a.taskCategoryType != Some(OTHERS.Name()) ==> a.ToModelType().value.taskCategoryType != OTHERS
  {
    if a.ToModelType().Success? {
      NameRoundTrip(a.ToModelType().value);
    }
  }

  /** Storing a category keeps its level and the name of its type, and loading undoes storing. */
  lemma {:induction false} RoundTrip(c: TaskCategory)
    ensures FromModel(c).GetLevel() == c.GetLevel()
    ensures FromModel(c).GetTaskCategoryType() == Some(c.ToString())
    ensures 0 <= c.level ==> FromModel(c).ToModelType() == Success(c)
    ensures c.level < 0 ==> FromModel(c).ToModelType() == Failure(IllegalValue(Constraints(TagConstraints)))
  {
    NameRoundTrip(c);
    var r := FromModel(c).ToModelType();
    if 0 <= c.level {
      assert r.Success?;
      assert r.value.Equals(Some(c)) by {
        NamesDistinct(r.value.taskCategoryType, c.taskCategoryType);
      }
    }
  }
}
