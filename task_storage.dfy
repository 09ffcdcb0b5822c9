/**
 * The stored form of a task and its validating conversion back into a `Task`
 * (storage/JsonAdaptedTask.java).
 */
module TaskStorage {
  import opened Wrappers
  import opened Exceptions
  import opened Category
  import opened CategoryStorage
  import opened Tasks

  /** The stored form of a person (`JsonAdaptedPerson`), left abstract. */
  type JsonAdaptedPerson(==)

  /**
   * The code this conversion calls but which is not part of this model, as uninterpreted
   * functions; every property below holds for all of them.
   */
  datatype Collaborators = Collaborators(
    /** `TaskName.isValidTaskName` */
    isValidTaskName: string -> bool,
    /** `Description.isValidTaskDescription` */
    isValidTaskDescription: string -> bool,
    /** `PriorityEnum.isValidPriority` */
    isValidPriority: string -> bool,
    /** `PriorityEnum.getFromString` */
    priorityFromString: string -> Option<PriorityEnum>,
    /** `Priority.toString` */
    priorityToString: Priority -> string,
    /** `LocalDate.parse`; `None` when it throws `DateTimeParseException` */
    parseDate: string -> Option<LocalDate>,
    /** `TaskDeadline.toString` */
    deadlineToString: TaskDeadline -> string,
    /** `JsonAdaptedPerson.toModelType`; a failure carries the message of what it throws */
    personToModel: JsonAdaptedPerson -> Result<Person, string>,
    /** `new JsonAdaptedPerson(Person)` */
    personFromModel: Person -> JsonAdaptedPerson,
    /** `Task.convertIsDoneFromStringToBoolean`, which may be handed `null` */
    statusFromString: Option<string> -> Result<bool, string>,
    /** `Task.convertIsDoneFromBooleanToString` */
    statusToString: bool -> Option<string>,
    /** `toString()` of a `JsonAdaptedTaskCategory`, which that class inherits from `Object` */
    categoryToString: JsonAdaptedTaskCategory -> string)

  /** The seven stored fields; `None` stands for a field that is absent or `null`. */
  datatype JsonAdaptedTask = JsonAdaptedTask(
    taskName: Option<string>,
    description: Option<string>,
    priority: Option<string>,
    taskCategory: Option<JsonAdaptedTaskCategory>,
    deadline: Option<string>,
    person: Option<JsonAdaptedPerson>,
    status: Option<string>)

  function Missing(fieldName: string): LoadError {
    IllegalValue(MissingField(fieldName))
  }

  function Broken(constraint: ConstraintMessage): LoadError {
    IllegalValue(Constraints(constraint))
  }

  /** `JsonAdaptedTask(Task source)`: the projection used when saving. */
  function FromModel(env: Collaborators, source: Task): JsonAdaptedTask {
    JsonAdaptedTask(
      Some(source.name.taskName),
      Some(source.description.taskDescription),
      Some(env.priorityToString(source.priority)),
      Some(CategoryStorage.FromModel(source.category)),
      Some(env.deadlineToString(source.deadline)),
      Some(env.personFromModel(source.person)),
      env.statusToString(source.isDone))
  }

  /**
   * `toModelType()` as written: presence and constraint checks in the order name, category,
   * description, priority, deadline, person, status, throwing at the first that fails.
   * The category is checked through the adapter's inherited `toString()`, and the guard
   * before the status conversion re-tests `person`.
   */
  function ToModelType(env: Collaborators, a: JsonAdaptedTask): Result<Task, LoadError>
  {
    if a.taskName.None? then Failure(Missing("TaskName"))
    else if !env.isValidTaskName(a.taskName.value) then Failure(Broken(TaskNameConstraints))
    else
      var modelName := TaskName(a.taskName.value);

      if a.taskCategory.None? then Failure(Missing("TaskCategory"))
      else if !IsValidTaskCategory(a.taskCategory.value.GetLevel(), Some(env.categoryToString(a.taskCategory.value))) then
        Failure(Broken(TaskCategoryConstraints))
      else
        var modelTaskCategory :- a.taskCategory.value.ToModelType();

        if a.description.None? then Failure(Missing("Description"))
        else if !env.isValidTaskDescription(a.description.value) then Failure(Broken(DescriptionConstraints))
        else
          var modelDescription := Description(a.description.value);

          if a.priority.None? then Failure(Missing("Priority"))
          else if !env.isValidPriority(a.priority.value) then Failure(Broken(PriorityConstraints))
          else if env.priorityFromString(a.priority.value).None? then Failure(NoSuchElement)
          else
            var modelPriority := Priority(env.priorityFromString(a.priority.value).value);

            if a.deadline.None? then Failure(Missing("TaskDeadline"))
            else if env.parseDate(a.deadline.value).None? then Failure(DateTimeParse(a.deadline.value))
            else
              var modelTaskDeadline := TaskDeadline(env.parseDate(a.deadline.value).value);

              if a.person.None? then Failure(Missing("Person"))
              else if env.personToModel(a.person.value).Failure? then
                Failure(Propagated(env.personToModel(a.person.value).error))
              else
                var modelPerson := env.personToModel(a.person.value).value;

                if a.person.None? then Failure(Missing("Boolean"))
                else if env.statusFromString(a.status).Failure? then
                  Failure(Propagated(env.statusFromString(a.status).error))
                else
                  var modelStatus := env.statusFromString(a.status).value;
                  Success(Task(modelName, modelDescription, modelPriority, modelTaskCategory,
                               modelTaskDeadline, modelPerson, modelStatus))
  }

  /** On success every field of the task is the value its own checks validated. */
  lemma BuiltFromValidatedValues(env: Collaborators, a: JsonAdaptedTask)
    ensures ToModelType(env, a).Success? ==>
      && a.taskName == Some(ToModelType(env, a).value.name.taskName) && env.isValidTaskName(ToModelType(env, a).value.name.taskName)
      && a.taskCategory.Some? && a.taskCategory.value.ToModelType() == Success(ToModelType(env, a).value.category)
      && a.description == Some(ToModelType(env, a).value.description.taskDescription)
      && env.isValidTaskDescription(ToModelType(env, a).value.description.taskDescription)
      && a.priority.Some? && env.isValidPriority(a.priority.value)
      && env.priorityFromString(a.priority.value) == Some(ToModelType(env, a).value.priority.priorityEnum)
      && a.deadline.Some? && env.parseDate(a.deadline.value) == Some(ToModelType(env, a).value.deadline.date)
      && a.person.Some? && env.personToModel(a.person.value) == Success(ToModelType(env, a).value.person)
      && env.statusFromString(a.status) == Success(ToModelType(env, a).value.isDone)
  {
  }

  // ---------------------------------------------------------------------------------------------
  // Reference definition: each field checked on its own, and the first failure in a fixed order

  /** The first error in `checks`, or `None` when every check passes. */
  function FirstFailure(checks: seq<Option<LoadError>>): (r: Option<LoadError>)
    ensures r.None? <==> forall i :: 0 <= i < |checks| ==> checks[i].None?
    ensures r.Some? ==> exists k :: 0 <= k < |checks| && checks[k] == r && forall j :: 0 <= j < k ==> checks[j].None?
  {
    if |checks| == 0 then None
    else if checks[0].Some? then checks[0]
    else
      var r := FirstFailure(checks[1..]);
      assert forall i :: 1 <= i < |checks| ==> checks[i] == checks[1..][i - 1];
      r
  }

  function NameCheck(env: Collaborators, taskName: Option<string>): Option<LoadError> {
    if taskName.None? then Some(Missing("TaskName"))
    else if !env.isValidTaskName(taskName.value) then Some(Broken(TaskNameConstraints))
    else None
  }

  function CategoryCheck(env: Collaborators, taskCategory: Option<JsonAdaptedTaskCategory>): Option<LoadError> {
    if taskCategory.None? then Some(Missing("TaskCategory"))
    else if !IsValidTaskCategory(taskCategory.value.level, Some(env.categoryToString(taskCategory.value))) then
      Some(Broken(TaskCategoryConstraints))
    else if taskCategory.value.ToModelType().Failure? then Some(taskCategory.value.ToModelType().error)
    else None
  }

  function DescriptionCheck(env: Collaborators, description: Option<string>): Option<LoadError> {
    if description.None? then Some(Missing("Description"))
    else if !env.isValidTaskDescription(description.value) then Some(Broken(DescriptionConstraints))
    else None
  }

  function PriorityCheck(env: Collaborators, priority: Option<string>): Option<LoadError> {
    if priority.None? then Some(Missing("Priority"))
    else if !env.isValidPriority(priority.value) then Some(Broken(PriorityConstraints))
    else if env.priorityFromString(priority.value).None? then Some(NoSuchElement)
    else None
  }

  /** The deadline has no constraint check of its own: only presence and parsing. */
  function DeadlineCheck(env: Collaborators, deadline: Option<string>): Option<LoadError> {
    if deadline.None? then Some(Missing("TaskDeadline"))
    else if env.parseDate(deadline.value).None? then Some(DateTimeParse(deadline.value))
    else None
  }

  function PersonCheck(env: Collaborators, person: Option<JsonAdaptedPerson>): Option<LoadError> {
    if person.None? then Some(Missing("Person"))
    else if env.personToModel(person.value).Failure? then Some(Propagated(env.personToModel(person.value).error))
    else None
  }

  /** The status has no presence check that can fire: `null` goes straight to the conversion. */
  function StatusCheck(env: Collaborators, status: Option<string>): Option<LoadError> {
    if env.statusFromString(status).Failure? then Some(Propagated(env.statusFromString(status).error))
    else None
  }

  /** Each field's check, each reading only its own field, in the order the conversion runs them. */
  function Checks(env: Collaborators, a: JsonAdaptedTask): seq<Option<LoadError>> {
    [NameCheck(env, a.taskName), CategoryCheck(env, a.taskCategory), DescriptionCheck(env, a.description),
     PriorityCheck(env, a.priority), DeadlineCheck(env, a.deadline), PersonCheck(env, a.person),
     StatusCheck(env, a.status)]
  }

  /** When every earlier check passes and check `k` fails, the conversion throws check `k`'s error. */
  lemma FailsAtCheck(env: Collaborators, a: JsonAdaptedTask, k: nat)
    requires k < |Checks(env, a)| && Checks(env, a)[k].Some?
    requires forall j :: 0 <= j < k ==> Checks(env, a)[j].None?
    ensures ToModelType(env, a) == Failure(Checks(env, a)[k].value)
  {
    var cs := Checks(env, a);
    if k > 0 { assert cs[0].None?; }
    if k > 1 { assert cs[1].None?; }
    if k > 2 { assert cs[2].None?; }
    if k > 3 { assert cs[3].None?; }
    if k > 4 { assert cs[4].None?; }
    if k > 5 { assert cs[5].None?; }
  }

  /** When every check passes, the conversion succeeds. */
  lemma SucceedsWhenChecksPass(env: Collaborators, a: JsonAdaptedTask)
    requires forall i :: 0 <= i < |Checks(env, a)| ==> Checks(env, a)[i].None?
    ensures ToModelType(env, a).Success?
  {
    var cs := Checks(env, a);
    assert cs[0].None? && cs[1].None? && cs[2].None? && cs[3].None?;
    assert cs[4].None? && cs[5].None? && cs[6].None?;
  }

  /**
   * Fail-fast in a fixed order: the conversion fails exactly when some field's check fails,
   * and then with the error of the first failing field.
   */
  lemma ToModelTypeFailsAtFirstFailingCheck(env: Collaborators, a: JsonAdaptedTask)
    ensures ToModelType(env, a).Success? <==> FirstFailure(Checks(env, a)).None?
    ensures ToModelType(env, a).Failure? ==> Some(ToModelType(env, a).error) == FirstFailure(Checks(env, a))
  {
    var cs := Checks(env, a);
    var f := FirstFailure(cs);
    if f.Some? {
      var k :| 0 <= k < |cs| && cs[k] == f && forall j :: 0 <= j < k ==> cs[j].None?;
      FailsAtCheck(env, a, k);
    } else {
      SucceedsWhenChecksPass(env, a);
    }
  }

  // ---------------------------------------------------------------------------------------------
  // The individual steps

  /** The name is examined before anything else. */
  lemma NameCheckedFirst(env: Collaborators, a: JsonAdaptedTask)
    ensures a.taskName.None? ==> ToModelType(env, a) == Failure(Missing("TaskName"))
    ensures a.taskName.Some? && !env.isValidTaskName(a.taskName.value) ==>
              ToModelType(env, a) == Failure(Broken(TaskNameConstraints))
  {
  }

  /**
   * A valid name is followed by the category: a missing one is reported as such, and one whose
   * level and string form fail `isValidTaskCategory` gets the category constraint message.
   */
  lemma CategoryCheckedSecond(env: Collaborators, a: JsonAdaptedTask)
    requires a.taskName.Some? && env.isValidTaskName(a.taskName.value)
    ensures a.taskCategory.None? ==> ToModelType(env, a) == Failure(Missing("TaskCategory"))
    ensures a.taskCategory.Some? &&
            !IsValidTaskCategory(a.taskCategory.value.GetLevel(), Some(env.categoryToString(a.taskCategory.value))) ==>
              ToModelType(env, a) == Failure(Broken(TaskCategoryConstraints))
  {
  }

  /** Description and priority each report a missing value or their own constraint message. */
  lemma DescriptionAndPriorityChecks(env: Collaborators, a: JsonAdaptedTask)
    requires Checks(env, a)[0].None? && Checks(env, a)[1].None?
    ensures a.description.None? ==> ToModelType(env, a) == Failure(Missing("Description"))
    ensures a.description.Some? && !env.isValidTaskDescription(a.description.value) ==>
              ToModelType(env, a) == Failure(Broken(DescriptionConstraints))
    ensures Checks(env, a)[2].None? && a.priority.None? ==> ToModelType(env, a) == Failure(Missing("Priority"))
    ensures Checks(env, a)[2].None? && a.priority.Some? && !env.isValidPriority(a.priority.value) ==>
              ToModelType(env, a) == Failure(Broken(PriorityConstraints))
  {
    if a.description.None? || !env.isValidTaskDescription(a.description.value) {
      FailsAtCheck(env, a, 2);
    } else if a.priority.None? || !env.isValidPriority(a.priority.value) {
      FailsAtCheck(env, a, 3);
    }
  }

  /**
   * The deadline is only tested for presence: a malformed date escapes as the parser's own
   * exception, never as a constraint message.
   */
  lemma DeadlineOnlyParsed(env: Collaborators, a: JsonAdaptedTask)
    requires forall j :: 0 <= j < 4 ==> Checks(env, a)[j].None?
    ensures a.deadline.None? ==> ToModelType(env, a) == Failure(Missing("TaskDeadline"))
    ensures a.deadline.Some? && env.parseDate(a.deadline.value).None? ==>
              ToModelType(env, a) == Failure(DateTimeParse(a.deadline.value))
  {
    if DeadlineCheck(env, a.deadline).Some? {
      FailsAtCheck(env, a, 4);
    }
  }

  /**
   * The guard meant for a missing status re-tests the person, which is present by then: no input
   * is ever reported as missing its `Boolean` field, and a `null` status goes to the conversion.
   */
  lemma StatusNeverReportedMissing(env: Collaborators, a: JsonAdaptedTask)
    ensures ToModelType(env, a) != Failure(Missing("Boolean"))
    ensures (forall j :: 0 <= j < 6 ==> Checks(env, a)[j].None?) && a.status.None? ==>
              ToModelType(env, a).Success? == env.statusFromString(None).Success?
  {
    ToModelTypeFailsAtFirstFailingCheck(env, a);
    var cs := Checks(env, a);
    if ToModelType(env, a).Failure? {
      var k :| 0 <= k < |cs| && cs[k] == Some(ToModelType(env, a).error);
    }
    if (forall j :: 0 <= j < 6 ==> cs[j].None?) && a.status.None? {
      if cs[6].Some? {
        FailsAtCheck(env, a, 6);
      } else {
        SucceedsWhenChecksPass(env, a);
      }
    }
  }

  // ---------------------------------------------------------------------------------------------
  // The inherited `toString()` at the category check

  /** The class whose `toString()` the category check calls. */
  const CategoryAdapterClassName: string := "seedu.address.storage.JsonAdaptedTaskCategory"

  /**
   * The shape of `Object.toString()` on a category adapter: the class name, `@`, then the
   * hexadecimal identity hash.
   */
  predicate IsInheritedToString(s: string) {
    |CategoryAdapterClassName| < |s| && s[..|CategoryAdapterClassName| + 1] == CategoryAdapterClassName + "@"
  }

  /** No category name is as long as such a string, so it never names a category. */
  lemma InheritedToStringNeverNamesCategory(s: string)
    requires IsInheritedToString(s)
    ensures !IsValidTaskCategoryName(Some(s))
  {
    forall t: TaskCategoryType ensures t.Name() != s {
      assert |t.Name()| <= 8;
    }
  }

  /**
   * As written, any stored task with a valid name and a category fails at the category check,
   * whatever its category holds.
   */
  lemma CategoryAlwaysRejected(env: Collaborators, a: JsonAdaptedTask)
    requires a.taskName.Some? && env.isValidTaskName(a.taskName.value)
    requires a.taskCategory.Some? && IsInheritedToString(env.categoryToString(a.taskCategory.value))
    ensures ToModelType(env, a) == Failure(Broken(TaskCategoryConstraints))
  {
    InheritedToStringNeverNamesCategory(env.categoryToString(a.taskCategory.value));
  }

  /** As written, no saved task loads back. */
  lemma SavedTaskNeverLoads(env: Collaborators, t: Task)
    requires IsInheritedToString(env.categoryToString(CategoryStorage.FromModel(t.category)))
    ensures ToModelType(env, FromModel(env, t)).Failure?
  {
    if env.isValidTaskName(t.name.taskName) {
      CategoryAlwaysRejected(env, FromModel(env, t));
    }
  }

  // ---------------------------------------------------------------------------------------------
  // The conversion as its messages say it was meant

  /**
   * `toModelType()` with the category check applied to the stored type name and a missing status
   * reported as a missing `Boolean` field; every other step as written.
   */
  function ToModelTypeIntended(env: Collaborators, a: JsonAdaptedTask): Result<Task, LoadError> {
    if a.taskName.None? then Failure(Missing("TaskName"))
    else if !env.isValidTaskName(a.taskName.value) then Failure(Broken(TaskNameConstraints))
    else
      var modelName := TaskName(a.taskName.value);

      if a.taskCategory.None? then Failure(Missing("TaskCategory"))
      else if !IsValidTaskCategory(a.taskCategory.value.GetLevel(), a.taskCategory.value.GetTaskCategoryType()) then
        Failure(Broken(TaskCategoryConstraints))
      else
        var modelTaskCategory := a.taskCategory.value.ToModelType().value;

        if a.description.None? then Failure(Missing("Description"))
        else if !env.isValidTaskDescription(a.description.value) then Failure(Broken(DescriptionConstraints))
        else
          var modelDescription := Description(a.description.value);

          if a.priority.None? then Failure(Missing("Priority"))
          else if !env.isValidPriority(a.priority.value) then Failure(Broken(PriorityConstraints))
          else if env.priorityFromString(a.priority.value).None? then Failure(NoSuchElement)
          else
            var modelPriority := Priority(env.priorityFromString(a.priority.value).value);

            if a.deadline.None? then Failure(Missing("TaskDeadline"))
            else if env.parseDate(a.deadline.value).None? then Failure(DateTimeParse(a.deadline.value))
            else
              var modelTaskDeadline := TaskDeadline(env.parseDate(a.deadline.value).value);

              if a.person.None? then Failure(Missing("Person"))
              else if env.personToModel(a.person.value).Failure? then
                Failure(Propagated(env.personToModel(a.person.value).error))
              else
                var modelPerson := env.personToModel(a.person.value).value;

                if a.status.None? then Failure(Missing("Boolean"))
                else if env.statusFromString(a.status).Failure? then
                  Failure(Propagated(env.statusFromString(a.status).error))
                else
                  var modelStatus := env.statusFromString(a.status).value;
                  Success(Task(modelName, modelDescription, modelPriority, modelTaskCategory,
                               modelTaskDeadline, modelPerson, modelStatus))
  }

  /**
   * The two conversions differ only in the category check's string and the status guard: where
   * the string checked is the stored type name and the status is present, they agree.
   */
  lemma IntendedAgreesWithWritten(env: Collaborators, a: JsonAdaptedTask)
    requires a.taskCategory.Some? ==> Some(env.categoryToString(a.taskCategory.value)) == a.taskCategory.value.taskCategoryType
    requires a.status.Some?
    ensures ToModelTypeIntended(env, a) == ToModelType(env, a)
  {
  }

  /** The intended conversion rejects a missing status by name. */
  lemma IntendedReportsMissingStatus(env: Collaborators, a: JsonAdaptedTask)
    requires a.taskName.Some? && env.isValidTaskName(a.taskName.value)
    requires a.taskCategory.Some? && a.taskCategory.value.ToModelType().Success?
    requires DescriptionCheck(env, a.description).None? && PriorityCheck(env, a.priority).None?
    requires DeadlineCheck(env, a.deadline).None? && PersonCheck(env, a.person).None?
    ensures a.status.None? <==> ToModelTypeIntended(env, a) == Failure(Missing("Boolean"))
  {
  }

  /**
   * Saving then loading a task gives the task back, provided each collaborator accepts and
   * reproduces its own part and the level is non-negative.
   */
  lemma {:induction false} IntendedRoundTrip(env: Collaborators, t: Task)
    requires 0 <= t.category.level
    requires env.isValidTaskName(t.name.taskName)
    requires env.isValidTaskDescription(t.description.taskDescription)
    requires env.isValidPriority(env.priorityToString(t.priority))
    requires env.priorityFromString(env.priorityToString(t.priority)) == Some(t.priority.priorityEnum)
    requires env.parseDate(env.deadlineToString(t.deadline)) == Some(t.deadline.date)
    requires env.personToModel(env.personFromModel(t.person)) == Success(t.person)
    requires env.statusToString(t.isDone).Some?
    requires env.statusFromString(env.statusToString(t.isDone)) == Success(t.isDone)
    ensures ToModelTypeIntended(env, FromModel(env, t)) == Success(t)
  {
    CategoryStorage.RoundTrip(t.category);
  }
}
