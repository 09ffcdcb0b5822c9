# Task categories and task storage, modelled in Dafny

This project models how a task manager validates a task's category and turns stored
tasks back into model tasks.

- **`TaskCategory`** (`Category`, `category.dfy`) pairs a 32-bit `level` with a tag from the
  closed enum `TaskCategoryType`. It provides:
  - the validity predicates `isValidLevel`, `isValidTaskCategoryName` and `isValidTaskCategory`;
  - the exact, case-sensitive lookup `getFromString`, written as the stream's
    `filter`/`findFirst` over `values()`;
  - equality on level and type, a hash that depends on the type alone, and the string form
    `name()`.
- **`JsonAdaptedTaskCategory`** (`CategoryStorage`, `category_storage.dfy`) is the stored
  `(level, typeName)` pair. It provides the projection from a category and the validating
  `toModelType`.
- **`JsonAdaptedTask`** (`TaskStorage`, `task_storage.dfy`) is the stored task. It provides the
  projection from a `Task` and the fail-fast `toModelType` chain. The chain checks name,
  category, description, priority, deadline, person and status, in that order.
- `Tasks` (`tasks.dfy`) holds the `Task` aggregate and its wrapper values. `Exceptions`
  (`exceptions.dfy`) holds the error kinds:
  - `IllegalValue` carries either a missing field's class name or a constraint-message token;
  - `DateTimeParse` is the date parser's own exception;
  - `NoSuchElement` comes from `Optional.get()`;
  - `Propagated` carries what a collaborator threw.
  `Wrappers` holds `Option` (Java `null`) and `Result` (a thrown exception).

The code that the storage layer calls but that is not part of this model is a `Collaborators`
value of uninterpreted functions. A property holds for all of them unless its lemma states a
hypothesis about them. That code is:
- `TaskName`, `Description` and `PriorityEnum` validity, and `PriorityEnum.getFromString`;
- `LocalDate.parse`;
- the person adapter;
- `Task.convertIsDone…`;
- `Object.toString` of the category adapter.

The lemmas with hypotheses are these:
- `CategoryAlwaysRejected` and `SavedTaskNeverLoads` assume that `toString` has the shape of the
  inherited `Object.toString` (`IsInheritedToString`).
- `IntendedAgreesWithWritten` assumes that `toString` returns the stored type name.
- `IntendedRoundTrip` assumes that each collaborator accepts and reproduces its own part.
- `DescriptionAndPriorityChecks`, `DeadlineOnlyParsed` and the second ensures of
  `StatusNeverReportedMissing` assume that the written category check passes. With the inherited
  `toString` it never does (`CategoryAlwaysRejected`). These lemmas therefore describe steps
  that, as the code is written, no stored task with a valid name reaches.

`LocalDate`, `PriorityEnum`, `Person` and `JsonAdaptedPerson` are abstract types.

The fail-fast order has an independent reference definition. `Checks` tests each field on its
own, and `FirstFailure` picks the first failing check. `ToModelTypeFailsAtFirstFailingCheck`
proves that the conversion is equal to this reference.

Two points about the code are easy to misread:
- **Category equality.** `TaskCategory.equals` compares the level as well as the type. Only
  `hashCode` ignores the level.
- **`OTHERS` fallback.** The adapter rejects unknown names before the lookup, so its
  `orElse(OTHERS)` fallback can never take effect (`FallbackUnreachable`).

## Model

| member | source | states |
|---|---|---|
| `Category.FindFirstNamed` | src/main/java/seedu/address/model/task/TaskCategory.java:104-106 | `filter`/`findFirst`: the result is present iff some constant in the list has exactly that name; when present it is the first such constant |
| `Category.GetFromString` | src/main/java/seedu/address/model/task/TaskCategory.java:103-107 | the lookup is present iff the name is non-null and is some constant's `name()`; the constant found carries exactly that name |
| `Category.IsValidTaskCategoryNameIff` | src/main/java/seedu/address/model/task/TaskCategory.java:81-83 | a name is valid iff some constant has exactly that name; `null` is invalid |
| `Category.IsValidTaskCategoryIff` | src/main/java/seedu/address/model/task/TaskCategory.java:92-94 | `isValidTaskCategory(level, name)` iff the level is non-negative and the name is a constant's name |
| `Category.UnknownNamesRejected` | src/main/java/seedu/address/model/task/TaskCategory.java:103-107 | the lookup is exact and case-sensitive: `"NOT_REAL"` and `"backend"` are invalid, `"BACKEND"` is valid |
| `Category.TaskCategory.ToString` | src/main/java/seedu/address/model/task/TaskCategory.java:61-63 | definition: the type's `name()`; its property is stated in `Category.NameRoundTrip` |
| `Category.NameRoundTrip` | src/main/java/seedu/address/model/task/TaskCategory.java:61-63 | looking up a category's `toString()` gives back its own type |
| `Category.TaskCategory.Equals` | src/main/java/seedu/address/model/task/TaskCategory.java:116-121 | `equals` holds exactly for another category with the same level and type; `null` and other classes are unequal |
| `Category.EqualsIsEquivalence` | src/main/java/seedu/address/model/task/TaskCategory.java:116-121 | `equals` compares level and type, and is reflexive, symmetric and transitive |
| `Category.TaskCategory.HashCode` | src/main/java/seedu/address/model/task/TaskCategory.java:50-52 | definition: the type's hash; its properties are stated in `Category.HashConsistentWithEquals` and `Category.HashIgnoresLevel` |
| `Category.HashConsistentWithEquals` | src/main/java/seedu/address/model/task/TaskCategory.java:50-52 | whatever hash the enum constants have, equal categories have equal hash codes |
| `Category.HashIgnoresLevel` | src/main/java/seedu/address/model/task/TaskCategory.java:50-52 | same type with another level: equal hash codes, yet the categories are not equal |
| `CategoryStorage.JsonAdaptedTaskCategory.ToModelType` | src/main/java/seedu/address/storage/JsonAdaptedTaskCategory.java:51-58 | fails iff `isValidTaskCategory(level, typeName)` is false, and then with `Tag.MESSAGE_CONSTRAINTS`; on success the level is kept, the type's name is the stored name, and the category is valid |
| `CategoryStorage.FromModel` | src/main/java/seedu/address/storage/JsonAdaptedTaskCategory.java:31-34 | definition: the level and the type's `name()`; its properties are stated in `CategoryStorage.RoundTrip` |
| `CategoryStorage.FallbackUnreachable` | src/main/java/seedu/address/storage/JsonAdaptedTaskCategory.java:56-57 | on success the type is the one the lookup found, so the `OTHERS` fallback never takes effect |
| `CategoryStorage.RoundTrip` | src/main/java/seedu/address/storage/JsonAdaptedTaskCategory.java:31-34 | the projection copies the level and the type's `name()`; loading it gives back an equal category iff the level is non-negative, and otherwise fails with the tag message |
| `TaskStorage.ToModelType` | src/main/java/seedu/address/storage/JsonAdaptedTask.java:69-126 | definition: the conversion as written; its properties are stated in `TaskStorage.ToModelTypeFailsAtFirstFailingCheck`, `TaskStorage.BuiltFromValidatedValues` and the per-step lemmas below |
| `TaskStorage.FromModel` | src/main/java/seedu/address/storage/JsonAdaptedTask.java:54-62 | definition: the projection used when saving; its properties are stated in `TaskStorage.SavedTaskNeverLoads` and `TaskStorage.IntendedRoundTrip` |
| `TaskStorage.BuiltFromValidatedValues` | src/main/java/seedu/address/storage/JsonAdaptedTask.java:124-125 | on success every field of the task is the value its own checks accepted; the category is the adapter's `toModelType()`; the priority is built only after `isValidPriority` holds |
| `TaskStorage.FailsAtCheck` | src/main/java/seedu/address/storage/JsonAdaptedTask.java:69-122 | when every earlier field's check passes and field `k`'s fails, the conversion throws field `k`'s error |
| `TaskStorage.SucceedsWhenChecksPass` | src/main/java/seedu/address/storage/JsonAdaptedTask.java:69-125 | when every field's check passes, the conversion returns a task |
| `TaskStorage.ToModelTypeFailsAtFirstFailingCheck` | src/main/java/seedu/address/storage/JsonAdaptedTask.java:69-122 | fail-fast in the order name, category, description, priority, deadline, person, status: the conversion fails iff some check fails, and then with the first failing check's error |
| `TaskStorage.NameCheckedFirst` | src/main/java/seedu/address/storage/JsonAdaptedTask.java:70-76 | a `null` name gives the missing-`TaskName` error whatever the other fields hold; an invalid name gives `TaskName.MESSAGE_CONSTRAINTS` |
| `TaskStorage.CategoryCheckedSecond` | src/main/java/seedu/address/storage/JsonAdaptedTask.java:79-85 | after a valid name: a `null` category gives the missing-`TaskCategory` error; a failing `isValidTaskCategory(getLevel(), toString())` gives `TaskCategory.MESSAGE_CONSTRAINTS` |
| `TaskStorage.DescriptionAndPriorityChecks` | src/main/java/seedu/address/storage/JsonAdaptedTask.java:88-104 | a `null` description or priority gives its missing-field error; an invalid one gives its own constraint message |
| `TaskStorage.DeadlineOnlyParsed` | src/main/java/seedu/address/storage/JsonAdaptedTask.java:106-110 | the deadline is checked for presence only; a malformed date surfaces as the parser's exception, not as a constraint message |
| `TaskStorage.StatusNeverReportedMissing` | src/main/java/seedu/address/storage/JsonAdaptedTask.java:118-122 | no input yields the missing-`Boolean` error; a `null` status goes straight to the string-to-boolean conversion |
| `TaskStorage.InheritedToStringNeverNamesCategory` | src/main/java/seedu/address/storage/JsonAdaptedTask.java:83 | a string shaped like `Object.toString()` of the category adapter is never a valid category name |
| `TaskStorage.CategoryAlwaysRejected` | src/main/java/seedu/address/storage/JsonAdaptedTask.java:79-85 | as written, every stored task with a valid name and a category fails with `TaskCategory.MESSAGE_CONSTRAINTS` |
| `TaskStorage.SavedTaskNeverLoads` | src/main/java/seedu/address/storage/JsonAdaptedTask.java:54-62 | as written, loading the projection of any task fails |
| `TaskStorage.IntendedAgreesWithWritten` | src/main/java/seedu/address/storage/JsonAdaptedTask.java:69-125 | the corrected conversion equals the written one whenever the checked string is the stored type name and the status is present |
| `TaskStorage.ToModelTypeIntended` | src/main/java/seedu/address/storage/JsonAdaptedTask.java:69-126 | definition: the conversion with lines 83 and 118 corrected; its properties are stated in `TaskStorage.IntendedAgreesWithWritten`, `TaskStorage.IntendedReportsMissingStatus` and `TaskStorage.IntendedRoundTrip` |
| `TaskStorage.IntendedReportsMissingStatus` | src/main/java/seedu/address/storage/JsonAdaptedTask.java:118-120 | once name, category, description, priority, deadline and person pass the corrected conversion's own checks, it reports a missing `Boolean` field iff the status is `null` |
| `TaskStorage.IntendedRoundTrip` | src/main/java/seedu/address/storage/JsonAdaptedTask.java:54-62 | the projection copies name, description, priority and deadline strings, wraps category and person, and converts the status. Loading it with the corrected conversion gives the task back. This holds when the level is non-negative and each collaborator accepts and reproduces its own part |

## Findings

| source | as written | input that shows it | evidently intended | confidence | as-written member | corrected member |
|---|---|---|---|---|---|---|
| src/main/java/seedu/address/storage/JsonAdaptedTask.java:83 | validates `taskCategory.toString()`; `JsonAdaptedTaskCategory` does not override it, so it is `Object.toString()`, "seedu.address.storage.JsonAdaptedTaskCategory@" plus a hex hash | any stored task with a valid name and a category, such as the projection of a task that was just saved | validate the stored type name, `taskCategory.getTaskCategoryType()` | high; not executed | `TaskStorage.SavedTaskNeverLoads` | `TaskStorage.IntendedRoundTrip` |
| src/main/java/seedu/address/storage/JsonAdaptedTask.java:118 | re-tests `person == null`, which is already known to be non-null | a record whose fields are all valid except a `null` status | `status == null`, reported as the missing `Boolean` field its message names | high; not executed | `TaskStorage.StatusNeverReportedMissing` | `TaskStorage.IntendedReportsMissingStatus` |

`TaskStorage.ToModelType` is the conversion as written. `TaskStorage.ToModelTypeIntended`
corrects both lines above and is otherwise identical.

## Left out

- JSON reading and writing and the Jackson annotations are left out. Only the field values are
  modelled; an absent or `null` field is `None`.
- `TaskCategoryType` is not part of this model. It is declared with the three constants that
  the code names: `BACKEND`, `FRONTEND` and `OTHERS`. Their `values()` order is assumed to be
  the declared order. `getValidTaskCategories` is not modelled.
- `TaskCategoryType.getFromString` (`JsonAdaptedTaskCategory.java:57`) is assumed to be the
  same exact-name lookup as `TaskCategory.getFromString`.
- A `TaskCategory` built with a `null` type is not modelled. In Java, `hashCode`, `toString`
  and `equals` would throw `NullPointerException` on it.
- The texts of the `MESSAGE_CONSTRAINTS` constants are left out; they are opaque tokens. A
  missing-field message is its field's class name, not the formatted string.
- `Category.TaskCategory.HashCode`: the concrete integer is not modelled. The enum constants'
  hash is a parameter, so the hash is a function of the type alone.
- The `TaskName`, `Description`, `Priority` and `TaskDeadline` wrappers are assumed to return
  the value they were built with. Their constructors and the `Task` constructor are assumed
  never to throw. Their classes, the date library and the person subsystem are
  not part of this model.
- What a collaborator throws is carried as a message string (`Propagated`). The exception's
  class is lost.
- `TaskStorage.IntendedRoundTrip` compares tasks by structural equality, not by `Task.equals`,
  which is not part of this model. The collaborators' own round trips are hypotheses of the
  lemma.
- The `SortByCategory` comparator is not part of this model, and its ordering rule is not
  modelled. Its test uses a one-argument `TaskCategory` constructor that `TaskCategory.java`
  does not have.
