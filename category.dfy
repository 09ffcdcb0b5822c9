/**
 * The category of a task: a level paired with a tag from the closed catalogue of category types
 * (model/task/TaskCategory.java).
 */
module Category {
  import opened Wrappers

  /** Java's 32-bit `int`. */
  newtype int32 = x: int | -0x8000_0000 <= x < 0x8000_0000

  /**
   * The enum `TaskCategoryType`. Only these three constants are named by the code around it;
   * their declaration order is taken to be the order written here.
   */
  datatype TaskCategoryType = BACKEND | FRONTEND | OTHERS {
    /** `Enum.name()`: the constant's identifier. */
    function Name(): string {
      match this
      case BACKEND => "BACKEND"
      case FRONTEND => "FRONTEND"
      case OTHERS => "OTHERS"
    }
  }

  /** `TaskCategoryType.values()`, in declaration order. */
  const Values: seq<TaskCategoryType> := [BACKEND, FRONTEND, OTHERS]

  lemma ValuesComplete(t: TaskCategoryType)
    ensures t in Values
  {
    match t
    case BACKEND => assert Values[0] == t;
    case FRONTEND => assert Values[1] == t;
    case OTHERS => assert Values[2] == t;
  }

  /** Distinct constants have distinct names, so a name identifies its constant. */
  lemma NamesDistinct(t: TaskCategoryType, u: TaskCategoryType)
    ensures t.Name() == u.Name() <==> t == u
  {
    if t != u {
      assert t.Name()[0] != u.Name()[0];
    }
  }

  /**
   * The stream `filter(t -> t.name().equals(name)).findFirst()` over `types`.
   * `name().equals(null)` is false, so a `None` name matches nothing.
   */
  function FindFirstNamed(types: seq<TaskCategoryType>, name: Option<string>): (r: Option<TaskCategoryType>)
    ensures r.Some? <==> exists i :: 0 <= i < |types| && Some(types[i].Name()) == name
    ensures r.Some? ==>
      exists k :: 0 <= k < |types| && types[k] == r.value && Some(types[k].Name()) == name &&
        forall j :: 0 <= j < k ==> Some(types[j].Name()) != name
  {
    if |types| == 0 then None
    else if Some(types[0].Name()) == name then Some(types[0])
    else
      var r := FindFirstNamed(types[1..], name);
      assert forall i :: 1 <= i < |types| ==> types[i] == types[1..][i - 1];
      r
  }

  /** `TaskCategory.getFromString`: exact, case-sensitive lookup of a constant by its name. */
  function GetFromString(taskCategoryName: Option<string>): (r: Option<TaskCategoryType>)
    ensures r.Some? <==> taskCategoryName.Some? && exists t: TaskCategoryType :: t.Name() == taskCategoryName.value
    ensures r.Some? ==> r.value.Name() == taskCategoryName.value
  {
    var r := FindFirstNamed(Values, taskCategoryName);
    assert (exists t: TaskCategoryType :: Some(t.Name()) == taskCategoryName) ==> r.Some? by {
      forall t: TaskCategoryType | Some(t.Name()) == taskCategoryName
        ensures r.Some?
      {
        ValuesComplete(t);
        var i :| 0 <= i < |Values| && Values[i] == t;
      }
    }
    r
  }

  predicate IsValidLevel(test: int32) {
    test >= 0
  }

  predicate IsValidTaskCategoryName(taskCategoryName: Option<string>) {
    GetFromString(taskCategoryName).Some?
  }

  predicate IsValidTaskCategory(level: int32, taskCategoryName: Option<string>) {
    IsValidLevel(level) && IsValidTaskCategoryName(taskCategoryName)
  }

  /** The constructor stores both arguments as given and validates neither. */
  datatype TaskCategory = TaskCategory(level: int32, taskCategoryType: TaskCategoryType) {

    function GetTaskCategoryType(): TaskCategoryType {
      taskCategoryType
    }

    function GetLevel(): int32 {
      level
    }

    /**
     * `hashCode()` delegates to the type's own hash; `typeHash` stands for the enum's
     * (identity-based) `hashCode`, which the model leaves unspecified.
     */
    function HashCode(typeHash: TaskCategoryType -> int32): int32 {
      typeHash(taskCategoryType)
    }

    function ToString(): string {
      taskCategoryType.Name()
    }

    /**
     * `equals(Object other)`; `None` stands for `null` or an object of another class,
     * the `other == this` short circuit is subsumed by comparing the fields.
     */
    predicate Equals(other: Option<TaskCategory>)
      ensures Equals(other) <==> other == Some(this)
    {
      other.Some? && other.value.level == level && other.value.taskCategoryType == taskCategoryType
    }
  }

  /** A category is valid in the sense of `isValidTaskCategory` applied to its own level and name. */
  predicate Valid(c: TaskCategory) {
    IsValidTaskCategory(c.level, Some(c.ToString()))
  }

  // ---------------------------------------------------------------------------------------------
  // Properties of the validity predicates and of the lookup

  /** Validity of a name is membership of the catalogue; `null` and unknown names are invalid. */
  lemma IsValidTaskCategoryNameIff(name: Option<string>)
    ensures IsValidTaskCategoryName(name) <==> exists t: TaskCategoryType :: Some(t.Name()) == name
    ensures name == None ==> !IsValidTaskCategoryName(name)
  {
  }

  /** `isValidTaskCategory` is exactly the conjunction of its two halves. */
  lemma IsValidTaskCategoryIff(level: int32, name: Option<string>)
    ensures IsValidTaskCategory(level, name)
            <==> 0 <= level && name.Some? && exists t: TaskCategoryType :: t.Name() == name.value
  {
  }

  /** A name that is not a constant's identifier, such as a lower-case spelling, is rejected. */
  lemma UnknownNamesRejected()
    ensures !IsValidTaskCategoryName(Some("NOT_REAL"))
    ensures !IsValidTaskCategoryName(Some("backend"))
    ensures IsValidTaskCategoryName(Some("BACKEND"))
  {
    forall t: TaskCategoryType ensures t.Name() != "NOT_REAL" && t.Name() != "backend" {
      assert t.Name()[1] != "NOT_REAL"[1] || t.Name()[0] != "NOT_REAL"[0];
      assert t.Name()[0] != "backend"[0];
    }
    assert BACKEND.Name() == "BACKEND";
  }

  /** The string form of a category looks up its own type. */
  lemma {:induction false} NameRoundTrip(c: TaskCategory)
    ensures GetFromString(Some(c.ToString())) == Some(c.GetTaskCategoryType())
  {
    var r := GetFromString(Some(c.ToString()));
    assert r.Some?;
    NamesDistinct(r.value, c.taskCategoryType);
  }

  // ---------------------------------------------------------------------------------------------
  // Properties of construction, equality and hashing

  /** `equals` compares level and type, and is an equivalence relation. */
  lemma EqualsIsEquivalence(a: TaskCategory, b: TaskCategory, c: TaskCategory)
    ensures a.Equals(Some(b)) <==> a.level == b.level && a.taskCategoryType == b.taskCategoryType
    ensures a.Equals(Some(a))
    ensures a.Equals(Some(b)) <==> b.Equals(Some(a))
    ensures a.Equals(Some(b)) && b.Equals(Some(c)) ==> a.Equals(Some(c))
    ensures !a.Equals(None)
  {
  }

  /** Equal categories hash alike, whatever hash the enum constants have. */
  lemma HashConsistentWithEquals(a: TaskCategory, b: TaskCategory, typeHash: TaskCategoryType -> int32)
    ensures a.Equals(Some(b)) ==> a.HashCode(typeHash) == b.HashCode(typeHash)
  {
  }

  /** The hash ignores the level: same type with another level hashes alike yet is not equal. */
  lemma HashIgnoresLevel(a: TaskCategory, level: int32, typeHash: TaskCategoryType -> int32)
    ensures TaskCategory(level, a.taskCategoryType).HashCode(typeHash) == a.HashCode(typeHash)
    ensures level != a.level ==> !a.Equals(Some(TaskCategory(level, a.taskCategoryType)))
  {
  }
}
