/**
 * The task aggregate and the value classes it is built from. Their classes are not part of this
 * model: each wrapper only holds the value its constructor was given, and the library and
 * person types are left abstract.
 */
module Tasks {
  import opened Category

  /** `java.time.LocalDate` */
  type LocalDate(==)
  /** The enum `PriorityEnum` */
  type PriorityEnum(==)
  /** A contact from the person subsystem */
  type Person(==)

  datatype TaskName = TaskName(taskName: string)
  datatype Description = Description(taskDescription: string)
  datatype Priority = Priority(priorityEnum: PriorityEnum)
  datatype TaskDeadline = TaskDeadline(date: LocalDate)

  /** `Task(name, description, priority, category, deadline, person, isDone)` */
  datatype Task = Task(
    name: TaskName,
    description: Description,
    priority: Priority,
    category: TaskCategory,
    deadline: TaskDeadline,
    person: Person,
    isDone: bool)
}
