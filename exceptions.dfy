/**
 * The failures the storage layer can raise while turning a stored task back into a model task.
 * The texts of the `MESSAGE_CONSTRAINTS` constants are not modelled: each is an opaque token.
 */
module Exceptions {

  /** The `MESSAGE_CONSTRAINTS` constant of each value class, as a token. */
  datatype ConstraintMessage =
    | TaskNameConstraints
    | TaskCategoryConstraints
    | TagConstraints
    | DescriptionConstraints
    | PriorityConstraints

  /** The message an `IllegalValueException` carries. */
  datatype Message =
      /** `String.format(MISSING_FIELD_MESSAGE_FORMAT, <class>.getSimpleName())` */
    | MissingField(fieldName: string)
    | Constraints(constraint: ConstraintMessage)

  /** Every exception the task deserialiser can let escape. */
  datatype LoadError =
    | IllegalValue(message: Message)
      /** `java.time.format.DateTimeParseException` thrown by `LocalDate.parse` */
    | DateTimeParse(text: string)
      /** `NoSuchElementException` thrown by `Optional.get()` on an empty optional */
    | NoSuchElement
      /** What a collaborator outside this model (the person adapter, the status conversion) throws, passed on unchanged */
    | Propagated(detail: string)
}
